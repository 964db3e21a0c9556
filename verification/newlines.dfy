/** Line endings of a mail body (normaliseNewlines in internal/notify/smtp.go). */
module Newlines {

  /** strings.ReplaceAll: leftmost occurrences, without overlap. */
  function ReplaceAll(s: string, from: string, to: string): string
    requires from != ""
  {
    if s == "" then ""
    else if from <= s then to + ReplaceAll(s[|from|..], from, to)
    else [s[0]] + ReplaceAll(s[1..], from, to)
  }

  const CRLF := "\r\n"

  function Collapse(s: string): string { ReplaceAll(s, CRLF, "\n") }

  function Expand(s: string): string { ReplaceAll(s, "\n", CRLF) }

  /** No line break of the text straddles this cut. */
  predicate CleanCut(s: string, t: string) {
    s == "" || t == "" || s[|s| - 1] != '\r' || t[0] != '\n'
  }

  /** Collapsing works piece by piece, wherever the text is cut but in the middle of
      a CRLF; and of the pieces that cannot be cut only CRLF itself changes. */
  lemma {:induction false} CollapseAppend(s: string, t: string)
    requires CleanCut(s, t)
    ensures Collapse(s + t) == Collapse(s) + Collapse(t)
  {
    if s == "" {
      assert s + t == t;
    } else if CRLF <= s {
      assert (s + t)[2..] == s[2..] + t;
      CollapseAppend(s[2..], t);
    } else {
      assert (s + t)[1..] == s[1..] + t && (s + t)[0] == s[0];
      assert !(CRLF <= s + t);
      CollapseAppend(s[1..], t);
    }
  }

  lemma CollapsePieces(c: char)
    ensures Collapse(CRLF) == "\n" && Collapse([c]) == [c]
  {
    assert CRLF[2..] == "" && [c][1..] == "" && !(CRLF <= [c]);
  }

  predicate BreakAt(s: string, k: int) {
    0 <= k < |s| - 1 && s[k] == '\r' && s[k + 1] == '\n'
  }

  ghost predicate HasCRLF(s: string) { exists k :: BreakAt(s, k) }

  lemma BreakFound(s: string)
    ensures CRLF <= s ==> HasCRLF(s)
    ensures s != "" && HasCRLF(s[1..]) ==> HasCRLF(s)
  {
    if CRLF <= s {
      assert BreakAt(s, 0);
    }
    if s != "" && HasCRLF(s[1..]) {
      var k :| BreakAt(s[1..], k);
      assert BreakAt(s, k + 1);
    }
  }

  /** Text without a CRLF is left alone, bare LFs and bare CRs included. */
  lemma {:induction false} CollapseLeaves(s: string)
    requires !HasCRLF(s)
    ensures Collapse(s) == s
  {
    if s != "" {
      BreakFound(s);
      CollapseLeaves(s[1..]);
    }
  }

  predicate EndsWith(s: string, suffix: string) {
    |s| >= |suffix| && s[|s| - |suffix|..] == suffix
  }

  function Normalise(body: string): string {
    var b := Expand(Collapse(body));
    if EndsWith(b, CRLF) then b else b + CRLF
  }

  /** Collapsing undoes expanding on every string, bare CRs included. */
  lemma {:induction false} CollapseUndoesExpand(s: string)
    ensures Collapse(Expand(s)) == s
  {
    if s != "" {
      CollapseUndoesExpand(s[1..]);
      var rest := Expand(s[1..]);
      if s[0] == '\n' {
        assert Expand(s) == CRLF + rest && (CRLF + rest)[2..] == rest;
      } else {
        assert Expand(s) == [s[0]] + rest && ([s[0]] + rest)[1..] == rest;
        assert !(CRLF <= [s[0]] + rest) by {
          ExpandStartsClean(s[1..]);
        }
      }
    }
  }

  lemma {:induction false} ExpandStartsClean(s: string)
    ensures Expand(s) != "" ==> Expand(s)[0] != '\n'
  {
  }

  lemma {:induction false} ExpandAppend(s: string, t: string)
    ensures Expand(s + t) == Expand(s) + Expand(t)
  {
    if s == "" {
      assert s + t == t;
    } else {
      ExpandAppend(s[1..], t);
      assert (s + t)[1..] == s[1..] + t;
    }
  }

  lemma ExpandOne(c: char)
    ensures Expand([c]) == if c == '\n' then CRLF else [c]
  {
    assert [c][1..] == "";
    if c == '\n' {
      assert [c] == "\n";
    } else {
      assert [c][0] != "\n"[0];
    }
  }

  lemma EndsWithIts(s: string, suffix: string)
    ensures EndsWith(s + suffix, suffix)
    ensures suffix != "" && EndsWith(s, suffix) ==> s[|s| - 1] == suffix[|suffix| - 1]
  {
    if suffix != "" && EndsWith(s, suffix) {
      assert s[|s| - |suffix|..][|suffix| - 1] == s[|s| - 1];
    }
  }

  lemma ExpandEnd(s: string)
    ensures EndsWith(Expand(s), CRLF) <==> EndsWith(s, "\n")
  {
    if s == "" {
      return;
    }
    var n := |s| - 1;
    assert s == s[..n] + [s[n]];
    ExpandAppend(s[..n], [s[n]]);
    ExpandOne(s[n]);
    if s[n] == '\n' {
      EndsWithIts(s[..n], "\n");
      EndsWithIts(Expand(s[..n]), CRLF);
      assert [s[n]] == "\n";
    } else {
      EndsWithIts(s, "\n");
      EndsWithIts(Expand(s), CRLF);
    }
  }

  /** The lines of a body, whatever endings it came with: its collapsed form with
      exactly the closing newline it may have lacked. */
  function Lines(body: string): string {
    var c := Collapse(body);
    if EndsWith(c, "\n") then c else c + "\n"
  }

  /** The normal form is the expansion of the lines, and the lines can be read back
      from it. */
  lemma NormaliseKeepsLines(body: string)
    ensures Normalise(body) == Expand(Lines(body))
    ensures Collapse(Normalise(body)) == Lines(body)
  {
    var c := Collapse(body);
    ExpandEnd(c);
    ExpandAppend(c, "\n");
    assert Expand("\n") == CRLF;
    CollapseUndoesExpand(Lines(body));
  }

  /** A body with LF endings only, as a transcript is, gets a CR before every LF and
      a closing CRLF if it had none; nothing else is touched. */
  lemma LFBodyIsExpanded(body: string)
    requires !HasCRLF(body)
    ensures Normalise(body) == Expand(body) + if EndsWith(body, "\n") then "" else CRLF
  {
    CollapseLeaves(body);
    ExpandEnd(body);
  }

  /** Normalising twice is normalising once. */
  lemma NormaliseIdempotent(body: string)
    ensures Normalise(Normalise(body)) == Normalise(body)
  {
    NormaliseKeepsLines(body);
    NormaliseKeepsLines(Normalise(body));
  }

  /** Two bodies are sent alike exactly when they have the same lines. */
  lemma SameMailExactlyWhen(a: string, b: string)
    ensures Normalise(a) == Normalise(b) <==> Lines(a) == Lines(b)
  {
    NormaliseKeepsLines(a);
    NormaliseKeepsLines(b);
  }

  ghost predicate NoBareLF(s: string) {
    forall k | 0 <= k < |s| && s[k] == '\n' :: k > 0 && s[k - 1] == '\r'
  }

  lemma {:induction false} ExpandLeavesNoBareLF(s: string)
    ensures NoBareLF(Expand(s))
  {
    if s != "" {
      ExpandLeavesNoBareLF(s[1..]);
      ExpandStartsClean(s[1..]);
    }
  }

  /** What SMTP requires (section 2.3.8 of RFC 5321): every LF is preceded by a CR
      and the body ends in CRLF. */
  lemma NormaliseIsCRLF(body: string)
    ensures NoBareLF(Normalise(body)) && EndsWith(Normalise(body), CRLF)
  {
    NormaliseKeepsLines(body);
    ExpandLeavesNoBareLF(Lines(body));
  }
}
