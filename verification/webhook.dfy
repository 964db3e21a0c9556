/** The webhook body (internal/notify/webhook.go): substituting a subject and a
    body into an operator's JSON template without breaking its structure. */
module Webhook {

  /** The placeholders, in the replacer's order; none is a prefix of another. */
  const SUBJECT_BRACED := "${SUBJECT}"
  const SUBJECT := "$SUBJECT"
  const BODY_BRACED := "${BODY}"
  const BODY := "$BODY"

  // ---------------------------------------------------------------- the code

  function Hex(d: int): char
    requires 0 <= d < 16
  {
    "0123456789abcdef"[d]
  }

  /** One character as the JSON encoder writes it, HTML escaping off. */
  function EscapeChar(c: char): string {
    if c == '\"' then "\\\""
    else if c == '\\' then "\\\\"
    else if c == 8 as char then "\\b"
    else if c == 12 as char then "\\f"
    else if c == '\n' then "\\n"
    else if c == '\r' then "\\r"
    else if c == '\t' then "\\t"
    else if c < 0x20 as char then "\\u00" + [Hex(c as int / 16), Hex(c as int % 16)]
    else if c == 0x2028 as char then "\\u2028"
    else if c == 0x2029 as char then "\\u2029"
    else [c]
  }

  function JsonEscape(value: string): string {
    if value == "" then "" else EscapeChar(value[0]) + JsonEscape(value[1..])
  }

  datatype Slot = Subject | Body

  /** What the replacer finds at the head of the remaining template: a placeholder
      or a character to copy. */
  datatype Segment = Literal(c: char) | Hole(slot: Slot, text: string) {
    function Source(): string {
      match this case Literal(c) => [c] case Hole(_, text) => text
    }

    function Filled(subject: string, body: string): string {
      match this case Literal(c) => [c] case Hole(slot, _) => JsonEscape(Value(slot, subject, body))
    }
  }

  function Value(slot: Slot, subject: string, body: string): string {
    match slot case Subject => subject case Body => body
  }

  /** The first placeholder, in argument order, that the text starts with. */
  function Head(template: string): (g: Segment)
    requires template != ""
    ensures g.Source() <= template && g.Source() != "" && (g.Hole? ==> IsPlaceholder(g.slot, g.text))
  {
    if SUBJECT_BRACED <= template then Hole(Subject, SUBJECT_BRACED)
    else if SUBJECT <= template then Hole(Subject, SUBJECT)
    else if BODY_BRACED <= template then Hole(Body, BODY_BRACED)
    else if BODY <= template then Hole(Body, BODY)
    else Literal(template[0])
  }

  predicate IsPlaceholder(slot: Slot, text: string) {
    match slot
    case Subject => text == SUBJECT_BRACED || text == SUBJECT
    case Body => text == BODY_BRACED || text == BODY
  }

  /** Expand: one pass from left to right. */
  function Expand(template: string, subject: string, body: string): string {
    if template == "" then ""
    else
      var head := Head(template);
      head.Filled(subject, body) + Expand(template[|head.Source()|..], subject, body)
  }

  // ---------------------------------------------------------------- segments

  /** A template as its literal characters and its placeholders. */
  function Segments(template: string): seq<Segment> {
    if template == "" then []
    else [Head(template)] + Segments(template[|Head(template).Source()|..])
  }

  /** The segments as they stand in the template. */
  function Source(segs: seq<Segment>): string {
    if segs == [] then "" else segs[0].Source() + Source(segs[1..])
  }

  /** The segments with every hole filled. */
  function Filled(segs: seq<Segment>, subject: string, body: string): string {
    if segs == [] then "" else segs[0].Filled(subject, body) + Filled(segs[1..], subject, body)
  }

  ghost predicate Proper(segs: seq<Segment>) {
    forall g | g in segs && g.Hole? :: IsPlaceholder(g.slot, g.text)
  }

  /** Where the placeholders are is settled by the template alone: what is inserted
      is never searched for further placeholders. */
  lemma {:induction false} ExpandFillsTheHoles(template: string, subject: string, body: string)
    ensures Source(Segments(template)) == template && Proper(Segments(template))
    ensures Expand(template, subject, body) == Filled(Segments(template), subject, body)
  {
    if template != "" {
      var head := Head(template);
      var rest := template[|head.Source()|..];
      ExpandFillsTheHoles(rest, subject, body);
      assert Segments(template) == [head] + Segments(rest);
      assert template == head.Source() + rest;
    }
  }

  predicate StartsWithPlaceholder(text: string) {
    "${SUBJECT}" <= text || "$SUBJECT" <= text || "${BODY}" <= text || "$BODY" <= text
  }

  lemma HeadFinds(text: string)
    requires text != ""
    ensures Head(text).Hole? <==> StartsWithPlaceholder(text)
  {
  }

  /** What is left of the template when the k-th segment is read. */
  lemma {:induction false} SegmentHeads(template: string, k: nat)
    requires k < |Segments(template)|
    ensures var rest := Source(Segments(template)[k..]); rest != "" && Segments(template)[k] == Head(rest)
  {
    if k == 0 {
      ExpandFillsTheHoles(template, "", "");
      assert Segments(template)[0..] == Segments(template);
    } else {
      var rest := template[|Head(template).Source()|..];
      SegmentHeads(rest, k - 1);
      assert Segments(template)[k..] == Segments(rest)[k - 1..];
    }
  }

  /** No placeholder is passed over: the template is copied exactly where none of
      the four begins. */
  lemma NoPlaceholderIsLeft(template: string, k: nat)
    requires k < |Segments(template)|
    ensures Segments(template)[k].Literal? <==> !StartsWithPlaceholder(Source(Segments(template)[k..]))
  {
    SegmentHeads(template, k);
    HeadFinds(Source(Segments(template)[k..]));
  }

  /** Each of the four becomes its value, escaped, and expansion goes on behind it;
      anything else is copied. */
  lemma PlaceholderBecomesValue(t: string, subject: string, body: string)
    ensures "${SUBJECT}" <= t ==> Expand(t, subject, body) == JsonEscape(subject) + Expand(t[10..], subject, body)
    ensures "$SUBJECT" <= t ==> Expand(t, subject, body) == JsonEscape(subject) + Expand(t[8..], subject, body)
    ensures "${BODY}" <= t ==> Expand(t, subject, body) == JsonEscape(body) + Expand(t[7..], subject, body)
    ensures "$BODY" <= t ==> Expand(t, subject, body) == JsonEscape(body) + Expand(t[5..], subject, body)
    ensures t != "" && !StartsWithPlaceholder(t) ==> Expand(t, subject, body) == [t[0]] + Expand(t[1..], subject, body)
  {
    if "${SUBJECT}" <= t || "${BODY}" <= t {
      assert t[1] == '{' && !("$SUBJECT" <= t) && !("$BODY" <= t);
    }
    if "${BODY}" <= t {
      assert t[2] == 'B' && !("${SUBJECT}" <= t);
    }
    if "$BODY" <= t {
      assert t[1] == 'B' && !("$SUBJECT" <= t) && !("${SUBJECT}" <= t);
    }
  }

  // ---------------------------------------------------------------- JSON text

  /** The string lexer of section 7 of RFC 8259. `Code` has read some of the four
      digits of a \u escape. */
  datatype Lexer = Outside | InString | Escaped | Code(digits: nat, value: int) | Broken

  /** What the text means: characters between the strings, string delimiters, and
      the code units the strings contain. */
  datatype Item = Mark(c: char) | Quote | Unit(code: int)

  function HexValue(c: char): int {
    if '0' <= c <= '9' then c as int - '0' as int
    else if 'a' <= c <= 'f' then c as int - 'a' as int + 10
    else if 'A' <= c <= 'F' then c as int - 'A' as int + 10
    else -1
  }

  function Short(c: char): int {
    match c
    case '\"' => 0x22 case '\\' => 0x5c case '/' => 0x2f
    case 'b' => 8 case 'f' => 12 case 'n' => 10 case 'r' => 13 case 't' => 9
    case _ => -1
  }

  function Step(q: Lexer, c: char): (Lexer, seq<Item>) {
    match q
    case Outside => if c == '\"' then (InString, [Quote]) else (Outside, [Mark(c)])
    case InString =>
      if c == '\"' then (Outside, [Quote])
      else if c == '\\' then (Escaped, [])
      else if c < 0x20 as char then (Broken, [])
      else (InString, [Unit(c as int)])
    case Escaped =>
      if c == 'u' then (Code(0, 0), [])
      else if Short(c) >= 0 then (InString, [Unit(Short(c))])
      else (Broken, [])
    case Code(digits, value) =>
      if HexValue(c) < 0 then (Broken, [])
      else if digits < 3 then (Code(digits + 1, 16 * value + HexValue(c)), [])
      else (InString, [Unit(16 * value + HexValue(c))])
    case Broken => (Broken, [])
  }

  /** The lexer after a text, and what it read on the way. */
  function State(q: Lexer, text: string): Lexer
    decreases |text|
  {
    if text == "" then q else State(Step(q, text[0]).0, text[1..])
  }

  function Items(q: Lexer, text: string): seq<Item>
    decreases |text|
  {
    if text == "" then [] else Step(q, text[0]).1 + Items(Step(q, text[0]).0, text[1..])
  }

  lemma OneStep(q: Lexer, c: char, rest: string)
    ensures State(q, [c] + rest) == State(Step(q, c).0, rest)
    ensures Items(q, [c] + rest) == Step(q, c).1 + Items(Step(q, c).0, rest)
  {
    assert ([c] + rest)[1..] == rest;
  }

  lemma {:induction false} AppendState(q: Lexer, s: string, t: string)
    ensures State(q, s + t) == State(State(q, s), t)
    decreases |s|
  {
    if s == "" {
      assert s + t == t;
    } else {
      AppendState(Step(q, s[0]).0, s[1..], t);
      assert (s + t)[0] == s[0] && (s + t)[1..] == s[1..] + t;
    }
  }

  lemma {:induction false} AppendItems(q: Lexer, s: string, t: string)
    ensures Items(q, s + t) == Items(q, s) + Items(State(q, s), t)
    decreases |s|
  {
    if s == "" {
      assert s + t == t;
    } else {
      var r, read := Step(q, s[0]).0, Step(q, s[0]).1;
      AppendItems(r, s[1..], t);
      assert (s + t)[0] == s[0] && (s + t)[1..] == s[1..] + t;
      var first, last := Items(r, s[1..]), Items(State(r, s[1..]), t);
      assert read + (first + last) == (read + first) + last;
    }
  }

  lemma Append(q: Lexer, s: string, t: string)
    ensures State(q, s + t) == State(State(q, s), t)
    ensures Items(q, s + t) == Items(q, s) + Items(State(q, s), t)
  {
    AppendState(q, s, t);
    AppendItems(q, s, t);
  }

  function Units(value: string): (us: seq<Item>)
    ensures |us| == |value| && forall i | 0 <= i < |us| :: us[i] == Unit(value[i] as int)
  {
    seq(|value|, i requires 0 <= i < |value| => Unit(value[i] as int))
  }

  /** Inside a string literal the text reads as `units` and the literal goes on. */
  predicate ReadsAs(text: string, units: seq<Item>) {
    State(InString, text) == InString && Items(InString, text) == units
  }

  lemma ReadsAppend(s: string, u: seq<Item>, t: string, v: seq<Item>)
    requires ReadsAs(s, u) && ReadsAs(t, v)
    ensures ReadsAs(s + t, u + v)
  {
    Append(InString, s, t);
  }

  /** From lexer state q the text completes an escape that stands for `code`. */
  predicate Completes(q: Lexer, text: string, code: int) {
    State(q, text) == InString && Items(q, text) == [Unit(code)]
  }

  lemma Prepend(q: Lexer, c: char, rest: string, code: int)
    requires Completes(Step(q, c).0, rest, code) && Step(q, c).1 == []
    ensures Completes(q, [c] + rest, code)
  {
    OneStep(q, c, rest);
  }

  lemma LastDigit(value: int, h: char)
    requires HexValue(h) >= 0
    ensures Completes(Code(3, value), [h], 16 * value + HexValue(h))
  {
    assert [h] == [h] + "";
    OneStep(Code(3, value), h, "");
  }

  lemma CodeDecodes(h1: char, h2: char, h3: char, h4: char)
    requires HexValue(h1) >= 0 && HexValue(h2) >= 0 && HexValue(h3) >= 0 && HexValue(h4) >= 0
    ensures Completes(InString, "\\" + ("u" + ([h1] + ([h2] + ([h3] + [h4])))),
                      4096 * HexValue(h1) + 256 * HexValue(h2) + 16 * HexValue(h3) + HexValue(h4))
  {
    var v1 := HexValue(h1);
    var v2 := 16 * v1 + HexValue(h2);
    var v3 := 16 * v2 + HexValue(h3);
    var code := 16 * v3 + HexValue(h4);
    LastDigit(v3, h4);
    Prepend(Code(2, v2), h3, [h4], code);
    Prepend(Code(1, v1), h2, [h3] + [h4], code);
    Prepend(Code(0, 0), h1, [h2] + ([h3] + [h4]), code);
    Prepend(Escaped, 'u', [h1] + ([h2] + ([h3] + [h4])), code);
    Prepend(InString, '\\', "u" + ([h1] + ([h2] + ([h3] + [h4]))), code);
  }

  lemma ShortDecodes(c: char)
    requires Short(c) >= 0
    ensures Completes(InString, "\\" + [c], Short(c))
  {
    assert [c] == [c] + "";
    OneStep(Escaped, c, "");
    Prepend(InString, '\\', [c], Short(c));
  }

  lemma HexDecodes(d: int)
    requires 0 <= d < 16
    ensures HexValue(Hex(d)) == d
  {
  }

  lemma ControlDecodes(c: char)
    requires c < 0x20 as char
    ensures Completes(InString, "\\u00" + [Hex(c as int / 16), Hex(c as int % 16)], c as int)
  {
    var h, l := Hex(c as int / 16), Hex(c as int % 16);
    HexDecodes(c as int / 16);
    HexDecodes(c as int % 16);
    CodeDecodes('0', '0', h, l);
    assert "\\u00" + [h, l] == "\\" + ("u" + ("0" + ("0" + ([h] + [l]))));
  }

  lemma EscapeCharDecodes(c: char)
    ensures ReadsAs(EscapeChar(c), [Unit(c as int)])
  {
    if c == 0x2028 as char || c == 0x2029 as char {
      var l := EscapeChar(c)[5];
      CodeDecodes('2', '0', '2', l);
      assert EscapeChar(c) == "\\" + ("u" + ("2" + ("0" + ("2" + [l]))));
    } else if |EscapeChar(c)| == 6 {
      ControlDecodes(c);
    } else if |EscapeChar(c)| == 2 {
      var l := EscapeChar(c)[1];
      ShortDecodes(l);
      assert EscapeChar(c) == "\\" + [l];
    } else {
      assert EscapeChar(c) == [c] + "";
      OneStep(InString, c, "");
    }
  }

  /** The round trip: inside a string literal, an escaped value reads back as the
      value itself, and the literal goes on. */
  lemma {:induction false} EscapeDecodes(value: string)
    ensures ReadsAs(JsonEscape(value), Units(value))
  {
    if value != "" {
      EscapeCharDecodes(value[0]);
      EscapeDecodes(value[1..]);
      ReadsAppend(EscapeChar(value[0]), [Unit(value[0] as int)], JsonEscape(value[1..]), Units(value[1..]));
      assert [Unit(value[0] as int)] + Units(value[1..]) == Units(value);
    }
  }

  /** Escaping changes nothing but what it must: a value is written as it is exactly
      when it has no quote, backslash, control character or JavaScript line end. */
  lemma {:induction false} WrittenAsItIsExactlyWhen(value: string)
    ensures |JsonEscape(value)| >= |value|
    ensures JsonEscape(value) == value <==>
            Plain(value) && 0x2028 as char !in value && 0x2029 as char !in value
  {
    if value != "" {
      WrittenAsItIsExactlyWhen(value[1..]);
      CopiedExactlyWhen(value[0]);
      assert value == [value[0]] + value[1..];
      assert Plain(value) <==> Plain([value[0]]) && Plain(value[1..]) by {
        assert forall k | 0 < k < |value| :: value[k] == value[1..][k - 1];
      }
      if EscapeChar(value[0]) == [value[0]] {
        assert JsonEscape(value)[1..] == JsonEscape(value[1..]);
      }
    }
  }

  lemma CopiedExactlyWhen(c: char)
    ensures |EscapeChar(c)| >= 1
    ensures if Plain([c]) && c != 0x2028 as char && c != 0x2029 as char then EscapeChar(c) == [c]
            else |EscapeChar(c)| > 1
  {
    assert Plain([c]) <==> [c][0] != '\"' && [c][0] != '\\' && [c][0] >= 0x20 as char;
  }

  predicate Plain(text: string) {
    forall k | 0 <= k < |text| :: text[k] != '\"' && text[k] != '\\' && text[k] >= 0x20 as char
  }

  lemma {:induction false} PlainText(text: string)
    requires Plain(text)
    ensures ReadsAs(text, Units(text))
  {
    if text != "" {
      PlainText(text[1..]);
      OneStep(InString, text[0], text[1..]);
      assert text == [text[0]] + text[1..];
      assert [Unit(text[0] as int)] + Units(text[1..]) == Units(text);
    }
  }

  // ---------------------------------------------------------------- structure

  /** Every placeholder of the template stands inside a string literal and not in
      the middle of an escape. */
  predicate HolesInStrings(q: Lexer, segs: seq<Segment>)
    decreases |segs|
  {
    segs == [] ||
    match segs[0]
    case Literal(c) => HolesInStrings(Step(q, c).0, segs[1..])
    case Hole(_, _) => q == InString && HolesInStrings(InString, segs[1..])
  }

  /** What the template means once its placeholders stand for the values. */
  function Meaning(q: Lexer, segs: seq<Segment>, subject: string, body: string): seq<Item>
    decreases |segs|
  {
    if segs == [] then []
    else
      match segs[0]
      case Literal(c) => Step(q, c).1 + Meaning(Step(q, c).0, segs[1..], subject, body)
      case Hole(slot, _) => Units(Value(slot, subject, body)) + Meaning(q, segs[1..], subject, body)
  }

  lemma {:induction false} FilledMeans(q: Lexer, segs: seq<Segment>, subject: string, body: string)
    requires Proper(segs) && HolesInStrings(q, segs)
    ensures State(q, Filled(segs, subject, body)) == State(q, Source(segs))
    ensures Items(q, Filled(segs, subject, body)) == Meaning(q, segs, subject, body)
    decreases |segs|
  {
    if segs != [] {
      var filled, source := Filled(segs[1..], subject, body), Source(segs[1..]);
      assert forall g | g in segs[1..] :: g in segs;
      match segs[0]
      case Literal(c) =>
        FilledMeans(Step(q, c).0, segs[1..], subject, body);
        OneStep(q, c, filled);
        OneStep(q, c, source);
      case Hole(slot, text) =>
        FilledMeans(InString, segs[1..], subject, body);
        assert segs[0] in segs;
        HoleMeans(Value(slot, subject, body), slot, text, filled, source);
    }
  }

  lemma HoleMeans(value: string, slot: Slot, text: string, filled: string, source: string)
    requires IsPlaceholder(slot, text) && State(InString, filled) == State(InString, source)
    ensures State(InString, JsonEscape(value) + filled) == State(InString, text + source)
    ensures Items(InString, JsonEscape(value) + filled) == Units(value) + Items(InString, filled)
  {
    EscapeDecodes(value);
    PlainText(text);
    Append(InString, JsonEscape(value), filled);
    Append(InString, text, source);
  }

  /** Expanding a template whose placeholders stand inside string literals yields
      text with the same structure: the same marks and strings in the same places,
      each placeholder replaced by exactly the characters of the subject or body,
      and the lexer left where the template leaves it. */
  lemma ExpandPreservesStructure(template: string, subject: string, body: string)
    requires HolesInStrings(Outside, Segments(template))
    ensures State(Outside, Expand(template, subject, body)) == State(Outside, template)
    ensures Items(Outside, Expand(template, subject, body)) == Meaning(Outside, Segments(template), subject, body)
  {
    ExpandFillsTheHoles(template, subject, body);
    FilledMeans(Outside, Segments(template), subject, body);
  }

  // ---------------------------------------------------------------- necessity

  /** All that matters of a placeholder's text from here on. */
  predicate Dollar(text: string) { |text| > 0 && text[0] == '$' && Plain(text) }

  ghost predicate Dollars(segs: seq<Segment>) {
    forall g | g in segs && g.Hole? :: Dollar(g.text)
  }

  lemma PlaceholdersAreDollars(segs: seq<Segment>)
    requires Proper(segs)
    ensures Dollars(segs)
  {
  }

  /** The same, except that nothing is asked of what follows text that is broken
      already. */
  predicate HolesAreSafe(q: Lexer, segs: seq<Segment>)
    decreases |segs|
  {
    segs == [] || q == Broken ||
    match segs[0]
    case Literal(c) => HolesAreSafe(Step(q, c).0, segs[1..])
    case Hole(_, _) => q == InString && HolesAreSafe(InString, segs[1..])
  }

  /** Up to the k-th boundary between segments, the expanded text leaves the lexer
      where the template leaves it. */
  predicate AgreesAt(q: Lexer, segs: seq<Segment>, k: nat, subject: string, body: string)
    requires k <= |segs|
  {
    State(q, Filled(segs[..k], subject, body)) == State(q, Source(segs[..k]))
  }

  /** Whatever the subject and the body. */
  ghost predicate Agrees(q: Lexer, segs: seq<Segment>) {
    forall k: nat, subject, body | k <= |segs| :: AgreesAt(q, segs, k, subject, body)
  }

  /** Expanding a template keeps its structure at every boundary, for every subject
      and body, exactly when each placeholder of the template stands inside a
      string literal and not in an escape, or after text that is broken already;
      in a template that is not broken, exactly when each stands inside a literal. */
  lemma StructureIsKeptExactlyWhen(template: string)
    ensures Agrees(Outside, Segments(template)) <==> HolesAreSafe(Outside, Segments(template))
    ensures State(Outside, template) != Broken ==>
              (Agrees(Outside, Segments(template)) <==> HolesInStrings(Outside, Segments(template)))
  {
    var segs := Segments(template);
    ExpandFillsTheHoles(template, "", "");
    PlaceholdersAreDollars(segs);
    if HolesAreSafe(Outside, segs) {
      forall k: nat, subject, body | k <= |segs|
        ensures AgreesAt(Outside, segs, k, subject, body)
      {
        StructureAtEveryBoundary(Outside, segs, k, subject, body);
      }
    } else {
      var k, value := UnsafeHoleDiffers(Outside, segs);
    }
    UnbrokenIsSafe(Outside, segs);
  }

  lemma SafeNext(q: Lexer, segs: seq<Segment>)
    requires segs != [] && q != Broken && Dollars(segs)
    ensures Dollars(segs[1..]) && (segs[0].Hole? ==> Dollar(segs[0].text))
    ensures HolesAreSafe(q, segs) <==>
            (segs[0].Hole? ==> q == InString) && HolesAreSafe(Next(q, segs[0]), segs[1..])
  {
    assert segs[0] in segs && forall g | g in segs[1..] :: g in segs;
  }

  lemma NothingToDisagree(q: Lexer, segs: seq<Segment>, k: nat, subject: string, body: string)
    requires k <= |segs| && (q == Broken || k == 0)
    ensures AgreesAt(q, segs, k, subject, body)
  {
    if q == Broken {
      StaysBroken(Filled(segs[..k], subject, body));
      StaysBroken(Source(segs[..k]));
    } else {
      assert segs[..k] == [];
    }
  }

  /** Safe placeholders keep the structure at every boundary, from any lexer state. */
  lemma {:induction false} StructureAtEveryBoundary(q: Lexer, segs: seq<Segment>, k: nat, subject: string, body: string)
    requires k <= |segs| && Dollars(segs) && HolesAreSafe(q, segs)
    ensures AgreesAt(q, segs, k, subject, body)
    decreases k
  {
    if q == Broken || k == 0 {
      NothingToDisagree(q, segs, k, subject, body);
    } else {
      SafeNext(q, segs);
      StructureAtEveryBoundary(Next(q, segs[0]), segs[1..], k - 1, subject, body);
      AgreesNext(q, segs, k, subject, body);
    }
  }

  /** Where the lexer is after a segment that stands in a good place. */
  function Next(q: Lexer, g: Segment): Lexer {
    if g.Literal? then Step(q, g.c).0 else q
  }

  lemma SegmentAlone(q: Lexer, g: Segment, subject: string, body: string)
    requires g.Hole? ==> q == InString && Dollar(g.text)
    ensures State(q, g.Filled(subject, body)) == Next(q, g) == State(q, g.Source())
  {
    if g.Hole? {
      EscapeDecodes(Value(g.slot, subject, body));
      PlainText(g.text);
    } else {
      assert [g.c] + "" == [g.c];
      OneStep(q, g.c, "");
    }
  }

  lemma SegmentStep(q: Lexer, g: Segment, subject: string, body: string, filled: string, source: string)
    requires g.Hole? ==> q == InString && Dollar(g.text)
    ensures State(q, g.Filled(subject, body) + filled) == State(Next(q, g), filled)
    ensures State(q, g.Source() + source) == State(Next(q, g), source)
  {
    SegmentAlone(q, g, subject, body);
    Append(q, g.Filled(subject, body), filled);
    Append(q, g.Source(), source);
  }

  /** The boundaries after the first segment are those of the remaining ones. */
  lemma AgreesNext(q: Lexer, segs: seq<Segment>, k: nat, subject: string, body: string)
    requires 0 < k <= |segs| && (segs[0].Hole? ==> q == InString && Dollar(segs[0].text))
    ensures AgreesAt(q, segs, k, subject, body) <==> AgreesAt(Next(q, segs[0]), segs[1..], k - 1, subject, body)
  {
    var rest := segs[1..][..k - 1];
    assert segs[..k][1..] == rest && segs[..k][0] == segs[0];
    SegmentStep(q, segs[0], subject, body, Filled(rest, subject, body), Source(rest));
  }

  /** An unsafe placeholder shows: some value for it changes the structure. */
  lemma {:induction false} UnsafeHoleDiffers(q: Lexer, segs: seq<Segment>) returns (k: nat, value: string)
    requires Dollars(segs) && !HolesAreSafe(q, segs)
    ensures k <= |segs| && !AgreesAt(q, segs, k, value, value)
    decreases |segs|
  {
    SafeNext(q, segs);
    if segs[0].Hole? && q != InString {
      HoleDiffers(q, segs);
      return 1, Spoiler(q);
    }
    k, value := UnsafeHoleDiffers(Next(q, segs[0]), segs[1..]);
    k := k + 1;
    AgreesNext(q, segs, k, value, value);
  }

  lemma HoleDiffers(q: Lexer, segs: seq<Segment>)
    requires q != InString && q != Broken
    requires segs != [] && segs[0].Hole? && Dollar(segs[0].text)
    ensures !AgreesAt(q, segs, 1, Spoiler(q), Spoiler(q))
  {
    var g, value := segs[0], Spoiler(q);
    assert segs[..1] == [g];
    assert Filled([g], value, value) == JsonEscape(value) by {
      assert [g][1..] == [] && JsonEscape(value) + "" == JsonEscape(value);
    }
    assert Source([g]) == g.text by {
      assert [g][1..] == [] && g.text + "" == g.text;
    }
    HarmfulElsewhere(q, g.text);
  }

  lemma {:induction false} UnbrokenIsSafe(q: Lexer, segs: seq<Segment>)
    requires Dollars(segs)
    ensures HolesInStrings(q, segs) ==> HolesAreSafe(q, segs)
    ensures HolesAreSafe(q, segs) && State(q, Source(segs)) != Broken ==> HolesInStrings(q, segs)
    decreases |segs|
  {
    if q == Broken {
      StaysBroken(Source(segs));
    } else if segs != [] {
      assert segs[0] in segs && forall h | h in segs[1..] :: h in segs;
      if segs[0].Literal? || q == InString {
        UnbrokenIsSafe(Next(q, segs[0]), segs[1..]);
        SegmentStep(q, segs[0], "", "", "", Source(segs[1..]));
      }
    }
  }

  lemma HarmfulElsewhere(q: Lexer, text: string)
    requires q != InString && q != Broken && Dollar(text)
    ensures State(q, JsonEscape(Spoiler(q))) != State(q, text)
  {
    PlaceholderEnd(q, text);
    SpoilerEnd(q);
  }

  /** A value that changes the structure when it is put in the wrong place. */
  function Spoiler(q: Lexer): string {
    if q == Outside then "\"" else "b"
  }

  lemma SpoilerEnd(q: Lexer)
    ensures q == Outside ==> State(q, JsonEscape(Spoiler(q))) == InString
    ensures q.Escaped? || q.Code? ==> State(q, JsonEscape(Spoiler(q))) != Broken
  {
    assert "\""[1..] == "" && "b"[1..] == "";
    assert "\\\"" == "\\" + "\"" && "\"" == "\"" + "" && "b" == "b" + "";
    OneStep(Outside, '\\', "\"");
    OneStep(Outside, '\"', "");
    OneStep(q, 'b', "");
  }

  lemma PlaceholderEnd(q: Lexer, text: string)
    requires Dollar(text)
    ensures q == Outside ==> State(q, text) == Outside
    ensures q.Escaped? || q.Code? ==> State(q, text) == Broken
  {
    OutsideText(text);
    StaysBroken(text[1..]);
  }

  lemma {:induction false} StaysBroken(text: string)
    ensures State(Broken, text) == Broken
  {
    if text != "" {
      StaysBroken(text[1..]);
    }
  }

  lemma {:induction false} OutsideText(text: string)
    requires Plain(text)
    ensures State(Outside, text) == Outside
  {
    if text != "" {
      OutsideText(text[1..]);
    }
  }
}
