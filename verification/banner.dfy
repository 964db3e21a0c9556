/** Reading a service's banner (readUntil in internal/probe/tcp.go): the verdict
    must not depend on how the network cut the bytes into reads. */
module Banner {

  const READ_LIMIT := 8192
  const CHUNK := 1024

  /** One Read: up to a chunk of bytes, possibly together with an error (the end
      of the stream, or the deadline). */
  datatype Read = Read(data: string, err: bool)

  predicate OccursAt(s: string, want: string, k: nat) {
    k + |want| <= |s| && s[k..k + |want|] == want
  }

  ghost predicate Contains(s: string, want: string) {
    exists k: nat :: OccursAt(s, want, k)
  }

  /** The bytes of the first n reads. */
  function Bytes(rs: seq<Read>): string {
    if rs == [] then "" else Bytes(rs[..|rs| - 1]) + rs[|rs| - 1].data
  }

  /** A connection with a deadline: every read fits the chunk, and an error comes
      sooner or later. */
  predicate Connection(rs: seq<Read>) {
    && rs != [] && rs[|rs| - 1].err
    && (forall k | 0 <= k < |rs| :: |rs[k].data| <= CHUNK)
    && (forall k | 0 <= k < |rs| - 1 :: !rs[k].err)
  }

  /** Whether readUntil stops after the first n reads, n > 0. */
  ghost predicate Stops(rs: seq<Read>, n: nat, want: string)
    requires 0 < n <= |rs|
  {
    || (rs[n - 1].data != "" && Contains(Bytes(rs[..n]), want))
    || rs[n - 1].err
    || |Bytes(rs[..n])| >= READ_LIMIT
  }

  method Includes(s: string, want: string) returns (found: bool)
    ensures found <==> Contains(s, want)
  {
    if |want| > |s| {
      return false;
    }
    for k := 0 to |s| - |want| + 1
      invariant forall j: nat | j < k :: !OccursAt(s, want, j)
    {
      if OccursAt(s, want, k) {
        return true;
      }
    }
    return false;
  }

  /** readUntil stops after n reads and not before. */
  ghost predicate StopsFirst(rs: seq<Read>, n: nat, want: string) {
    0 < n <= |rs| && Stops(rs, n, want) && forall m | 0 < m < n :: !Stops(rs, m, want)
  }

  /** The loop: it consumes the shortest run of reads after which it must stop, and
      never buffers more than a chunk beyond the limit. */
  method ReadUntil(rs: seq<Read>, want: string) returns (got: string, failed: bool, ghost n: nat)
    requires Connection(rs)
    ensures StopsFirst(rs, n, want) && got == Bytes(rs[..n])
    ensures failed <==> rs[n - 1].err && (rs[n - 1].data == "" || !Contains(got, want))
    ensures |got| <= READ_LIMIT - 1 + CHUNK
  {
    got := "";
    var i := 0;
    while |got| < READ_LIMIT
      invariant 0 <= i <= |rs| && got == Bytes(rs[..i]) && |got| <= READ_LIMIT - 1 + CHUNK
      invariant |got| < READ_LIMIT ==> i < |rs| && forall m | 0 < m <= i :: !Stops(rs, m, want)
      invariant |got| >= READ_LIMIT ==> StopsFirst(rs, i, want) && !rs[i - 1].err
      decreases |rs| - i
    {
      var r := rs[i];
      i := i + 1;
      assert rs[..i][..i - 1] == rs[..i - 1];
      if r.data != "" {
        got := got + r.data;
        var found := Includes(got, want);
        if found {
          return got, false, i;
        }
      }
      if r.err {
        return got, true, i;
      }
    }
    return got, false, i;
  }

  // ---------------------------------------------------------------- chunking

  lemma ContainsInLonger(s: string, t: string, want: string)
    requires s <= t && Contains(s, want)
    ensures Contains(t, want)
  {
    var k: nat :| OccursAt(s, want, k);
    assert OccursAt(t, want, k);
  }

  lemma {:induction false} BytesGrow(rs: seq<Read>, m: nat, n: nat)
    requires m <= n <= |rs|
    ensures Bytes(rs[..m]) <= Bytes(rs[..n])
  {
    if m < n {
      BytesGrow(rs, m, n - 1);
      assert rs[..n][..n - 1] == rs[..n - 1];
    }
  }

  /** All the loop could ever look at: the reads up to the one that crosses the
      limit, or all of them. */
  function Window(rs: seq<Read>, n: nat): (m: nat)
    requires n <= |rs|
    ensures n <= m <= |rs|
    ensures m < |rs| ==> |Bytes(rs[..m])| >= READ_LIMIT
    ensures forall k | n <= k < m :: |Bytes(rs[..k])| < READ_LIMIT
    decreases |rs| - n
  {
    if n == |rs| || |Bytes(rs[..n])| >= READ_LIMIT then n else Window(rs, n + 1)
  }

  /** The text is found exactly when it occurs in the bytes up to the first chunk
      boundary at or past the limit. */
  lemma FoundExactlyWhen(rs: seq<Read>, n: nat, want: string)
    requires Connection(rs) && want != "" && StopsFirst(rs, n, want)
    ensures Contains(Bytes(rs[..n]), want) <==> Contains(Bytes(rs[..Window(rs, 0)]), want)
  {
    var w := Window(rs, 0);
    assert |Bytes(rs[..0])| == 0;
    assert 0 < w < n ==> !Stops(rs, w, want);
    BytesGrow(rs, n, w);
    if Contains(Bytes(rs[..n]), want) {
      ContainsInLonger(Bytes(rs[..n]), Bytes(rs[..w]), want);
    } else {
      assert n == w;
    }
  }

  /** However the bytes are cut into reads, the verdict is the same whenever the
      text lies in the first 8192 bytes or not in the first 9215: the first is
      always a success, the second never. */
  lemma VerdictIgnoresChunks(rs: seq<Read>, n: nat, want: string)
    requires Connection(rs) && want != "" && StopsFirst(rs, n, want)
    ensures Contains(First(Bytes(rs), READ_LIMIT), want) ==> Contains(Bytes(rs[..n]), want)
    ensures Contains(Bytes(rs[..n]), want) ==> Contains(First(Bytes(rs), READ_LIMIT - 1 + CHUNK), want)
  {
    var w := Window(rs, 0);
    FoundExactlyWhen(rs, n, want);
    assert rs[..|rs|] == rs;
    BytesGrow(rs, w, |rs|);
    if Contains(First(Bytes(rs), READ_LIMIT), want) {
      ContainsInLonger(First(Bytes(rs), READ_LIMIT), Bytes(rs[..w]), want);
    }
    if Contains(Bytes(rs[..n]), want) {
      assert rs[..w][..w - 1] == rs[..w - 1];
      assert |Bytes(rs[..w - 1])| < READ_LIMIT && |rs[w - 1].data| <= CHUNK;
      ContainsInLonger(Bytes(rs[..w]), First(Bytes(rs), READ_LIMIT - 1 + CHUNK), want);
    }
  }

  function First(s: string, n: nat): string { if |s| <= n then s else s[..n] }
}
