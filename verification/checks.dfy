/** What a check is made of: probes and their cost (internal/probe/probe.go), the
    sleep windows and the bounded transcript (internal/check), and the round a
    runner makes of them (internal/supervisor/runner.go). */
module Checks {
  import opened Health

  // ---------------------------------------------------------------- windows

  /** Durations are nanoseconds. */
  const SECOND := 1_000_000_000
  const MINUTE := 60 * SECOND

  const ORIGINAL_INTERVAL := 20 * SECOND
  const STANDARD_JITTER := 59 * SECOND
  const CLAMD_JITTER := 119 * SECOND
  const ORIGINAL_EXTERNAL := 30 * MINUTE
  const EXTERNAL_JITTER := 19 * SECOND
  const ORIGINAL_CERT := 5 * MINUTE

  datatype Interval = Interval(min: int, max: int) {
    /** The durations Pick may return. */
    predicate Allows(d: int) {
      if max <= min then d == min else min <= d <= max
    }
  }

  method Pick(window: Interval) returns (d: int)
    ensures window.Allows(d)
  {
    if window.max <= window.min {
      return window.min;
    }
    var jitter: int :| 0 <= jitter < window.max - window.min + 1;
    d := window.min + jitter;
  }

  datatype Windows = Windows(standard: Interval, clamd: Interval, external: Interval, cert: Interval)

  function Max(a: int, b: int): int { if a >= b then a else b }

  function Intervals(configured: int): Windows {
    var base := if configured <= 0 then ORIGINAL_INTERVAL else configured;
    Windows(
      Interval(base, base + STANDARD_JITTER),
      Interval(base, base + CLAMD_JITTER),
      Interval(Max(base, ORIGINAL_EXTERNAL), Max(base, ORIGINAL_EXTERNAL) + EXTERNAL_JITTER),
      Interval(Max(base, ORIGINAL_CERT), Max(base, ORIGINAL_CERT)))
  }

  /** Whatever is configured, no check ever sleeps for nothing between rounds: a
      pause is at least the configured bound, or the original one without it, and
      at least the check's own minimum; and beyond the larger of the two it is
      spread over exactly the original jitter: a minute for most checks, two for
      clamd, twenty seconds for the external ones and nothing for certificates. */
  lemma PausesAreBounded(configured: int, d: int)
    ensures var ws, base := Intervals(configured), if configured > 0 then configured else 20 * SECOND;
            && base > 0
            && (ws.standard.Allows(d) <==> base <= d <= base + 59 * SECOND)
            && (ws.clamd.Allows(d) <==> base <= d <= base + 119 * SECOND)
            && (ws.external.Allows(d) <==>
                base <= d && 30 * MINUTE <= d && (d <= base + 19 * SECOND || d <= 30 * MINUTE + 19 * SECOND))
            && (ws.cert.Allows(d) <==> base <= d && 5 * MINUTE <= d && (d == base || d == 5 * MINUTE))
  {
  }

  // ---------------------------------------------------------------- probes

  datatype Status = OK | Warning | Critical | Unknown

  function ExitCode(s: Status): nat {
    match s case OK => 0 case Warning => 1 case Critical => 2 case Unknown => 3
  }

  function Label(s: Status): string {
    match s case OK => "OK" case Warning => "WARNING" case Critical => "CRITICAL" case Unknown => "UNKNOWN"
  }

  datatype Result = Result(status: Status, message: string, points: int)

  /** What the measurement itself does in one round: reach a verdict or panic. */
  datatype Outcome = Reports(status: Status, message: string) | Panics(reason: string)

  datatype Probe = Measurement | Cost(points: int, inner: Probe)

  /** The Run method of a probe; a panic leaves it through every wrapper. */
  function Measure(p: Probe, o: Outcome): Result
    requires o.Reports?
  {
    match p
    case Measurement => Result(o.status, o.message, ExitCode(o.status))
    case Cost(points, inner) =>
      var res := Measure(inner, o);
      if res.status != OK then res.(points := points) else res
  }

  /** probe.Run: the recovery sits outside the wrappers. */
  function RunProbe(p: Probe, o: Outcome): Result {
    match o
    case Panics(reason) => Result(Unknown, "probe panicked: " + reason, ExitCode(Unknown))
    case Reports(_, _) => Measure(p, o)
  }

  predicate Affordable(p: Probe) {
    p.Cost? ==> 1 <= p.points <= 3 && Affordable(p.inner)
  }

  /** A result costs nothing exactly when it is OK, never more than three points,
      and a wrapper's price applies to every failure except a panic, which costs
      three however the probe is wrapped. */
  lemma {:induction false} ProbeCost(p: Probe, o: Outcome)
    requires Affordable(p)
    ensures 0 <= RunProbe(p, o).points <= 3
    ensures RunProbe(p, o).points == 0 <==> RunProbe(p, o).status == OK
    ensures o.Panics? ==> RunProbe(p, o).points == 3 && RunProbe(p, o).status == Unknown
    ensures p.Cost? && o.Reports? && o.status != OK ==> RunProbe(p, o).points == p.points
    ensures o.Reports? ==> RunProbe(p, o).status == o.status && RunProbe(p, o).message == o.message
  {
    if p.Cost? {
      ProbeCost(p.inner, o);
    }
  }

  /** The same verdict in each of `rounds` rounds of an unwrapped probe. */
  function Same(status: Status, rounds: nat): (ws: seq<int>)
    ensures |ws| == rounds
  {
    seq(rounds, _ => RunProbe(Measurement, Reports(status, "")).points)
  }

  /** Severity decides how fast a check dies: round for round, CRITICAL counts twice
      and UNKNOWN three times as much as WARNING, which counts one; and OK repays. */
  lemma {:induction false} SeverityCounts(rounds: nat)
    ensures Replay(Rounds(Same(Warning, rounds))) == rounds
    ensures Replay(Rounds(Same(Critical, rounds))) == 2 * rounds
    ensures Replay(Rounds(Same(Unknown, rounds))) == 3 * rounds
    ensures Replay(Rounds(Same(OK, rounds))) == 0
  {
    if rounds > 0 {
      SeverityCounts(rounds - 1);
      forall s: Status {
        OneMoreRound(s, rounds);
      }
    }
  }

  lemma OneMoreRound(s: Status, rounds: nat)
    requires rounds > 0
    ensures Replay(Rounds(Same(s, rounds))) ==
            RecordCount(Replay(Rounds(Same(s, rounds - 1))), RunProbe(Measurement, Reports(s, "")).points)
  {
    var ops := Rounds(Same(s, rounds));
    assert ops[..rounds - 1] == Rounds(Same(s, rounds - 1));
  }

  // ---------------------------------------------------------------- transcript

  const TRANSCRIPT_LINES := 50

  function Last<T>(s: seq<T>, n: nat): seq<T> {
    if |s| <= n then s else s[|s| - n..]
  }

  function NonEmpty(lines: seq<string>): seq<string> {
    if lines == [] then []
    else NonEmpty(lines[..|lines| - 1]) + (if lines[|lines| - 1] == "" then [] else [lines[|lines| - 1]])
  }

  /** What is recorded of some lines: each but the empty ones as often as it was
      there, and in order, whatever calls they came in. */
  lemma OnlyEmptyLinesAreDropped(a: seq<string>, b: seq<string>, x: string)
    ensures multiset(NonEmpty(a))[x] == if x == "" then 0 else multiset(a)[x]
    ensures NonEmpty(a + b) == NonEmpty(a) + NonEmpty(b)
  {
    EachAsOften(a, x);
    InOrder(a, b);
  }

  lemma {:induction false} EachAsOften(a: seq<string>, x: string)
    ensures multiset(NonEmpty(a))[x] == if x == "" then 0 else multiset(a)[x]
  {
    if a != [] {
      EachAsOften(a[..|a| - 1], x);
      assert a == a[..|a| - 1] + [a[|a| - 1]];
    }
  }

  lemma {:induction false} InOrder(a: seq<string>, b: seq<string>)
    ensures NonEmpty(a + b) == NonEmpty(a) + NonEmpty(b)
  {
    if b == [] {
      assert a + b == a;
    } else {
      var init, last := b[..|b| - 1], b[|b| - 1];
      var kept := if last == "" then [] else [last];
      InOrder(a, init);
      assert (a + b)[..|a + b| - 1] == a + init && (a + b)[|a + b| - 1] == last;
      assert (NonEmpty(a) + NonEmpty(init)) + kept == NonEmpty(a) + (NonEmpty(init) + kept);
    }
  }

  /** The newest lines are kept: the k-th from the end is still the k-th from the
      end, for the last fifty, and no other line is. */
  lemma NewestAreKept(recorded: seq<string>, k: nat)
    ensures var kept := Last(recorded, TRANSCRIPT_LINES);
            && (k < |kept| <==> k < 50 && k < |recorded|)
            && (k < |kept| ==> kept[|kept| - 1 - k] == recorded[|recorded| - 1 - k])
  {
  }

  /** `recorded` is every non-empty line ever recorded; what is kept is its tail. */
  class Check {
    var transcript: seq<string>
    ghost var recorded: seq<string>

    ghost predicate Valid()
      reads this
    {
      transcript == Last(recorded, TRANSCRIPT_LINES)
    }

    constructor ()
      ensures Valid() && recorded == []
    {
      transcript, recorded := [], [];
    }

    method Record(lines: seq<string>)
      requires Valid()
      modifies this
      ensures Valid() && recorded == old(recorded) + NonEmpty(lines)
    {
      ghost var before := transcript;
      for i := 0 to |lines|
        invariant transcript == before + NonEmpty(lines[..i]) && recorded == old(recorded)
      {
        assert lines[..i + 1][..i] == lines[..i];
        if lines[i] != "" {
          transcript := transcript + [lines[i]];
        }
      }
      assert lines[..|lines|] == lines;
      var extra := |transcript| - TRANSCRIPT_LINES;
      if extra > 0 {
        transcript := transcript[extra..];
      }
      recorded := recorded + NonEmpty(lines);
    }
  }

  // ---------------------------------------------------------------- rounds

  function Verdicts(probes: seq<Probe>, outcomes: seq<Outcome>): (rs: seq<Result>)
    requires |outcomes| == |probes|
  {
    seq(|probes|, i requires 0 <= i < |probes| => RunProbe(probes[i], outcomes[i]))
  }

  function TotalWeight(rs: seq<Result>): int {
    if rs == [] then 0 else TotalWeight(rs[..|rs| - 1]) + rs[|rs| - 1].points
  }

  function Line(r: Result): string { Label(r.status) + ": " + r.message }

  function Lines(rs: seq<Result>): seq<string> {
    seq(|rs|, i requires 0 <= i < |rs| => Line(rs[i]))
  }

  /** The verdict a transcript line shows. */
  function Shown(line: string): set<Status> {
    if "OK: " <= line then {OK}
    else if "WARNING: " <= line then {Warning}
    else if "CRITICAL: " <= line then {Critical}
    else if "UNKNOWN: " <= line then {Unknown} else {}
  }

  /** Each line shows its probe's verdict and message. */
  lemma LineReadsBack(r: Result)
    ensures Shown(Line(r)) == {r.status}
    ensures |r.message| <= |Line(r)| && Line(r)[|Line(r)| - |r.message|..] == r.message
  {
    var head := Label(r.status) + ": ";
    assert head <= Line(r) && Line(r)[0] == head[0];
  }

  lemma OneLine(line: string)
    requires line != ""
    ensures NonEmpty([line]) == [line]
  {
    assert [line][..0] == [];
  }

  lemma OneMore(rs: seq<Result>, r: Result)
    ensures TotalWeight(rs + [r]) == TotalWeight(rs) + r.points
    ensures Lines(rs + [r]) == Lines(rs) + [Line(r)]
  {
    assert (rs + [r])[..|rs|] == rs;
  }

  /** Every probe once, with a transcript line for each. */
  method RunProbes(c: Check, probes: seq<Probe>, outcomes: seq<Outcome>) returns (weight: int)
    requires c.Valid() && |outcomes| == |probes|
    modifies c
    ensures c.Valid() && weight == TotalWeight(Verdicts(probes, outcomes))
    ensures c.recorded == old(c.recorded) + Lines(Verdicts(probes, outcomes))
  {
    weight := 0;
    ghost var seen: seq<Result> := [];
    for i := 0 to |probes|
      invariant c.Valid() && weight == TotalWeight(seen) && c.recorded == old(c.recorded) + Lines(seen)
      invariant |seen| == i && forall k | 0 <= k < i :: seen[k] == RunProbe(probes[k], outcomes[k])
    {
      var res := RunProbe(probes[i], outcomes[i]);
      weight := weight + res.points;
      OneLine(Line(res));
      c.Record([Line(res)]);
      OneMore(seen, res);
      seen := seen + [res];
    }
    assert seen == Verdicts(probes, outcomes);
  }

  /** Runner.round: the probes' summed weight is folded into the budget once. */
  method Round(c: Check, t: Tracker, probes: seq<Probe>, outcomes: seq<Outcome>) returns (s: Snapshot)
    requires c.Valid() && t.Valid() && |outcomes| == |probes|
    modifies c, t
    ensures c.Valid() && t.Valid()
    ensures t.ops == old(t.ops) + [Op.Round(TotalWeight(Verdicts(probes, outcomes)))]
    ensures c.recorded == old(c.recorded) + Lines(Verdicts(probes, outcomes))
    ensures s.Dead() <==> t.errCount >= t.threshold
  {
    var weight := RunProbes(c, probes, outcomes);
    s := t.Record(weight);
  }

  /** A round is clean exactly when every probe is OK, and costs at most three
      points per probe. */
  lemma {:induction false} RoundCost(probes: seq<Probe>, outcomes: seq<Outcome>)
    requires |outcomes| == |probes| && forall p | p in probes :: Affordable(p)
    ensures 0 <= TotalWeight(Verdicts(probes, outcomes)) <= 3 * |probes|
    ensures TotalWeight(Verdicts(probes, outcomes)) == 0 <==>
            forall i | 0 <= i < |probes| :: RunProbe(probes[i], outcomes[i]).status == OK
  {
    if probes != [] {
      var n := |probes| - 1;
      var rs := Verdicts(probes, outcomes);
      RoundCost(probes[..n], outcomes[..n]);
      assert rs[..n] == Verdicts(probes[..n], outcomes[..n]);
      ProbeCost(probes[n], outcomes[n]);
    }
  }
}
