/** The two users of the gate as the program has them: the watcher's loop and the
    restart, on a real gate and real trackers that others use at the same time. */
module Holders {
  import opened Health
  import opened Gates
  import Restarts

  const HEAL_POINTS := 2

  /** What a check's own loop does to its tracker. */
  datatype Work = Recorded(check: nat, weight: int) | Renewed(check: nat)

  /** One turn of the watcher: what restarts did to the gate and the checks to
      their trackers meanwhile, whether its sleep ended in full, and whether the
      dockerapi could be reached then. */
  datatype Poll = Poll(others: seq<Act>, work: seq<Work>, slept: bool, reachable: bool)

  // ---------------------------------------------------------------- the gate

  /** Whether the watcher holds the gate after k turns: the last answer decides. */
  predicate Held(polls: nat -> Poll, k: nat) { k > 0 && !polls(k - 1).reachable }

  /** What turn k makes the watcher ask of the gate: nothing unless reachability
      changed. */
  function Change(polls: nat -> Poll, k: nat): seq<Act> {
    if Held(polls, k + 1) == Held(polls, k) then []
    else if Held(polls, k + 1) then [Pause] else [Resume]
  }

  /** The watcher's own calls over k turns. */
  function OwnCalls(polls: nat -> Poll, k: nat): seq<Act> {
    if k == 0 then [] else OwnCalls(polls, k - 1) + Change(polls, k - 1)
  }

  /** What it asks for when its sleep is cut short in turn k. */
  function Farewell(polls: nat -> Poll, k: nat): seq<Act> {
    if Held(polls, k) then [Resume] else []
  }

  function Recoveries(polls: nat -> Poll, k: nat): nat {
    if k == 0 then 0
    else Recoveries(polls, k - 1) + if Change(polls, k - 1) == [Resume] then 1 else 0
  }

  /** Pause, Resume, Pause, Resume: as many outages as there are pairs. */
  predicate Alternating(calls: seq<Act>) {
    forall k | 0 <= k < |calls| :: calls[k] == if k % 2 == 0 then Pause else Resume
  }

  /** The watcher's calls come in pairs, one pair for each recovery, but for the
      Pause of an outage still on; and when it ends it leaves none open. */
  lemma {:induction false} PausesAreReturned(polls: nat -> Poll, k: nat)
    ensures Alternating(OwnCalls(polls, k))
    ensures |OwnCalls(polls, k)| == 2 * Recoveries(polls, k) + if Held(polls, k) then 1 else 0
    ensures Alternating(OwnCalls(polls, k) + Farewell(polls, k)) && |OwnCalls(polls, k) + Farewell(polls, k)| % 2 == 0
  {
    if k > 0 {
      PausesAreReturned(polls, k - 1);
    }
  }

  /** The gate after k turns, and when the watcher ends in turn k: in each turn the
      others' calls come first. */
  function GateAfter(v: View, polls: nat -> Poll, k: nat): View {
    if k == 0 then v
    else ApplyAll(ApplyAll(GateAfter(v, polls, k - 1), polls(k - 1).others), Change(polls, k - 1))
  }

  function GateAtEnd(v: View, polls: nat -> Poll, k: nat): View {
    ApplyAll(ApplyAll(GateAfter(v, polls, k), polls(k).others), Farewell(polls, k))
  }

  /** What closes the gate is an unreachable dockerapi, and nothing else the watcher
      sees: as long as nobody else uses it, an open gate is closed after some turns
      exactly when the last look failed, and open again when the watcher has ended. */
  lemma {:induction false} ClosedExactlyWhenUnreachable(v: View, polls: nat -> Poll, k: nat)
    requires !Paused(v) && WellFormed(v) && forall j: nat :: polls(j).others == []
    ensures Paused(GateAfter(v, polls, k)) <==> k > 0 && !polls(k - 1).reachable
    ensures WellFormed(GateAfter(v, polls, k)) && !Paused(GateAtEnd(v, polls, k))
  {
    if k > 0 {
      ClosedExactlyWhenUnreachable(v, polls, k - 1);
      Generations(GateAfter(v, polls, k - 1), Change(polls, k - 1));
    }
    Generations(GateAfter(v, polls, k), Farewell(polls, k));
  }

  /** These calls are made, by whomever. */
  method Use(gate: Gate, acts: seq<Act>)
    requires gate.Valid()
    modifies gate, gate.open
    ensures gate.Valid() && gate.State() == ApplyAll(old(gate.State()), acts)
    ensures gate.open == old(gate.open) || fresh(gate.open)
  {
    for i := 0 to |acts|
      invariant gate.Valid() && gate.State() == ApplyAll(old(gate.State()), acts[..i])
      invariant gate.open == old(gate.open) || fresh(gate.open)
    {
      assert acts[..i + 1][..i] == acts[..i];
      if acts[i] == Pause {
        gate.Pause();
      } else {
        gate.Resume();
      }
    }
    assert acts[..|acts|] == acts;
  }

  // ---------------------------------------------------------------- trackers

  function Repeat(op: Op, n: nat): seq<Op> { seq(n, _ => op) }

  /** The heals among the calls of a tracker. */
  function HealsIn(ops: seq<Op>): seq<Op> {
    if ops == [] then []
    else HealsIn(ops[..|ops| - 1]) + if ops[|ops| - 1].Heal? then [ops[|ops| - 1]] else []
  }

  lemma HealsInNext(base: seq<Op>, ops: seq<Op>, op: Op)
    requires base <= ops
    ensures HealsIn((ops + [op])[|base|..]) == HealsIn(ops[|base|..]) + if op.Heal? then [op] else []
  {
    assert (ops + [op])[|base|..] == ops[|base|..] + [op];
    assert (ops[|base|..] + [op])[..|ops| - |base|] == ops[|base|..];
  }

  predicate AllDifferent(trackers: seq<Tracker>) {
    forall i, j | 0 <= i < j < |trackers| :: trackers[i] != trackers[j]
  }

  ghost function Histories(trackers: seq<Tracker>): (hs: seq<seq<Op>>)
    reads trackers
    ensures |hs| == |trackers| && forall i | 0 <= i < |hs| :: hs[i] == trackers[i].ops
  {
    seq(|trackers|, i requires 0 <= i < |trackers| reads trackers => trackers[i].ops)
  }

  /** Since its history was `base` the tracker was healed n times, among whatever
      its check did to it. */
  ghost predicate HealedSince(t: Tracker, base: seq<Op>, n: nat)
    reads t
  {
    t.Valid() && base <= t.ops && HealsIn(t.ops[|base|..]) == Repeat(Op.Heal(HEAL_POINTS), n)
  }

  ghost predicate HealedTimes(trackers: seq<Tracker>, base: seq<seq<Op>>, n: nat)
    requires |base| == |trackers|
    reads trackers
  {
    forall i | 0 <= i < |trackers| :: HealedSince(trackers[i], base[i], n)
  }

  method DoWork(t: Tracker, w: Work, ghost base: seq<Op>, ghost n: nat)
    requires HealedSince(t, base, n)
    modifies t
    ensures HealedSince(t, base, n)
  {
    match w
    case Recorded(_, weight) =>
      HealsInNext(base, t.ops, Round(weight));
      var _ := t.Record(weight);
    case Renewed(_) =>
      HealsInNext(base, t.ops, Op.Reset);
      t.Reset();
  }

  method OneRound(trackers: seq<Tracker>, w: Work, ghost base: seq<seq<Op>>, ghost n: nat)
    requires AllDifferent(trackers) && |base| == |trackers| && HealedTimes(trackers, base, n)
    modifies trackers
    ensures HealedTimes(trackers, base, n)
  {
    var i := w.check;
    if i < |trackers| {
      DoWork(trackers[i], w, base[i], n);
    }
  }

  /** The checks go on with their rounds. */
  method Rounds(trackers: seq<Tracker>, work: seq<Work>, ghost base: seq<seq<Op>>, ghost n: nat)
    requires AllDifferent(trackers) && |base| == |trackers| && HealedTimes(trackers, base, n)
    modifies trackers
    ensures HealedTimes(trackers, base, n)
  {
    for k := 0 to |work|
      invariant HealedTimes(trackers, base, n)
    {
      OneRound(trackers, work[k], base, n);
    }
  }

  method Recover(trackers: seq<Tracker>, ghost base: seq<seq<Op>>, ghost n: nat)
    requires AllDifferent(trackers) && |base| == |trackers| && HealedTimes(trackers, base, n)
    modifies trackers
    ensures HealedTimes(trackers, base, n + 1)
  {
    ghost var before := Histories(trackers);
    forall i | 0 <= i < |trackers| {
      HealsInNext(base[i], before[i], Op.Heal(HEAL_POINTS));
    }
    HealAll(trackers, HEAL_POINTS);
    assert forall i | 0 <= i < |trackers| ::
        trackers[i] in trackers && trackers[i].ops == before[i] + [Op.Heal(HEAL_POINTS)];
    assert Repeat(Op.Heal(HEAL_POINTS), n + 1) == Repeat(Op.Heal(HEAL_POINTS), n) + [Op.Heal(HEAL_POINTS)];
  }

  // ---------------------------------------------------------------- the watcher

  /** What the watcher does when its sleep ended in full. */
  method Look(gate: Gate, trackers: seq<Tracker>, polls: nat -> Poll, k: nat, held: bool,
              ghost base: seq<seq<Op>>, ghost n: nat) returns (holds: bool)
    requires gate.Valid() && held == Held(polls, k)
    requires AllDifferent(trackers) && |base| == |trackers| && HealedTimes(trackers, base, n)
    modifies gate, gate.open, trackers
    ensures gate.Valid() && gate.State() == ApplyAll(old(gate.State()), Change(polls, k))
    ensures gate.open == old(gate.open) || fresh(gate.open)
    ensures holds == Held(polls, k + 1)
    ensures HealedTimes(trackers, base, n + if Change(polls, k) == [Resume] then 1 else 0)
  {
    var reachable := polls(k).reachable;
    holds := held;
    if !reachable && !held {
      gate.Pause();
      holds := true;
    } else if reachable && held {
      gate.Resume();
      Recover(trackers, base, n);
      holds := false;
    }
  }

  /** A turn up to the end of its sleep: the others have their way. */
  method Meanwhile(gate: Gate, trackers: seq<Tracker>, poll: Poll, ghost base: seq<seq<Op>>, ghost n: nat)
    requires gate.Valid()
    requires AllDifferent(trackers) && |base| == |trackers| && HealedTimes(trackers, base, n)
    modifies gate, gate.open, trackers
    ensures gate.Valid() && gate.State() == ApplyAll(old(gate.State()), poll.others)
    ensures gate.open == old(gate.open) || fresh(gate.open)
    ensures HealedTimes(trackers, base, n)
  {
    Use(gate, poll.others);
    Rounds(trackers, poll.work, base, n);
  }

  method GiveUp(gate: Gate, polls: nat -> Poll, k: nat, held: bool)
    requires gate.Valid() && held == Held(polls, k)
    modifies gate.open
    ensures gate.Valid() && gate.State() == ApplyAll(old(gate.State()), Farewell(polls, k))
  {
    if held {
      gate.Resume();
    }
  }

  method Turn(gate: Gate, trackers: seq<Tracker>, polls: nat -> Poll, k: nat, held: bool,
              ghost base: seq<seq<Op>>, ghost n: nat) returns (holds: bool)
    requires gate.Valid() && held == Held(polls, k)
    requires AllDifferent(trackers) && |base| == |trackers| && HealedTimes(trackers, base, n)
    modifies gate, gate.open, trackers
    ensures gate.Valid() && (gate.open == old(gate.open) || fresh(gate.open))
    ensures gate.State() == ApplyAll(ApplyAll(old(gate.State()), polls(k).others),
                                     if polls(k).slept then Change(polls, k) else Farewell(polls, k))
    ensures polls(k).slept ==> holds == Held(polls, k + 1)
    ensures HealedTimes(trackers, base, n + if polls(k).slept && Change(polls, k) == [Resume] then 1 else 0)
  {
    Meanwhile(gate, trackers, polls(k), base, n);
    if !polls(k).slept {
      GiveUp(gate, polls, k, held);
      return false;
    }
    holds := Look(gate, trackers, polls, k, held, base, n);
  }

  lemma NextTurn(v: View, polls: nat -> Poll, k: nat)
    ensures GateAfter(v, polls, k + 1) == ApplyAll(ApplyAll(GateAfter(v, polls, k), polls(k).others), Change(polls, k))
    ensures Recoveries(polls, k + 1) == Recoveries(polls, k) + if Change(polls, k) == [Resume] then 1 else 0
  {
  }

  /** watchDockerAPI, for as long as the polls are known, while restarts use the
      gate and the checks their trackers. It adds its own calls when reachability
      changes and at its end, in their place among those of the others, and heals
      every check once per recovery, whatever else happens to its tracker. */
  method WatchDockerAPI(gate: Gate, trackers: seq<Tracker>, polls: nat -> Poll, limit: nat)
      returns (ended: bool, turns: nat)
    requires gate.Valid() && AllDifferent(trackers) && forall t | t in trackers :: t.Valid()
    modifies gate, gate.open, trackers
    ensures turns <= limit && forall k | 0 <= k < turns :: polls(k).slept
    ensures if ended then turns < limit && !polls(turns).slept else turns == limit
    ensures gate.Valid()
    ensures gate.State() == if ended then GateAtEnd(old(gate.State()), polls, turns)
                            else GateAfter(old(gate.State()), polls, turns)
    ensures HealedTimes(trackers, old(Histories(trackers)), Recoveries(polls, turns))
  {
    ghost var v, base := gate.State(), Histories(trackers);
    var held := false;
    for k := 0 to limit
      invariant gate.Valid() && gate.State() == GateAfter(v, polls, k)
      invariant gate.open == old(gate.open) || fresh(gate.open)
      invariant held == Held(polls, k) && forall j | 0 <= j < k :: polls(j).slept
      invariant HealedTimes(trackers, base, Recoveries(polls, k))
    {
      NextTurn(v, polls, k);
      held := Turn(gate, trackers, polls, k, held, base, Recoveries(polls, k));
      if !polls(k).slept {
        return true, k;
      }
    }
    return false, limit;
  }

  /** restart with its gate, which the watcher may use meanwhile: whichever way it
      ends and whatever the watcher did, the deferred resume leaves the gate open. */
  method RestartPaused(gate: Gate, host: Restarts.Host, o: Restarts.Order, others: seq<Act>)
      returns (outcomes: seq<Restarts.Outcome>)
    requires gate.Valid()
    modifies gate, gate.open, host
    ensures gate.Valid() && gate.State() == Apply(ApplyAll(Apply(old(gate.State()), Pause), others), Resume)
    ensures !Paused(gate.State())
    ensures host.Now() == Restarts.Restart(old(host.Now()), host.members, o)
    ensures outcomes == Restarts.RestartOutcomes(old(host.Now()), host.members, o)
  {
    gate.Pause();
    outcomes := host.RestartService(o);
    Use(gate, others);
    gate.Resume();
  }
}
