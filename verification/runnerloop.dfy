/** Runner.Run as the program has it: one loop with blocking calls, on a real
    tracker that others may heal at any moment. What it does in a given world is
    fixed moment by moment, and is always a step of the step system of Runners;
    and every step of that system is taken in some world. */
module RunnerLoop {
  import opened Health
  import opened Runners
  import opened Wrappers

  /** The world at one moment: what the runner can see, which ready case a select
      takes, what a round of probes would cost and what Pick would return, and how
      many points the watcher hands back just then, if any. */
  datatype Moment = Moment(env: Env, favoursContext: bool, weight: nat, pick: int, heal: Option<nat>)

  /** What Build and the probes guarantee of any moment. */
  predicate Possible(cfg: Config, m: Moment) {
    m.weight <= 3 * cfg.probes && cfg.interval.Allows(m.pick)
  }

  /** What the loop does at a moment, wherever it stands; nothing while it has to
      wait. Of two ready cases a select takes either. */
  function Choice(r: Runner, m: Moment): Option<Move> {
    var done := m.env.cancelled;
    match r.pc
    case AtGate => Some(Capture)
    case Captured(gen) => Select(done, GiveUp, gen in m.env.gate.closed, Enter, m.favoursContext)
    case InRound => Some(Judge(m.weight))
    case Judged(snap) => Some(if done then Quit else Rest(if snap.Dead() then r.cfg.deadDelay else m.pick))
    case Sleeping(_, until) => Select(done, Abort, m.env.now >= until, Wake, m.favoursContext)
    case Renewing(_) => Some(Renew)
    case Sending(_) => Select(done, Drop, m.env.room, Send, m.favoursContext)
    case Stopped => None
  }

  function Select(done: bool, onDone: Move, ready: bool, onReady: Move, favoursContext: bool): Option<Move> {
    if done && (favoursContext || !ready) then Some(onDone) else if ready then Some(onReady) else None
  }

  function Moved(r: Runner, m: Moment): (r': Runner)
    requires Possible(r.cfg, m)
    ensures r'.cfg == r.cfg
  {
    match Choice(r, m)
    case Some(move) => Do(r, move, m.env)
    case None => r
  }

  /** One moment: the runner's own move, and then what the watcher does to it. */
  function Tick(r: Runner, m: Moment): (r': Runner)
    requires Possible(r.cfg, m)
    ensures r'.cfg == r.cfg
  {
    match m.heal
    case Some(points) => Healed(Moved(r, m), points)
    case None => Moved(r, m)
  }

  ghost predicate AllPossible(cfg: Config, world: nat -> Moment) {
    forall k: nat :: Possible(cfg, world(k))
  }

  /** The runner after k moments of this world. */
  ghost function RunnerAt(r: Runner, world: nat -> Moment, k: nat): (r': Runner)
    requires AllPossible(r.cfg, world)
    ensures r'.cfg == r.cfg
  {
    if k == 0 then r else Tick(RunnerAt(r, world, k - 1), world(k - 1))
  }

  /** What a move asks of the tracker. */
  function OpsOf(choice: Option<Move>): seq<Op> {
    match choice
    case Some(Judge(weight)) => [Round(weight)]
    case Some(Renew) => [Op.Reset]
    case _ => []
  }

  function HealOf(heal: Option<nat>): seq<Op> {
    match heal case Some(points) => [Op.Heal(points)] case None => []
  }

  function AfterHeal(count: nat, heal: Option<nat>): nat {
    match heal case Some(points) => HealCount(count, points) case None => count
  }

  lemma TickMeans(r: Runner, m: Moment)
    requires Possible(r.cfg, m)
    ensures Tick(r, m).pc == Moved(r, m).pc && Tick(r, m).count == AfterHeal(Moved(r, m).count, m.heal)
    ensures Calls(r, m) == OpsOf(Choice(r, m)) + HealOf(m.heal)
  {
  }

  /** The calls of the tracker in one moment. */
  function Calls(r: Runner, m: Moment): seq<Op> { OpsOf(Choice(r, m)) + HealOf(m.heal) }

  function Flatten(calls: seq<seq<Op>>): seq<Op> {
    if calls == [] then [] else Flatten(calls[..|calls| - 1]) + calls[|calls| - 1]
  }

  lemma FlattenNext(calls: seq<seq<Op>>, ops: seq<Op>)
    ensures Flatten(calls + [ops]) == Flatten(calls) + ops
  {
    assert (calls + [ops])[..|calls|] == calls;
  }

  /** One moment of the runner's way through the world, and of its tracker's. */
  ghost predicate TickAt(path: seq<Runner>, calls: seq<seq<Op>>, world: nat -> Moment, k: nat)
    requires k + 1 < |path| && k < |calls|
  {
    && Possible(path[k].cfg, world(k))
    && path[k + 1] == Tick(path[k], world(k)) && calls[k] == Calls(path[k], world(k))
  }

  /** The runner and its tracker from moment to moment. */
  ghost predicate Follows(path: seq<Runner>, calls: seq<seq<Op>>, world: nat -> Moment) {
    |path| == |calls| + 1 && forall k: nat | k < |calls| :: TickAt(path, calls, world, k)
  }

  lemma FollowsOn(path: seq<Runner>, calls: seq<seq<Op>>, world: nat -> Moment)
    requires Follows(path, calls, world) && Possible(path[|calls|].cfg, world(|calls|))
    ensures var r, m := path[|calls|], world(|calls|);
            Follows(path + [Tick(r, m)], calls + [Calls(r, m)], world)
  {
    var n := |calls|;
    var path', calls' := path + [Tick(path[n], world(n))], calls + [Calls(path[n], world(n))];
    forall k: nat | k <= n
      ensures TickAt(path', calls', world, k)
    {
      if k < n {
        assert TickAt(path, calls, world, k);
      }
    }
  }

  /** The world decides where it stands. */
  lemma {:induction false} PathIsFixed(path: seq<Runner>, calls: seq<seq<Op>>, world: nat -> Moment, k: nat)
    requires Follows(path, calls, world) && k < |path| && AllPossible(path[0].cfg, world)
    ensures path[k] == RunnerAt(path[0], world, k)
  {
    if k > 0 {
      PathIsFixed(path, calls, world, k - 1);
      assert TickAt(path, calls, world, k - 1);
    }
  }

  // ---------------------------------------------------------------- the step system

  /** A moment at which a given move is made. */
  function Chance(r: Runner, move: Move, env: Env): Moment {
    Moment(env, move.GiveUp? || move.Abort? || move.Drop?, if move.Judge? then move.weight else 0,
           if move.Rest? && r.pc.Judged? && !r.pc.snap.Dead() then move.delay else r.cfg.interval.min, None)
  }

  ghost predicate Happens(r: Runner, move: Move, env: Env, m: Moment) {
    Possible(r.cfg, m) && m.env == env && Choice(r, m) == Some(move)
  }

  /** The step system allows exactly what the loop does: a move is possible in what
      the runner sees if and only if the loop makes it at some moment that looks
      like that. */
  lemma MovesExactlyWhen(r: Runner, move: Move, env: Env)
    ensures Can(r, move, env) <==> exists m :: Happens(r, move, env, m)
  {
    if Can(r, move, env) {
      assert Happens(r, move, env, Chance(r, move, env));
    }
  }

  /** The loop lets a moment pass exactly when it has no move. */
  lemma WaitsExactlyWhen(r: Runner, m: Moment)
    requires Possible(r.cfg, m)
    ensures Choice(r, m).None? <==> forall move :: !Can(r, move, m.env)
  {
    if Choice(r, m).Some? {
      assert Can(r, Choice(r, m).value, m.env);
    }
  }

  lemma MovedAccounted(r: Runner, m: Moment)
    requires Accounted(r) && Possible(r.cfg, m)
    ensures Accounted(Moved(r, m))
  {
    if Choice(r, m).Some? {
      AccountedKept(r, Choice(r, m).value, m.env);
    }
  }

  lemma HealedAccounted(r: Runner, points: nat)
    requires Accounted(r)
    ensures Accounted(Healed(r, points))
  {
  }

  /** So the account of deaths and weight holds at every moment, heals included. */
  lemma {:induction false} AlwaysAccounted(r: Runner, world: nat -> Moment, k: nat)
    requires Accounted(r) && AllPossible(r.cfg, world)
    ensures Accounted(RunnerAt(r, world, k))
  {
    if k > 0 {
      AlwaysAccounted(r, world, k - 1);
      var before, m := RunnerAt(r, world, k - 1), world(k - 1);
      MovedAccounted(before, m);
      if m.heal.Some? {
        HealedAccounted(Moved(before, m), m.heal.value);
      }
    }
  }

  // ---------------------------------------------------------------- the code

  class Loop {
    const cfg: Config
    const world: nat -> Moment
    const tracker: Tracker
    var at: nat
    ghost const start: Runner
    ghost var path: seq<Runner>
    ghost var calls: seq<seq<Op>>

    /** Where the loop stands after `at` moments. */
    ghost function Now(): Runner
      requires at < |path|
      reads this
    {
      path[at]
    }

    /** The loop has followed the world so far. */
    ghost predicate Followed()
      reads this
    {
      && AllPossible(cfg, world) && |calls| == at && Follows(path, calls, world)
      && path[0] == start && start.cfg == cfg && Now().cfg == cfg
    }

    /** And the tracker has had exactly the calls it should have had, and counts
        what the runner counts. */
    ghost predicate Valid()
      reads this, tracker
    {
      && Followed() && tracker.Valid() && tracker.threshold == cfg.Limit()
      && tracker.errCount == Now().count && tracker.ops == Flatten(calls)
    }

    /** The same when the loop has made its move of this moment. */
    ghost predicate Acted()
      reads this, tracker
    {
      && Followed() && tracker.Valid() && tracker.threshold == cfg.Limit()
      && tracker.errCount == Moved(Now(), world(at)).count
      && tracker.ops == Flatten(calls) + OpsOf(Choice(Now(), world(at)))
    }

    constructor (cfg: Config, world: nat -> Moment)
      requires AllPossible(cfg, world)
      ensures Valid() && at == 0 && fresh(tracker) && this.cfg == cfg && this.world == world
      ensures start == Now() == Runner(cfg, AtGate, 0, 0, 0, 0, 0, 0, world(0).env.now)
    {
      this.cfg, this.world := cfg, world;
      tracker := new Tracker(cfg.threshold);
      at := 0;
      start := Runner(cfg, AtGate, 0, 0, 0, 0, 0, 0, world(0).env.now);
      path := [Runner(cfg, AtGate, 0, 0, 0, 0, 0, 0, world(0).env.now)];
      calls := [];
    }

    /** The watcher may heal the tracker in this moment. */
    method BeHealed(heal: Option<nat>)
      requires tracker.Valid()
      modifies tracker
      ensures tracker.Valid() && tracker.ops == old(tracker.ops) + HealOf(heal)
      ensures tracker.errCount == AfterHeal(old(tracker.errCount), heal)
    {
      match heal {
        case None =>
        case Some(points) =>
          var _ := tracker.Heal(points);
      }
    }

    /** The moment is over. */
    method Later()
      requires Acted()
      modifies this`at, this`path, this`calls, tracker
      ensures Valid() && at == old(at) + 1
      ensures Now().pc == Moved(old(Now()), world(old(at))).pc
    {
      FlattenNext(calls, Calls(Now(), world(at)));
      FollowsOn(path, calls, world);
      TickMeans(Now(), world(at));
      BeHealed(world(at).heal);
      path, calls := path + [Tick(Now(), world(at))], calls + [Calls(Now(), world(at))];
      at := at + 1;
    }

    /** A moment in which the loop asks nothing of its tracker. */
    method Pass()
      requires Valid() && OpsOf(Choice(Now(), world(at))) == []
      modifies this`at, this`path, this`calls, tracker
      ensures Valid() && at == old(at) + 1
      ensures Now().pc == Moved(old(Now()), world(old(at))).pc
    {
      Later();
    }

    /** gate.Wait: the channel is captured first and awaited afterwards. */
    method Wait(limit: nat) returns (passed: bool)
      requires Valid() && Now().pc == AtGate
      modifies this`at, this`path, this`calls, tracker
      ensures Valid() && at > old(at)
      ensures if passed then Now().pc == InRound else Now().pc == Stopped || (Now().pc.Captured? && at >= limit)
      ensures var gen := world(old(at)).env.gate.gen;
              && (passed ==> gen in world(at - 1).env.gate.closed)
              && (Now().pc == Stopped ==> world(at - 1).env.cancelled)
              && (forall k | old(at) < k < at - 1 :: gen !in world(k).env.gate.closed && !world(k).env.cancelled)
    {
      var gen := world(at).env.gate.gen;
      Pass();
      while at < limit
        invariant Valid() && at > old(at) && Now().pc == Captured(gen)
        invariant forall k | old(at) < k < at :: gen !in world(k).env.gate.closed && !world(k).env.cancelled
        decreases limit - at
      {
        var m := world(at);
        if m.env.cancelled && (m.favoursContext || gen !in m.env.gate.closed) {
          Pass();
          return false;
        }
        if gen in m.env.gate.closed {
          Pass();
          return true;
        }
        Pass();
      }
      return false;
    }

    /** round: the tracker takes the round's weight. */
    method Probe() returns (snap: Snapshot)
      requires Valid() && Now().pc == InRound
      modifies this`at, this`path, this`calls, tracker
      ensures Valid() && at == old(at) + 1 && Now().pc == Judged(snap)
    {
      var weight := world(at).weight;
      snap := tracker.Record(weight);
      Later();
    }

    /** The select between the timer and the context. */
    method AwaitTimer(ghost snap: Snapshot, until: int, limit: nat) returns (slept: bool)
      requires Valid() && Now().pc == Sleeping(snap, until)
      modifies this`at, this`path, this`calls, tracker
      ensures Valid() && at >= old(at)
      ensures if slept then Now().pc == if snap.Dead() then Renewing(snap) else AtGate
              else Now().pc == Stopped || (Now().pc.Sleeping? && at >= limit)
      ensures slept ==> at > old(at) && world(at - 1).env.now >= until
      ensures Now().pc == Stopped ==> at > old(at) && world(at - 1).env.cancelled
      ensures forall k | old(at) <= k < at - 1 :: world(k).env.now < until && !world(k).env.cancelled
    {
      while at < limit
        invariant Valid() && at >= old(at) && Now().pc == Sleeping(snap, until)
        invariant forall k | old(at) <= k < at :: world(k).env.now < until && !world(k).env.cancelled
        decreases limit - at
      {
        var m := world(at);
        if m.env.cancelled && (m.favoursContext || m.env.now < until) {
          Pass();
          return false;
        }
        if m.env.now >= until {
          Pass();
          return true;
        }
        Pass();
      }
      return false;
    }

    /** clock.Sleep for the runner. */
    method Sleep(delay: int, limit: nat) returns (slept: bool)
      requires Valid() && Now().pc.Judged? && Choice(Now(), world(at)) == Some(Rest(delay))
      modifies this`at, this`path, this`calls, tracker
      ensures Valid() && at > old(at)
      ensures slept ==> Now().pc == if old(Now().pc.snap).Dead() then Renewing(old(Now().pc.snap)) else AtGate
      ensures !slept ==> Now().pc == Stopped || (Now().pc.Sleeping? && at >= limit)
      ensures var until := world(old(at)).env.now + delay;
              && (slept ==> world(at - 1).env.now >= until)
              && (Now().pc == Stopped ==> world(at - 1).env.cancelled)
              && (forall k | old(at) < k < at - 1 :: world(k).env.now < until && !world(k).env.cancelled)
    {
      ghost var snap := Now().pc.snap;
      var until := world(at).env.now + delay;
      Pass();
      slept := AwaitTimer(snap, until, limit);
    }

    /** The select that raises the event. */
    method Raise(limit: nat) returns (raised: bool)
      requires Valid() && Now().pc.Sending?
      modifies this`at, this`path, this`calls, tracker
      ensures Valid() && at >= old(at)
      ensures if raised then Now().pc == AtGate else Now().pc == Stopped || (Now().pc.Sending? && at >= limit)
      ensures raised ==> at > old(at) && world(at - 1).env.room
      ensures Now().pc == Stopped ==> at > old(at) && world(at - 1).env.cancelled
      ensures forall k | old(at) <= k < at - 1 :: !world(k).env.room && !world(k).env.cancelled
    {
      while at < limit
        invariant Valid() && at >= old(at) && Now().pc.Sending?
        invariant forall k | old(at) <= k < at :: !world(k).env.room && !world(k).env.cancelled
        decreases limit - at
      {
        var m := world(at);
        if m.env.cancelled && (m.favoursContext || !m.env.room) {
          Pass();
          return false;
        }
        if m.env.room {
          Pass();
          return true;
        }
        Pass();
      }
      return false;
    }

    /** tracker.Reset after a dead round. */
    method Reset()
      requires Valid() && Now().pc.Renewing?
      modifies this`at, this`path, this`calls, tracker
      ensures Valid() && at == old(at) + 1 && Now().pc.Sending?
    {
      tracker.Reset();
      Later();
    }

    /** Once round the loop. */
    method GoRound(limit: nat) returns (again: bool)
      requires Valid() && Now().pc == AtGate
      modifies this`at, this`path, this`calls, tracker
      ensures Valid() && at > old(at)
      ensures if again then Now().pc == AtGate else Now().pc == Stopped || at >= limit
    {
      var passed := Wait(limit);
      if !passed {
        return false;
      }
      var snap := Probe();
      if world(at).env.cancelled {
        Pass();
        return false;
      }
      var delay := world(at).pick;
      if snap.Dead() {
        delay := cfg.deadDelay;
      }
      var slept := Sleep(delay, limit);
      if !slept {
        return false;
      }
      if !snap.Dead() {
        return true;
      }
      Reset();
      again := Raise(limit);
    }

    /** Run, for as long as the world is known. It ends only by stopping, and at
        every moment it stands where the world has put it. */
    method Run(limit: nat)
      requires Valid() && Now().pc == AtGate
      modifies this`at, this`path, this`calls, tracker
      ensures Valid() && at >= old(at) && (Now().pc == Stopped || at >= limit)
    {
      while at < limit
        invariant Valid() && at >= old(at) && Now().pc == AtGate
        decreases limit - at
      {
        var again := GoRound(limit);
        if !again {
          return;
        }
      }
    }

    /** Validity leaves nothing open: where the loop stands is the world's doing. */
    lemma WorldDecides()
      requires Valid()
      ensures start.cfg == cfg && Now() == RunnerAt(start, world, at)
    {
      PathIsFixed(path, calls, world, at);
    }
  }
}
