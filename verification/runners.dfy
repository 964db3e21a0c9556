/** One check's loop (internal/supervisor/runner.go) as a step system: wait at the
    gate, run a round, sleep, and raise an event when the budget is spent. What
    the world does between two steps is whatever the other goroutines do. */
module Runners {
  import opened Health
  import Checks
  import Gates

  datatype Config = Config(threshold: int, probes: nat, interval: Checks.Interval, deadDelay: nat, restarts: bool) {
    function Limit(): (l: nat)
      ensures l >= 1
    {
      Budget(threshold)
    }

    /** What Build guarantees of an enabled check. */
    predicate Sound() { probes >= 1 && interval.min >= 0 }

    /** The fewest rounds that can spend the budget, three points a probe at most. */
    function MinRounds(): nat
      requires probes >= 1
    {
      (Limit() + 3 * probes - 1) / (3 * probes)
    }

    /** The shortest time between two events of this check. */
    function Spacing(): int
      requires Sound()
    {
      (MinRounds() - 1) * interval.min + deadDelay
    }
  }

  datatype Pc =
    | AtGate
    | Captured(gen: nat)                     // Wait holds the gate's channel
    | InRound
    | Judged(snap: Snapshot)                 // the round is recorded
    | Sleeping(snap: Snapshot, until: int)
    | Renewing(snap: Snapshot)               // slept after a dead round, about to reset
    | Sending(snap: Snapshot)
    | Stopped

  /** `count` is the tracker's error count. The other numbers are history: rounds
      started, rounds that ended dead, failing weight recorded, rounds recorded
      since the last reset, heals received, and when the last event was raised. */
  datatype Runner = Runner(cfg: Config, pc: Pc, count: nat, rounds: nat, deaths: nat,
                           spent: nat, streak: nat, heals: nat, lastRaised: int)

  datatype Move = Capture | Enter | GiveUp | Judge(weight: nat) | Rest(delay: int) | Quit
                | Wake | Abort | Renew | Send | Drop

  /** What a runner can see: the clock, the context, the gate, and whether the
      event channel has a free slot. */
  datatype Env = Env(now: int, cancelled: bool, gate: Gates.View, room: bool)

  predicate Can(r: Runner, m: Move, env: Env) {
    match m
    case Capture => r.pc.AtGate?
    case Enter => r.pc.Captured? && r.pc.gen in env.gate.closed
    case GiveUp => r.pc.Captured? && env.cancelled
    case Judge(weight) => r.pc.InRound? && weight <= 3 * r.cfg.probes
    case Rest(delay) => r.pc.Judged? && !env.cancelled &&
                        (if r.pc.snap.Dead() then delay == r.cfg.deadDelay else r.cfg.interval.Allows(delay))
    case Quit => r.pc.Judged? && env.cancelled
    case Wake => r.pc.Sleeping? && env.now >= r.pc.until
    case Abort => r.pc.Sleeping? && env.cancelled
    case Renew => r.pc.Renewing?
    case Send => r.pc.Sending? && env.room
    case Drop => r.pc.Sending? && env.cancelled
  }

  function Do(r: Runner, m: Move, env: Env): Runner
    requires Can(r, m, env)
  {
    match m
    case Capture => r.(pc := Captured(env.gate.gen))
    case Enter => r.(pc := InRound, rounds := r.rounds + 1)
    case GiveUp => r.(pc := Stopped)
    case Judge(weight) =>
      var count := RecordCount(r.count, weight);
      var snap := Observe(r.cfg.Limit(), count, r.count - count);
      r.(pc := Judged(snap), count := count, spent := r.spent + weight, streak := r.streak + 1,
         deaths := r.deaths + if snap.Dead() then 1 else 0)
    case Rest(delay) => r.(pc := Sleeping(r.pc.snap, env.now + delay))
    case Quit => r.(pc := Stopped)
    case Wake => r.(pc := if r.pc.snap.Dead() then Renewing(r.pc.snap) else AtGate)
    case Abort => r.(pc := Stopped)
    case Renew => r.(pc := Sending(r.pc.snap), count := 0, streak := 0)
    case Send => r.(pc := AtGate, lastRaised := env.now)
    case Drop => r.(pc := Stopped)
  }

  /** A sleep lasts what was asked for: begun with `delay`, it can end in full at
      any later time exactly when that much has passed, whatever else is seen. */
  lemma SleepEndsExactlyWhen(r: Runner, delay: int, env: Env, later: Env)
    requires Can(r, Rest(delay), env)
    ensures Can(Do(r, Rest(delay), env), Wake, later) <==> later.now >= env.now + delay
  {
  }

  /** healAll reaches the tracker of a runner wherever its loop stands. */
  function Healed(r: Runner, points: nat): Runner {
    r.(count := HealCount(r.count, points), heals := r.heals + 1)
  }

  predicate Fresh(r: Runner, now: int) {
    r == Runner(r.cfg, AtGate, 0, 0, 0, 0, 0, 0, now) && r.cfg.Sound()
  }

  // ---------------------------------------------------------------- budget

  /** A dead round is recorded and its reset is still to come. */
  predicate Dying(r: Runner) {
    (r.pc.Judged? || r.pc.Sleeping? || r.pc.Renewing?) && r.pc.snap.Dead()
  }

  /** The amortised account: every death was paid for by failing weight, and what
      is left over covers the current count, with heals in between or not. */
  ghost predicate Accounted(r: Runner) {
    && r.cfg.Sound()
    && (!Dying(r) && !r.pc.Stopped? ==> r.count < r.cfg.Limit())
    && r.count <= r.cfg.Limit() - 1 + 3 * r.cfg.probes
    && r.deaths * r.cfg.Limit() + (if Dying(r) || r.pc.Stopped? then 0 else r.count) <= r.spent
    && (r.pc.Renewing? || r.pc.Sending? ==> r.pc.snap.Dead())
  }

  lemma AccountedKept(r: Runner, m: Move, env: Env)
    requires Accounted(r) && Can(r, m, env)
    ensures Accounted(Do(r, m, env))
  {
    if m.Judge? {
      DeadIsBudgetSpent(r.cfg.Limit(), RecordCount(r.count, m.weight), 0);
      assert (r.deaths + 1) * r.cfg.Limit() == r.deaths * r.cfg.Limit() + r.cfg.Limit();
    }
  }

  /** A death recorded whose event is not in the channel yet. */
  function Owed(r: Runner): nat {
    if Dying(r) || r.pc.Sending? then 1 else 0
  }

  /** A recorded death stays owed until it is sent, unless the runner stops, which
      takes a cancelled context. */
  lemma DebtMove(r: Runner, m: Move, env: Env)
    requires Accounted(r) && Can(r, m, env)
    ensures var r' := Do(r, m, env);
            var paid := if m.Send? then 1 else 0;
            || r'.deaths - Owed(r') - paid == r.deaths - Owed(r)
            || (r'.deaths - Owed(r') == r.deaths - Owed(r) + 1 && r'.pc == Stopped && env.cancelled)
  {
  }

  // ---------------------------------------------------------------- pace

  /** `streak` rounds since the reset cost at most three points a probe each, and
      each of them but a dead last one was followed by a completed pause. */
  ghost predicate Paced(r: Runner, now: int)
    requires r.cfg.Sound()
  {
    && r.count <= 3 * r.cfg.probes * r.streak
    && (r.pc.AtGate? || r.pc.Captured? || r.pc.InRound? ==> now >= r.lastRaised + r.streak * r.cfg.interval.min)
    && (r.pc.Judged? ==> now >= r.lastRaised + (r.streak - 1) * r.cfg.interval.min)
    && (r.pc.Judged? && r.pc.snap.Dead() ==> r.streak >= r.cfg.MinRounds())
    && (r.pc.Sleeping? && !r.pc.snap.Dead() ==> r.pc.until >= r.lastRaised + r.streak * r.cfg.interval.min)
    && (r.pc.Sleeping? && r.pc.snap.Dead() ==> r.pc.until >= r.lastRaised + r.cfg.Spacing())
    && (r.pc.Renewing? || r.pc.Sending? ==> now >= r.lastRaised + r.cfg.Spacing())
    && (r.pc.Sending? ==> r.streak == 0)
  }

  /** MinRounds is the least number of rounds that can spend the budget. */
  lemma MinRoundsIsLeast(cfg: Config, rounds: nat)
    requires cfg.Sound()
    ensures rounds >= cfg.MinRounds() <==> 3 * cfg.probes * rounds >= cfg.Limit()
  {
    var p, m := 3 * cfg.probes, cfg.MinRounds();
    assert p * m >= cfg.Limit() > p * (m - 1) by {
      assert m * p + (cfg.Limit() + p - 1) % p == cfg.Limit() + p - 1;
    }
    if rounds >= m {
      TimesMonotone(m, rounds, p);
    } else {
      TimesMonotone(rounds, m - 1, p);
    }
  }

  lemma EnoughRounds(cfg: Config, rounds: nat)
    requires cfg.Sound() && cfg.Limit() <= 3 * cfg.probes * rounds
    ensures rounds >= cfg.MinRounds()
  {
    var p := 3 * cfg.probes;
    DivMonotone(cfg.Limit() + p - 1, rounds * p + (p - 1), p);
    DivUnique(rounds * p + (p - 1), p, rounds, p - 1);
  }

  lemma SpacingNonNegative(cfg: Config)
    requires cfg.Sound()
    ensures cfg.MinRounds() >= 1 && cfg.Spacing() >= 0
  {
    var p := 3 * cfg.probes;
    DivMonotone(p, cfg.Limit() + p - 1, p);
    DivUnique(p, p, 1, 0);
  }

  lemma TimesMonotone(a: int, b: int, d: nat)
    requires a <= b
    ensures a * d <= b * d
  {
  }

  lemma PacedKept(r: Runner, m: Move, env: Env)
    requires Accounted(r) && Paced(r, env.now) && Can(r, m, env)
    ensures Paced(Do(r, m, env), env.now)
  {
    var min := r.cfg.interval.min;
    match m
    case Judge(weight) =>
      var count := RecordCount(r.count, weight);
      assert 3 * r.cfg.probes * (r.streak + 1) == 3 * r.cfg.probes * r.streak + 3 * r.cfg.probes;
      DeadIsBudgetSpent(r.cfg.Limit(), count, r.count - count);
      if count >= r.cfg.Limit() {
        EnoughRounds(r.cfg, r.streak + 1);
      }
    case Rest(delay) =>
      assert (r.streak - 1) * min + min == r.streak * min;
      if r.pc.snap.Dead() {
        TimesMonotone(r.cfg.MinRounds() - 1, r.streak - 1, min);
      }
    case _ =>
  }

  // ---------------------------------------------------------------- quiet pauses

  /** 1 while a runner may still start a round although the gate is closed. */
  function MayStart(r: Runner, gate: Gates.View): nat {
    if r.pc.Captured? && r.pc.gen in gate.closed then 1 else 0
  }

  /** Whether a runner can still raise an event without passing the closed gate
      again: its death is recorded, or the round it is in, or let into, can kill it. */
  predicate CanRaise(r: Runner, gate: Gates.View, cancelled: bool) {
    match r.pc
    case Captured(gen) => gen in gate.closed && !cancelled && r.count + 3 * r.cfg.probes >= r.cfg.Limit()
    case InRound => !cancelled && r.count + 3 * r.cfg.probes >= r.cfg.Limit()
    case Judged(snap) => !cancelled && snap.Dead()
    case Sleeping(snap, _) => snap.Dead()
    case Renewing(_) => true
    case Sending(_) => true
    case AtGate => false
    case Stopped => false
  }

  function MayRaise(r: Runner, gate: Gates.View, cancelled: bool): nat {
    if CanRaise(r, gate, cancelled) then 1 else 0
  }

  lemma QuietMove(r: Runner, m: Move, env: Env)
    requires r.cfg.Sound() && Can(r, m, env) && Gates.Paused(env.gate)
    ensures var r' := Do(r, m, env);
            && r'.rounds + MayStart(r', env.gate) <= r.rounds + MayStart(r, env.gate)
            && MayRaise(r', env.gate, env.cancelled) + (if m.Send? then 1 else 0)
               <= MayRaise(r, env.gate, env.cancelled)
  {
    if m.Judge? {
      DeadIsBudgetSpent(r.cfg.Limit(), RecordCount(r.count, m.weight), 0);
    }
  }

  // ---------------------------------------------------------------- shutdown

  /** How many steps a runner can still take once the context is cancelled. */
  function Rank(r: Runner): nat {
    match r.pc
    case Sleeping(_, _) => 7
    case Renewing(_) => 6
    case Sending(_) => 5
    case AtGate => 4
    case Captured(_) => 3
    case InRound => 2
    case Judged(_) => 1
    case Stopped => 0
  }

  function RoundsLeft(r: Runner): nat { if 3 <= Rank(r) then 1 else 0 }

  function EventsLeft(r: Runner): nat { if 5 <= Rank(r) then 1 else 0 }

  lemma ShutdownMove(r: Runner, m: Move, env: Env)
    requires Can(r, m, env) && env.cancelled
    ensures var r' := Do(r, m, env);
            && Rank(r') < Rank(r)
            && r'.rounds + RoundsLeft(r') <= r.rounds + RoundsLeft(r)
            && EventsLeft(r') + (if m.Send? then 1 else 0) <= EventsLeft(r)
  {
  }

  /** The step a cancelled runner can take, wherever it stands: nothing holds it,
      neither a closed gate nor a full channel. */
  function WayOut(r: Runner): (m: Move)
    requires r.pc != Stopped
    ensures forall env: Env | env.cancelled :: Can(r, m, env)
  {
    match r.pc
    case AtGate => Capture
    case Captured(_) => GiveUp
    case InRound => Judge(0)
    case Judged(_) => Quit
    case Sleeping(_, _) => Abort
    case Renewing(_) => Renew
    case Sending(_) => Drop
  }
}
