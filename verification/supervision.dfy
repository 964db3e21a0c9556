/** What holds in every reachable state of the supervisor, whatever the order in
    which runners, handler and watcher were scheduled. */
module Supervision {
  import opened Health
  import opened Runners
  import opened Protocol
  import Checks
  import Gates
  import Restarts

  // ---------------------------------------------------------------- events

  /** Each death of a runner is in the channel's history or about to get there;
      only a cancelled runner that stopped may leave one out. */
  ghost predicate Reported(t: State, i: nat)
    requires i < |t.runners|
  {
    var r := t.runners[i];
    var reported := CountOf(t.sent, i) + Owed(r);
    reported == r.deaths || (reported == r.deaths - 1 && r.pc == Stopped && t.cancelled)
  }

  /** No event is invented, reordered, duplicated or lost: everything ever put
      into the channel was handled, in order, or is in the handler's hands, or is
      still queued. The channel never overflows and carries only dead snapshots.
      Every death a runner recorded became an event or is about to, except that a
      cancelled runner may stop with one death unreported. */
  lemma EventsConserved(s: State, steps: seq<Step>)
    requires Init(s) && Legal(s, steps)
    ensures var t := Play(s, steps);
            && t.sent == t.handled + InHand(t.handler) + t.queue
            && |t.queue| <= |s.runners| == |t.runners|
            && (forall e | e in t.sent :: e.check < |s.runners| && e.snap.Dead())
            && (forall i | 0 <= i < |t.runners| :: Reported(t, i))
  {
    InitInv(s);
    Always(s, steps);
    var t := Play(s, steps);
    forall i | 0 <= i < |t.runners|
      ensures Reported(t, i)
    {
      assert DebtOk(t, i);
    }
  }

  // ---------------------------------------------------------------- budget

  /** Over every interleaving of rounds, heals and resets: the events of a check
      cost it at least its threshold each in failing weight, every round starts
      below the threshold, and the count never exceeds one round's worth above
      the last living value. */
  lemma EventsArePaidFor(s: State, steps: seq<Step>, i: nat)
    requires Init(s) && Legal(s, steps) && i < |s.runners|
    ensures i < |Play(s, steps).runners| && PaidFor(Play(s, steps), i)
  {
    InitInv(s);
    Always(s, steps);
    AccountsPay(Play(s, steps), i);
  }

  ghost predicate PaidFor(t: State, i: nat)
    requires i < |t.runners|
  {
    var r := t.runners[i];
    && CountOf(t.sent, i) * r.cfg.Limit() <= r.spent
    && (r.pc.InRound? ==> r.count < r.cfg.Limit())
    && r.count <= r.cfg.Limit() - 1 + 3 * r.cfg.probes
  }

  lemma AccountsPay(t: State, i: nat)
    requires i < |t.runners| && Accounted(t.runners[i]) && DebtOk(t, i)
    ensures PaidFor(t, i)
  {
    TimesMonotone(CountOf(t.sent, i), t.runners[i].deaths, t.runners[i].cfg.Limit());
  }

  /** Whatever else was going on, every recovery of the dockerapi has repaid every
      check exactly once by the time the watcher goes back to sleep. */
  lemma {:induction false} EveryRecoveryHealsEveryCheck(s: State, steps: seq<Step>)
    requires Init(s) && Legal(s, steps) && !Play(s, steps).watcher.Healing?
    ensures var t := Play(s, steps); forall r | r in t.runners :: r.heals == t.recoveries
  {
    InitInv(s);
    Always(s, steps);
  }

  // ---------------------------------------------------------------- pace

  /** The pauses of the rounds needed to spend the budget, and the delay before the
      event, lie between the two. */
  predicate Apart(cfg: Config, earlier: int, later: int) {
    cfg.Sound() && later >= earlier + (cfg.MinRounds() - 1) * cfg.interval.min + cfg.deadDelay
  }

  lemma SpacingIsApart(cfg: Config, earlier: int, later: int)
    requires cfg.Sound() && later >= earlier + cfg.Spacing()
    ensures Apart(cfg, earlier, later)
  {
  }

  lemma SpacedEvents(t: State, a: nat, b: nat)
    requires Sound(t) && SpacingOk(t) && a < b < |t.sent| && t.sent[a].check == t.sent[b].check
    ensures t.sent[a].check < |t.runners|
    ensures t.sent[b].at >= t.sent[a].at + t.runners[t.sent[a].check].cfg.Spacing()
  {
    assert t.sent[a] in t.sent;
  }

  /** Two events of one check are at least the pauses of the rounds needed to
      spend its budget, plus the delay before the event, apart. */
  lemma EventsAreSpaced(s: State, steps: seq<Step>, a: nat, b: nat)
    requires Init(s) && Legal(s, steps)
    requires a < b < |Play(s, steps).sent| && Play(s, steps).sent[a].check == Play(s, steps).sent[b].check
    ensures var t := Play(s, steps);
            t.sent[a].check < |t.runners| && Apart(t.runners[t.sent[a].check].cfg, t.sent[a].at, t.sent[b].at)
  {
    InitInv(s);
    Always(s, steps);
    var t := Play(s, steps);
    SpacedEvents(t, a, b);
    SpacingIsApart(t.runners[t.sent[a].check].cfg, t.sent[a].at, t.sent[b].at);
  }

  // ---------------------------------------------------------------- the gate

  /** The checks are never left paused: a closed gate means a restart or an outage
      is holding it, overlaps included. */
  lemma {:induction false} NoStuckPause(s: State, steps: seq<Step>)
    requires Init(s) && Legal(s, steps)
    ensures var t := Play(s, steps); Gates.Paused(t.gate) ==> RestartHolds(t) || OutageHolds(t)
  {
    InitInv(s);
    Always(s, steps);
  }

  /** A restart ended during the present outage and none has begun since. */
  ghost predicate RestartEndedLast(s: State, steps: seq<Step>)
    requires Legal(s, steps)
  {
    && steps != [] && OutageHolds(Play(s, steps)) && !RestartHolds(Play(s, steps))
    && (steps[|steps| - 1].Release? || RestartEndedLast(s, steps[..|steps| - 1]))
  }

  /** An outage ended during the present restart and none has begun since. */
  ghost predicate OutageEndedLast(s: State, steps: seq<Step>)
    requires Legal(s, steps)
  {
    && steps != [] && RestartHolds(Play(s, steps)) && !OutageHolds(Play(s, steps))
    && (|| OutageHolds(Play(s, steps[..|steps| - 1]))
        || OutageEndedLast(s, steps[..|steps| - 1]))
  }

  /** The gate against what happened to its holders, over one step. */
  lemma ClosedKept(s: State, st: Step, restartEnded: bool, outageEnded: bool)
    requires Enabled(s, st) && GateOk(s)
    requires restartEnded ==> OutageHolds(s) && !RestartHolds(s)
    requires outageEnded ==> RestartHolds(s) && !OutageHolds(s)
    requires Gates.Paused(s.gate) <==> (RestartHolds(s) || OutageHolds(s)) && !restartEnded && !outageEnded
    ensures var t := After(s, st);
            var restartEnded' := OutageHolds(t) && !RestartHolds(t) && (st.Release? || restartEnded);
            var outageEnded' := RestartHolds(t) && !OutageHolds(t) && (OutageHolds(s) || outageEnded);
            Gates.Paused(t.gate) <==> (RestartHolds(t) || OutageHolds(t)) && !restartEnded' && !outageEnded'
  {
  }

  /** The gate is a flag, so being held does not always mean being closed. In every
      state of every run it is closed exactly when a restart or an outage is on,
      unless the other of the two has ended meanwhile, and not begun again. */
  lemma {:induction false} ClosedExactlyWhen(s: State, steps: seq<Step>)
    requires Init(s) && Legal(s, steps)
    ensures var t := Play(s, steps);
            Gates.Paused(t.gate) <==>
            (RestartHolds(t) || OutageHolds(t)) && !RestartEndedLast(s, steps) && !OutageEndedLast(s, steps)
  {
    if steps != [] {
      var init := steps[..|steps| - 1];
      ClosedExactlyWhen(s, init);
      InitInv(s);
      Always(s, init);
      ClosedKept(Play(s, init), steps[|steps| - 1], RestartEndedLast(s, init), OutageEndedLast(s, init));
    }
  }

  predicate Overlap(s: State) { RestartHolds(s) && OutageHolds(s) }

  predicate PausedWhenHeld(s: State) {
    Gates.Paused(s.gate) <==> RestartHolds(s) || OutageHolds(s)
  }

  ghost predicate NeverOverlap(s: State, steps: seq<Step>)
    requires Legal(s, steps)
  {
    !Overlap(Play(s, steps)) && (steps != [] ==> NeverOverlap(s, steps[..|steps| - 1]))
  }

  lemma PausedWhenHeldKept(s: State, st: Step)
    requires Enabled(s, st) && GateOk(s) && !Overlap(s) && PausedWhenHeld(s)
    ensures PausedWhenHeld(After(s, st))
  {
  }

  /** As long as no restart has overlapped an outage, the gate is closed exactly
      while one of them is on. */
  lemma {:induction false} PausedExactlyWhenHeld(s: State, steps: seq<Step>)
    requires Init(s) && Legal(s, steps) && NeverOverlap(s, steps)
    ensures PausedWhenHeld(Play(s, steps))
  {
    if steps != [] {
      var n := |steps| - 1;
      PausedExactlyWhenHeld(s, steps[..n]);
      InitInv(s);
      Always(s, steps[..n]);
      PausedWhenHeldKept(Play(s, steps[..n]), steps[n]);
    }
  }

  // ---------------------------------------------------------------- witnesses

  ghost predicate Reaches(s: State, t: State) {
    exists steps :: Legal(s, steps) && Play(s, steps) == t
  }

  lemma Stay(s: State)
    ensures Reaches(s, s)
  {
    assert Legal(s, []) && Play(s, []) == s;
  }

  lemma Go(s: State, t: State, st: Step)
    requires Reaches(s, t) && Enabled(t, st)
    ensures Reaches(s, After(t, st))
  {
    var steps :| Legal(s, steps) && Play(s, steps) == t;
    Extend(s, steps, st);
  }

  /** One restarting or notifying check with a budget of a single point. */
  function OneCheck(restarts: bool): (s: State)
    ensures Init(s)
  {
    var cfg := Config(1, 1, Checks.Intervals(0).standard, Checks.SECOND, restarts);
    State(0, false, Gates.OPEN_GATE, [Runner(cfg, AtGate, 0, 0, 0, 0, 0, 0, 0)], [], [], [],
          Idle, Dozing(false, DOCKER_API_POLL), false, 0)
  }

  predicate Lone(s: State, restarts: bool) {
    |s.runners| == 1 && s.runners[0].cfg == OneCheck(restarts).runners[0].cfg
  }

  /** The check fails one round, which spends its budget. */
  lemma FailOnce(s0: State, s: State, restarts: bool) returns (t: State)
    requires Reaches(s0, s) && Lone(s, restarts)
    requires s.runners[0].pc == AtGate && !Gates.Paused(s.gate) && !s.cancelled
    ensures Reaches(s0, t) && Lone(t, restarts) && t.runners[0].pc.Judged? && t.runners[0].pc.snap.Dead()
    ensures t == s.(runners := t.runners)
  {
    Go(s0, s, Run(0, Capture));
    var s1 := After(s, Run(0, Capture));
    Go(s0, s1, Run(0, Enter));
    var s2 := After(s1, Run(0, Enter));
    Go(s0, s2, Run(0, Judge(3)));
    t := After(s2, Run(0, Judge(3)));
  }

  /** And it comes to the point of raising its event. */
  lemma AboutToRaise(s0: State, s: State, restarts: bool) returns (t: State)
    requires Reaches(s0, s) && Lone(s, restarts)
    requires s.runners[0].pc == AtGate && !Gates.Paused(s.gate) && !s.cancelled
    ensures Reaches(s0, t) && Lone(t, restarts) && t.runners[0].pc.Sending?
    ensures t == s.(now := t.now, runners := t.runners) && t.now == s.now + Checks.SECOND
  {
    var s3 := FailOnce(s0, s, restarts);
    Go(s0, s3, Run(0, Rest(Checks.SECOND)));
    var s4 := After(s3, Run(0, Rest(Checks.SECOND)));
    Go(s0, s4, Tick(Checks.SECOND));
    var s5 := After(s4, Tick(Checks.SECOND));
    Go(s0, s5, Run(0, Wake));
    var s6 := After(s5, Run(0, Wake));
    Go(s0, s6, Run(0, Renew));
    t := After(s6, Run(0, Renew));
  }

  /** The handler takes the event of the check. */
  lemma Raise(s0: State, s: State, restarts: bool) returns (t: State)
    requires Reaches(s0, s) && Lone(s, restarts) && s.runners[0].pc.Sending? && s.queue == [] && s.handler == Idle
    ensures Reaches(s0, t) && Lone(t, restarts)
    ensures t.runners[0].pc == AtGate && t.handler.Acting? && t.handler.event.check == 0
    ensures t == s.(runners := t.runners, handler := t.handler, sent := t.sent)
  {
    Go(s0, s, Run(0, Send));
    var s1 := After(s, Run(0, Send));
    Go(s0, s1, Take);
    t := After(s1, Take);
  }

  /** A restart that ends during an outage leaves the checks running although the
      dockerapi is still unreachable. */
  lemma OutageDoesNotImplyPaused()
    ensures exists t :: Reaches(OneCheck(true), t) && OutageHolds(t) && !Gates.Paused(t.gate)
  {
    var s0 := OneCheck(true);
    Stay(s0);
    var s1 := AboutToRaise(s0, s0, true);
    var s3 := Raise(s0, s1, true);
    Go(s0, s3, Act);
    var s4 := After(s3, Act);
    Go(s0, s4, Tick(Restarts.PAUSE_BEFORE_RESTART));
    OutageDuringRestart(s0, After(s4, Tick(Restarts.PAUSE_BEFORE_RESTART)));
  }

  lemma OutageDuringRestart(s0: State, s5: State)
    requires Reaches(s0, s5) && Enabled(s5, Brake) && Enabled(s5, Poll) && !s5.held
    ensures exists t :: Reaches(s0, t) && OutageHolds(t) && !Gates.Paused(t.gate)
  {
    Go(s0, s5, Poll);
    var s6 := After(s5, Poll);
    Go(s0, s6, Reach(false));
    var s7 := After(s6, Reach(false));
    Go(s0, s7, Brake);
    var s8 := After(s7, Brake);
    Go(s0, s8, Find(0));
    var s9 := After(s8, Find(0));
    Go(s0, s9, Release);
    var t := After(s9, Release);
    assert Reaches(s0, t) && OutageHolds(t) && !Gates.Paused(t.gate);
  }
}
