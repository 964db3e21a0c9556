/** When one channel slot per check keeps the checks from blocking (the comment at
    internal/supervisor/supervisor.go:130): never for long with an open gate, and
    with a closed one exactly when Pauses says so. */
module Blocking {
  import opened Health
  import opened Runners
  import opened Protocol
  import opened Pauses
  import Gates

  /** The gate stays as it is, closed or open, from s on. */
  ghost predicate Unmoved(s: State, steps: seq<Step>)
    requires Legal(s, steps)
  {
    && (Gates.Paused(Play(s, steps).gate) <==> Gates.Paused(s.gate))
    && (steps != [] ==> Unmoved(s, steps[..|steps| - 1]))
  }

  ghost predicate SamePhase(s: State, t: State) {
    exists steps :: Legal(s, steps) && Unmoved(s, steps) && Play(s, steps) == t
  }

  /** Some order of events blocks a sender before the gate next opens or closes. */
  ghost predicate CanBlockNow(s: State) {
    exists t, i :: SamePhase(s, t) && 0 <= i < |t.runners| && Blocked(t, i)
  }

  // ---------------------------------------------------------------- closed

  lemma {:induction false} UnmovedIsPaused(s: State, steps: seq<Step>)
    requires Legal(s, steps) && Gates.Paused(s.gate)
    ensures Unmoved(s, steps) <==> StaysPaused(s, steps)
  {
    if steps != [] {
      UnmovedIsPaused(s, steps[..|steps| - 1]);
    }
  }

  lemma PhaseIsQuiet(s: State, t: State)
    requires Gates.Paused(s.gate)
    ensures SamePhase(s, t) <==> Quietly(s, t)
  {
    if steps :| Legal(s, steps) && Play(s, steps) == t && (Unmoved(s, steps) || StaysPaused(s, steps)) {
      UnmovedIsPaused(s, steps);
    }
  }

  lemma ClosedGate(s: State)
    requires Gates.Paused(s.gate)
    ensures CanBlockNow(s) <==> CanBlock(s)
  {
    forall t {
      PhaseIsQuiet(s, t);
    }
  }

  // ---------------------------------------------------------------- open

  /** The handler is not kept from anything: it has nothing to do, or is in the
      middle of a call or a sleep. */
  predicate Unstarved(s: State) {
    match s.handler
    case Idle => s.queue == []
    case Acting(_) => true
    case Braking(_, _, until) => s.now < until
    case Finding(_) => true
    case Restarting(_, _) => true
    case Releasing(_) => false
    case Left => true
  }

  /** Time passes only while that is so. */
  ghost predicate Prompt(s: State, steps: seq<Step>)
    requires Legal(s, steps)
  {
    steps == [] ||
    var init := steps[..|steps| - 1];
    Prompt(s, init) && (steps[|steps| - 1].Tick? ==> Unstarved(Play(s, init)))
  }

  ghost predicate Promptly(s: State, t: State) {
    exists steps :: Legal(s, steps) && Unmoved(s, steps) && Prompt(s, steps) && Play(s, steps) == t
  }

  /** A sender blocks behind one long call of the handler, such as a mail. */
  ghost predicate CanBlockPromptly(s: State) {
    exists t, i :: Promptly(s, t) && 0 <= i < |t.runners| && Blocked(t, i) && t.handler.Acting?
  }

  lemma PromptStart(s: State)
    ensures Promptly(s, s)
  {
    assert Legal(s, []) && Unmoved(s, []) && Prompt(s, []) && Play(s, []) == s;
  }

  lemma PromptOn(s: State, t: State, st: Step)
    requires Promptly(s, t) && Enabled(t, st) && (st.Tick? ==> Unstarved(t))
    requires Gates.Paused(After(t, st).gate) <==> Gates.Paused(s.gate)
    ensures Promptly(s, After(t, st))
  {
    var steps :| Legal(s, steps) && Unmoved(s, steps) && Prompt(s, steps) && Play(s, steps) == t;
    Extend(s, steps, st);
    assert (steps + [st])[..|steps|] == steps;
  }

  lemma PromptIsPhase(s: State, t: State)
    requires Promptly(s, t)
    ensures SamePhase(s, t)
  {
  }

  /** A runner nothing keeps from going round its loop. */
  ghost predicate Free(t: State, i: nat) {
    && i < |t.runners| && Sound(t) && !t.cancelled && !Gates.Paused(t.gate)
    && !t.runners[i].pc.Stopped?
    && (t.runners[i].pc.Captured? ==> t.runners[i].pc.gen in t.gate.closed)
  }

  /** Its next step, when every round it runs fails as badly as it can. */
  function Onward(r: Runner, i: nat, now: int): Step {
    match r.pc
    case AtGate => Run(i, Capture)
    case Judged(snap) => Run(i, Rest(if snap.Dead() then r.cfg.deadDelay else r.cfg.interval.min))
    case _ => Nearer(r, i, now)
  }

  /** How far it is from its next event: the points its budget has left, and the
      steps of the round. */
  function Budgeted(r: Runner): nat {
    if Dying(r) || r.pc.Sending? || r.count >= r.cfg.Limit() then 0 else r.cfg.Limit() - r.count
  }

  function Steps(r: Runner, now: int): nat {
    match r.pc
    case Judged(_) => 7
    case Sleeping(_, until) => if now < until then 6 else 5
    case Renewing(_) => 4
    case AtGate => 4
    case Captured(_) => 3
    case InRound => 2
    case Sending(_) => 0
    case Stopped => 0
  }

  /** A dead round need not be followed by another. */
  function Alive(r: Runner): nat { if Dying(r) || r.pc.Sending? then 0 else 1 }

  lemma OnwardStep(t: State, i: nat)
    requires Free(t, i) && !t.runners[i].pc.Sending?
    ensures var r := t.runners[i];
            var st := Onward(r, i, t.now);
            && Enabled(t, st)
            && Free(After(t, st), i)
            && After(t, st) == t.(now := After(t, st).now, runners := t.runners[i := After(t, st).runners[i]])
  {
    var r := t.runners[i];
    assert t.runners[i := r] == t.runners;
    assert forall k | 0 <= k < |t.runners| :: t.runners[k].cfg.Sound();
  }

  lemma OnwardIsNearer(t: State, i: nat)
    requires Free(t, i) && !t.runners[i].pc.Sending? && Enabled(t, Onward(t.runners[i], i, t.now))
    requires i < |After(t, Onward(t.runners[i], i, t.now)).runners|
    ensures var r, u := t.runners[i], After(t, Onward(t.runners[i], i, t.now));
            var r' := u.runners[i];
            || Alive(r') < Alive(r)
            || (Alive(r') == Alive(r) && Budgeted(r') < Budgeted(r))
            || (Alive(r') == Alive(r) && Budgeted(r') == Budgeted(r) && Steps(r', u.now) < Steps(r, t.now))
  {
    var r := t.runners[i];
    assert r.cfg.Sound();
    if r.pc.InRound? {
      var count := RecordCount(r.count, 3 * r.cfg.probes);
      DeadIsBudgetSpent(r.cfg.Limit(), count, r.count - count);
    }
  }

  /** With an open gate every runner can be brought to the point of raising an
      event, with nothing else changed but the time. */
  lemma {:induction false} ComesToRaise(s: State, t: State, i: nat) returns (u: State)
    requires Promptly(s, t) && !Gates.Paused(s.gate) && Free(t, i)
    requires t.handler.Acting? || (t.handler.Idle? && t.queue == [])
    ensures Promptly(s, u) && Free(u, i) && u.runners[i].pc.Sending?
    ensures |u.runners| == |t.runners| && u.queue == t.queue && u.handler == t.handler
    decreases Alive(t.runners[i]), Budgeted(t.runners[i]), Steps(t.runners[i], t.now)
  {
    if t.runners[i].pc.Sending? {
      return t;
    }
    var st := Onward(t.runners[i], i, t.now);
    OnwardStep(t, i);
    OnwardIsNearer(t, i);
    PromptOn(s, t, st);
    u := ComesToRaise(s, After(t, st), i);
  }

  lemma SendsFreely(t: State, i: nat)
    requires Free(t, i) && t.runners[i].pc.Sending? && |t.queue| < |t.runners|
    ensures var v := After(t, Run(i, Send));
            && Free(v, i) && v.gate == t.gate && v.handler == t.handler
            && |v.runners| == |t.runners| && |v.queue| == |t.queue| + 1
  {
    assert forall k | 0 <= k < |t.runners| :: After(t, Run(i, Send)).runners[k].cfg == t.runners[k].cfg;
  }

  /** So it can fill the channel alone, while the handler is in a long call. */
  lemma {:induction false} FillsAlone(s: State, t: State, i: nat)
    requires Promptly(s, t) && !Gates.Paused(s.gate) && Free(t, i) && t.handler.Acting?
    ensures CanBlockPromptly(s)
    decreases |t.runners| - |t.queue|
  {
    var u := ComesToRaise(s, t, i);
    if |u.queue| >= |u.runners| {
      assert Blocked(u, i);
    } else {
      SendsFreely(u, i);
      PromptOn(s, u, Run(i, Send));
      FillsAlone(s, After(u, Run(i, Send)), i);
    }
  }

  // ---------------------------------------------------------------- the handler

  /** How a handler in the middle of a restart gets to its end. */
  function Finish(s: State): Step
    requires RestartHolds(s)
  {
    match s.handler
    case Braking(_, _, until) => if s.now < until then Tick(until - s.now) else Brake
    case Finding(_) => Find(0)
    case Restarting(_, _) => Replica
    case _ => Release
  }

  function ToFinish(s: State): nat {
    match s.handler
    case Braking(_, _, until) => if s.now < until then 4 else 3
    case Finding(_) => 2
    case Restarting(_, left) => 2 + left
    case Releasing(_) => 1
    case _ => 0
  }

  lemma FinishStep(t: State, i: nat)
    requires Free(t, i) && RestartHolds(t) && Running(t)
    ensures Enabled(t, Finish(t)) && (Finish(t).Tick? ==> Unstarved(t))
    ensures var u := After(t, Finish(t));
            Free(u, i) && Running(u) && (RestartHolds(u) || u.handler.Idle?) && ToFinish(u) < ToFinish(t)
  {
    RunningKept(t, Finish(t));
    var u := After(t, Finish(t));
    assert u.runners == t.runners;
  }

  lemma {:induction false} BecomesIdle(s: State, t: State, i: nat) returns (u: State)
    requires Promptly(s, t) && !Gates.Paused(s.gate) && Free(t, i) && Running(t) && !t.handler.Acting?
    ensures Promptly(s, u) && Free(u, i) && u.handler.Idle?
    decreases ToFinish(t)
  {
    if !RestartHolds(t) {
      return t;
    }
    FinishStep(t, i);
    PromptOn(s, t, Finish(t));
    u := BecomesIdle(s, After(t, Finish(t)), i);
  }

  lemma TakesOne(s: State, t: State, i: nat) returns (u: State)
    requires Promptly(s, t) && !Gates.Paused(s.gate) && Free(t, i) && t.handler.Idle? && t.queue != []
    ensures Promptly(s, u) && Free(u, i) && u.handler.Acting?
  {
    PromptOn(s, t, Take);
    u := After(t, Take);
  }

  /** The handler can be brought into a call, whatever it is doing. */
  lemma BecomesBusy(s: State, t: State, i: nat) returns (u: State)
    requires Promptly(s, t) && !Gates.Paused(s.gate) && Free(t, i) && Running(t)
    ensures Promptly(s, u) && Free(u, i) && u.handler.Acting?
  {
    if t.handler.Acting? {
      return t;
    }
    var v := BecomesIdle(s, t, i);
    if v.queue == [] {
      v := ComesToRaise(s, v, i);
      SendsFreely(v, i);
      PromptOn(s, v, Run(i, Send));
      v := After(v, Run(i, Send));
    }
    u := TakesOne(s, v, i);
  }

  /** No runner holds a channel the gate has not made yet, and nobody has noticed a
      cancellation before there was one. */
  ghost predicate Running(s: State) {
    && (forall r | r in s.runners :: (r.pc.Captured? ==> r.pc.gen <= s.gate.gen) && (r.pc.Stopped? ==> s.cancelled))
    && (s.handler.Left? || (s.handler.Braking? && s.handler.late) ==> s.cancelled)
  }

  lemma RunningKept(s: State, st: Step)
    requires Running(s) && Enabled(s, st)
    ensures Running(After(s, st))
  {
    var t := After(s, st);
    assert t.gate.gen >= s.gate.gen && (s.cancelled ==> t.cancelled);
    forall r | r in t.runners
      ensures (r.pc.Captured? ==> r.pc.gen <= t.gate.gen) && (r.pc.Stopped? ==> t.cancelled)
    {
      var k :| 0 <= k < |t.runners| && t.runners[k] == r;
      assert s.runners[k] in s.runners;
    }
  }

  lemma {:induction false} RunningAlways(s: State, steps: seq<Step>)
    requires Init(s) && Legal(s, steps)
    ensures Running(Play(s, steps))
  {
    if steps != [] {
      RunningAlways(s, steps[..|steps| - 1]);
      RunningKept(Play(s, steps[..|steps| - 1]), steps[|steps| - 1]);
    }
  }

  lemma OpenGate(s: State)
    requires Inv(s) && Running(s) && !s.cancelled && !Gates.Paused(s.gate) && |s.runners| > 0
    ensures CanBlockPromptly(s) && CanBlockNow(s)
  {
    assert s.runners[0] in s.runners;
    PromptStart(s);
    var t := BecomesBusy(s, s, 0);
    FillsAlone(s, t, 0);
    var u, i :| Promptly(s, u) && 0 <= i < |u.runners| && Blocked(u, i) && u.handler.Acting?;
    PromptIsPhase(s, u);
  }

  // ---------------------------------------------------------------- verdict

  /** When one slot per check is enough. In any state of any run, cancellation
      aside, no order of events makes a sender block before the gate next moves
      exactly when the gate is closed and the events queued and the runners that
      can still raise one fit into the channel together. With an open gate it
      takes no more than one long call of a handler that is never late. */
  lemma OneSlotSufficesExactlyWhen(s: State, steps: seq<Step>)
    requires Init(s) && Legal(s, steps) && !Play(s, steps).cancelled
    ensures var t := Play(s, steps);
            !CanBlockNow(t) <==> Gates.Paused(t.gate) && |t.queue| + Sum(Raisers(t)) <= |t.runners|
    ensures !Gates.Paused(Play(s, steps).gate) ==> CanBlockPromptly(Play(s, steps))
  {
    InitInv(s);
    Always(s, steps);
    RunningAlways(s, steps);
    var t := Play(s, steps);
    if Gates.Paused(t.gate) {
      ClosedGate(t);
      BufferSufficesExactlyWhen(t);
    } else {
      OpenGate(t);
    }
  }

  /** In particular a freshly started watchdog, with any number of checks and any
      thresholds, can fill its channel and block during one long call. */
  lemma OneSlotPerCheckCanFill(s: State)
    requires Init(s) && !s.cancelled
    ensures CanBlockPromptly(s)
  {
    assert Legal(s, []) && Play(s, []) == s;
    OneSlotSufficesExactlyWhen(s, []);
  }
}
