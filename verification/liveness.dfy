/** What must eventually happen as long as the context is not cancelled: events are
    handled, waiting senders are released, and a closed gate opens again. */
module Liveness {
  import opened Runners
  import opened Protocol
  import opened Shutdown
  import Gates

  // ---------------------------------------------------------------- fairness

  ghost predicate HandlerReady(s: State) {
    exists st :: OfHandler(st) && Enabled(s, st)
  }

  ghost predicate HandlerScheduled(run: nat -> State, steps: nat -> Step, n: nat) {
    exists k :: n <= k && (OfHandler(steps(k)) || !HandlerReady(run(k)))
  }

  ghost predicate TimeReaches(run: nat -> State, n: nat, time: int) {
    exists k :: n <= k && run(k).now >= time
  }

  /** A run of the uncancelled watchdog in which the handler is not passed over for
      ever while it could run, and in which time passes. */
  ghost predicate FairRun(run: nat -> State, steps: nat -> Step) {
    && Init(run(0)) && IsRun(run, steps)
    && (forall k: nat :: !run(k).cancelled)
    && (forall n: nat :: HandlerScheduled(run, steps, n))
    && (forall n: nat, time: int :: TimeReaches(run, n, time))
  }

  /** The assumptions can be met: a watchdog nothing happens to runs fairly. */
  lemma IdlingIsFair(s: State) returns (run: nat -> State, steps: nat -> Step)
    requires Init(s) && !s.cancelled
    ensures run(0) == s && FairRun(run, steps)
  {
    run, steps := (k: nat) => s.(now := s.now + k), (k: nat) => Tick(1);
    assert run(0) == s;
    forall n: nat
      ensures HandlerScheduled(run, steps, n)
    {
      assert n <= n && !HandlerReady(run(n));
    }
    forall n: nat, time: int
      ensures TimeReaches(run, n, time)
    {
      var k := if s.now + n >= time then n else time - s.now;
      assert n <= k && run(k).now >= time;
    }
  }

  // ---------------------------------------------------------------- invariants

  /** No sleep was begun after a cancellation. */
  predicate Timely(s: State) { s.handler.Braking? ==> !s.handler.late }

  lemma TimelyKept(s: State, st: Step)
    requires Timely(s) && !s.cancelled && Enabled(s, st)
    ensures Timely(After(s, st))
  {
  }

  lemma {:induction false} HoldsAt(run: nat -> State, steps: nat -> Step, n: nat)
    requires FairRun(run, steps)
    ensures Inv(run(n)) && |run(n).runners| == |run(0).runners| && Timely(run(n))
  {
    if n == 0 {
      InitInv(run(0));
    } else {
      HoldsAt(run, steps, n - 1);
      assert !run(n - 1).cancelled && run(n - 1 + 1) == After(run(n - 1), steps(n - 1));
      InvKept(run(n - 1), steps(n - 1));
      TimelyKept(run(n - 1), steps(n - 1));
    }
  }

  lemma HistoryGrows(s: State, st: Step)
    requires Enabled(s, st)
    ensures s.sent <= After(s, st).sent && s.now <= After(s, st).now
    ensures |After(s, st).sent| > |s.sent| ==> |s.queue| < |s.runners|
    ensures !OfHandler(st) ==>
              After(s, st).handler == s.handler && After(s, st).handled == s.handled && s.queue <= After(s, st).queue
  {
  }

  lemma {:induction false} HistoryOver(run: nat -> State, steps: nat -> Step, n: nat, m: nat)
    requires IsRun(run, steps) && n <= m
    ensures run(n).sent <= run(m).sent && run(n).now <= run(m).now
    decreases m - n
  {
    if n < m {
      HistoryGrows(run(n), steps(n));
      HistoryOver(run, steps, n + 1, m);
    }
  }

  /** While others run, what the handler has before it stays. */
  lemma {:induction false} HandlerStill(run: nat -> State, steps: nat -> Step, n: nat, m: nat)
    requires IsRun(run, steps) && n <= m && forall k | n <= k < m :: !OfHandler(steps(k))
    ensures run(m).handler == run(n).handler && run(m).handled == run(n).handled && run(n).queue <= run(m).queue
    decreases m - n
  {
    if n < m {
      HistoryGrows(run(n), steps(n));
      HandlerStill(run, steps, n + 1, m);
    }
  }

  // ---------------------------------------------------------------- handling

  /** The handler has an event in hand or one to take. */
  predicate Busy(s: State) { InHand(s.handler) != [] || (s.handler.Idle? && s.queue != []) }

  /** When its sleep, if it is in one, is over. */
  function Due(h: Handler): int { if h.Braking? then h.until else 0 }

  lemma BusyIsReady(s: State)
    requires Inv(s) && Timely(s) && Busy(s) && s.now >= Due(s.handler)
    ensures HandlerReady(s)
  {
    InHandIsSent(s);
    var st := match s.handler
      case Idle => Take
      case Acting(_) => Act
      case Braking(_, _, _) => Brake
      case Finding(_) => Find(0)
      case Restarting(_, _) => Replica
      case _ => Release;
    assert OfHandler(st) && Enabled(s, st);
  }

  lemma {:induction false} FirstOfHandler(run: nat -> State, steps: nat -> Step, n: nat, m: nat) returns (k: nat)
    requires n <= m
    ensures n <= k <= m && forall j | n <= j < k :: !OfHandler(steps(j))
    ensures k < m ==> OfHandler(steps(k))
    decreases m - n
  {
    if n == m || OfHandler(steps(n)) {
      return n;
    }
    k := FirstOfHandler(run, steps, n + 1, m);
  }

  /** A busy handler takes its next step sooner or later. */
  lemma HandlerMoves(run: nat -> State, steps: nat -> Step, n: nat) returns (k: nat)
    requires FairRun(run, steps) && Busy(run(n))
    ensures n <= k && OfHandler(steps(k))
    ensures run(k).handler == run(n).handler && run(k).handled == run(n).handled && Busy(run(k))
  {
    assert TimeReaches(run, n, Due(run(n).handler));
    var k0 :| n <= k0 && run(k0).now >= Due(run(n).handler);
    assert HandlerScheduled(run, steps, k0);
    var k1 :| k0 <= k1 && (OfHandler(steps(k1)) || !HandlerReady(run(k1)));
    k := FirstOfHandler(run, steps, n, k1);
    HandlerStill(run, steps, n, k);
    if k == k1 {
      HistoryOver(run, steps, k0, k1);
      HoldsAt(run, steps, k1);
      BusyIsReady(run(k1));
    }
  }

  /** How much there is to do about the event in hand. */
  function Stage(h: Handler): nat { if h.Idle? then 7 else Phase(h) }

  lemma HandlerAdvances(s: State, st: Step)
    requires Enabled(s, st) && OfHandler(st) && !s.cancelled && Busy(s)
    ensures var t := After(s, st);
            || |t.handled| == |s.handled| + 1
            || (&& t.handled == s.handled && Busy(t)
                && (Stage(t.handler) < Stage(s.handler)
                    || (Stage(t.handler) == Stage(s.handler) && Replicas(t.handler) < Replicas(s.handler))))
    ensures RestartHolds(s) ==> RestartHolds(After(s, st)) || !Gates.Paused(After(s, st).gate)
    ensures RestartHolds(s) && |After(s, st).handled| > |s.handled| ==> !Gates.Paused(After(s, st).gate)
    ensures |After(s, st).handled| == |s.handled| ==> (RestartHolds(s) ==> RestartHolds(After(s, st)))
  {
  }

  /** The handler gets done with one more event, and leaves the gate open if it was
      restarting. */
  lemma {:induction false} FinishesOne(run: nat -> State, steps: nat -> Step, n: nat) returns (m: nat)
    requires FairRun(run, steps) && Busy(run(n))
    ensures n < m && |run(m).handled| == |run(n).handled| + 1
    ensures RestartHolds(run(n)) ==> !Gates.Paused(run(m).gate)
    decreases Stage(run(n).handler), Replicas(run(n).handler)
  {
    var k := HandlerMoves(run, steps, n);
    assert !run(k).cancelled && run(k + 1) == After(run(k), steps(k));
    HandlerAdvances(run(k), steps(k));
    if |run(k + 1).handled| > |run(k).handled| {
      return k + 1;
    }
    m := FinishesOne(run, steps, k + 1);
  }

  /** Every event that was ever put into the channel is handled in the end, in its
      place. */
  lemma {:induction false} EveryEventIsHandled(run: nat -> State, steps: nat -> Step, n: nat, j: nat) returns (m: nat)
    requires FairRun(run, steps) && j < |run(n).sent|
    ensures n <= m && j < |run(m).handled| && run(m).handled[j] == run(n).sent[j]
    decreases if j < |run(n).handled| then 0 else j + 1 - |run(n).handled|
  {
    HoldsAt(run, steps, n);
    if j < |run(n).handled| {
      return n;
    }
    assert |run(n).sent| == |run(n).handled| + |InHand(run(n).handler)| + |run(n).queue|;
    NeverLeft(run, steps, n);
    var k := FinishesOne(run, steps, n);
    HistoryOver(run, steps, n, k);
    m := EveryEventIsHandled(run, steps, k, j);
  }

  lemma {:induction false} NeverLeft(run: nat -> State, steps: nat -> Step, n: nat)
    requires FairRun(run, steps)
    ensures run(n).handler != Left
  {
    if n > 0 {
      NeverLeft(run, steps, n - 1);
      assert !run(n - 1).cancelled && run(n - 1 + 1) == After(run(n - 1), steps(n - 1));
    }
  }

  // ---------------------------------------------------------------- senders

  lemma {:induction false} RoomOrSilence(run: nat -> State, steps: nat -> Step, n: nat, m: nat) returns (k: nat)
    requires IsRun(run, steps) && n <= m
    ensures n <= k <= m && (|run(k).queue| < |run(k).runners| || run(m).sent == run(n).sent)
    decreases m - n
  {
    if n == m || |run(n).queue| < |run(n).runners| {
      return n;
    }
    HistoryGrows(run(n), steps(n));
    k := RoomOrSilence(run, steps, n + 1, m);
  }

  /** However busy the handler, the channel has a free slot again and again. */
  lemma RoomComes(run: nat -> State, steps: nat -> Step, n: nat) returns (k: nat)
    requires FairRun(run, steps)
    ensures n <= k && |run(k).queue| < |run(k).runners|
  {
    HoldsAt(run, steps, n);
    if |run(n).queue| < |run(n).runners| {
      return n;
    }
    var m := EveryEventIsHandled(run, steps, n, |run(n).sent| - 1);
    HoldsAt(run, steps, m);
    k := RoomOrSilence(run, steps, n, m);
    if run(m).sent == run(n).sent {
      k := m;
    }
  }

  ghost predicate SendsAfter(steps: nat -> Step, i: nat, n: nat) {
    exists k :: n <= k && steps(k) == Run(i, Send)
  }

  ghost predicate HasRoomAfter(run: nat -> State, i: nat, n: nat) {
    exists k :: n <= k && Enabled(run(k), Run(i, Send))
  }

  /** The channel serves its waiting senders: one that could send again and again
      sends at last. */
  ghost predicate FairChannel(run: nat -> State, steps: nat -> Step, i: nat) {
    forall n: nat :: (forall k: nat | n <= k :: HasRoomAfter(run, i, k)) ==> SendsAfter(steps, i, n)
  }

  lemma {:induction false} KeepsSending(run: nat -> State, steps: nat -> Step, i: nat, n: nat, m: nat)
    requires FairRun(run, steps) && n <= m && i < |run(n).runners| && run(n).runners[i].pc.Sending?
    requires forall k | n <= k < m :: steps(k) != Run(i, Send)
    ensures i < |run(m).runners| && run(m).runners[i].pc == run(n).runners[i].pc
    decreases m - n
  {
    if n < m {
      assert !run(n).cancelled && Enabled(run(n), steps(n)) && run(n + 1) == After(run(n), steps(n));
      KeepsSending(run, steps, i, n + 1, m);
    }
  }

  /** No check stays blocked on the channel: its event gets in. */
  lemma SenderIsReleased(run: nat -> State, steps: nat -> Step, i: nat, n: nat)
    requires FairRun(run, steps) && FairChannel(run, steps, i)
    requires i < |run(n).runners| && run(n).runners[i].pc.Sending?
    ensures SendsAfter(steps, i, n)
  {
    if !SendsAfter(steps, i, n) {
      forall k: nat | n <= k
        ensures HasRoomAfter(run, i, k)
      {
        var m := RoomComes(run, steps, k);
        assert forall j | n <= j < m :: steps(j) != Run(i, Send);
        KeepsSending(run, steps, i, n, m);
        assert Enabled(run(m), Run(i, Send));
      }
    }
  }

  // ---------------------------------------------------------------- deaths

  predicate OfRunner(st: Step, i: nat) { st.Run? && st.i == i }

  ghost predicate RunnerReady(s: State, i: nat) {
    exists st :: OfRunner(st, i) && Enabled(s, st)
  }

  ghost predicate RunnerScheduled(run: nat -> State, steps: nat -> Step, i: nat, n: nat) {
    exists k :: n <= k && (OfRunner(steps(k), i) || !RunnerReady(run(k), i))
  }

  /** The runner is not passed over for ever while it could run. */
  ghost predicate FairRunner(run: nat -> State, steps: nat -> Step, i: nat) {
    forall n: nat :: RunnerScheduled(run, steps, i, n)
  }

  /** Between its own moves a runner stays where it is. */
  lemma {:induction false} RunnerStill(run: nat -> State, steps: nat -> Step, i: nat, n: nat, m: nat)
    requires IsRun(run, steps) && n <= m && i < |run(n).runners|
    requires forall k | n <= k < m :: !OfRunner(steps(k), i)
    ensures i < |run(m).runners| && run(m).runners[i].pc == run(n).runners[i].pc
    decreases m - n
  {
    if n < m {
      assert Enabled(run(n), steps(n)) && run(n + 1) == After(run(n), steps(n));
      RunnerStill(run, steps, i, n + 1, m);
    }
  }

  lemma {:induction false} FirstOfRunner(steps: nat -> Step, i: nat, n: nat, m: nat) returns (k: nat)
    requires n <= m
    ensures n <= k <= m && forall j | n <= j < k :: !OfRunner(steps(j), i)
    ensures k < m ==> OfRunner(steps(k), i)
    decreases m - n
  {
    if n == m || OfRunner(steps(n), i) {
      return n;
    }
    k := FirstOfRunner(steps, i, n + 1, m);
  }

  /** When the sleep of a runner is over, if it is in one. */
  function WakesAt(pc: Pc): int { if pc.Sleeping? then pc.until else 0 }

  lemma DyingIsReady(s: State, i: nat)
    requires i < |s.runners| && Dying(s.runners[i]) && !s.cancelled && s.now >= WakesAt(s.runners[i].pc)
    ensures RunnerReady(s, i)
  {
    var r := s.runners[i];
    var st := Run(i, if r.pc.Judged? then Rest(r.cfg.deadDelay) else if r.pc.Sleeping? then Wake else Renew);
    assert OfRunner(st, i) && Enabled(s, st);
  }

  lemma DyingMoves(run: nat -> State, steps: nat -> Step, i: nat, n: nat) returns (k: nat)
    requires FairRun(run, steps) && FairRunner(run, steps, i)
    requires i < |run(n).runners| && Dying(run(n).runners[i])
    ensures n <= k && OfRunner(steps(k), i) && i < |run(k).runners|
    ensures run(k).runners[i].pc == run(n).runners[i].pc
  {
    assert TimeReaches(run, n, WakesAt(run(n).runners[i].pc));
    var k0 :| n <= k0 && run(k0).now >= WakesAt(run(n).runners[i].pc);
    assert RunnerScheduled(run, steps, i, k0);
    var k1 :| k0 <= k1 && (OfRunner(steps(k1), i) || !RunnerReady(run(k1), i));
    k := FirstOfRunner(steps, i, n, k1);
    RunnerStill(run, steps, i, n, k);
    if k == k1 {
      HistoryOver(run, steps, k0, k1);
      assert !run(k1).cancelled;
      DyingIsReady(run(k1), i);
    }
  }

  /** How many moves it is from its reset. */
  function Moves(pc: Pc): nat { if pc.Judged? then 2 else if pc.Sleeping? then 1 else 0 }

  /** What an uncancelled runner with a death on its hands does. */
  lemma DyingAdvances(s: State, i: nat, st: Step)
    requires Enabled(s, st) && OfRunner(st, i) && !s.cancelled && Dying(s.runners[i])
    ensures i < |After(s, st).runners|
    ensures var pc, pc' := s.runners[i].pc, After(s, st).runners[i].pc;
            || (pc.Renewing? && pc' == Sending(pc.snap))
            || (Dying(After(s, st).runners[i]) && pc'.snap == pc.snap && Moves(pc') < Moves(pc))
  {
  }

  lemma {:induction false} DyingSends(run: nat -> State, steps: nat -> Step, i: nat, n: nat) returns (k: nat)
    requires FairRun(run, steps) && FairRunner(run, steps, i)
    requires i < |run(n).runners| && Dying(run(n).runners[i])
    ensures n <= k && i < |run(k).runners| && run(k).runners[i].pc == Sending(run(n).runners[i].pc.snap)
    decreases Moves(run(n).runners[i].pc)
  {
    k := DyingMoves(run, steps, i, n);
    assert !run(k).cancelled && Enabled(run(k), steps(k)) && run(k + 1) == After(run(k), steps(k));
    DyingAdvances(run(k), i, steps(k));
    k := k + 1;
    if !run(k).runners[i].pc.Sending? {
      k := DyingSends(run, steps, i, k);
    }
  }

  lemma {:induction false} FirstSend(steps: nat -> Step, i: nat, n: nat, m: nat) returns (k: nat)
    requires n <= m && steps(m) == Run(i, Send)
    ensures n <= k <= m && steps(k) == Run(i, Send) && forall j | n <= j < k :: steps(j) != Run(i, Send)
    decreases m - n
  {
    if steps(n) == Run(i, Send) {
      return n;
    }
    k := FirstSend(steps, i, n + 1, m);
  }

  lemma SendIsLogged(s: State, i: nat)
    requires Enabled(s, Run(i, Send))
    ensures After(s, Run(i, Send)).sent == s.sent + [Event(i, s.runners[i].pc.snap, s.now)]
  {
  }

  /** Nothing that killed a check is forgotten: a death recorded in a round is
      raised and handled in the end, with the snapshot of that round, after all
      events raised before it. */
  lemma EveryDeathIsHandled(run: nat -> State, steps: nat -> Step, i: nat, n: nat) returns (m: nat, j: nat)
    requires FairRun(run, steps) && FairRunner(run, steps, i) && FairChannel(run, steps, i)
    requires i < |run(n).runners| && Dying(run(n).runners[i])
    ensures n <= m && |run(n).sent| <= j < |run(m).handled|
    ensures run(m).handled[j].check == i && run(m).handled[j].snap == run(n).runners[i].pc.snap
  {
    var k := DyingSends(run, steps, i, n);
    SenderIsReleased(run, steps, i, k);
    var k1 :| k <= k1 && steps(k1) == Run(i, Send);
    var k2 := FirstSend(steps, i, k, k1);
    KeepsSending(run, steps, i, k, k2);
    HistoryOver(run, steps, n, k2);
    j := |run(k2).sent|;
    assert Enabled(run(k2), steps(k2)) && run(k2 + 1) == After(run(k2), steps(k2));
    SendIsLogged(run(k2), i);
    m := EveryEventIsHandled(run, steps, k2 + 1, j);
  }

  // ---------------------------------------------------------------- the gate

  ghost predicate ReachedAfter(steps: nat -> Step, n: nat) {
    exists k :: n <= k && steps(k) == Reach(true)
  }

  lemma OutageEnds(s: State, st: Step)
    requires OutageHolds(s) && Enabled(s, st)
    ensures (OutageHolds(After(s, st)) && st != Reach(true)) || !Gates.Paused(After(s, st).gate)
  {
  }

  lemma {:induction false} OutageOver(run: nat -> State, steps: nat -> Step, n: nat, m: nat) returns (k: nat)
    requires IsRun(run, steps) && n <= m && OutageHolds(run(n)) && steps(m) == Reach(true)
    ensures n <= k && !Gates.Paused(run(k).gate)
    decreases m - n
  {
    OutageEnds(run(n), steps(n));
    assert run(n + 1) == After(run(n), steps(n));
    if !Gates.Paused(run(n + 1).gate) {
      return n + 1;
    }
    k := OutageOver(run, steps, n + 1, m);
  }

  /** A closed gate opens again, restarts and outages overlapping or not, if the
      dockerapi is found reachable again and again. */
  lemma GateReopens(run: nat -> State, steps: nat -> Step, n: nat) returns (m: nat)
    requires FairRun(run, steps) && forall k: nat :: ReachedAfter(steps, k)
    ensures n <= m && !Gates.Paused(run(m).gate)
  {
    HoldsAt(run, steps, n);
    if !Gates.Paused(run(n).gate) {
      m := n;
    } else if RestartHolds(run(n)) {
      m := FinishesOne(run, steps, n);
    } else {
      assert ReachedAfter(steps, n);
      var k :| n <= k && steps(k) == Reach(true);
      m := OutageOver(run, steps, n, k);
    }
  }
}
