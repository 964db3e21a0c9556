/** Cancelling the context stops everything: runners, handler and watcher all
    reach their end, and none of them is left waiting for another. */
module Shutdown {
  import opened Runners
  import opened Protocol
  import opened Pauses

  predicate AllStopped(s: State) {
    (forall r | r in s.runners :: r.pc == Stopped) && s.handler == Left && s.watcher == Off
  }

  // ---------------------------------------------------------------- progress

  function HandlerStep(h: Handler): Step
    requires h != Left
  {
    match h
    case Idle => Leave
    case Acting(_) => Act
    case Braking(_, _, _) => BrakeFails
    case Finding(_) => Find(0)
    case Restarting(_, _) => Replica
    case Releasing(_) => Release
  }

  function WatcherStep(w: Watcher): Step
    requires w != Off
  {
    match w
    case Dozing(_, _) => PollFails
    case Polling => Reach(false)
    case Healing(_) => HealNext
  }

  /** The event in the handler's hands is one that a check sent. */
  lemma InHandIsSent(s: State)
    requires EventsOk(s)
    ensures s.handler.Acting? ==> s.handler.event.check < |s.runners|
  {
    if s.handler.Acting? {
      assert s.sent[|s.handled|] == s.handler.event;
      assert s.handler.event in s.sent;
    }
  }

  /** Once cancelled, every goroutine that has not ended can take a step at once,
      whatever the others do, the state of the gate and the state of the channel. */
  lemma NobodyIsStuck(s: State, steps: seq<Step>)
    requires Init(s) && Legal(s, steps) && Play(s, steps).cancelled
    ensures var t := Play(s, steps);
            && (forall i | 0 <= i < |t.runners| && t.runners[i].pc != Stopped ::
                  Enabled(t, Run(i, WayOut(t.runners[i]))))
            && (t.handler != Left ==> Enabled(t, HandlerStep(t.handler)))
            && (t.watcher != Off ==> Enabled(t, WatcherStep(t.watcher)))
  {
    InitInv(s);
    Always(s, steps);
    InHandIsSent(Play(s, steps));
  }

  // ---------------------------------------------------------------- measure

  function Ranks(s: State): (rs: seq<nat>)
    ensures |rs| == |s.runners| && forall i | 0 <= i < |rs| :: rs[i] == Rank(s.runners[i])
  {
    seq(|s.runners|, i requires 0 <= i < |s.runners| => Rank(s.runners[i]))
  }

  function WatcherRank(s: State): nat {
    match s.watcher
    case Dozing(late, _) => if late then 1 else 4 + |s.runners|
    case Polling => 3 + |s.runners|
    case Healing(next) => 2 + if next < |s.runners| then |s.runners| - next else 0
    case Off => 0
  }

  function Phase(h: Handler): nat {
    match h
    case Acting(_) => 6
    case Braking(_, _, _) => 5
    case Finding(_) => 4
    case Restarting(_, _) => 3
    case Releasing(_) => 2
    case Idle => 1
    case Left => 0
  }

  function Replicas(h: Handler): nat { if h.Restarting? then h.left else 0 }

  /** Lexicographic: loops first, then events waiting, then the handler. */
  datatype Measure = Measure(loops: nat, queued: nat, phase: nat, replicas: nat) {
    predicate Below(m: Measure) {
      || loops < m.loops
      || (loops == m.loops && queued < m.queued)
      || (loops == m.loops && queued == m.queued && phase < m.phase)
      || (loops == m.loops && queued == m.queued && phase == m.phase && replicas < m.replicas)
    }
  }

  function Work(s: State): Measure {
    Measure(Sum(Ranks(s)) + WatcherRank(s), |s.queue|, Phase(s.handler), Replicas(s.handler))
  }

  lemma RunnerWorkShrinks(s: State, i: nat, m: Move)
    requires s.cancelled && Enabled(s, Run(i, m))
    ensures After(s, Run(i, m)).cancelled && Work(After(s, Run(i, m))).Below(Work(s))
  {
    var t := After(s, Run(i, m));
    ShutdownMove(s.runners[i], m, View(s));
    SumUpdate(Ranks(s), i, Rank(t.runners[i]));
    assert Ranks(t) == Ranks(s)[i := Rank(t.runners[i])];
  }

  /** Whatever runs after cancellation uses up work; time passing does not. */
  lemma WorkShrinks(s: State, st: Step)
    requires s.cancelled && Enabled(s, st)
    ensures After(s, st).cancelled
    ensures if st.Tick? then Work(After(s, st)) == Work(s) else Work(After(s, st)).Below(Work(s))
  {
    if st.Run? {
      RunnerWorkShrinks(s, st.i, st.move);
    } else {
      assert Ranks(After(s, st)) == Ranks(s);
    }
  }

  // ---------------------------------------------------------------- termination

  ghost predicate IsRun(run: nat -> State, steps: nat -> Step) {
    forall k: nat :: Enabled(run(k), steps(k)) && run(k + 1) == After(run(k), steps(k))
  }

  lemma {:induction false} TicksUntil(run: nat -> State, steps: nat -> Step, n: nat, m: nat)
    requires IsRun(run, steps) && n <= m && run(n).cancelled
    requires forall k | n <= k < m :: steps(k).Tick?
    ensures run(m).cancelled && Work(run(m)) == Work(run(n))
    decreases m - n
  {
    if n < m {
      WorkShrinks(run(n), steps(n));
      TicksUntil(run, steps, n + 1, m);
    }
  }

  /** From a cancelled state only finitely many steps do any work. */
  lemma {:induction false} WorkRunsOut(run: nat -> State, steps: nat -> Step, n: nat)
    requires IsRun(run, steps) && run(n).cancelled
    ensures exists m :: n <= m && run(m).cancelled && forall k | m <= k :: steps(k).Tick?
    decreases Work(run(n)).loops, Work(run(n)).queued, Work(run(n)).phase, Work(run(n)).replicas
  {
    if k0 :| n <= k0 && !steps(k0).Tick? {
      var k := FirstWork(run, steps, n, k0);
      TicksUntil(run, steps, n, k);
      WorkShrinks(run(k), steps(k));
      WorkRunsOut(run, steps, k + 1);
    } else {
      assert forall k | n <= k :: steps(k).Tick?;
    }
  }

  lemma {:induction false} FirstWork(run: nat -> State, steps: nat -> Step, n: nat, k0: nat) returns (k: nat)
    requires n <= k0 && !steps(k0).Tick?
    ensures n <= k <= k0 && !steps(k).Tick? && forall j | n <= j < k :: steps(j).Tick?
    decreases k0 - n
  {
    if !steps(n).Tick? {
      return n;
    }
    k := FirstWork(run, steps, n + 1, k0);
  }

  lemma {:induction false} Prefix(run: nat -> State, steps: nat -> Step, n: nat) returns (prefix: seq<Step>)
    requires IsRun(run, steps)
    ensures |prefix| == n && Legal(run(0), prefix) && Play(run(0), prefix) == run(n)
  {
    if n == 0 {
      return [];
    }
    prefix := Prefix(run, steps, n - 1);
    Extend(run(0), prefix, steps(n - 1));
    prefix := prefix + [steps(n - 1)];
  }

  ghost predicate NothingToDo(s: State) {
    forall st: Step :: Enabled(s, st) ==> st.Tick?
  }

  ghost predicate ProgressFrom(run: nat -> State, steps: nat -> Step, n: nat) {
    exists k :: n <= k && (!steps(k).Tick? || NothingToDo(run(k)))
  }

  /** Time does not pass for ever while some goroutine could run. */
  ghost predicate Progresses(run: nat -> State, steps: nat -> Step) {
    forall n: nat :: ProgressFrom(run, steps, n)
  }

  /** Every run in which the context is cancelled and which keeps making progress
      comes to a state where every goroutine has ended. */
  lemma ShutdownCompletes(run: nat -> State, steps: nat -> Step, n: nat)
    requires Init(run(0)) && IsRun(run, steps) && Progresses(run, steps) && run(n).cancelled
    ensures exists m :: n <= m && AllStopped(run(m))
  {
    WorkRunsOut(run, steps, n);
    var m :| n <= m && run(m).cancelled && forall k | m <= k :: steps(k).Tick?;
    assert ProgressFrom(run, steps, m);
    var k :| m <= k && (!steps(k).Tick? || NothingToDo(run(k)));
    TicksUntil(run, steps, m, k);
    var prefix := Prefix(run, steps, k);
    NobodyIsStuck(run(0), prefix);
    assert AllStopped(run(k));
  }

  // ---------------------------------------------------------------- last words

  ghost predicate Winding(s: State, t: State, i: nat)
    requires i < |s.runners| == |t.runners|
  {
    var r, r' := s.runners[i], t.runners[i];
    && r'.rounds + RoundsLeft(r') <= r.rounds + RoundsLeft(r)
    && CountOf(t.sent, i) + EventsLeft(r') <= CountOf(s.sent, i) + EventsLeft(r)
  }

  lemma WindingStep(s: State, t: State, st: Step, i: nat)
    requires i < |s.runners| == |t.runners| && Winding(s, t, i) && t.cancelled && Enabled(t, st)
    ensures After(t, st).cancelled && |After(t, st).runners| == |s.runners| && Winding(s, After(t, st), i)
  {
    if st.Run? {
      ShutdownMove(t.runners[st.i], st.move, View(t));
      if st.move.Send? {
        CountOfAppend(t.sent, Event(st.i, t.runners[st.i].pc.snap, t.now), i);
      }
    }
  }

  lemma {:induction false} WindsDown(s: State, steps: seq<Step>, i: nat)
    requires Legal(s, steps) && s.cancelled && i < |s.runners|
    ensures Play(s, steps).cancelled && |Play(s, steps).runners| == |s.runners|
    ensures Winding(s, Play(s, steps), i)
  {
    if steps != [] {
      WindsDown(s, steps[..|steps| - 1], i);
      WindingStep(s, Play(s, steps[..|steps| - 1]), steps[|steps| - 1], i);
    }
  }

  predicate LittleLeft(s: State, t: State, i: nat)
    requires i < |s.runners| == |t.runners|
  {
    var spare := if s.runners[i].pc == Stopped then 0 else 1;
    && t.runners[i].rounds <= s.runners[i].rounds + spare
    && CountOf(t.sent, i) <= CountOf(s.sent, i) + spare
  }

  lemma WindingMeans(s: State, t: State, i: nat)
    requires i < |s.runners| == |t.runners| && Winding(s, t, i)
    ensures LittleLeft(s, t, i)
  {
  }

  /** After cancellation each runner starts at most one more round and raises at
      most one more event, and neither once it has stopped. */
  lemma LastWords(s: State, steps: seq<Step>, i: nat)
    requires Legal(s, steps) && s.cancelled && i < |s.runners|
    ensures |Play(s, steps).runners| == |s.runners| && LittleLeft(s, Play(s, steps), i)
  {
    WindsDown(s, steps, i);
    WindingMeans(s, Play(s, steps), i);
  }
}
