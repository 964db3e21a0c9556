/** What can still happen while the gate is closed: the quiet period a restart or
    an outage relies on, and when it keeps runners from blocking on the channel. */
module Pauses {
  import opened Health
  import opened Runners
  import opened Protocol
  import Gates

  function Sum(xs: seq<nat>): nat {
    if xs == [] then 0 else Sum(xs[..|xs| - 1]) + xs[|xs| - 1]
  }

  lemma {:induction false} SumUpdate(xs: seq<nat>, i: nat, x: nat)
    requires i < |xs|
    ensures Sum(xs[i := x]) == Sum(xs) - xs[i] + x
  {
    var n := |xs| - 1;
    if i == n {
      assert xs[i := x][..n] == xs[..n];
    } else {
      SumUpdate(xs[..n], i, x);
      assert xs[i := x][..n] == xs[..n][i := x];
    }
  }

  lemma {:induction false} SumMonotone(xs: seq<nat>, ys: seq<nat>)
    requires |xs| == |ys| && forall i | 0 <= i < |xs| :: xs[i] <= ys[i]
    ensures Sum(xs) <= Sum(ys)
  {
    if xs != [] {
      SumMonotone(xs[..|xs| - 1], ys[..|ys| - 1]);
    }
  }

  lemma {:induction false} SumBounds(xs: seq<nat>)
    requires forall k | 0 <= k < |xs| :: xs[k] <= 1
    ensures Sum(xs) <= |xs|
    ensures forall k | 0 <= k < |xs| :: xs[k] <= Sum(xs)
    ensures Sum(xs) > 0 ==> exists k :: 0 <= k < |xs| && xs[k] == 1
  {
    if xs != [] {
      var init := xs[..|xs| - 1];
      SumBounds(init);
      assert forall k | 0 <= k < |init| :: init[k] == xs[k];
    }
  }

  /** Who can still raise an event although the gate is closed. */
  function Raisers(s: State): (ps: seq<nat>)
    ensures |ps| == |s.runners|
    ensures forall i | 0 <= i < |ps| :: ps[i] == MayRaise(s.runners[i], s.gate, s.cancelled) <= 1
  {
    seq(|s.runners|, i requires 0 <= i < |s.runners| => MayRaise(s.runners[i], s.gate, s.cancelled))
  }

  ghost predicate StaysPaused(s: State, steps: seq<Step>)
    requires Legal(s, steps)
  {
    Gates.Paused(Play(s, steps).gate) && (steps != [] ==> StaysPaused(s, steps[..|steps| - 1]))
  }

  /** How runner i of t compares with runner i of s, an earlier state of the same
      pause. */
  ghost predicate Quieter(s: State, t: State, i: nat)
    requires i < |s.runners| == |t.runners|
  {
    var r, r' := s.runners[i], t.runners[i];
    && r'.rounds + MayStart(r', s.gate) <= r.rounds + MayStart(r, s.gate)
    && CountOf(t.sent, i) + MayRaise(r', s.gate, t.cancelled) <= CountOf(s.sent, i) + MayRaise(r, s.gate, s.cancelled)
  }

  ghost predicate QuietSince(s: State, t: State) {
    && |t.runners| == |s.runners| && t.gate == s.gate && Sound(t)
    && (forall i | 0 <= i < |s.runners| :: Quieter(s, t, i))
    && |t.queue| + Sum(Raisers(t)) <= |s.queue| + Sum(Raisers(s))
  }

  lemma GateStays(t: State, st: Step)
    requires Enabled(t, st) && Gates.Paused(t.gate) && Gates.Paused(After(t, st).gate)
    ensures After(t, st).gate == t.gate
    ensures Sound(t) ==> Sound(After(t, st))
  {
    assert forall i | 0 <= i < |t.runners| :: After(t, st).runners[i].cfg == t.runners[i].cfg;
  }

  lemma QuietRunner(s: State, t: State, st: Step, i: nat)
    requires i < |s.runners| == |t.runners| && t.gate == s.gate && Gates.Paused(t.gate) && Sound(t)
    requires Quieter(s, t, i) && Enabled(t, st)
    ensures Quieter(s, After(t, st), i)
  {
    var u := After(t, st);
    if st.Run? {
      QuietMove(t.runners[st.i], st.move, View(t));
      if st.move.Send? {
        CountOfAppend(t.sent, Event(st.i, t.runners[st.i].pc.snap, t.now), i);
      } else {
        assert u.sent == t.sent;
      }
    } else {
      assert u.sent == t.sent;
      assert u.runners[i].rounds == t.runners[i].rounds && u.runners[i].pc == t.runners[i].pc;
    }
  }

  lemma QuietQueue(t: State, st: Step)
    requires Enabled(t, st) && Gates.Paused(t.gate) && After(t, st).gate == t.gate && Sound(t)
    ensures |After(t, st).queue| + Sum(Raisers(After(t, st))) <= |t.queue| + Sum(Raisers(t))
  {
    var u := After(t, st);
    if st.Run? {
      var pot := MayRaise(u.runners[st.i], t.gate, t.cancelled);
      QuietMove(t.runners[st.i], st.move, View(t));
      SumUpdate(Raisers(t), st.i, pot);
      assert Raisers(u) == Raisers(t)[st.i := pot];
    } else {
      SumMonotone(Raisers(u), Raisers(t));
    }
  }

  lemma {:induction false} QuietRun(s: State, steps: seq<Step>)
    requires Legal(s, steps) && StaysPaused(s, steps) && Sound(s)
    ensures Gates.Paused(s.gate) && QuietSince(s, Play(s, steps))
  {
    if steps != [] {
      var n := |steps| - 1;
      QuietRun(s, steps[..n]);
      var t := Play(s, steps[..n]);
      GateStays(t, steps[n]);
      QuietQueue(t, steps[n]);
      forall i | 0 <= i < |s.runners|
        ensures Quieter(s, Play(s, steps), i)
      {
        QuietRunner(s, t, steps[n], i);
      }
    }
  }

  /** From any state with a closed gate, until it opens: a runner starts at most
      one more round, and only if it had captured the gate while it was open; it
      raises at most one more event, and none if it was waiting at the gate. */
  lemma PauseQuietens(s: State, steps: seq<Step>, i: nat)
    requires Legal(s, steps) && StaysPaused(s, steps) && Sound(s) && i < |s.runners|
    ensures |Play(s, steps).runners| == |s.runners|
    ensures var r, r' := s.runners[i], Play(s, steps).runners[i];
            && r'.rounds <= r.rounds + 1
            && (r'.rounds > r.rounds ==> r.pc.Captured? && r.pc.gen in s.gate.closed)
    ensures CountOf(Play(s, steps).sent, i) <= CountOf(s.sent, i) + 1
    ensures s.runners[i].pc.AtGate? || s.runners[i].pc == Captured(s.gate.gen) ==>
              CountOf(Play(s, steps).sent, i) <= CountOf(s.sent, i)
  {
    QuietRun(s, steps);
    assert Quieter(s, Play(s, steps), i);
  }

  // ---------------------------------------------------------------- the buffer

  /** Runner i wants to raise its event and finds the channel full. */
  predicate Blocked(s: State, i: nat)
    requires i < |s.runners|
  {
    s.runners[i].pc.Sending? && |s.queue| >= |s.runners|
  }

  /** t can follow s without the gate opening on the way. */
  ghost predicate Quietly(s: State, t: State) {
    exists steps :: Legal(s, steps) && StaysPaused(s, steps) && Play(s, steps) == t
  }

  ghost predicate CanBlock(s: State) {
    exists t, i :: Quietly(s, t) && 0 <= i < |t.runners| && Blocked(t, i)
  }

  lemma QuietlyStart(s: State)
    requires Gates.Paused(s.gate)
    ensures Quietly(s, s)
  {
    assert Legal(s, []) && StaysPaused(s, []) && Play(s, []) == s;
  }

  lemma QuietlyOn(s: State, t: State, st: Step)
    requires Quietly(s, t) && Enabled(t, st) && Gates.Paused(After(t, st).gate)
    ensures Quietly(s, After(t, st))
  {
    var steps :| Legal(s, steps) && StaysPaused(s, steps) && Play(s, steps) == t;
    Extend(s, steps, st);
    assert (steps + [st])[..|steps|] == steps;
  }

  /** The step that brings a runner closer to raising its event. */
  function Nearer(r: Runner, i: nat, now: int): Step {
    match r.pc
    case Captured(_) => Run(i, Enter)
    case InRound => Run(i, Judge(3 * r.cfg.probes))
    case Judged(_) => Run(i, Rest(r.cfg.deadDelay))
    case Sleeping(_, until) => if now < until then Tick(until - now) else Run(i, Wake)
    case _ => Run(i, Renew)
  }

  function Distance(r: Runner, now: int): nat {
    match r.pc
    case Captured(_) => 6
    case InRound => 5
    case Judged(_) => 4
    case Sleeping(_, until) => if now < until then 3 else 2
    case Renewing(_) => 1
    case _ => 0
  }

  lemma DriveStep(t: State, i: nat)
    requires Sound(t) && i < |t.runners|
    requires CanRaise(t.runners[i], t.gate, t.cancelled) && !t.runners[i].pc.Sending?
    ensures Enabled(t, Nearer(t.runners[i], i, t.now))
    ensures var r := t.runners[i];
            var u := After(t, Nearer(r, i, t.now));
            && |u.runners| == |t.runners| && u.runners[i].cfg == r.cfg
            && u == t.(now := u.now, runners := t.runners[i := u.runners[i]])
            && CanRaise(u.runners[i], u.gate, u.cancelled) && Distance(u.runners[i], u.now) < Distance(r, t.now)
  {
    var r := t.runners[i];
    if r.pc.InRound? {
      DeadIsBudgetSpent(r.cfg.Limit(), RecordCount(r.count, 3 * r.cfg.probes), 0);
    }
    assert t.runners[i := r] == t.runners;
  }

  /** A runner that can raise an event can be brought to the point of raising it,
      with nothing else changed but the time. */
  lemma {:induction false} Drive(s: State, t: State, i: nat) returns (u: State)
    requires Quietly(s, t) && Gates.Paused(t.gate) && Sound(t)
    requires i < |t.runners| && CanRaise(t.runners[i], t.gate, t.cancelled)
    ensures Quietly(s, u) && |u.runners| == |t.runners|
    ensures u.runners[i].pc.Sending? && u.runners[i].cfg == t.runners[i].cfg
    ensures u == t.(now := u.now, runners := t.runners[i := u.runners[i]])
    decreases Distance(t.runners[i], t.now)
  {
    if t.runners[i].pc.Sending? {
      assert t.runners[i := t.runners[i]] == t.runners;
      return t;
    }
    var st := Nearer(t.runners[i], i, t.now);
    DriveStep(t, i);
    QuietlyOn(s, t, st);
    GateStays(t, st);
    u := Drive(s, After(t, st), i);
  }

  /** One more raiser's event put into the channel. */
  lemma FillOne(s: State, t: State, i: nat) returns (v: State)
    requires Quietly(s, t) && Gates.Paused(t.gate) && Sound(t) && |t.queue| < |t.runners|
    requires i < |t.runners| && CanRaise(t.runners[i], t.gate, t.cancelled)
    ensures Quietly(s, v) && Gates.Paused(v.gate) && Sound(v) && |v.runners| == |t.runners|
    ensures |v.queue| == |t.queue| + 1 && Raisers(v) == Raisers(t)[i := 0]
  {
    var u := Drive(s, t, i);
    QuietlyOn(s, u, Run(i, Send));
    GateStays(u, Run(i, Send));
    v := After(u, Run(i, Send));
  }

  lemma {:induction false} FillUp(s: State, t: State)
    requires Quietly(s, t) && Gates.Paused(t.gate) && Sound(t)
    requires |t.queue| <= |t.runners| < |t.queue| + Sum(Raisers(t))
    ensures CanBlock(s)
    decreases |t.runners| - |t.queue|
  {
    SumBounds(Raisers(t));
    var i :| 0 <= i < |t.runners| && Raisers(t)[i] == 1;
    if |t.queue| == |t.runners| {
      var u := Drive(s, t, i);
      assert Blocked(u, i);
    } else {
      var v := FillOne(s, t, i);
      SumUpdate(Raisers(t), i, 0);
      FillUp(s, v);
    }
  }

  /** One slot per check is enough for a pause exactly when the events already
      queued and the runners that can still raise one fit into the channel
      together: then no sender blocks before the gate opens, whatever happens, and
      otherwise some order of events makes one block. */
  lemma BufferSufficesExactlyWhen(s: State)
    requires Gates.Paused(s.gate) && Sound(s) && |s.queue| <= |s.runners|
    ensures !CanBlock(s) <==> |s.queue| + Sum(Raisers(s)) <= |s.runners|
  {
    if CanBlock(s) {
      var t, i :| Quietly(s, t) && 0 <= i < |t.runners| && Blocked(t, i);
      var steps :| Legal(s, steps) && StaysPaused(s, steps) && Play(s, steps) == t;
      QuietRun(s, steps);
      SumBounds(Raisers(t));
      assert Raisers(t)[i] == 1;
    }
    if |s.queue| + Sum(Raisers(s)) > |s.runners| {
      QuietlyStart(s);
      FillUp(s, s);
    }
  }

  /** In particular it is enough whenever nothing was queued when the gate closed. */
  lemma EmptyQueueSuffices(s: State)
    requires Gates.Paused(s.gate) && Sound(s) && s.queue == []
    ensures !CanBlock(s)
  {
    SumBounds(Raisers(s));
    BufferSufficesExactlyWhen(s);
  }
}
