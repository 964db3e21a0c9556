/** The supervisor (internal/supervisor/supervisor.go): all runners, the event
    handler, the dockerapi watcher, the gate and the event channel, interleaved in
    any order. A run is an initial state and a sequence of steps. */
module Protocol {
  import opened Health
  import opened Runners
  import Checks
  import Gates
  import Holders
  import Restarts

  const DOCKER_API_POLL := 3 * Checks.SECOND

  /** `at` is when the event was raised; the program does not carry it. */
  datatype Event = Event(check: nat, snap: Snapshot, at: int)

  /** `late` marks a sleep begun after the context was cancelled: it fails. */
  datatype Handler =
    | Idle
    | Acting(event: Event)
    | Braking(event: Event, late: bool, until: int)
    | Finding(event: Event)
    | Restarting(event: Event, left: nat)
    | Releasing(event: Event)
    | Left

  datatype Watcher = Dozing(late: bool, until: int) | Polling | Healing(next: nat) | Off

  /** `sent` and `handled` record every event ever put into the channel and every
      event whose handling is over; `recoveries` counts the outages that ended. */
  datatype State = State(
    now: int, cancelled: bool,
    gate: Gates.View,
    runners: seq<Runner>,
    queue: seq<Event>, sent: seq<Event>, handled: seq<Event>,
    handler: Handler,
    watcher: Watcher, held: bool, recoveries: nat)

  datatype Step =
    | Run(i: nat, move: Move)
    | Take | Leave | Act | Brake | BrakeFails | Find(matched: nat) | Replica | Release
    | Poll | PollFails | Reach(reachable: bool) | HealNext
    | Cancel | Tick(d: nat)

  function View(s: State): Env {
    Env(s.now, s.cancelled, s.gate, |s.queue| < |s.runners|)
  }

  /** pauseAll and resumeAll. */
  function Call(s: State, act: Gates.Act): State { s.(gate := Gates.Apply(s.gate, act)) }

  predicate Init(s: State) {
    && |s.runners| >= 1
    && (forall r | r in s.runners :: Fresh(r, s.now))
    && s.gate == Gates.OPEN_GATE
    && s.queue == s.sent == s.handled == []
    && s.handler == Idle
    && (s.watcher == Off || s.watcher == Dozing(s.cancelled, s.now + DOCKER_API_POLL))
    && !s.held && s.recoveries == 0
  }

  predicate Enabled(s: State, st: Step) {
    match st
    case Run(i, m) => i < |s.runners| && Can(s.runners[i], m, View(s))
    case Take => s.handler.Idle? && s.queue != []
    case Leave => s.handler.Idle? && s.cancelled
    case Act => s.handler.Acting? && s.handler.event.check < |s.runners|
    case Brake => s.handler.Braking? && !s.handler.late && s.now >= s.handler.until
    case BrakeFails => s.handler.Braking? && s.cancelled
    case Find(_) => s.handler.Finding?
    case Replica => s.handler.Restarting?
    case Release => s.handler.Releasing?
    case Poll => s.watcher.Dozing? && !s.watcher.late && s.now >= s.watcher.until
    case PollFails => s.watcher.Dozing? && s.cancelled
    case Reach(_) => s.watcher.Polling?
    case HealNext => s.watcher.Healing?
    case Cancel => !s.cancelled
    case Tick(d) => d > 0
  }

  function Doze(s: State): Watcher { Dozing(s.cancelled, s.now + DOCKER_API_POLL) }

  /** The loop over the matched containers, `left` of them to go. */
  function Remaining(e: Event, left: nat): Handler {
    if left == 0 then Releasing(e) else Restarting(e, left)
  }

  function After(s: State, st: Step): State
    requires Enabled(s, st)
  {
    match st
    case Run(i, m) =>
      var r := s.runners[i];
      var moved := s.(runners := s.runners[i := Do(r, m, View(s))]);
      if m.Send? then
        var e := Event(i, r.pc.snap, s.now);
        moved.(queue := s.queue + [e], sent := s.sent + [e])
      else moved
    case Take => s.(handler := Acting(s.queue[0]), queue := s.queue[1..])
    case Leave => s.(handler := Left)
    case Act =>
      var e := s.handler.event;
      if s.runners[e.check].cfg.restarts then
        Call(s, Gates.Pause).(handler := Braking(e, s.cancelled, s.now + Restarts.PAUSE_BEFORE_RESTART))
      else s.(handler := Idle, handled := s.handled + [e])
    case Brake => s.(handler := Finding(s.handler.event))
    case BrakeFails => s.(handler := Releasing(s.handler.event))
    case Find(matched) => s.(handler := Remaining(s.handler.event, matched))
    case Replica =>
      s.(handler := Remaining(s.handler.event, if s.handler.left > 0 then s.handler.left - 1 else 0))
    case Release =>
      Call(s, Gates.Resume).(handler := Idle, handled := s.handled + [s.handler.event])
    case Poll => s.(watcher := Polling)
    case PollFails =>
      (if s.held then Call(s, Gates.Resume) else s).(watcher := Off, held := false)
    case Reach(reachable) =>
      if !reachable && !s.held then Call(s, Gates.Pause).(held := true, watcher := Doze(s))
      else if reachable && s.held then Call(s, Gates.Resume).(watcher := Healing(0), recoveries := s.recoveries + 1)
      else s.(watcher := Doze(s))
    case HealNext =>
      var k := s.watcher.next;
      if k < |s.runners| then
        s.(runners := s.runners[k := Healed(s.runners[k], Holders.HEAL_POINTS)], watcher := Healing(k + 1))
      else s.(held := false, watcher := Doze(s))
    case Cancel => s.(cancelled := true)
    case Tick(d) => s.(now := s.now + d)
  }

  ghost predicate Legal(s: State, steps: seq<Step>)
    decreases |steps|, 0
  {
    steps == [] ||
    (Legal(s, steps[..|steps| - 1]) && Enabled(Play(s, steps[..|steps| - 1]), steps[|steps| - 1]))
  }

  ghost function Play(s: State, steps: seq<Step>): State
    requires Legal(s, steps)
    decreases |steps|, 1
  {
    if steps == [] then s else After(Play(s, steps[..|steps| - 1]), steps[|steps| - 1])
  }

  /** Legality and outcome of a run continued by one step. */
  lemma Extend(s: State, steps: seq<Step>, st: Step)
    requires Legal(s, steps) && Enabled(Play(s, steps), st)
    ensures Legal(s, steps + [st]) && Play(s, steps + [st]) == After(Play(s, steps), st)
  {
    assert (steps + [st])[..|steps|] == steps;
  }

  // ---------------------------------------------------------------- phases

  /** A restart has closed the gate and not yet opened it again. */
  predicate RestartHolds(s: State) {
    s.handler.Braking? || s.handler.Finding? || s.handler.Restarting? || s.handler.Releasing?
  }

  /** The watcher has closed the gate for an outage and not yet opened it again. */
  predicate OutageHolds(s: State) {
    s.held && !s.watcher.Healing?
  }

  /** The event in the handler's hands, if any. */
  function InHand(h: Handler): seq<Event> {
    match h
    case Idle => []
    case Left => []
    case Acting(e) => [e]
    case Braking(e, _, _) => [e]
    case Finding(e) => [e]
    case Restarting(e, _) => [e]
    case Releasing(e) => [e]
  }

  function CountOf(es: seq<Event>, i: nat): nat {
    if es == [] then 0
    else CountOf(es[..|es| - 1], i) + if es[|es| - 1].check == i then 1 else 0
  }

  // ---------------------------------------------------------------- invariants

  /** How many deaths of a runner will never become an event. */
  function Lost(s: State, i: nat): int
    requires i < |s.runners|
  {
    s.runners[i].deaths - CountOf(s.sent, i) - Owed(s.runners[i])
  }

  ghost predicate RunnersOk(s: State) {
    forall i | 0 <= i < |s.runners| :: Accounted(s.runners[i]) && Paced(s.runners[i], s.now)
  }

  ghost predicate EventsOk(s: State) {
    && s.sent == s.handled + InHand(s.handler) + s.queue
    && |s.queue| <= |s.runners|
    && (forall e | e in s.sent :: e.check < |s.runners| && e.snap.Dead())
  }

  ghost predicate DebtOk(s: State, i: nat)
    requires i < |s.runners|
  {
    0 <= Lost(s, i) <= 1 && (Lost(s, i) == 1 ==> s.runners[i].pc == Stopped && s.cancelled)
  }

  ghost predicate DebtsOk(s: State) {
    forall i | 0 <= i < |s.runners| :: DebtOk(s, i)
  }

  ghost predicate Sound(s: State) {
    forall i | 0 <= i < |s.runners| :: s.runners[i].cfg.Sound()
  }

  function Gaps(s: State): (gs: seq<int>)
    requires Sound(s)
    ensures |gs| == |s.runners| && forall i | 0 <= i < |gs| :: gs[i] == s.runners[i].cfg.Spacing()
  {
    seq(|s.runners|, i requires 0 <= i < |s.runners| => s.runners[i].cfg.Spacing())
  }

  function Lasts(s: State): (ls: seq<int>)
    ensures |ls| == |s.runners| && forall i | 0 <= i < |ls| :: ls[i] == s.runners[i].lastRaised
  {
    seq(|s.runners|, i requires 0 <= i < |s.runners| => s.runners[i].lastRaised)
  }

  /** Events of one check are a gap apart, and none is newer than its last. */
  ghost predicate Spaced(es: seq<Event>, gaps: seq<int>, lasts: seq<int>)
    requires |gaps| == |lasts|
  {
    && (forall e | e in es :: e.check < |lasts| && e.at <= lasts[e.check])
    && (forall a, b | 0 <= a < b < |es| && es[a].check == es[b].check < |gaps| ::
          es[b].at >= es[a].at + gaps[es[a].check])
  }

  lemma SpacedSend(es: seq<Event>, gaps: seq<int>, lasts: seq<int>, e: Event)
    requires |gaps| == |lasts| && Spaced(es, gaps, lasts)
    requires e.check < |gaps| && e.at >= lasts[e.check] && e.at >= lasts[e.check] + gaps[e.check]
    ensures Spaced(es + [e], gaps, lasts[e.check := e.at])
  {
    assert forall a | 0 <= a < |es| :: es[a] in es;
  }

  ghost predicate SpacingOk(s: State)
    requires Sound(s)
  {
    Spaced(s.sent, Gaps(s), Lasts(s))
  }

  ghost predicate GateOk(s: State) {
    && Gates.WellFormed(s.gate)
    && (Gates.Paused(s.gate) ==> RestartHolds(s) || OutageHolds(s))
    && (s.held ==> !s.watcher.Off?)
    && (s.watcher.Healing? ==> s.held)
  }

  /** healAll has reached exactly the runners before `next`; between outages it has
      reached every runner once per outage. */
  ghost predicate HealsOk(s: State) {
    && (s.watcher.Healing? ==> s.watcher.next <= |s.runners|)
    && (forall i | 0 <= i < |s.runners| ::
          s.runners[i].heals + (if s.watcher.Healing? && s.watcher.next <= i then 1 else 0) == s.recoveries)
  }

  lemma HealsKept(s: State, st: Step)
    requires HealsOk(s) && Enabled(s, st)
    ensures HealsOk(After(s, st))
  {
    var t := After(s, st);
    if !st.HealNext? {
      assert forall i | 0 <= i < |s.runners| :: t.runners[i].heals == s.runners[i].heals;
    }
  }

  lemma MoveKept(s: State, i: nat, m: Move)
    requires RunnersOk(s) && Enabled(s, Run(i, m))
    ensures RunnersOk(After(s, Run(i, m)))
  {
    AccountedKept(s.runners[i], m, View(s));
    PacedKept(s.runners[i], m, View(s));
    var t := After(s, Run(i, m));
    assert t.now == s.now && t.runners == s.runners[i := t.runners[i]];
  }

  lemma AgedKept(r: Runner, now: int, later: int, points: nat)
    requires Accounted(r) && Paced(r, now) && now <= later
    ensures Accounted(r) && Paced(r, later)
    ensures Accounted(Healed(r, points)) && Paced(Healed(r, points), now)
  {
  }

  lemma RunnersKept(s: State, st: Step)
    requires RunnersOk(s) && Enabled(s, st)
    ensures RunnersOk(After(s, st))
  {
    var t := After(s, st);
    if st.Run? {
      MoveKept(s, st.i, st.move);
    } else {
      forall i | 0 <= i < |s.runners|
        ensures Accounted(t.runners[i]) && Paced(t.runners[i], t.now)
      {
        AgedKept(s.runners[i], s.now, t.now, Holders.HEAL_POINTS);
      }
    }
  }

  lemma CountOfAppend(es: seq<Event>, e: Event, i: nat)
    ensures CountOf(es + [e], i) == CountOf(es, i) + if e.check == i then 1 else 0
  {
    assert (es + [e])[..|es|] == es;
  }

  /** Everything sent and not yet handled, in order. */
  function Outstanding(s: State): seq<Event> { InHand(s.handler) + s.queue }

  lemma EventsFramed(s: State, t: State)
    requires EventsOk(s) && t.sent == s.sent && |t.runners| == |s.runners| && |t.queue| <= |s.queue|
    requires t.handled + Outstanding(t) == s.handled + Outstanding(s)
    ensures EventsOk(t)
  {
    assert s.handled + Outstanding(s) == s.handled + InHand(s.handler) + s.queue;
    assert t.handled + Outstanding(t) == t.handled + InHand(t.handler) + t.queue;
  }

  lemma SendKept(s: State, i: nat)
    requires EventsOk(s) && Enabled(s, Run(i, Send)) && Accounted(s.runners[i])
    ensures EventsOk(After(s, Run(i, Send)))
  {
  }

  lemma TakeKept(s: State)
    requires EventsOk(s) && Enabled(s, Take)
    ensures EventsOk(After(s, Take))
  {
    var t := After(s, Take);
    assert Outstanding(t) == Outstanding(s);
    EventsFramed(s, t);
  }

  /** Steps that may finish the event in hand. */
  lemma FinishKept(s: State, st: Step)
    requires EventsOk(s) && Enabled(s, st) && (st.Act? || st.Release?)
    ensures EventsOk(After(s, st))
  {
    var t := After(s, st);
    assert t.handled + InHand(t.handler) == s.handled + InHand(s.handler);
    assert t.handled + Outstanding(t) == t.handled + InHand(t.handler) + t.queue;
    assert s.handled + Outstanding(s) == s.handled + InHand(s.handler) + s.queue;
    EventsFramed(s, t);
  }

  /** All other steps leave the events where they are. */
  lemma OthersKept(s: State, st: Step)
    requires EventsOk(s) && Enabled(s, st) && !st.Take? && !st.Act? && !st.Release? && !(st.Run? && st.move.Send?)
    ensures EventsOk(After(s, st))
  {
    var t := After(s, st);
    assert t.queue == s.queue && t.sent == s.sent && t.handled == s.handled && InHand(t.handler) == InHand(s.handler);
    EventsFramed(s, t);
  }

  lemma EventsKept(s: State, st: Step)
    requires RunnersOk(s) && EventsOk(s) && Enabled(s, st)
    ensures EventsOk(After(s, st))
  {
    if st.Run? && st.move.Send? {
      SendKept(s, st.i);
    } else if st.Take? {
      TakeKept(s);
    } else if st.Act? || st.Release? {
      FinishKept(s, st);
    } else {
      OthersKept(s, st);
    }
  }

  lemma DebtKept(s: State, st: Step, i: nat)
    requires Enabled(s, st) && i < |s.runners| && DebtOk(s, i) && Accounted(s.runners[i])
    ensures DebtOk(After(s, st), i)
  {
    if st.Run? {
      if st.i == i {
        DebtMove(s.runners[i], st.move, View(s));
      }
      if st.move.Send? {
        CountOfAppend(s.sent, Event(st.i, s.runners[st.i].pc.snap, s.now), i);
      }
    }
  }

  lemma SendSpaced(s: State, i: nat)
    requires Enabled(s, Run(i, Send)) && Sound(s) && SpacingOk(s) && Paced(s.runners[i], s.now)
    requires Sound(After(s, Run(i, Send))) && Gaps(After(s, Run(i, Send))) == Gaps(s)
    ensures SpacingOk(After(s, Run(i, Send)))
  {
    var r := s.runners[i];
    SpacingNonNegative(r.cfg);
    SpacedSend(s.sent, Gaps(s), Lasts(s), Event(i, r.pc.snap, s.now));
    assert Lasts(After(s, Run(i, Send))) == Lasts(s)[i := s.now];
  }

  lemma ConfigsKept(s: State, st: Step)
    requires Enabled(s, st) && Sound(s)
    ensures Sound(After(s, st)) && Gaps(After(s, st)) == Gaps(s)
    ensures !(st.Run? && st.move.Send?) ==> Lasts(After(s, st)) == Lasts(s)
  {
    var t := After(s, st);
    assert forall i | 0 <= i < |s.runners| :: t.runners[i].cfg == s.runners[i].cfg;
    assert Gaps(t) == Gaps(s);
    if !(st.Run? && st.move.Send?) {
      assert Lasts(t) == Lasts(s);
    }
  }

  lemma SpacingKept(s: State, st: Step)
    requires Enabled(s, st) && RunnersOk(s) && Sound(s) && SpacingOk(s)
    ensures Sound(After(s, st)) && SpacingOk(After(s, st))
  {
    ConfigsKept(s, st);
    if st.Run? && st.move.Send? {
      SendSpaced(s, st.i);
    } else {
      assert After(s, st).sent == s.sent;
    }
  }

  predicate OfHandler(st: Step) {
    st.Take? || st.Leave? || st.Act? || st.Brake? || st.BrakeFails? || st.Find? || st.Replica? || st.Release?
  }

  lemma HandlerGateKept(s: State, st: Step)
    requires GateOk(s) && Enabled(s, st) && OfHandler(st)
    ensures GateOk(After(s, st))
  {
  }

  lemma GateKept(s: State, st: Step)
    requires GateOk(s) && Enabled(s, st)
    ensures GateOk(After(s, st))
  {
    if OfHandler(st) {
      HandlerGateKept(s, st);
    }
  }

  ghost predicate Inv(s: State) {
    RunnersOk(s) && EventsOk(s) && DebtsOk(s) && Sound(s) && SpacingOk(s) && GateOk(s) && HealsOk(s)
  }

  lemma InitInv(s: State)
    requires Init(s)
    ensures Inv(s)
  {
    forall i | 0 <= i < |s.runners|
      ensures Accounted(s.runners[i]) && Paced(s.runners[i], s.now) && Lost(s, i) == 0 && s.runners[i].heals == 0
    {
      assert s.runners[i] in s.runners;
    }
  }

  lemma InvKept(s: State, st: Step)
    requires Inv(s) && Enabled(s, st)
    ensures Inv(After(s, st)) && |After(s, st).runners| == |s.runners|
  {
    RunnersKept(s, st);
    EventsKept(s, st);
    forall i | 0 <= i < |s.runners|
      ensures DebtOk(After(s, st), i)
    {
      DebtKept(s, st, i);
    }
    SpacingKept(s, st);
    GateKept(s, st);
    HealsKept(s, st);
  }

  /** Every reachable state satisfies all invariants. */
  lemma {:induction false} Always(s: State, steps: seq<Step>)
    requires Inv(s) && Legal(s, steps)
    ensures Inv(Play(s, steps)) && |Play(s, steps).runners| == |s.runners|
  {
    if steps != [] {
      Always(s, steps[..|steps| - 1]);
      InvKept(Play(s, steps[..|steps| - 1]), steps[|steps| - 1]);
    }
  }
}
