/** What the steps of a run add up to: which of them make up a restart and an
    outage, in what order and how far apart, told by the steps themselves. */
module Handling {
  import opened Health
  import opened Runners
  import opened Protocol
  import opened Wrappers
  import Checks

  /** The last step of a run made of two parts. */
  lemma Cut(x: seq<Step>, y: seq<Step>)
    requires y != []
    ensures (x + y)[..|x + y| - 1] == x + y[..|y| - 1] && (x + y)[|x + y| - 1] == y[|y| - 1]
  {
  }

  lemma {:induction false} LegalStart(s: State, x: seq<Step>, y: seq<Step>)
    requires Legal(s, x + y)
    ensures Legal(s, x)
  {
    if y == [] {
      assert x + y == x;
    } else {
      Cut(x, y);
      LegalStart(s, x, y[..|y| - 1]);
    }
  }

  // ---------------------------------------------------------------- restarts

  /** The containers dealt with in these steps. */
  function Turns(steps: seq<Step>): nat {
    if steps == [] then 0 else Turns(steps[..|steps| - 1]) + if steps[|steps| - 1].Replica? then 1 else 0
  }

  predicate NoRelease(steps: seq<Step>) {
    forall k | 0 <= k < |steps| :: !steps[k].Release?
  }

  ghost predicate HeldFor(s: State, steps: seq<Step>, e: Event) {
    Legal(s, steps) && RestartHolds(Play(s, steps)) && InHand(Play(s, steps).handler) == [e]
  }

  /** How the handler stands with an event whose lookup has matched so many, after
      so many turns. */
  predicate Dealing(h: Handler, e: Event, matched: nat, turns: nat) {
    turns <= matched && h == if turns == matched then Releasing(e) else Restarting(e, matched - turns)
  }

  lemma DealingKept(t: State, st: Step, e: Event, matched: nat, turns: nat)
    requires Enabled(t, st) && Dealing(t.handler, e, matched, turns) && !st.Release?
    ensures Dealing(After(t, st).handler, e, matched, if st.Replica? then turns + 1 else turns)
  {
  }

  lemma {:induction false} DealingAfter(s: State, before: seq<Step>, matched: nat, since: seq<Step>) returns (e: Event)
    requires Legal(s, before + [Find(matched)] + since) && NoRelease(since)
    ensures Legal(s, before) && Play(s, before).handler == Finding(e)
    ensures Dealing(Play(s, before + [Find(matched)] + since).handler, e, matched, Turns(since))
  {
    var found := before + [Find(matched)];
    if since == [] {
      assert found + since == found && found[..|before|] == before;
      e := Play(s, before).handler.event;
    } else {
      var init, st := since[..|since| - 1], since[|since| - 1];
      Cut(found, since);
      e := DealingAfter(s, before, matched, init);
      DealingKept(Play(s, found + init), st, e, matched, Turns(init));
    }
  }

  lemma DealingMeans(t: State, e: Event, matched: nat, turns: nat)
    requires Dealing(t.handler, e, matched, turns)
    ensures RestartHolds(t) && InHand(t.handler) == [e]
    ensures (Enabled(t, Release) <==> turns == matched) && (Enabled(t, Replica) <==> turns < matched)
  {
  }

  lemma HeldSoFar(s: State, before: seq<Step>, matched: nat, since: seq<Step>, n: nat, e: Event)
    requires Legal(s, before + [Find(matched)] + since) && NoRelease(since) && n <= |since|
    requires Legal(s, before) && Play(s, before).handler == Finding(e)
    ensures HeldFor(s, before + [Find(matched)] + since[..n], e)
  {
    var found := before + [Find(matched)];
    assert found + since == (found + since[..n]) + since[n..];
    LegalStart(s, found + since[..n], since[n..]);
    var e' := DealingAfter(s, before, matched, since[..n]);
    DealingMeans(Play(s, found + since[..n]), e', matched, Turns(since[..n]));
  }

  /** Between a lookup that matched m containers and the end of that restart lie
      exactly m turns, one for each; all the while the restart holds the gate, and
      the event in hand is the same. */
  lemma EveryMatchGetsItsTurn(s: State, before: seq<Step>, matched: nat, since: seq<Step>) returns (e: Event)
    requires Legal(s, before + [Find(matched)] + since) && NoRelease(since)
    ensures var t := Play(s, before + [Find(matched)] + since);
            && (Enabled(t, Release) <==> Turns(since) == matched)
            && (Enabled(t, Replica) <==> Turns(since) < matched)
    ensures Turns(since) <= matched && HeldFor(s, before, e)
    ensures forall n | 0 <= n <= |since| :: HeldFor(s, before + [Find(matched)] + since[..n], e)
  {
    e := DealingAfter(s, before, matched, since);
    DealingMeans(Play(s, before + [Find(matched)] + since), e, matched, Turns(since));
    forall n | 0 <= n <= |since|
      ensures HeldFor(s, before + [Find(matched)] + since[..n], e)
    {
      HeldSoFar(s, before, matched, since, n, e);
    }
  }

  // ---------------------------------------------------------------- sleeps

  /** The handler's pause before a restart, and the watcher's between two looks, end
      in full at any later time exactly when that long has passed; begun after a
      cancellation they never do. */
  lemma BrakeEndsExactlyWhen(s: State, t: State)
    requires Enabled(s, Act) && After(s, Act).handler.Braking? && t.handler == After(s, Act).handler
    ensures Enabled(t, Brake) <==> !s.cancelled && t.now >= s.now + 10 * Checks.SECOND
  {
  }

  lemma PollEndsExactlyWhen(s: State, st: Step, t: State)
    requires Enabled(s, st) && (st.Reach? || st.HealNext?)
    requires After(s, st).watcher.Dozing? && t.watcher == After(s, st).watcher
    ensures Enabled(t, Poll) <==> !s.cancelled && t.now >= s.now + 3 * Checks.SECOND
  {
  }

  predicate NeitherActNorRelease(steps: seq<Step>) {
    forall k | 0 <= k < |steps| :: !steps[k].Act? && !steps[k].Release?
  }

  /** What is known of the handler since it acted on an event at time `since`: it
      brakes until ten seconds later, and looks no earlier. */
  predicate Sober(t: State, since: int) {
    && (t.handler.Braking? ==> t.handler.until == since + 10 * Checks.SECOND)
    && (t.handler.Finding? ==> t.now >= since + 10 * Checks.SECOND)
  }

  lemma SoberKept(t: State, st: Step, since: int)
    requires Enabled(t, st) && Sober(t, since) && !st.Act?
    ensures Sober(After(t, st), since)
  {
  }

  /** The checks have been paused for ten seconds before anything is looked up. */
  lemma {:induction false} PauseComesFirst(s: State, before: seq<Step>, since: seq<Step>)
    requires Legal(s, before + [Act] + since) && NeitherActNorRelease(since)
    ensures Legal(s, before) && Sober(Play(s, before + [Act] + since), Play(s, before).now)
    ensures forall matched :: Enabled(Play(s, before + [Act] + since), Find(matched)) ==>
              Play(s, before + [Act] + since).now >= Play(s, before).now + 10 * Checks.SECOND
  {
    var acted := before + [Act];
    if since == [] {
      assert acted + since == acted && acted[..|before|] == before;
    } else {
      var init := since[..|since| - 1];
      Cut(acted, since);
      PauseComesFirst(s, before, init);
      SoberKept(Play(s, acted + init), since[|since| - 1], Play(s, before).now);
    }
  }

  /** Before the context is cancelled no restart ends without a lookup. */
  lemma {:induction false} NoRestartIsSkipped(s: State, before: seq<Step>, since: seq<Step>)
    requires Legal(s, before + [Act] + since) && NeitherActNorRelease(since)
    requires !Play(s, before + [Act] + since).cancelled
    ensures var t := Play(s, before + [Act] + since);
            Enabled(t, Release) || Enabled(t, Replica) ==> exists st :: st in since && st.Find?
  {
    var acted := before + [Act];
    if since == [] {
      assert acted + since == acted && acted[..|before|] == before;
    } else {
      var init, st := since[..|since| - 1], since[|since| - 1];
      Cut(acted, since);
      assert st in since && forall x | x in init :: x in since;
      NoRestartIsSkipped(s, before, init);
    }
  }

  // ---------------------------------------------------------------- who holds the gate

  /** What the watcher saw last, as long as it goes on. */
  function LastSeen(steps: seq<Step>): Option<bool> {
    if steps == [] then None
    else
      match steps[|steps| - 1]
      case Reach(reachable) => Some(reachable)
      case PollFails => None
      case _ => LastSeen(steps[..|steps| - 1])
  }

  lemma OutageKept(t: State, st: Step, seen: Option<bool>)
    requires Enabled(t, st) && GateOk(t)
    requires OutageHolds(t) <==> seen == Some(false)
    requires t.watcher.Healing? ==> seen == Some(true)
    ensures var u, seen' := After(t, st), LastSeen([st]);
            var now := if st.Reach? || st.PollFails? then seen' else seen;
            (OutageHolds(u) <==> now == Some(false)) && (u.watcher.Healing? ==> now == Some(true))
  {
    assert [st][..0] == [];
  }

  /** An unreachable dockerapi is what an outage is: one holds the gate exactly while
      the watcher's last look failed to reach it. */
  lemma {:induction false} OutageExactlyWhen(s: State, steps: seq<Step>)
    requires Init(s) && Legal(s, steps)
    ensures OutageHolds(Play(s, steps)) <==> LastSeen(steps) == Some(false)
    ensures Play(s, steps).watcher.Healing? ==> LastSeen(steps) == Some(true)
  {
    if steps != [] {
      var n := |steps| - 1;
      OutageExactlyWhen(s, steps[..n]);
      InitInv(s);
      Always(s, steps[..n]);
      OutageKept(Play(s, steps[..n]), steps[n], LastSeen(steps[..n]));
    }
  }

  /** Whether the last event acted on restarts its container and is not done with. */
  ghost predicate RestartBegun(s: State, steps: seq<Step>)
    requires Legal(s, steps)
  {
    steps != [] &&
    var t, st := Play(s, steps[..|steps| - 1]), steps[|steps| - 1];
    if st.Act? then t.runners[t.handler.event.check].cfg.restarts
    else !st.Release? && RestartBegun(s, steps[..|steps| - 1])
  }

  /** A restart holds the gate from acting on an event of a check that restarts its
      container to the release that ends it, and no event of another check does. */
  lemma {:induction false} RestartExactlyWhen(s: State, steps: seq<Step>)
    requires Init(s) && Legal(s, steps)
    ensures RestartHolds(Play(s, steps)) <==> RestartBegun(s, steps)
  {
    if steps != [] {
      RestartExactlyWhen(s, steps[..|steps| - 1]);
      RestartStep(Play(s, steps[..|steps| - 1]), steps[|steps| - 1]);
    }
  }

  lemma RestartStep(t: State, st: Step)
    requires Enabled(t, st)
    ensures RestartHolds(After(t, st)) <==>
            if st.Act? then t.runners[t.handler.event.check].cfg.restarts else !st.Release? && RestartHolds(t)
  {
  }

  // ---------------------------------------------------------------- histories

  function Entered(steps: seq<Step>, i: nat): nat {
    if steps == [] then 0
    else Entered(steps[..|steps| - 1], i) + if steps[|steps| - 1] == Run(i, Enter) then 1 else 0
  }

  function Raised(steps: seq<Step>, i: nat): nat {
    if steps == [] then 0
    else Raised(steps[..|steps| - 1], i) + if steps[|steps| - 1] == Run(i, Send) then 1 else 0
  }

  function Charged(steps: seq<Step>, i: nat): nat {
    if steps == [] then 0
    else
      var st := steps[|steps| - 1];
      Charged(steps[..|steps| - 1], i) + if st.Run? && st.i == i && st.move.Judge? then st.move.weight else 0
  }

  /** Outages ended, and points handed back to check i. */
  ghost function Ended(s: State, steps: seq<Step>): nat
    requires Legal(s, steps)
  {
    if steps == [] then 0
    else
      var t, st := Play(s, steps[..|steps| - 1]), steps[|steps| - 1];
      Ended(s, steps[..|steps| - 1]) + if st == Reach(true) && OutageHolds(t) then 1 else 0
  }

  ghost function HandedBack(s: State, steps: seq<Step>, i: nat): nat
    requires Legal(s, steps)
  {
    if steps == [] then 0
    else
      var t, st := Play(s, steps[..|steps| - 1]), steps[|steps| - 1];
      HandedBack(s, steps[..|steps| - 1], i) + if st == HealNext && t.watcher == Healing(i) then 1 else 0
  }

  ghost predicate RunnerTrue(t: State, i: nat, entered: nat, charged: nat, raised: nat) {
    && i < |t.runners| && t.runners[i].rounds == entered && t.runners[i].spent == charged
    && CountOf(t.sent, i) == raised
  }

  predicate HealsTrue(t: State, i: nat, ended: nat, handedBack: nat) {
    i < |t.runners| && t.recoveries == ended && t.runners[i].heals == handedBack
  }

  lemma RunnerTrueKept(t: State, st: Step, i: nat, entered: nat, charged: nat, raised: nat)
    requires RunnerTrue(t, i, entered, charged, raised) && Enabled(t, st)
    ensures RunnerTrue(After(t, st), i,
                       entered + (if st == Run(i, Enter) then 1 else 0),
                       charged + (if st.Run? && st.i == i && st.move.Judge? then st.move.weight else 0),
                       raised + (if st == Run(i, Send) then 1 else 0))
  {
    if st.Run? && st.move.Send? {
      CountOfAppend(t.sent, Event(st.i, t.runners[st.i].pc.snap, t.now), i);
    } else {
      assert After(t, st).sent == t.sent;
    }
  }

  lemma HealsTrueKept(t: State, st: Step, i: nat, ended: nat, handedBack: nat)
    requires HealsTrue(t, i, ended, handedBack) && Enabled(t, st)
    ensures HealsTrue(After(t, st), i,
                      ended + (if st == Reach(true) && OutageHolds(t) then 1 else 0),
                      handedBack + (if st == HealNext && t.watcher == Healing(i) then 1 else 0))
  {
  }

  /** The numbers the other results speak of are what they are called: rounds
      entered, weight recorded, events raised, outages ended and points handed back
      in this very run. */
  lemma {:induction false} HistoriesAreTrue(s: State, steps: seq<Step>, i: nat)
    requires Init(s) && Legal(s, steps) && i < |s.runners|
    ensures RunnerTrue(Play(s, steps), i, Entered(steps, i), Charged(steps, i), Raised(steps, i))
    ensures HealsTrue(Play(s, steps), i, Ended(s, steps), HandedBack(s, steps, i))
  {
    if steps == [] {
      assert s.runners[i] in s.runners;
    } else {
      var init, st := steps[..|steps| - 1], steps[|steps| - 1];
      HistoriesAreTrue(s, init, i);
      RunnerTrueKept(Play(s, init), st, i, Entered(init, i), Charged(init, i), Raised(init, i));
      HealsTrueKept(Play(s, init), st, i, Ended(s, init), HandedBack(s, init, i));
    }
  }

  /** And a point handed back is repaid: two from what the check owes, if it owes more
      than one, and nobody else is touched. */
  lemma HealNextRepays(t: State)
    requires Enabled(t, HealNext) && t.watcher.next < |t.runners|
    ensures var k := t.watcher.next;
            var before, u := t.runners[k].count, After(t, HealNext);
            && |u.runners| == |t.runners| && u.runners[k].pc == t.runners[k].pc
            && u.runners[k].count == (if before > 2 then before - 2 else if before == 2 then 0 else before)
            && forall j | 0 <= j < |t.runners| && j != k :: u.runners[j] == t.runners[j]
  {
  }
}
