/** The pause gate of internal/supervisor/gate.go. Each closing of the gate makes
    a new channel; opening it closes that channel, which releases every runner
    holding it. Channels are numbered by generation. */
module Gates {

  /** The gate as a value: the current generation, and the generations whose
      channel has been closed. */
  datatype View = View(gen: nat, closed: set<nat>)

  datatype Act = Pause | Resume

  const OPEN_GATE := View(0, {0})

  predicate Paused(v: View) { v.gen !in v.closed }

  function Apply(v: View, act: Act): View {
    match act
    case Pause => if Paused(v) then v else View(v.gen + 1, v.closed)
    case Resume => View(v.gen, v.closed + {v.gen})
  }

  function ApplyAll(v: View, acts: seq<Act>): View {
    if acts == [] then v else Apply(ApplyAll(v, acts[..|acts| - 1]), acts[|acts| - 1])
  }

  /** Every superseded generation is closed and no later one exists. */
  ghost predicate WellFormed(v: View) {
    && (forall k | 0 <= k < v.gen :: k in v.closed)
    && (forall k | k in v.closed :: 0 <= k <= v.gen)
  }

  class Channel {
    var closed: bool

    constructor ()
      ensures !closed
    {
      closed := false;
    }

    /** Closing a closed channel panics, so it is a precondition that it is not. */
    method Close()
      requires !closed
      modifies this
      ensures closed
    {
      closed := true;
    }
  }

  class Gate {
    var open: Channel
    ghost var channels: seq<Channel>

    ghost predicate Valid()
      reads this, channels
    {
      && |channels| > 0
      && open == channels[|channels| - 1]
      && (forall i, j | 0 <= i < j < |channels| :: channels[i] != channels[j])
      && (forall k | 0 <= k < |channels| - 1 :: channels[k].closed)
    }

    ghost function State(): View
      requires |channels| > 0
      reads this, channels
    {
      View(|channels| - 1, set k | 0 <= k < |channels| && channels[k].closed)
    }

    constructor ()
      ensures Valid() && State() == OPEN_GATE && fresh(channels)
    {
      var c := new Channel();
      c.Close();
      open := c;
      channels := [c];
    }

    method Pause()
      requires Valid()
      modifies this
      ensures Valid() && State() == Apply(old(State()), Act.Pause)
      ensures old(channels) <= channels && fresh(channels[|old(channels)|..])
      ensures open == old(open) || fresh(open)
    {
      if open.closed {
        open := new Channel();
        channels := channels + [open];
      }
    }

    method Resume()
      requires Valid()
      modifies open
      ensures Valid() && State() == Apply(old(State()), Act.Resume)
      ensures channels == old(channels)
    {
      ghost var before := State();
      if !open.closed {
        open.Close();
      }
      assert State().closed == before.closed + {before.gen};
    }

    method IsPaused() returns (paused: bool)
      requires Valid()
      ensures paused <==> Paused(State())
    {
      paused := !open.closed;
    }

    /** The locked half of Wait: the waiter keeps this channel whatever happens to
        the gate afterwards, and passes once it is closed. */
    method Capture() returns (c: Channel)
      requires Valid()
      ensures c == channels[State().gen]
      ensures c.closed <==> State().gen in State().closed
    {
      c := open;
    }
  }

  // ---------------------------------------------------------------- histories

  /** After any calls: generations are closed in order, and the gate is paused
      exactly when the last call was Pause. */
  lemma {:induction false} Generations(v: View, acts: seq<Act>)
    requires WellFormed(v)
    ensures WellFormed(ApplyAll(v, acts))
    ensures v.gen <= ApplyAll(v, acts).gen && v.closed <= ApplyAll(v, acts).closed
    ensures acts != [] ==> (Paused(ApplyAll(v, acts)) <==> acts[|acts| - 1] == Pause)
  {
    if acts != [] {
      Generations(v, acts[..|acts| - 1]);
    }
  }

  /** A waiter holding the channel that was current in v gets past it after these
      calls exactly when the gate was open at capture or some Resume came since: a
      Pause right after the Resume does not hold it back, and nothing but a Resume
      lets it go. */
  lemma {:induction false} WaiterPassesExactlyWhen(v: View, acts: seq<Act>)
    requires WellFormed(v)
    ensures v.gen in ApplyAll(v, acts).closed <==> !Paused(v) || Resume in acts
    ensures Paused(v) && Resume !in acts ==> ApplyAll(v, acts) == v
  {
    if acts != [] {
      var init, last := acts[..|acts| - 1], acts[|acts| - 1];
      assert acts == init + [last];
      Generations(v, init);
      WaiterPassesExactlyWhen(v, init);
    }
  }

  /** The generations closed by the calls, in order. */
  function Closures(v: View, acts: seq<Act>): seq<nat> {
    if acts == [] then []
    else
      var init := acts[..|acts| - 1];
      var before := ApplyAll(v, init);
      Closures(v, init) + (if acts[|acts| - 1] == Resume && Paused(before) then [before.gen] else [])
  }

  predicate Increasing(cs: seq<nat>) {
    forall i, j | 0 <= i < j < |cs| :: cs[i] < cs[j]
  }

  /** From v to u exactly the generations cs were closed, none of them before. */
  ghost predicate ClosedBetween(v: View, cs: seq<nat>, u: View) {
    && (forall k | k in cs :: k !in v.closed)
    && (forall k: nat :: k in u.closed <==> k in v.closed || k in cs)
  }

  lemma CloseOneMore(v: View, cs: seq<nat>, u: View)
    requires WellFormed(u) && Increasing(cs) && ClosedBetween(v, cs, u) && Paused(u)
    ensures Increasing(cs + [u.gen]) && ClosedBetween(v, cs + [u.gen], Apply(u, Resume))
  {
    forall i | 0 <= i < |cs|
      ensures cs[i] < u.gen
    {
      assert cs[i] in cs && cs[i] in u.closed;
    }
  }

  /** No channel is closed twice, and what is closed at the end is exactly what
      was closed at the start plus what the calls closed. */
  lemma {:induction false} ClosedOnce(v: View, acts: seq<Act>)
    requires WellFormed(v)
    ensures Increasing(Closures(v, acts)) && ClosedBetween(v, Closures(v, acts), ApplyAll(v, acts))
  {
    if acts != [] {
      var init := acts[..|acts| - 1];
      ClosedOnce(v, init);
      Generations(v, init);
      var before := ApplyAll(v, init);
      if acts[|acts| - 1] == Resume {
        if Paused(before) {
          CloseOneMore(v, Closures(v, init), before);
        } else {
          assert before.closed + {before.gen} == before.closed;
        }
      }
    }
  }
}
