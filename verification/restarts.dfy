/** Restarting containers (restart and restartOne of the supervisor) against a
    daemon that answers within a time limit, and restarts in its own time. */
module Restarts {
  import opened Checks

  const MIN_UPTIME := 360 * SECOND
  const PAUSE_BEFORE_RESTART := 10 * SECOND
  const SETTLE_AFTER_RESTART := 35 * SECOND
  const INIT_DB_DELAY := 60 * SECOND
  const PHP_FPM := "php-fpm-mailcow"

  /** The client gives up on a call after this long. */
  const CALL_TIMEOUT := 10 * SECOND

  type Call = d: int | 0 <= d <= CALL_TIMEOUT

  /** What Started reports; an absent or unreadable stamp reads as the zero time. */
  datatype Started = NotKnown | At(time: int)

  datatype Target = Target(id: string, started: Started)

  /** A restart the watchdog asked for: when its call was answered or given up, and
      when the container started again, which may be later. */
  datatype Done = Done(id: string, at: int, answered: int)

  datatype Outcome = Skipped | Delayed | Failed | Restarted

  /** How a sleep ends: in full, possibly late, or cut short by cancellation. */
  datatype Nap = Full(over: nat) | Cut(after: nat) {
    function Length(d: nat): nat {
      match this case Full(over) => d + over case Cut(after) => if after < d then after else d
    }
  }

  /** What becomes of a restart call: nothing, or the container starts again some
      time after the request, whatever the call is told. */
  datatype Impact = Nowhere | Lands(after: nat)

  /** What the world does while one container is dealt with: containers others
      restart meanwhile, how long the handler, each call and the notification take,
      and what the calls answer. */
  datatype Reply = Reply(others: seq<string>, lag: nat, busy: bool, think: Call,
                         impact: Impact, toAnswer: Call, ok: bool, notify: nat, nap: Nap)

  /** Find: whether it succeeds, and the time before and after the moment at which
      the daemon takes stock. */
  datatype Lookup = Lookup(found: bool, before: nat, after: nat)

  /** A restart event, and what the world does up to its end. */
  datatype Order = Order(idle: nat, others: seq<string>, service: string, brake: Nap,
                         docker: bool, lookup: Lookup, replies: nat -> Reply)

  // ---------------------------------------------------------------- the daemon

  /** The clock, the start times others caused, and the restarts asked for so far,
      landed or not. */
  datatype Situation = Situation(now: int, started: map<string, Started>, log: seq<Done>)

  function Pass(s: Situation, d: nat): Situation { s.(now := s.now + d) }

  function ByOthers(s: Situation, ids: seq<string>): Situation {
    if ids == [] then s
    else
      var t := ByOthers(s, ids[..|ids| - 1]);
      t.(started := t.started[ids[|ids| - 1] := At(s.now)])
  }

  function Newest(a: Started, time: int): Started {
    if a.At? && a.time >= time then a else At(time)
  }

  /** The newest start among `base` and the restarts that have landed. */
  function Landed(base: Started, log: seq<Done>, id: string, now: int): Started {
    if log == [] then base
    else
      var earlier, last := Landed(base, log[..|log| - 1], id, now), log[|log| - 1];
      if last.id == id && last.at <= now then Newest(earlier, last.at) else earlier
  }

  /** The start time the daemon reports. */
  function Reported(s: Situation, id: string): Started {
    Landed(if id in s.started then s.started[id] else NotKnown, s.log, id, s.now)
  }

  function Listing(s: Situation, ids: seq<string>): (ts: seq<Target>)
    ensures |ts| == |ids| && forall i | 0 <= i < |ids| :: ts[i] == Target(ids[i], Reported(s, ids[i]))
  {
    seq(|ids|, i requires 0 <= i < |ids| => Target(ids[i], Reported(s, ids[i])))
  }

  // ---------------------------------------------------------------- one event

  /** The rule alone: nothing for a young container, a delay for a migration. */
  function Verdict(service: string, started: Started, now: int, busy: bool): Outcome {
    if started.At? && now - started.time < MIN_UPTIME then Skipped
    else if service == PHP_FPM && busy then Delayed
    else Restarted
  }

  function OutcomeOf(service: string, target: Target, reply: Reply, now: int): Outcome {
    var v := Verdict(service, target.started, now + reply.lag, reply.busy);
    if v == Restarted && !reply.ok then Failed else v
  }

  /** When the restart is asked for: php-fpm's processes are looked at first. */
  function Asked(service: string, reply: Reply, now: int): int {
    now + reply.lag + if service == PHP_FPM then reply.think else 0
  }

  /** What one container adds to the restarts asked for. */
  function Effect(service: string, target: Target, reply: Reply, now: int): seq<Done> {
    var asked := Asked(service, reply, now);
    if Verdict(service, target.started, now + reply.lag, reply.busy) == Restarted && reply.impact.Lands?
    then [Done(target.id, asked + reply.impact.after, asked + reply.toAnswer)] else []
  }

  /** When the handler is done with it. */
  function Until(service: string, target: Target, reply: Reply, now: int): int {
    var asked := Asked(service, reply, now);
    match OutcomeOf(service, target, reply, now)
    case Skipped => now + reply.lag
    case Delayed => asked + reply.nap.Length(INIT_DB_DELAY)
    case Failed => asked + reply.toAnswer
    case Restarted => asked + reply.toAnswer + reply.notify + reply.nap.Length(SETTLE_AFTER_RESTART)
  }

  function One(s: Situation, service: string, target: Target, reply: Reply): Situation {
    Situation(Until(service, target, reply, s.now), ByOthers(s, reply.others).started,
              s.log + Effect(service, target, reply, s.now))
  }

  /** The first k containers of the listing, one after the other. */
  function Each(s: Situation, service: string, targets: seq<Target>, replies: nat -> Reply, k: nat): Situation
    requires k <= |targets|
  {
    if k == 0 then s else One(Each(s, service, targets, replies, k - 1), service, targets[k - 1], replies(k - 1))
  }

  function Outcomes(s: Situation, service: string, targets: seq<Target>, replies: nat -> Reply, k: nat)
    : (os: seq<Outcome>)
    requires k <= |targets|
    ensures |os| == k
  {
    if k == 0 then []
    else
      var now := Each(s, service, targets, replies, k - 1).now;
      Outcomes(s, service, targets, replies, k - 1) + [OutcomeOf(service, targets[k - 1], replies(k - 1), now)]
  }

  /** The sleep is over, there is a client, and the lookup finds something. */
  predicate GoesThrough(members: map<string, seq<string>>, o: Order) {
    o.brake.Full? && o.docker && o.lookup.found && o.service in members
  }

  /** The moment the daemon takes stock. */
  function Looking(s: Situation, o: Order): Situation {
    Pass(Pass(s, o.brake.Length(PAUSE_BEFORE_RESTART)), o.lookup.before)
  }

  function Targets(s: Situation, members: map<string, seq<string>>, o: Order): seq<Target> {
    if GoesThrough(members, o) then Listing(Looking(s, o), members[o.service]) else []
  }

  /** Where the loop over the containers begins. */
  function Found(s: Situation, o: Order): Situation {
    if o.brake.Full? && o.docker then Pass(Looking(s, o), o.lookup.after)
    else Pass(s, o.brake.Length(PAUSE_BEFORE_RESTART))
  }

  function Restart(s: Situation, members: map<string, seq<string>>, o: Order): Situation {
    var targets := Targets(s, members, o);
    Each(Found(s, o), o.service, targets, o.replies, |targets|)
  }

  function RestartOutcomes(s: Situation, members: map<string, seq<string>>, o: Order): seq<Outcome> {
    var targets := Targets(s, members, o);
    Outcomes(Found(s, o), o.service, targets, o.replies, |targets|)
  }

  /** Time passes and others act before an event comes in. */
  function Begin(s: Situation, o: Order): Situation { ByOthers(Pass(s, o.idle), o.others) }

  function HandleAll(s: Situation, members: map<string, seq<string>>, orders: seq<Order>): Situation {
    if orders == [] then s
    else
      var n := |orders| - 1;
      Restart(Begin(HandleAll(s, members, orders[..n]), orders[n]), members, orders[n])
  }

  // ---------------------------------------------------------------- the code

  class Host {
    var now: int
    var started: map<string, Started>
    var log: seq<Done>
    const members: map<string, seq<string>>

    function Now(): Situation
      reads this
    {
      Situation(now, started, log)
    }

    constructor (members: map<string, seq<string>>, s: Situation)
      ensures Now() == s && this.members == members
    {
      now, started, log, this.members := s.now, s.started, s.log, members;
    }

    method Wait(d: nat)
      modifies this`now
      ensures Now() == Pass(old(Now()), d)
    {
      now := now + d;
    }

    /** Other actors restart containers; the daemon stamps them as well. */
    method RestartedByOthers(ids: seq<string>)
      modifies this`started
      ensures Now() == ByOthers(old(Now()), ids)
    {
      for i := 0 to |ids|
        invariant Now() == ByOthers(old(Now()), ids[..i])
      {
        assert ids[..i + 1][..i] == ids[..i];
        started := started[ids[i] := At(now)];
      }
      assert ids[..|ids|] == ids;
    }

    /** The restart call: it returns with the answer or at the time limit. */
    method Call(id: string, reply: Reply) returns (ok: bool)
      modifies this`now, this`log
      ensures ok == reply.ok && now == old(now) + reply.toAnswer
      ensures log == old(log) + if reply.impact.Lands? then [Done(id, old(now) + reply.impact.after, now)] else []
    {
      var asked := now;
      Wait(reply.toAnswer);
      if reply.impact.Lands? {
        log := log + [Done(id, asked + reply.impact.after, now)];
      }
      ok := reply.ok;
    }

    /** restartOne. */
    method RestartOne(service: string, target: Target, reply: Reply) returns (outcome: Outcome)
      modifies this
      ensures Now() == One(old(Now()), service, target, reply)
      ensures outcome == OutcomeOf(service, target, reply, old(now))
    {
      RestartedByOthers(reply.others);
      OthersTouchNothingElse(old(Now()), reply.others);
      Wait(reply.lag);
      if target.started.At? && now - target.started.time < MIN_UPTIME {
        return Skipped;
      }
      if service == PHP_FPM {
        Wait(reply.think);
        if reply.busy {
          Wait(reply.nap.Length(INIT_DB_DELAY));
          return Delayed;
        }
      }
      var ok := Call(target.id, reply);
      if !ok {
        return Failed;
      }
      Wait(reply.notify);
      Wait(reply.nap.Length(SETTLE_AFTER_RESTART));
      return Restarted;
    }

    /** restart, after the gate is closed. */
    method RestartService(o: Order) returns (outcomes: seq<Outcome>)
      modifies this
      ensures Now() == Restart(old(Now()), members, o)
      ensures outcomes == RestartOutcomes(old(Now()), members, o)
    {
      outcomes := [];
      Wait(o.brake.Length(PAUSE_BEFORE_RESTART));
      if o.brake.Cut? || !o.docker {
        return;
      }
      Wait(o.lookup.before);
      var targets := if o.lookup.found && o.service in members then Listing(Now(), members[o.service]) else [];
      Wait(o.lookup.after);
      ghost var s := Now();
      for k := 0 to |targets|
        invariant Now() == Each(s, o.service, targets, o.replies, k)
        invariant outcomes == Outcomes(s, o.service, targets, o.replies, k)
      {
        var outcome := RestartOne(o.service, targets[k], o.replies(k));
        outcomes := outcomes + [outcome];
      }
    }

    /** The handler's loop over restart events, with time and other people's
        restarts in between. */
    method HandleEvents(orders: seq<Order>)
      modifies this
      ensures Now() == HandleAll(old(Now()), members, orders)
    {
      for i := 0 to |orders|
        invariant Now() == HandleAll(old(Now()), members, orders[..i])
      {
        assert orders[..i + 1][..i] == orders[..i];
        Wait(orders[i].idle);
        RestartedByOthers(orders[i].others);
        var _ := RestartService(orders[i]);
      }
      assert orders[..|orders|] == orders;
    }
  }

  lemma {:induction false} OthersTouchNothingElse(s: Situation, ids: seq<string>)
    ensures ByOthers(s, ids) == s.(started := ByOthers(s, ids).started)
  {
    if ids != [] {
      OthersTouchNothingElse(s, ids[..|ids| - 1]);
    }
  }

  // ---------------------------------------------------------------- the rule

  /** Its start is not known, or at least six minutes ago. */
  predicate OldEnough(started: Started, when: int) {
    started.At? ==> when - started.time >= 360 * SECOND
  }

  predicate Migrating(service: string, reply: Reply) { service == "php-fpm-mailcow" && reply.busy }

  /** What becomes of one container. A restart is asked for, and lands, exactly when
      its start is not known or long enough ago at that moment, php-fpm is not in
      the middle of a migration, and the call gets through; a young container is
      skipped, a migration waited for, and a failed call reported as such. */
  lemma TurnExactlyWhen(s: Situation, service: string, target: Target, reply: Reply)
    ensures var due, migrating := OldEnough(target.started, s.now + reply.lag), Migrating(service, reply);
            var t, outcome := One(s, service, target, reply), OutcomeOf(service, target, reply, s.now);
            && (if due && !migrating && reply.impact.Lands?
                then |t.log| == |s.log| + 1 && s.log <= t.log && t.log[|s.log|].id == target.id
                else t.log == s.log)
            && (outcome == Skipped <==> !due)
            && (outcome == Delayed <==> due && migrating)
            && (outcome == Failed <==> due && !migrating && !reply.ok)
            && (outcome == Restarted <==> due && !migrating && reply.ok)
            && (due && migrating && reply.nap.Full? ==> t.now >= s.now + 60 * SECOND)
            && (outcome == Restarted && reply.nap.Full? ==> t.now >= s.now + 35 * SECOND)
  {
  }

  /** A turn that may have asked for a restart. */
  predicate MayRestart(service: string, reply: Reply) {
    reply.impact.Lands? && !Migrating(service, reply)
  }

  lemma {:induction false} EachEntry(s: Situation, service: string, targets: seq<Target>, replies: nat -> Reply,
                                     k: nat, e: Done) returns (j: nat)
    requires k <= |targets| && e in Each(s, service, targets, replies, k).log && e !in s.log
    ensures j < k && targets[j].id == e.id && MayRestart(service, replies(j))
    ensures targets[j].started.At? ==> e.at >= targets[j].started.time + 360 * SECOND
  {
    var t := Each(s, service, targets, replies, k - 1);
    if e in t.log {
      j := EachEntry(s, service, targets, replies, k - 1, e);
    } else {
      j := k - 1;
      TurnExactlyWhen(t, service, targets[j], replies(j));
      EffectIsLate(service, targets[j], replies(j), t.now);
      assert e in Effect(service, targets[j], replies(j), t.now);
    }
  }

  /** Where every restart of a run comes from: the turn of that container in some
      event that went through; never a turn of php-fpm while it migrates. */
  lemma {:induction false} EveryRestartHasATurn(s: Situation, members: map<string, seq<string>>, orders: seq<Order>,
                                                e: Done) returns (i: nat, j: nat)
    requires e in HandleAll(s, members, orders).log && e !in s.log
    ensures i < |orders| && orders[i].brake.Full? && orders[i].docker && orders[i].lookup.found
    ensures orders[i].service in members && j < |members[orders[i].service]|
    ensures members[orders[i].service][j] == e.id && MayRestart(orders[i].service, orders[i].replies(j))
  {
    var n := |orders| - 1;
    var t := HandleAll(s, members, orders[..n]);
    if e in t.log {
      i, j := EveryRestartHasATurn(s, members, orders[..n], e);
    } else {
      OthersTouchNothingElse(Pass(t, orders[n].idle), orders[n].others);
      var u := Begin(t, orders[n]);
      var targets := Targets(u, members, orders[n]);
      i := n;
      j := EachEntry(Found(u, orders[n]), orders[n].service, targets, orders[n].replies, |targets|, e);
    }
  }

  /** And every matched container gets its turn, unless something fails first. */
  lemma EveryMatchHasItsTurn(s: Situation, members: map<string, seq<string>>, o: Order)
    ensures |RestartOutcomes(s, members, o)| ==
            if o.brake.Full? && o.docker && o.lookup.found && o.service in members then |members[o.service]| else 0
  {
  }

  // ---------------------------------------------------------------- hold time

  /** How long the outcomes keep the handler, at least. */
  function Held(outcomes: seq<Outcome>): nat {
    if outcomes == [] then 0
    else Held(outcomes[..|outcomes| - 1]) + Hold(outcomes[|outcomes| - 1])
  }

  function Hold(outcome: Outcome): nat {
    match outcome
    case Restarted => SETTLE_AFTER_RESTART
    case Delayed => INIT_DB_DELAY
    case Skipped => 0
    case Failed => 0
  }

  /** The sleeps are not cut short. */
  ghost predicate Unhurried(replies: nat -> Reply) { forall i: nat :: replies(i).nap.Full? }

  predicate Punctual(reply: Reply) { reply.nap == Full(0) && reply.lag == 0 && reply.notify == 0 }

  /** They end on time, and scheduling and notifications cost no time either. */
  ghost predicate OnTime(replies: nat -> Reply) { forall i: nat :: Punctual(replies(i)) }

  lemma TurnHolds(service: string, target: Target, reply: Reply, now: int)
    ensures reply.nap.Full? ==> Until(service, target, reply, now) >= now + Hold(OutcomeOf(service, target, reply, now))
    ensures Punctual(reply) ==>
              Until(service, target, reply, now) <= now + CALL_TIMEOUT + INIT_DB_DELAY
  {
  }

  lemma {:induction false} EachHolds(s: Situation, service: string, targets: seq<Target>, replies: nat -> Reply, k: nat)
    requires k <= |targets| && Unhurried(replies)
    ensures Each(s, service, targets, replies, k).now >= s.now + Held(Outcomes(s, service, targets, replies, k))
  {
    if k > 0 {
      EachHolds(s, service, targets, replies, k - 1);
      var now := Each(s, service, targets, replies, k - 1).now;
      TurnHolds(service, targets[k - 1], replies(k - 1), now);
      var earlier := Outcomes(s, service, targets, replies, k - 1);
      assert (earlier + [OutcomeOf(service, targets[k - 1], replies(k - 1), now)])[..k - 1] == earlier;
    }
  }

  lemma {:induction false} EachEnds(s: Situation, service: string, targets: seq<Target>, replies: nat -> Reply, k: nat)
    requires k <= |targets| && OnTime(replies)
    ensures Each(s, service, targets, replies, k).now <= s.now + k * (CALL_TIMEOUT + INIT_DB_DELAY)
  {
    if k > 0 {
      EachEnds(s, service, targets, replies, k - 1);
      OneMore(k - 1, CALL_TIMEOUT + INIT_DB_DELAY);
      TurnHolds(service, targets[k - 1], replies(k - 1), Each(s, service, targets, replies, k - 1).now);
    }
  }

  /** An uncancelled restart holds the handler, and with it the pause, for the ten
      seconds before it, and 35 for each container restarted and 60 for each
      migration waited for. If the sleeps end on time it holds it, notifications
      aside, no longer than ten seconds, the lookup, and seventy seconds for each
      container: no call keeps it waiting for the container to come back. */
  lemma HandlerIsHeld(s: Situation, members: map<string, seq<string>>, o: Order)
    requires o.brake.Full?
    ensures Unhurried(o.replies) ==>
              Restart(s, members, o).now >= s.now + PAUSE_BEFORE_RESTART + Held(RestartOutcomes(s, members, o))
    ensures o.brake == Full(0) && OnTime(o.replies) ==>
              Restart(s, members, o).now <= s.now + PAUSE_BEFORE_RESTART + o.lookup.before + o.lookup.after +
                                            |Targets(s, members, o)| * (CALL_TIMEOUT + INIT_DB_DELAY)
  {
    var targets := Targets(s, members, o);
    if Unhurried(o.replies) {
      EachHolds(Found(s, o), o.service, targets, o.replies, |targets|);
    }
    if OnTime(o.replies) {
      EachEnds(Found(s, o), o.service, targets, o.replies, |targets|);
    }
  }

  // ---------------------------------------------------------------- separation

  ghost predicate Separated(log: seq<Done>) {
    forall a, b | 0 <= a < b < |log| && log[a].id == log[b].id :: log[b].at >= log[a].at + MIN_UPTIME
  }

  predicate Distinct(ids: seq<string>) {
    forall i, j | 0 <= i < j < |ids| :: ids[i] != ids[j]
  }

  ghost predicate NamedOnce(members: map<string, seq<string>>) {
    forall s | s in members :: Distinct(members[s])
  }

  /** The listing shows every restart of its containers. */
  ghost predicate Informed(targets: seq<Target>, log: seq<Done>) {
    forall t, e | t in targets && e in log && e.id == t.id :: t.started.At? && e.at <= t.started.time
  }

  lemma {:induction false} LandedIsShown(base: Started, log: seq<Done>, id: string, now: int, e: Done)
    requires e in log && e.id == id && e.at <= now
    ensures Landed(base, log, id, now).At? && e.at <= Landed(base, log, id, now).time
  {
    var n := |log| - 1;
    assert e in log[..n] || e == log[n];
    if e in log[..n] {
      LandedIsShown(base, log[..n], id, now, e);
    }
  }

  /** Whatever was asked for a container has taken effect when it is next listed. */
  ghost predicate SettledAt(s: Situation, members: map<string, seq<string>>, o: Order) {
    GoesThrough(members, o) ==>
      forall e | e in s.log && e.id in members[o.service] :: e.at <= Looking(s, o).now
  }

  lemma SettledInforms(s: Situation, members: map<string, seq<string>>, o: Order)
    requires SettledAt(s, members, o)
    ensures Informed(Targets(s, members, o), s.log)
  {
    var u, targets := Looking(s, o), Targets(s, members, o);
    forall t, e | t in targets && e in s.log && e.id == t.id
      ensures t.started.At? && e.at <= t.started.time
    {
      LandedIsShown(if t.id in u.started then u.started[t.id] else NotKnown, u.log, t.id, u.now, e);
    }
  }

  /** What the turn of one container adds comes a minimum uptime after its listed
      start. */
  lemma EffectIsLate(service: string, target: Target, reply: Reply, now: int)
    ensures forall e | e in Effect(service, target, reply, now) ::
              && e.id == target.id && (target.started.At? ==> e.at >= target.started.time + MIN_UPTIME)
              && now <= e.answered <= Until(service, target, reply, now)
    ensures now <= Until(service, target, reply, now)
  {
  }

  lemma AppendSeparated(log: seq<Done>, news: seq<Done>)
    requires Separated(log) && |news| <= 1
    requires forall e, d | e in news && d in log && d.id == e.id :: e.at >= d.at + MIN_UPTIME
    ensures Separated(log + news)
  {
    forall a, b | 0 <= a < b < |log + news| && (log + news)[a].id == (log + news)[b].id
      ensures (log + news)[b].at >= (log + news)[a].at + MIN_UPTIME
    {
      if b == |log| {
        assert log[a] in log && (log + news)[b] in news;
      }
    }
  }

  predicate ListedOnce(targets: seq<Target>) {
    forall i, j | 0 <= i < j < |targets| :: targets[i].id != targets[j].id
  }

  /** What the loop has asked for concerns only containers it has dealt with. */
  lemma {:induction false} EachGrows(s: Situation, service: string, targets: seq<Target>, replies: nat -> Reply, k: nat)
    requires k <= |targets| && ListedOnce(targets)
    ensures var u := Each(s, service, targets, replies, k);
            forall j, e | k <= j < |targets| && e in u.log && e.id == targets[j].id :: e in s.log
  {
    if k > 0 {
      EachGrows(s, service, targets, replies, k - 1);
      EffectIsLate(service, targets[k - 1], replies(k - 1), Each(s, service, targets, replies, k - 1).now);
    }
  }

  lemma TurnSeparated(s: Situation, service: string, target: Target, reply: Reply)
    requires Separated(s.log) && Informed([target], s.log)
    ensures Separated(One(s, service, target, reply).log)
  {
    assert target in [target];
    EffectIsLate(service, target, reply, s.now);
    AppendSeparated(s.log, Effect(service, target, reply, s.now));
  }

  lemma {:induction false} EachSeparated(s: Situation, service: string, targets: seq<Target>, replies: nat -> Reply,
                                         k: nat)
    requires k <= |targets| && ListedOnce(targets)
    requires Separated(s.log) && Informed(targets, s.log)
    ensures Separated(Each(s, service, targets, replies, k).log)
  {
    if k > 0 {
      EachSeparated(s, service, targets, replies, k - 1);
      EachGrows(s, service, targets, replies, k - 1);
      assert targets[k - 1] in targets;
      TurnSeparated(Each(s, service, targets, replies, k - 1), service, targets[k - 1], replies(k - 1));
    }
  }

  /** One event keeps restarts apart if all that was asked for its containers has
      taken effect by the time it looks. */
  lemma RestartSeparated(s: Situation, members: map<string, seq<string>>, o: Order)
    requires NamedOnce(members) && Separated(s.log) && SettledAt(s, members, o)
    ensures Separated(Restart(s, members, o).log)
  {
    var targets := Targets(s, members, o);
    SettledInforms(s, members, o);
    EachSeparated(Found(s, o), o.service, targets, o.replies, |targets|);
  }

  /** Every event finds what was asked before settled. */
  ghost predicate AlwaysSettled(s: Situation, members: map<string, seq<string>>, orders: seq<Order>) {
    orders == [] ||
    var n := |orders| - 1;
    && AlwaysSettled(s, members, orders[..n])
    && SettledAt(Begin(HandleAll(s, members, orders[..n]), orders[n]), members, orders[n])
  }

  /** Over any sequence of events, with others restarting containers in between:
      two restarts of one container are at least the minimum uptime apart, if each
      has taken effect by the time the container is next listed. */
  lemma {:induction false} RunSeparated(s: Situation, members: map<string, seq<string>>, orders: seq<Order>)
    requires NamedOnce(members) && Separated(s.log) && AlwaysSettled(s, members, orders)
    ensures Separated(HandleAll(s, members, orders).log)
  {
    if orders != [] {
      var n := |orders| - 1;
      RunSeparated(s, members, orders[..n]);
      var t := HandleAll(s, members, orders[..n]);
      OthersTouchNothingElse(Pass(t, orders[n].idle), orders[n].others);
      RestartSeparated(Begin(t, orders[n]), members, orders[n]);
    }
  }

  // ---------------------------------------------------------------- how soon is soon enough

  /** All of these took effect no later than `delay` after their answer. */
  ghost predicate LandsWithin(log: seq<Done>, delay: int) {
    forall e | e in log :: e.at <= e.answered + delay
  }

  ghost predicate Answered(s: Situation) {
    forall e | e in s.log :: e.answered <= s.now
  }

  lemma {:induction false} EachAnswered(s: Situation, service: string, targets: seq<Target>, replies: nat -> Reply,
                                        k: nat)
    requires k <= |targets| && Answered(s)
    ensures var u := Each(s, service, targets, replies, k); Answered(u) && s.log <= u.log && s.now <= u.now
  {
    if k > 0 {
      EachAnswered(s, service, targets, replies, k - 1);
      EffectIsLate(service, targets[k - 1], replies(k - 1), Each(s, service, targets, replies, k - 1).now);
    }
  }

  lemma RestartAnswered(s: Situation, members: map<string, seq<string>>, o: Order)
    requires Answered(s)
    ensures Answered(Begin(s, o)) && Begin(s, o).log == s.log
    ensures Answered(Restart(Begin(s, o), members, o)) && s.log <= Restart(Begin(s, o), members, o).log
  {
    OthersTouchNothingElse(Pass(s, o.idle), o.others);
    var t := Begin(s, o);
    var targets := Targets(t, members, o);
    EachAnswered(Found(t, o), o.service, targets, o.replies, |targets|);
  }

  /** Ten seconds of pause come before every listing, so a restart that lands that
      soon after its answer is always seen. */
  lemma {:induction false} SoonIsSettled(s: Situation, members: map<string, seq<string>>, orders: seq<Order>)
    requires Answered(s) && LandsWithin(HandleAll(s, members, orders).log, PAUSE_BEFORE_RESTART)
    ensures AlwaysSettled(s, members, orders) && Answered(HandleAll(s, members, orders))
  {
    if orders != [] {
      var n := |orders| - 1;
      AllAnswered(s, members, orders[..n]);
      var t := HandleAll(s, members, orders[..n]);
      RestartAnswered(t, members, orders[n]);
      assert forall e | e in t.log :: e in HandleAll(s, members, orders).log;
      SoonIsSettled(s, members, orders[..n]);
    }
  }

  lemma {:induction false} AllAnswered(s: Situation, members: map<string, seq<string>>, orders: seq<Order>)
    requires Answered(s)
    ensures Answered(HandleAll(s, members, orders))
  {
    if orders != [] {
      AllAnswered(s, members, orders[..|orders| - 1]);
      RestartAnswered(HandleAll(s, members, orders[..|orders| - 1]), members, orders[|orders| - 1]);
    }
  }

  /** No run in which restarts land that soon after their answer, or after the
      client gave up on it, restarts a container too soon. */
  ghost predicate Suffices(delay: int) {
    forall s: Situation, members: map<string, seq<string>>, orders: seq<Order> |
      && s.log == [] && NamedOnce(members)
      && LandsWithin(HandleAll(s, members, orders).log, delay) ::
      Separated(HandleAll(s, members, orders).log)
  }

  /** How late a restart may take effect: at most ten seconds after its call has
      been answered or given up. If it may take longer by however little, some run
      restarts a container twice within its minimum uptime. */
  lemma SeparationExactlyWhen(delay: int)
    requires delay >= 0
    ensures Suffices(delay) <==> delay <= PAUSE_BEFORE_RESTART
  {
    if delay <= PAUSE_BEFORE_RESTART {
      forall s: Situation, members: map<string, seq<string>>, orders: seq<Order> |
        && s.log == [] && NamedOnce(members)
        && LandsWithin(HandleAll(s, members, orders).log, delay)
        ensures Separated(HandleAll(s, members, orders).log)
      {
        SoonIsSettled(s, members, orders);
        RunSeparated(s, members, orders);
      }
    } else {
      LateIsTooLate("nginx-mailcow", "nginx", delay);
    }
  }

  /** An event of this service while the daemon is slow: the call takes `toAnswer`
      and fails, the container is back `late` after that, and the next event comes
      at once. */
  function Slow(service: string, late: nat, toAnswer: Call): Order {
    Order(0, [], service, Full(0), true, Lookup(true, 0, 0),
          _ => Reply([], 0, false, 0, Lands(toAnswer + late), toAnswer, false, 0, Full(0)))
  }

  lemma HandleFirst(s: Situation, members: map<string, seq<string>>, o: Order)
    ensures HandleAll(s, members, [o]) == Restart(Begin(s, o), members, o)
  {
    assert [o][..0] == [] && HandleAll(s, members, []) == s;
  }

  lemma HandleTwo(s: Situation, members: map<string, seq<string>>, o: Order, p: Order)
    ensures HandleAll(s, members, [o, p]) == HandleAll(HandleAll(s, members, [o]), members, [p])
  {
    assert [o, p][..1] == [o];
    HandleFirst(HandleAll(s, members, [o]), members, p);
  }

  /** It restarts a container that still shows an old start. */
  lemma OneSlow(s: Situation, members: map<string, seq<string>>, service: string, id: string, start: int,
                late: nat, toAnswer: Call)
    requires service in members && members[service] == [id]
    requires Reported(Looking(s, Slow(service, late, toAnswer)), id) == At(start)
    requires s.now + PAUSE_BEFORE_RESTART >= start + MIN_UPTIME
    ensures var answered := s.now + PAUSE_BEFORE_RESTART + toAnswer;
            Restart(s, members, Slow(service, late, toAnswer)) ==
            Situation(answered, s.started, s.log + [Done(id, answered + late, answered)])
  {
    var o := Slow(service, late, toAnswer);
    var targets := Targets(s, members, o);
    assert targets == [Target(id, At(start))];
    assert Each(Found(s, o), service, targets, o.replies, 0) == Found(s, o);
  }

  /** The daemon shows the old start for as long as the restart is to come. */
  lemma StillOld(s: Situation, id: string, start: int)
    requires id in s.started && s.started[id] == At(start)
    requires s.log == [] || (|s.log| == 1 && s.log[0].at > s.now)
    ensures Reported(s, id) == At(start)
  {
    if s.log != [] {
      assert s.log[..0] == [] && Landed(At(start), s.log[..0], id, s.now) == At(start);
    }
  }

  lemma SlowTurn(s: Situation, members: map<string, seq<string>>, service: string, id: string, start: int,
                 late: nat, toAnswer: Call) returns (t: Situation)
    requires service in members && members[service] == [id] && id in s.started && s.started[id] == At(start)
    requires s.now + PAUSE_BEFORE_RESTART >= start + MIN_UPTIME
    requires s.log == [] || (|s.log| == 1 && s.log[0].at > s.now + PAUSE_BEFORE_RESTART)
    ensures t == HandleAll(s, members, [Slow(service, late, toAnswer)])
    ensures t.now == s.now + PAUSE_BEFORE_RESTART + toAnswer && t.started == s.started
    ensures t.log == s.log + [Done(id, t.now + late, t.now)]
  {
    StillOld(Looking(s, Slow(service, late, toAnswer)), id, start);
    OneSlow(s, members, service, id, start, late, toAnswer);
    HandleFirst(s, members, Slow(service, late, toAnswer));
    t := Restart(s, members, Slow(service, late, toAnswer));
    assert Begin(s, Slow(service, late, toAnswer)) == s;
  }

  /** Whenever a restart lands more than the pause after its failed call, the next
      event can miss it: it is restarted again, for any service and any container,
      and the two starts are less than a minimum uptime apart. */
  lemma RestartedTwice(s: Situation, members: map<string, seq<string>>, service: string, id: string, start: int,
                       late: nat, toAnswer: Call) returns (log: seq<Done>)
    requires service in members && members[service] == [id] && id in s.started && s.started[id] == At(start)
    requires s.log == [] && s.now + PAUSE_BEFORE_RESTART >= start + MIN_UPTIME && late > PAUSE_BEFORE_RESTART
    ensures log == HandleAll(s, members, [Slow(service, late, toAnswer), Slow(service, late, toAnswer)]).log
    ensures |log| == 2 && log[0].id == log[1].id == id
    ensures log[0].answered == s.now + PAUSE_BEFORE_RESTART + toAnswer
    ensures log[1].answered == log[0].answered + PAUSE_BEFORE_RESTART + toAnswer
    ensures log[0].at == log[0].answered + late && log[1].at == log[1].answered + late
  {
    var t := SlowTurn(s, members, service, id, start, late, toAnswer);
    var u := SlowTurn(t, members, service, id, start, late, toAnswer);
    log := u.log;
    HandleTwo(s, members, Slow(service, late, toAnswer), Slow(service, late, toAnswer));
  }

  lemma TooCloseTogether(log: seq<Done>)
    requires |log| == 2 && log[0].id == log[1].id && log[1].at < log[0].at + MIN_UPTIME
    ensures !Separated(log)
  {
  }

  lemma LateIsTooLate(service: string, id: string, delay: nat)
    requires delay > PAUSE_BEFORE_RESTART
    ensures !Suffices(delay)
  {
    var members, s := map[service := [id]], Situation(MIN_UPTIME, map[id := At(0)], []);
    var log := RestartedTwice(s, members, service, id, 0, delay, 0);
    TooCloseTogether(log);
    assert LandsWithin(log, delay) && NamedOnce(members);
  }

  /** A container last restarted at `last`, and listed like this at `when`, is not
      restarted within the minimum uptime of that, whenever its turn comes and
      whatever the calls do. */
  ghost predicate NeverTooSoon(service: string, target: Target, last: int, when: int) {
    forall reply, now | now >= when && Effect(service, target, reply, now) != [] ::
      Effect(service, target, reply, now)[0].at >= last + MIN_UPTIME
  }

  /** A daemon that reports what has landed. */
  predicate Honest(target: Target, last: int, when: int) {
    last <= when ==> target.started.At? && target.started.time >= last
  }

  /** One listing decides: the next restart keeps its distance for all its timings
      exactly when the last one asked for has taken effect by the listing, or the
      listing shows a start at least as late. */
  lemma SeparatesExactlyWhen(service: string, target: Target, last: int, when: int)
    requires Honest(target, last, when)
    ensures NeverTooSoon(service, target, last, when) <==>
            last <= when || (target.started.At? && target.started.time >= last)
  {
    StampDecides(service, target, last, when);
  }

  /** Without a word on the daemon, it is the stamp, or the time since. */
  lemma StampDecides(service: string, target: Target, last: int, when: int)
    ensures NeverTooSoon(service, target, last, when) <==>
            (target.started.At? && target.started.time >= last) || when >= last + MIN_UPTIME
  {
    if when < last + MIN_UPTIME && (target.started.NotKnown? || target.started.time < last) {
      var expiry := if target.started.At? then target.started.time + MIN_UPTIME else when;
      var now := if expiry < when then when else expiry;
      var reply := Reply([], 0, false, 0, Lands(0), 0, true, 0, Full(0));
      assert Effect(service, target, reply, now) == [Done(target.id, now, now)];
    }
  }

  // ---------------------------------------------------------------- rate

  function RestartsOf(log: seq<Done>, id: string): seq<Done> {
    if log == [] then []
    else RestartsOf(log[..|log| - 1], id) + if log[|log| - 1].id == id then [log[|log| - 1]] else []
  }

  lemma {:induction false} RestartsAreLogged(log: seq<Done>, id: string)
    ensures forall e | e in RestartsOf(log, id) :: e in log && e.id == id
  {
    if log != [] {
      RestartsAreLogged(log[..|log| - 1], id);
    }
  }

  lemma OneMore(n: int, d: int)
    ensures (n + 1) * d == n * d + d
  {
  }

  lemma After(log: seq<Done>, before: Done)
    requires log != [] && Separated(log) && before in log[..|log| - 1] && before.id == log[|log| - 1].id
    ensures log[|log| - 1].at >= before.at + MIN_UPTIME
  {
    var k :| 0 <= k < |log| - 1 && log[k] == before;
  }

  /** A container whose restarts are separated is never restarted faster than once
      per minimum uptime: n of its restarts take at least n - 1 times that long,
      however often its checks die. */
  lemma {:induction false} RestartRate(log: seq<Done>, id: string)
    requires Separated(log)
    ensures var es := RestartsOf(log, id);
            es != [] ==> es[|es| - 1].at - es[0].at >= (|es| - 1) * MIN_UPTIME
  {
    if log != [] {
      var init := log[..|log| - 1];
      RestartRate(init, id);
      var es := RestartsOf(init, id);
      if log[|log| - 1].id == id && es != [] {
        OneMore(|es| - 1, MIN_UPTIME);
        RestartsAreLogged(init, id);
        After(log, es[|es| - 1]);
      }
    }
  }
}
