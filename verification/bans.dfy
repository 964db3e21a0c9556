/** Ban notices from end to end: the fail2ban probe (internal/probe/redis.go), the
    budget it is charged to, and handleBans of the supervisor. */
module Bans {
  import opened Health

  // ---------------------------------------------------------------- order

  predicate AtMost(a: string, b: string) {
    a == "" || (b != "" && (a[0] < b[0] || (a[0] == b[0] && AtMost(a[1..], b[1..]))))
  }

  lemma {:induction false} AtMostTotal(a: string, b: string)
    ensures AtMost(a, b) || AtMost(b, a)
  {
    if a != "" && b != "" && a[0] == b[0] {
      AtMostTotal(a[1..], b[1..]);
    }
  }

  lemma {:induction false} AtMostTransitive(a: string, b: string, c: string)
    requires AtMost(a, b) && AtMost(b, c)
    ensures AtMost(a, c)
  {
    if a != "" && a[0] == b[0] && b[0] == c[0] {
      AtMostTransitive(a[1..], b[1..], c[1..]);
    }
  }

  /** The order is the usual one: a text comes before what it is the beginning of,
      and otherwise the first difference decides. */
  lemma {:induction false} AtMostExactlyWhen(a: string, b: string)
    ensures AtMost(a, b) <==> a <= b || exists k :: FirstDifference(a, b, k) && a[k] < b[k]
  {
    if a != "" && b != "" && a[0] == b[0] {
      AtMostExactlyWhen(a[1..], b[1..]);
      DifferenceNext(a, b);
    } else if a != "" && b != "" {
      assert FirstDifference(a, b, 0);
      assert forall k | FirstDifference(a, b, k) :: k == 0;
    }
  }

  predicate FirstDifference(a: string, b: string, k: int) {
    0 <= k < |a| && k < |b| && a[..k] == b[..k] && a[k] != b[k]
  }

  lemma DifferenceNext(a: string, b: string)
    requires a != "" && b != "" && a[0] == b[0]
    ensures (a <= b <==> a[1..] <= b[1..])
    ensures (exists k :: FirstDifference(a, b, k) && a[k] < b[k]) <==>
            (exists k :: FirstDifference(a[1..], b[1..], k) && a[1..][k] < b[1..][k])
  {
    assert a == [a[0]] + a[1..] && b == [b[0]] + b[1..];
    if k :| FirstDifference(a, b, k) && a[k] < b[k] {
      assert a[1..][..k - 1] == a[1..k] && b[1..][..k - 1] == b[1..k];
      assert FirstDifference(a[1..], b[1..], k - 1);
    }
    if k :| FirstDifference(a[1..], b[1..], k) && a[1..][k] < b[1..][k] {
      assert a[..k + 1] == [a[0]] + a[1..][..k] && b[..k + 1] == [b[0]] + b[1..][..k];
      assert FirstDifference(a, b, k + 1);
    }
  }

  ghost predicate Sorted(s: seq<string>) {
    forall i, j | 0 <= i < j < |s| :: AtMost(s[i], s[j])
  }

  function Insert(x: string, s: seq<string>): (r: seq<string>)
    requires Sorted(s)
    ensures Sorted(r) && multiset(r) == multiset(s) + multiset{x}
  {
    if s == [] then [x]
    else if AtMost(x, s[0]) then
      assert forall j | 0 <= j < |s| :: AtMost(x, s[j]) by {
        forall j | 0 < j < |s| { AtMostTransitive(x, s[0], s[j]); }
      }
      assert [x] + s == [x] + s[..];
      [x] + s
    else
      var rest := Insert(x, s[1..]);
      assert s == [s[0]] + s[1..];
      assert AtMost(s[0], x) by { AtMostTotal(x, s[0]); }
      assert forall y | y in rest :: AtMost(s[0], y) by {
        forall y | y in rest
          ensures AtMost(s[0], y)
        {
          assert y in multiset(rest);
          assert y == x || y in s[1..];
        }
      }
      assert forall j | 0 <= j < |rest| :: rest[j] in rest;
      [s[0]] + rest
  }

  function Sort(s: seq<string>): (r: seq<string>)
    ensures Sorted(r) && multiset(r) == multiset(s)
  {
    if s == [] then []
    else
      assert s == s[..|s| - 1] + [s[|s| - 1]];
      Insert(s[|s| - 1], Sort(s[..|s| - 1]))
  }

  // ---------------------------------------------------------------- the probe

  /** A read of the ban hash: its field names, or an error. */
  datatype Reply = Fields(bans: seq<string>) | ReadError

  datatype Memory = Memory(seeded: bool, known: set<string>, latest: seq<string>)

  const UNSEEDED := Memory(false, {}, [])

  function Added(m: Memory, bans: seq<string>): seq<string> {
    if bans == [] then []
    else
      var last := bans[|bans| - 1];
      Added(m, bans[..|bans| - 1]) + if m.seeded && last !in m.known then [last] else []
  }

  function Elements(s: seq<string>): set<string> { set x | x in s }

  function Read(m: Memory, reply: Reply): Memory {
    match reply
    case ReadError => m
    case Fields(bans) => Memory(true, Elements(bans), Sort(Added(m, bans)))
  }

  /** Whether the round fails: UNKNOWN when the hash cannot be read, CRITICAL when
      there are new bans. Either costs the single point of the wrapper. */
  predicate Fails(m: Memory, reply: Reply) {
    reply.ReadError? || Added(m, reply.bans) != []
  }

  class Fail2ban {
    var seeded: bool
    var known: set<string>
    var latest: seq<string>

    function State(): Memory
      reads this
    {
      Memory(seeded, known, latest)
    }

    constructor ()
      ensures State() == UNSEEDED
    {
      seeded, known, latest := false, {}, [];
    }

    method Run(reply: Reply) returns (failed: bool)
      modifies this
      ensures State() == Read(old(State()), reply)
      ensures failed <==> Fails(old(State()), reply)
    {
      if reply.ReadError? {
        return true;
      }
      var current: set<string>, added: seq<string> := {}, [];
      var bans := reply.bans;
      for i := 0 to |bans|
        invariant current == Elements(bans[..i])
        invariant added == Added(State(), bans[..i])
      {
        assert bans[..i + 1][..i] == bans[..i];
        current := current + {bans[i]};
        if bans[i] !in known && seeded {
          added := added + [bans[i]];
        }
      }
      assert bans[..|bans|] == bans;
      failed := seeded && added != [];
      assert added != [] ==> seeded by { UnseededAddsNothing(State(), bans); }
      SameLength(added);
      known, latest := current, Sort(added);
      seeded := true;
    }

    method Fresh() returns (bans: seq<string>)
      ensures bans == State().latest
    {
      bans := latest;
    }
  }

  lemma {:induction false} UnseededAddsNothing(m: Memory, bans: seq<string>)
    ensures !m.seeded ==> Added(m, bans) == []
  {
    if bans != [] {
      UnseededAddsNothing(m, bans[..|bans| - 1]);
    }
  }

  lemma SameLength(s: seq<string>)
    ensures |Sort(s)| == |s|
  {
    assert |multiset(Sort(s))| == |multiset(s)|;
  }

  // ---------------------------------------------------------------- the path

  /** Probe, error count, events waiting for the handler, addresses notified. */
  datatype Path = Path(memory: Memory, count: nat, waiting: nat, notices: seq<string>)

  const START := Path(UNSEEDED, 0, 0, [])

  /** A round of the check, its budget and the event it may raise. */
  function Round(p: Path, threshold: int, reply: Reply): Path {
    var count := RecordCount(p.count, if Fails(p.memory, reply) then 1 else 0);
    var dead := count >= Budget(threshold);
    Path(Read(p.memory, reply), if dead then 0 else count, p.waiting + (if dead then 1 else 0), p.notices)
  }

  /** handleBans reads the addresses when the event is handled. */
  function Handle(p: Path): Path
    requires p.waiting > 0
  {
    p.(waiting := p.waiting - 1, notices := p.notices + p.memory.latest)
  }

  /** Every event handled before the check's next round. */
  function Prompt(threshold: int, replies: seq<Reply>): Path {
    if replies == [] then START
    else
      var p := Round(Prompt(threshold, replies[..|replies| - 1]), threshold, replies[|replies| - 1]);
      if p.waiting > 0 then Handle(p) else p
  }

  /** The reads that succeeded. */
  function Reads(replies: seq<Reply>): seq<seq<string>> {
    if replies == [] then []
    else
      var earlier, last := Reads(replies[..|replies| - 1]), replies[|replies| - 1];
      if last.ReadError? then earlier else earlier + [last.bans]
  }

  /** How often an address appeared in a read without being in the one before. */
  function Edges(rounds: seq<seq<string>>, a: string): nat {
    if |rounds| <= 1 then 0
    else
      var n := |rounds| - 1;
      Edges(rounds[..n], a) + if a in rounds[n] && a !in rounds[n - 1] then 1 else 0
  }

  predicate Distinct(s: seq<string>) {
    forall i, j | 0 <= i < j < |s| :: s[i] != s[j]
  }

  /** A hash has each field once. */
  ghost predicate Hashes(replies: seq<Reply>) {
    forall k | 0 <= k < |replies| && replies[k].Fields? :: Distinct(replies[k].bans)
  }

  predicate NoErrors(replies: seq<Reply>) {
    forall k | 0 <= k < |replies| :: replies[k].Fields?
  }

  lemma {:induction false} AddedOnce(m: Memory, bans: seq<string>, a: string)
    requires Distinct(bans)
    ensures multiset(Added(m, bans))[a] == if m.seeded && a in bans && a !in m.known then 1 else 0
  {
    if bans != [] {
      var n := |bans| - 1;
      AddedOnce(m, bans[..n], a);
      assert bans == bans[..n] + [bans[n]];
    }
  }

  /** What the probe remembers of the reads so far. */
  lemma {:induction false} Remembers(threshold: int, replies: seq<Reply>)
    ensures var m := Prompt(threshold, replies).memory;
            var rounds := Reads(replies);
            && m.seeded == (rounds != [])
            && m.known == (if rounds == [] then {} else Elements(rounds[|rounds| - 1]))
  {
    if replies != [] {
      Remembers(threshold, replies[..|replies| - 1]);
    }
  }

  /** The notices due: those of the successful rounds, sorted within each. */
  function Due(replies: seq<Reply>): seq<string> {
    if replies == [] then []
    else
      var n := |replies| - 1;
      Due(replies[..n]) +
        (if replies[n].ReadError? then [] else Sort(Added(Prompt(1, replies[..n]).memory, replies[n].bans)))
  }

  /** The latest of these reads has no address that the read before it lacked. */
  predicate Settled(rounds: seq<seq<string>>) {
    var n := |rounds| - 1;
    n <= 0 || forall a | a in rounds[n] :: a in rounds[n - 1]
  }

  /** No read fails while the last good one has new bans. */
  predicate ErrorsComeSettled(replies: seq<Reply>) {
    forall n | 0 <= n < |replies| && replies[n].ReadError? :: Settled(Reads(replies[..n]))
  }

  lemma {:induction false} AddsNothingExactlyWhen(m: Memory, bans: seq<string>)
    ensures Added(m, bans) == [] <==> !m.seeded || forall a | a in bans :: a in m.known
  {
    if bans != [] {
      AddsNothingExactlyWhen(m, bans[..|bans| - 1]);
      assert bans == bans[..|bans| - 1] + [bans[|bans| - 1]];
    }
  }

  /** What handleBans would find, and when that is nothing. */
  lemma {:induction false} LatestExactlyWhen(replies: seq<Reply>)
    ensures Prompt(1, replies).memory.latest == [] <==> Settled(Reads(replies))
  {
    if replies != [] {
      var n := |replies| - 1;
      LatestExactlyWhen(replies[..n]);
      if replies[n].Fields? {
        var m := Prompt(1, replies[..n]).memory;
        Remembers(1, replies[..n]);
        AddsNothingExactlyWhen(m, replies[n].bans);
        SameLength(Added(m, replies[n].bans));
      }
    }
  }

  lemma ErrorsNext(replies: seq<Reply>)
    requires replies != []
    ensures var n := |replies| - 1;
            ErrorsComeSettled(replies) <==>
            ErrorsComeSettled(replies[..n]) && (replies[n].ReadError? ==> Settled(Reads(replies[..n])))
  {
    assert forall k | 0 <= k < |replies| - 1 :: replies[..|replies| - 1][..k] == replies[..k];
  }

  lemma {:induction false} PromptNotices(replies: seq<Reply>)
    ensures Prompt(1, replies).count == 0 && Prompt(1, replies).waiting == 0
    ensures |Prompt(1, replies).notices| >= |Due(replies)|
    ensures if ErrorsComeSettled(replies) then Prompt(1, replies).notices == Due(replies)
            else |Prompt(1, replies).notices| > |Due(replies)|
  {
    if replies != [] {
      var n := |replies| - 1;
      PromptNotices(replies[..n]);
      ErrorsNext(replies);
      LatestExactlyWhen(replies[..n]);
      if replies[n].Fields? {
        SameLength(Added(Prompt(1, replies[..n]).memory, replies[n].bans));
      }
    }
  }

  /** With the default threshold of one and prompt handling, the notices sent are
      exactly those due, in order, if and only if no read fails right after a round
      with new bans; otherwise the failed round repeats them. */
  lemma {:induction false} NoticesAreDueExactlyWhen(replies: seq<Reply>)
    ensures Prompt(1, replies).notices == Due(replies) <==> ErrorsComeSettled(replies)
  {
    PromptNotices(replies);
  }

  /** Each address is due once per appearance after the first successful read, and
      never for disappearing. */
  lemma {:induction false} DueOncePerEdge(replies: seq<Reply>, a: string)
    requires Hashes(replies)
    ensures multiset(Due(replies))[a] == Edges(Reads(replies), a)
  {
    if replies != [] {
      var n := |replies| - 1;
      DueOncePerEdge(replies[..n], a);
      if replies[n].Fields? {
        DueNext(replies, a);
      }
    }
  }

  lemma DueNext(replies: seq<Reply>, a: string)
    requires replies != [] && replies[|replies| - 1].Fields? && Distinct(replies[|replies| - 1].bans)
    ensures var n := |replies| - 1;
            multiset(Due(replies))[a] - multiset(Due(replies[..n]))[a] ==
            Edges(Reads(replies), a) - Edges(Reads(replies[..n]), a)
  {
    var n := |replies| - 1;
    var init, bans := replies[..n], replies[n].bans;
    var m := Prompt(1, init).memory;
    Remembers(1, init);
    AddedOnce(m, bans, a);
    assert Due(replies) == Due(init) + Sort(Added(m, bans));
    EdgesNext(Reads(init), bans, a);
  }

  lemma EdgesNext(rounds: seq<seq<string>>, bans: seq<string>, a: string)
    ensures Edges(rounds + [bans], a) - Edges(rounds, a) ==
            if rounds != [] && a in bans && a !in rounds[|rounds| - 1] then 1 else 0
  {
    assert (rounds + [bans])[..|rounds|] == rounds;
  }

  /** Together: without read errors every address gets exactly one notice per
      absent-to-present edge after the seeding read. */
  lemma OneNoticePerBan(replies: seq<Reply>, a: string)
    requires Hashes(replies) && NoErrors(replies)
    ensures multiset(Prompt(1, replies).notices)[a] == Edges(Reads(replies), a)
  {
    PromptNotices(replies);
    DueOncePerEdge(replies, a);
  }

  // ---------------------------------------------------------------- schedules

  /** The handler takes up to `events` of the waiting events. */
  function Serve(p: Path, events: nat): Path
    decreases events
  {
    if events == 0 || p.waiting == 0 then p else Serve(Handle(p), events - 1)
  }

  /** Each event it takes is handled by itself, and tells of the same addresses. */
  lemma {:induction false} ServesEach(p: Path, events: nat)
    requires events <= p.waiting
    ensures var q := Serve(p, events);
            && q.waiting == p.waiting - events && q.memory == p.memory && q.count == p.count
            && p.notices <= q.notices && |q.notices| == |p.notices| + events * |p.memory.latest|
            && (events > 0 ==> q.notices[|q.notices| - |p.memory.latest|..] == p.memory.latest)
    decreases events
  {
    if events > 0 {
      var h := Handle(p);
      ServesEach(h, events - 1);
      assert (events - 1) * |p.memory.latest| + |p.memory.latest| == events * |p.memory.latest|;
      if events == 1 {
        assert Serve(h, 0) == h;
      }
    }
  }

  /** Any threshold and any handler: `served[n]` events at most are taken between
      round n and the next. */
  function Scheduled(threshold: int, replies: seq<Reply>, served: seq<nat>): Path
    requires |served| == |replies|
  {
    if replies == [] then START
    else
      var n := |replies| - 1;
      Serve(Round(Scheduled(threshold, replies[..n], served[..n]), threshold, replies[n]), served[n])
  }

  lemma ScheduledNext(threshold: int, replies: seq<Reply>, served: seq<nat>, reply: Reply, events: nat)
    requires |served| == |replies|
    ensures Scheduled(threshold, replies + [reply], served + [events]) ==
            Serve(Round(Scheduled(threshold, replies, served), threshold, reply), events)
  {
    assert (replies + [reply])[..|replies|] == replies && (served + [events])[..|served|] == served;
  }

  lemma FailingRound(threshold: int, p: Path)
    ensures var q := Serve(Round(p, threshold, ReadError), 0);
            && q.memory == p.memory
            && (if p.count + 1 >= Budget(threshold) then q.count == 0 && q.waiting == p.waiting + 1
                else q.count == p.count + 1 && q.waiting == p.waiting)
  {
  }

  lemma CountOn(n: nat, b: nat)
    requires b >= 1
    ensures if n % b + 1 >= b then (n + 1) / b == n / b + 1 && (n + 1) % b == 0
            else (n + 1) / b == n / b && (n + 1) % b == n % b + 1
  {
    var q, r := n / b, n % b;
    assert n + 1 == q * b + (r + 1);
    if r + 1 >= b {
      assert n + 1 == (q + 1) * b + 0;
      DivUnique(n + 1, b, q + 1, 0);
    } else {
      DivUnique(n + 1, b, q, r + 1);
    }
  }

  function Failing(rounds: nat): (replies: seq<Reply>)
    ensures |replies| == rounds
  {
    if rounds == 0 then [] else Failing(rounds - 1) + [ReadError]
  }

  function NobodyServes(rounds: nat): (served: seq<nat>)
    ensures |served| == rounds
  {
    if rounds == 0 then [] else NobodyServes(rounds - 1) + [0]
  }

  /** When events are raised, for every threshold: of failing rounds in a row, each
      time as many as the threshold have come together; nobody taking any, all of
      them wait. */
  lemma {:induction false} FailuresRaise(threshold: int, rounds: nat)
    ensures var p := Scheduled(threshold, Failing(rounds), NobodyServes(rounds));
            && p.waiting == rounds / Budget(threshold) && p.count == rounds % Budget(threshold)
            && p.memory == UNSEEDED && p.notices == []
  {
    if rounds > 0 {
      var n := rounds - 1;
      FailuresRaise(threshold, n);
      ScheduledNext(threshold, Failing(n), NobodyServes(n), ReadError, 0);
      FailingRound(threshold, Scheduled(threshold, Failing(n), NobodyServes(n)));
      CountOn(n, Budget(threshold));
    } else {
      CountOn(0, Budget(threshold));
    }
  }

  /** An event is always taken before the next round; the seeding round raises none. */
  predicate InTime(served: seq<nat>) {
    forall n | 1 <= n < |served| :: served[n] >= 1
  }

  ghost predicate OneNoticeEach(threshold: int, replies: seq<Reply>, served: seq<nat>)
    requires |served| == |replies|
  {
    forall a :: multiset(Scheduled(threshold, replies, served).notices)[a] == Edges(Reads(replies), a)
  }

  /** Whatever is banned and expires, every ban gets its one notice. */
  ghost predicate AlwaysOneNotice(threshold: int, served: seq<nat>) {
    forall replies | |replies| == |served| && Hashes(replies) && NoErrors(replies) ::
      OneNoticeEach(threshold, replies, served)
  }

  lemma ServeOne(p: Path, events: nat)
    requires p.waiting <= 1 && (p.waiting == 1 ==> events >= 1)
    ensures Serve(p, events) == if p.waiting > 0 then Handle(p) else p
  {
  }

  /** One round on such a schedule is one round with prompt handling. */
  lemma InTimeRound(threshold: int, p: Path, reply: Reply, events: nat)
    requires Budget(threshold) == 1 && p.count == 0 && p.waiting == 0 && reply.Fields?
    requires p.memory.seeded ==> events >= 1
    ensures var q := Round(p, 1, reply);
            Serve(Round(p, threshold, reply), events) == if q.waiting > 0 then Handle(q) else q
  {
    UnseededAddsNothing(p.memory, reply.bans);
    ServeOne(Round(p, threshold, reply), events);
  }

  lemma {:induction false} InTimeIsPrompt(threshold: int, replies: seq<Reply>, served: seq<nat>)
    requires |served| == |replies| && NoErrors(replies)
    requires Budget(threshold) == 1 && InTime(served)
    ensures Scheduled(threshold, replies, served) == Prompt(1, replies)
  {
    if replies != [] {
      var n := |replies| - 1;
      var p := Prompt(1, replies[..n]);
      InTimeIsPrompt(threshold, replies[..n], served[..n]);
      assert p.count == 0 && p.waiting == 0 by { PromptNotices(replies[..n]); }
      assert p.memory.seeded ==> n >= 1;
      InTimeRound(threshold, p, replies[n], served[n]);
    }
  }

  /** Serving tells nobody anything if nothing waits or nothing is remembered. */
  lemma {:induction false} ServeSilently(p: Path, events: nat)
    requires events == 0 || p.waiting == 0 || p.memory.latest == []
    ensures var q := Serve(p, events);
            && q == p.(waiting := q.waiting)
            && q.waiting <= p.waiting && (events == 0 ==> q == p)
    decreases events
  {
    if events > 0 && p.waiting > 0 {
      ServeSilently(Handle(p), events - 1);
    }
  }

  /** One address that is banned in round n and stays banned. */
  function BannedFrom(x: string, n: nat, rounds: nat): (replies: seq<Reply>)
    ensures |replies| == rounds
    ensures forall k | 0 <= k < rounds :: replies[k] == Fields(if k < n then [] else [x])
  {
    seq(rounds, k => Fields(if k < n then [] else [x]))
  }

  lemma {:induction false} AllRead(replies: seq<Reply>)
    requires NoErrors(replies)
    ensures |Reads(replies)| == |replies|
    ensures forall k | 0 <= k < |replies| :: Reads(replies)[k] == replies[k].bans
  {
    if replies != [] {
      AllRead(replies[..|replies| - 1]);
    }
  }

  lemma {:induction false} RisesOnce(x: string, rounds: seq<seq<string>>, n: nat)
    requires n >= 1 && forall k | 0 <= k < |rounds| :: rounds[k] == if k < n then [] else [x]
    ensures Edges(rounds, x) == if |rounds| > n then 1 else 0
  {
    if rounds != [] {
      RisesOnce(x, rounds[..|rounds| - 1], n);
    }
  }

  /** What the probe remembers of such a run. */
  function MemoryOf(x: string, n: nat, rounds: nat): Memory {
    if rounds == 0 then UNSEEDED
    else Memory(true, if rounds <= n then {} else {x}, if rounds == n + 1 then [x] else [])
  }

  lemma SortOne(x: string)
    ensures Sort([x]) == [x]
  {
    assert [x][..0] == [] && Sort([]) == [];
  }

  lemma BannedRound(x: string, n: nat, rounds: nat)
    requires n >= 1
    ensures var m, reply := MemoryOf(x, n, rounds), Fields(if rounds < n then [] else [x]);
            Read(m, reply) == MemoryOf(x, n, rounds + 1) && (Fails(m, reply) <==> rounds == n)
  {
    var m := MemoryOf(x, n, rounds);
    assert Elements([]) == {} && Elements([x]) == {x};
    assert Sort([x]) == [x] by { SortOne(x); }
    assert [x][..0] == [] && (rounds >= n ==> Added(m, [x]) == if rounds == n then [x] else []);
  }

  /** The state of the path then: nothing noticed, and nothing that could be. */
  predicate Unnoticed(x: string, threshold: int, n: nat, rounds: nat, p: Path) {
    && p.notices == [] && p.memory == MemoryOf(x, n, rounds)
    && p.count == (if Budget(threshold) > 1 && rounds == n + 1 then 1 else 0)
    && (Budget(threshold) > 1 || rounds <= n ==> p.waiting == 0)
  }

  lemma UnnoticedRound(x: string, threshold: int, n: nat, rounds: nat, p: Path, events: nat)
    requires n >= 1 && Unnoticed(x, threshold, n, rounds, p)
    requires Budget(threshold) > 1 || rounds != n || events == 0
    ensures Unnoticed(x, threshold, n, rounds + 1,
                      Serve(Round(p, threshold, Fields(if rounds < n then [] else [x])), events))
  {
    BannedRound(x, n, rounds);
    ServeSilently(Round(p, threshold, Fields(if rounds < n then [] else [x])), events);
  }

  lemma BannedNext(x: string, n: nat, rounds: nat)
    ensures BannedFrom(x, n, rounds + 1) == BannedFrom(x, n, rounds) + [Fields(if rounds < n then [] else [x])]
  {
  }

  /** If round n raises no event, or its event is not taken before the next round,
      the ban of that round is never noticed. */
  lemma {:induction false} NeverNoticed(x: string, threshold: int, served: seq<nat>, n: nat)
    requires 1 <= n && (Budget(threshold) > 1 || (n < |served| ==> served[n] == 0))
    ensures Unnoticed(x, threshold, n, |served|, Scheduled(threshold, BannedFrom(x, n, |served|), served))
  {
    if served == [] {
      assert BannedFrom(x, n, 0) == [];
    } else {
      var k := |served| - 1;
      var replies, reply := BannedFrom(x, n, k), Fields(if k < n then [] else [x]);
      NeverNoticed(x, threshold, served[..k], n);
      UnnoticedRound(x, threshold, n, k, Scheduled(threshold, replies, served[..k]), served[k]);
      assert served == served[..k] + [served[k]];
      BannedNext(x, n, k);
      ScheduledNext(threshold, replies, served[..k], reply, served[k]);
    }
  }

  lemma BannedIsHash(x: string, n: nat, rounds: nat)
    ensures Hashes(BannedFrom(x, n, rounds)) && NoErrors(BannedFrom(x, n, rounds))
  {
  }

  /** With a threshold above one, or if no event is taken between round n and the
      next, an address banned from round n on is never noticed. */
  lemma LosesABan(x: string, threshold: int, served: seq<nat>, n: nat)
    requires 1 <= n < |served| && (Budget(threshold) > 1 || served[n] == 0)
    ensures var replies := BannedFrom(x, n, |served|);
            && Scheduled(threshold, replies, served).notices == []
            && Edges(Reads(replies), x) == 1
  {
    NeverNoticed(x, threshold, served, n);
    BannedIsHash(x, n, |served|);
    AllRead(BannedFrom(x, n, |served|));
    RisesOnce(x, Reads(BannedFrom(x, n, |served|)), n);
  }

  lemma BreaksThePromise(threshold: int, served: seq<nat>, n: nat)
    requires 1 <= n < |served| && (Budget(threshold) > 1 || served[n] == 0)
    ensures !AlwaysOneNotice(threshold, served)
  {
    var x, replies := "", BannedFrom("", n, |served|);
    LosesABan(x, threshold, served, n);
    BannedIsHash(x, n, |served|);
    assert multiset(Scheduled(threshold, replies, served).notices)[x] == 0;
    assert !OneNoticeEach(threshold, replies, served);
  }

  /** When the promise of one notice per ban holds. Over a given number of rounds
      and a given handler it holds for every sequence of reads exactly when the
      threshold is one and each event is taken before the check's next round. */
  lemma OneNoticeExactlyWhen(threshold: int, served: seq<nat>)
    ensures AlwaysOneNotice(threshold, served) <==>
            |served| <= 1 || (Budget(threshold) == 1 && InTime(served))
  {
    if |served| > 1 && Budget(threshold) > 1 {
      BreaksThePromise(threshold, served, 1);
    } else if n :| 1 <= n < |served| && served[n] == 0 {
      BreaksThePromise(threshold, served, n);
    } else {
      forall replies | |replies| == |served| && Hashes(replies) && NoErrors(replies)
        ensures OneNoticeEach(threshold, replies, served)
      {
        NoticedOnce(threshold, replies, served);
      }
    }
  }

  lemma NoticedOnce(threshold: int, replies: seq<Reply>, served: seq<nat>)
    requires |served| == |replies| && Hashes(replies) && NoErrors(replies)
    requires |served| <= 1 || Budget(threshold) == 1
    requires InTime(served)
    ensures OneNoticeEach(threshold, replies, served)
  {
    if |served| <= 1 {
      SeedingIsSilent(threshold, replies, served);
    } else {
      InTimeIsPrompt(threshold, replies, served);
      forall a {
        OneNoticePerBan(replies, a);
      }
    }
  }

  lemma SeedingIsSilent(threshold: int, replies: seq<Reply>, served: seq<nat>)
    requires |served| == |replies| <= 1 && NoErrors(replies)
    ensures Scheduled(threshold, replies, served).notices == [] && |Reads(replies)| <= 1
  {
    if replies != [] {
      UnseededAddsNothing(UNSEEDED, replies[0].bans);
      assert replies[..0] == [] && served[..0] == [];
      ServeSilently(Round(START, threshold, replies[0]), served[0]);
    }
  }
}
