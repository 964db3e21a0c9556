/** The error accounting of internal/health: what one round costs, when a check
    counts as dead, and the percentage the mailcow UI shows. */
module Health {

  /** A tracker's outcome after one operation (hptotal, hpnow, hpdiff, lvl). */
  datatype Snapshot = Snapshot(threshold: int, remaining: nat, trend: int, percent: int) {
    predicate Dead() { remaining <= 0 }
  }

  /** New raises a threshold below one, so a fresh tracker is never dead. */
  function Budget(threshold: int): (b: nat)
    ensures b >= 1
  {
    if threshold < 1 then 1 else threshold
  }

  function RecordCount(count: nat, weight: int): nat {
    if weight > 0 then count + weight else if count > 0 then count - 1 else 0
  }

  function HealCount(count: nat, points: int): nat {
    if count <= 1 then count else if count - points < 0 then 0 else count - points
  }

  function Percent(current: int, total: int): int {
    if total <= 0 then 0
    else
      var c := if current < 0 then 0 else current;
      (200 * c / total) % 2 + 100 * c / total
  }

  function Observe(threshold: int, count: nat, trend: int): Snapshot {
    var remaining := if threshold - count < 0 then 0 else threshold - count;
    Snapshot(threshold, remaining, trend, Percent(remaining, threshold))
  }

  /** Histories. Everything a tracker can be asked to do, in mutex order. */
  datatype Op = Round(weight: int) | Heal(points: nat) | Reset

  function CountAfter(before: nat, op: Op): nat {
    match op
    case Round(w) => RecordCount(before, w)
    case Heal(p) => HealCount(before, p)
    case Reset => 0
  }

  function Replay(ops: seq<Op>): nat {
    if ops == [] then 0 else CountAfter(Replay(ops[..|ops| - 1]), ops[|ops| - 1])
  }

  /** The per-check error tracker. `ops` records every call, so that facts about
      Replay are facts about any tracker after any sequence of calls. */
  class Tracker {
    const threshold: nat
    var errCount: nat
    ghost var ops: seq<Op>

    ghost predicate Valid()
      reads this
    {
      threshold >= 1 && errCount == Replay(ops)
    }

    constructor (limit: int)
      ensures Valid() && threshold == Budget(limit) && ops == []
    {
      threshold := if limit < 1 then 1 else limit;
      errCount := 0;
      ops := [];
    }

    method Record(weight: int) returns (s: Snapshot)
      requires Valid()
      modifies this
      ensures Valid() && ops == old(ops) + [Round(weight)] && errCount == RecordCount(old(errCount), weight)
      ensures s == Observe(threshold, errCount, old(errCount) - errCount)
    {
      var w := if weight < 0 then 0 else weight;
      var before := errCount;
      if w > 0 {
        errCount := errCount + w;
      } else if errCount > 0 {
        errCount := errCount - 1;
      }
      ops := ops + [Round(weight)];
      s := Observe(threshold, errCount, before - errCount);
    }

    method Heal(points: nat) returns (s: Snapshot)
      requires Valid()
      modifies this
      ensures Valid() && ops == old(ops) + [Op.Heal(points)] && errCount == HealCount(old(errCount), points)
      ensures s == Observe(threshold, errCount, old(errCount) - errCount)
    {
      var before := errCount;
      if errCount > 1 {
        errCount := if errCount < points then 0 else errCount - points;
      }
      ops := ops + [Op.Heal(points)];
      s := Observe(threshold, errCount, before - errCount);
    }

    method Reset()
      requires Valid()
      modifies this
      ensures Valid() && errCount == 0 && ops == old(ops) + [Op.Reset]
    {
      errCount := 0;
      ops := ops + [Op.Reset];
    }
  }

  /** healAll of the supervisor: hand points back to every check. */
  method HealAll(trackers: seq<Tracker>, points: nat)
    requires forall t | t in trackers :: t.Valid()
    requires forall i, j | 0 <= i < j < |trackers| :: trackers[i] != trackers[j]
    modifies trackers
    ensures forall t | t in trackers :: t.Valid() && t.ops == old(t.ops) + [Op.Heal(points)]
  {
    for i := 0 to |trackers|
      invariant forall k | 0 <= k < i ::
                  trackers[k].Valid() && trackers[k].ops == old(trackers[k].ops) + [Op.Heal(points)]
      invariant forall k | i <= k < |trackers| :: unchanged(trackers[k])
    {
      var _ := trackers[i].Heal(points);
    }
  }

  // ---------------------------------------------------------------- death

  /** A snapshot is dead exactly when the count has reached the threshold. */
  lemma DeadIsBudgetSpent(threshold: nat, count: nat, trend: int)
    requires threshold >= 1
    ensures Observe(threshold, count, trend).Dead() <==> count >= threshold
  {
  }

  /** What a round contributes to a stretch: its weight, or one point back. */
  function Signed(weight: int): int {
    if weight > 0 then weight else -1
  }

  function NetCost(ws: seq<int>): int {
    if ws == [] then 0 else NetCost(ws[..|ws| - 1]) + Signed(ws[|ws| - 1])
  }

  function Rounds(ws: seq<int>): (ops: seq<Op>)
    ensures |ops| == |ws| && forall i | 0 <= i < |ws| :: ops[i] == Round(ws[i])
  {
    seq(|ws|, i requires 0 <= i < |ws| => Round(ws[i]))
  }

  /** The count is the largest net cost of any stretch ending now (the empty
      stretch included): an upper bound of all of them that one of them attains. */
  lemma {:induction false} CountIsMaxSuffix(ws: seq<int>) returns (start: nat)
    ensures start <= |ws| && NetCost(ws[start..]) == Replay(Rounds(ws))
    ensures forall k | 0 <= k <= |ws| :: NetCost(ws[k..]) <= Replay(Rounds(ws))
  {
    if ws == [] {
      return 0;
    }
    var n := |ws| - 1;
    var init := ws[..n];
    var s := CountIsMaxSuffix(init);
    assert Rounds(ws)[..n] == Rounds(init);
    forall k | 0 <= k <= n
      ensures NetCost(ws[k..]) == NetCost(init[k..]) + Signed(ws[n])
    {
      assert ws[k..][..n - k] == init[k..];
    }
    start := if ws[n] <= 0 && Replay(Rounds(init)) == 0 then |ws| else s;
  }

  /** A check dies at its n-th round after a reset exactly when some stretch of
      rounds ending there nets at least the threshold. */
  lemma DiesExactlyWhen(ws: seq<int>, threshold: nat)
    requires threshold >= 1
    ensures Replay(Rounds(ws)) >= threshold <==> exists k :: 0 <= k < |ws| && NetCost(ws[k..]) >= threshold
  {
    var start := CountIsMaxSuffix(ws);
    assert start < |ws| || NetCost(ws[start..]) == 0;
  }

  /** How long a budget lasts: a check that costs one point a round dies at exactly
      the threshold-th round, and at the first when the threshold is below one. */
  lemma {:induction false} FailuresToDeath(limit: int, rounds: nat)
    ensures Replay(Rounds(seq(rounds, _ => 1))) == rounds
    ensures Replay(Rounds(seq(rounds, _ => 1))) >= Budget(limit) <==> rounds >= 1 && rounds >= limit
  {
    if rounds > 0 {
      FailuresToDeath(limit, rounds - 1);
      assert Rounds(seq(rounds, _ => 1))[..rounds - 1] == Rounds(seq(rounds - 1, _ => 1));
    }
  }

  /** A reset wipes the slate: whatever came before makes no difference after it. */
  lemma {:induction false} ResetForgets(before: seq<Op>, after: seq<Op>)
    ensures Replay(before + [Op.Reset] + after) == Replay(after)
  {
    if after == [] {
      ReplayNext(before, Op.Reset);
      assert before + [Op.Reset] + [] == before + [Op.Reset];
    } else {
      var n := |after| - 1;
      ResetForgets(before, after[..n]);
      ReplayNext(before + [Op.Reset] + after[..n], after[n]);
      assert before + [Op.Reset] + after == before + [Op.Reset] + after[..n] + [after[n]];
    }
  }

  lemma ReplayNext(ops: seq<Op>, op: Op)
    ensures Replay(ops + [op]) == CountAfter(Replay(ops), op)
  {
    assert (ops + [op])[..|ops|] == ops;
  }

  // ---------------------------------------------------------------- snapshots

  /** What the snapshot of any call in any history tells: how far the count is from
      the threshold, by how much the call changed that, and the share of the budget
      left, rounded half up. */
  lemma SnapshotTells(threshold: nat, ops: seq<Op>, op: Op)
    requires threshold >= 1
    ensures var before, after := Replay(ops), Replay(ops + [op]);
            var s := Observe(threshold, after, before - after);
            && s.threshold == threshold && s.remaining <= threshold
            && (if after < threshold then s.remaining + after == threshold else s.remaining == 0)
            && after + s.trend == before
            && s.percent == (200 * s.remaining + threshold) / (2 * threshold)
            && (op.Round? ==> s.trend == if op.weight > 0 then -op.weight else if before > 0 then 1 else 0)
  {
    ReplayNext(ops, op);
    var after := Replay(ops + [op]);
    PercentRoundsHalfUp(if after < threshold then threshold - after else 0, threshold);
  }

  // ---------------------------------------------------------------- healing

  /** What a heal repays, after any history: all the points it hands back that are
      outstanding, but nothing of a single one. */
  lemma HealRepays(ops: seq<Op>, points: nat)
    ensures var before, after := Replay(ops), Replay(ops + [Op.Heal(points)]);
            if before > 1 then before - after == (if points < before then points else before) else after == before
  {
    ReplayNext(ops, Op.Heal(points));
  }

  /** Two heals amount to one of both sizes exactly when the first leaves more than
      the protected point, or the second has nothing to add. */
  lemma TwoHealsAreOneExactlyWhen(ops: seq<Op>, p: nat, q: nat)
    ensures Replay(ops + [Op.Heal(p)] + [Op.Heal(q)]) == Replay(ops + [Op.Heal(p + q)]) <==>
            Replay(ops) <= 1 || q == 0 || Replay(ops) != p + 1
  {
    HealRepays(ops, p);
    HealRepays(ops + [Op.Heal(p)], q);
    HealRepays(ops, p + q);
  }

  function Unhealed(ops: seq<Op>): seq<Op> {
    if ops == [] then []
    else if ops[|ops| - 1].Heal? then Unhealed(ops[..|ops| - 1])
    else Unhealed(ops[..|ops| - 1]) + [ops[|ops| - 1]]
  }

  /** Healing never brings a death forward: at every point of every history the
      count is at most what it would have been without the heals. */
  lemma {:induction false} HealsNeverHasten(ops: seq<Op>)
    ensures Replay(ops) <= Replay(Unhealed(ops))
  {
    if ops != [] {
      var init := ops[..|ops| - 1];
      HealsNeverHasten(init);
      assert (Unhealed(init) + [ops[|ops| - 1]])[..|Unhealed(init)|] == Unhealed(init);
    }
  }

  /** More errors do not always leave more errors after a heal. The order of two
      counts survives except when the smaller is the single protected point and
      the larger is repaid in full. */
  lemma {:induction false} HealKeepsOrderExactlyWhen(a: nat, b: nat, points: nat)
    requires a <= b
    ensures HealCount(a, points) <= HealCount(b, points) <==> !(a == 1 && 2 <= b <= points)
  {
  }

  // ---------------------------------------------------------------- percentage

  lemma Scaled(x: int, b: int)
    requires b > 0
    ensures x >= 1 ==> x * b >= b
    ensures x <= -1 ==> x * b <= -b
  {
  }

  lemma DivUnique(a: int, b: int, q: int, r: int)
    requires 0 <= r < b && a == q * b + r
    ensures a / b == q
  {
    assert (q - a / b) * b == a % b - r;
    Scaled(q - a / b, b);
  }

  /** The two truncating divisions round half up: floor of current/total in
      percent plus one half. */
  lemma PercentRoundsHalfUp(c: nat, t: int)
    requires t > 0
    ensures Percent(c, t) == (200 * c + t) / (2 * t)
  {
    var q, r := 200 * c / t, 200 * c % t;
    var h, g := q / 2, q % 2;
    assert 200 * c == (2 * h + g) * t + r;
    HalvedQuotient(c, t, h, g, r);
  }

  lemma HalvedQuotient(c: nat, t: int, h: int, g: int, r: int)
    requires t > 0 && 0 <= g <= 1 && 0 <= r < t && 200 * c == (2 * h + g) * t + r
    ensures 100 * c / t == h && (200 * c + t) / (2 * t) == h + g
  {
    assert (2 * h + g) * t == 2 * (h * t) + g * t;
    DivUnique(100 * c, t, h, 100 * c - h * t);
    if g == 0 {
      assert 200 * c + t == h * (2 * t) + (t + r);
      DivUnique(200 * c + t, 2 * t, h, t + r);
    } else {
      assert 200 * c + t == (h + 1) * (2 * t) + r;
      DivUnique(200 * c + t, 2 * t, h + 1, r);
    }
  }

  lemma DivMonotone(a: int, a': int, b: int)
    requires b > 0 && a <= a'
    ensures a / b <= a' / b
  {
    assert (a / b - a' / b) * b == a - a' + a' % b - a % b;
    Scaled(a / b - a' / b, b);
  }

  lemma DivAddMultiple(a: int, b: int, k: int)
    requires b > 0
    ensures (a + k * b) / b == a / b + k
  {
    assert a + k * b == (a / b + k) * b + a % b;
    DivUnique(a + k * b, b, a / b + k, a % b);
  }

  /** A health level within the budget reads between 0 and 100, never decreases
      with health, and reads 100 at full health. */
  lemma PercentInRange(c: nat, c': nat, t: int)
    requires 0 < t && c <= c' <= t
    ensures 0 <= Percent(c, t) <= Percent(c', t) <= 100 == Percent(t, t)
  {
    PercentRoundsHalfUp(c, t);
    PercentRoundsHalfUp(c', t);
    PercentRoundsHalfUp(t, t);
    DivMonotone(0, 200 * c + t, 2 * t);
    DivMonotone(200 * c + t, 200 * c' + t, 2 * t);
    DivMonotone(200 * c' + t, 200 * t + t, 2 * t);
    DivUnique(201 * t, 2 * t, 100, t);
    DivUnique(0, 2 * t, 0, 0);
  }

  /** Zero percent means less than half a percent of health is left, so up to a
      threshold of 200 it means none at all. */
  lemma PercentZeroExactlyWhen(c: nat, t: int)
    requires t > 0
    ensures Percent(c, t) == 0 <==> 200 * c < t
    ensures t <= 200 ==> (Percent(c, t) == 0 <==> c == 0)
  {
    PercentRoundsHalfUp(c, t);
    if 200 * c < t {
      DivUnique(200 * c + t, 2 * t, 0, 200 * c + t);
    } else {
      DivMonotone(2 * t, 200 * c + t, 2 * t);
      DivUnique(2 * t, 2 * t, 1, 0);
    }
  }

  /** A level and its complement read 100 together, or 101 when both round up. */
  lemma PercentComplement(c: nat, t: int)
    requires 0 < t && c <= t
    ensures Percent(c, t) + Percent(t - c, t) == if (200 * c + t) % (2 * t) == 0 then 101 else 100
  {
    PercentRoundsHalfUp(c, t);
    PercentRoundsHalfUp(t - c, t);
    var a := 200 * c + t;
    var q, r := a / (2 * t), a % (2 * t);
    assert a == q * (2 * t) + r;
    if r == 0 {
      assert 200 * (t - c) + t == (101 - q) * (2 * t) + 0;
      DivUnique(200 * (t - c) + t, 2 * t, 101 - q, 0);
    } else {
      assert 200 * (t - c) + t == (100 - q) * (2 * t) + (2 * t - r);
      DivUnique(200 * (t - c) + t, 2 * t, 100 - q, 2 * t - r);
    }
  }

  ghost predicate Distinguishes(t: int) {
    forall c | 0 <= c < t :: Percent(c, t) < Percent(c + 1, t)
  }

  lemma {:induction false} DistinctLevelsCount(c: nat, t: int)
    requires 0 < t && c <= t && Distinguishes(t)
    ensures Percent(c, t) >= c
  {
    if c == 0 {
      PercentInRange(0, t, t);
    } else {
      DistinctLevelsCount(c - 1, t);
      assert Percent(c - 1, t) < Percent(c - 1 + 1, t);
    }
  }

  /** Every lost point is visible in the percentage exactly up to a threshold of
      100; beyond that two health levels share a value. */
  lemma PercentDistinguishesExactlyWhen(t: int)
    requires t > 0
    ensures Distinguishes(t) <==> t <= 100
  {
    if t <= 100 {
      forall c | 0 <= c < t
        ensures Percent(c, t) < Percent(c + 1, t)
      {
        PercentRoundsHalfUp(c, t);
        PercentRoundsHalfUp(c + 1, t);
        DivAddMultiple(200 * c + t, 2 * t, 1);
        DivMonotone(200 * c + t + 1 * (2 * t), 200 * (c + 1) + t, 2 * t);
      }
    } else if Distinguishes(t) {
      DistinctLevelsCount(t, t);
      PercentInRange(t, t, t);
      assert false;
    }
  }
}
