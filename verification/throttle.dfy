/** The notification throttle: set-if-absent reservations with an expiry, and the
    dispatcher that consults them. */
module Throttle {

  datatype Attempt = Attempt(key: string, ttl: nat, at: int)

  predicate Free(table: map<string, int>, a: Attempt) {
    a.key in table ==> a.at >= table[a.key]
  }

  function Book(table: map<string, int>, a: Attempt): map<string, int> {
    if Free(table, a) then table[a.key := a.at + a.ttl] else table
  }

  /** The reservations after a history of attempts. */
  function Table(attempts: seq<Attempt>): map<string, int> {
    if attempts == [] then map[] else Book(Table(attempts[..|attempts| - 1]), attempts[|attempts| - 1])
  }

  predicate Granted(attempts: seq<Attempt>, k: nat)
    requires k < |attempts|
  {
    Free(Table(attempts[..k]), attempts[k])
  }

  class Reserver {
    var reservations: map<string, int>
    ghost var attempts: seq<Attempt>

    ghost predicate Valid()
      reads this
    {
      reservations == Table(attempts)
    }

    constructor ()
      ensures Valid() && attempts == []
    {
      reservations, attempts := map[], [];
    }

    /** A refusal tells how long the reservation still runs. */
    method Reserve(key: string, ttl: nat, now: int) returns (allowed: bool, wait: int)
      requires Valid()
      modifies this
      ensures Valid() && attempts == old(attempts) + [Attempt(key, ttl, now)]
      ensures allowed == Granted(attempts, |attempts| - 1)
      ensures if allowed then wait == 0 else
              wait > 0 && reservations == old(reservations) && reservations[key] == now + wait
    {
      ghost var a := Attempt(key, ttl, now);
      assert (attempts + [a])[..|attempts|] == attempts;
      attempts := attempts + [a];
      if key in reservations && now < reservations[key] {
        return false, reservations[key] - now;
      }
      reservations := reservations[key := now + ttl];
      return true, 0;
    }
  }

  // ---------------------------------------------------------------- the rule

  /** A key is booked exactly by its last granted attempt. */
  lemma {:induction false} Booked(attempts: seq<Attempt>, key: string)
    ensures key in Table(attempts) ==>
              exists k :: 0 <= k < |attempts| && attempts[k].key == key && Granted(attempts, k) &&
                          Table(attempts)[key] == attempts[k].at + attempts[k].ttl
    ensures forall k | 0 <= k < |attempts| && attempts[k].key == key && Granted(attempts, k) ::
              key in Table(attempts) && attempts[k].at + attempts[k].ttl <= Table(attempts)[key]
  {
    if attempts != [] {
      var n := |attempts| - 1;
      var init := attempts[..n];
      Booked(init, key);
      assert forall k | 0 <= k < n :: init[..k] == attempts[..k];
      assert forall k | 0 <= k < n :: Granted(init, k) == Granted(attempts, k);
      if attempts[n].key == key && Free(Table(init), attempts[n]) {
        assert Granted(attempts, n);
      }
    }
  }

  /** An attempt is granted exactly when every window opened by an earlier granted
      attempt of the same key is over. So grants of one key are at least its window
      apart, an attempt at or after expiry always succeeds, and other keys, refused
      attempts and the order of clock readings do not matter. */
  lemma GrantedExactlyWhen(attempts: seq<Attempt>, k: nat)
    requires k < |attempts|
    ensures Granted(attempts, k) <==>
            forall j | 0 <= j < k && attempts[j].key == attempts[k].key && Granted(attempts, j) ::
              attempts[k].at >= attempts[j].at + attempts[j].ttl
  {
    var before, a := attempts[..k], attempts[k];
    Booked(before, a.key);
    assert forall j | 0 <= j < k :: before[..j] == attempts[..j];
    assert forall j | 0 <= j < k :: Granted(before, j) == Granted(attempts, j);
    if a.key in Table(before) {
      var j :| 0 <= j < k && before[j].key == a.key && Granted(before, j) &&
               Table(before)[a.key] == before[j].at + before[j].ttl;
      assert Granted(attempts, j);
    }
  }

  function Only(attempts: seq<Attempt>, key: string): seq<Attempt> {
    if attempts == [] then []
    else
      var earlier, last := Only(attempts[..|attempts| - 1], key), attempts[|attempts| - 1];
      if last.key == key then earlier + [last] else earlier
  }

  /** Keys do not interfere: a key's reservation is what it would be had no other
      key ever been asked for. */
  lemma {:induction false} KeysAreIndependent(attempts: seq<Attempt>, key: string)
    ensures key in Table(attempts) <==> key in Table(Only(attempts, key))
    ensures key in Table(attempts) ==> Table(attempts)[key] == Table(Only(attempts, key))[key]
  {
    if attempts != [] {
      var n := |attempts| - 1;
      KeysAreIndependent(attempts[..n], key);
      var earlier := Only(attempts[..n], key);
      assert (earlier + [attempts[n]])[..|earlier|] == earlier;
    }
  }

  // ---------------------------------------------------------------- dispatch

  /** One alert: its throttle window (zero for none), when it was raised, and
      whether the throttle's backend could be reached. */
  datatype Alert = Alert(service: string, throttle: nat, at: int, reachable: bool)

  predicate Consults(a: Alert) { a.throttle > 0 && a.reachable }

  /** What the dispatcher asks of the throttle. */
  function Asked(alerts: seq<Alert>): seq<Attempt> {
    if alerts == [] then []
    else
      var earlier, a := Asked(alerts[..|alerts| - 1]), alerts[|alerts| - 1];
      if Consults(a) then earlier + [Attempt(a.service, a.throttle, a.at)] else earlier
  }

  /** Whether alert k reaches the sender. */
  predicate Delivered(alerts: seq<Alert>, k: nat)
    requires k < |alerts|
  {
    Consults(alerts[k]) ==>
      Free(Table(Asked(alerts[..k])), Attempt(alerts[k].service, alerts[k].throttle, alerts[k].at))
  }

  function Delivery(alerts: seq<Alert>): seq<Alert> {
    if alerts == [] then []
    else
      var n := |alerts| - 1;
      Delivery(alerts[..n]) + if Delivered(alerts, n) then [alerts[n]] else []
  }

  /** A dispatcher with a channel and a throttle. `alerts` is everything it was
      asked to say, `sent` what it passed on. */
  class Dispatcher {
    const reserver: Reserver
    var sent: seq<Alert>
    ghost var alerts: seq<Alert>

    ghost predicate Valid()
      reads this, reserver
    {
      reserver.Valid() && reserver.attempts == Asked(alerts) && sent == Delivery(alerts)
    }

    constructor ()
      ensures Valid() && alerts == [] && fresh(reserver)
    {
      var r := new Reserver();
      reserver := r;
      sent, alerts := [], [];
    }

    method Dispatch(a: Alert)
      requires Valid()
      modifies this, reserver
      ensures Valid() && alerts == old(alerts) + [a]
    {
      ghost var k := |alerts|;
      alerts := alerts + [a];
      assert alerts[..k] == old(alerts);
      if a.throttle > 0 && a.reachable {
        var allowed, _ := reserver.Reserve(a.service, a.throttle, a.at);
        assert reserver.attempts[..|reserver.attempts| - 1] == Asked(alerts[..k]);
        if !allowed {
          return;
        }
      }
      sent := sent + [a];
    }
  }

  lemma DeliveryNext(alerts: seq<Alert>, k: nat)
    requires k < |alerts|
    ensures Delivery(alerts[..k + 1]) == Delivery(alerts[..k]) + if Delivered(alerts, k) then [alerts[k]] else []
  {
    assert alerts[..k + 1][..k] == alerts[..k];
  }

  lemma {:induction false} DeliveryGrows(alerts: seq<Alert>, k: nat, n: nat)
    requires k <= n <= |alerts|
    ensures Delivery(alerts[..k]) <= Delivery(alerts[..n])
  {
    if k < n {
      DeliveryNext(alerts, n - 1);
      var before, after := Delivery(alerts[..n - 1]), Delivery(alerts[..n]);
      assert before <= after;
      DeliveryGrows(alerts, k, n - 1);
    }
  }

  /** What the sender gets, over any alerts: the delivered ones and no others, each
      once and in order; and an alert that asks for no throttle, or whose throttle
      cannot be asked, is always one of them. */
  lemma SentExactlyWhen(alerts: seq<Alert>, k: nat)
    requires k < |alerts|
    ensures var n := |Delivery(alerts[..k])|;
            && |Delivery(alerts[..k + 1])| == n + (if Delivered(alerts, k) then 1 else 0)
            && (Delivered(alerts, k) ==> n < |Delivery(alerts)| && Delivery(alerts)[n] == alerts[k])
    ensures alerts[k].throttle == 0 || !alerts[k].reachable ==> Delivered(alerts, k)
  {
    DeliveryNext(alerts, k);
    DeliveryGrows(alerts, k + 1, |alerts|);
    assert alerts[..|alerts|] == alerts;
  }

  /** Which attempt alert k made. */
  lemma {:induction false} AskedAt(alerts: seq<Alert>, k: nat, j: nat)
    requires j < k <= |alerts| && Consults(alerts[j])
    ensures |Asked(alerts[..j])| < |Asked(alerts[..k])|
    ensures Asked(alerts[..k])[|Asked(alerts[..j])|] == Attempt(alerts[j].service, alerts[j].throttle, alerts[j].at)
    ensures Asked(alerts[..k])[..|Asked(alerts[..j])|] == Asked(alerts[..j])
  {
    assert alerts[..k][..k - 1] == alerts[..k - 1];
    if j < k - 1 {
      AskedAt(alerts, k - 1, j);
    }
  }

  /** While the backend answers, the sender is invoked at most once per window and
      service: of two delivered alerts of one service that ask for a throttle, the
      later comes after the earlier one's window. */
  lemma OncePerWindow(alerts: seq<Alert>, j: nat, k: nat)
    requires j < k < |alerts| && alerts[j].service == alerts[k].service
    requires Consults(alerts[j]) && Consults(alerts[k])
    requires Delivered(alerts, j) && Delivered(alerts, k)
    ensures alerts[k].at >= alerts[j].at + alerts[j].throttle
  {
    var attempts := Asked(alerts[..k]);
    AskedAt(alerts, k, j);
    assert Granted(attempts, |Asked(alerts[..j])|);
    Booked(attempts, alerts[k].service);
  }

  /** A throttle never silences an alert for good: it is withheld only because one
      of the same service went out less than that one's window before. */
  lemma {:induction false} WithheldOnlyInWindow(alerts: seq<Alert>, k: nat)
    requires k < |alerts| && !Delivered(alerts, k)
    ensures exists j :: 0 <= j < k && Consults(alerts[j]) && Delivered(alerts, j) &&
                        alerts[j].service == alerts[k].service && alerts[k].at < alerts[j].at + alerts[j].throttle
  {
    var attempts := Asked(alerts[..k]);
    Booked(attempts, alerts[k].service);
    var i :| 0 <= i < |attempts| && attempts[i].key == alerts[k].service && Granted(attempts, i) &&
             Table(attempts)[alerts[k].service] == attempts[i].at + attempts[i].ttl;
    var j := AskedBy(alerts, k, i);
    assert Delivered(alerts, j);
  }

  lemma {:induction false} AskedBy(alerts: seq<Alert>, k: nat, i: nat) returns (j: nat)
    requires k <= |alerts| && i < |Asked(alerts[..k])|
    ensures j < k && Consults(alerts[j]) && |Asked(alerts[..j])| == i
    ensures Asked(alerts[..k])[i] == Attempt(alerts[j].service, alerts[j].throttle, alerts[j].at)
    ensures Asked(alerts[..k])[..i] == Asked(alerts[..j])
  {
    assert alerts[..k][..k - 1] == alerts[..k - 1];
    if i < |Asked(alerts[..k - 1])| {
      j := AskedBy(alerts, k - 1, i);
    } else {
      j := k - 1;
    }
  }
}
