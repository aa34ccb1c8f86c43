/**
 The offline-device record of `pkg/protocol/channelhandler/record_device_report_offline_up.go`
 (`LocalMemoryReportRecord`): saves under a size limit, and a sweep that reports the devices that
 have been silent for more than five minutes.
 */
module Offline {
  import opened Wrappers

  const OFFLINE_MILLISECONDS := 5 * 60 * 1000

  predicate Expired(stamp: int, now: int) {
    now - stamp > OFFLINE_MILLISECONDS
  }

  class LocalMemoryReportRecord {
    var pool: map<string, int>
    const limit: int
    var published: seq<string>   // the DeviceOffline events

    constructor (limit: int)
      ensures this.limit == limit && pool == map[] && published == []
    {
      this.limit := limit;
      pool, published := map[], [];
    }

    method Size() returns (count: nat)
      ensures count == |pool|
    {
      count := 0;
      var rest := pool.Keys;
      while rest != {}
        invariant rest <= pool.Keys && count + |rest| == |pool.Keys|
        decreases |rest|
      {
        var key :| key in rest;
        rest := rest - {key};
        count := count + 1;
      }
    }

    method SaveRecord(device: string, timestamp: int)
      modifies this`pool
      ensures pool == Saved(old(pool), limit, device, timestamp)
      ensures |old(pool)| < limit ==> pool == old(pool)[device := timestamp]
      ensures |old(pool)| >= limit ==> pool == old(pool)
    {
      var size := Size();
      if size >= limit {
        return;
      }
      pool := pool[device := timestamp];
    }

    /** One tick. `order` is the order in which Range visits the keys. */
    method Sweep(current: int, order: seq<string>)
      requires forall k :: k in order ==> k in pool
      requires forall i, j :: 0 <= i < j < |order| ==> order[i] != order[j]
      modifies this`pool, this`published
      ensures published == old(published) + Reports(order, old(pool), current)
      ensures pool == map k | k in old(pool) && k !in Reports(order, old(pool), current) :: old(pool)[k]
      ensures forall k :: k in order ==> (k !in pool <==> current - old(pool)[k] > 300000)
      ensures forall k :: k in order ==> (k in published[|old(published)|..] <==> current - old(pool)[k] > 300000)
    {
      for i := 0 to |order|
        invariant published == old(published) + Reports(order[..i], old(pool), current)
        invariant pool == map k | k in old(pool) && k !in Reports(order[..i], old(pool), current) :: old(pool)[k]
      {
        var key := order[i];
        ReportsMeaning(order[..i], old(pool), current, key);
        assert key !in order[..i];
        assert order[..i + 1][..i] == order[..i];
        if Expired(pool[key], current) {
          published := published + [key];
          pool := pool - {key};
        }
      }
      assert order[..|order|] == order;
      assert published[|old(published)|..] == Reports(order, old(pool), current);
      forall k | k in order
        ensures k in Reports(order, old(pool), current) <==> current - old(pool)[k] > 300000
      {
        ReportsMeaning(order, old(pool), current, k);
      }
    }
  }

  // The devices a sweep reports, in the order it meets them.
  function Reports(order: seq<string>, pool: map<string, int>, now: int): seq<string>
    requires forall k :: k in order ==> k in pool
  {
    if order == [] then []
    else
      var key := order[|order| - 1];
      var init := Reports(order[..|order| - 1], pool, now);
      if Expired(pool[key], now) then init + [key] else init
  }

  lemma {:induction false} ReportsMeaning(order: seq<string>, pool: map<string, int>, now: int, d: string)
    requires forall k :: k in order ==> k in pool
    ensures d in Reports(order, pool, now) <==> d in order && Expired(pool[d], now)
  {
    if order != [] {
      var init, key := order[..|order| - 1], order[|order| - 1];
      assert order == init + [key];
      ReportsMeaning(init, pool, now, d);
    }
  }

  /** The reports come in the order of the iteration: each device met adds its report, if it is due, at the end. */
  lemma ReportsInOrder(order: seq<string>, d: string, pool: map<string, int>, now: int)
    requires d in pool && forall k :: k in order ==> k in pool
    ensures Reports([], pool, now) == []
    ensures Reports(order + [d], pool, now) ==
            if now - pool[d] > 300000 then Reports(order, pool, now) + [d] else Reports(order, pool, now)
  {
    assert (order + [d])[..|order|] == order;
  }

  /** A sweep over all keys reports each stale device once, and removes exactly those. */
  lemma {:induction false} SweepIsExact(order: seq<string>, pool: map<string, int>, now: int)
    requires forall k :: k in order ==> k in pool
    requires forall i, j :: 0 <= i < j < |order| ==> order[i] != order[j]
    ensures forall i, j :: 0 <= i < j < |Reports(order, pool, now)| ==>
              Reports(order, pool, now)[i] != Reports(order, pool, now)[j]
    ensures (forall k :: k in pool ==> k in order) ==>
              && (forall d :: d in Reports(order, pool, now) <==> d in Stale(pool, now))
              && (map k | k in pool && k !in Reports(order, pool, now) :: pool[k]) == Swept(pool, now)
  {
    if order != [] {
      var init, key := order[..|order| - 1], order[|order| - 1];
      SweepIsExact(init, pool, now);
      ReportsMeaning(init, pool, now, key);
      assert key !in init;
    }
    forall d
      ensures d in Reports(order, pool, now) <==> d in order && Expired(pool[d], now)
    {
      ReportsMeaning(order, pool, now, d);
    }
  }

  // A save at the limit is dropped, even for a device that is already known.
  function Saved(pool: map<string, int>, limit: int, device: string, timestamp: int): map<string, int> {
    if |pool| >= limit then pool else pool[device := timestamp]
  }

  function Stale(pool: map<string, int>, now: int): set<string> {
    set k | k in pool && Expired(pool[k], now)
  }

  function Swept(pool: map<string, int>, now: int): map<string, int> {
    map k | k in pool && k !in Stale(pool, now) :: pool[k]
  }

  // ---------------------------------------------------------------- whole runs

  datatype Op = Save(device: string, timestamp: int) | Tick(now: int)

  function PoolAfter(limit: int, ops: seq<Op>): map<string, int> {
    if ops == [] then map[]
    else
      var pool := PoolAfter(limit, ops[..|ops| - 1]);
      match ops[|ops| - 1]
      case Save(d, ts) => Saved(pool, limit, d, ts)
      case Tick(now) => Swept(pool, now)
  }

  ghost predicate AcceptedAt(limit: int, ops: seq<Op>, i: int, device: string) {
    0 <= i < |ops| && ops[i].Save? && ops[i].device == device && |PoolAfter(limit, ops[..i])| < limit
  }

  ghost predicate ReportedAt(limit: int, ops: seq<Op>, i: int, device: string) {
    0 <= i < |ops| && ops[i].Tick? && device in Stale(PoolAfter(limit, ops[..i]), ops[i].now)
  }

  // The last thing that happened to the device before step n is the accepted save at k.
  ghost predicate PendingSince(limit: int, ops: seq<Op>, n: int, device: string, k: int) {
    && 0 <= k < n <= |ops|
    && AcceptedAt(limit, ops, k, device)
    && forall j :: k < j < n ==> !AcceptedAt(limit, ops, j, device) && !ReportedAt(limit, ops, j, device)
  }

  ghost predicate NothingPending(limit: int, ops: seq<Op>, n: int, device: string) {
    forall k :: !PendingSince(limit, ops, n, device, k)
  }

  /** The pool never holds more than the limit. */
  lemma {:induction false} PoolIsBounded(limit: int, ops: seq<Op>)
    ensures |PoolAfter(limit, ops)| <= if limit < 0 then 0 else limit
  {
    if ops != [] {
      var init := ops[..|ops| - 1];
      var pool := PoolAfter(limit, init);
      PoolIsBounded(limit, init);
      match ops[|ops| - 1] {
        case Save(d, ts) =>
          if |pool| < limit {
            assert pool[d := ts].Keys == pool.Keys + {d};
            assert |pool[d := ts].Keys| <= |pool.Keys| + 1;
          }
        case Tick(now) =>
          SubsetCount(Swept(pool, now).Keys, pool.Keys);
      }
    }
  }

  lemma PendingStays(limit: int, ops: seq<Op>, n: nat, device: string, k: int)
    requires 0 < n <= |ops| && PendingSince(limit, ops, n - 1, device, k)
    requires !AcceptedAt(limit, ops, n - 1, device) && !ReportedAt(limit, ops, n - 1, device)
    ensures PendingSince(limit, ops, n, device, k)
  {}

  // What one step does to one device.
  lemma PoolStep(limit: int, ops: seq<Op>, n: nat, device: string)
    requires 0 < n <= |ops|
    ensures var before, after := PoolAfter(limit, ops[..n - 1]), PoolAfter(limit, ops[..n]);
            if AcceptedAt(limit, ops, n - 1, device) then device in after && after[device] == ops[n - 1].timestamp
            else if ReportedAt(limit, ops, n - 1, device) then device !in after
            else (device in after <==> device in before) && (device in after ==> after[device] == before[device])
  {
    assert ops[..n][..n - 1] == ops[..n - 1];
  }

  // The pool holds exactly the devices with a pending save, under that save's time.
  lemma {:induction false} PoolMeaning(limit: int, ops: seq<Op>, n: nat, device: string)
    requires n <= |ops|
    ensures device in PoolAfter(limit, ops[..n]) ==>
              exists k :: PendingSince(limit, ops, n, device, k)
                           && ops[k].timestamp == PoolAfter(limit, ops[..n])[device]
    ensures device !in PoolAfter(limit, ops[..n]) ==> NothingPending(limit, ops, n, device)
  {
    if n > 0 {
      var before := PoolAfter(limit, ops[..n - 1]);
      PoolMeaning(limit, ops, n - 1, device);
      PoolStep(limit, ops, n, device);
      if AcceptedAt(limit, ops, n - 1, device) {
        assert PendingSince(limit, ops, n, device, n - 1);
      } else if !ReportedAt(limit, ops, n - 1, device) && device in before {
        var k :| PendingSince(limit, ops, n - 1, device, k) && ops[k].timestamp == before[device];
        PendingStays(limit, ops, n, device, k);
      } else {
        NotPending(limit, ops, n, device);
      }
    }
  }

  lemma NotPending(limit: int, ops: seq<Op>, n: nat, device: string)
    requires 0 < n <= |ops| && !AcceptedAt(limit, ops, n - 1, device)
    requires ReportedAt(limit, ops, n - 1, device) || NothingPending(limit, ops, n - 1, device)
    ensures NothingPending(limit, ops, n, device)
  {
    forall k
      ensures !PendingSince(limit, ops, n, device, k)
    {
      assert PendingSince(limit, ops, n, device, k) && k < n - 1 && !ReportedAt(limit, ops, n - 1, device) ==>
               PendingSince(limit, ops, n - 1, device, k);
    }
  }

  lemma PendingIsUnique(limit: int, ops: seq<Op>, n: int, device: string, k: int, l: int)
    requires PendingSince(limit, ops, n, device, k) && PendingSince(limit, ops, n, device, l)
    ensures k == l
  {}

  /**
   When a device is reported offline: at a tick more than five minutes after its last accepted
   save, if it has not been reported since that save. So two reports of a device have an accepted
   save between them, and none comes within five minutes of its last accepted save.
   */
  lemma ReportedIff(limit: int, ops: seq<Op>, n: nat, device: string)
    requires n < |ops| && ops[n].Tick?
    ensures ReportedAt(limit, ops, n, device) <==>
            exists k :: PendingSince(limit, ops, n, device, k) && ops[n].now - ops[k].timestamp > 300000
  {
    PoolMeaning(limit, ops, n, device);
    var pool := PoolAfter(limit, ops[..n]);
    if device in pool {
      var k :| PendingSince(limit, ops, n, device, k) && ops[k].timestamp == pool[device];
      forall l | PendingSince(limit, ops, n, device, l)
        ensures l == k
      {
        PendingIsUnique(limit, ops, n, device, k, l);
      }
    }
  }

  /** Between two reports of a device there is an accepted save of it. */
  lemma SaveBetweenReports(limit: int, ops: seq<Op>, m: nat, n: nat, device: string) returns (k: int)
    requires m < n && ReportedAt(limit, ops, m, device) && ReportedAt(limit, ops, n, device)
    ensures m < k < n && AcceptedAt(limit, ops, k, device) && ops[n].now - ops[k].timestamp > 300000
  {
    ReportedIff(limit, ops, n, device);
    k :| PendingSince(limit, ops, n, device, k) && ops[n].now - ops[k].timestamp > 300000;
    assert k != m;
  }

  // ---------------------------------------------------------------- the handler's time unit

  /**
   The channel handler stamps saves in microseconds while the sweep reads milliseconds. For a save
   at t milliseconds the sweep's answer is the intended one exactly outside a window of 999 t.
   */
  lemma MicrosecondStampsExpireLate(t: int, now: int)
    requires t >= 0
    ensures (Expired(1000 * t, now) <==> Expired(t, now)) <==>
            !(t + 300000 < now <= 1000 * t + 300000)
  {}
}
