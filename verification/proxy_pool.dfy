/**
 The proxy pool (`ProxyListener`): a map from proxy to current load and a map from proxy to
 error count, changed only by the four actions its actor processes one at a time. Each action
 is a pure transition here. The pool's `HashMap` iteration order, which decides which entry
 `firstOrNull` and `minByOrNull` pick, is an input `order`.
 */
module ProxyPool {
  import opened Wrappers
  import opened DataObjects

  datatype Pool = Pool(loads: map<DownloadProxy, int>, errors: map<DownloadProxy, int>)

  /** The iteration order lists every proxy of the pool. */
  predicate Covers(order: seq<DownloadProxy>, loads: map<DownloadProxy, int>) {
    forall p :: p in loads ==> p in order
  }

  /** Some proxy of the pool has this address. */
  predicate AddressTaken(loads: map<DownloadProxy, int>, address: string) {
    exists p :: p in loads && p.address == address
  }

  /** No two proxies of the pool share an address. */
  predicate UniqueAddresses(loads: map<DownloadProxy, int>) {
    forall p, q :: p in loads && q in loads && p.address == q.address ==> p == q
  }

  /** A proxy that may be lent out: in the pool and below its concurrent-use limit. */
  predicate Eligible(loads: map<DownloadProxy, int>, p: DownloadProxy) {
    p in loads && loads[p] < p.limit
  }

  /** The pool read back at start-up: every saved proxy with load 0 and no error count. */
  function Restore(saved: seq<DownloadProxy>): (pool: Pool)
    ensures pool.errors == map[]
    ensures forall p :: p in pool.loads <==> p in saved
    ensures forall p :: p in pool.loads ==> pool.loads[p] == 0
  {
    if |saved| == 0 then Pool(map[], map[])
    else
      var pool := Restore(saved[..|saved| - 1]);
      pool.(loads := pool.loads[saved[|saved| - 1] := 0])
  }

  /** `AddProxy`: inserted with load 0 unless a proxy with the same address is present. */
  function Add(pool: Pool, proxy: DownloadProxy): (r: Pool)
    ensures r.errors == pool.errors
    ensures AddressTaken(pool.loads, proxy.address) ==> r == pool
    ensures !AddressTaken(pool.loads, proxy.address) ==> r.loads == pool.loads[proxy := 0]
  {
    if AddressTaken(pool.loads, proxy.address) then pool
    else pool.(loads := pool.loads[proxy := 0])
  }

  /** The first proxy in `order` that is in the pool and has `address`. */
  function FirstWithAddress(order: seq<DownloadProxy>, loads: map<DownloadProxy, int>, address: string)
    : (r: Option<DownloadProxy>)
    ensures r.Some? ==> r.value in loads && r.value.address == address
    ensures r.Some? ==> (exists i ::
                           && 0 <= i < |order| && order[i] == r.value
                           && forall j :: 0 <= j < i ==> !(order[j] in loads && order[j].address == address))
    ensures r.None? ==> forall i :: 0 <= i < |order| ==> !(order[i] in loads && order[i].address == address)
  {
    if |order| == 0 then None
    else if order[0] in loads && order[0].address == address then Some(order[0])
    else
      var r := FirstWithAddress(order[1..], loads, address);
      if r.Some? then
        ghost var i :| 0 <= i < |order[1..]| && order[1..][i] == r.value
          && forall j :: 0 <= j < i ==> !(order[1..][j] in loads && order[1..][j].address == address);
        assert order[i + 1] == r.value;
        r
      else r
  }

  /** `RemoveProxy`: deletes and answers the first proxy with the address; the error map is untouched. */
  function Remove(pool: Pool, address: string, order: seq<DownloadProxy>): (r: (Pool, Option<DownloadProxy>))
    ensures r.0.errors == pool.errors
    ensures r.1.Some? ==> (r.1.value in pool.loads && r.1.value.address == address
      && r.0.loads == pool.loads - {r.1.value})
    ensures r.1.None? ==> r.0 == pool
  {
    var found := FirstWithAddress(order, pool.loads, address);
    if found.Some? then (pool.(loads := pool.loads - {found.value}), found) else (pool, None)
  }

  /** Every eligible proxy before position `k + 1` is more loaded than `p` if that holds in the tail before `k` and at the head. */
  lemma LoadsAboveBefore(order: seq<DownloadProxy>, loads: map<DownloadProxy, int>, k: nat, p: DownloadProxy)
    requires k < |order| - 1 && p in loads
    requires Eligible(loads, order[0]) ==> loads[order[0]] > loads[p]
    requires forall i :: 0 <= i < k && Eligible(loads, order[1..][i]) ==> loads[order[1..][i]] > loads[p]
    ensures order[k + 1] == order[1..][k]
    ensures forall i :: 0 <= i < k + 1 && Eligible(loads, order[i]) ==> loads[order[i]] > loads[p]
  {
    assert forall i :: 1 <= i < k + 1 ==> order[i] == order[1..][i - 1];
  }

  /**
   `minByOrNull` over the eligible entries, in `order`: an eligible proxy of least load, and
   of those the first in `order` (every eligible proxy listed before it has a greater load).
   */
  function LeastLoaded(order: seq<DownloadProxy>, loads: map<DownloadProxy, int>): (r: Option<DownloadProxy>)
    ensures r.Some? ==> Eligible(loads, r.value) && r.value in order
    ensures r.Some? ==> forall i :: 0 <= i < |order| && Eligible(loads, order[i]) ==> loads[r.value] <= loads[order[i]]
    ensures r.None? ==> forall i :: 0 <= i < |order| ==> !Eligible(loads, order[i])
    ensures r.Some? ==> exists k :: && 0 <= k < |order| && order[k] == r.value
                                    && forall i :: 0 <= i < k && Eligible(loads, order[i]) ==> loads[order[i]] > loads[r.value]
  {
    if |order| == 0 then None
    else
      var rest := LeastLoaded(order[1..], loads);
      if Eligible(loads, order[0]) && (rest.None? || loads[order[0]] <= loads[rest.value]) then
        Some(order[0])
      else if rest.Some? then
        ghost var k :| && 0 <= k < |order[1..]| && order[1..][k] == rest.value
                       && forall i :: 0 <= i < k && Eligible(loads, order[1..][i]) ==> loads[order[1..][i]] > loads[rest.value];
        LoadsAboveBefore(order, loads, k, rest.value);
        rest
      else rest
  }

  /**
   `BorrowProxy` as written: the chosen entry's load is written back unchanged, so the pool
   is the same afterwards.
   */
  function Borrow(pool: Pool, order: seq<DownloadProxy>): (r: (Pool, Option<DownloadProxy>))
    ensures r.0 == pool
    ensures r.1.Some? ==> Eligible(pool.loads, r.1.value)
    ensures r.1.Some? ==> forall q :: q in order && Eligible(pool.loads, q) ==> pool.loads[r.1.value] <= pool.loads[q]
  {
    var chosen := LeastLoaded(order, pool.loads);
    if chosen.Some? then (pool.(loads := pool.loads[chosen.value := pool.loads[chosen.value]]), chosen)
    else (pool, None)
  }

  /** `computeIfPresent(proxy) { i - 1 }`. */
  function Decrement(loads: map<DownloadProxy, int>, p: DownloadProxy): map<DownloadProxy, int> {
    if p in loads then loads[p := loads[p] - 1] else loads
  }

  /** The error count an errored return records: one more than before, or 1. */
  function NextErrorCount(errors: map<DownloadProxy, int>, p: DownloadProxy): int {
    if p in errors then errors[p] + 1 else 1
  }

  /** `ReturnProxy`. */
  function Return(pool: Pool, proxy: DownloadProxy, hadError: bool): (r: Pool)
    ensures !hadError ==> r.errors == pool.errors
    ensures hadError && NextErrorCount(pool.errors, proxy) >= proxy.errorLimit ==>
      r.loads == pool.loads - {proxy} && r.errors == pool.errors - {proxy}
    ensures (!hadError || NextErrorCount(pool.errors, proxy) < proxy.errorLimit) ==>
      (proxy in pool.loads ==> proxy in r.loads && r.loads[proxy] == pool.loads[proxy] - 1)
      && (proxy !in pool.loads ==> r.loads == pool.loads)
      && (forall q :: q != proxy ==> (q in r.loads <==> q in pool.loads))
      && (forall q :: q != proxy && q in pool.loads ==> r.loads[q] == pool.loads[q])
    ensures hadError && NextErrorCount(pool.errors, proxy) < proxy.errorLimit ==>
      r.errors == pool.errors[proxy := NextErrorCount(pool.errors, proxy)]
  {
    if hadError then
      var newErrors := NextErrorCount(pool.errors, proxy);
      if newErrors >= proxy.errorLimit then
        Pool(pool.loads - {proxy}, pool.errors - {proxy})
      else
        Pool(Decrement(pool.loads, proxy), pool.errors[proxy := newErrors])
    else
      pool.(loads := Decrement(pool.loads, proxy))
  }

  // ---------------------------------------------------------------------------------------
  // Properties

  /** Add, Remove, Borrow and Return each keep proxy addresses unique. */
  lemma UniqueAddressesPreserved(pool: Pool, proxy: DownloadProxy, address: string,
                                 order: seq<DownloadProxy>, hadError: bool)
    requires UniqueAddresses(pool.loads)
    ensures UniqueAddresses(Add(pool, proxy).loads)
    ensures UniqueAddresses(Remove(pool, address, order).0.loads)
    ensures UniqueAddresses(Borrow(pool, order).0.loads)
    ensures UniqueAddresses(Return(pool, proxy, hadError).loads)
  {
    var added := Add(pool, proxy);
    if !AddressTaken(pool.loads, proxy.address) {
      forall p, q | p in added.loads && q in added.loads && p.address == q.address
        ensures p == q
      {
        if p != proxy && q == proxy { assert p in pool.loads; }
      }
    }
  }

  /** Remove answers none exactly when no proxy of the pool has the address. */
  lemma RemoveNoneIffAbsent(pool: Pool, address: string, order: seq<DownloadProxy>)
    requires Covers(order, pool.loads)
    ensures Remove(pool, address, order).1.None? <==> !AddressTaken(pool.loads, address)
  {
    if AddressTaken(pool.loads, address) {
      var p :| p in pool.loads && p.address == address;
      var i :| 0 <= i < |order| && order[i] == p;
    }
  }

  /** With unique addresses, Remove takes out exactly the proxy that has the address. */
  lemma RemoveTakesTheOwner(pool: Pool, p: DownloadProxy, order: seq<DownloadProxy>)
    requires UniqueAddresses(pool.loads) && Covers(order, pool.loads) && p in pool.loads
    ensures Remove(pool, p.address, order) == (pool.(loads := pool.loads - {p}), Some(p))
  {
    RemoveNoneIffAbsent(pool, p.address, order);
  }

  /**
   Borrow answers none exactly when every proxy is at or above its limit; otherwise the proxy
   it lends is below its limit and no eligible proxy is less loaded.
   */
  lemma BorrowNoneIffAllBusy(pool: Pool, order: seq<DownloadProxy>)
    requires Covers(order, pool.loads)
    ensures Borrow(pool, order).1.None? <==> forall p :: p in pool.loads ==> pool.loads[p] >= p.limit
    ensures Borrow(pool, order).1.Some? ==>
      forall q :: Eligible(pool.loads, q) ==> pool.loads[Borrow(pool, order).1.value] <= pool.loads[q]
  {
    var chosen := LeastLoaded(order, pool.loads);
    if chosen.None? {
      forall p | p in pool.loads ensures pool.loads[p] >= p.limit {
        var i :| 0 <= i < |order| && order[i] == p;
      }
    } else {
      assert Eligible(pool.loads, chosen.value);
    }
  }

  /** Errored returns, `count` times in a row. */
  function ReturnWithErrors(pool: Pool, proxy: DownloadProxy, count: nat): Pool
  {
    if count == 0 then pool else Return(ReturnWithErrors(pool, proxy, count - 1), proxy, true)
  }

  /**
   A pooled proxy with no error history survives errored returns while their number stays below
   its error limit (each one lowers its load and raises its count), and is evicted from both maps
   by the return that reaches the limit.
   */
  lemma {:induction false} EvictedAtErrorLimit(pool: Pool, proxy: DownloadProxy, count: nat)
    requires proxy in pool.loads && proxy !in pool.errors
    requires 1 <= count
    ensures count < proxy.errorLimit ==>
      var r := ReturnWithErrors(pool, proxy, count);
      proxy in r.loads && r.loads[proxy] == pool.loads[proxy] - count
      && proxy in r.errors && r.errors[proxy] == count
    ensures count == proxy.errorLimit || (count == 1 && proxy.errorLimit <= 1) ==>
      var r := ReturnWithErrors(pool, proxy, count);
      proxy !in r.loads && proxy !in r.errors
  {
    if count > 1 {
      EvictedAtErrorLimit(pool, proxy, count - 1);
    }
  }

  /** Once evicted, a proxy is never lent again. */
  lemma EvictedNeverBorrowed(pool: Pool, proxy: DownloadProxy, order: seq<DownloadProxy>)
    requires proxy !in pool.loads
    ensures Borrow(pool, order).1 != Some(proxy)
  {
  }

  // ---------------------------------------------------------------------------------------
  // Finding: Borrow never raises the load it checks against the limit.

  /**
   As written, a single proxy with limit 2 is lent three times in a row (and indefinitely):
   the capacity limit is never reached through borrowing.
   */
  lemma BorrowIgnoresCapacity(p: DownloadProxy)
    requires p.limit == 2
    ensures var pool := Pool(map[p := 0], map[]);
      var (p1, b1) := Borrow(pool, [p]);
      var (p2, b2) := Borrow(p1, [p]);
      var (p3, b3) := Borrow(p2, [p]);
      b1 == Some(p) && b2 == Some(p) && b3 == Some(p)
  {
  }

  /** Borrow with the increment the capacity rule calls for. */
  function BorrowCounted(pool: Pool, order: seq<DownloadProxy>): (r: (Pool, Option<DownloadProxy>))
    ensures r.0.errors == pool.errors
    ensures r.1.None? ==> r.0 == pool
    ensures r.1.Some? ==> (Eligible(pool.loads, r.1.value)
      && r.0.loads == pool.loads[r.1.value := pool.loads[r.1.value] + 1])
  {
    var chosen := LeastLoaded(order, pool.loads);
    if chosen.Some? then (pool.(loads := pool.loads[chosen.value := pool.loads[chosen.value] + 1]), chosen)
    else (pool, None)
  }

  /** No proxy is lent beyond its limit. */
  predicate WithinLimits(loads: map<DownloadProxy, int>) {
    forall p :: p in loads ==> loads[p] <= p.limit
  }

  /** The corrected borrow keeps every load within its limit. */
  lemma BorrowCountedWithinLimits(pool: Pool, order: seq<DownloadProxy>)
    requires WithinLimits(pool.loads)
    ensures WithinLimits(BorrowCounted(pool, order).0.loads)
  {
  }

  /** With the corrected borrow, a single proxy of limit 2 is lent twice and then refused. */
  lemma BorrowCountedCapacity(p: DownloadProxy)
    requires p.limit == 2
    ensures var pool := Pool(map[p := 0], map[]);
      var (p1, b1) := BorrowCounted(pool, [p]);
      var (p2, b2) := BorrowCounted(p1, [p]);
      var (p3, b3) := BorrowCounted(p2, [p]);
      b1 == Some(p) && b2 == Some(p) && b3 == None
  {
    var pool := Pool(map[p := 0], map[]);
    var (p1, b1) := BorrowCounted(pool, [p]);
    assert p1.loads == map[p := 1];
    var (p2, b2) := BorrowCounted(p1, [p]);
    assert p2.loads == map[p := 2];
  }
}
