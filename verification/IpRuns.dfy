/** Runs of the address pool: what comes of addresses that are listed more than once, of timers that hold
  * on to places, and of leases that are read after the lock is given back.
  */
module IpRuns {
  import opened IpBans
  import opened IpEntries
  import opened IpLeases
  import opened IpPool
  import opened IpRefresh
  import opened Options

  // Addresses that are listed more than once

  function AllTaken(leases: seq<Address>): seq<Event> {
    if leases == [] then [] else AllTaken(leases[..|leases| - 1]) + [Taken(leases[|leases| - 1])]
  }

  lemma OneMoreTaken(log: seq<Event>, leases: seq<Address>, a: Address)
    ensures log + AllTaken(leases + [a]) == log + AllTaken(leases) + [Taken(a)]
  {
    assert (leases + [a])[..|leases|] == leases;
  }

  /** Leases what there is, and gives nothing back. An address is leased once for each of its free
    * entries. */
  method LeaseAll(pool: Pool, ghost a: Address) returns (leases: seq<Address>)
    requires pool.Valid()
    modifies pool`ips, pool`log
    ensures pool.Valid() && pool.log == old(pool.log) + AllTaken(leases)
    ensures multiset(leases)[a] == old(Count(pool.ips, FreeAt(a)))
    ensures forall e | e in pool.ips :: !Free(e)
  {
    leases := [];
    ghost var log := pool.log;
    assert log + [] == log;
    while true
      invariant pool.Valid() && pool.log == log + AllTaken(leases)
      invariant multiset(leases)[a] + Count(pool.ips, FreeAt(a)) == old(Count(pool.ips, FreeAt(a)))
      decreases Count(pool.ips, Free)
    {
      ghost var before := pool.ips;
      var lease := pool.NextIP("");
      if !lease.Leased? {
        SameElements(before, pool.ips);
        CountPermuted(before, pool.ips, FreeAt(a));
        NoneCounted(pool.ips, FreeAt(a));
        return;
      }
      LeaseCounts(before, pool.ips, lease.address, "", a);
      OneMoreTaken(log, leases, lease.address);
      leases := leases + [lease.address];
    }
  }

  /** A new pool leases every address as often as the interfaces list it, with no release in between. */
  method LeasedAsOftenAsListed(current: seq<Address>, now: int, ghost a: Address) returns (pool: Pool, leases: seq<Address>)
    ensures fresh(pool) && pool.log == AllTaken(leases)
    ensures multiset(leases)[a] == multiset(current)[a]
  {
    pool := new Pool(current, now);
    leases := LeaseAll(pool, a);
    assert [] + AllTaken(leases) == AllTaken(leases);
  }

  /** And so does a pool after a refresh, for an address that it did not have. */
  method NewlyLeasedAsOftenAsListed(pool: Pool, current: seq<Address>, now: int, ghost a: Address)
    returns (leases: seq<Address>, ghost gone: set<Address>)
    requires pool.Valid() && a !in Addresses(pool.ips)
    modifies pool
    ensures pool.log == old(pool.log) + [Dropped(gone)] + AllTaken(leases)
    ensures multiset(leases)[a] == multiset(current)[a]
  {
    RefreshedAsOftenAsListed(pool.ips, current, now - 300, a);
    gone := Addresses(pool.ips) - Elements(current);
    var ok := pool.UpdateIps(Some(current), now);
    leases := LeaseAll(pool, a);
  }

  // Bans that are never lifted

  lemma AddedOneMore(current: seq<Address>, a: Address, time: int)
    ensures Added(current + [a], {}, time) == Added(current, {}, time) + [NewEntry(a, time)]
  {
    assert (current + [a])[..|current|] == current;
  }

  lemma NewList(a: Address, b: Address, time: int)
    ensures Refreshed([], [a], time) == [NewEntry(a, time)]
    ensures Refreshed([], [a, b], time) == [NewEntry(a, time), NewEntry(b, time)]
  {
    AddedOneMore([], a, time);
    AddedOneMore([a], b, time);
    assert [] + [a] == [a] && [a] + [b] == [a, b];
    assert Added([], {}, time) == [];
  }

  lemma SameList(e: Entry, time: int)
    ensures Refreshed([e], [e.address], time) == [e]
  {
    WhereOneMore([], e, Any);
    assert [] + [e] == [e] && e.address in Addresses([e]);
    assert [e][..0] == [] && [e.address][..0] == [];
    assert Surviving([e], Elements([e.address])) == Surviving([], Elements([e.address])) + [e];
    assert Added([e.address], Addresses([e]), time) == Added([], Addresses([e]), time);
  }

  lemma OneThrottled(e: Entry)
    requires e.throttled
    ensures Count([e], Throttled) == 1 && Open([e]) == {} && Banned([e]) == {e.address}
  {
    CountOneMore([], e, Throttled);
    WhereOneMore([], e, Unthrottled);
    WhereOneMore([], e, Throttled);
    assert [] + [e] == [e];
  }

  method BanAndRefresh(a: Address, now: int) returns (pool: Pool)
    ensures fresh(pool) && pool.Valid() && pool.ips == [Entry(a, "", now - 300, true, false)]
    ensures pool.timers == [Timer(0, Some(0), a)] && pool.generation == 1
  {
    NewList(a, a, now - 300);
    pool := new Pool([a], now);
    ghost var e := Entry(a, "", now - 300, true, false);
    assert pool.ips[0].address == a && Find(pool.ips, a) == 0;
    pool.SetThrottled(a);
    assert pool.ips == [e];
    SameList(e, now - 300);
    var ok := pool.UpdateIps(Some([a]), now);
  }

  /** The only address is banned, and the list is refreshed with no change. When the timer has ended, the
    * address is still throttled, and no timer is left. */
  method LostByARefresh(a: Address, now: int) returns (pool: Pool)
    ensures pool.Valid() && pool.timers == [] && Banned(pool.ips) == {a} && Open(pool.ips) == {}
    ensures Lost(pool.ips, pool.timers, pool.generation) == |pool.ips|
  {
    pool := BanAndRefresh(a, now);
    OneThrottled(pool.ips[0]);
    var panics := pool.Unban(0);
  }

  // Two addresses

  /** The list has two addresses, and the one of `x` was used longer ago. */
  ghost predicate IsPair(ips: seq<Entry>, x: Entry, y: Entry) {
    (ips == [x, y] || ips == [y, x]) && x.lastUse < y.lastUse && x.address != y.address
  }

  /** What the lease of an entry says of the list before and after. */
  ghost predicate Fitting(before: seq<Entry>, after: seq<Entry>, r: Lease, e: Entry) {
    && Sorted(after) && |after| == |before|
    && if r.Leased? then
         && LeastRecentlyUsed(before, e) && e.address == r.address
         && Replaced(before, after, e, InUseFor(e, "")) && TakenAt(after, r.place, e.address)
       else forall f | f in before :: f in after && !Free(f)
  }

  method LeaseOne(pool: Pool) returns (r: Lease, ghost e: Entry)
    requires pool.Valid() && Distinct(pool.ips)
    modifies pool`ips, pool`log
    ensures pool.Valid() && Lost(pool.ips, pool.timers, pool.generation) == old(Lost(pool.ips, pool.timers, pool.generation))
    ensures Fitting(old(pool.ips), pool.ips, r, e)
  {
    ghost var before := pool.ips;
    r := pool.NextIP("");
    if r.Leased? {
      e := LeasedEntry(before, pool.ips, r.address, "");
    } else {
      SameElements(before, pool.ips);
      e := *;
    }
  }

  method LeaseOfTwo(pool: Pool, ghost x: Entry, ghost y: Entry) returns (r: Lease)
    requires pool.Valid() && IsPair(pool.ips, x, y)
    modifies pool`ips, pool`log
    ensures pool.Valid() && Lost(pool.ips, pool.timers, pool.generation) == old(Lost(pool.ips, pool.timers, pool.generation))
    ensures if Free(x) then r == Leased(0, x.address) && pool.ips == [InUseFor(x, ""), y]
            else if Free(y) then r == Leased(1, y.address) && pool.ips == [x, InUseFor(y, "")]
            else !r.Leased? && pool.ips == [x, y]
  {
    ghost var before := pool.ips;
    ghost var e;
    r, e := LeaseOne(pool);
    LeasedOfTwo(before, pool.ips, x, y, r, e);
  }

  lemma PairInOrder(s: seq<Entry>, x: Entry, y: Entry)
    requires |s| == 2 && x in s && y in s && Sorted(s) && x.lastUse < y.lastUse
    ensures s == [x, y]
  {
    assert s == [s[0], s[1]];
  }

  lemma LeasedOfTwo(before: seq<Entry>, after: seq<Entry>, x: Entry, y: Entry, r: Lease, e: Entry)
    requires IsPair(before, x, y) && Fitting(before, after, r, e)
    ensures if Free(x) then r == Leased(0, x.address) && after == [InUseFor(x, ""), y]
            else if Free(y) then r == Leased(1, y.address) && after == [x, InUseFor(y, "")]
            else !r.Leased? && after == [x, y]
  {
    assert x in before && y in before;
    if !r.Leased? {
      PairInOrder(after, x, y);
    } else if Free(x) {
      assert e == x && InUseFor(x, "") in after && y in after;
      PairInOrder(after, InUseFor(x, ""), y);
    } else {
      assert e == y && InUseFor(y, "") in after && x in after;
      PairInOrder(after, x, InUseFor(y, ""));
    }
  }

  /** The first lease of a new pool is for its first place, whatever address the sort puts there. */
  method NewPoolOfTwo(a: Address, b: Address, now: int) returns (pool: Pool, r: Lease, ghost x: Entry, ghost y: Entry)
    requires a != b
    ensures fresh(pool) && pool.Valid() && pool.timers == [] && pool.generation == 0 && pool.ips == [InUseFor(x, ""), y]
    ensures Lost(pool.ips, pool.timers, pool.generation) == 0
    ensures r == Leased(0, x.address) && x.address in {a, b} && y.address in {a, b} && x.address != y.address
    ensures x == NewEntry(x.address, now - 300) && y == NewEntry(y.address, now - 300)
  {
    NewList(a, b, now - 300);
    pool := new Pool([a, b], now);
    ghost var before := pool.ips;
    ghost var e;
    assert Lost(pool.ips, pool.timers, pool.generation) == 0 by {
      NoneCounted(pool.ips, Throttled);
    }
    assert before == [NewEntry(a, now - 300), NewEntry(b, now - 300)];
    assert before[0] in before && Free(before[0]);
    r, e := LeaseOne(pool);
    x := e;
    y := if e == before[0] then before[1] else before[0];
    LeasedOfNew(before, pool.ips, x, y, r);
  }

  lemma LeasedOfNew(before: seq<Entry>, after: seq<Entry>, x: Entry, y: Entry, r: Lease)
    requires (before == [x, y] || before == [y, x]) && x.address != y.address && Free(x) && Free(y)
    requires Fitting(before, after, r, x)
    ensures r == Leased(0, x.address) && after == [InUseFor(x, ""), y]
  {
    assert x in before && y in before;
    assert InUseFor(x, "") in after && y in after;
    assert after == [after[0], after[1]];
  }

  function Used(a: Address, time: int, throttled: bool): Entry {
    Entry(a, "", time, throttled, false)
  }

  /** A lease of the first place of two ends. */
  method ReleaseFirst(pool: Pool, ghost a: Entry, ghost b: Entry, ip: Address, now: int)
    requires pool.Valid() && pool.ips == [InUseFor(a, ""), b] && ip == a.address && a == Used(ip, a.lastUse, false)
    modifies pool`ips, pool`log
    ensures pool.Valid() && Lost(pool.ips, pool.timers, pool.generation) == old(Lost(pool.ips, pool.timers, pool.generation))
    ensures pool.ips == [Used(ip, now, false), b]
  {
    assert pool.ips[0].address == ip && Find(pool.ips, ip) == 0;
    pool.ReleaseIP(ip, now);
  }

  /** It ends, and its address is banned. */
  method ReleaseAndBan(pool: Pool, ghost a: Entry, ghost b: Entry, ip: Address, now: int)
    requires pool.Valid() && pool.ips == [InUseFor(a, ""), b] && ip == a.address && a == Used(ip, a.lastUse, false)
    modifies pool
    ensures pool.Valid() && Lost(pool.ips, pool.timers, pool.generation) == old(Lost(pool.ips, pool.timers, pool.generation))
    ensures pool.ips == [Used(ip, now, true), b] && pool.generation == old(pool.generation)
    ensures pool.timers == old(pool.timers) + [Timer(pool.generation, Some(0), ip)]
  {
    ReleaseFirst(pool, a, b, ip, now);
    assert pool.ips[0].address == ip && Find(pool.ips, ip) == 0;
    pool.SetThrottled(ip);
  }

  /** Two addresses are banned, each while it is in the first place, with no refresh. Both timers end on
    * the first place, and the address that is not there any more stays throttled, with no timer left. */
  method LostByASort(a: Address, b: Address, now: int) returns (pool: Pool, stuck: Address)
    requires a != b
    ensures pool.Valid() && pool.timers == [] && pool.generation == 0
    ensures stuck in {a, b} && stuck in Banned(pool.ips) && Lost(pool.ips, pool.timers, pool.generation) == 1
  {
    var first;
    ghost var x, y;
    pool, first, x, y := NewPoolOfTwo(a, b, now);
    ReleaseAndBan(pool, x, y, first.address, now);
    ghost var x1 := Used(first.address, now, true);
    var second := LeaseOfTwo(pool, y, x1);
    ReleaseAndBan(pool, y, x1, second.address, now + 1);
    stuck := second.address;
    ghost var y1 := Used(stuck, now + 1, true);
    var third := LeaseOfTwo(pool, x1, y1);
    UnbanBoth(pool, x1, y1);
  }

  method UnbanBoth(pool: Pool, ghost x: Entry, ghost y: Entry)
    requires pool.Valid() && pool.ips == [x, y] && x.throttled && y.throttled
    requires pool.timers == [Timer(pool.generation, Some(0), x.address), Timer(pool.generation, Some(0), y.address)]
    requires Lost(pool.ips, pool.timers, pool.generation) == 0
    modifies pool`ips, pool`timers
    ensures pool.Valid() && pool.timers == [] && y.address in Banned(pool.ips)
    ensures Lost(pool.ips, pool.timers, pool.generation) == 1
  {
    var panics := pool.Unban(0);
    assert pool.ips == [x.(throttled := false), y];
    assert pool.timers == [Timer(pool.generation, Some(0), y.address)];
    panics := pool.Unban(0);
    assert pool.ips == [x.(throttled := false), y] && pool.ips[1] == y;
    WhereHas(pool.ips, Throttled, y.address);
  }

  // Leases that are read late

  /** Three clients share two addresses. The second has not read its lease when the first gives its
    * address back; the third then gets that address, and the sort moves it to the place of the second.
    * Both read the same address. */
  method SameAddressForTwo(a: Address, b: Address, now: int) returns (pool: Pool, second: Lease, third: Lease)
    requires a != b
    ensures second.Leased? && third.Leased? && second.address != third.address
    ensures second.place < |pool.ips| && third.place < |pool.ips|
    ensures pool.Read(second.place) == third.address && pool.Read(third.place) == third.address
  {
    var first;
    ghost var x, y;
    pool, first, x, y := NewPoolOfTwo(a, b, now);
    ReleaseFirst(pool, x, y, first.address, now);
    ghost var x1 := Used(first.address, now, false);
    var other := LeaseOfTwo(pool, y, x1);
    ReleaseFirst(pool, y, x1, other.address, now + 1);
    ghost var y1 := Used(other.address, now + 1, false);
    first := LeaseOfTwo(pool, x1, y1);
    second, third := FirstEndsMeanwhile(pool, x1, y1, first.address, now + 2);
  }

  method FirstEndsMeanwhile(pool: Pool, ghost x: Entry, ghost y: Entry, ip: Address, now: int) returns (second: Lease, third: Lease)
    requires pool.Valid() && pool.ips == [InUseFor(x, ""), y] && x == Used(ip, x.lastUse, false) && Free(y)
    requires x.lastUse < y.lastUse < now && y.address != ip
    modifies pool`ips, pool`log
    ensures second == Leased(1, y.address) && third == Leased(1, ip) && |pool.ips| == 2 && pool.ips[1].address == ip
  {
    second := LeaseOfTwo(pool, InUseFor(x, ""), y);
    ReleaseFirst(pool, x, InUseFor(y, ""), ip, now);
    third := LeaseOfTwo(pool, InUseFor(y, ""), Used(ip, now, false));
  }
}
