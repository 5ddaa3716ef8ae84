/** The pool of local addresses that downloads are spread over.
  *
  * `log` is history: it belongs to no program variable.
  */
module IpPool {
  import opened Collections
  import opened IpBans
  import opened IpEntries
  import opened IpLeases
  import opened IpRefresh
  import opened Options

  /** A lease is for the entry in a place of the list, which has the address when the lease begins. */
  datatype Lease = Leased(place: nat, address: Address) | AllInUse | AllThrottled | ResourceLock

  /** The entry in this place has been leased, and no entry before it is free. */
  ghost predicate TakenAt(ips: seq<Entry>, j: nat, a: Address) {
    j < |ips| && ips[j].address == a && ips[j].inUse && !ips[j].throttled && forall k | 0 <= k < j :: !Free(ips[k])
  }

  method FreeUnthrottled(ips: seq<Entry>) returns (freed: seq<Entry>)
    ensures AllFreed(ips, freed)
  {
    freed := ips;
    for j := 0 to |ips|
      invariant |freed| == |ips|
      invariant forall k | 0 <= k < |ips| ::
                  freed[k] == if k >= j || ips[k].throttled then ips[k] else ips[k].(inUse := false)
    {
      if freed[j].throttled {
        continue;
      }
      freed := freed[j := freed[j].(inUse := false)];
    }
  }

  class Pool {
    var ips: seq<Entry>
    var generation: nat        // which list this is
    var timers: seq<Timer>     // of the bans that have not ended
    ghost var log: seq<Event>

    /** Holds of every pool, however the interfaces list the addresses. */
    ghost predicate Valid()
      reads this
    {
      BansAreRight(ips, timers, generation)
    }

    /** The addresses are distinct exactly if the interfaces list none twice. An address is there to be
      * leased as often as it is listed. */
    constructor (current: seq<Address>, now: int)
      ensures Valid() && ips == Refreshed([], current, now - 300) && log == [] && timers == [] && generation == 0
      ensures Addresses(ips) == Elements(current) && Busy(ips) == {} && Banned(ips) == {}
      ensures forall e | e in ips :: Free(e)
      ensures LeasesAreRight(ips, log) <==> OnlyKnownRepeat(current, {})
      ensures forall a :: Count(ips, FreeAt(a)) == multiset(current)[a]
    {
      ips, generation, timers := Refreshed([], current, now - 300), 0, [];
      log := [];
      new;
      RefreshIsRight([], current, now - 300);
      RefreshIsDistinctIff([], current, now - 300);
      forall a ensures Count(ips, FreeAt(a)) == multiset(current)[a] {
        RefreshedAsOftenAsListed([], current, now - 300, a);
      }
    }

    method NextIP(forVideo: string) returns (r: Lease)
      requires Valid()
      modifies this`ips, this`log
      ensures Valid() && Lost(ips, timers, generation) == old(Lost(ips, timers, generation))
      ensures !r.ResourceLock?
      ensures r == AllThrottled <==> forall e | e in old(ips) :: e.throttled
      ensures r == AllInUse <==> (exists e | e in old(ips) :: !e.throttled) && (forall e | e in old(ips) :: !Free(e))
      ensures r.Leased? ==>
                && LeasedFrom(old(ips), ips, r.address, forVideo) && TakenAt(ips, r.place, r.address)
                && log == old(log) + [Taken(r.address)]
      ensures !r.Leased? ==> multiset(ips) == multiset(old(ips)) && log == old(log)
      ensures Sorted(ips) && |ips| == |old(ips)|
      ensures old(LeasesAreRight(ips, log)) ==> LeasesAreRight(ips, log) && SameAddresses(old(ips), ips)
      ensures old(LeasesAreRight(ips, log)) && r.Leased? ==>
                r.address in Open(ips) - old(Busy(ips)) && Busy(ips) == old(Busy(ips)) + {r.address}
      ensures old(LeasesAreRight(ips, log)) && !r.Leased? ==> Busy(ips) == old(Busy(ips))
    {
      SortInPlace();
      SameElements(old(ips), ips);
      var throttled := AllThrottledIn(ips);
      if throttled {
        return AllThrottled;
      }
      var inUse := AllInUseIn(ips);
      if inUse {
        return AllInUse;
      }
      var j := FirstFree(ips);
      if j == |ips| {
        return ResourceLock;
      }
      r := Take(old(ips), j, forVideo);
    }

    /** What a client of the lease of this place gets to see, once the pool is unlocked again. */
    function Read(place: nat): Address
      requires place < |ips|
      reads this
    {
      ips[place].address
    }

    method SortInPlace()
      requires Valid()
      modifies this`ips
      ensures Sorted(ips) && multiset(ips) == multiset(old(ips)) && |ips| == |old(ips)|
      ensures Valid() && Lost(ips, timers, generation) == old(Lost(ips, timers, generation))
      ensures SameAddresses(old(ips), ips) && Busy(ips) == old(Busy(ips)) && (old(Distinct(ips)) ==> Distinct(ips))
    {
      var sorted := SortByLastUse(ips);
      assert |multiset(sorted)| == |sorted| && |multiset(ips)| == |ips|;
      SortedSets(ips, sorted);
      CountPermuted(ips, sorted, Throttled);
      ips := sorted;
    }

    /** Marks an entry of the sorted list as leased. */
    method Take(ghost before: seq<Entry>, j: nat, forVideo: string) returns (r: Lease)
      requires Valid() && multiset(before) == multiset(ips) && Sorted(ips) && j < |ips|
      requires LeastRecentlyUsed(ips, ips[j]) && forall k | 0 <= k < j :: !Free(ips[k])
      modifies this`ips, this`log
      ensures Valid() && Lost(ips, timers, generation) == old(Lost(ips, timers, generation))
      ensures r == Leased(j, old(ips)[j].address) && TakenAt(ips, j, r.address)
      ensures LeasedFrom(before, ips, r.address, forVideo) && log == old(log) + [Taken(r.address)]
      ensures Sorted(ips) && |ips| == |old(ips)|
      ensures old(LeasesAreRight(ips, log)) ==>
                && LeasesAreRight(ips, log) && SameAddresses(old(ips), ips)
                && r.address in Open(ips) - old(Busy(ips)) && Busy(ips) == old(Busy(ips)) + {r.address}
    {
      var e := InUseFor(ips[j], forVideo);
      LeaseIsRight(before, ips, j, forVideo);
      CountUpdated(ips, j, e, Throttled);
      if Distinct(ips) {
        LeasedSets(ips, j, forVideo);
      }
      OneMoreEvent(log, Taken(e.address));
      ips := ips[j := e];
      log := log + [Taken(e.address)];
      r := Leased(j, e.address);
    }

    method ReleaseIP(ip: Address, now: int)
      requires Valid()
      modifies this`ips, this`log
      ensures Valid() && Lost(ips, timers, generation) == old(Lost(ips, timers, generation))
      ensures ips == AfterRelease(old(ips), ip, now) && log == old(log) + [Released(ip)]
      ensures old(LeasesAreRight(ips, log)) ==>
                LeasesAreRight(ips, log) && SameAddresses(old(ips), ips) && Busy(ips) == old(Busy(ips)) - {ip}
    {
      if Distinct(ips) {
        ReleasedSets(ips, ip, now);
      }
      ReleaseCounts(ips, ip, now);
      OneMoreEvent(log, Released(ip));
      log := log + [Released(ip)];
      var j := PlaceOf(ip);
      if j < |ips| {
        ips := ips[j := ips[j].(inUse := false, lastUse := now)];
      }
    }

    /** The scan for the first entry of an address. */
    method PlaceOf(ip: Address) returns (j: nat)
      ensures j == Find(ips, ip)
    {
      j := 0;
      while j < |ips| && ips[j].address != ip
        invariant j <= |ips| && forall k | 0 <= k < j :: ips[k].address != ip
      {
        j := j + 1;
      }
      FindIsFirst(ips, ip, j);
    }

    method ReleaseAll()
      requires Valid()
      modifies this`ips, this`log
      ensures Valid() && Lost(ips, timers, generation) == old(Lost(ips, timers, generation))
      ensures AllFreed(old(ips), ips) && log == old(log) + [Freed(old(Open(ips)))]
      ensures old(LeasesAreRight(ips, log)) ==>
                LeasesAreRight(ips, log) && SameAddresses(old(ips), ips) && Busy(ips) == old(Busy(ips)) - old(Open(ips))
    {
      var freed := FreeUnthrottled(ips);
      FreedSets(ips, freed);
      OneMoreEvent(log, Freed(Open(ips)));
      log := log + [Freed(Open(ips))];
      ips := freed;
    }

    /** Throttles the first entry of the address, and starts a timer unless it was throttled already. */
    method SetThrottled(ip: Address)
      requires Valid()
      modifies this`ips, this`timers
      ensures Valid() && Lost(ips, timers, generation) == old(Lost(ips, timers, generation))
      ensures ips == AfterBan(old(ips), ip) && timers == TimersAfterBan(old(ips), old(timers), generation, ip)
      ensures old(LeasesAreRight(ips, log)) ==>
                && LeasesAreRight(ips, log) && Addresses(ips) == old(Addresses(ips)) && Busy(ips) == old(Busy(ips))
                && Open(ips) == old(Open(ips)) - {ip}
    {
      if Distinct(ips) {
        BannedSets(ips, ip);
      }
      BanKeepsRight(ips, timers, generation, ip);
      var j := PlaceOf(ip);
      var place := None;
      if j < |ips| {
        if ips[j].throttled {
          assert ips[j := ips[j].(throttled := true)] == ips;
          return;
        }
        ips := ips[j := ips[j].(throttled := true)];
        place := Some(j);
      }
      timers := timers + [Timer(generation, place, ip)];
    }

    /** A ban ends: its timer clears the flag of the entry that is in its place by now, in the list it
      * was started in. A timer without a place has nothing to clear and panics. */
    method Unban(k: nat) returns (panics: bool)
      requires Valid() && k < |timers|
      modifies this`ips, this`timers
      ensures Valid() && timers == Without(old(timers), k) && (panics <==> old(timers)[k].place.None?)
      ensures Fits(old(timers)[k], generation, |old(ips)|) && ips == AfterTimer(old(ips), old(timers)[k], generation)
      ensures Lost(ips, timers, generation)
           == old(Lost(ips, timers, generation)) + (if EndsOnAnother(old(ips), old(timers)[k], generation) then 1 else 0)
      ensures old(LeasesAreRight(ips, log)) ==>
                LeasesAreRight(ips, log) && Busy(ips) == old(Busy(ips)) && Addresses(ips) == old(Addresses(ips))
    {
      var t := timers[k];
      TimerKeepsRight(ips, timers, generation, k);
      if Distinct(ips) {
        TimerSets(ips, t, generation);
      }
      timers := Without(timers, k);
      if t.place.None? {
        return true;
      }
      if t.generation == generation {
        ips := ips[t.place.value := ips[t.place.value].(throttled := false)];
      }
      return false;
    }

    /** `current` is what the network interfaces have now, unless asking them failed. Every ban that is in
      * force in the new list is lost. */
    method UpdateIps(current: Option<seq<Address>>, now: int) returns (ok: bool)
      requires Valid()
      modifies this
      ensures Valid() && (ok <==> current.Some?) && timers == old(timers)
      ensures !ok ==> ips == old(ips) && log == old(log) && generation == old(generation)
      ensures ok ==> ips == Refreshed(old(ips), current.value, now - 300) && generation == old(generation) + 1
      ensures ok ==> log == old(log) + [Dropped(old(Addresses(ips)) - Elements(current.value))]
      ensures ok ==> Lost(ips, timers, generation) == Count(ips, Throttled)
      ensures ok && old(LeasesAreRight(ips, log)) ==>
                (LeasesAreRight(ips, log) <==> OnlyKnownRepeat(current.value, old(Addresses(ips))))
    {
      if current.None? {
        return false;
      }
      Refresh(current.value, now);
      return true;
    }

    method Refresh(current: seq<Address>, now: int)
      requires Valid()
      modifies this
      ensures Valid() && timers == old(timers) && generation == old(generation) + 1
      ensures ips == Refreshed(old(ips), current, now - 300)
      ensures log == old(log) + [Dropped(old(Addresses(ips)) - Elements(current))]
      ensures Lost(ips, timers, generation) == Count(ips, Throttled)
      ensures old(LeasesAreRight(ips, log)) ==>
                (LeasesAreRight(ips, log) <==> OnlyKnownRepeat(current, old(Addresses(ips))))
    {
      if LeasesAreRight(ips, log) {
        RefreshKeepsLeases(ips, current, now - 300, log);
      }
      var newIps := AsSet(current);
      var refreshed, oldIps := KeepCurrent(ips, newIps);
      refreshed := AddNew(refreshed, current, oldIps, now - 300);
      RefreshLosesBans(ips, refreshed, timers, generation);
      log := log + [Dropped(oldIps - newIps)];
      ips, generation := refreshed, generation + 1;
    }
  }

  lemma RefreshKeepsLeases(ips: seq<Entry>, current: seq<Address>, time: int, log: seq<Event>)
    requires LeasesAreRight(ips, log)
    ensures LeasesAreRight(Refreshed(ips, current, time), log + [Dropped(Addresses(ips) - Elements(current))])
       <==> OnlyKnownRepeat(current, Addresses(ips))
  {
    RefreshIsRight(ips, current, time);
    RefreshIsDistinctIff(ips, current, time);
    OneMoreEvent(log, Dropped(Addresses(ips) - Elements(current)));
    forall a | a in Busy(ips) ensures a in Addresses(ips) {
      IsThere(ips, InUse, a);
    }
  }
}
