/** Leases of addresses, and what happens to them over time. */
module IpLeases {
  import opened IpEntries

  /** What happens to leases. `Freed` and `Dropped` say which addresses lost theirs without a release. */
  datatype Event = Taken(address: Address) | Released(address: Address) | Freed(addresses: set<Address>) | Dropped(addresses: set<Address>)

  // Taking a lease

  ghost predicate Swapped(before: seq<Entry>, after: seq<Entry>, e: Entry, f: Entry) {
    multiset(after) == multiset(before) - multiset{e} + multiset{f}
  }

  function InUseFor(e: Entry, forVideo: string): Entry {
    e.(inUse := true, usedFor := forVideo)
  }

  /** The pool `after` is a reordering of `before`, but for one entry: it was free and used least
    * recently, and is now in use. */
  ghost predicate LeasedFrom(before: seq<Entry>, after: seq<Entry>, a: Address, forVideo: string) {
    exists e :: LeastRecentlyUsed(before, e) && e.address == a && Swapped(before, after, e, InUseFor(e, forVideo))
  }

  lemma LeaseIsRight(ips: seq<Entry>, sorted: seq<Entry>, j: nat, forVideo: string)
    requires multiset(ips) == multiset(sorted) && Sorted(sorted)
    requires j < |sorted| && LeastRecentlyUsed(sorted, sorted[j])
    ensures var t := sorted[j := InUseFor(sorted[j], forVideo)];
            LeasedFrom(ips, t, sorted[j].address, forVideo) && Sorted(t)
  {
    var e := sorted[j];
    SameElements(ips, sorted);
    assert LeastRecentlyUsed(ips, e);
    assert Swapped(ips, sorted[j := InUseFor(e, forVideo)], e, InUseFor(e, forVideo));
  }

  lemma CountSwapped(before: seq<Entry>, after: seq<Entry>, e: Entry, f: Entry, p: Entry -> bool)
    requires e in before && Swapped(before, after, e, f)
    ensures Count(after, p) == Count(before, p) - (if p(e) then 1 else 0) + (if p(f) then 1 else 0)
  {
    assert multiset(after + [e]) == multiset(before + [f]);
    CountPermuted(after + [e], before + [f], p);
    CountOneMore(after, e, p);
    CountOneMore(before, f, p);
  }

  ghost predicate Replaced(before: seq<Entry>, after: seq<Entry>, e: Entry, f: Entry) {
    forall g :: g in after <==> g == f || (g in before && g != e)
  }

  lemma SwappedIsReplaced(before: seq<Entry>, after: seq<Entry>, e: Entry, f: Entry)
    requires Distinct(before) && e in before && Swapped(before, after, e, f)
    ensures Replaced(before, after, e, f)
  {
    DistinctCountsOnce(before, e);
    forall g ensures g in after <==> g == f || (g in before && g != e) {
      assert g in after <==> multiset(after)[g] > 0;
      assert g in before <==> multiset(before)[g] > 0;
      assert multiset(before)[e] > 0;
    }
  }

  lemma LeasedEntry(before: seq<Entry>, after: seq<Entry>, a: Address, forVideo: string) returns (e: Entry)
    requires Distinct(before) && LeasedFrom(before, after, a, forVideo)
    ensures LeastRecentlyUsed(before, e) && e.address == a && Replaced(before, after, e, InUseFor(e, forVideo))
  {
    e :| LeastRecentlyUsed(before, e) && e.address == a && Swapped(before, after, e, InUseFor(e, forVideo));
    SwappedIsReplaced(before, after, e, InUseFor(e, forVideo));
  }

  /** A lease takes one from the free entries, and one from the free entries of its address. */
  lemma LeaseCounts(before: seq<Entry>, after: seq<Entry>, a: Address, forVideo: string, b: Address)
    requires LeasedFrom(before, after, a, forVideo)
    ensures Count(after, Free) == Count(before, Free) - 1
    ensures Count(after, FreeAt(b)) == Count(before, FreeAt(b)) - (if a == b then 1 else 0)
    ensures Count(after, Throttled) == Count(before, Throttled)
  {
    var e :| LeastRecentlyUsed(before, e) && e.address == a && Swapped(before, after, e, InUseFor(e, forVideo));
    CountSwapped(before, after, e, InUseFor(e, forVideo), Free);
    CountSwapped(before, after, e, InUseFor(e, forVideo), FreeAt(b));
    CountSwapped(before, after, e, InUseFor(e, forVideo), Throttled);
  }

  /** The same addresses, open and banned as before. */
  ghost predicate SameAddresses(before: seq<Entry>, after: seq<Entry>) {
    Addresses(after) == Addresses(before) && Open(after) == Open(before) && Banned(after) == Banned(before)
  }

  lemma SortedSets(ips: seq<Entry>, sorted: seq<Entry>)
    requires multiset(ips) == multiset(sorted)
    ensures SameAddresses(ips, sorted) && Busy(sorted) == Busy(ips) && (Distinct(ips) ==> Distinct(sorted))
  {
    WherePermuted(ips, sorted, Any);
    WherePermuted(ips, sorted, Unthrottled);
    WherePermuted(ips, sorted, Throttled);
    WherePermuted(ips, sorted, InUse);
    if Distinct(ips) {
      PermutationKeepsDistinct(ips, sorted);
    }
  }

  lemma LeasedSets(ips: seq<Entry>, j: nat, forVideo: string)
    requires Distinct(ips) && j < |ips| && Free(ips[j])
    ensures var t := ips[j := InUseFor(ips[j], forVideo)];
            && Distinct(t) && SameAddresses(ips, t)
            && ips[j].address in Open(ips) - Busy(ips) && Busy(t) == Busy(ips) + {ips[j].address}
  {
    FlagsStay(ips, j, InUseFor(ips[j], forVideo));
    EntryAt(ips, j, Unthrottled);
    EntryAt(ips, j, InUse);
  }

  /** An entry is leased or released: only its own address joins or leaves those in use. */
  lemma FlagsStay(ips: seq<Entry>, j: nat, e: Entry)
    requires Distinct(ips) && j < |ips| && e.address == ips[j].address && e.throttled == ips[j].throttled
    ensures var t := ips[j := e];
            && Distinct(t) && SameAddresses(ips, t)
            && Busy(t) == if e.inUse then Busy(ips) + {e.address} else Busy(ips) - {e.address}
  {
    WhereUpdated(ips, j, e, Any);
    EntryAt(ips, j, Any);
    WhereUpdated(ips, j, e, Unthrottled);
    EntryAt(ips, j, Unthrottled);
    WhereUpdated(ips, j, e, Throttled);
    EntryAt(ips, j, Throttled);
    WhereUpdated(ips, j, e, InUse);
  }

  // Giving a lease back

  function AfterRelease(ips: seq<Entry>, a: Address, now: int): seq<Entry> {
    var j := Find(ips, a);
    if j < |ips| then ips[j := ips[j].(inUse := false, lastUse := now)] else ips
  }

  lemma ReleasedSets(ips: seq<Entry>, a: Address, now: int)
    requires Distinct(ips)
    ensures var t := AfterRelease(ips, a, now); Distinct(t) && SameAddresses(ips, t) && Busy(t) == Busy(ips) - {a}
  {
    var j := Find(ips, a);
    if j < |ips| {
      FlagsStay(ips, j, ips[j].(inUse := false, lastUse := now));
    } else {
      WhereHas(ips, InUse, a);
    }
  }

  /** An address is no longer in use after its release exactly if no entry but its first was. */
  lemma ReleasedIff(ips: seq<Entry>, a: Address, now: int)
    ensures a in Busy(AfterRelease(ips, a, now)) <==> exists k :: Find(ips, a) < k < |ips| && ips[k].address == a && InUse(ips[k])
  {
    var j := Find(ips, a);
    if j < |ips| {
      FirstLosesIt(ips, j, ips[j].(inUse := false, lastUse := now), InUse);
    } else {
      WhereHas(ips, InUse, a);
    }
  }

  /** A release adds at most one to the free entries, and leaves the first entry of its address not in
    * use. */
  lemma ReleaseCounts(ips: seq<Entry>, a: Address, now: int)
    ensures var j, t := Find(ips, a), AfterRelease(ips, a, now);
            && |t| == |ips| && Find(t, a) == j
            && Count(t, Throttled) == Count(ips, Throttled)
            && (j < |ips| ==> !t[j].inUse && t[j].throttled == ips[j].throttled)
            && Count(t, Free) == Count(ips, Free) + (if j < |ips| && ips[j].inUse && !ips[j].throttled then 1 else 0)
  {
    var j, t := Find(ips, a), AfterRelease(ips, a, now);
    FindIsFirst(t, a, j);
    if j < |ips| {
      CountUpdated(ips, j, ips[j].(inUse := false, lastUse := now), Throttled);
      CountUpdated(ips, j, ips[j].(inUse := false, lastUse := now), Free);
    }
  }

  /** All leases of unthrottled addresses end. */
  ghost predicate AllFreed(before: seq<Entry>, after: seq<Entry>) {
    |after| == |before| && forall k | 0 <= k < |after| ::
      after[k] == if before[k].throttled then before[k] else before[k].(inUse := false)
  }

  lemma {:induction false} FreedWhere(before: seq<Entry>, after: seq<Entry>, p: Entry -> bool)
    requires |after| == |before| && forall k | 0 <= k < |after| :: after[k].address == before[k].address && p(after[k]) == p(before[k])
    ensures Where(after, p) == Where(before, p) && Count(after, p) == Count(before, p)
  {
    if before != [] {
      FreedWhere(before[..|before| - 1], after[..|after| - 1], p);
    }
  }

  lemma {:induction false} FreedBusy(before: seq<Entry>, after: seq<Entry>)
    requires Distinct(before) && AllFreed(before, after)
    ensures Busy(after) == Busy(before) - Open(before)
  {
    forall a ensures a in Busy(after) <==> a in Busy(before) - Open(before) {
      WhereHas(after, InUse, a);
      WhereHas(before, InUse, a);
      if a in Busy(after) {
        var k :| 0 <= k < |after| && InUse(after[k]) && after[k].address == a;
        assert before[k] in before;
        EntryAt(before, k, Unthrottled);
      }
      if a in Busy(before) - Open(before) {
        var k :| 0 <= k < |before| && InUse(before[k]) && before[k].address == a;
        EntryAt(before, k, Unthrottled);
        assert after[k] in after;
      }
    }
  }

  lemma FreedSets(before: seq<Entry>, after: seq<Entry>)
    requires AllFreed(before, after)
    ensures SameAddresses(before, after) && Count(after, Throttled) == Count(before, Throttled)
    ensures Distinct(before) ==> Distinct(after) && Busy(after) == Busy(before) - Open(before)
  {
    FreedWhere(before, after, Any);
    FreedWhere(before, after, Unthrottled);
    FreedWhere(before, after, Throttled);
    if Distinct(before) {
      FreedBusy(before, after);
    }
  }

  // Leases over time

  function AfterEvent(held: set<Address>, e: Event): set<Address> {
    match e
    case Taken(a) => held + {a}
    case Released(a) => held - {a}
    case Freed(s) => held - s
    case Dropped(s) => held - s
  }

  /** The addresses taken and not yet released, freed or dropped. */
  function Holding(log: seq<Event>): set<Address> {
    if log == [] then {} else AfterEvent(Holding(log[..|log| - 1]), log[|log| - 1])
  }

  /** No address is taken while it is held. */
  predicate Exclusive(log: seq<Event>) {
    log == [] ||
    var before, e := log[..|log| - 1], log[|log| - 1];
    Exclusive(before) && (e.Taken? ==> e.address !in Holding(before))
  }

  /** The addresses in use are those that are leased, and none was ever leased while it was. */
  ghost predicate LeasesAreRight(ips: seq<Entry>, log: seq<Event>) {
    Distinct(ips) && Busy(ips) == Holding(log) && Exclusive(log)
  }

  lemma OneMoreEvent(log: seq<Event>, e: Event)
    ensures Exclusive(log + [e]) <==> Exclusive(log) && (e.Taken? ==> e.address !in Holding(log))
    ensures Holding(log + [e]) == AfterEvent(Holding(log), e)
  {
    assert (log + [e])[..|log|] == log;
  }

  lemma {:induction false} ExclusiveAt(log: seq<Event>, k: nat)
    requires Exclusive(log) && k < |log| && log[k].Taken?
    ensures log[k].address !in Holding(log[..k])
  {
    if k < |log| - 1 {
      assert log[..|log| - 1][..k] == log[..k];
      ExclusiveAt(log[..|log| - 1], k);
    }
  }

  predicate Frees(e: Event, a: Address) {
    match e
    case Taken(_) => false
    case Released(b) => a == b
    case Freed(s) => a in s
    case Dropped(s) => a in s
  }

  lemma {:induction false} HeldUntilFreed(log: seq<Event>, a: Address, i: nat, j: nat)
    requires i < j <= |log| && log[i] == Taken(a) && forall k | i < k < j :: !Frees(log[k], a)
    ensures a in Holding(log[..j])
  {
    assert log[..j][..j - 1] == log[..j - 1];
    if i < j - 1 {
      HeldUntilFreed(log, a, i, j - 1);
    }
  }

  /** Between two leases of one address there is an event that ended the first. */
  lemma LeasedAgainOnlyOnceFreed(log: seq<Event>, a: Address, i: nat, j: nat)
    requires Exclusive(log) && i < j < |log| && log[i] == Taken(a) && log[j] == Taken(a)
    ensures exists k :: i < k < j && Frees(log[k], a)
  {
    if forall k | i < k < j :: !Frees(log[k], a) {
      HeldUntilFreed(log, a, i, j);
      ExclusiveAt(log, j);
      assert false;
    }
  }
}
