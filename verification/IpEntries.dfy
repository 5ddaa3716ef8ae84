/** The entries of an address pool, and what a step does to the counts and the addresses of those that
  * have a property.
  *
  * Times are whole seconds.
  */
module IpEntries {
  import opened Collections

  datatype Address = Address(text: string)

  datatype Entry = Entry(address: Address, usedFor: string, lastUse: int, throttled: bool, inUse: bool)

  // Properties of an entry

  predicate InUse(e: Entry) {
    e.inUse
  }

  predicate Throttled(e: Entry) {
    e.throttled
  }

  predicate Unthrottled(e: Entry) {
    !e.throttled
  }

  predicate Free(e: Entry) {
    !e.inUse && !e.throttled
  }

  predicate Any(e: Entry) {
    true
  }

  function FreeAt(a: Address): Entry -> bool {
    (e: Entry) => Free(e) && e.address == a
  }

  function UsedBefore(time: int): Entry -> bool {
    (e: Entry) => e.lastUse < time
  }

  ghost predicate Distinct(ips: seq<Entry>) {
    forall i, j | 0 <= i < j < |ips| :: ips[i].address != ips[j].address
  }

  predicate Sorted(ips: seq<Entry>) {
    forall i, j | 0 <= i < j < |ips| :: ips[i].lastUse <= ips[j].lastUse
  }

  // Counts

  function Count(ips: seq<Entry>, p: Entry -> bool): nat {
    if ips == [] then 0 else Count(ips[..|ips| - 1], p) + (if p(ips[|ips| - 1]) then 1 else 0)
  }

  lemma CountOneMore(ips: seq<Entry>, e: Entry, p: Entry -> bool)
    ensures Count(ips + [e], p) == Count(ips, p) + (if p(e) then 1 else 0)
  {
    assert (ips + [e])[..|ips|] == ips;
  }

  lemma {:induction false} CountOfBoth(a: seq<Entry>, b: seq<Entry>, p: Entry -> bool)
    ensures Count(a + b, p) == Count(a, p) + Count(b, p)
  {
    if b == [] {
      assert a + b == a;
    } else {
      var init, last := b[..|b| - 1], b[|b| - 1];
      assert a + b == (a + init) + [last];
      CountOfBoth(a, init, p);
      CountOneMore(a + init, last, p);
    }
  }

  lemma CountSplit(ips: seq<Entry>, j: nat, e: Entry, p: Entry -> bool)
    requires j < |ips|
    ensures Count(ips[j := e], p) == Count(ips[..j], p) + (if p(e) then 1 else 0) + Count(ips[j + 1..], p)
  {
    assert ips[j := e] == ips[..j] + [e] + ips[j + 1..];
    CountOneMore(ips[..j], e, p);
    CountOfBoth(ips[..j] + [e], ips[j + 1..], p);
  }

  lemma CountUpdated(ips: seq<Entry>, j: nat, e: Entry, p: Entry -> bool)
    requires j < |ips|
    ensures Count(ips[j := e], p) == Count(ips, p) - (if p(ips[j]) then 1 else 0) + (if p(e) then 1 else 0)
  {
    CountSplit(ips, j, e, p);
    CountSplit(ips, j, ips[j], p);
    assert ips[j := ips[j]] == ips;
  }

  lemma {:induction false} NoneCounted(ips: seq<Entry>, p: Entry -> bool)
    ensures Count(ips, p) == 0 <==> forall e | e in ips :: !p(e)
  {
    if ips != [] {
      var init, last := ips[..|ips| - 1], ips[|ips| - 1];
      NoneCounted(init, p);
      assert ips == init + [last];
    }
  }

  lemma {:induction false} AllCounted(ips: seq<Entry>, p: Entry -> bool)
    ensures Count(ips, p) <= |ips|
    ensures Count(ips, p) == |ips| <==> forall e | e in ips :: p(e)
  {
    if ips != [] {
      var init, last := ips[..|ips| - 1], ips[|ips| - 1];
      AllCounted(init, p);
      assert ips == init + [last];
    }
  }

  lemma CountWithout(ips: seq<Entry>, j: nat, p: Entry -> bool)
    requires j < |ips|
    ensures Count(ips, p) == Count(Without(ips, j), p) + (if p(ips[j]) then 1 else 0)
  {
    CountOfBoth(ips[..j], ips[j + 1..], p);
    CountSplit(ips, j, ips[j], p);
    assert ips[j := ips[j]] == ips;
  }

  lemma {:induction false} CountPermuted(a: seq<Entry>, b: seq<Entry>, p: Entry -> bool)
    requires multiset(a) == multiset(b)
    ensures Count(a, p) == Count(b, p)
    decreases |a|
  {
    assert |multiset(a)| == |a| && |multiset(b)| == |b|;
    if a != [] {
      var j := WithoutSame(a, b);
      CountWithout(a, 0, p);
      CountWithout(b, j, p);
      CountPermuted(Without(a, 0), Without(b, j), p);
    }
  }

  lemma WithoutSame(a: seq<Entry>, b: seq<Entry>) returns (j: nat)
    requires multiset(a) == multiset(b) && a != []
    ensures j < |b| && b[j] == a[0] && multiset(Without(a, 0)) == multiset(Without(b, j))
  {
    SameElements(a, b);
    assert a[0] in a;
    j :| 0 <= j < |b| && b[j] == a[0];
    WithoutIsOneLess(a, 0);
    WithoutIsOneLess(b, j);
  }

  // Permutations

  lemma SameElements(a: seq<Entry>, b: seq<Entry>)
    requires multiset(a) == multiset(b)
    ensures forall e :: e in a <==> e in b
  {
    forall e ensures e in a <==> e in b {
      assert e in a <==> e in multiset(a);
      assert e in b <==> e in multiset(b);
    }
  }

  lemma TwoPlacesCountTwice(s: seq<Entry>, i: nat, j: nat)
    requires i < j < |s| && s[i] == s[j]
    ensures multiset(s)[s[i]] >= 2
  {
    assert s == s[..i] + [s[i]] + s[i + 1..j] + [s[j]] + s[j + 1..];
  }

  lemma {:induction false} DistinctCountsOnce(s: seq<Entry>, e: Entry)
    requires Distinct(s)
    ensures multiset(s)[e] <= 1
  {
    if s != [] {
      var init, last := s[..|s| - 1], s[|s| - 1];
      assert s == init + [last];
      DistinctCountsOnce(init, e);
      assert last !in init;
      assert multiset(init)[last] == 0;
    }
  }

  lemma PermutationKeepsDistinct(a: seq<Entry>, b: seq<Entry>)
    requires multiset(a) == multiset(b) && Distinct(a)
    ensures Distinct(b)
  {
    SameElements(a, b);
    forall i, j | 0 <= i < j < |b| ensures b[i].address != b[j].address {
      if b[i] == b[j] {
        TwoPlacesCountTwice(b, i, j);
        DistinctCountsOnce(a, b[i]);
      } else {
        assert b[i] in a && b[j] in a;
      }
    }
  }

  // Addresses

  /** The addresses of the entries that have the property. */
  function Where(ips: seq<Entry>, p: Entry -> bool): set<Address> {
    if ips == [] then {}
    else
      var before, last := Where(ips[..|ips| - 1], p), ips[|ips| - 1];
      if p(last) then before + {last.address} else before
  }

  function Busy(ips: seq<Entry>): set<Address> {
    Where(ips, InUse)
  }

  function Open(ips: seq<Entry>): set<Address> {
    Where(ips, Unthrottled)
  }

  function Banned(ips: seq<Entry>): set<Address> {
    Where(ips, Throttled)
  }

  function Addresses(ips: seq<Entry>): set<Address> {
    Where(ips, Any)
  }

  ghost predicate IsAt(ips: seq<Entry>, p: Entry -> bool, a: Address) {
    exists e :: e in ips && p(e) && e.address == a
  }

  lemma {:induction false} WhereHas(ips: seq<Entry>, p: Entry -> bool, a: Address)
    ensures a in Where(ips, p) <==> IsAt(ips, p, a)
  {
    if ips != [] {
      var init, last := ips[..|ips| - 1], ips[|ips| - 1];
      WhereHas(init, p, a);
      assert ips == init + [last];
      if IsAt(init, p, a) {
        var e :| e in init && p(e) && e.address == a;
        assert e in ips;
      } else if p(last) && last.address == a {
        assert last in ips;
      }
    }
  }

  lemma WhereOneMore(ips: seq<Entry>, e: Entry, p: Entry -> bool)
    ensures Where(ips + [e], p) == if p(e) then Where(ips, p) + {e.address} else Where(ips, p)
  {
    assert (ips + [e])[..|ips|] == ips;
  }

  lemma WherePermuted(a: seq<Entry>, b: seq<Entry>, p: Entry -> bool)
    requires multiset(a) == multiset(b)
    ensures Where(a, p) == Where(b, p)
  {
    SameElements(a, b);
    forall x ensures x in Where(a, p) <==> x in Where(b, p) {
      WhereHas(a, p, x);
      WhereHas(b, p, x);
    }
  }

  lemma {:induction false} WhereOfBoth(a: seq<Entry>, b: seq<Entry>, p: Entry -> bool)
    ensures Where(a + b, p) == Where(a, p) + Where(b, p)
  {
    if b == [] {
      assert a + b == a;
    } else {
      var init, last := b[..|b| - 1], b[|b| - 1];
      assert a + b == (a + init) + [last];
      WhereOfBoth(a, init, p);
      WhereOneMore(a + init, last, p);
    }
  }

  lemma WhereSplit(ips: seq<Entry>, j: nat, e: Entry, p: Entry -> bool)
    requires j < |ips|
    ensures Where(ips[j := e], p) == Where(ips[..j], p) + Where(ips[j + 1..], p) + (if p(e) then {e.address} else {})
  {
    assert ips[j := e] == ips[..j] + ([e] + ips[j + 1..]);
    WhereOfBoth(ips[..j], [e] + ips[j + 1..], p);
    WhereOfBoth([e], ips[j + 1..], p);
    assert [e][..0] == [];
  }

  /** An entry changes: only its own address joins or leaves. */
  lemma WhereUpdated(ips: seq<Entry>, j: nat, e: Entry, p: Entry -> bool)
    requires Distinct(ips) && j < |ips| && e.address == ips[j].address
    ensures Distinct(ips[j := e])
    ensures Where(ips[j := e], p) == if p(e) then Where(ips, p) + {e.address} else Where(ips, p) - {e.address}
  {
    WhereSplit(ips, j, e, p);
    WhereSplit(ips, j, ips[j], p);
    assert ips[j := ips[j]] == ips;
    WhereHas(ips[..j], p, e.address);
    WhereHas(ips[j + 1..], p, e.address);
  }

  lemma EntryAt(ips: seq<Entry>, j: nat, p: Entry -> bool)
    requires Distinct(ips) && j < |ips|
    ensures ips[j].address in Where(ips, p) <==> p(ips[j])
  {
    WhereUpdated(ips, j, ips[j], p);
    assert ips[j := ips[j]] == ips;
  }

  /** If only the first entry of an address loses the property, the address keeps it exactly if a later
    * entry has it. */
  lemma FirstLosesIt(ips: seq<Entry>, j: nat, e: Entry, p: Entry -> bool)
    requires IsFirst(ips, j, e.address) && !p(e)
    ensures e.address in Where(ips[j := e], p) <==> exists k :: j < k < |ips| && ips[k].address == e.address && p(ips[k])
  {
    WhereSplit(ips, j, e, p);
    WhereHas(ips[..j], p, e.address);
    WhereHas(ips[j + 1..], p, e.address);
    if k :| j < k < |ips| && ips[k].address == e.address && p(ips[k]) {
      assert ips[j + 1..][k - j - 1] == ips[k];
    }
  }

  ghost predicate IsFirst(ips: seq<Entry>, j: nat, a: Address) {
    j < |ips| && ips[j].address == a && forall k | 0 <= k < j :: ips[k].address != a
  }

  /** The place of the first entry of an address, or the length. */
  function Find(ips: seq<Entry>, a: Address): (j: nat)
    ensures j <= |ips| && (j < |ips| ==> IsFirst(ips, j, a))
    ensures j == |ips| ==> forall k | 0 <= k < j :: ips[k].address != a
  {
    if ips == [] then 0
    else
      var j := Find(ips[..|ips| - 1], a);
      if j < |ips| - 1 || ips[|ips| - 1].address == a then j else |ips|
  }

  lemma FindIsFirst(ips: seq<Entry>, a: Address, j: nat)
    requires j <= |ips| && (forall k | 0 <= k < j :: ips[k].address != a) && (j < |ips| ==> ips[j].address == a)
    ensures j == Find(ips, a)
  {
    var f := Find(ips, a);
    assert f < |ips| ==> IsFirst(ips, f, a);
  }

  lemma FindsWhatIsThere(ips: seq<Entry>, a: Address)
    ensures Find(ips, a) < |ips| <==> a in Addresses(ips)
  {
    WhereHas(ips, Any, a);
    var j := Find(ips, a);
    if j < |ips| {
      assert ips[j] in ips && Any(ips[j]);
    }
  }

  // Sorting

  /** The order that `sort.Slice` leaves behind: any sorted one, as that sort is not stable. */
  method SortByLastUse(ips: seq<Entry>) returns (sorted: seq<Entry>)
    ensures multiset(sorted) == multiset(ips) && Sorted(sorted)
  {
    sorted := [];
    for k := 0 to |ips|
      invariant multiset(sorted) == multiset(ips[..k]) && Sorted(sorted)
    {
      assert ips[..k + 1] == ips[..k] + [ips[k]];
      sorted := Inserted(sorted, ips[k]);
    }
    assert ips[..|ips|] == ips;
  }

  lemma InsertKeepsSorted(s: seq<Entry>, k: nat, e: Entry)
    requires Sorted(s) && k <= |s|
    requires k > 0 ==> s[k - 1].lastUse <= e.lastUse
    requires k < |s| ==> e.lastUse <= s[k].lastUse
    ensures Sorted(s[..k] + [e] + s[k..])
  {
    var r := s[..k] + [e] + s[k..];
    forall i, j | 0 <= i < j < |r| ensures r[i].lastUse <= r[j].lastUse {
      assert r[i] == if i < k then s[i] else if i == k then e else s[i - 1];
      assert r[j] == if j < k then s[j] else if j == k then e else s[j - 1];
    }
  }

  lemma InsertAddsOne(s: seq<Entry>, k: nat, e: Entry)
    requires k <= |s|
    ensures multiset(s[..k] + [e] + s[k..]) == multiset(s) + multiset{e}
  {
    assert s == s[..k] + s[k..];
  }

  method Inserted(s: seq<Entry>, e: Entry) returns (r: seq<Entry>)
    requires Sorted(s)
    ensures multiset(r) == multiset(s) + multiset{e} && Sorted(r)
  {
    var k := |s|;
    while k > 0 && e.lastUse < s[k - 1].lastUse
      invariant 0 <= k <= |s|
      invariant k < |s| ==> e.lastUse <= s[k].lastUse
    {
      k := k - 1;
    }
    r := s[..k] + [e] + s[k..];
    InsertKeepsSorted(s, k, e);
    InsertAddsOne(s, k, e);
  }

  /** In a sorted list an entry that shares its last use with no other is in the place that its last use
    * gives it. */
  lemma {:induction false} PlaceIsRank(ips: seq<Entry>, j: nat)
    requires Sorted(ips) && j < |ips| && forall k | 0 <= k < |ips| && k != j :: ips[k].lastUse != ips[j].lastUse
    ensures Count(ips, UsedBefore(ips[j].lastUse)) == j
  {
    var p := UsedBefore(ips[j].lastUse);
    CountSplit(ips, j, ips[j], p);
    assert ips[j := ips[j]] == ips;
    AllCounted(ips[..j], p);
    NoneCounted(ips[j + 1..], p);
    assert forall e | e in ips[..j] :: p(e);
    forall e | e in ips[j + 1..] ensures !p(e) {
      var k :| 0 <= k < |ips[j + 1..]| && ips[j + 1..][k] == e;
      assert e == ips[j + 1 + k];
    }
  }

  /** A place that was read has the address of an entry exactly if as many others as there are places
    * before it were used longer ago. */
  lemma ReadIsRightIff(ips: seq<Entry>, place: nat, j: nat)
    requires Sorted(ips) && Distinct(ips) && place < |ips|
    requires j < |ips| && forall k | 0 <= k < |ips| && k != j :: ips[k].lastUse != ips[j].lastUse
    ensures ips[place].address == ips[j].address <==> Count(ips, UsedBefore(ips[j].lastUse)) == place
  {
    PlaceIsRank(ips, j);
  }

  // Leases

  method AllThrottledIn(ips: seq<Entry>) returns (all: bool)
    ensures all <==> forall e | e in ips :: e.throttled
  {
    for k := 0 to |ips|
      invariant forall i | 0 <= i < k :: ips[i].throttled
    {
      if !ips[k].throttled {
        return false;
      }
    }
    return true;
  }

  method AllInUseIn(ips: seq<Entry>) returns (all: bool)
    ensures all <==> forall e | e in ips :: !Free(e)
  {
    for k := 0 to |ips|
      invariant forall i | 0 <= i < k :: !Free(ips[i])
    {
      if !ips[k].inUse && !ips[k].throttled {
        assert ips[k] in ips && Free(ips[k]);
        return false;
      }
    }
    return true;
  }

  /** A free entry that no other free entry was used longer ago than. */
  ghost predicate LeastRecentlyUsed(ips: seq<Entry>, e: Entry) {
    e in ips && Free(e) && forall f | f in ips && Free(f) :: e.lastUse <= f.lastUse
  }

  /** The scan of the sorted list stops at a free entry that was used least recently. */
  method FirstFree(sorted: seq<Entry>) returns (j: nat)
    requires Sorted(sorted)
    ensures j <= |sorted| && (j == |sorted| <==> forall e | e in sorted :: !Free(e))
    ensures forall i | 0 <= i < j :: !Free(sorted[i])
    ensures j < |sorted| ==> LeastRecentlyUsed(sorted, sorted[j])
  {
    j := 0;
    while j < |sorted| && (sorted[j].inUse || sorted[j].throttled)
      invariant j <= |sorted| && forall i | 0 <= i < j :: !Free(sorted[i])
    {
      j := j + 1;
    }
    assert j < |sorted| ==> sorted[j] in sorted && Free(sorted[j]);
  }
}
