/** The refresh of an address pool after the network interfaces changed. */
module IpRefresh {
  import opened IpEntries

  /** A new entry counts as last used five minutes ago; `time` says when that was. */
  function NewEntry(a: Address, time: int): Entry {
    Entry(a, "", time, false, false)
  }

  function Elements(s: seq<Address>): set<Address> {
    set a | a in s
  }

  /** The entries of `ips`, in order, whose address is still there. */
  function Surviving(ips: seq<Entry>, current: set<Address>): seq<Entry> {
    if ips == [] then []
    else
      var before := Surviving(ips[..|ips| - 1], current);
      if ips[|ips| - 1].address in current then before + [ips[|ips| - 1]] else before
  }

  /** New entries, in order, for the addresses that are not in `known`. */
  function Added(current: seq<Address>, known: set<Address>, time: int): seq<Entry> {
    if current == [] then []
    else
      var before := Added(current[..|current| - 1], known, time);
      var a := current[|current| - 1];
      if a in known then before else before + [NewEntry(a, time)]
  }

  function Refreshed(ips: seq<Entry>, current: seq<Address>, time: int): seq<Entry> {
    Surviving(ips, Elements(current)) + Added(current, Addresses(ips), time)
  }

  lemma {:induction false} SurvivingIsRight(ips: seq<Entry>, current: set<Address>)
    ensures Distinct(ips) ==> Distinct(Surviving(ips, current))
    ensures forall e :: e in Surviving(ips, current) <==> e in ips && e.address in current
  {
    if ips != [] {
      SurvivingIsRight(ips[..|ips| - 1], current);
      assert ips == ips[..|ips| - 1] + [ips[|ips| - 1]];
    }
  }

  lemma {:induction false} AddedIsRight(current: seq<Address>, known: set<Address>, time: int)
    ensures forall e :: e in Added(current, known, time) <==> e.address in current && e.address !in known && e == NewEntry(e.address, time)
  {
    if current != [] {
      AddedIsRight(current[..|current| - 1], known, time);
      assert current == current[..|current| - 1] + [current[|current| - 1]];
    }
  }

  lemma {:induction false} WhereSurviving(ips: seq<Entry>, current: set<Address>, p: Entry -> bool)
    ensures Where(Surviving(ips, current), p) == Where(ips, p) * current
  {
    if ips != [] {
      var init, last := ips[..|ips| - 1], ips[|ips| - 1];
      WhereSurviving(init, current, p);
      WhereOneMore(Surviving(init, current), last, p);
    }
  }

  lemma ElementsOneMore(s: seq<Address>, a: Address)
    ensures Elements(s + [a]) == Elements(s) + {a}
  {
  }

  /** A new entry has the property or not, whatever its address. */
  ghost predicate SameForNew(p: Entry -> bool, time: int, all: bool) {
    forall a :: p(NewEntry(a, time)) == all
  }

  lemma {:induction false} WhereAdded(current: seq<Address>, known: set<Address>, time: int, p: Entry -> bool, all: bool)
    requires SameForNew(p, time, all)
    ensures Where(Added(current, known, time), p) == if all then Elements(current) - known else {}
  {
    if current != [] {
      var init, last := current[..|current| - 1], current[|current| - 1];
      WhereAdded(init, known, time, p, all);
      assert current == init + [last];
      ElementsOneMore(init, last);
      if last !in known {
        assert p(NewEntry(last, time)) == all;
        WhereOneMore(Added(init, known, time), NewEntry(last, time), p);
      }
    }
  }

  /** After a refresh the pool has exactly the current addresses; an entry that was there before is
    * as it was, and a new one is neither in use nor throttled. */
  lemma RefreshIsRight(ips: seq<Entry>, current: seq<Address>, time: int)
    ensures var t := Refreshed(ips, current, time);
            && Addresses(t) == Elements(current)
            && Busy(t) == Busy(ips) * Elements(current)
            && Banned(t) == Banned(ips) * Elements(current)
            && (forall e | e in t :: e in ips || (e.address !in Addresses(ips) && Free(e)))
            && (forall e | e in ips && e.address in current :: e in t)
  {
    RefreshedWhere(ips, current, time, Any, true);
    RefreshedWhere(ips, current, time, InUse, false);
    RefreshedWhere(ips, current, time, Throttled, false);
    forall a | a in Busy(ips) + Banned(ips) ensures a in Addresses(ips) {
      IsThere(ips, InUse, a);
      IsThere(ips, Throttled, a);
    }
    SurvivingIsRight(ips, Elements(current));
    AddedIsRight(current, Addresses(ips), time);
  }

  lemma IsThere(ips: seq<Entry>, p: Entry -> bool, a: Address)
    ensures a in Where(ips, p) ==> a in Addresses(ips)
  {
    WhereHas(ips, p, a);
    WhereHas(ips, Any, a);
    if e :| e in ips && p(e) && e.address == a {
      assert e in ips && Any(e) && e.address == a;
    }
  }

  lemma RefreshedWhere(ips: seq<Entry>, current: seq<Address>, time: int, p: Entry -> bool, all: bool)
    requires SameForNew(p, time, all)
    ensures Where(Refreshed(ips, current, time), p)
         == Where(ips, p) * Elements(current) + (if all then Elements(current) - Addresses(ips) else {})
  {
    WhereOfBoth(Surviving(ips, Elements(current)), Added(current, Addresses(ips), time), p);
    WhereSurviving(ips, Elements(current), p);
    WhereAdded(current, Addresses(ips), time, p, all);
  }

  // Addresses that are listed more than once

  /** An address that is listed twice was known before. */
  ghost predicate OnlyKnownRepeat(current: seq<Address>, known: set<Address>) {
    forall i, j | 0 <= i < j < |current| :: current[i] != current[j] || current[i] in known
  }

  lemma OneMoreDistinct(ips: seq<Entry>, e: Entry)
    ensures Distinct(ips + [e]) <==> Distinct(ips) && forall f | f in ips :: f.address != e.address
  {
    var t := ips + [e];
    assert forall i | 0 <= i < |ips| :: t[i] == ips[i] && ips[i] in ips;
    assert t[|ips|] == e;
  }

  lemma OneMoreListed(current: seq<Address>, known: set<Address>, a: Address)
    ensures OnlyKnownRepeat(current + [a], known) <==> OnlyKnownRepeat(current, known) && (a in current ==> a in known)
  {
    var t := current + [a];
    assert forall i | 0 <= i < |current| :: t[i] == current[i];
    assert t[|current|] == a;
  }

  lemma {:induction false} AddedIsDistinctIff(current: seq<Address>, known: set<Address>, time: int)
    ensures Distinct(Added(current, known, time)) <==> OnlyKnownRepeat(current, known)
  {
    if current != [] {
      var init, a := current[..|current| - 1], current[|current| - 1];
      AddedIsDistinctIff(init, known, time);
      AddedIsRight(init, known, time);
      assert current == init + [a];
      OneMoreListed(init, known, a);
      OneMoreDistinct(Added(init, known, time), NewEntry(a, time));
      assert a in init && a !in known ==> NewEntry(a, time) in Added(init, known, time);
    }
  }

  lemma BothAreDistinctIff(kept: seq<Entry>, added: seq<Entry>)
    requires Distinct(kept) && forall e, f | e in kept && f in added :: e.address != f.address
    ensures Distinct(kept + added) <==> Distinct(added)
  {
    var t := kept + added;
    assert forall j | 0 <= j < |added| :: t[|kept| + j] == added[j];
    forall i, j | 0 <= i < |kept| <= j < |t| ensures t[i].address != t[j].address {
      assert t[i] in kept && t[j] in added;
    }
    if !Distinct(added) {
      var i, j :| 0 <= i < j < |added| && added[i].address == added[j].address;
      assert t[|kept| + i].address == t[|kept| + j].address;
    }
  }

  /** A refresh keeps the addresses distinct exactly if the interfaces list no new one twice. */
  lemma RefreshIsDistinctIff(ips: seq<Entry>, current: seq<Address>, time: int)
    requires Distinct(ips)
    ensures Distinct(Refreshed(ips, current, time)) <==> OnlyKnownRepeat(current, Addresses(ips))
  {
    var kept, added := Surviving(ips, Elements(current)), Added(current, Addresses(ips), time);
    SurvivingIsRight(ips, Elements(current));
    AddedIsRight(current, Addresses(ips), time);
    forall e | e in kept ensures e.address in Addresses(ips) {
      WhereHas(ips, Any, e.address);
      assert e in ips && Any(e);
    }
    AddedIsDistinctIff(current, Addresses(ips), time);
    BothAreDistinctIff(kept, added);
  }

  /** A new address gets as many free entries as it is listed, and an old one gets none. */
  lemma {:induction false} AddedAsOftenAsListed(current: seq<Address>, known: set<Address>, time: int, a: Address)
    ensures Count(Added(current, known, time), FreeAt(a)) == if a in known then 0 else multiset(current)[a]
  {
    if current != [] {
      var init, last := current[..|current| - 1], current[|current| - 1];
      AddedAsOftenAsListed(init, known, time, a);
      assert current == init + [last];
      CountOneMore(Added(init, known, time), NewEntry(last, time), FreeAt(a));
    }
  }

  lemma {:induction false} NoneSurvives(ips: seq<Entry>, current: set<Address>, a: Address)
    requires a !in Addresses(ips)
    ensures Count(Surviving(ips, current), FreeAt(a)) == 0
  {
    SurvivingIsRight(ips, current);
    forall e | e in Surviving(ips, current) ensures e.address != a {
      WhereHas(ips, Any, e.address);
      assert e in ips && Any(e);
    }
    NoneCounted(Surviving(ips, current), FreeAt(a));
  }

  /** After a refresh a new address is there to be leased as often as the interfaces list it. */
  lemma RefreshedAsOftenAsListed(ips: seq<Entry>, current: seq<Address>, time: int, a: Address)
    requires a !in Addresses(ips)
    ensures Count(Refreshed(ips, current, time), FreeAt(a)) == multiset(current)[a]
  {
    CountOfBoth(Surviving(ips, Elements(current)), Added(current, Addresses(ips), time), FreeAt(a));
    NoneSurvives(ips, Elements(current), a);
    AddedAsOftenAsListed(current, Addresses(ips), time, a);
  }

  // The three loops

  method AsSet(current: seq<Address>) returns (all: set<Address>)
    ensures all == Elements(current)
  {
    all := {};
    for k := 0 to |current|
      invariant all == Elements(current[..k])
    {
      all := all + {current[k]};
      assert current[..k + 1] == current[..k] + [current[k]];
    }
    assert current[..|current|] == current;
  }

  method KeepCurrent(ips: seq<Entry>, current: set<Address>) returns (kept: seq<Entry>, known: set<Address>)
    ensures kept == Surviving(ips, current) && known == Addresses(ips)
  {
    kept, known := [], {};
    for k := 0 to |ips|
      invariant known == Addresses(ips[..k]) && kept == Surviving(ips[..k], current)
    {
      known := known + {ips[k].address};
      assert ips[..k + 1][..k] == ips[..k];
      if ips[k].address in current {
        kept := kept + [ips[k]];
      }
    }
    assert ips[..|ips|] == ips;
  }

  method AddNew(kept: seq<Entry>, current: seq<Address>, known: set<Address>, time: int) returns (all: seq<Entry>)
    ensures all == kept + Added(current, known, time)
  {
    all := kept;
    for k := 0 to |current|
      invariant all == kept + Added(current[..k], known, time)
    {
      assert current[..k + 1][..k] == current[..k];
      if current[k] !in known {
        all := all + [NewEntry(current[k], time)];
      }
    }
    assert current[..|current|] == current;
  }
}
