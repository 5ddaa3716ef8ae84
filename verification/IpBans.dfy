/** Bans of addresses, and the timers that are to lift them. */
module IpBans {
  import opened Collections
  import opened IpEntries
  import opened IpLeases
  import opened Options

  /** The timer of a ban has the place of an entry in the list that was the pool's when the ban began; it
    * has none if the address was not in that list. Every refresh makes a new list. */
  datatype Timer = Timer(generation: nat, place: Option<nat>, address: Address)

  /** Whether a timer will clear the flag of an entry of this list. */
  predicate Clears(t: Timer, generation: nat) {
    t.place.Some? && t.generation == generation
  }

  predicate Fits(t: Timer, generation: nat, places: nat) {
    t.generation <= generation && (Clears(t, generation) ==> t.place.value < places)
  }

  ghost predicate AllFit(timers: seq<Timer>, generation: nat, places: nat) {
    forall t | t in timers :: Fits(t, generation, places)
  }

  function Live(timers: seq<Timer>, generation: nat): nat {
    if timers == [] then 0
    else Live(timers[..|timers| - 1], generation) + (if Clears(timers[|timers| - 1], generation) then 1 else 0)
  }

  /** The throttled entries that no timer is left for. */
  function Lost(ips: seq<Entry>, timers: seq<Timer>, generation: nat): int {
    Count(ips, Throttled) - Live(timers, generation)
  }

  /** What holds of every pool: timers have their places in the list, and there are no more of them than
    * throttled entries. */
  ghost predicate BansAreRight(ips: seq<Entry>, timers: seq<Timer>, generation: nat) {
    AllFit(timers, generation, |ips|) && Lost(ips, timers, generation) >= 0
  }

  // A ban begins

  function AfterBan(ips: seq<Entry>, a: Address): seq<Entry> {
    var j := Find(ips, a);
    if j < |ips| then ips[j := ips[j].(throttled := true)] else ips
  }

  /** A timer starts, unless the address is throttled already. */
  function TimersAfterBan(ips: seq<Entry>, timers: seq<Timer>, generation: nat, a: Address): seq<Timer> {
    var j := Find(ips, a);
    if j == |ips| then timers + [Timer(generation, None, a)]
    else if ips[j].throttled then timers
    else timers + [Timer(generation, Some(j), a)]
  }

  lemma LiveWithOneMore(timers: seq<Timer>, t: Timer, generation: nat)
    ensures Live(timers + [t], generation) == Live(timers, generation) + (if Clears(t, generation) then 1 else 0)
  {
    assert (timers + [t])[..|timers|] == timers;
  }

  /** A ban takes the first entry of its address from the free ones, if it was among them. */
  lemma BanCounts(ips: seq<Entry>, a: Address)
    ensures var j, t := Find(ips, a), AfterBan(ips, a);
            && |t| == |ips|
            && Count(t, Throttled) == Count(ips, Throttled) + (if j < |ips| && !ips[j].throttled then 1 else 0)
            && Count(t, Free) == Count(ips, Free) - (if j < |ips| && Free(ips[j]) then 1 else 0)
  {
    var j := Find(ips, a);
    if j < |ips| {
      CountUpdated(ips, j, ips[j].(throttled := true), Throttled);
      CountUpdated(ips, j, ips[j].(throttled := true), Free);
    }
  }

  lemma BanKeepsRight(ips: seq<Entry>, timers: seq<Timer>, generation: nat, a: Address)
    requires BansAreRight(ips, timers, generation)
    ensures var t, u := AfterBan(ips, a), TimersAfterBan(ips, timers, generation, a);
            BansAreRight(t, u, generation) && Lost(t, u, generation) == Lost(ips, timers, generation)
  {
    BanCounts(ips, a);
    var j := Find(ips, a);
    LiveWithOneMore(timers, Timer(generation, None, a), generation);
    LiveWithOneMore(timers, Timer(generation, Some(j), a), generation);
  }

  lemma BannedSets(ips: seq<Entry>, a: Address)
    requires Distinct(ips)
    ensures var t := AfterBan(ips, a);
            && Distinct(t) && Addresses(t) == Addresses(ips) && Busy(t) == Busy(ips)
            && Open(t) == Open(ips) - {a} && Banned(t) == if a in Addresses(ips) then Banned(ips) + {a} else Banned(ips)
  {
    var j := Find(ips, a);
    FindsWhatIsThere(ips, a);
    if j < |ips| {
      var e := ips[j].(throttled := true);
      WhereUpdated(ips, j, e, Any);
      WhereUpdated(ips, j, e, InUse);
      EntryAt(ips, j, InUse);
      WhereUpdated(ips, j, e, Unthrottled);
      WhereUpdated(ips, j, e, Throttled);
    } else {
      WhereHas(ips, Unthrottled, a);
    }
  }

  /** An address is not open any more after its ban began exactly if no entry but its first was. */
  lemma BannedIff(ips: seq<Entry>, a: Address)
    ensures a in Open(AfterBan(ips, a)) <==> exists k :: Find(ips, a) < k < |ips| && ips[k].address == a && Unthrottled(ips[k])
  {
    var j := Find(ips, a);
    if j < |ips| {
      FirstLosesIt(ips, j, ips[j].(throttled := true), Unthrottled);
    } else {
      WhereHas(ips, Unthrottled, a);
    }
  }

  // A timer ends

  /** It clears the flag of the entry that is in its place by now. */
  function AfterTimer(ips: seq<Entry>, t: Timer, generation: nat): seq<Entry>
    requires Fits(t, generation, |ips|)
  {
    if Clears(t, generation) then ips[t.place.value := ips[t.place.value].(throttled := false)] else ips
  }

  /** Of distinct addresses, a timer lifts the ban it was started for exactly if the list is still the
    * one it was started in and its place still has the address. */
  lemma BanIsLiftedIff(ips: seq<Entry>, t: Timer, generation: nat)
    requires Distinct(ips) && Fits(t, generation, |ips|) && t.address in Banned(ips)
    ensures t.address in Open(AfterTimer(ips, t, generation)) <==> Clears(t, generation) && ips[t.place.value].address == t.address
  {
    WhereHas(ips, Throttled, t.address);
    var k :| 0 <= k < |ips| && ips[k].throttled && ips[k].address == t.address;
    EntryAt(ips, k, Unthrottled);
    if Clears(t, generation) {
      WhereUpdated(ips, t.place.value, ips[t.place.value].(throttled := false), Unthrottled);
    }
  }

  lemma TimerSets(ips: seq<Entry>, t: Timer, generation: nat)
    requires Distinct(ips) && Fits(t, generation, |ips|)
    ensures var u := AfterTimer(ips, t, generation); Distinct(u) && Addresses(u) == Addresses(ips) && Busy(u) == Busy(ips)
  {
    if Clears(t, generation) {
      var j := t.place.value;
      WhereUpdated(ips, j, ips[j].(throttled := false), Any);
      EntryAt(ips, j, Any);
      WhereUpdated(ips, j, ips[j].(throttled := false), InUse);
      EntryAt(ips, j, InUse);
    }
  }

  lemma {:induction false} LiveWithout(timers: seq<Timer>, k: nat, generation: nat)
    requires k < |timers|
    ensures Live(Without(timers, k), generation) == Live(timers, generation) - (if Clears(timers[k], generation) then 1 else 0)
  {
    var n := |timers| - 1;
    if k == n {
      assert Without(timers, k) == timers[..n];
    } else {
      assert Without(timers, k)[..n - 1] == Without(timers[..n], k);
      assert Without(timers, k)[n - 1] == timers[n];
      LiveWithout(timers[..n], k, generation);
    }
  }

  /** The place of the timer has an entry by now that is not throttled. */
  predicate EndsOnAnother(ips: seq<Entry>, t: Timer, generation: nat)
    requires Fits(t, generation, |ips|)
  {
    Clears(t, generation) && !ips[t.place.value].throttled
  }

  /** Another ban is lost exactly if the timer ends on an entry that is not throttled. */
  lemma TimerKeepsRight(ips: seq<Entry>, timers: seq<Timer>, generation: nat, k: nat)
    requires BansAreRight(ips, timers, generation) && k < |timers|
    ensures var t, u := timers[k], Without(timers, k);
            && Fits(t, generation, |ips|) && AllFit(u, generation, |ips|)
            && Lost(AfterTimer(ips, t, generation), u, generation)
            == Lost(ips, timers, generation) + (if EndsOnAnother(ips, t, generation) then 1 else 0)
  {
    assert timers[k] in timers;
    var t := timers[k];
    LiveWithout(timers, k, generation);
    if Clears(t, generation) {
      CountUpdated(ips, t.place.value, ips[t.place.value].(throttled := false), Throttled);
    }
  }

  // Lost bans

  lemma {:induction false} NoneLive(timers: seq<Timer>, generation: nat)
    requires forall t | t in timers :: t.generation < generation
    ensures Live(timers, generation) == 0
  {
    if timers != [] {
      assert timers[|timers| - 1] in timers;
      NoneLive(timers[..|timers| - 1], generation);
    }
  }

  /** After a refresh no timer is left for any entry that is throttled. */
  lemma RefreshLosesBans(ips: seq<Entry>, refreshed: seq<Entry>, timers: seq<Timer>, generation: nat)
    requires BansAreRight(ips, timers, generation)
    ensures BansAreRight(refreshed, timers, generation + 1) && Live(timers, generation + 1) == 0
    ensures Lost(refreshed, timers, generation + 1) == Count(refreshed, Throttled)
  {
    assert forall t | t in timers :: Fits(t, generation, |ips|);
    NoneLive(timers, generation + 1);
  }

  /** As many entries stay throttled as bans are lost. If no timer is left for the list, these are all
    * that are throttled; if every ban is lost, no entry is open. */
  lemma LostBansStay(ips: seq<Entry>, timers: seq<Timer>, generation: nat)
    requires BansAreRight(ips, timers, generation)
    ensures Count(ips, Throttled) >= Lost(ips, timers, generation) >= 0
    ensures Count(ips, Throttled) == Lost(ips, timers, generation) <==> forall t | t in timers :: !Clears(t, generation)
    ensures Lost(ips, timers, generation) == |ips| ==> Open(ips) == {}
  {
    NoLiveTimer(timers, generation);
    AllCounted(ips, Throttled);
    if Lost(ips, timers, generation) == |ips| {
      forall a ensures a !in Open(ips) {
        WhereHas(ips, Unthrottled, a);
      }
    }
  }

  lemma {:induction false} NoLiveTimer(timers: seq<Timer>, generation: nat)
    ensures Live(timers, generation) == 0 <==> forall t | t in timers :: !Clears(t, generation)
  {
    if timers != [] {
      var init, last := timers[..|timers| - 1], timers[|timers| - 1];
      NoLiveTimer(init, generation);
      assert timers == init + [last];
    }
  }
}
