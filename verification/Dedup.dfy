/** Which claims of a list `fixDupes` is to abandon. */
module Dedup {
  import opened Options
  import opened Collections
  import opened Ranking
  import opened Claims
  import opened Remote

  /** Whether this wallet may abandon the claim. */
  predicate MayAbandon(c: Claim, publishAddress: string, isMine: bool, rows: Rows)
    requires c.thumbnail.Some?
  {
    (c.address != publishAddress || isMine) && !(VideoID(c) in rows && rows[VideoID(c)].transferred)
  }

  /** What the pass knows about its item `i` is what the code finds out about the claim. */
  ghost predicate Seen(pass: Pass<Claim>, channel: string, publishAddress: string, isMine: bool, rows: Rows, i: nat)
    requires pass.Valid() && i < |pass.items|
  {
    && pass.es[i] == EntryOf(pass.items[i], channel)
    && (pass.es[i].video.Some? ==> (pass.ours[i] <==> MayAbandon(pass.items[i], publishAddress, isMine, rows)))
  }

  /** A pass over the list of claims, with every entry as the code sees it. */
  ghost predicate PassesOver(pass: Pass<Claim>, claims: seq<Claim>, channel: string, publishAddress: string, isMine: bool, rows: Rows) {
    && pass.Valid() && pass.items == claims
    && forall i: nat {:trigger Seen(pass, channel, publishAddress, isMine, rows, i)} | i < |claims| ::
         Seen(pass, channel, publishAddress, isMine, rows, i)
  }

  lemma MakePass(claims: seq<Claim>, channel: string, publishAddress: string, isMine: bool, rows: Rows, live: set<Claim>)
    returns (pass: Pass<Claim>)
    ensures PassesOver(pass, claims, channel, publishAddress, isMine, rows) && pass.live == live
  {
    var ours := seq(|claims|, i requires 0 <= i < |claims| =>
      claims[i].thumbnail.Some? && MayAbandon(claims[i], publishAddress, isMine, rows));
    pass := Pass(claims, Entries(claims, channel), ours, live);
  }

  ghost function AsSet(claims: seq<Claim>): set<Claim> {
    set c | c in claims
  }

  lemma IdsDiffer(claims: seq<Claim>, i: nat, j: nat)
    requires NoRepeats(claims) && DistinctIds(AsSet(claims)) && i < |claims| && j < |claims| && i != j
    ensures claims[i].claimId != claims[j].claimId
  {
    assert claims[i] in claims && claims[j] in claims;
  }

  /** Of two claims for a video the lower one goes if it is ours, the later one if they are level. */
  lemma Duplicate(pass: Pass<Claim>, claims: seq<Claim>, channel: string, publishAddress: string, isMine: bool, rows: Rows, n: nat, v: string)
    returns (cl: Claim)
    requires PassesOver(pass, claims, channel, publishAddress, isMine, rows)
    requires n < |claims| && IsYtsyncClaim(claims[n], channel) && VideoID(claims[n]) == v && v in pass.Kept(n)
    requires NoRepeats(claims) && DistinctIds(AsSet(claims))
    ensures cl == pass.Kept(n)[v] && cl.thumbnail.Some? && cl.claimId != claims[n].claimId
    ensures claims[n].height > cl.height ==>
              && pass.Kept(n + 1) == pass.Kept(n)[v := claims[n]]
              && pass.GoesAt(n) == if MayAbandon(cl, publishAddress, isMine, rows) then {cl} else {}
    ensures claims[n].height <= cl.height ==>
              && pass.Kept(n + 1) == pass.Kept(n)
              && pass.GoesAt(n) == if MayAbandon(claims[n], publishAddress, isMine, rows) then {claims[n]} else {}
  {
    assert Seen(pass, channel, publishAddress, isMine, rows, n);
    pass.KeptIsBest(n, v);
    var best := Best(pass.es, n, v).value;
    cl := pass.items[best];
    assert Seen(pass, channel, publishAddress, isMine, rows, best);
    IdsDiffer(pass.items, best, n);
  }

  // What a pass does, in terms of the claims

  /** Another claim, for the same video. */
  predicate SameVideo(c: Claim, d: Claim, channel: string) {
    c != d && IsYtsyncClaim(c, channel) && IsYtsyncClaim(d, channel) && VideoID(c) == VideoID(d)
  }

  /** Another claim for the same video is at least as high. */
  predicate Rivals(c: Claim, d: Claim, channel: string) {
    SameVideo(c, d, channel) && c.height <= d.height
  }

  /** A claim that may go: not at the publishing address, unless that is this wallet's, for a video
    * that no row calls transferred, and with another claim as high beside it. */
  ghost predicate GoesRightly(c: Claim, all: set<Claim>, channel: string, publishAddress: string, isMine: bool, rows: Rows) {
    && IsYtsyncClaim(c, channel) && (c.address == publishAddress ==> isMine)
    && (forall v | v in rows && rows[v].transferred :: v != VideoID(c))
    && exists d :: d in all && Rivals(c, d, channel)
  }

  /** A claim that has to go: such a claim with a higher one beside it. */
  ghost predicate HasToGo(c: Claim, all: set<Claim>, channel: string, publishAddress: string, isMine: bool, rows: Rows) {
    && c in all && IsYtsyncClaim(c, channel) && (c.address == publishAddress ==> isMine)
    && (forall v | v in rows && rows[v].transferred :: v != VideoID(c))
    && exists d :: d in all && SameVideo(c, d, channel) && c.height < d.height
  }

  lemma OnlyTheRightOnesGo(pass: Pass<Claim>, claims: seq<Claim>, channel: string, publishAddress: string, isMine: bool, rows: Rows, c: Claim)
    requires PassesOver(pass, claims, channel, publishAddress, isMine, rows) && NoRepeats(claims)
    requires c in pass.Doomed()
    ensures c in claims && GoesRightly(c, AsSet(claims), channel, publishAddress, isMine, rows)
  {
    var i := pass.DoomedIs(|claims|, c);
    var j: nat :| j < |claims| && Beats(pass.es, j, i);
    assert Seen(pass, channel, publishAddress, isMine, rows, i) && Seen(pass, channel, publishAddress, isMine, rows, j);
    assert Rivals(c, claims[j], channel);
  }

  lemma SeenAs(pass: Pass<Claim>, claims: seq<Claim>, channel: string, publishAddress: string, isMine: bool, rows: Rows, i: nat)
    requires PassesOver(pass, claims, channel, publishAddress, isMine, rows)
    requires i < |claims| && IsYtsyncClaim(claims[i], channel)
    ensures pass.es[i] == Entry(Some(VideoID(claims[i])), claims[i].height)
    ensures pass.ours[i] <==> MayAbandon(claims[i], publishAddress, isMine, rows)
  {
    assert Seen(pass, channel, publishAddress, isMine, rows, i);
  }

  lemma LowerOneGoes(pass: Pass<Claim>, claims: seq<Claim>, channel: string, publishAddress: string, isMine: bool, rows: Rows, c: Claim, d: Claim)
    requires PassesOver(pass, claims, channel, publishAddress, isMine, rows)
    requires c in claims && d in claims && SameVideo(c, d, channel) && c.height < d.height
    requires MayAbandon(c, publishAddress, isMine, rows)
    ensures c in pass.Doomed()
  {
    var i: nat :| i < |claims| && claims[i] == c;
    var j: nat :| j < |claims| && claims[j] == d;
    SeenAs(pass, claims, channel, publishAddress, isMine, rows, i);
    SeenAs(pass, claims, channel, publishAddress, isMine, rows, j);
    assert Beats(pass.es, j, i);
    pass.DoomedHas(|claims|, i);
  }

  /** The thumbnails of the two claims end in different ids. */
  ghost predicate EndDifferently(c: Claim, d: Claim) {
    c.thumbnail.Some? && d.thumbnail.Some? ==>
      exists id :: EndsIn(c.thumbnail.value, id) && !EndsIn(d.thumbnail.value, id)
  }

  ghost predicate AllEndDifferently(claims: seq<Claim>) {
    forall c, d | c in claims && d in claims && c != d :: EndDifferently(c, d)
  }

  /** Claims for different videos lose nothing. */
  lemma DifferentVideosStay(pass: Pass<Claim>, claims: seq<Claim>, channel: string, publishAddress: string, isMine: bool, rows: Rows)
    requires PassesOver(pass, claims, channel, publishAddress, isMine, rows) && NoRepeats(claims)
    requires AllEndDifferently(claims)
    ensures pass.Doomed() == {}
  {
    if c :| c in pass.Doomed() {
      OnlyTheRightOnesGo(pass, claims, channel, publishAddress, isMine, rows, c);
      var i := pass.DoomedIs(|claims|, c);
      var d :| d in claims && Rivals(c, d, channel);
      assert EndDifferently(c, d);
      var id :| EndsIn(c.thumbnail.value, id) && !EndsIn(d.thumbnail.value, id);
      VideoIDIsLastElement(c, id);
      VideoIDIsLastElement(d, id);
      assert false;
    }
  }

  /** What a pass over all those claims leaves, when it is done or cut short. */
  ghost predicate Fixed(before: set<Claim>, now: set<Claim>, ok: bool, all: set<Claim>, channel: string, publishAddress: string,
                        isMine: bool, rows: Rows) {
    && now <= before
    && (forall c | c in before && c !in now :: c in all && GoesRightly(c, all, channel, publishAddress, isMine, rows))
    && (ok ==> forall c | HasToGo(c, all, channel, publishAddress, isMine, rows) :: c !in now)
  }

  lemma PassFixes(pass: Pass<Claim>, claims: seq<Claim>, channel: string, publishAddress: string, isMine: bool, rows: Rows,
                  before: set<Claim>, now: set<Claim>, ok: bool)
    requires PassesOver(pass, Once(claims), channel, publishAddress, isMine, rows)
    requires before - pass.Doomed() <= now <= before && (ok ==> now == before - pass.Doomed())
    ensures Fixed(before, now, ok, AsSet(claims), channel, publishAddress, isMine, rows)
    ensures forall c | c in pass.Doomed() :: c in claims
    ensures AllEndDifferently(claims) ==> pass.Doomed() == {}
  {
    var once, all := Once(claims), AsSet(claims);
    OnceHasAll(claims);
    assert all == AsSet(once);
    forall c | c in pass.Doomed() ensures c in claims && GoesRightly(c, all, channel, publishAddress, isMine, rows) {
      OnlyTheRightOnesGo(pass, once, channel, publishAddress, isMine, rows, c);
    }
    forall c | HasToGo(c, all, channel, publishAddress, isMine, rows) ensures c in pass.Doomed() {
      var d :| d in all && SameVideo(c, d, channel) && c.height < d.height;
      LowerOneGoes(pass, once, channel, publishAddress, isMine, rows, c, d);
    }
    if AllEndDifferently(claims) {
      assert AllEndDifferently(once);
      DifferentVideosStay(pass, once, channel, publishAddress, isMine, rows);
    }
  }

  // Lists in which a claim occurs more than once

  /** The claims in the order of their first occurrence. */
  function Once(claims: seq<Claim>): seq<Claim> {
    if claims == [] then []
    else
      var before, c := Once(claims[..|claims| - 1]), claims[|claims| - 1];
      if c in before then before else before + [c]
  }

  lemma {:induction false} OnceHasAll(claims: seq<Claim>)
    ensures NoRepeats(Once(claims)) && forall c :: c in Once(claims) <==> c in claims
  {
    if claims != [] {
      OnceHasAll(claims[..|claims| - 1]);
      assert claims == claims[..|claims| - 1] + [claims[|claims| - 1]];
    }
  }

  lemma {:induction false} OnceOfPrefix(claims: seq<Claim>, n: nat)
    requires n <= |claims|
    ensures Once(claims[..n]) <= Once(claims)
  {
    if n == |claims| {
      assert claims[..n] == claims;
    } else {
      assert claims[..|claims| - 1][..n] == claims[..n];
      OnceOfPrefix(claims[..|claims| - 1], n);
    }
  }

  lemma {:induction false} OnceOfNoRepeats(claims: seq<Claim>)
    requires NoRepeats(claims)
    ensures Once(claims) == claims
  {
    if claims != [] {
      var init := claims[..|claims| - 1];
      OnceOfNoRepeats(init);
      assert claims == init + [claims[|claims| - 1]];
      assert forall i | 0 <= i < |init| :: init[i] == claims[i];
    }
  }

  /** A claim that occurs again changes nothing: either it is the one that is kept, or it has lost
    * already, and is gone if it is ours. */
  lemma RepeatIsIdle(pass: Pass<Claim>, claims: seq<Claim>, channel: string, publishAddress: string, isMine: bool, rows: Rows, m: nat, k: nat)
    requires PassesOver(pass, claims, channel, publishAddress, isMine, rows)
    requires k < m <= |claims| && IsYtsyncClaim(claims[k], channel)
    requires NoRepeats(claims) && DistinctIds(AsSet(claims))
    ensures VideoID(claims[k]) in pass.Kept(m)
    ensures var cl := pass.Kept(m)[VideoID(claims[k])];
            && (cl.claimId == claims[k].claimId ==> cl == claims[k])
            && (cl.claimId != claims[k].claimId ==> claims[k].height <= cl.height)
            && (cl.claimId != claims[k].claimId && MayAbandon(claims[k], publishAddress, isMine, rows) ==>
                  claims[k] !in pass.Now(m) && pass.Any(m))
  {
    var v := VideoID(claims[k]);
    assert Seen(pass, channel, publishAddress, isMine, rows, k);
    BestIsUnbeaten(pass.es, m, v, k);
    pass.KeptIsBest(m, v);
    var best := Best(pass.es, m, v).value;
    assert Seen(pass, channel, publishAddress, isMine, rows, best);
    if best != k {
      IdsDiffer(claims, best, k);
      assert !Beats(pass.es, k, best);
      if MayAbandon(claims[k], publishAddress, isMine, rows) {
        pass.LoserGoes(m, k);
      }
    }
  }

  // One claim of the list, as the code treats it

  /** The kept claims after `c`, and the one to abandon. */
  function Choice(videoIDs: map<string, Claim>, c: Claim, channel: string): (map<string, Claim>, Option<Claim>) {
    if !IsYtsyncClaim(c, channel) then (videoIDs, None)
    else
      var v := VideoID(c);
      if v !in videoIDs || videoIDs[v].claimId == c.claimId then (videoIDs[v := c], None)
      else if c.height > videoIDs[v].height then (videoIDs[v := c], Some(videoIDs[v]))
      else (videoIDs, Some(c))
  }

  /** The claim is to be abandoned, and this wallet may do it. */
  predicate Abandons(claim: Option<Claim>, publishAddress: string, isMine: bool, rows: Rows) {
    claim.Some? && claim.value.thumbnail.Some? && MayAbandon(claim.value, publishAddress, isMine, rows)
  }

  /** The code goes from `m` to `next` items of the pass when it treats claim `c`. */
  ghost predicate StepsTo(pass: Pass<Claim>, m: nat, next: nat, c: Claim, channel: string, publishAddress: string, isMine: bool, rows: Rows)
    requires pass.Valid() && m <= |pass.items| && next <= |pass.items|
  {
    var (kept, gone) := Choice(pass.Kept(m), c, channel);
    var abandons := Abandons(gone, publishAddress, isMine, rows);
    && kept == pass.Kept(next)
    && (gone.Some? ==> gone.value.thumbnail.Some?)
    && pass.Now(next) == pass.Now(m) - (if abandons then {gone.value} else {})
    && (pass.Any(next) <==> pass.Any(m) || abandons)
  }

  lemma ChoiceOfOther(pass: Pass<Claim>, channel: string, publishAddress: string, isMine: bool, rows: Rows, m: nat)
    requires PassesOver(pass, pass.items, channel, publishAddress, isMine, rows) && m < |pass.items|
    requires !IsYtsyncClaim(pass.items[m], channel)
    ensures StepsTo(pass, m, m + 1, pass.items[m], channel, publishAddress, isMine, rows)
  {
    assert Seen(pass, channel, publishAddress, isMine, rows, m);
  }

  lemma ChoiceOfNew(pass: Pass<Claim>, channel: string, publishAddress: string, isMine: bool, rows: Rows, m: nat)
    requires PassesOver(pass, pass.items, channel, publishAddress, isMine, rows) && m < |pass.items|
    requires IsYtsyncClaim(pass.items[m], channel) && VideoID(pass.items[m]) !in pass.Kept(m)
    ensures StepsTo(pass, m, m + 1, pass.items[m], channel, publishAddress, isMine, rows)
  {
    assert Seen(pass, channel, publishAddress, isMine, rows, m);
    pass.KeptIsBest(m, VideoID(pass.items[m]));
  }

  lemma ChoiceOfDuplicate(pass: Pass<Claim>, channel: string, publishAddress: string, isMine: bool, rows: Rows, m: nat)
    requires PassesOver(pass, pass.items, channel, publishAddress, isMine, rows) && m < |pass.items|
    requires NoRepeats(pass.items) && DistinctIds(AsSet(pass.items))
    requires IsYtsyncClaim(pass.items[m], channel) && VideoID(pass.items[m]) in pass.Kept(m)
    ensures StepsTo(pass, m, m + 1, pass.items[m], channel, publishAddress, isMine, rows)
  {
    var cl := Duplicate(pass, pass.items, channel, publishAddress, isMine, rows, m, VideoID(pass.items[m]));
  }

  lemma ChoiceOfFirst(pass: Pass<Claim>, channel: string, publishAddress: string, isMine: bool, rows: Rows, m: nat)
    requires PassesOver(pass, pass.items, channel, publishAddress, isMine, rows) && m < |pass.items|
    requires NoRepeats(pass.items) && DistinctIds(AsSet(pass.items))
    ensures StepsTo(pass, m, m + 1, pass.items[m], channel, publishAddress, isMine, rows)
  {
    if !IsYtsyncClaim(pass.items[m], channel) {
      ChoiceOfOther(pass, channel, publishAddress, isMine, rows, m);
    } else if VideoID(pass.items[m]) in pass.Kept(m) {
      ChoiceOfDuplicate(pass, channel, publishAddress, isMine, rows, m);
    } else {
      ChoiceOfNew(pass, channel, publishAddress, isMine, rows, m);
    }
  }

  lemma ChoiceOfRepeat(pass: Pass<Claim>, channel: string, publishAddress: string, isMine: bool, rows: Rows, m: nat, k: nat)
    requires PassesOver(pass, pass.items, channel, publishAddress, isMine, rows) && k < m <= |pass.items|
    requires NoRepeats(pass.items) && DistinctIds(AsSet(pass.items))
    ensures StepsTo(pass, m, m, pass.items[k], channel, publishAddress, isMine, rows)
  {
    assert Seen(pass, channel, publishAddress, isMine, rows, k);
    if IsYtsyncClaim(pass.items[k], channel) {
      RepeatIsIdle(pass, pass.items, channel, publishAddress, isMine, rows, m, k);
    }
  }

  lemma OnceOneMore(claims: seq<Claim>, n: nat)
    requires n < |claims|
    ensures var before := Once(claims[..n]);
            Once(claims[..n + 1]) == if claims[n] in before then before else before + [claims[n]]
  {
    assert claims[..n + 1][..n] == claims[..n];
  }

  /** The next claim of a list is its next first occurrence, or one that has occurred. */
  lemma NextOccurrence(claims: seq<Claim>, n: nat, m: nat)
    requires n < |claims| && m <= |Once(claims)| && Once(claims[..n]) == Once(claims)[..m]
    ensures claims[n] !in Once(claims[..n]) ==>
              m < |Once(claims)| && Once(claims)[m] == claims[n] && Once(claims[..n + 1]) == Once(claims)[..m + 1]
    ensures claims[n] in Once(claims[..n]) ==> Once(claims[..n + 1]) == Once(claims)[..m] && claims[n] in Once(claims)[..m]
  {
    OnceOneMore(claims, n);
    OnceOfPrefix(claims, n + 1);
  }

  /** What the code does with claim `n` of the list: `m` first occurrences came before it. */
  lemma ChoiceOfNext(pass: Pass<Claim>, claims: seq<Claim>, channel: string, publishAddress: string, isMine: bool, rows: Rows, n: nat, m: nat)
    returns (next: nat)
    requires PassesOver(pass, Once(claims), channel, publishAddress, isMine, rows)
    requires NoRepeats(pass.items) && DistinctIds(AsSet(pass.items))
    requires n < |claims| && m <= |pass.items| && Once(claims[..n]) == pass.items[..m]
    ensures next <= |pass.items| && Once(claims[..n + 1]) == pass.items[..next]
    ensures StepsTo(pass, m, next, claims[n], channel, publishAddress, isMine, rows)
  {
    NextOccurrence(claims, n, m);
    if claims[n] in Once(claims[..n]) {
      next := m;
      var k: nat :| k < m && pass.items[k] == claims[n];
      ChoiceOfRepeat(pass, channel, publishAddress, isMine, rows, m, k);
    } else {
      next := m + 1;
      ChoiceOfFirst(pass, channel, publishAddress, isMine, rows, m);
    }
  }

  // What abandoning the doomed claims leaves

  /** The claims of one channel among those of the chain. */
  ghost predicate ListsChannel(claims: seq<Claim>, live: set<Claim>, channel: string) {
    NoRepeats(claims) && forall c :: c in claims <==> c in live && c.signingChannel == Some(channel)
  }

  lemma ListedAreLive(claims: seq<Claim>, live: set<Claim>, channel: string)
    requires ListsChannel(claims, live, channel)
    ensures AsSet(claims) <= live && Once(claims) == claims
  {
    OnceOfNoRepeats(claims);
  }

  /** A pass over the channel's claims does to all claims what it does to the channel's. */
  lemma FixedForAll(before: set<Claim>, now: set<Claim>, ok: bool, claims: seq<Claim>, channel: string, publishAddress: string,
                    isMine: bool, rows: Rows)
    requires ListsChannel(claims, before, channel)
    requires Fixed(before, now, ok, AsSet(claims), channel, publishAddress, isMine, rows)
    ensures Fixed(before, now, ok, before, channel, publishAddress, isMine, rows)
  {
    var all := AsSet(claims);
    forall c | HasToGo(c, before, channel, publishAddress, isMine, rows) ensures HasToGo(c, all, channel, publishAddress, isMine, rows) {
      var d :| d in before && SameVideo(c, d, channel) && c.height < d.height;
      assert d in all;
    }
    forall c | c in before && c !in now ensures GoesRightly(c, before, channel, publishAddress, isMine, rows) {
      var d :| d in all && Rivals(c, d, channel);
      assert d in before;
    }
  }

  /** Every claim that can lose against another one may be abandoned. */
  ghost predicate DuplicatesAreOurs(live: set<Claim>, channel: string, publishAddress: string, isMine: bool, rows: Rows) {
    forall c, d {:trigger Rivals(c, d, channel)} | c in live && d in live && Rivals(c, d, channel) ::
      MayAbandon(c, publishAddress, isMine, rows)
  }

  /** No claim of the video is higher than `top`. */
  ghost predicate Highest(top: Claim, live: set<Claim>, channel: string) {
    && top in live && IsYtsyncClaim(top, channel)
    && forall c | c in live && IsYtsyncClaim(c, channel) && VideoID(c) == VideoID(top) :: c.height <= top.height
  }

  lemma Locate(pass: Pass<Claim>, claims: seq<Claim>, channel: string, publishAddress: string, isMine: bool, rows: Rows,
               live: set<Claim>, c: Claim) returns (i: nat)
    requires PassesOver(pass, claims, channel, publishAddress, isMine, rows) && ListsChannel(claims, live, channel)
    requires c in live && IsYtsyncClaim(c, channel)
    ensures i < |claims| && claims[i] == c
    ensures pass.es[i] == Entry(Some(VideoID(c)), c.height)
    ensures pass.ours[i] <==> MayAbandon(c, publishAddress, isMine, rows)
  {
    i :| i < |claims| && claims[i] == c;
    assert Seen(pass, channel, publishAddress, isMine, rows, i);
  }

  /** Every video keeps one of its highest claims; it is the only one left if the others were ours. */
  lemma HighestStays(pass: Pass<Claim>, claims: seq<Claim>, channel: string, publishAddress: string, isMine: bool, rows: Rows,
                     live: set<Claim>, c: Claim) returns (top: Claim)
    requires PassesOver(pass, claims, channel, publishAddress, isMine, rows) && ListsChannel(claims, live, channel)
    requires c in live && IsYtsyncClaim(c, channel)
    ensures top in live - pass.Doomed() && Highest(top, live, channel) && VideoID(top) == VideoID(c)
    ensures DuplicatesAreOurs(live, channel, publishAddress, isMine, rows) && c !in pass.Doomed() ==> c == top
  {
    var i := Locate(pass, claims, channel, publishAddress, isMine, rows, live, c);
    var k := pass.BestStays(i);
    top := claims[k];
    assert Seen(pass, channel, publishAddress, isMine, rows, k);
    assert top in claims;
    forall d | d in live && IsYtsyncClaim(d, channel) && VideoID(d) == VideoID(top) ensures d.height <= top.height {
      var j := Locate(pass, claims, channel, publishAddress, isMine, rows, live, d);
    }
    if DuplicatesAreOurs(live, channel, publishAddress, isMine, rows) && c != top {
      assert Rivals(c, top, channel);
    }
  }

  /** The video of claim `c` still has a claim that was one of its highest. */
  ghost predicate VideoStays(c: Claim, before: set<Claim>, now: set<Claim>, channel: string)
    requires c.thumbnail.Some?
  {
    exists top :: top in now && Highest(top, before, channel) && VideoID(top) == VideoID(c)
  }

  ghost predicate NoVideoLost(before: set<Claim>, now: set<Claim>, channel: string) {
    forall c {:trigger VideoStays(c, before, now, channel)} | c in before && IsYtsyncClaim(c, channel) ::
      VideoStays(c, before, now, channel)
  }

  /** All that is left of a video's claims was one of its highest. */
  ghost predicate OnlyHighest(before: set<Claim>, now: set<Claim>, channel: string) {
    forall c {:trigger Highest(c, before, channel)} | c in now && IsYtsyncClaim(c, channel) :: Highest(c, before, channel)
  }

  lemma AfterAbandoning(pass: Pass<Claim>, claims: seq<Claim>, channel: string, publishAddress: string, isMine: bool, rows: Rows,
                        before: set<Claim>, now: set<Claim>)
    requires PassesOver(pass, claims, channel, publishAddress, isMine, rows) && ListsChannel(claims, before, channel)
    requires before - pass.Doomed() <= now <= before
    ensures NoVideoLost(before, now, channel)
    ensures now == before - pass.Doomed() && DuplicatesAreOurs(before, channel, publishAddress, isMine, rows) ==>
              OnlyHighest(before, now, channel)
  {
    forall c | c in before && IsYtsyncClaim(c, channel)
      ensures VideoStays(c, before, now, channel)
      ensures now == before - pass.Doomed() && DuplicatesAreOurs(before, channel, publishAddress, isMine, rows) && c in now ==>
                Highest(c, before, channel)
    {
      var top := HighestStays(pass, claims, channel, publishAddress, isMine, rows, before, c);
      assert now == before - pass.Doomed() && DuplicatesAreOurs(before, channel, publishAddress, isMine, rows) && c in now ==> c == top;
    }
  }

  /** What a pass over a channel's claims has done to the claims on the chain, if it was successful or not:
    * only claims that may go went, no video lost its highest one, and after a successful pass none is left
    * that has to go, and only highest ones if the duplicates were ours. */
  ghost predicate Deduped(before: set<Claim>, now: set<Claim>, ok: bool, channel: string, publishAddress: string, isMine: bool, rows: Rows) {
    && (now == before || NoVideoLost(before, now, channel))
    && (ok && DuplicatesAreOurs(before, channel, publishAddress, isMine, rows) ==> OnlyHighest(before, now, channel))
    && Fixed(before, now, ok, before, channel, publishAddress, isMine, rows)
  }

  lemma NothingDone(live: set<Claim>, channel: string, publishAddress: string, isMine: bool, rows: Rows)
    ensures Deduped(live, live, false, channel, publishAddress, isMine, rows)
  {
  }

  /** What holds after a successful pass holds if something fails later. */
  lemma CutShort(before: set<Claim>, now: set<Claim>, ok: bool, channel: string, publishAddress: string, isMine: bool, rows: Rows)
    requires Deduped(before, now, ok, channel, publishAddress, isMine, rows)
    ensures Deduped(before, now, false, channel, publishAddress, isMine, rows)
  {
  }

  lemma PassDone(pass: Pass<Claim>, claims: seq<Claim>, channel: string, publishAddress: string, isMine: bool, rows: Rows,
                 before: set<Claim>, now: set<Claim>, ok: bool)
    requires ListsChannel(claims, before, channel) && PassesOver(pass, claims, channel, publishAddress, isMine, rows)
    requires before - pass.Doomed() <= now <= before && (ok ==> now == before - pass.Doomed())
    requires Fixed(before, now, ok, AsSet(claims), channel, publishAddress, isMine, rows)
    ensures Deduped(before, now, ok, channel, publishAddress, isMine, rows)
  {
    AfterAbandoning(pass, claims, channel, publishAddress, isMine, rows, before, now);
    FixedForAll(before, now, ok, claims, channel, publishAddress, isMine, rows);
  }
}
