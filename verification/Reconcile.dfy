/** What it means that the database agrees with the chain. */
module Reconcile {
  import opened Collections
  import opened Claims
  import opened Remote
  import opened Dedup
  import opened Latest

  /** What the chain says about a video. */
  datatype YtsyncClaim = YtsyncClaim(claimId: string, metadataVersion: int, claimName: string, address: string, claim: Claim)

  function InfoOf(c: Claim): YtsyncClaim
    requires c.thumbnail.Some?
  {
    YtsyncClaim(c.claimId, MetadataVersion(c), c.name, c.address, c)
  }

  /** The row of `videoID` says what the chain says. */
  predicate Agrees(row: SyncedVideo, info: YtsyncClaim, transferred: bool) {
    && row.published
    && row.claimId == info.claimId
    && row.claimName == info.claimName
    && row.metadataVersion == info.metadataVersion
    && row.transferred == transferred
  }

  /** The row claims a publication that this wallet does not have. */
  predicate Stale(videoID: string, row: SyncedVideo, own: set<string>) {
    row.published && !row.transferred && videoID !in own
  }

  /** Chain videos whose row is missing or wrong. */
  function Differing(rows: Rows, all: map<string, YtsyncClaim>, own: set<string>, manual: bool): set<string> {
    set v | v in all && !(v in rows && Agrees(rows[v], all[v], v !in own || manual))
  }

  function StaleIds(rows: Rows, own: set<string>): set<string> {
    set v | v in rows && Stale(v, rows[v], own)
  }

  /** Every chain video's row says what the chain says, and every other row is as it was, except
    * that with `remove` the stale ones are gone. */
  ghost predicate Reconciled(before: Rows, after: Rows, all: map<string, YtsyncClaim>, own: set<string>, manual: bool, remove: bool) {
    && (forall v | v in all :: v in after && Agrees(after[v], all[v], v !in own || manual))
    && (forall v | v in after && v !in all :: v in before && after[v] == before[v] && !(remove && Stale(v, before[v], own)))
    && (forall v | v in before && v !in all && !(remove && Stale(v, before[v], own)) :: v in after)
  }

  /** The rows of the given chain videos say what the chain says, and every other row is as it was. */
  ghost predicate Corrected(before: Rows, after: Rows, which: set<string>, all: map<string, YtsyncClaim>, own: set<string>, manual: bool)
    requires which <= all.Keys
  {
    forall v ::
      if v in which then v in after && Agrees(after[v], all[v], v !in own || manual)
      else (v in after <==> v in before) && (v in after ==> after[v] == before[v])
  }

  lemma OneMoreCorrected(before: Rows, rows: Rows, which: set<string>, all: map<string, YtsyncClaim>, own: set<string>, manual: bool,
                         v: string, row: SyncedVideo)
    requires which <= all.Keys && v in all && Corrected(before, rows, which, all, own, manual)
    requires Agrees(row, all[v], v !in own || manual)
    ensures Corrected(before, rows[v := row], which + {v}, all, own, manual)
  {
  }

  lemma OneLessToDo(differing: set<string>, todo: set<string>, v: string)
    requires v in todo
    ensures v in differing ==>
              && differing - (todo - {v}) == (differing - todo) + {v}
              && |differing - (todo - {v})| == |differing - todo| + 1
    ensures v !in differing ==> differing - (todo - {v}) == differing - todo
  {
    if v in differing {
      assert differing - (todo - {v}) == (differing - todo) + {v};
    }
  }

  lemma CorrectedNothing(before: Rows, after: Rows, all: map<string, YtsyncClaim>, own: set<string>, manual: bool)
    requires Corrected(before, after, Differing(before, all, own, manual), all, own, manual)
    ensures Differing(before, all, own, manual) == {} ==> after == before
  {
    if Differing(before, all, own, manual) == {} {
      forall v ensures (v in after <==> v in before) && (v in after ==> after[v] == before[v]) {
      }
    }
  }

  /** No row that `Agrees` is stale, so removing the stale rows never removes a chain video's row. */
  lemma CorrectingThenRemoving(before: Rows, mid: Rows, all: map<string, YtsyncClaim>, own: set<string>, manual: bool, remove: bool)
    requires Corrected(before, mid, Differing(before, all, own, manual), all, own, manual)
    ensures StaleIds(mid, own) == StaleIds(before, own) - all.Keys
    ensures Reconciled(before, if remove then mid - StaleIds(mid, own) else mid, all, own, manual, remove)
  {
    forall v | v in all ensures v in mid && Agrees(mid[v], all[v], v !in own || manual) {
    }
    forall v ensures v in StaleIds(mid, own) <==> v in StaleIds(before, own) - all.Keys {
      assert v in Differing(before, all, own, manual) ==> v in all;
    }
  }

  /** One pass is enough: nothing differs any more, and with removal on nothing is stale. */
  lemma SecondPassFindsNothing(before: Rows, after: Rows, all: map<string, YtsyncClaim>, own: set<string>, manual: bool, remove: bool)
    requires Reconciled(before, after, all, own, manual, remove)
    ensures Differing(after, all, own, manual) == {}
    ensures remove ==> StaleIds(after, own) == {}
    ensures forall again | Reconciled(after, again, all, own, manual, remove) :: again.Keys == after.Keys
  {
    forall again | Reconciled(after, again, all, own, manual, remove) ensures again.Keys == after.Keys {
      forall v ensures v in again.Keys <==> v in after.Keys {
      }
    }
  }

  /** There are never more videos on the chain than published rows. */
  lemma PublishedRowsCoverTheChain(before: Rows, after: Rows, all: map<string, YtsyncClaim>, own: set<string>, manual: bool, remove: bool)
    requires Reconciled(before, after, all, own, manual, remove)
    ensures |all| <= |set v | v in after && after[v].published|
  {
    var published := set v | v in after && after[v].published;
    assert all.Keys <= published;
    SubsetIsSmaller(all.Keys, published);
  }

  /** After a pass the names on the chain are among those that the rows mention. */
  lemma ChainNamesAreMentioned(before: Rows, after: Rows, all: map<string, YtsyncClaim>, own: set<string>, manual: bool, remove: bool, v: string)
    requires Reconciled(before, after, all, own, manual, remove) && v in all && all[v].claimName != ""
    ensures all[v].claimName in ClaimNames(after)
  {
    assert Agrees(after[v], all[v], v !in own || manual);
  }

  // The claims of a list by video

  function TaggedClaim(c: Claim, channel: string): (t: Tagged<YtsyncClaim>)
    ensures t.Item? <==> IsYtsyncClaim(c, channel)
    ensures t.Item? ==> t == Item(VideoID(c), InfoOf(c))
  {
    if IsYtsyncClaim(c, channel) then Item(VideoID(c), InfoOf(c)) else Skip
  }

  function TaggedClaims(claims: seq<Claim>, channel: string): (ts: seq<Tagged<YtsyncClaim>>)
    ensures |ts| == |claims|
    ensures forall i | 0 <= i < |ts| :: ts[i] == TaggedClaim(claims[i], channel)
  {
    seq(|claims|, i requires 0 <= i < |claims| => TaggedClaim(claims[i], channel))
  }

  /** The claims that ytsync made, by video; a later claim replaces an earlier one. */
  function MapOf(claims: seq<Claim>, channel: string): map<string, YtsyncClaim> {
    LatestWins(TaggedClaims(claims, channel), |claims|)
  }

  /** The map has, for video `v`, what one of the claims says. */
  ghost predicate NamesOne(all: map<string, YtsyncClaim>, v: string, live: set<Claim>, channel: string)
    requires v in all
  {
    exists c :: c in live && IsYtsyncClaim(c, channel) && VideoID(c) == v && all[v] == InfoOf(c)
  }

  /** The map names, for exactly the videos that have a ytsync claim, one of the claims. */
  ghost predicate Names(all: map<string, YtsyncClaim>, live: set<Claim>, channel: string) {
    && (forall c | c in live && IsYtsyncClaim(c, channel) :: VideoID(c) in all)
    && (forall v {:trigger NamesOne(all, v, live, channel)} | v in all :: NamesOne(all, v, live, channel))
  }

  lemma MapOfNames(claims: seq<Claim>, live: set<Claim>, channel: string)
    requires ListsChannel(claims, live, channel)
    ensures Names(MapOf(claims, channel), live, channel)
  {
    var ts := TaggedClaims(claims, channel);
    forall c | c in live && IsYtsyncClaim(c, channel) ensures VideoID(c) in MapOf(claims, channel) {
      var i: nat :| i < |claims| && claims[i] == c;
      assert ts[i] == TaggedClaim(c, channel);
      HasEveryKey(ts, |claims|, i);
    }
    forall v | v in MapOf(claims, channel) ensures NamesOne(MapOf(claims, channel), v, live, channel) {
      var i := IsTheLatest(ts, |claims|, v);
      assert ts[i] == TaggedClaim(claims[i], channel);
      assert claims[i] in claims;
    }
  }

  /** Every claim of the map has an id and a name, as the database demands. */
  ghost predicate NoneIsNameless(all: map<string, YtsyncClaim>) {
    forall v | v in all :: all[v].claimId != "" && all[v].claimName != ""
  }

  ghost predicate ClaimsAreNamed(live: set<Claim>) {
    forall c | c in live :: c.claimId != "" && c.name != ""
  }

  lemma NamedClaimsMakeNamedRows(all: map<string, YtsyncClaim>, before: set<Claim>, now: set<Claim>, channel: string)
    requires Names(all, now, channel) && now <= before
    ensures ClaimsAreNamed(before) ==> NoneIsNameless(all)
  {
    forall v | v in all && ClaimsAreNamed(before) ensures all[v].claimId != "" && all[v].claimName != "" {
      assert NamesOne(all, v, now, channel);
    }
  }

  /** The row of the video of claim `c` is published and names one of its highest claims. */
  ghost predicate RowNamesHighest(c: Claim, before: set<Claim>, rows: Rows, channel: string)
    requires c.thumbnail.Some?
  {
    && VideoID(c) in rows && rows[VideoID(c)].published
    && exists top :: Highest(top, before, channel) && VideoID(top) == VideoID(c)
         && rows[VideoID(c)].claimId == top.claimId && rows[VideoID(c)].claimName == top.name
         && rows[VideoID(c)].metadataVersion == MetadataVersion(top)
  }

  ghost predicate RowsNameHighest(before: set<Claim>, rows: Rows, channel: string) {
    forall c {:trigger RowNamesHighest(c, before, rows, channel)} | c in before && IsYtsyncClaim(c, channel) ::
      RowNamesHighest(c, before, rows, channel)
  }

  /** End to end: when the lost claims were ours to abandon, then for every video there was a claim
    * for, the database has a published row, and it names a claim as high as any there was. */
  lemma RowsNameTheHighestClaims(before: set<Claim>, now: set<Claim>, channel: string, all: map<string, YtsyncClaim>,
                                 rows: Rows, rows': Rows, own: set<string>, manual: bool, remove: bool)
    requires NoVideoLost(before, now, channel) && OnlyHighest(before, now, channel)
    requires Names(all, now, channel) && Reconciled(rows, rows', all, own, manual, remove)
    ensures RowsNameHighest(before, rows', channel)
  {
    forall c | c in before && IsYtsyncClaim(c, channel) ensures RowNamesHighest(c, before, rows', channel) {
      assert VideoStays(c, before, now, channel);
      var kept :| kept in now && Highest(kept, before, channel) && VideoID(kept) == VideoID(c);
      assert NamesOne(all, VideoID(c), now, channel);
      var top :| top in now && IsYtsyncClaim(top, channel) && VideoID(top) == VideoID(c) && all[VideoID(c)] == InfoOf(top);
      assert Highest(top, before, channel);
    }
  }

  /** If nothing was abandoned, every video still has its highest claim. */
  lemma KeptVideos(before: set<Claim>, now: set<Claim>, channel: string)
    requires before == now || NoVideoLost(before, now, channel)
    requires OnlyHighest(before, now, channel)
    ensures NoVideoLost(before, now, channel)
  {
    forall c | c in before && IsYtsyncClaim(c, channel) ensures VideoStays(c, before, now, channel) {
      if before == now {
        assert Highest(c, before, channel);
      } else {
        assert VideoStays(c, before, now, channel);
      }
    }
  }

  /** What a reconciled database says about the claims of the chain, and about those there were. */
  lemma ReconciledRows(before: set<Claim>, now: set<Claim>, channel: string, all: map<string, YtsyncClaim>,
                       rows: Rows, rows': Rows, own: set<string>, manual: bool, remove: bool)
    requires before == now || NoVideoLost(before, now, channel)
    requires Names(all, now, channel) && Reconciled(rows, rows', all, own, manual, remove)
    ensures |all| <= |set v | v in rows' && rows'[v].published|
    ensures forall v | v in all && all[v].claimName != "" :: all[v].claimName in ClaimNames(rows')
    ensures OnlyHighest(before, now, channel) ==> RowsNameHighest(before, rows', channel)
  {
    PublishedRowsCoverTheChain(rows, rows', all, own, manual, remove);
    forall v | v in all && all[v].claimName != "" ensures all[v].claimName in ClaimNames(rows') {
      ChainNamesAreMentioned(rows, rows', all, own, manual, remove, v);
    }
    if OnlyHighest(before, now, channel) {
      KeptVideos(before, now, channel);
      RowsNameTheHighestClaims(before, now, channel, all, rows, rows', own, manual, remove);
    }
  }
}
