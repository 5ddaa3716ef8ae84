/** Bringing the database into agreement with the chain: abandoning duplicate claims, then
  * correcting and removing rows. Iterations over maps come in any order.
  */
module Integrity {
  import opened Options
  import opened Collections
  import opened Ranking
  import opened Claims
  import opened Remote
  import opened Dedup
  import opened Latest
  import opened Reconcile
  import Namer

  // Transfer states of a channel
  const TRANSFER_STATE_MANUAL := 3

  class Sync {
    const channelClaimID: string
    const publishAddress: string
    const publishAddressIsMine: bool
    const transferState: int
    const removeDBUnpublished: bool
    const defaultAccount: string
    const chain: Chain
    const db: Database
    const namer: Namer.Namer
    var syncedVideos: Rows

    constructor (channel: string, address: string, mine: bool, state: int, remove: bool, account: string, c: Chain, d: Database,
                 n: Namer.Namer)
      ensures channelClaimID == channel && publishAddress == address && publishAddressIsMine == mine
      ensures transferState == state && removeDBUnpublished == remove && defaultAccount == account && chain == c && db == d && namer == n
    {
      channelClaimID, publishAddress, publishAddressIsMine := channel, address, mine;
      transferState, removeDBUnpublished, defaultAccount, chain, db, namer := state, remove, account, c, d, n;
    }

    /** One claim of the list: keeps the better of it and the one kept so far, and says which to abandon. */
    method ChooseClaim(c: Claim, videoIDs: map<string, Claim>) returns (videoIDs': map<string, Claim>, claimToAbandon: Option<Claim>)
      ensures (videoIDs', claimToAbandon) == Choice(videoIDs, c, channelClaimID)
    {
      videoIDs', claimToAbandon := videoIDs, None;
      if !IsYtsyncClaim(c, channelClaimID) {
        return;
      }
      var videoID := VideoID(c);
      if videoID !in videoIDs || videoIDs[videoID].claimId == c.claimId {
        videoIDs' := videoIDs[videoID := c];
        return;
      }
      // only keep the most recent one
      var cl := videoIDs[videoID];
      claimToAbandon := Some(c);
      if c.height > cl.height {
        claimToAbandon := Some(cl);
        videoIDs' := videoIDs[videoID := c];
      }
    }

    /** Abandons a claim exactly when another claim of the list for the same video is kept and this
      * wallet may abandon it. After a failed call some of those claims may still be there. A claim may
      * be in the list more than once. */
    method FixDupes(claims: seq<Claim>) returns (abandonedClaims: bool, ok: bool, ghost pass: Pass<Claim>)
      requires DistinctIds(AsSet(claims))
      modifies chain`live
      ensures PassesOver(pass, Once(claims), channelClaimID, publishAddress, publishAddressIsMine, syncedVideos)
      ensures old(chain.live) - pass.Doomed() <= chain.live <= old(chain.live)
      ensures ok ==> chain.live == old(chain.live) - pass.Doomed() && (abandonedClaims <==> pass.Doomed() != {})
      ensures chain.working ==> ok
      ensures Fixed(old(chain.live), chain.live, ok, AsSet(claims), channelClaimID, publishAddress, publishAddressIsMine, syncedVideos)
      ensures AsSet(claims) <= old(chain.live) && ok ==> (abandonedClaims <==> chain.live != old(chain.live))
      ensures AllEndDifferently(claims) ==> ok && !abandonedClaims && chain.live == old(chain.live)
    {
      abandonedClaims, ok := false, true;
      pass := MakePass(Once(claims), channelClaimID, publishAddress, publishAddressIsMine, syncedVideos, chain.live);
      OnceHasAll(claims);
      assert AsSet(pass.items) == AsSet(claims);
      var videoIDs: map<string, Claim> := map[];
      var n := 0;
      ghost var m: nat := 0;
      while n < |claims|
        invariant ok && n <= |claims| && m <= |pass.items| && Once(claims[..n]) == pass.items[..m]
        invariant videoIDs == pass.Kept(m)
        invariant chain.live == pass.Now(m) && abandonedClaims == pass.Any(m)
      {
        ghost var next := ChoiceOfNext(pass, claims, channelClaimID, publishAddress, publishAddressIsMine, syncedVideos, n, m);
        pass.OnlyDoomedGo(m);
        pass.OnlyDoomedGo(next);
        var claimToAbandon;
        videoIDs, claimToAbandon := ChooseClaim(claims[n], videoIDs);
        n, m := n + 1, next;
        if Abandons(claimToAbandon, publishAddress, publishAddressIsMine, syncedVideos) {
          ok := chain.StreamAbandon(claimToAbandon.value);
          abandonedClaims := true;
          if !ok {
            break;
          }
        }
      }
      if ok {
        assert claims[..n] == claims;
        pass.AllDoomedGo();
      }
      PassFixes(pass, claims, channelClaimID, publishAddress, publishAddressIsMine, syncedVideos, old(chain.live), chain.live, ok);
    }

    method MapFromClaims(claims: seq<Claim>) returns (videoIDMap: map<string, YtsyncClaim>)
      ensures videoIDMap == MapOf(claims, channelClaimID)
    {
      videoIDMap := map[];
      ghost var tagged := TaggedClaims(claims, channelClaimID);
      for n := 0 to |claims|
        invariant videoIDMap == LatestWins(tagged, n)
      {
        var c := claims[n];
        assert tagged[n] == TaggedClaim(c, channelClaimID);
        if IsYtsyncClaim(c, channelClaimID) {
          videoIDMap := videoIDMap[VideoID(c) := InfoOf(c)];
        }
      }
    }

    /** The namer knows exactly the names that the rows in memory mention. */
    ghost predicate NamesAreLoaded()
      reads this, namer
    {
      namer.names.Keys == ClaimNames(syncedVideos)
    }

    /** Marks the channel as syncing and reloads the rows, and the namer's names with them. */
    method SetStatusSyncing() returns (ok: bool)
      modifies this`syncedVideos, namer
      ensures syncedVideos == if ok then db.rows else old(syncedVideos)
      ensures db.working ==> ok
      ensures ok ==> NamesAreLoaded() && namer.Valid() && namer.handedOut == []
      ensures !ok ==> namer.names == old(namer.names) && namer.handedOut == old(namer.handedOut)
    {
      var svs, claimNames;
      ok, svs, claimNames := db.SetChannelStatus();
      if ok {
        syncedVideos := svs;
        namer.SetNames(claimNames);
      }
    }

    predicate Manual() {
      transferState == TRANSFER_STATE_MANUAL
    }

    /** Records one chain video as published if its row, as last loaded, is missing or wrong. */
    method FixRow(videoID: string, chainInfo: YtsyncClaim, own: set<string>) returns (wrong: bool, ok: bool, ghost row: SyncedVideo)
      modifies db
      ensures !wrong <==> videoID in syncedVideos && Agrees(syncedVideos[videoID], chainInfo, videoID !in own || Manual())
      ensures ok && wrong ==> db.rows == old(db.rows)[videoID := row] && Agrees(row, chainInfo, videoID !in own || Manual())
      ensures wrong ==> row.size == if chainInfo.claim.sourceSize.Some? then chainInfo.claim.sourceSize.value else 0
      ensures !wrong ==> ok && db.rows == old(db.rows)
      ensures db.working && chainInfo.claimId != "" && chainInfo.claimName != "" ==> ok
    {
      ok, row := true, *;
      var claimInDatabase := videoID in syncedVideos;
      var metadataDiffers := claimInDatabase && syncedVideos[videoID].metadataVersion != chainInfo.metadataVersion;
      var claimIDDiffers := claimInDatabase && syncedVideos[videoID].claimId != chainInfo.claimId;
      var claimNameDiffers := claimInDatabase && syncedVideos[videoID].claimName != chainInfo.claimName;
      var claimMarkedUnpublished := claimInDatabase && !syncedVideos[videoID].published;
      var isOwnClaim := videoID in own;
      var transferred := !isOwnClaim || transferState == TRANSFER_STATE_MANUAL;
      var transferStatusMismatch := claimInDatabase && syncedVideos[videoID].transferred != transferred;
      wrong := !claimInDatabase || metadataDiffers || claimIDDiffers || claimNameDiffers || claimMarkedUnpublished || transferStatusMismatch;
      if wrong {
        var claimSize := if chainInfo.claim.sourceSize.Some? then chainInfo.claim.sourceSize.value else 0;
        ok, row := db.MarkPublished(videoID, chainInfo.claimId, chainInfo.claimName, claimSize, chainInfo.metadataVersion, transferred);
      }
    }

    /** Corrects every chain video whose row, as last loaded, is missing or wrong, and counts them. */
    method FixRows(all: map<string, YtsyncClaim>, own: set<string>) returns (fixed: nat, ok: bool)
      modifies db
      ensures ok ==> fixed == |Differing(syncedVideos, all, own, Manual())|
      ensures ok ==> Corrected(old(db.rows), db.rows, Differing(syncedVideos, all, own, Manual()), all, own, Manual())
      ensures db.working && NoneIsNameless(all) ==> ok
    {
      fixed, ok := 0, true;
      var todo := all.Keys;
      ghost var before, differing := db.rows, Differing(syncedVideos, all, own, Manual());
      ghost var done: set<string> := {};
      while todo != {}
        invariant todo <= all.Keys && done <= all.Keys && done == differing - todo && fixed == |done|
        invariant Corrected(before, db.rows, done, all, own, Manual())
        decreases todo
      {
        var videoID :| videoID in todo;
        OneLessToDo(differing, todo, videoID);
        todo := todo - {videoID};
        ghost var rows := db.rows;
        var wrong; ghost var row;
        wrong, ok, row := FixRow(videoID, all[videoID], own);
        assert wrong <==> videoID in differing;
        if wrong {
          fixed := fixed + 1;
        }
        if !ok {
          return;
        }
        if wrong {
          OneMoreCorrected(before, rows, done, all, own, Manual(), videoID, row);
          done := done + {videoID};
        }
      }
    }

    /** The rows, as last loaded, that claim a publication this wallet does not have. */
    method CollectStale(own: set<string>) returns (idsToRemove: set<string>)
      ensures idsToRemove == StaleIds(syncedVideos, own)
    {
      idsToRemove := {};
      var todo := syncedVideos.Keys;
      while todo != {}
        invariant todo <= syncedVideos.Keys && idsToRemove == StaleIds(syncedVideos, own) - todo
        decreases todo
      {
        var vID :| vID in todo;
        todo := todo - {vID};
        var sv := syncedVideos[vID];
        // a transferred row is left alone, whatever a search for its claim finds
        if !sv.transferred && vID !in own && sv.published {
          idsToRemove := idsToRemove + {vID};
        }
      }
    }

    /** Corrects the rows of the chain videos, and loads them again if any was wrong. */
    method CorrectRows(all: map<string, YtsyncClaim>, own: set<string>) returns (fixed: nat, ok: bool)
      modifies this`syncedVideos, db, namer
      ensures ok && old(NamesAreLoaded()) ==> NamesAreLoaded()
      ensures ok ==> fixed == |Differing(old(syncedVideos), all, own, Manual())|
      ensures ok && fixed == 0 ==> syncedVideos == old(syncedVideos)
      ensures ok && old(syncedVideos) == old(db.rows) ==>
                && syncedVideos == db.rows
                && Corrected(old(db.rows), db.rows, Differing(old(db.rows), all, own, Manual()), all, own, Manual())
      ensures db.working && NoneIsNameless(all) ==> ok
    {
      fixed, ok := FixRows(all, own);
      if ok && fixed > 0 {
        ok := SetStatusSyncing();
      } else if ok && old(syncedVideos) == old(db.rows) {
        CorrectedNothing(old(db.rows), db.rows, all, own, Manual());
      }
    }

    /** Removes the stale rows, if that was asked for, and loads the rest again. */
    method RemoveStale(own: set<string>) returns (removed: nat, ok: bool)
      modifies this`syncedVideos, db, namer
      ensures ok && old(NamesAreLoaded()) ==> NamesAreLoaded()
      ensures ok && old(syncedVideos) == old(db.rows) ==>
                && syncedVideos == db.rows
                && db.rows == (if removeDBUnpublished then old(db.rows) - StaleIds(old(db.rows), own) else old(db.rows))
                && removed == (if removeDBUnpublished && StaleIds(old(db.rows), own) != {} then 1 else 0)
      ensures ok && removed == 0 ==> syncedVideos == old(syncedVideos)
      ensures db.working ==> ok
    {
      removed, ok := 0, true;
      var idsToRemove := CollectStale(own);
      if removeDBUnpublished && idsToRemove != {} {
        ok := db.DeleteVideos(idsToRemove);
        if !ok {
          removed := |idsToRemove|;
          return;
        }
        removed := 1;
      } else {
        assert idsToRemove == {} ==> db.rows - idsToRemove == db.rows;
      }
      if removed > 0 {
        ok := SetStatusSyncing();
      }
    }

    /** If the rows had been loaded as they are, a successful pass reconciles the database with the
      * two lists of claims, leaves the rows loaded as they are, and counts what it did. */
    method UpdateRemoteDB(claims: seq<Claim>, ownClaims: seq<Claim>) returns (total: nat, fixed: nat, removed: nat, ok: bool)
      modifies this`syncedVideos, db, namer
      ensures ok && old(NamesAreLoaded()) ==> NamesAreLoaded()
      ensures var all, own := MapOf(claims, channelClaimID), MapOf(ownClaims, channelClaimID).Keys;
              && total == |all|
              && (ok ==> fixed == |Differing(old(syncedVideos), all, own, Manual())|)
              && (ok && old(syncedVideos) == old(db.rows) ==>
                    && syncedVideos == db.rows
                    && Reconciled(old(db.rows), db.rows, all, own, Manual(), removeDBUnpublished)
                    && removed == (if removeDBUnpublished && StaleIds(old(db.rows), own) - all.Keys != {} then 1 else 0))
              && (db.working && NoneIsNameless(all) ==> ok)
    {
      var all := MapFromClaims(claims);
      var ownClaimsInfo := MapFromClaims(ownClaims);
      total, removed := |all|, 0;
      fixed, ok := CorrectRows(all, ownClaimsInfo.Keys);
      if !ok {
        return;
      }
      if old(syncedVideos) == old(db.rows) {
        CorrectingThenRemoving(old(db.rows), db.rows, all, ownClaimsInfo.Keys, Manual(), removeDBUnpublished);
      }
      removed, ok := RemoveStale(ownClaimsInfo.Keys);
    }

    ghost function DefaultAccountClaims(): set<Claim>
      reads this, chain
    {
      set c | c in chain.listed && c.account == defaultAccount
    }

    /** The channel's claims in the default account, or in all accounts. */
    method GetClaims(defaultOnly: bool) returns (claims: seq<Claim>, ok: bool)
      ensures ok ==> ListsChannel(claims, if defaultOnly then DefaultAccountClaims() else chain.listed, channelClaimID)
      ensures chain.working ==> ok
    {
      claims := [];
      var items;
      items, ok := chain.StreamList(if defaultOnly then Some(defaultAccount) else None);
      if !ok {
        return;
      }
      for n := 0 to |items|
        invariant NoRepeats(claims) && forall c :: c in claims <==> c in items[..n] && c.signingChannel == Some(channelClaimID)
      {
        if items[n].signingChannel == Some(channelClaimID) {
          claims := claims + [items[n]];
        }
      }
      assert items[..|items|] == items;
    }

    method CountPublished() returns (n: nat)
      ensures n == |set v | v in syncedVideos && syncedVideos[v].published|
    {
      ghost var counted := set v | v in syncedVideos && syncedVideos[v].published;
      var todo := syncedVideos.Keys;
      n := 0;
      while todo != {}
        invariant todo <= syncedVideos.Keys && n == |counted - todo|
        decreases todo
      {
        var v :| v in todo;
        if syncedVideos[v].published {
          assert counted - (todo - {v}) == (counted - todo) + {v};
          n := n + 1;
        } else {
          assert counted - (todo - {v}) == counted - todo;
        }
        todo := todo - {v};
      }
    }

    /** Abandons the duplicates among the channel's claims. */
    method FixListed(claims: seq<Claim>) returns (hasDupes: bool, ok: bool)
      requires chain.Valid() && ListsChannel(claims, chain.live, channelClaimID)
      modifies chain`live
      ensures Deduped(old(chain.live), chain.live, ok, channelClaimID, publishAddress, publishAddressIsMine, syncedVideos)
      ensures ok ==> (hasDupes <==> chain.live != old(chain.live))
      ensures chain.working ==> ok
    {
      ghost var pass;
      ListedAreLive(claims, chain.live, channelClaimID);
      hasDupes, ok, pass := FixDupes(claims);
      PassDone(pass, claims, channelClaimID, publishAddress, publishAddressIsMine, syncedVideos, old(chain.live), chain.live, ok);
    }

    /** Lists the channel's claims once a block has confirmed what was abandoned. */
    method ListAgain() returns (claims: seq<Claim>, ok: bool)
      modifies chain`listed
      ensures ok ==> chain.listed == chain.live && ListsChannel(claims, chain.live, channelClaimID)
      ensures chain.working ==> ok
    {
      claims := [];
      ok := chain.WaitForNewBlock();
      if ok {
        claims, ok := GetClaims(false);
      }
    }

    /** The first half of the check: list, abandon duplicates, and list again if there were any. */
    method ListWithoutDupes() returns (allClaims: seq<Claim>, ok: bool)
      requires chain.Valid() && chain.listed == chain.live
      modifies chain
      ensures Deduped(old(chain.live), chain.live, ok, channelClaimID, publishAddress, publishAddressIsMine, syncedVideos)
      ensures ok ==> chain.listed == chain.live && ListsChannel(allClaims, chain.live, channelClaimID)
      ensures chain.working ==> ok
    {
      NothingDone(chain.live, channelClaimID, publishAddress, publishAddressIsMine, syncedVideos);
      allClaims, ok := GetClaims(false);
      if ok {
        var hasDupes;
        hasDupes, ok := FixListed(allClaims);
        CutShort(old(chain.live), chain.live, ok, channelClaimID, publishAddress, publishAddressIsMine, syncedVideos);
        if ok && hasDupes {
          allClaims, ok := ListAgain();
        }
      }
    }

    /** The whole check. Whatever fails on the way, no video loses its highest claim. If all goes well
      * and the rows had been loaded as they are, the database mirrors the chain; and if the wallet
      * owned the duplicates, every video's row names a highest one of the claims there were. */
    method CheckIntegrity()
      returns (ok: bool, pubsOnWallet: nat, pubsOnDB: nat, ghost all: map<string, YtsyncClaim>, ghost own: map<string, YtsyncClaim>)
      requires chain.Valid() && chain.listed == chain.live
      modifies chain, db, namer, this`syncedVideos
      ensures Deduped(old(chain.live), chain.live, ok, channelClaimID, publishAddress, publishAddressIsMine, old(syncedVideos))
      ensures ok ==> chain.listed == chain.live && Names(all, chain.live, channelClaimID) && Names(own, DefaultAccountClaims(), channelClaimID)
      ensures ok && old(syncedVideos) == old(db.rows) ==>
                && syncedVideos == db.rows
                && Reconciled(old(db.rows), db.rows, all, own.Keys, Manual(), removeDBUnpublished)
                && pubsOnWallet <= pubsOnDB
      ensures ok && old(syncedVideos) == old(db.rows) && old(NamesAreLoaded()) ==>
                forall v | v in all && all[v].claimName != "" :: all[v].claimName in namer.names
      ensures ok && old(syncedVideos) == old(db.rows)
              && DuplicatesAreOurs(old(chain.live), channelClaimID, publishAddress, publishAddressIsMine, old(syncedVideos)) ==>
                RowsNameHighest(old(chain.live), db.rows, channelClaimID)
      ensures chain.working && db.working && ClaimsAreNamed(old(chain.live)) ==> ok
    {
      ghost var before := chain.live;
      pubsOnWallet, pubsOnDB, all, own := 0, 0, map[], map[];
      var allClaims, ownClaims;
      allClaims, ok := ListWithoutDupes();
      if !ok {
        return;
      }
      ownClaims, ok := GetClaims(true);
      if !ok {
        return;
      }
      MapOfNames(allClaims, chain.live, channelClaimID);
      MapOfNames(ownClaims, DefaultAccountClaims(), channelClaimID);
      all, own := MapOf(allClaims, channelClaimID), MapOf(ownClaims, channelClaimID);
      NamedClaimsMakeNamedRows(all, before, chain.live, channelClaimID);
      var nFixed, nRemoved;
      pubsOnWallet, nFixed, nRemoved, ok := UpdateRemoteDB(allClaims, ownClaims);
      if !ok {
        return;
      }
      pubsOnDB := CountPublished();
      if old(syncedVideos) == old(db.rows) {
        ReconciledRows(before, chain.live, channelClaimID, all, old(db.rows), db.rows, own.Keys, Manual(), removeDBUnpublished);
      }
    }

    /** Two passes in a row over the same claims: the second has nothing to fix and, if stale rows are to
      * be removed, nothing to remove. */
    method UpdateTwice(claims: seq<Claim>, ownClaims: seq<Claim>) returns (fixed: nat, removed: nat, ok: bool)
      modifies this`syncedVideos, db, namer
      ensures ok && old(syncedVideos) == old(db.rows) ==> fixed == 0 && (removeDBUnpublished ==> removed == 0)
    {
      var total;
      total, fixed, removed, ok := UpdateRemoteDB(claims, ownClaims);
      if !ok {
        return;
      }
      ghost var all, own := MapOf(claims, channelClaimID), MapOf(ownClaims, channelClaimID).Keys;
      if old(syncedVideos) == old(db.rows) {
        SecondPassFindsNothing(old(db.rows), db.rows, all, own, Manual(), removeDBUnpublished);
      }
      total, fixed, removed, ok := UpdateRemoteDB(claims, ownClaims);
    }
  }
}
