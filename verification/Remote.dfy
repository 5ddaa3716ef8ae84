/** The two remote parties: the chain and the database.
  *
  * Their calls may fail at any time, unless the party is said to be working, and a failed call may
  * or may not have taken effect. A list that the daemon returns comes in any order.
  */
module Remote {
  import opened Options
  import opened Collections
  import opened Claims

  /** A row of the database, as `SetChannelStatus` returns it. */
  datatype SyncedVideo = SyncedVideo(
    published: bool,
    failureReason: string,
    claimName: string,
    claimId: string,
    size: nat,
    metadataVersion: int,
    transferred: bool)

  type Rows = map<string, SyncedVideo>

  /** The claim names that the rows mention. */
  function ClaimNames(rows: Rows): set<string> {
    set v | v in rows && rows[v].claimName != "" :: rows[v].claimName
  }

  /** The chain as the wallet sees it. A claim that is abandoned is no longer live, but it is listed until
    * a block confirms that. */
  class Chain {
    const working: bool
    var live: set<Claim>
    var listed: set<Claim>

    ghost predicate Valid()
      reads this
    {
      DistinctIds(live)
    }

    /** Abandoning spends the claim's output. */
    method StreamAbandon(c: Claim) returns (ok: bool)
      modifies this`live
      ensures live == old(live) || live == old(live) - {c}
      ensures ok ==> live == old(live) - {c}
      ensures working ==> ok
    {
      var answered: bool, tookEffect: bool := *, *;
      ok := answered || working;
      if ok || tookEffect {
        live := live - {c};
      }
    }

    /** The claims of one account, or of all accounts, in any order. */
    method StreamList(account: Option<string>) returns (claims: seq<Claim>, ok: bool)
      ensures ok ==> Lists(claims, set c | c in listed && (account == None || account == Some(c.account)))
      ensures working ==> ok
    {
      var answered: bool := *;
      ok := answered || working;
      var rest := set c | c in listed && (account == None || account == Some(c.account));
      ghost var wanted := rest;
      claims := [];
      while rest != {}
        invariant rest <= wanted && NoRepeats(claims)
        invariant forall c | c in wanted :: c in claims <==> c !in rest
        invariant forall c | c in claims :: c in wanted
        decreases rest
      {
        var c :| c in rest;
        rest := rest - {c};
        claims := claims + [c];
      }
    }

    /** Waits until the wallet has seen another block. */
    method WaitForNewBlock() returns (ok: bool)
      modifies this`listed
      ensures listed == if ok then live else old(listed)
      ensures working ==> ok
    {
      var answered: bool := *;
      ok := answered || working;
      if ok {
        listed := live;
      }
    }
  }

  class Database {
    const working: bool
    var rows: Rows

    /** Sets the status of the channel and returns its rows, and the names in them. */
    method SetChannelStatus() returns (ok: bool, svs: Rows, claimNames: map<string, bool>)
      ensures ok ==> svs == rows && claimNames.Keys == ClaimNames(rows)
      ensures working ==> ok
    {
      var answered: bool := *;
      ok, svs, claimNames := answered || working, map[], map[];
      var todo := rows.Keys;
      while todo != {}
        invariant todo <= rows.Keys && svs.Keys == rows.Keys - todo
        invariant forall v | v in svs :: svs[v] == rows[v]
        invariant claimNames.Keys == ClaimNames(svs)
        decreases todo
      {
        var v :| v in todo;
        todo := todo - {v};
        ghost var before := svs;
        svs := svs[v := rows[v]];
        if rows[v].claimName != "" {
          claimNames := claimNames[rows[v].claimName := rows[v].published];
        }
        OneMoreName(before, v, rows[v]);
      }
      assert svs == rows;
    }

    /** Records a published video; `row` is what the server stores, whatever failure reason it keeps.
      * It refuses an empty claim id or name. */
    method MarkPublished(videoID: string, claimId: string, claimName: string, size: nat, version: int, transferred: bool)
      returns (ok: bool, ghost row: SyncedVideo)
      modifies this
      ensures row == SyncedVideo(true, row.failureReason, claimName, claimId, size, version, transferred)
      ensures rows == old(rows) || rows == old(rows)[videoID := row]
      ensures ok ==> claimId != "" && claimName != "" && rows == old(rows)[videoID := row]
      ensures working && claimId != "" && claimName != "" ==> ok
    {
      var reason: string, answered: bool, tookEffect: bool := *, *, *;
      ok := answered || working;
      row := SyncedVideo(true, reason, claimName, claimId, size, version, transferred);
      if claimId == "" || claimName == "" {
        ok := false;
      } else if ok || tookEffect {
        rows := rows[videoID := SyncedVideo(true, reason, claimName, claimId, size, version, transferred)];
      }
    }

    method DeleteVideos(ids: set<string>) returns (ok: bool)
      modifies this
      ensures rows == old(rows) || rows == old(rows) - ids
      ensures ok ==> rows == old(rows) - ids
      ensures working ==> ok
    {
      var answered: bool, tookEffect: bool := *, *;
      ok := answered || working;
      if ok || tookEffect {
        rows := rows - ids;
      }
    }
  }

  lemma OneMoreName(rows: Rows, v: string, row: SyncedVideo)
    requires v !in rows
    ensures ClaimNames(rows[v := row]) == ClaimNames(rows) + (if row.claimName != "" then {row.claimName} else {})
  {
    var longer := rows[v := row];
    forall n | n in ClaimNames(rows) ensures n in ClaimNames(longer) {
      var w :| w in rows && rows[w].claimName != "" && rows[w].claimName == n;
      assert longer[w] == rows[w];
    }
    if row.claimName != "" {
      assert longer[v].claimName in ClaimNames(longer);
    }
    forall n | n in ClaimNames(longer) ensures n in ClaimNames(rows) || n == row.claimName {
      var w :| w in longer && longer[w].claimName != "" && longer[w].claimName == n;
      assert w != v ==> rows[w] == longer[w];
    }
  }
}
