/** How many credits a channel's wallet needs, and what the wallet set-up does about it.
  *
  * Amounts are exact; fees are not charged. Go's `int` has 64 bits.
  */
module Refill {
  import opened Options
  import opened Remote

  const CHANNEL_CLAIM_AMOUNT := 0.01
  const ESTIMATED_MAX_TX_FEE := 0.0015
  const MINIMUM_ACCOUNT_BALANCE := 1.0
  const MINIMUM_REFILL_AMOUNT := 1.0
  const PUBLISH_AMOUNT := 0.002
  const TRANSFER_PENDING := 1
  const TRANSFER_COMPLETE := 2
  const TRANSFER_MANUAL := 3

  // How many videos a channel of some size may sync

  function ToInt64(x: nat): int {
    (x + 0x8000_0000_0000_0000) % 0x1_0000_0000_0000_0000 - 0x8000_0000_0000_0000
  }

  /** A conversion that wraps around. */
  lemma ToInt64Wraps(x: nat)
    requires x < 0x1_0000_0000_0000_0000
    ensures ToInt64(x) == if x < 0x8000_0000_0000_0000 then x else x - 0x1_0000_0000_0000_0000
  {
  }

  const VIDEOS_BY_SUBSCRIBERS: map<int, int> := map[
    10000 := 1000,
    5000 := 500,
    1000 := 400,
    800 := 250,
    600 := 200,
    200 := 80,
    100 := 20,
    1 := 10]

  /** The steps of the table, the highest that is reached. */
  function StepReached(subscribers: int): int {
    if subscribers >= 10000 then 1000
    else if subscribers >= 5000 then 500
    else if subscribers >= 1000 then 400
    else if subscribers >= 800 then 250
    else if subscribers >= 600 then 200
    else if subscribers >= 200 then 80
    else if subscribers >= 100 then 20
    else if subscribers >= 1 then 10
    else 0
  }

  function VideosAllowed(videosLimit: int, totalSubscribers: nat): int {
    if videosLimit > 0 then videosLimit else StepReached(ToInt64(totalSubscribers))
  }

  /** The running maximum over the table, whose entries come in any order. */
  method VideosToSync(videosLimit: int, totalSubscribers: nat) returns (videos: int)
    ensures videos == VideosAllowed(videosLimit, totalSubscribers)
  {
    if videosLimit > 0 {
      return videosLimit;
    }
    var subscribers := ToInt64(totalSubscribers);
    videos := 0;
    var todo := VIDEOS_BY_SUBSCRIBERS.Keys;
    while todo != {}
      invariant todo <= VIDEOS_BY_SUBSCRIBERS.Keys
      invariant videos == 0 || exists s :: s in VIDEOS_BY_SUBSCRIBERS && subscribers >= s && videos == VIDEOS_BY_SUBSCRIBERS[s]
      invariant 0 <= videos
      invariant forall s | s in VIDEOS_BY_SUBSCRIBERS && s !in todo && subscribers >= s :: VIDEOS_BY_SUBSCRIBERS[s] <= videos
      decreases todo
    {
      var s :| s in todo;
      if subscribers >= s && VIDEOS_BY_SUBSCRIBERS[s] > videos {
        videos := VIDEOS_BY_SUBSCRIBERS[s];
      }
      todo := todo - {s};
    }
    GreatestStep(subscribers, videos);
  }

  lemma GreatestStep(subscribers: int, videos: int)
    requires videos == 0 || exists s :: s in VIDEOS_BY_SUBSCRIBERS && subscribers >= s && videos == VIDEOS_BY_SUBSCRIBERS[s]
    requires 0 <= videos
    requires forall s | s in VIDEOS_BY_SUBSCRIBERS && subscribers >= s :: VIDEOS_BY_SUBSCRIBERS[s] <= videos
    ensures videos == StepReached(subscribers)
  {
    var r := StepReached(subscribers);
    if r > 0 {
      var step := if r == 1000 then 10000 else if r == 500 then 5000 else if r == 400 then 1000 else if r == 250 then 800
                  else if r == 200 then 600 else if r == 80 then 200 else if r == 20 then 100 else 1;
      assert step in VIDEOS_BY_SUBSCRIBERS && VIDEOS_BY_SUBSCRIBERS[step] == r;
    }
  }

  /** A channel with more subscribers never syncs fewer videos, as long as the larger number fits into
    * a signed integer; from there on, none are synced unless there is a limit. */
  lemma MoreSubscribersMoreVideos(videosLimit: int, a: nat, b: nat)
    requires a <= b < 0x1_0000_0000_0000_0000
    ensures VideosAllowed(videosLimit, a) <= VideosAllowed(videosLimit, b)
            <==> b < 0x8000_0000_0000_0000 || videosLimit > 0 || a == 0 || a >= 0x8000_0000_0000_0000
  {
  }

  // How much it needs

  datatype Counts = Counts(published: nat, notUpgraded: nat, failed: nat)

  datatype Channel = Channel(totalVideos: nat, totalSubscribers: nat, claimed: bool, transferState: int)

  datatype Flags = Flags(videosLimit: int, upgradeMetadata: bool, refill: int, disableTransfers: bool)

  function Published(rows: Rows): set<string> {
    set v | v in rows && rows[v].published
  }

  function NotUpgraded(rows: Rows): set<string> {
    set v | v in rows && rows[v].published && rows[v].metadataVersion < 2
  }

  function CountsOf(rows: Rows): Counts {
    Counts(|Published(rows)|, |NotUpgraded(rows)|, |rows.Keys - Published(rows)|)
  }

  /** The rows that are no longer to be gone through have been counted. */
  ghost predicate Counted(rows: Rows, todo: set<string>, c: Counts) {
    && c.published == |Published(rows) - todo|
    && c.notUpgraded == |NotUpgraded(rows) - todo|
    && c.failed == |rows.Keys - Published(rows) - todo|
  }

  lemma OneMoreRow(rows: Rows, todo: set<string>, c: Counts, v: string)
    requires Counted(rows, todo, c) && v in todo && v in rows
    ensures Counted(rows, todo - {v}, CountRow(c, rows[v]))
  {
    OneMoreCounted(Published(rows), todo, v);
    OneMoreCounted(NotUpgraded(rows), todo, v);
    OneMoreCounted(rows.Keys - Published(rows), todo, v);
  }

  lemma AllCounted(rows: Rows, c: Counts)
    requires Counted(rows, {}, c)
    ensures c == CountsOf(rows)
  {
    assert Published(rows) - {} == Published(rows);
    assert NotUpgraded(rows) - {} == NotUpgraded(rows);
    assert rows.Keys - Published(rows) - {} == rows.Keys - Published(rows);
  }

  /** The loop over the rows, in any order. */
  method CountRows(rows: Rows) returns (c: Counts)
    ensures c == CountsOf(rows)
  {
    var todo := rows.Keys;
    c := Counts(0, 0, 0);
    NothingCounted(rows);
    while todo != {}
      invariant todo <= rows.Keys && Counted(rows, todo, c)
      decreases todo
    {
      var v :| v in todo;
      OneMoreRow(rows, todo, c, v);
      c := CountRow(c, rows[v]);
      todo := todo - {v};
    }
    AllCounted(rows, c);
  }

  lemma NothingCounted(rows: Rows)
    ensures Counted(rows, rows.Keys, Counts(0, 0, 0))
  {
    assert Published(rows) - rows.Keys == {};
    assert NotUpgraded(rows) - rows.Keys == {};
    assert rows.Keys - Published(rows) - rows.Keys == {};
  }

  function CountRow(c: Counts, sv: SyncedVideo): Counts {
    if !sv.published then c.(failed := c.failed + 1)
    else if sv.metadataVersion < 2 then c.(published := c.published + 1, notUpgraded := c.notUpgraded + 1)
    else c.(published := c.published + 1)
  }

  lemma OneMoreCounted(s: set<string>, todo: set<string>, v: string)
    requires v in todo
    ensures |s - (todo - {v})| == |s - todo| + (if v in s then 1 else 0)
  {
    if v in s {
      assert s - (todo - {v}) == (s - todo) + {v};
    } else {
      assert s - (todo - {v}) == s - todo;
    }
  }

  function Min(a: int, b: int): int {
    if a < b then a else b
  }

  function Unallocated(flags: Flags, channel: Channel, c: Counts): nat {
    var wanted := Min(ToInt64(channel.totalVideos), VideosAllowed(flags.videosLimit, channel.totalSubscribers));
    var left := wanted - (c.published + c.failed);
    if left < 0 then 0 else left
  }

  function Required(flags: Flags, channel: Channel, c: Counts): real {
    (Unallocated(flags, channel, c) as real) * (PUBLISH_AMOUNT + ESTIMATED_MAX_TX_FEE)
    + (if channel.claimed then 0.0 else CHANNEL_CLAIM_AMOUNT)
    + (if flags.upgradeMetadata then (c.notUpgraded as real) * ESTIMATED_MAX_TX_FEE else 0.0)
  }

  // What that pays for

  /** The price of publishing the listed videos that have no row, of a channel claim that is yet to be
    * made, and of each row that is to be upgraded: fees included. */
  function Price(flags: Flags, channel: Channel, rows: Rows, listed: set<string>): real {
    (|listed - rows.Keys| as real) * 0.0035
    + (if channel.claimed then 0.0 else 0.01)
    + (if flags.upgradeMetadata then (|set v | v in rows && rows[v].published && rows[v].metadataVersion < 2| as real) * 0.0015 else 0.0)
  }

  lemma RowsCount(rows: Rows)
    ensures CountsOf(rows).published + CountsOf(rows).failed == |rows|
  {
    assert rows.Keys == Published(rows) + (rows.Keys - Published(rows));
  }

  lemma MissingAtLeast(listed: set<string>, keys: set<string>)
    ensures |listed - keys| >= |listed| - |keys|
    ensures |listed - keys| == |listed| - |keys| <==> keys <= listed
    ensures |listed - keys| == 0 <==> listed <= keys
  {
    var both := listed * keys;
    assert listed == (listed - keys) + both;
    assert keys == (keys - listed) + both;
    assert keys - listed == {} <==> keys <= listed;
    assert listed - keys == {} <==> listed <= keys;
  }

  /** With as many listed videos as the channel may have: what is required never exceeds the price, and
    * it is the price exactly if all rows are for listed videos, or all listed videos have a row. Rows for
    * other videos, which have left the channel or are beyond its limit, count against the listed ones. */
  lemma RequiredIsPriceIff(flags: Flags, channel: Channel, rows: Rows, listed: set<string>)
    requires |listed| == Min(ToInt64(channel.totalVideos), VideosAllowed(flags.videosLimit, channel.totalSubscribers))
    ensures 0.0 <= Required(flags, channel, CountsOf(rows)) <= Price(flags, channel, rows, listed)
    ensures Required(flags, channel, CountsOf(rows)) == Price(flags, channel, rows, listed) <==>
              rows.Keys <= listed || listed <= rows.Keys
  {
    RowsCount(rows);
    MissingAtLeast(listed, rows.Keys);
    assert (set v | v in rows && rows[v].published && rows[v].metadataVersion < 2) == NotUpgraded(rows);
    var missing := |listed - rows.Keys|;
    var unallocated := Unallocated(flags, channel, CountsOf(rows));
    assert unallocated <= missing && (unallocated == missing <==> rows.Keys <= listed || listed <= rows.Keys);
  }

  // What is done about it

  function Max(a: real, b: real): real {
    if a < b then b else a
  }

  predicate Short(balance: real, required: real) {
    balance < required || balance < MINIMUM_ACCOUNT_BALANCE
  }

  function RefillAmount(balance: real, required: real, refill: int): real {
    (if Short(balance, required)
     then Max(Max(required - balance, MINIMUM_ACCOUNT_BALANCE - balance), MINIMUM_REFILL_AMOUNT)
     else 0.0)
    + (if refill > 0 then refill as real else 0.0)
  }

  predicate SendsBack(balance: real, required: real, refill: int, transferState: int) {
    RefillAmount(balance, required, refill) <= 0.0 && transferState == TRANSFER_MANUAL && balance - required > 5.0
  }

  /** `r` is a printed with two decimals; a tie may go either way. */
  predicate RoundsTo(x: real, r: real) {
    r * 100.0 == (r * 100.0).Floor as real && -0.005 <= r - x <= 0.005
  }

  /** `after` is a balance that the set-up may leave of `before`. */
  predicate Settles(before: real, after: real, required: real, refill: int, transferState: int) {
    if SendsBack(before, required, refill, transferState)
    then RoundsTo(before - required - 1.0, before - after)
    else after == before + RefillAmount(before, required, refill)
  }

  /** A wallet that is short is filled up to what it needs and to the minimum, by one credit at least,
    * and never to more than two credits above what it needs, what was asked for on top aside. */
  lemma RefillIsEnough(before: real, after: real, required: real, refill: int, transferState: int)
    requires required >= 0.0 && Short(before, required) && Settles(before, after, required, refill, transferState)
    ensures after >= required && after >= MINIMUM_ACCOUNT_BALANCE && after >= before + MINIMUM_REFILL_AMOUNT
    ensures refill <= 0 ==> after < required + 2.0
  {
  }

  /** Whatever the set-up does, it leaves what is required. */
  lemma SettledIsEnough(before: real, after: real, required: real, refill: int, transferState: int)
    requires required >= 0.0 && Settles(before, after, required, refill, transferState)
    ensures after >= required
  {
  }

  /** So the settled balance pays for the listed videos without a row, the channel claim and the upgrades. */
  lemma SettledBalancePays(before: real, after: real, flags: Flags, channel: Channel, rows: Rows, listed: set<string>)
    requires Settles(before, after, Required(flags, channel, CountsOf(rows)), flags.refill, channel.transferState)
    requires |listed| == Min(ToInt64(channel.totalVideos), VideosAllowed(flags.videosLimit, channel.totalSubscribers))
    requires rows.Keys <= listed || listed <= rows.Keys
    ensures after >= Price(flags, channel, rows, listed)
  {
    RequiredIsPriceIff(flags, channel, rows, listed);
    SettledIsEnough(before, after, Required(flags, channel, CountsOf(rows)), flags.refill, channel.transferState);
  }

  /** Sending back leaves one credit more than needed, give or take half a hundredth. */
  lemma SendBackLeavesOne(before: real, after: real, required: real, refill: int, transferState: int)
    requires SendsBack(before, required, refill, transferState) && Settles(before, after, required, refill, transferState)
    ensures required + 0.995 <= after <= required + 1.005 && after < before
  {
  }

  /** Setting up again, with nothing changed and no extra refill, does nothing after a refill, unless
    * the extra refill asked for the first time is more than the channel may keep. */
  lemma SecondSetupIsIdle(before: real, after: real, again: real, required: real, refill: int, transferState: int)
    requires required >= 0.0 && !SendsBack(before, required, refill, transferState)
    requires Settles(before, after, required, refill, transferState) && Settles(after, again, required, 0, transferState)
    ensures !Short(after, required)
    ensures again == after <==> !(refill > 0 && transferState == TRANSFER_MANUAL && after - required > 5.0)
    ensures refill <= 0 ==> again == after
  {
  }

  /** After a send-back, the next set-up asks for a refill exactly if the amount sent was rounded up
    * by more than the channel needs: then what was sent back came out of the minimum balance. */
  lemma SendBackMayCostARefill(before: real, after: real, again: real, required: real, refill: int, transferState: int)
    requires required >= 0.0 && SendsBack(before, required, refill, transferState)
    requires Settles(before, after, required, refill, transferState) && Settles(after, again, required, 0, transferState)
    ensures again > after <==> required < (before - after) - (before - required - 1.0)
    ensures again == after <==> !(required < (before - after) - (before - required - 1.0))
    ensures again > after ==> required < 0.005
  {
  }

  /** It does happen: a channel that needs nothing more, with 6.006 credits, sends back 5.01 and is
    * left with 0.996; the next set-up adds a whole credit. */
  lemma SentBackThenRefilled()
    ensures Settles(6.006, 0.996, 0.0, 0, TRANSFER_MANUAL) && Settles(0.996, 1.996, 0.0, 0, TRANSFER_MANUAL)
  {
    assert 5.01 * 100.0 == 501.0;
    assert (5.01 * 100.0).Floor == 501;
    assert 6.006 - 0.996 == 5.01;
  }

  /** What the channel needs: for the videos that are still to be published, its claim, and upgrades. */
  method RequiredBalance(flags: Flags, channel: Channel, rows: Rows) returns (required: real)
    ensures required == Required(flags, channel, CountsOf(rows))
  {
    var videosOnYoutube := ToInt64(channel.totalVideos);
    var counts := CountRows(rows);
    var limit := VideosToSync(flags.videosLimit, channel.totalSubscribers);
    if videosOnYoutube > limit {
      videosOnYoutube := limit;
    }
    var unallocated := videosOnYoutube - (counts.published + counts.failed);
    if unallocated < 0 {
      unallocated := 0;
    }
    var channelFee := CHANNEL_CLAIM_AMOUNT;
    if channel.claimed {
      channelFee := 0.0;
    }
    required := (unallocated as real) * (PUBLISH_AMOUNT + ESTIMATED_MAX_TX_FEE) + channelFee;
    if flags.upgradeMetadata {
      required := required + (counts.notUpgraded as real) * ESTIMATED_MAX_TX_FEE;
    }
  }

  // How the calls of a set-up come out

  /** A payment to the wallet that failed may still arrive. */
  datatype CreditCall = CreditCall(ok: bool, arrives: bool)

  /** A payment that failed may still be made, unless its transaction was too large for the chain. */
  datatype SendCall = Sent | TooLarge | SendFailed(leaves: bool)

  datatype SendBackCalls = SendBackCalls(first: SendCall, merged: bool, second: SendCall)

  /** Whether the channel is ours and the balance known, how the payments come out, the addresses that
    * the wallet lists, and whether splitting its outputs works. */
  datatype SetupCalls = SetupCalls(answered: bool, credit: CreditCall, send: SendBackCalls, own: Option<string>, split: bool)

  predicate Leaves(call: SendCall) {
    call.Sent? || (call.SendFailed? && call.leaves)
  }

  /** The credits to send back were sent: at once, or after a merger of the wallet's outputs. */
  predicate SentBack(calls: SendBackCalls) {
    Leaves(calls.first) || (calls.first.TooLarge? && calls.merged && Leaves(calls.second))
  }

  predicate SendBackWorks(calls: SendBackCalls) {
    calls.first.Sent? || (calls.first.TooLarge? && calls.merged && calls.second.Sent?)
  }

  /** The payment that is due, if any, is made; a failed one may be, too. */
  predicate Pays(before: real, required: real, refill: int, transferState: int, calls: SetupCalls) {
    if RefillAmount(before, required, refill) > 0.0 then calls.credit.ok || calls.credit.arrives
    else SendsBack(before, required, refill, transferState) ==> SentBack(calls.send)
  }

  predicate PaymentWorks(before: real, required: real, refill: int, transferState: int, calls: SetupCalls) {
    if RefillAmount(before, required, refill) > 0.0 then calls.credit.ok
    else SendsBack(before, required, refill, transferState) ==> SendBackWorks(calls.send)
  }

  /** A channel that is about to be handed over, or was, keeps the address that it publishes to. */
  predicate KeepsAddress(address: string, channel: Channel, flags: Flags) {
    && address != "" && !flags.disableTransfers
    && (channel.transferState in {TRANSFER_PENDING, TRANSFER_COMPLETE} || channel.transferState > TRANSFER_MANUAL)
  }

  class Wallet {
    var balance: real
    var address: string
    var isMine: bool

    method AddCredits(amount: real, call: CreditCall) returns (ok: bool)
      modifies this`balance
      ensures ok == call.ok
      ensures balance == old(balance) + if call.ok || call.arrives then amount else 0.0
    {
      ok := call.ok;
      if ok || call.arrives {
        balance := balance + amount;
      }
    }

    /** One attempt to send credits away. */
    method AccountSend(amount: real, call: SendCall) returns (ok: bool, tooLarge: bool)
      modifies this`balance
      ensures ok == call.Sent? && tooLarge == call.TooLarge?
      ensures balance == old(balance) - if Leaves(call) then amount else 0.0
    {
      ok, tooLarge := call.Sent?, call.TooLarge?;
      if ok || (call.SendFailed? && call.leaves) {
        balance := balance - amount;
      }
    }

    /** Sends back all but one of the extra credits, after merging the wallet's outputs if need be. */
    method SendBack(extra: real, calls: SendBackCalls) returns (ok: bool)
      modifies this`balance
      ensures ok == SendBackWorks(calls)
      ensures if SentBack(calls) then RoundsTo(extra - 1.0, old(balance) - balance) else balance == old(balance)
    {
      var amount := Printed(extra - 1.0);
      var tooLarge;
      ok, tooLarge := AccountSend(amount, calls.first);
      if tooLarge {
        if !calls.merged {
          return false;
        }
        ok, tooLarge := AccountSend(amount, calls.second);
      }
    }

    predicate ShouldTransfer(channel: Channel, flags: Flags)
      reads this
    {
      channel.transferState >= TRANSFER_PENDING && address != "" && !flags.disableTransfers && channel.transferState != TRANSFER_MANUAL
    }

    /** The balance is settled exactly if the payment due is made; the set-up works exactly if everything
      * does; and only then a channel that does not keep its address publishes to one of the wallet's. */
    method WalletSetup(flags: Flags, channel: Channel, rows: Rows, calls: SetupCalls) returns (ok: bool)
      modifies this
      ensures !calls.answered || ToInt64(channel.totalVideos) == 0 ==>
                ok == calls.answered && balance == old(balance) && address == old(address) && isMine == old(isMine)
      ensures calls.answered && ToInt64(channel.totalVideos) != 0 ==>
                var required := Required(flags, channel, CountsOf(rows));
                && (if Pays(old(balance), required, flags.refill, channel.transferState, calls)
                    then Settles(old(balance), balance, required, flags.refill, channel.transferState)
                    else balance == old(balance))
                && (ok <==>
                      && PaymentWorks(old(balance), required, flags.refill, channel.transferState, calls)
                      && calls.own.Some? && (KeepsAddress(old(address), channel, flags) || calls.own.value != "")
                      && calls.split)
                && (if KeepsAddress(old(address), channel, flags) then address == old(address) && isMine == old(isMine)
                    else ok ==> calls.own == Some(address) && isMine)
    {
      if !calls.answered {
        return false;
      }
      var videosOnYoutube := ToInt64(channel.totalVideos);
      if videosOnYoutube == 0 {
        return true;
      }
      var required := RequiredBalance(flags, channel, rows);
      ok := Settle(required, flags.refill, channel.transferState, calls);
      if !ok || calls.own == None {
        return false;
      }
      var transfers := ShouldTransfer(channel, flags);
      if address == "" || !transfers {
        address := calls.own.value;
        isMine := true;
      }
      if address == "" {
        return false;
      }
      ok := calls.split;
    }

    method Settle(required: real, refill: int, transferState: int, calls: SetupCalls) returns (ok: bool)
      modifies this`balance
      ensures ok == PaymentWorks(old(balance), required, refill, transferState, calls)
      ensures if Pays(old(balance), required, refill, transferState, calls)
              then Settles(old(balance), balance, required, refill, transferState)
              else balance == old(balance)
    {
      var refillAmount := 0.0;
      if balance < required || balance < MINIMUM_ACCOUNT_BALANCE {
        refillAmount := Max(Max(required - balance, MINIMUM_ACCOUNT_BALANCE - balance), MINIMUM_REFILL_AMOUNT);
      }
      if refill > 0 {
        refillAmount := refillAmount + refill as real;
      }
      ok := true;
      if refillAmount > 0.0 {
        ok := AddCredits(refillAmount, calls.credit);
      } else if balance > required && transferState == TRANSFER_MANUAL {
        var extra := balance - required;
        if extra > 5.0 {
          ok := SendBack(extra, calls.send);
        }
      }
    }
  }

  /** A number with two decimals. */
  method Printed(x: real) returns (r: real)
    ensures RoundsTo(x, r)
  {
    var hundredths := (x * 100.0 + 0.5).Floor;
    r := (hundredths as real) / 100.0;
    assert r * 100.0 == hundredths as real;
  }
}
