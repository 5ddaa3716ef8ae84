/** The code that moves wallets: one channel cycle, and the manager's loop over channels.
  *
  * Every call that leaves the process (S3, the file system, the daemon, systemd, the database)
  * may fail at any time; how they go is a parameter. Each move of a wallet is recorded in the
  * machine's run, and a move is only ever made where `Custody.Checked` allows it.
  */
module Cycle {
  import opened Options
  import opened Custody

  /** The fragments of error text that the code tests for. */
  datatype Marker =
    | AlreadyExists           // "default_wallet already exists"
    | NotMoved                // "WALLET HAS NOT BEEN MOVED TO THE WALLET BACKUP DIR"
    | NotEnoughFunds
    | NoSpaceLeft
    | UploadProblem           // "there was a problem uploading the wallet"
    | ChannelDiffers
    | ForeignWallet
    | DuplicateName
    | ManagedElsewhere
    | InterruptedAtStartup
    | InterruptedByUser
    | SkipSpaceCheck
    | BlockchainUpload        // "failure uploading blockchain DB"
    | MissingInputs

  /** An error is known by the fragments its text contains. Wrapping an error keeps its text. */
  datatype Err = Nil | Fail(text: set<Marker>)

  const FATAL_ERRORS: set<Marker> :=
    {AlreadyExists, NotMoved, NotEnoughFunds, NoSpaceLeft, UploadProblem, ChannelDiffers, ForeignWallet, DuplicateName}
  const NO_FAIL_CONDITIONS: set<Marker> :=
    {ManagedElsewhere, InterruptedAtStartup, InterruptedByUser, SkipSpaceCheck, BlockchainUpload, AlreadyExists}
  const DB_WIPE_CONDITIONS: set<Marker> := {MissingInputs}

  datatype Status = Failed | WipeDb | Synced

  /** A status that was written to the database. */
  datatype Mark = Mark(channel: Channel, status: Status)

  predicate Mentions(e: Err, markers: set<Marker>) {
    e.Fail? && e.text * markers != {}
  }

  /** The error of a deferred task, added to what the cycle already reported. */
  function Joined(err: Err, original: Err, prefix: set<Marker>): Err {
    if err.Nil? then original
    else if original.Nil? then err
    else Fail(prefix + err.text + original.text)
  }

  /** The channel status a finished cycle writes to the database, if it writes one. */
  function TerminationStatus(e: Err, interrupted: bool): Option<Status> {
    if e.Nil? then (if interrupted then None else Some(Synced))
    else if Mentions(e, NO_FAIL_CONDITIONS) then None
    else if Mentions(e, DB_WIPE_CONDITIONS) then Some(WipeDb)
    else Some(Failed)
  }

  /** Synced is for a cycle without an error. Of the others, those that are wiped had missing inputs,
    * and none is marked that stopped for a reason that is not its own. */
  predicate StatusFits(status: Status, e: Err) {
    match status
    case Synced => e.Nil?
    case WipeDb => e.Fail? && MissingInputs in e.text && !Mentions(e, NO_FAIL_CONDITIONS)
    case Failed => e.Fail? && MissingInputs !in e.text && !Mentions(e, NO_FAIL_CONDITIONS)
  }

  lemma TerminationStatusFits(e: Err, interrupted: bool)
    ensures TerminationStatus(e, interrupted).Some? ==> StatusFits(TerminationStatus(e, interrupted).value, e)
    ensures TerminationStatus(e, interrupted).None? <==> if e.Nil? then interrupted else Mentions(e, NO_FAIL_CONDITIONS)
  {
    assert e.Fail? && MissingInputs in e.text ==> MissingInputs in e.text * DB_WIPE_CONDITIONS;
  }

  function Text(e: Err): set<Marker> {
    if e.Nil? then {} else e.text
  }

  /** What a running daemon may have done to the machine's state meanwhile: only its own file grew. */
  ghost predicate Worked(s: State, t: State) {
    && t.s3 == s.s3 && t.daemonUp == s.daemonUp
    && (s.slot.None? ==> t == s)
    && (s.slot.Some? ==> t.slot.Some? && t.slot.value.owner == s.slot.value.owner)
  }

  function WithEntries(slot: Option<Wallet>, entries: seq<nat>): Option<Wallet> {
    if slot.None? then None else Some(slot.value.(log := slot.value.log + entries))
  }

  lemma OneMoreEntry(slot: Option<Wallet>, entries: seq<nat>, n: nat)
    requires n < |entries|
    ensures WithEntries(slot, entries[..n + 1]) == WithEntries(WithEntries(slot, entries[..n]), [entries[n]])
  {
    assert slot.Some? ==> slot.value.log + entries[..n + 1] == slot.value.log + entries[..n] + [entries[n]];
  }

  /** The machine: its wallet slot, its daemon, S3 as this machine sees it, and the statuses
    * written to the database. `run` lists every wallet move since `origin`. */
  class Machine {
    var state: State
    var statuses: seq<Mark>
    ghost const origin: State
    ghost var run: seq<Action>

    ghost predicate Valid()
      reads this
    {
      Leads(origin, run, state)
    }

    lemma ValidInv()
      requires Valid()
      ensures Inv(state)
    {
      CheckedRunIsRight(origin, run);
      GuardedRunKeepsInv(origin, run);
    }

    /** At every moment of everything that has happened so far, nothing was lost. */
    lemma EveryMomentIsSafe(k: nat)
      requires Valid() && k <= |run|
      ensures Safe(Exec(origin, run[..k])) && Inv(Exec(origin, run[..k]))
    {
      CheckedRunIsRight(origin, run);
      CutAnywhereLosesNothing(origin, run, k);
    }

    constructor (s: State)
      requires Inv(s)
      ensures Valid() && state == s && origin == s && run == [] && statuses == []
    {
      state, statuses, origin, run := s, [], s, [];
    }

    method Do(a: Action)
      requires Valid() && Checked(state, a)
      modifies this
      ensures Valid()
      ensures state == Apply(old(state), a) && run == old(run) + [a] && statuses == old(statuses)
    {
      OneMoreMove(origin, run, state, a);
      run := run + [a];
      state := Apply(state, a);
    }

    /** Time passes, in which a daemon that is up writes these entries. */
    method Wait(entries: seq<nat>)
      requires Valid()
      modifies this
      ensures Valid() && old(run) <= run && statuses == old(statuses)
      ensures Worked(old(state), state)
      ensures state.slot == if old(state).daemonUp then WithEntries(old(state).slot, entries) else old(state).slot
    {
      var n := 0;
      assert state.slot.Some? ==> state.slot.value.log + [] == state.slot.value.log;
      while n < |entries|
        invariant n <= |entries| && Valid() && old(run) <= run && statuses == old(statuses)
        invariant Worked(old(state), state)
        invariant state.slot == if old(state).daemonUp then WithEntries(old(state).slot, entries[..n]) else old(state).slot
      {
        OneMoreEntry(old(state).slot, entries, n);
        Do(Write(entries[n]));
        n := n + 1;
      }
      assert entries[..n] == entries;
    }
  }

  // How the calls that a cycle makes go

  /** `transfer` includes "zero bytes written"; it does not matter if S3 has no object. */
  datatype DownloadCalls = DownloadCalls(statFails: bool, session: Err, transfer: Err, rename: Err)

  /** A confirmed upload has reached S3; one that fails may have. */
  datatype Attempt = Confirmed | Unconfirmed | Lost

  /** `first` and `more` are the attempts that the 30 minute window leaves time for. */
  datatype UploadCalls = UploadCalls(prepare: Err, first: Attempt, more: seq<Attempt>, remove: Err)

  /** The process of the daemon may come up though starting it failed. `ready` is the wait for it, and
    * `work` stands for doSync and processTransfers; meanwhile the daemon writes entries to its file. */
  datatype DaemonCalls = DaemonCalls(start: Err, comesUp: bool, seed: nat, early: seq<nat>, ready: Err, work: Err, entries: seq<nat>)

  /** `setup` stands for the blockchain database, the video directory, the VPN and the IP pool. */
  datatype SyncCalls = SyncCalls(download: DownloadCalls, setup: Err, daemon: DaemonCalls)

  /** Whether the daemon's process dies, whether that is seen, and what it wrote before. */
  datatype StopCalls = StopCalls(dies: bool, seen: bool, entries: seq<nat>)

  datatype ShutdownCalls = ShutdownCalls(vpn: Err, stop: StopCalls, upload: UploadCalls, blockchain: Err)

  /** A status write that fails may have taken effect. */
  datatype StatusCalls = StatusCalls(interrupted: bool, write: Err, tookEffect: bool)

  datatype CycleCalls = CycleCalls(noHome: bool, mark: Err, sync: SyncCalls, shutdown: ShutdownCalls, status: StatusCalls)

  predicate Downloads(calls: DownloadCalls) {
    !calls.statFails && calls.session.Nil? && calls.transfer.Nil? && calls.rename.Nil?
  }

  predicate FindsNothing(calls: DownloadCalls) {
    !calls.statFails && calls.session.Nil? && calls.transfer.Nil?
  }

  function Attempts(calls: UploadCalls): seq<Attempt> {
    [calls.first] + calls.more
  }

  /** With a file in the slot, the upload works. */
  predicate Uploads(calls: UploadCalls) {
    calls.prepare.Nil? && Confirmed in Attempts(calls) && calls.remove.Nil?
  }

  predicate NeverConfirmed(calls: UploadCalls) {
    calls.prepare.Nil? && Confirmed !in Attempts(calls)
  }

  /** What an upload makes of the state `s`: it moves the file if it works, and may have copied it if not. */
  ghost predicate UploadMoves(calls: UploadCalls, c: Channel, s: State, t: State) {
    && (s.slot.None? || calls.prepare.Fail? ==> t == s)
    && (s.slot.Some? && Uploads(calls) ==> t == s.(slot := None, s3 := s.s3[c := s.slot.value]))
    && (s.slot.Some? && calls.prepare.Nil? && !Uploads(calls) ==> t == Copied(s, c, Attempts(calls)))
  }

  /** S3 has the file in the slot if any of the attempts has reached it. */
  function Copied(s: State, c: Channel, attempts: seq<Attempt>): State
    requires s.slot.Some?
  {
    if Confirmed in attempts || Unconfirmed in attempts then s.(s3 := s.s3[c := s.slot.value]) else s
  }

  /** The first `k` attempts have led from `s` to `t`, and the last of them was confirmed or not. */
  ghost predicate Tried(s: State, c: Channel, attempts: seq<Attempt>, k: nat, uploaded: bool, t: State) {
    && k <= |attempts| && s.slot.Some? && s.slot.value.owner == c
    && (uploaded <==> Confirmed in attempts[..k])
    && t == Copied(s, c, attempts[..k])
  }

  lemma OneMoreTried(s: State, c: Channel, attempts: seq<Attempt>, k: nat, t: State)
    requires Tried(s, c, attempts, k, false, t) && k < |attempts|
    ensures t.slot == s.slot
    ensures Tried(s, c, attempts, k + 1, attempts[k].Confirmed?, if attempts[k].Lost? then t else Apply(t, Put(c)))
  {
    assert attempts[..k + 1] == attempts[..k] + [attempts[k]];
  }

  lemma TriedAll(s: State, c: Channel, attempts: seq<Attempt>, k: nat, uploaded: bool, t: State)
    requires Tried(s, c, attempts, k, uploaded, t) && (uploaded || k == |attempts|)
    ensures (uploaded <==> Confirmed in attempts) && t == Copied(s, c, attempts)
  {
    assert attempts == attempts[..k] + attempts[k..];
    assert k == |attempts| ==> attempts[k..] == [];
  }

  /** Why an upload fails. */
  function UploadText(calls: UploadCalls, hasFile: bool): set<Marker> {
    if calls.prepare.Fail? then calls.prepare.text
    else if !hasFile then {}
    else if Confirmed in Attempts(calls) then Text(calls.remove)
    else {UploadProblem}
  }

  /** Whether the steps between the two deferred calls bring a wallet into an empty slot. */
  predicate Fills(calls: SyncCalls, onS3: bool) {
    if onS3 then Downloads(calls.download) else FindsNothing(calls.download) && calls.setup.Nil? && calls.daemon.comesUp
  }

  /** Whether all of them work, starting from an empty slot. */
  predicate Syncs(calls: SyncCalls, onS3: bool) {
    && (if onS3 then Downloads(calls.download) else FindsNothing(calls.download))
    && calls.setup.Nil? && calls.daemon.start.Nil? && calls.daemon.comesUp && calls.daemon.ready.Nil? && calls.daemon.work.Nil?
  }

  /** What the steps between the two deferred calls do, up to the first that fails. */
  ghost predicate SyncEffect(calls: SyncCalls, c: Channel, owns: bool, e: Err, s: State, t: State) {
    && t.s3 == s.s3
    && (s.slot.Some? ==> e == Fail({AlreadyExists}) && t == s && !owns)
    && (s.slot.None? ==>
          && (e.Nil? <==> Syncs(calls, c in s.s3))
          && (t.slot.Some? <==> Fills(calls, c in s.s3))
          && (t.slot.Some? ==> t.slot.value.owner == c && owns))
    && (e.Nil? ==> t.daemonUp)
  }

  /** What the deferred clean-up makes of the state `left` and of the error `original`. If the cycle owns
    * the wallet and the daemon was seen to stop, the wallet is uploaded, whatever `original` is. */
  ghost predicate ShutdownEffect(original: Err, calls: ShutdownCalls, useVpn: bool, c: Channel, owns: bool, left: State, t: State, e: Err) {
    var uploads := owns && calls.stop.seen;
    && (if uploads then UploadMoves(calls.upload, c, left, t) else t == left)
    && ShutdownErrorIsRight(original, calls, useVpn, uploads, left.slot.Some?, e)
  }

  /** There is an error exactly if there was one before or a step fails, and its text has all of them. If
    * the upload of the blockchain database fails on top of another error, it says so. */
  ghost predicate ShutdownErrorIsRight(original: Err, calls: ShutdownCalls, useVpn: bool, uploads: bool, hasFile: bool, e: Err) {
    var fine := original.Nil? && (useVpn ==> calls.vpn.Nil?) && (uploads ==> hasFile && Uploads(calls.upload));
    && (e.Nil? <==> fine && (calls.stop.seen ==> calls.blockchain.Nil?))
    && Text(e) == Text(original) + (if useVpn then Text(calls.vpn) else {})
                  + (if uploads then UploadText(calls.upload, hasFile) else {})
                  + (if calls.stop.seen then Text(calls.blockchain) else {})
                  + (if calls.stop.seen && calls.blockchain.Fail? && !fine then {BlockchainUpload} else {})
  }

  /** A status is written unless the error is one of those that are not the channel's own, or there was
    * an interrupt and no error. */
  ghost predicate StatusEffect(original: Err, calls: StatusCalls, c: Channel, before: seq<Mark>, after: seq<Mark>, e: Err) {
    var writes := if original.Nil? then !calls.interrupted else !Mentions(original, NO_FAIL_CONDITIONS);
    && (writes && (calls.write.Nil? || calls.tookEffect) ==>
          exists status :: StatusFits(status, original) && after == before + [Mark(c, status)])
    && (!(writes && (calls.write.Nil? || calls.tookEffect)) ==> after == before)
    && (e.Nil? <==> original.Nil? && (writes ==> calls.write.Nil?))
    && Text(e) == Text(original) + (if writes then Text(calls.write) else {})
  }

  /** The errors of the clean-up: `e1` after the VPN, `e2` after the upload, `up` the upload's own. */
  lemma ShutdownError(original: Err, calls: ShutdownCalls, useVpn: bool, uploads: bool, hasFile: bool, e1: Err, up: Err, e2: Err, e: Err)
    requires e1 == if useVpn then Joined(calls.vpn, original, {}) else original
    requires uploads ==> (up.Nil? <==> hasFile && Uploads(calls.upload)) && Text(up) == UploadText(calls.upload, hasFile)
    requires e2 == if uploads then Joined(up, e1, {}) else e1
    requires e == if calls.stop.seen then Joined(calls.blockchain, e2, {BlockchainUpload}) else e2
    ensures ShutdownErrorIsRight(original, calls, useVpn, uploads, hasFile, e)
  {
    assert e1.Nil? <==> original.Nil? && (useVpn ==> calls.vpn.Nil?);
    assert Text(e1) == Text(original) + (if useVpn then Text(calls.vpn) else {});
    assert e2.Nil? <==> e1.Nil? && (uploads ==> hasFile && Uploads(calls.upload));
    assert Text(e2) == Text(e1) + (if uploads then UploadText(calls.upload, hasFile) else {});
  }

  // What a whole cycle does

  predicate Enters(calls: CycleCalls) {
    !calls.noHome && calls.mark.Nil?
  }

  /** The wallet that the cycle of `c` brings into the slot goes back to S3. */
  predicate PutsBack(calls: CycleCalls) {
    calls.shutdown.stop.seen && Uploads(calls.shutdown.upload)
  }

  /** The cycle of `c` brings a wallet into the slot. */
  predicate Brings(calls: CycleCalls, c: Channel, s: State) {
    Enters(calls) && s.slot.None? && Fills(calls.sync, c in s.s3)
  }

  /** Only the object of `c` on S3 may change. */
  ghost predicate OthersStay(c: Channel, s: State, t: State) {
    forall k | k != c :: (k in t.s3 <==> k in s.s3) && (k in t.s3 ==> t.s3[k] == s.s3[k])
  }

  /** An occupied slot keeps its owner, S3 stays as it was, and the cycle ends with a fatal error. */
  ghost predicate OccupiedStays(calls: CycleCalls, e: Err, s: State, t: State) {
    s.slot.Some? ==>
      && t.s3 == s.s3
      && t.slot.Some? && t.slot.value.owner == s.slot.value.owner
      && (Enters(calls) ==> e.Fail? && AlreadyExists in e.text)
  }

  /** A wallet stays in the slot exactly if the cycle brought it there and did not put it back; what is
    * put back is the whole wallet. Neither depends on the error of the cycle. */
  ghost predicate PutBackWhole(c: Channel, calls: CycleCalls, s: State, t: State) {
    && (s.slot.None? ==> (t.slot.Some? <==> Brings(calls, c, s) && !PutsBack(calls)))
    && (s.slot.None? && t.slot.Some? ==> t.slot.value.owner == c)
    && (Brings(calls, c, s) && PutsBack(calls) ==> c in t.s3 && c in t.written && t.s3[c] == Wallet(c, t.written[c]))
  }

  /** There is no error exactly if every step worked, a daemon that is not seen to stop aside; an upload
    * that is never confirmed is a fatal one. */
  ghost predicate ErrorIsRight(c: Channel, calls: CycleCalls, useVpn: bool, e: Err, s: State) {
    && (e.Nil? <==>
          && Enters(calls) && s.slot.None? && Syncs(calls.sync, c in s.s3)
          && (useVpn ==> calls.shutdown.vpn.Nil?)
          && (calls.shutdown.stop.seen ==> Uploads(calls.shutdown.upload) && calls.shutdown.blockchain.Nil?)
          && (calls.status.interrupted || calls.status.write.Nil?))
    && (Brings(calls, c, s) && calls.shutdown.stop.seen && NeverConfirmed(calls.shutdown.upload) ==> UploadProblem in Text(e))
  }

  /** What a cycle of channel `c` does to the machine, and when it reports an error. */
  ghost predicate CycleEffect(c: Channel, calls: CycleCalls, useVpn: bool, e: Err, s: State, t: State) {
    && (!Enters(calls) ==> t == s)
    && OthersStay(c, s, t) && OccupiedStays(calls, e, s, t) && PutBackWhole(c, calls, s, t) && ErrorIsRight(c, calls, useVpn, e, s)
  }

  /** The status that a cycle leaves, if writing it works: synced without an error, wiped or failed with
    * one that is the channel's own. */
  ghost predicate CycleStatus(c: Channel, calls: CycleCalls, e: Err, s: State, before: seq<Mark>, after: seq<Mark>) {
    && (!Enters(calls) || s.slot.Some? ==> after == before)
    && (calls.status.write.Fail? && !calls.status.tookEffect ==> after == before)
    && (after == before || exists status :: after == before + [Mark(c, status)])
    && (Enters(calls) && calls.status.write.Nil? ==>
          if (if e.Nil? then calls.status.interrupted else Mentions(e, NO_FAIL_CONDITIONS)) then after == before
          else exists status :: StatusFits(status, e) && after == before + [Mark(c, status)])
  }

  /** The parts of a cycle, between the state `s` at its start and the state `t` at its end. */
  ghost predicate Parts(c: Channel, calls: CycleCalls, useVpn: bool, owns: bool, s: State, synced: State, left: State, t: State,
                        e0: Err, e: Err) {
    && Enters(calls) && Inv(t)
    && SyncEffect(calls.sync, c, owns, e0, s, synced)
    && Worked(synced, left.(daemonUp := synced.daemonUp))
    && ShutdownEffect(e0, calls.shutdown, useVpn, c, owns, left, t, e)
  }

  lemma WholeCycleMoves(c: Channel, calls: CycleCalls, useVpn: bool, owns: bool, s: State, synced: State, left: State, t: State,
                        e0: Err, e: Err)
    requires Parts(c, calls, useVpn, owns, s, synced, left, t, e0, e)
    ensures OthersStay(c, s, t) && PutBackWhole(c, calls, s, t)
  {
    if Brings(calls, c, s) && PutsBack(calls) {
      assert c in t.s3;
      WholeOnS3(c, t);
    }
  }

  lemma WholeCycleError(c: Channel, calls: CycleCalls, useVpn: bool, owns: bool, s: State, synced: State, left: State, t: State,
                        e0: Err, e1: Err, e: Err)
    requires Parts(c, calls, useVpn, owns, s, synced, left, t, e0, e1)
    requires Text(e1) <= Text(e) && (e.Nil? <==> e1.Nil? && (calls.status.interrupted || calls.status.write.Nil?))
    ensures OccupiedStays(calls, e, s, t) && ErrorIsRight(c, calls, useVpn, e, s)
  {
    if s.slot.Some? {
      assert AlreadyExists in Text(e0);
    }
  }

  /** A cycle that does not get under way does nothing. */
  lemma NoCycle(c: Channel, calls: CycleCalls, useVpn: bool, e: Err, s: State, marks: seq<Mark>)
    requires !Enters(calls) && e.Fail?
    ensures CycleEffect(c, calls, useVpn, e, s, s) && CycleStatus(c, calls, e, s, marks, marks)
  {
  }

  lemma WholeCycle(c: Channel, calls: CycleCalls, useVpn: bool, owns: bool, s: State, synced: State, left: State, t: State,
                   e0: Err, e1: Err, e: Err, before: seq<Mark>, after: seq<Mark>)
    requires Parts(c, calls, useVpn, owns, s, synced, left, t, e0, e1)
    requires StatusEffect(e1, calls.status, c, before, after, e)
    ensures CycleEffect(c, calls, useVpn, e, s, t) && CycleStatus(c, calls, e, s, before, after)
  {
    WholeCycleMoves(c, calls, useVpn, owns, s, synced, left, t, e0, e1);
    if s.slot.Some? {
      assert AlreadyExists in Text(e1) * NO_FAIL_CONDITIONS;
    }
    StatusOfCycle(c, calls, e1, e, s, before, after);
    WholeCycleError(c, calls, useVpn, owns, s, synced, left, t, e0, e1, e);
  }

  lemma StatusOfCycle(c: Channel, calls: CycleCalls, e1: Err, e: Err, s: State, before: seq<Mark>, after: seq<Mark>)
    requires Enters(calls) && StatusEffect(e1, calls.status, c, before, after, e)
    requires s.slot.Some? ==> Mentions(e1, NO_FAIL_CONDITIONS)
    ensures CycleStatus(c, calls, e, s, before, after)
    ensures Text(e1) <= Text(e)
    ensures Mentions(e1, NO_FAIL_CONDITIONS) ==> e == e1
    ensures !Mentions(e1, NO_FAIL_CONDITIONS) ==> (e.Nil? <==> e1.Nil? && (calls.status.interrupted || calls.status.write.Nil?))
  {
    assert calls.status.write.Nil? ==> e == e1;
  }

  lemma WholeOnS3(c: Channel, t: State)
    requires Inv(t) && t.slot.None? && c in t.s3
    ensures c in t.written && t.s3[c] == Wallet(c, t.written[c])
  {
    assert Kept(t, c);
  }

  /** What `downloadWallet` reports. */
  datatype Download = Downloaded | NotOnS3 | DownloadFailed(text: set<Marker>)

  /** One channel's sync, with the part of its run state that decides about the wallet. */
  class Sync {
    const channel: Channel
    const machine: Machine
    const useVpn: bool
    var walletDownloaded: bool
    var newWalletCreated: bool

    constructor (c: Channel, m: Machine, vpn: bool)
      ensures channel == c && machine == m && useVpn == vpn && !walletDownloaded && !newWalletCreated
    {
      channel, machine, useVpn, walletDownloaded, newWalletCreated := c, m, vpn, false, false;
    }

    /** Fails unless the slot is seen to be empty. */
    method GetWalletPaths(statFails: bool) returns (e: Err)
      ensures e.Nil? <==> machine.state.slot.None? && !statFails
      ensures e.Fail? ==> e.text == {AlreadyExists}
    {
      e := if machine.state.slot.Some? || statFails then Fail({AlreadyExists}) else Nil;
    }

    /** Never touches an occupied slot, and reports a missing wallet exactly when S3 is asked and has
      * none. */
    method DownloadWallet(calls: DownloadCalls) returns (r: Download)
      requires machine.Valid()
      modifies machine, this`walletDownloaded
      ensures machine.Valid() && old(machine.run) <= machine.run && machine.statuses == old(machine.statuses)
      ensures r.Downloaded? <==> old(machine.state).slot.None? && channel in old(machine.state).s3 && Downloads(calls)
      ensures r.NotOnS3? <==> old(machine.state).slot.None? && channel !in old(machine.state).s3 && FindsNothing(calls)
      ensures r.Downloaded? ==>
                && machine.state == old(machine.state).(slot := Some(old(machine.state).s3[channel]))
                && machine.state.slot.value.owner == channel
      ensures !r.Downloaded? ==> machine.state == old(machine.state)
      ensures old(machine.state).slot.Some? ==> r == DownloadFailed({AlreadyExists})
      ensures r.DownloadFailed? && old(machine.state).slot.None? ==>
                r.text == if calls.statFails then {AlreadyExists} else if calls.session.Fail? then calls.session.text
                          else if calls.transfer.Fail? then calls.transfer.text else Text(calls.rename)
      ensures walletDownloaded == (old(walletDownloaded) || r.Downloaded?)
    {
      var e := GetWalletPaths(calls.statFails);
      if e.Fail? {
        return DownloadFailed(e.text);
      }
      e := calls.session;
      if e.Fail? {
        return DownloadFailed(e.text);
      }
      e := calls.transfer;
      if e.Fail? {
        return DownloadFailed(e.text);
      }
      if channel !in machine.state.s3 {
        return NotOnS3;
      }
      e := calls.rename;
      if e.Fail? {
        return DownloadFailed(e.text);
      }
      machine.ValidInv();
      machine.Do(Fetch(channel));
      walletDownloaded := true;
      r := Downloaded;
    }

    /** Uploads the file in the slot, as often as there is time for, until it is confirmed, and removes it
      * then. */
    method UploadWallet(calls: UploadCalls) returns (e: Err)
      requires machine.Valid() && !machine.state.daemonUp
      requires machine.state.slot.Some? ==> machine.state.slot.value.owner == channel
      modifies machine
      ensures machine.Valid() && old(machine.run) <= machine.run && machine.statuses == old(machine.statuses)
      ensures UploadMoves(calls, channel, old(machine.state), machine.state)
      ensures e.Nil? <==> old(machine.state).slot.Some? && Uploads(calls)
      ensures Text(e) == UploadText(calls, old(machine.state).slot.Some?)
    {
      e := calls.prepare;   // S3 session, opening the file
      if e.Fail? {
        return;
      }
      if machine.state.slot.None? {
        return Fail({});
      }
      var uploaded := TryUploads(calls);
      if !uploaded {
        return Fail({UploadProblem});
      }
      e := calls.remove;
      if e.Nil? {
        machine.Do(Clear);
      }
    }

    method TryUploads(calls: UploadCalls) returns (uploaded: bool)
      requires machine.Valid() && machine.state.slot.Some? && machine.state.slot.value.owner == channel
      modifies machine
      ensures machine.Valid() && old(machine.run) <= machine.run && machine.statuses == old(machine.statuses)
      ensures uploaded <==> Confirmed in Attempts(calls)
      ensures machine.state == Copied(old(machine.state), channel, Attempts(calls))
    {
      var attempts, k := Attempts(calls), 0;
      uploaded := false;
      ghost var before := machine.state;
      while k < |attempts| && !uploaded
        invariant machine.Valid() && old(machine.run) <= machine.run && machine.statuses == old(machine.statuses)
        invariant Tried(before, channel, attempts, k, uploaded, machine.state)
        decreases |attempts| - k
      {
        OneMoreTried(before, channel, attempts, k, machine.state);
        if !attempts[k].Lost? {
          machine.Do(Put(channel));
        }
        uploaded := attempts[k].Confirmed?;
        k := k + 1;
      }
      TriedAll(before, channel, attempts, k, uploaded, machine.state);
    }

    /** Waits until the daemon's process is seen to be gone. */
    method StopDaemon(calls: StopCalls) returns (stopped: bool)
      requires machine.Valid()
      modifies machine
      ensures machine.Valid() && old(machine.run) <= machine.run && machine.statuses == old(machine.statuses)
      ensures Worked(old(machine.state), machine.state.(daemonUp := old(machine.state).daemonUp))
      ensures stopped == calls.seen
      ensures machine.state.daemonUp <==> old(machine.state).daemonUp && !calls.dies && !calls.seen
    {
      machine.Wait(calls.entries);
      stopped := calls.seen;
      if calls.dies || stopped {
        machine.Do(Halt);
      }
    }

    /** The deferred clean-up. Whatever the cycle's error is, the wallet goes back to S3 exactly if this
      * cycle owns the slot and the daemon has been seen to stop; a daemon that does not stop is not
      * reported as an error. `left` is the state when the wait for the daemon was over. */
    method PerformShutdownTasks(original: Err, calls: ShutdownCalls) returns (e: Err, ghost left: State)
      requires machine.Valid()
      requires (walletDownloaded || newWalletCreated) && machine.state.slot.Some? ==> machine.state.slot.value.owner == channel
      modifies machine
      ensures machine.Valid() && old(machine.run) <= machine.run && machine.statuses == old(machine.statuses)
      ensures Worked(old(machine.state), left.(daemonUp := old(machine.state).daemonUp))
      ensures ShutdownEffect(original, calls, useVpn, channel, walletDownloaded || newWalletCreated, left, machine.state, e)
    {
      e := original;
      if useVpn {
        var err := calls.vpn;
        e := Joined(err, e, {});
      }
      ghost var e1, up := e, Nil;
      var successfulDaemonStop := StopDaemon(calls.stop);
      left := machine.state;
      if (walletDownloaded || newWalletCreated) && successfulDaemonStop {
        var err := UploadWallet(calls.upload);
        e, up := Joined(err, e, {}), err;
      }
      ghost var e2 := e;
      if successfulDaemonStop {
        var err := calls.blockchain;
        e := Joined(err, e, {BlockchainUpload});
      }
      ShutdownError(original, calls, useVpn, (walletDownloaded || newWalletCreated) && calls.stop.seen, left.slot.Some?, e1, up, e2, e);
    }

    /** Writes the status that `TerminationStatus` names. */
    method SetChannelTerminationStatus(original: Err, calls: StatusCalls) returns (e: Err)
      modifies machine`statuses
      ensures StatusEffect(original, calls, channel, old(machine.statuses), machine.statuses, e)
    {
      e := original;
      var status := TerminationStatus(original, calls.interrupted);
      TerminationStatusFits(original, calls.interrupted);
      if status.Some? {
        var err := calls.write;
        if err.Nil? || calls.tookEffect {
          machine.statuses := machine.statuses + [Mark(channel, status.value)];
        }
        if err.Fail? {
          e := Joined(err, original, {});
        }
      }
    }

    /** The steps between the two deferred calls, up to the first that fails. */
    method DownloadAndSync(calls: SyncCalls) returns (e: Err)
      requires machine.Valid() && !walletDownloaded && !newWalletCreated
      modifies machine, this
      ensures machine.Valid() && old(machine.run) <= machine.run && machine.statuses == old(machine.statuses)
      ensures SyncEffect(calls, channel, walletDownloaded || newWalletCreated, e, old(machine.state), machine.state)
    {
      machine.ValidInv();
      var wallet := DownloadWallet(calls.download);
      if wallet.DownloadFailed? {
        return Fail(wallet.text);
      }
      newWalletCreated := wallet.NotOnS3?;
      e := calls.setup;
      if e.Nil? {
        e := RunDaemon(calls.daemon);
      }
    }

    /** Starts the daemon and lets it work; it makes a wallet only if there is none. */
    method RunDaemon(calls: DaemonCalls) returns (e: Err)
      requires machine.Valid()
      requires machine.state.slot.None? ==> channel !in machine.state.s3
      modifies machine
      ensures machine.Valid() && old(machine.run) <= machine.run && machine.statuses == old(machine.statuses)
      ensures machine.state.s3 == old(machine.state).s3
      ensures machine.state.slot.Some? <==> old(machine.state).slot.Some? || calls.comesUp
      ensures old(machine.state).slot.Some? ==> machine.state.slot.value.owner == old(machine.state).slot.value.owner
      ensures machine.state.slot.Some? && old(machine.state).slot.None? ==> machine.state.slot.value.owner == channel
      ensures machine.state.daemonUp <==> old(machine.state).daemonUp || calls.comesUp
      ensures e.Nil? <==> calls.start.Nil? && calls.comesUp && calls.ready.Nil? && calls.work.Nil?
    {
      e := calls.start;
      if calls.comesUp {
        machine.Do(Boot(channel, calls.seed));
        machine.Wait(calls.early);
      }
      if e.Fail? {
        return;
      }
      e := if calls.comesUp then calls.ready else Fail(Text(calls.ready));
      if e.Fail? {
        return;
      }
      e := calls.work;
      machine.Wait(calls.entries);
    }

    /** One cycle. */
    method FullCycle(calls: CycleCalls) returns (e: Err)
      requires machine.Valid() && !walletDownloaded && !newWalletCreated
      modifies machine, this
      ensures machine.Valid() && old(machine.run) <= machine.run
      ensures CycleEffect(channel, calls, useVpn, e, old(machine.state), machine.state)
      ensures CycleStatus(channel, calls, e, old(machine.state), old(machine.statuses), machine.statuses)
    {
      ghost var before, marks := machine.state, machine.statuses;
      e := if calls.noHome then Fail({}) else calls.mark;       // setStatusSyncing
      if e.Fail? {
        NoCycle(channel, calls, useVpn, e, before, marks);
        return;
      }
      e := DownloadAndSync(calls.sync);
      ghost var original, synced, owns := e, machine.state, walletDownloaded || newWalletCreated;
      ghost var left;
      e, left := PerformShutdownTasks(e, calls.shutdown);
      ghost var shutdown := e;
      machine.ValidInv();
      e := SetChannelTerminationStatus(e, calls.status);
      WholeCycle(channel, calls, useVpn, owns, before, synced, left, machine.state, original, shutdown, e, marks, machine.statuses);
    }
  }
}
