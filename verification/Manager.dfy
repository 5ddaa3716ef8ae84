/** The manager's loop: it runs one channel cycle after another on one machine. */
module Manager {
  import opened Options
  import opened Custody
  import opened Cycle

  /** The status that the database is asked for the channels of. */
  datatype Listing = Syncing | Synced | Queued | Failing | Other(status: string)

  datatype Flags = Flags(
    singleChannel: bool,
    singleRun: bool,
    limit: nat,
    useVpn: bool,
    status: Option<Listing>,
    secondaryStatus: Option<Listing>,
    syncUpdate: bool)

  /** The queues of the database, in the order in which they are asked for. */
  function QueuesToSync(flags: Flags): (queues: seq<Listing>)
    ensures |queues| >= 2 && queues[0] == Syncing
    ensures flags.status.Some? ==> queues[1] == flags.status.value
    ensures flags.status.None? ==> (queues[1] == Queued <==> !flags.syncUpdate) && (queues[1] == Listing.Synced <==> flags.syncUpdate)
    ensures flags.secondaryStatus.Some? <==> |queues| == 3
    ensures |queues| == 3 ==> queues[2] == flags.secondaryStatus.value
  {
    [Syncing,
     if flags.status.Some? then flags.status.value else if flags.syncUpdate then Listing.Synced else Queued]
    + (if flags.secondaryStatus.Some? then [flags.secondaryStatus.value] else [])
  }

  /** Failed channels and those that are being synced are all taken; of any other queue only the first. */
  predicate TakesAll(queue: Listing) {
    queue == Failing || queue == Syncing
  }

  function Taken(queue: Listing, channels: seq<Channel>): seq<Channel> {
    if TakesAll(queue) || channels == [] then channels else [channels[0]]
  }

  function AllTaken(queues: seq<Listing>, fetched: seq<seq<Channel>>): seq<Channel>
    requires |fetched| <= |queues|
  {
    if fetched == [] then []
    else
      var k := |fetched| - 1;
      AllTaken(queues, fetched[..k]) + Taken(queues[k], fetched[k])
  }

  /** `fetched` is what the database gave for the first queues. A channel from a queue that is not taken
    * whole ends the search, and nothing else does before the last queue. */
  ghost predicate FilledFrom(channels: seq<Channel>, queues: seq<Listing>, fetched: seq<seq<Channel>>) {
    && |fetched| <= |queues|
    && channels == AllTaken(queues, fetched)
    && (forall i | 0 <= i < |fetched| - 1 :: TakesAll(queues[i]) || fetched[i] == [])
    && (|fetched| < |queues| ==> fetched != [] && !TakesAll(queues[|fetched| - 1]) && fetched[|fetched| - 1] != [])
  }

  lemma {:induction false} TakenWholeSoFar(queues: seq<Listing>, fetched: seq<seq<Channel>>, c: Channel)
    requires |fetched| <= |queues| && forall i | 0 <= i < |fetched| :: TakesAll(queues[i]) || fetched[i] == []
    ensures c in AllTaken(queues, fetched) <==> exists i :: 0 <= i < |fetched| && c in fetched[i]
  {
    if fetched != [] {
      var k := |fetched| - 1;
      TakenWholeSoFar(queues, fetched[..k], c);
      assert forall i | 0 <= i < k :: fetched[..k][i] == fetched[i];
    }
  }

  /** What the database answers to one query. */
  datatype Answer = Channels(channels: seq<Channel>) | NoAnswer(text: set<Marker>)

  function AnswerAt(answers: seq<Answer>, i: nat): (a: Answer)
    ensures i < |answers| ==> a == answers[i]
  {
    if i < |answers| then answers[i] else NoAnswer({})
  }

  /** `fetched` is what the database answered, up to the first query without an answer. */
  ghost predicate AnsweredBy(queues: seq<Listing>, answers: seq<Answer>, fetched: seq<seq<Channel>>, e: Err) {
    && |fetched| <= |queues|
    && (forall i: nat | i < |fetched| :: AnswerAt(answers, i) == Channels(fetched[i]))
    && (e.Fail? ==> |fetched| < |queues| && AnswerAt(answers, |fetched|) == NoAnswer(e.text))
  }

  /** The first queues were fetched, and the search went on after each. */
  ghost predicate AllFetched(queues: seq<Listing>, answers: seq<Answer>, fetched: seq<seq<Channel>>) {
    && |fetched| <= |queues|
    && forall i: nat | i < |fetched| :: AnswerAt(answers, i) == Channels(fetched[i]) && (TakesAll(queues[i]) || fetched[i] == [])
  }

  lemma OneMoreTaken(queues: seq<Listing>, fetched: seq<seq<Channel>>, channels: seq<Channel>)
    requires |fetched| < |queues|
    ensures AllTaken(queues, fetched + [channels]) == AllTaken(queues, fetched) + Taken(queues[|fetched|], channels)
  {
    assert (fetched + [channels])[..|fetched|] == fetched;
  }

  lemma OneMoreFetched(queues: seq<Listing>, answers: seq<Answer>, fetched: seq<seq<Channel>>, channels: seq<Channel>)
    requires AllFetched(queues, answers, fetched) && |fetched| < |queues| && AnswerAt(answers, |fetched|) == Channels(channels)
    ensures AnsweredBy(queues, answers, fetched + [channels], Nil)
    ensures TakesAll(queues[|fetched|]) || channels == [] ==> AllFetched(queues, answers, fetched + [channels])
  {
    var all := fetched + [channels];
    assert forall i | 0 <= i < |fetched| :: all[i] == fetched[i];
    assert all[|fetched|] == channels;
  }

  lemma LastFetched(queues: seq<Listing>, answers: seq<Answer>, fetched: seq<seq<Channel>>, channels: seq<Channel>)
    requires AllFetched(queues, answers, fetched) && |fetched| < |queues| && !TakesAll(queues[|fetched|]) && channels != []
    ensures FilledFrom(AllTaken(queues, fetched + [channels]), queues, fetched + [channels])
  {
    var all := fetched + [channels];
    assert forall i | 0 <= i < |fetched| :: all[i] == fetched[i];
    assert all[|fetched|] == channels;
  }

  /** Every channel but the last comes from a queue that is taken whole, and no channel of such a queue,
    * of those asked for, is left out. */
  lemma OneChannelOfOtherQueues(channels: seq<Channel>, queues: seq<Listing>, fetched: seq<seq<Channel>>, i: nat, c: Channel)
    requires FilledFrom(channels, queues, fetched) && i < |fetched| && c in fetched[i]
    ensures TakesAll(queues[i]) ==> c in channels
    ensures !TakesAll(queues[i]) ==> i == |fetched| - 1 && channels != [] && channels[|channels| - 1] == fetched[i][0]
  {
    var k := |fetched| - 1;
    if i < k {
      TakenWholeSoFar(queues, fetched[..k], c);
      assert fetched[..k][i] == fetched[i];
    }
  }

  /** One channel cycle of a run of the manager. */
  datatype Record = Record(channel: Channel, calls: CycleCalls, vpn: bool, err: Err, before: State, after: State)

  function ChannelsOf(log: seq<Record>): seq<Channel> {
    if log == [] then [] else ChannelsOf(log[..|log| - 1]) + [log[|log| - 1].channel]
  }

  ghost predicate RecordIsRight(r: Record) {
    CycleEffect(r.channel, r.calls, r.vpn, r.err, r.before, r.after)
  }

  /** The cycles follow each other without a gap, and each did what a cycle may do. */
  ghost predicate Cycles(log: seq<Record>, first: State, last: State) {
    if log == [] then last == first
    else var r := log[|log| - 1]; Cycles(log[..|log| - 1], first, r.before) && RecordIsRight(r) && r.after == last
  }

  predicate NeverThreeInARow(log: seq<Record>) {
    var n := |log|;
    n < 3 || (NeverThreeInARow(log[..n - 1]) && !(log[n - 3].channel == log[n - 2].channel == log[n - 1].channel))
  }

  /** A cycle that got under way with a wallet already in the slot reported a fatal error. */
  predicate FatalWhenOccupied(log: seq<Record>) {
    log == [] || var r := log[|log| - 1];
    FatalWhenOccupied(log[..|log| - 1]) && (Enters(r.calls) && r.before.slot.Some? ==> Mentions(r.err, FATAL_ERRORS))
  }

  /** The loop's two variables remember the channels of the last two cycles. */
  ghost predicate LastTwo(log: seq<Record>, last: Channel, secondLast: Channel) {
    && last == (if |log| >= 1 then log[|log| - 1].channel else "")
    && secondLast == (if |log| >= 2 then log[|log| - 2].channel else "")
  }

  predicate NoneFatal(log: seq<Record>) {
    log == [] || (NoneFatal(log[..|log| - 1]) && !Mentions(log[|log| - 1].err, FATAL_ERRORS))
  }

  /** A fatal error of a cycle is the error of the run, and no cycle follows it. */
  predicate FatalEndsTheRun(log: seq<Record>, e: Err) {
    log == [] || var r := log[|log| - 1];
    NoneFatal(log[..|log| - 1]) && (Mentions(r.err, FATAL_ERRORS) ==> e.Fail? && r.err.text <= e.text)
  }

  /** What holds of the log at every point of the manager's loop. */
  ghost predicate Sound(log: seq<Record>, first: State, last: State, e: Err) {
    Cycles(log, first, last) && NeverThreeInARow(log) && FatalWhenOccupied(log) && FatalEndsTheRun(log, e)
  }

  lemma OneMoreInTheLog(log: seq<Record>, first: State, last: State, r: Record)
    requires Cycles(log, first, last) && r.before == last && RecordIsRight(r)
    ensures Cycles(log + [r], first, r.after)
  {
    assert (log + [r])[..|log|] == log;
  }

  lemma OneMoreInARow(log: seq<Record>, r: Record, lastChannel: Channel, secondLastChannel: Channel)
    requires NeverThreeInARow(log) && LastTwo(log, lastChannel, secondLastChannel)
    requires !(lastChannel == r.channel && secondLastChannel == lastChannel)
    ensures NeverThreeInARow(log + [r]) && LastTwo(log + [r], r.channel, lastChannel)
  {
    assert (log + [r])[..|log|] == log;
  }

  lemma OneMoreError(log: seq<Record>, r: Record, e: Err)
    requires FatalWhenOccupied(log) && FatalEndsTheRun(log, Nil)
    requires Enters(r.calls) && r.before.slot.Some? ==> Mentions(r.err, FATAL_ERRORS)
    requires Mentions(r.err, FATAL_ERRORS) ==> e == r.err
    ensures FatalWhenOccupied(log + [r]) && FatalEndsTheRun(log + [r], e)
  {
    assert (log + [r])[..|log|] == log;
  }

  lemma OccupiedIsFatal(r: Record)
    requires RecordIsRight(r)
    ensures Enters(r.calls) && r.before.slot.Some? ==> Mentions(r.err, FATAL_ERRORS)
  {
    assert r.err.Fail? && AlreadyExists in r.err.text ==> AlreadyExists in r.err.text * FATAL_ERRORS;
  }

  lemma OneMoreCycle(log: seq<Record>, first: State, last: State, r: Record, e: Err,
                     lastChannel: Channel, secondLastChannel: Channel)
    requires Sound(log, first, last, Nil) && LastTwo(log, lastChannel, secondLastChannel)
    requires r.before == last && RecordIsRight(r)
    requires !(lastChannel == r.channel && secondLastChannel == lastChannel)
    requires Mentions(r.err, FATAL_ERRORS) ==> e == r.err
    ensures Sound(log + [r], first, r.after, e)
    ensures LastTwo(log + [r], r.channel, lastChannel)
  {
    OccupiedIsFatal(r);
    OneMoreInTheLog(log, first, last, r);
    OneMoreInARow(log, r, lastChannel, secondLastChannel);
    OneMoreError(log, r, e);
  }

  // What is sound about a log, cycle by cycle

  lemma {:induction false} ThreeInARowDiffer(log: seq<Record>, i: nat)
    requires NeverThreeInARow(log) && i + 2 < |log|
    ensures !(log[i].channel == log[i + 1].channel == log[i + 2].channel)
    decreases |log|
  {
    if i + 3 < |log| {
      ThreeInARowDiffer(log[..|log| - 1], i);
    }
  }

  lemma {:induction false} OccupiedSlotIsFatal(log: seq<Record>, i: nat)
    requires FatalWhenOccupied(log) && i < |log| && Enters(log[i].calls) && log[i].before.slot.Some?
    ensures Mentions(log[i].err, FATAL_ERRORS)
    decreases |log|
  {
    if i < |log| - 1 {
      OccupiedSlotIsFatal(log[..|log| - 1], i);
    }
  }

  lemma {:induction false} NoneIsFatal(log: seq<Record>, i: nat)
    requires NoneFatal(log) && i < |log|
    ensures !Mentions(log[i].err, FATAL_ERRORS)
    decreases |log|
  {
    if i < |log| - 1 {
      NoneIsFatal(log[..|log| - 1], i);
    }
  }

  /** A cycle with a fatal error is the last one, and the error of the run has its text. */
  lemma FatalErrorIsTheLast(log: seq<Record>, e: Err, i: nat)
    requires FatalEndsTheRun(log, e) && i < |log| && Mentions(log[i].err, FATAL_ERRORS)
    ensures i == |log| - 1 && e.Fail? && log[i].err.text <= e.text
  {
    if i < |log| - 1 {
      NoneIsFatal(log[..|log| - 1], i);
      assert false;
    }
  }

  /** The part of the log up to cycle `i`, which led to where that cycle ended. */
  lemma {:induction false} CyclesUpTo(log: seq<Record>, first: State, last: State, i: nat)
    requires Cycles(log, first, last) && i < |log|
    ensures Cycles(log[..i + 1], first, log[i].after) && RecordIsRight(log[i])
  {
    if i < |log| - 1 {
      assert log[..|log| - 1][..i + 1] == log[..i + 1];
      CyclesUpTo(log[..|log| - 1], first, log[|log| - 1].before, i);
    } else {
      assert log[..i + 1] == log;
    }
  }

  /** Once a cycle leaves a wallet behind in the slot, no later cycle moves any wallet. */
  lemma {:induction false} LeftBehindFreezesS3(log: seq<Record>, first: State, last: State, i: nat)
    requires Cycles(log, first, last) && i < |log| && log[i].after.slot.Some?
    ensures last.s3 == log[i].after.s3
    ensures last.slot.Some? && last.slot.value.owner == log[i].after.slot.value.owner
  {
    if i < |log| - 1 {
      LeftBehindFreezesS3(log[..|log| - 1], first, log[|log| - 1].before, i);
    }
  }

  predicate LeavesBehind(r: Record) {
    Brings(r.calls, r.channel, r.before) && !PutsBack(r.calls)
  }

  predicate SomeLeftBehind(log: seq<Record>) {
    exists i :: 0 <= i < |log| && LeavesBehind(log[i])
  }

  /** The slot is occupied in the end exactly if some cycle brought a wallet and did not put it back. */
  lemma {:induction false} OccupiedIffLeftBehind(log: seq<Record>, first: State, last: State)
    requires Cycles(log, first, last) && first.slot.None?
    ensures last.slot.Some? <==> SomeLeftBehind(log)
  {
    if log != [] {
      var front, r := log[..|log| - 1], log[|log| - 1];
      OccupiedIffLeftBehind(front, first, r.before);
      assert forall i | 0 <= i < |front| :: front[i] == log[i];
      assert SomeLeftBehind(log) <==> SomeLeftBehind(front) || LeavesBehind(r);
    }
  }

  /** Downloads and uploads by other channels' cycles never change what S3 has for a channel. */
  lemma {:induction false} OnlyOwnCyclesTouchTheObject(log: seq<Record>, first: State, last: State, c: Channel)
    requires Cycles(log, first, last) && forall i | 0 <= i < |log| :: log[i].channel != c
    ensures c in last.s3 <==> c in first.s3
    ensures c in last.s3 ==> last.s3[c] == first.s3[c]
    decreases |log|
  {
    if log != [] {
      var front := log[..|log| - 1];
      OnlyOwnCyclesTouchTheObject(front, first, log[|log| - 1].before, c);
    }
  }

  /** A failed blockchain upload by itself counts as a failure of the channel. On top of another
    * error it has the opposite effect: the channel is not marked at all. */
  lemma BlockchainUploadHidesFailures(text: set<Marker>, original: Err, interrupted: bool)
    ensures original.Fail? ==> TerminationStatus(Joined(Fail(text), original, {BlockchainUpload}), interrupted) == None
    ensures original.Nil? ==>
              (TerminationStatus(Joined(Fail(text), original, {BlockchainUpload}), interrupted) == None
               <==> text * NO_FAIL_CONDITIONS != {})
  {
    if original.Fail? {
      assert BlockchainUpload in Joined(Fail(text), original, {BlockchainUpload}).text * NO_FAIL_CONDITIONS;
    }
  }

  // Which of the queued channels get a cycle

  /** What the manager meets when it comes to one channel of its queue: the .update file, how the calls of
    * the cycle go, and then ReflectAndClean, the .freeze file and an interrupt. If it does not sync the
    * channel, `kill` is how its status is written. */
  datatype ChannelCalls = ChannelCalls(
    update: bool,
    cycle: CycleCalls,
    reflect: Err,
    frozen: bool,
    interrupted: bool,
    kill: StatusCalls)

  /** The .update file is there. */
  const UPDATE_FILE := ChannelCalls(
    true,
    CycleCalls(false, Nil, SyncCalls(DownloadCalls(false, Nil, Nil, Nil), Nil, DaemonCalls(Nil, true, 0, [], Nil, Nil, [])),
               ShutdownCalls(Nil, StopCalls(true, true, []), UploadCalls(Nil, Confirmed, [], Nil), Nil),
               StatusCalls(false, Nil, false)),
    Nil, false, false, StatusCalls(false, Nil, false))

  /** What the manager meets when it comes to channel `i`. */
  function CallsAt(calls: seq<ChannelCalls>, i: nat): (c: ChannelCalls)
    ensures i < |calls| ==> c == calls[i]
  {
    if i < |calls| then calls[i] else UPDATE_FILE
  }

  /** The channels that got a cycle, and the last two of them. */
  datatype Visited = Visited(cycled: seq<Channel>, last: Channel, secondLast: Channel)

  /** Every channel gets a cycle, but one that would be the third in a row. */
  function Visits(queue: seq<Channel>, last: Channel, secondLast: Channel): Visited {
    if queue == [] then Visited([], last, secondLast)
    else
      var before, c := Visits(queue[..|queue| - 1], last, secondLast), queue[|queue| - 1];
      if before.last == c && before.secondLast == c then before else Visited(before.cycled + [c], c, before.last)
  }

  predicate IsCycled(queue: seq<Channel>, i: nat, last: Channel, secondLast: Channel)
    requires i < |queue|
  {
    var before := Visits(queue[..i], last, secondLast);
    !(before.last == before.secondLast == queue[i])
  }

  lemma OneMoreVisit(queue: seq<Channel>, i: nat, last: Channel, secondLast: Channel)
    requires i < |queue|
    ensures var before := Visits(queue[..i], last, secondLast);
            Visits(queue[..i + 1], last, secondLast)
            == if IsCycled(queue, i, last, secondLast) then Visited(before.cycled + [queue[i]], queue[i], before.last) else before
  {
    assert queue[..i + 1][..i] == queue[..i];
  }

  /** A queue in which no channel is there three times in a row, nor with the two cycles before, is synced
    * whole and in order. */
  lemma {:induction false} AllAreCycled(queue: seq<Channel>, last: Channel, secondLast: Channel)
    requires var all := [secondLast, last] + queue; forall i | 0 <= i < |queue| :: !(all[i] == all[i + 1] == all[i + 2])
    ensures var all, v := [secondLast, last] + queue, Visits(queue, last, secondLast);
            v == Visited(queue, all[|queue| + 1], all[|queue|])
  {
    if queue != [] {
      var n := |queue| - 1;
      var init, all := queue[..n], [secondLast, last] + queue;
      assert forall i | 0 <= i < |[secondLast, last] + init| :: ([secondLast, last] + init)[i] == all[i];
      AllAreCycled(init, last, secondLast);
      assert !(all[n] == all[n + 1] == all[n + 2]);
      assert queue == init + [queue[n]];
    }
  }

  /** Why no more channels are looked at. */
  datatype Reason = Drained | UpdateFile | Error | Frozen | Stopped

  predicate LimitReached(flags: Flags, count: nat) {
    flags.limit != 0 && count >= flags.limit
  }

  /** How many of the cycles count. */
  function Counted(log: seq<Record>): nat {
    if log == [] then 0
    else Counted(log[..|log| - 1]) + (if Mentions(log[|log| - 1].err, {ManagedElsewhere}) then 0 else 1)
  }

  /** What syncing one channel adds to the log and to the count, and whether it is to be the last. */
  ghost predicate OneCycle(flags: Flags, channel: Channel, calls: ChannelCalls, count: nat, log: seq<Record>, log': seq<Record>,
                           e: Err, count': nat, interrupt: bool, leave: bool) {
    && |log'| == |log| + 1 && log' == log + [log'[|log|]]
    && (var r := log'[|log|];
        && r.channel == channel && r.calls == calls.cycle && r.vpn == flags.useVpn
        && e == (if Mentions(r.err, FATAL_ERRORS) then r.err else calls.reflect)
        && count' == count + (if e.Fail? || Mentions(r.err, {ManagedElsewhere}) then 0 else 1))
    && (leave <==> e.Nil? && (calls.frozen || calls.interrupted || LimitReached(flags, count')))
    && (interrupt <==> leave && !calls.frozen)
  }

  /** The first `n` channels were looked at, and none of them was a reason to stop. */
  ghost predicate Passed(queue: seq<Channel>, calls: seq<ChannelCalls>, n: nat, last: Channel, secondLast: Channel) {
    && n <= |queue|
    && (forall i: nat | i < n :: !CallsAt(calls, i).update)
    && (forall i: nat | i < n && IsCycled(queue, i, last, secondLast) ::
          CallsAt(calls, i).reflect.Nil? && !CallsAt(calls, i).frozen && !CallsAt(calls, i).interrupted)
  }

  /** `n` channels were looked at, until there was a reason to stop. */
  ghost predicate EndedBy(flags: Flags, queue: seq<Channel>, calls: seq<ChannelCalls>, n: nat, last: Channel, secondLast: Channel,
                          why: Reason, e: Err, count: nat, interrupt: bool) {
    && n <= |queue| && Passed(queue, calls, if why.Drained? || why.UpdateFile? then n else if n > 0 then n - 1 else 0, last, secondLast)
    && (e.Fail? <==> why.Error?) && (interrupt <==> why.UpdateFile? || why.Stopped?)
    && match why
       case Drained => n == |queue|
       case UpdateFile => n < |queue| && CallsAt(calls, n).update
       case Error => n > 0 && !CallsAt(calls, n - 1).update
       case Frozen => n > 0 && !CallsAt(calls, n - 1).update && CallsAt(calls, n - 1).frozen
       case Stopped =>
         && n > 0 && !CallsAt(calls, n - 1).update && !CallsAt(calls, n - 1).frozen
         && (CallsAt(calls, n - 1).interrupted || LimitReached(flags, count))
  }

  /** The cycles that were added to the log are those of the first `n` channels, in order, and the count
    * went up with them; one that ended in an error of the run does not count. */
  ghost predicate Logged(queue: seq<Channel>, n: nat, last: Channel, secondLast: Channel, log: seq<Record>, log': seq<Record>,
                         last': Channel, secondLast': Channel) {
    n <= |queue| && var v := Visits(queue[..n], last, secondLast);
    log <= log' && ChannelsOf(log') == ChannelsOf(log) + v.cycled && last' == v.last && secondLast' == v.secondLast
  }

  lemma LoggedOneMore(queue: seq<Channel>, n: nat, last: Channel, secondLast: Channel, log: seq<Record>, before: seq<Record>,
                      r: Record, last': Channel, secondLast': Channel)
    requires Logged(queue, n, last, secondLast, log, before, last', secondLast')
    requires n < |queue| && r.channel == queue[n] && IsCycled(queue, n, last, secondLast)
    ensures Logged(queue, n + 1, last, secondLast, log, before + [r], queue[n], last')
  {
    OneMoreVisit(queue, n, last, secondLast);
    assert (before + [r])[..|before|] == before;
  }

  /** The channels that were passed over because they would have been the third in a row were marked as
    * failed, if that could be written. */
  ghost predicate KilledAreMarked(queue: seq<Channel>, calls: seq<ChannelCalls>, n: nat, last: Channel, secondLast: Channel, statuses: seq<Mark>) {
    n <= |queue| &&
    forall i: nat | i < n && !IsCycled(queue, i, last, secondLast) && CallsAt(calls, i).kill.write.Nil? :: Mark(queue[i], Failed) in statuses
  }

  lemma KillIsMarked(kill: StatusCalls, c: Channel, before: seq<Mark>, after: seq<Mark>, e: Err)
    requires StatusEffect(Fail({}), kill, c, before, after, e)
    ensures before <= after && (kill.write.Nil? ==> Mark(c, Failed) in after)
  {
    if kill.write.Nil? {
      var status :| StatusFits(status, Fail({})) && after == before + [Mark(c, status)];
      assert after[|before|] == Mark(c, Failed);
    }
  }

  lemma MarksStay(q: Queue, n: nat, m: nat, before: seq<Mark>, after: seq<Mark>)
    requires KilledAreMarked(q.channels, q.calls, n, q.last, q.secondLast, before) && before <= after && m == n + 1 <= |q.channels|
    requires IsCycled(q.channels, n, q.last, q.secondLast) || (CallsAt(q.calls, n).kill.write.Nil? ==> Mark(q.channels[n], Failed) in after)
    ensures KilledAreMarked(q.channels, q.calls, m, q.last, q.secondLast, after)
  {
  }

  /** The inner loop, after the first `n` channels: the queue, what it meets, and where it started. */
  datatype Queue = Queue(flags: Flags, channels: seq<Channel>, calls: seq<ChannelCalls>, last: Channel, secondLast: Channel, count: nat,
                         log: seq<Record>)

  /** The variables of the loop. */
  datatype Progress = Progress(n: nat, last: Channel, secondLast: Channel, count: nat, e: Err, interrupt: bool, leave: bool)

  /** The loop ends in an error because of its last cycle: that was fatal, or the clean-up after it failed. */
  predicate ErrorIsOfLast(q: Queue, p: Progress, log: seq<Record>) {
    p.e.Fail? ==>
      && p.n > 0 && log != []
      && p.e == if Mentions(log[|log| - 1].err, FATAL_ERRORS) then log[|log| - 1].err else CallsAt(q.calls, p.n - 1).reflect
  }

  ghost predicate SoFar(q: Queue, p: Progress, log: seq<Record>, why: Reason) {
    && Logged(q.channels, p.n, q.last, q.secondLast, q.log, log, p.last, p.secondLast)
    && p.count == q.count + Counted(log) - Counted(q.log) - (if CutShort(p.e, log) then 1 else 0)
    && ErrorIsOfLast(q, p, log)
    && (if p.leave then EndedBy(q.flags, q.channels, q.calls, p.n, q.last, q.secondLast, why, p.e, p.count, p.interrupt)
        else p.e.Nil? && !p.interrupt && why.Drained? && Passed(q.channels, q.calls, p.n, q.last, q.secondLast))
  }

  /** What holds whenever the loop comes to its head. */
  ghost predicate LoopHead(q: Queue, p: Progress, log: seq<Record>, why: Reason, first: State, state: State, statuses: seq<Mark>) {
    && Sound(log, first, state, p.e) && LastTwo(log, p.last, p.secondLast)
    && SoFar(q, p, log, why)
    && KilledAreMarked(q.channels, q.calls, p.n, q.last, q.secondLast, statuses)
  }

  /** There is a channel to come to. */
  predicate HasNext(q: Queue, p: Progress) {
    !p.leave && p.n < |q.channels|
  }

  /** The last cycle ended in an error of the run, and would have counted. */
  predicate CutShort(e: Err, log: seq<Record>) {
    e.Fail? && log != [] && !Mentions(log[|log| - 1].err, {ManagedElsewhere})
  }

  lemma MeetsUpdateFile(q: Queue, p: Progress, log: seq<Record>, why: Reason)
    requires SoFar(q, p, log, why) && !p.leave && p.n < |q.channels| && CallsAt(q.calls, p.n).update
    ensures SoFar(q, p.(interrupt := true, leave := true), log, UpdateFile)
  {
  }

  lemma PassesOver(q: Queue, p: Progress, log: seq<Record>, why: Reason)
    requires SoFar(q, p, log, why) && !p.leave && p.n < |q.channels| && !CallsAt(q.calls, p.n).update
    requires p.last == p.secondLast == q.channels[p.n]
    ensures SoFar(q, p.(n := p.n + 1), log, why) && !IsCycled(q.channels, p.n, q.last, q.secondLast)
  {
    OneMoreVisit(q.channels, p.n, q.last, q.secondLast);
  }

  function ReasonOf(e: Err, interrupt: bool, leave: bool): Reason {
    if e.Fail? then Error else if !leave then Drained else if interrupt then Stopped else Frozen
  }

  lemma SyncsOne(q: Queue, p: Progress, before: seq<Record>, why: Reason, log: seq<Record>, e: Err, count: nat, interrupt: bool, leave: bool)
    requires SoFar(q, p, before, why) && !p.leave && p.n < |q.channels| && !CallsAt(q.calls, p.n).update
    requires !(p.last == p.secondLast == q.channels[p.n])
    requires OneCycle(q.flags, q.channels[p.n], CallsAt(q.calls, p.n), p.count, before, log, e, count, interrupt, leave)
    ensures SoFar(q, Progress(p.n + 1, q.channels[p.n], p.last, count, e, interrupt, leave || e.Fail?), log, ReasonOf(e, interrupt, leave))
    ensures IsCycled(q.channels, p.n, q.last, q.secondLast)
  {
    var r := log[|before|];
    LoggedOneMore(q.channels, p.n, q.last, q.secondLast, q.log, before, r, p.last, p.secondLast);
    assert log[..|log| - 1] == before;
  }

  lemma LoopStarts(q: Queue, first: State, state: State, statuses: seq<Mark>)
    requires Sound(q.log, first, state, Nil) && LastTwo(q.log, q.last, q.secondLast)
    ensures LoopHead(q, Progress(0, q.last, q.secondLast, q.count, Nil, false, false), q.log, Drained, first, state, statuses)
  {
    assert q.channels[..0] == [];
  }

  /** What the loop over the queue has done when it ends: how many channels it looked at and why no more,
    * which of them got a cycle, and which cycles count. */
  ghost predicate QueueSynced(q: Queue, p: Progress, log: seq<Record>, why: Reason) {
    && EndedBy(q.flags, q.channels, q.calls, p.n, q.last, q.secondLast, why, p.e, p.count, p.interrupt)
    && Logged(q.channels, p.n, q.last, q.secondLast, q.log, log, p.last, p.secondLast)
    && p.count == q.count + Counted(log) - Counted(q.log) - (if CutShort(p.e, log) then 1 else 0)
    && ErrorIsOfLast(q, p, log)
  }

  lemma LoopEnds(q: Queue, p: Progress, log: seq<Record>, why: Reason, first: State, state: State, statuses: seq<Mark>)
    requires LoopHead(q, p, log, why, first, state, statuses) && !HasNext(q, p)
    ensures QueueSynced(q, p, log, why)
  {
  }

  // Rounds of the outer loop

  /** What the manager meets in one round of its outer loop. */
  datatype RoundCalls = RoundCalls(suspended: bool, space: Err, answers: seq<Answer>, channels: seq<ChannelCalls>)

  /** What a round that was not suspended did: the queue it fetched, and where the loop over that ended. */
  datatype RoundRecord = RoundRecord(
    calls: RoundCalls,
    channels: seq<Channel>,
    fetched: seq<seq<Channel>>,
    fetch: Err,
    why: Reason,
    before: Progress,
    queued: Progress,
    after: Progress,
    logBefore: seq<Record>,
    logAfter: seq<Record>)

  /** A run for one channel has exactly that channel in its queue; any other fills it from the queues. */
  ghost predicate FetchIsRight(flags: Flags, answers: seq<Answer>, channels: seq<Channel>, fetched: seq<seq<Channel>>, e: Err) {
    if flags.singleChannel then
      && (e.Nil? <==> AnswerAt(answers, 0).Channels? && |AnswerAt(answers, 0).channels| == 1)
      && (e.Nil? ==> channels == AnswerAt(answers, 0).channels)
    else
      && AnsweredBy(QueuesToSync(flags), answers, fetched, e)
      && (e.Nil? ==> FilledFrom(channels, QueuesToSync(flags), fetched))
  }

  /** A round ends in an error before any cycle, or syncs the queue it fetched. */
  ghost predicate RoundIsRight(flags: Flags, r: RoundRecord) {
    if r.calls.space.Fail? then r.after.e == r.calls.space && r.logAfter == r.logBefore
    else
      && FetchIsRight(flags, r.calls.answers, r.channels, r.fetched, r.fetch)
      && if r.fetch.Fail? then r.after.e == r.fetch && r.logAfter == r.logBefore
         else
           && QueueSynced(Queue(flags, r.channels, r.calls.channels, r.before.last, r.before.secondLast, r.before.count, r.logBefore),
                          r.queued, r.logAfter, r.why)
           && r.after == Ending(flags, r.queued)
  }

  /** The run for one channel, and a single run, end with the round. */
  function Ending(flags: Flags, p: Progress): Progress {
    p.(interrupt := p.interrupt || flags.singleChannel || flags.singleRun)
  }

  const AT_THE_START := Progress(0, "", "", 0, Nil, false, false)

  /** There is a record for each of the first `n` rounds that was not suspended; it starts where the one
    * before it ended, and none follows an error or an interrupt. */
  ghost predicate Follow(calls: seq<RoundCalls>, n: nat, rounds: seq<RoundRecord>, p: Progress, log: seq<Record>)
    decreases n
  {
    n <= |calls| &&
    if n == 0 then rounds == [] && p == AT_THE_START && log == []
    else if calls[n - 1].suspended then Follow(calls, n - 1, rounds, p, log) && !p.interrupt && p.e.Nil?
    else
      && rounds != [] && var r := rounds[|rounds| - 1];
      && Follow(calls, n - 1, rounds[..|rounds| - 1], r.before, r.logBefore)
      && !r.before.interrupt && r.before.e.Nil?
      && r.calls == calls[n - 1] && r.after == p && r.logAfter == log
  }

  ghost predicate RoundsDone(flags: Flags, calls: seq<RoundCalls>, n: nat, rounds: seq<RoundRecord>, p: Progress, log: seq<Record>) {
    Follow(calls, n, rounds, p, log) && forall r | r in rounds :: RoundIsRight(flags, r)
  }

  lemma OneMoreRound(flags: Flags, calls: seq<RoundCalls>, n: nat, rounds: seq<RoundRecord>, r: RoundRecord)
    requires RoundsDone(flags, calls, n, rounds, r.before, r.logBefore) && n < |calls| && !calls[n].suspended
    requires RoundIsRight(flags, r) && r.calls == calls[n] && !r.before.interrupt && r.before.e.Nil?
    ensures RoundsDone(flags, calls, n + 1, rounds + [r], r.after, r.logAfter)
  {
    assert (rounds + [r])[..|rounds|] == rounds;
  }

  /** A round that syncs its queue ends where the loop over it does; any other ends with an error. */
  lemma RoundEnds(flags: Flags, r: RoundRecord)
    requires r.calls.space.Nil? ==> FetchIsRight(flags, r.calls.answers, r.channels, r.fetched, r.fetch)
    requires r.calls.space.Nil? && r.fetch.Nil? ==>
               && QueueSynced(Queue(flags, r.channels, r.calls.channels, r.before.last, r.before.secondLast, r.before.count, r.logBefore),
                              r.queued, r.logAfter, r.why)
               && r.after == Ending(flags, r.queued)
    requires r.calls.space.Fail? || r.fetch.Fail? ==>
               r.after.e == (if r.calls.space.Fail? then r.calls.space else r.fetch) && r.logAfter == r.logBefore
    ensures RoundIsRight(flags, r)
  {
  }

  lemma Suspended(flags: Flags, calls: seq<RoundCalls>, n: nat, rounds: seq<RoundRecord>, p: Progress, log: seq<Record>)
    requires RoundsDone(flags, calls, n, rounds, p, log) && n < |calls| && calls[n].suspended && !p.interrupt && p.e.Nil?
    ensures RoundsDone(flags, calls, n + 1, rounds, p, log)
  {
  }

  /** What holds whenever the outer loop comes to its head. */
  ghost predicate OuterHead(log: seq<Record>, first: State, state: State, p: Progress) {
    Sound(log, first, state, p.e) && LastTwo(log, p.last, p.secondLast)
  }

  lemma EndsAs(flags: Flags, log: seq<Record>, first: State, state: State, p: Progress)
    requires Sound(log, first, state, p.e) && LastTwo(log, p.last, p.secondLast)
    ensures OuterHead(log, first, state, Ending(flags, p))
  {
  }

  lemma OuterStart(flags: Flags, calls: seq<RoundCalls>, state: State)
    ensures OuterHead([], state, state, AT_THE_START) && RoundsDone(flags, calls, 0, [], AT_THE_START, [])
  {
  }

  /** A run for one channel, or a single run, has at most one round that is not suspended. */
  lemma {:induction false} SingleRunHasOneRound(flags: Flags, calls: seq<RoundCalls>, n: nat, rounds: seq<RoundRecord>, p: Progress, log: seq<Record>)
    requires RoundsDone(flags, calls, n, rounds, p, log) && (flags.singleChannel || flags.singleRun)
    ensures |rounds| <= 1 && (rounds != [] ==> p.interrupt || p.e.Fail?)
    decreases n
  {
    if n > 0 {
      if calls[n - 1].suspended {
        SingleRunHasOneRound(flags, calls, n - 1, rounds, p, log);
      } else {
        var r := rounds[|rounds| - 1];
        assert r in rounds;
        SingleRunHasOneRound(flags, calls, n - 1, rounds[..|rounds| - 1], r.before, r.logBefore);
      }
    }
  }

  class SyncManager {
    const flags: Flags
    const machine: Machine
    var channelsToSync: seq<Channel>

    constructor (f: Flags, m: Machine)
      ensures flags == f && machine == m
    {
      flags, machine, channelsToSync := f, m, [];
    }

    /** Fills the queue from the database; `answers` is what that has for each query. */
    method FetchChannels(answers: seq<Answer>) returns (e: Err, ghost fetched: seq<seq<Channel>>)
      modifies this`channelsToSync
      ensures FetchIsRight(flags, answers, channelsToSync, fetched, e)
    {
      channelsToSync, fetched := [], [];
      if flags.singleChannel {
        if AnswerAt(answers, 0).NoAnswer? {
          return Fail(AnswerAt(answers, 0).text), [];
        }
        var channels := AnswerAt(answers, 0).channels;
        e := if |channels| != 1 then Fail({}) else Nil;
        channelsToSync := channels;
        return;
      }
      e, fetched := FetchQueues(QueuesToSync(flags), answers);
    }

    /** The loop over the queues of the flags. */
    method FetchQueues(queues: seq<Listing>, answers: seq<Answer>) returns (e: Err, ghost fetched: seq<seq<Channel>>)
      requires channelsToSync == []
      modifies this`channelsToSync
      ensures AnsweredBy(queues, answers, fetched, e)
      ensures e.Nil? ==> FilledFrom(channelsToSync, queues, fetched)
    {
      var k := 0;
      fetched := [];
      while k < |queues|
        invariant AllFetched(queues, answers, fetched) && |fetched| == k && channelsToSync == AllTaken(queues, fetched)
      {
        if AnswerAt(answers, k).NoAnswer? {
          return Fail(AnswerAt(answers, k).text), fetched;
        }
        var channels := AnswerAt(answers, k).channels;
        var drained := Enqueue(queues[k], channels);
        OneMoreTaken(queues, fetched, channels);
        OneMoreFetched(queues, answers, fetched, channels);
        if !drained {
          LastFetched(queues, answers, fetched, channels);
        }
        fetched, k := fetched + [channels], k + 1;
        if !drained {
          return Nil, fetched;
        }
      }
      e := Nil;
    }

    /** The loop over one queue; it is left after the first channel unless the queue is taken whole. */
    method Enqueue(queue: Listing, channels: seq<Channel>) returns (drained: bool)
      modifies this`channelsToSync
      ensures channelsToSync == old(channelsToSync) + Taken(queue, channels)
      ensures drained <==> TakesAll(queue) || channels == []
    {
      for n := 0 to |channels|
        invariant channelsToSync == old(channelsToSync) + channels[..n] && (n > 0 ==> TakesAll(queue))
      {
        assert channels[..n + 1] == channels[..n] + [channels[n]];
        channelsToSync := channelsToSync + [channels[n]];
        var queueAll := queue == Failing || queue == Syncing;
        if !queueAll {
          return false;
        }
      }
      assert channels[..|channels|] == channels;
      return true;
    }

    /** Syncs one channel; `interrupt` and `leave` tell the caller which loops to end. */
    method SyncChannel(channel: Channel, calls: ChannelCalls, last: Channel, secondLast: Channel, count: nat,
                       ghost log: seq<Record>, ghost first: State)
      returns (e: Err, count': nat, interrupt: bool, leave: bool, ghost log': seq<Record>)
      requires machine.Valid() && Sound(log, first, machine.state, Nil) && LastTwo(log, last, secondLast)
      requires !(last == channel && secondLast == last)
      modifies machine
      ensures machine.Valid() && old(machine.run) <= machine.run && old(machine.statuses) <= machine.statuses
      ensures Sound(log', first, machine.state, e) && LastTwo(log', channel, last)
      ensures OneCycle(flags, channel, calls, count, log, log', e, count', interrupt, leave)
    {
      count', interrupt, leave := count, false, false;
      ghost var before := machine.state;
      var sync := new Sync(channel, machine, flags.useVpn);
      var err := sync.FullCycle(calls.cycle);
      ghost var r := Record(channel, calls.cycle, flags.useVpn, err, before, machine.state);
      log' := log + [r];
      OneMoreCycle(log, first, before, r, if Mentions(err, FATAL_ERRORS) then err else Nil, last, secondLast);
      if Mentions(err, FATAL_ERRORS) {
        e := Fail(err.text);
        return;
      }
      e := calls.reflect;    // ReflectAndClean
      if e.Fail? {
        return;
      }
      if !Mentions(err, {ManagedElsewhere}) {
        count' := count + 1;
      }
      if calls.frozen {
        leave := true;
      } else if calls.interrupted || (flags.limit != 0 && count' >= flags.limit) {
        interrupt, leave := true, true;
      }
    }

    /** What the loop does with one channel of the queue. */
    method VisitOne(calls: ChannelCalls, channel: Channel, p: Progress, ghost q: Queue, ghost log: seq<Record>, ghost why: Reason, ghost first: State)
      returns (p': Progress, ghost log': seq<Record>, ghost why': Reason)
      requires machine.Valid() && LoopHead(q, p, log, why, first, machine.state, machine.statuses) && HasNext(q, p)
      requires q.flags == flags && channel == q.channels[p.n] && calls == CallsAt(q.calls, p.n)
      modifies machine
      ensures machine.Valid() && old(machine.run) <= machine.run
      ensures LoopHead(q, p', log', why', first, machine.state, machine.statuses)
      ensures p'.n == (if calls.update then p.n else p.n + 1) && (calls.update ==> p'.leave)
    {
      if calls.update {          // the .update file
        MeetsUpdateFile(q, p, log, why);
        p', log', why' := p.(interrupt := true, leave := true), log, UpdateFile;
      } else if p.last == channel && p.secondLast == p.last {
        Kill(channel, calls.kill, p, q, log, why, first);
        p', log', why' := p.(n := p.n + 1), log, why;
      } else {
        p', log', why' := SyncOne(calls, channel, p, q, log, why, first);
      }
    }

    /** Marks a channel that would be synced three times in a row. */
    method Kill(channel: Channel, calls: StatusCalls, ghost p: Progress, ghost q: Queue, ghost log: seq<Record>, ghost why: Reason,
                ghost first: State)
      requires LoopHead(q, p, log, why, first, machine.state, machine.statuses) && HasNext(q, p)
      requires channel == q.channels[p.n] && calls == CallsAt(q.calls, p.n).kill && !CallsAt(q.calls, p.n).update
      requires p.last == p.secondLast == channel
      modifies machine`statuses
      ensures LoopHead(q, p.(n := p.n + 1), log, why, first, machine.state, machine.statuses)
    {
      ghost var before := machine.statuses;
      var sync := new Sync(channel, machine, flags.useVpn);
      var e := sync.SetChannelTerminationStatus(Fail({}), calls);
      PassesOver(q, p, log, why);
      KillIsMarked(calls, channel, before, machine.statuses, e);
      MarksStay(q, p.n, p.n + 1, before, machine.statuses);
    }

    method SyncOne(calls: ChannelCalls, channel: Channel, p: Progress, ghost q: Queue, ghost log: seq<Record>, ghost why: Reason, ghost first: State)
      returns (p': Progress, ghost log': seq<Record>, ghost why': Reason)
      requires machine.Valid() && LoopHead(q, p, log, why, first, machine.state, machine.statuses) && HasNext(q, p)
      requires q.flags == flags && channel == q.channels[p.n] && calls == CallsAt(q.calls, p.n) && !calls.update
      requires !(p.last == p.secondLast == channel)
      modifies machine
      ensures machine.Valid() && old(machine.run) <= machine.run && p'.n == p.n + 1
      ensures LoopHead(q, p', log', why', first, machine.state, machine.statuses)
    {
      ghost var before := machine.statuses;
      var e, count, interrupt, leave;
      e, count, interrupt, leave, log' := SyncChannel(channel, calls, p.last, p.secondLast, p.count, log, first);
      SyncsOne(q, p, log, why, log', e, count, interrupt, leave);
      MarksStay(q, p.n, p.n + 1, before, machine.statuses);
      why' := ReasonOf(e, interrupt, leave);
      p' := Progress(p.n + 1, channel, p.last, count, e, interrupt, leave || e.Fail?);
    }

    /** The inner loop, over the queued channels; `p.n` is how many of them were looked at, `why` the reason
      * for not looking at more. */
    method SyncQueued(calls: seq<ChannelCalls>, last: Channel, secondLast: Channel, count: nat, ghost log: seq<Record>, ghost first: State)
      returns (p: Progress, ghost log': seq<Record>, ghost why: Reason)
      requires machine.Valid() && Sound(log, first, machine.state, Nil) && LastTwo(log, last, secondLast)
      modifies machine
      ensures machine.Valid() && old(machine.run) <= machine.run
      ensures Sound(log', first, machine.state, p.e) && LastTwo(log', p.last, p.secondLast)
      ensures QueueSynced(Queue(flags, channelsToSync, calls, last, secondLast, count, log), p, log', why)
      ensures KilledAreMarked(channelsToSync, calls, p.n, last, secondLast, machine.statuses)
    {
      ghost var q := Queue(flags, channelsToSync, calls, last, secondLast, count, log);
      p, log', why := Progress(0, last, secondLast, count, Nil, false, false), log, Drained;
      LoopStarts(q, first, machine.state, machine.statuses);
      while p.n < |channelsToSync| && !p.leave
        invariant machine.Valid() && old(machine.run) <= machine.run
        invariant LoopHead(q, p, log', why, first, machine.state, machine.statuses)
        decreases |channelsToSync| - p.n, !p.leave
      {
        p, log', why := VisitOne(CallsAt(calls, p.n), channelsToSync[p.n], p, q, log', why, first);
      }
      LoopEnds(q, p, log', why, first, machine.state, machine.statuses);
    }

    /** `calls` has what every round of the outer loop meets: any run of the program has some number of
      * rounds, and what is promised holds for every number. The log lists the cycles that ran, `rounds`
      * what each round did. At every moment, every channel's whole wallet was in the slot or on S3, under
      * its own key, and every download found the slot empty. */
    method Start(calls: seq<RoundCalls>) returns (e: Err, ghost log: seq<Record>, ghost n: nat, ghost rounds: seq<RoundRecord>, ghost p: Progress)
      requires machine.Valid()
      modifies machine, this`channelsToSync
      ensures machine.Valid() && old(machine.run) <= machine.run
      ensures Sound(log, old(machine.state), machine.state, e)
      ensures RoundsDone(flags, calls, n, rounds, p, log) && p.e == e && (n == |calls| || p.interrupt || e.Fail?)
      ensures forall k: nat | k <= |machine.run| :: Safe(Exec(machine.origin, machine.run[..k]))
      ensures FetchesFillAnEmptySlot(machine.origin, machine.run)
    {
      e, log, n, rounds, p := Rounds(calls);
      forall k: nat | k <= |machine.run| ensures Safe(Exec(machine.origin, machine.run[..k])) {
        machine.EveryMomentIsSafe(k);
      }
      CheckedRunIsRight(machine.origin, machine.run);
    }

    /** One round of the outer loop that is not suspended. */
    method Round(c: RoundCalls, before: Progress, ghost log: seq<Record>, ghost first: State)
      returns (p: Progress, ghost log': seq<Record>, ghost r: RoundRecord)
      requires machine.Valid() && OuterHead(log, first, machine.state, before) && before.e.Nil?
      modifies machine, this`channelsToSync
      ensures machine.Valid() && old(machine.run) <= machine.run
      ensures OuterHead(log', first, machine.state, p)
      ensures RoundIsRight(flags, r) && r.calls == c && r.before == before && r.after == p && r.logBefore == log && r.logAfter == log'
    {
      ghost var fetched, fetch: Err, queued, why: Reason := [], Nil, before, Drained;
      p, log' := Progress(0, before.last, before.secondLast, before.count, c.space, false, false), log;
      if c.space.Nil? {          // checkUsedSpace
        p, log', fetched, fetch, queued, why := FetchAndSync(c, before, log, first);
      }
      r := RoundRecord(c, channelsToSync, fetched, fetch, why, before, queued, p, log, log');
    }

    method FetchAndSync(c: RoundCalls, before: Progress, ghost log: seq<Record>, ghost first: State)
      returns (p: Progress, ghost log': seq<Record>, ghost fetched: seq<seq<Channel>>, ghost fetch: Err, ghost queued: Progress, ghost why: Reason)
      requires machine.Valid() && OuterHead(log, first, machine.state, before) && before.e.Nil? && c.space.Nil?
      modifies machine, this`channelsToSync
      ensures machine.Valid() && old(machine.run) <= machine.run
      ensures OuterHead(log', first, machine.state, p)
      ensures RoundIsRight(flags, RoundRecord(c, channelsToSync, fetched, fetch, why, before, queued, p, log, log'))
    {
      queued, log', why := before, log, Drained;
      var e;
      e, fetched := FetchChannels(c.answers);
      fetch, p := e, Progress(0, before.last, before.secondLast, before.count, e, false, false);
      if e.Nil? {
        p, log', why := SyncQueued(c.channels, before.last, before.secondLast, before.count, log, first);
        queued := p;
        p := Ending(flags, p);
        EndsAs(flags, log', first, machine.state, queued);
      }
      RoundEnds(flags, RoundRecord(c, channelsToSync, fetched, fetch, why, before, queued, p, log, log'));
    }

    method Rounds(calls: seq<RoundCalls>) returns (e: Err, ghost log: seq<Record>, ghost n: nat, ghost rounds: seq<RoundRecord>, p: Progress)
      requires machine.Valid()
      modifies machine, this`channelsToSync
      ensures machine.Valid() && old(machine.run) <= machine.run
      ensures OuterHead(log, old(machine.state), machine.state, p) && p.e == e
      ensures RoundsDone(flags, calls, n, rounds, p, log) && (n == |calls| || p.interrupt || e.Fail?)
    {
      p, log, rounds := AT_THE_START, [], [];
      var round := 0;
      ghost var first := machine.state;
      OuterStart(flags, calls, first);
      while round < |calls| && !p.interrupt && p.e.Nil?
        invariant machine.Valid() && old(machine.run) <= machine.run && round <= |calls|
        invariant OuterHead(log, first, machine.state, p) && RoundsDone(flags, calls, round, rounds, p, log)
      {
        p, log, rounds := NextRound(calls, round, p, log, rounds, first);
        round := round + 1;
      }
      e, n := p.e, round;
    }

    method NextRound(calls: seq<RoundCalls>, n: nat, before: Progress, ghost log: seq<Record>, ghost rounds: seq<RoundRecord>, ghost first: State)
      returns (p: Progress, ghost log': seq<Record>, ghost rounds': seq<RoundRecord>)
      requires machine.Valid() && OuterHead(log, first, machine.state, before)
      requires n < |calls| && RoundsDone(flags, calls, n, rounds, before, log) && !before.interrupt && before.e.Nil?
      modifies machine, this`channelsToSync
      ensures machine.Valid() && old(machine.run) <= machine.run
      ensures OuterHead(log', first, machine.state, p) && RoundsDone(flags, calls, n + 1, rounds', p, log')
    {
      p, log', rounds' := before, log, rounds;
      if calls[n].suspended {   // the .freeze file
        Suspended(flags, calls, n, rounds, before, log);
      } else {
        ghost var r;
        p, log', r := Round(calls[n], before, log, first);
        OneMoreRound(flags, calls, n, rounds, r);
        rounds' := rounds + [r];
      }
    }
  }
}
