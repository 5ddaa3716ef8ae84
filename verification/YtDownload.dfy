/** The download of one video: what the downloader's output means, and which qualities are tried. */
module YtDownload {
  import opened IpEntries
  import opened IpLeases
  import opened IpPool
  import opened Options
  import Downloads

  // What one run of the downloader says

  /** The texts that its two outputs are searched for. */
  datatype Marker =
    | TooManyRequests      // "HTTP Error 429"
    | ExitStatus8
    | FragmentsGivenUp
    | NoVideoData
    | DurationFilter
    | MaxFilesize
    | FormatNotAvailable

  datatype Output = Empty | Text(markers: set<Marker>)

  datatype Error =
    | Throttled | FragmentsRetries | VideoExtraction | VideoTooLong | VideoTooBig | NoFormat
    | Unknown                // the whole error output, as it is
    | Broken                 // the run itself, or a look at the file system, failed

  datatype Exit = Clean | Status1 | OtherExit

  datatype Results = Results(
    couldRetry: bool,
    wasThrottled: bool,
    reduceResolution: bool,
    changeUserAgent: bool,
    successful: bool,
    knownError: Option<Error>)

  const NOTHING := Results(false, false, false, false, false, None)

  function FailureReason(errLog: Output): Option<Error> {
    if errLog.Empty? then None
    else if TooManyRequests in errLog.markers then Some(Throttled)
    else if ExitStatus8 in errLog.markers then Some(Throttled)
    else if FragmentsGivenUp in errLog.markers then Some(FragmentsRetries)
    else if NoVideoData in errLog.markers then Some(VideoExtraction)
    else if FormatNotAvailable in errLog.markers then Some(NoFormat)
    else Some(Unknown)
  }

  function OutLogError(outLog: Output): Option<Error> {
    if outLog.Empty? then None
    else if DurationFilter in outLog.markers then Some(VideoTooLong)
    else if MaxFilesize in outLog.markers then Some(VideoTooBig)
    else if TooManyRequests in outLog.markers then Some(Throttled)
    else None
  }

  function FromFailure(e: Error): Results {
    match e
    case Throttled => NOTHING.(knownError := Some(e), wasThrottled := true, couldRetry := true)
    case FragmentsRetries => NOTHING.(knownError := Some(e), couldRetry := true, reduceResolution := true)
    case NoFormat => NOTHING.(knownError := Some(e), couldRetry := true, reduceResolution := true)
    case _ => NOTHING.(knownError := Some(e))
  }

  function FromOutput(e: Error): Results {
    match e
    case Throttled => NOTHING.(knownError := Some(e), wasThrottled := true, couldRetry := true)
    case VideoTooBig => NOTHING.(knownError := Some(e), couldRetry := true, reduceResolution := true)
    case _ => NOTHING.(knownError := Some(e))
  }

  /** No result stands for an error of the run itself. */
  function RawDownload(exit: Exit, errLog: Output, outLog: Output): Option<Results> {
    var failure, output := FailureReason(errLog), OutLogError(outLog);
    if exit.OtherExit? then None
    else if failure.Some? then Some(FromFailure(failure.value))
    else if output.Some? then Some(FromOutput(output.value))
    else Some(NOTHING.(successful := true))
  }

  /** Another user agent is never asked for; a retry is for throttling or for a lower resolution, and
    * not for both; and there is an error exactly if the run was not successful. */
  predicate Possible(r: Results) {
    && !r.changeUserAgent
    && (r.couldRetry <==> r.wasThrottled || r.reduceResolution)
    && !(r.wasThrottled && r.reduceResolution)
    && (r.successful <==> r.knownError.None?)
    && (r.successful ==> !r.couldRetry)
    && (r.wasThrottled <==> r.knownError == Some(Throttled))
  }

  /** Any error output at all is a failure; the other output is one only if it is understood. */
  lemma ResultsAreOneThing(exit: Exit, errLog: Output, outLog: Output)
    requires !exit.OtherExit?
    ensures var r := RawDownload(exit, errLog, outLog);
            && r.Some? && Possible(r.value)
            && (r.value.successful <==>
                  errLog.Empty? && (outLog.Empty? || outLog.markers !! {DurationFilter, MaxFilesize, TooManyRequests}))
  {
  }

  /** Any other exit status than 1 is an error of the run, whatever the outputs say. */
  lemma NoResultsIff(exit: Exit, errLog: Output, outLog: Output)
    ensures RawDownload(exit, errLog, outLog).None? <==> exit.OtherExit?
  {
  }

  predicate Says(o: Output, m: Marker) {
    o.Text? && m in o.markers
  }

  /** Which texts lead to which error: the error output counts before the other one. */
  lemma ErrorIff(exit: Exit, errLog: Output, outLog: Output)
    requires !exit.OtherExit?
    ensures var e := RawDownload(exit, errLog, outLog).value.knownError;
            var throttled := Says(errLog, TooManyRequests) || Says(errLog, ExitStatus8);
            var tooLong, tooBig := Says(outLog, DurationFilter), Says(outLog, MaxFilesize);
            && (e == Some(Throttled) <==> throttled || (errLog.Empty? && !tooLong && !tooBig && Says(outLog, TooManyRequests)))
            && (e == Some(FragmentsRetries) <==> Says(errLog, FragmentsGivenUp) && !throttled)
            && (e == Some(VideoExtraction) <==> Says(errLog, NoVideoData) && !throttled && !Says(errLog, FragmentsGivenUp))
            && (e == Some(NoFormat) <==>
                  Says(errLog, FormatNotAvailable) && !throttled && !Says(errLog, FragmentsGivenUp) && !Says(errLog, NoVideoData))
            && (e == Some(Unknown) <==>
                  && errLog.Text?
                  && errLog.markers !! {TooManyRequests, ExitStatus8, FragmentsGivenUp, NoVideoData, FormatNotAvailable})
            && (e == Some(VideoTooLong) <==> errLog.Empty? && tooLong)
            && (e == Some(VideoTooBig) <==> errLog.Empty? && tooBig && !tooLong)
  {
  }

  /** A lower resolution is asked for when fragments are missing, the format is, or the video is too big. */
  lemma ReducesIff(exit: Exit, errLog: Output, outLog: Output)
    requires !exit.OtherExit?
    ensures var r := RawDownload(exit, errLog, outLog).value;
            r.reduceResolution <==> r.knownError in {Some(FragmentsRetries), Some(NoFormat), Some(VideoTooBig)}
  {
  }

  /** An exit status of 1 alone is not a failure: with no output that says what went wrong, the
    * download counts as done, and only the missing file can tell. */
  lemma SilentFailureCountsAsDone()
    ensures RawDownload(Status1, Empty, Empty).Some? && RawDownload(Status1, Empty, Empty).value.successful
  {
  }

  // The quality ladder

  /** Above an hour, the best quality is left out. */
  function Qualities(seconds: int): seq<nat> {
    if seconds > 3600 then [720, 480, 360] else [1080, 720, 480, 360]
  }

  /** The qualities fall, from 720 for a video above an hour and from 1080 for any other. */
  lemma LadderFalls(seconds: int)
    ensures var qualities := Qualities(seconds);
            && (forall i, j | 0 <= i < j < |qualities| :: qualities[i] > qualities[j])
            && (forall q :: q in qualities <==> q in {360, 480, 720, 1080} && q <= if seconds > 3600 then 720 else 1080)
  {
  }

  datatype Attempt = Attempt(quality: nat, results: Option<Results>)

  predicate Reduces(a: Attempt) {
    a.results.Some? && a.results.value.reduceResolution
  }

  predicate WasThrottled(a: Attempt) {
    a.results.Some? && a.results.value.wasThrottled
  }

  function Reductions(log: seq<Attempt>): nat {
    if log == [] then 0 else Reductions(log[..|log| - 1]) + (if Reduces(log[|log| - 1]) then 1 else 0)
  }

  /** The attempts that were not lost to throttling. */
  function Charged(log: seq<Attempt>): nat {
    if log == [] then 0 else Charged(log[..|log| - 1]) + (if WasThrottled(log[|log| - 1]) then 0 else 1)
  }

  predicate QualityIsRight(qualities: seq<nat>, log: seq<Attempt>, k: nat)
    requires k < |log|
  {
    var n := Reductions(log[..k]);
    n < |qualities| - 1 && log[k].quality == qualities[n]
  }

  /** Every attempt goes one step down the ladder for each reduction before it, and none gets to the
    * last step. */
  ghost predicate Descends(qualities: seq<nat>, log: seq<Attempt>) {
    forall k | 0 <= k < |log| :: QualityIsRight(qualities, log, k)
  }

  lemma OneMoreAttempt(qualities: seq<nat>, log: seq<Attempt>, a: Attempt)
    requires Descends(qualities, log)
    requires var n := Reductions(log); n < |qualities| - 1 && a.quality == qualities[n]
    ensures Descends(qualities, log + [a])
    ensures Reductions(log + [a]) == Reductions(log) + (if Reduces(a) then 1 else 0)
    ensures Charged(log + [a]) == Charged(log) + (if WasThrottled(a) then 0 else 1)
  {
    var t := log + [a];
    assert t[..|log|] == log;
    forall k | 0 <= k < |t| ensures QualityIsRight(qualities, t, k) {
      if k < |log| {
        assert t[..k] == log[..k] && QualityIsRight(qualities, log, k);
      }
    }
  }

  /** The lowest quality of the list is never asked for. */
  lemma LowestQualityIsNeverTried(seconds: int, log: seq<Attempt>, k: nat)
    requires Descends(Qualities(seconds), log) && k < |log|
    ensures log[k].quality > 360 && (seconds > 3600 ==> log[k].quality <= 720)
  {
    assert QualityIsRight(Qualities(seconds), log, k);
  }

  /** One run of the downloader, as the operating system tells. */
  datatype Process = Process(exit: Exit, errLog: Output, outLog: Output)

  /** How run number `k` goes. */
  function ProcessAt(processes: seq<Process>, k: nat): (p: Process)
    ensures k < |processes| ==> p == processes[k]
  {
    if k < |processes| then processes[k] else Process(Clean, Empty, Empty)
  }

  function ResultsOf(p: Process): Option<Results> {
    RawDownload(p.exit, p.errLog, p.outLog)
  }

  predicate ResultsAre(log: seq<Attempt>, processes: seq<Process>) {
    forall k | 0 <= k < |log| :: log[k].results == ResultsOf(ProcessAt(processes, k))
  }

  /** What a download depends on: whether the directory for the video can be had and the file was there
    * before, whether metadata and usable cookies are, how the runs go, whether the sync is stopped when
    * no address is free, and the size of the file afterwards, if it is there and can be unlocked. */
  datatype Surroundings = Surroundings(
    prepared: bool, existed: bool, ready: bool, processes: seq<Process>, stopped: bool, file: Option<nat>)

  /** How a download ends: with no error, with one, or waiting for an address. */
  datatype Ending = Done | Failed(error: Error) | Blocked(turn: Downloads.Turn)

  /** Why a download may end with this error, after these attempts: something broke on the last one; the
    * last failure was not worth a retry; or a lower resolution was asked for when only the lowest was
    * left. Running out of attempts is not among the reasons. */
  predicate Justified(qualities: seq<nat>, log: seq<Attempt>, e: Error) {
    log != [] &&
    match log[|log| - 1].results
    case None => e == Broken
    case Some(r) =>
      if r.successful then e == Broken
      else r.knownError == Some(e) && (!r.couldRetry || (r.reduceResolution && Charged(log) == |qualities| - 1))
  }

  predicate LastSucceeded(log: seq<Attempt>) {
    log != [] && log[|log| - 1].results.Some? && log[|log| - 1].results.value.successful
  }

  /** The attempts so far, the step of the ladder that the next one is on, and how many remain. */
  ghost predicate OnTheWay(qualities: seq<nat>, log: seq<Attempt>, index: nat, remaining: int) {
    && Descends(qualities, log) && index == Reductions(log) == Charged(log)
    && index <= |qualities| - 2 && remaining == |qualities| - index
  }

  /** The attempts of a whole download and how it ended. */
  ghost predicate Over(qualities: seq<nat>, log: seq<Attempt>, r: Ending) {
    && Descends(qualities, log)
    && Charged(log) <= |qualities| - 1
    && (r.Done? ==> LastSucceeded(log))
    && (r.Failed? ==> Justified(qualities, log, r.error))
    && (r.Blocked? ==> !r.turn.Got?)
  }

  /** The attempts come out as the runs of the downloader go. After one that succeeded the file decides;
    * one that finds no free address waits, unless the sync is stopped. */
  ghost predicate Follows(log: seq<Attempt>, r: Ending, around: Surroundings) {
    && ResultsAre(log, around.processes)
    && (LastSucceeded(log) ==> r == if around.file.Some? then Done else Failed(Broken))
    && (r.Blocked? ==> r.turn == if around.stopped then Downloads.Interrupted else Downloads.Waiting)
  }

  ghost predicate StillFollows(log: seq<Attempt>, around: Surroundings) {
    ResultsAre(log, around.processes) && !LastSucceeded(log)
  }

  /** The next attempt comes out as the next run goes. */
  lemma OneMoreResult(log: seq<Attempt>, around: Surroundings, a: Attempt, r: Ending)
    requires StillFollows(log, around) && a.results == ResultsOf(ProcessAt(around.processes, |log|)) && !r.Blocked?
    ensures a.results.None? || !a.results.value.successful ==> StillFollows(log + [a], around) && Follows(log + [a], r, around)
    ensures r == (if around.file.Some? then Done else Failed(Broken)) ==> Follows(log + [a], r, around)
  {
    var t := log + [a];
    forall k | 0 <= k < |t| ensures t[k].results == ResultsOf(ProcessAt(around.processes, k)) {
      assert k < |log| ==> t[k] == log[k];
    }
  }

  /** After a throttled attempt, or a reduction that does not lead to the last step, it goes on. */
  lemma GoesOn(qualities: seq<nat>, log: seq<Attempt>, index: nat, remaining: int, a: Attempt)
    requires OnTheWay(qualities, log, index, remaining) && a.quality == qualities[index]
    requires a.results.Some? && Possible(a.results.value) && a.results.value.couldRetry
    ensures WasThrottled(a) ==> OnTheWay(qualities, log + [a], index, remaining)
    ensures Reduces(a) ==>
              if index < |qualities| - 2 then OnTheWay(qualities, log + [a], index + 1, remaining - 1)
              else Over(qualities, log + [a], Failed(a.results.value.knownError.value))
  {
    OneMoreAttempt(qualities, log, a);
  }

  /** The end that the last attempt leads to; after a success the file may turn out to be missing. */
  predicate EndFits(results: Option<Results>, r: Ending) {
    if results.None? then r == Failed(Broken)
    else if results.value.successful then r == Done || r == Failed(Broken)
    else results.value.knownError.Some? && r == Failed(results.value.knownError.value)
  }

  lemma Ends(qualities: seq<nat>, log: seq<Attempt>, index: nat, remaining: int, a: Attempt, r: Ending)
    requires OnTheWay(qualities, log, index, remaining) && a.quality == qualities[index]
    requires a.results.Some? ==> Possible(a.results.value) && !a.results.value.couldRetry
    requires EndFits(a.results, r)
    ensures Over(qualities, log + [a], r)
  {
    OneMoreAttempt(qualities, log, a);
  }

  class YoutubeVideo {
    const pool: Pool
    var size: Option<nat>

    constructor (pool: Pool)
      ensures this.pool == pool && size.None?
    {
      this.pool := pool;
      size := None;
    }

    /** One run of the downloader, on an address that is released when it ends. */
    method RunDownloader(now: int, p: Process, stopped: bool) returns (turn: Downloads.Turn, results: Option<Results>)
      requires pool.Valid()
      modifies pool`ips, pool`log
      ensures pool.Valid() && Downloads.Costs(old(pool.ips), old(pool.log), pool.ips, pool.log, 0)
      ensures if turn.Got? then results == ResultsOf(p) && Downloads.GivenBack(old(pool.ips), old(pool.log), pool.ips, turn.address)
              else turn == (if stopped then Downloads.Interrupted else Downloads.Waiting) && Downloads.NoneFree(pool.ips)
      ensures results.Some? ==> Possible(results.value)
    {
      ghost var before, log, place := pool.ips, pool.log, 0;
      turn, place := Downloads.SourceAddress(pool, "", stopped);
      if !turn.Got? {
        return turn, None;
      }
      results := RawDownload(p.exit, p.errLog, p.outLog);
      if !p.exit.OtherExit? {
        ResultsAreOneThing(p.exit, p.errLog, p.outLog);
      }
      Downloads.LeaseAndRelease(before, log, pool.ips, place, turn.address, "", now);
      pool.ReleaseIP(turn.address, now);
    }

    /** Bans the address of a throttled attempt. */
    method Throttle(address: Address, ghost before: seq<Entry>, ghost log: seq<Event>,
                    ghost start: seq<Entry>, ghost events: seq<Event>, ghost bans: int)
      requires pool.Valid() && Downloads.Costs(start, events, before, log, bans)
      requires Downloads.Costs(before, log, pool.ips, pool.log, 0) && Downloads.GivenBack(before, log, pool.ips, address)
      modifies pool`ips, pool`timers
      ensures pool.Valid() && Downloads.Costs(start, events, pool.ips, pool.log, bans + 1)
    {
      Downloads.Throttle(pool, address, before, log);
      Downloads.CostsAddUp(start, events, before, log, pool.ips, pool.log, bans, 1);
    }

    /** One round of the loop: how the download ends, or where it goes on, unless the last step is
      * reached. */
    method Round(qualities: seq<nat>, log: seq<Attempt>, index: nat, remaining: int, now: int, around: Surroundings,
                 ghost start: seq<Entry>, ghost events: seq<Event>)
      returns (r: Option<Ending>, all: seq<Attempt>, nextIndex: nat, nextRemaining: int, lastKnownError: Option<Error>)
      requires pool.Valid() && OnTheWay(qualities, log, index, remaining)
      requires Downloads.Costs(start, events, pool.ips, pool.log, |log| - index) && StillFollows(log, around)
      modifies this`size, pool
      ensures pool.Valid() && Downloads.Costs(start, events, pool.ips, pool.log, |all| - Charged(all))
      ensures r.None? ==> lastKnownError.Some?
      ensures r.None? ==> if nextIndex < |qualities| - 1 then OnTheWay(qualities, all, nextIndex, nextRemaining)
                          else Over(qualities, all, Failed(lastKnownError.value))
      ensures r.Some? ==> Over(qualities, all, r.value) && Follows(all, r.value, around)
      ensures r.Some? && r.value.Blocked? ==> Downloads.NoneFree(pool.ips)
      ensures if r.Some? && r.value.Blocked? then all == log else |all| == |log| + 1
      ensures r.None? ==> StillFollows(all, around)
      ensures size == if r == Some(Done) then around.file else old(size)
    {
      nextIndex, nextRemaining, lastKnownError := index, remaining - 1, None;
      ghost var before, events1 := pool.ips, pool.log;
      var turn, results := RunDownloader(now, ProcessAt(around.processes, |log|), around.stopped);
      Downloads.CostsAddUp(start, events, before, events1, pool.ips, pool.log, |log| - index, 0);
      all := log;
      if !turn.Got? {
        r := Some(Blocked(turn));
        return;
      }
      var attempt := Attempt(qualities[index], results);
      all := log + [attempt];
      OneMoreAttempt(qualities, log, attempt);
      if !results.Some? {
        OneMoreResult(log, around, attempt, Failed(Broken));
        Ends(qualities, log, index, remaining, attempt, Failed(Broken));
        r := Some(Failed(Broken));
        return;
      }
      var res := results.value;
      lastKnownError := res.knownError;
      if res.successful {
        var end := SetSize(around.file);
        OneMoreResult(log, around, attempt, end);
        Ends(qualities, log, index, remaining, attempt, end);
        r := Some(end);
        return;
      }
      r := None;
      OneMoreResult(log, around, attempt, Failed(res.knownError.value));
      if res.couldRetry {
        GoesOn(qualities, log, index, remaining, attempt);
        if res.reduceResolution {
          nextIndex := nextIndex + 1;
        } else if res.changeUserAgent {
          assert false;
        } else if res.wasThrottled {
          nextRemaining := nextRemaining + 1;
          Throttle(turn.address, before, events1, start, events, |log| - index);
        }
      } else {
        Ends(qualities, log, index, remaining, attempt, Failed(res.knownError.value));
        r := Some(Failed(res.knownError.value));
      }
    }

    /** At most all but one of the qualities are charged for; every other attempt cost the pool a free
      * entry. */
    method Download(seconds: int, now: int, around: Surroundings) returns (r: Ending, log: seq<Attempt>)
      requires pool.Valid()
      modifies this`size, pool
      ensures pool.Valid() && Downloads.Costs(old(pool.ips), old(pool.log), pool.ips, pool.log, |log| - Charged(log))
      ensures |log| <= |Qualities(seconds)| - 1 + old(Count(pool.ips, Free))
      ensures if !around.prepared then log == [] && r == Failed(Broken)
              else if around.existed then log == [] && r == Done
              else if !around.ready then log == [] && r == Failed(Broken)
              else Over(Qualities(seconds), log, r) && Follows(log, r, around)
      ensures size == if r.Done? && !around.existed then around.file else old(size)
      ensures r.Blocked? ==> Downloads.NoneFree(pool.ips)
    {
      log := [];
      if !around.prepared {
        return Failed(Broken), log;
      }
      if around.existed {
        return Done, log;
      }
      if !around.ready {
        return Failed(Broken), log;
      }
      r, log := TryQualities(Qualities(seconds), now, around);
    }

    /** The loop over the attempts. It is never left because none remain. */
    method TryQualities(qualities: seq<nat>, now: int, around: Surroundings) returns (r: Ending, log: seq<Attempt>)
      requires pool.Valid() && |qualities| >= 2
      modifies this`size, pool
      ensures pool.Valid() && Downloads.Costs(old(pool.ips), old(pool.log), pool.ips, pool.log, |log| - Charged(log))
      ensures |log| <= |qualities| - 1 + old(Count(pool.ips, Free))
      ensures Over(qualities, log, r) && Follows(log, r, around) && (r.Blocked? ==> Downloads.NoneFree(pool.ips))
      ensures size == if r.Done? then around.file else old(size)
    {
      log := [];
      ghost var start, events := pool.ips, pool.log;
      var qualityIndex: nat, remaining, lastKnownError := 0, |qualities|, None;
      while remaining > 0
        invariant pool.Valid() && OnTheWay(qualities, log, qualityIndex, remaining)
        invariant Downloads.Costs(start, events, pool.ips, pool.log, |log| - qualityIndex)
        invariant size == old(size) && StillFollows(log, around)
        decreases Count(start, Free) + |qualities| - |log|
      {
        var end;
        end, log, qualityIndex, remaining, lastKnownError := Round(qualities, log, qualityIndex, remaining, now, around, start, events);
        if end.Some? {
          return end.value, log;
        }
        if qualityIndex >= |qualities| - 1 {
          break;
        }
      }
      r := Failed(lastKnownError.value);
    }

    /** The file is there, or the download failed after all. */
    method SetSize(file: Option<nat>) returns (r: Ending)
      modifies this`size
      ensures r == (if file.Some? then Done else Failed(Broken)) && size == if file.Some? then file else old(size)
    {
      if !file.Some? {
        return Failed(Broken);
      }
      size := file;
      r := Done;
    }
  }
}
