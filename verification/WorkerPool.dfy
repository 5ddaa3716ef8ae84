/** The workers that process a channel's videos, the producer that hands the videos out, and the way
  * they stop: every interleaving of their atomic steps.
  *
  * A video is known by its place in the list. The history fields `calls`, `last`, `owner`, `handled`
  * and `flagged` belong to no program variable: they record what happened.
  */
module WorkerPool {
  import opened Options

  /** The error of one call of `processVideo`, known by the lists of texts it is found in. */
  datatype Failure = Failure(reason: string, interrupted: bool, fatal: bool, noRetry: bool, blockchain: bool, wallet: bool)

  /** What one call of `processVideo` does. If it fails in a way that needs a block or funds before a
    * retry, `helped` says whether getting them succeeds. */
  datatype Outcome = Worked | Failed(error: Failure, helped: bool)

  datatype Worker =
    | Check                              // about to look at the stop flag
    | Wait                               // in the select on the queue and the stop flag
    | Try(video: nat, tries: nat)        // about to look at the stop flag again
    | Running(video: nat, tries: nat)    // in the call number `tries` for this video
    | Flag(video: nat, reason: string)   // about to flag the hard failure
    | Stop(video: nat, marks: bool)      // about to set the stop flag
    | Mark(video: nat)                   // about to record the failed video in the database
    | Exited

  datatype Producer =
    | Fetching    // asks for the list of videos
    | Checking    // about to look at the stop flag
    | Offering    // in the select on the queue and the stop flag
    | Closing     // about to close the queue
    | Closed

  datatype Config = Config(videos: nat, jobs: nat, maxTries: int)

  datatype State = State(
    producer: Producer,
    next: nat,
    listError: Option<string>,
    workers: seq<Worker>,
    stop: bool,
    failure: Option<string>,
    calls: seq<nat>,
    last: seq<Outcome>,
    owner: seq<Option<nat>>,
    handled: seq<bool>,
    flagged: seq<string>)

  datatype Action =
    | Produce(error: Option<string>)       // `error` matters only for the first step
    | Hand(worker: nat)                    // the video on offer goes to this waiting worker
    | Work(worker: nat, outcome: Outcome)  // `outcome` matters only in a call
    | StopOutside                          // a signal, or another part of the program, stops the group

  function Initial(c: Config): State {
    State(Fetching, 0, None, seq(c.jobs, _ => Check), false, None,
          seq(c.videos, _ => 0), seq(c.videos, _ => Worked), seq(c.videos, _ => None), seq(c.videos, _ => false), [])
  }

  ghost predicate Shape(c: Config, s: State) {
    && |s.workers| == c.jobs
    && |s.calls| == |s.last| == |s.owner| == |s.handled| == c.videos
    && s.next <= c.videos
    && (s.producer == Offering ==> s.next < c.videos)
    && forall w | 0 <= w < c.jobs :: InRange(c, s.workers[w])
  }

  /** The worker has a video. */
  predicate Busy(w: Worker) {
    w.Try? || w.Running? || w.Flag? || w.Stop? || w.Mark?
  }

  predicate InRange(c: Config, w: Worker) {
    Busy(w) ==> w.video < c.videos
  }

  ghost predicate Enabled(c: Config, s: State, a: Action)
    requires Shape(c, s)
  {
    match a
    case Produce(_) => s.producer != Closed && (s.producer == Offering ==> s.stop)
    case Hand(w) => w < c.jobs && s.producer == Offering && s.workers[w] == Wait
    case Work(w, _) => w < c.jobs && s.workers[w] != Exited && (s.workers[w] == Wait ==> s.stop || s.producer == Closed)
    case StopOutside => !s.stop
  }

  /** Whether a failed call is made again. */
  predicate Retries(c: Config, e: Failure, tries: nat) {
    c.maxTries > 1 && !e.noRetry && tries < c.maxTries
  }

  /** Where a worker goes when the call it made for its video returns. */
  function AfterCall(c: Config, video: nat, tries: nat, outcome: Outcome): Worker {
    match outcome
    case Worked => Check
    case Failed(e, helped) =>
      if e.interrupted then Stop(video, true)
      else if e.fatal then Flag(video, e.reason)
      else if Retries(c, e, tries) then
        (if (e.blockchain || e.wallet) && !helped then Stop(video, false) else Try(video, tries))
      else Mark(video)
  }

  ghost function Apply(c: Config, s: State, a: Action): State
    requires Shape(c, s) && Enabled(c, s, a)
  {
    match a
    case Produce(error) => ProducerStep(c, s, error)
    case Hand(w) =>
      s.(producer := Checking, next := s.next + 1, workers := s.workers[w := Try(s.next, 0)],
         owner := s.owner[s.next := Some(w)])
    case Work(w, outcome) => WorkerStep(c, s, w, outcome)
    case StopOutside => s.(stop := true)
  }

  ghost function ProducerStep(c: Config, s: State, error: Option<string>): State {
    match s.producer
    case Fetching => if error.Some? then s.(listError := error, producer := Closing) else s.(producer := Checking)
    case Checking => s.(producer := if s.stop || s.next >= c.videos then Closing else Offering)
    case Offering => s.(producer := Closing)
    case Closing => s.(producer := Closed)
    case Closed => s
  }

  ghost function WorkerStep(c: Config, s: State, w: nat, outcome: Outcome): State
    requires Shape(c, s) && w < c.jobs
  {
    match s.workers[w]
    case Check => s.(workers := s.workers[w := if s.stop then Exited else Wait])
    case Wait => s.(workers := s.workers[w := Exited])
    case Try(v, tries) =>
      if s.stop then s.(workers := s.workers[w := Exited])
      else s.(workers := s.workers[w := Running(v, tries + 1)], calls := s.calls[v := s.calls[v] + 1])
    case Running(v, tries) =>
      s.(workers := s.workers[w := AfterCall(c, v, tries, outcome)],
         last := s.last[v := outcome], handled := s.handled[v := outcome.Worked?])
    case Flag(v, reason) =>
      s.(workers := s.workers[w := Stop(v, true)],
         failure := if s.failure.Some? then s.failure else Some(reason),
         flagged := s.flagged + [reason])
    case Stop(v, marks) => s.(workers := s.workers[w := if marks then Mark(v) else Check], stop := true)
    case Mark(v) => s.(workers := s.workers[w := Check], handled := s.handled[v := true])
    case Exited => s
  }

  // What every step keeps

  /** The most calls that one video gets. */
  function Limit(c: Config): nat {
    if c.maxTries > 1 then c.maxTries else 1
  }

  predicate Holds(w: Worker, v: nat) {
    Busy(w) && w.video == v
  }

  predicate Fatal(o: Outcome) {
    o.Failed? && o.error.fatal && !o.error.interrupted
  }

  /** The failure of call number `calls` is one that a video gets another call after. */
  predicate Another(c: Config, o: Outcome, calls: nat) {
    && o.Failed? && !o.error.interrupted && !o.error.fatal && !o.error.noRetry && calls < c.maxTries
  }

  /** The outcome of call number `calls` stops the pool: a request to, a fatal error, or a failure
    * that needed a block or funds which were not to be had. */
  predicate Stopping(c: Config, o: Outcome, calls: nat) {
    && o.Failed?
    && (o.error.interrupted || o.error.fatal || (Another(c, o, calls) && (o.error.blockchain || o.error.wallet) && !o.helped))
  }

  /** The outcome of call number `made`, if there was one, lets the video have the next call. */
  predicate MayCall(c: Config, o: Outcome, made: int) {
    if made == 0 then o.Worked? else made > 0 && Another(c, o, made) && !Stopping(c, o, made)
  }

  /** The last call for the video failed, and no other call follows. */
  ghost predicate GaveUp(c: Config, s: State, v: nat)
    requires Shape(c, s) && v < c.videos
  {
    s.last[v].Failed? && !Another(c, s.last[v], s.calls[v]) && (Stopping(c, s.last[v], s.calls[v]) ==> s.stop)
  }

  /** A worker owns the video it works on, has not finished it, and counts its calls. */
  ghost predicate WorkerIsRight(c: Config, s: State, w: nat)
    requires Shape(c, s) && w < c.jobs
  {
    var p := s.workers[w];
    && (Busy(p) ==>
          s.owner[p.video] == Some(w) && !s.handled[p.video] && (p.Try? || s.calls[p.video] >= 1))
    && (p.Try? ==>  s.calls[p.video] == p.tries < Limit(c) && MayCall(c, s.last[p.video], p.tries))
    && (p.Running? ==> s.calls[p.video] == p.tries <= Limit(c) && MayCall(c, s.last[p.video], p.tries - 1))
    && (p.Flag? ==> Fatal(s.last[p.video]) && s.last[p.video].error.reason == p.reason)
    && (p.Stop? ==>
          && Stopping(c, s.last[p.video], s.calls[p.video])
          && (p.marks <==> !Another(c, s.last[p.video], s.calls[p.video])))
    && (p.Mark? ==> GaveUp(c, s, p.video))
    && (p.Exited? ==> s.stop || s.producer == Closed)
  }

  predicate AboutToFlag(s: State, v: nat)
    requires v < |s.owner| == |s.last|
  {
    && s.owner[v].Some? && s.owner[v].value < |s.workers| && s.last[v].Failed?
    && s.workers[s.owner[v].value] == Flag(v, s.last[v].error.reason)
  }

  /** The videos taken are the first ones; an unfinished one is being worked on, unless stopped. */
  ghost predicate VideoIsRight(c: Config, s: State, v: nat)
    requires Shape(c, s) && v < c.videos
  {
    && (s.owner[v].Some? <==> v < s.next)
    && (s.owner[v].Some? ==> s.owner[v].value < c.jobs)
    && (s.owner[v].None? ==> s.calls[v] == 0 && !s.handled[v])
    && s.calls[v] <= Limit(c)
    && (s.handled[v] ==> s.calls[v] >= 1 && (s.last[v].Worked? || GaveUp(c, s, v)))
    && (s.calls[v] == 0 ==> s.last[v].Worked?)
    && (s.owner[v].Some? && !s.handled[v] && !Holds(s.workers[s.owner[v].value], v) ==>
          s.stop && (s.calls[v] == 0 || Another(c, s.last[v], s.calls[v])))
    && (Fatal(s.last[v]) ==> s.last[v].error.reason in s.flagged || AboutToFlag(s, v))
  }

  ghost predicate FlagsAreRight(c: Config, s: State)
    requires Shape(c, s)
  {
    && (s.failure == if s.flagged == [] then None else Some(s.flagged[0]))
    && (s.flagged != [] ==> s.next > 0)
    && (s.flagged != [] && !s.stop ==> exists w :: 0 <= w < c.jobs && s.workers[w].Stop?)
  }

  ghost predicate ProducerIsRight(c: Config, s: State)
    requires Shape(c, s)
  {
    && (s.producer == Fetching ==> s.next == 0 && s.listError.None?)
    && (s.listError.Some? ==> (s.producer == Closing || s.producer == Closed) && s.next == 0)
    && (s.producer == Closing || s.producer == Closed ==> s.stop || s.listError.Some? || s.next == c.videos)
  }

  ghost predicate Inv(c: Config, s: State) {
    && Shape(c, s)
    && (forall w | 0 <= w < c.jobs :: WorkerIsRight(c, s, w))
    && (forall v | 0 <= v < c.videos :: VideoIsRight(c, s, v))
    && FlagsAreRight(c, s)
    && ProducerIsRight(c, s)
  }

  lemma InitialInv(c: Config)
    ensures Inv(c, Initial(c))
  {
  }

  lemma StepKeepsShape(c: Config, s: State, a: Action)
    requires Shape(c, s) && Enabled(c, s, a)
    ensures Shape(c, Apply(c, s, a))
  {
    if a.Work? {
      assert InRange(c, s.workers[a.worker]);
    }
  }

  /** What comes after a call. */
  lemma AfterCallIs(c: Config, v: nat, tries: nat, o: Outcome)
    requires tries >= 1
    ensures var p := AfterCall(c, v, tries, o);
            && p in {Check, Try(v, tries), Stop(v, true), Stop(v, false), Mark(v)} + (if Fatal(o) then {Flag(v, o.error.reason)} else {})
            && (p == Check <==> o.Worked?)
            && (p == Try(v, tries) <==> Another(c, o, tries) && !Stopping(c, o, tries))
            && (p == Stop(v, false) <==> Another(c, o, tries) && Stopping(c, o, tries))
            && (p == Stop(v, true) <==> o.Failed? && o.error.interrupted)
            && (p.Flag? <==> Fatal(o))
  {
  }

  lemma OwnStepKeepsWorker(c: Config, s: State, w: nat, outcome: Outcome)
    requires Shape(c, s) && w < c.jobs && Enabled(c, s, Work(w, outcome)) && WorkerIsRight(c, s, w)
    ensures var t := WorkerStep(c, s, w, outcome); Shape(c, t) ==> WorkerIsRight(c, t, w)
  {
    if s.workers[w].Running? {
      AfterCallIs(c, s.workers[w].video, s.workers[w].tries, outcome);
    }
  }

  /** Nothing has changed for the worker but that the stop flag may be set. */
  ghost predicate SameFor(c: Config, s: State, t: State, w: nat)
    requires Shape(c, s) && Shape(c, t) && w < c.jobs
  {
    var p := s.workers[w];
    && t.workers[w] == p && (s.stop ==> t.stop) && (s.producer == Closed ==> t.producer == Closed)
    && (Busy(p) ==>
          && t.owner[p.video] == s.owner[p.video] && t.handled[p.video] == s.handled[p.video]
          && t.calls[p.video] == s.calls[p.video] && t.last[p.video] == s.last[p.video])
  }

  lemma SameForKeepsWorker(c: Config, s: State, t: State, w: nat)
    requires Shape(c, s) && Shape(c, t) && w < c.jobs && WorkerIsRight(c, s, w) && SameFor(c, s, t, w)
    ensures WorkerIsRight(c, t, w)
  {
  }

  /** A worker only touches the record of its own video. */
  lemma OtherStepIsTheSame(c: Config, s: State, w: nat, other: nat, outcome: Outcome)
    requires Shape(c, s) && w < c.jobs && other < c.jobs && other != w
    requires WorkerIsRight(c, s, w) && WorkerIsRight(c, s, other)
    ensures var t := WorkerStep(c, s, other, outcome); Shape(c, t) ==> SameFor(c, s, t, w)
  {
    assert Busy(s.workers[w]) && Busy(s.workers[other]) ==> s.workers[w].video != s.workers[other].video;
  }

  lemma HandKeepsWorker(c: Config, s: State, taker: nat, w: nat)
    requires Shape(c, s) && Enabled(c, s, Hand(taker)) && w < c.jobs && WorkerIsRight(c, s, w) && VideoIsRight(c, s, s.next)
    ensures var t := Apply(c, s, Hand(taker)); Shape(c, t) ==> WorkerIsRight(c, t, w)
  {
    var t := Apply(c, s, Hand(taker));
    if w != taker && Shape(c, t) {
      SameForKeepsWorker(c, s, t, w);
    }
  }

  lemma StepKeepsWorker(c: Config, s: State, a: Action, w: nat)
    requires Inv(c, s) && Enabled(c, s, a) && w < c.jobs
    ensures var t := Apply(c, s, a); Shape(c, t) && WorkerIsRight(c, t, w)
  {
    StepKeepsShape(c, s, a);
    assert WorkerIsRight(c, s, w);
    var t := Apply(c, s, a);
    match a
    case Work(other, outcome) =>
      if other == w {
        OwnStepKeepsWorker(c, s, w, outcome);
      } else {
        assert WorkerIsRight(c, s, other);
        OtherStepIsTheSame(c, s, w, other, outcome);
        SameForKeepsWorker(c, s, t, w);
      }
    case Hand(taker) =>
      assert VideoIsRight(c, s, s.next);
      HandKeepsWorker(c, s, taker, w);
    case Produce(_) => SameForKeepsWorker(c, s, t, w);
    case StopOutside => SameForKeepsWorker(c, s, t, w);
  }

  lemma OwnWorkKeepsVideo(c: Config, s: State, w: nat, outcome: Outcome, v: nat)
    requires Shape(c, s) && v < c.videos && w < c.jobs && WorkerIsRight(c, s, w) && VideoIsRight(c, s, v)
    requires Holds(s.workers[w], v)
    ensures var t := WorkerStep(c, s, w, outcome); Shape(c, t) ==> VideoIsRight(c, t, v)
  {
  }

  lemma OtherWorkKeepsVideo(c: Config, s: State, w: nat, outcome: Outcome, v: nat)
    requires Shape(c, s) && v < c.videos && w < c.jobs && WorkerIsRight(c, s, w) && VideoIsRight(c, s, v)
    requires !Holds(s.workers[w], v)
    ensures var t := WorkerStep(c, s, w, outcome); Shape(c, t) ==> VideoIsRight(c, t, v)
  {
  }

  lemma WorkKeepsVideo(c: Config, s: State, w: nat, outcome: Outcome, v: nat)
    requires Shape(c, s) && v < c.videos && w < c.jobs && WorkerIsRight(c, s, w) && VideoIsRight(c, s, v)
    ensures var t := WorkerStep(c, s, w, outcome); Shape(c, t) ==> VideoIsRight(c, t, v)
  {
    if Holds(s.workers[w], v) {
      OwnWorkKeepsVideo(c, s, w, outcome, v);
    } else {
      OtherWorkKeepsVideo(c, s, w, outcome, v);
    }
  }

  lemma StepKeepsVideo(c: Config, s: State, a: Action, v: nat)
    requires Inv(c, s) && Enabled(c, s, a) && v < c.videos
    ensures var t := Apply(c, s, a); Shape(c, t) && VideoIsRight(c, t, v)
  {
    StepKeepsShape(c, s, a);
    assert VideoIsRight(c, s, v);
    match a
    case Work(w, outcome) =>
      assert WorkerIsRight(c, s, w);
      WorkKeepsVideo(c, s, w, outcome, v);
    case Hand(w) =>
    case Produce(_) =>
    case StopOutside =>
  }

  lemma StopperStays(c: Config, s: State, a: Action, w: nat)
    requires Shape(c, s) && Enabled(c, s, a) && w < c.jobs && s.workers[w].Stop?
    ensures var t := Apply(c, s, a); |t.workers| == c.jobs && (t.stop || t.workers[w].Stop?)
  {
  }

  lemma FlaggingKeepsFlags(c: Config, s: State, w: nat, outcome: Outcome)
    requires Shape(c, s) && FlagsAreRight(c, s) && w < c.jobs && s.workers[w].Flag? && s.next > 0
    ensures var t := WorkerStep(c, s, w, outcome); Shape(c, t) ==> FlagsAreRight(c, t)
  {
    assert WorkerStep(c, s, w, outcome).workers[w].Stop?;
  }

  lemma OtherStepKeepsFlags(c: Config, s: State, a: Action)
    requires Shape(c, s) && FlagsAreRight(c, s) && Enabled(c, s, a) && !(a.Work? && s.workers[a.worker].Flag?)
    ensures var t := Apply(c, s, a); Shape(c, t) ==> FlagsAreRight(c, t)
  {
    var t := Apply(c, s, a);
    assert t.flagged == s.flagged && t.failure == s.failure && t.next >= s.next && (s.stop ==> t.stop);
    if s.flagged != [] && !s.stop {
      var w :| 0 <= w < c.jobs && s.workers[w].Stop?;
      StopperStays(c, s, a, w);
    }
  }

  lemma StepKeepsFlags(c: Config, s: State, a: Action)
    requires Inv(c, s) && Enabled(c, s, a)
    ensures var t := Apply(c, s, a); Shape(c, t) && FlagsAreRight(c, t)
  {
    StepKeepsShape(c, s, a);
    if a.Work? && s.workers[a.worker].Flag? {
      assert WorkerIsRight(c, s, a.worker);
      assert VideoIsRight(c, s, s.workers[a.worker].video);
      FlaggingKeepsFlags(c, s, a.worker, a.outcome);
    } else {
      OtherStepKeepsFlags(c, s, a);
    }
  }

  lemma StepKeepsProducer(c: Config, s: State, a: Action)
    requires Shape(c, s) && ProducerIsRight(c, s) && Enabled(c, s, a)
    ensures var t := Apply(c, s, a); Shape(c, t) && ProducerIsRight(c, t)
  {
    StepKeepsShape(c, s, a);
  }

  lemma StepKeepsInv(c: Config, s: State, a: Action)
    requires Inv(c, s) && Enabled(c, s, a)
    ensures Inv(c, Apply(c, s, a))
  {
    StepKeepsFlags(c, s, a);
    StepKeepsProducer(c, s, a);
    forall w | 0 <= w < c.jobs ensures WorkerIsRight(c, Apply(c, s, a), w) {
      StepKeepsWorker(c, s, a, w);
    }
    forall v | 0 <= v < c.videos ensures VideoIsRight(c, Apply(c, s, a), v) {
      StepKeepsVideo(c, s, a, v);
    }
  }

  /** A video stays with the worker that took it, and no other worker calls `processVideo` for it. */
  lemma VideoStaysWithItsOwner(c: Config, s: State, a: Action, v: nat)
    requires Inv(c, s) && Enabled(c, s, a) && v < c.videos
    ensures var t := Apply(c, s, a); Shape(c, t)
    ensures var t := Apply(c, s, a); s.owner[v].Some? ==> t.owner[v] == s.owner[v]
    ensures var t := Apply(c, s, a); t.calls[v] != s.calls[v] ==> a.Work? && s.owner[v] == Some(a.worker)
  {
    StepKeepsShape(c, s, a);
    assert VideoIsRight(c, s, v);
    match a
    case Work(w, outcome) => assert WorkerIsRight(c, s, w);
    case Hand(w) => assert VideoIsRight(c, s, s.next);
    case Produce(_) =>
    case StopOutside =>
  }

  // Runs

  ghost predicate Possible(c: Config, s: State, run: seq<Action>)
    decreases |run|
  {
    Shape(c, s) && (run == [] || (Enabled(c, s, run[0]) && Possible(c, Apply(c, s, run[0]), run[1..])))
  }

  ghost function After(c: Config, s: State, run: seq<Action>): State
    requires Possible(c, s, run)
    decreases |run|
  {
    if run == [] then s else After(c, Apply(c, s, run[0]), run[1..])
  }

  lemma {:induction false} RunKeepsInv(c: Config, s: State, run: seq<Action>)
    requires Inv(c, s) && Possible(c, s, run)
    ensures Inv(c, After(c, s, run))
    decreases |run|
  {
    if run != [] {
      StepKeepsInv(c, s, run[0]);
      RunKeepsInv(c, Apply(c, s, run[0]), run[1..]);
    }
  }

  /** Once a hard failure is flagged, no later one replaces its reason. */
  lemma {:induction false} FirstReasonIsKept(c: Config, s: State, run: seq<Action>)
    requires Possible(c, s, run) && s.failure.Some?
    ensures After(c, s, run).failure == s.failure
    decreases |run|
  {
    if run != [] {
      assert Apply(c, s, run[0]).failure == s.failure;
      FirstReasonIsKept(c, Apply(c, s, run[0]), run[1..]);
    }
  }

  /** The queue is closed and every worker has returned: the group's wait is over. */
  predicate Finished(s: State) {
    s.producer == Closed && forall w | 0 <= w < |s.workers| :: s.workers[w] == Exited
  }

  /** The error that `doSync` then returns. */
  function Result(s: State): Option<string> {
    if s.listError.Some? then s.listError else s.failure
  }

  /** At every moment the videos taken are the first ones of the list, and no video ever gets more than
    * `maxTries` calls (one, if that is smaller). */
  lemma TakenVideosAreAPrefix(c: Config, run: seq<Action>, v: nat)
    requires Possible(c, Initial(c), run) && v < c.videos
    ensures var s := After(c, Initial(c), run);
            && Shape(c, s)
            && (s.owner[v].Some? <==> v < s.next)
            && s.calls[v] <= Limit(c)
            && (s.owner[v].None? ==> s.calls[v] == 0)
  {
    InitialInv(c);
    RunKeepsInv(c, Initial(c), run);
    assert VideoIsRight(c, After(c, Initial(c), run), v);
  }

  /** A hard failure that was flagged stops the pool, and its first reason is what `doSync` returns. */
  lemma FlaggedFailureStopsThePool(c: Config, run: seq<Action>)
    requires Possible(c, Initial(c), run) && Finished(After(c, Initial(c), run))
    requires After(c, Initial(c), run).flagged != []
    ensures var s := After(c, Initial(c), run); s.stop && s.failure == Some(s.flagged[0])
    ensures var s := After(c, Initial(c), run); Result(s) == Some(s.flagged[0])
  {
    InitialInv(c);
    RunKeepsInv(c, Initial(c), run);
    var s := After(c, Initial(c), run);
  }

  /** A fatal error of any call was flagged, so `doSync` reports an error and the pool was stopped. */
  lemma FatalErrorIsFlagged(c: Config, run: seq<Action>, v: nat)
    requires Possible(c, Initial(c), run) && Finished(After(c, Initial(c), run)) && v < c.videos
    requires v < |After(c, Initial(c), run).last| && Fatal(After(c, Initial(c), run).last[v])
    ensures var s := After(c, Initial(c), run); s.last[v].error.reason in s.flagged && Result(s).Some? && s.stop
  {
    InitialInv(c);
    RunKeepsInv(c, Initial(c), run);
    assert VideoIsRight(c, After(c, Initial(c), run), v);
    FlaggedFailureStopsThePool(c, run);
  }

  // Which calls are made again, and what stops the pool

  /** How the calls for video `v` that return during the run come out. */
  ghost function Outcomes(c: Config, s: State, run: seq<Action>, v: nat): seq<Outcome>
    requires Possible(c, s, run)
    decreases |run|
  {
    if run == [] then []
    else
      (if run[0].Work? && InCall(s.workers[run[0].worker], v) then [run[0].outcome] else [])
      + Outcomes(c, Apply(c, s, run[0]), run[1..], v)
  }

  predicate InCall(w: Worker, v: nat) {
    w.Running? && w.video == v
  }

  /** The calls for video `v` that have returned. */
  ghost function Returned(c: Config, s: State, v: nat): int
    requires Shape(c, s) && v < c.videos && VideoIsRight(c, s, v)
  {
    var calls: int := s.calls[v];
    if s.owner[v].Some? && InCall(s.workers[s.owner[v].value], v) then calls - 1 else calls
  }

  /** From `s` to `t`, at most a call for the video returned. */
  ghost predicate Returns(c: Config, s: State, t: State, v: nat, back: bool, outcome: Outcome)
    requires Shape(c, s) && v < c.videos && VideoIsRight(c, s, v) && Shape(c, t) && VideoIsRight(c, t, v)
  {
    && Returned(c, t, v) == Returned(c, s, v) + (if back then 1 else 0)
    && t.last[v] == (if back then outcome else s.last[v])
    && (back ==> MayCall(c, s.last[v], Returned(c, s, v)))
  }

  lemma OwnWorkReturns(c: Config, s: State, w: nat, outcome: Outcome, v: nat)
    requires Shape(c, s) && v < c.videos && w < c.jobs && WorkerIsRight(c, s, w) && VideoIsRight(c, s, v)
    requires Holds(s.workers[w], v)
    ensures var t := WorkerStep(c, s, w, outcome);
            Shape(c, t) && VideoIsRight(c, t, v) ==> Returns(c, s, t, v, InCall(s.workers[w], v), outcome)
  {
  }

  lemma OtherWorkReturns(c: Config, s: State, w: nat, outcome: Outcome, v: nat)
    requires Shape(c, s) && v < c.videos && w < c.jobs && WorkerIsRight(c, s, w) && VideoIsRight(c, s, v)
    requires !Holds(s.workers[w], v)
    ensures var t := WorkerStep(c, s, w, outcome);
            Shape(c, t) && VideoIsRight(c, t, v) ==> Returns(c, s, t, v, false, outcome)
  {
  }

  lemma NoWorkReturns(c: Config, s: State, a: Action, v: nat)
    requires Shape(c, s) && v < c.videos && VideoIsRight(c, s, v) && Enabled(c, s, a) && !a.Work?
    ensures var t := Apply(c, s, a); Shape(c, t) && VideoIsRight(c, t, v) ==> Returns(c, s, t, v, false, Worked)
  {
  }

  ghost predicate ReturnsAt(c: Config, s: State, a: Action, v: nat)
    requires Inv(c, s) && Enabled(c, s, a) && v < c.videos && Inv(c, Apply(c, s, a))
  {
    var back := a.Work? && InCall(s.workers[a.worker], v);
    assert VideoIsRight(c, s, v) && VideoIsRight(c, Apply(c, s, a), v);
    Returns(c, s, Apply(c, s, a), v, back, if a.Work? then a.outcome else Worked)
  }

  lemma StepReturns(c: Config, s: State, a: Action, v: nat)
    requires Inv(c, s) && Enabled(c, s, a) && v < c.videos && Inv(c, Apply(c, s, a))
    ensures ReturnsAt(c, s, a, v)
  {
    assert VideoIsRight(c, s, v) && VideoIsRight(c, Apply(c, s, a), v);
    match a
    case Work(w, outcome) =>
      assert WorkerIsRight(c, s, w);
      if Holds(s.workers[w], v) {
        OwnWorkReturns(c, s, w, outcome, v);
      } else {
        OtherWorkReturns(c, s, w, outcome, v);
      }
    case _ => NoWorkReturns(c, s, a, v);
  }

  /** A call that came out as `before` was number `made`; each outcome lets the video have the next call. */
  predicate Follow(c: Config, before: Outcome, made: int, os: seq<Outcome>)
    decreases |os|
  {
    os == [] || (MayCall(c, before, made) && Follow(c, os[0], made + 1, os[1..]))
  }

  lemma {:induction false} FollowAt(c: Config, before: Outcome, made: int, os: seq<Outcome>, i: nat)
    requires Follow(c, before, made, os) && i + 1 < |os|
    ensures MayCall(c, os[i], made + i + 1)
    decreases |os|
  {
    if i > 0 {
      FollowAt(c, os[0], made + 1, os[1..], i - 1);
    }
  }

  function LastOf(before: Outcome, os: seq<Outcome>): Outcome {
    if os == [] then before else os[|os| - 1]
  }

  /** The outcomes lead from the record of the video in `s` to the one in `t`. */
  ghost predicate Lead(c: Config, s: State, t: State, v: nat, os: seq<Outcome>) {
    && Shape(c, s) && v < c.videos && VideoIsRight(c, s, v) && Shape(c, t) && VideoIsRight(c, t, v)
    && Returned(c, t, v) == Returned(c, s, v) + |os|
    && t.last[v] == LastOf(s.last[v], os)
    && Follow(c, s.last[v], Returned(c, s, v), os)
  }

  lemma LeadOn(c: Config, s: State, t: State, u: State, v: nat, back: bool, o: Outcome, os: seq<Outcome>)
    requires Shape(c, s) && v < c.videos && VideoIsRight(c, s, v) && Lead(c, t, u, v, os) && Returns(c, s, t, v, back, o)
    ensures Lead(c, s, u, v, (if back then [o] else []) + os)
  {
    assert ([o] + os)[1..] == os && [] + os == os;
  }

  lemma {:induction false} OutcomesLead(c: Config, s: State, run: seq<Action>, v: nat)
    requires Inv(c, s) && Possible(c, s, run) && v < c.videos
    ensures Lead(c, s, After(c, s, run), v, Outcomes(c, s, run, v))
    decreases |run|
  {
    assert VideoIsRight(c, s, v);
    if run != [] {
      var t := Apply(c, s, run[0]);
      StepKeepsInv(c, s, run[0]);
      StepReturns(c, s, run[0], v);
      OutcomesLead(c, t, run[1..], v);
      LeadOn(c, s, t, After(c, s, run), v, run[0].Work? && InCall(s.workers[run[0].worker], v),
             if run[0].Work? then run[0].outcome else Worked, Outcomes(c, t, run[1..], v));
    }
  }

  lemma OutcomesOfAll(c: Config, run: seq<Action>, v: nat)
    requires Possible(c, Initial(c), run) && v < c.videos
    ensures var s, os := After(c, Initial(c), run), Outcomes(c, Initial(c), run, v);
            && Inv(c, s) && VideoIsRight(c, s, v) && Returned(c, s, v) == |os|
            && s.last[v] == LastOf(Worked, os) && Follow(c, Worked, 0, os)
  {
    InitialInv(c);
    RunKeepsInv(c, Initial(c), run);
    OutcomesLead(c, Initial(c), run, v);
  }

  /** A video gets another call only after a failure that is not on the list of those not to retry, is
    * neither fatal nor an interruption, leaves calls to make, and found the block or funds it needed. */
  lemma CallsAreMadeAgainRightly(c: Config, run: seq<Action>, v: nat, i: nat)
    requires Possible(c, Initial(c), run) && v < c.videos && i + 1 < |Outcomes(c, Initial(c), run, v)|
    ensures var o := Outcomes(c, Initial(c), run, v)[i];
            && o.Failed? && !o.error.noRetry && !o.error.fatal && !o.error.interrupted
            && i + 1 < c.maxTries
            && (o.error.blockchain || o.error.wallet ==> o.helped)
  {
    OutcomesOfAll(c, run, v);
    FollowAt(c, Worked, 0, Outcomes(c, Initial(c), run, v), i);
  }

  /** In the end a video that was called counts as handled exactly if its last call worked or failed in a
    * way that allows no other call; otherwise the pool was stopped before the next one. */
  lemma HandledIff(c: Config, run: seq<Action>, v: nat)
    requires Possible(c, Initial(c), run) && Finished(After(c, Initial(c), run)) && v < c.videos
    ensures var s, os := After(c, Initial(c), run), Outcomes(c, Initial(c), run, v);
            && Shape(c, s) && s.calls[v] == |os|
            && (s.handled[v] <==> os != [] && !Another(c, os[|os| - 1], |os|))
            && (!s.handled[v] ==> s.stop || s.listError.Some?)
            && (os != [] && Stopping(c, os[|os| - 1], |os|) ==> s.stop)
  {
    OutcomesOfAll(c, run, v);
    var s := After(c, Initial(c), run);
    assert s.owner[v].Some? ==> s.workers[s.owner[v].value] == Exited;
  }

  /** If nothing set the stop flag and the list of videos was had, every video was handled, after at
    * least one call. Its last call worked, or failed in a way not to retry, or used up the calls; the
    * ones before it failed in ways to retry. */
  lemma WithoutAStopAllAreHandled(c: Config, run: seq<Action>, v: nat)
    requires Possible(c, Initial(c), run) && Finished(After(c, Initial(c), run)) && v < c.videos
    requires !After(c, Initial(c), run).stop && After(c, Initial(c), run).listError.None?
    ensures var s, os := After(c, Initial(c), run), Outcomes(c, Initial(c), run, v);
            && Shape(c, s) && s.handled[v] && 1 <= s.calls[v] == |os| <= Limit(c) && Result(s).None?
            && var last := os[|os| - 1]; last.Worked? || last.error.noRetry || |os| == Limit(c)
    ensures var os := Outcomes(c, Initial(c), run, v);
            forall i: nat | i + 1 < |os| :: os[i].Failed? && !os[i].error.noRetry
  {
    OutcomesOfAll(c, run, v);
    HandledIff(c, run, v);
    forall i: nat | i + 1 < |Outcomes(c, Initial(c), run, v)|
      ensures Outcomes(c, Initial(c), run, v)[i].Failed? && !Outcomes(c, Initial(c), run, v)[i].error.noRetry
    {
      CallsAreMadeAgainRightly(c, run, v, i);
    }
  }

  // The reasons for which the pool stops

  /** The last call for the video asked for the stop. */
  ghost predicate Asks(c: Config, s: State, v: nat)
    requires Shape(c, s)
  {
    v < c.videos && s.calls[v] >= 1 && Stopping(c, s.last[v], s.calls[v])
  }

  lemma StepKeepsAsking(c: Config, s: State, a: Action, v: nat)
    requires Inv(c, s) && Enabled(c, s, a) && Asks(c, s, v) && Shape(c, Apply(c, s, a))
    ensures Asks(c, Apply(c, s, a), v)
  {
    assert VideoIsRight(c, s, v);
    if a.Work? {
      assert WorkerIsRight(c, s, a.worker) && InRange(c, s.workers[a.worker]);
    }
  }

  lemma OnlyAskersStop(c: Config, s: State, a: Action) returns (v: nat)
    requires Inv(c, s) && Enabled(c, s, a) && a != StopOutside && !s.stop && Apply(c, s, a).stop
    ensures Shape(c, Apply(c, s, a)) && Asks(c, Apply(c, s, a), v)
  {
    StepKeepsShape(c, s, a);
    assert WorkerIsRight(c, s, a.worker) && InRange(c, s.workers[a.worker]);
    v := s.workers[a.worker].video;
  }

  lemma {:induction false} StopIsAskedFor(c: Config, s: State, run: seq<Action>, v: nat) returns (asker: nat)
    requires Inv(c, s) && Possible(c, s, run) && StopOutside !in run
    requires s.stop ==> Asks(c, s, v)
    ensures var t := After(c, s, run); Shape(c, t) && (t.stop ==> Asks(c, t, asker))
    decreases |run|
  {
    asker := v;
    if run != [] {
      var t := Apply(c, s, run[0]);
      StepKeepsInv(c, s, run[0]);
      if s.stop {
        StepKeepsAsking(c, s, run[0], v);
      } else if t.stop {
        asker := OnlyAskersStop(c, s, run[0]);
      }
      asker := StopIsAskedFor(c, t, run[1..], asker);
    }
  }

  lemma {:induction false} StopStays(c: Config, s: State, run: seq<Action>)
    requires Possible(c, s, run) && (s.stop || StopOutside in run)
    ensures After(c, s, run).stop
    decreases |run|
  {
    if run != [] {
      StopStays(c, Apply(c, s, run[0]), run[1..]);
    }
  }

  /** The last call for the video came out in a way that stops the pool. */
  ghost predicate EndsInAStop(c: Config, run: seq<Action>, v: nat)
    requires Possible(c, Initial(c), run)
  {
    var os := Outcomes(c, Initial(c), run, v);
    v < c.videos && os != [] && Stopping(c, os[|os| - 1], |os|)
  }

  /** When all is over, the pool was stopped exactly if it was stopped from outside, or a video's last
    * call was interrupted, failed fatally, or needed a block or funds that were not to be had. */
  lemma StoppedIff(c: Config, run: seq<Action>)
    requires Possible(c, Initial(c), run) && Finished(After(c, Initial(c), run))
    ensures After(c, Initial(c), run).stop <==> StopOutside in run || exists v :: EndsInAStop(c, run, v)
  {
    InitialInv(c);
    var s := After(c, Initial(c), run);
    if StopOutside in run {
      StopStays(c, Initial(c), run);
    } else {
      var v := StopIsAskedFor(c, Initial(c), run, 0);
      if s.stop {
        OutcomesOfAll(c, run, v);
        HandledIff(c, run, v);
        assert EndsInAStop(c, run, v);
      }
    }
    if v :| EndsInAStop(c, run, v) {
      HandledIff(c, run, v);
    }
  }

  /** Once the pool is stopped no call is made any more, and no worker asks for another video. */
  lemma {:induction false} NoCallAfterTheStop(c: Config, s: State, run: seq<Action>, w: nat)
    requires Possible(c, s, run) && s.stop && w < c.jobs
    ensures var t := After(c, s, run);
            && t.stop && t.calls == s.calls
            && w < |t.workers| && (t.workers[w] == Wait ==> s.workers[w] == Wait)
    decreases |run|
  {
    if run != [] {
      NoCallAfterTheStop(c, Apply(c, s, run[0]), run[1..], w);
    }
  }

  /** What the producer was told when it asked for the list of videos. */
  function Fetched(run: seq<Action>): Option<string> {
    if run == [] then None else if run[0].Produce? then run[0].error else Fetched(run[1..])
  }

  lemma {:induction false} ListErrorIsKept(c: Config, s: State, run: seq<Action>)
    requires Possible(c, s, run)
    ensures After(c, s, run).listError == if s.producer == Fetching && Fetched(run).Some? then Fetched(run) else s.listError
    decreases |run|
  {
    if run != [] {
      ListErrorIsKept(c, Apply(c, s, run[0]), run[1..]);
    }
  }

  /** If the list of videos was not to be had, no video is handed out and that error is returned;
    * otherwise the reason flagged first is, if there is one. */
  lemma ErrorOfTheSync(c: Config, run: seq<Action>)
    requires Possible(c, Initial(c), run)
    ensures var s := After(c, Initial(c), run);
            && (Fetched(run).Some? ==> Result(s) == Fetched(run) && s.next == 0)
            && (Fetched(run).None? ==> Result(s) == if s.flagged == [] then None else Some(s.flagged[0]))
  {
    InitialInv(c);
    RunKeepsInv(c, Initial(c), run);
    ListErrorIsKept(c, Initial(c), run);
  }

  // No schedule goes on for ever, and none gets stuck unless there are no workers

  function Rank(limit: nat, w: Worker): int {
    match w
    case Exited => 0
    case Wait => 1
    case Check => 2
    case Mark(_) => 3
    case Stop(_, _) => 4
    case Flag(_, _) => 5
    case Running(_, tries) => 6 + 2 * (limit - tries)
    case Try(_, tries) => 5 + 2 * (limit - tries)
  }

  function Ranks(limit: nat, workers: seq<Worker>, k: nat): int
    requires k <= |workers|
  {
    if k == 0 then 0 else Ranks(limit, workers, k - 1) + Rank(limit, workers[k - 1])
  }

  function ProducerRank(p: Producer): nat {
    match p
    case Fetching => 4
    case Checking => 3
    case Offering => 2
    case Closing => 1
    case Closed => 0
  }

  /** An upper bound on the steps that are left. */
  function Left(c: Config, s: State): int
    requires |s.workers| == c.jobs
  {
    (c.videos - s.next) * (2 * Limit(c) + 6) + ProducerRank(s.producer) + Ranks(Limit(c), s.workers, c.jobs) + (if s.stop then 0 else 1)
  }

  lemma {:induction false} RanksAreNatural(c: Config, s: State, k: nat)
    requires Inv(c, s) && k <= c.jobs
    ensures Ranks(Limit(c), s.workers, k) >= 0
  {
    if k > 0 {
      RanksAreNatural(c, s, k - 1);
      assert WorkerIsRight(c, s, k - 1);
    }
  }

  lemma LeftIsNatural(c: Config, s: State)
    requires Inv(c, s)
    ensures Left(c, s) >= 0
  {
    RanksAreNatural(c, s, c.jobs);
    assert (c.videos - s.next) * (2 * Limit(c) + 6) >= 0;
  }

  lemma {:induction false} RanksAfter(limit: nat, workers: seq<Worker>, w: nat, p: Worker, k: nat)
    requires k <= |workers| && w < |workers|
    ensures Ranks(limit, workers[w := p], k) ==
            Ranks(limit, workers, k) + if w < k then Rank(limit, p) - Rank(limit, workers[w]) else 0
  {
    if k > 0 {
      RanksAfter(limit, workers, w, p, k - 1);
    }
  }

  lemma WorkLowersRank(c: Config, s: State, w: nat, outcome: Outcome)
    requires Shape(c, s) && w < c.jobs && Enabled(c, s, Work(w, outcome)) && WorkerIsRight(c, s, w)
    ensures var t := WorkerStep(c, s, w, outcome);
            && t.workers == s.workers[w := t.workers[w]]
            && Rank(Limit(c), t.workers[w]) < Rank(Limit(c), s.workers[w])
            && t.next == s.next && t.producer == s.producer && (s.stop ==> t.stop)
  {
  }

  lemma HandMakesProgress(c: Config, s: State, w: nat)
    requires Shape(c, s) && Enabled(c, s, Hand(w))
    ensures Left(c, Apply(c, s, Hand(w))) < Left(c, s)
  {
    var t := Apply(c, s, Hand(w));
    RanksAfter(Limit(c), s.workers, w, Try(s.next, 0), c.jobs);
    var weight := 2 * Limit(c) + 6;
    assert (c.videos - s.next) * weight == (c.videos - t.next) * weight + weight;
  }

  lemma StepMakesProgress(c: Config, s: State, a: Action)
    requires Inv(c, s) && Enabled(c, s, a)
    ensures Left(c, Apply(c, s, a)) < Left(c, s)
  {
    match a
    case Work(w, outcome) =>
      var t := WorkerStep(c, s, w, outcome);
      WorkLowersRank(c, s, w, outcome);
      RanksAfter(Limit(c), s.workers, w, t.workers[w], c.jobs);
    case Hand(w) => HandMakesProgress(c, s, w);
    case Produce(_) =>
    case StopOutside =>
  }

  lemma {:induction false} RunIsBounded(c: Config, s: State, run: seq<Action>)
    requires Inv(c, s) && Possible(c, s, run)
    ensures |run| <= Left(c, s)
    decreases |run|
  {
    LeftIsNatural(c, s);
    if run != [] {
      StepKeepsInv(c, s, run[0]);
      StepMakesProgress(c, s, run[0]);
      RunIsBounded(c, Apply(c, s, run[0]), run[1..]);
    }
  }

  lemma {:induction false} InitialRanks(c: Config, k: nat)
    requires k <= c.jobs
    ensures Ranks(Limit(c), Initial(c).workers, k) == 2 * k
  {
    if k > 0 {
      InitialRanks(c, k - 1);
    }
  }

  lemma LeftAtTheStart(c: Config)
    ensures Left(c, Initial(c)) == c.videos * (2 * Limit(c) + 6) + 2 * c.jobs + 5
  {
    InitialRanks(c, c.jobs);
  }

  /** Whatever the schedule and the outcomes, the pool makes no more than this many steps. */
  lemma EveryScheduleEnds(c: Config, run: seq<Action>)
    requires Possible(c, Initial(c), run)
    ensures |run| <= c.videos * (2 * Limit(c) + 6) + 2 * c.jobs + 5
  {
    InitialInv(c);
    RunIsBounded(c, Initial(c), run);
    LeftAtTheStart(c);
  }

  /** Some step of the pool itself can be made, not counting a stop from outside. */
  ghost predicate CanMove(c: Config, s: State)
    requires Shape(c, s)
  {
    exists a: Action :: a != StopOutside && Enabled(c, s, a)
  }

  /** The pool is stuck before the end exactly if it has no workers at all, and a video to hand out.
    * The number of workers is taken from the command line as it is. */
  lemma StuckOnlyWithoutWorkers(c: Config, run: seq<Action>)
    requires Possible(c, Initial(c), run)
    ensures var s := After(c, Initial(c), run);
            && Shape(c, s)
            && (!Finished(s) && !CanMove(c, s) <==> c.jobs == 0 && s.producer == Offering && !s.stop)
  {
    InitialInv(c);
    RunKeepsInv(c, Initial(c), run);
    var s := After(c, Initial(c), run);
    if s.producer != Closed && (s.producer == Offering ==> s.stop) {
      assert Enabled(c, s, Produce(None));
    } else if c.jobs > 0 && !Finished(s) {
      BusyPoolMoves(c, s);
    }
  }

  lemma BusyPoolMoves(c: Config, s: State)
    requires Inv(c, s) && c.jobs > 0 && !Finished(s)
    requires s.producer == Closed || (s.producer == Offering && !s.stop)
    ensures CanMove(c, s)
  {
    var w :| 0 <= w < c.jobs && (s.producer == Closed ==> s.workers[w] != Exited);
    assert WorkerIsRight(c, s, w);
    if s.workers[w] == Wait && s.producer == Offering {
      assert Enabled(c, s, Hand(w));
    } else {
      assert Enabled(c, s, Work(w, Worked));
    }
  }

  /** The deadlock is real: without workers, a channel with a video to sync never finishes. */
  lemma NoWorkersDeadlock(videos: nat, maxTries: int)
    requires videos > 0
    ensures var c, run := Config(videos, 0, maxTries), [Produce(None), Produce(None)];
            && Possible(c, Initial(c), run)
            && var s := After(c, Initial(c), run); Shape(c, s) && !Finished(s) && !CanMove(c, s)
  {
    var c, run := Config(videos, 0, maxTries), [Produce(None), Produce(None)];
    var s0 := Initial(c);
    var s1 := Apply(c, s0, Produce(None));
    var s2 := Apply(c, s1, Produce(None));
    assert run[1..] == [Produce(None)] && run[1..][1..] == [];
    assert Possible(c, s2, []);
    assert Possible(c, s1, run[1..]);
    assert After(c, s1, run[1..]) == s2;
  }
}
