/** The two clients of the address pool that retry: the metadata commands, and the video download.
  *
  * The caller is alone with the pool and no ban expires meanwhile. Where the source sleeps until an
  * address is free again, the model says that it waits.
  */
module Downloads {
  import opened IpBans
  import opened IpEntries
  import opened IpLeases
  import opened IpPool
  import opened Options

  datatype Turn = Got(address: Address) | Waiting | Interrupted

  ghost predicate NoneFree(ips: seq<Entry>) {
    forall e | e in ips :: !Free(e)
  }

  /** What commands that lead to this many bans cost: at least as many free entries. If no address is
    * listed twice, exactly as many addresses are banned, and every lease is given back. */
  ghost predicate Costs(before: seq<Entry>, log: seq<Event>, after: seq<Entry>, newLog: seq<Event>, bans: int) {
    && Count(before, Free) - Count(after, Free) >= bans
    && (LeasesAreRight(before, log) ==>
          && LeasesAreRight(after, newLog) && Busy(after) == Busy(before)
          && Count(after, Throttled) == Count(before, Throttled) + bans)
  }

  /** The address has just been given back: its first entry is not in use, and it is still there to be
    * banned unless another one was used up for it. */
  ghost predicate GivenBack(before: seq<Entry>, log: seq<Event>, after: seq<Entry>, a: Address) {
    var j := Find(after, a);
    && j < |after| && !after[j].inUse
    && (after[j].throttled ==> Count(after, Free) < Count(before, Free) && !LeasesAreRight(before, log))
  }

  lemma LeaseAndRelease(before: seq<Entry>, log: seq<Event>, leased: seq<Entry>, place: nat, a: Address, use: string, now: int)
    requires LeasedFrom(before, leased, a, use) && TakenAt(leased, place, a)
    requires LeasesAreRight(before, log) ==>
               LeasesAreRight(leased, log + [Taken(a)]) && Busy(leased) == Busy(before) + {a} && a !in Busy(before)
    ensures var after := AfterRelease(leased, a, now);
            Costs(before, log, after, log + [Taken(a)] + [Released(a)], 0) && GivenBack(before, log, after, a)
  {
    LeaseCounts(before, leased, a, use, a);
    ReleaseCounts(leased, a, now);
    OneMoreEvent(log + [Taken(a)], Released(a));
    assert leased[place].address == a;
    var j := Find(leased, a);
    if LeasesAreRight(before, log) {
      ReleasedSets(leased, a, now);
      assert j == place;
    }
  }

  lemma BanCosts(before: seq<Entry>, log: seq<Event>, ips: seq<Entry>, newLog: seq<Event>, a: Address)
    requires Costs(before, log, ips, newLog, 0) && GivenBack(before, log, ips, a)
    ensures Costs(before, log, AfterBan(ips, a), newLog, 1)
  {
    BanCounts(ips, a);
    if LeasesAreRight(before, log) {
      BannedSets(ips, a);
    }
  }

  lemma CostsAddUp(a: seq<Entry>, logA: seq<Event>, b: seq<Entry>, logB: seq<Event>, c: seq<Entry>, logC: seq<Event>, m: int, n: int)
    requires Costs(a, logA, b, logB, m) && Costs(b, logB, c, logC, n)
    ensures Costs(a, logA, c, logC, m + n)
  {
  }

  /** Asks the pool until there is an address, unless the sync is stopped meanwhile. */
  method SourceAddress(pool: Pool, use: string, stopped: bool) returns (t: Turn, ghost place: nat)
    requires pool.Valid()
    modifies pool`ips, pool`log
    ensures pool.Valid()
    ensures t.Got? ==>
              && LeasedFrom(old(pool.ips), pool.ips, t.address, use) && TakenAt(pool.ips, place, t.address)
              && pool.log == old(pool.log) + [Taken(t.address)]
    ensures !t.Got? ==>
              && t == (if stopped then Interrupted else Waiting) && NoneFree(pool.ips)
              && Costs(old(pool.ips), old(pool.log), pool.ips, pool.log, 0)
    ensures old(LeasesAreRight(pool.ips, pool.log)) ==> LeasesAreRight(pool.ips, pool.log)
    ensures old(LeasesAreRight(pool.ips, pool.log)) && t.Got? ==>
              t.address !in old(Busy(pool.ips)) && Busy(pool.ips) == old(Busy(pool.ips)) + {t.address}
  {
    ghost var before := pool.ips;
    var lease := pool.NextIP(use);
    if lease.Leased? {
      t, place := Got(pool.Read(lease.place)), lease.place;
    } else {
      SameElements(before, pool.ips);
      CountPermuted(before, pool.ips, Free);
      CountPermuted(before, pool.ips, Throttled);
      t, place := if stopped then Interrupted else Waiting, 0;
    }
  }

  /** Bans an address that has just been given back. */
  method Throttle(pool: Pool, address: Address, ghost before: seq<Entry>, ghost log: seq<Event>)
    requires pool.Valid() && Costs(before, log, pool.ips, pool.log, 0) && GivenBack(before, log, pool.ips, address)
    modifies pool`ips, pool`timers
    ensures pool.Valid() && Costs(before, log, pool.ips, pool.log, 1)
  {
    BanCosts(before, log, pool.ips, pool.log, address);
    pool.SetThrottled(address);
  }

  // Metadata commands

  const MAX_ATTEMPTS := 3

  datatype Agent = Default | GoogleBot | Chrome

  /** The error of a command: whether its text has "exit status 1", and what else it has. */
  datatype Failure = Failure(exitStatus1: bool, noRetry: bool, extraction: bool, throttled: bool)

  datatype Command = Command(address: Address, agent: Agent, error: Option<Failure>)

  /** How command number `k` fails, if it does. */
  function ErrorAt(errors: seq<Option<Failure>>, k: nat): (e: Option<Failure>)
    ensures k < |errors| ==> e == errors[k]
  {
    if k < |errors| then errors[k] else None
  }

  predicate ErrorsAre(log: seq<Command>, errors: seq<Option<Failure>>) {
    forall k | 0 <= k < |log| :: log[k].error == ErrorAt(errors, k)
  }

  datatype RunResult = Finished | Failed(error: Failure) | Blocked(turn: Turn)

  function NextAgent(current: Agent): Agent {
    if current == Default then GoogleBot else Chrome
  }

  predicate Extraction(c: Command) {
    c.error.Some? && c.error.value.exitStatus1 && !c.error.value.noRetry && c.error.value.extraction
  }

  predicate SaysThrottled(error: Option<Failure>) {
    error.Some? && error.value.exitStatus1 && !error.value.noRetry && error.value.throttled
  }

  /** A throttled command does not count as an attempt. */
  predicate WasThrottled(c: Command) {
    SaysThrottled(c.error)
  }

  function Extractions(log: seq<Command>): nat {
    if log == [] then 0 else Extractions(log[..|log| - 1]) + (if Extraction(log[|log| - 1]) then 1 else 0)
  }

  function Attempts(log: seq<Command>): nat {
    if log == [] then 0 else Attempts(log[..|log| - 1]) + (if WasThrottled(log[|log| - 1]) then 0 else 1)
  }

  function AgentAfter(extractions: nat): Agent {
    if extractions == 0 then Default else if extractions == 1 then GoogleBot else Chrome
  }

  /** The first command goes without a user agent, those after one extraction error as the Google
    * bot, and those after more as Chrome. */
  ghost predicate AgentsAreRight(log: seq<Command>) {
    forall k | 0 <= k < |log| :: AgentIsRight(log, k)
  }

  predicate AgentIsRight(log: seq<Command>, k: nat)
    requires k < |log|
  {
    log[k].agent == AgentAfter(Extractions(log[..k]))
  }

  /** The command failed in a way that the next one may not. */
  predicate GoesOn(c: Command) {
    c.error.Some? && !(c.error.value.exitStatus1 && c.error.value.noRetry)
  }

  ghost predicate AllGoOn(log: seq<Command>) {
    forall k | 0 <= k < |log| :: GoesOn(log[k])
  }

  /** The commands so far, the user agent of the next one, and the attempts used up. */
  ghost predicate SoFar(log: seq<Command>, agent: Agent, attempts: int) {
    AgentsAreRight(log) && AllGoOn(log) && agent == AgentAfter(Extractions(log)) && attempts == Attempts(log)
  }

  /** The commands of a whole run and how it ended. */
  ghost predicate RunIsRight(log: seq<Command>, r: RunResult) {
    && AgentsAreRight(log)
    && Attempts(log) <= MAX_ATTEMPTS
    && (log != [] ==> AllGoOn(log[..|log| - 1]))
    && (r == Finished <==> log != [] && log[|log| - 1].error == None)
    && (r.Failed? ==>
          && log != [] && log[|log| - 1].error == Some(r.error)
          && ((r.error.exitStatus1 && r.error.noRetry) || Attempts(log) == MAX_ATTEMPTS))
    && (r.Blocked? ==> !r.turn.Got? && Attempts(log) < MAX_ATTEMPTS)
  }

  lemma OneMoreCommand(log: seq<Command>, c: Command)
    requires AgentsAreRight(log) && c.agent == AgentAfter(Extractions(log))
    ensures AgentsAreRight(log + [c])
    ensures Extractions(log + [c]) == Extractions(log) + (if Extraction(c) then 1 else 0)
    ensures Attempts(log + [c]) == Attempts(log) + (if WasThrottled(c) then 0 else 1)
  {
    var t := log + [c];
    assert t[..|log|] == log;
    forall k | 0 <= k < |t| ensures AgentIsRight(t, k) {
      if k < |log| {
        assert t[..k] == log[..k] && AgentIsRight(log, k);
      }
    }
  }

  lemma GoesOnWith(log: seq<Command>, c: Command, attempts: int)
    requires SoFar(log, c.agent, attempts) && GoesOn(c)
    ensures SoFar(log + [c], if Extraction(c) then NextAgent(c.agent) else c.agent, if WasThrottled(c) then attempts else attempts + 1)
  {
    OneMoreCommand(log, c);
  }

  lemma EndsWith(log: seq<Command>, c: Command, attempts: int)
    requires SoFar(log, c.agent, attempts) && attempts < MAX_ATTEMPTS && !GoesOn(c)
    ensures Attempts(log + [c]) == attempts + 1
    ensures RunIsRight(log + [c], if c.error.None? then Finished else Failed(c.error.value))
  {
    OneMoreCommand(log, c);
    assert (log + [c])[..|log|] == log;
  }

  lemma EndsWaiting(log: seq<Command>, agent: Agent, attempts: int, turn: Turn)
    requires SoFar(log, agent, attempts) && attempts < MAX_ATTEMPTS && !turn.Got?
    ensures RunIsRight(log, Blocked(turn))
  {
    assert log != [] ==> GoesOn(log[|log| - 1]);
  }

  lemma EndsUsedUp(log: seq<Command>, agent: Agent)
    requires SoFar(log, agent, MAX_ATTEMPTS)
    ensures log != [] && log[|log| - 1].error.Some? && RunIsRight(log, Failed(log[|log| - 1].error.value))
  {
    assert GoesOn(log[|log| - 1]);
  }

  /** One command, on an address that is released when it ends. */
  method RunOnce(pool: Pool, use: string, now: int, stopped: bool, outcome: Option<Failure>) returns (turn: Turn, error: Option<Failure>)
    requires pool.Valid()
    modifies pool`ips, pool`log
    ensures pool.Valid() && Costs(old(pool.ips), old(pool.log), pool.ips, pool.log, 0)
    ensures if turn.Got? then error == outcome && GivenBack(old(pool.ips), old(pool.log), pool.ips, turn.address)
            else turn == (if stopped then Interrupted else Waiting) && NoneFree(pool.ips)
  {
    ghost var before, log, place := pool.ips, pool.log, 0;
    turn, place := SourceAddress(pool, use, stopped);
    if !turn.Got? {
      return turn, None;
    }
    error := outcome;
    LeaseAndRelease(before, log, pool.ips, place, turn.address, use, now);
    pool.ReleaseIP(turn.address, now);
  }

  /** One command, after which its address is throttled if the error says so. It comes after others that
    * led to `bans` since the pool was as in `start`. */
  method RunAndThrottle(pool: Pool, use: string, now: int, stopped: bool, outcome: Option<Failure>,
                        ghost start: seq<Entry>, ghost events: seq<Event>, ghost bans: int)
    returns (turn: Turn, error: Option<Failure>)
    requires pool.Valid() && Costs(start, events, pool.ips, pool.log, bans)
    modifies pool
    ensures pool.Valid()
    ensures Costs(start, events, pool.ips, pool.log, if turn.Got? && SaysThrottled(error) then bans + 1 else bans)
    ensures if turn.Got? then error == outcome else turn == (if stopped then Interrupted else Waiting) && NoneFree(pool.ips)
  {
    ghost var before, log := pool.ips, pool.log;
    turn, error := RunOnce(pool, use, now, stopped, outcome);
    if turn.Got? && SaysThrottled(error) {
      Throttle(pool, turn.address, before, log);
      CostsAddUp(start, events, before, log, pool.ips, pool.log, bans, 1);
    } else {
      CostsAddUp(start, events, before, log, pool.ips, pool.log, bans, 0);
    }
  }

  /** One round of the loop: how the run ends, or the user agent and the attempts to go on with. */
  method Round(pool: Pool, use: string, now: int, stopped: bool, outcome: Option<Failure>,
               log: seq<Command>, agent: Agent, attempts: int, ghost start: seq<Entry>, ghost events: seq<Event>)
    returns (r: Option<RunResult>, all: seq<Command>, nextAgent: Agent, nextAttempts: int)
    requires pool.Valid() && SoFar(log, agent, attempts) && attempts < MAX_ATTEMPTS
    requires Costs(start, events, pool.ips, pool.log, |log| - attempts)
    modifies pool
    ensures pool.Valid() && Costs(start, events, pool.ips, pool.log, |all| - Attempts(all))
    ensures r.None? ==> SoFar(all, nextAgent, nextAttempts) && nextAttempts <= MAX_ATTEMPTS
    ensures r.Some? ==> RunIsRight(all, r.value)
    ensures if r.Some? && r.value.Blocked? then all == log && NoneFree(pool.ips) && r.value.turn == (if stopped then Interrupted else Waiting)
            else |all| == |log| + 1 && all[..|log|] == log && all[|log|].error == outcome
  {
    nextAgent, nextAttempts := agent, attempts;
    var turn, error := RunAndThrottle(pool, use, now, stopped, outcome, start, events, |log| - attempts);
    if !turn.Got? {
      EndsWaiting(log, agent, attempts, turn);
      return Some(Blocked(turn)), log, agent, attempts;
    }
    var command := Command(turn.address, agent, error);
    all := log + [command];
    OneMoreCommand(log, command);
    if GoesOn(command) {
      GoesOnWith(log, command, attempts);
    } else {
      EndsWith(log, command, attempts);
    }
    if !error.Some? {
      r := Some(Finished);
      return;
    }
    if error.value.exitStatus1 {
      if error.value.noRetry {
        r := Some(Failed(error.value));
        return;
      }
      if error.value.extraction {
        nextAgent := NextAgent(agent);
      }
      if error.value.throttled {
        nextAttempts := attempts - 1;
      }
    }
    r, nextAttempts := None, nextAttempts + 1;
  }

  /** The first command fails as `errors` begins, and so on. `log` lists the commands run. At most three
    * count as attempts; every other one cost the pool a free entry, so there are no more than three and
    * the free entries. If no address is listed twice, the address of every command is released, and each
    * that did not count banned another address. */
  method Run(pool: Pool, use: string, now: int, stopped: bool, errors: seq<Option<Failure>>) returns (r: RunResult, log: seq<Command>)
    requires pool.Valid()
    modifies pool
    ensures pool.Valid() && RunIsRight(log, r) && ErrorsAre(log, errors)
    ensures Costs(old(pool.ips), old(pool.log), pool.ips, pool.log, |log| - Attempts(log))
    ensures |log| <= MAX_ATTEMPTS + old(Count(pool.ips, Free))
    ensures r.Blocked? ==> NoneFree(pool.ips) && r.turn == if stopped then Interrupted else Waiting
  {
    log := [];
    ghost var start, events := pool.ips, pool.log;
    var agent, attempts := Default, 0;
    while attempts < MAX_ATTEMPTS
      invariant pool.Valid() && SoFar(log, agent, attempts) && attempts <= MAX_ATTEMPTS && ErrorsAre(log, errors)
      invariant Costs(start, events, pool.ips, pool.log, |log| - attempts)
      decreases Count(start, Free) + MAX_ATTEMPTS - |log|
    {
      var end;
      end, log, agent, attempts := Round(pool, use, now, stopped, ErrorAt(errors, |log|), log, agent, attempts, start, events);
      if end.Some? {
        return end.value, log;
      }
    }
    EndsUsedUp(log, agent);
    r := Failed(log[|log| - 1].error.value);
  }
}
