/** Abandoning the supports of a channel: one producer, a number of consumers, and two buffered queues,
  * in every interleaving of their atomic steps.
  *
  * The ledger belongs to no program variable: it records which consumer took a claim id, what the
  * daemon answered each time it was asked to spend its supports, and whether that was reported on.
  */
module Abandon {
  import opened Collections

  datatype ClaimId = ClaimId(text: string)

  /** What the daemon answers to one spend: the amounts of a summary may fail to parse. */
  datatype Answer = TimedOut | Refused | Summary(amounts: seq<Amount>)

  datatype Amount = Garbled | Amount(value: real)

  datatype Response = Failed(id: ClaimId) | Abandoned(id: ClaimId, amount: real)

  datatype Consumer =
    | Receiving                            // about to take a claim id from the queue
    | Spending(id: ClaimId, again: bool)    // in the call to the daemon, the second one if `again`
    | Reporting(response: Response)        // about to put its response into the queue
    | Exited

  datatype Entry = Entry(consumer: nat, answers: seq<Answer>, reported: bool)

  datatype State = State(
    scanned: nat,                // the supports the producer has looked at
    seen: set<ClaimId>,
    sending: seq<ClaimId>,        // the claim id the producer is about to send, if any
    queue: seq<ClaimId>,
    closed: bool,
    consumers: seq<Consumer>,
    responses: seq<Response>,
    ledger: map<ClaimId, Entry>)

  datatype Action =
    | Scan
    | Send
    | Close
    | Receive(consumer: nat)
    | Leave(consumer: nat)
    | Call(consumer: nat, answer: Answer)
    | Report(consumer: nat)

  function Initial(jobs: nat): State {
    State(0, {}, [], [], false, seq(jobs, _ => Receiving), [], map[])
  }

  /** Both queues hold as many items as there are supports; sending to a full one would block. */
  ghost predicate Enabled(supports: seq<ClaimId>, s: State, a: Action) {
    match a
    case Scan => s.scanned < |supports| && s.sending == []
    case Send => s.sending != [] && |s.queue| < |supports|
    case Close => s.scanned == |supports| && s.sending == [] && !s.closed
    case Receive(i) => i < |s.consumers| && s.consumers[i].Receiving? && s.queue != []
    case Leave(i) => i < |s.consumers| && s.consumers[i].Receiving? && s.queue == [] && s.closed
    case Call(i, _) => i < |s.consumers| && s.consumers[i].Spending? && s.consumers[i].id in s.ledger
    case Report(i) => i < |s.consumers| && s.consumers[i].Reporting? && |s.responses| < |supports|
  }

  /** The sum of a summary, or nothing if one of its amounts does not parse. */
  function Parsed(amounts: seq<Amount>): Amount {
    if amounts == [] then Amount(0.0)
    else
      var before := Parsed(amounts[..|amounts| - 1]);
      var last := amounts[|amounts| - 1];
      if before.Amount? && last.Amount? then Amount(before.value + last.value) else Garbled
  }

  function SumOf(amounts: seq<Amount>): real
    requires Garbled !in amounts
  {
    if amounts == [] then 0.0 else amounts[0].value + SumOf(amounts[1..])
  }

  lemma {:induction false} SumOfMore(amounts: seq<Amount>, last: Amount)
    requires Garbled !in amounts && last.Amount?
    ensures Garbled !in amounts + [last] && SumOf(amounts + [last]) == SumOf(amounts) + last.value
  {
    if amounts != [] {
      SumOfMore(amounts[1..], last);
      assert (amounts + [last])[1..] == amounts[1..] + [last];
    }
  }

  /** A summary without a garbled amount parses to the sum of its amounts. */
  lemma {:induction false} ParsedIsSum(amounts: seq<Amount>)
    ensures Parsed(amounts) == if Garbled in amounts then Garbled else Amount(SumOf(amounts))
  {
    if amounts != [] {
      var init, last := amounts[..|amounts| - 1], amounts[|amounts| - 1];
      assert amounts == init + [last];
      ParsedIsSum(init);
      if Garbled !in amounts {
        SumOfMore(init, last);
      }
    }
  }

  /** The loop over a summary gives up at the first amount that does not parse. */
  method OutputAmount(amounts: seq<Amount>) returns (total: Amount)
    ensures total == Parsed(amounts)
    ensures total == if Garbled in amounts then Garbled else Amount(SumOf(amounts))
  {
    ParsedIsSum(amounts);
    var sum := 0.0;
    for k := 0 to |amounts|
      invariant Parsed(amounts[..k]) == Amount(sum)
      invariant Garbled !in amounts[..k]
    {
      assert amounts[..k + 1][..k] == amounts[..k];
      if amounts[k].Garbled? {
        return Garbled;
      }
      sum := sum + amounts[k].value;
    }
    assert amounts[..|amounts|] == amounts;
    total := Amount(sum);
  }

  /** The answer says that supports were released, and how much. */
  predicate Releases(a: Answer) {
    a.Summary? && a.amounts != [] && Garbled !in a.amounts
  }

  function Amounts(a: Answer): real {
    if Releases(a) then SumOf(a.amounts) else 0.0
  }

  /** Where a call leaves its consumer: only a time-out of the first call is worth another one. */
  function AfterCall(id: ClaimId, again: bool, answer: Answer): Consumer {
    match answer
    case TimedOut => if again then Reporting(Failed(id)) else Spending(id, true)
    case Refused => Reporting(Failed(id))
    case Summary(amounts) =>
      if amounts == [] || Parsed(amounts).Garbled? then Reporting(Failed(id))
      else Reporting(Abandoned(id, Parsed(amounts).value))
  }

  ghost function Apply(supports: seq<ClaimId>, s: State, a: Action): State
    requires Enabled(supports, s, a)
  {
    match a
    case Scan =>
      var id := supports[s.scanned];
      if id in s.seen then s.(scanned := s.scanned + 1)
      else s.(scanned := s.scanned + 1, seen := s.seen + {id}, sending := [id])
    case Send => s.(queue := s.queue + s.sending, sending := [])
    case Close => s.(closed := true)
    case Receive(i) =>
      var id := s.queue[0];
      s.(queue := s.queue[1..], consumers := s.consumers[i := Spending(id, false)], ledger := s.ledger[id := Entry(i, [], false)])
    case Leave(i) => s.(consumers := s.consumers[i := Exited])
    case Call(i, answer) =>
      var id := s.consumers[i].id;
      s.(consumers := s.consumers[i := AfterCall(id, s.consumers[i].again, answer)],
         ledger := s.ledger[id := s.ledger[id].(answers := s.ledger[id].answers + [answer])])
    case Report(i) =>
      var r := s.consumers[i].response;
      s.(consumers := s.consumers[i := Receiving], responses := s.responses + [r],
         ledger := if r.id in s.ledger then s.ledger[r.id := s.ledger[r.id].(reported := true)] else s.ledger)
  }

  // Where the claim ids are

  function Count(ids: seq<ClaimId>, id: ClaimId): nat {
    if ids == [] then 0 else Count(ids[..|ids| - 1], id) + (if ids[|ids| - 1] == id then 1 else 0)
  }

  predicate Has(c: Consumer, id: ClaimId) {
    (c.Spending? && c.id == id) || (c.Reporting? && c.response.id == id)
  }

  /** How many of the first `k` consumers have the claim id. */
  function Held(consumers: seq<Consumer>, k: nat, id: ClaimId): nat
    requires k <= |consumers|
  {
    if k == 0 then 0 else Held(consumers, k - 1, id) + (if Has(consumers[k - 1], id) then 1 else 0)
  }

  /** How many of the first `k` consumers have a claim id. */
  function Busy(consumers: seq<Consumer>, k: nat): nat
    requires k <= |consumers|
  {
    if k == 0 then 0
    else Busy(consumers, k - 1) + (if consumers[k - 1].Spending? || consumers[k - 1].Reporting? then 1 else 0)
  }

  function Reported(responses: seq<Response>, id: ClaimId): nat {
    if responses == [] then 0
    else Reported(responses[..|responses| - 1], id) + (if responses[|responses| - 1].id == id then 1 else 0)
  }

  /** How often a claim id is somewhere between the producer and the responses. */
  function Places(s: State, id: ClaimId): nat {
    Count(s.sending, id) + Count(s.queue, id) + Held(s.consumers, |s.consumers|, id) + Reported(s.responses, id)
  }

  function InFlight(s: State): nat {
    |s.sending| + |s.queue| + Busy(s.consumers, |s.consumers|) + |s.responses|
  }

  /** A claim id scanned so far is in exactly one place, any other is nowhere. */
  predicate OnePlace(s: State, id: ClaimId) {
    Places(s, id) == if id in s.seen then 1 else 0
  }

  ghost predicate SeenIsRight(supports: seq<ClaimId>, s: State) {
    && s.scanned <= |supports|
    && (forall id :: id in s.seen <==> id in supports[..s.scanned])
    && InFlight(s) == |s.seen| <= s.scanned
  }

  ghost predicate Conserved(supports: seq<ClaimId>, s: State) {
    SeenIsRight(supports, s) && forall id :: OnePlace(s, id)
  }

  lemma {:induction false} CountOfConcat(a: seq<ClaimId>, b: seq<ClaimId>, id: ClaimId)
    ensures Count(a + b, id) == Count(a, id) + Count(b, id)
  {
    if b == [] {
      assert a + b == a;
    } else {
      assert (a + b)[..|a + b| - 1] == a + b[..|b| - 1];
      CountOfConcat(a, b[..|b| - 1], id);
    }
  }

  lemma {:induction false} HeldAfter(consumers: seq<Consumer>, i: nat, c: Consumer, k: nat, id: ClaimId)
    requires k <= |consumers| && i < |consumers|
    ensures Held(consumers[i := c], k, id) + (if i < k && Has(consumers[i], id) then 1 else 0)
            == Held(consumers, k, id) + (if i < k && Has(c, id) then 1 else 0)
  {
    if k > 0 {
      HeldAfter(consumers, i, c, k - 1, id);
    }
  }

  lemma {:induction false} BusyAfter(consumers: seq<Consumer>, i: nat, c: Consumer, k: nat)
    requires k <= |consumers| && i < |consumers|
    ensures Busy(consumers[i := c], k) + (if i < k && (consumers[i].Spending? || consumers[i].Reporting?) then 1 else 0)
            == Busy(consumers, k) + (if i < k && (c.Spending? || c.Reporting?) then 1 else 0)
  {
    if k > 0 {
      BusyAfter(consumers, i, c, k - 1);
    }
  }

  lemma OneMoreScanned(supports: seq<ClaimId>, k: nat, id: ClaimId)
    requires k < |supports|
    ensures id in supports[..k + 1] <==> id in supports[..k] || id == supports[k]
  {
    assert supports[..k + 1] == supports[..k] + [supports[k]];
  }

  lemma ScanKeepsSeen(supports: seq<ClaimId>, s: State)
    requires SeenIsRight(supports, s) && Enabled(supports, s, Scan)
    ensures SeenIsRight(supports, Apply(supports, s, Scan))
  {
    var t := Apply(supports, s, Scan);
    forall id ensures id in t.seen <==> id in supports[..t.scanned] {
      OneMoreScanned(supports, s.scanned, id);
    }
    if supports[s.scanned] in s.seen {
      assert InFlight(t) == InFlight(s);
    } else {
      assert InFlight(t) == InFlight(s) + 1 && |t.seen| == |s.seen| + 1;
    }
  }

  lemma StepKeepsSeen(supports: seq<ClaimId>, s: State, a: Action)
    requires SeenIsRight(supports, s) && Enabled(supports, s, a)
    ensures SeenIsRight(supports, Apply(supports, s, a))
  {
    var t := Apply(supports, s, a);
    if a.Scan? {
      ScanKeepsSeen(supports, s);
    } else if a.Receive? || a.Leave? || a.Call? || a.Report? {
      BusyAfter(s.consumers, a.consumer, t.consumers[a.consumer], |s.consumers|);
    }
  }

  /** A step of one consumer moves a claim id into it from the queue, or out of it to the responses. */
  lemma ConsumerKeepsPlaces(supports: seq<ClaimId>, s: State, a: Action, id: ClaimId)
    requires Enabled(supports, s, a) && (a.Receive? || a.Leave? || a.Call? || a.Report?)
    ensures Places(Apply(supports, s, a), id) == Places(s, id)
  {
    var i := a.consumer;
    var t := Apply(supports, s, a);
    HeldAfter(s.consumers, i, t.consumers[i], |s.consumers|, id);
    if a.Receive? {
      assert s.queue == [s.queue[0]] + s.queue[1..];
      CountOfConcat([s.queue[0]], s.queue[1..], id);
    } else if a.Report? {
      assert t.responses[..|t.responses| - 1] == s.responses;
    }
  }

  lemma StepKeepsOnePlace(supports: seq<ClaimId>, s: State, a: Action, id: ClaimId)
    requires OnePlace(s, id) && Enabled(supports, s, a)
    ensures OnePlace(Apply(supports, s, a), id)
  {
    match a
    case Scan =>
    case Send => CountOfConcat(s.queue, s.sending, id);
    case Close =>
    case _ => ConsumerKeepsPlaces(supports, s, a, id);
  }

  lemma StepKeepsConserved(supports: seq<ClaimId>, s: State, a: Action)
    requires Conserved(supports, s) && Enabled(supports, s, a)
    ensures Conserved(supports, Apply(supports, s, a))
  {
    StepKeepsSeen(supports, s, a);
    forall id ensures OnePlace(Apply(supports, s, a), id) {
      StepKeepsOnePlace(supports, s, a, id);
    }
  }

  // Who spent what

  /** The answers to the calls for one claim id: only a time-out of the first leads to a second. */
  predicate IsAnswered(answers: seq<Answer>) {
    (|answers| == 1 && !answers[0].TimedOut?) || (|answers| == 2 && answers[0].TimedOut?)
  }

  function Last(answers: seq<Answer>): Answer
    requires answers != []
  {
    answers[|answers| - 1]
  }

  /** The response reports what the daemon said in its last answer. */
  predicate ResponseIsRight(s: State, r: Response) {
    && r.id in s.ledger
    && IsAnswered(s.ledger[r.id].answers)
    && (r.Abandoned? <==> Releases(Last(s.ledger[r.id].answers)))
    && (r.Abandoned? ==> r.amount == Amounts(Last(s.ledger[r.id].answers)))
  }

  predicate ConsumerIsRight(s: State, i: nat)
    requires i < |s.consumers|
  {
    match s.consumers[i]
    case Receiving => true
    case Spending(id, again) => id in s.ledger && s.ledger[id] == Entry(i, if again then [TimedOut] else [], false)
    case Reporting(r) => ResponseIsRight(s, r) && s.ledger[r.id].consumer == i && !s.ledger[r.id].reported
    case Exited => s.closed && s.queue == []
  }

  predicate LedgerIsRight(s: State, id: ClaimId) {
    id in s.ledger ==>
      id in s.seen && s.ledger[id].consumer < |s.consumers| && Count(s.sending, id) == 0 && Count(s.queue, id) == 0
  }

  predicate ResponsesAreRight(s: State) {
    forall k | 0 <= k < |s.responses| :: ResponseIsRight(s, s.responses[k]) && s.ledger[s.responses[k].id].reported
  }

  ghost predicate Inv(supports: seq<ClaimId>, s: State) {
    && Conserved(supports, s)
    && (s.closed ==> s.scanned == |supports| && s.sending == [])
    && (forall i | 0 <= i < |s.consumers| :: ConsumerIsRight(s, i))
    && (forall id :: LedgerIsRight(s, id))
    && ResponsesAreRight(s)
  }

  /** A consumer is as right after the step of another one, or of the producer, as before it. */
  lemma OtherKeepsConsumer(supports: seq<ClaimId>, s: State, a: Action, i: nat)
    requires Enabled(supports, s, a) && i < |s.consumers| && ConsumerIsRight(s, i) && (s.closed ==> s.sending == [])
    requires a.Receive? ==> a.consumer != i && s.queue[0] !in s.ledger
    requires a.Call? || a.Report? ==> a.consumer != i && ConsumerIsRight(s, a.consumer)
    ensures ConsumerIsRight(Apply(supports, s, a), i)
  {
    match a
    case Call(j, answer) => OtherCallKeepsConsumer(supports, s, j, answer, i);
    case _ =>
  }

  lemma OtherCallKeepsConsumer(supports: seq<ClaimId>, s: State, j: nat, answer: Answer, i: nat)
    requires Enabled(supports, s, Call(j, answer)) && i < |s.consumers| && i != j
    requires ConsumerIsRight(s, i) && ConsumerIsRight(s, j)
    ensures ConsumerIsRight(Apply(supports, s, Call(j, answer)), i)
  {
    assert s.ledger[s.consumers[j].id].consumer == j;
  }

  lemma OwnStepKeepsConsumer(supports: seq<ClaimId>, s: State, a: Action)
    requires Enabled(supports, s, a) && (a.Receive? || a.Leave? || a.Call? || a.Report?) && ConsumerIsRight(s, a.consumer)
    ensures ConsumerIsRight(Apply(supports, s, a), a.consumer)
  {
    if a.Call? && a.answer.Summary? {
      ParsedIsSum(a.answer.amounts);
    }
  }

  lemma StepKeepsConsumer(supports: seq<ClaimId>, s: State, a: Action, i: nat)
    requires Inv(supports, s) && Enabled(supports, s, a) && i < |s.consumers|
    ensures ConsumerIsRight(Apply(supports, s, a), i)
  {
    assert ConsumerIsRight(s, i);
    if a.Receive? {
      FirstIsCounted(s.queue);
      assert LedgerIsRight(s, s.queue[0]);
    } else if a.Call? || a.Report? {
      assert ConsumerIsRight(s, a.consumer);
    }
    if (a.Receive? || a.Leave? || a.Call? || a.Report?) && a.consumer == i {
      OwnStepKeepsConsumer(supports, s, a);
    } else {
      OtherKeepsConsumer(supports, s, a, i);
    }
  }

  lemma FirstIsCounted(ids: seq<ClaimId>)
    requires ids != []
    ensures Count(ids, ids[0]) == 1 + Count(ids[1..], ids[0])
  {
    assert ids == [ids[0]] + ids[1..];
    CountOfConcat([ids[0]], ids[1..], ids[0]);
  }

  lemma CallKeepsLedger(supports: seq<ClaimId>, s: State, i: nat, answer: Answer, id: ClaimId)
    requires Enabled(supports, s, Call(i, answer)) && ConsumerIsRight(s, i) && LedgerIsRight(s, id)
    ensures LedgerIsRight(Apply(supports, s, Call(i, answer)), id)
  {
  }

  lemma ReceiveKeepsLedger(supports: seq<ClaimId>, s: State, i: nat, id: ClaimId)
    requires Enabled(supports, s, Receive(i)) && LedgerIsRight(s, id) && OnePlace(s, s.queue[0])
    ensures LedgerIsRight(Apply(supports, s, Receive(i)), id)
  {
    assert s.queue == [s.queue[0]] + s.queue[1..];
    CountOfConcat([s.queue[0]], s.queue[1..], id);
    FirstIsCounted(s.queue);
  }

  lemma StepKeepsLedger(supports: seq<ClaimId>, s: State, a: Action, id: ClaimId)
    requires Inv(supports, s) && Enabled(supports, s, a)
    ensures LedgerIsRight(Apply(supports, s, a), id)
  {
    assert LedgerIsRight(s, id);
    match a
    case Send => CountOfConcat(s.queue, s.sending, id);
    case Receive(i) =>
      assert OnePlace(s, s.queue[0]);
      ReceiveKeepsLedger(supports, s, i, id);
    case Call(i, answer) =>
      assert ConsumerIsRight(s, i);
      CallKeepsLedger(supports, s, i, answer, id);
    case Scan => assert OnePlace(s, id);
    case _ =>
  }

  lemma CallKeepsResponses(supports: seq<ClaimId>, s: State, i: nat, answer: Answer)
    requires Enabled(supports, s, Call(i, answer)) && ConsumerIsRight(s, i) && ResponsesAreRight(s)
    ensures ResponsesAreRight(Apply(supports, s, Call(i, answer)))
  {
  }

  lemma ReportKeepsResponses(supports: seq<ClaimId>, s: State, i: nat)
    requires Enabled(supports, s, Report(i)) && ConsumerIsRight(s, i) && ResponsesAreRight(s)
    ensures ResponsesAreRight(Apply(supports, s, Report(i)))
  {
  }

  lemma ReceiveKeepsResponses(supports: seq<ClaimId>, s: State, i: nat)
    requires Enabled(supports, s, Receive(i)) && s.queue[0] !in s.ledger && ResponsesAreRight(s)
    ensures ResponsesAreRight(Apply(supports, s, Receive(i)))
  {
  }

  lemma StepKeepsResponses(supports: seq<ClaimId>, s: State, a: Action)
    requires Inv(supports, s) && Enabled(supports, s, a)
    ensures ResponsesAreRight(Apply(supports, s, a))
  {
    match a
    case Receive(i) =>
      FirstIsCounted(s.queue);
      assert LedgerIsRight(s, s.queue[0]);
      ReceiveKeepsResponses(supports, s, i);
    case Call(i, answer) =>
      assert ConsumerIsRight(s, i);
      CallKeepsResponses(supports, s, i, answer);
    case Report(i) =>
      assert ConsumerIsRight(s, i);
      ReportKeepsResponses(supports, s, i);
    case _ =>
  }

  lemma StepKeepsInv(supports: seq<ClaimId>, s: State, a: Action)
    requires Inv(supports, s) && Enabled(supports, s, a)
    ensures Inv(supports, Apply(supports, s, a))
  {
    var t := Apply(supports, s, a);
    StepKeepsConserved(supports, s, a);
    StepKeepsResponses(supports, s, a);
    forall i | 0 <= i < |t.consumers| ensures ConsumerIsRight(t, i) {
      StepKeepsConsumer(supports, s, a, i);
    }
    forall id ensures LedgerIsRight(t, id) {
      StepKeepsLedger(supports, s, a, id);
    }
  }

  lemma {:induction false} IdleConsumers(jobs: nat, k: nat, id: ClaimId)
    requires k <= jobs
    ensures Held(Initial(jobs).consumers, k, id) == 0 && Busy(Initial(jobs).consumers, k) == 0
  {
    if k > 0 {
      IdleConsumers(jobs, k - 1, id);
    }
  }

  lemma InitialInv(supports: seq<ClaimId>, jobs: nat)
    ensures Inv(supports, Initial(jobs))
  {
    var s := Initial(jobs);
    IdleConsumers(jobs, jobs, ClaimId(""));
    forall id ensures OnePlace(s, id) {
      IdleConsumers(jobs, jobs, id);
    }
  }

  // Runs

  ghost predicate Possible(supports: seq<ClaimId>, s: State, run: seq<Action>)
    decreases |run|
  {
    run == [] || (Enabled(supports, s, run[0]) && Possible(supports, Apply(supports, s, run[0]), run[1..]))
  }

  ghost function After(supports: seq<ClaimId>, s: State, run: seq<Action>): (t: State)
    requires Possible(supports, s, run)
    ensures |t.consumers| == |s.consumers|
    decreases |run|
  {
    if run == [] then s else After(supports, Apply(supports, s, run[0]), run[1..])
  }

  /** One step more leads where that step does from where the run had led. */
  lemma {:induction false} OneMoreStep(supports: seq<ClaimId>, s: State, run: seq<Action>, a: Action)
    requires Possible(supports, s, run) && Enabled(supports, After(supports, s, run), a)
    ensures Possible(supports, s, run + [a])
    ensures After(supports, s, run + [a]) == Apply(supports, After(supports, s, run), a)
    decreases |run|
  {
    if run == [] {
      assert (run + [a])[1..] == [];
    } else {
      assert (run + [a])[1..] == run[1..] + [a];
      OneMoreStep(supports, Apply(supports, s, run[0]), run[1..], a);
    }
  }

  lemma {:induction false} RunKeepsInv(supports: seq<ClaimId>, s: State, run: seq<Action>)
    requires Inv(supports, s) && Possible(supports, s, run)
    ensures Inv(supports, After(supports, s, run))
    decreases |run|
  {
    if run != [] {
      StepKeepsInv(supports, s, run[0]);
      RunKeepsInv(supports, Apply(supports, s, run[0]), run[1..]);
    }
  }

  /** The queue is closed and every consumer has returned. */
  predicate Finished(s: State) {
    s.closed && forall i | 0 <= i < |s.consumers| :: s.consumers[i].Exited?
  }

  lemma {:induction false} NoneHeld(consumers: seq<Consumer>, k: nat, id: ClaimId)
    requires k <= |consumers| && forall i | 0 <= i < |consumers| :: consumers[i].Exited?
    ensures Held(consumers, k, id) == 0
  {
    if k > 0 {
      NoneHeld(consumers, k - 1, id);
    }
  }

  lemma {:induction false} ReportedIsThere(responses: seq<Response>, id: ClaimId) returns (k: nat)
    requires Reported(responses, id) > 0
    ensures k < |responses| && responses[k].id == id
  {
    if responses[|responses| - 1].id == id {
      k := |responses| - 1;
    } else {
      k := ReportedIsThere(responses[..|responses| - 1], id);
    }
  }

  /** With at least one consumer, in every schedule: each claim id that has supports is reported on
    * exactly once, by the one consumer that took it, after one call to the daemon or, if that one timed
    * out, two. */
  lemma EachClaimIsAbandonedOnce(supports: seq<ClaimId>, jobs: nat, run: seq<Action>, id: ClaimId)
    requires jobs > 0 && Possible(supports, Initial(jobs), run) && Finished(After(supports, Initial(jobs), run))
    ensures var s := After(supports, Initial(jobs), run);
            && Reported(s.responses, id) == (if id in supports then 1 else 0)
            && (id in s.ledger <==> id in supports)
            && (id in s.ledger ==> s.ledger[id].consumer < jobs && IsAnswered(s.ledger[id].answers))
  {
    InitialInv(supports, jobs);
    RunKeepsInv(supports, Initial(jobs), run);
    var s := After(supports, Initial(jobs), run);
    assert ConsumerIsRight(s, 0);
    assert supports[..|supports|] == supports;
    NoneHeld(s.consumers, jobs, id);
    assert OnePlace(s, id) && LedgerIsRight(s, id);
    if id in supports {
      var k := ReportedIsThere(s.responses, id);
      assert ResponseIsRight(s, s.responses[k]);
    }
  }

  /** Without consumers nothing is abandoned, and nothing is reported: not even that. */
  lemma NoConsumersAbandonNothing(supports: seq<ClaimId>, run: seq<Action>)
    requires Possible(supports, Initial(0), run)
    ensures var s := After(supports, Initial(0), run); s.responses == [] && s.ledger == map[]
  {
    InitialInv(supports, 0);
    RunKeepsInv(supports, Initial(0), run);
    var s := After(supports, Initial(0), run);
    assert |s.responses| > 0 ==> s.responses[0].id in s.ledger;
    forall id ensures id !in s.ledger {
      assert LedgerIsRight(s, id);
    }
  }

  /** A claim id stays with the consumer that took it: only that one asks the daemon about it. */
  lemma ClaimStaysWithItsConsumer(supports: seq<ClaimId>, s: State, a: Action, id: ClaimId)
    requires Inv(supports, s) && Enabled(supports, s, a) && id in s.ledger
    ensures var t := Apply(supports, s, a);
            && id in t.ledger && t.ledger[id].consumer == s.ledger[id].consumer
            && (t.ledger[id].answers != s.ledger[id].answers ==> a.Call? && a.consumer == s.ledger[id].consumer)
  {
    if a.Receive? {
      FirstIsCounted(s.queue);
      assert LedgerIsRight(s, s.queue[0]);
    } else if a.Call? || a.Report? {
      assert ConsumerIsRight(s, a.consumer);
    }
  }

  // The queues are large enough, and every schedule ends

  lemma {:induction false} BusyConsumerCounts(consumers: seq<Consumer>, i: nat, k: nat)
    requires i < k <= |consumers| && (consumers[i].Spending? || consumers[i].Reporting?)
    ensures Busy(consumers, k) > 0
  {
    if i < k - 1 {
      BusyConsumerCounts(consumers, i, k - 1);
    }
  }

  /** Nothing that is about to be sent ever meets a full queue. */
  lemma SendingNeverBlocks(supports: seq<ClaimId>, jobs: nat, run: seq<Action>)
    requires Possible(supports, Initial(jobs), run)
    ensures var s := After(supports, Initial(jobs), run);
            && |s.queue| <= |supports| && |s.responses| <= |supports|
            && (s.sending != [] ==> Enabled(supports, s, Send))
            && (forall i | 0 <= i < |s.consumers| && s.consumers[i].Reporting? :: Enabled(supports, s, Report(i)))
  {
    InitialInv(supports, jobs);
    RunKeepsInv(supports, Initial(jobs), run);
    var s := After(supports, Initial(jobs), run);
    forall i | 0 <= i < |s.consumers| && s.consumers[i].Reporting? ensures Enabled(supports, s, Report(i)) {
      BusyConsumerCounts(s.consumers, i, |s.consumers|);
    }
  }

  /** Until the end there is always a step to make, with any number of consumers, even none. */
  lemma NeverStuck(supports: seq<ClaimId>, jobs: nat, run: seq<Action>) returns (a: Action)
    requires Possible(supports, Initial(jobs), run) && !Finished(After(supports, Initial(jobs), run))
    ensures Enabled(supports, After(supports, Initial(jobs), run), a)
  {
    InitialInv(supports, jobs);
    RunKeepsInv(supports, Initial(jobs), run);
    SendingNeverBlocks(supports, jobs, run);
    var s := After(supports, Initial(jobs), run);
    if !s.closed {
      a := if s.sending != [] then Send else if s.scanned < |supports| then Scan else Close;
    } else {
      var i :| 0 <= i < |s.consumers| && !s.consumers[i].Exited?;
      assert ConsumerIsRight(s, i);
      a := if s.consumers[i].Spending? then Call(i, Refused)
           else if s.consumers[i].Reporting? then Report(i)
           else if s.queue == [] then Leave(i) else Receive(i);
    }
  }

  function Rank(c: Consumer): nat {
    match c
    case Exited => 0
    case Receiving => 1
    case Reporting(_) => 2
    case Spending(_, again) => if again then 3 else 4
  }

  function Ranks(consumers: seq<Consumer>, k: nat): nat
    requires k <= |consumers|
  {
    if k == 0 then 0 else Ranks(consumers, k - 1) + Rank(consumers[k - 1])
  }

  /** An upper bound on the steps that are left. */
  function Left(supports: seq<ClaimId>, s: State): int {
    6 * (|supports| - s.scanned) + 5 * |s.sending| + 4 * |s.queue| + Ranks(s.consumers, |s.consumers|) + (if s.closed then 0 else 1)
  }

  lemma {:induction false} RanksAfter(consumers: seq<Consumer>, i: nat, c: Consumer, k: nat)
    requires k <= |consumers| && i < |consumers|
    ensures Ranks(consumers[i := c], k) == Ranks(consumers, k) + if i < k then Rank(c) - Rank(consumers[i]) else 0
  {
    if k > 0 {
      RanksAfter(consumers, i, c, k - 1);
    }
  }

  lemma StepMakesProgress(supports: seq<ClaimId>, s: State, a: Action)
    requires Enabled(supports, s, a)
    ensures Left(supports, Apply(supports, s, a)) < Left(supports, s)
  {
    if a.Receive? || a.Leave? || a.Call? || a.Report? {
      RanksAfter(s.consumers, a.consumer, Apply(supports, s, a).consumers[a.consumer], |s.consumers|);
    }
  }

  lemma {:induction false} RunIsBounded(supports: seq<ClaimId>, s: State, run: seq<Action>)
    requires s.scanned <= |supports| && Possible(supports, s, run)
    ensures |run| <= Left(supports, s)
    decreases |run|
  {
    if run != [] {
      StepMakesProgress(supports, s, run[0]);
      RunIsBounded(supports, Apply(supports, s, run[0]), run[1..]);
    }
  }

  lemma {:induction false} InitialRanks(jobs: nat, k: nat)
    requires k <= jobs
    ensures Ranks(Initial(jobs).consumers, k) == k
  {
    if k > 0 {
      InitialRanks(jobs, k - 1);
    }
  }

  lemma EveryScheduleEnds(supports: seq<ClaimId>, jobs: nat, run: seq<Action>)
    requires Possible(supports, Initial(jobs), run)
    ensures |run| <= 6 * |supports| + jobs + 1
  {
    RunIsBounded(supports, Initial(jobs), run);
    InitialRanks(jobs, jobs);
  }

  // The amount returned

  function Sum(responses: seq<Response>): real {
    if responses == [] then 0.0
    else
      var r := responses[|responses| - 1];
      Sum(responses[..|responses| - 1]) + (if r.Abandoned? then r.amount else 0.0)
  }

  /** The loop over the responses, once their queue is closed. */
  method Total(responses: seq<Response>) returns (total: real)
    ensures total == Sum(responses)
  {
    total := 0.0;
    for k := 0 to |responses|
      invariant total == Sum(responses[..k])
    {
      assert responses[..k + 1][..k] == responses[..k];
      if responses[k].Abandoned? {
        total := total + responses[k].amount;
      }
    }
    assert responses[..|responses|] == responses;
  }

  /** The amounts of a list of claim ids. */
  function SumOver(ids: seq<ClaimId>, released: map<ClaimId, real>): real {
    if ids == [] then 0.0
    else
      var id := ids[|ids| - 1];
      SumOver(ids[..|ids| - 1], released) + (if id in released then released[id] else 0.0)
  }

  lemma {:induction false} CountedIsThere(ids: seq<ClaimId>, id: ClaimId) returns (k: nat)
    requires Count(ids, id) > 0
    ensures k < |ids| && ids[k] == id
  {
    if ids[|ids| - 1] == id {
      k := |ids| - 1;
    } else {
      k := CountedIsThere(ids[..|ids| - 1], id);
    }
  }

  lemma SomeCounted(ids: seq<ClaimId>) returns (id: ClaimId)
    ensures ids != [] ==> Count(ids, id) > 0
  {
    id := if ids == [] then ClaimId("") else ids[|ids| - 1];
  }

  lemma {:induction false} SumWithout(ids: seq<ClaimId>, k: nat, released: map<ClaimId, real>)
    requires k < |ids|
    ensures SumOver(ids, released) == SumOver(Without(ids, k), released) + (if ids[k] in released then released[ids[k]] else 0.0)
  {
    var n := |ids| - 1;
    if k == n {
      assert Without(ids, k) == ids[..n];
    } else {
      assert Without(ids, k)[..n - 1] == Without(ids[..n], k);
      assert Without(ids, k)[n - 1] == ids[n];
      SumWithout(ids[..n], k, released);
    }
  }

  lemma CountWithout(ids: seq<ClaimId>, k: nat, id: ClaimId)
    requires k < |ids|
    ensures Count(Without(ids, k), id) == Count(ids, id) - (if ids[k] == id then 1 else 0)
  {
    assert ids == ids[..k] + ([ids[k]] + ids[k + 1..]);
    CountOfConcat(ids[..k], [ids[k]] + ids[k + 1..], id);
    CountOfConcat([ids[k]], ids[k + 1..], id);
    CountOfConcat(ids[..k], ids[k + 1..], id);
  }

  /** The sum does not depend on the order in which the responses came in. */
  lemma {:induction false} SumInAnyOrder(responses: seq<Response>, ids: seq<ClaimId>, released: map<ClaimId, real>)
    requires forall id :: Reported(responses, id) == Count(ids, id)
    requires forall k | 0 <= k < |responses| ::
               responses[k].id in released && released[responses[k].id] == if responses[k].Abandoned? then responses[k].amount else 0.0
    ensures Sum(responses) == SumOver(ids, released)
  {
    if responses == [] {
      var id := SomeCounted(ids);
    } else {
      var rest, r := responses[..|responses| - 1], responses[|responses| - 1];
      assert Reported(responses, r.id) == Count(ids, r.id);
      var k := CountedIsThere(ids, r.id);
      forall id ensures Reported(rest, id) == Count(Without(ids, k), id) {
        assert Reported(responses, id) == Count(ids, id);
        CountWithout(ids, k, id);
      }
      SumInAnyOrder(rest, Without(ids, k), released);
      SumWithout(ids, k, released);
    }
  }

  /** What the daemon's last answer for each claim id says was released. */
  function Released(ledger: map<ClaimId, Entry>): map<ClaimId, real> {
    map id | id in ledger && ledger[id].answers != [] :: Amounts(Last(ledger[id].answers))
  }

  /** Whatever the schedule, the total is the sum of the amounts in the daemon's last answers for the
    * distinct claim ids, listed once each in any order. An answer counts for nothing if it is an error,
    * has no amounts, or has one that does not parse. */
  lemma TotalIsWhatWasReleased(supports: seq<ClaimId>, jobs: nat, run: seq<Action>, distinct: seq<ClaimId>)
    requires jobs > 0 && Possible(supports, Initial(jobs), run) && Finished(After(supports, Initial(jobs), run))
    requires forall id :: Count(distinct, id) == if id in supports then 1 else 0
    ensures var s := After(supports, Initial(jobs), run); Sum(s.responses) == SumOver(distinct, Released(s.ledger))
  {
    InitialInv(supports, jobs);
    RunKeepsInv(supports, Initial(jobs), run);
    var s := After(supports, Initial(jobs), run);
    forall id ensures Reported(s.responses, id) == Count(distinct, id) {
      EachClaimIsAbandonedOnce(supports, jobs, run, id);
    }
    assert forall k | 0 <= k < |s.responses| :: ResponseIsRight(s, s.responses[k]);
    SumInAnyOrder(s.responses, distinct, Released(s.ledger));
  }
}
