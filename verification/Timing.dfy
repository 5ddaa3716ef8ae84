/** Concurrent calls of `Timing.Add`: atomic additions, and compare-and-swap loops for the bounds.
  *
  * Call `i` adds `ds[i]` milliseconds. A schedule says which call makes the next atomic step.
  */
module Timing {

  datatype Pc =
    | Start                 // about to add to the total
    | ReadMin               // about to load the minimum
    | SwapMin(seen: int)    // about to swap it, having loaded `seen`
    | ReadMax
    | SwapMax(seen: int)
    | Count                 // about to count the invocation
    | Done

  datatype State = State(milliseconds: int, min: int, max: int, invocations: int, calls: seq<Pc>)

  const INITIAL_MIN := 99999999

  // Go's counters wrap around

  function Wrap64(x: int): int {
    (x + 0x8000_0000_0000_0000) % 0x1_0000_0000_0000_0000 - 0x8000_0000_0000_0000
  }

  function Wrap32(x: int): int {
    (x + 0x8000_0000) % 0x1_0000_0000 - 0x8000_0000
  }

  function Initial(n: nat): State {
    State(0, INITIAL_MIN, 0, 0, seq(n, _ => Start))
  }

  /** The next atomic step of call `i`. */
  function Step(s: State, ds: seq<int>, i: nat): State
    requires i < |s.calls| == |ds| && s.calls[i] != Done
  {
    var d := ds[i];
    match s.calls[i]
    case Start => s.(milliseconds := Wrap64(s.milliseconds + d), calls := s.calls[i := ReadMin])
    case ReadMin => s.(calls := s.calls[i := if d < s.min then SwapMin(s.min) else ReadMax])
    case SwapMin(seen) =>
      if s.min == seen then s.(min := d, calls := s.calls[i := ReadMax]) else s.(calls := s.calls[i := ReadMin])
    case ReadMax => s.(calls := s.calls[i := if d > s.max then SwapMax(s.max) else Count])
    case SwapMax(seen) =>
      if s.max == seen then s.(max := d, calls := s.calls[i := Count]) else s.(calls := s.calls[i := ReadMax])
    case Count => s.(invocations := Wrap32(s.invocations + 1), calls := s.calls[i := Done])
  }

  // What every step keeps

  predicate PastMin(pc: Pc) {
    pc.ReadMax? || pc.SwapMax? || pc.Count? || pc.Done?
  }

  predicate PastMax(pc: Pc) {
    pc.Count? || pc.Done?
  }

  /** The total of the durations of the calls, among the first `k`, that have been added. */
  function Added(calls: seq<Pc>, ds: seq<int>, k: nat): int
    requires k <= |calls| == |ds|
  {
    if k == 0 then 0 else Added(calls, ds, k - 1) + (if calls[k - 1].Start? then 0 else ds[k - 1])
  }

  function Finished(calls: seq<Pc>, k: nat): nat
    requires k <= |calls|
  {
    if k == 0 then 0 else Finished(calls, k - 1) + (if calls[k - 1].Done? then 1 else 0)
  }

  /** The bound is its initial value or the duration of a call that is past it, and no such call's
    * duration is beyond it. */
  ghost predicate MinIsRight(s: State, ds: seq<int>)
    requires |s.calls| == |ds|
  {
    && s.min <= INITIAL_MIN
    && (forall i | 0 <= i < |ds| && PastMin(s.calls[i]) :: s.min <= ds[i])
    && (s.min == INITIAL_MIN || exists i :: 0 <= i < |ds| && PastMin(s.calls[i]) && s.min == ds[i])
  }

  ghost predicate MaxIsRight(s: State, ds: seq<int>)
    requires |s.calls| == |ds|
  {
    && s.max >= 0
    && (forall i | 0 <= i < |ds| && PastMax(s.calls[i]) :: ds[i] <= s.max)
    && (s.max == 0 || exists i :: 0 <= i < |ds| && PastMax(s.calls[i]) && s.max == ds[i])
  }

  /** A call that is about to swap loaded a bound that its duration improves on, and the bound has
    * since moved, if at all, further the same way. */
  ghost predicate SeenIsOld(s: State, ds: seq<int>)
    requires |s.calls| == |ds|
  {
    && (forall i | 0 <= i < |ds| && s.calls[i].SwapMin? :: ds[i] < s.calls[i].seen && s.min <= s.calls[i].seen <= INITIAL_MIN)
    && (forall i | 0 <= i < |ds| && s.calls[i].SwapMax? :: ds[i] > s.calls[i].seen && s.max >= s.calls[i].seen >= 0)
  }

  ghost predicate Inv(s: State, ds: seq<int>) {
    && |s.calls| == |ds|
    && MinIsRight(s, ds) && MaxIsRight(s, ds) && SeenIsOld(s, ds)
    && s.milliseconds == Wrap64(Added(s.calls, ds, |ds|))
    && s.invocations == Wrap32(Finished(s.calls, |ds|))
  }

  lemma {:induction false} AddedAfter(calls: seq<Pc>, ds: seq<int>, k: nat, i: nat, pc: Pc)
    requires k <= |calls| == |ds| && i < |calls| && !pc.Start?
    ensures Added(calls[i := pc], ds, k) == Added(calls, ds, k) + (if i < k && calls[i].Start? then ds[i] else 0)
  {
    if k > 0 {
      AddedAfter(calls, ds, k - 1, i, pc);
    }
  }

  lemma {:induction false} FinishedAfter(calls: seq<Pc>, k: nat, i: nat, pc: Pc)
    requires k <= |calls| && i < |calls| && !calls[i].Done?
    ensures Finished(calls[i := pc], k) == Finished(calls, k) + (if i < k && pc.Done? then 1 else 0)
  {
    if k > 0 {
      FinishedAfter(calls, k - 1, i, pc);
    }
  }

  lemma {:induction false} InitialInv(ds: seq<int>)
    ensures Inv(Initial(|ds|), ds)
  {
    NothingYet(ds, |ds|);
  }

  lemma {:induction false} NothingYet(ds: seq<int>, k: nat)
    requires k <= |ds|
    ensures Added(Initial(|ds|).calls, ds, k) == 0 && Finished(Initial(|ds|).calls, k) == 0
  {
    if k > 0 {
      NothingYet(ds, k - 1);
    }
  }

  lemma StepKeepsMin(s: State, ds: seq<int>, i: nat)
    requires |s.calls| == |ds| && MinIsRight(s, ds) && SeenIsOld(s, ds) && i < |ds| && s.calls[i] != Done
    ensures MinIsRight(Step(s, ds, i), ds)
  {
    var t := Step(s, ds, i);
    if s.min != INITIAL_MIN {
      var j :| 0 <= j < |ds| && PastMin(s.calls[j]) && s.min == ds[j];
      assert PastMin(t.calls[j]);
    }
    assert t.min == s.min || (PastMin(t.calls[i]) && t.min == ds[i]);
  }

  lemma StepKeepsMax(s: State, ds: seq<int>, i: nat)
    requires |s.calls| == |ds| && MaxIsRight(s, ds) && SeenIsOld(s, ds) && i < |ds| && s.calls[i] != Done
    ensures MaxIsRight(Step(s, ds, i), ds)
  {
    var t := Step(s, ds, i);
    if s.max != 0 {
      var j :| 0 <= j < |ds| && PastMax(s.calls[j]) && s.max == ds[j];
      assert PastMax(t.calls[j]);
    }
    assert t.max == s.max || (PastMax(t.calls[i]) && t.max == ds[i]);
  }

  lemma StepKeepsSeen(s: State, ds: seq<int>, i: nat)
    requires |s.calls| == |ds| && s.min <= INITIAL_MIN && 0 <= s.max && SeenIsOld(s, ds) && i < |ds| && s.calls[i] != Done
    ensures SeenIsOld(Step(s, ds, i), ds)
  {
  }

  lemma Wrap64Once(x: int, y: int)
    ensures Wrap64(Wrap64(x) + y) == Wrap64(x + y)
  {
    var k := (x + 0x8000_0000_0000_0000) / 0x1_0000_0000_0000_0000;
    assert Wrap64(x) == x - k * 0x1_0000_0000_0000_0000;
  }

  lemma Wrap32Once(x: int, y: int)
    ensures Wrap32(Wrap32(x) + y) == Wrap32(x + y)
  {
    var k := (x + 0x8000_0000) / 0x1_0000_0000;
    assert Wrap32(x) == x - k * 0x1_0000_0000;
  }

  lemma StepKeepsCounters(s: State, ds: seq<int>, i: nat)
    requires |s.calls| == |ds| && i < |ds| && s.calls[i] != Done
    requires s.milliseconds == Wrap64(Added(s.calls, ds, |ds|)) && s.invocations == Wrap32(Finished(s.calls, |ds|))
    ensures var t := Step(s, ds, i);
            t.milliseconds == Wrap64(Added(t.calls, ds, |ds|)) && t.invocations == Wrap32(Finished(t.calls, |ds|))
  {
    var t := Step(s, ds, i);
    assert t.calls == s.calls[i := t.calls[i]];
    AddedAfter(s.calls, ds, |ds|, i, t.calls[i]);
    FinishedAfter(s.calls, |ds|, i, t.calls[i]);
    Wrap64Once(Added(s.calls, ds, |ds|), ds[i]);
    Wrap32Once(Finished(s.calls, |ds|), 1);
  }

  lemma StepKeepsInv(s: State, ds: seq<int>, i: nat)
    requires Inv(s, ds) && i < |ds| && s.calls[i] != Done
    ensures Inv(Step(s, ds, i), ds)
  {
    StepKeepsMin(s, ds, i);
    StepKeepsMax(s, ds, i);
    StepKeepsSeen(s, ds, i);
    StepKeepsCounters(s, ds, i);
  }

  /** A compare-and-swap fails only because another call has moved the bound past what was loaded. */
  lemma FailedSwapMeansAnotherMoved(s: State, ds: seq<int>, i: nat) returns (j: nat)
    requires Inv(s, ds) && i < |ds|
    requires (s.calls[i].SwapMin? && s.min != s.calls[i].seen) || (s.calls[i].SwapMax? && s.max != s.calls[i].seen)
    ensures j < |ds| && j != i
    ensures s.calls[i].SwapMin? ==> PastMin(s.calls[j]) && ds[j] == s.min < s.calls[i].seen
    ensures s.calls[i].SwapMax? ==> PastMax(s.calls[j]) && ds[j] == s.max > s.calls[i].seen
  {
    if s.calls[i].SwapMin? {
      j :| j < |ds| && PastMin(s.calls[j]) && s.min == ds[j];
    } else {
      j :| j < |ds| && PastMax(s.calls[j]) && s.max == ds[j];
    }
  }

  // Runs

  ghost predicate Possible(s: State, ds: seq<int>, schedule: seq<nat>)
    requires |s.calls| == |ds|
    decreases |schedule|
  {
    schedule == [] ||
    (schedule[0] < |ds| && s.calls[schedule[0]] != Done && Possible(Step(s, ds, schedule[0]), ds, schedule[1..]))
  }

  ghost function Run(s: State, ds: seq<int>, schedule: seq<nat>): (t: State)
    requires |s.calls| == |ds| && Possible(s, ds, schedule)
    ensures |t.calls| == |ds|
    decreases |schedule|
  {
    if schedule == [] then s else Run(Step(s, ds, schedule[0]), ds, schedule[1..])
  }

  /** One step more leads where that step does from where the run had led. */
  lemma {:induction false} OneMoreStep(s: State, ds: seq<int>, schedule: seq<nat>, i: nat)
    requires |s.calls| == |ds| && Possible(s, ds, schedule) && i < |ds| && Run(s, ds, schedule).calls[i] != Done
    ensures Possible(s, ds, schedule + [i])
    ensures Run(s, ds, schedule + [i]) == Step(Run(s, ds, schedule), ds, i)
    decreases |schedule|
  {
    if schedule == [] {
      assert (schedule + [i])[1..] == [];
    } else {
      assert (schedule + [i])[1..] == schedule[1..] + [i];
      OneMoreStep(Step(s, ds, schedule[0]), ds, schedule[1..], i);
    }
  }

  lemma {:induction false} RunKeepsInv(s: State, ds: seq<int>, schedule: seq<nat>)
    requires Inv(s, ds) && Possible(s, ds, schedule)
    ensures Inv(Run(s, ds, schedule), ds)
    decreases |schedule|
  {
    if schedule != [] {
      StepKeepsInv(s, ds, schedule[0]);
      RunKeepsInv(Step(s, ds, schedule[0]), ds, schedule[1..]);
    }
  }

  /** At every moment of every run, the duration of a finished call lies between the bounds. */
  lemma FinishedCallIsWithinBounds(ds: seq<int>, schedule: seq<nat>, i: nat)
    requires Possible(Initial(|ds|), ds, schedule) && i < |ds|
    requires Run(Initial(|ds|), ds, schedule).calls[i].Done?
    ensures var t := Run(Initial(|ds|), ds, schedule); t.min <= ds[i] <= t.max
  {
    InitialInv(ds);
    RunKeepsInv(Initial(|ds|), ds, schedule);
  }

  // The values that the calls are to leave behind

  function Sum(ds: seq<int>): int {
    if ds == [] then 0 else Sum(ds[..|ds| - 1]) + ds[|ds| - 1]
  }

  function LeastOf(bound: int, ds: seq<int>): int {
    if ds == [] then bound else var m := LeastOf(bound, ds[..|ds| - 1]); if ds[|ds| - 1] < m then ds[|ds| - 1] else m
  }

  function GreatestOf(bound: int, ds: seq<int>): int {
    if ds == [] then bound else var m := GreatestOf(bound, ds[..|ds| - 1]); if ds[|ds| - 1] > m then ds[|ds| - 1] else m
  }

  predicate AllDone(calls: seq<Pc>) {
    forall i | 0 <= i < |calls| :: calls[i].Done?
  }

  lemma {:induction false} AllAdded(calls: seq<Pc>, ds: seq<int>, k: nat)
    requires k <= |calls| == |ds| && AllDone(calls)
    ensures Added(calls, ds, k) == Sum(ds[..k]) && Finished(calls, k) == k
  {
    if k > 0 {
      AllAdded(calls, ds, k - 1);
      assert ds[..k][..k - 1] == ds[..k - 1];
    }
  }

  lemma {:induction false} LeastOfBounds(bound: int, ds: seq<int>)
    ensures LeastOf(bound, ds) <= bound && (forall i | 0 <= i < |ds| :: LeastOf(bound, ds) <= ds[i])
    ensures LeastOf(bound, ds) == bound || LeastOf(bound, ds) in ds
  {
    if ds != [] {
      var init := ds[..|ds| - 1];
      LeastOfBounds(bound, init);
      assert forall i | 0 <= i < |init| :: ds[i] == init[i];
    }
  }

  lemma {:induction false} GreatestOfBounds(bound: int, ds: seq<int>)
    ensures GreatestOf(bound, ds) >= bound && (forall i | 0 <= i < |ds| :: GreatestOf(bound, ds) >= ds[i])
    ensures GreatestOf(bound, ds) == bound || GreatestOf(bound, ds) in ds
  {
    if ds != [] {
      var init := ds[..|ds| - 1];
      GreatestOfBounds(bound, init);
      assert forall i | 0 <= i < |init| :: ds[i] == init[i];
    }
  }

  lemma QuietMin(s: State, ds: seq<int>)
    requires |s.calls| == |ds| && AllDone(s.calls) && MinIsRight(s, ds)
    ensures s.min == LeastOf(INITIAL_MIN, ds)
  {
    LeastOfBounds(INITIAL_MIN, ds);
    assert forall i | 0 <= i < |ds| :: s.calls[i].Done?;
  }

  lemma QuietMax(s: State, ds: seq<int>)
    requires |s.calls| == |ds| && AllDone(s.calls) && MaxIsRight(s, ds)
    ensures s.max == GreatestOf(0, ds)
  {
    GreatestOfBounds(0, ds);
    assert forall i | 0 <= i < |ds| :: s.calls[i].Done?;
  }

  lemma QuietInvIsExact(t: State, ds: seq<int>)
    requires Inv(t, ds) && AllDone(t.calls)
    ensures t.milliseconds == Wrap64(Sum(ds)) && t.invocations == Wrap32(|ds|)
    ensures t.min == LeastOf(INITIAL_MIN, ds) && t.max == GreatestOf(0, ds)
  {
    AllAdded(t.calls, ds, |ds|);
    assert ds[..|ds|] == ds;
    QuietMin(t, ds);
    QuietMax(t, ds);
  }

  /** Whatever the interleaving: once all calls are done, the counters hold the sum and the number of
    * the durations, and the bounds are the least (at most the initial one) and the greatest. */
  lemma QuietStateIsExact(ds: seq<int>, schedule: seq<nat>)
    requires Possible(Initial(|ds|), ds, schedule)
    requires AllDone(Run(Initial(|ds|), ds, schedule).calls)
    ensures var t := Run(Initial(|ds|), ds, schedule);
            && t.milliseconds == Wrap64(Sum(ds)) && t.invocations == Wrap32(|ds|)
            && t.min == LeastOf(INITIAL_MIN, ds) && t.max == GreatestOf(0, ds)
  {
    InitialInv(ds);
    RunKeepsInv(Initial(|ds|), ds, schedule);
    QuietInvIsExact(Run(Initial(|ds|), ds, schedule), ds);
  }

  // No schedule goes on for ever

  /** How much a call has before it. A call about to swap a bound that has moved has one more round to go;
    * a swap that succeeds pays for the rounds it may cause in the other calls. */
  function Rank(pc: Pc, min: int, max: int, n: nat): nat {
    match pc
    case Start => 4 * n + 8
    case ReadMin => 4 * n + 6
    case SwapMin(seen) => if seen == min then 4 * n + 5 else 4 * n + 7
    case ReadMax => 2 * n + 3
    case SwapMax(seen) => if seen == max then 2 * n + 2 else 2 * n + 4
    case Count => 1
    case Done => 0
  }

  function Remaining(s: State, k: nat): nat
    requires k <= |s.calls|
  {
    if k == 0 then 0 else Remaining(s, k - 1) + Rank(s.calls[k - 1], s.min, s.max, |s.calls|)
  }

  /** If the bounds stay, only the stepping call's rank changes; otherwise others gain at most 2 each. */
  lemma {:induction false} RemainingAfter(s: State, t: State, i: nat, k: nat)
    requires k <= |s.calls| == |t.calls| && i < |s.calls| && t.calls == s.calls[i := t.calls[i]]
    ensures var n := |s.calls|;
            var gain := if s.min == t.min && s.max == t.max then 0 else 2;
            Remaining(t, k) <= Remaining(s, k) + gain * k
            + (if i < k then Rank(t.calls[i], t.min, t.max, n) - Rank(s.calls[i], s.min, s.max, n) - gain else 0)
  {
    if k > 0 {
      RemainingAfter(s, t, i, k - 1);
    }
  }

  lemma StepMakesProgress(s: State, ds: seq<int>, i: nat)
    requires |s.calls| == |ds| && i < |ds| && s.calls[i] != Done
    ensures Remaining(Step(s, ds, i), |ds|) < Remaining(s, |ds|)
  {
    RemainingAfter(s, Step(s, ds, i), i, |ds|);
  }

  lemma {:induction false} RunIsBounded(s: State, ds: seq<int>, schedule: seq<nat>)
    requires |s.calls| == |ds| && Possible(s, ds, schedule)
    ensures |schedule| <= Remaining(s, |ds|)
    decreases |schedule|
  {
    if schedule != [] {
      StepMakesProgress(s, ds, schedule[0]);
      RunIsBounded(Step(s, ds, schedule[0]), ds, schedule[1..]);
    }
  }

  lemma {:induction false} InitialRemaining(n: nat, k: nat)
    requires k <= n
    ensures Remaining(Initial(n), k) == k * (4 * n + 8)
  {
    if k > 0 {
      InitialRemaining(n, k - 1);
    }
  }

  /** `n` concurrent calls are all done after at most `n * (4n + 8)` atomic steps, in every schedule: a
    * call that is not done can always step, and no schedule is longer. */
  lemma EveryScheduleEnds(ds: seq<int>, schedule: seq<nat>)
    requires Possible(Initial(|ds|), ds, schedule)
    ensures |schedule| <= |ds| * (4 * |ds| + 8)
  {
    RunIsBounded(Initial(|ds|), ds, schedule);
    InitialRemaining(|ds|, |ds|);
  }
}
