/** Where a channel's wallet lives, and which moves keep it from being lost.
  *
  * One machine has one wallet file (the slot). Every channel has at most one object on S3.
  * The daemon works on whatever file is in the slot. The code moves a wallet from S3 to the
  * slot, lets the daemon write to it, and moves it back. This module says what every move does
  * to the state, which states have lost nothing, and exactly when a move keeps it that way.
  */
module Custody {
  import opened Options

  type Channel = string

  /** A wallet file: the channel it was created for, and every entry ever written to it. */
  datatype Wallet = Wallet(owner: Channel, log: seq<nat>)

  /** `written[c]` is the history of everything any daemon wrote on behalf of channel `c`:
    * no program variable holds it, it is what must not get lost. */
  datatype State = State(
    slot: Option<Wallet>,
    s3: map<Channel, Wallet>,
    daemonUp: bool,
    written: map<Channel, seq<nat>>)

  datatype Action =
    | Fetch(c: Channel)             // download the object of `c` and rename it over the slot
    | Put(c: Channel)               // upload the file in the slot under the key of `c`
    | Clear                         // remove the file in the slot
    | Boot(c: Channel, seed: nat)   // the daemon comes up while `c` is processed; makes a file if there is none
    | Write(entry: nat)             // the running daemon writes to its file
    | Halt                          // the daemon process is gone

  function History(s: State, c: Channel): seq<nat> {
    if c in s.written then s.written[c] else []
  }

  /** What a move does, whether or not it is wise to make it in this state. */
  function Apply(s: State, a: Action): State {
    match a
    case Fetch(c) => if c in s.s3 then s.(slot := Some(s.s3[c])) else s
    case Put(c) => if s.slot.Some? then s.(s3 := s.s3[c := s.slot.value]) else s
    case Clear => s.(slot := None)
    case Boot(c, seed) =>
      if s.slot.Some? then s.(daemonUp := true)
      else s.(daemonUp := true,
              slot := Some(Wallet(c, [seed])),
              written := s.written[c := History(s, c) + [seed]])
    case Write(entry) =>
      if s.daemonUp && s.slot.Some? then
        var w := s.slot.value;
        s.(slot := Some(w.(log := w.log + [entry])),
           written := s.written[w.owner := History(s, w.owner) + [entry]])
      else s
    case Halt => s.(daemonUp := false)
  }

  /** What a move adds to the history of channel `c`: what a daemon writes to the channel's own file, or
    * makes it with. */
  function Gained(s: State, a: Action, c: Channel): seq<nat> {
    match a
    case Write(entry) => if s.daemonUp && s.slot.Some? && s.slot.value.owner == c then [entry] else []
    case Boot(d, seed) => if s.slot.None? && d == c then [seed] else []
    case _ => []
  }

  lemma HistoryGrows(s: State, a: Action, c: Channel)
    ensures History(Apply(s, a), c) == History(s, c) + Gained(s, a, c)
  {
  }

  /** Every stored object belongs to the channel it is stored under. */
  ghost predicate RightKeys(s: State) {
    forall c | c in s.s3 :: s.s3[c].owner == c
  }

  /** The complete wallet of `c` is in the slot or on S3. */
  ghost predicate Kept(s: State, c: Channel)
    requires c in s.written
  {
    var full := Wallet(c, s.written[c]);
    s.slot == Some(full) || (c in s.s3 && s.s3[c] == full)
  }

  /** No wallet is stored under a foreign key and no entry ever written is lost. */
  ghost predicate Safe(s: State) {
    && RightKeys(s)
    && forall c | c in s.written :: Kept(s, c)
  }

  /** The invariant: `Safe`, and the slot is never an outdated copy, nothing is on S3 that no
    * daemon wrote, a wallet has at least the entry it was created with, and a running daemon
    * has a file to work on. */
  ghost predicate Inv(s: State) {
    && Safe(s)
    && (s.slot.Some? ==> s.slot.value.owner in s.written && s.slot.value.log == s.written[s.slot.value.owner])
    && s.s3.Keys <= s.written.Keys
    && (forall c | c in s.written :: s.written[c] != [])
    && (s.daemonUp ==> s.slot.Some?)
  }

  /** The file in the slot, if any, is also on S3 under its owner's key. */
  predicate Backed(s: State) {
    s.slot.Some? ==> s.slot.value.owner in s.s3 && s.s3[s.slot.value.owner] == s.slot.value
  }

  /** When a move may be made without a loss. */
  predicate Guard(s: State, a: Action) {
    match a
    case Fetch(c) => c in s.s3 ==> Backed(s)
    case Put(c) => s.slot.Some? ==> s.slot.value.owner == c
    case Clear => Backed(s) && !s.daemonUp
    case Boot(c, _) => s.slot.None? ==> c !in s.s3
    case Write(_) => true
    case Halt => true
  }

  /** The guards are exact: from a good state a move leads to a good state if and only if its
    * guard held. */
  lemma GuardIsExact(s: State, a: Action)
    requires Inv(s)
    ensures Inv(Apply(s, a)) <==> Guard(s, a)
  {
    if Guard(s, a) {
      GuardKeepsInv(s, a);
    } else {
      UnguardedBreaksInv(s, a);
    }
  }

  lemma GuardKeepsInv(s: State, a: Action)
    requires Inv(s) && Guard(s, a)
    ensures Inv(Apply(s, a))
  {
    var t := Apply(s, a);
    forall c | c in t.written ensures Kept(t, c) {
      if c in s.written {
        assert Kept(s, c);
      }
      if a.Boot? && s.slot.None? {
        assert [] + [a.seed] == [a.seed];
      }
    }
  }

  /** Without its guard every move loses a wallet or files one under a foreign key, but for one: taking
    * the file, when S3 has it, from under a running daemon leaves that daemon without its file. */
  lemma UnguardedBreaksInv(s: State, a: Action)
    requires Inv(s) && !Guard(s, a)
    ensures !Inv(Apply(s, a))
    ensures (a.Clear? && Backed(s)) || !Safe(Apply(s, a))
  {
    var t := Apply(s, a);
    match a {
      case Fetch(c) =>
        assert Kept(s, s.slot.value.owner);
        assert !Kept(t, s.slot.value.owner);
      case Put(c) =>
        assert t.s3[c].owner != c;
      case Clear =>
        if !Backed(s) {
          assert !Kept(t, s.slot.value.owner);
        }
      case Boot(c, seed) =>
        assert Kept(s, c);
        assert |t.written[c]| == |s.written[c]| + 1 > 1;
        assert !Kept(t, c);
    }
  }

  // Runs

  function Exec(s: State, run: seq<Action>): State {
    if run == [] then s else Apply(Exec(s, run[..|run| - 1]), run[|run| - 1])
  }

  /** Every move of the run was made in a state that allowed it. */
  ghost predicate Guarded(s: State, run: seq<Action>) {
    forall i | 0 <= i < |run| :: Guard(Exec(s, run[..i]), run[i])
  }

  lemma {:induction false} GuardedRunKeepsInv(s: State, run: seq<Action>)
    requires Inv(s) && Guarded(s, run)
    ensures Inv(Exec(s, run))
  {
    if run != [] {
      var front := run[..|run| - 1];
      forall i | 0 <= i < |front| ensures Guard(Exec(s, front[..i]), front[i]) {
        assert front[..i] == run[..i];
      }
      GuardedRunKeepsInv(s, front);
      GuardKeepsInv(Exec(s, front), run[|run| - 1]);
    }
  }

  /** A run may be cut at any move, by a crash of the process or of the machine: nothing is
    * lost at that point, and the state left behind is one a new run may start from. */
  lemma CutAnywhereLosesNothing(s: State, run: seq<Action>, k: nat)
    requires Inv(s) && Guarded(s, run) && k <= |run|
    ensures Guarded(s, run[..k]) && Inv(Exec(s, run[..k])) && Safe(Exec(s, run[..k]))
  {
    var cut := run[..k];
    forall i | 0 <= i < |cut| ensures Guard(Exec(s, cut[..i]), cut[i]) {
      assert cut[..i] == run[..i];
    }
    GuardedRunKeepsInv(s, cut);
  }

  /** What the code makes sure of before a move. It asks for more than the guard in one case: it only
    * ever downloads into an empty slot. */
  predicate Checked(s: State, a: Action) {
    if a.Fetch? then s.slot.None? else Guard(s, a)
  }

  lemma CheckedIsGuarded(s: State, a: Action)
    requires Checked(s, a)
    ensures Guard(s, a)
  {
  }

  /** Every download of the run found the slot empty: none overwrote a wallet. */
  ghost predicate FetchesFillAnEmptySlot(s: State, run: seq<Action>) {
    forall i | 0 <= i < |run| && run[i].Fetch? :: Exec(s, run[..i]).slot.None?
  }

  /** Every move of the run was checked. */
  predicate CheckedRun(s: State, run: seq<Action>) {
    run == [] || var before := run[..|run| - 1];
    CheckedRun(s, before) && Checked(Exec(s, before), run[|run| - 1])
  }

  lemma {:induction false} CheckedAt(s: State, run: seq<Action>, i: nat)
    requires CheckedRun(s, run) && i < |run|
    ensures Checked(Exec(s, run[..i]), run[i])
  {
    if i < |run| - 1 {
      assert run[..|run| - 1][..i] == run[..i];
      CheckedAt(s, run[..|run| - 1], i);
    }
  }

  lemma CheckedRunIsRight(s: State, run: seq<Action>)
    requires CheckedRun(s, run)
    ensures Guarded(s, run) && FetchesFillAnEmptySlot(s, run)
  {
    forall i | 0 <= i < |run|
      ensures Guard(Exec(s, run[..i]), run[i]) && (run[i].Fetch? ==> Exec(s, run[..i]).slot.None?)
    {
      CheckedAt(s, run, i);
      CheckedIsGuarded(Exec(s, run[..i]), run[i]);
    }
  }

  /** The run leads from a good state to `t`, and every move of it was checked. */
  ghost predicate Leads(s: State, run: seq<Action>, t: State) {
    Inv(s) && CheckedRun(s, run) && Exec(s, run) == t
  }

  lemma OneMoreMove(s: State, run: seq<Action>, t: State, a: Action)
    requires Leads(s, run, t) && Checked(t, a)
    ensures Leads(s, run + [a], Apply(t, a))
  {
    assert (run + [a])[..|run|] == run;
  }
}
