/** Which of several claims for one video is the one to keep. */
module Ranking {
  import opened Options
  import opened Collections

  datatype Entry = Entry(video: Option<string>, height: int)

  /** Entry `j` of the list wins over entry `i`: same video, and higher, or as high and earlier. */
  predicate Beats(es: seq<Entry>, j: nat, i: nat)
    requires i < |es| && j < |es|
  {
    && es[i].video.Some? && es[j].video == es[i].video
    && (es[j].height > es[i].height || (es[j].height == es[i].height && j < i))
  }

  ghost predicate Kept(es: seq<Entry>, i: nat)
    requires i < |es|
  {
    es[i].video.Some? && forall j: nat | j < |es| :: !Beats(es, j, i)
  }

  ghost predicate Lost(es: seq<Entry>, i: nat)
    requires i < |es|
  {
    exists j: nat | j < |es| :: Beats(es, j, i)
  }

  /** Every claim for a video is either kept or lost; of the claims for one video exactly one is
    * kept, it is as high as any of them, and no earlier one is as high. */
  lemma {:induction false} OneKeptPerVideo(es: seq<Entry>, i: nat) returns (k: nat)
    requires i < |es| && es[i].video.Some?
    ensures k < |es| && Kept(es, k) && es[k].video == es[i].video
    ensures forall m: nat | m < |es| && es[m].video == es[i].video ::
              && (m != k ==> Lost(es, m) && !Kept(es, m))
              && es[m].height <= es[k].height
              && (m < k ==> es[m].height < es[k].height)
  {
    k := BestBefore(es, i, |es|);
    forall m: nat | m < |es| && es[m].video == es[i].video && m != k ensures Lost(es, m) {
      assert !Beats(es, m, k);
      assert Beats(es, k, m);
    }
    assert forall m: nat | m < |es| && es[m].video == es[i].video :: !Beats(es, m, k);
  }

  lemma {:induction false} BestBefore(es: seq<Entry>, i: nat, n: nat) returns (k: nat)
    requires i < |es| && n <= |es| && es[i].video.Some?
    ensures k < |es| && es[k].video == es[i].video
    ensures forall j: nat | j < n :: !Beats(es, j, k)
    decreases n
  {
    k := i;
    if n > 0 {
      k := BestBefore(es, i, n - 1);
      var last: nat := n - 1;
      if Beats(es, last, k) {
        forall j: nat | j < n ensures !Beats(es, j, last) {
          if Beats(es, j, last) {
            assert Beats(es, j, k);
          }
        }
        k := last;
      }
    }
  }

  // One pass over a list, remembering the best entry of each video so far

  /** The place of the best entry for video `v` among the first `n`. */
  ghost function Best(es: seq<Entry>, n: nat, v: string): (b: Option<nat>)
    requires n <= |es|
    ensures b.Some? ==> b.value < n && es[b.value].video == Some(v)
  {
    if n == 0 then None
    else
      var b := Best(es, n - 1, v);
      if es[n - 1].video == Some(v) && (b.None? || es[n - 1].height > es[b.value].height) then Some(n - 1) else b
  }

  /** The place that is out of the running once entry `n` is seen, if there is one. */
  ghost function LoserAt(es: seq<Entry>, n: nat): (l: Option<nat>)
    requires n < |es|
    ensures l.Some? ==> l.value <= n
  {
    if es[n].video.None? then None
    else
      var b := Best(es, n, es[n].video.value);
      if b.None? then None else if es[n].height > es[b.value].height then b else Some(n)
  }

  lemma {:induction false} BestIsUnbeaten(es: seq<Entry>, n: nat, v: string, j: nat)
    requires j < n <= |es| && es[j].video == Some(v)
    ensures Best(es, n, v).Some? && !Beats(es, j, Best(es, n, v).value)
  {
    if j < n - 1 {
      BestIsUnbeaten(es, n - 1, v, j);
    }
  }

  lemma LoserLoses(es: seq<Entry>, n: nat)
    requires n < |es| && LoserAt(es, n).Some?
    ensures Lost(es, LoserAt(es, n).value)
  {
    var b := Best(es, n, es[n].video.value).value;
    assert Beats(es, n, b) || Beats(es, b, n);
  }

  /** A pass over a list of items: their entries, which of them may be removed, and the items that
    * were there when the pass began. */
  datatype Pass<!T(==)> = Pass(items: seq<T>, es: seq<Entry>, ours: seq<bool>, live: set<T>)
  {
    ghost predicate Valid() {
      |es| == |items| == |ours|
    }

    /** The items, among the first `n`, that lose against another one and may be removed. */
    ghost function DoomedAmong(n: nat): set<T>
      requires Valid() && n <= |items|
    {
      if n == 0 then {} else DoomedAmong(n - 1) + (if Lost(es, n - 1) && ours[n - 1] then {items[n - 1]} else {})
    }

    ghost function Doomed(): set<T>
      requires Valid()
    {
      DoomedAmong(|items|)
    }

    lemma {:induction false} DoomedHas(n: nat, i: nat)
      requires Valid() && i < n <= |items| && Lost(es, i) && ours[i]
      ensures items[i] in DoomedAmong(n)
    {
      if i < n - 1 {
        DoomedHas(n - 1, i);
      }
    }

    lemma {:induction false} DoomedIs(n: nat, c: T) returns (i: nat)
      requires Valid() && n <= |items| && c in DoomedAmong(n)
      ensures i < n && Lost(es, i) && ours[i] && items[i] == c
    {
      if c in DoomedAmong(n - 1) {
        i := DoomedIs(n - 1, c);
      } else {
        i := n - 1;
      }
    }

    /** The item that goes when item `n` is seen: the loser, if it may be removed. */
    ghost function GoesAt(n: nat): set<T>
      requires Valid() && n < |items|
    {
      var l := LoserAt(es, n);
      if l.Some? && ours[l.value] then {items[l.value]} else {}
    }

    /** What is still there after `n` items. */
    ghost function Now(n: nat): set<T>
      requires Valid() && n <= |items|
    {
      if n == 0 then live else Now(n - 1) - GoesAt(n - 1)
    }

    /** Whether anything was removed. */
    ghost predicate Any(n: nat)
      requires Valid() && n <= |items|
    {
      n > 0 && (Any(n - 1) || GoesAt(n - 1) != {})
    }

    /** The best item of each video among the first `n`. */
    ghost function Kept(n: nat): map<string, T>
      requires Valid() && n <= |items|
    {
      if n == 0 then map[]
      else if es[n - 1].video.Some? && LoserAt(es, n - 1) != Some(n - 1) then Kept(n - 1)[es[n - 1].video.value := items[n - 1]]
      else Kept(n - 1)
    }

    lemma {:induction false} KeptIsBest(n: nat, v: string)
      requires Valid() && n <= |items|
      ensures v in Kept(n) <==> Best(es, n, v).Some?
      ensures v in Kept(n) ==> Kept(n)[v] == items[Best(es, n, v).value]
    {
      if n > 0 {
        KeptIsBest(n - 1, v);
      }
    }

    lemma {:induction false} OnlyDoomedGo(n: nat)
      requires Valid() && n <= |items|
      ensures live - Doomed() <= Now(n) <= live
      ensures Any(n) ==> Doomed() != {}
    {
      if n > 0 {
        OnlyDoomedGo(n - 1);
        var l := LoserAt(es, n - 1);
        if l.Some? && ours[l.value] {
          LoserLoses(es, n - 1);
          DoomedHas(|items|, l.value);
        }
      }
    }

    lemma {:induction false} LoserGoes(n: nat, i: nat)
      requires Valid() && i < n <= |items| && ours[i] && es[i].video.Some?
      requires Best(es, n, es[i].video.value) != Some(i)
      ensures items[i] !in Now(n) && Any(n)
      decreases n
    {
      if i < n - 1 && Best(es, n - 1, es[i].video.value) != Some(i) {
        LoserGoes(n - 1, i);
      } else {
        assert LoserAt(es, n - 1) == Some(i);
        assert items[i] in GoesAt(n - 1);
      }
    }

    /** After the whole list exactly the doomed items are gone. */
    lemma AllDoomedGo()
      requires Valid()
      ensures Now(|items|) == live - Doomed()
      ensures Any(|items|) <==> Doomed() != {}
    {
      OnlyDoomedGo(|items|);
      forall c | c in Doomed() ensures c !in Now(|items|) && Any(|items|) {
        var i := DoomedIs(|items|, c);
        var j: nat :| j < |es| && Beats(es, j, i);
        BestIsUnbeaten(es, |es|, es[i].video.value, j);
        LoserGoes(|items|, i);
      }
    }

    /** The best item of a video stays, and every other item of the video goes if it may be removed. */
    lemma BestStays(i: nat) returns (k: nat)
      requires Valid() && NoRepeats(items) && i < |items| && es[i].video.Some?
      ensures k < |items| && es[k].video == es[i].video && items[k] !in Doomed()
      ensures forall m: nat | m < |items| && es[m].video == es[i].video ::
                es[m].height <= es[k].height && (m != k && ours[m] ==> items[m] in Doomed())
    {
      k := OneKeptPerVideo(es, i);
      if items[k] in Doomed() {
        var m := DoomedIs(|items|, items[k]);
      }
      forall m: nat | m < |items| && es[m].video == es[i].video && m != k && ours[m] ensures items[m] in Doomed() {
        DoomedHas(|items|, m);
      }
    }
  }

  // Running the selection again on what is left

  /** `out` is `es` without some entries, in the same order: entry `k` of `out` is entry `at[k]`. */
  ghost predicate Thinned(es: seq<Entry>, out: seq<Entry>, at: seq<nat>) {
    && |at| == |out|
    && (forall k | 0 <= k < |out| :: at[k] < |es| && out[k] == es[at[k]])
    && (forall k, l | 0 <= k < l < |out| :: at[k] < at[l])
  }

  /** Removing lost entries changes nothing for the rest: the survivors of one pass keep and lose
    * in a second pass exactly what they kept and lost in the first. */
  lemma SecondPassDecidesTheSame(es: seq<Entry>, out: seq<Entry>, at: seq<nat>, k: nat)
    requires Thinned(es, out, at) && k < |out|
    requires forall i: nat | i < |es| && Kept(es, i) :: i in at
    ensures Lost(out, k) <==> Lost(es, at[k])
    ensures Kept(out, k) <==> Kept(es, at[k])
  {
    if j: nat :| j < |out| && Beats(out, j, k) {
      assert Beats(es, at[j], at[k]);
    }
    if Lost(es, at[k]) {
      var w := OneKeptPerVideo(es, at[k]);
      var j :| 0 <= j < |at| && at[j] == w;
      assert Beats(es, w, at[k]);
      assert j != k;
      if j > k {
        assert at[k] < at[j];
      } else {
        assert at[j] < at[k];
      }
      assert Beats(out, j, k);
    }
  }

  /** A second pass over the survivors of the first, in their order, abandons nothing: the selection is
    * a fixpoint. */
  lemma SecondPassIsIdle<T>(pass: Pass<T>, second: Pass<T>, at: seq<nat>)
    requires pass.Valid() && second.Valid() && Thinned(pass.es, second.es, at)
    requires forall k | 0 <= k < |at| :: second.ours[k] == pass.ours[at[k]]
    requires forall i: nat | i < |pass.es| :: i in at <==> !(Lost(pass.es, i) && pass.ours[i])
    ensures second.Doomed() == {}
  {
    assert forall k | 0 <= k < |at| :: at[k] in at;
    assert forall i: nat | i < |pass.es| && Kept(pass.es, i) :: i in at;
    if c :| c in second.Doomed() {
      var k := second.DoomedIs(|second.items|, c);
      SecondPassDecidesTheSame(pass.es, second.es, at, k);
      assert false;
    }
  }

  /** The survivors in another order. A pass over them abandons one of our claims exactly when a
    * foreign claim for the same video is as high and now comes first: the only way in which
    * repeating the pass is not idle. `ours[i]` tells whether entry `i` may be abandoned. */
  lemma ReorderedPassIsIdleExceptOnForeignTies(es: seq<Entry>, ours: seq<bool>, out: seq<Entry>, at: seq<nat>, k: nat)
    requires |ours| == |es| && |at| == |out| && k < |out|
    requires forall m | 0 <= m < |out| :: at[m] < |es| && out[m] == es[at[m]]
    requires forall m, n | 0 <= m < n < |out| :: at[m] != at[n]
    requires forall i: nat | i < |es| :: i in at <==> !(Lost(es, i) && ours[i])
    ensures ours[at[k]] && Lost(out, k) <==>
              ours[at[k]] && exists j | 0 <= j < k :: ForeignTie(out, ours, at, j, k)
  {
    if ours[at[k]] && Lost(out, k) {
      var j: nat :| j < |out| && Beats(out, j, k);
      assert at[k] in at;
      assert !Beats(es, at[j], at[k]);
      assert at[j] in at && (ours[at[j]] ==> !Beats(es, at[k], at[j]));
      assert ForeignTie(out, ours, at, j, k);
    }
    if j :| 0 <= j < k && ForeignTie(out, ours, at, j, k) {
      assert Beats(out, j, k);
    }
  }

  predicate ForeignTie(out: seq<Entry>, ours: seq<bool>, at: seq<nat>, j: nat, k: nat)
    requires |at| == |out| && j < |out| && k < |out| && at[j] < |ours|
  {
    !ours[at[j]] && out[j].video.Some? && out[j] == out[k]
  }

  /** Two claims for one video are level, and the first is ours: nothing is abandoned. With the foreign
    * one first, ours is. */
  lemma ReorderedPassCanAbandon(video: string, height: int)
    ensures var e := Entry(Some(video), height);
            var es, ours, at := [e, e], [true, false], [1, 0];
            var out := [es[at[0]], es[at[1]]];
            && (forall i: nat | i < |es| :: i in at && !(Lost(es, i) && ours[i]))
            && ours[at[1]] && Lost(out, 1)
  {
    var e := Entry(Some(video), height);
    assert Beats([e, e], 0, 1);
  }
}
