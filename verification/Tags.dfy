/** Which tags a video is published with: a set transformation driven by tables.
  *
  * The tables are parameters. A tag is `true` in the result if it is curated.
  */
module Tags {
  import TagNames

  datatype Tag = Tag(text: string)

  datatype Tables = Tables(skip: set<Tag>, replace: map<Tag, Tag>, keep: map<Tag, Tag>, channels: map<string, seq<Tag>>)

  /** No replacement is itself to be replaced. This is so in the tables of the source. */
  predicate TargetsStay(t: Tables) {
    forall r | r in t.replace :: t.replace[r] !in t.replace
  }

  // The three loops, as functions of the list they go over

  function Cleaned(tables: Tables, m: map<Tag, bool>, tags: seq<Tag>): map<Tag, bool> {
    if tags == [] then m
    else
      var n, t := Cleaned(tables, m, tags[..|tags| - 1]), tags[|tags| - 1];
      if t in tables.skip then n else n[t := false]
  }

  function Replaced(tables: Tables, m: map<Tag, bool>, tags: seq<Tag>): map<Tag, bool> {
    if tags == [] then m
    else
      var n, t := Replaced(tables, m, tags[..|tags| - 1]), tags[|tags| - 1];
      if t in tables.replace then (n - {t})[tables.replace[t] := true] else n
  }

  function Kept(tables: Tables, m: map<Tag, bool>, tags: seq<Tag>): map<Tag, bool> {
    if tags == [] then m
    else
      var n, t := Kept(tables, m, tags[..|tags| - 1]), tags[|tags| - 1];
      if t in tables.keep then n[tables.keep[t] := true][t := false] else n
  }

  function WithExtras(m: map<Tag, bool>, extras: seq<Tag>): map<Tag, bool> {
    if extras == [] then m else WithExtras(m, extras[..|extras| - 1])[extras[|extras| - 1] := true]
  }

  function Extras(tables: Tables, channel: string): seq<Tag> {
    if channel in tables.channels then tables.channels[channel] else []
  }

  function Sanitized(tables: Tables, channel: string, tags: seq<Tag>): map<Tag, bool> {
    WithExtras(Kept(tables, Replaced(tables, Cleaned(tables, map[], tags), tags), tags), Extras(tables, channel))
  }

  // Which tags come out

  predicate ReplacementOf(tables: Tables, x: Tag, tags: seq<Tag>) {
    exists t :: t in tags && t in tables.replace && tables.replace[t] == x
  }

  predicate AddedFor(tables: Tables, x: Tag, tags: seq<Tag>) {
    exists t :: t in tags && t in tables.keep && tables.keep[t] == x
  }

  lemma {:induction false} CleanedKeys(tables: Tables, tags: seq<Tag>, x: Tag)
    ensures x in Cleaned(tables, map[], tags) <==> x in tags && x !in tables.skip
    ensures x in Cleaned(tables, map[], tags) ==> !Cleaned(tables, map[], tags)[x]
  {
    if tags != [] {
      CleanedKeys(tables, tags[..|tags| - 1], x);
      assert tags == tags[..|tags| - 1] + [tags[|tags| - 1]];
    }
  }

  lemma LastOne(tags: seq<Tag>, x: Tag)
    requires tags != []
    ensures x in tags <==> x in tags[..|tags| - 1] || x == tags[|tags| - 1]
  {
    assert tags == tags[..|tags| - 1] + [tags[|tags| - 1]];
  }

  lemma {:induction false} ReplacedKeys(tables: Tables, m: map<Tag, bool>, tags: seq<Tag>, x: Tag)
    requires TargetsStay(tables)
    ensures var n := Replaced(tables, m, tags);
            && (x in n <==> ReplacementOf(tables, x, tags) || (x in m && !(x in tags && x in tables.replace)))
            && (x in n ==> n[x] == (ReplacementOf(tables, x, tags) || m[x]))
  {
    if tags != [] {
      var init, t := tags[..|tags| - 1], tags[|tags| - 1];
      ReplacedKeys(tables, m, init, x);
      LastOne(tags, x);
      ReplacementByLast(tables, x, tags);
    }
  }

  lemma ReplacementByLast(tables: Tables, x: Tag, tags: seq<Tag>)
    requires tags != []
    ensures var t := tags[|tags| - 1];
            ReplacementOf(tables, x, tags) <==>
            ReplacementOf(tables, x, tags[..|tags| - 1]) || (t in tables.replace && tables.replace[t] == x)
  {
    forall u ensures u in tags <==> u in tags[..|tags| - 1] || u == tags[|tags| - 1] {
      LastOne(tags, u);
    }
  }

  lemma AddedByLast(tables: Tables, x: Tag, tags: seq<Tag>)
    requires tags != []
    ensures var t := tags[|tags| - 1];
            AddedFor(tables, x, tags) <==>
            AddedFor(tables, x, tags[..|tags| - 1]) || (t in tables.keep && tables.keep[t] == x)
  {
    forall u ensures u in tags <==> u in tags[..|tags| - 1] || u == tags[|tags| - 1] {
      LastOne(tags, u);
    }
  }

  lemma {:induction false} KeptKeys(tables: Tables, m: map<Tag, bool>, tags: seq<Tag>, x: Tag)
    ensures x in Kept(tables, m, tags) <==> x in m || AddedFor(tables, x, tags) || (x in tags && x in tables.keep)
  {
    if tags != [] {
      KeptKeys(tables, m, tags[..|tags| - 1], x);
      LastOne(tags, x);
      AddedByLast(tables, x, tags);
    }
  }

  lemma {:induction false} ExtraKeys(m: map<Tag, bool>, extras: seq<Tag>, x: Tag)
    ensures var n := WithExtras(m, extras);
            && (x in n <==> x in m || x in extras)
            && (x in n ==> n[x] == (x in extras || m[x]))
  {
    if extras != [] {
      ExtraKeys(m, extras[..|extras| - 1], x);
      LastOne(extras, x);
    }
  }

  /** A tag comes out if it is one of the channel's, or added for or in place of a tag that went in, or
    * went in itself and is neither skipped nor replaced, or is kept whatever the other tables say. */
  predicate ComesOut(tables: Tables, channel: string, x: Tag, tags: seq<Tag>) {
    || x in Extras(tables, channel)
    || AddedFor(tables, x, tags)
    || ReplacementOf(tables, x, tags)
    || (x in tags && (x in tables.keep || !(x in tables.skip || x in tables.replace)))
  }

  lemma WhatComesOut(tables: Tables, channel: string, tags: seq<Tag>, x: Tag)
    requires TargetsStay(tables)
    ensures x in Sanitized(tables, channel, tags) <==> ComesOut(tables, channel, x, tags)
  {
    var cleaned := Cleaned(tables, map[], tags);
    var replaced := Replaced(tables, cleaned, tags);
    CleanedKeys(tables, tags, x);
    ReplacedKeys(tables, cleaned, tags, x);
    KeptKeys(tables, replaced, tags, x);
    ExtraKeys(Kept(tables, replaced, tags), Extras(tables, channel), x);
  }

  ghost predicate SameTags(a: seq<Tag>, b: seq<Tag>) {
    forall t :: t in a <==> t in b
  }

  /** The tags that come out depend on the set of those that go in, and not on their order or number. */
  lemma SameTagsSameResult(tables: Tables, channel: string, a: seq<Tag>, b: seq<Tag>)
    requires TargetsStay(tables) && SameTags(a, b)
    ensures Sanitized(tables, channel, a).Keys == Sanitized(tables, channel, b).Keys
  {
    forall x ensures x in Sanitized(tables, channel, a) <==> x in Sanitized(tables, channel, b) {
      WhatComesOut(tables, channel, a, x);
      WhatComesOut(tables, channel, b, x);
    }
  }

  /** Without the condition on the tables, the order matters. */
  lemma ChainedReplacementsDependOnOrder(a: Tag, b: Tag, c: Tag, channel: string)
    requires a != b && b != c && a != c
    ensures var tables := Tables({}, map[a := b, b := c], map[], map[]);
            && b !in Sanitized(tables, channel, [a, b])
            && b in Sanitized(tables, channel, [b, a])
  {
    var tables := Tables({}, map[a := b, b := c], map[], map[]);
    assert [a, b][..1] == [a] && [b, a][..1] == [b];
    assert Replaced(tables, Cleaned(tables, map[], [a, b]), [a]) == (Cleaned(tables, map[], [a, b]) - {a})[b := true];
    assert b !in Replaced(tables, Cleaned(tables, map[], [a, b]), [a, b]);
    KeptKeys(tables, Replaced(tables, Cleaned(tables, map[], [a, b]), [a, b]), [a, b], b);
    assert b in Replaced(tables, Cleaned(tables, map[], [b, a]), [b, a]);
    KeptKeys(tables, Replaced(tables, Cleaned(tables, map[], [b, a]), [b, a]), [b, a], b);
  }

  // Which of them are curated

  /** The tag went in and is kept, and is also added as the curated tag of another that went in. */
  predicate Contested(tables: Tables, x: Tag, tags: seq<Tag>) {
    x in tags && x in tables.keep && exists t :: t in tags && t != x && t in tables.keep && tables.keep[t] == x
  }

  lemma {:induction false} UncontestedFlag(tables: Tables, m: map<Tag, bool>, tags: seq<Tag>, x: Tag)
    requires !Contested(tables, x, tags) && x in Kept(tables, m, tags)
    ensures Kept(tables, m, tags)[x] ==
            if x in tags && x in tables.keep then false
            else AddedFor(tables, x, tags) || (x in m && m[x])
  {
    if tags != [] {
      var init, t := tags[..|tags| - 1], tags[|tags| - 1];
      LastOne(tags, x);
      AddedByLast(tables, x, tags);
      assert tags == init + [t];
      assert t in tags && forall u :: u in init ==> u in tags;
      if x in Kept(tables, m, init) {
        UncontestedFlag(tables, m, init, x);
      } else {
        KeptKeys(tables, m, init, x);
      }
    }
  }

  /** What the flags of an uncontested tag say: a channel's tag is curated, one that was kept is not,
    * and any other is if it was added or put in place of another. */
  lemma UncontestedIsCurated(tables: Tables, channel: string, tags: seq<Tag>, x: Tag)
    requires TargetsStay(tables) && x in Sanitized(tables, channel, tags)
    requires x in Extras(tables, channel) || !Contested(tables, x, tags)
    ensures Sanitized(tables, channel, tags)[x] <==>
            || x in Extras(tables, channel)
            || (!(x in tags && x in tables.keep) && (AddedFor(tables, x, tags) || ReplacementOf(tables, x, tags)))
  {
    var cleaned := Cleaned(tables, map[], tags);
    var replaced := Replaced(tables, cleaned, tags);
    ExtraKeys(Kept(tables, replaced, tags), Extras(tables, channel), x);
    if x !in Extras(tables, channel) {
      CleanedKeys(tables, tags, x);
      ReplacedKeys(tables, cleaned, tags, x);
      UncontestedFlag(tables, replaced, tags, x);
    }
  }

  lemma LastTagDecides(tables: Tables, channel: string, tags: seq<Tag>, t: Tag, x: Tag)
    requires t in tables.keep && x !in Extras(tables, channel) && (t == x || tables.keep[t] == x)
    ensures x in Sanitized(tables, channel, tags + [t]) && Sanitized(tables, channel, tags + [t])[x] == (t != x)
  {
    var all := tags + [t];
    var replaced := Replaced(tables, Cleaned(tables, map[], all), all);
    assert all[..|all| - 1] == tags;
    ExtraKeys(Kept(tables, replaced, all), Extras(tables, channel), x);
  }

  ghost predicate FlagIsFixed(tables: Tables, channel: string, tags: seq<Tag>, x: Tag) {
    forall b | SameTags(tags, b) && x in Sanitized(tables, channel, b) ::
      x in Sanitized(tables, channel, tags) && Sanitized(tables, channel, b)[x] == Sanitized(tables, channel, tags)[x]
  }

  lemma UncontestedIsFixed(tables: Tables, channel: string, tags: seq<Tag>, x: Tag)
    requires TargetsStay(tables) && x in Sanitized(tables, channel, tags)
    requires x in Extras(tables, channel) || !Contested(tables, x, tags)
    ensures FlagIsFixed(tables, channel, tags, x)
  {
    forall b | SameTags(tags, b) && x in Sanitized(tables, channel, b)
      ensures Sanitized(tables, channel, b)[x] == Sanitized(tables, channel, tags)[x]
    {
      UncontestedIsCurated(tables, channel, tags, x);
      UncontestedIsCurated(tables, channel, b, x);
    }
  }

  lemma ContestedIsNotFixed(tables: Tables, channel: string, tags: seq<Tag>, x: Tag)
    requires TargetsStay(tables) && x in Sanitized(tables, channel, tags)
    requires x !in Extras(tables, channel) && Contested(tables, x, tags)
    ensures !FlagIsFixed(tables, channel, tags, x)
  {
    var t :| t in tags && t != x && t in tables.keep && tables.keep[t] == x;
    LastTagDecides(tables, channel, tags, t, x);
    LastTagDecides(tables, channel, tags, x, x);
    assert SameTags(tags, tags + [t]) && SameTags(tags, tags + [x]);
  }

  /** Whether a tag is curated depends only on the set of tags that go in, exactly if it is one of the
    * channel's or is not contested. Otherwise the last of the contenders decides. */
  lemma FlagDependsOnOrderIffContested(tables: Tables, channel: string, tags: seq<Tag>, x: Tag)
    requires TargetsStay(tables) && x in Sanitized(tables, channel, tags)
    ensures FlagIsFixed(tables, channel, tags, x) <==> x in Extras(tables, channel) || !Contested(tables, x, tags)
  {
    if x in Extras(tables, channel) || !Contested(tables, x, tags) {
      UncontestedIsFixed(tables, channel, tags, x);
    } else {
      ContestedIsNotFixed(tables, channel, tags, x);
    }
  }

  // The order of the result

  /** The order of `sort.Strings`: UTF-8 keeps the order of the runes. */
  predicate Before(a: string, b: string) {
    b != "" && (a == "" || a[0] < b[0] || (a[0] == b[0] && Before(a[1..], b[1..])))
  }

  lemma {:induction false} BeforeIsTotal(a: string, b: string)
    ensures a == b || Before(a, b) || Before(b, a)
  {
    if a != "" && b != "" && a[0] == b[0] {
      BeforeIsTotal(a[1..], b[1..]);
      assert a == [a[0]] + a[1..] && b == [b[0]] + b[1..];
    }
  }

  lemma {:induction false} BeforeIsTransitive(a: string, b: string, c: string)
    requires Before(a, b) && Before(b, c)
    ensures Before(a, c)
  {
    if a != "" && a[0] == b[0] == c[0] {
      BeforeIsTransitive(a[1..], b[1..], c[1..]);
    }
  }

  ghost predicate Ascending(tags: seq<Tag>) {
    forall i, j | 0 <= i < j < |tags| :: Before(tags[i].text, tags[j].text)
  }

  lemma InsertAscending(tags: seq<Tag>, k: nat, t: Tag)
    requires Ascending(tags) && k <= |tags|
    requires forall i | 0 <= i < k :: Before(tags[i].text, t.text)
    requires k < |tags| ==> Before(t.text, tags[k].text)
    ensures Ascending(tags[..k] + [t] + tags[k..])
  {
    var r := tags[..k] + [t] + tags[k..];
    forall i, j | 0 <= i < j < |r| ensures Before(r[i].text, r[j].text) {
      assert r[i] == if i < k then tags[i] else if i == k then t else tags[i - 1];
      assert r[j] == if j < k then tags[j] else if j == k then t else tags[j - 1];
      if i == k && j > k + 1 {
        BeforeIsTransitive(t.text, tags[k].text, tags[j - 1].text);
      }
    }
  }

  lemma InsertAdds(tags: seq<Tag>, k: nat, t: Tag)
    requires k <= |tags|
    ensures forall x :: x in tags[..k] + [t] + tags[k..] <==> x in tags || x == t
  {
    assert tags == tags[..k] + tags[k..];
  }

  method Insert(tags: seq<Tag>, t: Tag) returns (r: seq<Tag>)
    requires Ascending(tags) && t !in tags
    ensures Ascending(r) && forall x :: x in r <==> x in tags || x == t
  {
    var k := 0;
    while k < |tags| && Before(tags[k].text, t.text)
      invariant k <= |tags| && forall i | 0 <= i < k :: Before(tags[i].text, t.text)
    {
      k := k + 1;
    }
    if k < |tags| {
      assert tags[k] in tags;
      BeforeIsTotal(tags[k].text, t.text);
    }
    InsertAscending(tags, k, t);
    InsertAdds(tags, k, t);
    r := tags[..k] + [t] + tags[k..];
  }

  /** The tags with one flag, which the map gives in any order, sorted. */
  method SortedTags(m: map<Tag, bool>, curated: bool) returns (r: seq<Tag>)
    ensures Ascending(r) && forall x :: x in r <==> x in m && m[x] == curated
  {
    r := [];
    var todo := m.Keys;
    while todo != {}
      invariant todo <= m.Keys && Ascending(r)
      invariant forall x :: x in r <==> x in m && x !in todo && m[x] == curated
      decreases todo
    {
      var t :| t in todo;
      if m[t] == curated {
        r := Insert(r, t);
      }
      todo := todo - {t};
    }
  }

  // The sanitizer

  class Sanitizer {
    const tables: Tables
    const channel: string
    const unsanitized: seq<Tag>
    var sanitized: map<Tag, bool>

    constructor (tables: Tables, channel: string, unsanitized: seq<Tag>)
      ensures this.tables == tables && this.channel == channel && this.unsanitized == unsanitized && sanitized == map[]
    {
      this.tables, this.channel, this.unsanitized := tables, channel, unsanitized;
      sanitized := map[];
    }

    method Cleanup()
      modifies this
      ensures sanitized == Cleaned(tables, old(sanitized), unsanitized)
    {
      for k := 0 to |unsanitized|
        invariant sanitized == Cleaned(tables, old(sanitized), unsanitized[..k])
      {
        assert unsanitized[..k + 1][..k] == unsanitized[..k];
        var t := unsanitized[k];
        if t !in tables.skip {
          sanitized := sanitized[t := false];
        }
      }
      assert unsanitized[..|unsanitized|] == unsanitized;
    }

    method Replace()
      modifies this
      ensures sanitized == Replaced(tables, old(sanitized), unsanitized)
    {
      for k := 0 to |unsanitized|
        invariant sanitized == Replaced(tables, old(sanitized), unsanitized[..k])
      {
        assert unsanitized[..k + 1][..k] == unsanitized[..k];
        var t := unsanitized[k];
        if t in tables.replace {
          sanitized := sanitized - {t};
          sanitized := sanitized[tables.replace[t] := true];
        }
      }
      assert unsanitized[..|unsanitized|] == unsanitized;
    }

    method Add()
      modifies this
      ensures sanitized == WithExtras(Kept(tables, old(sanitized), unsanitized), Extras(tables, channel))
    {
      for k := 0 to |unsanitized|
        invariant sanitized == Kept(tables, old(sanitized), unsanitized[..k])
      {
        assert unsanitized[..k + 1][..k] == unsanitized[..k];
        var t := unsanitized[k];
        if t in tables.keep {
          sanitized := sanitized[tables.keep[t] := true];
          sanitized := sanitized[t := false];
        }
      }
      assert unsanitized[..|unsanitized|] == unsanitized;
      if channel in tables.channels {
        AddExtras(tables.channels[channel]);
      }
    }

    method AddExtras(extras: seq<Tag>)
      modifies this
      ensures sanitized == WithExtras(old(sanitized), extras)
    {
      for k := 0 to |extras|
        invariant sanitized == WithExtras(old(sanitized), extras[..k])
      {
        assert extras[..k + 1][..k] == extras[..k];
        sanitized := sanitized[extras[k] := true];
      }
      assert extras[..|extras|] == extras;
    }
  }

  function Normals(tags: seq<string>, lower: char -> char): (texts: seq<string>)
    ensures |texts| == |tags| && forall i | 0 <= i < |tags| :: texts[i] == TagNames.Normalized(tags[i], lower)
  {
    seq(|tags|, i requires 0 <= i < |tags| => TagNames.Normalized(tags[i], lower))
  }

  function NonEmpty(texts: seq<string>): seq<Tag> {
    if texts == [] then []
    else
      var before, t := NonEmpty(texts[..|texts| - 1]), texts[|texts| - 1];
      if t == "" then before else before + [Tag(t)]
  }

  /** What goes into the sanitizer: the normalized tags, but for those that are skipped. */
  function Usable(tags: seq<string>, lower: char -> char): seq<Tag> {
    NonEmpty(Normals(tags, lower))
  }

  /** The curated tags come first; both parts are in order, and so every tag is there once. */
  ghost predicate InOrder(r: seq<Tag>, m: map<Tag, bool>, k: nat) {
    && k <= |r| && Ascending(r[..k]) && Ascending(r[k..])
    && (forall x :: x in r[..k] <==> x in m && m[x])
    && (forall x :: x in r[k..] <==> x in m && !m[x])
  }

  lemma InOrderHasNoRepeats(r: seq<Tag>, m: map<Tag, bool>, k: nat, i: nat, j: nat)
    requires InOrder(r, m, k) && i < j < |r|
    ensures r[i] != r[j]
  {
    if j < k {
      NotBeforeItself(r[i].text);
      assert r[..k][i] == r[i] && r[..k][j] == r[j];
    } else if i >= k {
      NotBeforeItself(r[i].text);
      assert r[k..][i - k] == r[i] && r[k..][j - k] == r[j];
    } else {
      assert r[..k][i] in r[..k] && r[k..][j - k] in r[k..];
    }
  }

  lemma {:induction false} NotBeforeItself(a: string)
    ensures !Before(a, a)
  {
    if a != "" {
      NotBeforeItself(a[1..]);
    }
  }

  method NormalizeAll(tags: seq<string>, lower: char -> char) returns (unsanitized: seq<Tag>)
    ensures unsanitized == Usable(tags, lower)
  {
    unsanitized := [];
    ghost var texts := Normals(tags, lower);
    for n := 0 to |tags|
      invariant unsanitized == NonEmpty(texts[..n])
    {
      assert texts[..n + 1][..n] == texts[..n];
      var t := TagNames.Normalized(tags[n], lower);
      if t == "" {
        continue;
      }
      unsanitized := unsanitized + [Tag(t)];
    }
    assert texts[..|tags|] == texts;
  }

  method CuratedFirst(m: map<Tag, bool>) returns (r: seq<Tag>)
    ensures exists k :: InOrder(r, m, k)
  {
    var curated := SortedTags(m, true);
    var originals := SortedTags(m, false);
    r := curated + originals;
    assert r[..|curated|] == curated && r[|curated|..] == originals;
    assert InOrder(r, m, |curated|);
  }

  method SanitizeTags(tables: Tables, channel: string, tags: seq<string>, lower: char -> char) returns (r: seq<Tag>)
    ensures exists k :: InOrder(r, Sanitized(tables, channel, Usable(tags, lower)), k)
  {
    var unsanitized := NormalizeAll(tags, lower);
    var ts := new Sanitizer(tables, channel, unsanitized);
    ts.Cleanup();
    ts.Replace();
    ts.Add();
    assert ts.sanitized == Sanitized(tables, channel, unsanitized);
    r := CuratedFirst(ts.sanitized);
  }

  lemma {:induction false} UsableTags(texts: seq<string>, t: Tag)
    ensures t in NonEmpty(texts) <==> t.text != "" && t.text in texts
  {
    if texts != [] {
      UsableTags(texts[..|texts| - 1], t);
      assert texts == texts[..|texts| - 1] + [texts[|texts| - 1]];
    }
  }

  /** Two lists of tags that normalize to the same set come out as the same set of tags. */
  lemma OnlyTheNormalizedSetMatters(tables: Tables, channel: string, a: seq<string>, b: seq<string>, lower: char -> char)
    requires TargetsStay(tables)
    requires forall t | t != "" :: t in Normals(a, lower) <==> t in Normals(b, lower)
    ensures Sanitized(tables, channel, Usable(a, lower)).Keys == Sanitized(tables, channel, Usable(b, lower)).Keys
  {
    forall t ensures t in Usable(a, lower) <==> t in Usable(b, lower) {
      UsableTags(Normals(a, lower), t);
      UsableTags(Normals(b, lower), t);
    }
    SameTagsSameResult(tables, channel, Usable(a, lower), Usable(b, lower));
  }
}
