/** What every claim name looks like. */
module NameShape {
  import opened Names

  /** What is needed of `lower`: it keeps dashes, and makes no dash and no separator out of anything
    * else. Unicode's lower-case mapping does. */
  ghost predicate Tame(lower: char -> char) {
    forall c: char :: KeepsRune(lower, c)
  }

  predicate KeepsRune(lower: char -> char, c: char) {
    (lower(c) == '-' <==> c == '-') && (!IsSeparator(c) ==> !IsSeparator(lower(c)))
  }

  ghost predicate NoSeparators(s: string) {
    forall i {:trigger s[i]} | 0 <= i < |s| :: !IsSeparator(s[i])
  }

  ghost predicate NoOuterDashes(s: string) {
    s != "" ==> s[0] != '-' && s[|s| - 1] != '-'
  }

  // Slugs have no separators and no outer dashes

  lemma {:induction false} TrimLeftShape(s: string)
    requires NoSeparators(s)
    ensures NoSeparators(TrimLeft(s))
    ensures TrimLeft(s) != "" ==> TrimLeft(s)[0] != '-'
  {
    if s != "" && s[0] == '-' {
      TrimLeftShape(s[1..]);
    }
  }

  lemma {:induction false} TrimRightShape(s: string)
    requires NoSeparators(s) && (s != "" ==> s[0] != '-')
    ensures NoSeparators(TrimRight(s)) && NoOuterDashes(TrimRight(s))
  {
    if s != "" && s[|s| - 1] == '-' {
      TrimRightShape(s[..|s| - 1]);
    }
  }

  lemma LoweredShape(s: string, lower: char -> char)
    requires Tame(lower) && NoSeparators(s) && NoOuterDashes(s)
    ensures NoSeparators(Lowered(s, lower)) && NoOuterDashes(Lowered(s, lower))
  {
    forall i {:trigger Lowered(s, lower)[i]} | 0 <= i < |s| ensures !IsSeparator(Lowered(s, lower)[i]) {
      assert KeepsRune(lower, s[i]);
    }
    if s != "" {
      assert KeepsRune(lower, s[0]) && KeepsRune(lower, s[|s| - 1]);
    }
  }

  lemma SlugShape(title: string, lower: char -> char)
    requires Tame(lower)
    ensures NoSeparators(Slug(title, lower)) && NoOuterDashes(Slug(title, lower))
  {
    var dashed := DashSeparators(title);
    assert !IsSeparator('-');
    forall i {:trigger dashed[i]} | 0 <= i < |dashed| ensures !IsSeparator(dashed[i]) {
    }
    TrimLeftShape(dashed);
    TrimRightShape(TrimLeft(dashed));
    LoweredShape(TrimRight(TrimLeft(dashed)), lower);
  }

  // Splitting and joining are inverse

  function Join(chunks: seq<string>): string
    requires chunks != []
  {
    if |chunks| == 1 then chunks[0] else Join(chunks[..|chunks| - 1]) + "-" + chunks[|chunks| - 1]
  }

  predicate Dashless(s: string) {
    '-' !in s
  }

  /** `Split` is the one way to cut a string into dashless chunks that join to it. */
  lemma {:induction false} SplitJoins(s: string)
    ensures Join(Split(s)) == s
    ensures forall i | 0 <= i < |Split(s)| :: Dashless(Split(s)[i])
  {
    if s != "" {
      var front, c := s[..|s| - 1], s[|s| - 1];
      var chunks := Split(front);
      SplitJoins(front);
      var last := |chunks| - 1;
      assert s == front + [c];
      if c == '-' {
        assert (chunks + [""])[..last + 1] == chunks;
      } else {
        assert chunks[last := chunks[last] + [c]][..last] == chunks[..last];
      }
    }
  }

  lemma {:induction false} ChunksWithin(s: string)
    requires NoSeparators(s)
    ensures forall i | 0 <= i < |Split(s)| :: NoSeparators(Split(s)[i])
  {
    if s != "" {
      ChunksWithin(s[..|s| - 1]);
    }
  }

  lemma {:induction false} FirstChunk(s: string)
    requires s != "" && s[0] != '-'
    ensures Split(s)[0] != ""
  {
    if |s| > 1 {
      FirstChunk(s[..|s| - 1]);
    } else {
      assert Split(s[..0]) == [""];
    }
  }

  // The strip in `truncateUnicode` never finds anything to remove

  /** None of its runes is stripped. */
  predicate Clean(s: string) {
    forall c | c in s :: !Blacklisted(c)
  }

  lemma {:induction false} CleanStays(s: string)
    requires Clean(s)
    ensures Strip(s) == s
  {
    if s != "" {
      assert s[|s| - 1] in s;
      CleanStays(s[..|s| - 1]);
    }
  }

  lemma CleanExtend(name: string, chunk: string)
    requires Clean(name) && Clean(chunk)
    ensures Clean(name + "-" + chunk)
  {
    assert !Blacklisted('-');
  }

  lemma SlugIsClean(s: string)
    requires NoSeparators(s)
    ensures Clean(s)
  {
    forall c | c in s ensures !Blacklisted(c) {
      var i :| 0 <= i < |s| && s[i] == c;
      assert !IsSeparator(s[i]);
    }
  }

  /** Text without separators, as every slug is, has nothing on the blacklist. */
  lemma StripRemovesNothing(s: string)
    requires NoSeparators(s)
    ensures Strip(s) == s
  {
    SlugIsClean(s);
    CleanStays(s);
  }

  ghost predicate Packable(chunks: seq<string>) {
    forall i {:trigger chunks[i]} | 0 <= i < |chunks| :: Clean(chunks[i]) && Dashless(chunks[i])
  }

  ghost predicate SlugChunks(chunks: seq<string>) {
    chunks != [] && Packable(chunks) && (chunks[0] == "" ==> chunks == [""])
  }

  lemma ChunksAreSlugChunks(title: string, lower: char -> char)
    requires Tame(lower)
    ensures SlugChunks(Chunks(title, lower))
  {
    SlugShape(title, lower);
    SplitOfSlug(Slug(title, lower));
  }

  lemma SplitOfSlug(s: string)
    requires NoSeparators(s) && NoOuterDashes(s)
    ensures SlugChunks(Split(s))
  {
    SplitJoins(s);
    ChunksWithin(s);
    forall i {:trigger Split(s)[i]} | 0 <= i < |Split(s)| ensures Clean(Split(s)[i]) {
      SlugIsClean(Split(s)[i]);
    }
    if s != "" {
      FirstChunk(s);
    }
  }

  // Packing

  /** The non-empty chunks, joined by dashes, after `name`. */
  function Joined(name: string, chunks: seq<string>): string
    decreases |chunks|
  {
    if chunks == [] then name
    else if chunks[0] == "" then Joined(name, chunks[1..])
    else Joined(name + "-" + chunks[0], chunks[1..])
  }

  function WithChunk(name: string, chunk: string): string {
    if chunk == "" then name else name + "-" + chunk
  }

  lemma {:induction false} JoinedExtends(name: string, chunks: seq<string>)
    ensures name <= Joined(name, chunks)
    decreases |chunks|
  {
    if chunks != [] {
      if chunks[0] == "" {
        JoinedExtends(name, chunks[1..]);
      } else {
        JoinedExtends(name + "-" + chunks[0], chunks[1..]);
      }
    }
  }

  /** Packing stops somewhere in the joined chunks, and never exceeds the limit in runes. */
  lemma {:induction false} PackIsPrefix(name: string, chunks: seq<string>, maxLen: int)
    requires Clean(name) && Packable(chunks) && Bytes(name) <= maxLen
    ensures Pack(name, chunks, maxLen) <= Joined(name, chunks)
    ensures |Pack(name, chunks, maxLen)| <= maxLen
    decreases |chunks|
  {
    RunesWithinBytes(name);
    JoinedExtends(name, chunks);
    if chunks != [] {
      if chunks[0] == "" {
        PackIsPrefix(name, chunks[1..], maxLen);
      } else {
        var longer := name + "-" + chunks[0];
        assert Clean(chunks[0]);
        CleanExtend(name, chunks[0]);
        if Bytes(longer) <= maxLen {
          PackIsPrefix(longer, chunks[1..], maxLen);
        } else {
          CutIsPrefix(longer, chunks[1..], maxLen - Bytes(name));
        }
      }
    }
  }

  lemma CutIsPrefix(longer: string, chunks: seq<string>, limit: int)
    requires Clean(longer)
    ensures Take(Strip(longer), limit) <= Joined(longer, chunks)
    ensures limit >= 0 ==> |Take(Strip(longer), limit)| <= limit
  {
    CleanStays(longer);
    JoinedExtends(longer, chunks);
  }

  ghost predicate StartsTheSlug(chunks: seq<string>, name: string)
    requires chunks != []
  {
    name <= Joined(chunks[0], chunks[1..])
  }

  lemma UnsuffixedStartsTheSlug(chunks: seq<string>, maxLen: int)
    requires SlugChunks(chunks)
    ensures StartsTheSlug(chunks, Unsuffixed(chunks, maxLen))
  {
    assert Clean(chunks[0]);
    JoinedExtends(chunks[0], chunks[1..]);
    if Bytes(chunks[0]) > maxLen {
      CleanStays(chunks[0]);
    } else {
      PackIsPrefix(chunks[0], chunks[1..], maxLen);
    }
  }

  lemma TitleStartsTheSlug(title: string, maxLen: int, lower: char -> char)
    requires Tame(lower)
    ensures StartsTheSlug(Chunks(title, lower), Unsuffixed(Chunks(title, lower), maxLen))
  {
    ChunksAreSlugChunks(title, lower);
    UnsuffixedStartsTheSlug(Chunks(title, lower), maxLen);
  }

  /** What precedes the suffix is a prefix of the non-empty chunks of the slug, joined by dashes. */
  lemma NameIsPrefixOfSlug(title: string, attempt: int, lower: char -> char)
    requires Tame(lower)
    ensures var chunks := Chunks(title, lower); StartsTheSlug(chunks, Unsuffixed(chunks, 40 - |Suffix(attempt)|))
  {
    TitleStartsTheSlug(title, 40 - |Suffix(attempt)|, lower);
  }

  lemma {:induction false} PrefixHasFewerBytes(s: string, t: string)
    requires s <= t
    ensures Bytes(s) <= Bytes(t)
  {
    if s != t {
      PrefixHasFewerBytes(s, t[..|t| - 1]);
    }
  }

  lemma {:induction false} PackTakesAllThatFits(name: string, chunks: seq<string>, maxLen: int)
    requires Bytes(Joined(name, chunks)) <= maxLen
    ensures Pack(name, chunks, maxLen) == Joined(name, chunks)
    decreases |chunks|
  {
    if chunks != [] {
      if chunks[0] == "" {
        PackTakesAllThatFits(name, chunks[1..], maxLen);
      } else {
        var longer := name + "-" + chunks[0];
        JoinedExtends(longer, chunks[1..]);
        PrefixHasFewerBytes(longer, Joined(name, chunks));
        PackTakesAllThatFits(longer, chunks[1..], maxLen);
      }
    }
  }

  /** A slug that leaves room for the suffix within 40 bytes is not cut at all. */
  lemma NothingIsCutThatFits(title: string, attempt: int, lower: char -> char)
    requires var chunks := Chunks(title, lower); Bytes(Joined(chunks[0], chunks[1..])) + |Suffix(attempt)| <= 40
    ensures var chunks := Chunks(title, lower); ClaimName(title, attempt, lower) == Joined(chunks[0], chunks[1..]) + Suffix(attempt)
  {
    var chunks := Chunks(title, lower);
    JoinedExtends(chunks[0], chunks[1..]);
    PrefixHasFewerBytes(chunks[0], Joined(chunks[0], chunks[1..]));
    PackTakesAllThatFits(chunks[0], chunks[1..], 40 - |Suffix(attempt)|);
  }

  lemma SuffixIsShort(attempt: int)
    requires attempt < 0x8000_0000_0000_0000
    ensures |Suffix(attempt)| <= 20
  {
    if attempt > 1 {
      assert attempt < Power10(19) by {
        assert Power10(19) == 10_000_000_000_000_000_000 by {
          assert Power10(5) == 100_000;
          assert Power10(10) == 10_000_000_000;
          assert Power10(15) == 1_000_000_000_000_000;
        }
      }
      DecimalLength(attempt, 19);
    }
  }

  /** From the second attempt on, the name ends with the number of the attempt. */
  lemma NumberComesLast(chunks: seq<string>, attempt: int)
    requires chunks != [] && 2 <= attempt < 0x8000_0000_0000_0000
    ensures var d := Decimal(attempt);
            && Dashless(d) && d != "" && |d| <= 19 && Suffix(attempt) == "-" + d
            && NameOf(chunks, attempt) == Unsuffixed(chunks, 39 - |d|) + "-" + d
  {
    SuffixIsShort(attempt);
    var x, d := Unsuffixed(chunks, 40 - |Suffix(attempt)|), Decimal(attempt);
    assert x + ("-" + d) == x + "-" + d;
  }

  lemma UnsuffixedIsShort(chunks: seq<string>, maxLen: int)
    requires SlugChunks(chunks) && maxLen >= 0
    ensures |Unsuffixed(chunks, maxLen)| <= maxLen
  {
    assert Clean(chunks[0]);
    if Bytes(chunks[0]) <= maxLen {
      PackIsPrefix(chunks[0], chunks[1..], maxLen);
    }
  }

  lemma NameIsShort(chunks: seq<string>, attempt: int)
    requires SlugChunks(chunks) && attempt < 0x8000_0000_0000_0000
    ensures |NameOf(chunks, attempt)| <= 40
  {
    SuffixIsShort(attempt);
    UnsuffixedIsShort(chunks, 40 - |Suffix(attempt)|);
  }

  /** No name has more than 40 runes, for any attempt a 64-bit counter can reach. It may have more than
    * 40 bytes. */
  lemma AtMost40Runes(title: string, attempt: int, lower: char -> char)
    requires Tame(lower) && attempt < 0x8000_0000_0000_0000
    ensures |ClaimName(title, attempt, lower)| <= 40
  {
    ChunksAreSlugChunks(title, lower);
    NameIsShort(Chunks(title, lower), attempt);
  }

  // Dashes

  ghost predicate NoDoubleDash(s: string) {
    forall i {:trigger s[i]} | 0 < i < |s| :: !(s[i - 1] == '-' && s[i] == '-')
  }

  /** No leading, trailing or doubled dash. */
  ghost predicate Tidy(s: string) {
    NoOuterDashes(s) && NoDoubleDash(s)
  }

  lemma TidyExtend(name: string, piece: string)
    requires Tidy(name) && name != "" && Dashless(piece) && piece != ""
    ensures Tidy(name + "-" + piece)
  {
    var s := name + "-" + piece;
    forall i {:trigger s[i]} | 0 < i < |s| ensures !(s[i - 1] == '-' && s[i] == '-') {
      if i < |name| {
        assert s[i] == name[i] && s[i - 1] == name[i - 1];
      } else if i > |name| {
        assert s[i] == piece[i - |name| - 1];
      } else {
        assert s[i - 1] == name[|name| - 1];
      }
    }
    assert s[|s| - 1] == piece[|piece| - 1];
  }
}
