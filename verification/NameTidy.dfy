/** Which claim names have a leading, trailing or doubled dash. */
module NameTidy {
  import opened Names
  import opened NameShape

  /** The room that is left for a chunk after `name` ends on a dash: the one that joins the two, or one
    * inside `name`. The room is what `maxLen` leaves of the bytes of `name`, but it is filled with the
    * runes of `name` and of the chunk. */
  predicate CutsAtDash(name: string, chunk: string, maxLen: int) {
    var room := maxLen - Bytes(name);
    && chunk != "" && Bytes(name) < 20 && Bytes(name + "-" + chunk) > maxLen
    && 1 <= room <= |name| + 1 && (name + "-")[room - 1] == '-'
  }

  /** Some chunk that does not fit after the whole ones before it is cut at a dash. */
  predicate CutSomewhere(name: string, chunks: seq<string>, maxLen: int) {
    exists k :: 0 <= k < |chunks| && CutsAtDash(Joined(name, chunks[..k]), chunks[k], maxLen)
  }

  lemma CutHereOrLater(name: string, chunks: seq<string>, maxLen: int)
    requires chunks != []
    ensures CutSomewhere(name, chunks, maxLen) <==>
            CutsAtDash(name, chunks[0], maxLen) || CutSomewhere(WithChunk(name, chunks[0]), chunks[1..], maxLen)
  {
    var longer, rest := WithChunk(name, chunks[0]), chunks[1..];
    forall k | 0 < k < |chunks| ensures Joined(name, chunks[..k]) == Joined(longer, rest[..k - 1]) && chunks[k] == rest[k - 1] {
      assert chunks[..k][1..] == rest[..k - 1];
    }
    if k :| 0 <= k < |rest| && CutsAtDash(Joined(longer, rest[..k]), rest[k], maxLen) {
      assert CutsAtDash(Joined(name, chunks[..k + 1]), chunks[k + 1], maxLen);
    }
    assert chunks[..0] == [];
  }

  /** After a name of 20 bytes nothing is cut. */
  lemma NoCutOfLongNames(name: string, chunks: seq<string>, maxLen: int)
    requires Bytes(name) >= 20
    ensures !CutSomewhere(name, chunks, maxLen)
  {
    forall k | 0 <= k < |chunks| ensures !CutsAtDash(Joined(name, chunks[..k]), chunks[k], maxLen) {
      JoinedExtends(name, chunks[..k]);
      PrefixHasFewerBytes(name, Joined(name, chunks[..k]));
    }
  }

  lemma PrefixOfTidy(s: string, n: nat)
    requires Tidy(s) && 0 < n <= |s|
    ensures Tidy(s[..n]) <==> s[n - 1] != '-'
  {
    assert s[..n][n - 1] == s[n - 1];
  }

  lemma DashlessIsTidy(s: string, limit: int)
    requires Dashless(s) && s != "" && limit >= 1
    ensures Take(s, limit) != "" && Tidy(Take(s, limit))
  {
    assert forall i {:trigger s[i]} | 0 <= i < |s| :: s[i] != '-';
  }

  lemma {:induction false} PackIsTidyUnlessCut(name: string, chunks: seq<string>, maxLen: int)
    requires Tidy(name) && name != "" && Clean(name) && Packable(chunks) && Bytes(name) <= maxLen && maxLen >= 20
    ensures Pack(name, chunks, maxLen) != ""
    ensures Tidy(Pack(name, chunks, maxLen)) <==> !CutSomewhere(name, chunks, maxLen)
    decreases |chunks|
  {
    if chunks != [] {
      var chunk := chunks[0];
      assert Clean(chunk) && Dashless(chunk) && Packable(chunks[1..]);
      CutHereOrLater(name, chunks, maxLen);
      if chunk == "" {
        PackIsTidyUnlessCut(name, chunks[1..], maxLen);
      } else {
        var longer := name + "-" + chunk;
        if Bytes(longer) <= maxLen {
          TidyExtend(name, chunk);
          CleanExtend(name, chunk);
          PackIsTidyUnlessCut(longer, chunks[1..], maxLen);
        } else {
          NoCutOfLongNames(longer, chunks[1..], maxLen);
          CutIsTidyUnlessAtDash(name, chunk, maxLen);
        }
      }
    }
  }

  lemma CutIsTidyUnlessAtDash(name: string, chunk: string, maxLen: int)
    requires Tidy(name) && name != "" && Clean(name) && Clean(chunk) && Dashless(chunk) && chunk != ""
    requires Bytes(name) <= maxLen && maxLen >= 20 && Bytes(name + "-" + chunk) > maxLen
    ensures var packed := if Bytes(name) < 20 then Take(Strip(name + "-" + chunk), maxLen - Bytes(name)) else name;
            packed != "" && (Tidy(packed) <==> !CutsAtDash(name, chunk, maxLen))
  {
    if Bytes(name) < 20 {
      var longer, room := name + "-" + chunk, maxLen - Bytes(name);
      CleanExtend(name, chunk);
      CleanStays(longer);
      TidyExtend(name, chunk);
      if room < |longer| {
        PrefixOfTidy(longer, room);
        DashBeforeChunk(name, chunk, room - 1);
      }
    }
  }

  lemma DashBeforeChunk(name: string, chunk: string, i: nat)
    requires Dashless(chunk) && i < |name + "-" + chunk|
    ensures (name + "-" + chunk)[i] == '-' <==> i <= |name| && (name + "-")[i] == '-'
  {
    if i > |name| {
      assert (name + "-" + chunk)[i] == chunk[i - |name| - 1];
    }
  }

  lemma TidyWithSuffix(x: string, d: string)
    requires Dashless(d) && d != ""
    ensures Tidy(x + "-" + d) <==> x != "" && Tidy(x)
  {
    var s := x + "-" + d;
    if x != "" && Tidy(x) {
      TidyExtend(x, d);
    }
    if Tidy(s) && x != "" {
      assert s[|x| - 1] == x[|x| - 1] && s[|x|] == '-';
      assert forall i | 0 <= i < |x| :: s[i] == x[i];
    }
  }

  lemma FirstChunkIsEmpty(title: string, lower: char -> char)
    requires Tame(lower)
    ensures SlugChunks(Chunks(title, lower))
    ensures Chunks(title, lower)[0] == "" <==> Slug(title, lower) == ""
  {
    ChunksAreSlugChunks(title, lower);
    SlugShape(title, lower);
    if Slug(title, lower) != "" {
      FirstChunk(Slug(title, lower));
    }
  }

  /** The packed part, of a slug that is not empty, has no leading, trailing or doubled dash unless a
    * chunk is cut at a dash. */
  lemma UnsuffixedIsTidyUnlessCut(chunks: seq<string>, maxLen: int)
    requires SlugChunks(chunks) && chunks[0] != "" && maxLen >= 20
    ensures Unsuffixed(chunks, maxLen) != ""
    ensures Tidy(Unsuffixed(chunks, maxLen)) <==> !CutSomewhere(chunks[0], chunks[1..], maxLen)
  {
    var first := chunks[0];
    assert Clean(first) && Dashless(first) && Packable(chunks[1..]);
    if Bytes(first) > maxLen {
      CleanStays(first);
      DashlessIsTidy(first, maxLen);
      NoCutOfLongNames(first, chunks[1..], maxLen);
    } else {
      DashlessIsTidy(first, |first|);
      PackIsTidyUnlessCut(first, chunks[1..], maxLen);
    }
  }

  /** With 40 bytes of room for a name of less than 20, the cut is always behind the joining dash. */
  lemma NoCutWithoutSuffix(name: string, chunks: seq<string>)
    ensures !CutSomewhere(name, chunks, 40)
  {
    forall k | 0 <= k < |chunks| ensures !CutsAtDash(Joined(name, chunks[..k]), chunks[k], 40) {
      RunesWithinBytes(Joined(name, chunks[..k]));
    }
  }

  /** The first attempt's name has no leading, trailing or doubled dash. */
  lemma FirstAttemptIsTidy(title: string, attempt: int, lower: char -> char)
    requires Tame(lower) && attempt <= 1
    ensures Tidy(ClaimName(title, attempt, lower))
  {
    var chunks := Chunks(title, lower);
    FirstChunkIsEmpty(title, lower);
    assert ClaimName(title, attempt, lower) == Unsuffixed(chunks, 40);
    if chunks[0] == "" {
      assert Pack("", [], 40) == "";
    } else {
      UnsuffixedIsTidyUnlessCut(chunks, 40);
      NoCutWithoutSuffix(chunks[0], chunks[1..]);
    }
  }

  lemma SuffixedIsTidyIff(chunks: seq<string>, d: string)
    requires SlugChunks(chunks) && Dashless(d) && d != "" && |d| <= 19
    ensures Tidy(Unsuffixed(chunks, 39 - |d|) + "-" + d) <==> chunks[0] != "" && !CutSomewhere(chunks[0], chunks[1..], 39 - |d|)
  {
    TidyWithSuffix(Unsuffixed(chunks, 39 - |d|), d);
    if chunks[0] == "" {
      assert Unsuffixed(chunks, 39 - |d|) == Pack("", [], 39 - |d|);
    } else {
      UnsuffixedIsTidyUnlessCut(chunks, 39 - |d|);
    }
  }

  lemma NumberedIsTidyIff(chunks: seq<string>, attempt: int)
    requires SlugChunks(chunks) && 2 <= attempt < 0x8000_0000_0000_0000
    ensures Tidy(NameOf(chunks, attempt)) <==> chunks[0] != "" && !CutSomewhere(chunks[0], chunks[1..], 40 - |Suffix(attempt)|)
  {
    NumberComesLast(chunks, attempt);
    SuffixedIsTidyIff(chunks, Decimal(attempt));
  }

  /** A later attempt's name has one exactly if the slug is empty, or a chunk is cut at a dash. */
  lemma LaterAttemptIsTidyIff(title: string, attempt: int, lower: char -> char)
    requires Tame(lower) && 2 <= attempt < 0x8000_0000_0000_0000
    ensures var chunks := Chunks(title, lower);
            Tidy(ClaimName(title, attempt, lower)) <==>
            Slug(title, lower) != "" && !CutSomewhere(chunks[0], chunks[1..], 40 - |Suffix(attempt)|)
  {
    FirstChunkIsEmpty(title, lower);
    NumberedIsTidyIff(Chunks(title, lower), attempt);
  }
}
