/** Lower case in claim names. */
module NameCase {
  import opened Names
  import opened NameShape

  /** Lowering what is lowered changes nothing. */
  ghost predicate Idempotent(lower: char -> char) {
    forall c: char :: lower(lower(c)) == lower(c)
  }

  ghost predicate InLowerCase(s: string, lower: char -> char) {
    forall c | c in s :: lower(c) == c
  }

  // What precedes the suffix is in lower case

  lemma SlugIsLowered(title: string, lower: char -> char)
    requires Idempotent(lower)
    ensures InLowerCase(Slug(title, lower), lower)
  {
  }

  lemma {:induction false} ChunksAreLowered(s: string, lower: char -> char)
    requires InLowerCase(s, lower)
    ensures forall chunk | chunk in Split(s) :: InLowerCase(chunk, lower)
  {
    if s != "" {
      var front := s[..|s| - 1];
      ChunksAreLowered(front, lower);
      assert s[|s| - 1] in s;
      var last := Split(front)[|Split(front)| - 1];
      assert last in Split(front);
      assert InLowerCase(last + [s[|s| - 1]], lower);
    }
  }

  lemma {:induction false} JoinedIsLowered(name: string, chunks: seq<string>, lower: char -> char)
    requires lower('-') == '-' && InLowerCase(name, lower) && forall chunk | chunk in chunks :: InLowerCase(chunk, lower)
    ensures InLowerCase(Joined(name, chunks), lower)
    decreases |chunks|
  {
    if chunks != [] {
      assert InLowerCase(chunks[0], lower);
      JoinedIsLowered(if chunks[0] == "" then name else name + "-" + chunks[0], chunks[1..], lower);
    }
  }

  lemma NameIsLowered(title: string, attempt: int, lower: char -> char)
    requires Tame(lower) && Idempotent(lower)
    ensures exists front :: ClaimName(title, attempt, lower) == front + Suffix(attempt) && InLowerCase(front, lower)
  {
    var chunks := Chunks(title, lower);
    var maxLen := 40 - |Suffix(attempt)|;
    SlugIsLowered(title, lower);
    ChunksAreLowered(Slug(title, lower), lower);
    assert KeepsRune(lower, '-');
    assert chunks[0] in chunks;
    JoinedIsLowered(chunks[0], chunks[1..], lower);
    TitleStartsTheSlug(title, maxLen, lower);
    assert InLowerCase(Unsuffixed(chunks, maxLen), lower);
  }

  // Titles that differ in case alone have the same names

  /** Case has nothing to do with what separates words. */
  ghost predicate KeepsSeparators(lower: char -> char) {
    forall c: char {:trigger lower(c)} :: IsSeparator(lower(c)) <==> IsSeparator(c)
  }

  ghost predicate SameButForCase(s: string, t: string, lower: char -> char) {
    |s| == |t| && forall i {:trigger s[i]} {:trigger t[i]} | 0 <= i < |s| :: lower(s[i]) == lower(t[i])
  }

  lemma SameDashes(s: string, t: string, lower: char -> char)
    requires KeepsSeparators(lower) && SameButForCase(s, t, lower)
    ensures SameButForCase(DashSeparators(s), DashSeparators(t), lower)
  {
    forall i {:trigger DashSeparators(s)[i]} | 0 <= i < |s| ensures lower(DashSeparators(s)[i]) == lower(DashSeparators(t)[i]) {
      assert IsSeparator(s[i]) <==> IsSeparator(lower(s[i]));
      assert IsSeparator(t[i]) <==> IsSeparator(lower(t[i]));
    }
  }

  lemma {:induction false} SameTrimLeft(s: string, t: string, lower: char -> char)
    requires Tame(lower) && SameButForCase(s, t, lower)
    ensures SameButForCase(TrimLeft(s), TrimLeft(t), lower)
  {
    if s != "" {
      assert KeepsRune(lower, s[0]) && KeepsRune(lower, t[0]);
      if s[0] == '-' {
        assert SameButForCase(s[1..], t[1..], lower);
        SameTrimLeft(s[1..], t[1..], lower);
      }
    }
  }

  lemma {:induction false} SameTrimRight(s: string, t: string, lower: char -> char)
    requires Tame(lower) && SameButForCase(s, t, lower)
    ensures SameButForCase(TrimRight(s), TrimRight(t), lower)
  {
    if s != "" {
      assert KeepsRune(lower, s[|s| - 1]) && KeepsRune(lower, t[|t| - 1]);
      if s[|s| - 1] == '-' {
        SameTrimRight(s[..|s| - 1], t[..|t| - 1], lower);
      }
    }
  }

  lemma SameNameInAnyCase(title: string, title': string, attempt: int, lower: char -> char)
    requires Tame(lower) && KeepsSeparators(lower) && SameButForCase(title, title', lower)
    ensures ClaimName(title, attempt, lower) == ClaimName(title', attempt, lower)
  {
    var s, t := DashSeparators(title), DashSeparators(title');
    SameDashes(title, title', lower);
    SameTrimLeft(s, t, lower);
    SameTrimRight(TrimLeft(s), TrimLeft(t), lower);
    assert Slug(title, lower) == Slug(title', lower);
  }
}
