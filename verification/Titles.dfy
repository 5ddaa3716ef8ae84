/** Titles whose claim names come out badly, one for each way in which that happens. */
module Titles {
  import opened Names
  import opened NameCase
  import opened NameShape

  // A title of plain words has those words as its chunks

  ghost predicate IsWord(w: string) {
    w != "" && NoSeparators(w) && Dashless(w)
  }

  function Sentence(words: seq<string>): string
    requires words != []
  {
    if |words| == 1 then words[0] else Sentence(words[..|words| - 1]) + " " + words[|words| - 1]
  }

  ghost predicate AreWords(words: seq<string>) {
    words != [] && forall i | 0 <= i < |words| :: IsWord(words[i])
  }

  lemma {:induction false} DashesOfSentence(words: seq<string>)
    requires AreWords(words)
    ensures DashSeparators(Sentence(words)) == Join(words)
    ensures Join(words) != "" && Join(words)[0] != '-' && Join(words)[|Join(words)| - 1] != '-'
  {
    var w := words[|words| - 1];
    assert IsWord(w) && DashSeparators(w) == w && w[0] != '-' && w[|w| - 1] != '-';
    if |words| > 1 {
      var init := words[..|words| - 1];
      DashesOfSentence(init);
      var s := Sentence(words);
      assert s == Sentence(init) + " " + w;
      assert DashSeparators(s) == DashSeparators(Sentence(init)) + "-" + w;
    }
  }

  lemma SplitOneMore(s: string, c: char)
    requires c != '-'
    ensures var chunks := Split(s); Split(s + [c]) == chunks[..|chunks| - 1] + [chunks[|chunks| - 1] + [c]]
  {
    assert (s + [c])[..|s|] == s;
  }

  lemma {:induction false} SplitAppends(s: string, w: string)
    requires Dashless(w)
    ensures Split(s + "-" + w) == Split(s) + [w]
  {
    var t := s + "-" + w;
    if w == "" {
      assert t[..|t| - 1] == s;
    } else {
      var init, c := w[..|w| - 1], w[|w| - 1];
      assert init + [c] == w;
      SplitAppends(s, init);
      SplitOneMore(s + "-" + init, c);
      assert t == s + "-" + init + [c];
    }
  }

  lemma {:induction false} SplitOfDashless(w: string)
    requires Dashless(w)
    ensures Split(w) == [w]
  {
    if w != "" {
      SplitOfDashless(w[..|w| - 1]);
      assert w[..|w| - 1] + [w[|w| - 1]] == w;
    }
  }

  lemma {:induction false} SplitOfJoin(words: seq<string>)
    requires AreWords(words)
    ensures Split(Join(words)) == words
  {
    var w := words[|words| - 1];
    assert IsWord(w);
    if |words| == 1 {
      SplitOfDashless(w);
    } else {
      var init := words[..|words| - 1];
      SplitOfJoin(init);
      SplitAppends(Join(init), w);
      assert words == init + [w];
    }
  }

  function LoweredWords(words: seq<string>, lower: char -> char): (lowered: seq<string>)
    ensures |lowered| == |words| && forall i | 0 <= i < |words| :: lowered[i] == Lowered(words[i], lower)
  {
    seq(|words|, i requires 0 <= i < |words| => Lowered(words[i], lower))
  }

  lemma LoweredAreWords(words: seq<string>, lower: char -> char)
    requires AreWords(words) && Tame(lower)
    ensures AreWords(LoweredWords(words, lower))
  {
    forall i | 0 <= i < |words| ensures IsWord(Lowered(words[i], lower)) {
      var w := words[i];
      assert IsWord(w);
      forall k | 0 <= k < |w| ensures !IsSeparator(lower(w[k])) && lower(w[k]) != '-' {
        assert KeepsRune(lower, w[k]) && w[k] in w;
      }
    }
  }

  lemma {:induction false} LoweredJoin(words: seq<string>, lower: char -> char)
    requires words != [] && lower('-') == '-'
    ensures Join(LoweredWords(words, lower)) == Lowered(Join(words), lower)
  {
    if |words| > 1 {
      var init, w := words[..|words| - 1], words[|words| - 1];
      LoweredJoin(init, lower);
      assert LoweredWords(words, lower)[..|words| - 1] == LoweredWords(init, lower);
      assert Lowered(Join(init) + "-" + w, lower) == Lowered(Join(init), lower) + "-" + Lowered(w, lower);
    }
  }

  /** The chunks of a sentence are its words in lower case. */
  lemma ChunksOfSentence(words: seq<string>, lower: char -> char)
    requires AreWords(words) && Tame(lower)
    ensures Chunks(Sentence(words), lower) == LoweredWords(words, lower)
  {
    DashesOfSentence(words);
    assert KeepsRune(lower, '-');
    LoweredJoin(words, lower);
    assert Slug(Sentence(words), lower) == Lowered(Join(words), lower);
    LoweredAreWords(words, lower);
    SplitOfJoin(LoweredWords(words, lower));
  }

  lemma {:induction false} PlainBytes(s: string)
    requires forall i | 0 <= i < |s| :: s[i] < '\U{0080}'
    ensures Bytes(s) == |s|
  {
    if s != "" {
      PlainBytes(s[..|s| - 1]);
    }
  }

  lemma Numbers()
    ensures Suffix(2) == "-2" && Decimal(2) == "2" && Suffix(10) == "-10" && Decimal(10) == "10" && Suffix(100) == "-100"
  {
    assert Decimal(2) == "2" && Decimal(1) == "1" && Decimal(0) == "0";
    assert Decimal(10) == Decimal(1) + "0";
    assert Decimal(100) == Decimal(10) + "0";
  }

  lemma PlainWord(w: string)
    requires w != "" && forall i | 0 <= i < |w| :: 'a' <= w[i] <= 'z' || '0' <= w[i] <= '9'
    ensures IsWord(w) && Bytes(w) == |w|
  {
    PlainBytes(w);
  }

  lemma TwoWords(a: string, b: string, lower: char -> char)
    requires Tame(lower) && IsWord(a) && IsWord(b) && InLowerCase(a + " " + b, lower)
    ensures Chunks(a + " " + b, lower) == [a, b]
  {
    var words := [a, b];
    assert words[..1] == [a] && Sentence(words) == a + " " + b;
    ChunksOfSentence(words, lower);
    StaysLowered(a, a + " " + b, lower);
    StaysLowered(b, a + " " + b, lower);
  }

  lemma StaysLowered(w: string, title: string, lower: char -> char)
    requires InLowerCase(title, lower) && forall c | c in w :: c in title
    ensures Lowered(w, lower) == w
  {
    assert forall i | 0 <= i < |w| :: w[i] in w;
  }

  lemma NothingToStrip(a: string, b: string)
    requires NoSeparators(a) && NoSeparators(b)
    ensures Strip(a + "-" + b) == a + "-" + b
  {
    SlugIsClean(a);
    SlugIsClean(b);
    CleanExtend(a, b);
    CleanStays(a + "-" + b);
  }

  lemma BytesWithDash(a: string, b: string)
    ensures Bytes(a + "-" + b) == Bytes(a) + 1 + Bytes(b)
  {
    BytesOfConcat(a + "-", b);
    BytesOfConcat(a, "-");
    PlainBytes("-");
  }

  // How a second chunk that does not fit is cut

  /** `cut` is as much of the joined chunks as there is room for. */
  lemma SecondChunkIsCut(a: string, b: string, longer: string, cut: string, maxLen: int)
    requires b != "" && longer == a + "-" + b && Strip(longer) == longer && cut <= longer && |cut| == maxLen - Bytes(a)
    requires Bytes(a) < 20 <= maxLen < Bytes(longer)
    ensures Unsuffixed([a, b], maxLen) == cut
  {
    assert [a, b][1..] == [b];
  }

  /** The joining dash is all that is left of the second chunk. */
  lemma DashIsLeft(a: string, b: string, maxLen: int)
    requires b != "" && Strip(a + "-" + b) == a + "-" + b
    requires Bytes(a) < 20 <= maxLen < Bytes(a) + 1 + Bytes(b) && maxLen - Bytes(a) == |a| + 1
    ensures Unsuffixed([a, b], maxLen) == a + "-"
  {
    BytesWithDash(a, b);
    SecondChunkIsCut(a, b, a + "-" + b, a + "-", maxLen);
  }

  /** With the number of the attempt as the suffix, nothing at all is left of the second chunk. Without
    * a suffix it is cut right after the number that it begins with. */
  lemma NumberIsLeft(a: string, b: string, longer: string, cut: string, maxLen: int)
    requires b != "" && longer == a + "-" + b && Strip(longer) == longer && a <= cut <= longer
    requires Bytes(a) < 20 <= maxLen <= 40 < Bytes(longer) && |a| == maxLen - Bytes(a) && |cut| == 40 - Bytes(a)
    ensures Unsuffixed([a, b], 40) == cut && Unsuffixed([a, b], maxLen) == a
  {
    SecondChunkIsCut(a, b, longer, cut, 40);
    SecondChunkIsCut(a, b, longer, a, maxLen);
  }

  /** The second chunk is a number. Without a suffix it fits; with the number as the suffix it does not. */
  lemma NumberFits(a: string, d: string)
    requires d != "" && 20 <= Bytes(a) && Bytes(a) + 1 + |d| <= 40 < Bytes(a) + 2 + 2 * |d| && Bytes(d) == |d|
    ensures Unsuffixed([a, d], 40) == a + "-" + d && Unsuffixed([a, d], 39 - |d|) == a
  {
    BytesWithDash(a, d);
    assert [a, d][1..] == [d] && [d][1..] == [];
    assert Pack(a, [d], 40) == Pack(a + "-" + d, [], 40);
  }

  /** There is less room for a third chunk than the first two take, and it ends after the first. */
  lemma ThirdChunkIsCut(a: string, o: string, b: string, name: string, longer: string, cut: string, maxLen: int)
    requires o != "" && b != "" && name == a + "-" + o && longer == name + "-" + b && Strip(longer) == longer
    requires Bytes(a) < Bytes(name) < 20 <= maxLen < Bytes(longer)
    requires cut <= longer && |cut| == maxLen - Bytes(name)
    ensures Unsuffixed([a, o, b], maxLen) == cut
  {
    assert [a, o, b][1..] == [o, b] && [o, b][1..] == [b] && [name, b][1..] == [b];
    assert Pack(a, [o, b], maxLen) == Pack(name, [b], maxLen) == Unsuffixed([name, b], maxLen);
    SecondChunkIsCut(name, b, longer, cut, maxLen);
  }

  const TELECOMMUNICATIONS := "telecommunications"
  const WITH_WIDE_LETTER := "t\U{00E9}lecommunications"
  const COUNTERINTELLIGENCE := "counterintelligence"
  const ELECTROMAGNETISM := "electromagnetism"
  const HIPPOPOTOMONSTROSESQUIPPEDALIOPHOBIA := "hippopotomonstrosesquippedaliophobia"
  const LEAGUES := "0000leaguesunderthesea"

  // Dashes where none should be

  /** A title without anything to make a name of: the second attempt is a dash and a number. */
  lemma LeadingDash(lower: char -> char)
    requires Tame(lower)
    ensures ClaimName("???", 2, lower) == "-2"
  {
    Numbers();
    assert DashSeparators("???") == "---";
    assert TrimLeft("---") == "" by {
      assert "---"[1..] == "--" && "--"[1..] == "-" && "-"[1..] == "";
    }
    assert Slug("???", lower) == "";
    assert Chunks("???", lower) == [""];
    assert Unsuffixed([""], 38) == Pack("", [], 38);
  }

  /** Plain letters: at the tenth attempt nothing is left of the second word but a dash. */
  lemma DoubledDash(lower: char -> char)
    requires Tame(lower) && InLowerCase(TELECOMMUNICATIONS + " " + COUNTERINTELLIGENCE, lower)
    ensures ClaimName(TELECOMMUNICATIONS + " " + COUNTERINTELLIGENCE, 10, lower) == TELECOMMUNICATIONS + "-" + "-10"
  {
    Numbers();
    var a, b := TELECOMMUNICATIONS, COUNTERINTELLIGENCE;
    PlainWord(a);
    PlainWord(b);
    TwoWords(a, b, lower);
    NothingToStrip(a, b);
    DashIsLeft(a, b, 37);
  }

  /** A letter of two bytes: here it is the second attempt. */
  lemma DoubledDashOfWideLetters(lower: char -> char)
    requires Tame(lower) && InLowerCase(WITH_WIDE_LETTER + " " + COUNTERINTELLIGENCE, lower)
    ensures ClaimName(WITH_WIDE_LETTER + " " + COUNTERINTELLIGENCE, 2, lower) == WITH_WIDE_LETTER + "-" + "-2"
  {
    Numbers();
    var a, b := WITH_WIDE_LETTER, COUNTERINTELLIGENCE;
    WideWord();
    WideWordBytes();
    PlainWord(b);
    TwoWords(a, b, lower);
    NothingToStrip(a, b);
    DashIsLeft(a, b, 38);
  }

  lemma WideWord()
    ensures IsWord(WITH_WIDE_LETTER)
  {
  }

  lemma WideWordBytes()
    ensures |WITH_WIDE_LETTER| == 18 && Bytes(WITH_WIDE_LETTER) == 19
  {
    WideBytes("t", "\U{00E9}", "lecommunications");
    assert WITH_WIDE_LETTER == "t" + "\U{00E9}" + "lecommunications";
  }

  lemma WideBytes(a: string, wide: string, b: string)
    requires |wide| == 1 && '\U{0080}' <= wide[0] < '\U{0800}'
    requires (forall i | 0 <= i < |a| :: a[i] < '\U{0080}') && (forall i | 0 <= i < |b| :: b[i] < '\U{0080}')
    ensures Bytes(a + wide + b) == |a| + 2 + |b|
  {
    PlainBytes(a);
    PlainBytes(b);
    assert wide[..0] == "";
    BytesOfConcat(a, wide);
    BytesOfConcat(a + wide, b);
  }

  lemma CutInside(a: string, o: string, b: string)
    requires IsWord(a) && IsWord(o) && IsWord(b) && Bytes(a) == |a| == 16 && Bytes(o) == |o| == 2 && Bytes(b) == |b| == 19
    ensures NameOf([a, o, b], 100) == a + "-" + "-100"
  {
    Numbers();
    NothingToStrip(a, o);
    NothingToStrip(a + "-" + o, b);
    BytesWithDash(a, o);
    BytesWithDash(a + "-" + o, b);
    ThirdChunkIsCut(a, o, b, a + "-" + o, a + "-" + o + "-" + b, a + "-", 36);
  }

  /** With a suffix of three digits the room for a third word can end between the first two. */
  lemma DoubledDashInside(lower: char -> char)
    requires Tame(lower) && InLowerCase(ELECTROMAGNETISM + " " + "of" + " " + COUNTERINTELLIGENCE, lower)
    ensures ClaimName(ELECTROMAGNETISM + " " + "of" + " " + COUNTERINTELLIGENCE, 100, lower) == ELECTROMAGNETISM + "-" + "-100"
  {
    PlainWord(ELECTROMAGNETISM);
    PlainWord("of");
    PlainWord(COUNTERINTELLIGENCE);
    ThreeWords(ELECTROMAGNETISM, "of", COUNTERINTELLIGENCE, lower);
    CutInside(ELECTROMAGNETISM, "of", COUNTERINTELLIGENCE);
  }

  lemma ThreeWords(a: string, b: string, c: string, lower: char -> char)
    requires Tame(lower) && IsWord(a) && IsWord(b) && IsWord(c) && InLowerCase(a + " " + b + " " + c, lower)
    ensures Chunks(a + " " + b + " " + c, lower) == [a, b, c]
  {
    var words := [a, b, c];
    assert words[..2] == [a, b] && [a, b][..1] == [a];
    assert Sentence([a, b]) == a + " " + b;
    assert Sentence(words) == a + " " + b + " " + c;
    ChunksOfSentence(words, lower);
    StaysLowered(a, Sentence(words), lower);
    StaysLowered(b, Sentence(words), lower);
    StaysLowered(c, Sentence(words), lower);
  }

  // The same name for two attempts

  lemma CutAfterTwo(a: string, b: string)
    requires IsWord(a) && IsWord(b) && b[0] == '2' && Bytes(a) == |a| == 19 && Bytes(b) == |b| >= 21
    ensures NameOf([a, b], 1) == NameOf([a, b], 2) == a + "-2"
  {
    Numbers();
    NothingToStrip(a, b);
    BytesWithDash(a, b);
    assert a + "-2" == (a + "-" + b)[..|a| + 2];
    NumberIsLeft(a, b, a + "-" + b, a + "-2", 38);
  }

  /** The first attempt cuts the second word after its first digit. */
  lemma SameNameByACut(lower: char -> char)
    requires Tame(lower) && InLowerCase(COUNTERINTELLIGENCE + " " + ("2" + LEAGUES), lower)
    ensures var title := COUNTERINTELLIGENCE + " " + ("2" + LEAGUES);
            ClaimName(title, 1, lower) == ClaimName(title, 2, lower) == COUNTERINTELLIGENCE + "-2"
  {
    PlainWord(COUNTERINTELLIGENCE);
    PlainWord("2" + LEAGUES);
    TwoWords(COUNTERINTELLIGENCE, "2" + LEAGUES, lower);
    CutAfterTwo(COUNTERINTELLIGENCE, "2" + LEAGUES);
  }

  lemma TenFits(a: string)
    requires 35 <= Bytes(a) <= 37
    ensures NameOf([a, "10"], 1) == NameOf([a, "10"], 10) == a + "-10"
  {
    Numbers();
    PlainBytes("10");
    NumberFits(a, "10");
    assert a + "-" + "10" == a + "-10";
  }

  /** The second word is the number itself. */
  lemma SameNameByANumber(lower: char -> char)
    requires Tame(lower) && InLowerCase(HIPPOPOTOMONSTROSESQUIPPEDALIOPHOBIA + " " + "10", lower)
    ensures var title := HIPPOPOTOMONSTROSESQUIPPEDALIOPHOBIA + " " + "10";
            ClaimName(title, 1, lower) == ClaimName(title, 10, lower) == HIPPOPOTOMONSTROSESQUIPPEDALIOPHOBIA + "-10"
  {
    PlainWord(HIPPOPOTOMONSTROSESQUIPPEDALIOPHOBIA);
    PlainWord("10");
    TwoWords(HIPPOPOTOMONSTROSESQUIPPEDALIOPHOBIA, "10", lower);
    TenFits(HIPPOPOTOMONSTROSESQUIPPEDALIOPHOBIA);
  }
}
