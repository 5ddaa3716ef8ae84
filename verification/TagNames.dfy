/** The shape that every tag is brought into before it is looked up.
  *
  * The regular expressions of the source are written as functions that scan from the left. How a
  * rune is lowered is left to Unicode's tables: `lower` stands for it.
  */
module TagNames {
  import Names

  const TAG_MAX_LENGTH := 50

  predicate IsSpace(c: char) {
    c == ' ' || c == '\t' || c == '\n' || c == '\r' || c == '\U{000C}'
  }

  predicate IsDigit(c: char) {
    '0' <= c <= '9'
  }

  /** The letters and digits that a tag may begin and end with. */
  predicate IsAlnum(c: char) {
    || IsDigit(c) || 'A' <= c <= 'Z' || 'a' <= c <= 'z'
    || '\U{00C0}' <= c <= '\U{00D6}' || '\U{00D8}' <= c <= '\U{00F6}' || '\U{00F8}' <= c <= '\U{00FF}'
  }

  predicate Allowed(c: char) {
    IsAlnum(c) || c == '-' || c == '_' || c == '\'' || c == '&' || c == ' ' || c == '+' || c == '/'
  }

  predicate AllAllowed(t: string) {
    forall c | c in t :: Allowed(c)
  }

  const DIGITS := "0123456789"
  const CAPITALS := "ABCDEFGHIJKLMNOPQRSTUVWXYZ"
  const SMALL_LETTERS := "abcdefghijklmnopqrstuvwxyz"

  /** Of Latin-1's upper quarter all are letters but the signs of multiplication and division. */
  predicate IsAccented(c: char) {
    0xC0 <= c as int <= 0xFF && c as int != 0xD7 && c as int != 0xF7
  }

  lemma SpacesAndDigitsAre(c: char)
    ensures IsSpace(c) <==> c in " \t\n\r\U{000C}"
    ensures IsDigit(c) <==> c in DIGITS
  {
  }

  lemma CapitalsAre(c: char)
    ensures c in CAPITALS <==> 'A' <= c <= 'Z'
  {
    if 'A' <= c <= 'Z' {
      assert CAPITALS[c as int - 'A' as int] == c;
    }
  }

  lemma SmallLettersAre(c: char)
    ensures c in SMALL_LETTERS <==> 'a' <= c <= 'z'
  {
    if 'a' <= c <= 'z' {
      assert SMALL_LETTERS[c as int - 'a' as int] == c;
    }
  }

  lemma RunesAre(c: char)
    ensures IsAlnum(c) <==> c in DIGITS || c in CAPITALS || c in SMALL_LETTERS || IsAccented(c)
    ensures Allowed(c) <==> IsAlnum(c) || c in "-_'& +/"
  {
    SpacesAndDigitsAre(c);
    CapitalsAre(c);
    SmallLettersAre(c);
    assert IsAlnum(c) <==> IsDigit(c) || 'A' <= c <= 'Z' || 'a' <= c <= 'z' || IsAccented(c);
  }

  predicate AllDigits(s: string) {
    forall i | 0 <= i < |s| :: IsDigit(s[i])
  }

  predicate AllSpaces(s: string) {
    forall i | 0 <= i < |s| :: IsSpace(s[i])
  }

  function DigitRun(s: string): (n: nat)
    ensures n <= |s| && AllDigits(s[..n]) && (n < |s| ==> !IsDigit(s[n]))
  {
    if s != "" && IsDigit(s[0]) then 1 + DigitRun(s[1..]) else 0
  }

  function HashRun(s: string): (n: nat)
    ensures n <= |s| && (s != "" && s[0] == '#' ==> n > 0)
    ensures (forall i | 0 <= i < n :: s[i] == '#') && (n < |s| ==> s[n] != '#')
  {
    if s != "" && s[0] == '#' then 1 + HashRun(s[1..]) else 0
  }

  function SpaceRun(s: string): (n: nat)
    ensures n <= |s| && (s != "" && IsSpace(s[0]) ==> n > 0)
    ensures n < |s| ==> !IsSpace(s[n])
  {
    if s != "" && IsSpace(s[0]) then 1 + SpaceRun(s[1..]) else 0
  }

  /** A hash with a number and a space after it goes with them; any other run of hashes goes alone. */
  function WithoutHashes(s: string): (t: string)
    ensures '#' !in t && forall c | c in t :: c in s
    decreases |s|
  {
    if s == "" then ""
    else if s[0] == '#' then
      var n := DigitRun(s[1..]);
      if n > 0 && n + 1 < |s| && IsSpace(s[n + 1]) then WithoutHashes(s[n + 2..])
      else WithoutHashes(s[HashRun(s)..])
    else [s[0]] + WithoutHashes(s[1..])
  }

  /** The place of the first closing parenthesis, or the length. */
  function Close(s: string): (n: nat)
    ensures n <= |s| && ')' !in s[..n] && (n < |s| ==> s[n] == ')')
  {
    if s == "" || s[0] == ')' then 0 else 1 + Close(s[1..])
  }

  /** What is in parentheses, unless it is nothing, becomes a space. */
  function WithoutParentheses(s: string): (t: string)
    ensures forall c | c in t :: c in s || c == ' '
    decreases |s|
  {
    if s == "" then ""
    else if s[0] == '(' && 0 < Close(s[1..]) < |s| - 1 then [' '] + WithoutParentheses(s[Close(s[1..]) + 2..])
    else [s[0]] + WithoutParentheses(s[1..])
  }

  function TrimFront(s: string): (t: string)
    ensures t == "" || IsAlnum(t[0])
    ensures forall c | c in t :: c in s
  {
    if s == "" || IsAlnum(s[0]) then s else TrimFront(s[1..])
  }

  function TrimBack(s: string): (t: string)
    ensures t <= s && (t == "" || IsAlnum(t[|t| - 1]))
    ensures forall c | c in t :: c in s
  {
    if s == "" || IsAlnum(s[|s| - 1]) then s else TrimBack(s[..|s| - 1])
  }

  /** Two or more spaces become one; a single one stays what it is. */
  function Squeezed(s: string): (t: string)
    ensures forall c | c in t :: c in s || c == ' '
    ensures t == "" <==> s == ""
    ensures s != "" ==> (if IsSpace(s[0]) then IsSpace(t[0]) else t[0] == s[0])
    decreases |s|
  {
    if s == "" then ""
    else if SpaceRun(s) >= 2 then [' '] + Squeezed(s[SpaceRun(s)..])
    else [s[0]] + Squeezed(s[1..])
  }

  function TrimSpaces(s: string): (t: string)
    ensures forall c | c in t :: c in s
  {
    var t := s[SpaceRun(s)..];
    if t != "" && IsSpace(t[|t| - 1]) then t[..|t| - 1] else t
  }

  function Tidied(s: string): (t: string)
    ensures forall c | c in t :: c in s || c == ' '
  {
    TrimSpaces(Squeezed(TrimBack(TrimFront(s))))
  }

  function Shaped(tag: string, lower: char -> char): string {
    Tidied(WithoutParentheses(WithoutHashes(Names.Lowered(tag, lower))))
  }

  /** The empty tag stands for one that is skipped. */
  function Normalized(tag: string, lower: char -> char): string {
    var t := Shaped(tag, lower);
    if !AllAllowed(t) then ""
    else if Names.Bytes(t) > TAG_MAX_LENGTH then ""
    else t
  }

  // What is left of a text with hashes, parentheses, or spaces: each pair of laws covers all texts

  lemma FirstApart(p: string, x: string)
    requires p != ""
    ensures p + x == [p[0]] + (p[1..] + x)
  {
  }

  /** A number and a space come first. */
  ghost predicate StartsNumbered(s: string) {
    exists n: nat :: 0 < n < |s| && AllDigits(s[..n]) && IsSpace(s[n])
  }

  lemma {:induction false} TextBeforeHashesStays(p: string, rest: string)
    requires '#' !in p
    ensures WithoutHashes(p + rest) == p + WithoutHashes(rest)
  {
    if p == "" {
      assert p + rest == rest;
    } else {
      TextBeforeHashesStays(p[1..], rest);
      assert (p + rest)[1..] == p[1..] + rest;
    }
  }

  lemma NumberedHashGoes(number: string, space: char, rest: string)
    requires number != "" && AllDigits(number) && IsSpace(space)
    ensures WithoutHashes("#" + number + [space] + rest) == WithoutHashes(rest)
  {
    var s, n := "#" + number + [space] + rest, |number|;
    DigitRunIs(number, [space] + rest);
    assert s[1..] == number + ([space] + rest);
    assert s[n + 2..] == rest;
  }

  lemma {:induction false} DigitRunIs(number: string, rest: string)
    requires AllDigits(number) && (rest != "" ==> !IsDigit(rest[0]))
    ensures DigitRun(number + rest) == |number|
  {
    if number != "" {
      assert (number + rest)[1..] == number[1..] + rest;
      DigitRunIs(number[1..], rest);
    }
  }

  /** Hashes go alone, unless it is a single one with a number and a space after it. */
  lemma OtherHashesGo(hashes: string, rest: string)
    requires hashes != "" && (forall i | 0 <= i < |hashes| :: hashes[i] == '#') && (rest != "" ==> rest[0] != '#')
    requires |hashes| == 1 ==> !StartsNumbered(rest)
    ensures WithoutHashes(hashes + rest) == WithoutHashes(rest)
  {
    var s := hashes + rest;
    assert |hashes| == 1 ==> s[1..] == rest;
    HashRunIs(hashes, rest);
    assert s[|hashes|..] == rest;
  }

  lemma {:induction false} HashRunIs(hashes: string, rest: string)
    requires (forall i | 0 <= i < |hashes| :: hashes[i] == '#') && (rest != "" ==> rest[0] != '#')
    ensures HashRun(hashes + rest) == |hashes|
  {
    if hashes != "" {
      assert (hashes + rest)[1..] == hashes[1..] + rest;
      HashRunIs(hashes[1..], rest);
    }
  }

  lemma OtherRuneStays(c: char, rest: string)
    requires c != '('
    ensures WithoutParentheses([c] + rest) == [c] + WithoutParentheses(rest)
  {
    assert ([c] + rest)[1..] == rest;
  }

  lemma {:induction false} TextBeforeParenthesesStays(p: string, rest: string)
    requires '(' !in p
    ensures WithoutParentheses(p + rest) == p + WithoutParentheses(rest)
  {
    if p == "" {
      assert p + rest == rest;
    } else {
      OtherRuneStays(p[0], p[1..] + rest);
      TextBeforeParenthesesStays(p[1..], rest);
      FirstApart(p, rest);
      FirstApart(p, WithoutParentheses(rest));
    }
  }

  lemma {:induction false} CloseIs(inner: string, rest: string)
    requires ')' !in inner && (rest == "" || rest[0] == ')')
    ensures Close(inner + rest) == |inner|
  {
    if inner != "" {
      assert (inner + rest)[1..] == inner[1..] + rest;
      CloseIs(inner[1..], rest);
    }
  }

  lemma ParenthesesBecomeASpace(inner: string, rest: string)
    requires inner != "" && ')' !in inner
    ensures WithoutParentheses("(" + inner + ")" + rest) == " " + WithoutParentheses(rest)
  {
    var s := "(" + inner + ")" + rest;
    CloseIs(inner, ")" + rest);
    assert s[1..] == inner + (")" + rest);
    assert s[|inner| + 2..] == rest;
  }

  /** A parenthesis that is not closed, or closed at once, stays. */
  lemma OtherParenthesesStay(rest: string)
    requires ')' in rest ==> rest[0] == ')'
    ensures WithoutParentheses("(" + rest) == "(" + WithoutParentheses(rest)
  {
    assert ("(" + rest)[1..] == rest;
    if Close(rest) < |rest| {
      assert rest[Close(rest)] in rest;
      assert Close(rest) == 0;
    }
  }

  predicate NoAlnum(s: string) {
    forall i | 0 <= i < |s| :: !IsAlnum(s[i])
  }

  lemma {:induction false} TrimFrontIs(p: string, t: string)
    requires NoAlnum(p) && (t != "" ==> IsAlnum(t[0]))
    ensures TrimFront(p + t) == t
  {
    if p == "" {
      assert p + t == t;
    } else {
      assert (p + t)[1..] == p[1..] + t;
      TrimFrontIs(p[1..], t);
    }
  }

  lemma {:induction false} TrimBackIs(t: string, p: string)
    requires NoAlnum(p) && (t != "" ==> IsAlnum(t[|t| - 1]))
    ensures TrimBack(t + p) == t
  {
    if p == "" {
      assert t + p == t;
    } else {
      assert (t + p)[..|t + p| - 1] == t + p[..|p| - 1];
      TrimBackIs(t, p[..|p| - 1]);
    }
  }

  lemma {:induction false} SpaceRunIs(spaces: string, rest: string)
    requires AllSpaces(spaces) && (rest != "" ==> !IsSpace(rest[0]))
    ensures SpaceRun(spaces + rest) == |spaces|
  {
    if spaces != "" {
      assert (spaces + rest)[1..] == spaces[1..] + rest;
      SpaceRunIs(spaces[1..], rest);
    }
  }

  lemma SqueezeOne(c: char, rest: string)
    requires IsSpace(c) ==> rest != "" && !IsSpace(rest[0])
    ensures Squeezed([c] + rest) == [c] + Squeezed(rest)
  {
    assert ([c] + rest)[1..] == rest;
  }

  lemma RunBecomesOne(spaces: string, rest: string)
    requires |spaces| >= 2 && AllSpaces(spaces) && (rest != "" ==> !IsSpace(rest[0]))
    ensures Squeezed(spaces + rest) == " " + Squeezed(rest)
  {
    SpaceRunIs(spaces, rest);
    assert (spaces + rest)[|spaces|..] == rest;
  }

  lemma FirstOfMore(p: string, more: string)
    requires NoDoubleSpace(p) && p != "" && !IsSpace(p[|p| - 1])
    ensures IsSpace(p[0]) ==> p[1..] + more != "" && !IsSpace((p[1..] + more)[0])
    ensures NoDoubleSpace(p[1..]) && p == [p[0]] + p[1..]
  {
    assert |p| > 1 ==> !(IsSpace(p[0]) && IsSpace(p[1])) && (p[1..] + more)[0] == p[1];
  }

  lemma {:induction false} SpacesBecomeOne(p: string, spaces: string, rest: string)
    requires NoDoubleSpace(p) && (p != "" ==> !IsSpace(p[|p| - 1]))
    requires |spaces| >= 2 && AllSpaces(spaces) && (rest != "" ==> !IsSpace(rest[0]))
    ensures Squeezed(p + (spaces + rest)) == p + (" " + Squeezed(rest))
  {
    RunBecomesOne(spaces, rest);
    if p == "" {
      assert p + (spaces + rest) == spaces + rest;
    } else {
      FirstOfMore(p, spaces + rest);
      SqueezeOne(p[0], p[1..] + (spaces + rest));
      SpacesBecomeOne(p[1..], spaces, rest);
      FirstApart(p, spaces + rest);
      FirstApart(p, " " + Squeezed(rest));
    }
  }

  /** All spaces in front go, and one at the end. */
  lemma TrimSpacesIs(spaces: string, t: string, last: char)
    requires AllSpaces(spaces) && t != "" && !IsSpace(t[0]) && !IsSpace(t[|t| - 1])
    ensures TrimSpaces(spaces + t) == t
    ensures IsSpace(last) ==> TrimSpaces(spaces + t + [last]) == t
  {
    SpaceRunIs(spaces, t);
    assert (spaces + t)[|spaces|..] == t;
    if IsSpace(last) {
      assert spaces + t + [last] == spaces + (t + [last]);
      SpaceRunIs(spaces, t + [last]);
      assert (spaces + (t + [last]))[|spaces|..] == t + [last];
    }
  }

  // What comes out

  predicate NoDoubleSpace(s: string) {
    forall i | 0 <= i < |s| - 1 :: !(IsSpace(s[i]) && IsSpace(s[i + 1]))
  }

  ghost predicate IsLow(s: string, lower: char -> char) {
    forall c | c in s :: lower(c) == c
  }

  predicate IsTidy(t: string) {
    NoDoubleSpace(t) && (t == "" || (IsAlnum(t[0]) && IsAlnum(t[|t| - 1])))
  }

  /** The shape of a tag that is not skipped. */
  ghost predicate IsNormal(t: string, lower: char -> char) {
    && t != "" && IsTidy(t) && AllAllowed(t)
    && Names.Bytes(t) <= TAG_MAX_LENGTH
    && IsLow(t, lower)
  }

  /** Lowering twice is lowering once, and a space has no other case. */
  ghost predicate Lowers(lower: char -> char) {
    lower(' ') == ' ' && forall c: char :: lower(lower(c)) == lower(c)
  }

  lemma {:induction false} SqueezedHasNoDoubles(s: string)
    ensures NoDoubleSpace(Squeezed(s))
    decreases |s|
  {
    if s != "" {
      var n := if SpaceRun(s) >= 2 then SpaceRun(s) else 1;
      SqueezedHasNoDoubles(s[n..]);
      var rest := Squeezed(s[n..]);
      assert Squeezed(s)[1..] == rest;
      assert rest != "" && IsSpace(s[0]) ==> !IsSpace(s[n]);
    }
  }

  function Last(s: string): char
    requires s != ""
  {
    s[|s| - 1]
  }

  lemma LastOfRest(c: char, rest: string)
    ensures Last([c] + rest) == if rest == "" then c else Last(rest)
  {
  }

  lemma {:induction false} SqueezedKeepsEnd(s: string)
    requires s != "" && !IsSpace(Last(s))
    ensures Last(Squeezed(s)) == Last(s)
    decreases |s|
  {
    SpaceRunStops(s);
    var n := if SpaceRun(s) >= 2 then SpaceRun(s) else 1;
    var rest := s[n..];
    LastOfRest(if n >= 2 then ' ' else s[0], Squeezed(rest));
    if rest != "" {
      assert Last(rest) == Last(s);
      SqueezedKeepsEnd(rest);
    }
  }

  lemma {:induction false} SpaceRunStops(s: string)
    requires s != "" && !IsSpace(Last(s))
    ensures SpaceRun(s) < |s|
  {
    if IsSpace(s[0]) {
      SpaceRunStops(s[1..]);
    }
  }

  lemma {:induction false} NothingToSqueeze(s: string)
    requires NoDoubleSpace(s)
    ensures Squeezed(s) == s
  {
    if s != "" {
      assert NoDoubleSpace(s[1..]);
      assert SpaceRun(s) < 2 by {
        if |s| > 1 {
          assert !(IsSpace(s[0]) && IsSpace(s[1]));
        }
      }
      NothingToSqueeze(s[1..]);
    }
  }

  lemma {:induction false} NoHashes(s: string)
    requires '#' !in s
    ensures WithoutHashes(s) == s
  {
    if s != "" {
      NoHashes(s[1..]);
    }
  }

  lemma {:induction false} NoParentheses(s: string)
    requires '(' !in s
    ensures WithoutParentheses(s) == s
  {
    if s != "" {
      NoParentheses(s[1..]);
    }
  }

  /** The last trim of the source never has anything to do. */
  lemma TidiedIsTidy(s: string)
    ensures IsTidy(Tidied(s))
    ensures Tidied(s) == Squeezed(TrimBack(TrimFront(s)))
  {
    var trimmed := TrimBack(TrimFront(s));
    SqueezedHasNoDoubles(trimmed);
    if trimmed != "" {
      SqueezedKeepsEnd(trimmed);
      assert SpaceRun(Squeezed(trimmed)) == 0;
    }
  }

  lemma ShapedIsLow(tag: string, lower: char -> char)
    requires Lowers(lower)
    ensures IsLow(Shaped(tag, lower), lower)
  {
    var lowered := Names.Lowered(tag, lower);
    forall c | c in Shaped(tag, lower) ensures lower(c) == c {
      assert c == ' ' || c in lowered;
    }
  }

  /** Every tag comes out normal, or is skipped. */
  lemma NormalizedIsNormal(tag: string, lower: char -> char)
    requires Lowers(lower)
    ensures Normalized(tag, lower) == "" || IsNormal(Normalized(tag, lower), lower)
  {
    TidiedIsTidy(WithoutParentheses(WithoutHashes(Names.Lowered(tag, lower))));
    ShapedIsLow(tag, lower);
  }

  lemma TidyStays(t: string)
    requires IsTidy(t)
    ensures Tidied(t) == t
  {
    NothingToSqueeze(t);
    assert TrimFront(t) == t;
    assert TrimBack(t) == t;
    if t != "" {
      NothingAround(t);
    }
  }

  lemma NothingAround(t: string)
    requires t != "" && IsAlnum(t[0]) && IsAlnum(t[|t| - 1])
    ensures TrimSpaces(t) == t
  {
    assert SpaceRun(t) == 0;
  }

  lemma AllowedHasNoMarks(t: string)
    requires AllAllowed(t)
    ensures '#' !in t && '(' !in t
  {
    assert !Allowed('#') && !Allowed('(');
  }

  /** A normal tag is left as it is. */
  lemma NormalStays(t: string, lower: char -> char)
    requires IsNormal(t, lower)
    ensures Normalized(t, lower) == t
  {
    assert Names.Lowered(t, lower) == t;
    AllowedHasNoMarks(t);
    NoHashes(t);
    NoParentheses(t);
    TidyStays(t);
  }

  /** A rune is lowered to a hash or a parenthesis only if it is one, and those stay. */
  ghost predicate KeepsMarks(lower: char -> char) {
    forall c: char {:trigger lower(c)} | c == '#' || c == '(' || c == ')' || lower(c) == '#' || lower(c) == '(' || lower(c) == ')' :: lower(c) == c
  }

  /** Hashes before a normal tag go; a single one takes a number and a space after it along. */
  lemma HashBeforeATag(t: string, lower: char -> char)
    requires IsNormal(t, lower) && KeepsMarks(lower) && !StartsNumbered(t)
    ensures Normalized("#" + t, lower) == t
  {
    assert Names.Lowered("#" + t, lower) == "#" + t;
    AllowedHasNoMarks(t);
    assert t[0] in t;
    OtherHashesGo("#", t);
    NoHashes(t);
    NoParentheses(t);
    TidyStays(t);
  }

  lemma NumberedHashBeforeATag(number: string, t: string, lower: char -> char)
    requires number != "" && AllDigits(number) && IsLow(number, lower)
    requires IsNormal(t, lower) && KeepsMarks(lower) && lower(' ') == ' '
    ensures Normalized("#" + number + " " + t, lower) == t
  {
    assert Names.Lowered("#" + number + " " + t, lower) == "#" + number + " " + t;
    NumberedHashGoes(number, ' ', t);
    AllowedHasNoMarks(t);
    NoHashes(t);
    NoParentheses(t);
    TidyStays(t);
  }

  lemma ParenthesesAtTheEnd(t: string, inner: string)
    requires '(' !in t && inner != "" && ')' !in inner
    ensures WithoutParentheses(t + "(" + inner + ")") == t + " "
  {
    ParenthesesBecomeASpace(inner, "");
    TextBeforeParenthesesStays(t, "(" + inner + ")");
    assert "(" + inner + ")" + "" == "(" + inner + ")";
    assert t + ("(" + inner + ")") == t + "(" + inner + ")";
  }

  /** What is in parentheses after a normal tag goes, and they do. */
  lemma ParenthesesAfterATag(t: string, inner: string, lower: char -> char)
    requires IsNormal(t, lower) && KeepsMarks(lower)
    requires inner != "" && ')' !in inner && '#' !in inner
    ensures Normalized(t + "(" + inner + ")", lower) == t
  {
    var low := Names.Lowered(inner, lower);
    assert Names.Lowered(t + "(" + inner + ")", lower) == t + "(" + low + ")";
    assert ')' !in low && '#' !in low;
    AllowedHasNoMarks(t);
    NoHashes(t + "(" + low + ")");
    ParenthesesAtTheEnd(t, low);
    TrimsBack(t);
  }

  lemma TrimsBack(t: string)
    requires IsTidy(t) && t != ""
    ensures Tidied(t + " ") == t
  {
    assert TrimFront(t + " ") == t + " ";
    TrimBackIs(t, " ");
    assert TrimFront(t) == t && TrimBack(t) == t;
    TidyStays(t);
  }

  /** Normalizing is idempotent, and what is not skipped is short. */
  lemma NormalizeTwice(tag: string, lower: char -> char)
    requires Lowers(lower)
    ensures Normalized(Normalized(tag, lower), lower) == Normalized(tag, lower)
    ensures Names.Bytes(Normalized(tag, lower)) <= TAG_MAX_LENGTH
  {
    NormalizedIsNormal(tag, lower);
    if Normalized(tag, lower) != "" {
      NormalStays(Normalized(tag, lower), lower);
    }
  }

  /** An entry of the tables can be found, as some tag normalizes to it, exactly if it has the normal
    * shape itself. */
  lemma FoundExactlyIfNormal(entry: string, lower: char -> char)
    requires Lowers(lower) && entry != ""
    ensures (exists tag :: Normalized(tag, lower) == entry) <==> IsNormal(entry, lower)
  {
    if tag :| Normalized(tag, lower) == entry {
      NormalizedIsNormal(tag, lower);
    }
    if IsNormal(entry, lower) {
      NormalStays(entry, lower);
    }
  }

  /** So a rune that is not allowed makes an entry useless. Of the 35 entries that are never found,
    * thirteen have a parenthesis; others have a colon, a point, a hash or letters of another script. */
  lemma OtherRunesAreNeverFound(tag: string, entry: string, c: char, lower: char -> char)
    requires Lowers(lower) && c in entry && !Allowed(c)
    ensures Normalized(tag, lower) != entry
  {
    NormalizedIsNormal(tag, lower);
    if Normalized(tag, lower) != "" {
      assert AllAllowed(Normalized(tag, lower));
    }
  }

  lemma ParenthesesAreNeverFound(tag: string, entry: string, lower: char -> char)
    requires Lowers(lower) && '(' in entry
    ensures Normalized(tag, lower) != entry
  {
    OtherRunesAreNeverFound(tag, entry, '(', lower);
  }
}
