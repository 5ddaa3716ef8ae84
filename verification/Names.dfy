/** Turning a video's title into a claim name.
  *
  * A string is a sequence of runes. The code measures some lengths in UTF-8 bytes and some in
  * runes. How a rune is lowered is left to Unicode's tables: `lower` stands for it.
  */
module Names {

  // Lengths in bytes

  function ByteWidth(c: char): (w: nat)
    ensures 1 <= w <= 4
  {
    var r := c as int;
    if r < 0x80 then 1 else if r < 0x800 then 2 else if r < 0x1_0000 then 3 else 4
  }

  /** How many values UTF-8 can write in `w` bytes: a sole byte has seven bits for them, the first of
    * several has `7 - w`, and the others have six each. */
  function Capacity(w: nat): nat {
    if w == 0 then 0 else if w == 1 then Power2(7) else Power2(5 * w + 1)
  }

  function Power2(k: nat): nat {
    if k == 0 then 1 else 2 * Power2(k - 1)
  }

  /** A rune takes as few bytes as can hold it. */
  lemma WidthIsLeast(c: char)
    ensures Capacity(ByteWidth(c) - 1) <= c as int < Capacity(ByteWidth(c))
  {
    assert Power2(7) == 0x80;
    assert Power2(11) == 0x10 * Power2(7);
    assert Power2(16) == 0x20 * Power2(11);
    assert Power2(21) == 0x20 * Power2(16);
  }

  function Bytes(s: string): nat {
    if s == "" then 0 else Bytes(s[..|s| - 1]) + ByteWidth(s[|s| - 1])
  }

  lemma {:induction false} BytesOfConcat(a: string, b: string)
    ensures Bytes(a + b) == Bytes(a) + Bytes(b)
  {
    if b == "" {
      assert a + b == a;
    } else {
      assert (a + b)[..|a + b| - 1] == a + b[..|b| - 1];
      BytesOfConcat(a, b[..|b| - 1]);
    }
  }

  lemma {:induction false} RunesWithinBytes(s: string)
    ensures |s| <= Bytes(s) <= 4 * |s|
  {
    if s != "" {
      RunesWithinBytes(s[..|s| - 1]);
    }
  }

  // Decimal numbers

  function Digit(d: nat): (c: char)
    requires d < 10
    ensures c != '-' && c as int == '0' as int + d
  {
    "0123456789"[d]
  }

  function Decimal(n: nat): (s: string)
    ensures s != "" && '-' !in s
    ensures |s| == 1 <==> n < 10
  {
    if n < 10 then [Digit(n)] else Decimal(n / 10) + [Digit(n % 10)]
  }

  lemma DecimalEnds(n: nat)
    requires n >= 10
    ensures var s := Decimal(n); s[..|s| - 1] == Decimal(n / 10) && s[|s| - 1] == Digit(n % 10)
  {
  }

  /** The number that a string of digits denotes. */
  function Number(s: string): int {
    if s == "" then 0 else 10 * Number(s[..|s| - 1]) + (s[|s| - 1] as int - '0' as int)
  }

  lemma {:induction false} NumberOfDecimal(n: nat)
    ensures Number(Decimal(n)) == n
  {
    if n >= 10 {
      DecimalEnds(n);
      NumberOfDecimal(n / 10);
    }
  }

  lemma DecimalIsInjective(m: nat, n: nat)
    requires Decimal(m) == Decimal(n)
    ensures m == n
  {
    NumberOfDecimal(m);
    NumberOfDecimal(n);
  }

  function Power10(k: nat): nat {
    if k == 0 then 1 else 10 * Power10(k - 1)
  }

  lemma {:induction false} DecimalLength(n: nat, k: nat)
    requires n < Power10(k) && k > 0
    ensures |Decimal(n)| <= k
  {
    if n >= 10 {
      DecimalLength(n / 10, k - 1);
    }
  }

  // Slugs

  /** The runes that a claim name must not have: they become dashes. */
  predicate IsSeparator(c: char) {
    || Blacklisted(c)
    || c == ' ' || c == '\t' || c == '\U{000C}'
    || c == '=' || c == '#' || c == '$' || c == '@' || c == '*' || c == '%' || c == '?' || c == ';' || c == '\\' || c == '\"'
    || c == '{' || c == '}' || c == '|' || c == '^' || c == '~' || c == '`' || c == '[' || c == ']'
    || c == '\U{FF1F}' || c == '\U{3001}' || c == '\U{FF5C}'
  }

  /** The runes that `truncateUnicode` strips. */
  predicate Blacklisted(c: char) {
    c == '&' || c == '>' || c == '<' || c == '/' || c == ':' || c == '\n' || c == '\r'
  }

  const SEPARATORS := " =&#:$@*%\U{FF1F}?;\U{3001}\\\"/<>%{}|\U{FF5C}^~`[]\t\n\U{000C}\r"
  const BLACKLIST := "&></:\n\r"

  lemma SeparatorsAre(c: char)
    ensures IsSeparator(c) <==> c in SEPARATORS
    ensures Blacklisted(c) <==> c in BLACKLIST
  {
  }

  function DashSeparators(title: string): (s: string)
    ensures |s| == |title|
    ensures forall i | 0 <= i < |s| :: s[i] == if IsSeparator(title[i]) then '-' else title[i]
  {
    seq(|title|, i requires 0 <= i < |title| => if IsSeparator(title[i]) then '-' else title[i])
  }

  function TrimLeft(s: string): string {
    if s != "" && s[0] == '-' then TrimLeft(s[1..]) else s
  }

  function TrimRight(s: string): string {
    if s != "" && s[|s| - 1] == '-' then TrimRight(s[..|s| - 1]) else s
  }

  function Lowered(s: string, lower: char -> char): (t: string)
    ensures |t| == |s| && forall i | 0 <= i < |t| :: t[i] == lower(s[i])
  {
    seq(|s|, i requires 0 <= i < |s| => lower(s[i]))
  }

  function Slug(title: string, lower: char -> char): string {
    Lowered(TrimRight(TrimLeft(DashSeparators(title))), lower)
  }

  function Split(s: string): (chunks: seq<string>)
    ensures chunks != []
  {
    if s == "" then [""]
    else
      var chunks := Split(s[..|s| - 1]);
      var c, last := s[|s| - 1], |chunks| - 1;
      if c == '-' then chunks + [""] else chunks[last := chunks[last] + [c]]
  }

  function Chunks(title: string, lower: char -> char): (chunks: seq<string>)
    ensures chunks != []
  {
    Split(Slug(title, lower))
  }

  // Claim names

  function Strip(s: string): string {
    if s == "" then ""
    else Strip(s[..|s| - 1]) + (if Blacklisted(s[|s| - 1]) then "" else [s[|s| - 1]])
  }

  function Take(s: string, limit: int): string {
    if limit <= 0 then "" else if limit < |s| then s[..limit] else s
  }

  /** At most `limit` runes of the name. */
  method TruncateUnicode(name: string, limit: int) returns (result: string)
    ensures result == Take(Strip(name), limit)
  {
    var stripped := "";
    for i := 0 to |name|
      invariant stripped == Strip(name[..i])
    {
      assert name[..i + 1][..i] == name[..i];
      if !Blacklisted(name[i]) {
        stripped := stripped + [name[i]];
      }
    }
    assert name[..|name|] == name;
    result := stripped;
    var chars, i := 0, 0;
    while i < |stripped|
      invariant 0 <= i == chars <= |stripped| && result == stripped
      invariant i > 0 ==> i <= limit
    {
      if chars >= limit {
        result := stripped[..i];
        break;
      }
      chars := chars + 1;
      i := i + 1;
    }
  }

  function Suffix(attempt: int): string {
    if attempt > 1 then "-" + Decimal(attempt) else ""
  }

  /** The first attempt has no suffix; that of a later one is its number, after a dash. */
  lemma SuffixReads(attempt: int)
    ensures attempt <= 1 ==> Suffix(attempt) == ""
    ensures attempt > 1 ==> Suffix(attempt) != "" && Suffix(attempt)[0] == '-' && Number(Suffix(attempt)[1..]) == attempt
  {
    if attempt > 1 {
      assert Suffix(attempt)[1..] == Decimal(attempt);
      NumberOfDecimal(attempt);
    }
  }

  /** Adds chunks as long as the name fits; a name that would stay short gets a part of the next one. */
  function Pack(name: string, chunks: seq<string>, maxLen: int): string
    decreases |chunks|
  {
    if chunks == [] then name
    else if chunks[0] == "" then Pack(name, chunks[1..], maxLen)
    else
      var longer := name + "-" + chunks[0];
      if Bytes(longer) <= maxLen then Pack(longer, chunks[1..], maxLen)
      else if Bytes(name) < 20 then Take(Strip(longer), maxLen - Bytes(name))
      else name
  }

  function Unsuffixed(chunks: seq<string>, maxLen: int): string
    requires chunks != []
  {
    if Bytes(chunks[0]) > maxLen then Take(Strip(chunks[0]), maxLen) else Pack(chunks[0], chunks[1..], maxLen)
  }

  function NameOf(chunks: seq<string>, attempt: int): string
    requires chunks != []
  {
    Unsuffixed(chunks, 40 - |Suffix(attempt)|) + Suffix(attempt)
  }

  function ClaimName(title: string, attempt: int, lower: char -> char): string {
    NameOf(Chunks(title, lower), attempt)
  }

  method PackChunks(chunks: seq<string>, maxLen: int) returns (name: string)
    requires chunks != []
    ensures name == Unsuffixed(chunks, maxLen)
  {
    name := chunks[0];
    if Bytes(name) > maxLen {
      name := TruncateUnicode(name, maxLen);
      return;
    }
    var i := 1;
    while i < |chunks|
      invariant 1 <= i <= |chunks|
      invariant Pack(name, chunks[i..], maxLen) == Unsuffixed(chunks, maxLen)
    {
      var chunk := chunks[i];
      assert chunks[i..][0] == chunk && chunks[i..][1..] == chunks[i + 1..];
      i := i + 1;
      if chunk != "" {
        var tmpName := name + "-" + chunk;
        if Bytes(tmpName) > maxLen {
          if Bytes(name) < 20 {
            name := TruncateUnicode(tmpName, maxLen - Bytes(name));
          }
          return;
        }
        name := tmpName;
      }
    }
  }

  method GetClaimNameFromTitle(title: string, attempt: int, lower: char -> char) returns (r: string)
    ensures r == ClaimName(title, attempt, lower)
  {
    var suffix := "";
    if attempt > 1 {
      suffix := "-" + Decimal(attempt);
    }
    var name := PackChunks(Chunks(title, lower), 40 - |suffix|);
    r := name + suffix;
  }

  // Suffixes make the names of different attempts different

  /** Only the last dash can be followed by a number. */
  lemma DashesMeet(name: string, d: string, name': string, d': string)
    requires '-' !in d && '-' !in d' && name + "-" + d == name' + "-" + d'
    ensures |name| >= |name'|
  {
    var s := name + "-" + d;
    assert s[|name'|] == '-';
    assert forall i | |name| < i < |s| :: s[i] == d[i - |name| - 1];
  }

  lemma {:induction false} SuffixIsLast(name: string, name': string, m: nat, n: nat)
    requires name + "-" + Decimal(m) == name' + "-" + Decimal(n)
    ensures m == n && name == name'
  {
    DashesMeet(name, Decimal(m), name', Decimal(n));
    DashesMeet(name', Decimal(n), name, Decimal(m));
    var s, k := name + "-" + Decimal(m), |name|;
    assert s[k + 1..] == Decimal(m) && s[k + 1..] == Decimal(n);
    DecimalIsInjective(m, n);
    assert name == s[..k] && name' == s[..k];
  }

  lemma SuffixesTell(x: string, a: int, y: string, b: int)
    requires a >= 2 && b >= 2 && x + Suffix(a) == y + Suffix(b)
    ensures a == b && x == y
  {
    assert x + Suffix(a) == x + "-" + Decimal(a);
    assert y + Suffix(b) == y + "-" + Decimal(b);
    SuffixIsLast(x, y, a, b);
  }

  lemma NamesTell(chunks: seq<string>, chunks': seq<string>, a: int, b: int)
    requires chunks != [] && chunks' != [] && a >= 2 && b >= 2 && NameOf(chunks, a) == NameOf(chunks', b)
    ensures a == b
  {
    SuffixesTell(Unsuffixed(chunks, 40 - |Suffix(a)|), a, Unsuffixed(chunks', 40 - |Suffix(b)|), b);
  }

  /** From the second attempt on, the attempt can be read off the name, whatever the titles. */
  lemma AttemptsAreTold(title: string, title': string, a: int, b: int, lower: char -> char)
    requires a >= 2 && b >= 2 && ClaimName(title, a, lower) == ClaimName(title', b, lower)
    ensures a == b
  {
    NamesTell(Chunks(title, lower), Chunks(title', lower), a, b);
  }
}
