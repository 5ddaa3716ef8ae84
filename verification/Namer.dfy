/** Handing out claim names that are not taken yet. */
module Namer {
  import opened Collections
  import opened Names

  // The names that are tried for a prefix

  /** The fallback for titles without a usable name: a hash of the title, numbered. */
  function HashName(hash: string, attempt: nat): string {
    hash + "-" + Decimal(attempt)
  }

  /** The number of the attempt can be read off the name. */
  lemma HashNameReads(hash: string, attempt: nat)
    ensures hash + "-" <= HashName(hash, attempt)
    ensures Number(HashName(hash, attempt)[|hash| + 1..]) == attempt
  {
    assert HashName(hash, attempt)[|hash| + 1..] == Decimal(attempt);
    NumberOfDecimal(attempt);
  }

  lemma {:induction false} HashNamesDiffer(hash: string, a: nat, b: nat)
    requires HashName(hash, a) == HashName(hash, b)
    ensures a == b
  {
    SuffixIsLast(hash, hash, a, b);
  }

  ghost function TitleTries(title: string, lower: char -> char, n: nat): set<string> {
    if n == 0 then {} else TitleTries(title, lower, n - 1) + {ClaimName(title, n + 1, lower)}
  }

  ghost function HashTries(hash: string, n: nat): set<string> {
    if n == 0 then {} else HashTries(hash, n - 1) + {HashName(hash, n)}
  }

  lemma {:induction false} TitleTriesAre(title: string, lower: char -> char, n: nat, name: string) returns (k: nat)
    requires name in TitleTries(title, lower, n)
    ensures 2 <= k <= n + 1 && name == ClaimName(title, k, lower)
  {
    if name in TitleTries(title, lower, n - 1) {
      k := TitleTriesAre(title, lower, n - 1, name);
    } else {
      k := n + 1;
    }
  }

  lemma {:induction false} HashTriesAre(hash: string, n: nat, name: string) returns (k: nat)
    requires name in HashTries(hash, n)
    ensures 1 <= k <= n && name == HashName(hash, k)
  {
    if name in HashTries(hash, n - 1) {
      k := HashTriesAre(hash, n - 1, name);
    } else {
      k := n;
    }
  }

  lemma {:induction false} TitleTriesCount(title: string, lower: char -> char, n: nat)
    ensures |TitleTries(title, lower, n)| == n
  {
    if n > 0 {
      TitleTriesCount(title, lower, n - 1);
      if ClaimName(title, n + 1, lower) in TitleTries(title, lower, n - 1) {
        var k := TitleTriesAre(title, lower, n - 1, ClaimName(title, n + 1, lower));
        AttemptsAreTold(title, title, k, n + 1, lower);
      }
    }
  }

  lemma {:induction false} HashTriesCount(hash: string, n: nat)
    ensures |HashTries(hash, n)| == n
  {
    if n > 0 {
      HashTriesCount(hash, n - 1);
      if HashName(hash, n) in HashTries(hash, n - 1) {
        var k := HashTriesAre(hash, n - 1, HashName(hash, n));
        HashNamesDiffer(hash, k, n);
      }
    }
  }

  /** A finite set of names cannot hold the names of all attempts: of the first `|names| + 2` one is free. */
  lemma TitleAttemptsRunOut(title: string, lower: char -> char, names: set<string>, attempt: nat)
    requires attempt >= 1 && forall k | 1 <= k < attempt :: ClaimName(title, k, lower) in names
    ensures attempt <= |names| + 2
  {
    if attempt > 1 {
      forall name | name in TitleTries(title, lower, attempt - 2) ensures name in names {
        var k := TitleTriesAre(title, lower, attempt - 2, name);
      }
      SubsetIsSmaller(TitleTries(title, lower, attempt - 2), names);
      TitleTriesCount(title, lower, attempt - 2);
    }
  }

  lemma HashAttemptsRunOut(hash: string, names: set<string>, attempt: nat)
    requires attempt >= 1 && forall k | 1 <= k < attempt :: HashName(hash, k) in names
    ensures attempt <= |names| + 1
  {
    forall name | name in HashTries(hash, attempt - 1) ensures name in names {
      var k := HashTriesAre(hash, attempt - 1, name);
    }
    SubsetIsSmaller(HashTries(hash, attempt - 1), names);
    HashTriesCount(hash, attempt - 1);
  }

  /** `name` is what the search for a prefix finds: the first free attempt at the title, at place
    * `a`, if that has at least two bytes, and otherwise the first free hash name, at place `h`. */
  ghost predicate FirstFree(name: string, prefix: string, hash: string, lower: char -> char, names: set<string>, a: nat, h: nat) {
    && 1 <= a <= |names| + 2
    && (forall k | 1 <= k < a :: ClaimName(prefix, k, lower) in names)
    && ClaimName(prefix, a, lower) !in names
    && if Bytes(ClaimName(prefix, a, lower)) >= 2 then name == ClaimName(prefix, a, lower)
       else
         && 1 <= h <= |names| + 1
         && (forall k | 1 <= k < h :: HashName(hash, k) in names)
         && name == HashName(hash, h) && name !in names
  }

  /** Every name of the list is taken, has at least two bytes, and is in the list once. */
  ghost predicate HandedOutOnce(handedOut: seq<string>, names: set<string>) {
    && (forall i | 0 <= i < |handedOut| :: handedOut[i] in names && Bytes(handedOut[i]) >= 2)
    && (forall i, j | 0 <= i < j < |handedOut| :: handedOut[i] != handedOut[j])
  }

  lemma OneMoreHandedOut(handedOut: seq<string>, names: set<string>, name: string)
    requires HandedOutOnce(handedOut, names) && name !in names && Bytes(name) >= 2
    ensures HandedOutOnce(handedOut + [name], names + {name})
  {
  }

  class Namer {
    var names: map<string, bool>
    const lower: char -> char
    const md5: string -> string
    ghost var handedOut: seq<string>   // since the names were last set

    ghost predicate Valid()
      reads this
    {
      HandedOutOnce(handedOut, names.Keys)
    }

    constructor (lower: char -> char, md5: string -> string)
      ensures Valid() && names == map[] && handedOut == [] && this.lower == lower && this.md5 == md5
    {
      names, handedOut := map[], [];
      this.lower, this.md5 := lower, md5;
    }

    method SetNames(names: map<string, bool>)
      modifies this
      ensures Valid() && this.names == names && handedOut == []
    {
      this.names, handedOut := names, [];
    }

    /** Both searches end, within as many attempts as `FirstFree` says; the name found was free, has at
      * least two bytes, and is the only one added. */
    method GetNextName(prefix: string) returns (name: string, ghost attempts: nat, ghost hashAttempts: nat)
      requires Valid()
      modifies this
      ensures Valid() && handedOut == old(handedOut) + [name]
      ensures name !in old(names) && names == old(names)[name := true]
      ensures Bytes(name) >= 2
      ensures FirstFree(name, prefix, md5(prefix), lower, old(names).Keys, attempts, hashAttempts)
    {
      name, attempts := FirstFreeTitle(prefix);
      hashAttempts := 0;
      if Bytes(name) < 2 {
        name, hashAttempts := FirstFreeHash(md5(prefix));
        RunesWithin(md5(prefix), hashAttempts);
      }
      OneMoreHandedOut(handedOut, names.Keys, name);
      names := names[name := true];
      handedOut := handedOut + [name];
    }

    method FirstFreeTitle(prefix: string) returns (name: string, ghost attempts: nat)
      ensures 1 <= attempts <= |names.Keys| + 2
      ensures name == ClaimName(prefix, attempts, lower) && name !in names
      ensures forall k | 1 <= k < attempts :: ClaimName(prefix, k, lower) in names.Keys
    {
      var attempt := 1;
      name := GetClaimNameFromTitle(prefix, attempt, lower);
      TitleAttemptsRunOut(prefix, lower, names.Keys, attempt);
      while name in names
        invariant 1 <= attempt <= |names.Keys| + 2 && name == ClaimName(prefix, attempt, lower)
        invariant forall k | 1 <= k < attempt :: ClaimName(prefix, k, lower) in names.Keys
        decreases |names.Keys| + 2 - attempt
      {
        assert ClaimName(prefix, attempt, lower) in names.Keys;
        attempt := attempt + 1;
        name := GetClaimNameFromTitle(prefix, attempt, lower);
        forall k | 1 <= k < attempt ensures ClaimName(prefix, k, lower) in names.Keys {
          assert k < attempt - 1 || k == attempt - 1;
        }
        TitleAttemptsRunOut(prefix, lower, names.Keys, attempt);
      }
      attempts := attempt;
    }

    method FirstFreeHash(sum: string) returns (name: string, ghost attempts: nat)
      ensures 1 <= attempts <= |names.Keys| + 1
      ensures name == HashName(sum, attempts) && name !in names
      ensures forall k | 1 <= k < attempts :: HashName(sum, k) in names.Keys
    {
      var attempt := 1;
      name := HashName(sum, attempt);
      HashAttemptsRunOut(sum, names.Keys, attempt);
      while name in names
        invariant 1 <= attempt <= |names.Keys| + 1 && name == HashName(sum, attempt)
        invariant forall k | 1 <= k < attempt :: HashName(sum, k) in names.Keys
        decreases |names.Keys| + 1 - attempt
      {
        attempt := attempt + 1;
        name := HashName(sum, attempt);
        HashAttemptsRunOut(sum, names.Keys, attempt);
      }
      attempts := attempt;
    }
  }

  lemma RunesWithin(hash: string, attempt: nat)
    ensures Bytes(HashName(hash, attempt)) >= 2
  {
    BytesOfConcat(hash + "-", Decimal(attempt));
    BytesOfConcat(hash, "-");
    RunesWithinBytes(Decimal(attempt));
    RunesWithinBytes("-");
  }

  // Publishing

  datatype Response = Published(claimId: string) | MultipleClaims | Refused

  datatype Summary = Summary(claimId: string, claimName: string)
  datatype Result = Success(value: Summary) | Failure

  class Daemon {
    const taken: set<string>
    const answers: string -> Response   // what it says of a name

    /** The daemon rejects a name for multiple claims only if it is one of `taken`. */
    function Answer(name: string): (r: Response)
      ensures r.MultipleClaims? ==> name in taken
      ensures name in taken || !answers(name).MultipleClaims? ==> r == answers(name)
    {
      if answers(name).MultipleClaims? && name !in taken then Refused else answers(name)
    }

    method StreamCreate(name: string) returns (r: Response)
      ensures r == Answer(name)
    {
      r := Answer(name);
    }
  }

  /** One round of the retry loop: a new name, and the daemon's answer to it. */
  method TryNextName(daemon: Daemon, title: string, namer: Namer) returns (name: string, response: Response)
    requires namer.Valid()
    modifies namer
    ensures namer.Valid() && namer.handedOut == old(namer.handedOut) + [name]
    ensures name !in old(namer.names).Keys && namer.names.Keys == old(namer.names).Keys + {name}
    ensures response == daemon.Answer(name)
  {
    ghost var a, h;
    name, a, h := namer.GetNextName(title);
    response := daemon.StreamCreate(name);
  }

  predicate AllRejected(daemon: Daemon, tried: seq<string>) {
    forall name | name in tried :: daemon.Answer(name).MultipleClaims?
  }

  function Last(tried: seq<string>): string
    requires tried != []
  {
    tried[|tried| - 1]
  }

  /** However the daemon answers, there are at most as many calls as taken names that the namer does
    * not know, and one more. Every call used a new name; all names but the last were rejected for
    * multiple claims, and the answer to the last one is the result. */
  method PublishAndRetryExistingNames(daemon: Daemon, title: string, namer: Namer) returns (r: Result, ghost tried: seq<string>)
    requires namer.Valid()
    modifies namer
    ensures namer.Valid() && namer.handedOut == old(namer.handedOut) + tried
    ensures Tried(old(namer.names).Keys, tried, namer.names.Keys)
    ensures 1 <= |tried| <= |daemon.taken - old(namer.names).Keys| + 1
    ensures AllRejected(daemon, tried[..|tried| - 1]) && !daemon.Answer(Last(tried)).MultipleClaims?
    ensures daemon.Answer(Last(tried)).Published? ==> r == Success(Summary(daemon.Answer(Last(tried)).claimId, Last(tried)))
    ensures daemon.Answer(Last(tried)).Refused? ==> r == Failure
  {
    tried := [];
    ghost var before, start := namer.names.Keys, namer.handedOut;
    assert start == start + [];
    while true
      invariant AllRejected(daemon, tried)
      invariant namer.Valid() && SoFar(before, start, daemon.taken, tried, namer.names.Keys, namer.handedOut)
      decreases |daemon.taken - namer.names.Keys|
    {
      ghost var known, handedOut, before1 := namer.names.Keys, namer.handedOut, tried;
      var name, response := TryNextName(daemon, title, namer);
      tried := tried + [name];
      assert tried[..|tried| - 1] == before1;
      OneMoreCall(before, start, daemon.taken, before1, known, handedOut, name);
      if response.Published? {
        return Success(Summary(response.claimId, name)), tried;
      } else if response.Refused? {
        return Failure, tried;
      }
    }
  }

  /** After so many rejected names, that many of those that the daemon rejects are known. */
  ghost predicate SoFar(before: set<string>, start: seq<string>, taken: set<string>, tried: seq<string>,
                        known: set<string>, handedOut: seq<string>) {
    && handedOut == start + tried
    && Tried(before, tried, known)
    && |tried| + |taken - known| <= |taken - before|
  }

  lemma OneMoreCall(before: set<string>, start: seq<string>, taken: set<string>, tried: seq<string>,
                    known: set<string>, handedOut: seq<string>, name: string)
    requires SoFar(before, start, taken, tried, known, handedOut) && name !in known
    ensures var all := tried + [name];
            && handedOut + [name] == start + all && Tried(before, all, known + {name}) && |all| <= |taken - before| + 1
    ensures name in taken ==>
              && SoFar(before, start, taken, tried + [name], known + {name}, handedOut + [name])
              && |taken - (known + {name})| < |taken - known|
  {
    OneMoreTried(before, tried, known, name);
    FewerUnknown(taken, known, name);
    AppendAssociates(start, tried, name);
  }

  /** `known` is `before` and the names tried since, none of which was in `before`. */
  ghost predicate Tried(before: set<string>, tried: seq<string>, known: set<string>) {
    known == before + Elements(tried) && Elements(tried) !! before
  }

  lemma OneMoreTried(before: set<string>, tried: seq<string>, known: set<string>, name: string)
    requires Tried(before, tried, known) && name !in known
    ensures Tried(before, tried + [name], known + {name})
  {
    ElementsAppend(tried, name);
  }

  lemma FewerUnknown(taken: set<string>, known: set<string>, name: string)
    requires name !in known
    ensures |taken - (known + {name})| == |taken - known| - (if name in taken then 1 else 0)
  {
    if name in taken {
      assert taken - known == (taken - (known + {name})) + {name};
    } else {
      assert taken - known == taken - (known + {name});
    }
  }

  ghost function Elements(s: seq<string>): set<string> {
    if s == [] then {} else Elements(s[..|s| - 1]) + {s[|s| - 1]}
  }

  lemma ElementsAppend(s: seq<string>, x: string)
    ensures Elements(s + [x]) == Elements(s) + {x}
  {
    assert (s + [x])[..|s|] == s;
  }
}
