/** When the first attempt at a title gives the name of a later one. */
module NameCollisions {
  import opened Names
  import opened NameShape

  /** The next chunk, if there is one, does not fit after `name` without a suffix. */
  predicate IsFull(name: string, chunks: seq<string>)
    decreases |chunks|
  {
    chunks == [] || if chunks[0] == "" then IsFull(name, chunks[1..]) else Bytes(name + "-" + chunks[0]) > 40
  }

  /** An attempt with number `d` stops at `name`: `chunk` does not fit before its suffix, and the room
    * left, if it is used, is just the length of `name`. The first attempt goes on to the number: either
    * the chunk is the number, and nothing after it fits; or it does not fit and is cut right after it. */
  predicate MeetsAt(name: string, chunk: string, rest: seq<string>, d: string) {
    var room, longer := 39 - |d|, name + "-" + chunk;
    && chunk != "" && Bytes(name) <= room < Bytes(longer)
    && (Bytes(name) >= 20 || room - Bytes(name) == |name|)
    && if Bytes(longer) <= 40 then chunk == d && IsFull(longer, rest)
       else Bytes(name) < 20 && d <= chunk
  }

  predicate Meets(name: string, chunks: seq<string>, d: string) {
    exists k :: 0 <= k < |chunks| && MeetsAt(Joined(name, chunks[..k]), chunks[k], chunks[k + 1..], d)
  }

  lemma MeetsHereOrLater(name: string, chunks: seq<string>, d: string)
    requires chunks != []
    ensures Meets(name, chunks, d) <==>
            MeetsAt(name, chunks[0], chunks[1..], d) || Meets(WithChunk(name, chunks[0]), chunks[1..], d)
  {
    var longer, rest := WithChunk(name, chunks[0]), chunks[1..];
    forall k | 0 < k < |chunks|
      ensures Joined(name, chunks[..k]) == Joined(longer, rest[..k - 1]) && chunks[k] == rest[k - 1] && chunks[k + 1..] == rest[k..]
    {
      assert chunks[..k][1..] == rest[..k - 1];
    }
    if k :| 0 <= k < |rest| && MeetsAt(Joined(longer, rest[..k]), rest[k], rest[k + 1..], d) {
      assert MeetsAt(Joined(name, chunks[..k + 1]), chunks[k + 1], chunks[k + 2..], d);
    }
    assert chunks[..0] == [];
  }

  lemma NoMeetingOfLongNames(name: string, chunks: seq<string>, d: string)
    requires Bytes(name) > 39 - |d|
    ensures !Meets(name, chunks, d)
  {
    forall k | 0 <= k < |chunks| ensures !MeetsAt(Joined(name, chunks[..k]), chunks[k], chunks[k + 1..], d) {
      JoinedExtends(name, chunks[..k]);
      PrefixHasFewerBytes(name, Joined(name, chunks[..k]));
    }
  }

  // What the first attempt does with a name of at least 20 bytes: it adds whole chunks or nothing

  lemma {:induction false} LongPack(name: string, chunks: seq<string>)
    requires 20 <= Bytes(name) <= 40
    ensures Bytes(Pack(name, chunks, 40)) <= 40
    ensures if IsFull(name, chunks) then Pack(name, chunks, 40) == name else name + "-" <= Pack(name, chunks, 40)
    decreases |chunks|
  {
    if chunks != [] {
      if chunks[0] == "" {
        LongPack(name, chunks[1..]);
      } else {
        var longer := name + "-" + chunks[0];
        assert name + "-" <= longer;
        PrefixHasFewerBytes(name, longer);
        if Bytes(longer) <= 40 {
          LongPack(longer, chunks[1..]);
          assert longer <= Pack(longer, chunks[1..], 40);
        }
      }
    }
  }

  lemma NoSecondDash(name: string, chunk: string, d: string)
    requires Dashless(d)
    ensures !(name + "-" + chunk + "-" <= name + "-" + d)
  {
    var x, target := name + "-" + chunk + "-", name + "-" + d;
    assert x[|x| - 1] == '-';
    if |x| <= |target| {
      assert target[|x| - 1] == d[|x| - 1 - |name| - 1];
    }
  }

  /** A whole chunk was added: the name has the number in it exactly if that is the chunk. */
  lemma WholeChunkMeets(name: string, chunk: string, rest: seq<string>, d: string)
    requires Dashless(d) && 20 <= Bytes(name + "-" + chunk) <= 40
    ensures Pack(name + "-" + chunk, rest, 40) == name + "-" + d <==> chunk == d && IsFull(name + "-" + chunk, rest)
  {
    var longer, target := name + "-" + chunk, name + "-" + d;
    LongPack(longer, rest);
    NoSecondDash(name, chunk, d);
    assert longer[|name| + 1..] == chunk && target[|name| + 1..] == d;
  }

  /** A chunk was cut, after just the length of the suffix. */
  lemma CutChunkMeets(name: string, chunk: string, d: string)
    ensures Take(name + "-" + chunk, |name| + 1 + |d|) == name + "-" + d <==> d <= chunk
  {
    var longer, target := name + "-" + chunk, name + "-" + d;
    assert longer[|name| + 1..] == chunk && target[|name| + 1..] == d;
    if |d| <= |chunk| {
      assert Take(longer, |target|) == longer[..|target|] == name + "-" + chunk[..|d|];
    }
  }

  lemma DifferAt(s: string, t: string, i: nat)
    requires i < |s| && i < |t| && s[i] != t[i]
    ensures s != t
  {
  }

  function FirstStop(name: string, chunk: string, rest: seq<string>): string {
    var longer := name + "-" + chunk;
    if Bytes(longer) <= 40 then Pack(longer, rest, 40)
    else if Bytes(name) < 20 then Take(longer, 40 - Bytes(name)) else name
  }

  function LaterStop(name: string, chunk: string, d: string): string {
    if Bytes(name) < 20 then Take(name + "-" + chunk, 39 - |d| - Bytes(name)) else name
  }

  /** The step at which the later attempt stops. */
  lemma StopMeets(name: string, chunk: string, rest: seq<string>, d: string)
    requires Dashless(d) && d != "" && |d| <= 19 && Dashless(chunk) && chunk != "" && name != ""
    requires Bytes(name) <= 39 - |d| < Bytes(name + "-" + chunk)
    ensures FirstStop(name, chunk, rest) == LaterStop(name, chunk, d) + "-" + d <==> MeetsAt(name, chunk, rest, d)
  {
    var longer, room := name + "-" + chunk, 39 - |d| - Bytes(name);
    if Bytes(name) < 20 && room != |name| {
      RoomElsewhere(name, chunk, rest, d);
    } else {
      assert longer[..|name|] == name;
      assert LaterStop(name, chunk, d) == name;
      if Bytes(longer) <= 40 {
        WholeChunkMeets(name, chunk, rest, d);
      } else {
        CutChunkMeets(name, chunk, d);
      }
    }
  }

  lemma RoomElsewhere(name: string, chunk: string, rest: seq<string>, d: string)
    requires Dashless(d) && d != "" && |d| <= 19 && Dashless(chunk) && chunk != ""
    requires Bytes(name) <= 39 - |d| < Bytes(name + "-" + chunk)
    requires Bytes(name) < 20 && 39 - |d| - Bytes(name) != |name|
    ensures FirstStop(name, chunk, rest) != LaterStop(name, chunk, d) + "-" + d
  {
    var longer, room := name + "-" + chunk, 39 - |d| - Bytes(name);
    RunesWithinBytes(name);
    if |longer| <= room {
      RoomForAll(name, chunk, rest, d);
    } else if room < |name| {
      RoomInside(name, chunk, rest, d);
    } else {
      RoomInChunk(name, chunk, rest, d);
    }
  }

  lemma RoomInChunk(name: string, chunk: string, rest: seq<string>, d: string)
    requires |d| <= 19 && Dashless(chunk)
    requires Bytes(name) < 20 && 39 - |d| < Bytes(name + "-" + chunk)
    requires |name| < 39 - |d| - Bytes(name) < |name + "-" + chunk|
    ensures FirstStop(name, chunk, rest) != LaterStop(name, chunk, d) + "-" + d
  {
    var longer, room := name + "-" + chunk, 39 - |d| - Bytes(name);
    FirstGoesOn(name, chunk, rest, room);
    var later := longer[..room] + "-" + d;
    assert LaterStop(name, chunk, d) == longer[..room];
    assert later[room] == '-' && longer[room] == chunk[room - |name| - 1];
    DifferAt(FirstStop(name, chunk, rest), later, room);
  }

  /** The first attempt's name has all of `name-chunk` that it has room for. */
  lemma FirstGoesOn(name: string, chunk: string, rest: seq<string>, i: nat)
    requires Bytes(name) < 20 && Bytes(name + "-" + chunk) >= 20 && i < |name + "-" + chunk| && i < 40 - Bytes(name)
    ensures i < |FirstStop(name, chunk, rest)| && FirstStop(name, chunk, rest)[i] == (name + "-" + chunk)[i]
  {
    var longer := name + "-" + chunk;
    if Bytes(longer) <= 40 {
      LongPack(longer, rest);
      assert longer <= Pack(longer, rest, 40);
    }
  }

  lemma RoomForAll(name: string, chunk: string, rest: seq<string>, d: string)
    requires Bytes(name) < 20 && |d| <= 19 && 39 - |d| < Bytes(name + "-" + chunk) && |name + "-" + chunk| <= 39 - |d| - Bytes(name)
    ensures FirstStop(name, chunk, rest) != LaterStop(name, chunk, d) + "-" + d
  {
    var longer := name + "-" + chunk;
    assert LaterStop(name, chunk, d) == longer;
    if Bytes(longer) <= 40 {
      LongPack(longer, rest);
      SuffixBytes(longer, d);
    }
  }

  lemma SuffixBytes(name: string, d: string)
    ensures Bytes(name + "-" + d) >= Bytes(name) + 1 + |d|
  {
    BytesOfConcat(name + "-", d);
    BytesOfConcat(name, "-");
    RunesWithinBytes("-");
    RunesWithinBytes(d);
  }

  lemma RoomInside(name: string, chunk: string, rest: seq<string>, d: string)
    requires Dashless(d) && |d| <= 19 && 39 - |d| < Bytes(name + "-" + chunk)
    requires Bytes(name) < 20 && 0 <= 39 - |d| - Bytes(name) < |name|
    ensures FirstStop(name, chunk, rest) != LaterStop(name, chunk, d) + "-" + d
  {
    var longer, room := name + "-" + chunk, 39 - |d| - Bytes(name);
    RunesWithinBytes(name);
    var later := longer[..room] + "-" + d;
    assert LaterStop(name, chunk, d) == longer[..room];
    FirstGoesOn(name, chunk, rest, |name|);
    assert longer[|name|] == '-' && later[|name|] == d[|name| - room - 1];
    DifferAt(FirstStop(name, chunk, rest), later, |name|);
  }

  lemma {:induction false} PacksMeet(name: string, chunks: seq<string>, d: string)
    requires Dashless(d) && d != "" && |d| <= 19
    requires name != "" && Clean(name) && Packable(chunks) && Bytes(name) <= 39 - |d|
    ensures Pack(name, chunks, 40) == Pack(name, chunks, 39 - |d|) + "-" + d <==> Meets(name, chunks, d)
    decreases |chunks|
  {
    if chunks != [] {
      var chunk := chunks[0];
      assert Clean(chunk) && Dashless(chunk) && Packable(chunks[1..]);
      MeetsHereOrLater(name, chunks, d);
      if chunk == "" {
        PacksMeet(name, chunks[1..], d);
      } else {
        var longer := name + "-" + chunk;
        CleanExtend(name, chunk);
        if Bytes(longer) <= 39 - |d| {
          PacksMeet(longer, chunks[1..], d);
        } else {
          NoMeetingOfLongNames(longer, chunks[1..], d);
          CleanStays(longer);
          assert Pack(name, chunks, 40) == FirstStop(name, chunk, chunks[1..]);
          assert Pack(name, chunks, 39 - |d|) == LaterStop(name, chunk, d);
          StopMeets(name, chunk, chunks[1..], d);
        }
      }
    }
  }

  /** A first chunk that is too long for the later attempt makes the names differ. */
  lemma LongFirstChunkDiffers(first: string, chunks: seq<string>, d: string)
    requires |d| <= 19 && Dashless(first) && 39 - |d| < Bytes(first) <= 40
    ensures Pack(first, chunks, 40) != Take(first, 39 - |d|) + "-" + d
  {
    var room := 39 - |d|;
    LongPack(first, chunks);
    assert first <= Pack(first, chunks, 40);
    if |first| <= room {
      SuffixBytes(first, d);
    } else {
      var later := first[..room] + "-" + d;
      assert later[room] == '-' && Take(first, room) == first[..room];
      DifferAt(Pack(first, chunks, 40), later, room);
    }
  }

  lemma DashlessDiffers(s: string, t: string, d: string)
    requires Dashless(s)
    ensures s != t + "-" + d
  {
    assert '-' in t + "-" + d by {
      assert (t + "-" + d)[|t|] == '-';
    }
  }

  lemma ChunksMeetIff(chunks: seq<string>, d: string)
    requires SlugChunks(chunks) && Dashless(d) && d != "" && |d| <= 19
    ensures Unsuffixed(chunks, 40) == Unsuffixed(chunks, 39 - |d|) + "-" + d <==> chunks[0] != "" && Meets(chunks[0], chunks[1..], d)
  {
    var first := chunks[0];
    assert Clean(first) && Dashless(first) && Packable(chunks[1..]);
    CleanStays(first);
    if first == "" {
      DashlessDiffers("", Unsuffixed(chunks, 39 - |d|), d);
    } else if Bytes(first) <= 39 - |d| {
      PacksMeet(first, chunks[1..], d);
    } else {
      NoMeetingOfLongNames(first, chunks[1..], d);
      if Bytes(first) <= 40 {
        LongFirstChunkDiffers(first, chunks[1..], d);
      } else {
        DashlessDiffers(Take(first, 40), Take(first, 39 - |d|), d);
      }
    }
  }

  lemma FirstNameIsUnsuffixed(chunks: seq<string>)
    requires chunks != []
    ensures NameOf(chunks, 1) == Unsuffixed(chunks, 40)
  {
  }

  lemma NamesMeetIff(chunks: seq<string>, b: int)
    requires SlugChunks(chunks) && 2 <= b < 0x8000_0000_0000_0000
    ensures NameOf(chunks, 1) == NameOf(chunks, b) <==> chunks[0] != "" && Meets(chunks[0], chunks[1..], Decimal(b))
  {
    FirstNameIsUnsuffixed(chunks);
    NumberComesLast(chunks, b);
    MeetIff(chunks, NameOf(chunks, 1), NameOf(chunks, b), Decimal(b));
  }

  lemma MeetIff(chunks: seq<string>, first: string, later: string, d: string)
    requires SlugChunks(chunks) && Dashless(d) && d != "" && |d| <= 19
    requires first == Unsuffixed(chunks, 40) && later == Unsuffixed(chunks, 39 - |d|) + "-" + d
    ensures first == later <==> chunks[0] != "" && Meets(chunks[0], chunks[1..], d)
  {
    ChunksMeetIff(chunks, d);
  }

  /** The first attempt gives the name of attempt `b` exactly if the chunks of the title meet with that
    * number. (Attempts from the second on never give the same name.) */
  lemma FirstAttemptEqualsIff(title: string, b: int, lower: char -> char)
    requires Tame(lower) && 2 <= b < 0x8000_0000_0000_0000
    ensures var chunks := Chunks(title, lower);
            ClaimName(title, 1, lower) == ClaimName(title, b, lower) <==>
            chunks[0] != "" && Meets(chunks[0], chunks[1..], Decimal(b))
  {
    ChunksAreSlugChunks(title, lower);
    NamesMeetIff(Chunks(title, lower), b);
  }
}
