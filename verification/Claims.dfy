/** Stream claims on the chain, and which of them ytsync made for which video. */
module Claims {
  import opened Options
  import opened Collections
  import opened Ranking

  datatype Claim = Claim(
    claimId: string,
    name: string,
    address: string,
    txid: string,
    nout: nat,
    height: int,
    kind: string,
    isStream: bool,
    thumbnail: Option<string>,
    signingChannel: Option<string>,
    account: string,
    sourceSize: Option<nat>)

  const THUMBNAIL_ENDPOINT := "https://thumbnails.lbry.com/"
  const OLD_THUMBNAIL_HOST := "berk.ninja/thumbnails/"

  predicate Contains(s: string, fragment: string) {
    fragment <= s || (s != "" && Contains(s[1..], fragment))
  }

  predicate IsYtsyncClaim(c: Claim, channel: string) {
    && c.kind in {"claim", "update"}
    && c.isStream
    && c.thumbnail.Some? && c.thumbnail.value != ""
    && c.signingChannel == Some(channel)
    && (Contains(c.thumbnail.value, OLD_THUMBNAIL_HOST) || Contains(c.thumbnail.value, THUMBNAIL_ENDPOINT))
  }

  function LastSlash(url: string): (r: int)
    ensures -1 <= r < |url|
    ensures r >= 0 ==> url[r] == '/'
    ensures forall k | r < k < |url| :: url[k] != '/'
  {
    if url == "" then -1
    else if url[|url| - 1] == '/' then |url| - 1
    else LastSlash(url[..|url| - 1])
  }

  /** The last path element of the thumbnail's address is the YouTube id of the video. */
  function VideoID(c: Claim): string
    requires c.thumbnail.Some?
  {
    c.thumbnail.value[LastSlash(c.thumbnail.value) + 1..]
  }

  function MetadataVersion(c: Claim): int
    requires c.thumbnail.Some?
  {
    if Contains(c.thumbnail.value, THUMBNAIL_ENDPOINT) then 2 else 1
  }

  // What a claim of a video looks like

  /** `id` is the last path element of the address. */
  predicate EndsIn(url: string, id: string) {
    && '/' !in id && |id| <= |url| && url[|url| - |id|..] == id
    && (|id| < |url| ==> url[|url| - |id| - 1] == '/')
  }

  lemma VideoIDIsLastElement(c: Claim, id: string)
    requires c.thumbnail.Some?
    ensures VideoID(c) == id <==> EndsIn(c.thumbnail.value, id)
  {
    var url := c.thumbnail.value;
    assert |url| - |VideoID(c)| == LastSlash(url) + 1;
    assert EndsIn(url, VideoID(c));
  }

  /** A claim whose thumbnail is an address, a slash, and an id without one. */
  lemma VideoIDOfAddress(c: Claim, url: string, id: string)
    requires c.thumbnail == Some(url + "/" + id) && '/' !in id
    ensures VideoID(c) == id
  {
    assert c.thumbnail.value[|url|] == '/';
    VideoIDIsLastElement(c, id);
  }

  /** The fragment starts at place `i` of the text. */
  predicate StartsAt(s: string, fragment: string, i: nat) {
    i + |fragment| <= |s| && s[i..i + |fragment|] == fragment
  }

  lemma {:induction false} ContainsIffSomewhere(s: string, fragment: string)
    ensures Contains(s, fragment) <==> exists i: nat :: StartsAt(s, fragment, i)
  {
    if fragment <= s {
      assert StartsAt(s, fragment, 0);
    } else if s != "" {
      ContainsIffSomewhere(s[1..], fragment);
      forall i: nat ensures StartsAt(s[1..], fragment, i) <==> StartsAt(s, fragment, i + 1) {
        if i + 1 + |fragment| <= |s| {
          assert s[1..][i..i + |fragment|] == s[i + 1..i + 1 + |fragment|];
        }
      }
      if i: nat :| StartsAt(s, fragment, i) {
        assert i != 0;
        assert StartsAt(s[1..], fragment, i - 1);
      }
    }
  }

  /** The claims that count: streams of the channel with a thumbnail on one of the two hosts. */
  lemma YtsyncClaimIff(c: Claim, channel: string)
    ensures IsYtsyncClaim(c, channel) <==>
              && (c.kind == "claim" || c.kind == "update") && c.isStream
              && c.signingChannel == Some(channel) && c.thumbnail.Some?
              && exists i: nat :: StartsAt(c.thumbnail.value, OLD_THUMBNAIL_HOST, i) || StartsAt(c.thumbnail.value, THUMBNAIL_ENDPOINT, i)
  {
    if c.thumbnail.Some? {
      ContainsIffSomewhere(c.thumbnail.value, OLD_THUMBNAIL_HOST);
      ContainsIffSomewhere(c.thumbnail.value, THUMBNAIL_ENDPOINT);
    }
  }

  /** What ytsync publishes for a video has the mirrored thumbnail, which is named for the video. */
  ghost predicate PublishedFor(c: Claim, channel: string, id: string) {
    && (c.kind == "claim" || c.kind == "update") && c.isStream && c.signingChannel == Some(channel)
    && c.thumbnail == Some(THUMBNAIL_ENDPOINT + id) && '/' !in id
  }

  lemma PublishedIsYtsyncClaim(c: Claim, channel: string, id: string)
    requires PublishedFor(c, channel, id)
    ensures IsYtsyncClaim(c, channel) && VideoID(c) == id && MetadataVersion(c) == 2
  {
    assert THUMBNAIL_ENDPOINT == THUMBNAIL_ENDPOINT[..27] + "/";
    VideoIDOfAddress(c, THUMBNAIL_ENDPOINT[..27], id);
    assert THUMBNAIL_ENDPOINT <= c.thumbnail.value;
  }

  /** Claims with a thumbnail on the old host alone have the older metadata. */
  lemma MetadataVersionIs(c: Claim)
    requires c.thumbnail.Some?
    ensures (exists i: nat :: StartsAt(c.thumbnail.value, THUMBNAIL_ENDPOINT, i)) ==> MetadataVersion(c) == 2
    ensures (forall i: nat :: !StartsAt(c.thumbnail.value, THUMBNAIL_ENDPOINT, i)) ==> MetadataVersion(c) == 1
  {
    ContainsIffSomewhere(c.thumbnail.value, THUMBNAIL_ENDPOINT);
  }

  /** What deciding between claims needs to know: the video a claim was made for, if ytsync made
    * it for this channel, and the height of the block it is in. */
  function EntryOf(c: Claim, channel: string): (e: Entry)
    ensures e.video.Some? <==> IsYtsyncClaim(c, channel)
    ensures e.video.Some? ==> e.video.value == VideoID(c)
    ensures e.height == c.height
  {
    Entry(if IsYtsyncClaim(c, channel) then Some(VideoID(c)) else None, c.height)
  }

  function Entries(claims: seq<Claim>, channel: string): (es: seq<Entry>)
    ensures |es| == |claims|
    ensures forall i | 0 <= i < |es| :: es[i] == EntryOf(claims[i], channel)
  {
    seq(|claims|, i requires 0 <= i < |claims| => EntryOf(claims[i], channel))
  }

  ghost predicate DistinctIds(claims: set<Claim>) {
    forall c, d | c in claims && d in claims && c.claimId == d.claimId :: c == d
  }

  /** A list with no repetition that has exactly the elements of the set, in any order. */
  ghost predicate Lists<T>(s: seq<T>, elements: set<T>) {
    NoRepeats(s) && (forall x | x in s :: x in elements) && (forall x | x in elements :: x in s)
  }
}
