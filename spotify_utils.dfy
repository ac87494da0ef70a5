/**
 * The Spotify side of the job: resolving lineup names to artist uris,
 * choosing each artist's top tracks, and rewriting the playlist in batches.
 * The Spotify client is replaced by oracles (for the two lookups) and by a
 * `Playlist` object standing for the remote playlist.
 */
module SpotifyUtils {
  import opened Wrappers
  import opened Seqs
  import opened Strings
  import opened Sorting

  function Min(a: int, b: int): int { if a <= b then a else b }

  function Max(a: int, b: int): int { if a >= b then a else b }

  /** `[o.value]` or `[]`: what a name adds to the list of uris. */
  function OptionSeq<T>(o: Option<T>): seq<T> {
    if o.Some? then [o.value] else []
  }

  // ---------------------------------------------------------------------
  // get_uris_from_names

  /**
   * One `client.search` call: it raised (a network or API error, or a
   * response without the expected keys), or it returned the `items` list,
   * each item given by its "uri".
   */
  datatype SearchAnswer = SearchRaised | Artists(uris: seq<string>)

  /** The search oracle: the answer to a query on a given attempt (counted from 0). */
  type Search = (string, nat) -> SearchAnswer

  /** The query sent for an artist name. */
  function ArtistQuery(name: string): string {
    "artist:" + Lower(name)
  }

  /** The answer names at least one artist. */
  predicate Found(a: SearchAnswer) {
    a.Artists? && a.uris != []
  }

  /** `range(max_retries)` has `max_retries` elements, none when it is not positive. */
  function Tries(maxRetries: int): nat {
    if maxRetries > 0 then maxRetries else 0
  }

  /**
   * Attempts `i` up to `tries - 1` for one query: the uri of the first
   * answer that names an artist, and the number of searches made.
   */
  function Attempts(search: Search, query: string, i: nat, tries: nat): (Option<string>, nat)
    decreases tries - i
  {
    if i >= tries then (None, 0)
    else if Found(search(query, i)) then (Some(search(query, i).uris[0]), 1)
    else
      var rest := Attempts(search, query, i + 1, tries);
      (rest.0, rest.1 + 1)
  }

  /** The inner loop for one name: its uri, if any, and the searches it made. */
  function ResolveName(search: Search, name: string, maxRetries: int): (Option<string>, nat) {
    Attempts(search, ArtistQuery(name), 0, Tries(maxRetries))
  }

  /** Both loops: the uris found, in order, and the total number of searches. */
  function ResolveAll(search: Search, names: seq<string>, maxRetries: int): (seq<string>, nat) {
    if names == [] then ([], 0)
    else
      var done := ResolveAll(search, names[..|names| - 1], maxRetries);
      var last := ResolveName(search, names[|names| - 1], maxRetries);
      (done.0 + OptionSeq(last.0), done.1 + last.1)
  }

  /** What each name contributes to the result: its uri, or nothing. */
  function PerName(search: Search, names: seq<string>, maxRetries: int): (blocks: seq<seq<string>>)
    ensures |blocks| == |names|
  {
    seq(|names|, k requires 0 <= k < |names| => OptionSeq(ResolveName(search, names[k], maxRetries).0))
  }

  /**
   * From attempt `i` on, the searches stop at the first answer that names an
   * artist and record its first uri; without such an answer every attempt
   * is made and nothing is recorded.
   */
  lemma {:induction false} AttemptsSpec(search: Search, query: string, i: nat, tries: nat)
    requires i <= tries
    ensures var r := Attempts(search, query, i, tries);
      && r.1 <= tries - i
      && (r.0 == None <==> forall k :: i <= k < tries ==> !Found(search(query, k)))
      && (r.0 == None ==> r.1 == tries - i)
      && (r.0.Some? ==>
            && 1 <= r.1
            && Found(search(query, i + r.1 - 1))
            && r.0.value == search(query, i + r.1 - 1).uris[0]
            && forall k :: i <= k < i + r.1 - 1 ==> !Found(search(query, k)))
    decreases tries - i
  {
    if i < tries && !Found(search(query, i)) {
      AttemptsSpec(search, query, i + 1, tries);
      var r := Attempts(search, query, i, tries);
      if r.0.None? {
        forall k | i <= k < tries ensures !Found(search(query, k)) {
          if k > i {
            assert i + 1 <= k < tries;
          }
        }
      }
    }
  }

  /**
   * For one name: at most `max_retries` searches of "artist:" + the
   * lowercased name; the uri is the first item of the first answer naming
   * an artist, and a name whose every attempt raised or came back empty
   * gives nothing after exactly `max_retries` searches.
   */
  lemma ResolveNameSpec(search: Search, name: string, maxRetries: int)
    ensures var r := ResolveName(search, name, maxRetries);
      var q := "artist:" + Lower(name);
      && r.1 <= Tries(maxRetries)
      && (r.0 == None <==> forall k :: 0 <= k < Tries(maxRetries) ==> !Found(search(q, k)))
      && (r.0 == None ==> r.1 == Tries(maxRetries))
      && (r.0.Some? ==>
            && Found(search(q, r.1 - 1))
            && r.0.value == search(q, r.1 - 1).uris[0]
            && forall k :: 0 <= k < r.1 - 1 ==> !Found(search(q, k)))
  {
    AttemptsSpec(search, ArtistQuery(name), 0, Tries(maxRetries));
  }

  /** The result is, in order of the names, the uri of every name that was found. */
  lemma {:induction false} ResolveAllInOrder(search: Search, names: seq<string>, maxRetries: int)
    ensures ResolveAll(search, names, maxRetries).0 == Flatten(PerName(search, names, maxRetries))
  {
    if names != [] {
      var init := names[..|names| - 1];
      ResolveAllInOrder(search, init, maxRetries);
      var blocks := PerName(search, names, maxRetries);
      assert blocks == PerName(search, init, maxRetries) + [blocks[|names| - 1]];
      FlattenAppend(PerName(search, init, maxRetries), blocks[|names| - 1]);
    }
  }

  /** At most one uri per name, and between one and `max_retries` searches per name. */
  lemma {:induction false} ResolveAllBounds(search: Search, names: seq<string>, maxRetries: int)
    ensures |ResolveAll(search, names, maxRetries).0| <= |names|
    ensures ResolveAll(search, names, maxRetries).1 <= |names| * Tries(maxRetries)
    ensures maxRetries > 0 ==> ResolveAll(search, names, maxRetries).1 >= |names|
  {
    if names != [] {
      var init := names[..|names| - 1];
      ResolveAllBounds(search, init, maxRetries);
      var tries := Tries(maxRetries);
      var done := ResolveAll(search, init, maxRetries);
      var last := ResolveName(search, names[|names| - 1], maxRetries);
      AttemptsSpec(search, ArtistQuery(names[|names| - 1]), 0, tries);
      assert ResolveAll(search, names, maxRetries).0 == done.0 + OptionSeq(last.0);
      assert ResolveAll(search, names, maxRetries).1 == done.1 + last.1;
      MulStep(|init|, tries);
    }
  }

  lemma MulStep(a: nat, t: nat)
    ensures (a + 1) * t == a * t + t
  {
  }

  /** With `max_retries <= 0` no search is made and no uri is found. */
  lemma {:induction false} ResolveAllWithoutRetries(search: Search, names: seq<string>, maxRetries: int)
    requires maxRetries <= 0
    ensures ResolveAll(search, names, maxRetries).0 == [] && ResolveAll(search, names, maxRetries).1 == 0
  {
    if names != [] {
      ResolveAllWithoutRetries(search, names[..|names| - 1], maxRetries);
      assert ResolveName(search, names[|names| - 1], maxRetries) == (None, 0);
      assert ResolveAll(search, names, maxRetries).0 == [] + [];
    }
  }

  /** An error on the first attempt is swallowed, and the second attempt finds the artist. */
  lemma ResolveNameAfterError(uri: string)
    ensures var search := (q: string, i: nat) => if i == 0 then SearchRaised else Artists([uri]);
      ResolveName(search, "Volbeat", 8) == (Some(uri), 2)
  {
  }

  /** `get_uris_from_names`: the outer loop over names, the inner loop over attempts. */
  method GetUrisFromNames(names: seq<string>, search: Search, maxRetries: int)
    returns (uris: seq<string>, searches: nat)
    ensures (uris, searches) == ResolveAll(search, names, maxRetries)
  {
    uris := [];
    searches := 0;
    for n := 0 to |names|
      invariant (uris, searches) == ResolveAll(search, names[..n], maxRetries)
    {
      var name := names[n];
      var query := ArtistQuery(name);
      ghost var before := (uris, searches);
      var i := 0;
      while i < maxRetries
        invariant i <= Tries(maxRetries)
        decreases maxRetries - i
        invariant uris == before.0 && searches == before.1 + i
        invariant var rest := Attempts(search, query, i, Tries(maxRetries));
          Attempts(search, query, 0, Tries(maxRetries)) == (rest.0, i + rest.1)
      {
        var answer := search(query, i);
        searches := searches + 1;
        if Found(answer) {
          uris := uris + [answer.uris[0]];
          break;
        }
        // an empty answer (`continue`) and a caught exception both use up the attempt
        i := i + 1;
      }
      var resolved := ResolveName(search, name, maxRetries);
      assert uris == before.0 + OptionSeq(resolved.0) && searches == before.1 + resolved.1;
      assert names[..n + 1][..n] == names[..n];
    }
    assert names[..|names|] == names;
  }

  // ---------------------------------------------------------------------
  // artists_top_tracks

  /** A track as returned by `artist_top_tracks`: its "uri" and its "popularity". */
  datatype Track = Track(uri: string, popularity: int)

  /** One `client.artist_top_tracks` call: it raised, or it returned the "tracks" list. */
  datatype TopTracksAnswer = FetchRaised | TopTracks(tracks: seq<Track>)

  /** The top-tracks oracle, asked with an artist uri and a market (`None` when no market is given). */
  type Fetch = (string, Option<string>) -> TopTracksAnswer

  /** `sort(key=popularity, reverse=True)` orders by descending popularity. */
  predicate ByPopularityDesc(a: Track, b: Track) {
    a.popularity >= b.popularity
  }

  lemma ByPopularityDescIsTotalPreorder()
    ensures TotalPreorder(ByPopularityDesc)
  {
  }

  /** `uri.split(":")[-1]`: the text after the last ':', or all of `uri` if it has none. */
  function LastSegment(uri: string): string {
    if uri == [] then []
    else if uri[|uri| - 1] == ':' then []
    else LastSegment(uri[..|uri| - 1]) + [uri[|uri| - 1]]
  }

  /**
   * The id is a suffix of the uri without ':', and the longest one: either
   * it is the whole uri or a ':' precedes it.
   */
  lemma {:induction false} LastSegmentSpec(uri: string)
    ensures var id := LastSegment(uri);
      && ':' !in id
      && |id| <= |uri| && id == uri[|uri| - |id|..]
      && (|id| < |uri| ==> uri[|uri| - |id| - 1] == ':')
  {
    if uri != [] && uri[|uri| - 1] != ':' {
      var init, c := uri[..|uri| - 1], uri[|uri| - 1];
      LastSegmentSpec(init);
      var rest := LastSegment(init);
      var id := LastSegment(uri);
      assert uri == init + [c];
      assert id == rest + [c];
      assert uri[|uri| - |id|..] == init[|init| - |rest|..] + [c];
      if |id| < |uri| {
        assert uri[|uri| - |id| - 1] == init[|init| - |rest| - 1];
      }
    }
  }

  function TrackId(t: Track): string {
    LastSegment(t.uri)
  }

  /** Python's `s[:n]`: a negative `n` counts from the end, and `s[:None]` is all of `s`. */
  function SliceTo<T>(s: seq<T>, n: Option<int>): seq<T> {
    match n
    case None => s
    case Some(k) => if k >= 0 then s[..Min(k, |s|)] else s[..Max(0, |s| + k)]
  }

  /** The tracks of one artist, most popular first. */
  function ByPopularity(tracks: seq<Track>): seq<Track> {
    SortBy(tracks, ByPopularityDesc)
  }

  /** The ids one artist adds to the list. */
  function ArtistBlock(tracks: seq<Track>, maxTracks: Option<int>): seq<string> {
    SliceTo(Map(TrackId, ByPopularity(tracks)), maxTracks)
  }

  /** The whole loop: the ids of all artists in order, or `None` when a lookup raised. */
  function TopTrackIds(fetch: Fetch, artistUris: seq<string>, country: Option<string>, maxTracks: Option<int>): Option<seq<string>> {
    if artistUris == [] then Some([])
    else
      var done := TopTrackIds(fetch, artistUris[..|artistUris| - 1], country, maxTracks);
      var answer := fetch(artistUris[|artistUris| - 1], country);
      if done.None? || answer.FetchRaised? then None
      else Some(done.value + ArtistBlock(answer.tracks, maxTracks))
  }

  /**
   * The sort keeps the tracks, puts them in non-increasing popularity, and
   * keeps the provider's order among tracks of equal popularity.
   */
  lemma ByPopularitySpec(tracks: seq<Track>, x: Track)
    ensures var s := ByPopularity(tracks);
      && multiset(s) == multiset(tracks)
      && (forall i, j :: 0 <= i < j < |s| ==> s[i].popularity >= s[j].popularity)
      && TiedWith(s, ByPopularityDesc, x) == TiedWith(tracks, ByPopularityDesc, x)
  {
    ByPopularityDescIsTotalPreorder();
    SortBySorted(tracks, ByPopularityDesc);
    SortByStable(tracks, ByPopularityDesc, x);
  }

  /** Two tracks are tied when their popularity is equal. */
  lemma TiedMeansSamePopularity(a: Track, b: Track)
    ensures Tied(ByPopularityDesc, a, b) <==> a.popularity == b.popularity
  {
  }

  /**
   * For `max_tracks >= 0` a block holds min(`max_tracks`, number of tracks)
   * ids: those of the most popular tracks, in sorted order.
   */
  lemma ArtistBlockSpec(tracks: seq<Track>, maxTracks: int)
    requires maxTracks >= 0
    ensures var b := ArtistBlock(tracks, Some(maxTracks));
      && |b| == Min(maxTracks, |tracks|)
      && forall j :: 0 <= j < |b| ==> b[j] == LastSegment(ByPopularity(tracks)[j].uri)
  {
  }

  /** A negative `max_tracks` drops that many ids from the end of the block. */
  lemma ArtistBlockNegative(tracks: seq<Track>, maxTracks: int)
    requires maxTracks < 0
    ensures |ArtistBlock(tracks, Some(maxTracks))| == Max(0, |tracks| + maxTracks)
    ensures ArtistBlock(tracks, Some(maxTracks)) == Map(TrackId, ByPopularity(tracks))[..Max(0, |tracks| + maxTracks)]
  {
  }

  /** Without a `max_tracks` (`None`) the block holds the ids of all the tracks, most popular first. */
  lemma ArtistBlockUncapped(tracks: seq<Track>)
    ensures var b := ArtistBlock(tracks, None);
      && |b| == |tracks|
      && forall j :: 0 <= j < |b| ==> b[j] == LastSegment(ByPopularity(tracks)[j].uri)
  {
  }

  /** The blocks of the artists, in artist order, when no lookup raised. */
  function Blocks(fetch: Fetch, artistUris: seq<string>, country: Option<string>, maxTracks: Option<int>): (blocks: seq<seq<string>>)
    requires forall k :: 0 <= k < |artistUris| ==> fetch(artistUris[k], country).TopTracks?
    ensures |blocks| == |artistUris|
  {
    seq(|artistUris|, k requires 0 <= k < |artistUris| => ArtistBlock(fetch(artistUris[k], country).tracks, maxTracks))
  }

  /** A lookup that raises makes the whole call raise, and only then is there no result. */
  lemma {:induction false} TopTrackIdsRaises(fetch: Fetch, artistUris: seq<string>, country: Option<string>, maxTracks: Option<int>)
    ensures TopTrackIds(fetch, artistUris, country, maxTracks).None?
        <==> exists k :: 0 <= k < |artistUris| && fetch(artistUris[k], country).FetchRaised?
  {
    TopTrackIdsNoneExactly(fetch, artistUris, country, maxTracks);
    SomeLookupRaises(fetch, artistUris, country);
  }

  /** Some lookup among `artistUris` raises (in the recursive shape of the loop). */
  predicate AnyRaised(fetch: Fetch, artistUris: seq<string>, country: Option<string>) {
    artistUris != []
    && (AnyRaised(fetch, artistUris[..|artistUris| - 1], country)
        || fetch(artistUris[|artistUris| - 1], country).FetchRaised?)
  }

  lemma {:induction false} TopTrackIdsNoneExactly(fetch: Fetch, artistUris: seq<string>, country: Option<string>, maxTracks: Option<int>)
    ensures TopTrackIds(fetch, artistUris, country, maxTracks).None? == AnyRaised(fetch, artistUris, country)
  {
    if artistUris != [] {
      TopTrackIdsNoneExactly(fetch, artistUris[..|artistUris| - 1], country, maxTracks);
    }
  }

  lemma {:induction false} SomeLookupRaises(fetch: Fetch, artistUris: seq<string>, country: Option<string>)
    ensures AnyRaised(fetch, artistUris, country)
        <==> exists k :: 0 <= k < |artistUris| && fetch(artistUris[k], country).FetchRaised?
  {
    if artistUris != [] {
      var n := |artistUris| - 1;
      var init := artistUris[..n];
      SomeLookupRaises(fetch, init, country);
      if exists k :: 0 <= k < |artistUris| && fetch(artistUris[k], country).FetchRaised? {
        var k :| 0 <= k < |artistUris| && fetch(artistUris[k], country).FetchRaised?;
        if k < n {
          assert fetch(init[k], country).FetchRaised?;
        }
      } else {
        forall k | 0 <= k < n ensures !fetch(init[k], country).FetchRaised? {
          assert init[k] == artistUris[k];
        }
      }
    }
  }

  /** Without a raising lookup the result is the artists' blocks, concatenated in artist order. */
  lemma {:induction false} TopTrackIdsConcatenates(fetch: Fetch, artistUris: seq<string>, country: Option<string>, maxTracks: Option<int>)
    requires forall k :: 0 <= k < |artistUris| ==> fetch(artistUris[k], country).TopTracks?
    ensures TopTrackIds(fetch, artistUris, country, maxTracks) == Some(Flatten(Blocks(fetch, artistUris, country, maxTracks)))
  {
    if artistUris != [] {
      var n := |artistUris| - 1;
      var init := artistUris[..n];
      var blocks := Blocks(fetch, artistUris, country, maxTracks);
      var prev := Blocks(fetch, init, country, maxTracks);
      forall k | 0 <= k < n ensures prev[k] == blocks[k] {
        assert init[k] == artistUris[k];
      }
      assert blocks == prev + [blocks[n]];
      TopTrackIdsConcatenates(fetch, init, country, maxTracks);
      var last := fetch(artistUris[n], country);
      assert blocks[n] == ArtistBlock(last.tracks, maxTracks);
      assert TopTrackIds(fetch, artistUris, country, maxTracks) == Some(Flatten(prev) + blocks[n]);
      FlattenAppend(prev, blocks[n]);
    }
  }

  /** Whatever precedes the last ':', the id is what follows it. */
  lemma {:induction false} LastSegmentAfterColon(prefix: string, id: string)
    requires ':' !in id
    ensures LastSegment(prefix + [':'] + id) == id
    decreases |id|
  {
    var uri := prefix + [':'] + id;
    if id != [] {
      var init := id[..|id| - 1];
      assert uri[..|uri| - 1] == prefix + [':'] + init;
      assert uri[|uri| - 1] == id[|id| - 1];
      LastSegmentAfterColon(prefix, init);
      assert id == init + [id[|id| - 1]];
    }
  }

  /** "spotify:track:abc" has the id "abc". */
  lemma TrackIdExample()
    ensures TrackId(Track("spotify:track:abc", 80)) == "abc"
  {
    LastSegmentAfterColon("spotify:track", "abc");
    assert "spotify:track" + [':'] + "abc" == "spotify:track:abc";
  }

  /** `artists_top_tracks`: one lookup, sort and slice per artist, appended in order. */
  method ArtistsTopTracks(artistUris: seq<string>, fetch: Fetch, country: Option<string>, maxTracks: Option<int>)
    returns (allTracks: Option<seq<string>>)
    ensures allTracks == TopTrackIds(fetch, artistUris, country, maxTracks)
  {
    var all := [];
    for n := 0 to |artistUris|
      invariant TopTrackIds(fetch, artistUris[..n], country, maxTracks) == Some(all)
    {
      assert artistUris[..n + 1][..n] == artistUris[..n];
      var answer := fetch(artistUris[n], country);
      if answer.FetchRaised? {
        TopTrackIdsRaises(fetch, artistUris, country, maxTracks);
        return None;
      }
      var tracks := SortBy(answer.tracks, ByPopularityDesc);
      var trackUris := Map(TrackId, tracks);
      all := all + SliceTo(trackUris, maxTracks);
    }
    assert artistUris[..|artistUris|] == artistUris;
    return Some(all);
  }

  // ---------------------------------------------------------------------
  // populate_playlist

  /** The largest number of items sent in one add request. */
  const BatchSize := 100

  /** A request sent to the playlist endpoint. */
  datatype Request = Replace(items: seq<string>) | Add(items: seq<string>)

  /** The remote playlist: its tracks, and the requests it has received. */
  class Playlist {
    var tracks: seq<string>
    var requests: seq<Request>

    constructor (tracks: seq<string>)
      ensures this.tracks == tracks && requests == []
    {
      this.tracks := tracks;
      requests := [];
    }

    /** `playlist_replace_items`: the playlist now holds exactly `items`. */
    method ReplaceItems(items: seq<string>)
      modifies this
      ensures tracks == items
      ensures requests == old(requests) + [Replace(items)]
    {
      tracks := items;
      requests := requests + [Replace(items)];
    }

    /** `playlist_add_items`: `items` are appended; one request carries at most 100 items. */
    method AddItems(items: seq<string>)
      requires |items| <= BatchSize
      modifies this
      ensures tracks == old(tracks) + items
      ensures requests == old(requests) + [Add(items)]
    {
      tracks := tracks + items;
      requests := requests + [Add(items)];
    }
  }

  /** `[t[i:i + 100] for i in range(0, len(t), 100)]` */
  function Batches(t: seq<string>): seq<seq<string>>
    decreases |t|
  {
    if t == [] then [] else [t[..Min(BatchSize, |t|)]] + Batches(t[Min(BatchSize, |t|)..])
  }

  function AddRequests(batches: seq<seq<string>>): seq<Request> {
    if batches == [] then [] else [Add(batches[0])] + AddRequests(batches[1..])
  }

  /** The batches, put back together, are the track list. */
  lemma {:induction false} BatchesFlatten(t: seq<string>)
    ensures Flatten(Batches(t)) == t
    decreases |t|
  {
    if t != [] {
      var m := Min(BatchSize, |t|);
      BatchesFlatten(t[m..]);
      assert t == t[..m] + t[m..];
    }
  }

  /** Every batch holds 1 to 100 tracks, and all but the last exactly 100. */
  lemma {:induction false} BatchesSizes(t: seq<string>)
    ensures forall b :: b in Batches(t) ==> 1 <= |b| <= BatchSize
    ensures forall k :: 0 <= k < |Batches(t)| - 1 ==> |Batches(t)[k]| == BatchSize
    decreases |t|
  {
    if t != [] {
      var m := Min(BatchSize, |t|);
      BatchesSizes(t[m..]);
      var bs := Batches(t);
      assert bs == [t[..m]] + Batches(t[m..]);
      forall k | 0 <= k < |bs| - 1 ensures |bs[k]| == BatchSize {
        if k > 0 {
          assert bs[k] == Batches(t[m..])[k - 1];
        } else {
          assert t[m..] != [] by {
            assert |Batches(t[m..])| > 0;
          }
        }
      }
    }
  }

  /** There are ceil(n / 100) add requests, none for an empty list. */
  lemma {:induction false} BatchesCount(t: seq<string>)
    ensures |Batches(t)| == (|t| + BatchSize - 1) / BatchSize
    ensures Batches(t) == [] <==> t == []
    decreases |t|
  {
    if t != [] {
      var m := Min(BatchSize, |t|);
      BatchesCount(t[m..]);
    }
  }

  /** 250 tracks go out as 100, 100 and 50. */
  lemma BatchesOf250(t: seq<string>)
    requires |t| == 250
    ensures |Batches(t)| == 3
    ensures |Batches(t)[0]| == 100 && |Batches(t)[1]| == 100 && |Batches(t)[2]| == 50
  {
    var u := t[100..];
    var v := u[100..];
    assert |v| == 50 && v[..Min(BatchSize, |v|)] == v && v[Min(BatchSize, |v|)..] == [];
    assert Batches(v) == [v];
    assert Batches(u) == [u[..100]] + [v];
    assert Batches(t) == [t[..100]] + Batches(u);
  }

  /** The batch starting at `i` is the next slice of at most `BatchSize` tracks. */
  lemma BatchesStep(tracks: seq<string>, i: nat)
    requires i < |tracks|
    ensures Batches(tracks[i..]) == [tracks[i..Min(i + BatchSize, |tracks|)]] + Batches(tracks[Min(i + BatchSize, |tracks|)..])
    ensures tracks[..Min(i + BatchSize, |tracks|)] == tracks[..i] + tracks[i..Min(i + BatchSize, |tracks|)]
  {
    assert tracks[i..] != [];
    assert tracks[i..][..Min(BatchSize, |tracks| - i)] == tracks[i..Min(i + BatchSize, |tracks|)];
    assert tracks[i..][Min(BatchSize, |tracks| - i)..] == tracks[Min(i + BatchSize, |tracks|)..];
  }

  /**
   * `populate_playlist`: one replace with the empty list, then an add per
   * batch. The playlist ends up holding exactly `tracks`, whatever it held
   * before, so repeating the call leaves the same contents.
   */
  method PopulatePlaylist(playlist: Playlist, tracks: seq<string>)
    modifies playlist
    ensures playlist.tracks == tracks
    ensures playlist.requests == old(playlist.requests) + [Replace([])] + AddRequests(Batches(tracks))
  {
    playlist.ReplaceItems([]);
    ghost var target := playlist.requests + AddRequests(Batches(tracks));
    var i := 0;
    while i < |tracks|
      invariant 0 <= i
      invariant playlist.tracks == tracks[..Min(i, |tracks|)]
      invariant playlist.requests + AddRequests(Batches(tracks[Min(i, |tracks|)..])) == target
    {
      var batch := tracks[i..Min(i + BatchSize, |tracks|)];
      BatchesStep(tracks, i);
      playlist.AddItems(batch);
      i := i + BatchSize;
    }
  }
}
