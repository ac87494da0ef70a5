# Copenhell-tunes, modelled in Dafny

Copenhell-tunes is a batch job with four steps:
- scrape the Copenhell festival lineup;
- resolve every artist name to a Spotify artist uri;
- take each artist's most popular tracks;
- rewrite a playlist with those tracks.

Most of the job is I/O. This project models the deterministic logic beneath it and proves what that logic guarantees:

- **The lineup name pipeline** (`src/html_utils.py`), modelled as pure functions over the scraped span texts.
  - `unique` deduplicates the texts.
  - The substitution ` \(.+\)` removes a parenthetical suffix, then `strip` trims the name.
  - The list is stably sorted by `sort_name`: lowercase, drop one leading `"the "`, strip.
  - Modules `HtmlUtils`, `Strings`, `Sorting` and `Seqs`.
- **Artist resolution** (`get_uris_from_names`), modelled as a method with the source's two nested loops.
  - The search client is an oracle that answers a query on a given attempt.
  - Each answer is an exception, an empty item list or a list of artist uris.
  - Module `SpotifyUtils`.
- **Top-track selection** (`artists_top_tracks`), modelled as a loop method.
  - Per artist, one lookup, a stable sort by descending popularity, the id after the last `:`, and the first `max_tracks` ids (all of them when `max_tracks` is `None`).
  - The lookup client is an oracle.
- **Playlist rewrite** (`populate_playlist`), modelled as a loop method.
  - It calls `ReplaceItems([])`, then `AddItems` once per slice of 100 tracks.
  - The calls go to a `Playlist` object that stands for the remote playlist: it holds the tracks and records the requests it receives.
- **Credential precedence** (`fill_env_creds`, `src/copenhell_bot.py`), modelled as a loop that updates an `Args` object in place.
  - The environment and the credentials file are maps.

Each loop method is proved equal to a specification function: `ResolveAll`, `TopTrackIds`, the playlist state, or `Filled`. The lemmas state the source's promises about that function.

Two points of the program's behaviour are easy to misread. The model follows the code in both:

- The docstring of `get_uris_from_names` (src/spotify_utils.py:59-60) speaks of `max_retries` retries before an artist is abandoned. The loop `for i in range(max_retries)` (src/spotify_utils.py:78) makes `max_retries` attempts in total, the first one included. With `max_retries <= 0` no search is made at all (`ResolveNameSpec`, `ResolveAllWithoutRetries`).
- `extract_artist_info` deduplicates the span texts (src/html_utils.py:101-103) *before* it removes the parenthetical suffix (src/html_utils.py:104). So "Foo (DK)" and "Foo" both end up in the lineup as "Foo" (`ExtractArtistNamesKeepsBoth`). The lineup can therefore hold repeated names, and the names passed to `get_uris_from_names` need not be distinct. The model does not assume they are.

## Model

| member | source | states |
|---|---|---|
| HtmlUtils.Unique | src/html_utils.py:44-45 | the result has no duplicates, holds exactly the elements of the input, and has one entry per distinct input element; its order is left open |
| HtmlUtils.SortNameIgnoresArticle | src/html_utils.py:80-82 | a name that starts with "the " in any letter case has the key of the rest, lowercased and stripped |
| HtmlUtils.SortNameWithoutArticle | src/html_utils.py:80-82 | a name that does not start with "the " is only lowercased and stripped |
| HtmlUtils.SortNameDropsOneArticle | src/html_utils.py:80-82 | the anchored pattern removes one article only: "The The Band" sorts as "the band" |
| HtmlUtils.SortNameKeepsNonArticles | src/html_utils.py:80-82 | "Theory" and a bare "the" keep their first three letters |
| HtmlUtils.SortNameCaseInsensitive | src/html_utils.py:82 | the key of a name equals the key of its lowercase form |
| Strings.StripIsStripped | src/html_utils.py:82 | the result of `strip` is a piece of the input with only whitespace around it, and it neither starts nor ends with whitespace |
| Strings.StripNoop | src/html_utils.py:82 | a string without whitespace at either end is left unchanged by `strip` |
| Strings.LowerIdempotent | src/html_utils.py:82 | lowercasing twice is lowercasing once |
| HtmlUtils.FirstOpenSpec | src/html_utils.py:104 | the search for " (" finds the leftmost occurrence, and finds nothing only when there is none |
| HtmlUtils.NoOpenWithoutParenthesis | src/html_utils.py:104 | a text without "(" has no " (" at any position |
| HtmlUtils.LastCloseSpec | src/html_utils.py:104 | the search for ")" finds the rightmost occurrence, and finds nothing only when there is none |
| HtmlUtils.FirstNewlineSpec | src/html_utils.py:104 | the search for a newline fails exactly when the text is one line |
| HtmlUtils.ParenSpanIsLeftmostLongest | src/html_utils.py:104 | on one line the removed span is a match of ` \(.+\)` and covers every other match; no span is found iff there is no match |
| HtmlUtils.NormalizeOneLine | src/html_utils.py:104 | a one-line name is substituted as a single line, then stripped |
| HtmlUtils.NormalizeWithoutMatch | src/html_utils.py:104 | a name with no match of the pattern is only stripped |
| HtmlUtils.NormalizeWithMatch | src/html_utils.py:104 | for a match that covers all matches, the name loses exactly that span, then is stripped |
| HtmlUtils.NormalizeKeepsPlain | src/html_utils.py:104 | a one-line name without " (" and without outer whitespace is unchanged |
| HtmlUtils.NormalizeDropsSuffix | src/html_utils.py:104 | "Foo (DK)" becomes "Foo" |
| HtmlUtils.NormalizeKeepsPlainName | src/html_utils.py:104 | "Foo" stays "Foo" |
| HtmlUtils.NormalizeDropsAllSuffixes | src/html_utils.py:104 | greedy `.+`: "Foo (a) (b)" loses everything from the first " (" to the last ")" |
| HtmlUtils.NormalizeNeedsParenthesisContent | src/html_utils.py:104 | `.+` needs a character: "Foo ()" is unchanged |
| Strings.LexLeTotal | src/html_utils.py:112 | string comparison orders any two keys |
| Strings.LexLeTransitive | src/html_utils.py:112 | string comparison is transitive |
| Strings.LexLeAntisymmetric | src/html_utils.py:112 | keys that compare both ways are equal |
| HtmlUtils.ByNameIsTotalPreorder | src/html_utils.py:112 | comparing names by `sort_name` is a total preorder |
| Sorting.SortBy | src/html_utils.py:112 | the sort returns a permutation of its input |
| Sorting.SortBySorted | src/html_utils.py:112 | the result of the sort is ordered by the key |
| Sorting.SortByStable | src/spotify_utils.py:120 | the stable sort keeps the input order among elements with equal keys |
| Sorting.SortedUnique | src/html_utils.py:112 | two ordered permutations of one list are equal when no two distinct elements tie |
| HtmlUtils.ExtractArtistNames | src/html_utils.py:101-112 | the lineup has exactly as many entries as there are distinct span texts |
| HtmlUtils.ExtractArtistNamesCount | src/html_utils.py:101-104 | a name occurs in the lineup once for each distinct span text that normalises to it |
| HtmlUtils.ExtractArtistNamesEntry | src/html_utils.py:101-104 | every lineup entry is the normalisation of some span text |
| HtmlUtils.ExtractArtistNamesOrder | src/html_utils.py:112 | the lineup is ordered by `sort_name`, and it is the stable sort of the normalised deduplicated list |
| HtmlUtils.ExtractArtistNamesDetermined | src/html_utils.py:101-112 | distinct normalised texts without tied keys give their one sorted arrangement, whatever order `unique` chose |
| HtmlUtils.ExtractArtistNamesOrdersTwo | src/html_utils.py:112 | two names with strictly ordered keys come out in key order |
| HtmlUtils.ExtractArtistNamesOrdersThree | src/html_utils.py:112 | three names with strictly increasing keys, scraped in reverse, come out in key order |
| HtmlUtils.ExtractArtistNamesExample | src/html_utils.py:101-112 | ["Queen", "The Band"] becomes ["The Band", "Queen"] |
| HtmlUtils.ExtractArtistNamesExampleThree | src/html_utils.py:101-112 | ["The Who", "Queen", "the Beatles"] becomes ["the Beatles", "Queen", "The Who"] |
| HtmlUtils.ExtractArtistNamesKeepsDuplicates | src/html_utils.py:101-104 | two different texts with the same normal form both stay in the lineup |
| HtmlUtils.ExtractArtistNamesKeepsBoth | src/html_utils.py:101-104 | ["Foo (DK)", "Foo"] becomes ["Foo", "Foo"] |
| SpotifyUtils.AttemptsSpec | src/spotify_utils.py:78-95 | from a given attempt on, the searches stop at the first answer naming an artist and record its first uri; without such an answer every attempt is made and nothing is recorded |
| SpotifyUtils.ResolveNameSpec | src/spotify_utils.py:78-95 | per name: at most `max_retries` searches for "artist:" + the lowercased name; the uri is the first item of the first answer naming an artist; no uri iff no attempt found one, and then exactly `max_retries` searches were made |
| SpotifyUtils.ResolveNameAfterError | src/spotify_utils.py:79-95 | an exception on the first attempt is swallowed, and the second attempt records the artist |
| SpotifyUtils.ResolveAllInOrder | src/spotify_utils.py:77-91 | the result is the uris of the found names, in the order of the names |
| SpotifyUtils.ResolveAllBounds | src/spotify_utils.py:77-91 | at most one uri per name; at most `max_retries` searches per name, and at least one when `max_retries > 0` |
| SpotifyUtils.ResolveAllWithoutRetries | src/spotify_utils.py:78 | with `max_retries <= 0` no search is made and the result is empty |
| SpotifyUtils.GetUrisFromNames | src/spotify_utils.py:58-96 | the nested loops return the uris and search count of `ResolveAll` |
| SpotifyUtils.ByPopularityDescIsTotalPreorder | src/spotify_utils.py:120 | descending popularity is a total preorder |
| SpotifyUtils.ByPopularitySpec | src/spotify_utils.py:120 | the sort keeps the tracks, puts popularity in non-increasing order, and keeps the provider's order among equal popularities |
| SpotifyUtils.TiedMeansSamePopularity | src/spotify_utils.py:120 | two tracks tie exactly when their popularity is equal |
| SpotifyUtils.LastSegmentSpec | src/spotify_utils.py:121 | the id is a suffix of the uri without ':', and either the whole uri or preceded by ':' |
| SpotifyUtils.LastSegmentAfterColon | src/spotify_utils.py:121 | whatever precedes the last ':', the id is what follows it |
| SpotifyUtils.TrackIdExample | src/spotify_utils.py:121 | "spotify:track:abc" has the id "abc" |
| SpotifyUtils.ArtistBlockSpec | src/spotify_utils.py:120-122 | for `max_tracks >= 0` a block has min(`max_tracks`, number of tracks) ids, those of the most popular tracks in sorted order |
| SpotifyUtils.ArtistBlockUncapped | src/spotify_utils.py:122 | with `max_tracks=None` (what `-n` without a value gives, src/copenhell_bot.py:86-94, 127) the block holds the ids of all tracks, most popular first |
| SpotifyUtils.ArtistBlockNegative | src/spotify_utils.py:122 | for a negative `max_tracks` the block is the ids of the popularity-sorted tracks with the last -`max_tracks` of them dropped, and empty when there are no more tracks than that |
| SpotifyUtils.TopTrackIdsRaises | src/spotify_utils.py:118-119 | the call has no result exactly when some lookup raises |
| SpotifyUtils.TopTrackIdsConcatenates | src/spotify_utils.py:117-123 | without a raising lookup the result is the artists' blocks concatenated in artist order |
| SpotifyUtils.ArtistsTopTracks | src/spotify_utils.py:100-123 | the loop returns `TopTrackIds`: the concatenated blocks, or nothing if a lookup raised |
| SpotifyUtils.Playlist.ReplaceItems | src/spotify_utils.py:140 | the playlist then holds exactly the given items, and one replace request is recorded |
| SpotifyUtils.Playlist.AddItems | src/spotify_utils.py:142 | the items are appended, and one add request is recorded |
| SpotifyUtils.BatchesFlatten | src/spotify_utils.py:141-142 | the batches, concatenated, are the track list |
| SpotifyUtils.BatchesSizes | src/spotify_utils.py:141-142 | every batch holds 1 to 100 tracks, and every batch but the last exactly 100 |
| SpotifyUtils.BatchesCount | src/spotify_utils.py:141-142 | there are ceil(n / 100) batches, and none for an empty list |
| SpotifyUtils.BatchesOf250 | src/spotify_utils.py:141-142 | 250 tracks go out as batches of 100, 100 and 50 |
| SpotifyUtils.BatchesStep | src/spotify_utils.py:141-142 | the batch at index `i` is the slice `i` to `i + 100`, and the batches after it are those of the rest |
| SpotifyUtils.PopulatePlaylist | src/spotify_utils.py:126-142 | whatever it held before, the playlist ends with exactly `tracks`; the requests are one empty replace, then one add per batch |
| CopenhellBot.AttributeOfToken | src/copenhell_bot.py:26-30 | each token's attribute is its lowercased name, and it is the credential at the token's position |
| CopenhellBot.Args.GetAttr | src/copenhell_bot.py:30 | `getattr` reads the credential of the named attribute |
| CopenhellBot.Args.SetAttr | src/copenhell_bot.py:32 | `setattr` changes that credential only, and leaves country, track count and quiet flag alone |
| CopenhellBot.LayeredPrecedence | src/copenhell_bot.py:30-34 | a command-line value stays; otherwise a non-empty environment value wins over the file; otherwise a non-empty file value; otherwise the value stays empty |
| CopenhellBot.LayeredEmpty | src/copenhell_bot.py:30-34 | a credential ends empty exactly when none of the three sources has a value |
| CopenhellBot.FilledIdempotent | src/copenhell_bot.py:29-34 | filling twice with the same environment and file gives what filling once gives |
| CopenhellBot.FillEnvCreds | src/copenhell_bot.py:17-35 | each of the four credentials becomes its layered value; country, track count and quiet flag are unchanged |

## Left out

- Browser setup, page loading, scrolling and the waits in `src/html_utils.py` are left out. They are browser I/O and timing.
- The HTML parsing and class selection in `extract_artist_info` are left out because they are a third-party parser. The model takes the scraped span texts as its input.
- Spotify authentication and client construction are left out. The client's `search` and `artist_top_tracks` calls are oracles. `playlist_replace_items` and `playlist_add_items` are methods of the `Playlist` object.
- The oracles are deterministic. `Search` is a function of the query and the attempt number, and `Fetch` is a function of the artist uri and the market. A real service may answer the same question differently at different times; only the attempt number stands for that here.
- A search response that lacks the "artists" key, or an item that lacks "uri", raises in the source and is caught like any other exception. The oracle's `SearchRaised` answer covers both cases.
- The `@timeout` and `@RateLimiter` decorators and the `sleep` calls are left out because they are wall-clock behaviour. The rate limiter decorates `get_uris_from_names` itself (src/spotify_utils.py:57). It limits calls of the whole function, not the `client.search` calls inside it, so it does not pace the searches. The search count that `GetUrisFromNames` returns only counts the calls made to the search oracle.
- `rich` printing, progress bars and the `verbose`/`quiet` flags are left out as output.
- A `rich` print can also raise. rich reads square brackets as markup, so an artist name with an unmatched closing tag such as "[/x]" makes the `print` at src/spotify_utils.py:88 fail. The `except` at line 92 catches it, so an artist that was found is dropped. With `verbose`, the `print` at line 94 fails again outside the `try` and aborts the whole call. The model treats every print as harmless.
- `load_credentials` and `os.environ` are not modelled as I/O. Each becomes a `map<string, string>` parameter, and a non-string value in the credentials file is not modelled.
- `setup_args` and `main` (src/copenhell_bot.py) and `setup_spotify_client` (src/spotify_utils.py:35-53) are command-line and client glue and are not part of this model.
- A credential option (`client_id`, `client_secret`, `redirect_uri`, `playlist_uri`) given without a value is `None` in the source and the empty string here. `fill_env_creds` treats both as false.
- `str.lower` and `str.strip` are not modelled in full Unicode. Lowercasing covers ASCII and Latin-1 letters. Whitespace is Python's `isspace` set.
- `unique`'s order depends on Python's set iteration order, which the model does not fix. `HtmlUtils.Unique` picks some arrangement of the distinct elements, and every lemma holds for any arrangement.
- `list.sort` and `sorted` are library calls. `Sorting.SortBy`, a stable insertion sort on values, stands for both, so the in-place update of `tracks` at `src/spotify_utils.py:120` is modelled as a new sequence.
- SpotifyUtils.ArtistsTopTracks: an exception from a top-tracks lookup propagates out of the source function and discards the list built so far. The model returns `None` instead of raising.
- SpotifyUtils.PopulatePlaylist: an exception from the client partway through the batches is not modelled, because the `Playlist` requests always succeed.
