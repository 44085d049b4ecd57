# hearthis-search ranking pipeline in Dafny

This project models the ranking pipeline of the hearthis-search service
(`app.py`). The `/search` endpoint normalizes the query and answers short
queries and cached queries at once. Otherwise it fans out to three pages
of the global search and to twenty artist accounts, then gathers the
fetched tracks in completion order. While gathering it drops tracks
without a truthy `id`, scores the tracks that carry no `_score`, keeps
those scoring above 45, and admits each id only once. Finally it sorts by
(`_score`, `playback_count`) in descending order, keeps the first 150,
and stores the list in the cache.

Modules, one per part of the pipeline:

- `Text`: the Python string operations the pipeline relies on: `strip`,
  `lower`, `split()` and the substring test `in`.
- `Tracks`: track records and parsed JSON payloads.
- `Scoring`: `calculate_score` with its three rules.
- `Fetchers`: `fetch_global` and `fetch_artist` once the response body
  has been parsed. `FetchArtist` is a method with the source's loop.
- `Gathering`: the gather/dedup/filter loop. `Gather` is a method with
  the source's two nested loops. It is proved equal to a step function
  (`Run`), which in turn is proved equal to an independent description
  (`Admitted`, the first eligible arrival of each id).
- `Ranking`: the stable descending sort and the truncation to 150.
- `Search`: the request fan-out and the full aggregation. The class
  `SearchEngine` holds the shuffled artist list and the cache (a `map`
  field that `Search` updates).

Scores are `real`s. `fuzz.token_set_ratio` is an arbitrary function
parameter (`Ratio`), and no property depends on what it returns. The
network is a parameter `Network` that maps each request to its parsed
body. A failed request is `OtherPayload`, which every fetcher turns into
`[]`. The order in which the 23 futures complete is a parameter `order`,
which may be any permutation of the request indices.

Two behaviours of `app.py` that a reader might not expect:

- **Download bonus.** Rules 1 and 2 return early (app.py:52, app.py:57),
  so only the fuzzy score gets the download bonus
  (`Scoring.DownloadBonusOnlyFuzzy`, `Scoring.WakhraSwagExample`).
- **Malformed items.** A global search page whose body is a JSON array is
  passed on unfiltered (app.py:84). An element of it that is not a
  dictionary makes `t.get` raise in the gather loop (app.py:156). A
  `playback_count` that `int()` rejects makes the sort raise
  (app.py:169). Both exceptions escape the handler, and the cache is not
  written. The model answers `Crashed` in these cases
  (`Search.AggregateRaises`) and leaves the cache unchanged.

## Model

| member | source | states |
|---|---|---|
| Text.IsSpaceListed | app.py:55 | the whitespace that `split()` and `strip()` break on is exactly Python's 29 whitespace characters |
| Text.Lower | app.py:47-48 | the result has the input's length and no upper-case ASCII letter; each upper-case ASCII letter becomes its lower-case letter (code point plus 32), every other character is kept, and whitespace stays exactly where it was |
| Text.TrimStart | app.py:126 | the result is a suffix of the input that does not start with whitespace, and only whitespace was removed |
| Text.TrimEnd | app.py:126 | the result is a prefix of the input that does not end with whitespace, and only whitespace was removed |
| Text.Strip | app.py:126 | the result is a slice of the input with only whitespace outside it; `Text.StripTrimmed` adds that it neither starts nor ends with whitespace, so exactly the outer whitespace is removed |
| Text.StripTrimmed | app.py:126 | the stripped text is empty or starts and ends with a non-whitespace character |
| Text.Normalize | app.py:126 | the key is the lower-cased slice of the raw query between its leading and trailing whitespace; it is no longer than the raw query, has no whitespace at either end, and has no upper-case ASCII letter |
| Text.NormalizeIdempotent | app.py:126 | normalizing a key that is already normalized returns it unchanged |
| Text.Contains | app.py:52 | `q in s` holds exactly when `q` occurs in `s` at some position |
| Text.Words | app.py:55 | every word that `split()` returns is non-empty and contains no whitespace |
| Text.WordsConcat | app.py:55 | the words, concatenated, are exactly the non-whitespace characters of the query, in order |
| Text.WordsSep | app.py:55 | splitting at a whitespace character gives the words of the part before it followed by the words of the part after it |
| Scoring.Combined | app.py:47-49 | the combined text is the lower-cased title, one space, then the lower-cased username |
| Scoring.CombinedWords | app.py:47-56 | the words of the combined text are the title's words followed by the username's: the joining space never merges two words |
| Scoring.ContainsAll | app.py:56 | `all(part in combined ...)` holds exactly when every part occurs in the combined text |
| Scoring.Score | app.py:46-65 | a query occurring in the lower-cased title scores 100; otherwise a query of two or more words, each occurring in "title username", scores 95; otherwise the score is the fuzzy ratio, plus 5 exactly when the track is downloadable |
| Scoring.DownloadBonusOnlyFuzzy | app.py:52-63 | a download link changes the score by exactly 5 when neither early rule fires, and not at all otherwise |
| Scoring.OneWordQuery | app.py:55-60 | a one-word query never takes the split rule: it scores 100 or the fuzzy score with the bonus |
| Scoring.WakhraSwagExample | app.py:46-57 | the downloadable track "Wakhra Swag Remix" by "djX" scores exactly 95 for the query "swag wakhra", with no bonus |
| Fetchers.Objects | app.py:85 | an element is kept exactly when it is a dictionary value of the object |
| Fetchers.FetchGlobal | app.py:84-85 | a JSON array is returned unchanged; a JSON object yields only its dictionary values, none of them dropped or added; anything else yields `[]` |
| Fetchers.ArtistKeep | app.py:103-111 | every kept track has `_score` set above 45, and no more tracks are kept than elements given |
| Fetchers.ArtistKeepMembers | app.py:104-111 | a track is kept exactly when it is a dictionary element scoring above 45 with `_score` set to that score |
| Fetchers.ArtistKeepAppend | app.py:105-111 | the filter keeps the original order: filtering a concatenation concatenates the filtered parts |
| Fetchers.ArtistMatches | app.py:103-112 | a payload that is not a JSON array yields `[]`; every returned track has `_score` set above 45 |
| Fetchers.FetchArtist | app.py:103-112 | the loop returns exactly the kept tracks of a list payload, all with `_score` above 45, and `[]` for any other payload |
| Gathering.Admitted | app.py:158-166 | every admitted track has a truthy id and a score above 45 |
| Gathering.RunAdmits | app.py:153-166 | on dictionaries only, the loop's `results` are the first eligible arrival of each id, scored, in arrival order, and `seen_ids` holds exactly the ids of the eligible elements |
| Gathering.RunRaises | app.py:156 | once a non-dictionary element is reached the loop has raised, whatever follows |
| Gathering.CollectCases | app.py:153-166 | the loop raises exactly when some element is not a dictionary; otherwise it yields the first eligible arrivals |
| Gathering.AdmittedMembers | app.py:158-166 | a track is admitted exactly when it is the scored form of an eligible element with no earlier eligible element of the same id |
| Gathering.AdmittedDistinct | app.py:158-165 | no two admitted tracks share an id |
| Gathering.RejectedDoNotBlock | app.py:163-166 | an eligible element is admitted when every earlier element with its id was rejected: only admission records an id |
| Gathering.AdmittedKeepsScore | app.py:160-161 | an admitted track that arrived with a `_score` keeps it unchanged |
| Gathering.WithScore | app.py:160-161 | a track that has a `_score` is returned unchanged; one without gets the scorer's value; nothing but `_score` changes |
| Gathering.Step | app.py:156-166 | one element raises exactly when it is not a dictionary (or the loop had raised already); the state changes exactly when the element is an eligible track with an unseen id, and then that track is appended with its score and its id recorded |
| Gathering.Gather | app.py:153-166 | the nested loops over the batches in completion order compute exactly `Collect` of the concatenated batches |
| Ranking.Plays | app.py:169 | for a track whose `playback_count` parses, a missing count sorts as 0 and a parsed one as its value |
| Ranking.ScoreKey | app.py:169 | a missing `_score` sorts as 0, a present one as its value |
| Ranking.InsertMultiset | app.py:169 | inserting a track into the sorted prefix adds it and loses nothing |
| Ranking.SortDesc | app.py:169 | the sort is a permutation of its input |
| Ranking.SortDescSorted | app.py:169 | the sorted list is non-increasing in (`_score`, `playback_count`) over all pairs |
| Ranking.SortDescStable | app.py:169 | for every key, the tracks with that key keep their arrival order (Python's sort is stable, also with `reverse=True`) |
| Ranking.SortDescDistinct | app.py:169 | sorting keeps ids distinct |
| Ranking.Rank | app.py:169-172 | ranking succeeds exactly when every `playback_count` parses, and then returns min(n, 150) tracks |
| Ranking.RankSorted | app.py:169-172 | the answer is sorted and is a prefix of the stable sort of the admitted tracks |
| Ranking.RankKeepsTop | app.py:169-172 | the answer holds only admitted tracks (as a multiset), all of them when there are at most 150, and every kept track ranks at least as high as every dropped one |
| Ranking.RankDistinct | app.py:169-172 | ranking keeps ids distinct |
| Search.Targets | app.py:147 | the targets are the first min(n, 20) artists of the shuffled list |
| Search.Requests | app.py:142-150 | 3 + (number of artists) requests: global pages 1, 2 and 3, then one per target artist, in that order |
| Search.FanOut | app.py:142-150 | whatever order the start-up shuffle produced, a search targets 20 artists and submits 23 requests |
| Search.Fetch | app.py:143-150 | each request runs the fetcher it was submitted with on its parsed response |
| Search.FetchAll | app.py:152-154 | the result lists are collected in completion order, one per request |
| Search.Aggregate | app.py:153-172 | a successful aggregation has at most 150 tracks |
| Search.AggregateRanked | app.py:153-172 | a successful aggregation has exactly min(n, 150) tracks for n admitted tracks, is sorted, and is a prefix of the stable sort of the admitted tracks |
| Search.AggregateGood | app.py:153-172 | a successful aggregation is a good answer: at most 150 tracks, sorted, distinct truthy ids, every score above 45 |
| Search.AggregateFiltered | app.py:153-172 | every track of a successful aggregation has a truthy id that no other track of it shares, and a score above 45 |
| Search.AggregateRaises | app.py:153-169 | the handler raises exactly when a global array held a non-dictionary element or an admitted track's `playback_count` does not parse |
| Search.AllFetchesFail | app.py:153-172 | when all 23 fetches fail, the search answers `[]` without raising |
| Search.SearchEngine.constructor | app.py:147 | the target artists are the first 20 of the shuffled list, and the cache starts empty (so every cached list is a good answer) |
| Search.SearchEngine.Expire | app.py:13 | expiry or eviction removes exactly the given keys from the cache and keeps every cached list a good answer |
| Search.SearchEngine.Compute | app.py:138-172 | the fan-out, gather and rank compute exactly the aggregation, and a successful one is a good answer |
| Search.SearchEngine.Search | app.py:126-173 | a key shorter than 2 answers `[]`; a cached key answers the stored list; neither changes the cache. Otherwise the answer is the ranked aggregation and is stored under the key, or the handler raises and the cache is unchanged. Every found answer is a good answer, and every cached list stays one |
| Search.SearchEngine.SearchTwice | app.py:128-173 | a second search for the same query, with no expiry in between, returns the first answer whatever the network does |

## Left out

- Flask routing, `render_template`, `jsonify`, `app.run` and the timing `print`s are presentation and process plumbing.
- `requests.get`, status codes, timeouts, JSON decoding and the bare `except` are not modelled. The model starts from the parsed body, and a failed request is `OtherPayload`.
- The random `User-Agent` rotation is left out. `random.shuffle` of the artist list is a constructor argument; `Search.FanOut` covers any permutation.
- `ThreadPoolExecutor` and `as_completed` are not modelled. The completion order is the `order` argument, an arbitrary permutation.
- `fuzz.token_set_ratio` is a foreign library. It is an uninterpreted `Ratio` parameter, and its floating-point results are `real`s, so float rounding is not modelled.
- `TTLCache` timing and eviction policy are foreign. `SearchEngine.Expire` removes an arbitrary set of keys, and capacity is not modelled.
- `str.lower` is modelled for ASCII letters only; other scripts are returned unchanged.
- A `title` or `user.username` that is not a string, or a `user` that is `null`, would raise inside `calculate_score`. The model takes both as strings (missing means `''`).
- Only missing or null ids, integers and strings are modelled for `id`. Float, boolean and unhashable ids are not.
- `_score` values are `real`s. A `_score` of another type arriving from the remote service is not modelled.
- `playback_count` is missing, an integer `int()` accepts, or a value it rejects. The exact set of strings and floats `int()` accepts is not modelled.
- The writes of `_score` into the track dictionaries are modelled on values. Each dictionary appears in exactly one result list, so no other reader sees them. A rejected track's written `_score` is therefore not modelled.
- `results.sort` is Python's library sort and sorts in place. It is modelled as a function on sequences with the same stability, not as an in-place algorithm.
- Search.SearchEngine.Search: does not count network requests. "No fetch on a short query or a cache hit" is stated only as an answer and a cache that do not depend on `net`.
- Concurrent requests share `SEARCH_CACHE`. Each `Search` is modelled as one atomic step, so interleaved searches for the same key are not modelled; in the source the last write wins.
