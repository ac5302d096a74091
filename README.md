# Hidden-gem search of the TIH tourism assistant, in Dafny

This project models the core of the tourism assistant's "hidden gem" pipeline
and proves properties of the model.

- **Tourism search (`TIHAPI`).** It pages through the Tourism Information Hub
  search results at offsets `0, limit, 2 * limit, ...`. It keeps only the
  records whose matched place passes the rating filter, and it stops once
  enough records are kept or a page comes back short.
- **Place matcher (`GooglePlacesLookup`).** It resolves each record to a
  place of the places provider. It first looks in the local places cache. It
  asks the provider only for coordinates it has never seen, and it filters
  candidates by block, name and street.
- **Places cache (`JsonFileCache`).** It is an ordered store of provider
  results. Each result's `reference` is indexed to its position, and writes
  are upserts. The cache also keeps the set of coordinates already sent to
  the provider.
- **Record formatters.** `format_api_response` and the reply generator's
  `_format_api_response` turn a record into newline-separated text. They
  clean each free-text field by replacing newlines with spaces, deleting
  `<...>` spans and dropping non-ASCII characters.

## Files and modules

| file | module | holds |
|---|---|---|
| `types.dfy` | `Model` | The shared values:<br>- `Option` and `Result`;<br>- the errors the source raises;<br>- coordinates, places, records and provider responses;<br>- a few generic sequence lemmas. |
| `pystr.dfy` | `PyStr` | Python's `strip`, `lower`, `split`, `split(' ', 1)`, `join`, `replace`, `in` and `isnumeric` on `seq<char>`, with their laws. |
| `cache_json.dfy` | `GeoCache` | The class `JsonFileCache`.<br>Its specification functions: the index `Index`, the batch upsert `UpsertAll`, the stamping `Stamp` and the proximity scan `Nearby`. |
| `places_lookup.dfy` | `PlacesLookup` | The three filters.<br>The first-match scan, `FirstMatch`.<br>The page-by-page write, `WritePages`.<br>The class `GooglePlacesLookup`. |
| `tih_api.dfy` | `TihApi` | The rating predicate.<br>The address fallback.<br>The query dictionary.<br>The `.seconds` TTL of the dataset list.<br>The class `TIHAPI`, with the paging loop. |
| `format_api_response.dfy` | `FormatApiResponse` | The cleaning chain.<br>The six-line record text. |
| `generate_reply.dfy` | `GenerateReply` | The three-line reply text. |

The stateful parts are classes whose methods update fields:
- the cache's `cache`, `cacheSet` and `cacheRequests`;
- the search's `datasetsCache` and `datasetsCacheTime`.

The loops of the source are `while` loops with invariants:
- the upsert loop and the stamping loop of `write_to_cache`;
- the index rebuild of `load_cache`;
- the proximity scan of `get_cache`;
- the acronym loop of `_street_filter`;
- the first-match loop of `_filter_place`;
- the two nested loops of `multiple_datasets_by_keywords`.

Each method's postcondition ties its result and its new state to functions of
its inputs and its old state. The lookup is tied to `Resolve`, which says what
`find_place` answers in a given cache state, and `ResolvedStore`, the store it
leaves. The search loops carry, for every record examined, the cache state it
was looked up in and the state the lookup left. The lemmas prove what the
source promises about these functions.

Three things the model does not compute are parameters:
- **The proximity test** is the haversine distance being below 1 km. It is the cache's `near` predicate.
- **The request fingerprint** is a SHA-1 hash of `"{lat}_{lng}"`. The seen-set is keyed by the coordinate pair itself, which is the injective key the hash stands for.
- **`SequenceMatcher.ratio`** is the lookup's `ratio` function. The thresholds 0.5 and 0.8 are constants.

The model follows the code, including these behaviours:
- **A missing cache file is an error.** `open(..., "r")` raises, and the model reports it as `ok == false` from `LoadCache` and `loaded == false` from the lookup's constructor. The file is not treated as an empty cache.
- **The unrated case of the rating filter is `user_ratings_total <= 0`** (`tih_api/tih_api.py:90`).
- **Both query dates are today's date.** `(start_date - timedelta(days=5)).today()` calls `today()` on the shifted date, which discards it (`tih_api/tih_api.py:116-117`).
- **The dataset-list age is the `.seconds` part of the `timedelta`.** It leaves out whole days (`tih_api/tih_api.py:42`). A list fetched a whole number of days ago therefore counts as fresh.

## Model

| member | source | states |
|---|---|---|
| GeoCache.IndexSpec | enrich_places_api/cache_json.py:56-60 | The index maps exactly the stored references. Each maps to the last position that holds it, as the rebuild in `load_cache` leaves it when references repeat. |
| GeoCache.Appended | enrich_places_api/cache_json.py:34-37 | The references a batch adds are new: each occurs in the batch, none was stored before, none is added twice, and every new reference of the batch is added. |
| GeoCache.UpsertAllShape | enrich_places_api/cache_json.py:34-40 | After a batch, the old positions keep their order. The position that indexes a reference of the batch holds the batch's last result for it. The new references follow at the end, in order of first occurrence. |
| GeoCache.UpsertAllUnique | enrich_places_api/cache_json.py:34-40 | A batch write never creates a duplicate reference in a store without one. |
| GeoCache.UpsertAllLength | enrich_places_api/cache_json.py:31-37 | The store grows by exactly the number of references not stored before. |
| GeoCache.UpsertAllKeepsOthers | enrich_places_api/cache_json.py:34-40 | An entry whose reference is not in the batch keeps its position and every field. |
| GeoCache.UpsertAllOverwrites | enrich_places_api/cache_json.py:38-40 | A stored reference written again is overwritten in place. The indexed position holds the batch's last result for it. |
| GeoCache.UpsertAllConcat | enrich_places_api/cache_json.py:32-40 | Writing two batches one after the other is writing their concatenation. |
| GeoCache.UpsertAllIdempotent | enrich_places_api/cache_json.py:30-40 | Writing the same batch twice leaves the store as writing it once. |
| GeoCache.UpsertAllUpToStamp | enrich_places_api/cache_json.py:30-43 | Stores and batches that differ only in `cachedAt` give stores that differ only in `cachedAt`. |
| GeoCache.WriteTwice | enrich_places_api/cache_json.py:30-43 | Calling `write_to_cache` twice with the same batch leaves the same entries in the same order. Only the flush time differs. |
| GeoCache.WriteResult | enrich_places_api/cache_json.py:31-40 | A batch write grows the store by the number of new references. It keeps the store free of duplicates. |
| GeoCache.NearbySpec | enrich_places_api/cache_json.py:21-25 | The proximity scan returns exactly the stored places near the query coordinate, and no more of them than are stored. |
| GeoCache.NearbyConcat | enrich_places_api/cache_json.py:22-25 | The scan distributes over concatenation, so its result keeps store order. |
| GeoCache.JsonFileCache.constructor | enrich_places_api/cache_json.py:9-14 | A new cache has an empty store, an empty index and an empty seen-set. Its index is valid. |
| GeoCache.JsonFileCache.IsRequestInCache | enrich_places_api/cache_json.py:16-17 | The answer is whether the coordinate was already sent. The method changes nothing. |
| GeoCache.JsonFileCache.CheckRequest | enrich_places_api/cache_json.py:104-112 | The answer is whether the coordinate was seen before the call. When asked to, the method records the coordinate. The requests file is rewritten only when the coordinate was new and the file path is non-empty. |
| GeoCache.JsonFileCache.WriteCacheRequests | enrich_places_api/cache_json.py:78-86 | An empty path leaves the requests file alone. Otherwise the file receives the whole seen-set. |
| GeoCache.JsonFileCache.GetCache | enrich_places_api/cache_json.py:19-28 | The method returns `Nearby` of the store, in store order. Store and index are unchanged, and the coordinate is now in the seen-set. |
| GeoCache.JsonFileCache.WriteToCache | enrich_places_api/cache_json.py:30-49 | The new store is the batch upserted and every entry stamped with the flush time. The index stays valid. The store grows by `added`, the count of new references. Uniqueness is kept. The file receives the store. |
| GeoCache.JsonFileCache.UpsertResults | enrich_places_api/cache_json.py:31-40 | The first loop leaves `UpsertAll` of the old store and the index of the new store. The store grows by the counter. |
| GeoCache.JsonFileCache.StampAll | enrich_places_api/cache_json.py:42-43 | Every stored entry gets the same `cachedAt` and nothing else changes. |
| GeoCache.JsonFileCache.LoadCache | enrich_places_api/cache_json.py:51-67 | A missing file fails and changes nothing. A missing `cache_data` or `cache_requests` key keeps that state. Otherwise the loaded list and the rebuilt index replace the old ones. The requests file, when its path is set, has the last word on the seen-set. |
| GeoCache.JsonFileCache.LoadCacheRequests | enrich_places_api/cache_json.py:88-97 | An empty path does nothing. A missing file fails. A file with `cache_requests` replaces the seen-set. |
| PyStr.TrimLeftSpec | enrich_places_api/places_lookup_google.py:103-104 | `lstrip` returns a suffix that does not start with whitespace. Everything it cuts is whitespace. |
| PyStr.TrimRightSpec | enrich_places_api/places_lookup_google.py:103-104 | `rstrip` returns a prefix that does not end with whitespace. Everything it cuts is whitespace. |
| PyStr.StripSpec | enrich_places_api/places_lookup_google.py:103-104 | `strip` returns a slice with whitespace-only surroundings, and the slice neither starts nor ends with whitespace. |
| PyStr.StripIdempotent | enrich_places_api/places_lookup_google.py:103-104 | Stripping twice is stripping once. |
| PyStr.StripLower | enrich_places_api/places_lookup_google.py:60-61 | `strip().lower()` equals `lower().strip()`. |
| PyStr.NormalizeIdempotent | enrich_places_api/places_lookup_google.py:60-61 | The `strip().lower()` normalisation is idempotent. |
| PyStr.Split | enrich_places_api/places_lookup_google.py:87 | `split` gives at least one piece, and no piece holds the separator. |
| PyStr.JoinSplit | enrich_places_api/places_lookup_google.py:87 | Joining the pieces of a split with the separator gives the string back. |
| PyStr.SplitJoin | tih_api/tih_api.py:106 | Splitting a join of separator-free pieces gives the pieces back. |
| PyStr.SplitOnce | enrich_places_api/places_lookup_google.py:41 | `split(' ', 1)` gives the text before the first space and, when there is a space, the rest. Rejoined with the space they give the input back. |
| PyStr.SplitOnceAt | tih_api/tih_api.py:51 | A text made of a part without the separator, the separator and a rest splits into exactly that part and that rest. |
| PyStr.ContainsAt | enrich_places_api/places_lookup_google.py:66 | Python's `sub in s` holds exactly when `sub` occurs at some position of `s`. |
| PyStr.ReplaceAbsent | enrich_places_api/places_lookup_google.py:80-83 | `replace` leaves a string without the pattern alone. |
| PlacesLookup.BlockFilterTrimmed | enrich_places_api/places_lookup_google.py:102-104 | The block filter sees only the trimmed blocks. |
| PlacesLookup.BlockFilterLenient | enrich_places_api/places_lookup_google.py:106-114 | A blank TIH block never rejects, and a block always matches itself. |
| PlacesLookup.NameFilterNormalized | enrich_places_api/places_lookup_google.py:59-61 | The name filter sees only the trimmed, lowercased names. |
| PlacesLookup.NameFilterAccepts | enrich_places_api/places_lookup_google.py:59-75 | The name filter accepts if and only if the normalised names are equal, one occurs in the other, or their ratio reaches the threshold. |
| PlacesLookup.NameFilterMonotone | enrich_places_api/places_lookup_google.py:72-73 | A stricter name threshold rejects at least as much. |
| PlacesLookup.StreetFilterAccepts | enrich_places_api/places_lookup_google.py:77-100 | The street filter accepts if and only if the normalised streets are equal, the Google street is the TIH acronym, or their ratio reaches the threshold. In the first two cases the ratio is never consulted. |
| PlacesLookup.StreetExpansionQuirk | enrich_places_api/places_lookup_google.py:80-83 | The `" st"` expansion also fires on a street that is already spelled out: `" street"` becomes `" streetreet"`. |
| PlacesLookup.Acronym | enrich_places_api/places_lookup_google.py:86-89 | The acronym has one character per non-empty word: the first character of that word, in order. |
| PlacesLookup.AcronymOfWords | enrich_places_api/places_lookup_google.py:86-89 | The acronym of a street's words is as long as its count of non-empty words, and it holds no space. |
| PlacesLookup.GooglePlacesLookup.TihAbbreviation | enrich_places_api/places_lookup_google.py:86-89 | The accumulating loop builds `Acronym` of the words. |
| PlacesLookup.GooglePlacesLookup.StreetFilter | enrich_places_api/places_lookup_google.py:77-100 | The method rejects exactly when `StreetRejects` holds, with the 0.8 threshold. |
| PlacesLookup.JudgeIgnoresStamp | enrich_places_api/places_lookup_google.py:41-51 | No filter looks at `cachedAt`. |
| PlacesLookup.ScanNone | enrich_places_api/places_lookup_google.py:40-57 | The scan returns None exactly when every candidate is skipped. |
| PlacesLookup.ScanDecided | enrich_places_api/places_lookup_google.py:40-55 | The first candidate that is not skipped decides. If accepted, it is returned. If its address has no space, the scan fails. |
| PlacesLookup.ScanWitness | enrich_places_api/places_lookup_google.py:40-55 | A scan that does not return None was decided by some first unskipped candidate. |
| PlacesLookup.ScanMember | enrich_places_api/places_lookup_google.py:40-55 | The returned place is one of the candidates. |
| PlacesLookup.GooglePlacesLookup.FilterPlace | enrich_places_api/places_lookup_google.py:39-57 | The loop returns `FirstMatch`: the first candidate passing block, name and street in that order. A candidate with no space in its address fails. |
| PlacesLookup.FirstMatchStamp | enrich_places_api/places_lookup_google.py:36-37 | The stamps the cache writes put on fetched results do not change which result is picked. |
| PlacesLookup.WritePagesConcat | enrich_places_api/places_lookup_google.py:116-127 | Writing the pages one by one leaves the store that one write of their concatenation leaves. |
| PlacesLookup.GooglePlacesLookup.CollectData | enrich_places_api/places_lookup_google.py:116-127 | The method returns all pages concatenated in page order, stamped by the writes. Each page is written to the cache, in order. The places file receives the store after the last page, and no page leaves it alone. |
| PlacesLookup.GooglePlacesLookup.FindPlace | enrich_places_api/places_lookup_google.py:18-37 | A match among the cached places near the coordinate is returned, and cache and writes are untouched. Otherwise a coordinate seen before, or a missing client, gives None. Only then is the provider asked, every page written and the fetched results filtered. In every case the answer is `Resolve` of the old cache state and the new store is `ResolvedStore`. The coordinate is seen afterwards. The requests file is rewritten exactly when the coordinate is new and its path is set. The places file is rewritten exactly when the provider is asked. |
| PlacesLookup.ResolveFound | enrich_places_api/places_lookup_google.py:18-37 | A place `find_place` returns passed block, name and street. It is a cached place near the coordinate or one of the provider's results. |
| PlacesLookup.ScanAccepted | enrich_places_api/places_lookup_google.py:39-57 | A place the first-match scan returns was accepted by the filters. |
| PlacesLookup.GooglePlacesLookup.constructor | enrich_places_api/places_lookup_google.py:10-16 | A client exists exactly for a key that is not empty and not all whitespace. The cache is loaded: without a places file loading fails and the cache is unchanged. Otherwise the file's `cache_data`, when present, replaces the store. The seen-set comes from the requests file when its path is set and it has `cache_requests`, else from the places file, else it is kept. Loading fails when the requests file is needed and missing. |
| TihApi.HiddenGemThresholds | tih_api/tih_api.py:86-90 | A rated hidden gem is operational, below the rating-count cap and at or above the minimum rating. An unrated place always passes. A place at or above the cap never does. |
| TihApi.HiddenGemMonotone | tih_api/tih_api.py:78-90 | Looser thresholds keep at least as many places. |
| TihApi.TIHAPI.IsMatchingRatingFilter | tih_api/tih_api.py:78-94 | A record at (0, 0) fails, with no lookup and no cache change. Otherwise the place found is `Resolve` of the old cache state, a lookup error is returned as is, the store becomes `ResolvedStore` and the coordinate is seen. The verdict is `RatingPasses` of the place found: no match fails. |
| TihApi.AddressDataSpec | tih_api/tih_api.py:49-55 | The fallback only splits the street name. Block and street rejoined give it back, and the block is a numeric token. A non-blank block is kept. The fallback fails exactly for a blank block and an all-digit street name. Conversely, a blank block with a street name `w + " " + rest`, where `w` is numeric and has no space, yields exactly `(w, rest)`. |
| TihApi.TIHAPI.ProcessItem | tih_api/tih_api.py:26-30 | A record fails exactly when `LookupOf` in the old cache state fails, with that error: the address fallback or the lookup. Otherwise the place found is that lookup's, the new cache state is `StateAfter` and the verdict is `RatingPasses` of the place found. |
| TihApi.QuerySpec | tih_api/tih_api.py:105-117 | The query carries the datasets and the keywords, each joined with `", "`, and `distinct`, `limit` and `offset`. Dates travel only with event searches that have both dates, and then both equal today. Queries of different pages differ in the offset alone. |
| TihApi.QueriesSpec | tih_api/tih_api.py:19-25 | Query `k` asks for offset `k * limit`. |
| TihApi.JoinedListSplits | tih_api/tih_api.py:106-110 | The `", "`-joined dataset list splits back, on commas, into the datasets. Each piece after the first carries the space. |
| TihApi.ElapsedSecondsSpec | tih_api/tih_api.py:42 | `.seconds` stays within a day. It equals the elapsed whole seconds within the first day and starts over every day. |
| TihApi.RefreshSkipsWholeDays | tih_api/tih_api.py:42 | A list fetched a whole number of days ago counts as fresh. |
| TihApi.RefreshNeverAfterFirst | tih_api/tih_api.py:42 | A maximum age of a day or more never expires the list. |
| TihApi.TIHAPI.constructor | tih_api/tih_api.py:7-12 | A new search object has no cached dataset list and no fetch time. |
| TihApi.TIHAPI.GetDatasets | tih_api/tih_api.py:41-47 | The list is fetched again exactly when it never was, or when the `.seconds` since the last fetch exceed the maximum age. Otherwise the stored list and time are returned unchanged. |
| TihApi.SelectSubsequence | tih_api/tih_api.py:26-32 | The kept records are the records at exactly the flagged positions, in increasing order: an order-preserving subsequence. |
| TihApi.PageLoopStep | tih_api/tih_api.py:26-34 | One more record, looked up in the state the records before it left, either completes the count (the loop returns) or keeps the loop invariant. |
| TihApi.SearchStep | tih_api/tih_api.py:33-37 | After a page, the search ends with its result when the count is complete or the page is short. Otherwise it goes on with every page so far full. |
| TihApi.StopEmpty | tih_api/tih_api.py:20 | A non-positive expected count ends the search before any query, with nothing. |
| TihApi.TIHAPI.ProcessPage | tih_api/tih_api.py:26-34 | The inner loop either stops on the record that completes the count or consumes the whole page. Each record examined was looked up, by `LookupOf`, in the cache state the records before it left, and the last of those states is the cache's. The kept records are the passing ones among those examined, in order. On an error, the records examined before the failing one were judged in the same way, the count is still incomplete, and the lookup of the next record of the page, in the last of those states, fails with that error. The cache is then in the state that lookup leaves. |
| TihApi.TIHAPI.MultipleDatasetsByKeywords | tih_api/tih_api.py:14-39 | Query `k` is at offset `k * limit`. An events search returns the first page unfiltered, with no lookup and no cache change. Otherwise the result is the passing records, in order, of all full pages and a prefix of the last page. It has at most `expected_result_count` records and stops early only on the record completing the count or after a short page. Each record examined was looked up, by `LookupOf`, in the cache state the records before it left, starting from the cache before the call and ending at the cache after it. On an error, the records examined are a prefix of the fetched pages that stops inside the last page fetched, with every earlier page full. They were judged in turn with the count still incomplete, and the lookup of the next fetched record fails with that error. |
| TihApi.TIHAPI.SearchPage | tih_api/tih_api.py:26-37 | One page of the search: an error or a completed count or a short page ends the search with what the whole search states; otherwise the search goes on to the next page with its invariant kept. |
| TihApi.PageLoopFail | tih_api/tih_api.py:26-30 | A record whose lookup fails ends the page: the records before it were judged, the count is incomplete, and the error is that lookup's. |
| TihApi.SearchFail | tih_api/tih_api.py:26-37 | A lookup error inside page `n` ends the whole search with that error, after a prefix of the fetched pages that stops inside page `n`. |
| FormatApiResponse.ReplaceNewlinesSpec | tih_api/format_api_response.py:32-34 | Every newline becomes a space and nothing else changes. |
| FormatApiResponse.TagEnd | tih_api/format_api_response.py:37 | `.*?>` ends at the nearest `>`, and only if no newline comes first. |
| FormatApiResponse.StripTagsSubseq | tih_api/format_api_response.py:37-41 | Tag stripping only deletes characters. The rest keep their order. |
| FormatApiResponse.StripTagsSpan | tih_api/format_api_response.py:37-41 | A span from `<` to the nearest `>` on one line is deleted whole. |
| FormatApiResponse.StripTagsNoOpen | tih_api/format_api_response.py:37-41 | Text without `<` is left alone. |
| FormatApiResponse.StripTagsNoClose | tih_api/format_api_response.py:37-41 | Text without `>` is left alone, whatever `<` it holds. |
| FormatApiResponse.StripTagsNoTag | tih_api/format_api_response.py:37-41 | On a single line, no `<` is followed by a `>` after stripping. |
| FormatApiResponse.NoTagSubseq | tih_api/format_api_response.py:47-51 | Deleting characters cannot create a tag. |
| FormatApiResponse.DropNonAscii | tih_api/format_api_response.py:47-51 | What is left is ASCII and comes from the input. ASCII input is kept as it is. A single character is kept exactly when it is ASCII. |
| FormatApiResponse.DropNonAsciiAppend | tih_api/format_api_response.py:47-51 | The filter distributes over concatenation. With the single-character case, this pins down the result as the ASCII characters of the input, in order. |
| FormatApiResponse.DropNonAsciiSubseq | tih_api/format_api_response.py:47-51 | Dropping non-ASCII characters only deletes characters. |
| FormatApiResponse.CleanSpec | tih_api/format_api_response.py:32-51 | A cleaned field is the newline-replaced text with characters deleted. It has no newline, only ASCII and no tag. |
| FormatApiResponse.CleanPlain | tih_api/format_api_response.py:32-51 | Cleaning plain single-line ASCII text without `<` changes nothing. |
| FormatApiResponse.OptionalLines | tih_api/format_api_response.py:17-25 | The rating line is `"Rating: ..."` exactly for a rating above 1.0, and empty otherwise. The website line is `"Website: ..."` exactly when the website is present. |
| FormatApiResponse.FormatLines | tih_api/format_api_response.py:53 | The text splits on newlines into the three cleaned fields first. When the last three lines hold no newline, it splits into exactly name, description, body, website, address and rating. |
| GenerateReply.ReplyLines | generate_reply.py:78 | The reply text splits on newlines into exactly the three cleaned fields. |
| GenerateReply.ReplyLinesClean | generate_reply.py:57-76 | Each of the three lines is its field with newlines turned into spaces and characters deleted. It holds no tag and only ASCII. |
| GenerateReply.ReplyPrefixOfFormat | generate_reply.py:41-78 | The record formatter's text starts with the reply text. The two helpers agree on the cleaned fields. |

## Left out

- **HTTP and the provider client.** `requests.get`, `raise_for_status` and `googlemaps.Client.places` are not called. The search pages, the dataset list and the provider's pages are parameters. A non-200 status is not modelled.
- **JSON files and their serialisation.** The files are a field of what each last received, `storedCache` and `storedRequests`. Reads are an `Option<CacheFile>` parameter. Malformed JSON is not modelled.
- **Logging and delays.** `print` and `time.sleep(2)` are left out.
- **The haversine distance, the SHA-1 fingerprint and `SequenceMatcher.ratio`.** They are parameters, as described above. The floating-point distance is not modelled.
- **Python string methods on non-ASCII text.** `lower` and `isnumeric` are modelled on ASCII only. Non-ASCII letters and digits are not folded or counted.
- **The clock.** Each operation receives one clock reading, so all `cachedAt` stamps of one `write_to_cache` call are equal. All the pages fetched for one `find_place` also share one stamp. The source waits two seconds between page writes, so their stamps differ there. The timestamp format is not modelled.
- **`.today()` in the query.** The dates are one `today` string parameter. Its format is not modelled.
- **The abstract interfaces `ICache` and `IPlacesLookup`.** The model uses the concrete classes.
- **Missing dictionary keys and non-numeric strings in records.** `KeyError` and `ValueError` from `float(...)` are left out. Records and places are typed values.
- **`_request_dataset_list` returning `None`** for a body without `data`. The fetched list is a given sequence.
- TihApi.TIHAPI.MultipleDatasetsByKeywords:
  - It requires `limit > 0`. With `limit <= 0` the source can request the same offset forever. The model gives no result for that case.
  - The search pages are a finite sequence, and every page past the last is empty. The model does not cover a search service that never returns a short page.
