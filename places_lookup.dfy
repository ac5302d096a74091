/** The place matcher and resolver of `GooglePlacesLookup`: three string
    filters that decide whether a provider result is the tourism record's
    place, the first-match scan over candidates, the paginated fetch that
    writes every page to the cache, and the decision protocol of
    `find_place` over the cache's state. */
module PlacesLookup {

  import opened Model
  import opened PyStr
  import opened GeoCache

  /** `SequenceMatcher(None, a, b).ratio()`, which the model does not
      compute. */
  type Ratio = (string, string) -> real

  /** The similarity a name needs when neither name contains the other. */
  const NameMinRatio: real := 0.5
  /** The similarity a street needs when neither equality nor the acronym
      matches. */
  const StreetMinRatio: real := 0.8

  /** What `find_place` is asked to resolve: the tourism record's name,
      block and street name. */
  datatype Target = Target(place: string, block: string, streetName: string)

  // ---------------------------------------------------------------------
  // The three filters
  // ---------------------------------------------------------------------

  /** `_block_filter`: true rejects. */
  predicate BlockRejects(tihBlock: string, googleBlock: string)
  {
    var g := Strip(googleBlock);
    var t := Strip(tihBlock);
    |t| != 0 && g != t
  }

  /** `s.strip().lower()`. */
  function Normalize(s: string): string
  {
    Lower(Strip(s))
  }

  /** `_name_filter`: true rejects. */
  predicate NameRejects(tihName: string, googleName: string, ratio: Ratio, minRatio: real)
  {
    var g := Normalize(googleName);
    var t := Normalize(tihName);
    g != t && !Contains(t, g) && !Contains(g, t) && ratio(g, t) < minRatio
  }

  /** The street normalisation of `_street_filter`: trim, lowercase, then
      expand " st" and " rd" wherever they occur. */
  function StreetNormalize(s: string): string
  {
    Replace(Replace(Normalize(s), " st", " street"), " rd", " road")
  }

  /** The non-empty words, in order. */
  function NonEmptyWords(ws: seq<string>): (r: seq<string>)
    ensures forall k :: 0 <= k < |r| ==> r[k] != []
  {
    if ws == [] then []
    else NonEmptyWords(ws[..|ws| - 1]) + (if ws[|ws| - 1] != [] then [ws[|ws| - 1]] else [])
  }

  /** The first character of each non-empty word, in order. */
  function Acronym(ws: seq<string>): (r: string)
    ensures |r| == |NonEmptyWords(ws)|
    ensures forall k :: 0 <= k < |r| ==> r[k] == NonEmptyWords(ws)[k][0]
  {
    if ws == [] then []
    else
      var init, w := ws[..|ws| - 1], ws[|ws| - 1];
      Acronym(init) + (if w != [] then [w[0]] else [])
  }

  /** `_street_filter`: true rejects. */
  predicate StreetRejects(tihStreet: string, googleStreet: string, ratio: Ratio, minRatio: real)
  {
    var g := StreetNormalize(googleStreet);
    var t := StreetNormalize(tihStreet);
    g != t && Acronym(Split(t, ' ')) != g && ratio(g, t) < minRatio
  }

  // ---------------------------------------------------------------------
  // What the filters promise
  // ---------------------------------------------------------------------

  /** The block filter sees only the trimmed blocks: trimming either side
      first changes nothing. */
  lemma BlockFilterTrimmed(tihBlock: string, googleBlock: string)
    ensures BlockRejects(Strip(tihBlock), Strip(googleBlock)) == BlockRejects(tihBlock, googleBlock)
  {
    StripIdempotent(tihBlock);
    StripIdempotent(googleBlock);
  }

  /** A blank TIH block is never a reason to reject, and a block always
      matches itself. */
  lemma BlockFilterLenient(tihBlock: string, googleBlock: string)
    ensures Strip(tihBlock) == [] ==> !BlockRejects(tihBlock, googleBlock)
    ensures !BlockRejects(tihBlock, tihBlock)
  {
  }

  /** The name filter sees only the trimmed, lowercased names. */
  lemma NameFilterNormalized(tihName: string, googleName: string, ratio: Ratio, minRatio: real)
    ensures NameRejects(Normalize(tihName), Normalize(googleName), ratio, minRatio)
         == NameRejects(tihName, googleName, ratio, minRatio)
  {
    NormalizeIdempotent(tihName);
    NormalizeIdempotent(googleName);
  }

  /** The name filter accepts exactly when the normalised names are equal,
      one occurs inside the other at some position, or they are similar
      enough. */
  lemma NameFilterAccepts(tihName: string, googleName: string, ratio: Ratio, minRatio: real)
    ensures var g, t := Normalize(googleName), Normalize(tihName);
      !NameRejects(tihName, googleName, ratio, minRatio) <==>
        g == t || (exists i :: OccursAt(t, g, i)) || (exists i :: OccursAt(g, t, i)) || ratio(g, t) >= minRatio
  {
    var g, t := Normalize(googleName), Normalize(tihName);
    ContainsAt(t, g);
    ContainsAt(g, t);
  }

  /** A stricter threshold rejects at least as much. */
  lemma NameFilterMonotone(tihName: string, googleName: string, ratio: Ratio, lo: real, hi: real)
    requires lo <= hi
    ensures NameRejects(tihName, googleName, ratio, lo) ==> NameRejects(tihName, googleName, ratio, hi)
  {
  }

  /** The street filter accepts exactly when the normalised streets are
      equal, the Google street is the acronym of the TIH street, or they are
      similar enough; the ratio is consulted only in the last case. */
  lemma StreetFilterAccepts(tihStreet: string, googleStreet: string, ratio: Ratio, ratio': Ratio, minRatio: real)
    ensures var g, t := StreetNormalize(googleStreet), StreetNormalize(tihStreet);
      !StreetRejects(tihStreet, googleStreet, ratio, minRatio) <==>
        g == t || Acronym(Split(t, ' ')) == g || ratio(g, t) >= minRatio
    ensures var g, t := StreetNormalize(googleStreet), StreetNormalize(tihStreet);
      (g == t || Acronym(Split(t, ' ')) == g) ==>
        !StreetRejects(tihStreet, googleStreet, ratio, minRatio) && !StreetRejects(tihStreet, googleStreet, ratio', minRatio)
  {
  }

  /** The " st" expansion also fires on a street that is already spelled
      out: " st" becomes " street", and " street" becomes " streetreet". */
  lemma StreetExpansionQuirk()
    ensures Replace(" st", " st", " street") == " street"
    ensures Replace(" street", " st", " street") == " streetreet"
  {
    assert Replace("", " st", " street") == "";
    assert Replace("et", " st", " street") == "et";
    assert "eet"[..3] != " st" && "eet"[1..] == "et";
    assert Replace("eet", " st", " street") == "eet";
    assert "reet"[..3] != " st" && "reet"[1..] == "eet";
    assert Replace("reet", " st", " street") == "reet";
    assert " street"[..3] == " st" && " street"[3..] == "reet";
    assert " st"[..3] == " st" && " st"[3..] == "";
  }

  /** The acronym of the words of a street: one character per non-empty
      word, and never a space, since no word holds one. */
  lemma AcronymOfWords(street: string)
    ensures |Acronym(Split(street, ' '))| == |NonEmptyWords(Split(street, ' '))|
    ensures ' ' !in Acronym(Split(street, ' '))
  {
    var ws := Split(street, ' ');
    NonEmptyWordsFrom(ws);
    var a := Acronym(ws);
    forall k | 0 <= k < |a| ensures a[k] != ' ' {
      var w := NonEmptyWords(ws)[k];
      assert w in ws;
      assert w[0] in w;
    }
  }

  /** The non-empty words are words of the list. */
  lemma {:induction false} NonEmptyWordsFrom(ws: seq<string>)
    ensures forall w :: w in NonEmptyWords(ws) ==> w in ws
  {
    if ws != [] {
      NonEmptyWordsFrom(ws[..|ws| - 1]);
      assert forall w :: w in ws[..|ws| - 1] ==> w in ws;
    }
  }

  // ---------------------------------------------------------------------
  // The first-match scan of `_filter_place`
  // ---------------------------------------------------------------------

  /** What `_filter_place` does with one candidate: skip it, return it, or
      fail on the missing street part of an address without a space. */
  datatype Verdict = Skip | Accept | Crash

  function Judge(t: Target, p: Place, ratio: Ratio): Verdict
  {
    var parts := SplitOnce(p.formattedAddress, ' ');
    if BlockRejects(t.block, parts.0) then Skip
    else if NameRejects(t.place, p.name, ratio, NameMinRatio) then Skip
    else if parts.1.None? then Crash
    else if StreetRejects(t.streetName, Split(parts.1.value, ',')[0], ratio, StreetMinRatio) then Skip
    else Accept
  }

  /** The first candidate that `judge` does not skip decides: an accepted
      one is the result, a crashing one fails the scan, and running out of
      candidates gives None. */
  function Scan(results: seq<Place>, judge: Place -> Verdict): Result<Option<Place>>
  {
    if results == [] then Ok(None)
    else
      match judge(results[0])
      case Skip => Scan(results[1..], judge)
      case Accept => Ok(Some(results[0]))
      case Crash => Err(AddressWithoutSpace)
  }

  /** The result of `_filter_place`. */
  function FirstMatch(t: Target, results: seq<Place>, ratio: Ratio): Result<Option<Place>>
  {
    Scan(results, p => Judge(t, p, ratio))
  }

  /** Candidate `i` is the first one the scan does not skip, and its verdict
      is `v`. */
  predicate FirstDecided(results: seq<Place>, judge: Place -> Verdict, i: int, v: Verdict)
  {
    && 0 <= i < |results|
    && judge(results[i]) == v
    && forall j :: 0 <= j < i ==> judge(results[j]) == Skip
  }

  /** The scan returns None exactly when every candidate is skipped. */
  lemma {:induction false} ScanNone(results: seq<Place>, judge: Place -> Verdict)
    ensures Scan(results, judge) == Ok(None) <==>
      forall j :: 0 <= j < |results| ==> judge(results[j]) == Skip
  {
    if results != [] {
      var rest := results[1..];
      ScanNone(rest, judge);
      if judge(results[0]) == Skip {
        assert forall j :: 0 < j < |results| ==> results[j] == rest[j - 1];
      }
    }
  }

  /** The first candidate that is not skipped decides: an accepted one is
      returned, a crashing one fails the scan. */
  lemma {:induction false} ScanDecided(results: seq<Place>, judge: Place -> Verdict, i: int, v: Verdict)
    requires FirstDecided(results, judge, i, v)
    ensures v == Accept ==> Scan(results, judge) == Ok(Some(results[i]))
    ensures v == Crash ==> Scan(results, judge) == Err(AddressWithoutSpace)
    decreases i
  {
    if i > 0 {
      assert judge(results[0]) == Skip;
      var rest := results[1..];
      assert FirstDecided(rest, judge, i - 1, v);
      ScanDecided(rest, judge, i - 1, v);
    }
  }

  /** A scan that does not return None was decided by some candidate. */
  lemma {:induction false} ScanWitness(results: seq<Place>, judge: Place -> Verdict)
    requires Scan(results, judge) != Ok(None)
    ensures exists i :: FirstDecided(results, judge, i, Accept) || FirstDecided(results, judge, i, Crash)
  {
    var v := judge(results[0]);
    if v == Skip {
      var rest := results[1..];
      ScanWitness(rest, judge);
      var i :| FirstDecided(rest, judge, i, Accept) || FirstDecided(rest, judge, i, Crash);
      assert FirstDecided(results, judge, i + 1, judge(rest[i]));
    } else {
      assert FirstDecided(results, judge, 0, v);
    }
  }

  /** The candidate the scan returns is one of the candidates. */
  lemma {:induction false} ScanMember(results: seq<Place>, judge: Place -> Verdict)
    ensures Scan(results, judge).Ok? && Scan(results, judge).value.Some? ==>
      Scan(results, judge).value.value in results
  {
    if results != [] && judge(results[0]) == Skip {
      ScanMember(results[1..], judge);
    }
  }

  /** The candidate the scan returns was accepted by `judge`. */
  lemma {:induction false} ScanAccepted(results: seq<Place>, judge: Place -> Verdict)
    ensures Scan(results, judge).Ok? && Scan(results, judge).value.Some? ==>
      judge(Scan(results, judge).value.value) == Accept
  {
    if results != [] && judge(results[0]) == Skip {
      ScanAccepted(results[1..], judge);
    }
  }

  // ---------------------------------------------------------------------
  // The paginated fetch of `_collect_data`
  // ---------------------------------------------------------------------

  /** The pages concatenated in page order. */
  function Concat(pages: seq<seq<Place>>): seq<Place>
  {
    if pages == [] then [] else pages[0] + Concat(pages[1..])
  }

  /** The store after writing the pages one by one, each write stamping the
      whole store. */
  function WritePages(s: seq<Place>, pages: seq<seq<Place>>, now: string): seq<Place>
    decreases |pages|
  {
    if pages == [] then s else WritePages(Stamp(UpsertAll(s, pages[0]), now), pages[1..], now)
  }

  /** Writing the pages one by one leaves the store that one write of their
      concatenation leaves. */
  lemma {:induction false} WritePagesConcat(s: seq<Place>, pages: seq<seq<Place>>, now: string)
    requires pages != []
    ensures WritePages(s, pages, now) == Stamp(UpsertAll(s, Concat(pages)), now)
    decreases |pages|
  {
    var first, rest := pages[0], pages[1..];
    var r := UpsertAll(s, first);
    if rest == [] {
      assert Concat(pages) == first + [];
      assert first + [] == first;
    } else {
      WritePagesConcat(Stamp(r, now), rest, now);
      var c := Concat(rest);
      assert SameUpToStamp(Stamp(r, now), r);
      assert SameUpToStamp(c, c);
      UpsertAllUpToStamp(Stamp(r, now), r, c, c);
      SameUpToStampStamp(UpsertAll(Stamp(r, now), c), UpsertAll(r, c), now);
      UpsertAllConcat(s, first, c);
    }
  }

  /** Stamping candidates does not change which one the scan picks, for a
      judge that does not look at `cachedAt`. */
  lemma {:induction false} ScanStamp(results: seq<Place>, judge: Place -> Verdict, now: string)
    requires forall p: Place :: judge(p.(cachedAt := now)) == judge(p)
    ensures Scan(Stamp(results, now), judge) ==
      match Scan(results, judge)
      case Ok(Some(p)) => Ok(Some(p.(cachedAt := now)))
      case other => other
  {
    if results != [] {
      var stamped := Stamp(results, now);
      assert stamped[0] == results[0].(cachedAt := now);
      assert stamped[1..] == Stamp(results[1..], now);
      ScanStamp(results[1..], judge, now);
    }
  }

  /** Which fetched result `find_place` returns does not depend on the
      stamps the cache writes put on the results. */
  lemma FirstMatchStamp(t: Target, results: seq<Place>, ratio: Ratio, now: string)
    ensures FirstMatch(t, Stamp(results, now), ratio) ==
      match FirstMatch(t, results, ratio)
      case Ok(Some(p)) => Ok(Some(p.(cachedAt := now)))
      case other => other
  {
    forall p: Place ensures Judge(t, p.(cachedAt := now), ratio) == Judge(t, p, ratio) {
      JudgeIgnoresStamp(t, p, ratio, now);
    }
    ScanStamp(results, p => Judge(t, p, ratio), now);
  }

  /** One page of `_collect_data` followed by the rest of them: the store
      is the page-by-page write, and the results are all pages stamped. */
  lemma CollectStep(pages: seq<seq<Place>>, now: string, c0: seq<Place>, c1: seq<Place>, c2: seq<Place>,
                    first: seq<Place>, rest: seq<Place>)
    requires pages != []
    requires c1 == Stamp(UpsertAll(c0, pages[0]), now) && c2 == WritePages(c1, pages[1..], now)
    requires first == Stamp(pages[0], now) && rest == Stamp(Concat(pages[1..]), now)
    ensures c2 == WritePages(c0, pages, now)
    ensures first + rest == Stamp(Concat(pages), now)
  {
    ConcatCons(pages);
    StampConcat(pages[0], Concat(pages[1..]), now);
  }

  lemma AppendCons(w: seq<seq<Place>>, pages: seq<seq<Place>>)
    requires pages != []
    ensures w + [pages[0]] + pages[1..] == w + pages
  {
    assert [pages[0]] + pages[1..] == pages;
  }

  lemma ConcatCons(pages: seq<seq<Place>>)
    requires pages != []
    ensures Concat(pages) == pages[0] + Concat(pages[1..])
  {
  }

  /** The filters never look at `cachedAt`. */
  lemma JudgeIgnoresStamp(t: Target, p: Place, ratio: Ratio, now: string)
    ensures Judge(t, p.(cachedAt := now), ratio) == Judge(t, p, ratio)
  {
  }

  // ---------------------------------------------------------------------
  // What `find_place` answers
  // ---------------------------------------------------------------------

  /** The parts of the cache `find_place` depends on and changes: the
      stored places and the coordinates already sent to the provider. */
  datatype CacheState = CacheState(store: seq<Place>, seen: set<Coord>)

  /** `find_place` asks the provider: no cached place near `q` matches,
      `q` was never sent before, and a client exists. */
  predicate Fetches(st: CacheState, near: (Coord, Coord) -> bool, ratio: Ratio, hasClient: bool, t: Target, q: Coord)
  {
    FirstMatch(t, Nearby(st.store, q, near), ratio) == Ok(None) && q !in st.seen && hasClient
  }

  /** What `find_place` answers in cache state `st` when the provider would
      answer `response`: the match among the fetched pages when it asks the
      provider, and otherwise the match among the cached places near `q`
      (None when there is none). */
  function Resolve(st: CacheState, near: (Coord, Coord) -> bool, ratio: Ratio, hasClient: bool,
                   t: Target, q: Coord, response: PlacesResponse, now: string): Result<Option<Place>>
  {
    if Fetches(st, near, ratio, hasClient, t, q) then FirstMatch(t, Stamp(Concat(response.Pages()), now), ratio)
    else FirstMatch(t, Nearby(st.store, q, near), ratio)
  }

  /** The stored places after `find_place`: every fetched page written when
      it asks the provider, and otherwise the places as they were. */
  function ResolvedStore(st: CacheState, near: (Coord, Coord) -> bool, ratio: Ratio, hasClient: bool,
                         t: Target, q: Coord, response: PlacesResponse, now: string): seq<Place>
  {
    if Fetches(st, near, ratio, hasClient, t, q) then WritePages(st.store, response.Pages(), now) else st.store
  }

  /** The place `find_place` returns is a cached place near `q` or one of
      the provider's results, and it passed the three filters. */
  lemma ResolveFound(st: CacheState, near: (Coord, Coord) -> bool, ratio: Ratio, hasClient: bool,
                     t: Target, q: Coord, response: PlacesResponse, now: string)
    ensures var r := Resolve(st, near, ratio, hasClient, t, q, response, now);
      r.Ok? && r.value.Some? ==>
        && Judge(t, r.value.value, ratio) == Accept
        && ((r.value.value in st.store && near(q, r.value.value.location))
            || r.value.value in Stamp(Concat(response.Pages()), now))
  {
    var r := Resolve(st, near, ratio, hasClient, t, q, response, now);
    var judge := (p: Place) => Judge(t, p, ratio);
    var candidates := if Fetches(st, near, ratio, hasClient, t, q) then Stamp(Concat(response.Pages()), now)
                      else Nearby(st.store, q, near);
    if r.Ok? && r.value.Some? {
      ScanMember(candidates, judge);
      ScanAccepted(candidates, judge);
      NearbySpec(st.store, q, near);
    }
  }

  // ---------------------------------------------------------------------
  // The lookup object
  // ---------------------------------------------------------------------

  class GooglePlacesLookup {
    /** `_cache`. */
    const cache: JsonFileCache
    /** Whether `_client` was created: the API key is neither empty nor
        whitespace only. */
    const hasClient: bool
    /** The similarity measure of the name and street filters. */
    const ratio: Ratio

    /** Whether loading the cache succeeded. The source raises out of the
        constructor when a cache file cannot be opened, so no lookup object
        exists without it; the methods require it. */
    const loaded: bool

    /** `__init__`: keeps the cache, loads it, and creates a client only for
        a usable API key. */
    constructor (apiKey: string, cache: JsonFileCache, ratio: Ratio,
                 file: Option<CacheFile>, requestsFile: Option<CacheFile>)
      requires cache.Valid()
      modifies cache`cache, cache`cacheSet, cache`cacheRequests
      ensures cache.Valid()
      ensures this.cache == cache && this.ratio == ratio
      ensures hasClient <==> |apiKey| > 0 && exists k :: 0 <= k < |apiKey| && !IsSpace(apiKey[k])
      ensures loaded <==> file.Some? && (|cache.requestsPath| == 0 || requestsFile.Some?)
      ensures file.None? ==> cache.cache == old(cache.cache) && cache.cacheRequests == old(cache.cacheRequests)
      ensures file.Some? ==>
        cache.cache == (if file.value.cacheData.Some? then file.value.cacheData.value else old(cache.cache))
      ensures file.Some? ==> (cache.cacheRequests ==
        if |cache.requestsPath| > 0 && requestsFile.Some? && requestsFile.value.cacheRequests.Some?
        then set c | c in requestsFile.value.cacheRequests.value
        else if file.value.cacheRequests.Some? then set c | c in file.value.cacheRequests.value
        else old(cache.cacheRequests))
    {
      var ok := cache.LoadCache(file, requestsFile);
      this.cache := cache;
      this.ratio := ratio;
      var usable := |apiKey| > 0 && exists k :: 0 <= k < |apiKey| && !IsSpace(apiKey[k]);
      this.hasClient := usable;
      this.loaded := ok;
    }

    /** `_street_filter`, with the acronym built by its loop. */
    method StreetFilter(tihStreet: string, googleStreet: string) returns (reject: bool)
      ensures reject == StreetRejects(tihStreet, googleStreet, ratio, StreetMinRatio)
    {
      var g := StreetNormalize(googleStreet);
      var t := StreetNormalize(tihStreet);
      var abbreviation := TihAbbreviation(t);
      if g != t && abbreviation != g {
        if ratio(g, t) < StreetMinRatio {
          return true;
        }
      }
      return false;
    }

    /** The acronym loop of `_street_filter`. */
    static method TihAbbreviation(street: string) returns (abbreviation: string)
      ensures abbreviation == Acronym(Split(street, ' '))
    {
      var words := Split(street, ' ');
      abbreviation := "";
      var i := 0;
      while i < |words|
        invariant 0 <= i <= |words|
        invariant abbreviation == Acronym(words[..i])
      {
        var word := words[i];
        assert words[..i + 1][..i] == words[..i];
        if |word| > 0 {
          abbreviation := abbreviation + [word[0]];
        }
        i := i + 1;
      }
      assert words[..i] == words;
    }

    /** `_filter_place`: the first candidate that passes the block, name and
        street filters, in that order. */
    method FilterPlace(t: Target, results: seq<Place>) returns (r: Result<Option<Place>>)
      ensures r == FirstMatch(t, results, ratio)
    {
      ghost var judge := (p: Place) => Judge(t, p, ratio);
      var i := 0;
      while i < |results|
        invariant 0 <= i <= |results|
        invariant Scan(results, judge) == Scan(results[i..], judge)
      {
        var result := results[i];
        assert results[i..][1..] == results[i + 1..];
        var parts := SplitOnce(result.formattedAddress, ' ');
        if BlockRejects(t.block, parts.0) {
          i := i + 1;
          continue;
        }
        if NameRejects(t.place, result.name, ratio, NameMinRatio) {
          i := i + 1;
          continue;
        }
        if parts.1.None? {
          return Err(AddressWithoutSpace);
        }
        var reject := StreetFilter(t.streetName, Split(parts.1.value, ',')[0]);
        if reject {
          i := i + 1;
          continue;
        }
        return Ok(Some(result));
      }
      return Ok(None);
    }

    /** `_collect_data`: writes each page to the cache before following the
        next one and returns all pages concatenated, stamped by the
        writes. */
    method CollectData(pages: seq<seq<Place>>, now: string) returns (results: seq<Place>)
      requires cache.Valid()
      modifies cache`cache, cache`cacheSet, cache`storedCache, cache`writes
      ensures cache.Valid()
      ensures results == Stamp(Concat(pages), now)
      ensures cache.cache == WritePages(old(cache.cache), pages, now)
      ensures cache.writes == old(cache.writes) + pages
      ensures cache.storedCache == if pages == [] then old(cache.storedCache) else cache.cache
      decreases |pages|
    {
      if pages == [] {
        return [];
      }
      ghost var c0 := cache.cache;
      ghost var w0 := cache.writes;
      var _ := cache.WriteToCache(pages[0], now);
      ghost var c1 := cache.cache;
      var first := Stamp(pages[0], now);
      var rest := CollectData(pages[1..], now);
      CollectStep(pages, now, c0, c1, cache.cache, first, rest);
      results := first + rest;
      AppendCons(w0, pages);
    }

    /** `find_place`: a match among the cached places near `q` is returned
        without asking the provider; otherwise a coordinate seen before, or
        a missing client, gives None; only then is the provider asked, all
        its pages written, and the fetched results filtered. */
    method FindPlace(t: Target, q: Coord, response: PlacesResponse, now: string) returns (r: Result<Option<Place>>)
      requires loaded && cache.Valid()
      modifies cache`cache, cache`cacheSet, cache`storedCache, cache`writes, cache`cacheRequests, cache`storedRequests
      ensures cache.Valid()
      ensures cache.cacheRequests == old(cache.cacheRequests) + {q}
      ensures cache.storedRequests ==
        if q !in old(cache.cacheRequests) && |cache.requestsPath| > 0 then cache.cacheRequests else old(cache.storedRequests)
      ensures var st := CacheState(old(cache.cache), old(cache.cacheRequests));
        && r == Resolve(st, cache.near, ratio, hasClient, t, q, response, now)
        && cache.cache == ResolvedStore(st, cache.near, ratio, hasClient, t, q, response, now)
        && cache.storedCache == if Fetches(st, cache.near, ratio, hasClient, t, q) then cache.cache else old(cache.storedCache)
      ensures var hit := FirstMatch(t, Nearby(old(cache.cache), q, cache.near), ratio);
        var fetch := hit == Ok(None) && q !in old(cache.cacheRequests) && hasClient;
        && (!fetch ==> r == hit && cache.cache == old(cache.cache) && cache.writes == old(cache.writes))
        && (fetch ==> r == FirstMatch(t, Stamp(Concat(response.Pages()), now), ratio)
                      && cache.cache == WritePages(old(cache.cache), response.Pages(), now)
                      && cache.writes == old(cache.writes) + response.Pages())
    {
      var alreadySearched := cache.IsRequestInCache(q);
      var results := cache.GetCache(q);
      var hit := FirstMatch(t, results, ratio);
      if |results| > 0 {
        var foundPlace := FilterPlace(t, results);
        if foundPlace != Ok(None) {
          return foundPlace;
        }
      }
      if alreadySearched {
        return Ok(None);
      }
      if !hasClient {
        return Ok(None);
      }
      results := CollectData(response.Pages(), now);
      r := FilterPlace(t, results);
    }
  }
}
