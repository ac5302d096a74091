/** The tourism-search side of the hidden-gem pipeline (`TIHAPI`): the
    paging loop that keeps only records whose matched place passes the
    rating filter, the address fallback, the rating predicate, the search
    query, and the time-limited cache of the dataset list. */
module TihApi {

  import opened Model
  import opened PyStr
  import opened GeoCache
  import opened PlacesLookup

  // ---------------------------------------------------------------------
  // The rating predicate
  // ---------------------------------------------------------------------

  /** The defaults of `_is_matching_google_rating_filter`. */
  const MaxRatingCount: int := 500
  const MinimumRating: real := 3.0

  /** A matched place is a hidden gem: operational, not yet popular and well
      rated, or not rated by anybody. */
  predicate HiddenGem(p: Place, maxRatingCount: int, minimumRating: real)
  {
    var operational := p.businessStatus == "OPERATIONAL";
    (operational && p.userRatingsTotal < maxRatingCount && p.rating >= minimumRating) || p.userRatingsTotal <= 0
  }

  /** A rated hidden gem meets every threshold; an unrated place always
      passes; a place rated by at least `maxRatingCount` people never does. */
  lemma HiddenGemThresholds(p: Place, maxRatingCount: int, minimumRating: real)
    requires maxRatingCount > 0
    ensures p.userRatingsTotal > 0 && HiddenGem(p, maxRatingCount, minimumRating) ==>
      p.businessStatus == "OPERATIONAL" && p.userRatingsTotal < maxRatingCount && p.rating >= minimumRating
    ensures p.userRatingsTotal <= 0 ==> HiddenGem(p, maxRatingCount, minimumRating)
    ensures p.userRatingsTotal >= maxRatingCount ==> !HiddenGem(p, maxRatingCount, minimumRating)
  {
  }

  /** Looser thresholds keep at least as many places. */
  lemma HiddenGemMonotone(p: Place, max1: int, min1: real, max2: int, min2: real)
    requires max1 <= max2 && min2 <= min1
    ensures HiddenGem(p, max1, min1) ==> HiddenGem(p, max2, min2)
  {
  }

  /** The outcome of the rating filter for a record at `location` whose
      lookup found `found`: a record without coordinates never passes. */
  predicate RatingPasses(location: Coord, found: Option<Place>)
  {
    location != Origin && found.Some? && HiddenGem(found.value, MaxRatingCount, MinimumRating)
  }

  // ---------------------------------------------------------------------
  // The address fallback
  // ---------------------------------------------------------------------

  /** `_get_tih_address_data`: a blank block with a street name that starts
      with a numeric token yields that token as block and the rest as
      street; an address whose whole street name is numeric fails there. */
  function AddressData(a: Address): Result<(string, string)>
  {
    if |Strip(a.block)| == 0 then
      var parts := SplitOnce(a.streetName, ' ');
      if IsNumeric(parts.0) then
        if parts.1.None? then Err(StreetWithoutSpace) else Ok((parts.0, parts.1.value))
      else Ok((a.block, a.streetName))
    else Ok((a.block, a.streetName))
  }

  /** The fallback only ever splits the street name: block and street
      rejoined with the space give the street name back, the block is the
      numeric first token, and a non-blank block is kept as it is. It fails
      exactly for a blank block with an all-digit street name. Conversely,
      a blank block with a street name made of a numeric first word `w`, a
      space and a remainder `rest` yields exactly `w` and `rest`. */
  lemma AddressDataSpec(a: Address, w: string, rest: string)
    ensures AddressData(a).Err? <==> |Strip(a.block)| == 0 && IsNumeric(a.streetName)
    ensures |Strip(a.block)| != 0 ==> AddressData(a) == Ok((a.block, a.streetName))
    ensures AddressData(a).Ok? && AddressData(a).value != (a.block, a.streetName) ==>
      var (block, street) := AddressData(a).value;
      block + " " + street == a.streetName && IsNumeric(block) && ' ' !in block
    ensures |Strip(a.block)| == 0 && IsNumeric(w) && ' ' !in w && a.streetName == w + " " + rest ==>
      AddressData(a) == Ok((w, rest))
  {
    if ' ' !in w && a.streetName == w + " " + rest {
      SplitOnceAt(w, ' ', rest);
    }
    if |Strip(a.block)| == 0 {
      var parts := SplitOnce(a.streetName, ' ');
      if IsNumeric(a.streetName) {
        assert ' ' !in a.streetName by {
          forall k | 0 <= k < |a.streetName| ensures a.streetName[k] != ' ' {
          }
        }
        assert parts.0 == a.streetName;
      }
    }
  }

  // ---------------------------------------------------------------------
  // The lookup of one record
  // ---------------------------------------------------------------------

  /** What a record's lookup depends on besides the cache: the cache's
      nearness test, the name-matching ratio, whether a client exists,
      the provider's answer for a name and a location, and the time stamp
      written with fetched places. */
  datatype LookupEnv = LookupEnv(near: (Coord, Coord) -> bool, ratio: Ratio, hasClient: bool,
                                 provider: (string, Coord) -> PlacesResponse, now: string)

  /** What the lookup of `item` returns in cache state `st`: the address
      fallback's error, no place for a record at (0, 0), and otherwise what
      `find_place` answers for the name, block and street. */
  function LookupOf(st: CacheState, item: Item, env: LookupEnv): Result<Option<Place>>
  {
    match AddressData(item.address)
    case Err(e) => Err(e)
    case Ok((block, street)) =>
      if item.location == Origin then Ok(None)
      else Resolve(st, env.near, env.ratio, env.hasClient, Target(item.name, block, street), item.location,
                   env.provider(item.name, item.location), env.now)
  }

  /** The cache state the lookup of `item` leaves: untouched when it stops
      before `find_place`, and otherwise with the location marked as seen
      and the fetched places written. */
  function StateAfter(st: CacheState, item: Item, env: LookupEnv): CacheState
  {
    match AddressData(item.address)
    case Err(_) => st
    case Ok((block, street)) =>
      if item.location == Origin then st
      else CacheState(ResolvedStore(st, env.near, env.ratio, env.hasClient, Target(item.name, block, street),
                                    item.location, env.provider(item.name, item.location), env.now),
                      st.seen + {item.location})
  }

  // ---------------------------------------------------------------------
  // The search query
  // ---------------------------------------------------------------------

  /** The parameters `_request_from_api` sends. */
  datatype Query = Query(
    dataset: string,
    distinct: string,
    limit: int,
    offset: int,
    keyword: string,
    startDate: Option<string>,
    endDate: Option<string>)

  /** The query dictionary. Both dates, when present, are today's date: the
      source shifts the given dates by five days and then calls `.today()`
      on the result, which discards them. */
  function BuildQuery(datasets: seq<string>, keywords: seq<string>, limit: int, offset: int,
                      hasStartDate: bool, hasEndDate: bool, today: string): Query
  {
    var q := Query(Join(datasets, ", "), "Yes", limit, offset, Join(keywords, ", "), None, None);
    if "events" in datasets && hasStartDate && hasEndDate then q.(startDate := Some(today), endDate := Some(today))
    else q
  }

  /** The dates travel only with event searches that have both dates, and
      then both equal today; queries for different pages differ in the
      offset alone. */
  lemma QuerySpec(datasets: seq<string>, keywords: seq<string>, limit: int, offset: int, offset': int,
                  hasStartDate: bool, hasEndDate: bool, today: string)
    ensures var q := BuildQuery(datasets, keywords, limit, offset, hasStartDate, hasEndDate, today);
      && (q.startDate.Some? <==> "events" in datasets && hasStartDate && hasEndDate)
      && q.startDate == q.endDate
      && (q.startDate.Some? ==> q.startDate.value == today)
      && q.dataset == Join(datasets, ", ") && q.keyword == Join(keywords, ", ")
      && q.distinct == "Yes" && q.limit == limit && q.offset == offset
    ensures BuildQuery(datasets, keywords, limit, offset, hasStartDate, hasEndDate, today).(offset := offset')
         == BuildQuery(datasets, keywords, limit, offset', hasStartDate, hasEndDate, today)
  {
  }

  /** The queries of the first `n` pages, at offsets `0, limit, 2 * limit, ...`. */
  function Queries(datasets: seq<string>, keywords: seq<string>, limit: int, hasStartDate: bool,
                   hasEndDate: bool, today: string, n: nat): (qs: seq<Query>)
    ensures |qs| == n
  {
    if n == 0 then []
    else Queries(datasets, keywords, limit, hasStartDate, hasEndDate, today, n - 1)
         + [BuildQuery(datasets, keywords, limit, (n - 1) * limit, hasStartDate, hasEndDate, today)]
  }

  lemma QueriesNext(datasets: seq<string>, keywords: seq<string>, limit: int, hasStartDate: bool,
                    hasEndDate: bool, today: string, n: nat)
    ensures Queries(datasets, keywords, limit, hasStartDate, hasEndDate, today, n + 1)
         == Queries(datasets, keywords, limit, hasStartDate, hasEndDate, today, n)
            + [BuildQuery(datasets, keywords, limit, n * limit, hasStartDate, hasEndDate, today)]
  {
  }

  /** Query `k` asks for the page at offset `k * limit`. */
  lemma {:induction false} QueriesSpec(datasets: seq<string>, keywords: seq<string>, limit: int, hasStartDate: bool,
                                       hasEndDate: bool, today: string, n: nat)
    ensures forall k :: 0 <= k < n ==>
      Queries(datasets, keywords, limit, hasStartDate, hasEndDate, today, n)[k]
      == BuildQuery(datasets, keywords, limit, k * limit, hasStartDate, hasEndDate, today)
  {
    if n > 0 {
      QueriesSpec(datasets, keywords, limit, hasStartDate, hasEndDate, today, n - 1);
    }
  }

  /** The dataset list of a query splits back into the datasets when no
      dataset name holds a comma: each piece after the first carries the
      joining space in front. */
  lemma {:induction false} JoinedListSplits(ws: seq<string>)
    requires |ws| >= 1
    requires forall k :: 0 <= k < |ws| ==> ',' !in ws[k]
    ensures Split(Join(ws, ", "), ',') == [ws[0]] + seq(|ws| - 1, k requires 0 <= k < |ws| - 1 => " " + ws[k + 1])
  {
    var spaced := [ws[0]] + seq(|ws| - 1, k requires 0 <= k < |ws| - 1 => " " + ws[k + 1]);
    forall k | 0 <= k < |spaced| ensures ',' !in spaced[k] {
      if k > 0 {
        assert spaced[k] == " " + ws[k];
      }
    }
    JoinSpaced(ws);
    SplitJoin(spaced, ',');
  }

  lemma {:induction false} JoinSpaced(ws: seq<string>)
    requires |ws| >= 1
    ensures Join(ws, ", ") == Join([ws[0]] + seq(|ws| - 1, k requires 0 <= k < |ws| - 1 => " " + ws[k + 1]), [','])
  {
    var spaced := [ws[0]] + seq(|ws| - 1, k requires 0 <= k < |ws| - 1 => " " + ws[k + 1]);
    if |ws| > 1 {
      var rest := ws[1..];
      JoinSpaced(rest);
      var spacedRest := [rest[0]] + seq(|rest| - 1, k requires 0 <= k < |rest| - 1 => " " + rest[k + 1]);
      assert spaced[1..] == [" " + rest[0]] + spacedRest[1..];
      JoinHeadPrefix(spacedRest, " ");
      assert Join(spaced[1..], [',']) == " " + Join(spacedRest, [',']);
      assert Join(spaced, [',']) == spaced[0] + [','] + Join(spaced[1..], [',']);
      assert ws[0] + ", " + Join(rest, ", ") == ws[0] + [','] + (" " + Join(rest, ", "));
    }
  }

  /** Prefixing the first piece prefixes the join. */
  lemma JoinHeadPrefix(ws: seq<string>, p: string)
    requires |ws| >= 1
    ensures Join([p + ws[0]] + ws[1..], [',']) == p + Join(ws, [','])
  {
    var sep, rest := [','], ws[1..];
    assert [ws[0]] + rest == ws;
    if rest == [] {
      assert [p + ws[0]] + rest == [p + ws[0]];
    } else {
      JoinCons(p + ws[0], rest, sep);
      JoinCons(ws[0], rest, sep);
      AppendAssoc(p, ws[0], sep);
      AppendAssoc(p, ws[0] + sep, Join(rest, sep));
    }
  }

  // ---------------------------------------------------------------------
  // The dataset-list cache
  // ---------------------------------------------------------------------

  /** Microseconds in a day and in a second. */
  const DayMicros: int := 86_400_000_000
  const SecondMicros: int := 1_000_000

  /** `(now - since).seconds` for clock readings in microseconds: the
      seconds part of the normalised `timedelta`, which leaves out whole
      days and is never negative. */
  function ElapsedSeconds(since: int, now: int): int
  {
    ((now - since) % DayMicros) / SecondMicros
  }

  /** The seconds part stays within a day, equals the elapsed whole seconds
      within the first day, and starts over every day. */
  lemma ElapsedSecondsSpec(since: int, now: int, days: nat)
    ensures 0 <= ElapsedSeconds(since, now) < 86_400
    ensures 0 <= now - since < DayMicros ==> ElapsedSeconds(since, now) == (now - since) / SecondMicros
    ensures ElapsedSeconds(since, now + days * DayMicros) == ElapsedSeconds(since, now)
  {
    assert (now + days * DayMicros - since) % DayMicros == (now - since) % DayMicros by {
      ModShift(now - since, days);
    }
  }

  lemma ModShift(d: int, days: nat)
    ensures (d + days * DayMicros) % DayMicros == d % DayMicros
  {
    var q, r := d / DayMicros, d % DayMicros;
    assert d == q * DayMicros + r;
    assert d + days * DayMicros == (q + days) * DayMicros + r;
  }

  /** `get_datasets` asks for the list again when it never has, or when
      the seconds part of the time since the last fetch exceeds the maximum
      age. */
  predicate NeedsRefresh(fetchedAt: Option<int>, now: int, maxCacheAge: int)
  {
    fetchedAt.None? || ElapsedSeconds(fetchedAt.value, now) > maxCacheAge
  }

  /** A list fetched a whole number of days ago counts as just fetched. */
  lemma RefreshSkipsWholeDays(fetchedAt: int, days: nat, maxCacheAge: int)
    requires maxCacheAge >= 0
    ensures !NeedsRefresh(Some(fetchedAt), fetchedAt + days * DayMicros, maxCacheAge)
  {
    ElapsedSecondsSpec(fetchedAt, fetchedAt, days);
  }

  /** A maximum age of a day or more never expires the list. */
  lemma RefreshNeverAfterFirst(fetchedAt: int, now: int, maxCacheAge: int)
    requires maxCacheAge >= 86_399
    ensures !NeedsRefresh(Some(fetchedAt), now, maxCacheAge)
  {
    ElapsedSecondsSpec(fetchedAt, now, 0);
  }

  // ---------------------------------------------------------------------
  // The paging loop
  // ---------------------------------------------------------------------

  /** The search results at offset `k * limit`; past the last page the
      search returns nothing. */
  function PageAt(pages: seq<seq<Item>>, k: int): seq<Item>
  {
    if 0 <= k < |pages| then pages[k] else []
  }

  /** The items of the first `n` pages, in order. */
  function Fetched(pages: seq<seq<Item>>, n: nat): seq<Item>
  {
    if n == 0 then [] else Fetched(pages, n - 1) + PageAt(pages, n - 1)
  }

  /** The items whose flag is set, in order. */
  function Select(items: seq<Item>, passed: seq<bool>): (r: seq<Item>)
    requires |passed| == |items|
    ensures |r| <= |items|
  {
    if items == [] then []
    else
      var n := |items| - 1;
      Select(items[..n], passed[..n]) + (if passed[n] then [items[n]] else [])
  }

  /** The number of flags set. */
  function Count(passed: seq<bool>): nat
  {
    if passed == [] then 0 else Count(passed[..|passed| - 1]) + (if passed[|passed| - 1] then 1 else 0)
  }

  /** Every position of `kept` is a flagged position. */
  predicate Flagged(passed: seq<bool>, kept: seq<nat>)
  {
    forall j :: 0 <= j < |kept| ==> kept[j] < |passed| && passed[kept[j]]
  }

  predicate Increasing(kept: seq<nat>)
  {
    forall j, l :: 0 <= j < l < |kept| ==> kept[j] < kept[l]
  }

  /** `kept` picks, in increasing order, flagged positions, as many as there
      are flags: that is, exactly the flagged positions. */
  predicate KeptPositions(passed: seq<bool>, kept: seq<nat>)
  {
    Flagged(passed, kept) && Increasing(kept) && |kept| == Count(passed)
  }

  /** The flagged positions, in order. */
  function KeptOf(passed: seq<bool>): seq<nat>
  {
    if passed == [] then []
    else
      var n := |passed| - 1;
      KeptOf(passed[..n]) + (if passed[n] then [n] else [])
  }

  /** The selection is an order-preserving subsequence: the items at the
      flagged positions, and only those. */
  lemma {:induction false} SelectSubsequence(items: seq<Item>, passed: seq<bool>)
    requires |passed| == |items|
    ensures KeptPositions(passed, KeptOf(passed))
    ensures |KeptOf(passed)| == |Select(items, passed)|
    ensures forall j :: 0 <= j < |KeptOf(passed)| ==> Select(items, passed)[j] == items[KeptOf(passed)[j]]
  {
    if items != [] {
      var n := |items| - 1;
      var init, pinit := items[..n], passed[..n];
      SelectSubsequence(init, pinit);
      KeptStep(passed);
      var kept, kept' := KeptOf(pinit), KeptOf(passed);
      var sel, sel' := Select(init, pinit), Select(items, passed);
      assert |kept'| == |sel'|;
      forall j | 0 <= j < |kept'| ensures sel'[j] == items[kept'[j]] {
        if j < |kept| {
          assert sel'[j] == sel[j] && kept'[j] == kept[j];
          assert init[kept[j]] == items[kept[j]];
        }
      }
    }
  }

  lemma FlaggedGrow(passed: seq<bool>, kept: seq<nat>, kept': seq<nat>)
    requires passed != [] && Flagged(passed[..|passed| - 1], kept)
    requires kept' == kept + (if passed[|passed| - 1] then [|passed| - 1] else [])
    ensures Flagged(passed, kept')
  {
    var n := |passed| - 1;
    forall j | 0 <= j < |kept'| ensures kept'[j] < |passed| && passed[kept'[j]] {
      if j < |kept| {
        assert kept'[j] == kept[j] && passed[..n][kept[j]] == passed[kept[j]];
      }
    }
  }

  lemma IncreasingGrow(passed: seq<bool>, kept: seq<nat>, kept': seq<nat>)
    requires passed != [] && Flagged(passed[..|passed| - 1], kept) && Increasing(kept)
    requires kept' == kept + (if passed[|passed| - 1] then [|passed| - 1] else [])
    ensures Increasing(kept')
  {
    forall j, l | 0 <= j < l < |kept'| ensures kept'[j] < kept'[l] {
      assert kept'[j] == kept[j];
      if l < |kept| {
        assert kept'[l] == kept[l];
      }
    }
  }

  /** One more flag keeps the kept positions of the shorter list valid. */
  lemma KeptStep(passed: seq<bool>)
    requires passed != [] && KeptPositions(passed[..|passed| - 1], KeptOf(passed[..|passed| - 1]))
    ensures KeptPositions(passed, KeptOf(passed))
  {
    var n := |passed| - 1;
    FlaggedGrow(passed, KeptOf(passed[..n]), KeptOf(passed));
    IncreasingGrow(passed, KeptOf(passed[..n]), KeptOf(passed));
  }

  /** A positive factor keeps a product at least as far from zero as the
      factor's own step. */
  lemma {:induction false} MulSign(limit: int, d: int)
    requires limit > 0
    ensures d >= 1 ==> limit * d >= limit
    ensures d <= -1 ==> limit * d <= -limit
    ensures d == 0 ==> limit * d == 0
    decreases if d < 0 then -d else d
  {
    if d > 1 {
      MulSign(limit, d - 1);
      assert limit * d == limit * (d - 1) + limit;
    } else if d < -1 {
      MulSign(limit, d + 1);
      assert limit * d == limit * (d + 1) - limit;
    }
  }

  /** The offset of the `n`-th query leads back to page `n`, and the next
      offset is that of page `n + 1`. */
  lemma {:induction false} OffsetPage(n: nat, limit: int)
    requires limit > 0
    ensures (n * limit) / limit == n && n * limit + limit == (n + 1) * limit
  {
    var q, r := (n * limit) / limit, (n * limit) % limit;
    assert n * limit == limit * q + r && 0 <= r < limit;
    MulSign(limit, n - q);
    assert limit * (n - q) == n * limit - limit * q;
  }

  /** Every one of the first `n` pages is full. */
  ghost predicate FullPages(pages: seq<seq<Item>>, limit: int, n: int)
  {
    forall k :: 0 <= k < n ==> |PageAt(pages, k)| >= limit
  }

  /** What the paging loop has established after `n` queries. */
  ghost predicate Progress(pages: seq<seq<Item>>, limit: int, n: nat, processed: seq<Item>,
                           found: seq<Option<Place>>, passed: seq<bool>, states: seq<CacheState>,
                           env: LookupEnv, valid: seq<Item>)
  {
    && n <= |pages| && FullPages(pages, limit, n)
    && processed == Fetched(pages, n)
    && Judged(processed, found, passed, states, env) && valid == Select(processed, passed)
  }

  /** The outcome of a search over records after `n` queries: the hidden
      gems among the records examined, in order and at most
      `expected`; the records examined are those of the first `n - 1` pages,
      all full, and a prefix of page `n`; the search stops early only on a
      hidden gem that completes the count, and otherwise only after a whole
      short page. */
  ghost predicate SearchResult(pages: seq<seq<Item>>, limit: int, expected: int, n: nat,
                               processed: seq<Item>, found: seq<Option<Place>>, passed: seq<bool>,
                               states: seq<CacheState>, env: LookupEnv, result: seq<Item>)
  {
    && Judged(processed, found, passed, states, env)
    && result == Select(processed, passed)
    && (|result| <= expected || expected <= 0)
    && processed <= Fetched(pages, n)
    && (n > 0 ==> Fetched(pages, n - 1) <= processed)
    && FullPages(pages, limit, n - 1)
    && (0 < |result| == expected ==> processed != [] && passed[|passed| - 1])
    && (|result| < expected ==> n > 0 && processed == Fetched(pages, n) && |PageAt(pages, n - 1)| < limit)
  }

  /** What the search loop has established after `n` queries, the last
      at `offset`: an event search stops at its first query, the search
      goes on only while hidden gems are missing, and the lookups so far
      took the cache from state `first` to state `last`. */
  ghost predicate SearchLoop(pages: seq<seq<Item>>, limit: int, expected: int, events: bool, offset: int, n: nat,
                             processed: seq<Item>, found: seq<Option<Place>>, passed: seq<bool>,
                             states: seq<CacheState>, env: LookupEnv, valid: seq<Item>,
                             first: CacheState, last: CacheState)
  {
    && Anchored(states, first, last)
    && offset == n * limit
    && (n > 0 ==> !events && |valid| < expected)
    && (n == 0 ==> valid == [] && processed == [])
    && Progress(pages, limit, n, processed, found, passed, states, env, valid)
  }

  /** The record loop over page `n` either completes the count, ends on a
      short page, or moves the search on to page `n + 1`. */
  lemma SearchStep(pages: seq<seq<Item>>, limit: int, expected: int, n: nat, full: bool, taken: nat, env: LookupEnv,
                   processed: seq<Item>, found: seq<Option<Place>>, passed: seq<bool>, states: seq<CacheState>,
                   valid: seq<Item>,
                   processed': seq<Item>, found': seq<Option<Place>>, passed': seq<bool>, states': seq<CacheState>,
                   valid': seq<Item>)
    requires limit > 0 && Progress(pages, limit, n, processed, found, passed, states, env, valid)
    requires PageOutcome(PageAt(pages, n), expected, processed, full, taken,
                         processed', found', passed', states', env, valid')
    ensures full || |PageAt(pages, n)| < limit ==>
      SearchResult(pages, limit, expected, n + 1, processed', found', passed', states', env, valid')
    ensures !full && |PageAt(pages, n)| >= limit ==>
      |valid'| < expected && Progress(pages, limit, n + 1, processed', found', passed', states', env, valid')
  {
    PageTaken(pages, n, taken);
  }

  /** The record loop over `page` failed: the records examined are `done`
      and the first `taken` of the page, judged in turn while the count was
      still incomplete, and the lookup of the next record, in the state they
      left, failed with `error` and left the cache in state `last`. */
  ghost predicate PageFailure(page: seq<Item>, expected: int, done: seq<Item>, taken: nat,
                              processed: seq<Item>, found: seq<Option<Place>>, passed: seq<bool>,
                              states: seq<CacheState>, env: LookupEnv, error: Error, last: CacheState)
  {
    && taken < |page| && processed == done + page[..taken]
    && Judged(processed, found, passed, states, env) && |Select(processed, passed)| < expected
    && LookupOf(states[|states| - 1], page[taken], env) == Err(error)
    && last == StateAfter(states[|states| - 1], page[taken], env)
  }

  /** A search over records failed after `n` queries: the records examined
      are those of the first `n - 1` pages, all full, and a prefix of page
      `n`, judged in turn from state `first` while the count was still
      incomplete; the lookup of the next record failed with `error` and
      left the cache in state `last`. */
  ghost predicate SearchFailure(pages: seq<seq<Item>>, limit: int, expected: int, n: nat,
                                processed: seq<Item>, found: seq<Option<Place>>, passed: seq<bool>,
                                states: seq<CacheState>, env: LookupEnv, error: Error,
                                first: CacheState, last: CacheState)
  {
    && n > 0 && FullPages(pages, limit, n - 1)
    && Fetched(pages, n - 1) <= processed && |processed| < |Fetched(pages, n)| && processed <= Fetched(pages, n)
    && Judged(processed, found, passed, states, env) && states[0] == first
    && |Select(processed, passed)| < expected
    && LookupOf(states[|states| - 1], Fetched(pages, n)[|processed|], env) == Err(error)
    && last == StateAfter(states[|states| - 1], Fetched(pages, n)[|processed|], env)
  }

  /** The outcome of a search over records after `n` queries, whose
      lookups took the cache from state `first` to state `last`: the hidden
      gems found, or the failure of a lookup. */
  ghost predicate Searched(pages: seq<seq<Item>>, limit: int, expected: int, n: nat,
                           processed: seq<Item>, found: seq<Option<Place>>, passed: seq<bool>,
                           states: seq<CacheState>, env: LookupEnv, r: Result<seq<Item>>,
                           first: CacheState, last: CacheState)
  {
    match r
    case Ok(result) =>
      SearchResult(pages, limit, expected, n, processed, found, passed, states, env, result)
      && Anchored(states, first, last)
    case Err(error) =>
      SearchFailure(pages, limit, expected, n, processed, found, passed, states, env, error, first, last)
  }

  /** A record loop that fails on page `n` fails the search there. */
  lemma SearchFail(pages: seq<seq<Item>>, limit: int, expected: int, n: nat, taken: nat, env: LookupEnv,
                   processed: seq<Item>, found: seq<Option<Place>>, passed: seq<bool>, states: seq<CacheState>,
                   valid: seq<Item>,
                   processed': seq<Item>, found': seq<Option<Place>>, passed': seq<bool>, states': seq<CacheState>,
                   error: Error, first: CacheState, last: CacheState)
    requires Progress(pages, limit, n, processed, found, passed, states, env, valid)
    requires PageFailure(PageAt(pages, n), expected, processed, taken, processed', found', passed', states',
                         env, error, last)
    requires states'[0] == first
    ensures SearchFailure(pages, limit, expected, n + 1, processed', found', passed', states', env, error, first, last)
    ensures Searched(pages, limit, expected, n + 1, processed', found', passed', states', env, Err(error), first, last)
  {
    var page := PageAt(pages, n);
    PageTaken(pages, n, taken);
    assert Fetched(pages, n + 1) == processed + page;
    assert Fetched(pages, n + 1)[|processed'|] == page[taken];
  }

  /** Nothing to search for: no query at all. */
  lemma StopEmpty(pages: seq<seq<Item>>, limit: int, expected: int, start: CacheState, env: LookupEnv)
    requires expected <= 0
    ensures SearchResult(pages, limit, expected, 0, [], [], [], [start], env, [])
  {
  }

  /** What the record loop has established after the first `i` records of
      `page`, which extend the records `done` of the pages before it. */
  ghost predicate PageLoop(page: seq<Item>, expected: int, done: seq<Item>, i: nat,
                           processed: seq<Item>, found: seq<Option<Place>>, passed: seq<bool>,
                           states: seq<CacheState>, env: LookupEnv, valid: seq<Item>)
  {
    && i <= |page| && processed == done + page[..i]
    && Judged(processed, found, passed, states, env) && valid == Select(processed, passed)
    && |valid| < expected
  }

  /** The outcome of the record loop over `page`: the records examined are
      `done` and the first `taken` of the page, and the hidden gems among
      them are `valid`; it stops early (`full`) only on the hidden gem that
      completes the count, and otherwise after the whole page. */
  ghost predicate PageOutcome(page: seq<Item>, expected: int, done: seq<Item>, full: bool, taken: nat,
                              processed: seq<Item>, found: seq<Option<Place>>, passed: seq<bool>,
                              states: seq<CacheState>, env: LookupEnv, valid: seq<Item>)
  {
    && taken <= |page| && processed == done + page[..taken]
    && Judged(processed, found, passed, states, env) && valid == Select(processed, passed)
    && (full ==> |valid| == expected && taken > 0 && passed[|passed| - 1])
    && (!full ==> taken == |page| && |valid| < expected)
  }

  lemma PageLoopStart(page: seq<Item>, expected: int, done: seq<Item>, found: seq<Option<Place>>,
                      passed: seq<bool>, states: seq<CacheState>, env: LookupEnv, valid: seq<Item>)
    requires Judged(done, found, passed, states, env) && valid == Select(done, passed) && |valid| < expected
    ensures PageLoop(page, expected, done, 0, done, found, passed, states, env, valid)
  {
    assert done + page[..0] == done;
  }

  /** One more record, looked up in the state the previous lookups left:
      its verdict either completes the count or the loop goes on. */
  lemma PageLoopStep(page: seq<Item>, expected: int, done: seq<Item>, i: nat,
                     processed: seq<Item>, found: seq<Option<Place>>, passed: seq<bool>,
                     states: seq<CacheState>, env: LookupEnv, valid: seq<Item>,
                     place: Option<Place>, b: bool, st': CacheState)
    requires PageLoop(page, expected, done, i, processed, found, passed, states, env, valid)
    requires i < |page| && LookedUp(states[|states| - 1], page[i], env, place, b, st')
    ensures var valid' := valid + (if b then [page[i]] else []);
      && (|valid'| >= expected ==>
            PageOutcome(page, expected, done, true, i + 1, processed + [page[i]], found + [place],
                        passed + [b], states + [st'], env, valid'))
      && (|valid'| < expected ==>
            PageLoop(page, expected, done, i + 1, processed + [page[i]], found + [place],
                     passed + [b], states + [st'], env, valid'))
  {
    JudgedStep(processed, found, passed, states, env, page[i], place, b, st');
    TakeStep(done, page, i);
  }

  /** A record whose lookup fails, in the state the records before it
      left, ends the loop with that failure. */
  lemma PageLoopFail(page: seq<Item>, expected: int, done: seq<Item>, i: nat,
                     processed: seq<Item>, found: seq<Option<Place>>, passed: seq<bool>,
                     states: seq<CacheState>, env: LookupEnv, valid: seq<Item>, error: Error, last: CacheState)
    requires PageLoop(page, expected, done, i, processed, found, passed, states, env, valid)
    requires i < |page| && LookupOf(states[|states| - 1], page[i], env) == Err(error)
    requires last == StateAfter(states[|states| - 1], page[i], env)
    ensures PageFailure(page, expected, done, i, processed, found, passed, states, env, error, last)
  {
  }

  lemma PageLoopEnd(page: seq<Item>, expected: int, done: seq<Item>, processed: seq<Item>,
                    found: seq<Option<Place>>, passed: seq<bool>, states: seq<CacheState>, env: LookupEnv,
                    valid: seq<Item>)
    requires PageLoop(page, expected, done, |page|, processed, found, passed, states, env, valid)
    ensures PageOutcome(page, expected, done, false, |page|, processed, found, passed, states, env, valid)
  {
  }

  /** Part of the next page extends the records of the pages before it,
      within the records of the pages up to it. */
  lemma PageTaken(pages: seq<seq<Item>>, n: nat, taken: nat)
    requires taken <= |PageAt(pages, n)|
    ensures Fetched(pages, n) <= Fetched(pages, n) + PageAt(pages, n)[..taken] <= Fetched(pages, n + 1)
    ensures taken == |PageAt(pages, n)| ==> Fetched(pages, n) + PageAt(pages, n)[..taken] == Fetched(pages, n + 1)
  {
    assert PageAt(pages, n)[..|PageAt(pages, n)|] == PageAt(pages, n);
  }

  /** The lookups recorded in `states` started in state `first` and left
      the cache in state `last`. */
  predicate Anchored(states: seq<CacheState>, first: CacheState, last: CacheState)
  {
    |states| > 0 && states[0] == first && states[|states| - 1] == last
  }

  /** The lookup of `item` in cache state `st` succeeded, found `place`,
      gave the verdict `b` and left the cache in state `st'`. */
  predicate LookedUp(st: CacheState, item: Item, env: LookupEnv, place: Option<Place>, b: bool, st': CacheState)
  {
    && LookupOf(st, item, env) == Ok(place)
    && st' == StateAfter(st, item, env)
    && b == RatingPasses(item.location, place)
  }

  /** Each of `processed` relates, by `rel`, the state before it, itself,
      its lookup result, its verdict and the state after it. */
  ghost predicate Chained(processed: seq<Item>, found: seq<Option<Place>>, passed: seq<bool>,
                          states: seq<CacheState>, rel: (CacheState, Item, Option<Place>, bool, CacheState) -> bool)
  {
    && |found| == |processed| == |passed| && |states| == |processed| + 1
    && forall i {:trigger rel(states[i], processed[i], found[i], passed[i], states[i + 1])} ::
         0 <= i < |processed| ==> rel(states[i], processed[i], found[i], passed[i], states[i + 1])
  }

  /** A record related to the last state extends the chain. */
  lemma ChainedStep(processed: seq<Item>, found: seq<Option<Place>>, passed: seq<bool>, states: seq<CacheState>,
                    rel: (CacheState, Item, Option<Place>, bool, CacheState) -> bool,
                    item: Item, place: Option<Place>, b: bool, st': CacheState)
    requires Chained(processed, found, passed, states, rel) && rel(states[|states| - 1], item, place, b, st')
    ensures Chained(processed + [item], found + [place], passed + [b], states + [st'], rel)
  {
    var n := |processed|;
    var ps, fs, bs, ss := processed + [item], found + [place], passed + [b], states + [st'];
    forall i | 0 <= i <= n ensures rel(ss[i], ps[i], fs[i], bs[i], ss[i + 1]) {
      if i < n {
        assert ss[i] == states[i] && ss[i + 1] == states[i + 1];
        assert ps[i] == processed[i] && fs[i] == found[i] && bs[i] == passed[i];
      }
    }
  }

  /** Every examined record was looked up in the cache state the lookups
      before it left, starting from `states[0]`, and carries the verdict on
      the place that lookup found. */
  ghost predicate Judged(processed: seq<Item>, found: seq<Option<Place>>, passed: seq<bool>,
                         states: seq<CacheState>, env: LookupEnv)
  {
    && |found| == |processed| == |passed| && |states| == |processed| + 1
    && forall i {:trigger LookedUp(states[i], processed[i], env, found[i], passed[i], states[i + 1])} ::
         0 <= i < |processed| ==> LookedUp(states[i], processed[i], env, found[i], passed[i], states[i + 1])
  }

  lemma JudgedStep(processed: seq<Item>, found: seq<Option<Place>>, passed: seq<bool>,
                   states: seq<CacheState>, env: LookupEnv,
                   item: Item, place: Option<Place>, b: bool, st': CacheState)
    requires Judged(processed, found, passed, states, env)
    requires LookedUp(states[|states| - 1], item, env, place, b, st')
    ensures Judged(processed + [item], found + [place], passed + [b], states + [st'], env)
    ensures Select(processed + [item], passed + [b]) == Select(processed, passed) + (if b then [item] else [])
  {
    SelectAppend(processed, passed, item, b);
    var rel := (st, item, place, b, st') => LookedUp(st, item, env, place, b, st');
    assert Chained(processed, found, passed, states, rel);
    ChainedStep(processed, found, passed, states, rel, item, place, b, st');
  }

  lemma SelectAppend(items: seq<Item>, passed: seq<bool>, x: Item, b: bool)
    requires |passed| == |items|
    ensures Select(items + [x], passed + [b]) == Select(items, passed) + (if b then [x] else [])
  {
    assert (items + [x])[..|items|] == items;
    assert (passed + [b])[..|passed|] == passed;
  }

  lemma TakeStep(done: seq<Item>, page: seq<Item>, i: nat)
    requires i < |page|
    ensures done + page[..i + 1] == done + page[..i] + [page[i]]
  {
    assert page[..i + 1] == page[..i] + [page[i]];
  }

  class TIHAPI {
    /** `_places`. */
    const places: GooglePlacesLookup
    /** `_datasets_cache` and `_datasets_cache_time` (a clock reading in
        microseconds). */
    var datasetsCache: seq<string>
    var datasetsCacheTime: Option<int>
    /** `_max_cache_age`, in seconds. */
    const maxCacheAge: int

    constructor (places: GooglePlacesLookup, maxCacheAge: int)
      ensures this.places == places && this.maxCacheAge == maxCacheAge
      ensures datasetsCache == [] && datasetsCacheTime == None
    {
      this.places := places;
      this.maxCacheAge := maxCacheAge;
      datasetsCache := [];
      datasetsCacheTime := None;
    }

    /** The lookup environment of this object's places lookup. */
    function Env(provider: (string, Coord) -> PlacesResponse, now: string): LookupEnv
    {
      LookupEnv(places.cache.near, places.ratio, places.hasClient, provider, now)
    }

    /** The current state of the places cache. */
    ghost function State(): CacheState
      reads places.cache
    {
      CacheState(places.cache.cache, places.cache.cacheRequests)
    }

    /** `get_datasets`: `fetched` is what the dataset-list request returns
        when it is made; `now` is the clock reading. */
    method GetDatasets(now: int, fetched: seq<string>) returns (datasets: seq<string>)
      modifies this`datasetsCache, this`datasetsCacheTime
      ensures NeedsRefresh(old(datasetsCacheTime), now, maxCacheAge) ==>
        datasetsCache == fetched && datasetsCacheTime == Some(now)
      ensures !NeedsRefresh(old(datasetsCacheTime), now, maxCacheAge) ==>
        datasetsCache == old(datasetsCache) && datasetsCacheTime == old(datasetsCacheTime)
      ensures datasets == datasetsCache
    {
      if datasetsCacheTime.None? || ElapsedSeconds(datasetsCacheTime.value, now) > maxCacheAge {
        datasetsCache := fetched;
        datasetsCacheTime := Some(now);
      }
      return datasetsCache;
    }

    /** `_is_matching_google_rating_filter` with the default thresholds:
        a record at (0, 0) fails without a lookup; otherwise the place
        `find_place` returns (`response` is what the provider would answer)
        must be a hidden gem. `found` is that place. */
    method IsMatchingRatingFilter(name: string, block: string, streetName: string, location: Coord,
                                  response: PlacesResponse, now: string)
      returns (r: Result<bool>, found: Option<Place>)
      requires places.loaded && places.cache.Valid()
      modifies places.cache
      ensures places.cache.Valid()
      ensures location == Origin ==>
        && r == Ok(false) && found == None
        && unchanged(places.cache)
      ensures location != Origin ==> places.cache.cacheRequests == old(places.cache.cacheRequests) + {location}
      ensures location != Origin ==>
        var st := CacheState(old(places.cache.cache), old(places.cache.cacheRequests));
        var t := Target(name, block, streetName);
        var lookup := Resolve(st, places.cache.near, places.ratio, places.hasClient, t, location, response, now);
        && (lookup.Err? ==> r == Err(lookup.error))
        && (lookup.Ok? ==> r.Ok? && found == lookup.value)
        && places.cache.cache == ResolvedStore(st, places.cache.near, places.ratio, places.hasClient, t, location,
                                               response, now)
      ensures r.Ok? ==> r.value == RatingPasses(location, found)
    {
      if location.lat == 0.0 && location.lng == 0.0 {
        return Ok(false), None;
      }
      var googlePlaceResult := places.FindPlace(Target(name, block, streetName), location, response, now);
      if googlePlaceResult.Err? {
        return Err(googlePlaceResult.error), None;
      }
      found := googlePlaceResult.value;
      if found.Some? {
        var ratingCount := found.value.userRatingsTotal;
        var rating := found.value.rating;
        var operational := found.value.businessStatus == "OPERATIONAL";
        return Ok((operational && ratingCount < MaxRatingCount && rating >= MinimumRating) || ratingCount <= 0), found;
      }
      return Ok(false), found;
    }

    /** One record of the `for item in api_response` loop: its address
        fallback and its rating verdict. `found` is the place the lookup
        returned. */
    method ProcessItem(item: Item, provider: (string, Coord) -> PlacesResponse, now: string)
      returns (r: Result<bool>, found: Option<Place>)
      requires places.loaded && places.cache.Valid()
      modifies places.cache
      ensures places.cache.Valid()
      ensures AddressData(item.address).Err? ==> r == Err(AddressData(item.address).error)
      ensures var lookup := LookupOf(old(State()), item, Env(provider, now));
        && (lookup.Err? ==> r == Err(lookup.error))
        && (lookup.Ok? ==> r.Ok? && LookedUp(old(State()), item, Env(provider, now), found, r.value, State()))
      ensures State() == StateAfter(old(State()), item, Env(provider, now))
    {
      var address := AddressData(item.address);
      if address.Err? {
        return Err(address.error), None;
      }
      var (block, street) := address.value;
      r, found := IsMatchingRatingFilter(item.name, block, street, item.location,
                                         provider(item.name, item.location), now);
    }

    /** The `for item in api_response` loop of
        `multiple_datasets_by_keywords`: looks each record up in turn and
        keeps the hidden gems, stopping (`full`) as soon as `expected` are
        kept. `processed`, `found` and `passed` extend the records examined
        so far, their lookup results and verdicts. */
    method ProcessPage(apiResponse: seq<Item>, expected: int, provider: (string, Coord) -> PlacesResponse,
                       now: string, validIn: seq<Item>, ghost processedIn: seq<Item>,
                       ghost foundIn: seq<Option<Place>>, ghost passedIn: seq<bool>,
                       ghost statesIn: seq<CacheState>)
      returns (r: Result<seq<Item>>, full: bool, ghost taken: nat, ghost processed: seq<Item>,
               ghost found: seq<Option<Place>>, ghost passed: seq<bool>, ghost states: seq<CacheState>)
      requires places.loaded && places.cache.Valid()
      requires Judged(processedIn, foundIn, passedIn, statesIn, Env(provider, now))
      requires statesIn[|statesIn| - 1] == State() && validIn == Select(processedIn, passedIn)
      requires |validIn| < expected
      modifies places.cache
      ensures places.cache.Valid()
      ensures r.Ok? ==>
        && PageOutcome(apiResponse, expected, processedIn, full, taken, processed, found, passed, states,
                       Env(provider, now), r.value)
        && Anchored(states, statesIn[0], State())
      ensures r.Err? ==>
        && PageFailure(apiResponse, expected, processedIn, taken, processed, found, passed, states,
                       Env(provider, now), r.error, State())
        && states[0] == statesIn[0]
    {
      ghost var env := Env(provider, now);
      var validResponses := validIn;
      processed, found, passed, states := processedIn, foundIn, passedIn, statesIn;
      var i: nat := 0;
      PageLoopStart(apiResponse, expected, processedIn, found, passed, states, env, validResponses);
      while i < |apiResponse|
        invariant PageLoop(apiResponse, expected, processedIn, i, processed, found, passed, states, env, validResponses)
        invariant Anchored(states, statesIn[0], State())
        invariant places.cache.Valid()
      {
        var item := apiResponse[i];
        var matching, place := ProcessItem(item, provider, now);
        if matching.Err? {
          PageLoopFail(apiResponse, expected, processedIn, i, processed, found, passed, states, env, validResponses,
                       matching.error, State());
          return Err(matching.error), false, i, processed, found, passed, states;
        }
        PageLoopStep(apiResponse, expected, processedIn, i, processed, found, passed, states, env, validResponses,
                     place, matching.value, State());
        processed, found, passed, states := processed + [item], found + [place], passed + [matching.value],
                                            states + [State()];
        if matching.value {
          validResponses := validResponses + [item];
          if |validResponses| >= expected {
            return Ok(validResponses), true, i + 1, processed, found, passed, states;
          }
        }
        i := i + 1;
      }
      PageLoopEnd(apiResponse, expected, processedIn, processed, found, passed, states, env, validResponses);
      return Ok(validResponses), false, i, processed, found, passed, states;
    }

    /** The part of the search loop after the request: the record loop over
        page `n`, then the short-page check. `stop` says the search ends
        here with `r`: a failed lookup, a completed count or a short page. */
    method SearchPage(apiResponse: seq<Item>, expected: int, limit: int,
                      provider: (string, Coord) -> PlacesResponse, now: string, validIn: seq<Item>,
                      ghost processedIn: seq<Item>, ghost foundIn: seq<Option<Place>>, ghost passedIn: seq<bool>,
                      ghost statesIn: seq<CacheState>, ghost pages: seq<seq<Item>>, ghost n: nat,
                      ghost first: CacheState)
      returns (r: Result<seq<Item>>, stop: bool, ghost processed: seq<Item>, ghost found: seq<Option<Place>>,
               ghost passed: seq<bool>, ghost states: seq<CacheState>)
      requires places.loaded && places.cache.Valid()
      requires limit > 0 && apiResponse == PageAt(pages, n) && |validIn| < expected
      requires Progress(pages, limit, n, processedIn, foundIn, passedIn, statesIn, Env(provider, now), validIn)
      requires Anchored(statesIn, first, State())
      modifies places.cache
      ensures places.cache.Valid()
      ensures stop ==>
        Searched(pages, limit, expected, n + 1, processed, found, passed, states, Env(provider, now), r, first, State())
      ensures !stop ==>
        && r.Ok? && |r.value| < expected
        && Progress(pages, limit, n + 1, processed, found, passed, states, Env(provider, now), r.value)
        && Anchored(states, first, State())
    {
      ghost var env := Env(provider, now);
      var full;
      ghost var taken;
      r, full, taken, processed, found, passed, states :=
        ProcessPage(apiResponse, expected, provider, now, validIn, processedIn, foundIn, passedIn, statesIn);
      if r.Err? {
        SearchFail(pages, limit, expected, n, taken, env, processedIn, foundIn, passedIn, statesIn, validIn,
                   processed, found, passed, states, r.error, first, State());
        return r, true, processed, found, passed, states;
      }
      SearchStep(pages, limit, expected, n, full, taken, env,
                 processedIn, foundIn, passedIn, statesIn, validIn, processed, found, passed, states, r.value);
      // Both the count completed inside the page and a short page end the search.
      stop := full || |apiResponse| < limit;
    }

    /** `multiple_datasets_by_keywords`. `pages[k]` is what the search
        returns at offset `k * limit`, `provider(name, location)` what the
        places provider answers for a record, `today` the date the query
        carries. The ghost outputs are the queries sent, the records
        examined and the lookup result of each. */
    method MultipleDatasetsByKeywords(datasets: seq<string>, keywords: seq<string>, limit: int,
                                      hasStartDate: bool, hasEndDate: bool, expectedResultCount: int,
                                      pages: seq<seq<Item>>, provider: (string, Coord) -> PlacesResponse,
                                      now: string, today: string)
      returns (r: Result<seq<Item>>, ghost requests: seq<Query>, ghost processed: seq<Item>,
               ghost found: seq<Option<Place>>, ghost passed: seq<bool>, ghost states: seq<CacheState>)
      requires limit > 0
      requires places.loaded && places.cache.Valid()
      modifies places.cache
      ensures places.cache.Valid()
      ensures requests == Queries(datasets, keywords, limit, hasStartDate, hasEndDate, today, |requests|)
      ensures expectedResultCount <= 0 ==> r == Ok([]) && requests == []
      ensures "events" in datasets ==>
        && r == Ok(if expectedResultCount > 0 then PageAt(pages, 0) else [])
        && processed == []
        && unchanged(places.cache)
      ensures "events" !in datasets ==>
        Searched(pages, limit, expectedResultCount, |requests|, processed, found, passed, states,
                 Env(provider, now), r, old(State()), State())
    {
      ghost var env := Env(provider, now);
      var validResponses: seq<Item> := [];
      requests, processed, found, passed, states := [], [], [], [], [State()];
      var offset := 0;
      while |validResponses| < expectedResultCount
        invariant && requests == Queries(datasets, keywords, limit, hasStartDate, hasEndDate, today, |requests|)
                  && SearchLoop(pages, limit, expectedResultCount, "events" in datasets, offset, |requests|,
                                processed, found, passed, states, env, validResponses, old(State()), State())
        invariant requests == [] ==> unchanged(places.cache)
        invariant places.cache.Valid()
        decreases |pages| - |requests|
      {
        var query := BuildQuery(datasets, keywords, limit, offset, hasStartDate, hasEndDate, today);
        var page := offset / limit;
        OffsetPage(|requests|, limit);
        var apiResponse := PageAt(pages, page);
        QueriesNext(datasets, keywords, limit, hasStartDate, hasEndDate, today, page);
        requests := requests + [query];
        if "events" in datasets {
          return Ok(apiResponse), requests, processed, found, passed, states;
        }
        offset := offset + limit;
        var stop;
        r, stop, processed, found, passed, states :=
          SearchPage(apiResponse, expectedResultCount, limit, provider, now, validResponses,
                     processed, found, passed, states, pages, page, old(State()));
        if stop {
          return;
        }
        validResponses := r.value;
      }
      StopEmpty(pages, limit, expectedResultCount, states[0], env);
      assert states == [states[0]];
      return Ok(validResponses), requests, processed, found, passed, states;
    }
  }
}
