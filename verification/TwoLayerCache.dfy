/**
 Two caches on top of each other: the pre-warmed table of `alt_data_cache.py`, which stamps an expiry on each row, and
 the older table of `alternative_data.py` below it, which judges a row's age when it is read. Together they are a
 bounded-stale view of the sources.
 */
module TwoLayerCache {
  import opened Money
  import opened Sums

  type Payload = map<string, string>

  datatype OuterRow = OuterRow(payload: Payload, stamp: real, expires: real)

  /** A payload of None is a stored `null`. */
  datatype InnerRow = InnerRow(payload: Option<Payload>, stamp: real)

  /** A fetch from the source itself: when it returned and what. */
  datatype Fetch = Fetch(source: string, symbol: string, at: real, payload: Option<Payload>)

  datatype State = State(outer: map<(string, string), OuterRow>, inner: map<(string, string), InnerRow>,
                         log: seq<Fetch>)

  datatype Live = Returned(payload: Option<Payload>) | Raised

  /** One call for a source and a symbol: what a live fetch would give, what the clock says, and what works. */
  datatype Call = Call(
    source: string, symbol: string, enabled: bool, safe: bool, live: Live,
    readAt: real, innerAt: real, fetchedAt: real, stampAt: real, writeAt: real,
    outerReads: bool, outerWrites: bool, innerReads: bool, innerWrites: bool)

  datatype Answer = Answer(payload: Option<Payload>, cached: bool) | Exception

  // ----- lifetimes, in seconds -----

  const DAY := 86400.0
  const NEGATIVE_CACHE_TTL_SECONDS := 3600.0

  predicate Weekly(source: string) {
    source in ["fundamentals", "institutional_13f", "risk_factor_diff", "bls_jobless_claims", "uspto_patents",
               "insider_track_records", "star_manager_holdings"]
  }

  predicate Daily(source: string) {
    source in ["insider", "insider_cluster", "insider_earnings", "short", "finra_short_vol", "dark_pool",
               "analyst_estimates", "earnings_surprise", "congressional_recent", "activist_13dg", "biotech_milestones",
               "fda_inspections", "nhtsa_recalls", "sam_gov_contracts", "epa_osha_violations", "google_trends",
               "wikipedia_pageviews", "wikipedia_edits", "app_store_ranking", "github_activity", "job_postings"]
  }

  /** `SOURCE_TTL_SECONDS.get(source)` */
  function SourceTtl(source: string): (ttl: Option<real>)
    ensures ttl.Some? ==> 0.0 < ttl.value <= 7.0 * DAY
  {
    if Weekly(source) then Some(7.0 * DAY)
    else if Daily(source) then Some(DAY)
    else if source == "stocktwits_sentiment" then Some(1800.0)
    else if source == "options" then Some(300.0)
    else None
  }

  /** The lifetime in the inner table for the sources that have one. */
  function InnerTtl(source: string): (ttl: Option<real>)
    ensures ttl.Some? ==> 0.0 < ttl.value <= 7.0 * DAY
  {
    if source == "dark_pool" then Some(7.0 * DAY)
    else if source in ["insider", "fundamentals", "finra_short_vol", "insider_cluster", "analyst_estimates",
                       "earnings_surprise", "google_trends", "wikipedia_pageviews", "app_store_ranking"] then Some(DAY)
    else if source in ["congressional_recent", "institutional_13f", "biotech_milestones", "stocktwits_sentiment"] then
      Some(21600.0)
    else if source == "short" then Some(3600.0)
    else if source == "options" then Some(1800.0)
    else None
  }

  // ----- keys -----

  function UpperChar(c: char): char {
    if 'a' <= c <= 'z' then c - 'a' + 'A' else c
  }

  function Upper(s: string): string {
    if s == "" then "" else [UpperChar(s[0])] + Upper(s[1..])
  }

  lemma {:induction false} UpperTwice(s: string)
    ensures Upper(Upper(s)) == Upper(s)
  {
    if s != "" {
      UpperTwice(s[1..]);
      assert Upper(s)[1..] == Upper(s[1..]);
    }
  }

  function OuterKey(source: string, symbol: string): (string, string) {
    (Upper(symbol), source)
  }

  /** The inner key names the source and the symbol as it was asked for, in capitals for three of the sources. */
  function InnerKey(source: string, symbol: string): (string, string) {
    if source in ["google_trends", "wikipedia_pageviews", "app_store_ranking"] then (Upper(symbol), source)
    else (symbol, source)
  }

  lemma InnerKeyWithinOuter(source: string, symbol: string, other: string, other': string)
    requires InnerKey(source, symbol) == InnerKey(other, other')
    ensures OuterKey(source, symbol) == OuterKey(other, other')
  {
    UpperTwice(symbol);
    UpperTwice(other');
  }

  // ----- one table at a time -----

  /** `cache_get` */
  function OuterGet(outer: map<(string, string), OuterRow>, source: string, symbol: string, now: real, works: bool)
    : Option<Payload>
  {
    var k := OuterKey(source, symbol);
    if symbol == "" || source == "" || !works || k !in outer || now >= outer[k].expires then None
    else Some(outer[k].payload)
  }

  /** How long `cache_set` keeps a payload; None when it is not to be cached. */
  function Life(source: string, payload: Payload): (ttl: Option<real>)
    ensures ttl.Some? <==> SourceTtl(source).Some?
    ensures ttl.Some? ==> 0.0 < ttl.value <= SourceTtl(source).value
    ensures ttl.Some? && payload == map[] ==> ttl.value <= NEGATIVE_CACHE_TTL_SECONDS
  {
    match SourceTtl(source)
    case None => None
    case Some(ttl) =>
      if payload == map[] && NEGATIVE_CACHE_TTL_SECONDS < ttl then Some(NEGATIVE_CACHE_TTL_SECONDS) else Some(ttl)
  }

  predicate Cacheable(source: string, symbol: string, payload: Payload, works: bool) {
    symbol != "" && source != "" && Life(source, payload).Some? && works
  }

  /** `cache_set` */
  function OuterSet(outer: map<(string, string), OuterRow>, source: string, symbol: string, payload: Payload, now: real,
                    works: bool): map<(string, string), OuterRow>
  {
    if Cacheable(source, symbol, payload, works) then
      outer[OuterKey(source, symbol) := OuterRow(payload, now, now + Life(source, payload).value)]
    else outer
  }

  /** `evict_stale` */
  function Evicted(outer: map<(string, string), OuterRow>, now: real): map<(string, string), OuterRow> {
    map k | k in outer && !(outer[k].expires < now) :: outer[k]
  }

  /** `_get_cached` */
  function InnerGet(inner: map<(string, string), InnerRow>, source: string, symbol: string, now: real, works: bool)
    : Option<Payload>
  {
    var k := InnerKey(source, symbol);
    if InnerTtl(source).Some? && works && k in inner && now - inner[k].stamp < InnerTtl(source).value
    then inner[k].payload else None
  }

  /** `_set_cached` */
  function InnerSet(inner: map<(string, string), InnerRow>, source: string, symbol: string, payload: Option<Payload>,
                    now: real, works: bool): map<(string, string), InnerRow>
  {
    if InnerTtl(source).None? || payload == Some(map[]) || !works then inner
    else inner[InnerKey(source, symbol) := InnerRow(payload, now)]
  }

  // ----- the two together -----

  /** A source's getter: its inner row if that is young enough, otherwise a live fetch that is then stored. */
  function Getter(s: State, c: Call): (State, Live) {
    var hit := InnerGet(s.inner, c.source, c.symbol, c.innerAt, c.innerReads);
    if hit.Some? then (s, Returned(hit))
    else if c.live.Raised? then (s, Raised)
    else (Stored(s, c), c.live)
  }

  function Stored(s: State, c: Call): State
    requires c.live.Returned?
  {
    s.(inner := InnerSet(s.inner, c.source, c.symbol, c.live.payload, c.stampAt, c.innerWrites),
       log := s.log + [Fetch(c.source, c.symbol, c.fetchedAt, c.live.payload)])
  }

  /** The getter as the bundle calls it: for some sources an exception becomes an empty result. */
  function Guarded(s: State, c: Call): (State, Live) {
    var (t, r) := Getter(s, c);
    if r.Raised? && c.safe then
      (t.(log := t.log + [Fetch(c.source, c.symbol, c.fetchedAt, Some(map[]))]), Returned(Some(map[])))
    else (t, r)
  }

  /** `cache_or_fetch` behind the kill switch */
  function Ask(s: State, c: Call): (State, Answer) {
    var hit := OuterGet(s.outer, c.source, c.symbol, c.readAt, c.outerReads);
    if c.enabled && hit.Some? then (s, Answer(hit, true))
    else
      var (t, r) := Guarded(s, c);
      match r
      case Raised => (t, Exception)
      case Returned(None) => (t, Answer(None, false))
      case Returned(Some(p)) =>
        (if c.enabled then t.(outer := OuterSet(t.outer, c.source, c.symbol, p, c.writeAt, c.outerWrites)) else t,
         Answer(Some(p), false))
  }

  lemma KeptAreFewer(outer: map<(string, string), OuterRow>, now: real)
    ensures |Evicted(outer, now)| <= |outer|
  {
    SubsetSize(Evicted(outer, now).Keys, outer.Keys);
    assert |Evicted(outer, now).Keys| == |Evicted(outer, now)|;
  }

  class Bundle {
    var outer: map<(string, string), OuterRow>
    var inner: map<(string, string), InnerRow>
    ghost var log: seq<Fetch>

    ghost function View(): State
      reads this
    {
      State(outer, inner, log)
    }

    /** `cache_get` */
    method CacheGet(source: string, symbol: string, now: real, works: bool) returns (r: Option<Payload>)
      ensures r == OuterGet(outer, source, symbol, now, works)
    {
      if symbol == "" || source == "" || !works {
        return None;
      }
      var k := (Upper(symbol), source);
      if k !in outer {
        return None;
      }
      if now >= outer[k].expires {
        return None;
      }
      return Some(outer[k].payload);
    }

    /** `cache_set` */
    method CacheSet(source: string, symbol: string, payload: Payload, now: real, works: bool) returns (stored: bool)
      modifies this
      ensures View() == old(View()).(outer := OuterSet(old(outer), source, symbol, payload, now, works))
      ensures stored <==> Cacheable(source, symbol, payload, works)
    {
      if symbol == "" || source == "" {
        return false;
      }
      var ttl := SourceTtl(source);
      if ttl.None? {
        return false;
      }
      var seconds := ttl.value;
      if |payload| == 0 {
        seconds := if seconds < NEGATIVE_CACHE_TTL_SECONDS then seconds else NEGATIVE_CACHE_TTL_SECONDS;
      }
      if !works {
        return false;
      }
      outer := outer[(Upper(symbol), source) := OuterRow(payload, now, now + seconds)];
      return true;
    }

    /** `evict_stale` */
    method EvictStale(now: real, works: bool) returns (removed: nat)
      modifies this
      ensures View() == if works then old(View()).(outer := Evicted(old(outer), now)) else old(View())
      ensures removed == |old(outer)| - |outer|
    {
      removed := 0;
      if works {
        var kept := map k | k in outer && !(outer[k].expires < now) :: outer[k];
        KeptAreFewer(outer, now);
        removed := |outer| - |kept|;
        outer := kept;
      }
    }

    /** `_get_cached` */
    method GetCached(source: string, symbol: string, now: real, works: bool) returns (r: Option<Payload>)
      ensures r == InnerGet(inner, source, symbol, now, works)
    {
      r := None;
      var ttl := InnerTtl(source);
      var k := InnerKey(source, symbol);
      if ttl.Some? && works && k in inner && now - inner[k].stamp < ttl.value {
        r := inner[k].payload;
      }
    }

    /** `_set_cached` */
    method SetCached(source: string, symbol: string, payload: Option<Payload>, now: real, works: bool)
      modifies this
      ensures View() == old(View()).(inner := InnerSet(old(inner), source, symbol, payload, now, works))
    {
      if payload.Some? && |payload.value| == 0 {
        return;
      }
      if works && InnerTtl(source).Some? {
        inner := inner[InnerKey(source, symbol) := InnerRow(payload, now)];
      }
    }

    /** A source's getter inside its wrapper. */
    method FetchSource(c: Call) returns (r: Live)
      modifies this
      ensures (View(), r) == Guarded(old(View()), c)
    {
      var hit := GetCached(c.source, c.symbol, c.innerAt, c.innerReads);
      if hit.Some? {
        return Returned(hit);
      }
      if c.live.Raised? {
        if c.safe {
          log := log + [Fetch(c.source, c.symbol, c.fetchedAt, Some(map[]))];
          return Returned(Some(map[]));
        }
        return Raised;
      }
      log := log + [Fetch(c.source, c.symbol, c.fetchedAt, c.live.payload)];
      SetCached(c.source, c.symbol, c.live.payload, c.stampAt, c.innerWrites);
      return c.live;
    }

    /** `_cached` and `_cached_safe` around `cache_or_fetch` */
    method CacheOrFetch(c: Call) returns (a: Answer)
      modifies this
      ensures (View(), a) == Ask(old(View()), c)
    {
      if c.enabled {
        var cached := CacheGet(c.source, c.symbol, c.readAt, c.outerReads);
        if cached.Some? {
          return Answer(cached, true);
        }
      }
      var r := FetchSource(c);
      if r.Raised? {
        return Exception;
      }
      if c.enabled && r.payload.Some? {
        var stored := CacheSet(c.source, c.symbol, r.payload.value, c.writeAt, c.outerWrites);
      }
      return Answer(r.payload, false);
    }
  }

  // ----- bounded staleness -----

  /** The clock moves forward during a call, which takes at most `slack` seconds. */
  predicate Timely(c: Call, slack: real) {
    c.readAt <= c.innerAt <= c.fetchedAt <= c.stampAt <= c.writeAt <= c.readAt + slack
  }

  function Or0(ttl: Option<real>): real {
    match ttl case None => 0.0 case Some(t) => t
  }

  /** How old a payload may get: for an empty one an hour, otherwise both lifetimes, plus the time calls take. */
  function Horizon(source: string, payload: Payload, slack: real): real {
    if payload == map[] then NEGATIVE_CACHE_TTL_SECONDS + slack
    else Or0(SourceTtl(source)) + Or0(InnerTtl(source)) + 2.0 * slack
  }

  /** The log has a live fetch of this payload, for this source and symbol in any capitals, at or after an instant. */
  ghost predicate Fetched(log: seq<Fetch>, k: (string, string), payload: Payload, since: real) {
    exists i :: 0 <= i < |log| && OuterKey(log[i].source, log[i].symbol) == k && log[i].payload == Some(payload)
             && log[i].at >= since
  }

  ghost predicate FetchedInner(log: seq<Fetch>, k: (string, string), payload: Payload, since: real) {
    exists i :: 0 <= i < |log| && InnerKey(log[i].source, log[i].symbol) == k && log[i].payload == Some(payload)
             && log[i].at >= since
  }

  /** A live fetch gave the payload just before the stamp. */
  ghost predicate InnerRowSound(log: seq<Fetch>, k: (string, string), row: InnerRow, slack: real) {
    row.payload.Some? ==>
      row.payload.value != map[] && FetchedInner(log, k, row.payload.value, row.stamp - slack)
  }

  /** A live fetch gave the payload not too long before the expiry. */
  ghost predicate OuterRowSound(log: seq<Fetch>, k: (string, string), row: OuterRow, slack: real) {
    Fetched(log, k, row.payload, row.expires - Horizon(k.1, row.payload, slack))
  }

  ghost predicate Sound(s: State, slack: real) {
    && (forall k :: k in s.inner ==> InnerRowSound(s.log, k, s.inner[k], slack))
    && (forall k :: k in s.outer ==> OuterRowSound(s.log, k, s.outer[k], slack))
  }

  lemma FetchedStays(log: seq<Fetch>, more: seq<Fetch>, k: (string, string), payload: Payload, since: real)
    ensures Fetched(log, k, payload, since) ==> Fetched(log + more, k, payload, since)
    ensures FetchedInner(log, k, payload, since) ==> FetchedInner(log + more, k, payload, since)
  {
    forall i | 0 <= i < |log| ensures (log + more)[i] == log[i] {
    }
    if Fetched(log, k, payload, since) {
      var i :| 0 <= i < |log| && OuterKey(log[i].source, log[i].symbol) == k && log[i].payload == Some(payload)
             && log[i].at >= since;
      assert (log + more)[i] == log[i];
    }
    if FetchedInner(log, k, payload, since) {
      var i :| 0 <= i < |log| && InnerKey(log[i].source, log[i].symbol) == k && log[i].payload == Some(payload)
             && log[i].at >= since;
      assert (log + more)[i] == log[i];
    }
  }

  lemma InnerIsOuter(log: seq<Fetch>, source: string, symbol: string, payload: Payload, since: real)
    requires FetchedInner(log, InnerKey(source, symbol), payload, since)
    ensures Fetched(log, OuterKey(source, symbol), payload, since)
  {
    var i :| 0 <= i < |log| && InnerKey(log[i].source, log[i].symbol) == InnerKey(source, symbol)
           && log[i].payload == Some(payload) && log[i].at >= since;
    InnerKeyWithinOuter(log[i].source, log[i].symbol, source, symbol);
  }

  lemma FetchedEarlier(log: seq<Fetch>, k: (string, string), payload: Payload, since: real, earlier: real)
    requires Fetched(log, k, payload, since) && earlier <= since
    ensures Fetched(log, k, payload, earlier)
  {
    var i :| 0 <= i < |log| && OuterKey(log[i].source, log[i].symbol) == k && log[i].payload == Some(payload)
           && log[i].at >= since;
    assert log[i].at >= earlier;
  }

  lemma RowsStaySound(log: seq<Fetch>, f: Fetch, k: (string, string), slack: real)
    ensures forall row: InnerRow :: InnerRowSound(log, k, row, slack) ==> InnerRowSound(log + [f], k, row, slack)
    ensures forall row: OuterRow :: OuterRowSound(log, k, row, slack) ==> OuterRowSound(log + [f], k, row, slack)
  {
    forall row: InnerRow | InnerRowSound(log, k, row, slack) ensures InnerRowSound(log + [f], k, row, slack) {
      if row.payload.Some? {
        FetchedStays(log, [f], k, row.payload.value, row.stamp - slack);
      }
    }
    forall row: OuterRow | OuterRowSound(log, k, row, slack) ensures OuterRowSound(log + [f], k, row, slack) {
      FetchedStays(log, [f], k, row.payload, row.expires - Horizon(k.1, row.payload, slack));
    }
  }

  /** A new entry in the log keeps the tables sound. */
  lemma LogKeepsSound(s: State, f: Fetch, slack: real)
    requires Sound(s, slack)
    ensures Sound(s.(log := s.log + [f]), slack)
  {
    forall k ensures k in s.inner ==> InnerRowSound(s.log + [f], k, s.inner[k], slack) {
      RowsStaySound(s.log, f, k, slack);
    }
    forall k ensures k in s.outer ==> OuterRowSound(s.log + [f], k, s.outer[k], slack) {
      RowsStaySound(s.log, f, k, slack);
    }
  }

  lemma JustFetched(log: seq<Fetch>, f: Fetch, payload: Payload)
    requires f.payload == Some(payload)
    ensures Fetched(log + [f], OuterKey(f.source, f.symbol), payload, f.at)
    ensures FetchedInner(log + [f], InnerKey(f.source, f.symbol), payload, f.at)
  {
    assert (log + [f])[|log|] == f;
  }

  /** How far back a getter may reach: for an empty result not before this very call. */
  function Reach(c: Call, payload: Payload, slack: real): real {
    if payload == map[] then c.fetchedAt else c.innerAt - Or0(InnerTtl(c.source)) - slack
  }

  lemma InnerHitReaches(s: State, c: Call, slack: real)
    requires Sound(s, slack) && Timely(c, slack)
    ensures var hit := InnerGet(s.inner, c.source, c.symbol, c.innerAt, c.innerReads);
            hit.Some? ==>
              hit.value != map[] && Fetched(s.log, OuterKey(c.source, c.symbol), hit.value, Reach(c, hit.value, slack))
  {
    var hit := InnerGet(s.inner, c.source, c.symbol, c.innerAt, c.innerReads);
    if hit.Some? {
      var row := s.inner[InnerKey(c.source, c.symbol)];
      InnerIsOuter(s.log, c.source, c.symbol, hit.value, row.stamp - slack);
      FetchedEarlier(s.log, OuterKey(c.source, c.symbol), hit.value, row.stamp - slack, Reach(c, hit.value, slack));
    }
  }

  lemma StoreKeepsSound(s: State, c: Call, slack: real)
    requires Sound(s, slack) && Timely(c, slack) && c.live.Returned?
    ensures Sound(Stored(s, c), slack)
  {
    var f := Fetch(c.source, c.symbol, c.fetchedAt, c.live.payload);
    LogKeepsSound(s, f, slack);
    if c.live.payload.Some? {
      NewInnerRow(s.log, f, c.live.payload.value, c.stampAt, slack);
    }
  }

  lemma NewInnerRow(log: seq<Fetch>, f: Fetch, payload: Payload, stamp: real, slack: real)
    requires f.payload == Some(payload) && stamp <= f.at + slack
    ensures payload != map[] ==>
              InnerRowSound(log + [f], InnerKey(f.source, f.symbol), InnerRow(Some(payload), stamp), slack)
  {
    JustFetched(log, f, payload);
    var i := |log|;
    assert (log + [f])[i] == f && f.at >= stamp - slack;
  }

  lemma GuardedKeepsSound(s: State, c: Call, slack: real)
    requires Sound(s, slack) && Timely(c, slack)
    ensures var (t, r) := Guarded(s, c);
            && Sound(t, slack) && t.outer == s.outer
            && (r.Returned? && r.payload.Some? ==>
                  Fetched(t.log, OuterKey(c.source, c.symbol), r.payload.value, Reach(c, r.payload.value, slack)))
  {
    var (t, r) := Guarded(s, c);
    InnerHitReaches(s, c, slack);
    if InnerGet(s.inner, c.source, c.symbol, c.innerAt, c.innerReads).None? {
      if c.live.Returned? {
        StoreKeepsSound(s, c, slack);
        if c.live.payload.Some? {
          var p := c.live.payload.value;
          JustFetched(s.log, Fetch(c.source, c.symbol, c.fetchedAt, c.live.payload), p);
          FetchedEarlier(t.log, OuterKey(c.source, c.symbol), p, c.fetchedAt, Reach(c, p, slack));
        }
      } else {
        var f := Fetch(c.source, c.symbol, c.fetchedAt, Some(map[]));
        LogKeepsSound(s, f, slack);
        JustFetched(s.log, f, map[]);
      }
    }
  }

  lemma OuterSetKeepsSound(s: State, c: Call, payload: Payload, slack: real)
    requires Sound(s, slack) && Timely(c, slack)
    requires Fetched(s.log, OuterKey(c.source, c.symbol), payload, Reach(c, payload, slack))
    ensures Sound(s.(outer := OuterSet(s.outer, c.source, c.symbol, payload, c.writeAt, c.outerWrites)), slack)
  {
    if Cacheable(c.source, c.symbol, payload, c.outerWrites) {
      NewOuterRow(s.log, c, payload, slack);
    }
  }

  lemma NewOuterRow(log: seq<Fetch>, c: Call, payload: Payload, slack: real)
    requires Timely(c, slack) && Life(c.source, payload).Some?
    requires Fetched(log, OuterKey(c.source, c.symbol), payload, Reach(c, payload, slack))
    ensures var row := OuterRow(payload, c.writeAt, c.writeAt + Life(c.source, payload).value);
            OuterRowSound(log, OuterKey(c.source, c.symbol), row, slack)
  {
    var expires := c.writeAt + Life(c.source, payload).value;
    FetchedEarlier(log, OuterKey(c.source, c.symbol), payload, Reach(c, payload, slack),
                   expires - Horizon(c.source, payload, slack));
  }

  /** Every source with an inner table is in the outer one. */
  lemma LayeredIsCached(source: string)
    ensures InnerTtl(source).Some? ==> SourceTtl(source).Some?
  {
  }

  /** From a live fetch during the call, or one not too long before it. */
  ghost predicate Recent(log: seq<Fetch>, c: Call, payload: Payload, slack: real) {
    exists i :: 0 <= i < |log| && OuterKey(log[i].source, log[i].symbol) == OuterKey(c.source, c.symbol)
             && log[i].payload == Some(payload)
             && (log[i].at >= c.readAt || c.readAt - log[i].at < Horizon(c.source, payload, slack))
  }

  lemma FetchedIsRecent(log: seq<Fetch>, c: Call, payload: Payload, since: real, slack: real)
    requires Fetched(log, OuterKey(c.source, c.symbol), payload, since)
    requires since >= c.readAt || c.readAt - since < Horizon(c.source, payload, slack)
    ensures Recent(log, c, payload, slack)
  {
    var i :| 0 <= i < |log| && OuterKey(log[i].source, log[i].symbol) == OuterKey(c.source, c.symbol)
           && log[i].payload == Some(payload) && log[i].at >= since;
  }

  /**
   The payload of an answer came from a live fetch for this source and symbol: during this call, or less than the outer
   and the inner lifetime before it (an hour for an empty one), up to the time that calls take.
   */
  lemma AnswerIsRecent(s: State, c: Call, slack: real)
    requires Sound(s, slack) && Timely(c, slack)
    ensures var (t, a) := Ask(s, c);
            Sound(t, slack) && (a.Answer? && a.payload.Some? ==> Recent(t.log, c, a.payload.value, slack))
  {
    var hit := OuterGet(s.outer, c.source, c.symbol, c.readAt, c.outerReads);
    if c.enabled && hit.Some? {
      var row := s.outer[OuterKey(c.source, c.symbol)];
      FetchedIsRecent(s.log, c, hit.value, row.expires - Horizon(c.source, hit.value, slack), slack);
    } else {
      GuardedKeepsSound(s, c, slack);
      var (t, r) := Guarded(s, c);
      if r.Returned? && r.payload.Some? {
        OuterSetKeepsSound(t, c, r.payload.value, slack);
        LayeredIsCached(c.source);
        FetchedIsRecent(t.log, c, r.payload.value, Reach(c, r.payload.value, slack), slack);
      }
    }
  }

  // ----- whole runs -----

  datatype Op = Get(call: Call) | Evict(now: real, works: bool)

  function Start(): State {
    State(map[], map[], [])
  }

  function After(ops: seq<Op>): State {
    if ops == [] then Start()
    else
      var s := After(ops[..|ops| - 1]);
      match ops[|ops| - 1]
      case Get(c) => Ask(s, c).0
      case Evict(now, works) => if works then s.(outer := Evicted(s.outer, now)) else s
  }

  function Answers(ops: seq<Op>): seq<Answer> {
    if ops == [] then []
    else
      var init := ops[..|ops| - 1];
      match ops[|ops| - 1]
      case Get(c) => Answers(init) + [Ask(After(init), c).1]
      case Evict(_, _) => Answers(init)
  }

  ghost predicate AllTimely(ops: seq<Op>, slack: real) {
    forall i :: 0 <= i < |ops| && ops[i].Get? ==> Timely(ops[i].call, slack)
  }

  lemma {:induction false} RunIsSound(ops: seq<Op>, slack: real)
    requires AllTimely(ops, slack)
    ensures Sound(After(ops), slack)
  {
    if ops != [] {
      RunIsSound(ops[..|ops| - 1], slack);
      if ops[|ops| - 1].Get? {
        AnswerIsRecent(After(ops[..|ops| - 1]), ops[|ops| - 1].call, slack);
      }
    }
  }

  /** At any point of any run, with any failures, evictions and clock jumps between calls, an answer is recent. */
  lemma CacheIsBoundedStale(ops: seq<Op>, c: Call, slack: real)
    requires AllTimely(ops, slack) && Timely(c, slack)
    ensures var a := Answers(ops + [Get(c)])[|Answers(ops + [Get(c)])| - 1];
            a.Answer? && a.payload.Some? ==> Recent(After(ops + [Get(c)]).log, c, a.payload.value, slack)
  {
    assert (ops + [Get(c)])[..|ops|] == ops;
    RunIsSound(ops, slack);
    AnswerIsRecent(After(ops), c, slack);
  }

  // ----- eviction changes nothing -----

  function Gets(ops: seq<Op>): seq<Op> {
    if ops == [] then []
    else
      var init := Gets(ops[..|ops| - 1]);
      if ops[|ops| - 1].Get? then init + [ops[|ops| - 1]] else init
  }

  function Begin(op: Op): real {
    match op case Get(c) => c.readAt case Evict(now, _) => now
  }

  function Finish(op: Op): real {
    match op case Get(c) => c.writeAt case Evict(now, _) => now
  }

  /** One operation after the other, on a clock that does not go back. */
  ghost predicate Sequential(ops: seq<Op>) {
    && (forall i :: 0 <= i < |ops| ==> Begin(ops[i]) <= Finish(ops[i]))
    && (forall i, j :: 0 <= i < j < |ops| ==> Finish(ops[i]) <= Begin(ops[j]))
  }

  /** The same state but for rows that have expired. */
  ghost predicate Thinner(a: State, b: State, now: real) {
    && a.inner == b.inner && a.log == b.log
    && (forall k :: k in a.outer ==> k in b.outer && a.outer[k] == b.outer[k])
    && (forall k :: k in b.outer && k !in a.outer ==> b.outer[k].expires <= now)
  }

  lemma ThinnerGets(a: State, b: State, c: Call, now: real)
    requires Thinner(a, b, now) && now <= c.readAt
    ensures OuterGet(a.outer, c.source, c.symbol, c.readAt, c.outerReads)
         == OuterGet(b.outer, c.source, c.symbol, c.readAt, c.outerReads)
  {
  }

  /** The getters do not look at the outer table. */
  lemma GuardedIgnoresOuter(a: State, b: State, c: Call)
    requires a.inner == b.inner && a.log == b.log
    ensures Guarded(b, c) == (Guarded(a, c).0.(outer := b.outer), Guarded(a, c).1)
    ensures Guarded(a, c).0.outer == a.outer
  {
  }

  lemma ThinnerSets(a: State, b: State, source: string, symbol: string, payload: Payload, at: real, works: bool,
                    now: real)
    requires Thinner(a, b, now)
    ensures Thinner(a.(outer := OuterSet(a.outer, source, symbol, payload, at, works)),
                    b.(outer := OuterSet(b.outer, source, symbol, payload, at, works)), now)
  {
  }

  lemma ThinnerAsks(a: State, b: State, c: Call, now: real)
    requires Thinner(a, b, now) && now <= c.readAt
    ensures Ask(a, c).1 == Ask(b, c).1 && Thinner(Ask(a, c).0, Ask(b, c).0, now)
  {
    ThinnerGets(a, b, c, now);
    GuardedIgnoresOuter(a, b, c);
    var (t, r) := Guarded(a, c);
    if r.Returned? && r.payload.Some? {
      ThinnerSets(t, t.(outer := b.outer), c.source, c.symbol, r.payload.value, c.writeAt, c.outerWrites, now);
    }
  }

  /** Dropping every eviction from a run changes no answer, no inner row and no fetch. */
  lemma {:induction false} EvictionIsInvisible(ops: seq<Op>, now: real)
    requires Sequential(ops) && forall i :: 0 <= i < |ops| ==> Finish(ops[i]) <= now
    ensures Answers(ops) == Answers(Gets(ops)) && Thinner(After(ops), After(Gets(ops)), now)
  {
    if ops != [] {
      var init, last := ops[..|ops| - 1], ops[|ops| - 1];
      EvictionIsInvisible(init, Begin(last));
      if last.Get? {
        assert Gets(ops)[..|Gets(init)|] == Gets(init);
        ThinnerAsks(After(init), After(Gets(init)), last.call, Begin(last));
      }
    }
  }

  // ----- a row serves until it expires -----

  /** The clock reading at which an operation looks at the outer table. */
  predicate Serves(op: Op, k: (string, string), expires: real) {
    match op
    case Get(c) => OuterKey(c.source, c.symbol) == k ==> c.enabled && c.outerReads && c.readAt < expires
    case Evict(now, _) => now <= expires
  }

  /** A stored payload answers every call for its source and symbol until it expires, without another fetch. */
  lemma {:induction false} RowServes(ops: seq<Op>, n: nat, k: (string, string))
    requires n <= |ops| && k in After(ops[..n]).outer && k.0 != "" && k.1 != ""
    requires forall i :: n <= i < |ops| ==> Serves(ops[i], k, After(ops[..n]).outer[k].expires)
    ensures k in After(ops).outer && After(ops).outer[k] == After(ops[..n]).outer[k]
    ensures n < |ops| && ops[|ops| - 1].Get?
            && OuterKey(ops[|ops| - 1].call.source, ops[|ops| - 1].call.symbol) == k ==>
              && Ask(After(ops[..|ops| - 1]), ops[|ops| - 1].call).1
                 == Answer(Some(After(ops[..n]).outer[k].payload), true)
              && After(ops).log == After(ops[..|ops| - 1]).log
    decreases |ops|
  {
    if n < |ops| {
      var init := ops[..|ops| - 1];
      assert init[..n] == ops[..n];
      RowServes(init, n, k);
      var s, row := After(init), After(ops[..n]).outer[k];
      match ops[|ops| - 1]
      case Get(c) =>
        assert Serves(ops[|ops| - 1], k, row.expires);
        AskKeeps(s, c, k);
      case Evict(now, works) =>
        assert Serves(ops[|ops| - 1], k, row.expires);
    } else {
      assert ops[..n] == ops;
    }
  }

  /** A call serves its own live row and leaves the others alone. */
  lemma AskKeeps(s: State, c: Call, k: (string, string))
    requires k in s.outer && k.0 != "" && k.1 != "" && Serves(Get(c), k, s.outer[k].expires)
    ensures k in Ask(s, c).0.outer && Ask(s, c).0.outer[k] == s.outer[k]
    ensures OuterKey(c.source, c.symbol) == k ==> Ask(s, c) == (s, Answer(Some(s.outer[k].payload), true))
  {
    var (t, r) := Guarded(s, c);
    assert t.outer == s.outer;
  }

  // ----- one call, end to end -----

  /** The outer table has a row for the call, not yet expired, and may be read. */
  ghost predicate Fresh(s: State, c: Call) {
    && c.enabled && c.outerReads && c.symbol != "" && c.source != ""
    && var k := (Upper(c.symbol), c.source); k in s.outer && c.readAt < s.outer[k].expires
  }

  /** The source's own row is young enough, holds a payload, and may be read. */
  ghost predicate InnerFresh(s: State, c: Call) {
    && c.innerReads && InnerTtl(c.source).Some?
    && var k := InnerKey(c.source, c.symbol);
       k in s.inner && s.inner[k].payload.Some? && c.innerAt < s.inner[k].stamp + InnerTtl(c.source).value
  }

  /** A call is answered from the outer table exactly when that has a live row for it, and then nothing else happens. */
  lemma CachedIff(s: State, c: Call)
    ensures if Fresh(s, c)
            then Ask(s, c) == (s, Answer(Some(s.outer[(Upper(c.symbol), c.source)].payload), true))
            else Ask(s, c).1.Answer? ==> !Ask(s, c).1.cached
  {
  }

  /** How long the outer table keeps a payload: its source's lifetime, at most an hour when it is empty. */
  ghost predicate Keeps(source: string, payload: Payload, life: real) {
    && SourceTtl(source).Some?
    && life == if payload == map[] && SourceTtl(source).value > 3600.0 then 3600.0 else SourceTtl(source).value
  }

  lemma OuterMiss(s: State, c: Call)
    ensures c.enabled && OuterGet(s.outer, c.source, c.symbol, c.readAt, c.outerReads).Some? <==> Fresh(s, c)
  {
  }

  /** What a call makes of its getter's result. */
  ghost function Past(t: State, r: Live, c: Call): (State, Answer) {
    if r.Raised? then (t, Exception)
    else (if c.enabled && r.payload.Some?
          then t.(outer := OuterSet(t.outer, c.source, c.symbol, r.payload.value, c.writeAt, c.outerWrites)) else t,
          Answer(r.payload, false))
  }

  /** Past the outer table a call is its source's getter, and what that hands out is stored. */
  lemma MissIs(s: State, c: Call)
    requires !Fresh(s, c)
    ensures Ask(s, c) == Past(Guarded(s, c).0, Guarded(s, c).1, c)
  {
    OuterMiss(s, c);
    MissedIs(s, c, Guarded(s, c).0, Guarded(s, c).1);
  }

  lemma MissedIs(s: State, c: Call, t: State, r: Live)
    requires Guarded(s, c) == (t, r)
    requires !(c.enabled && OuterGet(s.outer, c.source, c.symbol, c.readAt, c.outerReads).Some?)
    ensures Ask(s, c) == Past(t, r, c)
  {
  }

  lemma GuardedKeepsOuter(s: State, c: Call)
    ensures Guarded(s, c).0.outer == s.outer
  {
  }

  /** The source's own young row comes first, and no fetch is made. */
  lemma InnerRowAnswers(s: State, c: Call)
    requires !Fresh(s, c) && InnerFresh(s, c)
    ensures Ask(s, c).1 == Answer(s.inner[InnerKey(c.source, c.symbol)].payload, false)
    ensures Ask(s, c).0.inner == s.inner && Ask(s, c).0.log == s.log
  {
    MissIs(s, c);
  }

  lemma InnerMiss(s: State, c: Call)
    ensures InnerGet(s.inner, c.source, c.symbol, c.innerAt, c.innerReads).Some? <==> InnerFresh(s, c)
  {
  }

  /** Otherwise a live result is handed out as it is, logged, and kept by its source unless it is empty. */
  lemma LiveResultAnswers(s: State, c: Call)
    requires !Fresh(s, c) && !InnerFresh(s, c) && c.live.Returned?
    ensures Ask(s, c).1 == Answer(c.live.payload, false)
    ensures Ask(s, c).0.log == s.log + [Fetch(c.source, c.symbol, c.fetchedAt, c.live.payload)]
    ensures Ask(s, c).0.inner
         == if c.innerWrites && InnerTtl(c.source).Some? && c.live.payload != Some(map[])
            then s.inner[InnerKey(c.source, c.symbol) := InnerRow(c.live.payload, c.stampAt)] else s.inner
  {
    InnerMiss(s, c);
    MissIs(s, c);
  }

  /** A source that fails hands out an empty result where the bundle guards it, and an exception where it does not. */
  lemma FailureAnswers(s: State, c: Call)
    requires !Fresh(s, c) && !InnerFresh(s, c) && c.live.Raised?
    ensures Ask(s, c).1 == (if c.safe then Answer(Some(map[]), false) else Exception)
    ensures Ask(s, c).0.inner == s.inner && (!c.safe ==> Ask(s, c).0 == s)
  {
    InnerMiss(s, c);
    MissIs(s, c);
  }

  lemma LifeKeeps(source: string, payload: Payload, life: real)
    requires Keeps(source, payload, life)
    ensures Life(source, payload) == Some(life)
  {
  }

  /** A payload handed out past the outer table is stored there, for its lifetime from the end of the call. */
  lemma HandedOutIsStored(s: State, c: Call, life: real)
    requires !Fresh(s, c) && Ask(s, c).1.Answer? && Ask(s, c).1.payload.Some?
    requires c.enabled && c.outerWrites && c.symbol != "" && c.source != ""
    requires Keeps(c.source, Ask(s, c).1.payload.value, life)
    ensures Ask(s, c).0.outer
         == s.outer[(Upper(c.symbol), c.source)
                    := OuterRow(Ask(s, c).1.payload.value, c.writeAt, c.writeAt + life)]
  {
    MissIs(s, c);
    GuardedKeepsOuter(s, c);
    LifeKeeps(c.source, Ask(s, c).1.payload.value, life);
  }

  /** Nothing else changes the outer table: no failure, no `null`, no unknown source, no switched-off call. */
  lemma NothingIsStored(s: State, c: Call)
    requires !Fresh(s, c)
    requires || !c.enabled || !c.outerWrites || c.symbol == "" || c.source == "" || SourceTtl(c.source).None?
             || Ask(s, c).1.Exception? || Ask(s, c).1.payload.None?
    ensures Ask(s, c).0.outer == s.outer
  {
    MissIs(s, c);
    GuardedKeepsOuter(s, c);
  }

  /** So the next call for the source and symbol, in any capitals, within that lifetime gets it without a fetch. */
  lemma FetchServesNext(s: State, c: Call, d: Call, life: real)
    requires !Fresh(s, c) && Ask(s, c).1.Answer? && Ask(s, c).1.payload.Some?
    requires c.enabled && c.outerWrites && c.symbol != "" && c.source != ""
    requires Keeps(c.source, Ask(s, c).1.payload.value, life)
    requires d.enabled && d.outerReads && d.source == c.source && d.symbol != "" && Upper(d.symbol) == Upper(c.symbol)
    requires d.readAt < c.writeAt + life
    ensures Ask(Ask(s, c).0, d) == (Ask(s, c).0, Answer(Ask(s, c).1.payload, true))
  {
    HandedOutIsStored(s, c, life);
    CachedIff(Ask(s, c).0, d);
  }
}
