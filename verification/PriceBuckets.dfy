/**
 * Price lookups in 15-minute buckets: src/App/Services/PriceService/FinnhubApiService.ts. Dates are milliseconds
 * since the epoch; minutes and seconds are read and set in a local time that is `zone` minutes ahead of UTC.
 */
module PriceBuckets {
  import opened Options

  const RESOLUTION_MINUTES := 15
  const MS_PER_MINUTE := 60000
  const BUCKET_MS := 900000
  const CACHE_DURATION_S := 43200

  function Local(ms: int, zone: int): int { ms + zone * MS_PER_MINUTE }

  /** truncateNumberBy: Math.floor and Euclidean division agree for a positive factor. */
  function TruncateNumberBy(n: int, factor: int): int
    requires factor > 0
  {
    n / factor * factor
  }

  /** A JavaScript Date: its setters change it in place. */
  class Date {
    var ms: int

    constructor (ms: int)
      ensures this.ms == ms
    {
      this.ms := ms;
    }

    method SetSeconds(seconds: int, zone: int)
      modifies this
      ensures ms == old(ms) + (seconds - Local(old(ms), zone) / 1000 % 60) * 1000
    {
      ms := ms + (seconds - Local(ms, zone) / 1000 % 60) * 1000;
    }

    method SetMilliseconds(millis: int, zone: int)
      modifies this
      ensures ms == old(ms) + (millis - Local(old(ms), zone) % 1000)
    {
      ms := ms + (millis - Local(ms, zone) % 1000);
    }

    method SetMinutes(minutes: int, zone: int)
      modifies this
      ensures ms == old(ms) + (minutes - Local(old(ms), zone) / MS_PER_MINUTE % 60) * MS_PER_MINUTE
    {
      ms := ms + (minutes - Local(ms, zone) / MS_PER_MINUTE % 60) * MS_PER_MINUTE;
    }
  }

  /** The start of the local quarter of an hour that holds `ms`. */
  function BucketStart(ms: int, zone: int): int {
    ms - Local(ms, zone) % BUCKET_MS
  }

  lemma SecondsOfMinute(l: int)
    ensures l / 1000 % 60 == l % 60000 / 1000
  {
    var m, r := l / 60000, l % 60000;
    assert l / 1000 == 60 * m + r / 1000;
  }

  lemma MinuteAndRest(m: int, r: int)
    requires 0 <= r < 1000
    ensures (60000 * m + r) % 1000 == r
  {
    assert 60000 * m + r == 1000 * (60 * m) + r;
  }

  lemma WholeMinutes(l: int)
    ensures var a := l - l / 1000 % 60 * 1000; a - a % 1000 == l / 60000 * 60000
  {
    var m, r := l / 60000, l % 60000;
    SecondsOfMinute(l);
    assert l - r / 1000 * 1000 == 60000 * m + r % 1000;
    MinuteAndRest(m, r % 1000);
  }

  lemma QuarterAndRest(k: int, r: int)
    requires 0 <= r < 900000
    ensures (900000 * k + r) % 900000 == r
  {
  }

  lemma WholeQuarters(l: int)
    ensures var m := l / 60000; (m - m % 60 + m % 60 / 15 * 15) * 60000 == l - l % 900000
  {
    var m, v := l / 60000, l % 60000;
    var h, r := m / 60, m % 60;
    var q, u := r / 15, r % 15;
    assert l == 900000 * (4 * h + q) + (60000 * u + v);
    QuarterAndRest(4 * h + q, 60000 * u + v);
  }

  /** The caller's date is truncated in place, and the range is its bucket's first second. */
  method GetTimeRangeForSingleRange(timestamp: Date, zone: int) returns (from: int, to: int)
    modifies timestamp
    ensures timestamp.ms == BucketStart(old(timestamp.ms), zone)
    ensures from == timestamp.ms / 1000 && to == from + 1
  {
    ghost var local := Local(timestamp.ms, zone);
    WholeMinutes(local);
    WholeQuarters(local);
    timestamp.SetSeconds(0, zone);
    timestamp.SetMilliseconds(0, zone);
    assert Local(timestamp.ms, zone) == local / 60000 * 60000;
    var minutes := Local(timestamp.ms, zone) / MS_PER_MINUTE % 60;
    timestamp.SetMinutes(TruncateNumberBy(minutes, RESOLUTION_MINUTES), zone);
    from := timestamp.ms / 1000;
    to := from + 1;
  }

  /** Bucket starts are multiples of 15 minutes of UTC exactly in zones that are whole quarters of an hour off. */
  lemma AlignedIff(zone: int)
    ensures (forall ms :: BucketStart(ms, zone) % BUCKET_MS == 0) <==> zone % RESOLUTION_MINUTES == 0
  {
    if zone % RESOLUTION_MINUTES == 0 {
    } else {
      assert BucketStart(0, zone) % BUCKET_MS != 0;
    }
  }

  /** In such zones: the only multiple of 15 minutes at most 15 minutes back, found again when truncated again. */
  lemma BucketUnique(ms: int, zone: int, start: int)
    requires zone % RESOLUTION_MINUTES == 0
    ensures start == BucketStart(ms, zone) <==> start % BUCKET_MS == 0 && start <= ms < start + BUCKET_MS
    ensures BucketStart(BucketStart(ms, zone), zone) == BucketStart(ms, zone)
  {
    ZoneCancels(ms, zone);
    ZoneCancels(BucketStart(ms, zone), zone);
  }

  /** In any zone it is the one quarter of an hour of local time that holds the time. */
  lemma BucketIsLocalQuarter(ms: int, zone: int, start: int)
    ensures start == BucketStart(ms, zone)
       <==> (start + zone * 60000) % 900000 == 0 && start <= ms < start + 900000
  {
    var l := ms + zone * 60000;
    assert l == 900000 * (l / 900000) + l % 900000;
    if (start + zone * 60000) % 900000 == 0 && start <= ms < start + 900000 {
      QuarterAndRest((start + zone * 60000) / 900000, ms - start);
    }
  }

  lemma ZoneCancels(ms: int, zone: int)
    requires zone % RESOLUTION_MINUTES == 0
    ensures BucketStart(ms, zone) == ms / BUCKET_MS * BUCKET_MS
  {
    var z := zone / RESOLUTION_MINUTES;
    assert Local(ms, zone) == ms + z * BUCKET_MS;
  }

  /* The price cache, keyed by the bucket alone. `symbol`, whose price was stored, is history. */

  datatype Quote = Quote(symbol: string, price: real)

  datatype Entry = Entry(quote: Quote, expiresAt: int)

  /** A write to the cache that nobody waits for. */
  datatype Write = Write(from: int, quote: Quote)

  function Cached(cache: map<int, Entry>, from: int, now: int, cacheUp: bool): Option<Quote> {
    if cacheUp && from in cache && now < cache[from].expiresAt && cache[from].quote.price != 0.0
    then Some(cache[from].quote) else None
  }

  /** The provider's answer; a missing or zero price is an error. */
  function Fetched(symbol: string, price: Option<real>): Option<Quote> {
    if price.Some? && price.value != 0.0 then Some(Quote(symbol, price.value)) else None
  }

  function Answer(
    cache: map<int, Entry>, symbol: string, from: int, now: int, cacheUp: bool, price: Option<real>): Option<Quote>
  {
    var cached := Cached(cache, from, now, cacheUp);
    if cached.Some? then cached else Fetched(symbol, price)
  }

  /** The writes begun by a call: one exactly if a price was fetched. */
  function Begun(
    cache: map<int, Entry>, symbol: string, from: int, now: int, cacheUp: bool, price: Option<real>): seq<Write>
  {
    if Cached(cache, from, now, cacheUp).None? && Fetched(symbol, price).Some?
    then [Write(from, Fetched(symbol, price).value)] else []
  }

  function Landed(cache: map<int, Entry>, w: Write, now: int): map<int, Entry> {
    cache[w.from := Entry(w.quote, now + CACHE_DURATION_S)]
  }

  class FinnhubApiService {
    const zone: int
    var cache: map<int, Entry>
    var pending: seq<Write>

    constructor (zone: int)
      ensures this.zone == zone && cache == map[] && pending == []
    {
      this.zone, cache, pending := zone, map[], [];
    }

    /** `price` is what the provider would answer; None stands for the error that is thrown. */
    method GetBlockchainNativeTokenUsdPrice(symbol: string, time: Date, now: int, cacheUp: bool, price: Option<real>)
      returns (quote: Option<Quote>)
      modifies this, time
      ensures time.ms == BucketStart(old(time.ms), zone)
      ensures quote == Answer(old(cache), symbol, time.ms / 1000, now, cacheUp, price)
      ensures
        var from := time.ms / 1000;
        if cacheUp && from in old(cache) && now < old(cache)[from].expiresAt && old(cache)[from].quote.price != 0.0
        then quote == Some(old(cache)[from].quote) && pending == old(pending)
        else if price.Some? && price.value != 0.0
        then quote == Some(Quote(symbol, price.value)) && pending == old(pending) + [Write(from, quote.value)]
        else quote.None? && pending == old(pending)
      ensures cache == old(cache)
      ensures pending == old(pending) + Begun(old(cache), symbol, time.ms / 1000, now, cacheUp, price)
    {
      var from, _ := GetTimeRangeForSingleRange(time, zone);
      if cacheUp && from in cache && now < cache[from].expiresAt && cache[from].quote.price != 0.0 {
        return Some(cache[from].quote);
      }
      if price.None? || price.value == 0.0 {
        return None;
      }
      quote := Some(Quote(symbol, price.value));
      pending := pending + [Write(from, quote.value)];
    }

    /** A write that was begun lands, or is lost, at any later time. */
    method LandWrite(k: nat, now: int, accepted: bool)
      requires k < |pending|
      modifies this
      ensures cache == if accepted then Landed(old(cache), old(pending[k]), now) else old(cache)
      ensures pending == old(pending[..k] + pending[k + 1..])
    {
      var w := pending[k];
      pending := pending[..k] + pending[k + 1..];
      if accepted {
        cache := cache[w.from := Entry(w.quote, now + CACHE_DURATION_S)];
      }
    }
  }

  /**
   * The cache does not know chains: once a price fetched for one token has landed, a price of any other token is
   * answered with the first one's exactly when the cache can be read and the time asked for is in the same bucket,
   * less than twelve hours after it landed.
   */
  lemma ChainsShareBuckets(
    cache: map<int, Entry>, zone: int, first: string, second: string, ms1: int, ms2: int, now1: int, landed: int,
    now2: int, up1: bool, up2: bool, price1: real, price2: real)
    requires zone % RESOLUTION_MINUTES == 0 && first != second && price1 != 0.0 && price2 != 0.0
    requires Cached(cache, BucketStart(ms1, zone) / 1000, now1, up1).None?
    requires Cached(cache, BucketStart(ms2, zone) / 1000, now2, up2).None?
    ensures
      var from1, from2 := BucketStart(ms1, zone) / 1000, BucketStart(ms2, zone) / 1000;
      var begun := Begun(cache, first, from1, now1, up1, Some(price1));
      && |begun| == 1
      && var after := Landed(cache, begun[0], landed);
         var shared := up2 && ms1 / BUCKET_MS == ms2 / BUCKET_MS && now2 < landed + 43200;
         && Answer(after, second, from2, now2, up2, Some(price2))
            == Some(if shared then Quote(first, price1) else Quote(second, price2))
         && (shared <==> Begun(after, second, from2, now2, up2, Some(price2)) == [])
  {
    BucketSeconds(ms1, zone);
    BucketSeconds(ms2, zone);
  }

  /* Runs. */

  /** `fetched` is every price the provider gave, with its bucket, and `answers` what callers were given: history. */
  datatype State = State(
    now: int, cache: map<int, Entry>, pending: seq<Write>, fetched: seq<Write>, answers: seq<Write>)

  datatype Step =
    | Ask(symbol: string, from: int, cacheUp: bool, price: Option<real>)
    | Land(k: nat, accepted: bool)
    | Pass(elapsed: nat)

  function Apply(s: State, step: Step): State {
    match step
    case Ask(symbol, from, cacheUp, price) =>
      var answer := Answer(s.cache, symbol, from, s.now, cacheUp, price);
      var asked := Cached(s.cache, from, s.now, cacheUp).None?;
      s.(pending := s.pending + Begun(s.cache, symbol, from, s.now, cacheUp, price),
         fetched := s.fetched + (if asked && price.Some? && price.value != 0.0
                                 then [Write(from, Quote(symbol, price.value))] else []),
         answers := s.answers + if answer.Some? then [Write(from, answer.value)] else [])
    case Land(k, accepted) =>
      if k < |s.pending| then
        s.(pending := s.pending[..k] + s.pending[k + 1..],
           cache := if accepted then Landed(s.cache, s.pending[k], s.now) else s.cache)
      else s
    case Pass(elapsed) => s.(now := s.now + elapsed)
  }

  function Run(start: int, steps: seq<Step>): State {
    if steps == [] then State(start, map[], [], [], [])
    else Apply(Run(start, steps[..|steps| - 1]), steps[|steps| - 1])
  }

  predicate AllFetched(s: State) {
    && (forall from :: from in s.cache ==>
          Write(from, s.cache[from].quote) in s.fetched && s.cache[from].expiresAt <= s.now + 43200)
    && (forall w :: w in s.pending ==> w in s.fetched)
    && (forall w :: w in s.answers ==> w in s.fetched)
    && (forall w :: w in s.fetched ==> w.quote.price != 0.0)
  }

  predicate NoneRefused(steps: seq<Step>) {
    forall i :: 0 <= i < |steps| && steps[i].Land? ==> steps[i].accepted
  }

  predicate FetchedKept(s: State) {
    forall w :: w in s.fetched ==> w in s.pending || w.from in s.cache
  }

  lemma LandKeeps(s: State, k: nat, accepted: bool)
    requires AllFetched(s) && k < |s.pending|
    ensures AllFetched(Apply(s, Land(k, accepted)))
    ensures FetchedKept(s) && accepted ==> FetchedKept(Apply(s, Land(k, accepted)))
  {
    var t := Apply(s, Land(k, accepted));
    assert s.pending[k] in s.pending;
    forall w | w in s.pending && w != s.pending[k]
      ensures w in t.pending
    {
      var j :| 0 <= j < |s.pending| && s.pending[j] == w;
      assert t.pending[if j < k then j else j - 1] == w;
    }
  }

  /**
   * Over every run, with writes landing at any time or never: every price that is answered was fetched for the very
   * bucket that it is answered for, no price is zero, and none is kept longer than twelve hours. And unless a write is
   * refused, every fetched price is stored for its bucket or about to be.
   */
  lemma {:induction false} PricesWereFetched(start: int, steps: seq<Step>)
    ensures AllFetched(Run(start, steps))
    ensures NoneRefused(steps) ==> FetchedKept(Run(start, steps))
  {
    if steps != [] {
      var before, step := steps[..|steps| - 1], steps[|steps| - 1];
      PricesWereFetched(start, before);
      var s := Run(start, before);
      match step
      case Land(k, accepted) =>
        if k < |s.pending| {
          LandKeeps(s, k, accepted);
        }
      case _ =>
    }
  }

  lemma BucketSeconds(ms: int, zone: int)
    requires zone % RESOLUTION_MINUTES == 0
    ensures BucketStart(ms, zone) / 1000 == 900 * (ms / BUCKET_MS)
  {
    BucketUnique(ms, zone, ms / BUCKET_MS * BUCKET_MS);
  }
}
