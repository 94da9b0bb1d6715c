/**
 * AlphaVantageQuoteProvider.GetQuoteAsync: the price of one asset through
 * fresh cache -> daily quota -> remote GLOBAL_QUOTE -> 30-day stale cache ->
 * zero-price "unavailable" sentinel. The decoded vendor response is an input.
 */
module QuoteProvider {
  import opened Wrappers
  import opened Clock
  import opened Text
  import opened QuoteCache
  import opened QuoteLimiter

  /** AlphaVantageOptions, with its defaults CacheTtlMinutes = 15 and DailyLimit = 20. */
  datatype AlphaVantageOptions = AlphaVantageOptions(cacheTtlMinutes: int, dailyLimit: int)

  const DefaultOptions := AlphaVantageOptions(15, 20)

  /** How far back the stale fallback looks. */
  const StaleWindowDays := 30

  /** The provider's Name, stored as the Source of the rows it saves. */
  const ProviderName := "ALPHAVANTAGE"

  /** The "05. price" member of the "Global Quote" object. */
  datatype PriceField =
    | PriceAbsent             // no "05. price" member
    | PriceNull               // JSON null: GetString() gives null, which does not parse
    | PriceNotText            // a number, object, ...: GetString() throws
    | PriceText(text: string)

  /** The decoded GLOBAL_QUOTE body. */
  datatype Payload =
    | RateLimitNotice         // the body has a "Note" or an "Information" member
    | QuoteMissing            // no "Global Quote" member
    | QuoteNotObject          // "Global Quote" is not a JSON object
    | QuoteObject(price: PriceField)

  /**
   * The remote call. Fault is a transport error, a non-2xx status, a body
   * that is not JSON, or a JSON body whose root is not an object (the first
   * TryGetProperty throws on it); each throws.
   */
  datatype Response = Fault | Body(payload: Payload)

  /** What the remote call yields: an exception, no usable price, or a price. */
  datatype Fetch = FetchThrew | NoPrice | Price(value: real)

  /** The tuple (price, asof, fromCache, isStale) of GetQuoteAsync. */
  datatype Quote = Quote(price: real, asOf: int, fromCache: bool, isStale: bool)

  /** GetQuoteAsync either returns a quote or throws. */
  datatype Outcome = Returned(quote: Quote) | Threw

  /** The outcome of one lookup together with the quote cache and usage table after it. */
  datatype Provided = Provided(outcome: Outcome, rows: seq<PriceRow>, usage: Usage)

  /** The checks of GetQuoteAsync on the vendor response, in the order the source makes them. */
  function Interpret(response: Response): Fetch {
    match response
    case Fault => FetchThrew
    case Body(RateLimitNotice) => NoPrice
    case Body(QuoteMissing) => NoPrice
    case Body(QuoteNotObject) => NoPrice
    case Body(QuoteObject(PriceAbsent)) => NoPrice
    case Body(QuoteObject(PriceNull)) => NoPrice
    case Body(QuoteObject(PriceNotText)) => FetchThrew
    case Body(QuoteObject(PriceText(s))) =>
      match ParseDecimal(s)
      case None => NoPrice
      case Some(v) => Price(v)
  }

  /** A price comes only from a "05. price" string that parses; every other body falls back, or throws. */
  lemma InterpretCases(response: Response)
    ensures Interpret(response).Price? <==>
            response.Body? && response.payload.QuoteObject? && response.payload.price.PriceText?
            && ParseDecimal(response.payload.price.text).Some?
    ensures Interpret(response).Price? ==> Interpret(response).value == ParseDecimal(response.payload.price.text).value
    ensures Interpret(response) == FetchThrew <==> response == Fault || response == Body(QuoteObject(PriceNotText))
  {
  }

  /** The stale fallback: the newest row of the last 30 days, else the zero-price unavailable sentinel. */
  function StaleQuote(rows: seq<PriceRow>, assetId: int, now: int): Quote {
    match Recent(rows, assetId, now, Days(StaleWindowDays))
    case Some((p, a)) => Quote(p, a, true, true)
    case None => Quote(0.0, now, false, true)
  }

  /**
   * GetQuoteAsync(assetId, ticker) at UTC instant `now`, over the quote
   * cache rows and the usage table, with the vendor's response to the call
   * (used only when the call is made).
   */
  function Provide(rows: seq<PriceRow>, usage: Usage, limit: int, ttlMinutes: int,
                   assetId: int, now: int, response: Response): Provided
  {
    match Recent(rows, assetId, now, Minutes(ttlMinutes))
    case Some((p, a)) => Provided(Returned(Quote(p, a, true, false)), rows, usage)
    case None =>
      var (usage', granted) := Consume(usage, limit, DateOf(now), 1);
      if !granted then Provided(Returned(StaleQuote(rows, assetId, now)), rows, usage')
      else match Interpret(response)
        case FetchThrew => Provided(Threw, rows, usage')
        case NoPrice => Provided(Returned(StaleQuote(rows, assetId, now)), rows, usage')
        case Price(v) =>
          Provided(Returned(Quote(v, now, false, false)), rows + [PriceRow(assetId, v, now, ProviderName)], usage')
  }

  /** A hit within the TTL is returned as fresh and from cache, without consuming quota or fetching. */
  lemma FreshHitShortCircuits(rows: seq<PriceRow>, usage: Usage, limit: int, ttlMinutes: int,
                              assetId: int, now: int, response: Response)
    requires Recent(rows, assetId, now, Minutes(ttlMinutes)).Some?
    ensures var hit := Recent(rows, assetId, now, Minutes(ttlMinutes)).value;
            Provide(rows, usage, limit, ttlMinutes, assetId, now, response)
            == Provided(Returned(Quote(hit.0, hit.1, true, false)), rows, usage)
  {
  }

  /**
   * When the quota is refused nothing is fetched: the response makes no
   * difference, the cache is unchanged and the result is the stale fallback.
   */
  lemma QuotaRefusedFallsBack(rows: seq<PriceRow>, usage: Usage, limit: int, ttlMinutes: int,
                              assetId: int, now: int, response: Response, other: Response)
    requires Recent(rows, assetId, now, Minutes(ttlMinutes)).None?
    requires !Consume(usage, limit, DateOf(now), 1).1
    ensures Provide(rows, usage, limit, ttlMinutes, assetId, now, response)
            == Provide(rows, usage, limit, ttlMinutes, assetId, now, other)
    ensures Provide(rows, usage, limit, ttlMinutes, assetId, now, response)
            == Provided(Returned(StaleQuote(rows, assetId, now)), rows, Consume(usage, limit, DateOf(now), 1).0)
  {
  }

  /** A rate-limit notice, a missing or non-object "Global Quote", a missing or unparsable price: all fall back. */
  lemma UnusableResponseFallsBack(rows: seq<PriceRow>, usage: Usage, limit: int, ttlMinutes: int,
                                  assetId: int, now: int, response: Response)
    requires Recent(rows, assetId, now, Minutes(ttlMinutes)).None?
    requires Consume(usage, limit, DateOf(now), 1).1
    requires response.Body?
    requires || response.payload == RateLimitNotice || response.payload == QuoteMissing
             || response.payload == QuoteNotObject || response.payload == QuoteObject(PriceAbsent)
             || response.payload == QuoteObject(PriceNull)
             || (response.payload.QuoteObject? && response.payload.price.PriceText?
                 && ParseDecimal(response.payload.price.text).None?)
    ensures Provide(rows, usage, limit, ttlMinutes, assetId, now, response)
            == Provided(Returned(StaleQuote(rows, assetId, now)), rows, Consume(usage, limit, DateOf(now), 1).0)
  {
  }

  /** A parsed price is saved as (assetId, price, now, "ALPHAVANTAGE") and returned as fresh, not from cache. */
  lemma ParsedPriceIsSaved(rows: seq<PriceRow>, usage: Usage, limit: int, ttlMinutes: int,
                           assetId: int, now: int, text: string)
    requires Recent(rows, assetId, now, Minutes(ttlMinutes)).None?
    requires Consume(usage, limit, DateOf(now), 1).1
    requires ParseDecimal(text).Some?
    ensures var v := ParseDecimal(text).value;
            Provide(rows, usage, limit, ttlMinutes, assetId, now, Body(QuoteObject(PriceText(text))))
            == Provided(Returned(Quote(v, now, false, false)),
                        rows + [PriceRow(assetId, v, now, ProviderName)],
                        Consume(usage, limit, DateOf(now), 1).0)
  {
  }

  /**
   * Quota accounting: a fresh hit spends nothing; otherwise exactly the
   * one-token consume happens, and nothing is ever refunded, whatever
   * happens afterwards. Only the cache may grow, by at most the saved row.
   */
  lemma TokenAccounting(rows: seq<PriceRow>, usage: Usage, limit: int, ttlMinutes: int,
                        assetId: int, now: int, response: Response)
    ensures var r := Provide(rows, usage, limit, ttlMinutes, assetId, now, response);
            && (Recent(rows, assetId, now, Minutes(ttlMinutes)).Some? ==> r.usage == usage)
            && (Recent(rows, assetId, now, Minutes(ttlMinutes)).None? ==> r.usage == Consume(usage, limit, DateOf(now), 1).0)
            && (Recent(rows, assetId, now, Minutes(ttlMinutes)).None? ==>
                  UsedOn(r.usage, DateOf(now)) == UsedOn(usage, DateOf(now)) + if Consume(usage, limit, DateOf(now), 1).1 then 1 else 0)
            && (r.rows == rows || r.rows == rows + [PriceRow(assetId, r.outcome.quote.price, now, ProviderName)])
  {
    ConsumeOutcome(usage, limit, DateOf(now), 1);
  }

  /** The provider keeps every day's usage within the limit. */
  lemma ProvideKeepsWithinLimit(rows: seq<PriceRow>, usage: Usage, limit: int, ttlMinutes: int,
                                assetId: int, now: int, response: Response)
    requires limit >= 0 && WithinLimit(usage, limit)
    ensures WithinLimit(Provide(rows, usage, limit, ttlMinutes, assetId, now, response).usage, limit)
  {
    ConsumeKeepsWithinLimit(usage, limit, DateOf(now), 1);
  }

  /**
   * The result invariants: a stale result not from cache is the zero
   * sentinel; a result from cache carries a price and instant of one of the
   * asset's rows; a non-stale result is either a fresh hit or a successful
   * fetch that was saved.
   */
  lemma QuoteInvariants(rows: seq<PriceRow>, usage: Usage, limit: int, ttlMinutes: int,
                        assetId: int, now: int, response: Response)
    ensures var r := Provide(rows, usage, limit, ttlMinutes, assetId, now, response);
            r.outcome.Returned? ==>
              var q := r.outcome.quote;
              && (!q.fromCache && q.isStale ==> q.price == 0.0 && q.asOf == now)
              && (q.fromCache ==> exists i :: 0 <= i < |rows| && rows[i].assetId == assetId
                                             && rows[i].price == q.price && rows[i].asOf == q.asOf)
              && (!q.isStale <==> (q.fromCache && Recent(rows, assetId, now, Minutes(ttlMinutes)).Some?)
                                  || (!q.fromCache && r.rows == rows + [PriceRow(assetId, q.price, now, ProviderName)]))
  {
    var r := Provide(rows, usage, limit, ttlMinutes, assetId, now, response);
    var hit := Newest(rows, assetId, now - Minutes(ttlMinutes));
    var stale := Newest(rows, assetId, now - Days(StaleWindowDays));
    if r.outcome.Returned? {
      var q := r.outcome.quote;
      if q.fromCache {
        if hit.Some? {
          var i :| 0 <= i < |rows| && rows[i] == hit.value;
        } else {
          var i :| 0 <= i < |rows| && rows[i] == stale.value;
        }
      }
      if !q.isStale && !q.fromCache {
        assert r.rows == rows + [PriceRow(assetId, q.price, now, ProviderName)];
      }
      if q.isStale {
        assert r.rows == rows;
        assert |r.rows| != |rows + [PriceRow(assetId, q.price, now, ProviderName)]|;
      }
    }
  }

  /**
   * A successful fetch followed by a second lookup within the TTL returns
   * the fetched price from cache, fresh, spending no quota and whatever the
   * second response would have been.
   */
  lemma FetchThenCachedWithinTtl(rows: seq<PriceRow>, usage: Usage, limit: int, ttlMinutes: int,
                                 assetId: int, now: int, response: Response,
                                 later: int, response2: Response)
    requires ttlMinutes >= 0
    requires now <= later <= now + Minutes(ttlMinutes)
    requires var r := Provide(rows, usage, limit, ttlMinutes, assetId, now, response);
             r.outcome.Returned? && !r.outcome.quote.fromCache && !r.outcome.quote.isStale
    ensures var r := Provide(rows, usage, limit, ttlMinutes, assetId, now, response);
            Provide(r.rows, r.usage, limit, ttlMinutes, assetId, later, response2)
            == Provided(Returned(Quote(r.outcome.quote.price, now, true, false)), r.rows, r.usage)
  {
    var r := Provide(rows, usage, limit, ttlMinutes, assetId, now, response);
    var q := r.outcome.quote;
    assert Recent(rows, assetId, now, Minutes(ttlMinutes)).None?;
    assert r.rows == rows + [PriceRow(assetId, q.price, now, ProviderName)];
    SaveAfterMissIsRead(rows, assetId, q.price, now, ProviderName, now - Minutes(ttlMinutes), later - Minutes(ttlMinutes));
  }

  /** AlphaVantageQuoteProvider with its cache, limiter and options. */
  class AlphaVantageQuoteProvider {
    const cache: DbQuoteCache
    const limiter: DbQuoteLimiter
    const options: AlphaVantageOptions

    constructor (cache: DbQuoteCache, limiter: DbQuoteLimiter, options: AlphaVantageOptions)
      ensures this.cache == cache && this.limiter == limiter && this.options == options
    {
      this.cache := cache;
      this.limiter := limiter;
      this.options := options;
    }

    /** The 30-day stale lookup, then the unavailable sentinel. */
    method StaleOrUnavailable(assetId: int, now: int) returns (q: Quote)
      ensures q == StaleQuote(cache.rows, assetId, now)
    {
      var stale := cache.TryGetRecent(assetId, now, Days(StaleWindowDays));
      if stale.Some? {
        return Quote(stale.value.0, stale.value.1, true, true);
      }
      return Quote(0.0, now, false, true);
    }

    /** GetQuoteAsync(assetId, ticker) at UTC instant `now`; `response` is the vendor's answer if it is called. */
    method GetQuote(assetId: int, ticker: string, now: int, response: Response) returns (o: Outcome)
      modifies cache, limiter
      ensures Provided(o, cache.rows, limiter.usage)
              == Provide(old(cache.rows), old(limiter.usage), limiter.dailyLimit, options.cacheTtlMinutes,
                         assetId, now, response)
    {
      var cached := cache.TryGetRecent(assetId, now, Minutes(options.cacheTtlMinutes));
      if cached.Some? {
        return Returned(Quote(cached.value.0, cached.value.1, true, false));
      }
      var granted := limiter.TryConsume(now, 1);
      if !granted {
        var q := StaleOrUnavailable(assetId, now);
        return Returned(q);
      }
      if response.Fault? {
        return Threw;
      }
      var payload := response.payload;
      if payload.RateLimitNotice? || payload.QuoteMissing? || payload.QuoteNotObject? || payload.price.PriceAbsent? {
        var q := StaleOrUnavailable(assetId, now);
        return Returned(q);
      }
      if payload.price.PriceNotText? {
        return Threw;
      }
      var priceStr := if payload.price.PriceText? then payload.price.text else "";
      var price := ParseDecimal(priceStr);
      if price.None? {
        var q := StaleOrUnavailable(assetId, now);
        return Returned(q);
      }
      cache.Save(assetId, price.value, now, ProviderName);
      return Returned(Quote(price.value, now, false, false));
    }
  }
}
