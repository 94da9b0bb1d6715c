/**
 * QuoteIngestionWorker: a once-a-minute tick that, in B3 local time, runs
 * an OPEN, a CLOSE or an HOURLY batch refresh of the tracked tickers
 * through the quote provider into the per-ticker price cache.
 */
module QuoteIngestion {
  import opened Wrappers
  import opened Clock
  import opened Numerics
  import opened QuoteCache
  import opened QuoteLimiter
  import opened QuoteProvider
  import opened TickerPriceCache
  import opened TrackedTickers

  /** B3ScheduleOptions with Open and Close as local times of day in ticks. */
  datatype B3ScheduleOptions = B3ScheduleOptions(open: int, close: int, hourlyMinutes: int)

  /** The defaults: open 10:00, close 17:30, every 60 minutes. */
  const DefaultSchedule := B3ScheduleOptions(Minutes(10 * 60), Minutes(17 * 60 + 30), 60)

  /** The tolerance of the OPEN and CLOSE triggers, in minutes. */
  const NearToleranceMinutes := 5

  datatype Reason = Open | Close | Hourly

  /** The worker's fields _lastRunDate, _didOpenRun, _didCloseRun and _lastHourly. */
  datatype Schedule = Schedule(lastRunDate: int, didOpenRun: bool, didCloseRun: bool, lastHourly: int)

  /** A new worker: default(DateOnly) is day 0 and _lastHourly starts at DateTime.MinValue. */
  const InitialSchedule := Schedule(0, false, false, MinValue)

  /** |t - target| is at most `toleranceMinutes` minutes, bounds included. */
  predicate Near(t: int, target: int, toleranceMinutes: int) {
    -toleranceMinutes * TicksPerMinute <= t - target <= toleranceMinutes * TicksPerMinute
  }

  predicate InSession(timeOfDay: int, opt: B3ScheduleOptions) {
    opt.open <= timeOfDay <= opt.close
  }

  /** A new local date clears both flags and the hourly mark. */
  function Roll(s: Schedule, today: int): Schedule {
    if today != s.lastRunDate then Schedule(today, false, false, MinValue) else s
  }

  /** One Tick at local instant `nowLocal`: the batch it runs, if any, and the fields after it. */
  function Plan(s: Schedule, nowLocal: int, opt: B3ScheduleOptions): (Option<Reason>, Schedule) {
    var s1 := Roll(s, DateOf(nowLocal));
    var tod := TimeOfDay(nowLocal);
    if !s1.didOpenRun && Near(tod, opt.open, NearToleranceMinutes) then (Some(Open), s1.(didOpenRun := true))
    else if !s1.didCloseRun && Near(tod, opt.close, NearToleranceMinutes) then (Some(Close), s1.(didCloseRun := true))
    else if InSession(tod, opt) && nowLocal - s1.lastHourly >= opt.hourlyMinutes * TicksPerMinute
    then (Some(Hourly), s1.(lastHourly := nowLocal))
    else (None, s1)
  }

  /** A series of ticks from state `s`: the batch of each tick and the final fields. */
  function Run(s: Schedule, ticks: seq<int>, opt: B3ScheduleOptions): (seq<Option<Reason>>, Schedule)
    decreases |ticks|
  {
    if ticks == [] then ([], s)
    else
      var (r, s') := Plan(s, ticks[0], opt);
      var (rs, s'') := Run(s', ticks[1..], opt);
      ([r] + rs, s'')
  }

  /**
   * On the first tick of a new date nothing of the previous date survives:
   * the flags and the hourly mark are exactly what this tick's batch sets.
   */
  lemma NewDateStartsClean(s: Schedule, nowLocal: int, opt: B3ScheduleOptions)
    requires DateOf(nowLocal) != s.lastRunDate
    ensures var (r, s') := Plan(s, nowLocal, opt);
            && s'.lastRunDate == DateOf(nowLocal)
            && (s'.didOpenRun <==> r == Some(Open))
            && (s'.didCloseRun <==> r == Some(Close))
            && s'.lastHourly == (if r == Some(Hourly) then nowLocal else MinValue)
  {
  }

  /** On a tick near the open with the OPEN batch not yet run, OPEN runs and nothing else does. */
  lemma OpenTakesPrecedence(s: Schedule, nowLocal: int, opt: B3ScheduleOptions)
    requires !Roll(s, DateOf(nowLocal)).didOpenRun
    requires Near(TimeOfDay(nowLocal), opt.open, NearToleranceMinutes)
    ensures Plan(s, nowLocal, opt).0 == Some(Open)
    ensures Plan(s, nowLocal, opt).1 == Roll(s, DateOf(nowLocal)).(didOpenRun := true)
  {
  }

  /**
   * After a reset the first in-session tick away from the open and the
   * close runs HOURLY, since DateTime.MinValue lies at least an interval
   * in the past of any such instant.
   */
  lemma FirstInSessionTickRunsHourly(s: Schedule, nowLocal: int, opt: B3ScheduleOptions)
    requires DateOf(nowLocal) != s.lastRunDate
    requires InSession(TimeOfDay(nowLocal), opt)
    requires !Near(TimeOfDay(nowLocal), opt.open, NearToleranceMinutes)
    requires !Near(TimeOfDay(nowLocal), opt.close, NearToleranceMinutes)
    requires nowLocal >= opt.hourlyMinutes * TicksPerMinute
    ensures Plan(s, nowLocal, opt) == (Some(Hourly), Schedule(DateOf(nowLocal), false, false, nowLocal))
  {
  }

  /** HOURLY runs only in session and at least HourlyMinutes after the previous HOURLY of the same date. */
  lemma HourlyNeedsSessionAndInterval(s: Schedule, nowLocal: int, opt: B3ScheduleOptions)
    requires Plan(s, nowLocal, opt).0 == Some(Hourly)
    ensures InSession(TimeOfDay(nowLocal), opt)
    ensures s.lastRunDate == DateOf(nowLocal) ==> nowLocal - s.lastHourly >= opt.hourlyMinutes * TicksPerMinute
    ensures Plan(s, nowLocal, opt).1.lastHourly == nowLocal
  {
  }

  /** Once OPEN (CLOSE) has run on date `d`, no later tick of date `d` runs it again. */
  lemma {:induction false} NoRepeatWithinDate(s: Schedule, ticks: seq<int>, opt: B3ScheduleOptions, d: int)
    requires s.lastRunDate == d
    requires forall i :: 0 <= i < |ticks| ==> DateOf(ticks[i]) == d
    ensures s.didOpenRun ==> Some(Open) !in Run(s, ticks, opt).0
    ensures s.didCloseRun ==> Some(Close) !in Run(s, ticks, opt).0
    ensures Run(s, ticks, opt).1.lastRunDate == d
    ensures s.didOpenRun ==> Run(s, ticks, opt).1.didOpenRun
    ensures s.didCloseRun ==> Run(s, ticks, opt).1.didCloseRun
    decreases |ticks|
  {
    if ticks != [] {
      var (r, s') := Plan(s, ticks[0], opt);
      NoRepeatWithinDate(s', ticks[1..], opt, d);
    }
  }

  /** Over ticks of one local date, OPEN runs at most once and CLOSE runs at most once. */
  lemma {:induction false} OncePerDate(s: Schedule, ticks: seq<int>, opt: B3ScheduleOptions, d: int)
    requires forall i :: 0 <= i < |ticks| ==> DateOf(ticks[i]) == d
    ensures var rs := Run(s, ticks, opt).0;
            forall i, j :: 0 <= i < j < |rs| && rs[i] == rs[j] ==> rs[i] != Some(Open) && rs[i] != Some(Close)
    decreases |ticks|
  {
    if ticks != [] {
      var (r, s') := Plan(s, ticks[0], opt);
      var rest := ticks[1..];
      assert forall i :: 0 <= i < |rest| ==> DateOf(rest[i]) == d by {
        forall i | 0 <= i < |rest| ensures DateOf(rest[i]) == d {
          assert rest[i] == ticks[i + 1];
        }
      }
      OncePerDate(s', rest, opt, d);
      NoRepeatWithinDate(s', rest, opt, d);
      var rs := Run(s, ticks, opt).0;
      assert rs == [r] + Run(s', rest, opt).0;
      forall i, j | 0 <= i < j < |rs| && rs[i] == rs[j]
        ensures rs[i] != Some(Open) && rs[i] != Some(Close)
      {
        if i == 0 {
          assert rs[j] in Run(s', rest, opt).0 by {
            assert rs[j] == Run(s', rest, opt).0[j - 1];
          }
        } else {
          assert rs[i] == Run(s', rest, opt).0[i - 1] && rs[j] == Run(s', rest, opt).0[j - 1];
        }
      }
    }
  }

  /* ---- batch ordering: OrderByDescending(popularity).ThenBy(lastAsOf ?? MinValue) ---- */

  function Stamp(t: Tracked): int {
    t.lastAsOf.GetOr(MinValue)
  }

  /** `a` strictly precedes `b`: more popular, or as popular and refreshed longer ago. */
  predicate Before(a: Tracked, b: Tracked) {
    a.popularity > b.popularity || (a.popularity == b.popularity && Stamp(a) < Stamp(b))
  }

  predicate SameKey(a: Tracked, b: Tracked) {
    a.popularity == b.popularity && Stamp(a) == Stamp(b)
  }

  predicate Ordered(s: seq<Tracked>) {
    forall i, j :: 0 <= i < j < |s| ==> !Before(s[j], s[i])
  }

  /** Places `x` after every element that does not come strictly after it. */
  function Insert(s: seq<Tracked>, x: Tracked): seq<Tracked>
    decreases |s|
  {
    if s == [] then [x]
    else if Before(x, s[|s| - 1]) then Insert(s[..|s| - 1], x) + [s[|s| - 1]]
    else s + [x]
  }

  /** The stable ordering of the batch, as an insertion sort. */
  function Order(s: seq<Tracked>): seq<Tracked>
    decreases |s|
  {
    if s == [] then [] else Insert(Order(s[..|s| - 1]), s[|s| - 1])
  }

  /** The elements with the same sort key as `k`, in sequence order. */
  function WithKey(s: seq<Tracked>, k: Tracked): seq<Tracked>
    decreases |s|
  {
    if s == [] then []
    else WithKey(s[..|s| - 1], k) + if SameKey(s[|s| - 1], k) then [s[|s| - 1]] else []
  }

  predicate DistinctTickers(s: seq<Tracked>) {
    forall i, j :: 0 <= i < j < |s| ==> s[i].ticker != s[j].ticker
  }

  lemma {:induction false} InsertPermutes(s: seq<Tracked>, x: Tracked)
    ensures multiset(Insert(s, x)) == multiset(s) + multiset{x}
    decreases |s|
  {
    if s != [] {
      var init, last := s[..|s| - 1], s[|s| - 1];
      assert s == init + [last];
      if Before(x, last) {
        InsertPermutes(init, x);
      }
    }
  }

  lemma {:induction false} InsertOrdered(s: seq<Tracked>, x: Tracked)
    requires Ordered(s)
    ensures Ordered(Insert(s, x))
    decreases |s|
  {
    if s != [] {
      var init, last := s[..|s| - 1], s[|s| - 1];
      if Before(x, last) {
        assert Ordered(init) by {
          forall i, j | 0 <= i < j < |init| ensures !Before(init[j], init[i]) {
            assert init[i] == s[i] && init[j] == s[j];
          }
        }
        InsertOrdered(init, x);
        InsertPermutes(init, x);
        var r := Insert(init, x) + [last];
        forall i, j | 0 <= i < j < |r| ensures !Before(r[j], r[i]) {
          if j == |r| - 1 && r[i] != x {
            assert r[i] in multiset(Insert(init, x));
            assert r[i] in multiset(init);
            var m :| 0 <= m < |init| && init[m] == r[i];
            assert s[m] == r[i];
          }
        }
      } else {
        var r := s + [x];
        forall i, j | 0 <= i < j < |r| ensures !Before(r[j], r[i]) {
          if j == |r| - 1 && i < |s| - 1 {
            assert !Before(s[|s| - 1], s[i]);
          }
        }
      }
    }
  }

  lemma {:induction false} InsertStable(s: seq<Tracked>, x: Tracked, k: Tracked)
    ensures WithKey(Insert(s, x), k) == WithKey(s, k) + if SameKey(x, k) then [x] else []
    decreases |s|
  {
    if s != [] {
      var init, last := s[..|s| - 1], s[|s| - 1];
      if Before(x, last) {
        InsertStable(init, x, k);
        var r := Insert(init, x) + [last];
        assert r[..|r| - 1] == Insert(init, x);
      } else {
        var r := s + [x];
        assert r[..|r| - 1] == s;
      }
    }
  }

  lemma {:induction false} InsertDistinct(s: seq<Tracked>, x: Tracked)
    requires DistinctTickers(s)
    requires forall i :: 0 <= i < |s| ==> s[i].ticker != x.ticker
    ensures DistinctTickers(Insert(s, x))
    decreases |s|
  {
    if s != [] {
      var init, last := s[..|s| - 1], s[|s| - 1];
      if Before(x, last) {
        InsertDistinct(init, x);
        InsertPermutes(init, x);
        var r := Insert(init, x) + [last];
        forall i, j | 0 <= i < j < |r| ensures r[i].ticker != r[j].ticker {
          if j == |r| - 1 && r[i] != x {
            assert r[i] in multiset(Insert(init, x));
            assert r[i] in multiset(init);
            var m :| 0 <= m < |init| && init[m] == r[i];
            assert s[m] == r[i];
          }
        }
      }
    }
  }

  /** Order sorts by the key, is a permutation, and keeps the input order of equal keys. */
  lemma {:induction false} OrderCorrect(s: seq<Tracked>)
    ensures Ordered(Order(s))
    ensures multiset(Order(s)) == multiset(s)
    ensures forall k :: WithKey(Order(s), k) == WithKey(s, k)
    decreases |s|
  {
    if s != [] {
      var init, last := s[..|s| - 1], s[|s| - 1];
      assert s == init + [last];
      OrderCorrect(init);
      InsertOrdered(Order(init), last);
      InsertPermutes(Order(init), last);
      forall k ensures WithKey(Order(s), k) == WithKey(s, k) {
        InsertStable(Order(init), last, k);
      }
    }
  }

  /** Ordering distinct tickers keeps them distinct. */
  lemma {:induction false} OrderDistinct(s: seq<Tracked>)
    requires DistinctTickers(s)
    ensures DistinctTickers(Order(s))
    decreases |s|
  {
    if s != [] {
      var init, last := s[..|s| - 1], s[|s| - 1];
      assert s == init + [last];
      OrderDistinct(init);
      OrderCorrect(init);
      forall i | 0 <= i < |Order(init)| ensures Order(init)[i].ticker != last.ticker {
        assert Order(init)[i] in multiset(init);
        var m :| 0 <= m < |init| && init[m] == Order(init)[i];
        assert s[m] == init[m];
      }
      InsertDistinct(Order(init), last);
    }
  }

  /* ---- the batch ---- */

  /** The stores a batch works on: the quote cache, the usage table and the per-ticker cache. */
  datatype Stores = Stores(quotes: seq<PriceRow>, usage: Usage, tickers: seq<TickerRow>)

  /**
   * One iteration: GetQuoteAsync(0, tk), then SaveAsync of whatever it
   * returned, stale or zero sentinel included; an exception skips the save.
   */
  function FetchOne(st: Stores, limit: int, ttlMinutes: int, now: int, tk: string,
                    respond: string -> Response): Stores
  {
    var p := Provide(st.quotes, st.usage, limit, ttlMinutes, 0, now, respond(tk));
    match p.outcome
    case Threw => Stores(p.rows, p.usage, st.tickers)
    case Returned(q) => Stores(p.rows, p.usage, Upsert(st.tickers, TickerRow(tk, q.price, q.asOf, ProviderName)))
  }

  /** The iterations over `tickers`, in order. */
  function FetchAll(st: Stores, limit: int, ttlMinutes: int, now: int, tickers: seq<string>,
                    respond: string -> Response): Stores
    decreases |tickers|
  {
    if tickers == [] then st
    else FetchOne(FetchAll(st, limit, ttlMinutes, now, tickers[..|tickers| - 1], respond),
                  limit, ttlMinutes, now, tickers[|tickers| - 1], respond)
  }

  /** The tickers a batch calls: the first min(remaining, count) of the ordering, none without quota. */
  function Selection(remaining: int, tracked: seq<Tracked>): seq<string> {
    var ordered := Order(tracked);
    var toCall := Min(remaining, |ordered|);
    if remaining <= 0 || toCall <= 0 then []
    else seq(toCall, i requires 0 <= i < toCall => ordered[i].ticker)
  }

  /** RefreshBatch at UTC instant `now`: the tickers called and the stores after the loop. */
  function Batch(st: Stores, limit: int, ttlMinutes: int, now: int, assetTickers: seq<string>,
                 respond: string -> Response): (seq<string>, Stores)
  {
    var called := Selection(Remaining(st.usage, limit, DateOf(now)), GetTracked(assetTickers, st.tickers));
    (called, FetchAll(st, limit, ttlMinutes, now, called, respond))
  }

  /** Without remaining quota the batch calls nobody and changes nothing. */
  lemma NoQuotaNoCalls(st: Stores, limit: int, ttlMinutes: int, now: int, assetTickers: seq<string>,
                       respond: string -> Response)
    requires Remaining(st.usage, limit, DateOf(now)) == 0
    ensures Batch(st, limit, ttlMinutes, now, assetTickers, respond) == ([], st)
  {
  }

  /** The ordering of the tracked tickers: same entries, distinct tickers, sorted. */
  lemma OrderOfTracked(assetTickers: seq<string>, cache: seq<TickerRow>)
    ensures var tracked := GetTracked(assetTickers, cache);
            var ordered := Order(tracked);
            && |ordered| == |tracked|
            && (forall i :: 0 <= i < |ordered| ==> ordered[i] in tracked)
            && (forall i :: 0 <= i < |tracked| ==> tracked[i] in ordered)
            && (forall i :: 0 <= i < |ordered| ==> ordered[i].ticker in assetTickers)
            && (forall i :: 0 <= i < |ordered| ==> ordered[i].popularity == multiset(assetTickers)[ordered[i].ticker])
            && (forall t :: t in assetTickers ==> exists i :: 0 <= i < |ordered| && ordered[i].ticker == t)
            && DistinctTickers(ordered)
            && Ordered(ordered)
  {
    var tracked := GetTracked(assetTickers, cache);
    var ordered := Order(tracked);
    TrackedCorrect(assetTickers, cache);
    OrderCorrect(tracked);
    OrderDistinct(tracked);
    assert |ordered| == |tracked| by {
      assert |multiset(ordered)| == |multiset(tracked)|;
    }
    forall i | 0 <= i < |ordered| ensures ordered[i] in tracked {
      assert ordered[i] in multiset(ordered);
    }
    forall i | 0 <= i < |tracked| ensures tracked[i] in ordered {
      assert tracked[i] in multiset(tracked);
    }
    forall t | t in assetTickers ensures exists i :: 0 <= i < |ordered| && ordered[i].ticker == t {
      var k :| 0 <= k < |tracked| && tracked[k].ticker == t;
      assert tracked[k] in ordered;
    }
  }

  /**
   * The selection: at most `remaining` distinct tickers of asset rows, and
   * every tracked ticker when the quota covers them all.
   */
  lemma SelectionCovers(remaining: int, assetTickers: seq<string>, cache: seq<TickerRow>)
    ensures var tracked := GetTracked(assetTickers, cache);
            var called := Selection(remaining, tracked);
            && |called| == (if remaining <= 0 then 0 else Min(remaining, |tracked|))
            && (forall i, j :: 0 <= i < j < |called| ==> called[i] != called[j])
            && (forall t :: t in called ==> t in assetTickers)
            && (remaining >= |tracked| ==> forall t :: t in assetTickers ==> t in called)
  {
    var tracked := GetTracked(assetTickers, cache);
    var ordered := Order(tracked);
    var called := Selection(remaining, tracked);
    OrderOfTracked(assetTickers, cache);
    forall t | t in called ensures t in assetTickers {
      var i :| 0 <= i < |called| && called[i] == t;
    }
    if remaining >= |tracked| && remaining > 0 {
      forall t | t in assetTickers ensures t in called {
        var m :| 0 <= m < |ordered| && ordered[m].ticker == t;
        assert called[m] == t;
      }
    }
  }

  /** The called tickers are the leading entries of the ordering. */
  lemma SelectionIsPrefix(remaining: int, tracked: seq<Tracked>)
    ensures var called := Selection(remaining, tracked);
            && |called| <= |Order(tracked)|
            && forall i :: 0 <= i < |called| ==> called[i] == Order(tracked)[i].ticker
  {
  }

  /** No ticker left out of the batch is more popular than a ticker called. */
  lemma SelectionMostPopular(remaining: int, assetTickers: seq<string>, cache: seq<TickerRow>, t: string, u: string)
    requires t in Selection(remaining, GetTracked(assetTickers, cache))
    requires u in assetTickers && u !in Selection(remaining, GetTracked(assetTickers, cache))
    ensures multiset(assetTickers)[t] >= multiset(assetTickers)[u]
  {
    var tracked := GetTracked(assetTickers, cache);
    var ordered := Order(tracked);
    var called := Selection(remaining, tracked);
    SelectionIsPrefix(remaining, tracked);
    OrderOfTracked(assetTickers, cache);
    var c :| 0 <= c < |called| && called[c] == t;
    var m :| 0 <= m < |ordered| && ordered[m].ticker == u;
    if m <= c {
      assert false;
    }
    assert !Before(ordered[m], ordered[c]);
  }

  /** Each iteration saves whatever the provider returned under the ticker, and saves nothing when it threw. */
  lemma FetchOneSaves(st: Stores, limit: int, ttlMinutes: int, now: int, tk: string, respond: string -> Response)
    ensures var p := Provide(st.quotes, st.usage, limit, ttlMinutes, 0, now, respond(tk));
            var r := FetchOne(st, limit, ttlMinutes, now, tk, respond);
            && r.quotes == p.rows && r.usage == p.usage
            && (p.outcome.Returned? ==>
                  Lookup(r.tickers, tk) == Some(TickerRow(tk, p.outcome.quote.price, p.outcome.quote.asOf, ProviderName)))
            && (p.outcome.Threw? ==> r.tickers == st.tickers)
            && (forall other :: other != tk ==> Lookup(r.tickers, other) == Lookup(st.tickers, other))
  {
    var p := Provide(st.quotes, st.usage, limit, ttlMinutes, 0, now, respond(tk));
    if p.outcome.Returned? {
      var row := TickerRow(tk, p.outcome.quote.price, p.outcome.quote.asOf, ProviderName);
      UpsertThenLookup(st.tickers, row);
      forall other | other != tk ensures Lookup(Upsert(st.tickers, row), other) == Lookup(st.tickers, other) {
        UpsertFrame(st.tickers, row, other);
      }
    }
  }

  /** A batch keeps one cache row per ticker, leaves uncalled tickers alone and keeps usage within the limit. */
  lemma {:induction false} FetchAllInvariants(st: Stores, limit: int, ttlMinutes: int, now: int,
                                              tickers: seq<string>, respond: string -> Response)
    requires UniqueTickers(st.tickers)
    requires limit >= 0 && WithinLimit(st.usage, limit)
    ensures var r := FetchAll(st, limit, ttlMinutes, now, tickers, respond);
            && UniqueTickers(r.tickers)
            && WithinLimit(r.usage, limit)
            && (forall other :: other !in tickers ==> Lookup(r.tickers, other) == Lookup(st.tickers, other))
    decreases |tickers|
  {
    if tickers != [] {
      var init, last := tickers[..|tickers| - 1], tickers[|tickers| - 1];
      FetchAllInvariants(st, limit, ttlMinutes, now, init, respond);
      var mid := FetchAll(st, limit, ttlMinutes, now, init, respond);
      var p := Provide(mid.quotes, mid.usage, limit, ttlMinutes, 0, now, respond(last));
      ProvideKeepsWithinLimit(mid.quotes, mid.usage, limit, ttlMinutes, 0, now, respond(last));
      if p.outcome.Returned? {
        UpsertKeepsUnique(mid.tickers, TickerRow(last, p.outcome.quote.price, p.outcome.quote.asOf, ProviderName));
      }
      FetchOneSaves(mid, limit, ttlMinutes, now, last, respond);
    }
  }

  lemma FetchAllSnoc(st: Stores, limit: int, ttlMinutes: int, now: int,
                      xs: seq<string>, t: string, respond: string -> Response)
    ensures FetchAll(st, limit, ttlMinutes, now, xs + [t], respond)
            == FetchOne(FetchAll(st, limit, ttlMinutes, now, xs, respond), limit, ttlMinutes, now, t, respond)
  {
    assert (xs + [t])[..|xs|] == xs;
  }

  lemma {:induction false} FetchAllAppend(st: Stores, limit: int, ttlMinutes: int, now: int,
                                          xs: seq<string>, ys: seq<string>, respond: string -> Response)
    ensures FetchAll(st, limit, ttlMinutes, now, xs + ys, respond)
            == FetchAll(FetchAll(st, limit, ttlMinutes, now, xs, respond), limit, ttlMinutes, now, ys, respond)
    decreases |ys|
  {
    if ys == [] {
      assert xs + ys == xs;
    } else {
      var init, last := ys[..|ys| - 1], ys[|ys| - 1];
      assert xs + ys == (xs + init) + [last];
      assert ys == init + [last];
      FetchAllAppend(st, limit, ttlMinutes, now, xs, init, respond);
      FetchAllSnoc(st, limit, ttlMinutes, now, xs + init, last, respond);
      FetchAllSnoc(FetchAll(st, limit, ttlMinutes, now, xs, respond), limit, ttlMinutes, now, init, last, respond);
    }
  }

  /** One iteration while an asset-0 row is fresh: the cache hit is recorded under the ticker. */
  lemma FreshStep(st: Stores, limit: int, ttlMinutes: int, now: int, tk: string, respond: string -> Response)
    requires Recent(st.quotes, 0, now, Minutes(ttlMinutes)).Some?
    ensures var hit := Recent(st.quotes, 0, now, Minutes(ttlMinutes)).value;
            var r := FetchOne(st, limit, ttlMinutes, now, tk, respond);
            && r.quotes == st.quotes && r.usage == st.usage
            && r.tickers == Upsert(st.tickers, TickerRow(tk, hit.0, hit.1, ProviderName))
  {
    FreshHitShortCircuits(st.quotes, st.usage, limit, ttlMinutes, 0, now, respond(tk));
  }

  /**
   * As written every call goes to asset 0 of the quote cache, so while an
   * asset-0 row is fresh the batch makes no remote call and records that
   * row's price for every ticker it calls.
   */
  lemma {:induction false} FreshAssetZeroSharedByAll(st: Stores, limit: int, ttlMinutes: int, now: int,
                                                     tickers: seq<string>, respond: string -> Response)
    requires Recent(st.quotes, 0, now, Minutes(ttlMinutes)).Some?
    ensures var hit := Recent(st.quotes, 0, now, Minutes(ttlMinutes)).value;
            var r := FetchAll(st, limit, ttlMinutes, now, tickers, respond);
            && r.quotes == st.quotes && r.usage == st.usage
            && forall t :: t in tickers ==> Lookup(r.tickers, t) == Some(TickerRow(t, hit.0, hit.1, ProviderName))
    decreases |tickers|
  {
    if tickers != [] {
      var hit := Recent(st.quotes, 0, now, Minutes(ttlMinutes)).value;
      var init, last := tickers[..|tickers| - 1], tickers[|tickers| - 1];
      FreshAssetZeroSharedByAll(st, limit, ttlMinutes, now, init, respond);
      var mid := FetchAll(st, limit, ttlMinutes, now, init, respond);
      var r := FetchAll(st, limit, ttlMinutes, now, tickers, respond);
      assert r == FetchOne(mid, limit, ttlMinutes, now, last, respond);
      FreshStep(mid, limit, ttlMinutes, now, last, respond);
      var row := TickerRow(last, hit.0, hit.1, ProviderName);
      assert r.tickers == Upsert(mid.tickers, row);
      UpsertThenLookup(mid.tickers, row);
      assert tickers == init + [last];
      forall t | t in tickers
        ensures Lookup(r.tickers, t) == Some(TickerRow(t, hit.0, hit.1, ProviderName))
      {
        if t != last {
          assert t in init;
          UpsertFrame(mid.tickers, row, t);
        }
      }
    }
  }

  /** A first fetch that parses leaves its price as the fresh asset-0 row. */
  lemma FirstFetchSaved(st: Stores, limit: int, ttlMinutes: int, now: int, first: string, respond: string -> Response)
    requires ttlMinutes >= 0
    requires Recent(st.quotes, 0, now, Minutes(ttlMinutes)).None?
    requires Consume(st.usage, limit, DateOf(now), 1).1
    requires Interpret(respond(first)).Price?
    ensures var one := FetchAll(st, limit, ttlMinutes, now, [first], respond);
            Recent(one.quotes, 0, now, Minutes(ttlMinutes)) == Some((Interpret(respond(first)).value, now))
  {
    var v := Interpret(respond(first)).value;
    FetchAllSnoc(st, limit, ttlMinutes, now, [], first, respond);
    assert [] + [first] == [first];
    var one := FetchAll(st, limit, ttlMinutes, now, [first], respond);
    assert one == FetchOne(st, limit, ttlMinutes, now, first, respond);
    var p := Provide(st.quotes, st.usage, limit, ttlMinutes, 0, now, respond(first));
    assert p.rows == st.quotes + [PriceRow(0, v, now, ProviderName)];
    FetchOneSaves(st, limit, ttlMinutes, now, first, respond);
    var cutoff := now - Minutes(ttlMinutes);
    SaveAfterMissIsRead(st.quotes, 0, v, now, ProviderName, cutoff, cutoff);
  }

  /**
   * As written the first successful fetch of a batch is saved under asset
   * 0, and every later ticker of that batch then records the first
   * ticker's price instead of its own.
   */
  lemma FirstPriceLeaksToBatch(st: Stores, limit: int, ttlMinutes: int, now: int,
                               first: string, rest: seq<string>, respond: string -> Response)
    requires ttlMinutes >= 0
    requires Recent(st.quotes, 0, now, Minutes(ttlMinutes)).None?
    requires Consume(st.usage, limit, DateOf(now), 1).1
    requires Interpret(respond(first)).Price?
    ensures var v := Interpret(respond(first)).value;
            forall t :: t in rest ==>
              Lookup(FetchAll(st, limit, ttlMinutes, now, [first] + rest, respond).tickers, t)
              == Some(TickerRow(t, v, now, ProviderName))
  {
    var one := FetchAll(st, limit, ttlMinutes, now, [first], respond);
    FirstFetchSaved(st, limit, ttlMinutes, now, first, respond);
    FetchAllAppend(st, limit, ttlMinutes, now, [first], rest, respond);
    FreshAssetZeroSharedByAll(one, limit, ttlMinutes, now, rest, respond);
  }

  /* ---- the batch with per-ticker quote-cache keys ---- */

  /**
   * The evidently intended iteration: the lookup for `tk` uses a quote-cache
   * key of its own, idOf(tk), instead of the asset id 0 shared by every ticker.
   */
  function FetchOneOwn(st: Stores, limit: int, ttlMinutes: int, now: int, idOf: string -> int, tk: string,
                       respond: string -> Response): Stores
  {
    var p := Provide(st.quotes, st.usage, limit, ttlMinutes, idOf(tk), now, respond(tk));
    match p.outcome
    case Threw => Stores(p.rows, p.usage, st.tickers)
    case Returned(q) => Stores(p.rows, p.usage, Upsert(st.tickers, TickerRow(tk, q.price, q.asOf, ProviderName)))
  }

  function FetchAllOwn(st: Stores, limit: int, ttlMinutes: int, now: int, idOf: string -> int,
                       tickers: seq<string>, respond: string -> Response): Stores
    decreases |tickers|
  {
    if tickers == [] then st
    else FetchOneOwn(FetchAllOwn(st, limit, ttlMinutes, now, idOf, tickers[..|tickers| - 1], respond),
                     limit, ttlMinutes, now, idOf, tickers[|tickers| - 1], respond)
  }

  /** RefreshBatch with per-ticker keys: same selection, each ticker looked up under its own key. */
  function BatchOwn(st: Stores, limit: int, ttlMinutes: int, now: int, assetTickers: seq<string>,
                    idOf: string -> int, respond: string -> Response): (seq<string>, Stores)
  {
    var called := Selection(Remaining(st.usage, limit, DateOf(now)), GetTracked(assetTickers, st.tickers));
    (called, FetchAllOwn(st, limit, ttlMinutes, now, idOf, called, respond))
  }

  /** The quote-cache row a successful fetch of `tk` saves, if its response parses. */
  function SavedOf(now: int, idOf: string -> int, tk: string, respond: string -> Response): seq<PriceRow> {
    match Interpret(respond(tk))
    case Price(v) => [PriceRow(idOf(tk), v, now, ProviderName)]
    case _ => []
  }

  /** The quote-cache rows successful fetches of `tickers` save, in order. */
  function SavedRows(now: int, idOf: string -> int, tickers: seq<string>, respond: string -> Response): seq<PriceRow>
    decreases |tickers|
  {
    if tickers == [] then []
    else SavedRows(now, idOf, tickers[..|tickers| - 1], respond) + SavedOf(now, idOf, tickers[|tickers| - 1], respond)
  }

  /** Saved rows carry only the keys of the tickers fetched. */
  lemma {:induction false} SavedRowsAvoid(now: int, idOf: string -> int, tickers: seq<string>,
                                          respond: string -> Response, id: int)
    requires forall i :: 0 <= i < |tickers| ==> idOf(tickers[i]) != id
    ensures forall i :: 0 <= i < |SavedRows(now, idOf, tickers, respond)| ==>
              SavedRows(now, idOf, tickers, respond)[i].assetId != id
    decreases |tickers|
  {
    if tickers != [] {
      var init := tickers[..|tickers| - 1];
      forall i | 0 <= i < |init| ensures idOf(init[i]) != id {
        assert init[i] == tickers[i];
      }
      SavedRowsAvoid(now, idOf, init, respond, id);
    }
  }

  /** One corrected iteration on a miss with quota left: the ticker's own response decides what it records. */
  lemma FetchOneOwnStep(st: Stores, limit: int, ttlMinutes: int, now: int, idOf: string -> int, tk: string,
                        respond: string -> Response)
    requires Recent(st.quotes, idOf(tk), now, Minutes(ttlMinutes)).None?
    requires Consume(st.usage, limit, DateOf(now), 1).1
    ensures var r := FetchOneOwn(st, limit, ttlMinutes, now, idOf, tk, respond);
            && r.quotes == st.quotes + SavedOf(now, idOf, tk, respond)
            && r.usage == Consume(st.usage, limit, DateOf(now), 1).0
            && (Interpret(respond(tk)).Price? ==>
                  Lookup(r.tickers, tk) == Some(TickerRow(tk, Interpret(respond(tk)).value, now, ProviderName)))
            && forall other :: other != tk ==> Lookup(r.tickers, other) == Lookup(st.tickers, other)
  {
    var p := Provide(st.quotes, st.usage, limit, ttlMinutes, idOf(tk), now, respond(tk));
    if p.outcome.Returned? {
      var row := TickerRow(tk, p.outcome.quote.price, p.outcome.quote.asOf, ProviderName);
      UpsertThenLookup(st.tickers, row);
      forall other | other != tk ensures Lookup(Upsert(st.tickers, row), other) == Lookup(st.tickers, other) {
        UpsertFrame(st.tickers, row, other);
      }
    }
    if !Interpret(respond(tk)).Price? {
      assert st.quotes + SavedOf(now, idOf, tk, respond) == st.quotes;
    }
  }

  /** Before the last of `xs`: its key has no fresh row yet and its call is granted. */
  lemma OwnStepReady(st: Stores, limit: int, ttlMinutes: int, now: int, idOf: string -> int,
                     xs: seq<string>, respond: string -> Response)
    requires xs != []
    requires forall i, j :: 0 <= i < j < |xs| ==> idOf(xs[i]) != idOf(xs[j])
    requires Recent(st.quotes, idOf(xs[|xs| - 1]), now, Minutes(ttlMinutes)).None?
    requires |xs| <= Remaining(st.usage, limit, DateOf(now))
    requires var mid := FetchAllOwn(st, limit, ttlMinutes, now, idOf, xs[..|xs| - 1], respond);
             && mid.quotes == st.quotes + SavedRows(now, idOf, xs[..|xs| - 1], respond)
             && UsedOn(mid.usage, DateOf(now)) == UsedOn(st.usage, DateOf(now)) + |xs| - 1
    ensures var mid := FetchAllOwn(st, limit, ttlMinutes, now, idOf, xs[..|xs| - 1], respond);
            && Recent(mid.quotes, idOf(xs[|xs| - 1]), now, Minutes(ttlMinutes)).None?
            && Consume(mid.usage, limit, DateOf(now), 1).1
  {
    var init := xs[..|xs| - 1];
    var id := idOf(xs[|xs| - 1]);
    forall i | 0 <= i < |init| ensures idOf(init[i]) != id {
      assert init[i] == xs[i];
    }
    SavedRowsAvoid(now, idOf, init, respond, id);
    NewestIgnoresOthers(st.quotes, SavedRows(now, idOf, init, respond), id, now - Minutes(ttlMinutes));
    var mid := FetchAllOwn(st, limit, ttlMinutes, now, idOf, init, respond);
    ConsumeOutcome(mid.usage, limit, DateOf(now), 1);
  }

  /** A corrected run with distinct keys, none fresh, and quota for all: every call is granted. */
  lemma {:induction false} FetchAllOwnQuota(st: Stores, limit: int, ttlMinutes: int, now: int, idOf: string -> int,
                                            xs: seq<string>, respond: string -> Response)
    requires forall i, j :: 0 <= i < j < |xs| ==> idOf(xs[i]) != idOf(xs[j])
    requires forall i :: 0 <= i < |xs| ==> Recent(st.quotes, idOf(xs[i]), now, Minutes(ttlMinutes)).None?
    requires |xs| <= Remaining(st.usage, limit, DateOf(now))
    ensures var r := FetchAllOwn(st, limit, ttlMinutes, now, idOf, xs, respond);
            && r.quotes == st.quotes + SavedRows(now, idOf, xs, respond)
            && UsedOn(r.usage, DateOf(now)) == UsedOn(st.usage, DateOf(now)) + |xs|
    decreases |xs|
  {
    if xs == [] {
      assert st.quotes + [] == st.quotes;
    } else {
      var init, last := xs[..|xs| - 1], xs[|xs| - 1];
      forall i, j | 0 <= i < j < |init| ensures idOf(init[i]) != idOf(init[j]) {
        assert init[i] == xs[i] && init[j] == xs[j];
      }
      forall i | 0 <= i < |init| ensures Recent(st.quotes, idOf(init[i]), now, Minutes(ttlMinutes)).None? {
        assert init[i] == xs[i];
      }
      FetchAllOwnQuota(st, limit, ttlMinutes, now, idOf, init, respond);
      OwnStepReady(st, limit, ttlMinutes, now, idOf, xs, respond);
      var mid := FetchAllOwn(st, limit, ttlMinutes, now, idOf, init, respond);
      FetchOneOwnStep(mid, limit, ttlMinutes, now, idOf, last, respond);
      ConsumeOutcome(mid.usage, limit, DateOf(now), 1);
      assert st.quotes + SavedRows(now, idOf, init, respond) + SavedOf(now, idOf, last, respond)
             == st.quotes + SavedRows(now, idOf, xs, respond);
    }
  }

  /** Each of `xs` whose own response parses is recorded in `tickers` at that price and `now`. */
  predicate OwnPricesIn(tickers: seq<TickerRow>, xs: seq<string>, now: int, respond: string -> Response) {
    forall i :: 0 <= i < |xs| && Interpret(respond(xs[i])).Price? ==>
      Lookup(tickers, xs[i]) == Some(TickerRow(xs[i], Interpret(respond(xs[i])).value, now, ProviderName))
  }

  /** Recording the last ticker while leaving the others alone extends OwnPricesIn to all of `xs`. */
  lemma OwnPricesSnoc(before: seq<TickerRow>, after: seq<TickerRow>, xs: seq<string>, now: int,
                      respond: string -> Response)
    requires xs != []
    requires forall i :: 0 <= i < |xs| - 1 ==> xs[i] != xs[|xs| - 1]
    requires OwnPricesIn(before, xs[..|xs| - 1], now, respond)
    requires forall other :: other != xs[|xs| - 1] ==> Lookup(after, other) == Lookup(before, other)
    requires Interpret(respond(xs[|xs| - 1])).Price? ==>
               Lookup(after, xs[|xs| - 1])
               == Some(TickerRow(xs[|xs| - 1], Interpret(respond(xs[|xs| - 1])).value, now, ProviderName))
    ensures OwnPricesIn(after, xs, now, respond)
  {
    var init := xs[..|xs| - 1];
    forall i | 0 <= i < |xs| && Interpret(respond(xs[i])).Price?
      ensures Lookup(after, xs[i]) == Some(TickerRow(xs[i], Interpret(respond(xs[i])).value, now, ProviderName))
    {
      if i < |init| {
        assert init[i] == xs[i];
        assert Lookup(after, xs[i]) == Lookup(before, xs[i]);
      }
    }
  }

  /**
   * A corrected run over tickers with distinct keys, none fresh, and quota
   * for all of them: each ticker whose response parses records its own
   * price at `now`.
   */
  lemma {:induction false} FetchAllOwnFacts(st: Stores, limit: int, ttlMinutes: int, now: int, idOf: string -> int,
                                            xs: seq<string>, respond: string -> Response)
    requires forall i, j :: 0 <= i < j < |xs| ==> idOf(xs[i]) != idOf(xs[j])
    requires forall i :: 0 <= i < |xs| ==> Recent(st.quotes, idOf(xs[i]), now, Minutes(ttlMinutes)).None?
    requires |xs| <= Remaining(st.usage, limit, DateOf(now))
    ensures OwnPricesIn(FetchAllOwn(st, limit, ttlMinutes, now, idOf, xs, respond).tickers, xs, now, respond)
    decreases |xs|
  {
    if xs != [] {
      var init, last := xs[..|xs| - 1], xs[|xs| - 1];
      forall i, j | 0 <= i < j < |init| ensures idOf(init[i]) != idOf(init[j]) {
        assert init[i] == xs[i] && init[j] == xs[j];
      }
      forall i | 0 <= i < |init| ensures Recent(st.quotes, idOf(init[i]), now, Minutes(ttlMinutes)).None? {
        assert init[i] == xs[i];
      }
      forall i | 0 <= i < |xs| - 1 ensures xs[i] != last {
        assert idOf(xs[i]) != idOf(xs[|xs| - 1]);
      }
      FetchAllOwnFacts(st, limit, ttlMinutes, now, idOf, init, respond);
      FetchAllOwnQuota(st, limit, ttlMinutes, now, idOf, init, respond);
      OwnStepReady(st, limit, ttlMinutes, now, idOf, xs, respond);
      var mid := FetchAllOwn(st, limit, ttlMinutes, now, idOf, init, respond);
      FetchOneOwnStep(mid, limit, ttlMinutes, now, idOf, last, respond);
      OwnPricesSnoc(mid.tickers, FetchOneOwn(mid, limit, ttlMinutes, now, idOf, last, respond).tickers, xs, now, respond);
    }
  }

  /**
   * The intended behaviour of RefreshBatch: when the tickers have distinct
   * quote-cache keys and none is fresh, every called ticker whose own
   * response parses records its own price, whatever the others returned.
   */
  lemma BatchRecordsOwnPrices(st: Stores, limit: int, ttlMinutes: int, now: int, assetTickers: seq<string>,
                              idOf: string -> int, respond: string -> Response)
    requires forall a, b :: a in assetTickers && b in assetTickers && a != b ==> idOf(a) != idOf(b)
    requires forall t :: t in assetTickers ==> Recent(st.quotes, idOf(t), now, Minutes(ttlMinutes)).None?
    ensures var (called, r) := BatchOwn(st, limit, ttlMinutes, now, assetTickers, idOf, respond);
            forall t :: t in called && Interpret(respond(t)).Price? ==>
              Lookup(r.tickers, t) == Some(TickerRow(t, Interpret(respond(t)).value, now, ProviderName))
  {
    var remaining := Remaining(st.usage, limit, DateOf(now));
    var tracked := GetTracked(assetTickers, st.tickers);
    var called := Selection(remaining, tracked);
    SelectionCovers(remaining, assetTickers, st.tickers);
    forall i, j | 0 <= i < j < |called| ensures idOf(called[i]) != idOf(called[j]) {
      assert called[i] in assetTickers && called[j] in assetTickers;
    }
    forall i | 0 <= i < |called| ensures Recent(st.quotes, idOf(called[i]), now, Minutes(ttlMinutes)).None? {
      assert called[i] in assetTickers;
    }
    FetchAllOwnFacts(st, limit, ttlMinutes, now, idOf, called, respond);
    forall t | t in called && Interpret(respond(t)).Price?
      ensures Lookup(FetchAllOwn(st, limit, ttlMinutes, now, idOf, called, respond).tickers, t)
              == Some(TickerRow(t, Interpret(respond(t)).value, now, ProviderName))
    {
      var k :| 0 <= k < |called| && called[k] == t;
    }
  }

  /** QuoteIngestionWorker over the provider it resolves and the per-ticker cache it fills. */
  class QuoteIngestionWorker {
    const opt: B3ScheduleOptions
    const provider: AlphaVantageQuoteProvider
    const tickerCache: DbTickerPriceCache
    var lastRunDate: int
    var didOpenRun: bool
    var didCloseRun: bool
    var lastHourly: int

    function State(): Schedule
      reads this
    {
      Schedule(lastRunDate, didOpenRun, didCloseRun, lastHourly)
    }

    function StoresNow(): Stores
      reads this, provider, provider.cache, provider.limiter, tickerCache
    {
      Stores(provider.cache.rows, provider.limiter.usage, tickerCache.rows)
    }

    constructor (opt: B3ScheduleOptions, provider: AlphaVantageQuoteProvider, tickerCache: DbTickerPriceCache)
      ensures this.opt == opt && this.provider == provider && this.tickerCache == tickerCache
      ensures State() == InitialSchedule
    {
      this.opt := opt;
      this.provider := provider;
      this.tickerCache := tickerCache;
      lastRunDate := 0;
      didOpenRun := false;
      didCloseRun := false;
      lastHourly := MinValue;
    }

    /**
     * Tick at local instant `nowLocal` (UTC instant `nowUtc`), with the
     * tickers of all asset rows and the vendor's answer for each ticker.
     */
    method Tick(nowLocal: int, nowUtc: int, assetTickers: seq<string>, respond: string -> Response)
      returns (reason: Option<Reason>, called: seq<string>)
      requires tickerCache.Valid()
      modifies this, provider.cache, provider.limiter, tickerCache
      ensures tickerCache.Valid()
      ensures (reason, State()) == Plan(old(State()), nowLocal, opt)
      ensures reason.None? ==> called == [] && StoresNow() == old(StoresNow())
      ensures reason.Some? ==>
                (called, StoresNow()) == Batch(old(StoresNow()), provider.limiter.dailyLimit,
                                               provider.options.cacheTtlMinutes, nowUtc, assetTickers, respond)
    {
      var today := DateOf(nowLocal);
      if today != lastRunDate {
        lastRunDate := today;
        didOpenRun := false;
        didCloseRun := false;
        lastHourly := MinValue;
      }
      var nowTod := TimeOfDay(nowLocal);
      var inSession := nowTod >= opt.open && nowTod <= opt.close;
      if !didOpenRun && Near(nowTod, opt.open, NearToleranceMinutes) {
        called := RefreshBatch(nowUtc, assetTickers, respond);
        didOpenRun := true;
        return Some(Open), called;
      }
      if !didCloseRun && Near(nowTod, opt.close, NearToleranceMinutes) {
        called := RefreshBatch(nowUtc, assetTickers, respond);
        didCloseRun := true;
        return Some(Close), called;
      }
      if inSession && nowLocal - lastHourly >= opt.hourlyMinutes * TicksPerMinute {
        called := RefreshBatch(nowUtc, assetTickers, respond);
        lastHourly := nowLocal;
        return Some(Hourly), called;
      }
      return None, [];
    }

    /** RefreshBatch at UTC instant `nowUtc`: returns the tickers it called, in order. */
    method RefreshBatch(nowUtc: int, assetTickers: seq<string>, respond: string -> Response)
      returns (called: seq<string>)
      requires tickerCache.Valid()
      modifies provider.cache, provider.limiter, tickerCache
      ensures tickerCache.Valid()
      ensures (called, StoresNow()) == Batch(old(StoresNow()), provider.limiter.dailyLimit,
                                             provider.options.cacheTtlMinutes, nowUtc, assetTickers, respond)
    {
      var limit := provider.limiter.dailyLimit;
      var ttl := provider.options.cacheTtlMinutes;
      ghost var st0 := StoresNow();
      called := [];
      var remaining := provider.limiter.GetRemaining(nowUtc);
      if remaining <= 0 {
        return;
      }
      var tracked := GetTracked(assetTickers, tickerCache.rows);
      var ordered := Order(tracked);
      var toCall := Min(remaining, |ordered|);
      if toCall <= 0 {
        return;
      }
      ghost var selection := Selection(remaining, tracked);
      assert |selection| == toCall;
      var i := 0;
      while i < toCall
        invariant 0 <= i <= toCall
        invariant called == selection[..i]
        invariant tickerCache.Valid()
        invariant StoresNow() == FetchAll(st0, limit, ttl, nowUtc, called, respond)
      {
        var tk := ordered[i].ticker;
        var o := provider.GetQuote(0, tk, nowUtc, respond(tk));
        if o.Returned? {
          tickerCache.Save(tk, o.quote.price, o.quote.asOf, ProviderName);
        }
        assert selection[..i + 1] == called + [tk];
        called := called + [tk];
        i := i + 1;
      }
      assert called == selection;
    }
  }
}
