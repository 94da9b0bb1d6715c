/**
 * DbQuoteLimiter: the shared daily budget of remote quote calls. The
 * quote_daily_usage table is a map from a UTC day number to the number of
 * tokens used that day; a day's row is created lazily with used = 0.
 */
module QuoteLimiter {
  import opened Clock
  import opened Numerics

  /** quote_daily_usage: UTC day -> used. */
  type Usage = map<int, int>

  /** The used count of a day; a missing row counts as 0. */
  function UsedOn(usage: Usage, day: int): int {
    if day in usage then usage[day] else 0
  }

  /** The limit the limiter enforces: the configured DailyLimit, floored at 0. */
  function EffectiveLimit(configured: int): (limit: int)
    ensures limit >= 0
    ensures configured >= 0 ==> limit == configured
    ensures configured < 0 ==> limit == 0
  {
    Max(0, configured)
  }

  /** INSERT ... ON CONFLICT (day) DO NOTHING: make sure the day's row exists. */
  function EnsureRow(usage: Usage, day: int): Usage {
    if day in usage then usage else usage[day := 0]
  }

  /**
   * TryConsume on a given day, as one atomic step: create the day's row if
   * absent, then add `tokens` to it only when the sum stays within the limit.
   * Returns the new table and whether the update matched a row.
   */
  function Consume(usage: Usage, limit: int, day: int, tokens: int): (Usage, bool) {
    var u := EnsureRow(usage, day);
    if u[day] + tokens <= limit then (u[day := u[day] + tokens], true) else (u, false)
  }

  /** GetRemaining on a given day: the budget still available, never negative. */
  function Remaining(usage: Usage, limit: int, day: int): (r: int)
    ensures r >= 0
    ensures r == 0 <==> UsedOn(usage, day) >= limit
    ensures UsedOn(usage, day) <= limit ==> r + UsedOn(usage, day) == limit
  {
    Max(0, limit - UsedOn(usage, day))
  }

  /** Every day's used count is within the limit. */
  predicate WithinLimit(usage: Usage, limit: int) {
    forall d :: d in usage ==> usage[d] <= limit
  }

  /** Every day's used count is non-negative. */
  predicate NonNegative(usage: Usage) {
    forall d :: d in usage ==> 0 <= usage[d]
  }

  /** A consume succeeds exactly when used + tokens stays within the limit; only then does used grow, by exactly `tokens`. */
  lemma ConsumeOutcome(usage: Usage, limit: int, day: int, tokens: int)
    ensures Consume(usage, limit, day, tokens).1 <==> UsedOn(usage, day) + tokens <= limit
    ensures day in Consume(usage, limit, day, tokens).0
    ensures UsedOn(Consume(usage, limit, day, tokens).0, day)
            == UsedOn(usage, day) + (if Consume(usage, limit, day, tokens).1 then tokens else 0)
  {
  }

  /** Only the current day's row is touched; every other day keeps its row (or its absence). */
  lemma ConsumeFrame(usage: Usage, limit: int, day: int, tokens: int, other: int)
    requires other != day
    ensures var u := Consume(usage, limit, day, tokens).0;
            (other in u <==> other in usage) && (other in usage ==> u[other] == usage[other])
  {
  }

  /** Creating the day's row is idempotent. */
  lemma EnsureRowIdempotent(usage: Usage, day: int)
    ensures EnsureRow(EnsureRow(usage, day), day) == EnsureRow(usage, day)
    ensures day in usage ==> EnsureRow(usage, day) == usage
  {
  }

  /** A consume never lets any day exceed the limit, whatever the tokens. */
  lemma ConsumeKeepsWithinLimit(usage: Usage, limit: int, day: int, tokens: int)
    requires limit >= 0 && WithinLimit(usage, limit)
    ensures WithinLimit(Consume(usage, limit, day, tokens).0, limit)
  {
  }

  /** With non-negative tokens, no count ever goes negative. */
  lemma ConsumeKeepsNonNegative(usage: Usage, limit: int, day: int, tokens: int)
    requires tokens >= 0 && NonNegative(usage)
    ensures NonNegative(Consume(usage, limit, day, tokens).0)
  {
  }

  /** With a limit of 0 there is no unlimited mode: every positive request fails. */
  lemma ZeroLimitRefusesAll(usage: Usage, day: int, tokens: int)
    requires NonNegative(usage) && tokens >= 1
    ensures !Consume(usage, 0, day, tokens).1
  {
  }

  /** A one-token consume succeeds exactly when GetRemaining reports at least one call left. */
  lemma ConsumeOneIffRemaining(usage: Usage, limit: int, day: int)
    ensures Consume(usage, limit, day, 1).1 <==> Remaining(usage, limit, day) >= 1
  {
  }

  /** After a successful consume the remaining budget drops by exactly the tokens spent. */
  lemma ConsumeLowersRemaining(usage: Usage, limit: int, day: int, tokens: int)
    requires UsedOn(usage, day) <= limit && tokens >= 0
    requires Consume(usage, limit, day, tokens).1
    ensures Remaining(Consume(usage, limit, day, tokens).0, limit, day) == Remaining(usage, limit, day) - tokens
  {
  }

  /** The tokens granted to a series of requests on one day, and the table after them. */
  function ConsumeAll(usage: Usage, limit: int, day: int, requests: seq<int>): (r: (Usage, int))
    decreases |requests|
  {
    if requests == [] then (usage, 0)
    else
      var (u, ok) := Consume(usage, limit, day, requests[0]);
      var (u', granted) := ConsumeAll(u, limit, day, requests[1..]);
      (u', granted + if ok then requests[0] else 0)
  }

  /**
   * However many non-negative requests arrive on a day, the tokens granted
   * never exceed what GetRemaining reported before the first of them.
   */
  lemma {:induction false} GrantedWithinRemaining(usage: Usage, limit: int, day: int, requests: seq<int>)
    requires UsedOn(usage, day) <= limit
    requires forall i :: 0 <= i < |requests| ==> requests[i] >= 0
    ensures 0 <= ConsumeAll(usage, limit, day, requests).1 <= Remaining(usage, limit, day)
    ensures ConsumeAll(usage, limit, day, requests).1
            == UsedOn(ConsumeAll(usage, limit, day, requests).0, day) - UsedOn(usage, day)
    decreases |requests|
  {
    if requests != [] {
      var (u, ok) := Consume(usage, limit, day, requests[0]);
      ConsumeOutcome(usage, limit, day, requests[0]);
      GrantedWithinRemaining(u, limit, day, requests[1..]);
    }
  }

  /** DbQuoteLimiter: the usage table and the effective limit fixed at construction. */
  class DbQuoteLimiter {
    var usage: Usage
    const dailyLimit: int

    constructor (existing: Usage, configuredDailyLimit: int)
      ensures usage == existing
      ensures dailyLimit == EffectiveLimit(configuredDailyLimit)
    {
      usage := existing;
      dailyLimit := Max(0, configuredDailyLimit);
    }

    /** TryConsumeAsync(tokens) at UTC instant `nowUtc`. */
    method TryConsume(nowUtc: int, tokens: int) returns (consumed: bool)
      modifies this
      ensures (usage, consumed) == Consume(old(usage), dailyLimit, DateOf(nowUtc), tokens)
    {
      var day := DateOf(nowUtc);
      if day !in usage {
        usage := usage[day := 0];
      }
      if usage[day] + tokens <= dailyLimit {
        usage := usage[day := usage[day] + tokens];
        consumed := true;
      } else {
        consumed := false;
      }
    }

    /** GetRemainingAsync at UTC instant `nowUtc`; reads the table and changes nothing. */
    method GetRemaining(nowUtc: int) returns (remaining: int)
      ensures remaining == Remaining(usage, dailyLimit, DateOf(nowUtc))
    {
      var day := DateOf(nowUtc);
      var used := if day in usage then usage[day] else 0;
      remaining := Max(0, dailyLimit - used);
    }
  }
}
