/**
 * DbTrackedTickers: the symbols worth refreshing. The asset rows are grouped
 * by ticker with a count (the popularity), and each group is joined with the
 * AsOf of the ticker's price-cache row, if any. Read-only.
 */
module TrackedTickers {
  import opened Wrappers
  import opened TickerPriceCache

  /** One GroupBy(Ticker) group: its key and its Count(). */
  datatype Group = Group(ticker: string, count: nat)

  datatype Tracked = Tracked(ticker: string, popularity: int, lastAsOf: Option<int>)

  /** Adds one asset row with ticker t to the groups: bump t's group, or open a new group at the end. */
  function Bump(groups: seq<Group>, t: string): seq<Group>
    decreases |groups|
  {
    if groups == [] then [Group(t, 1)]
    else if groups[0].ticker == t then [groups[0].(count := groups[0].count + 1)] + groups[1..]
    else [groups[0]] + Bump(groups[1..], t)
  }

  /** GroupBy(a => a.Ticker).Select(g => (g.Key, g.Count())), groups in order of first appearance. */
  function Groups(tickers: seq<string>): seq<Group>
    decreases |tickers|
  {
    if tickers == [] then [] else Bump(Groups(tickers[..|tickers| - 1]), tickers[|tickers| - 1])
  }

  function Keys(groups: seq<Group>): set<string>
    decreases |groups|
  {
    if groups == [] then {} else {groups[0].ticker} + Keys(groups[1..])
  }

  predicate DistinctKeys(groups: seq<Group>)
    decreases |groups|
  {
    groups == [] || (groups[0].ticker !in Keys(groups[1..]) && DistinctKeys(groups[1..]))
  }

  /** The count of the group with key t, 0 when there is none. */
  function CountOf(groups: seq<Group>, t: string): nat
    decreases |groups|
  {
    if groups == [] then 0 else if groups[0].ticker == t then groups[0].count else CountOf(groups[1..], t)
  }

  function Total(groups: seq<Group>): nat
    decreases |groups|
  {
    if groups == [] then 0 else groups[0].count + Total(groups[1..])
  }

  lemma {:induction false} BumpEffect(groups: seq<Group>, t: string)
    ensures Keys(Bump(groups, t)) == Keys(groups) + {t}
    ensures Total(Bump(groups, t)) == Total(groups) + 1
    ensures DistinctKeys(groups) ==> DistinctKeys(Bump(groups, t))
    ensures forall u :: CountOf(Bump(groups, t), u) == CountOf(groups, u) + (if u == t then 1 else 0)
    decreases |groups|
  {
    if groups != [] && groups[0].ticker != t {
      BumpEffect(groups[1..], t);
    }
    if groups != [] && groups[0].ticker == t {
      assert Bump(groups, t)[1..] == groups[1..];
    }
  }

  /**
   * The grouping has one group per distinct ticker, its count is the number
   * of asset rows with that ticker, and the counts add up to the number of rows.
   */
  lemma {:induction false} GroupsCorrect(tickers: seq<string>)
    ensures DistinctKeys(Groups(tickers))
    ensures Keys(Groups(tickers)) == set t | t in tickers
    ensures forall u :: CountOf(Groups(tickers), u) == multiset(tickers)[u]
    ensures Total(Groups(tickers)) == |tickers|
    decreases |tickers|
  {
    if tickers != [] {
      var init := tickers[..|tickers| - 1];
      var last := tickers[|tickers| - 1];
      assert tickers == init + [last];
      GroupsCorrect(init);
      BumpEffect(Groups(init), last);
      assert multiset(tickers) == multiset(init) + multiset{last};
    }
  }

  /** In groups with distinct keys, position i holds the group of its key, and keys are pairwise different. */
  lemma {:induction false} DistinctGroupsAt(groups: seq<Group>, i: nat)
    requires DistinctKeys(groups) && i < |groups|
    ensures CountOf(groups, groups[i].ticker) == groups[i].count
    ensures groups[i].ticker in Keys(groups)
    ensures forall j :: i < j < |groups| ==> groups[j].ticker != groups[i].ticker
    decreases |groups|
  {
    if i > 0 {
      DistinctGroupsAt(groups[1..], i - 1);
    } else {
      forall j | 0 < j < |groups| ensures groups[j].ticker != groups[0].ticker {
        KeyAt(groups[1..], j - 1);
      }
    }
  }

  lemma {:induction false} KeyAt(groups: seq<Group>, i: nat)
    requires i < |groups|
    ensures groups[i].ticker in Keys(groups)
    decreases |groups|
  {
    if i > 0 {
      KeyAt(groups[1..], i - 1);
    }
  }

  lemma {:induction false} KeyHasIndex(groups: seq<Group>, t: string)
    requires t in Keys(groups)
    ensures exists i :: 0 <= i < |groups| && groups[i].ticker == t
    decreases |groups|
  {
    if groups[0].ticker != t {
      KeyHasIndex(groups[1..], t);
      var i :| 0 <= i < |groups[1..]| && groups[1..][i].ticker == t;
      assert groups[i + 1].ticker == t;
    }
  }

  /** The AsOf of the ticker's price-cache row, None when the ticker was never cached. */
  function LastAsOf(cache: seq<TickerRow>, ticker: string): Option<int> {
    match Lookup(cache, ticker)
    case None => None
    case Some(row) => Some(row.asOf)
  }

  /** GetTrackedAsync over the tickers of all asset rows and the ticker price cache. */
  function GetTracked(assetTickers: seq<string>, cache: seq<TickerRow>): seq<Tracked> {
    var groups := Groups(assetTickers);
    seq(|groups|, i requires 0 <= i < |groups| =>
      Tracked(groups[i].ticker, groups[i].count, LastAsOf(cache, groups[i].ticker)))
  }

  function SumPopularity(tracked: seq<Tracked>): int
    decreases |tracked|
  {
    if tracked == [] then 0 else tracked[0].popularity + SumPopularity(tracked[1..])
  }

  lemma {:induction false} SumMatchesTotal(tracked: seq<Tracked>, groups: seq<Group>)
    requires |tracked| == |groups|
    requires forall i :: 0 <= i < |groups| ==> tracked[i].popularity == groups[i].count
    ensures SumPopularity(tracked) == Total(groups)
    decreases |groups|
  {
    if groups != [] {
      SumMatchesTotal(tracked[1..], groups[1..]);
    }
  }

  /**
   * GetTracked yields exactly one entry per distinct ticker among the asset
   * rows (so tickers that only have a cache row do not appear), each
   * popularity counts the asset rows with that ticker, the popularities add
   * up to the number of asset rows, and lastAsOf is the cache row's AsOf.
   */
  lemma TrackedCorrect(assetTickers: seq<string>, cache: seq<TickerRow>)
    ensures var r := GetTracked(assetTickers, cache);
      && (forall i, j :: 0 <= i < j < |r| ==> r[i].ticker != r[j].ticker)
      && (forall i :: 0 <= i < |r| ==> r[i].ticker in assetTickers)
      && (forall t :: t in assetTickers ==> exists i :: 0 <= i < |r| && r[i].ticker == t)
      && (forall i :: 0 <= i < |r| ==> r[i].popularity == multiset(assetTickers)[r[i].ticker] >= 1)
      && SumPopularity(r) == |assetTickers|
      && (forall i :: 0 <= i < |r| ==> r[i].lastAsOf == LastAsOf(cache, r[i].ticker))
  {
    var groups := Groups(assetTickers);
    var r := GetTracked(assetTickers, cache);
    GroupsCorrect(assetTickers);
    forall i, j | 0 <= i < j < |r| ensures r[i].ticker != r[j].ticker {
      DistinctGroupsAt(groups, i);
    }
    forall i | 0 <= i < |r| ensures r[i].ticker in assetTickers && r[i].popularity == multiset(assetTickers)[r[i].ticker] >= 1 {
      DistinctGroupsAt(groups, i);
      assert r[i].ticker in set t | t in assetTickers;
    }
    forall t | t in assetTickers ensures exists i :: 0 <= i < |r| && r[i].ticker == t {
      assert t in Keys(groups);
      KeyHasIndex(groups, t);
      var i :| 0 <= i < |groups| && groups[i].ticker == t;
      assert r[i].ticker == t;
    }
    SumMatchesTotal(r, groups);
  }
}
