/**
 * SymbolsController.Search: normalise the query, answer from the in-memory
 * cache when the key is there, otherwise keep the first ten usable entries
 * of the vendor's SYMBOL_SEARCH "bestMatches" and cache them.
 */
module Symbols {
  import opened Wrappers
  import opened Text

  /** The most entries a search returns. */
  const MaxResults := 10

  /** The shortest trimmed query that is searched. */
  const MinQueryLength := 3

  /** A member of a match object read with GetString(). */
  datatype Field =
    | Missing                 // TryGetProperty fails: null
    | Null                    // JSON null: GetString() gives null
    | NotText                 // any other non-string value: GetString() throws
    | Text(text: string)

  /**
   * One element of "bestMatches": "1. symbol", "2. name", "4. region", "8. currency".
   * An element that is not an object makes TryGetProperty throw; it is
   * represented by a match whose fields are NotText.
   */
  datatype RawMatch = RawMatch(symbol: Field, name: Field, region: Field, currency: Field)

  /** The "bestMatches" member of the body. */
  datatype BestMatches = MatchesMissing | MatchesNotArray | MatchArray(items: seq<RawMatch>)

  /**
   * The remote call. Fault is a transport error, a non-2xx status, a body
   * that is not JSON, or a JSON body whose root is not an object; each throws.
   */
  datatype SearchResponse = Fault | Body(bestMatches: BestMatches)

  /** An entry of the answer. */
  datatype SymbolMatch = SymbolMatch(symbol: string, name: string, region: Option<string>, currency: Option<string>)

  /** Search answers with a list, or throws. */
  datatype SearchOutcome = Found(matches: seq<SymbolMatch>) | Threw

  function Value(f: Field): Option<string> {
    match f
    case Text(s) => Some(s)
    case _ => None
  }

  predicate Throws(m: RawMatch) {
    m.symbol.NotText? || m.name.NotText? || m.region.NotText? || m.currency.NotText?
  }

  /** An entry is kept when its symbol and its name are neither null nor blank. */
  predicate Kept(m: RawMatch) {
    !IsNullOrWhiteSpace(Value(m.symbol)) && !IsNullOrWhiteSpace(Value(m.name))
  }

  function ToMatch(m: RawMatch): SymbolMatch
    requires Kept(m)
  {
    SymbolMatch(Value(m.symbol).value, Value(m.name).value, Value(m.region), Value(m.currency))
  }

  /** The query is not searched: null, blank, or shorter than three once trimmed. */
  predicate Ignored(q: Option<string>) {
    IsNullOrWhiteSpace(q) || Utf16Length(Trim(q.value)) < MinQueryLength
  }

  /** The cache key "sym:" + the trimmed, upper-cased term. */
  function Key(q: string): string {
    "sym:" + ToUpperInvariant(Trim(q))
  }

  /**
   * The foreach over the array from `items` on, with `list` collected so
   * far: a GetString() that throws ends the search, and the loop breaks
   * once ten entries are collected.
   */
  function Scan(items: seq<RawMatch>, list: seq<SymbolMatch>): Option<seq<SymbolMatch>>
    decreases |items|
  {
    if items == [] then Some(list)
    else if Throws(items[0]) then None
    else
      var list' := list + if Kept(items[0]) then [ToMatch(items[0])] else [];
      if |list'| >= MaxResults then Some(list') else Scan(items[1..], list')
  }

  /** Every usable entry, in array order: the reference the scan is measured against. */
  function Usable(items: seq<RawMatch>): (r: seq<SymbolMatch>)
    ensures |r| <= |items|
    decreases |items|
  {
    if items == [] then []
    else (if Kept(items[0]) then [ToMatch(items[0])] else []) + Usable(items[1..])
  }

  function Take(s: seq<SymbolMatch>, n: nat): seq<SymbolMatch> {
    if |s| <= n then s else s[..n]
  }

  /**
   * Without a throwing entry the scan yields the first ten usable entries
   * in array order, appended to what it had collected.
   */
  lemma {:induction false} ScanTakesFirstUsable(items: seq<RawMatch>, list: seq<SymbolMatch>)
    requires |list| < MaxResults
    requires forall i :: 0 <= i < |items| ==> !Throws(items[i])
    ensures Scan(items, list) == Some(Take(list + Usable(items), MaxResults))
    decreases |items|
  {
    if items != [] {
      var head := if Kept(items[0]) then [ToMatch(items[0])] else [];
      var list' := list + head;
      var rest := Usable(items[1..]);
      assert Usable(items) == head + rest;
      assert list + Usable(items) == list' + rest;
      if |list'| >= MaxResults {
        assert |list'| == MaxResults;
        assert Take(list' + rest, MaxResults) == list' by {
          if rest == [] {
            assert list' + rest == list';
          } else {
            assert (list' + rest)[..MaxResults] == list';
          }
        }
      } else {
        ScanTakesFirstUsable(items[1..], list');
      }
    } else {
      assert list + Usable(items) == list;
    }
  }

  /** The scan never holds more than ten entries, each with a non-blank symbol and name. */
  lemma {:induction false} ScanBounded(items: seq<RawMatch>, list: seq<SymbolMatch>)
    requires |list| < MaxResults
    requires forall k :: 0 <= k < |list| ==> !AllWhiteSpace(list[k].symbol) && !AllWhiteSpace(list[k].name)
    ensures Scan(items, list).Some? ==>
              var r := Scan(items, list).value;
              && |list| <= |r| <= MaxResults && r[..|list|] == list
              && forall k :: 0 <= k < |r| ==> !AllWhiteSpace(r[k].symbol) && !AllWhiteSpace(r[k].name)
    decreases |items|
  {
    if items != [] && !Throws(items[0]) {
      var list' := list + if Kept(items[0]) then [ToMatch(items[0])] else [];
      assert list'[..|list|] == list;
      if |list'| < MaxResults {
        ScanBounded(items[1..], list');
        if Scan(items, list).Some? {
          var r := Scan(items, list).value;
          assert r[..|list'|] == list';
          assert r[..|list|] == list'[..|list|];
        }
      }
    }
  }

  /** The list a fetched body yields: empty without an array, else the scan; None when it throws. */
  function Collect(bestMatches: BestMatches): Option<seq<SymbolMatch>> {
    match bestMatches
    case MatchArray(items) => Scan(items, [])
    case _ => Some([])
  }

  /** Search(q) with the cache contents; `response` is used only when the vendor is called. */
  function Answer(cache: map<string, seq<SymbolMatch>>, q: Option<string>, response: SearchResponse)
    : (SearchOutcome, map<string, seq<SymbolMatch>>)
  {
    if Ignored(q) then (Found([]), cache)
    else
      var key := Key(q.value);
      if key in cache then (Found(cache[key]), cache)
      else if response.Fault? then (Threw, cache)
      else match Collect(response.bestMatches)
        case None => (Threw, cache)
        case Some(list) => (Found(list), cache[key := list])
  }

  /** An ignored query answers an empty list and touches neither the cache nor the vendor. */
  lemma IgnoredQuery(cache: map<string, seq<SymbolMatch>>, q: Option<string>, response: SearchResponse, other: SearchResponse)
    requires Ignored(q)
    ensures Answer(cache, q, response) == (Found([]), cache)
    ensures Answer(cache, q, response) == Answer(cache, q, other)
  {
  }

  /**
   * The length test counts UTF-16 code units: two characters outside the
   * Basic Multilingual Plane are searched, two ASCII letters are not.
   */
  lemma QueryLengthInCodeUnits()
    ensures !Ignored(Some("\U{1D538}\U{1D538}"))
    ensures Ignored(Some("ab"))
  {
    var astral := "\U{1D538}\U{1D538}";
    assert !IsWhiteSpace(astral[0]) && !IsWhiteSpace(astral[1]);
    assert TrimStart(astral) == astral;
    assert TrimEnd(astral) == astral;
    assert astral[..1][..0] == [];
    assert Utf16Length(astral) == 4;
    var ab := "ab";
    assert !IsWhiteSpace(ab[0]) && !IsWhiteSpace(ab[1]);
    assert TrimStart(ab) == ab && TrimEnd(ab) == ab;
    assert ab[..1][..0] == [];
    assert Utf16Length(ab) == 2;
  }

  /** A cache hit answers the cached list whatever the vendor would have said. */
  lemma CacheHitNoFetch(cache: map<string, seq<SymbolMatch>>, q: Option<string>, response: SearchResponse)
    requires !Ignored(q) && Key(q.value) in cache
    ensures Answer(cache, q, response) == (Found(cache[Key(q.value)]), cache)
  {
  }

  /** A fetched list, even an empty one, is stored, so a query with the same key then hits. */
  lemma FetchedThenHit(cache: map<string, seq<SymbolMatch>>, q: Option<string>, response: SearchResponse,
                       q2: Option<string>, response2: SearchResponse)
    requires !Ignored(q) && !Ignored(q2) && Key(q2.value) == Key(q.value)
    requires Answer(cache, q, response).0.Found?
    ensures var (r, cache') := Answer(cache, q, response);
            Answer(cache', q2, response2) == (r, cache')
  {
  }

  /** Missing or non-array "bestMatches" yields an empty list, which is cached. */
  lemma NoArrayIsEmpty(cache: map<string, seq<SymbolMatch>>, q: Option<string>, bestMatches: BestMatches)
    requires !Ignored(q) && Key(q.value) !in cache
    requires !bestMatches.MatchArray?
    ensures Answer(cache, q, Body(bestMatches)) == (Found([]), cache[Key(q.value) := []])
  {
  }

  /** A fetched body yields at most ten entries. */
  lemma CollectBounded(bestMatches: BestMatches)
    ensures Collect(bestMatches).Some? ==> |Collect(bestMatches).value| <= MaxResults
  {
    if bestMatches.MatchArray? {
      ScanBounded(bestMatches.items, []);
    }
  }

  /** Answers and cached lists hold at most ten entries. */
  lemma SearchResultBounded(cache: map<string, seq<SymbolMatch>>, q: Option<string>, response: SearchResponse)
    requires forall k :: k in cache ==> |cache[k]| <= MaxResults
    ensures var (r, cache') := Answer(cache, q, response);
            && (r.Found? ==> |r.matches| <= MaxResults)
            && forall k :: k in cache' ==> |cache'[k]| <= MaxResults
  {
    if !Ignored(q) && Key(q.value) !in cache && response.Body? {
      var key := Key(q.value);
      var list := Collect(response.bestMatches);
      CollectBounded(response.bestMatches);
      if list.Some? {
        var cache' := cache[key := list.value];
        assert Answer(cache, q, response) == (Found(list.value), cache');
        forall k | k in cache' ensures |cache'[k]| <= MaxResults {
          if k != key {
            assert cache'[k] == cache[k];
          }
        }
      }
    }
  }

  /** Queries whose upper-cased forms agree share a cache key. */
  lemma KeyIgnoresCase(q1: string, q2: string)
    requires ToUpperInvariant(q1) == ToUpperInvariant(q2)
    ensures Key(q1) == Key(q2)
  {
    TrimUpper(q1);
    TrimUpper(q2);
    UpperIdempotent(Trim(q1));
    UpperIdempotent(Trim(q2));
    assert ToUpperInvariant(Trim(q1)) == ToUpperInvariant(ToUpperInvariant(Trim(q1)));
  }

  /** Leading and trailing white space does not change the key; nor does lower-casing. */
  lemma KeyIgnoresPaddingAndCase(before: string, q: string, after: string)
    requires AllWhiteSpace(before) && AllWhiteSpace(after)
    ensures Key(before + q + after) == Key(q)
    ensures Key(ToLowerInvariant(q)) == Key(q)
  {
    TrimPadded(before, q, after);
    UpperOfLower(q);
    KeyIgnoresCase(ToLowerInvariant(q), q);
  }

  /** SymbolsController with its memory cache. */
  class SymbolsController {
    var cache: map<string, seq<SymbolMatch>>

    constructor (cache: map<string, seq<SymbolMatch>>)
      ensures this.cache == cache
    {
      this.cache := cache;
    }

    /** The foreach over the "bestMatches" array. */
    method CollectMatches(items: seq<RawMatch>) returns (r: Option<seq<SymbolMatch>>)
      ensures r == Scan(items, [])
    {
      var list: seq<SymbolMatch> := [];
      var i := 0;
      while i < |items|
        invariant 0 <= i <= |items|
        invariant |list| < MaxResults
        invariant Scan(items, []) == Scan(items[i..], list)
      {
        var m := items[i];
        assert items[i..][0] == m && items[i..][1..] == items[i + 1..];
        if Throws(m) {
          return None;
        }
        ghost var list' := list + if Kept(m) then [ToMatch(m)] else [];
        assert Scan(items[i..], list) == if |list'| >= MaxResults then Some(list') else Scan(items[i + 1..], list');
        if Kept(m) {
          list := list + [ToMatch(m)];
        } else {
          assert list' == list;
        }
        if |list| >= MaxResults {
          return Some(list);
        }
        i := i + 1;
      }
      return Some(list);
    }

    /** Search(q); `response` is the vendor's answer if it is called. */
    method Search(q: Option<string>, response: SearchResponse) returns (r: SearchOutcome)
      modifies this
      ensures (r, cache) == Answer(old(cache), q, response)
    {
      if IsNullOrWhiteSpace(q) || Utf16Length(Trim(q.value)) < MinQueryLength {
        return Found([]);
      }
      var term := ToUpperInvariant(Trim(q.value));
      var cacheKey := "sym:" + term;
      assert !Ignored(q) && cacheKey == Key(q.value);
      if cacheKey in cache {
        return Found(cache[cacheKey]);
      }
      if response.Fault? {
        return Threw;
      }
      var list: seq<SymbolMatch> := [];
      if response.bestMatches.MatchArray? {
        var collected := CollectMatches(response.bestMatches.items);
        if collected.None? {
          return Threw;
        }
        list := collected.value;
      }
      assert Collect(response.bestMatches) == Some(list);
      cache := cache[cacheKey := list];
      return Found(list);
    }
  }
}
