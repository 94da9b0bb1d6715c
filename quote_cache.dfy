/**
 * DbQuoteCache: the per-asset price log (table InvestimentoPrecoCache).
 * Saving appends a row; reading returns the newest row of an asset whose
 * AsOf lies inside a window ending now.
 */
module QuoteCache {
  import opened Wrappers

  /** One InvestimentoPrecoCache row (the Currency column keeps its default and is not modelled). */
  datatype PriceRow = PriceRow(assetId: int, price: real, asOf: int, source: string)

  /** The Where clause of TryGetRecentAsync. */
  predicate Qualifies(row: PriceRow, assetId: int, cutoff: int) {
    row.assetId == assetId && row.asOf >= cutoff
  }

  /**
   * Where(asset, AsOf >= cutoff).OrderByDescending(AsOf).FirstOrDefault():
   * a qualifying row whose AsOf no qualifying row exceeds, or None when no
   * row qualifies. Among rows with equal AsOf the earliest inserted is taken.
   */
  function Newest(rows: seq<PriceRow>, assetId: int, cutoff: int): (r: Option<PriceRow>)
    ensures r.None? <==> forall i :: 0 <= i < |rows| ==> !Qualifies(rows[i], assetId, cutoff)
    ensures r.Some? ==> r.value in rows && Qualifies(r.value, assetId, cutoff)
    ensures r.Some? ==> forall i :: 0 <= i < |rows| && Qualifies(rows[i], assetId, cutoff) ==> rows[i].asOf <= r.value.asOf
    decreases |rows|
  {
    if rows == [] then None
    else
      var last := rows[|rows| - 1];
      var best := Newest(rows[..|rows| - 1], assetId, cutoff);
      if Qualifies(last, assetId, cutoff) && (best.None? || best.value.asOf < last.asOf) then Some(last)
      else best
  }

  /** TryGetRecentAsync(assetId, ttl) at UTC instant `now`: the (price, asOf) of the newest row within ttl. */
  function Recent(rows: seq<PriceRow>, assetId: int, now: int, ttl: int): Option<(real, int)> {
    match Newest(rows, assetId, now - ttl)
    case None => None
    case Some(row) => Some((row.price, row.asOf))
  }

  /** The rows of one asset, in insertion order. */
  function RowsOf(rows: seq<PriceRow>, assetId: int): (r: seq<PriceRow>)
    ensures forall i :: 0 <= i < |r| ==> r[i].assetId == assetId
    decreases |rows|
  {
    if rows == [] then []
    else
      var last := rows[|rows| - 1];
      RowsOf(rows[..|rows| - 1], assetId) + if last.assetId == assetId then [last] else []
  }

  /** Rows of other assets never affect what an asset reads. */
  lemma {:induction false} OtherAssetsIrrelevant(rows: seq<PriceRow>, assetId: int, cutoff: int)
    ensures Newest(RowsOf(rows, assetId), assetId, cutoff) == Newest(rows, assetId, cutoff)
    decreases |rows|
  {
    if rows != [] {
      var init := rows[..|rows| - 1];
      var last := rows[|rows| - 1];
      OtherAssetsIrrelevant(init, assetId, cutoff);
      var r := RowsOf(init, assetId);
      if last.assetId == assetId {
        assert RowsOf(rows, assetId) == r + [last];
        assert (r + [last])[..|r + [last]| - 1] == r;
      } else {
        assert RowsOf(rows, assetId) == r;
      }
    }
  }

  /** Appending rows of other assets does not change what an asset reads. */
  lemma {:induction false} NewestIgnoresOthers(rows: seq<PriceRow>, extra: seq<PriceRow>, assetId: int, cutoff: int)
    requires forall i :: 0 <= i < |extra| ==> extra[i].assetId != assetId
    ensures Newest(rows + extra, assetId, cutoff) == Newest(rows, assetId, cutoff)
    decreases |extra|
  {
    if extra == [] {
      assert rows + extra == rows;
    } else {
      var init := extra[..|extra| - 1];
      assert (rows + extra)[..|rows + extra| - 1] == rows + init;
      NewestIgnoresOthers(rows, init, assetId, cutoff);
    }
  }

  /** Widening the window keeps a hit a hit, and the hit can only get newer. */
  lemma WindowMonotone(rows: seq<PriceRow>, assetId: int, now: int, ttl1: int, ttl2: int)
    requires ttl1 <= ttl2
    requires Recent(rows, assetId, now, ttl1).Some?
    ensures Recent(rows, assetId, now, ttl2).Some?
    ensures Recent(rows, assetId, now, ttl1).value.1 <= Recent(rows, assetId, now, ttl2).value.1
  {
    var r1 := Newest(rows, assetId, now - ttl1);
    var i :| 0 <= i < |rows| && rows[i] == r1.value;
    assert Qualifies(rows[i], assetId, now - ttl2);
  }

  /** A row saved inside the window is found by the next read, which is at least as new. */
  lemma SaveThenRecent(rows: seq<PriceRow>, assetId: int, price: real, asOf: int, source: string, now: int, ttl: int)
    requires asOf >= now - ttl
    ensures Recent(rows + [PriceRow(assetId, price, asOf, source)], assetId, now, ttl).Some?
    ensures Recent(rows + [PriceRow(assetId, price, asOf, source)], assetId, now, ttl).value.1 >= asOf
  {
    var rows' := rows + [PriceRow(assetId, price, asOf, source)];
    assert Qualifies(rows'[|rows|], assetId, now - ttl);
  }

  /**
   * If no row of the asset was inside the window before a save, the saved
   * row is what the next read inside its window returns.
   */
  lemma SaveAfterMissIsRead(rows: seq<PriceRow>, assetId: int, price: real, asOf: int, source: string, cutoff: int, cutoff2: int)
    requires Newest(rows, assetId, cutoff).None?
    requires cutoff <= cutoff2 <= asOf
    ensures Newest(rows + [PriceRow(assetId, price, asOf, source)], assetId, cutoff2) == Some(PriceRow(assetId, price, asOf, source))
  {
    var rows' := rows + [PriceRow(assetId, price, asOf, source)];
    assert rows'[..|rows'| - 1] == rows;
    forall i | 0 <= i < |rows| ensures !Qualifies(rows[i], assetId, cutoff2) {
      assert !Qualifies(rows[i], assetId, cutoff);
    }
  }

  /** DbQuoteCache over its table of rows. */
  class DbQuoteCache {
    var rows: seq<PriceRow>

    constructor (existing: seq<PriceRow>)
      ensures rows == existing
    {
      rows := existing;
    }

    /** TryGetRecentAsync(assetId, ttl) at UTC instant `now`; reads the table and changes nothing. */
    method TryGetRecent(assetId: int, now: int, ttl: int) returns (r: Option<(real, int)>)
      ensures r == Recent(rows, assetId, now, ttl)
    {
      var row := Newest(rows, assetId, now - ttl);
      r := if row.None? then None else Some((row.value.price, row.value.asOf));
    }

    /** SaveAsync: append one row; existing rows are neither changed nor removed. */
    method Save(assetId: int, price: real, asOf: int, source: string)
      modifies this
      ensures rows == old(rows) + [PriceRow(assetId, price, asOf, source)]
    {
      rows := rows + [PriceRow(assetId, price, asOf, source)];
    }
  }
}
