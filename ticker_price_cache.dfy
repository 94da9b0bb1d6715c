/**
 * DbTickerPriceCache: one price row per ticker symbol (table
 * TickerPriceCache), shared by every holder of the symbol. Saving inserts
 * the row or overwrites the existing row's fields in place.
 */
module TickerPriceCache {
  import opened Wrappers

  datatype TickerRow = TickerRow(ticker: string, price: real, asOf: int, source: string)

  /** At most one row per ticker (the table's key). */
  predicate UniqueTickers(rows: seq<TickerRow>) {
    forall i, j :: 0 <= i < j < |rows| ==> rows[i].ticker != rows[j].ticker
  }

  /** FirstOrDefault(x => x.Ticker == ticker), as the index of that row. */
  function IndexOf(rows: seq<TickerRow>, ticker: string): (r: Option<nat>)
    ensures r.Some? ==> r.value < |rows| && rows[r.value].ticker == ticker
    ensures r.Some? ==> forall i :: 0 <= i < r.value ==> rows[i].ticker != ticker
    ensures r.None? <==> forall i :: 0 <= i < |rows| ==> rows[i].ticker != ticker
    decreases |rows|
  {
    if rows == [] then None
    else if rows[0].ticker == ticker then Some(0)
    else match IndexOf(rows[1..], ticker)
      case None => None
      case Some(k) => Some(k + 1)
  }

  /** TryGetAsync: the row of the ticker, None when there is none. */
  function Lookup(rows: seq<TickerRow>, ticker: string): (r: Option<TickerRow>)
    ensures r.None? <==> forall i :: 0 <= i < |rows| ==> rows[i].ticker != ticker
    ensures r.Some? ==> r.value in rows && r.value.ticker == ticker
  {
    match IndexOf(rows, ticker)
    case None => None
    case Some(i) => Some(rows[i])
  }

  /** SaveAsync: overwrite the ticker's row where it is, or append a new one. */
  function Upsert(rows: seq<TickerRow>, row: TickerRow): seq<TickerRow> {
    match IndexOf(rows, row.ticker)
    case None => rows + [row]
    case Some(i) => rows[i := row]
  }

  /** After a save the ticker reads back exactly what was saved: last write wins, with no AsOf check. */
  lemma UpsertThenLookup(rows: seq<TickerRow>, row: TickerRow)
    ensures Lookup(Upsert(rows, row), row.ticker) == Some(row)
  {
    var r := Upsert(rows, row);
    match IndexOf(rows, row.ticker)
    case None =>
      assert IndexOf(r, row.ticker) == Some(|rows|) by {
        forall i | 0 <= i < |rows| ensures r[i].ticker != row.ticker {
          assert r[i] == rows[i];
        }
        assert r[|rows|].ticker == row.ticker;
      }
    case Some(k) =>
      assert IndexOf(r, row.ticker) == Some(k) by {
        forall i | 0 <= i < k ensures r[i].ticker != row.ticker {
          assert r[i] == rows[i];
        }
        assert r[k].ticker == row.ticker;
      }
  }

  /** A save leaves every other ticker's row as it was. */
  lemma UpsertFrame(rows: seq<TickerRow>, row: TickerRow, other: string)
    requires other != row.ticker
    ensures Lookup(Upsert(rows, row), other) == Lookup(rows, other)
  {
    var r := Upsert(rows, row);
    match IndexOf(rows, other)
    case None =>
      forall i | 0 <= i < |r| ensures r[i].ticker != other {
        if i < |rows| && r[i] != rows[i] {
          assert r[i] == row;
        }
      }
    case Some(k) =>
      assert r[k] == rows[k];
      assert IndexOf(r, other) == Some(k) by {
        forall i | 0 <= i < k ensures r[i].ticker != other {
          if r[i] != rows[i] {
            assert r[i] == row;
          }
        }
      }
  }

  /** A save of an absent ticker inserts one row; of a present ticker, keeps the row count. */
  lemma UpsertSize(rows: seq<TickerRow>, row: TickerRow)
    ensures Lookup(rows, row.ticker).None? ==> |Upsert(rows, row)| == |rows| + 1
    ensures Lookup(rows, row.ticker).Some? ==> |Upsert(rows, row)| == |rows|
  {
  }

  /** Saves keep at most one row per ticker. */
  lemma UpsertKeepsUnique(rows: seq<TickerRow>, row: TickerRow)
    requires UniqueTickers(rows)
    ensures UniqueTickers(Upsert(rows, row))
  {
    var r := Upsert(rows, row);
    match IndexOf(rows, row.ticker)
    case None =>
    case Some(k) =>
      forall i, j | 0 <= i < j < |r| ensures r[i].ticker != r[j].ticker {
        if i == k {
          assert rows[j].ticker != rows[k].ticker;
        } else if j == k {
          assert rows[i].ticker != rows[k].ticker;
        }
      }
  }

  /** DbTickerPriceCache over its table. */
  class DbTickerPriceCache {
    var rows: seq<TickerRow>

    ghost predicate Valid()
      reads this
    {
      UniqueTickers(rows)
    }

    constructor (existing: seq<TickerRow>)
      requires UniqueTickers(existing)
      ensures Valid() && rows == existing
    {
      rows := existing;
    }

    /** TryGetAsync: (price, asOf, source) of the ticker's row; reads the table and changes nothing. */
    method TryGet(ticker: string) returns (r: Option<(real, int, string)>)
      ensures r.None? <==> Lookup(rows, ticker).None?
      ensures r.Some? ==> var row := Lookup(rows, ticker).value; r.value == (row.price, row.asOf, row.source)
    {
      var i := IndexOf(rows, ticker);
      if i.None? {
        r := None;
      } else {
        r := Some((rows[i.value].price, rows[i.value].asOf, rows[i.value].source));
      }
    }

    /** SaveAsync: insert the ticker's row, or overwrite price, asOf and source of the existing one. */
    method Save(ticker: string, price: real, asOf: int, source: string)
      requires Valid()
      modifies this
      ensures Valid()
      ensures rows == Upsert(old(rows), TickerRow(ticker, price, asOf, source))
    {
      var existing := IndexOf(rows, ticker);
      if existing.None? {
        rows := rows + [TickerRow(ticker, price, asOf, source)];
      } else {
        var i := existing.value;
        rows := rows[i := rows[i].(price := price, asOf := asOf, source := source)];
      }
      UpsertKeepsUnique(old(rows), TickerRow(ticker, price, asOf, source));
    }
  }
}
