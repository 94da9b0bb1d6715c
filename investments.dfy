/**
 * InvestimentosService.GetCardsAsync: for every asset of a user, a fold
 * over the asset's transactions (quantity, average cost, realized gain,
 * net invested) combined with one quote into a portfolio card.
 * decimal is modelled as real.
 */
module Investments {
  import opened Wrappers
  import opened Numerics
  import opened Text
  import opened QuoteCache
  import opened QuoteLimiter
  import opened QuoteProvider

  /** A Transacao row: the ledger fields the valuation reads. */
  datatype Tx = Tx(userId: int, assetId: Option<int>, categoria: string, valor: real,
                   quantidade: Option<real>, precoUnit: Option<real>)

  /** An InvestimentoAtivo row. */
  datatype Asset = Asset(id: int, userId: int, ticker: string, nome: string)

  /** The accumulators of the inner loop. */
  datatype Position = Position(qtd: real, somaPrecoQtd: real, somaQtdCompra: real,
                               totalCompras: real, totalVendas: real, ganhoRealizado: real)

  const Empty := Position(0.0, 0.0, 0.0, 0.0, 0.0, 0.0)

  /** How the substring heuristic classifies a category. */
  datatype Kind = Buy | Sell | Dividend | Other

  function KindOf(categoria: string): Kind {
    var cat := ToLowerInvariant(categoria);
    if Contains(cat, "compra") || Contains(cat, "buy") then Buy
    else if Contains(cat, "venda") || Contains(cat, "sell") then Sell
    else if Contains(cat, "divid") then Dividend
    else Other
  }

  /** A nullable decimal compared with `> 0`: null is not positive. */
  predicate Positive(x: Option<real>) {
    x.Some? && x.value > 0.0
  }

  /** q: Quantidade when positive, else Valor / PrecoUnit when that is positive, else 0. */
  function Quantity(t: Tx): real {
    if Positive(t.quantidade) then t.quantidade.value
    else if Positive(t.precoUnit) then t.valor / t.precoUnit.value
    else 0.0
  }

  /** pu: PrecoUnit when positive, else Valor / q when q is positive, else 0. */
  function UnitPrice(t: Tx): real {
    if Positive(t.precoUnit) then t.precoUnit.value
    else if Quantity(t) > 0.0 then t.valor / Quantity(t)
    else 0.0
  }

  /** The weighted-average purchase cost; 0 before any bought quantity. */
  function AvgCost(p: Position): real {
    if p.somaQtdCompra > 0.0 then p.somaPrecoQtd / p.somaQtdCompra else 0.0
  }

  /** One iteration of the inner loop. */
  function Step(p: Position, t: Tx): Position {
    var q := Quantity(t);
    var pu := UnitPrice(t);
    match KindOf(t.categoria)
    case Buy =>
      p.(qtd := p.qtd + q, somaPrecoQtd := p.somaPrecoQtd + q * pu,
         somaQtdCompra := p.somaQtdCompra + q, totalCompras := p.totalCompras + t.valor)
    case Sell =>
      p.(qtd := p.qtd - q, totalVendas := p.totalVendas + t.valor,
         ganhoRealizado := p.ganhoRealizado + (pu - AvgCost(p)) * q)
    case Dividend => p.(ganhoRealizado := p.ganhoRealizado + t.valor)
    case Other => p
  }

  /** The accumulators after the transactions, folded in the order given. */
  function Fold(txs: seq<Tx>): Position
    decreases |txs|
  {
    if txs == [] then Empty else Step(Fold(txs[..|txs| - 1]), txs[|txs| - 1])
  }

  /** The inner foreach. */
  method Accumulate(txs: seq<Tx>) returns (p: Position)
    ensures p == Fold(txs)
  {
    p := Empty;
    var i := 0;
    while i < |txs|
      invariant 0 <= i <= |txs|
      invariant p == Fold(txs[..i])
    {
      assert txs[..i + 1][..i] == txs[..i];
      p := Step(p, txs[i]);
      i := i + 1;
    }
    assert txs[..i] == txs;
  }

  /* ---- reference sums, one per accumulator that has a closed form ---- */

  /** Sum of f over the transactions of kind k. */
  function SumOf(txs: seq<Tx>, k: Kind, f: Tx -> real): real
    decreases |txs|
  {
    if txs == [] then 0.0
    else SumOf(txs[..|txs| - 1], k, f) + if KindOf(txs[|txs| - 1].categoria) == k then f(txs[|txs| - 1]) else 0.0
  }

  function Q(t: Tx): real { Quantity(t) }
  function Cost(t: Tx): real { Quantity(t) * UnitPrice(t) }
  function Valor(t: Tx): real { t.valor }

  /**
   * The closed forms: bought quantity and cost come from buys alone, the
   * held quantity is bought minus sold (no clamp at zero), and the gross
   * buy and sell amounts are the sums of their Valor.
   */
  lemma {:induction false} FoldSums(txs: seq<Tx>)
    ensures Fold(txs).somaQtdCompra == SumOf(txs, Buy, Q)
    ensures Fold(txs).somaPrecoQtd == SumOf(txs, Buy, Cost)
    ensures Fold(txs).qtd == SumOf(txs, Buy, Q) - SumOf(txs, Sell, Q)
    ensures Fold(txs).totalCompras == SumOf(txs, Buy, Valor)
    ensures Fold(txs).totalVendas == SumOf(txs, Sell, Valor)
    decreases |txs|
  {
    if txs != [] {
      var init, t := txs[..|txs| - 1], txs[|txs| - 1];
      FoldSums(init);
      var p := Fold(init);
      assert Fold(txs) == Step(p, t);
      match KindOf(t.categoria)
      case Buy =>
        assert Step(p, t).somaQtdCompra == p.somaQtdCompra + Q(t);
        assert Step(p, t).somaPrecoQtd == p.somaPrecoQtd + Cost(t);
      case Sell =>
        assert Step(p, t).qtd == p.qtd - Q(t);
        assert Step(p, t).somaQtdCompra == p.somaQtdCompra;
      case Dividend =>
      case Other =>
    }
  }

  /** The final average cost is Σ q·pu / Σ q over the buys, and 0 without bought quantity. */
  lemma AverageOfBuys(txs: seq<Tx>)
    ensures SumOf(txs, Buy, Q) > 0.0 ==> AvgCost(Fold(txs)) == SumOf(txs, Buy, Cost) / SumOf(txs, Buy, Q)
    ensures SumOf(txs, Buy, Q) <= 0.0 ==> AvgCost(Fold(txs)) == 0.0
  {
    FoldSums(txs);
  }

  /** Only buys move the average cost: sells, dividends and others leave it where it was. */
  lemma OnlyBuysMoveAverage(txs: seq<Tx>, t: Tx)
    requires KindOf(t.categoria) != Buy
    ensures AvgCost(Fold(txs + [t])) == AvgCost(Fold(txs))
    ensures Fold(txs + [t]).somaPrecoQtd == Fold(txs).somaPrecoQtd
    ensures Fold(txs + [t]).somaQtdCompra == Fold(txs).somaQtdCompra
  {
    assert (txs + [t])[..|txs|] == txs;
  }

  /** A sell lowers the quantity by q, unclamped, and realizes (pu - average) · q. */
  lemma SellEffect(p: Position, t: Tx)
    requires KindOf(t.categoria) == Sell
    ensures Step(p, t).qtd == p.qtd - Quantity(t)
    ensures Step(p, t).ganhoRealizado - p.ganhoRealizado == (UnitPrice(t) - AvgCost(p)) * Quantity(t)
    ensures AvgCost(Step(p, t)) == AvgCost(p)
    ensures Step(p, t).totalVendas == p.totalVendas + t.valor
  {
  }

  /** A dividend adds its Valor to the realized gain and changes nothing else. */
  lemma DividendEffect(p: Position, t: Tx)
    requires KindOf(t.categoria) == Dividend
    ensures Step(p, t) == p.(ganhoRealizado := p.ganhoRealizado + t.valor)
  {
  }

  /** A category that matches none of the keywords has no effect. */
  lemma OtherHasNoEffect(p: Position, t: Tx)
    requires KindOf(t.categoria) == Other
    ensures Step(p, t) == p
  {
  }

  /**
   * When exactly one of Quantidade and PrecoUnit is given (positive), the
   * resolved q and pu reproduce the amount: q · pu = Valor.
   */
  lemma ResolvedPairMatchesValor(t: Tx)
    requires Positive(t.quantidade) != Positive(t.precoUnit)
    ensures Quantity(t) * UnitPrice(t) == t.valor
  {
  }

  /** Neither Quantidade nor PrecoUnit positive: the transaction moves no quantity and no cost. */
  lemma UnresolvedIsZero(t: Tx)
    requires !Positive(t.quantidade) && !Positive(t.precoUnit)
    ensures Quantity(t) == 0.0 && UnitPrice(t) == 0.0
  {
  }

  /** "compra"/"buy" wins over "venda"/"sell", which wins over "divid". */
  lemma KindPrecedence(categoria: string)
    ensures var cat := ToLowerInvariant(categoria);
            && ((Contains(cat, "compra") || Contains(cat, "buy")) <==> KindOf(categoria) == Buy)
            && (((Contains(cat, "venda") || Contains(cat, "sell"))
                 && !(Contains(cat, "compra") || Contains(cat, "buy"))) <==> KindOf(categoria) == Sell)
            && ((Contains(cat, "divid") && !(Contains(cat, "compra") || Contains(cat, "buy"))
                 && !(Contains(cat, "venda") || Contains(cat, "sell"))) <==> KindOf(categoria) == Dividend)
            && ((!Contains(cat, "compra") && !Contains(cat, "buy") && !Contains(cat, "venda")
                 && !Contains(cat, "sell") && !Contains(cat, "divid")) <==> KindOf(categoria) == Other)
  {
  }

  /** Buy 10 at 10 then sell 4 at 15: 6 held at an average of 10, 20 realized, 40 net invested. */
  lemma BuyThenSellExample(user: int, asset: int)
    ensures var buy := Tx(user, Some(asset), "Compra", 100.0, Some(10.0), Some(10.0));
            var sell := Tx(user, Some(asset), "Venda", 60.0, Some(4.0), Some(15.0));
            var p := Fold([buy, sell]);
            p.qtd == 6.0 && AvgCost(p) == 10.0 && p.ganhoRealizado == 20.0
            && p.totalCompras - p.totalVendas == 40.0
  {
    var buy := Tx(user, Some(asset), "Compra", 100.0, Some(10.0), Some(10.0));
    var sell := Tx(user, Some(asset), "Venda", 60.0, Some(4.0), Some(15.0));
    assert ToLowerInvariant("Compra") == "compra";
    assert OccursAt("compra", "compra", 0);
    assert ToLowerInvariant("Venda") == "venda";
    assert OccursAt("venda", "venda", 0);
    assert !Contains("venda", "buy") by {
      forall i | 0 <= i <= 2 ensures !OccursAt("venda", "buy", i) {
        assert "venda"[i] != 'b';
      }
    }
    assert KindOf(buy.categoria) == Buy;
    assert KindOf(sell.categoria) == Sell;
    assert [buy, sell][..1] == [buy];
    assert [buy][..0] == [];
    var p1 := Step(Empty, buy);
    assert Fold([buy]) == p1;
    assert p1 == Position(10.0, 100.0, 10.0, 100.0, 0.0, 0.0);
    assert AvgCost(p1) == 10.0;
    assert Fold([buy, sell]) == Step(p1, sell);
    assert Step(p1, sell) == Position(6.0, 100.0, 10.0, 100.0, 60.0, 20.0);
  }

  /* ---- the card ---- */

  /** InvestimentoResumoDto. */
  datatype Card = Card(assetId: int, nome: string, ticker: string,
                       quantidade: real, precoMedio: real, valorAtual: real, totalInvestido: real,
                       ganhoNaoRealizado: real, ganhoRealizado: real, percentual: real, isQuoteStale: bool)

  function MarketValue(p: Position, price: real): real { price * p.qtd }

  function Unrealized(p: Position, price: real): real { (price - AvgCost(p)) * p.qtd }

  function Percent(p: Position, price: real): real {
    if AvgCost(p) > 0.0 && p.qtd > 0.0 then (price / AvgCost(p) - 1.0) * 100.0 else 0.0
  }

  /** The card of an asset from its accumulators and its quote, each field rounded as the source does. */
  function MakeCard(a: Asset, p: Position, quote: Quote): Card {
    Card(a.id, a.nome, a.ticker,
         Round(p.qtd, 4), Round(AvgCost(p), 4), Round(MarketValue(p, quote.price), 2),
         Round(p.totalCompras - p.totalVendas, 2), Round(Unrealized(p, quote.price), 2),
         Round(p.ganhoRealizado, 2), Round(Percent(p, quote.price), 2), quote.isStale)
  }

  /**
   * Before rounding the unrealized gain is market value minus cost basis,
   * and the percentage is the same gain relative to that basis.
   */
  lemma ValuationRelations(p: Position, price: real)
    ensures Unrealized(p, price) == MarketValue(p, price) - AvgCost(p) * p.qtd
    ensures AvgCost(p) > 0.0 && p.qtd > 0.0 ==>
              Percent(p, price) * AvgCost(p) * p.qtd == Unrealized(p, price) * 100.0
    ensures !(AvgCost(p) > 0.0 && p.qtd > 0.0) ==> Percent(p, price) == 0.0
  {
    if AvgCost(p) > 0.0 && p.qtd > 0.0 {
      var a := AvgCost(p);
      calc {
        Percent(p, price) * a * p.qtd;
        (price / a - 1.0) * 100.0 * a * p.qtd;
        ((price / a) * a - a) * 100.0 * p.qtd;
        { assert (price / a) * a == price; }
        (price - a) * 100.0 * p.qtd;
      }
    }
  }

  /**
   * Each rounded card field is within half a unit of its last kept place of
   * the exact value, and the staleness flag is the quote's.
   */
  lemma CardFields(a: Asset, p: Position, quote: Quote)
    ensures var c := MakeCard(a, p, quote);
            && c.assetId == a.id && c.nome == a.nome && c.ticker == a.ticker
            && c.isQuoteStale == quote.isStale
            && Abs(c.quantidade - p.qtd) * 10000.0 <= 0.5
            && Abs(c.precoMedio - AvgCost(p)) * 10000.0 <= 0.5
            && Abs(c.valorAtual - MarketValue(p, quote.price)) * 100.0 <= 0.5
            && Abs(c.totalInvestido - (p.totalCompras - p.totalVendas)) * 100.0 <= 0.5
            && Abs(c.ganhoNaoRealizado - Unrealized(p, quote.price)) * 100.0 <= 0.5
            && Abs(c.ganhoRealizado - p.ganhoRealizado) * 100.0 <= 0.5
            && Abs(c.percentual - Percent(p, quote.price)) * 100.0 <= 0.5
  {
    assert Scale(4) == 10000.0 && Scale(2) == 100.0;
    RoundError(p.qtd, 4);
    RoundError(AvgCost(p), 4);
    RoundError(MarketValue(p, quote.price), 2);
    RoundError(p.totalCompras - p.totalVendas, 2);
    RoundError(Unrealized(p, quote.price), 2);
    RoundError(p.ganhoRealizado, 2);
    RoundError(Percent(p, quote.price), 2);
  }

  /* ---- GetCardsAsync ---- */

  /** The user's assets, in store order. */
  function OwnedBy(assets: seq<Asset>, userId: int): (r: seq<Asset>)
    ensures forall a :: a in r <==> a in assets && a.userId == userId
    ensures |r| <= |assets|
    decreases |assets|
  {
    if assets == [] then []
    else OwnedBy(assets[..|assets| - 1], userId)
         + if assets[|assets| - 1].userId == userId then [assets[|assets| - 1]] else []
  }

  /** The user's transactions on one asset, in store order. */
  function TxsOf(txs: seq<Tx>, userId: int, assetId: int): (r: seq<Tx>)
    ensures forall t :: t in r <==> t in txs && t.userId == userId && t.assetId == Some(assetId)
    ensures |r| <= |txs|
    decreases |txs|
  {
    if txs == [] then []
    else TxsOf(txs[..|txs| - 1], userId, assetId)
         + if txs[|txs| - 1].userId == userId && txs[|txs| - 1].assetId == Some(assetId) then [txs[|txs| - 1]] else []
  }

  /** The cards built so far, None once a quote lookup threw, with the quote stores after them. */
  datatype Valuation = Valuation(cards: Option<seq<Card>>, quotes: seq<PriceRow>, usage: Usage)

  /** The outer foreach over `ativos`, each asset looked up through the quote provider. */
  function CardsFor(quotes: seq<PriceRow>, usage: Usage, limit: int, ttlMinutes: int, now: int,
                    ativos: seq<Asset>, txs: seq<Tx>, userId: int, respond: string -> Response): Valuation
    decreases |ativos|
  {
    if ativos == [] then Valuation(Some([]), quotes, usage)
    else
      var prev := CardsFor(quotes, usage, limit, ttlMinutes, now, ativos[..|ativos| - 1], txs, userId, respond);
      var a := ativos[|ativos| - 1];
      if prev.cards.None? then prev
      else
        var p := Provide(prev.quotes, prev.usage, limit, ttlMinutes, a.id, now, respond(a.ticker));
        match p.outcome
        case Threw => Valuation(None, p.rows, p.usage)
        case Returned(q) =>
          Valuation(Some(prev.cards.value + [MakeCard(a, Fold(TxsOf(txs, userId, a.id)), q)]), p.rows, p.usage)
  }

  /** The card shows the asset and the rounded fold of the asset's own transactions. */
  predicate CardOf(c: Card, a: Asset, txs: seq<Tx>, userId: int) {
    var p := Fold(TxsOf(txs, userId, a.id));
    && c.assetId == a.id && c.ticker == a.ticker && c.nome == a.nome
    && c.quantidade == Round(p.qtd, 4) && c.precoMedio == Round(AvgCost(p), 4)
    && c.totalInvestido == Round(p.totalCompras - p.totalVendas, 2)
    && c.ganhoRealizado == Round(p.ganhoRealizado, 2)
  }

  /**
   * A successful valuation has one card per asset, in asset order, and
   * each card's quantity, average cost, net invested and realized gain are
   * the rounded fold of that asset's own transactions.
   */
  lemma {:induction false} CardsPerAsset(quotes: seq<PriceRow>, usage: Usage, limit: int, ttlMinutes: int, now: int,
                                         ativos: seq<Asset>, txs: seq<Tx>, userId: int, respond: string -> Response)
    ensures var v := CardsFor(quotes, usage, limit, ttlMinutes, now, ativos, txs, userId, respond);
            v.cards.Some? ==>
              && |v.cards.value| == |ativos|
              && forall i :: 0 <= i < |ativos| ==> CardOf(v.cards.value[i], ativos[i], txs, userId)
    decreases |ativos|
  {
    if ativos != [] {
      var init, a := ativos[..|ativos| - 1], ativos[|ativos| - 1];
      CardsPerAsset(quotes, usage, limit, ttlMinutes, now, init, txs, userId, respond);
      var prev := CardsFor(quotes, usage, limit, ttlMinutes, now, init, txs, userId, respond);
      var v := CardsFor(quotes, usage, limit, ttlMinutes, now, ativos, txs, userId, respond);
      if v.cards.Some? {
        var p := Provide(prev.quotes, prev.usage, limit, ttlMinutes, a.id, now, respond(a.ticker));
        var c := MakeCard(a, Fold(TxsOf(txs, userId, a.id)), p.outcome.quote);
        assert v.cards.value == prev.cards.value + [c];
        assert CardOf(c, a, txs, userId);
        forall i | 0 <= i < |ativos| ensures CardOf(v.cards.value[i], ativos[i], txs, userId) {
          if i < |init| {
            assert v.cards.value[i] == prev.cards.value[i] && ativos[i] == init[i];
          }
        }
      }
    }
  }

  /** Once a lookup has thrown, the remaining assets are not looked up and nothing else changes. */
  lemma {:induction false} FailureStops(quotes: seq<PriceRow>, usage: Usage, limit: int, ttlMinutes: int, now: int,
                                        ativos: seq<Asset>, k: nat, txs: seq<Tx>, userId: int, respond: string -> Response)
    requires k <= |ativos|
    requires CardsFor(quotes, usage, limit, ttlMinutes, now, ativos[..k], txs, userId, respond).cards.None?
    ensures CardsFor(quotes, usage, limit, ttlMinutes, now, ativos, txs, userId, respond)
            == CardsFor(quotes, usage, limit, ttlMinutes, now, ativos[..k], txs, userId, respond)
    decreases |ativos|
  {
    if k == |ativos| {
      assert ativos[..k] == ativos;
    } else {
      var init := ativos[..|ativos| - 1];
      assert init[..k] == ativos[..k];
      FailureStops(quotes, usage, limit, ttlMinutes, now, init, k, txs, userId, respond);
    }
  }

  /** InvestimentosService over the quote provider. */
  class InvestimentosService {
    const quotes: AlphaVantageQuoteProvider

    constructor (quotes: AlphaVantageQuoteProvider)
      ensures this.quotes == quotes
    {
      this.quotes := quotes;
    }

    /**
     * GetCardsAsync(userId) at UTC instant `now` over the asset and
     * transaction tables; None when a quote lookup threw.
     */
    method GetCards(userId: int, assets: seq<Asset>, txs: seq<Tx>, now: int, respond: string -> Response)
      returns (cards: Option<seq<Card>>)
      modifies quotes.cache, quotes.limiter
      ensures Valuation(cards, quotes.cache.rows, quotes.limiter.usage)
              == CardsFor(old(quotes.cache.rows), old(quotes.limiter.usage), quotes.limiter.dailyLimit,
                          quotes.options.cacheTtlMinutes, now, OwnedBy(assets, userId), txs, userId, respond)
    {
      var limit := quotes.limiter.dailyLimit;
      var ttl := quotes.options.cacheTtlMinutes;
      ghost var rows0, usage0 := quotes.cache.rows, quotes.limiter.usage;
      var ativos := OwnedBy(assets, userId);
      var list: seq<Card> := [];
      var i := 0;
      while i < |ativos|
        invariant 0 <= i <= |ativos|
        invariant Valuation(Some(list), quotes.cache.rows, quotes.limiter.usage)
                  == CardsFor(rows0, usage0, limit, ttl, now, ativos[..i], txs, userId, respond)
      {
        var a := ativos[i];
        assert ativos[..i + 1][..i] == ativos[..i];
        var position := Accumulate(TxsOf(txs, userId, a.id));
        var o := quotes.GetQuote(a.id, a.ticker, now, respond(a.ticker));
        if o.Threw? {
          FailureStops(rows0, usage0, limit, ttl, now, ativos, i + 1, txs, userId, respond);
          return None;
        }
        list := list + [MakeCard(a, position, o.quote)];
        i := i + 1;
      }
      assert ativos[..i] == ativos;
      cards := Some(list);
    }
  }
}
