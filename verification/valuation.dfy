/** The portfolio valuation fold of `fetchBalanceAndPrices`: a price map built from the "-EUR"
    quotes, the EUR cash lookup, the valuation of every other balance, and their total. */
module Valuation {
  import opened Common
  import opened Strings
  import opened Exchange

  /** The fiat currency every value is expressed in, and the market suffix of its quotes. */
  const Fiat: string := "EUR"
  const FiatSuffix: string := "-EUR"

  /** `parseFloat`, left abstract: the model never depends on how a decimal string is read. */
  type Parser = string -> real

  /** The `PortfolioData` record the dashboard stores. */
  datatype Portfolio = Portfolio(totalValue: real, eurBalance: real, inOrders: real, balances: seq<Balance>)

  /** The portfolio shown before the first successful cycle. */
  const EmptyPortfolio: Portfolio := Portfolio(0.0, 0.0, 0.0, [])

  // ---------------------------------------------------------------- price map

  /** The price-map key a quote writes, if it writes one. */
  function QuoteSymbol(q: PriceQuote): Option<string>
  {
    if EndsWith(q.market, FiatSuffix) then Some(ReplaceFirst(q.market, FiatSuffix, "")) else None
  }

  /** Only "-EUR" markets write a key, and the key is the market with its first "-EUR" cut out. */
  lemma QuoteSymbolCutsFirstSuffix(q: PriceQuote)
    ensures QuoteSymbol(q).Some? <==> EndsWith(q.market, FiatSuffix)
    ensures QuoteSymbol(q).Some? ==> exists i: nat ::
      IsFirstOccurrence(q.market, FiatSuffix, i)
      && QuoteSymbol(q).value == q.market[..i] + q.market[i + |FiatSuffix|..]
  {
    if EndsWith(q.market, FiatSuffix) {
      EndsWithOccurs(q.market, FiatSuffix);
      assert IsFirstOccurrence(q.market, FiatSuffix, IndexOf(q.market, FiatSuffix, 0).value);
    }
  }

  /** Quote `q` writes price-map key `k`. */
  predicate QuotesSymbol(q: PriceQuote, k: string)
  {
    QuoteSymbol(q) == Some(k)
  }

  /** `prices.reduce(...)`: a left fold over the quotes in order, writing `parse(price)` under the
      quote's symbol, so that a later quote for the same symbol overwrites an earlier one. */
  function PriceMap(qs: seq<PriceQuote>, parse: Parser): (m: map<string, real>)
    ensures |m.Keys| <= |qs|
  {
    if |qs| == 0 then map[]
    else
      var acc := PriceMap(qs[..|qs| - 1], parse);
      var q := qs[|qs| - 1];
      match QuoteSymbol(q)
      case None => acc
      case Some(sym) => acc[sym := parse(q.price)]
  }

  /** One fold step: a last quote that does not write `k` leaves the entry for `k` as it was. */
  lemma PriceMapStepOther(qs: seq<PriceQuote>, parse: Parser, k: string)
    requires |qs| > 0 && !QuotesSymbol(qs[|qs| - 1], k)
    ensures k in PriceMap(qs, parse) <==> k in PriceMap(qs[..|qs| - 1], parse)
    ensures k in PriceMap(qs, parse) ==> PriceMap(qs, parse)[k] == PriceMap(qs[..|qs| - 1], parse)[k]
  {
  }

  /** One fold step: a last quote that writes `k` sets the entry for `k` to its own price. */
  lemma PriceMapStepSame(qs: seq<PriceQuote>, parse: Parser, k: string)
    requires |qs| > 0 && QuotesSymbol(qs[|qs| - 1], k)
    ensures k in PriceMap(qs, parse)
    ensures PriceMap(qs, parse)[k] == parse(qs[|qs| - 1].price)
  {
  }

  /** Every key of the price map was written by some quote. */
  lemma {:induction false} PriceMapOnlyQuoted(qs: seq<PriceQuote>, parse: Parser, k: string) returns (j: nat)
    requires k in PriceMap(qs, parse)
    ensures j < |qs| && QuotesSymbol(qs[j], k)
  {
    var n := |qs|;
    if QuotesSymbol(qs[n - 1], k) {
      j := n - 1;
    } else {
      var pre := qs[..n - 1];
      PriceMapStepOther(qs, parse, k);
      j := PriceMapOnlyQuoted(pre, parse, k);
      assert qs[j] == pre[j];
    }
  }

  /** Every symbol some quote writes is a key of the price map. */
  lemma {:induction false} PriceMapHasQuoted(qs: seq<PriceQuote>, parse: Parser, k: string, j: nat)
    requires j < |qs| && QuotesSymbol(qs[j], k)
    ensures k in PriceMap(qs, parse)
  {
    var n := |qs|;
    if QuotesSymbol(qs[n - 1], k) {
      PriceMapStepSame(qs, parse, k);
    } else {
      var pre := qs[..n - 1];
      assert j < n - 1 && pre[j] == qs[j];
      PriceMapHasQuoted(pre, parse, k, j);
      PriceMapStepOther(qs, parse, k);
    }
  }

  /** The price map has a key exactly for the symbols some "-EUR" quote carries. */
  lemma PriceMapKeys(qs: seq<PriceQuote>, parse: Parser, k: string)
    ensures k in PriceMap(qs, parse) <==> exists j :: 0 <= j < |qs| && QuotesSymbol(qs[j], k)
  {
    if k in PriceMap(qs, parse) {
      var j := PriceMapOnlyQuoted(qs, parse, k);
    }
    if j :| 0 <= j < |qs| && QuotesSymbol(qs[j], k) {
      PriceMapHasQuoted(qs, parse, k, j);
    }
  }

  /** `j` is the last quote in `qs` that writes key `k`. */
  predicate IsLastQuoteFor(qs: seq<PriceQuote>, j: int, k: string)
  {
    0 <= j < |qs| && QuotesSymbol(qs[j], k) && forall i :: j < i < |qs| ==> !QuotesSymbol(qs[i], k)
  }

  /** Later quotes overwrite earlier ones: the price kept for `k` is that of its last quote. */
  lemma {:induction false} PriceMapLastWins(qs: seq<PriceQuote>, parse: Parser, k: string, j: int)
    requires IsLastQuoteFor(qs, j, k)
    ensures k in PriceMap(qs, parse)
    ensures PriceMap(qs, parse)[k] == parse(qs[j].price)
  {
    var n := |qs|;
    var pre := qs[..n - 1];
    if j < n - 1 {
      assert IsLastQuoteFor(pre, j, k) by {
        assert pre[j] == qs[j];
        forall i | j < i < |pre| ensures !QuotesSymbol(pre[i], k) {
          assert pre[i] == qs[i];
        }
      }
      PriceMapLastWins(pre, parse, k, j);
      PriceMapStepOther(qs, parse, k);
    }
  }

  // ---------------------------------------------------------------- EUR balance

  /** `balances.find(b => b.symbol === "EUR")`: the first EUR balance, if any. */
  function FirstFiat(bs: seq<Balance>): (r: Option<Balance>)
    ensures r.None? <==> forall i :: 0 <= i < |bs| ==> bs[i].symbol != Fiat
    ensures r.Some? ==> exists i :: 0 <= i < |bs| && bs[i] == r.value && IsFirstFiat(bs, i)
  {
    if |bs| == 0 then None
    else if bs[0].symbol == Fiat then
      assert IsFirstFiat(bs, 0);
      Some(bs[0])
    else
      var r := FirstFiat(bs[1..]);
      if r.Some? then
        var i :| 0 <= i < |bs[1..]| && bs[1..][i] == r.value && IsFirstFiat(bs[1..], i);
        assert IsFirstFiat(bs, i + 1) by {
          forall j | 0 <= j < i + 1 ensures bs[j].symbol != Fiat {
            if j > 0 { assert bs[j] == bs[1..][j - 1]; }
          }
        }
        r
      else
        r
  }

  /** `bs[i]` is an EUR balance and no balance before it is. */
  predicate IsFirstFiat(bs: seq<Balance>, i: int)
    requires 0 <= i < |bs|
  {
    bs[i].symbol == Fiat && forall j :: 0 <= j < i ==> bs[j].symbol != Fiat
  }

  /** `field || "0"`: an empty amount string falls back to "0". */
  function OrZero(field: string): string
  {
    if field == "" then "0" else field
  }

  /** The string parsed as the EUR available amount. */
  function FiatAvailableText(bs: seq<Balance>): string
  {
    match FirstFiat(bs)
    case None => "0"
    case Some(b) => OrZero(b.available)
  }

  /** The string parsed as the EUR in-order amount. */
  function FiatInOrderText(bs: seq<Balance>): string
  {
    match FirstFiat(bs)
    case None => "0"
    case Some(b) => OrZero(b.inOrder)
  }

  /** The EUR amounts come from the first EUR balance; when there is none, or a field is empty,
      the amount read is "0", which parses to 0. */
  lemma FiatAmounts(bs: seq<Balance>, parse: Parser, i: int)
    requires parse("0") == 0.0
    requires 0 <= i < |bs| && IsFirstFiat(bs, i)
    ensures parse(FiatAvailableText(bs)) == if bs[i].available == "" then 0.0 else parse(bs[i].available)
    ensures parse(FiatInOrderText(bs)) == if bs[i].inOrder == "" then 0.0 else parse(bs[i].inOrder)
  {
  }

  /** Without any EUR balance both EUR amounts are 0. */
  lemma FiatAmountsAbsent(bs: seq<Balance>, parse: Parser)
    requires parse("0") == 0.0
    requires forall i :: 0 <= i < |bs| ==> bs[i].symbol != Fiat
    ensures parse(FiatAvailableText(bs)) == 0.0 && parse(FiatInOrderText(bs)) == 0.0
  {
  }

  // ---------------------------------------------------------------- non-EUR balances

  /** `balances.filter(b => b.symbol !== "EUR")`. */
  function NonFiat(bs: seq<Balance>): (r: seq<Balance>)
    ensures |r| <= |bs|
    ensures forall b :: b in r <==> b in bs && b.symbol != Fiat
    ensures forall i :: 0 <= i < |r| ==> r[i].symbol != Fiat
  {
    if |bs| == 0 then []
    else (if bs[0].symbol != Fiat then [bs[0]] else []) + NonFiat(bs[1..])
  }

  /** The filter preserves order: filtering a concatenation concatenates the filtered parts. */
  lemma {:induction false} NonFiatAppend(a: seq<Balance>, b: seq<Balance>)
    ensures NonFiat(a + b) == NonFiat(a) + NonFiat(b)
  {
    if |a| > 0 {
      assert (a + b)[0] == a[0];
      assert (a + b)[1..] == a[1..] + b;
      NonFiatAppend(a[1..], b);
    } else {
      assert a + b == b;
    }
  }

  /** A balance list without EUR entries passes through the filter unchanged. */
  lemma {:induction false} NonFiatKeepsAllOthers(bs: seq<Balance>)
    ensures (forall i :: 0 <= i < |bs| ==> bs[i].symbol != Fiat) ==> NonFiat(bs) == bs
  {
    if |bs| > 0 && forall i :: 0 <= i < |bs| ==> bs[i].symbol != Fiat {
      NonFiatKeepsAllOthers(bs[1..]);
      assert [bs[0]] + bs[1..] == bs;
    }
  }

  // ---------------------------------------------------------------- crypto value

  /** `priceMap[symbol] || 0`. */
  function PriceOrZero(m: map<string, real>, sym: string): real
  {
    if sym in m then m[sym] else 0.0
  }

  /** `(parseFloat(available) + parseFloat(inOrder)) * price` for one balance. */
  function AssetValue(m: map<string, real>, b: Balance, parse: Parser): (v: real)
    ensures b.symbol !in m ==> v == 0.0
    ensures parse(b.available) >= 0.0 && parse(b.inOrder) >= 0.0 && (b.symbol in m ==> m[b.symbol] >= 0.0) ==> v >= 0.0
  {
    (parse(b.available) + parse(b.inOrder)) * PriceOrZero(m, b.symbol)
  }

  /** `reduce((acc, balance) => acc + total, 0)`: the left fold summing asset values in order. */
  function CryptoFold(m: map<string, real>, fs: seq<Balance>, parse: Parser): (r: real)
    ensures (forall i :: 0 <= i < |fs| ==> fs[i].symbol !in m) ==> r == 0.0
  {
    if |fs| == 0 then 0.0
    else CryptoFold(m, fs[..|fs| - 1], parse) + AssetValue(m, fs[|fs| - 1], parse)
  }

  /** The fold is additive over concatenation. */
  lemma {:induction false} CryptoFoldAppend(m: map<string, real>, a: seq<Balance>, b: seq<Balance>, parse: Parser)
    ensures CryptoFold(m, a + b, parse) == CryptoFold(m, a, parse) + CryptoFold(m, b, parse)
  {
    if |b| == 0 {
      assert a + b == a;
    } else {
      var ab := a + b;
      assert ab[..|ab| - 1] == a + b[..|b| - 1];
      assert ab[|ab| - 1] == b[|b| - 1];
      CryptoFoldAppend(m, a, b[..|b| - 1], parse);
    }
  }

  /** A balance without a price contributes exactly 0: removing it leaves the sum unchanged. */
  lemma UnpricedAssetAddsNothing(m: map<string, real>, fs: seq<Balance>, i: int, parse: Parser)
    requires 0 <= i < |fs| && fs[i].symbol !in m
    ensures AssetValue(m, fs[i], parse) == 0.0
    ensures CryptoFold(m, fs, parse) == CryptoFold(m, fs[..i] + fs[i + 1..], parse)
  {
    assert fs == fs[..i] + [fs[i]] + fs[i + 1..];
    CryptoFoldAppend(m, fs[..i] + [fs[i]], fs[i + 1..], parse);
    CryptoFoldAppend(m, fs[..i], [fs[i]], parse);
    CryptoFoldAppend(m, fs[..i], fs[i + 1..], parse);
    assert CryptoFold(m, [fs[i]], parse) == CryptoFold(m, [], parse) + AssetValue(m, fs[i], parse);
  }

  /** An independent reading of the crypto value: walk all balances front to back and add the
      value of every non-EUR one. */
  function ValueOfAll(m: map<string, real>, bs: seq<Balance>, parse: Parser): real
  {
    if |bs| == 0 then 0.0
    else (if bs[0].symbol != Fiat then AssetValue(m, bs[0], parse) else 0.0) + ValueOfAll(m, bs[1..], parse)
  }

  /** Folding over the filtered balances equals valuing the non-EUR balances of the full list. */
  lemma {:induction false} CryptoFoldOfNonFiat(m: map<string, real>, bs: seq<Balance>, parse: Parser)
    ensures CryptoFold(m, NonFiat(bs), parse) == ValueOfAll(m, bs, parse)
  {
    if |bs| > 0 {
      var head := if bs[0].symbol != Fiat then [bs[0]] else [];
      CryptoFoldAppend(m, head, NonFiat(bs[1..]), parse);
      CryptoFoldOfNonFiat(m, bs[1..], parse);
      if bs[0].symbol != Fiat {
        assert CryptoFold(m, head, parse) == CryptoFold(m, [], parse) + AssetValue(m, bs[0], parse);
      }
    }
  }

  // ---------------------------------------------------------------- the snapshot

  /** The portfolio `fetchBalanceAndPrices` stores for the given balances and quotes. Its total is
      the EUR cash plus the EUR in orders plus the value of every non-EUR balance; its balances are
      the input minus its EUR entries: none of them is EUR, every non-EUR input is kept, and an
      input without EUR is stored as it is. */
  function Valuate(bs: seq<Balance>, qs: seq<PriceQuote>, parse: Parser): (p: Portfolio)
    ensures p.eurBalance == parse(FiatAvailableText(bs)) && p.inOrders == parse(FiatInOrderText(bs))
    ensures p.totalValue == p.eurBalance + p.inOrders + ValueOfAll(PriceMap(qs, parse), bs, parse)
    ensures p.balances == NonFiat(bs)
    ensures forall i :: 0 <= i < |p.balances| ==> p.balances[i].symbol != Fiat
    ensures forall b :: b in p.balances <==> b in bs && b.symbol != Fiat
    ensures (forall i :: 0 <= i < |bs| ==> bs[i].symbol != Fiat) ==> p.balances == bs
  {
    var priceMap := PriceMap(qs, parse);
    CryptoFoldOfNonFiat(priceMap, bs, parse);
    NonFiatKeepsAllOthers(bs);
    var eurAvailable := parse(FiatAvailableText(bs));
    var eurInOrder := parse(FiatInOrderText(bs));
    var cryptoValue := CryptoFold(priceMap, NonFiat(bs), parse);
    Portfolio(cryptoValue + eurAvailable + eurInOrder, eurAvailable, eurInOrder, NonFiat(bs))
  }

  /** Without any quote there is no price, so the total is the EUR amounts alone. */
  lemma NoQuotesMeansFiatOnly(bs: seq<Balance>, parse: Parser)
    ensures var p := Valuate(bs, [], parse);
      p.totalValue == p.eurBalance + p.inOrders
  {
  }

  /** With non-negative amounts and prices, nothing in the portfolio is negative. */
  lemma {:induction false} TotalNonNegative(bs: seq<Balance>, qs: seq<PriceQuote>, parse: Parser)
    requires parse("0") == 0.0
    requires forall i :: 0 <= i < |bs| ==> parse(bs[i].available) >= 0.0 && parse(bs[i].inOrder) >= 0.0
    requires forall j :: 0 <= j < |qs| ==> parse(qs[j].price) >= 0.0
    ensures var p := Valuate(bs, qs, parse);
      p.eurBalance >= 0.0 && p.inOrders >= 0.0 && p.totalValue >= p.eurBalance + p.inOrders
  {
    var m := PriceMap(qs, parse);
    PricesNonNegative(qs, parse);
    ValueOfAllNonNegative(m, bs, parse);
    match FirstFiat(bs)
    case None =>
    case Some(b) =>
      var i :| 0 <= i < |bs| && bs[i] == b && IsFirstFiat(bs, i);
  }

  lemma {:induction false} PricesNonNegative(qs: seq<PriceQuote>, parse: Parser)
    requires forall j :: 0 <= j < |qs| ==> parse(qs[j].price) >= 0.0
    ensures forall k :: k in PriceMap(qs, parse) ==> PriceMap(qs, parse)[k] >= 0.0
  {
    if |qs| > 0 {
      PricesNonNegative(qs[..|qs| - 1], parse);
    }
  }

  lemma {:induction false} ValueOfAllNonNegative(m: map<string, real>, bs: seq<Balance>, parse: Parser)
    requires forall k :: k in m ==> m[k] >= 0.0
    requires forall i :: 0 <= i < |bs| ==> parse(bs[i].available) >= 0.0 && parse(bs[i].inOrder) >= 0.0
    ensures ValueOfAll(m, bs, parse) >= 0.0
  {
    if |bs| > 0 {
      ValueOfAllNonNegative(m, bs[1..], parse);
      assert parse(bs[0].available) >= 0.0 && parse(bs[0].inOrder) >= 0.0;
      assert PriceOrZero(m, bs[0].symbol) >= 0.0;
    }
  }
}
