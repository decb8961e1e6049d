/** Worked examples of the valuation on concrete balances and quotes. */
module ValuationScenarios {
  import opened Common
  import opened Strings
  import opened Exchange
  import opened Valuation

  lemma BtcEurSymbol()
    ensures QuoteSymbol(PriceQuote("BTC-EUR", "40000")) == Some("BTC")
  {
    var s := "BTC-EUR";
    assert EndsWith(s, FiatSuffix);
    forall j | 0 <= j < 3 ensures !OccursAt(s, FiatSuffix, j) {
      assert s[j] != '-';
    }
    RemoveFirstStripsUniqueSuffix(s, FiatSuffix);
    assert s[..3] == "BTC";
  }

  /** One EUR balance and one priced BTC balance: 1000 + (0.5 + 0.1) * 40000 = 25000. */
  lemma CashPlusOnePricedAsset(parse: Parser)
    requires parse("1000") == 1000.0 && parse("0") == 0.0
    requires parse("0.5") == 0.5 && parse("0.1") == 0.1 && parse("40000") == 40000.0
    ensures var btc := Balance("BTC", "0.5", "0.1");
      Valuate([Balance("EUR", "1000", "0"), btc], [PriceQuote("BTC-EUR", "40000")], parse)
        == Portfolio(25000.0, 1000.0, 0.0, [btc])
  {
    var eur := Balance("EUR", "1000", "0");
    var btc := Balance("BTC", "0.5", "0.1");
    var q := PriceQuote("BTC-EUR", "40000");
    var bs := [eur, btc];
    BtcEurSymbol();
    assert [q][..0] == [];
    var m := PriceMap([q], parse);
    assert PriceMap([q][..0], parse) == map[];
    assert m == map[]["BTC" := parse(q.price)];
    assert FirstFiat(bs) == Some(eur);
    assert parse(FiatAvailableText(bs)) == 1000.0;
    assert parse(FiatInOrderText(bs)) == 0.0;
    assert bs[1..] == [btc];
    assert NonFiat([btc]) == [btc];
    assert NonFiat(bs) == [btc];
    assert AssetValue(m, btc, parse) == 24000.0;
    assert [btc][..0] == [];
    assert CryptoFold(m, [btc], parse) == 24000.0;
  }

  /** The EUR texts and the non-EUR balances of an EUR-then-XRP balance list. */
  lemma EurThenXrp(eur: Balance, xrp: Balance)
    requires eur.symbol == Fiat && xrp.symbol == "XRP"
    ensures FiatAvailableText([eur, xrp]) == OrZero(eur.available)
    ensures FiatInOrderText([eur, xrp]) == OrZero(eur.inOrder)
    ensures NonFiat([eur, xrp]) == [xrp]
  {
    var bs := [eur, xrp];
    assert FirstFiat(bs) == Some(eur);
    assert bs[1..] == [xrp];
    assert NonFiat([xrp]) == [xrp];
  }

  /** A balance whose symbol has no quote is kept but is worth 0. */
  lemma UnpricedAssetIsKeptAtZero(parse: Parser)
    requires parse("0") == 0.0 && parse("100") == 100.0
    ensures var xrp := Balance("XRP", "100", "0");
      Valuate([Balance("EUR", "0", "0"), xrp], [], parse) == Portfolio(0.0, 0.0, 0.0, [xrp])
  {
    var eur := Balance("EUR", "0", "0");
    var xrp := Balance("XRP", "100", "0");
    EurThenXrp(eur, xrp);
    var m := PriceMap([], parse);
    assert m == map[];
    assert CryptoFold(m, [xrp], parse) == 0.0;
  }

  /** Of two EUR balances the first one supplies the EUR amounts. */
  lemma FirstFiatBalanceWins(parse: Parser)
    requires parse("0") == 0.0 && parse("5") == 5.0 && parse("7") == 7.0
    ensures var p := Valuate([Balance("EUR", "5", ""), Balance("EUR", "7", "7")], [], parse);
      p.eurBalance == 5.0 && p.inOrders == 0.0 && p.totalValue == 5.0 && p.balances == []
  {
  }
}
