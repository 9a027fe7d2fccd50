/** Properties of the per-exchange field mappings: base resolution, the
    enablement conditions of stage 2 and the liquidity filter of stage 3. */
module ViewFacts {
  import opened Common
  import opened Records
  import opened Feeds
  import opened Chains
  import opened Views

  /** A resolved base is the text before the FIRST occurrence of the quote in
      a symbol that ends with the quote. */
  lemma SuffixBaseIsTextBeforeFirstQuote(s: string, b: string)
    requires SuffixBase(s) == Some(b)
    ensures EndsWith(s, Quote) && b <= s && OccursAt(s, Quote, |b|)
    ensures forall i :: 0 <= i < |b| ==> !OccursAt(s, Quote, i)
  {
    FindOfSuffix(s, Quote);
    var k := Find(s, Quote);
    assert b == s[..k] && |b| == k;
  }

  /** A symbol that is a base followed by the quote, with no earlier
      occurrence of the quote, resolves to that base. */
  lemma SuffixBaseOfPlainSymbol(b: string)
    requires forall i :: 0 <= i < |b| ==> !OccursAt(b + Quote, Quote, i)
    ensures SuffixBase(b + Quote) == Some(b)
  {
    var s := b + Quote;
    assert s[|b|..] == Quote;
    assert OccursAt(s, Quote, |b|);
    assert Find(s, Quote) == |b|;
    assert s[..|b|] == b;
  }

  lemma BtcUsdtResolves()
    ensures SuffixBase("BTCUSDT") == Some("BTC")
  {
    var s := "BTC" + Quote;
    assert s == "BTCUSDT";
    forall i | 0 <= i < 3
      ensures !OccursAt(s, Quote, i)
    {
      assert s[i] != 'U';
      assert s[i..i + 4][0] == s[i];
    }
    SuffixBaseOfPlainSymbol("BTC");
  }

  /** KuCoin resolves "B-USDT" to B, or to the base B was renamed from when
      `reversed_base` has an entry for B. */
  lemma KucoinTickerBase(b: string, buy: real, sell: real, vol: real, reversedBase: map<string, string>)
    requires '-' !in b
    ensures VerdictOf(KucoinTicker(b + "-" + Quote, buy, sell, vol), reversedBase).About?
    ensures VerdictOf(KucoinTicker(b + "-" + Quote, buy, sell, vol), reversedBase).base ==
            if b in reversedBase then reversedBase[b] else b
  {
    SplitAtOnly(b, '-', Quote);
    assert (b + Quote)[|b + Quote| - |Quote|..] == Quote;
  }

  /** Gate resolves "B_USDT" to B, whatever `reversed_base` holds, and stores
      the mid price when the ticker traded and passes the filter. */
  lemma GateTickerVerdict(b: string, last: real, bid: real, ask: real, vol: real, reversedBase: map<string, string>)
    requires '_' !in b
    ensures VerdictOf(GateTicker(b + "_" + Quote, last, bid, ask, vol), reversedBase) ==
            About(b, if last > 0.0 then Filter(Quote, bid, ask, vol, Mid(bid, ask)) else Drop)
  {
    GatePairSplits(b);
    QuoteHasNoUnderscore();
    GateQuotedVerdict(b + "_" + Quote, Quote, last, bid, ask, vol, reversedBase);
  }

  /** "B_USDT" splits at its one '_' into B and the quote. */
  lemma GatePairSplits(b: string)
    requires '_' !in b
    ensures AfterFirst(b + "_" + Quote, '_') == Some(Quote)
    ensures Before(b + "_" + Quote, '_') == b
  {
    assert '_' !in Quote;
    SplitAtOnly(b, '_', Quote);
    AfterOnly(b, '_', Quote);
  }

  lemma QuoteHasNoUnderscore()
    ensures Before(Quote, '_') == Quote
  {
    assert |Before(Quote, '_')| == |Quote|;
  }

  /** A Gate pair whose second part is the quote is about its first part. */
  lemma GateQuotedVerdict(pair: string, rest: string, last: real, bid: real, ask: real, vol: real,
                          reversedBase: map<string, string>)
    requires AfterFirst(pair, '_') == Some(rest) && Before(rest, '_') == Quote
    ensures VerdictOf(GateTicker(pair, last, bid, ask, vol), reversedBase) ==
            About(Before(pair, '_'), if last > 0.0 then Filter(Quote, bid, ask, vol, Mid(bid, ask)) else Drop)
  {
    assert Quote in Quotes;
  }

  /** Stage 2's keep-or-delete condition for every exchange. Bitget and Bybit
      OR their per-chain flags; Gate keeps a base only when none of its five
      flags is set, the four flags read through a trailing comma included. */
  lemma {:induction false} CoinEnablement(c: CoinEntry)
    ensures CoinViewOf(c).enabled <==>
      match c
      case BinanceCoin(_, _, dep, wd, trading) => dep && wd && trading
      case KucoinCurrency(_, _, _, dep, wd, _, _) => dep && wd
      case BitgetCoin(_, cs) =>
        (exists i :: 0 <= i < |cs| && ChainEnabled(cs[i], Deposit)) &&
        (exists i :: 0 <= i < |cs| && ChainEnabled(cs[i], Withdrawal))
      case OkxCurrency(_, _, dep, wd, _, _, _, _, _) => dep && wd
      case BybitCoin(_, cs) =>
        (exists i :: 0 <= i < |cs| && ChainEnabled(cs[i], Deposit)) &&
        (exists i :: 0 <= i < |cs| && ChainEnabled(cs[i], Withdrawal))
      case GateCurrency(_, delisted, wdDisabled, wdDelayed, depDisabled, tradeDisabled, _) =>
        !delisted && !wdDisabled && !wdDelayed && !depDisabled && !tradeDisabled
  {
    match c
    case BitgetCoin(_, cs) =>
      AnyEnabledIff(cs, Deposit);
      AnyEnabledIff(cs, Withdrawal);
    case BybitCoin(_, cs) =>
      AnyEnabledIff(cs, Deposit);
      AnyEnabledIff(cs, Withdrawal);
    case _ =>
  }

  /** Without the unwrapping, a 1-tuple is truthy whatever it holds, so every
      Gate base would have been deleted. */
  lemma OneTupleAlwaysTruthy(b: bool)
    ensures Truthy(PyTuple1(b)) && Truthy(Unwrap(PyTuple1(b))) == b
  {
  }

  /** The metadata a kept base receives always reports deposit and withdraw
      as enabled. */
  lemma EnabledMetaTransfers(c: CoinEntry)
    requires CoinViewOf(c).enabled
    ensures CoinViewOf(c).meta.deposit && CoinViewOf(c).meta.withdraw
  {
  }

  /** Only KuCoin records an alias, and only when `currency` differs from
      `name`, the alias being `currency`. */
  lemma AliasOnlyForRenamedKucoinCoins(c: CoinEntry, a: string)
    requires CoinViewOf(c).alias == Some(a)
    ensures c.KucoinCurrency? && a == c.currency && a != c.name && CoinViewOf(c).base == c.name
  {
  }

  /** For a ticker about a non-empty base: a price is stored iff the ticker
      passes the liquidity filter, the stored value is its quoted price under
      the quote currency, and the only exception is a zero ask. */
  lemma StoreIffLiquid(t: Ticker, reversedBase: map<string, string>, b: string, o: Outcome)
    requires VerdictOf(t, reversedBase) == About(b, o) && b != ""
    ensures o.Store? <==> Liquid(t)
    ensures o.Store? ==> o == Store(Quote, QuotedPrice(t))
    ensures o.Raises? ==> o.error == ZeroDivision && Ask(t) == 0.0
  {
  }

  /** A ticker about the empty base: Bitget and Bybit never act on it, and
      Binance and KuCoin delete it through `elif base in PAIRS` however
      liquid the ticker is. */
  lemma EmptyBaseDropped(t: Ticker, reversedBase: map<string, string>, o: Outcome)
    requires VerdictOf(t, reversedBase) == About("", o)
    ensures !t.BitgetTicker? && !t.BybitTicker?
    ensures t.BinanceTicker? || t.KucoinTicker? ==> o == Drop
  {
  }

  /** "USDT" itself resolves to the empty base, so a Binance ticker for it
      deletes the "" entry even though it is liquid. */
  lemma LiquidEmptyBaseDeleted()
    ensures var t := BinanceTicker(Quote, 99.0, 100.0, 300000.0);
      Liquid(t) && VerdictOf(t, map[]) == About("", Drop)
  {
    SuffixBaseOfPlainSymbol("");
    assert "" + Quote == Quote;
  }

  /** The spread filter is strict: bid 95 against ask 100 is exactly 0.95 and
      is rejected. */
  lemma SpreadBoundaryRejected()
    ensures VerdictOf(BinanceTicker("BTCUSDT", 95.0, 100.0, 300000.0), map[]) == About("BTC", Drop)
  {
    BtcUsdtResolves();
  }

  /** The volume filter is strict as well. */
  lemma VolumeBoundaryRejected()
    ensures VerdictOf(BinanceTicker("BTCUSDT", 96.0, 100.0, 200000.0), map[]) == About("BTC", Drop)
  {
    BtcUsdtResolves();
  }

  /** The ratio is bid/ask, not min/max: a crossed book (bid above ask) passes
      and its mid price is stored. */
  lemma CrossedBookAccepted()
    ensures VerdictOf(BinanceTicker("BTCUSDT", 100.0, 95.0, 300000.0), map[]) == About("BTC", Store(Quote, 97.5))
  {
    BtcUsdtResolves();
  }
}
