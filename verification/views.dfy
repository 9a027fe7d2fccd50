/** The per-exchange field mappings of `get_tickers_price`: what each
    adapter reads from a status entry (stage 1), from a coin entry (stage 2)
    and from a ticker (stage 3). The shared three-stage algorithm in module
    Pipeline is written once against these views. */
module Views {
  import opened Common
  import opened Records
  import opened Feeds
  import opened Chains

  // ---------------------------------------------------------------- stage 1

  /** The base a status entry seeds; KuCoin takes the text before the first
      '-' of the symbol name. */
  function StatusBase(e: StatusEntry): (r: string)
    ensures e.KucoinSymbol? ==> r <= e.name && '-' !in r
    ensures e.KucoinSymbol? && '-' in e.name ==> e.name[|r|] == '-'
  {
    match e
    case BinanceSymbol(b, _, _) => b
    case KucoinSymbol(n, _, _) => Before(n, '-')
    case BitgetSymbol(b, _, _) => b
    case OkxInstrument(b, _, _) => b
    case BybitSymbol(b, _, _) => b
    case GatePair(b, _, _) => b
  }

  function StatusQuote(e: StatusEntry): string {
    match e
    case BinanceSymbol(_, q, _) => q
    case KucoinSymbol(_, q, _) => q
    case BitgetSymbol(_, q, _) => q
    case OkxInstrument(_, q, _) => q
    case BybitSymbol(_, q, _) => q
    case GatePair(_, q, _) => q
  }

  /** Each exchange's "actively trading" marker. */
  predicate IsActive(e: StatusEntry) {
    match e
    case BinanceSymbol(_, _, st) => st == "TRADING"
    case KucoinSymbol(_, _, enabled) => enabled
    case BitgetSymbol(_, _, st) => st == "online"
    case OkxInstrument(_, _, st) => st == "live"
    case BybitSymbol(_, _, st) => st == "1"
    case GatePair(_, _, st) => st == "tradable"
  }

  /** The record a seeding entry writes: empty prices, the quotes tuple, and
      `tradable` set to `True`, or for OKX to the `state` string itself. */
  function SeedRecord(e: StatusEntry): (r: PairRecord)
    ensures r.prices == map[] && r.quotes == Quotes && r.transfer == None
    ensures IsActive(e) ==> r.tradable == (if e.OkxInstrument? then Label("live") else Flag(true))
  {
    PairRecord(map[], if e.OkxInstrument? then Label(e.state) else Flag(true), Quotes, None)
  }

  // ---------------------------------------------------------------- stage 2

  /** A Python value tested for truth: Gate's trailing commas turn four of its
      flags into 1-tuples, which are always truthy until unwrapped. */
  datatype PyFlag = PyBool(b: bool) | PyTuple1(item: bool)

  predicate Truthy(v: PyFlag) {
    match v
    case PyBool(b) => b
    case PyTuple1(_) => true
  }

  /** `if isinstance(x, tuple): x = x[0]`. */
  function Unwrap(v: PyFlag): PyFlag {
    match v
    case PyTuple1(x) => PyBool(x)
    case PyBool(_) => v
  }

  /** What stage 2 needs from one coin entry: the base it is about, whether it
      keeps the base, the metadata it writes, and (KuCoin only) the alias it
      records in `reversed_base`. */
  datatype CoinView = CoinView(base: string, enabled: bool, meta: Transfer, alias: Option<string>)

  /** Bitget and Bybit: enabled when some chain allows deposit and some chain
      allows withdrawal; name and chain are written as empty strings. */
  function ChainCoinView(base: string, s: ChainSummary): CoinView {
    CoinView(base, s.deposit && s.withdraw,
             BasicTransfer(s.deposit, s.withdraw, "").(
               withdrawMinFee := Some(s.withdrawMinFee),
               withdrawMinAmount := Some(s.withdrawMinAmount),
               depositMinAmount := Some(s.depositMinAmount),
               chain := Some("")),
             None)
  }

  function CoinViewOf(c: CoinEntry): CoinView {
    match c
    case BinanceCoin(coin, name, dep, wd, trading) =>
      CoinView(coin, dep && wd && trading, BasicTransfer(dep, wd, Lower(name)), None)
    case KucoinCurrency(currency, name, fullName, dep, wd, fee, minSize) =>
      CoinView(name, dep && wd,
               BasicTransfer(dep, wd, Lower(fullName)).(
                 withdrawMinFee := Some(fee),
                 withdrawMinAmount := Some(minSize),
                 baseAnother := Some(currency)),
               if currency != name then Some(currency) else None)
    case BitgetCoin(coinName, chains) =>
      ChainCoinView(coinName, Summarize(chains))
    case OkxCurrency(ccy, name, dep, wd, minFee, maxFee, minWd, maxWd, chain) =>
      CoinView(ccy, dep && wd,
               BasicTransfer(dep, wd, Lower(name)).(
                 withdrawMinFee := Some(minFee), withdrawMaxFee := Some(maxFee),
                 withdrawMinAmount := Some(minWd), withdrawMaxAmount := Some(maxWd),
                 chain := Some(chain)),
               None)
    case BybitCoin(coin, chains) =>
      ChainCoinView(coin, Summarize(chains))
    case GateCurrency(currency, delisted, wdDisabled, wdDelayed, depDisabled, tradeDisabled, maybeChain) =>
      var deposit := !Truthy(Unwrap(PyTuple1(depDisabled)));
      var withdraw := !Truthy(Unwrap(PyTuple1(wdDisabled)));
      var listed := !Truthy(Unwrap(PyTuple1(delisted)));
      var prompt := !Truthy(Unwrap(PyTuple1(wdDelayed)));
      var trading := !Truthy(PyBool(tradeDisabled));
      CoinView(currency, deposit && withdraw && listed && trading && prompt,
               BasicTransfer(deposit, withdraw, "").(
                 withdrawDelayed := Some(prompt),
                 chain := Some(if maybeChain.Some? then maybeChain.value else "")),
               None)
  }

  // ---------------------------------------------------------------- stage 3

  /** The exceptions a ticker can raise inside `get_tickers_price`. */
  datatype AdapterError =
    | ZeroDivision       // a zero ask in `bid / ask`
    | MissingQuotePart   // Gate's `currency_pair.split("_")[1]` on a pair without '_'

  /** What a ticker does to the base it is about, when that base is in PAIRS. */
  datatype Outcome = Store(quote: string, price: real) | Drop | Raises(error: AdapterError)

  /** What a ticker does: nothing, raise whatever PAIRS holds, or act on one base
      provided that base is (still) in PAIRS. */
  datatype Verdict = Ignore | Raise(failure: AdapterError) | About(base: string, outcome: Outcome)

  /** Binance, Bitget and Bybit: a symbol ending with the quote resolves to the
      text before the first occurrence of the quote; any other symbol to False. */
  function SuffixBase(symbol: string): Option<string> {
    if EndsWith(symbol, Quote) then
      FindOfSuffix(symbol, Quote);
      Some(symbol[..Find(symbol, Quote)])
    else None
  }

  function Mid(bid: real, ask: real): real {
    (bid + ask) / 2.0
  }

  /** `bid / ask > spread_limit and volume > vol24`, evaluated left to right,
      with the price the adapter stores when both hold. */
  function Filter(quote: string, bid: real, ask: real, volume: real, price: real): (r: Outcome)
    ensures r.Raises? <==> ask == 0.0
    ensures r.Raises? ==> r.error == ZeroDivision
    ensures r.Store? <==> SpreadOk(bid, ask) && volume > Vol24
    ensures r.Store? ==> r.quote == quote && r.price == price
  {
    if ask == 0.0 then Raises(ZeroDivision)
    else if bid / ask > SpreadLimit && volume > Vol24 then Store(quote, price)
    else Drop
  }

  /** Each adapter's price-stage branches for one ticker. An empty base is
      falsy in Python: Binance and KuCoin still delete it through their
      `elif base in PAIRS`, Bitget and Bybit guard that branch with `base and`,
      OKX never tests the base for truth. */
  function VerdictOf(t: Ticker, reversedBase: map<string, string>): Verdict {
    match t
    case BinanceTicker(symbol, bid, ask, vol) =>
      (match SuffixBase(symbol)
       case None => Ignore
       case Some(b) => About(b, if b == "" then Drop else Filter(Quote, bid, ask, vol, Mid(bid, ask))))
    case KucoinTicker(symbol, buy, sell, vol) =>
      if !EndsWith(Without(symbol, '-'), Quote) then Ignore
      else
        var b0 := Before(symbol, '-');
        var b := if b0 in reversedBase then reversedBase[b0] else b0;
        About(b, if b == "" then Drop else Filter(Quote, buy, sell, vol, Mid(buy, sell)))
    case BitgetTicker(symbol, close, buy, sell, vol) =>
      (match SuffixBase(symbol)
       case None => Ignore
       case Some(b) =>
         if b == "" then Ignore
         else About(b, if close == 0.0 then Drop else Filter(Quote, buy, sell, vol, Mid(buy, sell))))
    case OkxTicker(instId, bid, ask, vol) =>
      About(Before(instId, '-'),
            if EndsWith(Without(instId, '-'), Quote) then Filter(Quote, bid, ask, vol, Mid(bid, ask)) else Drop)
    case BybitTicker(s, lp, bp, ap, qv) =>
      (match SuffixBase(s)
       case None => Ignore
       case Some(b) =>
         if b == "" then Ignore
         else About(b, if lp == 0.0 then Drop else Filter(Quote, bp, ap, qv, lp)))
    case GateTicker(pair, last, bid, ask, vol) =>
      (match AfterFirst(pair, '_')
       case None => Raise(MissingQuotePart)
       case Some(rest) =>
         var q := Before(rest, '_');
         if q !in Quotes then Ignore
         else About(Before(pair, '_'), if last > 0.0 then Filter(q, bid, ask, vol, Mid(bid, ask)) else Drop))
  }

  // ---------------------------------------------------- reference filter

  /** The liquidity filter as the adapters state it, independently of how
      their conditions are evaluated. */
  predicate SpreadOk(bid: real, ask: real) {
    ask != 0.0 && bid / ask > SpreadLimit
  }

  predicate Liquid(t: Ticker) {
    match t
    case BinanceTicker(_, bid, ask, vol) => SpreadOk(bid, ask) && vol > Vol24
    case KucoinTicker(_, buy, sell, vol) => SpreadOk(buy, sell) && vol > Vol24
    case BitgetTicker(_, close, buy, sell, vol) => close != 0.0 && SpreadOk(buy, sell) && vol > Vol24
    case OkxTicker(instId, bid, ask, vol) =>
      EndsWith(Without(instId, '-'), Quote) && SpreadOk(bid, ask) && vol > Vol24
    case BybitTicker(_, lp, bp, ap, qv) => lp != 0.0 && SpreadOk(bp, ap) && qv > Vol24
    case GateTicker(_, last, bid, ask, vol) => last > 0.0 && SpreadOk(bid, ask) && vol > Vol24
  }

  /** The value stored for a liquid ticker: the bid/ask mid price, except
      Bybit, which stores its last price `lp`. */
  function QuotedPrice(t: Ticker): real {
    match t
    case BinanceTicker(_, bid, ask, _) => Mid(bid, ask)
    case KucoinTicker(_, buy, sell, _) => Mid(buy, sell)
    case BitgetTicker(_, _, buy, sell, _) => Mid(buy, sell)
    case OkxTicker(_, bid, ask, _) => Mid(bid, ask)
    case BybitTicker(_, lp, _, _, _) => lp
    case GateTicker(_, _, bid, ask, _) => Mid(bid, ask)
  }

  /** The zero denominator of the spread ratio. */
  function Ask(t: Ticker): real {
    match t
    case BinanceTicker(_, _, ask, _) => ask
    case KucoinTicker(_, _, sell, _) => sell
    case BitgetTicker(_, _, _, sell, _) => sell
    case OkxTicker(_, _, ask, _) => ask
    case BybitTicker(_, _, _, ap, _) => ap
    case GateTicker(_, _, _, ask, _) => ask
  }
}
