/** The three already-parsed feeds each adapter fetches, one variant per
    exchange, carrying the fields that exchange's `get_tickers_price` reads.
    Numbers are the values `float(...)` would produce; booleans are the JSON
    booleans the adapters test for truth. */
module Feeds {
  import opened Common

  /** Entries of the tradable-pairs (status) feed. */
  datatype StatusEntry =
    | BinanceSymbol(baseAsset: string, quoteAsset: string, status: string)
    | KucoinSymbol(name: string, quoteCurrency: string, enableTrading: bool)
    | BitgetSymbol(baseCoin: string, quoteCoin: string, status: string)
    | OkxInstrument(baseCcy: string, quoteCcy: string, state: string)
    | BybitSymbol(baseCoin: string, quoteCoin: string, showStatus: string)
    | GatePair(base: string, quote: string, tradeStatus: string)

  /** One blockchain of a Bitget or Bybit asset. Bybit sends empty strings for
      missing amounts; `None` stands for such an empty string. */
  datatype Chain =
    | BitgetChain(withdrawable: string, rechargeable: string,
                  withdrawFee: real, minWithdrawAmount: real, minDepositAmount: real)
    | BybitChain(chainWithdraw: string, chainDeposit: string,
                 withdrawFeeText: Option<real>, withdrawMinText: Option<real>, depositMinText: Option<real>)

  /** Entries of the coin-information (transfer metadata) feed. For Gate,
      `maybeChain` is `None` when the entry has no `chain` key. */
  datatype CoinEntry =
    | BinanceCoin(coin: string, name: string, depositAllEnable: bool, withdrawAllEnable: bool, trading: bool)
    | KucoinCurrency(currency: string, name: string, fullName: string,
                     isDepositEnabled: bool, isWithdrawEnabled: bool,
                     withdrawalMinFee: real, withdrawalMinSize: real)
    | BitgetCoin(coinName: string, chains: seq<Chain>)
    | OkxCurrency(ccy: string, name: string, canDep: bool, canWd: bool,
                  minFee: real, maxFee: real, minWd: real, maxWd: real, chain: string)
    | BybitCoin(coin: string, chains: seq<Chain>)
    | GateCurrency(currency: string, delisted: bool, withdrawDisabled: bool, withdrawDelayed: bool,
                   depositDisabled: bool, tradeDisabled: bool, maybeChain: Option<string>)

  /** Entries of the live-ticker feed. */
  datatype Ticker =
    | BinanceTicker(symbol: string, bidPrice: real, askPrice: real, quoteVolume: real)
    | KucoinTicker(symbol: string, buy: real, sell: real, volValue: real)
    | BitgetTicker(symbol: string, close: real, buyOne: real, sellOne: real, usdtVol: real)
    | OkxTicker(instId: string, bidPx: real, askPx: real, volCcy24h: real)
    | BybitTicker(s: string, lp: real, bp: real, ap: real, qv: real)
    | GateTicker(currencyPair: string, last: real, highestBid: real, lowestAsk: real, quoteVolume: real)
}
