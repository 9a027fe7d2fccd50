/** The normalized pair record every adapter writes to `tickers/tickers_<exchange>.json`,
    and the adapter constants set by `BaseExchange.__init__` and the subclasses. */
module Records {
  import opened Common

  /** The only accepted quote currency; every adapter sets `self.quotes = ("USDT",)`. */
  const Quote: string := "USDT"
  const Quotes: seq<string> := [Quote]

  /** `self.spread_limit`: the minimum bid/ask ratio, compared strictly. */
  const SpreadLimit: real := 0.95
  /** `self.vol24`: the minimum 24h quote volume, compared strictly. */
  const Vol24: real := 200000.0

  /** The JSON value stored under `tradable`: `True` for most adapters, the
      instrument's `state` string for OKX. */
  datatype Tradable = Flag(b: bool) | Label(s: string)

  /** The transfer metadata stage 2 writes into a record. Each adapter writes
      its own subset of keys; a key an adapter never writes is `None`. */
  datatype Transfer = Transfer(
    deposit: bool,
    withdraw: bool,
    name: string,
    withdrawMinFee: Option<real>,
    withdrawMaxFee: Option<real>,
    withdrawMinAmount: Option<real>,
    withdrawMaxAmount: Option<real>,
    depositMinAmount: Option<real>,
    withdrawDelayed: Option<bool>,
    chain: Option<string>,
    baseAnother: Option<string>)

  /** Only `deposit`, `withdraw` and `name` set; the rest filled per adapter. */
  function BasicTransfer(deposit: bool, withdraw: bool, name: string): Transfer {
    Transfer(deposit, withdraw, name, None, None, None, None, None, None, None, None)
  }

  /** One entry of `PAIRS`: seeded with empty `prices`, `tradable` and `quotes`,
      then given transfer metadata by stage 2 and prices by stage 3. */
  datatype PairRecord = PairRecord(
    prices: map<string, real>,
    tradable: Tradable,
    quotes: seq<string>,
    transfer: Option<Transfer>)

  /** `PAIRS`: base symbol to record, for one exchange and one cycle. */
  type PairSet = map<string, PairRecord>
}
