/** The three-stage merge every full adapter's `get_tickers_price` runs over
    its local `PAIRS` dictionary (core/exchanges.py, Binance, KuCoin, Bitget,
    OKX, Bybit and Gate). Each stage is specified by a fold over its feed
    (SeedAll, TransferAll, PriceAll) and implemented by a loop that inserts
    and deletes keys exactly as the adapters do. */
module Pipeline {
  import opened Common
  import opened Records
  import opened Feeds
  import opened Chains
  import opened Views

  // ---------------------------------------------------------------- stage 1

  /** The entry seeds base `k`: it is active and quoted in an accepted quote. */
  predicate Seeds(e: StatusEntry, k: string) {
    IsActive(e) && StatusQuote(e) in Quotes && StatusBase(e) == k
  }

  function SeedStep(pairs: PairSet, e: StatusEntry): PairSet {
    if IsActive(e) && StatusQuote(e) in Quotes then pairs[StatusBase(e) := SeedRecord(e)] else pairs
  }

  function SeedAll(statuses: seq<StatusEntry>): PairSet
    decreases |statuses|
  {
    if statuses == [] then map[]
    else SeedStep(SeedAll(statuses[..|statuses| - 1]), statuses[|statuses| - 1])
  }

  /** Stage 1: start from an empty PAIRS and (re)write a seed record for every
      active entry quoted in USDT. */
  method SeedStage(statuses: seq<StatusEntry>) returns (pairs: PairSet)
    ensures pairs == SeedAll(statuses)
  {
    pairs := map[];
    for i := 0 to |statuses|
      invariant pairs == SeedAll(statuses[..i])
    {
      var e := statuses[i];
      assert statuses[..i + 1][..i] == statuses[..i];
      if !IsActive(e) {
        continue;
      }
      if StatusQuote(e) !in Quotes {
        continue;
      }
      pairs := pairs[StatusBase(e) := SeedRecord(e)];
    }
    assert statuses[..|statuses|] == statuses;
  }

  // ---------------------------------------------------------------- stage 2

  /** PAIRS together with KuCoin's `reversed_base` (empty for the others). */
  datatype Book = Book(pairs: PairSet, reversedBase: map<string, string>)

  function TransferStep(book: Book, v: CoinView): Book {
    if v.base !in book.pairs then book
    else if v.enabled then
      Book(book.pairs[v.base := book.pairs[v.base].(transfer := Some(v.meta))],
           if v.alias.Some? then book.reversedBase[v.alias.value := v.base] else book.reversedBase)
    else book.(pairs := book.pairs - {v.base})
  }

  function TransferAll(book: Book, coins: seq<CoinEntry>): Book
    decreases |coins|
  {
    if coins == [] then book
    else TransferStep(TransferAll(book, coins[..|coins| - 1]), CoinViewOf(coins[|coins| - 1]))
  }

  /** Reads one coin entry; for Bitget and Bybit this runs the chain loop. */
  method ReadCoin(c: CoinEntry) returns (v: CoinView)
    ensures v == CoinViewOf(c)
  {
    match c
    case BitgetCoin(b, cs) =>
      var s := AggregateChains(cs);
      v := ChainCoinView(b, s);
    case BybitCoin(b, cs) =>
      var s := AggregateChains(cs);
      v := ChainCoinView(b, s);
    case _ =>
      v := CoinViewOf(c);
  }

  /** Stage 2: skip coins whose base is not in PAIRS; otherwise annotate the
      record (and, for KuCoin, remember the alias) or delete it. */
  method TransferStage(seeded: PairSet, coins: seq<CoinEntry>) returns (pairs: PairSet, reversedBase: map<string, string>)
    ensures Book(pairs, reversedBase) == TransferAll(Book(seeded, map[]), coins)
  {
    pairs, reversedBase := seeded, map[];
    for i := 0 to |coins|
      invariant Book(pairs, reversedBase) == TransferAll(Book(seeded, map[]), coins[..i])
    {
      assert coins[..i + 1][..i] == coins[..i];
      var v := ReadCoin(coins[i]);
      if v.base !in pairs {
        continue;
      }
      if v.enabled {
        pairs := pairs[v.base := pairs[v.base].(transfer := Some(v.meta))];
        if v.alias.Some? {
          reversedBase := reversedBase[v.alias.value := v.base];
        }
      } else {
        pairs := pairs - {v.base};
      }
    }
    assert coins[..|coins|] == coins;
  }

  // ---------------------------------------------------------------- stage 3

  function PriceStep(pairs: PairSet, v: Verdict): Result<PairSet, AdapterError> {
    match v
    case Ignore => Ok(pairs)
    case Raise(e) => Err(e)
    case About(b, o) =>
      if b !in pairs then Ok(pairs)
      else
        match o
        case Store(q, x) => Ok(pairs[b := pairs[b].(prices := pairs[b].prices[q := x])])
        case Drop => Ok(pairs - {b})
        case Raises(e) => Err(e)
  }

  function PriceAll(pairs: PairSet, reversedBase: map<string, string>, tickers: seq<Ticker>): Result<PairSet, AdapterError>
    decreases |tickers|
  {
    if tickers == [] then Ok(pairs)
    else
      var r := PriceAll(pairs, reversedBase, tickers[..|tickers| - 1]);
      if r.Err? then r else PriceStep(r.value, VerdictOf(tickers[|tickers| - 1], reversedBase))
  }

  /** An exception ends the adapter: later tickers change nothing. */
  lemma {:induction false} PriceAllErrSticky(pairs: PairSet, reversedBase: map<string, string>, tickers: seq<Ticker>, i: nat)
    requires i <= |tickers| && PriceAll(pairs, reversedBase, tickers[..i]).Err?
    ensures PriceAll(pairs, reversedBase, tickers) == PriceAll(pairs, reversedBase, tickers[..i])
    decreases |tickers|
  {
    if i == |tickers| {
      assert tickers[..i] == tickers;
    } else {
      var init := tickers[..|tickers| - 1];
      assert init[..i] == tickers[..i];
      PriceAllErrSticky(pairs, reversedBase, init, i);
    }
  }

  /** Stage 3: store the price of every ticker whose verdict is a store
      (for a non-empty base: every liquid ticker) whose base is in PAIRS,
      delete the base of every other ticker about a base in PAIRS, and stop
      at the first exception. */
  method PriceStage(seeded: PairSet, reversedBase: map<string, string>, tickers: seq<Ticker>)
    returns (r: Result<PairSet, AdapterError>)
    ensures r == PriceAll(seeded, reversedBase, tickers)
  {
    var pairs := seeded;
    for i := 0 to |tickers|
      invariant PriceAll(seeded, reversedBase, tickers[..i]) == Ok(pairs)
    {
      assert tickers[..i + 1][..i] == tickers[..i];
      match VerdictOf(tickers[i], reversedBase)
      case Ignore =>
      case Raise(e) =>
        PriceAllErrSticky(seeded, reversedBase, tickers, i + 1);
        return Err(e);
      case About(b, o) =>
        if b in pairs {
          match o
          case Store(q, x) =>
            pairs := pairs[b := pairs[b].(prices := pairs[b].prices[q := x])];
          case Drop =>
            pairs := pairs - {b};
          case Raises(e) =>
            PriceAllErrSticky(seeded, reversedBase, tickers, i + 1);
            return Err(e);
        }
    }
    assert tickers[..|tickers|] == tickers;
    r := Ok(pairs);
  }

  // ---------------------------------------------------------------- adapter

  /** The `reversed_base` dictionary stage 2 leaves for stage 3. */
  function ReversedBase(statuses: seq<StatusEntry>, coins: seq<CoinEntry>): map<string, string> {
    TransferAll(Book(SeedAll(statuses), map[]), coins).reversedBase
  }

  /** The snapshot one adapter produces from its three feeds, or the
      exception that aborted it. */
  function Normalized(statuses: seq<StatusEntry>, coins: seq<CoinEntry>, tickers: seq<Ticker>): Result<PairSet, AdapterError> {
    var book := TransferAll(Book(SeedAll(statuses), map[]), coins);
    PriceAll(book.pairs, book.reversedBase, tickers)
  }

  /** `get_tickers_price` of a full adapter, after its three fetches. */
  method GetTickersPrice(statuses: seq<StatusEntry>, coins: seq<CoinEntry>, tickers: seq<Ticker>)
    returns (r: Result<PairSet, AdapterError>)
    ensures r == Normalized(statuses, coins, tickers)
  {
    var seeded := SeedStage(statuses);
    var pairs, reversedBase := TransferStage(seeded, coins);
    r := PriceStage(pairs, reversedBase, tickers);
  }
}
