/** What the three stages promise about the `PAIRS` dictionary they build:
    which bases survive each stage, and what their records then hold. */
module PipelineFacts {
  import opened Common
  import opened Records
  import opened Feeds
  import opened Views
  import opened ViewFacts
  import opened Pipeline

  // ---------------------------------------------------------------- stage 1

  /** A base is seeded iff some entry seeds it, and its record is the one some
      seeding entry wrote (the last one, as later entries overwrite). */
  lemma {:induction false} SeedAllSpec(statuses: seq<StatusEntry>, k: string)
    ensures k in SeedAll(statuses) <==> exists i :: 0 <= i < |statuses| && Seeds(statuses[i], k)
    ensures k in SeedAll(statuses) ==>
      exists i :: 0 <= i < |statuses| && Seeds(statuses[i], k) && SeedAll(statuses)[k] == SeedRecord(statuses[i])
    decreases |statuses|
  {
    if statuses != [] {
      var n := |statuses| - 1;
      var init := statuses[..n];
      SeedAllSpec(init, k);
      assert forall i :: 0 <= i < |init| ==> init[i] == statuses[i];
      if Seeds(statuses[n], k) {
        assert SeedAll(statuses)[k] == SeedRecord(statuses[n]);
      } else {
        assert k in SeedAll(statuses) <==> k in SeedAll(init);
        if k in SeedAll(statuses) {
          assert SeedAll(statuses)[k] == SeedAll(init)[k];
        }
        if exists i :: 0 <= i < |statuses| && Seeds(statuses[i], k) {
          var i :| 0 <= i < |statuses| && Seeds(statuses[i], k);
          assert i < n && Seeds(init[i], k);
        }
      }
    }
  }

  /** Every seeded record is empty of prices and metadata, lists the quotes,
      and is marked tradable (`True`, or OKX's "live"). */
  lemma SeededRecordShape(statuses: seq<StatusEntry>, k: string)
    requires k in SeedAll(statuses)
    ensures SeedAll(statuses)[k].prices == map[]
    ensures SeedAll(statuses)[k].quotes == Quotes
    ensures SeedAll(statuses)[k].transfer == None
    ensures SeedAll(statuses)[k].tradable in {Flag(true), Label("live")}
  {
    SeedAllSpec(statuses, k);
  }

  // ---------------------------------------------------------------- stage 2

  /** The views of a coin feed, entry by entry. */
  function ViewsOf(coins: seq<CoinEntry>): (r: seq<CoinView>)
    ensures |r| == |coins|
    ensures forall i :: 0 <= i < |coins| ==> r[i] == CoinViewOf(coins[i])
  {
    seq(|coins|, i requires 0 <= i < |coins| => CoinViewOf(coins[i]))
  }

  /** Stage 2 as a fold over the views of the coin entries. */
  function TransferViews(book: Book, views: seq<CoinView>): Book
    decreases |views|
  {
    if views == [] then book
    else TransferStep(TransferViews(book, views[..|views| - 1]), views[|views| - 1])
  }

  lemma {:induction false} TransferAllViews(book: Book, coins: seq<CoinEntry>)
    ensures TransferAll(book, coins) == TransferViews(book, ViewsOf(coins))
    decreases |coins|
  {
    if coins != [] {
      var n := |coins| - 1;
      TransferAllViews(book, coins[..n]);
      assert ViewsOf(coins)[..n] == ViewsOf(coins[..n]);
    }
  }

  /** The `transfer` annotation of base `k` after the coin views `views`:
      the metadata of the last view about `k`, or `initial` when there is
      none. */
  function LastMeta(views: seq<CoinView>, k: string, initial: Option<Transfer>): Option<Transfer>
    decreases |views|
  {
    if views == [] then initial
    else if views[|views| - 1].base == k then Some(views[|views| - 1].meta)
    else LastMeta(views[..|views| - 1], k, initial)
  }

  lemma {:induction false} TransferViewsSpec(book: Book, views: seq<CoinView>, k: string)
    ensures k in TransferViews(book, views).pairs <==>
      k in book.pairs && forall i :: 0 <= i < |views| && views[i].base == k ==> views[i].enabled
    ensures k in TransferViews(book, views).pairs ==>
      TransferViews(book, views).pairs[k] == book.pairs[k].(transfer := LastMeta(views, k, book.pairs[k].transfer))
    decreases |views|
  {
    if views != [] {
      var n := |views| - 1;
      var init := views[..n];
      TransferViewsSpec(book, init, k);
      assert forall i :: 0 <= i < |init| ==> init[i] == views[i];
      if views[n].base != k {
        assert k in TransferViews(book, views).pairs <==> k in TransferViews(book, init).pairs;
        if k in TransferViews(book, views).pairs {
          assert TransferViews(book, views).pairs[k] == TransferViews(book, init).pairs[k];
        }
        if !(forall i :: 0 <= i < |views| && views[i].base == k ==> views[i].enabled) {
          var i :| 0 <= i < |views| && views[i].base == k && !views[i].enabled;
          assert i < n && init[i].base == k;
        }
      }
    }
  }

  /** Stage 2 keeps a base iff it was present and EVERY coin entry about it
      is enabled (a repeated coin is effectively AND-ed); a kept record only
      changes its `transfer`, to the last entry's metadata. */
  lemma TransferAllSpec(book: Book, coins: seq<CoinEntry>, k: string)
    ensures k in TransferAll(book, coins).pairs <==>
      k in book.pairs &&
      forall i :: 0 <= i < |coins| && CoinViewOf(coins[i]).base == k ==> CoinViewOf(coins[i]).enabled
    ensures k in TransferAll(book, coins).pairs ==>
      TransferAll(book, coins).pairs[k] == book.pairs[k].(transfer := LastMeta(ViewsOf(coins), k, book.pairs[k].transfer))
  {
    TransferAllViews(book, coins);
    TransferViewsSpec(book, ViewsOf(coins), k);
  }

  /** Every alias in `reversed_base` was recorded by an enabled coin entry
      naming it, whose base was already in `PAIRS` when the entry was read,
      and maps to that entry's base. */
  lemma {:induction false} TransferAliases(book: Book, coins: seq<CoinEntry>, a: string)
    requires a in TransferAll(book, coins).reversedBase
    ensures (a in book.reversedBase && TransferAll(book, coins).reversedBase[a] == book.reversedBase[a]) ||
            exists i :: 0 <= i < |coins| && AliasedBy(book, coins, i, a, TransferAll(book, coins).reversedBase[a])
    decreases |coins|
  {
    if coins != [] {
      var n := |coins| - 1;
      var init := coins[..n];
      var v := CoinViewOf(coins[n]);
      if v.alias == Some(a) && v.base in TransferAll(book, init).pairs && v.enabled {
        assert TransferAll(book, coins).reversedBase[a] == v.base;
        assert AliasedBy(book, coins, n, a, v.base);
      } else {
        var base := TransferAll(book, coins).reversedBase[a];
        assert a in TransferAll(book, init).reversedBase;
        assert base == TransferAll(book, init).reversedBase[a];
        TransferAliases(book, init, a);
        if !(a in book.reversedBase && base == book.reversedBase[a]) {
          var i :| 0 <= i < |init| && AliasedBy(book, init, i, a, base);
          assert init[i] == coins[i] && init[..i] == coins[..i];
          assert AliasedBy(book, coins, i, a, base);
        }
      }
    }
  }

  /** Entry `i` of `coins` is enabled, names alias `a` for `base`, and `base`
      was in `PAIRS` when the entry was read. */
  predicate AliasedBy(book: Book, coins: seq<CoinEntry>, i: nat, a: string, base: string)
    requires i < |coins|
  {
    var v := CoinViewOf(coins[i]);
    v.enabled && v.alias == Some(a) && v.base == base && v.base in TransferAll(book, coins[..i]).pairs
  }

  // ---------------------------------------------------------------- stage 3

  /** Ticker `t` is about base `k`. */
  predicate TickerAbout(t: Ticker, reversedBase: map<string, string>, k: string) {
    VerdictOf(t, reversedBase).About? && VerdictOf(t, reversedBase).base == k
  }

  /** Ticker `t` raises, whatever PAIRS holds or when its base is in PAIRS. */
  predicate Faults(t: Ticker, reversedBase: map<string, string>) {
    VerdictOf(t, reversedBase).Raise? ||
    (VerdictOf(t, reversedBase).About? && VerdictOf(t, reversedBase).outcome.Raises?)
  }

  /** The exception a faulting ticker raises. */
  function FaultOf(t: Ticker, reversedBase: map<string, string>): AdapterError
    requires Faults(t, reversedBase)
  {
    if VerdictOf(t, reversedBase).Raise? then VerdictOf(t, reversedBase).failure
    else VerdictOf(t, reversedBase).outcome.error
  }

  /** The verdicts of a ticker feed, entry by entry. */
  function VerdictsOf(tickers: seq<Ticker>, reversedBase: map<string, string>): (r: seq<Verdict>)
    ensures |r| == |tickers|
    ensures forall i :: 0 <= i < |tickers| ==> r[i] == VerdictOf(tickers[i], reversedBase)
  {
    seq(|tickers|, i requires 0 <= i < |tickers| => VerdictOf(tickers[i], reversedBase))
  }

  /** Stage 3 as a fold over the verdicts of the tickers. */
  function PriceVerdicts(pairs: PairSet, verdicts: seq<Verdict>): Result<PairSet, AdapterError>
    decreases |verdicts|
  {
    if verdicts == [] then Ok(pairs)
    else
      var r := PriceVerdicts(pairs, verdicts[..|verdicts| - 1]);
      if r.Err? then r else PriceStep(r.value, verdicts[|verdicts| - 1])
  }

  lemma {:induction false} PriceAllVerdicts(pairs: PairSet, reversedBase: map<string, string>, tickers: seq<Ticker>)
    ensures PriceAll(pairs, reversedBase, tickers) == PriceVerdicts(pairs, VerdictsOf(tickers, reversedBase))
    decreases |tickers|
  {
    if tickers != [] {
      var n := |tickers| - 1;
      PriceAllVerdicts(pairs, reversedBase, tickers[..n]);
      assert VerdictsOf(tickers, reversedBase)[..n] == VerdictsOf(tickers[..n], reversedBase);
    }
  }

  /** The price of the last verdict about `k` that stores one. */
  function LastStored(verdicts: seq<Verdict>, k: string): Option<real>
    decreases |verdicts|
  {
    if verdicts == [] then None
    else
      var v := verdicts[|verdicts| - 1];
      if v.About? && v.base == k && v.outcome.Store? then Some(v.outcome.price)
      else LastStored(verdicts[..|verdicts| - 1], k)
  }

  function WithPrice(prices: map<string, real>, x: Option<real>): map<string, real> {
    match x
    case None => prices
    case Some(p) => prices[Quote := p]
  }

  /** Every stored price is stored under USDT, Gate's parsed quote included. */
  lemma StoredQuoteIsUsdt(t: Ticker, reversedBase: map<string, string>)
    requires VerdictOf(t, reversedBase).About? && VerdictOf(t, reversedBase).outcome.Store?
    ensures VerdictOf(t, reversedBase).outcome.quote == Quote
  {
  }

  /** One ticker: a base it is not about keeps its record; the base it is
      about survives iff the outcome is a store, which sets its USDT price. */
  lemma PriceStepSpec(pairs: PairSet, t: Ticker, reversedBase: map<string, string>, k: string)
    requires PriceStep(pairs, VerdictOf(t, reversedBase)).Ok?
    ensures var r := PriceStep(pairs, VerdictOf(t, reversedBase)).value;
            if TickerAbout(t, reversedBase, k) then
              (k in r <==> k in pairs && VerdictOf(t, reversedBase).outcome.Store?) &&
              (k in r ==> r[k] == pairs[k].(prices := pairs[k].prices[Quote := VerdictOf(t, reversedBase).outcome.price]))
            else
              (k in r <==> k in pairs) && (k in r ==> r[k] == pairs[k])
  {
    var v := VerdictOf(t, reversedBase);
    if v.About? && v.outcome.Store? {
      StoredQuoteIsUsdt(t, reversedBase);
    }
    VerdictStepSpec(pairs, v, k);
  }

  /** `PriceStepSpec` for a verdict that stores under USDT. */
  lemma VerdictStepSpec(pairs: PairSet, v: Verdict, k: string)
    requires PriceStep(pairs, v).Ok?
    requires v.About? && v.outcome.Store? ==> v.outcome.quote == Quote
    ensures var r := PriceStep(pairs, v).value;
            if v.About? && v.base == k then
              (k in r <==> k in pairs && v.outcome.Store?) &&
              (k in r ==> r[k] == pairs[k].(prices := pairs[k].prices[Quote := v.outcome.price]))
            else
              (k in r <==> k in pairs) && (k in r ==> r[k] == pairs[k])
  {
  }

  /** Ticker `t` lets base `k` survive: it is not about `k`, or it stores a
      price for it. */
  predicate Keeps(t: Ticker, reversedBase: map<string, string>, k: string) {
    VerdictKeeps(VerdictOf(t, reversedBase), k)
  }

  predicate VerdictKeeps(v: Verdict, k: string) {
    v.About? && v.base == k ==> v.outcome.Store?
  }

  /** Every price the verdicts store is stored under USDT. */
  predicate StoresUsdt(verdicts: seq<Verdict>) {
    forall i :: 0 <= i < |verdicts| && verdicts[i].About? && verdicts[i].outcome.Store? ==>
      verdicts[i].outcome.quote == Quote
  }

  lemma {:induction false} PriceVerdictsSpec(pairs: PairSet, verdicts: seq<Verdict>, k: string)
    requires PriceVerdicts(pairs, verdicts).Ok? && StoresUsdt(verdicts)
    ensures k in PriceVerdicts(pairs, verdicts).value <==>
      k in pairs && forall i :: 0 <= i < |verdicts| ==> VerdictKeeps(verdicts[i], k)
    ensures k in PriceVerdicts(pairs, verdicts).value ==>
      PriceVerdicts(pairs, verdicts).value[k] == pairs[k].(prices := WithPrice(pairs[k].prices, LastStored(verdicts, k)))
    decreases |verdicts|
  {
    if verdicts != [] {
      var n := |verdicts| - 1;
      var init := verdicts[..n];
      var v := verdicts[n];
      assert PriceVerdicts(pairs, init).Ok?;
      assert StoresUsdt(init) by {
        assert forall i :: 0 <= i < |init| ==> init[i] == verdicts[i];
      }
      PriceVerdictsSpec(pairs, init, k);
      var mid := PriceVerdicts(pairs, init).value;
      assert (forall i :: 0 <= i < |verdicts| ==> VerdictKeeps(verdicts[i], k)) <==>
             (forall i :: 0 <= i < |init| ==> VerdictKeeps(init[i], k)) && VerdictKeeps(v, k) by {
        assert forall i :: 0 <= i < |init| ==> init[i] == verdicts[i];
      }
      if v.About? && v.outcome.Store? {
        assert v.outcome.quote == Quote;
      }
    }
  }

  /** When stage 3 completes, a base survives iff it was present and every
      ticker about it stores a price (for a non-empty base: is liquid); a
      surviving record only changes its USDT price, to the last stored one. */
  lemma PriceAllSpec(pairs: PairSet, reversedBase: map<string, string>, tickers: seq<Ticker>, k: string)
    requires PriceAll(pairs, reversedBase, tickers).Ok?
    ensures k in PriceAll(pairs, reversedBase, tickers).value <==>
      k in pairs && forall i :: 0 <= i < |tickers| ==> Keeps(tickers[i], reversedBase, k)
    ensures k in PriceAll(pairs, reversedBase, tickers).value ==>
      PriceAll(pairs, reversedBase, tickers).value[k] ==
        pairs[k].(prices := WithPrice(pairs[k].prices, LastStored(VerdictsOf(tickers, reversedBase), k)))
  {
    var verdicts := VerdictsOf(tickers, reversedBase);
    PriceAllVerdicts(pairs, reversedBase, tickers);
    forall i | 0 <= i < |verdicts| && verdicts[i].About? && verdicts[i].outcome.Store?
      ensures verdicts[i].outcome.quote == Quote
    {
      StoredQuoteIsUsdt(tickers[i], reversedBase);
    }
    PriceVerdictsSpec(pairs, verdicts, k);
  }

  /** Stage 3 fails only with the exception of some faulting ticker. */
  lemma {:induction false} PriceAllErrCause(pairs: PairSet, reversedBase: map<string, string>, tickers: seq<Ticker>)
    requires PriceAll(pairs, reversedBase, tickers).Err?
    ensures exists i :: 0 <= i < |tickers| && Faults(tickers[i], reversedBase) &&
                        PriceAll(pairs, reversedBase, tickers).error == FaultOf(tickers[i], reversedBase)
    decreases |tickers|
  {
    var n := |tickers| - 1;
    var init := tickers[..n];
    if PriceAll(pairs, reversedBase, init).Err? {
      PriceAllErrCause(pairs, reversedBase, init);
      var i :| 0 <= i < |init| && Faults(init[i], reversedBase) &&
               PriceAll(pairs, reversedBase, init).error == FaultOf(init[i], reversedBase);
      assert init[i] == tickers[i];
    } else {
      assert Faults(tickers[n], reversedBase);
    }
  }

  /** A Gate pair without '_' aborts the adapter, whatever PAIRS holds. */
  lemma GateMalformedPairAborts(pairs: PairSet, reversedBase: map<string, string>, tickers: seq<Ticker>, i: nat)
    requires i < |tickers| && tickers[i].GateTicker? && '_' !in tickers[i].currencyPair
    requires PriceAll(pairs, reversedBase, tickers[..i]).Ok?
    ensures PriceAll(pairs, reversedBase, tickers) == Err(MissingQuotePart)
  {
    assert tickers[..i + 1][..i] == tickers[..i];
    assert PriceAll(pairs, reversedBase, tickers[..i + 1]) == Err(MissingQuotePart);
    PriceAllErrSticky(pairs, reversedBase, tickers, i + 1);
  }

  /** For a non-empty base, a stored price always comes from a ticker about
      that base that passed the liquidity filter, and is that ticker's
      quoted price. */
  lemma {:induction false} LastStoredIsLiquid(tickers: seq<Ticker>, reversedBase: map<string, string>, k: string)
    requires k != "" && LastStored(VerdictsOf(tickers, reversedBase), k).Some?
    ensures exists i :: 0 <= i < |tickers| && TickerAbout(tickers[i], reversedBase, k) && Liquid(tickers[i]) &&
                        LastStored(VerdictsOf(tickers, reversedBase), k).value == QuotedPrice(tickers[i])
    decreases |tickers|
  {
    var n := |tickers| - 1;
    var init := tickers[..n];
    var v := VerdictOf(tickers[n], reversedBase);
    if v.About? && v.base == k && v.outcome.Store? {
      StoreIffLiquid(tickers[n], reversedBase, k, v.outcome);
    } else {
      assert VerdictsOf(tickers, reversedBase)[..n] == VerdictsOf(init, reversedBase);
      LastStoredIsLiquid(init, reversedBase, k);
      var i :| 0 <= i < |init| && TickerAbout(init[i], reversedBase, k) && Liquid(init[i]) &&
               LastStored(VerdictsOf(init, reversedBase), k).value == QuotedPrice(init[i]);
      assert init[i] == tickers[i];
    }
  }

  // ---------------------------------------------------------------- adapter

  /** The whole adapter: a base is in the snapshot iff some status entry seeds
      it, every coin entry about it is enabled, and every ticker about it
      stores a price (for a non-empty base: is liquid); its record is the
      seed record with the last metadata and the last stored USDT price. */
  lemma NormalizedSpec(statuses: seq<StatusEntry>, coins: seq<CoinEntry>, tickers: seq<Ticker>, k: string)
    requires Normalized(statuses, coins, tickers).Ok?
    ensures k in Normalized(statuses, coins, tickers).value <==>
      (exists i :: 0 <= i < |statuses| && Seeds(statuses[i], k)) &&
      (forall i :: 0 <= i < |coins| && CoinViewOf(coins[i]).base == k ==> CoinViewOf(coins[i]).enabled) &&
      (forall i :: 0 <= i < |tickers| ==> Keeps(tickers[i], ReversedBase(statuses, coins), k))
    ensures k in Normalized(statuses, coins, tickers).value ==>
      var r := Normalized(statuses, coins, tickers).value[k];
      r.prices == WithPrice(map[], LastStored(VerdictsOf(tickers, ReversedBase(statuses, coins)), k)) &&
      r.quotes == Quotes &&
      r.tradable in {Flag(true), Label("live")} &&
      r.transfer == LastMeta(ViewsOf(coins), k, None)
  {
    var seeded := SeedAll(statuses);
    var book := TransferAll(Book(seeded, map[]), coins);
    SeedAllSpec(statuses, k);
    TransferAllSpec(Book(seeded, map[]), coins, k);
    PriceAllSpec(book.pairs, book.reversedBase, tickers, k);
    if k in seeded {
      SeededRecordShape(statuses, k);
    }
  }

  /** A kept base with metadata is depositable and withdrawable. */
  lemma {:induction false} KeptMetaIsEnabled(coins: seq<CoinEntry>, k: string)
    requires forall i :: 0 <= i < |coins| && CoinViewOf(coins[i]).base == k ==> CoinViewOf(coins[i]).enabled
    requires LastMeta(ViewsOf(coins), k, None).Some?
    ensures LastMeta(ViewsOf(coins), k, None).value.deposit && LastMeta(ViewsOf(coins), k, None).value.withdraw
    decreases |coins|
  {
    var n := |coins| - 1;
    if CoinViewOf(coins[n]).base == k {
      EnabledMetaTransfers(coins[n]);
    } else {
      var init := coins[..n];
      assert forall i :: 0 <= i < |init| ==> init[i] == coins[i];
      assert ViewsOf(coins)[..n] == ViewsOf(init);
      KeptMetaIsEnabled(init, k);
    }
  }

  /** OKX deletes a seeded base as soon as one of its instruments is quoted
      in anything but USDT (`elif base in PAIRS: PAIRS.pop(base)`). */
  lemma OkxForeignQuoteDeletes(statuses: seq<StatusEntry>, coins: seq<CoinEntry>, tickers: seq<Ticker>, i: nat)
    requires i < |tickers| && tickers[i].OkxTicker? && !EndsWith(Without(tickers[i].instId, '-'), Quote)
    requires Normalized(statuses, coins, tickers).Ok?
    ensures Before(tickers[i].instId, '-') !in Normalized(statuses, coins, tickers).value
  {
    var k := Before(tickers[i].instId, '-');
    assert TickerAbout(tickers[i], ReversedBase(statuses, coins), k);
    NormalizedSpec(statuses, coins, tickers, k);
  }

  /** A seeded base that no coin entry and no ticker mentions stays in the
      snapshot with no price at all. */
  lemma PricelessRecordSurvives()
    ensures Normalized([BinanceSymbol("BTC", "USDT", "TRADING")], [], []) ==
      Ok(map["BTC" := PairRecord(map[], Flag(true), Quotes, None)])
  {
    var e := BinanceSymbol("BTC", "USDT", "TRADING");
    assert [e][..0] == [];
    assert SeedAll([e]) == map["BTC" := PairRecord(map[], Flag(true), Quotes, None)];
  }
}
