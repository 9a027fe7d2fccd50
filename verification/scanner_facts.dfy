/** Properties of `find_arbitrage_pairs`: the price ratio, what one pair's
    base loop signals, the pair enumeration, and what a whole scan yields
    whatever order the bases are visited in. */
module ScannerFacts {
  import opened Common
  import opened Records
  import opened Scanner

  // ------------------------------------------------------------ the ratio

  /** The ratio does not depend on which exchange is A. */
  lemma RatioSymmetric(pa: real, pb: real)
    ensures Ratio(pa, pb) == Ratio(pb, pa)
  {
  }

  /** For positive prices the ratio is the smaller over the larger: it lies
      in (0, 1] and is 1 exactly when the prices agree. */
  lemma RatioBounds(pa: real, pb: real)
    requires 0.0 < pa && 0.0 < pb
    ensures Ratio(pa, pb) == Some(Min(pa, pb) / Max(pa, pb))
    ensures 0.0 < Ratio(pa, pb).value <= 1.0
    ensures Ratio(pa, pb).value == 1.0 <==> pa == pb
  {
    var lo, hi := Min(pa, pb), Max(pa, pb);
    assert lo / hi * hi == lo;
    if lo / hi == 1.0 {
      assert lo == hi;
    }
  }

  /** A pair of positive prices is a signal iff the smaller one is below
      `limit` times the larger one. */
  lemma SignalIffBelowLimit(pa: real, pb: real)
    requires 0.0 < pa && 0.0 < pb
    ensures Ratio(pa, pb).Some?
    ensures Ratio(pa, pb).value < Limit <==> Min(pa, pb) < Limit * Max(pa, pb)
  {
    RatioBounds(pa, pb);
    var lo, hi := Min(pa, pb), Max(pa, pb);
    var r := lo / hi;
    assert r * hi == lo;
    if r < Limit {
      assert r * hi < Limit * hi;
    } else {
      assert r * hi >= Limit * hi;
    }
  }

  /** A zero price only raises when it is the denominator: a zero A price
      against a positive B price is ratio 0, always a signal. */
  lemma ZeroPriceCases(p: real)
    ensures Ratio(0.0, 0.0) == None
    ensures 0.0 < p ==> Ratio(0.0, p) == Some(0.0) && Ratio(p, 0.0) == Some(0.0)
  {
  }

  // ------------------------------------------------------- one pair's loop

  /** A signal is justified for the pair: it names the pair, its base is in
      both snapshots, is not marked bad for the pair, has a USDT price on
      both sides, and its ratio is that of the two prices and below `limit`. */
  predicate Justified(ctx: PairCtx, s: Signal) {
    s.exchangeA == ctx.a && s.exchangeB == ctx.b &&
    s.base in ctx.ta && s.base in ctx.tb &&
    !MarksBad(ctx.bad, s.base, ctx.a, ctx.b) &&
    Quote in ctx.ta[s.base].prices && Quote in ctx.tb[s.base].prices &&
    Ratio(ctx.ta[s.base].prices[Quote], ctx.tb[s.base].prices[Quote]) == Some(s.ratio) &&
    s.ratio < Limit
  }

  /** Base `x` was compared: it is not marked bad, both prices are present,
      the ratio exists, and a ratio below `limit` was signalled. */
  predicate Compared(ctx: PairCtx, x: string, signals: seq<Signal>) {
    x in ctx.ta && x in ctx.tb &&
    !MarksBad(ctx.bad, x, ctx.a, ctx.b) &&
    Quote in ctx.ta[x].prices && Quote in ctx.tb[x].prices &&
    Ratio(ctx.ta[x].prices[Quote], ctx.tb[x].prices[Quote]).Some? &&
    (Ratio(ctx.ta[x].prices[Quote], ctx.tb[x].prices[Quote]).value < Limit ==>
       Signal(ctx.a, ctx.b, x, Ratio(ctx.ta[x].prices[Quote], ctx.tb[x].prices[Quote]).value) in signals)
  }

  /** Signals are only appended, and every one appended is justified and
      about a base of the visit order. */
  lemma {:induction false} ScanBasesSound(init: PairScan, ctx: PairCtx, order: seq<string>)
    requires InBoth(ctx, order)
    ensures init.signals <= ScanBases(init, ctx, order).signals
    ensures forall i :: |init.signals| <= i < |ScanBases(init, ctx, order).signals| ==>
      Justified(ctx, ScanBases(init, ctx, order).signals[i]) && ScanBases(init, ctx, order).signals[i].base in order
    decreases |order|
  {
    if order != [] {
      var prefix := order[..|order| - 1];
      assert InBoth(ctx, prefix);
      ScanBasesSound(init, ctx, prefix);
      var st := ScanBases(init, ctx, prefix);
      var fin := ScanBases(init, ctx, order);
      forall i | |init.signals| <= i < |fin.signals|
        ensures Justified(ctx, fin.signals[i]) && fin.signals[i].base in order
      {
        if i < |st.signals| {
          assert fin.signals[i] == st.signals[i];
          assert st.signals[i].base in prefix;
        } else {
          assert fin.signals[i].base == order[|order| - 1];
        }
      }
    }
  }

  /** `flag_bad_exchanges` is never cleared: once set, the rest of the pair's
      bases are skipped and nothing changes. */
  lemma {:induction false} FlaggedIsFinal(st: PairScan, ctx: PairCtx, order: seq<string>)
    requires InBoth(ctx, order) && st.flagged
    ensures ScanBases(st, ctx, order) == st
    decreases |order|
  {
    if order != [] {
      assert InBoth(ctx, order[..|order| - 1]);
      FlaggedIsFinal(st, ctx, order[..|order| - 1]);
    }
  }

  /** When the loop finishes, the flag is set iff it was set initially or
      some visited base is marked bad for the pair. */
  lemma {:induction false} FlagIffSomeMarked(init: PairScan, ctx: PairCtx, order: seq<string>)
    requires InBoth(ctx, order)
    ensures ScanBases(init, ctx, order).failure.None? ==>
      (ScanBases(init, ctx, order).flagged <==>
         init.flagged || exists i :: 0 <= i < |order| && MarksBad(ctx.bad, order[i], ctx.a, ctx.b))
    decreases |order|
  {
    if order != [] {
      var prefix := order[..|order| - 1];
      assert InBoth(ctx, prefix);
      FlagIffSomeMarked(init, ctx, prefix);
      assert forall i :: 0 <= i < |prefix| ==> prefix[i] == order[i];
    }
  }

  /** A loop that ends unflagged and without an exception compared every
      base it visited, and signalled each one whose ratio is below `limit`. */
  lemma {:induction false} ScanBasesComplete(init: PairScan, ctx: PairCtx, order: seq<string>)
    requires InBoth(ctx, order)
    ensures var st := ScanBases(init, ctx, order);
      st.failure.None? && !st.flagged ==> forall i :: 0 <= i < |order| ==> Compared(ctx, order[i], st.signals)
    decreases |order|
  {
    var st := ScanBases(init, ctx, order);
    if order != [] && st.failure.None? && !st.flagged {
      var prefix := order[..|order| - 1];
      assert InBoth(ctx, prefix);
      ScanBasesComplete(init, ctx, prefix);
      var pre := ScanBases(init, ctx, prefix);
      assert pre.failure.None? && !pre.flagged;
      assert pre.signals <= st.signals;
      forall i | 0 <= i < |order|
        ensures Compared(ctx, order[i], st.signals)
      {
        if i < |prefix| {
          assert prefix[i] == order[i];
          assert Compared(ctx, order[i], pre.signals);
        }
      }
    }
  }

  /** The exclusion flag outlives the base that set it: with X marked bad
      for the pair, visiting X before Y silences Y, and visiting Y first
      signals Y. */
  lemma ExclusionDependsOnOrder()
    ensures var rec := (x: real) => PairRecord(map[Quote := x], Flag(true), Quotes, None);
      var ctx := PairCtx("binance", "okx", map["X" := rec(1.0), "Y" := rec(1.0)],
                         map["X" := rec(1.0), "Y" := rec(2.0)], map["X" := [["binance", "okx"]]]);
      InBoth(ctx, ["X", "Y"]) && InBoth(ctx, ["Y", "X"]) &&
      ScanBases(PairScan([], false, None), ctx, ["X", "Y"]) == PairScan([], true, None) &&
      ScanBases(PairScan([], false, None), ctx, ["Y", "X"]) == PairScan([Signal("binance", "okx", "Y", 0.5)], true, None)
  {
    var rec := (x: real) => PairRecord(map[Quote := x], Flag(true), Quotes, None);
    var ctx := PairCtx("binance", "okx", map["X" := rec(1.0), "Y" := rec(1.0)],
                       map["X" := rec(1.0), "Y" := rec(2.0)], map["X" := [["binance", "okx"]]]);
    assert MarksBad(ctx.bad, "X", "binance", "okx") by {
      assert "binance" in ctx.bad["X"][0] && "okx" in ctx.bad["X"][0];
    }
    assert ["X", "Y"][..1] == ["X"] && ["Y", "X"][..1] == ["Y"];
    assert ["X"][..0] == [] && ["Y"][..0] == [];
  }

  // ------------------------------------------------------------ the pairs

  /** The pair loop produces exactly the pairs `(names[h], names[k])` with
      `h < k`. */
  lemma {:induction false} AllPairsMembers(names: seq<string>, p: (string, string))
    requires |names| > 0
    ensures p in AllPairs(names) <==> exists h, k :: 0 <= h < k < |names| && p == (names[h], names[k])
  {
    PairsBeforeMembers(names, |names| - 1, p);
  }

  lemma {:induction false} PairsBeforeLength(names: seq<string>, i: nat)
    requires i <= |names|
    ensures 2 * |PairsBefore(names, i)| == i * (2 * |names| - i - 1)
    decreases i
  {
    if i > 0 {
      PairsBeforeLength(names, i - 1);
      var prev, row := |PairsBefore(names, i - 1)|, |Row(names, i - 1)|;
      assert row == |names| - i;
      assert |PairsBefore(names, i)| == prev + row;
      RowCountStep(i, |names|);
    }
  }

  /** One more row of `n - i` pairs. */
  lemma RowCountStep(i: int, n: int)
    ensures (i - 1) * (2 * n - (i - 1) - 1) + 2 * (n - i) == i * (2 * n - i - 1)
  {
  }

  /** Every unordered pair once: n * (n - 1) / 2 pairs. */
  lemma {:induction false} AllPairsLength(names: seq<string>)
    requires |names| > 0
    ensures 2 * |AllPairs(names)| == |names| * (|names| - 1)
  {
    PairsBeforeLength(names, |names| - 1);
  }

  /** The six pairs of the four scanned exchanges, in loop order. */
  lemma ExchangePairsInOrder()
    ensures ExchangePairs() == [("binance", "okx"), ("binance", "gate"), ("binance", "kucoin"),
                                ("okx", "gate"), ("okx", "kucoin"), ("gate", "kucoin")]
  {
    var n := ValidExchanges;
    assert Row(n, 0) == [("binance", "okx"), ("binance", "gate"), ("binance", "kucoin")];
    assert Row(n, 1) == [("okx", "gate"), ("okx", "kucoin")];
    assert Row(n, 2) == [("gate", "kucoin")];
    assert PairsBefore(n, 1) == Row(n, 0);
    assert PairsBefore(n, 2) == Row(n, 0) + Row(n, 1);
    assert PairsBefore(n, 3) == Row(n, 0) + Row(n, 1) + Row(n, 2);
  }

  // -------------------------------------------------------- a whole scan

  /** The scan fails iff some pair failed. */
  lemma {:induction false} CombineNoFailure(outcomes: seq<ScanResult>)
    ensures Combine(outcomes).failure.None? <==> NoFailure(outcomes)
    decreases |outcomes|
  {
    if outcomes != [] {
      var prefix := outcomes[..|outcomes| - 1];
      CombineNoFailure(prefix);
      assert forall k :: 0 <= k < |prefix| ==> prefix[k] == outcomes[k];
    }
  }

  /** The exception that ends a scan is the one of the last pair scanned. */
  lemma {:induction false} CombineFailure(outcomes: seq<ScanResult>)
    requires outcomes != [] && OnlyLastFails(outcomes)
    ensures Combine(outcomes).failure == outcomes[|outcomes| - 1].failure
  {
    var prefix := outcomes[..|outcomes| - 1];
    assert NoFailure(prefix) by {
      assert forall k :: 0 <= k < |prefix| ==> prefix[k] == outcomes[k];
    }
    CombineNoFailure(prefix);
  }

  /** Every signal sent comes from some pair scanned. */
  lemma {:induction false} CombineSignalsFrom(outcomes: seq<ScanResult>, s: Signal)
    requires s in Combine(outcomes).signals
    ensures exists k :: 0 <= k < |outcomes| && s in outcomes[k].signals
    decreases |outcomes|
  {
    var prefix := outcomes[..|outcomes| - 1];
    if s in Combine(prefix).signals {
      CombineSignalsFrom(prefix, s);
      var k :| 0 <= k < |prefix| && s in prefix[k].signals;
      assert prefix[k] == outcomes[k];
    }
  }

  /** Without an exception, every signal of every pair is sent. */
  lemma {:induction false} CombineSignalsAll(outcomes: seq<ScanResult>, k: nat, s: Signal)
    requires NoFailure(outcomes) && k < |outcomes| && s in outcomes[k].signals
    ensures s in Combine(outcomes).signals
    decreases |outcomes|
  {
    var prefix := outcomes[..|outcomes| - 1];
    assert NoFailure(prefix) by {
      assert forall j :: 0 <= j < |prefix| ==> prefix[j] == outcomes[j];
    }
    CombineNoFailure(prefix);
    if k < |prefix| {
      assert prefix[k] == outcomes[k];
      CombineSignalsAll(prefix, k, s);
    }
  }

  /** Soundness: every signal a scan sends is justified for one of the pairs
      of the scanned exchanges, whatever the visit orders. */
  lemma {:induction false} ScanSignalsJustified(snapshots: Snapshots, bad: BadBases, orders: seq<seq<string>>,
                             outcomes: seq<ScanResult>, s: Signal)
    requires ScannedPrefix(snapshots, bad, ExchangePairs(), orders, outcomes)
    requires s in Combine(outcomes).signals
    ensures exists k :: 0 <= k < |outcomes| && ExchangePairs()[k].0 in snapshots && ExchangePairs()[k].1 in snapshots &&
                        Justified(Ctx(snapshots, bad, ExchangePairs()[k]), s)
  {
    CombineSignalsFrom(outcomes, s);
    var k :| 0 <= k < |outcomes| && s in outcomes[k].signals;
    var p := ExchangePairs()[k];
    assert PairScanned(snapshots, bad, p, orders[k], outcomes[k]);
    var ctx := Ctx(snapshots, bad, p);
    assert InBoth(ctx, orders[k]);
    ScanBasesSound(PairScan([], false, None), ctx, orders[k]);
    var i :| 0 <= i < |outcomes[k].signals| && outcomes[k].signals[i] == s;
  }

  /** Completeness when `bad_bases` is empty: a scan that ends without an
      exception covered all six pairs, compared every base two snapshots
      share, and signalled every such base whose ratio is below `limit`. */
  lemma {:induction false} ScanCompleteWithoutExclusions(snapshots: Snapshots, orders: seq<seq<string>>, outcomes: seq<ScanResult>)
    requires ScannedPrefix(snapshots, map[], ExchangePairs(), orders, outcomes)
    requires |outcomes| < |ExchangePairs()| ==> Combine(outcomes).failure.Some?
    requires Combine(outcomes).failure.None?
    ensures |outcomes| == |ExchangePairs()|
    ensures forall k :: 0 <= k < |outcomes| ==>
      ExchangePairs()[k].0 in snapshots && ExchangePairs()[k].1 in snapshots &&
      forall x :: x in snapshots[ExchangePairs()[k].0] && x in snapshots[ExchangePairs()[k].1] ==>
        Compared(Ctx(snapshots, map[], ExchangePairs()[k]), x, Combine(outcomes).signals)
  {
    CombineNoFailure(outcomes);
    forall k | 0 <= k < |outcomes|
      ensures ExchangePairs()[k].0 in snapshots && ExchangePairs()[k].1 in snapshots &&
        forall x :: x in snapshots[ExchangePairs()[k].0] && x in snapshots[ExchangePairs()[k].1] ==>
          Compared(Ctx(snapshots, map[], ExchangePairs()[k]), x, Combine(outcomes).signals)
    {
      var p, order, o := ExchangePairs()[k], orders[k], outcomes[k];
      assert PairScanned(snapshots, map[], p, order, o);
      assert o.failure.None?;
      var ctx := Ctx(snapshots, map[], p);
      var st := ScanBases(PairScan([], false, None), ctx, order);
      FlagIffSomeMarked(PairScan([], false, None), ctx, order);
      ScanBasesComplete(PairScan([], false, None), ctx, order);
      forall x | x in snapshots[p.0] && x in snapshots[p.1]
        ensures Compared(ctx, x, Combine(outcomes).signals)
      {
        var i :| 0 <= i < |order| && order[i] == x;
        assert Compared(ctx, x, o.signals);
        var r := Ratio(ctx.ta[x].prices[Quote], ctx.tb[x].prices[Quote]).value;
        if r < Limit {
          CombineSignalsAll(outcomes, k, Signal(ctx.a, ctx.b, x, r));
        }
      }
    }
  }

  /** The snapshots of the example below: binance quotes BTC at 60000, okx
      at 58000, and there is no gate file. */
  function ExampleSnapshots(): Snapshots {
    map["binance" := map["BTC" := PairRecord(map[Quote := 60000.0], Flag(true), Quotes, None)],
        "okx" := map["BTC" := PairRecord(map[Quote := 58000.0], Flag(true), Quotes, None)]]
  }

  /** In the example, binance/okx signals BTC at ratio 29/30, whatever the
      order, once the scan of the pair completes. */
  lemma ExampleFirstPair(order: seq<string>, o: ScanResult)
    requires PairScanned(ExampleSnapshots(), map[], ("binance", "okx"), order, o)
    ensures o == ScanResult([Signal("binance", "okx", "BTC", 29.0 / 30.0)], None)
  {
    var snapshots := ExampleSnapshots();
    var ctx := Ctx(snapshots, map[], ("binance", "okx"));
    var sig := Signal("binance", "okx", "BTC", 29.0 / 30.0);
    assert Ratio(60000.0, 58000.0) == Some(29.0 / 30.0);
    assert ScanBases(PairScan([], false, None), ctx, []) == PairScan([], false, None);
    assert ScanBases(PairScan([], false, None), ctx, ["BTC"]) == PairScan([sig], false, None) by {
      assert ["BTC"][..0] == [];
    }
    assert order == [] || order == ["BTC"] by {
      if order != [] {
        assert order[0] == "BTC";
        if |order| > 1 {
          assert false;
        }
      }
    }
    if order == [] {
      assert false;
    }
  }

  /** In the example, binance/gate fails on the missing gate file. */
  lemma ExampleSecondPair(order: seq<string>, o: ScanResult)
    requires PairScanned(ExampleSnapshots(), map[], ("binance", "gate"), order, o)
    ensures o == ScanResult([], Some(MissingSnapshot("gate")))
  {
  }

  /** An example scan over `ExampleSnapshots()`: whatever the visit orders,
      the scan signals BTC for binance/okx at ratio 29/30 and then stops at
      the missing gate file. */
  lemma {:induction false} MissingSnapshotStopsScan(orders: seq<seq<string>>, outcomes: seq<ScanResult>)
    requires ScannedPrefix(ExampleSnapshots(), map[], ExchangePairs(), orders, outcomes)
    requires OnlyLastFails(outcomes)
    requires |outcomes| < |ExchangePairs()| ==> Combine(outcomes).failure.Some?
    ensures Combine(outcomes) == ScanResult([Signal("binance", "okx", "BTC", 29.0 / 30.0)], Some(MissingSnapshot("gate")))
  {
    var sig := Signal("binance", "okx", "BTC", 29.0 / 30.0);
    ExchangePairsInOrder();
    if |outcomes| == 0 {
      assert false;
    }
    ExampleFirstPair(orders[0], outcomes[0]);
    if |outcomes| == 1 {
      assert false;
    }
    ExampleSecondPair(orders[1], outcomes[1]);
    assert |outcomes| == 2;
    assert outcomes[..1] == [outcomes[0]] && outcomes[..1][..0] == [];
    assert Combine(outcomes[..1]) == ScanResult([sig], None);
  }

  /** A missing binance or okx snapshot file fails the first pair before any
      base is visited: the scan stops there, and the handler's own
      `print(base)` raises. */
  lemma {:induction false} MissingFirstFileEscapes(snapshots: Snapshots, bad: BadBases,
                                                   orders: seq<seq<string>>, outcomes: seq<ScanResult>)
    requires "binance" !in snapshots || "okx" !in snapshots
    requires ScannedPrefix(snapshots, bad, ExchangePairs(), orders, outcomes)
    requires OnlyLastFails(outcomes)
    requires |outcomes| < |ExchangePairs()| ==> Combine(outcomes).failure.Some?
    ensures |outcomes| == 1
    ensures Combine(outcomes).failure == Some(MissingSnapshot(if "binance" !in snapshots then "binance" else "okx"))
    ensures HandlerEscapes(orders, Combine(outcomes))
  {
    ExchangePairsInOrder();
    if |outcomes| == 0 {
      assert false;
    }
    assert PairScanned(snapshots, bad, ("binance", "okx"), orders[0], outcomes[0]);
    assert outcomes[0].failure.Some? && orders[0] == [];
    assert |outcomes| == 1;
    assert outcomes[..0] == [];
  }
}
