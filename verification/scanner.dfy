/** `find_arbitrage_pairs` (main.py): for every unordered pair of scanned
    exchanges, compare the USDT prices of the bases both snapshots hold and
    signal every base whose min/max price ratio is below `limit`.

    Python iterates a `set` of bases in an unspecified order, and the order
    matters (a base excluded by `bad_bases` silences the rest of the pair).
    The specification functions therefore take the visit order as a
    parameter, and the methods return the order they chose as a ghost. */
module Scanner {
  import opened Common
  import opened Records

  /** The exchanges whose snapshots are compared, in this order. */
  const ValidExchanges: seq<string> := ["binance", "okx", "gate", "kucoin"]

  /** The global `limit`: a ratio strictly below it is a signal. */
  const Limit: real := 0.98

  /** The snapshot store as the scanner reads it: exchange name to `PAIRS`. */
  type Snapshots = map<string, PairSet>

  /** `bad_bases.json`: base to a list of exchange groups. */
  type BadBases = map<string, seq<seq<string>>>

  /** The text `send_signal` receives, as data. */
  datatype Signal = Signal(exchangeA: string, exchangeB: string, base: string, ratio: real)

  /** The exceptions that end a scan: a missing snapshot file, a record
      without a USDT price, a zero price in the division. */
  datatype ScanError =
    | MissingSnapshot(exchange: string)
    | MissingPrice(exchange: string, base: string)
    | DivisionByZero(base: string)

  /** The signals sent so far and the exception that ended the scan, if any. */
  datatype ScanResult = ScanResult(signals: seq<Signal>, failure: Option<ScanError>)

  // ------------------------------------------------------------ exclusions

  /** Some group listed for `base` contains both exchanges. */
  predicate MarksBad(bad: BadBases, base: string, a: string, b: string) {
    base in bad && exists i :: 0 <= i < |bad[base]| && a in bad[base][i] && b in bad[base][i]
  }

  /** The `for bad_exchanges in bad_bases[base]` loop: it can set the flag
      but never clears it. */
  method CheckBad(flag: bool, bad: BadBases, base: string, a: string, b: string) returns (flagged: bool)
    ensures flagged == (flag || MarksBad(bad, base, a, b))
  {
    flagged := flag;
    if base in bad {
      var groups := bad[base];
      for i := 0 to |groups|
        invariant flagged == (flag || exists k :: 0 <= k < i && a in groups[k] && b in groups[k])
      {
        if a in groups[i] && b in groups[i] {
          flagged := true;
        }
      }
    }
  }

  // ------------------------------------------------------------ one base

  function Min(x: real, y: real): real {
    if x < y then x else y
  }

  function Max(x: real, y: real): real {
    if x < y then y else x
  }

  /** `price_A / price_B` if `price_A < price_B`, else `price_B / price_A`:
      the smaller price over the larger, and `None` where Python raises
      ZeroDivisionError, which is when the larger price is 0. */
  function Ratio(pa: real, pb: real): (r: Option<real>)
    ensures r.None? <==> Max(pa, pb) == 0.0
    ensures r.Some? ==> r.value * Max(pa, pb) == Min(pa, pb)
  {
    if pa < pb then (if pb == 0.0 then None else SmallerOverLarger(pa, pb); Some(pa / pb))
    else (if pa == 0.0 then None else SmallerOverLarger(pb, pa); Some(pb / pa))
  }

  /** Dividing the smaller price by the nonzero larger one: the quotient
      times the larger is the smaller, whichever argument order. */
  lemma SmallerOverLarger(lo: real, hi: real)
    requires lo <= hi && hi != 0.0
    ensures Max(lo, hi) == hi && Min(lo, hi) == lo && Max(hi, lo) == hi && Min(hi, lo) == lo
    ensures lo / hi * hi == lo
  {
  }

  /** The fixed inputs of one pair's base loop. */
  datatype PairCtx = PairCtx(a: string, b: string, ta: PairSet, tb: PairSet, bad: BadBases)

  /** The state of one pair's base loop: signals sent, `flag_bad_exchanges`,
      and the exception that ended it. */
  datatype PairScan = PairScan(signals: seq<Signal>, flagged: bool, failure: Option<ScanError>)

  predicate InBoth(ctx: PairCtx, order: seq<string>) {
    forall i :: 0 <= i < |order| ==> order[i] in ctx.ta && order[i] in ctx.tb
  }

  /** One iteration of `for base in intersection_bases`: it sets the flag
      for a base marked bad and never clears it, and once the flag is set it
      changes nothing else; otherwise it either raises or sends at most one
      signal, for this base, at a ratio below `limit`. */
  function VisitBase(st: PairScan, ctx: PairCtx, base: string): (r: PairScan)
    requires base in ctx.ta && base in ctx.tb
    ensures r.flagged == (st.flagged || MarksBad(ctx.bad, base, ctx.a, ctx.b))
    ensures r.flagged ==> r.signals == st.signals && r.failure == st.failure
    ensures r.failure == st.failure || r.signals == st.signals
    ensures st.signals <= r.signals && |r.signals| <= |st.signals| + 1
    ensures |r.signals| > |st.signals| ==>
              r.signals[|st.signals|].base == base && r.signals[|st.signals|].ratio < Limit &&
              r.signals[|st.signals|].exchangeA == ctx.a && r.signals[|st.signals|].exchangeB == ctx.b
  {
    if st.flagged || MarksBad(ctx.bad, base, ctx.a, ctx.b) then st.(flagged := true)
    else if Quote !in ctx.ta[base].prices then st.(failure := Some(MissingPrice(ctx.a, base)))
    else if Quote !in ctx.tb[base].prices then st.(failure := Some(MissingPrice(ctx.b, base)))
    else
      match Ratio(ctx.ta[base].prices[Quote], ctx.tb[base].prices[Quote])
      case None => st.(failure := Some(DivisionByZero(base)))
      case Some(r) => if r < Limit then st.(signals := st.signals + [Signal(ctx.a, ctx.b, base, r)]) else st
  }

  /** The base loop over `order`, stopping at the first exception. */
  function ScanBases(init: PairScan, ctx: PairCtx, order: seq<string>): PairScan
    requires InBoth(ctx, order)
    decreases |order|
  {
    if order == [] then init
    else
      var st := ScanBases(init, ctx, order[..|order| - 1]);
      if st.failure.Some? then st else VisitBase(st, ctx, order[|order| - 1])
  }

  // ------------------------------------------------------------ one pair

  /** The visit order fits the pair: it only lists bases both snapshots hold,
      and none when a snapshot file is missing. */
  predicate Fits(snapshots: Snapshots, p: (string, string), order: seq<string>) {
    if p.0 in snapshots && p.1 in snapshots then
      forall i :: 0 <= i < |order| ==> order[i] in snapshots[p.0] && order[i] in snapshots[p.1]
    else order == []
  }

  function Ctx(snapshots: Snapshots, bad: BadBases, p: (string, string)): PairCtx
    requires p.0 in snapshots && p.1 in snapshots
  {
    PairCtx(p.0, p.1, snapshots[p.0], snapshots[p.1], bad)
  }

  /** One pair: load both snapshots (A first), then run the base loop from a
      cleared flag. */
  function PairOutcome(snapshots: Snapshots, bad: BadBases, p: (string, string), order: seq<string>): ScanResult
    requires Fits(snapshots, p, order)
  {
    if p.0 !in snapshots then ScanResult([], Some(MissingSnapshot(p.0)))
    else if p.1 !in snapshots then ScanResult([], Some(MissingSnapshot(p.1)))
    else
      var st := ScanBases(PairScan([], false, None), Ctx(snapshots, bad, p), order);
      ScanResult(st.signals, st.failure)
  }

  /** Extending the visit order by one base runs one more iteration. */
  lemma ScanBasesSnoc(init: PairScan, ctx: PairCtx, order: seq<string>, base: string)
    requires InBoth(ctx, order) && base in ctx.ta && base in ctx.tb
    requires ScanBases(init, ctx, order).failure.None?
    ensures InBoth(ctx, order + [base])
    ensures ScanBases(init, ctx, order + [base]) == VisitBase(ScanBases(init, ctx, order), ctx, base)
  {
    assert (order + [base])[..|order|] == order;
  }

  /** The order lists every base both snapshots hold. */
  predicate VisitsAll(snapshots: Snapshots, p: (string, string), order: seq<string>) {
    p.0 in snapshots && p.1 in snapshots ==>
      forall x :: x in snapshots[p.0] && x in snapshots[p.1] ==> x in order
  }

  predicate Distinct(xs: seq<string>) {
    forall i, j :: 0 <= i < j < |xs| ==> xs[i] != xs[j]
  }

  /** The loop's bookkeeping: `remaining` holds the common bases not yet
      visited, and `order` the ones visited, each once. */
  predicate Pending(ctx: PairCtx, remaining: set<string>, order: seq<string>) {
    remaining <= ctx.ta.Keys * ctx.tb.Keys &&
    (forall x :: x in ctx.ta && x in ctx.tb ==> x in remaining || x in order) &&
    (forall i :: 0 <= i < |order| ==> order[i] !in remaining) &&
    InBoth(ctx, order) && Distinct(order)
  }

  /** Visiting one remaining base keeps the bookkeeping. */
  lemma PendingStep(ctx: PairCtx, remaining: set<string>, order: seq<string>, base: string)
    requires Pending(ctx, remaining, order) && base in remaining
    ensures Pending(ctx, remaining - {base}, order + [base])
  {
    var order' := order + [base];
    assert forall i :: 0 <= i < |order| ==> order'[i] == order[i];
  }

  /** The body of `for base in intersection_bases`: the exclusion check,
      then (unless the flag is set) the two price reads, the division and
      the signal. */
  method VisitStep(ctx: PairCtx, base: string, signals: seq<Signal>, flagged: bool)
    returns (signals': seq<Signal>, flagged': bool, failure: Option<ScanError>)
    requires base in ctx.ta && base in ctx.tb
    ensures PairScan(signals', flagged', failure) == VisitBase(PairScan(signals, flagged, None), ctx, base)
  {
    var a, b, ta, tb := ctx.a, ctx.b, ctx.ta, ctx.tb;
    signals', failure := signals, None;
    flagged' := CheckBad(flagged, ctx.bad, base, a, b);
    if flagged' {
      return;
    }
    if Quote !in ta[base].prices {
      return signals, flagged', Some(MissingPrice(a, base));
    }
    if Quote !in tb[base].prices {
      return signals, flagged', Some(MissingPrice(b, base));
    }
    var priceA, priceB := ta[base].prices[Quote], tb[base].prices[Quote];
    var ratio;
    if priceA < priceB {
      if priceB == 0.0 {
        return signals, flagged', Some(DivisionByZero(base));
      }
      ratio := priceA / priceB;
    } else {
      if priceA == 0.0 {
        return signals, flagged', Some(DivisionByZero(base));
      }
      ratio := priceB / priceA;
    }
    assert Ratio(priceA, priceB) == Some(ratio);
    if ratio < Limit {
      signals' := signals + [Signal(a, b, base, ratio)];
    }
  }

  /** The scan of one pair, iterating the intersection of the two snapshots'
      bases in an order the method chooses. */
  method ScanPair(snapshots: Snapshots, bad: BadBases, a: string, b: string)
    returns (res: ScanResult, ghost order: seq<string>)
    ensures Fits(snapshots, (a, b), order) && Distinct(order)
    ensures res == PairOutcome(snapshots, bad, (a, b), order)
    ensures res.failure.None? ==> VisitsAll(snapshots, (a, b), order)
  {
    order := [];
    if a !in snapshots {
      return ScanResult([], Some(MissingSnapshot(a))), order;
    }
    if b !in snapshots {
      return ScanResult([], Some(MissingSnapshot(b))), order;
    }
    var ta, tb := snapshots[a], snapshots[b];
    var ctx := PairCtx(a, b, ta, tb, bad);
    var remaining := ta.Keys * tb.Keys;
    var signals: seq<Signal> := [];
    var flagged := false;
    while remaining != {}
      invariant Pending(ctx, remaining, order)
      invariant ScanBases(PairScan([], false, None), ctx, order) == PairScan(signals, flagged, None)
      decreases |remaining|
    {
      var base :| base in remaining;
      PendingStep(ctx, remaining, order, base);
      remaining := remaining - {base};
      ScanBasesSnoc(PairScan([], false, None), ctx, order, base);
      var failure;
      signals, flagged, failure := VisitStep(ctx, base, signals, flagged);
      order := order + [base];
      if failure.Some? {
        return ScanResult(signals, failure), order;
      }
    }
    res := ScanResult(signals, None);
  }

  // ------------------------------------------------------------ all pairs

  /** One pass of the inner loop: the pairs `(names[i], names[k])` for
      `i < k < |names|`, in order of `k`. */
  function Row(names: seq<string>, i: nat): seq<(string, string)>
    requires i < |names|
  {
    seq(|names| - i - 1, k requires 0 <= k < |names| - i - 1 => (names[i], names[i + 1 + k]))
  }

  /** The pairs the outer loop has produced before index `i`. */
  function PairsBefore(names: seq<string>, i: nat): seq<(string, string)>
    requires i <= |names|
    decreases i
  {
    if i == 0 then [] else PairsBefore(names, i - 1) + Row(names, i - 1)
  }

  /** All pairs of `names` in loop order:
      `for index_A in range(len - 1): for index_B in range(index_A + 1, len)`. */
  function AllPairs(names: seq<string>): seq<(string, string)>
    requires |names| > 0
  {
    PairsBefore(names, |names| - 1)
  }

  function ExchangePairs(): seq<(string, string)> {
    AllPairs(ValidExchanges)
  }

  /** The position of pair `(names[i], names[j])` in `AllPairs(names)`. */
  function PairIndex(names: seq<string>, i: nat, j: nat): nat
    requires i < j <= |names|
  {
    |PairsBefore(names, i)| + (j - i - 1)
  }

  /** The scan result after the pairs whose outcomes are given: signals
      accumulate, and the first exception ends the scan. */
  function Combine(outcomes: seq<ScanResult>): ScanResult
    decreases |outcomes|
  {
    if outcomes == [] then ScanResult([], None)
    else
      var r := Combine(outcomes[..|outcomes| - 1]);
      if r.failure.Some? then r
      else ScanResult(r.signals + outcomes[|outcomes| - 1].signals, outcomes[|outcomes| - 1].failure)
  }

  /** `outcome` is what scanning pair `p` in `order` yields, `order` visits
      each common base at most once, and all of them unless the pair failed. */
  predicate PairScanned(snapshots: Snapshots, bad: BadBases, p: (string, string), order: seq<string>, outcome: ScanResult) {
    Fits(snapshots, p, order) && Distinct(order) &&
    outcome == PairOutcome(snapshots, bad, p, order) &&
    (outcome.failure.None? ==> VisitsAll(snapshots, p, order))
  }

  /** The first `|outcomes|` pairs were scanned, in `orders`, with `outcomes`. */
  predicate ScannedPrefix(snapshots: Snapshots, bad: BadBases, pairs: seq<(string, string)>,
                          orders: seq<seq<string>>, outcomes: seq<ScanResult>) {
    |orders| == |outcomes| <= |pairs| &&
    forall k :: 0 <= k < |outcomes| ==> PairScanned(snapshots, bad, pairs[k], orders[k], outcomes[k])
  }

  /** The except handler's `print(base)` raises in turn: the scan failed
      before any base of any pair was visited, so `base` was never bound.
      That second exception leaves `find_arbitrage_pairs` and ends the
      program instead of the next poll. */
  predicate HandlerEscapes(orders: seq<seq<string>>, res: ScanResult) {
    res.failure.Some? && forall k :: 0 <= k < |orders| ==> orders[k] == []
  }

  /** No pair scanned so far failed. */
  predicate NoFailure(outcomes: seq<ScanResult>) {
    forall k :: 0 <= k < |outcomes| ==> outcomes[k].failure.None?
  }

  /** Every pair before the last one scanned finished without failure. */
  predicate OnlyLastFails(outcomes: seq<ScanResult>) {
    forall k :: 0 <= k < |outcomes| - 1 ==> outcomes[k].failure.None?
  }

  lemma ScannedPrefixSnoc(snapshots: Snapshots, bad: BadBases, pairs: seq<(string, string)>,
                          orders: seq<seq<string>>, outcomes: seq<ScanResult>, order: seq<string>, o: ScanResult)
    requires ScannedPrefix(snapshots, bad, pairs, orders, outcomes) && |outcomes| < |pairs|
    requires PairScanned(snapshots, bad, pairs[|outcomes|], order, o)
    ensures ScannedPrefix(snapshots, bad, pairs, orders + [order], outcomes + [o])
  {
    forall k | 0 <= k < |outcomes| + 1
      ensures PairScanned(snapshots, bad, pairs[k], (orders + [order])[k], (outcomes + [o])[k])
    {
      if k < |outcomes| {
        assert (orders + [order])[k] == orders[k] && (outcomes + [o])[k] == outcomes[k];
      }
    }
  }

  /** A prefix of `b` is a prefix of any extension of `b`. */
  lemma PrefixOfLonger<T>(a: seq<T>, b: seq<T>, c: seq<T>)
    requires a <= b
    ensures a <= b + c
  {
    assert (b + c)[..|a|] == b[..|a|];
  }

  lemma {:induction false} PairsBeforePrefix(names: seq<string>, i: nat, k: nat)
    requires i <= k <= |names|
    ensures PairsBefore(names, i) <= PairsBefore(names, k)
    decreases k
  {
    if i < k {
      PairsBeforePrefix(names, i, k - 1);
      PrefixOfLonger(PairsBefore(names, i), PairsBefore(names, k - 1), Row(names, k - 1));
    }
  }

  /** The inner loop at `(i, j)` scans the pair at position `PairIndex`, and
      row `i` ends where row `i + 1` starts. */
  lemma PairAt(names: seq<string>, i: nat, j: nat)
    requires i < j < |names|
    ensures PairIndex(names, i, j) < |AllPairs(names)|
    ensures AllPairs(names)[PairIndex(names, i, j)] == (names[i], names[j])
    ensures PairIndex(names, i, |names|) == |PairsBefore(names, i + 1)|
  {
    var before, row := PairsBefore(names, i), Row(names, i);
    assert row[j - i - 1] == (names[i], names[j]);
    assert before + row <= AllPairs(names) by {
      assert PairsBefore(names, i + 1) == before + row;
      PairsBeforePrefix(names, i + 1, |names| - 1);
    }
    IndexThroughPrefix(before, row, AllPairs(names), j - i - 1);
    RowEnds(names, i);
  }

  /** Row `i` ends where row `i + 1` starts. */
  lemma RowEnds(names: seq<string>, i: nat)
    requires i < |names| - 1
    ensures PairIndex(names, i, |names|) == |PairsBefore(names, i + 1)|
  {
    assert PairsBefore(names, i + 1) == PairsBefore(names, i) + Row(names, i);
  }

  /** An element of the second part of a prefix sits at the same place in
      the whole sequence. */
  lemma IndexThroughPrefix<T>(before: seq<T>, row: seq<T>, all: seq<T>, k: nat)
    requires before + row <= all && k < |row|
    ensures |before| + k < |all| && all[|before| + k] == row[k]
  {
    assert (before + row)[|before| + k] == row[k];
  }

  lemma RowMembers(names: seq<string>, i: nat, p: (string, string))
    requires i < |names|
    ensures p in Row(names, i) <==> exists k :: i < k < |names| && p == (names[i], names[k])
  {
    var row := Row(names, i);
    if p in row {
      var m :| 0 <= m < |row| && row[m] == p;
      assert i < i + 1 + m < |names| && p == (names[i], names[i + 1 + m]);
    }
    forall k | i < k < |names| && p == (names[i], names[k])
      ensures p in row
    {
      assert row[k - i - 1] == p;
    }
  }

  lemma {:induction false} PairsBeforeMembers(names: seq<string>, i: nat, p: (string, string))
    requires i <= |names|
    ensures p in PairsBefore(names, i) <==> exists h, k :: 0 <= h < i && h < k < |names| && p == (names[h], names[k])
    decreases i
  {
    if i > 0 {
      var prev, row := PairsBefore(names, i - 1), Row(names, i - 1);
      assert PairsBefore(names, i) == prev + row;
      PairsBeforeMembers(names, i - 1, p);
      RowMembers(names, i - 1, p);
      if p in prev {
        var h, k :| 0 <= h < i - 1 && h < k < |names| && p == (names[h], names[k]);
        assert 0 <= h < i;
      } else if p in row {
        var k :| i - 1 < k < |names| && p == (names[i - 1], names[k]);
        assert 0 <= i - 1 < i && i - 1 < k;
      }
      forall h, k | 0 <= h < i && h < k < |names| && p == (names[h], names[k])
        ensures p in prev + row
      {
        if h < i - 1 {
          assert p in prev;
        } else {
          assert p in row;
        }
      }
    }
  }

  lemma CombineSnoc(outcomes: seq<ScanResult>, o: ScanResult)
    requires Combine(outcomes).failure.None?
    ensures Combine(outcomes + [o]) == ScanResult(Combine(outcomes).signals + o.signals, o.failure)
  {
    assert (outcomes + [o])[..|outcomes|] == outcomes;
  }

  /** One pass of the inner loop: the pairs `(names[i], names[j])` for
      `j > i`, continuing a scan that has not failed yet. */
  method ScanRow(snapshots: Snapshots, bad: BadBases, names: seq<string>, i: nat, res0: ScanResult,
                 ghost orders0: seq<seq<string>>, ghost outcomes0: seq<ScanResult>)
    returns (res: ScanResult, ghost orders: seq<seq<string>>, ghost outcomes: seq<ScanResult>)
    requires i < |names| - 1
    requires |outcomes0| == |PairsBefore(names, i)|
    requires ScannedPrefix(snapshots, bad, AllPairs(names), orders0, outcomes0) && NoFailure(outcomes0)
    requires res0 == Combine(outcomes0) && res0.failure.None?
    ensures |outcomes| <= |PairsBefore(names, i + 1)|
    ensures ScannedPrefix(snapshots, bad, AllPairs(names), orders, outcomes)
    ensures OnlyLastFails(outcomes)
    ensures res == Combine(outcomes)
    ensures res.failure.None? ==> |outcomes| == |PairsBefore(names, i + 1)| && NoFailure(outcomes)
  {
    res, orders, outcomes := res0, orders0, outcomes0;
    var j := i + 1;
    while j < |names|
      invariant i < j <= |names|
      invariant |outcomes| == PairIndex(names, i, j)
      invariant ScannedPrefix(snapshots, bad, AllPairs(names), orders, outcomes) && NoFailure(outcomes)
      invariant res == Combine(outcomes) && res.failure.None?
    {
      PairAt(names, i, j);
      var r, order := ScanPair(snapshots, bad, names[i], names[j]);
      ScannedPrefixSnoc(snapshots, bad, AllPairs(names), orders, outcomes, order, r);
      CombineSnoc(outcomes, r);
      orders, outcomes := orders + [order], outcomes + [r];
      res := ScanResult(res.signals + r.signals, r.failure);
      if r.failure.Some? {
        return;
      }
      j := j + 1;
    }
    PairAt(names, i, i + 1);
  }

  /** `find_arbitrage_pairs`: scan the pairs of `ValidExchanges` in loop
      order. The ghost outputs are the visit order and the outcome of each
      pair scanned; the scan stops right after the first pair that fails. */
  method FindArbitragePairs(snapshots: Snapshots, bad: BadBases)
    returns (res: ScanResult, ghost orders: seq<seq<string>>, ghost outcomes: seq<ScanResult>)
    ensures ScannedPrefix(snapshots, bad, ExchangePairs(), orders, outcomes)
    ensures OnlyLastFails(outcomes)
    ensures |outcomes| < |ExchangePairs()| ==> res.failure.Some?
    ensures res == Combine(outcomes)
  {
    var names := ValidExchanges;
    res, orders, outcomes := ScanResult([], None), [], [];
    for i := 0 to |names| - 1
      invariant |outcomes| == |PairsBefore(names, i)|
      invariant ScannedPrefix(snapshots, bad, AllPairs(names), orders, outcomes) && NoFailure(outcomes)
      invariant res == Combine(outcomes) && res.failure.None?
    {
      res, orders, outcomes := ScanRow(snapshots, bad, names, i, res, orders, outcomes);
      if res.failure.Some? {
        PairsBeforePrefix(names, i + 1, |names| - 1);
        return;
      }
    }
  }
}
