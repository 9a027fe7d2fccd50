/** The simple-mode adapters of core/exchanges.py (Coinbase, Bitstamp,
    Bithumb): one ticker call, no status or coin stages, and a flat map from
    `<BASE>USDT` to a price written to `usdt_tickers_<exchange>.json`. */
module SimpleMode {
  import opened Common
  import opened Records
  import opened Views

  // -------------------------------------------------------------- Coinbase

  /** Coinbase: every key of `data.rates` becomes `<key>USDT`, with the rate
      text copied unchanged. */
  method CoinbaseTickers(rates: map<string, string>) returns (out: map<string, string>)
    ensures forall k :: k in rates ==> k + Quote in out && out[k + Quote] == rates[k]
    ensures forall key :: key in out ==> exists k :: k in rates && key == k + Quote
    ensures |out| == |rates|
  {
    out := map[];
    var rest := rates.Keys;
    while rest != {}
      invariant rest <= rates.Keys
      invariant forall k :: k in rates && k !in rest ==> k + Quote in out && out[k + Quote] == rates[k]
      invariant forall key :: key in out ==> exists k :: k in rates && k !in rest && key == k + Quote
      invariant |out| + |rest| == |rates|
      decreases |rest|
    {
      var k :| k in rest;
      assert k + Quote !in out by {
        if k + Quote in out {
          var k' :| k' in rates && k' !in rest && k + Quote == k' + Quote;
          AppendInjective(k, k', Quote);
        }
      }
      forall k' | k' in rates && k' !in rest
        ensures k' + Quote != k + Quote
      {
        if k' + Quote == k + Quote {
          AppendInjective(k', k, Quote);
        }
      }
      rest := rest - {k};
      out := out[k + Quote := rates[k]];
    }
  }

  // -------------------------------------------------------------- Bitstamp

  /** One element of Bitstamp's ticker list: `pair` such as "BTC/USD" and the
      `last` price text. */
  datatype BitstampPair = BitstampPair(pair: string, last: string)

  /** Python's `s[-3:]`. */
  function Last3(s: string): string {
    if |s| <= 3 then s else s[|s| - 3..]
  }

  /** `symbol['pair'][-3:].lower() == 'usd'`: any pair ending in USD, TUSD or
      BUSD included. */
  predicate QuotedInUsd(e: BitstampPair) {
    Lower(Last3(e.pair)) == "usd"
  }

  /** `symbol['pair'].split("/")[0] + "USDT"`. */
  function BitstampKey(e: BitstampPair): string {
    Before(e.pair, '/') + Quote
  }

  /** Where an element is stored: its key and `last` if it is USD-quoted. */
  function Entry(e: BitstampPair): Option<(string, string)> {
    if QuotedInUsd(e) then Some((BitstampKey(e), e.last)) else None
  }

  /** The dictionary a sequence of assignments leaves: later ones win. */
  function Assign(entries: seq<Option<(string, string)>>): map<string, string>
    decreases |entries|
  {
    if entries == [] then map[]
    else
      var out := Assign(entries[..|entries| - 1]);
      match entries[|entries| - 1]
      case None => out
      case Some((k, v)) => out[k := v]
  }

  function Entries(data: seq<BitstampPair>): (r: seq<Option<(string, string)>>)
    ensures |r| == |data|
    ensures forall i :: 0 <= i < |data| ==> r[i] == Entry(data[i])
  {
    seq(|data|, i requires 0 <= i < |data| => Entry(data[i]))
  }

  function BitstampAll(data: seq<BitstampPair>): map<string, string> {
    Assign(Entries(data))
  }

  /** Bitstamp: keep the USD-quoted pairs under `<base>USDT`; a later pair
      with the same key overwrites an earlier one. */
  method BitstampTickers(data: seq<BitstampPair>) returns (out: map<string, string>)
    ensures out == BitstampAll(data)
  {
    out := map[];
    for i := 0 to |data|
      invariant out == Assign(Entries(data)[..i])
    {
      assert Entries(data)[..i + 1][..i] == Entries(data)[..i];
      var e := data[i];
      if Lower(Last3(e.pair)) == "usd" {
        out := out[Before(e.pair, '/') + Quote := e.last];
      }
    }
    assert Entries(data)[..|data|] == Entries(data);
  }

  /** Entry `i` is stored under `key`, and no later entry is. */
  predicate LastAssigns(entries: seq<Option<(string, string)>>, key: string, i: int) {
    0 <= i < |entries| && entries[i].Some? && entries[i].value.0 == key &&
    forall j :: i < j < |entries| ==> !(entries[j].Some? && entries[j].value.0 == key)
  }

  /** A key is present iff some entry assigns it, and its value is the one
      the last such entry assigns. */
  lemma {:induction false} AssignSpec(entries: seq<Option<(string, string)>>, key: string)
    ensures key in Assign(entries) <==> exists i :: 0 <= i < |entries| && entries[i].Some? && entries[i].value.0 == key
    ensures key in Assign(entries) ==> exists i :: LastAssigns(entries, key, i) && Assign(entries)[key] == entries[i].value.1
    decreases |entries|
  {
    if entries != [] {
      var init, n := entries[..|entries| - 1], |entries| - 1;
      AssignSpec(init, key);
      assert forall i :: 0 <= i < n ==> init[i] == entries[i];
      if entries[n].Some? && entries[n].value.0 == key {
        assert LastAssigns(entries, key, n);
      } else if key in Assign(init) {
        var i :| LastAssigns(init, key, i) && Assign(init)[key] == init[i].value.1;
        assert LastAssigns(entries, key, i);
      }
    }
  }

  /** Element `e` is kept and stored under `key`. */
  predicate Produces(e: BitstampPair, key: string) {
    Entry(e).Some? && Entry(e).value.0 == key
  }

  /** Element `i` is the last one stored under `key`. */
  predicate LastWithKey(data: seq<BitstampPair>, key: string, i: int) {
    0 <= i < |data| && Produces(data[i], key) &&
    forall j :: i < j < |data| ==> !Produces(data[j], key)
  }

  /** A key is present iff some USD-quoted pair produces it, and its value
      is the `last` of the latest such pair. */
  lemma BitstampAllSpec(data: seq<BitstampPair>, key: string)
    ensures key in BitstampAll(data) <==> exists i :: 0 <= i < |data| && Produces(data[i], key)
    ensures key in BitstampAll(data) ==> exists i :: LastWithKey(data, key, i) && BitstampAll(data)[key] == data[i].last
  {
    var entries := Entries(data);
    AssignSpec(entries, key);
    if key in BitstampAll(data) {
      var i :| LastAssigns(entries, key, i) && Assign(entries)[key] == entries[i].value.1;
      assert LastWithKey(data, key, i);
    }
  }

  /** A pair "B/Q" with no other '/' whose Q ends in USD, in any case, is
      stored under B + "USDT". */
  lemma EntryOfUsdPair(b: string, q: string, last: string)
    requires '/' !in b && '/' !in q && |q| >= 3 && Lower(q[|q| - 3..]) == "usd"
    ensures Entry(BitstampPair(b + "/" + q, last)) == Some((b + Quote, last))
  {
    var p := b + "/" + q;
    SplitAtOnly(b, '/', q);
    assert Last3(p) == q[|q| - 3..];
  }

  /** Two assignments to the same key: the second wins. */
  lemma AssignSameKeyTwice(k: string, v1: string, v2: string)
    ensures Assign([Some((k, v1)), Some((k, v2))]) == map[k := v2]
  {
    var entries := [Some((k, v1)), Some((k, v2))];
    assert entries[..1] == [entries[0]] && entries[..1][..0] == [];
    assert Assign(entries[..1]) == map[k := v1];
  }

  lemma UsdLowered()
    ensures Lower("USD") == "usd"
  {
  }

  lemma BtcPairsSplit()
    ensures Last3("BTC/USD") == "USD" && Before("BTC/USD", '/') == "BTC"
    ensures Last3("BTC/TUSD") == "USD" && Before("BTC/TUSD", '/') == "BTC"
  {
  }

  /** "BTC/USD" and "BTC/TUSD" both end in "USD" and both land on "BTCUSDT". */
  lemma BtcEntry(pair: string, last: string)
    requires pair == "BTC/USD" || pair == "BTC/TUSD"
    ensures Entry(BitstampPair(pair, last)) == Some(("BTCUSDT", last))
  {
    UsdLowered();
    BtcPairsSplit();
    assert "BTC" + Quote == "BTCUSDT";
  }

  /** "BTC/TUSD" also ends in "USD" and lands on the same key as "BTC/USD":
      whichever comes later wins. */
  lemma TusdOverridesUsd()
    ensures BitstampAll([BitstampPair("BTC/USD", "100"), BitstampPair("BTC/TUSD", "99")]) == map["BTCUSDT" := "99"]
  {
    BtcEntries();
    AssignSameKeyTwice("BTCUSDT", "100", "99");
  }

  lemma BtcEntries()
    ensures Entries([BitstampPair("BTC/USD", "100"), BitstampPair("BTC/TUSD", "99")]) ==
            [Some(("BTCUSDT", "100")), Some(("BTCUSDT", "99"))]
  {
    BtcEntry("BTC/USD", "100");
    BtcEntry("BTC/TUSD", "99");
  }

  // --------------------------------------------------------------- Bithumb

  /** Bithumb: every entry of `data` that has a `closing_price` becomes
      `<key>USDT` with that price divided by the USD/KRW rate (fetched once
      when the adapter is built, here a parameter). A zero rate raises
      ZeroDivisionError as soon as one price is converted. `None` stands for
      an entry without `closing_price`, such as the `date` field. */
  method BithumbTickers(data: map<string, Option<real>>, usdToKrw: real)
    returns (r: Result<map<string, real>, AdapterError>)
    ensures r.Err? <==> usdToKrw == 0.0 && exists k :: k in data && data[k].Some?
    ensures r.Err? ==> r.error == ZeroDivision
    ensures r.Ok? ==> forall k :: k in data && data[k].Some? ==>
      k + Quote in r.value && r.value[k + Quote] == data[k].value / usdToKrw
    ensures r.Ok? ==> forall key :: key in r.value ==> exists k :: k in data && data[k].Some? && key == k + Quote
  {
    var out: map<string, real> := map[];
    var rest := data.Keys;
    while rest != {}
      invariant rest <= data.Keys
      invariant forall k :: k in data && k !in rest && data[k].Some? ==>
        usdToKrw != 0.0 && k + Quote in out && out[k + Quote] == data[k].value / usdToKrw
      invariant forall key :: key in out ==> exists k :: k in data && k !in rest && data[k].Some? && key == k + Quote
      decreases |rest|
    {
      var k :| k in rest;
      rest := rest - {k};
      if data[k].Some? {
        if usdToKrw == 0.0 {
          return Err(ZeroDivision);
        }
        forall k' | k' in data && k' !in rest && k' != k
          ensures k' + Quote != k + Quote
        {
          if k' + Quote == k + Quote {
            AppendInjective(k', k, Quote);
          }
        }
        out := out[k + Quote := data[k].value / usdToKrw];
      }
    }
    r := Ok(out);
  }
}
