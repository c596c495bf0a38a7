/**
 * get_crypto_market_summary (main.py): one price request for the configured
 * assets, one row per asset present in the answer, and two sentinel rows for
 * "nothing found" and "something raised".
 */
module MarketSummary {
  import opened Options
  import opened ApiRequest

  /** The configured asset identifiers, in report order (CRYPTO_SYMBOLS). */
  const CryptoSymbols: seq<string> := ["bitcoin", "ethereum", "celestia", "solana"]

  /** The JSON object the price endpoint gives for one asset; a key it lacks is None. */
  datatype Entry = Entry(usd: Option<real>, usd24hChange: Option<real>)

  /** The decoded response: asset identifier to its entry. */
  type PriceData = map<string, Entry>

  /** One summary dict: symbol, price, change_24h, and a message only on sentinels. */
  datatype Row = Row(symbol: string, price: real, change24h: real, message: Option<string>)

  /** Substituted when no configured asset is in the response. */
  const UnavailableRow: Row := Row("N/A", 0.0, 0.0, Some("Crypto data unavailable"))
  /** Substituted for the whole list when anything raises. */
  const ErrorRow: Row := Row("N/A", 0.0, 0.0, Some("Market data error"))

  predicate IsLower(c: char) { 'a' <= c <= 'z' }
  predicate IsUpper(c: char) { 'A' <= c <= 'Z' }

  function UpperChar(c: char): char
  {
    if IsLower(c) then (c as int - 'a' as int + 'A' as int) as char else c
  }

  /** str.upper() on ASCII text. */
  function Upper(s: string): (u: string)
    ensures |u| == |s|
    ensures forall i :: 0 <= i < |u| ==> !IsLower(u[i])
    ensures forall i :: 0 <= i < |u| ==> (IsUpper(u[i]) <==> IsLower(s[i]) || IsUpper(s[i]))
    ensures forall i :: 0 <= i < |u| && !IsLower(s[i]) ==> u[i] == s[i]
    ensures forall i :: 0 <= i < |u| && IsLower(s[i]) ==> u[i] as int - 'A' as int == s[i] as int - 'a' as int
  {
    seq(|s|, i requires 0 <= i < |s| => UpperChar(s[i]))
  }

  predicate HasBothFields(e: Entry)
  {
    e.usd.Some? && e.usd24hChange.Some?
  }

  /** Every listed asset that is present carries both 'usd' and 'usd_24h_change';
      otherwise the row loop raises KeyError. */
  predicate Complete(syms: seq<string>, d: PriceData)
  {
    forall s <- syms :: s in d ==> HasBothFields(d[s])
  }

  /** The row emitted for a present asset. */
  function RowFor(s: string, e: Entry): Row
    requires HasBothFields(e)
  {
    Row(Upper(s), e.usd.value, e.usd24hChange.value, None)
  }

  /** The rows for the assets of `syms` present in `d`, in the order of `syms`. */
  function PresentRows(syms: seq<string>, d: PriceData): seq<Row>
    requires Complete(syms, d)
  {
    if syms == [] then []
    else
      var last := syms[|syms| - 1];
      PresentRows(syms[..|syms| - 1], d) + (if last in d then [RowFor(last, d[last])] else [])
  }

  /** The list get_crypto_market_summary returns for a given outcome of its request. */
  function Summary(response: Response<PriceData>): (rows: seq<Row>)
    ensures rows != []
  {
    if !response.Returned? || !Complete(CryptoSymbols, response.body) then [ErrorRow]
    else if PresentRows(CryptoSymbols, response.body) == [] then [UnavailableRow]
    else PresentRows(CryptoSymbols, response.body)
  }

  /** get_crypto_market_summary(): the request goes through the retry loop. */
  method GetCryptoMarketSummary(server: nat -> Attempt<PriceData>) returns (summary: seq<Row>)
    ensures summary == Summary(ApiResponse(server, MaxRetries))
    ensures (forall j :: 0 <= j < MaxRetries ==> server(j).Fail?) ==> summary == [ErrorRow]
  {
    var response;
    ghost var attempts, delays;
    response, attempts, delays := MakeApiRequest(server, MaxRetries);
    if !response.Returned? {
      // a re-raised failure, or `crypto in None` raising TypeError
      return [ErrorRow];
    }
    var data := response.body;
    summary := [];
    var i := 0;
    while i < |CryptoSymbols|
      invariant 0 <= i <= |CryptoSymbols|
      invariant Complete(CryptoSymbols[..i], data)
      invariant summary == PresentRows(CryptoSymbols[..i], data)
    {
      var crypto := CryptoSymbols[i];
      if crypto in data {
        var entry := data[crypto];
        if entry.usd.None? || entry.usd24hChange.None? {
          // KeyError: the rows built so far are discarded
          assert crypto in CryptoSymbols;
          return [ErrorRow];
        }
        summary := summary + [Row(Upper(crypto), entry.usd.value, entry.usd24hChange.value, None)];
      }
      assert CryptoSymbols[..i + 1][..i] == CryptoSymbols[..i];
      i := i + 1;
    }
    assert CryptoSymbols[..i] == CryptoSymbols;
    if summary == [] {
      summary := [UnavailableRow];
    }
  }

  // ---------------------------------------------------------------------------
  // Properties of the row list

  lemma {:induction false} PresentRowsAppend(a: seq<string>, b: seq<string>, d: PriceData)
    requires Complete(a + b, d)
    ensures Complete(a, d) && Complete(b, d)
    ensures PresentRows(a + b, d) == PresentRows(a, d) + PresentRows(b, d)
    decreases |b|
  {
    assert forall s <- a :: s in a + b;
    assert forall s <- b :: s in a + b;
    if b != [] {
      var b' := b[..|b| - 1];
      assert (a + b)[..|a + b| - 1] == a + b';
      assert forall s <- b' :: s in b;
      PresentRowsAppend(a, b', d);
    } else {
      assert a + b == a;
    }
  }

  /** No row at all exactly when no listed asset is in the response. */
  lemma {:induction false} PresentRowsEmptyIff(syms: seq<string>, d: PriceData)
    requires Complete(syms, d)
    ensures PresentRows(syms, d) == [] <==> forall s <- syms :: s !in d
  {
    if syms != [] {
      var init := syms[..|syms| - 1];
      assert syms == init + [syms[|syms| - 1]];
      assert forall s <- init :: s in syms;
      PresentRowsEmptyIff(init, d);
    }
  }

  /** A row is emitted for an asset exactly when the asset is listed and present;
      every emitted row is a plain row (no message). */
  lemma {:induction false} PresentRowsMembers(syms: seq<string>, d: PriceData)
    requires Complete(syms, d)
    ensures forall row <- PresentRows(syms, d) :: row.message.None?
    ensures forall s <- syms :: s in d ==> RowFor(s, d[s]) in PresentRows(syms, d)
    ensures forall row <- PresentRows(syms, d) :: exists s <- syms :: s in d && row == RowFor(s, d[s])
  {
    if syms != [] {
      var init := syms[..|syms| - 1];
      var last := syms[|syms| - 1];
      assert syms == init + [last];
      assert forall s <- init :: s in syms;
      PresentRowsMembers(init, d);
      var rows := PresentRows(syms, d);
      assert rows == PresentRows(init, d) + (if last in d then [RowFor(last, d[last])] else []);
      forall row <- rows
        ensures exists s <- syms :: s in d && row == RowFor(s, d[s])
      {
        if row in PresentRows(init, d) {
          var s :| s in init && s in d && row == RowFor(s, d[s]);
          assert s in syms;
        } else {
          assert last in syms;
        }
      }
    }
  }

  predicate Distinct(syms: seq<string>)
  {
    forall i, j :: 0 <= i < j < |syms| ==> syms[i] != syms[j]
  }

  /** With distinct identifiers, exactly one row per listed asset present. */
  lemma {:induction false} PresentRowsCount(syms: seq<string>, d: PriceData)
    requires Complete(syms, d) && Distinct(syms)
    ensures |PresentRows(syms, d)| == |set s | s in syms && s in d|
  {
    if syms == [] {
      assert (set s | s in syms && s in d) == {};
    } else {
      var init := syms[..|syms| - 1];
      var last := syms[|syms| - 1];
      assert syms == init + [last];
      assert forall s <- init :: s in syms;
      assert Distinct(init);
      PresentRowsCount(init, d);
      var before := set s | s in init && s in d;
      assert last !in init;
      if last in d {
        assert (set s | s in syms && s in d) == before + {last};
      } else {
        assert (set s | s in syms && s in d) == before;
      }
    }
  }

  /** Rows keep the order of the identifiers: the row of an earlier listed asset
      comes before the row of a later one. */
  lemma PresentRowsOrder(syms: seq<string>, d: PriceData, i: nat, j: nat)
    requires Complete(syms, d)
    requires i < j < |syms| && syms[i] in d && syms[j] in d
    ensures exists p, q :: 0 <= p < q < |PresentRows(syms, d)|
              && PresentRows(syms, d)[p] == RowFor(syms[i], d[syms[i]])
              && PresentRows(syms, d)[q] == RowFor(syms[j], d[syms[j]])
  {
    var front, back := syms[..j], syms[j..];
    assert syms == front + back;
    PresentRowsAppend(front, back, d);
    var back1 := back[1..];
    assert back == [syms[j]] + back1;
    PresentRowsAppend([syms[j]], back1, d);
    assert PresentRows([syms[j]], d) == [RowFor(syms[j], d[syms[j]])];
    assert syms[i] in front;
    PresentRowsMembers(front, d);
    var early := PresentRows(front, d);
    var p :| 0 <= p < |early| && early[p] == RowFor(syms[i], d[syms[i]]);
    var q := |early|;
    assert PresentRows(syms, d)[p] == early[p];
    assert PresentRows(syms, d)[q] == RowFor(syms[j], d[syms[j]]);
  }

  // ---------------------------------------------------------------------------
  // Properties of the summary

  lemma CryptoSymbolsDistinct()
    ensures Distinct(CryptoSymbols)
  {
  }

  /** The error sentinel comes back exactly when the request did not return a
      body or a present entry lacks a field. */
  lemma SummaryErrorIff(response: Response<PriceData>)
    ensures Summary(response) == [ErrorRow] <==>
              !response.Returned? || !Complete(CryptoSymbols, response.body)
  {
    if response.Returned? && Complete(CryptoSymbols, response.body) {
      var rows := PresentRows(CryptoSymbols, response.body);
      if rows != [] {
        PresentRowsMembers(CryptoSymbols, response.body);
        assert rows[0] in rows;
      }
    }
  }

  /** The "unavailable" sentinel comes back exactly when the request returned a
      well-formed body holding none of the configured assets. */
  lemma SummaryUnavailableIff(d: PriceData)
    requires Complete(CryptoSymbols, d)
    ensures Summary(Returned(d)) == [UnavailableRow] <==> forall s <- CryptoSymbols :: s !in d
  {
    PresentRowsEmptyIff(CryptoSymbols, d);
    var rows := PresentRows(CryptoSymbols, d);
    if rows != [] {
      PresentRowsMembers(CryptoSymbols, d);
      assert rows[0] in rows;
    }
  }

  /** With a well-formed body holding at least one configured asset, the
      summary is one plain row per configured asset present, in configured
      order, under its upper-cased identifier, and nothing else. */
  lemma SummaryRows(d: PriceData)
    requires Complete(CryptoSymbols, d)
    requires exists s <- CryptoSymbols :: s in d
    ensures Summary(Returned(d)) == PresentRows(CryptoSymbols, d)
    ensures |Summary(Returned(d))| == |set s | s in CryptoSymbols && s in d|
    ensures forall row <- Summary(Returned(d)) :: row.message.None?
    ensures forall s <- CryptoSymbols :: s in d ==> RowFor(s, d[s]) in Summary(Returned(d))
    ensures forall row <- Summary(Returned(d)) :: exists s <- CryptoSymbols :: s in d && row.symbol == Upper(s)
  {
    PresentRowsEmptyIff(CryptoSymbols, d);
    PresentRowsMembers(CryptoSymbols, d);
    CryptoSymbolsDistinct();
    PresentRowsCount(CryptoSymbols, d);
  }

  /** Three of the four configured assets answered, celestia missing: a
      three-row summary, celestia silently omitted. */
  lemma ThreeOfFourAssets(d: PriceData, btc: Entry, eth: Entry, sol: Entry)
    requires d == map["bitcoin" := btc, "ethereum" := eth, "solana" := sol]
    requires HasBothFields(btc) && HasBothFields(eth) && HasBothFields(sol)
    ensures Summary(Returned(d)) == [
              Row("BITCOIN", btc.usd.value, btc.usd24hChange.value, None),
              Row("ETHEREUM", eth.usd.value, eth.usd24hChange.value, None),
              Row("SOLANA", sol.usd.value, sol.usd24hChange.value, None)]
  {
    assert "celestia" !in d;
    assert Upper("bitcoin") == "BITCOIN";
    assert Upper("ethereum") == "ETHEREUM";
    assert Upper("solana") == "SOLANA";
    var c := CryptoSymbols;
    assert c[..1][..0] == [] && c[..2][..1] == c[..1] && c[..3][..2] == c[..2] && c[..3] == c[..|c| - 1];
    assert PresentRows(c[..1], d) == [RowFor("bitcoin", btc)];
    assert PresentRows(c[..2], d) == [RowFor("bitcoin", btc), RowFor("ethereum", eth)];
    assert c[..3][2] == "celestia";
    assert PresentRows(c[..3], d) == PresentRows(c[..2], d);
  }
}
