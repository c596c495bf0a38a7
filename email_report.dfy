/**
 * format_email_content (main.py): the HTML body of the report, grown by
 * appending to a string. The calendar date and the `:,.2f` number rendering
 * are parameters: what is modelled is the structure around them.
 */
module EmailReport {
  import opened Options
  import opened MarketSummary
  import opened ApiRequest
  import opened Fragments

  /** An article field as dict.get sees it: key absent, JSON null, or a string. */
  datatype Field = Missing | Null | Text(s: string)

  /** A news article; only the fields the report shows. */
  datatype Article = Article(title: Field, url: Field, description: Field)

  const CryptoNewsPlaceholder: string := "No crypto news available."
  const PoliticalNewsPlaceholder: string := "No political news available."

  /** `article.get(key, default)` interpolated into an f-string: a null prints as None. */
  function FieldText(f: Field, default: string): string
  {
    match f
    case Missing => default
    case Null => "None"
    case Text(s) => s
  }

  /** The opening f-string, up to and including the table's header row. */
  function Header(date: string): string
  {
    "\n    <html><body>\n        <h2>Crypto Daily Report - " + date
    + "</h2>\n        <h3>Market Summary</h3>\n        <table border=\"1\" cellpadding=\"5\">\n"
    + "            <tr><th>Crypto</th><th>Price (USD)</th><th>24h Change (%)</th></tr>\n    "
  }

  /** The table row of one summary entry; `fmt` renders a number as `:,.2f` does. */
  function RowHtml(r: Row, fmt: real -> string): string
  {
    match r.message
    case Some(m) => "<tr><td colspan='3'>" + m + "</td></tr>"
    case None =>
      "<tr><td>" + r.symbol + "</td><td>$" + fmt(r.price) + "</td><td>" + fmt(r.change24h) + "%</td></tr>"
  }

  /** The rows of all entries, in order. */
  function MarketRows(market: seq<Row>, fmt: real -> string): string
  {
    Joined(market, r => RowHtml(r, fmt))
  }

  function ItemHtml(a: Article): string
  {
    "<li><a href='" + FieldText(a.url, "#") + "'>" + FieldText(a.title, "No title")
    + "</a><br><small>" + FieldText(a.description, "") + "</small></li>"
  }

  function NewsItems(articles: seq<Article>): string
  {
    Joined(articles, ItemHtml)
  }

  /** What goes between <ul> and </ul> of a news section. */
  function NewsBody(articles: seq<Article>, placeholder: string): string
  {
    if articles == [] then "<p>" + placeholder + "</p>" else NewsItems(articles)
  }

  /** Everything after the last table row: the two news sections. */
  function Trailer(cryptoNews: seq<Article>, politicalNews: seq<Article>): string
  {
    "</table>"
    + "<h3>Crypto News</h3><ul>" + NewsBody(cryptoNews, CryptoNewsPlaceholder) + "</ul>"
    + "<h3>Political News</h3><ul>" + NewsBody(politicalNews, PoliticalNewsPlaceholder)
    + "</ul></body></html>"
  }

  /** The whole document. */
  function Report(date: string, fmt: real -> string, cryptoNews: seq<Article>,
                  politicalNews: seq<Article>, market: seq<Row>): string
  {
    Header(date) + MarketRows(market, fmt) + Trailer(cryptoNews, politicalNews)
  }

  /** Appends one `<li>` per article to `html`. */
  method AppendArticles(html: string, articles: seq<Article>) returns (out: string)
    ensures out == html + NewsItems(articles)
  {
    out := html;
    var i := 0;
    while i < |articles|
      invariant 0 <= i <= |articles|
      invariant out == html + NewsItems(articles[..i])
    {
      var article := articles[i];
      var title := FieldText(article.title, "No title");
      var url := FieldText(article.url, "#");
      var description := FieldText(article.description, "");
      out := out + "<li><a href='" + url + "'>" + title + "</a><br><small>" + description + "</small></li>";
      assert articles[..i + 1][..i] == articles[..i];
      i := i + 1;
    }
    assert articles[..i] == articles;
  }

  /** Appends a news list's items, or its placeholder paragraph when it is empty. */
  method AppendNewsBody(html: string, articles: seq<Article>, placeholder: string) returns (out: string)
    ensures out == html + NewsBody(articles, placeholder)
  {
    if articles != [] {
      out := AppendArticles(html, articles);
    } else {
      out := html + "<p>" + placeholder + "</p>";
    }
  }

  /** Appends one table row per summary entry to `html`. */
  method AppendMarketRows(html: string, market: seq<Row>, fmt: real -> string) returns (out: string)
    ensures out == html + MarketRows(market, fmt)
  {
    out := html;
    var i := 0;
    while i < |market|
      invariant 0 <= i <= |market|
      invariant out == html + MarketRows(market[..i], fmt)
    {
      var crypto := market[i];
      var row;
      if crypto.message.Some? {
        row := "<tr><td colspan='3'>" + crypto.message.value + "</td></tr>";
      } else {
        row := "<tr><td>" + crypto.symbol + "</td><td>$" + fmt(crypto.price)
               + "</td><td>" + fmt(crypto.change24h) + "%</td></tr>";
      }
      assert row == RowHtml(crypto, fmt);
      assert market[..i + 1][..i] == market[..i];
      assert MarketRows(market[..i + 1], fmt) == MarketRows(market[..i], fmt) + row;
      out := out + row;
      i := i + 1;
    }
    assert market[..i] == market;
  }

  /** Closes the table and appends the crypto and the political news sections. */
  method AppendTrailer(html: string, cryptoNews: seq<Article>, politicalNews: seq<Article>)
    returns (out: string)
    ensures out == html + Trailer(cryptoNews, politicalNews)
  {
    out := html + "</table>";

    out := out + "<h3>Crypto News</h3><ul>";
    out := AppendNewsBody(out, cryptoNews, CryptoNewsPlaceholder);
    out := out + "</ul>";

    out := out + "<h3>Political News</h3><ul>";
    out := AppendNewsBody(out, politicalNews, PoliticalNewsPlaceholder);
    out := out + "</ul></body></html>";
  }

  /** format_email_content(crypto_news, political_news, market_summary). */
  method FormatEmailContent(date: string, fmt: real -> string, cryptoNews: seq<Article>,
                            politicalNews: seq<Article>, market: seq<Row>)
    returns (html: string)
    ensures html == Report(date, fmt, cryptoNews, politicalNews, market)
  {
    html := AppendMarketRows(Header(date), market, fmt);
    html := AppendTrailer(html, cryptoNews, politicalNews);
  }

  // ---------------------------------------------------------------------------
  // Structure of the document

  /** A sentinel entry (one with a message) becomes one merged cell holding the
      message; any other entry starts with a plain cell. The two shapes are told
      apart by the row's opening tags alone, whatever the cell contents. */
  lemma RowKinds(r: Row, fmt: real -> string)
    ensures r.message.Some? ==> RowHtml(r, fmt) == "<tr><td colspan='3'>" + r.message.value + "</td></tr>"
    ensures r.message.Some? <==> "<tr><td colspan='3'>" <= RowHtml(r, fmt)
    ensures r.message.None? <==> "<tr><td>" <= RowHtml(r, fmt)
  {
    var h := RowHtml(r, fmt);
    if r.message.Some? {
      assert h[7] == ' ';
    } else {
      assert h[..8] == "<tr><td>";
      assert h[7] == '>';
    }
  }

  /** The document is the header, then the rows of entries 0..i-1, then entry
      i's row, then the rows of the later entries, then the news sections. */
  lemma ReportRowAt(date: string, fmt: real -> string, cryptoNews: seq<Article>,
                    politicalNews: seq<Article>, market: seq<Row>, i: nat)
    requires i < |market|
    ensures Report(date, fmt, cryptoNews, politicalNews, market)
              == Header(date) + MarketRows(market[..i], fmt) + RowHtml(market[i], fmt)
                 + MarketRows(market[i + 1..], fmt) + Trailer(cryptoNews, politicalNews)
  {
    JoinedAt(market, r => RowHtml(r, fmt), i);
    Regroup(Header(date), MarketRows(market, fmt), Trailer(cryptoNews, politicalNews),
            MarketRows(market[..i], fmt), RowHtml(market[i], fmt), MarketRows(market[i + 1..], fmt));
  }

  lemma Regroup(h: string, x: string, t: string, p: string, q: string, r: string)
    requires x == p + q + r
    ensures h + x + t == h + p + q + r + t
  {
  }

  /** A news section shows its placeholder paragraph exactly when its list is
      empty, and otherwise opens with a list item. */
  lemma NewsBodyPlaceholderIff(articles: seq<Article>, placeholder: string)
    ensures NewsBody(articles, placeholder) == "<p>" + placeholder + "</p>" <==> articles == []
    ensures "<li>" <= NewsBody(articles, placeholder) <==> articles != []
  {
    var body := NewsBody(articles, placeholder);
    if articles != [] {
      NewsItemsOpen(articles);
      assert body[1] == 'l';
    } else {
      assert body[1] == 'p';
    }
  }

  /** A non-empty list of items opens with the first article's `<li>`. */
  lemma NewsItemsOpen(articles: seq<Article>)
    requires articles != []
    ensures "<li>" <= NewsItems(articles)
  {
    var first, rest := ItemHtml(articles[0]), NewsItems(articles[1..]);
    assert NewsItems(articles) == first + rest by {
      JoinedAt(articles, ItemHtml, 0);
      assert articles[..0] == [];
    }
    assert "<li>" <= first;
    PrefixOfAppend("<li>", first, rest);
  }

  lemma PrefixOfAppend(p: string, s: string, t: string)
    requires p <= s
    ensures p <= s + t
  {
    assert (s + t)[..|p|] == s[..|p|];
  }

  /** An article with none of its fields gets the defaults. */
  lemma ItemDefaults()
    ensures ItemHtml(Article(Missing, Missing, Missing))
              == "<li><a href='#'>No title</a><br><small></small></li>"
  {
  }

  lemma ThreeRows(r1: Row, r2: Row, r3: Row, fmt: real -> string)
    ensures MarketRows([r1, r2, r3], fmt) == RowHtml(r1, fmt) + RowHtml(r2, fmt) + RowHtml(r3, fmt)
  {
    var m := [r1, r2, r3];
    assert m[..2] == [r1, r2] && [r1, r2][..1] == [r1];
    JoinedOne(r1, r => RowHtml(r, fmt));
    assert MarketRows([r1, r2], fmt) == RowHtml(r1, fmt) + RowHtml(r2, fmt);
  }

  /** Two crypto articles and no political news: two list items, and the
      political placeholder. */
  lemma TwoArticlesNoPolitics(a1: Article, a2: Article)
    ensures NewsBody([a1, a2], CryptoNewsPlaceholder) == ItemHtml(a1) + ItemHtml(a2)
    ensures NewsBody([], PoliticalNewsPlaceholder) == "<p>No political news available.</p>"
  {
    assert [a1, a2][..1] == [a1];
    JoinedOne(a1, ItemHtml);
  }

  /** An end-to-end run: two crypto articles, no political news, prices for
      three of the four configured assets. The table has three rows (celestia
      silently missing), then the two crypto items and the political
      placeholder. */
  lemma ThreeOfFourReport(date: string, fmt: real -> string, a1: Article, a2: Article,
                          d: PriceData, btc: Entry, eth: Entry, sol: Entry)
    requires d == map["bitcoin" := btc, "ethereum" := eth, "solana" := sol]
    requires HasBothFields(btc) && HasBothFields(eth) && HasBothFields(sol)
    ensures Report(date, fmt, [a1, a2], [], Summary(Returned(d)))
              == Header(date)
                 + RowHtml(Row("BITCOIN", btc.usd.value, btc.usd24hChange.value, None), fmt)
                 + RowHtml(Row("ETHEREUM", eth.usd.value, eth.usd24hChange.value, None), fmt)
                 + RowHtml(Row("SOLANA", sol.usd.value, sol.usd24hChange.value, None), fmt)
                 + Trailer([a1, a2], [])
  {
    ThreeOfFourAssets(d, btc, eth, sol);
    ThreeRows(Row("BITCOIN", btc.usd.value, btc.usd24hChange.value, None),
              Row("ETHEREUM", eth.usd.value, eth.usd24hChange.value, None),
              Row("SOLANA", sol.usd.value, sol.usd24hChange.value, None), fmt);
  }
}
