/**
 * The guru portfolio tracker: cleaning the holdings table scraped from the
 * portfolio site, choosing between the live table and the built-in fallback
 * data, and building the ticker -> {Price, Change_Pct} map from a price
 * download.  The HTTP request, the HTML table parser and the price download
 * are not modelled; their results are parameters.
 */
module GuruTracker {
  import opened Wrappers
  import opened Numbers
  import Text

  /** A holdings row as the site's table has it. */
  datatype RawRow = RawRow(symbol: string, name: string, portfolioPct: string)

  /** A cleaned holding: ticker, company and portfolio share in percent (None when it does not parse). */
  datatype Holding = Holding(ticker: string, company: string, pct: Option<real>)

  /** A table found in the page: its column names and its rows. */
  datatype HtmlTable = HtmlTable(columns: set<string>, rows: seq<RawRow>)

  /** Where the shown holdings come from. */
  datatype Source = Live | Fallback

  /** A ticker symbol in Yahoo's spelling: every '.' becomes '-' (BRK.B -> BRK-B). */
  function CleanTicker(symbol: string): (t: string)
    ensures |t| == |symbol|
    ensures '.' !in t
    ensures forall i :: 0 <= i < |symbol| ==> t[i] == (if symbol[i] == '.' then '-' else symbol[i])
  {
    Text.ReplaceChar(symbol, '.', '-')
  }

  /** Cleaning a cleaned ticker changes nothing. */
  lemma CleanTickerIdempotent(symbol: string)
    ensures CleanTicker(CleanTicker(symbol)) == CleanTicker(symbol)
  {
    var t := CleanTicker(symbol);
    assert forall i :: 0 <= i < |t| ==> t[i] != '.';
  }

  /** The portfolio share text with every '%' deleted, ready for numeric conversion. */
  function CleanPercent(text: string): (r: string)
    ensures '%' !in r
    ensures multiset(r) == multiset(text)[('%') := 0]
  {
    Text.RemoveAllChar(text, '%');
    Text.RemoveAll(text, "%")
  }

  /**
   * `scrape_data` after the page is fetched and parsed: the symbol and name
   * columns are taken over with the ticker spelled Yahoo's way, and the
   * share text, '%' deleted, is given to `toNumeric` (pandas' coercing
   * conversion, which yields None for text that is not a number).
   */
  function CleanRows(rows: seq<RawRow>, toNumeric: string -> Option<real>): (r: seq<Holding>)
    ensures |r| == |rows|
    ensures forall i :: 0 <= i < |rows| ==>
      r[i] == Holding(CleanTicker(rows[i].symbol), rows[i].name, toNumeric(CleanPercent(rows[i].portfolioPct)))
  {
    seq(|rows|, i requires 0 <= i < |rows| =>
      Holding(CleanTicker(rows[i].symbol), rows[i].name, toNumeric(CleanPercent(rows[i].portfolioPct))))
  }

  /** The index of the first table that has a "Symbol" column. */
  function FirstWithSymbol(tables: seq<HtmlTable>): (k: Option<nat>)
    ensures k.Some? ==> k.value < |tables| && "Symbol" in tables[k.value].columns
    ensures k.Some? ==> forall j :: 0 <= j < k.value ==> "Symbol" !in tables[j].columns
    ensures k.None? ==> forall j :: 0 <= j < |tables| ==> "Symbol" !in tables[j].columns
  {
    if tables == [] then None
    else if "Symbol" in tables[0].columns then Some(0)
    else match FirstWithSymbol(tables[1..])
      case None => None
      case Some(k) => Some(k + 1)
  }

  /**
   * What `scrape_data` returns: None when the site does not answer 200,
   * when no table has a "Symbol" column, or when that table lacks the
   * "Name" or "Portfolio %" column (the lookup raises and the function
   * returns None); otherwise the cleaned rows.
   */
  function Scraped(status: int, tables: seq<HtmlTable>, toNumeric: string -> Option<real>): Option<seq<Holding>>
  {
    if status != 200 then None
    else match FirstWithSymbol(tables)
      case None => None
      case Some(k) =>
        if "Name" in tables[k].columns && "Portfolio %" in tables[k].columns
        then Some(CleanRows(tables[k].rows, toNumeric))
        else None
  }

  /** `scrape_data`: the loop that looks for the holdings table, then the cleaning. */
  method ScrapeData(status: int, tables: seq<HtmlTable>, toNumeric: string -> Option<real>)
    returns (r: Option<seq<Holding>>)
    ensures r == Scraped(status, tables, toNumeric)
    ensures r.Some? ==> forall i :: 0 <= i < |r.value| ==> '.' !in r.value[i].ticker
  {
    if status != 200 {
      return None;
    }
    var i := 0;
    while i < |tables|
      invariant 0 <= i <= |tables|
      invariant forall j :: 0 <= j < i ==> "Symbol" !in tables[j].columns
    {
      if "Symbol" in tables[i].columns {
        assert FirstWithSymbol(tables) == Some(i) by { FirstIsFound(tables, i); }
        if "Name" in tables[i].columns && "Portfolio %" in tables[i].columns {
          return Some(CleanRows(tables[i].rows, toNumeric));
        }
        return None;
      }
      i := i + 1;
    }
    return None;
  }

  lemma {:induction false} FirstIsFound(tables: seq<HtmlTable>, i: nat)
    requires i < |tables| && "Symbol" in tables[i].columns
    requires forall j :: 0 <= j < i ==> "Symbol" !in tables[j].columns
    ensures FirstWithSymbol(tables) == Some(i)
  {
    if i > 0 {
      FirstIsFound(tables[1..], i - 1);
    }
  }

  /**
   * `get_guru_portfolio`: looking up the guru's page address raises for a
   * guru without one (None); otherwise the scraped table when there is one
   * with at least one row, tagged live, else the guru's built-in rows, or no
   * rows for a guru without any, tagged fallback.
   */
  function GuruPortfolio(guru: string, urls: set<string>, scraped: Option<seq<Holding>>, builtIn: map<string, seq<Holding>>)
    : (r: Option<(seq<Holding>, Source)>)
    ensures r.None? <==> guru !in urls
    ensures r.Some? ==> (r.value.1 == Live <==> scraped.Some? && |scraped.value| > 0)
    ensures r.Some? && r.value.1 == Live ==> r.value.0 == scraped.value
    ensures r.Some? && r.value.1 == Fallback ==> r.value.0 == (if guru in builtIn then builtIn[guru] else [])
  {
    if guru !in urls then None
    else if scraped.Some? && |scraped.value| > 0 then Some((scraped.value, Live))
    else if guru in builtIn then Some((builtIn[guru], Fallback))
    else Some(([], Fallback))
  }

  /** The gurus with a portfolio page and with built-in rows; the select box offers exactly these. */
  const GuruNames: set<string> :=
    {"Warren Buffett (Berkshire)", "Bill Ackman (Pershing Square)", "Michael Burry (Scion Asset)", "Howard Marks (Oaktree)"}

  /**
   * A guru picked in the select box always has a page address and built-in
   * rows, so the lookup never raises and the fallback is that guru's rows.
   */
  lemma SelectedGuruIsServed(guru: string, scraped: Option<seq<Holding>>, builtIn: map<string, seq<Holding>>)
    requires guru in GuruNames && builtIn.Keys == GuruNames
    ensures var r := GuruPortfolio(guru, GuruNames, scraped, builtIn);
      && r.Some?
      && (r.value.1 == Fallback ==> r.value.0 == builtIn[guru])
  {
  }

  /** A ticker column cell: a text value or some other value (a missing one, a number). */
  datatype Cell = Str(s: string) | NonText

  /** The tickers a price download is asked for: the non-empty text cells, in order. */
  function PriceTickers(cells: seq<Cell>): (ts: seq<string>)
    ensures |ts| <= |cells|
    ensures forall t :: t in ts <==> Str(t) in cells && t != []
    ensures cells == [] ==> ts == []
  {
    if cells == [] then []
    else
      var rest := PriceTickers(cells[1..]);
      assert forall c :: c in cells <==> c == cells[0] || c in cells[1..];
      if cells[0].Str? && cells[0].s != [] then [cells[0].s] + rest else rest
  }

  /** Keeping the usable tickers keeps their order: filtering a concatenation filters each part. */
  lemma {:induction false} PriceTickersAppend(a: seq<Cell>, b: seq<Cell>)
    ensures PriceTickers(a + b) == PriceTickers(a) + PriceTickers(b)
  {
    if a == [] {
      assert a + b == b;
    } else {
      assert (a + b)[1..] == a[1..] + b;
      PriceTickersAppend(a[1..], b);
    }
  }

  /** The last row of a ticker's download: closing and opening price, None when missing (NaN). */
  datatype Bar = Bar(close: Option<real>, open: Option<real>)

  /** A price download: for each ticker it returned, its rows, oldest first. */
  datatype Download = Download(frames: map<string, seq<Bar>>)

  /** A price map entry. */
  datatype Quote = Quote(price: Num, changePct: Num)

  /** The entry given to a ticker whose price cannot be read. */
  const NoQuote := Quote(Finite(0.0), Finite(0.0))

  /**
   * The repair of the multi-ticker path: a missing close reads as 0; a
   * missing or zero open is replaced by the close, or by 1 when the close is
   * 0 too.  The repaired open is never 0.
   */
  function Repair(close: Option<real>, open: Option<real>): (r: (real, real))
    ensures r.1 != 0.0
    ensures r.0 == (if close.Some? then close.value else 0.0)
    ensures open.Some? && open.value != 0.0 ==> r.1 == open.value
    ensures (open.None? || open.value == 0.0) && r.0 != 0.0 ==> r.1 == r.0
    ensures (open.None? || open.value == 0.0) && r.0 == 0.0 ==> r.1 == 1.0
  {
    var current := if close.Some? then close.value else 0.0;
    var prev := if open.Some? && open.value != 0.0 then open.value
      else if current != 0.0 then current else 1.0;
    (current, prev)
  }

  /** The entry of one ticker in the multi-ticker path. */
  function MultiQuote(t: string, d: Download): (q: Quote)
    ensures q.price.Finite? && q.changePct.Finite?
    ensures t !in d.frames || |d.frames[t]| == 0 ==> q == NoQuote
    ensures t in d.frames && |d.frames[t]| > 0 ==>
      var bar := d.frames[t][|d.frames[t]| - 1];
      var prev := Repair(bar.close, bar.open).1;
      q.price == Finite(Repair(bar.close, bar.open).0) && q.changePct.v * prev == (q.price.v - prev) * 100.0
    ensures t in d.frames && |d.frames[t]| > 0 ==>
      var bar := d.frames[t][|d.frames[t]| - 1];
      bar.close.Some? && bar.open.Some? && bar.open.value != 0.0 ==>
        q == Quote(FromCell(bar.close), PctChange(FromCell(bar.close), FromCell(bar.open)))
  {
    if t in d.frames && |d.frames[t]| > 0 then
      var bar := d.frames[t][|d.frames[t]| - 1];
      var (current, prev) := Repair(bar.close, bar.open);
      Quote(Finite(current), Finite((current - prev) / prev * 100.0))
    else NoQuote
  }

  /**
   * The entry of the only ticker in the single-ticker path: no repair, so a
   * missing price stays NaN and a zero open gives an infinite or NaN change.
   * A download without rows for it raises, and the ticker gets NoQuote.
   */
  function SingleQuote(t: string, d: Download): (q: Quote)
    ensures t in d.frames && |d.frames[t]| > 0 ==>
      q.price == FromCell(d.frames[t][|d.frames[t]| - 1].close)
    ensures t in d.frames && |d.frames[t]| > 0 ==>
      q.changePct == PctChange(FromCell(d.frames[t][|d.frames[t]| - 1].close), FromCell(d.frames[t][|d.frames[t]| - 1].open))
    ensures !(t in d.frames && |d.frames[t]| > 0) ==> q == NoQuote
  {
    if t in d.frames && |d.frames[t]| > 0 then
      var bar := d.frames[t][|d.frames[t]| - 1];
      Quote(FromCell(bar.close), PctChange(FromCell(bar.close), FromCell(bar.open)))
    else NoQuote
  }

  /** The multi-ticker map over a list of tickers. */
  function MultiQuotes(ts: seq<string>, d: Download): (m: map<string, Quote>)
    ensures m.Keys == set t | t in ts
    ensures forall t :: t in m ==> m[t] == MultiQuote(t, d)
  {
    map t | t in ts :: MultiQuote(t, d)
  }

  /**
   * `get_live_prices`: no entries for an empty ticker list or a failed
   * download; for a single usable ticker its unrepaired entry; otherwise the
   * repaired entry of every usable ticker.
   */
  function LivePrices(cells: seq<Cell>, download: Option<Download>): map<string, Quote>
  {
    if cells == [] || download.None? then map[]
    else
      var ts := PriceTickers(cells);
      if |ts| == 1 then map[ts[0] := SingleQuote(ts[0], download.value)]
      else MultiQuotes(ts, download.value)
  }

  /** `get_live_prices`, filling the map one ticker at a time. */
  method GetLivePrices(cells: seq<Cell>, download: Option<Download>) returns (prices: map<string, Quote>)
    ensures prices == LivePrices(cells, download)
  {
    if cells == [] {
      return map[];
    }
    var tickers := PriceTickers(cells);
    if download.None? {
      return map[];
    }
    var data := download.value;
    prices := map[];
    if |tickers| == 1 {
      var t := tickers[0];
      prices := prices[t := SingleQuote(t, data)];
    } else {
      var i := 0;
      while i < |tickers|
        invariant 0 <= i <= |tickers|
        invariant prices == MultiQuotes(tickers[..i], data)
      {
        var t := tickers[i];
        var q := MultiQuote(t, data);
        assert tickers[..i + 1] == tickers[..i] + [t];
        prices := prices[t := q];
        i := i + 1;
      }
      assert tickers[..i] == tickers;
    }
  }

  /**
   * With two or more usable tickers every one of them gets an entry, one
   * missing from the download gets price 0 and change 0, and no change is
   * NaN or infinite.
   */
  lemma EveryTickerPriced(cells: seq<Cell>, d: Download)
    requires |PriceTickers(cells)| != 1
    ensures var m := LivePrices(cells, Some(d));
      && (forall t :: t in m <==> Str(t) in cells && t != [])
      && (forall t :: t in m && t !in d.frames ==> m[t] == NoQuote)
      && (forall t :: t in m ==> m[t].changePct.Finite?)
  {
    if cells == [] {
      assert forall t :: Str(t) !in cells;
    }
  }

  /** When the open is missing or zero and the close is not zero, the reported change is exactly 0. */
  lemma RepairedChangeIsZero(t: string, d: Download)
    requires t in d.frames && |d.frames[t]| > 0
    requires var bar := d.frames[t][|d.frames[t]| - 1];
      bar.close.Some? && bar.close.value != 0.0 && (bar.open.None? || bar.open.value == 0.0)
    ensures MultiQuote(t, d).changePct == Finite(0.0)
  {
    var bar := d.frames[t][|d.frames[t]| - 1];
    var (current, prev) := Repair(bar.close, bar.open);
    assert prev == current;
    assert (current - prev) / prev == 0.0;
  }

  /**
   * A ticker whose last close is missing but whose download has rows is
   * reported at price 0 and a change of -100%, whatever its open was.
   */
  lemma MissingCloseReadsAsTotalLoss(t: string, d: Download)
    requires t in d.frames && |d.frames[t]| > 0
    requires d.frames[t][|d.frames[t]| - 1].close.None?
    ensures MultiQuote(t, d) == Quote(Finite(0.0), Finite(-100.0))
  {
    var bar := d.frames[t][|d.frames[t]| - 1];
    var (current, prev) := Repair(bar.close, bar.open);
    assert current == 0.0 && prev != 0.0;
    assert (current - prev) / prev == -1.0;
  }
}
