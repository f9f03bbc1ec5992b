/**
 * The contrarian market scanner: the news-sentiment signal of a ticker (bad
 * news reads as a buying chance, good news as a risk), the exchange prefix
 * of the chart symbol, the dip flag, and the per-ticker scan row.  The news
 * search, the sentiment analyser and the price history download are not
 * modelled; their results are parameters, each headline carrying its
 * polarity.
 */
module MarketScanner {
  import opened Wrappers
  import opened Numbers
  import Text

  /** The tickers the scanner looks at. */
  const Tickers: seq<string> := ["VOO", "GOOG", "V", "NET", "PANW", "MSFT", "ISRG", "CEG", "AAPL", "TSM"]

  /** Only this many headlines are read. */
  const MaxHeadlines := 7

  /** A search result: its headline and the headline's sentiment polarity. */
  datatype NewsResult = NewsResult(title: string, polarity: real)

  /** The topics a headline can raise. */
  datatype Topic = Earnings | Crash | Rates | Lawsuit | PriceHike

  function TopicLabel(t: Topic): string
  {
    match t
    case Earnings => "財報"
    case Crash => "暴跌"
    case Rates => "升息/通膨"
    case Lawsuit => "訴訟"
    case PriceHike => "漲價"
  }

  function Flag(raised: bool, k: Topic): seq<Topic>
  {
    if raised then [k] else []
  }

  /** The topics of the five tests, in the order they are made. */
  function TopicsOf(earnings: bool, crash: bool, rates: bool, lawsuit: bool, hike: bool): seq<Topic>
  {
    Flag(earnings, Earnings) + (Flag(crash, Crash) + (Flag(rates, Rates) + (Flag(lawsuit, Lawsuit) + Flag(hike, PriceHike))))
  }

  /** The topics of one headline: the lower-cased headline is searched for each word, one topic per test at most. */
  function TitleTopics(title: string): (r: seq<Topic>)
    ensures |r| <= 5
  {
    var t := Text.Lower(title);
    TopicsOf(Text.Contains(t, "earnings"), Text.Contains(t, "plunge") || Text.Contains(t, "drop"),
             Text.Contains(t, "fed"), Text.Contains(t, "lawsuit"), Text.Contains(t, "hike"))
  }

  /** No topic occurs twice. */
  predicate NoRepeats(r: seq<Topic>)
  {
    r == [] || (r[0] !in r[1..] && NoRepeats(r[1..]))
  }

  /** A flag in front of a list without its topic: the topic is listed when raised, and still only once. */
  lemma FlagInFront(raised: bool, k: Topic, rest: seq<Topic>)
    requires NoRepeats(rest) && k !in rest
    ensures NoRepeats(Flag(raised, k) + rest)
  {
    if raised {
      assert (Flag(raised, k) + rest)[1..] == rest;
    } else {
      assert Flag(raised, k) + rest == rest;
    }
  }

  /** A flag in front of a list adds its topic when raised and nothing else. */
  lemma FlagMember(raised: bool, k: Topic, rest: seq<Topic>, x: Topic)
    ensures x in Flag(raised, k) + rest <==> (raised && x == k) || x in rest
  {
  }

  /** Whether the test for topic `x` passed. */
  function Raised(x: Topic, earnings: bool, crash: bool, rates: bool, lawsuit: bool, hike: bool): bool
  {
    match x
    case Earnings => earnings
    case Crash => crash
    case Rates => rates
    case Lawsuit => lawsuit
    case PriceHike => hike
  }

  /** Each test raises its own topic and no other. */
  lemma TopicsOfMembers(earnings: bool, crash: bool, rates: bool, lawsuit: bool, hike: bool)
    ensures forall x :: x in TopicsOf(earnings, crash, rates, lawsuit, hike) <==> Raised(x, earnings, crash, rates, lawsuit, hike)
  {
    var e := Flag(hike, PriceHike);
    var d := Flag(lawsuit, Lawsuit) + e;
    var c := Flag(rates, Rates) + d;
    var b := Flag(crash, Crash) + c;
    forall x ensures x in TopicsOf(earnings, crash, rates, lawsuit, hike) <==> Raised(x, earnings, crash, rates, lawsuit, hike) {
      FlagMember(lawsuit, Lawsuit, e, x);
      FlagMember(rates, Rates, d, x);
      FlagMember(crash, Crash, c, x);
      FlagMember(earnings, Earnings, b, x);
    }
  }

  /** No topic is listed twice. */
  lemma TopicsOfOnce(earnings: bool, crash: bool, rates: bool, lawsuit: bool, hike: bool)
    ensures NoRepeats(TopicsOf(earnings, crash, rates, lawsuit, hike))
  {
    var e := Flag(hike, PriceHike);
    var d := Flag(lawsuit, Lawsuit) + e;
    var c := Flag(rates, Rates) + d;
    var b := Flag(crash, Crash) + c;
    FlagInFront(hike, PriceHike, []);
    assert e == Flag(hike, PriceHike) + [];
    FlagInFront(lawsuit, Lawsuit, e);
    FlagInFront(rates, Rates, d);
    FlagInFront(crash, Crash, c);
    FlagInFront(earnings, Earnings, b);
  }

  /**
   * A headline raises each topic at most once; in particular one that says
   * both "plunge" and "drop" gives a single 暴跌.
   */
  lemma TopicsOnce(title: string)
    ensures NoRepeats(TitleTopics(title))
    ensures var t := Text.Lower(title);
      && (Earnings in TitleTopics(title) <==> Text.Contains(t, "earnings"))
      && (Crash in TitleTopics(title) <==> Text.Contains(t, "plunge") || Text.Contains(t, "drop"))
      && (Rates in TitleTopics(title) <==> Text.Contains(t, "fed"))
      && (Lawsuit in TitleTopics(title) <==> Text.Contains(t, "lawsuit"))
      && (PriceHike in TitleTopics(title) <==> Text.Contains(t, "hike"))
  {
    var t := Text.Lower(title);
    TopicsOfMembers(Text.Contains(t, "earnings"), Text.Contains(t, "plunge") || Text.Contains(t, "drop"),
                    Text.Contains(t, "fed"), Text.Contains(t, "lawsuit"), Text.Contains(t, "hike"));
    TopicsOfOnce(Text.Contains(t, "earnings"), Text.Contains(t, "plunge") || Text.Contains(t, "drop"),
                 Text.Contains(t, "fed"), Text.Contains(t, "lawsuit"), Text.Contains(t, "hike"));
  }

  /** The polarities of the results, in order. */
  function Polarities(rs: seq<NewsResult>): (r: seq<real>)
    ensures |r| == |rs|
    ensures forall i :: 0 <= i < |rs| ==> r[i] == rs[i].polarity
  {
    seq(|rs|, i requires 0 <= i < |rs| => rs[i].polarity)
  }

  /** The topic lists of the results, one per headline. */
  function TopicLists(rs: seq<NewsResult>): (r: seq<seq<Topic>>)
    ensures |r| == |rs|
    ensures forall i :: 0 <= i < |rs| ==> r[i] == TitleTopics(rs[i].title)
  {
    seq(|rs|, i requires 0 <= i < |rs| => TitleTopics(rs[i].title))
  }

  /** The lists one after another. */
  function Flatten<T>(xss: seq<seq<T>>): seq<T>
  {
    if xss == [] then [] else Flatten(xss[..|xss| - 1]) + xss[|xss| - 1]
  }

  /** An element of the joined lists is an element of one of them. */
  lemma {:induction false} FlattenMembers<T>(xss: seq<seq<T>>, k: T)
    ensures k in Flatten(xss) <==> exists i :: 0 <= i < |xss| && k in xss[i]
  {
    if xss != [] {
      var init := xss[..|xss| - 1];
      FlattenMembers(init, k);
      if k in Flatten(xss) && k !in xss[|xss| - 1] {
        var i :| 0 <= i < |init| && k in init[i];
        assert xss[i] == init[i];
      }
      if exists i :: 0 <= i < |xss| && k in xss[i] {
        var i :| 0 <= i < |xss| && k in xss[i];
        if i < |init| {
          assert init[i] == xss[i];
        }
      }
    }
  }

  /** The topics of the results, headline after headline. */
  function AllTopics(rs: seq<NewsResult>): seq<Topic>
  {
    Flatten(TopicLists(rs))
  }

  /** A topic is among those of the results exactly when some headline raises it. */
  lemma AllTopicsMembers(rs: seq<NewsResult>, k: Topic)
    ensures k in AllTopics(rs) <==> exists i :: 0 <= i < |rs| && k in TitleTopics(rs[i].title)
  {
    FlattenMembers(TopicLists(rs), k);
  }

  function Sum(xs: seq<real>): real
  {
    if xs == [] then 0.0 else Sum(xs[..|xs| - 1]) + xs[|xs| - 1]
  }

  /** `statistics.mean` of a non-empty list. */
  function Mean(xs: seq<real>): real
    requires xs != []
  {
    Sum(xs) / |xs| as real
  }

  /** The mean lies between the least and the greatest value. */
  lemma {:induction false} SumBounds(xs: seq<real>, lo: real, hi: real)
    requires forall i :: 0 <= i < |xs| ==> lo <= xs[i] <= hi
    ensures lo * |xs| as real <= Sum(xs) <= hi * |xs| as real
  {
    if xs != [] {
      SumBounds(xs[..|xs| - 1], lo, hi);
    }
  }

  lemma MeanBounds(xs: seq<real>, lo: real, hi: real)
    requires xs != []
    requires forall i :: 0 <= i < |xs| ==> lo <= xs[i] <= hi
    ensures lo <= Mean(xs) <= hi
  {
    SumBounds(xs, lo, hi);
    var n := |xs| as real;
    assert lo * n <= Sum(xs) <= hi * n;
    DivideBounds(Sum(xs), n, lo, hi);
  }

  lemma DivideBounds(s: real, n: real, lo: real, hi: real)
    requires n > 0.0 && lo * n <= s <= hi * n
    ensures lo <= s / n <= hi
  {
    assert s / n * n == s;
  }

  /** The contrarian reading of the average polarity: 💎 恐慌買點, ⚠️ 過熱風險 or ⚪ 觀望中. */
  datatype Signal = PanicBuy | Overheated | Neutral

  /** Below -0.05 is a buying chance, above 0.05 a risk, anything between neutral: both thresholds exclusive. */
  function Classify(avg: real): (s: Signal)
    ensures s == PanicBuy <==> avg < -0.05
    ensures s == Overheated <==> avg > 0.05
    ensures s == Neutral <==> -0.05 <= avg <= 0.05
  {
    if avg < -0.05 then PanicBuy else if avg > 0.05 then Overheated else Neutral
  }

  /** What `get_contrarian_ai` returns. */
  datatype Reading =
    | Failed                                                 // the search raised: "分析失敗", 0
    | NoNews                                                 // no results: "無重大消息", 0
    | Verdict(signal: Signal, topics: set<Topic>, avg: real)  // "<signal> (原因: <reason>)", avg

  /** The score part of the returned pair. */
  function ReadingScore(r: Reading): real
  {
    if r.Verdict? then r.avg else 0.0
  }

  /** The words of the reason: the distinct topics raised, or 市場波動 when none; the order they are joined in is not fixed. */
  function ReasonWords(topics: set<Topic>): (w: set<string>)
    ensures topics == {} ==> w == {"市場波動"}
    ensures topics != {} ==> forall k :: k in topics <==> TopicLabel(k) in w
    ensures topics != {} ==> forall x :: x in w ==> exists k :: k in topics && x == TopicLabel(k)
  {
    if topics == {} then {"市場波動"} else set k | k in topics :: TopicLabel(k)
  }

  /** `results[:7]` */
  function Head(rs: seq<NewsResult>): (h: seq<NewsResult>)
    ensures |h| == if |rs| <= MaxHeadlines then |rs| else MaxHeadlines
    ensures h == rs[..|h|]
  {
    if |rs| <= MaxHeadlines then rs else rs[..MaxHeadlines]
  }

  /** The reading of a search result list (None when the search raised). */
  function Contrarian(results: Option<seq<NewsResult>>): Reading
  {
    match results
    case None => Failed
    case Some(rs) =>
      if rs == [] then NoNews
      else
        var top := Head(rs);
        var avg := Mean(Polarities(top));
        Verdict(Classify(avg), (set k | k in AllTopics(top)), avg)
  }

  /** `get_contrarian_ai`: one pass over the first 7 results collecting polarities and topics, then the verdict. */
  method GetContrarianAi(results: Option<seq<NewsResult>>) returns (reading: Reading)
    ensures reading == Contrarian(results)
  {
    if results.None? {
      return Failed;
    }
    var rs := results.value;
    if rs == [] {
      return NoNews;
    }
    var top := Head(rs);
    var scores: seq<real> := [];
    var topics: seq<Topic> := [];
    var i := 0;
    while i < |top|
      invariant 0 <= i <= |top|
      invariant scores == Polarities(top[..i])
      invariant topics == AllTopics(top[..i])
    {
      assert top[..i + 1][..i] == top[..i];
      assert TopicLists(top[..i + 1])[..i] == TopicLists(top[..i]);
      scores := scores + [top[i].polarity];
      topics := topics + TitleTopics(top[i].title);
      i := i + 1;
    }
    assert top[..i] == top;
    var avg := Sum(scores) / |scores| as real;
    reading := Verdict(Classify(avg), (set k | k in topics), avg);
  }

  /** An empty result list reads as no news with score 0; a failed search as a failure with score 0. */
  lemma NoResults()
    ensures Contrarian(Some([])) == NoNews && ReadingScore(Contrarian(Some([]))) == 0.0
    ensures Contrarian(None) == Failed && ReadingScore(Contrarian(None)) == 0.0
  {
  }

  /** Results after the seventh change nothing. */
  lemma OnlyFirstSeven(rs: seq<NewsResult>, more: seq<NewsResult>)
    requires |rs| >= MaxHeadlines
    ensures Contrarian(Some(rs + more)) == Contrarian(Some(rs))
  {
    assert Head(rs + more) == Head(rs);
  }

  /**
   * A topic is in the reason exactly when one of the first 7 headlines
   * raises it, and the signal is read off the mean polarity of those 7.
   */
  lemma ReadingOfResults(rs: seq<NewsResult>, k: Topic)
    requires rs != []
    ensures Contrarian(Some(rs)).Verdict?
    ensures k in Contrarian(Some(rs)).topics <==>
      exists i :: 0 <= i < |rs| && i < MaxHeadlines && k in TitleTopics(rs[i].title)
    ensures Contrarian(Some(rs)).signal == Classify(Contrarian(Some(rs)).avg)
  {
    var top := Head(rs);
    AllTopicsMembers(top, k);
    if exists i :: 0 <= i < |rs| && i < MaxHeadlines && k in TitleTopics(rs[i].title) {
      var i :| 0 <= i < |rs| && i < MaxHeadlines && k in TitleTopics(rs[i].title);
      assert top[i] == rs[i];
    }
  }

  /** One of the first 7 headlines raises topic `k`. */
  predicate RaisedByHead(rs: seq<NewsResult>, k: Topic)
  {
    exists i :: 0 <= i < |rs| && i < MaxHeadlines && k in TitleTopics(rs[i].title)
  }

  /**
   * The words of the returned reason: the label of each topic one of the
   * first 7 headlines raises, or only 市場波動 when they raise none.
   */
  lemma ReasonOfResults(rs: seq<NewsResult>, x: string)
    requires rs != []
    ensures Contrarian(Some(rs)).Verdict?
    ensures (exists k :: RaisedByHead(rs, k)) ==>
      (x in ReasonWords(Contrarian(Some(rs)).topics) <==> exists k :: RaisedByHead(rs, k) && x == TopicLabel(k))
    ensures (forall k :: !RaisedByHead(rs, k)) ==> ReasonWords(Contrarian(Some(rs)).topics) == {"市場波動"}
  {
    var topics := Contrarian(Some(rs)).topics;
    forall k: Topic
      ensures k in topics <==> RaisedByHead(rs, k)
    {
      ReadingOfResults(rs, k);
    }
    ReasonOfTopics(rs, topics, x);
  }

  lemma ReasonOfTopics(rs: seq<NewsResult>, topics: set<Topic>, x: string)
    requires forall k :: k in topics <==> RaisedByHead(rs, k)
    ensures (exists k :: RaisedByHead(rs, k)) ==>
      (x in ReasonWords(topics) <==> exists k :: RaisedByHead(rs, k) && x == TopicLabel(k))
    ensures (forall k :: !RaisedByHead(rs, k)) ==> ReasonWords(topics) == {"市場波動"}
  {
    if exists k :: RaisedByHead(rs, k) {
      var k :| RaisedByHead(rs, k);
      assert k in topics;
    } else {
      assert topics == {};
    }
  }

  /** Polarities lie in -1..1, so the score of any reading does too. */
  lemma ScoreInRange(results: Option<seq<NewsResult>>)
    requires results.Some? ==> forall i :: 0 <= i < |results.value| ==> -1.0 <= results.value[i].polarity <= 1.0
    ensures -1.0 <= ReadingScore(Contrarian(results)) <= 1.0
  {
    if results.Some? && results.value != [] {
      var top := Head(results.value);
      MeanBounds(Polarities(top), -1.0, 1.0);
    }
  }

  /** The chart's exchange. */
  datatype Exchange = Nyse | Nasdaq

  function ExchangeName(e: Exchange): string
  {
    match e
    case Nyse => "NYSE"
    case Nasdaq => "NASDAQ"
  }

  /** `get_exchange`: NYSE for the four tickers listed there, NASDAQ for every other symbol. */
  function GetExchange(symbol: string): (e: Exchange)
    ensures e == Nyse <==> symbol == "VOO" || symbol == "V" || symbol == "NET" || symbol == "TSM"
  {
    if symbol in ["VOO", "V", "NET", "TSM"] then Nyse else Nasdaq
  }

  /** The chart symbol "EXCHANGE:TICKER": it splits at its only ':' back into the exchange name and the ticker. */
  function ChartSymbol(symbol: string): (c: string)
    ensures var n := |ExchangeName(GetExchange(symbol))|;
      && n < |c| && c[n] == ':' && c[..n] == ExchangeName(GetExchange(symbol)) && c[n + 1..] == symbol
      && ':' !in c[..n]
  {
    ExchangeName(GetExchange(symbol)) + ":" + symbol
  }

  /** A dip: a fall of more than 1.5% (minus infinity counts, NaN does not). */
  predicate IsDip(change: Num)
    ensures change.Finite? ==> (IsDip(change) <==> change.v < -1.5)
    ensures change.NaN? ==> !IsDip(change)
    ensures change.Inf? ==> (IsDip(change) <==> !change.positive)
  {
    Below(change, -1.5)
  }

  /** For a positive previous close, a dip means the close fell below 98.5% of it. */
  lemma DipMeansBelow985(curr: real, prev: real)
    requires prev > 0.0
    ensures IsDip(PctChange(Finite(curr), Finite(prev))) <==> curr < 0.985 * prev
  {
    var r := PctChange(Finite(curr), Finite(prev));
    DipThreshold(r.v, curr, prev);
  }

  lemma DipThreshold(x: real, curr: real, prev: real)
    requires prev > 0.0 && x * prev == (curr - prev) * 100.0
    ensures x < -1.5 <==> curr < 0.985 * prev
  {
    if x < -1.5 {
      ScaleByPositive(x, -1.5, prev);
    } else {
      ScaleByPositive(-1.5, x, prev);
    }
  }

  lemma ScaleByPositive(a: real, b: real, p: real)
    requires p > 0.0
    ensures a < b ==> a * p < b * p
    ensures a <= b ==> a * p <= b * p
  {
  }

  /** One row of the scan table. */
  datatype ScanRow = ScanRow(ticker: string, price: Num, change: Num, signal: Reading, isDip: bool)

  /** The outcome of scanning one ticker: no row, a row, or an uncaught exception that ends the scan. */
  datatype Scan = Skipped | Row(row: ScanRow) | Crashed

  /** The row for a history with at least two closes: the last close, its change from the one before, the dip flag. */
  function RowOf(ticker: string, closes: seq<Option<real>>, news: Option<seq<NewsResult>>): ScanRow
    requires |closes| >= 2
  {
    var curr := FromCell(closes[|closes| - 1]);
    var prev := FromCell(closes[|closes| - 2]);
    var change := PctChange(curr, prev);
    ScanRow(ticker, curr, change, Contrarian(news), IsDip(change))
  }

  /**
   * The loop body of `get_market_data` as written: it checks for at least
   * one row but reads the second-to-last close, which a one-row history
   * does not have.
   */
  function ScanTickerAsWritten(ticker: string, closes: seq<Option<real>>, news: Option<seq<NewsResult>>): (s: Scan)
    ensures s == Skipped <==> closes == []
    ensures s == Crashed <==> |closes| == 1
    ensures s.Row? ==> |closes| >= 2 && s.row == RowOf(ticker, closes, news)
  {
    if |closes| > 0 then
      if |closes| < 2 then Crashed else Row(RowOf(ticker, closes, news))
    else Skipped
  }

  /** A ticker with a single day of history ends the whole scan with an IndexError. */
  lemma OneRowCrashes()
    ensures ScanTickerAsWritten("VOO", [Some(400.0)], None) == Crashed
  {
  }

  /** The loop body with the guard the row needs: at least two closes. */
  function ScanTicker(ticker: string, closes: seq<Option<real>>, news: Option<seq<NewsResult>>): (s: Scan)
    ensures s != Crashed
    ensures s.Row? <==> |closes| >= 2
  {
    if |closes| > 1 then Row(RowOf(ticker, closes, news)) else Skipped
  }

  /** The guarded scan never raises and agrees with the code as written wherever that one does not raise. */
  lemma ScanTickerFixesCrash(ticker: string, closes: seq<Option<real>>, news: Option<seq<NewsResult>>)
    ensures ScanTicker(ticker, closes, news) != Crashed
    ensures ScanTickerAsWritten(ticker, closes, news) != Crashed ==>
      ScanTicker(ticker, closes, news) == ScanTickerAsWritten(ticker, closes, news)
    ensures ScanTickerAsWritten(ticker, closes, news) == Crashed <==> |closes| == 1
  {
  }

  /** The tickers that get a row: those with two or more closes, in ticker order. */
  function Scanned(tickers: seq<string>, history: string -> seq<Option<real>>): (q: seq<string>)
    ensures |q| <= |tickers|
    ensures forall t :: t in q <==> t in tickers && |history(t)| >= 2
  {
    if tickers == [] then []
    else
      var init := tickers[..|tickers| - 1];
      var t := tickers[|tickers| - 1];
      assert tickers == init + [t];
      if |history(t)| >= 2 then Scanned(init, history) + [t] else Scanned(init, history)
  }

  /** The rows of a scan: the row of each ticker with two or more closes, in ticker order. */
  function Rows(tickers: seq<string>, history: string -> seq<Option<real>>, news: string -> Option<seq<NewsResult>>)
    : (rows: seq<ScanRow>)
    ensures |rows| == |Scanned(tickers, history)| <= |tickers|
    ensures forall i :: 0 <= i < |rows| ==>
      var t := Scanned(tickers, history)[i];
      |history(t)| >= 2 && rows[i] == RowOf(t, history(t), news(t))
  {
    if tickers == [] then []
    else
      var init := tickers[..|tickers| - 1];
      var t := tickers[|tickers| - 1];
      var scan := ScanTicker(t, history(t), news(t));
      var q := Scanned(init, history);
      assert forall i :: 0 <= i < |q| ==> q[i] in q;
      if scan.Row? then Rows(init, history, news) + [scan.row] else Rows(init, history, news)
  }

  /** `get_market_data` with the guard corrected: one row per ticker with two or more closes, in order. */
  method GetMarketData(tickers: seq<string>, history: string -> seq<Option<real>>, news: string -> Option<seq<NewsResult>>)
    returns (rows: seq<ScanRow>)
    ensures rows == Rows(tickers, history, news)
  {
    rows := [];
    var i := 0;
    while i < |tickers|
      invariant 0 <= i <= |tickers|
      invariant rows == Rows(tickers[..i], history, news)
    {
      var t := tickers[i];
      assert tickers[..i + 1][..i] == tickers[..i];
      var closes := history(t);
      if |closes| > 1 {
        var curr := FromCell(closes[|closes| - 1]);
        var prev := FromCell(closes[|closes| - 2]);
        var change := PctChange(curr, prev);
        var signal := GetContrarianAi(news(t));
        rows := rows + [ScanRow(t, curr, change, signal, IsDip(change))];
      }
      i := i + 1;
    }
    assert tickers[..i] == tickers;
  }

  /** Every row is the row of a scanned ticker with two or more closes. */
  lemma RowsAreScanned(tickers: seq<string>, history: string -> seq<Option<real>>,
                       news: string -> Option<seq<NewsResult>>)
    ensures forall r :: r in Rows(tickers, history, news) ==>
      r.ticker in tickers && |history(r.ticker)| >= 2 && r == RowOf(r.ticker, history(r.ticker), news(r.ticker))
  {
    var rows := Rows(tickers, history, news);
    var q := Scanned(tickers, history);
    forall r | r in rows
      ensures r.ticker in tickers && |history(r.ticker)| >= 2 && r == RowOf(r.ticker, history(r.ticker), news(r.ticker))
    {
      var i :| 0 <= i < |rows| && rows[i] == r;
      assert q[i] in q;
    }
  }

  /** Every ticker with two or more closes gets its row. */
  lemma ScannedTickersHaveRows(tickers: seq<string>, history: string -> seq<Option<real>>,
                               news: string -> Option<seq<NewsResult>>)
    ensures forall t :: t in tickers && |history(t)| >= 2 ==> RowOf(t, history(t), news(t)) in Rows(tickers, history, news)
  {
    var rows := Rows(tickers, history, news);
    var q := Scanned(tickers, history);
    forall t | t in tickers && |history(t)| >= 2 ensures RowOf(t, history(t), news(t)) in rows {
      assert t in q;
      var i :| 0 <= i < |q| && q[i] == t;
      assert rows[i] == RowOf(t, history(t), news(t));
    }
  }
}
