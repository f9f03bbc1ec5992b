/**
 * The research agent's data step: the company description cut to 500
 * characters, and the selection of key news headlines handed to the
 * language model.  The news feed, the publish-time formatting and the
 * model call are not modelled; the feed is a parameter and each item
 * carries its date already formatted.
 */
module ResearchAgent {
  import opened Wrappers
  import Text

  /** The company description as shown: its first 500 characters followed by "...". */
  function Describe(summary: string): (d: string)
    ensures |summary| <= 500 ==> d == summary + "..."
    ensures |summary| > 500 ==> d == summary[..500] + "..."
    ensures |d| <= 503
  {
    (if |summary| <= 500 then summary else summary[..500]) + "..."
  }

  /** A news item: its headline and its publish date as "YYYY-MM-DD". */
  datatype NewsItem = NewsItem(title: string, date: string)

  /** The words that make a headline a key headline. */
  const Keywords: seq<string> :=
    ["contract", "deal", "partnership", "award", "supply", "lawsuit", "report", "earnings", "growth"]

  const MaxStories := 10
  const FallbackCount := 5

  /** The entry shown for failed news retrieval. */
  const NewsError := "無法取得新聞數據"

  /** A headline is key when its lower-cased text contains one of the keywords. */
  predicate IsKeyTitle(title: string)
  {
    exists k :: k in Keywords && Text.Contains(Text.Lower(title), k)
  }

  /** The keyword test ignores case: an upper-case title matches as its lower-case form does. */
  lemma KeyTitleIgnoresCase(title: string)
    ensures IsKeyTitle(Text.Lower(title)) <==> IsKeyTitle(title)
  {
    Text.LowerTwice(title);
  }

  /** The line listed for one item. */
  function Entry(n: NewsItem): string
  {
    "- [" + n.date + "] " + n.title
  }

  /** The lines of a list of items, in order. */
  function Entries(news: seq<NewsItem>): (r: seq<string>)
    ensures |r| == |news|
    ensures forall i :: 0 <= i < |news| ==> r[i] == Entry(news[i])
  {
    seq(|news|, i requires 0 <= i < |news| => Entry(news[i]))
  }

  /** The items with a key headline, in feed order. */
  function KeyItems(news: seq<NewsItem>): (r: seq<NewsItem>)
    ensures |r| <= |news|
    ensures forall n :: n in r <==> n in news && IsKeyTitle(n.title)
  {
    if news == [] then []
    else
      var rest := KeyItems(news[1..]);
      assert forall n :: n in news <==> n == news[0] || n in news[1..];
      if IsKeyTitle(news[0].title) then [news[0]] + rest else rest
  }

  /** `xs[:n]` */
  function Take<T>(xs: seq<T>, n: nat): (r: seq<T>)
    ensures |r| == if |xs| <= n then |xs| else n
    ensures r == xs[..|r|]
  {
    if |xs| <= n then xs else xs[..n]
  }

  /**
   * What `get_key_news` returns: the entries of the key items, at most 10
   * of them; when no headline is key, the entries of the first 5 items; and
   * a single error line when the feed cannot be read.
   */
  function KeyNews(feed: Option<seq<NewsItem>>): (r: seq<string>)
    ensures |r| <= MaxStories
  {
    match feed
    case None => [NewsError]
    case Some(news) =>
      var hits := Entries(KeyItems(news));
      if hits != [] then Take(hits, MaxStories) else Entries(Take(news, FallbackCount))
  }

  /** `get_key_news`: one pass collecting the key headlines, a second pass for the fallback, then the cap. */
  method GetKeyNews(feed: Option<seq<NewsItem>>) returns (stories: seq<string>)
    ensures stories == KeyNews(feed)
  {
    if feed.None? {
      return [NewsError];
    }
    var news := feed.value;
    var keyStories: seq<string> := [];
    var i := 0;
    while i < |news|
      invariant 0 <= i <= |news|
      invariant keyStories == Entries(KeyItems(news[..i]))
    {
      KeyItemsSnoc(news[..i], news[i]);
      assert news[..i + 1] == news[..i] + [news[i]];
      if IsKeyTitle(news[i].title) {
        EntriesSnoc(KeyItems(news[..i]), news[i]);
        keyStories := keyStories + [Entry(news[i])];
      }
      i := i + 1;
    }
    assert news[..i] == news;
    if keyStories == [] {
      var fallback := Take(news, FallbackCount);
      var j := 0;
      while j < |fallback|
        invariant 0 <= j <= |fallback|
        invariant keyStories == Entries(fallback[..j])
      {
        EntriesSnoc(fallback[..j], fallback[j]);
        assert fallback[..j + 1] == fallback[..j] + [fallback[j]];
        keyStories := keyStories + [Entry(fallback[j])];
        j := j + 1;
      }
      assert fallback[..j] == fallback;
    }
    stories := Take(keyStories, MaxStories);
  }

  /** Scanning one more item adds it to the key items exactly when its headline is key. */
  lemma {:induction false} KeyItemsSnoc(news: seq<NewsItem>, n: NewsItem)
    ensures KeyItems(news + [n]) == KeyItems(news) + (if IsKeyTitle(n.title) then [n] else [])
  {
    if news == [] {
      assert [] + [n] == [n];
      assert [n][1..] == [];
    } else {
      assert (news + [n])[1..] == news[1..] + [n];
      KeyItemsSnoc(news[1..], n);
    }
  }

  /** `a` can be had from `b` by deleting elements: its elements occur in `b` in the same order. */
  predicate Subsequence<T(==)>(a: seq<T>, b: seq<T>)
    decreases |b|
  {
    a == [] || (b != [] && ((a[0] == b[0] && Subsequence(a[1..], b[1..])) || Subsequence(a, b[1..])))
  }

  /** The key items keep feed order. */
  lemma {:induction false} KeyItemsInOrder(news: seq<NewsItem>)
    ensures Subsequence(KeyItems(news), news)
  {
    if news != [] {
      KeyItemsInOrder(news[1..]);
      if IsKeyTitle(news[0].title) {
        assert KeyItems(news)[1..] == KeyItems(news[1..]);
      }
    }
  }

  /** The lines of one more item: one more line. */
  lemma EntriesSnoc(news: seq<NewsItem>, n: NewsItem)
    ensures Entries(news + [n]) == Entries(news) + [Entry(n)]
  {
  }

  /**
   * When some headline is key, the result is the first (at most 10) key
   * items' entries, so it lists only key headlines, in feed order.
   */
  lemma OnlyKeyHeadlines(news: seq<NewsItem>)
    requires exists n :: n in news && IsKeyTitle(n.title)
    ensures var r := KeyNews(Some(news));
      && r == Entries(KeyItems(news))[..|r|]
      && |r| == (if |KeyItems(news)| <= MaxStories then |KeyItems(news)| else MaxStories)
      && forall i :: 0 <= i < |r| ==> r[i] == Entry(KeyItems(news)[i]) && IsKeyTitle(KeyItems(news)[i].title)
  {
    var n :| n in news && IsKeyTitle(n.title);
    assert n in KeyItems(news);
    var k := KeyItems(news);
    assert forall i :: 0 <= i < |k| ==> k[i] in k;
  }

  /** When no headline is key, the result is the entries of the first min(5, n) items, in order. */
  lemma FallbackIsFirstFive(news: seq<NewsItem>)
    requires forall n :: n in news ==> !IsKeyTitle(n.title)
    ensures var r := KeyNews(Some(news));
      && |r| == (if |news| <= FallbackCount then |news| else FallbackCount)
      && forall i :: 0 <= i < |r| ==> r[i] == Entry(news[i])
  {
    if KeyItems(news) != [] {
      assert KeyItems(news)[0] in KeyItems(news);
    }
  }

  /** Every listed entry is "- [date] title" for some item of the feed. */
  lemma EntryShape(news: seq<NewsItem>)
    ensures forall e :: e in KeyNews(Some(news)) ==> exists n :: n in news && e == "- [" + n.date + "] " + n.title
  {
    var r := KeyNews(Some(news));
    var k := KeyItems(news);
    forall e | e in r ensures exists n :: n in news && e == "- [" + n.date + "] " + n.title {
      var i :| 0 <= i < |r| && r[i] == e;
      if Entries(k) != [] {
        assert k[i] in k;
        assert e == Entry(k[i]);
      } else {
        assert e == Entry(news[i]);
      }
    }
  }
}
