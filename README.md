# Stock dashboards: the deterministic core

This project models the decision logic of five Streamlit stock dashboards in Dafny and proves properties about it:

- **Guru tracker** (`app.py`) cleans a guru's scraped holdings table. It then chooses between that live table and built-in fallback data, and builds a ticker → {Price, Change_Pct} map from a price download.
- **US Moat Hunter** (`us_app.py`) scores a stock with fixed threshold rules and counts down to the next FOMC meeting. It also keeps a per-session watch list.
- **Taiwan Moat Hunter** (`tw_app.py`) does the same with its own rule table and the Graham safety margin. Its watch list stores all-digit codes with a `.TW` suffix and shows them without it.
- **Research agent** (`research_agent.py`) selects key news headlines and cuts the company description to 500 characters.
- **Contrarian scanner** (`market_scanner.py`) turns headline sentiment into a buy/risk/neutral signal. It also picks the chart's exchange, flags a dip and builds the per-ticker scan row.

Everything the scripts fetch is a parameter: web pages, price downloads, news, sentiment polarities, the clock.

Modules:

- `Text`: string helpers with Python's meaning (`upper`, `strip`, `in`, `join`, `replace`), with case mapping and the digit test limited to ASCII.
- `Numbers`: a float as finite, NaN or infinite, with the percentage change.
- `Scoring`: the shared shape of the two scorers. A rule table is evaluated in order; each rule that fires adds its points and its tag. The score is then clamped.
- `Watchlists`: the watch list class with its no-duplicates invariant.
- `GuruTracker`, `MoatHunterUs`, `MoatHunterTw`, `ResearchAgent`, `MarketScanner`: one module per script.

Each scorer is a method that runs the source's `if` chain one rule at a time. It is proved equal to the rule-table specification, and the score bounds and tag properties are proved about that table. The floor of the Taiwan score is 25 (50 − 10 − 5 − 10), and a stock reaching it is exhibited.

## Model

| member | source | states |
|---|---|---|
| Text.ReplaceChar | app.py:96 | every character equal to `a` becomes `b`, every other one is kept, the length is unchanged |
| Text.RemoveAll | tw_app.py:123 | `str.replace(pat, "")` never lengthens the text and leaves text without `pat` unchanged |
| Text.RemoveAllShortens | tw_app.py:123 | where `pat` occurs, deleting it shortens the text by at least the length of `pat` |
| Text.RemoveAllFirst | tw_app.py:123 | the first occurrence of `pat` is deleted: the text before it is kept and the deletion goes on after it |
| Text.RemoveAllChar | app.py:94 | deleting one character removes every copy of it and keeps the count of every other character |
| Text.RemoveAllCharAppend | app.py:94 | deleting one character works part by part over a concatenation, so the order of what remains is kept |
| Text.Upper | us_app.py:44 | upper-casing keeps the length and maps each character on its own |
| Text.Strip | us_app.py:44 | the stripped text is a slice of the input with only white space cut off at both ends; it has no white space at either end and is empty exactly when the input is all white space |
| Text.Lower | research_agent.py:65 | lower-casing keeps the length and maps each character on its own |
| Text.LowerTwice | research_agent.py:65 | lower-casing lower-cased text changes nothing |
| Text.ContainsAt | research_agent.py:65 | `sub in s` holds when `sub` occurs at some position of `s` |
| Text.ContainsIndex | research_agent.py:65 | when `sub in s` holds, an occurrence of `sub` exists at some position |
| Text.IsDigits | tw_app.py:32 | an all-digit code is non-empty, has no white space and no letter that upper-casing would change |
| Text.Join | us_app.py:109 | `" ".join(parts)` starts with the first part and contains every part |
| Numbers.FromCell | app.py:146 | a missing cell reads as NaN, a present one as its value |
| Numbers.PctChange | app.py:137 | `((cur - prev) / prev) * 100` is finite exactly when both are finite and prev ≠ 0; a non-zero finite value over 0 gives +infinity when it is positive and −infinity when it is negative; 0 over 0 and any NaN give NaN |
| Scoring.Step | us_app.py:97 | one `if` of a scorer adds the rule's points and appends its tag exactly when the rule fires |
| Scoring.RunIsTotal | us_app.py:95-107 | testing the rules in order ends at the start score plus the points of the firing rules, with their tags appended in rule order |
| Scoring.RunFromBase | tw_app.py:82-93 | from 50 points and no tags, the scorer ends at 50 plus the table's total, with the table's tags |
| Scoring.Clamp | us_app.py:109 | `max(0, min(100, x))` lies in 0..100 and equals x inside that range |
| Scoring.Score | us_app.py:109 | the score lies in 0..100 and equals 50 plus the firing points whenever that lies in 0..100 |
| Scoring.Reason | us_app.py:109 | the reason is empty when no rule fires and names every tag of a firing rule |
| Scoring.Fired | tw_app.py:82-93 | the firing rules, in table order: only rules of the table that fire, and all of them |
| Scoring.TotalOfFired | tw_app.py:82-94 | the unclamped score is 50 plus the deltas of exactly the rules that fired |
| Scoring.TagsOfFired | tw_app.py:82-94 | the tags are those of the fired rules in rule order: one tag per applied delta |
| Scoring.TotalAtLeastFloor | tw_app.py:82-94 | no table deducts more than the sum of its negative deltas |
| Scoring.TagAbsent | us_app.py:95-107 | a tag no rule carries never appears in the reason |
| Scoring.AscendingRanks | tw_app.py:83-93 | in a table with ascending tags, every later tag ranks above the first |
| Scoring.TagShownIffFired | tw_app.py:83-93 | in such a table the first rule's tag appears exactly when that rule fires |
| Scoring.TagSkip | tw_app.py:83-93 | a tag other than the first rule's appears exactly when it appears for the rest of the table |
| Watchlists.IndexOf | us_app.py:49 | `list.remove` deletes the first occurrence: the index holds the value and no earlier entry does |
| Watchlists.Without | us_app.py:49 | deleting position k keeps the entries before it and shifts those after it down by one |
| Watchlists.WithoutKeepsOthers | us_app.py:49 | deleting an entry keeps the list duplicate-free, removes that code and keeps every other code |
| Watchlists.Watchlist.constructor | us_app.py:33 | a session list starts with the given duplicate-free codes |
| Watchlists.Watchlist.Choices | us_app.py:48 | the remove box offers the placeholder "(選)" followed by the entries |
| Watchlists.Watchlist.Add | us_app.py:46 | the code is appended exactly when it is not already listed; the list stays duplicate-free |
| Watchlists.Watchlist.Remove | us_app.py:48-49 | the placeholder leaves the list as it is; another choice deletes its first occurrence, keeps the others in order and shrinks the list by one |
| Watchlists.Normalize | tw_app.py:31 | `.upper().strip()` gives the slice of the upper-cased input with only white space cut off at both ends: empty exactly for all-white-space input, with no lower-case letter and no white space at either end |
| Watchlists.UpperKeepsSpace | us_app.py:44 | the white space cut off the upper-cased text is the white space of the typed text |
| Watchlists.NoLowerInPiece | us_app.py:44 | a piece of upper-cased text has no lower-case letter |
| Watchlists.NormalizeStable | us_app.py:44 | normalising an already normalised code changes nothing |
| MoatHunterUs.UsTrace | us_app.py:95-107 | the eight `if`s in sequence reach 50 plus the table's total, with the table's tags |
| MoatHunterUs.ScoreUsStock | us_app.py:94-109 | the score is the clamped total of the US rule table, and the reason is its firing tags joined by single spaces |
| MoatHunterUs.UsAscending | us_app.py:97-107 | each US tag belongs to exactly one rule |
| MoatHunterUs.UsScoreAtLeast45 | us_app.py:95-109 | the only deduction is −5, so the score is never below 45 |
| MoatHunterUs.MarginBonusExclusive | us_app.py:97-98 | +20 exactly above 50% margin, +10 exactly in (30, 50], never both |
| MoatHunterUs.PegRule | us_app.py:102-103 | +15 exactly for 0 < peg < 1.2, −5 exactly above 2.5, nothing for peg ≤ 0 |
| MoatHunterUs.FirstOnOrAfter | us_app.py:68-70 | the index found holds a date on or after today and every earlier date is before today; none is found only if all dates have passed |
| MoatHunterUs.DaysToMeeting | us_app.py:66-71 | `get_fomc` returns the gap, never negative, to the first listed date on or after today, or 0 when all have passed |
| MoatHunterUs.FirstIsFirst | us_app.py:68-70 | the loop's early return is at the first date on or after today |
| MoatHunterUs.FirstIsNearest | us_app.py:68-70 | on a sorted calendar the first date on or after today is the nearest such date |
| MoatHunterUs.FomcCountdownIsNearest | us_app.py:13-14 | the FOMC calendar is in date order, so the countdown goes to the nearest coming meeting; nothing is found only after 2026-06-17 |
| MoatHunterUs.NewWatchlist | us_app.py:33 | a session starts with NVDA and MSFT |
| MoatHunterUs.AddTicker | us_app.py:44-46 | the normalised code is appended unless it is empty or already listed |
| MoatHunterTw.TwTrace | tw_app.py:82-93 | the eleven `if`s in sequence reach 50 plus the table's total, with the table's tags |
| MoatHunterTw.ScoreIndustryStock | tw_app.py:81-94 | the score is the clamped total of the Taiwan rule table, and the reason is its firing tags joined by single spaces |
| MoatHunterTw.TwAscending | tw_app.py:83-93 | each Taiwan tag belongs to exactly one rule |
| MoatHunterTw.TwScoreAtLeast25 | tw_app.py:82-94 | the deductions are −10, −5 and −10, so the score is never below 25 |
| MoatHunterTw.TwFloorReached | tw_app.py:85-91 | a low margin, a weakening TWD and a high PE with nothing in favour score exactly 25 |
| MoatHunterTw.MarginChoice | tw_app.py:83-85 | one three-way choice: +20 above 50%, +15 in (30, 50], −10 below 10%, none in [10, 30] |
| MoatHunterTw.PeRule | tw_app.py:90-91 | +10 exactly for 0 < pe < 15, −10 exactly above 40, nothing otherwise |
| MoatHunterTw.CalcGraham | tw_app.py:54-59 | the Graham value is positive exactly when eps and bvps are both present and positive, then its square is 22.5·eps·bvps; otherwise it is 0 |
| MoatHunterTw.Safety | tw_app.py:120 | the safety margin is 0 when there is no Graham value, otherwise the percentage by which the Graham value exceeds the price (+infinity at price 0) |
| MoatHunterTw.NoGrahamNoBonus | tw_app.py:119-122 | without positive eps and bvps the stock never earns the undervaluation tag |
| MoatHunterTw.TwEntry | tw_app.py:31-33 | the stored code is the normalised input, with ".TW" appended exactly when that input is all digits; a stored code is never all digits |
| MoatHunterTw.DisplayCode | tw_app.py:123 | the shown code is never longer, and a code without ".TW" is shown unchanged |
| MoatHunterTw.DisplayRoundTrip | tw_app.py:123 | an all-digit code stored with ".TW" is shown as the digits |
| MoatHunterTw.EntryShowsAsTyped | tw_app.py:33 | adding all digits and then showing the stored code gives back the normalised input |
| MoatHunterTw.SuffixedIsNormal | tw_app.py:33 | digits with ".TW" appended are already normalised |
| MoatHunterTw.EntryIsStable | tw_app.py:33-34 | re-adding a stored code yields the same code, so no second suffix is appended |
| MoatHunterTw.NewWatchlist | tw_app.py:20 | a session starts with 2330.TW and 2317.TW |
| MoatHunterTw.AddCode | tw_app.py:31-34 | the stored form of the input is appended unless the input is empty or the code is already listed |
| GuruTracker.CleanTicker | app.py:96 | every '.' becomes '-', every other character is kept, the length is unchanged |
| GuruTracker.CleanTickerIdempotent | app.py:96 | cleaning a cleaned ticker changes nothing |
| GuruTracker.CleanPercent | app.py:93-95 | the share text handed to numeric conversion has no '%' and keeps every other character |
| GuruTracker.CleanRows | app.py:88-96 | one cleaned holding per row, in order, with the ticker cleaned and the share converted from the '%'-free text |
| GuruTracker.FirstWithSymbol | app.py:81-84 | the table chosen is the first one with a "Symbol" column |
| GuruTracker.FirstIsFound | app.py:81-84 | the loop's `break` happens at that first table |
| GuruTracker.ScrapeData | app.py:71-100 | `scrape_data` gives None for a non-200 answer, a page without a holdings table or one lacking a column; otherwise the cleaned rows, no ticker containing '.' |
| GuruTracker.GuruPortfolio | app.py:72 | a guru without a URL has no portfolio (`GURU_URLS[guru_name]` raises before the `try`); otherwise the source is live exactly when scraped rows exist and are non-empty, and the fallback rows are the built-in ones or none (app.py:110-117) |
| GuruTracker.SelectedGuruIsServed | app.py:60-65 | every guru the select box offers has a URL, so a portfolio is always returned, with the built-in rows as fallback |
| GuruTracker.PriceTickers | app.py:123-124 | exactly the non-empty text tickers are kept; an empty input gives none |
| GuruTracker.PriceTickersAppend | app.py:124 | the filter works part by part over a concatenation, so the original order is kept |
| GuruTracker.Repair | app.py:146-147 | a missing close reads as 0; a missing or zero open becomes the close, or 1 when the close is 0; the repaired open is never 0 |
| GuruTracker.MultiQuote | app.py:143-152 | in the multi-ticker path the price is the repaired last close and the change is the percentage change over the repaired open, both finite; with a usable open it is the plain percentage change; a ticker absent from the download gets {0, 0} |
| GuruTracker.SingleQuote | app.py:133-139 | the single-ticker entry has the last close as its price and the unrepaired percentage change over the last open, or {0, 0} when the download has no row |
| GuruTracker.MultiQuotes | app.py:141-152 | the multi-ticker map has exactly the listed tickers as keys, each with its entry |
| GuruTracker.GetLivePrices | app.py:122-153 | the loop fills the map of `get_live_prices`: empty for no tickers or a failed download, else one entry per usable ticker |
| GuruTracker.EveryTickerPriced | app.py:141-152 | with other than one usable ticker, every usable ticker has an entry, missing ones read {0, 0}, and no change is NaN or infinite |
| GuruTracker.RepairedChangeIsZero | app.py:146-148 | a missing or zero open with a non-zero close reports a change of exactly 0 |
| GuruTracker.MissingCloseReadsAsTotalLoss | app.py:146-148 | a missing close reports price 0 and a change of −100%, whatever the open |
| ResearchAgent.Describe | research_agent.py:46 | the description is at most 500 characters of the summary followed by "..." |
| ResearchAgent.KeyTitleIgnoresCase | research_agent.py:65 | the keyword test ignores case: a title is key exactly when its lower-case form is |
| ResearchAgent.Entries | research_agent.py:67 | each listed line is "- [date] title" of the item at the same position |
| ResearchAgent.KeyItems | research_agent.py:62-67 | exactly the items whose lower-cased title contains a keyword |
| ResearchAgent.Take | research_agent.py:75 | `xs[:n]` is the first min(n, len) elements |
| ResearchAgent.KeyNews | research_agent.py:54-77 | `get_key_news` never returns more than 10 entries |
| ResearchAgent.GetKeyNews | research_agent.py:54-77 | the two loops and the slice compute the key news: key entries capped at 10, else the first 5 items, else the error line |
| ResearchAgent.KeyItemsSnoc | research_agent.py:62-67 | scanning one more item adds it exactly when its title is key |
| ResearchAgent.KeyItemsInOrder | research_agent.py:62-67 | the key items are a subsequence of the feed: original order is kept |
| ResearchAgent.EntriesSnoc | research_agent.py:67 | appending an item appends its line |
| ResearchAgent.OnlyKeyHeadlines | research_agent.py:62-75 | when any title is key, the result is the first min(10, k) key entries, each of a key title |
| ResearchAgent.FallbackIsFirstFive | research_agent.py:70-73 | when no title is key, the result is the entries of the first min(5, n) items, in order |
| ResearchAgent.EntryShape | research_agent.py:67-73 | every entry is "- [" + date + "] " + title of some feed item |
| MarketScanner.TopicsOfMembers | market_scanner.py:39-43 | each keyword test adds its own tag and no other |
| MarketScanner.FlagInFront | market_scanner.py:39-43 | a test in front of a list without its tag keeps the list free of repeats |
| MarketScanner.FlagMember | market_scanner.py:39-43 | a passed test adds its tag and nothing else |
| MarketScanner.TopicsOfOnce | market_scanner.py:39-43 | no tag is added twice for one headline |
| MarketScanner.TopicsOnce | market_scanner.py:38-43 | per headline each tag appears at most once, exactly when its word occurs in the lower-cased title; "plunge" or "drop" gives a single 暴跌 |
| MarketScanner.Polarities | market_scanner.py:36 | the scores list holds each result's polarity in order |
| MarketScanner.TitleTopics | market_scanner.py:38-43 | the five keyword tests of one headline raise at most five tags |
| MarketScanner.TopicLists | market_scanner.py:38-43 | one tag list per headline, in order |
| MarketScanner.FlattenMembers | market_scanner.py:39-43 | a tag of the joined lists is a tag of one of them |
| MarketScanner.AllTopicsMembers | market_scanner.py:33-43 | a tag is collected exactly when some headline raises it |
| MarketScanner.SumBounds | market_scanner.py:45 | a sum of values in [lo, hi] lies in [n·lo, n·hi] |
| MarketScanner.MeanBounds | market_scanner.py:45 | the mean lies between the bounds of the values |
| MarketScanner.Classify | market_scanner.py:50-56 | exactly one signal: 恐慌買點 exactly below −0.05, 過熱風險 exactly above 0.05, 觀望中 exactly in between, both thresholds exclusive |
| MarketScanner.ReasonWords | market_scanner.py:46 | the reason holds exactly the labels of the collected tags, or only 市場波動 when there are none |
| MarketScanner.ReasonOfResults | market_scanner.py:33-46 | the words of the returned reason are exactly the labels of the tags one of the first 7 headlines raises, or only 市場波動 when they raise none |
| MarketScanner.Head | market_scanner.py:33 | `results[:7]` |
| MarketScanner.GetContrarianAi | market_scanner.py:18-59 | the loop over the first 7 results collects the polarities and tags of the specification: failed search → failure, no results → no news, else the classified mean with the tag set |
| MarketScanner.NoResults | market_scanner.py:26-27 | no results read ("無重大消息", 0); a failed search reads ("分析失敗", 0) |
| MarketScanner.OnlyFirstSeven | market_scanner.py:33 | results after the seventh change nothing |
| MarketScanner.ReadingOfResults | market_scanner.py:33-56 | a tag is in the reason exactly when one of the first 7 headlines raises it, and the signal is the classified mean |
| MarketScanner.ScoreInRange | market_scanner.py:45 | with polarities in [−1, 1], the returned score is too |
| MarketScanner.GetExchange | market_scanner.py:61-63 | NYSE exactly for VOO, V, NET and TSM; NASDAQ for every other symbol |
| MarketScanner.ChartSymbol | market_scanner.py:116 | the chart symbol splits at its only ':' back into the exchange name and the ticker |
| MarketScanner.DipMeansBelow985 | market_scanner.py:76-79 | for a positive previous close, the dip flag is set exactly when the close fell below 98.5% of it |
| MarketScanner.IsDip | market_scanner.py:79 | a finite change is a dip exactly below −1.5; NaN never is; an infinite change is one exactly when it is −infinity |
| MarketScanner.ScanTickerAsWritten | market_scanner.py:73-79 | as written, an empty history is skipped, a one-row history raises, and two or more closes give the row |
| MarketScanner.OneRowCrashes | market_scanner.py:73-75 | as written, a one-row history raises IndexError and ends the scan |
| MarketScanner.ScanTicker | market_scanner.py:73-79 | the guarded scan never raises and gives a row exactly for two or more closes |
| MarketScanner.ScanTickerFixesCrash | market_scanner.py:73-79 | the guarded scan agrees with the code as written wherever that does not raise, and the code as written raises exactly for one row |
| MarketScanner.Rows | market_scanner.py:69-90 | with the corrected guard (two or more closes), the rows are those of the scanned tickers, one per ticker, in ticker order |
| MarketScanner.Scanned | market_scanner.py:69-73 | with the corrected guard, a ticker is scanned exactly when it is listed and has two or more closes |
| MarketScanner.ScannedTickersHaveRows | market_scanner.py:69-90 | with the corrected guard, every listed ticker with two or more closes has its row |
| MarketScanner.GetMarketData | market_scanner.py:65-93 | with the corrected guard, the loop builds one row per ticker with two or more closes, in ticker order |
| MarketScanner.RowsAreScanned | market_scanner.py:69-90 | with the corrected guard, every row belongs to a listed ticker with two or more closes and carries that ticker's price, change, signal and dip flag |

## Left out

- Web scraping, HTML table parsing, yfinance downloads and `info` lookups, the GoogleNews search, TextBlob sentiment and the OpenAI calls (`ask_ai`, `ask_agent`) are foreign I/O. Their results are parameters: the HTML tables, the price frames, the news items with formatted dates, and the polarities.
- Streamlit UI and session wiring are not modelled. This covers widgets, `st.session_state` setup beyond the initial lists, `st.rerun`, caching, progress bars, charts, the TradingView HTML and cell styling.
- Floating-point formulas are not modelled: RSI rolling means, `get_us_macro`/`get_tw_macro` and their defaults, and the `f"{x:.2f}"` formatting. The `get_data` loops of the two Moat Hunters, which feed the scorers, are left out for the same reason.
- `get_stock_data` in the research agent is left out except for its description truncation; the other fields are formatting of `info` values.
- MoatHunterUs.ScoreUsStock: inputs are exact reals. A NaN input fails every comparison in the source, which is the same as a value that fires none of that input's rules.
- MoatHunterTw.ScoreIndustryStock: inputs are exact reals except the safety margin, which may be ±infinity or NaN. A NaN input behaves as in the US scorer.
- MoatHunterTw.CalcGraham: the square root is supplied by the caller as `root`, with the precondition that it is the exact root. Float rounding of `math.sqrt` is not modelled.
- Text.Upper: maps ASCII letters only and keeps the length. Python's `str.upper` also maps other alphabets and can lengthen text (`"ß".upper()` is `"SS"`).
- Text.Lower: maps ASCII letters only. Python's `str.lower` also maps other alphabets.
- Text.IsDigits: accepts ASCII digits only. Python's `str.isdigit` also accepts other Unicode digits.
- Watchlists.Normalize: inherits the ASCII-only upper-casing of Text.Upper; the white-space set is the one of Python's `str.strip`.
- MoatHunterTw.TwEntry: `isdigit` is modelled for ASCII digits only. Python also accepts other Unicode digits.
- ResearchAgent.IsKeyTitle: lower-casing covers ASCII letters only. MarketScanner.TitleTopics has the same limit.
- ResearchAgent.GetKeyNews: the feed is None when `stock.news` cannot be read, when a title cannot be read, or when the publish time of an item that is formatted cannot be read (a key item, or one of the first five when none is key). The source then returns the error line. A missing publish time on an item that is never formatted does not fail, and the model reads every item's date as given, so such a feed is modelled as readable.
- MarketScanner.GetContrarianAi: the reason is modelled as a set of tags. The source joins `set(keywords)` in an unspecified order. The mean is exact real division. Every search result is modelled with a title. In the source, a result without `'title'` raises `KeyError` at market_scanner.py:34, and the function then returns "分析失敗".
- GuruTracker.SingleQuote: the single-ticker download is modelled as that ticker's frame. The column layout yfinance gives a single ticker is not modelled.
- GuruTracker.ScrapeData: pandas' coercing numeric conversion is a parameter (`toNumeric`), and the symbol and name cells are taken as text.
- GuruTracker.GuruPortfolio: the `KeyError` that `GURU_URLS[guru_name]` raises for a guru without a URL is modelled as no portfolio (None); the exception itself and Streamlit's error page are not modelled.
- Numbers.PctChange: a finite quotient is the exact real quotient. Float rounding and overflow of a finite quotient to infinity are not modelled.
- The guru names, URLs and built-in holdings (`REAL_DATA_DB`) are literal data. They are a parameter of GuruTracker.GuruPortfolio.
- FOMC dates are day numbers since 1970-01-01. `datetime.now` is the `today` parameter.
- Watchlists.Watchlist.Remove: requires the choice to be one of the select box's options, the only values the box can produce.

## Findings

| source | as written | input that shows it | evidently intended | confidence | as-written member | corrected member |
|---|---|---|---|---|---|---|
| market_scanner.py:73-75 | checks `len(hist) > 0` but then reads `hist['Close'].iloc[-2]` | a ticker whose six-month history has a single row, such as a listing on its first trading day | compute the change only when there are at least two closes, and skip the ticker otherwise | not executed; high | MarketScanner.OneRowCrashes | MarketScanner.ScanTicker |
