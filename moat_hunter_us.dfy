/**
 * The U.S. "Moat Hunter" dashboard: the heuristic score of a stock, the
 * countdown to the next FOMC meeting, and the user's watch list.
 */
module MoatHunterUs {
  import opened Wrappers
  import opened Scoring
  import opened Watchlists
  import Text

  /** The watch list a new session starts with. */
  const InitialWatchlist: seq<string> := ["NVDA", "MSFT"]

  /** FOMC meeting dates as day numbers counted from 1970-01-01: 2026-03-18, 2026-04-29 and 2026-06-17. */
  const FomcCalendar: seq<int> := [20530, 20572, 20621]

  /**
   * The rules of the U.S. scorer in the order the source checks them.  `margin`
   * and `roe` are percentages, `change` the last day's change in percent,
   * `vix` the volatility index.
   */
  function UsRules(rsi: real, peg: real, margin: real, roe: real, change: real, vix: real): Table
  {
    Cons(Rule(margin > 50.0, 20, Moat),
    Cons(Rule(!(margin > 50.0) && margin > 30.0, 10, HighMargin),
    Cons(Rule(roe > 20.0, 15, TopRoe),
    Cons(Rule(peg > 0.0 && peg < 1.2, 15, CheapPeg),
    Cons(Rule(!(peg > 0.0 && peg < 1.2) && peg > 2.5, -5, DearPeg),
    Cons(Rule(vix > 30.0, 15, Panic),
    Cons(Rule(rsi < 30.0, 15, Oversold),
    Cons(Rule(change < -2.0, 10, Pullback), Nil))))))))
  }

  /** States that each apply the next rule to the one before end at the table's points and tags. */
  lemma UsTrace(rsi: real, peg: real, margin: real, roe: real, change: real, vix: real,
                p1: (int, seq<Tag>), p2: (int, seq<Tag>), p3: (int, seq<Tag>), p4: (int, seq<Tag>), p5: (int, seq<Tag>), p6: (int, seq<Tag>), p7: (int, seq<Tag>),
                s: int, det: seq<Tag>)
    requires p1 == Apply(Rule(margin > 50.0, 20, Moat), Base, [])
    requires p2 == Apply(Rule(!(margin > 50.0) && margin > 30.0, 10, HighMargin), p1.0, p1.1)
    requires p3 == Apply(Rule(roe > 20.0, 15, TopRoe), p2.0, p2.1)
    requires p4 == Apply(Rule(peg > 0.0 && peg < 1.2, 15, CheapPeg), p3.0, p3.1)
    requires p5 == Apply(Rule(!(peg > 0.0 && peg < 1.2) && peg > 2.5, -5, DearPeg), p4.0, p4.1)
    requires p6 == Apply(Rule(vix > 30.0, 15, Panic), p5.0, p5.1)
    requires p7 == Apply(Rule(rsi < 30.0, 15, Oversold), p6.0, p6.1)
    requires (s, det) == Apply(Rule(change < -2.0, 10, Pullback), p7.0, p7.1)
    ensures s == Base + Total(UsRules(rsi, peg, margin, roe, change, vix))
    ensures det == Tags(UsRules(rsi, peg, margin, roe, change, vix))
  {
    var t0 := UsRules(rsi, peg, margin, roe, change, vix);
    RunFromBase(t0);
    var t1 := t0.tail;
    assert Run(t0, Base, []) == Run(t1, p1.0, p1.1);
    var t2 := t1.tail;
    assert Run(t1, p1.0, p1.1) == Run(t2, p2.0, p2.1);
    var t3 := t2.tail;
    assert Run(t2, p2.0, p2.1) == Run(t3, p3.0, p3.1);
    var t4 := t3.tail;
    assert Run(t3, p3.0, p3.1) == Run(t4, p4.0, p4.1);
    var t5 := t4.tail;
    assert Run(t4, p4.0, p4.1) == Run(t5, p5.0, p5.1);
    var t6 := t5.tail;
    assert Run(t5, p5.0, p5.1) == Run(t6, p6.0, p6.1);
    var t7 := t6.tail;
    assert Run(t6, p6.0, p6.1) == Run(t7, p7.0, p7.1);
    var t8 := t7.tail;
    assert Run(t7, p7.0, p7.1) == Run(t8, s, det);
  }

  /**
   * `score_us_stock`: 50 points, plus or minus the points of each rule that
   * fires, clamped to 0..100; the reason lists the tags of those rules
   * joined by spaces.
   */
  method ScoreUsStock(rsi: real, peg: real, margin: real, roe: real, change: real, vix: real)
    returns (score: int, reason: string)
    ensures score == Score(UsRules(rsi, peg, margin, roe, change, vix))
    ensures reason == Reason(UsRules(rsi, peg, margin, roe, change, vix))
  {
    var s := Base;
    var det: seq<Tag> := [];
    s, det := Step(Rule(margin > 50.0, 20, Moat), s, det);
    ghost var p1 := (s, det);
    s, det := Step(Rule(!(margin > 50.0) && margin > 30.0, 10, HighMargin), s, det);
    ghost var p2 := (s, det);
    s, det := Step(Rule(roe > 20.0, 15, TopRoe), s, det);
    ghost var p3 := (s, det);
    s, det := Step(Rule(peg > 0.0 && peg < 1.2, 15, CheapPeg), s, det);
    ghost var p4 := (s, det);
    s, det := Step(Rule(!(peg > 0.0 && peg < 1.2) && peg > 2.5, -5, DearPeg), s, det);
    ghost var p5 := (s, det);
    s, det := Step(Rule(vix > 30.0, 15, Panic), s, det);
    ghost var p6 := (s, det);
    s, det := Step(Rule(rsi < 30.0, 15, Oversold), s, det);
    ghost var p7 := (s, det);
    s, det := Step(Rule(change < -2.0, 10, Pullback), s, det);
    UsTrace(rsi, peg, margin, roe, change, vix, p1, p2, p3, p4, p5, p6, p7, s, det);
    score := Clamp(s);
    reason := Text.Join(Labels(det), " ");
  }

  /** The tags of the U.S. rules come in ascending order, so each tag belongs to exactly one rule. */
  lemma UsAscending(rsi: real, peg: real, margin: real, roe: real, change: real, vix: real)
    ensures Ascending(UsRules(rsi, peg, margin, roe, change, vix))
  {
    var t0 := UsRules(rsi, peg, margin, roe, change, vix);
    var t1 := t0.tail;
    var t2 := t1.tail;
    var t3 := t2.tail;
    var t4 := t3.tail;
    var t5 := t4.tail;
    var t6 := t5.tail;
    var t7 := t6.tail;
    var t8 := t7.tail;
    assert Ascending(t8);
    assert Ascending(t7);
    assert Ascending(t6);
    assert Ascending(t5);
    assert Ascending(t4);
    assert Ascending(t3);
    assert Ascending(t2);
    assert Ascending(t1);
    assert Ascending(t0);
  }

  /** The only deduction of the U.S. rules is 5 points, so no stock scores below 45. */
  lemma UsScoreAtLeast45(rsi: real, peg: real, margin: real, roe: real, change: real, vix: real)
    ensures Total(UsRules(rsi, peg, margin, roe, change, vix)) >= -5
    ensures Score(UsRules(rsi, peg, margin, roe, change, vix)) >= 45
  {
    var t0 := UsRules(rsi, peg, margin, roe, change, vix);
    TotalAtLeastFloor(t0);
    var t1 := t0.tail;
    var t2 := t1.tail;
    var t3 := t2.tail;
    var t4 := t3.tail;
    var t5 := t4.tail;
    var t6 := t5.tail;
    var t7 := t6.tail;
    var t8 := t7.tail;
    assert Floor(t8) == 0;
    assert Floor(t7) == Floor(t8);
    assert Floor(t6) == Floor(t7);
    assert Floor(t5) == Floor(t6);
    assert Floor(t4) == -5 + Floor(t5);
    assert Floor(t3) == Floor(t4);
    assert Floor(t2) == Floor(t3);
    assert Floor(t1) == Floor(t2);
    assert Floor(t0) == Floor(t1);
  }

  /** The margin bonuses exclude each other: +20 above 50%, else +10 above 30%, else none. */
  lemma MarginBonusExclusive(rsi: real, peg: real, margin: real, roe: real, change: real, vix: real)
    ensures var tags := Tags(UsRules(rsi, peg, margin, roe, change, vix));
      && (Moat in tags <==> margin > 50.0)
      && (HighMargin in tags <==> 30.0 < margin <= 50.0)
      && !(Moat in tags && HighMargin in tags)
  {
    var t0 := UsRules(rsi, peg, margin, roe, change, vix);
    UsAscending(rsi, peg, margin, roe, change, vix);
    TagShownIffFired(t0);
    TagSkip(t0, HighMargin);
    TagShownIffFired(t0.tail);
  }

  /** PEG: +15 only for 0 < peg < 1.2, -5 only above 2.5, nothing for a PEG of zero or below. */
  lemma PegRule(rsi: real, peg: real, margin: real, roe: real, change: real, vix: real)
    ensures var tags := Tags(UsRules(rsi, peg, margin, roe, change, vix));
      && (CheapPeg in tags <==> 0.0 < peg < 1.2)
      && (DearPeg in tags <==> peg > 2.5)
      && (peg <= 0.0 ==> CheapPeg !in tags && DearPeg !in tags)
  {
    var t0 := UsRules(rsi, peg, margin, roe, change, vix);
    UsAscending(rsi, peg, margin, roe, change, vix);
    TagSkip(t0, CheapPeg);
    TagSkip(t0, DearPeg);
    var t1 := t0.tail;
    TagSkip(t1, CheapPeg);
    TagSkip(t1, DearPeg);
    var t2 := t1.tail;
    TagSkip(t2, CheapPeg);
    TagSkip(t2, DearPeg);
    var t3 := t2.tail;
    TagShownIffFired(t3);
    TagSkip(t3, DearPeg);
    TagShownIffFired(t3.tail);
  }

  /** Index of the first date on or after `today`, if any. */
  function FirstOnOrAfter(calendar: seq<int>, today: int): (r: Option<nat>)
    ensures r.Some? ==> r.value < |calendar| && calendar[r.value] >= today
    ensures r.Some? ==> forall i :: 0 <= i < r.value ==> calendar[i] < today
    ensures r.None? ==> forall i :: 0 <= i < |calendar| ==> calendar[i] < today
  {
    if calendar == [] then None
    else if calendar[0] >= today then Some(0)
    else match FirstOnOrAfter(calendar[1..], today)
      case None => None
      case Some(k) => Some(k + 1)
  }

  /**
   * `get_fomc`: days from `today` to the first listed meeting on or after
   * it, or 0 when every listed meeting has passed.
   */
  method DaysToMeeting(calendar: seq<int>, today: int) returns (days: int)
    ensures days >= 0
    ensures match FirstOnOrAfter(calendar, today)
      case Some(k) => days == calendar[k] - today
      case None => days == 0
  {
    var i := 0;
    while i < |calendar|
      invariant 0 <= i <= |calendar|
      invariant forall j :: 0 <= j < i ==> calendar[j] < today
    {
      if calendar[i] >= today {
        FirstIsFirst(calendar, today, i);
        return calendar[i] - today;
      }
      i := i + 1;
    }
    return 0;
  }

  lemma FirstIsFirst(calendar: seq<int>, today: int, i: nat)
    requires i < |calendar| && calendar[i] >= today
    requires forall j :: 0 <= j < i ==> calendar[j] < today
    ensures FirstOnOrAfter(calendar, today) == Some(i)
  {
  }

  predicate Sorted(calendar: seq<int>)
  {
    forall i, j :: 0 <= i < j < |calendar| ==> calendar[i] <= calendar[j]
  }

  /** On a calendar in date order the first meeting on or after today is also the nearest. */
  lemma FirstIsNearest(calendar: seq<int>, today: int)
    requires Sorted(calendar)
    ensures match FirstOnOrAfter(calendar, today)
      case Some(k) => forall j :: 0 <= j < |calendar| && calendar[j] >= today ==> calendar[k] <= calendar[j]
      case None => true
  {
  }

  /** The FOMC calendar is in date order, so `get_fomc` counts down to the nearest coming meeting. */
  lemma FomcCountdownIsNearest(today: int)
    ensures match FirstOnOrAfter(FomcCalendar, today)
      case Some(k) => forall j :: 0 <= j < |FomcCalendar| && FomcCalendar[j] >= today ==> FomcCalendar[k] <= FomcCalendar[j]
      case None => today > 20621
  {
    FirstIsNearest(FomcCalendar, today);
    if FirstOnOrAfter(FomcCalendar, today).None? {
      assert FomcCalendar[2] < today;
    }
  }

  /** A new session's watch list. */
  method NewWatchlist() returns (w: Watchlist)
    ensures fresh(w) && w.Valid() && w.entries == InitialWatchlist
  {
    w := new Watchlist(InitialWatchlist);
  }

  /** The "add" button: the normalised code is appended unless it is empty or already listed. */
  method AddTicker(w: Watchlist, raw: string)
    requires w.Valid()
    modifies w
    ensures w.Valid()
    ensures var code := Normalize(raw);
      w.entries == if code == [] || code in old(w.entries) then old(w.entries) else old(w.entries) + [code]
  {
    var code := Normalize(raw);
    if code != [] {
      w.Add(code);
    }
  }
}
