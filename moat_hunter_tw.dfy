/**
 * The Taiwan "Moat Hunter" dashboard: the industry score of a stock, the
 * Graham value and safety margin it is fed, and the watch list, whose
 * all-digit codes are stored with the ".TW" suffix and shown without it.
 */
module MoatHunterTw {
  import opened Wrappers
  import opened Numbers
  import opened Scoring
  import opened Watchlists
  import Text

  /** The watch list a new session starts with. */
  const InitialWatchlist: seq<string> := ["2330.TW", "2317.TW"]

  const Suffix := ".TW"

  /** The market figures the scorer reads: USD/TWD, its change in percent, and the SOX index change in percent. */
  datatype Macro = Macro(twd: real, twdChg: real, sox: real)

  /**
   * The rules of the industry scorer in the order the source checks them.  `safety`
   * is the Graham safety margin in percent, which may be an infinity or NaN.
   */
  function TwRules(rsi: real, pe: real, margin: real, roe: real, change: real, safety: Num, macro: Macro): Table
  {
    Cons(Rule(margin > 50.0, 20, Moat),
    Cons(Rule(!(margin > 50.0) && margin > 30.0, 15, HighMargin),
    Cons(Rule(!(margin > 50.0) && !(margin > 30.0) && margin < 10.0, -10, LowMargin),
    Cons(Rule(roe > 20.0, 15, TopRoe),
    Cons(Rule(macro.twdChg > 0.2, -5, WeakTwd),
    Cons(Rule(macro.sox > 1.5, 10, SoxRally),
    Cons(Rule(Above(safety, 10.0), 10, Undervalued),
    Cons(Rule(pe > 0.0 && pe < 15.0, 10, FairPe),
    Cons(Rule(!(pe > 0.0 && pe < 15.0) && pe > 40.0, -10, HotPe),
    Cons(Rule(rsi < 30.0, 15, Oversold),
    Cons(Rule(change < -2.5, 10, Plunge), Nil)))))))))))
  }

  /** States that each apply the next rule to the one before end at the table's points and tags. */
  lemma TwTrace(rsi: real, pe: real, margin: real, roe: real, change: real, safety: Num, macro: Macro,
                p1: (int, seq<Tag>), p2: (int, seq<Tag>), p3: (int, seq<Tag>), p4: (int, seq<Tag>), p5: (int, seq<Tag>), p6: (int, seq<Tag>), p7: (int, seq<Tag>), p8: (int, seq<Tag>), p9: (int, seq<Tag>), p10: (int, seq<Tag>),
                s: int, det: seq<Tag>)
    requires p1 == Apply(Rule(margin > 50.0, 20, Moat), Base, [])
    requires p2 == Apply(Rule(!(margin > 50.0) && margin > 30.0, 15, HighMargin), p1.0, p1.1)
    requires p3 == Apply(Rule(!(margin > 50.0) && !(margin > 30.0) && margin < 10.0, -10, LowMargin), p2.0, p2.1)
    requires p4 == Apply(Rule(roe > 20.0, 15, TopRoe), p3.0, p3.1)
    requires p5 == Apply(Rule(macro.twdChg > 0.2, -5, WeakTwd), p4.0, p4.1)
    requires p6 == Apply(Rule(macro.sox > 1.5, 10, SoxRally), p5.0, p5.1)
    requires p7 == Apply(Rule(Above(safety, 10.0), 10, Undervalued), p6.0, p6.1)
    requires p8 == Apply(Rule(pe > 0.0 && pe < 15.0, 10, FairPe), p7.0, p7.1)
    requires p9 == Apply(Rule(!(pe > 0.0 && pe < 15.0) && pe > 40.0, -10, HotPe), p8.0, p8.1)
    requires p10 == Apply(Rule(rsi < 30.0, 15, Oversold), p9.0, p9.1)
    requires (s, det) == Apply(Rule(change < -2.5, 10, Plunge), p10.0, p10.1)
    ensures s == Base + Total(TwRules(rsi, pe, margin, roe, change, safety, macro))
    ensures det == Tags(TwRules(rsi, pe, margin, roe, change, safety, macro))
  {
    var t0 := TwRules(rsi, pe, margin, roe, change, safety, macro);
    RunFromBase(t0);
    var t1 := t0.tail;
    assert Run(t0, Base, []) == Run(t1, p1.0, p1.1);
    var t2 := t1.tail;
    assert Run(t1, p1.0, p1.1) == Run(t2, p2.0, p2.1);
    var t3 := t2.tail;
    assert Run(t2, p2.0, p2.1) == Run(t3, p3.0, p3.1);
    var t4 := t3.tail;
    assert Run(t3, p3.0, p3.1) == Run(t4, p4.0, p4.1);
    var t5 := t4.tail;
    assert Run(t4, p4.0, p4.1) == Run(t5, p5.0, p5.1);
    var t6 := t5.tail;
    assert Run(t5, p5.0, p5.1) == Run(t6, p6.0, p6.1);
    var t7 := t6.tail;
    assert Run(t6, p6.0, p6.1) == Run(t7, p7.0, p7.1);
    var t8 := t7.tail;
    assert Run(t7, p7.0, p7.1) == Run(t8, p8.0, p8.1);
    var t9 := t8.tail;
    assert Run(t8, p8.0, p8.1) == Run(t9, p9.0, p9.1);
    var t10 := t9.tail;
    assert Run(t9, p9.0, p9.1) == Run(t10, p10.0, p10.1);
    var t11 := t10.tail;
    assert Run(t10, p10.0, p10.1) == Run(t11, s, det);
  }

  /**
   * `score_industry_stock`: 50 points, plus or minus the points of each rule
   * that fires, clamped to 0..100; the reason lists the tags of those rules
   * joined by spaces.
   */
  method ScoreIndustryStock(rsi: real, pe: real, margin: real, roe: real, change: real, safety: Num, macro: Macro)
    returns (score: int, reason: string)
    ensures score == Score(TwRules(rsi, pe, margin, roe, change, safety, macro))
    ensures reason == Reason(TwRules(rsi, pe, margin, roe, change, safety, macro))
  {
    var s := Base;
    var det: seq<Tag> := [];
    s, det := Step(Rule(margin > 50.0, 20, Moat), s, det);
    ghost var p1 := (s, det);
    s, det := Step(Rule(!(margin > 50.0) && margin > 30.0, 15, HighMargin), s, det);
    ghost var p2 := (s, det);
    s, det := Step(Rule(!(margin > 50.0) && !(margin > 30.0) && margin < 10.0, -10, LowMargin), s, det);
    ghost var p3 := (s, det);
    s, det := Step(Rule(roe > 20.0, 15, TopRoe), s, det);
    ghost var p4 := (s, det);
    s, det := Step(Rule(macro.twdChg > 0.2, -5, WeakTwd), s, det);
    ghost var p5 := (s, det);
    s, det := Step(Rule(macro.sox > 1.5, 10, SoxRally), s, det);
    ghost var p6 := (s, det);
    s, det := Step(Rule(Above(safety, 10.0), 10, Undervalued), s, det);
    ghost var p7 := (s, det);
    s, det := Step(Rule(pe > 0.0 && pe < 15.0, 10, FairPe), s, det);
    ghost var p8 := (s, det);
    s, det := Step(Rule(!(pe > 0.0 && pe < 15.0) && pe > 40.0, -10, HotPe), s, det);
    ghost var p9 := (s, det);
    s, det := Step(Rule(rsi < 30.0, 15, Oversold), s, det);
    ghost var p10 := (s, det);
    s, det := Step(Rule(change < -2.5, 10, Plunge), s, det);
    TwTrace(rsi, pe, margin, roe, change, safety, macro,
            p1, p2, p3, p4, p5, p6, p7, p8, p9, p10, s, det);
    score := Clamp(s);
    reason := Text.Join(Labels(det), " ");
  }

  /** The tags of the Taiwan rules come in ascending order, so each tag belongs to exactly one rule. */
  lemma TwAscending(rsi: real, pe: real, margin: real, roe: real, change: real, safety: Num, macro: Macro)
    ensures Ascending(TwRules(rsi, pe, margin, roe, change, safety, macro))
  {
    var t0 := TwRules(rsi, pe, margin, roe, change, safety, macro);
    var t1 := t0.tail;
    var t2 := t1.tail;
    var t3 := t2.tail;
    var t4 := t3.tail;
    var t5 := t4.tail;
    var t6 := t5.tail;
    var t7 := t6.tail;
    var t8 := t7.tail;
    var t9 := t8.tail;
    var t10 := t9.tail;
    var t11 := t10.tail;
    assert Ascending(t11);
    assert Ascending(t10);
    assert Ascending(t9);
    assert Ascending(t8);
    assert Ascending(t7);
    assert Ascending(t6);
    assert Ascending(t5);
    assert Ascending(t4);
    assert Ascending(t3);
    assert Ascending(t2);
    assert Ascending(t1);
    assert Ascending(t0);
  }

  /**
   * The deductions are -10 for a low margin, -5 for a weakening TWD and -10
   * for a high PE, so no stock scores below 25.
   */
  lemma TwScoreAtLeast25(rsi: real, pe: real, margin: real, roe: real, change: real, safety: Num, macro: Macro)
    ensures Total(TwRules(rsi, pe, margin, roe, change, safety, macro)) >= -25
    ensures Score(TwRules(rsi, pe, margin, roe, change, safety, macro)) >= 25
  {
    var t0 := TwRules(rsi, pe, margin, roe, change, safety, macro);
    TotalAtLeastFloor(t0);
    var t1 := t0.tail;
    var t2 := t1.tail;
    var t3 := t2.tail;
    var t4 := t3.tail;
    var t5 := t4.tail;
    var t6 := t5.tail;
    var t7 := t6.tail;
    var t8 := t7.tail;
    var t9 := t8.tail;
    var t10 := t9.tail;
    var t11 := t10.tail;
    assert Floor(t11) == 0;
    assert Floor(t10) == Floor(t11);
    assert Floor(t9) == Floor(t10);
    assert Floor(t8) == -10 + Floor(t9);
    assert Floor(t7) == Floor(t8);
    assert Floor(t6) == Floor(t7);
    assert Floor(t5) == Floor(t6);
    assert Floor(t4) == -5 + Floor(t5);
    assert Floor(t3) == Floor(t4);
    assert Floor(t2) == -10 + Floor(t3);
    assert Floor(t1) == Floor(t2);
    assert Floor(t0) == Floor(t1);
  }

  /** The floor of 25 is reached: a low margin, a weakening TWD and a high PE with nothing in favour. */
  lemma TwFloorReached()
    ensures Score(TwRules(50.0, 50.0, 5.0, 0.0, 0.0, Finite(0.0), Macro(32.0, 0.5, 0.0))) == 25
  {
    var t0 := TwRules(50.0, 50.0, 5.0, 0.0, 0.0, Finite(0.0), Macro(32.0, 0.5, 0.0));
    var t1 := t0.tail;
    var t2 := t1.tail;
    var t3 := t2.tail;
    var t4 := t3.tail;
    var t5 := t4.tail;
    var t6 := t5.tail;
    var t7 := t6.tail;
    var t8 := t7.tail;
    var t9 := t8.tail;
    var t10 := t9.tail;
    var t11 := t10.tail;
    assert Total(t11) == 0;
    assert Total(t10) == 0;
    assert Total(t9) == 0;
    assert Total(t8) == -10;
    assert Total(t7) == -10;
    assert Total(t6) == -10;
    assert Total(t5) == -10;
    assert Total(t4) == -15;
    assert Total(t3) == -15;
    assert Total(t2) == -25;
    assert Total(t1) == -25;
    assert Total(t0) == -25;
  }

  /** The margin rules are one three-way choice: +20 above 50%, else +15 above 30%, else -10 below 10%, else none. */
  lemma MarginChoice(rsi: real, pe: real, margin: real, roe: real, change: real, safety: Num, macro: Macro)
    ensures var tags := Tags(TwRules(rsi, pe, margin, roe, change, safety, macro));
      && (Moat in tags <==> margin > 50.0)
      && (HighMargin in tags <==> 30.0 < margin <= 50.0)
      && (LowMargin in tags <==> margin < 10.0)
      && (10.0 <= margin <= 30.0 ==> Moat !in tags && HighMargin !in tags && LowMargin !in tags)
  {
    var t0 := TwRules(rsi, pe, margin, roe, change, safety, macro);
    TwAscending(rsi, pe, margin, roe, change, safety, macro);
    TagShownIffFired(t0);
    TagSkip(t0, HighMargin);
    TagShownIffFired(t0.tail);
    TagSkip(t0, LowMargin);
    TagSkip(t0.tail, LowMargin);
    TagShownIffFired(t0.tail.tail);
  }

  /** PE: +10 only for 0 < pe < 15, -10 only above 40, nothing otherwise. */
  lemma PeRule(rsi: real, pe: real, margin: real, roe: real, change: real, safety: Num, macro: Macro)
    ensures var tags := Tags(TwRules(rsi, pe, margin, roe, change, safety, macro));
      && (FairPe in tags <==> 0.0 < pe < 15.0)
      && (HotPe in tags <==> pe > 40.0)
      && (!(0.0 < pe < 15.0) && pe <= 40.0 ==> FairPe !in tags && HotPe !in tags)
  {
    var t0 := TwRules(rsi, pe, margin, roe, change, safety, macro);
    TwAscending(rsi, pe, margin, roe, change, safety, macro);
    TagSkip(t0, FairPe);
    TagSkip(t0, HotPe);
    var t1 := t0.tail;
    TagSkip(t1, FairPe);
    TagSkip(t1, HotPe);
    var t2 := t1.tail;
    TagSkip(t2, FairPe);
    TagSkip(t2, HotPe);
    var t3 := t2.tail;
    TagSkip(t3, FairPe);
    TagSkip(t3, HotPe);
    var t4 := t3.tail;
    TagSkip(t4, FairPe);
    TagSkip(t4, HotPe);
    var t5 := t4.tail;
    TagSkip(t5, FairPe);
    TagSkip(t5, HotPe);
    var t6 := t5.tail;
    TagSkip(t6, FairPe);
    TagSkip(t6, HotPe);
    var t7 := t6.tail;
    TagShownIffFired(t7);
    TagSkip(t7, HotPe);
    TagShownIffFired(t7.tail);
  }

  /**
   * `calc_graham`: sqrt(22.5 * eps * bvps) when both are positive, else 0.
   * A missing or non-numeric figure (`None`) makes the comparison raise,
   * which the function turns into 0 as well.  The square root is supplied
   * as `root`.
   */
  function CalcGraham(eps: Option<real>, bvps: Option<real>, root: real): (g: real)
    requires eps.Some? && bvps.Some? && eps.value > 0.0 && bvps.value > 0.0 ==>
      root >= 0.0 && root * root == 22.5 * eps.value * bvps.value
    ensures g >= 0.0
    ensures g > 0.0 <==> eps.Some? && bvps.Some? && eps.value > 0.0 && bvps.value > 0.0
    ensures g > 0.0 ==> g * g == 22.5 * eps.value * bvps.value
  {
    match (eps, bvps)
    case (Some(e), Some(b)) =>
      if e > 0.0 && b > 0.0 then (PositiveProduct(e, b); root) else 0.0
    case _ => 0.0
  }

  lemma PositiveProduct(e: real, b: real)
    requires e > 0.0 && b > 0.0
    ensures 22.5 * e * b > 0.0
  {
    assert e * b > 0.0;
  }

  /** The safety margin in percent: how far the Graham value lies above the price, 0 when there is no Graham value. */
  function Safety(graham: real, price: real): (r: Num)
    ensures graham <= 0.0 ==> r == Finite(0.0)
    ensures graham > 0.0 && price != 0.0 ==> r.Finite? && r.v * price == (graham - price) * 100.0
    ensures graham > 0.0 && price == 0.0 ==> r == Inf(true)
  {
    if graham > 0.0 then PctChange(Finite(graham), Finite(price)) else Finite(0.0)
  }

  /** Without a Graham value the stock never earns the undervaluation bonus. */
  lemma NoGrahamNoBonus(eps: Option<real>, bvps: Option<real>, root: real, price: real, rsi: real, pe: real,
                        margin: real, roe: real, change: real, macro: Macro)
    requires !(eps.Some? && bvps.Some? && eps.value > 0.0 && bvps.value > 0.0)
    ensures var safety := Safety(CalcGraham(eps, bvps, root), price);
      Undervalued !in Tags(TwRules(rsi, pe, margin, roe, change, safety, macro))
  {
    var safety := Safety(CalcGraham(eps, bvps, root), price);
    var t0 := TwRules(rsi, pe, margin, roe, change, safety, macro);
    TwAscending(rsi, pe, margin, roe, change, safety, macro);
    TagSkip(t0, Undervalued);
    var t1 := t0.tail;
    TagSkip(t1, Undervalued);
    var t2 := t1.tail;
    TagSkip(t2, Undervalued);
    var t3 := t2.tail;
    TagSkip(t3, Undervalued);
    var t4 := t3.tail;
    TagSkip(t4, Undervalued);
    var t5 := t4.tail;
    TagSkip(t5, Undervalued);
    var t6 := t5.tail;
    TagShownIffFired(t6);
  }

  /** The code the add box stores: the normalised text, with ".TW" appended when it is all digits. */
  function TwEntry(raw: string): (code: string)
    ensures Text.IsDigits(Normalize(raw)) ==> code == Normalize(raw) + Suffix
    ensures !Text.IsDigits(Normalize(raw)) ==> code == Normalize(raw)
    ensures !Text.IsDigits(code)
  {
    var n := Normalize(raw);
    if Text.IsDigits(n) then
      assert !Text.IsDigit((n + Suffix)[|n|]);
      n + Suffix
    else n
  }

  /** The code shown in the results table: the stored code with every ".TW" deleted. */
  function DisplayCode(code: string): (shown: string)
    ensures |shown| <= |code|
    ensures !Text.Contains(code, Suffix) ==> shown == code
  {
    Text.RemoveAll(code, Suffix)
  }

  /** A stored all-digit code is shown as the digits the user typed. */
  lemma {:induction false} DisplayRoundTrip(d: string)
    requires forall i :: 0 <= i < |d| ==> Text.IsDigit(d[i])
    ensures DisplayCode(d + Suffix) == d
    decreases |d|
  {
    if d == [] {
      assert [] + Suffix == Suffix;
      assert Text.StartsWith(Suffix, Suffix);
      assert Suffix[|Suffix|..] == [];
    } else {
      var s := d + Suffix;
      assert !Text.StartsWith(s, Suffix) by { assert s[..|Suffix|][0] == d[0]; }
      assert s[1..] == d[1..] + Suffix;
      DisplayRoundTrip(d[1..]);
      assert [d[0]] + d[1..] == d;
    }
  }

  /** Adding a code the user typed and then showing it gives back the normalised text. */
  lemma EntryShowsAsTyped(raw: string)
    requires Text.IsDigits(Normalize(raw))
    ensures DisplayCode(TwEntry(raw)) == Normalize(raw)
  {
    DisplayRoundTrip(Normalize(raw));
  }

  /** A normalised all-digit code with the suffix appended is already normalised. */
  lemma SuffixedIsNormal(n: string)
    requires Text.IsDigits(n)
    ensures Normalize(n + Suffix) == n + Suffix
  {
    var e := n + Suffix;
    forall i | 0 <= i < |e| ensures !('a' <= e[i] <= 'z') {
      if i >= |n| { assert e[i] == Suffix[i - |n|]; }
    }
    assert e[|e| - 1] == 'W';
    assert e[0] == n[0] || n == [];
    NormalizeStable(e);
  }

  /** Normalising a stored code again changes nothing, so re-adding it cannot append a second copy. */
  lemma EntryIsStable(raw: string)
    ensures TwEntry(TwEntry(raw)) == TwEntry(raw)
  {
    var n := Normalize(raw);
    var e := TwEntry(raw);
    if Text.IsDigits(n) {
      SuffixedIsNormal(n);
    } else {
      NormalizeStable(n);
    }
    assert Normalize(e) == e;
  }

  /** A new session's watch list. */
  method NewWatchlist() returns (w: Watchlist)
    ensures fresh(w) && w.Valid() && w.entries == InitialWatchlist
  {
    w := new Watchlist(InitialWatchlist);
  }

  /** The "add" button: the stored form of the code is appended unless the input is empty or it is already listed. */
  method AddCode(w: Watchlist, raw: string)
    requires w.Valid()
    modifies w
    ensures w.Valid()
    ensures var code := TwEntry(raw);
      w.entries == if Normalize(raw) == [] || code in old(w.entries) then old(w.entries) else old(w.entries) + [code]
  {
    var code := Normalize(raw);
    if code != [] {
      if Text.IsDigits(code) {
        code := code + Suffix;
      }
      w.Add(code);
    }
  }
}
