/**
 * The shape shared by the heuristic stock scorers: a score that starts at
 * 50, a list of threshold rules each of which, when it fires, adds a fixed
 * number of points and one tag to the reason, and a final clamp to 0..100.
 * A scorer is described by its rule table, in the order the source tests
 * the rules; an `elif` branch is a rule whose condition includes the
 * negation of the branches before it.
 */
module Scoring {
  import opened Text

  /**
   * The tags the two scorers give, listed in the order in which their rules
   * are checked (a rule table lists its tags in this order).
   */
  datatype Tag =
    | Moat | HighMargin | LowMargin | TopRoe | CheapPeg | DearPeg | WeakTwd | SoxRally
    | Undervalued | FairPe | HotPe | Panic | Oversold | Pullback | Plunge

  /** The text of a tag as the dashboards show it. */
  function Label(t: Tag): string
  {
    match t
    case Moat => "🏰強護城河"
    case HighMargin => "💎高毛利"
    case LowMargin => "🔨毛利低"
    case TopRoe => "👑ROE頂級"
    case CheapPeg => "🚀PEG低估"
    case DearPeg => "⚠️PEG高"
    case WeakTwd => "⚠️匯率貶"
    case SoxRally => "🚀費半攻"
    case Undervalued => "💰低估"
    case FairPe => "✅PE合理"
    case HotPe => "🔥PE過熱"
    case Panic => "🩸恐慌買點"
    case Oversold => "📉超賣"
    case Pullback => "🔥回檔"
    case Plunge => "🩸大跌"
  }

  /** The position of a tag in the list above. */
  function Rank(t: Tag): nat
  {
    match t
    case Moat => 0
    case HighMargin => 1
    case LowMargin => 2
    case TopRoe => 3
    case CheapPeg => 4
    case DearPeg => 5
    case WeakTwd => 6
    case SoxRally => 7
    case Undervalued => 8
    case FairPe => 9
    case HotPe => 10
    case Panic => 11
    case Oversold => 12
    case Pullback => 13
    case Plunge => 14
  }

  /** The texts of a list of tags. */
  function Labels(tags: seq<Tag>): (r: seq<string>)
    ensures |r| == |tags|
    ensures forall i :: 0 <= i < |tags| ==> r[i] == Label(tags[i])
  {
    seq(|tags|, i requires 0 <= i < |tags| => Label(tags[i]))
  }

  /** One rule: whether it fires for the stock at hand, the points it adds (negative: deducts), its tag. */
  datatype Rule = Rule(fires: bool, delta: int, tag: Tag)

  /** A rule table, first rule first. */
  datatype Table = Nil | Cons(head: Rule, tail: Table)

  const Base := 50

  function Size(t: Table): nat
  {
    match t
    case Nil => 0
    case Cons(_, rest) => 1 + Size(rest)
  }

  /** `r` is one of the rules of `t`. */
  predicate Has(t: Table, r: Rule)
  {
    match t
    case Nil => false
    case Cons(h, rest) => h == r || Has(rest, r)
  }

  /** The points a rule contributes. */
  function Gain(r: Rule): int
  {
    if r.fires then r.delta else 0
  }

  /** The points of the rules that fire, added up. */
  function Total(t: Table): int
  {
    match t
    case Nil => 0
    case Cons(r, rest) => Gain(r) + Total(rest)
  }

  /** The rules that fire, in table order. */
  function Fired(t: Table): (f: Table)
    ensures Size(f) <= Size(t)
    ensures forall x :: Has(f, x) ==> x.fires && Has(t, x)
    ensures forall x :: Has(t, x) && x.fires ==> Has(f, x)
  {
    match t
    case Nil => Nil
    case Cons(r, rest) => if r.fires then Cons(r, Fired(rest)) else Fired(rest)
  }

  /** The tags of all rules of a table, fired or not, in table order. */
  function AllTags(t: Table): seq<Tag>
  {
    match t
    case Nil => []
    case Cons(r, rest) => [r.tag] + AllTags(rest)
  }

  /** The tags of the rules that fire, in table order. */
  function Tags(t: Table): seq<Tag>
  {
    match t
    case Nil => []
    case Cons(r, rest) => if r.fires then [r.tag] + Tags(rest) else Tags(rest)
  }

  /** The sum of all deductions, as if every deducting rule fired. */
  function Floor(t: Table): int
  {
    match t
    case Nil => 0
    case Cons(r, rest) => (if r.delta < 0 then r.delta else 0) + Floor(rest)
  }

  /** Every rule's tag comes after the previous rule's tag, so no two rules share a tag. */
  predicate Ascending(t: Table)
  {
    match t
    case Nil => true
    case Cons(r, Nil) => true
    case Cons(r, Cons(r', rest)) => Rank(r.tag) < Rank(r'.tag) && Ascending(t.tail)
  }

  /** One rule applied to a running score and tag list. */
  function Apply(r: Rule, s: int, det: seq<Tag>): (int, seq<Tag>)
  {
    if r.fires then (s + r.delta, det + [r.tag]) else (s, det)
  }

  /** One `if` of a scorer: when the rule fires, its points are added and its tag appended. */
  method Step(r: Rule, s: int, det: seq<Tag>) returns (s': int, det': seq<Tag>)
    ensures (s', det') == Apply(r, s, det)
  {
    s', det' := s, det;
    if r.fires {
      s' := s' + r.delta;
      det' := det' + [r.tag];
    }
  }

  /**
   * What a scorer computes when it tests the rules in order, starting from
   * score `s` and tag list `det`.
   */
  function Run(t: Table, s: int, det: seq<Tag>): (int, seq<Tag>)
  {
    match t
    case Nil => (s, det)
    case Cons(r, rest) =>
      var next := Apply(r, s, det);
      Run(rest, next.0, next.1)
  }

  /** Python's `max(0, min(100, x))`. */
  function Clamp(x: int): (r: int)
    ensures 0 <= r <= 100
    ensures 0 <= x <= 100 ==> r == x
    ensures x > 100 ==> r == 100
    ensures x < 0 ==> r == 0
  {
    if x < 0 then 0 else if x > 100 then 100 else x
  }

  /** The score a rule table yields: 50 plus the points of the rules that fire, kept within 0..100. */
  function Score(t: Table): (r: int)
    ensures 0 <= r <= 100
    ensures 0 <= Base + Total(t) <= 100 ==> r == Base + Total(t)
  {
    Clamp(Base + Total(t))
  }

  /** The reason string: the tags of the rules that fire, joined by single spaces; it names every one of them. */
  function Reason(t: Table): (r: string)
    ensures Tags(t) == [] ==> r == []
    ensures forall tag :: tag in Tags(t) ==> Contains(r, Label(tag))
  {
    var r := Join(Labels(Tags(t)), " ");
    JoinNamesAll(Tags(t), r);
    r
  }

  lemma JoinNamesAll(tags: seq<Tag>, r: string)
    requires r == Join(Labels(tags), " ")
    ensures forall tag :: tag in tags ==> Contains(r, Label(tag))
  {
    forall tag | tag in tags ensures Contains(r, Label(tag)) {
      var i :| 0 <= i < |tags| && tags[i] == tag;
      assert Labels(tags)[i] == Label(tag);
    }
  }

  /**
   * Running the rules in order ends with the starting score plus the points
   * of the rules that fire, and the starting tags followed by their tags.
   */
  lemma {:induction false} RunIsTotal(t: Table, s: int, det: seq<Tag>)
    ensures Run(t, s, det) == (s + Total(t), det + Tags(t))
  {
    match t
    case Nil =>
      assert det + [] == det;
    case Cons(r, rest) =>
      RunIsTotal(rest, Apply(r, s, det).0, Apply(r, s, det).1);
      if r.fires {
        assert det + [r.tag] + Tags(rest) == det + ([r.tag] + Tags(rest));
      }
  }

  /** A scorer that starts at the base score with no tags ends with the table's score and tags. */
  lemma RunFromBase(t: Table)
    ensures Run(t, Base, []) == (Base + Total(t), Tags(t))
  {
    RunIsTotal(t, Base, []);
    assert [] + Tags(t) == Tags(t);
  }

  /** The unclamped score is the base plus the deltas of the fired rules and of no other rule. */
  lemma {:induction false} TotalOfFired(t: Table)
    ensures Total(t) == Total(Fired(t))
  {
    match t
    case Nil =>
    case Cons(_, rest) => TotalOfFired(rest);
  }

  /** No table deducts more than its deductions added up. */
  lemma {:induction false} TotalAtLeastFloor(t: Table)
    ensures Total(t) >= Floor(t)
  {
    match t
    case Nil =>
    case Cons(_, rest) => TotalAtLeastFloor(rest);
  }

  /** The tags are exactly those of the fired rules: one tag per applied delta, in the same order. */
  lemma {:induction false} TagsOfFired(t: Table)
    ensures Tags(t) == AllTags(Fired(t))
  {
    match t
    case Nil =>
    case Cons(_, rest) => TagsOfFired(rest);
  }

  /** A tag that no rule carries never shows up in the reason. */
  lemma {:induction false} TagAbsent(t: Table, tag: Tag)
    requires tag !in AllTags(t)
    ensures tag !in Tags(t)
  {
    match t
    case Nil =>
    case Cons(r, rest) =>
      assert tag !in AllTags(rest) by { assert AllTags(t) == [r.tag] + AllTags(rest); }
      TagAbsent(rest, tag);
  }

  /** In an ascending table every tag after the first ranks above the first. */
  lemma {:induction false} AscendingRanks(t: Table, below: nat)
    requires Ascending(t)
    requires t.Cons? ==> below < Rank(t.head.tag)
    ensures forall x :: x in AllTags(t) ==> below < Rank(x)
  {
    match t
    case Nil =>
    case Cons(r, rest) =>
      AscendingRanks(rest, Rank(r.tag));
  }

  /** In an ascending table, the first rule's tag shows up in the reason exactly when that rule fires. */
  lemma TagShownIffFired(t: Table)
    requires t.Cons? && Ascending(t)
    ensures t.head.tag in Tags(t) <==> t.head.fires
  {
    AscendingRanks(t.tail, Rank(t.head.tag));
    TagAbsent(t.tail, t.head.tag);
  }

  /** A tag other than the first rule's shows up in the reason exactly when it shows up for the rest of the table. */
  lemma TagSkip(t: Table, tag: Tag)
    requires t.Cons? && Ascending(t) && t.head.tag != tag
    ensures Ascending(t.tail)
    ensures tag in Tags(t) <==> tag in Tags(t.tail)
  {
  }
}
