/**
 * `HandEvaluator.get_hand_description` (src/game/evaluator.py): the words
 * for an evaluation, such as "Full House, Kings full of Twos". A value
 * outside 2..14 is a missing dictionary key and a missing list position an
 * index error; both are None here.
 */
module HandDescription {
  import opened Common
  import opened Card
  import opened HandRanking

  /** `value_to_name[v]`: the English name of a card value, None for a missing key. */
  function ValueName(v: int): (name: Option<string>)
    ensures name.Some? <==> 2 <= v <= 14
    ensures name.Some? ==> |name.value| >= 3
  {
    if v == 14 then Some("Ace")
    else if v == 13 then Some("King")
    else if v == 12 then Some("Queen")
    else if v == 11 then Some("Jack")
    else if v == 10 then Some("Ten")
    else if v == 9 then Some("Nine")
    else if v == 8 then Some("Eight")
    else if v == 7 then Some("Seven")
    else if v == 6 then Some("Six")
    else if v == 5 then Some("Five")
    else if v == 4 then Some("Four")
    else if v == 3 then Some("Three")
    else if v == 2 then Some("Two")
    else None
  }

  /** Different card values have different names. */
  lemma ValueNameInjective(v: int, w: int)
    requires ValueName(v).Some? && ValueName(v) == ValueName(w)
    ensures v == w
  {
  }

  /** `value_to_name[values[i]]`, None when i is past the end or the key is missing. */
  function NameAt(values: seq<int>, i: nat): (name: Option<string>)
    ensures name.Some? <==> i < |values| && 2 <= values[i] <= 14
  {
    if i < |values| then ValueName(values[i]) else None
  }

  /** `values_to_str`: the names joined with ", ". */
  function ValuesText(values: seq<int>): (t: Option<string>)
    ensures t.Some? <==> forall i :: 0 <= i < |values| ==> 2 <= values[i] <= 14
  {
    if values == [] then Some("")
    else if |values| == 1 then ValueName(values[0])
    else
      var rest := ValuesText(values[1..]);
      assert forall i :: 1 <= i < |values| ==> values[1..][i - 1] == values[i];
      if ValueName(values[0]).Some? && rest.Some? then Some(ValueName(values[0]).value + ", " + rest.value)
      else None
  }

  /** The pieces of an f-string: the whole text once every piece is there. */
  function Concat(parts: seq<Option<string>>): (r: Option<string>)
    ensures r.Some? <==> forall i :: 0 <= i < |parts| ==> parts[i].Some?
  {
    if parts == [] then Some("")
    else
      var rest := Concat(parts[1..]);
      assert forall i :: 1 <= i < |parts| ==> parts[1..][i - 1] == parts[i];
      if parts[0].Some? && rest.Some? then Some(parts[0].value + rest.value) else None
  }

  /** The text every description of a rank starts with. */
  function Heading(rank: HandRank): string {
    match rank
    case RoyalFlush => "Royal Flush"
    case StraightFlush => "Straight Flush, "
    case FourOfAKind => "Four of a Kind, "
    case FullHouse => "Full House, "
    case Flush => "Flush, "
    case Straight => "Straight, "
    case ThreeOfAKind => "Three of a Kind, "
    case TwoPair => "Two Pair, "
    case Pair => "Pair of "
    case HighCard => "High Card, "
  }

  /** `get_hand_description`. */
  function Describe(e: Evaluation): Option<string> {
    var p, k := e.primary, e.kickers;
    match e.rank
    case RoyalFlush => Some(Heading(RoyalFlush))
    case StraightFlush => Concat([Some(Heading(StraightFlush)), NameAt(p, 0), Some(" high")])
    case FourOfAKind =>
      Concat([Some(Heading(FourOfAKind)), NameAt(p, 0), Some("s with "), NameAt(k, 0), Some(" kicker")])
    case FullHouse => Concat([Some(Heading(FullHouse)), NameAt(p, 0), Some("s full of "), NameAt(p, 1), Some("s")])
    case Flush => Concat([Some(Heading(Flush)), ValuesText(k), Some(" high")])
    case Straight => Concat([Some(Heading(Straight)), NameAt(p, 0), Some(" high")])
    case ThreeOfAKind =>
      Concat([Some(Heading(ThreeOfAKind)), NameAt(p, 0), Some("s with "), ValuesText(k), Some(" kickers")])
    case TwoPair =>
      Concat([Some(Heading(TwoPair)), NameAt(p, 0), Some("s and "), NameAt(p, 1), Some("s with "),
              NameAt(k, 0), Some(" kicker")])
    case Pair => Concat([Some(Heading(Pair)), NameAt(p, 0), Some("s with "), ValuesText(k), Some(" kickers")])
    case HighCard => Concat([Some(Heading(HighCard)), ValuesText(k)])
  }

  /** A text built from pieces starts with the first piece. */
  lemma {:induction false} ConcatStartsWith(parts: seq<Option<string>>)
    requires parts != [] && parts[0].Some? && Concat(parts).Some?
    ensures parts[0].value <= Concat(parts).value
  {
    assert Concat(parts[1..]).Some? by {
      forall i | 0 <= i < |parts[1..]| ensures parts[1..][i].Some? {
        assert parts[1..][i] == parts[i + 1];
      }
    }
  }

  /** Every description opens with the heading of its rank. */
  lemma DescribeStartsWithHeading(e: Evaluation)
    requires Describe(e).Some?
    ensures Heading(e.rank) <= Describe(e).value
  {
    var p, k := e.primary, e.kickers;
    match e.rank
    case RoyalFlush =>
    case StraightFlush => ConcatStartsWith([Some(Heading(StraightFlush)), NameAt(p, 0), Some(" high")]);
    case FourOfAKind =>
      ConcatStartsWith([Some(Heading(FourOfAKind)), NameAt(p, 0), Some("s with "), NameAt(k, 0), Some(" kicker")]);
    case FullHouse =>
      ConcatStartsWith([Some(Heading(FullHouse)), NameAt(p, 0), Some("s full of "), NameAt(p, 1), Some("s")]);
    case Flush => ConcatStartsWith([Some(Heading(Flush)), ValuesText(k), Some(" high")]);
    case Straight => ConcatStartsWith([Some(Heading(Straight)), NameAt(p, 0), Some(" high")]);
    case ThreeOfAKind =>
      ConcatStartsWith([Some(Heading(ThreeOfAKind)), NameAt(p, 0), Some("s with "), ValuesText(k), Some(" kickers")]);
    case TwoPair =>
      ConcatStartsWith([Some(Heading(TwoPair)), NameAt(p, 0), Some("s and "), NameAt(p, 1), Some("s with "),
                        NameAt(k, 0), Some(" kicker")]);
    case Pair => ConcatStartsWith([Some(Heading(Pair)), NameAt(p, 0), Some("s with "), ValuesText(k), Some(" kickers")]);
    case HighCard => ConcatStartsWith([Some(Heading(HighCard)), ValuesText(k)]);
  }

  /** No heading is the start of another one, so a description tells its rank. */
  lemma HeadingsDiffer(r1: HandRank, r2: HandRank, t: string)
    requires Heading(r1) <= t && Heading(r2) <= t
    ensures r1 == r2
  {
    var h1, h2 := Heading(r1), Heading(r2);
    assert h1[0] == t[0] == h2[0] && h1[1] == t[1] == h2[1];
    if |h1| > 8 && |h2| > 8 {
      assert h1[8] == t[8] == h2[8];
    }
  }

  /** Two hands described by the same words have the same rank. */
  lemma DescribeDeterminesRank(e1: Evaluation, e2: Evaluation)
    requires Describe(e1).Some? && Describe(e1) == Describe(e2)
    ensures e1.rank == e2.rank
  {
    DescribeStartsWithHeading(e1);
    DescribeStartsWithHeading(e2);
    HeadingsDiffer(e1.rank, e2.rank, Describe(e1).value);
  }

  /** Values in 2..14 on every position a hand of five cards carries. */
  predicate NamedValues(e: Evaluation) {
    && (forall i :: 0 <= i < |e.primary| ==> 2 <= e.primary[i] <= 14)
    && (forall i :: 0 <= i < |e.kickers| ==> 2 <= e.kickers[i] <= 14)
  }

  lemma DescribeStraights(e: Evaluation)
    requires WellShaped(e) && (e.rank == StraightFlush || e.rank == Straight)
    ensures Describe(e).Some? <==> NamedValues(e)
  {
    var parts := [Some(Heading(e.rank)), NameAt(e.primary, 0), Some(" high")];
    assert Describe(e) == Concat(parts) && parts[1] == NameAt(e.primary, 0);
  }

  lemma DescribeGroups(e: Evaluation)
    requires WellShaped(e) && (e.rank == FourOfAKind || e.rank == FullHouse || e.rank == TwoPair)
    ensures Describe(e).Some? <==> NamedValues(e)
  {
    var p, k := e.primary, e.kickers;
    if e.rank == FourOfAKind {
      var parts := [Some(Heading(FourOfAKind)), NameAt(p, 0), Some("s with "), NameAt(k, 0), Some(" kicker")];
      assert parts[1] == NameAt(p, 0) && parts[3] == NameAt(k, 0);
    } else if e.rank == FullHouse {
      var parts := [Some(Heading(FullHouse)), NameAt(p, 0), Some("s full of "), NameAt(p, 1), Some("s")];
      assert parts[1] == NameAt(p, 0) && parts[3] == NameAt(p, 1);
    } else {
      var parts := [Some(Heading(TwoPair)), NameAt(p, 0), Some("s and "), NameAt(p, 1), Some("s with "),
                    NameAt(k, 0), Some(" kicker")];
      assert parts[1] == NameAt(p, 0) && parts[3] == NameAt(p, 1) && parts[5] == NameAt(k, 0);
    }
  }

  lemma DescribeLists(e: Evaluation)
    requires WellShaped(e) && (e.rank == Flush || e.rank == HighCard)
    ensures Describe(e).Some? <==> NamedValues(e)
  {
    var k := e.kickers;
    if e.rank == Flush {
      var parts := [Some(Heading(Flush)), ValuesText(k), Some(" high")];
      assert parts[1] == ValuesText(k);
    } else {
      var parts := [Some(Heading(HighCard)), ValuesText(k)];
      assert parts[1] == ValuesText(k);
    }
  }

  lemma DescribeGroupsWithList(e: Evaluation)
    requires WellShaped(e) && (e.rank == ThreeOfAKind || e.rank == Pair)
    ensures Describe(e).Some? <==> NamedValues(e)
  {
    var p, k := e.primary, e.kickers;
    var parts := [Some(Heading(e.rank)), NameAt(p, 0), Some("s with "), ValuesText(k), Some(" kickers")];
    assert Describe(e) == Concat(parts) && parts[1] == NameAt(p, 0) && parts[3] == ValuesText(k);
  }

  /**
   * A royal flush is always described; any other five-card evaluation is
   * described exactly when all its values are card values.
   */
  lemma DescribeDefined(e: Evaluation)
    requires WellShaped(e)
    ensures e.rank == RoyalFlush ==> Describe(e) == Some("Royal Flush")
    ensures e.rank != RoyalFlush ==> (Describe(e).Some? <==> NamedValues(e))
  {
    match e.rank
    case RoyalFlush =>
    case StraightFlush => DescribeStraights(e);
    case Straight => DescribeStraights(e);
    case FourOfAKind => DescribeGroups(e);
    case FullHouse => DescribeGroups(e);
    case TwoPair => DescribeGroups(e);
    case Flush => DescribeLists(e);
    case HighCard => DescribeLists(e);
    case ThreeOfAKind => DescribeGroupsWithList(e);
    case Pair => DescribeGroupsWithList(e);
  }

  /** Values that occur among cards of a full deck are card values. */
  lemma NamedFromCards(e: Evaluation, cards: seq<Card>)
    requires FromCards(e, cards)
    requires forall i :: 0 <= i < |cards| ==> 2 <= cards[i].value <= 14
    ensures NamedValues(e)
  {
    forall i | 0 <= i < |e.primary| ensures 2 <= e.primary[i] <= 14 {
      OccursInValues(cards, e.primary[i]);
    }
    forall i | 0 <= i < |e.kickers| ensures 2 <= e.kickers[i] <= 14 {
      OccursInValues(cards, e.kickers[i]);
    }
  }

  /** Five cards of a full deck always have a description. */
  lemma DescribeEvaluateFive(cards: seq<Card>)
    requires |cards| == 5
    requires forall i :: 0 <= i < |cards| ==> 2 <= cards[i].value <= 14
    ensures Describe(EvaluateFive(cards)).Some?
  {
    var e := EvaluateFive(cards);
    EvaluateFiveShape(cards);
    EvaluateFiveFromCards(cards);
    NamedFromCards(e, cards);
    DescribeDefined(e);
  }
}
