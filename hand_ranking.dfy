/**
 * Classification of a five-card poker hand (`HandEvaluator._evaluate_five_card_hand`
 * in src/game/evaluator.py): a rank, the primary values that decide between
 * hands of that rank, and the kickers that break remaining ties.
 */
module HandRanking {
  import opened Common
  import opened Card

  datatype HandRank =
    | HighCard | Pair | TwoPair | ThreeOfAKind | Straight
    | Flush | FullHouse | FourOfAKind | StraightFlush | RoyalFlush
  {
    /** The enum value, 0 for HIGH_CARD up to 9 for ROYAL_FLUSH. */
    function Value(): nat {
      match this
      case HighCard => 0
      case Pair => 1
      case TwoPair => 2
      case ThreeOfAKind => 3
      case Straight => 4
      case Flush => 5
      case FullHouse => 6
      case FourOfAKind => 7
      case StraightFlush => 8
      case RoyalFlush => 9
    }
  }

  /** The triple `(rank, primary_values, kicker_values)`. */
  datatype Evaluation = Evaluation(rank: HandRank, primary: seq<int>, kickers: seq<int>)

  /** How many primary values and kickers a five-card hand of each rank carries. */
  function PrimaryCount(r: HandRank): nat {
    match r
    case RoyalFlush => 5
    case FullHouse | TwoPair => 2
    case Flush | HighCard => 0
    case _ => 1
  }

  function KickerCount(r: HandRank): nat {
    match r
    case Flush | HighCard => 5
    case Pair => 3
    case ThreeOfAKind => 2
    case FourOfAKind | TwoPair => 1
    case _ => 0
  }

  predicate WellShaped(e: Evaluation) {
    |e.primary| == PrimaryCount(e.rank) && |e.kickers| == KickerCount(e.rank)
  }

  // ---------------------------------------------------------------------
  // `sorted(..., reverse=True)` on integers

  predicate Descending(s: seq<int>) {
    forall i, j :: 0 <= i < j < |s| ==> s[i] >= s[j]
  }

  function InsertDescending(x: int, s: seq<int>): (r: seq<int>)
    requires Descending(s)
    ensures Descending(r) && multiset(r) == multiset(s) + multiset{x} && |r| == |s| + 1
    ensures r[0] == x || (s != [] && r[0] == s[0])
  {
    if s == [] || x >= s[0] then [x] + s
    else
      assert s == [s[0]] + s[1..];
      [s[0]] + InsertDescending(x, s[1..])
  }

  /** The same integers, largest first. */
  function SortDescending(s: seq<int>): (r: seq<int>)
    ensures Descending(r) && multiset(r) == multiset(s) && |r| == |s|
  {
    if s == [] then []
    else
      assert s == [s[0]] + s[1..];
      InsertDescending(s[0], SortDescending(s[1..]))
  }

  lemma DescendingHeadIsMax(s: seq<int>, x: int)
    requires Descending(s) && x in multiset(s)
    ensures x <= s[0]
  {
    var i :| 0 <= i < |s| && s[i] == x;
  }

  lemma DescendingTail(s: seq<int>)
    requires Descending(s) && s != []
    ensures Descending(s[1..])
  {
  }

  /** `sorted([a, b], reverse=True)`. */
  function Descending2(a: int, b: int): seq<int> {
    if a >= b then [a, b] else [b, a]
  }

  lemma DescendingThree(a: int, b: int, c: int)
    requires a >= b >= c
    ensures Descending([a, b, c])
  {
  }

  /** A descending arrangement of a multiset is unique. */
  lemma {:induction false} DescendingUnique(s: seq<int>, t: seq<int>)
    requires Descending(s) && Descending(t) && multiset(s) == multiset(t)
    ensures s == t
  {
    assert |t| == |multiset(t)| == |multiset(s)| == |s|;
    if s != [] {
      DescendingHeadIsMax(s, t[0]);
      DescendingHeadIsMax(t, s[0]);
      var s', t' := s[1..], t[1..];
      assert s == [s[0]] + s';
      assert t == [t[0]] + t';
      assert s[0] == t[0];
      assert multiset(s') == multiset(s) - multiset{s[0]};
      assert multiset(t') == multiset(t) - multiset{t[0]};
      DescendingTail(s);
      DescendingTail(t);
      DescendingUnique(s', t');
    }
  }

  // ---------------------------------------------------------------------
  // `Counter(values)` and the sorted `(freq, val)` pairs

  /** One `(freq, val)` pair of the frequency table. */
  datatype Freq = Freq(count: nat, value: int)

  /** Tuple order on `(freq, val)`: by count, then by value. */
  predicate Above(a: Freq, b: Freq) {
    a.count > b.count || (a.count == b.count && a.value > b.value)
  }

  predicate FreqsSorted(fs: seq<Freq>) {
    forall i, j :: 0 <= i < j < |fs| ==> !Above(fs[j], fs[i])
  }

  predicate StrictlySorted(fs: seq<Freq>) {
    forall i, j :: 0 <= i < j < |fs| ==> Above(fs[i], fs[j])
  }

  /** Sum of the counts. */
  function Total(fs: seq<Freq>): nat {
    if fs == [] then 0 else fs[0].count + Total(fs[1..])
  }

  /** The values that occur exactly once, in table order. */
  function Singles(fs: seq<Freq>): seq<int> {
    if fs == [] then [] else SingleOf(fs[0]) + Singles(fs[1..])
  }

  /** The value of a pair counted once, or nothing. */
  function SingleOf(f: Freq): seq<int> {
    if f.count == 1 then [f.value] else []
  }

  /** The distinct values of s in order of first occurrence (the key order of a Counter). */
  function Distinct(s: seq<int>): (d: seq<int>)
    ensures NoDuplicates(d)
    ensures forall v :: v in d <==> v in s
  {
    if s == [] then []
    else
      var d := Distinct(s[..|s| - 1]);
      assert s == s[..|s| - 1] + [s[|s| - 1]];
      if s[|s| - 1] in d then d else d + [s[|s| - 1]]
  }

  /** Pairs `(m[v], v)` for the values v of d, in the order of d. */
  function TallyOf(d: seq<int>, m: multiset<int>): seq<Freq> {
    seq(|d|, i requires 0 <= i < |d| => Freq(m[d[i]], d[i]))
  }

  /** `((freq, val) for val, freq in Counter(values).items())`. */
  function Tally(values: seq<int>): seq<Freq> {
    TallyOf(Distinct(values), multiset(values))
  }

  function InsertFreq(f: Freq, fs: seq<Freq>): (r: seq<Freq>)
    requires FreqsSorted(fs)
    ensures FreqsSorted(r) && |r| == |fs| + 1
    ensures r[0] == f || (fs != [] && r[0] == fs[0])
    ensures multiset(r) == multiset(fs) + multiset{f}
  {
    if fs == [] || !Above(fs[0], f) then
      [f] + fs
    else
      assert fs == [fs[0]] + fs[1..];
      [fs[0]] + InsertFreq(f, fs[1..])
  }

  lemma {:induction false} InsertFreqTotal(f: Freq, fs: seq<Freq>)
    requires FreqsSorted(fs)
    ensures Total(InsertFreq(f, fs)) == Total(fs) + f.count
  {
    var r := InsertFreq(f, fs);
    if fs == [] || !Above(fs[0], f) {
      assert r[1..] == fs;
    } else {
      InsertFreqTotal(f, fs[1..]);
      assert r[1..] == InsertFreq(f, fs[1..]);
    }
  }

  lemma {:induction false} InsertFreqSingles(f: Freq, fs: seq<Freq>)
    requires FreqsSorted(fs)
    ensures multiset(Singles(InsertFreq(f, fs))) == multiset(SingleOf(f)) + multiset(Singles(fs))
  {
    var r := InsertFreq(f, fs);
    if fs == [] || !Above(fs[0], f) {
      assert r[0] == f && r[1..] == fs;
    } else {
      var t := InsertFreq(f, fs[1..]);
      InsertFreqSingles(f, fs[1..]);
      assert r[0] == fs[0] && r[1..] == t;
    }
  }

  lemma {:induction false} InsertFreqStrict(f: Freq, fs: seq<Freq>)
    requires FreqsSorted(fs) && StrictlySorted(fs) && f !in fs
    ensures StrictlySorted(InsertFreq(f, fs))
  {
    if fs != [] && Above(fs[0], f) {
      InsertFreqStrict(f, fs[1..]);
    }
  }

  /** `sorted(pairs, reverse=True)`. */
  function SortFreqs(fs: seq<Freq>): (r: seq<Freq>)
    ensures FreqsSorted(r)
    ensures multiset(r) == multiset(fs) && |r| == |fs|
  {
    if fs == [] then []
    else
      assert fs == [fs[0]] + fs[1..];
      InsertFreq(fs[0], SortFreqs(fs[1..]))
  }

  lemma {:induction false} SortFreqsTotal(fs: seq<Freq>)
    ensures Total(SortFreqs(fs)) == Total(fs)
  {
    if fs != [] {
      SortFreqsTotal(fs[1..]);
      InsertFreqTotal(fs[0], SortFreqs(fs[1..]));
    }
  }

  lemma {:induction false} SortFreqsSingles(fs: seq<Freq>)
    ensures multiset(Singles(SortFreqs(fs))) == multiset(Singles(fs))
  {
    if fs != [] {
      var rest := SortFreqs(fs[1..]);
      SortFreqsSingles(fs[1..]);
      InsertFreqSingles(fs[0], rest);
      assert SortFreqs(fs) == InsertFreq(fs[0], rest);

    }
  }

  /** Sorting pairs that are all different gives a strictly descending table. */
  lemma {:induction false} SortFreqsStrict(fs: seq<Freq>)
    requires NoDuplicates(fs)
    ensures StrictlySorted(SortFreqs(fs))
  {
    if fs != [] {
      assert fs == [fs[0]] + fs[1..];
      assert fs[0] !in fs[1..] && NoDuplicates(fs[1..]);
      var r := SortFreqs(fs[1..]);
      SortFreqsStrict(fs[1..]);
      assert fs[0] !in multiset(r);
      InsertFreqStrict(fs[0], r);
    }
  }

  lemma {:induction false} TotalAppend(fs: seq<Freq>, f: Freq)
    ensures Total(fs + [f]) == Total(fs) + f.count
  {
    if fs != [] {
      assert (fs + [f])[1..] == fs[1..] + [f];
      TotalAppend(fs[1..], f);
    }
  }

  lemma {:induction false} TotalBump(d: seq<int>, m: multiset<int>, x: int)
    requires NoDuplicates(d)
    ensures Total(TallyOf(d, m + multiset{x})) == Total(TallyOf(d, m)) + (if x in d then 1 else 0)
  {
    if d != [] {
      assert TallyOf(d, m)[1..] == TallyOf(d[1..], m);
      assert TallyOf(d, m + multiset{x})[1..] == TallyOf(d[1..], m + multiset{x});
      assert NoDuplicates(d[1..]);
      assert d == [d[0]] + d[1..];
      TotalBump(d[1..], m, x);
    }
  }

  /** The counts of a Counter add up to the number of values counted. */
  lemma {:induction false} TallyTotal(s: seq<int>)
    ensures Total(Tally(s)) == |s|
  {
    if s != [] {
      var p, x := s[..|s| - 1], s[|s| - 1];
      assert s == p + [x];
      var d, m := Distinct(p), multiset(p);
      TallyTotal(p);
      TotalBump(d, m, x);
      if x !in d {
        assert Distinct(s) == d + [x];
        assert TallyOf(d + [x], m + multiset{x}) == TallyOf(d, m + multiset{x}) + [Freq(m[x] + 1, x)];
        TotalAppend(TallyOf(d, m + multiset{x}), Freq(m[x] + 1, x));
      }
    }
  }

  /** The entries of a Counter's table count their own value, at least once. */
  lemma TallyCounts(values: seq<int>)
    ensures forall f :: f in Tally(values) ==> 1 <= f.count == multiset(values)[f.value]
    ensures NoDuplicates(Tally(values))
  {
    var d := Distinct(values);
    forall f | f in Tally(values) ensures 1 <= f.count == multiset(values)[f.value] {
      var j :| 0 <= j < |d| && Tally(values)[j] == f;
      assert d[j] in values;
    }
  }

  /** What the sorted frequency pairs of any value sequence satisfy. */
  lemma FreqsFacts(values: seq<int>)
    ensures var freqs := SortFreqs(Tally(values));
      && Total(freqs) == |values|
      && StrictlySorted(freqs)
      && (forall i :: 0 <= i < |freqs| ==> 1 <= freqs[i].count == multiset(values)[freqs[i].value])
      && multiset(Singles(freqs)) == multiset(Singles(Tally(values)))
  {
    var tally := Tally(values);
    var freqs := SortFreqs(tally);
    TallyTotal(values);
    TallyCounts(values);
    SortFreqsTotal(tally);
    SortFreqsSingles(tally);
    SortFreqsStrict(tally);
    forall i | 0 <= i < |freqs|
      ensures 1 <= freqs[i].count == multiset(values)[freqs[i].value]
    {
      assert freqs[i] in multiset(tally);
    }
  }

  lemma {:induction false} TotalAtLeastLength(fs: seq<Freq>)
    requires forall i :: 0 <= i < |fs| ==> fs[i].count >= 1
    ensures Total(fs) >= |fs|
  {
    if fs != [] {
      TotalAtLeastLength(fs[1..]);
    }
  }

  /**
   * The shapes five counted values can take: given the first count of the
   * sorted table, how many entries follow and with which counts.
   */
  lemma FreqsLayout(fs: seq<Freq>)
    requires StrictlySorted(fs) && Total(fs) == 5
    requires forall i :: 0 <= i < |fs| ==> fs[i].count >= 1
    ensures 1 <= |fs| <= 5
    ensures fs[0].count == 4 ==> |fs| == 2 && fs[1].count == 1
    ensures fs[0].count == 3 ==> |fs| >= 2
    ensures fs[0].count == 3 && fs[1].count == 2 ==> |fs| == 2
    ensures fs[0].count == 3 && fs[1].count != 2 ==> |fs| == 3 && fs[1].count == 1 && fs[2].count == 1
    ensures fs[0].count == 2 ==> |fs| >= 2
    ensures fs[0].count == 2 && fs[1].count == 2 ==> |fs| == 3 && fs[2].count == 1
    ensures fs[0].count == 2 && fs[1].count != 2 ==> |fs| == 4 && fs[1].count == 1 && fs[2].count == 1 && fs[3].count == 1
  {
    TotalAtLeastLength(fs);
    TotalAtLeastLength(fs[1..]);
    if |fs| >= 2 {
      assert fs[1..][1..] == fs[2..];
      TotalAtLeastLength(fs[2..]);
      assert fs[0].count >= fs[1].count;
    }
    if |fs| >= 3 {
      assert fs[2..][1..] == fs[3..];
      TotalAtLeastLength(fs[3..]);
      assert fs[1].count >= fs[2].count;
    }
    if |fs| >= 4 {
      assert fs[3..][1..] == fs[4..];
      TotalAtLeastLength(fs[4..]);
      assert fs[2].count >= fs[3].count;
    }
  }

  /** The shape of the sorted table of five values. */
  lemma FreqsShape(values: seq<int>)
    requires |values| == 5
    ensures var fs := SortFreqs(Tally(values));
      && 1 <= |fs| <= 5
      && (fs[0].count == 4 ==> |fs| == 2 && fs[1].count == 1)
      && (fs[0].count == 3 ==> |fs| >= 2)
      && (fs[0].count == 3 && fs[1].count != 2 ==> |fs| == 3 && fs[1].count == 1 && fs[2].count == 1)
      && (fs[0].count == 2 ==> |fs| >= 2)
      && (fs[0].count == 2 && fs[1].count == 2 ==> |fs| == 3 && fs[2].count == 1)
      && (fs[0].count == 2 && fs[1].count != 2 ==> |fs| == 4 && fs[1].count == 1 && fs[2].count == 1 && fs[3].count == 1)
  {
    FreqsFacts(values);
    FreqsLayout(SortFreqs(Tally(values)));
  }

  /** A table with one pair and three single values lists the singles after the pair. */
  lemma PairLayoutSingles(fs: seq<Freq>)
    requires |fs| == 4 && fs[0].count == 2 && fs[1].count == 1 && fs[2].count == 1 && fs[3].count == 1
    ensures Singles(fs) == [fs[1].value, fs[2].value, fs[3].value]
  {
    assert fs[1..][1..] == fs[2..] && fs[2..][1..] == fs[3..] && fs[3..][1..] == [];
    assert Singles(fs[3..]) == [fs[3].value];
    assert Singles(fs[2..]) == [fs[2].value, fs[3].value];
    assert Singles(fs[1..]) == [fs[1].value, fs[2].value, fs[3].value];
  }

  /** The singles of a pair layout, sorted high to low, are the three entries after the pair. */
  lemma PairSinglesSorted(fs: seq<Freq>, t: seq<Freq>)
    requires |fs| == 4 && fs[0].count == 2 && fs[1].count == 1 && fs[2].count == 1 && fs[3].count == 1
    requires StrictlySorted(fs) && multiset(Singles(fs)) == multiset(Singles(t))
    ensures SortDescending(Singles(t)) == [fs[1].value, fs[2].value, fs[3].value]
  {
    PairLayoutSingles(fs);
    var singles := [fs[1].value, fs[2].value, fs[3].value];
    assert Above(fs[1], fs[2]) && Above(fs[2], fs[3]);
    DescendingThree(fs[1].value, fs[2].value, fs[3].value);
    var sorted := SortDescending(Singles(t));
    DescendingUnique(sorted, singles);
  }

  lemma DistinctCount(values: seq<int>, v: int)
    ensures NoDuplicates(values) ==> multiset(values)[v] <= 1
  {
    if NoDuplicates(values) {
      NoDuplicatesCount(values, v);
    }
  }

  // ---------------------------------------------------------------------
  // The five-card classification

  /** The card values, in hand order. */
  function Values(cards: seq<Card>): seq<int> {
    seq(|cards|, i requires 0 <= i < |cards| => cards[i].value)
  }

  /** How many cards of the hand have value v. */
  function Occurrences(cards: seq<Card>, v: int): nat {
    multiset(Values(cards))[v]
  }

  /** `len(set(suits)) == 1`: a non-empty hand whose cards share one suit. */
  predicate OneSuit(cards: seq<Card>) {
    |cards| > 0 && forall i :: 0 <= i < |cards| ==> cards[i].suit == cards[0].suit
  }

  /** Each value is one more than the value after it. */
  predicate Consecutive(values: seq<int>) {
    forall i, j :: 0 <= i < |values| && 0 <= j < |values| && j == i + 1 ==> values[i] - values[j] == 1
  }

  const Wheel: seq<int> := [14, 5, 4, 3, 2]
  const WheelLow: seq<int> := [5, 4, 3, 2, 1]
  const Broadway: seq<int> := [14, 13, 12, 11, 10]

  /** A straight, counting A-2-3-4-5 (sorted as 14, 5, 4, 3, 2) as one. */
  predicate IsStraight(sorted: seq<int>) {
    Consecutive(sorted) || sorted == Wheel
  }

  /** The sorted values the ranking works on, with the ace of A-2-3-4-5 counted as 1. */
  function RankingValues(sorted: seq<int>): seq<int> {
    if !Consecutive(sorted) && sorted == Wheel then WheelLow else sorted
  }

  /** The highest card of a straight: 5 for A-2-3-4-5. */
  function StraightTop(sorted: seq<int>): int
    requires |sorted| == 5
  {
    if sorted == Wheel then 5 else sorted[0]
  }

  /** `_evaluate_five_card_hand`: sort the values high to low and classify them. */
  function EvaluateFive(cards: seq<Card>): Evaluation
    requires |cards| == 5
  {
    Classify(SortDescending(Values(cards)), OneSuit(cards))
  }

  /** The classification of five values sorted high to low, flush or not. */
  function Classify(sorted: seq<int>, flush: bool): Evaluation
    requires |sorted| == 5
  {
    var values := RankingValues(sorted);
    var straight := IsStraight(sorted);
    if flush && values == Broadway then Evaluation(RoyalFlush, values, [])
    else if flush && straight then Evaluation(StraightFlush, [values[0]], [])
    else Grouped(values, flush, straight)
  }

  /** The part of `_evaluate_five_card_hand` after the straight flushes: by value counts. */
  function Grouped(values: seq<int>, flush: bool, straight: bool): Evaluation
    requires |values| == 5
  {
    var tally := Tally(values);
    var freqs := SortFreqs(tally);
    FreqsShape(values);
    if freqs[0].count == 4 then
      Evaluation(FourOfAKind, [freqs[0].value], [freqs[1].value])
    else if freqs[0].count == 3 && freqs[1].count == 2 then
      Evaluation(FullHouse, [freqs[0].value, freqs[1].value], [])
    else if flush then
      Evaluation(Flush, [], values)
    else if straight then
      Evaluation(Straight, [values[0]], [])
    else if freqs[0].count == 3 then
      Evaluation(ThreeOfAKind, [freqs[0].value], Descending2(freqs[1].value, freqs[2].value))
    else if freqs[0].count == 2 && freqs[1].count == 2 then
      Evaluation(TwoPair, Descending2(freqs[0].value, freqs[1].value), [freqs[2].value])
    else if freqs[0].count == 2 then
      Evaluation(Pair, [freqs[0].value], SortDescending(Singles(tally)))
    else
      Evaluation(HighCard, [], values)
  }

  /** The ranks that do not come from value groups: which flags they need, and their values. */
  lemma GroupedPlain(values: seq<int>, flush: bool, straight: bool)
    requires |values| == 5
    ensures var e := Grouped(values, flush, straight);
      && (e.rank == Flush ==> flush && e.primary == [] && e.kickers == values)
      && (e.rank == Straight ==> straight && !flush && e.primary == [values[0]] && e.kickers == [])
      && (e.rank == HighCard ==> !flush && !straight && e.primary == [] && e.kickers == values)
      && e.rank != RoyalFlush && e.rank != StraightFlush
  {
    FreqsShape(values);
  }

  /** Five different values never form a group: the rank is Flush, Straight or HighCard. */
  lemma GroupedDistinct(values: seq<int>, flush: bool, straight: bool)
    requires |values| == 5 && NoDuplicates(values)
    ensures Grouped(values, flush, straight).rank == (if flush then Flush else if straight then Straight else HighCard)
  {
    var freqs := SortFreqs(Tally(values));
    FreqsFacts(values);
    FreqsLayout(freqs);
    NoDuplicatesCount(values, freqs[0].value);
  }

  /** With one pair and three singles, the kickers are the singles from high to low. */
  lemma PairKickers(values: seq<int>)
    requires |values| == 5
    ensures var freqs := SortFreqs(Tally(values));
      |freqs| >= 2 && freqs[0].count == 2 && freqs[1].count != 2 ==>
        |freqs| == 4 && SortDescending(Singles(Tally(values))) == [freqs[1].value, freqs[2].value, freqs[3].value]
  {
    var tally := Tally(values);
    var freqs := SortFreqs(tally);
    FreqsShape(values);
    if freqs[0].count == 2 && freqs[1].count != 2 {
      TallyCounts(values);
      SortFreqsStrict(tally);
      SortFreqsSingles(tally);
      PairSinglesSorted(freqs, tally);
    }
  }

  /** The grouped ranks carry the fixed number of primary values and kickers of their rank. */
  lemma GroupedShape(values: seq<int>, flush: bool, straight: bool)
    requires |values| == 5
    ensures var e := Grouped(values, flush, straight);
      WellShaped(e) && e.rank != RoyalFlush && e.rank != StraightFlush
  {
    GroupedPlain(values, flush, straight);
    match Grouped(values, flush, straight).rank
    case FourOfAKind => GroupedFour(values, flush, straight);
    case FullHouse => GroupedFullHouse(values, flush, straight);
    case ThreeOfAKind => GroupedThree(values, flush, straight);
    case TwoPair => GroupedTwoPair(values, flush, straight);
    case Pair => GroupedPair(values, flush, straight);
    case _ =>
  }

  lemma WheelNotConsecutive()
    ensures !Consecutive(Wheel)
  {
    assert Wheel[0] - Wheel[1] != 1;
  }

  lemma WheelLowDistinct()
    ensures NoDuplicates(WheelLow)
  {
  }

  /** The values the ranking works on are the sorted card values, or A-2-3-4-5 with the ace as 1. */
  lemma RankingValuesFacts(sorted: seq<int>)
    requires |sorted| == 5
    ensures |RankingValues(sorted)| == 5
    ensures sorted == Wheel ==> RankingValues(sorted) == WheelLow
    ensures sorted != Wheel ==> RankingValues(sorted) == sorted
  {
    WheelNotConsecutive();
  }

  // Grouped ranks, stated on the multiset of the ranked values

  lemma GroupedFour(values: seq<int>, flush: bool, straight: bool)
    requires |values| == 5
    ensures var e := Grouped(values, flush, straight);
      e.rank == FourOfAKind ==>
        && |e.primary| == 1 && |e.kickers| == 1
        && multiset(values)[e.primary[0]] == 4 && multiset(values)[e.kickers[0]] == 1
  {
    var freqs := SortFreqs(Tally(values));
    FreqsShape(values);
    var e := Grouped(values, flush, straight);
    if e.rank == FourOfAKind {
      assert freqs[0].count == 4;
      assert e == Evaluation(FourOfAKind, [freqs[0].value], [freqs[1].value]);
      FreqsFacts(values);
      assert multiset(values)[freqs[0].value] == 4 && multiset(values)[freqs[1].value] == 1;
    }
  }

  lemma GroupedFullHouse(values: seq<int>, flush: bool, straight: bool)
    requires |values| == 5
    ensures var e := Grouped(values, flush, straight);
      e.rank == FullHouse ==>
        && |e.primary| == 2 && e.kickers == []
        && multiset(values)[e.primary[0]] == 3 && multiset(values)[e.primary[1]] == 2
  {
    var freqs := SortFreqs(Tally(values));
    FreqsShape(values);
    var e := Grouped(values, flush, straight);
    if e.rank == FullHouse {
      assert freqs[0].count == 3 && freqs[1].count == 2;
      assert e == Evaluation(FullHouse, [freqs[0].value, freqs[1].value], []);
      FreqsFacts(values);
      assert multiset(values)[freqs[0].value] == 3 && multiset(values)[freqs[1].value] == 2;
    }
  }

  lemma GroupedThree(values: seq<int>, flush: bool, straight: bool)
    requires |values| == 5
    ensures var e := Grouped(values, flush, straight);
      e.rank == ThreeOfAKind ==>
        && |e.primary| == 1 && |e.kickers| == 2 && e.kickers[0] > e.kickers[1]
        && multiset(values)[e.primary[0]] == 3
        && multiset(values)[e.kickers[0]] == 1 && multiset(values)[e.kickers[1]] == 1
  {
    var freqs := SortFreqs(Tally(values));
    FreqsShape(values);
    var e := Grouped(values, flush, straight);
    if e.rank == ThreeOfAKind {
      assert freqs[0].count == 3 && freqs[1].count != 2;
      assert e == Evaluation(ThreeOfAKind, [freqs[0].value], Descending2(freqs[1].value, freqs[2].value));
      FreqsFacts(values);
      assert Above(freqs[1], freqs[2]);
      assert multiset(values)[freqs[0].value] == 3;
      assert multiset(values)[freqs[1].value] == 1 && multiset(values)[freqs[2].value] == 1;
    }
  }

  lemma GroupedTwoPair(values: seq<int>, flush: bool, straight: bool)
    requires |values| == 5
    ensures var e := Grouped(values, flush, straight);
      e.rank == TwoPair ==>
        && |e.primary| == 2 && |e.kickers| == 1 && e.primary[0] > e.primary[1]
        && multiset(values)[e.primary[0]] == 2 && multiset(values)[e.primary[1]] == 2
        && multiset(values)[e.kickers[0]] == 1
  {
    var freqs := SortFreqs(Tally(values));
    FreqsShape(values);
    var e := Grouped(values, flush, straight);
    if e.rank == TwoPair {
      assert freqs[0].count == 2 && freqs[1].count == 2;
      assert e == Evaluation(TwoPair, Descending2(freqs[0].value, freqs[1].value), [freqs[2].value]);
      FreqsFacts(values);
      assert Above(freqs[0], freqs[1]);
      assert multiset(values)[freqs[0].value] == 2 && multiset(values)[freqs[1].value] == 2;
      assert multiset(values)[freqs[2].value] == 1;
    }
  }

  lemma GroupedPair(values: seq<int>, flush: bool, straight: bool)
    requires |values| == 5
    ensures var e := Grouped(values, flush, straight);
      e.rank == Pair ==>
        && |e.primary| == 1 && |e.kickers| == 3
        && e.kickers[0] > e.kickers[1] > e.kickers[2]
        && multiset(values)[e.primary[0]] == 2
        && multiset(values)[e.kickers[0]] == 1 && multiset(values)[e.kickers[1]] == 1
        && multiset(values)[e.kickers[2]] == 1
  {
    var freqs := SortFreqs(Tally(values));
    FreqsShape(values);
    var e := Grouped(values, flush, straight);
    if e.rank == Pair {
      assert freqs[0].count == 2 && freqs[1].count != 2;
      FreqsFacts(values);
      PairKickers(values);
      assert e.kickers == [freqs[1].value, freqs[2].value, freqs[3].value];
      assert Above(freqs[1], freqs[2]) && Above(freqs[2], freqs[3]);
    }
  }

  // ---------------------------------------------------------------------
  // Properties of `_evaluate_five_card_hand`

  predicate IsGroupRank(r: HandRank) {
    r == FourOfAKind || r == FullHouse || r == ThreeOfAKind || r == TwoPair || r == Pair
  }

  lemma ConsecutiveDistinct(s: seq<int>)
    requires Descending(s) && Consecutive(s)
    ensures NoDuplicates(s)
  {
    forall i, j | 0 <= i < j < |s| ensures s[i] != s[j] {
      assert s[i] - s[i + 1] == 1 && s[i + 1] >= s[j];
    }
  }

  /** What each branch of the classification returns. */
  lemma ClassifyCases(sorted: seq<int>, flush: bool)
    requires |sorted| == 5
    ensures |RankingValues(sorted)| == 5
    ensures var e := Classify(sorted, flush); var values := RankingValues(sorted);
      && (e.rank == RoyalFlush <==> flush && values == Broadway)
      && (e.rank == RoyalFlush ==> e.primary == values && e.kickers == [])
      && (e.rank == StraightFlush <==> flush && IsStraight(sorted) && values != Broadway)
      && (e.rank == StraightFlush ==> e.primary == [values[0]] && e.kickers == [])
      && (e.rank != RoyalFlush && e.rank != StraightFlush ==> e == Grouped(values, flush, IsStraight(sorted)))
  {
    RankingValuesFacts(sorted);
    GroupedShape(RankingValues(sorted), flush, IsStraight(sorted));
  }

  /** A straight is ranked on five different values. */
  lemma StraightIsDistinct(sorted: seq<int>)
    requires |sorted| == 5 && Descending(sorted) && IsStraight(sorted)
    ensures NoDuplicates(RankingValues(sorted))
  {
    RankingValuesFacts(sorted);
    if sorted == Wheel {
      WheelLowDistinct();
    } else {
      ConsecutiveDistinct(sorted);
    }
  }

  lemma ClassifyShape(sorted: seq<int>, flush: bool)
    requires |sorted| == 5
    ensures WellShaped(Classify(sorted, flush))
  {
    ClassifyCases(sorted, flush);
    var values := RankingValues(sorted);
    GroupedShape(values, flush, IsStraight(sorted));
    ShapeByCases(Classify(sorted, flush), Grouped(values, flush, IsStraight(sorted)));
  }

  /** An evaluation is well shaped when its straight flushes are and the rest is a well-shaped g. */
  lemma ShapeByCases(e: Evaluation, g: Evaluation)
    requires e.rank == RoyalFlush ==> |e.primary| == 5 && e.kickers == []
    requires e.rank == StraightFlush ==> |e.primary| == 1 && e.kickers == []
    requires e.rank != RoyalFlush && e.rank != StraightFlush ==> e == g
    requires WellShaped(g)
    ensures WellShaped(e)
  {
  }

  lemma ClassifyRoyal(sorted: seq<int>, flush: bool)
    requires |sorted| == 5
    ensures Classify(sorted, flush).rank == RoyalFlush <==> flush && sorted == Broadway
  {
    ClassifyCases(sorted, flush);
    RankingValuesFacts(sorted);
  }

  lemma ClassifyStraightFlush(sorted: seq<int>, flush: bool)
    requires |sorted| == 5
    ensures var e := Classify(sorted, flush);
      && (e.rank == StraightFlush <==> flush && IsStraight(sorted) && sorted != Broadway)
      && (e.rank == StraightFlush ==> e.primary == [StraightTop(sorted)] && e.kickers == [])
  {
    ClassifyCases(sorted, flush);
    RankingValuesFacts(sorted);
  }

  lemma ClassifyStraight(sorted: seq<int>, flush: bool)
    requires |sorted| == 5 && Descending(sorted)
    ensures var e := Classify(sorted, flush);
      && (e.rank == Straight <==> !flush && IsStraight(sorted))
      && (e.rank == Straight ==> e.primary == [StraightTop(sorted)] && e.kickers == [])
  {
    var values, straight := RankingValues(sorted), IsStraight(sorted);
    ClassifyCases(sorted, flush);
    RankingValuesFacts(sorted);
    var e := Classify(sorted, flush);
    if e.rank == Straight {
      GroupedPlain(values, flush, straight);
    }
    if straight && !flush {
      StraightIsDistinct(sorted);
      GroupedDistinct(values, flush, straight);
    }
  }

  lemma ClassifyPlain(sorted: seq<int>, flush: bool)
    requires |sorted| == 5
    ensures var e := Classify(sorted, flush);
      && (e.rank == Flush || e.rank == HighCard ==> e.primary == [] && e.kickers == sorted)
      && (e.rank == Flush ==> flush)
  {
    ClassifyCases(sorted, flush);
    RankingValuesFacts(sorted);
    var e := Classify(sorted, flush);
    if e.rank == Flush || e.rank == HighCard {
      GroupedPlain(RankingValues(sorted), flush, IsStraight(sorted));
    }
  }

  /** Groups never arise from A-2-3-4-5, so they are counted on the sorted values themselves. */
  lemma ClassifyGroupValues(sorted: seq<int>, flush: bool)
    requires |sorted| == 5 && IsGroupRank(Classify(sorted, flush).rank)
    ensures RankingValues(sorted) == sorted
    ensures Classify(sorted, flush) == Grouped(sorted, flush, IsStraight(sorted))
  {
    ClassifyCases(sorted, flush);
    RankingValuesFacts(sorted);
    if sorted == Wheel {
      WheelLowDistinct();
      GroupedDistinct(WheelLow, flush, IsStraight(sorted));
      assert false;
    }
  }

  // ---------------------------------------------------------------------
  // The classification of five cards

  /** Every evaluation carries the number of primary values and kickers fixed by its rank. */
  lemma EvaluateFiveShape(cards: seq<Card>)
    requires |cards| == 5
    ensures WellShaped(EvaluateFive(cards))
  {
    ClassifyShape(SortDescending(Values(cards)), OneSuit(cards));
  }

  /** A royal flush is exactly one suit with the values A, K, Q, J, 10. */
  lemma RoyalFlushIff(cards: seq<Card>)
    requires |cards| == 5
    ensures EvaluateFive(cards).rank == RoyalFlush <==> OneSuit(cards) && SortDescending(Values(cards)) == Broadway
  {
    ClassifyRoyal(SortDescending(Values(cards)), OneSuit(cards));
  }

  /**
   * A suited straight other than A-K-Q-J-10 is a straight flush whose one
   * primary value is its top card (5 for A-2-3-4-5).
   */
  lemma StraightFlushIff(cards: seq<Card>)
    requires |cards| == 5
    ensures var sorted := SortDescending(Values(cards)); var e := EvaluateFive(cards);
      && (e.rank == StraightFlush <==> OneSuit(cards) && IsStraight(sorted) && sorted != Broadway)
      && (e.rank == StraightFlush ==> e.primary == [StraightTop(sorted)] && e.kickers == [])
  {
    ClassifyStraightFlush(SortDescending(Values(cards)), OneSuit(cards));
  }

  /** An unsuited straight is a STRAIGHT whose one primary value is its top card. */
  lemma StraightIff(cards: seq<Card>)
    requires |cards| == 5
    ensures var sorted := SortDescending(Values(cards)); var e := EvaluateFive(cards);
      && (e.rank == Straight <==> !OneSuit(cards) && IsStraight(sorted))
      && (e.rank == Straight ==> e.primary == [StraightTop(sorted)] && e.kickers == [])
  {
    ClassifyStraight(SortDescending(Values(cards)), OneSuit(cards));
  }

  /** A-2-3-4-5 is a five-high straight, suited or not. */
  lemma WheelIsFiveHigh(cards: seq<Card>)
    requires |cards| == 5 && SortDescending(Values(cards)) == Wheel
    ensures var e := EvaluateFive(cards);
      (e.rank == Straight || e.rank == StraightFlush) && e.primary == [5]
  {
    StraightFlushIff(cards);
    StraightIff(cards);
  }

  /** FLUSH and HIGH_CARD have no primary values and all five values, high to low, as kickers. */
  lemma FlushAndHighCardKickers(cards: seq<Card>)
    requires |cards| == 5
    ensures var e := EvaluateFive(cards);
      e.rank == Flush || e.rank == HighCard ==>
        e.primary == [] && e.kickers == SortDescending(Values(cards))
    ensures EvaluateFive(cards).rank == Flush ==> OneSuit(cards)
  {
    ClassifyPlain(SortDescending(Values(cards)), OneSuit(cards));
  }

  /** Four of a kind: the quad value as primary, the fifth card's value as kicker. */
  lemma FourOfAKindParts(cards: seq<Card>)
    requires |cards| == 5 && EvaluateFive(cards).rank == FourOfAKind
    ensures var e := EvaluateFive(cards);
      && |e.primary| == 1 && |e.kickers| == 1
      && Occurrences(cards, e.primary[0]) == 4 && Occurrences(cards, e.kickers[0]) == 1
  {
    var sorted, flush := SortDescending(Values(cards)), OneSuit(cards);
    ClassifyGroupValues(sorted, flush);
    GroupedFour(sorted, flush, IsStraight(sorted));
  }

  /** Full house: the trips value then the pair value, no kickers. */
  lemma FullHouseParts(cards: seq<Card>)
    requires |cards| == 5 && EvaluateFive(cards).rank == FullHouse
    ensures var e := EvaluateFive(cards);
      && |e.primary| == 2 && e.kickers == []
      && Occurrences(cards, e.primary[0]) == 3 && Occurrences(cards, e.primary[1]) == 2
  {
    var sorted, flush := SortDescending(Values(cards)), OneSuit(cards);
    ClassifyGroupValues(sorted, flush);
    GroupedFullHouse(sorted, flush, IsStraight(sorted));
  }

  /** Three of a kind: the trips value, and the two other values high to low as kickers. */
  lemma ThreeOfAKindParts(cards: seq<Card>)
    requires |cards| == 5 && EvaluateFive(cards).rank == ThreeOfAKind
    ensures var e := EvaluateFive(cards);
      && |e.primary| == 1 && |e.kickers| == 2 && e.kickers[0] > e.kickers[1]
      && Occurrences(cards, e.primary[0]) == 3
      && Occurrences(cards, e.kickers[0]) == 1 && Occurrences(cards, e.kickers[1]) == 1
  {
    var sorted, flush := SortDescending(Values(cards)), OneSuit(cards);
    ClassifyGroupValues(sorted, flush);
    GroupedThree(sorted, flush, IsStraight(sorted));
  }

  /** Two pair: the two pair values high to low, and the fifth card's value as kicker. */
  lemma TwoPairParts(cards: seq<Card>)
    requires |cards| == 5 && EvaluateFive(cards).rank == TwoPair
    ensures var e := EvaluateFive(cards);
      && |e.primary| == 2 && |e.kickers| == 1 && e.primary[0] > e.primary[1]
      && Occurrences(cards, e.primary[0]) == 2 && Occurrences(cards, e.primary[1]) == 2
      && Occurrences(cards, e.kickers[0]) == 1
  {
    var sorted, flush := SortDescending(Values(cards)), OneSuit(cards);
    ClassifyGroupValues(sorted, flush);
    GroupedTwoPair(sorted, flush, IsStraight(sorted));
  }

  /** One pair: the pair value, and the three single values high to low as kickers. */
  lemma PairParts(cards: seq<Card>)
    requires |cards| == 5 && EvaluateFive(cards).rank == Pair
    ensures var e := EvaluateFive(cards);
      && |e.primary| == 1 && |e.kickers| == 3
      && e.kickers[0] > e.kickers[1] > e.kickers[2]
      && Occurrences(cards, e.primary[0]) == 2
      && Occurrences(cards, e.kickers[0]) == 1 && Occurrences(cards, e.kickers[1]) == 1
      && Occurrences(cards, e.kickers[2]) == 1
  {
    var sorted, flush := SortDescending(Values(cards)), OneSuit(cards);
    ClassifyGroupValues(sorted, flush);
    GroupedPair(sorted, flush, IsStraight(sorted));
  }

  /** A value that occurs in the hand is the value of one of its cards. */
  lemma OccursInValues(cards: seq<Card>, v: int)
    requires Occurrences(cards, v) > 0
    ensures exists i :: 0 <= i < |cards| && cards[i].value == v
  {
    assert v in multiset(Values(cards));
    var i :| 0 <= i < |cards| && Values(cards)[i] == v;
  }

  /** A royal flush carries the sorted values themselves. */
  lemma RoyalFlushValues(cards: seq<Card>)
    requires |cards| == 5 && EvaluateFive(cards).rank == RoyalFlush
    ensures EvaluateFive(cards).primary == SortDescending(Values(cards)) && EvaluateFive(cards).kickers == []
  {
    var sorted := SortDescending(Values(cards));
    RoyalFlushIff(cards);
    assert sorted == Broadway;
    RankingValuesFacts(sorted);
  }

  /** Every primary value and kicker occurs among the card values. */
  predicate FromCards(e: Evaluation, cards: seq<Card>) {
    && (forall i :: 0 <= i < |e.primary| ==> Occurrences(cards, e.primary[i]) > 0)
    && (forall i :: 0 <= i < |e.kickers| ==> Occurrences(cards, e.kickers[i]) > 0)
  }

  /** An evaluation whose parts are each empty or the sorted values draws on the cards. */
  lemma FromSorted(cards: seq<Card>, e: Evaluation)
    requires e.primary == [] || e.primary == SortDescending(Values(cards))
    requires e.kickers == [] || e.kickers == SortDescending(Values(cards))
    ensures FromCards(e, cards)
  {
    var sorted := SortDescending(Values(cards));
    assert multiset(sorted) == multiset(Values(cards));
    forall i | 0 <= i < |e.primary| ensures Occurrences(cards, e.primary[i]) > 0 {
      assert e.primary[i] in multiset(sorted);
    }
    forall i | 0 <= i < |e.kickers| ensures Occurrences(cards, e.kickers[i]) > 0 {
      assert e.kickers[i] in multiset(sorted);
    }
  }

  lemma StraightTopOccurs(sorted: seq<int>)
    requires |sorted| == 5
    ensures StraightTop(sorted) in multiset(sorted)
  {
    if sorted == Wheel {
      assert sorted[1] == 5;
    } else {
      assert sorted[0] in sorted;
    }
  }

  /** An evaluation whose one primary value is the top of a straight draws on the cards. */
  lemma FromStraightTop(cards: seq<Card>, e: Evaluation)
    requires |cards| == 5 && e.primary == [StraightTop(SortDescending(Values(cards)))] && e.kickers == []
    ensures FromCards(e, cards)
  {
    var sorted := SortDescending(Values(cards));
    StraightTopOccurs(sorted);
    assert Occurrences(cards, e.primary[0]) > 0;
  }

  /** An evaluation of a few parts, each of which occurs among the cards. */
  lemma FromCounts(cards: seq<Card>, e: Evaluation)
    requires |e.primary| <= 2 && |e.kickers| <= 3
    requires |e.primary| > 0 ==> Occurrences(cards, e.primary[0]) > 0
    requires |e.primary| > 1 ==> Occurrences(cards, e.primary[1]) > 0
    requires |e.kickers| > 0 ==> Occurrences(cards, e.kickers[0]) > 0
    requires |e.kickers| > 1 ==> Occurrences(cards, e.kickers[1]) > 0
    requires |e.kickers| > 2 ==> Occurrences(cards, e.kickers[2]) > 0
    ensures FromCards(e, cards)
  {
  }

  lemma PlainFromCards(cards: seq<Card>)
    requires |cards| == 5 && EvaluateFive(cards).rank in {RoyalFlush, Flush, HighCard}
    ensures FromCards(EvaluateFive(cards), cards)
  {
    if EvaluateFive(cards).rank == RoyalFlush {
      RoyalFlushValues(cards);
    } else {
      FlushAndHighCardKickers(cards);
    }
    FromSorted(cards, EvaluateFive(cards));
  }

  lemma StraightsFromCards(cards: seq<Card>)
    requires |cards| == 5 && EvaluateFive(cards).rank in {StraightFlush, Straight}
    ensures FromCards(EvaluateFive(cards), cards)
  {
    StraightFlushIff(cards);
    StraightIff(cards);
    FromStraightTop(cards, EvaluateFive(cards));
  }

  lemma GroupsFromCards(cards: seq<Card>)
    requires |cards| == 5 && EvaluateFive(cards).rank in {FourOfAKind, FullHouse, ThreeOfAKind}
    ensures FromCards(EvaluateFive(cards), cards)
  {
    if EvaluateFive(cards).rank == FourOfAKind {
      FourOfAKindParts(cards);
    } else if EvaluateFive(cards).rank == FullHouse {
      FullHouseParts(cards);
    } else {
      ThreeOfAKindParts(cards);
    }
    FromCounts(cards, EvaluateFive(cards));
  }

  lemma PairsFromCards(cards: seq<Card>)
    requires |cards| == 5 && EvaluateFive(cards).rank in {TwoPair, Pair}
    ensures FromCards(EvaluateFive(cards), cards)
  {
    if EvaluateFive(cards).rank == TwoPair {
      TwoPairParts(cards);
    } else {
      PairParts(cards);
    }
    FromCounts(cards, EvaluateFive(cards));
  }

  /** Every primary value and kicker of a five-card hand is the value of one of its cards. */
  lemma EvaluateFiveFromCards(cards: seq<Card>)
    requires |cards| == 5
    ensures FromCards(EvaluateFive(cards), cards)
  {
    match EvaluateFive(cards).rank
    case RoyalFlush => PlainFromCards(cards);
    case Flush => PlainFromCards(cards);
    case HighCard => PlainFromCards(cards);
    case StraightFlush => StraightsFromCards(cards);
    case Straight => StraightsFromCards(cards);
    case FourOfAKind => GroupsFromCards(cards);
    case FullHouse => GroupsFromCards(cards);
    case ThreeOfAKind => GroupsFromCards(cards);
    case TwoPair => PairsFromCards(cards);
    case Pair => PairsFromCards(cards);
  }
}
