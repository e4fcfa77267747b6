/**
 * The hand evaluator of the Python engine (src/game/evaluator.py) above the
 * five-card classification: comparing two evaluations, picking the best five
 * cards out of pocket plus community, splitting a pot between the best
 * hands, and describing a hand in words.
 */
module Evaluator {
  import opened Common
  import opened Card
  import opened HandRanking

  // ---------------------------------------------------------------------
  // `_is_better_hand`

  /**
   * The loop `for v1, v2 in zip(xs, ys): if v1 != v2: return v1 > v2`:
   * the first differing position within the shorter length decides; None
   * when the loop runs out.
   */
  function ZipDecides(xs: seq<int>, ys: seq<int>): Option<bool> {
    if xs == [] || ys == [] then None
    else if xs[0] != ys[0] then Some(xs[0] > ys[0])
    else ZipDecides(xs[1..], ys[1..])
  }

  /** Rank value first, then the primary values, then the kickers; identical triples are not better. */
  predicate IsBetter(e1: Evaluation, e2: Evaluation) {
    if e1.rank.Value() != e2.rank.Value() then e1.rank.Value() > e2.rank.Value()
    else match ZipDecides(e1.primary, e2.primary)
      case Some(r) => r
      case None => ZipDecides(e1.kickers, e2.kickers) == Some(true)
  }

  /** The reference order: xs is greater at the first position where the two differ. */
  ghost predicate LexGreater(xs: seq<int>, ys: seq<int>) {
    exists i :: 0 <= i < |xs| && i < |ys| && xs[..i] == ys[..i] && xs[i] > ys[i]
  }

  /** When the first positions differ, they decide the order. */
  lemma LexGreaterHead(xs: seq<int>, ys: seq<int>)
    requires xs != [] && ys != [] && xs[0] != ys[0]
    ensures LexGreater(xs, ys) <==> xs[0] > ys[0]
  {
    if xs[0] > ys[0] {
      assert xs[..0] == ys[..0];
    } else if LexGreater(xs, ys) {
      var i :| 0 <= i < |xs| && i < |ys| && xs[..i] == ys[..i] && xs[i] > ys[i];
      assert false;
    }
  }

  /** When the first positions agree, the rest decides the order. */
  lemma LexGreaterTail(xs: seq<int>, ys: seq<int>)
    requires xs != [] && ys != [] && xs[0] == ys[0]
    ensures LexGreater(xs, ys) <==> LexGreater(xs[1..], ys[1..])
  {
    if LexGreater(xs[1..], ys[1..]) {
      var i :| 0 <= i < |xs[1..]| && i < |ys[1..]| && xs[1..][..i] == ys[1..][..i] && xs[1..][i] > ys[1..][i];
      assert xs[..i + 1] == [xs[0]] + xs[1..][..i];
      assert ys[..i + 1] == [ys[0]] + ys[1..][..i];
    }
    if LexGreater(xs, ys) {
      var i :| 0 <= i < |xs| && i < |ys| && xs[..i] == ys[..i] && xs[i] > ys[i];
      assert i > 0;
      assert xs[1..][..i - 1] == xs[..i][1..];
      assert ys[1..][..i - 1] == ys[..i][1..];
      assert xs[1..][i - 1] == xs[i] && ys[1..][i - 1] == ys[i];
    }
  }

  lemma {:induction false} ZipDecidesIsLex(xs: seq<int>, ys: seq<int>)
    ensures ZipDecides(xs, ys) == Some(true) <==> LexGreater(xs, ys)
  {
    if xs != [] && ys != [] {
      if xs[0] != ys[0] {
        LexGreaterHead(xs, ys);
      } else {
        ZipDecidesIsLex(xs[1..], ys[1..]);
        LexGreaterTail(xs, ys);
      }
    }
  }

  /** Swapping the lists swaps the verdict. */
  lemma {:induction false} ZipDecidesSwap(xs: seq<int>, ys: seq<int>)
    ensures ZipDecides(ys, xs) == match ZipDecides(xs, ys) case None => None case Some(r) => Some(!r)
  {
    if xs != [] && ys != [] && xs[0] == ys[0] {
      ZipDecidesSwap(xs[1..], ys[1..]);
    }
  }

  /** Lists of one length that the loop cannot tell apart are equal. */
  lemma {:induction false} ZipDecidesNone(xs: seq<int>, ys: seq<int>)
    requires |xs| == |ys|
    ensures ZipDecides(xs, ys) == None <==> xs == ys
  {
    if xs != [] {
      ZipDecidesNone(xs[1..], ys[1..]);
      if xs[0] == ys[0] && xs[1..] == ys[1..] {
        assert xs == [xs[0]] + xs[1..] && ys == [ys[0]] + ys[1..];
      }
    }
  }

  lemma {:induction false} ZipDecidesTransitive(xs: seq<int>, ys: seq<int>, zs: seq<int>)
    requires |xs| == |ys| == |zs|
    requires ZipDecides(xs, ys) == Some(true)
    requires ZipDecides(ys, zs) == Some(true) || ys == zs
    ensures ZipDecides(xs, zs) == Some(true)
  {
    if xs[0] == ys[0] {
      if ys != zs && ys[0] == zs[0] {
        ZipDecidesTransitive(xs[1..], ys[1..], zs[1..]);
      } else if ys == zs {
        assert ys[1..] == zs[1..];
        ZipDecidesTransitive(xs[1..], ys[1..], zs[1..]);
      }
    }
  }

  lemma ZipDecidesSelf(xs: seq<int>)
    ensures ZipDecides(xs, xs) == None
  {
    ZipDecidesNone(xs, xs);
  }

  /** No evaluation is better than itself. */
  lemma IsBetterIrreflexive(e: Evaluation)
    ensures !IsBetter(e, e)
  {
    ZipDecidesSelf(e.primary);
    ZipDecidesSelf(e.kickers);
  }

  /** At most one of two evaluations is better than the other. */
  lemma IsBetterAsymmetric(e1: Evaluation, e2: Evaluation)
    requires IsBetter(e1, e2)
    ensures !IsBetter(e2, e1)
  {
    ZipDecidesSwap(e1.primary, e2.primary);
    ZipDecidesSwap(e1.kickers, e2.kickers);
  }

  lemma RankValueInjective(r1: HandRank, r2: HandRank)
    requires r1.Value() == r2.Value()
    ensures r1 == r2
  {
  }

  /** Between evaluations of five-card hands, better is transitive. */
  lemma IsBetterTransitive(e1: Evaluation, e2: Evaluation, e3: Evaluation)
    requires WellShaped(e1) && WellShaped(e2) && WellShaped(e3)
    requires IsBetter(e1, e2) && IsBetter(e2, e3)
    ensures IsBetter(e1, e3)
  {
    if e1.rank.Value() == e2.rank.Value() == e3.rank.Value() {
      RankValueInjective(e1.rank, e2.rank);
      RankValueInjective(e2.rank, e3.rank);
      ZipDecidesNone(e1.primary, e2.primary);
      ZipDecidesNone(e2.primary, e3.primary);
      if ZipDecides(e1.primary, e2.primary) == Some(true) {
        ZipDecidesTransitive(e1.primary, e2.primary, e3.primary);
      } else if ZipDecides(e2.primary, e3.primary) == Some(true) {
        assert e1.primary == e2.primary;
      } else {
        ZipDecidesTransitive(e1.kickers, e2.kickers, e3.kickers);
      }
    }
  }

  /** Two evaluations of five-card hands that neither beats are the same evaluation. */
  lemma IsBetterTotal(e1: Evaluation, e2: Evaluation)
    requires WellShaped(e1) && WellShaped(e2)
    requires !IsBetter(e1, e2) && !IsBetter(e2, e1)
    ensures e1 == e2
  {
    RankValueInjective(e1.rank, e2.rank);
    ZipDecidesSwap(e1.primary, e2.primary);
    ZipDecidesSwap(e1.kickers, e2.kickers);
    ZipDecidesNone(e1.primary, e2.primary);
    ZipDecidesNone(e1.kickers, e2.kickers);
  }

  /** For five-card evaluations, better is the lexicographic order of rank value, primaries, kickers. */
  lemma IsBetterIsLexicographic(e1: Evaluation, e2: Evaluation)
    requires WellShaped(e1) && WellShaped(e2)
    ensures IsBetter(e1, e2) <==>
      || e1.rank.Value() > e2.rank.Value()
      || (e1.rank == e2.rank && LexGreater(e1.primary, e2.primary))
      || (e1.rank == e2.rank && e1.primary == e2.primary && LexGreater(e1.kickers, e2.kickers))
  {
    ZipDecidesIsLex(e1.primary, e2.primary);
    ZipDecidesIsLex(e1.kickers, e2.kickers);
    if e1.rank == e2.rank {
      ZipDecidesNone(e1.primary, e2.primary);
    }
  }

  // ---------------------------------------------------------------------
  // The key `(rank.value, primary, kickers)` that `max` compares

  /** Python's `<` on lists of integers: lexicographic, a proper prefix being smaller. */
  predicate ListLess(xs: seq<int>, ys: seq<int>) {
    if xs == [] then ys != []
    else if ys == [] then false
    else if xs[0] != ys[0] then xs[0] < ys[0]
    else ListLess(xs[1..], ys[1..])
  }

  /** Python's `>` on the key tuples of two evaluations. */
  predicate KeyGreater(e1: Evaluation, e2: Evaluation) {
    || e1.rank.Value() > e2.rank.Value()
    || (e1.rank.Value() == e2.rank.Value() && ListLess(e2.primary, e1.primary))
    || (e1.rank.Value() == e2.rank.Value() && e1.primary == e2.primary && ListLess(e2.kickers, e1.kickers))
  }

  lemma {:induction false} ListLessZip(xs: seq<int>, ys: seq<int>)
    requires |xs| == |ys|
    ensures ListLess(ys, xs) <==> ZipDecides(xs, ys) == Some(true)
  {
    if xs != [] && xs[0] == ys[0] {
      ListLessZip(xs[1..], ys[1..]);
    }
  }

  /** On five-card evaluations the key order of `max` and `_is_better_hand` agree. */
  lemma KeyGreaterIsBetter(e1: Evaluation, e2: Evaluation)
    requires WellShaped(e1) && WellShaped(e2)
    ensures KeyGreater(e1, e2) <==> IsBetter(e1, e2)
  {
    if e1.rank.Value() == e2.rank.Value() {
      RankValueInjective(e1.rank, e2.rank);
      ListLessZip(e1.primary, e2.primary);
      ListLessZip(e1.kickers, e2.kickers);
      ZipDecidesNone(e1.primary, e2.primary);
    }
  }

  // ---------------------------------------------------------------------
  // `itertools.combinations`

  function Prepend<T>(x: T, cs: seq<seq<T>>): seq<seq<T>> {
    seq(|cs|, i requires 0 <= i < |cs| => [x] + cs[i])
  }

  /** The k-element subsequences of s, in the order `itertools.combinations` yields them. */
  function Combinations<T>(s: seq<T>, k: nat): seq<seq<T>>
    decreases |s|
  {
    if k == 0 then [[]]
    else if |s| < k then []
    else Prepend(s[0], Combinations(s[1..], k - 1)) + Combinations(s[1..], k)
  }

  /** t is s with some elements left out, the rest kept in order. */
  predicate IsSubseq<T(==)>(t: seq<T>, s: seq<T>)
    decreases |s|
  {
    if t == [] then true
    else if s == [] then false
    else (t[0] == s[0] && IsSubseq(t[1..], s[1..])) || IsSubseq(t, s[1..])
  }

  /** Every combination is a subsequence of the input with k elements. */
  lemma {:induction false} CombinationsSound<T>(s: seq<T>, k: nat, c: seq<T>)
    requires c in Combinations(s, k)
    ensures IsSubseq(c, s) && |c| == k
    decreases |s|
  {
    if k > 0 && |s| >= k {
      var rest := Combinations(s[1..], k - 1);
      var front := Prepend(s[0], rest);
      assert Combinations(s, k) == front + Combinations(s[1..], k);
      if c in front {
        var i :| 0 <= i < |front| && front[i] == c;
        assert c == [s[0]] + rest[i];
        CombinationsSound(s[1..], k - 1, rest[i]);
        assert c[0] == s[0] && c[1..] == rest[i];
      } else {
        CombinationsSound(s[1..], k, c);
      }
    }
  }

  lemma CombinationsLength<T>(s: seq<T>, k: nat)
    ensures forall c :: c in Combinations(s, k) ==> |c| == k
  {
    forall c | c in Combinations(s, k) ensures |c| == k {
      CombinationsSound(s, k, c);
    }
  }

  lemma {:induction false} SubseqShorter<T>(t: seq<T>, s: seq<T>)
    requires IsSubseq(t, s)
    ensures |t| <= |s|
    decreases |s|
  {
    if t != [] {
      if t[0] == s[0] && IsSubseq(t[1..], s[1..]) {
        SubseqShorter(t[1..], s[1..]);
      } else {
        SubseqShorter(t, s[1..]);
      }
    }
  }

  /** Every subsequence of length k is one of the combinations. */
  lemma {:induction false} CombinationsComplete<T>(s: seq<T>, k: nat, t: seq<T>)
    requires IsSubseq(t, s) && |t| == k
    ensures t in Combinations(s, k)
    decreases |s|
  {
    if k == 0 {
      assert t == [];
    } else {
      SubseqShorter(t, s);
      var rest := Combinations(s[1..], k - 1);
      var front := Prepend(s[0], rest);
      assert Combinations(s, k) == front + Combinations(s[1..], k);
      if t[0] == s[0] && IsSubseq(t[1..], s[1..]) {
        CombinationsComplete(s[1..], k - 1, t[1..]);
        var i :| 0 <= i < |rest| && rest[i] == t[1..];
        assert front[i] == t;
      } else {
        CombinationsComplete(s[1..], k, t);
      }
    }
  }

  lemma {:induction false} PrefixIsSubseq<T>(s: seq<T>, k: nat)
    requires k <= |s|
    ensures IsSubseq(s[..k], s)
    decreases k
  {
    if k > 0 {
      PrefixIsSubseq(s[1..], k - 1);
      assert s[..k][0] == s[0] && s[..k][1..] == s[1..][..k - 1];
    }
  }

  /** There are combinations exactly when s has at least k elements. */
  lemma CombinationsEmpty<T>(s: seq<T>, k: nat)
    ensures Combinations(s, k) == [] <==> |s| < k
  {
    if |s| >= k {
      PrefixIsSubseq(s, k);
      CombinationsComplete(s, k, s[..k]);
    }
  }

  // ---------------------------------------------------------------------
  // `evaluate_hand`

  /** One loop step: take e when nothing is kept yet or e is better than what is kept. */
  function Keep(best: Option<Evaluation>, e: Evaluation): (r: Option<Evaluation>)
    ensures r.Some?
  {
    if best.None? || IsBetter(e, best.value) then Some(e) else best
  }

  /** The loop run over a list of evaluations: the first best one, or None for an empty list. */
  function BestOf(es: seq<Evaluation>): Option<Evaluation> {
    if es == [] then None else Keep(BestOf(es[..|es| - 1]), es[|es| - 1])
  }

  /** BestOf picks one of the evaluations, and none of them is better than it. */
  lemma {:induction false} BestOfIsBest(es: seq<Evaluation>)
    requires forall i :: 0 <= i < |es| ==> WellShaped(es[i])
    ensures BestOf(es).None? <==> es == []
    ensures BestOf(es).Some? ==> BestOf(es).value in es
    ensures BestOf(es).Some? ==> forall i :: 0 <= i < |es| ==> !IsBetter(es[i], BestOf(es).value)
  {
    if es != [] {
      var init, e := es[..|es| - 1], es[|es| - 1];
      BestOfIsBest(init);
      var prev := BestOf(init);
      var best := BestOf(es);
      assert best == Keep(prev, e);
      forall i | 0 <= i < |es| ensures !IsBetter(es[i], best.value) {
        if i == |es| - 1 {
          if best.value == e {
            IsBetterIrreflexive(e);
          }
        } else {
          assert es[i] == init[i];
          if best.value == e && prev.Some? && IsBetter(es[i], e) {
            IsBetterTransitive(es[i], e, prev.value);
          }
        }
      }
    }
  }

  /** The evaluations of the five-card combinations, in combination order. */
  function HandEvaluations(combos: seq<seq<Card>>): (es: seq<Evaluation>)
    requires forall c :: c in combos ==> |c| == 5
    ensures |es| == |combos|
  {
    seq(|combos|, i requires 0 <= i < |combos| => EvaluateFive(combos[i]))
  }

  /** What `evaluate_hand` returns: None stands for `(None, [], [])`. */
  function BestHand(pocket: seq<Card>, community: seq<Card>): Option<Evaluation> {
    CombinationsLength(pocket + community, 5);
    BestOf(HandEvaluations(Combinations(pocket + community, 5)))
  }

  /** The loop over one more evaluation keeps the result of one more step. */
  lemma BestOfStep(es: seq<Evaluation>, i: nat)
    requires i < |es|
    ensures BestOf(es[..i + 1]) == Keep(BestOf(es[..i]), es[i])
  {
    assert es[..i + 1][..i] == es[..i];
  }

  /** `evaluate_hand`: try every five-card combination, keeping the first best one. */
  method EvaluateHand(pocket: seq<Card>, community: seq<Card>) returns (best: Option<Evaluation>)
    ensures best == BestHand(pocket, community)
  {
    var combos := Combinations(pocket + community, 5);
    CombinationsLength(pocket + community, 5);
    ghost var es := HandEvaluations(combos);
    best := None;
    var i := 0;
    while i < |combos|
      invariant 0 <= i <= |combos|
      invariant best == BestOf(es[..i])
    {
      assert combos[i] in combos;
      var e := EvaluateFive(combos[i]);
      BestOfStep(es, i);
      if best.None? || IsBetter(e, best.value) {
        best := Some(e);
      }
      i := i + 1;
    }
    assert es[..|combos|] == es;
  }

  lemma BestOfNone(es: seq<Evaluation>)
    ensures BestOf(es).None? <==> es == []
  {
  }

  /** With at least five cards there is a result; with fewer, `(None, [], [])`. */
  lemma BestHandDefined(pocket: seq<Card>, community: seq<Card>)
    ensures BestHand(pocket, community).Some? <==> |pocket| + |community| >= 5
  {
    var cards := pocket + community;
    CombinationsLength(cards, 5);
    var combos := Combinations(cards, 5);
    BestOfNone(HandEvaluations(combos));
    CombinationsEmpty(cards, 5);
  }

  /** Every k-element subsequence of the cards is one of the combinations, and only those are. */
  lemma CombinationsAreSubseqs<T>(s: seq<T>, k: nat)
    ensures forall c :: c in Combinations(s, k) <==> IsSubseq(c, s) && |c| == k
  {
    forall c | c in Combinations(s, k) ensures IsSubseq(c, s) && |c| == k {
      CombinationsSound(s, k, c);
    }
    forall c | IsSubseq(c, s) && |c| == k ensures c in Combinations(s, k) {
      CombinationsComplete(s, k, c);
    }
  }

  /** BestOf over the evaluations of a list of hands, stated on the hands. */
  lemma BestOfHands(combos: seq<seq<Card>>)
    requires forall c :: c in combos ==> |c| == 5
    requires BestOf(HandEvaluations(combos)).Some?
    ensures exists c :: c in combos && EvaluateFive(c) == BestOf(HandEvaluations(combos)).value
    ensures forall c :: c in combos ==> !IsBetter(EvaluateFive(c), BestOf(HandEvaluations(combos)).value)
  {
    var es := HandEvaluations(combos);
    forall i | 0 <= i < |es| ensures WellShaped(es[i]) {
      assert combos[i] in combos;
      EvaluateFiveShape(combos[i]);
    }
    BestOfIsBest(es);
    var best := BestOf(es).value;
    var j :| 0 <= j < |es| && es[j] == best;
    assert combos[j] in combos && EvaluateFive(combos[j]) == best;
    forall c | c in combos ensures !IsBetter(EvaluateFive(c), best) {
      var i :| 0 <= i < |combos| && combos[i] == c;
      assert es[i] == EvaluateFive(c);
    }
  }

  /** The result is the evaluation of five of the cards, and no five of them evaluate better. */
  lemma BestHandIsBest(pocket: seq<Card>, community: seq<Card>)
    requires BestHand(pocket, community).Some?
    ensures exists c :: IsSubseq(c, pocket + community) && |c| == 5 && EvaluateFive(c) == BestHand(pocket, community).value
    ensures forall c :: IsSubseq(c, pocket + community) && |c| == 5 ==> !IsBetter(EvaluateFive(c), BestHand(pocket, community).value)
  {
    var cards := pocket + community;
    CombinationsAreSubseqs(cards, 5);
    BestOfHands(Combinations(cards, 5));
  }

  /** The best hand of at least five cards is well shaped. */
  lemma BestHandShape(pocket: seq<Card>, community: seq<Card>)
    requires BestHand(pocket, community).Some?
    ensures WellShaped(BestHand(pocket, community).value)
  {
    BestHandIsBest(pocket, community);
    var c :| IsSubseq(c, pocket + community) && |c| == 5 && EvaluateFive(c) == BestHand(pocket, community).value;
    EvaluateFiveShape(c);
  }
}
