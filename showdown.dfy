/**
 * `HandEvaluator.determine_winners` (src/game/evaluator.py): the best hand
 * of every seat that may win a pot, and the equal shares of the seats whose
 * hand is best.
 */
module Showdown {
  import opened Common
  import opened Card
  import opened HandRanking
  import opened Evaluator

  /** The result of `determine_winners`. */
  datatype Outcome =
    | NoContenders                                                  // the bare `{}`
    | Crash                                                         // `None.value` in the key: AttributeError
    | Awarded(shares: map<nat, real>, hands: map<nat, Evaluation>)

  /** The seats that are not None, in seat order: the seats of `player_hands`. */
  function Eligible(seats: seq<Option<seq<Card>>>): (r: seq<nat>)
    ensures forall i :: 0 <= i < |r| ==> r[i] < |seats| && seats[r[i]].Some?
    ensures forall k: nat :: k < |seats| && seats[k].Some? ==> k in r
  {
    if seats == [] then []
    else
      var n := |seats| - 1;
      Eligible(seats[..n]) + (if seats[n].Some? then [n] else [])
  }

  /** `max(player_hands, key=...)` on evaluations: the first one whose key no later one exceeds. */
  function MaxByKey(es: seq<Evaluation>): (m: Evaluation)
    requires es != []
    ensures m in es
  {
    if |es| == 1 then es[0]
    else
      var m := MaxByKey(es[..|es| - 1]);
      if KeyGreater(es[|es| - 1], m) then es[|es| - 1] else m
  }

  lemma {:induction false} MaxByKeyIsBest(es: seq<Evaluation>)
    requires es != [] && forall i :: 0 <= i < |es| ==> WellShaped(es[i])
    ensures forall i :: 0 <= i < |es| ==> !IsBetter(es[i], MaxByKey(es))
  {
    var m := MaxByKey(es);
    if |es| == 1 {
      IsBetterIrreflexive(es[0]);
    } else {
      var init, e := es[..|es| - 1], es[|es| - 1];
      MaxByKeyIsBest(init);
      var prev := MaxByKey(init);
      var j :| 0 <= j < |init| && init[j] == prev;
      assert WellShaped(prev) by {
        assert init[j] == es[j];
      }
      KeyGreaterIsBetter(e, prev);
      forall i | 0 <= i < |es| ensures !IsBetter(es[i], m) {
        if i == |es| - 1 {
          if m == e {
            IsBetterIrreflexive(e);
          }
        } else {
          assert es[i] == init[i];
          if m == e && IsBetter(es[i], e) {
            IsBetterTransitive(es[i], e, prev);
          }
        }
      }
    }
  }

  /** Whether some eligible seat has fewer than five cards, so `evaluate_hand` gives no rank. */
  predicate SomeUnranked(seats: seq<Option<seq<Card>>>, community: seq<Card>) {
    exists k :: 0 <= k < |seats| && seats[k].Some? && BestHand(seats[k].value, community).None?
  }

  /** `player_hands`: the best hand of every eligible seat, keyed by seat. */
  function SeatHands(seats: seq<Option<seq<Card>>>, community: seq<Card>): (hands: map<nat, Evaluation>)
    requires !SomeUnranked(seats, community)
    ensures forall k: nat :: k in hands <==> k < |seats| && seats[k].Some?
  {
    map k: nat | k < |seats| && seats[k].Some? :: BestHand(seats[k].value, community).value
  }

  /** The hands of the eligible seats, listed in seat order. */
  function InSeatOrder(hands: map<nat, Evaluation>, eligible: seq<nat>): (es: seq<Evaluation>)
    requires forall i :: 0 <= i < |eligible| ==> eligible[i] in hands
    ensures |es| == |eligible|
  {
    seq(|eligible|, i requires 0 <= i < |eligible| => hands[eligible[i]])
  }

  /** The winners are the seats whose hand equals the best one; each gets `1.0 / len(winners)`. */
  function Award(hands: map<nat, Evaluation>, best: Evaluation): (o: Outcome)
    ensures o.Awarded? && o.hands == hands
    ensures forall w :: w in o.shares <==> w in hands && hands[w] == best
  {
    var winners := set k | k in hands && hands[k] == best;
    Awarded(map w | w in winners :: 1.0 / (|winners| as real), hands)
  }

  /**
   * `determine_winners`: `seats[k]` is the pocket of seat k, or None for a
   * seat that may not win this pot.
   */
  function DetermineWinners(seats: seq<Option<seq<Card>>>, community: seq<Card>): Outcome {
    var eligible := Eligible(seats);
    if eligible == [] then NoContenders
    else if SomeUnranked(seats, community) then Crash
    else
      var hands := SeatHands(seats, community);
      Award(hands, MaxByKey(InSeatOrder(hands, eligible)))
  }

  /** Only a field with no eligible seat gives the bare `{}`. */
  lemma DetermineWinnersEmpty(seats: seq<Option<seq<Card>>>, community: seq<Card>)
    ensures DetermineWinners(seats, community) == NoContenders <==> forall k :: 0 <= k < |seats| ==> seats[k].None?
  {
    var eligible := Eligible(seats);
    if eligible != [] {
      assert eligible[0] < |seats| && seats[eligible[0]].Some?;
    }
  }

  /** The key of a seat with fewer than five cards in all has no rank to compare, and the call fails. */
  lemma DetermineWinnersCrash(seats: seq<Option<seq<Card>>>, community: seq<Card>)
    ensures DetermineWinners(seats, community) == Crash <==>
      exists k :: 0 <= k < |seats| && seats[k].Some? && |seats[k].value| + |community| < 5
  {
    forall k | 0 <= k < |seats| && seats[k].Some?
      ensures BestHand(seats[k].value, community).None? <==> |seats[k].value| + |community| < 5
    {
      BestHandDefined(seats[k].value, community);
    }
    if SomeUnranked(seats, community) {
      var k :| 0 <= k < |seats| && seats[k].Some? && BestHand(seats[k].value, community).None?;
      assert k in Eligible(seats);
    }
  }

  /** Otherwise every eligible seat is reported with its best hand. */
  lemma DetermineWinnersHands(seats: seq<Option<seq<Card>>>, community: seq<Card>)
    requires DetermineWinners(seats, community).Awarded?
    ensures var o := DetermineWinners(seats, community);
      && (forall k: nat :: k in o.hands <==> k < |seats| && seats[k].Some?)
      && (forall k :: k in o.hands ==> Some(o.hands[k]) == BestHand(seats[k].value, community))
  {
  }

  /** A field with an award is one where every eligible seat has a rank. */
  lemma WinnersAward(seats: seq<Option<seq<Card>>>, community: seq<Card>)
    requires DetermineWinners(seats, community).Awarded?
    ensures Eligible(seats) != [] && !SomeUnranked(seats, community)
    ensures var eligible, hands := Eligible(seats), SeatHands(seats, community);
      DetermineWinners(seats, community) == Award(hands, MaxByKey(InSeatOrder(hands, eligible)))
  {
  }

  /**
   * At least one winner; each winner has a hand no eligible hand beats and
   * beats every eligible seat that is not a winner; all shares are equal.
   */
  predicate FairSplit(o: Outcome)
    requires o.Awarded?
  {
      && |o.shares| >= 1
      && (forall w :: w in o.shares ==> w in o.hands && o.shares[w] == 1.0 / (|o.shares| as real))
      && (forall w, k :: w in o.shares && k in o.hands ==> !IsBetter(o.hands[k], o.hands[w]))
      && (forall w, k :: w in o.shares && k in o.hands && k !in o.shares ==> IsBetter(o.hands[w], o.hands[k]))
  }

  /** The shares of an award around a hand that no other hand beats. */
  lemma AwardSplit(hands: map<nat, Evaluation>, best: Evaluation)
    requires exists k :: k in hands && hands[k] == best
    requires WellShaped(best)
    requires forall k :: k in hands ==> WellShaped(hands[k]) && !IsBetter(hands[k], best)
    ensures FairSplit(Award(hands, best))
  {
    var winners := set k | k in hands && hands[k] == best;
    var o := Award(hands, best);
    assert o.shares.Keys == winners;
    var b :| b in hands && hands[b] == best;
    assert b in o.shares;
    forall w, k | w in o.shares && k in hands && k !in o.shares ensures IsBetter(hands[w], hands[k]) {
      assert hands[w] == best && hands[k] != best;
      if !IsBetter(best, hands[k]) {
        IsBetterTotal(best, hands[k]);
      }
    }
  }

  /** `max` over the hands listed in seat order picks a hand that no listed hand beats. */
  lemma MaxOverSeats(hands: map<nat, Evaluation>, eligible: seq<nat>)
    requires eligible != []
    requires forall i :: 0 <= i < |eligible| ==> eligible[i] in hands
    requires forall k :: k in hands ==> k in eligible && WellShaped(hands[k])
    ensures var best := MaxByKey(InSeatOrder(hands, eligible));
      && WellShaped(best)
      && (exists k :: k in hands && hands[k] == best)
      && (forall k :: k in hands ==> !IsBetter(hands[k], best))
  {
    var es := InSeatOrder(hands, eligible);
    var best := MaxByKey(es);
    forall i | 0 <= i < |es| ensures WellShaped(es[i]) {
      assert eligible[i] in hands;
    }
    MaxByKeyIsBest(es);
    var b :| 0 <= b < |es| && es[b] == best;
    assert eligible[b] in hands && hands[eligible[b]] == best;
    forall k | k in hands ensures !IsBetter(hands[k], best) {
      var i :| 0 <= i < |eligible| && eligible[i] == k;
      assert es[i] == hands[k];
    }
  }

  /** The hand `max` picks among the eligible seats is one of theirs, and none of them beats it. */
  lemma SeatsBest(seats: seq<Option<seq<Card>>>, community: seq<Card>)
    requires Eligible(seats) != [] && !SomeUnranked(seats, community)
    ensures var eligible, hands := Eligible(seats), SeatHands(seats, community);
      var best := MaxByKey(InSeatOrder(hands, eligible));
      && WellShaped(best)
      && (exists k :: k in hands && hands[k] == best)
      && (forall k :: k in hands ==> WellShaped(hands[k]) && !IsBetter(hands[k], best))
  {
    var eligible, hands := Eligible(seats), SeatHands(seats, community);
    forall k | k in hands ensures k in eligible && WellShaped(hands[k]) {
      BestHandShape(seats[k].value, community);
    }
    MaxOverSeats(hands, eligible);
  }

  /** When every eligible seat has a rank, the award around the best hand splits fairly. */
  lemma EligibleSplit(seats: seq<Option<seq<Card>>>, community: seq<Card>)
    requires Eligible(seats) != [] && !SomeUnranked(seats, community)
    ensures var hands := SeatHands(seats, community);
      FairSplit(Award(hands, MaxByKey(InSeatOrder(hands, Eligible(seats)))))
  {
    SeatsBest(seats, community);
    var hands := SeatHands(seats, community);
    AwardSplit(hands, MaxByKey(InSeatOrder(hands, Eligible(seats))));
  }

  /**
   * The winners are the eligible seats that no eligible hand beats; each of
   * them beats every other eligible seat, and each gets the same share.
   */
  lemma DetermineWinnersSplit(seats: seq<Option<seq<Card>>>, community: seq<Card>)
    requires DetermineWinners(seats, community).Awarded?
    ensures FairSplit(DetermineWinners(seats, community))
  {
    WinnersAward(seats, community);
    EligibleSplit(seats, community);
  }
}
