/**
 * The game engine of src/game/game.py: the `TexasHoldem` table, with the
 * dealing of cards from its deck, the blinds, the actions, the side pots
 * and the passing of the turn.
 */
module Holdem {
  import opened Common
  import opened Card
  import opened PlayerStatus
  import Deck
  import opened HoldemRules
  import opened Betting

  /** The card the k-th `deal` of a run takes from d: one card while d lasts, none after. */
  function Popped(d: seq<Card>, k: nat): (r: seq<Card>)
    ensures |r| == (if k < |d| then 1 else 0)
  {
    if k < |d| then [d[|d| - 1 - k]] else []
  }

  /** The deck d after k deals. */
  function AfterDeals(d: seq<Card>, k: nat): (r: seq<Card>)
    ensures |r| == |d| - Min(k, |d|)
  {
    d[..|d| - Min(k, |d|)]
  }

  /** A deal moves the last card of the deck out and keeps the rest in order: nothing is lost or doubled. */
  lemma DealStep(d: seq<Card>, k: nat)
    ensures AfterDeals(d, k + 1) + Popped(d, k) == AfterDeals(d, k)
  {
  }

  /** What one `deal` does to the deck d after k deals. */
  lemma DealFromDeck(d: seq<Card>, k: nat)
    ensures AfterDeals(d, k) == [] ==> Popped(d, k) == [] && AfterDeals(d, k + 1) == []
    ensures AfterDeals(d, k) != [] ==>
              var rest := AfterDeals(d, k);
              Popped(d, k) == [rest[|rest| - 1]] && AfterDeals(d, k + 1) == rest[..|rest| - 1]
  {
  }

  /** Seat s's place in the dealing order, which starts left of the button: (s - button - 1) mod 6. */
  function DealOrder(button: nat, s: nat): nat
    requires button < 6 && s < 6
  {
    if s > button then s - button - 1 else s + 5 - button
  }

  /** Deal number i of a round goes to the seat i + 1 places after the button, and only to it. */
  lemma DealOrderOfSeat(button: nat, i: nat)
    requires button < 6 && i < 6
    ensures forall s :: 0 <= s < 6 ==> (DealOrder(button, s) == i <==> s == SeatAfter(button, i + 1))
  {
    if button + i + 1 < 6 {
      assert SeatAfter(button, i + 1) == button + i + 1;
    } else {
      assert SeatAfter(button, i + 1) == button + i + 1 - 6;
    }
  }

  /** The pockets p0 after the first i deals of a round of six that starts at deal number `offset` of deck d. */
  function Dealt(p0: seq<seq<Card>>, d: seq<Card>, offset: nat, button: nat, i: nat): (r: seq<seq<Card>>)
    requires |p0| == 6 && button < 6
    ensures |r| == 6
    ensures forall s :: 0 <= s < 6 ==>
              r[s] == p0[s] + (if DealOrder(button, s) < i then Popped(d, offset + DealOrder(button, s)) else [])
  {
    seq(6, s requires 0 <= s < 6 => p0[s] + (if DealOrder(button, s) < i then Popped(d, offset + DealOrder(button, s)) else []))
  }

  /** Deal number i of the round goes to the seat i + 1 places after the button and to no other seat. */
  lemma DealtStep(p0: seq<seq<Card>>, d: seq<Card>, offset: nat, button: nat, i: nat)
    requires |p0| == 6 && button < 6 && i < 6
    ensures var seat := SeatAfter(button, i + 1);
            var before := Dealt(p0, d, offset, button, i);
            Dealt(p0, d, offset, button, i + 1) == before[seat := before[seat] + Popped(d, offset + i)]
    ensures Popped(d, offset + i) == [] ==> Dealt(p0, d, offset, button, i + 1) == Dealt(p0, d, offset, button, i)
  {
    var seat := SeatAfter(button, i + 1);
    var before := Dealt(p0, d, offset, button, i);
    var after := Dealt(p0, d, offset, button, i + 1);
    DealOrderOfSeat(button, i);
    assert forall s :: 0 <= s < 6 ==> after[s] == before[seat := before[seat] + Popped(d, offset + i)][s];
    if Popped(d, offset + i) == [] {
      assert forall s :: 0 <= s < 6 ==> after[s] == before[s];
    }
  }

  /** The loops of `create_side_pot`, on the table's pots, statuses, all-in seats and street contributions. */
  method BuildSidePots(pots: seq<Pot>, statuses: seq<Status>, allIn: set<nat>, contributions: seq<int>)
    returns (ps: seq<Pot>)
    requires |pots| >= 1 && |statuses| == 6 && |contributions| == 6
    ensures ps == SidePots(pots, statuses, allIn, contributions)
  {
    var amounts: seq<int> := [];
    for i := 0 to 6
      invariant amounts == AllInAmounts(allIn, contributions, i)
    {
      if i in allIn {
        amounts := InsertAscending(amounts, contributions[i]);
      }
    }
    ps := [pots[0]];
    var prev := 0;
    var k := 0;
    assert amounts[k..] == amounts;
    while k < |amounts|
      invariant 0 <= k <= |amounts| && |ps| >= 1
      invariant BuildPots(ps, amounts[k..], prev, statuses, contributions)
                == SidePots(pots, statuses, allIn, contributions)
    {
      var amount := amounts[k];
      var size := 0;
      var eligible: set<nat> := {};
      for i := 0 to 6
        invariant size == LayerSize(statuses, contributions, amount, prev, i)
        invariant eligible == LayerEligible(statuses, contributions, amount, prev, i)
      {
        if statuses[i] != Folded {
          var share := Min(amount, contributions[i]);
          if share > prev {
            size := size + (share - prev);
            if contributions[i] >= amount {
              eligible := eligible + {i};
            }
          }
        }
      }
      assert amounts[k..][1..] == amounts[k + 1..];
      if prev == 0 {
        ps := ps[0 := ps[0].(amount := size, eligible := eligible)];
      } else if size > 0 {
        ps := ps + [Pot(size, eligible, 0)];
      }
      prev := amount;
      k := k + 1;
    }
  }

  /** The loop of `move_to_next_player`, which steps one seat at a time from `from` until a seat is ACTIVE or it is back at `from`. */
  method NextActiveSeat(statuses: seq<Status>, from: nat) returns (seat: nat)
    requires |statuses| == 6 && from < 6
    ensures seat == NextActive(statuses, from)
  {
    SeatAfterStep(from, 0);
    seat := (from + 1) % 6;
    var k := 1;
    while statuses[seat] != Active && seat != from
      invariant 1 <= k <= 6 && seat == SeatAfter(from, k)
      invariant StepsToActive(statuses, from, k) == StepsToActive(statuses, from, 1)
      decreases 6 - k
    {
      SeatAfterBack(from, k);
      SeatAfterStep(from, k);
      seat := (seat + 1) % 6;
      k := k + 1;
    }
    SeatAfterBack(from, k);
  }

  /**
   * Lines 205-237 of `start_new_hand` on the table's betting state b: the
   * seats left of the button post the blinds, each capped by the stack. A
   * blind the stack cannot cover is posted short and its seat counts as
   * all-in; a big blind short of the small blind rebuilds the pots with
   * `create_side_pot` from the street contributions still left from the
   * previous hand.
   */
  method PostedBlinds(b: Bets, button: nat) returns (r: Bets)
    requires Seated(b) && button < 6
    ensures r == AfterBlinds(b, button)
  {
    BlindSeatIsSeatAfter(button);
    var sb := (button + 1) % 6;
    var bb := (button + 2) % 6;
    var chips := b.chips;
    var pots := b.pots;
    var allIn := b.allIn;
    var sbAmount := Min(SmallBlind, chips[sb]);
    chips := chips[sb := chips[sb] - sbAmount];
    pots := pots[0 := AddChips(pots[0], sbAmount, sb)];
    if sbAmount < SmallBlind {
      allIn := allIn + {sb};
    }
    var bbAmount := Min(BigBlind, chips[bb]);
    chips := chips[bb := chips[bb] - bbAmount];
    pots := pots[0 := AddChips(pots[0], bbAmount, bb)];
    assert pots == b.pots[0 := AddChips(AddChips(b.pots[0], sbAmount, sb), bbAmount, bb)];
    if bbAmount < BigBlind {
      allIn := allIn + {bb};
      if bbAmount < sbAmount {
        assert allIn == AfterBlinds(b, button).allIn;
        pots := BuildSidePots(pots, b.statuses, allIn, b.contributions);
      }
    }
    var contributions := [0, 0, 0, 0, 0, 0][sb := sbAmount][bb := bbAmount];
    r := Bets(chips, b.statuses, pots, Max(sbAmount, bbAmount), allIn, None, BigBlind, contributions);
  }

  /** The ValueError `__init__` raises for its arguments, if any: it needs six names, and six controllers when a list is given. */
  function TableArgumentsError(names: seq<string>, controllers: Option<seq<bool>>): (e: Option<Error>)
    ensures e.None? <==> |names| == 6 && (controllers.Some? ==> |controllers.value| == 6)
    ensures |names| != 6 ==> e == Some(ValueError("Texas Hold'em requires exactly 6 players"))
    ensures |names| == 6 && e.Some? ==> e == Some(ValueError("player_controllers must also be length 6"))
  {
    if |names| != 6 then Some(ValueError("Texas Hold'em requires exactly 6 players"))
    else if controllers.Some? && |controllers.value| != 6 then Some(ValueError("player_controllers must also be length 6"))
    else None
  }

  /**
   * `TexasHoldem(player_names, player_controllers)`: the ValueError of its
   * checks, or a new table. A seat belongs to a bot where it has a
   * controller; without a list every seat is human.
   */
  method NewTable(names: seq<string>, controllers: Option<seq<bool>>) returns (r: Result<TexasHoldem>)
    ensures r.Err? <==> TableArgumentsError(names, controllers).Some?
    ensures r.Err? ==> TableArgumentsError(names, controllers) == Some(r.error)
    ensures r.Ok? ==> fresh(r.value) && r.value.Valid() && r.value.names == names &&
                      r.value.bots == (if controllers.Some? then controllers.value else [false, false, false, false, false, false]) &&
                      r.value.chips == [100, 100, 100, 100, 100, 100]
  {
    var failure := TableArgumentsError(names, controllers);
    if failure.Some? {
      return Err(failure.value);
    }
    var bots := if controllers.Some? then controllers.value else [false, false, false, false, false, false];
    var table := new TexasHoldem(names, bots);
    r := Ok(table);
  }

  /** A seat number. */
  type SeatIndex = n: nat | n < 6

  /** Per-seat values, indexed by seat. */
  type SeatAmounts = s: seq<int> | |s| == 6 witness [0, 0, 0, 0, 0, 0]
  type SeatStatuses = s: seq<Status> | |s| == 6 witness [Active, Active, Active, Active, Active, Active]
  type SeatCards = s: seq<seq<Card>> | |s| == 6 witness [[], [], [], [], [], []]
  type SeatNames = s: seq<string> | |s| == 6 witness ["", "", "", "", "", ""]
  type SeatFlags = s: seq<bool> | |s| == 6 witness [false, false, false, false, false, false]

  /** The main pot and any side pots. */
  type Pots = s: seq<Pot> | |s| >= 1 witness [EmptyPot]

  /**
   * The six-seat table of src/game/game.py: `TexasHoldem` owns a deck and six
   * seats, and its methods move chips from the seats into the pots, deal
   * cards, and pass the turn round the table. Each seat's stack, status and
   * cards are kept in sequences indexed by seat.
   */
  class TexasHoldem {
    /** `player_controllers`: true where a seat has a bot controller. */
    const bots: SeatFlags
    const deck: Deck.Deck
    const names: SeatNames
    /** Seat i's `chips`, `is_active`, `pocket` and `hand`. */
    var chips: SeatAmounts
    var statuses: SeatStatuses
    var pockets: SeatCards
    var hands: SeatCards
    var community: seq<Card>
    var stage: Stage
    var button: SeatIndex
    var current: SeatIndex
    var pots: Pots
    var currentBet: int
    var allIn: set<nat>
    var lastBettor: Option<nat>
    var minRaise: int
    /** `street_contributions`, indexed by seat. */
    var contributions: SeatAmounts

    /** The table invariant: no negative stack, and every ALL_IN seat recorded in `all_in_players`. */
    ghost predicate Valid()
      reads this`chips, this`statuses, this`pots, this`currentBet, this`allIn, this`lastBettor, this`minRaise, this`contributions
    {
      Sound(Bets())
    }

    /** The fields an action changes, apart from the seat to act. */
    function Bets(): Bets
      reads this`chips, this`statuses, this`pots, this`currentBet, this`allIn, this`lastBettor, this`minRaise, this`contributions
    {
      Betting.Bets(chips, statuses, pots, currentBet, allIn, lastBettor, minRaise, contributions)
    }

    /** The fields the end-of-round test reads. */
    function View(): (t: Street)
      reads this
      requires Valid()
      ensures WellFormed(t) && StatusesAgree(t)
    {
      Street(statuses, allIn, contributions, currentBet, stage, button, current, lastBettor)
    }

    /** `get_available_actions` for the seat to act. */
    function AvailableNow(): (acts: seq<Action>)
      reads this
      ensures acts == AvailableActions(currentBet, chips[current], contributions[current])
    {
      AvailableActions(currentBet, chips[current], contributions[current])
    }

    /**
     * The assignments of `__init__` once the argument lists have passed its
     * checks: each seat gets `Player(name, 100)`. The street bookkeeping
     * that `start_new_hand` sets up is given its start-of-hand values here.
     */
    constructor (names: seq<string>, bots: seq<bool>)
      requires |names| == 6 && |bots| == 6
      ensures Valid() && fresh(deck) && this.bots == bots && this.names == names
      ensures chips == [100, 100, 100, 100, 100, 100]
      ensures statuses == [Active, Active, Active, Active, Active, Active]
      ensures pockets == [[], [], [], [], [], []] && hands == [[], [], [], [], [], []]
      ensures multiset(deck.cards) == multiset(Deck.CreationOrder())
      ensures community == [] && stage == Preflop && button == 0 && current == 0
      ensures pots == [EmptyPot] && currentBet == 0 && allIn == {}
      ensures contributions == [0, 0, 0, 0, 0, 0] && lastBettor == None && minRaise == BigBlind
    {
      this.bots := bots;
      deck := new Deck.Deck();
      this.names := names;
      chips := [100, 100, 100, 100, 100, 100];
      statuses := [Active, Active, Active, Active, Active, Active];
      pockets := [[], [], [], [], [], []];
      hands := [[], [], [], [], [], []];
      community := [];
      stage := Preflop;
      button := 0;
      current := 0;
      pots := [EmptyPot];
      currentBet := 0;
      allIn := {};
      lastBettor := None;
      minRaise := BigBlind;
      contributions := [0, 0, 0, 0, 0, 0];
    }

    /** `reset_hand`: a fresh deck, no community cards, one empty pot, and every seat ACTIVE with no cards. */
    method ResetHand()
      requires Valid()
      modifies this`community, this`stage, this`pots, this`currentBet, this`allIn, deck
      modifies this`pockets, this`hands, this`statuses
      ensures Valid()
      ensures multiset(deck.cards) == multiset(Deck.CreationOrder())
      ensures community == [] && stage == Preflop && pots == [EmptyPot] && currentBet == 0 && allIn == {}
      ensures pockets == [[], [], [], [], [], []] && hands == [[], [], [], [], [], []]
      ensures statuses == [Active, Active, Active, Active, Active, Active]
    {
      deck.Reset();
      community := [];
      stage := Preflop;
      pots := [EmptyPot];
      currentBet := 0;
      allIn := {};
      var ps, hs, ss := pockets, hands, statuses;
      for k := 0 to 6
        invariant |ps| == 6 && |hs| == 6 && |ss| == 6
        invariant forall i :: 0 <= i < k ==> ps[i] == [] && hs[i] == [] && ss[i] == Active
      {
        ps, hs, ss := ps[k := []], hs[k := []], ss[k := Active];
      }
      pockets, hands, statuses := ps, hs, ss;
    }

    /** `move_button`. */
    method MoveButton()
      requires Valid()
      modifies this`button
      ensures Valid()
      ensures button == (old(button) + 1) % 6
    {
      button := (button + 1) % 6;
    }

    /**
     * `deal_hole_cards`: two rounds of one card per seat, starting left of
     * the button, each card popped from the end of the deck while it lasts.
     */
    method DealHoleCards()
      modifies deck, this`pockets
      ensures deck.cards == AfterDeals(old(deck.cards), 12)
      ensures forall s :: 0 <= s < 6 ==>
                pockets[s] == old(pockets[s]) + Popped(old(deck.cards), DealOrder(button, s))
                              + Popped(old(deck.cards), 6 + DealOrder(button, s))
    {
      ghost var d := deck.cards;
      DealRound(d, 0);
      DealRound(d, 6);
    }

    /** One of the two `for` loops of `deal_hole_cards`: deals number offset to offset + 5 of a run on deck d. */
    method DealRound(ghost d: seq<Card>, offset: nat)
      requires deck.cards == AfterDeals(d, offset)
      modifies deck, this`pockets
      ensures deck.cards == AfterDeals(d, offset + 6)
      ensures pockets == Dealt(old(pockets), d, offset, button, 6)
    {
      var dealt: seq<seq<Card>> := pockets;
      assert forall s :: 0 <= s < 6 ==> Dealt(pockets, d, offset, button, 0)[s] == dealt[s];
      for i := 0 to 6
        modifies deck
        invariant deck.cards == AfterDeals(d, offset + i)
        invariant dealt == Dealt(pockets, d, offset, button, i)
      {
        var seat := (button + i + 1) % 6;
        DealtStep(pockets, d, offset, button, i);
        DealFromDeck(d, offset + i);
        var card := deck.Deal();
        if card.Some? {
          dealt := dealt[seat := dealt[seat] + [card.value]];
        }
      }
      pockets := dealt;
    }

    /** `deal_flop`: only before the flop; burn one card, then deal three while the deck lasts. */
    method DealFlop() returns (failure: Option<Error>)
      requires Valid()
      modifies this`community, this`stage, deck
      ensures Valid()
      ensures failure.Some? <==> old(stage) != Preflop
      ensures failure.Some? ==>
                failure.value == ValueError("Cannot deal flop - incorrect game stage") &&
                community == old(community) && stage == old(stage) && deck.cards == old(deck.cards)
      ensures failure.None? ==>
                stage == Flop && deck.cards == AfterDeals(old(deck.cards), 4) &&
                community == old(community) + Popped(old(deck.cards), 1) + Popped(old(deck.cards), 2)
                             + Popped(old(deck.cards), 3)
    {
      if stage != Preflop {
        return Some(ValueError("Cannot deal flop - incorrect game stage"));
      }
      ghost var d := deck.cards;
      DealFromDeck(d, 0);
      var burned := deck.Deal();
      for i := 0 to 3
        invariant deck.cards == AfterDeals(d, 1 + i)
        invariant community == old(community) + (if i > 0 then Popped(d, 1) else [])
                                              + (if i > 1 then Popped(d, 2) else [])
                                              + (if i > 2 then Popped(d, 3) else [])
      {
        DealFromDeck(d, 1 + i);
        var card := deck.Deal();
        if card.Some? {
          community := community + [card.value];
        }
      }
      stage := Flop;
      failure := None;
    }

    /** `deal_turn`: only on the flop; burn one card, then deal one if the deck has it. */
    method DealTurn() returns (failure: Option<Error>)
      requires Valid()
      modifies this`community, this`stage, deck
      ensures Valid()
      ensures failure.Some? <==> old(stage) != Flop
      ensures failure.Some? ==>
                failure.value == ValueError("Cannot deal turn - incorrect game stage") &&
                community == old(community) && stage == old(stage) && deck.cards == old(deck.cards)
      ensures failure.None? ==>
                stage == Turn && deck.cards == AfterDeals(old(deck.cards), 2) &&
                community == old(community) + Popped(old(deck.cards), 1)
    {
      if stage != Flop {
        return Some(ValueError("Cannot deal turn - incorrect game stage"));
      }
      ghost var d := deck.cards;
      DealFromDeck(d, 0);
      DealFromDeck(d, 1);
      var burned := deck.Deal();
      var card := deck.Deal();
      if card.Some? {
        community := community + [card.value];
      }
      stage := Turn;
      failure := None;
    }

    /** `deal_river`: only on the turn; burn one card, then deal one if the deck has it. */
    method DealRiver() returns (failure: Option<Error>)
      requires Valid()
      modifies this`community, this`stage, deck
      ensures Valid()
      ensures failure.Some? <==> old(stage) != Turn
      ensures failure.Some? ==>
                failure.value == ValueError("Cannot deal river - incorrect game stage") &&
                community == old(community) && stage == old(stage) && deck.cards == old(deck.cards)
      ensures failure.None? ==>
                stage == River && deck.cards == AfterDeals(old(deck.cards), 2) &&
                community == old(community) + Popped(old(deck.cards), 1)
    {
      if stage != Turn {
        return Some(ValueError("Cannot deal river - incorrect game stage"));
      }
      ghost var d := deck.cards;
      DealFromDeck(d, 0);
      DealFromDeck(d, 1);
      var burned := deck.Deal();
      var card := deck.Deal();
      if card.Some? {
        community := community + [card.value];
      }
      stage := River;
      failure := None;
    }

    /**
     * `create_side_pot`: drop every pot but the main one, then build one pot
     * per distinct all-in contribution from this street's contributions. Its
     * argument is never read and is left out. The result says whether side
     * pots exist.
     */
    method CreateSidePot() returns (split: bool)
      modifies this`pots
      ensures pots == SidePots(old(pots), statuses, allIn, contributions)
      ensures split == (|pots| > 1)
    {
      pots := BuildSidePots(pots, statuses, allIn, contributions);
      split := |pots| > 1;
    }

    /** Lines 275-299 of `process_action`: pay an all-in call of `chips` into the pots; returns the new contribution. */
    method PayAllInCall(seat: nat, chips: int, contribution: int) returns (total: int)
      requires |pots| >= 1
      modifies this`pots
      ensures (pots, total) == AllInCallPots(old(pots), seat, chips, contribution)
    {
      var ps := pots;
      var remaining := chips;
      total := contribution;
      if ps[0].required > 0 {
        var main := Min(remaining, ps[0].required - contribution);
        if main > 0 {
          ps := ps[0 := AddChips(ps[0], main, seat)];
          remaining := remaining - main;
          total := total + main;
        }
      }
      assert (ps, remaining, total) == MainPotShare(pots, seat, chips, contribution);
      ghost var filled := FillSidePots(ps, 1, remaining, total, seat);
      var k := 1;
      while k < |ps| && remaining > 0
        invariant 1 <= k <= |ps|
        invariant FillSidePots(ps, k, remaining, total, seat) == filled
        decreases |ps| - k
      {
        if ps[k].required > total {
          var side := Min(remaining, ps[k].required - total);
          if side > 0 {
            ps := ps[k := AddChips(ps[k], side, seat)];
            remaining := remaining - side;
            total := total + side;
          }
        }
        k := k + 1;
      }
      if remaining > 0 {
        ps := ps[0 := AddChips(ps[0], remaining, seat)];
        total := total + remaining;
      }
      pots := ps;
    }

    /** `move_to_next_player`: step round the table to the next ACTIVE seat, stopping after one lap. */
    method MoveToNextPlayer()
      requires Valid()
      modifies this`current
      ensures Valid()
      ensures current == NextActive(statuses, old(current))
    {
      current := NextActiveSeat(statuses, current);
    }

    /**
     * `is_betting_round_complete`, with the search for the first seat to
     * act stopped after one lap of the table (RoundComplete).
     */
    method IsBettingRoundComplete() returns (done: bool)
      requires Valid()
      ensures done == RoundComplete(View())
      ensures RoundCompleteAsWritten(View()).Some? ==> done == RoundCompleteAsWritten(View()).value
    {
      var t := View();
      if RoundCompleteAsWritten(t).Some? {
        RoundCompleteAgrees(t);
      }
      if CountNonFolded(t.statuses, 6) == 1 {
        return true;
      }
      if CountNotAllIn(t, 6) <= 1 && currentBet == 0 {
        return true;
      }
      var first: Option<nat> := None;
      if stage != Preflop {
        var start := (button + 1) % 6;
        var idx := start;
        var k := 0;
        while first.None? && k < 6
          invariant 0 <= k <= 6 && idx == SeatAfter(start, k)
          invariant first.None? ==> FirstToAct(t, start, k) == FirstToAct(t, start, 0)
          invariant first.Some? ==> first == FirstToAct(t, start, 0)
          decreases 6 - k
        {
          if statuses[idx] == Active && idx !in allIn {
            first := Some(idx);
          }
          SeatAfterStep(start, k);
          idx := (idx + 1) % 6;
          k := k + 1;
        }
      } else {
        first := Some((button + 3) % 6);
      }
      done := Decide(t, first);
    }

    /** `reset_street_bets`: a new street starts with no bet and the seat left of the button to act. */
    method ResetStreetBets()
      requires Valid()
      modifies this`currentBet, this`lastBettor, this`contributions, this`current
      ensures Valid()
      ensures currentBet == 0 && lastBettor == None && contributions == [0, 0, 0, 0, 0, 0]
      ensures current == SeatAfter(button, 1)
    {
      currentBet := 0;
      lastBettor := None;
      contributions := [0, 0, 0, 0, 0, 0];
      current := (button + 1) % 6;
    }

    /**
     * Lines 201-203 of `start_new_hand`: reset, move the button, and deal
     * two hole cards to each seat from the freshly shuffled deck `shuffled`.
     */
    method PrepareHand() returns (ghost shuffled: seq<Card>)
      requires Valid()
      modifies this`community, this`stage, this`pots, this`currentBet, this`allIn, this`button, deck
      modifies this`pockets, this`hands, this`statuses
      ensures Valid()
      ensures multiset(shuffled) == multiset(Deck.CreationOrder())
      ensures button == (old(button) + 1) % 6 && community == [] && stage == Preflop
      ensures deck.cards == AfterDeals(shuffled, 12)
      ensures hands == [[], [], [], [], [], []] && statuses == [Active, Active, Active, Active, Active, Active]
      ensures forall s :: 0 <= s < 6 ==>
                pockets[s] == Popped(shuffled, DealOrder(button, s)) + Popped(shuffled, 6 + DealOrder(button, s))
      ensures pots == [EmptyPot] && currentBet == 0 && allIn == {}
    {
      ResetHand();
      MoveButton();
      shuffled := deck.cards;
      DealHoleCards();
    }

    /** `start_new_hand`: a fresh hand is dealt (PrepareHand) and the blinds are posted. */
    method StartNewHand() returns (ghost shuffled: seq<Card>)
      requires Valid()
      modifies this`community, this`stage, this`pots, this`currentBet, this`allIn, this`button, this`current
      modifies this`lastBettor, this`minRaise, this`contributions, deck
      modifies this`pockets, this`hands, this`statuses, this`chips
      ensures Valid()
      ensures multiset(shuffled) == multiset(Deck.CreationOrder())
      ensures button == (old(button) + 1) % 6 && community == [] && stage == Preflop
      ensures deck.cards == AfterDeals(shuffled, 12)
      ensures hands == [[], [], [], [], [], []] && statuses == [Active, Active, Active, Active, Active, Active]
      ensures forall s :: 0 <= s < 6 ==>
                pockets[s] == Popped(shuffled, DealOrder(button, s)) + Popped(shuffled, 6 + DealOrder(button, s))
      ensures Bets() == AfterBlinds(Betting.Bets(old(chips), statuses, [EmptyPot], 0, {}, old(lastBettor), old(minRaise),
                                                 old(contributions)), button)
      ensures current == SeatAfter(button, 3)
    {
      shuffled := PrepareHand();
      BlindsKeepSound(Bets(), button);
      PostBlinds();
    }

    /**
     * Lines 205-237 of `start_new_hand`: the seats left of the button post
     * the blinds, each capped by the stack. A blind the stack cannot cover
     * is posted short and its seat counts as all-in; a big blind short of
     * the small blind rebuilds the pots from the street contributions still
     * left from the previous hand.
     */
    method PostBlinds()
      modifies this`pots, this`currentBet, this`allIn, this`current
      modifies this`lastBettor, this`minRaise, this`contributions, this`chips
      ensures Bets() == AfterBlinds(old(Bets()), button)
      ensures current == SeatAfter(button, 3)
    {
      var posted := PostedBlinds(Bets(), button);
      chips, pots, allIn, currentBet := posted.chips, posted.pots, posted.allIn, posted.currentBet;
      lastBettor, minRaise, contributions := posted.lastBettor, posted.minRaise, posted.contributions;
      current := (button + 3) % 6;
    }

    /**
     * `process_action`: apply the action of the seat to act, or raise the
     * ValueError of `ActionError` with nothing changed; then pass the turn
     * on and report whether the betting round is complete.
     */
    method ProcessAction(action: Action, amount: Option<int>) returns (r: Result<bool>)
      requires Valid()
      modifies this`pots, this`currentBet, this`allIn, this`lastBettor, this`minRaise, this`contributions, this`current
      modifies this`chips, this`statuses
      ensures Valid()
      ensures var outcome := Act(old(Bets()), old(current), action, amount);
              (outcome.Err? ==> r == Err(outcome.error) && Bets() == old(Bets()) && current == old(current)) &&
              (outcome.Ok? ==>
                 Bets() == outcome.value && current == NextActive(statuses, old(current)) &&
                 r == Ok(RoundComplete(View())))
      ensures r.Ok? && RoundCompleteAsWritten(View()).Some? ==> r == Ok(RoundCompleteAsWritten(View()).value)
    {
      if action == Fold {
        statuses := statuses[current := Folded];
      } else if action == Check {
        if currentBet != 0 {
          return Err(ValueError("Cannot check when there's a bet"));
        }
        contributions := contributions[current := 0];
      } else if action == Call {
        CallCurrent();
      } else {
        if amount.None? || amount.value == 0 {
          return Err(ValueError("Amount required for " + action.Text()));
        }
        if action == Bet && currentBet != 0 {
          return Err(ValueError("Cannot bet when there's already a bet"));
        }
        if action == Raise && currentBet == 0 {
          return Err(ValueError("Cannot raise when there's no bet"));
        }
        var minAmount := if action == Raise then currentBet + minRaise else BigBlind;
        if amount.value < minAmount {
          return Err(ValueError("Minimum " + action.Text() + " is " + IntText(minAmount)));
        }
        BetCurrent(amount.value);
      }
      ActKeepsSound(old(Bets()), old(current), action, amount);
      MoveToNextPlayer();
      var done := IsBettingRoundComplete();
      r := Ok(done);
    }

    /** The CALL branch of `process_action` for the seat to act. */
    method CallCurrent()
      requires Valid()
      modifies this`pots, this`currentBet, this`allIn, this`contributions, this`chips, this`statuses
      ensures current == old(current)
      ensures Bets() == AfterCall(old(Bets()), current)
    {
      var callAmount := CallAmount(currentBet, contributions[current], chips[current]);
      var contribution := contributions[current];
      if callAmount >= chips[current] {
        var allInAmount := chips[current];
        chips := chips[current := 0];
        var total := PayAllInCall(current, allInAmount, contribution);
        contributions := contributions[current := total];
        allIn := allIn + {current};
        statuses := statuses[current := AllIn];
        if total < currentBet {
          var originalBet := currentBet;
          var _ := CreateSidePot();
          currentBet := originalBet;
        }
      } else {
        chips := chips[current := chips[current] - callAmount];
        pots := pots[0 := AddChips(pots[0], callAmount, current)];
        contributions := contributions[current := contributions[current] + callAmount];
      }
    }

    /**
     * The BET and RAISE branch of `process_action` once `amount` has passed
     * validation. When the stack cannot cover the increment, the amount is
     * cut to what the seat can put in, so the side-pot step of lines 342-345
     * never runs: the total put in always equals the cut amount.
     */
    method BetCurrent(amount: int)
      requires Valid()
      modifies this`pots, this`currentBet, this`allIn, this`lastBettor, this`minRaise, this`contributions
      modifies this`chips, this`statuses
      ensures current == old(current)
      ensures Bets() == AfterBet(old(Bets()), current, amount)
    {
      var contribution := contributions[current];
      var stack := chips[current];
      var toAdd := amount - contribution;
      var target := amount;
      if toAdd > stack {
        toAdd := stack;
        target := contribution + toAdd;
      }
      if toAdd >= stack {
        var total := contribution + stack;
        chips, pots := chips[current := 0], pots[0 := AddChips(pots[0], stack, current)];
        contributions, currentBet := contributions[current := total], total;
        allIn, statuses, lastBettor := allIn + {current}, statuses[current := AllIn], Some(current);
        assert total == target;
      } else {
        chips, pots := chips[current := stack - toAdd], pots[0 := AddChips(pots[0], toAdd, current)];
        contributions, currentBet := contributions[current := contribution + toAdd], target;
        lastBettor, minRaise := Some(current), toAdd;
      }
    }
  }
}
