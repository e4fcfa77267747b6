/**
 * What `process_action` of src/game/game.py does to the chips, statuses,
 * pots and street bookkeeping of the table, written as functions on a
 * value. The class method in holdem.dfy is proved to change the table's
 * fields exactly as `Act` says.
 */
module Betting {
  import opened Common
  import opened PlayerStatus
  import opened HoldemRules

  /** The part of the table an action changes, apart from the seat to act next. */
  datatype Bets = Bets(
    chips: seq<int>,
    statuses: seq<Status>,
    pots: seq<Pot>,
    currentBet: int,
    allIn: set<nat>,
    lastBettor: Option<nat>,
    minRaise: int,
    contributions: seq<int>)

  predicate Seated(b: Bets) {
    |b.chips| == 6 && |b.statuses| == 6 && |b.contributions| == 6 && |b.pots| >= 1
  }

  /** The invariant the table keeps: no negative stack, and every ALL_IN seat recorded as all-in. */
  predicate Sound(b: Bets) {
    Seated(b)
    && (forall i :: 0 <= i < 6 ==> b.chips[i] >= 0)
    && (forall i :: 0 <= i < 6 && b.statuses[i] == AllIn ==> i in b.allIn)
  }

  /** The chips on the table: every stack plus every pot. */
  function ChipsInPlay(b: Bets): int {
    SumOf(b.chips) + TotalPot(b.pots)
  }

  /** FOLD: the seat's status becomes FOLDED. */
  function AfterFold(b: Bets, seat: nat): Bets
    requires Seated(b) && seat < 6
  {
    b.(statuses := b.statuses[seat := Folded])
  }

  /** CHECK: the seat's street contribution is set to 0. */
  function AfterCheck(b: Bets, seat: nat): Bets
    requires Seated(b) && seat < 6
  {
    b.(contributions := b.contributions[seat := 0])
  }

  /** Whether a CALL from `seat` is an all-in call (the amount owed is at least the stack). */
  predicate CallIsAllIn(b: Bets, seat: nat)
    requires Seated(b) && seat < 6
  {
    CallAmount(b.currentBet, b.contributions[seat], b.chips[seat]) >= b.chips[seat]
  }

  /** Whether a CALL from `seat` ends with the pots rebuilt by `create_side_pot` (an all-in call short of the bet). */
  predicate CallRebuildsPots(b: Bets, seat: nat)
    requires Seated(b) && seat < 6
  {
    CallIsAllIn(b, seat) && AllInCallPots(b.pots, seat, b.chips[seat], b.contributions[seat]).1 < b.currentBet
  }

  /**
   * CALL (lines 267-310): a call the stack covers moves the amount owed into
   * the main pot; otherwise the whole stack goes in as an all-in call, and
   * the pots are rebuilt when that leaves the seat short of the bet.
   */
  function AfterCall(b: Bets, seat: nat): (r: Bets)
    requires Seated(b) && seat < 6
    ensures Seated(r)
  {
    var c := b.contributions[seat];
    var chips := b.chips[seat];
    var owed := CallAmount(b.currentBet, c, chips);
    if owed >= chips then
      var paid := AllInCallPots(b.pots, seat, chips, c);
      var allInCall := b.(chips := b.chips[seat := 0], pots := paid.0,
                          contributions := b.contributions[seat := paid.1],
                          allIn := b.allIn + {seat}, statuses := b.statuses[seat := AllIn]);
      if paid.1 < b.currentBet then
        allInCall.(pots := SidePots(allInCall.pots, allInCall.statuses, allInCall.allIn, allInCall.contributions))
      else allInCall
    else
      b.(chips := b.chips[seat := chips - owed], pots := b.pots[0 := AddChips(b.pots[0], owed, seat)],
         contributions := b.contributions[seat := c + owed])
  }

  /**
   * BET or RAISE to `amount` once it has passed validation (lines 324-352):
   * an increment below the stack is paid in full; otherwise the
   * whole stack goes in and the bet becomes what the seat has put in.
   */
  function AfterBet(b: Bets, seat: nat, amount: int): (r: Bets)
    requires Seated(b) && seat < 6
    ensures Seated(r)
  {
    var c := b.contributions[seat];
    var chips := b.chips[seat];
    var toAdd := amount - c;
    if toAdd >= chips then
      b.(chips := b.chips[seat := 0], pots := b.pots[0 := AddChips(b.pots[0], chips, seat)],
         contributions := b.contributions[seat := c + chips], currentBet := c + chips,
         allIn := b.allIn + {seat}, statuses := b.statuses[seat := AllIn], lastBettor := Some(seat))
    else
      b.(chips := b.chips[seat := chips - toAdd], pots := b.pots[0 := AddChips(b.pots[0], toAdd, seat)],
         contributions := b.contributions[seat := c + toAdd], currentBet := amount,
         lastBettor := Some(seat), minRaise := toAdd)
  }

  /** Whether posting the blinds ends with the pots rebuilt: the big blind is short of the small blind. */
  predicate BlindsRebuildPots(b: Bets, button: nat)
    requires Seated(b) && button < 6
  {
    var sbAmount := Min(SmallBlind, b.chips[BlindSeat(button, 1)]);
    var bbAmount := Min(BigBlind, b.chips[BlindSeat(button, 2)]);
    bbAmount < BigBlind && bbAmount < sbAmount
  }

  /**
   * The blinds of `start_new_hand` (lines 205-237): the two seats left of
   * the button post the small and the big blind, each capped by its stack;
   * a blind posted short records its seat as all-in, and a big blind short
   * of the small blind rebuilds the pots from the street contributions
   * still standing from the previous hand. The bet to match is the larger
   * blind, and the street contributions become the two blinds.
   */
  function AfterBlinds(b: Bets, button: nat): (r: Bets)
    requires Seated(b) && button < 6
    ensures Seated(r)
  {
    var sb := BlindSeat(button, 1);
    var bb := BlindSeat(button, 2);
    var sbAmount := Min(SmallBlind, b.chips[sb]);
    var bbAmount := Min(BigBlind, b.chips[bb]);
    var main := AddChips(AddChips(b.pots[0], sbAmount, sb), bbAmount, bb);
    var allIn := b.allIn + (if sbAmount < SmallBlind then {sb} else {}) + (if bbAmount < BigBlind then {bb} else {});
    var pots := if BlindsRebuildPots(b, button) then SidePots(b.pots[0 := main], b.statuses, allIn, b.contributions)
                else b.pots[0 := main];
    Bets(b.chips[sb := b.chips[sb] - sbAmount][bb := b.chips[bb] - bbAmount], b.statuses, pots,
         Max(sbAmount, bbAmount), allIn, None, BigBlind, [0, 0, 0, 0, 0, 0][sb := sbAmount][bb := bbAmount])
  }

  /**
   * `process_action` up to the turn passing on: the ValueError it raises,
   * or the table after the action of `seat`. Only that seat's stack,
   * status and contribution can change.
   */
  function Act(b: Bets, seat: nat, action: Action, amount: Option<int>): (r: Result<Bets>)
    requires Seated(b) && seat < 6
    ensures r.Err? <==> ActionError(action, amount, b.currentBet, b.minRaise).Some?
    ensures r.Err? ==> r.error == ActionError(action, amount, b.currentBet, b.minRaise).value
    ensures r.Ok? ==> Seated(r.value)
    ensures r.Ok? ==> forall i :: 0 <= i < 6 && i != seat ==>
                        r.value.chips[i] == b.chips[i] && r.value.statuses[i] == b.statuses[i] &&
                        r.value.contributions[i] == b.contributions[i]
  {
    match ActionError(action, amount, b.currentBet, b.minRaise)
    case Some(e) => Err(e)
    case None =>
      match action
      case Fold => Ok(AfterFold(b, seat))
      case Check => Ok(AfterCheck(b, seat))
      case Call => Ok(AfterCall(b, seat))
      case _ => Ok(AfterBet(b, seat, amount.value))
  }

  // ------------------------------------------------------------ properties

  /**
   * Chips are neither made nor lost by an action: what leaves a stack
   * enters the pots, except when an all-in call rebuilds the pots from the
   * street contributions.
   */
  lemma ActConservesChips(b: Bets, seat: nat, action: Action, amount: Option<int>)
    requires Sound(b) && seat < 6
    requires Act(b, seat, action, amount).Ok?
    requires !(action == Call && CallRebuildsPots(b, seat))
    ensures ChipsInPlay(Act(b, seat, action, amount).value) == ChipsInPlay(b)
  {
    var r := Act(b, seat, action, amount).value;
    var c := b.contributions[seat];
    var chips := b.chips[seat];
    match action
    case Fold =>
    case Check =>
    case Call =>
      var owed := CallAmount(b.currentBet, c, chips);
      if owed >= chips {
        SumOfUpdate(b.chips, seat, 0);
      } else {
        SumOfUpdate(b.chips, seat, chips - owed);
        AddChipsTotal(b.pots, 0, owed, seat);
      }
    case _ =>
      var toAdd := amount.value - c;
      if toAdd >= chips {
        SumOfUpdate(b.chips, seat, 0);
        AddChipsTotal(b.pots, 0, chips, seat);
      } else {
        SumOfUpdate(b.chips, seat, chips - toAdd);
        AddChipsTotal(b.pots, 0, toAdd, seat);
      }
  }

  /** What a CALL, BET or RAISE takes from the stack is added to the seat's street contribution. */
  lemma ActMovesStackToContribution(b: Bets, seat: nat, action: Action, amount: Option<int>)
    requires Sound(b) && seat < 6 && action in {Call, Bet, Raise}
    requires Act(b, seat, action, amount).Ok?
    ensures var r := Act(b, seat, action, amount).value;
            r.chips[seat] + r.contributions[seat] == b.chips[seat] + b.contributions[seat]
  {
  }

  /** Every action keeps the table Sound: stacks stay non-negative and an ALL_IN seat stays recorded as all-in. */
  lemma ActKeepsSound(b: Bets, seat: nat, action: Action, amount: Option<int>)
    requires Sound(b) && seat < 6
    requires Act(b, seat, action, amount).Ok?
    ensures Sound(Act(b, seat, action, amount).value)
  {
    var r := Act(b, seat, action, amount).value;
    assert r.allIn >= b.allIn;
    assert r.chips[seat] >= 0;
  }

  /**
   * A call or bet the stack does not cover leaves the seat ALL_IN with no
   * chips; one it covers leaves a positive stack and the seat ACTIVE as it was.
   */
  lemma ActAllInEmptiesStack(b: Bets, seat: nat, action: Action, amount: Option<int>)
    requires Sound(b) && seat < 6 && action in {Call, Bet, Raise}
    requires Act(b, seat, action, amount).Ok?
    ensures var r := Act(b, seat, action, amount).value;
            (r.statuses[seat] == AllIn && r.chips[seat] == 0 && seat in r.allIn) ||
            (r.statuses[seat] == b.statuses[seat] && r.chips[seat] > 0 && r.allIn == b.allIn)
  {
  }

  /**
   * A bet or raise the stack covers makes `amount` the bet to match and its
   * increment the next minimum raise; one it does not cover makes the bet
   * whatever the seat has put in, and leaves the minimum raise alone.
   */
  lemma BetSetsCurrentBet(b: Bets, seat: nat, action: Action, amount: int)
    requires Sound(b) && seat < 6 && action in {Bet, Raise}
    requires Act(b, seat, action, Some(amount)).Ok?
    ensures var r := Act(b, seat, action, Some(amount)).value;
            r.lastBettor == Some(seat) &&
            (amount - b.contributions[seat] < b.chips[seat] ==>
               r.currentBet == amount && r.minRaise == amount - b.contributions[seat]) &&
            (amount - b.contributions[seat] >= b.chips[seat] ==>
               r.currentBet == r.contributions[seat] && r.minRaise == b.minRaise)
  {
  }

  /**
   * A raise the stack covers is at least `current_bet + min_raise`, so the
   * bet to match rises by at least the minimum raise.
   */
  lemma CoveredRaiseRaisesBet(b: Bets, seat: nat, amount: int)
    requires Sound(b) && seat < 6
    requires Act(b, seat, Raise, Some(amount)).Ok?
    requires amount - b.contributions[seat] < b.chips[seat]
    ensures Act(b, seat, Raise, Some(amount)).value.currentBet >= b.currentBet + b.minRaise
  {
  }

  /** Posting the blinds keeps the table Sound. */
  lemma BlindsKeepSound(b: Bets, button: nat)
    requires Sound(b) && button < 6
    ensures Sound(AfterBlinds(b, button))
  {
    var r := AfterBlinds(b, button);
    assert r.allIn >= b.allIn;
    assert forall i :: 0 <= i < 6 ==> r.chips[i] >= 0;
  }

  /**
   * Each blind is what its seat puts in this street, never more than its
   * stack; a blind posted short empties the stack and records the seat as
   * all-in, and the bet to match is the larger of the two contributions.
   */
  lemma BlindsPostedFromStacks(b: Bets, button: nat)
    requires Sound(b) && button < 6
    ensures var r := AfterBlinds(b, button);
            forall s :: s in {BlindSeat(button, 1), BlindSeat(button, 2)} ==>
              0 <= r.contributions[s] <= b.chips[s] && r.chips[s] == b.chips[s] - r.contributions[s] &&
              (r.contributions[s] < (if s == BlindSeat(button, 1) then SmallBlind else BigBlind) ==>
                 r.chips[s] == 0 && s in r.allIn)
    ensures var r := AfterBlinds(b, button);
            (forall s :: 0 <= s < 6 ==> r.contributions[s] <= r.currentBet) &&
            (exists s :: 0 <= s < 6 && r.contributions[s] == r.currentBet)
  {
    var r := AfterBlinds(b, button);
    var sb := BlindSeat(button, 1);
    var bb := BlindSeat(button, 2);
    assert sb != bb;
    if r.contributions[sb] >= r.contributions[bb] {
      assert r.contributions[sb] == r.currentBet;
    } else {
      assert r.contributions[bb] == r.currentBet;
    }
  }

  /** The blinds move chips from the two stacks into the main pot, unless the pots are rebuilt. */
  lemma BlindsConserveChips(b: Bets, button: nat)
    requires Sound(b) && button < 6 && !BlindsRebuildPots(b, button)
    ensures ChipsInPlay(AfterBlinds(b, button)) == ChipsInPlay(b)
  {
    var sb := BlindSeat(button, 1);
    var bb := BlindSeat(button, 2);
    var sbAmount := Min(SmallBlind, b.chips[sb]);
    var bbAmount := Min(BigBlind, b.chips[bb]);
    var chips1 := b.chips[sb := b.chips[sb] - sbAmount];
    SumOfUpdate(b.chips, sb, b.chips[sb] - sbAmount);
    SumOfUpdate(chips1, bb, b.chips[bb] - bbAmount);
    var p1 := b.pots[0 := AddChips(b.pots[0], sbAmount, sb)];
    AddChipsTotal(b.pots, 0, sbAmount, sb);
    AddChipsTotal(p1, 0, bbAmount, bb);
    assert p1[0 := AddChips(p1[0], bbAmount, bb)] == AfterBlinds(b, button).pots;
  }

  /**
   * An all-in raise for less than the bet lowers the bet to match (line
   * 337): a seat with 50 chips facing a bet of 100 that raises to 200 leaves
   * a bet of 50.
   */
  lemma ShortAllInRaiseLowersBet()
    ensures var b := Bets([50, 100, 100, 100, 100, 100], [Active, Active, Active, Active, Active, Active],
                          [Pot(100, {1}, 0)], 100, {}, Some(1), 100, [0, 100, 0, 0, 0, 0]);
            Act(b, 0, Raise, Some(200)) == Ok(AfterBet(b, 0, 200)) &&
            AfterBet(b, 0, 200).currentBet == 50 < b.currentBet
  {
    var b := Bets([50, 100, 100, 100, 100, 100], [Active, Active, Active, Active, Active, Active],
                  [Pot(100, {1}, 0)], 100, {}, Some(1), 100, [0, 100, 0, 0, 0, 0]);
    assert ActionError(Raise, Some(200), 100, 100) == None;
  }
}
