/**
 * The earlier single-pot table of src/game.py. Each seat keeps a stack and
 * an `is_active` flag; every chip bet goes into the one `pot`. The blinds
 * are taken in full whatever the stack, the only check of a bet against a
 * stack is "Not enough chips", and a call is capped at the stack.
 */
module LegacyHoldem {
  import opened Common
  import opened PlayerStatus
  import opened HoldemRules

  type SeatIndex = n: nat | n < 6
  type Stacks = s: seq<int> | |s| == 6 witness [0, 0, 0, 0, 0, 0]
  type Flags = s: seq<bool> | |s| == 6 witness [true, true, true, true, true, true]

  const AllActive: Flags := [true, true, true, true, true, true]
  const NoContributions: Stacks := [0, 0, 0, 0, 0, 0]

  // -------------------------------------------------------- active seats

  /** `len(get_active_players())`. */
  function CountActive(active: seq<bool>): (n: nat)
    ensures n <= |active|
    ensures n == 0 <==> true !in active
  {
    if active == [] then 0 else (if active[0] then 1 else 0) + CountActive(active[1..])
  }

  /** `get_active_players()[0]`: the lowest-numbered active seat. */
  function FirstActive(active: seq<bool>): (i: nat)
    requires true in active
    ensures i < |active| && active[i]
    ensures forall j :: 0 <= j < i ==> !active[j]
  {
    if active[0] then 0 else 1 + FirstActive(active[1..])
  }

  /** When exactly one seat is active, `get_active_players()[0]` is that seat and no other seat is active. */
  lemma {:induction false} SoleActiveSeat(active: seq<bool>)
    requires CountActive(active) == 1
    ensures true in active
    ensures forall j :: 0 <= j < |active| && j != FirstActive(active) ==> !active[j]
  {
    if active[0] {
      assert CountActive(active[1..]) == 0;
      forall j | 0 < j < |active| ensures !active[j] {
        assert active[1..][j - 1] == active[j];
      }
    } else {
      assert CountActive(active[1..]) == 1;
      SoleActiveSeat(active[1..]);
      assert active[1..][FirstActive(active[1..])] == active[FirstActive(active[1..]) + 1];
      assert FirstActive(active) == FirstActive(active[1..]) + 1;
      forall j | 0 < j < |active| && j != FirstActive(active) ensures !active[j] {
        assert active[1..][j - 1] == active[j];
      }
    }
  }

  /** The flags read as statuses, so that the seat search of the six-seat engine applies: `is_active` is ACTIVE, otherwise FOLDED. */
  function Statuses(active: seq<bool>): (s: seq<Status>)
    ensures |s| == |active|
    ensures forall i :: 0 <= i < |active| ==> (s[i] == Active <==> active[i])
  {
    seq(|active|, i requires 0 <= i < |active| => if active[i] then Active else Folded)
  }

  /** The seat search of `move_to_next_player` ends on an active seat whenever one exists. */
  lemma NextActiveIsActive(active: seq<bool>, from: nat)
    requires |active| == 6 && from < 6 && true in active
    ensures NextActive(Statuses(active), from) < 6
    ensures active[NextActive(Statuses(active), from)]
  {
    var statuses := Statuses(active);
    var r := NextActive(statuses, from);
    NextActiveIsNearest(statuses, from);
    var s :| 0 <= s < 6 && active[s];
  }

  // ------------------------------------------------------------- betting

  /** The fields an action changes: the stacks, the `is_active` flags, the pot and the street bookkeeping. */
  datatype Round = Round(
    chips: seq<int>,
    active: seq<bool>,
    pot: int,
    currentBet: int,
    lastBettor: Option<nat>,
    minRaise: int,
    contributions: seq<int>)

  predicate Seated(r: Round) {
    |r.chips| == 6 && |r.active| == 6 && |r.contributions| == 6
  }

  /** The chips at the table: the stacks and the pot. */
  function ChipsInPlay(r: Round): int {
    SumOf(r.chips) + r.pot
  }

  /**
   * The stacks after lines 137 and 141 of `start_new_hand`: the small blind
   * comes out of seat sb, then the big blind out of seat bb, each in full.
   */
  function TakeBlinds(chips: seq<int>, sb: nat, bb: nat): (r: seq<int>)
    requires sb < |chips| && bb < |chips|
    ensures |r| == |chips|
    ensures SumOf(r) == SumOf(chips) - SmallBlind - BigBlind
  {
    var afterSmall := chips[sb := chips[sb] - SmallBlind];
    SumOfUpdate(chips, sb, chips[sb] - SmallBlind);
    SumOfUpdate(afterSmall, bb, afterSmall[bb] - BigBlind);
    afterSmall[bb := afterSmall[bb] - BigBlind]
  }

  /**
   * Lines 133-151 of `start_new_hand`, on the stacks left by the previous
   * hand, after `reset_hand` has emptied the pot and made every seat active
   * and `move_button` has moved the button. The blinds are subtracted in
   * full, whatever the stack.
   */
  function HandStart(chips: seq<int>, button: nat): (r: Round)
    requires |chips| == 6 && button < 6
    ensures Seated(r) && r.active == AllActive
    ensures r.pot == SmallBlind + BigBlind && r.currentBet == BigBlind
    ensures r.lastBettor == None && r.minRaise == BigBlind
  {
    var sb := BlindSeat(button, 1);
    var bb := BlindSeat(button, 2);
    Round(TakeBlinds(chips, sb, bb), AllActive,
          SmallBlind + BigBlind, BigBlind, None, BigBlind,
          NoContributions[sb := SmallBlind][bb := BigBlind])
  }

  /**
   * The blinds come out of the two seats left of the button and nowhere
   * else, in full even when that leaves a stack below zero.
   */
  lemma HandStartTakesFullBlinds(chips: seq<int>, button: nat)
    requires |chips| == 6 && button < 6
    ensures var r := HandStart(chips, button);
            var sb := SeatAfter(button, 1);
            var bb := SeatAfter(button, 2);
            r.chips[sb] == chips[sb] - SmallBlind && r.chips[bb] == chips[bb] - BigBlind &&
            (chips[sb] < SmallBlind ==> r.chips[sb] < 0) &&
            (chips[bb] < BigBlind ==> r.chips[bb] < 0) &&
            r.contributions[sb] == SmallBlind && r.contributions[bb] == BigBlind &&
            (forall s :: 0 <= s < 6 && s != sb && s != bb ==> r.chips[s] == chips[s] && r.contributions[s] == 0)
  {
    BlindSeatIsSeatAfter(button);
  }

  /** What the blinds take from the stacks is what the pot holds: the chips at the table are unchanged. */
  lemma HandStartConservesChips(chips: seq<int>, button: nat)
    requires |chips| == 6 && button < 6
    ensures ChipsInPlay(HandStart(chips, button)) == SumOf(chips)
  {
  }

  /**
   * `get_available_actions`: FOLD always; CHECK and BET when there is no
   * bet; otherwise CALL and RAISE together, when the whole bet is below the
   * stack. The legacy player module is not part of this model; the model
   * takes the `getattr` default of 0 for `current_bet`, which makes the
   * amount to call the whole current bet whatever the seat has put in.
   */
  function LegacyAvailable(currentBet: int, chips: int): (acts: seq<Action>)
    ensures |acts| >= 1 && acts[0] == Fold
    ensures Check in acts <==> currentBet == 0
    ensures Bet in acts <==> currentBet == 0
    ensures Call in acts <==> currentBet != 0 && currentBet < chips
    ensures Raise in acts <==> Call in acts
    ensures NoDuplicates(acts)
  {
    [Fold] +
    if currentBet == 0 then [Check, Bet]
    else if currentBet < chips then [Call, Raise]
    else []
  }

  /**
   * The two tables offer different actions: a seat with exactly the 20
   * chips it owes may call at the six-seat table but may only fold here,
   * and a stack of zero may bet here but not there.
   */
  lemma LegacyOffersDiffer()
    ensures Call in AvailableActions(20, 20, 0) && Call !in LegacyAvailable(20, 20)
    ensures Bet in LegacyAvailable(0, 0) && Bet !in AvailableActions(0, 0, 0)
  {
  }

  /** The ValueError the single-pot `process_action` raises before any change, if any. */
  function LegacyError(b: Round, seat: nat, action: Action, amount: Option<int>): (e: Option<Error>)
    requires Seated(b) && seat < 6
    ensures e.None? <==>
              ActionError(action, amount, b.currentBet, b.minRaise).None? &&
              (action in {Bet, Raise} ==> amount.value - b.contributions[seat] <= b.chips[seat])
    ensures action in {Fold, Call} ==> e.None?
  {
    match ActionError(action, amount, b.currentBet, b.minRaise)
    case Some(err) => Some(err)
    case None =>
      if action in {Bet, Raise} && amount.value - b.contributions[seat] > b.chips[seat] then Some(ValueError("Not enough chips"))
      else None
  }

  /**
   * `process_action` before the turn passes, for the seat `seat`. A bet or
   * raise sets `min_raise` to `amount - current_bet` after `current_bet`
   * has become `amount`, so it is always 0.
   */
  function LegacyAct(b: Round, seat: nat, action: Action, amount: Option<int>): (r: Result<Round>)
    requires Seated(b) && seat < 6
    ensures r.Err? <==> LegacyError(b, seat, action, amount).Some?
    ensures r.Err? ==> r.error == LegacyError(b, seat, action, amount).value
    ensures r.Ok? ==> Seated(r.value)
  {
    match LegacyError(b, seat, action, amount)
    case Some(err) => Err(err)
    case None =>
      match action
      case Fold => Ok(b.(active := b.active[seat := false]))
      case Check => Ok(b.(contributions := b.contributions[seat := 0]))
      case Call =>
        var owed := b.currentBet - b.contributions[seat];
        var paid := if owed > b.chips[seat] then b.chips[seat] else owed;
        Ok(b.(chips := b.chips[seat := b.chips[seat] - paid], pot := b.pot + paid,
              contributions := b.contributions[seat := b.contributions[seat] + paid]))
      case _ =>
        var needed := amount.value - b.contributions[seat];
        Ok(b.(chips := b.chips[seat := b.chips[seat] - needed], pot := b.pot + needed,
              currentBet := amount.value, contributions := b.contributions[seat := amount.value],
              lastBettor := Some(seat), minRaise := 0))
  }

  /** Every action that goes through moves chips between the acting stack and the pot, and no chip appears or disappears. */
  lemma LegacyActConservesChips(b: Round, seat: nat, action: Action, amount: Option<int>)
    requires Seated(b) && seat < 6 && LegacyAct(b, seat, action, amount).Ok?
    ensures var r := LegacyAct(b, seat, action, amount).value;
            ChipsInPlay(r) == ChipsInPlay(b) &&
            r.pot - b.pot == b.chips[seat] - r.chips[seat] &&
            forall s :: 0 <= s < 6 && s != seat ==> r.chips[s] == b.chips[s]
  {
    var r := LegacyAct(b, seat, action, amount).value;
    SumOfUpdate(b.chips, seat, r.chips[seat]);
    assert r.chips == b.chips[seat := r.chips[seat]];
  }

  /**
   * A call pays what is owed on the street, capped at the stack; the same
   * amount leaves the stack, enters the pot and is added to the seat's
   * contribution.
   */
  lemma LegacyCallIsCapped(b: Round, seat: nat)
    requires Seated(b) && seat < 6
    ensures LegacyAct(b, seat, Call, None).Ok?
    ensures var r := LegacyAct(b, seat, Call, None).value;
            var paid := b.chips[seat] - r.chips[seat];
            paid == Min(b.currentBet - b.contributions[seat], b.chips[seat]) &&
            r.pot == b.pot + paid &&
            r.contributions[seat] == b.contributions[seat] + paid &&
            r.currentBet == b.currentBet && r.active == b.active
  {
  }

  /**
   * A bet or raise is refused, with nothing changed, when the amount is
   * missing or zero, when it does not fit the bet on the table, when it is
   * under the minimum, or when it needs more than the stack.
   */
  lemma LegacyBetRefusals(b: Round, seat: nat, action: Action, amount: Option<int>)
    requires Seated(b) && seat < 6 && action in {Bet, Raise}
    ensures LegacyAct(b, seat, action, amount).Err? <==>
              amount.None? || amount.value == 0 ||
              (action == Bet && b.currentBet != 0) || (action == Raise && b.currentBet == 0) ||
              amount.value < MinAmount(action, b.currentBet, b.minRaise) ||
              amount.value - b.contributions[seat] > b.chips[seat]
  {
  }

  /**
   * A bet or raise that goes through makes `amount` both the bet on the
   * table and the seat's contribution, records the seat as last bettor,
   * leaves its stack non-negative if it was, and leaves `min_raise` at 0,
   * so that the next raise need only match the bet.
   */
  lemma LegacyBetSetsBet(b: Round, seat: nat, action: Action, amount: Option<int>)
    requires Seated(b) && seat < 6 && action in {Bet, Raise} && LegacyAct(b, seat, action, amount).Ok?
    ensures amount.Some?
    ensures var r := LegacyAct(b, seat, action, amount).value;
            r.currentBet == amount.value && r.contributions[seat] == amount.value &&
            r.chips[seat] == b.chips[seat] - (amount.value - b.contributions[seat]) && r.chips[seat] >= 0 &&
            r.lastBettor == Some(seat) && r.minRaise == 0 &&
            MinAmount(Raise, r.currentBet, r.minRaise) == r.currentBet
  {
  }

  /** A fold always goes through and clears only the acting seat's flag. */
  lemma LegacyFoldDeactivates(b: Round, seat: nat)
    requires Seated(b) && seat < 6
    ensures LegacyAct(b, seat, Fold, None).Ok?
    ensures var r := LegacyAct(b, seat, Fold, None).value;
            !r.active[seat] && (forall s :: 0 <= s < 6 && s != seat ==> r.active[s] == b.active[s]) &&
            r.chips == b.chips && r.pot == b.pot
  {
  }

  // ------------------------------------------------------ round complete

  /**
   * The seat `is_betting_round_complete` counts from: after the flop, the
   * first active seat from the one left of the button (None when there is
   * none, and its search never ends); before the flop, UTG.
   */
  function LegacyFirstToAct(active: seq<bool>, stage: Stage, button: nat): (r: Option<nat>)
    requires |active| == 6 && button < 6
    ensures r.None? <==> stage != Preflop && true !in active
    ensures r.Some? ==> r.value < 6
    ensures r.Some? && stage != Preflop ==> active[r.value]
  {
    if stage != Preflop then
      if true in active then
        NextActiveIsActive(active, button);
        Some(NextActive(Statuses(active), button))
      else None
    else Some(SeatAfter(button, 3))
  }

  /** Every active seat has put exactly the current bet in on this street. */
  predicate AllMatched(r: Round)
    requires Seated(r)
  {
    forall i :: 0 <= i < 6 && r.active[i] ==> r.contributions[i] == r.currentBet
  }

  /**
   * `is_betting_round_complete`; None where it never returns, which is
   * after the flop with no seat active.
   */
  function LegacyRoundComplete(r: Round, stage: Stage, button: nat, current: nat): (done: Option<bool>)
    requires Seated(r) && button < 6
    ensures done.None? <==> stage != Preflop && true !in r.active
    ensures CountActive(r.active) == 1 ==> done == Some(true)
    ensures done == Some(true) && CountActive(r.active) != 1 && r.currentBet != 0 ==> AllMatched(r)
  {
    if CountActive(r.active) == 1 then Some(true)
    else
      match LegacyFirstToAct(r.active, stage, button)
      case None => None
      case Some(first) =>
        var bb := SeatAfter(button, 2);
        if r.currentBet == 0 then
          Some(current == first && forall i :: 0 <= i < 6 && r.active[i] ==> r.contributions[i] >= 0)
        else if stage == Preflop && r.currentBet == BigBlind && r.active[bb] && AllMatched(r) && r.lastBettor.None? then
          Some(current != bb)
        else Some(AllMatched(r))
  }

  /** With more than one seat active and some active seat behind the bet, the round goes on. */
  lemma LegacyUnmatchedContinues(r: Round, stage: Stage, button: nat, current: nat, i: nat)
    requires Seated(r) && button < 6 && i < 6
    requires CountActive(r.active) != 1 && r.currentBet != 0
    requires r.active[i] && r.contributions[i] != r.currentBet
    ensures LegacyRoundComplete(r, stage, button, current) == Some(false)
  {
  }

  /**
   * Before the flop, with only the blinds in and every active seat level
   * with the big blind, the round is over unless the turn has come back
   * to the big blind, which may still raise.
   */
  lemma LegacyBigBlindOption(r: Round, button: nat, current: nat)
    requires Seated(r) && button < 6 && CountActive(r.active) != 1
    requires r.currentBet == BigBlind && r.active[SeatAfter(button, 2)] && AllMatched(r) && r.lastBettor == None
    ensures LegacyRoundComplete(r, Preflop, button, current) == Some(current != SeatAfter(button, 2))
  {
  }

  // ------------------------------------------------------------ the award

  /** Line 336-340 of `play_hand`: when exactly one seat is still active, its stack takes the whole pot. */
  function Awarded(chips: seq<int>, active: seq<bool>, pot: int): (r: seq<int>)
    requires |chips| == |active|
    ensures |r| == |chips|
  {
    if CountActive(active) == 1 then chips[FirstActive(active) := chips[FirstActive(active)] + pot] else chips
  }

  /**
   * The award goes to the one active seat and to no other, and adds the
   * pot to the stacks; the pot itself is left as it was. With no seat or
   * several seats active nothing is paid.
   */
  lemma AwardGoesToSoleSurvivor(chips: seq<int>, active: seq<bool>, pot: int)
    requires |chips| == |active|
    ensures var r := Awarded(chips, active, pot);
            (CountActive(active) == 1 ==>
               (exists w :: 0 <= w < |active| && active[w] && r[w] == chips[w] + pot) &&
               (forall s :: 0 <= s < |active| && active[s] ==> r[s] == chips[s] + pot) &&
               (forall s :: 0 <= s < |active| && !active[s] ==> r[s] == chips[s]) &&
               SumOf(r) == SumOf(chips) + pot) &&
            (CountActive(active) != 1 ==> r == chips)
  {
    if CountActive(active) == 1 {
      SoleActiveSeat(active);
      var w := FirstActive(active);
      SumOfUpdate(chips, w, chips[w] + pot);
    }
  }

  // ------------------------------------------------------------ the table

  /**
   * Lines 171-215 of `process_action` for seat `seat`, branch by branch:
   * every ValueError is raised before anything changes.
   */
  method ActionStep(b: Round, seat: nat, action: Action, amount: Option<int>) returns (r: Result<Round>)
    requires Seated(b) && seat < 6
    ensures r == LegacyAct(b, seat, action, amount)
  {
    match action {
      case Fold =>
        r := Ok(b.(active := b.active[seat := false]));
      case Check =>
        if b.currentBet != 0 {
          return Err(ValueError("Cannot check when there's a bet"));
        }
        r := Ok(b.(contributions := b.contributions[seat := 0]));
      case Call =>
        var owed := b.currentBet - b.contributions[seat];
        if owed > b.chips[seat] {
          owed := b.chips[seat];
        }
        var chips := b.chips[seat := b.chips[seat] - owed];
        var contributions := b.contributions[seat := b.contributions[seat] + owed];
        r := Ok(b.(chips := chips, pot := b.pot + owed, contributions := contributions));
      case _ =>
        var refusal := ActionError(action, amount, b.currentBet, b.minRaise);
        if refusal.Some? {
          return Err(refusal.value);
        }
        var needed := amount.value - b.contributions[seat];
        if needed > b.chips[seat] {
          return Err(ValueError("Not enough chips"));
        }
        var chips := b.chips[seat := b.chips[seat] - needed];
        var currentBet := amount.value;
        var contributions := b.contributions[seat := amount.value];
        r := Ok(Round(chips, b.active, b.pot + needed, currentBet, Some(seat), amount.value - currentBet, contributions));
    }
  }


  /**
   * The search of lines 239-243 of `is_betting_round_complete`: from the
   * seat left of the button, one seat at a time until a seat is active. It
   * ends only because some seat is.
   */
  method FirstActiveFrom(active: seq<bool>, button: nat) returns (first: nat)
    requires |active| == 6 && button < 6 && true in active
    ensures first == NextActive(Statuses(active), button)
  {
    ghost var statuses := Statuses(active);
    ghost var n := StepsToActive(statuses, button, 1);
    NextActiveIsActive(active, button);
    var idx := (button + 1) % 6;
    SeatAfterStep(button, 0);
    var found: Option<nat> := None;
    ghost var k := 1;
    while found.None?
      invariant 1 <= k <= n + 1
      invariant found.None? ==> k <= n && idx == SeatAfter(button, k)
      invariant found.Some? ==> found.value == NextActive(statuses, button)
      decreases n + 1 - k
    {
      if active[idx] {
        found := Some(idx);
      }
      SeatAfterStep(button, k);
      idx := (idx + 1) % 6;
      k := k + 1;
    }
    first := found.value;
  }


  /** The ValueError of `__init__`, or the table it builds. */
  method NewLegacyTable(names: seq<string>, startingChips: int) returns (r: Result<LegacyTable>)
    ensures r.Err? <==> |names| != 6
    ensures r.Err? ==> r.error == ValueError("Texas Hold'em requires exactly 6 players")
    ensures r.Ok? ==> fresh(r.value) && r.value.names == names &&
                      r.value.chips == [startingChips, startingChips, startingChips, startingChips, startingChips, startingChips]
  {
    if |names| != 6 {
      return Err(ValueError("Texas Hold'em requires exactly 6 players"));
    }
    var table := new LegacyTable(names, startingChips);
    r := Ok(table);
  }

  /**
   * The single-pot `TexasHoldem` of src/game.py, seat by seat. The cards
   * are left out: the deck and player modules it imports are not part of
   * this model.
   */
  class LegacyTable {
    const names: seq<string>
    /** Seat i's `chips` and `is_active`. */
    var chips: Stacks
    var active: Flags
    var stage: Stage
    var button: SeatIndex
    var current: SeatIndex
    var pot: int
    var currentBet: int
    var lastBettor: Option<nat>
    var minRaise: int
    /** `street_contributions`, indexed by seat. */
    var contributions: Stacks

    /** The fields an action changes, apart from the seat to act. */
    function Bets(): (r: Round)
      reads this`chips, this`active, this`pot, this`currentBet, this`lastBettor, this`minRaise, this`contributions
      ensures Seated(r)
    {
      Round(chips, active, pot, currentBet, lastBettor, minRaise, contributions)
    }

    /** `get_available_actions` for the seat to act. */
    function AvailableNow(): (acts: seq<Action>)
      reads this`currentBet, this`chips, this`current
      ensures acts == LegacyAvailable(currentBet, chips[current])
    {
      LegacyAvailable(currentBet, chips[current])
    }

    /**
     * `__init__` once the name list has passed its check: every seat starts
     * with `starting_chips`. The street bookkeeping that `start_new_hand`
     * sets up is given its start-of-hand values here.
     */
    constructor (names: seq<string>, startingChips: int)
      requires |names| == 6
      ensures this.names == names
      ensures chips == [startingChips, startingChips, startingChips, startingChips, startingChips, startingChips]
      ensures active == AllActive && stage == Preflop && button == 0 && current == 0
      ensures pot == 0 && currentBet == 0 && lastBettor == None && minRaise == BigBlind
      ensures contributions == NoContributions
    {
      this.names := names;
      chips := [startingChips, startingChips, startingChips, startingChips, startingChips, startingChips];
      active := AllActive;
      stage := Preflop;
      button := 0;
      current := 0;
      pot := 0;
      currentBet := 0;
      lastBettor := None;
      minRaise := BigBlind;
      contributions := NoContributions;
    }

    /**
     * `start_new_hand`: `reset_hand` (pot and bet to 0, every seat active,
     * the stage back to PREFLOP), `move_button`, then the blinds, and UTG
     * to act.
     */
    method StartNewHand()
      modifies this`chips, this`active, this`stage, this`button, this`current, this`pot
      modifies this`currentBet, this`lastBettor, this`minRaise, this`contributions
      ensures button == SeatAfter(old(button), 1)
      ensures Bets() == HandStart(old(chips), button)
      ensures stage == Preflop && current == SeatAfter(button, 3)
    {
      var moved := (button + 1) % 6;
      BlindSeatIsSeatAfter(moved);
      var sb := (moved + 1) % 6;
      var bb := (moved + 2) % 6;
      var stacks := chips[sb := chips[sb] - SmallBlind];
      stacks := stacks[bb := stacks[bb] - BigBlind];
      stage, active, button := Preflop, AllActive, moved;
      chips, pot, currentBet := stacks, 0 + SmallBlind + BigBlind, BigBlind;
      current, lastBettor, minRaise := (moved + 3) % 6, None, BigBlind;
      contributions := NoContributions[sb := SmallBlind][bb := BigBlind];
    }

    /** `move_to_next_player`: step round the table to the next active seat, stopping after one lap. */
    method MoveToNextPlayer()
      modifies this`current
      ensures current == NextActive(Statuses(active), old(current))
    {
      ghost var statuses := Statuses(active);
      var from: nat := current;
      SeatAfterStep(from, 0);
      var seat: nat := (from + 1) % 6;
      ghost var k := 1;
      while !active[seat] && seat != from
        invariant 1 <= k <= 6 && seat == SeatAfter(from, k)
        invariant StepsToActive(statuses, from, k) == StepsToActive(statuses, from, 1)
        decreases 6 - k
      {
        SeatAfterBack(from, k);
        SeatAfterStep(from, k);
        seat := (seat + 1) % 6;
        k := k + 1;
      }
      SeatAfterBack(from, k);
      current := seat;
    }

    /**
     * `is_betting_round_complete`. After the flop its search for the first
     * seat to act only ends if some seat is active, which the caller must
     * ensure.
     */
    method IsBettingRoundComplete() returns (done: bool)
      requires stage == Preflop || true in active
      ensures LegacyRoundComplete(Bets(), stage, button, current) == Some(done)
    {
      if CountActive(active) == 1 {
        return true;
      }
      var first: nat;
      if stage != Preflop {
        first := FirstActiveFrom(active, button);
      } else {
        first := (button + 3) % 6;
      }
      assert LegacyFirstToAct(active, stage, button) == Some(first);
      var bb := (button + 2) % 6;
      if currentBet == 0 {
        done := current == first && forall i :: 0 <= i < 6 && active[i] ==> contributions[i] >= 0;
      } else {
        var allMatched := forall i :: 0 <= i < 6 && active[i] ==> contributions[i] == currentBet;
        if stage == Preflop && currentBet == BigBlind && active[bb] && allMatched && lastBettor.None? {
          return current != bb;
        }
        done := allMatched;
      }
    }

    /** Lines 171-215 of `process_action` on the table: the action's effect, or its ValueError with nothing changed. */
    method ApplyAction(action: Action, amount: Option<int>) returns (refusal: Option<Error>)
      modifies this`chips, this`active, this`pot
      modifies this`currentBet, this`lastBettor, this`minRaise, this`contributions
      ensures refusal == LegacyError(old(Bets()), current, action, amount)
      ensures refusal.Some? ==> Bets() == old(Bets())
      ensures refusal.None? ==> Bets() == LegacyAct(old(Bets()), current, action, amount).value
      ensures active == if refusal.None? && action == Fold then old(active)[current := false] else old(active)
    {
      var step := ActionStep(Bets(), current, action, amount);
      if step.Err? {
        return Some(step.error);
      }
      var next := step.value;
      chips, active, pot, currentBet := next.chips, next.active, next.pot, next.currentBet;
      lastBettor, minRaise, contributions := next.lastBettor, next.minRaise, next.contributions;
      refusal := None;
    }

    /**
     * `process_action` for the seat to act: the action's effect (or its
     * ValueError, with nothing changed), then the turn passes and the
     * result says whether the round is over. After the flop the end-of-round
     * test only returns if some seat is still active after the action.
     */
    method ProcessAction(action: Action, amount: Option<int>) returns (r: Result<bool>)
      requires stage == Preflop || exists s :: 0 <= s < 6 && active[s] && !(action == Fold && s == current)
      modifies this`chips, this`active, this`current, this`pot
      modifies this`currentBet, this`lastBettor, this`minRaise, this`contributions
      ensures r.Err? ==> Bets() == old(Bets()) && current == old(current) &&
                         LegacyAct(old(Bets()), old(current), action, amount) == Err(r.error)
      ensures r.Ok? ==> LegacyAct(old(Bets()), old(current), action, amount) == Ok(Bets()) &&
                        current == NextActive(Statuses(active), old(current)) &&
                        LegacyRoundComplete(Bets(), stage, button, current) == Some(r.value)
    {
      var refusal := ApplyAction(action, amount);
      if refusal.Some? {
        return Err(refusal.value);
      }
      ghost var s :| 0 <= s < 6 && (stage == Preflop || (old(active)[s] && !(action == Fold && s == current)));
      assert stage != Preflop ==> active[s];
      MoveToNextPlayer();
      var done := IsBettingRoundComplete();
      r := Ok(done);
    }

    /** `reset_street_bets`: no bet, no contributions, and the seat left of the button to act. */
    method ResetStreetBets()
      modifies this`currentBet, this`lastBettor, this`contributions, this`current
      ensures currentBet == 0 && lastBettor == None && contributions == NoContributions
      ensures current == SeatAfter(button, 1)
    {
      currentBet := 0;
      lastBettor := None;
      contributions := NoContributions;
      current := (button + 1) % 6;
    }

    /** The stage steps of `deal_flop`; burning and dealing the cards are left out with the deck. */
    method DealFlop() returns (failure: Option<Error>)
      modifies this`stage
      ensures old(stage) == Preflop ==> failure == None && stage == Flop
      ensures old(stage) != Preflop ==> failure == Some(ValueError("Cannot deal flop - incorrect game stage")) && stage == old(stage)
    {
      if stage != Preflop {
        return Some(ValueError("Cannot deal flop - incorrect game stage"));
      }
      stage := Flop;
      failure := None;
    }

    /** The stage steps of `deal_turn`. */
    method DealTurn() returns (failure: Option<Error>)
      modifies this`stage
      ensures old(stage) == Flop ==> failure == None && stage == Turn
      ensures old(stage) != Flop ==> failure == Some(ValueError("Cannot deal turn - incorrect game stage")) && stage == old(stage)
    {
      if stage != Flop {
        return Some(ValueError("Cannot deal turn - incorrect game stage"));
      }
      stage := Turn;
      failure := None;
    }

    /** The stage steps of `deal_river`. */
    method DealRiver() returns (failure: Option<Error>)
      modifies this`stage
      ensures old(stage) == Turn ==> failure == None && stage == River
      ensures old(stage) != Turn ==> failure == Some(ValueError("Cannot deal river - incorrect game stage")) && stage == old(stage)
    {
      if stage != Turn {
        return Some(ValueError("Cannot deal river - incorrect game stage"));
      }
      stage := River;
      failure := None;
    }

    /** The pot award at the end of `play_hand`. */
    method AwardPot()
      modifies this`chips
      ensures chips == Awarded(old(chips), active, pot)
    {
      if CountActive(active) == 1 {
        var winner := FirstActive(active);
        chips := chips[winner := chips[winner] + pot];
      }
    }
  }
}
