/**
 * The pure rules of the six-seat table in src/game/game.py: seat arithmetic
 * modulo 6, the actions a player is offered, the call amount, the seat the
 * turn passes to, the end-of-round test, the check applied to a bot's
 * decision, and the arithmetic of pots and side pots.
 */
module HoldemRules {
  import opened Common
  import opened PlayerStatus

  const SeatCount: nat := 6
  const SmallBlind: int := 10
  const BigBlind: int := 20

  datatype Stage = Preflop | Flop | Turn | River | Showdown

  datatype Action = Fold | Check | Call | Bet | Raise {
    /** The enum member's string value. */
    function Text(): string {
      match this
      case Fold => "fold"
      case Check => "check"
      case Call => "call"
      case Bet => "bet"
      case Raise => "raise"
    }
  }

  /** `Action(s)`: the member whose value is s; None where Python raises ValueError. */
  function ParseAction(s: string): (r: Option<Action>)
    ensures r.Some? ==> r.value.Text() == s
    ensures r.None? ==> forall a: Action :: a.Text() != s
  {
    if s == "fold" then Some(Fold)
    else if s == "check" then Some(Check)
    else if s == "call" then Some(Call)
    else if s == "bet" then Some(Bet)
    else if s == "raise" then Some(Raise)
    else None
  }

  // ---------------------------------------------------------------- pots

  /** A pot: its chips, the seats that paid into it, and a required amount no code path raises above 0. */
  datatype Pot = Pot(amount: int, eligible: set<nat>, required: int)

  const EmptyPot: Pot := Pot(0, {}, 0)

  /** `Pot.add_chips`. */
  function AddChips(p: Pot, chips: int, seat: nat): Pot {
    p.(amount := p.amount + chips, eligible := p.eligible + {seat})
  }

  /** `get_total_pot`: the chips in all pots together. */
  function TotalPot(pots: seq<Pot>): int {
    if pots == [] then 0 else TotalPot(pots[..|pots| - 1]) + pots[|pots| - 1].amount
  }

  /** Replacing one pot changes the total by the difference of the two amounts. */
  lemma {:induction false} TotalPotUpdate(pots: seq<Pot>, k: nat, p: Pot)
    requires k < |pots|
    ensures TotalPot(pots[k := p]) == TotalPot(pots) - pots[k].amount + p.amount
    decreases |pots|
  {
    var q := pots[k := p];
    if k < |pots| - 1 {
      assert q[..|q| - 1] == pots[..|pots| - 1][k := p];
      TotalPotUpdate(pots[..|pots| - 1], k, p);
    } else {
      assert q[..|q| - 1] == pots[..|pots| - 1];
    }
  }

  /** Adding chips to one pot raises the total by exactly that many. */
  lemma AddChipsTotal(pots: seq<Pot>, k: nat, chips: int, seat: nat)
    requires k < |pots|
    ensures TotalPot(pots[k := AddChips(pots[k], chips, seat)]) == TotalPot(pots) + chips
  {
    TotalPotUpdate(pots, k, AddChips(pots[k], chips, seat));
  }

  lemma TotalPotAppend(pots: seq<Pot>, p: Pot)
    ensures TotalPot(pots + [p]) == TotalPot(pots) + p.amount
  {
    assert (pots + [p])[..|pots|] == pots;
  }

  /** The sum of a list of stacks. */
  function SumOf(s: seq<int>): int {
    if s == [] then 0 else SumOf(s[..|s| - 1]) + s[|s| - 1]
  }

  /** Changing one stack changes the sum by the difference. */
  lemma {:induction false} SumOfUpdate(s: seq<int>, k: nat, v: int)
    requires k < |s|
    ensures SumOf(s[k := v]) == SumOf(s) - s[k] + v
    decreases |s|
  {
    var q := s[k := v];
    if k < |s| - 1 {
      assert q[..|q| - 1] == s[..|s| - 1][k := v];
      SumOfUpdate(s[..|s| - 1], k, v);
    } else {
      assert q[..|q| - 1] == s[..|s| - 1];
    }
  }

  // ------------------------------------------------------------ positions

  /** The labels of `get_player_position`, in the order of its table. */
  datatype Position = Button | SmallBlindSeat | BigBlindSeat | UnderTheGun | UnderTheGunPlusOne | Cutoff {
    function Text(): string {
      match this
      case Button => "Button"
      case SmallBlindSeat => "Small Blind"
      case BigBlindSeat => "Big Blind"
      case UnderTheGun => "UTG"
      case UnderTheGunPlusOne => "UTG+1"
      case Cutoff => "Cutoff"
    }

    /** The key of the label in the source's positions table. */
    function Offset(): (k: nat)
      ensures k < 6
    {
      match this
      case Button => 0
      case SmallBlindSeat => 1
      case BigBlindSeat => 2
      case UnderTheGun => 3
      case UnderTheGunPlusOne => 4
      case Cutoff => 5
    }
  }

  function PositionAt(k: int): (p: Position)
    requires 0 <= k < 6
    ensures p.Offset() == k
  {
    if k == 0 then Button
    else if k == 1 then SmallBlindSeat
    else if k == 2 then BigBlindSeat
    else if k == 3 then UnderTheGun
    else if k == 4 then UnderTheGunPlusOne
    else Cutoff
  }

  /**
   * `get_player_position`: the label at `(seat - button) % 6`. Python's `%`
   * with a positive modulus is never negative, like Dafny's, so the lookup
   * never misses.
   */
  function PositionOf(seat: int, button: int): (p: Position)
    ensures p.Offset() == (seat - button) % 6
  {
    PositionAt((seat - button) % 6)
  }

  /** The seat that wears label p. */
  function SeatOf(p: Position, button: nat): nat {
    (button + p.Offset()) % 6
  }

  /** Each label names exactly one of the six seats. */
  lemma PositionNamesOneSeat(p: Position, button: nat)
    requires button < 6
    ensures SeatOf(p, button) < 6 && PositionOf(SeatOf(p, button), button) == p
    ensures forall s :: 0 <= s < 6 && PositionOf(s, button) == p ==> s == SeatOf(p, button)
  {
    var k := p.Offset();
    var s0 := SeatOf(p, button);
    if button + k < 6 {
      assert s0 == button + k;
    } else {
      assert s0 == button + k - 6;
    }
    assert (s0 - button) % 6 == k;
    assert PositionAt(k) == p by {
      assert PositionAt(k).Offset() == p.Offset();
    }
    forall s | 0 <= s < 6 && PositionOf(s, button) == p
      ensures s == s0
    {
      assert (s - button) % 6 == k;
      if s >= button {
        assert s - button == k;
      } else {
        assert s - button + 6 == k;
      }
    }
  }

  /** Going back whole laps of the table lands on the same seat. */
  lemma {:induction false} SubtractWholeLaps(x: int, laps: nat)
    ensures (x - 6 * laps) % 6 == x % 6
  {
    if laps > 0 {
      SubtractWholeLaps(x, laps - 1);
      assert x - 6 * laps == (x - 6 * (laps - 1)) - 6;
    }
  }

  /** Moving the button one seat moves every label one seat on. */
  lemma MoveButtonMovesLabels(p: Position, button: nat)
    ensures SeatOf(p, (button + 1) % 6) == (SeatOf(p, button) + 1) % 6
    ensures forall s :: 0 <= s < 6 ==> PositionOf((s + 1) % 6, (button + 1) % 6) == PositionOf(s, button)
  {
    forall s | 0 <= s < 6
      ensures PositionOf((s + 1) % 6, (button + 1) % 6) == PositionOf(s, button)
    {
      LabelFollowsButton(s, button);
    }
  }

  lemma LabelFollowsButton(s: nat, button: nat)
    requires s < 6
    ensures ((s + 1) % 6 - (button + 1) % 6) % 6 == (s - button) % 6
  {
    var b0 := button % 6;
    assert button == 6 * (button / 6) + b0;
    SubtractWholeLaps(s - b0, button / 6);
    assert (s - button) % 6 == (s - b0) % 6;
    if b0 == 5 {
      assert (button + 1) % 6 == 0;
    } else {
      assert (button + 1) % 6 == b0 + 1;
    }
  }

  // -------------------------------------------------------------- actions

  /** `get_available_actions` for a player with `chips` who has put `contribution` in this street. */
  function AvailableActions(currentBet: int, chips: int, contribution: int): (acts: seq<Action>)
    ensures |acts| >= 1 && acts[0] == Fold
    ensures Check in acts <==> currentBet == 0
    ensures Bet in acts <==> currentBet == 0 && chips > 0
    ensures Call in acts <==> currentBet != 0 && chips > 0
    ensures Raise in acts <==> currentBet != 0 && chips > 0 && chips > currentBet - contribution
    ensures NoDuplicates(acts)
  {
    [Fold] +
    if currentBet == 0 then
      [Check] + (if chips > 0 then [Bet] else [])
    else if chips > 0 then
      [Call] + (if chips > currentBet - contribution then [Raise] else [])
    else []
  }

  /** `get_call_amount`: what is still owed to the current bet, capped by the stack. */
  function CallAmount(currentBet: int, contribution: int, chips: int): (r: int)
    ensures r <= chips && r <= currentBet - contribution
    ensures r == chips || r == currentBet - contribution
  {
    Min(currentBet - contribution, chips)
  }

  /** The smallest amount a bet or raise may name: `current_bet + min_raise` for a raise, the big blind for a bet. */
  function MinAmount(action: Action, currentBet: int, minRaise: int): int {
    if action == Raise then currentBet + minRaise else BigBlind
  }

  /** The ValueError `process_action` raises before changing anything, if any. */
  function ActionError(action: Action, amount: Option<int>, currentBet: int, minRaise: int): (e: Option<Error>)
    ensures e.None? <==>
              (action == Check ==> currentBet == 0) &&
              (action in {Bet, Raise} ==>
                 amount.Some? && amount.value != 0 &&
                 (action == Bet ==> currentBet == 0) && (action == Raise ==> currentBet != 0) &&
                 amount.value >= MinAmount(action, currentBet, minRaise))
    ensures action in {Fold, Call} ==> e.None?
  {
    match action
    case Fold => None
    case Call => None
    case Check => if currentBet != 0 then Some(ValueError("Cannot check when there's a bet")) else None
    case _ =>
      if amount.None? || amount.value == 0 then Some(ValueError("Amount required for " + action.Text()))
      else if action == Bet && currentBet != 0 then Some(ValueError("Cannot bet when there's already a bet"))
      else if action == Raise && currentBet == 0 then Some(ValueError("Cannot raise when there's no bet"))
      else if amount.value < MinAmount(action, currentBet, minRaise) then
        Some(ValueError("Minimum " + action.Text() + " is " + IntText(MinAmount(action, currentBet, minRaise))))
      else None
  }

  /**
   * The check a bot's decision passes in `play_betting_round`: an action
   * string that names no action, or an action not on offer, becomes a fold
   * of 0 chips; otherwise the decision stands.
   */
  function SanitiseDecision(actionText: string, amount: int, available: seq<Action>): (d: (Action, int))
    ensures Fold in available ==> d.0 in available
    ensures d.0 != Fold ==> d.0 in available && d.0.Text() == actionText && d.1 == amount
    ensures ParseAction(actionText).None? ==> d == (Fold, 0)
    ensures (exists a :: a in available && a.Text() == actionText) ==> d.0.Text() == actionText
  {
    match ParseAction(actionText)
    case None => (Fold, 0)
    case Some(a) => if a in available then (a, amount) else (Fold, 0)
  }

  /** Whatever the bot answers, the table processes an action it offered. */
  lemma SanitisedActionIsOffered(actionText: string, amount: int, currentBet: int, chips: int, contribution: int)
    ensures SanitiseDecision(actionText, amount, AvailableActions(currentBet, chips, contribution)).0
            in AvailableActions(currentBet, chips, contribution)
  {
  }

  // ------------------------------------------------------ next seat to act

  /** Seats clockwise from `from` to `to`. */
  function Clockwise(from: int, to: int): nat {
    (to - from) % 6
  }

  /** The seat j places clockwise from `start`. */
  function SeatAfter(start: int, j: int): (s: nat)
    ensures s < 6
  {
    (start + j) % 6
  }

  lemma SeatAfterClockwise(from: int, j: int)
    requires 0 <= from < 6 && 0 <= j < 6
    ensures Clockwise(from, SeatAfter(from, j)) == j
  {
    if from + j < 6 {
      assert SeatAfter(from, j) == from + j;
    } else {
      assert SeatAfter(from, j) == from + j - 6;
    }
  }

  lemma ClockwiseSeatAfter(from: int, s: int)
    requires 0 <= from < 6 && 0 <= s < 6
    ensures SeatAfter(from, Clockwise(from, s)) == s
  {
    if s >= from {
      assert Clockwise(from, s) == s - from;
    } else {
      assert Clockwise(from, s) == s - from + 6;
    }
  }

  /** Stepping from a seat comes back to it after six steps, and not before. */
  lemma SeatAfterBack(from: int, k: int)
    requires 0 <= from < 6 && 1 <= k <= 6
    ensures SeatAfter(from, k) == from <==> k == 6
  {
    if from + k < 6 {
      assert SeatAfter(from, k) == from + k;
    } else {
      assert SeatAfter(from, k) == from + k - 6;
    }
  }

  lemma SeatAfterStep(start: int, j: int)
    ensures (SeatAfter(start, j) + 1) % 6 == SeatAfter(start, j + 1)
  {
  }

  /** The seat `k` places left of the button, for k = 1 (small blind) and k = 2 (big blind). */
  function BlindSeat(button: nat, k: nat): (s: nat)
    requires button < 6 && 1 <= k <= 2
    ensures s < 6
  {
    if button + k < 6 then button + k else button + k - 6
  }

  /** The blind seats are the seats after the button, and never the same seat. */
  lemma BlindSeatIsSeatAfter(button: nat)
    requires button < 6
    ensures BlindSeat(button, 1) == SeatAfter(button, 1) && BlindSeat(button, 2) == SeatAfter(button, 2)
    ensures BlindSeat(button, 1) != BlindSeat(button, 2)
  {
  }

  /** How many steps `move_to_next_player` takes from `from`, counting on from step k. */
  function StepsToActive(statuses: seq<Status>, from: nat, k: nat): (n: nat)
    requires |statuses| == 6 && 1 <= k <= 6
    ensures k <= n <= 6
    ensures n == 6 || statuses[SeatAfter(from, n)] == Active
    ensures forall j :: k <= j < n ==> statuses[SeatAfter(from, j)] != Active
    decreases 6 - k
  {
    if statuses[SeatAfter(from, k)] == Active || k == 6 then k else StepsToActive(statuses, from, k + 1)
  }

  /** The seat `move_to_next_player` stops at. */
  function NextActive(statuses: seq<Status>, from: nat): (r: nat)
    requires |statuses| == 6 && from < 6
  {
    SeatAfter(from, StepsToActive(statuses, from, 1))
  }

  /**
   * The turn passes to the nearest ACTIVE seat clockwise; only when no other
   * seat is ACTIVE does it come back to the seat it started from.
   */
  lemma NextActiveIsNearest(statuses: seq<Status>, from: nat)
    requires |statuses| == 6 && from < 6
    ensures NextActive(statuses, from) < 6
    ensures statuses[NextActive(statuses, from)] == Active || NextActive(statuses, from) == from
    ensures forall s :: 0 <= s < 6 && s != from && statuses[s] == Active ==>
              0 < Clockwise(from, NextActive(statuses, from)) <= Clockwise(from, s)
  {
    var n := StepsToActive(statuses, from, 1);
    var r := NextActive(statuses, from);
    if n < 6 {
      SeatAfterClockwise(from, n);
    } else {
      assert r == from;
    }
    forall s | 0 <= s < 6 && s != from && statuses[s] == Active
      ensures 0 < Clockwise(from, r) <= Clockwise(from, s)
    {
      var j := Clockwise(from, s);
      ClockwiseSeatAfter(from, s);
      assert j != 0;
      assert n <= j;
    }
  }

  // ------------------------------------------------------- round complete

  /** The fields `is_betting_round_complete` reads. */
  datatype Street = Street(
    statuses: seq<Status>,
    allIn: set<nat>,
    contributions: seq<int>,
    currentBet: int,
    stage: Stage,
    button: nat,
    current: nat,
    lastBettor: Option<nat>)

  predicate WellFormed(t: Street) {
    |t.statuses| == 6 && |t.contributions| == 6
  }

  /** A seat still to act: status ACTIVE and not in `all_in_players`. */
  predicate CanAct(t: Street, i: int)
    requires WellFormed(t) && 0 <= i < 6
  {
    t.statuses[i] == Active && i !in t.allIn
  }

  /** Every seat whose status is ALL_IN is in `all_in_players` (the table keeps this). */
  predicate StatusesAgree(t: Street)
    requires WellFormed(t)
  {
    forall i :: 0 <= i < 6 && t.statuses[i] == AllIn ==> i in t.allIn
  }

  /** Seats below n that have not folded (`get_non_folded_players`). */
  function CountNonFolded(statuses: seq<Status>, n: nat): nat
    requires n <= |statuses|
  {
    if n == 0 then 0 else CountNonFolded(statuses, n - 1) + if statuses[n - 1] != Folded then 1 else 0
  }

  /** Non-folded seats below n that are not in `all_in_players` (`non_allin_players`). */
  function CountNotAllIn(t: Street, n: nat): nat
    requires WellFormed(t) && n <= 6
  {
    if n == 0 then 0
    else CountNotAllIn(t, n - 1) + if t.statuses[n - 1] != Folded && n - 1 !in t.allIn then 1 else 0
  }

  /**
   * The search at lines 379-383 from seat `start`, k seats in: the first
   * seat that can act, or None when no seat from there on can.
   */
  function FirstToAct(t: Street, start: nat, k: nat): (r: Option<nat>)
    requires WellFormed(t) && k <= 6
    ensures r.Some? ==> r.value < 6 && CanAct(t, r.value)
    ensures r.None? ==> forall j :: k <= j < 6 ==> !CanAct(t, SeatAfter(start, j))
    decreases 6 - k
  {
    if k == 6 then None
    else if CanAct(t, SeatAfter(start, k)) then Some(SeatAfter(start, k))
    else FirstToAct(t, start, k + 1)
  }

  /** Lines 387-406: the verdict once the first seat to act is known. */
  function Decide(t: Street, first: Option<nat>): bool
    requires WellFormed(t)
  {
    var bb := (t.button + 2) % 6;
    if t.currentBet == 0 then
      first == Some(t.current) && forall i :: 0 <= i < 6 && CanAct(t, i) ==> t.contributions[i] >= 0
    else
      var allMatched := forall i :: 0 <= i < 6 && CanAct(t, i) ==> t.contributions[i] == t.currentBet;
      if t.stage == Preflop && t.currentBet == BigBlind && CanAct(t, bb) && allMatched && t.lastBettor == None
      then t.current != bb
      else allMatched
  }

  /**
   * `is_betting_round_complete` as written. None stands for the case in
   * which its `while first_to_act is None` loop never ends: after the flop,
   * when no seat can act.
   */
  function RoundCompleteAsWritten(t: Street): Option<bool>
    requires WellFormed(t)
  {
    if CountNonFolded(t.statuses, 6) == 1 then Some(true)
    else if CountNotAllIn(t, 6) <= 1 && t.currentBet == 0 then Some(true)
    else if t.stage != Preflop then
      match FirstToAct(t, (t.button + 1) % 6, 0)
      case None => None
      case Some(f) => Some(Decide(t, Some(f)))
    else Some(Decide(t, Some((t.button + 3) % 6)))
  }

  /** `is_betting_round_complete` with its search for the first seat to act stopped after one lap. */
  function RoundComplete(t: Street): bool
    requires WellFormed(t)
  {
    if CountNonFolded(t.statuses, 6) == 1 then true
    else if CountNotAllIn(t, 6) <= 1 && t.currentBet == 0 then true
    else if t.stage != Preflop then Decide(t, FirstToAct(t, (t.button + 1) % 6, 0))
    else Decide(t, Some((t.button + 3) % 6))
  }

  /** Wherever the source's test returns, the corrected test returns the same verdict. */
  lemma RoundCompleteAgrees(t: Street)
    requires WellFormed(t) && RoundCompleteAsWritten(t).Some?
    ensures RoundCompleteAsWritten(t) == Some(RoundComplete(t))
  {
  }

  lemma {:induction false} NoneCanActFromAnyStart(t: Street, start: nat)
    requires WellFormed(t) && start < 6
    ensures FirstToAct(t, start, 0).None? <==> forall i :: 0 <= i < 6 ==> !CanAct(t, i)
  {
    if FirstToAct(t, start, 0).None? {
      forall i | 0 <= i < 6 ensures !CanAct(t, i) {
        ClockwiseSeatAfter(start, i);
      }
    }
  }

  /**
   * The source's test never returns exactly when the hand is past the
   * flop, more than one player has not folded, the early exits do not
   * apply, and no seat can act.
   */
  lemma RoundCompleteHangs(t: Street)
    requires WellFormed(t)
    ensures RoundCompleteAsWritten(t).None? <==>
              t.stage != Preflop && CountNonFolded(t.statuses, 6) != 1 &&
              !(CountNotAllIn(t, 6) <= 1 && t.currentBet == 0) &&
              forall i :: 0 <= i < 6 ==> !CanAct(t, i)
  {
    NoneCanActFromAnyStart(t, (t.button + 1) % 6);
  }

  /** On the flop, seat 0 bets 50 all-in and seat 1 calls all-in; the other seats have folded. */
  function AllInOnTheFlop(): (t: Street)
    ensures WellFormed(t) && StatusesAgree(t)
  {
    Street([AllIn, AllIn, Folded, Folded, Folded, Folded], {0, 1}, [50, 50, 0, 0, 0, 0], 50, Flop, 5, 2, Some(0))
  }

  /** In that reachable state the source's test does not return. */
  lemma AllInOnTheFlopHangs()
    ensures RoundCompleteAsWritten(AllInOnTheFlop()).None?
    ensures RoundComplete(AllInOnTheFlop())
  {
    var t := AllInOnTheFlop();
    assert CountNonFolded(t.statuses, 6) == 2;
    assert CountNotAllIn(t, 6) == 0;
    RoundCompleteHangs(t);
  }

  lemma {:induction false} NoneToActCount(t: Street, n: nat)
    requires WellFormed(t) && StatusesAgree(t) && n <= 6
    requires forall i :: 0 <= i < 6 ==> !CanAct(t, i)
    ensures CountNotAllIn(t, n) == 0
  {
    if n > 0 {
      NoneToActCount(t, n - 1);
      assert !CanAct(t, n - 1);
    }
  }

  /** Corrected: once no seat can act any more, the betting round is complete. */
  lemma NoneToActCompletes(t: Street)
    requires WellFormed(t) && StatusesAgree(t)
    requires forall i :: 0 <= i < 6 ==> !CanAct(t, i)
    ensures RoundComplete(t)
  {
    NoneToActCount(t, 6);
  }

  /** While a seat that can act has not matched a live bet, the round goes on (unless one player is left). */
  lemma UnmatchedBetContinues(t: Street, i: nat)
    requires WellFormed(t) && i < 6 && CanAct(t, i)
    requires t.currentBet != 0 && t.contributions[i] != t.currentBet
    requires CountNonFolded(t.statuses, 6) != 1
    ensures !RoundComplete(t)
  {
  }

  // ----------------------------------------------------------- side pots

  predicate Increasing(s: seq<int>) {
    forall i, j :: 0 <= i < j < |s| ==> s[i] < s[j]
  }

  /** Put x into an ascending list of distinct values unless it is there already. */
  function InsertAscending(s: seq<int>, x: int): (r: seq<int>)
    requires Increasing(s)
    ensures Increasing(r)
    ensures forall y :: y in r <==> y in s || y == x
  {
    if s == [] then [x]
    else if x < s[0] then [x] + s
    else if x == s[0] then s
    else
      var rest := InsertAscending(s[1..], x);
      assert s == [s[0]] + s[1..];
      forall k | 0 <= k < |rest|
        ensures s[0] < rest[k]
      {
        assert rest[k] in rest;
        if rest[k] != x {
          var j :| 0 <= j < |s[1..]| && s[1..][j] == rest[k];
          assert s[j + 1] == rest[k];
        }
      }
      [s[0]] + rest
  }

  /** Two ascending lists of distinct values with the same members are equal. */
  lemma {:induction false} IncreasingDeterminedByMembers(a: seq<int>, b: seq<int>)
    requires Increasing(a) && Increasing(b)
    requires forall y :: y in a <==> y in b
    ensures a == b
    decreases |a|
  {
    assert a == [] <==> b == [] by {
      if a != [] {
        assert a[0] in a && a[0] in b;
      }
      if b != [] {
        assert b[0] in b && b[0] in a;
      }
    }
    if a != [] {
      assert forall k :: 0 <= k < |a| ==> a[0] <= a[k];
      assert forall k :: 0 <= k < |b| ==> b[0] <= b[k];
      assert a[0] in b && b[0] in a;
      assert a[0] == b[0];
      forall y ensures y in a[1..] <==> y in b[1..] {
        if y in a[1..] {
          var j :| 1 <= j < |a| && a[j] == y;
          assert y > a[0];
          assert y in b;
        }
        if y in b[1..] {
          var j :| 1 <= j < |b| && b[j] == y;
          assert y > b[0];
          assert y in a;
        }
      }
      IncreasingDeterminedByMembers(a[1..], b[1..]);
      assert a == [a[0]] + a[1..] && b == [b[0]] + b[1..];
    }
  }

  /**
   * Lines 78-84 over the seats below n: the distinct street contributions
   * of all-in seats in ascending order. By IncreasingDeterminedByMembers,
   * inserting in order and appending then sorting give the same list.
   */
  function AllInAmounts(allIn: set<nat>, contributions: seq<int>, n: nat): (r: seq<int>)
    requires n <= |contributions|
    ensures Increasing(r)
    ensures forall y :: y in r <==> exists i :: 0 <= i < n && i in allIn && contributions[i] == y
  {
    if n == 0 then []
    else if n - 1 in allIn then InsertAscending(AllInAmounts(allIn, contributions, n - 1), contributions[n - 1])
    else AllInAmounts(allIn, contributions, n - 1)
  }

  /** Lines 95-99: what seat i puts into the pot between levels `prev` and `amount`. */
  function LayerShare(statuses: seq<Status>, contributions: seq<int>, i: nat, amount: int, prev: int): int
    requires i < |statuses| && i < |contributions|
  {
    if statuses[i] != Folded && Min(amount, contributions[i]) > prev then Min(amount, contributions[i]) - prev else 0
  }

  /** The pot size of one level, summed over the seats below n. */
  function LayerSize(statuses: seq<Status>, contributions: seq<int>, amount: int, prev: int, n: nat): (size: int)
    requires n <= |statuses| && n <= |contributions|
    ensures size >= 0
  {
    if n == 0 then 0
    else LayerSize(statuses, contributions, amount, prev, n - 1) + LayerShare(statuses, contributions, n - 1, amount, prev)
  }

  /** Lines 97-101: the seats below n eligible for one level. */
  function LayerEligible(statuses: seq<Status>, contributions: seq<int>, amount: int, prev: int, n: nat): set<nat>
    requires n <= |statuses| && n <= |contributions|
  {
    if n == 0 then {}
    else
      LayerEligible(statuses, contributions, amount, prev, n - 1) +
      if statuses[n - 1] != Folded && Min(amount, contributions[n - 1]) > prev && contributions[n - 1] >= amount
      then {n - 1} else {}
  }

  /** Lines 103-109: a level rewrites the main pot while the previous level is 0, else appends a non-empty pot. */
  function AddLayer(pots: seq<Pot>, size: int, eligible: set<nat>, prev: int): (r: seq<Pot>)
    requires |pots| >= 1
    ensures |r| >= 1
  {
    if prev == 0 then pots[0 := pots[0].(amount := size, eligible := eligible)]
    else if size > 0 then pots + [Pot(size, eligible, 0)]
    else pots
  }

  /** Lines 89-111: one pot per all-in level, in ascending order of level. */
  function BuildPots(pots: seq<Pot>, amounts: seq<int>, prev: int, statuses: seq<Status>, contributions: seq<int>): (r: seq<Pot>)
    requires |pots| >= 1 && |statuses| == 6 && |contributions| == 6
    ensures |r| >= 1
    decreases |amounts|
  {
    if amounts == [] then pots
    else
      var a := amounts[0];
      var next := AddLayer(pots, LayerSize(statuses, contributions, a, prev, |statuses|),
                           LayerEligible(statuses, contributions, a, prev, |statuses|), prev);
      BuildPots(next, amounts[1..], a, statuses, contributions)
  }

  /** `create_side_pot`: keep the main pot only, then rebuild the pots from this street's contributions. */
  function SidePots(pots: seq<Pot>, statuses: seq<Status>, allIn: set<nat>, contributions: seq<int>): (r: seq<Pot>)
    requires |pots| >= 1 && |statuses| == 6 && |contributions| == 6
    ensures |r| >= 1
  {
    BuildPots([pots[0]], AllInAmounts(allIn, contributions, |contributions|), 0, statuses, contributions)
  }

  /** What a non-folded seat has put in up to a level, never below 0. */
  function Covered(statuses: seq<Status>, contributions: seq<int>, level: int, n: nat): int
    requires n <= |statuses| && n <= |contributions|
  {
    if n == 0 then 0
    else Covered(statuses, contributions, level, n - 1) +
         if statuses[n - 1] != Folded then Max(0, Min(level, contributions[n - 1])) else 0
  }

  lemma {:induction false} LayerIsDifference(statuses: seq<Status>, contributions: seq<int>, amount: int, prev: int, n: nat)
    requires n <= |statuses| && n <= |contributions| && 0 <= prev < amount
    ensures LayerSize(statuses, contributions, amount, prev, n)
            == Covered(statuses, contributions, amount, n) - Covered(statuses, contributions, prev, n)
  {
    if n > 0 {
      LayerIsDifference(statuses, contributions, amount, prev, n - 1);
    }
  }

  lemma {:induction false} CoveredAtZero(statuses: seq<Status>, contributions: seq<int>, n: nat)
    requires n <= |statuses| && n <= |contributions|
    ensures Covered(statuses, contributions, 0, n) == 0
  {
    if n > 0 {
      CoveredAtZero(statuses, contributions, n - 1);
    }
  }

  function Last(s: seq<int>, otherwise: int): int {
    if s == [] then otherwise else s[|s| - 1]
  }

  /** Above a positive level each further level adds the chips between it and the one before. */
  lemma {:induction false} BuildPotsAbove(pots: seq<Pot>, amounts: seq<int>, prev: int, statuses: seq<Status>, contributions: seq<int>)
    requires |pots| >= 1 && |statuses| == 6 && |contributions| == 6
    requires 0 < prev && Increasing(amounts) && (amounts != [] ==> prev < amounts[0])
    ensures TotalPot(BuildPots(pots, amounts, prev, statuses, contributions))
            == TotalPot(pots) + Covered(statuses, contributions, Last(amounts, prev), 6) - Covered(statuses, contributions, prev, 6)
    decreases |amounts|
  {
    if amounts != [] {
      var a := amounts[0];
      var size := LayerSize(statuses, contributions, a, prev, 6);
      LayerIsDifference(statuses, contributions, a, prev, 6);
      var next := AddLayer(pots, size, LayerEligible(statuses, contributions, a, prev, 6), prev);
      if size > 0 {
        TotalPotAppend(pots, Pot(size, LayerEligible(statuses, contributions, a, prev, 6), 0));
      }
      assert TotalPot(next) == TotalPot(pots) + size;
      BuildPotsAbove(next, amounts[1..], a, statuses, contributions);
      assert Last(amounts[1..], a) == Last(amounts, prev);
    }
  }

  /** From the main pot alone: the rebuilt pots hold the non-folded contributions up to the top level. */
  lemma {:induction false} BuildPotsFromMain(main: Pot, amounts: seq<int>, statuses: seq<Status>, contributions: seq<int>)
    requires |statuses| == 6 && |contributions| == 6
    requires Increasing(amounts) && amounts != [] && amounts[0] >= 0
    ensures TotalPot(BuildPots([main], amounts, 0, statuses, contributions))
            == Covered(statuses, contributions, amounts[|amounts| - 1], 6)
    decreases |amounts|
  {
    var a := amounts[0];
    var size := LayerSize(statuses, contributions, a, 0, 6);
    var next := [main.(amount := size, eligible := LayerEligible(statuses, contributions, a, 0, 6))];
    assert AddLayer([main], size, LayerEligible(statuses, contributions, a, 0, 6), 0) == next;
    assert BuildPots([main], amounts, 0, statuses, contributions) == BuildPots(next, amounts[1..], a, statuses, contributions);
    CoveredAtZero(statuses, contributions, 6);
    if a == 0 {
      assert size == 0 by {
        LayerIsZero(statuses, contributions, 6);
      }
      if |amounts| > 1 {
        BuildPotsFromMain(next[0], amounts[1..], statuses, contributions);
      }
    } else {
      LayerIsDifference(statuses, contributions, a, 0, 6);
      BuildPotsAbove(next, amounts[1..], a, statuses, contributions);
      assert Last(amounts[1..], a) == amounts[|amounts| - 1];
    }
  }

  lemma {:induction false} LayerIsZero(statuses: seq<Status>, contributions: seq<int>, n: nat)
    requires n <= |statuses| && n <= |contributions|
    ensures LayerSize(statuses, contributions, 0, 0, n) == 0
  {
    if n > 0 {
      LayerIsZero(statuses, contributions, n - 1);
    }
  }

  /**
   * `create_side_pot` rebuilds the pots from this street alone: when some
   * seat is all-in and no all-in contribution is negative, the pots
   * afterwards hold exactly what the non-folded seats put in this street
   * up to the largest all-in level. Earlier streets' chips in the main pot
   * and the folded seats' chips are not carried over.
   */
  lemma SidePotsTotal(pots: seq<Pot>, statuses: seq<Status>, allIn: set<nat>, contributions: seq<int>)
    requires |pots| >= 1 && |statuses| == 6 && |contributions| == 6
    requires forall i :: 0 <= i < 6 && i in allIn ==> contributions[i] >= 0
    requires AllInAmounts(allIn, contributions, 6) != []
    ensures var amounts := AllInAmounts(allIn, contributions, 6);
            TotalPot(SidePots(pots, statuses, allIn, contributions))
            == Covered(statuses, contributions, amounts[|amounts| - 1], 6)
  {
    var amounts := AllInAmounts(allIn, contributions, 6);
    assert amounts[0] in amounts;
    BuildPotsFromMain(pots[0], amounts, statuses, contributions);
  }

  // ------------------------------------------------------ all-in call pots

  /** Lines 285-293 from the k-th pot on: top up side pots whose required amount exceeds the total so far. */
  function FillSidePots(pots: seq<Pot>, k: nat, remaining: int, total: int, seat: nat): (r: (seq<Pot>, int, int))
    requires 1 <= k <= |pots|
    ensures |r.0| == |pots| && r.0[0] == pots[0]
    ensures TotalPot(r.0) - TotalPot(pots) == remaining - r.1 == r.2 - total
    ensures remaining >= 0 ==> r.1 >= 0
    decreases |pots| - k
  {
    if k == |pots| || remaining <= 0 then (pots, remaining, total)
    else if pots[k].required > total && Min(remaining, pots[k].required - total) > 0 then
      var c := Min(remaining, pots[k].required - total);
      AddChipsTotal(pots, k, c, seat);
      FillSidePots(pots[k := AddChips(pots[k], c, seat)], k + 1, remaining - c, total + c, seat)
    else FillSidePots(pots, k + 1, remaining, total, seat)
  }

  /** Lines 277-283: the part of an all-in call that tops the main pot up to its required amount. */
  function MainPotShare(pots: seq<Pot>, seat: nat, chips: int, contribution: int): (r: (seq<Pot>, int, int))
    requires |pots| >= 1
    ensures |r.0| == |pots|
    ensures TotalPot(r.0) - TotalPot(pots) == chips - r.1 == r.2 - contribution
    ensures chips >= 0 ==> r.1 >= 0
  {
    var main := if pots[0].required > 0 then Min(chips, pots[0].required - contribution) else 0;
    AddChipsTotal(pots, 0, main, seat);
    if main > 0 then (pots[0 := AddChips(pots[0], main, seat)], chips - main, contribution + main)
    else (pots, chips, contribution)
  }

  /**
   * Lines 275-299: where the chips of an all-in call go (the main pot's
   * required amount first, then the side pots, then the rest to the main
   * pot), and the seat's new street contribution.
   */
  function AllInCallPots(pots: seq<Pot>, seat: nat, chips: int, contribution: int): (r: (seq<Pot>, int))
    requires |pots| >= 1
    ensures |r.0| == |pots|
    ensures chips >= 0 ==> TotalPot(r.0) == TotalPot(pots) + chips && r.1 == contribution + chips
  {
    var m := MainPotShare(pots, seat, chips, contribution);
    var filled := FillSidePots(m.0, 1, m.1, m.2, seat);
    AddChipsTotal(filled.0, 0, filled.1, seat);
    if filled.1 > 0 then (filled.0[0 := AddChips(filled.0[0], filled.1, seat)], filled.2 + filled.1)
    else (filled.0, filled.2)
  }
}
