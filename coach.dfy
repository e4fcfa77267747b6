/**
 * The two local helpers of the poker coach (backend/bots/ai_poker_coach.py):
 * the stack-depth bucket that picks the coach's general guideline, and the
 * plain-text summary of a game state it sends along. The chat request itself
 * is not part of this model.
 */
module Coach {
  import opened Common

  const Deep := "Deep Stack (100+ BB)"
  const Mid := "Mid Stack (50 BB)"
  const Short := "Short Stack (20 BB)"
  const Micro := "Micro Stack (10 BB)"

  /** The keys of the coach's `general_situations` table. */
  const SituationKeys: set<string> := {Deep, Mid, Short, Micro}

  /** The stack in big blinds: Python's floor division when the blind is positive, else 0. */
  function BigBlindCount(stack: int, bigBlind: int): (n: int)
    ensures bigBlind <= 0 ==> n == 0
    ensures bigBlind > 0 ==> n * bigBlind <= stack < (n + 1) * bigBlind
  {
    if bigBlind > 0 then stack / bigBlind else 0
  }

  /** `_determine_stack_situation`. */
  function StackSituation(stack: int, bigBlind: int): (key: string)
    ensures key in SituationKeys
    ensures bigBlind <= 0 ==> key == Micro
    ensures key == Deep <==> BigBlindCount(stack, bigBlind) >= 100
    ensures key == Micro <==> BigBlindCount(stack, bigBlind) < 20
  {
    var n := BigBlindCount(stack, bigBlind);
    if n >= 100 then Deep
    else if n >= 50 then Mid
    else if n >= 20 then Short
    else Micro
  }

  /** How deep a bucket is, shallowest first. */
  function Depth(key: string): nat {
    if key == Micro then 0
    else if key == Short then 1
    else if key == Mid then 2
    else 3
  }

  /** Floor division by a positive blind does not decrease as the stack grows. */
  lemma BigBlindCountMonotone(small: int, large: int, bigBlind: int)
    requires small <= large && bigBlind > 0
    ensures BigBlindCount(small, bigBlind) <= BigBlindCount(large, bigBlind)
  {
    var m, n := BigBlindCount(small, bigBlind), BigBlindCount(large, bigBlind);
    assert (m - n - 1) * bigBlind == m * bigBlind - (n + 1) * bigBlind;
    assert m * bigBlind < (n + 1) * bigBlind;
  }

  /** For a fixed big blind, a larger stack never falls in a shallower bucket. */
  lemma StackSituationMonotone(small: int, large: int, bigBlind: int)
    requires small <= large
    ensures Depth(StackSituation(small, bigBlind)) <= Depth(StackSituation(large, bigBlind))
  {
    if bigBlind > 0 {
      BigBlindCountMonotone(small, large, bigBlind);
    }
  }

  /** One entry of the `players` list, each key possibly missing. */
  datatype PlayerEntry = PlayerEntry(
    name: Option<string>,
    position: Option<string>,
    chips: Option<int>,
    isAllIn: Option<bool>,
    status: Option<string>,
    availableActions: Option<seq<string>>,
    callAmount: Option<int>)

  /** The game-state dictionary, each key possibly missing. */
  datatype GameState = GameState(
    stage: Option<string>,
    totalPot: Option<int>,
    currentBet: Option<int>,
    minRaise: Option<int>,
    smallBlind: Option<int>,
    bigBlind: Option<int>,
    communityCards: Option<seq<string>>,
    players: Option<seq<PlayerEntry>>,
    currentPlayerIdx: Option<int>)

  function Or<T>(o: Option<T>, default: T): T {
    if o.Some? then o.value else default
  }

  function UpperChar(c: char): char {
    if 'a' <= c <= 'z' then (c as int - 32) as char else c
  }

  function LowerChar(c: char): char {
    if 'A' <= c <= 'Z' then (c as int + 32) as char else c
  }

  function LowerAll(s: string): (l: string)
    ensures |l| == |s|
  {
    if s == [] then [] else [LowerChar(s[0])] + LowerAll(s[1..])
  }

  /** `str.capitalize` on ASCII text: the first letter upper-case, the rest lower-case. */
  function Capitalize(s: string): (c: string)
    ensures |c| == |s|
  {
    if s == [] then [] else [UpperChar(s[0])] + LowerAll(s[1..])
  }

  /** `sep.join(items)`. */
  function Join(items: seq<string>, sep: string): (s: string)
    ensures items == [] ==> s == ""
    ensures |items| == 1 ==> s == items[0]
  {
    if items == [] then ""
    else if |items| == 1 then items[0]
    else Join(items[..|items| - 1], sep) + sep + items[|items| - 1]
  }

  /** `... or "None"`: an empty string reads as "None". */
  function OrNone(s: string): (t: string)
    ensures t != ""
    ensures s != "" ==> t == s
  {
    if s == "" then "None" else s
  }

  /** The line for one player. */
  function PlayerLine(p: PlayerEntry): string {
    var status := if Or(p.isAllIn, false) then "All-in" else Capitalize(Or(p.status, ""));
    Or(p.name, "Unknown") + " (" + Or(p.position, "Unknown") + ") - Chips: " + IntText(Or(p.chips, 0)) + " - " + status
  }

  /** The players' lines, one per entry, in order. */
  function PlayerLines(ps: seq<PlayerEntry>): (lines: seq<string>)
    ensures |lines| == |ps|
  {
    seq(|ps|, i requires 0 <= i < |ps| => PlayerLine(ps[i]))
  }

  /** What `current_player` becomes: an entry, the empty dictionary, or a raised lookup error. */
  datatype Lookup = Found(entry: PlayerEntry) | NoEntry | Raises

  /**
   * The guarded lookup: an index at or past the end gives `{}`; a smaller
   * index subscripts the `players` key, which raises when the key is missing
   * or the index is below minus the length, and counts from the end when it
   * is negative.
   */
  function CurrentEntry(g: GameState): (l: Lookup)
    ensures Or(g.currentPlayerIdx, 0) >= |Or(g.players, [])| ==> l == NoEntry
    ensures g.players.None? && Or(g.currentPlayerIdx, 0) < 0 ==> l == Raises
    ensures l.Found? ==> l.entry in g.players.value
  {
    var idx := Or(g.currentPlayerIdx, 0);
    var ps := Or(g.players, []);
    if idx >= |ps| then NoEntry
    else if g.players.None? then Raises
    else if idx >= 0 then Found(ps[idx])
    else if idx >= -|ps| then Found(ps[|ps| + idx])
    else Raises
  }

  function CurrentLine(l: Lookup): string
    requires !l.Raises?
  {
    var e := if l.Found? then l.entry else PlayerEntry(None, None, None, None, None, None, None);
    "Current Player: " + Or(e.name, "Unknown") + " - Available Actions: " + OrNone(Join(Or(e.availableActions, []), ", "))
  }

  function CallLine(l: Lookup): string
    requires !l.Raises?
  {
    var e := if l.Found? then l.entry else PlayerEntry(None, None, None, None, None, None, None);
    "Call Amount: $" + IntText(Or(e.callAmount, 0))
  }

  function CommunityLine(g: GameState): string {
    "Community Cards: " + OrNone(Join(Or(g.communityCards, []), ", "))
  }

  /** The summary `_format_game_state` returns: "None" when the lookup raised, else the text. */
  function Summary(g: GameState): (text: string)
  {
    var l := CurrentEntry(g);
    if l.Raises? then "None"
    else
      "Game Stage: " + Capitalize(Or(g.stage, "")) + "\n"
      + "Pot: $" + IntText(Or(g.totalPot, 0)) + ", Current Bet: $" + IntText(Or(g.currentBet, 0))
      + ", Min Raise: $" + IntText(Or(g.minRaise, 0)) + "\n"
      + "Small Blind: $" + IntText(Or(g.smallBlind, 0)) + ", Big Blind: $" + IntText(Or(g.bigBlind, 0)) + "\n"
      + CommunityLine(g) + "\n"
      + "Players:\n" + Join(PlayerLines(Or(g.players, [])), "\n") + "\n"
      + CurrentLine(l) + "\n"
      + CallLine(l) + "\n"
  }

  /** The summary is "None" exactly when the current-player lookup raised. */
  lemma {:induction false} SummaryNoneIffRaises(g: GameState)
    ensures Summary(g) == "None" <==> CurrentEntry(g).Raises?
  {
    if !CurrentEntry(g).Raises? {
      var s := Summary(g);
      assert s[0] == 'G';
    }
  }

  /** An index at or past the end of the players gives the name "Unknown", actions "None" and a zero call. */
  lemma OutOfRangeCurrentPlayer(g: GameState)
    requires Or(g.currentPlayerIdx, 0) >= |Or(g.players, [])|
    ensures CurrentLine(CurrentEntry(g)) == "Current Player: " + "Unknown" + " - Available Actions: " + "None"
    ensures CallLine(CurrentEntry(g)) == "Call Amount: $" + "0"
  {
    assert CurrentEntry(g) == NoEntry;
    assert OrNone(Join([], ", ")) == "None";
    assert IntText(0) == [DigitChar(0)] == "0";
  }

  /** No community cards, or a missing key, renders as "None". */
  lemma EmptyBoard(g: GameState)
    requires g.communityCards.None? || g.communityCards == Some([])
    ensures CommunityLine(g) == "Community Cards: None"
  {
  }

  /** A negative index inside the list counts from the end, as a Python subscript does. */
  lemma NegativeIndexFromEnd(g: GameState)
    requires g.players.Some? && g.currentPlayerIdx.Some?
    requires -|g.players.value| <= g.currentPlayerIdx.value < 0
    ensures CurrentEntry(g) == Found(g.players.value[|g.players.value| + g.currentPlayerIdx.value])
  {
  }

  /** `_format_game_state`: the players' lines gathered in a loop, then the summary assembled. */
  method FormatGameState(g: GameState) returns (text: string)
    ensures text == Summary(g)
  {
    var ps := Or(g.players, []);
    var info: seq<string> := [];
    var k := 0;
    while k < |ps|
      invariant 0 <= k <= |ps|
      invariant |info| == k
      invariant forall j :: 0 <= j < k ==> info[j] == PlayerLine(ps[j])
    {
      info := info + [PlayerLine(ps[k])];
      k := k + 1;
    }
    assert info == PlayerLines(ps);
    var l := CurrentEntry(g);
    if l.Raises? {
      return "None";
    }
    text := "Game Stage: " + Capitalize(Or(g.stage, "")) + "\n"
      + "Pot: $" + IntText(Or(g.totalPot, 0)) + ", Current Bet: $" + IntText(Or(g.currentBet, 0))
      + ", Min Raise: $" + IntText(Or(g.minRaise, 0)) + "\n"
      + "Small Blind: $" + IntText(Or(g.smallBlind, 0)) + ", Big Blind: $" + IntText(Or(g.bigBlind, 0)) + "\n"
      + CommunityLine(g) + "\n"
      + "Players:\n" + Join(info, "\n") + "\n"
      + CurrentLine(l) + "\n"
      + CallLine(l) + "\n";
  }
}
