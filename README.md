# Six-handed Texas Hold'em: a Dafny model

This project models the rules of a six-seat no-limit Texas Hold'em game and of
the browser client that plays it against bots. It covers:

- **The Python engine.** This includes cards and their text, the 52-card deck,
  the player record, the five-card hand classifier, the best-five-of-seven
  search, the showdown split and the hand descriptions.
- **The six-seat table** (`src/game/game.py`). Its blinds, seat rotation,
  available actions, bet validation, chip movement, all-in handling, side pots
  and dealing are modelled as a class that updates its fields in place.
- **The earlier single-pot table** (`src/game.py`), which has its own, different
  rules.
- **The client pages.** The table page's bot-turn loop and its game-end and
  hand-winner rules are modelled. So are the bet controls' bounds and presets,
  the analytics derivations, the bot picker, the bot-count stepper and the
  card-string parse.
- **The poker coach's local helpers.** These are the stack-depth bucket and the
  game-state summary.

Each source file is one module:

| module | file | source |
|---|---|---|
| `Common`, `PlayerStatus` | common.dfy, status.dfy | shared value types |
| `Card` | card.dfy | src/card.py |
| `PlayingCard` | playing_card.dfy | frontend/src/pages/PlayingCard.jsx |
| `Deck` | deck.dfy | backend/game/deck.py |
| `GamePlayer`, `BackendPlayer` | player.dfy, backend_player.dfy | src/game/player.py, backend/game/player.py |
| `HandRanking` | hand_ranking.dfy | `_evaluate_five_card_hand` in src/game/evaluator.py |
| `Evaluator`, `Showdown`, `HandDescription` | evaluator.dfy, showdown.dfy, describe.dfy | the rest of src/game/evaluator.py |
| `HoldemRules`, `Betting`, `Holdem` | holdem_rules.dfy, betting.dfy, holdem.dfy | src/game/game.py |
| `LegacyHoldem` | legacy.dfy | src/game.py |
| `Snapshot` | snapshot.dfy | the JSON game state the client pages read |
| `GameTable` | game_table.dfy | frontend/src/pages/GameTable.jsx |
| `ActionButtons` | action_buttons.dfy | frontend/src/pages/ActionButtons.jsx |
| `Analytics` | analytics.dfy | frontend/src/pages/Analytics.jsx |
| `ChooseBots` | choose_bots.dfy | frontend/src/pages/ChooseBots.jsx |
| `ChooseBotCount` | bot_count.dfy | frontend/src/pages/ChooseBotCount.jsx |
| `Coach` | coach.dfy | backend/bots/ai_poker_coach.py |

Where the source mutates objects, the model does too. `Player`, `Deck`,
`TexasHoldem`, `LegacyTable`, `BetControls`, `BotSelection`, `BotCountPicker` and
`TablePage` are classes whose methods update their fields, and their
postconditions state the whole new state. Pure derivations are functions.
Raised exceptions become `Result` values, and `None` returns become `Option`
values.

The table page works differently, because React state cannot be read back
between awaits. `TablePage` therefore keeps a log of the page's observable
steps: requests, published states, comments shown and cleared, banners and
navigations. Its visible screen is a replay of that log. Each handler is proved
to append exactly the events that a pure function of its inputs and the
server's scripted replies prescribes. The loop properties are then lemmas about
those functions.

## Model

| member | source | states |
|---|---|---|
| Common.NatText | src/card.py:10 | `str(n)` of a natural number: non-empty, all digits, one digit exactly when n < 10 |
| Common.IntText | src/card.py:10 | `str(n)` of an integer: a leading minus sign exactly when n is negative |
| Common.NatTextRoundTrip | src/card.py:10 | reading the decimal text of n back gives n |
| Common.NatTextInjective | src/card.py:10 | different naturals have different decimal texts |
| Card.RankText | src/card.py:9-10 | 11, 12, 13, 14 render as J, Q, K, A; every other value as its decimal text |
| Card.CardText | src/card.py:11 | the text is the rank text immediately followed by the one suit symbol |
| Card.SymbolInjective | src/card.py:11 | different suits have different symbols |
| Card.RankTextInjective | src/card.py:9-10 | distinct values in 2..14 have distinct rank texts (10 is "10", not a face letter) |
| Card.CardTextInjective | src/card.py:8-11 | the text of a deck card determines the card |
| PlayingCard.Parse | frontend/src/pages/PlayingCard.jsx:4-18 | null/undefined draws nothing, "" is exactly the hidden card, otherwise rank + suit rebuilds the input with a one-character suit, red exactly for ♥ or ♦ |
| PlayingCard.ParseCardText | frontend/src/pages/PlayingCard.jsx:14-17 | parsing the engine's text of a card gives back its rank text and suit symbol, red exactly for hearts and diamonds |
| PlayingCard.ParseDistinguishesCards | frontend/src/pages/PlayingCard.jsx:14-15 | two deck cards that draw the same face are the same card |
| Deck.CreationOrder | backend/game/deck.py:11-13 | the creation order has 13 cards per suit |
| Deck.CreationOrderIsFullDeck | backend/game/deck.py:11-13 | the creation order holds each (suit, value 2..14) card exactly once and nothing else: 52 cards |
| Deck.Deck.constructor | backend/game/deck.py:6-8 | a new deck is a permutation of the creation order |
| Deck.Deck.CreateDeck | backend/game/deck.py:10-14 | appends the full creation order to the cards, then permutes them |
| Deck.Deck.Reset | backend/game/deck.py:16-18 | discards the old cards: the result is a permutation of the creation order alone |
| Deck.Deck.Shuffle | backend/game/deck.py:20-21 | the multiset of cards is unchanged |
| Deck.Deck.Deal | backend/game/deck.py:23-26 | a non-empty deck loses exactly its last card, which is returned; an empty deck returns None and stays empty |
| Deck.ResetDeckIsFull | backend/game/deck.py:6-18 | after construction or reset the deck is a full 52-card deck |
| GamePlayer.Player.constructor | src/game/player.py:4-9 | the given name and chips, empty pocket and hand, status ACTIVE |
| GamePlayer.Player.AddPocketCard | src/game/player.py:11-12 | appends to the pocket and changes no other field |
| GamePlayer.Player.Add5Card | src/game/player.py:14-15 | appends to the hand and changes no other field |
| GamePlayer.Player.ClearPocket | src/game/player.py:17-18 | empties the pocket only |
| GamePlayer.Player.ClearHand | src/game/player.py:20-21 | empties the hand only |
| BackendPlayer.Player.constructor | backend/game/player.py:4-10 | the given name, chips and bot flag, empty pocket and hand, status ACTIVE |
| BackendPlayer.Player.AddPocketCard | backend/game/player.py:12-13 | appends to the pocket only; the bot flag is never in a modifies clause |
| BackendPlayer.Player.Add5Card | backend/game/player.py:15-16 | appends to the hand only |
| BackendPlayer.Player.ClearPocket | backend/game/player.py:18-19 | empties the pocket only |
| BackendPlayer.Player.ClearHand | backend/game/player.py:21-22 | empties the hand only |
| HandRanking.SortDescending | src/game/evaluator.py:66 | `sorted(values, reverse=True)`: a descending permutation of the values |
| HandRanking.DescendingUnique | src/game/evaluator.py:66 | the descending arrangement of a multiset is unique, so the sort is determined by the values |
| HandRanking.Distinct | src/game/evaluator.py:88 | the keys of a Counter: each value once, exactly the values that occur |
| HandRanking.TallyTotal | src/game/evaluator.py:88 | the counts of a Counter add up to the number of values counted |
| HandRanking.TallyCounts | src/game/evaluator.py:88-89 | each `(freq, val)` pair counts its own value, at least once, and no pair repeats |
| HandRanking.SortFreqs | src/game/evaluator.py:89 | `sorted(pairs, reverse=True)`: a permutation of the pairs in descending tuple order |
| HandRanking.FreqsShape | src/game/evaluator.py:88-126 | the sorted table of five values has one of the seven layouts (4+1, 3+2, 3+1+1, 2+2+1, 2+1+1+1, 1×5), so every `freqs[i]` the branches read exists |
| HandRanking.EvaluateFiveShape | src/game/evaluator.py:64-129 | every five-card evaluation carries the number of primary values and kickers fixed by its rank |
| HandRanking.RoyalFlushIff | src/game/evaluator.py:70-81 | ROYAL_FLUSH exactly when the cards share one suit and the values are 14, 13, 12, 11, 10 |
| HandRanking.RoyalFlushValues | src/game/evaluator.py:80-81 | a royal flush carries the sorted values as primary and no kickers |
| HandRanking.StraightFlushIff | src/game/evaluator.py:70-85 | STRAIGHT_FLUSH exactly for a suited straight other than A-K-Q-J-10; its primary is the straight's top card (5 for A-2-3-4-5) and it has no kickers |
| HandRanking.StraightIff | src/game/evaluator.py:72-108 | STRAIGHT exactly for an unsuited straight; its primary is the top card, no kickers |
| HandRanking.WheelIsFiveHigh | src/game/evaluator.py:74-108 | A-2-3-4-5 is a straight or straight flush with primary `[5]` |
| HandRanking.FlushAndHighCardKickers | src/game/evaluator.py:102-129 | FLUSH and HIGH_CARD have no primary and all five values, high to low, as kickers; FLUSH only for one suit |
| HandRanking.FourOfAKindParts | src/game/evaluator.py:91-95 | primary is the value held four times, kicker the value held once |
| HandRanking.FullHouseParts | src/game/evaluator.py:97-100 | primary is the trips value then the pair value, no kickers |
| HandRanking.ThreeOfAKindParts | src/game/evaluator.py:110-114 | primary is the trips value; the kickers are the two single values, strictly descending |
| HandRanking.TwoPairParts | src/game/evaluator.py:116-120 | primary is the two pair values, strictly descending; the kicker is the single value |
| HandRanking.PairParts | src/game/evaluator.py:122-126 | primary is the pair value; the kickers are the three single values, strictly descending |
| HandRanking.GroupedDistinct | src/game/evaluator.py:88-129 | five different values never form a group: the rank is FLUSH, STRAIGHT or HIGH_CARD |
| HandRanking.EvaluateFiveFromCards | src/game/evaluator.py:64-129 | every primary value and kicker is the value of one of the five cards |
| Evaluator.ZipDecidesIsLex | src/game/evaluator.py:52-59 | the `zip` loop answers True exactly when the first list is lexicographically greater at the first difference |
| Evaluator.ZipDecidesSwap | src/game/evaluator.py:52-59 | swapping the two lists swaps the loop's verdict |
| Evaluator.ZipDecidesNone | src/game/evaluator.py:52-59 | on lists of one length the loop finds no difference exactly when they are equal |
| Evaluator.ZipDecidesTransitive | src/game/evaluator.py:52-59 | the loop's order on lists of one length is transitive |
| Evaluator.IsBetterIrreflexive | src/game/evaluator.py:45-61 | `_is_better_hand` of a triple with itself is False |
| Evaluator.IsBetterAsymmetric | src/game/evaluator.py:45-61 | at most one of two triples is better than the other |
| Evaluator.IsBetterTransitive | src/game/evaluator.py:45-61 | on five-card evaluations, better is transitive |
| Evaluator.IsBetterTotal | src/game/evaluator.py:45-61 | two five-card evaluations that neither beats are identical |
| Evaluator.IsBetterIsLexicographic | src/game/evaluator.py:45-61 | better is: higher rank value, else same rank and greater primaries, else same primaries and greater kickers |
| Evaluator.KeyGreaterIsBetter | src/game/evaluator.py:45-61 | on five-card evaluations, Python's tuple order used by `max` agrees with `_is_better_hand` |
| Evaluator.CombinationsSound | src/game/evaluator.py:34 | every combination is an in-order choice of k of the cards |
| Evaluator.CombinationsComplete | src/game/evaluator.py:34 | every in-order choice of k cards is among the combinations |
| Evaluator.CombinationsEmpty | src/game/evaluator.py:34 | there are no combinations exactly when there are fewer than k cards |
| Evaluator.Keep | src/game/evaluator.py:36-40 | one loop step always holds an evaluation afterwards |
| Evaluator.BestOfIsBest | src/game/evaluator.py:28-42 | the loop's result is None only for no evaluations; otherwise it is one of them and none is better |
| Evaluator.EvaluateHand | src/game/evaluator.py:22-42 | the loop over all five-card combinations returns `BestHand` of the cards |
| Evaluator.HandEvaluations | src/game/evaluator.py:33-35 | one evaluation per five-card combination, in combination order |
| Evaluator.BestOfHands | src/game/evaluator.py:33-42 | the loop's pick is the evaluation of one of the combinations, and no combination beats it |
| Evaluator.BestHandDefined | src/game/evaluator.py:27-42 | there is a result exactly when pocket plus community has at least five cards; otherwise `(None, [], [])` |
| Evaluator.BestHandIsBest | src/game/evaluator.py:27-42 | the result is the evaluation of some five of the cards, and no five of them evaluate better |
| Evaluator.BestHandShape | src/game/evaluator.py:27-42 | the best hand is a well-shaped five-card evaluation |
| Showdown.Eligible | src/game/evaluator.py:194-197 | the seat indices of the seats eligible for the pot (those not None): exactly those, each a valid seat |
| Showdown.MaxByKey | src/game/evaluator.py:203 | `max` returns one of the hands |
| Showdown.MaxByKeyIsBest | src/game/evaluator.py:203 | no hand is better than the one `max` returns |
| Showdown.SeatHands | src/game/evaluator.py:193-211 | the hands dictionary is keyed by exactly the seats eligible for the pot (those not None) |
| Showdown.InSeatOrder | src/game/evaluator.py:193-197 | one listed hand per seat eligible for the pot (not None), in seat order |
| Showdown.MaxOverSeats | src/game/evaluator.py:203 | `max` over the seats' hands picks one of them, and no seat's hand beats it |
| Showdown.EligibleSplit | src/game/evaluator.py:203-208 | when every seat eligible for the pot (not None) has a rank, at least one seat wins; each winner gets 1/(number of winners); no hand beats a winner's, and each winner beats every seat that did not win |
| Showdown.Award | src/game/evaluator.py:204-208 | the winners are exactly the seats whose hand equals the best one |
| Showdown.DetermineWinnersEmpty | src/game/evaluator.py:199-200 | the bare `{}` comes back exactly when every seat is folded |
| Showdown.DetermineWinnersCrash | src/game/evaluator.py:196-203 | the key fails exactly when some seat eligible for the pot (not None) has fewer than five cards in all |
| Showdown.DetermineWinnersHands | src/game/evaluator.py:193-211 | an award reports every seat eligible for the pot (not None) with its best hand, and no other seat |
| Showdown.WinnersAward | src/game/evaluator.py:199-208 | an award comes from a non-empty field in which every seat has a rank, around the `max` hand |
| Showdown.AwardSplit | src/game/evaluator.py:204-208 | an award around a hand that no other hand beats splits fairly |
| Showdown.SeatsBest | src/game/evaluator.py:203 | the hand `max` picks belongs to a seat eligible for the pot (not None) and no such seat beats it |
| Showdown.DetermineWinnersSplit | src/game/evaluator.py:186-213 | at least one winner; every winner's hand is unbeaten and beats every non-winner; each share is 1/(number of winners) |
| HandDescription.ValueName | src/game/evaluator.py:136-150 | a name exactly for the values 2..14 |
| HandDescription.ValueNameInjective | src/game/evaluator.py:136-150 | different card values have different names |
| HandDescription.NameAt | src/game/evaluator.py:159-180 | `value_to_name[values[i]]` succeeds exactly when i is a position and its value is 2..14 |
| HandDescription.ValuesText | src/game/evaluator.py:152-153 | `values_to_str` succeeds exactly when every value is 2..14 |
| HandDescription.Concat | src/game/evaluator.py:155-183 | an f-string succeeds exactly when every piece does |
| HandDescription.DescribeStartsWithHeading | src/game/evaluator.py:155-183 | every description begins with its rank's heading ("Straight Flush, ", "Pair of ", ...) |
| HandDescription.DescribeDeterminesRank | src/game/evaluator.py:155-183 | two hands described by the same text have the same rank |
| HandDescription.DescribeDefined | src/game/evaluator.py:155-183 | a royal flush is always "Royal Flush"; any other five-card evaluation is described exactly when all its values are 2..14 |
| HandDescription.DescribeEvaluateFive | src/game/evaluator.py:132-183 | five cards of a full deck always have a description |
| HoldemRules.ParseAction | src/game/game.py:446-451 | `Action(s)` gives the member whose value is s, and fails exactly when no member has that value |
| HoldemRules.TotalPotUpdate | src/game/game.py:74-75 | replacing one pot changes `get_total_pot` by the difference of the two amounts |
| HoldemRules.AddChipsTotal | src/game/game.py:17-19 | `add_chips` on one pot raises the total by exactly the chips added |
| HoldemRules.PositionAt | src/game/game.py:189-196 | the label at each key 0..5 of the positions table |
| HoldemRules.SeatAfter | src/game/game.py:123-124 | `(start + j) % 6` is always one of the six seats |
| HoldemRules.BlindSeat | src/game/game.py:206-207 | the blind seats are seats of the table |
| HoldemRules.PositionOf | src/game/game.py:188-198 | the label of a seat is the one keyed by (seat - button) mod 6 |
| HoldemRules.PositionNamesOneSeat | src/game/game.py:188-198 | each of the six labels names exactly one seat |
| HoldemRules.MoveButtonMovesLabels | src/game/game.py:188-198 | moving the button one seat moves every label one seat on: the seat wearing a label moves on by one, and seat s+1 under the new button has the label seat s had under the old one |
| HoldemRules.AvailableActions | src/game/game.py:239-254 | FOLD first; CHECK iff no bet; BET iff no bet and chips > 0; CALL iff a bet and chips > 0; RAISE iff additionally chips > bet - own contribution; no action twice |
| HoldemRules.CallAmount | src/game/game.py:115-121 | the call is what is owed to the bet, capped by the stack: the smaller of the two |
| HoldemRules.ActionError | src/game/game.py:262-322 | a ValueError exactly for CHECK facing a bet, or BET/RAISE with a missing or zero amount, in the wrong context, or below `current_bet + min_raise` (RAISE) or the big blind (BET); never for FOLD or CALL |
| HoldemRules.SanitiseDecision | src/game/game.py:434-456 | an unknown action text or an action not on offer becomes a fold of 0; otherwise the bot's action and amount stand |
| HoldemRules.SanitisedActionIsOffered | src/game/game.py:446-459 | whatever the bot answers, the action processed is one `get_available_actions` offered |
| HoldemRules.SeatAfterBack | src/game/game.py:358-365 | stepping from a seat comes back to it after six steps and not before |
| HoldemRules.BlindSeatIsSeatAfter | src/game/game.py:206-207 | the blinds sit one and two seats after the button, never on the same seat |
| HoldemRules.StepsToActive | src/game/game.py:358-365 | the loop stops at the first ACTIVE seat after the start, or after six steps back at the start |
| HoldemRules.NextActiveIsNearest | src/game/game.py:358-365 | the turn passes to the nearest ACTIVE seat clockwise; it returns to the starting seat only when no other seat is ACTIVE |
| HoldemRules.FirstToAct | src/game/game.py:377-383 | the search returns a seat that can act (ACTIVE, not all-in), or none when no seat from there on can |
| HoldemRules.RoundCompleteAgrees | src/game/game.py:367-406 | wherever the test as written returns, the corrected test returns the same verdict |
| HoldemRules.RoundCompleteHangs | src/game/game.py:367-383 | the test as written never returns exactly when the hand is past the flop, more than one player has not folded, the early exits do not apply and no seat can act |
| HoldemRules.AllInOnTheFlop | src/game/game.py:367-383 | a reachable flop state (a bet all-in and a call all-in, the others folded) satisfies the table invariant |
| HoldemRules.AllInOnTheFlopHangs | src/game/game.py:377-383 | in that state the test as written does not return, while the corrected test says the round is complete |
| HoldemRules.NoneToActCompletes | src/game/game.py:367-406 | corrected: once no seat can act, the betting round is complete |
| HoldemRules.UnmatchedBetContinues | src/game/game.py:393-406 | while a seat that can act has not matched a live bet, the round is not complete (unless one player is left) |
| HoldemRules.InsertAscending | src/game/game.py:82-84 | adding a contribution keeps the all-in levels ascending and duplicate-free, with exactly the old members plus the new one |
| HoldemRules.IncreasingDeterminedByMembers | src/game/game.py:78-84 | an ascending duplicate-free list is determined by its members, so the order of insertion does not matter |
| HoldemRules.AllInAmounts | src/game/game.py:78-84 | the all-in levels are ascending and are exactly the contributions of the all-in seats |
| HoldemRules.BuildPots | src/game/game.py:89-111 | building the pots level by level leaves at least the main pot |
| HoldemRules.SidePots | src/game/game.py:77-113 | `create_side_pot` leaves at least the main pot |
| HoldemRules.SidePotsTotal | src/game/game.py:77-113 | the rebuilt pots hold exactly what the non-folded seats put in this street, up to the largest all-in level; earlier streets' chips are not carried over |
| HoldemRules.FillSidePots | src/game/game.py:285-293 | the side-pot top-ups keep the main pot, and move exactly the chips they take from the remainder into the pots |
| HoldemRules.MainPotShare | src/game/game.py:277-283 | the main-pot top-up moves exactly the chips it takes from the stack into the pots |
| HoldemRules.AllInCallPots | src/game/game.py:275-299 | the whole stack of an all-in call enters the pots, and the seat's contribution grows by the stack |
| Betting.Act | src/game/game.py:256-352 | the ValueError exactly when `ActionError` gives one; otherwise no other seat's stack, status or contribution changes |
| Betting.AfterCall | src/game/game.py:267-310 | a call leaves a seated betting state; what it moves is stated by `ActMovesStackToContribution` and `ActConservesChips` |
| Betting.AfterBet | src/game/game.py:324-352 | a bet or raise leaves a seated betting state; its effect on the bet is stated by `BetSetsCurrentBet`, `CoveredRaiseRaisesBet` and `ShortAllInRaiseLowersBet` |
| Betting.AfterBlinds | src/game/game.py:205-237 | posting the blinds leaves a seated betting state; what it takes is stated by `BlindsPostedFromStacks` and `BlindsConserveChips` |
| Betting.ActConservesChips | src/game/game.py:256-352 | stacks plus pots are unchanged by every action, except an all-in call that rebuilds the pots |
| Betting.ActMovesStackToContribution | src/game/game.py:267-352 | what a CALL, BET or RAISE takes from the stack is added to the seat's street contribution |
| Betting.ActKeepsSound | src/game/game.py:256-352 | stacks stay non-negative and every ALL_IN seat stays in `all_in_players` |
| Betting.ActAllInEmptiesStack | src/game/game.py:271-352 | a call or bet that uses the stack up leaves the seat ALL_IN, recorded, with 0 chips; otherwise the stack stays positive and the status unchanged |
| Betting.BetSetsCurrentBet | src/game/game.py:327-352 | a covered bet sets `current_bet` to the amount and `min_raise` to the increment; an all-in one sets `current_bet` to the seat's contribution |
| Betting.CoveredRaiseRaisesBet | src/game/game.py:320-352 | a covered raise lifts the bet by at least the minimum raise |
| Betting.ShortAllInRaiseLowersBet | src/game/game.py:327-345 | a 50-chip all-in "raise" to 200 facing a bet of 100 leaves `current_bet` at 50, lowering it |
| Betting.BlindsKeepSound | src/game/game.py:205-237 | posting the blinds keeps stacks non-negative and ALL_IN seats recorded |
| Betting.BlindsPostedFromStacks | src/game/game.py:206-237 | each blind comes from its seat's stack, capped by it; a short blind empties the stack and records the seat as all-in; `current_bet` is the larger blind |
| Betting.BlindsConserveChips | src/game/game.py:209-222 | the blinds move chips from the two stacks into the main pot, unless the pots are rebuilt |
| Holdem.Popped | backend/game/deck.py:23-26 | a deal takes one card while the deck lasts, none after |
| Holdem.AfterDeals | backend/game/deck.py:23-26 | each deal shortens a non-empty deck by one |
| Holdem.DealFromDeck | backend/game/deck.py:23-26 | one deal takes the last card of a non-empty deck and leaves the rest; an empty deck gives nothing |
| Holdem.DealStep | backend/game/deck.py:23-26 | a deal moves the last card out and keeps the rest: nothing is lost or doubled |
| Holdem.DealOrderOfSeat | src/game/game.py:127-128 | deal i of a round goes to the seat i + 1 places after the button, and only to it |
| Holdem.Dealt | src/game/game.py:126-137 | each seat's pocket grows by the card of its own deal in the round |
| Holdem.DealtStep | src/game/game.py:127-131 | one deal adds its card to exactly one seat, or nothing once the deck is empty |
| Holdem.BuildSidePots | src/game/game.py:77-113 | the loops of `create_side_pot` compute `SidePots` |
| Holdem.NextActiveSeat | src/game/game.py:358-365 | the `while True` loop stops at `NextActive` |
| Holdem.PostedBlinds | src/game/game.py:205-237 | the blind-posting steps compute `AfterBlinds` |
| Holdem.TableArgumentsError | src/game/game.py:36-45 | a ValueError exactly when there are not six names, or a controller list not of length six, with the source's messages in that order |
| Holdem.NewTable | src/game/game.py:36-59 | the error of those checks, or a new table whose six seats each hold 100 chips |
| Holdem.TexasHoldem.View | src/game/game.py:367-406 | the fields the end-of-round test reads satisfy the table invariant |
| Holdem.TexasHoldem.AvailableNow | src/game/game.py:239-254 | the actions of the seat to act |
| Holdem.TexasHoldem.constructor | src/game/game.py:47-59 | six ACTIVE seats of 100 chips, a full shuffled deck, no cards, button and turn at seat 0, one empty pot, no bet |
| Holdem.TexasHoldem.ResetHand | src/game/game.py:61-72 | a fresh full deck, no community cards, PREFLOP, one empty pot, no bet, no all-in seats, every seat ACTIVE with no cards |
| Holdem.TexasHoldem.MoveButton | src/game/game.py:123-124 | the button moves to (button + 1) mod 6 |
| Holdem.TexasHoldem.DealHoleCards | src/game/game.py:126-137 | twelve deals; each seat gets the cards of its place in the two rounds, starting left of the button |
| Holdem.TexasHoldem.DealRound | src/game/game.py:127-131 | one round of six deals |
| Holdem.TexasHoldem.DealFlop | src/game/game.py:139-152 | a ValueError with nothing changed unless PREFLOP; otherwise burn one card, add the next three (while the deck lasts), stage FLOP |
| Holdem.TexasHoldem.DealTurn | src/game/game.py:154-166 | a ValueError with nothing changed unless FLOP; otherwise burn one, add one, stage TURN |
| Holdem.TexasHoldem.DealRiver | src/game/game.py:168-180 | a ValueError with nothing changed unless TURN; otherwise burn one, add one, stage RIVER |
| Holdem.TexasHoldem.CreateSidePot | src/game/game.py:77-113 | the pots become `SidePots` of the table; the result says whether there is more than one pot |
| Holdem.TexasHoldem.PayAllInCall | src/game/game.py:275-299 | pays an all-in call into the pots as `AllInCallPots` prescribes |
| Holdem.TexasHoldem.MoveToNextPlayer | src/game/game.py:358-365 | the turn passes to `NextActive` from the current seat |
| Holdem.TexasHoldem.IsBettingRoundComplete | src/game/game.py:367-406 | the corrected round-completion verdict of the table (see Findings), which is the source's verdict wherever the source returns |
| Holdem.TexasHoldem.ResetStreetBets | src/game/game.py:408-412 | no bet, no last bettor, zero contributions, and the seat left of the button to act |
| Holdem.TexasHoldem.PrepareHand | src/game/game.py:200-203 | reset, button moved, and two hole cards dealt to each seat from the fresh deck |
| Holdem.TexasHoldem.StartNewHand | src/game/game.py:200-237 | a fresh hand is dealt and the blinds are posted as `AfterBlinds` says; the seat three after the button acts first |
| Holdem.TexasHoldem.PostBlinds | src/game/game.py:205-237 | the betting state becomes `AfterBlinds`, and the seat three after the button acts |
| Holdem.TexasHoldem.ProcessAction | src/game/game.py:256-355 | a ValueError leaves everything unchanged; otherwise the table becomes `Act` of the action, the turn passes to `NextActive`, and the result is the corrected round-completion verdict (see Findings), equal to the source's wherever the source returns |
| Holdem.TexasHoldem.CallCurrent | src/game/game.py:267-310 | the CALL branch computes `AfterCall` |
| Holdem.TexasHoldem.BetCurrent | src/game/game.py:324-352 | the BET/RAISE branch computes `AfterBet` |
| LegacyHoldem.CountActive | src/game.py:110-112 | the number of active seats, zero exactly when no seat is active |
| LegacyHoldem.FirstActive | src/game.py:110-112 | `get_active_players()[0]` is an active seat with no active seat before it |
| LegacyHoldem.SoleActiveSeat | src/game.py:336-339 | with exactly one active seat, the first active seat is the only one |
| LegacyHoldem.Statuses | src/game.py:221-229 | the `is_active` flags read as ACTIVE/FOLDED statuses, seat for seat |
| LegacyHoldem.NextActiveIsActive | src/game.py:221-229 | the search of `move_to_next_player` stops on an active seat whenever there is one |
| LegacyHoldem.TakeBlinds | src/game.py:136-142 | taking the blinds removes 30 chips from the stacks in total |
| LegacyHoldem.HandStart | src/game.py:126-151 | after the blinds every seat is active, the pot holds 30, the bet is the big blind, no last bettor, minimum raise 20 |
| LegacyHoldem.HandStartTakesFullBlinds | src/game.py:133-151 | 10 and 20 come out of the two seats after the button, in full even below zero, and nothing changes elsewhere; those seats' contributions are the blinds |
| LegacyHoldem.HandStartConservesChips | src/game.py:133-142 | the stacks plus the pot after the blinds equal the stacks before |
| LegacyHoldem.LegacyAvailable | src/game.py:153-167 | FOLD always; CHECK and BET iff there is no bet; CALL and RAISE together iff the whole bet is below the stack; no duplicates |
| LegacyHoldem.LegacyOffersDiffer | src/game.py:160-165 | the legacy offers differ from the six-seat engine's for an exact-stack call and for a zero stack |
| LegacyHoldem.LegacyError | src/game.py:176-213 | exactly the ValueErrors of check and bet/raise, in their order; fold and call never fail |
| LegacyHoldem.LegacyAct | src/game.py:169-215 | an action fails exactly when `LegacyError` names an error, with that error; otherwise the result is a seated round |
| LegacyHoldem.LegacyActConservesChips | src/game.py:181-215 | every accepted action moves chips only between the acting stack and the pot |
| LegacyHoldem.LegacyCallIsCapped | src/game.py:181-190 | a call always goes through and pays the amount owed on the street capped at the stack, into the pot and the seat's contribution |
| LegacyHoldem.LegacyBetRefusals | src/game.py:192-208 | a bet or raise fails iff the amount is missing or zero, the bet on the table is wrong for it, it is under the minimum, or it needs more than the stack |
| LegacyHoldem.LegacyBetSetsBet | src/game.py:210-215 | an accepted bet makes the amount the table's bet and the seat's contribution, records the last bettor, and leaves the minimum raise at 0 |
| LegacyHoldem.LegacyFoldDeactivates | src/game.py:173-174 | a fold always goes through and clears only the acting seat's flag |
| LegacyHoldem.LegacyFirstToAct | src/game.py:236-245 | after the flop, the first active seat left of the button (none, and no end, when no seat is active); before it, UTG |
| LegacyHoldem.LegacyRoundComplete | src/game.py:231-263 | hangs exactly after the flop with no active seat; one active seat ends the round; a completed round with a bet has every active seat matched |
| LegacyHoldem.LegacyUnmatchedContinues | src/game.py:251-263 | with several active seats and one active seat behind the bet the round goes on |
| LegacyHoldem.LegacyBigBlindOption | src/game.py:254-260 | preflop, with only the blinds in and all level, the round ends unless the turn is back at the big blind |
| LegacyHoldem.Awarded | src/game.py:336-340 | one stack per seat after the award; what it pays is stated by `AwardGoesToSoleSurvivor` |
| LegacyHoldem.AwardGoesToSoleSurvivor | src/game.py:336-342 | with one active seat that seat gains the pot and no other stack changes; otherwise nothing is paid |
| LegacyHoldem.ActionStep | src/game.py:171-215 | the branch-by-branch step computes `LegacyAct` |
| LegacyHoldem.FirstActiveFrom | src/game.py:238-243 | the loop finds the same seat as the seat search of `move_to_next_player` |
| LegacyHoldem.NewLegacyTable | src/game.py:21-34 | a ValueError iff there are not six names; otherwise a fresh table with every seat on the starting chips |
| LegacyHoldem.LegacyTable.Bets | src/game.py:26-34 | the fields an action changes form a seated round |
| LegacyHoldem.LegacyTable.AvailableNow | src/game.py:153-167 | the actions offered to the seat to act are `LegacyAvailable` of its stack |
| LegacyHoldem.LegacyTable.constructor | src/game.py:25-34 | six seats on the starting chips, all active, button and turn at 0, pot and bet 0 |
| LegacyHoldem.LegacyTable.StartNewHand | src/game.py:126-151 | the button moves one seat, the round becomes `HandStart` of the old stacks, PREFLOP, UTG to act |
| LegacyHoldem.LegacyTable.MoveToNextPlayer | src/game.py:221-229 | the turn passes to the next active seat, or stays after a full lap |
| LegacyHoldem.LegacyTable.IsBettingRoundComplete | src/game.py:231-263 | the verdict is `LegacyRoundComplete` of the table |
| LegacyHoldem.LegacyTable.ApplyAction | src/game.py:171-215 | a refusal is `LegacyError` with nothing changed; otherwise the table becomes `LegacyAct` |
| LegacyHoldem.LegacyTable.ProcessAction | src/game.py:169-219 | a ValueError leaves the table unchanged; otherwise the action is applied, the turn passes and the result is the round verdict |
| LegacyHoldem.LegacyTable.ResetStreetBets | src/game.py:265-269 | no bet, no contributions, no last bettor, and the seat left of the button to act |
| LegacyHoldem.LegacyTable.DealFlop | src/game.py:67-80 | from PREFLOP the stage becomes FLOP; from any other stage the ValueError and no change |
| LegacyHoldem.LegacyTable.DealTurn | src/game.py:82-94 | from FLOP the stage becomes TURN; otherwise the ValueError and no change |
| LegacyHoldem.LegacyTable.DealRiver | src/game.py:96-108 | from TURN the stage becomes RIVER; otherwise the ValueError and no change |
| LegacyHoldem.LegacyTable.AwardPot | src/game.py:336-340 | the stacks become `Awarded` of the old stacks |
| Snapshot.CurrentActions | frontend/src/pages/ActionButtons.jsx:11 | the actions of the player to act when that index is in range, else the empty list |
| GameTable.FirstHuman | frontend/src/pages/GameTable.jsx:41 | the first seat that is not a bot, and none exactly when every seat is a bot |
| GameTable.NonFolded | frontend/src/pages/GameTable.jsx:158 | exactly the seats not folded, in seat order |
| GameTable.WithChips | frontend/src/pages/GameTable.jsx:68 | exactly the seats with chips, in seat order |
| GameTable.Richest | frontend/src/pages/GameTable.jsx:174-176 | a seat with the most chips, and no earlier seat has as many |
| GameTable.HandOutcome | frontend/src/pages/GameTable.jsx:157-190 | nothing (the `reduce` throws) exactly with no players; the sole unfolded seat wins, counted for the human iff it is the human; otherwise the first richest seat wins, counted iff the human's chips exceed the chips the handler last saw |
| GameTable.EndOf | frontend/src/pages/GameTable.jsx:56-77 | lost iff the first human has no chips; won iff not lost and exactly one seat has chips and it is human |
| GameTable.WonMeansBotsBroke | frontend/src/pages/GameTable.jsx:67-72 | with one human seat, won iff every bot has no chips and the human has some |
| GameTable.OnlyOneWithChips | frontend/src/pages/GameTable.jsx:68 | a single seat with chips is the whole filter result |
| GameTable.NoneWithChips | frontend/src/pages/GameTable.jsx:68 | no seat with chips leaves the filter empty |
| GameTable.AfterPublish | frontend/src/pages/GameTable.jsx:30-49 | a shown state with no community cards counts one more hand played; the human's chips become `finalChips`; hands won unchanged |
| GameTable.ReplayAppend | frontend/src/pages/GameTable.jsx:10-27 | replaying two runs of page events one after the other is replaying their concatenation |
| GameTable.CommentEvents | frontend/src/pages/GameTable.jsx:127-138 | no comment adds nothing; a comment is shown with its speaker, held 3000 ms and cleared; the lookup throws iff there is a comment and its index is out of range |
| GameTable.ActionClickEvents | frontend/src/pages/GameTable.jsx:209-215 | 'bet' and 'raise' send nothing; any other action is sent at once |
| GameTable.BetSubmitEvents | frontend/src/pages/GameTable.jsx:217-226 | an empty or non-positive amount is refused with the error and no request; otherwise the chosen action is sent with the amount |
| GameTable.EndCheckEvents | frontend/src/pages/GameTable.jsx:56-77 | nothing unless a hand is complete, a state is shown and no end is set; then the end of `EndOf`, or the hand flag cleared |
| GameTable.TimerEvents | frontend/src/pages/GameTable.jsx:80-116 | an end state arms the 5000 ms redirect to its page; otherwise a winner arms the 3000 ms next-hand timer; otherwise nothing |
| GameTable.ReplyEventsShape | frontend/src/pages/GameTable.jsx:124-149 | one bot reply: a failure alone when the speaker lookup throws; otherwise the comment shown, held and cleared, the state published once, then at most a hand result or a failure; the loop goes on only when a bot is to act and the hand is not over |
| GameTable.TurnEvents | frontend/src/pages/GameTable.jsx:122-150 | a turn that goes on had a reply |
| GameTable.ReplyEnds | frontend/src/pages/GameTable.jsx:124-154 | one reply never ends the game, and a failure comes only last and only when the loop stops |
| GameTable.TurnShape | frontend/src/pages/GameTable.jsx:123-154 | each turn is a request followed by what its reply adds, or by the failure when there is none |
| GameTable.BotRunEnd | frontend/src/pages/GameTable.jsx:119-155 | the bot loop ends on a hand result, a failure, or a shown state with a human to act |
| GameTable.BotFailureIsLast | frontend/src/pages/GameTable.jsx:151-154 | a failure ends the bot loop: no request follows it |
| GameTable.BotRunKeepsEnd | frontend/src/pages/GameTable.jsx:119-155 | the bot loop never ends the game |
| GameTable.EndStateSticks | frontend/src/pages/GameTable.jsx:56-116 | once an end is set, the end check does nothing and neither a new hand nor a human action changes it |
| GameTable.StartKeepsEnd | frontend/src/pages/GameTable.jsx:192-207 | starting a hand never ends the game |
| GameTable.PlayerKeepsEnd | frontend/src/pages/GameTable.jsx:228-251 | a human action never ends the game |
| GameTable.HandsPlayedCountsFreshDeals | frontend/src/pages/GameTable.jsx:30-38 | hands played grows by exactly the number of shown states with no community cards |
| GameTable.TablePage.constructor | frontend/src/pages/GameTable.jsx:10-27 | the page state is the replay of its log, which holds the initial state shown, if any |
| GameTable.TablePage.Record | frontend/src/pages/GameTable.jsx:10-27 | one event is appended to the log and applied to the page state |
| GameTable.TablePage.RecordAll | frontend/src/pages/GameTable.jsx:10-27 | a run of events is appended to the log and the page state stays its replay |
| GameTable.TablePage.HandleHandComplete | frontend/src/pages/GameTable.jsx:157-190 | the hand result of `HandOutcome` is recorded, and nothing when it throws |
| GameTable.TablePage.ShowTableComment | frontend/src/pages/GameTable.jsx:127-138 | the log grows by `CommentEvents`, and by nothing when the lookup throws |
| GameTable.TablePage.PublishBotReply | frontend/src/pages/GameTable.jsx:141-149 | the state is shown, then the hand ends or the loop is told whether to go on |
| GameTable.TablePage.HandleBotReply | frontend/src/pages/GameTable.jsx:124-149 | the log grows by `ReplyEvents` of the reply |
| GameTable.TablePage.ProcessBotActions | frontend/src/pages/GameTable.jsx:119-155 | the log grows by the whole bot loop `BotEvents` |
| GameTable.TablePage.BotStep | frontend/src/pages/GameTable.jsx:122-150 | one turn adds the head of the run from that turn, and the rest is the run from the next turn |
| GameTable.TablePage.BotTurn | frontend/src/pages/GameTable.jsx:123-154 | the log grows by `TurnEvents` of the turn |
| GameTable.TablePage.HandleStartGame | frontend/src/pages/GameTable.jsx:192-207 | the log grows by `StartEvents` |
| GameTable.TablePage.StartHand | frontend/src/pages/GameTable.jsx:197-202 | the new hand is shown and the bots run when one of them acts first |
| GameTable.TablePage.HandlePlayerAction | frontend/src/pages/GameTable.jsx:228-251 | the log grows by `PlayerEvents` |
| GameTable.TablePage.ShowPlayerReply | frontend/src/pages/GameTable.jsx:237-246 | the reply is shown, then the hand ends, or the bots run |
| GameTable.TablePage.HandleActionClick | frontend/src/pages/GameTable.jsx:209-215 | the log grows by `ActionClickEvents` |
| GameTable.TablePage.HandleBetSubmit | frontend/src/pages/GameTable.jsx:217-226 | the log grows by `BetSubmitEvents` |
| GameTable.TablePage.CheckGameEnd | frontend/src/pages/GameTable.jsx:56-77 | the log grows by `EndCheckEvents` of the state before |
| GameTable.TablePage.ArmTimers | frontend/src/pages/GameTable.jsx:80-116 | the log grows by `TimerEvents` of the state before |
| GameTable.TablePage.FireNextHand | frontend/src/pages/GameTable.jsx:109-113 | the winner banner is cleared and a new hand is started |
| ActionButtons.MinBet | frontend/src/pages/ActionButtons.jsx:35-39 | the big blind when a bet is offered, else the minimum raise when a raise is, else 0; a non-zero minimum only when a bet or raise is offered |
| ActionButtons.Candidates | frontend/src/pages/ActionButtons.jsx:70-78 | four candidates: Min at minBet, "1/2 Pot" at the smaller of half the pot (rounded down) and the stack, "Pot" at the smaller of the pot and the stack, All In at the stack plus this street's stake; the half-pot amount never exceeds the pot amount |
| ActionButtons.FirstWithValue | frontend/src/pages/ActionButtons.jsx:81 | the first index with the value, or the length when there is none |
| ActionButtons.KeptIndices | frontend/src/pages/ActionButtons.jsx:79-84 | ascending indices, exactly those whose entry is the first with its value and at least minBet |
| ActionButtons.Select | frontend/src/pages/ActionButtons.jsx:79-84 | the entries at the chosen indices, in order |
| ActionButtons.Presets | frontend/src/pages/ActionButtons.jsx:67-85 | no presets when the stack is 0 |
| ActionButtons.PresetsShape | frontend/src/pages/ActionButtons.jsx:67-85 | preset values pairwise distinct and at least minBet, captions in Min, 1/2 Pot, Pot, All In order, and Min first whenever there are chips |
| ActionButtons.FilterOrdered | frontend/src/pages/ActionButtons.jsx:79-84 | the filter keeps the caption order of its input |
| ActionButtons.FilterShape | frontend/src/pages/ActionButtons.jsx:79-84 | the filter's output has distinct values, each at least minBet, in input order |
| ActionButtons.FilterKeepsFirst | frontend/src/pages/ActionButtons.jsx:79-84 | a first entry at least minBet is kept at the head |
| ActionButtons.CandidateOrder | frontend/src/pages/ActionButtons.jsx:74-78 | the candidates' captions come in display order |
| ActionButtons.AllInAboveMaxBet | frontend/src/pages/ActionButtons.jsx:72 | with a stake already down on the street, the All In preset exceeds the stack the amount field allows |
| ActionButtons.TypedValue | frontend/src/pages/ActionButtons.jsx:138 | a typed amount that does not parse reads as 0, otherwise as its parsed value; 0 exactly for no number or the number 0 |
| ActionButtons.ConfirmAction | frontend/src/pages/ActionButtons.jsx:199 | 'bet' iff a bet is offered, else 'raise'; the confirmed action is on offer exactly when a bet or a raise is |
| ActionButtons.BetControls.constructor | frontend/src/pages/ActionButtons.jsx:5 | no amount and the slider at 0 |
| ActionButtons.BetControls.OnNewState | frontend/src/pages/ActionButtons.jsx:9-24 | a positive minBet with a bet or raise offered sets both amounts to it; otherwise nothing changes |
| ActionButtons.BetControls.OnTyped | frontend/src/pages/ActionButtons.jsx:137-143 | a typed value within minBet..stack sets both amounts; otherwise nothing changes |
| ActionButtons.BetControls.OnSlider | frontend/src/pages/ActionButtons.jsx:61-65 | the slider sets both amounts |
| ActionButtons.BetControls.OnPreset | frontend/src/pages/ActionButtons.jsx:185-188 | a preset sets both amounts to its value |
| ActionButtons.BetControls.Confirm | frontend/src/pages/ActionButtons.jsx:197-202 | sends `ConfirmAction` with the current amount, unchecked against the bounds |
| Analytics.Load | frontend/src/pages/Analytics.jsx:53-65 | each of the thirteen keys: a missing key reads as its default (empty series, zero totals, five zero game sizes, no bots, zero sessions), a stored value is kept |
| Analytics.Divide | frontend/src/pages/Analytics.jsx:84-89 | a quotient exactly when the divisor is non-zero, and then it times the divisor is the dividend; 0/0 is NaN |
| Analytics.Percentage | frontend/src/pages/Analytics.jsx:83-87 | set iff some hand was played, and then it is 100 times the count over the hands played |
| Analytics.WinRate | frontend/src/pages/Analytics.jsx:83-84 | set iff some hand was played, and then it is 100 times won over played |
| Analytics.PfrPercentage | frontend/src/pages/Analytics.jsx:83-85 | set iff some hand was played, and then it is 100 times the pre-flop raises over the hands played |
| Analytics.VpipPercentage | frontend/src/pages/Analytics.jsx:83-86 | set iff some hand was played, and then it is 100 times the voluntary pot entries over the hands played |
| Analytics.PercentageBounds | frontend/src/pages/Analytics.jsx:83-87 | a count between none and all of the hands played gives a rate from 0 to 100 |
| Analytics.PercentageMonotone | frontend/src/pages/Analytics.jsx:83-87 | with the hands played fixed, a larger count never gives a smaller rate |
| Analytics.AveragePerSession | frontend/src/pages/Analytics.jsx:89 | with no sessions the average is not a number but an infinity or NaN |
| Analytics.Favourite | frontend/src/pages/Analytics.jsx:93-95 | a count at least every entry's, never negative; positive only for an entry that is there; a zero count keeps the empty name |
| Analytics.FavouriteIsFirstMaximum | frontend/src/pages/Analytics.jsx:93-95 | the favourite is the first entry with the greatest positive count |
| Analytics.FavouriteBot | frontend/src/pages/Analytics.jsx:92-97 | computed iff some bot was ever chosen |
| Analytics.MaxOf | frontend/src/pages/Analytics.jsx:101 | `Math.max`: an element at least every element |
| Analytics.IndexOf | frontend/src/pages/Analytics.jsx:101 | `indexOf`: the first index holding the value |
| Analytics.MostPlayedSize | frontend/src/pages/Analytics.jsx:100-103 | set iff some size count is positive; then the size is the first index of the greatest count plus two, with that count |
| Analytics.Reverse | frontend/src/pages/Analytics.jsx:117 | the elements in reverse order |
| Analytics.SessionPoints | frontend/src/pages/Analytics.jsx:112-116 | one point per stored session |
| Analytics.SessionChartOrder | frontend/src/pages/Analytics.jsx:111-118 | point j is the session n-1-j, labelled Game j+1, its won and money counts 0 when missing |
| Analytics.PositiveIndices | frontend/src/pages/Analytics.jsx:137-142 | the indices whose count is positive, each once, in increasing order |
| Analytics.GameSizeData | frontend/src/pages/Analytics.jsx:137-142 | exactly the sizes with a positive count, each named by its player count |
| Analytics.GameSizeDataInIndexOrder | frontend/src/pages/Analytics.jsx:137-142 | slice k is the size at the k-th positive index, so the slices keep the stored order that the chart's colours follow |
| Analytics.SizeNamesDistinct | frontend/src/pages/Analytics.jsx:139 | different sizes get different slice names |
| Analytics.Insert | frontend/src/pages/Analytics.jsx:149 | insertion adds exactly the new slice |
| Analytics.InsertKeepsDescending | frontend/src/pages/Analytics.jsx:149 | inserting into a descending list keeps it descending |
| Analytics.BotSelectionData | frontend/src/pages/Analytics.jsx:145-150 | the slices are descending by count and a permutation of the stored entries |
| Analytics.Slices | frontend/src/pages/Analytics.jsx:146-149 | one slice per stored entry, with its name and count, in stored order |
| Analytics.InsertStable | frontend/src/pages/Analytics.jsx:150 | inserting into a descending list puts the new slice after every slice with the same count |
| Analytics.BotSelectionStable | frontend/src/pages/Analytics.jsx:145-150 | the sort is stable: for every count, the slices with that count appear in the stored order |
| ChooseBots.CountParam | frontend/src/pages/ChooseBots.jsx:8 | a missing or empty `count` parameter reads as "1", any other is kept; the count text is never empty |
| ChooseBots.NumberOfDigits | frontend/src/pages/ChooseBots.jsx:9 | `Number` of a digit string is a finite non-negative number |
| ChooseBots.CountRoundTrip | frontend/src/pages/ChooseBots.jsx:8-9 | the count the picker page puts in the address arrives as `maxBots` unchanged |
| ChooseBots.Without | frontend/src/pages/ChooseBots.jsx:17 | the bot is gone, every other member stays, nothing is added, and a bot that was absent changes nothing |
| ChooseBots.WithoutCutsOut | frontend/src/pages/ChooseBots.jsx:17 | removing a bot chosen once cuts out its slot and keeps the others' order |
| ChooseBots.Toggled | frontend/src/pages/ChooseBots.jsx:15-23 | a chosen bot is removed; an unchosen one is appended iff fewer than `maxBots` are chosen; no other bot changes |
| ChooseBots.ToggledValid | frontend/src/pages/ChooseBots.jsx:15-23 | toggling keeps the selection free of repeats and within the limit it was built under |
| ChooseBots.SelectionWithinLimit | frontend/src/pages/ChooseBots.jsx:19 | a selection built under a whole-number limit never exceeds it |
| ChooseBots.BotSelection.constructor | frontend/src/pages/ChooseBots.jsx:13 | the selection starts empty under the page's limit |
| ChooseBots.BotSelection.Toggle | frontend/src/pages/ChooseBots.jsx:15-23 | the selection becomes `Toggled` of the old one and stays valid |
| ChooseBots.LowerChar | frontend/src/pages/ChooseBots.jsx:34 | an ASCII capital becomes its lower-case letter; any other character is kept; the result is never a capital, and it is a lower-case letter exactly when the input is a letter |
| ChooseBots.Lower | frontend/src/pages/ChooseBots.jsx:34 | each character lower-cased, length kept |
| ChooseBots.CreateGameArrays | frontend/src/pages/ChooseBots.jsx:28-35 | the human first with no bot id, then each chosen bot in order with its lower-cased name as id |
| ChooseBotCount.Clamp | frontend/src/pages/ChooseBotCount.jsx:16-22 | the count lands in 1..5 (or stays NaN); values in range are kept, lower ones become 1, higher ones 5 |
| ChooseBotCount.Decrement | frontend/src/pages/ChooseBotCount.jsx:147 | minus never goes below 1 and lowers by one from 2 up; NaN stays NaN |
| ChooseBotCount.Increment | frontend/src/pages/ChooseBotCount.jsx:170 | plus never goes above 5 and raises by one up to 4; NaN stays NaN |
| ChooseBotCount.ClampIdempotent | frontend/src/pages/ChooseBotCount.jsx:16-22 | clamping twice is clamping once |
| ChooseBotCount.ClampMonotone | frontend/src/pages/ChooseBotCount.jsx:16-22 | a larger typed value never gives a smaller count |
| ChooseBotCount.ButtonsKeepRange | frontend/src/pages/ChooseBotCount.jsx:147 | the minus and plus buttons keep a count inside 1..5 |
| ChooseBotCount.PlusThenMinus | frontend/src/pages/ChooseBotCount.jsx:147 | plus then minus returns to the count whenever plus did not stop at 5 |
| ChooseBotCount.ContinueUrl | frontend/src/pages/ChooseBotCount.jsx:11-14 | the address is the bot-choice page followed by the count's decimal digits, which read back as the count |
| ChooseBotCount.BotCountPicker.constructor | frontend/src/pages/ChooseBotCount.jsx:7 | the count starts at 1 |
| ChooseBotCount.BotCountPicker.TypeInput | frontend/src/pages/ChooseBotCount.jsx:16-22 | the count becomes `Clamp` of the typed number |
| ChooseBotCount.BotCountPicker.Minus | frontend/src/pages/ChooseBotCount.jsx:147 | the count becomes `Decrement` of the old one and stays in range |
| ChooseBotCount.BotCountPicker.Plus | frontend/src/pages/ChooseBotCount.jsx:170 | the count becomes `Increment` of the old one and stays in range |
| ChooseBotCount.BotCountPicker.Continue | frontend/src/pages/ChooseBotCount.jsx:11-14 | navigates to the bot-choice page with the current count |
| Coach.BigBlindCount | backend/bots/ai_poker_coach.py:47 | Python floor division by a positive blind (the count of whole blinds below the stack), else 0 |
| Coach.StackSituation | backend/bots/ai_poker_coach.py:43-55 | always a key of the guideline table; Deep iff at least 100 blinds, Micro iff under 20, Micro with no positive blind |
| Coach.BigBlindCountMonotone | backend/bots/ai_poker_coach.py:47 | a larger stack never has fewer blinds |
| Coach.StackSituationMonotone | backend/bots/ai_poker_coach.py:43-55 | a larger stack never falls in a shallower bucket |
| Coach.LowerAll | backend/bots/ai_poker_coach.py:62 | lower-casing keeps the length |
| Coach.Capitalize | backend/bots/ai_poker_coach.py:62 | `capitalize` keeps the length |
| Coach.Join | backend/bots/ai_poker_coach.py:69 | joining nothing gives "", joining one item gives that item |
| Coach.OrNone | backend/bots/ai_poker_coach.py:69 | an empty join reads as "None"; any other text is kept |
| Coach.PlayerLines | backend/bots/ai_poker_coach.py:71-77 | one line per player |
| Coach.CurrentEntry | backend/bots/ai_poker_coach.py:79-84 | an index at or past the end gives `{}`; a negative index with no players key raises; a found entry is one of the players |
| Coach.SummaryNoneIffRaises | backend/bots/ai_poker_coach.py:61-102 | the summary is "None" exactly when the current-player lookup raised |
| Coach.OutOfRangeCurrentPlayer | backend/bots/ai_poker_coach.py:80-87 | an index past the end gives name "Unknown", actions "None" and call 0 |
| Coach.EmptyBoard | backend/bots/ai_poker_coach.py:69 | no community cards, or no key, reads "Community Cards: None" |
| Coach.NegativeIndexFromEnd | backend/bots/ai_poker_coach.py:79-84 | a negative index within the list counts from its end |
| Coach.FormatGameState | backend/bots/ai_poker_coach.py:57-102 | the players' lines built in a loop give exactly the summary `Summary` describes |

## Left out

- Network, storage and navigation: the HTTP endpoints, `fetch`/`api.post`, `localStorage` and the router are not modelled. Server replies are parameters, in order, where `None` stands for a failed request. Stored analytics values are a record of optional integers and lists. A navigation is a value naming its page.
- Time: `setTimeout`, the 3000 ms comment hold, the 3000 ms and 5000 ms timers and `time.sleep` are ordered events (`Hold`, `ScheduleNextHand`, `ScheduleRedirect`), not clock arithmetic. React's effect scheduling is reduced to explicit handler and effect calls.
- Randomness: `random.shuffle` is any permutation of the cards. `Math.random` animations and tips are not modelled.
- Console I/O and the interactive loops: `play_betting_round` and `play_hand` in both engines (`input`, `print`, `time.sleep`), apart from the bot-decision sanitiser and the single-pot award, which are modelled.
- The LLM calls: `AIPokerCoach.get_advice` and the bot classes. Only the coach's two local helpers are modelled.
- Unseen modules: suit.py, status.py, src/game/deck.py, backend/game/game.py and the `player` and `deck` modules of src/game.py are not part of this model. A suit is one of four single-character symbols. A status is ACTIVE, FOLDED or ALL_IN. The six-seat table uses the deck of backend/game/deck.py.
- Holdem.TexasHoldem: each seat's stack, status and cards are kept in sequences indexed by seat, not in six `Player` objects. The aliasing of those objects is therefore not modelled.
- Holdem.TexasHoldem.constructor: `street_contributions`, `last_bettor_idx` and `min_raise` get their start-of-hand values here. In the source they do not exist until `start_new_hand`, so an earlier `process_action` or `create_side_pot` raises AttributeError.
- LegacyHoldem.LegacyTable.constructor: the same street bookkeeping is initialised here. The table's cards (deck, pockets, community cards) are left out, because its deck and player modules are not part of this model.
- Holdem.TexasHoldem.ProcessAction: in the states where the source's `is_betting_round_complete` never returns (`RoundCompleteHangs`), it returns the corrected verdict `Ok(true)`. Everywhere else its result is the source's verdict.
- Holdem.TexasHoldem.IsBettingRoundComplete: the same corrected verdict where the source never returns.
- LegacyHoldem.LegacyTable.ProcessAction: requires that after the flop some seat stays active after the action. Without that, the source's `is_betting_round_complete` never returns, and a method must terminate. `LegacyRoundComplete` and `LegacyFirstToAct` describe that case as `None`.
- LegacyHoldem.LegacyTable.IsBettingRoundComplete: requires an active seat after the flop, for the same reason.
- Betting.ActConservesChips: stated only for actions that do not rebuild the pots. `create_side_pot` rebuilds the main pot from this street's contributions alone, so chips from earlier streets are not conserved across a rebuild.
- Betting.BlindsConserveChips: stated only when posting the blinds does not rebuild the pots, for the same reason.
- Side pots: chip conservation across `create_side_pot` is not proved. `SidePots` and `BuildPots` model it literally; their contracts state only that the main pot remains.
- Floating point: the showdown share `1.0 / len(winners)` is a Dafny `real`. The percentages and their `toFixed` text are exact rationals or not modelled. The per-session average is a quotient that may be an infinity or NaN. `Number` and `parseInt` are given as already-parsed values.
- ChooseBots.NumberOfDigits: `Number` is modelled only on strings of decimal digits, the only form the bot-count page writes. Text such as "abc" or "1e2" in a hand-edited address is not modelled.
- ActionButtons.TypedValue: `parseInt` itself is a parameter (`None` for NaN). The slider always yields a number and is given as an integer.
- ActionButtons.Presets: the preset list is described by `PresetsShape`. Its own contract states only the empty case.
- Analytics: the playing-style chart (lines 120-134, the VPIP and PFR values per session) is left out, because its values are floating-point percentages formatted with `toFixed`. The stored per-session lists are loaded with their defaults; the PFR and VPIP rates of lines 85-86 are modelled as exact rationals without their `toFixed` text.
- GameTable: `selectedAction` and `showBetInput` are not page state. `handleActionClick` passes the action through, and `handleBetSubmit` takes the selected action as a parameter. The effect that re-reads the router's history state (lines 100-105) and the `startingChips` and `bestHand` statistics, which nothing updates, are left out. The markup is left out.
- Presentation-only components (Home, App, GameLost, GameWon, SoundManager, Recommendation, CoachChat, UnifiedCoach) are not modelled.

## Findings

| source | as written | input that shows it | evidently intended | confidence | as-written member | corrected member |
|---|---|---|---|---|---|---|
| src/game/game.py:377-383 | after the flop, `is_betting_round_complete` searches for the first seat that is ACTIVE and not all-in with `while first_to_act is None`, which never ends when no such seat exists | on the flop, seat 0 bets its last 50 and seat 1 calls all-in for 50; every other seat has folded (`AllInOnTheFlop`) | the search stops after one lap, and a round in which nobody can act any more is complete | not executed | HoldemRules.RoundCompleteAsWritten (`AllInOnTheFlopHangs` shows it does not return) | HoldemRules.RoundComplete (`NoneToActCompletes`; `RoundCompleteAgrees` shows it agrees wherever the source returns) |
