/**
 * The game state as the browser client receives it: the JSON snapshot the
 * server returns from its game endpoints (the `game_state` object the pages
 * under frontend/src/pages read). Only the keys the client pages use are kept;
 * a missing or null list is read as the empty list.
 */
module Snapshot {

  /** One entry of `game_state.players`. */
  datatype PlayerView = PlayerView(
    name: string,
    chips: int,
    isBot: bool,
    status: string,
    availableActions: seq<string>,
    streetContribution: int)

  /** The `game_state` object. */
  datatype GameView = GameView(
    players: seq<PlayerView>,
    currentPlayer: int,
    communityCards: seq<string>,
    bigBlind: int,
    minRaise: int,
    totalPot: int,
    stage: string)

  /** `players[current_player_idx]` exists. */
  predicate HasCurrent(g: GameView) {
    0 <= g.currentPlayer < |g.players|
  }

  /** `players[current_player_idx]?.available_actions || []`: the guarded read. */
  function CurrentActions(g: GameView): (actions: seq<string>)
    ensures HasCurrent(g) ==> actions == g.players[g.currentPlayer].availableActions
    ensures !HasCurrent(g) ==> actions == []
  {
    if HasCurrent(g) then g.players[g.currentPlayer].availableActions else []
  }
}
