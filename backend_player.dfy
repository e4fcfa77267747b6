/**
 * The backend's player record (backend/game/player.py): the engine's player
 * with an `is_bot` flag that is fixed at construction.
 */
module BackendPlayer {
  import opened Card
  import opened PlayerStatus

  class Player {
    var name: string
    var chips: int
    var pocket: seq<Card>
    var hand: seq<Card>
    /** The source's `is_active` attribute, which holds a Status. */
    var status: Status
    /** Set once by the constructor; no method writes it. */
    const isBot: bool

    constructor (name: string, chips: int, isBot: bool)
      ensures this.name == name && this.chips == chips && this.isBot == isBot
      ensures pocket == [] && hand == [] && status == Active
    {
      this.name := name;
      this.chips := chips;
      pocket := [];
      hand := [];
      status := Active;
      this.isBot := isBot;
    }

    method AddPocketCard(card: Card)
      modifies this`pocket
      ensures pocket == old(pocket) + [card]
    {
      pocket := pocket + [card];
    }

    method Add5Card(card: Card)
      modifies this`hand
      ensures hand == old(hand) + [card]
    {
      hand := hand + [card];
    }

    method ClearPocket()
      modifies this`pocket
      ensures pocket == []
    {
      pocket := [];
    }

    method ClearHand()
      modifies this`hand
      ensures hand == []
    {
      hand := [];
    }
  }
}
