/**
 * The engine's player record (src/game/player.py): a name, a chip stack, the
 * pocket (hole) cards, a five-card hand and a status that its methods and
 * the table update in place.
 */
module GamePlayer {
  import opened Card
  import opened PlayerStatus

  class Player {
    var name: string
    var chips: int
    var pocket: seq<Card>
    var hand: seq<Card>
    /** The source's `is_active` attribute, which holds a Status. */
    var status: Status

    constructor (name: string, chips: int)
      ensures this.name == name && this.chips == chips
      ensures pocket == [] && hand == [] && status == Active
    {
      this.name := name;
      this.chips := chips;
      pocket := [];
      hand := [];
      status := Active;
    }

    method AddPocketCard(card: Card)
      modifies this`pocket
      ensures pocket == old(pocket) + [card]
    {
      pocket := pocket + [card];
    }

    method Add5Card(card: Card)
      modifies this`hand
      ensures hand == old(hand) + [card]
    {
      hand := hand + [card];
    }

    method ClearPocket()
      modifies this`pocket
      ensures pocket == []
    {
      pocket := [];
    }

    method ClearHand()
      modifies this`hand
      ensures hand == []
    {
      hand := [];
    }
  }
}
