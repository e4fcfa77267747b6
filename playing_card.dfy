/**
 * The card-string parse of the client's PlayingCard component
 * (frontend/src/pages/PlayingCard.jsx): which face to draw for a card string
 * sent by the server, which is the Python `str(Card)` text.
 */
module PlayingCard {
  import opened Common
  import opened Card

  /** What the component draws for its `card` prop. */
  datatype Face =
    | Nothing                                         // null or undefined: renders nothing
    | Back                                            // "": the hidden card
    | Front(rank: string, suit: string, red: bool)

  predicate IsRedSuit(suit: string) {
    suit == "♥" || suit == "♦"
  }

  /** `card.slice(-1)` and `card.slice(0, -1)` on a non-empty string, and the red test. */
  function Parse(card: Option<string>): (f: Face)
    ensures card.None? <==> f.Nothing?
    ensures card == Some("") <==> f.Back?
    ensures f.Front? ==> f.rank + f.suit == card.value && |f.suit| == 1
    ensures f.Front? ==> (f.red <==> f.suit == "♥" || f.suit == "♦")
  {
    match card
    case None => Nothing
    case Some(s) =>
      if s == "" then Back
      else
        var suit := s[|s| - 1..];
        var rank := s[..|s| - 1];
        Front(rank, suit, IsRedSuit(suit))
  }

  /** Parsing the engine's text of a card gives back its rank text and suit symbol. */
  lemma ParseCardText(c: Card)
    ensures Parse(Some(CardText(c))) == Front(RankText(c.value), [c.suit.Symbol()], c.suit == Hearts || c.suit == Diamonds)
  {
    var s := CardText(c);
    assert s[|s| - 1..] == [c.suit.Symbol()];
  }

  /** Two deck cards that draw the same face are the same card. */
  lemma ParseDistinguishesCards(c: Card, d: Card)
    requires 2 <= c.value <= 14 && 2 <= d.value <= 14
    requires Parse(Some(CardText(c))) == Parse(Some(CardText(d)))
    ensures c == d
  {
    ParseCardText(c);
    ParseCardText(d);
    RankTextInjective(c.value, d.value);
    SymbolInjective(c.suit, d.suit);
  }
}
