/**
 * Playing cards of the Python engine (src/card.py) and their text form.
 * The Suit enum lives in suit.py, which is not part of this model: it is
 * taken to be the four suits, each rendered as one symbol character.
 */
module Card {
  import opened Common

  datatype Suit = Spades | Hearts | Diamonds | Clubs {
    /** The suit's value, printed after the rank. */
    function Symbol(): char {
      match this
      case Spades => '♠'
      case Hearts => '♥'
      case Diamonds => '♦'
      case Clubs => '♣'
    }
  }

  /** Iteration order of the Suit enum. */
  const AllSuits: seq<Suit> := [Spades, Hearts, Diamonds, Clubs]

  /** A card: value 2..14 (11 Jack .. 14 Ace) in a full deck, and a suit. */
  datatype Card = Card(value: int, suit: Suit)

  /** Text of a card value: the face letter for 11..14, its decimal text otherwise. */
  function RankText(v: int): (s: string)
    ensures v == 11 ==> s == "J"
    ensures v == 12 ==> s == "Q"
    ensures v == 13 ==> s == "K"
    ensures v == 14 ==> s == "A"
    ensures !(11 <= v <= 14) ==> s == IntText(v)
    ensures |s| >= 1
  {
    if v == 11 then "J"
    else if v == 12 then "Q"
    else if v == 13 then "K"
    else if v == 14 then "A"
    else IntText(v)
  }

  /** `Card.__str__`: the rank text immediately followed by the suit symbol. */
  function CardText(c: Card): (s: string)
    ensures |s| >= 2
    ensures s[|s| - 1] == c.suit.Symbol()
    ensures s[..|s| - 1] == RankText(c.value)
  {
    RankText(c.value) + [c.suit.Symbol()]
  }

  lemma SymbolInjective(a: Suit, b: Suit)
    requires a.Symbol() == b.Symbol()
    ensures a == b
  {
  }

  /** Distinct card values of a deck have distinct rank texts. */
  lemma RankTextInjective(v: int, w: int)
    requires 2 <= v <= 14 && 2 <= w <= 14
    requires RankText(v) == RankText(w)
    ensures v == w
  {
    if v <= 10 && w <= 10 {
      NatTextInjective(v, w);
    }
  }

  /** The text of a deck card determines the card. */
  lemma CardTextInjective(c: Card, d: Card)
    requires 2 <= c.value <= 14 && 2 <= d.value <= 14
    requires CardText(c) == CardText(d)
    ensures c == d
  {
    var s := CardText(c);
    assert s[..|s| - 1] == RankText(c.value) && s[..|s| - 1] == RankText(d.value);
    RankTextInjective(c.value, d.value);
    SymbolInjective(c.suit, d.suit);
  }
}
