/**
 * The card stack (backend/game/deck.py): built suit by suit with values
 * 2..14, shuffled in place, and dealt from the end of the list.
 */
module Deck {
  import opened Common
  import opened Card

  const DeckSize: nat := 13 * |AllSuits|

  /** The order in which `_create_deck` appends cards: suit by suit, values 2..14. */
  function CreationOrder(): (s: seq<Card>)
    ensures |s| == DeckSize
  {
    seq(DeckSize, i requires 0 <= i < DeckSize => Card(2 + i % 13, AllSuits[i / 13]))
  }

  /** Exactly one card per suit and value 2..14, and nothing else. */
  ghost predicate IsFullDeck(cards: seq<Card>) {
    forall c: Card :: multiset(cards)[c] == (if 2 <= c.value <= 14 then 1 else 0)
  }

  /** A freshly created deck holds each of the 13 * |Suit| cards exactly once. */
  lemma CreationOrderIsFullDeck()
    ensures IsFullDeck(CreationOrder())
    ensures |CreationOrder()| == 52
  {
    var d := CreationOrder();
    assert NoDuplicates(d);
    forall c: Card ensures multiset(d)[c] == (if 2 <= c.value <= 14 then 1 else 0) {
      NoDuplicatesCount(d, c);
      if 2 <= c.value <= 14 {
        var k := if c.suit == Spades then 0 else if c.suit == Hearts then 1 else if c.suit == Diamonds then 2 else 3;
        var i := 13 * k + c.value - 2;
        assert i / 13 == k && i % 13 == c.value - 2;
        assert d[i] == c;
      } else {
        assert c !in d;
      }
    }
  }

  class Deck {
    var cards: seq<Card>

    constructor ()
      ensures multiset(cards) == multiset(CreationOrder())
    {
      cards := [];
      new;
      CreateDeck();
    }

    /** `_create_deck`: append one card per suit and value, then shuffle. */
    method CreateDeck()
      modifies this
      ensures multiset(cards) == multiset(old(cards) + CreationOrder())
    {
      ghost var start := cards;
      var si := 0;
      while si < |AllSuits|
        invariant 0 <= si <= |AllSuits|
        invariant cards == start + CreationOrder()[..13 * si]
      {
        var value := 2;
        while value < 15
          invariant 2 <= value <= 15
          invariant cards == start + CreationOrder()[..13 * si + value - 2]
        {
          assert CreationOrder()[13 * si + value - 2] == Card(value, AllSuits[si]);
          assert CreationOrder()[..13 * si + value - 1] == CreationOrder()[..13 * si + value - 2] + [Card(value, AllSuits[si])];
          cards := cards + [Card(value, AllSuits[si])];
          value := value + 1;
        }
        si := si + 1;
      }
      assert CreationOrder()[..DeckSize] == CreationOrder();
      Shuffle();
    }

    /** `reset`: discard the old contents and build a fresh shuffled deck. */
    method Reset()
      modifies this
      ensures multiset(cards) == multiset(CreationOrder())
    {
      cards := [];
      CreateDeck();
    }

    /** `shuffle`: some permutation of the cards, chosen by the random source. */
    method Shuffle()
      modifies this
      ensures multiset(cards) == old(multiset(cards))
    {
      var shuffled :| multiset(shuffled) == multiset(cards);
      cards := shuffled;
    }

    /** `deal`: pop the last card, or None on an empty deck. */
    method Deal() returns (card: Option<Card>)
      modifies this
      ensures old(cards) == [] ==> card == None && cards == []
      ensures old(cards) != [] ==> card == Some(old(cards)[|old(cards)| - 1]) && cards == old(cards)[..|old(cards)| - 1]
    {
      if |cards| > 0 {
        card := Some(cards[|cards| - 1]);
        cards := cards[..|cards| - 1];
      } else {
        card := None;
      }
    }
  }

  /** A deck that has just been created or reset is a full deck. */
  lemma ResetDeckIsFull(cards: seq<Card>)
    requires multiset(cards) == multiset(CreationOrder())
    ensures IsFullDeck(cards) && |cards| == 52
  {
    CreationOrderIsFullDeck();
    assert |cards| == |multiset(cards)| == |multiset(CreationOrder())|;
  }
}
