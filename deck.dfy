/** `Deck::new` of `src/deck.rs`: the fixed 52-card deck, suit by suit. */
module Deck {
  import opened CardFace

  /** The suits in the order of the outer loop. */
  const CardTypes: seq<CardType> := [Clover, Spades, Tile, Heart]

  /** The values in the order of the inner loop. */
  const CardValues: seq<CardValue> :=
    [Number(2), Number(3), Number(4), Number(5), Number(6), Number(7), Number(8), Number(9), Number(10),
     Jack, Queen, King, Ace]

  /** The card at position `i` of the deck: suit-major, value-minor. */
  function DeckCard(i: nat): Card
    requires i < 52
  {
    Card(CardTypes[i / 13], CardValues[i % 13])
  }

  /**
   * `Deck::new(pack_count)`. The pack count is not used: the deck always
   * holds one pack.
   */
  method New(packCount: nat) returns (cards: seq<Card>)
    ensures |cards| == 52
    ensures forall i :: 0 <= i < 52 ==> cards[i] == DeckCard(i)
  {
    cards := [];
    for t := 0 to 4
      invariant |cards| == 13 * t
      invariant forall i :: 0 <= i < |cards| ==> cards[i] == DeckCard(i)
    {
      var before := cards;
      cards := PushSuit(cards, t);
      forall i | 0 <= i < |cards|
        ensures cards[i] == DeckCard(i)
      {
        if i >= |before| {
          DeckCoversAll(t, i - |before|);
        }
      }
    }
  }

  /** The inner loop of `Deck::new`: one card of suit `t` per value. Both branches of the `if let` push the same card. */
  method PushSuit(cards: seq<Card>, t: nat) returns (r: seq<Card>)
    requires t < 4
    ensures |r| == |cards| + 13 && r[..|cards|] == cards
    ensures forall v :: 0 <= v < 13 ==> r[|cards| + v] == Card(CardTypes[t], CardValues[v])
  {
    r := cards;
    for v := 0 to 13
      invariant |r| == |cards| + v && r[..|cards|] == cards
      invariant forall w :: 0 <= w < v ==> r[|cards| + w] == Card(CardTypes[t], CardValues[w])
    {
      var cv := CardValues[v];
      if cv.Number? {
        r := r + [Card(CardTypes[t], Number(cv.n))];
      } else {
        r := r + [Card(CardTypes[t], cv)];
      }
    }
  }

  lemma ValuesDistinct()
    ensures forall a, b :: 0 <= a < b < 13 ==> CardValues[a] != CardValues[b]
  {
  }

  /** No card occurs twice in the deck. */
  lemma DeckCardsDistinct(i: nat, j: nat)
    requires i < j < 52
    ensures DeckCard(i) != DeckCard(j)
  {
    ValuesDistinct();
    if i / 13 == j / 13 {
      assert i % 13 != j % 13;
    }
  }

  /** Every (suit, value) pair of the two lists occurs in the deck, at position `13 * t + v`. */
  lemma DeckCoversAll(t: nat, v: nat)
    requires t < 4 && v < 13
    ensures DeckCard(13 * t + v) == Card(CardTypes[t], CardValues[v])
  {
    assert (13 * t + v) / 13 == t && (13 * t + v) % 13 == v;
  }

  /** The deck holds every suit and every value of the game, nothing else. */
  lemma DeckIsComplete(c: Card)
    ensures (exists i :: 0 <= i < 52 && DeckCard(i) == c) <==>
      c.cardValue in CardValues
  {
    if c.cardValue in CardValues {
      var v :| 0 <= v < 13 && CardValues[v] == c.cardValue;
      var t := match c.cardType case Clover => 0 case Spades => 1 case Tile => 2 case Heart => 3;
      DeckCoversAll(t, v);
    }
  }
}
