/**
 * The (suit, value) card that `src/deck.rs` and `src/danger.rs` build and
 * inspect. Those files import `CardType`, `CardValue` and `Card::new` from
 * the card module, but the id-based card of `src/card.rs` defines none of
 * them, so the card is modelled here as the pair the two files use.
 */
module CardFace {
  datatype CardType = Clover | Spades | Tile | Heart

  datatype CardValue = Number(n: int) | Jack | Queen | King | Ace

  /** `Card::new(card_type, card_value)`. */
  datatype Card = Card(cardType: CardType, cardValue: CardValue)
}
