/**
 * `src/player.rs`: a player holds the cards dealt to it. `src/game.rs` also
 * stores the player's evaluated `hand_rank` on it, so that field is part of
 * the model too.
 */
module Player {
  import opened Card

  class Player {
    var cards: seq<Card>
    var handRank: int

    /** `Player::new`: no cards yet, and no rank evaluated. */
    constructor ()
      ensures cards == [] && handRank == 0
    {
      cards := [];
      handRank := 0;
    }

    /** `Player::add_card`: the card becomes the last one, the earlier ones stay as they were. */
    method AddCard(card: Card)
      modifies this
      ensures cards == old(cards) + [card]
      ensures handRank == old(handRank)
    {
      cards := cards + [card];
    }
  }
}
