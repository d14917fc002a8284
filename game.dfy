/**
 * The table state of `src/game.rs`: dealing hole cards, releasing board
 * cards, the per-turn board schedule with the showdown at turn 3, and the
 * centred padding used for display.
 */
module Game {
  import opened Card
  import opened Wrappers
  import opened Player
  import opened Evaluator
  import opened Seqs

  /** Width used when the terminal size is unknown. */
  const DefaultWidth: nat := 80

  /** Largest value of a `u8` field. */
  const U8Max: nat := 255

  /**
   * One `release_card` on a deck and board, or `None` where it panics: the
   * guard asks for two cards per player although one card is taken, and
   * an empty deck that passes the guard releases nothing.
   */
  function Release(deck: seq<Card>, board: seq<Card>, playerCount: nat): (r: Option<(seq<Card>, seq<Card>)>)
    ensures r.None? <==> |deck| < 2 * playerCount
    ensures r.Some? && deck != [] ==> r.value.0 == deck[..|deck| - 1] && r.value.1 == board + [deck[|deck| - 1]]
    ensures r.Some? && deck == [] ==> r.value == (deck, board)
  {
    if |deck| < 2 * playerCount then None
    else if deck == [] then Some((deck, board))
    else Some((deck[..|deck| - 1], board + [deck[|deck| - 1]]))
  }

  /** `k` releases in a row, stopping at the first panic. */
  function ReleaseTimes(deck: seq<Card>, board: seq<Card>, playerCount: nat, k: nat): Option<(seq<Card>, seq<Card>)>
  {
    if k == 0 then Some((deck, board))
    else
      match Release(deck, board, playerCount)
      case None => None
      case Some(next) => ReleaseTimes(next.0, next.1, playerCount, k - 1)
  }

  /**
   * While the guard holds, `k` releases move the top `k` cards of the deck
   * onto the board, last card first; otherwise they panic.
   */
  lemma {:induction false} ReleaseTimesMovesTop(deck: seq<Card>, board: seq<Card>, playerCount: nat, k: nat)
    requires k <= |deck|
    ensures ReleaseTimes(deck, board, playerCount, k).Some? <==> k == 0 || |deck| - (k - 1) >= 2 * playerCount
    ensures ReleaseTimes(deck, board, playerCount, k).Some? ==>
      ReleaseTimes(deck, board, playerCount, k).value == (deck[..|deck| - k], board + Reversed(deck[|deck| - k..]))
  {
    if k > 0 {
      var n := |deck|;
      if n >= 2 * playerCount {
        var next := Release(deck, board, playerCount).value;
        assert ReleaseTimes(deck, board, playerCount, k) == ReleaseTimes(next.0, next.1, playerCount, k - 1);
        ReleaseTimesMovesTop(next.0, next.1, playerCount, k - 1);
        assert next.0[..|next.0| - (k - 1)] == deck[..n - k];
        var top := deck[n - k..];
        var rest := Reversed(next.0[|next.0| - (k - 1)..]);
        assert Reversed(top) == [deck[n - 1]] + rest by {
          assert top[..|top| - 1] == next.0[|next.0| - (k - 1)..];
        }
        assert next.1 == board + [deck[n - 1]];
        assert next.1 + rest == board + ([deck[n - 1]] + rest);
      }
    } else {
      assert deck[..|deck|] == deck && deck[|deck|..] == [];
      assert board + Reversed([]) == board;
    }
  }

  /** How many board cards `play_turn` releases at each turn. */
  function ReleasesAt(turn: nat): (k: nat)
    ensures k <= 3
  {
    if turn == 0 then 3 else if turn == 1 || turn == 2 then 1 else 0
  }

  /** `j + k` releases are `j` releases followed by `k` more. */
  lemma {:induction false} ReleaseTimesAdd(deck: seq<Card>, board: seq<Card>, playerCount: nat, j: nat, k: nat)
    ensures ReleaseTimes(deck, board, playerCount, j + k) ==
      match ReleaseTimes(deck, board, playerCount, j)
      case None => None
      case Some(mid) => ReleaseTimes(mid.0, mid.1, playerCount, k)
  {
    if j > 0 {
      match Release(deck, board, playerCount)
      case None =>
      case Some(next) =>
        ReleaseTimesAdd(next.0, next.1, playerCount, j - 1, k);
        assert ReleaseTimes(deck, board, playerCount, j + k) == ReleaseTimes(next.0, next.1, playerCount, j - 1 + k);
    }
  }

  /** The board releases of turns `0 .. turns - 1` of `play_turn`, stopping at the first panic. */
  function TurnReleases(deck: seq<Card>, board: seq<Card>, playerCount: nat, turns: nat): Option<(seq<Card>, seq<Card>)>
  {
    if turns == 0 then Some((deck, board))
    else
      match TurnReleases(deck, board, playerCount, turns - 1)
      case None => None
      case Some(mid) => ReleaseTimes(mid.0, mid.1, playerCount, ReleasesAt(turns - 1))
  }

  /**
   * After turns 0, 1 and 2 the board has gained five cards, the top five
   * of the deck in the order they were popped; this needs the dealing
   * guard to hold before each of the five releases. Later turns release
   * nothing.
   */
  lemma BoardAfterThreeTurns(deck: seq<Card>, board: seq<Card>, playerCount: nat, turns: nat)
    requires 5 <= |deck| && 3 <= turns
    ensures TurnReleases(deck, board, playerCount, turns).Some? <==> |deck| - 4 >= 2 * playerCount
    ensures TurnReleases(deck, board, playerCount, turns).Some? ==>
      TurnReleases(deck, board, playerCount, turns).value == (deck[..|deck| - 5], board + Reversed(deck[|deck| - 5..]))
  {
    if turns > 3 {
      BoardAfterThreeTurns(deck, board, playerCount, turns - 1);
    } else {
      var after0 := TurnReleases(deck, board, playerCount, 1);
      var after1 := TurnReleases(deck, board, playerCount, 2);
      assert TurnReleases(deck, board, playerCount, 0) == Some((deck, board));
      assert after0 == ReleaseTimes(deck, board, playerCount, 3);
      ReleaseTimesAdd(deck, board, playerCount, 3, 1);
      assert after1 == ReleaseTimes(deck, board, playerCount, 4);
      ReleaseTimesAdd(deck, board, playerCount, 4, 1);
      ReleaseTimesMovesTop(deck, board, playerCount, 5);
    }
  }

  /** The first index holding the least rank: `min_by` returns the first of equal minima. */
  predicate IsFirstMinimum(ranks: seq<int>, w: nat) {
    w < |ranks| &&
    (forall i :: 0 <= i < |ranks| ==> ranks[w] <= ranks[i]) &&
    (forall i :: 0 <= i < w ==> ranks[w] < ranks[i])
  }

  class Game {
    const playerCount: nat
    var players: seq<Player>
    var deck: seq<Card>
    var communityCards: seq<Card>
    var turnCount: nat

    /** One player object per seat, no object shared between seats, `u8` counters in range. */
    predicate Valid()
      reads this, players
    {
      playerCount <= U8Max && turnCount <= U8Max && |players| == playerCount &&
      (forall i, j :: 0 <= i < j < |players| ==> players[i] != players[j])
    }

    /**
     * The game state `Game::new` sets up before it deals: fresh players
     * without cards, the given (already shuffled) deck, an empty board.
     */
    constructor (playerCount: nat, deck: seq<Card>)
      requires playerCount <= U8Max
      ensures Valid()
      ensures this.playerCount == playerCount && this.deck == deck
      ensures communityCards == [] && turnCount == 0
      ensures forall i :: 0 <= i < |players| ==> fresh(players[i]) && players[i].cards == []
    {
      var seats: seq<Player> := [];
      while |seats| < playerCount
        invariant |seats| <= playerCount
        invariant forall i :: 0 <= i < |seats| ==> fresh(seats[i]) && seats[i].cards == []
        invariant forall i, j :: 0 <= i < j < |seats| ==> seats[i] != seats[j]
      {
        var p := new Player();
        seats := seats + [p];
      }
      this.playerCount := playerCount;
      players := seats;
      this.deck := deck;
      communityCards := [];
      turnCount := 0;
    }

    /** The hand rank of every player, in seat order. */
    function Ranks(): (ranks: seq<int>)
      reads this, players
      ensures |ranks| == |players| && forall i :: 0 <= i < |players| ==> ranks[i] == players[i].handRank
    {
      seq(|players|, i reads this, players requires 0 <= i < |players| => players[i].handRank)
    }

    /**
     * `distribute_cards_to_players`: panics when the deck holds fewer than
     * two cards per player; otherwise each player in turn is given the
     * next two cards popped from the end of the deck.
     */
    method DistributeCardsToPlayers() returns (panicked: bool)
      requires Valid()
      modifies this, players
      ensures Valid() && players == old(players)
      ensures communityCards == old(communityCards) && turnCount == old(turnCount)
      ensures forall i :: 0 <= i < |players| ==> players[i].handRank == old(players[i].handRank)
      ensures panicked <==> |old(deck)| < 2 * playerCount
      ensures panicked ==> deck == old(deck) && forall i :: 0 <= i < |players| ==> players[i].cards == old(players[i].cards)
      ensures !panicked ==> deck == old(deck)[..|old(deck)| - 2 * playerCount]
      ensures !panicked ==> forall i :: 0 <= i < |players| ==>
        players[i].cards == old(players[i].cards) + TopPair(old(deck), i)
    {
      if |deck| < 2 * playerCount {
        return true;
      }
      panicked := false;
      var i := 0;
      while i < |players|
        invariant 0 <= i <= |players|
        invariant players == old(players) && communityCards == old(communityCards) && turnCount == old(turnCount)
        invariant deck == old(deck)[..|old(deck)| - 2 * i]
        invariant forall k :: 0 <= k < |players| ==> players[k].handRank == old(players[k].handRank)
        invariant forall k :: 0 <= k < i ==> players[k].cards == old(players[k].cards) + TopPair(old(deck), k)
        invariant forall k :: i <= k < |players| ==> players[k].cards == old(players[k].cards)
      {
        var player := players[i];
        var first := deck[|deck| - 1];
        deck := deck[..|deck| - 1];
        player.AddCard(first);
        var second := deck[|deck| - 1];
        deck := deck[..|deck| - 1];
        player.AddCard(second);
        i := i + 1;
      }
    }

    /** `release_card`: the last card of the deck goes to the end of the board, under the dealing guard. */
    method ReleaseCard() returns (panicked: bool)
      modifies this
      ensures players == old(players) && turnCount == old(turnCount)
      ensures panicked <==> Release(old(deck), old(communityCards), playerCount).None?
      ensures panicked ==> deck == old(deck) && communityCards == old(communityCards)
      ensures !panicked ==> (deck, communityCards) == Release(old(deck), old(communityCards), playerCount).value
    {
      if |deck| < 2 * playerCount {
        return true;
      }
      panicked := false;
      if deck != [] {
        var card := deck[|deck| - 1];
        deck := deck[..|deck| - 1];
        communityCards := communityCards + [card];
      }
    }

    /** `k` calls of `release_card`, stopping at the first that panics. */
    method ReleaseCards(k: nat) returns (panicked: bool)
      modifies this
      ensures players == old(players) && turnCount == old(turnCount)
      ensures panicked <==> ReleaseTimes(old(deck), old(communityCards), playerCount, k).None?
      ensures !panicked ==> (deck, communityCards) == ReleaseTimes(old(deck), old(communityCards), playerCount, k).value
    {
      panicked := false;
      var done := 0;
      while done < k
        invariant done <= k && players == old(players) && turnCount == old(turnCount)
        invariant ReleaseTimes(old(deck), old(communityCards), playerCount, k) ==
          ReleaseTimes(deck, communityCards, playerCount, k - done)
      {
        panicked := ReleaseCard();
        if panicked {
          return;
        }
        done := done + 1;
      }
    }

    /**
     * The card and showdown work of `play_turn`: turn 0 releases three
     * board cards, turns 1 and 2 one each, and turn 3 evaluates every
     * player's board plus hole cards and reports the first player with the
     * least rank. Every turn that does not panic counts one more turn.
     */
    method PlayTurn(eval: Evaluate7Cards) returns (panicked: bool, winner: Option<nat>)
      requires Valid() && turnCount < U8Max
      requires turnCount == 3 ==> forall i :: 0 <= i < |players| ==> |communityCards| + |players[i].cards| >= 7
      modifies this, players
      ensures Valid() && players == old(players)
      ensures forall i :: 0 <= i < |players| ==> players[i].cards == old(players[i].cards)
      ensures !panicked ==> turnCount == old(turnCount) + 1
      ensures panicked ==> turnCount == old(turnCount)
      ensures panicked <==>
        ReleaseTimes(old(deck), old(communityCards), playerCount, ReleasesAt(old(turnCount))).None?
      ensures !panicked ==>
        (deck, communityCards) == ReleaseTimes(old(deck), old(communityCards), playerCount, ReleasesAt(old(turnCount))).value
      ensures old(turnCount) != 3 ==> winner == None
      ensures old(turnCount) != 3 ==> forall i :: 0 <= i < |players| ==> players[i].handRank == old(players[i].handRank)
      ensures old(turnCount) == 3 ==> forall i :: 0 <= i < |players| ==>
        players[i].handRank == RankOf(eval, old(communityCards) + old(players[i].cards))
      ensures old(turnCount) == 3 ==> (winner.None? <==> |players| == 0)
      ensures old(turnCount) == 3 && winner.Some? ==>
        IsFirstMinimum(Ranks(), winner.value)
    {
      winner := None;
      panicked := ReleaseCards(ReleasesAt(turnCount));
      if panicked {
        return;
      }
      if turnCount == 3 {
        assert deck == old(deck) && communityCards == old(communityCards);
        EvaluatePlayers(eval);
        winner := FirstLeastRank();
      }
      turnCount := turnCount + 1;
    }

    /** The showdown loop of `play_turn`: each player's rank is the evaluator on the board followed by the hole cards. */
    method EvaluatePlayers(eval: Evaluate7Cards)
      requires forall i :: 0 <= i < |players| ==> |communityCards| + |players[i].cards| >= 7
      modifies players
      ensures forall i :: 0 <= i < |players| ==> players[i].cards == old(players[i].cards)
      ensures forall i :: 0 <= i < |players| ==> players[i].handRank == RankOf(eval, communityCards + players[i].cards)
    {
      for i := 0 to |players|
        invariant forall k :: 0 <= k < |players| ==> players[k].cards == old(players[k].cards)
        invariant forall k :: 0 <= k < i ==> players[k].handRank == RankOf(eval, communityCards + players[k].cards)
      {
        players[i].handRank := RankOf(eval, communityCards + players[i].cards);
      }
    }

    /** `min_by` over the players' ranks: a later player replaces the best only with a strictly lower rank. */
    method FirstLeastRank() returns (winner: Option<nat>)
      ensures winner.None? <==> |players| == 0
      ensures winner.Some? ==>
        IsFirstMinimum(Ranks(), winner.value)
    {
      if |players| == 0 {
        return None;
      }
      ghost var ranks := Ranks();
      var best := 0;
      for i := 1 to |players|
        invariant best < i
        invariant IsFirstMinimum(ranks[..i], best)
      {
        if players[i].handRank < players[best].handRank {
          best := i;
        }
      }
      assert ranks[..|players|] == ranks;
      winner := Some(best);
    }
  }

  /** Game::new: set up the state, then deal two cards to every player. */
  method NewGame(playerCount: nat, shuffledDeck: seq<Card>) returns (game: Game, panicked: bool)
    requires playerCount <= U8Max
    ensures fresh(game) && game.Valid()
    ensures game.playerCount == playerCount && game.communityCards == [] && game.turnCount == 0
    ensures panicked <==> |shuffledDeck| < 2 * playerCount
    ensures !panicked ==> game.deck == shuffledDeck[..|shuffledDeck| - 2 * playerCount]
    ensures !panicked ==> forall i :: 0 <= i < |game.players| ==> game.players[i].cards == TopPair(shuffledDeck, i)
  {
    game := new Game(playerCount, shuffledDeck);
    panicked := game.DistributeCardsToPlayers();
  }

  // ---------------------------------------------------------------------
  // Centred padding

  /** `n` copies of `c`. */
  function Repeat(c: char, n: nat): (s: string)
    ensures |s| == n && forall i :: 0 <= i < n ==> s[i] == c
  {
    if n == 0 then "" else Repeat(c, n - 1) + [c]
  }

  /** The terminal width, or 80 when it cannot be determined. */
  function TermWidth(dims: Option<nat>): nat {
    dims.GetOr(DefaultWidth)
  }

  /**
   * `dynamic_pad_string`: pad `input` on both sides to the terminal width,
   * the extra pad character going right. An input wider than the terminal
   * makes `term_width - input.len()` underflow; that case is `None`.
   */
  function DynamicPadString(input: string, paddingChar: char, dims: Option<nat>): (r: Option<string>)
    ensures r.Some? <==> |input| <= TermWidth(dims)
  {
    var width := TermWidth(dims);
    if |input| > width then None
    else
      var available := width - |input|;
      var left := available / 2;
      var right := available - left;
      Some(Repeat(paddingChar, left) + input + Repeat(paddingChar, right))
  }

  /**
   * The padded string fills the width exactly, holds the input at offset
   * `left`, and is pad character elsewhere, with the right pad as long as
   * the left one or one longer.
   */
  lemma PadIsCentred(input: string, paddingChar: char, dims: Option<nat>, left: nat)
    requires |input| <= TermWidth(dims) && left == (TermWidth(dims) - |input|) / 2
    ensures var r := DynamicPadString(input, paddingChar, dims).value;
      var right := |r| - left - |input|;
      |r| == TermWidth(dims) &&
      r[left..left + |input|] == input &&
      (forall i :: 0 <= i < left ==> r[i] == paddingChar) &&
      (forall i :: left + |input| <= i < |r| ==> r[i] == paddingChar) &&
      (right == left || right == left + 1)
  {
    var r := DynamicPadString(input, paddingChar, dims).value;
    var right := TermWidth(dims) - |input| - left;
    assert r == Repeat(paddingChar, left) + input + Repeat(paddingChar, right);
    assert r[left..left + |input|] == input;
  }
}
