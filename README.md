# rust-texas-holdem, card and hand layer, in Dafny

This project models the card and hand layer of a Texas Hold'em program.
Each part of the program is modelled in the shape it has there.

- **Card codec** (`card.dfy`, module `Card`). A card is an `i32` id, with
  `id = rank * 4 + suit`. `RANK_MAP` and `SUIT_MAP` translate between the
  id and a two-character name. Suit characters may be upper or lower case.
  The module also models the long display name and the `usize` and `i32`
  views of the id.
- **Hand accumulator** (`hand.dfy`, module `Hand`). A list of card ids is
  folded, through the tables `BINARIES_BY_ID` and `SUITBIT_BY_ID`, into
  four fields:
  - the card count;
  - a suit-occupancy counter with three bits per suit;
  - one 13-bit rank mask per suit;
  - a count per rank.

  The fold is specified by the function `Summarize`. The lemmas prove
  what each field means in terms of the cards, and that the result does
  not depend on card order. `Bits` supplies the bitwise OR on naturals that
  the rank masks use.
- **Monte Carlo engine** (`probability.dfy`, module `Probability`), with its
  randomness taken out. The shuffle of each trial is a caller-supplied
  permutation. The seven-card evaluator and the rank-to-category map are
  parameters. Both engines and their parts are modelled:
  - building the multi-pack deck;
  - removing every copy of the known cards;
  - completing the board from the end of the shuffled deck;
  - dealing the opponents;
  - the win test;
  - the per-category tally;
  - the ordered listing of the result.
- **Table** (`game.dfy`, class `Game.Game`). It covers:
  - dealing two cards to each player;
  - releasing a board card;
  - the per-turn board schedule of `play_turn`, and the showdown that
    picks the first player with the least rank;
  - the centred padding used for display, with the terminal width as a
    parameter.

  The explicit `panic!` guards are modelled as a `panicked` result, and
  the state is unchanged when one fires.
- **Players** (`player.dfy`, class `Player.Player`) are objects whose card
  list grows by `AddCard`.
- **Deck** (`deck.dfy`): the fixed 52-card deck, suit by suit.
- **Royal-flush danger scan** (`danger.dfy`): the maximal same-suit runs
  holding exactly three high cards.

`deck.rs` and `danger.rs` use a (suit, value) card that `card.rs` does not
define, so that card is the datatype `CardFace.Card`. `seqs.dfy` holds the
sequence shapes several modules share: reversal, flattening, and pairs
popped from the end of a deck. The evaluator `evaluator7::evaluate_7cards`
is not part of this model (module `Evaluator`).

Rust's fixed-size value arrays are modelled as value sequences:
`[i32; 4]` and `[u8; 13]` in `Hand`, and the vectors the engines clone.
Such an array is copied on assignment, so no aliasing is lost.

## Model

| member | source | states |
|---|---|---|
| Card.Card.Int | src/card.rs:97-99 | `int()` lies in `0 .. 2^64`, is congruent to the id modulo `2^64`, and equals the id when the id is not negative |
| Card.FromIdRoundTrip | src/card.rs:21-23 | `from_id(i).int32() == i` for every `i32`, and `int()` is the same value when `i >= 0` |
| Card.RankMapIsBijection | src/card.rs:4-8 | `RANK_MAP`'s keys are exactly the thirteen characters `23456789TJQKA`, and it maps the `r`-th of them to `r` and nothing else |
| Card.SuitMapIsCaseInsensitive | src/card.rs:11-14 | `SUIT_MAP`'s keys are exactly `CDHS` and `cdhs`, both cases of a letter map to the same suit, and every value is in 0..3 |
| Card.RankCharOf | src/card.rs:47-50 | the character the rank search finds is a `RANK_MAP` key whose value is the rank |
| Card.SuitCharOf | src/card.rs:52-55 | the character the suit search finds is a `SUIT_MAP` key whose value is the suit, in the case `upper` selects |
| Card.FromName | src/card.rs:25-42 | the id is valid exactly when both characters are map keys, and then it is `RANK_MAP[r] * 4 + SUIT_MAP[s]`; an unknown rank gives an id of at least `499 * 4`, and an unknown suit with a known rank gives at least 500, outside 0..51 either way |
| Card.ToName | src/card.rs:43-58 | for a valid id the name has two characters, whose rank maps to `id / 4` and whose suit maps to `id % 4` |
| Card.FromNameToName | src/card.rs:25-58 | round trip: `from_name(to_name(c)) == c` for every valid card, in either suit case |
| Card.ToNameFromName | src/card.rs:25-58 | the other round trip, up to the suit's case: for a rank character followed by a suit character, `to_name` gives back the rank character and a character of the same suit, in whichever case the suit search meets first; it gives back the name itself exactly when that case is the name's case |
| Card.ToCleanName | src/card.rs:59-95 | the long name is `<rank word> of <suit word>`, with the words `2`..`10`, `Jack`, `Queen`, `King`, `Ace` and `Clubs`, `Diamonds`, `Hearts`, `Spades` |
| Card.CleanRankWord | src/card.rs:72-82 | the rank rewrite turns `T` into `10` and J/Q/K/A into their words, and keeps digits |
| Card.CleanSuitWord | src/card.rs:84-92 | the suit rewrite turns either case of each suit letter into the suit's word |
| Hand.TablesMatchFormulas | src/hand.rs:27-39 | both tables have 52 entries, `BINARIES_BY_ID[id] == 1 << (id / 4)` and `SUITBIT_BY_ID[id] == 8^(id % 4)` for every id in 0..51 |
| Hand.AddTableEntries | src/hand.rs:54-59 | the four table-driven updates for one card are the fold step `AddCard` |
| Hand.FromCardVector | src/hand.rs:49-66 | the loop computes `Summarize(cards)`, the fold of `AddCard` over the cards in order |
| Hand.FromCard | src/hand.rs:67-82 | `from_card(c)` equals `from_card_vector([c])`: size 1, suit hash `8^suit`, only the card's rank bit in its suit's mask, and only its rank counted |
| Hand.SummarizeSingle | src/hand.rs:67-82 | the summary of one card, field by field |
| Hand.SizeAndQuinary | src/hand.rs:57-58 | `size_` is the number of cards, and `quinary_[r]` is the number of cards with `id / 4 == r` |
| Hand.QuinarySumIsSize | src/hand.rs:54-58 | the entries of `quinary_` add up to `size_` |
| Hand.QuinaryAtMostFour | src/hand.rs:57 | with distinct ids, no entry of `quinary_` exceeds 4 |
| Hand.SuitBinaryIsRankMask | src/hand.rs:56 | `suit_binary[s]` is the mask of the ranks held in suit `s` |
| Hand.SuitBinaryBits | src/hand.rs:56 | bit `r` of `suit_binary[s]` is set exactly when a card has suit `s` and rank `r`, and no bit above bit 12 is set |
| Hand.SuitBinaryPopcount | src/hand.rs:56 | with distinct ids, the popcount of `suit_binary[s]` is the number of cards of suit `s` |
| Hand.SuitHashIsWeightedCount | src/hand.rs:55 | `suit_hash` is the sum, over the suits, of the suit's card count times `8^s` |
| Hand.SuitHashDigits | src/hand.rs:55 | for at most seven cards, octal digit `s` of `suit_hash` is exactly the number of cards of suit `s` |
| Hand.OrderIndependent | src/hand.rs:54-59 | two card lists that are permutations of each other give the same four fields |
| Probability.PacksAt | src/probability.rs:21-28 | the deck of `pack_count` packs has `52 * pack_count` cards, and position `i` holds id `i % 52` |
| Probability.PacksCopies | src/probability.rs:21-28 | every valid id occurs `pack_count` times in the deck, and no other card occurs |
| Probability.BuildDeck | src/probability.rs:21-28 | the nested push loops build exactly `Packs(pack_count)` |
| Probability.AnyKnown | src/probability.rs:37-39 | the `any` test is true exactly when some known card has the same id |
| Probability.RetainUnknown | src/probability.rs:36-40 | `retain` keeps exactly the cards the filter `Retained` keeps, in deck order |
| Probability.RetainedAreUnknown | src/probability.rs:31-40 | no remaining card shares an id with a hole or community card |
| Probability.RetainedMultiplicity | src/probability.rs:31-40 | a known card has no copy left, and any other card keeps every copy |
| Probability.RetainedAppend | src/probability.rs:36-40 | filtering distributes over concatenation, so the kept cards keep their relative order |
| Probability.BuildSimulationDeck | src/probability.rs:20-40 | the deck the engines shuffle is the packs without the known cards |
| Probability.CompleteBoard | src/probability.rs:48-52 | the board is the community cards followed by the cards popped from the end of the shuffled deck, and the rest is the deck minus those cards |
| Probability.BoardShape | src/probability.rs:49-52 | the completed board has 5 cards, or the community cards unchanged when there are already 5 or more, and it starts with the community cards |
| Probability.BoardConserves | src/probability.rs:49-52 | completing the board neither loses nor creates a card |
| Probability.DealOpponents | src/probability.rs:174-180 | `num_players - 1` hands of exactly two cards, each popped from the end in turn, and the rest of the deck |
| Probability.TrialDrawsTopOfDeck | src/probability.rs:168-180 | the board cards and the opponents' cards, in drawing order, are the top of the shuffled deck reversed, so no deck position is used twice |
| Seqs.PairsFromTopAreReversedTop | src/probability.rs:174-180 | the dealt pairs, concatenated, are the top `2k` cards of the deck reversed |
| Seqs.PairsFromTopConserve | src/game.rs:67-73 | the remaining deck plus the dealt pairs hold exactly the cards of the original deck |
| Probability.DrawnCardsAreUnknown | src/probability.rs:155-165 | no card of a shuffled simulation deck has the id of a hole or community card |
| Probability.WinsAgainst | src/probability.rs:198-221 | the trial is won exactly when no opponent's rank is strictly lower than ours, so ties count as wins |
| Probability.WinTrial | src/probability.rs:167-225 | one win trial decides `TrialWon` for its shuffled deck |
| Probability.HandTrial | src/probability.rs:48-71 | one hand trial records the category of the evaluated hole cards plus the completed board; `num_players` takes no part |
| Probability.RunHandTrials | src/probability.rs:43-75 | the simulation loop's counter is the tally of the categories of trials `0 .. trials - 1` |
| Probability.CalculateHandProbabilities | src/probability.rs:11-83 | the result is the percentage of `NUM_SIMULATIONS` recorded for each category, whatever `num_players` is |
| Probability.TallyCounts | src/probability.rs:73-74 | each category's count is the number of trials that recorded it, and a category is present exactly when some trial recorded it |
| Probability.TallyTotal | src/probability.rs:43-75 | each trial increments exactly one category, so the counts add up to the number of trials |
| Probability.HandCountsTotal | src/probability.rs:43-75 | the category counts add up to `NUM_SIMULATIONS` |
| Probability.PercentagesOfTally | src/probability.rs:77-80 | the map holds exactly the recorded categories, each with a share above 0 |
| Probability.HandPercentagesAddUp | src/probability.rs:77-82 | the percentages of the nine categories add up to 100 |
| Probability.WinCount | src/probability.rs:199-225 | the wins never exceed the number of trials |
| Probability.RunWinTrials | src/probability.rs:162-226 | the simulation loop counts the trials that are won |
| Probability.CalculateWinProbability | src/probability.rs:130-230 | the result is the percentage of won trials, and it lies between 0 and 100 |
| Probability.NoOpponentsAlwaysWin | src/probability.rs:174-225 | with one player there is no opponent, and every trial is won |
| Probability.GetOrderedProbabilities | src/probability.rs:86-127 | each listed probability is the map's value for its category, with a missing entry read as 0; a category is listed exactly when that value is above 0; the categories follow the fixed order StraightFlush to HighCard |
| Danger.GroupEnd | src/danger.rs:6-9 | the group starting at a card extends over the adjacent cards of the same suit and ends before a card of another suit or at the end |
| Danger.CountFlush | src/danger.rs:12-22 | `count_flush` is the number of Ten, Jack, Queen, King and Ace cards in the group |
| Danger.SpotRf | src/danger.rs:3-29 | the result is `Dangerous(cards)`: the runs longer than two that hold exactly three high cards, concatenated in input order, so four or five high cards do not qualify |
| Danger.RunsPartition | src/danger.rs:6-9 | the maximal runs, concatenated, give the input back |
| Danger.RunIsMaximal | src/danger.rs:6 | a run has one suit, and the card after it has another |
| Danger.DangerousIsSelectedRuns | src/danger.rs:8-27 | the dangerous cards are the selected runs, flattened in input order |
| Danger.DangerousFromInput | src/danger.rs:3-29 | every output card comes from the input, at most as often as it occurs there; the output is no longer than the input; empty input gives empty output |
| Deck.New | src/deck.rs:23-55 | exactly 52 cards whatever `pack_count` is, card `i` having suit `i / 13` of Clover, Spades, Tile, Heart and value `i % 13` of 2..10, Jack, Queen, King, Ace |
| Deck.PushSuit | src/deck.rs:32-52 | the inner loop appends one card of the suit per value, in value order, and both push branches push `Card::new(suit, value)` |
| Deck.DeckCardsDistinct | src/deck.rs:26-53 | no (suit, value) pair occurs twice |
| Deck.DeckCoversAll | src/deck.rs:26-53 | the pair of suit `t` and value `v` is at position `13 * t + v` |
| Deck.DeckIsComplete | src/deck.rs:26-53 | a card is in the deck exactly when its value is one of the thirteen values |
| Player.Player.constructor | src/player.rs:7-9 | a new player has no cards |
| Player.Player.AddCard | src/player.rs:10-12 | the card becomes the last one, and the earlier cards are unchanged |
| Game.Game.constructor | src/game.rs:44-56 | `player_count` fresh players without cards, the given deck, an empty board and turn 0 |
| Game.NewGame | src/game.rs:44-59 | the new game deals two cards to every player from the end of the deck, or panics when the deck is short |
| Game.Game.DistributeCardsToPlayers | src/game.rs:60-74 | it panics exactly when the deck has fewer than `2 * player_count` cards, and then nothing changes; otherwise player `i` gains the `i`-th pair popped from the end of the deck and the deck loses `2 * player_count` cards |
| Game.Game.ReleaseCard | src/game.rs:84-93 | `release_card` panics exactly when the deck has fewer than `2 * player_count` cards, even though it takes one, and then changes nothing; otherwise it moves the last deck card to the end of the board, and an empty deck, which passes the guard only with no players, is left as it is; players and turn count stay as they were |
| Game.Game.ReleaseCards | src/game.rs:243-245 | repeated `release_card` calls change the deck and the board as `k` calls of `Release` do, stopping at the first panic |
| Game.ReleaseTimesMovesTop | src/game.rs:84-93 | while the guard holds, `k` releases move the top `k` deck cards onto the board, last card first |
| Game.ReleaseTimesAdd | src/game.rs:236-258 | `j + k` releases are `j` releases followed by `k` more |
| Game.BoardAfterThreeTurns | src/game.rs:236-258 | turns 0, 1 and 2 release 3, 1 and 1 cards, so the board has gained the top five deck cards, and later turns add none |
| Game.Game.PlayTurn | src/game.rs:236-294 | the turn releases 3, 1, 1 or 0 board cards as the turn number says; at turn 3 every player's rank is the evaluator on board plus hole cards, and the winner is the first player with the least rank; `turn_count` goes up by one |
| Game.Game.EvaluatePlayers | src/game.rs:260-275 | every player's `hand_rank` becomes the evaluator on the board followed by that player's cards, and no card list changes |
| Game.Game.FirstLeastRank | src/game.rs:277-286 | `min_by` picks the first player with the least rank, and nobody when there are no players |
| Game.DynamicPadString | src/game.rs:182-204 | a string is produced exactly when the input fits the width, which is 80 when the terminal size is unknown |
| Game.PadIsCentred | src/game.rs:192-203 | the padded string has exactly the width and holds the input after `(width - len) / 2` pad characters; the right pad equals the left pad or is one longer |
| Evaluator.RankOfFirstSeven | src/probability.rs:62-70 | the evaluation reads only the first seven cards |

## Left out

- `evaluator7::evaluate_7cards`, `rank::get_rank_category`, `describe_rank_category` and `RankCategory` are not part of this model. The evaluator and the category map are function parameters. The nine `RankCategory` variants are the ones `get_ordered_probabilities` lists.
- The random shuffle (`SliceRandom::shuffle`, `Deck::shuffle_deck`) is replaced by a caller-supplied function `shuffle(trial, deck)`, which must be a permutation. `Game::new`'s `Deck::new(4)` plus shuffle is replaced by a deck given to `NewGame`.
- Floating point: the percentages are exact reals rather than `f64`, so rounding is not modelled. Pot, balance and wager arithmetic, and all of `src/odds.rs`, are left out.
- I/O: `decision_round`'s stdin loop, `display_game`, `display_game_for_player`, `display_danger`, `clear_console` and the printing in `play_turn` are left out, because they only read input or write text. `term_size::dimensions` becomes the `Option` parameter of `DynamicPadString`.
- `src/main.rs` and `src/lib.rs` only wire modules together. The unused `HandRank` enum and the empty `check_hand_rank` are left out.
- Panics from `todo!()`, `unwrap()`, slice indexing and `u8` overflow are preconditions (`to_name` on an invalid id, popping from an empty shuffled deck, evaluating fewer than seven cards, `turn_count` at 255, and `num_players` of 0 in `calculate_win_probability`, whose `num_players - 1` underflows `usize`, src/probability.rs:175). The explicit `panic!` guards of `src/game.rs` are modelled as behaviour.
- `quinary_` and `size_` are `u8` in the source; `Hand.FromCardVector` requires at most 255 cards, so they never wrap.
- The rank masks are `i32`; they are modelled as naturals because they only ever hold bits 0..12.
- `Card.SuitCharOf`: `to_name` returns whichever suit key the compiled `phf` table meets first, and that order is not known here. The parameter `upper` chooses the case.
- `DynamicPadString`: `input.len()` counts bytes and the model counts characters, so the two agree on ASCII input only. An input longer than the width underflows `usize` in the source and gives `None` here.
- `Player`: `src/player.rs` declares only `cards`; `src/game.rs` also reads and writes `hand_rank`, so the class carries it as `handRank`, starting at 0. `nickname`, `decisions`, `balance`, `fold`, `check` and `wager` are left out.
- The `Display` impl of `Deck` and the trait impls at the end of `src/probability.rs` are left out.
- The four getters of `Hand` (`src/hand.rs:84-97`) return the stored fields, so they are the field selectors of the datatype `Hand.Hand` and need no members of their own.
