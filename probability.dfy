/**
 * The Monte Carlo engine of `src/probability.rs` with its randomness taken
 * out: the shuffle of trial `t` is a caller-supplied permutation
 * `shuffle(t, deck)`, the seven-card evaluator and the rank-to-category
 * map are parameters. What remains is deterministic: building the
 * multi-pack deck, removing the known cards, completing the board from the
 * end of the shuffled deck, dealing the opponents, the win test, the
 * per-category tally and the ordered listing of the result.
 */
module Probability {
  import opened Card
  import opened Evaluator
  import opened Seqs

  /** `NUM_SIMULATIONS`. */
  const NumSimulations: nat := 10000

  /** Cards on a complete board. */
  const BoardSize: nat := 5

  /** The hand categories `rank::RankCategory` distinguishes. */
  datatype RankCategory =
    StraightFlush | FourOfAKind | FullHouse | Flush | Straight |
    ThreeOfAKind | TwoPair | OnePair | HighCard

  /** The order `get_ordered_probabilities` lists the categories in. */
  const CategoryOrder: seq<RankCategory> :=
    [StraightFlush, FourOfAKind, FullHouse, Flush, Straight, ThreeOfAKind, TwoPair, OnePair, HighCard]

  /** Position of a category in `CategoryOrder`. */
  function CategoryIndex(c: RankCategory): (i: nat)
    ensures i < |CategoryOrder| && CategoryOrder[i] == c
  {
    match c
    case StraightFlush => 0
    case FourOfAKind => 1
    case FullHouse => 2
    case Flush => 3
    case Straight => 4
    case ThreeOfAKind => 5
    case TwoPair => 6
    case OnePair => 7
    case HighCard => 8
  }

  lemma IndexOfOrder(i: nat)
    requires i < |CategoryOrder|
    ensures CategoryIndex(CategoryOrder[i]) == i
  {
    if i == 0 {} else if i == 1 {} else if i == 2 {} else if i == 3 {} else if i == 4 {}
    else if i == 5 {} else if i == 6 {} else if i == 7 {} else {}
  }

  /** `rank::get_rank_category`, which is not part of this model. */
  type CategoryOf = int -> RankCategory

  /** The shuffled deck of trial `t`. */
  type Shuffle = (nat, seq<Card>) -> seq<Card>

  /** `SliceRandom::shuffle` only reorders: every trial's deck is a permutation. */
  ghost predicate Permutes(shuffle: Shuffle) {
    forall t: nat, deck: seq<Card> :: multiset(shuffle(t, deck)) == multiset(deck)
  }

  lemma ShuffledLength(shuffle: Shuffle, t: nat, deck: seq<Card>)
    requires Permutes(shuffle)
    ensures |shuffle(t, deck)| == |deck|
  {
    assert |multiset(shuffle(t, deck))| == |multiset(deck)|;
  }

  // ---------------------------------------------------------------------
  // The deck of a simulation

  /** One pack in `from_id(rank * 4 + suit)` order: position `i` holds id `i`. */
  function Pack(): (pack: seq<Card>)
    ensures |pack| == CardCount && forall i :: 0 <= i < CardCount ==> pack[i] == FromId(i)
  {
    seq(CardCount, i requires 0 <= i < CardCount => FromId(i))
  }

  /** `pack_count` packs, one after the other. */
  function Packs(packCount: nat): seq<Card> {
    if packCount == 0 then [] else Packs(packCount - 1) + Pack()
  }

  /** The built deck has 52 cards per pack, and position `i` holds id `i % 52`. */
  lemma {:induction false} PacksAt(packCount: nat)
    ensures |Packs(packCount)| == CardCount * packCount
    ensures forall i :: 0 <= i < |Packs(packCount)| ==> Packs(packCount)[i] == FromId(i % CardCount)
  {
    if packCount > 0 {
      PacksAt(packCount - 1);
      var before := CardCount * (packCount - 1);
      forall i | before <= i < CardCount * packCount
        ensures Packs(packCount)[i] == FromId(i % CardCount)
      {
        assert i % CardCount == i - before by {
          assert i == before + (i - before) && 0 <= i - before < CardCount;
        }
      }
    }
  }

  /** Every id of a pack occurs `pack_count` times, and no other id occurs. */
  lemma {:induction false} PacksCopies(packCount: nat, c: Card)
    ensures multiset(Packs(packCount))[c] == if ValidId(c.id) then packCount else 0
  {
    if packCount > 0 {
      PacksCopies(packCount - 1, c);
      PackOnce(c);
    }
  }

  lemma PackOnce(c: Card)
    ensures multiset(Pack())[c] == if ValidId(c.id) then 1 else 0
  {
    var pack := Pack();
    if ValidId(c.id) {
      var k := c.id;
      assert pack == pack[..k] + [pack[k]] + pack[k + 1..];
      assert c !in pack[..k] && c !in pack[k + 1..];
    } else {
      assert c !in pack;
    }
  }

  /** The nested `push` loops of both engines. */
  method BuildDeck(packCount: nat) returns (deck: seq<Card>)
    ensures deck == Packs(packCount)
    ensures |deck| == CardCount * packCount
    ensures forall i :: 0 <= i < |deck| ==> deck[i] == FromId(i % CardCount)
  {
    deck := [];
    for pack := 0 to packCount
      invariant deck == Packs(pack)
    {
      for rank := 0 to 13
        invariant deck == Packs(pack) + Pack()[..4 * rank]
      {
        for suit := 0 to 4
          invariant deck == Packs(pack) + Pack()[..4 * rank + suit]
        {
          assert Pack()[..4 * rank + suit + 1] == Pack()[..4 * rank + suit] + [FromId(rank * 4 + suit)];
          deck := deck + [FromId(rank * 4 + suit)];
        }
      }
      assert Pack()[..CardCount] == Pack();
    }
    PacksAt(packCount);
  }

  /** Whether a known card has the id of `card`. */
  predicate IsKnown(known: seq<Card>, card: Card) {
    exists k :: 0 <= k < |known| && known[k].id == card.id
  }

  /** The `any` loop inside the `retain` closure. */
  method AnyKnown(known: seq<Card>, card: Card) returns (found: bool)
    ensures found <==> IsKnown(known, card)
  {
    found := false;
    for k := 0 to |known|
      invariant found <==> exists j :: 0 <= j < k && known[j].id == card.id
    {
      if known[k].id == card.id {
        found := true;
      }
    }
  }

  /** `deck.retain(..)`: the cards no known card shares an id with, in deck order. */
  function Retained(deck: seq<Card>, known: seq<Card>): seq<Card> {
    if deck == [] then []
    else Retained(deck[..|deck| - 1], known) + (if IsKnown(known, deck[|deck| - 1]) then [] else [deck[|deck| - 1]])
  }

  method RetainUnknown(deck: seq<Card>, known: seq<Card>) returns (kept: seq<Card>)
    ensures kept == Retained(deck, known)
  {
    kept := [];
    for i := 0 to |deck|
      invariant kept == Retained(deck[..i], known)
    {
      assert deck[..i + 1][..i] == deck[..i];
      var found := AnyKnown(known, deck[i]);
      if !found {
        kept := kept + [deck[i]];
      }
    }
    assert deck[..|deck|] == deck;
  }

  /** No retained card shares an id with a known card. */
  lemma {:induction false} RetainedAreUnknown(deck: seq<Card>, known: seq<Card>)
    ensures forall i :: 0 <= i < |Retained(deck, known)| ==> !IsKnown(known, Retained(deck, known)[i])
  {
    if deck != [] {
      RetainedAreUnknown(deck[..|deck| - 1], known);
    }
  }

  /** Known cards are removed in every copy; every other card keeps all its copies. */
  lemma {:induction false} RetainedMultiplicity(deck: seq<Card>, known: seq<Card>, c: Card)
    ensures multiset(Retained(deck, known))[c] == if IsKnown(known, c) then 0 else multiset(deck)[c]
  {
    if deck != [] {
      RetainedMultiplicity(deck[..|deck| - 1], known, c);
      assert deck == deck[..|deck| - 1] + [deck[|deck| - 1]];
    }
  }

  /** Filtering a concatenation filters each part, so the kept cards stay in deck order. */
  lemma {:induction false} RetainedAppend(a: seq<Card>, b: seq<Card>, known: seq<Card>)
    ensures Retained(a + b, known) == Retained(a, known) + Retained(b, known)
  {
    if b == [] {
      assert a + b == a;
    } else {
      RetainedAppend(a, b[..|b| - 1], known);
      assert (a + b)[..|a + b| - 1] == a + b[..|b| - 1];
    }
  }

  /** The deck a simulation shuffles: all packs without the hole and community cards. */
  function SimulationDeck(packCount: nat, hole: seq<Card>, community: seq<Card>): seq<Card> {
    Retained(Packs(packCount), hole + community)
  }

  method BuildSimulationDeck(packCount: nat, hole: seq<Card>, community: seq<Card>) returns (deck: seq<Card>)
    ensures deck == SimulationDeck(packCount, hole, community)
  {
    deck := BuildDeck(packCount);
    deck := RetainUnknown(deck, hole + community);
  }

  // ---------------------------------------------------------------------
  // One trial

  /** How many cards the `while sim_community_cards.len() < 5` loop pops. */
  function CardsNeeded(community: seq<Card>): nat {
    if |community| < BoardSize then BoardSize - |community| else 0
  }

  /** The completed board: the community cards, then the cards popped from the end. */
  function Board(community: seq<Card>, shuffled: seq<Card>): (board: seq<Card>)
    requires CardsNeeded(community) <= |shuffled|
    ensures |board| == |community| + CardsNeeded(community)
  {
    community + Reversed(shuffled[|shuffled| - CardsNeeded(community)..])
  }

  /** What is left of the shuffled deck after the board is completed. */
  function AfterBoard(community: seq<Card>, shuffled: seq<Card>): seq<Card>
    requires CardsNeeded(community) <= |shuffled|
  {
    shuffled[..|shuffled| - CardsNeeded(community)]
  }

  /** The board-completion loop; `unwrap` on an empty deck is excluded by the precondition. */
  method CompleteBoard(community: seq<Card>, shuffled: seq<Card>) returns (board: seq<Card>, rest: seq<Card>)
    requires CardsNeeded(community) <= |shuffled|
    ensures board == Board(community, shuffled) && rest == AfterBoard(community, shuffled)
  {
    var n := |shuffled|;
    board := community;
    rest := shuffled;
    while |board| < BoardSize
      invariant |community| <= |board| && |board| - |community| <= CardsNeeded(community)
      invariant rest == shuffled[..n - (|board| - |community|)]
      invariant board == community + Reversed(shuffled[n - (|board| - |community|)..])
      decreases BoardSize - |board|
    {
      var d := |board| - |community|;
      var card := rest[|rest| - 1];
      assert shuffled[n - d - 1..] == [card] + shuffled[n - d..];
      ReversedAppend([card], shuffled[n - d..]);
      rest := rest[..|rest| - 1];
      board := board + [card];
    }
  }

  /** A complete board has five cards or more, begins with the community cards and is them when there are five already. */
  lemma BoardShape(community: seq<Card>, shuffled: seq<Card>)
    requires CardsNeeded(community) <= |shuffled|
    ensures |Board(community, shuffled)| == if |community| < BoardSize then BoardSize else |community|
    ensures Board(community, shuffled)[..|community|] == community
    ensures |community| >= BoardSize ==> Board(community, shuffled) == community
  {
    if |community| >= BoardSize {
      assert shuffled[|shuffled|..] == [];
    }
  }

  /** No card is lost or created by completing the board. */
  lemma BoardConserves(community: seq<Card>, shuffled: seq<Card>)
    requires CardsNeeded(community) <= |shuffled|
    ensures multiset(Board(community, shuffled)) + multiset(AfterBoard(community, shuffled)) ==
      multiset(community) + multiset(shuffled)
  {
    var cut := |shuffled| - CardsNeeded(community);
    ReversedMultiset(shuffled[cut..]);
    assert shuffled == shuffled[..cut] + shuffled[cut..];
  }

  /** The opponent loop: `opponents` hands of two cards popped from the end. */
  method DealOpponents(deck: seq<Card>, opponents: nat) returns (hands: seq<seq<Card>>, rest: seq<Card>)
    requires 2 * opponents <= |deck|
    ensures hands == PairsFromTop(deck, opponents) && rest == deck[..|deck| - 2 * opponents]
    ensures forall i :: 0 <= i < |hands| ==> |hands[i]| == 2
  {
    hands := [];
    rest := deck;
    for i := 0 to opponents
      invariant hands == PairsFromTop(deck, i) && rest == deck[..|deck| - 2 * i]
    {
      var first := rest[|rest| - 1];
      rest := rest[..|rest| - 1];
      var second := rest[|rest| - 1];
      rest := rest[..|rest| - 1];
      hands := hands + [[first, second]];
    }
  }

  /**
   * The cards a win trial draws, board cards first and then the opponents'
   * hands in dealing order, are the top of the shuffled deck reversed: no
   * deck position is used twice.
   */
  lemma TrialDrawsTopOfDeck(community: seq<Card>, shuffled: seq<Card>, opponents: nat)
    requires CardsNeeded(community) + 2 * opponents <= |shuffled|
    ensures var cut := |shuffled| - CardsNeeded(community) - 2 * opponents;
      Board(community, shuffled)[|community|..] + Flatten(PairsFromTop(AfterBoard(community, shuffled), opponents)) ==
      Reversed(shuffled[cut..])
  {
    var n := |shuffled|;
    var need := CardsNeeded(community);
    var cut := n - need - 2 * opponents;
    var rest := AfterBoard(community, shuffled);
    var drawnForBoard := Board(community, shuffled)[|community|..];
    assert drawnForBoard == Reversed(shuffled[n - need..]);
    PairsFromTopAreReversedTop(rest, opponents);
    assert rest[|rest| - 2 * opponents..] == shuffled[cut..n - need];
    assert Flatten(PairsFromTop(rest, opponents)) == Reversed(shuffled[cut..n - need]);
    assert shuffled[cut..] == shuffled[cut..n - need] + shuffled[n - need..];
    ReversedAppend(shuffled[cut..n - need], shuffled[n - need..]);
  }

  /** No card a trial draws has the id of a hole or community card. */
  lemma DrawnCardsAreUnknown(shuffle: Shuffle, t: nat, packCount: nat, hole: seq<Card>, community: seq<Card>)
    requires Permutes(shuffle)
    ensures var shuffled := shuffle(t, SimulationDeck(packCount, hole, community));
      forall i :: 0 <= i < |shuffled| ==> !IsKnown(hole + community, shuffled[i])
  {
    var deck := SimulationDeck(packCount, hole, community);
    var shuffled := shuffle(t, deck);
    forall i | 0 <= i < |shuffled|
      ensures !IsKnown(hole + community, shuffled[i])
    {
      assert shuffled[i] in multiset(shuffled);
      assert shuffled[i] in multiset(deck);
      var j :| 0 <= j < |deck| && deck[j] == shuffled[i];
      RetainedAreUnknown(Packs(packCount), hole + community);
    }
  }

  /** The hole cards and a complete board give the seven cards the evaluator reads. */
  predicate Evaluable(hole: seq<Card>, community: seq<Card>) {
    |hole| + |community| + CardsNeeded(community) >= 7
  }

  /** The `won` loop: we lose as soon as one opponent ranks strictly lower (better) than us. */
  method WinsAgainst(eval: Evaluate7Cards, ourRank: int, opponents: seq<seq<Card>>, board: seq<Card>) returns (won: bool)
    requires forall i :: 0 <= i < |opponents| ==> |opponents[i]| + |board| >= 7
    ensures won <==> forall i :: 0 <= i < |opponents| ==> RankOf(eval, opponents[i] + board) >= ourRank
  {
    won := true;
    var i := 0;
    while i < |opponents|
      invariant 0 <= i <= |opponents|
      invariant won && forall k :: 0 <= k < i ==> RankOf(eval, opponents[k] + board) >= ourRank
    {
      var opponentRank := RankOf(eval, opponents[i] + board);
      if opponentRank < ourRank {
        won := false;
        break;
      }
      i := i + 1;
    }
  }

  // ---------------------------------------------------------------------
  // Hand-category probabilities

  /** The category a hand trial records for its shuffled deck. */
  function HandCategory(eval: Evaluate7Cards, categoryOf: CategoryOf, hole: seq<Card>, community: seq<Card>,
                        shuffled: seq<Card>): RankCategory
    requires CardsNeeded(community) <= |shuffled| && Evaluable(hole, community)
  {
    categoryOf(RankOf(eval, hole + Board(community, shuffled)))
  }

  /** The categories recorded by the first `n` trials. */
  function HandCategories(eval: Evaluate7Cards, categoryOf: CategoryOf, shuffle: Shuffle, hole: seq<Card>,
                          community: seq<Card>, deck: seq<Card>, n: nat): (cats: seq<RankCategory>)
    requires Permutes(shuffle) && CardsNeeded(community) <= |deck| && Evaluable(hole, community)
    ensures |cats| == n
  {
    if n == 0 then []
    else
      ShuffledLength(shuffle, n - 1, deck);
      HandCategories(eval, categoryOf, shuffle, hole, community, deck, n - 1) +
        [HandCategory(eval, categoryOf, hole, community, shuffle(n - 1, deck))]
  }

  /** How often `c` has been counted; a missing entry is zero. */
  function Count(counts: map<RankCategory, nat>, c: RankCategory): nat {
    if c in counts then counts[c] else 0
  }

  /** The `entry(category).or_insert(0) += 1` counter after recording `cats`. */
  function Tally(cats: seq<RankCategory>): map<RankCategory, nat> {
    if cats == [] then map[]
    else
      var counts := Tally(cats[..|cats| - 1]);
      var c := cats[|cats| - 1];
      counts[c := Count(counts, c) + 1]
  }

  /** Percentages of `NUM_SIMULATIONS`, on exact reals. */
  function Percentages(counts: map<RankCategory, nat>): map<RankCategory, real> {
    map c | c in counts :: counts[c] as real / NumSimulations as real * 100.0
  }

  function HandCounts(eval: Evaluate7Cards, categoryOf: CategoryOf, shuffle: Shuffle, hole: seq<Card>,
                      community: seq<Card>, packCount: nat): map<RankCategory, nat>
    requires Permutes(shuffle) && Evaluable(hole, community)
    requires CardsNeeded(community) <= |SimulationDeck(packCount, hole, community)|
  {
    Tally(HandCategories(eval, categoryOf, shuffle, hole, community, SimulationDeck(packCount, hole, community), NumSimulations))
  }

  /** One trial of `calculate_hand_probabilities`: complete the board, evaluate the seven cards, categorise. */
  method HandTrial(eval: Evaluate7Cards, categoryOf: CategoryOf, hole: seq<Card>, community: seq<Card>,
                   shuffled: seq<Card>) returns (category: RankCategory)
    requires CardsNeeded(community) <= |shuffled| && Evaluable(hole, community)
    ensures category == HandCategory(eval, categoryOf, hole, community, shuffled)
  {
    var board, _ := CompleteBoard(community, shuffled);
    var hand := hole + board;
    category := categoryOf(RankOf(eval, hand));
  }

  /** Recording trial `t` extends the tally of the first `t` trials by its category. */
  lemma HandTallyStep(eval: Evaluate7Cards, categoryOf: CategoryOf, shuffle: Shuffle, hole: seq<Card>,
                      community: seq<Card>, deck: seq<Card>, t: nat, counts: map<RankCategory, nat>,
                      category: RankCategory)
    requires Permutes(shuffle) && CardsNeeded(community) <= |deck| && Evaluable(hole, community)
    requires counts == Tally(HandCategories(eval, categoryOf, shuffle, hole, community, deck, t))
    requires |shuffle(t, deck)| == |deck| && category == HandCategory(eval, categoryOf, hole, community, shuffle(t, deck))
    ensures counts[category := Count(counts, category) + 1] ==
      Tally(HandCategories(eval, categoryOf, shuffle, hole, community, deck, t + 1))
  {
    var cats := HandCategories(eval, categoryOf, shuffle, hole, community, deck, t + 1);
    assert cats[..t] == HandCategories(eval, categoryOf, shuffle, hole, community, deck, t);
  }

  /**
   * `calculate_hand_probabilities`. `num_players` takes no part: the result
   * is the same for every value of it.
   */
  method CalculateHandProbabilities(eval: Evaluate7Cards, categoryOf: CategoryOf, shuffle: Shuffle,
                                    hole: seq<Card>, community: seq<Card>, numPlayers: nat, packCount: nat)
    returns (results: map<RankCategory, real>)
    requires Permutes(shuffle) && Evaluable(hole, community)
    requires CardsNeeded(community) <= |SimulationDeck(packCount, hole, community)|
    ensures results == Percentages(HandCounts(eval, categoryOf, shuffle, hole, community, packCount))
  {
    var deck := BuildSimulationDeck(packCount, hole, community);
    var counts := RunHandTrials(eval, categoryOf, shuffle, hole, community, deck, NumSimulations);
    results := Percentages(counts);
  }

  /** The simulation loop of `calculate_hand_probabilities` over `trials` shuffles of `deck`. */
  method RunHandTrials(eval: Evaluate7Cards, categoryOf: CategoryOf, shuffle: Shuffle, hole: seq<Card>,
                       community: seq<Card>, deck: seq<Card>, trials: nat) returns (counts: map<RankCategory, nat>)
    requires Permutes(shuffle) && CardsNeeded(community) <= |deck| && Evaluable(hole, community)
    ensures counts == Tally(HandCategories(eval, categoryOf, shuffle, hole, community, deck, trials))
  {
    counts := map[];
    for t := 0 to trials
      invariant counts == Tally(HandCategories(eval, categoryOf, shuffle, hole, community, deck, t))
    {
      var shuffled := shuffle(t, deck);
      ShuffledLength(shuffle, t, deck);
      var category := HandTrial(eval, categoryOf, hole, community, shuffled);
      HandTallyStep(eval, categoryOf, shuffle, hole, community, deck, t, counts, category);
      counts := counts[category := Count(counts, category) + 1];
    }
  }

  /** A category is in the tally exactly when some trial recorded it, as often as it was recorded. */
  lemma {:induction false} TallyCounts(cats: seq<RankCategory>, c: RankCategory)
    ensures Count(Tally(cats), c) == multiset(cats)[c]
    ensures c in Tally(cats) <==> c in cats
  {
    if cats != [] {
      TallyCounts(cats[..|cats| - 1], c);
      assert cats == cats[..|cats| - 1] + [cats[|cats| - 1]];
    }
  }

  /** The sum of the counts over all nine categories. */
  function TotalCount(counts: map<RankCategory, nat>): nat {
    Count(counts, StraightFlush) + Count(counts, FourOfAKind) + Count(counts, FullHouse) +
    Count(counts, Flush) + Count(counts, Straight) + Count(counts, ThreeOfAKind) +
    Count(counts, TwoPair) + Count(counts, OnePair) + Count(counts, HighCard)
  }

  /** Each trial increments exactly one category: the counts add up to the number of trials. */
  lemma {:induction false} TallyTotal(cats: seq<RankCategory>)
    ensures TotalCount(Tally(cats)) == |cats|
  {
    if cats != [] {
      TallyTotal(cats[..|cats| - 1]);
      IncrementTotal(Tally(cats[..|cats| - 1]), cats[|cats| - 1]);
    }
  }

  lemma IncrementTotal(counts: map<RankCategory, nat>, c: RankCategory)
    ensures TotalCount(counts[c := Count(counts, c) + 1]) == TotalCount(counts) + 1
  {
  }

  /** The category counts of `calculate_hand_probabilities` add up to `NUM_SIMULATIONS`. */
  lemma HandCountsTotal(eval: Evaluate7Cards, categoryOf: CategoryOf, shuffle: Shuffle, hole: seq<Card>,
                        community: seq<Card>, packCount: nat)
    requires Permutes(shuffle) && Evaluable(hole, community)
    requires CardsNeeded(community) <= |SimulationDeck(packCount, hole, community)|
    ensures TotalCount(HandCounts(eval, categoryOf, shuffle, hole, community, packCount)) == NumSimulations
  {
    TallyTotal(HandCategories(eval, categoryOf, shuffle, hole, community, SimulationDeck(packCount, hole, community), NumSimulations));
  }

  /** The percentages hold exactly the recorded categories, each with a positive share. */
  lemma PercentagesOfTally(cats: seq<RankCategory>, c: RankCategory)
    ensures c in Percentages(Tally(cats)) <==> c in cats
    ensures c in cats ==> Percentages(Tally(cats))[c] > 0.0
  {
    TallyCounts(cats, c);
  }

  /** The sum of the percentages over all nine categories; a missing entry is zero. */
  function TotalShare(shares: map<RankCategory, real>): real {
    Lookup(shares, StraightFlush) + Lookup(shares, FourOfAKind) + Lookup(shares, FullHouse) +
    Lookup(shares, Flush) + Lookup(shares, Straight) + Lookup(shares, ThreeOfAKind) +
    Lookup(shares, TwoPair) + Lookup(shares, OnePair) + Lookup(shares, HighCard)
  }

  /** The category percentages add up to 100. */
  lemma HandPercentagesAddUp(eval: Evaluate7Cards, categoryOf: CategoryOf, shuffle: Shuffle, hole: seq<Card>,
                             community: seq<Card>, packCount: nat)
    requires Permutes(shuffle) && Evaluable(hole, community)
    requires CardsNeeded(community) <= |SimulationDeck(packCount, hole, community)|
    ensures TotalShare(Percentages(HandCounts(eval, categoryOf, shuffle, hole, community, packCount))) == 100.0
  {
    var counts := HandCounts(eval, categoryOf, shuffle, hole, community, packCount);
    HandCountsTotal(eval, categoryOf, shuffle, hole, community, packCount);
    TotalShareOfPercentages(counts);
  }

  lemma TotalShareOfPercentages(counts: map<RankCategory, nat>)
    ensures TotalShare(Percentages(counts)) == TotalCount(counts) as real / 100.0
  {
    var shares := Percentages(counts);
    assert forall c :: Lookup(shares, c) == Count(counts, c) as real / 100.0;
  }

  // ---------------------------------------------------------------------
  // Win probability

  /** Whether a win trial with this shuffled deck is won: no opponent ranks strictly better. */
  predicate TrialWon(eval: Evaluate7Cards, hole: seq<Card>, community: seq<Card>, opponents: nat, shuffled: seq<Card>)
    requires CardsNeeded(community) + 2 * opponents <= |shuffled| && Evaluable(hole, community)
  {
    var board := Board(community, shuffled);
    var hands := PairsFromTop(AfterBoard(community, shuffled), opponents);
    forall i :: 0 <= i < opponents ==> RankOf(eval, hands[i] + board) >= RankOf(eval, hole + board)
  }

  /** The wins among the first `n` trials. */
  function WinCount(eval: Evaluate7Cards, shuffle: Shuffle, hole: seq<Card>, community: seq<Card>,
                    opponents: nat, deck: seq<Card>, n: nat): (wins: nat)
    requires Permutes(shuffle) && CardsNeeded(community) + 2 * opponents <= |deck| && Evaluable(hole, community)
    ensures wins <= n
  {
    if n == 0 then 0
    else
      ShuffledLength(shuffle, n - 1, deck);
      WinCount(eval, shuffle, hole, community, opponents, deck, n - 1) +
        (if TrialWon(eval, hole, community, opponents, shuffle(n - 1, deck)) then 1 else 0)
  }

  function Wins(eval: Evaluate7Cards, shuffle: Shuffle, hole: seq<Card>, community: seq<Card>,
                numPlayers: nat, packCount: nat): nat
    requires Permutes(shuffle) && Evaluable(hole, community) && numPlayers >= 1
    requires CardsNeeded(community) + 2 * (numPlayers - 1) <= |SimulationDeck(packCount, hole, community)|
  {
    WinCount(eval, shuffle, hole, community, numPlayers - 1, SimulationDeck(packCount, hole, community), NumSimulations)
  }

  /** One trial of `calculate_win_probability`: complete the board, deal the opponents, compare ranks. */
  method WinTrial(eval: Evaluate7Cards, hole: seq<Card>, community: seq<Card>, opponents: nat, shuffled: seq<Card>)
    returns (won: bool)
    requires CardsNeeded(community) + 2 * opponents <= |shuffled| && Evaluable(hole, community)
    ensures won == TrialWon(eval, hole, community, opponents, shuffled)
  {
    var board, rest := CompleteBoard(community, shuffled);
    var hands, _ := DealOpponents(rest, opponents);
    var ourRank := RankOf(eval, hole + board);
    won := WinsAgainst(eval, ourRank, hands, board);
  }

  lemma WinCountStep(eval: Evaluate7Cards, shuffle: Shuffle, hole: seq<Card>, community: seq<Card>,
                     opponents: nat, deck: seq<Card>, t: nat, won: bool)
    requires Permutes(shuffle) && CardsNeeded(community) + 2 * opponents <= |deck| && Evaluable(hole, community)
    requires |shuffle(t, deck)| == |deck| && won == TrialWon(eval, hole, community, opponents, shuffle(t, deck))
    ensures WinCount(eval, shuffle, hole, community, opponents, deck, t + 1) ==
      WinCount(eval, shuffle, hole, community, opponents, deck, t) + (if won then 1 else 0)
  {
  }

  /**
   * `calculate_win_probability`. `num_players - 1` opponents are dealt, so
   * `num_players` is at least one (the subtraction is on `usize`).
   */
  method CalculateWinProbability(eval: Evaluate7Cards, shuffle: Shuffle, hole: seq<Card>, community: seq<Card>,
                                 numPlayers: nat, packCount: nat) returns (probability: real)
    requires Permutes(shuffle) && Evaluable(hole, community) && numPlayers >= 1
    requires CardsNeeded(community) + 2 * (numPlayers - 1) <= |SimulationDeck(packCount, hole, community)|
    ensures probability == Wins(eval, shuffle, hole, community, numPlayers, packCount) as real / NumSimulations as real * 100.0
    ensures 0.0 <= probability <= 100.0
  {
    var deck := BuildSimulationDeck(packCount, hole, community);
    var trials := NumSimulations;
    var wins := RunWinTrials(eval, shuffle, hole, community, numPlayers - 1, deck, trials);
    ShareBounds(wins, trials);
    probability := wins as real / trials as real * 100.0;
  }

  /** A share of `count` out of `n`, in percent, lies between 0 and 100. */
  lemma ShareBounds(count: nat, n: nat)
    requires 0 < n && count <= n
    ensures 0.0 <= count as real / n as real * 100.0 <= 100.0
  {
    assert count as real / n as real <= 1.0;
  }

  /** The simulation loop of `calculate_win_probability` over `trials` shuffles of `deck`. */
  method RunWinTrials(eval: Evaluate7Cards, shuffle: Shuffle, hole: seq<Card>, community: seq<Card>,
                      opponents: nat, deck: seq<Card>, trials: nat) returns (wins: nat)
    requires Permutes(shuffle) && CardsNeeded(community) + 2 * opponents <= |deck| && Evaluable(hole, community)
    ensures wins == WinCount(eval, shuffle, hole, community, opponents, deck, trials)
  {
    wins := 0;
    for t := 0 to trials
      invariant wins == WinCount(eval, shuffle, hole, community, opponents, deck, t)
    {
      var shuffled := shuffle(t, deck);
      ShuffledLength(shuffle, t, deck);
      var won := WinTrial(eval, hole, community, opponents, shuffled);
      WinCountStep(eval, shuffle, hole, community, opponents, deck, t, won);
      wins := wins + if won then 1 else 0;
    }
  }

  /** Without opponents every trial is won. */
  lemma {:induction false} NoOpponentsAlwaysWin(eval: Evaluate7Cards, shuffle: Shuffle, hole: seq<Card>,
                                               community: seq<Card>, deck: seq<Card>, n: nat)
    requires Permutes(shuffle) && CardsNeeded(community) <= |deck| && Evaluable(hole, community)
    ensures WinCount(eval, shuffle, hole, community, 0, deck, n) == n
  {
    if n > 0 {
      NoOpponentsAlwaysWin(eval, shuffle, hole, community, deck, n - 1);
    }
  }

  // ---------------------------------------------------------------------
  // Ordered listing

  /** `probs.get(c).unwrap_or(0.0)`. */
  function Lookup(probs: map<RankCategory, real>, c: RankCategory): real {
    if c in probs then probs[c] else 0.0
  }

  /** Keeping or dropping category `i` keeps every positive category up to `i` listed. */
  lemma ListedStep(probs: map<RankCategory, real>, i: nat, before: seq<(RankCategory, real)>,
                   after: seq<(RankCategory, real)>)
    requires i < |CategoryOrder|
    requires forall c :: CategoryIndex(c) < i && Lookup(probs, c) > 0.0 ==>
      exists k :: 0 <= k < |before| && before[k].0 == c
    requires after == if Lookup(probs, CategoryOrder[i]) > 0.0
      then before + [(CategoryOrder[i], Lookup(probs, CategoryOrder[i]))] else before
    ensures forall c :: CategoryIndex(c) < i + 1 && Lookup(probs, c) > 0.0 ==>
      exists k :: 0 <= k < |after| && after[k].0 == c
  {
    forall c | CategoryIndex(c) < i + 1 && Lookup(probs, c) > 0.0
      ensures exists k :: 0 <= k < |after| && after[k].0 == c
    {
      if CategoryIndex(c) == i {
        assert after[|before|].0 == c;
      } else {
        var k :| 0 <= k < |before| && before[k].0 == c;
        assert after[k].0 == c;
      }
    }
  }

  /**
   * `get_ordered_probabilities`: the categories in `CategoryOrder` paired
   * with their probabilities, keeping the positive ones.
   */
  method GetOrderedProbabilities(probs: map<RankCategory, real>) returns (ordered: seq<(RankCategory, real)>)
    ensures forall i :: 0 <= i < |ordered| ==> ordered[i].1 == Lookup(probs, ordered[i].0) && ordered[i].1 > 0.0
    ensures forall c :: (exists i :: 0 <= i < |ordered| && ordered[i].0 == c) <==> Lookup(probs, c) > 0.0
    ensures forall i, j :: 0 <= i < j < |ordered| ==> CategoryIndex(ordered[i].0) < CategoryIndex(ordered[j].0)
  {
    var all := seq(|CategoryOrder|, i requires 0 <= i < |CategoryOrder| => (CategoryOrder[i], Lookup(probs, CategoryOrder[i])));
    ordered := [];
    for i := 0 to |all|
      invariant forall k :: 0 <= k < |ordered| ==> ordered[k].1 == Lookup(probs, ordered[k].0) && ordered[k].1 > 0.0
      invariant forall k :: 0 <= k < |ordered| ==> CategoryIndex(ordered[k].0) < i
      invariant forall k, l :: 0 <= k < l < |ordered| ==> CategoryIndex(ordered[k].0) < CategoryIndex(ordered[l].0)
      invariant forall c :: CategoryIndex(c) < i && Lookup(probs, c) > 0.0 ==>
        exists k :: 0 <= k < |ordered| && ordered[k].0 == c
    {
      var entry := all[i];
      IndexOfOrder(i);
      ghost var before := ordered;
      if entry.1 > 0.0 {
        ordered := ordered + [entry];
      }
      ListedStep(probs, i, before, ordered);
    }
  }
}
