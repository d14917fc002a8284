/**
 * The seven-card evaluator `evaluator7::evaluate_7cards` is not part of
 * this model: it is an arbitrary function of seven card ids, passed in by
 * the caller. Lower ranks are better hands.
 */
module Evaluator {
  import opened Card

  type Evaluate7Cards = (I32, I32, I32, I32, I32, I32, I32) -> int

  /** The evaluator applied to the first seven cards, as the call sites index `[0]` to `[6]`. */
  function RankOf(eval: Evaluate7Cards, cards: seq<Card>): int
    requires |cards| >= 7
  {
    eval(cards[0].Int32(), cards[1].Int32(), cards[2].Int32(), cards[3].Int32(),
         cards[4].Int32(), cards[5].Int32(), cards[6].Int32())
  }

  /** Only the first seven cards take part in the evaluation. */
  lemma RankOfFirstSeven(eval: Evaluate7Cards, cards: seq<Card>, extra: seq<Card>)
    requires |cards| >= 7
    ensures RankOf(eval, cards + extra) == RankOf(eval, cards[..7])
  {
  }
}
