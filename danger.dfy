/**
 * `spot_rf` of `src/danger.rs`: the "royal-flush danger" scan. The cards
 * are grouped into maximal runs of adjacent cards of the same suit (as
 * `group_by` does, adjacent items only), and a run is dangerous when it has
 * more than two cards and exactly three of them are Ten, Jack, Queen, King
 * or Ace. The result is the dangerous runs, in input order.
 */
module Danger {
  import opened CardFace
  import opened Seqs

  /** The values counted by `count_flush`. */
  predicate IsHigh(v: CardValue) {
    v == Ace || v == King || v == Queen || v == Jack || v == Number(10)
  }

  /** Length of the run of cards with the suit of `cards[0]` that starts the sequence. */
  function RunLength(cards: seq<Card>): (k: nat)
    ensures cards != [] ==> 1 <= k <= |cards|
    ensures cards == [] ==> k == 0
  {
    if |cards| <= 1 then |cards|
    else if cards[1].cardType == cards[0].cardType then 1 + RunLength(cards[1..])
    else 1
  }

  /** The maximal same-suit runs, first to last. */
  function Runs(cards: seq<Card>): seq<seq<Card>>
    decreases |cards|
  {
    if cards == [] then []
    else
      var k := RunLength(cards);
      [cards[..k]] + Runs(cards[k..])
  }

  /** Number of high cards. */
  function CountHigh(cards: seq<Card>): nat {
    if cards == [] then 0
    else CountHigh(cards[..|cards| - 1]) + (if IsHigh(cards[|cards| - 1].cardValue) then 1 else 0)
  }

  predicate Selected(run: seq<Card>) {
    |run| > 2 && CountHigh(run) == 3
  }

  /** The cards `spot_rf` returns: the selected runs, concatenated. */
  function Dangerous(cards: seq<Card>): seq<Card>
    decreases |cards|
  {
    if cards == [] then []
    else
      var k := RunLength(cards);
      (if Selected(cards[..k]) then cards[..k] else []) + Dangerous(cards[k..])
  }

  function SelectedRuns(runs: seq<seq<Card>>): seq<seq<Card>> {
    if runs == [] then []
    else (if Selected(runs[0]) then [runs[0]] else []) + SelectedRuns(runs[1..])
  }

  // ---------------------------------------------------------------------
  // The scan

  /** A run ends at the first card of another suit, or at the end. */
  lemma {:induction false} RunLengthIs(cards: seq<Card>, k: nat)
    requires 0 < k <= |cards|
    requires forall i :: 0 <= i < k ==> cards[i].cardType == cards[0].cardType
    requires k == |cards| || cards[k].cardType != cards[0].cardType
    ensures RunLength(cards) == k
  {
    if k > 1 {
      RunLengthIs(cards[1..], k - 1);
    }
  }

  lemma CountHighSnoc(cards: seq<Card>, i: nat)
    requires i < |cards|
    ensures CountHigh(cards[..i + 1]) == CountHigh(cards[..i]) + (if IsHigh(cards[i].cardValue) then 1 else 0)
  {
    assert cards[..i + 1][..i] == cards[..i];
  }

  /** The group starting at `i` ends at `j`: peel it off the rest of the scan. */
  lemma DangerousStep(cards: seq<Card>, i: nat, j: nat)
    requires i < j <= |cards|
    requires forall k :: i <= k < j ==> cards[k].cardType == cards[i].cardType
    requires j == |cards| || cards[j].cardType != cards[i].cardType
    ensures Dangerous(cards[i..]) == (if Selected(cards[i..j]) then cards[i..j] else []) + Dangerous(cards[j..])
  {
    RunLengthIs(cards[i..], j - i);
    assert cards[i..][..j - i] == cards[i..j];
    assert cards[i..][j - i..] == cards[j..];
  }

  /** The end of the group of adjacent same-suit cards that starts at `i` (what `group_by` yields). */
  method GroupEnd(cards: seq<Card>, i: nat) returns (j: nat)
    requires i < |cards|
    ensures i < j <= |cards|
    ensures forall k :: i <= k < j ==> cards[k].cardType == cards[i].cardType
    ensures j == |cards| || cards[j].cardType != cards[i].cardType
  {
    j := i + 1;
    while j < |cards| && cards[j].cardType == cards[i].cardType
      invariant i < j <= |cards|
      invariant forall k :: i <= k < j ==> cards[k].cardType == cards[i].cardType
    {
      j := j + 1;
    }
  }

  /** The `count_flush` loop over one group. */
  method CountFlush(group: seq<Card>) returns (countFlush: nat)
    ensures countFlush == CountHigh(group)
  {
    countFlush := 0;
    for k := 0 to |group|
      invariant countFlush == CountHigh(group[..k])
    {
      CountHighSnoc(group, k);
      if IsHigh(group[k].cardValue) {
        countFlush := countFlush + 1;
      }
    }
    assert group[..|group|] == group;
  }

  /** `spot_rf`: scan suit group by suit group, counting high cards in each group longer than two. */
  method SpotRf(cards: seq<Card>) returns (dangerous: seq<Card>)
    ensures dangerous == Dangerous(cards)
  {
    dangerous := [];
    var i := 0;
    while i < |cards|
      invariant 0 <= i <= |cards|
      invariant Dangerous(cards) == dangerous + Dangerous(cards[i..])
    {
      var j := GroupEnd(cards, i);
      var group := cards[i..j];
      DangerousStep(cards, i, j);
      ghost var chosen: seq<Card> := if Selected(group) then group else [];
      ghost var before := dangerous;
      if |group| > 2 {
        var countFlush := CountFlush(group);
        if countFlush == 3 {
          dangerous := dangerous + group;
        }
      }
      assert dangerous == before + chosen;
      AppendAssoc(before, chosen, Dangerous(cards[j..]));
      i := j;
    }
    assert cards[|cards|..] == [];
  }

  // ---------------------------------------------------------------------
  // What the scan returns

  /** The runs split the input: concatenated, they give the cards back. */
  lemma {:induction false} RunsPartition(cards: seq<Card>)
    ensures Flatten(Runs(cards)) == cards
    decreases |cards|
  {
    if cards != [] {
      var k := RunLength(cards);
      RunsPartition(cards[k..]);
      assert cards == cards[..k] + cards[k..];
    }
  }

  /** The run at the front has a single suit, and the next card has another. */
  lemma {:induction false} RunIsMaximal(cards: seq<Card>)
    requires cards != []
    ensures forall i :: 0 <= i < RunLength(cards) ==> cards[i].cardType == cards[0].cardType
    ensures RunLength(cards) < |cards| ==> cards[RunLength(cards)].cardType != cards[0].cardType
  {
    if |cards| > 1 && cards[1].cardType == cards[0].cardType {
      RunIsMaximal(cards[1..]);
    }
  }

  /** The dangerous cards are the runs that are selected, concatenated in input order. */
  lemma {:induction false} DangerousIsSelectedRuns(cards: seq<Card>)
    ensures Dangerous(cards) == Flatten(SelectedRuns(Runs(cards)))
    decreases |cards|
  {
    if cards != [] {
      var k := RunLength(cards);
      var runs := Runs(cards);
      DangerousIsSelectedRuns(cards[k..]);
      assert runs[0] == cards[..k] && runs[1..] == Runs(cards[k..]);
      if Selected(cards[..k]) {
        assert SelectedRuns(runs) == [cards[..k]] + SelectedRuns(Runs(cards[k..]));
      } else {
        assert SelectedRuns(runs) == SelectedRuns(Runs(cards[k..]));
      }
    }
  }

  /**
   * Every dangerous card comes from the input, as often as it occurs there
   * at most, so the output is never longer than the input.
   */
  lemma {:induction false} DangerousFromInput(cards: seq<Card>)
    ensures multiset(Dangerous(cards)) <= multiset(cards)
    ensures |Dangerous(cards)| <= |cards|
    ensures cards == [] ==> Dangerous(cards) == []
    decreases |cards|
  {
    if cards != [] {
      var k := RunLength(cards);
      DangerousFromInput(cards[k..]);
      assert cards == cards[..k] + cards[k..];
      assert multiset(cards) == multiset(cards[..k]) + multiset(cards[k..]);
    }
  }
}
