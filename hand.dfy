/**
 * The hand accumulator of `src/hand.rs`. A hand of card ids is folded into
 * a card count, a suit-occupancy counter (three bits per suit), one 13-bit
 * rank mask per suit and a count per rank.
 */
module Hand {
  import opened Card
  import opened Bits

  /**
   * `BINARIES_BY_ID`: the rank bit of each card id, written as the four
   * rows of the `BINARIES_BY_ID` literal in `src/hand.rs`.
   */
  const BinariesById: seq<nat> :=
    [0x1, 0x1, 0x1, 0x1, 0x2, 0x2, 0x2, 0x2, 0x4, 0x4, 0x4, 0x4, 0x8, 0x8, 0x8, 0x8, 0x10, 0x10] +
    [0x10, 0x10, 0x20, 0x20, 0x20, 0x20, 0x40, 0x40, 0x40, 0x40, 0x80, 0x80, 0x80, 0x80, 0x100] +
    [0x100, 0x100, 0x100, 0x200, 0x200, 0x200, 0x200, 0x400, 0x400, 0x400, 0x400, 0x800, 0x800] +
    [0x800, 0x800, 0x1000, 0x1000, 0x1000, 0x1000]

  /**
   * `SUITBIT_BY_ID`: the suit-occupancy increment of each card id, written
   * as the four rows of the `SUITBIT_BY_ID` literal in `src/hand.rs`.
   */
  const SuitbitById: seq<nat> :=
    [0x1, 0x8, 0x40, 0x200, 0x1, 0x8, 0x40, 0x200, 0x1, 0x8, 0x40, 0x200, 0x1, 0x8, 0x40, 0x200] +
    [0x1, 0x8, 0x40, 0x200, 0x1, 0x8, 0x40, 0x200, 0x1, 0x8, 0x40, 0x200, 0x1, 0x8, 0x40, 0x200] +
    [0x1, 0x8, 0x40, 0x200, 0x1, 0x8, 0x40, 0x200, 0x1, 0x8, 0x40, 0x200, 0x1, 0x8, 0x40, 0x200] +
    [0x1, 0x8, 0x40, 0x200]

  /** `8^e`. */
  function Pow8(e: nat): (p: nat)
    ensures p >= 1
  {
    if e == 0 then 1 else 8 * Pow8(e - 1)
  }

  /** The bit of rank `r` in a rank mask. */
  function RankBit(r: nat): nat {
    Pow2(r)
  }

  /** Both tables agree with their formulas from entry `i` on. */
  predicate TablesAgreeFrom(i: nat)
    requires |BinariesById| == 52 && |SuitbitById| == 52
    decreases 52 - i
  {
    i >= 52 || (BinariesById[i] == RankBit(i / 4) && SuitbitById[i] == Pow8(i % 4) && TablesAgreeFrom(i + 1))
  }

  lemma {:induction false} TablesAgreeAt(i: nat, id: nat)
    requires |BinariesById| == 52 && |SuitbitById| == 52
    requires TablesAgreeFrom(i) && i <= id < 52
    ensures BinariesById[id] == RankBit(id / 4) && SuitbitById[id] == Pow8(id % 4)
    decreases id - i
  {
    if i < id {
      TablesAgreeAt(i + 1, id);
    }
  }

  // The table entries are checked three ranks (twelve ids) at a time, from the top down.

  /** The last row of both tables, ids 48 to 51. */
  lemma TablesFrom48()
    ensures |BinariesById| == 52 && |SuitbitById| == 52 && TablesAgreeFrom(48)
  {
    assert |BinariesById| == 52 && |SuitbitById| == 52;
    assert TablesAgreeFrom(50);
  }

  lemma TablesFrom44()
    ensures |BinariesById| == 52 && |SuitbitById| == 52 && TablesAgreeFrom(44)
  {
    TablesFrom48();
    assert TablesAgreeFrom(46);
  }

  lemma TablesFrom40()
    ensures |BinariesById| == 52 && |SuitbitById| == 52 && TablesAgreeFrom(40)
  {
    TablesFrom44();
    assert TablesAgreeFrom(42);
  }

  lemma TablesFrom36()
    ensures |BinariesById| == 52 && |SuitbitById| == 52 && TablesAgreeFrom(36)
  {
    TablesFrom40();
    assert TablesAgreeFrom(38);
  }

  lemma TablesFrom32()
    ensures |BinariesById| == 52 && |SuitbitById| == 52 && TablesAgreeFrom(32)
  {
    TablesFrom36();
    assert TablesAgreeFrom(34);
  }

  lemma TablesFrom28()
    ensures |BinariesById| == 52 && |SuitbitById| == 52 && TablesAgreeFrom(28)
  {
    TablesFrom32();
    assert TablesAgreeFrom(30);
  }

  lemma TablesFrom24()
    ensures |BinariesById| == 52 && |SuitbitById| == 52 && TablesAgreeFrom(24)
  {
    TablesFrom28();
    assert TablesAgreeFrom(26);
  }

  lemma TablesFrom20()
    ensures |BinariesById| == 52 && |SuitbitById| == 52 && TablesAgreeFrom(20)
  {
    TablesFrom24();
    assert TablesAgreeFrom(22);
  }

  lemma TablesFrom16()
    ensures |BinariesById| == 52 && |SuitbitById| == 52 && TablesAgreeFrom(16)
  {
    TablesFrom20();
    assert TablesAgreeFrom(18);
  }

  lemma TablesFrom12()
    ensures |BinariesById| == 52 && |SuitbitById| == 52 && TablesAgreeFrom(12)
  {
    TablesFrom16();
    assert TablesAgreeFrom(14);
  }

  lemma TablesFrom8()
    ensures |BinariesById| == 52 && |SuitbitById| == 52 && TablesAgreeFrom(8)
  {
    TablesFrom12();
    assert TablesAgreeFrom(10);
  }

  lemma TablesFrom4()
    ensures |BinariesById| == 52 && |SuitbitById| == 52 && TablesAgreeFrom(4)
  {
    TablesFrom8();
    assert TablesAgreeFrom(6);
  }

  lemma TablesFrom0()
    ensures |BinariesById| == 52 && |SuitbitById| == 52 && TablesAgreeFrom(0)
  {
    TablesFrom4();
    assert TablesAgreeFrom(2);
  }

  /**
   * `BINARIES_BY_ID[id]` is the bit of rank `id / 4`, and `SUITBIT_BY_ID[id]`
   * is `8^(id % 4)`, for every card id.
   */
  lemma TablesMatchFormulas()
    ensures |BinariesById| == CardCount && |SuitbitById| == CardCount
    ensures forall id :: 0 <= id < CardCount ==> BinariesById[id] == RankBit(id / 4)
    ensures forall id :: 0 <= id < CardCount ==> SuitbitById[id] == Pow8(id % 4)
  {
    TablesFrom0();
    forall id | 0 <= id < CardCount
      ensures BinariesById[id] == RankBit(id / 4) && SuitbitById[id] == Pow8(id % 4)
    {
      TablesAgreeAt(0, id);
    }
  }

  /** The two table entries of one card id. */
  lemma TableEntry(id: int)
    requires ValidId(id)
    ensures id < |BinariesById| && id < |SuitbitById|
    ensures BinariesById[id] == RankBit(id / 4) && SuitbitById[id] == Pow8(id % 4)
  {
    TablesMatchFormulas();
  }

  /**
   * The fields of `struct Hand`: `size_`, `suit_hash`, `suit_binary` and
   * `quinary_`. The four getters of the source are the field selectors.
   */
  datatype Hand = Hand(size: int, suitHash: int, suitBinary: seq<nat>, quinary: seq<int>)

  predicate WellShaped(h: Hand) {
    |h.suitBinary| == 4 && |h.quinary| == 13
  }

  /** The all-zero summary both constructors start from. */
  function Empty(): Hand {
    Hand(0, 0, seq(4, _ => 0), seq(13, _ => 0))
  }

  predicate AllValid(cards: seq<Card>) {
    forall i :: 0 <= i < |cards| ==> ValidId(cards[i].id)
  }

  /** No two cards of the hand have the same id. */
  predicate Distinct(cards: seq<Card>) {
    forall i, j :: 0 <= i < j < |cards| ==> cards[i].id != cards[j].id
  }

  /**
   * One step of the fold, with the table entries replaced by their formulas
   * (`TablesMatchFormulas`): add `8^suit` to the occupancy counter, OR the
   * rank bit into the card's suit mask, count the rank.
   */
  function AddCard(h: Hand, card: Card): (r: Hand)
    requires WellShaped(h) && ValidId(card.id)
    ensures WellShaped(r)
  {
    var id := card.id;
    Hand(h.size + 1,
         h.suitHash + Pow8(id % 4),
         h.suitBinary[id % 4 := Or(h.suitBinary[id % 4], RankBit(id / 4))],
         h.quinary[id / 4 := h.quinary[id / 4] + 1])
  }

  /** The summary of a hand: the fold of `AddCard` over the cards, first to last. */
  function Summarize(cards: seq<Card>): (h: Hand)
    requires AllValid(cards)
    ensures WellShaped(h)
  {
    if cards == [] then Empty() else AddCard(Summarize(cards[..|cards| - 1]), cards[|cards| - 1])
  }

  /**
   * `Hand::from_card_vector`. `card.int() & 0x3` is `id % 4` and
   * `card.int() >> 2` is `id / 4` for a valid id. Sizes and counts are `u8`
   * in the source, so more than 255 cards would overflow.
   */
  method FromCardVector(cards: seq<Card>) returns (h: Hand)
    requires AllValid(cards) && |cards| <= 255
    ensures h == Summarize(cards)
  {
    h := Empty();
    assert cards[..0] == [];
    for i := 0 to |cards|
      invariant h == Summarize(cards[..i])
    {
      SummarizeSnoc(cards, i);
      h := AddTableEntries(h, cards[i]);
    }
    assert cards[..|cards|] == cards;
  }

  /**
   * The four mutations both constructors make for one card, reading the
   * tables: add `SUITBIT_BY_ID[id]` to `suit_hash`, OR `BINARIES_BY_ID[id]`
   * into `suit_binary[id & 0x3]`, count rank `id >> 2` in `quinary_` and
   * count the card in `size_`.
   */
  method AddTableEntries(h: Hand, card: Card) returns (r: Hand)
    requires WellShaped(h) && ValidId(card.id)
    ensures r == AddCard(h, card)
  {
    var id := card.Int();
    TableEntry(card.id);
    var suitHash := h.suitHash + SuitbitById[id];
    var suitBinary := h.suitBinary[id % 4 := Or(h.suitBinary[id % 4], BinariesById[id])];
    var quinary := h.quinary[id / 4 := h.quinary[id / 4] + 1];
    var size := h.size + 1;
    r := Hand(size, suitHash, suitBinary, quinary);
  }

  lemma SummarizeSnoc(cards: seq<Card>, i: nat)
    requires AllValid(cards) && i < |cards|
    ensures Summarize(cards[..i + 1]) == AddCard(Summarize(cards[..i]), cards[i])
  {
    assert cards[..i + 1][..i] == cards[..i];
  }

  /** `Hand::from_card`: the same four mutations, once. */
  method FromCard(card: Card) returns (h: Hand)
    requires ValidId(card.id)
    ensures h == Summarize([card])
    ensures h.size == 1 && h.suitHash == Pow8(card.id % 4)
    ensures forall s :: 0 <= s < 4 ==> h.suitBinary[s] == if s == card.id % 4 then RankBit(card.id / 4) else 0
    ensures forall r :: 0 <= r < 13 ==> h.quinary[r] == if r == card.id / 4 then 1 else 0
  {
    h := AddTableEntries(Empty(), card);
    SummarizeSingle(card);
  }

  /** The summary of a single card. */
  lemma SummarizeSingle(card: Card)
    requires ValidId(card.id)
    ensures Summarize([card]) == AddCard(Empty(), card)
    ensures Summarize([card]).size == 1 && Summarize([card]).suitHash == Pow8(card.id % 4)
    ensures forall s :: 0 <= s < 4 ==>
      Summarize([card]).suitBinary[s] == if s == card.id % 4 then RankBit(card.id / 4) else 0
    ensures forall r :: 0 <= r < 13 ==>
      Summarize([card]).quinary[r] == if r == card.id / 4 then 1 else 0
  {
    assert [card][..0] == [];
  }

  // ---------------------------------------------------------------------
  // Counting functions the summary is specified by

  /** Number of cards of rank `r`. */
  function CountRank(cards: seq<Card>, r: int): nat {
    if cards == [] then 0
    else CountRank(cards[..|cards| - 1], r) + (if cards[|cards| - 1].id / 4 == r then 1 else 0)
  }

  /** Number of cards of suit `s`. */
  function CountSuit(cards: seq<Card>, s: int): nat {
    if cards == [] then 0
    else CountSuit(cards[..|cards| - 1], s) + (if cards[|cards| - 1].id % 4 == s then 1 else 0)
  }

  /** Number of cards with id `id`. */
  function CountId(cards: seq<Card>, id: int): nat {
    if cards == [] then 0
    else CountId(cards[..|cards| - 1], id) + (if cards[|cards| - 1].id == id then 1 else 0)
  }

  /** Whether some card of the hand has id `id`. */
  predicate Holds(cards: seq<Card>, id: int) {
    exists i :: 0 <= i < |cards| && cards[i].id == id
  }

  function Sum(xs: seq<int>): int {
    if xs == [] then 0 else Sum(xs[..|xs| - 1]) + xs[|xs| - 1]
  }

  /** Number of set bits of `mask` below bit `n`. */
  function PopcountBelow(mask: nat, n: nat): nat
    requires n <= 13
  {
    if n == 0 then 0 else PopcountBelow(mask, n - 1) + (if HasBit(mask, n - 1) then 1 else 0)
  }

  /**
   * Number of set rank bits of a mask; it is the mask's popcount, since
   * no bit above the thirteen rank bits is ever set (`SuitBinaryBits`).
   */
  function Popcount(mask: nat): nat {
    PopcountBelow(mask, 13)
  }

  // ---------------------------------------------------------------------
  // What the fold computes

  /** `size_` is the number of cards, and `quinary_[r]` the number of cards of rank `r`. */
  lemma {:induction false} SizeAndQuinary(cards: seq<Card>)
    requires AllValid(cards)
    ensures Summarize(cards).size == |cards|
    ensures forall r :: 0 <= r < 13 ==> Summarize(cards).quinary[r] == CountRank(cards, r)
  {
    if cards != [] {
      SizeAndQuinary(cards[..|cards| - 1]);
    }
  }

  lemma {:induction false} SumIncrement(xs: seq<int>, k: int)
    requires 0 <= k < |xs|
    ensures Sum(xs[k := xs[k] + 1]) == Sum(xs) + 1
  {
    var ys := xs[k := xs[k] + 1];
    if k < |xs| - 1 {
      assert ys[..|ys| - 1] == xs[..|xs| - 1][k := xs[k] + 1];
      SumIncrement(xs[..|xs| - 1], k);
    } else {
      assert ys[..|ys| - 1] == xs[..|xs| - 1];
    }
  }

  lemma {:induction false} SumOfZeros(xs: seq<int>)
    requires forall i :: 0 <= i < |xs| ==> xs[i] == 0
    ensures Sum(xs) == 0
  {
    if xs != [] {
      SumOfZeros(xs[..|xs| - 1]);
    }
  }

  /** Adding one card adds one to the size and one to the sum of the rank counts. */
  lemma AddCardSum(h: Hand, card: Card)
    requires WellShaped(h) && ValidId(card.id)
    ensures AddCard(h, card).size == h.size + 1
    ensures Sum(AddCard(h, card).quinary) == Sum(h.quinary) + 1
  {
    SumIncrement(h.quinary, card.id / 4);
  }

  /** The entries of `quinary_` add up to `size_`. */
  lemma {:induction false} QuinarySumIsSize(cards: seq<Card>)
    requires AllValid(cards)
    ensures Sum(Summarize(cards).quinary) == Summarize(cards).size
  {
    if cards == [] {
      SumOfZeros(Empty().quinary);
    } else {
      var prefix := cards[..|cards| - 1];
      QuinarySumIsSize(prefix);
      AddCardSum(Summarize(prefix), cards[|cards| - 1]);
    }
  }

  lemma {:induction false} CountRankBySuits(cards: seq<Card>, r: int)
    ensures CountRank(cards, r) ==
      CountId(cards, 4 * r) + CountId(cards, 4 * r + 1) + CountId(cards, 4 * r + 2) + CountId(cards, 4 * r + 3)
  {
    if cards != [] {
      CountRankBySuits(cards[..|cards| - 1], r);
      var id := cards[|cards| - 1].id;
      assert id / 4 == r <==> id in {4 * r, 4 * r + 1, 4 * r + 2, 4 * r + 3};
    }
  }

  lemma {:induction false} CountIdDistinct(cards: seq<Card>, id: int)
    requires Distinct(cards)
    ensures CountId(cards, id) <= 1
    ensures CountId(cards, id) == 1 <==> Holds(cards, id)
  {
    if cards != [] {
      var prefix := cards[..|cards| - 1];
      assert Distinct(prefix);
      CountIdDistinct(prefix, id);
      if cards[|cards| - 1].id == id {
        assert !Holds(prefix, id);
      }
      if Holds(cards, id) && !Holds(prefix, id) {
        assert cards[|cards| - 1].id == id;
      }
    }
  }

  /** With distinct cards no rank is counted more than four times. */
  lemma QuinaryAtMostFour(cards: seq<Card>)
    requires AllValid(cards) && Distinct(cards)
    ensures forall r :: 0 <= r < 13 ==> Summarize(cards).quinary[r] <= 4
  {
    SizeAndQuinary(cards);
    forall r | 0 <= r < 13 ensures CountRank(cards, r) <= 4 {
      CountRankBySuits(cards, r);
      CountIdDistinct(cards, 4 * r);
      CountIdDistinct(cards, 4 * r + 1);
      CountIdDistinct(cards, 4 * r + 2);
      CountIdDistinct(cards, 4 * r + 3);
    }
  }

  // ---------------------------------------------------------------------
  // The per-suit rank masks

  /** Number of cards of suit `s` whose rank is below `n`, counted rank by rank. */
  function CountInSuitBelow(cards: seq<Card>, s: int, n: nat): nat {
    if n == 0 then 0 else CountInSuitBelow(cards, s, n - 1) + CountId(cards, 4 * (n - 1) + s)
  }

  /**
   * The mask of the ranks below `n` that the hand holds in suit `s`, built
   * lowest rank first; it depends only on which cards are held.
   */
  function RankMaskBelow(cards: seq<Card>, s: int, n: nat): nat
    requires n <= 13
  {
    if n == 0 then 0
    else Or(RankMaskBelow(cards, s, n - 1), if Holds(cards, 4 * (n - 1) + s) then RankBit(n - 1) else 0)
  }

  function RankMask(cards: seq<Card>, s: int): nat {
    RankMaskBelow(cards, s, 13)
  }

  /** Bit `r` of `mask | 2^k` is bit `r` of `mask`, or `r` is `k`. */
  lemma BitOfOrRank(mask: nat, k: nat, r: nat)
    ensures HasBit(Or(mask, RankBit(k)), r) <==> HasBit(mask, r) || k == r
  {
    BitOfOr(mask, RankBit(k), r);
    BitOfPow2(k, r);
  }

  lemma {:induction false} HoldsSnoc(cards: seq<Card>, id: int)
    requires cards != []
    ensures Holds(cards, id) <==> Holds(cards[..|cards| - 1], id) || cards[|cards| - 1].id == id
  {
    var prefix := cards[..|cards| - 1];
    if Holds(prefix, id) {
      var i :| 0 <= i < |prefix| && prefix[i].id == id;
      assert cards[i].id == id;
    }
    if Holds(cards, id) && cards[|cards| - 1].id != id {
      var i :| 0 <= i < |cards| && cards[i].id == id;
      assert prefix[i].id == id;
    }
  }

  /** Hands holding the same cards of suit `s` have the same mask for it. */
  lemma {:induction false} RankMaskCongruent(a: seq<Card>, b: seq<Card>, s: int, n: nat)
    requires n <= 13
    requires forall r :: 0 <= r < 13 ==> (Holds(a, 4 * r + s) <==> Holds(b, 4 * r + s))
    ensures RankMaskBelow(a, s, n) == RankMaskBelow(b, s, n)
  {
    if n > 0 {
      RankMaskCongruent(a, b, s, n - 1);
      assert Holds(a, 4 * (n - 1) + s) <==> Holds(b, 4 * (n - 1) + s);
    }
  }

  /** Adding the card of rank `k` and suit `s` ORs bit `k` into the mask of suit `s`. */
  lemma {:induction false} RankMaskSnoc(cards: seq<Card>, s: int, n: nat)
    requires cards != [] && ValidId(cards[|cards| - 1].id) && cards[|cards| - 1].id % 4 == s && n <= 13
    ensures var k := cards[|cards| - 1].id / 4;
      RankMaskBelow(cards, s, n) ==
      Or(RankMaskBelow(cards[..|cards| - 1], s, n), if k < n then RankBit(k) else 0)
  {
    if n > 0 {
      var prefix, k := cards[..|cards| - 1], cards[|cards| - 1].id / 4;
      RankMaskSnoc(cards, s, n - 1);
      HoldsSnoc(cards, 4 * (n - 1) + s);
      var m := RankMaskBelow(prefix, s, n - 1);
      var b := if Holds(prefix, 4 * (n - 1) + s) then RankBit(n - 1) else 0;
      var x := if k < n - 1 then RankBit(k) else 0;
      var bNew := if Holds(cards, 4 * (n - 1) + s) then RankBit(n - 1) else 0;
      assert RankMaskBelow(cards, s, n) == Or(Or(m, x), bNew);
      assert RankMaskBelow(prefix, s, n) == Or(m, b);
      if k == n - 1 {
        OrAbsorbs(m, b, RankBit(k));
      } else {
        OrSwap(m, x, b);
      }
    }
  }

  /** Bit `r` of the mask is set exactly when the card of rank `r` and suit `s` is held. */
  lemma {:induction false} RankMaskBits(cards: seq<Card>, s: int, n: nat)
    requires n <= 13
    ensures RankMaskBelow(cards, s, n) < Pow2(n)
    ensures forall r :: 0 <= r < 13 ==>
      (HasBit(RankMaskBelow(cards, s, n), r) <==> r < n && Holds(cards, 4 * r + s))
  {
    if n == 0 {
      forall r | 0 <= r < 13 ensures !HasBit(0, r) {
        NoBitOfZero(r);
      }
    } else {
      RankMaskBits(cards, s, n - 1);
      var m := RankMaskBelow(cards, s, n - 1);
      var held := Holds(cards, 4 * (n - 1) + s);
      var bit := if held then RankBit(n - 1) else 0;
      assert RankMaskBelow(cards, s, n) == Or(m, bit);
      OrBelow(m, bit, n);
      forall r | 0 <= r < 13
        ensures HasBit(Or(m, bit), r) <==> r < n && Holds(cards, 4 * r + s)
      {
        BitOfOr(m, bit, r);
        if held {
          BitOfPow2(n - 1, r);
        } else {
          NoBitOfZero(r);
        }
      }
    }
  }

  /** The bit for card `card` is added to its own suit's mask, and no other mask changes. */
  lemma AddCardMasks(h: Hand, card: Card, s: int)
    requires WellShaped(h) && ValidId(card.id) && 0 <= s < 4
    ensures AddCard(h, card).suitBinary[s] ==
      if s == card.id % 4 then Or(h.suitBinary[s], RankBit(card.id / 4)) else h.suitBinary[s]
  {
  }

  /** Adding a card leaves the masks of the other suits as they were. */
  lemma RankMaskOtherSuit(cards: seq<Card>, s: int)
    requires cards != [] && 0 <= s < 4 && cards[|cards| - 1].id % 4 != s
    ensures RankMask(cards, s) == RankMask(cards[..|cards| - 1], s)
  {
    var prefix := cards[..|cards| - 1];
    forall r | 0 <= r < 13 ensures Holds(cards, 4 * r + s) <==> Holds(prefix, 4 * r + s) {
      HoldsSnoc(cards, 4 * r + s);
    }
    RankMaskCongruent(cards, prefix, s, 13);
  }

  lemma MaskStep(cards: seq<Card>, s: int)
    requires AllValid(cards) && cards != [] && 0 <= s < 4
    requires Summarize(cards[..|cards| - 1]).suitBinary[s] == RankMask(cards[..|cards| - 1], s)
    ensures Summarize(cards).suitBinary[s] == RankMask(cards, s)
  {
    var prefix, last := cards[..|cards| - 1], cards[|cards| - 1];
    var before := Summarize(prefix);
    assert Summarize(cards) == AddCard(before, last);
    AddCardMasks(before, last, s);
    if s == last.id % 4 {
      RankMaskSnoc(cards, s, 13);
    } else {
      RankMaskOtherSuit(cards, s);
    }
  }

  lemma {:induction false} RankMaskOfNoCards(s: int, n: nat)
    requires n <= 13
    ensures RankMaskBelow([], s, n) == 0
  {
    if n > 0 {
      RankMaskOfNoCards(s, n - 1);
      assert !Holds([], 4 * (n - 1) + s);
    }
  }

  /** `suit_binary[s]` is the mask of the ranks the hand holds in suit `s`. */
  lemma {:induction false} SuitBinaryIsRankMask(cards: seq<Card>)
    requires AllValid(cards)
    ensures forall s :: 0 <= s < 4 ==> Summarize(cards).suitBinary[s] == RankMask(cards, s)
  {
    if cards == [] {
      forall s | 0 <= s < 4 ensures RankMask(cards, s) == 0 {
        RankMaskOfNoCards(s, 13);
      }
    } else {
      SuitBinaryIsRankMask(cards[..|cards| - 1]);
      forall s | 0 <= s < 4 ensures Summarize(cards).suitBinary[s] == RankMask(cards, s) {
        MaskStep(cards, s);
      }
    }
  }

  /**
   * Bit `r` of `suit_binary[s]` is set exactly when the hand holds the card
   * of rank `r` and suit `s`; no bit above the thirteen rank bits is set.
   */
  lemma SuitBinaryBits(cards: seq<Card>)
    requires AllValid(cards)
    ensures forall s :: 0 <= s < 4 ==> Summarize(cards).suitBinary[s] < 0x2000
    ensures forall s, r :: 0 <= s < 4 && 0 <= r < 13 ==>
      (HasBit(Summarize(cards).suitBinary[s], r) <==> Holds(cards, 4 * r + s))
  {
    SuitBinaryIsRankMask(cards);
    assert Pow2(13) == 0x2000;
    forall s | 0 <= s < 4
      ensures RankMask(cards, s) < 0x2000
      ensures forall r :: 0 <= r < 13 ==> (HasBit(RankMask(cards, s), r) <==> Holds(cards, 4 * r + s))
    {
      RankMaskBits(cards, s, 13);
    }
  }

  lemma {:induction false} CountIdSnoc(cards: seq<Card>, id: int)
    requires cards != []
    ensures CountId(cards, id) == CountId(cards[..|cards| - 1], id) + (if cards[|cards| - 1].id == id then 1 else 0)
  {
  }

  lemma {:induction false} CountInSuitBelowSnoc(cards: seq<Card>, s: int, n: nat)
    requires cards != [] && 0 <= s < 4
    ensures var last := cards[|cards| - 1].id;
      CountInSuitBelow(cards, s, n) ==
      CountInSuitBelow(cards[..|cards| - 1], s, n) + (if last % 4 == s && 0 <= last / 4 < n then 1 else 0)
  {
    if n > 0 {
      CountInSuitBelowSnoc(cards, s, n - 1);
      CountIdSnoc(cards, 4 * (n - 1) + s);
      var last := cards[|cards| - 1].id;
      assert last == 4 * (n - 1) + s <==> last % 4 == s && last / 4 == n - 1;
    }
  }

  lemma {:induction false} CountInSuitOfNoCards(s: int, n: nat)
    ensures CountInSuitBelow([], s, n) == 0
  {
    if n > 0 {
      CountInSuitOfNoCards(s, n - 1);
    }
  }

  /** The cards of suit `s` are the cards of suit `s` of each of the thirteen ranks. */
  lemma {:induction false} CountSuitByRanks(cards: seq<Card>, s: int)
    requires AllValid(cards) && 0 <= s < 4
    ensures CountSuit(cards, s) == CountInSuitBelow(cards, s, 13)
  {
    if cards == [] {
      CountInSuitOfNoCards(s, 13);
    } else {
      CountSuitByRanks(cards[..|cards| - 1], s);
      CountInSuitBelowSnoc(cards, s, 13);
    }
  }

  lemma {:induction false} PopcountOfRankMask(cards: seq<Card>, s: int, n: nat)
    requires Distinct(cards) && n <= 13
    ensures PopcountBelow(RankMask(cards, s), n) == CountInSuitBelow(cards, s, n)
  {
    if n > 0 {
      PopcountOfRankMask(cards, s, n - 1);
      RankMaskBits(cards, s, 13);
      CountIdDistinct(cards, 4 * (n - 1) + s);
    }
  }

  /** With distinct cards, `suit_binary[s]` has one bit per card of suit `s`. */
  lemma SuitBinaryPopcount(cards: seq<Card>)
    requires AllValid(cards) && Distinct(cards)
    ensures forall s :: 0 <= s < 4 ==> Popcount(Summarize(cards).suitBinary[s]) == CountSuit(cards, s)
  {
    SuitBinaryIsRankMask(cards);
    forall s | 0 <= s < 4 ensures Popcount(RankMask(cards, s)) == CountSuit(cards, s) {
      PopcountOfRankMask(cards, s, 13);
      CountSuitByRanks(cards, s);
    }
  }

  // ---------------------------------------------------------------------
  // The suit-occupancy counter

  /** Every card has one of the four suits. */
  lemma {:induction false} SuitCountsAddUp(cards: seq<Card>)
    requires AllValid(cards)
    ensures CountSuit(cards, 0) + CountSuit(cards, 1) + CountSuit(cards, 2) + CountSuit(cards, 3) == |cards|
  {
    if cards != [] {
      SuitCountsAddUp(cards[..|cards| - 1]);
    }
  }

  /** `suit_hash` is the sum over the suits of `count_s * 8^s`. */
  lemma {:induction false} SuitHashIsWeightedCount(cards: seq<Card>)
    requires AllValid(cards)
    ensures Summarize(cards).suitHash ==
      CountSuit(cards, 0) + 8 * CountSuit(cards, 1) + 64 * CountSuit(cards, 2) + 512 * CountSuit(cards, 3)
  {
    assert Pow8(1) == 8 && Pow8(2) == 64 && Pow8(3) == 512;
    if cards != [] {
      SuitHashIsWeightedCount(cards[..|cards| - 1]);
    }
  }

  /** Octal digit `s` of `h`. */
  function OctalDigit(h: int, s: nat): int
    decreases s
  {
    if s == 0 then h % 8 else OctalDigit(h / 8, s - 1)
  }

  /** Octal digits below 8 can be read back from their number. */
  lemma OctalDigits(h: int, c0: nat, c1: nat, c2: nat, c3: nat)
    requires c0 < 8 && c1 < 8 && c2 < 8 && c3 < 8
    requires h == c0 + 8 * c1 + 64 * c2 + 512 * c3
    ensures OctalDigit(h, 0) == c0 && OctalDigit(h, 1) == c1
    ensures OctalDigit(h, 2) == c2 && OctalDigit(h, 3) == c3
  {
    var h1 := c1 + 8 * c2 + 64 * c3;
    var h2 := c2 + 8 * c3;
    assert h == 8 * h1 + c0;
    assert h / 8 == h1;
    assert h1 / 8 == h2;
    assert h2 / 8 == c3;
    assert OctalDigit(h, 2) == OctalDigit(h1, 1) == OctalDigit(h2, 0);
    assert OctalDigit(h, 3) == OctalDigit(h1, 2) == OctalDigit(h2, 1) == OctalDigit(c3, 0);
  }

  /**
   * For a hand of at most seven cards, octal digit `s` of `suit_hash` is
   * the number of cards of suit `s`: no digit carries into the next.
   */
  lemma SuitHashDigits(cards: seq<Card>)
    requires AllValid(cards) && |cards| <= 7
    ensures forall s :: 0 <= s < 4 ==> OctalDigit(Summarize(cards).suitHash, s) == CountSuit(cards, s)
  {
    SuitHashIsWeightedCount(cards);
    SuitCountsAddUp(cards);
    OctalDigits(Summarize(cards).suitHash, CountSuit(cards, 0), CountSuit(cards, 1), CountSuit(cards, 2), CountSuit(cards, 3));
    forall s | 0 <= s < 4 ensures OctalDigit(Summarize(cards).suitHash, s) == CountSuit(cards, s) {
      assert s == 0 || s == 1 || s == 2 || s == 3;
    }
  }

  // ---------------------------------------------------------------------
  // Order independence

  /** How often a card occurs in the hand. */
  lemma {:induction false} CountIdIsMultiplicity(cards: seq<Card>, id: I32)
    ensures CountId(cards, id) == multiset(cards)[Card(id)]
  {
    if cards != [] {
      var prefix := cards[..|cards| - 1];
      CountIdIsMultiplicity(prefix, id);
      assert cards == prefix + [cards[|cards| - 1]];
      assert multiset(cards) == multiset(prefix) + multiset{cards[|cards| - 1]};
    }
  }

  lemma HoldsIsMembership(cards: seq<Card>, id: I32)
    ensures Holds(cards, id) <==> Card(id) in multiset(cards)
  {
    if Card(id) in cards {
      var i :| 0 <= i < |cards| && cards[i] == Card(id);
      assert cards[i].id == id;
    }
  }

  /** The summary does not depend on the order of the cards. */
  lemma OrderIndependent(a: seq<Card>, b: seq<Card>)
    requires AllValid(a) && AllValid(b) && multiset(a) == multiset(b)
    ensures Summarize(a) == Summarize(b)
  {
    assert |a| == |multiset(a)| == |b|;
    forall id: I32 ensures CountId(a, id) == CountId(b, id) && (Holds(a, id) <==> Holds(b, id)) {
      CountIdIsMultiplicity(a, id);
      CountIdIsMultiplicity(b, id);
      HoldsIsMembership(a, id);
      HoldsIsMembership(b, id);
    }
    SizeAndQuinary(a);
    SizeAndQuinary(b);
    forall r | 0 <= r < 13 ensures CountRank(a, r) == CountRank(b, r) {
      CountRankBySuits(a, r);
      CountRankBySuits(b, r);
    }
    assert Summarize(a).quinary == Summarize(b).quinary;
    SuitBinaryIsRankMask(a);
    SuitBinaryIsRankMask(b);
    forall s | 0 <= s < 4 ensures RankMask(a, s) == RankMask(b, s) {
      RankMaskCongruent(a, b, s, 13);
    }
    assert Summarize(a).suitBinary == Summarize(b).suitBinary;
    SuitHashIsWeightedCount(a);
    SuitHashIsWeightedCount(b);
    forall s | 0 <= s < 4 ensures CountSuit(a, s) == CountSuit(b, s) {
      CountSuitByRanks(a, s);
      CountSuitByRanks(b, s);
      CountInSuitAgree(a, b, s, 13);
    }
  }

  lemma {:induction false} CountInSuitAgree(a: seq<Card>, b: seq<Card>, s: int, n: nat)
    requires 0 <= s < 4 && n <= 13
    requires forall id: I32 :: CountId(a, id) == CountId(b, id)
    ensures CountInSuitBelow(a, s, n) == CountInSuitBelow(b, s, n)
  {
    if n > 0 {
      CountInSuitAgree(a, b, s, n - 1);
    }
  }
}
