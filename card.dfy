/**
 * The card codec of `src/card.rs`: a card is an integer id with
 * `id = rank * 4 + suit`, ranks 0..12 standing for Two .. Ace and suits
 * 0..3 for Clubs, Diamonds, Hearts, Spades.
 */
module Card {

  /** Range of Rust's `i32`, the type of `Card::id_`. */
  type I32 = x: int | -0x8000_0000 <= x < 0x8000_0000

  /** Range of Rust's `usize` on a 64-bit target. */
  const UsizeModulus: int := 0x1_0000_0000_0000_0000

  /** Number of distinct cards in a pack. */
  const CardCount: int := 52

  /** The rank characters in rank order: `RankChars[r]` names rank `r`. */
  const RankChars: string := "23456789TJQKA"

  /** The upper-case suit characters in suit order. */
  const UpperSuitChars: string := "CDHS"

  /** The lower-case suit characters in suit order. */
  const LowerSuitChars: string := "cdhs"

  /** `RANK_MAP`: rank character to rank index. */
  const RankMap: map<char, int> :=
    map['2' := 0, '3' := 1, '4' := 2, '5' := 3,
        '6' := 4, '7' := 5, '8' := 6, '9' := 7,
        'T' := 8, 'J' := 9, 'Q' := 10, 'K' := 11, 'A' := 12]

  /** `SUIT_MAP`: suit character, in either case, to suit index. */
  const SuitMap: map<char, int> :=
    map['C' := 0, 'D' := 1, 'H' := 2, 'S' := 3,
        'c' := 0, 'd' := 1, 'h' := 2, 's' := 3]

  /** Sentinel `from_name` uses for a character that is not a rank. */
  const UnknownRank: int := 499

  /** Sentinel `from_name` uses for a character that is not a suit. */
  const UnknownSuit: int := 500

  /** A card identified by its id; nothing forces the id into 0..51. */
  datatype Card = Card(id: I32) {

    /** `int()`: the id cast to `usize` (negative ids wrap around). */
    function Int(): (r: int)
      ensures 0 <= r < UsizeModulus
      ensures (r - id) % UsizeModulus == 0
      ensures id >= 0 ==> r == id
    {
      if id >= 0 then id else id + UsizeModulus
    }

    /** `int32()`: the id as an `i32`. */
    function Int32(): I32 {
      id
    }
  }

  predicate ValidId(id: int) {
    0 <= id < CardCount
  }

  /** `Card::from_id`. */
  function FromId(id: I32): Card {
    Card(id)
  }

  lemma FromIdRoundTrip(id: I32)
    ensures FromId(id).Int32() == id
    ensures id >= 0 ==> FromId(id).Int() == id
  {
  }

  /**
   * `RANK_MAP` is a bijection from the thirteen rank characters onto 0..12,
   * enumerated in order by `RankChars`.
   */
  lemma RankMapIsBijection()
    ensures RankMap.Keys == set i | 0 <= i < |RankChars| :: RankChars[i]
    ensures forall r :: 0 <= r < 13 ==> RankChars[r] in RankMap && RankMap[RankChars[r]] == r
    ensures forall c :: c in RankMap ==> 0 <= RankMap[c] < 13 && RankChars[RankMap[c]] == c
  {
    var keys := set i | 0 <= i < |RankChars| :: RankChars[i];
    assert forall c :: c in RankMap <==> c in keys by {
      forall c ensures c in RankMap <==> c in keys {
        if c in RankMap {
          var i := RankMap[c];
          assert RankChars[i] == c;
        }
      }
    }
  }

  /**
   * `SUIT_MAP` maps exactly C, D, H, S and c, d, h, s to 0..3, and the two
   * cases of a letter give the same suit.
   */
  lemma SuitMapIsCaseInsensitive()
    ensures SuitMap.Keys == (set i | 0 <= i < 4 :: UpperSuitChars[i]) + (set i | 0 <= i < 4 :: LowerSuitChars[i])
    ensures forall s :: 0 <= s < 4 ==>
      UpperSuitChars[s] in SuitMap && LowerSuitChars[s] in SuitMap &&
      SuitMap[UpperSuitChars[s]] == s == SuitMap[LowerSuitChars[s]]
    ensures forall c :: c in SuitMap ==>
      0 <= SuitMap[c] < 4 && (c == UpperSuitChars[SuitMap[c]] || c == LowerSuitChars[SuitMap[c]])
  {
    var upper := set i | 0 <= i < 4 :: UpperSuitChars[i];
    var lower := set i | 0 <= i < 4 :: LowerSuitChars[i];
    assert forall c :: c in SuitMap <==> c in upper + lower by {
      forall c ensures c in SuitMap <==> c in upper + lower {
        if c in SuitMap {
          var i := SuitMap[c];
          assert UpperSuitChars[i] == c || LowerSuitChars[i] == c;
        }
      }
    }
  }

  /**
   * The key of `RANK_MAP` whose value is `rank`, i.e. what `to_name`'s
   * search over the map's entries finds.
   */
  function RankCharOf(rank: int): (c: char)
    requires 0 <= rank < 13
    ensures c in RankMap && RankMap[c] == rank
  {
    RankChars[rank]
  }

  /**
   * A key of `SUIT_MAP` whose value is `suit`. Each suit has two keys; which
   * one the search over the map's entries meets first depends on the order
   * of the compiled hash table, so `upper` chooses it.
   */
  function SuitCharOf(suit: int, upper: bool): (c: char)
    requires 0 <= suit < 4
    ensures c in SuitMap && SuitMap[c] == suit
    ensures upper <==> c == UpperSuitChars[suit]
  {
    if upper then UpperSuitChars[suit] else LowerSuitChars[suit]
  }

  /**
   * `Card::from_name`: the first character is looked up in `RANK_MAP` (499
   * when absent), the second in `SUIT_MAP` (500 when absent), and the id is
   * `rank * 4 + suit`. A name shorter than two characters panics in the
   * source, hence the precondition.
   */
  function FromName(name: string): (card: Card)
    requires |name| >= 2
    ensures ValidId(card.id) <==> name[0] in RankMap && name[1] in SuitMap
    ensures ValidId(card.id) ==> card.id / 4 == RankMap[name[0]] && card.id % 4 == SuitMap[name[1]]
    ensures name[0] !in RankMap ==> card.id >= UnknownRank * 4
    ensures name[0] in RankMap && name[1] !in SuitMap ==> card.id >= UnknownSuit
  {
    var rank := if name[0] in RankMap then RankMap[name[0]] else UnknownRank;
    var suit := if name[1] in SuitMap then SuitMap[name[1]] else UnknownSuit;
    Card(rank * 4 + suit)
  }

  /**
   * `Card::to_name`: the rank character and a suit character of the card.
   * Ids outside 0..51 reach a `todo!()` in the source, hence the
   * precondition.
   */
  function ToName(card: Card, upper: bool): (name: string)
    requires ValidId(card.id)
    ensures |name| == 2
    ensures name[0] in RankMap && RankMap[name[0]] == card.id / 4
    ensures name[1] in SuitMap && SuitMap[name[1]] == card.id % 4
  {
    [RankCharOf(card.id / 4), SuitCharOf(card.id % 4, upper)]
  }

  /** Round trip: naming a valid card and parsing the name gives the card back. */
  lemma FromNameToName(card: Card, upper: bool)
    requires ValidId(card.id)
    ensures FromName(ToName(card, upper)) == card
  {
    var name := ToName(card, upper);
    assert FromName(name).id == (card.id / 4) * 4 + card.id % 4;
  }

  /**
   * The other direction, up to the case of the suit: for a name made of a
   * rank character and a suit character, `to_name` gives back the rank
   * character and a character of the same suit, whichever case the suit
   * search meets; the name itself comes back exactly when that case is
   * the case the name used.
   */
  lemma ToNameFromName(name: string, upper: bool)
    requires |name| == 2 && name[0] in RankMap && name[1] in SuitMap
    ensures ToName(FromName(name), upper)[0] == name[0]
    ensures ToName(FromName(name), upper)[1] in SuitMap && SuitMap[ToName(FromName(name), upper)[1]] == SuitMap[name[1]]
    ensures ToName(FromName(name), upper) == name <==> (upper <==> name[1] == UpperSuitChars[SuitMap[name[1]]])
  {
    RankMapIsBijection();
    SuitMapIsCaseInsensitive();
    var back := ToName(FromName(name), upper);
    assert back[0] == name[0];
    if back == name {
      assert back[1] == name[1];
    }
    if upper <==> name[1] == UpperSuitChars[SuitMap[name[1]]] {
      assert back[1] == name[1];
      assert back == name;
    }
  }

  /** The display word of each rank index. */
  const RankWords: seq<string> :=
    ["2", "3", "4", "5", "6", "7", "8", "9", "10", "Jack", "Queen", "King", "Ace"]

  /** The display word of each suit index. */
  const SuitWords: seq<string> := ["Clubs", "Diamonds", "Hearts", "Spades"]

  /** The rank part of `to_clean_name`: T becomes "10", J/Q/K/A words, digits stay. */
  function CleanRank(p1: string): string {
    if p1 == "T" then "10"
    else if p1 == "J" then "Jack"
    else if p1 == "Q" then "Queen"
    else if p1 == "K" then "King"
    else if p1 == "A" then "Ace"
    else p1
  }

  /** The suit part of `to_clean_name`: either case becomes the suit's word. */
  function CleanSuit(p2: string): string {
    if p2 == "c" || p2 == "C" then "Clubs"
    else if p2 == "d" || p2 == "D" then "Diamonds"
    else if p2 == "h" || p2 == "H" then "Hearts"
    else if p2 == "s" || p2 == "S" then "Spades"
    else p2
  }

  /**
   * `Card::to_clean_name`: "<rank word> of <suit word>", whichever case
   * `to_name` picked for the suit.
   */
  function ToCleanName(card: Card, upper: bool): (longName: string)
    requires ValidId(card.id)
    ensures longName == RankWords[card.id / 4] + " of " + SuitWords[card.id % 4]
  {
    CleanRankWord(card.id / 4);
    CleanSuitWord(card.id % 4, upper);
    var name := ToName(card, upper);
    CleanRank([name[0]]) + " of " + CleanSuit([name[1]])
  }

  /** The rank character of each rank index cleans to its word. */
  lemma CleanRankWord(r: int)
    requires 0 <= r < 13
    ensures CleanRank([RankCharOf(r)]) == RankWords[r]
  {
  }

  /** Either suit character of each suit index cleans to its word. */
  lemma CleanSuitWord(s: int, upper: bool)
    requires 0 <= s < 4
    ensures CleanSuit([SuitCharOf(s, upper)]) == SuitWords[s]
  {
  }
}
