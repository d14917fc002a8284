/**
 * Sequence shapes shared by the dealing code of `src/game.rs` and
 * `src/probability.rs` and by the run scan of `src/danger.rs`: reversal
 * (what popping from the end of a vector yields), flattening, and the
 * two-card hands popped from the end of a deck.
 */
module Seqs {
  function Reversed<T>(s: seq<T>): (r: seq<T>)
    ensures |r| == |s| && forall i :: 0 <= i < |s| ==> r[i] == s[|s| - 1 - i]
  {
    if s == [] then [] else [s[|s| - 1]] + Reversed(s[..|s| - 1])
  }

  lemma {:induction false} ReversedMultiset<T>(s: seq<T>)
    ensures multiset(Reversed(s)) == multiset(s)
  {
    if s != [] {
      ReversedMultiset(s[..|s| - 1]);
      assert s == s[..|s| - 1] + [s[|s| - 1]];
    }
  }

  lemma ReversedAppend<T>(a: seq<T>, b: seq<T>)
    ensures Reversed(a + b) == Reversed(b) + Reversed(a)
  {
  }

  /**
   * Concatenation is associative. Called where an accumulator grows, it
   * keeps the caller's proof from proving sequence equality in a large
   * context.
   */
  lemma AppendAssoc<T>(a: seq<T>, b: seq<T>, c: seq<T>)
    ensures (a + b) + c == a + (b + c)
  {
  }

  function Flatten<T>(ss: seq<seq<T>>): seq<T> {
    if ss == [] then [] else ss[0] + Flatten(ss[1..])
  }

  lemma {:induction false} FlattenAppend<T>(a: seq<seq<T>>, b: seq<seq<T>>)
    ensures Flatten(a + b) == Flatten(a) + Flatten(b)
  {
    if a != [] {
      FlattenAppend(a[1..], b);
      assert (a + b)[1..] == a[1..] + b;
    } else {
      assert a + b == b;
    }
  }

  /** The `i`-th two-card hand popped from the end of `s`, in pop order. */
  function TopPair<T>(s: seq<T>, i: nat): seq<T>
    requires 2 * i + 2 <= |s|
  {
    [s[|s| - 1 - 2 * i], s[|s| - 2 - 2 * i]]
  }

  /** The first `k` two-card hands popped from the end of `s`. */
  function PairsFromTop<T>(s: seq<T>, k: nat): (hands: seq<seq<T>>)
    requires 2 * k <= |s|
    ensures |hands| == k && forall i :: 0 <= i < k ==> hands[i] == TopPair(s, i)
  {
    if k == 0 then [] else PairsFromTop(s, k - 1) + [TopPair(s, k - 1)]
  }

  lemma {:induction false} PairsFromTopAt<T>(s: seq<T>, k: nat)
    requires 2 * k <= |s|
    ensures |Flatten(PairsFromTop(s, k))| == 2 * k
    ensures forall i :: 0 <= i < 2 * k ==> Flatten(PairsFromTop(s, k))[i] == s[|s| - 1 - i]
  {
    if k > 0 {
      PairsFromTopAt(s, k - 1);
      FlattenAppend(PairsFromTop(s, k - 1), [TopPair(s, k - 1)]);
      assert Flatten([TopPair(s, k - 1)]) == TopPair(s, k - 1);
    }
  }

  /**
   * Popping `k` pairs uses the top `2k` positions of `s` once each: the
   * hands, concatenated, are the top of `s` reversed.
   */
  lemma PairsFromTopAreReversedTop<T>(s: seq<T>, k: nat)
    requires 2 * k <= |s|
    ensures Flatten(PairsFromTop(s, k)) == Reversed(s[|s| - 2 * k..])
  {
    PairsFromTopAt(s, k);
  }

  /** No element is lost or created by popping pairs. */
  lemma PairsFromTopConserve<T>(s: seq<T>, k: nat)
    requires 2 * k <= |s|
    ensures multiset(s[..|s| - 2 * k]) + multiset(Flatten(PairsFromTop(s, k))) == multiset(s)
  {
    PairsFromTopAreReversedTop(s, k);
    ReversedMultiset(s[|s| - 2 * k..]);
    assert s == s[..|s| - 2 * k] + s[|s| - 2 * k..];
  }
}
