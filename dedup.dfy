/**
 * Last-wins deduplication, as Python's `list({key(x): x for x in xs}.values())`:
 * one element per key, each the LAST element of the input with that key.
 */
module Dedup {

  /** No two elements share a key. */
  ghost predicate UniqueKeys<T, K>(d: seq<T>, key: T -> K) {
    forall i, j :: 0 <= i < j < |d| ==> key(d[i]) != key(d[j])
  }

  ghost function Keys<T, K>(xs: seq<T>, key: T -> K): set<K> {
    set x | x in xs :: key(x)
  }

  /** Index `i` holds the last element of `xs` with its key. */
  ghost predicate IsLastWithKey<T, K>(xs: seq<T>, i: int, key: T -> K) {
    0 <= i < |xs| && forall j :: i < j < |xs| ==> key(xs[j]) != key(xs[i])
  }

  /**
   * `d[key(x)] = x` on a dict whose values, in insertion order, are `d`: an
   * entry with the same key keeps its position and takes the new value, a new
   * key goes at the end.
   */
  function Put<T, K(==)>(d: seq<T>, x: T, key: T -> K): (r: seq<T>)
    requires UniqueKeys(d, key)
    ensures UniqueKeys(r, key)
    ensures Keys(r, key) == Keys(d, key) + {key(x)}
    ensures x in r
    ensures forall y :: y in r && key(y) != key(x) ==> y in d
    ensures forall y :: y in d && key(y) != key(x) ==> y in r
    ensures key(x) !in Keys(d, key) ==> r == d + [x]
  {
    if d == [] then [x]
    else if key(d[0]) == key(x) then
      assert forall y :: y in d[1..] ==> key(y) != key(x) by {
        forall y | y in d[1..] ensures key(y) != key(x) {
          var j :| 0 <= j < |d[1..]| && d[1..][j] == y;
          assert d[j + 1] == y;
        }
      }
      assert d == [d[0]] + d[1..];
      [x] + d[1..]
    else
      var rest := Put(d[1..], x, key);
      assert d == [d[0]] + d[1..];
      assert key(d[0]) !in Keys(d[1..], key);
      [d[0]] + rest
  }

  /** The dict comprehension: put every element in turn. */
  function DedupBy<T, K(==)>(xs: seq<T>, key: T -> K): (r: seq<T>)
    ensures UniqueKeys(r, key)
    ensures Keys(r, key) == Keys(xs, key)
    ensures forall y :: y in r ==> y in xs
  {
    if xs == [] then []
    else
      var init := xs[..|xs| - 1];
      assert xs == init + [xs[|xs| - 1]];
      Put(DedupBy(init, key), xs[|xs| - 1], key)
  }

  /** Every key of the input has a last occurrence. */
  lemma {:induction false} LastIndexOf<T, K>(xs: seq<T>, k: K, key: T -> K) returns (i: int)
    requires k in Keys(xs, key)
    ensures IsLastWithKey(xs, i, key) && key(xs[i]) == k
  {
    var n := |xs| - 1;
    if key(xs[n]) == k {
      i := n;
    } else {
      var init := xs[..n];
      assert xs == init + [xs[n]];
      var y :| y in xs && key(y) == k;
      assert y in init;
      i := LastIndexOf(init, k, key);
    }
  }

  /** An element last with its key in `init + [x]` is `x` or was last with its key in `init`. */
  lemma LastInPrefix<T, K>(init: seq<T>, x: T, i: int, key: T -> K)
    requires IsLastWithKey(init + [x], i, key) && i < |init|
    ensures IsLastWithKey(init, i, key) && key(init[i]) != key(x)
  {
    var xs := init + [x];
    assert xs[i] == init[i] && xs[|init|] == x;
    forall j | i < j < |init| ensures key(init[j]) != key(init[i]) {
      assert xs[j] == init[j];
    }
  }

  /** The last element with each key survives. */
  lemma {:induction false} DedupKeepsLast<T, K>(xs: seq<T>, key: T -> K)
    ensures forall i :: IsLastWithKey(xs, i, key) ==> xs[i] in DedupBy(xs, key)
  {
    if xs != [] {
      var n := |xs| - 1;
      var init := xs[..n];
      assert xs == init + [xs[n]];
      var d := DedupBy(init, key);
      assert DedupBy(xs, key) == Put(d, xs[n], key);
      DedupKeepsLast(init, key);
      forall i | IsLastWithKey(xs, i, key) ensures xs[i] in Put(d, xs[n], key) {
        if i < n {
          LastInPrefix(init, xs[n], i, key);
          assert xs[i] == init[i];
        }
      }
    }
  }

  /**
   * Each kept element is the last input element with its key, so the output is
   * exactly one element per distinct input key, holding the last value.
   */
  lemma DedupLastWins<T, K>(xs: seq<T>, key: T -> K)
    ensures forall y :: y in DedupBy(xs, key) ==>
      exists i :: IsLastWithKey(xs, i, key) && y == xs[i]
  {
    var r := DedupBy(xs, key);
    DedupKeepsLast(xs, key);
    forall y | y in r ensures exists i :: IsLastWithKey(xs, i, key) && y == xs[i] {
      assert key(y) in Keys(xs, key);
      var i := LastIndexOf(xs, key(y), key);
      var p :| 0 <= p < |r| && r[p] == y;
      var q :| 0 <= q < |r| && r[q] == xs[i];
      assert p == q;
    }
  }

  /** Input that already has unique keys comes out unchanged. */
  lemma {:induction false} DedupOfUnique<T, K>(xs: seq<T>, key: T -> K)
    requires UniqueKeys(xs, key)
    ensures DedupBy(xs, key) == xs
  {
    if xs != [] {
      var n := |xs| - 1;
      var init := xs[..n];
      DedupOfUnique(init, key);
      assert key(xs[n]) !in Keys(init, key);
      assert init + [xs[n]] == xs;
    }
  }

  lemma DedupIdempotent<T, K>(xs: seq<T>, key: T -> K)
    ensures DedupBy(DedupBy(xs, key), key) == DedupBy(xs, key)
  {
    DedupOfUnique(DedupBy(xs, key), key);
  }
}
