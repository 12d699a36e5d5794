/**
 * The order of `ORDER BY name` and `MAX(name)`: strings compared character by
 * character, a proper prefix first. Sorting by a text key is insertion into an
 * ordered sequence.
 */
module NameOrder {

  /** `a` sorts no later than `b`. */
  predicate NameLe(a: string, b: string) {
    a == [] || (b != [] && (a[0] < b[0] || (a[0] == b[0] && NameLe(a[1..], b[1..]))))
  }

  lemma {:induction false} NameLeReflexive(a: string)
    ensures NameLe(a, a)
  {
    if a != [] {
      NameLeReflexive(a[1..]);
    }
  }

  lemma {:induction false} NameLeTotal(a: string, b: string)
    ensures NameLe(a, b) || NameLe(b, a)
  {
    if a != [] && b != [] && a[0] == b[0] {
      NameLeTotal(a[1..], b[1..]);
    }
  }

  lemma {:induction false} NameLeAntisymmetric(a: string, b: string)
    requires NameLe(a, b) && NameLe(b, a)
    ensures a == b
  {
    if a != [] {
      NameLeAntisymmetric(a[1..], b[1..]);
      assert a == [a[0]] + a[1..] && b == [b[0]] + b[1..];
    }
  }

  lemma {:induction false} NameLeTransitive(a: string, b: string, c: string)
    requires NameLe(a, b) && NameLe(b, c)
    ensures NameLe(a, c)
  {
    if a != [] && a[0] == b[0] && b[0] == c[0] {
      NameLeTransitive(a[1..], b[1..], c[1..]);
    }
  }

  /** Keys ascending from left to right. */
  ghost predicate SortedBy<T>(xs: seq<T>, key: T -> string) {
    forall i, j :: 0 <= i < j < |xs| ==> NameLe(key(xs[i]), key(xs[j]))
  }

  /** `x` put before the first element whose key sorts after it. */
  function InsertBy<T>(x: T, xs: seq<T>, key: T -> string): (r: seq<T>)
    requires SortedBy(xs, key)
    ensures SortedBy(r, key)
    ensures multiset(r) == multiset(xs) + multiset{x}
  {
    if xs == [] then [x]
    else if NameLe(key(x), key(xs[0])) then
      assert forall j :: 0 <= j < |xs| ==> NameLe(key(x), key(xs[j])) by {
        forall j | 0 <= j < |xs| ensures NameLe(key(x), key(xs[j])) {
          if j > 0 {
            NameLeTransitive(key(x), key(xs[0]), key(xs[j]));
          }
        }
      }
      [x] + xs
    else
      var rest := InsertBy(x, xs[1..], key);
      NameLeTotal(key(x), key(xs[0]));
      assert xs == [xs[0]] + xs[1..];
      assert forall y :: y in multiset(rest) ==> NameLe(key(xs[0]), key(y)) by {
        forall y | y in multiset(rest) ensures NameLe(key(xs[0]), key(y)) {
          if y != x {
            assert y in multiset(xs[1..]);
            var j :| 0 <= j < |xs[1..]| && xs[1..][j] == y;
            assert xs[j + 1] == y;
          }
        }
      }
      assert forall j :: 0 <= j < |rest| ==> NameLe(key(xs[0]), key(rest[j])) by {
        forall j | 0 <= j < |rest| ensures NameLe(key(xs[0]), key(rest[j])) {
          assert rest[j] in multiset(rest);
        }
      }
      [xs[0]] + rest
  }

  /** The elements of `xs`, ordered by key. */
  function SortBy<T>(xs: seq<T>, key: T -> string): (r: seq<T>)
    ensures SortedBy(r, key)
    ensures multiset(r) == multiset(xs)
  {
    if xs == [] then []
    else
      assert xs == [xs[0]] + xs[1..];
      InsertBy(xs[0], SortBy(xs[1..], key), key)
  }
}
