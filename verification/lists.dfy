/** The array operations the connection registry is kept with: `push`,
    `indexOf` (identity comparison, -1 when absent) and `splice(index, 1)`,
    and the first-occurrence removal the disconnect handlers build from the
    last two. */
module Lists {

  /** No element occurs twice. */
  predicate Distinct<T(==)>(xs: seq<T>)
  {
    forall i, j :: 0 <= i < j < |xs| ==> xs[i] != xs[j]
  }

  /** `xs.indexOf(x)`: the position of the first occurrence, or -1. */
  function IndexOf<T(==)>(xs: seq<T>, x: T): (i: int)
    ensures -1 <= i < |xs|
    ensures i == -1 <==> x !in xs
    ensures 0 <= i ==> xs[i] == x && x !in xs[..i]
  {
    if xs == [] then -1
    else if xs[0] == x then 0
    else
      var j := IndexOf(xs[1..], x);
      if j == -1 then -1
      else
        assert xs[..j + 1] == [xs[0]] + xs[1..][..j];
        j + 1
  }

  /** `xs.splice(i, 1)`: the element at `i` taken out, the rest kept in order. */
  function Splice<T>(xs: seq<T>, i: nat): (r: seq<T>)
    requires i < |xs|
    ensures |r| == |xs| - 1
    ensures forall k :: 0 <= k < i ==> r[k] == xs[k]
    ensures forall k :: i <= k < |r| ==> r[k] == xs[k + 1]
  {
    xs[..i] + xs[i + 1..]
  }

  /** `const index = xs.indexOf(x); if (index !== -1) xs.splice(index, 1)`. */
  function RemoveFirst<T(==)>(xs: seq<T>, x: T): (r: seq<T>)
    ensures |r| == if x in xs then |xs| - 1 else |xs|
    ensures forall y :: y in r ==> y in xs
  {
    var index := IndexOf(xs, x);
    if index != -1 then Splice(xs, index) else xs
  }

  /** Removing an absent element leaves the list unchanged. */
  lemma RemoveFirstAbsent<T>(xs: seq<T>, x: T)
    requires x !in xs
    ensures RemoveFirst(xs, x) == xs
  {
  }

  /** Removing a present element takes out exactly its first occurrence and
      keeps everything before and after it in order. */
  lemma RemoveFirstPresent<T>(a: seq<T>, x: T, b: seq<T>)
    requires x !in a
    ensures RemoveFirst(a + [x] + b, x) == a + b
  {
    var xs := a + [x] + b;
    var i := IndexOf(xs, x);
    assert xs[|a|] == x;
    assert i == |a|;
    assert xs[..i] == a;
    assert xs[i + 1..] == b;
  }

  /** Removal takes one copy of `x` out of the list's contents when there is
      one, and nothing otherwise. */
  lemma RemoveFirstMultiset<T>(xs: seq<T>, x: T)
    ensures multiset(RemoveFirst(xs, x)) == multiset(xs) - multiset{x}
  {
    var i := IndexOf(xs, x);
    if i == -1 {
      assert multiset(xs)[x] == 0;
    } else {
      assert xs == xs[..i] + [x] + xs[i + 1..];
      assert multiset(xs) == multiset(xs[..i]) + multiset{x} + multiset(xs[i + 1..]);
    }
  }

  /** Removal keeps every other element: `y != x` is in the result exactly when
      it was in the list. */
  lemma RemoveFirstKeepsOthers<T>(xs: seq<T>, x: T, y: T)
    requires y != x
    ensures y in RemoveFirst(xs, x) <==> y in xs
  {
  }

  /** In a list without duplicates removal takes `x` out entirely, keeps the
      list free of duplicates, and a second removal changes nothing. */
  lemma RemoveFirstDistinct<T>(xs: seq<T>, x: T)
    requires Distinct(xs)
    ensures x !in RemoveFirst(xs, x)
    ensures Distinct(RemoveFirst(xs, x))
    ensures RemoveFirst(RemoveFirst(xs, x), x) == RemoveFirst(xs, x)
  {
  }

  /** Appending a new element and removing it again restores the list. */
  lemma RemoveFirstAfterPush<T>(xs: seq<T>, x: T)
    requires x !in xs
    ensures RemoveFirst(xs + [x], x) == xs
  {
  }
}
