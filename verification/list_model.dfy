/** The three operations the controller uses on its list model: first index of
    an element, removal by position and removal of the first equal element.
    Equality is value equality (the reminder's own `equals` is not modelled). */
module ListModel {

  /** No element occurs twice, as in a list the store returns de-duplicated by
      identity. */
  predicate Distinct<T(==)>(xs: seq<T>) {
    forall i, j :: 0 <= i < j < |xs| ==> xs[i] != xs[j]
  }

  /** Position of the first element equal to `x`, or -1 when there is none. */
  function IndexOf<T(==)>(xs: seq<T>, x: T): (i: int)
    ensures -1 <= i < |xs|
    ensures i == -1 <==> x !in xs
    ensures 0 <= i ==> xs[i] == x && x !in xs[..i]
  {
    if |xs| == 0 then -1
    else if xs[0] == x then 0
    else
      var j := IndexOf(xs[1..], x);
      if j == -1 then -1
      else
        assert xs[..j + 1] == [xs[0]] + xs[1..][..j];
        j + 1
  }

  /** The list without the element at position `i`; the others keep their
      order. */
  function RemoveAt<T>(xs: seq<T>, i: int): (r: seq<T>)
    requires 0 <= i < |xs|
    ensures |r| == |xs| - 1
    ensures forall k :: 0 <= k < i ==> r[k] == xs[k]
    ensures forall k :: i <= k < |r| ==> r[k] == xs[k + 1]
  {
    xs[..i] + xs[i + 1..]
  }

  /** Removal of the first element equal to `x`, element by element; a list
      without `x` is returned unchanged. */
  function RemoveFirst<T(==)>(xs: seq<T>, x: T): (r: seq<T>)
    ensures x !in xs ==> r == xs
    ensures x in xs ==> r == RemoveAt(xs, IndexOf(xs, x))
  {
    if |xs| == 0 then []
    else if xs[0] == x then
      assert xs == [xs[0]] + xs[1..];
      xs[1..]
    else
      var rest := RemoveFirst(xs[1..], x);
      assert xs == [xs[0]] + xs[1..];
      assert x in xs ==> x in xs[1..] && IndexOf(xs, x) == IndexOf(xs[1..], x) + 1;
      assert x in xs ==> RemoveAt(xs, IndexOf(xs, x)) == [xs[0]] + RemoveAt(xs[1..], IndexOf(xs[1..], x));
      [xs[0]] + rest
  }

  /** In a list without repetitions, removing position `i` removes every
      occurrence of `xs[i]` and keeps the rest free of repetitions. */
  lemma RemoveAtOfDistinct<T>(xs: seq<T>, i: int)
    requires Distinct(xs) && 0 <= i < |xs|
    ensures xs[i] !in RemoveAt(xs, i)
    ensures Distinct(RemoveAt(xs, i))
  {
    var r := RemoveAt(xs, i);
    forall k | 0 <= k < |r|
      ensures r[k] != xs[i]
    {
      if k < i { assert r[k] == xs[k]; } else { assert r[k] == xs[k + 1]; }
    }
    forall a, b | 0 <= a < b < |r|
      ensures r[a] != r[b]
    {
      var a' := if a < i then a else a + 1;
      var b' := if b < i then b else b + 1;
      assert r[a] == xs[a'] && r[b] == xs[b'];
    }
  }

  /** In a list without repetitions, removing the first `x` removes every `x`
      and keeps the rest free of repetitions. */
  lemma RemoveFirstOfDistinct<T>(xs: seq<T>, x: T)
    requires Distinct(xs)
    ensures x !in RemoveFirst(xs, x)
    ensures Distinct(RemoveFirst(xs, x))
  {
    if x in xs {
      RemoveAtOfDistinct(xs, IndexOf(xs, x));
    }
  }

  /** In a list without repetitions the element at `i` is first found at `i`. */
  lemma IndexOfInDistinct<T>(xs: seq<T>, i: int)
    requires Distinct(xs) && 0 <= i < |xs|
    ensures IndexOf(xs, xs[i]) == i
  {
  }
}
