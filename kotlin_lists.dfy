/**
  The Kotlin collection operations the list rules rely on: `indexOf`,
  `minByOrNull` / `maxByOrNull` (which keep the FIRST extreme element, since
  they replace the current pick only on a strict improvement), and removal
  of the first equal element (`list - x`, `MutableList.remove(x)`).
 */
module KotlinLists {

  /** `xs.indexOf(x)`: the first position holding x, or -1. */
  function IndexOf<T(==)>(xs: seq<T>, x: T): (k: int)
    ensures -1 <= k < |xs|
    ensures k < 0 <==> x !in xs
    ensures k >= 0 ==> xs[k] == x && x !in xs[..k]
  {
    if xs == [] then -1
    else if xs[0] == x then 0
    else
      var k := IndexOf(xs[1..], x);
      if k < 0 then -1
      else
        assert xs[..k + 1] == [xs[0]] + xs[1..][..k];
        k + 1
  }

  /** The position `minByOrNull` picks in a non-empty list: the first one with the least key. */
  function MinBy<T>(xs: seq<T>, key: T -> int): (k: nat)
    requires |xs| > 0
    ensures k < |xs|
    ensures forall j :: 0 <= j < |xs| ==> key(xs[k]) <= key(xs[j])
    ensures forall j :: 0 <= j < k ==> key(xs[j]) > key(xs[k])
  {
    if |xs| == 1 then 0
    else
      var k := MinBy(xs[..|xs| - 1], key);
      if key(xs[|xs| - 1]) < key(xs[k]) then |xs| - 1 else k
  }

  /** minByOrNull on a list with one more element: the new one wins only when strictly less. */
  lemma MinBySnoc<T>(xs: seq<T>, x: T, key: T -> int)
    requires |xs| > 0
    ensures MinBy(xs + [x], key) == if key(x) < key(xs[MinBy(xs, key)]) then |xs| else MinBy(xs, key)
  {
    var ys := xs + [x];
    assert ys[..|ys| - 1] == xs;
  }

  /** The position `maxByOrNull` picks in a non-empty list: the first one with the greatest key. */
  function MaxBy<T>(xs: seq<T>, key: T -> int): (k: nat)
    requires |xs| > 0
    ensures k < |xs|
    ensures forall j :: 0 <= j < |xs| ==> key(xs[j]) <= key(xs[k])
    ensures forall j :: 0 <= j < k ==> key(xs[j]) < key(xs[k])
  {
    if |xs| == 1 then 0
    else
      var k := MaxBy(xs[..|xs| - 1], key);
      if key(xs[|xs| - 1]) > key(xs[k]) then |xs| - 1 else k
  }

  /** maxByOrNull on a list with one more element: the new one wins only when strictly greater. */
  lemma MaxBySnoc<T>(xs: seq<T>, x: T, key: T -> int)
    requires |xs| > 0
    ensures MaxBy(xs + [x], key) == if key(x) > key(xs[MaxBy(xs, key)]) then |xs| else MaxBy(xs, key)
  {
    var ys := xs + [x];
    assert ys[..|ys| - 1] == xs;
  }

  /** `xs - x` (and `MutableList.remove(x)`): walk the list and drop the first element equal to x. */
  function RemoveFirst<T(==)>(xs: seq<T>, x: T): seq<T>
  {
    if xs == [] then []
    else if xs[0] == x then xs[1..]
    else [xs[0]] + RemoveFirst(xs[1..], x)
  }

  /**
    Removal leaves the list alone when x is absent; otherwise exactly the
    element at x's first position is gone, and nothing else.
   */
  lemma {:induction false} RemoveFirstSpec<T>(xs: seq<T>, x: T)
    ensures x !in xs ==> RemoveFirst(xs, x) == xs
    ensures x in xs ==> RemoveFirst(xs, x) == xs[..IndexOf(xs, x)] + xs[IndexOf(xs, x) + 1..]
  {
    if xs != [] && xs[0] != x {
      RemoveFirstSpec(xs[1..], x);
      if x in xs {
        var k := IndexOf(xs[1..], x);
        assert x in xs[1..];
        assert IndexOf(xs, x) == k + 1;
        assert xs[..k + 1] == [xs[0]] + xs[1..][..k];
        assert xs[k + 2..] == xs[1..][k + 1..];
      } else {
        assert xs == [xs[0]] + xs[1..];
      }
    }
  }

  /** Removing an element that is present shortens the list by one and takes away one copy of it. */
  lemma RemoveFirstCount<T>(xs: seq<T>, x: T)
    requires x in xs
    ensures |RemoveFirst(xs, x)| == |xs| - 1
    ensures multiset(RemoveFirst(xs, x)) + multiset{x} == multiset(xs)
  {
    RemoveFirstSpec(xs, x);
    var k := IndexOf(xs, x);
    assert xs == xs[..k] + [x] + xs[k + 1..];
    OneTakenOut(RemoveFirst(xs, x), xs, xs[..k], x, xs[k + 1..]);
  }

  lemma OneTakenOut<T>(r: seq<T>, xs: seq<T>, front: seq<T>, x: T, back: seq<T>)
    requires r == front + back && xs == front + [x] + back
    ensures |r| == |xs| - 1
    ensures multiset(r) + multiset{x} == multiset(xs)
  {
  }
}
