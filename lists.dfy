/** The two operations of Python's built-in `list` that the chart manager uses
    on its active set: `append` (sequence concatenation) and `remove`, which
    deletes the first element equal to its argument and raises `ValueError`
    when there is none. */
module Lists {

  /** No element occurs twice. */
  predicate Distinct<T(==)>(xs: seq<T>) {
    forall i, j :: 0 <= i < j < |xs| ==> xs[i] != xs[j]
  }

  /** Position of the first occurrence of `x` in `xs`. */
  function IndexOf<T(==)>(xs: seq<T>, x: T): (i: nat)
    requires x in xs
    ensures i < |xs| && xs[i] == x
    ensures x !in xs[..i]
  {
    if xs[0] == x then 0
    else
      assert x in xs[1..];
      var j := IndexOf(xs[1..], x);
      assert xs[..j + 1] == [xs[0]] + xs[1..][..j];
      j + 1
  }

  /** `list.remove(x)`: the list without its first occurrence of `x`. */
  function RemoveFirst<T(==)>(xs: seq<T>, x: T): (r: seq<T>)
    requires x in xs
    ensures |r| == |xs| - 1
  {
    if xs[0] == x then xs[1..]
    else
      assert x in xs[1..];
      [xs[0]] + RemoveFirst(xs[1..], x)
  }

  /** Removal splices out exactly the first occurrence: what comes before it
      and what comes after it are kept, in their original order. */
  lemma {:induction false} RemoveFirstSplices<T>(xs: seq<T>, x: T)
    requires x in xs
    ensures RemoveFirst(xs, x) == xs[..IndexOf(xs, x)] + xs[IndexOf(xs, x) + 1..]
  {
    if xs[0] != x {
      var tail := xs[1..];
      assert x in tail;
      RemoveFirstSplices(tail, x);
      var j := IndexOf(tail, x);
      assert IndexOf(xs, x) == j + 1;
      calc {
        RemoveFirst(xs, x);
        [xs[0]] + RemoveFirst(tail, x);
        [xs[0]] + (tail[..j] + tail[j + 1..]);
        ([xs[0]] + tail[..j]) + tail[j + 1..];
        { assert [xs[0]] + tail[..j] == xs[..j + 1]; assert tail[j + 1..] == xs[j + 2..]; }
        xs[..j + 1] + xs[j + 2..];
      }
    }
  }

  /** Removal takes away one copy of `x` and leaves every other element. */
  lemma RemoveFirstMultiset<T>(xs: seq<T>, x: T)
    requires x in xs
    ensures multiset(RemoveFirst(xs, x)) == multiset(xs) - multiset{x}
  {
    RemoveFirstSplices(xs, x);
    var i := IndexOf(xs, x);
    assert xs == xs[..i] + [x] + xs[i + 1..];
  }

  /** Removing an element that was just appended, and occurs nowhere else,
      gives back the list as it was before the append. */
  lemma {:induction false} RemoveUndoesAppend<T>(xs: seq<T>, x: T)
    requires x !in xs
    ensures x in xs + [x]
    ensures RemoveFirst(xs + [x], x) == xs
  {
    if xs != [] {
      assert (xs + [x])[1..] == xs[1..] + [x];
      RemoveUndoesAppend(xs[1..], x);
    }
  }

  /** In a list without repetitions the removed element is gone entirely and
      the remaining elements are still without repetitions. */
  lemma RemoveFirstDistinct<T>(xs: seq<T>, x: T)
    requires x in xs && Distinct(xs)
    ensures x !in RemoveFirst(xs, x)
    ensures Distinct(RemoveFirst(xs, x))
  {
    RemoveFirstSplices(xs, x);
    var i := IndexOf(xs, x);
    var r := RemoveFirst(xs, x);
    assert forall k :: 0 <= k < i ==> r[k] == xs[k];
    assert forall k :: i <= k < |r| ==> r[k] == xs[k + 1];
    forall a, b | 0 <= a < b < |r|
      ensures r[a] != r[b]
    {
      var a', b' := if a < i then a else a + 1, if b < i then b else b + 1;
      assert r[a] == xs[a'] && r[b] == xs[b'] && a' < b';
    }
    forall k | 0 <= k < |r|
      ensures r[k] != x
    {
      var k' := if k < i then k else k + 1;
      assert r[k] == xs[k'] && k' != i;
    }
  }
}
