/** Small value-level helpers shared by the rest of the model: an Option type,
    squares and Python's float-to-int truncation on reals, and Python's
    `list.remove` on sequences. */
module Basics {

  datatype Option<+T> = None | Some(value: T)

  function Sq(r: real): (s: real) { r * r }

  /** Python's `int(r)` on a float: truncation toward zero. */
  function Trunc(r: real): (n: int)
  {
    if r >= 0.0 then r.Floor else -((-r).Floor)
  }

  /** `Trunc` drops the fractional part toward zero: the result has the sign of
      `r` (or is 0) and lies less than one unit closer to zero than `r`. */
  lemma TruncTowardZero(r: real)
    ensures 0.0 <= r ==> 0 <= Trunc(r) && Trunc(r) as real <= r < Trunc(r) as real + 1.0
    ensures r < 0.0 ==> Trunc(r) <= 0 && Trunc(r) as real - 1.0 < r <= Trunc(r) as real
  {
  }

  /** `Trunc(r) == 0` exactly when `r` lies strictly between -1 and 1. */
  lemma TruncZero(r: real)
    ensures Trunc(r) == 0 <==> -1.0 < r < 1.0
  {
    TruncTowardZero(r);
  }

  /** No element occurs twice (Python objects are compared by identity):
      each element is absent from the part of the list before it. */
  ghost predicate Distinct<T>(s: seq<T>)
    decreases |s|
  {
    s == [] || (s[|s| - 1] !in s[..|s| - 1] && Distinct(s[..|s| - 1]))
  }

  /** Appending an element that is not yet listed keeps the list free of repeats. */
  lemma DistinctSnoc<T>(s: seq<T>, x: T)
    ensures Distinct(s + [x]) <==> x !in s && Distinct(s)
  {
    assert (s + [x])[..|s|] == s;
  }

  /** The position of the first occurrence of `x`. */
  function IndexOf<T(==)>(s: seq<T>, x: T): (i: nat)
    requires x in s
    ensures i < |s| && s[i] == x && forall k :: 0 <= k < i ==> s[k] != x
  {
    if s[0] == x then 0
    else 1 + IndexOf(s[1..], x)
  }

  /** Python's `list.remove(x)`: drops the first occurrence of `x`, and fails
      (the `ValueError` case) when `x` does not occur. */
  function ListRemove<T(==)>(s: seq<T>, x: T): (r: Option<seq<T>>)
  {
    if x in s then
      var i := IndexOf(s, x);
      Some(s[..i] + s[i + 1..])
    else None
  }

  /** Removal fails exactly when `x` is absent; otherwise one occurrence of `x`
      goes and every other element stays. */
  lemma RemoveCount<T>(s: seq<T>, x: T)
    ensures ListRemove(s, x).None? <==> x !in s
    ensures ListRemove(s, x).Some? ==>
              multiset(ListRemove(s, x).value) + multiset{x} == multiset(s)
  {
    if x in s {
      var i := IndexOf(s, x);
      assert s == s[..i] + [x] + s[i + 1..];
    }
  }

  /** Taking the first element off the list that follows a prefix `a`. */
  lemma Peel<T>(a: seq<T>, s: seq<T>)
    requires s != []
    ensures a + s == a + [s[0]] + s[1..]
  {
    assert s == [s[0]] + s[1..];
  }

  /** Moving one element from the front of a suffix to the end of a prefix. */
  lemma ShiftOne<T>(a: seq<T>, x: T, b: seq<T>)
    ensures a + ([x] + b) == (a + [x]) + b
  {
  }

  lemma Assoc<T>(a: seq<T>, b: seq<T>, c: seq<T>)
    ensures (a + b) + c == a + (b + c)
  {
  }

  /** A list without repeats, split around one element `x`: `x` is in neither
      part, and the two parts together still have no repeats. */
  lemma {:induction false} DistinctSplit<T>(a: seq<T>, x: T, b: seq<T>)
    requires Distinct(a + [x] + b)
    ensures x !in a && x !in b && Distinct(a + b)
  {
    if b == [] {
      assert a + [x] + b == a + [x] && a + b == a;
      DistinctSnoc(a, x);
    } else {
      var b', y := b[..|b| - 1], b[|b| - 1];
      assert b == b' + [y];
      assert a + [x] + b == (a + [x] + b') + [y];
      assert a + b == (a + b') + [y];
      DistinctSnoc(a + [x] + b', y);
      DistinctSplit(a, x, b');
      DistinctSnoc(a + b', y);
    }
  }

  /** Removing `x` from a list whose first occurrence of `x` follows the
      prefix `a` leaves `a` and what followed `x`, in order. */
  lemma RemoveAfterPrefix<T>(a: seq<T>, x: T, b: seq<T>)
    requires x !in a
    ensures ListRemove(a + [x] + b, x) == Some(a + b)
  {
    var s := a + [x] + b;
    assert s[|a|] == x;
    var i := IndexOf(s, x);
    assert forall k :: 0 <= k < |a| ==> s[k] == a[k];
    assert |a| <= i;
    assert s[..i] == a && s[i + 1..] == b;
  }
}
