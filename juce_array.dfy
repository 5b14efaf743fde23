/**
 * The `juce::Array` operations the core uses, as functions on sequences:
 * `removeAllInstancesOf` (used on note lists and on listener lists),
 * `addIfNotAlreadyThere` (used on listener lists) and `indexOf` (used to
 * find the strip a click came from).
 */
module JuceArray {

  /** No element occurs twice. */
  predicate NoDuplicates<T(==)>(s: seq<T>) {
    forall i, j :: 0 <= i < j < |s| ==> s[i] != s[j]
  }

  /** `Array::removeAllInstancesOf`: drop every occurrence of `x`, keep the rest in order. */
  function RemoveAll<T(==)>(s: seq<T>, x: T): seq<T> {
    if s == [] then [] else (if s[0] == x then [] else [s[0]]) + RemoveAll(s[1..], x)
  }

  /** Removal takes every occurrence of `x` out and leaves the count of every other value as it was. */
  lemma {:induction false} RemoveAllCounts<T>(s: seq<T>, x: T)
    ensures multiset(RemoveAll(s, x)) == multiset(s)[x := 0]
  {
    if s != [] {
      RemoveAllCounts(s[1..], x);
      assert s == [s[0]] + s[1..];
    }
  }

  /** `Array::indexOf`: the first position holding `x`, or -1 when there is none. */
  function IndexOf<T(==)>(s: seq<T>, x: T): (i: int)
    ensures i == -1 <==> x !in s
    ensures i != -1 ==> 0 <= i < |s| && s[i] == x && x !in s[..i]
  {
    if s == [] then -1
    else if s[0] == x then 0
    else
      var j := IndexOf(s[1..], x);
      assert s == [s[0]] + s[1..];
      if j == -1 then -1
      else
        assert s[..j + 1] == [s[0]] + s[1..][..j];
        j + 1
  }

  /** `Array::addIfNotAlreadyThere`. */
  function AddIfAbsent<T(==)>(s: seq<T>, x: T): seq<T> {
    if x in s then s else s + [x]
  }

  /** Membership after removal: every value other than `x` stays. */
  lemma InRemoveAll<T>(s: seq<T>, x: T, y: T)
    ensures y in RemoveAll(s, x) <==> y in s && y != x
  {
    RemoveAllCounts(s, x);
    assert y in RemoveAll(s, x) <==> multiset(RemoveAll(s, x))[y] > 0;
    assert y in s <==> multiset(s)[y] > 0;
  }

  /** Removing a value that is not there changes nothing. */
  lemma {:induction false} RemoveAllAbsent<T>(s: seq<T>, x: T)
    requires x !in s
    ensures RemoveAll(s, x) == s
  {
    if s != [] {
      RemoveAllAbsent(s[1..], x);
    }
  }

  /** Removal works piecewise, so the values that stay keep their relative order. */
  lemma {:induction false} RemoveAllConcat<T>(a: seq<T>, b: seq<T>, x: T)
    ensures RemoveAll(a + b, x) == RemoveAll(a, x) + RemoveAll(b, x)
  {
    if a == [] {
      assert a + b == b;
    } else {
      assert (a + b)[0] == a[0];
      assert (a + b)[1..] == a[1..] + b;
      RemoveAllConcat(a[1..], b, x);
      var head := if a[0] == x then [] else [a[0]];
      assert RemoveAll(a + b, x) == head + (RemoveAll(a[1..], x) + RemoveAll(b, x));
      assert RemoveAll(a, x) + RemoveAll(b, x) == head + RemoveAll(a[1..], x) + RemoveAll(b, x);
    }
  }

  /** Removal keeps a duplicate-free sequence duplicate-free. */
  lemma {:induction false} RemoveAllNoDuplicates<T>(s: seq<T>, x: T)
    requires NoDuplicates(s)
    ensures NoDuplicates(RemoveAll(s, x))
  {
    if s != [] {
      assert NoDuplicates(s[1..]);
      RemoveAllNoDuplicates(s[1..], x);
      if s[0] != x {
        assert s[0] !in s[1..];
        InRemoveAll(s[1..], x, s[0]);
        var r := RemoveAll(s[1..], x);
        assert RemoveAll(s, x) == [s[0]] + r;
        forall i, j | 0 <= i < j < |[s[0]] + r|
          ensures ([s[0]] + r)[i] != ([s[0]] + r)[j]
        {
          if i == 0 {
            assert ([s[0]] + r)[j] == r[j - 1];
          }
        }
      }
    }
  }

  /** Adding only when absent keeps a duplicate-free sequence duplicate-free and makes `x` a member. */
  lemma AddIfAbsentNoDuplicates<T>(s: seq<T>, x: T)
    requires NoDuplicates(s)
    ensures NoDuplicates(AddIfAbsent(s, x)) && x in AddIfAbsent(s, x)
  {
  }
}
