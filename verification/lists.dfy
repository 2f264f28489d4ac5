/** The java.util.List operation the registry relies on: `remove(Object)`. */
module Lists {

  /** No element occurs twice. */
  predicate Distinct<T(==)>(s: seq<T>) {
    forall i, j :: 0 <= i < j < |s| ==> s[i] != s[j]
  }

  /** The index of the first element equal to `x`. */
  function FirstIndex<T(==)>(s: seq<T>, x: T): (i: nat)
    requires x in s
    ensures i < |s| && s[i] == x && x !in s[..i]
  {
    if s[0] == x then 0 else 1 + FirstIndex(s[1..], x)
  }

  /** `r` is `s` with its first `x` taken out, or `s` itself when it holds no `x`. */
  ghost predicate RemovedFirst<T>(s: seq<T>, x: T, r: seq<T>) {
    && (x !in s ==> r == s)
    && (x in s ==> r == s[..FirstIndex(s, x)] + s[FirstIndex(s, x) + 1..])
  }

  lemma ConsRemoved<T>(s: seq<T>, x: T, rest: seq<T>)
    requires s != [] && s[0] != x && RemovedFirst(s[1..], x, rest)
    ensures RemovedFirst(s, x, [s[0]] + rest)
  {
    var t := s[1..];
    assert s == [s[0]] + t;
    if x in s {
      assert x in t;
      var j := FirstIndex(t, x);
      assert FirstIndex(s, x) == 1 + j;
      assert s[..1 + j] == [s[0]] + t[..j];
      assert s[2 + j..] == t[j + 1..];
    }
  }

  /**
   * `List.remove(Object)`: the first element equal to `x` is taken out and the others keep
   * their order; a list without `x` is left as it is.
   */
  function RemoveFirst<T(==)>(s: seq<T>, x: T): (r: seq<T>)
    ensures x !in s ==> r == s
    ensures x in s ==> r == s[..FirstIndex(s, x)] + s[FirstIndex(s, x) + 1..]
  {
    if s == [] then []
    else if s[0] == x then
      s[1..]
    else
      var rest := RemoveFirst(s[1..], x);
      ConsRemoved(s, x, rest);
      [s[0]] + rest
  }

  /** Removing takes exactly one copy of `x` away, when there is one, and nothing else. */
  lemma RemoveFirstMultiset<T>(s: seq<T>, x: T)
    ensures multiset(RemoveFirst(s, x)) == multiset(s) - multiset{x}
  {
    if x in s {
      var i := FirstIndex(s, x);
      assert s == s[..i] + [x] + s[i + 1..];
      assert multiset(s) == multiset(s[..i]) + multiset{x} + multiset(s[i + 1..]);
    } else {
      assert multiset(s)[x] == 0;
    }
  }

  /** In a list without repetitions, removing `x` leaves no `x` and no repetition behind. */
  lemma RemoveFromDistinct<T>(s: seq<T>, x: T)
    requires Distinct(s)
    ensures x !in RemoveFirst(s, x)
    ensures Distinct(RemoveFirst(s, x))
    ensures forall y :: y in RemoveFirst(s, x) <==> y in s && y != x
  {
    if x in s {
      var i := FirstIndex(s, x);
      var r := RemoveFirst(s, x);
      assert r == s[..i] + s[i + 1..];
      assert |r| == |s| - 1;
      assert forall k :: 0 <= k < i ==> r[k] == s[k];
      assert forall k :: i <= k < |r| ==> r[k] == s[k + 1];
      forall y | y in s && y != x ensures y in r {
        var k :| 0 <= k < |s| && s[k] == y;
        if k < i { assert r[k] == y; } else { assert r[k - 1] == y; }
      }
      forall y | y in r ensures y in s && y != x {
        var k :| 0 <= k < |r| && r[k] == y;
        if k < i { assert s[k] == y && k != i; } else { assert s[k + 1] == y && k + 1 != i; }
      }
    }
  }

  /** Adding an element that was absent and then removing it gives back the list. */
  lemma AddThenRemove<T>(s: seq<T>, x: T)
    requires x !in s
    ensures RemoveFirst(s + [x], x) == s
  {
    var t := s + [x];
    assert x in t && t[|s|] == x;
    assert x !in t[..|s|];
    assert FirstIndex(t, x) == |s|;
    assert t[..|s|] == s;
  }
}
