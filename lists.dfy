/** Python list operations used by the core, stated over sequences. */
module Lists {

  /** The position of the first occurrence of `x`: `list.index(x)`. */
  function IndexOf<T(==)>(s: seq<T>, x: T): (i: nat)
    requires x in s
    ensures i < |s| && s[i] == x && x !in s[..i]
  {
    if s[0] == x then 0
    else
      var i := 1 + IndexOf(s[1..], x);
      assert s[..i] == [s[0]] + s[1..][..i - 1];
      i
  }

  /** Python's `list.remove(x)` on a list that contains `x`: drop the first
      occurrence, keeping the order of the rest. On a list without `x` Python
      raises; callers of this function check membership first, and the
      function then leaves the list as it is. */
  function RemoveFirst<T(==)>(s: seq<T>, x: T): (r: seq<T>)
    ensures x !in s ==> r == s
    ensures x in s ==> |r| == |s| - 1
    ensures multiset(r) == multiset(s) - multiset{x}
    ensures forall y :: y in s && y != x ==> y in r
    ensures forall y :: y in r ==> y in s
  {
    if |s| == 0 then []
    else
      assert s == [s[0]] + s[1..];
      if s[0] == x then s[1..]
      else
        [s[0]] + RemoveFirst(s[1..], x)
  }

  /** The element removed is the first occurrence, and the rest keep their
      order: before `IndexOf(s, x)` the result agrees with the list, after it
      every element has moved down by one place. */
  lemma {:induction false} RemoveFirstKeepsOrder<T>(s: seq<T>, x: T)
    requires x in s
    ensures var i, r := IndexOf(s, x), RemoveFirst(s, x);
      && (forall k :: 0 <= k < i ==> r[k] == s[k])
      && (forall k :: i <= k < |r| ==> r[k] == s[k + 1])
  {
    if s[0] != x {
      var t := s[1..];
      assert x in t;
      RemoveFirstKeepsOrder(t, x);
      assert IndexOf(s, x) == IndexOf(t, x) + 1;
      assert RemoveFirst(s, x) == [s[0]] + RemoveFirst(t, x);
    }
  }

  /** The same fact as one equation: the list spliced around the first occurrence. */
  lemma RemoveFirstSplices<T>(s: seq<T>, x: T)
    requires x in s
    ensures RemoveFirst(s, x) == s[..IndexOf(s, x)] + s[IndexOf(s, x) + 1..]
  {
    RemoveFirstKeepsOrder(s, x);
    var i, r := IndexOf(s, x), RemoveFirst(s, x);
    var spliced := s[..i] + s[i + 1..];
    assert |r| == |spliced|;
    assert forall k :: 0 <= k < |r| ==> r[k] == spliced[k];
  }

  /** Appending an element and then removing one occurrence of it gives back the
      original list when the element was not there before, and the same
      multiset of elements in every case. */
  lemma {:induction false} AppendThenRemove<T>(s: seq<T>, x: T)
    ensures x !in s ==> RemoveFirst(s + [x], x) == s
    ensures multiset(RemoveFirst(s + [x], x)) == multiset(s)
  {
    if x !in s && |s| > 0 {
      var t := s[1..];
      assert s == [s[0]] + t;
      assert (s + [x])[0] == s[0] && (s + [x])[1..] == t + [x];
      AppendThenRemove(t, x);
    }
  }

  /** No element occurs twice. */
  predicate Distinct<T(==)>(s: seq<T>) {
    forall i, j :: 0 <= i < j < |s| ==> s[i] != s[j]
  }

  /** In a list without duplicates, removing `x` removes every occurrence of it. */
  lemma {:induction false} RemoveFirstDistinct<T>(s: seq<T>, x: T)
    requires Distinct(s)
    ensures x !in RemoveFirst(s, x)
  {
    if |s| > 0 && s[0] != x {
      RemoveFirstDistinct(s[1..], x);
    }
  }

  /** A distinct sequence holds each of its elements once. */
  lemma {:induction false} DistinctCount<T>(s: seq<T>, x: T)
    requires Distinct(s)
    ensures multiset(s)[x] <= 1
    ensures x in s ==> multiset(s)[x] == 1
  {
    if |s| > 0 {
      assert s == [s[0]] + s[1..];
      assert Distinct(s[1..]) by {
        forall a, b | 0 <= a < b < |s[1..]| ensures s[1..][a] != s[1..][b] {
          assert s[1..][a] == s[a + 1] && s[1..][b] == s[b + 1];
        }
      }
      DistinctCount(s[1..], x);
      if s[0] == x {
        assert x !in s[1..] by {
          forall m | 0 <= m < |s[1..]| ensures s[1..][m] != x {
            assert s[1..][m] == s[m + 1];
          }
        }
      }
    }
  }

  /** A set with no element is the empty set. */
  lemma EmptyWhenNothingIn<T>(s: set<T>)
    requires forall x :: x !in s
    ensures s == {}
  {
    assert forall x :: x in s <==> x in {};
  }

  /** An element of a non-empty set. */
  lemma SomeElement(s: set<int>)
    requires s != {}
    ensures exists x :: x in s
  {
    if forall x :: x !in s {
      EmptyWhenNothingIn(s);
    }
  }
}
