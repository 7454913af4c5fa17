/**
 * The account's three lists (favorites, friends, friendsRequests) are
 * JavaScript arrays used as sets.  This module holds the array primitives the
 * code relies on -- `includes`/`indexOf` with strict equality, `splice(i, 1)`,
 * MongoDB's `$addToSet` and `$pull`, and `Array.prototype.filter` -- and the
 * facts about them that the rest of the model uses.
 */
module Lists {

  /** No element occurs twice: the list reads as a set. */
  predicate NoDup<T(==)>(s: seq<T>) {
    forall i, j :: 0 <= i < j < |s| ==> s[i] != s[j]
  }

  /** `s.indexOf(x)`: the position of the first occurrence of `x`, or -1. */
  function IndexOf<T(==)>(s: seq<T>, x: T): (r: int)
    ensures -1 <= r < |s|
    ensures r == -1 <==> x !in s
    ensures 0 <= r ==> s[r] == x && x !in s[..r]
  {
    if |s| == 0 then -1
    else if s[0] == x then 0
    else
      var k := IndexOf(s[1..], x);
      if k == -1 then -1
      else
        assert s[..k + 1] == [s[0]] + s[1..][..k];
        k + 1
  }

  /** `s.splice(i, 1)`: drop the element at position `i`, keep the rest in order. */
  function RemoveAt<T>(s: seq<T>, i: nat): (r: seq<T>)
    requires i < |s|
    ensures |r| == |s| - 1
    ensures r[..i] == s[..i] && r[i..] == s[i + 1..]
    ensures multiset(r) == multiset(s) - multiset{s[i]}
  {
    assert s == s[..i] + [s[i]] + s[i + 1..];
    s[..i] + s[i + 1..]
  }

  /** MongoDB `$addToSet`: append `x` unless it is already there. */
  function AddToSet<T(==, !new)>(s: seq<T>, x: T): (r: seq<T>)
    ensures x in r
    ensures forall y :: y in r <==> y in s || y == x
    ensures x in s ==> r == s
    ensures x !in s ==> r == s + [x]
    ensures NoDup(s) ==> NoDup(r)
  {
    if x in s then s else s + [x]
  }

  /**
   * MongoDB `$pull` (and `s.filter(y => y !== x)`): every occurrence of `x`
   * removed, every other element kept (with its multiplicity, by `PullCount`).
   */
  function Pull<T(==, !new)>(s: seq<T>, x: T): (r: seq<T>)
    ensures x !in r
    ensures forall y :: y in r <==> y in s && y != x
    ensures NoDup(s) ==> NoDup(r)
  {
    if |s| == 0 then []
    else
      assert s == [s[0]] + s[1..];
      var rest := Pull(s[1..], x);
      if s[0] == x then rest
      else
        assert NoDup(s) ==> NoDup(s[1..]) && s[0] !in s[1..];
        [s[0]] + rest
  }

  /** `$pull` removes every copy of `x` and keeps every other element as often as it occurred. */
  lemma {:induction false} PullCount<T(!new)>(s: seq<T>, x: T)
    ensures multiset(Pull(s, x)) == multiset(s)[x := 0]
  {
    if |s| > 0 {
      PullCount(s[1..], x);
      assert s == [s[0]] + s[1..];
      assert multiset(s) == multiset{s[0]} + multiset(s[1..]);
      if s[0] != x {
        assert Pull(s, x) == [s[0]] + Pull(s[1..], x);
      }
    }
  }

  /** Pulling an absent element changes nothing. */
  lemma {:induction false} PullAbsent<T(!new)>(s: seq<T>, x: T)
    requires x !in s
    ensures Pull(s, x) == s
  {
    if |s| > 0 {
      PullAbsent(s[1..], x);
    }
  }

  /** `$pull` is idempotent. */
  lemma PullIdempotent<T(!new)>(s: seq<T>, x: T)
    ensures Pull(Pull(s, x), x) == Pull(s, x)
  {
    PullAbsent(Pull(s, x), x);
  }

  /** `$pull` keeps the order of what it keeps: it distributes over concatenation. */
  lemma {:induction false} PullAppend<T(!new)>(a: seq<T>, b: seq<T>, x: T)
    ensures Pull(a + b, x) == Pull(a, x) + Pull(b, x)
  {
    if |a| > 0 {
      assert (a + b)[1..] == a[1..] + b;
      PullAppend(a[1..], b, x);
    } else {
      assert a + b == b;
    }
  }

  /** `$addToSet` is idempotent. */
  lemma AddToSetIdempotent<T(!new)>(s: seq<T>, x: T)
    ensures AddToSet(AddToSet(s, x), x) == AddToSet(s, x)
  {
  }

  /**
   * Removing the first occurrence of `x` from a duplicate-free list leaves a
   * duplicate-free list without `x`, holding every other element.
   */
  lemma RemoveFirstFromSet<T(!new)>(s: seq<T>, x: T)
    requires NoDup(s) && x in s
    ensures var r := RemoveAt(s, IndexOf(s, x));
      NoDup(r) && x !in r && forall y :: y in r <==> y in s && y != x
  {
    var i := IndexOf(s, x);
    var r := RemoveAt(s, i);
    forall y
      ensures y in r <==> y in s && y != x
    {
      if y in s && y != x {
        var k :| 0 <= k < |s| && s[k] == y;
        assert k != i;
        if k < i { assert r[k] == y; } else { assert r[k - 1] == y; }
      }
      if y in r {
        var k :| 0 <= k < |r| && r[k] == y;
        if k < i { assert s[k] == y; assert k != i; } else { assert s[k + 1] == y; assert k + 1 != i; }
      }
    }
    forall p, q | 0 <= p < q < |r|
      ensures r[p] != r[q]
    {
      var p' := if p < i then p else p + 1;
      var q' := if q < i then q else q + 1;
      assert r[p] == s[p'] && r[q] == s[q'];
    }
  }

  /** Appending an absent element and then removing its first occurrence restores the list. */
  lemma AddThenRemove<T>(s: seq<T>, x: T)
    requires x !in s
    ensures IndexOf(s + [x], x) == |s|
    ensures RemoveAt(s + [x], IndexOf(s + [x], x)) == s
  {
  }
}
