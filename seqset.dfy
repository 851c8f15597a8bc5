/**
 * A duplicate-free sequence used as an ordered set.
 *
 * Two parts of the system share this shape: a JavaScript `Set`, whose
 * `add`, `delete` and `forEach` keep insertion order, and Firestore's
 * `arrayUnion` of a single value, which appends the value to an array
 * field unless an equal element is already there.
 */
module SeqSet {

  /** No element occurs twice. */
  predicate Distinct<T(==)>(s: seq<T>) {
    forall i, j :: 0 <= i < j < |s| ==> s[i] != s[j]
  }

  /** `Set.prototype.add` and single-value `arrayUnion`: append `x` unless it is present. */
  function Add<T(==)>(s: seq<T>, x: T): (r: seq<T>)
    ensures x in r
    ensures forall i :: 0 <= i < |r| ==> r[i] in s || r[i] == x
    ensures forall i :: 0 <= i < |s| ==> s[i] in r
    ensures |r| == if x in s then |s| else |s| + 1
    ensures r[..|s|] == s
  {
    if x in s then s else s + [x]
  }

  /** `Set.prototype.delete`: drop every occurrence of `x`, keeping the order of the rest. */
  function Remove<T(==)>(s: seq<T>, x: T): (r: seq<T>)
    ensures x !in r
    ensures forall i :: 0 <= i < |r| ==> r[i] in s && r[i] != x
    ensures forall i :: 0 <= i < |s| && s[i] != x ==> s[i] in r
    ensures |r| <= |s|
    ensures x !in s ==> r == s
    decreases |s|
  {
    if s == [] then []
    else if s[0] == x then Remove(s[1..], x)
    else [s[0]] + Remove(s[1..], x)
  }
  /** Removal keeps the other elements in their order: it distributes over concatenation. */
  lemma {:induction false} RemoveAppend<T>(a: seq<T>, b: seq<T>, x: T)
    ensures Remove(a + b, x) == Remove(a, x) + Remove(b, x)
    decreases |a|
  {
    if a == [] {
      assert a + b == b;
    } else {
      assert (a + b)[0] == a[0];
      assert (a + b)[1..] == a[1..] + b;
      RemoveAppend(a[1..], b, x);
    }
  }


  /** Adding keeps a duplicate-free sequence duplicate-free. */
  lemma AddKeepsDistinct<T>(s: seq<T>, x: T)
    requires Distinct(s)
    ensures Distinct(Add(s, x))
  {
  }

  /** Adding a value that is already there changes nothing; adding twice equals adding once. */
  lemma AddIdempotent<T>(s: seq<T>, x: T)
    ensures Add(Add(s, x), x) == Add(s, x)
  {
  }

  /** After adding `x` to a duplicate-free sequence, `x` occurs exactly once. */
  lemma {:induction false} AddOccursOnce<T>(s: seq<T>, x: T)
    requires Distinct(s)
    ensures multiset(Add(s, x))[x] == 1
  {
    if x in s {
      var i :| 0 <= i < |s| && s[i] == x;
      OccursOnceAt(s, i);
    } else {
      assert multiset(s)[x] == 0;
      assert multiset(s + [x]) == multiset(s) + multiset{x};
    }
  }

  /** In a duplicate-free sequence the element at `i` occurs exactly once. */
  lemma {:induction false} OccursOnceAt<T>(s: seq<T>, i: nat)
    requires Distinct(s) && i < |s|
    ensures multiset(s)[s[i]] == 1
    decreases |s|
  {
    assert s == [s[0]] + s[1..];
    assert multiset(s) == multiset{s[0]} + multiset(s[1..]);
    if i == 0 {
      assert s[0] !in s[1..];
      assert multiset(s[1..])[s[0]] == 0;
    } else {
      assert Distinct(s[1..]);
      OccursOnceAt(s[1..], i - 1);
      assert s[1..][i - 1] == s[i];
      assert s[0] != s[i];
    }
  }

  /** Removing keeps a duplicate-free sequence duplicate-free. */
  lemma {:induction false} RemoveKeepsDistinct<T>(s: seq<T>, x: T)
    requires Distinct(s)
    ensures Distinct(Remove(s, x))
    decreases |s|
  {
    if s != [] {
      assert Distinct(s[1..]);
      RemoveKeepsDistinct(s[1..], x);
      if s[0] != x {
        var t := Remove(s[1..], x);
        assert s[0] !in s[1..];
        assert s[0] !in t;
        ConsKeepsDistinct(s[0], t);
        assert [s[0]] + t == Remove(s, x);
      }
    }
  }

  /** Putting an absent element in front keeps a sequence free of duplicates. */
  lemma ConsKeepsDistinct<T>(y: T, t: seq<T>)
    requires Distinct(t) && y !in t
    ensures Distinct([y] + t)
  {
    var r := [y] + t;
    forall i, j | 0 <= i < j < |r| ensures r[i] != r[j] {
      assert r[j] == t[j - 1];
      if i > 0 {
        assert r[i] == t[i - 1];
      }
    }
  }

  /** Removing from a duplicate-free sequence drops exactly one element when `x` is present. */
  lemma {:induction false} RemovePresent<T>(s: seq<T>, x: T)
    requires Distinct(s) && x in s
    ensures |Remove(s, x)| == |s| - 1
    decreases |s|
  {
    if s[0] == x {
      assert x !in s[1..];
    } else {
      assert Distinct(s[1..]);
      RemovePresent(s[1..], x);
    }
  }

  /** Removing undoes adding a value that was absent. */
  lemma {:induction false} RemoveAfterAdd<T>(s: seq<T>, x: T)
    requires x !in s
    ensures Remove(Add(s, x), x) == s
    decreases |s|
  {
    if s == [] {
      assert Add(s, x) == [x];
    } else {
      assert Add(s, x) == [s[0]] + (s[1..] + [x]);
      assert (s + [x])[1..] == s[1..] + [x];
      RemoveAfterAdd(s[1..], x);
    }
  }
}
