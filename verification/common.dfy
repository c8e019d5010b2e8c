/** Small helpers shared by every module of the scheduler model. */
module Common {

  /** An optional value; `None` also stands for a read the source leaves undefined. */
  datatype Option<+T> = None | Some(value: T)

  /** `std::min` on two ints (returns the first argument on a tie, which is the same value). */
  function Min(a: int, b: int): int
  {
    if b < a then b else a
  }

  function Max(a: int, b: int): int
  {
    if a < b then b else a
  }

  /** No value occurs twice in `s`: the head is not in the tail, and so on down. */
  predicate NoDup<T(==)>(s: seq<T>)
  {
    s == [] || (s[0] !in s[1..] && NoDup(s[1..]))
  }

  /** The recursive definition agrees with the index-wise one: no two positions hold the same value. */
  lemma {:induction false} NoDupIndexWise<T>(s: seq<T>)
    ensures NoDup(s) <==> forall i, j :: 0 <= i < j < |s| ==> s[i] != s[j]
  {
    if s != [] {
      var t := s[1..];
      NoDupIndexWise(t);
      if NoDup(s) {
        forall i, j | 0 <= i < j < |s| ensures s[i] != s[j] {
          if i == 0 {
            assert s[j] == t[j - 1] && t[j - 1] in t;
          } else {
            assert s[i] == t[i - 1] && s[j] == t[j - 1];
          }
        }
      }
      if forall i, j :: 0 <= i < j < |s| ==> s[i] != s[j] {
        forall i, j | 0 <= i < j < |t| ensures t[i] != t[j] {
          assert t[i] == s[i + 1] && t[j] == s[j + 1];
        }
        forall k | 0 <= k < |t| ensures t[k] != s[0] {
          assert t[k] == s[k + 1];
        }
      }
    }
  }

  /** Every entry of `q` is below `n`: a queue of indices into a table of n records. */
  predicate AllBelow(q: seq<nat>, n: int)
  {
    q == [] || (q[0] < n && AllBelow(q[1..], n))
  }

  /** `AllBelow` holds exactly when every value in the queue is below the bound. */
  lemma {:induction false} AllBelowMembers(q: seq<nat>, n: int)
    ensures AllBelow(q, n) <==> forall x :: x in q ==> x < n
  {
    if q != [] {
      AllBelowMembers(q[1..], n);
      assert q[0] in q;
      assert forall x :: x in q ==> x == q[0] || x in q[1..];
      assert forall x :: x in q[1..] ==> x in q;
    }
  }

  /** The index-wise reading of `AllBelow`. */
  lemma AllBelowIndexWise(q: seq<nat>, n: int)
    requires AllBelow(q, n)
    ensures forall k :: 0 <= k < |q| ==> q[k] < n
  {
    AllBelowMembers(q, n);
    assert forall k :: 0 <= k < |q| ==> q[k] in q;
  }

  /** Strictly increasing sequence of naturals (implies NoDup). */
  predicate Increasing(s: seq<nat>)
  {
    forall i, j :: 0 <= i < j < |s| ==> s[i] < s[j]
  }

  /** The elements of `q` that are not in `xs`, in their original order. */
  function Without(q: seq<nat>, xs: seq<nat>): (r: seq<nat>)
    ensures |r| <= |q|
    ensures forall x :: x in r <==> x in q && x !in xs
    ensures NoDup(q) ==> NoDup(r)
  {
    if q == [] then []
    else
      var rest := Without(q[1..], xs);
      assert q[0] !in q[1..] ==> q[0] !in rest;
      if q[0] in xs then rest else [q[0]] + rest
  }

  /** Concatenating two duplicate-free sequences with no common element gives a duplicate-free one. */
  lemma {:induction false} NoDupAppend<T>(a: seq<T>, b: seq<T>)
    requires NoDup(a) && NoDup(b)
    requires forall x :: x in a ==> x !in b
    ensures NoDup(a + b)
  {
    if a == [] {
      assert a + b == b;
    } else {
      assert forall x :: x in a[1..] ==> x in a;
      NoDupAppend(a[1..], b);
      assert (a + b)[0] == a[0];
      assert (a + b)[1..] == a[1..] + b;
      assert a[0] in a;
    }
  }

  /** Appending a value not yet present keeps a sequence duplicate-free. */
  lemma NoDupAppendOne<T>(a: seq<T>, x: T)
    requires NoDup(a) && x !in a
    ensures NoDup(a + [x])
  {
    assert NoDup([x]) by {
      assert [x][1..] == [];
    }
    NoDupAppend(a, [x]);
  }

  /** A duplicate-free sequence has as many distinct elements as it has entries. */
  lemma {:induction false} NoDupCardinality<T>(s: seq<T>)
    requires NoDup(s)
    ensures |set x | x in s| == |s|
  {
    if s != [] {
      var tail := s[1..];
      NoDupCardinality(tail);
      assert (set x | x in s) == (set x | x in tail) + {s[0]} by {
        forall x ensures x in s <==> x in tail || x == s[0] {
          if x in s {
            var k :| 0 <= k < |s| && s[k] == x;
            if k > 0 { assert tail[k - 1] == x; }
          }
        }
      }
    }
  }

  /** A strictly increasing sequence has no duplicates. */
  lemma {:induction false} IncreasingNoDup(s: seq<nat>)
    requires Increasing(s)
    ensures NoDup(s)
  {
    if s != [] {
      assert Increasing(s[1..]) by {
        forall i, j | 0 <= i < j < |s[1..]| ensures s[1..][i] < s[1..][j] {
          assert s[1..][i] == s[i + 1] && s[1..][j] == s[j + 1];
        }
      }
      IncreasingNoDup(s[1..]);
      forall k | 0 <= k < |s[1..]| ensures s[1..][k] != s[0] {
        assert s[1..][k] == s[k + 1];
      }
    }
  }

  /** Two duplicate-free sequences with the same elements have the same length. */
  lemma SameElementsSameLength<T>(a: seq<T>, b: seq<T>)
    requires NoDup(a) && NoDup(b)
    requires forall x :: x in a <==> x in b
    ensures |a| == |b|
  {
    NoDupCardinality(a);
    NoDupCardinality(b);
    assert (set x | x in a) == (set x | x in b);
  }

  /** Removing `a` and then `b` is removing `a + b` at once. */
  lemma {:induction false} WithoutTwice(q: seq<nat>, a: seq<nat>, b: seq<nat>)
    ensures Without(Without(q, a), b) == Without(q, a + b)
    decreases |q|
  {
    if q != [] {
      WithoutTwice(q[1..], a, b);
      var wa := Without(q, a);
      if q[0] !in a {
        assert wa == [q[0]] + Without(q[1..], a);
        assert wa[1..] == Without(q[1..], a);
      }
    }
  }

  /** Removing nothing keeps the queue as it is. */
  lemma {:induction false} WithoutNothing(q: seq<nat>)
    ensures Without(q, []) == q
    decreases |q|
  {
    if q != [] {
      WithoutNothing(q[1..]);
      assert [q[0]] + q[1..] == q;
    }
  }

  /** A sequence none of whose values occurs in it is empty. */
  lemma NothingInIsEmpty<T>(q: seq<T>)
    requires forall x :: x !in q
    ensures q == []
  {
    HeadIsMember(q);
  }

  lemma HeadIsMember<T>(q: seq<T>)
    ensures q != [] ==> q[0] in q
  {
  }
}
