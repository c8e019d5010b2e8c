/**
 * The `std::sort` call of main.cpp over the process records, with the
 * comparator `!(*a < *b)` built on all_pcb.h's inverted `operator<`.
 *
 * `std::sort` does not say which algorithm it uses; it promises a permutation
 * of its input that is ordered by the comparator. The model sorts by insertion
 * and proves that, when the priorities are pairwise distinct, any ordered
 * permutation is this one, so the algorithm does not matter.
 */
module PrioritySort {
  import PR = ProcessRecord
  import V = ProcessRecordVariant

  /** The comparator main.cpp passes to `std::sort`. */
  predicate Comp(a: PR.Pcb, b: PR.Pcb)
  {
    !V.Before(a, b)
  }

  /**
   * Under the variant operator the comparator is "strictly lower priority
   * value", a strict weak order as `std::sort` requires.
   */
  lemma CompIsLowerPriority(a: PR.Pcb, b: PR.Pcb, c: PR.Pcb)
    ensures Comp(a, b) <==> a.priority < b.priority
    ensures !Comp(a, a)
    ensures Comp(a, b) && Comp(b, c) ==> Comp(a, c)
    ensures !Comp(a, b) && !Comp(b, a) && !Comp(b, c) && !Comp(c, b) ==> !Comp(a, c) && !Comp(c, a)
  {
  }

  /** No later record compares before an earlier one. */
  predicate Sorted(s: seq<PR.Pcb>)
  {
    forall i, j :: 0 <= i < j < |s| ==> !Comp(s[j], s[i])
  }

  /** No two records share a priority. */
  predicate DistinctPriorities(s: seq<PR.Pcb>)
  {
    forall i, j :: 0 <= i < j < |s| ==> s[i].priority != s[j].priority
  }

  /** Places one record into an ordered sequence: after every record of lower priority value. */
  function Insert(x: PR.Pcb, s: seq<PR.Pcb>): (r: seq<PR.Pcb>)
    requires Sorted(s)
    ensures Sorted(r)
    ensures multiset(r) == multiset(s) + multiset{x}
  {
    if s == [] then [x]
    else if Comp(s[0], x) then
      var rest := Insert(x, s[1..]);
      assert s == [s[0]] + s[1..];
      HeadBeforeAll(s[0], x, s[1..], rest);
      [s[0]] + rest
    else
      [x] + s
  }

  /** A record no later than `x` and than every record of `t` is no later than any record of a permutation of `t` plus `x`. */
  lemma HeadBeforeAll(h: PR.Pcb, x: PR.Pcb, t: seq<PR.Pcb>, rest: seq<PR.Pcb>)
    requires !Comp(x, h)
    requires forall k :: 0 <= k < |t| ==> !Comp(t[k], h)
    requires multiset(rest) == multiset(t) + multiset{x}
    ensures forall k :: 0 <= k < |rest| ==> !Comp(rest[k], h)
  {
    forall k | 0 <= k < |rest| ensures !Comp(rest[k], h) {
      assert rest[k] in multiset(rest);
      if rest[k] != x {
        assert rest[k] in multiset(t);
        var m :| 0 <= m < |t| && t[m] == rest[k];
      }
    }
  }

  /** The ordered permutation of the records, by priority value, lowest first. */
  function Sort(s: seq<PR.Pcb>): (r: seq<PR.Pcb>)
    ensures Sorted(r)
    ensures multiset(r) == multiset(s)
  {
    if s == [] then []
    else
      assert s == [s[0]] + s[1..];
      Insert(s[0], Sort(s[1..]))
  }

  /** Records of equal priority are the same record: priority alone decides the order. */
  predicate PriorityDetermines(s: seq<PR.Pcb>)
  {
    forall x, y :: x in s && y in s && x.priority == y.priority ==> x == y
  }

  /** Ordered sequences holding the same records, where priority decides the record, are equal. */
  lemma {:induction false} SortedUnique(a: seq<PR.Pcb>, b: seq<PR.Pcb>)
    requires Sorted(a) && Sorted(b)
    requires multiset(a) == multiset(b)
    requires PriorityDetermines(a)
    ensures a == b
    decreases |a|
  {
    assert |a| == |multiset(a)| == |multiset(b)| == |b|;
    if a != [] {
      assert a[0] in multiset(b);
      var k :| 0 <= k < |b| && b[k] == a[0];
      assert b[0] in multiset(a);
      var m :| 0 <= m < |a| && a[m] == b[0];
      assert b[0].priority <= b[k].priority;
      assert a[0].priority <= a[m].priority;
      assert a[0] == b[0] by {
        assert a[0] in a && a[m] in a;
      }
      TailsAgree(a, b);
      SortedTail(a);
      SortedTail(b);
      assert PriorityDetermines(a[1..]) by {
        assert forall x :: x in a[1..] ==> x in a;
      }
      SortedUnique(a[1..], b[1..]);
    }
  }

  /** Equal multisets with equal heads have equal multisets of tails. */
  lemma TailsAgree(a: seq<PR.Pcb>, b: seq<PR.Pcb>)
    requires a != [] && b != [] && a[0] == b[0]
    requires multiset(a) == multiset(b)
    ensures multiset(a[1..]) == multiset(b[1..])
  {
    assert a == [a[0]] + a[1..];
    assert b == [b[0]] + b[1..];
    assert multiset(a[1..]) == multiset(a) - multiset{a[0]};
    assert multiset(b[1..]) == multiset(b) - multiset{b[0]};
  }

  /** The tail of an ordered sequence is ordered. */
  lemma SortedTail(a: seq<PR.Pcb>)
    requires a != [] && Sorted(a)
    ensures Sorted(a[1..])
  {
    forall i, j | 0 <= i < j < |a[1..]| ensures !Comp(a[1..][j], a[1..][i]) {
      assert a[1..][i] == a[i + 1] && a[1..][j] == a[j + 1];
    }
  }

  /** Pairwise distinct priorities mean priority decides the record. */
  lemma DistinctDetermines(s: seq<PR.Pcb>)
    requires DistinctPriorities(s)
    ensures PriorityDetermines(s)
  {
    forall x, y | x in s && y in s && x.priority == y.priority ensures x == y {
      var i :| 0 <= i < |s| && s[i] == x;
      var j :| 0 <= j < |s| && s[j] == y;
      assert !(i < j) && !(j < i);
    }
  }

  /**
   * Whatever ordered permutation `std::sort` returns for records of pairwise
   * distinct priorities, it is the one the model computes.
   */
  lemma {:induction false} AnySortAgrees(s: seq<PR.Pcb>, out: seq<PR.Pcb>)
    requires Sorted(out) && multiset(out) == multiset(s)
    requires DistinctPriorities(out)
    ensures Sort(s) == out
  {
    DistinctDetermines(out);
    SortedUnique(out, Sort(s));
  }
}
