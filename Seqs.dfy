// The array operations the task list is built from: `filter`, and `splice` used to remove
// one element or to insert one, with the facts the list's lemmas rely on.

module Seqs {

  /** `s.filter(p)`: the elements of `s` that satisfy `p`, in their original order. */
  function Filter<T>(s: seq<T>, p: T -> bool): (r: seq<T>)
    ensures |r| <= |s|
    ensures forall i :: 0 <= i < |r| ==> p(r[i])
  {
    if s == [] then []
    else
      var rest := Filter(s[1..], p);
      if p(s[0]) then [s[0]] + rest else rest
  }

  /** Filtering keeps exactly the elements that pass: everything kept comes from `s`, and
      every element of `s` that passes is kept. */
  lemma {:induction false} FilterMembers<T>(s: seq<T>, p: T -> bool)
    ensures forall x :: x in Filter(s, p) ==> x in s
    ensures forall i :: 0 <= i < |s| && p(s[i]) ==> s[i] in Filter(s, p)
  {
    if s != [] {
      FilterMembers(s[1..], p);
      assert forall i :: 1 <= i < |s| ==> s[i] == s[1..][i - 1];
    }
  }

  /** `a` is `b` with some elements left out: the elements of `a` occur in `b` in the same order. */
  ghost predicate IsSubsequence<T>(a: seq<T>, b: seq<T>)
    decreases |a| + |b|
  {
    if a == [] then true
    else if b == [] then false
    else (a[0] == b[0] && IsSubsequence(a[1..], b[1..])) || IsSubsequence(a, b[1..])
  }

  /** Filtering only leaves elements out; it never reorders them. */
  lemma {:induction false} FilterIsSubsequence<T>(s: seq<T>, p: T -> bool)
    ensures IsSubsequence(Filter(s, p), s)
  {
    if s != [] {
      FilterIsSubsequence(s[1..], p);
      var rest := Filter(s[1..], p);
      if p(s[0]) {
        assert Filter(s, p) == [s[0]] + rest;
        assert ([s[0]] + rest)[1..] == rest;
      } else {
        assert Filter(s, p) == rest;
        if rest != [] {
          assert IsSubsequence(rest, s[1..]);
        }
      }
    }
  }

  /** When every element passes, filtering returns the sequence unchanged. */
  lemma {:induction false} FilterKeepsAll<T>(s: seq<T>, p: T -> bool)
    requires forall i :: 0 <= i < |s| ==> p(s[i])
    ensures Filter(s, p) == s
  {
    if s != [] {
      FilterKeepsAll(s[1..], p);
      assert [s[0]] + s[1..] == s;
    }
  }

  /** Filtering twice by the same test is filtering once. */
  lemma FilterIdempotent<T>(s: seq<T>, p: T -> bool)
    ensures Filter(Filter(s, p), p) == Filter(s, p)
  {
    FilterKeepsAll(Filter(s, p), p);
  }

  /** Filtering a pair whose first element fails and second passes keeps the second alone. */
  lemma FilterPair<T>(x: T, y: T, p: T -> bool)
    requires !p(x) && p(y)
    ensures Filter([x, y], p) == [y]
  {
    assert [x, y][1..] == [y] && [y][1..] == [];
  }

  /** `s.splice(i, 1)` on a copy: `s` without its element at index `i`. */
  function RemoveAt<T>(s: seq<T>, i: nat): (r: seq<T>)
    requires i < |s|
    ensures |r| == |s| - 1
    ensures forall k :: 0 <= k < i ==> r[k] == s[k]
    ensures forall k :: i <= k < |r| ==> r[k] == s[k + 1]
  {
    s[..i] + s[i + 1..]
  }

  /** `s.splice(i, 0, x)` on a copy: `x` inserted so that it sits at index `i`. */
  function InsertAt<T>(s: seq<T>, i: nat, x: T): (r: seq<T>)
    requires i <= |s|
    ensures |r| == |s| + 1 && r[i] == x
    ensures forall k :: 0 <= k < i ==> r[k] == s[k]
    ensures forall k :: i < k < |r| ==> r[k] == s[k - 1]
  {
    s[..i] + [x] + s[i..]
  }

  /** Inserting at `i` and then removing at `i` gives back the original. */
  lemma RemoveInsertInverse<T>(s: seq<T>, i: nat, x: T)
    requires i <= |s|
    ensures RemoveAt(InsertAt(s, i, x), i) == s
  {
  }

  /** Removing at `i` and putting the same element back at `i` gives back the original. */
  lemma InsertRemoveInverse<T>(s: seq<T>, i: nat)
    requires i < |s|
    ensures InsertAt(RemoveAt(s, i), i, s[i]) == s
  {
  }

  /** Removing one element and inserting it elsewhere keeps the same multiset of elements. */
  lemma RemoveInsertPermutes<T>(s: seq<T>, i: nat, j: nat)
    requires i < |s| && j < |s|
    ensures multiset(InsertAt(RemoveAt(s, i), j, s[i])) == multiset(s)
  {
    var q := RemoveAt(s, i);
    assert s == s[..i] + [s[i]] + s[i + 1..];
    assert q == s[..i] + s[i + 1..];
    assert InsertAt(q, j, s[i]) == q[..j] + [s[i]] + q[j..];
    assert q == q[..j] + q[j..];
    calc {
      multiset(InsertAt(q, j, s[i]));
      multiset(q[..j]) + multiset([s[i]]) + multiset(q[j..]);
      multiset(q) + multiset([s[i]]);
      multiset(s[..i]) + multiset(s[i + 1..]) + multiset([s[i]]);
      multiset(s);
    }
  }

  /** When exactly the element at `k` fails the test, filtering is removing at `k`. */
  lemma {:induction false} FilterDropsOne<T>(s: seq<T>, p: T -> bool, k: nat)
    requires k < |s| && !p(s[k])
    requires forall i :: 0 <= i < |s| && i != k ==> p(s[i])
    ensures Filter(s, p) == RemoveAt(s, k)
  {
    var tail := s[1..];
    if k == 0 {
      FilterKeepsAll(tail, p);
    } else {
      FilterDropsOne(tail, p, k - 1);
      assert RemoveAt(s, k) == [s[0]] + RemoveAt(tail, k - 1);
    }
  }
}
