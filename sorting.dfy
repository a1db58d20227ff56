/** `ORDER BY` as the model evaluates it: a stable insertion sort under a
    comparator `before(a, b)` ("a may come first"), and the pagination of
    `LIMIT`/`OFFSET`. */
module Sorting {
  import Seqs

  /** `before` is total and transitive, so it orders any sequence. */
  ghost predicate TotalPreorder<T(!new)>(before: (T, T) -> bool) {
    && (forall a, b :: before(a, b) || before(b, a))
    && (forall a, b, c :: before(a, b) && before(b, c) ==> before(a, c))
  }

  /** Every element may come before every later one. */
  ghost predicate Sorted<T>(s: seq<T>, before: (T, T) -> bool) {
    forall i, j :: 0 <= i < j < |s| ==> before(s[i], s[j])
  }

  /** Puts `x` in front of the first element it may precede. */
  function Insert<T(!new)>(x: T, t: seq<T>, before: (T, T) -> bool): (r: seq<T>)
    requires TotalPreorder(before)
    requires Sorted(t, before)
    ensures multiset(r) == multiset(t) + multiset{x}
    ensures Sorted(r, before)
    decreases |t|
  {
    if |t| == 0 || before(x, t[0]) then
      PrecedesAll(x, t, before);
      ConsSorted(x, t, before);
      [x] + t
    else
      var rest := Insert(x, t[1..], before);
      assert t == [t[0]] + t[1..];
      HeadPrecedesInsertion(t, x, rest, before);
      ConsSorted(t[0], rest, before);
      [t[0]] + rest
  }

  /** An element that may precede the head of a sorted sequence may precede
      all of it. */
  lemma PrecedesAll<T(!new)>(x: T, t: seq<T>, before: (T, T) -> bool)
    requires TotalPreorder(before) && Sorted(t, before)
    requires |t| == 0 || before(x, t[0])
    ensures forall j :: 0 <= j < |t| ==> before(x, t[j])
  {
    forall j | 0 < j < |t| ensures before(x, t[j]) {
      assert before(t[0], t[j]);
    }
  }

  /** The head of a sorted `t` that `x` may not precede may precede
      everything in `x` inserted into the tail. */
  lemma HeadPrecedesInsertion<T(!new)>(t: seq<T>, x: T, rest: seq<T>, before: (T, T) -> bool)
    requires TotalPreorder(before) && Sorted(t, before)
    requires |t| > 0 && !before(x, t[0])
    requires multiset(rest) == multiset(t[1..]) + multiset{x}
    ensures forall j :: 0 <= j < |rest| ==> before(t[0], rest[j])
  {
    forall j | 0 <= j < |rest| ensures before(t[0], rest[j]) {
      var y := rest[j];
      assert y in multiset(rest);
      if y != x {
        assert y in multiset(t[1..]);
        var k :| 0 <= k < |t[1..]| && t[1..][k] == y;
        assert t[k + 1] == y;
      }
    }
  }

  /** A head that may precede every element of a sorted sequence keeps it
      sorted. */
  lemma ConsSorted<T>(h: T, s: seq<T>, before: (T, T) -> bool)
    requires Sorted(s, before)
    requires forall j :: 0 <= j < |s| ==> before(h, s[j])
    ensures Sorted([h] + s, before)
  {
    var r := [h] + s;
    forall i, j | 0 <= i < j < |r| ensures before(r[i], r[j]) {
      assert r[j] == s[j - 1];
      if i > 0 {
        assert r[i] == s[i - 1];
      }
    }
  }

  /** Stable insertion sort: a sorted permutation of `s`. */
  function Sort<T(!new)>(s: seq<T>, before: (T, T) -> bool): (r: seq<T>)
    requires TotalPreorder(before)
    ensures multiset(r) == multiset(s)
    ensures Sorted(r, before)
    decreases |s|
  {
    if |s| == 0 then []
    else
      assert s == [s[0]] + s[1..];
      Insert(s[0], Sort(s[1..], before), before)
  }

  /** `OFFSET offset LIMIT limit`: skip `offset` rows, keep at most `limit`. */
  function Page<T>(s: seq<T>, limit: nat, offset: nat): (r: seq<T>)
    ensures |r| <= limit
    ensures offset <= |s| ==> |r| == if |s| - offset < limit then |s| - offset else limit
    ensures offset >= |s| ==> r == []
    ensures forall i :: 0 <= i < |r| ==> r[i] == s[offset + i]
  {
    var skipped := if offset <= |s| then s[offset..] else [];
    if limit <= |skipped| then skipped[..limit] else skipped
  }

  /** A page from the start at least as long as the sequence is all of it. */
  lemma PageWhole<T>(s: seq<T>, limit: nat)
    requires limit >= |s|
    ensures Page(s, limit, 0) == s
  {
    assert s[0..] == s;
  }

  /** A page of a sorted sequence is sorted. */
  lemma PageSorted<T>(s: seq<T>, limit: nat, offset: nat, before: (T, T) -> bool)
    requires Sorted(s, before)
    ensures Sorted(Page(s, limit, offset), before)
  {
    var r := Page(s, limit, offset);
    forall i, j | 0 <= i < j < |r| ensures before(r[i], r[j]) {
      assert r[i] == s[offset + i] && r[j] == s[offset + j];
    }
  }

  /** Leaving elements out of a sorted sequence keeps it sorted. */
  lemma {:induction false} SubsequenceSorted<T>(t: seq<T>, s: seq<T>, before: (T, T) -> bool)
    requires Seqs.IsSubsequence(t, s) && Sorted(s, before)
    ensures Sorted(t, before)
    decreases |s|
  {
    if |t| > 0 {
      assert Sorted(s[1..], before);
      if t[0] == s[0] {
        SubsequenceSorted(t[1..], s[1..], before);
        Seqs.SubsequenceMembers(t[1..], s[1..]);
        forall i, j | 0 <= i < j < |t| ensures before(t[i], t[j]) {
          if i == 0 {
            assert t[j] in t[1..];
            var m :| 0 <= m < |s[1..]| && s[1..][m] == t[j];
            assert s[m + 1] == t[j];
          } else {
            assert t[1..][i - 1] == t[i] && t[1..][j - 1] == t[j];
          }
        }
      } else {
        SubsequenceSorted(t, s[1..], before);
      }
    }
  }
}
