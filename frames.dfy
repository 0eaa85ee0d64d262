// Row-sequence operations that stand in for the pandas calls the matcher
// and the correction merge use: boolean-mask selection (`df[mask]`) and
// `sort_values(by=...)`.

module Frames {
  import opened Base

  /** `df[mask]`: the rows that satisfy `keep`, in their original order. */
  function Where<T>(s: seq<T>, keep: T -> bool): (r: seq<T>)
    ensures |r| <= |s|
  {
    if s == [] then []
    else Where(s[..|s| - 1], keep) + (if keep(s[|s| - 1]) then [s[|s| - 1]] else [])
  }

  /** The selected rows are exactly the rows that satisfy the mask. */
  lemma {:induction false} WhereMembers<T(!new)>(s: seq<T>, keep: T -> bool)
    ensures forall x :: x in Where(s, keep) <==> x in s && keep(x)
  {
    if s != [] {
      var n := |s| - 1;
      WhereMembers(s[..n], keep);
      assert s == s[..n] + [s[n]];
    }
  }

  /** Row `i` is the only row of `s` that satisfies `keep`. */
  predicate UniqueAt<T>(s: seq<T>, keep: T -> bool, i: int) {
    0 <= i < |s| && keep(s[i]) && forall j :: 0 <= j < |s| && j != i ==> !keep(s[j])
  }

  /**
   * `tmp.shape[0] == 1`: the selection has exactly one row exactly when one
   * row of the frame satisfies the mask, and that row is the one selected.
   */
  lemma {:induction false} WhereSingle<T(!new)>(s: seq<T>, keep: T -> bool)
    ensures |Where(s, keep)| == 1 <==> exists i :: UniqueAt(s, keep, i)
    ensures forall i :: UniqueAt(s, keep, i) ==> Where(s, keep) == [s[i]]
  {
    if s != [] {
      var n := |s| - 1;
      var init := s[..n];
      WhereSingle(init, keep);
      WhereMembers(init, keep);
      if keep(s[n]) {
        if |Where(s, keep)| == 1 {
          assert Where(init, keep) == [];
          assert forall j :: 0 <= j < n ==> !keep(s[j]) by {
            forall j | 0 <= j < n ensures !keep(s[j]) {
              assert init[j] == s[j];
              assert s[j] !in Where(init, keep);
            }
          }
          assert UniqueAt(s, keep, n);
        }
        forall i | UniqueAt(s, keep, i) ensures Where(s, keep) == [s[i]] {
          assert i == n;
          assert forall j :: 0 <= j < n ==> !keep(init[j]);
          WhereNone(init, keep);
        }
      } else {
        assert Where(s, keep) == Where(init, keep);
        forall i | UniqueAt(s, keep, i) ensures UniqueAt(init, keep, i) {
          assert i != n;
        }
        if |Where(s, keep)| == 1 {
          var i :| UniqueAt(init, keep, i);
          assert UniqueAt(s, keep, i);
        }
      }
    }
  }

  lemma {:induction false} WhereNone<T(!new)>(s: seq<T>, keep: T -> bool)
    requires forall j :: 0 <= j < |s| ==> !keep(s[j])
    ensures Where(s, keep) == []
  {
    if s != [] {
      var n := |s| - 1;
      var init := s[..n];
      assert forall j :: 0 <= j < n ==> init[j] == s[j];
      WhereNone(init, keep);
      assert Where(s, keep) == Where(init, keep);
    }
  }

  /** Two complementary masks split the rows: between them they select every row once. */
  lemma {:induction false} WhereSplit<T>(s: seq<T>, p: T -> bool, q: T -> bool)
    requires forall x :: q(x) == !p(x)
    ensures multiset(Where(s, p)) + multiset(Where(s, q)) == multiset(s)
  {
    if s != [] {
      var n := |s| - 1;
      WhereSplit(s[..n], p, q);
      assert s == s[..n] + [s[n]];
    }
  }

  /** `.values[0]` of a selection: the earliest row that satisfies the mask. */
  lemma {:induction false} WhereFirst<T(!new)>(s: seq<T>, keep: T -> bool)
    requires Where(s, keep) != []
    ensures exists i :: 0 <= i < |s| && Where(s, keep)[0] == s[i] && keep(s[i]) &&
                        forall j :: 0 <= j < i ==> !keep(s[j])
  {
    var n := |s| - 1;
    var init := s[..n];
    if Where(init, keep) != [] {
      WhereFirst(init, keep);
      var i :| 0 <= i < n && Where(init, keep)[0] == init[i] && keep(init[i]) &&
               forall j :: 0 <= j < i ==> !keep(init[j]);
      assert forall j :: 0 <= j <= i ==> init[j] == s[j];
    } else {
      WhereMembers(init, keep);
      forall j | 0 <= j < n ensures !keep(s[j]) {
        assert init[j] == s[j];
        assert s[j] !in Where(init, keep);
      }
    }
  }

  /** Two masks that agree on every row select the same rows. */
  lemma {:induction false} WhereSame<T(!new)>(s: seq<T>, p: T -> bool, q: T -> bool)
    requires forall j :: 0 <= j < |s| ==> p(s[j]) == q(s[j])
    ensures Where(s, p) == Where(s, q)
  {
    if s != [] {
      var n := |s| - 1;
      assert forall j :: 0 <= j < n ==> s[..n][j] == s[j];
      WhereSame(s[..n], p, q);
    }
  }

  /** A mask every row satisfies selects the whole frame. */
  lemma {:induction false} WhereAll<T(!new)>(s: seq<T>, keep: T -> bool)
    requires forall j :: 0 <= j < |s| ==> keep(s[j])
    ensures Where(s, keep) == s
  {
    if s != [] {
      var n := |s| - 1;
      assert forall j :: 0 <= j < n ==> s[..n][j] == s[j];
      WhereAll(s[..n], keep);
      assert s[..n] + [s[n]] == s;
    }
  }

  /** The selection of a selection is the selection by both masks. */
  lemma {:induction false} WhereWhere<T(!new)>(s: seq<T>, p: T -> bool, q: T -> bool, pq: T -> bool)
    requires forall x :: pq(x) == (p(x) && q(x))
    ensures Where(Where(s, p), q) == Where(s, pq)
  {
    if s != [] {
      var n := |s| - 1;
      WhereWhere(s[..n], p, q, pq);
      var tail := if p(s[n]) then [s[n]] else [];
      assert Where(s, p) == Where(s[..n], p) + tail;
      WhereAppend(Where(s[..n], p), tail, q);
    }
  }

  lemma {:induction false} WhereAppend<T(!new)>(a: seq<T>, b: seq<T>, keep: T -> bool)
    ensures Where(a + b, keep) == Where(a, keep) + Where(b, keep)
    decreases |b|
  {
    if b != [] {
      var n := |b| - 1;
      assert (a + b)[..|a + b| - 1] == a + b[..n];
      WhereAppend(a, b[..n], keep);
    } else {
      assert a + b == a;
    }
  }

  /** Rows in ascending order of `key`. */
  predicate SortedBy<T>(s: seq<T>, key: T -> int) {
    forall i, j :: 0 <= i < j < |s| ==> key(s[i]) <= key(s[j])
  }

  /** Every row of a permutation of `s` plus `x` keeps a lower bound that `s` and `x` share. */
  lemma LowerBoundKept<T>(s: seq<T>, x: T, rest: seq<T>, key: T -> int, lo: int)
    requires multiset(rest) == multiset(s) + multiset{x}
    requires forall i :: 0 <= i < |s| ==> lo <= key(s[i])
    requires lo <= key(x)
    ensures forall i :: 0 <= i < |rest| ==> lo <= key(rest[i])
  {
    forall i | 0 <= i < |rest| ensures lo <= key(rest[i]) {
      assert rest[i] in multiset(rest);
      if rest[i] != x {
        assert rest[i] in multiset(s);
        var k :| 0 <= k < |s| && s[k] == rest[i];
      }
    }
  }

  function InsertBy<T>(s: seq<T>, x: T, key: T -> int): (r: seq<T>)
    requires SortedBy(s, key)
    ensures SortedBy(r, key)
    ensures multiset(r) == multiset(s) + multiset{x}
  {
    if s == [] then [x]
    else if key(x) <= key(s[0]) then [x] + s
    else
      var rest := InsertBy(s[1..], x, key);
      LowerBoundKept(s[1..], x, rest, key, key(s[0]));
      assert s == [s[0]] + s[1..];
      [s[0]] + rest
  }

  /**
   * `sort_values(by=key)`: a reordering of the rows into ascending key
   * order. The order of rows with equal keys is not specified (pandas'
   * default quicksort is not stable).
   */
  function SortBy<T>(s: seq<T>, key: T -> int): (r: seq<T>)
    ensures SortedBy(r, key)
    ensures multiset(r) == multiset(s)
  {
    if s == [] then []
    else
      var n := |s| - 1;
      assert s == s[..n] + [s[n]];
      InsertBy(SortBy(s[..n], key), s[n], key)
  }

  /** `drop_duplicates()` keeps the first of equal rows, so it keeps the order. */
  lemma {:induction false} DedupAfterSorted<T(!new)>(s: seq<T>, seen: seq<T>, key: T -> int)
    requires forall i, j :: 0 <= i < j < |seen| ==> seen[i] != seen[j]
    requires SortedBy(s, key)
    ensures SortedBy(DedupAfter(s, seen), key)
  {
    if s != [] && s[0] !in seen {
      var rest := DedupAfter(s[1..], seen + [s[0]]);
      DedupAfterSorted(s[1..], seen + [s[0]], key);
      forall y | y in rest ensures key(s[0]) <= key(y) {
        var k :| 1 <= k < |s| && s[k] == y;
      }
    } else if s != [] {
      DedupAfterSorted(s[1..], seen, key);
    }
  }
}
