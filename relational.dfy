/**
 * The table operations both pipelines are made of, on sequences of rows:
 * boolean-mask filtering, `groupby` keys with `sum`/`first`/`count`
 * aggregates, the left `merge`, `sort_values`, `head`, the share of a
 * total and pandas' `_x`/`_y` suffixing of colliding column names.
 */
module Relational {
  import opened Wrappers
  import opened Text

  // ---------------------------------------------------------------- order

  /** `a` is `b` with some rows left out and the rest kept in order. */
  ghost predicate IsSubsequence<T(!new)>(a: seq<T>, b: seq<T>)
    decreases |b|
  {
    a == [] || (b != [] && ((a[0] == b[0] && IsSubsequence(a[1..], b[1..])) || IsSubsequence(a, b[1..])))
  }

  lemma {:induction false} SubsequenceTransitive<T(!new)>(a: seq<T>, b: seq<T>, c: seq<T>)
    requires IsSubsequence(a, b) && IsSubsequence(b, c)
    ensures IsSubsequence(a, c)
    decreases |c|
  {
    if a != [] {
      if b[0] == c[0] && IsSubsequence(b[1..], c[1..]) {
        if a[0] == b[0] && IsSubsequence(a[1..], b[1..]) {
          SubsequenceTransitive(a[1..], b[1..], c[1..]);
        } else {
          SubsequenceTransitive(a, b[1..], c[1..]);
        }
      } else {
        SubsequenceTransitive(a, b, c[1..]);
      }
    }
  }

  lemma {:induction false} SubsequenceReflexive<T(!new)>(a: seq<T>)
    ensures IsSubsequence(a, a)
    decreases |a|
  {
    if a != [] {
      SubsequenceReflexive(a[1..]);
    }
  }

  // -------------------------------------------------------------- filters

  /** `df[mask]`: the rows satisfying `p`, in their order. */
  function Filter<T(!new)>(s: seq<T>, p: T -> bool): (r: seq<T>)
    ensures |r| <= |s|
    ensures forall i :: 0 <= i < |r| ==> p(r[i])
    ensures forall x :: x in r <==> x in s && p(x)
    ensures IsSubsequence(r, s)
  {
    if s == [] then []
    else if p(s[0]) then [s[0]] + Filter(s[1..], p)
    else Filter(s[1..], p)
  }

  /** A kept row is kept as many times as it occurs; a dropped one not at all. */
  lemma {:induction false} FilterCounts<T(!new)>(s: seq<T>, p: T -> bool, x: T)
    ensures multiset(Filter(s, p))[x] == if p(x) then multiset(s)[x] else 0
  {
    if s != [] {
      assert s == [s[0]] + s[1..];
      FilterCounts(s[1..], p, x);
    }
  }

  lemma {:induction false} FilterAppend<T(!new)>(a: seq<T>, b: seq<T>, p: T -> bool)
    ensures Filter(a + b, p) == Filter(a, p) + Filter(b, p)
  {
    if a == [] {
      assert a + b == b;
    } else {
      assert (a + b)[1..] == a[1..] + b;
      FilterAppend(a[1..], b, p);
    }
  }

  /** A filter whose predicate holds of every row keeps the table as it is. */
  lemma {:induction false} FilterAll<T(!new)>(s: seq<T>, p: T -> bool)
    requires forall i :: 0 <= i < |s| ==> p(s[i])
    ensures Filter(s, p) == s
  {
    if s != [] {
      FilterAll(s[1..], p);
    }
  }

  ghost predicate NoDuplicates<K(!new)>(s: seq<K>) {
    forall i, j :: 0 <= i < j < |s| ==> s[i] != s[j]
  }

  /** The distinct values of `s`, each at its first appearance. */
  function Distinct<K(==,!new)>(s: seq<K>): (r: seq<K>)
    ensures forall k :: k in r <==> k in s
    ensures NoDuplicates(r)
    ensures |r| <= |s|
  {
    if s == [] then []
    else
      var d := Distinct(s[..|s| - 1]);
      assert forall k :: k in s <==> k in s[..|s| - 1] || k == s[|s| - 1];
      if s[|s| - 1] in d then d else d + [s[|s| - 1]]
  }

  /** The present keys of the rows, in row order (a `groupby` drops missing keys). */
  function PresentKeys<T(!new), K(!new)>(s: seq<T>, key: T -> Option<K>): (r: seq<K>)
    ensures forall k :: k in r <==> exists i :: 0 <= i < |s| && key(s[i]) == Some(k)
  {
    if s == [] then []
    else
      var rest := PresentKeys(s[1..], key);
      assert forall i :: 1 <= i < |s| ==> s[i] == s[1..][i - 1];
      match key(s[0])
      case Some(k) => [k] + rest
      case None => rest
  }

  /** The groups of a `groupby`: one per distinct present key. */
  function GroupKeys<T(!new), K(==,!new)>(s: seq<T>, key: T -> Option<K>): (r: seq<K>)
    ensures NoDuplicates(r)
    ensures forall k :: k in r <==> exists i :: 0 <= i < |s| && key(s[i]) == Some(k)
  {
    Distinct(PresentKeys(s, key))
  }

  /** The rows of group `k`. */
  function Group<T(!new), K(==,!new)>(s: seq<T>, key: T -> Option<K>, k: K): (r: seq<T>)
    ensures forall i :: 0 <= i < |r| ==> key(r[i]) == Some(k)
    ensures forall x :: x in r <==> x in s && key(x) == Some(k)
  {
    Filter(s, x => key(x) == Some(k))
  }

  /** A group is built row by row: the first row joins it exactly when its key is the group's. */
  lemma GroupCons<T(!new), K(!new)>(s: seq<T>, key: T -> Option<K>, k: K)
    requires s != []
    ensures Group(s, key, k) == (if key(s[0]) == Some(k) then [s[0]] else []) + Group(s[1..], key, k)
  {
  }

  // ----------------------------------------------------------- aggregates

  /** A pandas `sum`: missing values are skipped, and an empty or all-missing sum is 0. */
  function SumOf<T(!new)>(s: seq<T>, f: T -> Option<real>): real {
    if s == [] then 0.0 else f(s[0]).GetOr(0.0) + SumOf(s[1..], f)
  }

  lemma {:induction false} SumOfAppend<T(!new)>(a: seq<T>, b: seq<T>, f: T -> Option<real>)
    ensures SumOf(a + b, f) == SumOf(a, f) + SumOf(b, f)
  {
    if a == [] {
      assert a + b == b;
    } else {
      assert (a + b)[1..] == a[1..] + b;
      SumOfAppend(a[1..], b, f);
    }
  }

  /** A missing value contributes nothing to a sum, wherever it stands. */
  lemma SumOfSkipsMissing<T(!new)>(a: seq<T>, x: T, b: seq<T>, f: T -> Option<real>)
    requires f(x).None?
    ensures SumOf(a + [x] + b, f) == SumOf(a + b, f)
  {
    SumOfAppend(a + [x], b, f);
    SumOfAppend(a, [x], f);
    SumOfAppend(a, b, f);
  }

  /** A sum of values that are all positive, over some rows, is positive. */
  lemma {:induction false} SumOfPositive<T(!new)>(s: seq<T>, f: T -> Option<real>)
    requires s != []
    requires forall i :: 0 <= i < |s| ==> f(s[i]).Some? && f(s[i]).value > 0.0
    ensures SumOf(s, f) > 0.0
  {
    if |s| > 1 {
      SumOfPositive(s[1..], f);
    }
  }

  /** Splitting the rows by two disjoint predicates splits their sum. */
  lemma {:induction false} SumOfFilterSplit<T(!new)>(s: seq<T>, f: T -> Option<real>, p: T -> bool, q: T -> bool, both: T -> bool)
    requires forall i :: 0 <= i < |s| ==> (both(s[i]) <==> p(s[i]) || q(s[i]))
    requires forall i :: 0 <= i < |s| ==> !(p(s[i]) && q(s[i]))
    ensures SumOf(Filter(s, both), f) == SumOf(Filter(s, p), f) + SumOf(Filter(s, q), f)
  {
    if s != [] {
      SumOfFilterSplit(s[1..], f, p, q, both);
    }
  }

  /** The sum of the per-group sums over the keys `ks`. */
  ghost function SumOverKeys<T(!new), K(!new)>(s: seq<T>, key: T -> Option<K>, f: T -> Option<real>, ks: seq<K>): real {
    if ks == [] then 0.0
    else SumOverKeys(s, key, f, ks[..|ks| - 1]) + SumOf(Group(s, key, ks[|ks| - 1]), f)
  }

  lemma {:induction false} GroupSumsCover<T(!new), K(!new)>(s: seq<T>, key: T -> Option<K>, f: T -> Option<real>, ks: seq<K>)
    requires NoDuplicates(ks)
    ensures SumOverKeys(s, key, f, ks) == SumOf(Filter(s, x => key(x).Some? && key(x).value in ks), f)
  {
    if ks == [] {
      assert Filter(s, x => key(x).Some? && key(x).value in ks) == [];
    } else {
      var init, k := ks[..|ks| - 1], ks[|ks| - 1];
      assert NoDuplicates(init);
      GroupSumsCover(s, key, f, init);
      forall i | 0 <= i < |s|
        ensures (key(s[i]).Some? && key(s[i]).value in ks) <==> (key(s[i]).Some? && key(s[i]).value in init) || key(s[i]) == Some(k)
      {
        assert forall j :: j in ks <==> j in init || j == k;
      }
      SumOfFilterSplit(s, f, x => key(x).Some? && key(x).value in init, x => key(x) == Some(k),
        x => key(x).Some? && key(x).value in ks);
    }
  }

  /**
   * A `groupby(...).sum()` conserves the total of all rows whose key is
   * present (`present` tells those rows apart).
   */
  lemma GroupSumsConserveTotal<T(!new), K(!new)>(s: seq<T>, key: T -> Option<K>, f: T -> Option<real>, present: T -> bool)
    requires forall i :: 0 <= i < |s| ==> (present(s[i]) <==> key(s[i]).Some?)
    ensures SumOverKeys(s, key, f, GroupKeys(s, key)) == SumOf(Filter(s, present), f)
  {
    var ks := GroupKeys(s, key);
    GroupSumsCover(s, key, f, ks);
    FilterSame(s, x => key(x).Some? && key(x).value in ks, present);
  }

  /** Filtering twice keeps the rows both predicates accept. */
  lemma {:induction false} FilterFilter<T(!new)>(s: seq<T>, p: T -> bool, q: T -> bool, both: T -> bool)
    requires forall x :: both(x) == (p(x) && q(x))
    ensures Filter(Filter(s, p), q) == Filter(s, both)
  {
    if s != [] {
      FilterFilter(s[1..], p, q, both);
      if p(s[0]) {
        assert Filter(s, p) == [s[0]] + Filter(s[1..], p);
        assert ([s[0]] + Filter(s[1..], p))[1..] == Filter(s[1..], p);
      }
    }
  }

  /** A predicate no row meets filters everything out. */
  lemma {:induction false} FilterNone<T(!new)>(s: seq<T>, p: T -> bool)
    requires forall i :: 0 <= i < |s| ==> !p(s[i])
    ensures Filter(s, p) == []
  {
    if s != [] {
      FilterNone(s[1..], p);
    }
  }

  lemma {:induction false} FilterSame<T(!new)>(s: seq<T>, p: T -> bool, q: T -> bool)
    requires forall i :: 0 <= i < |s| ==> (p(s[i]) <==> q(s[i]))
    ensures Filter(s, p) == Filter(s, q)
  {
    if s != [] {
      FilterSame(s[1..], p, q);
    }
  }

  /** A `first` aggregate: the first present value of the rows, if any. */
  function FirstPresent<T(!new), V(!new)>(s: seq<T>, f: T -> Option<V>): (r: Option<V>)
    ensures r.None? <==> forall i :: 0 <= i < |s| ==> f(s[i]).None?
    ensures r.Some? ==> exists i :: 0 <= i < |s| && f(s[i]) == r && (forall j :: 0 <= j < i ==> f(s[j]).None?)
  {
    if s == [] then None
    else if f(s[0]).Some? then f(s[0])
    else
      var r := FirstPresent(s[1..], f);
      assert forall i :: 1 <= i < |s| ==> s[i] == s[1..][i - 1];
      assert r.Some? ==> exists i :: 0 <= i < |s| && f(s[i]) == r && (forall j :: 0 <= j < i ==> f(s[j]).None?) by {
        if r.Some? {
          var i :| 0 <= i < |s[1..]| && f(s[1..][i]) == r && forall j :: 0 <= j < i ==> f(s[1..][j]).None?;
          assert f(s[i + 1]) == r && forall j :: 0 <= j < i + 1 ==> f(s[j]).None?;
        }
      }
      r
  }

  /** `first` within a group is missing exactly when no row of the group has a value. */
  lemma {:induction false} FirstOfGroupMissing<T(!new), K(!new), V(!new)>(s: seq<T>, key: T -> Option<K>, k: K, f: T -> Option<V>)
    ensures FirstPresent(Group(s, key, k), f).None? <==>
      forall i :: 0 <= i < |s| && key(s[i]) == Some(k) ==> f(s[i]).None?
  {
    var g := Group(s, key, k);
    forall i | 0 <= i < |s| && key(s[i]) == Some(k) ensures s[i] in g {
      assert s[i] in s;
    }
    forall x | x in g ensures exists i :: 0 <= i < |s| && key(s[i]) == Some(k) && s[i] == x {
      var i :| 0 <= i < |s| && s[i] == x;
    }
  }

  /** `first` within a group: the value of the group's first row (in table order) that has one. */
  lemma {:induction false} FirstOfGroup<T(!new), K(!new), V(!new)>(s: seq<T>, key: T -> Option<K>, k: K, f: T -> Option<V>)
    requires FirstPresent(Group(s, key, k), f).Some?
    ensures exists i :: (0 <= i < |s| && key(s[i]) == Some(k) && f(s[i]) == FirstPresent(Group(s, key, k), f)
                         && forall j :: 0 <= j < i && key(s[j]) == Some(k) ==> f(s[j]).None?)
  {
    var t := s[1..];
    GroupCons(s, key, k);
    var rest := Group(t, key, k);
    var c := FirstPresent(Group(s, key, k), f);
    if key(s[0]) == Some(k) && f(s[0]).Some? {
      assert Group(s, key, k)[0] == s[0];
      assert key(s[0]) == Some(k) && f(s[0]) == c;
    } else {
      assert c == FirstPresent(rest, f) by {
        if key(s[0]) == Some(k) {
          assert Group(s, key, k) == [s[0]] + rest;
          assert ([s[0]] + rest)[1..] == rest;
        } else {
          assert Group(s, key, k) == rest;
        }
      }
      FirstOfGroup(t, key, k, f);
      var i :| 0 <= i < |t| && key(t[i]) == Some(k) && f(t[i]) == c
        && forall j :: 0 <= j < i && key(t[j]) == Some(k) ==> f(t[j]).None?;
      assert s[i + 1] == t[i];
      forall j | 0 <= j < i + 1 && key(s[j]) == Some(k) ensures f(s[j]).None? {
        if j > 0 {
          assert s[j] == t[j - 1];
        }
      }
      assert key(s[i + 1]) == Some(k) && f(s[i + 1]) == c;
    }
  }

  // ----------------------------------------------------------- left merge

  /** The rows of one left row's block in a left merge: one per match, or one with nulls. */
  function JoinBlock<L(!new), R(!new)>(l: L, matches: seq<R>): (r: seq<(L, Option<R>)>)
    ensures |r| == if matches == [] then 1 else |matches|
    ensures forall i :: 0 <= i < |r| ==> r[i].0 == l
    ensures matches == [] ==> r == [(l, None)]
    ensures matches != [] ==> forall i :: 0 <= i < |r| ==> r[i].1 == Some(matches[i])
  {
    if matches == [] then [(l, None)] else seq(|matches|, i requires 0 <= i < |matches| => (l, Some(matches[i])))
  }

  /** The right rows whose key equals the left row's (missing keys match each other). */
  function Matches<L(!new), R(!new), K(==,!new)>(l: L, right: seq<R>, lk: L -> K, rk: R -> K): (r: seq<R>)
    ensures forall y :: y in r <==> y in right && rk(y) == lk(l)
  {
    Filter(right, y => rk(y) == lk(l))
  }

  /** `left.merge(right, left_on=..., right_on=..., how='left')`, in left order. */
  function LeftJoin<L(!new), R(!new), K(==,!new)>(left: seq<L>, right: seq<R>, lk: L -> K, rk: R -> K): (r: seq<(L, Option<R>)>)
    ensures |r| >= |left|
    ensures forall i :: 0 <= i < |r| ==> r[i].0 in left
    ensures forall i :: 0 <= i < |r| && r[i].1.Some? ==> r[i].1.value in right && rk(r[i].1.value) == lk(r[i].0)
    ensures forall i :: 0 <= i < |r| && r[i].1.None? ==> forall y :: y in right ==> rk(y) != lk(r[i].0)
  {
    if left == [] then []
    else
      var rest := LeftJoin(left[1..], right, lk, rk);
      JoinCons(left, right, lk, rk, rest);
      JoinBlock(left[0], Matches(left[0], right, lk, rk)) + rest
  }

  /** The first left row's block followed by the merge of the other rows is a merge of all of them. */
  lemma JoinCons<L(!new), R(!new), K(!new)>(left: seq<L>, right: seq<R>, lk: L -> K, rk: R -> K, rest: seq<(L, Option<R>)>)
    requires left != [] && |rest| >= |left| - 1
    requires forall i :: 0 <= i < |rest| ==> rest[i].0 in left[1..]
    requires forall i :: 0 <= i < |rest| && rest[i].1.Some? ==> rest[i].1.value in right && rk(rest[i].1.value) == lk(rest[i].0)
    requires forall i :: 0 <= i < |rest| && rest[i].1.None? ==> forall y :: y in right ==> rk(y) != lk(rest[i].0)
    ensures var r := JoinBlock(left[0], Matches(left[0], right, lk, rk)) + rest;
      && |r| >= |left|
      && (forall i :: 0 <= i < |r| ==> r[i].0 in left)
      && (forall i :: 0 <= i < |r| && r[i].1.Some? ==> r[i].1.value in right && rk(r[i].1.value) == lk(r[i].0))
      && (forall i :: 0 <= i < |r| && r[i].1.None? ==> forall y :: y in right ==> rk(y) != lk(r[i].0))
  {
    var block := JoinBlock(left[0], Matches(left[0], right, lk, rk));
    assert forall i :: 0 <= i < |rest| ==> rest[i].0 in left;
    assert forall i :: |block| <= i < |block + rest| ==> (block + rest)[i] == rest[i - |block|];
    assert forall i :: 0 <= i < |block| ==> (block + rest)[i] == block[i];
  }

  lemma {:induction false} LeftJoinAppend<L(!new), R(!new), K(!new)>(a: seq<L>, b: seq<L>, right: seq<R>, lk: L -> K, rk: R -> K)
    ensures LeftJoin(a + b, right, lk, rk) == LeftJoin(a, right, lk, rk) + LeftJoin(b, right, lk, rk)
  {
    if a == [] {
      assert a + b == b;
    } else {
      var ab := a + b;
      assert ab[0] == a[0] && ab[1..] == a[1..] + b;
      var block := JoinBlock(a[0], Matches(a[0], right, lk, rk));
      var x, y := LeftJoin(a[1..], right, lk, rk), LeftJoin(b, right, lk, rk);
      LeftJoinAppend(a[1..], b, right, lk, rk);
      assert LeftJoin(ab, right, lk, rk) == block + (x + y);
      assert LeftJoin(a, right, lk, rk) == block + x;
      assert block + (x + y) == (block + x) + y;
    }
  }

  /**
   * A left row with k matches fills exactly its block: k rows, one per
   * match and in right order, or one row with nulls when k is 0.
   */
  lemma LeftJoinOne<L(!new), R(!new), K(!new)>(l: L, right: seq<R>, lk: L -> K, rk: R -> K)
    ensures LeftJoin([l], right, lk, rk) == JoinBlock(l, Matches(l, right, lk, rk))
  {
    assert [l][1..] == [];
  }

  /** Every left row is kept: it is paired with each of its matches, or with nulls. */
  lemma {:induction false} LeftJoinKeepsRows<L(!new), R(!new), K(!new)>(left: seq<L>, right: seq<R>, lk: L -> K, rk: R -> K, i: nat)
    requires i < |left|
    ensures exists o :: (left[i], o) in LeftJoin(left, right, lk, rk)
    ensures forall y :: y in right && rk(y) == lk(left[i]) ==> (left[i], Some(y)) in LeftJoin(left, right, lk, rk)
  {
    var ms := Matches(left[0], right, lk, rk);
    var block := JoinBlock(left[0], ms);
    if i == 0 {
      assert block[0] in LeftJoin(left, right, lk, rk);
      forall y | y in right && rk(y) == lk(left[i]) ensures (left[i], Some(y)) in LeftJoin(left, right, lk, rk) {
        assert y in ms;
        var j :| 0 <= j < |ms| && ms[j] == y;
        assert block[j] == (left[0], Some(y));
        assert block[j] in LeftJoin(left, right, lk, rk);
      }
    } else {
      LeftJoinKeepsRows(left[1..], right, lk, rk, i - 1);
      assert left[1..][i - 1] == left[i];
      var o :| (left[i], o) in LeftJoin(left[1..], right, lk, rk);
      assert (left[i], o) in LeftJoin(left, right, lk, rk);
    }
  }

  /** When no left row has more than one match, a left merge keeps the row count. */
  lemma {:induction false} LeftJoinKeepsCount<L(!new), R(!new), K(!new)>(left: seq<L>, right: seq<R>, lk: L -> K, rk: R -> K)
    requires forall i :: 0 <= i < |left| ==> |Matches(left[i], right, lk, rk)| <= 1
    ensures |LeftJoin(left, right, lk, rk)| == |left|
  {
    if left != [] {
      assert forall i :: 1 <= i < |left| ==> left[i] == left[1..][i - 1];
      LeftJoinKeepsCount(left[1..], right, lk, rk);
    }
  }

  /** A right table with distinct keys gives every left row at most one match. */
  lemma {:induction false} DistinctKeysMatchOnce<L(!new), R(!new), K(!new)>(l: L, right: seq<R>, lk: L -> K, rk: R -> K)
    requires forall i, j :: 0 <= i < j < |right| ==> rk(right[i]) != rk(right[j])
    ensures |Matches(l, right, lk, rk)| <= 1
  {
    if right != [] {
      DistinctKeysMatchOnce(l, right[1..], lk, rk);
      assert forall j :: 0 <= j < |right[1..]| ==> right[1..][j] == right[j + 1];
    }
  }

  /** When every left row has exactly one match, the merge pairs each left row with it, in order. */
  lemma {:induction false} LeftJoinSingleMatches<L(!new), R(!new), K(!new)>(left: seq<L>, right: seq<R>, lk: L -> K, rk: R -> K)
    requires forall i :: 0 <= i < |left| ==> |Matches(left[i], right, lk, rk)| == 1
    ensures |LeftJoin(left, right, lk, rk)| == |left|
    ensures forall i :: 0 <= i < |left| ==>
      LeftJoin(left, right, lk, rk)[i] == (left[i], Some(Matches(left[i], right, lk, rk)[0]))
  {
    if left != [] {
      assert forall i :: 1 <= i < |left| ==> left[i] == left[1..][i - 1];
      LeftJoinSingleMatches(left[1..], right, lk, rk);
      var ms := Matches(left[0], right, lk, rk);
      var block := JoinBlock(left[0], ms);
      var rest := LeftJoin(left[1..], right, lk, rk);
      var all := LeftJoin(left, right, lk, rk);
      assert all == block + rest;
      assert block == [(left[0], Some(ms[0]))];
      forall i | 0 <= i < |left|
        ensures all[i] == (left[i], Some(Matches(left[i], right, lk, rk)[0]))
      {
        if i > 0 {
          assert all[i] == rest[i - 1];
        }
      }
    }
  }

  /** In a right table with distinct keys, the row carrying the left row's key is its only match. */
  lemma UniqueMatch<L(!new), R(!new), K(!new)>(l: L, right: seq<R>, lk: L -> K, rk: R -> K, j: nat)
    requires forall a, b :: 0 <= a < b < |right| ==> rk(right[a]) != rk(right[b])
    requires j < |right| && rk(right[j]) == lk(l)
    ensures Matches(l, right, lk, rk) == [right[j]]
  {
    var ms := Matches(l, right, lk, rk);
    DistinctKeysMatchOnce(l, right, lk, rk);
    assert right[j] in ms;
    assert ms[0] in ms;
    var k :| 0 <= k < |right| && right[k] == ms[0];
    assert k == j;
  }

  /** A key that is in the right table exactly once gives the left row a single paired row. */
  lemma LeftJoinUniqueMatch<L(!new), R(!new), K(!new)>(l: L, right: seq<R>, lk: L -> K, rk: R -> K, y: R)
    requires Matches(l, right, lk, rk) == [y]
    ensures LeftJoin([l], right, lk, rk) == [(l, Some(y))]
  {
    LeftJoinOne(l, right, lk, rk);
  }

  // --------------------------------------------------------------- sorting

  /**
   * Row order of `sort_values`: a missing key sorts last in either direction
   * (`na_position='last'`).
   */
  predicate Before(a: Option<real>, b: Option<real>, descending: bool) {
    b.None? || (a.Some? && (if descending then a.value >= b.value else a.value <= b.value))
  }

  predicate SortedBy<T(!new)>(s: seq<T>, key: T -> Option<real>, descending: bool) {
    forall i, j :: 0 <= i < j < |s| ==> Before(key(s[i]), key(s[j]), descending)
  }

  function InsertBy<T(!new)>(x: T, s: seq<T>, key: T -> Option<real>, descending: bool): (r: seq<T>)
    requires SortedBy(s, key, descending)
    ensures SortedBy(r, key, descending)
    ensures multiset(r) == multiset(s) + multiset{x}
  {
    if s == [] then [x]
    else if Before(key(x), key(s[0]), descending) then
      assert forall j :: 0 <= j < |s| ==> Before(key(s[0]), key(s[j]), descending) || j == 0;
      [x] + s
    else
      assert s == [s[0]] + s[1..];
      var t := InsertBy(x, s[1..], key, descending);
      assert forall y :: y in t ==> y in s[1..] || y == x by {
        forall y | y in t ensures y in s[1..] || y == x {
          assert y in multiset(t);
        }
      }
      assert forall j :: 0 <= j < |t| ==> Before(key(s[0]), key(t[j]), descending) by {
        forall j | 0 <= j < |t| ensures Before(key(s[0]), key(t[j]), descending) {
          assert t[j] in t;
          if t[j] != x {
            var k :| 0 <= k < |s[1..]| && s[1..][k] == t[j];
            assert s[k + 1] == t[j];
          }
        }
      }
      [s[0]] + t
  }

  /** `sort_values(by, ascending=not descending)`: ordered by the key, and a permutation of the rows. */
  function SortBy<T(!new)>(s: seq<T>, key: T -> Option<real>, descending: bool): (r: seq<T>)
    ensures SortedBy(r, key, descending)
    ensures multiset(r) == multiset(s)
    ensures |r| == |s|
  {
    if s == [] then []
    else
      assert s == [s[0]] + s[1..];
      InsertBy(s[0], SortBy(s[1..], key, descending), key, descending)
  }

  /** `df.head(n)`, a negative `n` dropping the last `-n` rows. */
  function Head<T(!new)>(s: seq<T>, n: int): (r: seq<T>)
    ensures 0 <= n ==> |r| == if n <= |s| then n else |s|
    ensures n < 0 ==> |r| == if |s| + n >= 0 then |s| + n else 0
    ensures r == s[..|r|]
  {
    if n >= 0 then (if n <= |s| then s[..n] else s)
    else if |s| + n >= 0 then s[..|s| + n] else []
  }

  // ---------------------------------------------------------------- shares

  function SumReals(s: seq<real>): real {
    if s == [] then 0.0 else s[0] + SumReals(s[1..])
  }

  lemma {:induction false} SumRealsAppend(a: seq<real>, b: seq<real>)
    ensures SumReals(a + b) == SumReals(a) + SumReals(b)
  {
    if a == [] {
      assert a + b == b;
    } else {
      assert (a + b)[1..] == a[1..] + b;
      SumRealsAppend(a[1..], b);
    }
  }

  /** A sum is the sum of all but the last element, plus the last. */
  lemma SumRealsLast(s: seq<real>)
    requires |s| > 0
    ensures SumReals(s) == SumReals(s[..|s| - 1]) + s[|s| - 1]
  {
    assert s == s[..|s| - 1] + [s[|s| - 1]];
    SumRealsAppend(s[..|s| - 1], [s[|s| - 1]]);
    assert SumReals([s[|s| - 1]]) == s[|s| - 1];
  }

  /** Each value as a percentage of the total `t`, unrounded. */
  function Percentages(s: seq<real>, t: real): (r: seq<real>)
    requires t != 0.0
    ensures |r| == |s|
    ensures forall i :: 0 <= i < |s| ==> r[i] == s[i] / t * 100.0
  {
    if s == [] then [] else [s[0] / t * 100.0] + Percentages(s[1..], t)
  }

  lemma {:induction false} PercentagesSum(s: seq<real>, t: real)
    requires t != 0.0
    ensures SumReals(Percentages(s, t)) == SumReals(s) / t * 100.0
  {
    if s != [] {
      PercentagesSum(s[1..], t);
      assert Percentages(s, t)[1..] == Percentages(s[1..], t);
      calc {
        SumReals(Percentages(s, t));
        s[0] / t * 100.0 + SumReals(s[1..]) / t * 100.0;
        { DivideAdd(s[0], SumReals(s[1..]), t); }
        (s[0] + SumReals(s[1..])) / t * 100.0;
      }
    }
  }

  lemma DivideAdd(a: real, b: real, t: real)
    requires t != 0.0
    ensures a / t * 100.0 + b / t * 100.0 == (a + b) / t * 100.0
  {
  }

  /** Before rounding, the shares of a positive total add up to 100. */
  lemma SharesSumTo100(s: seq<real>)
    requires SumReals(s) > 0.0
    ensures SumReals(Percentages(s, SumReals(s))) == 100.0
  {
    var t := SumReals(s);
    PercentagesSum(s, t);
    assert t / t == 1.0;
  }

  /** `Series.round(2)` on the exact value: half to even, to the hundredth. */
  function Round2(x: real): (r: real)
    ensures -0.005 <= r - x <= 0.005
    ensures (r * 100.0).Floor as real == r * 100.0
  {
    var k := RoundHalfEven(x * 100.0);
    assert k as real / 100.0 * 100.0 == k as real;
    k as real / 100.0
  }

  // ---------------------------------------------------------------- schema

  /**
   * The columns of a merge: a column on one side only keeps its name, a
   * column of both sides that is a shared `on` key appears once, and any
   * other column of both sides becomes `<name>_x` and `<name>_y`.
   */
  function MergeColumns(left: set<string>, right: set<string>, on: set<string>): (cols: set<string>)
    ensures forall c :: c in left && c !in right ==> c in cols
    ensures forall c :: c in right && c !in left ==> c in cols
    ensures forall c :: c in left && c in right && c in on ==> c in cols
    ensures forall c :: c in left && c in right && c !in on ==> c + "_x" in cols && c + "_y" in cols
  {
    var shared := left * right - on;
    var xs := set c | c in shared :: c + "_x";
    var ys := set c | c in shared :: c + "_y";
    assert forall c :: c in shared ==> c + "_x" in xs && c + "_y" in ys;
    (left - shared) + (right - shared) + xs + ys
  }

  /** A column name that does not end in "x" or "y" is no merge suffix of another. */
  lemma NotSuffixed(c: string)
    requires |c| >= 1 && c[|c| - 1] != 'x' && c[|c| - 1] != 'y'
    ensures forall d: string :: c != d + "_x" && c != d + "_y"
  {
    forall d: string ensures c[|c| - 1] != (d + "_x")[|d| + 1] && c[|c| - 1] != (d + "_y")[|d| + 1] { }
  }

  /**
   * A name that is no merge suffix is in the merged columns exactly when
   * one side has it and, if both do, it is a shared `on` key.
   */
  lemma MergeKeeps(left: set<string>, right: set<string>, on: set<string>, c: string)
    requires |c| >= 1 && c[|c| - 1] != 'x' && c[|c| - 1] != 'y'
    ensures c in MergeColumns(left, right, on) <==> (c in left || c in right) && (c in left && c in right ==> c in on)
  {
    NotSuffixed(c);
  }

  /** `DataFrame.rename(columns=plan)`: a column the plan does not name keeps its name. */
  function Renamed(cols: set<string>, plan: map<string, string>): (r: set<string>)
    ensures forall c :: c in cols && c !in plan ==> c in r
    ensures forall c :: c in cols && c in plan ==> plan[c] in r
    ensures forall c :: c in r ==> (c in cols && c !in plan) || exists d :: d in cols && d in plan && plan[d] == c
  {
    set c | c in cols :: if c in plan then plan[c] else c
  }
}
