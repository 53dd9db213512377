/**
 * The SQL the read queries of src/database.js rely on, over a table given as a sequence
 * of rows: GROUP BY as the distinct keys with their member rows, the COUNT, SUM and AVG
 * aggregates, HAVING as a filter on groups, ORDER BY as a sort on a real-valued rank
 * (largest first) and LIMIT as a prefix.
 *
 * SQL leaves open the order of the groups before ORDER BY and the order of ties after
 * it. The definitions below fix one, and no contract depends on which.
 */
module Grouping {

  ghost predicate Distinct<T>(s: seq<T>) {
    forall i, j :: 0 <= i < j < |s| ==> s[i] != s[j]
  }

  /** The rows of the group with key `k`, in table order. */
  function Matching<R(!new), K(==)>(rows: seq<R>, key: R -> K, k: K): (m: seq<R>)
    ensures |m| <= |rows|
    ensures forall r :: r in m <==> r in rows && key(r) == k
  {
    if rows == [] then []
    else
      assert rows == [rows[0]] + rows[1..];
      (if key(rows[0]) == k then [rows[0]] else []) + Matching(rows[1..], key, k)
  }

  /** A group holds every copy of each row with its key and no copy of any other row, so
      COUNT(*) and AVG see duplicates as the table does. */
  lemma {:induction false} MatchingMultiset<R(!new), K>(rows: seq<R>, key: R -> K, k: K)
    ensures forall r :: multiset(Matching(rows, key, k))[r] == if key(r) == k then multiset(rows)[r] else 0
  {
    if rows != [] {
      MatchingMultiset(rows[1..], key, k);
      assert rows == [rows[0]] + rows[1..];
      assert multiset(rows) == multiset{rows[0]} + multiset(rows[1..]);
      var head := if key(rows[0]) == k then [rows[0]] else [];
      assert Matching(rows, key, k) == head + Matching(rows[1..], key, k);
      assert multiset(Matching(rows, key, k)) == multiset(head) + multiset(Matching(rows[1..], key, k));
    }
  }

  /** The rows whose key is one of `ks`. */
  function Among<R(!new), K(==)>(rows: seq<R>, key: R -> K, ks: seq<K>): (a: seq<R>)
    ensures |a| <= |rows|
    ensures forall r :: r in a <==> r in rows && key(r) in ks
  {
    if rows == [] then []
    else
      assert rows == [rows[0]] + rows[1..];
      (if key(rows[0]) in ks then [rows[0]] else []) + Among(rows[1..], key, ks)
  }

  /** The distinct keys of the table: one GROUP BY group each. */
  function KeysOf<R(!new), K(==)>(rows: seq<R>, key: R -> K): (ks: seq<K>)
    ensures Distinct(ks)
    ensures forall r :: r in rows ==> key(r) in ks
    ensures forall k :: k in ks ==> Matching(rows, key, k) != []
  {
    if rows == [] then []
    else
      var rest := KeysOf(rows[1..], key);
      assert rows == [rows[0]] + rows[1..];
      assert Matching(rows, key, key(rows[0])) != [];
      if key(rows[0]) in rest then rest else [key(rows[0])] + rest
  }

  /** SUM(score). */
  function ScoreSum<R>(rows: seq<R>, score: R -> real): real {
    if rows == [] then 0.0 else score(rows[0]) + ScoreSum(rows[1..], score)
  }

  /** AVG(score); a group is never empty, and the empty case gives 0. */
  function Mean<R>(rows: seq<R>, score: R -> real): (avg: real)
    ensures avg * (|rows| as real) == ScoreSum(rows, score)
  {
    if rows == [] then 0.0 else ScoreSum(rows, score) / (|rows| as real)
  }

  /** One result row of an aggregate query: the group's key, AVG(score) and COUNT(*). */
  datatype Stat<K> = Stat(key: K, avgScore: real, count: nat)

  function StatOf<R(!new), K(==)>(rows: seq<R>, key: R -> K, score: R -> real, k: K): Stat<K> {
    var m := Matching(rows, key, k);
    Stat(k, Mean(m, score), |m|)
  }

  function Aggregate<R(!new), K(==)>(rows: seq<R>, key: R -> K, score: R -> real, ks: seq<K>): (stats: seq<Stat<K>>)
    ensures |stats| == |ks|
    ensures forall i :: 0 <= i < |ks| ==> stats[i] == StatOf(rows, key, score, ks[i])
  {
    if ks == [] then [] else [StatOf(rows, key, score, ks[0])] + Aggregate(rows, key, score, ks[1..])
  }

  /** The sum of the COUNT column. */
  function CountSum<K>(stats: seq<Stat<K>>): nat {
    if stats == [] then 0 else stats[0].count + CountSum(stats[1..])
  }

  /** The sum of AVG(score) * COUNT(*) over the result rows. */
  function WeightedSum<K>(stats: seq<Stat<K>>): real {
    if stats == [] then 0.0 else Weight(stats[0]) + WeightedSum(stats[1..])
  }

  /** AVG(score) * COUNT(*) of one result row. */
  function Weight<K>(s: Stat<K>): real {
    s.avgScore * (s.count as real)
  }

  lemma {:induction false} ScoreSumCons<R>(r: R, rows: seq<R>, score: R -> real)
    ensures ScoreSum([r] + rows, score) == score(r) + ScoreSum(rows, score)
  {
    assert ([r] + rows)[1..] == rows;
  }

  /** Splitting the rows of keys `[k] + ks` into those of `k` and those of `ks`. */
  lemma {:induction false} AmongCons<R(!new), K>(rows: seq<R>, key: R -> K, score: R -> real, k: K, ks: seq<K>)
    requires k !in ks
    ensures |Among(rows, key, [k] + ks)| == |Matching(rows, key, k)| + |Among(rows, key, ks)|
    ensures ScoreSum(Among(rows, key, [k] + ks), score)
         == ScoreSum(Matching(rows, key, k), score) + ScoreSum(Among(rows, key, ks), score)
  {
    if rows != [] {
      var r := rows[0];
      AmongCons(rows[1..], key, score, k, ks);
      var a := Among(rows[1..], key, [k] + ks);
      var m := Matching(rows[1..], key, k);
      var b := Among(rows[1..], key, ks);
      if key(r) == k {
        ScoreSumCons(r, a, score);
        ScoreSumCons(r, m, score);
        assert Among(rows, key, [k] + ks) == [r] + a;
        assert Matching(rows, key, k) == [r] + m;
        assert Among(rows, key, ks) == b;
      } else if key(r) in ks {
        ScoreSumCons(r, a, score);
        ScoreSumCons(r, b, score);
        assert Among(rows, key, [k] + ks) == [r] + a;
        assert Matching(rows, key, k) == m;
        assert Among(rows, key, ks) == [r] + b;
      } else {
        assert Among(rows, key, [k] + ks) == a;
        assert Matching(rows, key, k) == m;
        assert Among(rows, key, ks) == b;
      }
    }
  }

  lemma {:induction false} AmongAll<R(!new), K>(rows: seq<R>, key: R -> K, ks: seq<K>)
    requires forall r :: r in rows ==> key(r) in ks
    ensures Among(rows, key, ks) == rows
  {
    if rows != [] {
      assert rows == [rows[0]] + rows[1..];
      AmongAll(rows[1..], key, ks);
    }
  }

  /** Over distinct keys, the counts add up to the rows of those keys, and so do the
      count-weighted averages to their scores. */
  lemma {:induction false} AggregateSums<R(!new), K>(rows: seq<R>, key: R -> K, score: R -> real, ks: seq<K>)
    requires Distinct(ks)
    ensures CountSum(Aggregate(rows, key, score, ks)) == |Among(rows, key, ks)|
    ensures WeightedSum(Aggregate(rows, key, score, ks)) == ScoreSum(Among(rows, key, ks), score)
  {
    if ks == [] {
      AmongNoKeys(rows, key);
    } else {
      DistinctTail(ks);
      AggregateSums(rows, key, score, ks[1..]);
      AmongCons(rows, key, score, ks[0], ks[1..]);
      AggregateCons(rows, key, score, ks);
    }
  }

  lemma {:induction false} AmongNoKeys<R(!new), K>(rows: seq<R>, key: R -> K)
    ensures Among(rows, key, []) == []
  {
    if rows != [] {
      AmongNoKeys(rows[1..], key);
    }
  }

  lemma AggregateCons<R(!new), K>(rows: seq<R>, key: R -> K, score: R -> real, ks: seq<K>)
    requires ks != []
    ensures CountSum(Aggregate(rows, key, score, ks))
         == |Matching(rows, key, ks[0])| + CountSum(Aggregate(rows, key, score, ks[1..]))
    ensures WeightedSum(Aggregate(rows, key, score, ks))
         == ScoreSum(Matching(rows, key, ks[0]), score) + WeightedSum(Aggregate(rows, key, score, ks[1..]))
    ensures [ks[0]] + ks[1..] == ks
  {
    var stats := Aggregate(rows, key, score, ks);
    var m := Matching(rows, key, ks[0]);
    assert stats == [Stat(ks[0], Mean(m, score), |m|)] + Aggregate(rows, key, score, ks[1..]);
    assert stats[1..] == Aggregate(rows, key, score, ks[1..]);
    StatWeight(rows, key, score, ks[0]);
  }

  /** A group's AVG times its COUNT is its SUM. */
  lemma StatWeight<R(!new), K>(rows: seq<R>, key: R -> K, score: R -> real, k: K)
    ensures Weight(StatOf(rows, key, score, k)) == ScoreSum(Matching(rows, key, k), score)
  {
    var m := Matching(rows, key, k);
    var avg := Mean(m, score);
    var n := |m| as real;
    assert avg * n == ScoreSum(m, score);
    assert StatOf(rows, key, score, k) == Stat(k, avg, |m|);
    assert Weight(Stat(k, avg, |m|)) == avg * n;
  }

  lemma DistinctTail<T>(s: seq<T>)
    requires s != [] && Distinct(s)
    ensures Distinct(s[1..]) && s[0] !in s[1..]
  {
    forall i, j | 0 <= i < j < |s| - 1 ensures s[1..][i] != s[1..][j] {
      assert s[1..][i] == s[i + 1] && s[1..][j] == s[j + 1];
    }
    forall i | 0 <= i < |s| - 1 ensures s[1..][i] != s[0] {
      assert s[1..][i] == s[i + 1];
    }
  }

  lemma DistinctCons<T>(a: T, t: seq<T>)
    requires Distinct(t) && a !in t
    ensures Distinct([a] + t)
  {
    forall i, j | 0 <= i < j < |t| + 1 ensures ([a] + t)[i] != ([a] + t)[j] {
      assert ([a] + t)[j] == t[j - 1];
      if i > 0 {
        assert ([a] + t)[i] == t[i - 1];
      }
    }
  }

  /** ORDER BY rank DESC. */
  ghost predicate Descending<T>(s: seq<T>, rank: T -> real) {
    forall i, j :: 0 <= i < j < |s| ==> rank(s[i]) >= rank(s[j])
  }

  function Insert<T(!new)>(x: T, s: seq<T>, rank: T -> real): (r: seq<T>)
    requires Descending(s, rank)
    ensures |r| == |s| + 1
    ensures forall y :: y in r <==> y == x || y in s
    ensures multiset(r) == multiset(s) + multiset{x}
    ensures Descending(r, rank)
  {
    if s == [] || rank(x) >= rank(s[0]) then
      DescendingCons(x, s, rank);
      [x] + s
    else
      assert s == [s[0]] + s[1..];
      var t := Insert(x, s[1..], rank);
      DescendingCons(s[0], t, rank);
      [s[0]] + t
  }

  lemma DescendingCons<T>(a: T, t: seq<T>, rank: T -> real)
    requires Descending(t, rank)
    requires forall y :: y in t ==> rank(y) <= rank(a)
    ensures Descending([a] + t, rank)
  {
    forall i, j | 0 <= i < j < |t| + 1 ensures rank(([a] + t)[i]) >= rank(([a] + t)[j]) {
      assert ([a] + t)[j] == t[j - 1];
      if i > 0 {
        assert ([a] + t)[i] == t[i - 1];
      }
    }
  }

  /** A sort on the rank, largest first: a permutation of the input in that order. */
  function SortBy<T(!new)>(s: seq<T>, rank: T -> real): (r: seq<T>)
    ensures |r| == |s|
    ensures forall y :: y in r <==> y in s
    ensures multiset(r) == multiset(s)
    ensures Descending(r, rank)
  {
    if s == [] then []
    else
      assert s == [s[0]] + s[1..];
      Insert(s[0], SortBy(s[1..], rank), rank)
  }

  lemma {:induction false} InsertDistinct<T(!new)>(x: T, s: seq<T>, rank: T -> real)
    requires Descending(s, rank) && Distinct(s) && x !in s
    ensures Distinct(Insert(x, s, rank))
  {
    if s != [] && rank(x) < rank(s[0]) {
      DistinctTail(s);
      InsertDistinct(x, s[1..], rank);
      DistinctCons(s[0], Insert(x, s[1..], rank));
    } else {
      DistinctCons(x, s);
    }
  }

  /** Sorting distinct keys keeps them distinct. */
  lemma {:induction false} SortDistinct<T(!new)>(s: seq<T>, rank: T -> real)
    requires Distinct(s)
    ensures Distinct(SortBy(s, rank))
  {
    if s != [] {
      DistinctTail(s);
      SortDistinct(s[1..], rank);
      InsertDistinct(s[0], SortBy(s[1..], rank), rank);
    }
  }

  /** HAVING: the groups that satisfy `keep`, in their order. */
  function KeepWhere<T(!new)>(s: seq<T>, keep: T -> bool): (r: seq<T>)
    ensures |r| <= |s|
    ensures forall y :: y in r <==> y in s && keep(y)
  {
    if s == [] then []
    else
      assert s == [s[0]] + s[1..];
      (if keep(s[0]) then [s[0]] else []) + KeepWhere(s[1..], keep)
  }

  lemma {:induction false} KeepWhereDistinct<T(!new)>(s: seq<T>, keep: T -> bool)
    requires Distinct(s)
    ensures Distinct(KeepWhere(s, keep))
  {
    if s != [] {
      DistinctTail(s);
      KeepWhereDistinct(s[1..], keep);
      if keep(s[0]) {
        DistinctCons(s[0], KeepWhere(s[1..], keep));
      } else {
        assert KeepWhere(s, keep) == KeepWhere(s[1..], keep);
      }
    }
  }

  /** A filter keeps every copy of what it keeps and none of the rest. */
  lemma {:induction false} KeepWhereMultiset<T(!new)>(s: seq<T>, keep: T -> bool)
    ensures forall y :: multiset(KeepWhere(s, keep))[y] == if keep(y) then multiset(s)[y] else 0
  {
    if s != [] {
      KeepWhereMultiset(s[1..], keep);
      assert s == [s[0]] + s[1..];
      assert multiset(s) == multiset{s[0]} + multiset(s[1..]);
      var head := if keep(s[0]) then [s[0]] else [];
      assert KeepWhere(s, keep) == head + KeepWhere(s[1..], keep);
      assert multiset(KeepWhere(s, keep)) == multiset(head) + multiset(KeepWhere(s[1..], keep));
    }
  }

  lemma {:induction false} KeepWhereAppend<T(!new)>(s: seq<T>, x: T, keep: T -> bool)
    ensures KeepWhere(s + [x], keep) == KeepWhere(s, keep) + (if keep(x) then [x] else [])
  {
    if s == [] {
      assert s + [x] == [x];
    } else {
      var t := s + [x];
      assert t[0] == s[0] && t[1..] == s[1..] + [x];
      KeepWhereAppend(s[1..], x, keep);
    }
  }

  /** A filter that keeps everything changes nothing. */
  lemma {:induction false} KeepWhereAll<T(!new)>(s: seq<T>, keep: T -> bool)
    requires forall i :: 0 <= i < |s| ==> keep(s[i])
    ensures KeepWhere(s, keep) == s
  {
    if s != [] {
      KeepWhereAll(s[1..], keep);
      assert [s[0]] + s[1..] == s;
    }
  }

  /** A filter that keeps less keeps no more. */
  lemma {:induction false} KeepWhereWeaker<T(!new)>(s: seq<T>, p: T -> bool, q: T -> bool)
    requires forall x :: p(x) ==> q(x)
    ensures |KeepWhere(s, p)| <= |KeepWhere(s, q)|
  {
    if s != [] {
      KeepWhereWeaker(s[1..], p, q);
    }
  }

  /** No row of the key: the group is empty. */
  lemma {:induction false} MatchingNone<R(!new), K>(rows: seq<R>, key: R -> K, k: K)
    requires forall i :: 0 <= i < |rows| ==> key(rows[i]) != k
    ensures Matching(rows, key, k) == []
  {
    if rows != [] {
      MatchingNone(rows[1..], key, k);
    }
  }

  /** Rows of two different keys are rows of the table counted once each. */
  lemma TwoKeys<R(!new), K>(rows: seq<R>, key: R -> K, a: K, b: K)
    requires a != b
    ensures |Matching(rows, key, a)| + |Matching(rows, key, b)| <= |rows|
  {
    var zero := (r: R) => 0.0;
    AmongCons(rows, key, zero, a, [b]);
    AmongCons(rows, key, zero, b, []);
    AmongNoKeys(rows, key);
    assert [b] + [] == [b];
  }

  /** LIMIT n: the first `n` results, or all of them when there are fewer. */
  function Limit<T>(s: seq<T>, n: nat): (r: seq<T>)
    ensures |r| <= n && r <= s
    ensures |s| <= n ==> r == s
    ensures |s| > n ==> |r| == n
  {
    if |s| <= n then s else s[..n]
  }

  /** SELECT key, AVG(score), COUNT(*) ... GROUP BY key ORDER BY rank(key) DESC. */
  function GroupBy<R(!new), K(==,!new)>(rows: seq<R>, key: R -> K, score: R -> real, rank: K -> real): seq<Stat<K>> {
    Aggregate(rows, key, score, SortBy(KeysOf(rows, key), rank))
  }

  /** A GROUP BY result has one row per distinct key of the table and no other, each with
      the COUNT and AVG of its group, in rank order; the counts add up to the size of the
      table and the count-weighted averages to its total score. */
  lemma GroupBySpec<R(!new), K(!new)>(rows: seq<R>, key: R -> K, score: R -> real, rank: K -> real)
    ensures var g := GroupBy(rows, key, score, rank);
      && (forall i, j :: 0 <= i < j < |g| ==> g[i].key != g[j].key)
      && (forall i :: 0 <= i < |g| ==> g[i] == StatOf(rows, key, score, g[i].key) && g[i].count > 0)
      && (forall r :: r in rows ==> exists i :: 0 <= i < |g| && g[i].key == key(r))
      && (forall i, j :: 0 <= i < j < |g| ==> rank(g[i].key) >= rank(g[j].key))
      && CountSum(g) == |rows|
      && WeightedSum(g) == ScoreSum(rows, score)
  {
    GroupByCovers(rows, key, score, rank);
    GroupByOrdered(rows, key, score, rank);
    var ks := SortBy(KeysOf(rows, key), rank);
    SortDistinct(KeysOf(rows, key), rank);
    AggregateSums(rows, key, score, ks);
    AmongAll(rows, key, ks);
  }

  lemma GroupByCovers<R(!new), K(!new)>(rows: seq<R>, key: R -> K, score: R -> real, rank: K -> real)
    ensures var g := GroupBy(rows, key, score, rank);
      && (forall i, j :: 0 <= i < j < |g| ==> g[i].key != g[j].key)
      && (forall i :: 0 <= i < |g| ==> g[i] == StatOf(rows, key, score, g[i].key) && g[i].count > 0)
      && (forall r :: r in rows ==> exists i :: 0 <= i < |g| && g[i].key == key(r))
  {
    var ks := SortBy(KeysOf(rows, key), rank);
    SortDistinct(KeysOf(rows, key), rank);
    AggregateKeys(rows, key, score, ks);
  }

  lemma GroupByOrdered<R(!new), K(!new)>(rows: seq<R>, key: R -> K, score: R -> real, rank: K -> real)
    ensures var g := GroupBy(rows, key, score, rank);
      forall i, j :: 0 <= i < j < |g| ==> rank(g[i].key) >= rank(g[j].key)
  {
    var ks := SortBy(KeysOf(rows, key), rank);
    var g := GroupBy(rows, key, score, rank);
    assert forall i :: 0 <= i < |g| ==> g[i].key == ks[i];
  }

  /** The rows of an aggregate over keys `ks` carry those keys, in that order. */
  lemma AggregateKeys<R(!new), K(!new)>(rows: seq<R>, key: R -> K, score: R -> real, ks: seq<K>)
    requires Distinct(ks)
    requires forall k :: k in ks ==> Matching(rows, key, k) != []
    ensures var g := Aggregate(rows, key, score, ks);
      && (forall i :: 0 <= i < |g| ==> g[i].key == ks[i])
      && (forall i, j :: 0 <= i < j < |g| ==> g[i].key != g[j].key)
      && (forall i :: 0 <= i < |g| ==> g[i] == StatOf(rows, key, score, g[i].key) && g[i].count > 0)
      && (forall k :: k in ks ==> exists i :: 0 <= i < |g| && g[i].key == k)
  {
    var g := Aggregate(rows, key, score, ks);
    forall k | k in ks ensures exists i :: 0 <= i < |g| && g[i].key == k {
      var i :| 0 <= i < |ks| && ks[i] == k;
      assert g[i].key == k;
    }
    forall i | 0 <= i < |g| ensures g[i].count > 0 {
      assert ks[i] in ks;
    }
  }

  /** With LIMIT n after the ORDER BY, a key of the table that is missing from the result
      ranks no higher than any key in it, and the result is full. */
  lemma GroupByLimit<R(!new), K(!new)>(rows: seq<R>, key: R -> K, score: R -> real, rank: K -> real, n: nat)
    ensures var g := GroupBy(rows, key, score, rank); var c := Limit(g, n);
      forall r :: r in rows ==>
        (exists i :: 0 <= i < |c| && c[i].key == key(r))
        || (|c| == n && forall i :: 0 <= i < |c| ==> rank(c[i].key) >= rank(key(r)))
  {
    forall r | r in rows
      ensures var c := Limit(GroupBy(rows, key, score, rank), n);
        (exists i :: 0 <= i < |c| && c[i].key == key(r))
        || (|c| == n && forall i :: 0 <= i < |c| ==> rank(c[i].key) >= rank(key(r)))
    {
      GroupByLimitRow(rows, key, score, rank, n, r);
    }
  }

  lemma GroupByLimitRow<R(!new), K(!new)>(rows: seq<R>, key: R -> K, score: R -> real, rank: K -> real, n: nat, r: R)
    requires r in rows
    ensures var c := Limit(GroupBy(rows, key, score, rank), n);
      (exists i :: 0 <= i < |c| && c[i].key == key(r))
      || (|c| == n && forall i :: 0 <= i < |c| ==> rank(c[i].key) >= rank(key(r)))
  {
    var g := GroupBy(rows, key, score, rank);
    var c := Limit(g, n);
    GroupByCovers(rows, key, score, rank);
    var k :| 0 <= k < |g| && g[k].key == key(r);
    GroupByOrdered(rows, key, score, rank);
    LimitTop(g, n, rank, k);
    if k < |c| {
      assert c[k].key == key(r);
    }
  }

  /** Cutting a ranked sequence at `n` keeps an element or leaves it behind every kept
      one. */
  lemma LimitTop<K>(g: seq<Stat<K>>, n: nat, rank: K -> real, k: nat)
    requires forall i, j :: 0 <= i < j < |g| ==> rank(g[i].key) >= rank(g[j].key)
    requires k < |g|
    ensures var c := Limit(g, n);
      (k < |c| && c[k] == g[k])
      || (|c| == n && forall i :: 0 <= i < |c| ==> rank(c[i].key) >= rank(g[k].key))
  {
    var c := Limit(g, n);
    assert forall i :: 0 <= i < |c| ==> c[i] == g[i];
  }

  /** ORDER BY rank DESC LIMIT n over a list of keys: at most n of them, distinct if the
      keys were, in rank order, and every key left out ranks no higher than any kept. */
  lemma SortLimit<T(!new)>(s: seq<T>, rank: T -> real, n: nat)
    requires Distinct(s)
    ensures var c := Limit(SortBy(s, rank), n);
      && |c| <= n
      && Distinct(c)
      && (forall x :: x in c ==> x in s)
      && (forall i, j :: 0 <= i < j < |c| ==> rank(c[i]) >= rank(c[j]))
      && (forall x :: x in s ==> x in c || (|c| == n && forall i :: 0 <= i < |c| ==> rank(c[i]) >= rank(x)))
  {
    var sorted := SortBy(s, rank);
    var c := Limit(sorted, n);
    SortDistinct(s, rank);
    assert forall i :: 0 <= i < |c| ==> c[i] == sorted[i];
    forall x | x in s ensures x in c || (|c| == n && forall i :: 0 <= i < |c| ==> rank(c[i]) >= rank(x)) {
      SortLimitOne(s, rank, n, x);
    }
  }

  lemma SortLimitOne<T(!new)>(s: seq<T>, rank: T -> real, n: nat, x: T)
    requires x in s
    ensures var c := Limit(SortBy(s, rank), n);
      x in c || (|c| == n && forall i :: 0 <= i < |c| ==> rank(c[i]) >= rank(x))
  {
    var sorted := SortBy(s, rank);
    var c := Limit(sorted, n);
    var k :| 0 <= k < |sorted| && sorted[k] == x;
    if k < |c| {
      assert c[k] == x;
    } else {
      assert forall i :: 0 <= i < |c| ==> c[i] == sorted[i];
    }
  }
}
