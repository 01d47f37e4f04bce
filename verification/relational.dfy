/** The relational operators the report queries are built from, over
    tables represented as sequences: selection (`WHERE`), inner and left
    outer equi-joins, grouping with an integer `SUM`/`COUNT`, and a
    descending `ORDER BY` on the aggregate. */
module Relational {

  datatype Option<T> = None | Some(value: T)

  /** One output row of a grouped query with a single integer aggregate. */
  datatype Measured = Measured(key: string, measure: int)

  // ---------------------------------------------------------------- WHERE

  /** `SELECT * FROM rows WHERE keep`, keeping scan order and duplicates. */
  function Where<T(!new)>(rows: seq<T>, keep: T -> bool): (r: seq<T>)
    ensures |r| <= |rows|
    ensures forall x :: x in r <==> x in rows && keep(x)
    ensures (forall x :: x in rows ==> keep(x)) ==> r == rows
  {
    if |rows| == 0 then []
    else if keep(rows[0]) then [rows[0]] + Where(rows[1..], keep)
    else Where(rows[1..], keep)
  }

  /** `WHERE` keeps every copy of a row that satisfies the condition and no
      copy of one that does not, so duplicate rows still count. */
  lemma {:induction false} WhereMultiplicity<T(!new)>(rows: seq<T>, keep: T -> bool)
    ensures forall x :: multiset(Where(rows, keep))[x] == if keep(x) then multiset(rows)[x] else 0
    decreases |rows|
  {
    if |rows| > 0 {
      WhereMultiplicity(rows[1..], keep);
      assert rows == [rows[0]] + rows[1..];
    }
  }

  /** Two conditions that agree on every row select the same rows. */
  lemma {:induction false} WhereAgrees<T(!new)>(rows: seq<T>, p: T -> bool, q: T -> bool)
    requires forall x :: x in rows ==> p(x) == q(x)
    ensures Where(rows, p) == Where(rows, q)
    decreases |rows|
  {
    if |rows| > 0 {
      assert forall x :: x in rows[1..] ==> x in rows;
      WhereAgrees(rows[1..], p, q);
    }
  }

  // ---------------------------------------------------------------- JOIN

  /** The rows `b` of `right` that `a` joins with, paired with `a`. */
  function Matches<A(!new), B(!new)>(a: A, right: seq<B>, on: (A, B) -> bool): (r: seq<(A, B)>)
    ensures |r| <= |right|
    ensures forall p :: p in r <==> p.0 == a && p.1 in right && on(a, p.1)
  {
    if |right| == 0 then []
    else (if on(a, right[0]) then [(a, right[0])] else []) + Matches(a, right[1..], on)
  }

  /** Row `a` is paired once with every copy of each right row it joins with. */
  lemma {:induction false} MatchesMultiplicity<A(!new), B(!new)>(a: A, right: seq<B>, on: (A, B) -> bool)
    ensures forall p :: multiset(Matches(a, right, on))[p]
                     == if p.0 == a && on(a, p.1) then multiset(right)[p.1] else 0
    decreases |right|
  {
    if |right| > 0 {
      MatchesMultiplicity(a, right[1..], on);
      assert right == [right[0]] + right[1..];
    }
  }

  /** `left JOIN right ON on`: one pair per matching combination. */
  function Join<A(!new), B(!new)>(left: seq<A>, right: seq<B>, on: (A, B) -> bool): (r: seq<(A, B)>)
    ensures forall p :: p in r <==> p.0 in left && p.1 in right && on(p.0, p.1)
  {
    if |left| == 0 then []
    else Matches(left[0], right, on) + Join(left[1..], right, on)
  }

  /** Each combination of a left and a right row that satisfies the join
      condition appears once per copy of the left row times once per copy
      of the right row; no other combination appears. */
  lemma {:induction false} JoinMultiplicity<A(!new), B(!new)>(left: seq<A>, right: seq<B>, on: (A, B) -> bool)
    ensures forall p :: multiset(Join(left, right, on))[p]
                     == if on(p.0, p.1) then multiset(left)[p.0] * multiset(right)[p.1] else 0
    decreases |left|
  {
    if |left| > 0 {
      JoinMultiplicity(left[1..], right, on);
      MatchesMultiplicity(left[0], right, on);
      JoinCountStep(left, right, on, Matches(left[0], right, on), Join(left[1..], right, on));
    }
  }

  /** The multiplicity of a joined pair splits into the first left row's
      matches and the rest of the join. */
  lemma JoinCountStep<A(!new), B(!new)>(left: seq<A>, right: seq<B>, on: (A, B) -> bool,
                                        hits: seq<(A, B)>, rest: seq<(A, B)>)
    requires |left| > 0
    requires forall p :: multiset(hits)[p] == if p.0 == left[0] && on(left[0], p.1) then multiset(right)[p.1] else 0
    requires forall p :: multiset(rest)[p] == if on(p.0, p.1) then multiset(left[1..])[p.0] * multiset(right)[p.1] else 0
    ensures forall p :: multiset(hits + rest)[p] == if on(p.0, p.1) then multiset(left)[p.0] * multiset(right)[p.1] else 0
  {
    assert left == [left[0]] + left[1..];
    forall p
      ensures multiset(hits + rest)[p] == if on(p.0, p.1) then multiset(left)[p.0] * multiset(right)[p.1] else 0
    {
      var first := if p.0 == left[0] then 1 else 0;
      assert multiset(left)[p.0] == first + multiset(left[1..])[p.0];
      if on(p.0, p.1) {
        calc {
          multiset(hits + rest)[p];
          first * multiset(right)[p.1] + multiset(left[1..])[p.0] * multiset(right)[p.1];
          { MulAddsRight(first, multiset(left[1..])[p.0], multiset(right)[p.1]); }
          (first + multiset(left[1..])[p.0]) * multiset(right)[p.1];
        }
      }
    }
  }

  lemma MulAddsRight(x: int, y: int, z: int)
    ensures x * z + y * z == (x + y) * z
  {
  }

  /** The rows of `right` that `a` joins with, as present right-hand sides. */
  function PresentMatches<A(!new), B(!new)>(a: A, right: seq<B>, on: (A, B) -> bool): (r: seq<(A, Option<B>)>)
    ensures |r| == 0 <==> forall b :: b in right ==> !on(a, b)
    ensures forall p :: p in r <==> p.0 == a && p.1.Some? && p.1.value in right && on(a, p.1.value)
  {
    if |right| == 0 then []
    else (if on(a, right[0]) then [(a, Some(right[0]))] else []) + PresentMatches(a, right[1..], on)
  }

  /** `left LEFT JOIN right ON on`: a left row with no partner is kept once,
      with an absent (NULL) right-hand side. */
  function LeftJoin<A(!new), B(!new)>(left: seq<A>, right: seq<B>, on: (A, B) -> bool): (r: seq<(A, Option<B>)>)
    ensures forall p :: p in r ==> p.0 in left
    ensures forall p :: p in r && p.1.Some? ==> p.1.value in right && on(p.0, p.1.value)
    ensures forall p :: p in r && p.1.None? ==> forall b :: b in right ==> !on(p.0, b)
    ensures forall a, b :: a in left && b in right && on(a, b) ==> (a, Some(b)) in r
    ensures forall a :: a in left && (forall b :: b in right ==> !on(a, b)) ==> (a, None) in r
  {
    if |left| == 0 then []
    else
      var hits := PresentMatches(left[0], right, on);
      (if |hits| == 0 then [(left[0], None)] else hits) + LeftJoin(left[1..], right, on)
  }

  /** When every left row has at most one partner, an inner join has at most
      as many rows as its left side, and exactly as many when every left row
      has exactly one partner. */
  lemma {:induction false} JoinSizeByPartners<A(!new), B(!new)>(left: seq<A>, right: seq<B>, on: (A, B) -> bool)
    requires forall a :: a in left ==> |Matches(a, right, on)| <= 1
    ensures |Join(left, right, on)| <= |left|
    ensures (forall a :: a in left ==> |Matches(a, right, on)| == 1) ==> |Join(left, right, on)| == |left|
    decreases |left|
  {
    if |left| > 0 {
      assert forall a :: a in left[1..] ==> a in left;
      JoinSizeByPartners(left[1..], right, on);
    }
  }

  // ---------------------------------------------------------------- aggregates

  /** `SUM(m)` over all rows (0 for no rows, which callers map to NULL). */
  function SumAll<T>(rows: seq<T>, m: T -> int): int {
    if |rows| == 0 then 0 else m(rows[0]) + SumAll(rows[1..], m)
  }

  /** `SUM(m)` over the rows whose grouping key is `k`. */
  function SumKey<T>(rows: seq<T>, key: T -> string, m: T -> int, k: string): int {
    if |rows| == 0 then 0
    else (if key(rows[0]) == k then m(rows[0]) else 0) + SumKey(rows[1..], key, m, k)
  }

  /** The per-row measure of `COUNT(*)` and of `COUNT(col)` on a non-NULL column. */
  function One<T>(x: T): int {
    1
  }

  /** Counting rows by summing one per row gives the number of rows. */
  lemma {:induction false} SumOfOnesIsLength<T>(rows: seq<T>)
    ensures SumAll(rows, One) == |rows|
    decreases |rows|
  {
    if |rows| > 0 {
      SumOfOnesIsLength(rows[1..]);
    }
  }

  /** Some row has grouping key `k`. */
  ghost predicate Occurs<T>(rows: seq<T>, key: T -> string, k: string) {
    exists x :: x in rows && key(x) == k
  }

  /** A group that some row falls into counts at least that row. */
  lemma {:induction false} OccurringKeyCountsPositive<T>(rows: seq<T>, key: T -> string, k: string)
    requires Occurs(rows, key, k)
    ensures SumKey(rows, key, One, k) >= 1
    decreases |rows|
  {
    CountNonNegative(rows[1..], key, k);
    if key(rows[0]) != k {
      var x :| x in rows && key(x) == k;
      assert x in rows[1..];
      OccurringKeyCountsPositive(rows[1..], key, k);
    }
  }

  lemma {:induction false} CountNonNegative<T>(rows: seq<T>, key: T -> string, k: string)
    ensures SumKey(rows, key, One, k) >= 0
    decreases |rows|
  {
    if |rows| > 0 {
      CountNonNegative(rows[1..], key, k);
    }
  }

  /** Restricting the rows with a stronger condition never raises a group's count. */
  lemma {:induction false} StrongerFilterCountsFewer<T(!new)>(rows: seq<T>, p: T -> bool, q: T -> bool, key: T -> string, k: string)
    requires forall x :: x in rows && p(x) ==> q(x)
    ensures SumKey(Where(rows, p), key, One, k) <= SumKey(Where(rows, q), key, One, k)
    decreases |rows|
  {
    if |rows| > 0 {
      assert forall x :: x in rows[1..] ==> x in rows;
      StrongerFilterCountsFewer(rows[1..], p, q, key, k);
      if q(rows[0]) && !p(rows[0]) {
        assert Where(rows, q) == [rows[0]] + Where(rows[1..], q);
        assert ([rows[0]] + Where(rows[1..], q))[1..] == Where(rows[1..], q);
      }
    }
  }

  // ---------------------------------------------------------------- GROUP BY

  predicate Distinct(ks: seq<string>) {
    forall i, j :: 0 <= i < j < |ks| ==> ks[i] != ks[j]
  }

  /** The grouping keys that occur in `rows`, each once, in order of first occurrence. */
  function DistinctKeys<T>(rows: seq<T>, key: T -> string): (ks: seq<string>)
    ensures Distinct(ks)
    ensures forall k :: k in ks <==> Occurs(rows, key, k)
  {
    if |rows| == 0 then []
    else
      var init := rows[..|rows| - 1];
      var last := rows[|rows| - 1];
      assert rows == init + [last];
      var ks := DistinctKeys(init, key);
      if key(last) in ks then ks else ks + [key(last)]
  }

  predicate HasGroup(gs: seq<Measured>, k: string) {
    exists g :: g in gs && g.key == k
  }

  /** No two output rows share a grouping key. */
  predicate KeysDistinct(gs: seq<Measured>) {
    forall i, j :: 0 <= i < j < |gs| ==> gs[i].key != gs[j].key
  }

  function TotalMeasure(gs: seq<Measured>): int {
    if |gs| == 0 then 0 else gs[0].measure + TotalMeasure(gs[1..])
  }

  /** One output row per key of `ks`, in that order, carrying its group's sum. */
  function Groups<T>(rows: seq<T>, key: T -> string, m: T -> int, ks: seq<string>): (gs: seq<Measured>)
    ensures |gs| == |ks|
    ensures forall i :: 0 <= i < |ks| ==> gs[i].key == ks[i]
    ensures forall g :: g in gs ==> g.measure == SumKey(rows, key, m, g.key)
  {
    if |ks| == 0 then []
    else [Measured(ks[0], SumKey(rows, key, m, ks[0]))] + Groups(rows, key, m, ks[1..])
  }

  lemma {:induction false} GroupsOfNoRows<T>(key: T -> string, m: T -> int, ks: seq<string>)
    ensures TotalMeasure(Groups([], key, m, ks)) == 0
    decreases |ks|
  {
    if |ks| > 0 {
      GroupsOfNoRows(key, m, ks[1..]);
    }
  }

  /** Peeling the first row off the table takes its measure out of the one
      group (among distinct keys) it belongs to. */
  lemma {:induction false} GroupsPeelRow<T>(rows: seq<T>, key: T -> string, m: T -> int, ks: seq<string>)
    requires |rows| > 0 && Distinct(ks)
    ensures TotalMeasure(Groups(rows, key, m, ks))
         == (if key(rows[0]) in ks then m(rows[0]) else 0) + TotalMeasure(Groups(rows[1..], key, m, ks))
    decreases |ks|
  {
    if |ks| > 0 {
      assert Distinct(ks[1..]);
      GroupsPeelRow(rows, key, m, ks[1..]);
      assert key(rows[0]) in ks <==> key(rows[0]) == ks[0] || key(rows[0]) in ks[1..];
      assert key(rows[0]) == ks[0] ==> key(rows[0]) !in ks[1..];
    }
  }

  /** Grouping by a set of keys that covers every row neither loses nor
      double-counts anything: the group sums add up to the table sum. */
  lemma {:induction false} GroupsPreserveTotal<T>(rows: seq<T>, key: T -> string, m: T -> int, ks: seq<string>)
    requires Distinct(ks)
    requires forall x :: x in rows ==> key(x) in ks
    ensures TotalMeasure(Groups(rows, key, m, ks)) == SumAll(rows, m)
    decreases |rows|
  {
    if |rows| == 0 {
      GroupsOfNoRows(key, m, ks);
    } else {
      GroupsPeelRow(rows, key, m, ks);
      assert forall x :: x in rows[1..] ==> x in rows;
      GroupsPreserveTotal(rows[1..], key, m, ks);
    }
  }

  /** `gs` is a `GROUP BY key` of `rows` with aggregate `SUM(m)`: one output
      row per key that occurs, carrying the sum over the rows with that key. */
  ghost predicate GroupedBy<T>(gs: seq<Measured>, rows: seq<T>, key: T -> string, m: T -> int) {
    && KeysDistinct(gs)
    && (forall k :: HasGroup(gs, k) <==> Occurs(rows, key, k))
    && (forall g :: g in gs ==> g.measure == SumKey(rows, key, m, g.key))
  }

  /** `SELECT key, SUM(m) FROM rows GROUP BY key`, groups in order of first occurrence. */
  function GroupBy<T>(rows: seq<T>, key: T -> string, m: T -> int): (gs: seq<Measured>)
    ensures KeysDistinct(gs)
    ensures forall k :: HasGroup(gs, k) <==> Occurs(rows, key, k)
    ensures forall g :: g in gs ==> g.measure == SumKey(rows, key, m, g.key)
    ensures TotalMeasure(gs) == SumAll(rows, m)
  {
    var ks := DistinctKeys(rows, key);
    assert forall x :: x in rows ==> key(x) in ks;
    GroupsPreserveTotal(rows, key, m, ks);
    GroupsHaveTheirKeys(rows, key, m, ks);
    Groups(rows, key, m, ks)
  }

  /** There is a group for a key exactly when the key was asked for. */
  lemma GroupsHaveTheirKeys<T>(rows: seq<T>, key: T -> string, m: T -> int, ks: seq<string>)
    ensures forall k :: HasGroup(Groups(rows, key, m, ks), k) <==> k in ks
  {
    var gs := Groups(rows, key, m, ks);
    assert forall k :: HasGroup(gs, k) ==> k in ks;
    forall k | k in ks ensures HasGroup(gs, k) {
      var i :| 0 <= i < |ks| && ks[i] == k;
      assert gs[i] in gs;
    }
  }

  // ---------------------------------------------------------------- ORDER BY ... DESC

  predicate NonIncreasing(gs: seq<Measured>) {
    forall i, j :: 0 <= i < j < |gs| ==> gs[i].measure >= gs[j].measure
  }

  lemma HeadIsLargest(s: seq<Measured>)
    requires NonIncreasing(s) && |s| > 0
    ensures forall y :: y in s ==> y.measure <= s[0].measure
  {
    forall y | y in s ensures y.measure <= s[0].measure {
      var j :| 0 <= j < |s| && s[j] == y;
    }
  }

  lemma PrependLargest(x: Measured, s: seq<Measured>)
    requires NonIncreasing(s)
    requires forall y :: y in s ==> y.measure <= x.measure
    ensures NonIncreasing([x] + s)
  {
    var r := [x] + s;
    forall i, j | 0 <= i < j < |r| ensures r[i].measure >= r[j].measure {
      assert r[j] == s[j - 1];
      if i > 0 {
        assert r[i] == s[i - 1];
      } else {
        assert s[j - 1] in s;
      }
    }
  }

  /** What a sequence built from `s` and `g` as a multiset can contain. */
  lemma MembersOfInsertion(g: Measured, s: seq<Measured>, r: seq<Measured>)
    requires multiset(r) == multiset(s) + multiset{g}
    ensures forall y :: y in r ==> y == g || y in s
  {
    forall y | y in r ensures y == g || y in s {
      assert y in multiset(r);
    }
  }

  /** Putting the head of `s` back in front of an ordered insertion into
      its tail keeps the order and the contents. */
  lemma ConsHeadOntoInsertion(g: Measured, s: seq<Measured>, rest: seq<Measured>)
    requires NonIncreasing(s) && |s| > 0 && g.measure < s[0].measure
    requires NonIncreasing(rest) && multiset(rest) == multiset(s[1..]) + multiset{g}
    ensures NonIncreasing([s[0]] + rest)
    ensures multiset([s[0]] + rest) == multiset(s) + multiset{g}
  {
    assert s == [s[0]] + s[1..];
    HeadIsLargest(s);
    MembersOfInsertion(g, s[1..], rest);
    assert forall y :: y in s[1..] ==> y in s;
    PrependLargest(s[0], rest);
  }

  /** Insert `g` before the first row whose measure does not exceed it, so
      that rows already present keep their relative order. */
  function InsertDesc(g: Measured, s: seq<Measured>): (r: seq<Measured>)
    requires NonIncreasing(s)
    ensures NonIncreasing(r)
    ensures multiset(r) == multiset(s) + multiset{g}
  {
    if |s| == 0 then [g]
    else if g.measure >= s[0].measure then
      HeadIsLargest(s);
      PrependLargest(g, s);
      [g] + s
    else
      var rest := InsertDesc(g, s[1..]);
      ConsHeadOntoInsertion(g, s, rest);
      [s[0]] + rest
  }

  /** `ORDER BY measure DESC`, stable on ties: a non-increasing permutation. */
  function SortDesc(s: seq<Measured>): (r: seq<Measured>)
    ensures NonIncreasing(r)
    ensures multiset(r) == multiset(s)
  {
    if |s| == 0 then []
    else
      assert s == [s[0]] + s[1..];
      InsertDesc(s[0], SortDesc(s[1..]))
  }

  lemma {:induction false} InsertDescAddsMeasure(g: Measured, s: seq<Measured>)
    requires NonIncreasing(s)
    ensures TotalMeasure(InsertDesc(g, s)) == TotalMeasure(s) + g.measure
    decreases |s|
  {
    if |s| > 0 && g.measure < s[0].measure {
      InsertDescAddsMeasure(g, s[1..]);
    }
  }

  /** Sorting neither adds nor loses measure. */
  lemma {:induction false} SortDescKeepsTotal(s: seq<Measured>)
    ensures TotalMeasure(SortDesc(s)) == TotalMeasure(s)
    decreases |s|
  {
    if |s| > 0 {
      SortDescKeepsTotal(s[1..]);
      InsertDescAddsMeasure(s[0], SortDesc(s[1..]));
    }
  }

  lemma PrependNewKey(x: Measured, s: seq<Measured>)
    requires KeysDistinct(s) && !HasGroup(s, x.key)
    ensures KeysDistinct([x] + s)
  {
    var r := [x] + s;
    forall i, j | 0 <= i < j < |r| ensures r[i].key != r[j].key {
      assert r[j] == s[j - 1] && s[j - 1] in s;
      if i > 0 {
        assert r[i] == s[i - 1];
      }
    }
  }

  /** The head of `s` differs in key from every row of an insertion of a
      new key into the tail. */
  lemma ConsHeadKeepsKeysDistinct(g: Measured, s: seq<Measured>, rest: seq<Measured>)
    requires |s| > 0 && KeysDistinct(s) && !HasGroup(s, g.key)
    requires KeysDistinct(rest) && multiset(rest) == multiset(s[1..]) + multiset{g}
    ensures KeysDistinct([s[0]] + rest)
  {
    MembersOfInsertion(g, s[1..], rest);
    forall y | y in rest ensures y.key != s[0].key {
      if y != g {
        var j :| 0 <= j < |s[1..]| && s[1..][j] == y;
        assert s[j + 1] == y;
      } else {
        assert s[0] in s;
      }
    }
    PrependNewKey(s[0], rest);
  }

  lemma {:induction false} InsertDescNewKey(g: Measured, s: seq<Measured>)
    requires NonIncreasing(s) && KeysDistinct(s) && !HasGroup(s, g.key)
    ensures KeysDistinct(InsertDesc(g, s))
    decreases |s|
  {
    if |s| == 0 {
    } else if g.measure >= s[0].measure {
      PrependNewKey(g, s);
    } else {
      assert forall y :: y in s[1..] ==> y in s;
      InsertDescNewKey(g, s[1..]);
      ConsHeadKeepsKeysDistinct(g, s, InsertDesc(g, s[1..]));
    }
  }

  /** Sorting keeps "one row per key". */
  lemma {:induction false} SortDescKeepsKeysDistinct(s: seq<Measured>)
    requires KeysDistinct(s)
    ensures KeysDistinct(SortDesc(s))
    decreases |s|
  {
    if |s| > 0 {
      assert s == [s[0]] + s[1..];
      SortDescKeepsKeysDistinct(s[1..]);
      var rest := SortDesc(s[1..]);
      forall y | y in rest ensures y.key != s[0].key {
        assert y in multiset(rest);
        var j :| 0 <= j < |s[1..]| && s[1..][j] == y;
        assert s[j + 1] == y;
      }
      InsertDescNewKey(s[0], rest);
    }
  }

  /** `GROUP BY key ... ORDER BY SUM(m) DESC`. */
  function Aggregate<T>(rows: seq<T>, key: T -> string, m: T -> int): (gs: seq<Measured>)
    ensures NonIncreasing(gs)
    ensures KeysDistinct(gs)
    ensures forall k :: HasGroup(gs, k) <==> Occurs(rows, key, k)
    ensures forall g :: g in gs ==> g.measure == SumKey(rows, key, m, g.key)
    ensures TotalMeasure(gs) == SumAll(rows, m)
  {
    var grouped := GroupBy(rows, key, m);
    var sorted := SortDesc(grouped);
    SortDescKeepsTotal(grouped);
    SortDescKeepsKeysDistinct(grouped);
    assert forall g :: g in sorted <==> g in grouped by {
      forall g ensures g in sorted <==> g in grouped {
        assert g in sorted <==> g in multiset(sorted);
        assert g in grouped <==> g in multiset(grouped);
      }
    }
    sorted
  }
}
