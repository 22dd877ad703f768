/** SQL's `ROW_NUMBER() OVER (PARTITION BY part ORDER BY key)`.

    Rows are given by position: `parts[i]` is row i's partition value and
    `keys[i]` its ordering key. SQL leaves the order of rows with equal keys
    unspecified; this model fixes it to input position, and
    RowNumberWithoutTies shows that the position is never consulted when
    the keys inside a partition are distinct. */
module Window {

  /** An ordering key of up to three integer components, compared
      lexicographically (a descending column is stored negated). */
  datatype SortKey = SortKey(k1: int, k2: int, k3: int)

  predicate KeyLess(a: SortKey, b: SortKey) {
    a.k1 < b.k1 || (a.k1 == b.k1 && (a.k2 < b.k2 || (a.k2 == b.k2 && a.k3 < b.k3)))
  }

  /** Row j is numbered before row i: same partition, and a smaller key, or
      an equal key and an earlier position. */
  predicate Precedes<P(==)>(parts: seq<P>, keys: seq<SortKey>, j: int, i: int) {
    && |parts| == |keys|
    && 0 <= j < |parts| && 0 <= i < |parts|
    && parts[j] == parts[i]
    && (KeyLess(keys[j], keys[i]) || (keys[j] == keys[i] && j < i))
  }

  /** The positions of the rows in partition `p`. */
  function Partition<P(==)>(parts: seq<P>, p: P): set<int> {
    set j | 0 <= j < |parts| && parts[j] == p
  }

  /** The positions of the rows numbered before row i. */
  function Predecessors<P(==)>(parts: seq<P>, keys: seq<SortKey>, i: int): set<int> {
    set j | 0 <= j < |parts| && Precedes(parts, keys, j, i)
  }

  /** The integers 1..n. */
  function Interval(n: nat): (s: set<int>)
    ensures forall r :: r in s <==> 1 <= r <= n
  {
    if n == 0 then {} else Interval(n - 1) + {n}
  }

  lemma SubsetCard(a: set<int>, b: set<int>)
    requires a <= b
    ensures |b - a| == |b| - |a|
  {
    assert b == a + (b - a);
    assert a * (b - a) == {};
  }

  lemma {:induction false} IntervalCard(n: nat)
    ensures |Interval(n)| == n
  {
    if n > 0 {
      IntervalCard(n - 1);
    }
  }

  /** The row number of row i: one more than the number of rows numbered
      before it; it lies between 1 and the size of its partition. */
  function RowNumber<P(==)>(parts: seq<P>, keys: seq<SortKey>, i: int): (rn: nat)
    requires |parts| == |keys| && 0 <= i < |parts|
    ensures 1 <= rn <= |Partition(parts, parts[i])|
  {
    var pre := Predecessors(parts, keys, i);
    var part := Partition(parts, parts[i]);
    assert pre <= part - {i};
    assert i in part - pre;
    SubsetCard(pre, part);
    1 + |pre|
  }

  /** A row numbered before another gets the smaller number. */
  lemma PrecedesNumbersLower<P>(parts: seq<P>, keys: seq<SortKey>, i: int, k: int)
    requires Precedes(parts, keys, i, k)
    ensures RowNumber(parts, keys, i) < RowNumber(parts, keys, k)
  {
    var pi, pk := Predecessors(parts, keys, i), Predecessors(parts, keys, k);
    forall j | j in pi
      ensures j in pk
    {
      assert Precedes(parts, keys, j, i);
    }
    assert i in pk - pi;
    SubsetCard(pi, pk);
  }

  /** Inside one partition the numbering follows the window order:
      row i gets a smaller number than row k exactly when it precedes it. */
  lemma RowNumberOrder<P>(parts: seq<P>, keys: seq<SortKey>, i: int, k: int)
    requires |parts| == |keys| && 0 <= i < |parts| && 0 <= k < |parts|
    requires i != k && parts[i] == parts[k]
    ensures RowNumber(parts, keys, i) < RowNumber(parts, keys, k) <==> Precedes(parts, keys, i, k)
  {
    if Precedes(parts, keys, i, k) {
      PrecedesNumbersLower(parts, keys, i, k);
    } else {
      assert Precedes(parts, keys, k, i);
      PrecedesNumbersLower(parts, keys, k, i);
    }
  }

  /** No two rows of a partition share a number. */
  lemma RowNumberInjective<P>(parts: seq<P>, keys: seq<SortKey>, i: int, k: int)
    requires |parts| == |keys| && 0 <= i < |parts| && 0 <= k < |parts|
    requires i != k && parts[i] == parts[k]
    ensures RowNumber(parts, keys, i) != RowNumber(parts, keys, k)
  {
    RowNumberOrder(parts, keys, i, k);
    RowNumberOrder(parts, keys, k, i);
  }

  function Numbers<P(==)>(parts: seq<P>, keys: seq<SortKey>, s: set<int>): set<int>
    requires |parts| == |keys|
  {
    set i | i in s && 0 <= i < |parts| :: RowNumber(parts, keys, i)
  }

  lemma {:induction false} NumbersCard<P>(parts: seq<P>, keys: seq<SortKey>, p: P, s: set<int>)
    requires |parts| == |keys|
    requires s <= Partition(parts, p)
    ensures |Numbers(parts, keys, s)| == |s|
    decreases |s|
  {
    if s != {} {
      var x :| x in s;
      var rest := s - {x};
      NumbersCard(parts, keys, p, rest);
      assert Numbers(parts, keys, s) == Numbers(parts, keys, rest) + {RowNumber(parts, keys, x)};
      forall y | y in rest
        ensures RowNumber(parts, keys, y) != RowNumber(parts, keys, x)
      {
        RowNumberInjective(parts, keys, y, x);
      }
      assert RowNumber(parts, keys, x) !in Numbers(parts, keys, rest);
    }
  }

  /** Every number from 1 to the size of a partition is given to one of
      its rows, so with RowNumberInjective the numbers of a partition of n
      rows are a permutation of 1..n. */
  lemma RowNumberOnto<P>(parts: seq<P>, keys: seq<SortKey>, p: P, r: int)
    requires |parts| == |keys|
    requires 1 <= r <= |Partition(parts, p)|
    ensures exists i :: 0 <= i < |parts| && parts[i] == p && RowNumber(parts, keys, i) == r
  {
    var part := Partition(parts, p);
    var nums := Numbers(parts, keys, part);
    NumbersCard(parts, keys, p, part);
    IntervalCard(|part|);
    assert nums <= Interval(|part|);
    SubsetCard(nums, Interval(|part|));
    assert Interval(|part|) - nums == {};
    assert r in Interval(|part|);
    assert r in nums;
  }

  /** With distinct keys inside the partition, the number of row i is one
      more than the count of rows with a smaller key: it does not depend on
      the input order. */
  lemma RowNumberWithoutTies<P>(parts: seq<P>, keys: seq<SortKey>, i: int)
    requires |parts| == |keys| && 0 <= i < |parts|
    requires forall j :: 0 <= j < |parts| && j != i && parts[j] == parts[i] ==> keys[j] != keys[i]
    ensures RowNumber(parts, keys, i)
         == 1 + |set j | 0 <= j < |parts| && parts[j] == parts[i] && KeyLess(keys[j], keys[i])|
  {
    assert Predecessors(parts, keys, i)
        == set j | 0 <= j < |parts| && parts[j] == parts[i] && KeyLess(keys[j], keys[i]);
  }
}
