/** The aggregation of rows into pods (collector/prom_metrics.go:86-109). */
module Aggregation {
  import opened Words
  import opened KubePath
  import opened Rows
  import Block = BlockLatency
  import Runq = RunqLatency

  datatype Aggregate = Aggregate(
    ioCount: U64, totalBytes: U64, totalLatency: U64, errorCount: U64,
    runqEvents: U64, runqLatency: U64, avg: U64)
  {
    function Get(f: Field): U64 {
      match f
      case IoCount => ioCount
      case TotalBytes => totalBytes
      case TotalLatency => totalLatency
      case ErrorCount => errorCount
      case RunqEvents => runqEvents
      case RunqLatency => runqLatency
    }
  }

  const ZERO := Aggregate(0, 0, 0, 0, 0, 0, 0)

  /** Adds one row, word by word, and refreshes the average while there is I/O. */
  function Plus(a: Aggregate, r: Row): Aggregate {
    var io := Wrap(a.ioCount + r.stats.ioCount);
    var latency := Wrap(a.totalLatency + r.stats.totalLatency);
    Aggregate(io, Wrap(a.totalBytes + r.stats.totalBytes), latency,
              Wrap(a.errorCount + r.stats.errorCount), Wrap(a.runqEvents + r.runqStats.count),
              Wrap(a.runqLatency + r.runqStats.totalLatency),
              if io > 0 then latency / io else a.avg)
  }

  /** The aggregate of the rows labelled `l`, taken in order. */
  function Of(rows: seq<Row>, l: Labels): Aggregate {
    if rows == [] then ZERO
    else if LabelsOf(Last(rows)) == l then Plus(Of(Front(rows), l), Last(rows))
    else Of(Front(rows), l)
  }

  function Share(r: Row, l: Labels, f: Field): nat {
    if LabelsOf(r) == l then Value(r, f) else 0
  }

  /** The exact sum of a field over the rows labelled `l`, before any wrap. */
  function Sum(rows: seq<Row>, l: Labels, f: Field): nat {
    if rows == [] then 0 else Sum(Front(rows), l, f) + Share(Last(rows), l, f)
  }

  /** The sum of any word of the rows labelled `l`. */
  function SumOf(rows: seq<Row>, l: Labels, word: Row -> nat): nat {
    if rows == [] then 0
    else SumOf(Front(rows), l, word) + if LabelsOf(Last(rows)) == l then word(Last(rows)) else 0
  }

  lemma {:induction false} SumByField(rows: seq<Row>, l: Labels, f: Field, word: Row -> nat)
    requires forall r :: Value(r, f) == word(r)
    ensures Sum(rows, l, f) == SumOf(rows, l, word)
  {
    if rows != [] {
      SumByField(Front(rows), l, f, word);
    }
  }

  lemma PlusGet(a: Aggregate, r: Row, f: Field)
    ensures Plus(a, r).Get(f) == Wrap(a.Get(f) + Value(r, f))
  {
  }

  lemma OfStep(rows: seq<Row>, l: Labels, f: Field)
    requires rows != []
    ensures Of(rows, l).Get(f) == Wrap(Of(Front(rows), l).Get(f) + Share(Last(rows), l, f))
  {
    hide Plus, Value;
    PlusGet(Of(Front(rows), l), Last(rows), f);
    WrapSmall(Of(Front(rows), l).Get(f));
  }

  /** Every pod counter is the sum over its rows modulo 2^64. */
  lemma {:induction false} AggregateIsSum(rows: seq<Row>, l: Labels, f: Field)
    ensures Of(rows, l).Get(f) == Wrap(Sum(rows, l, f))
  {
    if rows != [] {
      AggregateIsSum(Front(rows), l, f);
      OfStep(rows, l, f);
      WrapAdd(Sum(Front(rows), l, f), Share(Last(rows), l, f));
    }
  }

  lemma {:induction false} AbsentIsZero(rows: seq<Row>, l: Labels)
    requires l !in LabelsIn(rows)
    ensures Of(rows, l) == ZERO
  {
    if rows != [] {
      assert LabelsOf(rows[|rows| - 1]) in LabelsIn(rows);
      LabelsGrow(rows);
      AbsentIsZero(Front(rows), l);
    }
  }

  lemma LabelsGrow(rows: seq<Row>)
    requires rows != []
    ensures LabelsIn(rows) == LabelsIn(Front(rows)) + {LabelsOf(Last(rows))}
  {
    var h := Front(rows);
    forall i | 0 <= i < |h| ensures LabelsOf(h[i]) in LabelsIn(rows) {
      assert h[i] == rows[i];
    }
    assert rows[|rows| - 1] == Last(rows);
    forall i | 0 <= i < |rows| ensures LabelsOf(rows[i]) in LabelsIn(h) + {LabelsOf(Last(rows))} {
      if i < |h| {
        assert h[i] == rows[i];
      }
    }
  }

  // ----- Order of rows

  function Without(rows: seq<Row>, i: nat): seq<Row>
    requires i < |rows|
  {
    rows[..i] + rows[i + 1..]
  }

  lemma {:induction false} SumWithout(rows: seq<Row>, i: nat, l: Labels, f: Field)
    requires i < |rows|
    ensures Sum(rows, l, f) == Sum(Without(rows, i), l, f) + Share(rows[i], l, f)
  {
    if i == |rows| - 1 {
      assert Without(rows, i) == Front(rows);
    } else {
      SumWithout(Front(rows), i, l, f);
      assert Front(Without(rows, i)) == Without(Front(rows), i);
      assert Last(Without(rows, i)) == Last(rows);
    }
  }

  lemma MultisetWithout(rows: seq<Row>, i: nat)
    requires i < |rows|
    ensures multiset(Without(rows, i)) == multiset(rows) - multiset{rows[i]}
  {
    assert rows == rows[..i] + [rows[i]] + rows[i + 1..];
  }

  lemma LastOccurs(a: seq<Row>, b: seq<Row>) returns (i: nat)
    requires a != [] && multiset(a) == multiset(b)
    ensures i < |b| && b[i] == Last(a)
    ensures multiset(Front(a)) == multiset(Without(b, i))
  {
    assert a[|a| - 1] in multiset(a);
    i := Find(b, Last(a));
    MultisetWithout(a, |a| - 1);
    MultisetWithout(b, i);
    assert Without(a, |a| - 1) == Front(a);
  }

  lemma Find(b: seq<Row>, r: Row) returns (i: nat)
    requires r in multiset(b)
    ensures i < |b| && b[i] == r
  {
    assert r in b;
    i :| 0 <= i < |b| && b[i] == r;
  }

  /** Any permutation of the rows gives the same sums, hence the same six counters. */
  lemma {:induction false} SumIgnoresOrder(a: seq<Row>, b: seq<Row>, l: Labels, f: Field)
    requires multiset(a) == multiset(b)
    ensures Sum(a, l, f) == Sum(b, l, f)
    decreases |a|
  {
    if a == [] {
      assert |multiset(b)| == 0;
    } else {
      var i := LastOccurs(a, b);
      SumIgnoresOrder(Front(a), Without(b, i), l, f);
      SumWithout(b, i, l, f);
    }
  }

  lemma CountersIgnoreOrder(a: seq<Row>, b: seq<Row>, l: Labels, f: Field)
    requires multiset(a) == multiset(b)
    ensures Of(a, l).Get(f) == Of(b, l).Get(f)
  {
    AggregateIsSum(a, l, f);
    AggregateIsSum(b, l, f);
    SumIgnoresOrder(a, b, l, f);
  }

  // ----- Conservation

  function SumOver(ls: seq<Labels>, rows: seq<Row>, f: Field): nat {
    if ls == [] then 0 else SumOver(Front(ls), rows, f) + Sum(rows, Last(ls), f)
  }

  function Total(rows: seq<Row>, f: Field): nat {
    if rows == [] then 0 else Total(Front(rows), f) + Value(Last(rows), f)
  }

  ghost predicate Distinct<T>(s: seq<T>) {
    forall i, j :: 0 <= i < j < |s| ==> s[i] != s[j]
  }

  lemma {:induction false} OneRowOnce(ls: seq<Labels>, rows: seq<Row>, f: Field)
    requires Distinct(ls) && rows != []
    ensures SumOver(ls, rows, f)
         == SumOver(ls, Front(rows), f) + if LabelsOf(Last(rows)) in ls then Value(Last(rows), f) else 0
  {
    if ls != [] {
      OneRowOnce(Front(ls), rows, f);
      assert forall i :: 0 <= i < |Front(ls)| ==> Front(ls)[i] == ls[i];
      assert ls == Front(ls) + [Last(ls)];
    }
  }

  /** Splitting rows into pods neither loses nor doubles anything: over any listing of the pods, each
      field sums to the same as over the rows. */
  lemma {:induction false} PodsConserveRows(ls: seq<Labels>, rows: seq<Row>, f: Field)
    requires Distinct(ls) && forall l :: l in LabelsIn(rows) ==> l in ls
    ensures SumOver(ls, rows, f) == Total(rows, f)
  {
    if rows == [] {
      NothingToSum(ls, f);
    } else {
      LabelsGrow(rows);
      PodsConserveRows(ls, Front(rows), f);
      OneRowOnce(ls, rows, f);
    }
  }

  lemma {:induction false} NothingToSum(ls: seq<Labels>, f: Field)
    ensures SumOver(ls, [], f) == 0
  {
    if ls != [] {
      NothingToSum(Front(ls), f);
    }
  }

  // ----- Averages

  /** With I/O in its counters the average is the floor of latency over count. */
  lemma {:induction false} AverageIsFloor(rows: seq<Row>, l: Labels)
    ensures var a := Of(rows, l); a.ioCount > 0 ==> a.avg == a.totalLatency / a.ioCount
  {
    if rows != [] {
      AverageIsFloor(Front(rows), l);
    }
  }

  /** Unless the count of a pod with I/O wraps to zero, its average does not depend on row order either. */
  lemma AverageIgnoresOrder(a: seq<Row>, b: seq<Row>, l: Labels)
    requires multiset(a) == multiset(b) && (Sum(a, l, IoCount) == 0 || Wrap(Sum(a, l, IoCount)) != 0)
    ensures Of(a, l).avg == Of(b, l).avg
  {
    CountersIgnoreOrder(a, b, l, IoCount);
    CountersIgnoreOrder(a, b, l, TotalLatency);
    SumIgnoresOrder(a, b, l, IoCount);
    AggregateIsSum(a, l, IoCount);
    AverageIsFloor(a, l);
    AverageIsFloor(b, l);
    if Sum(a, l, IoCount) == 0 {
      NoIoNoAverage(a, l);
      NoIoNoAverage(b, l);
    }
  }

  lemma {:induction false} NoIoNoAverage(rows: seq<Row>, l: Labels)
    requires Sum(rows, l, IoCount) == 0
    ensures Of(rows, l).avg == 0 && Of(rows, l).ioCount == 0
  {
    if rows != [] {
      NoIoNoAverage(Front(rows), l);
      AggregateIsSum(rows, l, IoCount);
      WrapSmall(0);
    }
  }

  // ----- Averages whose count wraps to zero

  predicate HasIo(r: Row, l: Labels) {
    LabelsOf(r) == l && r.stats.ioCount > 0
  }

  /** Rows of the pod without I/O carry no latency, as the kernel leaves them. */
  ghost predicate LatencyNeedsIo(rows: seq<Row>, l: Labels) {
    forall r :: r in rows && LabelsOf(r) == l && r.stats.ioCount == 0 ==> r.stats.totalLatency == 0
  }

  ghost predicate WrapsToZero(rows: seq<Row>, l: Labels) {
    Sum(rows, l, IoCount) > 0 && Wrap(Sum(rows, l, IoCount)) == 0
  }

  /** The quotient that stands when `r` is the row that brings the count to zero and the latencies of
      the pod sum to `t`. */
  function Leftover(t: nat, r: Row): int
    requires r.stats.ioCount > 0
  {
    Wrap(t - r.stats.totalLatency) / (0x1_0000_0000_0000_0000 - r.stats.ioCount)
  }

  lemma WrapBack(n: int, k: U64)
    requires Wrap(n) == 0 && k > 0
    ensures Wrap(n - k) == 0x1_0000_0000_0000_0000 - k
  {
  }

  /** A last row with I/O leaves the quotient of the others. */
  lemma LastLeavesQuotient(rows: seq<Row>, l: Labels)
    requires rows != [] && HasIo(Last(rows), l) && WrapsToZero(rows, l)
    ensures Of(rows, l).avg == Leftover(Sum(rows, l, TotalLatency), Last(rows))
  {
    var h, r := Front(rows), Last(rows);
    AggregateIsSum(rows, l, IoCount);
    AggregateIsSum(h, l, IoCount);
    AggregateIsSum(h, l, TotalLatency);
    AverageIsFloor(h, l);
    WrapBack(Sum(rows, l, IoCount), r.stats.ioCount);
    assert Sum(h, l, IoCount) == Sum(rows, l, IoCount) - r.stats.ioCount;
    assert Sum(h, l, TotalLatency) == Sum(rows, l, TotalLatency) - r.stats.totalLatency;
    hide Wrap;
  }

  /** A last row without I/O changes nothing. */
  lemma LastKeepsAverage(rows: seq<Row>, l: Labels)
    requires rows != [] && !HasIo(Last(rows), l) && WrapsToZero(rows, l) && LatencyNeedsIo(rows, l)
    ensures Of(rows, l).avg == Of(Front(rows), l).avg
    ensures WrapsToZero(Front(rows), l) && Sum(Front(rows), l, TotalLatency) == Sum(rows, l, TotalLatency)
  {
    AggregateIsSum(rows, l, IoCount);
    assert Last(rows) in rows;
    hide Wrap;
  }

  /** The gauge is what some row with I/O leaves: the last one. */
  lemma {:induction false} AverageIsLeftover(rows: seq<Row>, l: Labels) returns (r: Row)
    requires WrapsToZero(rows, l) && LatencyNeedsIo(rows, l)
    ensures r in rows && HasIo(r, l) && Of(rows, l).avg == Leftover(Sum(rows, l, TotalLatency), r)
  {
    hide Wrap, Leftover;
    if HasIo(Last(rows), l) {
      r := Last(rows);
      LastLeavesQuotient(rows, l);
    } else {
      LastKeepsAverage(rows, l);
      assert forall x :: x in Front(rows) ==> x in rows;
      r := AverageIsLeftover(Front(rows), l);
    }
  }

  ghost predicate SameRows(a: seq<Row>, b: seq<Row>) {
    multiset(a) == multiset(b)
  }

  /** Every order of the rows gives the pod the same average. */
  ghost predicate OrderFree(a: seq<Row>, l: Labels) {
    forall b :: SameRows(a, b) ==> Of(b, l).avg == Of(a, l).avg
  }

  /** Each row with I/O would leave the same quotient. */
  ghost predicate SameLeftovers(a: seq<Row>, l: Labels) {
    forall r, q :: r in a && q in a && HasIo(r, l) && HasIo(q, l) ==>
      Leftover(Sum(a, l, TotalLatency), r) == Leftover(Sum(a, l, TotalLatency), q)
  }

  lemma SameRowsHold(a: seq<Row>, b: seq<Row>, l: Labels)
    requires SameRows(a, b)
    ensures forall r :: r in a <==> r in b
    ensures LatencyNeedsIo(a, l) ==> LatencyNeedsIo(b, l)
    ensures WrapsToZero(a, l) <==> WrapsToZero(b, l)
    ensures Sum(a, l, TotalLatency) == Sum(b, l, TotalLatency)
  {
    assert forall r :: r in a <==> r in multiset(a);
    assert forall r :: r in b <==> r in multiset(b);
    SumIgnoresOrder(a, b, l, IoCount);
    SumIgnoresOrder(a, b, l, TotalLatency);
  }

  /** Any row can be put last. */
  lemma PutLast(a: seq<Row>, r: Row) returns (b: seq<Row>)
    requires r in a
    ensures SameRows(a, b) && b != [] && Last(b) == r
  {
    var i :| 0 <= i < |a| && a[i] == r;
    b := Without(a, i) + [r];
    MultisetWithout(a, i);
  }

  lemma LeftoverIsAverage(a: seq<Row>, l: Labels, r: Row)
    requires OrderFree(a, l) && WrapsToZero(a, l) && r in a && HasIo(r, l)
    ensures Of(a, l).avg == Leftover(Sum(a, l, TotalLatency), r)
  {
    var b := PutLast(a, r);
    SameRowsHold(a, b, l);
    LastLeavesQuotient(b, l);
  }

  lemma AverageIsSame(a: seq<Row>, b: seq<Row>, l: Labels)
    requires LatencyNeedsIo(a, l) && WrapsToZero(a, l) && SameLeftovers(a, l) && SameRows(a, b)
    ensures Of(b, l).avg == Of(a, l).avg
  {
    SameRowsHold(a, b, l);
    var r := AverageIsLeftover(a, l);
    var q := AverageIsLeftover(b, l);
  }

  /** The average is the same for every order of the rows if and only if the pod's count does not wrap
      to zero or each of its rows with I/O would leave the same quotient. */
  lemma OrderFreeIff(a: seq<Row>, l: Labels)
    requires LatencyNeedsIo(a, l)
    ensures OrderFree(a, l) <==> !WrapsToZero(a, l) || SameLeftovers(a, l)
  {
    hide Wrap, Leftover;
    if OrderFree(a, l) && WrapsToZero(a, l) {
      forall r, q | r in a && q in a && HasIo(r, l) && HasIo(q, l)
        ensures Leftover(Sum(a, l, TotalLatency), r) == Leftover(Sum(a, l, TotalLatency), q)
      {
        LeftoverIsAverage(a, l, r);
        LeftoverIsAverage(a, l, q);
      }
    }
    if !WrapsToZero(a, l) || SameLeftovers(a, l) {
      forall b | SameRows(a, b) ensures Of(b, l).avg == Of(a, l).avg {
        if WrapsToZero(a, l) {
          AverageIsSame(a, b, l);
        } else {
          AverageIgnoresOrder(a, b, l);
        }
      }
    }
  }

  // ----- Bounds on averages

  /** Per-row averages of a pod lie in [lo, hi], and rows without I/O carry no latency. */
  ghost predicate AveragesWithin(rows: seq<Row>, l: Labels, lo: nat, hi: nat) {
    forall i :: 0 <= i < |rows| && LabelsOf(rows[i]) == l ==>
      var s := rows[i].stats;
      if s.ioCount == 0 then s.totalLatency == 0
      else rows[i].avgNs == s.totalLatency / s.ioCount && lo <= rows[i].avgNs <= hi
  }

  lemma FloorBounds(latency: nat, count: nat, lo: nat, hi: nat)
    requires count > 0
    ensures lo <= latency / count <==> lo * count <= latency
    ensures latency / count <= hi <==> latency < (hi + 1) * count
  {
    var q := latency / count;
    assert q * count <= latency < (q + 1) * count;
    if lo <= q {
      MulMono(lo, q, count);
    } else {
      MulMono(q + 1, lo, count);
    }
    if q <= hi {
      MulMono(q + 1, hi + 1, count);
    } else {
      MulMono(hi + 1, q, count);
    }
  }

  predicate Within(n: nat, t: nat, lo: nat, hi: nat) {
    && lo * n <= t
    && (if n == 0 then t == 0 else t < (hi + 1) * n)
  }

  lemma WithinAdds(n: nat, t: nat, c: nat, d: nat, lo: nat, hi: nat)
    requires Within(n, t, lo, hi) && Within(c, d, lo, hi)
    ensures Within(n + c, t + d, lo, hi)
  {
    assert lo * (n + c) == lo * n + lo * c;
    assert (hi + 1) * (n + c) == (hi + 1) * n + (hi + 1) * c;
  }

  lemma RowWithin(rows: seq<Row>, i: nat, l: Labels, lo: nat, hi: nat)
    requires AveragesWithin(rows, l, lo, hi) && i < |rows|
    ensures Within(Share(rows[i], l, IoCount), Share(rows[i], l, TotalLatency), lo, hi)
  {
    var s := rows[i].stats;
    if LabelsOf(rows[i]) == l && s.ioCount > 0 {
      FloorBounds(s.totalLatency, s.ioCount, lo, hi);
    }
  }

  lemma {:induction false} SumsWithin(rows: seq<Row>, l: Labels, lo: nat, hi: nat)
    requires AveragesWithin(rows, l, lo, hi)
    ensures Within(Sum(rows, l, IoCount), Sum(rows, l, TotalLatency), lo, hi)
  {
    if rows != [] {
      var h := Front(rows);
      assert forall i :: 0 <= i < |h| ==> h[i] == rows[i];
      SumsWithin(h, l, lo, hi);
      RowWithin(rows, |rows| - 1, l, lo, hi);
      WithinAdds(Sum(h, l, IoCount), Sum(h, l, TotalLatency),
                 Share(Last(rows), l, IoCount), Share(Last(rows), l, TotalLatency), lo, hi);
    }
  }

  /** A pod's average lies between the smallest and the largest average of its cgroups with I/O. */
  lemma PodAverageWithin(rows: seq<Row>, l: Labels, lo: nat, hi: nat)
    requires AveragesWithin(rows, l, lo, hi)
    requires 0 < Sum(rows, l, IoCount) < TWO_64 && Sum(rows, l, TotalLatency) < TWO_64
    ensures Of(rows, l).avg == Sum(rows, l, TotalLatency) / Sum(rows, l, IoCount)
    ensures lo <= Of(rows, l).avg <= hi
  {
    var n, t := Sum(rows, l, IoCount), Sum(rows, l, TotalLatency);
    AggregateIsSum(rows, l, IoCount);
    AggregateIsSum(rows, l, TotalLatency);
    WrapSmall(n);
    WrapSmall(t);
    AverageIsFloor(rows, l);
    SumsWithin(rows, l, lo, hi);
    FloorBounds(t, n, lo, hi);
  }

  function IoRow(count: U64, latency: U64): Row {
    Row(0, "", Unknown, KubePathInfo(false, "", "", ""), Block.IoStats(count, latency, 0, 0),
        Runq.RunqStats(0, 0), 0)
  }

  /** Past 2^64 operations the average is order-dependent: the count wraps to zero and the gauge keeps
      whatever the row before left. */
  lemma WrappedAverageDependsOnOrder()
    ensures var a, b := IoRow(1, 7), IoRow(TWO_64 - 1, 0);
      Of([a, b], LabelsOf(a)).avg == 7 && Of([b, a], LabelsOf(a)).avg == 0
  {
    var a, b := IoRow(1, 7), IoRow(TWO_64 - 1, 0);
    var l := LabelsOf(a);
    assert Front([a, b]) == [a] && Front([b, a]) == [b];
    assert Of([], l) == ZERO && Front([a]) == [] && Front([b]) == [];
    assert Of([a], l) == Plus(ZERO, a) && Of([b], l) == Plus(ZERO, b);
    assert Plus(ZERO, a).avg == 7 && Plus(ZERO, b).avg == 0;
    assert Plus(Plus(ZERO, a), b).ioCount == 0 && Plus(Plus(ZERO, b), a).ioCount == 0;
  }
}
