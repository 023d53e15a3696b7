/** The Prometheus exporter (collector/prom_metrics.go): counters fed with deltas against the
    previous cycle, keyed by an encoded label pair. */
module Exporter {
  import opened Words
  import opened Rows
  import opened Aggregation

  // ----- Series keys

  function KeyOf(l: Labels): string {
    l.kind + "|" + l.podUid
  }

  /** The position of the first bar from `i` on, or the length of the key. */
  function BarFrom(key: string, i: nat): nat
    requires i <= |key|
    ensures i <= BarFrom(key, i) <= |key|
    decreases |key| - i
  {
    if i == |key| || key[i] == '|' then i else BarFrom(key, i + 1)
  }

  function LabelsFromKey(key: string): Labels {
    var i := BarFrom(key, 0);
    if i < |key| then Labels(key[..i], key[i + 1..]) else Labels("", "")
  }

  method ParseKey(key: string) returns (l: Labels)
    ensures l == LabelsFromKey(key)
  {
    l := Labels("", "");
    var i := 0;
    while i < |key|
      invariant i <= |key| && BarFrom(key, 0) == BarFrom(key, i) && l == Labels("", "")
    {
      if key[i] == '|' {
        l := Labels(key[..i], key[i + 1..]);
        break;
      }
      i := i + 1;
    }
  }

  lemma {:induction false} BarIsFirst(key: string, i: nat)
    requires i <= |key|
    ensures forall j :: i <= j < BarFrom(key, i) ==> key[j] != '|'
    ensures BarFrom(key, i) < |key| ==> key[BarFrom(key, i)] == '|'
    decreases |key| - i
  {
    if i < |key| && key[i] != '|' {
      BarIsFirst(key, i + 1);
    }
  }

  /** labelsFromKey undoes the encoding exactly for the kinds without a bar; the pod UID is free. */
  lemma KeyRoundTrip(l: Labels)
    ensures LabelsFromKey(KeyOf(l)) == l <==> '|' !in l.kind
  {
    var key := KeyOf(l);
    var i := BarFrom(key, 0);
    BarIsFirst(key, 0);
    assert key[|l.kind|] == '|';
    assert forall j :: 0 <= j < |l.kind| ==> key[j] == l.kind[j];
    if '|' !in l.kind {
      assert i == |l.kind|;
      assert key[..i] == l.kind && key[i + 1..] == l.podUid;
    } else {
      var j :| 0 <= j < |l.kind| && l.kind[j] == '|';
      assert i <= j;
    }
  }

  lemma LabelsRoundTrip(key: string)
    requires '|' in key
    ensures KeyOf(LabelsFromKey(key)) == key && '|' !in LabelsFromKey(key).kind
  {
    var i := BarFrom(key, 0);
    BarIsFirst(key, 0);
    assert i < |key|;
    assert key == key[..i] + "|" + key[i + 1..];
  }

  lemma RowKeyRoundTrip(r: Row)
    ensures LabelsFromKey(KeyOf(LabelsOf(r))) == LabelsOf(r)
    ensures '|' in KeyOf(LabelsOf(r))
  {
    assert '|' !in r.cgroupKind.Name();
    KeyRoundTrip(LabelsOf(r));
    assert KeyOf(LabelsOf(r))[|LabelsOf(r).kind|] == '|';
  }

  function KeysIn(rows: seq<Row>): set<string> {
    set i | 0 <= i < |rows| :: KeyOf(LabelsOf(rows[i]))
  }

  function LabelsOfKeys(keys: set<string>): set<Labels> {
    set k | k in keys :: LabelsFromKey(k)
  }

  predicate Barred(keys: set<string>) {
    forall k :: k in keys ==> '|' in k
  }

  lemma KeysOfRows(rows: seq<Row>)
    ensures Barred(KeysIn(rows)) && LabelsOfKeys(KeysIn(rows)) == LabelsIn(rows)
  {
    forall i | 0 <= i < |rows|
      ensures LabelsFromKey(KeyOf(LabelsOf(rows[i]))) == LabelsOf(rows[i]) && '|' in KeyOf(LabelsOf(rows[i]))
      ensures KeyOf(LabelsOf(rows[i])) in KeysIn(rows)
    {
      RowKeyRoundTrip(rows[i]);
    }
    forall l | l in LabelsIn(rows) ensures l in LabelsOfKeys(KeysIn(rows)) {
      var i :| 0 <= i < |rows| && LabelsOf(rows[i]) == l;
      assert LabelsFromKey(KeyOf(LabelsOf(rows[i]))) == l;
    }
  }

  // ----- Vectors

  datatype Metric = Counter(field: Field) | AvgLatency

  /** The registered vectors, in registration order. */
  const METRICS: seq<Metric> := [
    Counter(IoCount), Counter(TotalBytes), Counter(TotalLatency), Counter(ErrorCount),
    Counter(RunqEvents), Counter(RunqLatency), AvgLatency]

  type Vector = map<Labels, nat>
  type Vectors = vs: seq<Vector> | |vs| == 7 witness [map[], map[], map[], map[], map[], map[], map[]]

  /** deltaFloat, on integers: a drop is taken for a reset and the whole value counts. */
  function Delta(curr: U64, prev: U64): nat {
    if curr < prev then curr else curr - prev
  }

  function Or0(v: Vector, l: Labels): nat {
    if l in v then v[l] else 0
  }

  /** A metric's value after a cycle in which its pod went from aggregate `p` to `a`. */
  function NewValue(m: Metric, old_: nat, a: Aggregate, p: Aggregate): nat {
    match m
    case Counter(f) => old_ + Delta(a.Get(f), p.Get(f))
    case AvgLatency => a.avg
  }

  // ----- The series of a run, read off the batches of rows alone

  function Prior(batches: seq<seq<Row>>, l: Labels): Aggregate {
    if batches == [] then ZERO else Aggregation.Of(Last(batches), l)
  }

  function View(batches: seq<seq<Row>>, m: Metric): Vector {
    if batches == [] then map[] else
      map l | l in LabelsIn(Last(batches)) ::
        NewValue(m, Or0(View(Front(batches), m), l), Aggregation.Of(Last(batches), l), Prior(Front(batches), l))
  }

  function AggregateMap(rows: seq<Row>): map<string, Aggregate> {
    map k | k in KeysIn(rows) :: Aggregation.Of(rows, LabelsFromKey(k))
  }

  function PriorMap(batches: seq<seq<Row>>): map<string, Aggregate> {
    if batches == [] then map[] else AggregateMap(Last(batches))
  }

  // ----- The aggregation loop

  lemma KeysGrow(rows: seq<Row>)
    requires rows != []
    ensures KeysIn(rows) == KeysIn(Front(rows)) + {KeyOf(LabelsOf(Last(rows)))}
  {
    var h := Front(rows);
    assert rows[|rows| - 1] == Last(rows);
    forall i | 0 <= i < |h| ensures KeyOf(LabelsOf(h[i])) in KeysIn(rows) {
      assert h[i] == rows[i];
    }
    forall i | 0 <= i < |rows| ensures KeyOf(LabelsOf(rows[i])) in KeysIn(h) + {KeyOf(LabelsOf(Last(rows)))} {
      if i < |h| {
        assert h[i] == rows[i];
      }
    }
  }

  function AggregateOr0(m: map<string, Aggregate>, key: string): Aggregate {
    if key in m then m[key] else ZERO
  }

  lemma AggregateOr0IsOf(rows: seq<Row>, key: string)
    requires '|' in key
    ensures AggregateOr0(AggregateMap(rows), key) == Aggregation.Of(rows, LabelsFromKey(key))
  {
    if key !in KeysIn(rows) {
      var l := LabelsFromKey(key);
      LabelsRoundTrip(key);
      forall i | 0 <= i < |rows| ensures LabelsOf(rows[i]) != l {
        assert KeyOf(LabelsOf(rows[i])) in KeysIn(rows);
      }
      AbsentIsZero(rows, l);
    }
  }

  /** One turn of the loop. */
  lemma AggregateStep(rows: seq<Row>)
    requires rows != []
    ensures var r := Last(rows);
      var key := KeyOf(LabelsOf(r));
      AggregateMap(rows) == AggregateMap(Front(rows))[key := Plus(AggregateOr0(AggregateMap(Front(rows)), key), r)]
  {
    hide Plus, KeyOf, LabelsFromKey, LabelsOf;
    var h, r := Front(rows), Last(rows);
    var key := KeyOf(LabelsOf(r));
    KeysGrow(rows);
    RowKeyRoundTrip(r);
    AggregateOr0IsOf(h, key);
    var got := AggregateMap(h)[key := Plus(AggregateOr0(AggregateMap(h), key), r)];
    assert AggregateMap(rows).Keys == got.Keys;
    forall k | k in KeysIn(rows) ensures AggregateMap(rows)[k] == got[k] {
      if k != key {
        OtherKeepsAggregate(rows, k);
      }
    }
  }

  lemma OtherKeepsAggregate(rows: seq<Row>, k: string)
    requires rows != [] && k in KeysIn(Front(rows)) && k != KeyOf(LabelsOf(Last(rows)))
    ensures Aggregation.Of(rows, LabelsFromKey(k)) == Aggregation.Of(Front(rows), LabelsFromKey(k))
  {
    KeysOfRows(Front(rows));
    LabelsRoundTrip(k);
    assert LabelsFromKey(k) != LabelsOf(Last(rows));
  }

  method AggregateRows(rows: seq<Row>) returns (current: map<string, Aggregate>, keyLabels: map<string, Labels>)
    ensures current == AggregateMap(rows)
    ensures keyLabels == map k | k in KeysIn(rows) :: LabelsFromKey(k)
  {
    current, keyLabels := map[], map[];
    for i := 0 to |rows|
      invariant current == AggregateMap(rows[..i])
      invariant keyLabels == map k | k in KeysIn(rows[..i]) :: LabelsFromKey(k)
    {
      var r := rows[i];
      var labels := LabelsOf(r);
      var key := KeyOf(labels);
      assert Front(rows[..i + 1]) == rows[..i] && Last(rows[..i + 1]) == r;
      AggregateStep(rows[..i + 1]);
      KeysGrow(rows[..i + 1]);
      RowKeyRoundTrip(r);
      current := current[key := Plus(AggregateOr0(current, key), r)];
      keyLabels := keyLabels[key := labels];
    }
    assert rows[..|rows|] == rows;
  }

  // ----- The export loops

  /** A vector once the pods in `done` have been exported. */
  function Ahead(m: Metric, v: Vector, done: set<string>,
                 current: map<string, Aggregate>, prev: map<string, Aggregate>): Vector
  {
    map l | l in v.Keys + LabelsOfKeys(done) ::
      if l in LabelsOfKeys(done)
      then NewValue(m, Or0(v, l), AggregateOr0(current, KeyOf(l)), AggregateOr0(prev, KeyOf(l)))
      else Or0(v, l)
  }

  lemma NotYetDone(done: set<string>, key: string)
    requires Barred(done) && '|' in key && key !in done
    ensures LabelsFromKey(key) !in LabelsOfKeys(done)
    ensures LabelsOfKeys(done + {key}) == LabelsOfKeys(done) + {LabelsFromKey(key)}
  {
    LabelsRoundTrip(key);
    forall k | k in done ensures LabelsFromKey(k) != LabelsFromKey(key) {
      LabelsRoundTrip(k);
    }
  }

  lemma AheadStep(m: Metric, v: Vector, done: set<string>, key: string,
                  current: map<string, Aggregate>, prev: map<string, Aggregate>)
    requires Barred(done) && '|' in key && key !in done && key in current
    ensures var l := LabelsFromKey(key);
      Ahead(m, v, done + {key}, current, prev) ==
        Ahead(m, v, done, current, prev)[l := NewValue(m, Or0(Ahead(m, v, done, current, prev), l),
                                                       current[key], AggregateOr0(prev, key))]
  {
    NotYetDone(done, key);
    LabelsRoundTrip(key);
  }

  /** Adds the deltas to the six counters and sets the gauge. */
  function Exported(v: Vectors, l: Labels, a: Aggregate, p: Aggregate): Vectors {
    seq(7, i requires 0 <= i < 7 => v[i][l := NewValue(METRICS[i], Or0(v[i], l), a, p)])
  }

  ghost predicate AllAhead(v0: Vectors, v: Vectors, done: set<string>,
                           current: map<string, Aggregate>, prev: map<string, Aggregate>)
  {
    forall i :: 0 <= i < 7 ==> v[i] == Ahead(METRICS[i], v0[i], done, current, prev)
  }

  /** One turn of the export loop, on all seven vectors. */
  lemma ExportTurn(v0: Vectors, v: Vectors, done: set<string>, key: string,
                   current: map<string, Aggregate>, prev: map<string, Aggregate>)
    requires Barred(done) && '|' in key && key !in done && key in current
    requires AllAhead(v0, v, done, current, prev)
    ensures AllAhead(v0, Exported(v, LabelsFromKey(key), current[key], AggregateOr0(prev, key)),
                     done + {key}, current, prev)
  {
    forall i | 0 <= i < 7
      ensures Exported(v, LabelsFromKey(key), current[key], AggregateOr0(prev, key))[i]
           == Ahead(METRICS[i], v0[i], done + {key}, current, prev)
    {
      AheadStep(METRICS[i], v0[i], done, key, current, prev);
    }
  }

  lemma NothingDone(v: Vectors, current: map<string, Aggregate>, prev: map<string, Aggregate>)
    ensures AllAhead(v, v, {}, current, prev) && Merged(prev, current, {}) == prev
  {
    forall i | 0 <= i < 7 ensures v[i] == Ahead(METRICS[i], v[i], {}, current, prev) {}
  }

  function Dropped(v: Vectors, l: Labels): Vectors {
    seq(7, i requires 0 <= i < 7 => v[i] - {l})
  }

  ghost predicate AllWithout(v0: Vectors, v: Vectors, gone: set<string>) {
    forall i :: 0 <= i < 7 ==> v[i] == v0[i] - LabelsOfKeys(gone)
  }

  lemma NothingGone(v: Vectors, prev: map<string, Aggregate>)
    ensures AllWithout(v, v, {}) && Forgot(prev, {}) == prev
  {
    assert LabelsOfKeys({}) == {};
  }

  lemma DropTurn(v0: Vectors, v: Vectors, gone: set<string>, key: string)
    requires AllWithout(v0, v, gone)
    ensures AllWithout(v0, Dropped(v, LabelsFromKey(key)), gone + {key})
  {
    assert LabelsOfKeys(gone + {key}) == LabelsOfKeys(gone) + {LabelsFromKey(key)};
  }

  /** Exporting every current pod and dropping the others is the next view. */
  lemma ViewStep(batches: seq<seq<Row>>, rows: seq<Row>, m: Metric)
    ensures var old_, current, prev := View(batches, m), AggregateMap(rows), PriorMap(batches);
      View(batches + [rows], m) == Ahead(m, old_, current.Keys, current, prev) - LabelsOfKeys(prev.Keys - current.Keys)
  {
    var old_, current, prev := View(batches, m), AggregateMap(rows), PriorMap(batches);
    var got := Ahead(m, old_, current.Keys, current, prev) - LabelsOfKeys(prev.Keys - current.Keys);
    var next := View(batches + [rows], m);
    AheadDomain(batches, rows, m);
    ViewDomain(batches, rows, m);
    hide View, Ahead, NewValue, LabelsIn, LabelsOfKeys, AggregateMap;
    forall l | l in got.Keys ensures got[l] == next[l] {
      ViewValue(batches, rows, m, l);
      AheadValue(m, old_, current.Keys, current, prev, l);
    }
  }

  lemma AheadValue(m: Metric, v: Vector, done: set<string>,
                   current: map<string, Aggregate>, prev: map<string, Aggregate>, l: Labels)
    requires l in LabelsOfKeys(done)
    ensures l in Ahead(m, v, done, current, prev)
    ensures Ahead(m, v, done, current, prev)[l]
         == NewValue(m, Or0(v, l), AggregateOr0(current, KeyOf(l)), AggregateOr0(prev, KeyOf(l)))
  {
  }

  lemma ViewDomain(batches: seq<seq<Row>>, rows: seq<Row>, m: Metric)
    ensures View(batches + [rows], m).Keys == LabelsIn(rows)
  {
    assert Last(batches + [rows]) == rows;
  }

  lemma AheadDomain(batches: seq<seq<Row>>, rows: seq<Row>, m: Metric)
    ensures var old_, current, prev := View(batches, m), AggregateMap(rows), PriorMap(batches);
      && LabelsOfKeys(current.Keys) == LabelsIn(rows)
      && (Ahead(m, old_, current.Keys, current, prev) - LabelsOfKeys(prev.Keys - current.Keys)).Keys == LabelsIn(rows)
  {
    var current, prev := AggregateMap(rows), PriorMap(batches);
    KeysOfRows(rows);
    PriorDomain(batches, m);
    StaleLabels(prev.Keys, current.Keys);
  }

  lemma ViewValue(batches: seq<seq<Row>>, rows: seq<Row>, m: Metric, l: Labels)
    requires l in LabelsIn(rows)
    ensures l in View(batches + [rows], m)
    ensures View(batches + [rows], m)[l]
         == NewValue(m, Or0(View(batches, m), l), AggregateOr0(AggregateMap(rows), KeyOf(l)),
                     AggregateOr0(PriorMap(batches), KeyOf(l)))
  {
    var next := batches + [rows];
    assert Front(next) == batches && Last(next) == rows;
    LabelsAggregate(rows, l);
    PriorAggregate(batches, l);
  }

  lemma PriorDomain(batches: seq<seq<Row>>, m: Metric)
    ensures Barred(PriorMap(batches).Keys) && View(batches, m).Keys == LabelsOfKeys(PriorMap(batches).Keys)
  {
    if batches != [] {
      KeysOfRows(Last(batches));
    }
  }

  lemma StaleLabels(prev: set<string>, current: set<string>)
    requires Barred(prev) && Barred(current)
    ensures LabelsOfKeys(prev - current) == LabelsOfKeys(prev) - LabelsOfKeys(current)
  {
    forall k, k' | k in prev && k' in current && LabelsFromKey(k) == LabelsFromKey(k') ensures k == k' {
      LabelsRoundTrip(k);
      LabelsRoundTrip(k');
    }
  }

  lemma LabelsAggregate(rows: seq<Row>, l: Labels)
    requires l in LabelsIn(rows)
    ensures AggregateOr0(AggregateMap(rows), KeyOf(l)) == Aggregation.Of(rows, l)
    ensures '|' !in l.kind
  {
    hide Plus;
    var i :| 0 <= i < |rows| && LabelsOf(rows[i]) == l;
    RowKeyRoundTrip(rows[i]);
    KeyRoundTrip(l);
    AggregateOr0IsOf(rows, KeyOf(l));
  }

  /** Row labels of any batch find their prior aggregate under their key. */
  lemma PriorAggregate(batches: seq<seq<Row>>, l: Labels)
    ensures '|' !in l.kind ==> AggregateOr0(PriorMap(batches), KeyOf(l)) == Prior(batches, l)
  {
    if batches != [] && '|' !in l.kind {
      KeyRoundTrip(l);
      assert KeyOf(l)[|l.kind|] == '|';
      AggregateOr0IsOf(Last(batches), KeyOf(l));
    }
  }

  class PromMetrics {
    var vecs: Vectors
    var prev: map<string, Aggregate>
    /** The batches of rows this exporter has been given. */
    ghost var history: seq<seq<Row>>

    /** All seven vectors and the previous aggregates are those of the run so far. */
    ghost predicate Valid()
      reads this
    {
      prev == PriorMap(history) && forall i :: 0 <= i < 7 ==> vecs[i] == View(history, METRICS[i])
    }

    constructor ()
      ensures Valid() && history == []
    {
      vecs := [map[], map[], map[], map[], map[], map[], map[]];
      prev, history := map[], [];
    }

    method Update(rows: seq<Row>)
      requires Valid()
      modifies this
      ensures Valid() && history == old(history) + [rows]
    {
      var current, keyLabels := AggregateRows(rows);
      KeysOfRows(rows);
      MergedThenDropped(prev, current);
      Export(current, keyLabels);
      DropStale(current);
      history := history + [rows];
      forall i | 0 <= i < 7 ensures vecs[i] == View(history, METRICS[i]) {
        ViewStep(old(history), rows, METRICS[i]);
      }
    }

    /** Adds each pod's deltas, in any order. */
    method Export(current: map<string, Aggregate>, keyLabels: map<string, Labels>)
      requires Barred(current.Keys)
      requires keyLabels == map k | k in current :: LabelsFromKey(k)
      modifies this`vecs, this`prev
      ensures prev == Merged(old(prev), current, current.Keys)
      ensures AllAhead(old(vecs), vecs, current.Keys, current, old(prev))
    {
      hide AllAhead, Exported, Merged;
      var todo := current.Keys;
      NothingDone(vecs, current, prev);
      assert current.Keys - todo == {};
      while todo != {}
        invariant todo <= current.Keys
        invariant prev == Merged(old(prev), current, current.Keys - todo)
        invariant AllAhead(old(vecs), vecs, current.Keys - todo, current, old(prev))
        decreases |todo|
      {
        var key :| key in todo;
        TakeOne(current.Keys, todo, key);
        ExportTurn(old(vecs), vecs, current.Keys - todo, key, current, old(prev));
        MergeStep(old(prev), current, current.Keys - todo, key);
        var a, labels := current[key], keyLabels[key];
        vecs := Exported(vecs, labels, a, AggregateOr0(prev, key));
        prev := prev[key := a];
        todo := todo - {key};
      }
      assert current.Keys - todo == current.Keys;
    }

    /** Deletes the series and the memory of every pod that is gone. */
    method DropStale(current: map<string, Aggregate>)
      modifies this`vecs, this`prev
      ensures prev == Forgot(old(prev), old(prev).Keys - current.Keys)
      ensures AllWithout(old(vecs), vecs, old(prev).Keys - current.Keys)
    {
      ghost var stale := prev.Keys - current.Keys;
      var todo := prev.Keys - current.Keys;
      NothingGone(vecs, prev);
      hide AllWithout, Dropped, Forgot;
      assert stale - todo == {};
      while todo != {}
        invariant todo <= stale
        invariant prev == Forgot(old(prev), stale - todo)
        invariant AllWithout(old(vecs), vecs, stale - todo)
        decreases |todo|
      {
        var key :| key in todo;
        TakeOne(stale, todo, key);
        DropTurn(old(vecs), vecs, stale - todo, key);
        ForgetOne(old(prev), stale - todo, key);
        var labels := ParseKey(key);
        vecs := Dropped(vecs, labels);
        prev := prev - {key};
        todo := todo - {key};
      }
      assert stale - todo == stale;
    }
  }

  /** `prev` once the pods in `done` have been remembered. */
  function Merged(prev: map<string, Aggregate>, current: map<string, Aggregate>, done: set<string>): map<string, Aggregate> {
    prev + (map k | k in current && k in done :: current[k])
  }

  /** `prev` once the pods in `gone` have been deleted. */
  function Forgot(prev: map<string, Aggregate>, gone: set<string>): map<string, Aggregate> {
    prev - gone
  }

  lemma ForgetOne(prev: map<string, Aggregate>, gone: set<string>, key: string)
    ensures Forgot(prev, gone) - {key} == Forgot(prev, gone + {key})
  {
  }

  lemma MergeStep(prev: map<string, Aggregate>, current: map<string, Aggregate>, done: set<string>, key: string)
    requires key in current && key !in done
    ensures Merged(prev, current, done + {key}) == Merged(prev, current, done)[key := current[key]]
    ensures AggregateOr0(Merged(prev, current, done), key) == AggregateOr0(prev, key)
  {
  }

  /** Remembering the current pods and forgetting the stale ones leaves exactly the current ones. */
  lemma MergedThenDropped(prev: map<string, Aggregate>, current: map<string, Aggregate>)
    ensures var all := Merged(prev, current, current.Keys);
      && Forgot(all, all.Keys - current.Keys) == current
      && all.Keys - current.Keys == prev.Keys - current.Keys
  {
  }

  // ----- The vectors by name

  /** Every metric has exactly one vector. */
  lemma EveryMetricOnce(m: Metric)
    ensures exists i :: 0 <= i < |METRICS| && METRICS[i] == m
    ensures forall i, j :: 0 <= i < j < |METRICS| ==> METRICS[i] != METRICS[j]
  {
    match m
    case Counter(IoCount) => assert METRICS[0] == m;
    case Counter(TotalBytes) => assert METRICS[1] == m;
    case Counter(TotalLatency) => assert METRICS[2] == m;
    case Counter(ErrorCount) => assert METRICS[3] == m;
    case Counter(RunqEvents) => assert METRICS[4] == m;
    case Counter(RunqLatency) => assert METRICS[5] == m;
    case AvgLatency => assert METRICS[6] == m;
  }

  /** The gauge of a present pod is what its rows of the last cycle average to, whatever it showed before:
      the floor of exact latency over exact count, and zero without I/O. */
  lemma GaugeIsAverage(batches: seq<seq<Row>>, l: Labels)
    requires Alive(batches, l)
    requires Sum(Last(batches), l, IoCount) < TWO_64 && Sum(Last(batches), l, TotalLatency) < TWO_64
    ensures l in View(batches, AvgLatency)
    ensures var n, t := Sum(Last(batches), l, IoCount), Sum(Last(batches), l, TotalLatency);
      View(batches, AvgLatency)[l] == if n == 0 then 0 else t / n
  {
    var rows := Last(batches);
    AggregateIsSum(rows, l, IoCount);
    AggregateIsSum(rows, l, TotalLatency);
    WrapSmall(Sum(rows, l, IoCount));
    WrapSmall(Sum(rows, l, TotalLatency));
    AverageIsFloor(rows, l);
    if Sum(rows, l, IoCount) == 0 {
      NoIoNoAverage(rows, l);
    }
  }

  ghost predicate Carries(batches: seq<seq<Row>>, l: Labels, f: Field, word: Row -> nat)
    requires Alive(batches, l)
  {
    && l in View(batches, Counter(f))
    && View(batches, Counter(f))[l] == Wrap(SumOf(Last(batches), l, word)) + Carried(batches, l, f)
  }

  /** Each counter carries the kernel word it is named after, summed over the pod's rows. */
  lemma CountersByName(batches: seq<seq<Row>>, l: Labels, word: Row -> nat)
    requires Alive(batches, l)
    ensures (forall r: Row :: word(r) == r.stats.ioCount) ==> Carries(batches, l, IoCount, word)
    ensures (forall r: Row :: word(r) == r.stats.totalBytes) ==> Carries(batches, l, TotalBytes, word)
    ensures (forall r: Row :: word(r) == r.stats.totalLatency) ==> Carries(batches, l, TotalLatency, word)
    ensures (forall r: Row :: word(r) == r.stats.errorCount) ==> Carries(batches, l, ErrorCount, word)
    ensures (forall r: Row :: word(r) == r.runqStats.count) ==> Carries(batches, l, RunqEvents, word)
    ensures (forall r: Row :: word(r) == r.runqStats.totalLatency) ==> Carries(batches, l, RunqLatency, word)
  {
    hide Carries;
    if forall r: Row :: word(r) == r.stats.ioCount {
      CarriesField(batches, l, IoCount, word);
    }
    if forall r: Row :: word(r) == r.stats.totalBytes {
      CarriesField(batches, l, TotalBytes, word);
    }
    if forall r: Row :: word(r) == r.stats.totalLatency {
      CarriesField(batches, l, TotalLatency, word);
    }
    if forall r: Row :: word(r) == r.stats.errorCount {
      CarriesField(batches, l, ErrorCount, word);
    }
    if forall r: Row :: word(r) == r.runqStats.count {
      CarriesField(batches, l, RunqEvents, word);
    }
    if forall r: Row :: word(r) == r.runqStats.totalLatency {
      CarriesField(batches, l, RunqLatency, word);
    }
  }

  lemma CarriesField(batches: seq<seq<Row>>, l: Labels, f: Field, word: Row -> nat)
    requires Alive(batches, l) && forall r :: Value(r, f) == word(r)
    ensures Carries(batches, l, f, word)
  {
    Telescopes(batches, l, f);
    AggregateIsSum(Last(batches), l, f);
    SumByField(Last(batches), l, f, word);
    hide View, Wrap, Sum, SumOf, Carried, Value;
  }

  // ----- Telescoping over a series' lifetime

  predicate Alive(batches: seq<seq<Row>>, l: Labels) {
    batches != [] && l in LabelsIn(Last(batches))
  }

  /** The latest aggregate of a pod. */
  function Level(batches: seq<seq<Row>>, l: Labels, f: Field): U64 {
    Prior(batches, l).Get(f)
  }

  /** What the levels held just before each reset in the current unbroken lifetime add up to. */
  function Carried(batches: seq<seq<Row>>, l: Labels, f: Field): nat {
    if !Alive(batches, l) || !Alive(Front(batches), l) then 0
    else
      var before := Level(Front(batches), l, f);
      Carried(Front(batches), l, f) + if Level(batches, l, f) < before then before else 0
  }

  /** No level of the current lifetime fell below the one before. */
  predicate NoReset(batches: seq<seq<Row>>, l: Labels, f: Field) {
    !Alive(batches, l) || !Alive(Front(batches), l) ||
    (Level(Front(batches), l, f) <= Level(batches, l, f) && NoReset(Front(batches), l, f))
  }

  /** A pod that was absent starts from nothing. */
  lemma AbsentStartsAtZero(batches: seq<seq<Row>>, l: Labels, m: Metric)
    requires !Alive(batches, l)
    ensures Or0(View(batches, m), l) == 0 && Prior(batches, l) == ZERO
  {
    if batches != [] {
      AbsentIsZero(Last(batches), l);
    }
  }

  /** At every moment of a series' life its counter is the latest level plus what resets carried. */
  lemma {:induction false} Telescopes(batches: seq<seq<Row>>, l: Labels, f: Field)
    requires Alive(batches, l)
    ensures l in View(batches, Counter(f))
    ensures View(batches, Counter(f))[l] == Level(batches, l, f) + Carried(batches, l, f)
  {
    if Alive(Front(batches), l) {
      Telescopes(Front(batches), l, f);
    } else {
      AbsentStartsAtZero(Front(batches), l, Counter(f));
    }
  }

  /** The counter is the aggregate exactly as long as no reset has happened. */
  lemma {:induction false} ExactIffNoReset(batches: seq<seq<Row>>, l: Labels, f: Field)
    requires Alive(batches, l)
    ensures l in View(batches, Counter(f))
    ensures View(batches, Counter(f))[l] == Level(batches, l, f) <==> NoReset(batches, l, f)
  {
    Telescopes(batches, l, f);
    CarriedIffReset(batches, l, f);
  }

  lemma {:induction false} CarriedIffReset(batches: seq<seq<Row>>, l: Labels, f: Field)
    ensures Carried(batches, l, f) == 0 <==> NoReset(batches, l, f)
  {
    if Alive(batches, l) && Alive(Front(batches), l) {
      CarriedIffReset(Front(batches), l, f);
    }
  }

  /** A counter never decreases while its pod stays present. */
  lemma {:induction false} NeverDecreases(batches: seq<seq<Row>>, n: nat, l: Labels, f: Field)
    requires 0 < n <= |batches| && forall k :: n <= k <= |batches| ==> Alive(batches[..k], l)
    ensures l in View(batches[..n], Counter(f)) && l in View(batches, Counter(f))
    ensures View(batches[..n], Counter(f))[l] <= View(batches, Counter(f))[l]
  {
    assert batches[..|batches|] == batches;
    if n == |batches| {
      Telescopes(batches, l, f);
    } else {
      var h := Front(batches);
      forall k | n <= k <= |h| ensures h[..k] == batches[..k] {}
      assert h == batches[..|h|];
      NeverDecreases(h, n, l, f);
      GrowsByDelta(batches, l, f);
    }
  }

  lemma GrowsByDelta(batches: seq<seq<Row>>, l: Labels, f: Field)
    requires Alive(batches, l) && Alive(Front(batches), l)
    ensures l in View(Front(batches), Counter(f)) && l in View(batches, Counter(f))
    ensures View(batches, Counter(f))[l]
         == View(Front(batches), Counter(f))[l] + Delta(Level(batches, l, f), Level(Front(batches), l, f))
  {
    Telescopes(Front(batches), l, f);
  }
}
