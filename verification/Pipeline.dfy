/** The block I/O path end to end: kernel events, collector reads and exported counters. */
module Pipeline {
  import opened Words
  import opened KubePath
  import opened Rows
  import opened BlockLatency
  import Agg = Aggregation
  import opened Collector
  import Exporter
  import Runq = RunqLatency

  /** A kernel event, or a successful tick that read `runq` beside the block statistics. */
  datatype Event =
    | Kernel(event: BlockLatency.Event)
    | Tick(resolver: Resolver, runq: map<U64, Runq.RunqStats>, rows: seq<Row>)

  function Trace(es: seq<Event>): seq<BlockLatency.Event> {
    if es == [] then [] else
      match Last(es)
      case Kernel(e) => Trace(Front(es)) + [e]
      case Tick(_, _, _) => Trace(Front(es))
  }

  function Batches(es: seq<Event>): seq<seq<Row>> {
    if es == [] then [] else
      match Last(es)
      case Kernel(_) => Batches(Front(es))
      case Tick(_, _, rows) => Batches(Front(es)) + [rows]
  }

  function LabelsFor(r: Resolver, id: U64): Labels {
    var path := Resolve(r, id);
    Labels(ClassifyCgroupPath(path).Name(), ParseKubePath(path).podUid)
  }

  /** The tick joined the statistics in place, and its resolver knew every cgroup in them as the same
      pod as ever. */
  ghost predicate GoodTick(stats: map<U64, IoStats>, t: Event, podOf: U64 -> Labels)
    requires t.Tick?
  {
    && IsJoin(t.rows, t.resolver, stats, t.runq)
    && forall id :: id in stats ==> Known(t.resolver, id) && LabelsFor(t.resolver, id) == podOf(id)
  }

  /** No entry is ever deleted and every tick is good. */
  ghost predicate Legal(es: seq<Event>, podOf: U64 -> Labels) {
    es != [] ==>
      && Legal(Front(es), podOf)
      && (Last(es).Kernel? ==> !Last(es).event.Forget?)
      && (Last(es).Tick? ==> GoodTick(Run(Trace(Front(es))).stats, Last(es), podOf))
  }

  // ----- What a pod is owed

  predicate IsIo(f: Field) {
    f.IoCount? || f.TotalBytes? || f.TotalLatency? || f.ErrorCount?
  }

  function Get(t: Totals, f: Field): nat
    requires IsIo(f)
  {
    match f
    case IoCount => t.io
    case TotalBytes => t.bytes
    case TotalLatency => t.latency
    case ErrorCount => t.errors
  }

  /** The sum over the counted completions of every cgroup of the pod. */
  ghost function PodTotal(tr: seq<BlockLatency.Event>, podOf: U64 -> Labels, l: Labels): Totals {
    if tr == [] then NOTHING else
      var before := PodTotal(Front(tr), podOf, l);
      match Last(tr)
      case Complete(rq, failed, now) =>
        if Counts(Front(tr), rq) && podOf(Pending(Front(tr), rq).value.cgroup) == l
        then before.Plus(Charge(Pending(Front(tr), rq).value, failed, now))
        else before
      case _ => before
  }

  /** The part of one cgroup in its pod. */
  ghost function IdShare(tr: seq<BlockLatency.Event>, podOf: U64 -> Labels, l: Labels, id: U64): Totals {
    if podOf(id) == l then Sums(tr, id) else NOTHING
  }

  /** The sum of a share over a list of ids. */
  ghost function SumBy(ids: seq<U64>, share: U64 -> Totals): Totals {
    if ids == [] then NOTHING else SumBy(Front(ids), share).Plus(share(Last(ids)))
  }

  lemma PlusNothing(t: Totals)
    ensures t.Plus(NOTHING) == t == NOTHING.Plus(t)
  {
  }

  /** Over distinct ids, a change of one id's share changes the sum once. */
  lemma {:induction false} SumByGain(ids: seq<U64>, f: U64 -> Totals, g: U64 -> Totals, cg: U64, gain: Totals)
    requires Agg.Distinct(ids) && g(cg) == f(cg).Plus(gain) && forall id :: id != cg ==> g(id) == f(id)
    ensures SumBy(ids, g) == if cg in ids then SumBy(ids, f).Plus(gain) else SumBy(ids, f)
  {
    if ids != [] {
      var h, id := Front(ids), Last(ids);
      assert ids == h + [id] && id == ids[|ids| - 1];
      assert forall i :: 0 <= i < |h| ==> h[i] == ids[i] && h[i] != id;
      SumByGain(h, f, g, cg, gain);
      PlusCommutes(SumBy(h, f), gain, f(id));
    }
  }

  lemma {:induction false} SumByNothing(ids: seq<U64>, f: U64 -> Totals)
    requires forall id :: f(id) == NOTHING
    ensures SumBy(ids, f) == NOTHING
  {
    if ids != [] {
      SumByNothing(Front(ids), f);
      assert f(Last(ids)) == NOTHING;
      PlusNothing(NOTHING);
    }
  }

  ghost function IdShares(tr: seq<BlockLatency.Event>, podOf: U64 -> Labels, l: Labels): U64 -> Totals {
    (id: U64) => IdShare(tr, podOf, l, id)
  }

  ghost predicate NoForget(tr: seq<BlockLatency.Event>) {
    forall i :: 0 <= i < |tr| ==> !tr[i].Forget?
  }

  /** The cgroup the last event of `tr` is charged to, and its charge. */
  ghost predicate Charged(tr: seq<BlockLatency.Event>, cg: U64, gain: Totals) {
    && tr != [] && Last(tr).Complete? && Counts(Front(tr), Last(tr).rq)
    && cg == Pending(Front(tr), Last(tr).rq).value.cgroup
    && gain == Charge(Pending(Front(tr), Last(tr).rq).value, Last(tr).failed, Last(tr).now)
  }

  lemma ChargedSums(tr: seq<BlockLatency.Event>, cg: U64, gain: Totals, id: U64)
    requires Charged(tr, cg, gain)
    ensures Sums(tr, id) == if id == cg then Sums(Front(tr), id).Plus(gain) else Sums(Front(tr), id)
  {
  }

  lemma UnchargedSums(tr: seq<BlockLatency.Event>, id: U64)
    requires tr != [] && !Last(tr).Forget? && !(Last(tr).Complete? && Counts(Front(tr), Last(tr).rq))
    ensures Sums(tr, id) == Sums(Front(tr), id)
  {
  }

  /** Counting by cgroup and then by pod is counting by pod. */
  lemma {:induction false} IdsMakeThePod(ids: seq<U64>, tr: seq<BlockLatency.Event>, podOf: U64 -> Labels, l: Labels)
    requires NoForget(tr) && Agg.Distinct(ids) && forall cg :: cg in Tracked(tr) ==> cg in ids
    ensures SumBy(ids, IdShares(tr, podOf, l)) == PodTotal(tr, podOf, l)
  {
    if tr == [] {
      SumByNothing(ids, IdShares(tr, podOf, l));
    } else {
      var h, e := Front(tr), Last(tr);
      assert forall i :: 0 <= i < |h| ==> h[i] == tr[i];
      assert !tr[|tr| - 1].Forget?;
      IdsMakeThePod(ids, h, podOf, l);
      if e.Complete? && Counts(h, e.rq) {
        var v := Pending(h, e.rq).value;
        ChargedPod(ids, tr, podOf, l, v.cgroup, Charge(v, e.failed, e.now));
      } else {
        UnchargedPod(ids, tr, podOf, l);
      }
    }
  }

  lemma ChargedPod(ids: seq<U64>, tr: seq<BlockLatency.Event>, podOf: U64 -> Labels, l: Labels, cg: U64, gain: Totals)
    requires Charged(tr, cg, gain) && Agg.Distinct(ids) && cg in ids
    requires SumBy(ids, IdShares(Front(tr), podOf, l)) == PodTotal(Front(tr), podOf, l)
    ensures SumBy(ids, IdShares(tr, podOf, l)) == PodTotal(tr, podOf, l)
  {
    hide Counts, Pending, IdShare, PodTotal, SumBy;
    var f, g := IdShares(Front(tr), podOf, l), IdShares(tr, podOf, l);
    var share := if podOf(cg) == l then gain else NOTHING;
    forall id ensures g(id) == if id == cg then f(id).Plus(share) else f(id) {
      ShareCharged(tr, podOf, l, cg, gain, id);
    }
    SumByGain(ids, f, g, cg, share);
    PodCharged(tr, podOf, l, cg, gain);
  }

  lemma ShareCharged(tr: seq<BlockLatency.Event>, podOf: U64 -> Labels, l: Labels, cg: U64, gain: Totals, id: U64)
    requires Charged(tr, cg, gain)
    ensures var share := if podOf(cg) == l then gain else NOTHING;
      IdShare(tr, podOf, l, id)
      == if id == cg then IdShare(Front(tr), podOf, l, id).Plus(share) else IdShare(Front(tr), podOf, l, id)
  {
    hide Sums, Charged;
    ChargedSums(tr, cg, gain, id);
    if id == cg && podOf(cg) != l {
      PlusNothing(NOTHING);
    }
  }

  lemma PodCharged(tr: seq<BlockLatency.Event>, podOf: U64 -> Labels, l: Labels, cg: U64, gain: Totals)
    requires Charged(tr, cg, gain)
    ensures PodTotal(tr, podOf, l)
         == PodTotal(Front(tr), podOf, l).Plus(if podOf(cg) == l then gain else NOTHING)
  {
    PlusNothing(PodTotal(Front(tr), podOf, l));
  }

  lemma UnchargedPod(ids: seq<U64>, tr: seq<BlockLatency.Event>, podOf: U64 -> Labels, l: Labels)
    requires tr != [] && !Last(tr).Forget? && !(Last(tr).Complete? && Counts(Front(tr), Last(tr).rq))
    ensures SumBy(ids, IdShares(tr, podOf, l)) == SumBy(ids, IdShares(Front(tr), podOf, l))
    ensures PodTotal(tr, podOf, l) == PodTotal(Front(tr), podOf, l)
  {
    forall id ensures IdShares(tr, podOf, l)(id) == IdShares(Front(tr), podOf, l)(id) {
      UnchargedSums(tr, id);
    }
    SumBySame(ids, IdShares(tr, podOf, l), IdShares(Front(tr), podOf, l));
  }

  lemma {:induction false} SumBySame(ids: seq<U64>, f: U64 -> Totals, g: U64 -> Totals)
    requires forall id :: f(id) == g(id)
    ensures SumBy(ids, f) == SumBy(ids, g)
  {
    if ids != [] {
      SumBySame(Front(ids), f, g);
    }
  }

  // ----- Rows carry the sums

  ghost function RowIds(rows: seq<Row>): seq<U64> {
    seq(|rows|, i requires 0 <= i < |rows| => rows[i].cgroupId)
  }

  /** Without overflow a row contributes to a pod exactly what its cgroup is owed. */
  ghost predicate RowsCarry(rows: seq<Row>, tr: seq<BlockLatency.Event>, podOf: U64 -> Labels, l: Labels, f: Field)
    requires IsIo(f)
  {
    forall i :: 0 <= i < |rows| ==> Agg.Share(rows[i], l, f) == Get(IdShare(tr, podOf, l, rows[i].cgroupId), f)
  }

  lemma {:induction false} RowsSumUp(rows: seq<Row>, tr: seq<BlockLatency.Event>, podOf: U64 -> Labels, l: Labels, f: Field)
    requires IsIo(f) && RowsCarry(rows, tr, podOf, l, f)
    ensures Agg.Sum(rows, l, f) == Get(SumBy(RowIds(rows), IdShares(tr, podOf, l)), f)
  {
    if rows != [] {
      hide IdShare, Agg.Share;
      var h, id, share := Front(rows), rows[|rows| - 1].cgroupId, IdShares(tr, podOf, l);
      assert forall i :: 0 <= i < |h| ==> h[i] == rows[i];
      RowsSumUp(h, tr, podOf, l, f);
      assert Front(RowIds(rows)) == RowIds(h) && Last(RowIds(rows)) == id;
      assert SumBy(RowIds(rows), share) == SumBy(RowIds(h), share).Plus(share(id));
      GetPlus(SumBy(RowIds(h), share), share(id), f);
    }
  }

  lemma GetPlus(a: Totals, b: Totals, f: Field)
    requires IsIo(f)
    ensures Get(a.Plus(b), f) == Get(a, f) + Get(b, f)
  {
  }

  /** One id's share is no more than the pod's total. */
  lemma {:induction false} ShareWithinTotal(ids: seq<U64>, share: U64 -> Totals, i: nat, f: Field)
    requires IsIo(f) && i < |ids|
    ensures Get(share(ids[i]), f) <= Get(SumBy(ids, share), f)
  {
    GetPlus(SumBy(Front(ids), share), share(Last(ids)), f);
    if i < |ids| - 1 {
      assert Front(ids)[i] == ids[i];
      ShareWithinTotal(Front(ids), share, i, f);
    }
  }

  lemma StatsValue(t: Totals, r: Row, f: Field)
    requires IsIo(f) && r.stats == t.ToStats() && Get(t, f) < TWO_64
    ensures Value(r, f) == Get(t, f)
  {
    WrapSmall(Get(t, f));
  }

  /** The rows of a good tick carry what the trace says, as long as the pod's total fits a word. */
  lemma TickCarries(t: Event, tr: seq<BlockLatency.Event>, podOf: U64 -> Labels, l: Labels, f: Field)
    requires IsIo(f) && t.Tick? && GoodTick(Run(tr).stats, t, podOf) && NoForget(tr)
    requires Get(PodTotal(tr, podOf, l), f) < TWO_64
    ensures RowsCarry(t.rows, tr, podOf, l, f)
    ensures Agg.Sum(t.rows, l, f) == Get(PodTotal(tr, podOf, l), f)
  {
    var ids := RowIds(t.rows);
    TickCovers(t, tr, podOf);
    IdsMakeThePod(ids, tr, podOf, l);
    forall i | 0 <= i < |t.rows|
      ensures Agg.Share(t.rows[i], l, f) == Get(IdShare(tr, podOf, l, t.rows[i].cgroupId), f)
    {
      ShareWithinTotal(ids, IdShares(tr, podOf, l), i, f);
      RowCarries(t, tr, podOf, l, f, i);
    }
    RowsSumUp(t.rows, tr, podOf, l, f);
  }

  /** A read lists each of its rows' ids once, and every id of the statistics. */
  lemma RowsCover(rows: seq<Row>, r: Resolver, stats: map<U64, IoStats>, runq: map<U64, Runq.RunqStats>)
    requires IsJoin(rows, r, stats, runq) && forall id :: id in stats ==> Known(r, id)
    ensures Agg.Distinct(RowIds(rows)) && forall cg :: cg in stats ==> cg in RowIds(rows)
  {
    hide JoinRow, Known;
    forall cg | cg in stats ensures cg in RowIds(rows) {
      assert cg in JoinMap(r, stats, runq);
      var i :| 0 <= i < |rows| && rows[i].cgroupId == cg;
      assert RowIds(rows)[i] == cg;
    }
  }

  lemma TickCovers(t: Event, tr: seq<BlockLatency.Event>, podOf: U64 -> Labels)
    requires t.Tick? && GoodTick(Run(tr).stats, t, podOf)
    ensures Agg.Distinct(RowIds(t.rows)) && forall cg :: cg in Tracked(tr) ==> cg in RowIds(t.rows)
  {
    TrackedIsKeys(tr);
    RowsCover(t.rows, t.resolver, Run(tr).stats, t.runq);
    hide IsJoin, RowIds, Run, Tracked, LabelsFor;
  }

  lemma RowCarries(t: Event, tr: seq<BlockLatency.Event>, podOf: U64 -> Labels, l: Labels, f: Field, i: nat)
    requires IsIo(f) && t.Tick? && GoodTick(Run(tr).stats, t, podOf) && i < |t.rows|
    requires Get(IdShare(tr, podOf, l, t.rows[i].cgroupId), f) < TWO_64
    ensures Agg.Share(t.rows[i], l, f) == Get(IdShare(tr, podOf, l, t.rows[i].cgroupId), f)
  {
    var r := t.rows[i];
    var id, stats := r.cgroupId, Run(tr).stats;
    assert r == JoinRow(t.resolver, stats, t.runq, id);
    EntryIsSum(tr, id);
    assert r.stats == Sums(tr, id).ToStats();
    assert LabelsOf(r) == LabelsFor(t.resolver, id);
    if id !in stats {
      Untracked(tr, id);
      StatsValue(NOTHING, r, f);
    } else if podOf(id) == l {
      StatsValue(Sums(tr, id), r, f);
    }
  }

  lemma {:induction false} Untracked(tr: seq<BlockLatency.Event>, id: U64)
    requires id !in Run(tr).stats
    ensures Sums(tr, id) == NOTHING
  {
    TrackedIsKeys(tr);
    UntrackedOwesNothing(tr, id);
  }

  lemma {:induction false} UntrackedOwesNothing(tr: seq<BlockLatency.Event>, id: U64)
    requires id !in Tracked(tr)
    ensures Sums(tr, id) == NOTHING
  {
    if tr != [] && Last(tr) != Forget(id) {
      UntrackedOwesNothing(Front(tr), id);
    }
  }

  // ----- End to end

  lemma {:induction false} LegalForgetsNothing(es: seq<Event>, podOf: U64 -> Labels)
    requires Legal(es, podOf)
    ensures NoForget(Trace(es))
  {
    if es != [] {
      LegalForgetsNothing(Front(es), podOf);
    }
  }

  /** What the pod was owed when the collector last read the maps. */
  ghost function Reading(es: seq<Event>, podOf: U64 -> Labels, l: Labels): Totals {
    if es == [] then NOTHING
    else if Last(es).Tick? then PodTotal(Trace(es), podOf, l)
    else Reading(Front(es), podOf, l)
  }

  lemma PodTotalGrows(tr: seq<BlockLatency.Event>, podOf: U64 -> Labels, l: Labels, f: Field)
    requires IsIo(f) && tr != []
    ensures Get(PodTotal(Front(tr), podOf, l), f) <= Get(PodTotal(tr, podOf, l), f)
  {
    var e := Last(tr);
    if e.Complete? && Counts(Front(tr), e.rq) {
      var v := Pending(Front(tr), e.rq).value;
      GetPlus(PodTotal(Front(tr), podOf, l), Charge(v, e.failed, e.now), f);
    }
  }

  lemma OwedGrows(es: seq<Event>, podOf: U64 -> Labels, l: Labels, f: Field)
    requires IsIo(f) && es != []
    ensures Get(PodTotal(Trace(Front(es)), podOf, l), f) <= Get(PodTotal(Trace(es), podOf, l), f)
  {
    if Last(es).Kernel? {
      assert Front(Trace(es)) == Trace(Front(es));
      PodTotalGrows(Trace(es), podOf, l, f);
    }
  }

  lemma {:induction false} ReadingWithinOwed(es: seq<Event>, podOf: U64 -> Labels, l: Labels, f: Field)
    requires IsIo(f)
    ensures Get(Reading(es, podOf, l), f) <= Get(PodTotal(Trace(es), podOf, l), f)
  {
    if es != [] && Last(es).Kernel? {
      ReadingWithinOwed(Front(es), podOf, l, f);
      OwedGrows(es, podOf, l, f);
    }
  }

  /** The exporter's latest aggregate is the pod's exact total at the last read. */
  lemma {:induction false} LevelIsReading(es: seq<Event>, podOf: U64 -> Labels, l: Labels, f: Field)
    requires IsIo(f) && Legal(es, podOf) && Get(PodTotal(Trace(es), podOf, l), f) < TWO_64
    ensures Exporter.Level(Batches(es), l, f) == Get(Reading(es, podOf, l), f)
  {
    if es != [] {
      if Last(es).Kernel? {
        OwedGrows(es, podOf, l, f);
        LevelIsReading(Front(es), podOf, l, f);
      } else {
        TickLevel(es, podOf, l, f);
      }
    }
  }

  lemma TickLevel(es: seq<Event>, podOf: U64 -> Labels, l: Labels, f: Field)
    requires IsIo(f) && es != [] && Last(es).Tick? && Legal(es, podOf)
    requires Get(PodTotal(Trace(es), podOf, l), f) < TWO_64
    ensures Exporter.Level(Batches(es), l, f) == Get(PodTotal(Trace(es), podOf, l), f)
    ensures Agg.Sum(Last(es).rows, l, f) == Get(PodTotal(Trace(es), podOf, l), f)
  {
    var rows := Last(es).rows;
    LegalForgetsNothing(Front(es), podOf);
    TickCarries(Last(es), Trace(es), podOf, l, f);
    Agg.AggregateIsSum(rows, l, f);
    WrapSmall(Agg.Sum(rows, l, f));
    assert Last(Batches(es)) == rows;
  }

  /** Totals only grow, so no tick looks like a reset. */
  lemma {:induction false} NeverResets(es: seq<Event>, podOf: U64 -> Labels, l: Labels, f: Field)
    requires IsIo(f) && Legal(es, podOf) && Get(PodTotal(Trace(es), podOf, l), f) < TWO_64
    ensures Exporter.NoReset(Batches(es), l, f)
  {
    if es != [] {
      var h := Front(es);
      OwedGrows(es, podOf, l, f);
      NeverResets(h, podOf, l, f);
      if Last(es).Tick? {
        assert Front(Batches(es)) == Batches(h);
        TickLevel(es, podOf, l, f);
        LevelIsReading(h, podOf, l, f);
        ReadingWithinOwed(h, podOf, l, f);
      }
    }
  }

  lemma {:induction false} OwedIsPresent(rows: seq<Row>, l: Labels, f: Field)
    requires Agg.Sum(rows, l, f) > 0
    ensures l in LabelsIn(rows)
  {
    Agg.LabelsGrow(rows);
    if Agg.Share(Last(rows), l, f) == 0 {
      OwedIsPresent(Front(rows), l, f);
    }
  }

  lemma {:induction false} ReadingIsShown(es: seq<Event>, podOf: U64 -> Labels, l: Labels, f: Field)
    requires IsIo(f) && Legal(es, podOf) && Get(PodTotal(Trace(es), podOf, l), f) < TWO_64
    requires Get(Reading(es, podOf, l), f) > 0
    ensures Exporter.Alive(Batches(es), l)
  {
    if Last(es).Tick? {
      TickLevel(es, podOf, l, f);
      OwedIsPresent(Last(es).rows, l, f);
      assert Last(Batches(es)) == Last(es).rows;
    } else {
      OwedGrows(es, podOf, l, f);
      ReadingIsShown(Front(es), podOf, l, f);
    }
  }

  /** For every interleaving of kernel events with good ticks, each exported I/O counter is the exact
      sum over the pod's counted completions up to the last tick; a pod without a series is owed
      nothing. */
  lemma EndToEnd(es: seq<Event>, podOf: U64 -> Labels, l: Labels, f: Field)
    requires IsIo(f) && Legal(es, podOf) && Get(PodTotal(Trace(es), podOf, l), f) < TWO_64
    ensures var series := Exporter.View(Batches(es), Exporter.Counter(f));
      Exporter.Or0(series, l) == Get(Reading(es, podOf, l), f)
  {
    if Exporter.Alive(Batches(es), l) {
      Exporter.ExactIffNoReset(Batches(es), l, f);
      NeverResets(es, podOf, l, f);
      LevelIsReading(es, podOf, l, f);
    } else {
      Exporter.AbsentStartsAtZero(Batches(es), l, Exporter.Counter(f));
      if Get(Reading(es, podOf, l), f) > 0 {
        ReadingIsShown(es, podOf, l, f);
      }
    }
  }
}
