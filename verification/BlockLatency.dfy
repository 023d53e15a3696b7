/** The block I/O tracer (ebpf/latency/block_latency.c): two bounded hash maps driven by request
    issue and completion events, each handler taken as one atomic step. */
module BlockLatency {
  import opened Words

  const START_CAPACITY: nat := 32768
  const STATS_CAPACITY: nat := 16384

  datatype StartVal = StartVal(ts: U64, bytes: U32, cgroup: U64)

  datatype IoStats = IoStats(ioCount: U64, totalLatency: U64, totalBytes: U64, errorCount: U64)

  const ZERO_STATS := IoStats(0, 0, 0, 0)

  datatype Tracer = Tracer(start: map<U64, StartVal>, stats: map<U64, IoStats>)

  /** Forget is the collector deleting a stale cgroup's entry. */
  datatype Event =
    | Issue(rq: U64, ts: U64, bytes: U32, cgroup: U64)
    | Complete(rq: U64, failed: bool, now: U64)
    | Forget(cgroup: U64)

  // ----- The handlers

  function Bump(s: IoStats, delta: U64, bytes: U32, failed: bool): IoStats {
    IoStats(Wrap(s.ioCount + 1), Wrap(s.totalLatency + delta), Wrap(s.totalBytes + bytes),
            if failed then Wrap(s.errorCount + 1) else s.errorCount)
  }

  function EntryOr0(s: Tracer, cg: U64): IoStats {
    if cg in s.stats then s.stats[cg] else ZERO_STATS
  }

  predicate HasRoom(s: Tracer, cg: U64) {
    cg in s.stats || |s.stats| < STATS_CAPACITY
  }

  function Step(s: Tracer, e: Event): Tracer {
    match e
    case Issue(rq, ts, bytes, cgroup) =>
      s.(start := UpdateAny(s.start, rq, StartVal(ts, bytes, cgroup), START_CAPACITY))
    case Complete(rq, failed, now) =>
      if rq !in s.start then s else
        var v := s.start[rq];
        Tracer(s.start - {rq},
               if HasRoom(s, v.cgroup)
               then s.stats[v.cgroup := Bump(EntryOr0(s, v.cgroup), Wrap(now - v.ts), v.bytes, failed)]
               else s.stats)
    case Forget(cgroup) => s.(stats := s.stats - {cgroup})
  }

  function Run(tr: seq<Event>): Tracer {
    if tr == [] then Tracer(map[], map[]) else Step(Run(Front(tr)), Last(tr))
  }

  class BlockTracer {
    var startMap: map<U64, StartVal>
    var statsByCgroup: map<U64, IoStats>

    ghost function State(): Tracer
      reads this
    {
      Tracer(startMap, statsByCgroup)
    }

    constructor ()
      ensures State() == Run([])
    {
      startMap, statsByCgroup := map[], map[];
    }

    method BlockRqIssue(rq: U64, now: U64, dataLen: U32, currentCgroup: U64)
      modifies this
      ensures State() == Step(old(State()), Issue(rq, now, dataLen, currentCgroup))
    {
      var val := StartVal(now, dataLen, currentCgroup);
      startMap := UpdateAny(startMap, rq, val, START_CAPACITY);
    }

    /** Looks the entry up, inserts a zero one if there is none, and looks again. */
    method FindOrInsert(cgroup: U64) returns (found: bool)
      modifies this`statsByCgroup
      ensures found == HasRoom(old(State()), cgroup)
      ensures statsByCgroup == if found then old(statsByCgroup)[cgroup := EntryOr0(old(State()), cgroup)]
                               else old(statsByCgroup)
    {
      found := cgroup in statsByCgroup;
      if !found {
        statsByCgroup := UpdateAny(statsByCgroup, cgroup, ZERO_STATS, STATS_CAPACITY);
        found := cgroup in statsByCgroup;
      }
    }

    /** The four atomic adds on one entry. */
    method AddAll(cgroup: U64, delta: U64, bytes: U32, error: int)
      requires cgroup in statsByCgroup
      modifies this`statsByCgroup
      ensures statsByCgroup
           == old(statsByCgroup)[cgroup := Bump(old(statsByCgroup[cgroup]), delta, bytes, error != 0)]
    {
      var s := statsByCgroup[cgroup];
      s := s.(ioCount := Wrap(s.ioCount + 1));
      s := s.(totalLatency := Wrap(s.totalLatency + delta));
      s := s.(totalBytes := Wrap(s.totalBytes + bytes));
      if error != 0 {
        s := s.(errorCount := Wrap(s.errorCount + 1));
      }
      statsByCgroup := statsByCgroup[cgroup := s];
    }

    /** `nrBytes` is ignored, as in the handler: the length comes from the issue record. */
    method BlockRqComplete(rq: U64, error: int, nrBytes: U32, now: U64)
      modifies this
      ensures State() == Step(old(State()), Complete(rq, error != 0, now))
    {
      if rq !in startMap {
        return;
      }
      var start := startMap[rq];
      var delta := Wrap(now - start.ts);
      var found := FindOrInsert(start.cgroup);
      if !found {
        startMap := startMap - {rq};
        return;
      }
      AddAll(start.cgroup, delta, start.bytes, error);
      startMap := startMap - {rq};
    }

    method DeleteStats(cgroup: U64)
      modifies this
      ensures State() == Step(old(State()), Forget(cgroup))
    {
      statsByCgroup := statsByCgroup - {cgroup};
    }
  }

  // ----- What a trace means, read off the events alone

  /** The record of the latest issue of `rq` that was taken in and not yet completed. */
  ghost function Pending(tr: seq<Event>, rq: U64): Option<StartVal>
    decreases |tr|, 0
  {
    if tr == [] then None else
      match Last(tr)
      case Issue(r, ts, bytes, cgroup) =>
        if r == rq && Admits(Front(tr), rq) then Some(StartVal(ts, bytes, cgroup))
        else Pending(Front(tr), rq)
      case Complete(r, _, _) => if r == rq then None else Pending(Front(tr), rq)
      case Forget(_) => Pending(Front(tr), rq)
  }

  ghost function Outstanding(tr: seq<Event>): set<U64>
    decreases |tr|, 1
  {
    set i | 0 <= i < |tr| && tr[i].Issue? && Pending(tr, tr[i].rq).Some? :: tr[i].rq
  }

  /** An issue is taken in unless it is new and 32768 requests are already outstanding. */
  ghost predicate Admits(tr: seq<Event>, rq: U64)
    decreases |tr|, 2
  {
    Pending(tr, rq).Some? || |Outstanding(tr)| < START_CAPACITY
  }

  /** The cgroups that hold a statistics entry. */
  ghost function Tracked(tr: seq<Event>): set<U64>
    decreases |tr|, 0
  {
    if tr == [] then {} else
      var before := Tracked(Front(tr));
      match Last(tr)
      case Issue(_, _, _, _) => before
      case Complete(rq, _, _) =>
        if Counts(Front(tr), rq) then before + {Pending(Front(tr), rq).value.cgroup} else before
      case Forget(cgroup) => before - {cgroup}
  }

  /** Whether a completion of `rq` right after `tr` is counted. */
  ghost predicate Counts(tr: seq<Event>, rq: U64)
    decreases |tr|, 1
  {
    && Pending(tr, rq).Some?
    && (Pending(tr, rq).value.cgroup in Tracked(tr) || |Tracked(tr)| < STATS_CAPACITY)
  }

  /** Exact sums, before any 64-bit wrap. */
  datatype Totals = Totals(io: nat, latency: nat, bytes: nat, errors: nat) {
    function Plus(t: Totals): Totals {
      Totals(io + t.io, latency + t.latency, bytes + t.bytes, errors + t.errors)
    }
    function ToStats(): IoStats {
      IoStats(Wrap(io), Wrap(latency), Wrap(bytes), Wrap(errors))
    }
  }

  const NOTHING := Totals(0, 0, 0, 0)

  lemma PlusCommutes(a: Totals, b: Totals, c: Totals)
    ensures a.Plus(b).Plus(c) == a.Plus(c).Plus(b)
  {
  }

  function Charge(v: StartVal, failed: bool, now: U64): Totals {
    Totals(1, Wrap(now - v.ts), v.bytes, if failed then 1 else 0)
  }

  /** What the counted completions of `cgroup` add up to since its entry was last deleted. */
  ghost function Sums(tr: seq<Event>, cgroup: U64): Totals {
    if tr == [] then NOTHING else
      var before := Sums(Front(tr), cgroup);
      match Last(tr)
      case Issue(_, _, _, _) => before
      case Complete(rq, failed, now) =>
        if Counts(Front(tr), rq) && Pending(Front(tr), rq).value.cgroup == cgroup
        then before.Plus(Charge(Pending(Front(tr), rq).value, failed, now))
        else before
      case Forget(cg) => if cg == cgroup then NOTHING else before
  }

  // ----- The maps hold exactly what the trace means

  lemma {:induction false} PendingWasIssued(tr: seq<Event>, rq: U64)
    requires Pending(tr, rq).Some?
    ensures rq in Outstanding(tr)
    ensures exists i :: 0 <= i < |tr| && tr[i].Issue? && tr[i].rq == rq
  {
    if Last(tr).Issue? && Last(tr).rq == rq && Admits(Front(tr), rq) {
      assert tr[|tr| - 1].rq == rq;
    } else {
      PendingWasIssued(Front(tr), rq);
      var i :| 0 <= i < |Front(tr)| && Front(tr)[i].Issue? && Front(tr)[i].rq == rq;
      assert tr[i] == Front(tr)[i];
    }
  }

  predicate Mentions(e: Event, rq: U64) {
    (e.Issue? || e.Complete?) && e.rq == rq
  }

  /** A pending record is the one of an issue after which its request is not heard of again. */
  lemma {:induction false} PendingIsLatest(tr: seq<Event>, rq: U64) returns (i: nat)
    requires Pending(tr, rq).Some?
    ensures var v := Pending(tr, rq).value;
      && i < |tr| && tr[i] == Issue(rq, v.ts, v.bytes, v.cgroup)
      && forall j :: i < j < |tr| ==> !Mentions(tr[j], rq)
  {
    if Last(tr).Issue? && Last(tr).rq == rq {
      i := |tr| - 1;
    } else {
      i := PendingIsLatest(Front(tr), rq);
      assert forall j :: 0 <= j < |tr| - 1 ==> tr[j] == Front(tr)[j];
    }
  }

  ghost predicate Matches(tr: seq<Event>, rq: U64) {
    Pending(tr, rq) == if rq in Run(tr).start then Some(Run(tr).start[rq]) else None
  }

  /** In every reachable state the start map is the outstanding requests, each with its latest
      issue record, and fits its 32768 slots. */
  lemma {:induction false} StartMapIsPending(tr: seq<Event>)
    ensures forall rq :: Matches(tr, rq)
    ensures Run(tr).start.Keys == Outstanding(tr)
    ensures |Run(tr).start| <= 32768
  {
    if tr != [] {
      StartMapIsPending(Front(tr));
      StartStaysBounded(Run(Front(tr)), Last(tr));
      forall rq ensures Matches(tr, rq) {
        PendingStep(tr, rq);
      }
    }
    forall rq | Pending(tr, rq).Some? ensures rq in Outstanding(tr) {
      PendingWasIssued(tr, rq);
    }
    forall rq | rq in Outstanding(tr) ensures rq in Run(tr).start {
      assert Matches(tr, rq);
    }
    forall rq | rq in Run(tr).start ensures rq in Outstanding(tr) {
      assert Matches(tr, rq);
    }
  }

  lemma PendingStep(tr: seq<Event>, rq: U64)
    requires tr != [] && Matches(Front(tr), rq)
    requires |Run(Front(tr)).start| == |Outstanding(Front(tr))|
    ensures Matches(tr, rq)
  {
  }

  lemma StartStaysBounded(s: Tracer, e: Event)
    requires |s.start| <= START_CAPACITY
    ensures |Step(s, e).start| <= START_CAPACITY
  {
    if e.Issue? {
      UpdateAnyKeepsBound(s.start, e.rq, StartVal(e.ts, e.bytes, e.cgroup), START_CAPACITY);
    } else if e.Complete? && e.rq in s.start {
      assert (s.start - {e.rq}).Keys == s.start.Keys - {e.rq};
    }
  }

  /** In every reachable state the statistics map holds, per tracked cgroup, its exact sums
      modulo 2^64, and fits its 16384 slots. */
  lemma {:induction false} StatsAreSums(tr: seq<Event>)
    ensures Run(tr).stats.Keys == Tracked(tr)
    ensures |Run(tr).stats| <= 16384
    ensures forall cg :: cg in Tracked(tr) ==> Run(tr).stats[cg] == Sums(tr, cg).ToStats()
  {
    TrackedIsKeys(tr);
    forall cg | cg in Tracked(tr) ensures Run(tr).stats[cg] == Sums(tr, cg).ToStats() {
      EntryIsSum(tr, cg);
    }
  }

  lemma PendingAt(tr: seq<Event>, rq: U64)
    ensures Matches(tr, rq)
  {
    StartMapIsPending(tr);
  }

  lemma {:induction false} TrackedIsKeys(tr: seq<Event>)
    ensures Run(tr).stats.Keys == Tracked(tr)
    ensures |Run(tr).stats| <= STATS_CAPACITY
  {
    if tr != [] {
      var h, e := Front(tr), Last(tr);
      TrackedIsKeys(h);
      match e
      case Issue(_, _, _, _) =>
      case Complete(rq, _, _) => TrackedStep(tr);
      case Forget(cg) =>
        assert (Run(h).stats - {cg}).Keys == Run(h).stats.Keys - {cg};
        SubsetSize(Run(h).stats.Keys - {cg}, Run(h).stats.Keys);
    }
  }

  lemma TrackedStep(tr: seq<Event>)
    requires tr != [] && Last(tr).Complete?
    requires Run(Front(tr)).stats.Keys == Tracked(Front(tr)) && |Run(Front(tr)).stats| <= STATS_CAPACITY
    ensures Run(tr).stats.Keys == Tracked(tr) && |Run(tr).stats| <= STATS_CAPACITY
  {
    var h, rq := Front(tr), Last(tr).rq;
    PendingAt(h, rq);
    StatsKeysStep(Run(h), Last(tr));
    assert Run(tr).stats.Keys == Step(Run(h), Last(tr)).stats.Keys;
  }

  lemma StatsKeysStep(s: Tracer, e: Event)
    requires e.Complete? && |s.stats| <= STATS_CAPACITY
    ensures Step(s, e).stats.Keys
         == if e.rq in s.start && HasRoom(s, s.start[e.rq].cgroup) then s.stats.Keys + {s.start[e.rq].cgroup}
            else s.stats.Keys
    ensures |Step(s, e).stats| <= STATS_CAPACITY
  {
    if e.rq in s.start && HasRoom(s, s.start[e.rq].cgroup) {
      var cg := s.start[e.rq].cgroup;
      assert Step(s, e).stats.Keys == s.stats.Keys + {cg};
      assert |s.stats.Keys + {cg}| == if cg in s.stats then |s.stats.Keys| else |s.stats.Keys| + 1;
    }
  }

  /** The entry, or what it would be, is the sum: for a cgroup without one both are zero. */
  lemma {:induction false} EntryIsSum(tr: seq<Event>, cg: U64)
    ensures EntryOr0(Run(tr), cg) == Sums(tr, cg).ToStats()
  {
    if tr != [] {
      var h, e := Front(tr), Last(tr);
      EntryIsSum(h, cg);
      if e.Complete? && Counts(h, e.rq) && Pending(h, e.rq).value.cgroup == cg {
        EntryCounted(tr, Pending(h, e.rq).value);
      } else {
        EntryUncounted(tr, cg);
      }
    }
  }

  lemma EntryCounted(tr: seq<Event>, v: StartVal)
    requires tr != [] && Last(tr).Complete? && Counts(Front(tr), Last(tr).rq)
    requires v == Pending(Front(tr), Last(tr).rq).value
    requires EntryOr0(Run(Front(tr)), v.cgroup) == Sums(Front(tr), v.cgroup).ToStats()
    ensures EntryOr0(Run(tr), v.cgroup) == Sums(tr, v.cgroup).ToStats()
  {
    var s, e, t := Run(Front(tr)), Last(tr), Sums(Front(tr), v.cgroup);
    PendingAt(Front(tr), e.rq);
    TrackedIsKeys(Front(tr));
    assert s.start[e.rq] == v && HasRoom(s, v.cgroup);
    CountedStep(s, e, t);
    assert Sums(tr, v.cgroup) == t.Plus(Charge(v, e.failed, e.now));
  }

  lemma EntryUncounted(tr: seq<Event>, cg: U64)
    requires tr != [] && EntryOr0(Run(Front(tr)), cg) == Sums(Front(tr), cg).ToStats()
    requires Last(tr).Complete? && Counts(Front(tr), Last(tr).rq)
      ==> Pending(Front(tr), Last(tr).rq).value.cgroup != cg
    ensures EntryOr0(Run(tr), cg) == Sums(tr, cg).ToStats()
  {
    var h, e := Front(tr), Last(tr);
    if e == Forget(cg) {
      assert Sums(tr, cg) == NOTHING;
      assert cg !in Run(tr).stats;
    } else {
      if e.Complete? {
        PendingAt(h, e.rq);
        TrackedIsKeys(h);
      }
      assert Sums(tr, cg) == Sums(h, cg);
      UncountedStep(Run(h), e, cg);
    }
  }

  lemma CountedStep(s: Tracer, e: Event, t: Totals)
    requires e.Complete? && e.rq in s.start && HasRoom(s, s.start[e.rq].cgroup)
    requires EntryOr0(s, s.start[e.rq].cgroup) == t.ToStats()
    ensures var v := s.start[e.rq];
      EntryOr0(Step(s, e), v.cgroup) == t.Plus(Charge(v, e.failed, e.now)).ToStats()
  {
    BumpIsPlus(t, s.start[e.rq], e.failed, e.now);
  }

  lemma UncountedStep(s: Tracer, e: Event, cg: U64)
    requires e.Complete? && e.rq in s.start && s.start[e.rq].cgroup == cg ==> !HasRoom(s, cg)
    requires e != Forget(cg)
    ensures EntryOr0(Step(s, e), cg) == EntryOr0(s, cg)
  {
  }

  lemma BumpIsPlus(t: Totals, v: StartVal, failed: bool, now: U64)
    ensures Bump(t.ToStats(), Wrap(now - v.ts), v.bytes, failed)
         == t.Plus(Charge(v, failed, now)).ToStats()
  {
    WrapAdd(t.io, 1);
    WrapAdd(t.latency, Wrap(now - v.ts));
    WrapAdd(t.bytes, v.bytes);
    WrapAdd(t.errors, 1);
  }

  /** Errors never outnumber operations. */
  lemma {:induction false} ErrorsWithinIo(tr: seq<Event>, cgroup: U64)
    ensures Sums(tr, cgroup).errors <= Sums(tr, cgroup).io
  {
    if tr != [] {
      ErrorsWithinIo(Front(tr), cgroup);
    }
  }

  // ----- Accounting of issues

  datatype Ledger = Ledger(accepted: nat, counted: nat, dropped: nat, overwritten: nat)

  ghost function Tally(tr: seq<Event>): Ledger {
    if tr == [] then Ledger(0, 0, 0, 0) else
      var h := Front(tr);
      var l := Tally(h);
      match Last(tr)
      case Issue(rq, _, _, _) =>
        if Pending(h, rq).Some? then l.(accepted := l.accepted + 1, overwritten := l.overwritten + 1)
        else if Admits(h, rq) then l.(accepted := l.accepted + 1)
        else l
      case Complete(rq, _, _) =>
        if Counts(h, rq) then l.(counted := l.counted + 1)
        else if Pending(h, rq).Some? then l.(dropped := l.dropped + 1)
        else l
      case Forget(_) => l
  }

  /** Every accepted issue ends in exactly one place. */
  lemma {:induction false} IssuesAreAccounted(tr: seq<Event>)
    ensures var l := Tally(tr);
      l.accepted == l.counted + l.dropped + l.overwritten + |Run(tr).start|
  {
    if tr != [] {
      var h, e := Front(tr), Last(tr);
      IssuesAreAccounted(h);
      StartMapIsPending(h);
      assert !e.Forget? ==> Matches(h, e.rq);
      if e.Issue? {
        UpdateAnyKeepsBound(Run(h).start, e.rq, StartVal(e.ts, e.bytes, e.cgroup), START_CAPACITY);
      } else if e.Complete? && e.rq in Run(h).start {
        assert Run(h).start.Keys - {e.rq} == (Run(h).start - {e.rq}).Keys;
      }
    }
  }

  // ----- Clocks

  function Time(e: Event): Option<U64> {
    match e
    case Issue(_, ts, _, _) => Some(ts)
    case Complete(_, _, now) => Some(now)
    case Forget(_) => None
  }

  ghost predicate ClockAscends(tr: seq<Event>) {
    forall i, j :: 0 <= i < j < |tr| && Time(tr[i]).Some? && Time(tr[j]).Some?
      ==> Time(tr[i]).value <= Time(tr[j]).value
  }

  /** With a clock that never goes back, a completion is charged as one operation, the plain difference
      of its two stamps, the length at issue, and an error if it failed. */
  lemma {:induction false} LatencyIsElapsed(tr: seq<Event>, rq: U64, failed: bool, now: U64)
    requires ClockAscends(tr + [Complete(rq, failed, now)])
    requires Pending(tr, rq).Some?
    ensures var v := Pending(tr, rq).value;
      v.ts <= now && Charge(v, failed, now) == Totals(1, now - v.ts, v.bytes, if failed then 1 else 0)
  {
    var full := tr + [Complete(rq, failed, now)];
    if Last(tr).Issue? && Last(tr).rq == rq && Admits(Front(tr), rq) {
      assert full[|tr| - 1] == Last(tr) && full[|tr|] == Complete(rq, failed, now);
    } else {
      var shorter := Front(tr) + [Complete(rq, failed, now)];
      forall i, j | 0 <= i < j < |shorter| && Time(shorter[i]).Some? && Time(shorter[j]).Some?
        ensures Time(shorter[i]).value <= Time(shorter[j]).value
      {
        var j' := if j == |shorter| - 1 then |tr| else j;
        assert full[i] == shorter[i] && full[j'] == shorter[j];
      }
      LatencyIsElapsed(Front(tr), rq, failed, now);
    }
  }

  // ----- Traces that fit

  /** The latest uncompleted issue of `rq`, with no bound on the map. */
  ghost function LatestIssue(tr: seq<Event>, rq: U64): Option<StartVal> {
    if tr == [] then None else
      match Last(tr)
      case Issue(r, ts, bytes, cgroup) =>
        if r == rq then Some(StartVal(ts, bytes, cgroup)) else LatestIssue(Front(tr), rq)
      case Complete(r, _, _) => if r == rq then None else LatestIssue(Front(tr), rq)
      case Forget(_) => LatestIssue(Front(tr), rq)
  }

  ghost function Requests(tr: seq<Event>): set<U64> {
    set i | 0 <= i < |tr| && tr[i].Issue? :: tr[i].rq
  }

  ghost function Cgroups(tr: seq<Event>): set<U64> {
    set i | 0 <= i < |tr| && tr[i].Issue? :: tr[i].cgroup
  }

  /** The trace names at most 32768 requests and 16384 cgroups. */
  ghost predicate Fits(tr: seq<Event>) {
    |Requests(tr)| <= 32768 && |Cgroups(tr)| <= 16384
  }

  lemma NamesGrow(tr: seq<Event>)
    requires tr != []
    ensures Requests(Front(tr)) <= Requests(tr) && Cgroups(Front(tr)) <= Cgroups(tr)
    ensures Last(tr).Issue? ==> Last(tr).rq in Requests(tr) && Last(tr).cgroup in Cgroups(tr)
    ensures Fits(tr) ==> Fits(Front(tr))
  {
    var h := Front(tr);
    forall i | 0 <= i < |h| && h[i].Issue? ensures h[i].rq in Requests(tr) && h[i].cgroup in Cgroups(tr) {
      assert tr[i] == h[i];
    }
    if Last(tr).Issue? {
      assert tr[|tr| - 1] == Last(tr);
    }
    SubsetSize(Requests(h), Requests(tr));
    SubsetSize(Cgroups(h), Cgroups(tr));
  }

  /** No issue and no completion ever finds its map full. */
  ghost predicate NeverFull(tr: seq<Event>) {
    tr != [] ==>
      && NeverFull(Front(tr))
      && (Last(tr).Issue? ==> Admits(Front(tr), Last(tr).rq))
      && (Last(tr).Complete? && Pending(Front(tr), Last(tr).rq).Some? ==> Counts(Front(tr), Last(tr).rq))
  }

  /** As long as no map is full, a completion is matched with the latest issue of its request. */
  lemma {:induction false} NothingRefused(tr: seq<Event>, rq: U64)
    requires NeverFull(tr)
    ensures Pending(tr, rq) == LatestIssue(tr, rq)
  {
    if tr != [] {
      NothingRefused(Front(tr), rq);
    }
  }

  lemma {:induction false} PendingNamed(tr: seq<Event>, rq: U64)
    requires Pending(tr, rq).Some?
    ensures Pending(tr, rq).value.cgroup in Cgroups(tr)
  {
    NamesGrow(tr);
    if !(Last(tr).Issue? && Last(tr).rq == rq && Admits(Front(tr), rq)) {
      PendingNamed(Front(tr), rq);
    }
  }

  lemma {:induction false} TrackedWereNamed(tr: seq<Event>)
    ensures Tracked(tr) <= Cgroups(tr)
  {
    if tr != [] {
      NamesGrow(tr);
      TrackedWereNamed(Front(tr));
      if Last(tr).Complete? && Counts(Front(tr), Last(tr).rq) {
        PendingNamed(Front(tr), Last(tr).rq);
      }
    }
  }

  /** A trace that names few enough requests and cgroups never fills a map. */
  lemma {:induction false} FewNamesFit(tr: seq<Event>)
    requires Fits(tr)
    ensures NeverFull(tr)
  {
    if tr != [] {
      var h, e := Front(tr), Last(tr);
      NamesGrow(tr);
      FewNamesFit(h);
      if e.Issue? && Pending(h, e.rq).None? {
        assert e.rq !in Outstanding(h);
        SubsetSize(Outstanding(h), Requests(tr));
      } else if e.Complete? && Pending(h, e.rq).Some? {
        PendingNamed(h, e.rq);
        TrackedWereNamed(h);
        SubsetSize(Tracked(h), Cgroups(h));
      }
    }
  }
}
