/** The run-queue tracer (ebpf/latency/runq_latency.c): a task's wait runs from its latest enqueue,
    by wakeup or preemption, to the switch that runs it. */
module RunqLatency {
  import opened Words

  const START_CAPACITY: nat := 16384
  const STATS_CAPACITY: nat := 8192

  datatype Key = Key(pid: U32, startTime: U64)

  datatype RunqStats = RunqStats(count: U64, totalLatency: U64)

  const ZERO_STATS := RunqStats(0, 0)

  datatype Tracer = Tracer(start: map<Key, U64>, stats: map<U64, RunqStats>)

  /** The map operations scheduler events come down to; Forget is the collector deleting a stale
      cgroup's entry. */
  datatype Op =
    | Enqueue(key: Key, ts: U64)
    | Dequeue(key: Key, now: U64, cgroup: U64)
    | Forget(cgroup: U64)

  /** A switch reads the clock once for a preempted `prev` and once for `next`. */
  datatype SchedEvent =
    | Wakeup(task: Key, ts: U64)
    | Switch(preempted: bool, prev: Key, prevNow: U64, next: Key, now: U64, cgroup: U64)

  function OpsOf(e: SchedEvent): seq<Op> {
    match e
    case Wakeup(task, ts) => [Enqueue(task, ts)]
    case Switch(preempted, prev, prevNow, next, now, cgroup) =>
      if preempted then [Enqueue(prev, prevNow), Dequeue(next, now, cgroup)]
      else [Dequeue(next, now, cgroup)]
  }

  // ----- The handlers

  function EntryOr0(s: Tracer, cg: U64): RunqStats {
    if cg in s.stats then s.stats[cg] else ZERO_STATS
  }

  predicate HasRoom(s: Tracer, cg: U64) {
    cg in s.stats || |s.stats| < STATS_CAPACITY
  }

  function Bump(s: RunqStats, delta: U64): RunqStats {
    RunqStats(Wrap(s.count + 1), Wrap(s.totalLatency + delta))
  }

  function Step(s: Tracer, op: Op): Tracer {
    match op
    case Enqueue(key, ts) => s.(start := UpdateAny(s.start, key, ts, START_CAPACITY))
    case Dequeue(key, now, cgroup) =>
      if key !in s.start then s else
        Tracer(s.start - {key},
               if HasRoom(s, cgroup)
               then s.stats[cgroup := Bump(EntryOr0(s, cgroup), Wrap(now - s.start[key]))]
               else s.stats)
    case Forget(cgroup) => s.(stats := s.stats - {cgroup})
  }

  function Run(ops: seq<Op>): Tracer {
    if ops == [] then Tracer(map[], map[]) else Step(Run(Front(ops)), Last(ops))
  }

  function React(s: Tracer, e: SchedEvent): Tracer {
    if |OpsOf(e)| == 1 then Step(s, OpsOf(e)[0]) else Step(Step(s, OpsOf(e)[0]), OpsOf(e)[1])
  }

  /** Feeding an event to the tracer is feeding it the event's operations. */
  lemma ReactIsRun(ops: seq<Op>, e: SchedEvent)
    ensures Run(ops + OpsOf(e)) == React(Run(ops), e)
  {
    var more := OpsOf(e);
    assert Front(ops + [more[0]]) == ops;
    if |more| == 2 {
      assert Front(ops + more) == ops + [more[0]];
    } else {
      assert more == [more[0]];
    }
  }

  class RunqTracer {
    var startMap: map<Key, U64>
    var statsByCgroup: map<U64, RunqStats>

    ghost function State(): Tracer
      reads this
    {
      Tracer(startMap, statsByCgroup)
    }

    constructor ()
      ensures State() == Run([])
    {
      startMap, statsByCgroup := map[], map[];
    }

    /** sched_wakeup and sched_wakeup_new. */
    method HandleWakeup(task: Key, ts: U64)
      modifies this
      ensures State() == React(old(State()), Wakeup(task, ts))
    {
      startMap := UpdateAny(startMap, task, ts, START_CAPACITY);
    }

    method SchedSwitch(prevState: int, prev: Key, prevNow: U64, next: Key, now: U64, cgroup: U64)
      modifies this
      ensures State() == React(old(State()), Switch(prevState == 0, prev, prevNow, next, now, cgroup))
      ensures next !in startMap
      ensures startMap == (if prevState == 0 then UpdateAny(old(startMap), prev, prevNow, 16384) else old(startMap)) - {next}
    {
      if prevState == 0 {
        startMap := UpdateAny(startMap, prev, prevNow, START_CAPACITY);
      }
      SwitchIn(next, now, cgroup);
    }

    /** The part of the switch that concerns `next`. */
    method SwitchIn(next: Key, now: U64, cgroup: U64)
      modifies this
      ensures State() == Step(old(State()), Dequeue(next, now, cgroup))
      ensures startMap == old(startMap) - {next}
    {
      if next !in startMap {
        return;
      }
      var delta := Wrap(now - startMap[next]);
      startMap := startMap - {next};
      Charge(cgroup, delta);
    }

    method DeleteStats(cgroup: U64)
      modifies this
      ensures State() == Step(old(State()), Forget(cgroup))
    {
      statsByCgroup := statsByCgroup - {cgroup};
    }

    /** Finds or creates the entry and adds to it; a full map drops the wait. */
    method Charge(cgroup: U64, delta: U64)
      modifies this`statsByCgroup
      ensures statsByCgroup == if HasRoom(old(State()), cgroup)
        then old(statsByCgroup)[cgroup := Bump(EntryOr0(old(State()), cgroup), delta)]
        else old(statsByCgroup)
    {
      if cgroup !in statsByCgroup {
        statsByCgroup := UpdateAny(statsByCgroup, cgroup, ZERO_STATS, STATS_CAPACITY);
        if cgroup !in statsByCgroup {
          return;
        }
      }
      var s := statsByCgroup[cgroup];
      s := s.(count := Wrap(s.count + 1));
      s := s.(totalLatency := Wrap(s.totalLatency + delta));
      statsByCgroup := statsByCgroup[cgroup := s];
    }
  }

  // ----- Waits

  datatype Wait = Wait(key: Key, from: U64, until: U64, cgroup: U64) {
    function Length(): U64 {
      Wrap(until - from)
    }
  }

  /** The wait that `op` ends and counts in state `s`: one or none. */
  function Counted(s: Tracer, op: Op): seq<Wait> {
    if op.Dequeue? && op.key in s.start && HasRoom(s, op.cgroup)
    then [Wait(op.key, s.start[op.key], op.now, op.cgroup)]
    else []
  }

  function Waits(ops: seq<Op>): seq<Wait> {
    if ops == [] then [] else Waits(Front(ops)) + Counted(Run(Front(ops)), Last(ops))
  }

  datatype Totals = Totals(count: nat, latency: nat) {
    function ToStats(): RunqStats {
      RunqStats(Wrap(count), Wrap(latency))
    }
  }

  function SumStep(t: Totals, s: Tracer, op: Op, cg: U64): Totals {
    if op == Forget(cg) then Totals(0, 0)
    else if Counted(s, op) != [] && op.cgroup == cg
    then Totals(t.count + 1, t.latency + Counted(s, op)[0].Length())
    else t
  }

  /** What the counted waits of `cg` add up to since its entry was last deleted. */
  function Sums(ops: seq<Op>, cg: U64): Totals {
    if ops == [] then Totals(0, 0)
    else SumStep(Sums(Front(ops), cg), Run(Front(ops)), Last(ops), cg)
  }

  lemma BumpIsPlus(t: Totals, delta: U64)
    ensures Bump(t.ToStats(), delta) == Totals(t.count + 1, t.latency + delta).ToStats()
  {
    WrapAdd(t.count, 1);
    WrapAdd(t.latency, delta);
  }

  /** In every reachable state a cgroup's entry is its exact sums modulo 2^64; without an entry the
      sums are zero. */
  lemma {:induction false} EntryIsSum(ops: seq<Op>, cg: U64)
    ensures EntryOr0(Run(ops), cg) == Sums(ops, cg).ToStats()
  {
    if ops != [] {
      EntryIsSum(Front(ops), cg);
      EntryStep(Run(Front(ops)), Last(ops), cg, Sums(Front(ops), cg));
    }
  }

  /** An operation deletes the entry, bumps it by the wait it counts, or leaves it. */
  lemma EntryMoves(s: Tracer, op: Op, cg: U64)
    ensures EntryOr0(Step(s, op), cg)
         == if op == Forget(cg) then ZERO_STATS
            else if Counted(s, op) != [] && op.cgroup == cg then Bump(EntryOr0(s, cg), Counted(s, op)[0].Length())
            else EntryOr0(s, cg)
  {
    hide Wrap, Bump;
  }

  lemma EntryStep(s: Tracer, op: Op, cg: U64, t: Totals)
    requires EntryOr0(s, cg) == t.ToStats()
    ensures EntryOr0(Step(s, op), cg) == SumStep(t, s, op, cg).ToStats()
  {
    hide Step, EntryOr0, Bump, HasRoom;
    EntryMoves(s, op, cg);
    if op != Forget(cg) && Counted(s, op) != [] && op.cgroup == cg {
      BumpIsPlus(t, Counted(s, op)[0].Length());
    }
  }

  // ----- Disjoint waits

  function Time(op: Op): Option<U64> {
    match op
    case Enqueue(_, ts) => Some(ts)
    case Dequeue(_, now, _) => Some(now)
    case Forget(_) => None
  }

  /** The clock reads no earlier than `since` and never goes back. */
  ghost predicate ClockAscends(ops: seq<Op>, since: U64) {
    && (forall i :: 0 <= i < |ops| && Time(ops[i]).Some? ==> since <= Time(ops[i]).value)
    && (forall i, j :: 0 <= i < j < |ops| && Time(ops[i]).Some? && Time(ops[j]).Some?
          ==> Time(ops[i]).value <= Time(ops[j]).value)
  }

  /** The latest clock reading. */
  function Now(ops: seq<Op>, since: U64): U64 {
    if ops == [] then since
    else if Time(Last(ops)).Some? then Time(Last(ops)).value
    else Now(Front(ops), since)
  }

  lemma {:induction false} NowIsLatest(ops: seq<Op>, since: U64)
    requires ClockAscends(ops, since)
    ensures since <= Now(ops, since)
    ensures forall i :: 0 <= i < |ops| && Time(ops[i]).Some? ==> Time(ops[i]).value <= Now(ops, since)
  {
    if ops != [] {
      assert Last(ops) == ops[|ops| - 1];
      if Time(Last(ops)).None? {
        FrontAscends(ops, since);
        NowIsLatest(Front(ops), since);
        forall i | 0 <= i < |ops| && Time(ops[i]).Some? ensures Time(ops[i]).value <= Now(ops, since) {
          assert ops[i] == Front(ops)[i];
        }
      }
    }
  }

  lemma FrontAscends(ops: seq<Op>, since: U64)
    requires ops != [] && ClockAscends(ops, since)
    ensures ClockAscends(Front(ops), since)
  {
    var h := Front(ops);
    assert forall i :: 0 <= i < |h| ==> h[i] == ops[i];
  }

  lemma NowGrows(ops: seq<Op>, since: U64)
    requires ops != [] && ClockAscends(ops, since)
    ensures since <= Now(Front(ops), since) <= Now(ops, since)
    ensures Time(Last(ops)).Some? ==> Now(ops, since) == Time(Last(ops)).value
  {
    FrontAscends(ops, since);
    NowIsLatest(Front(ops), since);
    if Time(Last(ops)).Some? {
      NowWasRead(Front(ops), since);
      if Now(Front(ops), since) != since {
        var i :| 0 <= i < |Front(ops)| && Time(Front(ops)[i]) == Some(Now(Front(ops), since));
        assert Front(ops)[i] == ops[i] && Last(ops) == ops[|ops| - 1];
      } else {
        assert Last(ops) == ops[|ops| - 1];
      }
    }
  }

  lemma {:induction false} NowWasRead(ops: seq<Op>, since: U64)
    ensures Now(ops, since) == since
         || exists i :: 0 <= i < |ops| && Time(ops[i]) == Some(Now(ops, since))
  {
    if ops != [] {
      if Time(Last(ops)).Some? {
        assert Time(ops[|ops| - 1]) == Some(Now(ops, since));
      } else {
        NowWasRead(Front(ops), since);
        if Now(ops, since) != since {
          var i :| 0 <= i < |Front(ops)| && Time(Front(ops)[i]) == Some(Now(Front(ops), since));
          assert ops[i] == Front(ops)[i];
        }
      }
    }
  }

  /** A wait ends by `t`, and a queued task joined the queue after its earlier waits ended. */
  ghost predicate Ordered(s: Tracer, ws: seq<Wait>, t: U64) {
    && (forall key :: key in s.start ==> s.start[key] <= t)
    && (forall i :: 0 <= i < |ws| ==> ws[i].from <= ws[i].until <= t)
    && (forall i :: 0 <= i < |ws| && ws[i].key in s.start ==> ws[i].until <= s.start[ws[i].key])
    && (forall i, j :: 0 <= i < j < |ws| && ws[i].key == ws[j].key ==> ws[i].until <= ws[j].from)
  }

  lemma StepKeepsOrder(s: Tracer, ws: seq<Wait>, t: U64, op: Op, t': U64)
    requires Ordered(s, ws, t) && t <= t' && (Time(op).Some? ==> t' == Time(op).value)
    ensures Ordered(Step(s, op), ws + Counted(s, op), t')
  {
    hide Wrap;
  }

  /** Over every schedule whose clock never goes back, the counted waits of one task are pairwise
      disjoint. */
  lemma {:induction false} WaitsAreDisjoint(ops: seq<Op>, since: U64)
    requires ClockAscends(ops, since)
    ensures Ordered(Run(ops), Waits(ops), Now(ops, since))
  {
    if ops != [] {
      FrontAscends(ops, since);
      NowGrows(ops, since);
      WaitsAreDisjoint(Front(ops), since);
      StepKeepsOrder(Run(Front(ops)), Waits(Front(ops)), Now(Front(ops), since), Last(ops), Now(ops, since));
    }
  }

  lemma OrderedIsElapsed(s: Tracer, ws: seq<Wait>, t: U64, i: nat)
    requires Ordered(s, ws, t) && i < |ws|
    ensures ws[i].Length() == ws[i].until - ws[i].from
  {
    WrapSmall(ws[i].until - ws[i].from);
  }

  /** No subtraction underflows: a counted wait is its plain length. */
  lemma WaitsAreElapsed(ops: seq<Op>, since: U64, i: nat)
    requires ClockAscends(ops, since) && i < |Waits(ops)|
    ensures Waits(ops)[i].Length() == Waits(ops)[i].until - Waits(ops)[i].from
  {
    WaitsAreDisjoint(ops, since);
    OrderedIsElapsed(Run(ops), Waits(ops), Now(ops, since), i);
  }

  /** All the time `key` was counted as waiting. */
  function TaskWait(ws: seq<Wait>, key: Key): nat {
    if ws == [] then 0
    else TaskWait(Front(ws), key) + if Last(ws).key == key then Last(ws).Length() else 0
  }

  /** What `op` adds to the waiting time of `key`. */
  function Gain(s: Tracer, op: Op, key: Key): nat {
    if Counted(s, op) != [] && op.key == key then Counted(s, op)[0].Length() else 0
  }

  lemma TaskWaitGrows(ws: seq<Wait>, s: Tracer, op: Op, key: Key)
    ensures TaskWait(ws + Counted(s, op), key) == TaskWait(ws, key) + Gain(s, op, key)
  {
    if Counted(s, op) != [] {
      var w := Counted(s, op)[0];
      assert Front(ws + [w]) == ws;
    } else {
      assert ws + Counted(s, op) == ws;
    }
  }

  /** The latest moment a wait of `key` can have ended by. */
  function Frontier(s: Tracer, key: Key, now: U64): U64 {
    if key in s.start then s.start[key] else now
  }

  /** The frontier never recedes, and a wait that ends moves it from its start to its end. */
  lemma FrontierAdvances(s: Tracer, op: Op, t: U64, t': U64, key: Key)
    requires t <= t' && (Time(op).Some? ==> t' == Time(op).value)
    requires key in s.start ==> s.start[key] <= t
    ensures Frontier(s, key, t) <= Frontier(Step(s, op), key, t')
    ensures Counted(s, op) != [] && op.key == key ==>
      Counted(s, op)[0].from == Frontier(s, key, t) && Counted(s, op)[0].until == Frontier(Step(s, op), key, t')
  {
    hide Wrap;
  }

  lemma GainWithinFrontier(s: Tracer, op: Op, t: U64, t': U64, key: Key)
    requires t <= t' && (Time(op).Some? ==> t' == Time(op).value)
    requires key in s.start ==> s.start[key] <= t
    ensures Gain(s, op, key) <= Frontier(Step(s, op), key, t') - Frontier(s, key, t)
  {
    FrontierAdvances(s, op, t, t', key);
    if Counted(s, op) != [] && op.key == key {
      WrapSmall(Counted(s, op)[0].until - Counted(s, op)[0].from);
    }
  }

  /** A task never waits longer than the clock has run; while it is queued, no longer than until it
      joined the queue. */
  lemma {:induction false} WaitWithinElapsed(ops: seq<Op>, since: U64, key: Key)
    requires ClockAscends(ops, since)
    ensures TaskWait(Waits(ops), key) <= Frontier(Run(ops), key, Now(ops, since)) - since
  {
    if ops != [] {
      FrontAscends(ops, since);
      NowGrows(ops, since);
      WaitWithinElapsed(Front(ops), since, key);
      WaitsAreDisjoint(Front(ops), since);
      TaskWaitGrows(Waits(Front(ops)), Run(Front(ops)), Last(ops), key);
      GainWithinFrontier(Run(Front(ops)), Last(ops), Now(Front(ops), since), Now(ops, since), key);
    }
  }

  // ----- Schedules that fit the maps

  /** The latest enqueue of `key` no switch has consumed, read off the operations alone. */
  function LatestEnqueue(ops: seq<Op>, key: Key): Option<U64> {
    if ops == [] then None else
      match Last(ops)
      case Enqueue(k, ts) => if k == key then Some(ts) else LatestEnqueue(Front(ops), key)
      case Dequeue(k, _, _) => if k == key then None else LatestEnqueue(Front(ops), key)
      case Forget(_) => LatestEnqueue(Front(ops), key)
  }

  ghost function Tasks(ops: seq<Op>): set<Key> {
    set i | 0 <= i < |ops| && ops[i].Enqueue? :: ops[i].key
  }

  ghost function Cgroups(ops: seq<Op>): set<U64> {
    set i | 0 <= i < |ops| && ops[i].Dequeue? :: ops[i].cgroup
  }

  ghost predicate Fits(ops: seq<Op>) {
    |Tasks(ops)| <= 16384 && |Cgroups(ops)| <= 8192
  }

  lemma NamesGrow(ops: seq<Op>)
    requires ops != []
    ensures Tasks(Front(ops)) <= Tasks(ops) && Cgroups(Front(ops)) <= Cgroups(ops)
    ensures Last(ops).Enqueue? ==> Last(ops).key in Tasks(ops)
    ensures Last(ops).Dequeue? ==> Last(ops).cgroup in Cgroups(ops)
    ensures Fits(ops) ==> Fits(Front(ops))
  {
    var h := Front(ops);
    assert Last(ops) == ops[|ops| - 1];
    forall i | 0 <= i < |h| ensures h[i] == ops[i] {}
    assert forall i :: 0 <= i < |h| && h[i].Enqueue? ==> ops[i].key in Tasks(ops);
    assert forall i :: 0 <= i < |h| && h[i].Dequeue? ==> ops[i].cgroup in Cgroups(ops);
    SubsetSize(Tasks(h), Tasks(ops));
    SubsetSize(Cgroups(h), Cgroups(ops));
  }

  lemma StepKeepsBounds(s: Tracer, op: Op)
    requires |s.start| <= START_CAPACITY && |s.stats| <= STATS_CAPACITY
    ensures |Step(s, op).start| <= START_CAPACITY && |Step(s, op).stats| <= STATS_CAPACITY
  {
    hide Bump;
    match op
    case Enqueue(key, ts) => UpdateAnyKeepsBound(s.start, key, ts, START_CAPACITY);
    case Dequeue(key, _, cgroup) =>
      SubsetSize(s.start.Keys - {key}, s.start.Keys);
      assert (s.start - {key}).Keys == s.start.Keys - {key};
      if key in s.start {
        UpdateAnyKeepsBound(s.stats, cgroup, Bump(EntryOr0(s, cgroup), Wrap(op.now - s.start[key])), STATS_CAPACITY);
      }
    case Forget(cgroup) =>
      SubsetSize(s.stats.Keys - {cgroup}, s.stats.Keys);
      assert (s.stats - {cgroup}).Keys == s.stats.Keys - {cgroup};
  }

  /** In every reachable state both maps fit their slots. */
  lemma {:induction false} MapsStayBounded(ops: seq<Op>)
    ensures |Run(ops).start| <= 16384 && |Run(ops).stats| <= 8192
  {
    if ops != [] {
      MapsStayBounded(Front(ops));
      StepKeepsBounds(Run(Front(ops)), Last(ops));
    }
  }

  /** No enqueue and no switch-in ever finds its map full. */
  ghost predicate NeverFull(ops: seq<Op>) {
    ops != [] ==>
      && NeverFull(Front(ops))
      && var s, op := Run(Front(ops)), Last(ops);
      && (op.Enqueue? ==> op.key in s.start || |s.start| < START_CAPACITY)
      && (op.Dequeue? && op.key in s.start ==> HasRoom(s, op.cgroup))
  }

  ghost predicate Measured(ops: seq<Op>, key: Key) {
    LatestEnqueue(ops, key) == if key in Run(ops).start then Some(Run(ops).start[key]) else None
  }

  /** While the maps have room, every wait is measured from the task's latest enqueue. */
  lemma {:induction false} MeasuredFromLatestEnqueue(ops: seq<Op>, key: Key)
    requires NeverFull(ops)
    ensures Measured(ops, key)
  {
    if ops != [] {
      MeasuredFromLatestEnqueue(Front(ops), key);
    }
  }

  lemma {:induction false} MapsHoldNames(ops: seq<Op>)
    ensures Run(ops).start.Keys <= Tasks(ops) && Run(ops).stats.Keys <= Cgroups(ops)
  {
    if ops != [] {
      NamesGrow(ops);
      MapsHoldNames(Front(ops));
    }
  }

  /** A schedule that names few enough tasks and cgroups never fills a map. */
  lemma {:induction false} FewNamesFit(ops: seq<Op>)
    requires Fits(ops)
    ensures NeverFull(ops)
  {
    if ops != [] {
      NamesGrow(ops);
      FewNamesFit(Front(ops));
      MapsHoldNames(Front(ops));
      var s, op := Run(Front(ops)), Last(ops);
      if op.Enqueue? && op.key !in s.start {
        SubsetSize(s.start.Keys, Tasks(ops));
      } else if op.Dequeue? && op.cgroup !in s.stats {
        SubsetSize(s.stats.Keys, Cgroups(ops));
      }
    }
  }

  // ----- Exactness

  /** What a cgroup is owed, read off the operations alone and with plain subtraction. */
  datatype Owing = Owing(count: nat, latency: int)

  function Owed(ops: seq<Op>, cg: U64): Owing {
    if ops == [] then Owing(0, 0) else
      var before := Owed(Front(ops), cg);
      match Last(ops)
      case Enqueue(_, _) => before
      case Dequeue(key, now, cgroup) =>
        if cgroup == cg && LatestEnqueue(Front(ops), key).Some?
        then Owing(before.count + 1, before.latency + (now - LatestEnqueue(Front(ops), key).value))
        else before
      case Forget(cgroup) => if cgroup == cg then Owing(0, 0) else before
  }

  lemma StartedBefore(ops: seq<Op>, since: U64, key: Key)
    requires ClockAscends(ops, since) && ops != [] && Last(ops).Dequeue? && key in Run(Front(ops)).start
    ensures Run(Front(ops)).start[key] <= Last(ops).now
  {
    FrontAscends(ops, since);
    NowGrows(ops, since);
    WaitsAreDisjoint(Front(ops), since);
  }

  lemma OwedStep(ops: seq<Op>, since: U64)
    requires NeverFull(ops) && ClockAscends(ops, since) && ops != [] && Last(ops).Dequeue?
    ensures var op := Last(ops);
      var from := LatestEnqueue(Front(ops), op.key);
      && (from.Some? <==> Counted(Run(Front(ops)), op) != [])
      && (from.Some? ==> Counted(Run(Front(ops)), op)[0].Length() == op.now - from.value)
  {
    hide ClockAscends, LatestEnqueue, Run, HasRoom;
    var op := Last(ops);
    MeasuredFromLatestEnqueue(Front(ops), op.key);
    if op.key in Run(Front(ops)).start {
      StartedBefore(ops, since, op.key);
      WrapSmall(op.now - Run(Front(ops)).start[op.key]);
    }
  }

  lemma {:induction false} SumsAreOwed(ops: seq<Op>, since: U64, cg: U64)
    requires NeverFull(ops) && ClockAscends(ops, since)
    ensures Sums(ops, cg).count == Owed(ops, cg).count && Sums(ops, cg).latency == Owed(ops, cg).latency
  {
    if ops != [] {
      FrontAscends(ops, since);
      SumsAreOwed(Front(ops), since, cg);
      if Last(ops).Dequeue? {
        OwedStep(ops, since);
      }
    }
  }

  /** Over every schedule that finds room in the maps and whose clock never goes back, a cgroup's entry is the
      exact sum, over its counted switch-ins, of switch time minus that task's latest enqueue. */
  lemma EntryIsOwed(ops: seq<Op>, since: U64, cg: U64)
    requires NeverFull(ops) && ClockAscends(ops, since)
    requires Owed(ops, cg).count < TWO_64 && Owed(ops, cg).latency < TWO_64
    ensures EntryOr0(Run(ops), cg).count == Owed(ops, cg).count
    ensures EntryOr0(Run(ops), cg).totalLatency == Owed(ops, cg).latency
  {
    EntryIsSum(ops, cg);
    SumsAreOwed(ops, since, cg);
    WrapSmall(Owed(ops, cg).count);
    WrapSmall(Owed(ops, cg).latency);
  }

  // ----- Whole schedules

  /** A scheduler event, or the collector deleting a stale cgroup's entry. */
  datatype Entry = Sched(event: SchedEvent) | Deleted(cgroup: U64)

  /** The map operations of a schedule, in order. */
  function OpsIn(es: seq<Entry>): seq<Op> {
    if es == [] then [] else
      OpsIn(Front(es)) + match Last(es) case Sched(e) => OpsOf(e) case Deleted(cgroup) => [Forget(cgroup)]
  }

  /** The tracer after a schedule, handler by handler. */
  function Replay(es: seq<Entry>): Tracer {
    if es == [] then Tracer(map[], map[]) else
      match Last(es)
      case Sched(e) => React(Replay(Front(es)), e)
      case Deleted(cgroup) => Step(Replay(Front(es)), Forget(cgroup))
  }

  /** Running the handlers over a schedule is running its operations: what holds of every sequence of
      operations holds of every schedule. */
  lemma {:induction false} ReplayIsRun(es: seq<Entry>)
    ensures Replay(es) == Run(OpsIn(es))
  {
    hide Step;
    if es != [] {
      var h := Front(es);
      ReplayIsRun(h);
      match Last(es)
      case Sched(e) => ReactIsRun(OpsIn(h), e);
      case Deleted(cgroup) => assert Front(OpsIn(h) + [Forget(cgroup)]) == OpsIn(h);
    }
  }

  /** When `key` last joined the queue, by a wakeup or by being preempted, unless it has been switched
      to since: read off the schedule alone. */
  function LatestQueued(es: seq<Entry>, key: Key): Option<U64> {
    if es == [] then None else
      match Last(es)
      case Sched(Wakeup(task, ts)) => if task == key then Some(ts) else LatestQueued(Front(es), key)
      case Sched(Switch(preempted, prev, prevNow, next, _, _)) =>
        if next == key then None
        else if preempted && prev == key then Some(prevNow)
        else LatestQueued(Front(es), key)
      case Deleted(_) => LatestQueued(Front(es), key)
  }

  /** Since when a task that is switched to has waited; one that is preempted by itself waits from then. */
  function WaitsSince(es: seq<Entry>, e: SchedEvent): Option<U64>
    requires e.Switch?
  {
    if e.preempted && e.prev == e.next then Some(e.prevNow) else LatestQueued(es, e.next)
  }

  /** What the switch-ins of `cg` waited since its entry was last deleted: read off the schedule alone. */
  function OwedBy(es: seq<Entry>, cg: U64): Owing {
    if es == [] then Owing(0, 0) else
      var before := OwedBy(Front(es), cg);
      match Last(es)
      case Sched(e) =>
        if e.Switch? && e.cgroup == cg && WaitsSince(Front(es), e).Some?
        then Owing(before.count + 1, before.latency + (e.now - WaitsSince(Front(es), e).value))
        else before
      case Deleted(cgroup) => if cgroup == cg then Owing(0, 0) else before
  }

  lemma LatestEnqueueOne(ops: seq<Op>, op: Op, key: Key)
    ensures LatestEnqueue(ops + [op], key)
         == match op
            case Enqueue(k, ts) => (if k == key then Some(ts) else LatestEnqueue(ops, key))
            case Dequeue(k, _, _) => (if k == key then None else LatestEnqueue(ops, key))
            case Forget(_) => LatestEnqueue(ops, key)
  {
    assert Front(ops + [op]) == ops;
  }

  lemma OwedOne(ops: seq<Op>, op: Op, cg: U64)
    ensures Owed(ops + [op], cg)
         == match op
            case Enqueue(_, _) => Owed(ops, cg)
            case Dequeue(key, now, cgroup) =>
              (if cgroup == cg && LatestEnqueue(ops, key).Some?
               then Owing(Owed(ops, cg).count + 1, Owed(ops, cg).latency + (now - LatestEnqueue(ops, key).value))
               else Owed(ops, cg))
            case Forget(cgroup) => (if cgroup == cg then Owing(0, 0) else Owed(ops, cg))
  {
    assert Front(ops + [op]) == ops;
  }

  /** A switch appends its dequeue, after the enqueue of a preempted task. */
  lemma OpsOfSwitch(ops: seq<Op>, e: SchedEvent)
    requires e.Switch?
    ensures var queued := if e.preempted then ops + [Enqueue(e.prev, e.prevNow)] else ops;
      ops + OpsOf(e) == queued + [Dequeue(e.next, e.now, e.cgroup)]
  {
  }

  /** A task's latest enqueue operation is its latest wakeup or preemption. */
  lemma {:induction false} LatestIsQueued(es: seq<Entry>, key: Key)
    ensures LatestEnqueue(OpsIn(es), key) == LatestQueued(es, key)
  {
    if es != [] {
      var h, ops := Front(es), OpsIn(Front(es));
      LatestIsQueued(h, key);
      match Last(es)
      case Sched(Wakeup(task, ts)) => LatestEnqueueOne(ops, Enqueue(task, ts), key);
      case Sched(Switch(preempted, prev, prevNow, next, now, cgroup)) => SwitchQueues(ops, Last(es).event, key);
      case Deleted(cgroup) => LatestEnqueueOne(ops, Forget(cgroup), key);
    }
  }

  lemma SwitchQueues(ops: seq<Op>, e: SchedEvent, key: Key)
    requires e.Switch?
    ensures LatestEnqueue(ops + OpsOf(e), key)
         == if e.next == key then None
            else if e.preempted && e.prev == key then Some(e.prevNow)
            else LatestEnqueue(ops, key)
  {
    OpsOfSwitch(ops, e);
    LatestEnqueueOne(ops, Enqueue(e.prev, e.prevNow), key);
    var queued := if e.preempted then ops + [Enqueue(e.prev, e.prevNow)] else ops;
    LatestEnqueueOne(queued, Dequeue(e.next, e.now, e.cgroup), key);
    hide LatestEnqueue, OpsOf;
  }

  lemma SwitchOwes(ops: seq<Op>, e: SchedEvent, cg: U64)
    requires e.Switch?
    ensures var since := if e.preempted && e.prev == e.next then Some(e.prevNow) else LatestEnqueue(ops, e.next);
      Owed(ops + OpsOf(e), cg)
      == if e.cgroup == cg && since.Some?
         then Owing(Owed(ops, cg).count + 1, Owed(ops, cg).latency + (e.now - since.value))
         else Owed(ops, cg)
  {
    OpsOfSwitch(ops, e);
    LatestEnqueueOne(ops, Enqueue(e.prev, e.prevNow), e.next);
    OwedOne(ops, Enqueue(e.prev, e.prevNow), cg);
    var queued := if e.preempted then ops + [Enqueue(e.prev, e.prevNow)] else ops;
    OwedOne(queued, Dequeue(e.next, e.now, e.cgroup), cg);
    hide LatestEnqueue, Owed, OpsOf;
  }

  lemma {:induction false} OwedIsOwedBy(es: seq<Entry>, cg: U64)
    ensures Owed(OpsIn(es), cg) == OwedBy(es, cg)
  {
    if es != [] {
      var h, ops := Front(es), OpsIn(Front(es));
      OwedIsOwedBy(h, cg);
      match Last(es)
      case Sched(Wakeup(task, ts)) => OwedOne(ops, Enqueue(task, ts), cg);
      case Sched(Switch(preempted, prev, prevNow, next, now, cgroup)) =>
        LatestIsQueued(h, next);
        SwitchOwes(ops, Last(es).event, cg);
      case Deleted(cgroup) => OwedOne(ops, Forget(cgroup), cg);
    }
  }

  /** Over every schedule of wakeups, switches and deletions that finds room and whose clock never goes
      back, a cgroup's entry is exactly what its switch-ins waited since the task's latest wakeup or
      preemption. */
  lemma ScheduleIsOwed(es: seq<Entry>, since: U64, cg: U64)
    requires NeverFull(OpsIn(es)) && ClockAscends(OpsIn(es), since)
    requires OwedBy(es, cg).count < TWO_64 && OwedBy(es, cg).latency < TWO_64
    ensures EntryOr0(Replay(es), cg).count == OwedBy(es, cg).count
    ensures EntryOr0(Replay(es), cg).totalLatency == OwedBy(es, cg).latency
  {
    hide NeverFull, ClockAscends, Owed, OwedBy;
    ReplayIsRun(es);
    OwedIsOwedBy(es, cg);
    EntryIsOwed(OpsIn(es), since, cg);
  }
}
