/** block_rq_complete split into its single map operations and atomic adds, run by any number of
    CPUs in any order (ebpf/latency/block_latency.c). A statistics entry is a cell that handlers
    point into; a racing first-touch insert replaces the entry and leaves the old cell detached. */
module BlockInterleaving {
  import opened Words
  import opened BlockLatency

  /** Where a completion handler stands. The last three are terminal: no start record, statistics
      map full, and counted. */
  datatype Pc =
    | AtLookup | AtClock | AtFind | AtInsert | AtRefind
    | AtIo | AtLatency | AtBytes | AtError | AtDelete
    | Missed | Dropped | Finished

  /** `start` is the record seen when the clock was read; line 83 reads the length again. */
  datatype Handler = Handler(rq: U64, failed: bool, pc: Pc, start: StartVal, delta: U64, cell: nat)

  datatype Cell = Cell(cgroup: U64, stats: IoStats)

  /** `log` lists the issues and, at the instant they take effect, the completions. */
  datatype State = State(
    start: map<U64, StartVal>,
    stats: map<U64, nat>,
    cells: seq<Cell>,
    handlers: seq<Handler>,
    log: seq<Event>)

  datatype Action =
    | OnIssue(rq: U64, ts: U64, bytes: U32, cgroup: U64)
    | OnComplete(rq: U64, failed: bool)
    | Advance(cpu: nat, clock: U64)

  const INIT := State(map[], map[], [], [], [])
  const UNREAD := StartVal(0, 0, 0)

  predicate Terminal(pc: Pc) {
    pc.Missed? || pc.Dropped? || pc.Finished?
  }

  /** No handler of `rq` is in flight: the kernel issues and completes a request one at a time. */
  predicate Idle(s: State, rq: U64) {
    forall i :: 0 <= i < |s.handlers| && s.handlers[i].rq == rq ==> Terminal(s.handlers[i].pc)
  }

  predicate Enabled(s: State, a: Action) {
    match a
    case OnIssue(rq, _, _, _) => Idle(s, rq)
    case OnComplete(rq, _) => Idle(s, rq)
    case Advance(i, _) => i < |s.handlers| && !Terminal(s.handlers[i].pc)
  }

  function Put(s: State, i: nat, h: Handler): State
    requires i < |s.handlers|
  {
    s.(handlers := s.handlers[i := h])
  }

  function AddTo(s: State, c: nat, t: IoStats): State {
    if c < |s.cells| then s.(cells := s.cells[c := s.cells[c].(stats := t)]) else s
  }

  function CellStats(s: State, c: nat): IoStats {
    if c < |s.cells| then s.cells[c].stats else ZERO_STATS
  }

  function StepHandler(s: State, i: nat, clock: U64): State
    requires i < |s.handlers|
  {
    var h := s.handlers[i];
    var cg := h.start.cgroup;
    var t := CellStats(s, h.cell);
    match h.pc
    case AtLookup =>
      if h.rq in s.start then Put(s, i, h.(pc := AtClock))
      else Put(s, i, h.(pc := Missed)).(log := s.log + [Complete(h.rq, h.failed, clock)])
    case AtClock =>
      if h.rq !in s.start then s else
        var v := s.start[h.rq];
        Put(s, i, h.(pc := AtFind, start := v, delta := Wrap(clock - v.ts)))
          .(log := s.log + [Complete(h.rq, h.failed, clock)])
    case AtFind =>
      if cg in s.stats then Put(s, i, h.(pc := AtIo, cell := s.stats[cg]))
      else Put(s, i, h.(pc := AtInsert))
    case AtInsert =>
      if cg in s.stats || |s.stats| < STATS_CAPACITY
      then Put(s, i, h.(pc := AtRefind))
             .(stats := s.stats[cg := |s.cells|], cells := s.cells + [Cell(cg, ZERO_STATS)])
      else Put(s, i, h.(pc := AtRefind))
    case AtRefind =>
      if cg in s.stats then Put(s, i, h.(pc := AtIo, cell := s.stats[cg]))
      else Put(s, i, h.(pc := Dropped)).(start := s.start - {h.rq})
    case AtIo =>
      Put(AddTo(s, h.cell, t.(ioCount := Wrap(t.ioCount + 1))), i, h.(pc := AtLatency))
    case AtLatency =>
      Put(AddTo(s, h.cell, t.(totalLatency := Wrap(t.totalLatency + h.delta))), i, h.(pc := AtBytes))
    case AtBytes =>
      if h.rq !in s.start then s else
        Put(AddTo(s, h.cell, t.(totalBytes := Wrap(t.totalBytes + s.start[h.rq].bytes))), i,
            h.(pc := AtError))
    case AtError =>
      Put(AddTo(s, h.cell, if h.failed then t.(errorCount := Wrap(t.errorCount + 1)) else t), i,
          h.(pc := AtDelete))
    case AtDelete => Put(s, i, h.(pc := Finished)).(start := s.start - {h.rq})
    case _ => s
  }

  /** An action that is not enabled leaves the state as it is. */
  function Next(s: State, a: Action): State {
    if !Enabled(s, a) then s else
      match a
      case OnIssue(rq, ts, bytes, cgroup) =>
        s.(start := UpdateAny(s.start, rq, StartVal(ts, bytes, cgroup), START_CAPACITY),
           log := s.log + [Issue(rq, ts, bytes, cgroup)])
      case OnComplete(rq, failed) =>
        s.(handlers := s.handlers + [Handler(rq, failed, AtLookup, UNREAD, 0, 0)])
      case Advance(i, clock) => StepHandler(s, i, clock)
  }

  function Exec(s: State, acts: seq<Action>): State {
    if acts == [] then s else Next(Exec(s, Front(acts)), Last(acts))
  }

  predicate Quiescent(s: State) {
    forall i :: 0 <= i < |s.handlers| ==> Terminal(s.handlers[i].pc)
  }

  // ----- What handlers have added, and what they owe

  /** Past the clock reading, where a completion takes effect. */
  predicate Effective(pc: Pc) {
    pc != AtLookup && pc != AtClock && pc != Missed
  }

  predicate HasCell(pc: Pc) {
    pc.AtIo? || pc.AtLatency? || pc.AtBytes? || pc.AtError? || pc.AtDelete? || pc.Finished?
  }

  predicate HasStart(pc: Pc) {
    !Terminal(pc) && pc != AtLookup
  }

  function Due(h: Handler): Totals {
    Totals(1, h.delta, h.start.bytes, if h.failed then 1 else 0)
  }

  function Added(h: Handler): Totals {
    match h.pc
    case AtLatency => Totals(1, 0, 0, 0)
    case AtBytes => Totals(1, h.delta, 0, 0)
    case AtError => Totals(1, h.delta, h.start.bytes, 0)
    case AtDelete => Due(h)
    case Finished => Due(h)
    case _ => NOTHING
  }

  datatype View = OfCell(cell: nat) | OfCgroup(cgroup: U64)

  function Part(h: Handler, v: View): Totals {
    match v
    case OfCell(c) => if HasCell(h.pc) && h.cell == c then Added(h) else NOTHING
    case OfCgroup(cg) => if Effective(h.pc) && h.start.cgroup == cg then Due(h) else NOTHING
  }

  function SumTo(hs: seq<Handler>, n: nat, v: View): Totals
    requires n <= |hs|
  {
    if n == 0 then NOTHING else SumTo(hs, n - 1, v).Plus(Part(hs[n - 1], v))
  }

  function Sum(hs: seq<Handler>, v: View): Totals {
    SumTo(hs, |hs|, v)
  }

  lemma {:induction false} SumToPut(hs: seq<Handler>, i: nat, h: Handler, n: nat, v: View)
    requires i < |hs| && n <= |hs|
    ensures i >= n ==> SumTo(hs[i := h], n, v) == SumTo(hs, n, v)
    ensures i < n ==>
      SumTo(hs[i := h], n, v).Plus(Part(hs[i], v)) == SumTo(hs, n, v).Plus(Part(h, v))
  {
    if n != 0 {
      SumToPut(hs, i, h, n - 1, v);
      var a, b, p := SumTo(hs[i := h], n - 1, v), SumTo(hs, n - 1, v), Part(hs[n - 1], v);
      if i < n - 1 {
        PlusBoth(a, Part(hs[i], v), b, Part(h, v), p);
      } else if i == n - 1 {
        assert a == b;
        PlusCommutes(a, Part(h, v), p);
      }
    }
  }

  lemma PlusBoth(a: Totals, b: Totals, c: Totals, d: Totals, p: Totals)
    requires a.Plus(b) == c.Plus(d)
    ensures a.Plus(p).Plus(b) == c.Plus(p).Plus(d)
  {
  }

  lemma SumPut(hs: seq<Handler>, i: nat, h: Handler, v: View)
    requires i < |hs|
    ensures Sum(hs[i := h], v).Plus(Part(hs[i], v)) == Sum(hs, v).Plus(Part(h, v))
  {
    SumToPut(hs, i, h, |hs|, v);
  }

  lemma {:induction false} SumToPush(hs: seq<Handler>, h: Handler, n: nat, v: View)
    requires n <= |hs|
    ensures SumTo(hs + [h], n, v) == SumTo(hs, n, v)
  {
    if n != 0 {
      SumToPush(hs, h, n - 1, v);
    }
  }

  // ----- What one step of a handler does, as a relation

  ghost predicate Holds(s: State, h: Handler) {
    HasStart(h.pc) ==> h.rq in s.start && (Effective(h.pc) ==> s.start[h.rq] == h.start)
  }

  /** Only handler `i` moves, and only its own start record can go, when it ends. */
  ghost predicate MovesHandler(s: State, s': State, i: nat) {
    && i < |s.handlers| == |s'.handlers|
    && s'.handlers == s.handlers[i := s'.handlers[i]]
    && var h, h' := s.handlers[i], s'.handlers[i];
      && !Terminal(h.pc)
      && h'.rq == h.rq && h'.failed == h.failed
      && s'.start == (if Terminal(h'.pc) then s.start - {h.rq} else s.start)
      && (HasStart(h'.pc) ==> h.rq in s.start)
      && (Effective(h.pc) ==> Effective(h'.pc) && h'.start == h.start && h'.delta == h.delta)
      && (!Effective(h.pc) && Effective(h'.pc) ==>
            h'.pc.AtFind? && h.rq in s.start && h'.start == s.start[h.rq])
  }

  /** The words of a cell move by what the handler has added since. */
  ghost predicate MovesCells(s: State, s': State, i: nat)
    requires i < |s.handlers| == |s'.handlers|
  {
    var h, h' := s.handlers[i], s'.handlers[i];
    if HasCell(h.pc) then
      && HasCell(h'.pc) && h'.cell == h.cell && s'.stats == s.stats && |s'.cells| == |s.cells|
      && (forall c :: 0 <= c < |s.cells| && c != h.cell ==> s'.cells[c] == s.cells[c])
      && (h.cell < |s.cells| ==>
            s'.cells[h.cell] == Cell(s.cells[h.cell].cgroup, Moved(s.cells[h.cell].stats, Added(h), Added(h'))))
    else
      && Added(h') == NOTHING
      && (h'.pc.Dropped? ==> h.pc.AtRefind? && h.start.cgroup !in s.stats)
      && (h'.pc.AtRefind? ==> h.pc.AtInsert?)
      && (h'.pc.AtRefind? && |s.stats| < STATS_CAPACITY ==> h.start.cgroup in s'.stats)
      && (h'.pc.AtInsert? ==> h.pc.AtFind? && h.start.cgroup !in s.stats)
      && (HasCell(h'.pc) ==> h'.start.cgroup in s.stats && h'.cell == s.stats[h'.start.cgroup])
      && if |s'.cells| == |s.cells| then s'.cells == s.cells && s'.stats == s.stats else
           && h.pc.AtInsert? && h'.pc.AtRefind?
           && s'.cells == s.cells + [Cell(h.start.cgroup, ZERO_STATS)]
           && s'.stats == s.stats[h.start.cgroup := |s.cells|]
  }

  /** A completion enters the log when its start record is looked up in vain or its clock is read. */
  ghost predicate MovesLog(s: State, s': State, i: nat, clock: U64)
    requires i < |s.handlers| == |s'.handlers|
  {
    var h, h' := s.handlers[i], s'.handlers[i];
    if h'.pc.Missed? then
      && h.pc.AtLookup? && h.rq !in s.start
      && s'.log == s.log + [Complete(h.rq, h.failed, clock)]
    else if !Effective(h.pc) && Effective(h'.pc) then
      && h.pc.AtClock? && h.rq in s.start && HasStart(h'.pc)
      && h'.delta == Wrap(clock - s.start[h.rq].ts)
      && s'.log == s.log + [Complete(h.rq, h.failed, clock)]
    else
      s'.log == s.log
  }

  function Moved(t: IoStats, a: Totals, a': Totals): IoStats {
    IoStats(Wrap(t.ioCount + a'.io - a.io), Wrap(t.totalLatency + a'.latency - a.latency),
            Wrap(t.totalBytes + a'.bytes - a.bytes), Wrap(t.errorCount + a'.errors - a.errors))
  }

  lemma LookupMoves(s: State, i: nat, clock: U64)
    requires i < |s.handlers| && Holds(s, s.handlers[i])
    requires s.handlers[i].pc.AtLookup? || s.handlers[i].pc.AtClock?
    ensures var s' := StepHandler(s, i, clock);
      MovesHandler(s, s', i) && MovesCells(s, s', i) && MovesLog(s, s', i, clock)
  {
    hide Wrap;
    match s.handlers[i].pc
    case AtLookup => assert s.handlers[i].rq !in s.start ==> s.start - {s.handlers[i].rq} == s.start;
    case AtClock =>
  }

  lemma FindMoves(s: State, i: nat, clock: U64)
    requires i < |s.handlers| && Holds(s, s.handlers[i])
    requires s.handlers[i].pc.AtFind? || s.handlers[i].pc.AtInsert? || s.handlers[i].pc.AtRefind?
    ensures var s' := StepHandler(s, i, clock);
      MovesHandler(s, s', i) && MovesLog(s, s', i, clock)
  {
    match s.handlers[i].pc
    case AtFind =>
    case AtInsert =>
    case AtRefind =>
  }

  lemma FindMovesCells(s: State, i: nat, clock: U64)
    requires i < |s.handlers| && (s.handlers[i].pc.AtFind? || s.handlers[i].pc.AtRefind?)
    ensures MovesCells(s, StepHandler(s, i, clock), i)
  {
    match s.handlers[i].pc
    case AtFind =>
    case AtRefind =>
  }

  lemma InsertMovesCells(s: State, i: nat, clock: U64)
    requires i < |s.handlers| && s.handlers[i].pc.AtInsert?
    ensures MovesCells(s, StepHandler(s, i, clock), i)
  {
  }

  lemma AddMoves(s: State, i: nat, clock: U64)
    requires i < |s.handlers| && Holds(s, s.handlers[i])
    requires HasCell(s.handlers[i].pc) && !Terminal(s.handlers[i].pc)
    ensures var s' := StepHandler(s, i, clock);
      MovesHandler(s, s', i) && MovesLog(s, s', i, clock)
  {
    match s.handlers[i].pc
    case AtIo =>
    case AtLatency =>
    case AtBytes =>
    case AtError =>
    case AtDelete =>
  }

  lemma FirstAddsMove(s: State, i: nat, clock: U64)
    requires i < |s.handlers| && (s.handlers[i].pc.AtIo? || s.handlers[i].pc.AtLatency?)
    ensures MovesCells(s, StepHandler(s, i, clock), i)
  {
    var h := s.handlers[i];
    var t := CellStats(s, h.cell);
    match h.pc
    case AtIo => MoveIo(t);
    case AtLatency => MoveLatency(t, h.delta);
  }

  lemma LastAddsMove(s: State, i: nat, clock: U64)
    requires i < |s.handlers| && Holds(s, s.handlers[i])
    requires s.handlers[i].pc.AtBytes? || s.handlers[i].pc.AtError? || s.handlers[i].pc.AtDelete?
    ensures MovesCells(s, StepHandler(s, i, clock), i)
  {
    hide Wrap;
    var h := s.handlers[i];
    var t := CellStats(s, h.cell);
    match h.pc
    case AtBytes => MoveBytes(t, h.delta, h.start.bytes);
    case AtError => MoveErrors(t, h.delta, h.start.bytes, h.failed);
    case AtDelete => MoveNothing(t, Added(h));
  }

  lemma MoveIo(t: IoStats)
    ensures Moved(t, NOTHING, Totals(1, 0, 0, 0)) == t.(ioCount := Wrap(t.ioCount + 1))
  {
  }

  lemma MoveLatency(t: IoStats, delta: U64)
    ensures Moved(t, Totals(1, 0, 0, 0), Totals(1, delta, 0, 0))
         == t.(totalLatency := Wrap(t.totalLatency + delta))
  {
  }

  lemma MoveBytes(t: IoStats, delta: U64, bytes: U32)
    ensures Moved(t, Totals(1, delta, 0, 0), Totals(1, delta, bytes, 0))
         == t.(totalBytes := Wrap(t.totalBytes + bytes))
  {
  }

  lemma MoveErrors(t: IoStats, delta: U64, bytes: U32, failed: bool)
    ensures Moved(t, Totals(1, delta, bytes, 0), Totals(1, delta, bytes, if failed then 1 else 0))
         == (if failed then t.(errorCount := Wrap(t.errorCount + 1)) else t)
  {
  }

  lemma MoveNothing(t: IoStats, a: Totals)
    ensures Moved(t, a, a) == t
  {
  }

  lemma StepMoves(s: State, i: nat, clock: U64)
    requires i < |s.handlers| && Holds(s, s.handlers[i]) && !Terminal(s.handlers[i].pc)
    ensures var s' := StepHandler(s, i, clock);
      MovesHandler(s, s', i) && MovesCells(s, s', i) && MovesLog(s, s', i, clock)
  {
    if HasCell(s.handlers[i].pc) {
      AddMoves(s, i, clock);
      if s.handlers[i].pc.AtIo? || s.handlers[i].pc.AtLatency? {
        FirstAddsMove(s, i, clock);
      } else {
        LastAddsMove(s, i, clock);
      }
    } else if Effective(s.handlers[i].pc) {
      FindMoves(s, i, clock);
      if s.handlers[i].pc.AtInsert? {
        InsertMovesCells(s, i, clock);
      } else {
        FindMovesCells(s, i, clock);
      }
    } else {
      LookupMoves(s, i, clock);
    }
  }

  /** A handler that ends, counted, dropped or without a match, leaves no start record behind. */
  lemma EndsWithoutRecord(s: State, i: nat, clock: U64)
    requires i < |s.handlers| && Holds(s, s.handlers[i]) && !Terminal(s.handlers[i].pc)
    requires Terminal(StepHandler(s, i, clock).handlers[i].pc)
    ensures s.handlers[i].rq !in StepHandler(s, i, clock).start
    ensures forall rq :: rq in s.start && rq != s.handlers[i].rq ==> rq in StepHandler(s, i, clock).start
  {
    StepMoves(s, i, clock);
    hide StepHandler, MovesCells, MovesLog;
  }

  // ----- The invariant of every reachable state

  ghost predicate CellsLinked(s: State) {
    && (forall cg :: cg in s.stats ==> s.stats[cg] < |s.cells| && s.cells[s.stats[cg]].cgroup == cg)
    && (forall i :: 0 <= i < |s.handlers| && HasCell(s.handlers[i].pc) ==>
          && s.handlers[i].cell < |s.cells|
          && s.cells[s.handlers[i].cell].cgroup == s.handlers[i].start.cgroup)
  }

  ghost predicate StartsHeld(s: State) {
    && (forall i :: 0 <= i < |s.handlers| ==> Holds(s, s.handlers[i]))
    && (forall i, j :: 0 <= i < j < |s.handlers| && s.handlers[i].rq == s.handlers[j].rq
          ==> Terminal(s.handlers[i].pc) || Terminal(s.handlers[j].pc))
  }

  ghost predicate CellsSummed(s: State) {
    forall c :: 0 <= c < |s.cells| ==> s.cells[c].stats == Sum(s.handlers, OfCell(c)).ToStats()
  }

  ghost predicate Inv(s: State) {
    CellsLinked(s) && StartsHeld(s) && CellsSummed(s)
  }

  lemma StepKeepsStarts(s: State, s': State, i: nat)
    requires StartsHeld(s) && MovesHandler(s, s', i)
    ensures StartsHeld(s')
  {
    forall j | 0 <= j < |s'.handlers| ensures Holds(s', s'.handlers[j]) {
      assert Holds(s, s.handlers[j]);
      if j != i && HasStart(s.handlers[j].pc) {
        assert s.handlers[j].rq != s.handlers[i].rq;
      }
    }
  }

  lemma StepKeepsLinks(s: State, s': State, i: nat)
    requires CellsLinked(s) && MovesHandler(s, s', i) && MovesCells(s, s', i)
    ensures CellsLinked(s')
  {
    assert forall c :: 0 <= c < |s.cells| ==> c < |s'.cells| && s'.cells[c].cgroup == s.cells[c].cgroup;
    assert HasCell(s.handlers[i].pc) ==> s'.handlers[i].start == s.handlers[i].start;
  }

  lemma {:induction false} NoPointerNoSum(hs: seq<Handler>, n: nat, c: nat)
    requires n <= |hs|
    requires forall i :: 0 <= i < |hs| && HasCell(hs[i].pc) ==> hs[i].cell != c
    ensures SumTo(hs, n, OfCell(c)) == NOTHING
  {
    if n != 0 {
      NoPointerNoSum(hs, n - 1, c);
      assert Part(hs[n - 1], OfCell(c)) == NOTHING;
    }
  }

  lemma MovedIsWrapped(t: Totals, t': Totals, a: Totals, a': Totals)
    requires t'.Plus(a) == t.Plus(a')
    ensures Moved(t.ToStats(), a, a') == t'.ToStats()
  {
    WrapAdd(t.io, a'.io - a.io);
    WrapAdd(t.latency, a'.latency - a.latency);
    WrapAdd(t.bytes, a'.bytes - a.bytes);
    WrapAdd(t.errors, a'.errors - a.errors);
  }

  /** One atomic add moves a cell exactly as far as it moves the handler's own share. */
  lemma AddKeepsSum(hs: seq<Handler>, i: nat, h': Handler)
    requires i < |hs| && HasCell(hs[i].pc) && HasCell(h'.pc) && h'.cell == hs[i].cell
    ensures var c := OfCell(h'.cell);
      Moved(Sum(hs, c).ToStats(), Added(hs[i]), Added(h')) == Sum(hs[i := h'], c).ToStats()
  {
    var c := OfCell(h'.cell);
    SumPut(hs, i, h', c);
    MovedIsWrapped(Sum(hs, c), Sum(hs[i := h'], c), Added(hs[i]), Added(h'));
  }

  lemma OtherKeepsSum(hs: seq<Handler>, i: nat, h': Handler, c: nat)
    requires i < |hs|
    requires Part(hs[i], OfCell(c)) == NOTHING == Part(h', OfCell(c))
    ensures Sum(hs[i := h'], OfCell(c)) == Sum(hs, OfCell(c))
  {
    SumPut(hs, i, h', OfCell(c));
  }

  lemma StepKeepsSum(s: State, s': State, i: nat, c: nat)
    requires CellsLinked(s) && CellsSummed(s) && MovesHandler(s, s', i) && MovesCells(s, s', i)
    requires c < |s'.cells|
    ensures s'.cells[c].stats == Sum(s'.handlers, OfCell(c)).ToStats()
  {
    var h, h' := s.handlers[i], s'.handlers[i];
    var before, after := Sum(s.handlers, OfCell(c)), Sum(s'.handlers, OfCell(c));
    if HasCell(h.pc) && h.cell == c {
      AddKeepsSum(s.handlers, i, h');
      assert s'.cells[c].stats == Moved(s.cells[c].stats, Added(h), Added(h'));
    } else {
      OtherKeepsSum(s.handlers, i, h', c);
      if c == |s.cells| {
        NoPointerNoSum(s.handlers, |s.handlers|, c);
        assert after == NOTHING;
      } else {
        assert s'.cells[c] == s.cells[c];
        assert after == before;
      }
    }
  }

  lemma StepKeepsSums(s: State, s': State, i: nat)
    requires CellsLinked(s) && CellsSummed(s) && MovesHandler(s, s', i) && MovesCells(s, s', i)
    ensures CellsSummed(s')
  {
    forall c | 0 <= c < |s'.cells|
      ensures s'.cells[c].stats == Sum(s'.handlers, OfCell(c)).ToStats()
    {
      StepKeepsSum(s, s', i, c);
    }
  }

  lemma IssueKeepsInv(s: State, s': State, rq: U64, v: StartVal)
    requires Inv(s) && Idle(s, rq)
    requires s' == s.(start := UpdateAny(s.start, rq, v, START_CAPACITY), log := s'.log)
    ensures Inv(s')
  {
    forall i | 0 <= i < |s.handlers| ensures Holds(s', s.handlers[i]) {
      assert Holds(s, s.handlers[i]);
    }
  }

  lemma NewcomerAddsNothing(hs: seq<Handler>, h: Handler, v: View)
    requires h.pc == AtLookup
    ensures Sum(hs + [h], v) == Sum(hs, v)
  {
    SumToPush(hs, h, |hs|, v);
    assert Part(h, v) == NOTHING;
  }

  lemma CompleteKeepsSums(s: State, s': State, h: Handler)
    requires CellsSummed(s) && h.pc == AtLookup
    requires s'.cells == s.cells && s'.handlers == s.handlers + [h]
    ensures CellsSummed(s')
  {
    forall c | 0 <= c < |s.cells| ensures Sum(s'.handlers, OfCell(c)) == Sum(s.handlers, OfCell(c)) {
      NewcomerAddsNothing(s.handlers, h, OfCell(c));
    }
  }

  lemma CompleteKeepsInv(s: State, h: Handler)
    requires Inv(s) && Idle(s, h.rq) && h.pc == AtLookup
    ensures Inv(s.(handlers := s.handlers + [h]))
  {
    var s' := s.(handlers := s.handlers + [h]);
    CompleteKeepsSums(s, s', h);
    forall i | 0 <= i < |s'.handlers| ensures Holds(s', s'.handlers[i]) {
      if i < |s.handlers| {
        assert Holds(s, s.handlers[i]);
      }
    }
  }

  lemma NextKeepsInv(s: State, a: Action)
    requires Inv(s)
    ensures Inv(Next(s, a))
  {
    if Enabled(s, a) {
      match a
      case OnIssue(rq, ts, bytes, cgroup) =>
        IssueKeepsInv(s, Next(s, a), rq, StartVal(ts, bytes, cgroup));
      case OnComplete(rq, failed) =>
        CompleteKeepsInv(s, Handler(rq, failed, AtLookup, UNREAD, 0, 0));
      case Advance(i, clock) =>
        assert Holds(s, s.handlers[i]);
        StepMoves(s, i, clock);
        StepKeepsInv(s, StepHandler(s, i, clock), i);
    }
  }

  lemma StepKeepsInv(s: State, s': State, i: nat)
    requires Inv(s) && MovesHandler(s, s', i) && MovesCells(s, s', i)
    ensures Inv(s')
  {
    StepKeepsStarts(s, s', i);
    StepKeepsLinks(s, s', i);
    StepKeepsSums(s, s', i);
  }

  lemma {:induction false} ExecKeepsInv(s: State, acts: seq<Action>)
    requires Inv(s)
    ensures Inv(Exec(s, acts))
  {
    if acts != [] {
      ExecKeepsInv(s, Front(acts));
      NextKeepsInv(Exec(s, Front(acts)), Last(acts));
    }
  }

  // ----- Errors within operations, in every state of every interleaving

  lemma {:induction false} ShareBounds(hs: seq<Handler>, n: nat, c: nat)
    requires n <= |hs|
    ensures SumTo(hs, n, OfCell(c)).errors <= SumTo(hs, n, OfCell(c)).io <= n
  {
    if n != 0 {
      ShareBounds(hs, n - 1, c);
      var p := Part(hs[n - 1], OfCell(c));
      assert p.errors <= p.io <= 1;
    }
  }

  /** However the adds interleave, and even in detached cells, no state shows more errors than
      operations (until 2^64 handlers have run). */
  lemma ErrorsWithinIoAlways(acts: seq<Action>, c: nat)
    requires c < |Exec(INIT, acts).cells| && |Exec(INIT, acts).handlers| < TWO_64
    ensures var t := Exec(INIT, acts).cells[c].stats; t.errorCount <= t.ioCount
  {
    ExecKeepsInv(INIT, acts);
    CellErrorsWithinIo(Exec(INIT, acts), c);
  }

  lemma CellErrorsWithinIo(s: State, c: nat)
    requires CellsSummed(s) && c < |s.cells| && |s.handlers| < TWO_64
    ensures s.cells[c].stats.errorCount <= s.cells[c].stats.ioCount
  {
    ShareBounds(s.handlers, |s.handlers|, c);
    var t := Sum(s.handlers, OfCell(c));
    WrapSmall(t.io);
    WrapSmall(t.errors);
    assert s.cells[c].stats == t.ToStats();
  }

  // ----- The log is a serial run with the same effect

  /** The completion has taken effect but the handler still runs. */
  predicate InEffect(pc: Pc) {
    Effective(pc) && !Terminal(pc)
  }

  ghost predicate Taken(s: State, rq: U64) {
    exists i :: 0 <= i < |s.handlers| && s.handlers[i].rq == rq && InEffect(s.handlers[i].pc)
  }

  ghost function Free(s: State, rq: U64): Option<StartVal> {
    if rq in s.start && !Taken(s, rq) then Some(s.start[rq]) else None
  }

  /** The serial run tracks every cgroup that has an entry or a completion in effect. */
  ghost predicate EntriesTracked(s: State) {
    && s.stats.Keys <= Tracked(s.log)
    && (forall i :: 0 <= i < |s.handlers| && Effective(s.handlers[i].pc)
          ==> s.handlers[i].start.cgroup in Tracked(s.log))
  }

  ghost predicate NoneDropped(s: State) {
    forall i :: 0 <= i < |s.handlers| ==>
      && !s.handlers[i].pc.Dropped?
      && (s.handlers[i].pc.AtRefind? ==> s.handlers[i].start.cgroup in s.stats)
  }

  ghost predicate StartsSerial(s: State) {
    forall rq :: LatestIssue(s.log, rq) == Free(s, rq)
  }

  ghost predicate SumsSerial(s: State) {
    forall cg :: Sums(s.log, cg) == Sum(s.handlers, OfCgroup(cg))
  }

  ghost predicate Serial(s: State) {
    EntriesTracked(s) && NoneDropped(s) && StartsSerial(s) && SumsSerial(s)
  }

  /** What a logged completion does to the tracked cgroups. */
  lemma LoggedIsTracked(s: State, s': State, i: nat, clock: U64)
    requires StartsHeld(s) && StartsSerial(s) && NeverFull(s'.log)
    requires MovesHandler(s, s', i) && MovesLog(s, s', i, clock)
    ensures NeverFull(s.log) && Tracked(s.log) <= Tracked(s'.log)
    ensures !Effective(s.handlers[i].pc) && Effective(s'.handlers[i].pc) ==>
      && Counts(s.log, s.handlers[i].rq) && Pending(s.log, s.handlers[i].rq) == Some(s.start[s.handlers[i].rq])
      && s'.handlers[i].start.cgroup in Tracked(s'.log)
  {
    hide Sums;
    var h, h' := s.handlers[i], s'.handlers[i];
    if s'.log != s.log {
      assert Front(s'.log) == s.log && Last(s'.log) == Complete(h.rq, h.failed, clock);
      NothingRefused(s.log, h.rq);
      assert LatestIssue(s.log, h.rq) == Free(s, h.rq);
      if h.pc.AtClock? {
        NotTakenAtClock(s, i);
      }
    }
  }

  lemma StepKeepsTracked(s: State, s': State, i: nat, clock: U64)
    requires EntriesTracked(s) && StartsHeld(s) && StartsSerial(s) && NeverFull(s'.log)
    requires MovesHandler(s, s', i) && MovesCells(s, s', i) && MovesLog(s, s', i, clock)
    ensures EntriesTracked(s')
  {
    LoggedIsTracked(s, s', i, clock);
    hide Tracked, MovesLog, StartsHeld, StartsSerial, NeverFull, Moved, Added;
  }

  lemma StepKeepsUndropped(s: State, s': State, i: nat)
    requires EntriesTracked(s) && NoneDropped(s)
    requires MovesHandler(s, s', i) && MovesCells(s, s', i)
    ensures NoneDropped(s')
  {
    var h, h' := s.handlers[i], s'.handlers[i];
    if h.pc.AtInsert? && h.start.cgroup !in s.stats {
      TrackedIsKeys(s.log);
      SubsetSize(s.stats.Keys, Tracked(s.log));
    }
    assert s.stats.Keys <= s'.stats.Keys;
    assert !HasCell(h.pc) && h'.pc.AtRefind? ==> h'.start == h.start;
  }

  /** Taking effect and finishing both leave the serial start map in step. */
  lemma StepKeepsFree(s: State, s': State, i: nat, rq: U64)
    requires StartsHeld(s) && MovesHandler(s, s', i)
    ensures rq != s.handlers[i].rq ==> Free(s', rq) == Free(s, rq)
    ensures rq == s.handlers[i].rq && Effective(s'.handlers[i].pc) ==> Free(s', rq) == None
    ensures rq == s.handlers[i].rq && s'.handlers[i].pc.Missed? ==> Free(s', rq) == None
    ensures rq == s.handlers[i].rq && s'.handlers[i].pc.AtClock? ==> Free(s', rq) == Free(s, rq)
  {
    var h, h' := s.handlers[i], s'.handlers[i];
    if rq != h.rq {
      OthersKeepTaken(s, s', i, rq);
    } else if InEffect(h'.pc) {
      assert Taken(s', rq);
    } else if !Terminal(h'.pc) {
      assert forall j :: 0 <= j < |s.handlers| && s.handlers[j].rq == rq && !Terminal(s.handlers[j].pc) ==> j == i;
    }
  }

  lemma OthersKeepTaken(s: State, s': State, i: nat, rq: U64)
    requires MovesHandler(s, s', i) && rq != s.handlers[i].rq
    ensures Taken(s', rq) <==> Taken(s, rq)
  {
    if Taken(s, rq) {
      var j :| 0 <= j < |s.handlers| && s.handlers[j].rq == rq && InEffect(s.handlers[j].pc);
      assert s'.handlers[j] == s.handlers[j];
    }
    if Taken(s', rq) {
      var j :| 0 <= j < |s'.handlers| && s'.handlers[j].rq == rq && InEffect(s'.handlers[j].pc);
      assert s'.handlers[j] == s.handlers[j];
    }
  }

  lemma StepKeepsStartsSerial(s: State, s': State, i: nat, clock: U64)
    requires StartsHeld(s) && StartsSerial(s)
    requires MovesHandler(s, s', i) && MovesLog(s, s', i, clock)
    ensures StartsSerial(s')
  {
    var h, h' := s.handlers[i], s'.handlers[i];
    forall rq ensures LatestIssue(s'.log, rq) == Free(s', rq) {
      StepKeepsFree(s, s', i, rq);
      assert LatestIssue(s.log, rq) == Free(s, rq);
      if s'.log != s.log {
        assert Front(s'.log) == s.log && Last(s'.log).Complete? && Last(s'.log).rq == h.rq;
      } else if rq == h.rq && Effective(h'.pc) {
        assert InEffect(h.pc);
        assert Taken(s, rq);
      }
    }
  }

  /** A completion adds to the serial sums what its handler owes from then on. */
  lemma StepKeepsSumsSerial(s: State, s': State, i: nat, clock: U64)
    requires StartsHeld(s) && StartsSerial(s) && SumsSerial(s) && NeverFull(s'.log)
    requires MovesHandler(s, s', i) && MovesLog(s, s', i, clock)
    ensures SumsSerial(s')
  {
    forall cg ensures Sums(s'.log, cg) == Sum(s'.handlers, OfCgroup(cg)) {
      StepKeepsSumSerial(s, s', i, clock, cg);
    }
  }

  lemma StepKeepsSumSerial(s: State, s': State, i: nat, clock: U64, cg: U64)
    requires StartsHeld(s) && StartsSerial(s) && Sums(s.log, cg) == Sum(s.handlers, OfCgroup(cg))
    requires NeverFull(s'.log) && MovesHandler(s, s', i) && MovesLog(s, s', i, clock)
    ensures Sums(s'.log, cg) == Sum(s'.handlers, OfCgroup(cg))
  {
    var h, h' := s.handlers[i], s'.handlers[i];
    var v := OfCgroup(cg);
    SumPut(s.handlers, i, h', v);
    LoggedIsTracked(s, s', i, clock);
    NothingRefused(s.log, h.rq);
    assert LatestIssue(s.log, h.rq) == Free(s, h.rq);
    if s'.log != s.log {
      assert Front(s'.log) == s.log && Last(s'.log) == Complete(h.rq, h.failed, clock);
      if h.pc.AtClock? {
        assert Due(h') == Charge(s.start[h.rq], h.failed, clock);
      }
    } else {
      assert Part(h', v) == Part(h, v);
    }
  }

  lemma NotTakenAtClock(s: State, i: nat)
    requires StartsHeld(s) && i < |s.handlers| && s.handlers[i].pc.AtClock?
    ensures Free(s, s.handlers[i].rq) == Some(s.start[s.handlers[i].rq])
  {
    assert Holds(s, s.handlers[i]);
  }

  lemma IssueKeepsSerial(s: State, s': State, e: Event)
    requires Serial(s) && e.Issue? && Idle(s, e.rq)
    requires s' == s.(start := UpdateAny(s.start, e.rq, StartVal(e.ts, e.bytes, e.cgroup), START_CAPACITY),
                      log := s.log + [e])
    requires e.rq in s.start || |s.start| < START_CAPACITY
    ensures Serial(s')
  {
    assert Front(s'.log) == s.log && Last(s'.log) == e;
    forall rq ensures LatestIssue(s'.log, rq) == Free(s', rq) {
      assert LatestIssue(s.log, rq) == Free(s, rq);
      assert Taken(s', rq) == Taken(s, rq);
    }
    forall cg ensures Sums(s'.log, cg) == Sum(s'.handlers, OfCgroup(cg)) {
      assert Sums(s'.log, cg) == Sums(s.log, cg);
    }
  }

  lemma CompleteKeepsSerial(s: State, s': State, h: Handler)
    requires Serial(s) && h.pc == AtLookup && s' == s.(handlers := s.handlers + [h])
    ensures Serial(s')
  {
    forall rq ensures Free(s', rq) == Free(s, rq) {
      if Taken(s, rq) {
        var j :| 0 <= j < |s.handlers| && s.handlers[j].rq == rq && InEffect(s.handlers[j].pc);
        assert s'.handlers[j] == s.handlers[j];
      }
    }
    forall rq ensures LatestIssue(s'.log, rq) == Free(s', rq) {
      assert LatestIssue(s.log, rq) == Free(s, rq);
    }
    forall cg ensures Sums(s'.log, cg) == Sum(s'.handlers, OfCgroup(cg)) {
      NewcomerAddsNothing(s.handlers, h, OfCgroup(cg));
    }
  }

  lemma StepKeepsSerial(s: State, s': State, i: nat, clock: U64)
    requires Inv(s) && Serial(s) && NeverFull(s'.log)
    requires MovesHandler(s, s', i) && MovesCells(s, s', i) && MovesLog(s, s', i, clock)
    ensures Serial(s')
  {
    StepKeepsTracked(s, s', i, clock);
    StepKeepsUndropped(s, s', i);
    StepKeepsStartsSerial(s, s', i, clock);
    StepKeepsSumsSerial(s, s', i, clock);
  }

  ghost predicate IssueFits(s: State, a: Action) {
    a.OnIssue? && Enabled(s, a) ==> a.rq in s.start || |s.start| < START_CAPACITY
  }

  /** No issue finds the start map full, and neither does any event of the log run one by one. */
  ghost predicate Roomy(acts: seq<Action>) {
    && NeverFull(Exec(INIT, acts).log)
    && (acts != [] ==> Roomy(Front(acts)) && IssueFits(Exec(INIT, Front(acts)), Last(acts)))
  }

  lemma NextKeepsSerial(s: State, a: Action)
    requires Inv(s) && Serial(s) && NeverFull(Next(s, a).log) && IssueFits(s, a)
    ensures Serial(Next(s, a))
  {
    if Enabled(s, a) {
      match a
      case OnIssue(rq, ts, bytes, cgroup) =>
        IssueKeepsSerial(s, Next(s, a), Issue(rq, ts, bytes, cgroup));
      case OnComplete(rq, failed) =>
        CompleteKeepsSerial(s, Next(s, a), Handler(rq, failed, AtLookup, UNREAD, 0, 0));
      case Advance(i, clock) =>
        assert Holds(s, s.handlers[i]);
        StepMoves(s, i, clock);
        StepKeepsSerial(s, StepHandler(s, i, clock), i, clock);
    }
  }

  /** Every interleaving that finds room has its log as its serial equivalent. */
  lemma {:induction false} ExecIsSerial(acts: seq<Action>)
    requires Roomy(acts)
    ensures Inv(Exec(INIT, acts)) && Serial(Exec(INIT, acts))
  {
    ExecKeepsInv(INIT, acts);
    if acts == [] {
      InitIsSerial();
    } else {
      ExecIsSerial(Front(acts));
      NextKeepsSerial(Exec(INIT, Front(acts)), Last(acts));
    }
  }

  lemma InitIsSerial()
    ensures Serial(INIT)
  {
  }

  // ----- Schedules that find room

  ghost function IssuedRequests(acts: seq<Action>): set<U64> {
    set i | 0 <= i < |acts| && acts[i].OnIssue? :: acts[i].rq
  }

  ghost function IssuedCgroups(acts: seq<Action>): set<U64> {
    set i | 0 <= i < |acts| && acts[i].OnIssue? :: acts[i].cgroup
  }

  lemma IssuedGrow(acts: seq<Action>)
    requires acts != []
    ensures IssuedRequests(Front(acts)) <= IssuedRequests(acts) && IssuedCgroups(Front(acts)) <= IssuedCgroups(acts)
    ensures Last(acts).OnIssue? ==> Last(acts).rq in IssuedRequests(acts) && Last(acts).cgroup in IssuedCgroups(acts)
  {
    var h := Front(acts);
    assert Last(acts) == acts[|acts| - 1];
    forall i | 0 <= i < |h| && h[i].OnIssue? ensures h[i].rq in IssuedRequests(acts) && h[i].cgroup in IssuedCgroups(acts) {
      assert acts[i] == h[i];
    }
  }

  /** The state names only the requests in `rqs` and the cgroups in `cgs`. */
  ghost predicate NamesWithin(s: State, rqs: set<U64>, cgs: set<U64>) {
    s.start.Keys <= rqs && Requests(s.log) <= rqs && Cgroups(s.log) <= cgs
  }

  lemma NamesPush(log: seq<Event>, e: Event)
    ensures Requests(log + [e]) == Requests(log) + (if e.Issue? then {e.rq} else {})
    ensures Cgroups(log + [e]) == Cgroups(log) + (if e.Issue? then {e.cgroup} else {})
  {
    var tr := log + [e];
    assert Front(tr) == log;
    NamesGrow(tr);
    forall i | 0 <= i < |tr| && tr[i].Issue?
      ensures tr[i].rq in Requests(log) + (if e.Issue? then {e.rq} else {})
      ensures tr[i].cgroup in Cgroups(log) + (if e.Issue? then {e.cgroup} else {})
    {
      if i < |log| {
        assert tr[i] == log[i];
      }
    }
  }

  lemma NextNamesWithin(s: State, a: Action, rqs: set<U64>, cgs: set<U64>)
    requires Inv(s) && NamesWithin(s, rqs, cgs)
    requires a.OnIssue? ==> a.rq in rqs && a.cgroup in cgs
    ensures NamesWithin(Next(s, a), rqs, cgs)
  {
    if Enabled(s, a) {
      match a
      case OnIssue(rq, ts, bytes, cgroup) => NamesPush(s.log, Issue(rq, ts, bytes, cgroup));
      case OnComplete(_, _) =>
      case Advance(i, clock) =>
        var h := s.handlers[i];
        NamesPush(s.log, Complete(h.rq, h.failed, clock));
        assert Holds(s, h);
        StepMoves(s, i, clock);
        StepNamesNothing(s, StepHandler(s, i, clock), i, clock);
    }
  }

  lemma StepNamesNothing(s: State, s': State, i: nat, clock: U64)
    requires MovesHandler(s, s', i) && MovesLog(s, s', i, clock)
    ensures s'.start.Keys <= s.start.Keys
    ensures s'.log == s.log || s'.log == s.log + [Complete(s.handlers[i].rq, s.handlers[i].failed, clock)]
  {
    hide Wrap;
  }

  lemma {:induction false} ExecNamesWithin(acts: seq<Action>, rqs: set<U64>, cgs: set<U64>)
    requires IssuedRequests(acts) <= rqs && IssuedCgroups(acts) <= cgs
    ensures NamesWithin(Exec(INIT, acts), rqs, cgs)
  {
    if acts != [] {
      IssuedGrow(acts);
      ExecNamesWithin(Front(acts), rqs, cgs);
      ExecKeepsInv(INIT, Front(acts));
      NextNamesWithin(Exec(INIT, Front(acts)), Last(acts), rqs, cgs);
    }
  }

  lemma LogFits(s: State, rqs: set<U64>, cgs: set<U64>)
    requires NamesWithin(s, rqs, cgs) && |rqs| <= START_CAPACITY && |cgs| <= STATS_CAPACITY
    ensures NeverFull(s.log)
    ensures forall rq :: rq in rqs && rq !in s.start ==> |s.start| < START_CAPACITY
  {
    SubsetSize(Requests(s.log), rqs);
    SubsetSize(Cgroups(s.log), cgs);
    FewNamesFit(s.log);
    SubsetSize(s.start.Keys, rqs);
  }

  /** Any schedule whose issues name at most 32768 requests and 16384 cgroups finds room throughout. */
  lemma FewNamesAreRoomy(acts: seq<Action>)
    requires |IssuedRequests(acts)| <= 32768 && |IssuedCgroups(acts)| <= 16384
    ensures Roomy(acts)
  {
    RoomyWithin(acts, IssuedRequests(acts), IssuedCgroups(acts));
  }

  lemma {:induction false} RoomyWithin(acts: seq<Action>, rqs: set<U64>, cgs: set<U64>)
    requires IssuedRequests(acts) <= rqs && IssuedCgroups(acts) <= cgs
    requires |rqs| <= START_CAPACITY && |cgs| <= STATS_CAPACITY
    ensures Roomy(acts)
  {
    ExecNamesWithin(acts, rqs, cgs);
    LogFits(Exec(INIT, acts), rqs, cgs);
    if acts != [] {
      IssuedGrow(acts);
      RoomyWithin(Front(acts), rqs, cgs);
      ExecNamesWithin(Front(acts), rqs, cgs);
      LogFits(Exec(INIT, Front(acts)), rqs, cgs);
    }
  }

  // ----- Totals of an interleaving against the serial ones

  predicate AtMost(a: Totals, b: Totals) {
    a.io <= b.io && a.latency <= b.latency && a.bytes <= b.bytes && a.errors <= b.errors
  }

  lemma {:induction false} CellWithinCgroup(s: State, n: nat, c: nat)
    requires CellsLinked(s) && n <= |s.handlers| && c < |s.cells|
    ensures AtMost(SumTo(s.handlers, n, OfCell(c)), SumTo(s.handlers, n, OfCgroup(s.cells[c].cgroup)))
  {
    if n != 0 {
      CellWithinCgroup(s, n - 1, c);
      var h := s.handlers[n - 1];
      assert AtMost(Part(h, OfCell(c)), Part(h, OfCgroup(s.cells[c].cgroup)));
    }
  }

  /** Racing first-touch inserts can lose counts but never invent them: at any moment the visible
      entry holds at most the serial totals. */
  lemma VisibleNeverExceeds(acts: seq<Action>, cg: U64)
    requires Roomy(acts) && cg in Exec(INIT, acts).stats
    ensures var s := Exec(INIT, acts);
      && s.stats[cg] < |s.cells|
      && s.cells[s.stats[cg]].stats == Sum(s.handlers, OfCell(s.stats[cg])).ToStats()
      && AtMost(Sum(s.handlers, OfCell(s.stats[cg])), Sums(s.log, cg))
  {
    ExecIsSerial(acts);
    var s := Exec(INIT, acts);
    CellWithinCgroup(s, |s.handlers|, s.stats[cg]);
    assert Sums(s.log, cg) == Sum(s.handlers, OfCgroup(cg));
  }

  /** No first touch of `cg` was ever repeated: its visible cell is its only one. */
  ghost predicate SoleCell(s: State, cg: U64) {
    cg in s.stats && forall c :: 0 <= c < |s.cells| && s.cells[c].cgroup == cg ==> c == s.stats[cg]
  }

  lemma SoleCellHoldsAll(s: State, cg: U64)
    requires CellsLinked(s) && NoneDropped(s) && Quiescent(s) && SoleCell(s, cg)
    ensures Sum(s.handlers, OfCell(s.stats[cg])) == Sum(s.handlers, OfCgroup(cg))
  {
    forall i | 0 <= i < |s.handlers| ensures !Stray(s, cg, i) {
      assert Terminal(s.handlers[i].pc) && !s.handlers[i].pc.Dropped?;
    }
    StraysLose(s, |s.handlers|, cg);
    StraysZeroIff(s, |s.handlers|, cg);
  }

  /** With every handler done, an interleaving ends in exactly the serial state: the same start map
      and, for each cgroup whose first touch was not raced, the same entry. */
  lemma QuiescentIsSerial(acts: seq<Action>, cg: U64)
    requires Roomy(acts) && Quiescent(Exec(INIT, acts)) && SoleCell(Exec(INIT, acts), cg)
    ensures var s := Exec(INIT, acts);
      && s.stats[cg] < |s.cells|
      && s.cells[s.stats[cg]].stats == EntryOr0(Run(s.log), cg)
      && s.start == Run(s.log).start
  {
    ExecIsSerial(acts);
    QuiescentMatchesRun(Exec(INIT, acts), cg);
  }

  lemma QuiescentMatchesRun(s: State, cg: U64)
    requires Inv(s) && Serial(s) && NeverFull(s.log) && Quiescent(s) && SoleCell(s, cg)
    ensures s.cells[s.stats[cg]].stats == EntryOr0(Run(s.log), cg)
    ensures s.start == Run(s.log).start
  {
    SoleCellHoldsAll(s, cg);
    assert Sums(s.log, cg) == Sum(s.handlers, OfCgroup(cg));
    EntryIsSum(s.log, cg);
    forall rq ensures Free(s, rq) == if rq in Run(s.log).start then Some(Run(s.log).start[rq]) else None {
      PendingAt(s.log, rq);
      NothingRefused(s.log, rq);
      assert LatestIssue(s.log, rq) == Free(s, rq);
    }
    forall rq ensures rq in s.start <==> rq in Run(s.log).start
              ensures rq in s.start ==> s.start[rq] == Run(s.log).start[rq]
    {
      assert !Taken(s, rq);
    }
  }

  // ----- Exactly when a count is lost

  /** Handler `i` counts for `cg` in a cell that has since been replaced. */
  predicate Stray(s: State, cg: U64, i: nat) {
    && i < |s.handlers| && cg in s.stats
    && HasCell(s.handlers[i].pc) && s.handlers[i].start.cgroup == cg && s.handlers[i].cell != s.stats[cg]
  }

  lemma PartOfStray(s: State, cg: U64, i: nat)
    requires CellsLinked(s) && NoneDropped(s) && Quiescent(s) && cg in s.stats && i < |s.handlers|
    ensures var c, g := Part(s.handlers[i], OfCell(s.stats[cg])), Part(s.handlers[i], OfCgroup(cg));
      if Stray(s, cg, i) then c == NOTHING && g.io == 1 else c == g
  {
    assert Terminal(s.handlers[i].pc) && !s.handlers[i].pc.Dropped?;
  }

  function Strays(s: State, n: nat, cg: U64): nat {
    if n == 0 then 0 else Strays(s, n - 1, cg) + if Stray(s, cg, n - 1) then 1 else 0
  }

  lemma {:induction false} StraysZeroIff(s: State, n: nat, cg: U64)
    ensures Strays(s, n, cg) == 0 <==> forall i :: 0 <= i < n ==> !Stray(s, cg, i)
  {
    hide Stray;
    if n != 0 {
      StraysZeroIff(s, n - 1, cg);
    }
  }

  lemma {:induction false} StraysLose(s: State, n: nat, cg: U64)
    requires CellsLinked(s) && NoneDropped(s) && Quiescent(s) && cg in s.stats && n <= |s.handlers|
    ensures var c, g := SumTo(s.handlers, n, OfCell(s.stats[cg])), SumTo(s.handlers, n, OfCgroup(cg));
      c.io + Strays(s, n, cg) == g.io && (Strays(s, n, cg) == 0 ==> c == g)
  {
    hide Part, Stray, CellsLinked, NoneDropped, Quiescent;
    if n != 0 {
      StraysLose(s, n - 1, cg);
      PartOfStray(s, cg, n - 1);
    }
  }

  /** At rest, a visible entry is short of the serial count by exactly the completions that were
      counted in a replaced cell, and without any of those it holds the serial totals. */
  lemma LostAreStrays(acts: seq<Action>, cg: U64)
    requires Roomy(acts) && Quiescent(Exec(INIT, acts)) && cg in Exec(INIT, acts).stats
    ensures var s := Exec(INIT, acts);
      var visible := Sum(s.handlers, OfCell(s.stats[cg]));
      && visible.io + Strays(s, |s.handlers|, cg) == Sums(s.log, cg).io
      && (visible == Sums(s.log, cg) <==> forall i :: 0 <= i < |s.handlers| ==> !Stray(s, cg, i))
  {
    ExecIsSerial(acts);
    var s := Exec(INIT, acts);
    StraysLose(s, |s.handlers|, cg);
    StraysZeroIff(s, |s.handlers|, cg);
    assert Sums(s.log, cg) == Sum(s.handlers, OfCgroup(cg));
  }

  // ----- The schedules that lose a count

  /** Handler `j` points into the visible entry of `cg`. */
  predicate Holder(s: State, cg: U64, j: nat) {
    && j < |s.handlers| && cg in s.stats
    && HasCell(s.handlers[j].pc) && s.handlers[j].start.cgroup == cg && s.handlers[j].cell == s.stats[cg]
  }

  ghost predicate HasHolder(s: State, cg: U64) {
    exists j :: 0 <= j < |s.handlers| && Holder(s, cg, j)
  }

  ghost predicate HasStray(s: State, cg: U64) {
    exists j :: 0 <= j < |s.handlers| && Stray(s, cg, j)
  }

  /** A first-touch insert of `cg` on behalf of a lookup that came too early: the entry is there by now
      and some handler already points into it. */
  ghost predicate Overrides(s: State, i: nat, cg: U64) {
    i < |s.handlers| && s.handlers[i].pc.AtInsert? && s.handlers[i].start.cgroup == cg && HasHolder(s, cg)
  }

  /** Some step of the schedule overrides an entry of `cg` in use. */
  ghost predicate Overridden(acts: seq<Action>, cg: U64) {
    acts != [] &&
      (Overridden(Front(acts), cg) || (Last(acts).Advance? && Overrides(Exec(INIT, Front(acts)), Last(acts).cpu, cg)))
  }

  /** Whoever has a cell has one of a cgroup with an entry. */
  ghost predicate Pointed(s: State) {
    forall j :: 0 <= j < |s.handlers| && HasCell(s.handlers[j].pc) ==> s.handlers[j].start.cgroup in s.stats
  }

  lemma StepKeepsPointed(s: State, s': State, i: nat)
    requires Pointed(s) && MovesHandler(s, s', i) && MovesCells(s, s', i)
    ensures Pointed(s')
  {
    hide Moved, Added;
    assert s.stats.Keys <= s'.stats.Keys;
  }

  /** An insert that replaces the entry strands exactly the handlers that hold it. */
  lemma InsertStrands(s: State, s': State, i: nat, cg: U64, j: nat)
    requires CellsLinked(s) && Pointed(s) && MovesHandler(s, s', i) && MovesCells(s, s', i)
    requires |s'.cells| != |s.cells| && s.handlers[i].start.cgroup == cg && j < |s.handlers|
    ensures Stray(s', cg, j) <==> Stray(s, cg, j) || Holder(s, cg, j)
  {
    hide Moved, Added;
  }

  /** Any other step moves nobody off the visible entry or back onto it. */
  lemma OtherStrandsNobody(s: State, s': State, i: nat, cg: U64, j: nat)
    requires CellsLinked(s) && Pointed(s) && MovesHandler(s, s', i) && MovesCells(s, s', i)
    requires (|s'.cells| == |s.cells| || s.handlers[i].start.cgroup != cg) && j < |s.handlers|
    ensures Stray(s', cg, j) <==> Stray(s, cg, j)
  {
    hide Moved, Added;
  }

  lemma StepStrands(s: State, s': State, i: nat, cg: U64)
    requires CellsLinked(s) && Pointed(s) && MovesHandler(s, s', i) && MovesCells(s, s', i)
    requires Overrides(s, i, cg) ==> |s'.cells| != |s.cells|
    ensures HasStray(s', cg) <==> HasStray(s, cg) || Overrides(s, i, cg)
  {
    if |s'.cells| != |s.cells| && s.handlers[i].start.cgroup == cg {
      forall j: nat | j < |s.handlers| ensures Stray(s', cg, j) <==> Stray(s, cg, j) || Holder(s, cg, j) {
        InsertStrands(s, s', i, cg, j);
      }
      assert s.handlers[i].pc.AtInsert?;
    } else {
      forall j: nat | j < |s.handlers| ensures Stray(s', cg, j) <==> Stray(s, cg, j) {
        OtherStrandsNobody(s, s', i, cg, j);
      }
    }
    hide Stray, Holder, CellsLinked, Pointed, MovesCells;
  }

  /** Inserting over a present entry always succeeds. */
  lemma OverrideReplaces(s: State, i: nat, clock: U64, cg: U64)
    requires i < |s.handlers| && Overrides(s, i, cg)
    ensures |StepHandler(s, i, clock).cells| == |s.cells| + 1
  {
  }

  lemma NextStrands(s: State, a: Action, cg: U64)
    requires Inv(s) && Pointed(s)
    ensures Pointed(Next(s, a))
    ensures HasStray(Next(s, a), cg) <==> HasStray(s, cg) || (a.Advance? && Overrides(s, a.cpu, cg))
  {
    if Enabled(s, a) {
      match a
      case OnIssue(_, _, _, _) => SameHandlersStrand(s, Next(s, a), cg);
      case OnComplete(rq, failed) => NewcomerStrandsNobody(s, Handler(rq, failed, AtLookup, UNREAD, 0, 0), cg);
      case Advance(i, clock) =>
        var s' := StepHandler(s, i, clock);
        assert Holds(s, s.handlers[i]);
        StepMoves(s, i, clock);
        StepKeepsPointed(s, s', i);
        if Overrides(s, i, cg) {
          OverrideReplaces(s, i, clock, cg);
        }
        StepStrands(s, s', i, cg);
    }
  }

  lemma SameHandlersStrand(s: State, s': State, cg: U64)
    requires s'.handlers == s.handlers && s'.stats == s.stats
    ensures HasStray(s', cg) <==> HasStray(s, cg)
    ensures Pointed(s) ==> Pointed(s')
  {
    assert forall j: nat :: Stray(s', cg, j) <==> Stray(s, cg, j);
  }

  lemma NewcomerStrandsNobody(s: State, h: Handler, cg: U64)
    requires h.pc.AtLookup?
    ensures var s' := s.(handlers := s.handlers + [h]);
      (HasStray(s', cg) <==> HasStray(s, cg)) && (Pointed(s) ==> Pointed(s'))
  {
    var s' := s.(handlers := s.handlers + [h]);
    assert forall j: nat :: j < |s.handlers| ==> (Stray(s', cg, j) <==> Stray(s, cg, j));
    assert !Stray(s', cg, |s.handlers|);
  }

  /** In every state of every interleaving, a handler of `cg` is off the visible entry exactly when some
      earlier step overrode an entry in use. */
  lemma {:induction false} StrayIffOverridden(acts: seq<Action>, cg: U64)
    ensures Pointed(Exec(INIT, acts))
    ensures HasStray(Exec(INIT, acts), cg) <==> Overridden(acts, cg)
  {
    if acts != [] {
      StrayIffOverridden(Front(acts), cg);
      ExecKeepsInv(INIT, Front(acts));
      NextStrands(Exec(INIT, Front(acts)), Last(acts), cg);
    }
  }

  /** At rest, the visible entry holds the serial totals if and only if the schedule never ran a
      first-touch insert over an entry that was already in use. */
  lemma ExactIffNotOverridden(acts: seq<Action>, cg: U64)
    requires Roomy(acts) && Quiescent(Exec(INIT, acts)) && cg in Exec(INIT, acts).stats
    ensures var s := Exec(INIT, acts);
      Sum(s.handlers, OfCell(s.stats[cg])) == Sums(s.log, cg) <==> !Overridden(acts, cg)
  {
    LostAreStrays(acts, cg);
    StrayIffOverridden(acts, cg);
  }

  // ----- Entries already present

  /** Since `before`, every handler that reached a cell for `cg` reached the one that was there. */
  ghost predicate StaysOn(before: State, s: State, cg: U64)
    requires cg in before.stats
  {
    && cg in s.stats && s.stats[cg] == before.stats[cg]
    && |before.handlers| <= |s.handlers|
    && (forall i :: 0 <= i < |before.handlers| ==> s.handlers[i] == before.handlers[i])
    && (forall i :: |before.handlers| <= i < |s.handlers| && s.handlers[i].start.cgroup == cg ==>
          && (HasCell(s.handlers[i].pc) ==> s.handlers[i].cell == before.stats[cg])
          && (Effective(s.handlers[i].pc) ==> HasCell(s.handlers[i].pc) || s.handlers[i].pc.AtFind?))
  }

  lemma StepStaysOn(before: State, s: State, s': State, i: nat, cg: U64)
    requires cg in before.stats && Quiescent(before) && StaysOn(before, s, cg)
    requires MovesHandler(s, s', i) && MovesCells(s, s', i)
    ensures StaysOn(before, s', cg)
  {
    var h, h' := s.handlers[i], s'.handlers[i];
    assert i >= |before.handlers|;
    assert s'.stats == s.stats || h.pc.AtInsert?;
  }

  lemma {:induction false} ExecStaysOn(before: State, acts: seq<Action>, cg: U64)
    requires Inv(before) && Quiescent(before) && cg in before.stats
    ensures Inv(Exec(before, acts)) && StaysOn(before, Exec(before, acts), cg)
  {
    ExecKeepsInv(before, acts);
    if acts != [] {
      ExecStaysOn(before, Front(acts), cg);
      NextStaysOn(before, Exec(before, Front(acts)), Last(acts), cg);
    }
  }

  lemma NextStaysOn(before: State, s: State, a: Action, cg: U64)
    requires cg in before.stats && Quiescent(before) && StaysOn(before, s, cg) && Inv(s)
    ensures StaysOn(before, Next(s, a), cg)
  {
    if a.Advance? && Enabled(s, a) {
      assert Holds(s, s.handlers[a.cpu]);
      StepMoves(s, a.cpu, a.clock);
      StepStaysOn(before, s, StepHandler(s, a.cpu, a.clock), a.cpu, cg);
    }
  }

  lemma {:induction false} GainsAgree(a: seq<Handler>, b: seq<Handler>, n: nat, c: View, g: View)
    requires |a| <= n <= |b| && forall i :: 0 <= i < |a| ==> a[i] == b[i]
    requires forall i :: |a| <= i < |b| ==> Part(b[i], c) == Part(b[i], g)
    ensures SumTo(b, n, c).Plus(Sum(a, g)) == SumTo(b, n, g).Plus(Sum(a, c))
  {
    if n == |a| {
      SamePrefix(a, b, n, c);
      SamePrefix(a, b, n, g);
      PlusFlips(Sum(a, c), Sum(a, g));
    } else {
      GainsAgree(a, b, n - 1, c, g);
      PlusBoth(SumTo(b, n - 1, c), Sum(a, g), SumTo(b, n - 1, g), Sum(a, c), Part(b[n - 1], c));
    }
  }

  lemma PlusFlips(a: Totals, b: Totals)
    ensures a.Plus(b) == b.Plus(a)
  {
  }

  lemma ShareIsDue(before: State, s: State, cg: U64, i: nat)
    requires cg in before.stats && StaysOn(before, s, cg) && CellsLinked(s) && Quiescent(s)
    requires before.stats[cg] < |s.cells| && s.cells[before.stats[cg]].cgroup == cg
    requires |before.handlers| <= i < |s.handlers|
    ensures Part(s.handlers[i], OfCell(before.stats[cg])) == Part(s.handlers[i], OfCgroup(cg))
  {
    assert Terminal(s.handlers[i].pc);
  }

  lemma {:induction false} SamePrefix(a: seq<Handler>, b: seq<Handler>, n: nat, v: View)
    requires n <= |a| && n <= |b| && forall i :: 0 <= i < n ==> a[i] == b[i]
    ensures SumTo(a, n, v) == SumTo(b, n, v)
  {
    if n != 0 {
      SamePrefix(a, b, n - 1, v);
    }
  }

  /** From a quiet state in which `cg` already has its entry, any further interleaving that comes to
      rest has moved that entry by exactly what the completions in between owe: nothing is lost,
      whatever the capacities. */
  lemma PresentEntryIsExact(earlier: seq<Action>, acts: seq<Action>, cg: U64)
    requires Quiescent(Exec(INIT, earlier)) && cg in Exec(INIT, earlier).stats
    requires Quiescent(Exec(Exec(INIT, earlier), acts))
    ensures var s1 := Exec(INIT, earlier);
      var s2 := Exec(s1, acts);
      var c := s1.stats[cg];
      && cg in s2.stats && s2.stats[cg] == c < |s2.cells|
      && s2.cells[c].stats == Sum(s2.handlers, OfCell(c)).ToStats()
      && Sum(s2.handlers, OfCell(c)).Plus(Sum(s1.handlers, OfCgroup(cg)))
         == Sum(s2.handlers, OfCgroup(cg)).Plus(Sum(s1.handlers, OfCell(c)))
  {
    ExecKeepsInv(INIT, earlier);
    var s1 := Exec(INIT, earlier);
    ExecStaysOn(s1, acts, cg);
    var s2 := Exec(s1, acts);
    forall i | |s1.handlers| <= i < |s2.handlers|
      ensures Part(s2.handlers[i], OfCell(s1.stats[cg])) == Part(s2.handlers[i], OfCgroup(cg))
    {
      ShareIsDue(s1, s2, cg, i);
    }
    GainsAgree(s1.handlers, s2.handlers, |s2.handlers|, OfCell(s1.stats[cg]), OfCgroup(cg));
  }
}
