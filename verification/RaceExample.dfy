/** Two first touches of one cgroup that race, run to the end
    (ebpf/latency/block_latency.c:71-79): one of the two counts is lost. */
module RaceExample {
  import opened Words
  import opened BlockLatency
  import opened BlockInterleaving

  lemma Then(acts: seq<Action>, a: Action, s: State, s': State)
    requires Exec(INIT, acts) == s && Next(s, a) == s'
    ensures Exec(INIT, acts + [a]) == s'
  {
    assert Front(acts + [a]) == acts;
  }

  const RECORD := StartVal(0, 0, 7)

  function AtPc(rq: U64, pc: Pc): Handler {
    Handler(rq, false, pc, if Effective(pc) then RECORD else UNREAD, if Effective(pc) then 5 else 0, 0)
  }

  /** Two requests of cgroup 7, their handlers at `p` and `q`, and no entry yet. */
  function Untouched(p: Pc, q: Pc): State {
    var issues := [Issue(1, 0, 0, 7), Issue(2, 0, 0, 7)];
    State(map[1 := RECORD, 2 := RECORD], map[], [], [AtPc(1, p), AtPc(2, q)],
          if !Effective(p) then issues
          else if !Effective(q) then issues + [Complete(1, false, 5)]
          else issues + [Complete(1, false, 5), Complete(2, false, 5)])
  }

  function Arriving(starts: map<U64, StartVal>, handlers: seq<Handler>, log: seq<Event>): State {
    State(starts, map[], [], handlers, log)
  }

  lemma FirstIssue() returns (acts: seq<Action>)
    ensures Exec(INIT, acts) == Arriving(map[1 := RECORD], [], [Issue(1, 0, 0, 7)])
  {
    acts := [] + [OnIssue(1, 0, 0, 7)];
    Then([], OnIssue(1, 0, 0, 7), INIT, Arriving(map[1 := RECORD], [], [Issue(1, 0, 0, 7)]));
  }

  lemma SecondIssue() returns (acts: seq<Action>)
    ensures Exec(INIT, acts)
         == Arriving(map[1 := RECORD, 2 := RECORD], [], [Issue(1, 0, 0, 7), Issue(2, 0, 0, 7)])
  {
    acts := FirstIssue();
    Then(acts, OnIssue(2, 0, 0, 7), Arriving(map[1 := RECORD], [], [Issue(1, 0, 0, 7)]),
         Arriving(map[1 := RECORD, 2 := RECORD], [], [Issue(1, 0, 0, 7), Issue(2, 0, 0, 7)]));
    acts := acts + [OnIssue(2, 0, 0, 7)];
  }

  lemma Arrivals() returns (acts: seq<Action>)
    ensures Exec(INIT, acts) == Untouched(AtLookup, AtLookup)
  {
    hide Wrap;
    acts := SecondIssue();
    var starts, log := map[1 := RECORD, 2 := RECORD], [Issue(1, 0, 0, 7), Issue(2, 0, 0, 7)];
    Then(acts, OnComplete(1, false), Arriving(starts, [], log), Arriving(starts, [AtPc(1, AtLookup)], log));
    acts := acts + [OnComplete(1, false)];
    Then(acts, OnComplete(2, false), Arriving(starts, [AtPc(1, AtLookup)], log), Untouched(AtLookup, AtLookup));
    acts := acts + [OnComplete(2, false)];
  }

  lemma Walk(acts: seq<Action>, cpu: nat, s0: State, s1: State, s2: State, s3: State)
    returns (longer: seq<Action>)
    requires Exec(INIT, acts) == s0
    requires Next(s0, Advance(cpu, 5)) == s1 && Next(s1, Advance(cpu, 5)) == s2 && Next(s2, Advance(cpu, 5)) == s3
    ensures Exec(INIT, longer) == s3
  {
    Then(acts, Advance(cpu, 5), s0, s1);
    Then(acts + [Advance(cpu, 5)], Advance(cpu, 5), s1, s2);
    Then(acts + [Advance(cpu, 5)] + [Advance(cpu, 5)], Advance(cpu, 5), s2, s3);
    longer := acts + [Advance(cpu, 5)] + [Advance(cpu, 5)] + [Advance(cpu, 5)];
  }

  lemma LookupSteps()
    ensures Next(Untouched(AtLookup, AtLookup), Advance(0, 5)) == Untouched(AtClock, AtLookup)
    ensures Next(Untouched(AtInsert, AtLookup), Advance(1, 5)) == Untouched(AtInsert, AtClock)
  {
  }

  lemma ClockSteps()
    ensures Next(Untouched(AtClock, AtLookup), Advance(0, 5)) == Untouched(AtFind, AtLookup)
    ensures Next(Untouched(AtInsert, AtClock), Advance(1, 5)) == Untouched(AtInsert, AtFind)
  {
    WrapSmall(5);
    hide Wrap;
  }

  lemma FindSteps()
    ensures Next(Untouched(AtFind, AtLookup), Advance(0, 5)) == Untouched(AtInsert, AtLookup)
    ensures Next(Untouched(AtInsert, AtFind), Advance(1, 5)) == Untouched(AtInsert, AtInsert)
  {
  }

  lemma BothMiss() returns (acts: seq<Action>)
    ensures Exec(INIT, acts) == Untouched(AtInsert, AtInsert)
  {
    acts := Arrivals();
    LookupSteps();
    ClockSteps();
    FindSteps();
    acts := Walk(acts, 0, Untouched(AtLookup, AtLookup), Untouched(AtClock, AtLookup),
                 Untouched(AtFind, AtLookup), Untouched(AtInsert, AtLookup));
    acts := Walk(acts, 1, Untouched(AtInsert, AtLookup), Untouched(AtInsert, AtClock),
                 Untouched(AtInsert, AtFind), Untouched(AtInsert, AtInsert));
  }

  /** The state of the race once an entry exists. */
  function Touched(cell: nat, cells: seq<Cell>, p: Pc, q: Pc): State {
    Untouched(AtInsert, AtInsert).(stats := map[7 := cell], cells := cells, handlers := [AtPc(1, p), AtPc(2, q)])
  }

  lemma FirstCounts() returns (acts: seq<Action>)
    ensures Exec(INIT, acts) == Touched(0, [Cell(7, IoStats(1, 0, 0, 0))], AtLatency, AtInsert)
  {
    acts := BothMiss();
    var empty := [Cell(7, ZERO_STATS)];
    InsertStep();
    Then(acts, Advance(0, 5), Untouched(AtInsert, AtInsert), Touched(0, empty, AtRefind, AtInsert));
    acts := acts + [Advance(0, 5)];
    Then(acts, Advance(0, 5), Touched(0, empty, AtRefind, AtInsert), Touched(0, empty, AtIo, AtInsert));
    acts := acts + [Advance(0, 5)];
    CountStep();
    Then(acts, Advance(0, 5), Touched(0, empty, AtIo, AtInsert),
         Touched(0, [Cell(7, IoStats(1, 0, 0, 0))], AtLatency, AtInsert));
    acts := acts + [Advance(0, 5)];
  }

  lemma InsertStep()
    ensures Next(Untouched(AtInsert, AtInsert), Advance(0, 5))
         == Touched(0, [Cell(7, ZERO_STATS)], AtRefind, AtInsert)
  {
  }

  lemma CountStep()
    ensures Next(Touched(0, [Cell(7, ZERO_STATS)], AtIo, AtInsert), Advance(0, 5))
         == Touched(0, [Cell(7, IoStats(1, 0, 0, 0))], AtLatency, AtInsert)
  {
  }

  const RACE_ISSUES := [Issue(1, 0, 0, 7), Issue(2, 0, 0, 7)]
  const RACE_LOG := RACE_ISSUES + [Complete(1, false, 5), Complete(2, false, 5)]

  const BOTH := map[1 := RECORD, 2 := RECORD]
  const SECOND := map[2 := RECORD]
  const ONE := IoStats(1, 0, 0, 0)
  const DONE := IoStats(1, 5, 0, 0)

  /** The race once the second insert has replaced the entry: one cell is lost and one is seen. */
  function Replaced(starts: map<U64, StartVal>, p: Pc, q: Pc, lost: IoStats, seen: IoStats): State {
    State(starts, map[7 := 1], [Cell(7, lost), Cell(7, seen)],
          [AtPc(1, p), AtPc(2, q).(cell := if HasCell(q) then 1 else 0)], RACE_LOG)
  }

  lemma OneStep(acts: seq<Action>, cpu: nat, s: State, s': State) returns (longer: seq<Action>)
    requires Exec(INIT, acts) == s && Next(s, Advance(cpu, 5)) == s'
    ensures Exec(INIT, longer) == s'
  {
    Then(acts, Advance(cpu, 5), s, s');
    longer := acts + [Advance(cpu, 5)];
  }

  lemma ReplaceStep()
    ensures Next(Touched(0, [Cell(7, ONE)], AtLatency, AtInsert), Advance(1, 5))
         == Replaced(BOTH, AtLatency, AtRefind, ONE, ZERO_STATS)
  {
  }

  lemma FirstLatencyStep()
    ensures Next(Replaced(BOTH, AtLatency, AtRefind, ONE, ZERO_STATS), Advance(0, 5))
         == Replaced(BOTH, AtBytes, AtRefind, DONE, ZERO_STATS)
  {
  }

  lemma FirstBytesStep()
    ensures Next(Replaced(BOTH, AtBytes, AtRefind, DONE, ZERO_STATS), Advance(0, 5))
         == Replaced(BOTH, AtError, AtRefind, DONE, ZERO_STATS)
  {
  }

  lemma FirstErrorStep()
    ensures Next(Replaced(BOTH, AtError, AtRefind, DONE, ZERO_STATS), Advance(0, 5))
         == Replaced(BOTH, AtDelete, AtRefind, DONE, ZERO_STATS)
  {
  }

  lemma FirstDeleteStep()
    ensures Next(Replaced(BOTH, AtDelete, AtRefind, DONE, ZERO_STATS), Advance(0, 5))
         == Replaced(SECOND, Finished, AtRefind, DONE, ZERO_STATS)
  {
  }

  lemma SecondRefindStep()
    ensures Next(Replaced(SECOND, Finished, AtRefind, DONE, ZERO_STATS), Advance(1, 5))
         == Replaced(SECOND, Finished, AtIo, DONE, ZERO_STATS)
  {
  }

  lemma SecondIoStep()
    ensures Next(Replaced(SECOND, Finished, AtIo, DONE, ZERO_STATS), Advance(1, 5))
         == Replaced(SECOND, Finished, AtLatency, DONE, ONE)
  {
  }

  lemma SecondLatencyStep()
    ensures Next(Replaced(SECOND, Finished, AtLatency, DONE, ONE), Advance(1, 5))
         == Replaced(SECOND, Finished, AtBytes, DONE, DONE)
  {
  }

  lemma SecondBytesStep()
    ensures Next(Replaced(SECOND, Finished, AtBytes, DONE, DONE), Advance(1, 5))
         == Replaced(SECOND, Finished, AtError, DONE, DONE)
  {
  }

  lemma SecondErrorStep()
    ensures Next(Replaced(SECOND, Finished, AtError, DONE, DONE), Advance(1, 5))
         == Replaced(SECOND, Finished, AtDelete, DONE, DONE)
  {
  }

  lemma SecondDeleteStep()
    ensures Next(Replaced(SECOND, Finished, AtDelete, DONE, DONE), Advance(1, 5))
         == Replaced(map[], Finished, Finished, DONE, DONE)
  {
  }

  lemma RunFirst() returns (acts: seq<Action>)
    ensures Exec(INIT, acts) == Replaced(SECOND, Finished, AtRefind, DONE, ZERO_STATS)
  {
    hide Next, Replaced;
    acts := FirstCounts();
    ReplaceStep();
    FirstLatencyStep();
    FirstBytesStep();
    FirstErrorStep();
    FirstDeleteStep();
    acts := OneStep(acts, 1, Touched(0, [Cell(7, ONE)], AtLatency, AtInsert), Replaced(BOTH, AtLatency, AtRefind, ONE, ZERO_STATS));
    acts := Walk(acts, 0, Replaced(BOTH, AtLatency, AtRefind, ONE, ZERO_STATS), Replaced(BOTH, AtBytes, AtRefind, DONE, ZERO_STATS),
                 Replaced(BOTH, AtError, AtRefind, DONE, ZERO_STATS), Replaced(BOTH, AtDelete, AtRefind, DONE, ZERO_STATS));
    acts := OneStep(acts, 0, Replaced(BOTH, AtDelete, AtRefind, DONE, ZERO_STATS), Replaced(SECOND, Finished, AtRefind, DONE, ZERO_STATS));
  }

  lemma RunSecond() returns (acts: seq<Action>)
    ensures Exec(INIT, acts) == Replaced(map[], Finished, Finished, DONE, DONE)
  {
    hide Next, Replaced;
    acts := RunFirst();
    SecondRefindStep();
    SecondIoStep();
    SecondLatencyStep();
    SecondBytesStep();
    SecondErrorStep();
    SecondDeleteStep();
    acts := Walk(acts, 1, Replaced(SECOND, Finished, AtRefind, DONE, ZERO_STATS), Replaced(SECOND, Finished, AtIo, DONE, ZERO_STATS),
                 Replaced(SECOND, Finished, AtLatency, DONE, ONE), Replaced(SECOND, Finished, AtBytes, DONE, DONE));
    acts := Walk(acts, 1, Replaced(SECOND, Finished, AtBytes, DONE, DONE), Replaced(SECOND, Finished, AtError, DONE, DONE),
                 Replaced(SECOND, Finished, AtDelete, DONE, DONE), Replaced(map[], Finished, Finished, DONE, DONE));
  }

  lemma RaceLogFits()
    ensures NeverFull(RACE_LOG)
  {
    assert Requests(RACE_LOG) <= {1, 2} && Cgroups(RACE_LOG) <= {7};
    SubsetSize(Requests(RACE_LOG), {1, 2});
    SubsetSize(Cgroups(RACE_LOG), {7});
    FewNamesFit(RACE_LOG);
  }

  /** A matched completion that finds room adds one. */
  lemma OneMoreCounted(tr: seq<Event>, e: Event, v: StartVal)
    requires e.Complete? && NeverFull(tr + [e]) && LatestIssue(tr, e.rq) == Some(v)
    ensures NeverFull(tr) && Sums(tr + [e], v.cgroup).io == Sums(tr, v.cgroup).io + 1
  {
    hide LatestIssue, Counts;
    assert Front(tr + [e]) == tr && Last(tr + [e]) == e;
    NothingRefused(tr, e.rq);
  }

  lemma RaceIssues()
    ensures Sums(RACE_ISSUES, 7) == NOTHING && LatestIssue(RACE_ISSUES, 1) == Some(RECORD)
    ensures LatestIssue(RACE_ISSUES + [Complete(1, false, 5)], 2) == Some(RECORD)
  {
    assert Front(RACE_ISSUES) == [Issue(1, 0, 0, 7)] && Front([Issue(1, 0, 0, 7)]) == [];
    assert Front(RACE_ISSUES + [Complete(1, false, 5)]) == RACE_ISSUES;
  }

  /** Run one after the other, both completions count. */
  lemma SerialCountsTwo()
    ensures Sums(RACE_LOG, 7).io == 2
  {
    hide Sums, LatestIssue, NeverFull;
    var three := RACE_ISSUES + [Complete(1, false, 5)];
    assert RACE_LOG == three + [Complete(2, false, 5)];
    RaceLogFits();
    RaceIssues();
    OneMoreCounted(three, Complete(2, false, 5), RECORD);
    OneMoreCounted(RACE_ISSUES, Complete(1, false, 5), RECORD);
  }

  /** Two first touches of one cgroup can race: with both handlers done, the entry that is left shows
      one operation where a serial run counts two. The schedule overrides an entry in use. */
  lemma RaceLosesCount() returns (acts: seq<Action>)
    ensures var s := Exec(INIT, acts);
      && Quiescent(s) && 7 in s.stats && s.stats[7] < |s.cells|
      && s.cells[s.stats[7]].stats.ioCount == 1 && Sums(s.log, 7).io == 2
      && Overridden(acts, 7)
  {
    acts := RunSecond();
    SerialCountsTwo();
    StrayIffOverridden(acts, 7);
    assert Stray(Exec(INIT, acts), 7, 0);
  }
}
