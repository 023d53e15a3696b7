/** The tick loop (collector/main.go:98-140): a cached resolver that is rebuilt only after a read
    met an unknown cgroup. */
module CollectorLoop {
  import opened Words
  import opened Collector
  import opened Exporter
  import Block = BlockLatency
  import Runq = RunqLatency

  /** What one tick did: the resolver could not be built, or the maps were read with `resolver` and
      the ids in `unknown` were taken for stale. */
  datatype Observation = Skipped | Read(resolver: Resolver, unknown: set<U64>)

  /** One tick of the loop: `build` is what BuildCgroupResolver gives if it is called. */
  ghost predicate Ticks(before: Option<Resolver>, build: Option<Resolver>, obs: Observation, after: Option<Resolver>) {
    if before.None? && build.None? then
      obs == Skipped && after == None
    else
      var r := if before.Some? then before.value else build.value;
      && obs.Read? && obs.resolver == r
      && (forall id :: id in obs.unknown ==> !Known(r, id))
      && after == if obs.unknown != {} then None else Some(r)
  }

  class Loop {
    var resolver: Option<Resolver>
    const blockMap: BpfMap<Block.IoStats>
    const runqMap: BpfMap?<Runq.RunqStats>
    const metrics: PromMetrics

    constructor (blockMap: BpfMap<Block.IoStats>, runqMap: BpfMap?<Runq.RunqStats>, metrics: PromMetrics)
      ensures resolver == None && this.blockMap == blockMap && this.runqMap == runqMap && this.metrics == metrics
    {
      this.blockMap, this.runqMap, this.metrics := blockMap, runqMap, metrics;
      resolver := None;
    }

    /** A tick exports exactly when the read succeeds, and then the join of the two maps; each map read
        to its end keeps the cgroups the resolver knows. */
    method Tick(build: Option<Resolver>, blockStop: Option<nat>, runqStop: Option<nat>) returns (obs: Observation)
      requires metrics.Valid()
      modifies this`resolver, blockMap, runqMap, metrics
      ensures metrics.Valid()
      ensures Ticks(old(resolver), build, obs, resolver)
      ensures obs.Skipped? || blockStop.Some? || (runqMap != null && runqStop.Some?) ==>
        metrics.history == old(metrics.history)
      ensures obs.Read? && blockStop.None? && (runqMap == null || runqStop.None?) ==>
        && |metrics.history| == |old(metrics.history)| + 1
        && metrics.history[..|old(metrics.history)|] == old(metrics.history)
        && IsJoin(Last(metrics.history), obs.resolver, old(blockMap.entries), old(RunqEntries(runqMap)))
      ensures blockMap.entries
           == if obs.Read? && blockStop.None? then Kept(obs.resolver, old(blockMap.entries)) else old(blockMap.entries)
      ensures RunqEntries(runqMap)
           == if obs.Read? && blockStop.None? && runqStop.None? then Kept(obs.resolver, old(RunqEntries(runqMap)))
              else old(RunqEntries(runqMap))
    {
      if resolver.None? {
        if build.None? {
          return Skipped;
        }
        resolver := build;
      }
      var r := resolver.value;
      var res, unknown := ReadStats(blockMap, runqMap, r, blockStop, runqStop);
      if res.Rows? {
        metrics.Update(res.rows);
      }
      if res.hadUnknown {
        resolver := None;
      }
      obs := Read(r, unknown);
    }
  }

  // ----- Whole runs

  /** `states` are the cached resolvers around the ticks of a run. */
  ghost predicate Runs(states: seq<Option<Resolver>>, builds: seq<Option<Resolver>>, obs: seq<Observation>) {
    && |states| == |builds| + 1 && |obs| == |builds|
    && forall i :: 0 <= i < |builds| ==> Ticks(states[i], builds[i], obs[i], states[i + 1])
  }

  predicate TakenForStale(obs: Observation, id: U64) {
    obs.Read? && id in obs.unknown
  }

  /** Once a cgroup has been met as unknown, every resolver cached from then on knows it, as long as
      every one built from then on does. Builds made earlier, before the cgroup existed, are free. */
  lemma {:induction false} KnownAfterwards(states: seq<Option<Resolver>>, builds: seq<Option<Resolver>>,
                                           obs: seq<Observation>, id: U64, i: nat, j: nat)
    requires Runs(states, builds, obs) && i < j < |states| && TakenForStale(obs[i], id)
    requires forall k :: i < k < j && builds[k].Some? ==> Known(builds[k].value, id)
    ensures states[j].Some? ==> Known(states[j].value, id)
  {
    if j > i + 1 {
      KnownAfterwards(states, builds, obs, id, i, j - 1);
      assert Ticks(states[j - 1], builds[j - 1], obs[j - 1], states[j]);
    } else {
      assert Ticks(states[i], builds[i], obs[i], states[i + 1]);
    }
  }

  /** On every run, failed builds and failed reads included, of two reads
      between which every rebuilt resolver knows a cgroup, at most one takes it for stale. */
  lemma StaleAtMostOnce(states: seq<Option<Resolver>>, builds: seq<Option<Resolver>>, obs: seq<Observation>,
                        id: U64, i: nat, j: nat)
    requires Runs(states, builds, obs) && i < j < |obs|
    requires forall k :: i < k <= j && builds[k].Some? ==> Known(builds[k].value, id)
    ensures !(TakenForStale(obs[i], id) && TakenForStale(obs[j], id))
  {
    if TakenForStale(obs[i], id) {
      KnownAfterwards(states, builds, obs, id, i, j);
      assert Ticks(states[j], builds[j], obs[j], states[j + 1]);
    }
  }
}
