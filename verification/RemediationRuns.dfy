/** What holds over a whole run of actions, one pod after another. */
module RemediationRuns {
  import opened Words
  import opened Cluster
  import opened Controller
  import Evict = EvictAndTaint
  import Scale = ScaleUp
  import Migrate = MigrateStorage

  // ----- Migrations

  /** Copies of copies are copies: what is outside the target class was there from the start. */
  lemma CopiesCompose(p: Migrate.Pvcs, q: Migrate.Pvcs, r: Migrate.Pvcs, target: string)
    requires Migrate.OnlyCopiesAdded(p, q, target) && Migrate.OnlyCopiesAdded(q, r, target)
    ensures Migrate.OnlyCopiesAdded(p, r, target)
  {
    forall k | k in r && k !in p ensures Migrate.IsCopy(p, r[k], target) {
      if k !in q {
        assert Migrate.IsCopy(q, r[k], target);
        Migrate.OutsideIsOld(p, q, target, r[k].annotations[Migrate.MIGRATED_FROM]);
      }
    }
  }

  lemma StaysOnTarget(d: Deployment, p: Migrate.Pvcs, q: Migrate.Pvcs, target: string)
    requires Migrate.OnTarget(d, p, target) && Migrate.OnlyCopiesAdded(p, q, target)
    ensures Migrate.OnTarget(d, q, target)
  {
  }

  lemma SettledIsOnTarget(s: Snapshot, t: Snapshot, target: string, name: string, stamp: int)
    requires Migrate.Settles(s, t, target, name, stamp)
    ensures Migrate.OnTarget(t.deployments[name], t.pvcs, target)
  {
    var d, e := s.deployments[name], t.deployments[name];
    forall i | 0 <= i < |e.volumes| && e.volumes[i].claim.Some?
      ensures Migrate.HasClass(t.pvcs, e.volumes[i].claim.value, target)
    {
      assert Migrate.Settled(s.pvcs, t.pvcs, target, d.containers, d.volumes[i], e.volumes[i]);
    }
  }

  /** A Deployment is as it was, or wholly on target with its containers as they were. */
  ghost predicate WholeOrNot(s: Snapshot, t: Snapshot, target: string, name: string) {
    && name in s.deployments && name in t.deployments
    && var d, e := s.deployments[name], t.deployments[name];
    && e == d.(volumes := e.volumes)
    && (e == d || Migrate.OnTarget(e, t.pvcs, target))
  }

  lemma MigrationStep(s: Snapshot, t: Snapshot, target: string, pod: string, stamp: int, done: bool, name: string)
    requires Migrate.Migration(s, t, target, pod, stamp, done) && name in s.deployments
    ensures WholeOrNot(s, t, target, name)
    ensures Migrate.OnTarget(s.deployments[name], s.pvcs, target) ==> t.deployments[name] == s.deployments[name]
  {
    hide Migrate.OnTarget, Migrate.OnlyCopiesAdded, Migrate.Partway, Migrate.Named, Migrate.DeploymentOf;
    if done {
      SettledIsOnTarget(s, t, target, Migrate.Subject(s, pod).value, stamp);
    }
  }

  lemma WholeStep(s: Snapshot, t: Snapshot, u: Snapshot, target: string, pod: string, stamp: int, done: bool, name: string)
    requires WholeOrNot(s, t, target, name) && Migrate.Migration(t, u, target, pod, stamp, done)
    ensures WholeOrNot(s, u, target, name)
  {
    MigrationStep(t, u, target, pod, stamp, done, name);
    hide Migrate.OnTarget, Migrate.OnlyCopiesAdded, Migrate.Partway, Migrate.Settles;
    if Migrate.OnTarget(t.deployments[name], t.pvcs, target) {
      StaysOnTarget(t.deployments[name], t.pvcs, u.pvcs, target);
    }
  }

  /** Over a run of migrations, failed ones included: old claims are untouched, only copies of them
      are added, and every Deployment is left alone or moved whole. */
  lemma {:induction false} RunIsAllOrNothing(r: Run, target: string, i: nat, k: nat)
    requires Chain(MigrateVolumes(target), r) && i <= k < |r.states|
    ensures Migrate.OnlyCopiesAdded(r.states[i].pvcs, r.states[k].pvcs, target)
    ensures r.states[k] == r.states[i].(pvcs := r.states[k].pvcs, deployments := r.states[k].deployments)
    ensures r.states[k].deployments.Keys == r.states[i].deployments.Keys
    ensures forall name :: name in r.states[i].deployments ==> WholeOrNot(r.states[i], r.states[k], target, name)
    decreases k
  {
    hide Migrate.OnTarget, Migrate.OnlyCopiesAdded, Migrate.Settles, Migrate.Subject;
    if i == k {
      Migrate.Untouched(r.states[i].pvcs, target, 0);
    } else {
      RunIsAllOrNothing(r, target, i, k - 1);
      MigrateAt(r, target, k - 1);
      LastStep(r, target, i, k);
    }
  }

  lemma MigrateAt(r: Run, target: string, i: nat)
    requires Chain(MigrateVolumes(target), r) && i < |r.pods|
    ensures r.outcomes[i].Migrating?
    ensures Migrate.Migration(r.states[i], r.states[i + 1], target, r.pods[i], r.times[i], r.outcomes[i].m.Migrated?)
  {
    hide Migrate.Migration;
    assert ActedAt(MigrateVolumes(target), r, i);
  }

  lemma LastStep(r: Run, target: string, i: nat, k: nat)
    requires Chain(MigrateVolumes(target), r) && i < k < |r.states|
    requires Migrate.OnlyCopiesAdded(r.states[i].pvcs, r.states[k - 1].pvcs, target)
    requires r.states[k - 1].deployments.Keys == r.states[i].deployments.Keys
    requires forall name :: name in r.states[i].deployments ==> WholeOrNot(r.states[i], r.states[k - 1], target, name)
    ensures Migrate.OnlyCopiesAdded(r.states[i].pvcs, r.states[k].pvcs, target)
    ensures r.states[k].deployments.Keys == r.states[i].deployments.Keys
    ensures forall name :: name in r.states[i].deployments ==> WholeOrNot(r.states[i], r.states[k], target, name)
  {
    hide WholeOrNot, Migrate.OnlyCopiesAdded, Migrate.Partway, Migrate.OnTarget, ActedAt;
    var s, t, u := r.states[i], r.states[k - 1], r.states[k];
    MigrateAt(r, target, k - 1);
    CopiesCompose(s.pvcs, t.pvcs, u.pvcs, target);
    KeysKept(t, u, target, r.pods[k - 1], r.times[k - 1], r.outcomes[k - 1].m.Migrated?);
    forall name | name in s.deployments ensures WholeOrNot(s, u, target, name) {
      WholeStep(s, t, u, target, r.pods[k - 1], r.times[k - 1], r.outcomes[k - 1].m.Migrated?, name);
    }
  }

  lemma KeysKept(s: Snapshot, t: Snapshot, target: string, pod: string, stamp: int, done: bool)
    requires Migrate.Migration(s, t, target, pod, stamp, done)
    ensures t.deployments.Keys == s.deployments.Keys
  {
    hide Migrate.OnlyCopiesAdded, Migrate.Partway, Migrate.Named, Migrate.OnTarget, Migrate.DeploymentOf;
  }

  /** Once a Deployment has been migrated, a further pod of it leaves the whole store as it is. */
  lemma MigrationIsIdempotent(r: Run, target: string, i: nat, j: nat)
    requires Chain(MigrateVolumes(target), r) && i < j < |r.pods|
    requires Succeeded(r.outcomes[i])
    requires Migrate.DeploymentOf(r.states[0].pods, r.states[0].replicaSets, r.pods[i])
          == Migrate.DeploymentOf(r.states[0].pods, r.states[0].replicaSets, r.pods[j])
    ensures r.states[j + 1] == r.states[j]
  {
    hide Migrate.OnTarget, Migrate.OnlyCopiesAdded, Migrate.DeploymentOf, ActedAt, Migrate.Partway, Migrate.Named;
    RunIsAllOrNothing(r, target, 0, i);
    RunIsAllOrNothing(r, target, 0, j);
    MigrateAt(r, target, i);
    MigrateAt(r, target, j);
    var name := Migrate.Subject(r.states[i], r.pods[i]).value;
    SettledIsOnTarget(r.states[i], r.states[i + 1], target, name, r.times[i]);
    RunIsAllOrNothing(r, target, i + 1, j);
    assert WholeOrNot(r.states[i + 1], r.states[j], target, name);
    StaysOnTarget(r.states[i + 1].deployments[name], r.states[i + 1].pvcs, r.states[j].pvcs, target);
    assert Migrate.Subject(r.states[j], r.pods[j]) == Some(name);
  }

  // ----- Success

  /** What an action that succeeds on a pod has brought about. */
  ghost predicate Effect(a: Remediation, s: Snapshot, t: Snapshot, pod: string) {
    match a
    case EvictPods(_) => pod in t.evicted
    case MigrateVolumes(target) =>
      Migrate.Subject(t, pod).Some? && Migrate.OnTarget(t.deployments[Migrate.Subject(t, pod).value], t.pvcs, target)
    case ScalePods(c) =>
      pod in s.pods && pod in t.pods && c.max.Some? &&
      if Scale.AnyBelow(s.pods[pod].containers, c.max.value)
      then t.pods[pod].containers == Scale.ScaleAll(s.pods[pod].containers, c.max.value, c.percent)
      else pod in t.evicted
  }

  /** An action counted as a success has had its effect; one counted as a failure has evicted no pod,
      resized none and repointed no volume. */
  lemma SuccessIsEffect(a: Remediation, s: Snapshot, t: Snapshot, pod: string, now: int, o: Outcome)
    requires Acted(a, s, t, pod, now, o)
    ensures Succeeded(o) ==> Effect(a, s, t, pod)
    ensures !Succeeded(o) ==> t.evicted == s.evicted && t.pods == s.pods && t.deployments == s.deployments
  {
    hide Migrate.OnTarget, Migrate.OnlyCopiesAdded, Migrate.Partway, Migrate.Named, Migrate.DeploymentOf, Evict.NodesAfter, Scale.AnyBelow;
    if a.MigrateVolumes? && Succeeded(o) {
      SettledIsOnTarget(s, t, a.target, Migrate.Subject(s, pod).value, now);
    }
  }

  // ----- Taints and evictions

  /** The eviction an action may perform. */
  function Eviction(a: Remediation): Option<Evict.Action> {
    match a
    case EvictPods(e) => Some(e)
    case ScalePods(c) => c.fallback
    case MigrateVolumes(_) => None
  }

  /** Foreign taints are as they were. */
  ghost predicate ForeignKept(s: Snapshot, t: Snapshot, key: string) {
    && t.nodes.Keys == s.nodes.Keys
    && forall n :: n in s.nodes ==> Evict.Foreign(t.nodes[n].taints, key) == Evict.Foreign(s.nodes[n].taints, key)
  }

  /** Whichever pod has been evicted since `s` left a tainted node behind. */
  ghost predicate EvictedAreTainted(s: Snapshot, t: Snapshot, key: string) {
    forall p :: p in t.evicted && p !in s.evicted ==> TaintedHost(t, p, key)
  }

  predicate TaintedHost(t: Snapshot, p: string, key: string) {
    p in t.pods && t.pods[p].nodeName in t.nodes && Evict.HasOwn(t.nodes[t.pods[p].nodeName].taints, key)
  }

  lemma EvictStepNodes(s: Snapshot, t: Snapshot, a: Evict.Action, pod: string, now: int, o: Evict.Outcome)
    requires EvictStep(s, t, a, pod, now, o)
    ensures ForeignKept(s, t, a.key)
    ensures forall n :: n in s.nodes && Evict.HasOwn(s.nodes[n].taints, a.key) ==> Evict.HasOwn(t.nodes[n].taints, a.key)
    ensures o.Evicted? ==> TaintedHost(t, pod, a.key)
  {
    hide Evict.Stored, Evict.Foreign, Evict.HasOwn;
    if (o.Evicted? || o.EvictFailed?) {
      Evict.StoredIsSound(s.nodes[s.pods[pod].nodeName].taints, a, now);
    }
  }

  /** No pod moves to another node while it runs. */
  ghost predicate HostsKept(s: Snapshot, t: Snapshot) {
    t.pods.Keys == s.pods.Keys && forall p :: p in s.pods ==> t.pods[p].nodeName == s.pods[p].nodeName
  }

  lemma EvictStepKeeps(s: Snapshot, t: Snapshot, u: Snapshot, a: Evict.Action, pod: string, now: int, o: Evict.Outcome)
    requires ForeignKept(s, t, a.key) && EvictedAreTainted(s, t, a.key) && EvictStep(t, u, a, pod, now, o)
    ensures ForeignKept(s, u, a.key) && EvictedAreTainted(s, u, a.key) && HostsKept(t, u)
  {
    hide Evict.Foreign, Evict.HasOwn, Evict.NodesAfter;
    EvictStepNodes(t, u, a, pod, now, o);
    forall p | p in u.evicted && p !in s.evicted ensures TaintedHost(u, p, a.key) {
      if !(o.Evicted? && p == pod) {
        assert TaintedHost(t, p, a.key);
      }
    }
  }

  lemma ResizeKeeps(s: Snapshot, t: Snapshot, u: Snapshot, key: string)
    requires ForeignKept(s, t, key) && EvictedAreTainted(s, t, key)
    requires u == t.(pods := u.pods) && HostsKept(t, u)
    ensures ForeignKept(s, u, key) && EvictedAreTainted(s, u, key)
  {
    hide Evict.Foreign, Evict.HasOwn;
    forall p | p in u.evicted && p !in s.evicted ensures TaintedHost(u, p, key) {
      assert TaintedHost(t, p, key);
    }
  }

  lemma TaintStep(a: Remediation, s: Snapshot, t: Snapshot, u: Snapshot, pod: string, now: int, o: Outcome)
    requires Eviction(a).Some? && Acted(a, t, u, pod, now, o)
    requires var key := Eviction(a).value.key; ForeignKept(s, t, key) && EvictedAreTainted(s, t, key)
    ensures var key := Eviction(a).value.key; ForeignKept(s, u, key) && EvictedAreTainted(s, u, key)
  {
    hide ForeignKept, EvictedAreTainted, EvictStep, Scale.AnyBelow, Scale.ScaleAll;
    var e := Eviction(a).value;
    if a.EvictPods? {
      EvictStepKeeps(s, t, u, e, pod, now, o.e);
    } else if o.s.FellBack? {
      EvictStepKeeps(s, t, u, e, pod, now, o.s.result);
    } else {
      ResizeKeeps(s, t, u, e.key);
    }
  }

  /** Over a run of evictions, or of scalings that may fall back to them: foreign taints never change,
      and no pod is evicted without its node being tainted, then and at the end. */
  lemma {:induction false} RunTaints(a: Remediation, r: Run, k: nat)
    requires Chain(a, r) && Eviction(a).Some? && k < |r.states|
    ensures ForeignKept(r.states[0], r.states[k], Eviction(a).value.key)
    ensures EvictedAreTainted(r.states[0], r.states[k], Eviction(a).value.key)
  {
    if k > 0 {
      RunTaints(a, r, k - 1);
      hide Acted, ForeignKept, EvictedAreTainted;
      assert ActedAt(a, r, k - 1);
      TaintStep(a, r.states[0], r.states[k - 1], r.states[k], r.pods[k - 1], r.times[k - 1], r.outcomes[k - 1]);
    }
  }

  // ----- Scaling

  ghost predicate PodsSafe(s: Snapshot, t: Snapshot) {
    && t.pods.Keys == s.pods.Keys
    && forall p :: p in s.pods ==> PodSafe(s.pods[p], t.pods[p])
  }

  predicate PodSafe(p: Pod, q: Pod) {
    && q == p.(containers := q.containers) && |q.containers| == |p.containers|
    && forall i :: 0 <= i < |p.containers| ==> Scale.SafeChange(p.containers[i], q.containers[i])
  }

  /** Whichever pod has been evicted since `s` has no container below the maximum. */
  ghost predicate EvictedAreDone(s: Snapshot, t: Snapshot, max: I64) {
    forall p :: p in t.evicted && p !in s.evicted ==> p in t.pods && !Scale.AnyBelow(t.pods[p].containers, max)
  }

  /** No step of any container on its way to the maximum overflows. */
  ghost predicate PodsClimb(s: Snapshot, max: I64, percent: I32) {
    forall p :: p in s.pods ==> Scale.AllClimb(s.pods[p].containers, max, percent)
  }

  lemma ResizeIsSafe(p: Pod, q: Pod, max: I64, percent: I32)
    requires PodSafe(p, q) && Scale.AllClimb(q.containers, max, percent)
    ensures PodSafe(p, Scale.Resize(q, max, percent))
    ensures Scale.AllClimb(Scale.Resize(q, max, percent).containers, max, percent)
  {
    Scale.ScaleAllClimbs(q.containers, max, percent);
    hide Scale.SafeChange, Scale.Scaled, Scale.ContainerClimbs;
    var r := Scale.Resize(q, max, percent);
    forall i | 0 <= i < |p.containers| ensures Scale.SafeChange(p.containers[i], r.containers[i]) {
      Scale.ScaledClimbs(q.containers[i], max, percent);
      Scale.ScaledIsSafe(q.containers[i], max, percent);
      Scale.SafeCompose(p.containers[i], q.containers[i], r.containers[i]);
    }
  }

  lemma ScaleStepKeeps(s: Snapshot, t: Snapshot, u: Snapshot, a: Scale.Action, pod: string, now: int, o: Scale.Outcome)
    requires a.max.Some? && PodsClimb(t, a.max.value, a.percent) && ScaleStep(t, u, a, pod, now, o)
    requires PodsSafe(s, t) && EvictedAreDone(s, t, a.max.value)
    ensures PodsSafe(s, u) && EvictedAreDone(s, u, a.max.value) && PodsClimb(u, a.max.value, a.percent)
  {
    hide PodSafe, Scale.AnyBelow, Scale.Resize, Scale.AllClimb, Evict.NodesAfter;
    if o.Resized? {
      ResizeIsSafe(s.pods[pod], t.pods[pod], a.max.value, a.percent);
    }
  }

  lemma SafeItself(p: Pod)
    ensures PodSafe(p, p)
  {
  }

  /** Over a run whose ladders do not overflow: a pod changes only by CPU limits, which never drop and
      keep covering the requests, and it is evicted only when none of its containers can be raised. */
  lemma {:induction false} RunScales(a: Scale.Action, r: Run, k: nat)
    requires Chain(ScalePods(a), r) && k < |r.states|
    requires a.max.Some? && PodsClimb(r.states[0], a.max.value, a.percent)
    ensures PodsSafe(r.states[0], r.states[k]) && EvictedAreDone(r.states[0], r.states[k], a.max.value)
    ensures PodsClimb(r.states[k], a.max.value, a.percent)
  {
    if k == 0 {
      forall p | p in r.states[0].pods ensures PodSafe(r.states[0].pods[p], r.states[0].pods[p]) {
        SafeItself(r.states[0].pods[p]);
      }
    } else {
      RunScales(a, r, k - 1);
      hide ScaleStep, PodsSafe, EvictedAreDone, PodsClimb;
      assert ActedAt(ScalePods(a), r, k - 1);
      ScaleStepKeeps(r.states[0], r.states[k - 1], r.states[k], a, r.pods[k - 1], r.times[k - 1], r.outcomes[k - 1].s);
    }
  }

  /** Calls on one pod that do not fail on the way to the decision. */
  ghost predicate Ladder(a: Scale.Action, r: Run, pod: string) {
    && Chain(ScalePods(a), r) && a.max.Some? && a.fallback.Some? && pod in r.states[0].pods
    && forall i :: 0 <= i < |r.pods| ==> r.pods[i] == pod && Decided(r.outcomes[i])
  }

  predicate Decided(o: Outcome) {
    o.Scaling? && (o.s.Resized? || o.s.FellBack?)
  }

  lemma LadderStep(a: Scale.Action, s: Snapshot, t: Snapshot, pod: string, now: int, o: Outcome)
    requires Acted(ScalePods(a), s, t, pod, now, o) && Decided(o)
    requires a.max.Some?
    ensures pod in s.pods && pod in t.pods
    ensures o.s.Resized? <==> Scale.AnyBelow(s.pods[pod].containers, a.max.value)
    ensures o.s.Resized? ==> t.pods[pod].containers == Scale.ScaleAll(s.pods[pod].containers, a.max.value, a.percent)
    ensures o.s.FellBack? ==> t.pods == s.pods
  {
    hide Evict.NodesAfter, Scale.AnyBelow, Scale.ScaleAll;
  }

  lemma {:induction false} LadderContainers(a: Scale.Action, r: Run, pod: string, k: nat)
    requires Ladder(a, r, pod) && k < |r.states|
    ensures pod in r.states[k].pods
    ensures var cs := r.states[0].pods[pod].containers;
      r.states[k].pods[pod].containers == Scale.After(cs, k, a.max.value, a.percent)
  {
    if k > 0 {
      LadderContainers(a, r, pod, k - 1);
      hide Acted, Scale.ScaleAll, Scale.AnyBelow;
      assert ActedAt(ScalePods(a), r, k - 1) && Decided(r.outcomes[k - 1]);
      LadderStep(a, r.states[k - 1], r.states[k], pod, r.times[k - 1], r.outcomes[k - 1]);
      NothingBelow(r.states[k - 1].pods[pod].containers, a.max.value, a.percent);
    }
  }

  lemma NothingBelow(cs: seq<Container>, max: I64, percent: I32)
    ensures !Scale.AnyBelow(cs, max) ==> Scale.ScaleAll(cs, max, percent) == cs
  {
  }

  /** The ladder: call number `k` resizes as long as the slowest container needs it, and falls back
      from then on. */
  lemma LadderThenFallback(a: Scale.Action, r: Run, pod: string, k: nat)
    requires Ladder(a, r, pod) && k < |r.pods|
    requires Scale.AllClimb(r.states[0].pods[pod].containers, a.max.value, a.percent)
    ensures var n := Scale.AllNeeded(r.states[0].pods[pod].containers, a.max.value, a.percent);
      r.outcomes[k].s.Resized? <==> k < n
  {
    LadderContainers(a, r, pod, k);
    Scale.FallbackExactlyWhenDone(r.states[0].pods[pod].containers, k, a.max.value, a.percent);
    hide Acted;
    assert ActedAt(ScalePods(a), r, k) && Decided(r.outcomes[k]);
    LadderStep(a, r.states[k], r.states[k + 1], pod, r.times[k], r.outcomes[k]);
  }
}
