/** Choosing an action from a policy and applying it to every saturated pod
    (operator/internal/controller/ioremediationpolicy_controller.go). */
module Controller {
  import opened Words
  import opened Cluster
  import Evict = EvictAndTaint
  import Scale = ScaleUp
  import Migrate = MigrateStorage

  const TAINT_KEY := "autoremediation.tfg.local/saturation"

  datatype ScaleConfig = ScaleConfig(percent: I32, maxLimit: string)

  datatype Spec = Spec(
    action: string, taintDuration: Option<int>, migrateTarget: Option<string>, scaleUp: Option<ScaleConfig>)

  datatype Remediation =
    | EvictPods(evict: Evict.Action)
    | MigrateVolumes(target: string)
    | ScalePods(scale: Scale.Action)

  /** `parse` reads a CPU quantity as millicores. A ScaleUp policy always gets a positive step and an
      eviction to fall back on; any other action than the three is refused. */
  function BuildAction(spec: Spec, parse: string -> Option<I64>): (r: Option<Remediation>)
    ensures r.None? <==> spec.action !in {"EvictAndTaint", "MigrateStorageClass", "ScaleUp"}
    ensures spec.action == "EvictAndTaint" ==>
      r == Some(EvictPods(Evict.Action("autoremediation.tfg.local/saturation", spec.taintDuration)))
    ensures spec.action == "MigrateStorageClass" ==> r.Some? && r.value.MigrateVolumes?
    ensures r.Some? && r.value.MigrateVolumes? ==>
      && (spec.migrateTarget.Some? ==> r.value.target == spec.migrateTarget.value)
      && (spec.migrateTarget.None? ==> r.value.target == "")
    ensures spec.action == "ScaleUp" ==> r.Some? && r.value.ScalePods?
    ensures r.Some? && r.value.ScalePods? ==>
      var a := r.value.scale;
      && a.percent > 0 && a.fallback == Some(Evict.Action("autoremediation.tfg.local/saturation", spec.taintDuration))
      && (spec.scaleUp.Some? && spec.scaleUp.value.percent > 0 ==> a.percent == spec.scaleUp.value.percent)
      && (spec.scaleUp.None? || spec.scaleUp.value.percent <= 0 ==> a.percent == 20)
      && (spec.scaleUp.Some? && spec.scaleUp.value.maxLimit != "" ==> a.max == parse(spec.scaleUp.value.maxLimit))
      && (spec.scaleUp.None? || spec.scaleUp.value.maxLimit == "" ==> a.max == parse("2000m"))
  {
    var evict := Evict.Action(TAINT_KEY, spec.taintDuration);
    if spec.action == "EvictAndTaint" then Some(EvictPods(evict))
    else if spec.action == "MigrateStorageClass" then
      Some(MigrateVolumes(if spec.migrateTarget.Some? then spec.migrateTarget.value else ""))
    else if spec.action == "ScaleUp" then
      var percent := if spec.scaleUp.Some? && spec.scaleUp.value.percent > 0 then spec.scaleUp.value.percent else 20;
      var limit := if spec.scaleUp.Some? && spec.scaleUp.value.maxLimit != "" then spec.scaleUp.value.maxLimit else "2000m";
      Some(ScalePods(Scale.Action(percent, parse(limit), Some(evict))))
    else None
  }

  // ----- One action on one pod

  datatype Outcome = Evicting(e: Evict.Outcome) | Migrating(m: Migrate.Outcome) | Scaling(s: Scale.Outcome)

  predicate Succeeded(o: Outcome) {
    o == Evicting(Evict.Evicted) || o == Migrating(Migrate.Migrated)
    || o == Scaling(Scale.Resized) || o == Scaling(Scale.FellBack(Evict.Evicted))
  }

  ghost predicate EvictStep(s: Snapshot, t: Snapshot, a: Evict.Action, pod: string, now: int, o: Evict.Outcome) {
    && (o.Evicted? || o.EvictFailed? ==> pod in s.pods && s.pods[pod].nodeName in s.nodes)
    && t == s.(nodes := Evict.NodesAfter(s.nodes, s.pods, a, pod, now, o),
               evicted := if o.Evicted? then s.evicted + {pod} else s.evicted)
  }

  ghost predicate ScaleStep(s: Snapshot, t: Snapshot, a: Scale.Action, pod: string, now: int, o: Scale.Outcome) {
    match o
    case Resized =>
      && a.max.Some? && pod in s.pods && Scale.AnyBelow(s.pods[pod].containers, a.max.value)
      && t == s.(pods := s.pods[pod := Scale.Resize(s.pods[pod], a.max.value, a.percent)])
    case FellBack(e) =>
      && a.max.Some? && pod in s.pods && !Scale.AnyBelow(s.pods[pod].containers, a.max.value)
      && a.fallback.Some? && EvictStep(s, t, a.fallback.value, pod, now, e)
    case NoFallback => a.fallback.None? && t == s
    case NoChanges => false
    case _ => t == s
  }

  ghost predicate Acted(a: Remediation, s: Snapshot, t: Snapshot, pod: string, now: int, o: Outcome) {
    match a
    case EvictPods(e) => o.Evicting? && EvictStep(s, t, e, pod, now, o.e)
    case MigrateVolumes(target) => o.Migrating? && Migrate.Migration(s, t, target, pod, now, o.m.Migrated?)
    case ScalePods(c) => o.Scaling? && ScaleStep(s, t, c, pod, now, o.s)
  }

  method Execute(store: Store, a: Remediation, pod: string, now: int, reliable: bool) returns (o: Outcome)
    modifies store
    ensures Acted(a, old(store.Contents()), store.Contents(), pod, now, o)
  {
    match a {
      case EvictPods(e) =>
        var r := Evict.Execute(store, e, pod, now, reliable);
        return Evicting(r);
      case MigrateVolumes(target) =>
        var r := Migrate.Execute(store, target, pod, now, reliable);
        return Migrating(r);
      case ScalePods(c) =>
        var r := Scale.Execute(store, c, pod, now, reliable);
        return Scaling(r);
    }
  }

  // ----- The loop over saturated pods

  /** A run: one snapshot before each call and one at the end. */
  datatype Run = Run(states: seq<Snapshot>, pods: seq<string>, times: seq<int>, outcomes: seq<Outcome>)

  ghost predicate Chain(a: Remediation, r: Run) {
    && |r.states| == |r.pods| + 1 && |r.times| == |r.pods| == |r.outcomes|
    && forall i :: 0 <= i < |r.pods| ==> ActedAt(a, r, i)
  }

  ghost predicate ActedAt(a: Remediation, r: Run, i: nat)
    requires |r.states| == |r.pods| + 1 && |r.times| == |r.pods| == |r.outcomes|
    requires i < |r.pods|
  {
    Acted(a, r.states[i], r.states[i + 1], r.pods[i], r.times[i], r.outcomes[i])
  }

  function Failures(os: seq<Outcome>): nat {
    if os == [] then 0 else Failures(Front(os)) + if Succeeded(Last(os)) then 0 else 1
  }

  lemma {:induction false} FailuresZeroIff(os: seq<Outcome>)
    ensures Failures(os) <= |os|
    ensures Failures(os) == 0 <==> forall i :: 0 <= i < |os| ==> Succeeded(os[i])
  {
    if os != [] {
      var h := Front(os);
      FailuresZeroIff(h);
      assert Last(os) == os[|os| - 1];
      assert forall i :: 0 <= i < |h| ==> h[i] == os[i];
    }
  }

  datatype Condition =
    | EvaluationFailed | InvalidAction | NoSaturation | Remediating(count: nat) | PartialFailure(failed: nat, total: nat)

  method RemediatePods(store: Store, a: Remediation, pods: seq<string>, times: seq<int>, reliable: bool)
    returns (failures: nat, ghost run: Run)
    requires |times| == |pods|
    modifies store
    ensures Chain(a, run) && run.pods == pods && run.times == times
    ensures run.states[0] == old(store.Contents()) && run.states[|pods|] == store.Contents()
    ensures failures == Failures(run.outcomes)
  {
    hide Acted;
    failures := 0;
    run := Run([store.Contents()], [], [], []);
    for i := 0 to |pods|
      invariant Chain(a, run) && run.pods == pods[..i] && run.times == times[..i]
      invariant run.states[0] == old(store.Contents()) && run.states[i] == store.Contents()
      invariant failures == Failures(run.outcomes)
    {
      var o := Execute(store, a, pods[i], times[i], reliable);
      if !Succeeded(o) {
        failures := failures + 1;
      }
      assert Front(run.outcomes + [o]) == run.outcomes;
      Extend(a, run, store.Contents(), pods[i], times[i], o);
      run := Run(run.states + [store.Contents()], run.pods + [pods[i]], run.times + [times[i]], run.outcomes + [o]);
    }
  }

  lemma Extend(a: Remediation, r: Run, t: Snapshot, pod: string, now: int, o: Outcome)
    requires Chain(a, r) && Acted(a, Last(r.states), t, pod, now, o)
    ensures Chain(a, Run(r.states + [t], r.pods + [pod], r.times + [now], r.outcomes + [o]))
  {
    hide Acted;
    var q := Run(r.states + [t], r.pods + [pod], r.times + [now], r.outcomes + [o]);
    forall i | 0 <= i < |q.pods| ensures ActedAt(a, q, i) {
      if i < |r.pods| {
        assert ActedAt(a, r, i);
      }
    }
  }

  /** Reconcile from the evaluator's answer on; None is a failed evaluation. */
  method Reconcile(
    store: Store, spec: Spec, parse: string -> Option<I64>, saturated: Option<seq<string>>, times: seq<int>, reliable: bool)
    returns (c: Condition, ghost run: Run)
    requires saturated.Some? ==> |times| == |saturated.value|
    modifies store
    ensures c.EvaluationFailed? <==> saturated.None?
    ensures c.InvalidAction? <==> saturated.Some? && BuildAction(spec, parse).None?
    ensures c.EvaluationFailed? || c.InvalidAction? || c.NoSaturation? ==> store.Contents() == old(store.Contents())
    ensures !c.EvaluationFailed? && !c.InvalidAction? ==>
      && Chain(BuildAction(spec, parse).value, run) && run.pods == saturated.value
      && run.states[0] == old(store.Contents()) && run.states[|run.pods|] == store.Contents()
      && (c.NoSaturation? <==> run.pods == [])
      && (c.Remediating? <==> run.pods != [] && forall i :: 0 <= i < |run.outcomes| ==> Succeeded(run.outcomes[i]))
      && (c.Remediating? ==> c.count == |run.pods|)
      && (c.PartialFailure? ==> c.failed == Failures(run.outcomes) && c.total == |run.pods|)
  {
    hide Acted;
    run := Run([], [], [], []);
    if saturated.None? {
      return EvaluationFailed, run;
    }
    var action := BuildAction(spec, parse);
    if action.None? {
      return InvalidAction, run;
    }
    var failures;
    failures, run := RemediatePods(store, action.value, saturated.value, times, reliable);
    FailuresZeroIff(run.outcomes);
    if |saturated.value| == 0 {
      c := NoSaturation;
    } else if failures == 0 {
      c := Remediating(|saturated.value|);
    } else {
      c := PartialFailure(failures, |saturated.value|);
    }
  }

  /** The exit for a missing fallback cannot be taken under a built action. */
  lemma FallbackIsWired(spec: Spec, parse: string -> Option<I64>, r: Run, i: nat)
    requires BuildAction(spec, parse).Some? && Chain(BuildAction(spec, parse).value, r) && i < |r.pods|
    ensures r.outcomes[i] != Scaling(Scale.NoFallback) && r.outcomes[i] != Scaling(Scale.NoChanges)
  {
    assert ActedAt(BuildAction(spec, parse).value, r, i);
  }
}
