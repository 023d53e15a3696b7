/** Tainting a node and evicting a pod (operator/pkg/action/evict_and_taint.go). */
module EvictAndTaint {
  import opened Words
  import opened Cluster

  datatype Action = Action(key: string, duration: Option<int>)

  // ----- The taint list a call computes

  predicate Own(t: Taint, key: string) {
    t.key == key
  }

  /** An own taint whose age has reached the duration. */
  predicate Expired(t: Taint, a: Action, now: int) {
    Own(t, a.key) && a.duration.Some? && t.timeAdded.Some? && now - t.timeAdded.value >= a.duration.value
  }

  predicate HasOwn(ts: seq<Taint>, key: string) {
    exists i :: 0 <= i < |ts| && Own(ts[i], key)
  }

  function Prune(ts: seq<Taint>, a: Action, now: int): seq<Taint> {
    if ts == [] then []
    else if Expired(Last(ts), a, now) then Prune(Front(ts), a, now)
    else Prune(Front(ts), a, now) + [Last(ts)]
  }

  function NewTaint(a: Action, now: int): Taint {
    Taint(a.key, "true", NoSchedule, Some(now))
  }

  function Computed(ts: seq<Taint>, a: Action, now: int): seq<Taint> {
    var kept := Prune(ts, a, now);
    if HasOwn(kept, a.key) then kept else kept + [NewTaint(a, now)]
  }

  /** equalTaints: the same keys, values and effects, whatever the times. */
  predicate SameButTime(x: seq<Taint>, y: seq<Taint>) {
    |x| == |y| &&
    forall i :: 0 <= i < |x| ==> x[i].key == y[i].key && x[i].value == y[i].value && x[i].effect == y[i].effect
  }

  /** What the node holds after a successful call: a list equal but for its times is not patched. */
  function Stored(ts: seq<Taint>, a: Action, now: int): seq<Taint> {
    if SameButTime(ts, Computed(ts, a, now)) then ts else Computed(ts, a, now)
  }

  // ----- The loops

  lemma PruneStep(ts: seq<Taint>, i: nat, a: Action, now: int)
    requires i < |ts|
    ensures Prune(ts[..i + 1], a, now)
         == if Expired(ts[i], a, now) then Prune(ts[..i], a, now) else Prune(ts[..i], a, now) + [ts[i]]
  {
    assert Front(ts[..i + 1]) == ts[..i] && Last(ts[..i + 1]) == ts[i];
  }

  lemma HasOwnPush(ts: seq<Taint>, t: Taint, key: string)
    ensures HasOwn(ts + [t], key) <==> HasOwn(ts, key) || Own(t, key)
  {
    if HasOwn(ts, key) {
      var i :| 0 <= i < |ts| && Own(ts[i], key);
      assert (ts + [t])[i] == ts[i];
    }
    assert (ts + [t])[|ts|] == t;
  }

  /** The loop reads and writes one array: what it keeps is written into the prefix it has read. */
  method PruneInPlace(taints: array<Taint>, a: Action, now: int) returns (kept: nat, present: bool)
    modifies taints
    ensures kept <= taints.Length && taints[..kept] == Prune(old(taints[..]), a, now)
    ensures present == HasOwn(Prune(old(taints[..]), a, now), a.key)
  {
    kept, present := 0, false;
    ghost var was := taints[..];
    for i := 0 to taints.Length
      invariant kept <= i && taints[i..] == was[i..]
      invariant taints[..kept] == Prune(was[..i], a, now)
      invariant present == HasOwn(Prune(was[..i], a, now), a.key)
    {
      var t := taints[i];
      assert t == taints[i..][0] == was[i];
      ghost var before := Prune(was[..i], a, now);
      PruneStep(was, i, a, now);
      if !Expired(t, a, now) {
        HasOwnPush(before, t, a.key);
        if Own(t, a.key) {
          present := true;
        }
        WriteKept(taints, kept, i, t);
        kept := kept + 1;
      } else {
        assert taints[i + 1..] == taints[i..][1..];
      }
      assert was[i + 1..] == was[i..][1..];
    }
    assert was[..|was|] == was;
  }

  /** Writing at or before the position just read leaves everything still to read. */
  method WriteKept(taints: array<Taint>, kept: nat, i: nat, t: Taint)
    requires kept <= i < taints.Length
    modifies taints
    ensures taints[..kept + 1] == old(taints[..kept]) + [t]
    ensures taints[i + 1..] == old(taints[i..])[1..]
  {
    taints[kept] := t;
  }

  /** append: in place while the array has room, into a new array otherwise. */
  method Append(taints: array<Taint>, kept: nat, t: Taint) returns (out: array<Taint>, n: nat)
    requires kept <= taints.Length
    modifies taints
    ensures n <= out.Length && out[..n] == old(taints[..kept]) + [t]
  {
    n := kept + 1;
    if kept < taints.Length {
      taints[kept] := t;
      out := taints;
    } else {
      var prefix := taints[..kept];
      out := new Taint[n](i => if 0 <= i < |prefix| then prefix[i] else t);
    }
  }

  method EqualTaints(x: seq<Taint>, y: seq<Taint>) returns (same: bool)
    ensures same == SameButTime(x, y)
  {
    if |x| != |y| {
      return false;
    }
    for i := 0 to |x|
      invariant SameButTime(x[..i], y[..i])
    {
      if x[i].key != y[i].key || x[i].value != y[i].value || x[i].effect != y[i].effect {
        return false;
      }
    }
    assert x[..|x|] == x && y[..|y|] == y;
    return true;
  }

  method ComputeTaints(ts: seq<Taint>, a: Action, now: int) returns (out: seq<Taint>)
    ensures out == Computed(ts, a, now)
  {
    var taints := new Taint[|ts|](i requires 0 <= i < |ts| => ts[i]);
    assert taints[..] == ts;
    var kept, present := PruneInPlace(taints, a, now);
    if present {
      return taints[..kept];
    }
    var longer, n := Append(taints, kept, NewTaint(a, now));
    return longer[..n];
  }

  datatype Outcome = GetFailed | NotScheduled | PatchFailed | EvictFailed | Evicted

  /** The nodes after a call with outcome `o`: only one that got as far as evicting has tainted. */
  function NodesAfter(nodes: map<string, Node>, pods: map<string, Pod>, a: Action, pod: string, now: int, o: Outcome): map<string, Node> {
    if (o.EvictFailed? || o.Evicted?) && pod in pods && pods[pod].nodeName in nodes
    then nodes[pods[pod].nodeName := Node(Stored(nodes[pods[pod].nodeName].taints, a, now))]
    else nodes
  }

  /** Every call of the API may fail, and then has no effect; `reliable` rules that out. A pod is
      evicted only after its node carries the taint. */
  method Execute(store: Store, a: Action, pod: string, now: int, reliable: bool) returns (o: Outcome)
    modifies store`nodes, store`evicted
    ensures o.EvictFailed? || o.Evicted? ==> pod in store.pods && store.pods[pod].nodeName in old(store.nodes)
    ensures store.nodes == NodesAfter(old(store.nodes), store.pods, a, pod, now, o)
    ensures store.evicted == if o.Evicted? then old(store.evicted) + {pod} else old(store.evicted)
    ensures o.NotScheduled? ==> pod in store.pods && store.pods[pod].nodeName == ""
    ensures reliable && pod in store.pods && store.pods[pod].nodeName != "" && store.pods[pod].nodeName in old(store.nodes) ==>
      o.Evicted?
  {
    var ok: bool := *;
    if !(ok || reliable) || pod !in store.pods {
      return GetFailed;
    }
    var node := store.pods[pod].nodeName;
    if node == "" {
      return NotScheduled;
    }
    ok := *;
    if !(ok || reliable) || node !in store.nodes {
      return GetFailed;
    }
    var original := store.nodes[node].taints;
    var taints := ComputeTaints(original, a, now);
    var same := EqualTaints(original, taints);
    if !same {
      ok := *;
      if !(ok || reliable) {
        return PatchFailed;
      }
      store.nodes := store.nodes[node := Node(taints)];
    } else {
      assert store.nodes[node := Node(original)] == store.nodes;
    }
    ok := *;
    if !(ok || reliable) {
      return EvictFailed;
    }
    store.evicted := store.evicted + {pod};
    return Evicted;
  }

  // ----- What the lists hold

  function Foreign(ts: seq<Taint>, key: string): seq<Taint> {
    if ts == [] then []
    else if Own(Last(ts), key) then Foreign(Front(ts), key)
    else Foreign(Front(ts), key) + [Last(ts)]
  }

  lemma ForeignPush(ts: seq<Taint>, t: Taint, key: string)
    ensures Foreign(ts + [t], key) == if Own(t, key) then Foreign(ts, key) else Foreign(ts, key) + [t]
  {
    assert Front(ts + [t]) == ts;
  }

  /** Pruning keeps exactly the live taints, foreign ones included, in their order. */
  lemma {:induction false} PruneKeeps(ts: seq<Taint>, a: Action, now: int)
    ensures Foreign(Prune(ts, a, now), a.key) == Foreign(ts, a.key)
    ensures forall i :: 0 <= i < |Prune(ts, a, now)| ==> !Expired(Prune(ts, a, now)[i], a, now)
    ensures |Prune(ts, a, now)| <= |ts|
  {
    if ts != [] {
      PruneKeeps(Front(ts), a, now);
      ForeignPush(Prune(Front(ts), a, now), Last(ts), a.key);
    }
  }

  /** In plain arithmetic: pruning removes the taints of the key whose time is known and lies a full
      duration back, each of them, and keeps every other as often as it was there. */
  lemma {:induction false} PruneRemoves(ts: seq<Taint>, a: Action, now: int, t: Taint)
    ensures var gone := t.key == a.key && a.duration.Some? && t.timeAdded.Some?
        && now >= t.timeAdded.value + a.duration.value;
      multiset(Prune(ts, a, now))[t] == if gone then 0 else multiset(ts)[t]
  {
    if ts != [] {
      var h := Front(ts);
      PruneRemoves(h, a, now, t);
      assert ts == h + [Last(ts)];
      assert multiset(ts) == multiset(h) + multiset{Last(ts)};
      assert multiset(Prune(h, a, now) + [Last(ts)]) == multiset(Prune(h, a, now)) + multiset{Last(ts)};
    }
  }

  /** The computed list keeps foreign taints in order, holds an own taint, and no own taint that had
      expired on entry: the one new taint apart, none is expired. */
  lemma ComputedIsSound(ts: seq<Taint>, a: Action, now: int)
    ensures var c := Computed(ts, a, now);
      && Foreign(c, a.key) == Foreign(ts, a.key)
      && HasOwn(c, a.key)
      && forall i :: 0 <= i < |c| ==> Expired(c[i], a, now) ==> c[i] == NewTaint(a, now)
  {
    hide Prune, Foreign, HasOwn;
    PruneKeeps(ts, a, now);
    var kept := Prune(ts, a, now);
    ForeignPush(kept, NewTaint(a, now), a.key);
    HasOwnPush(kept, NewTaint(a, now), a.key);
  }

  /** After a successful call the node agrees with the computed list, times aside, position by
      position; in particular it is tainted, and its foreign taints are untouched. */
  lemma StoredIsSound(ts: seq<Taint>, a: Action, now: int)
    ensures var s := Stored(ts, a, now);
      && SameButTime(s, Computed(ts, a, now))
      && HasOwn(s, a.key)
      && Foreign(s, a.key) == Foreign(ts, a.key)
  {
    ComputedIsSound(ts, a, now);
    var c := Computed(ts, a, now);
    var i :| 0 <= i < |c| && Own(c[i], a.key);
    assert Own(Stored(ts, a, now)[i], a.key);
  }

  // ----- A taint that is never refreshed

  lemma {:induction false} PruneLength(ts: seq<Taint>, a: Action, now: int)
    ensures (forall i :: 0 <= i < |ts| ==> !Expired(ts[i], a, now)) ==> Prune(ts, a, now) == ts
    ensures (exists i :: 0 <= i < |ts| && Expired(ts[i], a, now)) ==> |Prune(ts, a, now)| < |ts|
  {
    if ts != [] {
      var h := Front(ts);
      PruneLength(h, a, now);
      PruneKeeps(h, a, now);
      assert ts == h + [Last(ts)] && Last(ts) == ts[|ts| - 1];
      assert forall i :: 0 <= i < |h| ==> h[i] == ts[i];
    }
  }

  /** The only own taint stands last, is expired, and equals a fresh one but for its time. */
  predicate LastIsStale(ts: seq<Taint>, a: Action, now: int) {
    && ts != [] && Expired(Last(ts), a, now)
    && Last(ts).value == "true" && Last(ts).effect == NoSchedule
    && !HasOwn(Front(ts), a.key)
  }

  lemma PrunesToFront(ts: seq<Taint>, a: Action, now: int)
    requires LastIsStale(ts, a, now)
    ensures Prune(ts, a, now) == Front(ts) == Prune(Front(ts), a, now)
  {
    var h := Front(ts);
    assert forall i :: 0 <= i < |h| ==> !Own(h[i], a.key);
    PruneLength(h, a, now);
  }

  lemma StaleStays(ts: seq<Taint>, a: Action, now: int)
    requires LastIsStale(ts, a, now)
    ensures Stored(ts, a, now) == ts
  {
    hide Prune, HasOwn, SameButTime;
    PrunesToFront(ts, a, now);
    assert ts == Front(ts) + [Last(ts)];
    SameButLast(Front(ts), Last(ts), NewTaint(a, now));
  }

  lemma SameButLast(h: seq<Taint>, x: Taint, y: Taint)
    requires x.key == y.key && x.value == y.value && x.effect == y.effect
    ensures SameButTime(h + [x], h + [y])
  {
  }

  lemma LeftoverIsLast(ts: seq<Taint>, a: Action, now: int, k: nat)
    requires k < |ts| && Expired(ts[k], a, now) && SameButTime(ts, Computed(ts, a, now))
    ensures LastIsStale(ts, a, now)
  {
    var h, kept := Front(ts), Prune(ts, a, now);
    PruneLength(ts, a, now);
    assert Computed(ts, a, now) == kept + [NewTaint(a, now)] && |kept| == |h|;
    assert Last(ts) == ts[|ts| - 1] && Own(Last(ts), a.key);
    HasOwnPush(Prune(h, a, now), Last(ts), a.key);
    assert Expired(Last(ts), a, now);
    PruneLength(h, a, now);
    assert kept == Prune(h, a, now) == h;
  }

  /** A duration of zero or less: a taint expires as it is added. */
  predicate ExpiresAtOnce(a: Action) {
    a.duration.Some? && a.duration.value <= 0
  }

  /** The promise that no expired taint is left fails exactly when the only own taint is last and looks
      like a fresh one, or when a taint is added that expires at once. */
  lemma ExpiredTaintStaysIff(ts: seq<Taint>, a: Action, now: int)
    ensures (exists i :: 0 <= i < |Stored(ts, a, now)| && Expired(Stored(ts, a, now)[i], a, now))
      <==> LastIsStale(ts, a, now) || (ExpiresAtOnce(a) && !HasOwn(Prune(ts, a, now), a.key))
  {
    if LastIsStale(ts, a, now) {
      StaleStays(ts, a, now);
      assert Expired(ts[|ts| - 1], a, now);
    } else if ExpiresAtOnce(a) && !HasOwn(Prune(ts, a, now), a.key) {
      AddedIsExpired(ts, a, now);
    }
    if k :| 0 <= k < |Stored(ts, a, now)| && Expired(Stored(ts, a, now)[k], a, now) {
      LeftoverHasCause(ts, a, now, k);
    }
  }

  lemma AddedIsExpired(ts: seq<Taint>, a: Action, now: int)
    requires ExpiresAtOnce(a) && !HasOwn(Prune(ts, a, now), a.key)
    ensures exists i :: 0 <= i < |Stored(ts, a, now)| && Expired(Stored(ts, a, now)[i], a, now)
  {
    var c := Computed(ts, a, now);
    PruneLength(ts, a, now);
    if SameButTime(ts, c) {
      var i :| 0 <= i < |ts| && Expired(ts[i], a, now);
      assert Stored(ts, a, now)[i] == ts[i];
    } else {
      assert Stored(ts, a, now)[|c| - 1] == NewTaint(a, now);
    }
  }

  lemma LeftoverHasCause(ts: seq<Taint>, a: Action, now: int, k: nat)
    requires k < |Stored(ts, a, now)| && Expired(Stored(ts, a, now)[k], a, now)
    ensures LastIsStale(ts, a, now) || (ExpiresAtOnce(a) && !HasOwn(Prune(ts, a, now), a.key))
  {
    if SameButTime(ts, Computed(ts, a, now)) {
      LeftoverIsLast(ts, a, now, k);
    } else {
      PruneKeeps(ts, a, now);
    }
  }

  /** The node's list after successful calls at the given times. */
  function AfterCalls(ts: seq<Taint>, a: Action, times: seq<int>): seq<Taint> {
    if times == [] then ts else Stored(AfterCalls(ts, a, Front(times)), a, Last(times))
  }

  /** Such a taint is not refreshed by any number of later calls. */
  lemma {:induction false} NeverRefreshed(ts: seq<Taint>, a: Action, now: int, times: seq<int>)
    requires LastIsStale(ts, a, now) && forall i :: 0 <= i < |times| ==> now <= times[i]
    ensures AfterCalls(ts, a, times) == ts
  {
    if times != [] {
      assert Last(times) == times[|times| - 1];
      assert forall i :: 0 <= i < |Front(times)| ==> Front(times)[i] == times[i];
      NeverRefreshed(ts, a, now, Front(times));
      StaleStays(ts, a, Last(times));
    }
  }

  /** One concrete list: tainted at time 0 for a minute, still carrying that taint an hour later. */
  lemma StaleExample()
    ensures var a := Action("autoremediation.tfg.local/saturation", Some(60_000_000_000));
      var old_ := Taint(a.key, "true", NoSchedule, Some(0));
      Stored([old_], a, 3_600_000_000_000) == [old_] && Expired(old_, a, 3_600_000_000_000)
  {
    var a := Action("autoremediation.tfg.local/saturation", Some(60_000_000_000));
    var ts := [Taint(a.key, "true", NoSchedule, Some(0))];
    assert Front(ts) == [];
    StaleStays(ts, a, 3_600_000_000_000);
  }
}
