/** Moving a Deployment's volumes to another storage class (operator/pkg/action/migrate_storage.go). */
module MigrateStorage {
  import opened Words
  import opened Cluster

  // ----- Names of new claims

  function Digit(d: nat): char
    requires d < 10
  {
    "0123456789"[d]
  }

  /** %d for a natural number. */
  function Decimal(n: nat): string {
    if n < 10 then [Digit(n)] else Decimal(n / 10) + [Digit(n % 10)]
  }

  function DecimalInt(n: int): string {
    if n < 0 then "-" + Decimal(-n) else Decimal(n)
  }

  function NewName(old_: string, stamp: int, idx: nat): string {
    old_ + "-migrated-" + DecimalInt(stamp) + "-" + Decimal(idx)
  }

  lemma {:induction false} DecimalHasNoDash(n: nat)
    ensures forall i :: 0 <= i < |Decimal(n)| ==> Decimal(n)[i] != '-'
  {
    if n >= 10 {
      DecimalHasNoDash(n / 10);
    }
  }

  /** The number a string of digits denotes. */
  function Numeral(s: string): int {
    if s == [] then 0 else 10 * Numeral(Front(s)) + (Last(s) as int - '0' as int)
  }

  lemma {:induction false} DecimalRoundTrip(n: nat)
    ensures Numeral(Decimal(n)) == n
  {
    if n < 10 {
      assert Front(Decimal(n)) == [] && Last(Decimal(n)) == Digit(n);
    } else {
      DecimalRoundTrip(n / 10);
      assert Front(Decimal(n)) == Decimal(n / 10) && Last(Decimal(n)) == Digit(n % 10);
    }
  }

  /** What follows the last dash decides: two claims made in one run never share a name. */
  lemma NewNamesDiffer(x: string, y: string, stamp: int, i: nat, j: nat)
    requires i != j
    ensures NewName(x, stamp, i) != NewName(y, stamp, j)
  {
    var p, q := x + "-migrated-" + DecimalInt(stamp), y + "-migrated-" + DecimalInt(stamp);
    if p + "-" + Decimal(i) == q + "-" + Decimal(j) {
      SameTail(p, Decimal(i), q, Decimal(j), i, j);
    }
  }

  /** A dash further to the right on one side lies inside the other side's tail. */
  lemma DashesAlign(p: string, d: string, q: string, e: string)
    requires p + "-" + d == q + "-" + e
    ensures |p| < |q| ==> '-' in d
  {
    var s := p + "-" + d;
    assert s[|q|] == '-';
    if |p| < |q| {
      assert s[|q|] == d[|q| - |p| - 1];
    }
  }

  lemma SameTail(p: string, d: string, q: string, e: string, i: nat, j: nat)
    requires p + "-" + d == q + "-" + e && d == Decimal(i) && e == Decimal(j)
    ensures i == j
  {
    DashesAlign(p, d, q, e);
    DashesAlign(q, e, p, d);
    DecimalHasNoDash(i);
    DecimalHasNoDash(j);
    assert |p| == |q|;
    assert d == (p + "-" + d)[|p| + 1..] == e;
    DecimalRoundTrip(i);
    DecimalRoundTrip(j);
  }

  // ----- Read-only use

  /** The claim can only be read, by its own access modes. */
  predicate ReadOnlyClaim(pvc: Pvc) {
    && ReadOnlyMany in pvc.accessModes
    && ReadWriteOnce !in pvc.accessModes && ReadWriteMany !in pvc.accessModes && ReadWriteOncePod !in pvc.accessModes
  }

  predicate MountsAt(cs: seq<Container>, volume: string, i: nat, j: nat) {
    i < |cs| && j < |cs[i].mounts| && cs[i].mounts[j].name == volume
  }

  /** Some main container mounts the volume, and every one that does mounts it read-only. */
  predicate MountedReadOnly(cs: seq<Container>, volume: string) {
    && (exists i, j :: 0 <= i < |cs| && 0 <= j < |cs[i].mounts| && MountsAt(cs, volume, i, j))
    && (forall i, j :: 0 <= i < |cs| && 0 <= j < |cs[i].mounts| && MountsAt(cs, volume, i, j)
          ==> cs[i].mounts[j].readOnly)
  }

  predicate UsedReadOnly(pvc: Pvc, cs: seq<Container>, volume: string) {
    ReadOnlyClaim(pvc) || MountedReadOnly(cs, volume)
  }

  method ScanModes(modes: seq<AccessMode>) returns (writable: bool, readOnlyMany: bool)
    ensures writable <==> ReadWriteOnce in modes || ReadWriteMany in modes || ReadWriteOncePod in modes
    ensures readOnlyMany <==> ReadOnlyMany in modes
  {
    writable, readOnlyMany := false, false;
    for i := 0 to |modes|
      invariant writable <==> ReadWriteOnce in modes[..i] || ReadWriteMany in modes[..i] || ReadWriteOncePod in modes[..i]
      invariant readOnlyMany <==> ReadOnlyMany in modes[..i]
    {
      assert modes[..i + 1] == modes[..i] + [modes[i]];
      match modes[i] {
        case ReadWriteOnce => writable := true;
        case ReadWriteMany => writable := true;
        case ReadWriteOncePod => writable := true;
        case ReadOnlyMany => readOnlyMany := true;
        case OtherMode(_) =>
      }
    }
    assert modes[..|modes|] == modes;
  }

  /** pvcUsedReadOnly, with its early exit on the first writable mount. */
  method PvcUsedReadOnly(pvc: Pvc, cs: seq<Container>, volume: string) returns (safe: bool)
    ensures safe == UsedReadOnly(pvc, cs, volume)
  {
    var writable, readOnlyMany := ScanModes(pvc.accessModes);
    if readOnlyMany && !writable {
      return true;
    }
    safe := MountsReadOnly(cs, volume);
  }

  method MountsReadOnly(cs: seq<Container>, volume: string) returns (mounted: bool)
    ensures mounted == MountedReadOnly(cs, volume)
  {
    mounted := false;
    for i := 0 to |cs|
      invariant mounted <==> exists k, j :: 0 <= k < i && 0 <= j < |cs[k].mounts| && MountsAt(cs, volume, k, j)
      invariant forall k, j :: 0 <= k < i && 0 <= j < |cs[k].mounts| && MountsAt(cs, volume, k, j) ==> cs[k].mounts[j].readOnly
    {
      var before := mounted;
      for j := 0 to |cs[i].mounts|
        invariant mounted <==> before || exists m :: 0 <= m < j && MountsAt(cs, volume, i, m)
        invariant forall m :: 0 <= m < j && MountsAt(cs, volume, i, m) ==> cs[i].mounts[m].readOnly
      {
        var vm := cs[i].mounts[j];
        if vm.name == volume {
          assert MountsAt(cs, volume, i, j);
          mounted := true;
          if !vm.readOnly {
            return false;
          }
        }
      }
    }
  }

  // ----- Owners

  function FirstOwner(owners: seq<Owner>, kind: string): Option<string> {
    if owners == [] then None
    else if owners[0].kind == kind then Some(owners[0].name)
    else FirstOwner(owners[1..], kind)
  }

  /** The first owner of the kind has this name. */
  predicate IsFirst(owners: seq<Owner>, kind: string, name: string) {
    exists i :: 0 <= i < |owners| && owners[i] == Owner(kind, name) && forall j :: 0 <= j < i ==> owners[j].kind != kind
  }

  lemma {:induction false} FirstOwnerIsFirst(owners: seq<Owner>, kind: string, name: string)
    ensures FirstOwner(owners, kind) == Some(name) <==> IsFirst(owners, kind, name)
  {
    if owners != [] && owners[0].kind != kind {
      var rest := owners[1..];
      FirstOwnerIsFirst(rest, kind, name);
      if IsFirst(rest, kind, name) {
        var i :| 0 <= i < |rest| && rest[i] == Owner(kind, name) && forall j :: 0 <= j < i ==> rest[j].kind != kind;
        assert owners[i + 1] == rest[i] && forall j :: 0 < j < i + 1 ==> owners[j] == rest[j - 1];
      }
      if IsFirst(owners, kind, name) {
        var i :| 0 <= i < |owners| && owners[i] == Owner(kind, name) && forall j :: 0 <= j < i ==> owners[j].kind != kind;
        assert rest[i - 1] == owners[i] && forall j :: 0 <= j < i - 1 ==> rest[j] == owners[j + 1];
      }
    } else if owners != [] && owners[0] == Owner(kind, name) {
      assert IsFirst(owners, kind, name);
    }
  }

  method FindOwner(owners: seq<Owner>, kind: string) returns (name: Option<string>)
    ensures name == FirstOwner(owners, kind)
    ensures name.None? ==> forall i :: 0 <= i < |owners| ==> owners[i].kind != kind
    ensures name.Some? ==> IsFirst(owners, kind, name.value)
  {
    for i := 0 to |owners|
      invariant FirstOwner(owners[i..], kind) == FirstOwner(owners, kind)
      invariant forall j :: 0 <= j < i ==> owners[j].kind != kind
    {
      if owners[i].kind == kind {
        return Some(owners[i].name);
      }
      assert owners[i..][1..] == owners[i + 1..];
    }
    return None;
  }

  /** The Deployment a pod belongs to, through its ReplicaSet. */
  function DeploymentOf(pods: map<string, Pod>, sets: map<string, ReplicaSet>, pod: string): Option<string> {
    if pod !in pods then None else
      var rs := FirstOwner(pods[pod].owners, "ReplicaSet");
      if rs.None? || rs.value == "" || rs.value !in sets then None
      else FirstOwner(sets[rs.value].owners, "Deployment")
  }

  /** A pod's Deployment is the first Deployment that owns the first ReplicaSet that owns the pod. */
  lemma DeploymentIsOwner(pods: map<string, Pod>, sets: map<string, ReplicaSet>, pod: string, name: string)
    ensures DeploymentOf(pods, sets, pod) == Some(name) <==>
      pod in pods && exists rs :: rs != "" && rs in sets && IsFirst(pods[pod].owners, "ReplicaSet", rs)
                                  && IsFirst(sets[rs].owners, "Deployment", name)
  {
    if pod in pods {
      forall rs ensures FirstOwner(pods[pod].owners, "ReplicaSet") == Some(rs) <==> IsFirst(pods[pod].owners, "ReplicaSet", rs) {
        FirstOwnerIsFirst(pods[pod].owners, "ReplicaSet", rs);
      }
      forall rs | rs in sets
        ensures FirstOwner(sets[rs].owners, "Deployment") == Some(name) <==> IsFirst(sets[rs].owners, "Deployment", name)
      {
        FirstOwnerIsFirst(sets[rs].owners, "Deployment", name);
      }
    }
    hide IsFirst;
  }

  // ----- What a migration may change

  type Pvcs = map<string, Pvc>

  const MIGRATED_FROM := "autoremediation.tfg.local/migrated-from"

  /** A claim of the target class with the modes and the size of `old_`, marked with its name. */
  predicate CopyOf(p: Pvc, old_: Pvc, target: string, name: string) {
    && p.storageClass == Some(target)
    && p.accessModes == old_.accessModes
    && p.storage == old_.storage
    && p.annotations == map["autoremediation.tfg.local/migrated-from" := name]
  }

  predicate HasClass(pvcs: Pvcs, claim: string, target: string) {
    claim in pvcs && pvcs[claim].storageClass == Some(target)
  }

  /** A copy of a claim that was not in the target class. */
  predicate IsCopy(was: Pvcs, pvc: Pvc, target: string) {
    && MIGRATED_FROM in pvc.annotations && pvc.annotations[MIGRATED_FROM] in was
    && !HasClass(was, pvc.annotations[MIGRATED_FROM], target)
    && CopyOf(pvc, was[pvc.annotations[MIGRATED_FROM]], target, pvc.annotations[MIGRATED_FROM])
  }

  /** Old claims are as they were; every new one is a copy of an old one in the target class. */
  ghost predicate OnlyCopiesAdded(was: Pvcs, pvcs: Pvcs, target: string) {
    && (forall k :: k in was ==> k in pvcs && pvcs[k] == was[k])
    && (forall k :: k in pvcs && k !in was ==> IsCopy(was, pvcs[k], target))
  }

  /** A volume after the migration: untouched unless claim-backed; then on a claim of the target class,
      and a new one only if the old claim was used read-only. */
  predicate Settled(was: Pvcs, pvcs: Pvcs, target: string, cs: seq<Container>, v: Volume, w: Volume) {
    && w.name == v.name
    && match v.claim
       case None => w == v
       case Some(old_) =>
         && w.claim.Some? && HasClass(pvcs, w.claim.value, target)
         && (w == v || Repointed(was, pvcs, target, cs, v, w))
  }

  predicate Repointed(was: Pvcs, pvcs: Pvcs, target: string, cs: seq<Container>, v: Volume, w: Volume) {
    && v.claim.Some? && v.claim.value in was && UsedReadOnly(was[v.claim.value], cs, v.name)
    && w.claim.Some? && w.claim.value !in was && w.claim.value in pvcs
    && CopyOf(pvcs[w.claim.value], was[v.claim.value], target, v.claim.value)
  }

  /** Every claim-backed volume is already on the target class. */
  ghost predicate OnTarget(d: Deployment, pvcs: Pvcs, target: string) {
    forall i :: 0 <= i < |d.volumes| && d.volumes[i].claim.Some? ==> HasClass(pvcs, d.volumes[i].claim.value, target)
  }

  /** The first `n` volumes are settled and the others untouched. */
  ghost predicate Partway(was: Pvcs, pvcs: Pvcs, target: string, d: Deployment, vols: seq<Volume>, n: nat) {
    && |vols| == |d.volumes| && n <= |vols|
    && (forall i :: 0 <= i < n ==> Settled(was, pvcs, target, d.containers, d.volumes[i], vols[i]))
    && (forall i :: n <= i < |vols| ==> vols[i] == d.volumes[i])
  }

  // ----- Names over one run

  /** How many claim-backed volumes come before position `i`. */
  function Rank(vols: seq<Volume>, i: nat): nat
    requires i <= |vols|
  {
    if i == 0 then 0 else Rank(vols, i - 1) + if vols[i - 1].claim.Some? then 1 else 0
  }

  lemma {:induction false} RankGrows(vols: seq<Volume>, i: nat, j: nat)
    requires i < j <= |vols| && vols[i].claim.Some?
    ensures Rank(vols, i) < Rank(vols, j)
  {
    if i + 1 < j {
      RankGrows(vols, i, j - 1);
    }
  }

  /** Every claim added so far carries the stamp and a smaller index. */
  ghost predicate Minted(was: Pvcs, pvcs: Pvcs, stamp: int, idx: nat) {
    forall k :: k in pvcs && k !in was ==> exists name, j: nat :: j < idx && k == NewName(name, stamp, j)
  }

  lemma NextNameIsNew(was: Pvcs, pvcs: Pvcs, stamp: int, idx: nat, name: string)
    requires Minted(was, pvcs, stamp, idx) && NewName(name, stamp, idx) !in was
    ensures NewName(name, stamp, idx) !in pvcs
  {
    hide NewName;
    var k := NewName(name, stamp, idx);
    if k in pvcs {
      var other, j: nat :| j < idx && k == NewName(other, stamp, j);
      NewNamesDiffer(other, name, stamp, j, idx);
    }
  }

  lemma MintedGrows(was: Pvcs, pvcs: Pvcs, stamp: int, idx: nat, name: string, p: Pvc)
    requires Minted(was, pvcs, stamp, idx)
    ensures Minted(was, pvcs[NewName(name, stamp, idx) := p], stamp, idx + 1)
  {
    hide NewName;
    var claim := NewName(name, stamp, idx);
    var grown := pvcs[claim := p];
    forall k | k in grown && k !in was
      ensures exists x, j: nat :: j < idx + 1 && k == NewName(x, stamp, j)
    {
      if k != claim {
        var x, j: nat :| j < idx && k == NewName(x, stamp, j);
      }
    }
  }

  ghost predicate Named(was: seq<Volume>, vols: seq<Volume>, stamp: int)
    requires |was| == |vols|
  {
    forall i :: 0 <= i < |vols| && vols[i] != was[i] ==>
      was[i].claim.Some? && vols[i].claim == Some(NewName(was[i].claim.value, stamp, Rank(was, i)))
  }

  /** No two volumes are repointed to one claim. */
  lemma RepointedApart(was: seq<Volume>, vols: seq<Volume>, stamp: int, i: nat, j: nat)
    requires |was| == |vols| && Named(was, vols, stamp)
    requires i < j < |vols| && vols[i] != was[i] && vols[j] != was[j]
    ensures vols[i].claim != vols[j].claim
  {
    RankGrows(was, i, j);
    NewNamesDiffer(was[i].claim.value, was[j].claim.value, stamp, Rank(was, i), Rank(was, j));
  }

  // ----- One volume

  datatype StepResult = Kept | Moved(claim: string) | Failed(outcome: Outcome)

  datatype Outcome =
    | NoTarget | ClassMissing | GetFailed | NoOwner | NoPvc | Writable | CreateFailed | PatchFailed | Migrated

  predicate MovableAt(pvcs: Pvcs, target: string, cs: seq<Container>, v: Volume, claim: string) {
    && v.claim.Some? && v.claim.value in pvcs
    && (HasClass(pvcs, v.claim.value, target) || (UsedReadOnly(pvcs[v.claim.value], cs, v.name) && claim !in pvcs))
  }

  /** One claim-backed volume: skipped on the target class, refused when writable, otherwise copied.
      Calls of the API fail freely unless `reliable`. */
  method MoveClaim(store: Store, target: string, cs: seq<Container>, v: Volume, stamp: int, idx: nat, reliable: bool)
    returns (r: StepResult)
    requires v.claim.Some?
    modifies store`pvcs
    ensures r.Kept? ==> store.pvcs == old(store.pvcs) && HasClass(store.pvcs, v.claim.value, target)
    ensures r.Failed? ==> store.pvcs == old(store.pvcs) && r.outcome in {GetFailed, Writable, CreateFailed}
    ensures r == Failed(Writable) ==>
      && v.claim.value in store.pvcs && !HasClass(store.pvcs, v.claim.value, target)
      && !UsedReadOnly(store.pvcs[v.claim.value], cs, v.name)
    ensures r.Moved? ==>
      && r.claim == v.claim.value + "-migrated-" + DecimalInt(stamp) + "-" + Decimal(idx) && r.claim !in old(store.pvcs)
      && v.claim.value in old(store.pvcs) && !HasClass(old(store.pvcs), v.claim.value, target)
      && UsedReadOnly(old(store.pvcs)[v.claim.value], cs, v.name)
      && r.claim in store.pvcs && store.pvcs == old(store.pvcs)[r.claim := store.pvcs[r.claim]]
      && CopyOf(store.pvcs[r.claim], old(store.pvcs)[v.claim.value], target, v.claim.value)
    ensures reliable ==> (r.Failed? <==> !MovableAt(old(store.pvcs), target, cs, v, NewName(v.claim.value, stamp, idx)))
  {
    var name := v.claim.value;
    var ok: bool := *;
    if !(ok || reliable) || name !in store.pvcs {
      return Failed(GetFailed);
    }
    var pvc := store.pvcs[name];
    if pvc.storageClass.Some? && pvc.storageClass.value == target {
      return Kept;
    }
    var safe := PvcUsedReadOnly(pvc, cs, v.name);
    if !safe {
      return Failed(Writable);
    }
    var claim := NewName(name, stamp, idx);
    ok := *;
    if !(ok || reliable) || claim in store.pvcs {
      return Failed(CreateFailed);
    }
    var copy := Pvc(Some(target), pvc.accessModes, pvc.storage, map[MIGRATED_FROM := name]);
    store.pvcs := store.pvcs[claim := copy];
    return Moved(claim);
  }

  // ----- Turns of the loop

  lemma KeptStep(was: Pvcs, pvcs: Pvcs, target: string, d: Deployment, vols: seq<Volume>, n: nat)
    requires Partway(was, pvcs, target, d, vols, n) && n < |vols|
    requires vols[n].claim.Some? ==> HasClass(pvcs, vols[n].claim.value, target)
    ensures Partway(was, pvcs, target, d, vols, n + 1)
  {
  }

  /** A claim outside the target class is an old one. */
  lemma OutsideIsOld(was: Pvcs, pvcs: Pvcs, target: string, claim: string)
    requires OnlyCopiesAdded(was, pvcs, target)
    requires claim in pvcs && !HasClass(pvcs, claim, target)
    ensures claim in was && pvcs[claim] == was[claim]
  {
    assert IsCopy(was, pvcs[claim], target) ==> HasClass(pvcs, claim, target);
  }

  lemma CopyAdded(was: Pvcs, pvcs: Pvcs, target: string, claim: string, old_: string, p: Pvc)
    requires OnlyCopiesAdded(was, pvcs, target) && claim !in pvcs
    requires old_ in pvcs && !HasClass(pvcs, old_, target) && CopyOf(p, pvcs[old_], target, old_)
    ensures OnlyCopiesAdded(was, pvcs[claim := p], target)
  {
    OutsideIsOld(was, pvcs, target, old_);
    assert IsCopy(was, p, target);
  }

  lemma SettledGrows(was: Pvcs, pvcs: Pvcs, target: string, cs: seq<Container>, v: Volume, w: Volume, claim: string, p: Pvc)
    requires Settled(was, pvcs, target, cs, v, w) && claim !in pvcs
    ensures Settled(was, pvcs[claim := p], target, cs, v, w)
  {
  }

  lemma MovedStep(was: Pvcs, pvcs: Pvcs, target: string, d: Deployment, vols: seq<Volume>, n: nat, claim: string, p: Pvc)
    requires OnlyCopiesAdded(was, pvcs, target) && Partway(was, pvcs, target, d, vols, n) && n < |vols|
    requires vols[n].claim.Some? && claim !in pvcs
    requires vols[n].claim.value in pvcs && !HasClass(pvcs, vols[n].claim.value, target)
    requires UsedReadOnly(pvcs[vols[n].claim.value], d.containers, vols[n].name)
    requires CopyOf(p, pvcs[vols[n].claim.value], target, vols[n].claim.value)
    ensures OnlyCopiesAdded(was, pvcs[claim := p], target)
    ensures Partway(was, pvcs[claim := p], target, d, vols[n := vols[n].(claim := Some(claim))], n + 1)
  {
    var v := vols[n];
    var grown, moved := pvcs[claim := p], vols[n := v.(claim := Some(claim))];
    OutsideIsOld(was, pvcs, target, v.claim.value);
    CopyAdded(was, pvcs, target, claim, v.claim.value, p);
    assert Settled(was, grown, target, d.containers, v, moved[n]);
    forall i | 0 <= i < n
      ensures Settled(was, grown, target, d.containers, d.volumes[i], moved[i])
    {
      SettledGrows(was, pvcs, target, d.containers, d.volumes[i], vols[i], claim, p);
    }
  }

  // ----- The loop

  /** What a caller can check: each claim exists, and is on the target class or is used read-only and
      its new name is free. */
  ghost predicate Movable(pvcs: Pvcs, target: string, d: Deployment, stamp: int) {
    forall i :: 0 <= i < |d.volumes| && d.volumes[i].claim.Some? ==>
      MovableAt(pvcs, target, d.containers, d.volumes[i], NewName(d.volumes[i].claim.value, stamp, Rank(d.volumes, i)))
  }

  /** Copies made on the way do not get in the way. */
  lemma StillMovable(was: Pvcs, pvcs: Pvcs, target: string, d: Deployment, stamp: int, i: nat)
    requires OnlyCopiesAdded(was, pvcs, target) && i < |d.volumes| && d.volumes[i].claim.Some?
    requires Minted(was, pvcs, stamp, Rank(d.volumes, i)) && Movable(was, target, d, stamp)
    ensures MovableAt(pvcs, target, d.containers, d.volumes[i], NewName(d.volumes[i].claim.value, stamp, Rank(d.volumes, i)))
  {
    hide NewName, UsedReadOnly, Minted, IsCopy, Rank;
    var claim := NewName(d.volumes[i].claim.value, stamp, Rank(d.volumes, i));
    assert MovableAt(was, target, d.containers, d.volumes[i], claim);
    if claim !in was {
      NextNameIsNew(was, pvcs, stamp, Rank(d.volumes, i), d.volumes[i].claim.value);
    }
  }

  /** Where the loop stands after `i` volumes. */
  ghost predicate Progress(was: Pvcs, pvcs: Pvcs, target: string, d: Deployment, vols: seq<Volume>, stamp: int, i: nat) {
    && Partway(was, pvcs, target, d, vols, i)
    && OnlyCopiesAdded(was, pvcs, target) && Minted(was, pvcs, stamp, Rank(d.volumes, i))
    && Named(d.volumes, vols, stamp)
    && (OnTarget(d, was, target) ==> pvcs == was && vols == d.volumes)
  }

  lemma KeptTurn(was: Pvcs, pvcs: Pvcs, target: string, d: Deployment, vols: seq<Volume>, stamp: int, i: nat)
    requires Progress(was, pvcs, target, d, vols, stamp, i) && i < |vols|
    requires vols[i].claim.Some? ==> HasClass(pvcs, vols[i].claim.value, target)
    ensures Progress(was, pvcs, target, d, vols, stamp, i + 1)
  {
    hide OnlyCopiesAdded, Minted, Named, OnTarget, HasClass;
    KeptStep(was, pvcs, target, d, vols, i);
    MintedLater(was, pvcs, stamp, Rank(d.volumes, i));
  }

  lemma MovedTurn(was: Pvcs, pvcs: Pvcs, target: string, d: Deployment, vols: seq<Volume>, stamp: int, i: nat, claim: string, p: Pvc)
    requires Progress(was, pvcs, target, d, vols, stamp, i) && i < |vols|
    requires vols[i].claim.Some? && claim !in pvcs && claim == NewName(vols[i].claim.value, stamp, Rank(d.volumes, i))
    requires vols[i].claim.value in pvcs && !HasClass(pvcs, vols[i].claim.value, target)
    requires UsedReadOnly(pvcs[vols[i].claim.value], d.containers, vols[i].name)
    requires CopyOf(p, pvcs[vols[i].claim.value], target, vols[i].claim.value)
    ensures Progress(was, pvcs[claim := p], target, d, vols[i := vols[i].(claim := Some(claim))], stamp, i + 1)
  {
    MovedStep(was, pvcs, target, d, vols, i, claim, p);
    MintedGrows(was, pvcs, stamp, Rank(d.volumes, i), vols[i].claim.value, p);
    hide OnlyCopiesAdded, Minted, NewName, CopyOf, UsedReadOnly, Settled;
    assert !OnTarget(d, was, target);
  }

  /** Works through the volumes in order. On failure it has only added copies; on success every
      claim-backed volume is settled. A Deployment already on target costs nothing. */
  method MoveVolumes(store: Store, target: string, d: Deployment, stamp: int, reliable: bool)
    returns (vols: seq<Volume>, failure: Option<Outcome>)
    modifies store`pvcs
    ensures OnlyCopiesAdded(old(store.pvcs), store.pvcs, target)
    ensures failure.Some? ==> failure.value in {GetFailed, Writable, CreateFailed}
    ensures failure.None? ==>
      && Partway(old(store.pvcs), store.pvcs, target, d, vols, |vols|)
      && Named(d.volumes, vols, stamp)
    ensures OnTarget(d, old(store.pvcs), target) ==> store.pvcs == old(store.pvcs) && vols == d.volumes
    ensures reliable && Movable(old(store.pvcs), target, d, stamp) ==> failure.None?
  {
    hide Progress, Settled, UsedReadOnly, CopyOf, OnlyCopiesAdded, MovableAt, Movable, Minted, OnTarget, Named, HasClass;
    vols, failure := d.volumes, None;
    var idx := 0;
    ghost var was := store.pvcs;
    ProgressStarts(was, target, d, stamp);
    for i := 0 to |d.volumes|
      invariant idx == Rank(d.volumes, i) && |vols| == |d.volumes| && vols[i..] == d.volumes[i..]
      invariant Progress(was, store.pvcs, target, d, vols, stamp, i)
    {
      assert vols[i] == vols[i..][0] == d.volumes[i];
      ghost var before := store.pvcs;
      ProgressSays(was, before, target, d, vols, stamp, i);
      if vols[i].claim.Some? {
        if Movable(was, target, d, stamp) {
          StillMovable(was, before, target, d, stamp, i);
        }
        var r := MoveClaim(store, target, d.containers, vols[i], stamp, idx, reliable);
        match r {
          case Failed(o) => return vols, Some(o);
          case Kept => KeptTurn(was, before, target, d, vols, stamp, i);
          case Moved(claim) =>
            MovedTurn(was, before, target, d, vols, stamp, i, claim, store.pvcs[claim]);
            vols := vols[i := vols[i].(claim := Some(claim))];
        }
        idx := idx + 1;
      } else {
        KeptTurn(was, before, target, d, vols, stamp, i);
      }
    }
    ProgressSays(was, store.pvcs, target, d, vols, stamp, |vols|);
  }

  lemma ProgressStarts(was: Pvcs, target: string, d: Deployment, stamp: int)
    ensures Progress(was, was, target, d, d.volumes, stamp, 0)
  {
    Untouched(was, target, stamp);
  }

  lemma ProgressSays(was: Pvcs, pvcs: Pvcs, target: string, d: Deployment, vols: seq<Volume>, stamp: int, i: nat)
    requires Progress(was, pvcs, target, d, vols, stamp, i)
    ensures Partway(was, pvcs, target, d, vols, i) && Named(d.volumes, vols, stamp)
    ensures OnlyCopiesAdded(was, pvcs, target) && Minted(was, pvcs, stamp, Rank(d.volumes, i))
    ensures OnTarget(d, was, target) ==> pvcs == was && vols == d.volumes
  {
  }

  lemma Untouched(was: Pvcs, target: string, stamp: int)
    ensures OnlyCopiesAdded(was, was, target) && Minted(was, was, stamp, 0)
  {
  }

  lemma MintedLater(was: Pvcs, pvcs: Pvcs, stamp: int, idx: nat)
    requires Minted(was, pvcs, stamp, idx)
    ensures Minted(was, pvcs, stamp, idx + 1)
  {
    hide NewName;
    forall k | k in pvcs && k !in was
      ensures exists x, j: nat :: j < idx + 1 && k == NewName(x, stamp, j)
    {
      var x, j: nat :| j < idx && k == NewName(x, stamp, j);
    }
  }

  // ----- The action

  /** The name of the Deployment a call would work on. */
  function Subject(s: Snapshot, pod: string): Option<string> {
    var d := DeploymentOf(s.pods, s.replicaSets, pod);
    if d.Some? && d.value in s.deployments then d else None
  }

  /** The Deployment after a successful call: its volumes settled, nothing else changed. */
  ghost predicate Settles(s: Snapshot, t: Snapshot, target: string, name: string, stamp: int) {
    && name in s.deployments && name in t.deployments
    && var d, e := s.deployments[name], t.deployments[name];
    && t.deployments == s.deployments[name := d.(volumes := e.volumes)]
    && Partway(s.pvcs, t.pvcs, target, d, e.volumes, |e.volumes|)
    && Named(d.volumes, e.volumes, stamp)
  }

  /** Only copies are added, and either the Deployments are unchanged or one is wholly settled. */
  ghost predicate Migration(s: Snapshot, t: Snapshot, target: string, pod: string, stamp: int, done: bool) {
    && t == s.(pvcs := t.pvcs, deployments := t.deployments)
    && OnlyCopiesAdded(s.pvcs, t.pvcs, target)
    && (if done then Subject(s, pod).Some? && Settles(s, t, target, Subject(s, pod).value, stamp)
        else t.deployments == s.deployments)
    && (Subject(s, pod).Some? && OnTarget(s.deployments[Subject(s, pod).value], s.pvcs, target) ==> t == s)
    && (Subject(s, pod).None? ==> t == s)
  }

  predicate HasClaim(d: Deployment) {
    exists i :: 0 <= i < |d.volumes| && d.volumes[i].claim.Some?
  }

  /** What a successful call has checked before it starts to copy. */
  predicate Admitted(s: Snapshot, target: string, pod: string) {
    && target != "" && target in s.storageClasses
    && Subject(s, pod).Some? && HasClaim(s.deployments[Subject(s, pod).value])
  }

  method CollectsAny(vols: seq<Volume>) returns (any: bool)
    ensures any <==> exists i :: 0 <= i < |vols| && vols[i].claim.Some?
  {
    any := false;
    for i := 0 to |vols|
      invariant any <==> exists j :: 0 <= j < i && vols[j].claim.Some?
    {
      if vols[i].claim.Some? {
        any := true;
      }
    }
  }

  /** The pod and its chain of owners, read from the store. */
  method FindDeployment(store: Store, pod: string, reliable: bool) returns (name: string, failure: Option<Outcome>)
    ensures failure.Some? ==> failure.value in {GetFailed, NoOwner}
    ensures failure.None? ==> Subject(store.Contents(), pod) == Some(name)
    ensures reliable && Subject(store.Contents(), pod).Some? ==> failure.None?
  {
    var ok: bool := *;
    if !(ok || reliable) || pod !in store.pods {
      return "", Some(GetFailed);
    }
    var rs := FindOwner(store.pods[pod].owners, "ReplicaSet");
    if rs.None? || rs.value == "" {
      return "", Some(NoOwner);
    }
    ok := *;
    if !(ok || reliable) || rs.value !in store.replicaSets {
      return "", Some(GetFailed);
    }
    var d := FindOwner(store.replicaSets[rs.value].owners, "Deployment");
    if d.None? {
      return "", Some(NoOwner);
    }
    ok := *;
    if !(ok || reliable) || d.value !in store.deployments {
      return "", Some(GetFailed);
    }
    return d.value, None;
  }

  /** Execute: on every exit the store has undergone a migration, whole or not at all. */
  method Execute(store: Store, target: string, pod: string, stamp: int, reliable: bool) returns (o: Outcome)
    modifies store`pvcs, store`deployments
    ensures Migration(old(store.Contents()), store.Contents(), target, pod, stamp, o.Migrated?)
    ensures o.Migrated? ==> Admitted(old(store.Contents()), target, pod)
    ensures var s := old(store.Contents());
      reliable && Admitted(s, target, pod) && Movable(s.pvcs, target, s.deployments[Subject(s, pod).value], stamp) ==>
        o.Migrated?
  {
    hide OnlyCopiesAdded, Partway, Named, OnTarget, Movable, DeploymentOf;
    ghost var s := store.Contents();
    Untouched(s.pvcs, target, stamp);
    if target == "" {
      return NoTarget;
    }
    var ok: bool := *;
    if !(ok || reliable) || target !in store.storageClasses {
      return ClassMissing;
    }
    var name, failure := FindDeployment(store, pod, reliable);
    if failure.Some? {
      return failure.value;
    }
    var d := store.deployments[name];
    var any := CollectsAny(d.volumes);
    if !any {
      return NoPvc;
    }
    var vols;
    vols, failure := MoveVolumes(store, target, d, stamp, reliable);
    if failure.Some? {
      return failure.value;
    }
    ok := *;
    if !(ok || reliable) {
      return PatchFailed;
    }
    store.deployments := store.deployments[name := d.(volumes := vols)];
    assert OnTarget(d, s.pvcs, target) ==> store.deployments == s.deployments;
    return Migrated;
  }
}
