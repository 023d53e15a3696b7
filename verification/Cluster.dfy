/** The Kubernetes objects the operator touches, as a store whose reads see earlier writes. */
module Cluster {
  import opened Words

  datatype Effect = NoSchedule | PreferNoSchedule | NoExecute

  /** Times are nanoseconds. */
  datatype Taint = Taint(key: string, value: string, effect: Effect, timeAdded: Option<int>)

  datatype Node = Node(taints: seq<Taint>)

  datatype VolumeMount = VolumeMount(name: string, readOnly: bool)

  /** CPU quantities are millicores. */
  datatype Container = Container(
    name: string, limits: map<string, I64>, requests: map<string, I64>, mounts: seq<VolumeMount>)

  datatype Owner = Owner(kind: string, name: string)

  datatype Pod = Pod(nodeName: string, containers: seq<Container>, owners: seq<Owner>)

  datatype ReplicaSet = ReplicaSet(owners: seq<Owner>)

  /** A volume backed by a claim, or by something else. */
  datatype Volume = Volume(name: string, claim: Option<string>)

  datatype Deployment = Deployment(volumes: seq<Volume>, containers: seq<Container>, initContainers: seq<Container>)

  datatype AccessMode = ReadWriteOnce | ReadOnlyMany | ReadWriteMany | ReadWriteOncePod | OtherMode(mode: string)

  datatype Pvc = Pvc(
    storageClass: Option<string>, accessModes: seq<AccessMode>, storage: int, annotations: map<string, string>)

  /** Everything the store holds at one moment. */
  datatype Snapshot = Snapshot(
    pods: map<string, Pod>, nodes: map<string, Node>, evicted: set<string>, storageClasses: set<string>,
    pvcs: map<string, Pvc>, replicaSets: map<string, ReplicaSet>, deployments: map<string, Deployment>)

  class Store {
    var pods: map<string, Pod>
    var nodes: map<string, Node>
    /** Pods whose eviction has been accepted. */
    var evicted: set<string>
    var storageClasses: set<string>
    var pvcs: map<string, Pvc>
    var replicaSets: map<string, ReplicaSet>
    var deployments: map<string, Deployment>

    ghost function Contents(): Snapshot
      reads this
    {
      Snapshot(pods, nodes, evicted, storageClasses, pvcs, replicaSets, deployments)
    }
  }
}
