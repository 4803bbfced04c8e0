/** The pods of a namespace as a PodManager sees them. */
module Pods {
  import opened Options
  import opened PodNames

  /** The owner labels: the manager's name and uid. */
  datatype Owner = Owner(name: string, uid: nat)

  /** A pod of somebody else has no owner. */
  datatype Pod = Pod(owner: Option<Owner>, terminating: bool)

  type PodMap = map<string, Pod>

  function NewPod(m: Owner): Pod {
    Pod(Some(m), false)
  }

  /** The pods that match the manager's labels. */
  function Own(pods: PodMap, m: Owner): set<string> {
    set n <- pods | pods[n].owner == Some(m)
  }

  /** An order in which a List call may return the names. */
  ghost predicate Lists(order: seq<string>, names: set<string>) {
    && (forall i, j :: 0 <= i < j < |order| ==> order[i] != order[j])
    && (forall n :: n in order <==> n in names)
  }

  predicate Taken(pods: PodMap, m: Owner, i: int) {
    PodName(m.name, i) in pods
  }

  /** Deleting starts the termination, by name, whoever owns the pod. */
  function Mark(pods: PodMap, names: set<string>): PodMap {
    map n <- pods :: if n in names then pods[n].(terminating := true) else pods[n]
  }
}
