/** The leader-label reflector the lock service calls on each transition:
    on acquisition it lists the pods labelled `app=<appName>` and labels its
    own pod leader, if the listing includes it, and every other listed pod
    non-leader, leaving unlisted pods alone; on loss it labels its own pod
    non-leader. */
module Callbacks {
  import opened Wrappers
  import opened Labels

  /** What the reflector knows about its surroundings: the client's namespace,
      `POD_NAME`, and the configured label key and app name. */
  datatype Env = Env(namespace: string, selfPodName: string, labelKey: string, appName: string)

  /** Requests sent to the Kubernetes API, in the order they are sent. */
  datatype Call =
    | ListPods(namespace: string, selectorKey: string, selectorValue: string)
    | EditLabel(namespace: string, pod: string, key: string, value: string)

  /** The outcome of the pod listing: a `KubernetesClientException`, or the
      names of the pods in the order the API returned them. */
  datatype Listing = ListFailed | Listed(pods: seq<string>)

  /** A `KubernetesClientException`, kept as the cause of the error below. */
  datatype ClientError = ClientError

  /** The `IllegalStateException` `onLockAcquired` raises. */
  datatype IllegalState = IllegalState(message: string, cause: ClientError)

  const AcquireFailureMessage: string := "Failed to update leader labels on lock acquisition"

  /** The pods' labels afterwards, the requests made, and what was thrown. */
  datatype Outcome = Outcome(cluster: Cluster, calls: seq<Call>, error: Option<IllegalState>)

  /** `Boolean.toString(isLeader)`. */
  function LeaderValue(isLeader: bool): string {
    if isLeader then "true" else "false"
  }

  /** The label a listed pod should carry after an acquisition. */
  function Assigned(e: Env, pod: string): string {
    LeaderValue(pod == e.selfPodName)
  }

  /** An `edit` of a pod's labels succeeds unless the pod is gone or the API
      fails for it (the pods in `failing`); a failure is logged and swallowed,
      so the pod simply keeps its labels. */
  predicate WriteSucceeds(c: Cluster, pod: string, failing: set<string>) {
    pod in c && pod !in failing
  }

  /** `updatePodLeaderLabel`: put `labelKey` on one pod, keeping its other labels. */
  function UpdatePodLeaderLabel(c: Cluster, e: Env, pod: string, isLeader: bool, failing: set<string>): (r: Cluster)
    ensures r.Keys == c.Keys
    ensures forall p :: p in c && p != pod ==> r[p] == c[p]
    ensures pod in c ==> r[pod] == if pod in failing then c[pod] else Put(c[pod], e.labelKey, LeaderValue(isLeader))
  {
    if WriteSucceeds(c, pod, failing) then c[pod := Put(c[pod], e.labelKey, LeaderValue(isLeader))] else c
  }

  /** The loop over the listed pods, first to last. A listed pod whose write
      succeeds ends up with its assigned label; every other pod, listed or
      not, keeps exactly the labels it had. */
  function UpdateAll(c: Cluster, e: Env, pods: seq<string>, failing: set<string>): (r: Cluster)
    ensures r.Keys == c.Keys
    ensures forall p :: p in c ==>
              r[p] == if p in pods && p !in failing then Put(c[p], e.labelKey, Assigned(e, p)) else c[p]
    decreases |pods|
  {
    if |pods| == 0 then c
    else
      var pod := pods[0];
      assert forall p :: p in pods <==> p == pod || p in pods[1..];
      UpdateAll(UpdatePodLeaderLabel(c, e, pod, pod == e.selfPodName, failing), e, pods[1..], failing)
  }

  /** One edit request per listed pod, in listing order. */
  function EditCalls(e: Env, pods: seq<string>): (r: seq<Call>)
    ensures |r| == |pods|
    ensures forall i :: 0 <= i < |pods| ==> r[i] == EditLabel(e.namespace, pods[i], e.labelKey, Assigned(e, pods[i]))
  {
    seq(|pods|, i requires 0 <= i < |pods| => EditLabel(e.namespace, pods[i], e.labelKey, Assigned(e, pods[i])))
  }

  /** `onLockAcquired`. */
  function OnLockAcquired(c: Cluster, e: Env, listing: Listing, failing: set<string>): (r: Outcome)
    // the listing, selected by `app=<appName>`, comes before any write
    ensures |r.calls| >= 1 && r.calls[0] == ListPods(e.namespace, "app", e.appName)
    ensures forall i :: 1 <= i < |r.calls| ==> r.calls[i].EditLabel? && r.calls[i].key == e.labelKey
    // a failed listing raises, keeping its cause, and writes nothing
    ensures r.error.Some? <==> listing.ListFailed?
    ensures r.error.Some? ==> r.error.value == IllegalState(AcquireFailureMessage, ClientError)
                              && r.cluster == c && |r.calls| == 1
    // otherwise every listed pod is written once and each write is judged on its own
    ensures listing.Listed? ==> |r.calls| == 1 + |listing.pods|
    ensures listing.Listed? ==> forall i :: 0 <= i < |listing.pods| ==>
              r.calls[i + 1] == EditLabel(e.namespace, listing.pods[i], e.labelKey,
                                          if listing.pods[i] == e.selfPodName then "true" else "false")
    ensures r.cluster.Keys == c.Keys
    ensures listing.Listed? ==> forall p :: p in c ==>
              r.cluster[p] == if p in listing.pods && p !in failing
                              then Put(c[p], e.labelKey, if p == e.selfPodName then "true" else "false")
                              else c[p]
  {
    var list := ListPods(e.namespace, "app", e.appName);
    match listing
    case ListFailed => Outcome(c, [list], Some(IllegalState(AcquireFailureMessage, ClientError)))
    case Listed(pods) => Outcome(UpdateAll(c, e, pods, failing), [list] + EditCalls(e, pods), None)
  }

  /** `onLockLost`: one write, `labelKey=false` on self, whose failure is swallowed. */
  function OnLockLost(c: Cluster, e: Env, failing: set<string>): (r: Outcome)
    ensures r.error.None?
    ensures r.calls == [EditLabel(e.namespace, e.selfPodName, e.labelKey, "false")]
    ensures r.cluster.Keys == c.Keys
    ensures forall p :: p in c && p != e.selfPodName ==> r.cluster[p] == c[p]
    ensures e.selfPodName in c ==>
              r.cluster[e.selfPodName] == if e.selfPodName in failing then c[e.selfPodName]
                                          else Put(c[e.selfPodName], e.labelKey, "false")
  {
    Outcome(UpdatePodLeaderLabel(c, e, e.selfPodName, false, failing),
            [EditLabel(e.namespace, e.selfPodName, e.labelKey, "false")], None)
  }

  /** Self is marked leader only when the listing names it: a self pod the
      listing missed keeps whatever labels it had. */
  lemma SelfLabelledOnlyWhenListed(c: Cluster, e: Env, pods: seq<string>, failing: set<string>)
    requires e.selfPodName in c
    ensures OnLockAcquired(c, e, Listed(pods), failing).cluster[e.selfPodName] != c[e.selfPodName] ==> e.selfPodName in pods
    ensures e.selfPodName !in pods ==> OnLockAcquired(c, e, Listed(pods), failing).cluster[e.selfPodName] == c[e.selfPodName]
  {
  }

  /** Re-running the label loop over the same listing with the same failures
      changes nothing more. */
  lemma UpdateAllIdempotent(c: Cluster, e: Env, pods: seq<string>, failing: set<string>)
    ensures UpdateAll(UpdateAll(c, e, pods, failing), e, pods, failing) == UpdateAll(c, e, pods, failing)
  {
    var once := UpdateAll(c, e, pods, failing);
    var twice := UpdateAll(once, e, pods, failing);
    forall p | p in once
      ensures twice[p] == once[p]
    {
      if p in pods && p !in failing {
        var v := Assigned(e, p);
        assert once[p] == Put(c[p], e.labelKey, v);
        assert Put(once[p], e.labelKey, v) == once[p];
      }
    }
  }

  /** Re-running an acquisition over the same listing with the same failures
      changes nothing more. */
  lemma AcquireIdempotent(c: Cluster, e: Env, pods: seq<string>, failing: set<string>)
    ensures var once := OnLockAcquired(c, e, Listed(pods), failing).cluster;
            OnLockAcquired(once, e, Listed(pods), failing).cluster == once
  {
    UpdateAllIdempotent(c, e, pods, failing);
  }
}
