/** The Go sidecar's reconciliation: on gaining leadership it labels its own
    pod, strips the leader label from every pod carrying it except the Lease's
    holder, its own pod included, and records itself in the leader-info ConfigMap; on
    losing leadership it removes its own label and blanks the ConfigMap entry.
    Every label write is a JSON Merge Patch on `metadata.labels`. */
module Sidecar {
  import opened Wrappers
  import opened Labels

  /** A failed call to the Kubernetes API (the Go `err != nil`). */
  datatype ApiError = ApiError

  /** The outcome of reading the Lease: an error, or the Lease with its
      possibly absent `spec.holderIdentity`. */
  datatype LeaseRead = LeaseReadFailed | LeaseFound(holderIdentity: Option<string>)

  /** `getLeaseHolder`: propagate a read error; an unset holder reads as "". */
  function GetLeaseHolder(read: LeaseRead): (r: Result<string, ApiError>)
    ensures r.Failure? <==> read.LeaseReadFailed?
    ensures read.LeaseFound? ==> r.value == read.holderIdentity.GetOr("")
  {
    match read
    case LeaseReadFailed => Failure(ApiError)
    case LeaseFound(None) => Success("")
    case LeaseFound(Some(h)) => Success(h)
  }

  /** The equality selector `key=value`. */
  predicate Matches(labels: LabelMap, key: string, value: string) {
    key in labels && labels[key] == value
  }

  /** The label-removal patch `{"metadata":{"labels":{"<key>":null}}}`. */
  function RemovalPatch(key: string): map<string, Option<string>> {
    map[key := None]
  }

  /** The label-setting patch `{"metadata":{"labels":{"<key>":"<value>"}}}`. */
  function SettingPatch(key: string, value: string): map<string, Option<string>> {
    map[key := Some(value)]
  }

  /** What the API does with the cleanup's calls: the pods the cleanup finds
      stale, each patched unless its patch fails. */
  datatype CleanupOutcomes = CleanupOutcomes(lease: LeaseRead, listSucceeds: bool, failingPatches: set<string>)

  /** Whether the cleanup gets as far as the pod loop. */
  predicate Proceeds(o: CleanupOutcomes) {
    o.lease.LeaseFound? && o.listSucceeds
  }

  /** A pod the cleanup patches: listed by the selector and not the holder. */
  predicate Stale(c: Cluster, o: CleanupOutcomes, key: string, value: string, p: string)
    requires p in c
  {
    Proceeds(o) && Matches(c[p], key, value) && p != GetLeaseHolder(o.lease).value
  }

  /** The effect of `cleanupToLeaseHolder`, pod by pod: every stale pod whose
      patch succeeds loses `key`; every other pod keeps its labels. */
  function Cleanup(c: Cluster, o: CleanupOutcomes, key: string, value: string): (r: Cluster)
    ensures r.Keys == c.Keys
    ensures !Proceeds(o) ==> r == c
    ensures forall p :: p in c && Stale(c, o, key, value, p) && p !in o.failingPatches ==>
              key !in r[p] && r[p] == Delete(c[p], key)
    ensures forall p :: p in c && !(Stale(c, o, key, value, p) && p !in o.failingPatches) ==> r[p] == c[p]
  {
    map p | p in c :: if Stale(c, o, key, value, p) && p !in o.failingPatches then Delete(c[p], key) else c[p]
  }

  /** `cleanupToLeaseHolder`: read the holder, list the pods carrying
      `key=value`, and patch the label away on each listed pod but the
      holder. A read or list failure stops it before any patch; a failed
      patch is logged and the loop moves on. The pods are visited in an
      unspecified order. */
  method CleanupToLeaseHolder(c: Cluster, o: CleanupOutcomes, key: string, value: string)
    returns (r: Cluster, patched: set<string>)
    ensures r == Cleanup(c, o, key, value)
    ensures forall p :: p in patched <==> p in c && Stale(c, o, key, value, p)
  {
    var holder := GetLeaseHolder(o.lease);
    if holder.Failure? {
      return c, {};
    }
    if !o.listSucceeds {
      return c, {};
    }
    var listed := set p | p in c && Matches(c[p], key, value);
    var remaining := listed;
    r, patched := c, {};
    while remaining != {}
      invariant remaining <= listed
      invariant r.Keys == c.Keys
      invariant forall p :: p in c ==>
                  r[p] == if p in listed - remaining && p != holder.value && p !in o.failingPatches
                          then Delete(c[p], key) else c[p]
      invariant patched == (listed - remaining) - {holder.value}
      decreases remaining
    {
      var p :| p in remaining;
      if p != holder.value {
        patched := patched + {p};
        if p !in o.failingPatches {
          MergePatchNullDeletes(r[p], key);
          r := r[p := MergePatch(r[p], RemovalPatch(key))];
        }
      }
      remaining := remaining - {p};
    }
  }

  /** The holder's pod is never patched. */
  lemma HolderKeepsLabels(c: Cluster, o: CleanupOutcomes, key: string, value: string, holder: string)
    requires o.lease == LeaseFound(Some(holder)) && holder in c
    ensures Cleanup(c, o, key, value)[holder] == c[holder]
  {
  }

  /** With no holder recorded every labelled pod (no pod is named "") is
      unlabelled, unless its own patch fails. */
  lemma NoHolderUnlabelsAll(c: Cluster, o: CleanupOutcomes, key: string, value: string)
    requires o.lease == LeaseFound(None) && o.listSucceeds
    ensures forall p :: p in c && p != "" && p !in o.failingPatches ==> !Matches(Cleanup(c, o, key, value)[p], key, value)
  {
  }

  /** After a cleanup whose calls all succeed, the holder is the only pod that
      can still carry `key=value`. */
  lemma CleanupLeavesOnlyHolder(c: Cluster, o: CleanupOutcomes, key: string, value: string)
    requires Proceeds(o) && o.failingPatches == {}
    ensures forall p :: p in c && Matches(Cleanup(c, o, key, value)[p], key, value) ==> p == GetLeaseHolder(o.lease).value
  {
  }

  // ---- Leader-info ConfigMap ----

  const LeaderPodKey: string := "leaderPod"

  /** A ConfigMap's name and its `Data`, which may be nil. */
  datatype ConfigMap = ConfigMap(name: string, data: Option<map<string, string>>)

  /** The write the callbacks send after their `Get`. */
  datatype ConfigMapWrite = Create(created: ConfigMap) | Update(updated: ConfigMap)

  /** Create-or-update of `leaderPod`: a failed `Get` leads to a `Create` of a
      map holding that key alone; a found map is updated in place, its nil
      `Data` initialised and its other keys kept. */
  function LeaderInfoWrite(got: Result<ConfigMap, ApiError>, cmName: string, leader: string): (w: ConfigMapWrite)
    ensures got.Failure? ==> w == Create(ConfigMap(cmName, Some(map[LeaderPodKey := leader])))
    ensures got.Success? ==>
              && w.Update? && w.updated.name == got.value.name && w.updated.data.Some?
              && w.updated.data.value.Keys == got.value.data.GetOr(map[]).Keys + {LeaderPodKey}
              && w.updated.data.value[LeaderPodKey] == leader
              && forall k :: k in got.value.data.GetOr(map[]) && k != LeaderPodKey ==>
                               w.updated.data.value[k] == got.value.data.value[k]
  {
    match got
    case Failure(_) => Create(ConfigMap(cmName, Some(map[LeaderPodKey := leader])))
    case Success(cm) =>
      var data := cm.data.GetOr(map[]);
      Update(cm.(data := Some(data[LeaderPodKey := leader])))
  }

  /** What a create-or-update that goes through leaves behind: a missing map
      is created under `cmName` holding `leader` alone; an existing map keeps
      its name and every other key and gains or overwrites `leaderPod`. */
  predicate Publishes(stored: Option<ConfigMap>, cmName: string, leader: string, r: Option<ConfigMap>) {
    if stored.None? then r == Some(ConfigMap(cmName, Some(map[LeaderPodKey := leader])))
    else
      && r.Some? && r.value.name == stored.value.name && r.value.data.Some?
      && r.value.data.value.Keys == stored.value.data.GetOr(map[]).Keys + {LeaderPodKey}
      && r.value.data.value[LeaderPodKey] == leader
      && forall k :: k in stored.value.data.GetOr(map[]) && k != LeaderPodKey ==>
                       r.value.data.value[k] == stored.value.data.value[k]
  }

  /** The ConfigMap named `cmName` after the create-or-update, given whether
      it existed, whether the `Get` failed anyway, and whether the write
      failed. A `Create` of a map that already exists is refused by the API. */
  function PublishLeader(stored: Option<ConfigMap>, cmName: string, leader: string,
                         getFails: bool, writeFails: bool): (r: Option<ConfigMap>)
    // a failed write, or a Create refused because the map exists, changes nothing
    ensures writeFails || (stored.Some? && getFails) ==> r == stored
    // otherwise the map is created, or updated keeping its name and other keys
    ensures !writeFails && !(stored.Some? && getFails) ==> Publishes(stored, cmName, leader, r)
  {
    var got := if stored.None? || getFails then Failure(ApiError) else Success(stored.value);
    match LeaderInfoWrite(got, cmName, leader)
    case Create(cm) => if stored.None? && !writeFails then Some(cm) else stored
    case Update(cm) => if !writeFails then Some(cm) else stored
  }

  // ---- The leader-election callbacks ----

  /** The sidecar's flags and environment that the callbacks read. */
  datatype Settings = Settings(podName: string, labelKey: string, labelValue: string, leaderInfoName: string)

  /** The pods and the leader-info ConfigMap, as the API holds them. */
  datatype World = World(pods: Cluster, leaderInfo: Option<ConfigMap>)

  /** The outcome of every API call one callback makes. */
  datatype CallOutcomes = CallOutcomes(
    selfPatchFails: bool,
    cleanup: CleanupOutcomes,
    getFails: bool,
    writeFails: bool)

  /** Merge-patch own pod's labels, unless the patch fails or the pod is gone. */
  function PatchSelf(c: Cluster, self: string, patch: map<string, Option<string>>, fails: bool): (r: Cluster)
    ensures r.Keys == c.Keys
    ensures forall p :: p in c && p != self ==> r[p] == c[p]
    ensures self in c && !fails ==> r[self] == MergePatch(c[self], patch)
    ensures !(self in c && !fails) ==> r == c
  {
    if self in c && !fails then c[self := MergePatch(c[self], patch)] else c
  }

  /** `OnStartedLeading`, without the 5-second re-cleanup goroutine: label
      self, clean up to the holder once, then publish self as leader. */
  function OnStartedLeading(w: World, s: Settings, o: CallOutcomes): (r: World)
    ensures r.pods.Keys == w.pods.Keys
    // own pod: labelled, then stripped again only if the cleanup finds it stale
    ensures s.podName in w.pods && !o.selfPatchFails ==>
              r.pods[s.podName]
              == if Proceeds(o.cleanup) && GetLeaseHolder(o.cleanup.lease).value != s.podName
                    && s.podName !in o.cleanup.failingPatches
                 then Delete(w.pods[s.podName], s.labelKey)
                 else Put(w.pods[s.podName], s.labelKey, s.labelValue)
    // every other pod (and own pod when its patch failed) only goes through the cleanup
    ensures forall p :: p in w.pods && (p != s.podName || o.selfPatchFails) ==>
              r.pods[p] == if Stale(w.pods, o.cleanup, s.labelKey, s.labelValue, p) && p !in o.cleanup.failingPatches
                           then Delete(w.pods[p], s.labelKey) else w.pods[p]
    ensures o.writeFails || (w.leaderInfo.Some? && o.getFails) ==> r.leaderInfo == w.leaderInfo
    ensures !o.writeFails && !(w.leaderInfo.Some? && o.getFails) ==>
              && r.leaderInfo.Some? && r.leaderInfo.value.data.Some?
              && LeaderPodKey in r.leaderInfo.value.data.value
              && r.leaderInfo.value.data.value[LeaderPodKey] == s.podName
    ensures !o.writeFails && !(w.leaderInfo.Some? && o.getFails) ==>
              Publishes(w.leaderInfo, s.leaderInfoName, s.podName, r.leaderInfo)
  {
    var own := if s.podName in w.pods then w.pods[s.podName] else map[];
    MergePatchValuePuts(own, s.labelKey, s.labelValue);
    assert Delete(Put(own, s.labelKey, s.labelValue), s.labelKey) == Delete(own, s.labelKey);
    var labelled := PatchSelf(w.pods, s.podName, SettingPatch(s.labelKey, s.labelValue), o.selfPatchFails);
    World(Cleanup(labelled, o.cleanup, s.labelKey, s.labelValue),
          PublishLeader(w.leaderInfo, s.leaderInfoName, s.podName, o.getFails, o.writeFails))
  }

  /** `OnStoppedLeading`: delete own label, then publish "" as leader. */
  function OnStoppedLeading(w: World, s: Settings, o: CallOutcomes): (r: World)
    ensures r.pods.Keys == w.pods.Keys
    ensures forall p :: p in w.pods && p != s.podName ==> r.pods[p] == w.pods[p]
    ensures s.podName in w.pods ==>
              r.pods[s.podName] == if o.selfPatchFails then w.pods[s.podName] else Delete(w.pods[s.podName], s.labelKey)
    ensures o.writeFails || (w.leaderInfo.Some? && o.getFails) ==> r.leaderInfo == w.leaderInfo
    ensures !o.writeFails && !(w.leaderInfo.Some? && o.getFails) ==>
              && r.leaderInfo.Some? && r.leaderInfo.value.data.Some?
              && LeaderPodKey in r.leaderInfo.value.data.value
              && r.leaderInfo.value.data.value[LeaderPodKey] == ""
    ensures !o.writeFails && !(w.leaderInfo.Some? && o.getFails) ==>
              Publishes(w.leaderInfo, s.leaderInfoName, "", r.leaderInfo)
  {
    MergePatchNullDeletes(if s.podName in w.pods then w.pods[s.podName] else map[], s.labelKey);
    World(PatchSelf(w.pods, s.podName, RemovalPatch(s.labelKey), o.selfPatchFails),
          PublishLeader(w.leaderInfo, s.leaderInfoName, "", o.getFails, o.writeFails))
  }

  /** Gaining leadership while the Lease names this pod, with every call
      succeeding: this pod carries `labelKey=labelValue`, no other pod does,
      and the ConfigMap names this pod. */
  lemma StartedLeadingMarksOnlySelf(w: World, s: Settings, o: CallOutcomes)
    requires s.podName in w.pods
    requires o == CallOutcomes(false, CleanupOutcomes(LeaseFound(Some(s.podName)), true, {}), false, false)
    ensures var after := OnStartedLeading(w, s, o);
            && Matches(after.pods[s.podName], s.labelKey, s.labelValue)
            && (forall p :: p in after.pods && p != s.podName ==> !Matches(after.pods[p], s.labelKey, s.labelValue))
            && after.leaderInfo.Some? && after.leaderInfo.value.data.Some?
            && LeaderPodKey in after.leaderInfo.value.data.value
            && after.leaderInfo.value.data.value[LeaderPodKey] == s.podName
  {
  }

  /** If the Lease has no holder when the cleanup reads it, the cleanup strips
      the label this pod has just set on itself. */
  lemma StartedLeadingWithoutHolderUnlabelsSelf(w: World, s: Settings, o: CallOutcomes)
    requires s.podName in w.pods && s.podName != ""
    requires o.cleanup == CleanupOutcomes(LeaseFound(None), true, {})
    ensures !Matches(OnStartedLeading(w, s, o).pods[s.podName], s.labelKey, s.labelValue)
  {
  }

  /** Losing leadership with every call succeeding: this pod no longer has
      `labelKey` at all, no other pod is touched, and the ConfigMap names no
      leader. */
  lemma StoppedLeadingClearsSelf(w: World, s: Settings, o: CallOutcomes)
    requires s.podName in w.pods
    requires !o.selfPatchFails && !o.getFails && !o.writeFails
    ensures var after := OnStoppedLeading(w, s, o);
            && after.pods[s.podName] == Delete(w.pods[s.podName], s.labelKey)
            && (forall p :: p in w.pods && p != s.podName ==> after.pods[p] == w.pods[p])
            && after.leaderInfo.Some? && after.leaderInfo.value.data.Some?
            && LeaderPodKey in after.leaderInfo.value.data.value
            && after.leaderInfo.value.data.value[LeaderPodKey] == ""
  {
  }
}
