/** Label maps of Kubernetes objects and the two ways the system writes them:
    a read-modify-write `put` of one entry (the Fabric8 `edit` call) and a
    JSON Merge Patch (RFC 7386) whose `labels` member is a flat object of
    strings, where a `null` member deletes the key (section 2 of RFC 7386). */
module Labels {
  import opened Wrappers

  type LabelMap = map<string, string>

  /** A cluster's pods, by name, with their labels. */
  type Cluster = map<string, LabelMap>

  /** Sets one label and leaves every other entry as it was. */
  function Put(m: LabelMap, key: string, value: string): (r: LabelMap)
    ensures key in r && r[key] == value
    ensures r.Keys == m.Keys + {key}
    ensures forall k :: k in m && k != key ==> r[k] == m[k]
  {
    m[key := value]
  }

  /** Removes one label, if present; nothing else changes. */
  function Delete(m: LabelMap, key: string): (r: LabelMap)
    ensures key !in r
    ensures r.Keys == m.Keys - {key}
    ensures forall k :: k in r ==> r[k] == m[k]
  {
    m - {key}
  }

  /** The merge-patch algorithm of section 2 of RFC 7386, restricted to a
      flat object whose members are strings: a `null` member (None) removes
      the key from the target, any other member replaces it, and keys the
      patch does not mention are kept. */
  function MergePatch(target: LabelMap, patch: map<string, Option<string>>): (r: LabelMap)
    ensures forall k :: k in patch && patch[k].None? ==> k !in r
    ensures forall k :: k in patch && patch[k].Some? ==> k in r && r[k] == patch[k].value
    ensures forall k :: k !in patch ==> (k in r <==> k in target)
    ensures forall k :: k !in patch && k in target ==> r[k] == target[k]
  {
    map k | k in (target.Keys + patch.Keys) && !(k in patch && patch[k].None?) ::
      if k in patch then patch[k].value else target[k]
  }

  /** The patch `{"metadata":{"labels":{"<key>":null}}}` is a key deletion. */
  lemma MergePatchNullDeletes(target: LabelMap, key: string)
    ensures MergePatch(target, map[key := None]) == Delete(target, key)
  {
  }

  /** The patch `{"metadata":{"labels":{"<key>":"<value>"}}}` is a put. */
  lemma MergePatchValuePuts(target: LabelMap, key: string, value: string)
    ensures MergePatch(target, map[key := Some(value)]) == Put(target, key, value)
  {
  }
}
