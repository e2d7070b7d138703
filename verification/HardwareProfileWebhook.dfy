/**
 The hardware profile webhook as it runs: the loops that edit a notebook in place, the
 decisions of an admission request, and what holds for whole requests.
 */
module HardwareProfileWebhook {
  import opened GoText
  import opened HardwareProfile
  import opened HardwareProfileLaws

  const NAME_ANNOTATION: string := "opendatahub.io/hardware-profile-name"
  const NAMESPACE_ANNOTATION: string := "opendatahub.io/hardware-profile-namespace"

  // ---------- The loops ----------

  /** filterOutClaim */
  method FilterOutClaim(claims: seq<Claim>, name: string) returns (remaining: seq<Claim>)
    ensures remaining == FilterOut(claims, name)
  {
    remaining := [];
    for i := 0 to |claims|
      invariant FilterOut(claims, name) == remaining + FilterOut(claims[i..], name)
    {
      var rest := FilterOut(claims[i + 1..], name);
      assert claims[i..][1..] == claims[i + 1..];
      if claims[i].name == name {
        assert [] + rest == rest;
        continue;
      }
      assert remaining + ([claims[i]] + rest) == remaining + [claims[i]] + rest;
      remaining := remaining + [claims[i]];
    }
  }

  /** The set of keys both toleration loops start from. */
  method CollectKeys(ts: seq<Toleration>) returns (keys: set<string>)
    ensures keys == TolerationKeys(ts)
  {
    hide TolerationKey;
    keys := {};
    for i := 0 to |ts|
      invariant keys == TolerationKeys(ts[..i])
    {
      assert ts[..i + 1] == ts[..i] + [ts[i]];
      keys := keys + {TolerationKey(ts[i])};
    }
    assert ts[..|ts|] == ts;
  }

  /** The loop of removeHWPTolerations and of mergeTolerations. */
  method KeepOthers(existing: seq<Toleration>, keys: set<string>, first: seq<Toleration>)
      returns (merged: seq<Toleration>)
    ensures merged == first + NotIn(existing, keys)
  {
    hide TolerationKey;
    merged := first;
    for i := 0 to |existing|
      invariant first + NotIn(existing, keys) == merged + NotIn(existing[i..], keys)
    {
      var rest := NotIn(existing[i + 1..], keys);
      assert existing[i..][1..] == existing[i + 1..] && [] + rest == rest;
      if TolerationKey(existing[i]) !in keys {
        assert merged + ([existing[i]] + rest) == merged + [existing[i]] + rest;
        merged := merged + [existing[i]];
      }
    }
  }

  /** The deleting loop of removeHWPNodeSelector, in whatever order the map yields its keys. */
  method DeletePairs(existing: map<string, string>, hwp: map<string, string>) returns (rest: map<string, string>)
    ensures rest == map k | k in existing && !(k in hwp && hwp[k] == existing[k]) :: existing[k]
  {
    rest := existing;
    var todo := hwp.Keys;
    while todo != {}
      invariant todo <= hwp.Keys
      invariant rest == map k | k in existing && !(k in hwp && k !in todo && hwp[k] == existing[k]) :: existing[k]
    {
      var k :| k in todo;
      todo := todo - {k};
      if k in rest && rest[k] == hwp[k] {
        rest := rest - {k};
      }
    }
  }

  /** The merging loop of mergeNodeSelector. */
  method MergePairs(existing: map<string, string>, hwp: map<string, string>) returns (merged: map<string, string>)
    ensures merged == existing + hwp
  {
    merged := existing;
    var todo := hwp.Keys;
    while todo != {}
      invariant todo <= hwp.Keys
      invariant merged == existing + (map k | k in hwp && k !in todo :: hwp[k])
    {
      var k :| k in todo;
      todo := todo - {k};
      merged := merged[k := hwp[k]];
    }
  }

  /** The loop of notebookMainContainerIndex. */
  method FindMain(containers: seq<Container>, name: string) returns (index: int)
    ensures index == MainIndex(containers, name)
  {
    if |containers| == 1 {
      return 0;
    }
    for i := 0 to |containers|
      invariant FirstNamed(containers, name) ==
        (var j := FirstNamed(containers[i..], name); if j < 0 then -1 else i + j)
    {
      assert containers[i..][1..] == containers[i + 1..];
      if containers[i].name == name {
        return i;
      }
    }
    return -1;
  }

  /** The loop of applyIdentifiersToContainer. */
  method FillSizes(ids: seq<Identifier>, requests: map<string, string>, limits: map<string, string>)
    returns (r: Result<(map<string, string>, map<string, string>)>)
    ensures r == ApplyIdentifiers(ids, requests, limits)
  {
    var rq, lm := requests, limits;
    for i := 0 to |ids|
      invariant ApplyIdentifiers(ids, requests, limits) == ApplyIdentifiers(ids[i..], rq, lm)
    {
      assert ids[i..][1..] == ids[i + 1..];
      if ids[i].identifier == "" || ids[i].defaultCount.Missing? {
        continue;
      }
      if ids[i].defaultCount.Unparsable? {
        return Err;
      }
      var id := ids[i].identifier;
      if id !in rq {
        rq := rq[id := ids[i].defaultCount.text];
      }
      if id !in lm {
        lm := lm[id := rq[id]];
      }
    }
    return Ok((rq, lm));
  }

  // ---------- The notebook object, edited in place ----------

  class NotebookObject {
    var nb: Notebook

    constructor (nb: Notebook)
      ensures this.nb == nb
    {
      this.nb := nb;
    }

    /** removeDRAFromNotebook */
    method RemoveDRAFromNotebook()
      modifies this
      ensures nb == RemoveDRA(old(nb))
    {
      hide FilterOut, MainIndex;
      if nb.resourceClaims.Some? && |nb.resourceClaims.value| > 0 {
        var remaining := FilterOutClaim(nb.resourceClaims.value, DRA_CLAIM);
        nb := nb.(resourceClaims := if |remaining| == 0 then None else Some(remaining));
      }
      assert nb == RemovePodClaim(old(nb));
      var i := FindMain(nb.containers, nb.name);
      if i < 0 || nb.containers[i].resources.None? {
        return;
      }
      var r := nb.containers[i].resources.value;
      if r.claims.Some? && |r.claims.value| > 0 {
        var remaining := FilterOutClaim(r.claims.value, DRA_CLAIM);
        r := r.(claims := if |remaining| == 0 then None else Some(remaining));
      }
      nb := nb.(containers := nb.containers[i := nb.containers[i].(resources := Some(r))]);
    }

    /** removeHWPSettings */
    method RemoveHWPSettings(hwp: Profile)
      modifies this
      ensures nb == RemoveSettings(old(nb), hwp)
    {
      hide RemoveDRA, NotIn, TolerationKeys;
      if hwp.queue != "" {
        nb := nb.(labels := nb.labels - {QUEUE_LABEL});
      }
      if hwp.nodeSelector != map[] && nb.nodeSelector.Some? && nb.nodeSelector.value != map[] {
        var rest := DeletePairs(nb.nodeSelector.value, hwp.nodeSelector);
        nb := nb.(nodeSelector := if rest == map[] then None else Some(rest));
      }
      if hwp.tolerations != [] && nb.tolerations.Some? && nb.tolerations.value != [] {
        var keys := CollectKeys(hwp.tolerations);
        var remaining := KeepOthers(nb.tolerations.value, keys, []);
        assert remaining == NotIn(nb.tolerations.value, keys);
        nb := nb.(tolerations := if remaining == [] then None else Some(remaining));
      }
      RemoveDRAFromNotebook();
    }

    /** applyResourcesToNotebookContainer */
    method ApplyResourcesToContainer(ids: seq<Identifier>, changed: bool) returns (ok: bool)
      modifies this
      ensures ok <==> ApplyResources(old(nb), ids, changed).Ok?
      ensures ok ==> nb == ApplyResources(old(nb), ids, changed).value
    {
      hide FilterOut, MainIndex, ApplyIdentifiers;
      var i := FindMain(nb.containers, nb.name);
      if i < 0 {
        return true;
      }
      var r := ResourcesOf(nb.containers[i]);
      if changed {
        var preserved := FilterOutClaim(OrEmpty(r.claims), DRA_CLAIM);
        r := Resources(None, None, if |preserved| > 0 then Some(preserved) else None);
      }
      var sizes := FillSizes(ids, OrEmptyMap(r.requests), OrEmptyMap(r.limits));
      if sizes.Err? {
        return false;
      }
      r := r.(requests := Some(sizes.value.0), limits := Some(sizes.value.1));
      nb := nb.(containers := nb.containers[i := nb.containers[i].(resources := Some(r))]);
      return true;
    }

    /** applyDRAIfConfigured and applyDRAToNotebook */
    method ApplyDRAIfConfigured(hwp: Profile, env: Lookups) returns (ok: bool)
      modifies this
      ensures ok <==> ApplyDRA(old(nb), hwp, env).Ok?
      ensures ok ==> nb == ApplyDRA(old(nb), hwp, env).value
    {
      hide FilterOut, MainIndex;
      if hwp.draTemplate == "" {
        return true;
      }
      if !env.isSubdomain(hwp.draTemplate) || hwp.draTemplate !in env.templates {
        return false;
      }
      var podClaims := FilterOutClaim(OrEmpty(nb.resourceClaims), DRA_CLAIM);
      nb := nb.(resourceClaims := Some(podClaims + [Claim(DRA_CLAIM, hwp.draTemplate)]));
      var i := FindMain(nb.containers, nb.name);
      if i >= 0 {
        var r := ResourcesOf(nb.containers[i]);
        var claims := FilterOutClaim(OrEmpty(r.claims), DRA_CLAIM);
        r := r.(claims := Some(claims + [Claim(DRA_CLAIM, "")]));
        nb := nb.(containers := nb.containers[i := nb.containers[i].(resources := Some(r))]);
      }
      return true;
    }

    /** applyHardwareProfileToNotebook */
    method ApplyHardwareProfile(hwp: Profile, env: Lookups, changed: bool, isNew: bool) returns (ok: bool)
      modifies this
      ensures ok <==> Apply(old(nb), hwp, env, changed, isNew).Ok?
      ensures ok ==> nb == Apply(old(nb), hwp, env, changed, isNew).value
    {
      hide RemoveDRA, ApplyResources, ApplyDRA, NotIn, TolerationKeys;
      if changed {
        nb := nb.(labels := nb.labels - {QUEUE_LABEL}, nodeSelector := None, tolerations := None);
        RemoveDRAFromNotebook();
      }
      if hwp.identifiers != [] {
        ok := ApplyResourcesToContainer(hwp.identifiers, changed);
        if !ok {
          return;
        }
      }
      if isNew || changed {
        ok := ApplyDRAIfConfigured(hwp, env);
        if !ok {
          return;
        }
      }
      if hwp.queue != "" {
        if !env.isLabelValue(hwp.queue) {
          return false;
        }
        nb := nb.(labels := nb.labels[QUEUE_LABEL := hwp.queue]);
        return true;
      }
      if hwp.nodeSelector != map[] {
        var merged := hwp.nodeSelector;
        if !changed {
          merged := MergePairs(OrEmptyMap(nb.nodeSelector), hwp.nodeSelector);
        }
        nb := nb.(nodeSelector := Some(merged));
      }
      if hwp.tolerations != [] {
        var merged := hwp.tolerations;
        if !changed {
          var keys := CollectKeys(hwp.tolerations);
          merged := KeepOthers(OrEmpty(nb.tolerations), keys, hwp.tolerations);
        }
        nb := nb.(tolerations := Some(merged));
      }
      return true;
    }
  }

  // ---------- Admission requests ----------

  /** A request on a notebook: a creation, or an update with the previous object if it can be read. */
  datatype Operation = Create | Update(prev: Option<Notebook>)

  /** The profiles that can be fetched, by namespace and name. */
  type Profiles = map<(string, string), Profile>

  function Annotation(nb: Notebook, key: string): string {
    if key in nb.annotations then nb.annotations[key] else ""
  }

  function ProfileName(nb: Notebook): string {
    Annotation(nb, NAME_ANNOTATION)
  }

  function ProfileNamespace(nb: Notebook): string {
    var ns := Annotation(nb, NAMESPACE_ANNOTATION);
    if ns == "" then nb.namespace else ns
  }

  /** isProfileNewlyAdded */
  predicate NewlyAdded(op: Operation) {
    op.Update? && op.prev.Some? && ProfileName(op.prev.value) == ""
  }

  /** detectProfileChange */
  predicate ProfileChanged(op: Operation, name: string, namespace: string) {
    match op
    case Create => false
    case Update(None) => true
    case Update(Some(prev)) =>
      ProfileName(prev) != "" && (ProfileName(prev) != name || ProfileNamespace(prev) != namespace)
  }

  /** validateContainerNames */
  predicate ValidContainers(nb: Notebook) {
    |nb.containers| <= 1 || exists i :: 0 <= i < |nb.containers| && nb.containers[i].name == nb.name
  }

  function WithNamespaceAnnotation(nb: Notebook, namespace: string): Notebook {
    if Annotation(nb, NAMESPACE_ANNOTATION)
      == "" then nb.(annotations := nb.annotations[NAMESPACE_ANNOTATION := namespace]) else nb
  }

  function DropNamespaceAnnotation(nb: Notebook): Notebook {
    nb.(annotations := nb.annotations - {NAMESPACE_ANNOTATION})
  }

  /** The removal an update implies when the notebook no longer names a profile. */
  function Release(prev: Notebook, nb: Notebook, profiles: Profiles): Notebook {
    var key := (ProfileNamespace(prev), ProfileName(prev));
    DropNamespaceAnnotation(if key in profiles then RemoveSettings(nb, profiles[key]) else RemoveDRA(nb))
  }

  /** performHardwareProfileInjection: the notebook admitted, or Err when the request is refused. */
  function Admit(op: Operation, nb: Notebook, profiles: Profiles, env: Lookups): Result<Notebook> {
    var name, namespace := ProfileName(nb), ProfileNamespace(nb);
    if name == "" then
      if op.Update? && op.prev.Some? && ProfileName(op.prev.value) != "" then Ok(Release(op.prev.value, nb, profiles))
        else Ok(nb)
    else if namespace == "" then Err
    else if (namespace, name) !in profiles then
      if op.Update? && op.prev.Some? && ProfileName(op.prev.value) == name then Ok(nb) else Err
    else
      var located := WithNamespaceAnnotation(nb, namespace);
      if !ValidContainers(located) then Ok(located)
      else
        Apply(located, profiles[(namespace, name)], env, ProfileChanged(op, name, namespace), op.Create?
          || NewlyAdded(op))
  }

  /** The request handler over the notebook object. */
  method Handle(op: Operation, asked: Notebook, profiles: Profiles, env: Lookups) returns (r: Result<Notebook>)
    ensures r == Admit(op, asked, profiles, env)
  {
    hide Apply, RemoveSettings, RemoveDRA;
    var obj := new NotebookObject(asked);
    var name, namespace := ProfileName(asked), ProfileNamespace(asked);
    if name == "" {
      if op.Update? && op.prev.Some? && ProfileName(op.prev.value) != "" {
        var key := (ProfileNamespace(op.prev.value), ProfileName(op.prev.value));
        if key in profiles {
          obj.RemoveHWPSettings(profiles[key]);
        } else {
          obj.RemoveDRAFromNotebook();
        }
        obj.nb := DropNamespaceAnnotation(obj.nb);
      }
      return Ok(obj.nb);
    }
    if namespace == "" {
      return Err;
    }
    if (namespace, name) !in profiles {
      if op.Update? && op.prev.Some? && ProfileName(op.prev.value) == name {
        return Ok(asked);
      }
      return Err;
    }
    obj.nb := WithNamespaceAnnotation(obj.nb, namespace);
    if !ValidContainers(obj.nb) {
      return Ok(obj.nb);
    }
    var changed := ProfileChanged(op, name, namespace);
    var ok := obj.ApplyHardwareProfile(profiles[(namespace, name)], env, changed, op.Create? || NewlyAdded(op));
    return if ok then Ok(obj.nb) else Err;
  }

  // ---------- Whole requests ----------

  lemma WithPartsFrame(nb: Notebook, p: Parts)
    ensures WithParts(nb, p).annotations == nb.annotations && WithParts(nb, p).namespace == nb.namespace
    ensures WithParts(nb, p).name == nb.name
    ensures |WithParts(nb, p).containers| == |nb.containers|
    ensures forall i :: 0 <= i < |nb.containers| ==> WithParts(nb, p).containers[i].name == nb.containers[i].name
  {
    hide MainIndex;
  }

  /** The webhook's edits never touch annotations, names or the number of containers. */
  lemma ApplyFrame(nb: Notebook, hwp: Profile, env: Lookups, changed: bool, isNew: bool)
    requires Apply(nb, hwp, env, changed, isNew).Ok?
    ensures var out := Apply(nb, hwp, env, changed, isNew).value;
      && out.annotations == nb.annotations && out.namespace == nb.namespace && out.name == nb.name
      && ValidContainers(out) == ValidContainers(nb)
  {
    hide Apply, Applied, WithParts;
    ApplyParts(nb, hwp, env, changed, isNew);
    WithPartsFrame(nb, Applied(PartsOf(nb), HasMain(nb), hwp, env, changed, isNew).value);
  }

  lemma RemoveDRAIgnoresAnnotations(nb: Notebook, annotations: map<string, string>)
    ensures RemoveDRA(nb.(annotations := annotations)) == RemoveDRA(nb).(annotations := annotations)
    ensures RemoveDRA(nb).annotations == nb.annotations
  {
    hide MainIndex, ClaimsWithout;
  }

  lemma RemoveFrame(nb: Notebook, hwp: Profile)
    ensures RemoveSettings(nb, hwp).annotations == nb.annotations
  {
    hide WithParts, Removed, RemoveSettings;
    RemoveParts(nb, hwp);
    WithPartsFrame(nb, Removed(PartsOf(nb), hwp));
  }

  /** The removal path: what it removed, it need not remove again. */
  lemma ReleaseTwice(prev: Notebook, nb: Notebook, profiles: Profiles)
    ensures Release(prev, Release(prev, nb, profiles), profiles) == Release(prev, nb, profiles)
    ensures ProfileName(Release(prev, nb, profiles)) == ProfileName(nb)
  {
    hide RemoveSettings, RemoveDRA;
    assert NAME_ANNOTATION != NAMESPACE_ANNOTATION;
    var key := (ProfileNamespace(prev), ProfileName(prev));
    var rest := nb.annotations - {NAMESPACE_ANNOTATION};
    assert rest - {NAMESPACE_ANNOTATION} == rest;
    if key in profiles {
      RemoveFrame(nb, profiles[key]);
      RemoveIgnoresAnnotations(RemoveSettings(nb, profiles[key]), rest, profiles[key]);
      RemoveSettingsTwice(nb, profiles[key]);
    } else {
      RemoveDRAIgnoresAnnotations(nb, rest);
      RemoveDRAIgnoresAnnotations(RemoveDRA(nb), rest);
      RemoveDRATwice(nb);
    }
  }

  /** Handing the webhook its own output again, in the same request, changes nothing. */
  lemma AdmitStable(op: Operation, nb: Notebook, profiles: Profiles, env: Lookups)
    requires Admit(op, nb, profiles, env).Ok?
    ensures Admit(op, Admit(op, nb, profiles, env).value, profiles, env) == Admit(op, nb, profiles, env)
  {
    hide Apply, ValidContainers, Release;
    var name, namespace := ProfileName(nb), ProfileNamespace(nb);
    if name == "" {
      if op.Update? && op.prev.Some? && ProfileName(op.prev.value) != "" {
        ReleaseTwice(op.prev.value, nb, profiles);
      }
    } else if (namespace, name) in profiles {
      var located := WithNamespaceAnnotation(nb, namespace);
      if ValidContainers(located) {
        var changed, isNew := ProfileChanged(op, name, namespace), op.Create? || NewlyAdded(op);
        ApplyFrame(located, profiles[(namespace, name)], env, changed, isNew);
        ReinvocationStable(located, profiles[(namespace, name)], env, changed, isNew);
      }
    }
  }

  /** Creating a notebook with a profile and later dropping the annotation, the profile unedited
      and the notebook otherwise unchanged, gives the user's settings back exactly when they do
      not overlap the profile's. */
  lemma CreateThenDrop(nb: Notebook, profiles: Profiles, env: Lookups)
    requires ProfileName(nb) != "" && ProfileNamespace(nb) != "" && ValidContainers(nb)
    requires (ProfileNamespace(nb), ProfileName(nb)) in profiles
    requires Admit(Create, nb, profiles, env).Ok?
    ensures
      var stored := Admit(Create, nb, profiles, env).value;
      var asked := stored.(annotations := stored.annotations - {NAME_ANNOTATION});
      var left := Admit(Update(Some(stored)), asked, profiles, env);
      left.Ok? && NAMESPACE_ANNOTATION !in left.value.annotations
      && (SettingsOf(left.value) == SettingsOf(nb) <==>
        NoOverlap(nb, profiles[(ProfileNamespace(nb), ProfileName(nb))]))
  {
    hide Apply, RemoveSettings, ValidContainers, RemoveDRA;
    var namespace, hwp := ProfileNamespace(nb), profiles[(ProfileNamespace(nb), ProfileName(nb))];
    var located := WithNamespaceAnnotation(nb, namespace);
    assert ValidContainers(located) by { ContainersOnly(nb, located); }
    var stored := Apply(located, hwp, env, false, true).value;
    ApplyFrame(located, hwp, env, false, true);
    RemoveUndoesApply(located, hwp, env);
    SettingsIgnoreAnnotations(nb, located.annotations);
    var rest := stored.annotations - {NAME_ANNOTATION};
    RemoveIgnoresAnnotations(stored, rest, hwp);
    SettingsIgnoreAnnotations(RemoveSettings(stored, hwp), rest - {NAMESPACE_ANNOTATION});
  }

  lemma ContainersOnly(a: Notebook, b: Notebook)
    requires a.containers == b.containers && a.name == b.name
    ensures ValidContainers(a) == ValidContainers(b)
  {
  }

  lemma SettingsIgnoreAnnotations(nb: Notebook, annotations: map<string, string>)
    ensures SettingsOf(nb.(annotations := annotations)) == SettingsOf(nb)
    ensures forall hwp :: NoOverlap(nb.(annotations := annotations), hwp) <==> NoOverlap(nb, hwp)
  {
    hide MainIndex, NoOverlapParts;
  }

  lemma RemoveIgnoresAnnotations(nb: Notebook, annotations: map<string, string>, hwp: Profile)
    ensures RemoveSettings(nb.(annotations := annotations), hwp) == RemoveSettings(nb, hwp).(annotations := annotations)
  {
    hide MainIndex, RemoveNodeSelector, RemoveTolerations, ClaimsWithout;
  }

  /** An admitted update from one profile to another forgets the first: the result is a switch
      of the notebook asked for, whatever the previous profile left in it. */
  lemma AdmittedSwitch(prev: Notebook, nb: Notebook, profiles: Profiles, env: Lookups)
    requires ProfileName(prev) != "" && ProfileName(nb) != "" && ProfileNamespace(nb) != ""
    requires (ProfileNamespace(prev), ProfileName(prev)) != (ProfileNamespace(nb), ProfileName(nb))
    requires (ProfileNamespace(nb), ProfileName(nb)) in profiles && ValidContainers(nb)
    requires Admit(Update(Some(prev)), nb, profiles, env).Ok?
    ensures Switched(nb, Admit(Update(Some(prev)), nb, profiles, env).value,
      profiles[(ProfileNamespace(nb), ProfileName(nb))])
  {
    hide Apply, ValidContainers, Switched;
    var hwp := profiles[(ProfileNamespace(nb), ProfileName(nb))];
    var located := WithNamespaceAnnotation(nb, ProfileNamespace(nb));
    ContainersOnly(nb, located);
    SwitchForgetsHistory(located, hwp, env, false);
    SwitchedIgnoresAnnotations(nb, located.annotations, Admit(Update(Some(prev)), nb, profiles, env).value, hwp);
  }

  lemma SwitchedIgnoresAnnotations(a: Notebook, annotations: map<string, string>, x: Notebook, hwp: Profile)
    ensures Switched(a.(annotations := annotations), x, hwp) <==> Switched(a, x, hwp)
  {
    hide MainIndex, ApplyIdentifiers, FilterOut, Managed;
  }
}
