/**
 What a run of renderAndApply makes of every field of every object, stated on the manifests and the
 cluster before it, without the payload that carries it there.
 */
module ManifestMeaning {
  import opened GoText
  import opened Json
  import opened ServerSideApply
  import opened IngressConfig
  import opened Manifests
  import opened ManifestLaws

  // ---------- One field of one object ----------

  /** What the operator sets whatever the manifest says. */
  function Imposed(kind: string, k: Key, owner: string): Option<Json> {
    match k
    case Label("app.opendatahub.io/workbenches") => Some(Text("true"))
    case Label("app.kubernetes.io/part-of") => Some(Text("workbenches"))
    case ControllerRef =>
      if kind in {"Namespace", "CustomResourceDefinition", "ImageStream"} then None else Some(Text(owner))
    case _ => None
  }

  predicate LiveContainer(live: Fields, name: string) {
    exists k :: k in live && (k == Container(name) || (k.Resource? && k.container == name))
  }

  /** A customisation: the replicas of a live Deployment that is not marked managed, and the resources
      of the containers that it and the manifest both have. */
  predicate Customisation(live: Option<Fields>, r: Rendered, k: Key) {
    && r.id.kind == "Deployment" && live.Some?
    && !(MANAGED in live.value && live.value[MANAGED].value == Text("true"))
    && match k
       case Replicas => true
       case Resource(name, _) => Container(name) in r.values && LiveContainer(live.value, name)
       case _ => false
  }

  /** The rules of an aggregated ClusterRole are left to the aggregation controller. */
  predicate LeftToOthers(r: Rendered, k: Key) {
    r.id.kind == "ClusterRole" && Aggregation in r.values && k == Rules
  }

  /** The manager holds the field, alone if it had to change the value. */
  predicate Holds(live: Option<Fields>, k: Key, x: Owned, value: Json) {
    && x.value == value
    && x.managers == (if live.Some? && k in live.value && live.value[k].value == value
                      then live.value[k].managers + {FIELD_OWNER} else {FIELD_OWNER})
  }

  lemma SameContainer(live: Fields, name: string)
    ensures LiveContainer(live, name) <==> HasContainer(ValuesOf(live), name)
  {
    if LiveContainer(live, name) {
      var k :| k in live && (k == Container(name) || (k.Resource? && k.container == name));
      assert ContainerOf(k) == Some(name);
      ContainerKnown(ValuesOf(live), k, name);
    }
    if HasContainer(ValuesOf(live), name) {
      var k :| k in ValuesOf(live) && ContainerOf(k) == Some(name);
      assert k in live;
    }
  }

  lemma ImposedIsMetadata(r: Rendered, k: Key, owner: string)
    ensures k in Base(r, owner) <==> Imposed(r.id.kind, k, owner).Some? || k in r.values
    ensures Imposed(r.id.kind, k, owner).Some? ==> Base(r, owner)[k] == Imposed(r.id.kind, k, owner).value
    ensures Imposed(r.id.kind, k, owner).None? && k in r.values ==> Base(r, owner)[k] == r.values[k]
  {
    assert COMPONENT != PART_OF by { assert COMPONENT.name[4] != PART_OF.name[4]; }
  }

  /** The payload field by field. */
  lemma PayloadAt(live: Option<Fields>, r: Rendered, owner: string, k: Key)
    ensures Customisation(live, r, k) ==> (k in Payload(live, r, owner) <==> k in live.value)
    ensures Customisation(live, r, k) && k in live.value ==> Payload(live, r, owner)[k] == live.value[k].value
    ensures LeftToOthers(r, k) ==> k !in Payload(live, r, owner)
    ensures !Customisation(live, r, k) && !LeftToOthers(r, k) ==>
      if k in Base(r, owner) then k in Payload(live, r, owner) && Payload(live, r, owner)[k] == Base(r, owner)[k]
      else k !in Payload(live, r, owner)
  {
    hide HasContainer, LiveContainer, Base;
    assert "ClusterRole" != "Deployment" by { assert |"ClusterRole"| != |"Deployment"|; }
    BaseContainers(r, owner);
    if k.Resource? && live.Some? {
      SameContainer(live.value, k.container);
    }
  }

  lemma BaseContainers(r: Rendered, owner: string)
    ensures forall name :: Container(name) in Base(r, owner) <==> Container(name) in r.values
    ensures Aggregation in Base(r, owner) <==> Aggregation in r.values
  {
  }

  /** What the manifest says reaches the object: whatever is live, every field of the manifest has the
      manifest's value and the operator as a manager, save what the operator imposes, customisations
      of a live Deployment, and the rules of an aggregated ClusterRole. */
  lemma ManifestReaches(live: Option<Fields>, r: Rendered, owner: string, k: Key)
    requires k in r.values && Imposed(r.id.kind, k, owner).None?
    requires !Customisation(live, r, k) && !LeftToOthers(r, k)
    ensures k in Applied(live, r, owner) && Holds(live, k, Applied(live, r, owner)[k], r.values[k])
  {
    hide Payload, Base, Customisation, LeftToOthers;
    ImposedIsMetadata(r, k, owner);
    PayloadAt(live, r, owner, k);
  }

  /** Both labels and, outside the kinds that are never owned, the controller reference are what the
      operator says, whatever the manifest or the live object had. */
  lemma ImposedReaches(live: Option<Fields>, r: Rendered, owner: string, k: Key)
    requires Imposed(r.id.kind, k, owner).Some?
    ensures k in Applied(live, r, owner)
      && Holds(live, k, Applied(live, r, owner)[k], Imposed(r.id.kind, k, owner).value)
  {
    hide Payload, Base;
    ImposedIsMetadata(r, k, owner);
    PayloadAt(live, r, owner, k);
  }

  /** A customisation stays as it is live, present or absent, whatever the manifest says, and the
      operator takes a share of it. */
  lemma CustomisationStays(live: Option<Fields>, r: Rendered, owner: string, k: Key)
    requires Customisation(live, r, k)
    ensures k in Applied(live, r, owner) <==> k in live.value
    ensures k in live.value ==>
      Applied(live, r, owner)[k] == Owned(live.value[k].value, live.value[k].managers + {FIELD_OWNER})
  {
    assert live.Some?;
    hide Payload, Customisation;
    PayloadAt(live, r, owner, k);
  }

  /** A field the manifest does not have, or leaves to others, goes exactly when the operator alone
      held it; otherwise it keeps its value and its other managers. */
  lemma OtherFieldsStay(live: Option<Fields>, r: Rendered, owner: string, k: Key)
    requires Imposed(r.id.kind, k, owner).None? && !Customisation(live, r, k)
    requires k !in r.values || LeftToOthers(r, k)
    ensures k in Applied(live, r, owner) <==>
      live.Some? && k in live.value && live.value[k].managers != {FIELD_OWNER}
    ensures k in Applied(live, r, owner) ==>
      Applied(live, r, owner)[k] == Owned(live.value[k].value, live.value[k].managers - {FIELD_OWNER})
  {
    hide Payload, Base, Customisation;
    ImposedIsMetadata(r, k, owner);
    PayloadAt(live, r, owner, k);
  }

  // ---------- The run ----------

  /** The namespaced kinds that cleanup looks for. */
  predicate NamespacedOperand(id: Id) {
    || (id.group == "apps" && id.kind == "Deployment")
    || (id.group == "" && id.kind in {"ConfigMap", "Secret", "Service", "ServiceAccount"})
    || (id.group == "networking.k8s.io" && id.kind == "NetworkPolicy")
    || (id.group == "rbac.authorization.k8s.io" && id.kind in {"Role", "RoleBinding"})
  }

  /** The cluster-scoped kinds, all but WorkspaceKind, that cleanup looks for. */
  predicate ClusterOperand(id: Id) {
    || (id.group == "rbac.authorization.k8s.io" && id.kind in {"ClusterRole", "ClusterRoleBinding"})
    || (id.group == "admissionregistration.k8s.io"
        && id.kind in {"MutatingWebhookConfiguration", "ValidatingWebhookConfiguration"})
  }

  /** Cleanup lists the object, at this version, for the operand namespace. */
  predicate ListedAt(id: Id, namespace: string, version: string) {
    || (id.group == "kubeflow.org" && id.kind == "WorkspaceKind" && version == "v1beta1")
    || (ClusterOperand(id) && version == "v1")
    || (NamespacedOperand(id) && id.namespace == namespace && version == "v1")
  }

  lemma KeptMeaning(id: Id, namespace: string, desired: set<Ref>)
    ensures KeptByCleanup(id, namespace, desired) <==>
      forall version :: ListedAt(id, namespace, version) ==> Ref(id, version) in desired
  {
    forall version | ListedAt(id, namespace, version) && Ref(id, version) !in desired
      ensures !KeptByCleanup(id, namespace, desired)
    {
      ListedIsTargeted(id, namespace, version, desired);
    }
    if !KeptByCleanup(id, namespace, desired) {
      var version := TargetedIsListed(id, namespace, desired);
    }
  }

  lemma ListedIsTargeted(id: Id, namespace: string, version: string, desired: set<Ref>)
    requires ListedAt(id, namespace, version) && Ref(id, version) !in desired
    ensures !KeptByCleanup(id, namespace, desired)
  {
    if NamespacedOperand(id) && id.namespace == namespace && version == "v1" {
      var i := if id.kind == "Deployment" then 0 else if id.kind == "ConfigMap" then 1
        else if id.kind == "Secret" then 2 else if id.kind == "Service" then 3
        else if id.kind == "ServiceAccount" then 4 else if id.kind == "NetworkPolicy" then 5
        else if id.kind == "Role" then 6 else 7;
      assert Targets(CLEANUP_KINDS[i], Some(namespace), id) && CLEANUP_KINDS[i].version == version;
    } else {
      var i := if ClusterOperand(id) && version == "v1" then
          (if id.kind == "ClusterRole" then 0 else if id.kind == "ClusterRoleBinding" then 1
           else if id.kind == "MutatingWebhookConfiguration" then 2 else 3)
        else 4;
      assert Targets(CLUSTER_CLEANUP_KINDS[i], None, id) && CLUSTER_CLEANUP_KINDS[i].version == version;
    }
  }

  lemma TargetedIsListed(id: Id, namespace: string, desired: set<Ref>) returns (version: string)
    requires !KeptByCleanup(id, namespace, desired)
    ensures ListedAt(id, namespace, version) && Ref(id, version) !in desired
  {
    if TargetsUndesired(CLEANUP_KINDS, Some(namespace), id, desired) {
      var i :| 0 <= i < |CLEANUP_KINDS| && Targets(CLEANUP_KINDS[i], Some(namespace), id)
        && Ref(id, CLEANUP_KINDS[i].version) !in desired;
      version := CLEANUP_KINDS[i].version;
    } else {
      var i :| 0 <= i < |CLUSTER_CLEANUP_KINDS| && Targets(CLUSTER_CLEANUP_KINDS[i], None, id)
        && Ref(id, CLUSTER_CLEANUP_KINDS[i].version) !in desired;
      version := CLUSTER_CLEANUP_KINDS[i].version;
    }
  }

  lemma OnceApplied(objects: Objects, namespace: string, owner: Owner, rs: seq<Rendered>, i: nat)
    requires i < |rs| && OnlyRendering(rs, i) && rs[i].id != ConfigRef(namespace).id
    requires forall version :: ListedAt(rs[i].id, namespace, version) ==> version == rs[i].version
    ensures Live(Final(objects, namespace, owner, rs), rs[i].id)
      == Some(Applied(Live(objects, rs[i].id), rs[i], owner.uid))
  {
    hide Final, KeptByCleanup, ListedAt, InTurn, Applied, OnlyRendering, Projected;
    var id := rs[i].id;
    assert rs[i] in rs && Ref(id, rs[i].version) in Desired(namespace, rs);
    KeptMeaning(id, namespace, Desired(namespace, rs));
    assert IsRendered(rs, id);
    RenderedSurvives(objects, namespace, owner, rs, id);
    InTurnOnce(Live(AfterConfig(objects, namespace, owner), id), rs, i, owner.uid);
  }

  /** After a run that returns nil, every field of every object rendered once, at the version cleanup
      lists it at if it does, is what the manifest says; the exceptions are the fields the operator
      imposes, customisations, and rules left to others. */
  lemma RunReaches(objects: Objects, namespace: string, owner: Owner, rs: seq<Rendered>, i: nat, k: Key)
    requires i < |rs| && OnlyRendering(rs, i) && rs[i].id != ConfigRef(namespace).id
    requires forall version :: ListedAt(rs[i].id, namespace, version) ==> version == rs[i].version
    ensures rs[i].id in Final(objects, namespace, owner, rs)
    ensures var r, live, g := rs[i], Live(objects, rs[i].id), Final(objects, namespace, owner, rs)[rs[i].id];
      var imposed := Imposed(r.id.kind, k, owner.uid);
      if imposed.Some? then k in g && Holds(live, k, g[k], imposed.value)
      else if Customisation(live, r, k) then
        if k in live.value then k in g && g[k].value == live.value[k].value else k !in g
      else if k in r.values && !LeftToOthers(r, k) then k in g && Holds(live, k, g[k], r.values[k])
      else if live.Some? && k in live.value && live.value[k].managers != {FIELD_OWNER} then
        k in g && g[k] == Owned(live.value[k].value, live.value[k].managers - {FIELD_OWNER})
      else k !in g
  {
    hide Final, ListedAt, Applied, OnlyRendering, Imposed, Customisation, LeftToOthers, Holds, ConfigRef;
    OnceApplied(objects, namespace, owner, rs, i);
    var r, live := rs[i], Live(objects, rs[i].id);
    if Imposed(r.id.kind, k, owner.uid).Some? {
      ImposedReaches(live, r, owner.uid, k);
    } else if Customisation(live, r, k) {
      CustomisationStays(live, r, owner.uid, k);
    } else if k in r.values && !LeftToOthers(r, k) {
      ManifestReaches(live, r, owner.uid, k);
    } else {
      OtherFieldsStay(live, r, owner.uid, k);
    }
  }

  /** What the groups render: every item of every group that could be read, but for the build artefact,
      with the namespace cleared when its kind is cluster-scoped, and nothing else. */
  lemma {:induction false} GroupsRendered(groups: seq<Group>, r: Rendered)
    ensures r in AllRendered(groups) <==>
      exists i, o :: (0 <= i < |groups| && groups[i].Items? && o in groups[i].items
      && !(o.id.kind == "ConfigMap" && o.id.name == "workspacekind-image-params")
      && r == if o.id.kind in CLUSTER_SCOPED then o.(id := o.id.(namespace := "")) else o)
  {
    hide CLUSTER_SCOPED, Prepared;
    if groups != [] {
      var n := |groups| - 1;
      var rest := groups[..n];
      GroupsRendered(rest, r);
      if groups[n].Items? {
        PreparedMeaning(groups[n].items, r);
      }
      assert forall i :: 0 <= i < n ==> rest[i] == groups[i];
    }
  }

  /** An object no manifest renders, the projected ConfigMap aside, is untouched by a run unless it has
      both of the operator's labels and cleanup lists it; then it is deleted. */
  lemma UnrenderedUntouched(objects: Objects, namespace: string, owner: Owner, rs: seq<Rendered>, id: Id)
    requires id != ConfigRef(namespace).id && forall i :: 0 <= i < |rs| ==> rs[i].id != id
    ensures var f := Live(objects, id);
      Live(Final(objects, namespace, owner, rs), id) ==
        if f.Some? && At(f.value, COMPONENT).Some? && f.value[COMPONENT].value == Text("true")
          && At(f.value, PART_OF).Some? && f.value[PART_OF].value == Text("workbenches")
          && exists version :: ListedAt(id, namespace, version) then None else f
  {
    hide Final, ListedAt, ConfigRef;
    OnlyOrphansDeleted(objects, namespace, owner, rs, id);
    KeptMeaning(id, namespace, {});
  }

  /** Namespaces, CustomResourceDefinitions and ImageStreams, the kinds without a controller reference,
      are never collected either. */
  lemma UnownedNeverListed(id: Id, namespace: string, version: string)
    requires ListedAt(id, namespace, version)
    ensures id.kind !in UNOWNED_KINDS
  {
    assert "Namespace"[0] == 'N' && "CustomResourceDefinition"[0] == 'C' && "ImageStream"[0] == 'I';
    assert |"Namespace"| == 9 && |"CustomResourceDefinition"| == 24;
    if NamespacedOperand(id) {
      NamespacedKinds(id);
    } else {
      ClusterKinds(id);
    }
  }

  lemma NamespacedKinds(id: Id)
    requires NamespacedOperand(id)
    ensures 0 < |id.kind| < 15 && id.kind[0] != 'I' && (id.kind[0] == 'N' ==> |id.kind| == 13)
  {
  }

  lemma ClusterKinds(id: Id)
    requires ClusterOperand(id) || id.kind == "WorkspaceKind"
    ensures 0 < |id.kind| && id.kind[0] != 'I' && id.kind[0] != 'N' && (id.kind[0] == 'C' ==> |id.kind| < 20)
  {
  }

  /** The ConfigMap the operator projects says, after the run, what the spec says. */
  lemma ConfigReaches(objects: Objects, namespace: string, owner: Owner, rs: seq<Rendered>)
    requires !IsRendered(rs, ConfigRef(namespace).id)
    ensures ConfigRef(namespace).id in Final(objects, namespace, owner, rs)
    ensures var g := Final(objects, namespace, owner, rs)[ConfigRef(namespace).id];
      && At(g, INGRESSES).Some? && g[INGRESSES].value == Text(owner.ingresses)
      && (At(g, CONTRACT).Some? <==> owner.contract.Some?)
      && (owner.contract.Some? ==> g[CONTRACT].value == Text(owner.contract.value))
  {
    hide Final, Projected, Metadata;
    var id := ConfigRef(namespace).id;
    ConfigSurvives(objects, namespace, owner, rs);
    MetadataHasNoData(owner.uid);
    ProjectionMeaning(if id in objects then objects[id] else map[], Metadata(CONFIG_MAP, owner.uid), owner.ingresses,
      owner.contract);
  }

  lemma MetadataHasNoData(owner: string)
    ensures NoData(Metadata(CONFIG_MAP, owner))
  {
  }
}
