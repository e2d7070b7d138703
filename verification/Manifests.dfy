/**
 What applying the rendered manifests does to the cluster (internal/controller/manifests.go): the
 payload of each object, the desired set, and the garbage collection of what is no longer desired.
 */
module Manifests {
  import opened GoText
  import opened Json
  import opened ServerSideApply
  import opened IngressConfig

  /** The identity of a stored object; an API version is only a way to look at it. */
  datatype Id = Id(group: string, kind: string, namespace: string, name: string)

  /** objectRef: an identity together with the version it was rendered or listed at. */
  datatype Ref = Ref(id: Id, version: string)

  datatype Gvk = Gvk(group: string, version: string, kind: string)

  /** A rendered object. */
  datatype Rendered = Rendered(id: Id, version: string, values: Values)

  type Objects = map<Id, Fields>

  const DEPLOYMENT: string := "Deployment"
  const CLUSTER_ROLE: string := "ClusterRole"
  const CONFIG_MAP: string := "ConfigMap"
  const CONFIG_NAME: string := "odh-notebook-controller-config"
  const IMAGE_PARAMS_CONFIG_MAP: string := "workspacekind-image-params"

  const CLUSTER_SCOPED: set<string> := {"Namespace", CLUSTER_ROLE, "ClusterRoleBinding", "CustomResourceDefinition",
    "MutatingWebhookConfiguration", "ValidatingWebhookConfiguration", "WorkspaceKind"}

  const UNOWNED_KINDS: set<string> := {"Namespace", "CustomResourceDefinition", "ImageStream"}

  /** cleanupGVKs */
  const CLEANUP_KINDS: seq<Gvk> := [
    Gvk("apps", "v1", DEPLOYMENT), Gvk("", "v1", CONFIG_MAP), Gvk("", "v1", "Secret"), Gvk("", "v1", "Service"),
    Gvk("", "v1", "ServiceAccount"), Gvk("networking.k8s.io", "v1", "NetworkPolicy"),
    Gvk("rbac.authorization.k8s.io", "v1", "Role"), Gvk("rbac.authorization.k8s.io", "v1", "RoleBinding")]

  /** cleanupClusterGVKs */
  const CLUSTER_CLEANUP_KINDS: seq<Gvk> := [
    Gvk("rbac.authorization.k8s.io", "v1", CLUSTER_ROLE), Gvk("rbac.authorization.k8s.io", "v1", "ClusterRoleBinding"),
    Gvk("admissionregistration.k8s.io", "v1", "MutatingWebhookConfiguration"),
    Gvk("admissionregistration.k8s.io", "v1", "ValidatingWebhookConfiguration"),
      Gvk("kubeflow.org", "v1beta1", "WorkspaceKind")]

  const COMPONENT: Key := Label("app.opendatahub.io/workbenches")
  const PART_OF: Key := Label("app.kubernetes.io/part-of")
  const MANAGED: Key := Annotation("opendatahub.io/managed")

  // ---------- Payloads ----------

  /** prepareRenderedObjects: the build artefact goes, cluster-scoped objects lose their namespace. */
  function Prepared(objects: seq<Rendered>): seq<Rendered> {
    if objects == [] then []
    else
      var last := objects[|objects| - 1];
      Prepared(objects[..|objects| - 1]) +
      (if last.id.kind == CONFIG_MAP && last.id.name == IMAGE_PARAMS_CONFIG_MAP then []
       else if last.id.kind in CLUSTER_SCOPED then [last.(id := last.id.(namespace := ""))]
       else [last])
  }

  /** The labels and the controller reference every applied object gets. */
  function Metadata(kind: string, owner: string): Values {
    var labels := map[COMPONENT := Text("true"), PART_OF := Text("workbenches")];
    if kind in UNOWNED_KINDS then labels else labels[ControllerRef := Text(owner)]
  }

  /** A rendered object with its labels and owner, before anything is read from the cluster. */
  function Base(r: Rendered, owner: string): Values {
    r.values + Metadata(r.id.kind, owner)
  }

  function ContainerOf(k: Key): Option<string> {
    match k
    case Container(name) => Some(name)
    case Resource(container, _) => Some(container)
    case _ => None
  }

  predicate HasContainer(v: Values, name: string) {
    exists k :: k in v && ContainerOf(k) == Some(name)
  }

  /** Whether the merge takes this field from the live Deployment rather than from the manifest. */
  predicate FromLive(k: Key, rendered: Values, live: Values) {
    k.Replicas? || (k.Resource? && Container(k.container) in rendered && HasContainer(live, k.container))
  }

  /** mergeDeployments on leaf fields. */
  function MergeLive(rendered: Values, live: Values): Values {
    map k | k in rendered.Keys + live.Keys && (if FromLive(k, rendered, live) then k in live else k in rendered) ::
      if FromLive(k, rendered, live) then live[k] else rendered[k]
  }

  predicate IsManaged(f: Fields) {
    MANAGED in f && f[MANAGED].value == Text("true")
  }

  /** What the operator applies for a rendered object, given the live one. */
  function Payload(live: Option<Fields>, r: Rendered, owner: string): Values {
    var base := Base(r, owner);
    if r.id.kind == DEPLOYMENT && live.Some? && !IsManaged(live.value) then MergeLive(base, ValuesOf(live.value))
    else if r.id.kind == CLUSTER_ROLE && Aggregation in base then base - {Rules}
    else base
  }

  function Applied(live: Option<Fields>, r: Rendered, owner: string): Fields {
    Apply(if live.Some? then live.value else map[], Payload(live, r, owner), FIELD_OWNER)
  }

  function Live(objects: Objects, id: Id): Option<Fields> {
    if id in objects then Some(objects[id]) else None
  }

  function ApplyOne(objects: Objects, r: Rendered, owner: string): Objects {
    objects[r.id := Applied(Live(objects, r.id), r, owner)]
  }

  /** applyObjects when every call succeeds. */
  function ApplyAll(objects: Objects, rs: seq<Rendered>, owner: string): Objects {
    if rs == [] then objects else ApplyOne(ApplyAll(objects, rs[..|rs| - 1], owner), rs[|rs| - 1], owner)
  }

  // ---------- Garbage collection ----------

  predicate Labelled(f: Fields) {
    && COMPONENT in f && f[COMPONENT].value == Text("true")
    && PART_OF in f && f[PART_OF].value == Text("workbenches")
  }

  /** A list of this kind, in this namespace if one is given, returns the object. */
  predicate Targets(gvk: Gvk, scope: Option<string>, id: Id) {
    id.group == gvk.group && id.kind == gvk.kind && (scope.Some? ==> id.namespace == scope.value)
  }

  predicate TargetsUndesired(kinds: seq<Gvk>, scope: Option<string>, id: Id, desired: set<Ref>) {
    exists i :: 0 <= i < |kinds| && Targets(kinds[i], scope, id) && Ref(id, kinds[i].version) !in desired
  }

  /** A labelled object of a cleanup kind that is not desired at the version cleanup lists it at. */
  predicate Orphan(objects: Objects, id: Id, namespace: string, desired: set<Ref>) {
    && id in objects && Labelled(objects[id])
    && (TargetsUndesired(CLEANUP_KINDS, Some(namespace), id, desired)
      || TargetsUndesired(CLUSTER_CLEANUP_KINDS, None, id, desired))
  }

  /** What a complete sweep leaves. */
  function Swept(objects: Objects, namespace: string, desired: set<Ref>): Objects {
    map id | id in objects && !Orphan(objects, id, namespace, desired) :: objects[id]
  }

  // ---------- One run ----------

  /** A manifest group: its directory is missing, it cannot be rendered, or its objects. */
  datatype Group = Skipped | RenderFailed | Items(items: seq<Rendered>)

  datatype Owner = Owner(uid: string, ingresses: string, contract: Option<string>)

  function ConfigRef(namespace: string): Ref {
    Ref(Id("", CONFIG_MAP, namespace, CONFIG_NAME), "v1")
  }

  /** The cluster after a successful applyIngressConfig. */
  function AfterConfig(objects: Objects, namespace: string, owner: Owner): Objects {
    var id := ConfigRef(namespace).id;
    var live := if id in objects then objects[id] else map[];
    objects[id := Projected(live, Metadata(CONFIG_MAP, owner.uid), owner.ingresses, owner.contract)]
  }

  /** Everything the groups render, in order. */
  function AllRendered(groups: seq<Group>): seq<Rendered> {
    if groups == [] then []
    else
      var g := groups[|groups| - 1];
      AllRendered(groups[..|groups| - 1]) + (if g.Items? then Prepared(g.items) else [])
  }

  function RefOf(r: Rendered): Ref {
    Ref(r.id, r.version)
  }

  function Desired(namespace: string, rs: seq<Rendered>): set<Ref> {
    {ConfigRef(namespace)} + set r | r in rs :: RefOf(r)
  }

  /** No reference is rendered twice, nor is the ConfigMap the operator projects itself. */
  predicate DistinctRefs(namespace: string, rs: seq<Rendered>) {
    && (forall i, j :: 0 <= i < j < |rs| ==> RefOf(rs[i]) != RefOf(rs[j]))
    && forall i :: 0 <= i < |rs| ==> RefOf(rs[i]) != ConfigRef(namespace)
  }

  /** The cluster after renderAndApply returns nil. */
  function Final(objects: Objects, namespace: string, owner: Owner, rs: seq<Rendered>): Objects {
    Swept(ApplyAll(AfterConfig(objects, namespace, owner), rs, owner.uid), namespace, Desired(namespace, rs))
  }
}
