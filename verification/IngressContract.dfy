/**
 The ingress contract evidence gate (internal/controller/ingress_contract.go): the stamp on pod
 templates, the rollout verdict over the consumer deployments, and the published evidence.
 */
module IngressContract {
  import opened GoText
  import opened Status

  datatype Contract = Contract(version: string, sourceGeneration: int)

  const COMPONENT_LABEL: string := "app.opendatahub.io/workbenches"
  const COMPONENT_NAME_LABEL: string := "component.opendatahub.io/name"
  const LABEL_TRUE: string := "true"
  const ODH_CONTROLLER: string := "odh-notebook-controller"
  const KF_CONTROLLER: string := "kf-notebook-controller"

  /** A Deployment as the operator reads it; `owned` says that the Workbenches CR controls it, `stamp`
      is the contract annotation of its pod template and `otherStatus` stands for the status fields
      the operator never looks at. */
  datatype Deployment = Deployment(
    name: string,
    labels: map<string, string>,
    owned: bool,
    generation: int,
    replicas: Option<int>,
    stamp: Option<string>,
    observedGeneration: int,
    readyReplicas: int,
    availableReplicas: int,
    updatedReplicas: int,
    statusReplicas: int,
    otherStatus: string)

  /** ingressContractStamp */
  function Stamp(c: Contract): string {
    c.version + [':'] + Decimal(c.sourceGeneration)
  }

  /** Different contracts have different stamps, whatever the version text. */
  lemma StampInjective(a: Contract, b: Contract)
    ensures Stamp(a) == Stamp(b) <==> a == b
  {
    hide Decimal;
    if Stamp(a) == Stamp(b) {
      LastSeparator(a.version, Decimal(a.sourceGeneration), b.version, Decimal(b.sourceGeneration), ':');
      DecimalInjective(a.sourceGeneration, b.sourceGeneration);
    }
  }

  /** deploymentDesiredReplicas: an unset count means one. */
  function Desired(d: Deployment): int {
    if d.replicas.None? then 1 else d.replicas.value
  }

  /** isNotebookControllerDeployment */
  predicate IsConsumer(d: Deployment) {
    COMPONENT_NAME_LABEL in d.labels && d.labels[COMPONENT_NAME_LABEL] in {ODH_CONTROLLER, KF_CONTROLLER}
  }

  predicate IsComponent(d: Deployment, component: string) {
    COMPONENT_NAME_LABEL in d.labels && d.labels[COMPONENT_NAME_LABEL] == component
  }

  /** The deployment carries exactly this stamp and its rollout is complete. */
  predicate RolledOut(d: Deployment, stamp: string) {
    && Desired(d) >= 1
    && d.stamp == Some(stamp)
    && d.observedGeneration >= d.generation
    && d.updatedReplicas >= Desired(d) && d.readyReplicas >= Desired(d) && d.statusReplicas == Desired(d)
  }

  predicate Present(ds: seq<Deployment>, component: string) {
    exists i :: 0 <= i < |ds| && IsComponent(ds[i], component)
  }

  /** Both consumers are present and every consumer deployment is rolled out with the stamp. */
  predicate GateOpen(ds: seq<Deployment>, stamp: string) {
    && (forall i :: 0 <= i < |ds| && IsConsumer(ds[i]) ==> RolledOut(ds[i], stamp))
    && Present(ds, ODH_CONTROLLER) && Present(ds, KF_CONTROLLER)
  }

  /** m is the highest generation among the consumers, or zero if none is higher. */
  predicate IsHighest(ds: seq<Deployment>, m: int) {
    && m >= 0
    && (forall i :: 0 <= i < |ds| && IsConsumer(ds[i]) ==> ds[i].generation <= m)
    && (m == 0 || exists i :: 0 <= i < |ds| && IsConsumer(ds[i]) && ds[i].generation == m)
  }

  /** ingressContractRolloutGeneration: the verdict and the generation that completed the rollout. */
  method RolloutGeneration(ds: seq<Deployment>, contract: Contract) returns (generation: int, complete: bool)
    ensures complete <==> GateOpen(ds, Stamp(contract))
    ensures complete ==> IsHighest(ds, generation)
    ensures !complete ==> generation == 0
  {
    hide Stamp, IsHighest, Present, GateOpen, IsComponent;
    var expected := Stamp(contract);
    generation := 0;
    var seen: set<string> := {};
    NothingSeen(ds[..0]);
    for i := 0 to |ds|
      invariant forall j :: 0 <= j < i && IsConsumer(ds[j]) ==> RolledOut(ds[j], expected)
      invariant IsHighest(ds[..i], generation)
      invariant forall c :: c in seen <==> c in {ODH_CONTROLLER, KF_CONTROLLER} && Present(ds[..i], c)
    {
      var d := ds[i];
      assert ds[..i + 1] == ds[..i] + [d];
      PresentSnoc(ds[..i], d);
      HighestSnoc(ds[..i], d, generation);
      ComponentOf(d);
      if !IsConsumer(d) {
        continue;
      }
      seen := seen + {d.labels[COMPONENT_NAME_LABEL]};
      if Desired(d) < 1 || d.stamp.None? || d.stamp.value != expected || d.observedGeneration < d.generation {
        ShutBy(ds, i, expected);
        return 0, false;
      }
      if d.updatedReplicas < Desired(d) || d.readyReplicas < Desired(d) || d.statusReplicas != Desired(d) {
        ShutBy(ds, i, expected);
        return 0, false;
      }
      if d.generation > generation {
        generation := d.generation;
      }
    }
    assert ds[..|ds|] == ds;
    GateBySeen(ds, expected);
    if ODH_CONTROLLER !in seen || KF_CONTROLLER !in seen {
      return 0, false;
    }
    return generation, true;
  }

  lemma NothingSeen(ds: seq<Deployment>)
    requires ds == []
    ensures IsHighest(ds, 0) && forall c :: !Present(ds, c)
  {
  }

  /** The component a deployment is seen under. */
  lemma ComponentOf(d: Deployment)
    ensures IsConsumer(d) ==>
      forall c :: IsComponent(d, c) <==> c == d.labels[COMPONENT_NAME_LABEL]
    ensures !IsConsumer(d) ==> !IsComponent(d, ODH_CONTROLLER) && !IsComponent(d, KF_CONTROLLER)
  {
  }

  lemma ShutBy(ds: seq<Deployment>, i: nat, stamp: string)
    requires i < |ds| && IsConsumer(ds[i]) && !RolledOut(ds[i], stamp)
    ensures !GateOpen(ds, stamp)
  {
  }

  lemma GateBySeen(ds: seq<Deployment>, stamp: string)
    requires forall j :: 0 <= j < |ds| && IsConsumer(ds[j]) ==> RolledOut(ds[j], stamp)
    ensures GateOpen(ds, stamp) <==> Present(ds, ODH_CONTROLLER) && Present(ds, KF_CONTROLLER)
  {
  }

  lemma PresentSnoc(ds: seq<Deployment>, d: Deployment)
    ensures forall c :: Present(ds + [d], c) <==> Present(ds, c) || IsComponent(d, c)
  {
    forall c ensures Present(ds + [d], c) <==> Present(ds, c) || IsComponent(d, c) {
      if Present(ds, c) {
        var i :| 0 <= i < |ds| && IsComponent(ds[i], c);
        assert (ds + [d])[i] == ds[i];
      }
      assert (ds + [d])[|ds|] == d;
    }
  }

  lemma HighestSnoc(ds: seq<Deployment>, d: Deployment, m: int)
    requires IsHighest(ds, m)
    ensures IsHighest(ds + [d], if IsConsumer(d) && d.generation > m then d.generation else m)
  {
    var es := ds + [d];
    assert es[|ds|] == d;
    if m > 0 {
      var i :| 0 <= i < |ds| && IsConsumer(ds[i]) && ds[i].generation == m;
      assert es[i] == ds[i];
    }
  }

  lemma HighestUnique(ds: seq<Deployment>, a: int, b: int)
    requires IsHighest(ds, a) && IsHighest(ds, b)
    ensures a == b
  {
  }

  /** The verdict and the generation do not depend on the order the API lists deployments in. */
  lemma GateIgnoresOrder(ds: seq<Deployment>, es: seq<Deployment>, stamp: string)
    requires multiset(ds) == multiset(es)
    ensures GateOpen(ds, stamp) <==> GateOpen(es, stamp)
    ensures forall m :: IsHighest(ds, m) <==> IsHighest(es, m)
  {
    forall d ensures d in ds <==> d in es {
      assert d in ds <==> d in multiset(ds);
    }
    GateOfElements(ds, es, stamp);
    GateOfElements(es, ds, stamp);
    forall m ensures IsHighest(ds, m) <==> IsHighest(es, m) {
      HighestOfElements(ds, es, m);
      HighestOfElements(es, ds, m);
    }
  }

  lemma GateOfElements(ds: seq<Deployment>, es: seq<Deployment>, stamp: string)
    requires forall d :: d in ds <==> d in es
    ensures GateOpen(ds, stamp) ==> GateOpen(es, stamp)
  {
    hide RolledOut, IsComponent, IsConsumer;
    if GateOpen(ds, stamp) {
      forall i | 0 <= i < |es| && IsConsumer(es[i]) ensures RolledOut(es[i], stamp) {
        assert es[i] in ds;
      }
      PresentOfElements(ds, es, ODH_CONTROLLER);
      PresentOfElements(ds, es, KF_CONTROLLER);
    }
  }

  lemma PresentOfElements(ds: seq<Deployment>, es: seq<Deployment>, c: string)
    requires forall d :: d in ds <==> d in es
    requires Present(ds, c)
    ensures Present(es, c)
  {
    hide IsComponent;
    var i :| 0 <= i < |ds| && IsComponent(ds[i], c);
    assert ds[i] in es;
  }

  lemma HighestOfElements(ds: seq<Deployment>, es: seq<Deployment>, m: int)
    requires forall d :: d in ds <==> d in es
    ensures IsHighest(ds, m) ==> IsHighest(es, m)
  {
    hide IsConsumer;
    if IsHighest(ds, m) {
      forall i | 0 <= i < |es| && IsConsumer(es[i]) ensures es[i].generation <= m {
        assert es[i] in ds;
      }
      if m > 0 {
        var i :| 0 <= i < |ds| && IsConsumer(ds[i]) && ds[i].generation == m;
        assert ds[i] in es;
      }
    }
  }

  // ---------- Published evidence ----------

  /** One List of the labelled deployments of the operand namespace. */
  datatype Listing = ListFailed | Listed(items: seq<Deployment>)

  /** The contract key of the notebook controller ConfigMap: unreadable, absent, not a contract,
      or a contract. */
  datatype Projection = Unreadable | NoKey | Malformed | Projected(contract: Contract)

  /** status.ingressContract */
  datatype Evidence = Evidence(version: string, sourceGeneration: int, deploymentGeneration: int)

  const NO_EVIDENCE: Evidence := Evidence("", 0, 0)

  const EVIDENCE_CONDITION: string := "IngressContractReady"

  ghost function Highest(ds: seq<Deployment>): int
    requires exists m :: IsHighest(ds, m)
    ensures IsHighest(ds, Highest(ds))
  {
    var m :| IsHighest(ds, m); m
  }

  lemma HighestExists(ds: seq<Deployment>) returns (m: int)
    ensures IsHighest(ds, m)
  {
    m := 0;
    for i := 0 to |ds|
      invariant IsHighest(ds[..i], m)
    {
      assert ds[..i + 1] == ds[..i] + [ds[i]];
      HighestSnoc(ds[..i], ds[i], m);
      m := if IsConsumer(ds[i]) && ds[i].generation > m then ds[i].generation else m;
    }
    assert ds[..|ds|] == ds;
  }

  /** The deployments whose rollout justifies the condition being True. */
  predicate Proven(contract: Option<Contract>, projection: Projection, listing: Listing) {
    && contract.Some? && projection == Projected(contract.value)
    && listing.Listed? && GateOpen(listing.items, Stamp(contract.value))
  }

  /** syncIngressContractStatus: the evidence and the condition it publishes. */
  ghost function Sync(contract: Option<Contract>, projection: Projection, listing: Listing,
      generation: int): (r: (Evidence, Condition))
    ensures r.1.observedGeneration == generation && r.1.reason != ""
    ensures r.1.status.True? <==> Proven(contract, projection, listing)
    ensures r.1.status.True? ==>
      r.0 == Evidence(contract.value.version, contract.value.sourceGeneration, r.0.deploymentGeneration)
      && IsHighest(listing.items, r.0.deploymentGeneration)
    ensures !r.1.status.True? ==> r.0.deploymentGeneration == 0
  {
    hide Stamp, GateOpen;
    if contract.None? then (NO_EVIDENCE, Condition(False, "IngressContractNotProjected", generation))
    else if projection != Projected(contract.value) then
      (NO_EVIDENCE, Condition(False, "IngressContractProjectionPending", generation))
    else if listing.ListFailed? || !GateOpen(listing.items, Stamp(contract.value)) then
      (Evidence(contract.value.version, contract.value.sourceGeneration, 0),
        Condition(False, "IngressContractRolloutPending", generation))
    else
      assert exists m :: IsHighest(listing.items, m) by { var _ := HighestExists(listing.items); }
      (Evidence(contract.value.version, contract.value.sourceGeneration, Highest(listing.items)),
        Condition(True, "IngressContractReady", generation))
  }

  /** syncIngressContractStatus over the reads it makes. */
  method SyncIngressContractStatus(contract: Option<Contract>, projection: Projection, listing: Listing,
      generation: int)
    returns (evidence: Evidence, condition: Condition)
    ensures (evidence, condition) == Sync(contract, projection, listing, generation)
  {
    hide Stamp, GateOpen, IsHighest;
    if contract.None? {
      return NO_EVIDENCE, Condition(False, "IngressContractNotProjected", generation);
    }
    var c := contract.value;
    if !projection.Projected? || projection.contract != c {
      return NO_EVIDENCE, Condition(False, "IngressContractProjectionPending", generation);
    }
    var rollout, complete := 0, false;
    if listing.Listed? {
      rollout, complete := RolloutGeneration(listing.items, c);
    }
    if !complete {
      return Evidence(c.version, c.sourceGeneration, 0), Condition(False, "IngressContractRolloutPending", generation);
    }
    HighestUnique(listing.items, rollout, Highest(listing.items));
    return Evidence(c.version, c.sourceGeneration, rollout), Condition(True, "IngressContractReady", generation);
  }

  /** How many pods a deployment wants: one if it does not say. */
  function Wanted(d: Deployment): int {
    match d.replicas
    case None => 1
    case Some(n) => n
  }

  /** The deployment's pods all run the template stamped for this contract: the controller has seen the
      template, there are exactly the pods wanted, at least one, and each is updated and ready. */
  predicate Runs(d: Deployment, c: Contract) {
    && d.stamp == Some(c.version + ":" + Decimal(c.sourceGeneration)) && d.generation <= d.observedGeneration
    && 1 <= Wanted(d) == d.statusReplicas && Wanted(d) <= d.updatedReplicas && Wanted(d) <= d.readyReplicas
  }

  predicate HasName(d: Deployment, name: string) {
    "component.opendatahub.io/name" in d.labels && d.labels["component.opendatahub.io/name"] == name
  }

  predicate IsController(d: Deployment) {
    HasName(d, "odh-notebook-controller") || HasName(d, "kf-notebook-controller")
  }

  /** The gate opens exactly when both notebook controllers are listed and every listed deployment of
      theirs runs the contract. */
  lemma GateMeaning(ds: seq<Deployment>, c: Contract)
    ensures GateOpen(ds, Stamp(c)) <==>
      && (exists d :: d in ds && HasName(d, "odh-notebook-controller"))
      && (exists d :: d in ds && HasName(d, "kf-notebook-controller"))
      && forall d :: d in ds && IsController(d) ==> Runs(d, c)
  {
    assert Stamp(c) == c.version + ":" + Decimal(c.sourceGeneration);
    hide Decimal;
    PresentMeaning(ds, ODH_CONTROLLER);
    PresentMeaning(ds, KF_CONTROLLER);
    forall d ensures IsConsumer(d) <==> IsController(d) {
    }
    forall d ensures RolledOut(d, Stamp(c)) <==> Runs(d, c) {
    }
    hide Stamp, IsConsumer, IsController, RolledOut, Runs, HasName;
    if forall i :: 0 <= i < |ds| && IsConsumer(ds[i]) ==> RolledOut(ds[i], Stamp(c)) {
      forall d | d in ds && IsConsumer(d) ensures Runs(d, c) {
        var i :| 0 <= i < |ds| && ds[i] == d;
      }
    } else {
      var i :| 0 <= i < |ds| && IsConsumer(ds[i]) && !RolledOut(ds[i], Stamp(c));
      assert ds[i] in ds;
    }
  }

  lemma PresentMeaning(ds: seq<Deployment>, name: string)
    ensures Present(ds, name) <==> exists d :: d in ds && HasName(d, name)
  {
    if i :| 0 <= i < |ds| && IsComponent(ds[i], name) {
      assert ds[i] in ds && HasName(ds[i], name);
    }
    if d :| d in ds && HasName(d, name) {
      var i :| 0 <= i < |ds| && ds[i] == d;
      assert IsComponent(ds[i], name);
    }
  }

  /** The generation published with an open gate bounds the notebook controllers' generations and is
      one of them, or zero. */
  lemma HighestMeaning(ds: seq<Deployment>, m: int)
    ensures IsHighest(ds, m) <==>
      && m >= 0 && (forall d :: d in ds && IsController(d) ==> d.generation <= m)
      && (m == 0 || exists d :: d in ds && IsController(d) && d.generation == m)
  {
    forall d ensures IsConsumer(d) <==> IsController(d) {
    }
    hide IsConsumer, IsController;
    if IsHighest(ds, m) {
      forall d | d in ds && IsController(d) ensures d.generation <= m {
        var i :| 0 <= i < |ds| && ds[i] == d;
      }
      if m > 0 {
        var i :| 0 <= i < |ds| && IsConsumer(ds[i]) && ds[i].generation == m;
        assert ds[i] in ds;
      }
    } else if m > 0 && exists d :: d in ds && IsController(d) && d.generation == m {
      var d :| d in ds && IsController(d) && d.generation == m;
      var i :| 0 <= i < |ds| && ds[i] == d;
      assert IsConsumer(ds[i]);
    }
  }

  /** What an open gate proves of a deployment whose status counts are consistent: no pod is left that
      runs another template, or that is not ready, and no other contract is stamped on it. */
  lemma OpenGateProves(ds: seq<Deployment>, c: Contract, d: Deployment, other: Contract)
    requires GateOpen(ds, Stamp(c)) && d in ds && IsConsumer(d)
    requires d.updatedReplicas <= d.statusReplicas && d.readyReplicas <= d.statusReplicas
    ensures d.statusReplicas == d.updatedReplicas == d.readyReplicas == Wanted(d) && d.stamp == Some(Stamp(c))
    ensures d.stamp == Some(Stamp(other)) ==> other == c
  {
    hide Stamp, GateOpen;
    GateMeaning(ds, c);
    assert Runs(d, c);
    StampText(c);
    StampInjective(c, other);
  }

  lemma StampText(c: Contract)
    ensures Stamp(c) == c.version + ":" + Decimal(c.sourceGeneration)
  {
  }

  /** The published evidence, over the reads: nothing without a contract or while the ConfigMap does not
      hold exactly it; then its version and source generation; and the consumers' highest generation
      once the rollout is complete, zero until then. Each outcome has its own reason. */
  lemma EvidenceMeaning(contract: Option<Contract>, projection: Projection, listing: Listing, generation: int)
    ensures var (evidence, condition) := Sync(contract, projection, listing, generation);
      if contract.None? then
        evidence == Evidence("", 0, 0) && condition == Condition(False, "IngressContractNotProjected", generation)
      else if !(projection.Projected? && projection.contract.version == contract.value.version
          && projection.contract.sourceGeneration == contract.value.sourceGeneration) then
        evidence == Evidence("", 0, 0) && condition == Condition(False, "IngressContractProjectionPending", generation)
      else if !(listing.Listed? && GateOpen(listing.items, Stamp(contract.value))) then
        evidence == Evidence(contract.value.version, contract.value.sourceGeneration, 0)
        && condition == Condition(False, "IngressContractRolloutPending", generation)
      else
        evidence == Evidence(contract.value.version, contract.value.sourceGeneration, evidence.deploymentGeneration)
        && IsHighest(listing.items, evidence.deploymentGeneration)
        && condition == Condition(True, "IngressContractReady", generation)
  {
    hide GateOpen, Stamp, IsHighest;
    if listing.Listed? {
      var _ := HighestExists(listing.items);
    }
  }

  // ---------- Stamping ----------

  /** A rendered Deployment's pod template annotations. */
  datatype Template = Template(isDeployment: bool, labels: map<string, string>, annotations: map<string, string>)

  const STAMP_ANNOTATION: string := "opendatahub.io/ingress-contract"

  predicate Stamped(t: Template) {
    t.isDeployment && COMPONENT_NAME_LABEL in t.labels
      && t.labels[COMPONENT_NAME_LABEL] in {ODH_CONTROLLER, KF_CONTROLLER}
  }

  function WithStamp(t: Template, stamp: string): Template {
    if Stamped(t) then t.(annotations := t.annotations[STAMP_ANNOTATION := stamp]) else t
  }

  /** stampIngressContract: a nil contract leaves every annotation alone. */
  method StampIngressContract(objects: array<Template>, contract: Option<Contract>)
    modifies objects
    ensures contract.None? ==> objects[..] == old(objects[..])
    ensures contract.Some? ==>
      forall i :: 0 <= i < objects.Length ==> objects[i] == WithStamp(old(objects[i]), Stamp(contract.value))
  {
    hide Stamp;
    if contract.None? {
      return;
    }
    for i := 0 to objects.Length
      invariant forall j :: 0 <= j < i ==> objects[j] == WithStamp(old(objects[j]), Stamp(contract.value))
      invariant forall j :: i <= j < objects.Length ==> objects[j] == old(objects[j])
    {
      if Stamped(objects[i]) {
        objects[i] := objects[i].(annotations := objects[i].annotations[STAMP_ANNOTATION := Stamp(contract.value)]);
      }
    }
  }

  /** The stamp is all that stamping changes, and stamping again with the next contract replaces it. */
  lemma StampReplaced(t: Template, a: string, b: string)
    ensures WithStamp(WithStamp(t, a), b) == WithStamp(t, b)
    ensures WithStamp(t, a).labels == t.labels && WithStamp(t, a).isDeployment == t.isDeployment
    ensures forall k :: k != STAMP_ANNOTATION ==>
      (k in WithStamp(t, a).annotations <==> k in t.annotations)
      && (k in t.annotations ==> WithStamp(t, a).annotations[k] == t.annotations[k])
  {
    assert t.annotations[STAMP_ANNOTATION := a][STAMP_ANNOTATION := b] == t.annotations[STAMP_ANNOTATION := b];
  }

  /** A Deployment of a notebook controller carries the contract on its pod template afterwards; nothing
      else is stamped. */
  lemma StampMeaning(t: Template, c: Contract)
    ensures var s, name := WithStamp(t, Stamp(c)), "component.opendatahub.io/name";
      if t.isDeployment && name in t.labels && t.labels[name] in {"odh-notebook-controller", "kf-notebook-controller"}
      then s == t.(annotations := t.annotations["opendatahub.io/ingress-contract"
        := c.version + ":" + Decimal(c.sourceGeneration)])
      else s == t
  {
    StampText(c);
    hide Stamp, Decimal;
  }
}
