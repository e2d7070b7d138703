/**
 The watches that wake the reconciler (internal/controller/workbenches_controller.go and
 platform_config_predicate.go): an event they drop cannot change what a reconcile would read.
 */
module Watches {
  import opened GoText
  import opened PlatformConfig
  import opened IngressContract
  import opened Reconcile

  // ---------- Deployments ----------

  /** An event of one Deployment of the operand namespace. */
  datatype DeploymentEvent =
    | Created(after: Deployment)
    | Updated(before: Deployment, after: Deployment)
    | Deleted(before: Deployment)

  /** hasComponentLabel */
  predicate HasComponentLabel(d: Deployment) {
    COMPONENT_LABEL in d.labels && d.labels[COMPONENT_LABEL] == LABEL_TRUE
  }

  /** deploymentAvailabilityChangedPredicate */
  predicate Wakes(e: DeploymentEvent) {
    match e
    case Created(d) => HasComponentLabel(d)
    case Deleted(d) => HasComponentLabel(d)
    case Updated(before, after) =>
      if HasComponentLabel(before) != HasComponentLabel(after) then true
      else if !HasComponentLabel(after) then false
      else
        || before.readyReplicas != after.readyReplicas
        || before.availableReplicas != after.availableReplicas
        || before.observedGeneration != after.observedGeneration
        || before.updatedReplicas != after.updatedReplicas
        || before.statusReplicas != after.statusReplicas
        || Desired(before) != Desired(after)
  }

  /** The watch is on owned Deployments: an event reaches the predicate only if the Workbenches CR
      controls the Deployment before or after it. */
  predicate Delivered(e: DeploymentEvent) {
    Wakes(e) && ((!e.Created? && e.before.owned) || (!e.Deleted? && e.after.owned))
  }

  /** What List with the component label returns, whoever owns the Deployments. */
  function Labelled(ds: seq<Deployment>): seq<Deployment> {
    if ds == [] then [] else (if HasComponentLabel(ds[0]) then [ds[0]] else []) + Labelled(ds[1..])
  }

  /** The deployment the event is about, before and after it. */
  function Before(e: DeploymentEvent): seq<Deployment> {
    if e.Created? then [] else [e.before]
  }

  function After(e: DeploymentEvent): seq<Deployment> {
    if e.Deleted? then [] else [e.after]
  }

  /** The update leaves the labels and the spec alone: an edit of the spec, which the stamp is part
      of, moves the generation. */
  predicate StatusOnly(e: DeploymentEvent) {
    e.Updated? ==>
      && e.before.labels == e.after.labels
      && e.before.generation == e.after.generation
      && e.before.stamp == e.after.stamp
  }

  lemma {:induction false} LabelledConcat(a: seq<Deployment>, b: seq<Deployment>)
    ensures Labelled(a + b) == Labelled(a) + Labelled(b)
  {
    hide HasComponentLabel;
    if a == [] {
      assert a + b == b;
    } else {
      LabelledConcat(a[1..], b);
      assert (a + b)[0] == a[0] && (a + b)[1..] == a[1..] + b;
      var first := if HasComponentLabel(a[0]) then [a[0]] else [];
      assert first + (Labelled(a[1..]) + Labelled(b)) == first + Labelled(a[1..]) + Labelled(b);
    }
  }

  /** One listed deployment replaced by another, or the same list. */
  predicate Replaced(ds: seq<Deployment>, es: seq<Deployment>, e: DeploymentEvent) {
    || ds == es
    || (|ds| == |es| && e.Updated? && HasComponentLabel(e.before) && HasComponentLabel(e.after)
        && exists k :: 0 <= k < |ds| && ds[k] == e.before && es == ds[k := e.after])
  }

  lemma DroppedReplaces(pre: seq<Deployment>, e: DeploymentEvent, post: seq<Deployment>)
    requires !Wakes(e)
    ensures Replaced(Labelled(pre + Before(e) + post), Labelled(pre + After(e) + post), e)
  {
    LabelledConcat(pre + Before(e), post);
    LabelledConcat(pre, Before(e));
    LabelledConcat(pre + After(e), post);
    LabelledConcat(pre, After(e));
    if e.Updated? && HasComponentLabel(e.after) {
      var ds, k := Labelled(pre + Before(e) + post), |Labelled(pre)|;
      assert Labelled(Before(e)) == [e.before] && Labelled(After(e)) == [e.after];
      assert ds[k] == e.before;
      assert Labelled(pre + After(e) + post) == ds[k := e.after];
    }
  }

  /** No dropped event changes the verdict of deploymentsAvailability. */
  lemma DroppedKeepsAvailability(pre: seq<Deployment>, e: DeploymentEvent, post: seq<Deployment>)
    requires !Wakes(e)
    ensures AllAvailable(Labelled(pre + Before(e) + post)) <==> AllAvailable(Labelled(pre + After(e) + post))
  {
    var ds, es := Labelled(pre + Before(e) + post), Labelled(pre + After(e) + post);
    DroppedReplaces(pre, e, post);
    if ds != es {
      var k :| 0 <= k < |ds| && ds[k] == e.before && es == ds[k := e.after];
      assert Available(ds[k]) <==> Available(es[k]);
      assert forall i :: 0 <= i < |ds| && i != k ==> ds[i] == es[i];
    }
  }

  // ---------- What an event can change ----------

  /** What at most one deployment adds to the verdict of deploymentsAvailability. */
  datatype Availability = Unlisted | Up | Down

  function AvailabilityOf(x: seq<Deployment>): Availability
    requires |x| <= 1
  {
    if x == [] || !HasComponentLabel(x[0]) then Unlisted else if Available(x[0]) then Up else Down
  }

  /** Before and after the event, whatever else is listed, deploymentsAvailability says the same. */
  ghost predicate SameVerdict(e: DeploymentEvent) {
    forall pre, post :: AllAvailable(Labelled(pre + Before(e) + post)) <==>
      AllAvailable(Labelled(pre + After(e) + post))
  }

  lemma AvailableAround(pre: seq<Deployment>, x: seq<Deployment>, post: seq<Deployment>)
    requires |x| <= 1
    ensures AllAvailable(Labelled(pre + x + post)) <==>
      match AvailabilityOf(x)
      case Unlisted => AllAvailable(Labelled(pre + post))
      case Up => forall d :: d in Labelled(pre + post) ==> Available(d)
      case Down => false
  {
    hide Available, HasComponentLabel;
    LabelledConcat(pre + x, post);
    LabelledConcat(pre, x);
    LabelledConcat(pre, post);
    var a, b, m := Labelled(pre), Labelled(post), Labelled(x);
    assert forall d :: d in a + m + b <==> d in a || d in m || d in b;
    assert forall d :: d in a + b <==> d in a || d in b;
    assert a + [] + b == a + b;
    ByElements(a + m + b);
    ByElements(a + b);
  }

  lemma ByElements(ds: seq<Deployment>)
    ensures AllAvailable(ds) <==> ds != [] && forall d :: d in ds ==> Available(d)
  {
    hide Available;
    if AllAvailable(ds) {
      forall d | d in ds ensures Available(d) {
        var i :| 0 <= i < |ds| && ds[i] == d;
      }
    }
  }

  function ReadyDeployment(): Deployment {
    Deployment("", map[COMPONENT_LABEL := LABEL_TRUE], true, 0, Some(1), None, 0, 1, 1, 1, 1, "")
  }

  /** An event leaves the verdict of deploymentsAvailability alone in every listing exactly when the
      deployment counts the same before and after: not listed, available, or unavailable. */
  lemma AvailabilityExactly(e: DeploymentEvent)
    ensures SameVerdict(e) <==> AvailabilityOf(Before(e)) == AvailabilityOf(After(e))
  {
    hide AvailabilityOf, AllAvailable, Labelled, Available;
    forall pre, post
      ensures AvailabilityOf(Before(e)) == AvailabilityOf(After(e)) ==>
        (AllAvailable(Labelled(pre + Before(e) + post)) <==> AllAvailable(Labelled(pre + After(e) + post)))
    {
      AvailableAround(pre, Before(e), post);
      AvailableAround(pre, After(e), post);
    }
    var r := ReadyDeployment();
    assert Labelled([] + []) == [] && Labelled([r] + []) == [r] && Available(r) by { ListedReady(); }
    ByElements([]);
    ByElements([r]);
    AvailableAround([], Before(e), []);
    AvailableAround([], After(e), []);
    AvailableAround([r], Before(e), []);
    AvailableAround([r], After(e), []);
  }

  lemma ListedReady()
    ensures var r := ReadyDeployment(); Labelled([] + []) == [] && Labelled([r] + []) == [r] && Available(r)
  {
    assert [ReadyDeployment()] + [] == [ReadyDeployment()];
  }

  /** What one deployment adds to the rollout verdict: nothing, a veto, or one consumer with the
      stamp and the generation it is rolled out at. */
  datatype Contribution = Ignored | Vetoes | Counts(component: string, stamp: string, generation: nat)

  /** The stamp the deployment is completely rolled out with. */
  function EffectiveStamp(d: Deployment): Option<string> {
    if Desired(d) >= 1 && d.observedGeneration >= d.generation
       && d.updatedReplicas >= Desired(d) && d.readyReplicas >= Desired(d) && d.statusReplicas == Desired(d)
    then d.stamp else None
  }

  function ContributionOf(d: Deployment): Contribution {
    if !IsConsumer(d) then Ignored
    else if EffectiveStamp(d).None? then Vetoes
    else Counts(d.labels[COMPONENT_NAME_LABEL], EffectiveStamp(d).value, if d.generation > 0 then d.generation else 0)
  }

  /** The gate is open for the stamp and m is the generation it reports. */
  predicate Reports(ds: seq<Deployment>, stamp: string, m: int) {
    GateOpen(ds, stamp) && IsHighest(ds, m)
  }

  function ContributionAmong(x: seq<Deployment>): Contribution
    requires |x| <= 1
  {
    if x == [] || !HasComponentLabel(x[0]) then Ignored else ContributionOf(x[0])
  }

  /** Before and after the event, whatever else is listed and for any stamp, the gate says the same. */
  ghost predicate SameGate(e: DeploymentEvent) {
    forall pre, post, stamp, m ::
      Reports(Labelled(pre + Before(e) + post), stamp, m) <==> Reports(Labelled(pre + After(e) + post), stamp, m)
  }

  predicate SameContribution(e: DeploymentEvent) {
    ContributionAmong(Before(e)) == ContributionAmong(After(e))
  }

  lemma RolledOutIff(d: Deployment, stamp: string)
    ensures RolledOut(d, stamp) <==> EffectiveStamp(d) == Some(stamp)
  {
  }

  lemma ReplacedGate(ds: seq<Deployment>, es: seq<Deployment>, k: nat, stamp: string, m: int)
    requires k < |ds| == |es| && es == ds[k := es[k]]
    requires ContributionOf(ds[k]) == ContributionOf(es[k])
    requires Reports(ds, stamp, m)
    ensures Reports(es, stamp, m)
  {
    hide EffectiveStamp, RolledOut;
    RolledOutIff(ds[k], stamp);
    RolledOutIff(es[k], stamp);
    assert IsConsumer(ds[k]) ==> RolledOut(ds[k], stamp);
    forall c | c in {ODH_CONTROLLER, KF_CONTROLLER} ensures Present(es, c) {
      var i :| 0 <= i < |ds| && IsComponent(ds[i], c);
      assert IsComponent(es[i], c);
    }
    ReplacedHighest(ds, es, k, m);
  }

  lemma ReplacedHighest(ds: seq<Deployment>, es: seq<Deployment>, k: nat, m: int)
    requires k < |ds| == |es| && es == ds[k := es[k]]
    requires IsConsumer(ds[k]) == IsConsumer(es[k])
    requires IsConsumer(ds[k]) ==>
      ds[k].generation == es[k].generation || (ds[k].generation <= 0 && es[k].generation <= 0)
    requires IsHighest(ds, m)
    ensures IsHighest(es, m)
  {
    hide IsConsumer;
    if m > 0 {
      var i :| 0 <= i < |ds| && IsConsumer(ds[i]) && ds[i].generation == m;
      assert IsConsumer(es[i]) && es[i].generation == m;
    }
  }

  /** A deployment that is no consumer and so can stand for none at all. */
  function IdleDeployment(): Deployment {
    Deployment("", map[COMPONENT_LABEL := LABEL_TRUE], true, 0, None, None, 0, 0, 0, 0, 0, "")
  }

  function StandIn(x: seq<Deployment>): Deployment
    requires |x| <= 1
  {
    if x == [] || !HasComponentLabel(x[0]) then IdleDeployment() else x[0]
  }

  lemma IdleFacts()
    ensures HasComponentLabel(IdleDeployment()) && !IsConsumer(IdleDeployment())
    ensures forall c :: !IsComponent(IdleDeployment(), c)
  {
    assert COMPONENT_LABEL[0] != COMPONENT_NAME_LABEL[0];
  }

  lemma IdleAdds(a: seq<Deployment>, d: Deployment, b: seq<Deployment>, stamp: string, m: int)
    requires !IsConsumer(d) && forall c :: !IsComponent(d, c)
    ensures Reports(a + [d] + b, stamp, m) <==> Reports(a + b, stamp, m)
  {
    hide RolledOut, IsConsumer, IsComponent;
    var ds, es := a + [d] + b, a + b;
    assert forall i :: 0 <= i < |a| ==> ds[i] == es[i];
    assert forall i :: |a| <= i < |es| ==> ds[i + 1] == es[i];
    assert ds[|a|] == d;
    forall c ensures Present(ds, c) <==> Present(es, c) {
      if i :| 0 <= i < |ds| && IsComponent(ds[i], c) {
        assert IsComponent(es[if i < |a| then i else i - 1], c);
      }
      if i :| 0 <= i < |es| && IsComponent(es[i], c) {
        assert IsComponent(ds[if i < |a| then i else i + 1], c);
      }
    }
    IdleGate(a, d, b, stamp);
    IdleHighest(a, d, b, m);
  }

  lemma IdleGate(a: seq<Deployment>, d: Deployment, b: seq<Deployment>, stamp: string)
    requires !IsConsumer(d)
    ensures var ds, es := a + [d] + b, a + b;
      (forall i :: 0 <= i < |ds| && IsConsumer(ds[i]) ==> RolledOut(ds[i], stamp)) <==>
      (forall i :: 0 <= i < |es| && IsConsumer(es[i]) ==> RolledOut(es[i], stamp))
  {
    hide RolledOut, IsConsumer;
    var ds, es := a + [d] + b, a + b;
    assert forall i :: 0 <= i < |a| ==> ds[i] == es[i];
    assert forall i :: |a| <= i < |es| ==> ds[i + 1] == es[i];
    assert forall i :: |a| < i < |ds| ==> ds[i] == es[i - 1];
  }

  lemma IdleHighest(a: seq<Deployment>, d: Deployment, b: seq<Deployment>, m: int)
    requires !IsConsumer(d)
    ensures IsHighest(a + [d] + b, m) <==> IsHighest(a + b, m)
  {
    hide IsConsumer;
    var ds, es := a + [d] + b, a + b;
    assert forall i :: 0 <= i < |a| ==> ds[i] == es[i];
    assert forall i :: |a| < i < |ds| ==> ds[i] == es[i - 1];
    assert forall i :: |a| <= i < |es| ==> ds[i + 1] == es[i];
    if IsHighest(ds, m) && m > 0 {
      var i :| 0 <= i < |ds| && IsConsumer(ds[i]) && ds[i].generation == m;
      var j := if i < |a| then i else i - 1;
      assert IsConsumer(es[j]) && es[j].generation == m;
    }
    if IsHighest(es, m) && m > 0 {
      var i :| 0 <= i < |es| && IsConsumer(es[i]) && es[i].generation == m;
      var j := if i < |a| then i else i + 1;
      assert IsConsumer(ds[j]) && ds[j].generation == m;
    }
  }

  lemma StandInReports(pre: seq<Deployment>, x: seq<Deployment>, post: seq<Deployment>, stamp: string, m: int)
    requires |x| <= 1
    ensures Reports(Labelled(pre + x + post), stamp, m) <==>
      Reports(Labelled(pre) + [StandIn(x)] + Labelled(post), stamp, m)
    ensures HasComponentLabel(StandIn(x)) && ContributionOf(StandIn(x)) == ContributionAmong(x)
  {
    hide Reports, HasComponentLabel, IsConsumer, IsComponent, EffectiveStamp, IdleDeployment;
    IdleFacts();
    LabelledConcat(pre + x, post);
    LabelledConcat(pre, x);
    if x == [] || !HasComponentLabel(x[0]) {
      IdleAdds(Labelled(pre), IdleDeployment(), Labelled(post), stamp, m);
      assert Labelled(x) == [] && Labelled(pre) + [] == Labelled(pre);
    } else {
      assert Labelled(x) == [x[0]];
    }
  }

  lemma GateByContribution(e: DeploymentEvent)
    requires SameContribution(e)
    ensures SameGate(e)
  {
    hide Reports, Labelled, ContributionOf, ContributionAmong, StandIn;
    var d, d' := StandIn(Before(e)), StandIn(After(e));
    forall pre, post, stamp, m
      ensures Reports(Labelled(pre + Before(e) + post), stamp, m) <==>
        Reports(Labelled(pre + After(e) + post), stamp, m)
    {
      StandInReports(pre, Before(e), post, stamp, m);
      StandInReports(pre, After(e), post, stamp, m);
      var k, ds, es := |Labelled(pre)|, Labelled(pre) + [d] + Labelled(post), Labelled(pre) + [d'] + Labelled(post);
      assert es == ds[k := d'] && ds == es[k := d];
      if Reports(ds, stamp, m) {
        ReplacedGate(ds, es, k, stamp, m);
      }
      if Reports(es, stamp, m) {
        ReplacedGate(es, ds, k, stamp, m);
      }
    }
  }

  /** A deployment rolled out with the stamp, at generation 0. */
  function RolledOutConsumer(component: string, stamp: string): Deployment {
    Deployment("", map[COMPONENT_LABEL := LABEL_TRUE, COMPONENT_NAME_LABEL := component], true, 0, Some(1), Some(stamp),
      0, 1, 1, 1, 1, "")
  }

  function Other(component: string): string {
    if component == ODH_CONTROLLER then KF_CONTROLLER else ODH_CONTROLLER
  }

  lemma ConsumerFacts(component: string, stamp: string)
    requires component in {ODH_CONTROLLER, KF_CONTROLLER}
    ensures var d := RolledOutConsumer(component, stamp);
      HasComponentLabel(d) && IsConsumer(d) && IsComponent(d, component) && RolledOut(d, stamp)
      && ContributionOf(d) == Counts(component, stamp, 0)
  {
    assert COMPONENT_LABEL[0] != COMPONENT_NAME_LABEL[0];
  }

  /** Beside the other consumer, a deployment opens the gate exactly by its own contribution. */
  lemma OpensWith(d: Deployment, component: string, stamp: string, m: nat)
    requires component in {ODH_CONTROLLER, KF_CONTROLLER}
    ensures Reports([RolledOutConsumer(Other(component), stamp), d], stamp, m) <==>
      ContributionOf(d) == Counts(component, stamp, m)
  {
    hide RolledOutConsumer, EffectiveStamp, RolledOut;
    var o := RolledOutConsumer(Other(component), stamp);
    var ds := [o, d];
    ConsumerFacts(Other(component), stamp);
    RolledOutIff(d, stamp);
    assert ODH_CONTROLLER != KF_CONTROLLER by { assert |ODH_CONTROLLER| != |KF_CONTROLLER|; }
    assert o.generation == 0 by { ConsumerGeneration(Other(component), stamp); }
    assert ds[0] == o && ds[1] == d;
    if ContributionOf(d) == Counts(component, stamp, m) {
      assert IsComponent(ds[1], component) && IsComponent(ds[0], Other(component));
      assert m > 0 ==> IsConsumer(ds[1]) && ds[1].generation == m;
    }
    if Reports(ds, stamp, m) {
      var i :| 0 <= i < |ds| && IsComponent(ds[i], component);
      assert i == 1;
      assert m > 0 ==> exists j :: 0 <= j < |ds| && IsConsumer(ds[j]) && ds[j].generation == m;
    }
  }

  lemma ConsumerGeneration(component: string, stamp: string)
    ensures RolledOutConsumer(component, stamp).generation == 0
  {
  }

  /** Beside both consumers, a deployment that is no consumer keeps the gate open and a veto shuts it. */
  lemma VetoShuts(d: Deployment)
    requires !ContributionOf(d).Counts?
    ensures Reports([RolledOutConsumer(ODH_CONTROLLER, ""), RolledOutConsumer(KF_CONTROLLER, ""), d], "", 0) <==>
      ContributionOf(d).Ignored?
  {
    hide RolledOutConsumer, EffectiveStamp, RolledOut;
    var a, b := RolledOutConsumer(ODH_CONTROLLER, ""), RolledOutConsumer(KF_CONTROLLER, "");
    var ds := [a, b, d];
    ConsumerFacts(ODH_CONTROLLER, "");
    ConsumerFacts(KF_CONTROLLER, "");
    ConsumerGeneration(ODH_CONTROLLER, "");
    ConsumerGeneration(KF_CONTROLLER, "");
    RolledOutIff(d, "");
    assert ds[0] == a && ds[1] == b && ds[2] == d;
    assert IsComponent(ds[0], ODH_CONTROLLER) && IsComponent(ds[1], KF_CONTROLLER);
  }

  lemma {:induction false} AllLabelled(ds: seq<Deployment>)
    requires forall i :: 0 <= i < |ds| ==> HasComponentLabel(ds[i])
    ensures Labelled(ds) == ds
  {
    hide HasComponentLabel;
    if ds != [] {
      AllLabelled(ds[1..]);
    }
  }

  /** Deployments that contribute differently are told apart by some listing. */
  lemma ToldApart(before: Deployment, after: Deployment)
    requires HasComponentLabel(before) && HasComponentLabel(after)
    requires ContributionOf(before) != ContributionOf(after)
    ensures exists pre, stamp, m ::
      Reports(Labelled(pre + [before]), stamp, m) != Reports(Labelled(pre + [after]), stamp, m)
  {
    hide Reports, RolledOutConsumer, HasComponentLabel, IsConsumer, EffectiveStamp;
    var x, y := ContributionOf(before), ContributionOf(after);
    if x.Counts? || y.Counts? {
      var c := if x.Counts? then x else y;
      var d := if x.Counts? then before else after;
      assert c.component in {ODH_CONTROLLER, KF_CONTROLLER} by { CountsConsumer(d); }
      var pre := [RolledOutConsumer(Other(c.component), c.stamp)];
      ConsumerFacts(Other(c.component), c.stamp);
      OpensWith(before, c.component, c.stamp, c.generation);
      OpensWith(after, c.component, c.stamp, c.generation);
      AllLabelled(pre + [before]);
      AllLabelled(pre + [after]);
      assert pre + [before] == [pre[0], before] && pre + [after] == [pre[0], after];
      assert Reports(Labelled(pre + [before]), c.stamp, c.generation)
          != Reports(Labelled(pre + [after]), c.stamp, c.generation);
    } else {
      var pre := [RolledOutConsumer(ODH_CONTROLLER, ""), RolledOutConsumer(KF_CONTROLLER, "")];
      ConsumerFacts(ODH_CONTROLLER, "");
      ConsumerFacts(KF_CONTROLLER, "");
      VetoShuts(before);
      VetoShuts(after);
      AllLabelled(pre + [before]);
      AllLabelled(pre + [after]);
      assert pre + [before] == [pre[0], pre[1], before] && pre + [after] == [pre[0], pre[1], after];
      assert Reports(Labelled(pre + [before]), "", 0) != Reports(Labelled(pre + [after]), "", 0);
    }
  }

  lemma CountsConsumer(d: Deployment)
    requires ContributionOf(d).Counts?
    ensures ContributionOf(d).component in {ODH_CONTROLLER, KF_CONTROLLER}
  {
  }

  /** An event leaves the rollout gate and the generation it reports alone, in every listing and for
      every stamp, exactly when the deployment contributes the same before and after. */
  lemma GateExactly(e: DeploymentEvent)
    ensures SameGate(e) <==> SameContribution(e)
  {
    hide Reports, Labelled, ContributionOf, ContributionAmong, HasComponentLabel, StandIn;
    if SameContribution(e) {
      GateByContribution(e);
    } else {
      var d, d' := StandIn(Before(e)), StandIn(After(e));
      StandInReports([], Before(e), [], "", 0);
      StandInReports([], After(e), [], "", 0);
      ToldApart(d, d');
      var pre, stamp, m :| Reports(Labelled(pre + [d]), stamp, m) != Reports(Labelled(pre + [d']), stamp, m);
      StandInReports(pre, Before(e), [], stamp, m);
      StandInReports(pre, After(e), [], stamp, m);
      LabelledLast(pre, d);
      LabelledLast(pre, d');
      assert Reports(Labelled(pre + Before(e) + []), stamp, m) != Reports(Labelled(pre + After(e) + []), stamp, m);
    }
  }

  lemma LabelledLast(pre: seq<Deployment>, d: Deployment)
    requires HasComponentLabel(d)
    ensures Labelled(pre + [d]) == Labelled(pre) + [d] + Labelled([])
  {
    LabelledConcat(pre, [d]);
    assert Labelled([d]) == [d];
  }

  /** What an undelivered event may do without anybody noticing: it changes neither verdict, in any
      listing, exactly when the deployment counts and contributes the same before and after. */
  predicate Harmless(e: DeploymentEvent) {
    AvailabilityOf(Before(e)) == AvailabilityOf(After(e)) && SameContribution(e)
  }

  lemma HarmlessExactly(e: DeploymentEvent)
    ensures SameVerdict(e) && SameGate(e) <==> Harmless(e)
  {
    hide SameVerdict, SameGate, SameContribution, AvailabilityOf;
    AvailabilityExactly(e);
    GateExactly(e);
  }

  /** The verdicts are read off every labelled Deployment, but only owned ones are watched: somebody
      else's unavailable Deployment with the component label turns a positive verdict and wakes nobody. */
  lemma UnownedUnseen(name: string) returns (pre: seq<Deployment>, e: DeploymentEvent)
    ensures e.Created? && HasComponentLabel(e.after) && !e.after.owned && Wakes(e) && !Delivered(e)
    ensures AllAvailable(Labelled(pre + Before(e))) && !AllAvailable(Labelled(pre + After(e)))
  {
    hide Labelled;
    var r := ReadyDeployment();
    var d := Deployment(name, map[COMPONENT_LABEL := LABEL_TRUE], false, 1, Some(0), None, 1, 0, 0, 0, 0, "");
    pre, e := [r], Created(d);
    ListedReady();
    ByElements([r]);
    AvailableAround([r], [], []);
    AvailableAround([r], [d], []);
    assert pre + Before(e) == [r] + [] + [] && pre + After(e) == [r] + [d] + [];
  }

  /** In particular no dropped status-only event changes the rollout gate or the generation. */
  lemma DroppedKeepsGate(pre: seq<Deployment>, e: DeploymentEvent, post: seq<Deployment>, stamp: string)
    requires !Wakes(e) && StatusOnly(e)
    ensures GateOpen(Labelled(pre + Before(e) + post), stamp) <==> GateOpen(Labelled(pre + After(e) + post), stamp)
    ensures forall m :: IsHighest(Labelled(pre + Before(e) + post), m) <==>
      IsHighest(Labelled(pre + After(e) + post), m)
  {
    hide GateOpen, IsHighest, Labelled, ContributionOf;
    var ds, es := Labelled(pre + Before(e) + post), Labelled(pre + After(e) + post);
    DroppedReplaces(pre, e, post);
    forall m ensures IsHighest(ds, m) <==> IsHighest(es, m) {
      if ds != es {
        var k :| 0 <= k < |ds| && ds[k] == e.before && es == ds[k := e.after];
        assert ds == es[k := ds[k]];
        if IsHighest(ds, m) {
          ReplacedHighest(ds, es, k, m);
        }
        if IsHighest(es, m) {
          ReplacedHighest(es, ds, k, m);
        }
      }
    }
    StatusOnlyContribution(e);
    GateExactly(e);
    var m := HighestExists(ds);
    assert Reports(ds, stamp, m) <==> Reports(es, stamp, m);
  }

  lemma StatusOnlyContribution(e: DeploymentEvent)
    requires !Wakes(e) && StatusOnly(e)
    ensures SameContribution(e)
  {
  }

  const ODH_LABELS: map<string, string> := map[COMPONENT_LABEL := LABEL_TRUE, COMPONENT_NAME_LABEL := ODH_CONTROLLER]
  const KF_LABELS: map<string, string> := map[COMPONENT_LABEL := LABEL_TRUE, COMPONENT_NAME_LABEL := KF_CONTROLLER]

  /** The restriction to status-only updates is needed: an edit of a consumer's spec that bumps its
      generation is dropped, yet closes the gate until the Deployment controller observes it. */
  lemma DroppedSpecEdit(stamp: string) returns (pre: seq<Deployment>, e: DeploymentEvent)
    ensures !Wakes(e) && !StatusOnly(e)
    ensures GateOpen(Labelled(pre + Before(e)), stamp) && !GateOpen(Labelled(pre + After(e)), stamp)
  {
    var kf := Deployment("kf", KF_LABELS, true, 1, Some(1), Some(stamp), 1, 1, 1, 1, 1, "");
    var odh := Deployment("odh", ODH_LABELS, true, 1, Some(1), Some(stamp), 1, 1, 1, 1, 1, "");
    pre, e := [kf], Updated(odh, odh.(generation := 2));
    LabelledConcat(pre, Before(e));
    LabelledConcat(pre, After(e));
    assert COMPONENT_LABEL != COMPONENT_NAME_LABEL by { assert COMPONENT_LABEL[0] != COMPONENT_NAME_LABEL[0]; }
    var ds, es := Labelled(pre + Before(e)), Labelled(pre + After(e));
    assert ds == [kf, odh] && es == [kf, e.after];
    assert IsComponent(ds[0], KF_CONTROLLER) && IsComponent(ds[1], ODH_CONTROLLER);
    assert IsConsumer(es[1]) && !RolledOut(es[1], stamp);
  }

  // ---------- The platform ConfigMap ----------

  const CONFIG_MAP_NAME: string := "odh-workbenches-config"
  const NAMESPACE_ODH: string := "opendatahub"
  const NAMESPACE_RHOAI: string := "redhat-ods-applications"

  predicate IsLabelChar(c: char) {
    'a' <= c <= 'z' || '0' <= c <= '9' || c == '-'
  }

  /** IsDNS1123Label */
  predicate IsDnsLabel(name: string) {
    && 0 < |name| <= 63 && (forall c :: c in name ==> IsLabelChar(c))
    && name[0] != '-' && name[|name| - 1] != '-'
  }

  /** ValidApplicationsNamespace of the operator's APPLICATIONS_NAMESPACE. */
  function ConfiguredNamespace(setting: string): string {
    if IsDnsLabel(TrimSpace(setting)) then TrimSpace(setting) else ""
  }

  /** resolveOperandNamespace */
  function OperandNamespace(setting: string, platform: string): string {
    if ConfiguredNamespace(setting) != "" then ConfiguredNamespace(setting)
    else if platform == SPEC_SELF_MANAGED then NAMESPACE_RHOAI
    else NAMESPACE_ODH
  }

  /** platformConfigWatchNamespaces */
  function WatchedNamespaces(setting: string): seq<string> {
    if ConfiguredNamespace(setting) != "" then [ConfiguredNamespace(setting)] else [NAMESPACE_ODH, NAMESPACE_RHOAI]
  }

  datatype ConfigMap = ConfigMap(name: string, namespace: string, data: Option<map<string, string>>)

  datatype ConfigEvent =
    | ConfigCreated(after: ConfigMap)
    | ConfigUpdated(before: ConfigMap, after: ConfigMap)
    | ConfigDeleted(before: ConfigMap)

  function DataOf(cm: ConfigMap): map<string, string> {
    if cm.data.Some? then cm.data.value else map[]
  }

  const NUL: char := '\U{0}'

  /** platformConfigValue */
  function ConfigValue(cm: ConfigMap): string {
    if cm.data.None? then ""
    else
      var data := cm.data.value;
      Field(data, NAME_KEY) + [NUL] + Field(data, VERSION_KEY) + [NUL] + Field(data, PLATFORM_VERSION_KEY)
  }

  /** platformConfigChangedPredicate.matches */
  predicate Matches(namespaces: seq<string>, cm: ConfigMap) {
    cm.name == CONFIG_MAP_NAME && cm.namespace in namespaces
  }

  /** platformConfigChangedPredicate */
  predicate Passes(namespaces: seq<string>, e: ConfigEvent) {
    match e
    case ConfigCreated(cm) => Matches(namespaces, cm)
    case ConfigDeleted(cm) => Matches(namespaces, cm)
    case ConfigUpdated(before, after) => Matches(namespaces, after) && ConfigValue(before) != ConfigValue(after)
  }

  /** What the mapper sees when it reads the Workbenches CR. */
  datatype CrRead = NoCr | Cr(platform: string)

  /** mapPlatformConfigToWorkbenches */
  predicate Maps(setting: string, cr: CrRead, cm: ConfigMap) {
    && cm.name == CONFIG_MAP_NAME
    && (if cr.NoCr? then cm.namespace in WatchedNamespaces(setting)
      else cm.namespace == OperandNamespace(setting, cr.platform))
  }

  function Subject(e: ConfigEvent): ConfigMap {
    if e.ConfigDeleted? then e.before else e.after
  }

  predicate Enqueues(setting: string, cr: CrRead, e: ConfigEvent) {
    Passes(WatchedNamespaces(setting), e) && Maps(setting, cr, Subject(e))
  }

  function ReadBefore(e: ConfigEvent): ConfigRead {
    if e.ConfigCreated? then Absent else Data(DataOf(e.before))
  }

  function ReadAfter(e: ConfigEvent): ConfigRead {
    if e.ConfigDeleted? then Absent else Data(DataOf(e.after))
  }

  predicate NulFree(config: ConfigRead) {
    config.Data? ==> NUL !in Field(config.data, NAME_KEY) && NUL !in Field(config.data, VERSION_KEY)
  }

  /** An event of the ConfigMap a reconcile of this CR reads. */
  predicate Concerns(setting: string, platform: string, e: ConfigEvent) {
    && Subject(e).name == CONFIG_MAP_NAME && Subject(e).namespace == OperandNamespace(setting, platform)
    && (e.ConfigUpdated? ==> e.before.name == e.after.name && e.before.namespace == e.after.namespace)
  }

  /** The namespace a reconcile uses is always watched, so the predicate and the mapper agree. */
  lemma OperandNamespaceWatched(setting: string, platform: string)
    ensures OperandNamespace(setting, platform) in WatchedNamespaces(setting)
  {
    hide TrimSpace, IsDnsLabel;
    assert WatchedNamespaces(setting)[0] in WatchedNamespaces(setting);
  }

  lemma ValueDeterminesFields(before: ConfigMap, after: ConfigMap)
    requires NulFree(Data(DataOf(before))) && NulFree(Data(DataOf(after)))
    requires ConfigValue(before) == ConfigValue(after)
    ensures forall key :: key in {NAME_KEY, VERSION_KEY, PLATFORM_VERSION_KEY} ==>
      Field(DataOf(before), key) == Field(DataOf(after), key)
  {
    hide Field;
    if before.data.Some? && after.data.Some? {
      var b, a := before.data.value, after.data.value;
      var bRest, aRest := Field(b, VERSION_KEY) + [NUL] + Field(b, PLATFORM_VERSION_KEY),
        Field(a, VERSION_KEY) + [NUL] + Field(a, PLATFORM_VERSION_KEY);
      assert ConfigValue(before) == Field(b, NAME_KEY) + [NUL] + bRest;
      assert ConfigValue(after) == Field(a, NAME_KEY) + [NUL] + aRest;
      FirstSeparator(Field(b, NAME_KEY), bRest, Field(a, NAME_KEY), aRest, NUL);
      FirstSeparator(Field(b, VERSION_KEY), Field(b, PLATFORM_VERSION_KEY), Field(a, VERSION_KEY),
        Field(a, PLATFORM_VERSION_KEY), NUL);
    }
  }

  /** No lost wakeup: an event of the platform ConfigMap that changes the distribution or the
      version a reconcile reads enqueues one, as long as the fields hold no NUL. */
  lemma ConfigChangeWakes(setting: string, platform: string, e: ConfigEvent)
    requires Concerns(setting, platform, e) && NulFree(ReadBefore(e)) && NulFree(ReadAfter(e))
    requires ReadDistribution(ReadBefore(e)) != ReadDistribution(ReadAfter(e))
      || ReadVersion(ReadBefore(e)) != ReadVersion(ReadAfter(e))
    ensures Enqueues(setting, Cr(platform), e) && Enqueues(setting, NoCr, e)
  {
    hide Field, ValidFields, ConfigValue, OperandNamespace, WatchedNamespaces;
    OperandNamespaceWatched(setting, platform);
    if e.ConfigUpdated? && ConfigValue(e.before) == ConfigValue(e.after) {
      ValueDeterminesFields(e.before, e.after);
      assert false;
    }
  }

  lemma AcceptedIsNulFree(config: ConfigRead)
    requires ReadDistribution(config).Ok?
    ensures NulFree(config)
  {
    hide Field;
  }

  /** Between two configurations the reconciler accepts no change is lost at all: an accepted
      distribution holds no control character, so no NUL. */
  lemma AcceptedChangeWakes(setting: string, platform: string, e: ConfigEvent)
    requires Concerns(setting, platform, e)
    requires ReadDistribution(ReadBefore(e)).Ok? && ReadDistribution(ReadAfter(e)).Ok?
    requires ReadDistribution(ReadBefore(e)) != ReadDistribution(ReadAfter(e))
      || ReadVersion(ReadBefore(e)) != ReadVersion(ReadAfter(e))
    ensures Enqueues(setting, Cr(platform), e)
  {
    hide Field, ConfigValue, OperandNamespace, WatchedNamespaces, Enqueues, Concerns, ReadDistribution, ReadVersion,
         NulFree;
    AcceptedIsNulFree(ReadBefore(e));
    AcceptedIsNulFree(ReadAfter(e));
    ConfigChangeWakes(setting, platform, e);
  }

  lemma AbsentField(data: map<string, string>, key: string)
    requires key !in data
    ensures Field(data, key) == ""
  {
  }

  lemma TrimmedField(data: map<string, string>, key: string)
    requires key in data && Trimmed(data[key])
    ensures Field(data, key) == data[key]
  {
    hide TrimSpace;
    TrimSpaceMiddle(data[key]);
  }

  lemma JoinedValue(version: string, platformVersion: string, cm: ConfigMap)
    requires Trimmed(version) && Trimmed(platformVersion)
    requires cm.data == Some(map[VERSION_KEY := version, PLATFORM_VERSION_KEY := platformVersion])
    ensures ConfigValue(cm) == [NUL] + version + [NUL] + platformVersion
    ensures ReadVersion(Data(DataOf(cm))) == Ok(platformVersion)
  {
    hide Field, IsSpace;
    assert |VERSION_KEY| != |PLATFORM_VERSION_KEY| && NAME_KEY[13] != VERSION_KEY[13]
      && |NAME_KEY| != |PLATFORM_VERSION_KEY|;
    AbsentField(cm.data.value, NAME_KEY);
    TrimmedField(cm.data.value, VERSION_KEY);
    TrimmedField(cm.data.value, PLATFORM_VERSION_KEY);
  }

  /** With a NUL in the data a change can be lost: the two values below join to the same text, and
      the version read changes with it. */
  lemma NulLosesChange(setting: string) returns (e: ConfigEvent)
    ensures Concerns(setting, OPEN_DATA_HUB, e) && !Enqueues(setting, Cr(OPEN_DATA_HUB), e)
    ensures ReadVersion(ReadBefore(e)) != ReadVersion(ReadAfter(e))
  {
    hide OperandNamespace, WatchedNamespaces, ConfigValue, ReadVersion;
    var ns := OperandNamespace(setting, OPEN_DATA_HUB);
    var before := ConfigMap(CONFIG_MAP_NAME, ns,
      Some(map[VERSION_KEY := "1", PLATFORM_VERSION_KEY := ['a', NUL, 'b']]));
    var after := ConfigMap(CONFIG_MAP_NAME, ns, Some(map[VERSION_KEY := ['1', NUL, 'a'], PLATFORM_VERSION_KEY := "b"]));
    e := ConfigUpdated(before, after);
    JoinedValue("1", ['a', NUL, 'b'], before);
    JoinedValue(['1', NUL, 'a'], "b", after);
    assert [NUL] + "1" + [NUL] + ['a', NUL, 'b'] == [NUL] + ['1', NUL, 'a'] + [NUL] + "b";
    assert |['a', NUL, 'b']| != |"b"|;
  }
}
