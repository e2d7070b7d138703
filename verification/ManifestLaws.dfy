/**
 Laws of one and of two runs of renderAndApply.
 */
module ManifestLaws {
  import opened GoText
  import opened Json
  import opened ServerSideApply
  import opened IngressConfig
  import opened Manifests

  // ---------- One object applied twice ----------

  /** Applying the same rendered object again changes nothing. */
  predicate Stable(live: Option<Fields>, r: Rendered, owner: string) {
    Applied(Some(Applied(live, r, owner)), r, owner) == Applied(live, r, owner)
  }

  /** Whether the live Deployment is marked managed once the manifest is applied: the manifest says
      so, or it is silent and the mark is not the operator's alone. */
  predicate ManagedAfter(f: Fields, r: Rendered) {
    if MANAGED in r.values then r.values[MANAGED] == Text("true")
    else IsManaged(f) && f[MANAGED].managers != {FIELD_OWNER}
  }

  /** A customisation the manifest does not have and that is not the operator's alone, so that an
      apply of the manifest leaves it behind. */
  predicate ForeignExtra(f: Fields, base: Values) {
    exists k :: k in f && k !in base && f[k].managers != {FIELD_OWNER}
      && (k.Replicas? || (k.Resource? && Container(k.container) in base))
  }

  /** What one must know of the live object and the manifest before the first apply to tell that a
      second one has nothing to do. */
  predicate Settled(live: Option<Fields>, r: Rendered, owner: string) {
    r.id.kind == DEPLOYMENT && live.Some? ==>
      && (IsManaged(live.value) && !ManagedAfter(live.value, r) ==> !ForeignExtra(live.value, Base(r, owner)))
      && (!IsManaged(live.value) && ManagedAfter(live.value, r) ==>
        MergeLive(Base(r, owner), ValuesOf(live.value)) == Base(r, owner))
  }

  lemma StableByPayload(live: Option<Fields>, r: Rendered, owner: string)
    ensures Stable(live, r, owner) <==> Payload(Some(Applied(live, r, owner)), r, owner) == Payload(live, r, owner)
  {
    hide Payload, Apply, OwnedBy;
    var f := if live.Some? then live.value else map[];
    ApplyOwns(f, Payload(live, r, owner), FIELD_OWNER);
    ApplyChangesNothing(Applied(live, r, owner), Payload(Some(Applied(live, r, owner)), r, owner), FIELD_OWNER);
  }

  /** An applied field has the applied value; a dropped one is gone or was somebody else's too. */
  lemma AppliedValues(f: Fields, applied: Values, k: Key)
    ensures k in applied ==>
      k in ValuesOf(Apply(f, applied, FIELD_OWNER)) && ValuesOf(Apply(f, applied, FIELD_OWNER))[k] == applied[k]
    ensures k !in applied && k in ValuesOf(Apply(f, applied, FIELD_OWNER)) ==>
      k in f && ValuesOf(Apply(f, applied, FIELD_OWNER))[k] == f[k].value
  {
  }

  lemma ContainerKnown(v: Values, k: Key, name: string)
    requires k in v && ContainerOf(k) == Some(name)
    ensures HasContainer(v, name)
  {
  }

  /** Customisations merged in once are found live and merged in again. */
  lemma MergeSettles(base: Values, f: Fields)
    ensures MergeLive(base, ValuesOf(Apply(f, MergeLive(base, ValuesOf(f)), FIELD_OWNER)))
      == MergeLive(base, ValuesOf(f))
  {
    hide Apply, HasContainer;
    var first := MergeLive(base, ValuesOf(f));
    var live := ValuesOf(Apply(f, first, FIELD_OWNER));
    var second := MergeLive(base, live);
    forall k ensures (k in second <==> k in first) && (k in first ==> second[k] == first[k]) {
      AppliedValues(f, first, k);
      if k.Resource? && Container(k.container) in base {
        AppliedValues(f, first, Container(k.container));
        ContainerKnown(live, Container(k.container), k.container);
        if k in f {
          ContainerKnown(ValuesOf(f), k, k.container);
        }
      }
    }
  }

  lemma CreatedValues(applied: Values)
    ensures ValuesOf(Apply(map[], applied, FIELD_OWNER)) == applied
  {
  }

  lemma MergeOwn(base: Values)
    ensures MergeLive(base, base) == base
  {
    hide HasContainer;
  }

  lemma BaseAnnotations(r: Rendered, owner: string)
    ensures MANAGED in Base(r, owner) <==> MANAGED in r.values
    ensures MANAGED in r.values ==> Base(r, owner)[MANAGED] == r.values[MANAGED]
  {
  }

  lemma MarkAfterApply(f: Fields, r: Rendered, owner: string)
    requires r.id.kind == DEPLOYMENT
    ensures IsManaged(Applied(Some(f), r, owner)) <==> ManagedAfter(f, r)
  {
    hide Base, HasContainer;
    BaseAnnotations(r, owner);
  }

  /** Merging onto the manifest what an apply of the manifest left live. */
  lemma MergeAfterPlainApply(f: Fields, base: Values)
    ensures MergeLive(base, ValuesOf(Apply(f, base, FIELD_OWNER))) == base <==> !ForeignExtra(f, base)
  {
    hide HasContainer;
    var live := ValuesOf(Apply(f, base, FIELD_OWNER));
    var merged := MergeLive(base, live);
    forall k: Key | k.Resource? && Container(k.container) in base ensures HasContainer(live, k.container) {
      ContainerKnown(live, Container(k.container), k.container);
    }
    if ForeignExtra(f, base) {
      var k :| k in f && k !in base && f[k].managers != {FIELD_OWNER}
        && (k.Replicas? || (k.Resource? && Container(k.container) in base));
      assert k in merged;
    } else {
      forall k ensures (k in merged <==> k in base) && (k in base ==> merged[k] == base[k]) {
      }
    }
  }

  /** A second apply changes nothing, exactly unless the first one changes the managed mark while
      the live customisations differ from the manifest: a mark that goes leaves somebody's
      customisation behind to be merged in, one that comes makes the second apply revert them. */
  lemma StableExactly(live: Option<Fields>, r: Rendered, owner: string)
    ensures Stable(live, r, owner) <==> Settled(live, r, owner)
  {
    hide Stable, Apply, MergeLive, ValuesOf, Base, IsManaged, ManagedAfter, ForeignExtra;
    StableByPayload(live, r, owner);
    var base := Base(r, owner);
    if r.id.kind == DEPLOYMENT {
      if live.None? {
        CreatedValues(base);
        MergeOwn(base);
      } else {
        MarkAfterApply(live.value, r, owner);
        MergeSettles(base, live.value);
        MergeAfterPlainApply(live.value, base);
      }
    }
  }

  /** The operator never claims .rules of an aggregated ClusterRole: rules that others own stay, and
      whatever the aggregation controller writes there later, the next apply changes nothing. */
  lemma AggregatedRulesUntouched(f: Fields, r: Rendered, owner: string, rules: Json, managers: set<string>)
    requires r.id.kind == CLUSTER_ROLE && Aggregation in r.values && FIELD_OWNER !in managers
    ensures Rules in f && FIELD_OWNER !in f[Rules].managers ==>
      Rules in Applied(Some(f), r, owner) && Applied(Some(f), r, owner)[Rules] == f[Rules]
    ensures var g := Applied(Some(f), r, owner)[Rules := Owned(rules, managers)]; Applied(Some(g), r, owner) == g
  {
    hide Apply;
    assert CLUSTER_ROLE != DEPLOYMENT by { assert |CLUSTER_ROLE| != |DEPLOYMENT|; }
    var payload := Payload(Some(f), r, owner);
    assert Rules !in payload;
    if Rules in f && FIELD_OWNER !in f[Rules].managers {
      ApplyKeepsForeign(f, payload, FIELD_OWNER, Rules);
    }
    var applied := Apply(f, payload, FIELD_OWNER);
    var g := applied[Rules := Owned(rules, managers)];
    ApplyOwns(f, payload, FIELD_OWNER);
    assert OwnedBy(g, FIELD_OWNER) == payload;
    ApplyChangesNothing(g, payload, FIELD_OWNER);
  }

  // ---------- Rendering ----------

  /** The build artefact is never applied, nor desired; a cluster-scoped object has no namespace, so
      its reference is the one cleanup lists it under; every other object is applied as rendered. */
  lemma {:induction false} PreparedMeaning(objects: seq<Rendered>, r: Rendered)
    ensures r in Prepared(objects) <==>
      exists o :: (o in objects && !(o.id.kind == CONFIG_MAP && o.id.name == IMAGE_PARAMS_CONFIG_MAP)
      && r == if o.id.kind in CLUSTER_SCOPED then o.(id := o.id.(namespace := "")) else o)
  {
    hide CLUSTER_SCOPED;
    if objects != [] {
      var n := |objects| - 1;
      PreparedMeaning(objects[..n], r);
      assert objects == objects[..n] + [objects[n]];
      assert forall o :: o in objects <==> o in objects[..n] || o == objects[n];
    }
  }

  // ---------- One run ----------

  /** What the applies of one object, in order, make of it; it may be rendered at several versions. */
  function InTurn(live: Option<Fields>, rs: seq<Rendered>, id: Id, owner: string): Option<Fields> {
    if rs == [] then live
    else
      var before := InTurn(live, rs[..|rs| - 1], id, owner);
      if rs[|rs| - 1].id == id then Some(Applied(before, rs[|rs| - 1], owner)) else before
  }

  predicate IsRendered(rs: seq<Rendered>, id: Id) {
    exists i :: 0 <= i < |rs| && rs[i].id == id
  }

  /** Every object is applied on its own. */
  lemma {:induction false} ApplyAllAt(objects: Objects, rs: seq<Rendered>, owner: string, id: Id)
    ensures Live(ApplyAll(objects, rs, owner), id) == InTurn(Live(objects, id), rs, id, owner)
  {
    hide Applied;
    if rs != [] {
      ApplyAllAt(objects, rs[..|rs| - 1], owner, id);
    }
  }

  lemma {:induction false} NotInTurn(live: Option<Fields>, rs: seq<Rendered>, id: Id, owner: string)
    requires !IsRendered(rs, id)
    ensures InTurn(live, rs, id, owner) == live
  {
    if rs != [] {
      var n := |rs| - 1;
      assert rs[n].id != id && forall i :: 0 <= i < n ==> rs[..n][i] == rs[i];
      NotInTurn(live, rs[..n], id, owner);
    }
  }

  /** Every applied object carries the operator's labels. */
  lemma AppliedIsLabelled(live: Option<Fields>, r: Rendered, owner: string)
    ensures Labelled(Applied(live, r, owner))
  {
    hide Apply, HasContainer;
    var f := if live.Some? then live.value else map[];
    var payload := Payload(live, r, owner);
    assert COMPONENT != PART_OF by { assert COMPONENT.name[4] != PART_OF.name[4]; }
    assert COMPONENT in Base(r, owner) && PART_OF in Base(r, owner);
    assert COMPONENT in payload && PART_OF in payload && payload[COMPONENT] == Text("true")
      && payload[PART_OF] == Text("workbenches");
    AppliedValues(f, payload, COMPONENT);
    AppliedValues(f, payload, PART_OF);
  }

  lemma {:induction false} InTurnIsLabelled(live: Option<Fields>, rs: seq<Rendered>, id: Id, owner: string)
    requires IsRendered(rs, id) || (live.Some? && Labelled(live.value))
    ensures InTurn(live, rs, id, owner).Some? && Labelled(InTurn(live, rs, id, owner).value)
  {
    hide Applied, Labelled;
    if rs != [] {
      var n := |rs| - 1;
      var before := InTurn(live, rs[..n], id, owner);
      if rs[n].id == id {
        AppliedIsLabelled(before, rs[n], owner);
      } else {
        assert IsRendered(rs, id) ==> IsRendered(rs[..n], id) by {
          if i :| 0 <= i < |rs| && rs[i].id == id {
            assert rs[..n][i] == rs[i];
          }
        }
        InTurnIsLabelled(live, rs[..n], id, owner);
      }
    }
  }

  /** Cleanup lists the object, at some version, when it looks into this namespace. */
  predicate Eligible(id: Id, namespace: string) {
    (exists i :: 0 <= i < |CLEANUP_KINDS| && Targets(CLEANUP_KINDS[i], Some(namespace), id))
    || exists i :: 0 <= i < |CLUSTER_CLEANUP_KINDS| && Targets(CLUSTER_CLEANUP_KINDS[i], None, id)
  }

  /** The object is desired at every version cleanup lists it at. */
  predicate KeptByCleanup(id: Id, namespace: string, desired: set<Ref>) {
    !TargetsUndesired(CLEANUP_KINDS, Some(namespace), id, desired)
      && !TargetsUndesired(CLUSTER_CLEANUP_KINDS, None, id, desired)
  }

  /** The object before the sweep. */
  function BeforeSweep(objects: Objects, namespace: string, owner: Owner, rs: seq<Rendered>, id: Id): Option<Fields> {
    InTurn(Live(AfterConfig(objects, namespace, owner), id), rs, id, owner.uid)
  }

  /** What a run leaves of one object. */
  lemma FinalAt(objects: Objects, namespace: string, owner: Owner, rs: seq<Rendered>, id: Id)
    ensures var before := BeforeSweep(objects, namespace, owner, rs, id);
      Live(Final(objects, namespace, owner, rs), id) ==
        if before.Some? && Labelled(before.value) && !KeptByCleanup(id, namespace, Desired(namespace, rs)) then None
          else before
  {
    hide CLEANUP_KINDS, CLUSTER_CLEANUP_KINDS, TargetsUndesired, Labelled, ApplyAll, AfterConfig, Desired, InTurn;
    ApplyAllAt(AfterConfig(objects, namespace, owner), rs, owner.uid, id);
  }

  /** After a run that returns nil, every labelled cleanup-eligible object is in the desired set. */
  lemma NoOrphansLeft(objects: Objects, namespace: string, owner: Owner, rs: seq<Rendered>, id: Id)
    requires id in Final(objects, namespace, owner, rs) && Labelled(Final(objects, namespace, owner, rs)[id])
      && Eligible(id, namespace)
    ensures KeptByCleanup(id, namespace, Desired(namespace, rs))
      && exists version :: Ref(id, version) in Desired(namespace, rs)
  {
    hide CLEANUP_KINDS, CLUSTER_CLEANUP_KINDS, Targets, Labelled, ApplyAll, AfterConfig;
    var desired := Desired(namespace, rs);
    if i :| 0 <= i < |CLEANUP_KINDS| && Targets(CLEANUP_KINDS[i], Some(namespace), id) {
      assert Ref(id, CLEANUP_KINDS[i].version) in desired;
    } else {
      var i :| 0 <= i < |CLUSTER_CLEANUP_KINDS| && Targets(CLUSTER_CLEANUP_KINDS[i], None, id);
      assert Ref(id, CLUSTER_CLEANUP_KINDS[i].version) in desired;
    }
  }

  lemma NotRenderedNotDesired(namespace: string, rs: seq<Rendered>, id: Id, version: string)
    requires id != ConfigRef(namespace).id && !IsRendered(rs, id)
    ensures Ref(id, version) !in Desired(namespace, rs)
  {
    hide ConfigRef;
    assert ConfigRef(namespace) != Ref(id, version);
    forall r | r in rs ensures r.id != id {
      var i :| 0 <= i < |rs| && rs[i] == r;
    }
  }

  /** An object that is not rendered is deleted exactly when it carries the operator's labels and
      cleanup lists it; otherwise the run does not touch it. Objects without the labels, in other
      namespaces or of other kinds are safe. */
  lemma OnlyOrphansDeleted(objects: Objects, namespace: string, owner: Owner, rs: seq<Rendered>, id: Id)
    requires id != ConfigRef(namespace).id && !IsRendered(rs, id)
    ensures Live(Final(objects, namespace, owner, rs), id) ==
      if id in objects && Labelled(objects[id]) && Eligible(id, namespace) then None else Live(objects, id)
  {
    hide CLEANUP_KINDS, CLUSTER_CLEANUP_KINDS, Targets, Labelled, InTurn, Projected, Desired, ConfigRef, IsRendered,
         Final;
    FinalAt(objects, namespace, owner, rs, id);
    NotInTurn(Live(AfterConfig(objects, namespace, owner), id), rs, id, owner.uid);
    var desired := Desired(namespace, rs);
    forall version ensures Ref(id, version) !in desired {
      NotRenderedNotDesired(namespace, rs, id, version);
    }
    assert Eligible(id, namespace) <==> !KeptByCleanup(id, namespace, desired);
  }

  /** A rendered object still exists after the run that applied it exactly when it is rendered at
      every version cleanup lists its kind at, and is then what its applies, in order, made of it. */
  lemma RenderedSurvives(objects: Objects, namespace: string, owner: Owner, rs: seq<Rendered>, id: Id)
    requires IsRendered(rs, id)
    ensures id in Final(objects, namespace, owner, rs) <==> KeptByCleanup(id, namespace, Desired(namespace, rs))
    ensures id in Final(objects, namespace, owner, rs) ==>
      Live(Final(objects, namespace, owner, rs), id) == BeforeSweep(objects, namespace, owner, rs, id)
  {
    hide KeptByCleanup, Labelled, InTurn, AfterConfig, Desired, IsRendered, Final;
    FinalAt(objects, namespace, owner, rs, id);
    InTurnIsLabelled(Live(AfterConfig(objects, namespace, owner), id), rs, id, owner.uid);
  }

  /** The run that applies a WorkspaceKind rendered at another version than the one cleanup lists
      WorkspaceKinds at deletes it again. */
  lemma OtherVersionDeleted(objects: Objects, owner: Owner, namespace: string, name: string, version: string,
      values: Values)
    requires version != "v1beta1"
    ensures var id := Id("kubeflow.org", "WorkspaceKind", "", name);
      id !in Final(objects, namespace, owner, [Rendered(id, version, values)])
  {
    hide Final, Desired;
    var id := Id("kubeflow.org", "WorkspaceKind", "", name);
    var rs := [Rendered(id, version, values)];
    assert rs[0].id == id;
    RenderedSurvives(objects, namespace, owner, rs, id);
    OnlyDesired(namespace, rs[0], "v1beta1");
    assert Targets(CLUSTER_CLEANUP_KINDS[4], None, id) && CLUSTER_CLEANUP_KINDS[4].version == "v1beta1";
  }

  lemma OnlyDesired(namespace: string, r: Rendered, version: string)
    requires r.id != ConfigRef(namespace).id
    ensures Ref(r.id, version) in Desired(namespace, [r]) <==> version == r.version
  {
    hide ConfigRef;
    assert r in [r];
    assert ConfigRef(namespace) != Ref(r.id, version);
  }

  lemma ConfigLabelled(objects: Objects, namespace: string, owner: Owner)
    ensures ConfigRef(namespace).id in AfterConfig(objects, namespace, owner)
    ensures Labelled(AfterConfig(objects, namespace, owner)[ConfigRef(namespace).id])
  {
    hide Apply;
    var id := ConfigRef(namespace).id;
    var f := if id in objects then objects[id] else map[];
    var payload := ConfigPayload(Metadata(CONFIG_MAP, owner.uid), owner.ingresses, owner.contract);
    assert COMPONENT != PART_OF by { assert COMPONENT.name[4] != PART_OF.name[4]; }
    assert COMPONENT in payload && PART_OF in payload && payload[COMPONENT] == Text("true")
      && payload[PART_OF] == Text("workbenches");
    AppliedValues(f, payload, COMPONENT);
    AppliedValues(f, payload, PART_OF);
  }

  lemma ConfigKept(namespace: string, rs: seq<Rendered>)
    ensures KeptByCleanup(ConfigRef(namespace).id, namespace, Desired(namespace, rs))
  {
    assert ConfigRef(namespace) in Desired(namespace, rs);
    forall i | 0 <= i < |CLUSTER_CLEANUP_KINDS| ensures CLUSTER_CLEANUP_KINDS[i].kind != CONFIG_MAP {
      assert |CLUSTER_CLEANUP_KINDS[i].kind| != |CONFIG_MAP|;
    }
    assert forall i :: 0 <= i < |CLEANUP_KINDS| ==> CLEANUP_KINDS[i].version == "v1";
  }

  /** The projected ConfigMap is never collected. */
  lemma ConfigSurvives(objects: Objects, namespace: string, owner: Owner, rs: seq<Rendered>)
    ensures ConfigRef(namespace).id in Final(objects, namespace, owner, rs)
    ensures !IsRendered(rs, ConfigRef(namespace).id) ==>
      Live(Final(objects, namespace, owner, rs), ConfigRef(namespace).id)
        == Live(AfterConfig(objects, namespace, owner), ConfigRef(namespace).id)
  {
    hide Final, InTurn, AfterConfig, Labelled, ConfigRef, Desired, KeptByCleanup, IsRendered;
    var id := ConfigRef(namespace).id;
    FinalAt(objects, namespace, owner, rs, id);
    ConfigKept(namespace, rs);
    ConfigLabelled(objects, namespace, owner);
    InTurnIsLabelled(Live(AfterConfig(objects, namespace, owner), id), rs, id, owner.uid);
    if !IsRendered(rs, id) {
      NotInTurn(Live(AfterConfig(objects, namespace, owner), id), rs, id, owner.uid);
    }
  }

  // ---------- Two runs ----------

  /** What one run does to an object other than a Deployment does not depend on what it finds. */
  function Script(namespace: string, owner: Owner, rs: seq<Rendered>, id: Id): seq<Write> {
    if rs == [] then
      (if id != ConfigRef(namespace).id then []
       else [Applying(ConfigPayload(Metadata(CONFIG_MAP, owner.uid), owner.ingresses, owner.contract))]
            + (if owner.contract.None? then [Removing(CONTRACT)] else []))
    else
      Script(namespace, owner, rs[..|rs| - 1], id)
      + (if rs[|rs| - 1].id == id then [Applying(Payload(None, rs[|rs| - 1], owner.uid))] else [])
  }

  lemma WrittenOne(f: Fields, w: Write)
    ensures AllWritten(f, [w], FIELD_OWNER) == Written(f, w, FIELD_OWNER)
  {
    assert [w][..0] == [];
  }

  lemma WrittenSnoc(f: Fields, ws: seq<Write>, w: Write)
    ensures AllWritten(f, ws + [w], FIELD_OWNER) == Written(AllWritten(f, ws, FIELD_OWNER), w, FIELD_OWNER)
  {
    assert (ws + [w])[..|ws|] == ws;
  }

  lemma {:induction false} RunIsScript(objects: Objects, namespace: string, owner: Owner, rs: seq<Rendered>, id: Id)
    requires id.kind != DEPLOYMENT
    ensures var f := if id in objects then objects[id] else map[];
      var ws := Script(namespace, owner, rs, id);
      BeforeSweep(objects, namespace, owner, rs, id) == if ws == [] then Live(objects, id)
        else Some(AllWritten(f, ws, FIELD_OWNER))
  {
    hide Apply, ConfigPayload, Metadata, Base, HasContainer, AllWritten;
    var f := if id in objects then objects[id] else map[];
    if rs == [] {
      if id == ConfigRef(namespace).id {
        var w := Applying(ConfigPayload(Metadata(CONFIG_MAP, owner.uid), owner.ingresses, owner.contract));
        WrittenOne(f, w);
        WrittenSnoc(f, [w], Removing(CONTRACT));
        assert [w] + [] == [w];
      }
    } else {
      var n := |rs| - 1;
      RunIsScript(objects, namespace, owner, rs[..n], id);
      var ws := Script(namespace, owner, rs[..n], id);
      if rs[n].id == id {
        var w := Applying(Payload(None, rs[n], owner.uid));
        WrittenSnoc(f, ws, w);
        WrittenOne(f, w);
        assert [] + [w] == [w];
      } else {
        assert ws + [] == ws;
      }
    }
  }

  lemma {:induction false} EmptyScript(namespace: string, owner: Owner, rs: seq<Rendered>, id: Id)
    ensures Script(namespace, owner, rs, id) == [] <==> id != ConfigRef(namespace).id && !IsRendered(rs, id)
  {
    hide ConfigPayload, Payload, ConfigRef;
    if rs != [] {
      var n := |rs| - 1;
      EmptyScript(namespace, owner, rs[..n], id);
      assert IsRendered(rs, id) <==> rs[n].id == id || IsRendered(rs[..n], id) by {
        if i :| 0 <= i < n && rs[i].id == id {
          assert rs[..n][i].id == id;
        }
      }
    }
  }

  /** Anything but a Deployment is settled by one run, however often it is rendered. */
  lemma OthersSettle(objects: Objects, namespace: string, owner: Owner, rs: seq<Rendered>, id: Id)
    requires id.kind != DEPLOYMENT
    ensures var first := Final(objects, namespace, owner, rs);
      Live(Final(first, namespace, owner, rs), id) == Live(first, id)
  {
    hide Final, BeforeSweep, Script, AllWritten, Labelled, KeptByCleanup, ConfigRef, IsRendered, Eligible, Desired;
    var first := Final(objects, namespace, owner, rs);
    EmptyScript(namespace, owner, rs, id);
    if Script(namespace, owner, rs, id) == [] {
      OnlyOrphansDeleted(objects, namespace, owner, rs, id);
      OnlyOrphansDeleted(first, namespace, owner, rs, id);
    } else {
      FinalAt(objects, namespace, owner, rs, id);
      FinalAt(first, namespace, owner, rs, id);
      RunIsScript(objects, namespace, owner, rs, id);
      RunIsScript(first, namespace, owner, rs, id);
      TurnIsLabelled(objects, namespace, owner, rs, id);
      TurnIsLabelled(first, namespace, owner, rs, id);
      ScriptSettles(if id in objects then objects[id] else map[], Script(namespace, owner, rs, id), FIELD_OWNER);
    }
  }

  lemma TurnIsLabelled(objects: Objects, namespace: string, owner: Owner, rs: seq<Rendered>, id: Id)
    requires id == ConfigRef(namespace).id || IsRendered(rs, id)
    ensures BeforeSweep(objects, namespace, owner, rs, id).Some?
      && Labelled(BeforeSweep(objects, namespace, owner, rs, id).value)
  {
    hide InTurn, Labelled, AfterConfig, ConfigRef, IsRendered;
    if id == ConfigRef(namespace).id {
      ConfigLabelled(objects, namespace, owner);
    }
    InTurnIsLabelled(Live(AfterConfig(objects, namespace, owner), id), rs, id, owner.uid);
  }

  /** rs[i] is the only rendering of its object. */
  predicate OnlyRendering(rs: seq<Rendered>, i: nat)
    requires i < |rs|
  {
    forall j :: 0 <= j < |rs| && j != i ==> rs[j].id != rs[i].id
  }

  lemma {:induction false} InTurnOnce(live: Option<Fields>, rs: seq<Rendered>, i: nat, owner: string)
    requires i < |rs| && OnlyRendering(rs, i)
    ensures InTurn(live, rs, rs[i].id, owner) == Some(Applied(live, rs[i], owner))
  {
    hide Applied;
    var n := |rs| - 1;
    assert forall j :: 0 <= j < n ==> rs[..n][j] == rs[j];
    if i == n {
      NotInTurn(live, rs[..n], rs[i].id, owner);
    } else {
      InTurnOnce(live, rs[..n], i, owner);
    }
  }

  /** The Deployment is settled by one run: read off the live object when it is rendered once; if it
      is rendered at several versions its applies, repeated, come to the same. */
  predicate DeploymentSettles(objects: Objects, rs: seq<Rendered>, i: nat, owner: string)
    requires i < |rs|
  {
    var live := Live(objects, rs[i].id);
    if OnlyRendering(rs, i) then Settled(live, rs[i], owner)
    else InTurn(InTurn(live, rs, rs[i].id, owner), rs, rs[i].id, owner) == InTurn(live, rs, rs[i].id, owner)
  }

  lemma DeploymentSecondRun(objects: Objects, namespace: string, owner: Owner, rs: seq<Rendered>, i: nat)
    requires i < |rs| && rs[i].id.kind == DEPLOYMENT
    ensures var id, first := rs[i].id, Final(objects, namespace, owner, rs);
      Live(Final(first, namespace, owner, rs), id) == Live(first, id) <==>
        (KeptByCleanup(id, namespace, Desired(namespace, rs)) ==> DeploymentSettles(objects, rs, i, owner.uid))
  {
    hide Final, KeptByCleanup, Desired, InTurn, Settled, Applied, OnlyRendering;
    var id, first := rs[i].id, Final(objects, namespace, owner, rs);
    assert IsRendered(rs, id);
    RenderedSurvives(objects, namespace, owner, rs, id);
    RenderedSurvives(first, namespace, owner, rs, id);
    if KeptByCleanup(id, namespace, Desired(namespace, rs)) {
      var live := Live(objects, id);
      NotConfig(objects, namespace, owner, id);
      NotConfig(first, namespace, owner, id);
      assert Live(first, id) == InTurn(live, rs, id, owner.uid);
      assert Live(Final(first, namespace, owner, rs), id) == InTurn(Live(first, id), rs, id, owner.uid);
      if OnlyRendering(rs, i) {
        InTurnOnce(live, rs, i, owner.uid);
        InTurnOnce(Live(first, id), rs, i, owner.uid);
        StableExactly(live, rs[i], owner.uid);
      }
    }
  }

  lemma NotConfig(objects: Objects, namespace: string, owner: Owner, id: Id)
    requires id.kind == DEPLOYMENT
    ensures Live(AfterConfig(objects, namespace, owner), id) == Live(objects, id)
  {
    hide Projected;
    assert |DEPLOYMENT| != |CONFIG_MAP|;
  }

  /** The object is a Deployment that cleanup keeps. */
  predicate IsKeptDeployment(id: Id, namespace: string, rs: seq<Rendered>) {
    id.kind == DEPLOYMENT && KeptByCleanup(id, namespace, Desired(namespace, rs))
  }

  /** A second run with the same inputs changes nothing at all, neither values nor ownership, exactly
      when every Deployment that outlives its run is settled by the first. */
  lemma SecondRunChangesNothing(objects: Objects, namespace: string, owner: Owner, rs: seq<Rendered>)
    ensures var first := Final(objects, namespace, owner, rs);
      Final(first, namespace, owner, rs) == first <==>
        forall i :: 0 <= i < |rs| && IsKeptDeployment(rs[i].id, namespace, rs) ==>
          DeploymentSettles(objects, rs, i, owner.uid)
  {
    hide Final, KeptByCleanup, Desired, DeploymentSettles;
    var first := Final(objects, namespace, owner, rs);
    var second := Final(first, namespace, owner, rs);
    forall i | 0 <= i < |rs| && rs[i].id.kind == DEPLOYMENT
      ensures Live(second, rs[i].id) == Live(first, rs[i].id) <==>
        (KeptByCleanup(rs[i].id, namespace, Desired(namespace, rs)) ==> DeploymentSettles(objects, rs, i, owner.uid))
    {
      DeploymentSecondRun(objects, namespace, owner, rs, i);
    }
    forall id: Id | id.kind != DEPLOYMENT || !IsRendered(rs, id) ensures Live(second, id) == Live(first, id) {
      if id.kind != DEPLOYMENT {
        OthersSettle(objects, namespace, owner, rs, id);
      } else {
        assert id != ConfigRef(namespace).id by { assert DEPLOYMENT[0] != CONFIG_MAP[0]; }
        OnlyOrphansDeleted(objects, namespace, owner, rs, id);
        OnlyOrphansDeleted(first, namespace, owner, rs, id);
      }
    }
    if forall id :: Live(second, id) == Live(first, id) {
      SameLive(first, second);
    }
  }

  lemma SameLive(a: Objects, b: Objects)
    requires forall id :: Live(a, id) == Live(b, id)
    ensures a == b
  {
    forall id ensures (id in a <==> id in b) && (id in a ==> a[id] == b[id]) {
      assert Live(a, id) == Live(b, id);
    }
  }

  /** The usual case: as long as no manifest carries the managed annotation and the operator does not
      own it on a live Deployment, a second run changes nothing. */
  lemma SecondRunUsually(objects: Objects, namespace: string, owner: Owner, rs: seq<Rendered>)
    requires forall i :: 0 <= i < |rs| && rs[i].id.kind == DEPLOYMENT ==>
      OnlyRendering(rs, i) && MANAGED !in rs[i].values
    requires forall r :: r in rs && r.id in objects && MANAGED in objects[r.id] ==>
      FIELD_OWNER !in objects[r.id][MANAGED].managers
    ensures Final(Final(objects, namespace, owner, rs), namespace, owner, rs) == Final(objects, namespace, owner, rs)
  {
    hide Final, KeptByCleanup, Desired, OnlyRendering, Base, MergeLive, ForeignExtra;
    forall i | 0 <= i < |rs| && rs[i].id.kind == DEPLOYMENT ensures DeploymentSettles(objects, rs, i, owner.uid) {
      assert rs[i] in rs;
    }
    SecondRunChangesNothing(objects, namespace, owner, rs);
  }

  /** The exception is real: the operator once marked a Deployment managed, a user scaled it, and the
      manifest no longer has the mark. The first run takes the mark away, the second one adopts the
      replicas it left behind. */
  lemma SecondRunAdoptsReplicas(namespace: string, owner: Owner, name: string)
      returns (objects: Objects, rs: seq<Rendered>)
    ensures Final(Final(objects, namespace, owner, rs), namespace, owner, rs) != Final(objects, namespace, owner, rs)
  {
    hide Final, Base;
    var id := Id("apps", DEPLOYMENT, namespace, name);
    var live := map[MANAGED := Owned(Text("true"), {FIELD_OWNER}), Replicas := Owned(Number(5), {"user"})];
    var r := Rendered(id, "v1", map[]);
    objects, rs := map[id := live], [r];
    assert OnlyRendering(rs, 0);
    BaseAnnotations(r, owner.uid);
    assert Replicas in live && Replicas !in Base(r, owner.uid) && live[Replicas].managers != {FIELD_OWNER}
      by { NoRenderedReplicas(r, owner.uid); }
    assert ForeignExtra(live, Base(r, owner.uid));
    assert !Settled(Some(live), r, owner.uid);
    OnlyVersionKept(namespace, r);
    SecondRunChangesNothing(objects, namespace, owner, rs);
    assert !DeploymentSettles(objects, rs, 0, owner.uid);
  }

  lemma NoRenderedReplicas(r: Rendered, owner: string)
    requires Replicas !in r.values
    ensures Replicas !in Base(r, owner)
  {
  }

  lemma OnlyVersionKept(namespace: string, r: Rendered)
    requires r.id.group == "apps" && r.id.kind == DEPLOYMENT && r.version == "v1"
    ensures KeptByCleanup(r.id, namespace, Desired(namespace, [r]))
  {
    hide Desired;
    assert DEPLOYMENT[0] != CONFIG_MAP[0];
    OnlyDesired(namespace, r, "v1");
    assert forall i :: 0 <= i < |CLEANUP_KINDS| ==> CLEANUP_KINDS[i].version == "v1";
    forall i | 0 <= i < |CLUSTER_CLEANUP_KINDS| ensures CLUSTER_CLEANUP_KINDS[i].group != "apps" {
      assert |CLUSTER_CLEANUP_KINDS[i].group| != 4;
    }
  }
}
