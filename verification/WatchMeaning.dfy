/**
 Exactly which events wake the reconciler: those that change what the watches look at, no fewer and
 no more.
 */
module WatchMeaning {
  import opened GoText
  import opened PlatformConfig
  import opened PlatformConfigLaws
  import opened IngressContract
  import opened Watches

  // ---------- Deployments ----------

  /** What the watch sees of a Deployment: its counts and the generation its controller has observed,
      of a Deployment with the component label only. */
  datatype View = Unseen | Seen(ready: int, available: int, updated: int, total: int, wanted: int, observed: int)

  predicate Marked(d: Deployment) {
    "app.opendatahub.io/workbenches" in d.labels && d.labels["app.opendatahub.io/workbenches"] == "true"
  }

  function ViewOf(ds: seq<Deployment>): View
    requires |ds| <= 1
  {
    if ds == [] || !Marked(ds[0]) then Unseen
    else
      var d := ds[0];
      Seen(d.readyReplicas, d.availableReplicas, d.updatedReplicas, d.statusReplicas, Wanted(d), d.observedGeneration)
  }

  /** The predicate passes an event exactly when the view of the Deployment changes; a Deployment that
      does not exist is not seen. */
  lemma WakesExactly(e: DeploymentEvent)
    ensures Wakes(e) <==> ViewOf(Before(e)) != ViewOf(After(e))
  {
  }

  /** An event is delivered exactly when it also concerns a Deployment that the CR controls, before or
      after it. */
  lemma DeliveredExactly(e: DeploymentEvent)
    ensures Delivered(e) <==>
      ViewOf(Before(e)) != ViewOf(After(e)) && exists d :: d in Before(e) + After(e) && d.owned
  {
    hide Wakes, ViewOf, Marked;
    WakesExactly(e);
    if !e.Created? {
      assert e.before in Before(e) + After(e);
    }
    if !e.Deleted? {
      assert e.after in Before(e) + After(e);
    }
  }

  /** A List with the component label returns the labelled Deployments, one by one in order. */
  lemma ListedMeaning(a: seq<Deployment>, b: seq<Deployment>)
    ensures Labelled(a + b) == Labelled(a) + Labelled(b)
    ensures |a| == 1 ==> Labelled(a) == if Marked(a[0]) then a else []
  {
    LabelledConcat(a, b);
  }

  // ---------- The operand namespace ----------

  /** The text is a DNS label (RFC 1123): 1 to 63 lower-case letters, digits and inner hyphens. */
  predicate DnsLabel(s: string) {
    && 1 <= |s| <= 63
    && forall i :: 0 <= i < |s| ==>
      ('a' <= s[i] <= 'z' || '0' <= s[i] <= '9' || (s[i] == '-' && 0 < i < |s| - 1))
  }

  lemma DnsLabelExactly(s: string)
    ensures IsDnsLabel(s) <==> DnsLabel(s)
  {
    if DnsLabel(s) {
      forall c | c in s ensures IsLabelChar(c) {
        var i :| 0 <= i < |s| && s[i] == c;
      }
    }
    assert forall i :: 0 <= i < |s| ==> s[i] in s;
  }

  /** A valid setting decides the namespace; an invalid or missing one leaves it to the platform. */
  lemma NamespaceMeaning(setting: string, platform: string)
    ensures OperandNamespace(setting, platform) ==
      if DnsLabel(TrimSpace(setting)) then TrimSpace(setting)
      else if platform == "SelfManagedRhoai" then "redhat-ods-applications"
      else "opendatahub"
  {
    hide TrimSpace;
    DnsLabelExactly(TrimSpace(setting));
  }

  /** The watched namespaces are those that some platform's reconcile would use, and no other. */
  lemma WatchedExactly(setting: string, namespace: string)
    ensures namespace in WatchedNamespaces(setting) <==>
      exists platform :: OperandNamespace(setting, platform) == namespace
  {
    hide TrimSpace, IsDnsLabel;
    if ConfiguredNamespace(setting) == "" {
      assert OperandNamespace(setting, "") == NAMESPACE_ODH by { assert |SPEC_SELF_MANAGED| > 0; }
      assert OperandNamespace(setting, SPEC_SELF_MANAGED) == NAMESPACE_RHOAI;
    } else {
      assert OperandNamespace(setting, "") == ConfiguredNamespace(setting);
    }
  }

  // ---------- The platform ConfigMap ----------

  /** What a reconcile and the watch read of a ConfigMap, nothing if it has no data. */
  datatype Fields = NoData | Read(name: string, version: string, platformVersion: string)

  function FieldsOf(cm: ConfigMap): Fields {
    if cm.data.None? then NoData
    else
      var config := Data(cm.data.value);
      Read(Setting(config, "distribution.name"), Setting(config, "distribution.version"),
        Setting(config, "platformVersion"))
  }

  /** The two fields that come first hold no NUL. */
  predicate Separable(f: Fields) {
    f.Read? ==> '\U{0}' !in f.name && '\U{0}' !in f.version
  }

  lemma ValueOfFields(cm: ConfigMap)
    ensures var f := FieldsOf(cm);
      ConfigValue(cm) == if f.NoData? then "" else f.name + ([NUL] + (f.version + ([NUL] + f.platformVersion)))
  {
    hide Field, Setting;
    if cm.data.Some? {
      FieldIsSetting(Data(cm.data.value), "distribution.name");
      FieldIsSetting(Data(cm.data.value), "distribution.version");
      FieldIsSetting(Data(cm.data.value), "platformVersion");
      var f := FieldsOf(cm);
      var tail := [NUL] + f.platformVersion;
      assert f.name + [NUL] + f.version + [NUL] + f.platformVersion == f.name + ([NUL] + (f.version + tail));
    }
  }

  lemma SameValueSameFields(before: ConfigMap, after: ConfigMap)
    requires Separable(FieldsOf(before)) && Separable(FieldsOf(after))
    ensures ConfigValue(before) == ConfigValue(after) <==> FieldsOf(before) == FieldsOf(after)
  {
    hide ConfigValue, Setting;
    ValueOfFields(before);
    ValueOfFields(after);
    var b, a := FieldsOf(before), FieldsOf(after);
    if b.Read? && a.Read? && ConfigValue(before) == ConfigValue(after) {
      var b2, a2 := b.version + ([NUL] + b.platformVersion), a.version + ([NUL] + a.platformVersion);
      assert b.name + [NUL] + b2 == b.name + ([NUL] + b2) && a.name + [NUL] + a2 == a.name + ([NUL] + a2);
      FirstSeparator(b.name, b2, a.name, a2, NUL);
      assert b.version + [NUL] + b.platformVersion == b2 && a.version + [NUL] + a.platformVersion == a2;
      FirstSeparator(b.version, b.platformVersion, a.version, a.platformVersion, NUL);
    }
  }

  /** The predicate on its own: a creation or deletion of the named ConfigMap in a watched namespace, or
      an update that changes one of the three settings. */
  lemma PassesExactly(namespaces: seq<string>, e: ConfigEvent)
    requires e.ConfigUpdated? ==> Separable(FieldsOf(e.before)) && Separable(FieldsOf(e.after))
    ensures Passes(namespaces, e) <==>
      && Subject(e).name == "odh-workbenches-config" && Subject(e).namespace in namespaces
      && (e.ConfigUpdated? ==> FieldsOf(e.before) != FieldsOf(e.after))
  {
    hide ConfigValue, FieldsOf;
    if e.ConfigUpdated? {
      SameValueSameFields(e.before, e.after);
    }
  }

  /** The mapper on its own: the ConfigMap belongs to the CR when a reconcile of it would read it, and
      without a CR when a reconcile under some platform would. */
  lemma MapsExactly(setting: string, cr: CrRead, cm: ConfigMap)
    ensures Maps(setting, cr, cm) <==>
      && cm.name == "odh-workbenches-config"
      && exists platform ::
        (cr.Cr? ==> cr.platform == platform) && OperandNamespace(setting, platform) == cm.namespace
  {
    hide OperandNamespace, WatchedNamespaces;
    WatchedExactly(setting, cm.namespace);
  }

  /** A reconcile is enqueued exactly by a creation or deletion of the platform ConfigMap in the operand
      namespace, or by an update of it that changes one of the three settings. */
  lemma EnqueuesExactly(setting: string, platform: string, e: ConfigEvent)
    requires e.ConfigUpdated? ==> Separable(FieldsOf(e.before)) && Separable(FieldsOf(e.after))
    ensures Enqueues(setting, Cr(platform), e) <==>
      && Subject(e).name == "odh-workbenches-config" && Subject(e).namespace == OperandNamespace(setting, platform)
      && (e.ConfigUpdated? ==> FieldsOf(e.before) != FieldsOf(e.after))
  {
    hide ConfigValue, OperandNamespace, WatchedNamespaces, FieldsOf;
    OperandNamespaceWatched(setting, platform);
    if e.ConfigUpdated? {
      SameValueSameFields(e.before, e.after);
    }
  }

  /** While there is no CR, an event counts exactly if it would count under some platform. */
  lemma WithoutCrExactly(setting: string, e: ConfigEvent)
    ensures Enqueues(setting, NoCr, e) <==> exists platform :: Enqueues(setting, Cr(platform), e)
  {
    hide ConfigValue, OperandNamespace, WatchedNamespaces;
    WatchedExactly(setting, Subject(e).namespace);
    if Enqueues(setting, NoCr, e) {
      var platform :| OperandNamespace(setting, platform) == Subject(e).namespace;
      assert Enqueues(setting, Cr(platform), e);
    }
    if platform :| Enqueues(setting, Cr(platform), e) {
      assert OperandNamespace(setting, platform) == Subject(e).namespace;
    }
  }
}
