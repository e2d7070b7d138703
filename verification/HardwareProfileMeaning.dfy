/**
 The hardware profile webhook stated on the notebook and the profile themselves: which container is
 meant, what a filtered list keeps, when a profile is refused, what an application that is no switch
 and a removal make of each setting, and what each admission request comes to.
 */
module HardwareProfileMeaning {
  import opened GoText
  import opened HardwareProfile
  import opened HardwareProfileLaws
  import opened HardwareProfileWebhook

  // ---------- The main container ----------

  /** containers[i] is the main container: the only one, or the first of several with the notebook's
      name. */
  predicate IsMain(containers: seq<Container>, name: string, i: int) {
    && 0 <= i < |containers|
    && (|containers| == 1 ||
        (containers[i].name == name && forall j :: 0 <= j < i ==> containers[j].name != name))
  }

  lemma {:induction false} FirstNamedMeaning(containers: seq<Container>, name: string)
    ensures var i := FirstNamed(containers, name);
      if i < 0 then forall j :: 0 <= j < |containers| ==> containers[j].name != name
      else i < |containers| && containers[i].name == name && forall j :: 0 <= j < i ==> containers[j].name != name
  {
    if containers != [] {
      FirstNamedMeaning(containers[1..], name);
      assert forall j :: 1 <= j < |containers| ==> containers[j] == containers[1..][j - 1];
    }
  }

  /** The main container is the one found, and none is found exactly when there is none. */
  lemma MainMeaning(containers: seq<Container>, name: string, i: int)
    ensures IsMain(containers, name, i) <==> i == MainIndex(containers, name) && i >= 0
  {
    FirstNamedMeaning(containers, name);
  }

  // ---------- Filters ----------

  /** Filtering claims goes one claim at a time, in order, and drops those of the name alone. */
  lemma ClaimsKept(a: seq<Claim>, b: seq<Claim>, name: string)
    ensures FilterOut(a + b, name) == FilterOut(a, name) + FilterOut(b, name)
    ensures |a| == 1 ==> FilterOut(a, name) == if a[0].name == name then [] else a
  {
    FilterOutConcat(a, b, name);
  }

  /** Filtering tolerations goes one at a time, in order; on colon-free fields it drops a toleration
      exactly when one of the profile's equals it. */
  lemma TolerationsKept(a: seq<Toleration>, b: seq<Toleration>, hwp: seq<Toleration>)
    ensures var keys := TolerationKeys(hwp);
      && NotIn(a + b, keys) == NotIn(a, keys) + NotIn(b, keys)
      && (|a| == 1 && ColonFree(a[0]) && (forall p :: p in hwp ==> ColonFree(p)) ==>
            NotIn(a, keys) == if a[0] in hwp then [] else a)
  {
    hide TolerationKeys, ColonFree;
    NotInConcat(a, b, TolerationKeys(hwp));
    if |a| == 1 && ColonFree(a[0]) && forall p :: p in hwp ==> ColonFree(p) {
      DroppedOnlyIfEqual(a[0], hwp);
    }
  }

  // ---------- Refusal ----------

  predicate BadCount(id: Identifier) {
    id.identifier != "" && id.defaultCount.Unparsable?
  }

  /** The profile cannot be applied: a named identifier has a count that is no quantity, the template
      has an invalid name or does not exist, or the queue is no label value. */
  predicate Unfit(nb: Notebook, hwp: Profile, env: Lookups, claims: bool) {
    || (HasMain(nb) && exists i :: 0 <= i < |hwp.identifiers| && BadCount(hwp.identifiers[i]))
    || (claims && hwp.draTemplate != "" && !(env.isSubdomain(hwp.draTemplate) && hwp.draTemplate in env.templates))
    || (hwp.queue != "" && !env.isLabelValue(hwp.queue))
  }

  /** A profile is refused exactly when it is unfit; its template counts only where claims are applied,
      on the first profile and on a switch. */
  lemma ApplyRefuses(nb: Notebook, hwp: Profile, env: Lookups, changed: bool, isNew: bool)
    ensures Apply(nb, hwp, env, changed, isNew).Err? <==> Unfit(nb, hwp, env, isNew || changed)
  {
    hide Apply, MainIndex, WithParts, ApplyIdentifiers, FilterOut, MergeTolerations, ClaimsWithout;
    ApplyParts(nb, hwp, env, changed, isNew);
    IdentifiersReadable(hwp.identifiers);
    var ids := hwp.identifiers;
    assert CountsReadable(ids) <==> !(exists i :: 0 <= i < |ids| && BadCount(ids[i]));
  }

  lemma IdentifiersReadable(ids: seq<Identifier>)
    ensures forall rq, lm :: ApplyIdentifiers(ids, rq, lm).Ok? <==> CountsReadable(ids)
  {
    hide ApplyIdentifiers, CountsReadable;
    forall rq, lm ensures ApplyIdentifiers(ids, rq, lm).Ok? <==> CountsReadable(ids) {
      IdentifiersFill(ids, rq, lm);
    }
  }

  // ---------- Application outside a switch ----------

  /** On a creation, and on an update that keeps or first names the profile: the profile's pairs win
      over the notebook's, its tolerations come before those of the notebook it does not have, Kueue's
      queue takes the place of both; the managed claim is added when the profile is new. */
  lemma AppliedMeaning(nb: Notebook, hwp: Profile, env: Lookups, isNew: bool)
    requires Apply(nb, hwp, env, false, isNew).Ok?
    ensures var x := Apply(nb, hwp, env, false, isNew).value;
      && x.labels == (if hwp.queue == "" then nb.labels else nb.labels[QUEUE_LABEL := hwp.queue])
      && (hwp.queue != "" ==> x.nodeSelector == nb.nodeSelector && x.tolerations == nb.tolerations)
      && (hwp.queue == "" ==> forall k :: k in OrEmptyMap(x.nodeSelector) <==>
            k in hwp.nodeSelector || k in OrEmptyMap(nb.nodeSelector))
      && (hwp.queue == "" ==> forall k :: k in OrEmptyMap(x.nodeSelector) ==>
            x.nodeSelector.value[k]
              == if k in hwp.nodeSelector then hwp.nodeSelector[k] else OrEmptyMap(nb.nodeSelector)[k])
      && OrEmpty(x.tolerations) == (if hwp.queue != "" then OrEmpty(nb.tolerations)
           else hwp.tolerations + NotIn(OrEmpty(nb.tolerations), TolerationKeys(hwp.tolerations)))
    ensures var x := Apply(nb, hwp, env, false, isNew).value;
      var added := isNew && hwp.draTemplate != "";
      && OrEmpty(x.resourceClaims) == (if !added then OrEmpty(nb.resourceClaims)
           else FilterOut(OrEmpty(nb.resourceClaims), "hwp-dra") + [Claim("hwp-dra", hwp.draTemplate)])
      && OrEmpty(Main(x).claims) == (if !added || !HasMain(nb) then OrEmpty(Main(nb).claims)
           else FilterOut(OrEmpty(Main(nb).claims), "hwp-dra") + [Claim("hwp-dra", "")])
  {
    hide MainIndex, Apply, Applied, WithParts, NotIn, TolerationKeys, FilterOut;
    ApplyParts(nb, hwp, env, false, isNew);
    NoMainField(nb);
    var p := PartsOf(nb);
    var q := Applied(p, HasMain(nb), hwp, env, false, isNew).value;
    WithPartsParts(nb, q);
    MainIsOrig(nb);
    MainIsOrig(WithParts(nb, q));
    assert PartsOf(WithParts(nb, q)) == q;
    AppliedSettings(p, HasMain(nb), hwp, env, isNew);
    NothingHeld(OrEmpty(nb.tolerations));
  }

  lemma NothingHeld(ts: seq<Toleration>)
    ensures NotIn(ts, TolerationKeys([])) == ts
  {
    assert TolerationKeys([]) == {};
    NotInKeepsAll(ts, {});
  }

  // ---------- Removal ----------

  /** A removal takes the queue label when the profile has a queue, the node selector's pairs that the
      profile has too, the tolerations it has too, and the managed claim; all other settings stay. */
  lemma RemovedMeaning(nb: Notebook, hwp: Profile)
    ensures var x, pairs := RemoveSettings(nb, hwp), OrEmptyMap(nb.nodeSelector);
      && x.labels == (if hwp.queue == "" then nb.labels else nb.labels - {QUEUE_LABEL})
      && (forall k :: k in OrEmptyMap(x.nodeSelector) <==>
           k in pairs && (k in hwp.nodeSelector ==> hwp.nodeSelector[k] != pairs[k]))
      && (forall k :: k in OrEmptyMap(x.nodeSelector) ==> x.nodeSelector.value[k] == pairs[k])
      && OrEmpty(x.tolerations) == NotIn(OrEmpty(nb.tolerations), TolerationKeys(hwp.tolerations))
      && OrEmpty(x.resourceClaims) == FilterOut(OrEmpty(nb.resourceClaims), "hwp-dra")
      && OrEmpty(Main(x).claims) == FilterOut(OrEmpty(Main(nb).claims), "hwp-dra")
      && Main(x).requests == Main(nb).requests && Main(x).limits == Main(nb).limits
  {
    hide MainIndex, RemoveSettings, WithParts, NotIn, TolerationKeys, FilterOut;
    RemoveParts(nb, hwp);
    NoMainField(nb);
    var p := PartsOf(nb);
    var q := Removed(p, hwp);
    RemovedWellFormed(p, hwp, HasMain(nb));
    WithPartsParts(nb, q);
    assert PartsOf(WithParts(nb, q)) == q;
    MainIsOrig(nb);
    MainIsOrig(WithParts(nb, q));
    NothingHeld(OrEmpty(nb.tolerations));
    RemoveTolerationsIsFilter(nb.tolerations, hwp.tolerations);
    ClaimsWithoutIsFilter(nb.resourceClaims, DRA_CLAIM);
    ClearedClaims(MainField(nb));
    ClaimsWithoutIsFilter(Orig(MainField(nb)).claims, DRA_CLAIM);
  }

  /** Without the profile only the managed claim goes. */
  lemma ClaimRemovedMeaning(nb: Notebook)
    ensures var x := RemoveDRA(nb);
      && x.labels == nb.labels && x.nodeSelector == nb.nodeSelector && x.tolerations == nb.tolerations
      && OrEmpty(x.resourceClaims) == FilterOut(OrEmpty(nb.resourceClaims), "hwp-dra")
      && OrEmpty(Main(x).claims) == FilterOut(OrEmpty(Main(nb).claims), "hwp-dra")
      && Main(x).requests == Main(nb).requests && Main(x).limits == Main(nb).limits
  {
    hide MainIndex, RemoveDRA, WithParts, FilterOut;
    RemoveDRAParts(nb);
    NoMainField(nb);
    var q := PartsOf(nb).(claims := ClaimsWithout(nb.resourceClaims, DRA_CLAIM), main := ClearedMain(MainField(nb)));
    WithPartsParts(nb, q);
    assert PartsOf(WithParts(nb, q)) == q;
    MainIsOrig(nb);
    MainIsOrig(WithParts(nb, q));
    ClaimsWithoutIsFilter(nb.resourceClaims, DRA_CLAIM);
    ClearedClaims(MainField(nb));
    ClaimsWithoutIsFilter(Orig(MainField(nb)).claims, DRA_CLAIM);
  }

  /** x differs from nb in managed settings at most: of the containers, only the main one's resources. */
  predicate OnlySettingsDiffer(nb: Notebook, x: Notebook) {
    && x.name == nb.name && x.namespace == nb.namespace && x.annotations == nb.annotations
    && |x.containers| == |nb.containers|
    && (forall i :: 0 <= i < |nb.containers| && !IsMain(nb.containers, nb.name, i) ==>
          x.containers[i] == nb.containers[i])
    && forall i :: 0 <= i < |nb.containers| ==>
         x.containers[i].name == nb.containers[i].name && x.containers[i].rest == nb.containers[i].rest
  }

  lemma PartsFrame(nb: Notebook, p: Parts)
    ensures OnlySettingsDiffer(nb, WithParts(nb, p))
  {
    hide MainIndex;
    forall i ensures IsMain(nb.containers, nb.name, i) <==> i == MainIndex(nb.containers, nb.name) && i >= 0 {
      MainMeaning(nb.containers, nb.name, i);
    }
    hide IsMain;
  }

  /** Applying and removing a profile leave everything else of the notebook alone. */
  lemma EditsFrame(nb: Notebook, hwp: Profile, env: Lookups, changed: bool, isNew: bool)
    ensures Apply(nb, hwp, env, changed, isNew).Ok? ==>
      OnlySettingsDiffer(nb, Apply(nb, hwp, env, changed, isNew).value)
    ensures OnlySettingsDiffer(nb, RemoveSettings(nb, hwp)) && OnlySettingsDiffer(nb, RemoveDRA(nb))
  {
    hide Apply, Applied, WithParts, RemoveSettings, RemoveDRA, Removed, OnlySettingsDiffer, MainIndex;
    ApplyParts(nb, hwp, env, changed, isNew);
    if Apply(nb, hwp, env, changed, isNew).Ok? {
      PartsFrame(nb, Applied(PartsOf(nb), HasMain(nb), hwp, env, changed, isNew).value);
    }
    RemoveParts(nb, hwp);
    PartsFrame(nb, Removed(PartsOf(nb), hwp));
    RemoveDRAParts(nb);
    PartsFrame(nb, PartsOf(nb).(claims := ClaimsWithout(nb.resourceClaims, DRA_CLAIM),
      main := ClearedMain(MainField(nb))));
  }

  // ---------- Requests ----------

  /** The value of an annotation, "" if it is missing. */
  function Value(nb: Notebook, key: string): string {
    if key in nb.annotations then nb.annotations[key] else ""
  }

  /** The profile a notebook names: its name, and the namespace annotation or else its own namespace. */
  function Named(nb: Notebook): (string, string) {
    var at := Value(nb, "opendatahub.io/hardware-profile-namespace");
    (Value(nb, "opendatahub.io/hardware-profile-name"), if at == "" then nb.namespace else at)
  }

  predicate NamesProfile(nb: Notebook) {
    Named(nb).0 != ""
  }

  ghost predicate Usual(nb: Notebook) {
    |nb.containers| == 0 || exists i :: IsMain(nb.containers, nb.name, i)
  }

  lemma UsualExactly(nb: Notebook)
    ensures Usual(nb) <==> ValidContainers(nb)
  {
    var i := MainIndex(nb.containers, nb.name);
    MainMeaning(nb.containers, nb.name, i);
    FirstNamedMeaning(nb.containers, nb.name);
    if |nb.containers| > 1 {
      assert Usual(nb) ==> ValidContainers(nb) by {
        if j :| IsMain(nb.containers, nb.name, j) {
          assert nb.containers[j].name == nb.name;
        }
      }
    }
  }

  /** The previous object is known and named no profile. */
  predicate FirstNaming(op: Operation) {
    op.Create? || (op.prev.Some? && !NamesProfile(op.prev.value))
  }

  /** The profile replaces another, or for all that is known it may. */
  predicate Replaces(op: Operation, nb: Notebook) {
    op.Update? && (op.prev.None? || (NamesProfile(op.prev.value) && Named(op.prev.value) != Named(nb)))
  }

  predicate DropsProfile(op: Operation, nb: Notebook) {
    !NamesProfile(nb) && op.Update? && op.prev.Some? && NamesProfile(op.prev.value)
  }

  lemma NamedIsProfile(nb: Notebook)
    ensures Named(nb) == (ProfileName(nb), ProfileNamespace(nb))
  {
  }

  /** Which requests are refused: those naming a profile without a namespace to look in, one that does
      not exist and was not the notebook's already, or one that is unfit for a notebook with a main
      container or none at all. */
  lemma AdmitVerdict(op: Operation, nb: Notebook, profiles: Profiles, env: Lookups)
    ensures var (name, namespace) := Named(nb);
      Admit(op, nb, profiles, env).Err? <==>
        && name != ""
        && (namespace == ""
            || ((namespace, name) !in profiles
                && !(op.Update? && op.prev.Some? && Named(op.prev.value).0 == name))
            || ((namespace, name) in profiles && Usual(nb)
                && Unfit(nb, profiles[(namespace, name)], env, FirstNaming(op) || Replaces(op, nb))))
  {
    hide Apply, MainIndex, ValidContainers, RemoveSettings, RemoveDRA, Unfit, Usual;
    NamedIsProfile(nb);
    if op.Update? && op.prev.Some? {
      NamedIsProfile(op.prev.value);
    }
    var name, namespace := ProfileName(nb), ProfileNamespace(nb);
    var located := WithNamespaceAnnotation(nb, namespace);
    UsualExactly(located);
    SameContainers(nb, located);
    if (namespace, name) in profiles {
      ApplyRefuses(located, profiles[(namespace, name)], env, ProfileChanged(op, name, namespace),
        op.Create? || NewlyAdded(op));
      SameUnfit(nb, located, profiles[(namespace, name)], env);
    }
  }

  lemma SameContainers(a: Notebook, b: Notebook)
    requires a.containers == b.containers && a.name == b.name
    ensures Usual(a) == Usual(b) && HasMain(a) == HasMain(b)
  {
    hide MainIndex, IsMain;
  }

  lemma SameUnfit(a: Notebook, b: Notebook, hwp: Profile, env: Lookups)
    requires a.containers == b.containers && a.name == b.name
    ensures forall claims :: Unfit(a, hwp, env, claims) == Unfit(b, hwp, env, claims)
  {
    hide MainIndex;
  }

  /** The notebook with the namespace its profile was found in written down. */
  function Located(nb: Notebook): Notebook {
    if Value(nb, "opendatahub.io/hardware-profile-namespace") != "" then nb
    else nb.(annotations := nb.annotations["opendatahub.io/hardware-profile-namespace" := nb.namespace])
  }

  /** What an admitted request comes to: with no profile named, nothing, unless the update drops one,
      which is removed with its annotation; with a profile that is gone, nothing; with several
      containers none of which is the notebook's, the namespace annotation alone; otherwise the
      profile is applied, as a switch when it replaces another and with its claim when it is new. */
  lemma AdmitMeaning(op: Operation, nb: Notebook, profiles: Profiles, env: Lookups)
    requires Admit(op, nb, profiles, env).Ok?
    ensures var key := (Named(nb).1, Named(nb).0);
      Admit(op, nb, profiles, env) ==
        if DropsProfile(op, nb) then
          var previous := (Named(op.prev.value).1, Named(op.prev.value).0);
          var freed := if previous in profiles then RemoveSettings(nb, profiles[previous]) else RemoveDRA(nb);
          Ok(freed.(annotations := nb.annotations - {"opendatahub.io/hardware-profile-namespace"}))
        else if !NamesProfile(nb) || key !in profiles then Ok(nb)
        else if !Usual(nb) then Ok(Located(nb))
        else Apply(Located(nb), profiles[key], env, Replaces(op, nb), FirstNaming(op))
  {
    hide Apply, MainIndex, ValidContainers, RemoveSettings, RemoveDRA, Usual;
    NamedIsProfile(nb);
    var name, namespace := ProfileName(nb), ProfileNamespace(nb);
    UsualExactly(nb);
    ContainersOnly(nb, Located(nb));
    if op.Update? && op.prev.Some? {
      NamedIsProfile(op.prev.value);
      var previous := (ProfileNamespace(op.prev.value), ProfileName(op.prev.value));
      RemoveDRAIgnoresAnnotations(nb, nb.annotations);
      if previous in profiles {
        RemoveFrame(nb, profiles[previous]);
      }
    }
  }
}
