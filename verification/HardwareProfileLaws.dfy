/**
 The laws of applying and removing hardware profiles: removal undoes application, a switch
 forgets the previous profile, and running the webhook again on its own output changes nothing.
 */
module HardwareProfileLaws {
  import opened GoText
  import opened HardwareProfile

  // ---------- A notebook by its parts ----------

  /** The resources field of the main container. */
  function MainField(nb: Notebook): Option<Resources> {
    var i := MainIndex(nb.containers, nb.name);
    if i < 0 then None else nb.containers[i].resources
  }

  function Orig(m: Option<Resources>): Resources {
    if m.Some? then m.value else Resources(None, None, None)
  }

  /** The parts of a notebook the webhook changes. */
  datatype Parts = Parts(
    labels: map<string, string>,
    nodeSelector: Option<map<string, string>>,
    tolerations: Option<seq<Toleration>>,
    claims: Option<seq<Claim>>,
    main: Option<Resources>)

  function PartsOf(nb: Notebook): Parts {
    Parts(nb.labels, nb.nodeSelector, nb.tolerations, nb.resourceClaims, MainField(nb))
  }

  function WithParts(nb: Notebook, p: Parts): Notebook {
    var b := nb.(labels := p.labels, nodeSelector := p.nodeSelector, tolerations := p.tolerations,
      resourceClaims := p.claims);
    if MainIndex(nb.containers, nb.name) < 0 then b else WithMain(b, p.main)
  }

  predicate HasMain(nb: Notebook) {
    MainIndex(nb.containers, nb.name) >= 0
  }

  lemma {:induction false} FirstNamedStays(cs: seq<Container>, name: string, i: nat, r: Option<Resources>)
    requires i < |cs|
    ensures FirstNamed(cs[i := cs[i].(resources := r)], name) == FirstNamed(cs, name)
  {
    var ds := cs[i := cs[i].(resources := r)];
    if i > 0 {
      assert ds[1..] == cs[1..][i - 1 := cs[1..][i - 1].(resources := r)];
      FirstNamedStays(cs[1..], name, i - 1, r);
    } else {
      assert ds[1..] == cs[1..];
    }
  }

  /** Replacing the main container's resources leaves it the main container. */
  lemma MainStays(nb: Notebook, r: Option<Resources>)
    requires HasMain(nb)
    ensures MainIndex(WithMain(nb, r).containers, nb.name) == MainIndex(nb.containers, nb.name)
    ensures MainField(WithMain(nb, r)) == r
  {
    FirstNamedStays(nb.containers, nb.name, MainIndex(nb.containers, nb.name), r);
  }

  lemma WithPartsParts(nb: Notebook, p: Parts)
    requires !HasMain(nb) ==> p.main == None
    ensures PartsOf(WithParts(nb, p)) == p
    ensures HasMain(WithParts(nb, p)) == HasMain(nb)
    ensures WithParts(nb, p).name == nb.name && WithParts(nb, p).namespace == nb.namespace
  {
    if HasMain(nb) {
      MainStays(nb.(labels := p.labels, nodeSelector := p.nodeSelector, tolerations := p.tolerations,
        resourceClaims := p.claims), p.main);
    }
  }

  lemma WithPartsTwice(nb: Notebook, p: Parts, q: Parts)
    requires !HasMain(nb) ==> p.main == None && q.main == None
    ensures WithParts(WithParts(nb, p), q) == WithParts(nb, q)
  {
    hide MainIndex;
    if HasMain(nb) {
      var b := nb.(labels := p.labels, nodeSelector := p.nodeSelector, tolerations := p.tolerations,
        resourceClaims := p.claims);
      MainStays(b, p.main);
      var i := MainIndex(nb.containers, nb.name);
      assert WithParts(WithParts(nb, p), q).containers == WithParts(nb, q).containers;
    }
  }

  lemma OwnParts(nb: Notebook)
    ensures WithParts(nb, PartsOf(nb)) == nb
  {
    if HasMain(nb) {
      assert WithParts(nb, PartsOf(nb)).containers == nb.containers;
    }
  }

  // ---------- The effect of the operations on the parts ----------

  function ClearedMain(m: Option<Resources>): Option<Resources> {
    if m.None? then None else Some(m.value.(claims := ClaimsWithout(m.value.claims, DRA_CLAIM)))
  }

  function Cleared(p: Parts): Parts {
    Parts(p.labels - {QUEUE_LABEL}, None, None, ClaimsWithout(p.claims, DRA_CLAIM), ClearedMain(p.main))
  }

  function Sized(p: Parts, hasMain: bool, ids: seq<Identifier>, changed: bool): Result<Parts> {
    if ids == [] || !hasMain then Ok(p)
    else
      var r := StartingResources(Orig(p.main), changed);
      match ApplyIdentifiers(ids, OrEmptyMap(r.requests), OrEmptyMap(r.limits))
      case Err => Err
      case Ok((requests, limits)) => Ok(p.(main := Some(r.(requests := Some(requests), limits := Some(limits)))))
  }

  function Claimed(p: Parts, hasMain: bool, hwp: Profile, env: Lookups): Result<Parts> {
    if hwp.draTemplate == "" then Ok(p)
    else if !env.isSubdomain(hwp.draTemplate) || hwp.draTemplate !in env.templates then Err
    else
      var main := if !hasMain then p.main
                  else Some(Orig(p.main).(claims := Some(FilterOut(OrEmpty(Orig(p.main).claims), DRA_CLAIM)
                    + [Claim(DRA_CLAIM, "")])));
      Ok(p.(claims := Some(FilterOut(OrEmpty(p.claims), DRA_CLAIM) + [Claim(DRA_CLAIM, hwp.draTemplate)]),
        main := main))
  }

  function Scheduled(p: Parts, hwp: Profile, env: Lookups, changed: bool): Result<Parts> {
    if hwp.queue != "" then
      if env.isLabelValue(hwp.queue) then Ok(p.(labels := p.labels[QUEUE_LABEL := hwp.queue])) else Err
    else
      Ok(p.(
        nodeSelector := if hwp.nodeSelector == map[] then p.nodeSelector
                        else Some(if changed then hwp.nodeSelector else OrEmptyMap(p.nodeSelector) + hwp.nodeSelector),
        tolerations := if hwp.tolerations == [] then p.tolerations
                       else Some(if changed then hwp.tolerations
                                 else MergeTolerations(OrEmpty(p.tolerations), hwp.tolerations))))
  }

  function Applied(p: Parts, hasMain: bool, hwp: Profile, env: Lookups, changed: bool, isNew: bool): Result<Parts> {
    match Sized(if changed then Cleared(p) else p, hasMain, hwp.identifiers, changed)
    case Err => Err
    case Ok(sized) =>
      match (if isNew || changed then Claimed(sized, hasMain, hwp, env) else Ok(sized))
      case Err => Err
      case Ok(claimed) => Scheduled(claimed, hwp, env, changed)
  }

  function Removed(p: Parts, hwp: Profile): Parts {
    Parts(
      if hwp.queue == "" then p.labels else p.labels - {QUEUE_LABEL},
      if hwp.nodeSelector == map[] then p.nodeSelector else RemoveNodeSelector(p.nodeSelector, hwp.nodeSelector),
      if hwp.tolerations == [] then p.tolerations else RemoveTolerations(p.tolerations, hwp.tolerations),
      ClaimsWithout(p.claims, DRA_CLAIM),
      ClearedMain(p.main))
  }

  predicate WellFormed(p: Parts, hasMain: bool) {
    !hasMain ==> p.main == None
  }

  lemma RemoveDRAParts(nb: Notebook)
    ensures RemoveDRA(nb)
      == WithParts(nb, PartsOf(nb).(claims := ClaimsWithout(nb.resourceClaims, DRA_CLAIM),
        main := ClearedMain(MainField(nb))))
  {
    hide MainIndex, ClaimsWithout;
    if HasMain(nb) {
      var i := MainIndex(nb.containers, nb.name);
      if nb.containers[i].resources.None? {
        assert nb.containers[i := nb.containers[i].(resources := None)] == nb.containers;
      }
    }
  }

  lemma ClearParts(nb: Notebook)
    ensures ClearScheduling(nb) == WithParts(nb, Cleared(PartsOf(nb)))
  {
    hide MainIndex, ClaimsWithout, RemoveDRA, ClearedMain;
    RemoveDRAParts(nb.(labels := nb.labels - {QUEUE_LABEL}, nodeSelector := None, tolerations := None));
  }

  lemma RemoveParts(nb: Notebook, hwp: Profile)
    ensures RemoveSettings(nb, hwp) == WithParts(nb, Removed(PartsOf(nb), hwp))
  {
    hide MainIndex, ClaimsWithout, RemoveDRA, ClearedMain, RemoveNodeSelector, RemoveTolerations;
    var q := Removed(PartsOf(nb), hwp);
    RemoveDRAParts(nb.(labels := q.labels, nodeSelector := q.nodeSelector, tolerations := q.tolerations));
  }

  lemma SizeParts(nb: Notebook, p: Parts, ids: seq<Identifier>, changed: bool)
    requires WellFormed(p, HasMain(nb)) && ids != []
    ensures Sized(p, HasMain(nb), ids, changed).Err? <==> ApplyResources(WithParts(nb, p), ids, changed).Err?
    ensures Sized(p, HasMain(nb), ids, changed).Ok? ==>
      var q := Sized(p, HasMain(nb), ids, changed).value;
      WellFormed(q, HasMain(nb)) && ApplyResources(WithParts(nb, p), ids, changed) == Ok(WithParts(nb, q))
  {
    hide MainIndex, ApplyIdentifiers, StartingResources, WithParts, WithMain;
    var b := WithParts(nb, p);
    WithPartsParts(nb, p);
    if HasMain(nb) {
      assert Main(b) == Orig(p.main) by { MainIsOrig(b); }
      if Sized(p, true, ids, changed).Ok? {
        var q := Sized(p, true, ids, changed).value;
        WithMainIsParts(b, q.main);
        assert PartsOf(b).(main := q.main) == q;
        WithPartsTwice(nb, p, q);
      }
    }
  }

  lemma MainIsOrig(nb: Notebook)
    ensures Main(nb) == Orig(MainField(nb))
  {
  }

  lemma WithMainIsParts(nb: Notebook, m: Option<Resources>)
    requires HasMain(nb)
    ensures WithMain(nb, m) == WithParts(nb, PartsOf(nb).(main := m))
  {
    hide MainIndex;
  }

  lemma ClaimParts(nb: Notebook, p: Parts, hwp: Profile, env: Lookups)
    requires WellFormed(p, HasMain(nb))
    ensures Claimed(p, HasMain(nb), hwp, env).Err? <==> ApplyDRA(WithParts(nb, p), hwp, env).Err?
    ensures Claimed(p, HasMain(nb), hwp, env).Ok? ==>
      var q := Claimed(p, HasMain(nb), hwp, env).value;
      WellFormed(q, HasMain(nb)) && ApplyDRA(WithParts(nb, p), hwp, env) == Ok(WithParts(nb, q))
  {
    hide MainIndex, FilterOut, WithParts, WithMain;
    var b := WithParts(nb, p);
    WithPartsParts(nb, p);
    if hwp.draTemplate != "" && Claimed(p, HasMain(nb), hwp, env).Ok? {
      var q := Claimed(p, HasMain(nb), hwp, env).value;
      var c := AddPodClaim(b, hwp.draTemplate);
      assert PartsOf(c) == PartsOf(b).(claims := q.claims);
      assert c == WithParts(b, PartsOf(c)) by { PodClaimParts(b, q.claims); }
      if HasMain(nb) {
        MainIsOrig(c);
        WithMainIsParts(c, q.main);
        WithPartsTwice(b, PartsOf(c), q);
      }
      WithPartsTwice(nb, p, q);
    }
  }

  lemma PodClaimParts(nb: Notebook, claims: Option<seq<Claim>>)
    ensures nb.(resourceClaims := claims) == WithParts(nb, PartsOf(nb).(claims := claims))
  {
    hide MainIndex;
    OwnParts(nb.(resourceClaims := claims));
  }

  lemma ScheduleParts(nb: Notebook, p: Parts, hwp: Profile, env: Lookups, changed: bool)
    requires WellFormed(p, HasMain(nb))
    ensures Scheduled(p, hwp, env, changed).Err? <==> ApplyScheduling(WithParts(nb, p), hwp, env, changed).Err?
    ensures Scheduled(p, hwp, env, changed).Ok? ==>
      var q := Scheduled(p, hwp, env, changed).value;
      q.claims == p.claims && q.main == p.main
        && ApplyScheduling(WithParts(nb, p), hwp, env, changed) == Ok(WithParts(nb, q))
  {
    hide MainIndex, MergeTolerations;
  }

  /** Applying a profile, by parts. */
  lemma ApplyParts(nb: Notebook, hwp: Profile, env: Lookups, changed: bool, isNew: bool)
    ensures Apply(nb, hwp, env, changed, isNew).Err? <==>
      Applied(PartsOf(nb), HasMain(nb), hwp, env, changed, isNew).Err?
    ensures Apply(nb, hwp, env, changed, isNew).Ok? ==>
      var q := Applied(PartsOf(nb), HasMain(nb), hwp, env, changed, isNew).value;
      WellFormed(q, HasMain(nb)) && Apply(nb, hwp, env, changed, isNew) == Ok(WithParts(nb, q))
  {
    hide MainIndex, WithParts, ClearScheduling, ApplyResources, ApplyDRA, ApplyScheduling, Sized, Claimed, Scheduled,
         ClearedMain, ClaimsWithout;
    var p := PartsOf(nb);
    OwnParts(nb);
    ClearParts(nb);
    var p0 := if changed then Cleared(p) else p;
    assert WellFormed(p0, HasMain(nb)) by { ClearedWellFormed(p, HasMain(nb)); NoMainField(nb); }
    assert Sized(p0, HasMain(nb), hwp.identifiers, changed) == Ok(p0) || hwp.identifiers != []
      by { SizedNothing(p0, HasMain(nb), changed); }
    if hwp.identifiers != [] {
      SizeParts(nb, p0, hwp.identifiers, changed);
    }
    if Sized(p0, HasMain(nb), hwp.identifiers, changed).Ok? {
      var p1 := Sized(p0, HasMain(nb), hwp.identifiers, changed).value;
      ClaimParts(nb, p1, hwp, env);
      if !(isNew || changed) || Claimed(p1, HasMain(nb), hwp, env).Ok? {
        var p2 := if isNew || changed then Claimed(p1, HasMain(nb), hwp, env).value else p1;
        ScheduleParts(nb, p2, hwp, env, changed);
      }
    }
  }

  lemma ClearedWellFormed(p: Parts, hasMain: bool)
    ensures WellFormed(p, hasMain) ==> WellFormed(Cleared(p), hasMain)
  {
  }

  lemma NoMainField(nb: Notebook)
    ensures WellFormed(PartsOf(nb), HasMain(nb))
  {
  }

  lemma SizedNothing(p: Parts, hasMain: bool, changed: bool)
    ensures Sized(p, hasMain, [], changed) == Ok(p)
  {
  }

  // ---------- Removal undoes application ----------

  /** What the webhook manages and a user may set too, reading a missing field as empty. */
  datatype Settings = Settings(
    labels: map<string, string>, nodeSelector: map<string, string>, tolerations: seq<Toleration>,
    podClaims: seq<Claim>, mainClaims: seq<Claim>)

  function SettingsOf(nb: Notebook): Settings {
    Settings(nb.labels, OrEmptyMap(nb.nodeSelector), OrEmpty(nb.tolerations), OrEmpty(nb.resourceClaims),
      OrEmpty(Main(nb).claims))
  }

  function SettingsOfParts(p: Parts): Settings {
    Settings(p.labels, OrEmptyMap(p.nodeSelector), OrEmpty(p.tolerations), OrEmpty(p.claims),
      OrEmpty(Orig(p.main).claims))
  }

  /** The user's settings do not overlap the profile's. When Kueue places the pod the node
      selector is not applied, so there only an equal pair counts as an overlap. */
  predicate NoOverlap(nb: Notebook, hwp: Profile) {
    NoOverlapParts(SettingsOf(nb), hwp)
  }

  predicate NoOverlapParts(s: Settings, hwp: Profile) {
    && (hwp.queue != "" ==> QUEUE_LABEL !in s.labels)
    && (forall k :: k in s.nodeSelector && k in hwp.nodeSelector ==>
      hwp.queue != "" && s.nodeSelector[k] != hwp.nodeSelector[k])
    && (forall t :: t in s.tolerations ==> TolerationKey(t) !in TolerationKeys(hwp.tolerations))
    && (forall c :: c in s.podClaims ==> c.name != DRA_CLAIM)
    && (forall c :: c in s.mainClaims ==> c.name != DRA_CLAIM)
  }

  lemma NodeSelectorUndone(current: Option<map<string, string>>, hwp: map<string, string>, merged: bool)
    ensures
      var applied := if merged && hwp != map[] then Some(OrEmptyMap(current) + hwp) else current;
      OrEmptyMap(if hwp == map[] then applied else RemoveNodeSelector(applied, hwp)) == OrEmptyMap(current)
      <==> (forall k :: k in OrEmptyMap(current) && k in hwp ==> !merged && OrEmptyMap(current)[k] != hwp[k])
  {
    var user := OrEmptyMap(current);
    if hwp != map[] {
      var applied := if merged then Some(user + hwp) else current;
      var rest := RemoveNodeSelector(applied, hwp);
      assert forall k :: k in OrEmptyMap(rest) ==> k in OrEmptyMap(applied);
      if k :| k in user && k in hwp && (merged || user[k] == hwp[k]) {
        assert k in OrEmptyMap(applied) && OrEmptyMap(applied)[k] == hwp[k];
        assert k !in OrEmptyMap(rest);
      } else {
        forall k | k in user ensures k in OrEmptyMap(rest) && OrEmptyMap(rest)[k] == user[k] {
        }
        forall k | k in OrEmptyMap(rest) ensures k in user {
        }
        assert OrEmptyMap(rest) == user;
      }
    }
  }

  lemma TolerationsUndone(current: Option<seq<Toleration>>, hwp: seq<Toleration>, merged: bool)
    ensures
      var applied := if merged && hwp != [] then Some(MergeTolerations(OrEmpty(current), hwp)) else current;
      OrEmpty(if hwp == [] then applied else RemoveTolerations(applied, hwp)) == OrEmpty(current)
      <==> (forall t :: t in OrEmpty(current) ==> TolerationKey(t) !in TolerationKeys(hwp))
  {
    hide TolerationKey, NotIn;
    var keys := TolerationKeys(hwp);
    var applied := if merged && hwp != [] then Some(MergeTolerations(OrEmpty(current), hwp)) else current;
    RemoveTolerationsIsFilter(applied, hwp);
    NotInKeepsAll(OrEmpty(current), keys);
    if hwp != [] && merged {
      NotInConcat(hwp, NotIn(OrEmpty(current), keys), keys);
      NotInAll(hwp, keys);
      NotInTwice(OrEmpty(current), keys);
    }
  }

  lemma ClaimsUndone(current: Option<seq<Claim>>, added: bool, c: Claim)
    requires c.name == DRA_CLAIM
    ensures
      var applied := if added then Some(FilterOut(OrEmpty(current), DRA_CLAIM) + [c]) else current;
      OrEmpty(ClaimsWithout(applied, DRA_CLAIM)) == OrEmpty(current)
      <==> (forall x :: x in OrEmpty(current) ==> x.name != DRA_CLAIM)
  {
    hide FilterOut;
    var applied := if added then Some(FilterOut(OrEmpty(current), DRA_CLAIM) + [c]) else current;
    ClaimsWithoutIsFilter(applied, DRA_CLAIM);
    FilterOutKeepsAll(OrEmpty(current), DRA_CLAIM);
    if added {
      FilterOutAdded(OrEmpty(current), DRA_CLAIM, c);
    }
  }

  lemma LabelsUndone(labels: map<string, string>, queue: string)
    ensures (labels[QUEUE_LABEL := queue] - {QUEUE_LABEL}) == labels <==> QUEUE_LABEL !in labels
  {
  }

  /** What an application that is not a switch makes of the managed settings. */
  lemma AppliedSettings(p: Parts, hasMain: bool, hwp: Profile, env: Lookups, isNew: bool)
    requires Applied(p, hasMain, hwp, env, false, isNew).Ok?
    ensures
      var q := Applied(p, hasMain, hwp, env, false, isNew).value;
      var added := isNew && hwp.draTemplate != "";
      && q.labels == (if hwp.queue != "" then p.labels[QUEUE_LABEL := hwp.queue] else p.labels)
      && q.nodeSelector == (if hwp.queue == "" && hwp.nodeSelector != map[]
                            then Some(OrEmptyMap(p.nodeSelector) + hwp.nodeSelector) else p.nodeSelector)
      && q.tolerations == (if hwp.queue == "" && hwp.tolerations != []
                           then Some(MergeTolerations(OrEmpty(p.tolerations), hwp.tolerations)) else p.tolerations)
      && q.claims == (if added then Some(FilterOut(OrEmpty(p.claims), DRA_CLAIM) + [Claim(DRA_CLAIM, hwp.draTemplate)])
        else p.claims)
      && Orig(q.main).claims
        == (if added && hasMain then Some(FilterOut(OrEmpty(Orig(p.main).claims), DRA_CLAIM) + [Claim(DRA_CLAIM, "")])
                                 else Orig(p.main).claims)
  {
    hide FilterOut, MergeTolerations, ApplyIdentifiers;
  }

  lemma SettingsByParts(nb: Notebook)
    ensures SettingsOf(nb) == SettingsOfParts(PartsOf(nb))
  {
    hide MainIndex;
  }

  lemma PartsUndone(p: Parts, hasMain: bool, hwp: Profile, env: Lookups)
    requires WellFormed(p, hasMain)
    requires Applied(p, hasMain, hwp, env, false, true).Ok?
    ensures SettingsOfParts(Removed(Applied(p, hasMain, hwp, env, false, true).value, hwp)) == SettingsOfParts(p)
            <==> NoOverlapParts(SettingsOfParts(p), hwp)
  {
    hide FilterOut, MergeTolerations, Applied, RemoveNodeSelector, RemoveTolerations, ClaimsWithout, TolerationKey,
         TolerationKeys;
    AppliedSettings(p, hasMain, hwp, env, true);
    var q := Applied(p, hasMain, hwp, env, false, true).value;
    LabelsUndone(p.labels, hwp.queue);
    NodeSelectorUndone(p.nodeSelector, hwp.nodeSelector, hwp.queue == "");
    TolerationsUndone(p.tolerations, hwp.tolerations, hwp.queue == "");
    ClaimsUndone(p.claims, hwp.draTemplate != "", Claim(DRA_CLAIM, hwp.draTemplate));
    ClaimsUndone(Orig(p.main).claims, hwp.draTemplate != "" && hasMain, Claim(DRA_CLAIM, ""));
    ClearedClaims(q.main);
  }

  lemma ClearedClaims(m: Option<Resources>)
    ensures OrEmpty(Orig(ClearedMain(m)).claims) == OrEmpty(ClaimsWithout(Orig(m).claims, DRA_CLAIM))
  {
  }

  /** Applying an unedited profile to a notebook for the first time and removing it again gives
      the user's settings back, exactly when they do not overlap the profile's. */
  lemma RemoveUndoesApply(nb: Notebook, hwp: Profile, env: Lookups)
    requires Apply(nb, hwp, env, false, true).Ok?
    ensures SettingsOf(RemoveSettings(Apply(nb, hwp, env, false, true).value, hwp)) == SettingsOf(nb) <==>
      NoOverlap(nb, hwp)
  {
    hide MainIndex, Apply, Applied, WithParts, Removed, RemoveSettings, SettingsOf, SettingsOfParts, NoOverlapParts;
    ApplyParts(nb, hwp, env, false, true);
    NoMainField(nb);
    var q := Applied(PartsOf(nb), HasMain(nb), hwp, env, false, true).value;
    var applied := WithParts(nb, q);
    WithPartsParts(nb, q);
    RemoveParts(applied, hwp);
    assert WellFormed(Removed(q, hwp), HasMain(nb)) by { RemovedWellFormed(q, hwp, HasMain(nb)); }
    WithPartsParts(applied, Removed(q, hwp));
    SettingsByParts(nb);
    SettingsByParts(WithParts(applied, Removed(q, hwp)));
    PartsUndone(PartsOf(nb), HasMain(nb), hwp, env);
  }

  /** The exception is real: a node selector pair the user already had goes with the profile. */
  lemma SharedPairLost(nb: Notebook, env: Lookups, key: string, value: string) returns (user: Notebook, hwp: Profile)
    ensures user == nb.(nodeSelector := Some(map[key := value]))
    ensures Apply(user, hwp, env, false, true).Ok?
    ensures SettingsOf(RemoveSettings(Apply(user, hwp, env, false, true).value, hwp)) != SettingsOf(user)
  {
    hide MainIndex, RemoveSettings, SettingsOfParts, MergeTolerations;
    user := nb.(nodeSelector := Some(map[key := value]));
    hwp := Profile("", map[key := value], [], [], "");
    assert key in SettingsOf(user).nodeSelector && key in hwp.nodeSelector by { UserPair(user, key, value); }
    RemoveUndoesApply(user, hwp, env);
  }

  lemma UserPair(nb: Notebook, key: string, value: string)
    requires nb.nodeSelector == Some(map[key := value])
    ensures SettingsOf(nb).nodeSelector == map[key := value]
  {
    hide MainIndex;
  }

  lemma RemovedWellFormed(p: Parts, hwp: Profile, hasMain: bool)
    requires WellFormed(p, hasMain)
    ensures WellFormed(Removed(p, hwp), hasMain)
  {
  }

  // ---------- Identifiers ----------

  predicate Usable(id: Identifier) {
    id.identifier != "" && !id.defaultCount.Missing?
  }

  /** ids[i] is the first usable identifier of this name. */
  predicate FirstUsable(ids: seq<Identifier>, i: int, name: string) {
    && 0 <= i < |ids| && Usable(ids[i]) && ids[i].identifier == name
    && forall j :: 0 <= j < i ==> !(Usable(ids[j]) && ids[j].identifier == name)
  }

  ghost predicate Names(ids: seq<Identifier>, name: string) {
    exists i :: FirstUsable(ids, i, name)
  }

  /** What was there stays; a missing request is the count of the first usable identifier of that name,
      and a missing limit is the request; nothing else is added. */
  ghost predicate Filled(ids: seq<Identifier>, requests: map<string, string>, limits: map<string, string>,
      rq: map<string, string>, lm: map<string, string>)
  {
    && (forall k :: k in rq <==> k in requests || Names(ids, k))
    && (forall k :: k in lm <==> k in limits || Names(ids, k))
    && (forall k :: k in requests ==> rq[k] == requests[k])
    && (forall k, i :: FirstUsable(ids, i, k) && k !in requests ==> ids[i].defaultCount == Quantity(rq[k]))
    && (forall k :: k in limits ==> lm[k] == limits[k])
    && (forall k :: k in lm && k !in limits ==> lm[k] == rq[k])
  }

  predicate CountsReadable(ids: seq<Identifier>) {
    forall i :: 0 <= i < |ids| && ids[i].identifier != "" ==> !ids[i].defaultCount.Unparsable?
  }

  lemma FirstUsableTail(ids: seq<Identifier>, name: string)
    requires ids != []
    ensures Usable(ids[0]) && ids[0].identifier == name ==> forall i :: FirstUsable(ids, i, name) <==> i == 0
    ensures !(Usable(ids[0]) && ids[0].identifier == name) ==>
      forall i :: FirstUsable(ids, i, name) <==> FirstUsable(ids[1..], i - 1, name)
  {
    forall i | FirstUsable(ids, i, name) && !(Usable(ids[0]) && ids[0].identifier == name)
      ensures FirstUsable(ids[1..], i - 1, name)
    {
      assert ids[1..][i - 1] == ids[i];
      assert forall j :: 0 <= j < i - 1 ==> ids[1..][j] == ids[j + 1];
    }
    forall i | FirstUsable(ids[1..], i - 1, name) && !(Usable(ids[0]) && ids[0].identifier == name)
      ensures FirstUsable(ids, i, name)
    {
      assert ids[1..][i - 1] == ids[i];
      assert forall j :: 1 <= j < i ==> ids[j] == ids[1..][j - 1];
    }
  }

  lemma NamesTail(ids: seq<Identifier>, name: string)
    requires ids != []
    ensures Names(ids, name) <==> (Usable(ids[0]) && ids[0].identifier == name) || Names(ids[1..], name)
  {
    FirstUsableTail(ids, name);
    if Usable(ids[0]) && ids[0].identifier == name {
      assert FirstUsable(ids, 0, name);
    } else if i :| FirstUsable(ids[1..], i, name) {
      assert FirstUsable(ids, i + 1, name);
    }
  }

  /** The loop over the identifiers, by what it means for each resource; it fails exactly when a named
      identifier has a count that is no quantity. */
  lemma {:induction false} IdentifiersFill(ids: seq<Identifier>, requests: map<string, string>,
      limits: map<string, string>)
    ensures ApplyIdentifiers(ids, requests, limits).Ok? <==> CountsReadable(ids)
    ensures ApplyIdentifiers(ids, requests, limits).Ok? ==>
      var (rq, lm) := ApplyIdentifiers(ids, requests, limits).value;
      Filled(ids, requests, limits, rq, lm)
  {
    hide Filled, CountsReadable;
    if ids == [] {
      FilledNothing(requests, limits);
    } else {
      ReadableTail(ids);
      if !Usable(ids[0]) {
        IdentifiersFill(ids[1..], requests, limits);
        if CountsReadable(ids) {
          FilledSkip(ids, requests, limits, ApplyIdentifiers(ids, requests, limits).value.0,
            ApplyIdentifiers(ids, requests, limits).value.1);
        }
      } else if ids[0].defaultCount.Quantity? {
        var id := ids[0].identifier;
        var requests' := if id in requests then requests else requests[id := ids[0].defaultCount.text];
        var limits' := if id in limits then limits else limits[id := requests'[id]];
        IdentifiersFill(ids[1..], requests', limits');
        if CountsReadable(ids) {
          FilledStep(ids, requests, limits, ApplyIdentifiers(ids, requests, limits).value.0,
            ApplyIdentifiers(ids, requests, limits).value.1);
        }
      }
    }
  }

  lemma FilledNothing(requests: map<string, string>, limits: map<string, string>)
    ensures Filled([], requests, limits, requests, limits) && CountsReadable([])
  {
  }

  lemma ReadableTail(ids: seq<Identifier>)
    requires ids != []
    ensures CountsReadable(ids) <==>
      (ids[0].identifier == "" || !ids[0].defaultCount.Unparsable?) && CountsReadable(ids[1..])
  {
    assert forall i :: 0 <= i < |ids| - 1 ==> ids[1..][i] == ids[i + 1];
    assert forall i :: 0 < i < |ids| ==> ids[i] == ids[1..][i - 1];
  }

  lemma FilledSkip(ids: seq<Identifier>, requests: map<string, string>, limits: map<string, string>,
      rq: map<string, string>, lm: map<string, string>)
    requires ids != [] && !Usable(ids[0]) && Filled(ids[1..], requests, limits, rq, lm)
    ensures Filled(ids, requests, limits, rq, lm)
  {
    hide FirstUsable, Names, Usable;
    forall k ensures Names(ids, k) <==> Names(ids[1..], k) {
      NamesTail(ids, k);
    }
    forall k, i | FirstUsable(ids, i, k) && k !in requests
      ensures Bounds(ids, i, k) && k in rq && ids[i].defaultCount == Quantity(rq[k])
    {
      FirstUsableTail(ids, k);
      BoundsOf(ids[1..], i - 1, k);
      BoundsOf(ids, i, k);
    }
  }

  predicate Bounds(ids: seq<Identifier>, i: int, k: string) {
    0 <= i < |ids|
  }

  lemma BoundsOf(ids: seq<Identifier>, i: int, k: string)
    requires FirstUsable(ids, i, k)
    ensures Bounds(ids, i, k) && Names(ids, k)
  {
  }

  lemma FilledStep(ids: seq<Identifier>, requests: map<string, string>, limits: map<string, string>,
      rq: map<string, string>, lm: map<string, string>)
    requires ids != [] && Usable(ids[0]) && ids[0].defaultCount.Quantity?
    requires var id := ids[0].identifier;
      var requests' := if id in requests then requests else requests[id := ids[0].defaultCount.text];
      var limits' := if id in limits then limits else limits[id := requests'[id]];
      Filled(ids[1..], requests', limits', rq, lm)
    ensures Filled(ids, requests, limits, rq, lm)
  {
    hide FirstUsable, Names;
    forall k ensures Names(ids, k) <==> k == ids[0].identifier || Names(ids[1..], k) {
      NamesTail(ids, k);
    }
    forall k, i | FirstUsable(ids, i, k) && k !in requests
      ensures Bounds(ids, i, k) && k in rq && ids[i].defaultCount == Quantity(rq[k])
    {
      FirstUsableTail(ids, k);
      BoundsOf(ids, i, k);
      if k != ids[0].identifier {
        BoundsOf(ids[1..], i - 1, k);
      }
    }
  }

  lemma {:induction false} IdentifiersNothingToDo(ids: seq<Identifier>, requests: map<string, string>,
      limits: map<string, string>)
    requires forall i :: 0 <= i < |ids| && Usable(ids[i]) ==>
      ids[i].defaultCount.Quantity? && ids[i].identifier in requests && ids[i].identifier in limits
    ensures ApplyIdentifiers(ids, requests, limits) == Ok((requests, limits))
  {
    if ids != [] {
      assert Usable(ids[0]) ==> ids[0].identifier in requests;
      IdentifiersNothingToDo(ids[1..], requests, limits);
    }
  }

  lemma {:induction false} UsableIsNamed(ids: seq<Identifier>, i: nat)
    requires i < |ids| && Usable(ids[i])
    ensures Names(ids, ids[i].identifier)
  {
    var k := ids[i].identifier;
    if j :| 0 <= j < i && Usable(ids[j]) && ids[j].identifier == k {
      UsableIsNamed(ids, j);
    } else {
      assert FirstUsable(ids, i, k);
    }
  }

  lemma IdentifiersTwice(ids: seq<Identifier>, requests: map<string, string>, limits: map<string, string>)
    requires ApplyIdentifiers(ids, requests, limits).Ok?
    ensures var (rq, lm) := ApplyIdentifiers(ids, requests, limits).value;
      ApplyIdentifiers(ids, rq, lm) == Ok((rq, lm))
  {
    hide ApplyIdentifiers;
    IdentifiersFill(ids, requests, limits);
    var (rq, lm) := ApplyIdentifiers(ids, requests, limits).value;
    forall i | 0 <= i < |ids| && Usable(ids[i])
      ensures ids[i].defaultCount.Quantity? && ids[i].identifier in rq && ids[i].identifier in lm
    {
      UsableIsNamed(ids, i);
    }
    IdentifiersNothingToDo(ids, rq, lm);
  }

  /** Outside a switch, requests and limits the container already has are never overwritten; every name
      of a usable identifier ends with both, a missing request being the profile's count, and a missing
      limit the request; other resources are not added. */
  lemma ApplyNeverOverwrites(nb: Notebook, hwp: Profile, env: Lookups, isNew: bool)
    requires HasMain(nb) && Apply(nb, hwp, env, false, isNew).Ok?
    ensures
      var x := Apply(nb, hwp, env, false, isNew).value;
      Filled(hwp.identifiers, OrEmptyMap(Main(nb).requests), OrEmptyMap(Main(nb).limits),
        OrEmptyMap(Main(x).requests), OrEmptyMap(Main(x).limits))
  {
    hide MainIndex, Apply, Applied, WithParts, ApplyIdentifiers, Filled;
    ApplyParts(nb, hwp, env, false, isNew);
    var q := Applied(PartsOf(nb), true, hwp, env, false, isNew).value;
    WithPartsParts(nb, q);
    MainIsOrig(nb);
    MainIsOrig(WithParts(nb, q));
    AppliedSizes(PartsOf(nb), hwp, env, false, isNew);
    var rq, lm := OrEmptyMap(Main(nb).requests), OrEmptyMap(Main(nb).limits);
    if hwp.identifiers != [] {
      IdentifiersFill(hwp.identifiers, rq, lm);
    } else {
      FilledNothing(rq, lm);
    }
  }

  /** Requests and limits after an application. */
  lemma AppliedSizes(p: Parts, hwp: Profile, env: Lookups, changed: bool, isNew: bool)
    requires Applied(p, true, hwp, env, changed, isNew).Ok?
    ensures hwp.identifiers == [] ==>
      var q := Applied(p, true, hwp, env, changed, isNew).value;
      Orig(q.main).requests == Orig(p.main).requests && Orig(q.main).limits == Orig(p.main).limits
    ensures hwp.identifiers != [] ==>
      var sizes := ApplyIdentifiers(hwp.identifiers, if changed then map[] else OrEmptyMap(Orig(p.main).requests),
                                    if changed then map[] else OrEmptyMap(Orig(p.main).limits));
      var q := Applied(p, true, hwp, env, changed, isNew).value;
      sizes.Ok? && Orig(q.main).requests == Some(sizes.value.0) && Orig(q.main).limits == Some(sizes.value.1)
  {
    hide ApplyIdentifiers, ClaimsWithout, FilterOut, MergeTolerations;
  }

  /** An update that keeps the profile never touches the managed claim, nor any other. */
  lemma SameProfileKeepsClaims(nb: Notebook, hwp: Profile, env: Lookups)
    requires Apply(nb, hwp, env, false, false).Ok?
    ensures Apply(nb, hwp, env, false, false).value.resourceClaims == nb.resourceClaims
    ensures Main(Apply(nb, hwp, env, false, false).value).claims == Main(nb).claims
  {
    hide MainIndex, Apply, Applied, WithParts;
    ApplyParts(nb, hwp, env, false, false);
    var q := Applied(PartsOf(nb), HasMain(nb), hwp, env, false, false).value;
    WithPartsParts(nb, q);
    MainIsOrig(nb);
    MainIsOrig(WithParts(nb, q));
    AppliedSettings(PartsOf(nb), HasMain(nb), hwp, env, false);
    assert PartsOf(WithParts(nb, q)).claims == q.claims;
  }

  // ---------- A switch forgets ----------

  /** The claim the webhook adds for the profile, if any. */
  function Managed(hwp: Profile, template: string): seq<Claim> {
    if hwp.draTemplate == "" then [] else [Claim(DRA_CLAIM, template)]
  }

  lemma SwitchParts(p: Parts, hasMain: bool, hwp: Profile, env: Lookups, isNew: bool)
    requires WellFormed(p, hasMain) && Applied(p, hasMain, hwp, env, true, isNew).Ok?
    ensures
      var q := Applied(p, hasMain, hwp, env, true, isNew).value;
      && q.labels == (if hwp.queue != "" then p.labels[QUEUE_LABEL := hwp.queue] else p.labels - {QUEUE_LABEL})
      && q.nodeSelector == (if hwp.queue == "" && hwp.nodeSelector != map[] then Some(hwp.nodeSelector) else None)
      && q.tolerations == (if hwp.queue == "" && hwp.tolerations != [] then Some(hwp.tolerations) else None)
      && OrEmpty(q.claims) == FilterOut(OrEmpty(p.claims), DRA_CLAIM) + Managed(hwp, hwp.draTemplate)
      && (hasMain ==>
            OrEmpty(Orig(q.main).claims) == FilterOut(OrEmpty(Orig(p.main).claims), DRA_CLAIM) + Managed(hwp, ""))
  {
    hide ApplyIdentifiers, ClaimsWithout, FilterOut, MergeTolerations;
    ClaimsWithoutIsFilter(p.claims, DRA_CLAIM);
    ClaimsWithoutIsFilter(Orig(p.main).claims, DRA_CLAIM);
    FilterOutTwice(OrEmpty(p.claims), DRA_CLAIM);
    FilterOutTwice(OrEmpty(Orig(p.main).claims), DRA_CLAIM);
    ClearedClaims(p.main);
  }

  /** x is what a switch to the profile makes of a: scheduling and the managed claims are the
      profile's alone, and so are the sizes when it has identifiers; the user's claims and
      other labels are a's, in order, and so are the sizes when it has none. */
  ghost predicate Switched(a: Notebook, x: Notebook, hwp: Profile) {
    && x.nodeSelector == (if hwp.queue == "" && hwp.nodeSelector != map[] then Some(hwp.nodeSelector) else None)
    && x.tolerations == (if hwp.queue == "" && hwp.tolerations != [] then Some(hwp.tolerations) else None)
    && x.labels == (if hwp.queue != "" then a.labels[QUEUE_LABEL := hwp.queue] else a.labels - {QUEUE_LABEL})
    && OrEmpty(x.resourceClaims) == FilterOut(OrEmpty(a.resourceClaims), DRA_CLAIM) + Managed(hwp, hwp.draTemplate)
    && (HasMain(a) ==> OrEmpty(Main(x).claims) == FilterOut(OrEmpty(Main(a).claims), DRA_CLAIM) + Managed(hwp, ""))
    && (HasMain(a) && hwp.identifiers != [] ==>
          Main(x).requests.Some? && Main(x).limits.Some?
          && Filled(hwp.identifiers, map[], map[], Main(x).requests.value, Main(x).limits.value))
    && (HasMain(a) && hwp.identifiers == [] ==>
          Main(x).requests == Main(a).requests && Main(x).limits == Main(a).limits)
  }

  /** A switch keeps nothing of the profile before it, whatever the notebook's history. */
  lemma SwitchForgetsHistory(a: Notebook, hwp: Profile, env: Lookups, isNew: bool)
    requires Apply(a, hwp, env, true, isNew).Ok?
    ensures Switched(a, Apply(a, hwp, env, true, isNew).value, hwp)
  {
    hide MainIndex, Apply, Applied, WithParts, ApplyIdentifiers, FilterOut, Managed, Filled;
    ApplyParts(a, hwp, env, true, isNew);
    NoMainField(a);
    var q := Applied(PartsOf(a), HasMain(a), hwp, env, true, isNew).value;
    var x := WithParts(a, q);
    WithPartsParts(a, q);
    MainIsOrig(a);
    MainIsOrig(x);
    assert PartsOf(x) == q;
    SwitchParts(PartsOf(a), HasMain(a), hwp, env, isNew);
    if HasMain(a) {
      AppliedSizes(PartsOf(a), hwp, env, true, isNew);
      IdentifiersFill(hwp.identifiers, map[], map[]);
    }
  }

  /** Two notebooks with different histories end up with the same managed settings. */
  lemma SwitchesAgree(a: Notebook, b: Notebook, x: Notebook, y: Notebook, hwp: Profile)
    requires Switched(a, x, hwp) && Switched(b, y, hwp)
    ensures x.nodeSelector == y.nodeSelector && x.tolerations == y.tolerations
    ensures QUEUE_LABEL in x.labels <==> QUEUE_LABEL in y.labels
    ensures QUEUE_LABEL in x.labels ==> x.labels[QUEUE_LABEL] == y.labels[QUEUE_LABEL]
    ensures HasMain(a) && HasMain(b) && hwp.identifiers != [] ==>
      Main(x).requests == Main(y).requests && Main(x).limits == Main(y).limits
  {
    hide MainIndex, FilterOut, Managed, OrEmpty, Filled;
    if HasMain(a) && HasMain(b) && hwp.identifiers != [] {
      FilledUnique(hwp.identifiers, Main(x).requests.value, Main(x).limits.value, Main(y).requests.value,
        Main(y).limits.value);
    }
  }

  lemma FilledUnique(ids: seq<Identifier>, rq: map<string, string>, lm: map<string, string>,
      rq': map<string, string>, lm': map<string, string>)
    requires Filled(ids, map[], map[], rq, lm) && Filled(ids, map[], map[], rq', lm')
    ensures rq == rq' && lm == lm'
  {
    hide FirstUsable;
    forall k | k in rq ensures k in rq' && rq[k] == rq'[k] {
      var i :| FirstUsable(ids, i, k);
      BoundsOf(ids, i, k);
    }
    assert rq.Keys == rq'.Keys;
    forall k | k in lm ensures k in lm' && lm[k] == lm'[k] {
    }
    assert lm.Keys == lm'.Keys;
  }

  // ---------- Running the webhook on its own output ----------

  lemma NodeSelectorTwice(m: map<string, string>, hwp: map<string, string>)
    ensures (m + hwp) + hwp == m + hwp
  {
  }

  lemma TolerationsTwice(ts: seq<Toleration>, hwp: seq<Toleration>)
    ensures MergeTolerations(MergeTolerations(ts, hwp), hwp) == MergeTolerations(ts, hwp)
  {
    hide NotIn, TolerationKey;
    var keys := TolerationKeys(hwp);
    NotInConcat(hwp, NotIn(ts, keys), keys);
    NotInAll(hwp, keys);
    NotInTwice(ts, keys);
  }

  lemma ScheduledTwice(p: Parts, q: Parts, hwp: Profile, env: Lookups, changed: bool)
    requires Scheduled(p, hwp, env, changed) == Ok(q)
    ensures Scheduled(q, hwp, env, changed) == Ok(q)
  {
    hide MergeTolerations;
    if hwp.queue != "" {
      assert q.labels[QUEUE_LABEL := hwp.queue] == q.labels;
    }
    NodeSelectorTwice(OrEmptyMap(p.nodeSelector), hwp.nodeSelector);
    TolerationsTwice(OrEmpty(p.tolerations), hwp.tolerations);
  }

  lemma ClaimsAddedTwice(claims: seq<Claim>, c: Claim)
    requires c.name == DRA_CLAIM
    ensures FilterOut(FilterOut(claims, DRA_CLAIM) + [c], DRA_CLAIM) + [c] == FilterOut(claims, DRA_CLAIM) + [c]
  {
    FilterOutAdded(claims, DRA_CLAIM, c);
  }

  /** Outside a switch. */
  lemma AppliedTwiceUnchanged(p: Parts, hasMain: bool, hwp: Profile, env: Lookups, isNew: bool)
    requires WellFormed(p, hasMain) && Applied(p, hasMain, hwp, env, false, isNew).Ok?
    ensures var q := Applied(p, hasMain, hwp, env, false, isNew).value;
      Applied(q, hasMain, hwp, env, false, isNew) == Ok(q)
  {
    hide ApplyIdentifiers, FilterOut, Scheduled;
    var q := Applied(p, hasMain, hwp, env, false, isNew).value;
    var p1 := Sized(p, hasMain, hwp.identifiers, false).value;
    var p2 := if isNew then Claimed(p1, hasMain, hwp, env).value else p1;
    ScheduledFrame(p2, hwp, env, false);
    ScheduledTwice(p2, q, hwp, env, false);
    assert Sized(q, hasMain, hwp.identifiers, false) == Ok(q) by {
      if hwp.identifiers != [] && hasMain {
        IdentifiersTwice(hwp.identifiers, OrEmptyMap(Orig(p.main).requests), OrEmptyMap(Orig(p.main).limits));
      }
    }
    ClaimsAddedTwice(OrEmpty(p1.claims), Claim(DRA_CLAIM, hwp.draTemplate));
    ClaimsAddedTwice(OrEmpty(Orig(p1.main).claims), Claim(DRA_CLAIM, ""));
    assert isNew ==> Claimed(q, hasMain, hwp, env) == Ok(q);
  }

  lemma ScheduledFrame(p: Parts, hwp: Profile, env: Lookups, changed: bool)
    requires Scheduled(p, hwp, env, changed).Ok?
    ensures Scheduled(p, hwp, env, changed).value.claims == p.claims
      && Scheduled(p, hwp, env, changed).value.main == p.main
  {
  }

  lemma ClaimsWithoutTwice(claims: Option<seq<Claim>>)
    ensures ClaimsWithout(ClaimsWithout(claims, DRA_CLAIM), DRA_CLAIM) == ClaimsWithout(claims, DRA_CLAIM)
  {
    hide FilterOut;
    FilterOutTwice(OrEmpty(claims), DRA_CLAIM);
  }

  lemma NodeSelectorRemovedTwice(m: Option<map<string, string>>, hwp: map<string, string>)
    ensures RemoveNodeSelector(RemoveNodeSelector(m, hwp), hwp) == RemoveNodeSelector(m, hwp)
  {
    var once := RemoveNodeSelector(m, hwp);
    if once.Some? && once.value != map[] {
      assert (map k | k in once.value && !(k in hwp && hwp[k] == once.value[k]) :: once.value[k]) == once.value;
    }
  }

  lemma TolerationsRemovedTwice(ts: Option<seq<Toleration>>, hwp: seq<Toleration>)
    ensures RemoveTolerations(RemoveTolerations(ts, hwp), hwp) == RemoveTolerations(ts, hwp)
  {
    hide NotIn, TolerationKeys;
    NotInTwice(OrEmpty(ts), TolerationKeys(hwp));
  }

  lemma RemovedTwice(p: Parts, hwp: Profile)
    ensures Removed(Removed(p, hwp), hwp) == Removed(p, hwp)
  {
    hide RemoveNodeSelector, RemoveTolerations, ClaimsWithout;
    NodeSelectorRemovedTwice(p.nodeSelector, hwp.nodeSelector);
    TolerationsRemovedTwice(p.tolerations, hwp.tolerations);
    ClaimsWithoutTwice(p.claims);
    ClaimsWithoutTwice(Orig(p.main).claims);
    assert p.labels - {QUEUE_LABEL} - {QUEUE_LABEL} == p.labels - {QUEUE_LABEL};
  }

  /** Removing a profile again changes nothing. */
  lemma RemoveSettingsTwice(nb: Notebook, hwp: Profile)
    ensures RemoveSettings(RemoveSettings(nb, hwp), hwp) == RemoveSettings(nb, hwp)
  {
    hide RemoveSettings, Removed, WithParts, MainIndex;
    var p := PartsOf(nb);
    RemoveParts(nb, hwp);
    NoMainField(nb);
    RemovedWellFormed(p, hwp, HasMain(nb));
    WithPartsParts(nb, Removed(p, hwp));
    RemoveParts(WithParts(nb, Removed(p, hwp)), hwp);
    RemovedTwice(p, hwp);
    WithPartsTwice(nb, Removed(p, hwp), Removed(p, hwp));
  }

  lemma RemoveDRATwice(nb: Notebook)
    ensures RemoveDRA(RemoveDRA(nb)) == RemoveDRA(nb)
  {
    hide RemoveDRA, WithParts, ClaimsWithout, MainIndex;
    var p := PartsOf(nb);
    var q := p.(claims := ClaimsWithout(p.claims, DRA_CLAIM), main := ClearedMain(p.main));
    RemoveDRAParts(nb);
    NoMainField(nb);
    WithPartsParts(nb, q);
    RemoveDRAParts(WithParts(nb, q));
    ClaimsWithoutTwice(p.claims);
    ClaimsWithoutTwice(Orig(p.main).claims);
    WithPartsTwice(nb, q, q);
  }

  /** On a switch. */
  lemma SwitchTwiceUnchanged(p: Parts, hasMain: bool, hwp: Profile, env: Lookups, isNew: bool)
    requires WellFormed(p, hasMain) && Applied(p, hasMain, hwp, env, true, isNew).Ok?
    ensures var q := Applied(p, hasMain, hwp, env, true, isNew).value;
      Applied(q, hasMain, hwp, env, true, isNew) == Ok(q)
  {
    hide ApplyIdentifiers, FilterOut, Scheduled, Claimed, Sized, ClaimsWithout, ClearedMain;
    var q := Applied(p, hasMain, hwp, env, true, isNew).value;
    var p1 := Sized(Cleared(p), hasMain, hwp.identifiers, true).value;
    var p2 := Claimed(p1, hasMain, hwp, env).value;
    ScheduledFrame(p2, hwp, env, true);
    SizedFrame(Cleared(p), hasMain, hwp.identifiers, true);
    ClaimedFrame(p1, hasMain, hwp, env);
    var q0 := Cleared(q);
    SwitchedClaims(p, p1, q, hasMain, hwp, env);
    assert Sized(q0, hasMain, hwp.identifiers, true).Ok?;
    var q1 := Sized(q0, hasMain, hwp.identifiers, true).value;
    SizedFrame(q0, hasMain, hwp.identifiers, true);
    assert Claimed(q1, hasMain, hwp, env).Ok?;
    var q2 := Claimed(q1, hasMain, hwp, env).value;
    ClaimedFrame(q1, hasMain, hwp, env);
    SwitchScheduledTwice(p2, q, q2, hwp, env);
  }

  lemma SizedFrame(p: Parts, hasMain: bool, ids: seq<Identifier>, changed: bool)
    requires Sized(p, hasMain, ids, changed).Ok?
    ensures var q := Sized(p, hasMain, ids, changed).value; q == p.(main := q.main)
  {
    hide ApplyIdentifiers;
  }

  lemma ClaimedFrame(p: Parts, hasMain: bool, hwp: Profile, env: Lookups)
    requires Claimed(p, hasMain, hwp, env).Ok?
    ensures var q := Claimed(p, hasMain, hwp, env).value; q == p.(main := q.main, claims := q.claims)
  {
  }

  /** The claims and the main container come out of the second switch as they went in. */
  lemma SwitchedClaims(p: Parts, p1: Parts, q: Parts, hasMain: bool, hwp: Profile, env: Lookups)
    requires WellFormed(p, hasMain)
    requires Sized(Cleared(p), hasMain, hwp.identifiers, true) == Ok(p1)
    requires Claimed(p1, hasMain, hwp, env).Ok?
    requires q.claims == Claimed(p1, hasMain, hwp, env).value.claims
      && q.main == Claimed(p1, hasMain, hwp, env).value.main
    ensures Sized(Cleared(q), hasMain, hwp.identifiers, true).Ok?
    ensures var q1 := Sized(Cleared(q), hasMain, hwp.identifiers, true).value;
      Claimed(q1, hasMain, hwp, env).Ok?
      && Claimed(q1, hasMain, hwp, env).value.claims == q.claims && Claimed(q1, hasMain, hwp, env).value.main == q.main
  {
    hide ApplyIdentifiers, FilterOut;
    var mine, ours := Claim(DRA_CLAIM, hwp.draTemplate), Claim(DRA_CLAIM, "");
    ClaimsWithoutTwice(p.claims);
    ClaimsAddedTwice(OrEmpty(p1.claims), mine);
    FilterOutAdded(OrEmpty(p1.claims), DRA_CLAIM, mine);
    FilterOutTwice(OrEmpty(p.claims), DRA_CLAIM);
    ClaimsWithoutTwice(Orig(p.main).claims);
    FilterOutTwice(OrEmpty(Orig(p.main).claims), DRA_CLAIM);
    ClaimsAddedTwice(OrEmpty(Orig(p1.main).claims), ours);
    FilterOutAdded(OrEmpty(Orig(p1.main).claims), DRA_CLAIM, ours);
    FilterOutTwice(OrEmpty(Orig(p1.main).claims), DRA_CLAIM);
  }

  lemma SwitchScheduledTwice(p: Parts, q: Parts, r: Parts, hwp: Profile, env: Lookups)
    requires Scheduled(p, hwp, env, true) == Ok(q)
    requires p.nodeSelector == None && p.tolerations == None && QUEUE_LABEL !in p.labels
    requires r.labels == q.labels - {QUEUE_LABEL} && r.nodeSelector == None && r.tolerations == None
    requires r.claims == q.claims && r.main == q.main
    ensures Scheduled(r, hwp, env, true) == Ok(q)
  {
    assert hwp.queue != "" ==> r.labels[QUEUE_LABEL := hwp.queue] == q.labels;
    assert hwp.queue == "" ==> r.labels == q.labels;
  }

  /** Running the webhook's application again on its own output with the same flags changes
      nothing: on create, on an update that keeps the profile, and on a switch. */
  lemma ReinvocationStable(nb: Notebook, hwp: Profile, env: Lookups, changed: bool, isNew: bool)
    requires Apply(nb, hwp, env, changed, isNew).Ok?
    ensures Apply(Apply(nb, hwp, env, changed, isNew).value, hwp, env, changed, isNew)
      == Apply(nb, hwp, env, changed, isNew)
  {
    hide MainIndex, Apply, Applied, WithParts;
    ApplyParts(nb, hwp, env, changed, isNew);
    NoMainField(nb);
    var q := Applied(PartsOf(nb), HasMain(nb), hwp, env, changed, isNew).value;
    if changed {
      SwitchTwiceUnchanged(PartsOf(nb), HasMain(nb), hwp, env, isNew);
    } else {
      AppliedTwiceUnchanged(PartsOf(nb), HasMain(nb), hwp, env, isNew);
    }
    WithPartsParts(nb, q);
    ApplyParts(WithParts(nb, q), hwp, env, changed, isNew);
    WithPartsTwice(nb, q, q);
  }
}
