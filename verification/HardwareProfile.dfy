/**
 What the hardware profile webhook (internal/webhook/hardwareprofile/mutating.go) does to a
 notebook: the functions that apply a profile and remove it, and their laws.

 A notebook is the part of the object the webhook reads or writes. A nested field that may be
 missing is an Option, so that "missing" and "empty" stay apart. Names, label values and
 quantities are validated by libraries that are not part of this model: `Lookups` holds their
 verdicts, and a quantity is already in the form its String method gives.
 */
module HardwareProfile {
  import opened GoText

  const DRA_CLAIM: string := "hwp-dra"
  const QUEUE_LABEL: string := "kueue.x-k8s.io/queue-name"

  datatype Toleration = Toleration(key: string, operator: string, value: string, effect: string, seconds: Option<int>)

  datatype Claim = Claim(name: string, template: string)

  datatype Resources = Resources(
    requests: Option<map<string, string>>, limits: Option<map<string, string>>, claims: Option<seq<Claim>>)

  datatype Container = Container(name: string, resources: Option<Resources>, rest: string)

  datatype Notebook = Notebook(
    name: string,
    namespace: string,
    annotations: map<string, string>,
    labels: map<string, string>,
    nodeSelector: Option<map<string, string>>,
    tolerations: Option<seq<Toleration>>,
    resourceClaims: Option<seq<Claim>>,
    containers: seq<Container>)

  /** defaultCount of an identifier: missing, not a quantity, or a quantity. */
  datatype Count = Missing | Unparsable | Quantity(text: string)

  datatype Identifier = Identifier(identifier: string, defaultCount: Count)

  /** A hardware profile; an unset string is "". */
  datatype Profile = Profile(
    queue: string,
    nodeSelector: map<string, string>,
    tolerations: seq<Toleration>,
    identifiers: seq<Identifier>,
    draTemplate: string)

  /** The templates that exist in the notebook's namespace and the verdicts of name validation. */
  datatype Lookups = Lookups(templates: set<string>, isSubdomain: string -> bool, isLabelValue: string -> bool)

  // ---------- Tolerations ----------

  function TolerationKey(t: Toleration): string {
    t.key + [':'] + (t.operator + [':'] + (t.value + [':'] + (t.effect + [':'] +
      (if t.seconds.Some? then Decimal(t.seconds.value) else ""))))
  }

  predicate ColonFree(t: Toleration) {
    ':' !in t.key && ':' !in t.operator && ':' !in t.value && ':' !in t.effect
  }

  /** On colon-free fields the key tells tolerations apart in all five fields. */
  lemma TolerationKeyInjective(a: Toleration, b: Toleration)
    requires ColonFree(a) && ColonFree(b) && TolerationKey(a) == TolerationKey(b)
    ensures a == b
  {
    hide Decimal;
    var as', bs := if a.seconds.Some? then Decimal(a.seconds.value)
      else "", if b.seconds.Some? then Decimal(b.seconds.value) else "";
    var a4, b4 := a.effect + [':'] + as', b.effect + [':'] + bs;
    var a3, b3 := a.value + [':'] + a4, b.value + [':'] + b4;
    var a2, b2 := a.operator + [':'] + a3, b.operator + [':'] + b3;
    FirstSeparator(a.key, a2, b.key, b2, ':');
    FirstSeparator(a.operator, a3, b.operator, b3, ':');
    FirstSeparator(a.value, a4, b.value, b4, ':');
    FirstSeparator(a.effect, as', b.effect, bs, ':');
    if a.seconds.Some? && b.seconds.Some? {
      DecimalInjective(a.seconds.value, b.seconds.value);
    }
  }

  function TolerationKeys(ts: seq<Toleration>): set<string> {
    set t | t in ts :: TolerationKey(t)
  }

  /** The tolerations whose key is not among the profile's. */
  function NotIn(ts: seq<Toleration>, keys: set<string>): seq<Toleration> {
    if ts == [] then []
    else (if TolerationKey(ts[0]) in keys then [] else [ts[0]]) + NotIn(ts[1..], keys)
  }

  // ---------- Claims ----------

  function FilterOut(claims: seq<Claim>, name: string): seq<Claim> {
    if claims == [] then []
    else (if claims[0].name == name then [] else [claims[0]]) + FilterOut(claims[1..], name)
  }

  function OrEmpty<T>(s: Option<seq<T>>): seq<T> {
    if s.Some? then s.value else []
  }

  function OrEmptyMap(m: Option<map<string, string>>): map<string, string> {
    if m.Some? then m.value else map[]
  }

  /** A claims list after the removal of one name: an emptied list is dropped, a missing or
      already empty one stays as it is. */
  function ClaimsWithout(claims: Option<seq<Claim>>, name: string): Option<seq<Claim>> {
    if OrEmpty(claims) == [] then claims
    else if FilterOut(claims.value, name) == [] then None
    else Some(FilterOut(claims.value, name))
  }

  // ---------- The main container ----------

  /** notebookMainContainerIndex: the only container, else the first one with the notebook's
      name, else -1. */
  function MainIndex(containers: seq<Container>, name: string): (i: int)
    ensures -1 <= i < |containers| || (i == -1 && containers == [])
  {
    if |containers| == 1 then 0 else FirstNamed(containers, name)
  }

  function FirstNamed(containers: seq<Container>, name: string): (i: int)
    ensures -1 <= i < |containers|
  {
    if containers == [] then -1
    else if containers[0].name == name then 0
    else
      var i := FirstNamed(containers[1..], name);
      if i < 0 then -1 else i + 1
  }

  function ResourcesOf(c: Container): Resources {
    if c.resources.Some? then c.resources.value else Resources(None, None, None)
  }

  /** The notebook with the main container's resources replaced. */
  function WithMain(nb: Notebook, r: Option<Resources>): Notebook
    requires MainIndex(nb.containers, nb.name) >= 0
  {
    var i := MainIndex(nb.containers, nb.name);
    nb.(containers := nb.containers[i := nb.containers[i].(resources := r)])
  }

  function Main(nb: Notebook): Resources {
    var i := MainIndex(nb.containers, nb.name);
    if i < 0 then Resources(None, None, None) else ResourcesOf(nb.containers[i])
  }

  // ---------- Removing a profile ----------

  function RemovePodClaim(nb: Notebook): Notebook {
    nb.(resourceClaims := ClaimsWithout(nb.resourceClaims, DRA_CLAIM))
  }

  function RemoveContainerClaim(nb: Notebook): Notebook {
    var i := MainIndex(nb.containers, nb.name);
    if i < 0 || nb.containers[i].resources.None? then nb
    else
      var r := nb.containers[i].resources.value;
      WithMain(nb, Some(r.(claims := ClaimsWithout(r.claims, DRA_CLAIM))))
  }

  /** removeDRAFromNotebook */
  function RemoveDRA(nb: Notebook): Notebook {
    RemoveContainerClaim(RemovePodClaim(nb))
  }

  /** removeHWPNodeSelector: drop the pairs the profile also has. */
  function RemoveNodeSelector(current: Option<map<string, string>>, hwp: map<string, string>): Option<map<string,
      string>> {
    if OrEmptyMap(current) == map[] then current
    else
      var rest := map k | k in current.value && !(k in hwp && hwp[k] == current.value[k]) :: current.value[k];
      if rest == map[] then None else Some(rest)
  }

  /** removeHWPTolerations */
  function RemoveTolerations(current: Option<seq<Toleration>>, hwp: seq<Toleration>): Option<seq<Toleration>> {
    if OrEmpty(current) == [] then current
    else
      var rest := NotIn(current.value, TolerationKeys(hwp));
      if rest == [] then None else Some(rest)
  }

  /** removeHWPSettings */
  function RemoveSettings(nb: Notebook, hwp: Profile): Notebook {
    RemoveDRA(nb.(
      labels := if hwp.queue == "" then nb.labels else nb.labels - {QUEUE_LABEL},
      nodeSelector := if hwp.nodeSelector == map[] then nb.nodeSelector
                      else RemoveNodeSelector(nb.nodeSelector, hwp.nodeSelector),
      tolerations := if hwp.tolerations == [] then nb.tolerations
                     else RemoveTolerations(nb.tolerations, hwp.tolerations)))
  }

  // ---------- Applying a profile ----------

  /** The loop of applyIdentifiersToContainer over requests and limits. */
  function ApplyIdentifiers(ids: seq<Identifier>, requests: map<string, string>, limits: map<string, string>)
    : Result<(map<string, string>, map<string, string>)>
  {
    if ids == [] then Ok((requests, limits))
    else if ids[0].identifier == "" || ids[0].defaultCount.Missing? then ApplyIdentifiers(ids[1..], requests, limits)
    else if ids[0].defaultCount.Unparsable? then Err
    else
      var id := ids[0].identifier;
      var requests' := if id in requests then requests else requests[id := ids[0].defaultCount.text];
      var limits' := if id in limits then limits else limits[id := requests'[id]];
      ApplyIdentifiers(ids[1..], requests', limits')
  }

  /** The resources the identifiers are applied to: as they are, or on a switch only the claims
      that are not the webhook's. */
  function StartingResources(r: Resources, changed: bool): Resources {
    if !changed then r
    else
      var kept := FilterOut(OrEmpty(r.claims), DRA_CLAIM);
      Resources(None, None, if kept == [] then None else Some(kept))
  }

  /** applyResourcesToNotebookContainer */
  function ApplyResources(nb: Notebook, ids: seq<Identifier>, changed: bool): Result<Notebook> {
    if MainIndex(nb.containers, nb.name) < 0 then Ok(nb)
    else
      var r := StartingResources(Main(nb), changed);
      match ApplyIdentifiers(ids, OrEmptyMap(r.requests), OrEmptyMap(r.limits))
      case Err => Err
      case Ok((requests, limits)) => Ok(WithMain(nb, Some(r.(requests := Some(requests), limits := Some(limits)))))
  }

  function AddPodClaim(nb: Notebook, template: string): Notebook {
    nb.(resourceClaims := Some(FilterOut(OrEmpty(nb.resourceClaims), DRA_CLAIM) + [Claim(DRA_CLAIM, template)]))
  }

  /** setContainerResourceClaims */
  function AddContainerClaim(nb: Notebook): Notebook {
    if MainIndex(nb.containers, nb.name) < 0 then nb
    else
      var r := Main(nb);
      WithMain(nb, Some(r.(claims := Some(FilterOut(OrEmpty(r.claims), DRA_CLAIM) + [Claim(DRA_CLAIM, "")]))))
  }

  /** applyDRAIfConfigured */
  function ApplyDRA(nb: Notebook, hwp: Profile, env: Lookups): Result<Notebook> {
    if hwp.draTemplate == "" then Ok(nb)
    else if !env.isSubdomain(hwp.draTemplate) || hwp.draTemplate !in env.templates then Err
    else Ok(AddContainerClaim(AddPodClaim(nb, hwp.draTemplate)))
  }

  /** mergeTolerations: the profile's tolerations, then the others. */
  function MergeTolerations(current: seq<Toleration>, hwp: seq<Toleration>): seq<Toleration> {
    hwp + NotIn(current, TolerationKeys(hwp))
  }

  /** Kueue's label when the profile names a queue, else node selector and tolerations. */
  function ApplyScheduling(nb: Notebook, hwp: Profile, env: Lookups, changed: bool): Result<Notebook> {
    if hwp.queue != "" then
      if env.isLabelValue(hwp.queue) then Ok(nb.(labels := nb.labels[QUEUE_LABEL := hwp.queue])) else Err
    else
      Ok(nb.(
        nodeSelector := if hwp.nodeSelector == map[] then nb.nodeSelector
                        else Some(if changed then hwp.nodeSelector else OrEmptyMap(nb.nodeSelector) + hwp.nodeSelector),
        tolerations := if hwp.tolerations == [] then nb.tolerations
                       else Some(if changed then hwp.tolerations
                                 else MergeTolerations(OrEmpty(nb.tolerations), hwp.tolerations))))
  }

  function ClearScheduling(nb: Notebook): Notebook {
    RemoveDRA(nb.(labels := nb.labels - {QUEUE_LABEL}, nodeSelector := None, tolerations := None))
  }

  /** applyHardwareProfileToNotebook. `changed` says the profile replaces another one, `isNew`
      that it is the notebook's first. Err means the request is refused. */
  function Apply(nb: Notebook, hwp: Profile, env: Lookups, changed: bool, isNew: bool): Result<Notebook> {
    var cleared := if changed then ClearScheduling(nb) else nb;
    match (if hwp.identifiers == [] then Ok(cleared) else ApplyResources(cleared, hwp.identifiers, changed))
    case Err => Err
    case Ok(sized) =>
      match (if isNew || changed then ApplyDRA(sized, hwp, env) else Ok(sized))
      case Err => Err
      case Ok(claimed) => ApplyScheduling(claimed, hwp, env, changed)
  }

  // ---------- Laws of the list operations ----------

  lemma {:induction false} NotInConcat(a: seq<Toleration>, b: seq<Toleration>, keys: set<string>)
    ensures NotIn(a + b, keys) == NotIn(a, keys) + NotIn(b, keys)
  {
    if a == [] {
      assert a + b == b;
    } else {
      assert (a + b)[1..] == a[1..] + b;
      NotInConcat(a[1..], b, keys);
    }
  }

  lemma {:induction false} NotInTwice(ts: seq<Toleration>, keys: set<string>)
    ensures NotIn(NotIn(ts, keys), keys) == NotIn(ts, keys)
  {
    if ts != [] {
      NotInTwice(ts[1..], keys);
      NotInConcat(if TolerationKey(ts[0]) in keys then [] else [ts[0]], NotIn(ts[1..], keys), keys);
    }
  }

  lemma {:induction false} NotInAll(ts: seq<Toleration>, keys: set<string>)
    requires forall t :: t in ts ==> TolerationKey(t) in keys
    ensures NotIn(ts, keys) == []
  {
    if ts != [] {
      assert ts[0] in ts;
      NotInAll(ts[1..], keys);
    }
  }

  /** The filter keeps a list as it is exactly when it keeps every element. */
  lemma {:induction false} NotInKeepsAll(ts: seq<Toleration>, keys: set<string>)
    ensures |NotIn(ts, keys)| <= |ts|
    ensures NotIn(ts, keys) == ts <==> forall t :: t in ts ==> TolerationKey(t) !in keys
  {
    if ts != [] {
      NotInKeepsAll(ts[1..], keys);
      assert ts == [ts[0]] + ts[1..];
      assert ts[0] in ts;
      assert forall t :: t in ts[1..] ==> t in ts;
    }
  }

  lemma {:induction false} FilterOutConcat(a: seq<Claim>, b: seq<Claim>, name: string)
    ensures FilterOut(a + b, name) == FilterOut(a, name) + FilterOut(b, name)
  {
    if a == [] {
      assert a + b == b;
    } else {
      assert (a + b)[1..] == a[1..] + b;
      FilterOutConcat(a[1..], b, name);
    }
  }

  lemma {:induction false} FilterOutTwice(claims: seq<Claim>, name: string)
    ensures FilterOut(FilterOut(claims, name), name) == FilterOut(claims, name)
  {
    if claims != [] {
      FilterOutTwice(claims[1..], name);
      FilterOutConcat(if claims[0].name == name then [] else [claims[0]], FilterOut(claims[1..], name), name);
    }
  }

  lemma {:induction false} FilterOutKeepsAll(claims: seq<Claim>, name: string)
    ensures |FilterOut(claims, name)| <= |claims|
    ensures FilterOut(claims, name) == claims <==> forall c :: c in claims ==> c.name != name
  {
    if claims != [] {
      FilterOutKeepsAll(claims[1..], name);
      assert claims == [claims[0]] + claims[1..];
      assert claims[0] in claims;
      assert forall c :: c in claims[1..] ==> c in claims;
    }
  }

  /** The webhook's own claim at the end of a filtered list is what a second filter removes. */
  lemma FilterOutAdded(claims: seq<Claim>, name: string, c: Claim)
    requires c.name == name
    ensures FilterOut(FilterOut(claims, name) + [c], name) == FilterOut(claims, name)
  {
    FilterOutConcat(FilterOut(claims, name), [c], name);
    FilterOutTwice(claims, name);
    assert [c][1..] == [];
  }

  lemma ClaimsWithoutIsFilter(claims: Option<seq<Claim>>, name: string)
    ensures OrEmpty(ClaimsWithout(claims, name)) == FilterOut(OrEmpty(claims), name)
  {
  }

  lemma RemoveTolerationsIsFilter(current: Option<seq<Toleration>>, hwp: seq<Toleration>)
    ensures OrEmpty(RemoveTolerations(current, hwp)) == NotIn(OrEmpty(current), TolerationKeys(hwp))
  {
  }

  /** A toleration goes away with the profile only if one of the profile's agrees in all fields. */
  lemma DroppedOnlyIfEqual(t: Toleration, hwp: seq<Toleration>)
    requires ColonFree(t) && forall p :: p in hwp ==> ColonFree(p)
    ensures TolerationKey(t) in TolerationKeys(hwp) <==> t in hwp
  {
    hide TolerationKey, ColonFree;
    if TolerationKey(t) in TolerationKeys(hwp) {
      var p :| p in hwp && TolerationKey(p) == TolerationKey(t);
      TolerationKeyInjective(p, t);
    }
  }
}
