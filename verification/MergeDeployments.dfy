/**
 Preserving live Deployment customisations (internal/controller/merge_deployments.go): container
 resources, matched by container name, and replicas go from the live Deployment to the rendered one.
 */
module MergeDeployments {
  import opened GoText
  import opened Json

  const CONTAINERS: seq<string> := ["spec", "template", "spec", "containers"]
  const REPLICAS: seq<string> := ["spec", "replicas"]
  const RESOURCES: string := "resources"
  const NAME: string := "name"

  // ---------- What the merge means ----------

  /** nestedContainerSlice */
  function Containers(v: Json): Result<seq<Json>> {
    match GetPath(v, CONTAINERS)
    case Bad => Err
    case Missing => Ok([])
    case Found(raw) => if raw.Null? then Ok([]) else if raw.List? then Ok(raw.items) else Err
  }

  function NameOf(container: Json): Option<string>
    requires container.Object?
  {
    if NAME in container.fields && container.fields[NAME].Text? then Some(container.fields[NAME].text) else None
  }

  function ResourcesOf(container: Json): Json
    requires container.Object?
  {
    if RESOURCES in container.fields then container.fields[RESOURCES] else Object(map[])
  }

  /** The resources of each named container; of several containers with one name the last counts. */
  function ResourcesByName(containers: seq<Json>): Result<map<string, Json>> {
    if containers == [] then Ok(map[])
    else
      var last := containers[|containers| - 1];
      match ResourcesByName(containers[..|containers| - 1])
      case Err => Err
      case Ok(m) =>
        if !last.Object? then Err
        else if NameOf(last).None? then Ok(m)
        else Ok(m[NameOf(last).value := ResourcesOf(last)])
  }

  /** One target container after the merge. */
  function Merged(container: Json, resources: map<string, Json>): Result<Json> {
    if !container.Object? then Err
    else if NameOf(container).None? || NameOf(container).value !in resources then Ok(container)
    else
      var r := resources[NameOf(container).value];
      if !r.Object? then Err
      else if r.fields == map[] then Ok(Object(container.fields - {RESOURCES}))
      else Ok(Object(container.fields[RESOURCES := r]))
  }

  predicate AllMerge(containers: seq<Json>, resources: map<string, Json>) {
    forall i :: 0 <= i < |containers| ==> Merged(containers[i], resources).Ok?
  }

  function MergedAll(containers: seq<Json>, resources: map<string, Json>): seq<Json>
    requires AllMerge(containers, resources)
  {
    seq(|containers|, i requires 0 <= i < |containers| => Merged(containers[i], resources).value)
  }

  /** mergeDeploymentContainerResources: the target with its containers merged. */
  function MergeContainers(source: Json, target: Json): Result<Json> {
    if Containers(source).Err? || Containers(target).Err? || ResourcesByName(Containers(source).value).Err? then Err
    else
      var resources := ResourcesByName(Containers(source).value).value;
      if !AllMerge(Containers(target).value, resources) then Err
      else if Containers(target).value == [] then Ok(target)
      else SetPath(target, CONTAINERS, List(MergedAll(Containers(target).value, resources)))
  }

  /** mergeDeploymentReplicas */
  function MergeReplicas(source: Json, target: Json): Result<Json> {
    match GetPath(source, REPLICAS)
    case Bad => Err
    case Missing => Ok(RemovePath(target, REPLICAS))
    case Found(replicas) => SetPath(target, REPLICAS, replicas)
  }

  /** mergeDeployments */
  function Merge(source: Json, target: Json): Result<Json> {
    match MergeContainers(source, target)
    case Err => Err
    case Ok(t) => MergeReplicas(source, t)
  }

  // ---------- The code, which edits the target in place ----------

  class Unstructured {
    var content: Json

    constructor (content: Json)
      ensures this.content == content
    {
      this.content := content;
    }
  }

  /** containerResourcesByName */
  method ContainerResourcesByName(containers: seq<Json>) returns (r: Result<map<string, Json>>)
    ensures r == ResourcesByName(containers)
  {
    var resources: map<string, Json> := map[];
    for i := 0 to |containers|
      invariant ResourcesByName(containers[..i]) == Ok(resources)
    {
      assert containers[..i + 1][..i] == containers[..i];
      if !containers[i].Object? {
        ErrorStays(containers, i + 1);
        return Err;
      }
      if NameOf(containers[i]).None? {
        continue;
      }
      resources := resources[NameOf(containers[i]).value := ResourcesOf(containers[i])];
    }
    assert containers[..|containers|] == containers;
    return Ok(resources);
  }

  lemma {:induction false} ErrorStays(containers: seq<Json>, i: nat)
    requires i <= |containers| && ResourcesByName(containers[..i]).Err?
    ensures ResourcesByName(containers).Err?
    decreases |containers| - i
  {
    if i == |containers| {
      assert containers[..i] == containers;
    } else {
      assert containers[..i + 1][..i] == containers[..i];
      ErrorStays(containers, i + 1);
    }
  }

  /** applyContainerResources, over the target's containers in place. After an error some of them
      are already merged; the caller then drops the target. */
  method ApplyContainerResources(containers: array<Json>, resources: map<string, Json>) returns (ok: bool)
    modifies containers
    ensures ok <==> AllMerge(old(containers[..]), resources)
    ensures ok ==> containers[..] == MergedAll(old(containers[..]), resources)
  {
    for i := 0 to containers.Length
      invariant forall j :: 0 <= j < i ==> Merged(old(containers[j]), resources) == Ok(containers[j])
      invariant forall j :: i <= j < containers.Length ==> containers[j] == old(containers[j])
    {
      var container := containers[i];
      assert container == old(containers[..])[i];
      if !container.Object? {
        return false;
      }
      var name := NameOf(container);
      if name.None? || name.value !in resources {
        continue;
      }
      var r := resources[name.value];
      if !r.Object? {
        return false;
      }
      if r.fields == map[] {
        containers[i] := Object(container.fields - {RESOURCES});
      } else {
        containers[i] := Object(container.fields[RESOURCES := r]);
      }
    }
    assert AllMerge(old(containers[..]), resources);
    assert containers[..] == MergedAll(old(containers[..]), resources);
    return true;
  }

  method MergeDeploymentContainerResources(source: Unstructured, target: Unstructured) returns (ok: bool)
    requires source != target
    modifies target
    ensures ok <==> MergeContainers(source.content, old(target.content)).Ok?
    ensures ok ==> Ok(target.content) == MergeContainers(source.content, old(target.content))
  {
    hide GetPath, SetPath, ResourcesByName, Merged;
    var sourceContainers, targetContainers := Containers(source.content), Containers(target.content);
    if sourceContainers.Err? || targetContainers.Err? {
      return false;
    }
    var resources := ContainerResourcesByName(sourceContainers.value);
    if resources.Err? {
      return false;
    }
    var items := targetContainers.value;
    var containers := new Json[|items|](i requires 0 <= i < |items| => items[i]);
    assert containers[..] == items;
    var merged := ApplyContainerResources(containers, resources.value);
    if !merged {
      return false;
    }
    if |items| > 0 {
      ContainersSettable(target.content, List(containers[..]));
      target.content := SetPath(target.content, CONTAINERS, List(containers[..])).value;
    }
    return true;
  }

  method MergeDeploymentReplicas(source: Unstructured, target: Unstructured) returns (ok: bool)
    requires source != target
    modifies target
    ensures ok <==> MergeReplicas(source.content, old(target.content)).Ok?
    ensures ok ==> Ok(target.content) == MergeReplicas(source.content, old(target.content))
  {
    hide GetPath, SetPath, RemovePath;
    var replicas := GetPath(source.content, REPLICAS);
    if replicas.Bad? {
      return false;
    }
    if replicas.Missing? {
      target.content := RemovePath(target.content, REPLICAS);
      return true;
    }
    var r := SetPath(target.content, REPLICAS, replicas.value);
    if r.Err? {
      return false;
    }
    target.content := r.value;
    return true;
  }

  /** mergeDeployments: the target becomes the merge, unless it cannot be merged. */
  method MergeInPlace(source: Unstructured, target: Unstructured) returns (ok: bool)
    requires source != target
    modifies target
    ensures ok <==> Merge(source.content, old(target.content)).Ok?
    ensures ok ==> Ok(target.content) == Merge(source.content, old(target.content))
  {
    hide MergeContainers, MergeReplicas;
    ok := MergeDeploymentContainerResources(source, target);
    if ok {
      ok := MergeDeploymentReplicas(source, target);
    }
  }

  lemma {:induction false} FoundIsSettable(v: Json, path: seq<string>, x: Json)
    requires GetPath(v, path).Found?
    ensures SetPath(v, path, x).Ok?
  {
    if path != [] {
      FoundIsSettable(v.fields[path[0]], path[1..], x);
    }
  }

  lemma ContainersSettable(target: Json, x: Json)
    requires Containers(target).Ok? && Containers(target).value != []
    ensures SetPath(target, CONTAINERS, x).Ok?
  {
    hide GetPath, SetPath;
    FoundIsSettable(target, CONTAINERS, x);
  }

  // ---------- Laws ----------

  /** The last container of this name. */
  predicate LastNamed(containers: seq<Json>, name: string, i: int) {
    && 0 <= i < |containers| && containers[i].Object? && NameOf(containers[i]) == Some(name)
    && forall j :: i < j < |containers| ==> containers[j].Object? && NameOf(containers[j]) != Some(name)
  }

  /** A name has resources exactly when some container carries it, and then those of the last. */
  lemma {:induction false} ResourcesByNameMeaning(containers: seq<Json>, name: string)
    requires ResourcesByName(containers).Ok?
    ensures name in ResourcesByName(containers).value <==> exists i :: LastNamed(containers, name, i)
    ensures forall i :: LastNamed(containers, name, i) ==>
      ResourcesByName(containers).value[name] == ResourcesOf(containers[i])
  {
    hide NameOf, ResourcesOf;
    if containers != [] {
      var n := |containers| - 1;
      var rest := containers[..n];
      ResourcesByNameMeaning(rest, name);
      if NameOf(containers[n]) == Some(name) {
        assert LastNamed(containers, name, n);
      } else {
        assert forall i :: LastNamed(rest, name, i) <==> LastNamed(containers, name, i);
      }
    }
  }

  /** A merge changes nothing of a container but its resources. */
  predicate SameButResources(a: Json, b: Json) {
    a.Object? && b.Object? && a.fields - {RESOURCES} == b.fields - {RESOURCES}
  }

  lemma MergedMeaning(container: Json, resources: map<string, Json>)
    requires Merged(container, resources).Ok?
    ensures var c := Merged(container, resources).value;
      && SameButResources(container, c) && NameOf(c) == NameOf(container)
      && Merged(c, resources) == Ok(c)
      && (if NameOf(container).Some? && NameOf(container).value in resources
          then ResourcesOf(c) == resources[NameOf(container).value]
          else c == container)
  {
    assert |RESOURCES| != |NAME|;
    var c := Merged(container, resources).value;
    if NameOf(container).Some? && NameOf(container).value in resources {
      var r := resources[NameOf(container).value];
      if r.fields == map[] {
        assert c.fields - {RESOURCES} == c.fields;
      } else {
        assert c.fields[RESOURCES := r] == c.fields;
        assert c.fields - {RESOURCES} == container.fields - {RESOURCES};
      }
    }
  }

  lemma PathsApart()
    ensures Apart(REPLICAS, CONTAINERS) && Apart(CONTAINERS, REPLICAS)
  {
    assert REPLICAS[1] == "replicas" && CONTAINERS[1] == "template" && REPLICAS[1][0] != CONTAINERS[1][0];
    assert Apart(REPLICAS[1..], CONTAINERS[1..]) && Apart(CONTAINERS[1..], REPLICAS[1..]);
  }

  lemma MergeReplicasFrame(source: Json, target: Json, q: seq<string>)
    requires MergeReplicas(source, target).Ok? && Apart(REPLICAS, q)
    ensures GetPath(MergeReplicas(source, target).value, q) == GetPath(target, q)
  {
    hide GetPath, SetPath, RemovePath, Apart;
    if GetPath(source, REPLICAS).Found? {
      SetKeepsApart(target, REPLICAS, GetPath(source, REPLICAS).value, q);
    } else {
      RemoveKeepsApart(target, REPLICAS, q);
    }
  }

  lemma MergeContainersFrame(source: Json, target: Json, q: seq<string>)
    requires MergeContainers(source, target).Ok? && Apart(CONTAINERS, q)
    ensures GetPath(MergeContainers(source, target).value, q) == GetPath(target, q)
  {
    hide GetPath, SetPath, Apart, ResourcesByName, Merged;
    if Containers(target).value != [] {
      SetKeepsApart(target, CONTAINERS,
        List(MergedAll(Containers(target).value, ResourcesByName(Containers(source).value).value)), q);
    }
  }

  lemma MergedIsReadable(source: Json, target: Json)
    requires Merge(source, target).Ok?
    ensures Containers(source).Ok? && Containers(target).Ok?
  {
    hide Containers, ResourcesByName, MergeReplicas;
  }

  /** The containers after a merge. */
  lemma MergedContainers(source: Json, target: Json)
    requires Merge(source, target).Ok?
    ensures ResourcesByName(Containers(source).value).Ok?
    ensures AllMerge(Containers(target).value, ResourcesByName(Containers(source).value).value)
    ensures Containers(Merge(source, target).value)
      == Ok(MergedAll(Containers(target).value, ResourcesByName(Containers(source).value).value))
  {
    hide GetPath, SetPath, RemovePath, Apart, ResourcesByName, Merged, MergeReplicas;
    PathsApart();
    var t := MergeContainers(source, target).value;
    MergeReplicasFrame(source, t, CONTAINERS);
    if Containers(target).value == [] {
      assert MergedAll([], ResourcesByName(Containers(source).value).value) == [];
    } else {
      GetAfterSet(target, CONTAINERS,
        List(MergedAll(Containers(target).value, ResourcesByName(Containers(source).value).value)));
    }
  }

  /** The replicas after a merge are the source's. */
  lemma MergedReplicas(source: Json, target: Json)
    requires Merge(source, target).Ok?
    ensures GetPath(Merge(source, target).value, REPLICAS) == GetPath(source, REPLICAS)
  {
    hide SetPath, RemovePath, Apart, ResourcesByName, Merged;
    PathsApart();
    var t := MergeContainers(source, target).value;
    MergeContainersFrame(source, target, REPLICAS);
    if GetPath(source, REPLICAS).Found? {
      GetAfterSet(t, REPLICAS, GetPath(source, REPLICAS).value);
    } else {
      GetAfterRemove(t, REPLICAS);
      assert !Containers(target).Err?;
      assert !GetPath(target, CONTAINERS).Bad?;
      assert !GetPath(target, REPLICAS).Bad? by { NotBad(target); }
    }
  }

  lemma NotBad(target: Json)
    requires !GetPath(target, CONTAINERS).Bad?
    ensures !GetPath(target, REPLICAS).Bad?
  {
    assert |REPLICAS| == 2 && |CONTAINERS| == 4;
    if target.Object? && REPLICAS[0] in target.fields {
      var spec := target.fields[REPLICAS[0]];
      assert GetPath(target, CONTAINERS) == GetPath(spec, CONTAINERS[1..]) && |CONTAINERS[1..]| > 0;
      assert spec.Null? || spec.Object?;
      var last := REPLICAS[1..];
      assert |last| == 1 && last[1..] == [];
      assert !GetPath(spec, last).Bad?;
    }
  }

  /** What a merge keeps: the number and order of the containers, everything in them but their
      resources, and every field apart from the container list and the replicas. */
  lemma MergeFrame(source: Json, target: Json)
    requires Merge(source, target).Ok?
    ensures var before, after := Containers(target).value, Containers(Merge(source, target).value);
      after.Ok? && |after.value| == |before| && forall i :: 0 <= i < |before| ==>
        SameButResources(before[i], after.value[i])
    ensures forall q :: Apart(CONTAINERS, q) && Apart(REPLICAS, q) ==>
      GetPath(Merge(source, target).value, q) == GetPath(target, q)
  {
    hide GetPath, SetPath, RemovePath, Apart, ResourcesByName, Merged, SameButResources, NameOf, ResourcesOf;
    MergedContainers(source, target);
    var before, m := Containers(target).value, ResourcesByName(Containers(source).value).value;
    forall i | 0 <= i < |before| ensures SameButResources(before[i], Merged(before[i], m).value) {
      MergedMeaning(before[i], m);
    }
    forall q | Apart(CONTAINERS, q) && Apart(REPLICAS, q)
      ensures GetPath(Merge(source, target).value, q) == GetPath(target, q)
    {
      MergeContainersFrame(source, target, q);
      MergeReplicasFrame(source, MergeContainers(source, target).value, q);
    }
  }

  /** What a merge sets: a container whose name the live Deployment has takes the resources of the
      live container, an unnamed or new one keeps its own, and the replicas are the live ones. */
  lemma MergeTakesLive(source: Json, target: Json, i: nat)
    requires Merge(source, target).Ok? && i < |Containers(target).value|
    ensures Containers(source).Ok? && Containers(Merge(source, target).value).Ok?
      && i < |Containers(Merge(source, target).value).value|
    ensures var c, after := Containers(target).value[i], Containers(Merge(source, target).value).value[i];
      && c.Object? && after.Object?
      && (forall j :: NameOf(c).Some? && LastNamed(Containers(source).value, NameOf(c).value, j) ==>
        ResourcesOf(after) == ResourcesOf(Containers(source).value[j]))
      && (NameOf(c).None? || (forall j :: !LastNamed(Containers(source).value, NameOf(c).value, j)) ==> after == c)
    ensures GetPath(Merge(source, target).value, REPLICAS) == GetPath(source, REPLICAS)
  {
    hide GetPath, SetPath, RemovePath, ResourcesByName, LastNamed, MergeReplicas, NameOf, ResourcesOf, Merged;
    MergedContainers(source, target);
    MergedReplicas(source, target);
    var c, m := Containers(target).value[i], ResourcesByName(Containers(source).value).value;
    MergedMeaning(c, m);
    if NameOf(c).Some? {
      ResourcesByNameMeaning(Containers(source).value, NameOf(c).value);
    }
  }

  /** The container list an object has: none where the path ends early or in null. */
  predicate ListsContainers(v: Json, items: seq<Json>) {
    match GetPath(v, ["spec", "template", "spec", "containers"])
    case Bad => false
    case Missing => items == []
    case Found(raw) => (raw.Null? && items == []) || raw == List(items)
  }

  lemma ContainersMeaning(v: Json, items: seq<Json>)
    ensures Containers(v) == Ok(items) <==> ListsContainers(v, items)
  {
    hide GetPath;
  }

  /** A target container can take its resources from the live containers: it is a map, and if they have
      its name the last of that name has a map of resources. */
  predicate Mergeable(c: Json, live: seq<Json>) {
    && c.Object?
    && forall j :: 0 <= j < |live| && NameOf(c).Some? && LastNamed(live, NameOf(c).value, j) ==>
      live[j].Object? && ResourcesOf(live[j]).Object?
  }

  /** Replicas can be set in the object. */
  predicate HasSpec(target: Json) {
    target.Object? && ("spec" in target.fields ==> target.fields["spec"].Object?)
  }

  lemma ReplicasSettable(target: Json, x: Json)
    ensures SetPath(target, REPLICAS, x).Ok? <==> HasSpec(target)
  {
    assert REPLICAS[1..] == ["replicas"] && REPLICAS[1..][1..] == [];
    if target.Object? {
      var child := if "spec" in target.fields then target.fields["spec"] else Object(map[]);
      assert SetPath(child, REPLICAS[1..], x).Ok? <==> child.Object?;
    }
  }

  lemma {:induction false} AllMaps(containers: seq<Json>)
    ensures ResourcesByName(containers).Ok? <==> forall i :: 0 <= i < |containers| ==> containers[i].Object?
  {
    if containers != [] {
      AllMaps(containers[..|containers| - 1]);
      assert forall i :: 0 <= i < |containers| - 1 ==> containers[..|containers| - 1][i] == containers[i];
    }
  }

  lemma MergeableExactly(c: Json, live: seq<Json>)
    requires ResourcesByName(live).Ok?
    ensures Merged(c, ResourcesByName(live).value).Ok? <==> Mergeable(c, live)
  {
    hide ResourcesByName, NameOf, ResourcesOf;
    if c.Object? && NameOf(c).Some? {
      ResourcesByNameMeaning(live, NameOf(c).value);
    }
  }

  /** The merge fails exactly when a container list cannot be read, an entry of either is no map, the live
      resources of a container that both have are no map, or replicas have no spec to go into. */
  lemma MergeVerdict(source: Json, target: Json)
    ensures Merge(source, target).Ok? <==>
      && Containers(source).Ok? && Containers(target).Ok?
      && (forall i :: 0 <= i < |Containers(source).value| ==> Containers(source).value[i].Object?)
      && (forall i :: 0 <= i < |Containers(target).value| ==>
            Mergeable(Containers(target).value[i], Containers(source).value))
      && (GetPath(source, REPLICAS).Found? ==> HasSpec(target))
  {
    hide GetPath, SetPath, ResourcesByName, Merged, Mergeable, HasSpec, RemovePath;
    if Containers(source).Ok? && Containers(target).Ok? {
      var live, before := Containers(source).value, Containers(target).value;
      AllMaps(live);
      NotBad(source);
      if ResourcesByName(live).Ok? {
        var m := ResourcesByName(live).value;
        forall i | 0 <= i < |before| ensures Merged(before[i], m).Ok? <==> Mergeable(before[i], live) {
          MergeableExactly(before[i], live);
        }
        if AllMerge(before, m) {
          if before != [] {
            ContainersSettable(target, List(MergedAll(before, m)));
            SpecStays(target, List(MergedAll(before, m)));
          }
          if GetPath(source, REPLICAS).Found? {
            ReplicasSettable(MergeContainers(source, target).value, GetPath(source, REPLICAS).value);
          }
        }
      }
    }
  }

  lemma SpecStays(target: Json, x: Json)
    requires Containers(target).Ok? && Containers(target).value != [] && SetPath(target, CONTAINERS, x).Ok?
    ensures HasSpec(target) && HasSpec(SetPath(target, CONTAINERS, x).value)
  {
    assert |CONTAINERS| == 4;
    assert GetPath(target.fields["spec"], CONTAINERS[1..]) == GetPath(target, CONTAINERS);
    assert |CONTAINERS[1..]| > 0;
  }

  /** How the merge renders resources: a live container's empty resources, or none, leave the key out. */
  lemma MergeRenders(source: Json, target: Json, i: nat, j: nat)
    requires Merge(source, target).Ok? && i < |Containers(target).value| && j < |Containers(source).value|
    requires Containers(target).value[i].Object? && NameOf(Containers(target).value[i]).Some?
    requires LastNamed(Containers(source).value, NameOf(Containers(target).value[i]).value, j)
    ensures Containers(Merge(source, target).value).Ok? && i < |Containers(Merge(source, target).value).value|
    ensures var live := ResourcesOf(Containers(source).value[j]);
      var after := Containers(Merge(source, target).value).value[i];
      live.Object? && after.Object?
      && if live.fields == map[] then "resources" !in after.fields
         else "resources" in after.fields && after.fields["resources"] == live
  {
    hide GetPath, SetPath, RemovePath, ResourcesByName, LastNamed, MergeReplicas, NameOf, ResourcesOf;
    MergedContainers(source, target);
    ResourcesByNameMeaning(Containers(source).value, NameOf(Containers(target).value[i]).value);
  }

  /** Merging the live Deployment in again changes nothing. */
  lemma MergeIdempotent(source: Json, target: Json)
    requires Merge(source, target).Ok?
    ensures Merge(source, Merge(source, target).value) == Merge(source, target)
  {
    hide GetPath, SetPath, RemovePath, ResourcesByName, NameOf, ResourcesOf, Merged;
    var u := Merge(source, target).value;
    MergedContainers(source, target);
    MergedReplicas(source, target);
    var before, m := Containers(target).value, ResourcesByName(Containers(source).value).value;
    var after := Containers(u).value;
    forall i | 0 <= i < |after| ensures Merged(after[i], m) == Ok(after[i]) {
      MergedMeaning(before[i], m);
    }
    assert MergedAll(after, m) == after;
    if after != [] {
      SetFound(u, CONTAINERS, List(after));
    }
    assert MergeContainers(source, u) == Ok(u);
    if GetPath(source, REPLICAS).Found? {
      SetFound(u, REPLICAS, GetPath(source, REPLICAS).value);
    } else {
      RemoveMissing(u, REPLICAS);
    }
  }

  predicate UniqueNames(containers: seq<Json>) {
    forall i, j :: 0 <= i < j < |containers| && containers[i].Object? && containers[j].Object? ==>
      NameOf(containers[i]).None? || NameOf(containers[i]) != NameOf(containers[j])
  }

  /** No resources, or some: not an explicit empty map and not a malformed value. */
  predicate PlainResources(container: Json)
    requires container.Object?
  {
    RESOURCES in container.fields ==> container.fields[RESOURCES].Object? && container.fields[RESOURCES].fields != map[]
  }

  /** Every container the live Deployment does not have renders plain resources. */
  predicate NewContainersPlain(source: Json, target: Json)
    requires Merge(source, target).Ok?
  {
    var m := ResourcesByName(Containers(source).value).value;
    forall c :: c in Containers(target).value && c.Object? && NameOf(c).Some? && NameOf(c).value !in m ==>
      PlainResources(c)
  }

  lemma {:induction false} AllObjects(containers: seq<Json>)
    requires forall c :: c in containers ==> c.Object?
    ensures ResourcesByName(containers).Ok?
  {
    hide NameOf, ResourcesOf;
    if containers != [] {
      AllObjects(containers[..|containers| - 1]);
    }
  }

  /** One container of a merge of the merge's own result. */
  lemma RemergedContainer(c: Json, m: map<string, Json>, mu: map<string, Json>)
    requires Merged(c, m).Ok?
    requires NameOf(c).Some? ==> NameOf(c).value in mu && mu[NameOf(c).value] == ResourcesOf(Merged(c, m).value)
    ensures Merged(c, mu) == Merged(c, m) <==> (NameOf(c).Some? && NameOf(c).value !in m ==> PlainResources(c))
  {
    if NameOf(c).Some? && NameOf(c).value !in m {
      assert c.fields - {RESOURCES} == c.fields <==> RESOURCES !in c.fields;
      assert RESOURCES in c.fields ==> c.fields[RESOURCES := c.fields[RESOURCES]] == c.fields;
      assert Merged(c, m) == Ok(c);
    }
  }

  lemma {:induction false} UniqueLast(containers: seq<Json>, i: nat)
    requires i < |containers| && UniqueNames(containers) && (forall c :: c in containers ==> c.Object?)
    requires NameOf(containers[i]).Some?
    ensures LastNamed(containers, NameOf(containers[i]).value, i)
  {
    hide NameOf;
    assert forall j :: 0 <= j < |containers| ==> containers[j] in containers;
  }

  lemma SameNamesUnique(before: seq<Json>, after: seq<Json>)
    requires UniqueNames(before) && |after| == |before|
    requires forall i :: 0 <= i < |before| ==>
      before[i].Object? && after[i].Object? && NameOf(after[i]) == NameOf(before[i])
    ensures UniqueNames(after)
  {
    hide NameOf;
  }

  /** Merging the result onto the rendered Deployment again gives the result again, for unique
      container names, exactly when no container new to the live Deployment renders resources as an
      explicit empty map (or as no map at all). */
  lemma MergeAbsorbs(source: Json, target: Json)
    requires Merge(source, target).Ok? && UniqueNames(Containers(target).value)
    ensures Merge(Merge(source, target).value, target) == Merge(source, target) <==> NewContainersPlain(source, target)
  {
    hide GetPath, SetPath, RemovePath, ResourcesByName, NameOf, ResourcesOf, Merged, UniqueNames, PlainResources;
    var u := Merge(source, target).value;
    MergedContainers(source, target);
    MergedReplicas(source, target);
    var before, m := Containers(target).value, ResourcesByName(Containers(source).value).value;
    var after := Containers(u).value;
    forall i | 0 <= i < |before|
      ensures before[i].Object? && after[i].Object? && NameOf(after[i]) == NameOf(before[i])
    {
      MergedMeaning(before[i], m);
    }
    SameNamesUnique(before, after);
    AllObjects(after);
    var mu := ResourcesByName(after).value;
    forall i | 0 <= i < |before|
      ensures Merged(before[i], mu) == Ok(after[i]) <==>
        (NameOf(before[i]).Some? && NameOf(before[i]).value !in m ==> PlainResources(before[i]))
    {
      if NameOf(before[i]).Some? {
        UniqueLast(after, i);
        ResourcesByNameMeaning(after, NameOf(before[i]).value);
      }
      RemergedContainer(before[i], m, mu);
    }
    RemergeStage(source, target, mu);
  }

  /** The two stages of the second merge. */
  lemma RemergeStage(source: Json, target: Json, mu: map<string, Json>)
    requires Merge(source, target).Ok?
    requires Containers(Merge(source, target).value).Ok?
      && ResourcesByName(Containers(Merge(source, target).value).value) == Ok(mu)
    requires GetPath(Merge(source, target).value, REPLICAS) == GetPath(source, REPLICAS)
    ensures Merge(Merge(source, target).value, target) == Merge(source, target) <==>
      AllMerge(Containers(target).value, mu)
        && MergedAll(Containers(target).value, mu) == Containers(Merge(source, target).value).value
  {
    hide GetPath, SetPath, RemovePath, ResourcesByName, Merged;
    var u := Merge(source, target).value;
    MergedContainers(source, target);
    if AllMerge(Containers(target).value, mu) && MergedAll(Containers(target).value, mu) == Containers(u).value {
      assert MergeContainers(u, target) == MergeContainers(source, target);
    } else if Merge(u, target) == Ok(u) {
      MergedContainers(u, target);
    }
  }

  lemma {:induction false} SetOnEmpty(path: seq<string>, x: Json)
    ensures path != [] ==> SetPath(Object(map[]), path, x).Ok? && GetPath(Object(map[]), path) == Missing
  {
    if |path| > 1 {
      SetOnEmpty(path[1..], x);
    }
  }

  /** The exception is real: a container that is new to the cluster and renders `resources: {}`
      loses that field when the result is merged onto the manifest again. */
  lemma EmptyResourcesNotAbsorbed(name: string) returns (source: Json, target: Json)
    ensures Merge(source, target).Ok?
    ensures Merge(Merge(source, target).value, target) != Merge(source, target)
  {
    hide GetPath, SetPath, RemovePath;
    var c := Object(map[NAME := Text(name), RESOURCES := Object(map[])]);
    source := Object(map[]);
    SetOnEmpty(CONTAINERS, List([c]));
    SetOnEmpty(REPLICAS, Null);
    target := SetPath(Object(map[]), CONTAINERS, List([c])).value;
    GetAfterSet(Object(map[]), CONTAINERS, List([c]));
    assert Containers(target) == Ok([c]) && Containers(source) == Ok([]);
    assert |NAME| != |RESOURCES| && NameOf(c) == Some(name);
    assert Merged(c, map[]) == Ok(c);
    assert AllMerge([c], map[]) && MergedAll([c], map[]) == [c];
    SetFound(target, CONTAINERS, List([c]));
    assert MergeContainers(source, target) == Ok(target);
    assert c in Containers(target).value && !PlainResources(c);
    MergeAbsorbs(source, target);
  }
}
