/**
 The leaf-field merge that the apply model uses is the tree merge of merge_deployments.go.
 */
module DeploymentLeaves {
  import opened GoText
  import opened Json
  import opened ServerSideApply
  import opened Manifests
  import MergeDeployments

  /** The object has a well-formed container list. */
  predicate Readable(d: Json) {
    MergeDeployments.Containers(d).Ok? && MergeDeployments.ResourcesByName(MergeDeployments.Containers(d).value).Ok?
  }

  function Resources(d: Json): map<string, Json>
    requires Readable(d)
  {
    MergeDeployments.ResourcesByName(MergeDeployments.Containers(d).value).value
  }

  /** A field the merge may take from the live Deployment. */
  predicate Customisable(k: Key) {
    k.Container? || k.Resource? || k.Replicas?
  }

  /** The value at the path, if it is a leaf of server-side apply: no map, or an empty one. */
  function LeafAt(v: Json, path: seq<string>): Option<Json> {
    if path == [] || !v.Object? then None
    else
      match GetPath(v, path)
      case Found(x) => if x.Object? && x.fields != map[] then None else Some(x)
      case _ => None
  }

  function Leaf(d: Json, k: Key): Option<Json>
    requires Readable(d) && Customisable(k)
  {
    match k
    case Replicas => (match GetPath(d, MergeDeployments.REPLICAS) case Found(x) => Some(x) case _ => None)
    case Container(name) => if name in Resources(d) then Some(Text(name)) else None
    case Resource(name, path) => if name in Resources(d) then LeafAt(Resources(d)[name], path) else None
  }

  /** The leaf fields say the same about containers, their resources and replicas as the tree. */
  ghost predicate Represents(v: Values, d: Json) {
    Readable(d) && forall k :: Customisable(k) ==>
      (k in v <==> Leaf(d, k).Some?) && (k in v ==> Leaf(d, k) == Some(v[k]))
  }

  /** The resources after a merge, by container name. */
  lemma MergedResources(source: Json, target: Json, name: string)
    requires MergeDeployments.Merge(source, target).Ok?
    ensures Readable(source) && Readable(target) && Readable(MergeDeployments.Merge(source, target).value)
    ensures var m := Resources(MergeDeployments.Merge(source, target).value);
      && (name in m <==> name in Resources(target))
      && (name in m ==> m[name] == if name in Resources(source) then Resources(source)[name]
        else Resources(target)[name])
  {
    hide MergeDeployments.Merge, MergeDeployments.Merged, MergeDeployments.ResourcesByName,
         MergeDeployments.ResourcesOf, MergeDeployments.NameOf, MergeDeployments.Containers;
    var u := MergeDeployments.Merge(source, target).value;
    MergeDeployments.MergedIsReadable(source, target);
    MergeDeployments.MergedContainers(source, target);
    var before, after := MergeDeployments.Containers(target).value, MergeDeployments.Containers(u).value;
    var ms := MergeDeployments.ResourcesByName(MergeDeployments.Containers(source).value).value;
    forall i | 0 <= i < |before|
      ensures before[i].Object? && after[i].Object?
        && MergeDeployments.NameOf(after[i]) == MergeDeployments.NameOf(before[i])
      ensures MergeDeployments.ResourcesOf(after[i]) ==
        (if MergeDeployments.NameOf(before[i]).Some?
          && MergeDeployments.NameOf(before[i]).value in ms then ms[MergeDeployments.NameOf(before[i]).value]
         else MergeDeployments.ResourcesOf(before[i]))
    {
      MergeDeployments.MergedMeaning(before[i], ms);
    }
    MergeDeployments.AllObjects(before);
    MergeDeployments.AllObjects(after);
    MergeDeployments.ResourcesByNameMeaning(before, name);
    MergeDeployments.ResourcesByNameMeaning(after, name);
    assert forall i :: MergeDeployments.LastNamed(before, name, i) <==> MergeDeployments.LastNamed(after, name, i);
  }

  /** If the leaf fields of the manifest and of the live object represent the two Deployments, the
      merged leaf fields represent the merged Deployment. */
  lemma LeafMergeIsTreeMerge(source: Json, target: Json, live: Values, rendered: Values)
    requires MergeDeployments.Merge(source, target).Ok?
    requires Represents(rendered, target) && Represents(live, source)
    ensures Represents(MergeLive(rendered, live), MergeDeployments.Merge(source, target).value)
  {
    hide MergeDeployments.Merge, GetPath, Resources, Readable, HasContainer;
    var u := MergeDeployments.Merge(source, target).value;
    var merged := MergeLive(rendered, live);
    MergeDeployments.MergedReplicas(source, target);
    MergedResources(source, target, "");
    forall k: Key | Customisable(k) ensures (k in merged <==> Leaf(u, k).Some?)
      && (k in merged ==> Leaf(u, k) == Some(merged[k])) {
      match k {
        case Container(name) => MergedResources(source, target, name);
        case Resource(name, _) =>
          MergedResources(source, target, name);
          assert Container(name) in rendered <==> name in Resources(target);
          HasLiveContainer(live, source, name);
        case _ =>
      }
    }
  }

  lemma HasLiveContainer(live: Values, source: Json, name: string)
    requires Represents(live, source)
    ensures HasContainer(live, name) <==> name in Resources(source)
  {
    hide Readable, Resources;
    if name in Resources(source) {
      assert Container(name) in live && ContainerOf(Container(name)) == Some(name);
    }
    forall k | k in live && ContainerOf(k) == Some(name) ensures name in Resources(source) {
      assert Customisable(k) && Leaf(source, k).Some?;
    }
  }
}
