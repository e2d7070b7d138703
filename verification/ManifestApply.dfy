/**
 Applying manifests and cleaning up, call by call: every call to the API server may fail.
 */
module ManifestApply {
  import opened GoText
  import opened Json
  import opened ServerSideApply
  import opened IngressConfig
  import opened Manifests

  /** A List: the API is not served, an error, or what it selects. */
  datatype Listing = NoMatch | ListFailed | Listed(ids: seq<Id>)

  /** Ids is some order of exactly these. */
  ghost predicate Lists(ids: seq<Id>, objects: Objects, gvk: Gvk, scope: Option<string>) {
    forall id :: id in ids <==> id in objects && Labelled(objects[id]) && Targets(gvk, scope, id)
  }

  predicate AnyOf(objects: Objects, gvk: Gvk, scope: Option<string>) {
    exists id :: id in objects && Targets(gvk, scope, id)
  }

  /** The ConfigMap between its apply and the clearing of a stale contract key. */
  function ConfigApplied(objects: Objects, namespace: string, owner: Owner): Fields {
    var id := ConfigRef(namespace).id;
    Apply(if id in objects then objects[id]
      else map[], ConfigPayload(Metadata(CONFIG_MAP, owner.uid), owner.ingresses, owner.contract), FIELD_OWNER)
  }

  /** prepareRenderedObjects' loop. */
  method PrepareRenderedObjects(objects: seq<Rendered>) returns (prepared: seq<Rendered>)
    ensures prepared == Prepared(objects)
  {
    prepared := [];
    for i := 0 to |objects|
      invariant prepared == Prepared(objects[..i])
    {
      assert objects[..i + 1][..i] == objects[..i];
      var r := objects[i];
      if r.id.kind == CONFIG_MAP && r.id.name == IMAGE_PARAMS_CONFIG_MAP {
        continue;
      }
      if r.id.kind in CLUSTER_SCOPED {
        r := r.(id := r.id.(namespace := ""));
      }
      prepared := prepared + [r];
    }
    assert objects[..|objects|] == objects;
  }

  /** The part of a sweep that looks at these kinds. */
  predicate OrphanOf(kinds: seq<Gvk>, scope: Option<string>, objects: Objects, id: Id, desired: set<Ref>) {
    id in objects && Labelled(objects[id]) && TargetsUndesired(kinds, scope, id, desired)
  }

  /** `after` is `before` without some of these orphans; without all of them if `complete`. */
  ghost predicate Reduced(before: Objects, after: Objects, kinds: seq<Gvk>, scope: Option<string>, desired: set<Ref>,
      complete: bool) {
    && (forall id :: id in after ==> id in before && after[id] == before[id])
    && (forall id :: id in before && id !in after ==> OrphanOf(kinds, scope, before, id, desired))
    && (complete ==> forall id :: id in after ==> !OrphanOf(kinds, scope, before, id, desired))
  }

  class Cluster {
    var objects: Objects

    constructor (objects: Objects)
      ensures this.objects == objects
    {
      this.objects := objects;
    }

    method Get(id: Id) returns (ok: bool, live: Option<Fields>)
      ensures ok ==> live == Live(objects, id)
    {
      ok := *;
      live := Live(objects, id);
    }

    method PatchApply(id: Id, applied: Values) returns (ok: bool)
      modifies this
      ensures objects == if ok then old(objects)[id := Apply(if id in old(objects) then old(objects)[id]
        else map[], applied, FIELD_OWNER)] else old(objects)
    {
      ok := *;
      if ok {
        objects := objects[id := Apply(if id in objects then objects[id] else map[], applied, FIELD_OWNER)];
      }
    }

    method PatchRemove(id: Id, k: Key) returns (ok: bool)
      requires id in objects
      modifies this
      ensures objects == if ok then old(objects)[id := RemoveKey(old(objects)[id], k)] else old(objects)
    {
      ok := *;
      if ok {
        objects := objects[id := RemoveKey(objects[id], k)];
      }
    }

    /** A Delete; an object that is gone already counts as deleted. */
    method Delete(id: Id) returns (ok: bool)
      modifies this
      ensures objects == if ok then old(objects) - {id} else old(objects)
    {
      ok := *;
      if ok {
        objects := objects - {id};
      }
    }

    method List(gvk: Gvk, scope: Option<string>) returns (r: Listing)
      ensures r.NoMatch? ==> !AnyOf(objects, gvk, scope)
      ensures r.Listed? ==> Lists(r.ids, objects, gvk, scope)
    {
      var failed: bool, served: bool := *, *;
      var selected := set id | id in objects && Labelled(objects[id]) && Targets(gvk, scope, id);
      if failed {
        return ListFailed;
      }
      if !served && forall id :: id in objects ==> !Targets(gvk, scope, id) {
        return NoMatch;
      }
      var ids: seq<Id> := [];
      var todo := selected;
      while todo != {}
        invariant todo <= selected && forall id :: id in ids <==> id in selected && id !in todo
      {
        var id :| id in todo;
        todo := todo - {id};
        ids := ids + [id];
      }
      return Listed(ids);
    }

    /** applyObjects: stops at the first failure. */
    method ApplyObjects(rs: seq<Rendered>, owner: string) returns (ok: bool, ghost done: nat)
      modifies this
      ensures done <= |rs| && objects == ApplyAll(old(objects), rs[..done], owner)
      ensures ok ==> done == |rs|
    {
      done := 0;
      for i := 0 to |rs|
        invariant done == i && objects == ApplyAll(old(objects), rs[..i], owner)
      {
        assert rs[..i + 1][..i] == rs[..i];
        var r := rs[i];
        var values := Base(r, owner);
        if r.id.kind == DEPLOYMENT {
          var found, live := Get(r.id);
          if !found {
            return false, done;
          }
          if live.Some? && !IsManaged(live.value) {
            values := MergeLive(values, ValuesOf(live.value));
          }
        }
        if r.id.kind == CLUSTER_ROLE && Aggregation in values {
          values := values - {Rules};
        }
        assert values == Payload(Live(objects, r.id), r, owner) by { assert |DEPLOYMENT| != |CLUSTER_ROLE|; }
        var applied := PatchApply(r.id, values);
        if !applied {
          return false, done;
        }
        done := i + 1;
      }
      return true, done;
    }

    /** applyIngressConfig and clearIngressContract. */
    method ApplyIngressConfig(owner: Owner, namespace: string) returns (ok: bool, applied: bool)
      modifies this
      ensures ok ==> applied && objects == AfterConfig(old(objects), namespace, owner)
      ensures !applied ==> objects == old(objects)
      ensures applied && !ok ==>
        Live(objects, ConfigRef(namespace).id) == Some(ConfigApplied(old(objects), namespace, owner))
      ensures objects.Keys == old(objects).Keys + if applied then {ConfigRef(namespace).id} else {}
      ensures forall id :: id in old(objects) && id != ConfigRef(namespace).id ==> objects[id] == old(objects)[id]
    {
      hide Apply, ConfigPayload, Metadata, ConfigRef, CONTRACT;
      var id := ConfigRef(namespace).id;
      applied := PatchApply(id, ConfigPayload(Metadata(CONFIG_MAP, owner.uid), owner.ingresses, owner.contract));
      if !applied {
        return false, false;
      }
      if owner.contract.None? {
        var found, live := Get(id);
        if !found {
          return false, true;
        }
        if live.Some? && CONTRACT in live.value {
          ok := PatchRemove(id, CONTRACT);
          return ok, true;
        }
        assert RemoveKey(objects[id], CONTRACT) == objects[id];
      }
      return true, true;
    }

    /** One of the two loops of gcOrphanedResources, and of cleanupManagedResources with nothing
        desired: every kind is tried even after errors. */
    method DeleteUndesired(kinds: seq<Gvk>, scope: Option<string>, desired: set<Ref>) returns (ok: bool)
      modifies this
      ensures Reduced(old(objects), objects, kinds, scope, desired, ok)
    {
      hide Labelled, Targets;
      ok := true;
      for i := 0 to |kinds|
        invariant Reduced(old(objects), objects, kinds[..i], scope, desired, ok)
      {
        label Kind:
        var listing := List(kinds[i], scope);
        if listing.Listed? {
          var deleted := DeleteEach(kinds[i], scope, listing.ids, desired);
          OneMoreKind(old(objects), old@Kind(objects), objects, kinds, i, scope, desired, ok, deleted);
          ok := ok && deleted;
        } else {
          OneMoreKind(old(objects), objects, objects, kinds, i, scope, desired, ok, listing.NoMatch?);
          ok := ok && listing.NoMatch?;
        }
      }
      assert kinds[..|kinds|] == kinds;
    }

    /** The inner loop: delete what the list returned unless it is desired. */
    method DeleteEach(gvk: Gvk, scope: Option<string>, ids: seq<Id>, desired: set<Ref>) returns (ok: bool)
      requires Lists(ids, objects, gvk, scope)
      modifies this
      ensures Reduced(old(objects), objects, [gvk], scope, desired, ok)
    {
      hide Labelled, Targets;
      ok := true;
      for i := 0 to |ids|
        invariant forall id :: id in objects ==> id in old(objects) && objects[id] == old(objects)[id]
        invariant forall id :: id in old(objects) && id !in objects ==> id in ids && Ref(id, gvk.version) !in desired
        invariant ok ==> forall j :: 0 <= j < i && ids[j] in objects ==> Ref(ids[j], gvk.version) in desired
      {
        if Ref(ids[i], gvk.version) in desired {
          continue;
        }
        var deleted := Delete(ids[i]);
        if !deleted {
          ok := false;
        }
      }
      assert [gvk][0] == gvk;
    }

    /** gcOrphanedResources */
    method GcOrphanedResources(namespace: string, desired: set<Ref>) returns (ok: bool)
      modifies this
      ensures desired == {} ==> ok && objects == old(objects)
      ensures desired != {} ==> PartlySwept(old(objects), objects, namespace, desired, ok)
    {
      if desired == {} {
        return true;
      }
      ok := Sweep(namespace, desired);
    }

    /** cleanupManagedResources: the operator removes everything it applied. */
    method CleanupManagedResources(namespace: string) returns (ok: bool)
      modifies this
      ensures PartlySwept(old(objects), objects, namespace, {}, ok)
    {
      ok := Sweep(namespace, {});
    }

    /** The two loops, namespaced kinds first; errors are joined. */
    method Sweep(namespace: string, desired: set<Ref>) returns (ok: bool)
      modifies this
      ensures PartlySwept(old(objects), objects, namespace, desired, ok)
    {
      hide Labelled, TargetsUndesired, CLEANUP_KINDS, CLUSTER_CLEANUP_KINDS;
      var namespaced := DeleteUndesired(CLEANUP_KINDS, Some(namespace), desired);
      var cluster := DeleteUndesired(CLUSTER_CLEANUP_KINDS, None, desired);
      ok := namespaced && cluster;
      if ok {
        assert objects == Swept(old(objects), namespace, desired);
      }
    }

    /** The loop over the manifest groups: each is refused as a whole if it renders a reference twice,
        then applied. `done` is what was applied in the end. */
    method ApplyGroups(owner: string, namespace: string, groups: seq<Group>)
        returns (ok: bool, desired: set<Ref>, ghost done: seq<Rendered>)
      modifies this
      ensures done <= AllRendered(groups) && objects == ApplyAll(old(objects), done, owner)
      ensures ok ==> done == AllRendered(groups) && Renders(groups)
      ensures ok ==> DistinctRefs(namespace, done) && desired == Desired(namespace, done)
    {
      hide ApplyOne, Prepared, DistinctRefs, Desired;
      desired, done := {ConfigRef(namespace)}, [];
      NothingRendered(namespace);
      for i := 0 to |groups|
        invariant done == AllRendered(groups[..i]) && Renders(groups[..i])
        invariant objects == ApplyAll(old(objects), done, owner)
        invariant desired == Desired(namespace, done) && DistinctRefs(namespace, done)
      {
        AllRenderedPrefix(groups, i);
        AllRenderedPrefix(groups, i + 1);
        assert groups[..i + 1][..i] == groups[..i];
        if groups[i].RenderFailed? {
          return false, desired, done;
        }
        if groups[i].Skipped? {
          assert done + [] == done;
          continue;
        }
        var items := PrepareRenderedObjects(groups[i].items);
        var distinct;
        distinct, desired := AddRefs(namespace, done, desired, items);
        if !distinct {
          return false, desired, done;
        }
        ghost var before := done;
        var applied; ghost var n;
        applied, n := ApplyObjects(items, owner);
        ApplyAllConcat(old(objects), before, items[..n], owner);
        done := before + items[..n];
        assert done <= before + items;
        if !applied {
          return false, desired, done;
        }
        assert items[..n] == items;
      }
      assert groups[..|groups|] == groups;
      return true, desired, done;
    }

    /** renderAndApply. `configured` tells whether the ConfigMap was applied, `collecting` whether the
        run got as far as garbage collection. */
    method RenderAndApply(owner: Owner, namespace: string, groups: seq<Group>)
        returns (ok: bool, ghost configured: bool, ghost collecting: bool)
      modifies this
      ensures ok ==> (collecting && Renders(groups) && DistinctRefs(namespace, AllRendered(groups))
                      && objects == Final(old(objects), namespace, owner, AllRendered(groups)))
      ensures !configured ==> !ok && objects == old(objects)
      ensures !ok ==> Interrupted(old(objects), objects, namespace, owner, AllRendered(groups))
      ensures !collecting ==>
        old(objects).Keys <= objects.Keys && OnlyRenderedChanged(old(objects), objects, namespace, AllRendered(groups))
      ensures collecting ==>
        PartlySwept(ApplyAll(AfterConfig(old(objects), namespace, owner), AllRendered(groups), owner.uid), objects,
          namespace,
                                         Desired(namespace, AllRendered(groups)), ok)
    {
      hide Applied, AfterConfig, Swept, ConfigRef, Renders, DistinctRefs, ApplyAll, AllRendered, Desired;
      collecting := false;
      ok, configured := ApplyIngressConfig(owner, namespace);
      if !ok {
        assert configured ==>
          objects == old(objects)[ConfigRef(namespace).id := ConfigApplied(old(objects), namespace, owner)];
        return false, configured, false;
      }
      ghost var start := objects;
      var desired; ghost var done;
      ok, desired, done := ApplyGroups(owner.uid, namespace, groups);
      ApplyAllFacts(start, done, owner.uid);
      if !ok {
        assert done == AllRendered(groups)[..|done|];
        return false, configured, false;
      }
      collecting := true;
      ConfigDesired(namespace, done);
      ok := GcOrphanedResources(namespace, desired);
    }
  }

  /** What a run that returns an error can leave: nothing done, the ConfigMap applied but not cleared,
      a prefix of the rendered objects applied, or a sweep that is not complete. */
  ghost predicate Interrupted(before: Objects, after: Objects, namespace: string, owner: Owner, rs: seq<Rendered>) {
    || after == before
    || after == before[ConfigRef(namespace).id := ConfigApplied(before, namespace, owner)]
    || (exists n :: 0 <= n <= |rs| && after == ApplyAll(AfterConfig(before, namespace, owner), rs[..n], owner.uid))
    || PartlySwept(ApplyAll(AfterConfig(before, namespace, owner), rs, owner.uid), after, namespace,
      Desired(namespace, rs), false)
  }

  /** Only the projected ConfigMap and rendered objects differ. */
  predicate OnlyRenderedChanged(before: Objects, after: Objects, namespace: string, rs: seq<Rendered>) {
    forall id :: id in before && id in after && id != ConfigRef(namespace).id ==>
      (exists r :: r in rs && r.id == id) || after[id] == before[id]
  }

  /** The loop that records the references of one group and refuses duplicates. */
  method AddRefs(namespace: string, ghost rs: seq<Rendered>, desired: set<Ref>, items: seq<Rendered>)
      returns (distinct: bool, all: set<Ref>)
    requires desired == Desired(namespace, rs) && DistinctRefs(namespace, rs)
    ensures distinct <==> DistinctRefs(namespace, rs + items)
    ensures distinct ==> all == Desired(namespace, rs + items)
  {
    hide ConfigRef, RefOf;
    all := desired;
    assert rs + items[..0] == rs;
    for i := 0 to |items|
      invariant all == Desired(namespace, rs + items[..i]) && DistinctRefs(namespace, rs + items[..i])
    {
      var r := items[i];
      DesiredSnoc(namespace, rs + items[..i], r);
      assert rs + items[..i + 1] == rs + items[..i] + [r];
      if RefOf(r) in all {
        DistinctPrefix(namespace, rs + items[..i + 1], rs + items);
        return false, all;
      }
      all := all + {RefOf(r)};
    }
    assert items[..|items|] == items;
    return true, all;
  }

  lemma DesiredSnoc(namespace: string, rs: seq<Rendered>, r: Rendered)
    ensures Desired(namespace, rs + [r]) == Desired(namespace, rs) + {RefOf(r)}
    ensures DistinctRefs(namespace, rs + [r]) <==> DistinctRefs(namespace, rs) && RefOf(r) !in Desired(namespace, rs)
  {
    hide ConfigRef, RefOf;
    var s := rs + [r];
    assert s[|rs|] == r && forall i :: 0 <= i < |rs| ==> s[i] == rs[i];
    assert forall x :: x in s <==> x in rs || x == r;
    forall x | x in rs ensures DistinctRefs(namespace, s) ==> RefOf(x) != RefOf(r) {
      var i :| 0 <= i < |rs| && rs[i] == x;
      assert s[i] == x;
    }
    forall i | 0 <= i < |rs| ensures RefOf(rs[i]) in Desired(namespace, rs) {
      assert rs[i] in rs;
    }
  }

  lemma NothingRendered(namespace: string)
    ensures Desired(namespace, []) == {ConfigRef(namespace)} && DistinctRefs(namespace, [])
  {
  }

  lemma ConfigDesired(namespace: string, rs: seq<Rendered>)
    ensures ConfigRef(namespace) in Desired(namespace, rs)
  {
    hide ConfigRef;
  }

  lemma DistinctPrefix(namespace: string, rs: seq<Rendered>, all: seq<Rendered>)
    requires rs <= all
    ensures DistinctRefs(namespace, all) ==> DistinctRefs(namespace, rs)
  {
  }

  predicate Renders(groups: seq<Group>) {
    forall i :: 0 <= i < |groups| ==> !groups[i].RenderFailed?
  }

  /** `after` is `before` without some orphans, without all of them if `complete`. */
  predicate PartlySwept(before: Objects, after: Objects, namespace: string, desired: set<Ref>, complete: bool) {
    && (forall id :: id in after ==> id in before && after[id] == before[id])
    && (forall id :: id in before && id !in after ==> Orphan(before, id, namespace, desired))
    && (complete ==> after == Swept(before, namespace, desired))
  }

  lemma {:induction false} AllRenderedPrefix(groups: seq<Group>, i: nat)
    requires i <= |groups|
    ensures AllRendered(groups[..i]) <= AllRendered(groups)
    decreases |groups| - i
  {
    if i == |groups| {
      assert groups[..i] == groups;
    } else {
      AllRenderedPrefix(groups, i + 1);
      assert groups[..i + 1][..i] == groups[..i];
    }
  }

  lemma {:induction false} ApplyAllConcat(objects: Objects, rs: seq<Rendered>, more: seq<Rendered>, owner: string)
    ensures ApplyAll(objects, rs + more, owner) == ApplyAll(ApplyAll(objects, rs, owner), more, owner)
  {
    hide ApplyOne;
    if more == [] {
      assert rs + more == rs;
    } else {
      var n := |more| - 1;
      ApplyAllConcat(objects, rs, more[..n], owner);
      assert (rs + more)[..|rs + more| - 1] == rs + more[..n];
    }
  }

  /** Applying deletes nothing and touches only what is applied. */
  lemma {:induction false} ApplyAllFacts(objects: Objects, rs: seq<Rendered>, owner: string)
    ensures objects.Keys <= ApplyAll(objects, rs, owner).Keys
    ensures forall id :: id in objects && (forall r :: r in rs ==> r.id != id) ==>
      ApplyAll(objects, rs, owner)[id] == objects[id]
  {
    hide Applied;
    if rs != [] {
      var n := |rs| - 1;
      ApplyAllFacts(objects, rs[..n], owner);
      assert forall r :: r in rs[..n] ==> r in rs;
      assert rs[n] in rs;
    }
  }

  lemma OneMoreKind(before: Objects, middle: Objects, after: Objects, kinds: seq<Gvk>, i: nat, scope: Option<string>,
      desired: set<Ref>,
                    complete: bool, last: bool)
    requires i < |kinds|
    requires Reduced(before, middle, kinds[..i], scope, desired, complete)
    requires Reduced(middle, after, [kinds[i]], scope, desired, last)
      || (middle == after && (last ==> !AnyOf(middle, kinds[i], scope)))
    ensures Reduced(before, after, kinds[..i + 1], scope, desired, complete && last)
  {
    hide Labelled, Targets;
    assert kinds[..i + 1] == kinds[..i] + [kinds[i]];
    forall id ensures TargetsUndesired(kinds[..i + 1], scope, id, desired) <==>
      TargetsUndesired(kinds[..i], scope, id, desired) || TargetsUndesired([kinds[i]], scope, id, desired)
    {
      assert [kinds[i]][0] == kinds[i] && kinds[..i + 1][i] == kinds[i];
      assert forall j :: 0 <= j < i ==> kinds[..i + 1][j] == kinds[..i][j];
    }
    forall id ensures TargetsUndesired([kinds[i]], scope, id, desired) ==> Targets(kinds[i], scope, id) {
    }
  }
}
