/**
 Retries: runs of renderAndApply that fail part way, any number of them and at any call, do not show in
 what the run that finally succeeds leaves behind.
 */
module ManifestRetries {
  import opened GoText
  import opened ServerSideApply
  import opened IngressConfig
  import opened Manifests
  import opened ManifestLaws
  import opened ManifestApply

  /** The states between failing runs with the same inputs; nobody else changes the cluster. */
  ghost predicate Retries(states: seq<Objects>, namespace: string, owner: Owner, rs: seq<Rendered>) {
    |states| > 0 && forall i :: 0 <= i < |states| - 1 ==> Interrupted(states[i], states[i + 1], namespace, owner, rs)
  }

  // ---------- Scripts broken off and repeated ----------

  lemma {:induction false} WrittenConcat(f: Fields, a: seq<Write>, b: seq<Write>)
    ensures AllWritten(f, a + b, FIELD_OWNER) == AllWritten(AllWritten(f, a, FIELD_OWNER), b, FIELD_OWNER)
  {
    hide Written;
    if b == [] {
      assert a + b == a;
    } else {
      assert (a + b)[..|a + b| - 1] == a + b[..|b| - 1];
      WrittenConcat(f, a, b[..|b| - 1]);
    }
  }

  /** Breaking a script off and then running all of it is running all of it. */
  lemma BrokenOffScript(f: Fields, done: seq<Write>, all: seq<Write>)
    requires done <= all
    ensures AllWritten(AllWritten(f, done, FIELD_OWNER), all, FIELD_OWNER) == AllWritten(f, all, FIELD_OWNER)
  {
    hide AllWritten;
    var rest := all[|done|..];
    assert all == done + rest;
    WrittenConcat(AllWritten(f, done, FIELD_OWNER), done, rest);
    WrittenConcat(f, done, rest);
    ScriptSettles(f, done, FIELD_OWNER);
  }

  lemma {:induction false} ScriptPrefix(namespace: string, owner: Owner, rs: seq<Rendered>, n: nat, id: Id)
    requires n <= |rs|
    ensures Script(namespace, owner, rs[..n], id) <= Script(namespace, owner, rs, id)
    decreases |rs|
  {
    hide ConfigPayload, Payload;
    if n == |rs| {
      assert rs[..n] == rs;
    } else {
      assert rs[..|rs| - 1][..n] == rs[..n];
      ScriptPrefix(namespace, owner, rs[..|rs| - 1], n, id);
    }
  }

  /** What these writes make of the object. */
  function Turned(objects: Objects, id: Id, ws: seq<Write>): Option<Fields> {
    if ws == [] then Live(objects, id)
      else Some(AllWritten(if id in objects then objects[id] else map[], ws, FIELD_OWNER))
  }

  /** What a broken off run leaves of one object other than a Deployment: a prefix of its writes, unless
      the sweep took it. */
  lemma InterruptedAt(before: Objects, after: Objects, namespace: string, owner: Owner, rs: seq<Rendered>, id: Id)
    returns (done: seq<Write>)
    requires Interrupted(before, after, namespace, owner, rs) && id.kind != DEPLOYMENT
    ensures done <= Script(namespace, owner, rs, id)
    ensures Live(after, id) == Turned(before, id, done)
      || (Live(after, id) == None && Live(Final(before, namespace, owner, rs), id) == None
          && !KeptByCleanup(id, namespace, Desired(namespace, rs)))
  {
    hide AllWritten, Script, ApplyAll, AfterConfig, ConfigApplied, Final, BeforeSweep, KeptByCleanup, Desired, Labelled;
    var config := ConfigRef(namespace).id;
    if after == before {
      done := [];
    } else if after == before[config := ConfigApplied(before, namespace, owner)] {
      done := ConfigBrokenOff(before, namespace, owner, rs, id);
    } else if n :| 0 <= n <= |rs| && after == ApplyAll(AfterConfig(before, namespace, owner), rs[..n], owner.uid) {
      done := Script(namespace, owner, rs[..n], id);
      ScriptPrefix(namespace, owner, rs, n, id);
      AppliedIsTurned(before, namespace, owner, rs[..n], id);
    } else {
      done := Script(namespace, owner, rs, id);
      AppliedIsTurned(before, namespace, owner, rs, id);
      SweptAt(before, after, namespace, owner, rs, id);
    }
  }

  lemma ConfigBrokenOff(before: Objects, namespace: string, owner: Owner, rs: seq<Rendered>, id: Id)
      returns (done: seq<Write>)
    ensures done <= Script(namespace, owner, rs, id)
    ensures Live(before[ConfigRef(namespace).id := ConfigApplied(before, namespace, owner)], id)
      == Turned(before, id, done)
  {
    hide Apply, ConfigPayload, Metadata, AllWritten;
    ScriptPrefix(namespace, owner, rs, 0, id);
    assert rs[..0] == [];
    if id == ConfigRef(namespace).id {
      var w := Applying(ConfigPayload(Metadata(CONFIG_MAP, owner.uid), owner.ingresses, owner.contract));
      WrittenOne(if id in before then before[id] else map[], w);
      done := [w];
    } else {
      done := [];
    }
  }

  lemma AppliedIsTurned(before: Objects, namespace: string, owner: Owner, rs: seq<Rendered>, id: Id)
    requires id.kind != DEPLOYMENT
    ensures Live(ApplyAll(AfterConfig(before, namespace, owner), rs, owner.uid), id)
         == Turned(before, id, Script(namespace, owner, rs, id))
    ensures BeforeSweep(before, namespace, owner, rs, id) == Turned(before, id, Script(namespace, owner, rs, id))
  {
    hide AllWritten, Script, ApplyAll, AfterConfig, InTurn;
    ApplyAllAt(AfterConfig(before, namespace, owner), rs, owner.uid, id);
    RunIsScript(before, namespace, owner, rs, id);
  }

  /** A sweep that is not complete leaves the object as the applies made it, or deleted an orphan. */
  lemma SweptAt(before: Objects, after: Objects, namespace: string, owner: Owner, rs: seq<Rendered>, id: Id)
    requires PartlySwept(ApplyAll(AfterConfig(before, namespace, owner), rs, owner.uid), after, namespace,
      Desired(namespace, rs), false)
    ensures Live(after, id) == Live(ApplyAll(AfterConfig(before, namespace, owner), rs, owner.uid), id)
      || (Live(after, id) == None && Live(Final(before, namespace, owner, rs), id) == None
          && !KeptByCleanup(id, namespace, Desired(namespace, rs)))
  {
    hide ApplyAll, AfterConfig, Desired, Labelled, TargetsUndesired, CLEANUP_KINDS, CLUSTER_CLEANUP_KINDS;
  }

  // ---------- One failed run ----------

  /** Anything but a Deployment ends the same with or without the broken off run. */
  lemma OtherStep(before: Objects, after: Objects, namespace: string, owner: Owner, rs: seq<Rendered>, id: Id)
    requires Interrupted(before, after, namespace, owner, rs) && id.kind != DEPLOYMENT
    ensures Live(Final(after, namespace, owner, rs), id) == Live(Final(before, namespace, owner, rs), id)
  {
    hide Interrupted, AllWritten, Script, Final, BeforeSweep, KeptByCleanup, Desired, Labelled;
    var all := Script(namespace, owner, rs, id);
    var done := InterruptedAt(before, after, namespace, owner, rs, id);
    FinalAt(before, namespace, owner, rs, id);
    FinalAt(after, namespace, owner, rs, id);
    AppliedIsTurned(before, namespace, owner, rs, id);
    AppliedIsTurned(after, namespace, owner, rs, id);
    EmptyScript(namespace, owner, rs, id);
    if all != [] {
      TurnIsLabelled(after, namespace, owner, rs, id);
      if Live(after, id) == Turned(before, id, done) {
        BrokenOffScript(if id in before then before[id] else map[], done, all);
        NothingWritten(before, id);
      }
    }
  }

  lemma NothingWritten(objects: Objects, id: Id)
    ensures AllWritten(if id in objects then objects[id] else map[], [], FIELD_OWNER)
      == if id in objects then objects[id] else map[]
  {
  }

  /** What a broken off run leaves of a Deployment that is rendered once. */
  lemma DeploymentInterruptedAt(before: Objects, after: Objects, namespace: string, owner: Owner, rs: seq<Rendered>,
      i: nat)
    requires Interrupted(before, after, namespace, owner, rs)
    requires i < |rs| && rs[i].id.kind == DEPLOYMENT && OnlyRendering(rs, i)
    requires KeptByCleanup(rs[i].id, namespace, Desired(namespace, rs))
    ensures Live(after, rs[i].id) == Live(before, rs[i].id)
      || Live(after, rs[i].id) == Some(Applied(Live(before, rs[i].id), rs[i], owner.uid))
  {
    hide ApplyAll, AfterConfig, ConfigApplied, Final, KeptByCleanup, Desired, Applied, InTurn, ConfigRef;
    var id := rs[i].id;
    NotConfig(before, namespace, owner, id);
    assert id != ConfigRef(namespace).id by { NotConfigId(namespace, id); }
    if n :| 0 <= n <= |rs| && after == ApplyAll(AfterConfig(before, namespace, owner), rs[..n], owner.uid) {
      ApplyAllAt(AfterConfig(before, namespace, owner), rs[..n], owner.uid, id);
      if i < n {
        assert rs[..n][i] == rs[i] && OnlyRendering(rs[..n], i);
        InTurnOnce(Live(before, id), rs[..n], i, owner.uid);
      } else {
        assert forall j :: 0 <= j < n ==> rs[..n][j].id != id;
        NotInTurn(Live(before, id), rs[..n], id, owner.uid);
      }
    } else if PartlySwept(ApplyAll(AfterConfig(before, namespace, owner), rs, owner.uid), after, namespace,
      Desired(namespace, rs), false) {
      SweptAt(before, after, namespace, owner, rs, id);
      ApplyAllAt(AfterConfig(before, namespace, owner), rs, owner.uid, id);
      InTurnOnce(Live(before, id), rs, i, owner.uid);
    }
  }

  lemma NotConfigId(namespace: string, id: Id)
    requires id.kind == DEPLOYMENT
    ensures id != ConfigRef(namespace).id
  {
    assert |DEPLOYMENT| != |CONFIG_MAP|;
  }

  /** A settled Deployment ends the same with or without the broken off run, and is settled after it. */
  lemma DeploymentStep(before: Objects, after: Objects, namespace: string, owner: Owner, rs: seq<Rendered>, i: nat)
    requires Interrupted(before, after, namespace, owner, rs)
    requires i < |rs| && rs[i].id.kind == DEPLOYMENT && OnlyRendering(rs, i)
    requires KeptByCleanup(rs[i].id, namespace, Desired(namespace, rs))
      && Settled(Live(before, rs[i].id), rs[i], owner.uid)
    ensures Settled(Live(after, rs[i].id), rs[i], owner.uid)
    ensures Live(Final(after, namespace, owner, rs), rs[i].id) == Live(Final(before, namespace, owner, rs), rs[i].id)
  {
    hide Interrupted, Final, KeptByCleanup, Desired, Settled, Applied, InTurn, AfterConfig, OnlyRendering;
    var id := rs[i].id;
    assert IsRendered(rs, id);
    DeploymentInterruptedAt(before, after, namespace, owner, rs, i);
    RenderedSurvives(before, namespace, owner, rs, id);
    RenderedSurvives(after, namespace, owner, rs, id);
    NotConfig(before, namespace, owner, id);
    NotConfig(after, namespace, owner, id);
    InTurnOnce(Live(before, id), rs, i, owner.uid);
    InTurnOnce(Live(after, id), rs, i, owner.uid);
    StableExactly(Live(before, id), rs[i], owner.uid);
    StableExactly(Live(after, id), rs[i], owner.uid);
  }

  /** An object nobody renders is left alone or swept, by this run or the last. */
  lemma UnrenderedStep(before: Objects, after: Objects, namespace: string, owner: Owner, rs: seq<Rendered>, id: Id)
    requires Interrupted(before, after, namespace, owner, rs)
    requires id.kind == DEPLOYMENT && !IsRendered(rs, id)
    ensures Live(Final(after, namespace, owner, rs), id) == Live(Final(before, namespace, owner, rs), id)
  {
    hide ApplyAll, AfterConfig, ConfigApplied, Final, Desired, Labelled, KeptByCleanup, Eligible, InTurn, ConfigRef;
    NotConfigId(namespace, id);
    NotConfig(before, namespace, owner, id);
    OnlyOrphansDeleted(before, namespace, owner, rs, id);
    OnlyOrphansDeleted(after, namespace, owner, rs, id);
    if n :| 0 <= n <= |rs| && after == ApplyAll(AfterConfig(before, namespace, owner), rs[..n], owner.uid) {
      ApplyAllAt(AfterConfig(before, namespace, owner), rs[..n], owner.uid, id);
      assert forall j :: 0 <= j < n ==> rs[..n][j] == rs[j];
      NotInTurn(Live(before, id), rs[..n], id, owner.uid);
    } else if PartlySwept(ApplyAll(AfterConfig(before, namespace, owner), rs, owner.uid), after, namespace,
      Desired(namespace, rs), false) {
      SweptAt(before, after, namespace, owner, rs, id);
      ApplyAllAt(AfterConfig(before, namespace, owner), rs, owner.uid, id);
      NotInTurn(Live(before, id), rs, id, owner.uid);
    }
  }

  // ---------- Any number of failed runs ----------

  /** Every Deployment that outlives the runs is rendered once and settled. */
  predicate AllSettled(objects: Objects, namespace: string, owner: Owner, rs: seq<Rendered>) {
    forall i :: 0 <= i < |rs| && IsKeptDeployment(rs[i].id, namespace, rs) ==>
      OnlyRendering(rs, i) && Settled(Live(objects, rs[i].id), rs[i], owner.uid)
  }

  lemma RetryStep(before: Objects, after: Objects, namespace: string, owner: Owner, rs: seq<Rendered>)
    requires Interrupted(before, after, namespace, owner, rs) && AllSettled(before, namespace, owner, rs)
    ensures AllSettled(after, namespace, owner, rs)
    ensures Final(after, namespace, owner, rs) == Final(before, namespace, owner, rs)
  {
    hide Interrupted, Final, KeptByCleanup, Desired, Settled, OnlyRendering, ConfigRef;
    forall i | 0 <= i < |rs| && rs[i].id.kind == DEPLOYMENT
      && KeptByCleanup(rs[i].id, namespace, Desired(namespace, rs))
      ensures Settled(Live(after, rs[i].id), rs[i], owner.uid)
    {
      DeploymentStep(before, after, namespace, owner, rs, i);
    }
    forall id: Id ensures Live(Final(after, namespace, owner, rs), id)
      == Live(Final(before, namespace, owner, rs), id) {
      if id.kind != DEPLOYMENT {
        OtherStep(before, after, namespace, owner, rs, id);
      } else if !IsRendered(rs, id) {
        UnrenderedStep(before, after, namespace, owner, rs, id);
      } else if KeptByCleanup(id, namespace, Desired(namespace, rs)) {
        var i :| 0 <= i < |rs| && rs[i].id == id;
        DeploymentStep(before, after, namespace, owner, rs, i);
      } else {
        RenderedSurvives(before, namespace, owner, rs, id);
        RenderedSurvives(after, namespace, owner, rs, id);
      }
    }
    SameLive(Final(after, namespace, owner, rs), Final(before, namespace, owner, rs));
  }

  /** Retries converge: after any number of runs that failed at any call, one that returns nil leaves the
      whole cluster, values and ownership, as a single successful run would have left it, as long as
      every Deployment that outlives it is settled. */
  lemma {:induction false} RetriesConverge(states: seq<Objects>, namespace: string, owner: Owner, rs: seq<Rendered>)
    requires Retries(states, namespace, owner, rs) && AllSettled(states[0], namespace, owner, rs)
    ensures AllSettled(states[|states| - 1], namespace, owner, rs)
    ensures Final(states[|states| - 1], namespace, owner, rs) == Final(states[0], namespace, owner, rs)
  {
    hide Interrupted, Final, AllSettled;
    var n := |states| - 1;
    if n > 0 {
      assert states[..n][n - 1] == states[n - 1];
      RetriesConverge(states[..n], namespace, owner, rs);
      RetryStep(states[n - 1], states[n], namespace, owner, rs);
    }
  }

  /** Objects other than Deployments need no condition. */
  lemma {:induction false} OthersConverge(states: seq<Objects>, namespace: string, owner: Owner, rs: seq<Rendered>,
      id: Id)
    requires Retries(states, namespace, owner, rs) && id.kind != DEPLOYMENT
    ensures Live(Final(states[|states| - 1], namespace, owner, rs), id)
      == Live(Final(states[0], namespace, owner, rs), id)
  {
    hide Interrupted, Final;
    var n := |states| - 1;
    if n > 0 {
      assert states[..n][n - 1] == states[n - 1];
      OthersConverge(states[..n], namespace, owner, rs, id);
      OtherStep(states[n - 1], states[n], namespace, owner, rs, id);
    }
  }
}
