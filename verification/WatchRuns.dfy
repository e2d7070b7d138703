/**
 No wakeup is lost, over whole runs: the cluster, the platform configuration and the spec change
 while the reconciler only runs when something wakes it. Whenever nothing is about to wake it, the
 persisted status says what a reconcile of the present cluster would say.
 */
module WatchRuns {
  import opened GoText
  import opened Status
  import opened PlatformConfig
  import opened IngressContract
  import opened Reconcile
  import Runs = ReconcileRuns
  import Watches

  /** The CR, what a reconcile of it reads, and whether a wakeup is due: a watch event that passed,
      a requeue, or the retry of an error. */
  datatype System = System(
    generation: int, spec: Spec, status: CrStatus,
    deployments: seq<Deployment>, config: ConfigRead, projection: Projection,
    pending: bool)

  datatype Event =
    // the user edits the spec; with the platform, the operand namespace may change
    | Edit(spec: Spec, deployments: seq<Deployment>, config: ConfigRead, projection: Projection)
    | DeploymentChange(pre: seq<Deployment>, change: Watches.DeploymentEvent, post: seq<Deployment>)
    | ConfigChange(update: Watches.ConfigEvent)
    // every successful apply makes the CR the controller of the notebook controller ConfigMap, and
    // no predicate filters its events
    | ProjectionChange(projection: Projection)
    | Foreign(kind: string, condition: Condition)
    | Wake(w: World, updated: bool)

  /** How Deployments change: the controller observes no generation that is not there yet, a
      generation never goes back, an edit of the template moves it, and nobody relabels the consumers. */
  ghost predicate Orderly(e: Watches.DeploymentEvent) {
    e.Updated? ==>
      && e.before.observedGeneration <= e.before.generation <= e.after.generation
      && (e.before.generation == e.after.generation ==> e.before.stamp == e.after.stamp)
      && (forall c :: IsComponent(e.before, c) <==> IsComponent(e.after, c))
      && IsConsumer(e.before) == IsConsumer(e.after)
  }

  /** The operator hears of the change, or the predicate drops it, or it cannot matter: a labelled
      Deployment that the CR does not control is no consumer and stays as available as it was. */
  predicate Heard(e: Watches.DeploymentEvent) {
    Watches.Wakes(e) ==>
      || Watches.Delivered(e)
      || (&& Watches.AvailabilityOf(Watches.Before(e)) == Watches.AvailabilityOf(Watches.After(e))
          && Watches.ContributionAmong(Watches.Before(e)).Ignored?
          && Watches.ContributionAmong(Watches.After(e)).Ignored?)
  }

  /** The usual case: the CR controls every labelled Deployment. */
  lemma OwnedIsHeard(e: Watches.DeploymentEvent)
    requires forall d :: d in Watches.Before(e) + Watches.After(e) && Watches.HasComponentLabel(d) ==> d.owned
    ensures Heard(e)
  {
    hide Watches.HasComponentLabel, Watches.ContributionAmong, Watches.AvailabilityOf;
    assert !e.Created? ==> e.before in Watches.Before(e) + Watches.After(e);
    assert !e.Deleted? ==> e.after in Watches.Before(e) + Watches.After(e);
  }

  /** Every read of the reconcile fails or sees the present state. */
  predicate Faithful(s: System, w: World) {
    && (w.distributionConfig.Failed? || w.distributionConfig == s.config)
    && (w.versionConfig.Failed? || w.versionConfig == s.config)
    && (w.deployments.ListFailed? || w.deployments == Listed(Watches.Labelled(s.deployments)))
    && (w.rollout.ListFailed? || w.rollout == Listed(Watches.Labelled(s.deployments)))
    && (w.projection.Unreadable? || w.projection == s.projection)
  }

  ghost predicate Enabled(s: System, setting: string, e: Event) {
    match e
    case DeploymentChange(pre, change, post) =>
      s.deployments == pre + Watches.Before(change) + post && Orderly(change) && Heard(change)
    case ConfigChange(update) =>
      && Watches.Concerns(setting, s.spec.platform, update) && s.config == Watches.ReadBefore(update)
      && Watches.NulFree(Watches.ReadBefore(update)) && Watches.NulFree(Watches.ReadAfter(update))
    case Foreign(kind, _) => kind !in Runs.OWNED
    case Wake(w, _) => Faithful(s, w)
    case _ => true
  }

  ghost function Next(s: System, setting: string, e: Event): System {
    match e
    case Edit(spec, deployments, config, projection) =>
      System(s.generation + 1, spec, s.status, deployments, config, projection, true)
    case DeploymentChange(pre, change, post) =>
      s.(deployments := pre + Watches.After(change) + post, pending := s.pending || Watches.Delivered(change))
    case ConfigChange(update) =>
      var enqueued := Watches.Enqueues(setting, Watches.Cr(s.spec.platform), update);
      s.(config := Watches.ReadAfter(update), pending := s.pending || enqueued)
    case ProjectionChange(projection) => s.(projection := projection, pending := true)
    case Foreign(kind, condition) => s.(status := s.status.(conditions := s.status.conditions[kind := condition]))
    case Wake(w, updated) =>
      var a := Returned(StatusAttempt(s.status, s.generation, s.spec, w), s.spec.managed, updated);
      s.(status := if updated then a.status else s.status, pending := a.requeue || a.failed)
  }

  ghost function After(s: System, setting: string, events: seq<Event>): System {
    if events == [] then s else Next(After(s, setting, events[..|events| - 1]), setting, events[|events| - 1])
  }

  ghost predicate Run(s: System, setting: string, events: seq<Event>) {
    events == [] || (Run(s, setting, events[..|events| - 1])
                     && Enabled(After(s, setting, events[..|events| - 1]), setting, events[|events| - 1]))
  }

  /** The CR was just created, which wakes the reconciler. */
  predicate Initial(s: System) {
    s.generation == 1 && s.status == EMPTY_STATUS && s.pending
  }

  /** The Deployment controller has observed every consumer's generation. */
  predicate Observed(ds: seq<Deployment>) {
    forall d :: d in ds && Watches.HasComponentLabel(d) && IsConsumer(d) ==> d.observedGeneration >= d.generation
  }

  // ---------- What the absence of a wakeup means ----------

  /** The configuration as a reconcile of this CR resolves it. */
  predicate ConfigHandshake(s: System) {
    && ReadDistribution(s.config).Ok? && ReadVersion(s.config).Ok?
    && HandshakeDone(ResolveDistribution(ReadDistribution(s.config).value, s.spec.platform),
      ReadVersion(s.config).value, s.status.releases)
  }

  predicate EvidenceHolds(s: System) {
    if s.spec.contract.None? then !IsTrue(s.status.conditions, EVIDENCE_CONDITION)
    else
      && IsTrue(s.status.conditions, EVIDENCE_CONDITION) && s.projection == Projected(s.spec.contract.value)
      && (Observed(s.deployments) ==> GateOpen(Watches.Labelled(s.deployments), Stamp(s.spec.contract.value)))
  }

  predicate Confirmed(s: System) {
    && !Fresh(s.status) && IsTrue(s.status.conditions, READY)
    && ConfigHandshake(s) && AllAvailable(Watches.Labelled(s.deployments)) && EvidenceHolds(s)
  }

  predicate Withdrawn(s: System) {
    !IsTrue(s.status.conditions, READY) && !IsTrue(s.status.conditions, EVIDENCE_CONDITION)
  }

  predicate Quiet(s: System) {
    && s.generation >= 1 && Runs.GoodStatus(s.status, s.generation)
    && (!s.pending ==> if s.spec.managed then Confirmed(s) else Withdrawn(s))
  }

  /** A dropped Deployment event cannot shut an open gate once the consumers are observed. */
  lemma DroppedKeepsObservedGate(pre: seq<Deployment>, e: Watches.DeploymentEvent, post: seq<Deployment>, stamp: string)
    requires !Watches.Wakes(e) && Orderly(e) && Observed(pre + Watches.After(e) + post)
    ensures Observed(pre + Watches.Before(e) + post)
    ensures GateOpen(Watches.Labelled(pre + Watches.Before(e) + post), stamp) ==>
      GateOpen(Watches.Labelled(pre + Watches.After(e) + post), stamp)
  {
    hide GateOpen, IsHighest, Watches.Labelled;
    var ds, es := pre + Watches.Before(e) + post, pre + Watches.After(e) + post;
    if e.Updated? {
      assert es[|pre|] == e.after;
      forall d | d in pre || d in post ensures d in es {
      }
      forall d | d in ds ensures d in pre || d in post || d == e.before {
      }
    }
    assert Watches.SameContribution(e) by { ObservedContribution(pre, e, post); }
    Watches.GateExactly(e);
    var m := HighestExists(Watches.Labelled(ds));
    assert Watches.Reports(Watches.Labelled(ds), stamp, m) <==> Watches.Reports(Watches.Labelled(es), stamp, m);
  }

  /** A change nobody hears of keeps both verdicts. */
  lemma UnheardKeepsVerdicts(pre: seq<Deployment>, e: Watches.DeploymentEvent, post: seq<Deployment>, stamp: string)
    requires Watches.Wakes(e) && !Watches.Delivered(e) && Heard(e)
    ensures AllAvailable(Watches.Labelled(pre + Watches.Before(e) + post))
      <==> AllAvailable(Watches.Labelled(pre + Watches.After(e) + post))
    ensures Observed(pre + Watches.After(e) + post) ==> Observed(pre + Watches.Before(e) + post)
    ensures GateOpen(Watches.Labelled(pre + Watches.Before(e) + post), stamp)
      ==> GateOpen(Watches.Labelled(pre + Watches.After(e) + post), stamp)
  {
    hide GateOpen, IsHighest, Watches.Labelled, AllAvailable, Watches.Wakes, Watches.AvailabilityOf,
         Watches.EffectiveStamp;
    Watches.AvailabilityExactly(e);
    Watches.GateExactly(e);
    var ds, es := pre + Watches.Before(e) + post, pre + Watches.After(e) + post;
    var m := HighestExists(Watches.Labelled(ds));
    assert Watches.Reports(Watches.Labelled(ds), stamp, m) <==> Watches.Reports(Watches.Labelled(es), stamp, m);
    forall d | d in ds && Watches.HasComponentLabel(d) && IsConsumer(d) && Observed(es)
      ensures d.observedGeneration >= d.generation
    {
      assert d !in Watches.Before(e) ==> d in es;
    }
  }

  lemma ObservedContribution(pre: seq<Deployment>, e: Watches.DeploymentEvent, post: seq<Deployment>)
    requires !Watches.Wakes(e) && Orderly(e) && Observed(pre + Watches.After(e) + post)
    ensures Watches.SameContribution(e)
  {
    if e.Updated? && Watches.HasComponentLabel(e.after) {
      assert (pre + Watches.After(e) + post)[|pre|] == e.after;
      if IsConsumer(e.after) {
        assert e.before.generation == e.after.generation;
        assert IsComponent(e.before, e.after.labels[COMPONENT_NAME_LABEL]);
      }
    }
  }

  // ---------- Each step ----------

  lemma DeploymentStep(s: System, setting: string, e: Event)
    requires e.DeploymentChange? && Quiet(s) && Enabled(s, setting, e)
    ensures Quiet(Next(s, setting, e))
  {
    hide GateOpen, Watches.Labelled, AllAvailable, Runs.GoodStatus, Stamp, HandshakeDone, Orderly;
    if !s.pending && !Watches.Delivered(e.change) && s.spec.managed {
      var stamp := if s.spec.contract.Some? then Stamp(s.spec.contract.value) else "";
      if Watches.Wakes(e.change) {
        UnheardKeepsVerdicts(e.pre, e.change, e.post, stamp);
      } else {
        Watches.DroppedKeepsAvailability(e.pre, e.change, e.post);
        if Observed(Next(s, setting, e).deployments) {
          DroppedKeepsObservedGate(e.pre, e.change, e.post, stamp);
        }
      }
    }
  }

  lemma ConfigStep(s: System, setting: string, e: Event)
    requires e.ConfigChange? && Quiet(s) && Enabled(s, setting, e)
    ensures Quiet(Next(s, setting, e))
  {
    hide EvidenceHolds, Watches.Labelled, AllAvailable, Runs.GoodStatus, HandshakeDone, ReadDistribution, ReadVersion,
         ResolveDistribution, Watches.Concerns, Watches.Enqueues, Watches.NulFree;
    if !Watches.Enqueues(setting, Watches.Cr(s.spec.platform), e.update) {
      if ReadDistribution(Watches.ReadBefore(e.update)) != ReadDistribution(Watches.ReadAfter(e.update))
         || ReadVersion(Watches.ReadBefore(e.update)) != ReadVersion(Watches.ReadAfter(e.update)) {
        Watches.ConfigChangeWakes(setting, s.spec.platform, e.update);
      }
      assert EvidenceHolds(Next(s, setting, e)) == EvidenceHolds(s)
        by { EvidenceIgnoresConfig(s, Next(s, setting, e)); }
    }
  }

  lemma EvidenceIgnoresConfig(s: System, t: System)
    requires t == s.(config := t.config, pending := t.pending)
    ensures EvidenceHolds(t) == EvidenceHolds(s)
  {
    hide GateOpen, Watches.Labelled, Observed, Stamp;
  }

  lemma ForeignStep(s: System, setting: string, e: Event)
    requires e.Foreign? && Quiet(s) && Enabled(s, setting, e)
    ensures Quiet(Next(s, setting, e))
  {
    hide GateOpen, Watches.Labelled, AllAvailable, HandshakeDone, ReadDistribution, ReadVersion, ResolveDistribution,
         Observed, Stamp, ValidReleases;
  }

  /** A wake that leaves nothing due has written a confirmed status, or withdrawn it. */
  lemma WakeStep(s: System, setting: string, e: Event)
    requires e.Wake? && Quiet(s) && Enabled(s, setting, e)
    ensures Quiet(Next(s, setting, e))
  {
    hide Runs.GoodStatus, StatusAttempt, Confirmed, Faithful;
    Runs.WriteKeepsGood(s.status, s.generation, s.spec, e.w);
    if !Next(s, setting, e).pending {
      if s.spec.managed {
        ConfirmedByWake(s, e.w);
      } else {
        WithdrawnByWake(s, e.w);
      }
    }
  }

  lemma WithdrawnByWake(s: System, w: World)
    requires !s.spec.managed
    ensures var r := StatusAttempt(s.status, s.generation, s.spec, w).status;
      !IsTrue(r.conditions, READY) && !IsTrue(r.conditions, EVIDENCE_CONDITION)
  {
    hide RemovedStatus, ErrorStatus;
    Runs.RemovedWrite(s.status, s.generation);
    Runs.ErrorWrite(s.status, s.generation, "CleanupFailed");
  }

  lemma ConfirmedByWake(s: System, w: World)
    requires s.spec.managed && s.generation >= 1 && Runs.GoodStatus(s.status, s.generation) && Faithful(s, w)
    requires var a := StatusAttempt(s.status, s.generation, s.spec, w); !a.requeue && !a.failed
    ensures Confirmed(s.(status := StatusAttempt(s.status, s.generation, s.spec, w).status, pending := false))
  {
    hide Runs.GoodStatus, StatusAttempt, DesiredDistribution, ReadVersion, DeploymentsReady, HandshakeDone, Sync,
         ConfigHandshake, EvidenceHolds, Faithful, Watches.Labelled, AllAvailable, Runs.Completes, NeedsRequeue,
         ReconciledStatus;
    if Fresh(s.status) || !Runs.Completes(s.spec, w) {
      Runs.OthersRetried(s.status, s.generation, s.spec, w, true);
      assert false;
    }
    Runs.RequeueExactly(s.status, s.generation, s.spec, w);
    CompletedAttempt(s.status, s.generation, s.spec, w);
    Runs.CompletedWrite(s.status, s.generation, s.spec, w);
    ConfirmedByWrite(s, w, StatusAttempt(s.status, s.generation, s.spec, w).status);
  }

  lemma CompletedAttempt(s: CrStatus, generation: int, spec: Spec, w: World)
    requires spec.managed && !Fresh(s) && Runs.Completes(spec, w)
    ensures StatusAttempt(s, generation, spec, w).status == ReconciledStatus(s, generation, spec, w)
  {
    hide DesiredDistribution, ReadVersion, DeploymentsReady, ReconciledStatus, FirstError;
  }

  lemma ConfirmedByWrite(s: System, w: World, r: CrStatus)
    requires s.generation >= 1 && Runs.Completes(s.spec, w) && Faithful(s, w)
    requires Runs.WritesCompleted(s.status, s.generation, s.spec, w, r)
    requires IsTrue(r.conditions, READY) && (s.spec.contract.None? || IsTrue(r.conditions, EVIDENCE_CONDITION))
    ensures Confirmed(s.(status := r, pending := false))
  {
    hide Field, ValidFields, ResolveDistribution, HandshakeDone, Sync, Watches.Labelled, AllAvailable, GateOpen,
         IsHighest, Stamp, Observed, Runs.Records, Runs.Refreshed, SetPlatformRelease, FirstError;
    Runs.NoErrorReads(s.spec, w);
    assert Sync(s.spec.contract, w.projection, w.rollout, s.generation).1.status.True? <==>
      Proven(s.spec.contract, w.projection, w.rollout);
  }

  lemma EditStep(s: System, setting: string, e: Event)
    requires (e.Edit? || e.ProjectionChange?) && Quiet(s)
    ensures Quiet(Next(s, setting, e))
  {
    hide Confirmed, Withdrawn, ValidReleases;
  }

  lemma StepKeepsQuiet(s: System, setting: string, e: Event)
    requires Quiet(s) && Enabled(s, setting, e)
    ensures Quiet(Next(s, setting, e))
  {
    hide Quiet, Next, Enabled;
    match e {
      case DeploymentChange(_, _, _) => DeploymentStep(s, setting, e);
      case ConfigChange(_) => ConfigStep(s, setting, e);
      case Foreign(_, _) => ForeignStep(s, setting, e);
      case Wake(_, _) => WakeStep(s, setting, e);
      case _ => EditStep(s, setting, e);
    }
  }

  lemma {:induction false} RunIsQuiet(s: System, setting: string, events: seq<Event>)
    requires Initial(s) && Run(s, setting, events)
    ensures Quiet(After(s, setting, events))
  {
    hide Quiet, Next, Enabled;
    if events == [] {
      assert Quiet(s) by { CreatedIsQuiet(s); }
    } else {
      RunIsQuiet(s, setting, events[..|events| - 1]);
      StepKeepsQuiet(After(s, setting, events[..|events| - 1]), setting, events[|events| - 1]);
    }
  }

  lemma CreatedIsQuiet(s: System)
    requires Initial(s)
    ensures Quiet(s)
  {
    hide Confirmed, Withdrawn;
    Runs.EmptyIsGood();
  }

  // ---------- The law ----------

  /** Every read sees the present state and no call of the reconcile fails. */
  predicate Present(s: System, w: World) {
    && w.distributionConfig == s.config && w.versionConfig == s.config
    && w.deployments == Listed(Watches.Labelled(s.deployments)) && w.rollout == Listed(Watches.Labelled(s.deployments))
    && w.projection == s.projection
    && (if s.spec.managed then Runs.Completes(s.spec, w) else w.cleanupOk)
  }

  lemma ReconcileConfirms(s: System, w: World)
    requires s.spec.managed && Confirmed(s) && Present(s, w) && s.generation >= 1
      && Runs.GoodStatus(s.status, s.generation)
    ensures var r := StatusAttempt(s.status, s.generation, s.spec, w).status;
      && IsTrue(r.conditions, READY)
      && (IsTrue(r.conditions, EVIDENCE_CONDITION) <==> Proven(s.spec.contract, w.projection, w.rollout))
  {
    hide ReadDistribution, ReadVersion, ResolveDistribution, HandshakeDone, Sync, Watches.Labelled, AllAvailable,
         GateOpen, IsHighest, Stamp, Observed, Runs.GoodStatus, StatusAttempt, ReconciledStatus, TrimSpace, Proven,
         ValidReleases, Recorded, EvidenceHolds;
    var r := StatusAttempt(s.status, s.generation, s.spec, w).status;
    Runs.NoErrorReads(s.spec, w);
    CompletedAttempt(s.status, s.generation, s.spec, w);
    Runs.CompletedWrite(s.status, s.generation, s.spec, w);
    assert Sync(s.spec.contract, w.projection, w.rollout, s.generation).1.status.True? <==>
      Proven(s.spec.contract, w.projection, w.rollout);
    Runs.GoodReleases(s.status, s.generation);
    Runs.CompletedReleases(s.status, s.generation, s.spec, w, r);
    Runs.RefreshKeepsRecorded(s.status, w);
    Runs.VersionTrimmed(w.versionConfig);
    HandshakeKept(s.status, DesiredDistribution(s.spec, w).value, ReadVersion(w.versionConfig).value, w, r);
  }

  /** A completed handshake stays complete: there is nothing to record, or nothing to hand over. */
  lemma HandshakeKept(s: CrStatus, desired: Distribution, version: string, w: World, r: CrStatus)
    requires HandshakeDone(desired, version, s.releases)
    requires TrimSpace(version) == version && Recorded(Runs.Refreshed(s, w)) == Recorded(s.releases)
    requires Recorded(r.releases) == if Runs.Records(s, desired, version, w) then version else Recorded(s.releases)
    ensures HandshakeDone(desired, version, r.releases)
  {
    hide TrimSpace, Recorded, Runs.Refreshed, DeploymentsReady;
  }

  /** No wakeup is lost: whenever no watch event, requeue or retry is due, a reconcile of the present
      cluster would publish the Ready that is persisted, and the IngressContractReady that is
      persisted once the consumers' generations are observed. For a managed CR Ready is then True. */
  lemma NoWakeupLost(start: System, setting: string, events: seq<Event>, w: World)
    requires Initial(start) && Run(start, setting, events)
    requires var s := After(start, setting, events); !s.pending && Present(s, w)
    ensures var s := After(start, setting, events); var r := StatusAttempt(s.status, s.generation, s.spec, w).status;
      && (IsTrue(s.status.conditions, READY) <==> s.spec.managed) && (IsTrue(r.conditions, READY) <==> s.spec.managed)
      && (Observed(s.deployments) ==>
        (IsTrue(r.conditions, EVIDENCE_CONDITION) <==> IsTrue(s.status.conditions, EVIDENCE_CONDITION)))
  {
    hide Run, After, Confirmed, StatusAttempt, Observed, Runs.GoodStatus, GateOpen, Stamp, Watches.Labelled,
         Runs.Completes;
    var s := After(start, setting, events);
    RunIsQuiet(start, setting, events);
    if s.spec.managed {
      ReconcileConfirms(s, w);
      ConfirmedEvidence(s);
    } else {
      WithdrawnByWake(s, w);
    }
  }

  lemma ConfirmedEvidence(s: System)
    requires Confirmed(s)
    ensures IsTrue(s.status.conditions, READY) && EvidenceHolds(s)
  {
    hide EvidenceHolds, ConfigHandshake, Watches.Labelled, AllAvailable;
  }
}
