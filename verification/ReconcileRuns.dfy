/**
 Laws of the status over whole runs: any interleaving of spec edits, foreign condition writes and
 reconciles, each of which may read anything and whose status update may fail.
 */
module ReconcileRuns {
  import opened GoText
  import opened Status
  import opened PlatformConfig
  import opened IngressContract
  import opened Reconcile

  /** The part of the Workbenches CR the status depends on. */
  datatype Cr = Cr(generation: int, spec: Spec, status: CrStatus)

  /** A spec edit, another controller writing a condition of its own, or one reconcile. Status
      updates carry the resource version, so a reconcile that overlaps an edit fails to persist. */
  datatype Event =
    | Edit(spec: Spec)
    | Foreign(kind: string, condition: Condition)
    | Run(world: World, persisted: bool)

  const OWNED: set<string> := {READY, PROVISIONING, DEGRADED, DEPLOYMENTS, METADATA, IMAGE_STREAMS, V2,
    EVIDENCE_CONDITION}

  predicate Allowed(e: Event) {
    e.Foreign? ==> e.kind !in OWNED
  }

  ghost function Step(cr: Cr, e: Event): Cr {
    match e
    case Edit(spec) => Cr(cr.generation + 1, spec, cr.status)
    case Foreign(kind, condition) => cr.(status := cr.status.(conditions := cr.status.conditions[kind := condition]))
    case Run(w, persisted) =>
      if persisted then cr.(status := StatusAttempt(cr.status, cr.generation, cr.spec, w).status) else cr
  }

  ghost function After(cr: Cr, events: seq<Event>): Cr {
    if events == [] then cr else Step(After(cr, events[..|events| - 1]), events[|events| - 1])
  }

  function Created(spec: Spec): Cr {
    Cr(1, spec, EMPTY_STATUS)
  }

  predicate AllAllowed(events: seq<Event>) {
    forall i :: 0 <= i < |events| ==> Allowed(events[i])
  }

  // ---------- One write ----------

  /** The releases of a reconcile that got past provisioning, before a version is recorded. */
  function Refreshed(s: CrStatus, w: World): seq<Release> {
    MergeComponentReleases(if w.metadata.Some? then w.metadata.value else [], GetPlatformRelease(s.releases))
  }

  predicate WasPending(s: CrStatus) {
    READY in s.conditions && s.conditions[READY].reason == VERSION_PENDING
  }

  /** Whether a managed reconcile records the platform version it read. */
  predicate Records(s: CrStatus, desired: Distribution, version: string, w: World) {
    && DeploymentsReady(w.deployments) && version != "" && Recorded(Refreshed(s, w)) != version
    && (Recorded(Refreshed(s, w)) == "" || WasPending(s) || !HandshakeRequired(desired))
  }

  predicate Completes(spec: Spec, w: World) {
    FirstError(spec, w).None? && !w.imageStreams.StreamsFailed?
  }

  /** Why a completed reconcile is not Ready. */
  function NotReady(available: bool, generation: int): Condition {
    Condition(False, if available then VERSION_PENDING else "DeploymentsNotReady", generation)
  }

  /** What a completed reconcile writes, read off the final status. */
  ghost predicate WritesCompleted(s: CrStatus, generation: int, spec: Spec, w: World, r: CrStatus)
    requires Completes(spec, w)
  {
    var desired, version, available := DesiredDistribution(spec, w).value, ReadVersion(w.versionConfig).value,
      DeploymentsReady(w.deployments);
    var ready := available && HandshakeDone(desired, version, r.releases);
    && {READY, EVIDENCE_CONDITION} <= r.conditions.Keys
    && r.conditions[READY] == (if ready then Condition(True, SUCCESS, generation)
                               else NotReady(available, generation))
    && (ready ==> !IsTrue(r.conditions, DEGRADED))
    && (r.evidence, r.conditions[EVIDENCE_CONDITION]) == Sync(spec.contract, w.projection, w.rollout, generation)
    && r.releases == (if Records(s, desired, version, w) then SetPlatformRelease(Refreshed(s, w), version)
      else Refreshed(s, w))
    && (available ==> Aligned(desired, r.distribution))
    && r.observedGeneration == generation
    && (r.phase.Ready? <==> ready) && !r.phase.NoPhase? && !r.phase.Pending?
    && (forall k :: k in r.conditions ==> r.conditions[k].reason != "")
  }

  lemma DesiredIsComplete(spec: Spec, w: World)
    requires DesiredDistribution(spec, w).Ok?
    ensures Aligned(DesiredDistribution(spec, w).value, DesiredDistribution(spec, w).value)
  {
    ResolvedIsComplete(ReadDistribution(w.distributionConfig).value, spec.platform);
  }

  lemma KindsDistinct()
    ensures READY !in {PROVISIONING, DEGRADED, DEPLOYMENTS, METADATA, IMAGE_STREAMS, V2, EVIDENCE_CONDITION}
    ensures PROVISIONING !in {DEGRADED, DEPLOYMENTS, METADATA, IMAGE_STREAMS, V2, EVIDENCE_CONDITION}
    ensures DEGRADED !in {DEPLOYMENTS, METADATA, IMAGE_STREAMS, V2, EVIDENCE_CONDITION}
    ensures EVIDENCE_CONDITION !in {DEPLOYMENTS, METADATA, IMAGE_STREAMS, V2}
  {
    assert READY == "Ready" && DEGRADED == "Degraded";
    assert EVIDENCE_CONDITION[0] == 'I' && DEPLOYMENTS[0] == 'D' && METADATA[0] == 'R' && PROVISIONING[0] == 'P'
      && V2[0] == 'W';
    assert IMAGE_STREAMS[1] == 'm' && EVIDENCE_CONDITION[1] == 'n';
  }

  predicate Keeps(kind: string, before: Conditions, after: Conditions) {
    (kind in after <==> kind in before) && (kind in before ==> after[kind] == before[kind])
  }

  lemma ProvisionedFacts(s: CrStatus, generation: int, spec: Spec, w: World, p: CrStatus)
    requires p == Provisioned(s, generation, spec, w)
    ensures EVIDENCE_CONDITION in p.conditions && IsTrue(p.conditions, PROVISIONING)
    ensures (p.evidence, p.conditions[EVIDENCE_CONDITION]) == Sync(spec.contract, w.projection, w.rollout, generation)
    ensures p.releases == Refreshed(s, w) && p.distribution == s.distribution
    ensures Keeps(READY, s.conditions, p.conditions) && Keeps(DEGRADED, s.conditions, p.conditions)
  {
    hide Sync, MergeComponentReleases, GetPlatformRelease, V2Condition, DeploymentsReady, READY, PROVISIONING, DEGRADED,
         DEPLOYMENTS, METADATA, IMAGE_STREAMS, V2, EVIDENCE_CONDITION;
    KindsDistinct();
  }

  lemma ImageStreamsFacts(p: CrStatus, generation: int, w: World, q: CrStatus)
    requires q == WithImageStreams(p, generation, w)
    ensures q == p.(conditions := q.conditions)
    ensures Keeps(READY, p.conditions, q.conditions) && Keeps(DEGRADED, p.conditions, q.conditions)
    ensures Keeps(PROVISIONING, p.conditions, q.conditions) && Keeps(EVIDENCE_CONDITION, p.conditions, q.conditions)
  {
    hide READY, PROVISIONING, DEGRADED, IMAGE_STREAMS, EVIDENCE_CONDITION;
    KindsDistinct();
  }

  lemma ReadyFacts(p: CrStatus, generation: int, desired: Distribution, version: string, available: bool,
      wasReady: bool, r: CrStatus)
    requires r == WithReady(p, generation, desired, version, available, wasReady)
    requires available ==> Aligned(desired, p.distribution)
    ensures r == p.(conditions := r.conditions)
    ensures Keeps(EVIDENCE_CONDITION, p.conditions, r.conditions) && Keeps(PROVISIONING, p.conditions, r.conditions)
    ensures READY in r.conditions
    ensures r.conditions[READY] ==
      if available && HandshakeDone(desired, version, r.releases) then Condition(True, SUCCESS, generation)
      else NotReady(available, generation)
    ensures available && HandshakeDone(desired, version, r.releases) ==> !IsTrue(r.conditions, DEGRADED)
  {
    hide READY, DEGRADED, PROVISIONING, EVIDENCE_CONDITION, HandshakeDone, Aligned;
    KindsDistinct();
  }

  lemma PhaseFacts(p: CrStatus, previous: CrStatus, generation: int, r: CrStatus)
    requires r == WithPhase(p, previous, generation) && IsTrue(p.conditions, PROVISIONING) && READY in p.conditions
      && p.conditions[READY].reason != ""
    requires EVIDENCE_CONDITION in p.conditions && p.conditions[EVIDENCE_CONDITION].reason != ""
    ensures r == p.(conditions := r.conditions, phase := r.phase, observedGeneration := generation)
    ensures Keeps(READY, p.conditions, r.conditions) && Keeps(EVIDENCE_CONDITION, p.conditions, r.conditions)
    ensures IsTrue(r.conditions, DEGRADED) <==> IsTrue(p.conditions, DEGRADED)
    ensures (r.phase.Ready? <==> IsTrue(p.conditions, READY)) && !r.phase.NoPhase? && !r.phase.Pending?
    ensures forall k :: k in r.conditions ==> r.conditions[k].reason != ""
  {
    hide READY, DEGRADED, EVIDENCE_CONDITION, PROVISIONING;
  }

  lemma NoErrorReads(spec: Spec, w: World)
    requires FirstError(spec, w).None?
    ensures DesiredDistribution(spec, w).Ok? && ReadVersion(w.versionConfig).Ok?
  {
    hide DesiredDistribution, ReadVersion;
  }

  lemma NoErrorCompletes(spec: Spec, w: World)
    requires FirstError(spec, w).None? && !w.imageStreams.StreamsFailed?
    ensures Completes(spec, w)
  {
    hide FirstError;
  }

  lemma ProvisionedReleases(s: CrStatus, generation: int, spec: Spec, w: World)
    ensures Provisioned(s, generation, spec, w).releases == Refreshed(s, w)
  {
    hide MergeComponentReleases, GetPlatformRelease;
  }

  lemma CompletedWrite(s: CrStatus, generation: int, spec: Spec, w: World)
    requires Completes(spec, w)
    ensures WritesCompleted(s, generation, spec, w, ReconciledStatus(s, generation, spec, w))
  {
    hide Provisioned, WithImageStreams, WithReady, WithPhase, Sync, Refreshed, SetPlatformRelease, HandshakeDone,
         Recorded, DesiredDistribution, ReadVersion, DeploymentsReady, FirstError, READY, PROVISIONING, DEGRADED,
         EVIDENCE_CONDITION;
    KindsDistinct();
    NoErrorReads(spec, w);
    var desired, version, available := DesiredDistribution(spec, w).value, ReadVersion(w.versionConfig).value,
      DeploymentsReady(w.deployments);
    DesiredIsComplete(spec, w);
    var p := Provisioned(s, generation, spec, w);
    ProvisionedFacts(s, generation, spec, w, p);
    var q := WithImageStreams(p, generation, w);
    ImageStreamsFacts(p, generation, w, q);
    var recorded := Recording(q, desired, version, available);
    assert recorded.conditions == q.conditions;
    var r := WithReady(recorded, generation, desired, version, available, IsTrue(s.conditions, READY));
    ReadyFacts(recorded, generation, desired, version, available, IsTrue(s.conditions, READY), r);
    PhaseFacts(r, s, generation, WithPhase(r, s, generation));
  }

  /** What every failed or removed reconcile writes. */
  predicate WritesNotReady(s: CrStatus, generation: int, reason: string, r: CrStatus) {
    && {READY, EVIDENCE_CONDITION} <= r.conditions.Keys
    && r.conditions[READY] == Condition(False, reason, generation)
    && r.conditions[EVIDENCE_CONDITION].status.False?
      && r.conditions[EVIDENCE_CONDITION].observedGeneration == generation
    && r.evidence == NO_EVIDENCE && r.phase.Failed? && r.observedGeneration == generation
    && (forall k :: k in r.conditions ==> r.conditions[k].reason != "")
  }

  lemma ErrorWrite(s: CrStatus, generation: int, reason: string)
    requires reason != ""
    ensures WritesNotReady(s, generation, reason, ErrorStatus(s, generation, reason))
    ensures ErrorStatus(s, generation, reason).releases == s.releases
  {
  }

  lemma RemovedWrite(s: CrStatus, generation: int)
    ensures WritesNotReady(s, generation, REMOVED, RemovedStatus(s, generation))
    ensures RemovedStatus(s, generation).releases == []
  {
  }

  lemma ErrorReason(spec: Spec, w: World)
    requires FirstError(spec, w).Some?
    ensures FirstError(spec, w).value !in {"", NOT_ALIGNED, VERSION_PENDING, SUCCESS}
  {
    hide DesiredDistribution, ReadVersion;
  }

  // ---------- The invariant of every reachable status ----------

  /** What holds of the status whatever happened to the CR so far. */
  predicate GoodStatus(s: CrStatus, generation: int) {
    && 0 <= s.observedGeneration <= generation
    && (s.phase.Ready? <==> IsTrue(s.conditions, READY))
    && !(IsTrue(s.conditions, READY) && IsTrue(s.conditions, DEGRADED))
    && (s.phase.NoPhase? || s.phase.Pending? <==> s.observedGeneration == 0)
    && (s.observedGeneration == 0 ==>
      s.(phase := NoPhase, conditions := map[]) == EMPTY_STATUS && s.conditions.Keys !! OWNED)
    && (READY in s.conditions ==>
          && s.conditions[READY].reason !in {"", NOT_ALIGNED}
          && (s.conditions[READY].status.True? <==> s.conditions[READY].reason == SUCCESS))
    && (EVIDENCE_CONDITION in s.conditions ==> s.conditions[EVIDENCE_CONDITION].observedGeneration <= generation)
    && (!IsTrue(s.conditions, EVIDENCE_CONDITION) ==> s.evidence.deploymentGeneration == 0)
    && ValidReleases(s.releases)
  }

  lemma RefreshKeepsRecorded(s: CrStatus, w: World)
    requires ValidReleases(s.releases)
    ensures ValidReleases(Refreshed(s, w)) && Recorded(Refreshed(s, w)) == Recorded(s.releases)
  {
    hide ValidReleases, Recorded, MergeComponentReleases, GetPlatformRelease;
    MergeKeepsRecorded(if w.metadata.Some? then w.metadata.value else [], s.releases);
  }

  lemma EmptyTrimmed()
    ensures TrimSpace("") == ""
  {
  }

  /** The version read from the configuration is trimmed. */
  lemma VersionTrimmed(config: ConfigRead)
    requires ReadVersion(config).Ok?
    ensures TrimSpace(ReadVersion(config).value) == ReadVersion(config).value
  {
    hide TrimSpace;
    match config {
      case Data(data) => TrimTwice(if PLATFORM_VERSION_KEY in data then data[PLATFORM_VERSION_KEY] else "");
      case _ => EmptyTrimmed();
    }
  }

  /** How one completed reconcile changes the releases: the recorded version is kept or becomes
      exactly the version read. */
  lemma CompletedReleases(s: CrStatus, generation: int, spec: Spec, w: World, r: CrStatus)
    requires Completes(spec, w) && ValidReleases(s.releases)
    requires WritesCompleted(s, generation, spec, w, r)
    ensures ValidReleases(r.releases)
    ensures Recorded(r.releases) ==
      if Records(s, DesiredDistribution(spec, w).value, ReadVersion(w.versionConfig).value, w)
      then ReadVersion(w.versionConfig).value
      else Recorded(s.releases)
  {
    hide ValidReleases, Recorded, Refreshed, DesiredDistribution, ReadVersion, DeploymentsReady, FirstError, TrimSpace,
         Sync, HandshakeDone;
    NoErrorReads(spec, w);
    var version := ReadVersion(w.versionConfig).value;
    RefreshKeepsRecorded(s, w);
    VersionTrimmed(w.versionConfig);
    if Records(s, DesiredDistribution(spec, w).value, version, w) {
      SetCompletesHandshake(Refreshed(s, w), version);
    }
  }

  lemma GoodReleases(s: CrStatus, generation: int)
    requires GoodStatus(s, generation)
    ensures ValidReleases(s.releases)
  {
    hide ValidReleases;
  }

  lemma NoReleasesValid()
    ensures ValidReleases([])
  {
  }

  lemma EmptyIsGood()
    ensures GoodStatus(EMPTY_STATUS, 1)
  {
  }

  lemma NotReadyIsGood(s: CrStatus, generation: int, reason: string, r: CrStatus)
    requires WritesNotReady(s, generation, reason, r) && reason !in {"", NOT_ALIGNED, SUCCESS}
    requires ValidReleases(r.releases) && generation >= 1
    ensures GoodStatus(r, generation)
  {
    hide ValidReleases;
  }

  lemma CompletedIsGood(s: CrStatus, generation: int, spec: Spec, w: World, r: CrStatus)
    requires Completes(spec, w) && WritesCompleted(s, generation, spec, w, r)
    requires ValidReleases(r.releases) && generation >= 1
    ensures GoodStatus(r, generation)
  {
    hide ValidReleases, Completes, DesiredDistribution, ReadVersion, DeploymentsReady, HandshakeDone, Refreshed,
         Records, SetPlatformRelease;
  }

  lemma PendingIsGood(s: CrStatus, generation: int)
    requires Fresh(s) && GoodStatus(s, generation)
    ensures GoodStatus(PendingStatus(s), generation)
  {
  }

  /** One persisted write keeps the invariant. */
  lemma WriteKeepsGood(s: CrStatus, generation: int, spec: Spec, w: World)
    requires GoodStatus(s, generation) && generation >= 1
    ensures GoodStatus(StatusAttempt(s, generation, spec, w).status, generation)
  {
    hide FirstError, Completes, Provisioned, ReconciledStatus, ErrorStatus, RemovedStatus, PendingStatus, ValidReleases,
         GoodStatus, NeedsRequeue, WritesNotReady, WritesCompleted, DesiredDistribution, ReadVersion, DeploymentsReady,
         Refreshed;
    GoodReleases(s, generation);
    if !spec.managed {
      RemovedWrite(s, generation);
      ErrorWrite(s, generation, "CleanupFailed");
      NoReleasesValid();
      NotReadyIsGood(s, generation, REMOVED, RemovedStatus(s, generation));
      NotReadyIsGood(s, generation, "CleanupFailed", ErrorStatus(s, generation, "CleanupFailed"));
    } else if Fresh(s) {
      PendingIsGood(s, generation);
    } else if FirstError(spec, w).Some? {
      var reason := FirstError(spec, w).value;
      ErrorReason(spec, w);
      ErrorWrite(s, generation, reason);
      NotReadyIsGood(s, generation, reason, ErrorStatus(s, generation, reason));
    } else if w.imageStreams.StreamsFailed? {
      var p := Provisioned(s, generation, spec, w);
      ErrorWrite(p, generation, "ImageStreamsStatusFailed");
      ProvisionedReleases(s, generation, spec, w);
      RefreshKeepsRecorded(s, w);
      NotReadyIsGood(p, generation, "ImageStreamsStatusFailed", ErrorStatus(p, generation, "ImageStreamsStatusFailed"));
    } else {
      NoErrorCompletes(spec, w);
      var r := ReconciledStatus(s, generation, spec, w);
      CompletedWrite(s, generation, spec, w);
      CompletedReleases(s, generation, spec, w, r);
      CompletedIsGood(s, generation, spec, w, r);
    }
  }

  lemma StepKeepsGood(cr: Cr, e: Event)
    requires cr.generation >= 1 && GoodStatus(cr.status, cr.generation) && Allowed(e)
    ensures Step(cr, e).generation >= cr.generation && GoodStatus(Step(cr, e).status, Step(cr, e).generation)
  {
    hide StatusAttempt, ValidReleases;
    match e {
      case Run(w, persisted) => WriteKeepsGood(cr.status, cr.generation, cr.spec, w);
      case _ =>
    }
  }

  /** In every reachable state: phase and Ready agree, Ready and Degraded exclude each other, the
      observed generation never passes the generation, and so on. */
  lemma {:induction false} StatusInvariant(spec: Spec, events: seq<Event>)
    requires AllAllowed(events)
    ensures var cr := After(Created(spec), events); cr.generation >= 1 && GoodStatus(cr.status, cr.generation)
  {
    hide GoodStatus, Step;
    if events == [] {
      EmptyIsGood();
    } else {
      StatusInvariant(spec, events[..|events| - 1]);
      StepKeepsGood(After(Created(spec), events[..|events| - 1]), events[|events| - 1]);
    }
  }

  /** The observed generation never goes back. */
  lemma ObservedNeverDecreases(spec: Spec, events: seq<Event>, e: Event)
    requires AllAllowed(events) && Allowed(e)
    ensures After(Created(spec), events).status.observedGeneration
         <= After(Created(spec), events + [e]).status.observedGeneration
  {
    hide Provisioned, ReconciledStatus, ErrorStatus, RemovedStatus, FirstError;
    var cr := After(Created(spec), events);
    assert (events + [e])[..|events|] == events;
    StatusInvariant(spec, events);
    if e.Run? && e.persisted && !(cr.spec.managed && Fresh(cr.status)) {
      WriteObserves(cr.status, cr.generation, cr.spec, e.world);
    }
  }

  /** Every write but the first records the generation it reconciled and gives every condition a
      reason, foreign ones included. */
  lemma WriteObserves(s: CrStatus, generation: int, spec: Spec, w: World)
    requires !(spec.managed && Fresh(s))
    ensures var r := StatusAttempt(s, generation, spec, w).status;
      r.observedGeneration == generation && forall k :: k in r.conditions ==> r.conditions[k].reason != ""
  {
    hide FirstError, Completes, Provisioned, ReconciledStatus, ErrorStatus, RemovedStatus, NeedsRequeue,
         DesiredDistribution, ReadVersion, DeploymentsReady;
    if !spec.managed {
      RemovedWrite(s, generation);
      ErrorWrite(s, generation, "CleanupFailed");
    } else if FirstError(spec, w).Some? {
      ErrorReason(spec, w);
      ErrorWrite(s, generation, FirstError(spec, w).value);
    } else if w.imageStreams.StreamsFailed? {
      ErrorWrite(Provisioned(s, generation, spec, w), generation, "ImageStreamsStatusFailed");
    } else {
      NoErrorCompletes(spec, w);
      CompletedWrite(s, generation, spec, w);
    }
  }

  // ---------- Evidence ----------

  /** The write of this reconcile justifies the evidence: both consumers present, every consumer
      deployment rolled out with the stamp of this contract, and the generation their highest. */
  predicate Justifies(e: Event, contract: Option<Contract>, evidence: Evidence) {
    && e.Run? && e.persisted
    && Proven(contract, e.world.projection, e.world.rollout)
    && evidence.version == contract.value.version && evidence.sourceGeneration == contract.value.sourceGeneration
    && IsHighest(e.world.rollout.items, evidence.deploymentGeneration)
  }

  predicate Claims(cr: Cr) {
    IsTrue(cr.status.conditions, EVIDENCE_CONDITION)
      && cr.status.conditions[EVIDENCE_CONDITION].observedGeneration == cr.generation
  }

  predicate Writes(e: Event) {
    e.Run? && e.persisted
  }

  predicate LastWrite(events: seq<Event>, i: int) {
    0 <= i < |events| && Writes(events[i]) && forall j :: i < j < |events| ==> !Writes(events[j])
  }

  lemma WriteClaims(s: CrStatus, generation: int, spec: Spec, w: World)
    requires GoodStatus(s, generation)
    ensures var r := StatusAttempt(s, generation, spec, w).status;
      IsTrue(r.conditions, EVIDENCE_CONDITION) ==> Justifies(Run(w, true), spec.contract, r.evidence)
  {
    hide FirstError, Completes, Provisioned, ReconciledStatus, ErrorStatus, RemovedStatus, NeedsRequeue,
         DesiredDistribution, ReadVersion, DeploymentsReady, GateOpen, IsHighest, ValidReleases, Sync;
    if !spec.managed {
      RemovedWrite(s, generation);
      ErrorWrite(s, generation, "CleanupFailed");
    } else if Fresh(s) {
    } else if FirstError(spec, w).Some? {
      ErrorReason(spec, w);
      ErrorWrite(s, generation, FirstError(spec, w).value);
    } else if w.imageStreams.StreamsFailed? {
      ErrorWrite(Provisioned(s, generation, spec, w), generation, "ImageStreamsStatusFailed");
    } else {
      NoErrorCompletes(spec, w);
      CompletedWrite(s, generation, spec, w);
      assert Sync(spec.contract, w.projection, w.rollout, generation).1.status.True? <==>
        Proven(spec.contract, w.projection, w.rollout);
    }
  }

  lemma EditWithdrawsClaim(cr: Cr, spec: Spec)
    requires GoodStatus(cr.status, cr.generation)
    ensures !Claims(Step(cr, Edit(spec)))
  {
  }

  /** Evidence is never stale: whenever IngressContractReady is True for the current generation,
      the evidence is of the current spec's contract, and the last status write saw that contract
      rolled out on every consumer. */
  lemma {:induction false} EvidenceNeverStale(spec: Spec, events: seq<Event>)
    requires AllAllowed(events) && Claims(After(Created(spec), events))
    ensures exists i :: (LastWrite(events, i)
      && Justifies(events[i], After(Created(spec), events).spec.contract, After(Created(spec), events).status.evidence))
  {
    hide GoodStatus, StatusAttempt, Justifies;
    assert events != [];
    var n := |events| - 1;
    var cr, e := After(Created(spec), events[..n]), events[n];
    StatusInvariant(spec, events[..n]);
    if Writes(e) {
      WriteClaims(cr.status, cr.generation, cr.spec, e.world);
      assert e == Run(e.world, true);
      assert LastWrite(events, n);
    } else {
      if e.Edit? {
        EditWithdrawsClaim(cr, e.spec);
      }
      assert Claims(cr);
      EvidenceNeverStale(spec, events[..n]);
      var i :| LastWrite(events[..n], i) && Justifies(events[..n][i], cr.spec.contract, cr.status.evidence);
      assert forall j :: 0 <= j < n ==> events[..n][j] == events[j];
      assert LastWrite(events, i);
      assert Step(cr, e).spec == cr.spec && Step(cr, e).status.evidence == cr.status.evidence;
    }
  }

  // ---------- The version handshake ----------

  /** The step keeps the component managed. */
  predicate StaysManaged(cr: Cr, e: Event) {
    cr.spec.managed && (e.Edit? ==> e.spec.managed)
  }

  /** ... and, when a reconcile completes, the distribution it resolves needs the handshake. */
  predicate StaysHandshaking(cr: Cr, e: Event) {
    && StaysManaged(cr, e)
    && (e.Run? && Completes(cr.spec, e.world) ==> HandshakeRequired(DesiredDistribution(cr.spec, e.world).value))
  }

  /** What one managed write can do to the recorded version. */
  lemma WriteRecords(s: CrStatus, generation: int, spec: Spec, w: World)
    requires spec.managed && GoodStatus(s, generation)
    ensures var r := StatusAttempt(s, generation, spec, w).status;
      || Recorded(r.releases) == Recorded(s.releases)
      || (Completes(spec, w) && Records(s, DesiredDistribution(spec, w).value, ReadVersion(w.versionConfig).value, w)
          && Recorded(r.releases) == ReadVersion(w.versionConfig).value)
    ensures var r := StatusAttempt(s, generation, spec, w).status;
      IsTrue(r.conditions, READY) ==>
        Completes(spec, w) && HandshakeDone(DesiredDistribution(spec, w).value, ReadVersion(w.versionConfig).value,
          r.releases)
  {
    hide FirstError, Completes, Provisioned, ReconciledStatus, ErrorStatus, RemovedStatus, NeedsRequeue,
         DesiredDistribution, ReadVersion, DeploymentsReady, Refreshed, Records, Sync, HandshakeDone, ValidReleases,
         Recorded;
    if Fresh(s) {
    } else if FirstError(spec, w).Some? {
      ErrorReason(spec, w);
      ErrorWrite(s, generation, FirstError(spec, w).value);
    } else if w.imageStreams.StreamsFailed? {
      var p := Provisioned(s, generation, spec, w);
      ErrorWrite(p, generation, "ImageStreamsStatusFailed");
      ProvisionedReleases(s, generation, spec, w);
      RefreshKeepsRecorded(s, w);
    } else {
      NoErrorCompletes(spec, w);
      var r := ReconciledStatus(s, generation, spec, w);
      CompletedWrite(s, generation, spec, w);
      CompletedReleases(s, generation, spec, w, r);
    }
  }

  /** Once recorded, a platform version is never lost while the component stays managed: not by a
      release refresh, a failed metadata load or an error status. */
  lemma RecordedNeverLost(cr: Cr, e: Event)
    requires GoodStatus(cr.status, cr.generation) && Allowed(e) && StaysManaged(cr, e)
    ensures Recorded(cr.status.releases) != "" ==> Recorded(Step(cr, e).status.releases) != ""
  {
    hide GoodStatus, StatusAttempt, Recorded, Completes, Refreshed, DesiredDistribution, ReadVersion, DeploymentsReady;
    if Writes(e) {
      WriteRecords(cr.status, cr.generation, cr.spec, e.world);
    }
  }

  /** While the handshake is required, a recorded version is only replaced from a status that
      waits for the platform version. */
  lemma RecordedChangesWhenPending(cr: Cr, e: Event)
    requires GoodStatus(cr.status, cr.generation) && Allowed(e) && StaysHandshaking(cr, e)
    requires Recorded(cr.status.releases) != "" && Recorded(Step(cr, e).status.releases) != Recorded(cr.status.releases)
    ensures WasPending(cr.status) && !IsTrue(cr.status.conditions, READY)
  {
    hide StatusAttempt, Recorded, Completes, Refreshed, DesiredDistribution, ReadVersion, DeploymentsReady,
         HandshakeRequired, ValidReleases;
    assert Writes(e);
    WriteRecords(cr.status, cr.generation, cr.spec, e.world);
    assert ValidReleases(cr.status.releases);
    RefreshKeepsRecorded(cr.status, e.world);
  }

  /** Every step of the run keeps the component managed under a distribution that handshakes. */
  ghost predicate Handshaking(cr: Cr, events: seq<Event>) {
    forall i :: 0 <= i < |events| ==> Allowed(events[i]) && StaysHandshaking(After(cr, events[..i]), events[i])
  }

  ghost function StatusAt(cr: Cr, events: seq<Event>, i: nat): CrStatus
    requires i <= |events|
  {
    After(cr, events[..i]).status
  }

  /** Between two statuses with different recorded versions there is a persisted status that is not
      Ready, waits for the platform version, and still carries the old one. */
  lemma {:induction false} HandshakeNeverSkipped(spec: Spec, events: seq<Event>, i: nat, j: nat)
    requires Handshaking(Created(spec), events) && i <= j <= |events|
    requires Recorded(StatusAt(Created(spec), events, i).releases) != ""
    requires Recorded(StatusAt(Created(spec), events, j).releases)
          != Recorded(StatusAt(Created(spec), events, i).releases)
    ensures exists k: nat :: (i <= k < j && WasPending(StatusAt(Created(spec), events, k))
      && !IsTrue(StatusAt(Created(spec), events, k).conditions, READY)
      && Recorded(StatusAt(Created(spec), events, k).releases) == Recorded(StatusAt(Created(spec), events, i).releases))
    decreases j
  {
    hide GoodStatus, Step, Recorded, WasPending, StaysHandshaking;
    assert i < j;
    var before := After(Created(spec), events[..j - 1]);
    if Recorded(before.status.releases) == Recorded(StatusAt(Created(spec), events, i).releases) {
      assert events[..j][..j - 1] == events[..j - 1];
      StatusInvariant(spec, events[..j - 1]);
      RecordedChangesWhenPending(before, events[j - 1]);
      assert StatusAt(Created(spec), events, j - 1) == before.status;
    } else {
      HandshakeNeverSkipped(spec, events, i, j - 1);
    }
  }

  /** A Ready status of a handshaking run has a recorded version, so between a status Ready at one
      version and a later one Ready at another the CR was not Ready. */
  lemma {:induction false} ReadyIsRecorded(spec: Spec, events: seq<Event>)
    requires Handshaking(Created(spec), events)
    ensures var s := After(Created(spec), events).status; IsTrue(s.conditions, READY) ==> Recorded(s.releases) != ""
  {
    hide GoodStatus, StatusAttempt, Recorded, Completes, DesiredDistribution, ReadVersion, HandshakeRequired;
    if events != [] {
      var n := |events| - 1;
      var cr, e := After(Created(spec), events[..n]), events[n];
      assert forall i :: 0 <= i < n ==> events[..n][..i] == events[..i] && events[..n][i] == events[i];
      StatusInvariant(spec, events[..n]);
      ReadyIsRecorded(spec, events[..n]);
      if Writes(e) {
        WriteRecords(cr.status, cr.generation, cr.spec, e.world);
      }
    }
  }

  /** Between Ready at one platform version and Ready at another the status was not Ready. */
  lemma UpgradePassesNotReady(spec: Spec, events: seq<Event>, i: nat, j: nat)
    requires Handshaking(Created(spec), events) && i <= j <= |events|
    requires IsTrue(StatusAt(Created(spec), events, i).conditions, READY)
      && IsTrue(StatusAt(Created(spec), events, j).conditions, READY)
    requires Recorded(StatusAt(Created(spec), events, i).releases)
          != Recorded(StatusAt(Created(spec), events, j).releases)
    ensures exists k: nat :: (i < k < j && WasPending(StatusAt(Created(spec), events, k))
      && !IsTrue(StatusAt(Created(spec), events, k).conditions, READY))
  {
    hide After, Recorded, StaysHandshaking, WasPending, IsTrue;
    assert forall k :: 0 <= k < i ==> events[..i][..k] == events[..k] && events[..i][k] == events[k];
    ReadyIsRecorded(spec, events[..i]);
    HandshakeNeverSkipped(spec, events, i, j);
  }

  // ---------- Convergence ----------

  /** A reconcile with nothing in its way that reads this distribution and version. */
  predicate Steady(spec: Spec, w: World, desired: Distribution, version: string) {
    && spec.managed && Completes(spec, w) && DeploymentsReady(w.deployments)
    && DesiredDistribution(spec, w) == Ok(desired) && ReadVersion(w.versionConfig) == Ok(version)
  }

  lemma SteadyFacts(spec: Spec, w: World, desired: Distribution, version: string)
    requires Steady(spec, w, desired, version)
    ensures spec.managed && TrimSpace(version) == version
  {
    hide TrimSpace, ReadVersion, DesiredDistribution, DeploymentsReady, Completes;
    VersionTrimmed(w.versionConfig);
  }

  /** Ready and settled: a further steady reconcile has nothing to record. */
  predicate Settled(s: CrStatus, desired: Distribution, version: string) {
    !Fresh(s) && IsTrue(s.conditions, READY) && HandshakeDone(desired, version, s.releases)
  }

  /** How many steady reconciles it takes until the status is Ready. */
  function Distance(s: CrStatus, desired: Distribution, version: string): nat {
    if Fresh(s) then
      (if Recorded(s.releases) in {"", version} || WasPending(s) || !HandshakeRequired(desired) then 2 else 3)
    else if Settled(s, desired, version) then 0
    else if Recorded(s.releases) in {"", version} || WasPending(s) || !HandshakeRequired(desired) then 1
    else 2
  }

  lemma SteadyWrite(s: CrStatus, generation: int, spec: Spec, w: World, desired: Distribution, version: string)
    requires ValidReleases(s.releases) && Steady(spec, w, desired, version) && !Fresh(s) && generation >= 1
    ensures var r := StatusAttempt(s, generation, spec, w).status;
      && !Fresh(r) && ValidReleases(r.releases)
      && (IsTrue(r.conditions, READY) <==> HandshakeDone(desired, version, r.releases))
      && (!IsTrue(r.conditions, READY) ==> WasPending(r))
      && Recorded(r.releases) ==
           if version != "" && (Recorded(s.releases) == "" || WasPending(s) || !HandshakeRequired(desired))
           then version else Recorded(s.releases)
  {
    hide Provisioned, ReconciledStatus, NeedsRequeue, DesiredDistribution, ReadVersion, DeploymentsReady, Refreshed,
         Sync, HandshakeDone, ValidReleases, Recorded, FirstError, HandshakeRequired;
    var r := ReconciledStatus(s, generation, spec, w);
    CompletedWrite(s, generation, spec, w);
    CompletedReleases(s, generation, spec, w, r);
    RefreshKeepsRecorded(s, w);
  }

  /** Every steady reconcile brings the status closer to Ready, and Ready is kept. */
  lemma SteadyDecreases(s: CrStatus, generation: int, spec: Spec, w: World, desired: Distribution, version: string)
    requires ValidReleases(s.releases) && Steady(spec, w, desired, version) && generation >= 1
    requires version != "" || !HandshakeRequired(desired)
    ensures var r := StatusAttempt(s, generation, spec, w).status;
      && ValidReleases(r.releases)
      && (Distance(r, desired, version) < Distance(s, desired, version)
        || Distance(r, desired, version) == Distance(s, desired, version) == 0)
  {
    hide Steady, ValidReleases, Recorded, HandshakeRequired, Aligned, TrimSpace;
    if Fresh(s) {
      SteadyFacts(spec, w, desired, version);
      assert StatusAttempt(s, generation, spec, w).status == PendingStatus(s);
      assert WasPending(PendingStatus(s)) == WasPending(s);
      assert !Fresh(PendingStatus(s));
    } else {
      hide StatusAttempt;
      SteadyWrite(s, generation, spec, w, desired, version);
      SteadyFacts(spec, w, desired, version);
    }
  }

  predicate SteadyEvents(spec: Spec, events: seq<Event>, desired: Distribution, version: string) {
    forall i :: 0 <= i < |events| ==> Writes(events[i]) && Steady(spec, events[i].world, desired, version)
  }

  lemma {:induction false} SteadyRun(cr: Cr, events: seq<Event>, desired: Distribution, version: string)
    requires ValidReleases(cr.status.releases) && cr.generation >= 1 && SteadyEvents(cr.spec, events, desired, version)
    requires version != "" || !HandshakeRequired(desired)
    ensures var end := After(cr, events);
      && end.spec == cr.spec && end.generation == cr.generation && ValidReleases(end.status.releases)
      && (Distance(end.status, desired, version) + |events| <= Distance(cr.status, desired, version)
        || Distance(end.status, desired, version) == 0)
  {
    hide Distance, ValidReleases, Steady, StatusAttempt, HandshakeRequired;
    if events != [] {
      var n := |events| - 1;
      var mid, e := After(cr, events[..n]), events[n];
      SteadyRun(cr, events[..n], desired, version);
      assert e == Run(e.world, true);
      SteadyDecreases(mid.status, mid.generation, mid.spec, e.world, desired, version);
    }
  }

  lemma {:induction false} SteadyKeeps(cr: Cr, events: seq<Event>, desired: Distribution, version: string)
    requires ValidReleases(cr.status.releases) && cr.generation >= 1 && SteadyEvents(cr.spec, events, desired, version)
    ensures var end := After(cr, events);
      && end.spec == cr.spec && end.generation == cr.generation && ValidReleases(end.status.releases)
      && (events != [] || !Fresh(cr.status) ==> !Fresh(end.status))
  {
    hide ValidReleases, Steady, StatusAttempt, Fresh;
    if events != [] {
      var n := |events| - 1;
      var mid, e := After(cr, events[..n]), events[n];
      SteadyKeeps(cr, events[..n], desired, version);
      assert e == Run(e.world, true);
      if Fresh(mid.status) {
        SteadyFirstWrite(mid.status, mid.generation, mid.spec, e.world, desired, version);
      } else {
        SteadyWrite(mid.status, mid.generation, mid.spec, e.world, desired, version);
      }
    }
  }

  lemma SteadyFirstWrite(s: CrStatus, generation: int, spec: Spec, w: World, desired: Distribution, version: string)
    requires Fresh(s) && Steady(spec, w, desired, version)
    ensures StatusAttempt(s, generation, spec, w).status == PendingStatus(s) && !Fresh(PendingStatus(s))
  {
    hide Completes, DeploymentsReady, DesiredDistribution, ReadVersion;
  }

  /** Bounded convergence, exactly: whatever the status was, after three reconciles with nothing in
      their way (two when it was not fresh) it is Ready if and only if there is a platform version
      or the distribution is Standalone; further ones keep it so. */
  lemma ConvergesExactly(cr: Cr, events: seq<Event>, desired: Distribution, version: string)
    requires ValidReleases(cr.status.releases) && cr.generation >= 1 && SteadyEvents(cr.spec, events, desired, version)
    requires |events| >= if Fresh(cr.status) then 3 else 2
    ensures IsTrue(After(cr, events).status.conditions, READY) <==> version != "" || !HandshakeRequired(desired)
  {
    hide ValidReleases, Steady, HandshakeRequired, WasPending, Recorded, StatusAttempt, Fresh;
    if version != "" || !HandshakeRequired(desired) {
      SteadyRun(cr, events, desired, version);
    } else {
      var n := |events| - 1;
      var mid, e := After(cr, events[..n]), events[n];
      SteadyKeeps(cr, events[..n], desired, version);
      assert e == Run(e.world, true);
      SteadyWrite(mid.status, mid.generation, mid.spec, e.world, desired, version);
    }
  }

  // ---------- Wakeups ----------

  /** A managed reconcile without an error asks for no requeue exactly when it persists Ready and
      the contract, if any, is confirmed. */
  lemma RequeueExactly(s: CrStatus, generation: int, spec: Spec, w: World)
    requires spec.managed && !Fresh(s) && Completes(spec, w)
    ensures var a := StatusAttempt(s, generation, spec, w);
      !a.failed && (!a.requeue <==>
        IsTrue(a.status.conditions, READY) && (spec.contract.None? || IsTrue(a.status.conditions, EVIDENCE_CONDITION)))
  {
    hide Provisioned, ReconciledStatus, DesiredDistribution, ReadVersion, DeploymentsReady, Refreshed, Records, Sync,
         HandshakeDone, FirstError;
    CompletedWrite(s, generation, spec, w);
  }

  /** Every other outcome is retried: the first write asks for a requeue, and every failure, a failed
      status update among them, is returned as an error. */
  lemma OthersRetried(s: CrStatus, generation: int, spec: Spec, w: World, updated: bool)
    requires !updated || (if spec.managed then Fresh(s) || !Completes(spec, w) else !w.cleanupOk)
    ensures var a := Returned(StatusAttempt(s, generation, spec, w), spec.managed, updated);
      (a.requeue || a.failed) && (!updated ==> a.failed)
  {
    hide Provisioned, ReconciledStatus, ErrorStatus, RemovedStatus, DesiredDistribution, ReadVersion, DeploymentsReady;
  }
}
