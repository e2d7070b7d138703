/**
 One reconcile of the Workbenches CR (internal/controller/workbenches_controller.go) as far as
 its status is concerned: the functions say what each path writes, the methods write it.

 `World` holds what the API calls of one reconcile return. Each read may fail on its own.
 */
module Reconcile {
  import opened GoText
  import opened Status
  import opened PlatformConfig
  import opened IngressContract

  datatype Spec = Spec(
    managed: bool, platform: string, probeTimeout: Option<int>, contract: Option<Contract>, v2Managed: bool)

  datatype CrStatus = CrStatus(
    conditions: Conditions, releases: seq<Release>, observedGeneration: int,
    distribution: Distribution, phase: Phase, evidence: Evidence)

  const EMPTY_STATUS: CrStatus := CrStatus(map[], [], 0, NO_DISTRIBUTION, NoPhase, NO_EVIDENCE)

  datatype ImageStreams = ApiMissing | StreamsFailed | AllImported | SomeFailed

  datatype World = World(
    distributionConfig: ConfigRead,
    versionConfig: ConfigRead,
    dependenciesOk: bool,
    applyOk: bool,
    cleanupOk: bool,
    metadata: Option<seq<Release>>,
    deployments: Listing,
    projection: Projection,
    rollout: Listing,
    v2Manifests: bool,
    v2Deployments: Listing,
    imageStreams: ImageStreams)

  const READY := "Ready"
  const PROVISIONING := "ProvisioningSucceeded"
  const DEGRADED := "Degraded"
  const DEPLOYMENTS := "DeploymentsAvailable"
  const METADATA := "ReleaseMetadataAvailable"
  const IMAGE_STREAMS := "ImageStreamsAvailable"
  const V2 := "WorkbenchesV2Ready"
  const WORKSPACES_CONTROLLER := "workspaces-controller"

  const SUCCESS := "ReconcileSuccess"
  const VERSION_PENDING := "PlatformVersionPending"
  const NOT_ALIGNED := "DistributionNotAligned"
  const REMOVED := "Removed"

  // ---------- What the reconcile computes from its reads ----------

  /** validateSpec */
  predicate ValidSpec(spec: Spec) {
    && (spec.probeTimeout.Some? ==> spec.probeTimeout.value >= 1)
    && spec.platform in {"", OPEN_DATA_HUB, SPEC_SELF_MANAGED}
  }

  predicate Available(d: Deployment) {
    Desired(d) >= 1 && d.readyReplicas >= Desired(d)
  }

  /** deploymentsAvailability: some deployment, and each with its desired replicas ready. */
  predicate AllAvailable(ds: seq<Deployment>) {
    |ds| > 0 && forall i :: 0 <= i < |ds| ==> Available(ds[i])
  }

  /** deploymentsAvailability's loop. */
  method DeploymentsAvailability(ds: seq<Deployment>) returns (ready: bool)
    ensures ready == AllAvailable(ds)
  {
    if |ds| == 0 {
      return false;
    }
    for i := 0 to |ds|
      invariant forall j :: 0 <= j < i ==> Available(ds[j])
    {
      if Desired(ds[i]) < 1 || ds[i].readyReplicas < Desired(ds[i]) {
        return false;
      }
    }
    return true;
  }

  /** checkDeployments */
  predicate DeploymentsReady(listing: Listing) {
    listing.Listed? && AllAvailable(listing.items)
  }

  function Named(ds: seq<Deployment>, name: string): seq<Deployment> {
    if ds == [] then [] else (if ds[0].name == name then [ds[0]] else []) + Named(ds[1..], name)
  }

  /** setWorkbenchesV2Condition */
  function V2Condition(spec: Spec, w: World, generation: int): Condition {
    if !spec.v2Managed then Condition(False, REMOVED, generation)
    else if !w.v2Manifests then Condition(False, "ManifestsNotAvailable", generation)
    else if w.v2Deployments.Listed? && AllAvailable(Named(w.v2Deployments.items, WORKSPACES_CONTROLLER)) then
      Condition(True, "Available", generation)
    else Condition(False, "Unavailable", generation)
  }

  /** The desired distribution, when the configuration can be read. */
  function DesiredDistribution(spec: Spec, w: World): Result<Distribution> {
    match ReadDistribution(w.distributionConfig)
    case Err => Err
    case Ok(d) => Ok(ResolveDistribution(d, spec.platform))
  }

  /** The error a managed reconcile stops at before it looks at deployments. */
  function FirstError(spec: Spec, w: World): Option<string> {
    if !ValidSpec(spec) then Some("InvalidSpec")
    else if DesiredDistribution(spec, w).Err? then Some("PlatformConfigReadFailed")
    else if ReadVersion(w.versionConfig).Err? then Some("PlatformVersionReadFailed")
    else if !w.dependenciesOk then Some("ConfigureDependenciesFailed")
    else if !w.applyOk then Some("ManifestApplyFailed")
    else None
  }

  // ---------- The statuses each path writes ----------

  /** What one reconcile tries to persist, whether it asks for a requeue, and whether it returns
      an error. */
  datatype Attempt = Attempt(status: CrStatus, requeue: bool, failed: bool)

  function Stale(generation: int): Condition {
    Condition(False, "IngressContractEvidenceStale", generation)
  }

  /** setErrorStatus */
  function ErrorStatus(s: CrStatus, generation: int, reason: string): CrStatus {
    s.(conditions := Sanitize(s.conditions[READY := Condition(False, reason, generation)]
                                          [EVIDENCE_CONDITION := Stale(generation)]),
       phase := Phase.Failed, observedGeneration := generation, evidence := NO_EVIDENCE)
  }

  /** The successful path of reconcileRemoved. */
  function RemovedStatus(s: CrStatus, generation: int): CrStatus {
    var removed := Condition(False, REMOVED, generation);
    s.(conditions := Sanitize(s.conditions[READY := removed][PROVISIONING := removed]
                                          [V2 := removed][EVIDENCE_CONDITION := removed]),
       phase := Phase.Failed, releases := [], distribution := NO_DISTRIBUTION, evidence := NO_EVIDENCE,
       observedGeneration := generation)
  }

  function RemovedAttempt(s: CrStatus, generation: int, w: World): Attempt {
    if w.cleanupOk then Attempt(RemovedStatus(s, generation), false, false)
    else Attempt(ErrorStatus(s, generation, "CleanupFailed"), false, true)
  }

  predicate Fresh(s: CrStatus) {
    s.phase.NoPhase? && s.observedGeneration == 0
  }

  /** The first write of a managed CR. */
  function PendingStatus(s: CrStatus): CrStatus {
    s.(phase := Phase.Pending, conditions := Sanitize(s.conditions))
  }

  /** The status after provisioning: release metadata and the informational conditions. */
  ghost function Provisioned(s: CrStatus, generation: int, spec: Spec, w: World): CrStatus {
    var platform := GetPlatformRelease(s.releases);
    var (evidence, gate) := Sync(spec.contract, w.projection, w.rollout, generation);
    s.(releases := MergeComponentReleases(if w.metadata.Some? then w.metadata.value else [], platform),
       evidence := evidence,
       conditions := s.conditions
         [METADATA := if w.metadata.Some? then Condition(True, "Available", generation)
           else Condition(False, "ReleaseMetadataFailed", generation)]
         [PROVISIONING := Condition(True, "Provisioned", generation)]
         [DEPLOYMENTS := if DeploymentsReady(w.deployments) then Condition(True, "Available", generation)
           else Condition(False, "Unavailable", generation)]
         [EVIDENCE_CONDITION := gate]
         [V2 := V2Condition(spec, w, generation)])
  }

  function WithImageStreams(s: CrStatus, generation: int, w: World): CrStatus {
    match w.imageStreams
    case AllImported => s.(conditions := s.conditions[IMAGE_STREAMS := Condition(True, "Available", generation)])
    case SomeFailed =>
      s.(conditions := s.conditions[IMAGE_STREAMS := Condition(False, "ImageStreamsNotReady", generation)])
    case _ => s
  }

  /** Alignment and handshake: what the status records before Ready is decided. */
  function Recording(s: CrStatus, desired: Distribution, platformVersion: string, deploymentsReady: bool): CrStatus {
    var current := Recorded(s.releases);
    var wasPending := READY in s.conditions && s.conditions[READY].reason == VERSION_PENDING;
    var record := deploymentsReady && platformVersion != "" && current != platformVersion
      && (current == "" || wasPending || !HandshakeRequired(desired));
    s.(distribution := if deploymentsReady && IsTrue(s.conditions, PROVISIONING) && !Aligned(desired, s.distribution)
                       then desired else s.distribution,
       releases := if record then SetPlatformRelease(s.releases, platformVersion) else s.releases)
  }

  predicate HandshakeDone(desired: Distribution, platformVersion: string, releases: seq<Release>) {
    !HandshakeRequired(desired) || HandshakeComplete(platformVersion, releases)
  }

  /** setReadyCondition */
  function WithReady(s: CrStatus, generation: int, desired: Distribution, platformVersion: string,
                     deploymentsReady: bool, wasReady: bool): CrStatus {
    var aligned := Aligned(desired, s.distribution);
    var done := HandshakeDone(desired, platformVersion, s.releases);
    var notDegraded := Condition(False, "NotDegraded", generation);
    if deploymentsReady && aligned && done then
      s.(conditions := s.conditions[READY := Condition(True, SUCCESS, generation)][DEGRADED := notDegraded])
    else
      var reason := if deploymentsReady && !aligned then NOT_ALIGNED
                    else if deploymentsReady && !done then VERSION_PENDING
                    else "DeploymentsNotReady";
      var c1 := if deploymentsReady && aligned then s.conditions[DEGRADED := notDegraded] else s.conditions;
      var c2 := c1[READY := Condition(False, reason, generation)];
      var degraded := Condition(True, "DeploymentsNotReady", generation);
      s.(conditions := if !deploymentsReady && wasReady then c2[DEGRADED := degraded] else c2)
  }

  function WithPhase(s: CrStatus, previous: CrStatus, generation: int): CrStatus {
    var ctx := PhaseContext(previous.observedGeneration, generation, IsTrue(previous.conditions, READY),
                            IsTrue(s.conditions, READY), IsTrue(s.conditions, DEGRADED), false, false,
                            IsTrue(s.conditions, PROVISIONING));
    s.(observedGeneration := generation, phase := ComputePhase(ctx), conditions := Sanitize(s.conditions))
  }

  /** The status a managed reconcile with no error ends with. */
  ghost function ReconciledStatus(s: CrStatus, generation: int, spec: Spec, w: World): CrStatus
    requires FirstError(spec, w).None?
  {
    var desired, version, ready := DesiredDistribution(spec, w).value, ReadVersion(w.versionConfig).value,
      DeploymentsReady(w.deployments);
    var provisioned := WithImageStreams(Provisioned(s, generation, spec, w), generation, w);
    WithPhase(WithReady(Recording(provisioned, desired, version, ready), generation, desired, version, ready,
                        IsTrue(s.conditions, READY)), s, generation)
  }

  predicate NeedsRequeue(s: CrStatus, spec: Spec, desired: Distribution, platformVersion: string,
      deploymentsReady: bool) {
    || !deploymentsReady
    || (spec.contract.Some? && !IsTrue(s.conditions, EVIDENCE_CONDITION))
    || !Aligned(desired, s.distribution)
    || !HandshakeDone(desired, platformVersion, s.releases)
  }

  /** reconcileManaged, up to its final status update. */
  ghost function ManagedAttempt(s: CrStatus, generation: int, spec: Spec, w: World): Attempt {
    if Fresh(s) then Attempt(PendingStatus(s), true, false)
    else if FirstError(spec, w).Some? then Attempt(ErrorStatus(s, generation, FirstError(spec, w).value), false, true)
    else if w.imageStreams.StreamsFailed? then
      Attempt(ErrorStatus(Provisioned(s, generation, spec, w), generation, "ImageStreamsStatusFailed"), false, true)
    else
      var r := ReconciledStatus(s, generation, spec, w);
      Attempt(r, NeedsRequeue(r, spec, DesiredDistribution(spec, w).value, ReadVersion(w.versionConfig).value,
                              DeploymentsReady(w.deployments)), false)
  }

  /** What a reconcile returns: a failed status update is returned as an error, by reconcileManaged
      together with a requeue; an error status that could not be written changes nothing about it. */
  function Returned(attempt: Attempt, managed: bool, updated: bool): Attempt {
    if updated || attempt.failed then attempt else attempt.(requeue := managed, failed := true)
  }

  ghost function StatusAttempt(s: CrStatus, generation: int, spec: Spec, w: World): Attempt {
    if spec.managed then ManagedAttempt(s, generation, spec, w) else RemovedAttempt(s, generation, w)
  }

  // ---------- The reconciler, which edits the status in place ----------

  /** The persisted status; an update is all or nothing and may fail. */
  class StatusStore {
    var persisted: CrStatus

    constructor (s: CrStatus)
      ensures persisted == s
    {
      persisted := s;
    }

    method Update(s: CrStatus) returns (ok: bool)
      modifies this
      ensures persisted == if ok then s else old(persisted)
    {
      ok := *;
      if ok {
        persisted := s;
      }
    }
  }

  class Workbenches {
    var generation: int
    var spec: Spec
    var status: CrStatus

    constructor (generation: int, spec: Spec, status: CrStatus)
      ensures this.generation == generation && this.spec == spec && this.status == status
    {
      this.generation := generation;
      this.spec := spec;
      this.status := status;
    }

    method SetCondition(kind: string, condition: Condition)
      modifies this`status
      ensures status == old(status).(conditions := old(status).conditions[kind := condition])
    {
      status := status.(conditions := status.conditions[kind := condition]);
    }

    /** sanitizeConditions' loop. */
    method SanitizeConditions()
      modifies this`status
      ensures status == old(status).(conditions := Sanitize(old(status).conditions))
    {
      var todo := status.conditions.Keys;
      while todo != {}
        invariant todo <= old(status).conditions.Keys == status.conditions.Keys
        invariant status == old(status).(conditions := status.conditions)
        invariant forall k :: k in status.conditions ==>
          status.conditions[k] == if k in todo then old(status).conditions[k] else Sanitize(old(status).conditions)[k]
      {
        var k :| k in todo;
        todo := todo - {k};
        if status.conditions[k].reason == "" {
          SetCondition(k, status.conditions[k].(reason := UNKNOWN_REASON));
        }
      }
    }

    /** setErrorStatus */
    method SetErrorStatus(store: StatusStore, reason: string)
      modifies this`status, store
      ensures status == ErrorStatus(old(status), generation, reason)
      ensures store.persisted == old(store.persisted) || store.persisted == status
    {
      SetCondition(READY, Condition(False, reason, generation));
      var phase := ComputePhase(PhaseContext(0, 0, false, false, false, true, false, false));
      status := status.(phase := phase, observedGeneration := generation, evidence := NO_EVIDENCE);
      SetCondition(EVIDENCE_CONDITION, Stale(generation));
      SanitizeConditions();
      var _ := store.Update(status);
    }

    /** reconcileRemoved */
    method ReconcileRemoved(store: StatusStore, w: World) returns (attempt: Attempt, updated: bool)
      modifies this`status, store
      ensures attempt == Returned(RemovedAttempt(old(status), generation, w), false, updated)
      ensures store.persisted == if updated then attempt.status else old(store.persisted)
    {
      if !w.cleanupOk {
        SetErrorStatus(store, "CleanupFailed");
        return Attempt(status, false, true), store.persisted == status;
      }
      var removed := Condition(False, REMOVED, generation);
      SetCondition(READY, removed);
      SetCondition(PROVISIONING, removed);
      SetCondition(V2, removed);
      SetCondition(EVIDENCE_CONDITION, removed);
      var phase := ComputePhase(PhaseContext(0, 0, false, false, false, false, true, false));
      status := status.(phase := phase, releases := [], distribution := NO_DISTRIBUTION, evidence := NO_EVIDENCE,
                        observedGeneration := generation);
      SanitizeConditions();
      updated := store.Update(status);
      return Attempt(status, false, !updated), updated;
    }

    /** setReadyCondition */
    method SetReadyCondition(deploymentsReady: bool, wasReady: bool, desired: Distribution, platformVersion: string)
      modifies this`status
      ensures status == WithReady(old(status), generation, desired, platformVersion, deploymentsReady, wasReady)
    {
      hide HandshakeComplete;
      var aligned := Aligned(desired, status.distribution);
      var required := HandshakeRequired(desired);
      var complete := !required || HandshakeComplete(platformVersion, status.releases);
      if deploymentsReady && aligned && complete {
        SetCondition(READY, Condition(True, SUCCESS, generation));
        SetCondition(DEGRADED, Condition(False, "NotDegraded", generation));
        return;
      }
      var reason := "DeploymentsNotReady";
      if deploymentsReady && !aligned {
        reason := NOT_ALIGNED;
      } else if deploymentsReady && aligned && required && !complete {
        reason := VERSION_PENDING;
        SetCondition(DEGRADED, Condition(False, "NotDegraded", generation));
      }
      SetCondition(READY, Condition(False, reason, generation));
      if !deploymentsReady && wasReady {
        SetCondition(DEGRADED, Condition(True, "DeploymentsNotReady", generation));
      }
    }

    /** The middle of reconcileManaged: release metadata and the informational conditions. */
    method Provision(w: World, deploymentsReady: bool)
      requires deploymentsReady == DeploymentsReady(w.deployments)
      modifies this`status
      ensures status == Provisioned(old(status), generation, spec, w)
    {
      hide Sync, MergeComponentReleases, GetPlatformRelease, V2Condition;
      var platform := FindPlatformRelease(status.releases);
      var merged := MergeReleases(if w.metadata.Some? then w.metadata.value else [], platform);
      status := status.(releases := merged);
      SetCondition(METADATA, if w.metadata.Some? then Condition(True, "Available", generation)
        else Condition(False, "ReleaseMetadataFailed", generation));
      SetCondition(PROVISIONING, Condition(True, "Provisioned", generation));
      SetCondition(DEPLOYMENTS, if deploymentsReady then Condition(True, "Available", generation)
        else Condition(False, "Unavailable", generation));
      var evidence, gate := SyncIngressContractStatus(spec.contract, w.projection, w.rollout, generation);
      assert evidence == Sync(spec.contract, w.projection, w.rollout, generation).0;
      status := status.(evidence := evidence);
      SetCondition(EVIDENCE_CONDITION, gate);
      SetCondition(V2, V2Condition(spec, w, generation));
    }

    /** The recording step of reconcileManaged. */
    method RecordAlignmentAndHandshake(desired: Distribution, platformVersion: string, deploymentsReady: bool)
      modifies this`status
      ensures status == Recording(old(status), desired, platformVersion, deploymentsReady)
    {
      hide SetPlatformRelease, GetPlatformRelease;
      if deploymentsReady && IsTrue(status.conditions, PROVISIONING) && !Aligned(desired, status.distribution) {
        status := status.(distribution := desired);
      }
      var current := FindPlatformRelease(status.releases);
      var wasPending := READY in status.conditions && status.conditions[READY].reason == VERSION_PENDING;
      if deploymentsReady && platformVersion != "" && current.version != platformVersion
         && (current.version == "" || wasPending || !HandshakeRequired(desired)) {
        var releases := RecordPlatformRelease(status.releases, platformVersion);
        status := status.(releases := releases);
      }
    }

    /** reconcileManaged. `updated` says whether its last status update went through. */
    method ReconcileManaged(store: StatusStore, w: World) returns (attempt: Attempt, updated: bool)
      modifies this`status, store
      ensures attempt == Returned(ManagedAttempt(old(status), generation, spec, w), true, updated)
      ensures store.persisted == if updated then attempt.status else old(store.persisted)
    {
      hide Provisioned, Recording, WithReady, WithImageStreams, ErrorStatus, HandshakeComplete, HandshakeRequired,
           Sanitize, AllAvailable;
      var before := status;
      if status.phase.NoPhase? && status.observedGeneration == 0 {
        status := status.(phase := Phase.Pending);
        SanitizeConditions();
        updated := store.Update(status);
        return Attempt(status, true, !updated), updated;
      }
      var error := FirstError(spec, w);
      if error.Some? {
        SetErrorStatus(store, error.value);
        return Attempt(status, false, true), store.persisted == status;
      }
      var desired, platformVersion := DesiredDistribution(spec, w).value, ReadVersion(w.versionConfig).value;
      var deploymentsReady := false;
      if w.deployments.Listed? {
        deploymentsReady := DeploymentsAvailability(w.deployments.items);
      }
      Provision(w, deploymentsReady);
      if w.imageStreams.StreamsFailed? {
        SetErrorStatus(store, "ImageStreamsStatusFailed");
        return Attempt(status, false, true), store.persisted == status;
      }
      status := WithImageStreams(status, generation, w);
      RecordAlignmentAndHandshake(desired, platformVersion, deploymentsReady);
      SetReadyCondition(deploymentsReady, IsTrue(before.conditions, READY), desired, platformVersion);
      var phase := ComputePhase(PhaseContext(
        before.observedGeneration, generation, IsTrue(before.conditions, READY),
        IsTrue(status.conditions, READY), IsTrue(status.conditions, DEGRADED), false, false,
        IsTrue(status.conditions, PROVISIONING)));
      status := status.(observedGeneration := generation, phase := phase);
      SanitizeConditions();
      assert status == ReconciledStatus(before, generation, spec, w);
      updated := store.Update(status);
      if !updated {
        return Attempt(status, true, true), updated;
      }
      return Attempt(status, NeedsRequeue(status, spec, desired, platformVersion, deploymentsReady), false), updated;
    }
  }
}
