/**
 What every field of the persisted status means, stated on the status before, the spec and the reads
 of one reconcile, and over whole runs what justifies the recorded distribution and Ready.
 */
module ReconcileMeaning {
  import opened GoText
  import opened Status
  import opened PlatformConfig
  import opened PlatformConfigLaws
  import opened IngressContract
  import opened Reconcile
  import opened ReconcileRuns

  // ---------- What the reads say ----------

  /** As many ready pods as wanted, and at least one wanted. */
  predicate Up(d: Deployment) {
    1 <= Wanted(d) <= d.readyReplicas
  }

  predicate AllUp(listing: Listing) {
    listing.Listed? && listing.items != [] && forall d :: d in listing.items ==> Up(d)
  }

  predicate NamedUp(listing: Listing, name: string) {
    && listing.Listed? && (exists d :: d in listing.items && d.name == name)
    && forall d :: d in listing.items && d.name == name ==> Up(d)
  }

  lemma UpExactly(ds: seq<Deployment>)
    ensures AllAvailable(ds) <==> ds != [] && forall d :: d in ds ==> Up(d)
  {
    if forall d :: d in ds ==> Up(d) {
      forall i | 0 <= i < |ds| ensures Available(ds[i]) {
        assert ds[i] in ds;
      }
    }
  }

  lemma {:induction false} NamedMembers(ds: seq<Deployment>, name: string)
    ensures forall d :: d in Named(ds, name) <==> d in ds && d.name == name
  {
    if ds != [] {
      NamedMembers(ds[1..], name);
      assert forall d :: d in ds <==> d == ds[0] || d in ds[1..];
    }
  }

  /** Deployments count as ready exactly when some are listed and every one listed has the pods it
      wants, at least one, ready; likewise for those of one name. */
  lemma ReadyExactly(listing: Listing, name: string)
    ensures DeploymentsReady(listing) <==> AllUp(listing)
    ensures listing.Listed? ==> (AllAvailable(Named(listing.items, name)) <==> NamedUp(listing, name))
  {
    if listing.Listed? {
      UpExactly(listing.items);
      NamedMembers(listing.items, name);
      var named := Named(listing.items, name);
      UpExactly(named);
      assert named != [] ==> named[0] in named;
    }
  }

  /** What stops a managed reconcile before it looks at deployments, "" if nothing does: the spec, the
      distribution, the version, the namespaces, the manifests, in this order. */
  function Obstacle(spec: Spec, w: World): string {
    if (spec.probeTimeout.Some? && spec.probeTimeout.value <= 0)
      || spec.platform !in {"", "OpenDataHub", "SelfManagedRhoai"} then "InvalidSpec"
    else if w.distributionConfig.Failed? || Unusable(Setting(w.distributionConfig, "distribution.name"),
      Setting(w.distributionConfig, "distribution.version")) then "PlatformConfigReadFailed"
    else if w.versionConfig.Failed? then "PlatformVersionReadFailed"
    else if !w.dependenciesOk then "ConfigureDependenciesFailed"
    else if !w.applyOk then "ManifestApplyFailed"
    else ""
  }

  lemma FirstErrorExactly(spec: Spec, w: World)
    ensures FirstError(spec, w) == if Obstacle(spec, w) == "" then None else Some(Obstacle(spec, w))
  {
    hide ReadDistribution, ReadVersion, ResolveDistribution, Setting, Unusable;
    ReadFails(w.distributionConfig);
    VersionMeaning(w.versionConfig);
  }

  // ---------- Conditions ----------

  function Look(c: Conditions, kind: string): Option<Condition> {
    if kind in c then Some(c[kind]) else None
  }

  /** A condition that a write carries over: a missing reason is filled in. */
  function Carried(c: Conditions, kind: string): Option<Condition> {
    if kind in c && c[kind].reason == "" then Some(Condition(c[kind].status, "Unknown", c[kind].observedGeneration))
    else Look(c, kind)
  }

  function Verdict(good: bool, goodReason: string, badReason: string, generation: int): Option<Condition> {
    Some(if good then Condition(True, goodReason, generation) else Condition(False, badReason, generation))
  }

  lemma SanitizedAt(c: Conditions, kind: string)
    ensures Look(Sanitize(c), kind) == Carried(c, kind)
  {
  }

  lemma OwnedDistinct()
    ensures READY !in {PROVISIONING, DEGRADED, DEPLOYMENTS, METADATA, IMAGE_STREAMS, V2, EVIDENCE_CONDITION}
    ensures PROVISIONING !in {DEGRADED, DEPLOYMENTS, METADATA, IMAGE_STREAMS, V2, EVIDENCE_CONDITION}
    ensures DEGRADED !in {DEPLOYMENTS, METADATA, IMAGE_STREAMS, V2, EVIDENCE_CONDITION}
    ensures EVIDENCE_CONDITION !in {DEPLOYMENTS, METADATA, IMAGE_STREAMS, V2}
    ensures METADATA !in {DEPLOYMENTS, IMAGE_STREAMS, V2} && DEPLOYMENTS !in {IMAGE_STREAMS, V2} && IMAGE_STREAMS != V2
  {
    KindsDistinct();
    assert DEPLOYMENTS[0] == 'D' && METADATA[0] == 'R' && V2[0] == 'W' && IMAGE_STREAMS[0] == 'I';
  }

  /** What a reconcile that applied its manifests reports, before it looks at Ready; None for the
      kinds it does not report. */
  ghost function Reported(spec: Spec, w: World, generation: int, kind: string): Option<Condition> {
    if kind == METADATA then Verdict(w.metadata.Some?, "Available", "ReleaseMetadataFailed", generation)
    else if kind == PROVISIONING then Some(Condition(True, "Provisioned", generation))
    else if kind == DEPLOYMENTS then Verdict(AllUp(w.deployments), "Available", "Unavailable", generation)
    else if kind == V2 then
      Verdict(spec.v2Managed && w.v2Manifests && NamedUp(w.v2Deployments, "workspaces-controller"), "Available",
        if !spec.v2Managed then "Removed" else if !w.v2Manifests then "ManifestsNotAvailable" else "Unavailable",
        generation)
    else if kind == EVIDENCE_CONDITION then Some(Sync(spec.contract, w.projection, w.rollout, generation).1)
    else None
  }

  lemma ProvisionedAt(s: CrStatus, generation: int, spec: Spec, w: World, kind: string)
    ensures var p, reported := Provisioned(s, generation, spec, w), Reported(spec, w, generation, kind);
      && Look(p.conditions, kind) == (if reported.Some? then reported else Look(s.conditions, kind))
      && p.distribution == s.distribution && p.observedGeneration == s.observedGeneration
      && p.evidence == Sync(spec.contract, w.projection, w.rollout, generation).0
  {
    assert NamedUp(w.v2Deployments, WORKSPACES_CONTROLLER) ==> w.v2Deployments.Listed?;
    hide Sync, MergeComponentReleases, GetPlatformRelease, DeploymentsReady, AllUp, NamedUp, Named, AllAvailable, READY,
         PROVISIONING, DEGRADED, DEPLOYMENTS, METADATA, IMAGE_STREAMS, EVIDENCE_CONDITION, V2;
    OwnedDistinct();
    ReadyExactly(w.deployments, WORKSPACES_CONTROLLER);
    ReadyExactly(w.v2Deployments, WORKSPACES_CONTROLLER);
  }

  /** Ready and its reason: every deployment is up, and the version handshake is done or not needed. */
  predicate ShouldBeReady(w: World, desired: Distribution, version: string, recorded: string) {
    AllUp(w.deployments) && (desired.name == "Standalone" || (version != "" && recorded == version))
  }

  /** What a completed reconcile leaves of each condition; `recorded` is the platform version that the
      status then records. */
  ghost function Concluded(s: CrStatus, generation: int, spec: Spec, w: World, desired: Distribution, version: string,
      recorded: string, kind: string): Option<Condition> {
    if kind == READY then
      Verdict(ShouldBeReady(w, desired, version, recorded), "ReconcileSuccess",
        if AllUp(w.deployments) then "PlatformVersionPending" else "DeploymentsNotReady", generation)
    else if kind == DEGRADED && AllUp(w.deployments) then Some(Condition(False, "NotDegraded", generation))
    else if kind == DEGRADED && IsTrue(s.conditions, READY) then
      Some(Condition(True, "DeploymentsNotReady", generation))
    else if kind == IMAGE_STREAMS && (w.imageStreams.AllImported? || w.imageStreams.SomeFailed?) then
      Verdict(w.imageStreams.AllImported?, "Available", "ImageStreamsNotReady", generation)
    else if Reported(spec, w, generation, kind).Some? then Reported(spec, w, generation, kind)
    else Carried(s.conditions, kind)
  }

  /** Reading the two definitions of "ready" off each other. */
  lemma DoneExactly(desired: Distribution, version: string, releases: seq<Release>)
    requires TrimSpace(version) == version
    ensures HandshakeDone(desired, version, releases) <==>
      desired.name == "Standalone" || (version != "" && Recorded(releases) == version)
  {
    hide TrimSpace, Recorded;
  }

  lemma WithReadyAt(p: CrStatus, generation: int, desired: Distribution, version: string, up: bool, wasReady: bool,
      kind: string)
    requires up ==> Aligned(desired, p.distribution)
    ensures var r, ready := WithReady(p, generation, desired, version, up, wasReady),
      up && HandshakeDone(desired, version, p.releases);
      && r == p.(conditions := r.conditions)
      && Look(r.conditions, kind) ==
        if kind == READY then
          Verdict(ready, "ReconcileSuccess", if up then "PlatformVersionPending" else "DeploymentsNotReady", generation)
        else if kind == DEGRADED && up then Some(Condition(False, "NotDegraded", generation))
        else if kind == DEGRADED && wasReady then Some(Condition(True, "DeploymentsNotReady", generation))
        else Look(p.conditions, kind)
  {
    hide READY, DEGRADED, HandshakeDone, Aligned;
    KindsDistinct();
  }

  lemma ImageStreamsAt(p: CrStatus, generation: int, w: World, kind: string)
    ensures var q := WithImageStreams(p, generation, w);
      && q == p.(conditions := q.conditions)
      && Look(q.conditions, kind) ==
        if kind == IMAGE_STREAMS && (w.imageStreams.AllImported? || w.imageStreams.SomeFailed?) then
          Verdict(w.imageStreams.AllImported?, "Available", "ImageStreamsNotReady", generation)
        else Look(p.conditions, kind)
  {
    hide IMAGE_STREAMS;
  }

  lemma ReportedReason(spec: Spec, w: World, generation: int, kind: string)
    ensures Reported(spec, w, generation, kind).Some? ==> Reported(spec, w, generation, kind).value.reason != ""
  {
    hide AllUp, NamedUp, METADATA, PROVISIONING, DEPLOYMENTS, V2, EVIDENCE_CONDITION, Sync;
  }

  lemma ReasonsGiven(s: CrStatus, generation: int, spec: Spec, w: World, desired: Distribution, version: string,
      recorded: string, kind: string)
    ensures Reported(spec, w, generation, kind).Some? ==> Reported(spec, w, generation, kind).value.reason != ""
    ensures Verdict(ShouldBeReady(w, desired, version, recorded), "ReconcileSuccess",
      if AllUp(w.deployments) then "PlatformVersionPending" else "DeploymentsNotReady", generation).value.reason != ""
    ensures Verdict(w.imageStreams.AllImported?, "Available", "ImageStreamsNotReady", generation).value.reason != ""
    ensures "NotDegraded" != "" && "DeploymentsNotReady" != ""
  {
    hide AllUp, NamedUp, METADATA, PROVISIONING, DEPLOYMENTS, V2, EVIDENCE_CONDITION, READY, IMAGE_STREAMS, DEGRADED,
         ShouldBeReady, Sync;
  }

  /** The status a completed reconcile has before its phase and its missing reasons are filled in. */
  ghost function Draft(s: CrStatus, generation: int, spec: Spec, w: World, desired: Distribution, version: string)
    : CrStatus
  {
    var provisioned := WithImageStreams(Provisioned(s, generation, spec, w), generation, w);
    var up := DeploymentsReady(w.deployments);
    WithReady(Recording(provisioned, desired, version, up), generation, desired, version, up,
      IsTrue(s.conditions, READY))
  }

  lemma DraftAt(s: CrStatus, generation: int, spec: Spec, w: World, desired: Distribution, version: string,
      kind: string)
    requires Aligned(desired, desired) && TrimSpace(version) == version
    ensures var c := Draft(s, generation, spec, w, desired, version);
      && Carried(c.conditions, kind) == Concluded(s, generation, spec, w, desired, version, Recorded(c.releases), kind)
      && c.distribution == (if AllUp(w.deployments) then desired else s.distribution)
      && c.evidence == Sync(spec.contract, w.projection, w.rollout, generation).0
  {
    hide Provisioned, WithImageStreams, WithReady, Sync, SetPlatformRelease, HandshakeDone, Recorded, DeploymentsReady,
         AllUp, READY, PROVISIONING, DEGRADED, IMAGE_STREAMS, EVIDENCE_CONDITION, Reported, Concluded, TrimSpace;
    OwnedDistinct();
    ReadyExactly(w.deployments, "");
    var up := DeploymentsReady(w.deployments);
    var p := Provisioned(s, generation, spec, w);
    ProvisionedAt(s, generation, spec, w, kind);
    ProvisionedFacts(s, generation, spec, w, p);
    var q := WithImageStreams(p, generation, w);
    ImageStreamsAt(p, generation, w, kind);
    ImageStreamsFacts(p, generation, w, q);
    var recorded := Recording(q, desired, version, up);
    assert IsTrue(q.conditions, PROVISIONING);
    assert recorded == q.(distribution := recorded.distribution, releases := recorded.releases);
    assert up ==> recorded.distribution == desired;
    assert !up ==> recorded.distribution == s.distribution;
    hide Recording, Aligned;
    var c := WithReady(recorded, generation, desired, version, up, IsTrue(s.conditions, READY));
    WithReadyAt(recorded, generation, desired, version, up, IsTrue(s.conditions, READY), kind);
    DoneExactly(desired, version, recorded.releases);
    ConcludedByStages(s, generation, spec, w, desired, version, Recorded(c.releases), kind, c.conditions);
  }

  lemma ConcludedByStages(s: CrStatus, generation: int, spec: Spec, w: World, desired: Distribution, version: string,
      recorded: string, kind: string, c: Conditions)
    requires Look(c, kind) ==
      if kind == READY then Verdict(ShouldBeReady(w, desired, version, recorded), "ReconcileSuccess",
        if AllUp(w.deployments) then "PlatformVersionPending" else "DeploymentsNotReady", generation)
      else if kind == DEGRADED && AllUp(w.deployments) then Some(Condition(False, "NotDegraded", generation))
      else if kind == DEGRADED && IsTrue(s.conditions, READY) then
        Some(Condition(True, "DeploymentsNotReady", generation))
      else if kind == IMAGE_STREAMS && (w.imageStreams.AllImported? || w.imageStreams.SomeFailed?) then
        Verdict(w.imageStreams.AllImported?, "Available", "ImageStreamsNotReady", generation)
      else if Reported(spec, w, generation, kind).Some? then Reported(spec, w, generation, kind)
      else Look(s.conditions, kind)
    ensures Carried(c, kind) == Concluded(s, generation, spec, w, desired, version, recorded, kind)
  {
    ReasonsGiven(s, generation, spec, w, desired, version, recorded, kind);
    hide AllUp, READY, DEGRADED, IMAGE_STREAMS, Reported, ShouldBeReady, Verdict;
  }

  // ---------- Releases ----------

  lemma {:induction false} NoPlatformLeft(rs: seq<Release>)
    ensures forall i :: 0 <= i < |WithoutPlatform(rs)| ==> !IsPlatform(WithoutPlatform(rs)[i])
  {
    if rs != [] {
      NoPlatformLeft(rs[1..]);
    }
  }

  /** The platform version that a completed reconcile leaves recorded: the one it read when every
      deployment is up and it is the first, or the status waits for it, or no handshake is needed;
      otherwise the one recorded before. */
  function VersionAfter(s: CrStatus, w: World, desired: Distribution, version: string): string {
    if AllUp(w.deployments) && version != ""
      && (Recorded(s.releases) == "" || desired.name == "Standalone"
          || (READY in s.conditions && s.conditions[READY].reason == "PlatformVersionPending"))
    then version else Recorded(s.releases)
  }

  lemma RefreshedMeaning(s: CrStatus, w: World)
    requires ValidReleases(s.releases)
    ensures var p := GetPlatformRelease(s.releases);
      && Refreshed(s, w) == WithoutPlatform(if w.metadata.Some? then w.metadata.value else [])
           + (if Recorded(s.releases) == "" then [] else [p])
      && (Recorded(s.releases) != "" ==> IsPlatform(p))
      && (Recorded(s.releases) == "" ==> p == Release("", "", ""))
  {
    hide TrimSpace;
    RecordedByCount(s.releases);
    RefreshMeaning(if w.metadata.Some? then w.metadata.value else [], GetPlatformRelease(s.releases));
  }

  /** The entry the recorded version is kept in, if there is one. */
  function PlatformEntry(s: CrStatus, version: string): seq<Release> {
    if version == "" then [] else [Release("platform", version, GetPlatformRelease(s.releases).repoUrl)]
  }

  /** The releases a completed reconcile persists: the component metadata without platform entries, in
      order, and the recorded platform version, if any, in an entry of its own. */
  lemma ReleasesMeaning(s: CrStatus, generation: int, spec: Spec, w: World)
    requires Completes(spec, w) && ValidReleases(s.releases)
    ensures DesiredDistribution(spec, w).Ok? && ReadVersion(w.versionConfig).Ok?
    ensures var r, version := ReconciledStatus(s, generation, spec, w),
      VersionAfter(s, w, DesiredDistribution(spec, w).value, ReadVersion(w.versionConfig).value);
      && r.releases == WithoutPlatform(if w.metadata.Some? then w.metadata.value else []) + PlatformEntry(s, version)
      && Recorded(r.releases) == version
  {
    NoErrorReads(spec, w);
    CompletedWrite(s, generation, spec, w);
    var desired, version := DesiredDistribution(spec, w).value, ReadVersion(w.versionConfig).value;
    var r := ReconciledStatus(s, generation, spec, w);
    assert r.releases == if Records(s, desired, version, w) then SetPlatformRelease(Refreshed(s, w), version)
      else Refreshed(s, w);
    hide *;
    CompletedReleases(s, generation, spec, w, r);
    VersionTrimmed(w.versionConfig);
    RecordsExactly(s, w, desired, version);
    RecordedEntry(s, w, desired, version);
  }

  lemma RecordsExactly(s: CrStatus, w: World, desired: Distribution, version: string)
    requires ValidReleases(s.releases)
    ensures VersionAfter(s, w, desired, version) ==
      if Records(s, desired, version, w) then version else Recorded(s.releases)
    ensures Records(s, desired, version, w) ==> version != ""
  {
    hide TrimSpace, DeploymentsReady, AllUp, ValidReleases, Recorded, Refreshed;
    RefreshKeepsRecorded(s, w);
    ReadyExactly(w.deployments, "");
  }

  lemma RecordedEntry(s: CrStatus, w: World, desired: Distribution, version: string)
    requires ValidReleases(s.releases) && TrimSpace(version) == version
    ensures var others := WithoutPlatform(if w.metadata.Some? then w.metadata.value else []);
      && Refreshed(s, w) == others + PlatformEntry(s, Recorded(s.releases))
      && (version != "" ==> SetPlatformRelease(Refreshed(s, w), version) == others + PlatformEntry(s, version))
  {
    hide TrimSpace, ValidReleases, WithoutPlatform, Refreshed, SetPlatformRelease;
    RefreshedMeaning(s, w);
    var metadata := if w.metadata.Some? then w.metadata.value else [];
    NoPlatformLeft(metadata);
    if version != "" {
      SetAtEnd(WithoutPlatform(metadata), GetPlatformRelease(s.releases), Recorded(s.releases) != "", version);
    }
  }

  lemma SetAtEnd(others: seq<Release>, p: Release, present: bool, version: string)
    requires forall i :: 0 <= i < |others| ==> !IsPlatform(others[i])
    requires TrimSpace(version) == version != ""
    requires if present then IsPlatform(p) else p.repoUrl == ""
    ensures SetPlatformRelease(others + (if present then [p] else []), version)
      == others + [Release("platform", version, p.repoUrl)]
  {
    hide TrimSpace;
    if present {
      assert FirstAt(others + [p], |others|);
      RecordingMeaning(others + [p], version);
    } else {
      assert others + [] == others;
      RecordingMeaning(others, version);
    }
  }

  // ---------- Every write ----------

  /** The phase a completed reconcile ends in. */
  function PhaseAfter(s: CrStatus, generation: int, up: bool, ready: bool): Phase {
    if ready then Phase.Ready
    else if IsTrue(s.conditions, READY) && 0 < s.observedGeneration < generation then Upgrading
    else if !up && (IsTrue(s.conditions, READY) || IsTrue(s.conditions, DEGRADED)) then Degraded
    else Initializing
  }

  lemma TruthCarried(c: Conditions, kind: string)
    ensures IsTrue(c, kind) <==> Carried(c, kind).Some? && Carried(c, kind).value.status.True?
  {
  }

  /** A completed reconcile, field by field. */
  lemma CompletedMeaning(s: CrStatus, generation: int, spec: Spec, w: World, kind: string)
    requires spec.managed && !Fresh(s) && ValidReleases(s.releases)
    requires Obstacle(spec, w) == "" && !w.imageStreams.StreamsFailed?
    ensures DesiredDistribution(spec, w).Ok? && ReadVersion(w.versionConfig).Ok?
    ensures var r, up := StatusAttempt(s, generation, spec, w).status, AllUp(w.deployments);
      var desired, read := DesiredDistribution(spec, w).value, ReadVersion(w.versionConfig).value;
      var version := VersionAfter(s, w, desired, read);
      && Look(r.conditions, kind) == Concluded(s, generation, spec, w, desired, read, version, kind)
      && r.distribution == (if up then desired else s.distribution)
      && r.releases == WithoutPlatform(if w.metadata.Some? then w.metadata.value else [])
           + PlatformEntry(s, version)
      && r.evidence == Sync(spec.contract, w.projection, w.rollout, generation).0
      && r.observedGeneration == generation
      && r.phase == PhaseAfter(s, generation, up, ShouldBeReady(w, desired, read, version))
  {
    FirstErrorExactly(spec, w);
    NoErrorReads(spec, w);
    hide Obstacle, FirstError, Provisioned, Sync, DesiredDistribution, ReadVersion, DeploymentsReady, AllUp, READY,
         DEGRADED, PROVISIONING, Concluded, ValidReleases, NeedsRequeue, Recorded, WithoutPlatform, Draft, TrimSpace;
    NoErrorCompletes(spec, w);
    var desired, read := DesiredDistribution(spec, w).value, ReadVersion(w.versionConfig).value;
    DesiredIsComplete(spec, w);
    VersionTrimmed(w.versionConfig);
    ReleasesMeaning(s, generation, spec, w);
    var c := Draft(s, generation, spec, w, desired, read);
    DraftIsBeforePhase(s, generation, spec, w);
    forall k
      ensures Carried(c.conditions, k) == Concluded(s, generation, spec, w, desired, read, Recorded(c.releases), k)
    {
      DraftAt(s, generation, spec, w, desired, read, k);
    }
    DraftAt(s, generation, spec, w, desired, read, kind);
    SanitizedAt(c.conditions, kind);
    hide ReconciledStatus;
    PhaseOfDraft(s, generation, spec, w, desired, read, c);
  }

  lemma DraftIsBeforePhase(s: CrStatus, generation: int, spec: Spec, w: World)
    requires FirstError(spec, w).None? && DesiredDistribution(spec, w).Ok? && ReadVersion(w.versionConfig).Ok?
    ensures var desired, read := DesiredDistribution(spec, w).value, ReadVersion(w.versionConfig).value;
      ReconciledStatus(s, generation, spec, w) == WithPhase(Draft(s, generation, spec, w, desired, read), s, generation)
  {
    hide FirstError, DesiredDistribution, ReadVersion, DeploymentsReady, Provisioned, WithPhase, WithReady;
  }

  lemma PhaseOfDraft(s: CrStatus, generation: int, spec: Spec, w: World, desired: Distribution, read: string,
      c: CrStatus)
    requires forall k ::
      Carried(c.conditions, k) == Concluded(s, generation, spec, w, desired, read, Recorded(c.releases), k)
    ensures WithPhase(c, s, generation).phase ==
      PhaseAfter(s, generation, AllUp(w.deployments), ShouldBeReady(w, desired, read, Recorded(c.releases)))
  {
    hide AllUp, Recorded, Carried, READY, DEGRADED, PROVISIONING, METADATA, DEPLOYMENTS, V2, EVIDENCE_CONDITION,
         IMAGE_STREAMS, Sync;
    OwnedDistinct();
    TruthCarried(c.conditions, READY);
    TruthCarried(c.conditions, DEGRADED);
    TruthCarried(c.conditions, PROVISIONING);
    TruthCarried(s.conditions, DEGRADED);
  }

  /** The first write of a managed CR sets the phase and fills in reasons, no more. */
  lemma PendingMeaning(s: CrStatus, generation: int, spec: Spec, w: World, kind: string)
    requires spec.managed && s.phase.NoPhase? && s.observedGeneration == 0
    ensures var r := StatusAttempt(s, generation, spec, w).status;
      Look(r.conditions, kind) == Carried(s.conditions, kind)
      && r.(conditions := s.conditions) == s.(phase := Phase.Pending)
    ensures StatusAttempt(s, generation, spec, w).requeue && !StatusAttempt(s, generation, spec, w).failed
  {
    hide FirstError, Provisioned, ReconciledStatus;
    SanitizedAt(s.conditions, kind);
  }

  /** What an error leaves of each condition. */
  function Refused(before: Option<Condition>, generation: int, reason: string, kind: string): Option<Condition> {
    if kind == READY then Some(Condition(False, reason, generation))
    else if kind == EVIDENCE_CONDITION then Some(Condition(False, "IngressContractEvidenceStale", generation))
    else before
  }

  lemma ErrorMeaning(s: CrStatus, generation: int, reason: string, kind: string)
    requires reason != ""
    ensures var r := ErrorStatus(s, generation, reason);
      && Look(r.conditions, kind) == Refused(Carried(s.conditions, kind), generation, reason, kind)
      && r.(conditions := s.conditions) == CrStatus(s.conditions, s.releases, generation, s.distribution, Phase.Failed,
           Evidence("", 0, 0))
  {
  }

  /** A managed reconcile that stops before it looks at deployments reports why, withdraws the evidence,
      and leaves the rest of the status alone, distribution and releases among it. */
  lemma ObstacleMeaning(s: CrStatus, generation: int, spec: Spec, w: World, kind: string)
    requires spec.managed && !Fresh(s) && Obstacle(spec, w) != ""
    ensures var r := StatusAttempt(s, generation, spec, w).status;
      && Look(r.conditions, kind) == Refused(Carried(s.conditions, kind), generation, Obstacle(spec, w), kind)
      && r.(conditions := s.conditions) == CrStatus(s.conditions, s.releases, generation, s.distribution, Phase.Failed,
           Evidence("", 0, 0))
    ensures StatusAttempt(s, generation, spec, w).failed && !StatusAttempt(s, generation, spec, w).requeue
  {
    FirstErrorExactly(spec, w);
    hide Obstacle, FirstError, ErrorStatus, Provisioned, ReconciledStatus, Refused;
    ErrorMeaning(s, generation, Obstacle(spec, w), kind);
  }

  /** When ImageStreams cannot be read the reconcile has already reported on its deployments; the
      evidence is withdrawn all the same. */
  lemma ImageStreamsMeaning(s: CrStatus, generation: int, spec: Spec, w: World, kind: string)
    requires spec.managed && !Fresh(s) && Obstacle(spec, w) == "" && w.imageStreams.StreamsFailed?
    ensures var r, reported := StatusAttempt(s, generation, spec, w).status, Reported(spec, w, generation, kind);
      && Look(r.conditions, kind) == Refused(if reported.Some? then reported else Carried(s.conditions, kind),
           generation, "ImageStreamsStatusFailed", kind)
      && r.(conditions := s.conditions) == CrStatus(s.conditions, Refreshed(s, w), generation, s.distribution,
           Phase.Failed, Evidence("", 0, 0))
    ensures StatusAttempt(s, generation, spec, w).failed && !StatusAttempt(s, generation, spec, w).requeue
  {
    FirstErrorExactly(spec, w);
    hide Obstacle, FirstError, ErrorStatus, Provisioned, ReconciledStatus, Refused, Reported, Refreshed;
    var p := Provisioned(s, generation, spec, w);
    ErrorMeaning(p, generation, "ImageStreamsStatusFailed", kind);
    ProvisionedAt(s, generation, spec, w, kind);
    ProvisionedReleases(s, generation, spec, w);
    ReportedReason(spec, w, generation, kind);
  }

  /** A removed component: four conditions say so, the others stay; releases, distribution and evidence
      are cleared. */
  lemma RemovedMeaning(s: CrStatus, generation: int, spec: Spec, w: World, kind: string)
    requires !spec.managed && w.cleanupOk
    ensures var a := StatusAttempt(s, generation, spec, w);
      && !a.failed && !a.requeue
      && Look(a.status.conditions, kind) == (
           if kind in {READY, PROVISIONING, V2, EVIDENCE_CONDITION} then Some(Condition(False, "Removed", generation))
           else Carried(s.conditions, kind))
      && a.status.(conditions := s.conditions) == CrStatus(s.conditions, [], generation, Distribution("", ""),
           Phase.Failed, Evidence("", 0, 0))
  {
    hide READY, PROVISIONING, V2, EVIDENCE_CONDITION;
  }

  /** As long as cleanup fails the component's releases and distribution stay recorded, the error is
      reported, and it is returned. */
  lemma CleanupFailedMeaning(s: CrStatus, generation: int, spec: Spec, w: World, kind: string)
    requires !spec.managed && !w.cleanupOk
    ensures var a := StatusAttempt(s, generation, spec, w);
      && a.failed && !a.requeue
      && Look(a.status.conditions, kind) == Refused(Carried(s.conditions, kind), generation, "CleanupFailed", kind)
      && a.status.(conditions := s.conditions) == CrStatus(s.conditions, s.releases, generation, s.distribution,
           Phase.Failed, Evidence("", 0, 0))
  {
    ErrorMeaning(s, generation, "CleanupFailed", kind);
  }

  // ---------- What one reconcile may record ----------

  /** The reconcile saw what it takes to record a distribution: nothing failed, and every deployment the
      API listed was up. */
  predicate SawAllUp(spec: Spec, w: World) {
    spec.managed && Obstacle(spec, w) == "" && !w.imageStreams.StreamsFailed? && AllUp(w.deployments)
  }

  /** The recorded distribution is what a reconcile that saw every deployment up had read; nothing else
      changes it but a removal, which clears it. */
  lemma DistributionWritten(s: CrStatus, generation: int, spec: Spec, w: World)
    requires ValidReleases(s.releases)
    ensures SawAllUp(spec, w) ==> DesiredDistribution(spec, w).Ok?
    ensures StatusAttempt(s, generation, spec, w).status.distribution ==
      if SawAllUp(spec, w) && !Fresh(s) then DesiredDistribution(spec, w).value
      else if !spec.managed && w.cleanupOk then Distribution("", "")
      else s.distribution
  {
    hide StatusAttempt, Obstacle, AllUp, ValidReleases, DesiredDistribution, ReadVersion, Fresh, Concluded;
    if !spec.managed {
      if w.cleanupOk {
        RemovedMeaning(s, generation, spec, w, READY);
      } else {
        CleanupFailedMeaning(s, generation, spec, w, READY);
      }
    } else if Obstacle(spec, w) == "" && !w.imageStreams.StreamsFailed? {
      if Fresh(s) {
        FirstErrorExactly(spec, w);
        NoErrorReads(spec, w);
        FreshKeeps(s, generation, spec, w);
      } else {
        CompletedMeaning(s, generation, spec, w, READY);
      }
    } else if Fresh(s) {
      FreshKeeps(s, generation, spec, w);
    } else if Obstacle(spec, w) != "" {
      ObstacleMeaning(s, generation, spec, w, READY);
    } else {
      ImageStreamsMeaning(s, generation, spec, w, READY);
    }
  }

  lemma FreshKeeps(s: CrStatus, generation: int, spec: Spec, w: World)
    requires spec.managed && Fresh(s)
    ensures StatusAttempt(s, generation, spec, w).status == PendingStatus(s)
    ensures PendingStatus(s).distribution == s.distribution && PendingStatus(s).releases == s.releases
    ensures IsTrue(PendingStatus(s).conditions, READY) <==> IsTrue(s.conditions, READY)
  {
    hide FirstError, Provisioned, ReconciledStatus, READY;
  }

  /** Ready is written by a reconcile that saw every deployment up, read the distribution it leaves
      recorded, and leaves the version it read recorded unless it is Standalone; and by no other. */
  lemma ReadyWritten(s: CrStatus, generation: int, spec: Spec, w: World)
    requires ValidReleases(s.releases)
    ensures var r := StatusAttempt(s, generation, spec, w).status;
      IsTrue(r.conditions, READY) && !(spec.managed && Fresh(s)) ==>
        && SawAllUp(spec, w) && DesiredDistribution(spec, w) == Ok(r.distribution)
        && (r.distribution.name == "Standalone"
            || (ReadVersion(w.versionConfig) == Ok(Recorded(r.releases)) && Recorded(r.releases) != ""))
  {
    hide StatusAttempt, Obstacle, AllUp, ValidReleases, DesiredDistribution, ReadVersion, Fresh, Recorded, READY,
         PROVISIONING, V2, EVIDENCE_CONDITION;
    if spec.managed && Fresh(s) {
    } else if !spec.managed {
      if w.cleanupOk {
        RemovedMeaning(s, generation, spec, w, READY);
      } else {
        CleanupFailedMeaning(s, generation, spec, w, READY);
      }
    } else if Obstacle(spec, w) != "" {
      ObstacleMeaning(s, generation, spec, w, READY);
    } else if w.imageStreams.StreamsFailed? {
      ImageStreamsMeaning(s, generation, spec, w, READY);
    } else {
      CompletedMeaning(s, generation, spec, w, READY);
      CompletedVersion(s, generation, spec, w);
    }
  }

  lemma CompletedVersion(s: CrStatus, generation: int, spec: Spec, w: World)
    requires spec.managed && !Fresh(s) && ValidReleases(s.releases)
    requires Obstacle(spec, w) == "" && !w.imageStreams.StreamsFailed?
    ensures DesiredDistribution(spec, w).Ok? && ReadVersion(w.versionConfig).Ok?
    ensures Recorded(StatusAttempt(s, generation, spec, w).status.releases) ==
      VersionAfter(s, w, DesiredDistribution(spec, w).value, ReadVersion(w.versionConfig).value)
  {
    FirstErrorExactly(spec, w);
    hide Obstacle, FirstError, DesiredDistribution, ReadVersion, ValidReleases, Recorded, NeedsRequeue, VersionAfter,
         Provisioned, ReconciledStatus;
    NoErrorCompletes(spec, w);
    ReleasesMeaning(s, generation, spec, w);
  }

  // ---------- Over runs ----------

  /** Event i persisted a reconcile that saw every deployment up and read this distribution. */
  ghost predicate ReadAt(spec: Spec, events: seq<Event>, i: int, distribution: Distribution) {
    && 0 <= i < |events| && Writes(events[i])
    && SawAllUp(After(Created(spec), events[..i]).spec, events[i].world)
    && DesiredDistribution(After(Created(spec), events[..i]).spec, events[i].world) == Ok(distribution)
  }

  /** No later persisted reconcile removed the component or recorded a distribution. */
  ghost predicate KeptSince(spec: Spec, events: seq<Event>, i: int) {
    forall j :: i < j < |events| && 0 <= j && Writes(events[j]) ==>
      var before := After(Created(spec), events[..j]).spec;
      (before.managed || !events[j].world.cleanupOk) && !SawAllUp(before, events[j].world)
  }

  lemma LaterKept(spec: Spec, events: seq<Event>, i: int, distribution: Distribution)
    requires events != [] && ReadAt(spec, events[..|events| - 1], i, distribution)
    requires KeptSince(spec, events[..|events| - 1], i)
    ensures ReadAt(spec, events, i, distribution)
    ensures var n := |events| - 1;
      !Writes(events[n]) || (var before := After(Created(spec), events[..n]).spec;
        (before.managed || !events[n].world.cleanupOk) && !SawAllUp(before, events[n].world))
      ==> KeptSince(spec, events, i)
  {
    hide After, SawAllUp, DesiredDistribution;
    var n := |events| - 1;
    assert forall j :: 0 <= j < n ==> events[..n][..j] == events[..j] && events[..n][j] == events[j];
  }

  /** Over every run: a recorded distribution was read by a persisted reconcile that saw every
      deployment up, and since then no reconcile that could have replaced or cleared it was persisted. */
  lemma {:induction false} DistributionJustified(spec: Spec, events: seq<Event>) returns (i: int)
    requires AllAllowed(events)
    ensures var d := After(Created(spec), events).status.distribution;
      d != Distribution("", "") ==> ReadAt(spec, events, i, d) && KeptSince(spec, events, i)
  {
    hide StatusAttempt, SawAllUp, DesiredDistribution, GoodStatus, ValidReleases, KeptSince, Fresh;
    i := 0;
    if events != [] {
      var n := |events| - 1;
      var cr, e := After(Created(spec), events[..n]), events[n];
      i := DistributionJustified(spec, events[..n]);
      if cr.status.distribution != Distribution("", "") {
        LaterKept(spec, events, i, cr.status.distribution);
      }
      if Writes(e) {
        StatusInvariant(spec, events[..n]);
        GoodReleases(cr.status, cr.generation);
        if Fresh(cr.status) {
          FreshHasNone(cr.status, cr.generation);
        }
        DistributionWritten(cr.status, cr.generation, cr.spec, e.world);
        if SawAllUp(cr.spec, e.world) && !Fresh(cr.status) {
          i := n;
          NothingSince(spec, events);
        }
      }
    }
  }

  lemma FreshHasNone(s: CrStatus, generation: int)
    requires GoodStatus(s, generation) && Fresh(s)
    ensures s.distribution == Distribution("", "") && !IsTrue(s.conditions, READY)
  {
  }

  lemma NothingSince(spec: Spec, events: seq<Event>)
    ensures KeptSince(spec, events, |events| - 1)
  {
  }

  /** Over every run: a status that is Ready was written by the last persisted reconcile, which saw
      every deployment up, read the distribution it recorded, and had the version it read recorded
      unless the distribution is Standalone. */
  lemma {:induction false} ReadyJustified(spec: Spec, events: seq<Event>) returns (i: int)
    requires AllAllowed(events)
    ensures var s := After(Created(spec), events).status;
      IsTrue(s.conditions, READY) ==>
        && LastWrite(events, i) && ReadAt(spec, events, i, s.distribution)
        && (s.distribution.name == "Standalone"
            || (ReadVersion(events[i].world.versionConfig) == Ok(Recorded(s.releases)) && Recorded(s.releases) != ""))
  {
    hide StatusAttempt, SawAllUp, DesiredDistribution, GoodStatus, ValidReleases, Fresh, ReadVersion, Recorded;
    i := 0;
    if events != [] {
      var n := |events| - 1;
      var cr, e := After(Created(spec), events[..n]), events[n];
      i := ReadyJustified(spec, events[..n]);
      assert forall j :: 0 <= j < n ==> events[..n][j] == events[j];
      if Writes(e) {
        i := n;
        StatusInvariant(spec, events[..n]);
        GoodReleases(cr.status, cr.generation);
        ReadyWritten(cr.status, cr.generation, cr.spec, e.world);
        if cr.spec.managed && Fresh(cr.status) {
          FreshHasNone(cr.status, cr.generation);
          FreshKeeps(cr.status, cr.generation, cr.spec, e.world);
        }
      } else if IsTrue(cr.status.conditions, READY) {
        ReadBefore(spec, events, i, cr.status.distribution);
      }
    }
  }

  lemma ReadBefore(spec: Spec, events: seq<Event>, i: int, distribution: Distribution)
    requires events != [] && ReadAt(spec, events[..|events| - 1], i, distribution)
    ensures ReadAt(spec, events, i, distribution)
  {
    hide After, SawAllUp, DesiredDistribution;
    assert events[..|events| - 1][..i] == events[..i];
  }
}
