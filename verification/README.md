# Workbenches operator: a verified model

A Dafny model of the workbenches operator, the Kubernetes operator that deploys the notebook
controllers and admits Notebook objects, with proofs about it. Each source file that decides
something has a module. A `function` says what a piece of code computes, a `method` or a class with
`modifies` clauses is the code that changes things step by step and is proved against that function,
and lemmas prove what the code is for. Kubernetes is a small environment: reads are current, each
call can fail and then changes nothing, server-side apply works on leaf fields with sets of owners,
and a merge patch removes a key as in section 2 of RFC 7396.

- **Status** (`Status`, `PlatformConfig`, `PlatformConfigLaws`, `IngressContract`, `Reconcile`,
  `ReconcileRuns`, `ReconcileMeaning`): one reconcile of the Workbenches CR as a class that edits the
  status in place, then laws over every interleaving of spec edits, foreign condition writes and
  reconciles. Ingress contract evidence is never stale, the platform version handshake is never
  skipped, Ready is reached within a bounded number of reconciles exactly when it can be, no pending
  state goes without a requeue, and a recorded distribution or a Ready status is justified by the
  reconcile that wrote it.
- **Watches** (`Watches`, `WatchMeaning`, `WatchRuns`): exactly which events wake the reconciler and
  which change what it reads, and, over whole runs and under a stated proviso on Deployments outside
  the CR's control, that no wakeup is lost.
- **Manifests** (`ServerSideApply`, `IngressConfig`, `Json`, `MergeDeployments`, `DeploymentLeaves`,
  `Manifests`, `ManifestLaws`, `ManifestMeaning`, `ManifestApply`, `ManifestRetries`): applying
  rendered objects with live Deployment customisations merged in, collecting what is no longer
  desired, what becomes of every field, what a second run does, and how retries after failures
  converge.
- **Finalizer** (`Finalizer`): the deletion protocol as a state machine over single API calls.
- **Env files** (`GoText`, `EnvParams`, `EnvMeaning`): the two editors of `params.env`, byte by byte.
- **Admission** (`Connections`, `ConnectionVerdicts`, `HardwareProfile`, `HardwareProfileLaws`,
  `HardwareProfileWebhook`, `HardwareProfileMeaning`): the mutating webhooks, which edit lists and maps
  that users own too.

The modules whose name ends in `Meaning`, `Laws` or `Verdicts` state results on inputs and fields
themselves (the text, the manifest, the live object, the reads) rather than through the functions that
compute them, so that they say independently what those functions must give.

`dafny verify dfyconfig.toml` checks everything.

Where the code does less than a first reading of its comments suggests, the model follows the code,
states when it does meet the promise and shows a failing input:

- A rendered object is collected by the very run that applied it if it was rendered at another API
  version than cleanup lists its kind at, as references hold the version (`RenderedSurvives`,
  `OtherVersionDeleted`).
- A second run of the same manifests is not a no-op when the first one changes the
  `opendatahub.io/managed` mark over live customisations (`StableExactly`, `SecondRunAdoptsReplicas`).
- Merging a merged Deployment onto the manifest again drops an explicit empty `resources` map of a
  container that is new to the cluster (`MergeAbsorbs`, `EmptyResourcesNotAbsorbed`).
- Dropping a connection removes the first entry naming the secret, which may be the user's
  (`InjectExactly`, `UserEntryOfSameName`).
- A reconcile reads every Deployment with the component label, but only those the CR controls are
  watched: somebody else's labelled Deployment can turn a verdict unnoticed (`HarmlessExactly`,
  `UnownedUnseen`). That no wakeup is lost is proved as long as such Deployments are no consumers and
  keep their availability, which holds when there are none (`OwnedIsHeard`).
- A dropped Deployment event can shut the rollout gate (`GateExactly`, `DroppedSpecEdit`), and the
  text the platform ConfigMap predicate compares is ambiguous when a value holds a NUL
  (`NulLosesChange`; the absence of NUL is a sufficient condition).
- Removing a hardware profile restores the user's settings only if they did not overlap it
  (`RemoveUndoesApply`, `SharedPairLost`).
- Parameters with keys or values an env file cannot hold do not survive and may be appended again
  (`WriteMeaning`, `WriteIdempotent`, `SpacedKeyRepeats`).
- From a status that was never written, two reconciles reach Ready when no release is recorded; three
  are needed only for a fresh status that already carries another platform version (`Distance` in
  `ReconcileRuns`).

## Model

| member | source | states |
|---|---|---|
| ReconcileRuns.EvidenceNeverStale | internal/controller/ingress_contract.go:97-266 | Over every run of spec edits, foreign condition writes and reconciles: while IngressContractReady is True for the current generation, the evidence names the current spec's contract, and the last status write saw both consumers present, every consumer deployment rolled out with exactly that contract's stamp, and recorded their highest generation. |
| ReconcileRuns.StatusInvariant | internal/controller/workbenches_controller.go:370-601 | In every reachable persisted status: phase is Ready exactly when Ready is True; Ready and Degraded are never both True; Pending and the empty phase go with observed generation 0 only; observed generation never passes the generation; DistributionNotAligned is never a reason of Ready; deploymentGeneration is 0 unless the evidence condition is True; at most one platform release, never blank. |
| ReconcileRuns.ObservedNeverDecreases | internal/controller/workbenches_controller.go:568-577 | Along every run the observed generation never goes back. |
| ReconcileRuns.WriteObserves | internal/controller/workbenches_controller.go:1004-1010 | Every write after the first records the generation it reconciled and leaves no condition, foreign ones included, without a reason. |
| ReconcileRuns.HandshakeNeverSkipped | internal/controller/workbenches_controller.go:534-568 | While the component stays managed under a handshaking distribution: between two statuses with different recorded platform versions lies a persisted status that is not Ready, waits for the platform version and still carries the old one. |
| ReconcileRuns.UpgradePassesNotReady | internal/controller/workbenches_controller.go:540-568 | Between a status Ready at one platform version and a later one Ready at another there is a persisted status that is not Ready. |
| ReconcileRuns.ReadyIsRecorded | internal/controller/workbenches_controller.go:729-761 | In a handshaking run a Ready status always has a recorded platform version. |
| ReconcileRuns.RecordedNeverLost | internal/controller/workbenches_controller.go:426-437 | No release refresh, failed metadata load or error status loses a recorded platform version while the component stays managed. |
| ReconcileRuns.ConvergesExactly | internal/controller/workbenches_controller.go:439-601 | With nothing in the way, two reconciles (three from a fresh status) reach Ready and keep it, if and only if there is a platform version or the distribution is Standalone. |
| ReconcileRuns.SteadyDecreases | internal/controller/workbenches_controller.go:534-566 | The explicit measure over freshness, recorded version and Ready reason: every unobstructed reconcile decreases it or keeps it at 0, which is Ready and settled. |
| ReconcileRuns.RequeueExactly | internal/controller/workbenches_controller.go:586-600 | A managed reconcile without error asks for no requeue exactly when it persists Ready=True and the contract is unset or IngressContractReady is True. |
| ReconcileRuns.OthersRetried | internal/controller/workbenches_controller.go:370-461 | Every other outcome of a reconcile, a failed status update among them, asks for a requeue or returns an error. |
| ReconcileRuns.CompletedReleases | internal/controller/workbenches_controller.go:492-555 | A completed reconcile keeps the recorded version or records exactly the version read, and keeps a single platform entry. |
| ReconcileMeaning.DistributionJustified | internal/controller/workbenches_controller.go:534-538 | Over every run: a recorded distribution was read by a persisted reconcile in which nothing failed and every listed deployment had its wanted pods ready, and since then no persisted reconcile replaced or cleared it. |
| ReconcileMeaning.ReadyJustified | internal/controller/workbenches_controller.go:534-568 | Over every run: a status that is Ready was written by the last persisted reconcile, which saw every deployment up, read the distribution it recorded, and had the version it read recorded unless the distribution is Standalone. |
| ReconcileMeaning.DistributionWritten | internal/controller/workbenches_controller.go:534-538 | Which distribution any one reconcile leaves: the one it read if nothing failed and every deployment was up, none after a successful removal, else the one before; so with one deployment not ready it is kept. |
| ReconcileMeaning.ReadyWritten | internal/controller/workbenches_controller.go:729-816 | One reconcile writes Ready only if it saw every deployment up, leaves recorded the distribution it read, and the version it read unless Standalone. |
| ReconcileMeaning.CompletedMeaning | internal/controller/workbenches_controller.go:465-577 | A completed reconcile, every condition and every field by itself, from the status before and the raw reads: metadata, provisioning, deployments, v2, ImageStreams, evidence, Degraded and Ready conditions with reasons, other conditions carried over, distribution, releases in order, and the phase. |
| ReconcileMeaning.ReleasesMeaning | internal/platformconfig/config.go:255-295 | The releases persisted: the component metadata without platform entries, in order, then the recorded platform version, which is the one read when every deployment is up and it is the first, waited for, or needs no handshake. |
| ReconcileMeaning.ObstacleMeaning | internal/controller/workbenches_controller.go:463-486 | What stops a reconcile before deployments are looked at, in order (spec, distribution, version, namespaces, manifests), is the reason it reports; evidence is withdrawn, everything else stays, and the error is returned. |
| ReconcileMeaning.ImageStreamsMeaning | internal/controller/workbenches_controller.go:526-532 | If ImageStreams cannot be read the reconcile keeps what it reported so far, withdraws the evidence, leaves the distribution alone and returns the error. |
| ReconcileMeaning.RemovedMeaning | internal/controller/workbenches_controller.go:370-424 | A removal says Removed in exactly four conditions, carries the others over, and clears releases, distribution and evidence. |
| ReconcileMeaning.CleanupFailedMeaning | internal/controller/workbenches_controller.go:377-379 | While cleanup fails releases and distribution stay recorded and the error is reported and returned. |
| ReconcileMeaning.PendingMeaning | internal/controller/workbenches_controller.go:448-461 | The first write sets the phase and missing reasons, nothing else, and asks for a requeue. |
| ReconcileMeaning.ReadyExactly | internal/controller/workbenches_controller.go:1014-1037 | Deployments count as ready exactly when some are listed and each wants at least one pod and has those it wants ready, an unset count being one; likewise those of one name. |
| Reconcile.Workbenches.ReconcileManaged | internal/controller/workbenches_controller.go:439-601 | The managed reconcile, editing the status in place call by call, persists the status the specification function gives, or nothing if its update fails; it returns a requeue or an error as specified, a failed update included. |
| Reconcile.Workbenches.ReconcileRemoved | internal/controller/workbenches_controller.go:370-424 | The Removed reconcile: conditions, phase, cleared releases, distribution and evidence, or the cleanup error status; a failed status update is returned as an error. |
| Reconcile.Workbenches.SetErrorStatus | internal/controller/workbenches_controller.go:963-999 | An error status withdraws the evidence and is written in full or not at all. |
| Reconcile.Workbenches.SetReadyCondition | internal/controller/workbenches_controller.go:729-816 | The Ready and Degraded conditions for every combination of availability, alignment and handshake. |
| Reconcile.Workbenches.Provision | internal/controller/workbenches_controller.go:492-528 | Release metadata and the informational conditions, evidence included. |
| Reconcile.Workbenches.RecordAlignmentAndHandshake | internal/controller/workbenches_controller.go:534-555 | Which distribution and platform version the status records before Ready is decided. |
| Reconcile.Workbenches.SanitizeConditions | internal/controller/workbenches_controller.go:1004-1010 | Fills missing reasons in place and changes nothing else. |
| Reconcile.DeploymentsAvailability | internal/controller/workbenches_controller.go:1014-1037 | True exactly when there is a deployment and each wants and has its ready replicas. |
| IngressContract.StampInjective | internal/controller/ingress_contract.go:32-34 | Two contracts have the same stamp exactly when they are the same contract, whatever the version text. |
| IngressContract.RolloutGeneration | internal/controller/ingress_contract.go:201-266 | The gate loop: complete exactly when both consumers are present and every consumer is rolled out with the stamp; then the generation is their highest, else 0. |
| IngressContract.GateIgnoresOrder | internal/controller/ingress_contract.go:214-265 | Verdict and generation do not depend on the order the API lists deployments in. |
| IngressContract.Sync | internal/controller/ingress_contract.go:97-158 | The condition is True exactly when projection and rollout are proven; only then is a deployment generation published. |
| IngressContract.SyncIngressContractStatus | internal/controller/ingress_contract.go:97-190 | The branches over what was read publish exactly that evidence and condition. |
| IngressContract.StampIngressContract | internal/controller/ingress_contract.go:49-81 | Stamps the pod templates of the consumer deployments in place and nothing else; no contract, no change. |
| IngressContract.StampReplaced | internal/controller/ingress_contract.go:43-81 | Stamping with the next contract replaces the stamp, and nothing but the stamp annotation ever changes. |
| IngressContract.StampMeaning | internal/controller/ingress_contract.go:32-81 | Exactly the Deployments named as one of the two notebook controllers carry version:sourceGeneration afterwards, and nothing else of them changes. |
| IngressContract.GateMeaning | internal/controller/ingress_contract.go:214-265 | The gate opens exactly when both notebook controllers are listed and every listed deployment of theirs has the contract's stamp, an observed generation, and exactly its wanted pods, all updated and ready. |
| IngressContract.OpenGateProves | internal/controller/ingress_contract.go:240-252 | For consistent counts an open gate leaves no pod of another template and no pod that is not ready, and no other contract is stamped. |
| IngressContract.HighestMeaning | internal/controller/ingress_contract.go:255-265 | The generation published bounds the notebook controllers' generations and is one of them, or zero. |
| IngressContract.EvidenceMeaning | internal/controller/ingress_contract.go:97-148 | Evidence and reason for every combination of contract, projection and rollout: nothing until the ConfigMap holds exactly the contract, then version and source generation, and the highest generation only once rolled out. |
| PlatformConfig.MergeKeepsRecorded | internal/platformconfig/config.go:276-295 | A release refresh keeps the recorded platform version and the single platform entry, whatever the component metadata lists. |
| PlatformConfig.SetCompletesHandshake | internal/platformconfig/config.go:255-305 | Recording a version completes the handshake for it and touches no other release. |
| PlatformConfig.ResolvedIsComplete | internal/platformconfig/config.go:159-186 | Whatever the configuration says, the resolved distribution is complete, so recording it aligns the status. |
| PlatformConfigLaws.ResolvedMeaning | internal/platformconfig/config.go:142-197 | The distribution a reconcile aligns with, from the ConfigMap's data: a configured name or version wins, nothing configured is Standalone 0.0.0 whatever the platform, otherwise a missing name follows the platform and a missing version is 0.0.0. |
| PlatformConfigLaws.ReadFails | internal/platformconfig/config.go:66-101 | Reading fails exactly when the API call does, or the name is unknown, or the version is longer than 64 characters or has a control character. |
| PlatformConfigLaws.RecordedMeaning | internal/platformconfig/config.go:244-252 | The recorded platform version is that of the first platform entry, and empty without one. |
| PlatformConfigLaws.RecordingMeaning | internal/platformconfig/config.go:255-273 | Recording changes the version of the first platform entry alone or appends an entry; a blank version changes nothing. |
| PlatformConfigLaws.WithoutPlatformMeaning | internal/platformconfig/config.go:276-295 | Component releases lose their platform entries one by one and keep their order. |
| PlatformConfig.FindPlatformRelease | internal/platformconfig/config.go:244-252 | The loop finds the first platform entry. |
| PlatformConfig.RecordPlatformRelease | internal/platformconfig/config.go:255-273 | The loop sets the version of the first platform entry in place or appends one. |
| PlatformConfig.MergeReleases | internal/platformconfig/config.go:276-295 | The loop drops platform entries of the component metadata and puts the recorded one last. |
| Watches.DroppedKeepsAvailability | internal/controller/workbenches_controller.go:295-337 | A Deployment event the predicate drops cannot change the verdict of deploymentsAvailability, for any listing around it. |
| Watches.AvailabilityExactly | internal/controller/workbenches_controller.go:1012-1037 | A Deployment event, whoever owns the Deployment, leaves the verdict of deploymentsAvailability alone in every listing exactly when the deployment is unlisted, available or unavailable both before and after. |
| Watches.GateExactly | internal/controller/ingress_contract.go:201-266 | It leaves the rollout gate and the generation it reports alone, for every listing and stamp, exactly when the deployment contributes the same before and after: nothing, a veto, or one consumer with a stamp and a generation it is rolled out at. |
| Watches.HarmlessExactly | internal/controller/workbenches_controller.go:941-960 | Both verdicts stay exactly when both of these hold: what an event that never arrives may do unnoticed. |
| Watches.UnownedUnseen | internal/controller/workbenches_controller.go:172-173 | The verdicts list by label, the watch only delivers Deployments the CR controls: a concrete foreign Deployment turns the verdict and wakes nobody. |
| Watches.DroppedKeepsGate | internal/controller/workbenches_controller.go:295-333 | In particular no dropped status-only event changes gate or generation. |
| Watches.DroppedSpecEdit | internal/controller/workbenches_controller.go:315-324 | A concrete spec edit that is dropped and closes the gate. |
| Watches.ConfigChangeWakes | internal/controller/platform_config_predicate.go:42-87 | Every event of the platform ConfigMap that changes the distribution or version a reconcile reads passes the predicate and is mapped to the CR, if the fields hold no NUL (sufficient; see Left out). |
| Watches.AcceptedChangeWakes | internal/controller/platform_config_predicate.go:77-87 | Between configurations the reconciler accepts no change is lost at all. |
| Watches.NulLosesChange | internal/controller/platform_config_predicate.go:77-87 | With a NUL in the data a change of the platform version can be lost: a concrete update. |
| Watches.OperandNamespaceWatched | internal/controller/workbenches_controller.go:213-229 | The namespace a reconcile resolves is always among the watched ones. |
| WatchMeaning.WakesExactly | internal/controller/workbenches_controller.go:289-337 | A Deployment event passes exactly when the label, a count or the observed generation it shows changes; no fewer and no more events wake. |
| WatchMeaning.DeliveredExactly | internal/controller/workbenches_controller.go:173 | An event is delivered exactly when moreover the CR controls the Deployment before or after it. |
| WatchMeaning.EnqueuesExactly | internal/controller/platform_config_predicate.go:34-87 | For settings without NUL a reconcile is enqueued exactly by creating or deleting the platform ConfigMap of the operand namespace, or by an update that changes one of the three trimmed settings. |
| WatchMeaning.PassesExactly | internal/controller/platform_config_predicate.go:34-75 | The predicate on its own, likewise exactly. |
| WatchMeaning.MapsExactly | internal/controller/workbenches_controller.go:245-279 | The mapper on its own: the ConfigMap belongs to the CR exactly when a reconcile of it would read it. |
| WatchMeaning.ListedMeaning | internal/controller/workbenches_controller.go:335-337 | A List by the component label returns the labelled Deployments one by one in order. |
| WatchMeaning.WithoutCrExactly | internal/controller/workbenches_controller.go:245-279 | Without a CR an event counts exactly if it would under some platform. |
| WatchMeaning.WatchedExactly | internal/controller/workbenches_controller.go:213-229 | The watched namespaces are exactly those some platform's reconcile would use. |
| WatchMeaning.NamespaceMeaning | internal/controller/workbenches_controller.go:902-918 | A setting that is a DNS label decides the operand namespace; otherwise the platform does. |
| WatchRuns.NoWakeupLost | internal/controller/workbenches_controller.go:157-337 | Over every run of spec edits, Deployment, ConfigMap and configuration changes and reconciles, which may also come unwoken, as long as no labelled Deployment outside the CR's control is a consumer or changes its availability: whenever no watch event, requeue or retry is due, a managed CR is Ready, and a reconcile of the present cluster would publish the persisted Ready and, once the consumers' generations are observed, the persisted IngressContractReady. |
| WatchRuns.OwnedIsHeard | internal/controller/workbenches_controller.go:172-173 | The proviso holds when the CR controls every labelled Deployment. |
| WatchRuns.StepKeepsQuiet | internal/controller/workbenches_controller.go:586-600 | Each single step, under the same proviso, keeps the invariant that without a due wakeup the persisted status is confirmed or withdrawn. |
| ManifestLaws.NoOrphansLeft | internal/controller/manifests.go:822-912 | After a run that returns nil every labelled cleanup-eligible object is in the desired set, at every version cleanup lists it at. |
| ManifestLaws.RenderedSurvives | internal/controller/manifests.go:796-809 | A rendered object still exists after its run exactly when it is rendered at every version cleanup lists its kind at, and is then what its applies, in order, made of it. |
| ManifestLaws.OtherVersionDeleted | internal/controller/manifests.go:877-908 | A WorkspaceKind rendered at another version than v1beta1 is deleted by the run that applies it: a family of concrete runs. |
| ManifestLaws.OnlyOrphansDeleted | internal/controller/manifests.go:842-911 | An object that is not rendered is deleted exactly when it carries the labels and cleanup lists it; otherwise it is left as it is. |
| ManifestMeaning.RunReaches | internal/controller/manifests.go:498-554 | After a run that returns nil, for every object rendered once at the version cleanup lists it at, and for every field, read off the manifest and the live object: manifest fields have the manifest's value with the operator as manager; labels and, outside the unowned kinds, the controller reference are imposed; customisations stay live; rules of aggregated ClusterRoles and other fields go only if the operator alone held them. |
| ManifestMeaning.ManifestReaches | internal/controller/manifests.go:505-536 | Applying one object: every field of the manifest arrives with its value, except imposed fields, customisations of a live unmanaged Deployment, and rules of an aggregated ClusterRole. |
| ManifestMeaning.ImposedReaches | internal/controller/manifests.go:506-517 | Both labels always, and the controller reference exactly outside Namespace, CustomResourceDefinition and ImageStream, whatever the manifest or the live object says. |
| ManifestMeaning.CustomisationStays | internal/controller/manifests.go:585-631 | Replicas, and resources of containers both have, stay as they are live, present or absent, unless the live Deployment is marked managed. |
| ManifestMeaning.OtherFieldsStay | internal/controller/manifests.go:556-583 | A field the manifest leaves out goes exactly when the operator alone held it; else it keeps its value and its other managers. |
| ManifestMeaning.GroupsRendered | internal/controller/manifests.go:145-191 | What is applied is every item of every group that could be read, but for the build artefact and namespaces of cluster-scoped kinds, and nothing else. |
| ManifestMeaning.UnrenderedUntouched | internal/controller/manifests.go:842-911 | Any other object is untouched unless it has both labels and cleanup lists it, kind by kind; then it goes. |
| ManifestMeaning.KeptMeaning | internal/controller/manifests.go:773-800 | The kinds and versions cleanup lists, without the tables: an object is kept exactly when it is desired at each version it is listed at. |
| ManifestMeaning.UnownedNeverListed | internal/controller/manifests.go:693-711 | The kinds that never get a controller reference are never collected either. |
| ManifestMeaning.ConfigReaches | internal/controller/manifests.go:209-276 | After a run the projected ConfigMap says what the spec says, the absence of a contract included. |
| ManifestLaws.SecondRunChangesNothing | internal/controller/manifests.go:109-198 | For every cluster and every rendering, a second run with the same inputs changes neither values nor ownership exactly when every Deployment that outlives the first run is settled: for a Deployment rendered once, read off the live object and the manifest before the run; for one rendered at several versions, when its applies, repeated, come to the same. |
| ManifestLaws.SecondRunAdoptsReplicas | internal/controller/manifests.go:594-631 | The exception is real: a concrete cluster in which the first run removes the managed mark and the second one adopts a user's replicas. |
| ManifestLaws.OthersSettle | internal/controller/manifests.go:498-554 | Objects other than Deployments are settled by one run, however often they are rendered. |
| ManifestRetries.RetriesConverge | internal/controller/manifests.go:109-198 | After any number of runs with the same inputs that failed at any call, one that returns nil leaves the whole cluster, values and ownership, as a single successful run would have, as long as every Deployment that outlives it is rendered once and settled. |
| ManifestRetries.OthersConverge | internal/controller/manifests.go:109-198 | For every object but Deployments the same holds without condition. |
| ManifestRetries.BrokenOffScript | internal/controller/manifests.go:505-551 | Breaking a fixed list of writes off anywhere and then making all of them is making all of them. |
| ManifestLaws.StableExactly | internal/controller/manifests.go:594-631 | A second apply of one object changes nothing, exactly unless the manifest takes the live managed mark away while somebody else's customisation stays behind, or brings the mark while live customisations differ. |
| ManifestLaws.SecondRunUsually | internal/controller/manifests.go:498-631 | As long as no manifest carries the managed annotation and the operator does not own it, a second run changes nothing, merged Deployments included. |
| ManifestLaws.MergeSettles | internal/controller/manifests.go:585-631 | Customisations merged in once are found live and merged in again, whoever owns which field. |
| ManifestLaws.AggregatedRulesUntouched | internal/controller/manifests.go:556-583 | The rules of an aggregated ClusterRole that others own stay, and whatever the aggregation controller writes later the next apply changes nothing. |
| ManifestLaws.ConfigSurvives | internal/controller/manifests.go:143 | The projected ConfigMap is never collected, and nothing else touches it unless a manifest renders it too. |
| ManifestLaws.FinalAt | internal/controller/manifests.go:109-198 | What a run leaves of any object: its applies in order, unless labelled and not kept by cleanup. |
| ManifestLaws.AppliedIsLabelled | internal/controller/manifests.go:633-642 | Every applied object carries the operator's labels, so cleanup finds it again. |
| ManifestLaws.PreparedMeaning | internal/controller/manifests.go:369-385 | Exactly the build artefact is dropped, and exactly cluster-scoped objects lose their namespace. |
| ManifestApply.Cluster.RenderAndApply | internal/controller/manifests.go:109-198 | One run with calls that may fail: on success the cluster is exactly the specified final state and no reference was rendered twice; on an error it is one of the states of a broken off run; a run that ends before garbage collection deletes nothing and touches only what it renders; a failed ConfigMap apply leaves everything as it was. |
| ManifestApply.Cluster.ApplyGroups | internal/controller/manifests.go:145-191 | The group loop applies a prefix of what is rendered, all of it only without duplicates and render failures. |
| ManifestApply.AddRefs | internal/controller/manifests.go:180-186 | The duplicate check succeeds exactly when no reference repeats, and collects the desired set. |
| ManifestApply.Cluster.ApplyObjects | internal/controller/manifests.go:498-554 | Applies the objects in order, live Deployments merged in, stopping at the first failure. |
| ManifestApply.Cluster.ApplyIngressConfig | internal/controller/manifests.go:209-276 | Apply first, then clear a contract key the spec no longer has; what is left after each kind of failure. |
| ManifestApply.Cluster.GcOrphanedResources | internal/controller/manifests.go:822-912 | Deletes only orphans, and all of them when it reports no error; an empty desired set deletes nothing. |
| ManifestApply.Cluster.CleanupManagedResources | internal/controller/manifests.go:918-981 | Best effort: deletes only operator-labelled objects of the cleanup kinds, and all of them when it reports no error. |
| ManifestApply.Cluster.DeleteUndesired | internal/controller/manifests.go:842-875 | The loop over kinds goes on after errors and removes nothing that is desired. |
| ManifestApply.Cluster.DeleteEach | internal/controller/manifests.go:858-874 | The loop over one listing deletes exactly its undesired objects, save those whose delete failed. |
| ManifestApply.PrepareRenderedObjects | internal/controller/manifests.go:369-385 | The loop computes the prepared objects. |
| ServerSideApply.ApplyOwns | internal/controller/manifests.go:531-536 | After a forced apply the operator owns exactly what it applied, with those values. |
| ServerSideApply.ApplyChangesNothing | internal/controller/manifests.go:531-536 | A further apply leaves the object alone exactly when its payload is what the operator already owns. |
| ServerSideApply.ApplyTwice | internal/controller/manifests.go:531-536 | The same payload applied twice changes nothing the second time. |
| ServerSideApply.ScriptSettles | internal/controller/manifests.go:498-554 | A manager that repeats the same applies and key removals in the same order changes nothing the second time, even if they contradict each other on the way. |
| IngressConfig.ProjectionMeaning | internal/controller/manifests.go:209-276 | For any history of owners and values: ingresses equal the spec, the contract key is present with the spec's value or absent with it, and data keys only others own are untouched. |
| IngressConfig.ApplyAloneKeepsContract | internal/controller/manifests.go:238-253 | Why the clear is needed: an apply without the key leaves it exactly when the operator was not its only owner. |
| IngressConfig.ProjectionStable | internal/controller/manifests.go:209-247 | Projecting again changes nothing. |
| MergeDeployments.MergeFrame | internal/controller/merge_deployments.go:40-150 | A merge keeps number and order of containers, everything in them but resources, and every field apart from the container list and the replicas. |
| MergeDeployments.MergeTakesLive | internal/controller/merge_deployments.go:85-169 | A container whose name is live takes the live resources (of the last container so named), others keep their own, and the replicas are the live ones, absent if absent. |
| MergeDeployments.MergeVerdict | internal/controller/merge_deployments.go:40-169 | The merge fails exactly when a container list cannot be read, an entry of either list is no map, the live resources of a container both have are no map, or live replicas have no spec to go into. |
| MergeDeployments.ContainersMeaning | internal/controller/merge_deployments.go:67-83 | An object's container list is the list at that path, none where the path ends early or in null, and unreadable otherwise. |
| MergeDeployments.MergeRenders | internal/controller/merge_deployments.go:142-146 | A container both have gets the live resources, and no resources key when those are empty. |
| MergeDeployments.MergeIdempotent | internal/controller/merge_deployments.go:40-46 | Merging the live Deployment in again changes nothing. |
| MergeDeployments.MergeAbsorbs | internal/controller/merge_deployments.go:104-146 | Merging the result onto the manifest again gives the result, for unique names, exactly when no container new to the live Deployment renders its resources as an explicit empty map or as no map. |
| MergeDeployments.EmptyResourcesNotAbsorbed | internal/controller/merge_deployments.go:142-146 | The exception is real: a new container with resources: {} loses that field. |
| MergeDeployments.MergeInPlace | internal/controller/merge_deployments.go:40-46 | The in-place merge succeeds exactly when both Deployments are well formed and then leaves the merge in the target. |
| MergeDeployments.ApplyContainerResources | internal/controller/merge_deployments.go:115-150 | The in-place loop over the target's containers. |
| MergeDeployments.ContainerResourcesByName | internal/controller/merge_deployments.go:85-113 | The loop collecting live resources by name. |
| MergeDeployments.ResourcesByNameMeaning | internal/controller/merge_deployments.go:85-113 | A name has resources exactly when some container carries it, and then those of the last one. |
| MergeDeployments.MergeDeploymentReplicas | internal/controller/merge_deployments.go:152-169 | Replicas are copied, or removed when the live Deployment has none. |
| DeploymentLeaves.LeafMergeIsTreeMerge | internal/controller/merge_deployments.go:31-46 | The merge on leaf fields that the apply model uses, down to the single resource quantity, represents the merge on whole objects. |
| Finalizer.OperandsAreGuarded | internal/controller/workbenches_controller.go:123-152 | Over every run, with users editing and deleting between any two calls, failing calls and crashes: whenever an operator-labelled eligible object exists, the CR exists and holds the finalizer. |
| Finalizer.FinalizerDroppedWhenClean | internal/controller/workbenches_controller.go:347-368 | The finalizer only ever goes with the last call of a deletion whose cleanup had no error, and then no operand is left. |
| Finalizer.DeletionCanComplete | internal/controller/workbenches_controller.go:347-368 | A deletion never gets stuck: from every reachable state in which the CR is being deleted, whatever failed before, there is a continuation after which CR and operands are gone. |
| Finalizer.RemovalCanComplete | internal/controller/workbenches_controller.go:370-379 | Nor does a removal: from every reachable state with a Removed CR one without operands can still be reached, the CR kept. |
| Finalizer.WorkCanBegin | internal/controller/workbenches_controller.go:123-152 | Nor does the work: from every reachable state with a managed CR the operator can still get to apply manifests, and then the CR holds the finalizer. |
| Finalizer.OperatorEditsFinalizer | internal/controller/workbenches_controller.go:123-152 | The operator changes the CR in two calls only, both bound to the CR as read: adding the finalizer to one that is not being deleted, dropping it after a clean cleanup; a CR changed since is left alone. |
| Finalizer.OperatorEditsObjects | internal/controller/manifests.go:918-981 | Objects change only while the operator works, or by deleting the listed object at hand. |
| Finalizer.OperandMeaning | internal/controller/manifests.go:773-801 | An operand, without the tables of kinds: both labels, and a kind cleanup looks for. |
| Finalizer.CleanupRemovesOperands | internal/controller/manifests.go:918-981 | A cleanup without error removes every operand and nothing else. |
| Finalizer.StepKeepsSafe | internal/controller/workbenches_controller.go:123-152 | Each single step keeps the protocol's invariant. |
| EnvParams.PipelineMeaning | internal/controller/manifests.go:325-334 | Image overlay then parameters: parsing the result gives the file, overridden by the images of keys it has, overridden by the parameters, exactly when the parameters are ones an env file can hold. |
| EnvMeaning.PipelineValues | internal/controller/manifests.go:325-334 | What params.env says after both steps, key by key: the parameter; else, for a key the file has, the trimmed value of the mapped image variable unless it is blank; else the file's own value. |
| EnvMeaning.ImageMeaning | internal/controller/imageparams.go:95-105 | The image of a key is the trimmed value of its mapped variable, exactly when that is set and not blank. |
| EnvMeaning.ParseMeaning | internal/controller/manifests.go:436-450 | A file says of a key what the last line assigning it says; a line assigns when it is no comment and has '=', trimmed around and split at the first '='. |
| EnvMeaning.OverlayRefuses | internal/controller/imageparams.go:130-205 | The overlay fails exactly on an override with a line break whose key the file has with another value. |
| EnvMeaning.OverlayValues | internal/controller/imageparams.go:130-205 | After the overlay the same keys are there; those whose override differs have it, as far as a line holds it, all others their own value. |
| EnvMeaning.OverlayLeaves | internal/controller/imageparams.go:156-176 | No byte changes when the file already has the overrides of its keys. |
| EnvMeaning.OverlayEnds | internal/controller/imageparams.go:198-207 | A file the overlay changes ends with a newline. |
| EnvMeaning.WriteRefuses | internal/controller/manifests.go:457-463 | The writer fails exactly on a parameter with a line break, or with '=' in its key. |
| EnvMeaning.WrittenLayout | internal/controller/manifests.go:454-485 | The written text line by line: the file's assignments in their order, then the new keys in increasing order, each with its parameter or else the file's value. |
| EnvMeaning.LineKeysMeaning | internal/controller/manifests.go:436-450 | The keys are collected line by line in order, repetitions included. |
| GoText.TrimSpaceCuts | internal/controller/imageparams.go:139-142 | Trimming cuts white space at both ends, all of it, and nothing else. |
| EnvParams.WriteMeaning | internal/controller/manifests.go:431-483 | The written file says the old file overridden by the parameters, exactly when no key starts with white space or # and no value ends in white space. |
| EnvParams.WriteIdempotent | internal/controller/manifests.go:431-483 | Writing the same parameters again changes no byte, exactly when every key an env file cannot hold reads as a comment and sorts after the new keys it can hold; clean keys always qualify. |
| EnvParams.SpacedKeyRepeats | internal/controller/manifests.go:454-480 | A key that starts with a space is not read back and is appended again by the next write. |
| EnvParams.OverlayMeaning | internal/controller/imageparams.go:130-210 | What the overlaid file says: overridden keys have the new value as far as a file can hold it, others keep theirs. |
| EnvParams.OverlayIdempotent | internal/controller/imageparams.go:130-210 | Overlaying again changes no byte, whatever the values. |
| EnvParams.OverlayKeepsOtherLines | internal/controller/imageparams.go:177-207 | Comments, blank lines and lines without an assignment stay verbatim at their index, assignments keep their key, and at most one trailing newline is added. |
| EnvParams.OverlayExistingParams | internal/controller/imageparams.go:130-210 | The editor over its three loops gives the specified text, errors included. |
| EnvParams.ApplyOverrides | internal/controller/imageparams.go:157-171 | The loop over the overrides gives the same result in whatever order the map yields them, errors included. |
| EnvParams.WriteParamsEnv | internal/controller/manifests.go:431-483 | The editor over its loops gives the specified text, errors included. |
| EnvParams.MergeParams | internal/controller/manifests.go:454-473 | The loop over the parameters gives the same values and, once sorted, the same keys in whatever order the map yields them. |
| EnvParams.IncreasingUnique | internal/controller/manifests.go:472-473 | Sorting forgets the order in which the keys came. |
| GoText.JoinSplit | internal/controller/imageparams.go:179-204 | Joining what a split gives restores the text. |
| GoText.SplitJoin | internal/controller/manifests.go:438-480 | Splitting what a join gives restores the parts when none holds the separator. |
| Connections.AnnotationRoundTrip | internal/webhook/notebook/mutating.go:233-282 | Parse, print and parse again give the same references for every accepted annotation. |
| Connections.ParseAccepts | internal/webhook/notebook/mutating.go:233-282 | An accepted annotation yields at most 32 distinct references with non-empty trimmed parts free of slash and comma, and prints no longer than it was. |
| Connections.PrintParses | internal/webhook/notebook/mutating.go:233-282 | Any such list whose printed form fits parses back to itself. |
| Connections.ParseConnectionsAnnotation | internal/webhook/notebook/mutating.go:233-282 | The parsing loop gives the specified list or error. |
| Connections.KeyInjective | internal/webhook/notebook/mutating.go:454-456 | On slash-free parts the key tells references apart. |
| Connections.DetermineSecretActions | internal/webhook/notebook/mutating.go:424-452 | A key is created exactly when only the current list has it and deleted exactly when only the old one has. |
| Connections.GetNotebookSecretRefs | internal/webhook/notebook/mutating.go:197-229 | The current references then the old ones, each with its action. |
| Connections.HandleConnectionSecret | internal/webhook/notebook/mutating.go:459-495 | Appends one entry, removes the first entry of that name, or leaves the list alone. |
| Connections.PerformConnectionInjection | internal/webhook/notebook/mutating.go:388-420 | Only the first container's envFrom changes; no container is an error. |
| Connections.HandleRequest | internal/webhook/notebook/mutating.go:85-195 | The whole request: validation, namespace and secret checks, actions and injection. |
| ConnectionVerdicts.AdmitVerdict | internal/webhook/notebook/mutating.go:142-195 | A request that asks for something is refused exactly when its annotation does not parse, names a secret of another namespace, a missing one or one the user may not read, the old annotation does not parse, or there is something to do and no container. |
| ConnectionVerdicts.AdmittedIsReadable | internal/webhook/notebook/mutating.go:173-185 | No admitted request names a secret that is foreign, missing or unreadable for the user. |
| ConnectionVerdicts.AdmittedUnchanged | internal/webhook/notebook/mutating.go:113-122 | A request that names no secret now and named none before is admitted unchanged. |
| ConnectionVerdicts.InjectedIsReadable | internal/webhook/notebook/mutating.go:388-495 | Whatever the webhook adds to a container is the entry of a secret the annotation names, of the notebook's namespace, existing and readable. |
| ConnectionVerdicts.ParseVerdict | internal/webhook/notebook/mutating.go:233-282 | An annotation is accepted exactly when it is blank, or at most 4096 bytes with every part blank or spelling namespace/name and at most 32 different references. |
| ConnectionVerdicts.ParseOrder | internal/webhook/notebook/mutating.go:233-282 | An accepted annotation yields every reference it spells, once, in the order of first mention. |
| ConnectionVerdicts.PartMeaning | internal/webhook/notebook/mutating.go:249-263 | A part is blank, spells exactly one reference, or is malformed. |
| Connections.InjectStep | internal/webhook/notebook/mutating.go:388-495 | One injection turns the entries of the old references into those of the current ones and leaves the user's in place, as long as no user entry names a dropped secret. |
| Connections.InjectExactly | internal/webhook/notebook/mutating.go:472-492 | That condition is exact when the user's entries can be told from the webhook's; otherwise a user entry is lost. |
| Connections.InjectionOverRuns | internal/webhook/notebook/mutating.go:197-229 | Over any sequence of requests that carry the stored envFrom: the user's entries unchanged and in order, then exactly one secretRef per annotated secret, as long as, and for distinguishable user entries exactly when, no admitted update drops a secret a user entry names; other containers untouched. |
| Connections.CreateConsistent | internal/webhook/notebook/mutating.go:219-226 | An admitted creation starts with that list. |
| Connections.UpdateConsistent | internal/webhook/notebook/mutating.go:204-218 | An admitted update keeps it as long as, and for distinguishable user entries exactly when, no user entry names a dropped secret. |
| Connections.AdmitKeepsRest | internal/webhook/notebook/mutating.go:388-420 | An admitted request changes neither the annotation nor any container but the first. |
| Connections.UserEntryOfSameName | internal/webhook/notebook/mutating.go:472-492 | An admitted creation and an admitted update after which the user's own entry is gone and the webhook's is left. |
| HardwareProfileLaws.RemoveUndoesApply | internal/webhook/hardwareprofile/mutating.go:524-617 | Applying a profile for the first time and removing it gives back node selector, tolerations, queue label and claims, exactly when the user's settings do not overlap the profile's. |
| HardwareProfileLaws.SharedPairLost | internal/webhook/hardwareprofile/mutating.go:555-580 | The exception is real: a node selector pair the user already had goes with the profile. |
| HardwareProfileLaws.RemoveSettingsTwice | internal/webhook/hardwareprofile/mutating.go:524-553 | Removing a profile again changes nothing. |
| HardwareProfileWebhook.CreateThenDrop | internal/webhook/hardwareprofile/mutating.go:451-522 | Through admission: create with a profile, then drop the annotation; the settings come back exactly when there is no overlap. |
| HardwareProfileLaws.SwitchForgetsHistory | internal/webhook/hardwareprofile/mutating.go:919-1007 | After a switch scheduling and the managed claim depend only on the new profile, and so do the sizes when it has identifiers, each the first defaultCount of its name; the user's claims survive in order, and the sizes when it has none. |
| HardwareProfileLaws.SwitchesAgree | internal/webhook/hardwareprofile/mutating.go:939-1007 | Two notebooks with different histories end up with the same managed settings. |
| HardwareProfileWebhook.AdmittedSwitch | internal/webhook/hardwareprofile/mutating.go:287-312 | Every admitted update from one profile to another is such a switch. |
| HardwareProfileLaws.ReinvocationStable | internal/webhook/hardwareprofile/mutating.go:919-1007 | Running the application on its own output with the same flags changes nothing: on create, same-profile update and switch. |
| HardwareProfileWebhook.AdmitStable | internal/webhook/hardwareprofile/mutating.go:125-228 | Handing the webhook its own output in the same request changes nothing, for every admitted request, the removal of the annotation included. |
| HardwareProfileMeaning.AdmitVerdict | internal/webhook/hardwareprofile/mutating.go:125-272 | Which requests are refused, exactly: no namespace to look in, a profile that is gone and was not the notebook's already, or one unfit for the notebook. |
| HardwareProfileMeaning.AdmitMeaning | internal/webhook/hardwareprofile/mutating.go:125-228 | What an admitted request comes to: dropping the profile removes it, a reference to a profile that is gone changes nothing, a notebook without a main container gets the namespace annotation alone, otherwise the profile is applied, as a switch exactly when it replaces another and with its claim exactly when it is new. |
| HardwareProfileMeaning.ApplyRefuses | internal/webhook/hardwareprofile/mutating.go:919-1007 | A profile is refused exactly on an unreadable count of a named identifier, a claim template with an invalid name or that is missing (on the first profile and on a switch only), or an invalid queue name. |
| HardwareProfileMeaning.AppliedMeaning | internal/webhook/hardwareprofile/mutating.go:961-1007 | Outside a switch, setting by setting: the profile's pairs win, its tolerations come first, a queue takes the place of both, and the claim is added for a new profile only. |
| HardwareProfileMeaning.RemovedMeaning | internal/webhook/hardwareprofile/mutating.go:524-617 | A removal takes the queue label if the profile has a queue, the equal pairs, the equal tolerations and the managed claim; sizes and all other settings stay. |
| HardwareProfileMeaning.ClaimRemovedMeaning | internal/webhook/hardwareprofile/mutating.go:732-898 | When the profile is gone only the managed claim is removed. |
| HardwareProfileMeaning.EditsFrame | internal/webhook/hardwareprofile/mutating.go:524-1170 | Annotations, names, other containers and everything in the main container but its resources stay. |
| HardwareProfileMeaning.MainMeaning | internal/webhook/hardwareprofile/mutating.go:1097-1115 | The main container is the only one, or the first of several with the notebook's name; none is found exactly when there is none. |
| HardwareProfileMeaning.TolerationsKept | internal/webhook/hardwareprofile/mutating.go:582-617 | The toleration filter works one by one in order and, on colon-free fields, drops exactly those equal to one of the profile's. |
| HardwareProfileMeaning.ClaimsKept | internal/webhook/hardwareprofile/mutating.go:778-792 | The claim filter works one by one in order and drops the claims of the one name alone. |
| HardwareProfileLaws.ApplyNeverOverwrites | internal/webhook/hardwareprofile/mutating.go:1051-1170 | Outside a switch existing requests and limits stay; a missing request of a usable identifier's name becomes the defaultCount of the first such identifier, a missing limit the request, and nothing else is added. |
| HardwareProfileLaws.IdentifiersFill | internal/webhook/hardwareprofile/mutating.go:1117-1170 | The same of the identifier loop on any requests and limits; it fails exactly when a named identifier's count is no quantity. |
| HardwareProfileLaws.SameProfileKeepsClaims | internal/webhook/hardwareprofile/mutating.go:945-959 | A same-profile update touches no resource claim. |
| HardwareProfile.DroppedOnlyIfEqual | internal/webhook/hardwareprofile/mutating.go:582-617 | On colon-free fields a toleration is dropped exactly when a profile toleration agrees in all five fields. |
| HardwareProfile.TolerationKeyInjective | internal/webhook/hardwareprofile/mutating.go:1233-1245 | On colon-free fields the key tells tolerations apart. |
| HardwareProfileWebhook.ApplyFrame | internal/webhook/hardwareprofile/mutating.go:919-1007 | The edits never touch annotations, names or the number of containers. |
| HardwareProfileWebhook.NotebookObject.ApplyHardwareProfile | internal/webhook/hardwareprofile/mutating.go:919-1007 | The in-place application leaves exactly the specified notebook, or refuses. |
| HardwareProfileWebhook.NotebookObject.RemoveHWPSettings | internal/webhook/hardwareprofile/mutating.go:524-553 | The in-place removal leaves exactly the specified notebook. |
| HardwareProfileWebhook.NotebookObject.RemoveDRAFromNotebook | internal/webhook/hardwareprofile/mutating.go:732-898 | The managed claim goes from pod and main container; emptied lists are dropped. |
| HardwareProfileWebhook.NotebookObject.ApplyResourcesToContainer | internal/webhook/hardwareprofile/mutating.go:1051-1095 | Sizes the main container in place; on a switch from a clean slate but for user claims. |
| HardwareProfileWebhook.NotebookObject.ApplyDRAIfConfigured | internal/webhook/hardwareprofile/mutating.go:639-728 | Puts the managed claim last in pod and main container, once. |
| HardwareProfileWebhook.Handle | internal/webhook/hardwareprofile/mutating.go:125-228 | The request handler admits exactly the specified notebook. |
| HardwareProfileWebhook.FillSizes | internal/webhook/hardwareprofile/mutating.go:1117-1170 | The identifier loop. |
| HardwareProfileWebhook.FindMain | internal/webhook/hardwareprofile/mutating.go:1097-1115 | The main container: the only one, else the first with the notebook's name. |
| HardwareProfileWebhook.FilterOutClaim | internal/webhook/hardwareprofile/mutating.go:778-792 | The loop keeps every other claim in order. |
| HardwareProfileWebhook.KeepOthers | internal/webhook/hardwareprofile/mutating.go:599-611 | The toleration loop keeps, in order, what has no profile key. |
| HardwareProfileWebhook.DeletePairs | internal/webhook/hardwareprofile/mutating.go:565-571 | The node selector loop removes equal pairs in whatever order the map yields them. |
| HardwareProfileWebhook.MergePairs | internal/webhook/hardwareprofile/mutating.go:1172-1199 | The profile's pairs win. |

## Left out

- Kustomize rendering, YAML and JSON codecs, temporary directories and file-system calls: each group's rendered objects, each file's text and each decoded value is an arbitrary input.
- The probe ConfigMap patch (`internal/controller/probes.go`) and the contract stamp are part of a rendered object's values in `Manifests`; the stamp itself is modelled in `IngressContract`.
- API-server defaulting and validation, informer cache staleness, rate limiting, leader election and logging: reads are current and one reconcile runs at a time.
- A Deployment whose fields the API server fills in by default would add owned fields on the second apply; the second-run lemmas are about the fields that were applied.
- Texts of condition messages, warnings and Events, and transition times: a condition is status, reason and generation, and the condition list is a map by type, so its order is not modelled.
- The applications and workbench namespaces echoed in the status.
- Resource quantity parsing and label syntax: verdicts that arrive with the input.
- Secret existence and access reviews: a set of references that are readable.
- TLS bootstrap, webhook certificates, `cmd/main.go`, release metadata files and ImageStream messages: foreign calls and lookups; the reconciler's reads of them may succeed or fail.
- Namespace creation (`configureDependencies`) beyond its success or failure.
- Labels nested in selectors and pod templates (`patchNestedLabels`), which follow the top-level labels.
- Tolerations, claims and nested fields of the wrong JSON shape in Notebook objects: these have the shape the API schema demands. Deployments do include malformed ones (`MergeDeployments`).
- Notebooks that are being deleted pass both webhooks unchanged; other operations are admitted as they are.
- The Python tools under `opt/manifests`: fetched upstream material.
- Wakeups by owned operands other than Deployments and by ImageStreams, whose events are not filtered by content.
- MergeDeployments.ApplyContainerResources: after an error the target is partly merged; the caller gives it up, so its content is not stated.
- Finalizer.OperandsAreGuarded: for a fixed operand namespace and no outside edits of the finalizer or of the operator's labels.
- ReconcileRuns.HandshakeNeverSkipped: for runs that stay managed under a distribution that needs the handshake; Removed clears the releases and Standalone records versions without it.
- ManifestLaws.SecondRunChangesNothing: for a Deployment rendered at several API versions in one run, which no upstream manifest does, the condition is that its applies, repeated, come to the same; for one rendered once it is read off its input.
- ManifestLaws.SecondRunUsually: a special case, for Deployments rendered once and without the managed mark.
- Watches.ConfigChangeWakes: the absence of NUL is sufficient, not necessary; whether a given NUL loses a change depends on how the text splits into trimmed fields.
- Connections.InjectExactly: for user entries that cannot be mistaken for the webhook's own; of two identical entries it cannot be said whose was removed.
- WatchRuns.NoWakeupLost: for changes the operator hears of or that cannot matter (no labelled Deployment outside the CR's control that is a consumer or changes its availability), orderly generations, unrelabelled consumers and NUL-free configuration; wakeups by other owned objects only add to those modelled.
- ManifestRetries.RetriesConverge: between the runs nobody else changes the cluster; a Deployment that is not settled may differ, as in a second run.
- ManifestMeaning.RunReaches: for an object rendered once in the run; one rendered at several API versions is what its applies in order make of it (`ManifestLaws.FinalAt`), each as the one-object laws say.
- EnvMeaning.PipelineValues: for parameters an env file can hold; `EnvParams.PipelineMeaning` shows that exactly those come through.
- WatchMeaning.EnqueuesExactly: for settings without NUL; with one a change can be lost (`Watches.NulLosesChange`).
