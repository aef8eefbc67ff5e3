# Verified model of the Pneuma deployment engine

Pneuma deploys container images to one host. It keeps its catalog, deployments, runtimes, routes
and port reservations in SQLite, drives Podman, systemd and Caddy from that state, and repairs
drift by reconciliation. This project models the parts whose correctness spans many functions and
proves what they promise, for every input, every fault and every interleaving.

| files | what they hold |
|---|---|
| `Wrappers`, `Text`, `Identity`, `Release`, `Rendering`, `Layout` | text operations, identities, the OCI reference grammar, the canonical unit and route renderers, and what stands on each of their lines |
| `Deployment`, `Exposure` | the typed lifecycle and route evidence of the domain |
| `Schema`, `Statements`, `Workflows` | rows with every declared constraint, each store statement as a guarded write, each use-case transaction as one atomic step |
| `Hydration`, `Constraints`, `Invariants`, `Promotion`, `Runs`, `Readback` | reading rows back, what constraints survive, the store invariant, exact promotion, and runs of interleaved steps |
| `Histories`, `Candidates`, `Exactness`, `Refusals`, `Ports`, `Isolation`, `EndToEnd`, `Rollback` | the theorems over steps and runs |
| `Samples`, `PortClash`, `RollbackTie` | runs written out from the empty database that show where a promise fails |
| `Store` | the mutable store: a class whose methods update tables in place and refine the functions of the three modules above |
| `Reconciliation`, `Convergence` | the decision engine and its convergence on an idealised host |
| `Caddy`, `RouteWorkflow` | fragments on disk and in the running proxy, compensation under any fault, and the row that reports it |
| `Tui` | the session's request queue and its worker thread |
| `DatabaseGenerations` | database replacement and the processes it must not overlap |
| `HostEnvironment` | the environment-file parser |

A run is a sequence of atomic steps, each at one reading of the clock, from the empty database.
Values a process read earlier (a status, a port, a container) are parameters of the step, so one
sequence stands for any interleaving of any processes over any applications. A statement whose
result would break a declared constraint is refused and changes nothing, as in SQLite. Generated
identifiers, the clock, observations and command results are parameters.

## What the code does that its documentation does not say

- Registering a candidate and consuming its port reservation are two transactions
  (src/use_cases/deployment/candidate.rs:205-231), and the registered port is the observed
  endpoint, not the reservation. The port is therefore held twice, by one deployment, in between,
  and an endpoint on a port reserved by another deployment is accepted.
  `Ports.PortsStayExclusive` gives the exact condition over runs and `PortClash.ConcreteClash` a
  run from the empty database that violates it.
- An internal application that is wanted running is never reported in sync: with nothing left to
  repair the decision is manual intervention (`Reconciliation.HealthyInternalNeedsManualIntervention`).
- The rollback query orders by a finish time of one-second resolution. The previously active
  deployment is its only answer exactly when no other success finished at the same time or later
  (`Rollback.PreviousIsTheOnlyTargetExactly`); `RollbackTie.ConcreteTie` is a run within one second
  after which the query may answer with a release that was not the one served before.
- A store error at the confirmation of a route change ends reconciliation without compensation.
  Unless a compensation is itself defeated, an ending that is not a repair leaves the host changed
  exactly when the change went through and its confirmation failed in the store
  (`RouteWorkflow.PublishRoute`, `RouteWorkflow.WithdrawRoute`); then the proxy serves a route that
  no row confirms (`RouteWorkflow.UnconfirmedPublication`) or has lost one that the row still
  shows (`RouteWorkflow.UnconfirmedWithdrawal`).
- A confirmation lost to another process is undone, but recorded only if the row has been reserved
  anew meanwhile (`RouteWorkflow.PublicationEndsExactly`, `RouteWorkflow.WithdrawalEndsExactly`).
- Repeating a public promotion is rejected, while repeating an internal one returns its evidence
  (`Histories.NoRuntimeIsPromotedTwice`).
- The refresh key of the terminal interface reloads the listing but never the details it also
  asks for, because the first request makes the session busy (`Tui.Session.RefreshKey`).
- Advancing a deployment to a terminal status is always refused by the evidence constraint
  (`Exactness.AdvanceIsExact`).

## Model

| member | source | states |
|---|---|---|
| `Runs.EveryReachableDatabase` | src/adapters/stores/application_store.rs:260-281 | In every reachable database each application serves exactly its active, owned, succeeded deployment through one live running runtime, or nothing; every deployment row reads back with matching start evidence; at most one per application is in progress; every exposure row reads back and agrees with its intent |
| `Runs.StepKeepsInv` | src/domain/deployment.rs:272-302 | Every atomic step of every process keeps the whole store invariant |
| `Runs.StepKeepsSchema` | migrations/0001_current_schema.sql:30-199 | Every step keeps every declared constraint |
| `Runs.ReachableHoldsInv` | src/adapters/stores/runtime_store.rs:187-216 | The invariant holds after every run from the empty database |
| `Runs.RunKeepsInv` | src/domain/deployment.rs:272-302 | The invariant survives any continuation of a run |
| `Runs.ActiveRuntimeLookupIsUnique` | src/adapters/stores/runtime_store.rs:62-93 | The lookup of the active runtime has exactly one answer whenever a deployment is active, and that runtime is running |
| `Promotion.InternalPromotionIsExact` | src/use_cases/deployment/promotion/internal.rs:129-172 | An internal promotion repeats its evidence for a running runtime, commits for exactly the promotable runtimes of internal applications with the full new state, and otherwise changes nothing; no write inside it can be stale or refused |
| `Promotion.PublicPromotionIsExact` | src/use_cases/deployment/promotion/public.rs:179-246 | A public promotion commits exactly when its candidate is promotable and the exposure is being applied, confirming the route to it; the concurrent-change error means exactly that only the exposure moved on |
| `Promotion.InternalWritesCommit` | src/use_cases/deployment/promotion/internal.rs:138-163 | The four guarded writes of a ready candidate all change their row, in order, and meet every constraint |
| `Promotion.PublicWritesCommit` | src/use_cases/deployment/promotion/public.rs:203-237 | The five guarded writes commit together exactly when the exposure row is still being applied |
| `Promotion.WritesAreAPromotion` | src/adapters/stores/runtime_store.rs:187-216 | The written state is a promotion row by row: the candidate runs, other running runtimes of its application stopped, its deployment succeeded now and is active, nothing else moved |
| `Promotion.PromotedRouteReadsBack` | src/adapters/stores/exposure_store.rs:62-185 | After a successful public promotion the next reader loads the intent from before it and an active route to the promoted runtime at the promoted version and time |
| `Promotion.RuntimesAreJoined` | src/adapters/stores/deployment_store.rs:287-334 | Under the invariant every join of the promotion query finds its row and a running runtime has success evidence |
| `Promotion.UnobstructedTargetsArePromotable` | src/domain/deployment.rs:304-336 | The target's validation and completed-promotion view agree exactly with the rows it was joined from |
| `Promotion.PromotionKeepsServing` | src/adapters/stores/application_store.rs:260-281 | A promotion leaves every application, its own and all others, with a running runtime of its active deployment |
| `Promotion.PromotionKeepsRunning` | src/adapters/stores/runtime_store.rs:201-216 | After a promotion every running runtime belongs to an active deployment |
| `Promotion.PromotionKeepsStarted` | src/adapters/stores/runtime_store.rs:187-198 | A promotion starts the only started runtime of its deployment |
| `Histories.StepEvolvesDeployment` | src/adapters/stores/deployment_store.rs:206-270 | At every step a deployment row is unchanged or makes one legal move of the typed lifecycle; a terminal row never changes |
| `Histories.TerminalDeploymentsAreFinal` | src/domain/deployment.rs:228-248 | No run changes a succeeded or failed deployment |
| `Histories.DeploymentsKeepIdentity` | src/adapters/stores/deployment_store.rs:109-123 | A deployment never disappears or changes its application or release |
| `Histories.StepEvolvesRuntime` | src/adapters/stores/runtime_store.rs:145-216 | Runtime rows keep owner and ports, states move from starting through running to stopped, and only its own promotion starts a runtime |
| `Histories.TombstonesAreFinal` | src/adapters/stores/runtime_store.rs:300-327 | A removed runtime row is never changed again, and a started runtime never becomes a candidate again |
| `Histories.NoRuntimeIsPromotedTwice` | src/domain/deployment.rs:306-335 | After a promotion, whatever ran since, another promotion of that runtime changes nothing: the same evidence while it still serves, rejection as not starting once superseded |
| `Candidates.UnsuccessfulCandidateIsHarmless` | src/use_cases/deployment/cleanup.rs:183-218 | In any run, interleaved with anything other applications do, a candidate that has not succeeded leaves its application's row and every running runtime row of it unchanged |
| `Candidates.StepSpares` | src/adapters/stores/deployment_store.rs:221-251 | The single step of that theorem, promotions and registrations included |
| `Hydration.ExposureLoadsExactlyReadableRows` | src/adapters/stores/exposure_store.rs:62-185 | An exposure row loads exactly when its texts are valid, its evidence is all present or all absent and its state agrees with it; the loaded value shows that state and intent |
| `Hydration.GuardedUpdateKeepsLegality` | src/adapters/stores/exposure_store.rs:200-308 | Every guarded update keeps the row loadable with Active and Applying only under public and Removing only under internal intent |
| `Hydration.MaterializationLoads` | src/domain/exposure.rs:240-274 | The evidence table in closed form: diagnostics exactly for Failed and Diverged, a route for Active, none for NotMaterialized |
| `Hydration.AdvancingMovesTheLifecycle` | src/adapters/stores/deployment_store.rs:206-218 | A persisted advance is one typed transition and keeps start evidence |
| `Hydration.FailingMovesTheLifecycle` | src/adapters/stores/deployment_store.rs:221-251 | A recorded failure reads back as failed with the stage it failed from |
| `Hydration.SucceedingMovesTheLifecycle` | src/adapters/stores/deployment_store.rs:254-270 | A recorded success reads back as succeeded at that time |
| `Readback.ExposureStepReadsBack` | src/adapters/stores/exposure_store.rs:200-308 | An exposure update changes nothing exactly when the loaded exposure is not what its caller expects or a constraint on its domain or runtime refuses it; otherwise only that exposure changes and the next reader loads the typed update: failures as failed or diverged with the earlier route and this diagnostic, beginnings with the earlier route, a confirmation with the new one, a completed removal with none |
| `Readback.WrittenRowsLoad` | src/adapters/stores/exposure_store.rs:62-185 | The row every update writes is readable and loads as that typed update |
| `Readback.ReadableRowsShowTheirColumns` | src/adapters/stores/exposure_store.rs:62-185 | A readable row loads with exactly the intent, route and diagnostic of its columns |
| `Readback.ImportReadsBack` | src/use_cases/application/import.rs:84-131 | A new application loads with the intent it was imported with and no route |
| `Deployment.TransitionsAreExact` | src/domain/deployment.rs:215-248 | The transition table, event by event; every transition moves forward, and only the two terminal statuses have none |
| `Deployment.LifecyclesLoadExactly` | src/adapters/stores/deployment_store.rs:435-490 | Which columns form a lifecycle, with which evidence, and which error the others give |
| `Exactness.ImportIsExact` | src/use_cases/application/import.rs:84-131 | An import inserts application and exposure together, exactly when name and identifier are new and nobody else publishes the domain |
| `Exactness.CreationIsExact` | src/use_cases/deployment/create.rs:103-148 | A pending deployment is created exactly when its release is owned, nothing is in progress and a plain deploy does not repeat the active release |
| `Exactness.ActiveReleaseIsLive` | src/adapters/stores/deployment_store.rs:76-91 | The live-runtime condition of the active-release query is always met |
| `Exactness.AdvanceIsExact` | src/use_cases/deployment/transition.rs:90-114 | An advance commits exactly when the status read is current and the event leads to another in-progress status |
| `Exactness.FailureIsExact` | src/use_cases/deployment/transition.rs:117-142 | A failure is recorded exactly for work in progress with a trimmed, non-empty message |
| `Exactness.RegistrationIsExact` | src/use_cases/deployment/candidate.rs:308-363 | Registration is idempotent for the same deployment, endpoint and port, and otherwise adds one candidate exactly when its deployment is starting and no live runtime is on the endpoint |
| `Exactness.ReplacementIsExact` | src/adapters/stores/runtime_store.rs:145-166 | The recorded container is replaced exactly when it is still the expected one on a live runtime and nobody else has recorded the replacement |
| `Exactness.ObservationIsExact` | src/adapters/stores/runtime_store.rs:170-184 | An observation is recorded with its time exactly on a live runtime, an unknown word as unknown, and nothing else changes |
| `Exactness.RetirementIsExact` | src/adapters/stores/runtime_store.rs:300-311 | A tombstone is written exactly on a live, stopped runtime, and nothing else changes |
| `Exactness.AbandoningIsExact` | src/adapters/stores/runtime_store.rs:314-327 | A failed candidate is marked missing and removed exactly while it is live and starting |
| `Exactness.ReleasingIsExact` | src/adapters/port_allocator.rs:133-144 | Releasing removes exactly the reservations of the deployment |
| `Exactness.ConsumingIsExact` | src/adapters/port_allocator.rs:149-168 | Consuming removes exactly the reservation of this port, deployment and application |
| `Exactness.DesiredStateIsExact` | src/adapters/stores/application_store.rs:219-234 | The wanted state of an existing application is written, and nothing else |
| `Refusals.CreationAnswers` | src/use_cases/deployment/create.rs:103-148 | Each refusal of a new deployment exactly, in the order of the checks |
| `Refusals.RegistrationAnswers` | src/use_cases/deployment/candidate.rs:308-363 | Each refusal of a registration exactly, in the order of the checks |
| `Refusals.InternalPromotionAnswers` | src/use_cases/deployment/promotion/internal.rs:186-230 | Each refusal of an internal promotion exactly, with the state it reports |
| `Refusals.PublicPromotionAnswers` | src/use_cases/deployment/promotion/public.rs:179-202 | Each refusal of a public promotion exactly, with the state it reports |
| `Refusals.ObservedStoppedIsNotPromoted` | src/domain/deployment.rs:321-336 | A candidate observed not running cannot be promoted afterwards by either path, and the answer says what was observed |
| `Exactness.ExposureUpdateIsExact` | src/adapters/stores/exposure_store.rs:200-308 | Each exposure update is stale exactly when its guard fails, refused exactly on a domain conflict or a foreign runtime, and otherwise changes one row |
| `Exactness.DigestFindsOneRelease` | src/adapters/stores/release_store.rs:54-98 | Among stored releases one delivery specification permits, a digest finds at most one |
| `EndToEnd.CandidatesGetReady` | src/use_cases/deployment/candidate.rs:86-247 | Whatever other applications do between any two of its steps, and at any clock readings, a deployment with room becomes a verified candidate on the least port that was free when it asked, with no reservation left and its application serving what it served: no guard or constraint on the way can block it |
| `EndToEnd.InternalDeploymentGoesThrough` | src/use_cases/deployment/promotion/internal.rs:129-172 | For an internal application one more step serves the deployment and stops what was served |
| `EndToEnd.PublicDeploymentGoesThrough` | src/use_cases/deployment/activation.rs:148-206 | For a public application marking it activating, applying the route and promoting serve the deployment and confirm the route to it |
| `Isolation.ForeignRunKeepsRows` | src/adapters/stores/deployment_store.rs:206-270 | No run of steps for other applications changes, adds or loses a reservation of an application or changes any row it owns |
| `Isolation.ForeignRunKeepsPortClear` | src/adapters/port_allocator.rs:32-94 | While other applications work and take no reserved port, no live runtime comes to be on a reserved one |
| `Ports.ReservationIsExact` | src/adapters/port_allocator.rs:32-94 | A reservation returns the existing port unchanged; or reports exhaustion exactly when the range has no free port; or is refused exactly when the application does not own the deployment; or reserves the least free port of the range |
| `Ports.ReservationRepeats` | src/adapters/port_allocator.rs:29-65 | A repeat returns the same port and changes nothing, whatever the range has become |
| `Ports.FirstFreeIsLeast` | src/adapters/port_allocator.rs:66-93 | The search finds the least port that neither a live runtime nor a reservation holds |
| `Ports.RangeIsExact` | src/adapters/port_allocator.rs:104-118 | A configured range is accepted, with these bounds, exactly when it spells two ordered ports around one dash, leading zeros and one plus sign allowed |
| `Ports.ParseU16IsExact` | src/adapters/port_allocator.rs:108-113 | A bound is accepted exactly when it is an optional plus sign, zeros and the decimal digits of a number that fits |
| `Ports.RangeRoundTrips` | src/adapters/port_allocator.rs:104-118 | A printed pair of numbers is accepted exactly when it is an ordered range within 1 to 65535, and parses to itself |
| `Ports.PortsStayExclusive` | src/adapters/port_allocator.rs:32-94 | Under any interleaving across applications, every state of a run has no port with holders of two deployments exactly when no step of it is a registration whose guard holds on a port another deployment has reserved; two live runtimes on one port and two reservations of one deployment never occur |
| `Ports.StepExclusivityIsExact` | src/adapters/stores/runtime_store.rs:25-59 | A step from exclusive ports leads to exclusive ports exactly when it is no such registration |
| `Ports.RegistersExactly` | src/use_cases/deployment/candidate.rs:308-363 | A registration changes the database exactly when its identifier and container are new, its deployment is starting and no live runtime is on the port |
| `Ports.RegistrationKeepsExclusivityExactly` | src/adapters/stores/runtime_store.rs:25-59 | A registration keeps ports exclusive exactly when its port is not reserved by another deployment |
| `Ports.StepKeepsPortsExclusive` | src/adapters/port_allocator.rs:133-168 | Every other step keeps ports exclusive |
| `Ports.PortsAreFreedExactly` | src/adapters/stores/runtime_store.rs:300-327 | A held port becomes free exactly at a release or consumption without a live runtime, or at the removal of its runtime without a reservation |
| `Ports.HandoverNeverFreesThePort` | src/use_cases/deployment/candidate.rs:205-231 | From reservation through registration to consumption there is no state in which the port is free |
| `Ports.ExclusiveMeansOwned` | migrations/0001_current_schema.sql:151-153 | Exclusive holding is exactly ownership of one's reservation plus the unique live endpoint |
| `PortClash.RegistrationCanTakeAReservedPort` | src/use_cases/deployment/candidate.rs:308-363 | An observed endpoint on the port another starting deployment reserved is accepted and gives the port two holders |
| `PortClash.SetupReachesReserved` | src/use_cases/deployment/candidate.rs:86-115 | Nine steps from the empty database reach the state before that registration |
| `PortClash.ConcreteClash` | src/use_cases/deployment/candidate.rs:205-231 | One run written out, with storable references, that is exclusive until its last step and not after it |
| `Rollback.PreviousIsTheOnlyTargetExactly` | src/adapters/stores/deployment_store.rs:337-353 | After a promotion the previously active deployment is the only rollback target exactly when no other success finished at its time or later |
| `Rollback.ActiveIsAlwaysLatest` | src/adapters/stores/deployment_store.rs:254-270 | With an advancing clock the active deployment is the latest success in every state of every run |
| `Rollback.PromotionMakesPreviousTheTarget` | src/adapters/stores/deployment_store.rs:337-353 | With an advancing clock the rollback target right after a promotion is the deployment active before it |
| `Rollback.SameActiveSameTargets` | src/adapters/stores/deployment_store.rs:337-353 | While the active deployment is the same, so is every possible rollback target, whatever else ran |
| `Rollback.TwoRollbacksRestoreTheRelease` | src/use_cases/deployment/rollback.rs:73-113 | Two successive successful rollbacks serve the original release again |
| `Rollback.NewSuccessesAreLate` | src/adapters/stores/application_store.rs:260-281 | A success that appears during a run finished during that run |
| `RollbackTie.TiesAreReachable` | src/adapters/stores/deployment_store.rs:337-353 | With equal clock readings a run from the empty database ends with two possible rollback targets of different releases, one of them not the deployment active before the last promotion |
| `RollbackTie.ConcreteTie` | src/adapters/stores/deployment_store.rs:254-270 | One such run written out |
| `RollbackTie.JobsRun` | src/use_cases/deployment/candidate.rs:86-247 | The whole database after an undisturbed internal deployment |
| `Store.Store.PromoteInternal` | src/use_cases/deployment/promotion/internal.rs:129-172 | The in-place transaction equals the promotion function, rolling everything back on the first write that fails |
| `Store.Store.PromotePublic` | src/use_cases/deployment/promotion/public.rs:179-246 | The same for the public order of writes |
| `Store.Store.ReservePort` | src/adapters/port_allocator.rs:32-94 | The machine-integer search loop equals the reservation function and terminates for a range that ends at 65535 |
| `Store.Store.Enforce` | migrations/0001_current_schema.sql:30-199 | A statement's in-place effect is kept exactly when all constraints hold, and otherwise undone |
| `Store.Store.Perform` | src/adapters/stores/deployment_store.rs:206-270 | Every step performed in place equals its function and leaves the store invariant true |
| `Store.Store.AdvanceStatus` | src/adapters/stores/deployment_store.rs:206-218 | In-place compare-and-set with the first start recorded once |
| `Store.Store.MarkFailed` | src/adapters/stores/deployment_store.rs:221-251 | In-place compare-and-set of the failure evidence |
| `Store.Store.MarkSucceeded` | src/adapters/stores/deployment_store.rs:254-270 | In-place compare-and-set of the success evidence |
| `Store.Store.InsertPending` | src/adapters/stores/deployment_store.rs:109-123 | In-place insertion of a pending row |
| `Store.Store.InsertRuntime` | src/adapters/stores/runtime_store.rs:38-59 | In-place insertion of a starting candidate |
| `Store.Store.StartRuntime` | src/adapters/stores/runtime_store.rs:187-198 | In-place move from starting to running, once |
| `Store.Store.StopOtherRunningRuntimes` | src/adapters/stores/runtime_store.rs:201-216 | In-place stop of every other live running runtime of the application |
| `Store.Store.MarkRuntimeRemoved` | src/adapters/stores/runtime_store.rs:300-311 | In-place tombstone of a stopped runtime |
| `Store.Store.MarkStartingRuntimeMissing` | src/adapters/stores/runtime_store.rs:314-327 | In-place tombstone of a failed candidate |
| `Store.Store.ReconcileExternalRuntimeId` | src/adapters/stores/runtime_store.rs:145-166 | In-place compare-and-set of the container |
| `Store.Store.PersistObservation` | src/adapters/stores/runtime_store.rs:170-184 | In-place record of an observation on a live runtime |
| `Store.Store.UpdateExposure` | src/adapters/stores/exposure_store.rs:200-308 | In-place guarded exposure update |
| `Store.Store.ActivateDeployment` | src/adapters/stores/application_store.rs:260-281 | In-place activation of a succeeded deployment of the same application |
| `Store.Store.ReleasePort` | src/adapters/port_allocator.rs:133-144 | In-place removal of a deployment's reservations |
| `Store.Store.ConsumePortReservation` | src/adapters/port_allocator.rs:149-168 | In-place removal of the exact reservation |
| `Identity.StableRuntimeNameIsInjective` | src/domain/runtime.rs:373-375 | Equal stable names come from equal application and deployment, although names may contain hyphens |
| `Rendering.CanonicalUnitIsInjective` | src/adapters/systemd_quadlet.rs:79-96 | Equal units come from equal application, deployment, artifact, container port and host port |
| `Rendering.CanonicalFragmentIsInjective` | src/adapters/caddy_exposure.rs:282-291 | Equal route fragments publish the same domain on the same port |
| `Rendering.CanonicalFragmentIsNotBlank` | src/domain/exposure.rs:102-112 | A canonical fragment is always a valid configuration version |
| `Layout.UnitReadsLineByLine` | src/adapters/systemd_quadlet.rs:79-96 | The sixteen lines of a canonical unit, each with its value: name, container, image, host port before container port on loopback, both labels, the service section |
| `Layout.FragmentReadsLineByLine` | src/adapters/caddy_exposure.rs:282-291 | The lines of a canonical fragment: the domain opens the site and requests go to the loopback endpoint |
| `Layout.StableRuntimeNameReads` | src/domain/runtime.rs:373-375 | A stable name is the prefix, the application, a hyphen and the deployment's 32 characters, at these positions |
| `Layout.ExpectationsDescribeTheRuntime` | src/use_cases/reconciliation/observe.rs:16-38 | The expected unit and fragment name the container, the artifact and the host port of the runtime they are compared with |
| `Layout.DomainsAreExact` | src/domain/exposure.rs:368-384 | A domain is exactly dot-separated labels of letters, digits and inner hyphens, 253 characters at most |
| `Layout.IdentifiersAreExact` | src/domain/identity.rs:66-71 | Generated identifiers are exactly 32 lower-case hexadecimal characters, container identifiers hexadecimal text of either case |
| `Layout.CatalogNamesAreExact` | src/domain/identity.rs:117-126 | A catalog name is exactly lower-case letters, digits and inner hyphens, 63 at most |
| `Release.ParseInvertsPrint` | src/domain/release.rs:18-62 | A reference built from parts parses exactly when both parts are valid, and recovers them |
| `Release.ParseAcceptsOnlyPrintedReferences` | src/domain/release.rs:23-44 | Parsing accepts exactly the references printed from valid parts |
| `Release.RepositoriesAreExact` | src/domain/release.rs:134-186 | A repository is exactly plain components between slashes, the first of several possibly with a numeric port |
| `Release.DigestsAreExact` | src/domain/release.rs:120-132 | A digest is exactly the algorithm, a colon and 64 lower-case hexadecimal characters |
| `Release.LowerFoldsLetters` | migrations/0001_current_schema.sql:188-190 | Case-insensitive comparison identifies exactly the two cases of an ASCII letter |
| `Release.DigestSuffixIsExact` | src/adapters/stores/release_store.rs:72-98 | The case-insensitive suffix lookup matches exactly the artifacts with that digest |
| `Release.DigestLookupIsUnambiguous` | src/domain/release.rs:104-106 | Two permitted artifacts that match one digest are the same artifact |
| `Text.TrimFixesExactlyTrimmedText` | src/domain/deployment.rs:70-78 | Comparing a text with its trimmed form tests exactly its two ends |
| `Text.TrimErasesExactlyBlankText` | src/domain/exposure.rs:102-112 | Trimming to nothing tests exactly blankness |
| `Text.TrimRemovesBlanks` | src/host_environment.rs:43 | Trimming removes blanks at both ends and nothing else |
| `Text.SplitIsExact` | src/domain/release.rs:134-150 | The components of a text carry no separator and join to the text |
| `Reconciliation.InSyncExactly` | src/domain/reconciliation/decision.rs:108-136 | In sync holds exactly for a stopped application with nothing left, or a public one whose runtime, endpoint, fragment bytes, Active state and confirmed route all agree |
| `Reconciliation.RepairIsExact` | src/domain/reconciliation/decision.rs:140-175 | A repair is decided exactly for a lost runtime with no route on disk, a canonical unit, and a container that runs under the stable name with the recorded artifact, both labels and the loopback port; it names that runtime and that container |
| `Reconciliation.RematerializationIsExact` | src/domain/reconciliation/decision.rs:191-220 | A rematerialization is decided exactly for a lost runtime of a specified application with no container, no foreign unit and nothing running in systemd, and it writes the unit exactly if there is none |
| `Reconciliation.PublicFailureIsExact` | src/domain/reconciliation/decision.rs:255-300 | A public failure is recorded exactly when nothing earlier applies and the runtime is missing in the rows, or is not wanted, not running or not on its port; its kind says which |
| `Reconciliation.RemovalIsExact` | src/domain/reconciliation/decision.rs:222-250 | A route is removed exactly for internal, non-diverged intent with a fragment on disk that no earlier rule takes |
| `Reconciliation.PublicationIsExact` | src/domain/reconciliation/decision.rs:301-323 | A route is published exactly for a healthy public application with a valid expected fragment that is not served as recorded |
| `Reconciliation.InterventionIsExact` | src/domain/reconciliation/decision.rs:108-136 | An operator is asked exactly for a diverged exposure, or for an application wanted running that no exposure rule covers |
| `Reconciliation.RefusalIsExact` | src/domain/reconciliation/decision.rs:108-136 | The two refusals, exactly: an expected fragment that is no version, and drift no rule covers |
| `Reconciliation.SlashesAreTrimmed` | src/domain/reconciliation/observation.rs:89 | A reported container name matches exactly if it is the expected one behind slashes |
| `Reconciliation.RunningIsAlwaysDecided` | src/domain/reconciliation/decision.rs:261-323 | With boundary-built expectations the decision never refuses while Running is desired |
| `Reconciliation.StoppedOnlyWithdraws` | src/domain/reconciliation/decision.rs:140-220 | With Stopped desired nothing is repaired, rematerialized or published |
| `Reconciliation.StoppedIsRefusedExactly` | src/domain/reconciliation/decision.rs:108-136 | A stopped application is refused exactly when something is left that no exposure rule covers |
| `Reconciliation.HealthyInternalNeedsManualIntervention` | src/domain/reconciliation/decision.rs:130-136 | An internal application wanted running is never in sync |
| `Reconciliation.RouteDecisionsFollowIntent` | src/domain/reconciliation/decision.rs:222-250 | Routes are removed only for internal intent, published only for public intent and a running container, and never for a diverged exposure |
| `Convergence.AtMostTwoEffects` | src/domain/reconciliation/decision.rs:108-323 | Against a host that does what it is asked, a third effectful decision never follows two |
| `Convergence.PublicApplicationsEndInSync` | src/domain/reconciliation/decision.rs:252-323 | A public, running, non-diverged application ends in sync after one or two effects |
| `Convergence.EveryEffectCanHappen` | src/use_cases/reconciliation/runtime_effects.rs:66-116 | Every effectful decision has an effect on the idealised host, so convergence is not vacuous |
| `Convergence.RuntimeEffectsLeaveTheCanonicalUnit` | src/use_cases/reconciliation/runtime_effects.rs:119-143 | After a repair or a rematerialization the unit on disk is the canonical one, written only where the decision says so, and the recorded container is the one that carries the persisted identity |
| `Convergence.MaterializingEndsInSync` | src/use_cases/reconciliation/exposure_effects.rs:169-208 | After a materialization the very next decision is in sync |
| `Convergence.RepairProvesIdentity` | src/domain/reconciliation/decision.rs:140-175 | A repair adopts a container only next to a unit rendered for exactly the persisted identity |
| `Convergence.ReconciliationKeepsDivergedRows` | src/adapters/stores/exposure_store.rs:267-297 | No sequence of reconciliation updates, decided from facts of any age, changes a diverged row, makes a public row internal or drops its route evidence |
| `Convergence.ReconciliationRespectsTheRow` | src/use_cases/reconciliation/exposure_effects.rs:79-101 | Each single update decided by reconciliation matches no diverged row |
| `Caddy.Proxy.Materialize` | src/adapters/caddy_exposure.rs:173-279 | Success serves the canonical fragment and everything else on disk; an error without the flag leaves disk and served configuration as they were; the flag is raised exactly when a compensating step failed too; no other fragment changes |
| `Caddy.Proxy.Remove` | src/adapters/caddy_exposure.rs:325-370 | The same for removal |
| `Caddy.Proxy.RestoreFragment` | src/adapters/caddy_exposure.rs:413-446 | Prior bytes come back atomically or nothing changed |
| `Caddy.Proxy.RecoverPreviousConfiguration` | src/adapters/caddy_exposure.rs:400-410 | Recovery succeeds exactly when neither restore nor reload fails, and then the proxy serves the disk |
| `Caddy.Proxy.Restore` | src/adapters/caddy_exposure.rs:312-322 | A rejected change is undone on disk and in the proxy |
| `Caddy.Proxy.MaterializeThenRestore` | src/adapters/caddy_exposure.rs:312-322 | Materializing and restoring is the identity on disk and in the proxy |
| `Caddy.Proxy.RemoveThenRestore` | src/adapters/caddy_exposure.rs:373-383 | Removing and restoring is the identity on disk and in the proxy |
| `Caddy.PuttingBack` | src/adapters/caddy_exposure.rs:413-446 | Writing back the prior content undoes any change of one fragment |
| `Caddy.EntityIdsAreSafeStems` | src/adapters/caddy_exposure.rs:449-451 | Every generated identifier is a safe file stem |
| `RouteWorkflow.PublishRoute` | src/use_cases/reconciliation/exposure_effects.rs:169-208 | Under any fault, any concurrent write of the row and any failing store statement: the proxy serves the new route exactly when it was applied and its confirmation was written or failed in the store, and is as before in every other case in which no compensation is defeated; so, a defeat apart, only a store failure at the confirmation leaves a changed host without a repair |
| `RouteWorkflow.PublicationEndsExactly` | src/use_cases/reconciliation/exposure_effects.rs:210-327 | Each of the five answers of a publication exactly, with the row it leaves: repaired confirms this route now, a recorded failure carries the code and text of the step that failed, as failed or, exactly when a compensation was defeated, as diverged |
| `RouteWorkflow.ConfirmPublication` | src/use_cases/reconciliation/exposure_effects.rs:257-327 | A materialized route stays exactly when it is healthy and its confirmation finds the reservation or fails in the store; otherwise it is undone unless the undoing is defeated |
| `RouteWorkflow.UnconfirmedPublication` | src/use_cases/reconciliation/exposure_effects.rs:301-308 | A first publication written out after which the route is served and the row has none |
| `RouteWorkflow.WithdrawRoute` | src/use_cases/reconciliation/exposure_effects.rs:25-77 | The same for withdrawing an internal route: a defeat apart, the host is changed without a repair exactly when a route was removed and the confirmation failed in the store |
| `RouteWorkflow.WithdrawalEndsExactly` | src/use_cases/reconciliation/exposure_effects.rs:25-77 | Each of the five answers of a withdrawal exactly, with the row it leaves |
| `RouteWorkflow.ConfirmWithdrawal` | src/use_cases/reconciliation/exposure_effects.rs:56-76 | A removed route stays removed exactly when the confirmation finds the reservation or fails in the store; otherwise it is put back unless that is defeated |
| `RouteWorkflow.UnconfirmedWithdrawal` | src/use_cases/reconciliation/exposure_effects.rs:56-61 | A withdrawal written out after which nothing is served and the row still shows its route |
| `RouteWorkflow.Compensate` | src/use_cases/reconciliation/exposure_effects.rs:262-287 | The prior route is back on disk and in the proxy, or the failure is recorded as divergence |
| `RouteWorkflow.RecordFailure` | src/use_cases/reconciliation/exposure_effects.rs:106-142 | A failure is recorded exactly while the reservation still holds, its texts are trimmed and not empty and the store accepts it, and otherwise the row is left as it was found |
| `Tui.Session.DrainReplies` | src/cli/tui.rs:1075-1116 | For every interleaving with the worker, any number of moves between any two takes, neither protocol error occurs, and a waiting answer makes the load strictly smaller |
| `Tui.Session.TakeReply` | src/cli/tui.rs:1078-1113 | One reply: the protocol is kept, the answer leaves exactly the requests it makes stale, and the next one is dispatched |
| `Tui.Session.Polls` | src/cli/tui.rs:159-176 | Any number of polls amid any worker moves never raises the load and never loses an order the worker has taken |
| `Tui.Session.RunUntilIdle` | src/cli/tui.rs:159-176 | With no further keys the session runs dry, whatever the commands answer and however both threads interleave, as long as waiting orders are eventually taken and answered; so a requested quit exits |
| `Tui.Session.WorkerMoves` | src/cli/tui.rs:929-956 | Any move of the worker at any time keeps the protocol |
| `Tui.Session.DispatchNext` | src/cli/tui.rs:1026-1040 | At most one request is in flight, taken from the front of the queue |
| `Tui.Session.ExecuteAction` | src/cli/tui.rs:1493-1498 | A confirmed action is the only queued request |
| `Tui.Session.RequestQuit` | src/cli/tui.rs:1348-1351 | Quitting drops what is queued and lets the active request finish |
| `Tui.Session.RefreshAfterAction` | src/cli/tui.rs:1731-1785 | Nothing follows while quitting or while another action waits; otherwise, each once: the catalog for actions on applications, the systems for actions on systems, system details if they were shown, the deployments and the status of exactly the application the action changes |
| `Tui.Session.ApplyResult` | src/cli/tui.rs:1555-1729 | Whatever answer arrives, the follow-up requests are exactly those and weigh strictly less than the request, actions stay alone, and a load shows what it names |
| `Tui.Session.ApplyLoad` | src/cli/tui.rs:1562-1571 | A fitting answer to a load is shown or preserves the selection, any other is an error that adds no request |
| `Tui.Session.ApplyActionResult` | src/cli/tui.rs:1572-1708 | Success and failure of an action make the same requests stale; only a confirmed import selects its application |
| `Tui.SelectionsAreListed` | src/cli/tui.rs:2013-2021 | A selection survives a reload exactly if it is still listed; otherwise the first name is selected |
| `Tui.Session.EnsureObservationsLoaded` | src/cli/tui.rs:1414-1425 | Observations are requested only when idle and for a new selection |
| `Tui.Session.RefreshKey` | src/cli/tui.rs:1510-1527 | The refresh key queues the catalog only |
| `Tui.WeightOfAppended` | src/cli/tui.rs:1022-1024 | The load grows by exactly the weight of an enqueued request |
| `DatabaseGenerations.DatabaseFile.Restore` | src/adapters/database.rs:180-258 | Under any fault, partial copies included, the live file is the old or the validated source file, a rejected source changes nothing, success keeps the old bytes in the snapshot, and what a failed copy leaves is exactly in the new snapshot or the temporary file |
| `DatabaseGenerations.LiveFileChangesSerially` | src/control/mod.rs:63-90 | Every change of the live file is made by a command no restore overlaps, or by a restore that runs alone and keeps the replaced bytes |
| `DatabaseGenerations.NoCommandSpansAReplacement` | src/control/mod.rs:308-318 | No command runs across a replacement, under any interleaving and process deaths |
| `DatabaseGenerations.RestoreIsAtomic` | src/adapters/database.rs:169-178 | While a restore holds the lock the live file is what it found or its validated source, and the source only once the found bytes are in the snapshot |
| `DatabaseGenerations.RejectedSourceLeavesNoTrace` | src/adapters/database.rs:180-206 | A rejected source leaves live file, temporary file and snapshots untouched |
| `DatabaseGenerations.SnapshotsArePermanent` | src/adapters/database.rs:147-166 | No process overwrites or removes a snapshot |
| `DatabaseGenerations.RunKeepsInv` | src/adapters/database.rs:95-143 | Exclusive and shared holders never coexist, over every run |
| `DatabaseGenerations.UndisturbedRestoreSucceeds` | src/adapters/database.rs:169-258 | A restore that nothing breaks off ends with its source live, the found bytes in the snapshot, no temporary file and the lock given up, whatever a broken one left behind |
| `DatabaseGenerations.CommandsAreExact` | src/adapters/database.rs:272-312 | A command starts exactly when no restore runs and the file is empty or of the current schema, initialises only an empty file, and writes only while it runs |
| `HostEnvironment.Parse` | src/host_environment.rs:37-80 | The parser of a whole file answers for its lines |
| `HostEnvironment.ParseLines` | src/host_environment.rs:37-80 | Succeeds with the entries in file order exactly when no line offends, otherwise describes the first offending line and, for a duplicate, the first definition |
| `HostEnvironment.AnswersAreUnique` | src/host_environment.rs:37-80 | That answer is the only one for a file |
| `HostEnvironment.SoundEntries` | src/host_environment.rs:32-36 | Accepted files give valid, pairwise distinct names, clean values, and one entry per significant line |
| `HostEnvironment.LinesMeanExactly` | src/host_environment.rs:41-70 | What every line means, exactly: blank lines and comments are ignored, a line without a separator is faulty, any other assigns one trimmed value to one name, and an entry needs a valid name and a value without NUL |
| `HostEnvironment.PrintThenParse` | src/host_environment.rs:37-80 | Printing distinct valid names with clean values and parsing returns the list |

## Left out

- Podman, systemd, Caddy, Git and health-check processes: only their success, failure or observation enters, as a parameter.
- SQL text, column conversion, and SQLite errors other than a refused constraint outside the route workflow: rows are datatypes and a transaction either applies or does not.
- Columns without a rule of their own (system, repository, manifest, health check, image repository, source revision, request time, exit code): no modelled decision reads them, except that the image repository is a parameter of the digest lookup.
- Systems and the catalog of releases beyond insertion and lookup: plain records.
- The branch of route verification for a missing deployment specification (src/use_cases/reconciliation/exposure_effects.rs:264-268): the specification is read in one transaction with the exposure and exists whenever the exposure does, so it cannot be reached.
- Recovery of an interrupted deployment (src/use_cases/reconciliation/recover.rs): it is composed of the failure and abandonment steps, which are modelled.
- Application locks: the store theorems hold for every interleaving, so they do not need the locks; the promise that two operations on one application do not overlap is not modelled.
- Two route changes of different applications overlapping between a rename and a reload: each Caddy operation is modelled as running alone on the proxy.
- Write-ahead and journal sidecars of the database: only the main file is modelled, and an error after the rename leaves the new file in place.
- Overflow of the session's request counter at 64 bits.
- Drawing, forms, scrolling and the deployment log of the terminal interface; the disconnection of a worker that has ended.
- Command-line mapping, output formatting, manifest decoding, remote checkout and host diagnostics.
- Caddy.Proxy.Restore: promises nothing about the recovery flag, which is meaningful only for results of a materialization or a removal.
- Caddy.Proxy.Materialize: merges the file-system errors of its five file operations into one error value.
