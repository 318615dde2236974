# Verified model of the Kubernetes Pod Sandbox provider

A Dafny 4.11 model of the Kubernetes provider for Cloud API Adaptor (CAA), with proofs.
`dafny verify dfyconfig.toml` checks all of it. It covers five parts of the provider.

- **Sandbox lifecycle** (`Lifecycle`, `Readiness`, `Lifetimes`, `StoppedRunners`, `Incarnations`,
  `Handlers`, `Answers`, `AccessStability`, `UserDataSecrets`, `UserDataIdentity`, `UserDataLoss`, `Capacity`,
  `Counterexamples`): HTTP create and delete handlers, the controller, the kubelet, the operator and the garbage collector
  share one store of PodSandboxes, Secrets, Pods and PodSandboxClasses. A run is a start state and
  an arbitrary list of actions, so each theorem holds for every interleaving.
- **Reconciler** (`Reconciler`, `Outcomes`, `Controller`, `Rollout`, `Runner`, `Conditions`, `Decimal`): one
  reconciliation as a function on stores, the controller's step-by-step code proved equal to it, and
  the rollout of a class change.
- **Access** (`Access`, `Server`): resolution of a bearer token, and the create and delete requests as
  structured code proved to do what the lifecycle's handler machine does.
- **User data** (`UserDataRewrite`): the MTU rewrite of the cloud-config files.
- **Process supervision** (`Processes`, `Supervision`): the node's processes against any schedule of exits,
  timers and cancellations.

## Hypotheses

These hold throughout; a theorem that needs more says so in its `requires`.

- Reads are fresh. One reconciliation of one key is one step. A create handler takes one step per API
  call, so anything may happen between two of its calls. The check and the deletion of a DELETE
  request are one step.
- A call that fails has no effect on the store. Which calls fail, and how, is part of the action.
- The name derived from a sandbox ID is an arbitrary function; names may collide.
- A status patch sends the changed fields only (section 2 of RFC 7396). Setting a condition replaces
  the first entry of that type or appends, and keeps the transition time while the status is the same.
- Sandbox specs do not change. Failed and Succeeded pods stay so. Writing a class increments its
  generation; a class that is created again starts at generation 1.
- A secret marked immutable rejects an update with other data.
- The exit of a process is seen at the next point where the program looks or waits.
- User data: a document that has a text can be printed and read back, and the same holds with the cap in
  use as its MTU. JSON with 64-bit floats meets this for every cap that a float represents exactly;
  `DecimalCodecIsFaithful` gives a codec that meets it for every cap.

## Findings

Promises that the code keeps only under a condition. Each has a lemma with the exact condition and a
concrete input or run that breaks the promise.

- RunnerFailed is not permanent: if the userdata Secret disappears, the report is replaced although
  the runner stays stopped (`FailureReportedIff`, `FailureStaysReportedIff`; input
  `FailureReportCanBeLost`). No 201 is answered for it even then (`NoCreatedReplyWhileStopped`).
- When creates overlap, a sandbox has its userdata Secret all its life exactly when the Secret was
  there at its creation and no later step takes it (`KeepsUserDataIff`). Two steps do
  (`LosesUserDataIff`): a request of that key drops the Secret after its creation failed
  (`OverlappingCreatesLoseUserData`; before the creation, `BornWithoutUserData`), and a late request
  makes its own sandbox, which is gone, the owner of the Secret that its successor shares, so that the
  Secret is collected (`LateOwnerLosesUserData`). Serialised creates exclude both
  (`ApiCreatedKeepsUserData`).
- An existing userdata Secret is taken as it is. A sandbox boots with its own request's userdata
  exactly when no Secret of that name, or an equal one, was stored when the request came to create it
  (`BootsWithOwnUserDataIff`; run `LeftOverSecretIsReused`). Runs in which the two calls with ignored
  errors succeed always meet this (`CleanRunsBootWithOwnUserData`).
- The identity check of a request that joins a sandbox does not look at userdata. Such a request is
  served on its own userdata exactly when the sandbox had that userdata when it joined
  (`JoinsOwnUserDataIff`; run `JoinIgnoresUserData`).
- The controller compares template generations, not owners. As long as a sandbox lives, every pod of its
  name is its own exactly when there was none at its creation (`RunnersAreOwnIff`; run
  `LazyCollectionAdoptsRunner`).
- For the same reason a class that is deleted and created again at the same generation is not seen as a
  change (`CurrentIffSameGenerations`; run `RecreatedClassKeepsRunner`).
- The deferred cleanup deletes by name. What it finds is the sandbox of its own request exactly when the
  key has been occupied since its creation (`CleanupDeletesOwnIff`; run `CleanupDeletesSuccessor`).
- A fractional MTU strictly between the cap and the next integer is not lowered
  (`CappedIsMinimumIff`; input `FractionalMtuExceedsCap`).
- The memory limit of the runner exceeds guest memory exactly when their sum with the overhead fits an
  int64 (`LimitAboveGuestIffNoOverflow`; input `LargestGuestOverflowsLimit`).
- The workload namespace and UID annotations are right exactly when the workload has one or the class
  does not claim one in its place (`RunnerCarriesIdentity`; input `ClassClaimsNamespace`).
- An adaptor attempt is left running and never signalled exactly when, at the first tick that decides
  the wait for its socket, there is no socket, the attempt has not exited and the kubelet has
  (`AttemptLeavesIff`, `BringLeavesIff`, `AbandonedIff`; run `KubeletExitLeavesAttempt`).
- `docs/kaas-integration.md:223-224` says that deletion of a sandbox outside the token's namespace is
  rejected. The code looks for the name in the granted namespace only and answers 204 when it is not
  there; the model follows the code (`DeleteSandboxRequest` has the exact condition of each error code;
  input `DeleteOutsideNamespace`).

## Model

| member | source | states |
|---|---|---|
| `Readiness.ReadyHasCause` | internal/controller/podsandbox_controller.go:86-119 | in every reachable state a sandbox with Ready=True has exactly one non-empty address and its own name as runner; the reconciliation that wrote this status, unchanged since, found a live, ready runner of the then current template generation at that address |
| `Lifetimes.RunnersAreOwnIff` | internal/controller/podsandbox_controller.go:72-91 | as long as a sandbox lives, every pod of its name is its own, exactly when there was no pod of that name at its creation |
| `Lifetimes.ReadyRunnerIsOwn` | internal/controller/podsandbox_controller.go:72-119 | if there was none, the runner behind Ready=True was owned by the sandbox itself and seen in its own life |
| `Lifetimes.SameSandboxIffOccupied` | api/v1alpha1/podsandbox_types.go:48-52 | a key holds the sandbox that a given action created exactly when it has been occupied since |
| `Lifetimes.CleanupDeletesOwnIff` | internal/server/server.go:264-270 | the deferred cleanup finds the sandbox of its own request under its name exactly when the key has been occupied since the creation |
| `Readiness.PodsStayOwned` | internal/controller/podsandbox_controller.go:73-78 | if dependents are collected together with their owner, each pod belongs to the stored sandbox of its name in every state, so no pod is there when a sandbox is created |
| `Readiness.CreatedReplyHasServingAddress` | internal/server/server.go:309-320 | every 201 reply names the handler's key and workload and carries one non-empty address that an earlier reconciliation read off a serving runner of that sandbox |
| `Readiness.CreatedReplyNamesRequestedSandbox` | internal/server/server.go:261-320 | a handler that answers 201 was admitted earlier, and if its key stayed occupied since, the sandbox has the requested ID and workload and the granted class, even when names collide |
| `Readiness.UnderwayWasAdmitted` | internal/server/server.go:271-311 | a handler that polls or has answered 201 passed the admission step at some earlier action |
| `Readiness.AdmissionFixesIdentity` | internal/server/server.go:276-311 | right after admission the handler's key holds a sandbox whose sandbox ID and workload are the request's and whose class is the granted one, whether it was created or joined |
| `Readiness.OccupantStays` | api/v1alpha1/podsandbox_types.go:48-52 | while a key stays occupied, the sandbox there keeps uid and spec through every action |
| `Readiness.Answers201Polls` | internal/server/server.go:313-324 | a 201 comes only out of a poll that saw Ready=True, and repeats that sandbox's addresses |
| `Answers.ClassCheckAnswers` | internal/server/server.go:242-256 | 503 exactly when the class cannot be read, else 400 exactly when the body is no request or lacks workload name, sandbox ID or userdata |
| `Answers.JoinsIffSameIdentity` | internal/server/server.go:271-275 | on a stored sandbox the request goes on to poll exactly when sandbox ID, class and workload are equal and answers 409 exactly otherwise; 500 on a failed read |
| `Answers.StoresUserData` | internal/server/server.go:277-285 | the userdata is stored in an immutable Secret without owner, an existing one is taken as it is, and a failure answers 500 |
| `Answers.UndoesOrOwns` | internal/server/server.go:298-306 | after a failed creation the Secret is removed and 500 answered; after a successful one it gets the sandbox as owner, and the request polls whatever that call did |
| `Answers.CleansUp` | internal/server/server.go:266-270 | the end of a request deletes the sandbox of its key exactly when it created one and did not answer 201 |
| `Answers.CreatesWhatIsAsked` | internal/server/server.go:286-303 | the sandbox is created exactly when the key is free and the request meets the schema, with the requested sizes, or 2 CPUs and 2048 MiB where none is given |
| `Answers.PollAnswers` | internal/server/server.go:315-329 | 201 exactly for a stored sandbox whose first Ready condition is True and that has an address, 500 exactly when it cannot be read or that condition is False with RunnerFailed, waiting otherwise |
| `Answers.WaitAnswers` | internal/server/server.go:329-334 | 504 exactly when the request has expired, another poll otherwise |
| `Answers.FailureHasCause` | internal/controller/podsandbox_controller.go:92-98 | in every reachable state a sandbox that reports RunnerFailed got this status, unchanged since, from a reconciliation that found its runner stopped |
| `Answers.RefusedPollHasCause` | internal/server/server.go:315-328 | over every run, a poll whose read succeeds answers 500 only if the sandbox is gone or an earlier reconciliation found the runner of this very sandbox stopped |
| `Handlers.CleanupIffCreatedAndNotAnswered` | internal/server/server.go:264-335 | over every run a finished create request has asked for one deletion if it created its sandbox and did not answer 201, otherwise for none; one that joined a sandbox or still runs has asked for none; all its creations and deletions are at its own key |
| `Handlers.BooksBalance` | internal/server/server.go:264-335 | in every reachable state the flags and reply of each request agree with the creations and deletions the API server logged for it |
| `Handlers.CallsStayWithinGrant` | internal/server/server.go:142-155 | over every run each API write of a create request is at its own sandbox or userdata secret in the granted namespace, and each sandbox it creates has the granted class |
| `Handlers.AdvanceConfined` | internal/server/server.go:238-307 | no step of a create request changes a sandbox, pod or secret of another namespace |
| `Handlers.DeleteRemovesOnlyGranted` | internal/server/server.go:338-363 | a DELETE request removes at most the named sandbox, in the granted namespace and of the granted class |
| `Handlers.NamespaceIsIsolated` | internal/server/server.go:142-155 | over whole runs, requests and actions of other namespaces leave all sandboxes, pods and secrets of a namespace as they were |
| `UserDataLoss.LosesUserDataIff` | internal/server/server.go:299-306 | without serialised creates: a sandbox that stays in place loses its userdata Secret in exactly two kinds of steps, a request of its key that drops it after a failed creation, and one that makes a sandbox its owner that is no longer there |
| `UserDataLoss.KeepsUserDataIff` | internal/server/server.go:277-307 | over every run without foreign writes to userdata names: a sandbox has its Secret all its life exactly when it was there at the creation and no such step follows |
| `UserDataLoss.UserDataUnavailableIffLost` | internal/controller/podsandbox_controller.go:65-71 | for a sandbox created through the API, a reconciliation that can read secrets reports UserDataUnavailable exactly when the Secret is gone |
| `UserDataLoss.LooseHolds` | internal/server/server.go:277-307 | also with overlapping creates a userdata Secret is immutable, has its key, and is owned by nobody or by the API-created sandbox of its name |
| `UserDataLoss.LooseInitially` | internal/server/server.go:277-307 | a start without requests that satisfies the stronger invariant of serialised creates satisfies this one |
| `UserDataSecrets.ApiCreatedKeepsUserData` | internal/server/server.go:277-307 | serialised creates suffice: with them, collection together with deletion, and no one else writing userdata names, every sandbox created through the API always has its Secret with the userdata key, so no reconciliation that can read secrets reports UserDataUnavailable for it |
| `UserDataSecrets.InvHolds` | internal/server/server.go:277-307 | the invariant over store and handlers that this needs holds in every state of such a run |
| `UserDataSecrets.InvInitially` | internal/server/server.go:277-307 | a start with distinct uids, without requests and without secrets under userdata names satisfies that invariant |
| `UserDataSecrets.CreateSandboxKeeps` | internal/server/server.go:286-303 | creating the sandbox after its secret keeps the invariant for the store, the handler and every handler of another key |
| `UserDataSecrets.OwnSecretKeeps` | internal/server/server.go:303-306 | making the sandbox owner of the secret keeps the invariant, also when the sandbox is already gone |
| `UserDataSecrets.DropSecretKeeps` | internal/server/server.go:299-302 | dropping the secret after a failed creation takes none from an API-created sandbox |
| `UserDataIdentity.BootsWithOwnUserDataIff` | internal/server/server.go:277-307 | with serialised creates, a sandbox that a request created refers, as long as it lives, to a stored Secret, which holds that request's userdata exactly when no Secret of that name, or an equal one, was stored at the request's creation step |
| `UserDataIdentity.JoinsOwnUserDataIff` | internal/server/server.go:308-311 | as long as a joined API-created sandbox is in place, its Secret holds the joining request's userdata exactly when it did at the join |
| `UserDataIdentity.UserDataStays` | internal/server/server.go:277-307 | with serialised creates an API-created sandbox keeps the data of its Secret as long as it is in place |
| `UserDataIdentity.CleanRunsBootWithOwnUserData` | internal/server/server.go:299-307 | if the two calls whose errors are ignored succeed, from a start without userdata secrets, it always holds that request's userdata |
| `UserDataIdentity.NoSecretLeftOver` | internal/server/server.go:277-285 | in such a run a request about to create its secret finds none of that name |
| `UserDataIdentity.DataHolds` | internal/server/server.go:277-307 | the invariant behind it holds in every state: each secret without owner is in the hands of a handler, and each live sandbox's secret holds its request's userdata |
| `AccessStability.TokensKeepTheirWorth` | internal/server/server.go:157-185 | over every run of create, delete and reconcile steps each token resolves to the same result as at the start, if the operator's secrets are not named like userdata secrets and not owned by sandboxes |
| `AccessStability.AdvanceIsIrrelevant` | internal/server/server.go:277-307 | no step of a create request changes the default token or an access secret |
| `Incarnations.RunnersAreBounded` | internal/controller/podsandbox_controller.go:72-91 | over every run the runners created for a key are at most one more than the changes of its class plus the removals by others; creating the sandbox counts as a change only where a pod of that name is left over |
| `Incarnations.ReconcileSettles` | internal/controller/podsandbox_controller.go:72-91 | under any faults a reconciliation keeps a runner of the current generation, and one it creates is of the current generation |
| `Incarnations.WrittenClassReplacesRunner` | internal/controller/podsandbox_controller.go:86-91 | writing a class makes every current runner of its sandboxes stale |
| `Reconciler.ReconcilePods` | internal/controller/podsandbox_controller.go:72-91 | a reconciliation creates a runner only with all inputs and only the desired one, and touches an existing one only to delete a stale one |
| `Reconciler.OnlyStaleRunnersAreDeleted` | internal/controller/podsandbox_controller.go:86-91 | under any faults only a runner of another template generation is removed or marked for removal |
| `Rollout.RolloutCompletes` | internal/controller/podsandbox_controller.go:305-317 | after two full fault-free passes, each in any order, every live sandbox of the class with userdata is on a runner of the current template generation, and every sandbox and runner of another class is as before |
| `Rollout.SandboxesForClass` | internal/controller/podsandbox_controller.go:305-317 | each stored sandbox of the class is enqueued exactly once, nothing else, and nothing when listing fails |
| `Rollout.PassAtKey` | internal/controller/podsandbox_controller.go:51-124 | in a pass without repeated keys each key ends as if it alone had been reconciled, whatever the order |
| `Rollout.OnePassSufficesIffNotStale` | internal/controller/podsandbox_controller.go:86-91 | one fault-free reconciliation ends on a current runner exactly when the runner was not stale |
| `Reconciler.TwoReconcilesSettle` | internal/controller/podsandbox_controller.go:51-124 | on every store a third fault-free reconciliation changes nothing after two |
| `Reconciler.SecondReconcileIsNoOpIffNotStale` | internal/controller/podsandbox_controller.go:51-124 | on every store the second fault-free reconciliation changes nothing exactly when the runner was not stale |
| `Reconciler.ReconcileCommutes` | internal/controller/podsandbox_controller.go:51-124 | reconciliations of two keys commute on every store under any faults, and do not change each other's outcome |
| `Reconciler.ReconcileFrame` | internal/controller/podsandbox_controller.go:51-124 | a reconciliation writes only the pod and the sandbox status at its key; secrets, classes, specs and all other keys are as before |
| `Reconciler.ReadyIffServing` | internal/controller/podsandbox_controller.go:60-119 | without faults a live sandbox ends up Ready=True exactly if class, userdata and a ready, non-terminal runner of the current generation with an address exist |
| `Reconciler.ReadyOnlyFromServingRunner` | internal/controller/podsandbox_controller.go:92-119 | under any faults a status write sets Ready=True only from a serving runner that was in the store before, with its address |
| `Reconciler.FailureOnlyFromStoppedRunner` | internal/controller/podsandbox_controller.go:92-98 | under any faults RunnerFailed is newly reported only for a stopped runner of the current generation |
| `Outcomes.FaultlessOutcome` | internal/controller/podsandbox_controller.go:51-124 | without faults a reconciliation is done exactly when there is no sandbox to serve or its current runner has stopped or serves, fails exactly when class or userdata is missing, and asks to be called again otherwise |
| `Outcomes.FaultlessReport` | internal/controller/podsandbox_controller.go:60-119 | without faults the reason, message, generation, runner, node and addresses written in each of the seven cases, and the pod left behind |
| `Outcomes.EnactEffect` | internal/controller/podsandbox_controller.go:101-123 | a declined sandbox keeps runner, node and addresses; a live runner's node and address are mirrored, and the outcome says whether it serves |
| `Outcomes.FailingInputs` | internal/controller/podsandbox_controller.go:60-71 | a failing read of class or secret is reported with its error and returned, and the pod is left alone |
| `Outcomes.FailingRunnerCalls` | internal/controller/podsandbox_controller.go:76-91 | what is reported and returned when the runner cannot be created, found or deleted, and that it is left as it is |
| `Outcomes.UnreadableOrUnwritable` | internal/controller/podsandbox_controller.go:53-55 | a sandbox that cannot be read or written is left as it is; NotFound is no error, any other error is returned |
| `Outcomes.OtherConditionsStay` | internal/controller/podsandbox_controller.go:110-116 | under any faults no other condition type is touched |
| `Outcomes.StopMessageIs` | internal/controller/podsandbox_controller.go:93-97 | a stopped runner is reported with the message of the first container named runner, or with the fixed one when there is none |
| `Reconciler.StoppedRunnerVerdict` | internal/controller/podsandbox_controller.go:92-98 | a stopped runner of the current generation is kept, never mirrored as live, and reported as RunnerFailed exactly when inputs and runner can be read |
| `Reconciler.FailureReportedIff` | internal/controller/podsandbox_controller.go:60-98 | under any faults, while the runner stays stopped: a reconciliation without a status write leaves the report as it is, any other one reports RunnerFailed exactly when class, userdata and runner can be read |
| `Reconciler.FailureRepeatedIffInputsComplete` | internal/controller/podsandbox_controller.go:60-98 | without faults that is exactly when the userdata is readable |
| `Reconciler.MergePatch` | internal/controller/podsandbox_controller.go:117-119 | a patch against the stored status yields the modified one, and an empty patch leaves any status alone |
| `StoppedRunners.StoppedStays` | internal/controller/podsandbox_controller.go:92-98 | under any faults a sandbox whose runner has stopped does not become ready while its class, pod and the sandbox stay in place |
| `StoppedRunners.FailureStaysReportedIff` | internal/controller/podsandbox_controller.go:92-98 | over every such run RunnerFailed stays reported throughout exactly when each reconciliation of the key writes no status or can read its inputs and runner |
| `StoppedRunners.NoCreatedReplyWhileStopped` | internal/server/server.go:313-324 | in that time no poll for the sandbox answers 201 |
| `StoppedRunners.PollFailsWhileReported` | internal/server/server.go:322-325 | in such a run every poll answers 500 and ends the request |
| `Controller.ApiServer.Reconcile` | internal/controller/podsandbox_controller.go:51-124 | the step-by-step reconciliation changes the store and returns exactly as the function `Reconciler.Reconcile` says |
| `Controller.ApiServer.ReadInputs` | internal/controller/podsandbox_controller.go:52-71 | reading sandbox, class and secret in turn finds what the function says, with the first missing one as the reason |
| `Controller.ApiServer.Inspect` | internal/controller/podsandbox_controller.go:79-124 | the part after the runner exists writes the verdict of the function and no other key |
| `Controller.ApiServer.Decline` | internal/controller/podsandbox_controller.go:259-287 | `progressing`, `fail` and `stopped` set Ready=False with their reason through a patch and keep every other field |
| `Controller.ApiServer.PatchStatus` | internal/controller/podsandbox_controller.go:263-265 | the status patch is the merge of the difference, and a failed patch leaves the store as it was |
| `Runner.CurrentIffSameGenerations` | internal/controller/podsandbox_controller.go:153-155 | a runner built for one sandbox and class is kept under another pair exactly when both generations agree, whatever annotations the classes carry |
| `Decimal.SlashPairInjective` | internal/controller/podsandbox_controller.go:155 | the template-generation text determines both numbers |
| `Decimal.FormatRoundTrip` | internal/controller/podsandbox_controller.go:188-190 | parsing a printed decimal gives the number back |
| `Runner.RunnerCarriesIdentity` | internal/controller/podsandbox_controller.go:150-162 | the controller's labels and annotations win over the class, all others are the class's, and the workload's namespace and UID are right exactly when set or not claimed by the class |
| `Runner.FlagsReadBack` | internal/controller/podsandbox_controller.go:186-190 | the runner reads the spec's CPUs and memory and the class's MTU, 1500 when it has none, back from its arguments |
| `Runner.CapacityAcceptedIffSchemaMinima` | cmd/runner/main.go:154-157 | the runner accepts its arguments exactly when the spec satisfies the schema minima |
| `Capacity.RunnersAcceptTheirCapacity` | cmd/runner/main.go:154-157 | in every reachable state each stored runner's arguments pass the runner's capacity check |
| `Runner.LimitAboveGuestIffNoOverflow` | internal/controller/podsandbox_controller.go:135-149 | the CPU limit is the spec's; the memory limit is guest memory plus overhead, 256 MiB when the class has none, and above guest memory, exactly when that sum fits an int64 |
| `Conditions.FindCondition` | internal/server/server.go:375-382 | the result is the first condition of the type, and none is returned only if there is none |
| `Conditions.ConditionByType` | internal/server/server.go:375-382 | the search loop finds that condition |
| `Conditions.FindAfterSet` | internal/controller/podsandbox_controller.go:110-116 | a set condition is found by its type with its old transition time iff the status is the same, and no other type is affected |
| `Conditions.SetTwice` | internal/controller/podsandbox_controller.go:110-116 | setting a condition again later changes nothing |
| `Conditions.PodIsReady` | internal/controller/podsandbox_controller.go:241-248 | true exactly if the first Ready condition of the pod is True |
| `Conditions.RunnerTermination` | internal/controller/podsandbox_controller.go:250-257 | the termination state of the first container named like the runner |
| `Access.ScanAccessSecrets` | internal/server/server.go:170-184 | the scan with early error and sentinel computes the order-free resolution of the matching secrets, for every list order |
| `Access.ResolveToken` | internal/server/server.go:157-185 | the whole resolution computes the specification of what a token is worth |
| `Access.ErrsExactlyOnBadSecrets` | internal/server/server.go:170-184 | past the default token it errs exactly when a matching secret is incomplete or two matching ones disagree |
| `Access.GrantsExactlyWhatSecretsName` | internal/server/server.go:166-184 | past the default token, a token is worth class c in namespace n exactly when some access secret carries it and every one that does holds c as class and n as namespace |
| `Access.OtherTokens` | internal/server/server.go:162-184 | the default token is worth the configured class and namespace, and another one nothing exactly when no access secret carries it |
| `Access.DefaultTokenIs` | internal/server/server.go:196-209 | the default token is the configured one, or else the non-empty one of the token secret |
| `Access.AuthorizedIff` | internal/server/server.go:142-155 | a request is let through exactly under a result that names both a class and a namespace |
| `Access.GrantIsWholeOrEmpty` | internal/server/server.go:149-152 | a result without error names both class and namespace or neither |
| `Server.CreateSandboxRequest` | internal/server/server.go:238-336 | the structured request (early returns, deferred cleanup, poll loop) gives the reply, makes the calls and leaves the stores of the handler machine, for every script of answers |
| `Server.Look` | internal/server/server.go:239-311 | class check, validation and identity check reject with 503, 400, 500 or 409, or go on to poll or to create, as the machine does |
| `Server.Make` | internal/server/server.go:276-307 | the creation branch makes the machine's calls in order, with the undo of the secret when the sandbox cannot be created |
| `Server.AwaitReady` | internal/server/server.go:313-335 | the poll loop ends with the machine's answer |
| `Server.Defer` | internal/server/server.go:266-270 | the deferred cleanup deletes under the machine's condition |
| `Server.DeleteSandboxRequest` | internal/server/server.go:338-363 | has the effect of the system's delete step; 400, 403 and 500 exactly in their cases and 204 otherwise; no sandbox of that name in the namespace after a 204, and no change after any other code |
| `Server.DeleteOutsideNamespace` | internal/server/server.go:344-350 | a name that only another namespace has answers 204 and leaves that sandbox in place |
| `UserDataRewrite.GenerateUserData` | provider.go:130-176 | other generators and non-positive caps are rendered as they are; otherwise the adjusted files with the two drop-ins, or the rewrite's error; the input array is not modified |
| `UserDataRewrite.AdjustFiles` | provider.go:136-174 | the in-place loop over the copied list computes the file-wise specification, including which error comes first |
| `UserDataRewrite.AdjustsExactlyWellFormed` | provider.go:138-167 | the rewrite succeeds exactly when there is a forwarder file and every one is a document with a numeric MTU |
| `UserDataRewrite.CapFileErrs` | provider.go:143-161 | which error a forwarder file gives: no object, no pod-network object, no numeric mtu, or not printable |
| `UserDataRewrite.FirstErrorWins` | provider.go:139-164 | the rewrite fails with the error of the first file that is refused |
| `UserDataRewrite.AdjustPreservesTheRest` | provider.go:136-174 | number, order, paths and attributes of files, other files' contents and all other fields are kept; each MTU is capped; the drop-ins come last |
| `UserDataRewrite.CapFilesPointwise` | provider.go:139-164 | the loop succeeds exactly when each file does and then treats each file by itself |
| `UserDataRewrite.CappedIsMinimumIff` | provider.go:155-157 | the MTU becomes the minimum of MTU and cap exactly when it is not strictly between the cap and the next integer, so for every integer |
| `UserDataRewrite.FractionalMtuExceedsCap` | provider.go:155-157 | an MTU of 1400.5 survives a cap of 1400 |
| `UserDataRewrite.CapFilesComposes` | provider.go:139-164 | capping by a and then by b gives the same files as capping by the smaller one |
| `UserDataRewrite.SourceWorkloadReference` | provider.go:87-113 | the loop yields the reference in the first forwarder file, or the fallback |
| `UserDataRewrite.ReferenceNamesWorkload` | provider.go:93-112 | the reference has pod-namespace and pod-uid of the first forwarder file and its pod-name, or the fallback when that is empty; absent and null read as empty, and anything else gives the bare fallback |
| `UserDataRewrite.AdjustKeepsReference` | provider.go:87-113 | the workload reference is the same before and after the rewrite |
| `UserDataRewrite.DecimalCodecIsFaithful` | provider.go:143-163 | the hypothesis on parsing and printing is met, for every cap, by a codec with forwarder documents of every integer MTU |
| `Processes.WatchDecides` | cmd/peer-pod-node/main.go:341-365 | a wait has the result of its first deciding tick: the path, else the first finished process, else that tick's cancellation or timeout; it has none only if no tick decides |
| `Supervision.Host.WaitForPath` | cmd/peer-pod-node/main.go:341-365 | the polling loop has the result, the log and the remaining schedule of that wait |
| `Processes.GlanceIs` | cmd/peer-pod-node/main.go:347-363 | one look finds the path, else the first process of the list that has exited, else the cancellation or timeout of its tick |
| `Processes.AttemptLeavesIff` | cmd/peer-pod-node/main.go:199-213 | an attempt ends with the kubelet's exit exactly when it starts and at the first deciding tick there is no socket, the attempt has not exited and the kubelet has; with a failed start exactly when the start fails; with its socket exactly when that is there at the first deciding tick |
| `Processes.AttemptStopsIff` | cmd/peer-pod-node/main.go:206-213 | it just stops exactly when it exits by itself first, or is cancelled or times out, is signalled and then exits |
| `Processes.BringEndsIff` | cmd/peer-pod-node/main.go:190-222 | the loop ends like its first attempt that does not just stop, and is given up exactly when the pause after a stopped attempt is cancelled or past the deadline |
| `Processes.BringConnectsIff` | cmd/peer-pod-node/main.go:199-205 | it returns a failed start exactly when some attempt that begins fails to start, and attempt p exactly when some attempt is p and finds its socket |
| `Processes.BringLeavesIff` | cmd/peer-pod-node/main.go:187-223 | the whole loop leaves attempt p behind exactly when some attempt, after stopped ones only, is process p and meets that condition |
| `Processes.AdaptorWorldIff` | cmd/peer-pod-node/main.go:78-115 | the adaptor is brought up exactly when containerd starts, its socket is there at the first deciding tick, the kubelet starts and the plugin can be hashed |
| `Processes.AbandonedIff` | cmd/peer-pod-node/main.go:78-118 | the program leaves attempt p behind exactly when it comes to start the adaptor and the loop leaves p behind |
| `Processes.BringIsOrderly` | cmd/peer-pod-node/main.go:187-223 | attempts start only after all earlier ones have exited, and at the end none runs besides the one returned or left behind |
| `Supervision.Host.TryCAA` | cmd/peer-pod-node/main.go:191-213 | one round of the loop has the result, log and remaining schedule of one attempt |
| `Supervision.Host.RepeatCAA` | cmd/peer-pod-node/main.go:190-222 | the loop has the result, log and remaining schedule of the attempts in a row |
| `Supervision.Host.StartCAA` | cmd/peer-pod-node/main.go:187-223 | attempts never overlap; at return none runs besides the returned one; an attempt is left behind, unsignalled and with the kubelet gone, if and only if some attempt meets the condition above |
| `Processes.LastComesFirst` | cmd/peer-pod-node/main.go:290-298 | the order of signals and waits is the reverse of the list: what is put at its end comes first |
| `Supervision.Host.Terminate` | cmd/peer-pod-node/main.go:289-313 | every started process is signalled, last first, before the first wait, and the waits follow the same order; at return each has exited or was sent SIGKILL; without a passed deadline all have exited and none was killed |
| `Supervision.Host.SignalAll` | cmd/peer-pod-node/main.go:290-294 | a process gets SIGTERM exactly if it is in the list and was started, in reverse order |
| `Supervision.Host.AwaitAll` | cmd/peer-pod-node/main.go:296-312 | waits for the started processes last first; it ends with all of them exited or with the deadline passed, and kills nothing |
| `Supervision.Host.KillRemaining` | cmd/peer-pod-node/main.go:305-309 | exactly started processes that have not exited are killed, and afterwards each started one has exited or was killed |
| `Supervision.Host.Run` | cmd/peer-pod-node/main.go:52-153 | when the program ends, every process it started has exited or was sent SIGKILL, except the attempt that the schedule makes it abandon, if any |
| `Supervision.KubeletExitLeavesAttempt` | cmd/peer-pod-node/main.go:202-209 | a schedule under which the program ends while an adaptor attempt has neither exited nor been signalled |
| `Counterexamples.OverlappingCreatesLoseUserData` | internal/server/server.go:271-302 | for every valid request there is a run of two overlapping creates without any failing environment call that ends with an API-created sandbox without userdata Secret |
| `Counterexamples.BornWithoutUserData` | internal/server/server.go:298-303 | a run of two overlapping creates in which the sandbox is created after its Secret has been dropped |
| `Counterexamples.LateOwnerLosesUserData` | internal/server/server.go:303-306 | a run in which no creation fails and a late ownership update gets the successor's Secret collected |
| `Counterexamples.CleanupDeletesSuccessor` | internal/server/server.go:264-270 | a run in which the cleanup of one request deletes the sandbox of another |
| `Counterexamples.LeftOverSecretIsReused` | internal/server/server.go:282-302 | a run of two consecutive requests in which a failed drop makes the second sandbox use the first request's userdata |
| `Counterexamples.JoinIgnoresUserData` | internal/server/server.go:308-324 | a run that answers 201 to a joining request whatever its userdata, with the stored Secret unchanged |
| `Counterexamples.LazyCollectionAdoptsRunner` | internal/controller/podsandbox_controller.go:76-91 | a run with lazy collection after which a ready sandbox has the runner of a deleted one |
| `Counterexamples.FailureReportCanBeLost` | internal/controller/podsandbox_controller.go:65-71 | a stopped runner with a RunnerFailed report that the next fault-free reconciliation replaces |
| `Counterexamples.LargestGuestOverflowsLimit` | internal/controller/podsandbox_controller.go:139 | the largest guest memory gives a negative memory limit |
| `Counterexamples.ClassClaimsNamespace` | internal/controller/podsandbox_controller.go:153-159 | a workload without namespace gets the namespace annotation of its class |
| `Counterexamples.RecreatedClassKeepsRunner` | internal/controller/podsandbox_controller.go:86-91 | a run in which a class is replaced by another of the same generation and its runners are kept |

## Left out

- `client.go`, `manager.go`, `config.go` and the command wiring: flags, HTTP plumbing and network calls.
- `cmd/runner` beyond the parsing of three flags and the capacity guard: foreign commands, sockets and disk tools.
- `getConfig`, `healthHandler` and `CreateInstance`: they would only add easy members.
- Volumes, images, security context, probes and constant arguments of the runner pod: constant records.
- SHA-256, random tokens, `ensureTokenSecret` and constant-time comparison: names are an arbitrary function, comparison is equality.
- JSON and YAML text, and the case-insensitive matching of struct keys: documents are trees behind an arbitrary codec.
- Floating-point rounding: numbers are reals, so the conversion of a float beyond the int range is not modelled.
- Wall-clock durations, stale caches and leader election: time is a schedule, reads are fresh.
- Finalizers: a sandbox marked for deletion is skipped by the controller until it is removed.
- Resource versions: an update of the userdata Secret is judged by its data only, not by whether the object was replaced in between.
- `prepareKubeletConfig`, `cleanupNetworkNamespaces` and directory setup of the node: file system work.
- Access.ResolveToken: does not model a failing list call or a failing read other than a missing token secret, which answer 503 like the modelled errors.
- Server.DeleteSandboxRequest: does not model a change of the sandbox between its check and its deletion.
- Controller.ApiServer.Reconcile: does not model interleaving inside one reconciliation.
- UserDataSecrets.ApiCreatedKeepsUserData: states serialised creates as a sufficient condition; without them the promise is false, and `KeepsUserDataIff` is exact.
- Readiness.PodsStayOwned: states eager collection as a sufficient condition; `RunnersAreOwnIff` is exact.
