# Controller mesh: a verified model

This project models the parts of the controller mesh where state, faults and arithmetic meet, and proves what
they promise. The mesh puts a proxy beside each replica of a controller; the manager assigns every replica a
shard of the objects, and the proxies enforce it.

- **Dispatch of shard specs** (`SpecManager`, `Reconciler`, `Dispatch`, `Progress`, `Convergence`). The proxy keeps an expected
  and a current spec in two append-only files. The manager's controller passes over the pods of a shard: it waits
  until every pod is settled, then deletes, updates or dispatches, one kind of work per pass. The protocol is a
  transition system with message queues, failing calls, lost connections, crashes and restarts in any order; the
  invariants hold in every run, in runs without faults the work is bounded by a rank, and convergence stays possible,
  with the exact exceptions.
- **Sharding** (`AutoSharding`, `NameHash`, `Decimal`, `Selectors`, `Ownership`). From the hash of a namespace
  name over the generated child configs to the selector that a proxy merges with the client's own: each object is
  listed by exactly one shard, with the exact exceptions.
- **Query rewriting** (`RawQuery`, `Injection`). The raw query as a map and back, and the selector put into it.
- **The atomic writer** (`AtomicWriter`, `AtomicWrite`). The directory of the webhook certificates, written
  through a timestamped directory and a renamed link. Each directory operation is a step; a Write may stop after
  any of them.
- **The circuit breaker** (`BreakerRules`, `BreakerState`, `BreakerStore`, `InterceptStore`, `BreakerLookup`,
  `RestLookup`, `BreakerLease`, `BreakerValidation`, `BreakerRequest`, `BreakerManager`). Configs come in by Sync
  and are kept as flat, indexed stores of rules; a request is judged by the most specific rules, whose breakers
  open and are closed again by a lease.
- **Rollout** (`Rollout`). Pods are upgraded shard by shard, the leader last.

Code that changes fields or runs loops is modelled by classes and methods, each proved against a pure function;
the laws are lemmas about these functions and about all runs of the transition systems. In a transition system a
step that is not enabled changes nothing, so every sequence of steps is a run.

Where the code does not do what its comments or names say, the model follows the code. Each such place has a
counterexample or an exact condition among the members below:

- spec files are appended to, so a restart can bring back old limits under the current hash (`Specs.RestartCanMixLimits`);
- the end of an old connection drops the expectation set for a new one (`Dispatch.LateDisconnectLosesExpectation`);
- a temporary link left behind stops the writer for good (`AtomicWriter.CrashBeforeSwapBlocksWriter`);
- path validation looks at the path before it is cleaned (`AtomicWrite.DotPathIsAccepted`), and a path with the name
  of one of the two links then breaks later Writes (`AtomicWriter.HarmlessIff`, `AtomicWriter.TwoWritesLoseData`);
- the reason against a spec is still reported after a spec that was loaded (`Specs.StaleReasonIff`,
  `Specs.ReasonIsNeverCleared`);
- a spec with an empty list of limits is sent, and dropped by the proxy, and the shard then waits for its
  acknowledgement (`Progress.ActionsAreBounded`, `Progress.EmptyLimitsBlock`, `Convergence.CanConvergeIff`);
- the filter for canary hashes filters nothing (`AutoSharding.ClearSame`), two canary lists are a conjunction for
  the canary and a disjunction for the shards (`Ownership.TwoListsOrphanObjects`), and a missing canary config is
  dereferenced (`AutoSharding.Root.GetChild`);
- where two selectors require one label, merging keeps one value (`Selectors.MergeIsConjunctionIff`), so a client's
  label overrides a limit (`Ownership.ClientOverridesLimit`);
- modulo 32 the name hash ignores the order of characters (`NameHash.PermutedNamesCollide`);
- the leader is recognised by a name prefix (`Rollout.PrefixHidesAPeer`);
- a force-closed rule overrides the rules listed before it (`BreakerValidation.OrderIrrelevantIff`);
- lookup keys are joined by colons, so a request with a colon can find a rule that does not match it
  (`BreakerLookup.LookupsEqualScanIff`);
- a rule that is to open its breaker and has no recover policy is a nil dereference (`BreakerValidation.ApplyRule`);
- the lease goes by key, so a rule created anew can stay open (`BreakerLease.RecreatedRuleIsStuck`);
- deleted intercept rules still count for the default verdict (`InterceptStore.DefaultVerdictIff`,
  `BreakerManager.WhitelistOutlivesConfig`);
- checking an unknown config dereferences a missing record (`BreakerManager.Manager.SyncCheck`).

`dafny verify dfyconfig.toml` checks the whole project.

## Model

| member | source | states |
|---|---|---|
| `Specs.SpecManager.constructor` | pkg/proxy/proto/proto_manager.go:57-79 | A start loads the merged records of both files and then takes the expected spec as an update, as the pure restart function does; memory and files are then consistent. |
| `Specs.SpecManager.UpdateSpec` | pkg/proxy/proto/proto_manager.go:91-107 | A received spec becomes expected on disk and in memory, and current too exactly when nothing is loaded or shard name and hash are those of the current spec; otherwise a reason is set. The consistency of memory and files is kept. |
| `Specs.SpecManager.CheckLoadable` | pkg/proxy/proto/proto_manager.go:134-150 | No reason is given exactly when nothing is loaded yet or shard name and hash are those of the current spec; otherwise the reason gives both values of the one that differs first. |
| `Specs.SpecManager.GetStatus` | pkg/proxy/proto/proto_manager.go:109-123 | A status exists exactly when a current spec does; it has the two hashes in force, the leader state and the reason, which is the one for the expected spec whenever that is not the current one. |
| `Specs.SpecManager.UpdateLeaderElection` | pkg/proxy/proto/proto_manager.go:81-89 | The leader state is stored, and a report is due exactly when it changed. |
| `Specs.EventKeepsConsistent` | pkg/proxy/proto/proto_manager.go:91-107 | Every event of a proxy, with write faults, crashes and restarts at any point, keeps memory and files consistent and never changes the meta of a current spec that is set. |
| `Specs.CurrentIsWriteOnce` | pkg/proxy/proto/proto_manager.go:134-150 | Over all runs from empty files: shard name and hash of the current spec never change once set, across crashes and restarts. |
| `Specs.StatusAlwaysDefined` | pkg/proxy/proto/proto_manager.go:109-123 | In every reachable state of a running proxy the status can be built, and is there exactly when the current file is not empty. |
| `Specs.MergeKeepsMeta` | pkg/proxy/proto/strorage.go:69-92 | The files are appended to; loading merges all records and keeps the common meta. |
| `Specs.MergeTakesLast` | pkg/proxy/proto/strorage.go:69-92 | Loading takes shard name and hash each from the last record that has one. |
| `Specs.MergeCollectsLimits` | pkg/proxy/proto/strorage.go:69-92 | Loading collects the limits of all records ever appended. |
| `Specs.RestartKeepsLimitsIff` | pkg/proxy/proto/strorage.go:94-118 | A crash and restart keeps the hash always, and the set of limits in force exactly when the reloaded file holds those limits and no others. |
| `Specs.RestartCanMixLimits` | pkg/proxy/proto/strorage.go:107-118 | After specs a, b, a a restart puts the limits of b in force under the hash of a. |
| `Specs.StaleAfterIff` | pkg/proxy/proto/proto_manager.go:91-107 | A running proxy reports a reason although its specs agree, after an event, exactly when it received a spec that it could load and had a reason before; a restart never leaves one. |
| `Specs.StaleReasonIff` | pkg/proxy/proto/proto_manager.go:91-107 | After any specs received without faults, from any consistent state, this is so exactly when the last one has the identity of the current spec and another did not, or a reason was there before. |
| `Specs.ReasonIsNeverCleared` | pkg/proxy/proto/proto_manager.go:91-107 | Such a run from empty files: after specs a, b, a the hashes agree again and the reason against b is still reported. |
| `Reconciler.Scanned` | pkg/manager/controllers/shardingconfigserver/shardingconfig_controller.go:113-174 | How far the gate loop gets: every pod before does not stop the pass, and the pod at that place does. |
| `Reconciler.ScannedAll` | pkg/manager/controllers/shardingconfigserver/shardingconfig_controller.go:113-174 | The pass gets through exactly when no pod stops it. |
| `Reconciler.PassesIff` | pkg/manager/controllers/shardingconfigserver/shardingconfig_controller.go:113-174 | The pass gets through exactly when every pod that has ended or is being deleted has no running container, and every other is not under deletion, is connected when ready or just created, and has reported the hash expected of it on a standing connection. |
| `Reconciler.PassClearsExpectations` | pkg/manager/controllers/shardingconfigserver/shardingconfig_controller.go:159-166 | A pass that gets through leaves no hash expectation of an active pod. |
| `Reconciler.TargetsAreAdmitted` | pkg/manager/controllers/shardingconfigserver/shardingconfig_controller.go:180-273 | Every pod acted on is active, let through, connected, not under deletion, and of the one chosen class. |
| `Reconciler.ReconciledAt` | pkg/manager/controllers/shardingconfigserver/shardingconfig_controller.go:228-273 | The tables at any one pod after a pass: its expectation, its connection, and its send counter, which grows by one exactly when the pass sends to it, failed or not. |
| `Reconciler.IdleIffConverged` | pkg/manager/controllers/shardingconfigserver/shardingconfig_controller.go:223-226 | A pass that gets through finds nothing to do exactly when every admitted pod was sent to and reports the hash of the shard as expected and current. |
| `Reconciler.WorkInOrder` | pkg/manager/controllers/shardingconfigserver/shardingconfig_controller.go:199-272 | What a pass that gets through acts on: when some connected pod is stale, only deletes, and leaders only when all stale pods are leaders; otherwise updates of pods with another hash; otherwise first sends. |
| `Reconciler.WorkListMembers` | pkg/manager/controllers/shardingconfigserver/shardingconfig_controller.go:180-221 | Each work list holds exactly the admitted pods of its class. |
| `Reconciler.ChosenList` | pkg/manager/controllers/shardingconfigserver/shardingconfig_controller.go:223-272 | The first work list that is not empty, in the order non-leaders, leaders, updates, dispatches, holds exactly the pods acted on. |
| `Reconciler.Controller.Check` | pkg/manager/controllers/shardingconfigserver/shardingconfig_controller.go:115-173 | The decision on one pod is that of the pure inspection, it stops exactly at a pod that is not as the pass waits for, and only a met expectation is dropped. |
| `Reconciler.Controller.Gate` | pkg/manager/controllers/shardingconfigserver/shardingconfig_controller.go:113-174 | The loop passes exactly when no pod stops it; expectations met before the stop are dropped even then. |
| `Reconciler.Controller.Sort` | pkg/manager/controllers/shardingconfigserver/shardingconfig_controller.go:180-221 | The four lists are the admitted pods of each class, in list order. |
| `Reconciler.Controller.DeleteAll` | pkg/manager/controllers/shardingconfigserver/shardingconfig_controller.go:228-246 | All deletes but the failed ones are expected; the error is that of the last call. |
| `Reconciler.Controller.SendAll` | pkg/manager/controllers/shardingconfigserver/shardingconfig_controller.go:249-272 | All sends are counted and the successful ones expected; the error is that of the last call. |
| `Reconciler.Controller.Act` | pkg/manager/controllers/shardingconfigserver/shardingconfig_controller.go:223-272 | Exactly one list is acted on, in the order non-leaders, leaders, updates, dispatches. |
| `Reconciler.Controller.Reconcile` | pkg/manager/controllers/shardingconfigserver/shardingconfig_controller.go:113-273 | The whole pass is the pure step that the protocol proofs use; nothing is sent while a pod is stale or not as the pass waits for, and nothing deleted unless one is stale; an error means that a call on a target failed. |
| `Reconciler.Controller.Register` | pkg/manager/controllers/shardingconfigserver/grpc_server.go:85-121 | A first message is accepted exactly from a found active pod; then a new connection replaces the stored one and the expectation is dropped. |
| `Reconciler.Controller.Receive` | pkg/manager/controllers/shardingconfigserver/grpc_server.go:125-148 | A report overwrites the status of its own connection. |
| `Reconciler.Controller.Disconnect` | pkg/manager/controllers/shardingconfigserver/grpc_server.go:150-160 | The end of a connection marks that connection and drops the expectation of the pod, also when a newer connection is stored. |
| `Reconciler.Controller.PodDeleted` | pkg/manager/controllers/shardingconfigserver/event_handler.go:83-98 | A pod that is gone loses both expectations. |
| `Dispatch.StepIsSafe` | pkg/manager/controllers/shardingconfigserver/shardingconfig_controller.go:113-273 | Every step of manager, proxy or environment, enabled or not, keeps the protocol invariant. |
| `Dispatch.AlwaysSafe` | pkg/manager/controllers/shardingconfigserver/shardingconfig_controller.go:113-273 | Over all runs: the outstanding expectations of the active pods of a shard carry one hash and belong to pods with a stored connection, and a pod deleted by the controller and still seen is marked as under deletion. |
| `Dispatch.ReconcileExpectations` | pkg/manager/controllers/shardingconfigserver/shardingconfig_controller.go:159-166 | A pass leaves no expectations but the new ones when it sends, and otherwise only old ones. |
| `Dispatch.LeaderLast` | pkg/manager/controllers/shardingconfigserver/shardingconfig_controller.go:199-246 | After any run, a pass that deletes sends nothing, deletes only stale pods that it did not delete before, waits until earlier deleted pods have no running container, and deletes a leader only when every active stale pod is a leader. |
| `Dispatch.SendsComeLast` | pkg/manager/controllers/shardingconfigserver/shardingconfig_controller.go:113-272 | After any run, a pass that sends has found no active connected pod stale, every active ready or just created pod connected and every deleted pod without a running container, and sends first specs only when no connected pod has another one. |
| `Dispatch.StepKeepsWaitingIff` | pkg/manager/controllers/shardingconfigserver/grpc_server.go:150-160 | A step keeps every owed acknowledgement guarded by an expectation exactly when it is not the end of an old connection of a pod that owes one. |
| `Dispatch.AlwaysWaiting` | pkg/manager/controllers/shardingconfigserver/shardingconfig_controller.go:159-166 | In every run without such late ends all owed acknowledgements stay guarded. |
| `Dispatch.WaitingThroughoutIff` | pkg/manager/controllers/shardingconfigserver/grpc_server.go:150-160 | At every point of a run all owed acknowledgements are guarded, exactly when no such late end is in it. |
| `Dispatch.SendWaitsForAcknowledgements` | pkg/manager/controllers/shardingconfigserver/shardingconfig_controller.go:159-166 | In such a run no pass acts on any pod while an active pod owes an acknowledgement of an earlier spec. |
| `Dispatch.LateDisconnectLosesExpectation` | pkg/manager/controllers/shardingconfigserver/grpc_server.go:150-155 | A late end of an old connection does break this: a run in which spec b is sent while spec a is not acknowledged. |
| `Progress.AdmittedReportsAgree` | pkg/manager/controllers/shardingconfigserver/shardingconfig_controller.go:148-174 | In a settled state a pod is let through only when all its reports under way agree with the one stored, so it is classified by what it will report in the end. |
| `Progress.ReconcileSettlesIff` | pkg/manager/controllers/shardingconfigserver/shardingconfig_controller.go:113-273 | A pass keeps a settled state settled exactly when it does not send a spec without limits, which the proxy drops, to a pod that does not report its hash; such a pod is then blocked. |
| `Progress.ReconcileDescends` | pkg/manager/controllers/shardingconfigserver/shardingconfig_controller.go:223-272 | The work of a pass is at most the sum of the pods' ranks, and lowers it by at least as much unless a spec is dropped. |
| `Progress.CalmStep` | pkg/manager/controllers/shardingconfigserver/shardingconfig_controller.go:113-273 | A step of a fault-free run under a fixed spec, with or without limits, keeps the state settled exactly when no spec is dropped, and then does not raise the sum of ranks; otherwise some pod is blocked. |
| `Progress.ActionsAreBounded` | pkg/manager/controllers/shardingconfigserver/shardingconfig_controller.go:223-272 | Over all fault-free runs under a fixed spec, with or without limits, the number of updates, deletes and dispatches is bounded by the ranks at the start; the run stays settled exactly when no spec is dropped, and otherwise ends with a blocked pod. |
| `Progress.BlockedForever` | pkg/proxy/proto/grpc.go:213-221 | While a pod is blocked no pass acts on any pod, whatever specs are sent and whatever fails elsewhere, until that pod reconnects, restarts or goes. |
| `Progress.EmptyLimitsBlock` | pkg/proxy/proto/grpc.go:213-221 | It is reached from the start: a pod connects and is sent a spec without limits, and no later pass acts on any pod. |
| `Progress.UnconnectedIsSettled` | pkg/manager/controllers/shardingconfigserver/grpc_server.go:85-121 | A shard without connections, with whatever its proxies loaded for it, is a settled start. |
| `Progress.IdleMeansConverged` | pkg/manager/controllers/shardingconfigserver/shardingconfig_controller.go:223-226 | When a pass finds nothing to do in a settled state, every active connected proxy itself has the new spec as expected and current, not only its last report. |
| `Progress.QuietPassWorksOrIsDone` | pkg/manager/controllers/shardingconfigserver/shardingconfig_controller.go:113-273 | When the queues are empty, the reports delivered and the containers of inactive pods gone, the gate is open: the next pass acts on some pod, or every active pod has rank 0 and no work is left. |
| `Convergence.CanConvergeIff` | pkg/manager/controllers/shardingconfigserver/shardingconfig_controller.go:113-273 | From a settled state, with everything under way, some fault-free run under the fixed spec reaches a state in which all pods are in place and have the spec, exactly when the spec has limits or all pods are in place and will report it by themselves. |
| `Convergence.NoRankLeftIff` | pkg/manager/controllers/shardingconfigserver/shardingconfig_controller.go:223-272 | The ranks are used up exactly when every pod has been sent the spec and will report it, none is to go, and none is still to be replaced. |
| `AtomicWriter.OpIsAtomic` | pkg/webhook/util/writer/atomic/atomic_writer.go:121-224 | For every payload without the names of the two links at the top, every directory operation keeps what is read through the data link, except the rename, which shows the whole new payload. |
| `AtomicWriter.SwapShowsPayload` | pkg/webhook/util/writer/atomic/atomic_writer.go:194-207 | The rename switches to the complete new payload. |
| `AtomicWriter.OpKeepsInv` | pkg/webhook/util/writer/atomic/atomic_writer.go:121-224 | With no reserved names at the top every operation keeps the visible names in order as well. |
| `AtomicWriter.RunKeepsInv` | pkg/webhook/util/writer/atomic/atomic_writer.go:121-224 | So does every sequence of Writes of such payloads, each stopped after any operation. |
| `AtomicWriter.RunKeepsIntact` | pkg/webhook/util/writer/atomic/atomic_writer.go:121-224 | Every sequence of Writes, each stopped after any operation, of payloads without the names of the two links at the top keeps the directory intact. |
| `AtomicWriter.AlwaysOnePayload` | pkg/webhook/util/writer/atomic/atomic_writer.go:85-120 | After any such sequence what is read through the data link is one complete payload, the one shown at the start or one offered since. |
| `AtomicWriter.AlwaysVisible` | pkg/webhook/util/writer/atomic/atomic_writer.go:85-120 | With no reserved names at the top each visible path shows exactly what this payload gives it. |
| `AtomicWriter.TmpBlocksForever` | pkg/webhook/util/writer/atomic/atomic_writer.go:186-192 | While a temporary link is left over no Write ever reaches the rename. |
| `AtomicWriter.CrashBeforeSwapBlocksWriter` | pkg/webhook/util/writer/atomic/atomic_writer.go:186-207 | A Write stopped between creating the temporary link and the rename freezes the files shown for good. |
| `AtomicWriter.CanBeShownIff` | pkg/webhook/util/writer/atomic/atomic_writer.go:165-207 | From an intact directory some run comes to show a payload that is not shown already exactly when no temporary link is left over. |
| `AtomicWriter.WriterCanBeBlocked` | pkg/webhook/util/writer/atomic/atomic_writer.go:186-207 | From an empty directory a Write does get between the temporary link and the rename; stopped there, no later run ever shows anything. |
| `AtomicWriter.HarmlessIff` | pkg/webhook/util/writer/atomic/atomic_writer.go:165-224 | Among the payloads that can be stored, those that keep the promise in all runs of Writes from an empty directory are exactly those without the names of the two links at the top. |
| `AtomicWriter.TwoWritesLoseData` | pkg/webhook/util/writer/atomic/atomic_writer.go:194-223 | A Write of a payload with the name of the data link at the top and then a Write of any other payload: both complete every operation, and then nothing is shown. |
| `AtomicWriter.AdvanceKeepsNames` | pkg/webhook/util/writer/atomic/atomic_writer.go:416-455 | No operation of a Write that goes on changes the set of visible names it will end with. |
| `AtomicWrite.ValidatePath` | pkg/webhook/util/writer/atomic/atomic_writer.go:248-278 | The path checks accept exactly the relative paths of at most 4096 characters whose elements are none of them two dots or longer than 255 characters and whose first is not a longer one that starts with two dots; what is accepted cleans to a path without two-dot elements. |
| `AtomicWrite.StaysInside` | pkg/webhook/util/writer/atomic/atomic_writer.go:227-278 | An accepted path stays below the directory: walking it element by element never goes back, and it cleans to its proper elements, each a possible file name. |
| `AtomicWrite.ReservedAfterCleaningIff` | pkg/webhook/util/writer/atomic/atomic_writer.go:248-278 | A valid path starts with a reserved name after cleaning exactly when its first element is a dot and the first that is neither empty nor a dot starts with two dots. |
| `AtomicWrite.DotPathIsAccepted` | pkg/webhook/util/writer/atomic/atomic_writer.go:248-278 | Any reserved name within the length limit, those of the two links included, is accepted behind a dot element and cleans to itself. |
| `AtomicWrite.ValidatePayload` | pkg/webhook/util/writer/atomic/atomic_writer.go:227-238 | Accepted exactly when all paths are valid; then every file is there under its cleaned path, and none of these has a two-dot element. |
| `AtomicWrite.ShouldWrite` | pkg/webhook/util/writer/atomic/atomic_writer.go:281-309 | No write is needed exactly when every file of the payload is there with its content; an error only when some file cannot be looked at, and a write only for a file that can. |
| `AtomicWrite.ClashesIff` | pkg/webhook/util/writer/atomic/atomic_writer.go:281-309 | A path cannot be looked at exactly when it is the directory itself, a directory in it, or below a file. |
| `AtomicWrite.SubPaths` | pkg/webhook/util/writer/atomic/atomic_writer.go:334-343 | The loop over all parents of all files gives exactly the prefixes of the paths. |
| `AtomicWrite.PathsToRemove` | pkg/webhook/util/writer/atomic/atomic_writer.go:314-351 | The paths of the old payload that the new one does not have, and its left-over top-level names. |
| `AtomicWrite.NothingToDoMeansSame` | pkg/webhook/util/writer/atomic/atomic_writer.go:153-163 | When nothing is written and nothing removed, the payload is what is shown already. |
| `AtomicWrite.Compare` | pkg/webhook/util/writer/atomic/atomic_writer.go:129-163 | Steps 2 to 4: the version shown, the names left over, that skipping a Write is right, that a payload shown already is skipped, and when a file in the way is an error. |
| `AtomicWrite.NamesExactIff` | pkg/webhook/util/writer/atomic/atomic_writer.go:440-455 | The visible names are the top-level names of the payload exactly when no other name was left over from before. |
| `AtomicWrite.Writer.FillDir` | pkg/webhook/util/writer/atomic/atomic_writer.go:375-404 | The payload is written file by file, in any order, with torn writes; it works out when no call fails by itself and the payload can be stored. |
| `AtomicWrite.Writer.LinkAll` | pkg/webhook/util/writer/atomic/atomic_writer.go:416-436 | All missing visible links are made. |
| `AtomicWrite.Writer.UnlinkAll` | pkg/webhook/util/writer/atomic/atomic_writer.go:440-455 | All names left over are removed; an error does not end the loop. |
| `AtomicWrite.Writer.PointTemporary` | pkg/webhook/util/writer/atomic/atomic_writer.go:186-192 | The temporary link is made, or the new directory removed again; it is made whenever no call fails by itself and none is there. |
| `AtomicWrite.Writer.SwapData` | pkg/webhook/util/writer/atomic/atomic_writer.go:194-207 | The rename shows the payload, or both the link and the directory are removed again. |
| `AtomicWrite.Writer.Prepare` | pkg/webhook/util/writer/atomic/atomic_writer.go:165-184 | Steps 5 to 7 are a run of the transition system and change nothing that was there. |
| `AtomicWrite.Writer.Finish` | pkg/webhook/util/writer/atomic/atomic_writer.go:209-223 | Steps 10 and 11 keep the payload shown. |
| `AtomicWrite.Writer.Publish` | pkg/webhook/util/writer/atomic/atomic_writer.go:165-224 | Steps 5 to 11: the payload is shown on success, and otherwise it or what was shown before; success is certain when no call fails by itself, the payload can be stored and no temporary link is left over. |
| `AtomicWrite.Writer.Replace` | pkg/webhook/util/writer/atomic/atomic_writer.go:129-224 | The same for cleaned paths: comparison and publication together. |
| `AtomicWrite.Writer.Write` | pkg/webhook/util/writer/atomic/atomic_writer.go:121-224 | The whole Write, for every directory and payload: its operations are a run of the transition system; without the names of the two links at the top it shows its payload, or it fails and leaves the old one; for clean paths the visible names are the payload's exactly when no other was left over; and unless calls fail by themselves or a file is in the way it succeeds exactly when its files are shown already, or can be stored with no temporary link left over. It leaves no temporary link of its own, and after success the directory shown before is gone. |
| `RawQuery.ParseRawQuery` | pkg/utils/http/request.go:25-42 | The loop accepts exactly the queries whose pairs each have one equals sign, and gives each key the value of its last pair. |
| `RawQuery.ParsedMeans` | pkg/utils/http/request.go:25-42 | Parsing succeeds exactly when every pair has one equals sign, and then each key has the value of its last pair. |
| `RawQuery.MarshalRawQuery` | pkg/utils/http/request.go:44-55 | The keys are rendered in some order of the map. |
| `RawQuery.RenderParses` | pkg/utils/http/request.go:25-55 | Parsing what was rendered gives the map back, for every order, when keys and values are free of both separators. |
| `RawQuery.ParseIsClean` | pkg/utils/http/request.go:25-42 | Whatever is parsed is free of both separators. |
| `RawQuery.RoundTripIff` | pkg/utils/http/request.go:25-55 | The round trip holds exactly when keys and values are free of both separators. |
| `Injection.InjectSelector` | pkg/proxy/apiserver/injector.go:74-100 | Success exactly when the query and the client's selector parse and the merged selector has known operators; then the selector parameter becomes one that matches exactly what the merged selector selects, and no other parameter changes; on failure the query stays. |
| `Selectors.AsMatcher` | pkg/utils/selector.go:103-140 | The matcher matches exactly the label sets that the selector selects; an error exactly for an unknown operator. |
| `Selectors.OperatorsMean` | pkg/utils/selector.go:103-140 | What the four operators mean for the labels of an object, each by membership or as the negation of another. |
| `Selectors.LabelsMean` | pkg/utils/selector.go:103-118 | A selector without expressions selects exactly the label sets that contain its pairs. |
| `Selectors.MergeLabelSelector` | pkg/utils/selector.go:31-51 | A missing selector leaves the other as it is; two are merged, the second winning on labels. |
| `Selectors.MergedSelects` | pkg/utils/selector.go:31-51 | What both select, the merged selector selects; under agreement nothing else. |
| `Selectors.SatisfiableIff` | pkg/utils/selector.go:103-140 | Whether a selector selects anything is decided key by key from the values it names. |
| `Selectors.MergeIsConjunctionIff` | pkg/utils/selector.go:31-51 | Merging means conjunction exactly when the selectors agree on common labels or the merged one is not satisfiable. |
| `Selectors.EqualityMergeIsConjunctionIff` | pkg/utils/selector.go:31-51 | For selectors with equality labels only, agreement is the exact condition. |
| `Selectors.MergedMeans` | pkg/utils/selector.go:31-51 | What merging means for any two selectors: the second, the expressions of the first, and those labels of the first that the second does not set. |
| `Selectors.ContainsString` | pkg/apis/ctrlmesh/conv/convert.go:142-152 | True exactly when the list has the text or is a lone wildcard. |
| `Selectors.MatchesAny` | pkg/apis/ctrlmesh/conv/convert.go:127-140 | True exactly when some entry has the group and the resource, a lone wildcard standing for all. |
| `Selectors.GetObjectSelector` | pkg/apis/ctrlmesh/conv/convert.go:113-125 | The loop folds the selectors of the limits that concern the resource: there is one exactly when some limit does, and when those agree it selects what all of them select. |
| `Selectors.FoldedMeans` | pkg/apis/ctrlmesh/conv/convert.go:113-125 | What folding the limits means: none exactly when no limit concerns the resource, and the conjunction of those that do when they agree. |
| `Selectors.FoldedSelects` | pkg/apis/ctrlmesh/conv/convert.go:113-125 | When the applicable limits agree, the folded selector selects exactly what satisfies all of them, and there is one exactly when some limit applies. |
| `Selectors.FoldIsConjunctionIff` | pkg/apis/ctrlmesh/conv/convert.go:113-125 | The folded selector means all applicable limits exactly when these agree or it is not satisfiable. |
| `Selectors.DisagreementExcludesAll` | pkg/apis/ctrlmesh/conv/convert.go:113-125 | Limits that do not agree are satisfied by nothing. |
| `Selectors.LimitOrderIsIrrelevant` | pkg/apis/ctrlmesh/conv/convert.go:113-125 | The order of limits that agree does not matter. |
| `NameHash.Hash` | pkg/utils/rand/hash.go:19-26 | With 64-bit wrap-around and signed remainder, for every positive modulus: the value of the machine arithmetic, within the modulus on both sides, and the polynomial to the base 33 when no step can overflow. |
| `NameHash.HashesWellIff` | pkg/utils/rand/hash.go:19-26 | For all strings the result is the remainder of the polynomial exactly when no step can overflow; for a larger modulus some string gets another one. |
| `NameHash.MachineIsPolynomial` | pkg/utils/rand/hash.go:19-26 | When no step can overflow, the machine arithmetic gives the remainder of the polynomial for every string. |
| `NameHash.PolynomialMod32` | pkg/apis/ctrlmesh/constants/constants.go:33 | At the modulus in use the hash is the sum of the characters. |
| `NameHash.PermutedNamesCollide` | pkg/apis/ctrlmesh/constants/constants.go:33 | So names that are permutations of each other always get the same shard hash. |
| `AutoSharding.CeilingIsTight` | pkg/manager/controllers/shardingconfigserver/auto_sharding.go:259-262 | The batch size is the least that covers all hashes. |
| `AutoSharding.GetRange` | pkg/manager/controllers/shardingconfigserver/auto_sharding.go:259-270 | The loop gives the numerals of the interval between the two ends it reports, in order. |
| `AutoSharding.BatchesPartition` | pkg/manager/controllers/shardingconfigserver/auto_sharding.go:259-270 | Every hash is in the batch of exactly one shard, the one whose interval it lies in, also when the last batches are empty. |
| `AutoSharding.BatchWithinRange` | pkg/manager/controllers/shardingconfigserver/auto_sharding.go:259-270 | Batches hold nothing but numerals of hashes. |
| `AutoSharding.ClearSame` | pkg/manager/controllers/shardingconfigserver/auto_sharding.go:272-282 | Nothing is filtered out: the inner continue leaves the inner loop only. |
| `AutoSharding.GenNameInRange` | pkg/manager/controllers/shardingconfigserver/auto_sharding.go:284-289 | The pod names of an interval of ordinals, both ends included. |
| `AutoSharding.GenCanaryLimits` | pkg/manager/controllers/shardingconfigserver/auto_sharding.go:180-203 | Every limit with the canary requirements added. |
| `AutoSharding.GenShardingGlobalLimits` | pkg/manager/controllers/shardingconfigserver/auto_sharding.go:205-237 | Every limit with the requirements of a shard added. |
| `AutoSharding.GenNormal` | pkg/manager/controllers/shardingconfigserver/auto_sharding.go:139-176 | One shard: its pods, batch and limits. |
| `AutoSharding.GenNormals` | pkg/manager/controllers/shardingconfigserver/auto_sharding.go:139-176 | The loop over all shards. |
| `AutoSharding.Root.GetChild` | pkg/manager/controllers/shardingconfigserver/auto_sharding.go:92-178 | The generated children, one per shard and one for a canary exactly when it has a replica count and a list; nothing without auto config, a nil dereference without canary config, and a replica count set to 0 when no canary is generated. |
| `Ownership.AtMostOneOwner` | pkg/manager/controllers/shardingconfigserver/auto_sharding.go:180-237 | No object is taken by two children of a root config, whatever its labels. |
| `Ownership.OwnedOnceIff` | pkg/manager/controllers/shardingconfigserver/auto_sharding.go:205-237 | Without a positive canary replica count an object is taken twice exactly when the canary takes it. |
| `Ownership.SomeOwnerIff` | pkg/manager/controllers/shardingconfigserver/auto_sharding.go:180-237 | An object with a hash in range is taken by some child exactly when it is not in one of two set canary lists only: by the canary when that takes it, and otherwise by the shard whose interval has its hash. |
| `Ownership.TwoListsOrphanObjects` | pkg/manager/controllers/shardingconfigserver/auto_sharding.go:180-237 | Two set canary lists do leave objects without an owner. |
| `Ownership.ManagesIff` | pkg/apis/ctrlmesh/conv/convert.go:113-125 | When the limits of the root agree, a child lists exactly the objects within them that it takes: generated limits, fold and matching together. |
| `Ownership.ManagesIsConjunctionIff` | pkg/apis/ctrlmesh/conv/convert.go:113-125 | It does so for all objects exactly when the limits of the root agree or the selector of the child is not satisfiable. |
| `Ownership.OneOwnerPerObject` | pkg/webhook/ns/namespace_mutating_handler.go:68-84 | From the namespace name to the selector of the proxy: an object within the limits is selected by exactly one child, unless orphaned by two canary lists, and then by none. |
| `Ownership.ListedIsTaken` | pkg/proxy/apiserver/injector.go:74-100 | Whatever selector the client sends, a child answers only with objects that it takes and the client asked for. |
| `Ownership.AtMostOneLister` | pkg/proxy/apiserver/injector.go:74-100 | No two clients, whatever they ask for, get one object from two children. |
| `Ownership.OneListerPerObject` | pkg/proxy/apiserver/injector.go:74-100 | From the namespace name to the answer: an object within the limits that the client asks for is listed by exactly one child, unless orphaned by two canary lists, and then by none. |
| `Ownership.ListsIsConjunctionIff` | pkg/proxy/apiserver/injector.go:74-100 | A client gets exactly what the child selects and it asks for, exactly when its labels agree with those of the child's selector or the merged selector is not satisfiable. |
| `Ownership.ClientOverridesLimit` | pkg/proxy/apiserver/injector.go:74-100 | Otherwise the client's label wins: under a limit to team a, a client that asks for team b gets objects outside the limits. |
| `Ownership.OneShardPerPod` | pkg/manager/controllers/shardingconfigserver/auto_sharding.go:100-151 | By the meaning of the generated pod selectors: every pod of the stateful set that the root's own selector selects is selected by exactly one child, the canary for the first ordinals and then the shards in turn; one that it does not select is selected by none. |
| `Ownership.RunsOnIff` | pkg/manager/controllers/shardingconfigserver/auto_sharding.go:100-151 | A child selects a pod exactly when the root's pod selector does and the ordinal is one of the child's. |
| `Ownership.NamesDiffer` | pkg/manager/controllers/shardingconfigserver/auto_sharding.go:100-151 | No two children have one name. |
| `Rollout.Upgrade` | pkg/manager/controllers/rollout/rollout_controller.go:215-271 | Upgrading one shard gives a result that the pure description allows, for every order of deletion, and that means pod by pod what it should. |
| `Rollout.UpgradedMeans` | pkg/manager/controllers/rollout/rollout_controller.go:215-271 | Nothing is done while a pod is going or new and not ready, nor without a holder; otherwise exactly the old pods that the holder's identity does not start with the name or host name of are deleted, and one of the others only when there are none; a failed delete is tried again. |
| `Rollout.Collect` | pkg/manager/controllers/rollout/rollout_controller.go:217-235 | The loop stops exactly when some pod is on its way, and otherwise collects the outdated pods. |
| `Rollout.DeleteOthers` | pkg/manager/controllers/rollout/rollout_controller.go:244-258 | Exactly the outdated pods that do not match the holder are deleted, but for failures. |
| `Rollout.FinishIffAllDone` | pkg/manager/controllers/rollout/rollout_controller.go:215-271 | A shard is finished exactly when all its pods are new, ready and not terminating. |
| `Rollout.TooEarlyIff` | pkg/manager/controllers/rollout/rollout_controller.go:244-269 | Some allowed result deletes a pod that matches the holder before its peers are done exactly when no pod is on its way, every outdated pod matches, there are several of them, and one can be deleted. |
| `Rollout.LeaderLast` | pkg/manager/controllers/rollout/rollout_controller.go:244-269 | When at most one outdated pod matches, the leader goes last. |
| `Rollout.PrefixHidesAPeer` | pkg/manager/controllers/rollout/rollout_controller.go:288-296 | Matching by prefix takes pod 1 for the leader when pod 10 is, and the leader goes before pod 1. |
| `Rollout.Roll` | pkg/manager/controllers/rollout/rollout_controller.go:198-212 | Finished exactly when all selected shards are done; otherwise the pass stops at a selected shard before which all selected shards in name order are done. |
| `Rollout.ContainsIff` | pkg/manager/controllers/rollout/rollout_controller.go:198-201 | A shard is selected by a part of its name. |
| `BreakerRules.KeysOfConfigsDiffer` | pkg/proxy/circuitbreaker/manager.go:171 | Store keys of two configs never coincide when config names have no colon. |
| `BreakerRules.ResourceKeysDiffer` | pkg/proxy/circuitbreaker/store.go:283-285 | The lookup key of a pattern without colons is that of no other pattern, with or without colons. |
| `BreakerRules.FourPiecesIff` | pkg/proxy/circuitbreaker/store.go:283-285 | A lookup key has four pieces exactly when no field of its pattern has a colon. |
| `BreakerRules.PatternsIff` | pkg/proxy/circuitbreaker/store.go:291-305 | The patterns of a rule are exactly those whose four fields are each listed by one resource rule. |
| `BreakerRules.IndexFuncForResource` | pkg/proxy/circuitbreaker/store.go:291-305 | The five nested loops list exactly the keys of the patterns whose four fields are each listed by one resource rule. |
| `BreakerRules.IndexFuncForRest` | pkg/proxy/circuitbreaker/store.go:307-313 | The loop lists exactly the keys of the REST rules. |
| `BreakerRules.RestKeysDiffer` | pkg/proxy/circuitbreaker/store.go:287-289 | Lookup keys of REST rules are distinct when methods have no colon; URLs may have colons. |
| `BreakerRules.FlattenWithout` | pkg/proxy/circuitbreaker/manager.go:181-195 | Taking out the rules of one config flattens the others. |
| `BreakerRules.FlattenWith` | pkg/proxy/circuitbreaker/manager.go:167-179 | Adding a new config's rules flattens all of them. |
| `BreakerRules.EntriesAreLast` | pkg/proxy/circuitbreaker/manager.go:167-179 | Of several rules of a config with one name the last is stored, under the config's name, a colon and its own. |
| `BreakerRules.FlattenedAre` | pkg/proxy/circuitbreaker/manager.go:167-179 | A store that flattens the configs holds exactly the last rule of each name of each config under the joined key. |
| `BreakerState.State.TriggerBreaker` | pkg/proxy/circuitbreaker/store.go:72-79 | Opening takes place only when closed, and clears the recovery time. |
| `BreakerState.State.TriggerBreakerWithTimeWindow` | pkg/proxy/circuitbreaker/store.go:81-89 | Opening with a window sets the recovery time one window ahead, only when closed. |
| `BreakerState.State.RecoverBreaker` | pkg/proxy/circuitbreaker/store.go:91-98 | Closing takes place only when open. |
| `BreakerState.State.TransitionTo` | pkg/proxy/circuitbreaker/store.go:100-107 | A change is reported exactly when the phase differs. |
| `BreakerStore.Limiter.Allow` | pkg/proxy/circuitbreaker/manager.go:394-406 | A limiter that lets a request through has been used once more; its answer comes from outside. |
| `BreakerStore.InsertKey` | pkg/proxy/circuitbreaker/store.go:224-233 | The key is added to exactly the buckets of its values. |
| `BreakerStore.DeleteKey` | pkg/proxy/circuitbreaker/store.go:237-254 | The key is removed from exactly these buckets, and empty buckets go. |
| `BreakerStore.ExactIsUnique` | pkg/proxy/circuitbreaker/store.go:213-254 | The rules determine an exact index, whatever its history. |
| `BreakerStore.LimiterStore.CreateOrUpdateRule` | pkg/proxy/circuitbreaker/store.go:143-167 | A new key gets a new limiter and a closed breaker; a known key keeps its breaker, and its limiter unless the bucket changed; both indices stay exact. |
| `BreakerStore.LimiterStore.CreateRule` | pkg/proxy/circuitbreaker/store.go:147-157 | A new key gets a new limiter and a new closed breaker, and both indices stay exact. |
| `BreakerStore.LimiterStore.UpdateRule` | pkg/proxy/circuitbreaker/store.go:158-166 | A known key keeps its breaker, and its limiter unless the bucket changed; both indices stay exact. |
| `BreakerStore.LimiterStore.DeleteRule` | pkg/proxy/circuitbreaker/store.go:170-180 | Rule, limiter and breaker go, and both indices stay exact. |
| `BreakerStore.LimiterStore.ByResource` | pkg/proxy/circuitbreaker/store.go:190-210 | The keys under a value are exactly those of the rules with a resource rule that lists the four fields of the value. |
| `BreakerStore.LimiterStore.ByRest` | pkg/proxy/circuitbreaker/store.go:190-210 | The keys under a value are exactly those of the rules with a REST rule of that URL and method. |
| `InterceptStore.Store.CreateOrUpdateRule` | pkg/proxy/circuitbreaker/store.go:354-368 | The live rules change at the key only, and both indices stay exact for them. |
| `InterceptStore.Store.DeleteRule` | pkg/proxy/circuitbreaker/store.go:370-378 | The key leaves both indices; the rule stays in the rule map. |
| `InterceptStore.Store.Validate` | pkg/proxy/circuitbreaker/manager.go:219-265 | Over the live rules: one that covers the URL and the method decides, else one that covers the URL for any method, else one with a matching expression, else the default. |
| `InterceptStore.CoversIff` | pkg/proxy/circuitbreaker/store.go:287-289 | A rule covers a URL and a method by the joined key exactly when it is a plain rule that lists both, for methods without colons. |
| `InterceptStore.DeterminedIff` | pkg/proxy/circuitbreaker/manager.go:219-265 | The verdict does not depend on which of several rules is met first, exactly when all rules that may decide are of one type. |
| `InterceptStore.DefaultVerdictIff` | pkg/proxy/circuitbreaker/manager.go:255-264 | The default is that of the live rules exactly when some live rule is a whitelist or no deleted one is. |
| `InterceptStore.DefaultStaysIff` | pkg/proxy/circuitbreaker/manager.go:255-264 | Rules that stay behind leave the default as it was exactly when they do not bring the first whitelist and do not overwrite the last. |
| `BreakerLookup.FindResource` | pkg/proxy/circuitbreaker/manager.go:296-304 | The loop gives the rules of the first of the sixteen lookups that finds any. |
| `BreakerLookup.OrderIsSorted` | pkg/proxy/circuitbreaker/manager.go:336-366 | The sixteen lookups are in the documented priority order. |
| `BreakerLookup.ScoreMeans` | pkg/proxy/circuitbreaker/manager.go:336-341 | The order of priority: fewer wildcards first; with as many, the first of verb, resource, API group and namespace that only one of the two fixes decides. |
| `BreakerLookup.OrderIsComplete` | pkg/proxy/circuitbreaker/manager.go:336-366 | Every combination of wildcards is among them. |
| `BreakerLookup.LookupsEqualScan` | pkg/proxy/circuitbreaker/manager.go:290-307 | For a request without colons the sixteen lookups find exactly the rules that a scan of all rules picks as most specific, whatever the rules are. |
| `BreakerLookup.SomeMostSpecificIff` | pkg/proxy/circuitbreaker/manager.go:290-307 | There is a most specific rule exactly when some rule lists, in each of the four fields, the request's value or the wildcard. |
| `BreakerLookup.MostSpecificMeans` | pkg/proxy/circuitbreaker/manager.go:336-366 | A most specific rule has such a pattern, and no rule has one that fixes more fields of the request. |
| `BreakerLookup.LookupsEqualScanIff` | pkg/proxy/circuitbreaker/store.go:283-285 | They do so for all sets of rules exactly when no field of the request has a colon; otherwise a colon read as the end of a field finds a rule that does not match. |
| `RestLookup.GenerateWildcardUrls` | pkg/proxy/circuitbreaker/manager.go:309-327 | The URL itself and then its wildcard prefixes, longest first. |
| `RestLookup.FindRest` | pkg/proxy/circuitbreaker/manager.go:275-283 | The loop gives the rules of the first lookup that finds any. |
| `RestLookup.KeyFinds` | pkg/proxy/circuitbreaker/store.go:287-289 | A joined key finds exactly the rules with that URL and method, as no method has a colon. |
| `RestLookup.StoredPrefixMeans` | pkg/proxy/circuitbreaker/manager.go:309-327 | For methods without a colon: a prefix is stored exactly when the path goes on with a slash after it and some rule has scheme, host, prefix and wildcard as its URL, with the method. |
| `RestLookup.TrimSlashMeans` | pkg/proxy/circuitbreaker/manager.go:309-327 | One slash at the end is dropped, and nothing else. |
| `RestLookup.LookupsEqualScan` | pkg/proxy/circuitbreaker/manager.go:269-286 | A rule for the URL is found first; otherwise the rules of the longest stored prefix of the path, and none exactly when no prefix is stored. |
| `BreakerLease.Lease.RegisterState` | pkg/proxy/circuitbreaker/lease.go:47-60 | An open breaker with a recovery time is queued unless its key is pending already. |
| `BreakerLease.Lease.Process` | pkg/proxy/circuitbreaker/lease.go:62-85 | A delivered breaker is queued again when its recovery time lies ahead; otherwise its key is no longer pending and it is closed. |
| `BreakerLease.WindowsAreKeptIff` | pkg/proxy/circuitbreaker/manager.go:402-418 | At every point of a run each open breaker with a sleeping window has a recovery time at most one window away and a pending entry due by then, exactly when no request of the run opens such a breaker while another state of its key is pending. |
| `BreakerLease.StepKeepsAllIff` | pkg/proxy/circuitbreaker/lease.go:47-60 | The same for one step, from every state in which the promise holds. |
| `BreakerLease.LeaseClosesOnTime` | pkg/proxy/circuitbreaker/lease.go:62-85 | The lease closes such a breaker exactly when it is not before its recovery time, and can always do so from then on. |
| `BreakerLease.ScheduledIff` | pkg/proxy/circuitbreaker/lease.go:47-60 | A breaker that opens with a window gets a pending entry exactly when no other state of its key is pending. |
| `BreakerLease.BreakerMoves` | pkg/proxy/circuitbreaker/manager.go:381-418 | What a request does to a breaker: under the normal policy it opens when the limiter refuses and a policy is there, the forced policies move it as they say, a limiter-only one closes; a change is timed, and only an opening with a window sets a recovery time, which is when it is scheduled. |
| `BreakerLease.StaysOpen` | pkg/proxy/circuitbreaker/manager.go:375-381 | An open breaker without a pending entry refuses every request until it is recovered, deleted or replaced. |
| `BreakerLease.ManualStaysOpen` | pkg/proxy/circuitbreaker/manager.go:412-414 | So does, over all runs, a rule with manual recovery. |
| `BreakerLease.RefusalOpensForGood` | pkg/proxy/circuitbreaker/manager.go:402-418 | Over all runs: once its limiter has refused a request, a rule with manual recovery refuses every request until it is recovered, deleted or replaced. |
| `BreakerLease.ManualOpens` | pkg/proxy/circuitbreaker/manager.go:402-418 | A refusal opens the breaker of a rule with manual recovery and schedules nothing. |
| `BreakerLease.RecreatedRuleIsStuck` | pkg/proxy/circuitbreaker/lease.go:47-60 | A rule created anew while the earlier state of its key is pending opens for good. |
| `BreakerLease.DeletedRuleStaysPending` | pkg/proxy/circuitbreaker/lease.go:47-60 | Creating, opening and deleting a rule leads there from the start: the key is free and the state still pending. |
| `BreakerValidation.ApplyRule` | pkg/proxy/circuitbreaker/manager.go:374-419 | One rule: it permits exactly when force-closed, or not force-opened with a closed breaker and a limiter that says yes; it panics exactly for want of a recover policy; how its breaker moves, when its limiter is used and when the lease gets it. |
| `BreakerValidation.DoValidation` | pkg/proxy/circuitbreaker/manager.go:368-422 | The loop applies the rules in list order up to the first that panics: the request is allowed exactly when a force-closed rule comes after every rule that refuses it; every breaker moves by its own rule, every limiter that was asked and let through is used, and exactly the breakers that open with a window are registered. |
| `BreakerValidation.VerdictIsConjunction` | pkg/proxy/circuitbreaker/manager.go:368-422 | Without a force-closed rule a request is allowed exactly when every rule permits it. |
| `BreakerValidation.VerdictIff` | pkg/proxy/circuitbreaker/manager.go:368-422 | A request is allowed exactly when a force-closed rule comes after every rule that is force-opened, has an open breaker or a limiter that says no. |
| `BreakerValidation.AllowedMeans` | pkg/proxy/circuitbreaker/manager.go:374-407 | Without a force-closed rule an allowed request has found no force-opened rule, no open breaker and no limiter that says no, and conversely. |
| `BreakerValidation.OrderIrrelevantIff` | pkg/proxy/circuitbreaker/manager.go:388-392 | The verdict is the same for every order of the rules exactly when none is force-closed or all permit. |
| `BreakerValidation.OneRefusalRefuses` | pkg/proxy/circuitbreaker/manager.go:376-386 | One refusing rule refuses the request when no rule is force-closed. |
| `BreakerRequest.Validate` | pkg/proxy/circuitbreaker/manager.go:368-422 | The found rules in any order: all permitting means allowed, without a force-closed rule only that does, a panic exactly when some rule lacks the policy it needs; breakers, limiters and the lease move for exactly the rules applied. |
| `BreakerRequest.ValidateFound` | pkg/proxy/circuitbreaker/manager.go:269-307 | The same when no rule may be found: then the request is allowed and nothing moves. |
| `BreakerRequest.ValidateResource` | pkg/proxy/circuitbreaker/manager.go:290-307 | A resource request without colons is judged by the most specific rules for it, and by no others, whatever the rules: store, lookups, verdict, breakers, limiters and lease together. |
| `BreakerRequest.ValidateRest` | pkg/proxy/circuitbreaker/manager.go:269-286 | A REST request is judged by the rules of its URL, or else of the longest stored prefix of its path: store, lookups, verdict, breakers, limiters and lease together. |
| `BreakerManager.Manager.constructor` | pkg/proxy/circuitbreaker/manager.go:61-67 | An empty manager satisfies the invariant. |
| `BreakerManager.Manager.RegisterRules` | pkg/proxy/circuitbreaker/manager.go:167-179 | The rules of a new config come in under new limiters and new closed breakers, and its intercept rules are added to all ever stored; no other rule, limiter or breaker changes. |
| `BreakerManager.Manager.UnregisterRules` | pkg/proxy/circuitbreaker/manager.go:181-195 | The rules of a config go, and no others, while the map of all intercept rules ever stored stays; an unknown name changes nothing. |
| `BreakerManager.Manager.SyncUpdate` | pkg/proxy/circuitbreaker/manager.go:73-98 | The same hash changes nothing; any other replaces the rules of the name, resets its limiters and breakers, and adds its intercept rules to all ever stored. |
| `BreakerManager.Manager.SyncDelete` | pkg/proxy/circuitbreaker/manager.go:99-112 | No rule of the name is left, and no other changes; its intercept rules stay in the map behind the default verdict. |
| `BreakerManager.Manager.SyncCheck` | pkg/proxy/circuitbreaker/manager.go:113-120 | A panic exactly for an unknown name; success exactly for the hash in the map. |
| `BreakerManager.Manager.SyncRecover` | pkg/proxy/circuitbreaker/manager.go:121-130 | Exactly the open breakers of the named rules close. |
| `BreakerManager.Manager.RecoverBreaker` | pkg/proxy/circuitbreaker/manager.go:209-216 | One breaker closes; an unknown key changes nothing. |
| `BreakerManager.Manager.Sync` | pkg/proxy/circuitbreaker/manager.go:69-137 | Whatever the option, the stores flatten the configs that are then in the map, limiters and breakers of other configs are untouched, and the map behind the default verdict grows by an update and by nothing else. |
| `BreakerManager.Manager.HoldsLimitings` | pkg/proxy/circuitbreaker/manager.go:167-179 | The limiter store holds exactly the last rule of each name of each config in the map, under the joined key. |
| `BreakerManager.Manager.HoldsIntercepts` | pkg/proxy/circuitbreaker/manager.go:167-179 | So do the live intercept rules. |
| `BreakerManager.Manager.UpdateThenDelete` | pkg/proxy/circuitbreaker/manager.go:69-137 | Deleting a config that was new undoes its update: rules, limiters, breakers, both indices and the live intercept rules are as before; the default verdict is, exactly when the intercept rules left behind bring no first whitelist and overwrite no last one. |
| `BreakerManager.WhitelistOutlivesConfig` | pkg/proxy/circuitbreaker/manager.go:255-264 | A new manager allows every request; after any config with a whitelist has come and gone it refuses every one. |
| `BreakerManager.FlattenElsewhere` | pkg/proxy/circuitbreaker/manager.go:69-137 | When two maps of configs differ at one name at most, the stored rules of all other names are the same. |
| `BreakerManager.FlattenIsUnique` | pkg/proxy/circuitbreaker/manager.go:69-137 | The configs determine the stored rules. |

## Left out

- The fault-injection proxy, the pod and webhook injectors, leader-election request rewriting, webhook routing between shards and the validating webhooks.
- HTTP, gRPC and Kubernetes client plumbing, logging, events, metrics, locks; each locked section is one step.
- A restart of the manager, which loses its tables; the clean-up of old pods (clearOldPods); the minute timers that only trigger another pass.
- Dispatch.Next: a send that fails is taken not to reach the proxy, the end of a connection is one step although the source drops the expectation and sets the flag in two, and a gone pod whose config cannot be read is taken to clear its expectations as any other.
- Reconciler.Controller.Register: the namespace, name and shard label of the sender are part of finding its pod.
- Specs.SpecManager.constructor: protobuf decoding errors and records torn by a crash in the middle of an append; a write either happens or not.
- AtomicWrite.Writer.Write: removals after a failure are taken to succeed; file modes, the Windows branch, parent directories as entries of their own, and other processes that write to the directory; a removal of a directory that stops in the middle is a step of AtomicWriter.Run.
- AtomicWrite.Writer.UnlinkAll: a left-over name that is an empty directory counts as an error, although its removal would succeed; the writer makes no such directory, and in the states of AtomicWriter.Inv there is none.
- Injection.InjectSelector: unescaping and parsing, and rendering and escaping, the selector text are parameters.
- Selectors.AsMatcher: validation of label keys and values; requirements are taken as well-formed.
- NameHash.Hash: no statement for a modulus that is not positive.
- AutoSharding.Root.GetChild: annotations, labels, controller and webhook sections copied from the root; creating, updating and deleting the children in the API server.
- Rollout.Roll: the configs are taken as sorted by name; annotations, expected revisions and the rolling label are not modelled.
- BreakerStore.LimiterStore.CreateOrUpdateRule: the order and repetition of the lookup keys of a rule, which the index does not keep; a limiter is its bucket and a count of use, and the passing of time does not refill it.
- BreakerValidation.DoValidation: what a limiter answers is a parameter; reasons, messages and snapshots are not modelled.
- BreakerRequest.ValidateResource: reasons and messages; for a request with a colon it is judged by the rules found, which need not be the most specific.
- InterceptStore.Store.Validate: matching a regular expression is a parameter, and which of several matching rules decides is left open, as it is in the source.
- RestLookup.GenerateWildcardUrls: parsing a URL is a parameter.
- BreakerManager.Manager.Sync: config names are Kubernetes names and have no colon; messages and snapshots in the response are not modelled.
- Progress.ActionsAreBounded: a bound on the work, and Convergence.CanConvergeIff a possibility, not a time by which it is done; when steps are taken is not modelled.
- BreakerLease.WindowsAreKeptIff: each rule of a request is a step of its own; that a request takes these steps together is stated by BreakerRequest.Validate.
