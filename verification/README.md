# l7mp, modelled and proved in Dafny

This project models the core of l7mp, a programmable meta-proxy, and proves what its code keeps
over all inputs and all runs. `dafny verify dfyconfig.toml` verifies it.

**Sessions** (`Pipeline*.dfy`, `SessionObjects.dfy`, `Retry*.dfy`). A session is a ring of stages:
source, ingress chain, destination, egress chain, and back. `Pipeline.Step` is what one external
event does: a stream lost, an attempt succeeding or failing, a retry timer, a deletion from the API,
removal from the registry, reuse of the session's name. Several stages can be lost at once and come
back in any order. `PipelineSafety` proves an invariant of every step; `PipelineRuns` says what it
means for whole runs, `PipelineRevival` when a session can report CONNECT again, `PipelineDestroyed`
what a CONNECT and a stream's end mean once the session was deleted, and `PipelineRemoval` which retry
loops end once it has left the registry; `PipelineLog` says what each event records. The classes of `SessionObjects` have the fields and loops of
`session.js` and are proved against the transition system; `RetryLoops` ties its retries to the loop of
`Stage.connect`.

**The configuration registry** (`Registry*.dfy`, `Clusters.dfy`). Six named sequences, nested inline
adds with generated names, cascading deletes, rollback, recursive dumps. Each API call is a function
from state to state that also says what a throwing call leaves behind; the class `L7mp` does the same
with fields, splices and loops. `RegistryRuns` has the invariant that a taken endpoint name breaks,
`RegistryCover` a weaker one that nothing breaks, which is why dumps never throw, and `RegistryTaken`
what deletes do with a taken name. A recursive delete is shown to remove exactly a closure, which gives
the round trips together with the exact condition on names. `RegistryContents`, `RegistryPlaces` and
`RegistryEdits` say entry by entry and place by place what each call registers, refuses and takes out.

**Kernel offload** (`Checksum.dfy`, `FlowCodec.dfy`, `Offload*.dfy`). Byte-exact keys shared by
JavaScript and C, header rewriting on packet bytes, ones' complement arithmetic against its standards
(RFC 791 section 3.1, RFC 1071 sections 1 and 2, RFC 1624 section 3), and the refinement of the
user-space pipe by the kernel program.

**Rule evaluation and metadata paths** (`Lookup.dfy`, `Path*.dfy`).
First-match lookup with deferral, and reading and writing metadata by path on an explicit store of
mutable objects, so that aliasing and copying are visible.

**The broadcast mesh** (`Broadcast.dfy`). Ports come and go; the pipes between them stay complete.

## How the code was read

- The code is followed as written where it differs from its evident intent. `repipe` compares an index
  with `this.chain.egress - 1` (session.js:887), which is never true, where the length of the chain is
  meant, as in session.js:863. The flag `intended` of a configuration selects the test; every theorem
  holds for both, and `LastEgressCannotReturn` says what the written one does.
- A stretch of code between two awaits is one step. The success of an attempt, READY, the count and
  the repipe are one step, and so are the promise reactions that follow one another without I/O.
- An attempt that finds no cluster counts as an attempt that runs and fails.
- The registry is asked for a session by its name (session.js:102), so a later session of the same name
  lets old retry loops go on; the event `NameReused` models that.
- p-retry is taken as a loop over attempts 1 to N + 1 that stops at once on an abort.
- API calls of the registry run to completion one after the other.
- `addEndPoint` is not awaited inside `addCluster` (l7mp.js:476), so an endpoint that cannot be added is
  skipped.
- The host is little-endian, IPv4 headers have no options, `bpf_csum_diff` returns some 64-bit number
  with the residue of the word sum modulo 65535, nonzero when that sum is.

Eight expectations turned out to hold under a condition only; each is stated with its exact condition
and, where that does not already show the other case, with a witness:

- CONNECT after a deletion need not mean a whole ring (`ConnectIsWholeIff`, `ConnectAfterDelete`,
  `OneStageLost`);
- the retry loops of a removed session end only if its source does not reconnect: `reconnect` of the
  source does not ask the registry (`AllLoopsTerminateIff`, `EndlessHappens`);
- a set-up that completes after a deletion lets a stream be ended twice (`StreamsEndOnce`,
  `LateSetupEndsTwice`, `LateSetupHappens`);
- the name that an endpoint makes up for itself may be taken (`PerformKeeps`, `CollisionHappens`), and a
  dump then shows another address than the cluster uses (`OwnListShown`, `TakenNameShowsOther`);
- deleting a cluster may then remove the endpoint of another one (`DeletesOwnExactly`,
  `CrossingBreaks`);
- a create whose redirect flow is missing or cannot be encoded leaves a statistics entry alone
  (`StepKeepsKeys`, `HalfDoneHappens`);
- deleting what was just added restores the registries only if the names in it were free
  (`RouteRoundTrip`, `ListenerRoundTrip`);
- values behind non-canonical segments such as `1abc` are not found again (`GetReturnsSet`,
  `OtherPathsLose`; `CanonicalSegments` says which segments are canonical).

## Model

| member | source | states |
|---|---|---|
| `Pipeline.RepipeNamesNeighbours` | session.js:806-899 | the four-way case split of `repipe` names the two ring neighbours of any stage, for chains of any length; as written it finds no successor for the last egress stage, and for no other |
| `PipelineSetup.SetupBuildsTheRing` | session.js:622-628 | the two calls of `pipeline_finish` lay exactly one pipe per stage, and pipe number k leads from ring position k to the next: one cycle through all stages in route order |
| `PipelineSetup.SetupLaysTheRing` | session.js:666-686 | on the streams of a session these edges are the pipes the transition system lays |
| `PipelineSafety.StepKeeps` | session.js:586-1009 | every event (loss, attempt succeeded or failed, retry timer, API end, removal, reuse of the name) keeps the safety invariant: identities, wiring, ledger, retry loops, liveness, single ends, log discipline |
| `PipelineSafety.RunKeeps` | session.js:586-1009 | hence every run from the set-up does |
| `PipelineRuns.RingExactlyOnce` | session.js:722-899 | in every reachable state after set-up, two READY stages are joined by exactly one pipe between their current streams if adjacent in ring direction, otherwise by none, under any interleaving of losses and reconnections |
| `PipelineRuns.LedgerBalances` | session.js:746-783 | `active_streams` plus the number of stages lost and not yet repiped is `num_streams`; before a `destroy` every other stage is READY |
| `PipelineRuns.ConnectMeansWhole` | session.js:780-783 | a step that reports CONNECT leaves no loss unpaid; in a session never destroyed, every stage is then READY and every ring pipe is there once |
| `PipelineDestroyed.ConnectIsWholeIff` | session.js:945-992 | over every run, a CONNECT, after any number of deletions and errors, means that every stage is READY and every ring pipe is there once exactly when each stage had a retry loop whenever the complete session was destroyed; and that no stream of that ring was ended exactly when, besides, each stage that had a stream at a deletion during set-up has come back since |
| `PipelineDestroyed.AbandonedExactly` | session.js:961-992 | a stage of a complete session is ended without a retry loop after a step exactly when it was before, or the step destroys the session and the stage has no retry loop; it never comes back |
| `PipelineDestroyed.EndAbandons` | session.js:929-940 | deleting a complete session, or an error in it, abandons exactly the stages without a retry loop |
| `PipelineDestroyed.ConnectAfterDelete` | session.js:775-787 | with one stage lost and its attempt running, a deletion and then the success of the attempt report CONNECT while every other stage is END |
| `PipelineDestroyed.OneStageLost` | session.js:722-803 | that state is reached from the set-up |
| `PipelineRuns.DisconnectBetweenConnects` | session.js:730-735 | in every run two CONNECT events have a DISCONNECT between them |
| `PipelineLog.StepRecords` | session.js:722-1009 | what every event adds to the log, ends and errors told apart: END under the policies that do not reconnect, ERROR for an unknown policy, a stage that cannot be brought back, retries used up, a name gone, a repipe that throws; CONNECT for the last success awaited and for the one that repays the last loss |
| `PipelineLog.StatusFollowsLog` | session.js:900-1009 | in every run the status of the session is as of the last CONNECT or DESTROY in its log |
| `PipelineRuns.DeadExactlyWhenGivenUp` | session.js:762-803 | a loss becomes unrepayable exactly in the branches that give the stage up (policy, not retriable, listener cannot reconnect, retries exhausted, name gone), and then the session was destroyed |
| `PipelineRuns.NeverConnectsAgain` | session.js:737-802 | after that the session never reports CONNECT again, whatever other stages do |
| `PipelineRevival.RevivesExactlyWhen` | session.js:945-992 | DESTROYED does not absorb: the loops of a session can bring CONNECT again exactly when some stage is lost, every lost stage has an attempt running or waits for one that the registry still allows, and, as written, the last egress stage is not the only loss |
| `PipelineRevival.LastEgressCannotReturn` | session.js:887-888 | as written, the repipe fails exactly for the last egress stage and the session is then destroyed |
| `PipelineRevival.DestroyedSessionReportsConnect` | session.js:785-787 | a session destroyed that way can still report CONNECT through its other running attempts |
| `PipelineRemoval.NoAttemptOnceRemoved` | session.js:101-110 | once the name is unregistered and until it is reused, no run calls a cluster for this session again, and no retry loop of a cluster stage gets further from its end |
| `PipelineRemoval.LoopAdvances` | session.js:101-123 | each attempt or timer that ends then brings its loop nearer to the end |
| `PipelineRemoval.LoopsTerminate` | session.js:97-169 | hence in any run without the name the attempts and timers of one cluster stage number at most its rank, which is at most 2: its retry loop ends |
| `PipelineRemoval.AllLoopsTerminateIff` | session.js:340-383 | over all runs without the name, set-up pending ones included, the retry loops of all stages see a bounded number of events exactly when the source is not endless (the policy reconnects, the listener is retriable, and the source is READY, coming back, or a pending set-up can still complete); then at most two each |
| `PipelineRemoval.EndlessGoesOn` | session.js:358-374 | an endless source can be reconnected any number of times, because its reconnection does not ask the registry |
| `PipelineRemoval.SourceTerminates` | session.js:762-802 | a source that is not endless has at most the one attempt that is running |
| `PipelineRemoval.EndlessHappens` | session.js:358-374 | an endless session is reached: its source is lost and coming back when the session is deleted and leaves the registry |
| `PipelineRemoval.AttemptStartsExactlyWhenNamed` | session.js:102-110 | the registry is asked by name: a due retry starts an attempt exactly when some session carries the name |
| `PipelineRuns.DestroyAgainEndsNothing` | session.js:945-1009 | `destroy` leaves every stage END or RETRYING, returns 1 exactly when none is RETRYING, and a second `end` or `error` ends no stream again |
| `PipelineRuns.DestroyEndsEach` | session.js:945-1009 | ending a session leaves a RETRYING stage alone, makes any other END and ends its stream, if it has one and was not END, once more; no loop, stream or pipe changes |
| `PipelineRuns.StreamsEndOnce` | session.js:977-981 | as long as set-up does not complete after a `destroy`, no run ends a stream twice |
| `PipelineDestroyed.LateSetupEndsTwice` | session.js:612-636 | set-up completing and a deletion after it end some stream twice exactly when the session had been destroyed before, in every reachable state whose last attempt is running |
| `PipelineDestroyed.LateSetupHappens` | session.js:586-637 | such a destroyed state is reached |
| `SessionObjects.SessionObject.PipelineInit` | session.js:639-664 | numbers the stages and starts one attempt per cluster stage: the initial state of the transition system |
| `SessionObjects.SessionObject.PipelineFinish` | session.js:666-686 | the loop over a chain lays one pipe per stage and marks the stages READY |
| `SessionObjects.SessionObject.PipeBothDirections` | session.js:622-628 | the two calls add exactly one pipe per stage to the count and leave every stage READY |
| `SessionObjects.SessionObject.FinishSetup` | session.js:612-636 | `pipeline` after all streams are resolved is the model step that lays the ring and reports CONNECT |
| `SessionObjects.SessionObject.Neighbours` | session.js:811-888 | the searches of `repipe` find the stages the model names, by identity |
| `SessionObjects.SessionObject.Repipe` | session.js:806-899 | the method changes pipes and status as the model step does and fails when it does |
| `SessionObjects.SessionObject.Disconnect` | session.js:722-803 | up to its await, `disconnect` is the model step |
| `SessionObjects.SessionObject.StartAttempt` | session.js:97-130 | the start of an attempt, up to the call of the cluster, is the model step |
| `SessionObjects.SessionObject.AttemptFails` | session.js:146-161 | a failed attempt is the model step |
| `SessionObjects.SessionObject.AttemptSucceeds` | session.js:132-142 | a successful attempt is the model step with what follows it: nothing after an aborted set-up, the rest of `pipeline` when it was the last one awaited, the repipe of `disconnect` otherwise |
| `SessionObjects.SessionObject.GetStages` | session.js:710-719 | lists every stage of the ring once, the destination last |
| `SessionObjects.SessionObject.Destroy` | session.js:945-1009 | the loop over the stages is the model step, with its return value |
| `SessionObjects.SessionObject.SessionError` | session.js:914-927 | is the model step |
| `SessionObjects.SessionObject.SessionEnd` | session.js:929-940 | is the model step |
| `Retry.FirstDecides` | session.js:88-169 | the result of the retry loop is that of the first attempt that succeeds or aborts, with the number of cluster calls made until then; without one all N + 1 attempts are used |
| `Retry.ConnectSucceedsIff` | session.js:145-168 | without aborts, a connection with N retries succeeds exactly when one of the first N + 1 attempts does, ends CONNECTED or END accordingly, and calls the cluster at most N + 1 times |
| `Retry.NotTried` | session.js:112-124 | the stages that make no attempt and stay as they are: CONNECTED, FINALIZING or END |
| `Retry.ReconnectCalls` | session.js:356-380 | reconnecting a cluster stage makes at most max(1, num_retries) calls |
| `Retry.Stage.Connect` | session.js:88-169 | the loop on the status field computes that result |
| `RetryLoops.LoopIsConnect` | session.js:88-169 | played out event by event in a session, with timers and the name leaving and returning, the retry loop of a cluster stage comes to the same outcome, status and number of attempts, and to a new stream exactly on success |
| `RetryLoops.LossStartsLoop` | session.js:374-376 | a lost cluster stage that can return starts that loop with the retries of `reconnect` |
| `RetryLoops.SetupAttempts` | session.js:639-664 | at set-up a cluster stage whose attempts all fail makes exactly num_retries + 1 attempts under `always` and `connect-failure` and exactly one under the other policies; then the session ends in error |
| `RetryLoops.LossAttempts` | session.js:356-376 | a lost cluster stage that can return, all of whose attempts fail, makes exactly max(1, num_retries) attempts, and has the retriable flag reported last |
| `RetryLoops.LastFailureEnds` | session.js:146-161 | the last failure ends the session; the old stream of the source is ended with it, that of a cluster stage is not |
| `Retry.Stage.Reconnect` | session.js:374-383 | passes one retry less, and is READY exactly on success |
| `RegistryRuns.PerformKeeps` | l7mp.js:305-1104 | every API call, successful or thrown, keeps names unique, the endpoint registry equal to the union of the clusters' lists and balancers in sync, with exactly one exception: a nameless endpoint whose made-up name is taken |
| `RegistryRuns.RunKeeps` | l7mp.js:305-1104 | hence every run of API calls without that collision does |
| `RegistryRuns.ExactlyOneOwner` | l7mp.js:1012-1022 | each registered endpoint is in the list of exactly one cluster |
| `RegistryAdds.AddEndPointKeeps` | l7mp.js:987-1023 | adding an endpoint keeps the agreement exactly when a self-made name is free |
| `RegistryRuns.CollisionHappens` | cluster.js:177-177 | from an empty registry three successful calls register one endpoint name twice: add a cluster, add an endpoint under the name the next nameless one makes up, add a nameless one |
| `RegistryContents.PicksName` | l7mp.js:120-133 | a name that is given is taken; else the first free one of the base and the base with suffix _1 to _20, or none when all 21 are used |
| `RegistryContents.ValidNames` | l7mp.js:311-311 | a valid name is not empty and has no white space |
| `RegistryContents.AddEndPointRefuses` | l7mp.js:987-1013 | what `addEndPoint` throws exactly when; then nothing changes |
| `RegistryContents.AddEndPointPuts` | l7mp.js:1012-1022 | the new endpoint is the last of its cluster's list and of the registry, with the given address and the given name or the one made up from cluster and counter; nothing else changes |
| `RegistryDeletes.DeleteEndPointKeeps` | l7mp.js:1047-1063 | in a well-formed registry, deleting an endpoint throws exactly for an unknown name, and the search for its cluster finds it |
| `RegistryDeletes.DeleteClusterPrunes` | l7mp.js:520-547 | in a well-formed registry, deleting a cluster removes exactly it and all of its endpoints |
| `RegistryTaken.DeletesOwnExactly` | l7mp.js:520-547 | in any registry that a run reaches (cluster names unique), it does so exactly when the first endpoints registered under the names it lists are its own and it lists as many as it has; otherwise it throws or removes something else |
| `RegistryTaken.CrossingBreaks` | l7mp.js:1051-1063 | after a run in which an endpoint of one cluster took the name that an endpoint of another made up, deleting the second cluster removes the endpoint of the first, and deleting the one left over reaches the branch that should never happen |
| `RegistryAdds.AddClusterKeeps` | l7mp.js:440-489 | on success exactly one cluster and its endpoints are appended; a cluster that does not start leaves the registries as they were |
| `RegistryContents.AddClusterRefuses` | l7mp.js:444-467 | what `addCluster` throws before it registers anything |
| `RegistryContents.AddClusterPuts` | l7mp.js:468-489 | a success puts exactly the cluster of the spec at the end, with its flags and policy |
| `RegistryContents.AddClusterLists` | l7mp.js:472-478 | with valid, different and free names the new cluster and the registry list the endpoints of the spec in order |
| `RegistryContents.BadEndPointsSkipped` | l7mp.js:471-489 | endpoints that cannot be added are skipped: a new cluster whose endpoints have names succeeds exactly when it starts |
| `RegistryContents.AddClusterCounts` | l7mp.js:472-477 | every endpoint that comes without a name advances the counter once |
| `RegistryClosure.DeleteRoutePrunes` | l7mp.js:951-980 | a recursive delete of a route removes it and exactly the autogenerated clusters it names |
| `RegistryClosure.DeleteRulePrunes` | l7mp.js:805-824 | of a rule: it, the autogenerated route it names, and that route's autogenerated clusters |
| `RegistryClosure.DeleteRuleListPrunes` | l7mp.js:627-652 | of a rule list: it succeeds exactly for a known list of distinct existing rules, and removes the closure of all listed rules |
| `RegistryGrowth.AddRouteKeeps` | l7mp.js:831-907 | a route added appends its inline clusters first and mentions all it names |
| `RegistryPlaces.AddRoutePositions` | l7mp.js:866-906 | at each place of destination, ingress and egress chain the new route holds the name that the spec has there, or that of the autogenerated cluster appended for the inline spec there |
| `RegistryPlaces.AddRouteStores` | l7mp.js:866-906 | in order, with the clusters appended, their made-up names and the counter behind them |
| `RegistryPlaces.AddRouteRefuses` | l7mp.js:837-880 | what a route is refused for before anything is added |
| `RegistryPlaces.NamedRouteSucceeds` | l7mp.js:866-906 | a route of clusters given by name is added whether or not they exist |
| `RegistryGrowth.AddRuleKeeps` | l7mp.js:717-766 | all that a rule with inline parts appends is autogenerated and reachable from the rule |
| `RegistryPlaces.AddRulePuts` | l7mp.js:744-766 | the rule stands at the end under its name and flag, and its action names the route: as given, or the new autogenerated route |
| `RegistryPlaces.AddRuleRefuses` | l7mp.js:717-763 | what a rule is refused for; and that a rule whose route cannot be had stays registered without one |
| `RegistryPlaces.AddRuleSucceeds` | l7mp.js:744-766 | a rule without an inline route is added, one with exactly when its route is |
| `RegistryListeners.AddRuleListKeeps` | l7mp.js:554-593 | the same for a rule list; the list holds the names in order |
| `RegistryEdits.AddRuleListPuts` | l7mp.js:581-593 | a new rule list stands at the end and names its rules place by place |
| `RegistryEdits.AddRuleToRuleListInserts` | l7mp.js:655-686 | a rule goes into the list at the position asked for; a position outside of the list or a rule that is none changes nothing |
| `RegistryEdits.DeleteRuleFromRuleListTakesOut` | l7mp.js:689-711 | the name at the position is taken out; the position one past the end is let through; recursively the rule goes first and the list stays when that throws |
| `RegistryEdits.AddListenerPuts` | l7mp.js:334-371 | the listener stands at the end; its rule list is the one referred to, or a new autogenerated one under a name made up from listener and counter |
| `RegistryEdits.AddListenerRefuses` | l7mp.js:309-332 | what a listener is refused for |
| `RegistryEdits.AddListenerSucceeds` | l7mp.js:334-371 | adding a listener succeeds exactly when it starts and, for own rules, their list can be added; a rule list referred to need not exist |
| `RegistryEdits.PlainRouteDelete` | l7mp.js:951-980 | deleting a route without the recursive option takes out exactly it, or throws for an unknown name and changes nothing |
| `RegistryEdits.PlainRuleDelete` | l7mp.js:805-824 | so for a rule |
| `RegistryEdits.PlainRuleListDelete` | l7mp.js:627-652 | for a rule list |
| `RegistryEdits.PlainListenerDelete` | l7mp.js:408-433 | and for a listener |
| `RegistryEdits.DeleteListenerPrunes` | l7mp.js:408-433 | the recursive delete of a listener: exactly when it throws, and what goes with it |
| `RegistryRoundTrip.ClusterRoundTrip` | l7mp.js:440-547 | adding and deleting a cluster restores all six registries |
| `RegistryRoundTrip.RouteRoundTrip` | l7mp.js:831-980 | adding a route and deleting it recursively restores them exactly when no cluster it names was autogenerated |
| `RegistryListeners.ListenerRoundTrip` | l7mp.js:305-433 | adding a listener with arbitrarily nested inline parts and deleting it recursively restores all six sequences exactly when its rule list was not autogenerated, or its rules are all inline and name nothing autogenerated |
| `RegistryListeners.FailedStartRestores` | l7mp.js:360-371 | the rollback of a listener that does not start restores them under exactly the same condition |
| `RegistryListeners.NestedFailureStays` | l7mp.js:479-487 | a nested cluster that does not start is taken back alone: the rule list around it stays |
| `RegistryCover.PerformSound` | l7mp.js:305-1104 | every API call, whatever its outcome and whatever names collide, keeps cluster names unique and lets no cluster list an endpoint more often than the registry holds one of that name for it |
| `RegistryCover.RunSound` | l7mp.js:305-1104 | hence every run does |
| `RegistryDumps.DumpsNeverThrow` | l7mp.js:378-949 | in every configuration that any run reaches, a recursive dump of a listener, rule list, rule, route or cluster throws exactly when there is no such object |
| `RegistryDumps.DumpsShow` | l7mp.js:378-949 | and shows rules, routes, clusters and endpoints in order, with the mark STALE exactly for what is missing or was never filled in |
| `RegistryDumps.ListenerDumps` | l7mp.js:378-406 | of a listener: its rule list jumped through, or marked STALE exactly when missing |
| `RegistryDumps.RuleListDumps` | l7mp.js:600-625 | of a rule list: its rules in order, each marked STALE exactly when missing |
| `RegistryDumps.RuleDumps` | l7mp.js:773-803 | of a rule: its route is marked STALE exactly when missing or never filled in |
| `RegistryDumps.RouteDumps` | l7mp.js:914-949 | of a route: destination and chains in order, a cluster marked STALE exactly when missing |
| `RegistryDumps.ClusterDumps` | l7mp.js:496-518 | of a cluster: for each listed name, the first endpoint registered under it; for a virtual cluster, its own |
| `RegistryDumps.OwnListShown` | l7mp.js:496-518 | the dump shows the list that the cluster balances over exactly when the first endpoint registered under each listed name has the listed address |
| `RegistryDumps.FreeNamesShowOwnList` | l7mp.js:496-518 | which it does after every run in which no self-made endpoint name was taken |
| `RegistryDumps.TakenNameShowsOther` | l7mp.js:508-510 | with a taken name the second endpoint is shown with the address of the first |
| `RegistryObject.FreshName` | l7mp.js:120-133 | the loop of `newName` returns the first free candidate, or fails after the suffix 20 |
| `RegistryObject.L7mp.AddEndPoint` | l7mp.js:987-1023 | is the registry function, errors included |
| `RegistryObject.L7mp.DeleteEndPoint` | l7mp.js:1047-1063 | is the registry function |
| `RegistryObject.L7mp.AddCluster` | l7mp.js:440-489 | is the registry function, rollback included |
| `RegistryObject.L7mp.DeleteCluster` | l7mp.js:520-547 | is the registry function |
| `RegistryObject.L7mp.AddRoute` | l7mp.js:831-907 | is the registry function |
| `RegistryObject.L7mp.DeleteRoute` | l7mp.js:951-980 | is the registry function |
| `RegistryObject.L7mp.AddRule` | l7mp.js:717-766 | is the registry function: the rule is pushed first, its route set afterwards |
| `RegistryObject.L7mp.DeleteRule` | l7mp.js:805-824 | is the registry function |
| `RegistryObject.L7mp.AddRuleToRuleList` | l7mp.js:655-686 | is the registry function |
| `RegistryObject.L7mp.AddRuleList` | l7mp.js:554-593 | is the registry function |
| `RegistryObject.L7mp.DeleteRuleFromRuleList` | l7mp.js:689-711 | is the registry function, with its position check |
| `RegistryObject.L7mp.DeleteRuleList` | l7mp.js:627-652 | is the registry function |
| `RegistryObject.L7mp.AddListener` | l7mp.js:305-371 | is the registry function, rollback included |
| `RegistryObject.L7mp.DeleteListener` | l7mp.js:408-433 | is the registry function |
| `Clusters.ApplyChoosesCurrent` | cluster.js:75-148 | `apply` returns a current endpoint and throws NotFound exactly when there is none |
| `Clusters.ApplyChooses` | cluster.js:75-148 | the trivial policy takes the first endpoint; the hash ring is asked with the session's key over all addresses, and of two endpoints with the address it gives the later one is taken |
| `Clusters.EditsKeepSync` | cluster.js:464-487 | adding and deleting keep the balancer in agreement with the list |
| `Clusters.EditsList` | cluster.js:464-487 | an added endpoint is the last; a delete takes out the first of the name, no other |
| `Clusters.DeleteUndoesAdd` | cluster.js:464-487 | deleting the endpoint just added gives the cluster back |
| `Clusters.LoadBalancer.UpdateWith` | cluster.js:105-117 | the loop rebuilds the key table, later endpoints of one address winning |
| `Clusters.LoadBalancer.Choose` | cluster.js:119-146 | is the balancing function |
| `Clusters.ClusterObject.AddEndPoint` | cluster.js:464-470 | appends and updates the balancer |
| `Clusters.ClusterObject.DeleteEndPoint` | cluster.js:476-487 | removes the first of the name and updates the balancer |
| `Checksum.OnesSumIsResidue` | kernel-offload/udp_kernel_offload.c:67-83 | the ones' complement sum with end-around carry (RFC 1071 section 1) is the residue modulo 65535 of the plain sum, zero only for zero |
| `Checksum.ByteOrderIndependent` | kernel-offload/udp_kernel_offload.c:186-190 | a header checks in one byte order exactly when it does in the other (RFC 1071 section 2(B)) |
| `Checksum.FoldKeeps` | kernel-offload/udp_kernel_offload.c:71-75 | any number of folds keeps the residue and nonzeroness |
| `Checksum.FourFoldsSuffice` | kernel-offload/udp_kernel_offload.c:67-76 | four folds bring every 64-bit sum into 16 bits |
| `Checksum.ThreeFoldsDoNot` | kernel-offload/udp_kernel_offload.c:72-72 | three do not |
| `Checksum.CsumFoldHelper` | kernel-offload/udp_kernel_offload.c:67-76 | the loop computes four folds and the truncated complement |
| `Checksum.RecomputedChecks` | kernel-offload/udp_kernel_offload.c:78-83 | the checksum recomputed with the field zero makes the header check, for any sum `bpf_csum_diff` may return |
| `Checksum.TtlKeepsChecking` | kernel-offload/udp_kernel_offload.c:59-65 | lowering the TTL keeps a header checking exactly when the TTL was at least 1 |
| `Checksum.DecreasedCheckIs` | kernel-offload/udp_kernel_offload.c:59-65 | it adds one to the checksum modulo 65535 |
| `Checksum.UpdateIsRecomputation` | kernel-offload/udp_kernel_offload.c:85-99 | the incremental update equals full recomputation (RFC 1624 section 3, Eqn. 3) except for one input, where it gives all ones for zero |
| `FlowCodec.FlowRoundTrip` | udp-offload.js:53-70 | decoding an encoded in-range 5-tuple gives it back |
| `FlowCodec.BufferRoundTrip` | udp-offload.js:53-70 | every 16-byte key is the encoding of exactly one 5-tuple |
| `FlowCodec.EncodingInjective` | udp-offload.js:53-61 | different 5-tuples have different keys |
| `FlowCodec.FlowLayout` | udp-offload.js:53-61 | each of the 16 bytes of a key: addresses and ports most significant byte first in the order source address, destination address, source port, destination port; the protocol least significant first |
| `FlowCodec.StatRoundTrip` | udp-offload.js:85-97 | the same round trip for statistics |
| `FlowCodec.StatBufferRoundTrip` | udp-offload.js:85-97 | every 24-byte statistics value is the encoding of exactly one record |
| `FlowCodec.StatLayout` | udp-offload.js:85-97 | packets, bytes and timestamp are little-endian 64-bit numbers at offsets 0, 8 and 16 |
| `FlowCodec.ZeroStat` | udp-offload.js:278-279 | a zero buffer is the statistics of a flow without traffic |
| `FlowCodec.FlowObject.Encode` | udp-offload.js:53-61 | writes the parts at their offsets; null is the RangeError |
| `FlowCodec.FlowObject.Decode` | udp-offload.js:63-70 | assigns the fields from the buffer |
| `Offload.KeysAgree` | kernel-offload/udp_kernel_offload.c:45-51 | the bytes user space writes and the packed key the kernel program fills agree exactly when the 5-tuples do |
| `Offload.ProcessRedirects` | kernel-offload/udp_kernel_offload.c:169-184 | a redirected packet leaves with the entry's 5-tuple and its own payload |
| `Offload.LooksAt` | kernel-offload/udp_kernel_offload.c:150-181 | the program looks exactly at packets of at least 42 bytes with 0x0800 at byte 12, 17 at byte 23 and an entry for their 5-tuple, and does with them what the route lookup says; any other packet is passed on as it came |
| `Offload.ProcessBytes` | kernel-offload/udp_kernel_offload.c:183-246 | every byte of a redirected packet: link addresses and TTL as routed (0 wraps to 255), the 12 bytes of the entry, UDP checksum zero, UDP length and all else but the IPv4 checksum as it was |
| `Offload.ProcessChecks` | kernel-offload/udp_kernel_offload.c:186-244 | every packet passed on has a header that checks, in either byte order, except one routed with TTL 0 |
| `OffloadRuns.FastPathIsSlowPath` | session.js:269-338 | after every run in which a pipe is the latest create or remove of the flow its first end receives, every packet the user-space pipe would have read becomes the datagram that pipe would have sent, byte for byte as `ProcessBytes` says, and is sent out or passed on as that unless the route lookup drops it |
| `OffloadRuns.PipeIsLatest` | session.js:284-304 | an offloaded pipe is that latest create |
| `OffloadRuns.PipeOffloads` | session.js:284-304 | a pipe is offloaded exactly when offload is on and both ends are UDP over IPv4 with encodable addresses |
| `OffloadRuns.PipeLeavesMaps` | session.js:284-304 | a pipe that is not UDP over IPv4 at both ends, or whose own flow cannot be encoded, leaves the maps alone |
| `OffloadRuns.OthersUntouched` | kernel-offload/udp_kernel_offload.c:157-180 | after any run, a packet whose flow is not redirected keeps every byte |
| `OffloadRuns.RunRedirects` | udp-offload.js:274-294 | after any run, a packet of a redirected flow leaves with its latest target |
| `OffloadRuns.LatestWins` | udp-offload.js:274-294 | the latest create or remove of a flow decides its entry; other flows do not interfere |
| `OffloadRuns.StepKeepsKeys` | udp-offload.js:274-294 | each step keeps the key sets of the two maps the same, with exactly one exception: a create for a flow not yet redirected whose redirect flow is missing or cannot be encoded |
| `OffloadRuns.HalfDoneHappens` | udp-offload.js:274-294 | the first create for any flow without a redirect flow throws TypeError and leaves its statistics entry behind |
| `OffloadRuns.SetOffloadFails` | udp-offload.js:269-298 | which error is thrown exactly when, and what the maps then are |
| `OffloadRuns.RunKeepsKeys` | udp-offload.js:274-294 | hence over all runs whose creates carry encodable redirect flows |
| `OffloadRuns.StatsCount` | kernel-offload/udp_kernel_offload.c:262-277 | the statistics of a flow are, modulo 64 bits, the packets and bytes passed on since it was last created, and the time of the last of them |
| `OffloadRuns.Accounts` | kernel-offload/udp_kernel_offload.c:262-277 | a packet passed on counts one, its length and its time for its flow alone; a flow without an entry gets one |
| `OffloadObject.UDPOffload.SetOffload` | udp-offload.js:269-298 | updates the maps as the run model does, errors included |
| `OffloadObject.UDPOffload.GetStat` | udp-offload.js:300-310 | reads the entry, or fails without one |
| `OffloadObject.Sidecar` | kernel-offload/udp_kernel_offload.c:138-277 | rewriting the packet buffer in place gives the model's packet, action and accounting |
| `OffloadObject.DecreaseTtl` | kernel-offload/udp_kernel_offload.c:59-65 | in place, with the wrap of TTL and checksum |
| `Lookup.TerminatesIff` | session.js:538-572 | a lookup ends exactly when its chain of deferrals does not come back to a list |
| `Lookup.AcyclicTerminates` | session.js:558-562 | acyclic deferral references make every lookup end |
| `Lookup.ScanIs` | session.js:549-557 | one pass finds the first match, every rule before it existing and not matching |
| `Lookup.DecidedByLastList` | session.js:549-571 | the outcome is decided by the last list of the chain alone, and one rule per list is counted |
| `Lookup.VerdictIs` | session.js:543-571 | the outcome of the last list: its first rule that matches or does not exist, none, or no such list |
| `Lookup.CountsFirstMatches` | rule.js:104-114 | the rule counted for each list of the chain is the first match of that list |
| `Lookup.FoundIsCounted` | session.js:558-571 | the rule that decides is the last one counted, in the list that decides, and does not defer |
| `Lookup.BumpCounts` | rule.js:110-110 | each rule's counter goes up by the number of times it is counted |
| `Lookup.DeferralCommits` | session.js:558-562 | a deferral commits: the outcome is the other list's, no action when nothing matches there |
| `Lookup.TailIgnored` | session.js:549-571 | rules after the first match never matter |
| `Lookup.Session.LookUp` | session.js:538-572 | returns that outcome, counts the applied rules and records the success |
| `Lookup.Session.ApplyRule` | rule.js:104-114 | counts exactly the matches |
| `Paths.PlainPaths` | rule.js:127-141 | on a path of plain segments, splitting and trimming leave just the loops |
| `Paths.EmptyPaths` | rule.js:130-159 | the path "/" reads and sets the root; the empty path sets it but reads nothing |
| `Paths.OuterSlashes` | rule.js:127-153 | a slash more or less at either end of a path makes no difference |
| `Paths.Falsies` | rule.js:138-168 | the values that stop a read and that a write replaces: undefined, null, false, 0 and the empty string |
| `Paths.EmptySegmentStops` | rule.js:138-140 | an empty segment ends a read |
| `Paths.EmptySegmentAssignsNothing` | rule.js:160-160 | and keeps a write from assigning its value |
| `PathLens.GetReturnsSet` | rule.js:127-178 | set, then get, on plain canonical segments returns the value or its copy |
| `PathNumerals.NormIs` | rule.js:161-162 | a segment with digits after blanks and a sign becomes the plain decimal form of the number they denote, the sum of its decimal places, whatever follows them |
| `PathNumerals.NormStays` | rule.js:161-162 | a segment without such digits stays as it is |
| `PathNumerals.CanonicalSegments` | rule.js:161-162 | the canonical segments, in terms of their characters: numerals without a leading zero, a minus sign before one other than zero, and texts with no digit after blanks and a sign; no others |
| `PathNumerals.DecimalIsCanonical` | rule.js:161-162 | the decimal form of every number is canonical |
| `PathLens.OtherPathsLose` | rule.js:161-162 | for every other plain path there is an object where the value is not found |
| `PathLens.SecondSetWins` | rule.js:143-178 | a second set on the same path succeeds and wins |
| `PathLaws.DivergingReads` | rule.js:143-178 | a read that branches off the written path is unchanged exactly when the shared part meets no falsy value other than a gap |
| `PathLens.PlantedValueReads` | rule.js:163-168 | the planted copy reads as the caller's object did |
| `PathLens.RootIsCopied` | rule.js:155-159 | an object set as the root is copied: the new root is a new object that reads as it did, and no older object changes |
| `PathLens.PlantedValueIsolated` | rule.js:163-168 | later changes to objects that existed before the copy do not show through |
| `PathLens.WriteFailsIff` | rule.js:160-176 | a write fails exactly when the root is no object or a truthy value that is none is in the way, and then changes nothing |
| `PathLens.Metadata.GetAtPath` | rule.js:127-141 | the loop over the shrinking list is the model function |
| `PathLens.Metadata.SetAtPath` | rule.js:143-178 | likewise, on the object store |
| `Broadcast.AddKeeps` | stream.js:156-197 | adding a port, even with a repeated key, keeps exactly one pipe between ports of different keys and none otherwise |
| `Broadcast.RemoveKeeps` | stream.js:203-231 | removing one keeps the mesh between the ports that remain |
| `Broadcast.RemoveTakesOldest` | stream.js:203-231 | an unknown key changes nothing; else the oldest port with the key goes, no other, and no pipe begins or ends at it any more |
| `Broadcast.PortsAre` | stream.js:149-232 | after any run the ports are exactly those added and not removed since, in the order of adding: under each key a queue from which every remove takes the oldest |
| `Broadcast.DeliveredOnce` | stream.js:149-232 | after any sequence of adds and removes a message reaches each port with a different key exactly once, and no other |
| `Broadcast.BroadcastStream.AddPort` | stream.js:156-197 | the two loops attach those pipes |
| `Broadcast.BroadcastStream.RemovePort` | stream.js:203-231 | the two loops detach those of the oldest port with the key |

## Left out

- Sockets, HTTP, WebSocket, timers, files and `pEvent`: an attempt succeeds or fails, a start succeeds or fails.
- Node's stream events: which event reports a loss, `unpipe` handlers, `pipes.total` and `pipes.offloaded` after a disconnect.
- p-retry's own treatment of a `TypeError` thrown by an attempt, and its timing.
- What deletes do to sessions: a recursive delete also ends or disconnects sessions that use the object (l7mp.js:420-423, l7mp.js:527-536, l7mp.js:1065-1092); the registries do not depend on it.
- Interleaving of registry calls: `addListener` and `addRoute` check a name before an await, so two concurrent calls could both pass.
- RegistryObject.L7mp: registered objects are values; that a cluster's list and the endpoint registry hold the same endpoint object is not modelled, only that they agree.
- Registry.ValidName: knows four white-space characters, not the Unicode ones that the regular expression excludes.
- Schemas: whether a specification has the required properties, a known protocol and a known policy is a flag of the specification.
- Clusters.Apply: the hash ring is some function into the key set, the fallback to a random key included.
- Options, weights, statistics counters, metrics, admin settings, monitoring, the OpenAPI layer and the Kubernetes operator.
- Session creation in UDP server mode (listener.js:477-568): it awaits between its check and its insert.
- Route checks and metadata rewriting at session creation, beyond the path functions themselves.
- Lookup.Tables: rule lists and rules are found by unique names, and a match is a truth value per rule; predicates do not change during a lookup.
- Paths.Prop: properties inherited from prototypes, properties of strings, and the length of arrays.
- Paths.Norm: numbers too large for plain decimal notation.
- Offload.Process: LRU eviction, a failing `bpf_skb_store_bytes` or `bpf_redirect`, the route lookup beyond its three kinds of answer, and receive hashing.
- Checksum.UpdateIsRecomputation: `update_udp_checksum` itself, which no live code calls.
- OffloadRuns.GetStat: the choice of metrics; and the set `flows`, whose removals go by object identity.
- The parser of the BPF object, `tc`, sysctl and pinned maps.
- Message order and back pressure in the broadcast mesh.
