# Sierra grid data: proofs about ownership, identity and status

The service ingests hazards (evacuations, fires, closures, burn rules) into SQLite
and serves them. This project models the parts whose failure hurts people or data,
and proves what they promise over every input and every run.

- **Handoff** (`handoff_*.dfy`). A database is passed from one process to the next.
  `Lifecycle` is one controller as a state machine over its mutex sections, with
  service calls that may succeed, fail, panic or return `ErrStillHeld`.
  `ControllerObject` is the same code as a class, each method proved against that
  machine. `LifecycleGuarantees` holds what every run of one process keeps.
  `Deployment` puts any number of processes, crashes, restarts with fresh instance
  ids, a network that delays, repeats and loses commands, and the coordinator's rule
  around it, and proves that at most one process ever has the database open. The file
  lock is not used in that proof. `Gate` is the admission gate under every
  interleaving; `Release`, `GridService` and `RelayService` show that both services
  keep the contract the controller relies on. `LifecycleOutcomes` says where each
  command, return and signal leads, and `Handover` that ownership can move.
- **Evacuations** (`evacuation_*.dfy`). How rows that collide on an id become zones with
  ids that survive from poll to poll, exactly when a zone keeps its id, when a zone is
  polled as one event, and the level each status tells in words.
- **Lane closures** (`adoption.dfy`, `lane_closure*.dfy`). Which rows of a poll become
  events, and the move of ids from the old feed by a match that is unique both ways.
- **Reporter editor** (`entry_list*.dfy`, `reporter_*.dfy`). A YAML file edited as lines.
  The list algorithms take the reading of one line as a parameter (`Reader`, `Format`);
  `ReporterYaml` is the reading the program uses, and proves the laws they rely on.
- **Environment check** (`envcheck*.dfy`): reported overrides and their suggestions.
- **ETag** (`etag.dfy`): the hashed bytes can be read back; If-None-Match follows
  section 13.1.2 of RFC 9110 except on tags with a star between two commas.
- **Layer cache** (`layer_*.dfy`): cached answers equal those of the build history,
  and what a request is answered after any run.
- **Burn status** (`burn_*.dfy`): exactly when burning is called allowed and prohibited, from
  the staged words and times.
- **Place summary** (`place_*.dfy`): source health, the rollup, the domains, the mode.

`wrappers.dfy`, `text.dfy` and `stable_sort.dfy` hold the option type, the string
operations and the stable sort that several modules use.

Wherever the source changes state in place, the model has a class or a method with the
same loops and fields, proved equal to a function; the promises are proved about that
function.

## Where the code and its comments differ

The model follows the code.

- `cmd/ingest-token/edit.go:177-180` says rotation leaves every other line of an entry
  alone. When the hash is the item's own first field (`- tokenSha256: …`), the line
  that opens the item is replaced, and the entry stops being one. Two rotations then
  equal the last one only under the exact condition in
  `ReporterPromises.RotateTwiceIsRotateLast`;
  `ReporterPromises.RotatingAnInlineHashTwice` is a file on which they differ.
- `cmd/ingest-token/edit.go:51-54` says an existing entry with the id keeps its position,
  and `cmd/ingest-token/edit.go:126-129` that anything indented like an item is part of
  the list. The scan stops at the first blank line, so an id stored below one is added a
  second time (`ReporterDuplicates.ABlankLineHidesAReporter`): that happens exactly if no
  entry above has the id (`ReporterDuplicates.AddedIffUnnamed`) and an item below does
  (`ReporterDuplicates.AdditionDuplicates`).
- `internal/gridapi/etag.go:53-55` says a foreign tag cut by the comma split can never
  match. The tag `"a,*,b"` is one legal tag with a star between commas, and matches every
  ETag (`ETag.AForeignTagCanMatch`). `ETag.MatchesIffListed` says on which lists that
  happens, and that nothing else is out of line with RFC 9110 for the tags given here.
- `internal/ingest/evacuation.go:308-312` says a surviving zone keeps its suffixed id. A
  zone without geometry is at infinite distance from its own prior event and claims no
  id. It gets the first suffix that no zone inherits, or the second if one zone without
  a claim comes before it, and so on, and keeps its id iff that is the one
  (`EvacuationSurvivors.UnlocatedZoneKeepsIff`). While zones with positions are only
  lifted, this can be told before the poll
  (`EvacuationSurvivors.UnlocatedSurvivorKeepsItsIdIff`). A lone one always gets the bare
  id (`EvacuationSurvivors.UnlocatedSurvivorKeepsOnlyTheBareId`).
- `internal/ingest/evacuation.go:379-382` says zones are compared by "the same keys the
  id derivation used". The derivation skips a blank column
  (`internal/ingest/ingest.go:329-337`), the comparison only an empty one. Two rows with
  zone id " " and different names are one zone under two ids, and are polled as two
  events (`EvacuationZones.ABlankZoneIdSplitsAZone`). A poll gives each zone one event
  exactly under the condition in `EvacuationZones.OneEventPerZoneIff`.
- `internal/ingest/lane_closure.go:518-521` says an adoption recurs every tick. The
  stored event moves to the window's begin point, where another window of the same
  closure may match it: `LaneClosurePoll.AnAdoptedIdCanBeDropped` is a poll after which
  the id is dropped. The ids stay exactly under the condition in
  `LaneClosurePoll.AdoptionIsStableIff`, which also counts old events that were not
  adopted and are still stored.
- `internal/ingest/lane_closure.go:493-496` says new ids never match the old pattern.
  One does iff its index is one alphanumeric part and six hex digits
  (`LaneClosurePoll.NativeIdReadsAsLegacyIff`).
- `internal/ingest/burn_status.go:288-289` says a county absent from a successful CAL
  FIRE fetch stays unknown. Lines 326-335 carry the stored answer forward then too
  (`BurnStatus.AbsentCountyReadsAsStored`), so such a county can be told that burning is
  allowed (`BurnStatus.AnUnlistedCountyCanBeAllowed`).
- `internal/handoff/controller.go:601-666` reads the current operation without asking
  whether there is one; there is none between the control server's start and the boot
  activation (`LifecycleGuarantees.MissingOperationOnlyBeforeBoot`).

## Model

| member | source | states |
|---|---|---|
| Deployment.AtMostOneOwner | internal/handoff/doc.go:19-35 | in every run of any number of processes, restarts, delayed and repeated commands, signals and failing services, two processes with the database open are the same one; no file lock is assumed |
| Deployment.UnaddressedCommandsAreUnsafe | internal/handoff/controller.go:560-599 | the instance guard is needed: the same coordinator without expectedInstanceId has a run with two owners |
| Deployment.DeployInv | internal/handoff/controller.go:351-474 | the system invariant behind the theorem (one grantee, everyone else released or gone, only addressed grants in the network) survives every step |
| Handover.HandOverIsPossible | internal/handoff/doc.go:19-35 | safety is not idleness: from any system with a serving owner and a standby there is an addressed run after which the owner is QUIESCED and the standby has the database open |
| LifecycleGuarantees.EveryRunIsConsistent | internal/handoff/controller.go:351-474 | in every run: open implies held, held iff neither STANDBY nor QUIESCED, at most one running operation, the completion channel is the current operation's, and it is closed exactly once that has ended |
| LifecycleGuarantees.OnlyAGrantTakesOwnership | internal/handoff/doc.go:22-27 | a process comes to hold the database only by its boot activation or an accepted activate command, and no event opens it while it is not held |
| LifecycleGuarantees.QuiescedIsTerminal | internal/handoff/doc.go:28-30 | after QUIESCED no sequence of events changes the state, opens the database or starts an operation |
| LifecycleGuarantees.RepliesTellTheTruth | internal/handoff/controller.go:601-666 | what each accepting answer commits to: the named operation runs, or its result already holds |
| LifecycleGuarantees.MissingOperationOnlyBeforeBoot | internal/handoff/controller.go:197-220 | a handler reads a missing operation exactly in the window before the boot activation begins |
| LifecycleGuarantees.ReplayIsInert | internal/handoff/controller.go:601-666 | repeating the id of the current or latest operation changes nothing |
| LifecycleGuarantees.DuplicateDelivery | internal/handoff/controller.go:601-666 | a command delivered twice in a row does what it does once |
| LifecycleGuarantees.LatestOperationStays | internal/handoff/controller.go:351-388 | over a run the latest operation keeps its id and kind until a newer one begins |
| LifecycleGuarantees.LateReplayIsInert | internal/handoff/controller.go:601-666 | until a newer operation begins, every late copy of the command that started the latest one is inert |
| LifecycleGuarantees.ReplayMemoryIsOneDeep | internal/handoff/controller.go:606-610 | only the latest failed id is refused: after a second failed activation the first id is accepted again |
| LifecycleGuarantees.ExitZeroMeansReleased | internal/handoff/controller.go:277-323 | shutdown returns 0 only in QUIESCED, not held, not open, with nothing running, and stays so; at most two quiesce attempts of its own |
| LifecycleGuarantees.WaitsOnlyForCancelledActivations | internal/handoff/controller.go:288-298 | an activation that shutdown waits for has had its context cancelled |
| LifecycleGuarantees.RemainingSteps | internal/handoff/controller.go:277-323 | each event lowers a bounded measure when it is progress and raises it by at most three when it starts an operation |
| LifecycleGuarantees.ShutdownTerminates | internal/handoff/controller.go:277-323 | over any run, shutdown's steps and the operations it waits for number at most what remained plus three per operation others started |
| LifecycleGuarantees.ShutdownIsNeverStuck | internal/handoff/controller.go:277-323 | until it has exited, shutdown can step or a worker it waits for can return |
| LifecycleOutcomes.CommandOutcome | internal/handoff/controller.go:560-666 | when a command starts an operation, when it fences a standby, and that otherwise the process stays as it was |
| LifecycleOutcomes.AcceptedIff | internal/handoff/controller.go:601-666 | exactly which commands are answered 200 and 202 |
| LifecycleOutcomes.ReturnOutcome | internal/handoff/controller.go:389-452 | a nil return makes the process ACTIVE under its id or QUIESCED and released; an error, ErrStillHeld and a panic each lead where the contract says |
| LifecycleOutcomes.StartedThenNil | internal/handoff/controller.go:28-49 | a command that has to start an operation, then any run, then a nil return: ACTIVE under the command's id, or released for good |
| LifecycleOutcomes.ExitCodeIff | internal/handoff/controller.go:277-323 | a step of shutdown that exits returns 0 iff the process is then QUIESCED, which is iff it is not held |
| LifecycleOutcomes.ShutdownOutcome | internal/handoff/controller.go:277-323 | at the top of its loop: fence a standby, exit when released, cancel and wait for an activation, wait for a running quiesce, else start one |
| LifecycleOutcomes.AServingProcessExitsZero | internal/handoff/controller.go:277-323 | a serving process that gets the signal, and whose service closes its database and returns nil, exits with 0 |
| Lifecycle.RunInv | internal/handoff/controller.go:351-474 | the inductive invariant of one process holds over every sequence of events |
| Lifecycle.BeginInv | internal/handoff/controller.go:351-372 | beginning keeps the invariant and leaves exactly the new operation running |
| Lifecycle.CompleteInv | internal/handoff/controller.go:389-452 | either completion keeps the invariant, ends the worker's operation and keeps "open implies held" |
| Lifecycle.DeliverInv | internal/handoff/controller.go:560-666 | a delivered command keeps the invariant, and starts at most the operation it reports |
| Lifecycle.FenceInv | internal/handoff/controller.go:466-474 | fencing a standby keeps the invariant and leaves nothing running |
| Lifecycle.ShutdownStepInv | internal/handoff/controller.go:277-323 | every section of shutdown keeps the invariant |
| ControllerObject.Controller.constructor | internal/handoff/controller.go:127-137 | a new controller is STANDBY or ACTIVATING without an operation |
| ControllerObject.Controller.BeginLocked | internal/handoff/controller.go:351-372 | in place: the whole new state of the guarded fields, with a fresh operation and channel |
| ControllerObject.Controller.FinishLocked | internal/handoff/controller.go:375-386 | in place: the operation's status, and its channel closed once |
| ControllerObject.Controller.CompleteActivation | internal/handoff/controller.go:389-427 | in place: ACTIVE on success, STANDBY on a clean failure, still held on ErrStillHeld or panic |
| ControllerObject.Controller.CompleteQuiescence | internal/handoff/controller.go:429-452 | in place: QUIESCED and released on success, QUIESCING and held otherwise |
| ControllerObject.Controller.FenceLocked | internal/handoff/controller.go:466-474 | in place: STANDBY to QUIESCED without opening anything |
| ControllerObject.Controller.HandleActivateLocked | internal/handoff/controller.go:601-630 | in place: the answer and the new state for each state and id |
| ControllerObject.Controller.HandleQuiesceLocked | internal/handoff/controller.go:631-666 | in place: the answer and the new state for each state and id |
| ControllerObject.Controller.Authed | internal/handoff/controller.go:560-599 | token, then instance guard, then the handler |
| ControllerObject.Controller.ShutdownSection | internal/handoff/controller.go:277-323 | one pass of shutdown's loop up to where it blocks or returns |
| Gate.IdleExactlyWhenEmpty | internal/handoff/gate.go:47-71 | under every interleaving the idle channel is closed exactly when nothing is in flight, is never closed twice, and the counter is the number of admitted requests |
| Gate.ClosedOnlyDwindles | internal/handoff/gate.go:113-117 | after Close no interleaving raises the number in flight |
| Gate.DrainReport | internal/handoff/gate.go:156-189 | a finished drain reports Remaining <= Cancelled <= InFlight, and one that ended within its grace means no admitted request exists then or later |
| Gate.DrainFinishes | internal/handoff/gate.go:156-189 | a drain can always step, and each step brings its end nearer |
| Gate.DrainCountsWere | internal/handoff/gate.go:156-189 | each count of a drain is the number of requests in flight at its own moment of the run |
| Gate.EachRequestCounts | internal/handoff/gate.go:47-70 | an arriving request is admitted iff the gate is open, a finishing one is gone, and no other is touched |
| Gate.GraceEndsIff | internal/handoff/gate.go:156-189 | the grace ends without a timeout iff no request is left, and the drain then finishes without cancelling |
| Gate.CancelsOnlyAfterAGrace | internal/handoff/gate.go:156-189 | in every run, requests are cancelled only after a grace during which some were in flight |
| Gate.AdmissionGate.Enter | internal/handoff/gate.go:47-60 | admits exactly when open, and makes a fresh idle channel for the first request |
| Gate.AdmissionGate.Finish | internal/handoff/gate.go:61-70 | retires one request, closing the idle channel with the last |
| Gate.AdmissionGate.Close | internal/handoff/gate.go:113-117 | closes and changes nothing else |
| Release.StepsInOrderAndOnce | cmd/server/grid.go:591-661 | over any sequence of failing and retried calls the steps carried out are the recorded ones, in order, each at most once, and the store is closed last |
| Release.RetryResumes | cmd/server/grid.go:591-661 | a retry carries out only steps after those already done, starting with the one that failed |
| Release.NilMeansStoreClosed | internal/handoff/controller.go:46-49 | a nil result means the store is closed, whatever calls came before |
| Release.ActivateHonoursTheContract | internal/handoff/controller.go:39-45 | a failed activation that does not wrap ErrStillHeld has closed the store; success leaves it open |
| Release.QuiesceOutcome | cmd/server/grid.go:591-661 | which step ends a call, with what result, and that every due step before it was carried out |
| Release.ActivateOutcome | internal/handoff/controller.go:39-45 | nil if it did not fail; after a failure a plain one with the store closed iff every step of the cleanup works, else still held or a panic |
| GridService.GridApp.Quiesce | cmd/server/grid.go:591-661 | gridApp's fields after a call, and its result, are those of the step list |
| GridService.GridApp.Activate | cmd/server/grid.go:164-195 | the deferred cleanup gives gridApp the activation contract |
| RelayService.RelayApp.Quiesce | cmd/mesh-relay/main.go:278-333 | relayApp's fields after a call, and its result, are those of its own step list |
| RelayService.RelayApp.Activate | cmd/mesh-relay/main.go:136-157 | the same activation contract for the relay |
| EvacuationIds.AssignContinuityIds | internal/ingest/evacuation.go:330-376 | the loops give the ids of the two-pass rule, and end |
| EvacuationIds.IdsDistinct | internal/ingest/evacuation.go:330-376 | the ids of one collision group are pairwise distinct |
| EvacuationIds.NewZonesTakeTheLowestSuffix | internal/ingest/evacuation.go:356-372 | a zone without a prior takes the least suffix that no other zone of the group wears |
| EvacuationIds.NoIdVanishes | internal/ingest/evacuation.go:338-355 | in a county whose zones have positions exactly min(zones, priors) prior ids are reused, so none vanishes while as many zones remain |
| EvacuationIds.SurvivorsKeepTheirIds | internal/ingest/evacuation.go:295-376 | if every winner with a position is a stored zone, each of these keeps that zone's id whichever siblings were lifted, whatever zones without a position are listed, and in whatever order |
| EvacuationIds.IdsNeverFlip | internal/ingest/evacuation.go:295-376 | over a run of polls in which zones are only lifted, every emitted event is one of those stored at the start, id and all |
| EvacuationNaming.SiblingsAre | internal/ingest/evacuation.go:330-337 | the stored events that may hand on ids are those with the base id or the base, a dash and a suffix |
| EvacuationNaming.TheNearerIdIsInherited | internal/ingest/evacuation.go:338-355 | of two zones stored in a county a zone gets the id of the nearer, the first of equals |
| EvacuationNaming.ASuffixSurvivesALift | internal/ingest/evacuation.go:308-312 | a located zone stored under a suffix keeps it when the zone with the bare id is lifted |
| EvacuationNaming.OthersLeaveNoId | internal/ingest/evacuation.go:338-355 | a zone of another county, or one without a position, hands its id to nobody |
| EvacuationNaming.AFirstPollNumbers | internal/ingest/evacuation.go:356-376 | without a prior the zones are numbered in order: the bare id, -2, -3 and so on |
| EvacuationNaming.IdsAreOfTheBase | internal/ingest/evacuation.go:330-376 | every id of a group is its base, or the base, a dash and a suffix |
| EvacuationNaming.EmittedAreSiblings | internal/ingest/evacuation.go:330-337 | everything a poll emits is looked at again by the next poll |
| EvacuationNaming.IdsNeverFlipAfterAPoll | internal/ingest/evacuation.go:308-376 | after any poll, while its zones are only lifted, every event emitted over a run of polls is one that poll emitted |
| EvacuationSurvivors.NewcomerTakesTheId | internal/ingest/evacuation.go:341-355 | the hypothesis is needed: a newcomer sorted earlier takes a survivor's id |
| EvacuationSurvivors.SurvivorKeepsItsIdIff | internal/ingest/evacuation.go:338-355 | a located survivor keeps its id iff no zone sorted before it finds its stored event, in turn, the nearest free one of the county |
| EvacuationSurvivors.SurvivorKeepsItsIdIffNobodysChoice | internal/ingest/evacuation.go:338-355 | before the poll: if the zones sorted before it have different stored events nearest to them, a located survivor keeps its id iff its own event is none of these |
| EvacuationSurvivors.UnlocatedZoneKeepsIff | internal/ingest/evacuation.go:338-376 | in any group a zone without geometry has the id iff that is the (u + 1)-th suffix no zone inherits, u being the zones without a claim before it |
| EvacuationSurvivors.UnlocatedSurvivorKeepsItsIdIff | internal/ingest/evacuation.go:308-376 | while zones with a position are only lifted: iff it is the (u + 1)-th suffix no listed stored zone with a position has, u being the zones without one before it |
| EvacuationSurvivors.UnlocatedSurvivorKeepsOnlyTheBareId | internal/ingest/evacuation.go:341-372 | a lone survivor without geometry keeps its id iff that is the bare id |
| EvacuationPoll.SameZoneIsEqualityOfKeys | internal/ingest/evacuation.go:378-391 | sameEvacZone is equality of a key, and so an equivalence |
| EvacuationPoll.RowsOfAZoneShareAnIdIff | internal/ingest/evacuation.go:224-234 | two rows of one zone share an id iff the column that tells the zone is not blank, or their other columns name them alike |
| EvacuationPoll.ClustersPartition | internal/ingest/evacuation.go:263-274 | first-match clustering against heads gives exactly the classes of sameEvacZone |
| EvacuationPoll.WinnersRepresent | internal/ingest/evacuation.go:276-293 | one winner per zone, of rank at least that of every row of the zone |
| EvacuationPoll.OrderIgnoresTheFeed | internal/ingest/evacuation.go:295-307 | with distinct sort keys the order of the winners does not depend on the order upstream |
| EvacuationPoll.GroupIsRepresented | internal/ingest/evacuation.go:262-319 | a group's events cover its candidates, one per zone, under distinct ids |
| EvacuationPoll.ClusterByZone | internal/ingest/evacuation.go:263-274 | the clustering loop |
| EvacuationPoll.Collapse | internal/ingest/evacuation.go:276-293 | the loop keeping the first candidate of the highest level |
| EvacuationPoll.ResolveIdCollisions | internal/ingest/evacuation.go:262-319 | clustering, collapsing, sorting and naming in sequence |
| EvacuationPoll.GroupById | internal/ingest/evacuation.go:72-104 | the first loop of Poll: one group per derived id, in order of first meeting |
| EvacuationPoll.Poll | internal/ingest/evacuation.go:72-110 | the emitted events are the resolved groups in that order |
| EvacuationPoll.PollIsFaithful | internal/ingest/evacuation.go:72-110 | for every feed: no event is invented, and every row that is not explicitly inactive is represented by an event of its zone at its rank or above |
| EvacuationLevels.AWordIsAnyPart | internal/hazards/severity.go:196-225 | a word is read wherever it stands in the text |
| EvacuationLevels.LevelsAreTold | internal/hazards/severity.go:185-225 | the polled level from the words of the status: the strongest word, dropped iff an ending word stands in it, WARNING for a blank or unknown text |
| EvacuationLevels.CapitalsAreRead | internal/ingest/evacuation.go:72-104 | case and surrounding blanks of a status change nothing |
| EvacuationLevels.EveryLevelIsTold | internal/ingest/evacuation.go:72-104 | every row that ends nothing has an event of its zone at its own level or a stronger one, and every event has the level its own row tells |
| EvacuationLevels.AnOrderIsPolledAsOne | internal/ingest/evacuation.go:72-104 | a row that says "order" and nothing that ends it has an event of its zone at level ORDER |
| EvacuationLevels.TheStrongestLevelWins | internal/ingest/evacuation.go:236-306 | where no zone is split, the event of a zone has the strongest level listed for it |
| EvacuationLevels.OneZoneIff | internal/ingest/evacuation.go:379-391 | one zone: the same zone id, or without one the same name and county, or without those the same county and shape |
| EvacuationEvents.EveryIdIsOfItsRow | internal/ingest/evacuation.go:224-236 | the id of an event is what its row's columns ask for, or that and a suffix |
| EvacuationEvents.AGroupIsInOrder | internal/ingest/evacuation.go:295-307 | the zones of one id are numbered by county, then from south to north, then from west to east |
| EvacuationEvents.TheFirstOfTheStrongestSpeaks | internal/ingest/evacuation.go:262-294 | the row that speaks for a zone is the first listed of its strongest |
| EvacuationZones.OneEventPerZoneIff | internal/ingest/evacuation.go:72-110 | a poll emits at most one event per zone iff no two kept rows of one zone are named apart |
| EvacuationZones.ABlankZoneIdSplitsAZone | internal/ingest/evacuation.go:224-234 | two rows with zone id " " and different names: one zone, two ids, two events |
| Adoption.AdoptIds | internal/ingest/lane_closure.go:541-567 | in place: an id is adopted iff the match is unique both ways, although claims are looked up by ids already rewritten |
| Adoption.CountMatches | internal/ingest/lane_closure.go:541-558 | the maps hold each old event's candidates and each window's claims |
| Adoption.AdoptionIsAPartialInjection | internal/ingest/lane_closure.go:541-567 | a window has an old id iff the two match each other and nothing else |
| LaneClosure.AdoptLegacyClosureIds | internal/ingest/lane_closure.go:523-568 | the same, for the closure and log-number match within 250 meters of an endpoint |
| LaneClosure.FinalIdsAreDistinct | internal/ingest/lane_closure.go:493-568 | with native ids outside the old pattern, ids after adoption are pairwise distinct |
| LaneClosure.PaddingIsIgnored | internal/ingest/lane_closure.go:570-580 | leading zeros never tell log numbers apart |
| LaneClosure.PhasesOnlyMoveOn | internal/clients/cwwp2/laneclosure.go:89-121 | by the clock alone an ended window never comes back, and an indefinite one never ends |
| LaneClosurePoll.NativeIdReadsAsLegacyIff | internal/ingest/lane_closure.go:493-497 | a native id reads as one of the old feed iff its index is one alphanumeric part and six hex digits |
| LaneClosurePoll.Filter | internal/ingest/lane_closure.go:121-154 | the row loop keeps the first listed row of each id and counts unreadable rows in scope |
| LaneClosurePoll.Poll | internal/ingest/lane_closure.go:88-170 | a hard error iff there are no incident areas or every district failed; degraded iff one did or a row in scope was unreadable; ids by adoption |
| LaneClosurePoll.NothingIsDroppedQuietly | internal/ingest/lane_closure.go:78-87 | in a poll not marked degraded every row is listed, readably over, or out of scope |
| LaneClosurePoll.AdoptionIsStableIff | internal/ingest/lane_closure.go:518-521 | whatever else is stored, the next poll of the same windows gives the same ids iff no adopted id, stored where its window is, matches another window, and the old events nothing adopted match no window with an adopted id and are no other window's mutual match |
| LaneClosurePoll.AnAdoptedIdCanBeDropped | internal/ingest/lane_closure.go:518-521 | two windows on one road for which the id adopted in one poll is dropped in the next |
| LaneClosurePoll.AnIdOfTheOldFeed | internal/ingest/lane_closure.go:493-497 | an id made of a closure, a log number and six hex digits reads back as that closure and log number: such an id meets the hypothesis of that failing poll |
| LaneClosureFacts.PhaseOnTheFacts | internal/clients/cwwp2/laneclosure.go:89-121 | exactly when a closure is CANCELLED, ACTIVE or SCHEDULED, and so when COMPLETED, from its codes, its planned end, the clock and the grace |
| LaneClosureFacts.LogNumbersAreToldApart | internal/ingest/lane_closure.go:570-580 | log numbers, padded with zeros or not, are the same iff they are the same number |
| LaneClosureFacts.MatchOnTheFacts | internal/ingest/lane_closure.go:523-600 | an old event matches a window iff that is in place, of its closure and log number, with an endpoint within 250 m |
| LaneClosureFacts.RowsOnTheFacts | internal/ingest/lane_closure.go:121-172 | a row kept is readable, in an area, and to come or in place, and every such row has one under its id; its event is ACTIVE iff it is in place |
| LaneClosureFacts.UnreadableOnTheFacts | internal/ingest/lane_closure.go:121-172 | a row counts as unreadable iff it is unrecognised and touches an area or has no place at all |
| LaneClosureFacts.ScopeOnTheFacts | internal/ingest/lane_closure.go:175-195 | a closure is in scope iff one of its ends lies within the bounds of an area |
| LaneClosureFacts.IdOnTheFacts | internal/ingest/lane_closure.go:197-200 | the id is the district and the index without its colons |
| LaneClosureFacts.OldIdsAre | internal/ingest/lane_closure.go:493-521 | an id reads as one of the old feed iff it is its prefix, a closure, a log number and six hex digits |
| EntryList.EntryRanges | cmd/ingest-token/edit.go:148-161 | the loop finds one range per item, each up to the next |
| EntryList.RangesAreEntries | cmd/ingest-token/edit.go:144-161 | those ranges cut the list into its entries and nothing else |
| EntryList.ChopIsUnique | cmd/ingest-token/edit.go:144-161 | a list has one cut into lines before the first item and entries |
| EntryList.EntryField | cmd/ingest-token/edit.go:166-175 | the first line of an entry that holds the field, and its value |
| EntryList.RotateToken | cmd/ingest-token/edit.go:181-199 | the file with the first matching entry's hash replaced or inserted |
| EntryListLaws.PlainRotation | cmd/ingest-token/edit.go:177-199 | a hash on its own line: one row of the list changes, and a later rotation gives what it gives alone |
| EntryListLaws.InlineRotationMerges | cmd/ingest-token/edit.go:187-192 | an inline hash: the entry is merged into the one above, or lost to the lines before the list |
| EntryListLaws.InlineRotationTwice | cmd/ingest-token/edit.go:187-192 | a second rotation finds the line again iff the list is Repeatable; otherwise the first hash stays |
| ReporterEdit.FindReportersKey | cmd/ingest-token/edit.go:85-124 | the key of the only ingest block, or which of the four refusals |
| ReporterEdit.ListExtent | cmd/ingest-token/edit.go:130-142 | the end of the run of lines indented like items |
| ReporterEdit.UpsertReporter | cmd/ingest-token/edit.go:40-79 | the whole edit: rotation if the id is there, else addition, else an error |
| ReporterEditLaws.KeyStays | cmd/ingest-token/edit.go:85-124 | an edited file has its key in the same place, now of a block list |
| ReporterEditLaws.AddThenRotateLines | cmd/ingest-token/edit.go:40-79 | on lines: add then rotate equals add with the new hash |
| ReporterEditLaws.RotateTwiceLines | cmd/ingest-token/edit.go:177-199 | on lines: two rotations equal the last iff the list is Repeatable |
| ReporterYaml.YamlIsLawful | cmd/ingest-token/edit.go:85-239 | the lines the program reads and writes keep every law the editor relies on |
| ReporterYaml.EscapedNameReadsBack | cmd/ingest-token/edit.go:226-230 | an escaped name in double quotes reads back as the name |
| ReporterReads.AnEntryReadsBack | cmd/ingest-token/edit.go:201-225 | of an added entry the id, hash, streams, staleAfter, minInterval and priority read back |
| ReporterReads.StreamsReadBack | cmd/ingest-token/edit.go:201-225 | the written list of streams reads back word by word |
| ReporterReads.NameReadsBack | cmd/ingest-token/edit.go:205-230 | the written name reads back |
| ReporterReads.AnEntryIsIndented | cmd/ingest-token/edit.go:205-225 | the item has the list's indent and its fields two more |
| ReporterReads.OnlyItsOwnNameReads | cmd/ingest-token/edit.go:162-175 | a line `key: value` holds the field of its own name and no other |
| ReporterReads.IngestIff | cmd/ingest-token/edit.go:85-95 | the line that opens the block: two spaces, `ingest:` and blanks |
| ReporterReads.KeyFoundIff | cmd/ingest-token/edit.go:85-124 | the key is found iff it is the first after the only ingest block, before a line that leaves it |
| ReporterReads.BlocksRefusedIff | cmd/ingest-token/edit.go:85-102 | a file is refused for its blocks iff it has none, or more than one |
| ReporterReads.ValueRefusedIff | cmd/ingest-token/edit.go:103-124 | it is refused for a value iff the first key in the block has one that is neither empty nor `[]` |
| ReporterReads.NoKeyIff | cmd/ingest-token/edit.go:103-124 | it is refused for lack of a key iff the block ends before one |
| ReporterPromises.AddThenRotateIsAdd | cmd/ingest-token/edit.go:27-79 | on files: adding, then running again with a new hash, gives the text of adding with that hash, and reports a rotation |
| ReporterPromises.RotateTwiceIsRotateLast | cmd/ingest-token/edit.go:55-63 | on files: two rotations of one id give the text of the last alone iff RotationRepeats |
| ReporterPromises.RotatingAnInlineHashTwice | cmd/ingest-token/edit.go:187-192 | a four-line file on which they differ, for every two hashes |
| ReporterPromises.AdditionAddsARow | cmd/ingest-token/edit.go:65-78 | addition adds one id and hash at the end of the list and changes no other row |
| ReporterPromises.RotationChangesARow | cmd/ingest-token/edit.go:177-199 | rotation changes the hash of the named row and no other, iff its hash is not inline |
| ReporterPromises.RotationIsOneLine | cmd/ingest-token/edit.go:55-63 | rotation replaces one line of the named entry, or inserts one after its id; every other line stays |
| ReporterDuplicates.AddedIffUnnamed | cmd/ingest-token/edit.go:51-65 | the command adds iff no entry between the key and the end of the scanned list has the id |
| ReporterDuplicates.AdditionDuplicates | cmd/ingest-token/edit.go:65-79 | after an addition there are as many entries with the id, down to any line, as there were below the scanned list, and one more |
| ReporterDuplicates.ABlankLineHidesAReporter | cmd/ingest-token/edit.go:126-142 | for every two reporters with a blank line between them, the second is there once, and running the command for it again leaves it twice |
| EnvCheck.CanonicalResolvesExactly | internal/config/envcheck.go:82-131 | the path the case-folding walk gives resolves to itself without folding |
| EnvCheck.CaseSlipsAreCanonicalised | internal/config/envcheck.go:82-131 | with tags distinct up to case, a path wrong only in case always gets a canonical one |
| EnvCheck.ResolvesIffPath | internal/config/envcheck.go:82-131 | a key resolves iff its path leads somewhere: by the first field with the tag, through maps by any key, into slices, through pointers unnoticed, and never past a value |
| EnvNames.EnvToConfigKey | internal/config/envcheck.go:141-156 | the loops give the dotted key of the segments |
| EnvNames.ConfigKeyToEnv | internal/config/envcheck.go:160-173 | the loops give the upper-snake name |
| EnvNames.EnvNameReadsBack | internal/config/envcheck.go:141-173 | for ASCII segments without underscores the name reads back as the segments |
| EnvOverrides.ValidateEnvOverrides | internal/config/envcheck.go:36-68 | the problems, in the order of the environment |
| EnvOverrides.ReportedIffIgnored | internal/config/envcheck.go:36-68 | a problem is reported iff some variable of the environment has it |
| EnvOverrides.IgnoredMeansNoKey | internal/config/envcheck.go:40-58 | a variable has a problem iff it is in our namespaces and leads to no key; a case slip always gets a suggestion |
| EnvOverrides.AnOverrideIsReportedIff | internal/config/envcheck.go:36-80 | the variable of a key is reported, under its own name and key, iff the key begins in one of our sections and is no path of the configuration |
| EnvOverrides.OthersAreNotReported | internal/config/envcheck.go:40-48 | a variable without our prefix, or a line without an equals sign, never is |
| EnvOverrides.EverySuggestionWorks | internal/config/envcheck.go:53-57 | setting the suggested variable is accepted, and sets exactly the existing key the message names |
| ETag.ParseOfStream | internal/gridapi/etag.go:36-47 | a decoder recovers every part from the hashed bytes |
| ETag.StreamOfParse | internal/gridapi/etag.go:36-47 | whatever the decoder accepts is what its parts are written as |
| ETag.StreamsDiffer | internal/gridapi/etag.go:34-47 | different content types or part lists never feed the hash the same bytes |
| ETag.AShortPartIsFramed | internal/gridapi/etag.go:36-47 | the eight bytes before a part are its length, least byte last |
| ETag.DataETag | internal/gridapi/etag.go:36-49 | the tag is made from the hash of that stream |
| ETag.TagsAreDigests | internal/gridapi/etag.go:48 | two tags are equal iff the truncated hashes are |
| ETag.HexReads | internal/gridapi/etag.go:48 | the digits of a tag are those of the hash, high half of a byte first |
| ETag.InmMatches | internal/gridapi/etag.go:56-71 | the scan finds a match iff some element of the header accepts the tag |
| ETag.MatchesIffListed | internal/gridapi/etag.go:51-71 | on every list of tags RFC 9110 allows, against any such tag: iff an element is *, is weakly equal to a tag without commas, or has a star cut out of its inside by the comma split |
| ETag.AsciiHidesStarIff | internal/gridapi/etag.go:61-69 | for an ASCII tag the split cuts out a star iff the tag has a star between two commas |
| ETag.AForeignTagCanMatch | internal/gridapi/etag.go:53-55 | a header of one legal foreign tag with a star between two commas, such as "a,*,b", matches every tag |
| ETag.RevalidationSeesTheData | internal/gridapi/etag.go:15-49 | revalidating with a tag we gave is answered not modified iff the data hashes the same now, and with the whole body under the new tag otherwise |
| ETag.NoHeaderNoMatch | internal/gridapi/etag.go:15-31 | a request without If-None-Match gets the whole body |
| CacheStore.Cache.Set | internal/cache/cache.go:41-63 | replaces the key's entry, with its expiry |
| CacheStore.Cache.CleanupStale | internal/cache/cache.go:197-212 | removes exactly the very stale entries and counts them |
| CacheStore.CleanupKeepsTheFallback | internal/cache/cache.go:193-196 | an entry survives cleanup exactly through the interval after its expiry |
| LayerCache.BuildLayer | internal/hazards/service.go:188-270 | the answer and the cache after a call, from the cache before it and the build |
| LayerCache.KeysDiffer | internal/hazards/service.go:191 | no two areas and layers share an entry, even with colons in an area's name |
| LayerCache.CacheHoldsTheCurrentBuild | internal/hazards/service.go:188-270 | over every interleaving of lookups, builds and cleanups the cache holds exactly the current build of each layer |
| LayerCache.AnswersComeFromTheHistory | internal/hazards/service.go:195-242 | hits and stale answers equal those computed from the history without a cache |
| LayerCache.CleanupIsInvisibleToHits | internal/cache/cache.go:193-212 | cleanups never cost a hit |
| LayerCache.NothingThereIsNeverMadeUp | internal/hazards/service.go:183-187 | OK with no features comes only from a clean build that returned none, now or within its lifetime, and never from the cache for evacuations |
| LayerCache.FailureNeverClears | internal/hazards/service.go:226-243 | a failed build is answered UNAVAILABLE, or STALE with the nonempty latest cached build and its date |
| LayerCache.PartialStaysStale | internal/hazards/service.go:198-203 | a cached partial build is served STALE and dated until replaced or expired |
| LayerCache.UnavailableIsEmpty | internal/hazards/service.go:286-287 | UNAVAILABLE has no features and comes only from a failed build |
| LayerAnswers.TheLastBuildAnswers | internal/hazards/service.go:188-270 | after a build worth keeping, until another: requests within its lifetime get it, and after that a failure is answered with its features and date |
| LayerAnswers.AFreshBuildAnswers | internal/hazards/service.go:212-225 | a clean build is answered OK and a partial one STALE and dated, whatever the cache holds |
| LayerAnswers.NothingToAnswerWith | internal/hazards/service.go:226-243 | before a first build, and always for road segments, a failure is UNAVAILABLE and nothing is a hit |
| LayerAnswers.ACleanupForgets | internal/cache/cache.go:193-212 | a cleanup more than two lifetimes after a build forgets it, and a failure is then UNAVAILABLE |
| BurnStatus.JudgeLines | internal/ingest/burn_status.go:169-189 | the usable readings are the staged fresh ones, and the errors are the silent dialed lines |
| BurnStatus.MergeBurnDays | internal/ingest/burn_status.go:402-433 | the loop gives the most restrictive answer |
| BurnStatus.MergeIgnoresOrder | internal/ingest/burn_status.go:389-401 | reordering or repeating lines changes nothing |
| BurnStatus.Poll | internal/ingest/burn_status.go:130-228 | a hard error iff there are no counties, the staging table is unreadable, nothing was readable from either authority, or a county's places cannot be looked up; which sources degrade; one event per county |
| BurnStatus.AllowedIff | internal/ingest/burn_status.go:483-502 | allowed iff CAL FIRE, current or carried forward, permits, some line is green, every dialed line is green and fresh, and no usable line is red or orange |
| BurnStatus.LosingADialedLineNeverAllows | internal/ingest/burn_status.go:397-401 | without the reading of a dialed line burning is never called allowed |
| BurnStatus.LosingAReading | internal/ingest/burn_status.go:389-433 | losing a reading turns an answer into allowed iff what was lost was a restriction, which then came from a line nobody calls |
| BurnStatus.AbsentCountyReadsAsStored | internal/ingest/burn_status.go:288-335 | a county absent from a successful fetch reads as stored: unknown iff nothing known is stored |
| BurnStatus.AnUnlistedCountyCanBeAllowed | internal/ingest/burn_status.go:288-337 | an empty table, a stored permissive answer and one green line: allowed |
| BurnStatus.LastKnownIsKept | internal/ingest/burn_status.go:319-335 | over a run of polls the stored CAL FIRE answer of a county is the last one a published poll was given |
| BurnStatus.SuspensionOutlivesOutages | internal/ingest/burn_status.go:319-337 | after a suspension every poll of any run says prohibited until CAL FIRE itself answers otherwise |
| BurnFacts.DayOnTheFacts | internal/ingest/burn_status.go:389-469 | from the staged words and times: red iff a line reads red, orange iff none does and one reads orange, green iff only green is read and every line that is called reads it |
| BurnFacts.PermissionOnTheFacts | internal/ingest/burn_status.go:483-502 | prohibited iff a line of the county reads red or CAL FIRE suspended burning, and allowed iff CAL FIRE permits and the day is green, on the same facts |
| BurnFacts.CalfireOnTheFacts | internal/ingest/burn_status.go:278-337 | the CAL FIRE answer is the fetched one if known, else the stored one, and the county's key is its place without "-county" |
| BurnFacts.FailsOnTheFacts | internal/ingest/burn_status.go:130-228 | when a poll publishes nothing, and when it marks the lines as degraded |
| PlaceSummary.LayerSourceStatus | internal/gridapi/maplayers.go:355-395 | OK iff every source is, UNAVAILABLE iff every one is down or unknown, else STALE, with the latest success |
| PlaceSummary.ServedStatusMeans | internal/hazards/service.go:272-300 | served UNAVAILABLE iff every source is down and nothing is stored; OK iff every source is |
| PlaceSummary.WorstStatus | internal/gridapi/summary.go:521-541 | the most degraded of the given statuses |
| PlaceMode.ComputeMode | internal/gridapi/summary.go:63-102 | the branches give the rule table's mode |
| PlaceMode.ModeIsMonotone | internal/gridapi/summary.go:53-62 | worse signals never calm the mode |
| PlaceMode.QuietMeans | internal/gridapi/summary.go:53-62 | QUIET iff none of the signals, spelled out |
| PlaceMode.FireStateIsTheFirstWorst | internal/gridapi/summary.go:543-568 | the first state of the highest rank, and none only when none is known |
| PlaceRollup.HazardEvents | internal/gridapi/summary.go:201-213 | the three carve-outs |
| PlaceRollup.SummaryBlock | internal/gridapi/summary.go:215-268 | totals, counts, highest severity, top events and the evacuation count |
| PlaceRollup.BuildDomain | internal/gridapi/summary.go:481-519 | status, live count, highest severity and headlines of one domain |
| PlaceRollup.Signals | internal/gridapi/summary.go:329-342 | the mode's signals from the active counted events |
| PlaceRollup.AnyUnavailable | internal/gridapi/summary.go:313-323 | whether a watched layer or condition is dark |
| PlaceRollup.BuildPlaceSummary | internal/gridapi/summary.go:104-348 | block, domains and mode from one reading of events and sources |
| PlacePromises.RollupAddsUp | internal/gridapi/summary.go:215-230 | the severity counts sum to the total, and the highest severity is the highest counted |
| PlacePromises.TopEventsAreTheMostUrgent | internal/gridapi/summary.go:387-415 | no counted event left out is more urgent than one shown |
| PlacePromises.DomainIsFair | internal/gridapi/summary.go:467-519 | a domain is never healthier than its worst layer, shows live items only, gravest first, equals in their order |
| PlacePromises.AnErrorNeverBecomesAZero | internal/gridapi/summary.go:250-267 | the count is null iff evacuations are UNAVAILABLE, which means no source is up and nothing is stored; a shown zero means no stored active evacuation |
| PlacePromises.QuietIsQuiet | internal/gridapi/summary.go:311-343 | a QUIET place has no active evacuation, no active counted event that is SEVERE, and a known evacuation source |
| PlacePromises.AnEventCalmsIff | internal/gridapi/summary.go:236-248 | one more stored event lowers the mode, from WATCH to QUIET, iff it lights evacuations, or the last dark layer while the highest active severity is MODERATE, and every other signal is mild, as spelled out |
| PlacePromises.AnEventNeverCalms | internal/gridapi/summary.go:236-248 | so an event of a layer that was not dark never lowers it |
| PlacePromises.AStoredEventOfADarkLayerCanCalm | internal/gridapi/summary.go:236-254 | an input where it does: a stored scheduled event of the dark evacuation layer turns WATCH into QUIET |
| PlaceFacts.AlertOnTheFacts | internal/gridapi/summary.go:63-102 | a place is ACTIVE iff some active event is an evacuation above advisory, EXTREME, or a wildfire that is SEVERE or worse |
| PlaceFacts.QuietOnTheFacts | internal/gridapi/summary.go:63-102 | a place is QUIET iff no active event is worrying, fire weather is not raised, evacuations are known, and nothing is dark while something active is MODERATE |
| PlaceFacts.FireOnTheFacts | internal/gridapi/summary.go:543-568 | fire weather is raised if a condition says elevated or red-flag, and only if one does in some case |
| PlaceFacts.TheGravestStateIsShown | internal/gridapi/summary.go:543-568 | red-flag is shown iff a condition says so, and elevated iff none does and one says that |
| PlaceFacts.LayerOnTheFacts | internal/gridapi/maplayers.go:355-395 | a layer is UNAVAILABLE iff all its sources are down and nothing of it is stored, and OK iff all are well, by the names of the sources |
| PlaceDomains.DomainOnTheFacts | internal/gridapi/summary.go:270-311 | each domain, in its place: what it counts and which layers and conditions degrade it, in terms of the stored events |
| PlaceDomains.StatsOnTheFacts | internal/gridapi/summary.go:201-268 | the counts of the block count the stored hazards of each severity and the active evacuations |
| PlaceDomains.TopOnTheFacts | internal/gridapi/summary.go:387-415 | the top events are hazards in order, and none left out is ahead of one shown |
| PlaceDomains.LastSuccessIsLatest | internal/gridapi/maplayers.go:355-395 | a layer's date is the latest success of its sources |
| StableSort.SortIsStable | internal/gridapi/summary.go:387-415 | the stable sort keeps the order of elements that compare alike |
| StableSort.SortIsCanonical | internal/ingest/evacuation.go:295-307 | it forgets the input order when no two elements compare alike |

## Left out

- ControllerObject.Controller.ShutdownSection: the loop that blocks between sections is the state machine `Lifecycle.AdvanceShutdown`, not a Dafny loop; the exit code after `Fail` and the early return 1 of the boot branch are not modelled, so only "exit 0 implies released" is claimed.
- Gate.DrainReport: Drain and waitClosed are a state machine over their sections; the two timers are nondeterministic.
- Gate.AdmissionGate.Finish: that each caller runs it once is the caller's obligation here.
- GridService.GridApp.Quiesce: each step is a parameter that succeeds or fails; what runs inside the scheduler, the mesh registry and the background readers is not part of this model.
- GridService.GridApp.Activate: how far it got is a parameter; starting the scheduler is one step, so a panic half-way through that start is not modelled.
- EvacuationIds.IdsDistinct: claimed within one collision group only; a base id can be a prefix of another zone's id, so groups may claim each other's ids.
- EvacuationIds.AssignContinuityIds: centroids are reals, so rounding of the squared distance is not modelled.
- EvacuationPoll.Poll: the hard errors for an empty scope and a failed fetch, bounding boxes, logging, headlines and the other event fields are left out; the id digest is any function of county and geometry.
- LaneClosure.AdoptLegacyClosureIds: the distance is any nonnegative function that is zero from a point to itself.
- LaneClosurePoll.Poll: the districts' fetches are parameters, and no districts at all is the case that none was fetched; severity, labels and descriptions are left out.
- ReporterEdit.UpsertReporter: reading and writing the file, and checking that the token is absent from the output, are left out.
- EnvNames.EnvNameReadsBack: letters are mapped as ASCII; Unicode case mapping and the Unicode folds of EqualFold are not modelled.
- EnvOverrides.ValidateEnvOverrides: the wording of a problem and the sorting of the messages are left out.
- ETag.InmMatches: a request with several If-None-Match lines is represented by the first, as the original reads it; tags are characters, so bytes that are not UTF-8 are left out.
- ETag.DataETag: SHA-256 is any function to 32 bytes, so nothing is said about collisions.
- CacheStore.Cache.Set: the JSON codec is lossless and cannot fail; the lock is the atomicity of each method.
- LayerCache.BuildLayer: the case of a service without a cache, and the attribution metadata, are left out.
- BurnStatus.Poll: the message, transcript and provenance fields and the reporter rows are left out; of the place lookup only its failure is modelled.
- PlaceMode.ComputeMode: the mode ACTIVE is called Alert here, because Active is an event's lifecycle.
- PlaceRollup.BuildPlaceSummary: the store's paging, the area lookup and the sources sidecar are left out; source times are later than Go's zero time.
- HTTP, TLS, bearer hashing, the metadata watcher, signal delivery and logging appear only as outcomes.
- Wildfire perimeter matching, weather alerts, power and earthquake ingest, GeoJSON projection and the scheduler would add easy members or are I/O.
