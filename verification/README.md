# Seamless Swarm: task lifecycle and leader election, verified

A Dafny 4.11 model of the swarm hub's task lifecycle and of the nodes' leader election, with the small
codecs and arithmetic that feed them. `dafny verify dfyconfig.toml` checks the whole project.

**Hub.** `Registry` and `Scheduler` are the two shared objects, as classes that update a map in place.
`Tasks` and `Dispatch` hold the value-level functions their methods are proved against; the order in which a
hash map is walked is a parameter everywhere, so every theorem holds for all orders. `HubMachine` is the same
hub at lock granularity: listing the registry, assigning, each `get_task` and each push of each dispatching
thread are separate steps that interleave with submissions, progress, node failures, registrations,
removals and sweeps. `DispatchHistory`, `Budgets`, `Checkpoints` and `Recovery` prove properties of all its
runs; `Sequential` shows that an uninterrupted call is one of them. `RoundRobin` and `Balance` say how evenly one
pass spreads its tasks, `NodeLoss` what losing nodes does to them. `Server` and `Transport` are the message
handlers.

**Election.** `Election` is one node's view and rule, `Agent` the role loop over it, `Cluster` N such nodes
with a clock and a network that may lose, delay, repeat and reorder announcements, with nodes that start and
crash at any time and hubs whose start may fail. The two reads at the top of the loop are two steps, and a follower first waits for a
handshake that only another process can answer. `Stabilisation` is the timed theorem that nobody else leads,
`Failover` says exactly when the node whose turn it is does lead, and `Convergence` puts the two together;
`StabilisationWitness` is a run in which the leader changes hands as they say. `Provenance` says what a node's
belief about the leader rests on; `GhostLeader` and `SecondTerm` show the three ways in which failover fails. `Announcements`,
`Frames`, `Backoff` and `Scout` are the supporting pieces.

In both machines an action whose guard fails changes nothing, so every sequence of actions is a run and the
theorems need no premise about which actions are possible. Every lemma switches automatic induction off: each
proof is what its body says.

## What the code does not do

- ADR-004's failover promise ("the node with the smallest UUID among live peers starts the hub") fails in three
  ways. A PEER announcement renews an entry without clearing its leader flag, so the least node can follow a
  node that has already stepped down: `GhostLeader.HauntedRun` is such a run, and `GhostLeader.NobodyLeads`
  keeps it going for as long as the two hear each other. A node that sets out to join a leader which then
  dies retries the handshake for ever, without looking at the election again: `GhostLeader.AbandonedRun`,
  `GhostLeader.StaysAbandoned`. And a node leads only once: stepping down does not drop the hub's sockets, as
  ADR-004 and the code's own comment say, because the servers' endless loops own the hub; so a second start
  finds its port taken, and the panic ends the role loop before the flag is set. `SecondTerm.SecondTermRun` is
  a run that leaves no node at all, `SecondTerm.LeadsOnce` the law for every run.
  The exact condition is given twice, for an idle process that is first in line and is not killed. Over a
  stretch that is long enough, in which it is held up in one of the first two ways throughout or never, it ends
  up leading iff it is not held up, has not started a hub before, and no other process holds the port
  (`Failover.LeadsIffUnblocked`). Over any stretch at all, however it is held up in it, it ends up leading iff it
  can start a hub and completed a turn of its loop that began with nothing haunting it
  (`Failover.LeadsIffTurnCompleted`).
- "Every running task's node is registered" fails when a failure is handled between another thread's listing
  and its assignment: `Recovery.StaleListingRun`. A listing is safe to assign from exactly when every node in it
  is still registered (`Recovery.SafeListingIffFresh`), and the whole-run property holds when failures are
  handled only with no stale listing outstanding (`Recovery.RunningNodesAreRegistered`), in particular when
  dispatch calls are not interrupted (`Recovery.UninterruptedIsDisciplined`).
- Round-robin does not balance tasks with different requirements: the index is shared, so one node can get every
  task although half of them fit another (`Balance.UnbalancedWhenListsDiffer`). Two nodes are balanced in every
  pass over every listing of the registry iff neither fits any requirement of the family, or all requirements
  that any node meets are met by the same nodes, the two among them (`Balance.EvenIffSameFitting`); for one
  given listing, iff their slots are aligned (`Balance.EvenIffAligned`).
- Completed is not final, and the retry counter need not equal the dispatches, under arbitrary reports
  (`Budgets.RetryReopensCompleted`, `Budgets.RetryReportBreaksAccounting`). A completed task stays so iff no
  later report on it asks for a retry or fails it (`Budgets.CompletedThroughoutIff`); the counter is right
  throughout a run iff every failure or retry report concerned an attempt that had been dispatched, and no
  interactive task with retries left was sent round again (`Budgets.AccountedIffReportsCountRight`). The hub's own reports are such.
- ADR-003 caps the backoff at 30 s; the code adds the jitter after the cap. A pause keeps to 30 s iff its own
  jitter is zero or it would not have reached 30 s without a cap (`Backoff.CapMetIff`): the first five always
  do, the sixth need not (`Backoff.SixthCanExceed`), and from the ninth on only those without jitter do.
- An announced address that contains a colon is cut at it (`Announcements.LeaderRoundTrip`).
- A frame whose payload is 2^32 bytes or longer is not read back (`Frames.RoundTripIff`): the length is cast.

## Model

| member | source | states |
|---|---|---|
| Registry.EphemeralRegistry.EvictOfflineNodes | software/compute-module-core/src/registry/mod.rs:70-80 | an in-place sweep, visiting entries in any order, leaves exactly the profiles seen less than the threshold ago or stamped in the future, unchanged |
| Registry.EphemeralRegistry.ListNodes | software/compute-module-core/src/registry/mod.rs:86-91 | the listing holds every registered profile once, in some order |
| Registry.SweepsCollapse | software/compute-module-core/src/registry/mod.rs:70-80 | two sweeps with the same threshold do what the later of the two times does alone, in whichever order they come |
| RegistryLog.PresentIffSpared | software/compute-module-core/src/registry/mod.rs:32-80 | for every event log and any clock: a node is present iff some registration of it was not followed by another or by an unregistration and every later sweep spared it, and then with that registration's profile |
| RegistryLog.PresentIffLastSweepSpares | software/compute-module-core/src/registry/mod.rs:70-80 | under a clock that never runs backwards only the last sweep after the last registration matters |
| Transport.OnMessage | software/compute-module-core/src/transport/mod.rs:42-99 | a heartbeat frame registers exactly the profile in it, with every capability's value printed, stamped now, and touches no other entry; short, truncated, foreign and undecodable frames change nothing; the registry replays the log with that event |
| Transport.HeartbeatRegisters | software/compute-module-core/src/transport/mod.rs:46-91 | the frame of any payload shorter than 2^32, whatever follows it, is handled as that heartbeat |
| Transport.AnnouncedMatches | software/compute-module-core/src/transport/mod.rs:69-82 | the node then fits a list of requirements iff each is the printed value of a capability it sent |
| Transport.HeartbeatFitsIffInstalled | software/compute-module-core/src/transport/mod.rs:69-82 | a node that sends what its scout found fits a list of applications iff all of them were discovered on it |
| Transport.EventsAreTimely | software/compute-module-core/src/transport/mod.rs:62-91 | inputs handled in order of time give a log whose stamps never run backwards |
| Transport.HeldIffLastSweepSpares | software/compute-module-core/src/transport/mod.rs:42-99 | so for this server only the last sweep after a node's last heartbeat decides whether it is still held |
| Tasks.CapableKeepsDistinct | software/compute-module-core/src/scheduler/mod.rs:168-170 | filtering a listing by capability keeps its nodes distinct, so round-robin slots are different nodes |
| Tasks.MatchesIff | software/compute-module-core/src/scheduler/mod.rs:230-236 | a node fits iff every requirement is the value of some capability of it |
| Scheduler.ProfileScheduler.UpdateTaskProgress | software/compute-module-core/src/scheduler/mod.rs:88-115 | success completes the named task, a checkpoint replaces its payload, a retry counts and requeues it or fails it, a failure fails it; nothing else of it and no other task changes |
| Scheduler.ProfileScheduler.HandleNodeFailure | software/compute-module-core/src/scheduler/mod.rs:117-155 | whatever the walk order, exactly the tasks running on that node are recovered: interactive ones fail, others are requeued with one retry or fail when they have none left |
| Scheduler.ProfileScheduler.DispatchPendingTasks | software/compute-module-core/src/scheduler/mod.rs:157-187 | the loop computes the walk for some listing order and some task order, hence meets the order-free specification |
| Dispatch.DispatchMeetsSpec | software/compute-module-core/src/scheduler/mod.rs:157-187 | for every walk order: a task is pending afterwards iff it was and no listed node fits; the returned pairs are exactly the tasks that moved, once each, with their recorded nodes; all others are untouched |
| Dispatch.OrderOnlyChoosesNodes | software/compute-module-core/src/scheduler/mod.rs:164-183 | which tasks start, and everything about a task but its node, is independent of both hash-map orders |
| Dispatch.SecondPassIsEmpty | software/compute-module-core/src/scheduler/mod.rs:157-187 | an immediate second pass over the same nodes, in any order, starts nothing and changes nothing |
| RoundRobin.PairsGoInTurn | software/compute-module-core/src/scheduler/mod.rs:165-182 | the i-th pair goes to the (i mod n)-th of the n nodes that fit its own task |
| RoundRobin.ShareAtSlot | software/compute-module-core/src/scheduler/mod.rs:165-183 | if every task that can start fits n nodes and has a node at slot j of them, that node gets exactly the share of slot j, with held tasks anywhere in the walk |
| RoundRobin.BalancedWhenListsAgree | software/compute-module-core/src/scheduler/mod.rs:165-183 | when all tasks that can start fit the same nodes, each node gets its exact share, and an earlier node as many as a later one or one more |
| RoundRobin.ShareIsQuotient | software/compute-module-core/src/scheduler/mod.rs:176-182 | that share of m tasks over n nodes is (m + n - 1 - j) / n |
| RoundRobin.CrowdGoesInTurn | software/compute-module-core/src/scheduler/mod.rs:165-182 | for any sequence of requirements that can be met there is a pass that assigns them in that order |
| Balance.EvenIffAligned | software/compute-module-core/src/scheduler/mod.rs:165-182 | for one listing: two nodes differ by at most one task in every pass over a family of requirements iff all lists of fitting nodes lack both, or are equally long with each of the two at a fixed slot |
| Balance.EvenIffSameFitting | software/compute-module-core/src/scheduler/mod.rs:157-182 | for every listing of a registry: iff neither fits any requirement of the family, or all that can be met are met by the same nodes, the two among them |
| Balance.UnbalancedWhenListsDiffer | software/compute-module-core/src/scheduler/mod.rs:165-182 | for any m a concrete pass gives one of two nodes all m tasks although half of them fit both |
| NodeLoss.FailAllIsOnePass | software/compute-module-core/src/scheduler/mod.rs:117-155 | failing a list of nodes one by one, in any order and with repeats, equals one simultaneous recovery pass |
| NodeLoss.LossIsChargedOnce | software/compute-module-core/src/scheduler/mod.rs:117-155 | afterwards nothing runs on a lost node; an affected task pays one retry or fails, keeps its payload, and others are untouched |
| NodeLoss.LossIsUnordered | software/compute-module-core/src/scheduler/mod.rs:117-155 | only the set of lost nodes matters |
| HubMachine.StepChanges | software/compute-module-core/src/scheduler/mod.rs:71-187 | no step of any thread does anything to a task but a submission of it, a report on it, a node failure, or a start |
| HubMachine.StepOnNodes | software/compute-module-core/src/registry/mod.rs:32-80 | each step does to each registry entry what registration, removal or a sweep does, or nothing |
| DispatchHistory.TransitionHasOneEntry | software/compute-module-core/src/scheduler/mod.rs:164-186 | a task goes from pending to running only in one dispatcher's assignment step and then stands exactly once in the list that dispatcher gets back, with its recorded node |
| DispatchHistory.MovesAreTransitions | software/compute-module-core/src/scheduler/mod.rs:157-187 | over every interleaving the entries returned for a task are as many as its transitions from pending to running |
| DispatchHistory.EachEntryIsPushedOnce | software/compute-module-core/src/server.rs:130-152 | in every interleaving each dispatcher's pushes, followed by what it has still to push, are exactly the lists its calls returned, in order |
| DispatchHistory.DueTasksAlwaysKnown | software/compute-module-core/src/server.rs:137-138 | `get_task` never misses for a dispatched task, so no entry is dropped unpushed |
| DispatchHistory.RunningNodeWasFit | software/compute-module-core/src/scheduler/mod.rs:159-182 | every running task sits where some returned entry put it, on a node that was registered and capable when that dispatcher's listing was taken |
| Budgets.DispatchBudget | software/compute-module-core/src/scheduler/mod.rs:88-187 | over every run, dispatches since the last submission never exceed the retries used plus one, nor the retries used while pending, and retries never exceed their limit |
| Budgets.RetriesRunOut | software/compute-module-core/src/scheduler/mod.rs:99-108 | n retry reports leave the task pending with n more retries while the budget lasts; the first beyond it, and every later one, fails it with its reason |
| Budgets.ReportKeepsAccountIff | software/compute-module-core/src/scheduler/mod.rs:88-115 | a report keeps retry counter and dispatches in step iff it is a success or checkpoint, or concerns an attempt that was dispatched and does not retry an interactive task that has retries left |
| Budgets.AccountedIffReportsCountRight | software/compute-module-core/src/scheduler/mod.rs:88-155 | for every run: the retry counter gives the dispatches at every moment iff every report did so |
| Budgets.StateTells | software/compute-module-core/src/scheduler/mod.rs:88-115 | for all but a completed task its state before the report decides that |
| Budgets.AccountingByState | software/compute-module-core/src/scheduler/mod.rs:88-155 | if every report respects the state it finds, the retry counter gives the dispatches exactly |
| Budgets.HubRunsKeepToVocabulary | software/compute-module-core/src/server.rs:500-510 | every run whose reports the hub makes of progress messages holds only successes and checkpoints |
| Budgets.CompletedByMessage | software/compute-module-core/src/server.rs:500-510 | in such a run a task becomes completed only by a message whose status is completed |
| Budgets.ExactAccounting | software/compute-module-core/src/server.rs:500-510 | under the hub's own reports and any node failures the retry counter gives the dispatches exactly: retries when pending, one more when running or failed; interactive tasks are dispatched at most once |
| Budgets.RetryReportBreaksAccounting | software/compute-module-core/src/scheduler/mod.rs:99-103 | a concrete run with a retry report for a task that is not running breaks the exact count |
| Budgets.CompletedThroughoutIff | software/compute-module-core/src/scheduler/mod.rs:92-114 | a completed task stays completed throughout the rest of a run iff no report on it asks for a retry or fails it, until submitted anew |
| Budgets.RetryReopensCompleted | software/compute-module-core/src/scheduler/mod.rs:99-103 | a concrete run in which a late retry report makes a completed task pending |
| Budgets.CompletedIsAbsorbing | software/compute-module-core/src/server.rs:500-510 | under the hub's own reports a completed task stays completed, and is never dispatched again, until submitted anew |
| Budgets.SuccessIsFinal | software/compute-module-core/src/server.rs:501-503 | once a completion report for a known task is processed it is completed at the end of the run, and was dispatched no more, unless submitted anew |
| Budgets.TransitionsWithinGrant | software/compute-module-core/src/scheduler/mod.rs:88-187 | over every run, even with ids submitted again, a task starts at most once per attempt and retry its submissions granted |
| Budgets.TotalDispatchBudget | software/compute-module-core/src/scheduler/mod.rs:157-187 | all dispatchers together return at most the sum of (max_retries + 1) over all submissions |
| Checkpoints.KnownIffSubmitted | software/compute-module-core/src/scheduler/mod.rs:71-75 | the hub holds exactly the tasks submitted in the run |
| Checkpoints.PayloadIsLastWrite | software/compute-module-core/src/scheduler/mod.rs:95-98 | in every interleaving a task's payload is the newest checkpoint saved since its submission, or else the submitted one |
| Checkpoints.PushesCarryTheNewestPayload | software/compute-module-core/src/server.rs:136-145 | every pushed frame, after any number of node failures, carries the newest payload known when its task was read |
| Checkpoints.FramesCarryTheNewestPayload | software/compute-module-core/src/server.rs:98-145 | the definition sent carries the newest payload too, and the id, node, requirements, type and limits of the task as read |
| Recovery.UsedNodesAreAccounted | software/compute-module-core/src/scheduler/mod.rs:117-187 | under the discipline, a node that is neither registered nor awaiting failure handling runs nothing and stands in no outstanding listing |
| Recovery.RunningNodesAreRegistered | software/compute-module-core/src/registry/mod.rs:64-80 | with every removal or eviction handled, every running task's node is registered |
| Recovery.LostNodeGetsNothing | software/compute-module-core/src/scheduler/mod.rs:117-187 | a node lost and handled gets no task until it registers again |
| Recovery.UninterruptedIsDisciplined | software/compute-module-core/src/scheduler/mod.rs:157-164 | runs whose dispatch calls are not interrupted between listing and assignment satisfy the discipline |
| Recovery.SafeListingIffFresh | software/compute-module-core/src/scheduler/mod.rs:159-164 | assigning from a listing keeps all running nodes registered, for all tasks and walks, iff every node in it still is |
| Recovery.StaleListingRun | software/compute-module-core/src/scheduler/mod.rs:159-164 | a concrete interleaving ends with a task running on an unregistered node and no failure left to handle |
| Sequential.DispatchCallIsARun | software/compute-module-core/src/server.rs:130-152 | listing, assigning and draining without interruption yields the tasks and definitions of the hub's own call |
| Server.SwarmHub.StartServers | software/compute-module-core/src/server.rs:35-49 | the start creates the push socket, so that from then on dispatched tasks are handed over, iff its port is free |
| Server.CategoriesAreTypes | software/compute-module-core/src/server.rs:98-103 | category numbers and task types tell the same, on the way in and on the way out |
| Server.ReportsAre | software/compute-module-core/src/server.rs:500-510 | a message is reported as a success iff its status is completed, as a checkpoint iff not and it carries one, else not at all |
| Server.SwarmHub.PushTaskFrame | software/compute-module-core/src/server.rs:98-128 | what is handed over names the task and node and carries the task's payload, requirements, type and limits |
| Server.SwarmHub.DispatchNow | software/compute-module-core/src/server.rs:130-152 | for each task the pass started, once and in order, a definition is handed over with its id, node, payload, requirements, type and limits as they then stand |
| Server.SwarmHub.OnSenderTick | software/compute-module-core/src/server.rs:322-339 | asking first whether there are nodes and pending tasks is harmless: the tick starts and hands over what a bare pass would |
| Server.SwarmHub.OnTaskSubmit | software/compute-module-core/src/server.rs:399-452 | without an access key nothing changes; otherwise the task enters pending with three retries, a pass follows at once, and what it started is handed over |
| Server.SwarmHub.OnTaskProgress | software/compute-module-core/src/server.rs:500-510 | a completed status completes the known task and changes nothing else of it; any other status changes exactly the payload, to a non-empty checkpoint; every other report, failures included, changes nothing |
| Lexicographic.LexLeIffPrecedes | software/host-background-agent/src/election/mod.rs:85-86 | the order on ids: a prefix first, otherwise decided by the first position at which two ids differ |
| Election.UniqueCandidate | software/host-background-agent/src/election/mod.rs:81-87 | for any non-empty set of ids whose views are exactly the others, one node passes the rule: the minimum in that order |
| Election.TwoCandidatesMeansUnseen | software/host-background-agent/src/election/mod.rs:81-87 | two nodes can both pass only if the larger has no fresh entry for the smaller |
| Election.ElectionState.ObservePeer | software/host-background-agent/src/election/mod.rs:34-45 | renews or creates the sender's entry and keeps its leader flag and address; its own id is ignored |
| Election.ElectionState.ObserveLeader | software/host-background-agent/src/election/mod.rs:47-60 | sets the sender's entry to a leader at that address seen now; its own id is ignored |
| Election.ElectionState.ClearLeaderFlags | software/host-background-agent/src/election/mod.rs:63-68 | clears every flag and nothing else, in any walk order |
| Election.ElectionState.CurrentLeader | software/host-background-agent/src/election/mod.rs:71-78 | answers some fresh flagged peer with its address, and none only if there is none |
| Election.ElectionState.IShouldBeLeader | software/host-background-agent/src/election/mod.rs:81-87 | true iff this id comes before, or is, that of every peer seen under 10 s ago |
| Election.ElectionState.LivePeerCount | software/host-background-agent/src/election/mod.rs:97-103 | the number of distinct peers seen less than 10 s ago |
| Agent.NodeAgent.Announce | software/host-background-agent/src/transport/mod.rs:78-86 | a round prints the PEER text, then the LEADER text exactly when the flag is set |
| Agent.NodeAgent.Listen | software/host-background-agent/src/transport/mod.rs:55-65 | any text takes the cluster model's step for hearing the message it stands for, or none |
| Agent.PrintedIsHeard | software/host-background-agent/src/transport/mod.rs:55-86 | what a node prints is heard as what it meant, if its parts have no colon and the last has no trailing white space |
| Agent.NodeAgent.FindLeader | software/host-background-agent/src/main.rs:59-61 | the first read takes the cluster model's step for the leader it found, or none |
| Agent.NodeAgent.Decide | software/host-background-agent/src/main.rs:66-73 | the second read starts to lead or waits, as the cluster model says |
| Agent.NodeAgent.TakeLead | software/host-background-agent/src/main.rs:116-122 | the hub starts and the flag is set iff this process has not started one before and no other holds its port |
| Agent.NodeAgent.EvaluateRole | software/host-background-agent/src/main.rs:58-75 | one turn of the role loop is the two steps in succession |
| Agent.NodeAgent.Connect | software/host-background-agent/src/main.rs:187-199 | when the handshake loop ends the node follows that leader, or takes every leader flag back, keeps what else it knows of its peers, and rests 2 s |
| Agent.NodeAgent.Recheck | software/host-background-agent/src/main.rs:135-142 | one turn of the monitor keeps the flag or clears it and returns to the loop, as the cluster model says |
| Agent.NodeAgent.PollLeader | software/host-background-agent/src/main.rs:190-196 | a follower leaves iff no peer seen under 10 s ago is flagged with an address, and then takes every flag back and rests 2 s; otherwise it polls again 2 s later |
| Cluster.AlwaysInTime | software/host-background-agent/src/main.rs:53-143 | in every run: the flag is set exactly in the leading role, nobody decides within 5 s of starting, deadlines are met, nothing is heard before it is said, and entries are as recent as what was heard |
| Stabilisation.Consecutive | software/host-background-agent/src/transport/mod.rs:78-89 | steady announcing puts k consecutive announcements into any window of k gaps |
| Stabilisation.QuietAfterWindow | software/host-background-agent/src/election/mod.rs:81-87 | one window after a node starts hearing the least node, it does not pass the election rule |
| Stabilisation.Stabilises | software/host-background-agent/src/main.rs:66-68 | if the least node announces at least every gap and any k consecutive announcements get one through within the delay, with gap k + delay under 10 s, no other node passes the rule after that window, nor has its flag set a startup and a recheck later, in any run, for ever after |
| Stabilisation.AtMostOneLeader | software/host-background-agent/src/main.rs:122-142 | from then on at most one node, the least, has its leader flag set |
| Stabilisation.LateJoinerNeverLeads | software/host-background-agent/src/main.rs:53-55 | if the window is shorter than the 5 s listening phase, a node that joins later never leads, not even briefly |
| Stabilisation.NominalWindow | software/host-background-agent/src/transport/mod.rs:88 | with announcements every 2 s the window is 2k + delay |
| StabilisationWitness.AssumptionCanBeKept | software/host-background-agent/src/main.rs:122-142 | a concrete run keeps the assumption, meets every premise of the at-most-one theorem at its end, and hands the lead from a node that had its flag set to the least node |
| Provenance.AlwaysFaithful | software/host-background-agent/src/election/mod.rs:34-68 | in every run a node's view is determined by what it has heard and when it last cleared; it never contains itself |
| Provenance.LeavingClears | software/host-background-agent/src/main.rs:62-64 | a node that leaves its leader takes back every leader flag as of now and keeps peers, addresses and times |
| Provenance.PollLeavesIff | software/host-background-agent/src/main.rs:190-196 | and a poll leaves exactly when no live flagged peer is known |
| Provenance.NobodyUntilHeard | software/host-background-agent/src/election/mod.rs:63-78 | from then on in every run nobody counts as leader until a LEADER announcement is heard; PEER ones do not bring a leader back |
| Provenance.CurrentLeaderIff | software/host-background-agent/src/election/mod.rs:71-78 | `current_leader` can answer (id, address) iff the last LEADER announcement heard from id gave that address after the last clear and something from id came under 10 s ago |
| Provenance.LeaderProvenance | software/host-background-agent/src/transport/mod.rs:78-86 | and then id did announce that address earlier in the run while its own flag was set |
| GhostLeader.HauntedRun | software/host-background-agent/src/election/mod.rs:39-44 | a run in which two live nodes hear each other, the least follows the other, and nobody leads |
| GhostLeader.NobodyLeads | software/host-background-agent/src/main.rs:59-64 | from such a state neither leads for as long as they hear each other and no connection fails |
| GhostLeader.HauntedIsBlocked | software/host-background-agent/src/election/mod.rs:39-44 | such a node is held up in the sense of the exact condition |
| GhostLeader.AbandonedRun | software/host-background-agent/src/transport/mod.rs:241-255 | a run, as long as one likes, in which the only node up passes the rule, has not heard of any leader for 10 s, and does not lead: it waits for a dead leader's handshake |
| GhostLeader.StaysAbandoned | software/host-background-agent/src/main.rs:187-199 | and it never leads unless another node starts |
| SecondTerm.SecondTermRun | software/compute-module-core/src/server.rs:45-94 | a run in which a node that led before is the only one left, idle, first in line and not held up, takes its turn, and is gone |
| SecondTerm.NobodyComesBack | software/host-background-agent/src/main.rs:118-122 | and no node is up until another one starts |
| SecondTerm.LeadsOnce | software/compute-module-core/src/server.rs:45-94 | in every run a node that has led and stepped down does not lead again in the life of its process |
| Failover.KnownIffHaunted | software/host-background-agent/src/election/mod.rs:71-78 | a live leader is known iff some other node's LEADER announcement came after the last clear and something from it came under 10 s ago |
| Failover.StartsIffNothingHaunts | software/host-background-agent/src/main.rs:59-68 | a turn of the loop takes a node that passes the rule to the start of its hub iff nothing haunts it so |
| Failover.StartSucceeds | software/compute-module-core/src/server.rs:43-47 | with its port free, a first-in-line process that has not led before survives the start of its hub |
| Failover.StartFails | software/compute-module-core/src/server.rs:45-94 | a process that has led and stepped down, or whose port another one holds, never leads |
| Failover.LeadsInTime | software/host-background-agent/src/main.rs:53-122 | a node that is first in line throughout, haunted by nobody and not connecting, that has not led before and whose port is free, has its flag set within the listening phase, three late turns and the hub's start |
| Failover.LeadsIffUnblocked | software/host-background-agent/src/main.rs:57-200 | over a long enough stretch in which an idle process is first in line and not killed, is held up throughout or never, and has its port taken by another throughout or never: its flag ends up set iff it was not held up and could start a hub; if only the start fails, its loop has ended |
| Failover.LeadsIffTurnCompleted | software/host-background-agent/src/main.rs:57-143 | with no assumption on time or on when it is held up, its flag ends up set iff it could start a hub and the stretch holds a look for a leader with nothing haunting it, the decision and the start |
| Convergence.LeastIsFirst | software/host-background-agent/src/election/mod.rs:81-87 | in every run the least node ever to join passes the rule whenever it is up |
| Convergence.ExactlyOneLeader | software/host-background-agent/src/main.rs:57-142 | if the least node announces steadily, is heard often enough, is not killed or held up for long enough and can start its hub, it leads and nobody else does |
| Announcements.SplitAfterJoin | software/host-background-agent/src/transport/mod.rs:56 | splitting at a separator undoes joining, for any parts free of it |
| Announcements.JoinAfterSplit | software/host-background-agent/src/transport/mod.rs:56 | and joining undoes splitting, so the parts of a text are determined |
| Announcements.TrimTakesWhite | software/host-background-agent/src/transport/mod.rs:56 | trimming takes away all white space at both ends and nothing else |
| Announcements.TextsInFull | software/host-background-agent/src/transport/mod.rs:79-84 | the two announcements, character by character |
| Announcements.PeerRoundTrip | software/host-background-agent/src/transport/mod.rs:55-80 | a PEER announcement is parsed as meant iff the id has no colon and no trailing white space |
| Announcements.LeaderRoundTrip | software/host-background-agent/src/transport/mod.rs:55-86 | a LEADER announcement is parsed as meant iff id and address have no colon and the address no trailing white space |
| Announcements.TextIsHearing | software/host-background-agent/src/transport/mod.rs:55-65 | parsing the printed text has exactly the effect the cluster model gives to hearing that announcement |
| Announcements.ParseMdnsAnnouncement | software/host-background-agent/src/transport/mod.rs:55-65 | the listener applies the one update the text stands for, or none |
| Frames.RoundTripIff | tools/swarm-medium/src/main.rs:289-312 | a frame followed by any bytes decodes to its type and payload iff the payload is shorter than 2^32 |
| Frames.FirstByteWeighsMost | tools/swarm-medium/src/main.rs:289-305 | the length stands first byte first |
| Frames.PrefixRejected | tools/swarm-medium/src/main.rs:300-312 | every proper prefix of a frame is rejected |
| Frames.AcceptedIsEncoded | tools/swarm-medium/src/main.rs:300-312 | every accepted input is the frame of what is returned followed by a tail |
| Backoff.Pauses | software/host-background-agent/src/transport/mod.rs:238-255 | the loop's pauses are the recurrence, one per failed attempt: half as long again as the last, at most 30 s, plus the jitter |
| Backoff.PauseBounds | software/host-background-agent/src/transport/mod.rs:248-250 | for any jitter the n-th pause lies between min(30, 1.5^n) and min(31, 3 * 1.5^n - 2) |
| Backoff.PausesGrowToCap | software/host-background-agent/src/transport/mod.rs:248-250 | pauses grow strictly until they reach 30 s and stay in [30, 31) from then on |
| Backoff.CapFromTheNinth | software/host-background-agent/src/transport/mod.rs:248-250 | from the ninth failure on a pause is exactly 30 s plus its own jitter, so it keeps to the cap iff that is zero |
| Backoff.EighthCanFallShort | software/host-background-agent/src/transport/mod.rs:248-250 | without jitter the first eight pauses are exactly 1.5^n and the eighth is still under 30 s |
| Backoff.CapMetIff | software/host-background-agent/src/transport/mod.rs:248-250 | the n-th pause keeps to 30 s iff its jitter is zero or the recurrence without the cap does |
| Backoff.CapMetThroughFifth | software/host-background-agent/src/transport/mod.rs:248-250 | the first five pauses stay under 30 s whatever the jitter |
| Backoff.SixthCanExceed | software/host-background-agent/src/transport/mod.rs:248-250 | with a jitter of 0.9 each time the sixth pause exceeds 30 s |
| Scout.AdaptToMediumProfile | software/host-background-agent/src/scout/profilers.rs:332-443 | the scanning and emitting loops compute the adaptation function |
| Scout.AdaptingAgainChangesNothing | software/host-background-agent/src/scout/profilers.rs:332-443 | adapting the raw list together with its own adaptation gives the same adaptation |
| Scout.CoresAreLast | software/host-background-agent/src/scout/profilers.rs:351-355 | the core count is that of the last integer `cpu_cores`, or 0 |
| Scout.MemoryIsLast | software/host-background-agent/src/scout/profilers.rs:363-367 | the memory is that of the last real `total_memory_gb`, or 0 |
| Scout.LatencyIsLast | software/host-background-agent/src/scout/profilers.rs:368-372 | the latency is that of the last real `link_latency_ms`, or 100 |
| Scout.GpuIffSeen | software/host-background-agent/src/scout/profilers.rs:356-362 | an accelerator is seen iff some `has_cuda` or `has_metal` is true |
| Scout.AppsInOrder | software/host-background-agent/src/scout/profilers.rs:342-347 | the applications found in a list and then another are those of the first followed by those of the second |
| Scout.CpuTells | software/host-background-agent/src/scout/profilers.rs:378-390 | which label stands for which core counts |
| Scout.AcceleratorTells | software/host-background-agent/src/scout/profilers.rs:393-407 | which label stands for which accelerator |
| Scout.MemoryTells | software/host-background-agent/src/scout/profilers.rs:410-422 | which label stands for which memory sizes |
| Scout.RestTells | software/host-background-agent/src/scout/profilers.rs:425-440 | the latency flag, and one execution entry for each application, in the order found |
| Scout.MatchesIffInstalled | software/compute-module-core/src/server.rs:297-308 | with no string values and no number printed as "..._execution", a registered node fits a list of "X_execution" requirements iff `installed_app_X` was discovered for every X |

## Left out

- Sockets, tokio, threads and lock poisoning: replaced by atomic steps and an abstract network; a failed `send` is a push attempt like any other.
- Protobuf bytes: messages are datatypes; decoding a heartbeat profile is a parameter.
- Handshake, ECDSA, SHA-256, the secure element, key provisioning: thin wrappers over cryptographic libraries.
- `schedule_task`: fixed thresholds, not called by the hub.
- Which worker pulls a pushed frame: the worker ignores `module_target`, so the model speaks of the assigned node only.
- Tasks built by hand with a state other than pending: runs submit what `Task::new` builds, as the hub does; the scheduler's own `SubmitTask` takes any task.
- The hub heartbeat's constant `last_seen` of 1200: eviction is stated for the server that stamps the current time.
- The hub never calls `handle_node_failure`, `unregister_node` or `evict_offline_nodes` itself; they are operations of the model's environment.
- Hardware profilers, PATH scanning, capability probing, ollama: the raw capability list is an input; real numbers stand for floats, so NaN is not modelled.
- The 512-byte receive buffer of the announcement listener, and text that is not UTF-8.
- Status requests, the progress display and the rest of the medium client.
- Stabilisation.Stabilises: bounds the time to start the hub and between two monitor checks by parameters, because `sleep` only bounds them from below; the nominal values are 0 s and 3 s. `Failover.LeadsInTime` likewise bounds how late a turn of a loop may come.
- Which hub answers a handshake: any other process that is left may, whether or not it leads, and so may one whose role loop has ended; without one none is answered.
- Which other process holds the hub's port: a parameter of the start. The two ports bound before the flag is set count as one; failing to bind one of the other four only ends the loop that does.
- Starvation: the hub's and the worker's blocking receive loops each occupy a runtime thread; a turn of the role loop comes within a bound all the same.
- Frames.RoundTripIff: states the decoder that checks the length; the hub's own handlers slice without that check and are not modelled on truncated frames.
