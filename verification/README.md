# A verified model of the Digital Rebar provisioning server

Digital Rebar Provision drives machines through workflows, hands out DHCP leases, keeps its
objects in lockable stores, and tells clients about changes.  This project models seven of its
parts in Dafny and proves what each of them promises over whole runs.

- **Jobs.** A workflow is compiled into a flat task list with `stage:` and `bootenv:` entries
  (`Workflow`).  Each POST to the job collection interprets that list from where the machine
  stands (`JobModel`, `JobServer`), and an agent takes the jobs through their states (`Agent`,
  `TaskRunner`).  `JobRuns` shows that a machine's jobs form one chain; `JobMeaning` shows that
  the finished jobs spell out the workflow in order; `JobProgress` and `AgentProgress` show that
  every workflow can be carried through to its end.
- **DHCP leases.** `DhcpModel` gives the answers to DHCPREQUEST and DHCPDISCOVER (sections 4.3.2
  and 4.3.1 of RFC 2131) as relations on a table of leases; `DhcpServer` is the imperative form;
  `DhcpRuns` proves that clients do not disturb each other, and exactly when they do; `DhcpReach`
  shows that those cases come about from an empty table; `DhcpAnswers` says what a client is given,
  and when an offered address is then acknowledged.  `Reservations` keeps reservations and
  subnets consistent.
- **Transactions.** `LockOrder` is the order in which a transaction takes its store locks;
  `Transactions` interleaves any number of threads, one lock operation at a time, those that
  crash on an unknown store name included; `Deadlocks` says exactly when they can get stuck.
- **Connection cache.** `ConnCache` is a sorted array with bisection, insertion by shifting and
  compaction in place, proved to stand for a plain map.
- **Event subscriptions.** `WireText` is the text of the registration protocol and the server's
  list; `Subscriptions` is the protocol as a state machine; `EventStream` is the client.
- **Plugin actions.** `Actions` is the unload protocol with concurrent callers; `ActionTable` is
  the table they are looked up in.
- **Codecs.** `BsdpModel` and `Bsdp` are the vendor option of Apple's boot service discovery
  protocol; `Filters` is the list-filter syntax that the client prints and the server parses.

Code that updates fields is modelled by classes and methods with loops.  Each such method is
proved against a function or relation on values, and the theorems are about those.  Iteration
over a store is iteration over its keys, in order where the source depends on it.  Clocks,
new identifiers and the outcome of requests are parameters.  `Wrappers`, `Sequences` and `Maps`
hold what several of the parts share.

Where a promise does not hold of the code as it stands, the exact condition is proved:
`DhcpRuns.TouchedIff`, `DhcpRuns.InterferesIff` and `DhcpReach.ReachedIff`,
`DhcpRuns.ReservedPassesIff`, `DhcpAnswers.OfferedIsAckedIff` and
`DhcpAnswers.HandshakeIff`, `Deadlocks.DeadlockIff`, `Agent.ConflictAfterInit`,
`WireText.ReadBack`, `WireText.Forwards`, `Subscriptions.AgreementIff`,
`Subscriptions.ForwardedIffWanted`, `BsdpModel.IdRoundTrip`, `BsdpModel.ListRoundTrip`,
`Bsdp.OptionRoundTrip`, `Filters.FilterRoundTrip` and `Filters.ListRoundTrip`.

The comment on `AddToCache` speaks of lines unused for ten minutes being evicted, and the code
agrees: a line is dropped when its timeout, set ten minutes ahead on each use, lies before the
collection.  The comment on `InSubnetRange` speaks of the CIDR; the code leaves out its first
and last address, and so does the model.

## Model

| member | source | states |
|---|---|---|
| TaskList.RenderParse | frontend/job_create.go:136-161 | Splitting a task-list string at its first colon and writing it back gives the same string, for every string. |
| TaskList.ParseRender | backend/machines.go:474-494 | Every entry that validation can meet is recovered from its text, so strings and entries are in bijection. |
| TaskList.MarkerText | frontend/job_create.go:136-161 | The prefix `stage` enters a stage and the prefix `bootenv` an environment. |
| Workflow.FlattenMeaning | backend/machines.go:634-656 | Reading the flat list, each task in the stage and environment of the nearest markers before it, gives exactly the work the workflow asks for, in order. |
| Workflow.FlattenEnvFollows | backend/machines.go:638-699 | Wherever the list enters a stage with its own environment, that environment is already in force or the very next entry asks for it, so the stage hook and the list never disagree; and an environment is asked for only right after the stage it belongs to. |
| Workflow.FlattenSparse | backend/machines.go:644-651 | An environment is asked for only where another one, or none, was asked for last. |
| JobServer.JobServer.StoreNew | backend/jobs.go:372-385 | Storing a new job makes it current and takes the mark from its predecessor; nothing else changes. |
| JobServer.JobServer.StoreChanged | backend/jobs.go:396-401 | A changed job keeps its current mark, and a current one takes the mark from its predecessor. |
| JobServer.JobServer.StoreMachine | backend/machines.go:659-699 | A new stage brings its environment, and any change of environment makes the machine not runnable; JobRuns.RequestAnswers, JobRuns.StopsIff and JobMeaning.MachineStands say so of requests, steps and runs. |
| JobServer.JobServer.CreateJob | frontend/job_create.go:35-132 | The whole answer to a job request: conflict, rerun, retry or advance, with the new server state. |
| JobServer.JobServer.SkipSatisfied | frontend/job_create.go:136-161 | The loop stops at the first task or unmet marker: everything passed over is already satisfied and what it stops at is not. |
| JobServer.JobServer.WalkTasks | frontend/job_create.go:128-212 | From a starting index: marker job, stage or environment change, new task job or end of list, with the state each leaves. |
| JobServer.JobServer.PatchJob | backend/jobs.go:396-401 | A guarded state change happens just when the job exists in the expected state, and leaves the rest alone. |
| JobServer.JobServer.CompileStages | backend/machines.go:634-656 | The loop builds the flat list of the whole workflow and the stage and environment to start in. |
| JobServer.JobServer.AssignWorkflow | backend/machines.go:608-657 | Accepted just for another, existing, available workflow; then the machine is as JobMeaning.AssignedMachine says. |
| JobRuns.PostKeepsChain | frontend/job_create.go:62-122 | A job request, whatever its outcome, keeps the jobs one chain headed by the machine's current job. |
| JobRuns.StepKeepsChain | backend/jobs.go:464-475 | So does every agent patch, flag change and workflow assignment. |
| JobRuns.OneOpenJob | frontend/job_create.go:62-122 | Along every run from a machine without jobs: only the current job can be open, only it is marked current, and following the predecessors never returns to a job. |
| JobRuns.RequestAnswers | frontend/job_create.go:46-212 | In every reachable state, for every machine asked for: refused without effect just for another machine or one that may not run; conflict just for an open current task job, rerun just for an incomplete one, neither with any effect; an offered job is a plain task in the machine's own stage and environment; a new stage is the one the list names and brings its own environment if it has one; the machine stays runnable just when its environment stays; without a job the stage or environment has changed or the list is at its end. |
| JobRuns.StopsIff | backend/machines.go:462-464 | Of all steps but a change of flags, just those that change the environment make a machine not runnable, and none makes it runnable. |
| JobRuns.FailedTaskAgain | frontend/job_create.go:62-111 | A failed task, or one whose job has no record, is offered again at the same place by the next request. |
| JobMeaning.PostAgrees | frontend/job_create.go:79-211 | A job request keeps machine, jobs and list in agreement and never moves the machine back. |
| JobMeaning.PatchAgrees | frontend/job_create.go:97-122 | An agent's patch keeps the agreement; work is recorded exactly when a task job finishes. |
| JobMeaning.AssignAgrees | backend/machines.go:608-657 | Assigning a workflow to any reachable machine, even one with an open job, starts a new agreement. |
| JobMeaning.AssignedMachine | backend/machines.go:608-699 | An assignment puts the machine at the top of the compiled list, in the first stage and the environment that it brings, and it stays runnable just when that is the environment it was in. |
| JobMeaning.MachineStands | backend/machines.go:659-699 | Along every run after an assignment the machine is in the stage of the last stage entry behind it and in the environment last asked for; in a stage with an environment of its own it is in that one. |
| JobMeaning.WorkflowRunsInOrder | backend/machines.go:608-699 | After an assignment, whatever follows: the finished task jobs in creation order are a prefix of what the workflow means on a machine in the environment it was in before, and all of it at the end of the list. |
| JobMeaning.JobsAgree | frontend/job_create.go:124-212 | Every job of the assignment carries its entry of the list and the stage and environment in force there, counted from the first stage and its environment; it is a task's or records the entering of a stage; and it comes after its predecessor or retries it after a failure. |
| JobMeaning.NoTaskSkipped | frontend/job_create.go:79-211 | The current task never decreases, stays between -1 and the length of the list, and every task behind it has a finished job of this assignment. |
| JobProgress.WorkflowCanFinish | frontend/job_create.go:35-212 | After an assignment and any run, the end of the list can be reached, and the jobs then record the whole workflow. |
| JobProgress.RequestMoves | frontend/job_create.go:62-122 | A request to a machine that may run, with its current job over, moves it on in the list or offers a failed task again. |
| Agent.MachineAgent.Init | api/agent.go:146-173 | Waiting is reached just when no request it needs goes unanswered; the job that the agent's own copy of the machine names is failed on the server if it is open and both requests are answered, and nothing else is touched. |
| Agent.ReactKeeps | api/agent.go:146-173 | Every step of agent and server, with lost answers and restarts, keeps the chain of jobs and the job the agent is busy with; while the agent gets hold of every job it fetches, requests, begins and ends, nothing is open that it does not know of. |
| Agent.ConflictAfterInit | api/agent.go:154-173 | With whatever copy and answers a start-up reached waiting: the next request conflicts just when the current job of the current task was open and the copy named another job or the job could not be fetched. |
| Agent.AgentNeverConflicts | frontend/job_create.go:112-121 | Along every run with restarts and failed waits at any moment, in which the agent gets hold of every job it fetches, requests, begins and ends (no answer lost, no failed fetch of the task, no missing working directory), a request is never answered with the already-running conflict. |
| Agent.ConflictHeals | api/agent.go:343-428 | Whatever answers were lost before, a conflict finds the copy renewed, and after the answered start-up it leads to the next request is not in conflict. |
| Agent.InterruptedTaskIsRetried | frontend/job_create.go:79-122 | A task interrupted in created or running is offered again at the same index with the interrupted job as predecessor. |
| Agent.LostAnswerCounts | api/agent.go:343-428 | A job request has its effect whether or not its answer arrives, and an agent that does not hear it starts over. |
| AgentProgress.AgentCarriesThrough | api/agent.go:146-428 | After an assignment in any state and any run with lost answers, one restart later the agent can go on to the end of the list without starting over, and the jobs then record the whole workflow. |
| AgentProgress.RestartRests | api/agent.go:146-173 | A restart with an answered start-up leaves the agent waiting with nothing open, wherever it is made. |
| TaskRunner.FinalState | api/jobs.go:335-394 | The patched state is decided by the first action that reports anything, or by the last: failed, incomplete or finished as its flags and place say; a task whose actions or helper are not to be had is left incomplete. |
| TaskRunner.SomeActionDecides | api/jobs.go:343-394 | Every list of actions that is not empty has one that decides, so the patched state is always determined. |
| TaskRunner.SaneVerdicts | api/jobs.go:193-215 | Which exit codes fail a job, leave it incomplete or finish it, for the last action and for one before it, with the usual exit codes. |
| TaskRunner.LegacyVerdicts | api/jobs.go:216-229 | The same with the old exit codes. |
| TaskRunner.OtherVerdicts | api/jobs.go:335-394 | Without a helper the job is left incomplete; a file or script that cannot be carried out fails it. |
| DhcpServer.DhcpServer.FindSubnetForVias | backend/dhcpUtils.go:94-107 | The first subnet that contains a global unicast via, with that via. |
| DhcpServer.DhcpServer.FindReservation | backend/dhcpUtils.go:109-145 | The owner's reservation at the requested address, else their first scoped one inside the subnet, else their first global one, else none. |
| DhcpServer.DhcpServer.FindLease | backend/dhcpUtils.go:203-306 | The whole answer to a DHCPREQUEST with the lease table it leaves. |
| DhcpServer.DhcpServer.NextFree | backend/subnet.go:79-119 | The first unused address from the cursor to the end and then from the start, or none when both stretches are used; ends, and moves only this cursor. |
| DhcpServer.DhcpServer.MostExpiredLease | backend/subnet.go:25-49 | An expired lease that no unreserved lease precedes in expiry, or none just when none has expired. |
| DhcpServer.DhcpServer.Next | backend/subnet.go:657-668 | The first picker that does not pass the request on decides. |
| DhcpServer.DhcpServer.SurveyLeases | backend/dhcpUtils.go:328-342 | The leased addresses of the subnet and the caller's last lease that fits the request. |
| DhcpServer.DhcpServer.SurveyReservations | backend/dhcpUtils.go:343-357 | Reserved addresses override leased ones, and a reservation of the caller's rules the candidate out. |
| DhcpServer.DhcpServer.FindViaSubnet | backend/dhcpUtils.go:308-375 | Nothing, a fake lease, the caller's own lease again, or a picked one, with the table each leaves. |
| DhcpServer.DhcpServer.FindOrCreateLease | backend/dhcpUtils.go:398-431 | The whole answer to a DHCPDISCOVER: by reservation if its address is free for the caller, else by subnet. |
| DhcpRuns.NextFreeComplete | backend/subnet.go:79-119 | With the cursor where the picker can have left it, the picker gives up just when everything it looks at is used: the active range, and its start even if the range is empty; what it finds is such an address and unused. |
| DhcpRuns.NextIsUnique | backend/subnet.go:79-119 | The address found is the first unused one on the way from the cursor to the end and on from the start; there is no other. |
| DhcpRuns.NextIsFair | backend/subnet.go:20-119 | For every subnet and chain of pickers: what is picked is an unused address that a picker which can be asked gives, an expired unreserved lease, or by hint the caller's own; and the cursor stays where it may be. |
| DhcpRuns.DefaultPickersComplete | backend/subnet.go:657-668 | With the default pickers a caller without a hint is refused just when the range is used up and no lease has expired; a lease is taken over only when the range is used up, and then an expired one that no other precedes in expiry. |
| DhcpRuns.PickedIsFair | backend/dhcpUtils.go:328-375 | Inside the subnet a picked address holds no reservation, and is unleased and in range, or its lease had expired or was the caller's; and it is always inside when the active range is. |
| DhcpRuns.DiscoverUntouched | backend/dhcpUtils.go:398-431 | A DHCPDISCOVER through any subnets changes somebody else's unexpired lease only if the subnet that serves it can. |
| DhcpRuns.RequestUntouched | backend/dhcpUtils.go:203-306 | A DHCPREQUEST changes no unexpired lease but the caller's. |
| DhcpRuns.HeldLeaseSurvives | backend/dhcpUtils.go:147-431 | Over every run of calls at non-decreasing times, with any valid or invalid subnets, an unexpired lease that no call can touch keeps owner, expiry and place. |
| DhcpRuns.RunKeepsState | backend/subnet.go:79-119 | Along every run the cursors stay where the picker can use them, so it stays complete. |
| DhcpRuns.RequestOutcomes | backend/dhcpUtils.go:266-306 | Silent just when no lease, reservation or subnet covers the request; an acknowledged lease was the caller's or had expired, and lasts as long as reservation and subnet say; if it was the caller's, nobody else reserves the address and the caller's reservation is for it. |
| DhcpRuns.ReservedPassesIff | backend/dhcpUtils.go:221-258 | An address reserved for somebody else is acknowledged just when the caller has no reservation, the lease has expired and was the reserving client's, and its via has not changed. |
| DhcpRuns.ReservedPasses | backend/dhcpUtils.go:225-228 | For every address and every two clients there is such a request: one's expired lease on its own reserved address goes to the other. |
| DhcpRuns.DiscoverOffers | backend/dhcpUtils.go:147-431 | An offer is recorded for a minute under the caller's token; a usable reservation is always the one offered, and without one a caller's own lease in the subnet is offered again. |
| DhcpRuns.TouchedIff | backend/subnet.go:20-119 | For every subnet, picker list, caller and lease of somebody else: some DHCPDISCOVER changes the lease just when its address is outside the subnet and a picker gives it, or inside, given by hint, and held in the subnet's strategy with the caller's token. |
| DhcpRuns.InterferesIff | backend/subnet.go:20-119 | A caller can disturb leases that are not its own just when the subnet serves and can pick outside itself, or the caller's strategy is not the subnet's, the hint picker comes before none, and the active range is not empty. |
| DhcpReach.ReachedIff | backend/subnet.go:20-119 | And just then calls from an empty table, made at one moment, lead to a table in which the caller does so, for every subnet and order of pickers. |
| DhcpReach.FillTo | backend/subnet.go:79-119 | Wherever next-free comes before none, calls from an empty table lead to the first n addresses of the range leased to n different tokens, the cursor on the last, as long as all but the last are inside the subnet. |
| DhcpAnswers.UnicastIff | backend/dhcpUtils.go:94-107 | Vias and requests count when they are not loopback, link-local, multicast or broadcast. |
| DhcpAnswers.ServingSubnet | backend/dhcpUtils.go:94-107 | A call is served by the first subnet that one of its vias is in, with the first such via, and by none just when there is none. |
| DhcpAnswers.ReservationFound | backend/dhcpUtils.go:109-145 | A reservation is found just when the client has one that was asked for, is global, or is scoped strictly inside the subnet; the one asked for comes first, then scoped before global, then the least address. |
| DhcpAnswers.ReservationOffered | backend/dhcpUtils.go:147-201 | A client whose only reservation may be used is offered its address whenever nobody else holds it, with a new lease or the one that is there, which is recorded unless a new one comes through a proxy. |
| DhcpAnswers.AckIff | backend/dhcpUtils.go:203-306 | For every table, caller, address, vias and time, a DHCPREQUEST is acknowledged just when the address is leased, to the caller or no longer, the reservations leave it to the caller, it comes by the same via, and a reservation or a subnet covers it. |
| DhcpAnswers.AckRecords | backend/dhcpUtils.go:294-303 | The lease is then the caller's, and lasts as long as the reservation says, else the subnet, else two hours; no other lease changes. |
| DhcpAnswers.NakLeaves | backend/dhcpUtils.go:203-303 | A refusal leaves the lease of somebody else as it is, a contested one to nobody for ten minutes, one by another via to the caller, and removes one that nothing covers. |
| DhcpAnswers.ContestedIsHeldBack | backend/dhcpUtils.go:222-251 | For ten minutes no client is acknowledged on a contested address. |
| DhcpAnswers.OwnLeaseAgain | backend/dhcpUtils.go:328-362 | A caller without reservations is offered the greatest of its own leases in the subnet that fit, with the new via, and no other lease changes. |
| DhcpAnswers.OthersPicked | backend/dhcpUtils.go:328-375 | Without such a lease it is given what the pickers find, in the subnet's strategy, for a minute. |
| DhcpAnswers.ReservedPicked | backend/dhcpUtils.go:343-357 | A caller whose reserved addresses others hold is not offered its own lease in that subnet but a pick. |
| DhcpAnswers.NotServed | backend/dhcpUtils.go:308-327 | Through no subnet, a disabled one or a proxy, a caller without reservations is offered no address and nothing changes. |
| DhcpAnswers.HintHonoured | backend/subnet.go:51-77 | With the default pickers an address of the range that is asked for is given just when it is unused, the caller's or expired, and nothing else is given instead. |
| DhcpAnswers.OfferedIffRoom | backend/dhcpUtils.go:308-375 | With the default pickers a new caller is offered an address just when one of the range is unused or a lease in the subnet has expired. |
| DhcpAnswers.OfferedIsAckedIff | backend/dhcpUtils.go:203-431 | An offered address is acknowledged within the minute, by the same vias, just when it was offered in the caller's own name, the reservations leave it to the caller, and the via has not changed. |
| DhcpAnswers.HandshakeIff | backend/dhcpUtils.go:203-431 | A caller without reservations, in a subnet of its strategy with its range inside, gets what it was offered just when the address is not reserved, which only a lease of its own can be. |
| DhcpRuns.ValidatedStrays | models/subnet.go:159-174 | A validated subnet that serves and picks outside itself is one for reservations only, with pickers of its own. |
| DhcpRuns.ReservationsOnlyStrays | models/subnet.go:208-213 | Validation accepts such subnets, and they disturb callers of their own strategy. |
| Reservations.CreateKeeps | backend/reservation.go:187-230 | An accepted reservation keeps the invariant, whatever the store holds. |
| Reservations.ApplyKeeps | backend/reservation.go:167-182 | So does every update and deletion of a reservation and every creation, change and deletion of a subnet. |
| Reservations.ReservationsStayApart | backend/reservation.go:187-230 | Along every run from an empty store, two reservations with the same strategy and token are both scoped, to different subnets. |
| Reservations.ReservationsAreHomed | backend/subnet.go:617-637 | Along every run from an empty store, the subnet of a scoped reservation exists and has the address strictly inside. |
| Reservations.FirstSubnet | backend/reservation.go:187-230 | The subnet of a reservation is the first in key order that contains its address. |
| Reservations.AcceptedIff | backend/reservation.go:187-230 | A reservation is accepted just when its address is free, global unicast and not on the edge of its subnet, strategy and token are given, and the owner has no other, except scoped ones outside the subnet of a scoped one. |
| Reservations.AcceptedIsStored | backend/reservation.go:187-230 | It is then stored as it is, a scoped one with the name of its subnet, and nothing else changes. |
| Reservations.ChangesApply | backend/reservation.go:167-182 | An update goes through just when owner, scope and subnet stay; a deletion always does. |
| Reservations.SubnetsChange | backend/subnet.go:617-637 | A subnet is added just when its name is free, changed just when name, strategy and range stay, and deleted just when no scoped reservation lies strictly inside. |
| Reservations.ReservationStore.Create | backend/reservation.go:187-230 | The two loops accept exactly the reservations that fit, and store them with their subnet's name. |
| Reservations.ReservationStore.RemoveSubnet | backend/subnet.go:617-626 | A subnet goes just when no scoped reservation lies inside it. |
| LockOrder.SortDescending | backend/dataTracker.go:482-485 | A reverse-sorted copy with the same names, duplicates included. |
| LockOrder.Acquire | backend/dataTracker.go:486-497 | The locks taken are the distinct names in descending order, whatever list was asked for. |
| LockOrder.Release | backend/dataTracker.go:508-518 | The unlocker releases each of them exactly once, in the opposite order. |
| Transactions.StepKeeps | backend/requestTracker.go:159-183 | Every lock operation of every thread, crashes included, keeps the invariant: who holds what, who reads or writes, what has been delivered. |
| Transactions.AdvanceDecreases | backend/requestTracker.go:159-183 | Each step other than publishing brings its thread strictly closer to its end and puts off no other. |
| Deadlocks.NoDeadlock | backend/dataTracker.go:480-529 | In every reachable state with an unfinished thread, some thread can take such a step, for any number of threads and any lock lists, unless one thread names a store that does not exist and another takes all stores. |
| Deadlocks.DeadlockIff | backend/dataTracker.go:480-529 | A state in which nobody can go on is reached just when there are two such threads, the second not naming an unknown store before it takes all: the first crashes with the reader side taken. |
| Deadlocks.GoodIff | backend/dataTracker.go:486-497 | A transaction does not crash on its list of stores just when every store it names exists. |
| Transactions.Isolation | backend/requestTracker.go:159-183 | While a thunk runs, no other thread has a store it named, and none at all during an all-stores thunk. |
| Transactions.ThunkHolds | backend/requestTracker.go:159-183 | While a thunk runs, its thread has every store it named, and all of them exist. |
| Transactions.OneThunkEach | backend/requestTracker.go:159-183 | Every transaction runs its thunk exactly once: those done, and the one at hand if it has begun. |
| Transactions.DeliveredUnlocked | backend/requestTracker.go:35-44 | A queued event is delivered only by a thread that holds no lock. |
| Transactions.EventsInOrder | backend/requestTracker.go:56-92 | What is delivered of a thread's events is a prefix of what it published in the run, and all of it between transactions: each once, in order. |
| ConnCache.AddrCache.Search | backend/conncache.go:52-54 | Bisection finds the boundary between greater and not greater remote addresses. |
| ConnCache.AddrCache.InsertLine | backend/conncache.go:66-69 | Append, shift and fill give the list with the line inserted. |
| ConnCache.AddrCache.AddToCache | backend/conncache.go:40-70 | The array stays strictly descending and stands for the map with the new entry, or the same map for a nil address. |
| ConnCache.AddrCache.LocalFor | backend/conncache.go:74-92 | The answer is the map's; a found entry gets a new timeout and nothing else changes. |
| ConnCache.AddrCache.ExpiredIndices | backend/conncache.go:127-133 | Exactly the indices of the expired lines, in order. |
| ConnCache.AddrCache.CloseGaps | backend/conncache.go:134-148 | Closing all gaps in place gives the unexpired lines in their order. |
| ConnCache.AddrCache.CollectExpired | backend/conncache.go:126-151 | A round of collection is filtering, on the array and on the map. |
| ConnCache.LiveAgrees | backend/conncache.go:129-149 | Filtering a descending array that stands for a map gives one that stands for the filtered map. |
| ConnCache.AnswersAreLatest | backend/conncache.go:35-92 | Over every sequence of operations, what is cached for a remote address is what was last added for it. |
| ConnCache.RecentEntriesStay | backend/conncache.go:35-39 | No collection within the timeout of an entry removes it, whatever else happens. |
| ConnCache.UsedIsFound | backend/conncache.go:35-92 | For ten minutes after an address was added or found, a lookup answers it, with the local address last added, whatever else happens. |
| ConnCache.StaleIsDropped | backend/conncache.go:126-151 | A collection drops exactly the entries whose timeout lies before it. |
| ConnCache.ZeroIsNotFound | backend/conncache.go:74-77 | The zero addresses and nil are never found. |
| ConnCache.MalformedIsZero | backend/conncache.go:45-47 | A slice of no valid length is stored and looked up as the zero address. |
| WireText.ReadBack | frontend/websocket.go:104-115 | A registration text is read as it was meant just when its event name is not empty and does not end in white space. |
| WireText.VerbText | frontend/websocket.go:104-115 | The verbs are `register` and `deregister`. |
| WireText.LeadingBlank | frontend/websocket.go:104-115 | White space before the verb is ignored. |
| WireText.WithoutAll | frontend/websocket.go:137-146 | Deregistering takes out every occurrence of the event and nothing else. |
| WireText.Session.OnMessage | frontend/websocket.go:104-157 | One acknowledgement for each text understood, none otherwise, and the list with the event added once or taken out. |
| WireText.Forwards | frontend/websocket.go:37-56 | The loop stops at the first registration that decides: it forwards just when that one matches and stops the server just when that one fits with too few parts. |
| WireText.Passes | frontend/websocket.go:37-56 | The same as a function of list and event. |
| WireText.ShortNameStops | frontend/websocket.go:42-50 | A registration of the event's type alone stops the server, whatever comes after it. |
| WireText.StopsParts | frontend/websocket.go:37-56 | A type alone stops the server when it fits, a type with an action when both do. |
| WireText.MatchesParts | api/event_stream.go:104-112 | A registration is cut at its first two dots, and each part is the value or a star. |
| Subscriptions.SubscribeAgrees | api/event_stream.go:196-225 | Registering any list of events, repeated ones included, keeps list and table naming the same events. |
| Subscriptions.DeregisterAgrees | api/event_stream.go:272-298 | Deregistering takes exactly the named events off the list, in whatever order. |
| Subscriptions.StepKeeps | api/event_stream.go:125-225 | Every step of client, wire and server keeps channels, tables and messages in order, whatever the names, and with sendable names the agreement; handles registered out of order included. |
| Subscriptions.SubscriptionsAgree | api/event_stream.go:196-298 | While the stream is up and names are sendable, the server's list after the texts in flight is free of duplicates and names exactly the client's events, the built-in one aside. |
| Subscriptions.AgreementIff | api/event_stream.go:196-298 | For every set of event names: the two sides agree along every run that subscribes to these just when all of them are sendable. |
| Subscriptions.OneAckEach | frontend/websocket.go:104-156 | Whatever the names: messages are read once each and in order, those understood are acknowledged as they were read, the rest are in flight, and the list is what the acknowledged ones amount to; with sendable names the acknowledgements are the messages. |
| Subscriptions.ClosedOnce | api/event_stream.go:129-139 | No step of any run, whatever the names, closes a channel that is closed already. |
| Subscriptions.ListedAreOpen | api/event_stream.go:142-161 | While the stream is up, every subscribed handle has an open channel, whatever the names. |
| Subscriptions.ClosedIff | api/event_stream.go:129-298 | A channel that was ever opened is closed just when it is no longer kept as open. |
| Subscriptions.UpdateIs | frontend/websocket.go:104-157 | A message leaves its event in the list once or not at all, and the other events where they are. |
| Subscriptions.ServerListsOnce | frontend/websocket.go:104-157 | Along every run, whatever the names, the server's list names no event twice. |
| Subscriptions.SubscribeAdds | api/event_stream.go:196-225 | Subscribing adds the handle to each of the events, without a connection to those before the first new one, and changes nothing else. |
| Subscriptions.SubscribedIffAsked | api/event_stream.go:196-298 | Along every run a handle is subscribed to just what it has asked for, or had, and was not dropped since. |
| Subscriptions.SubscriberIsServed | api/event_stream.go:142-225 | Whoever subscribes while the stream is up is sent every event that matches, on an open channel, until the handle is dropped or the stream ends. |
| Subscriptions.ForwardedIffWanted | frontend/websocket.go:37-56 | With nothing in flight and the two sides agreeing, the server forwards an event just when a subscription that matches decides, and stops just when one with too few parts does; if no subscription stops it, it forwards just what somebody is subscribed to. |
| Subscriptions.AgreementNeedsSendable | api/event_stream.go:216-221 | Registering one event from the start leaves the two sides in agreement just when its name is sendable. |
| EventStream.Insert | api/event_stream.go:206-215 | Bisection and shifting keep a handle list strictly ascending and add the handle just when it was not there. |
| EventStream.Remove | api/event_stream.go:279-285 | The handle is taken out and the list stays strictly ascending. |
| EventStream.Stream.Subscribe | api/event_stream.go:196-225 | The tables and the events to register are those of the state machine; it fails just when the handle is not open or a new event meets a lost connection, and then stops there. |
| EventStream.Stream.Register | api/event_stream.go:255-270 | A new handle with an open channel, subscribed to the events up to the first new one that meets a lost connection. |
| EventStream.Stream.Deregister | api/event_stream.go:272-298 | The handle is in no list afterwards, each emptied event is deregistered once, and its channel is closed if it was open. |
| EventStream.Stream.Shut | api/event_stream.go:129-139 | Every open channel is closed once and none is kept. |
| EventStream.Stream.Recipients | api/event_stream.go:142-161 | An event goes to exactly the handles with a matching subscription, and all their channels are open. |
| Actions.StepKeeps | midlayer/actions.go:185-230 | Every critical section of every thread keeps counters and callers in step. |
| Actions.InflightCounts | midlayer/actions.go:202-218 | In every reachable state an action's counter is the number of callers between Reserve and Release. |
| Actions.UnloadedForGood | midlayer/actions.go:220-230 | Once unloading has returned, no call through the action runs at any later time. |
| Actions.StaleCallerRefused | midlayer/actions.go:185-211 | A caller that looked the action up before is turned away. |
| Actions.WaitEnds | midlayer/actions.go:220-230 | The waiting loop can be left just when no call is running. |
| Actions.ListedRuns | midlayer/actions.go:169-218 | In every reachable state an idle caller who looks an action up in the table finds it, is granted the reservation and is counted. |
| Actions.ReservedIff | midlayer/actions.go:202-211 | A reservation is granted just when nobody has begun to unload the action. |
| Actions.AddedStays | midlayer/actions.go:48-134 | What a plugin adds stays in the table, as the same action, until it is removed. |
| Actions.RemoveTakes | midlayer/actions.go:90-134 | Removing takes exactly that action out of the table and into the hands of the remover. |
| Actions.UnloadEnds | midlayer/actions.go:220-230 | Once no call is running, whoever has taken an action out gets to the end of unloading it. |
| ActionTable.Table.Add | midlayer/actions.go:48-88 | Refused just when the plugin has the command already; otherwise the table gains exactly that action. |
| ActionTable.Table.Remove | midlayer/actions.go:90-134 | Exactly that action is taken out and handed back, and nothing empty is left behind. |
| ActionTable.Table.GetSpecific | midlayer/actions.go:169-183 | The action under the three names, if there is one. |
| BsdpModel.LongestFits | midlayer/abp.go:59-70 | A prefix of the image list is within the budget just when it is no longer than the one taken. |
| BsdpModel.IdRoundTrip | midlayer/abp.go:22-40 | An image id gives back index and installer flag, the flag just when the type is below 0x80. |
| BsdpModel.ImageRoundTrip | midlayer/abp.go:42-55 | A named image's length byte covers exactly its entry, and the entry gives back flag, index and name. |
| BsdpModel.ListRoundTrip | midlayer/abp.go:72-83 | A list is read back just when each image without a name is followed by an installer of type 0x7f. |
| Bsdp.EncodingFits | midlayer/abp.go:132-159 | The encoding is at most 255 bytes and the list's length byte is exact. |
| Bsdp.OptionRoundTrip | midlayer/abp.go:97-159 | Parsing the encoding gives back message type, server, priority, both image ids and the images that fit, just when their nameless images align. |
| Bsdp.NamedRoundTrip | midlayer/abp.go:97-159 | So it does whenever every image has a name. |
| Bsdp.WireForm | midlayer/abp.go:132-159 | The fields in order: codes 1, 2, 3, 4, 7, 8, each with its length and value, then the list under code 9. |
| Bsdp.IdBytesAre | midlayer/abp.go:31-40 | An image id is type and installer flag, a zero, and the index with the high byte first. |
| Bsdp.NumberFields | midlayer/abp.go:108-118 | Codes 1, 2, 4 and 5 set message type, version, priority and reply port. |
| Bsdp.ServerField | midlayer/abp.go:113-114 | Code 3 sets the server. |
| Bsdp.ImageFields | midlayer/abp.go:119-124 | Code 7 sets the default image and code 8 the selected one. |
| Bsdp.UnknownOrCut | midlayer/abp.go:97-130 | Unknown codes are skipped, and a value that is cut short ends the parse with what was read. |
| Bsdp.EncodeList | midlayer/abp.go:59-70 | The loop takes the longest prefix that fits. |
| Bsdp.FillImages | midlayer/abp.go:72-83 | The loop reads the entries of a list, or stops where the source would read past it. |
| Bsdp.BsdpOpts.ToOption | midlayer/abp.go:132-159 | The bytes of the whole option. |
| Bsdp.BsdpOpts.Parse | midlayer/abp.go:97-130 | The fields after parsing any bytes; unknown codes are skipped and a short tail ends the parse. |
| Filters.PrintFilter | api/client.go:313-359 | The walk over the arguments yields the parameters of its items, or fails just when the arguments are not a list of items. |
| Filters.ItemsOfFlat | api/client.go:317-357 | Every list of valid items, operators in any mixture of cases, is taken apart as it was put together. |
| Filters.OnlyItems | api/client.go:324-355 | Nothing else is accepted. |
| Filters.OperatorsInAnyCase | api/client.go:335-338 | An operator is recognised just when the spelling differs from its name in case only. |
| Filters.FilterRoundTrip | frontend/frontend.go:698-730 | A printed filter is parsed into the same operator and arguments just when no argument holds a closing parenthesis or, for the two-sided operators, a comma. |
| Filters.ListRoundTrip | frontend/frontend.go:698-730 | The same for filter lists of any length. |
| Filters.NamesOnTheWire | frontend/frontend.go:698-730 | Each operator is recognised under its own name and no other. |
| Filters.CompareText | frontend/frontend.go:698-718 | A one-sided operator with its value in parentheses is read as that comparison. |
| Filters.SpanText | frontend/frontend.go:719-726 | A two-sided operator with its bounds is read as that range. |
| Filters.PlainText | frontend/frontend.go:727-728 | A value that starts with no operator is compared for equality as a whole. |
| Filters.Unreadable | frontend/frontend.go:698-730 | An operator without its parenthesis, or a range with one bound, is more than the server can read. |
| Filters.SettingText | api/client.go:323-329 | The words with one argument are sort, limit, offset and slim. |
| Filters.ReverseText | api/client.go:320-322 | The word without one is reverse, sent as true. |

## Left out

- HTTP routing, the command line, websocket and TFTP transport, ISO and file handling, template rendering, logging and metrics.
- Tokens, roles, claims, licences and encryption; the role check in the server's event filter.
- Manual resets of `CurrentTask`, clearing a workflow, and machines without a workflow; the task list is fixed between assignments.
- Saves that fail half way, deleted jobs, several machines, several agents of one machine, and changes to its jobs by anyone else.
- Whether tasks and boot environments named in a list exist in their stores; the model keeps the check for stages and for malformed entries.
- The agent's reboot, kexec and power handling, and exit codes in what they make the machine do; only the final job state is kept.
- JobServer.JobServer.StoreNew: does not model job validation (backend/jobs.go), which saves a current finished job as failed when its stage is missing or unavailable or its task is missing, and refuses to save a current one that is neither finished nor failed.
- JobServer.JobServer.StoreChanged: does not model job validation, as for StoreNew.
- JobServer.JobServer.PatchJob: does not model job validation, as for StoreNew.
- JobServer.JobServer.StoreMachine: does not model the errors for a missing or unavailable stage, because an available machine's list names stages that exist and availability is not asked for within a workflow.
- JobServer.JobServer.AssignWorkflow: takes no empty name, because clearing a workflow hands the machine over to the rules for machines without one, which are not part of the model.
- DhcpServer.DhcpServer.Next: does not model the point2point picker, which does not look at the used addresses.
- The overlap check of subnets; no result here assumes that subnets are disjoint.
- IPv4 addresses whose first byte is zero, DHCP options and their merging, and leases as they are on disk; the model has the table in memory.
- Request trackers shared between threads, and the tracker's own mutex, which a crash leaves locked too; the locks that guard the lock table itself.
- Deadlocks.NoDeadlock: assumes that every thunk and every delivery of events ends, because what they do is not part of the model.
- The connection cache under concurrent lookups: `LocalFor` writes a timeout under the reader lock.
- Full event channels, write failures while the stream is up, and who reads an acknowledgement when several callers wait on the same channel.
- Subscriptions.SubscriptionsAgree: requires sendable event names, because the protocol does not carry others; `Subscriptions.AgreementIff` shows that no weaker condition on names will do.
- Subscriptions.ForwardedIffWanted: requires that the two sides agree, because otherwise the list is not the client's; runs with sendable names always do.
- Plugin processes, and the crash of `Run` on a missing action beyond its being a state that a caller does not leave.
- The type of a decoded boot image, in which the decoder sets all low bits; arbitrary parser input, beyond where the parser would read past its slice; server ids that are neither empty nor four bytes long.
- Lower-casing and word boundaries outside ASCII, URL encoding, and the order of parameters with different names.
