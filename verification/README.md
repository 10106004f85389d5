# A verified model of the scheduler simulator, the philosophers, the buddy allocator and the list

This project models four parts of the repository and proves what they are for.

**The CPU scheduler stack** (`project2`). `Priqueue`, `Scheduler` and `Simulator` are classes that
work as the C code does: nodes are relinked, job records are updated in place, the job array is
compacted by swapping.  Each method is proved equal to a function on values (`QueueSpec`,
`SchedulerSpec`, `SimulatorSpec`), and everything else is proved about those functions:

- one invariant (`Runs.Good`) ties the scheduler's records to the simulator's job array, whatever
  the scheme, the number of cores and the jobs; every event keeps it (`Runs`, `RunsForward`,
  `Phases`), so it holds between any two events of any run (`Moments`);
- no error exit and no failing assertion (`Safety`, `Simulator.Simulate`), termination with a bound
  (`Progress`), exact accounting of time (`Accounting`);
- on one core preemptive shortest-job-first is optimal among all schemes (`Majorization`, `OneCore`,
  `Optimality`).  The proof compares, for every threshold, the work above that threshold;
- response time is exactly the time jobs spend without having had a core (`Answering`, `Keeping`);
- round robin bounds waiting, and faster the more cores there are (`RoundRobin`), and lets every job
  run for its full quantum (`Keeping`); FCFS, SJF and PRI never take a core away (`Keeping`); PPRI runs
  the jobs of highest priority (`Moments`);
- what an arriving job gets, under every scheme and with any number of cores: its place in the queue
  and its core (`Arriving`).  PSJF takes a core if, and ties apart only if, some running job is longer;
  that the job that loses it is the longer one is true on one core only (`Policies`).

`Tables`, `SchedulerTables`, `Arrivals`, `Entries`, `Counting`, `Ledgers`, `Order` and `Invariant`
hold the lemmas in between.  A run is given by a `Config`: number of cores, scheme, quantum and the
loaded jobs.  `Legal` asks for at least one core, run times of at least one unit and, under round
robin, a quantum of at least one.  Arrival times may coincide, although the documentation of
`scheduler_new_job` says that they do not (project2/libscheduler/libscheduler.c:158).

**The dining philosophers** (`pthreads_pc`), symmetric and asymmetric, as an interleaving of
lock and unlock steps, for any number of philosophers from two on (`Philosophers`).

**The buddy allocator** (`project3Graphical`): `Buddy` holds the linked blocks, `BuddySpec` the
functions they refine and the geometry of the blocks.

**The circular doubly linked list** (`project3/list.h`): `RingList`, on the heap.

Where the code and its documentation disagree, the model follows the code:

- `priqueue_offer` answers the new size less one, not the index of the new element
  (`QueueSpec.OfferAnswersIndexIffLast` says when the two agree);
- `priqueue_at` and `priqueue_remove_at` follow the pointer they end on, so for an index out of range
  they do not answer NULL (`Priqueue.Priqueue.Seek` says when the pointer is good);
- PSJF on two or more cores may take a core from a job that needs less time than the new one
  (`Policies.ShorterPreemptsIffOneCore`);
- `buddy_alloc` has a branch for the case that no block is suitable, but `find_free_block` then
  answers the head of the list, in use or not (`BuddySpec.AllocSafeIffFits`,
  `BuddySpec.HandedOutTwice`, `BuddySpec.UsedHeadSplit`).

## Model

| member | source | states |
|---|---|---|
| QueueSpec.OfferKeepsSorted | project2/libpriqueue/libpriqueue.c:34-76 | with any comparison function that is a total preorder, offering to a sorted queue leaves it sorted, also when there are ties |
| QueueSpec.OfferSplits | project2/libpriqueue/libpriqueue.c:44-73 | what is before the place of insertion may stay before the new element, what is from there on may come after it |
| QueueSpec.RemoveKeepsSorted | project2/libpriqueue/libpriqueue.c:182-204 | removing any element leaves a sorted queue sorted |
| QueueSpec.AlwaysLaterAppends | project2/libscheduler/libscheduler.c:89-91 | a comparison function that always answers "later" turns offering into appending |
| QueueSpec.RemoveUndoesOffer | project2/libpriqueue/libpriqueue.c:34-204 | removing at the index where an element landed restores the queue |
| QueueSpec.OfferAnswersIndexIffLast | project2/libpriqueue/libpriqueue.c:32-75 | the returned size less one is the documented index if and only if the queue was empty or the element neither precedes the head nor ties with or precedes any other element |
| QueueSpec.OfferAnswerExample | project2/libpriqueue/libpriqueue.c:75 | an element that lands at index 0 while 1 is returned |
| Priqueue.Priqueue.FindPlace | project2/libpriqueue/libpriqueue.c:43-63 | the walk over the nodes stops between the two nodes that `OfferIndex` names on values |
| Priqueue.Priqueue.Link | project2/libpriqueue/libpriqueue.c:43-73 | relinking keeps the chain acyclic and complete and inserts one node at that place |
| Priqueue.Priqueue.Offer | project2/libpriqueue/libpriqueue.c:34-76 | the chain's elements are the old ones, in the old order, with the new one inserted at `OfferIndex`; the answer is the size less one |
| Priqueue.Priqueue.Seek | project2/libpriqueue/libpriqueue.c:118-131 | the index walk ends on the node with that index, and on a null pointer if and only if there is none |
| Priqueue.Priqueue.At | project2/libpriqueue/libpriqueue.c:118-131 | answers the element with the given index |
| Priqueue.Priqueue.RemoveAt | project2/libpriqueue/libpriqueue.c:182-204 | unlinks exactly the element with the given index and answers it |
| Priqueue.Priqueue.Size | project2/libpriqueue/libpriqueue.c:213-225 | counts the elements of the chain |
| Order.ComparerConsistent | project2/libscheduler/libscheduler.c:42-86 | the five comparison functions other than round robin's are total preorders |
| Order.NewJobOrdered | project2/libscheduler/libscheduler.c:168-235 | a new job keeps the queue in the scheme's order, although its record changes after the insertion (PSJF: one core) |
| Order.FinishedOrdered | project2/libscheduler/libscheduler.c:252-306 | so does a finished job |
| Scheduler.Scheduler.constructor | project2/libscheduler/libscheduler.c:106-145 | an empty queue, no core active, all accumulators 0 |
| Scheduler.Scheduler.FindInactive | project2/libscheduler/libscheduler.c:186-193 | the lowest inactive core, or -1 if all are active |
| Scheduler.Scheduler.SeatNew | project2/libscheduler/libscheduler.c:195-203 | the job is inserted by its idle record and given the core afterwards |
| Scheduler.Scheduler.SettleRunning | project2/libscheduler/libscheduler.c:206-212 | the stored remaining time of the first n jobs, and of no other, is brought up to date |
| Scheduler.Scheduler.HandOver | project2/libscheduler/libscheduler.c:218-226 | the new job has the settled job's core and is running; that job is idle since now |
| Scheduler.Scheduler.TakeOver | project2/libscheduler/libscheduler.c:216-228 | the new job gets the core of the last settled job if and only if it landed among the first n |
| Scheduler.Scheduler.Compete | project2/libscheduler/libscheduler.c:214-228 | the new job is inserted among the settled records and, if it landed among as many as there are cores, has displaced the last of those |
| Scheduler.Scheduler.Contend | project2/libscheduler/libscheduler.c:204-229 | the preemptive branch refines its function on values |
| Scheduler.Scheduler.NewJob | project2/libscheduler/libscheduler.c:168-235 | `scheduler_new_job` refines `SchedulerSpec.NewJob`: new state and answer |
| Scheduler.Scheduler.TakeJob | project2/libscheduler/libscheduler.c:261-270 | takes the first record with the job's number out of the queue, and nothing else |
| Scheduler.Scheduler.FindIdle | project2/libscheduler/libscheduler.c:277-285 | finds the first idle record of the queue, or none if and only if there is none |
| Scheduler.Scheduler.Charge | project2/libscheduler/libscheduler.c:290-299 | waiting grows by the time since the job went idle, response only at its first core |
| Scheduler.Scheduler.Wake | project2/libscheduler/libscheduler.c:287-303 | the first idle job gets the freed core and its waiting and first response are charged; with nobody idle the core goes inactive |
| Scheduler.Scheduler.Retire | project2/libscheduler/libscheduler.c:261-274 | the finished job, and no other, has left the queue, and turnaround has grown by its time in the system |
| Scheduler.Scheduler.JobFinished | project2/libscheduler/libscheduler.c:252-306 | `scheduler_job_finished` refines `SchedulerSpec.JobFinished`: new state and answer |
| Scheduler.Scheduler.TakeFromCore | project2/libscheduler/libscheduler.c:326-338 | takes the record on the given core out of the queue |
| Scheduler.Scheduler.Requeue | project2/libscheduler/libscheduler.c:340-345 | the expired job is settled, goes idle now and is offered again |
| Scheduler.Scheduler.Rotate | project2/libscheduler/libscheduler.c:326-345 | the job on the core, if there is one, has been settled and offered again as idle |
| Scheduler.Scheduler.QuantumExpired | project2/libscheduler/libscheduler.c:322-381 | `scheduler_quantum_expired` refines `SchedulerSpec.QuantumExpired`: new state and answer |
| Simulator.Simulator.constructor | project2/simulator.c:192-197 | every loaded job is in the array, not arrived and on no core |
| Simulator.Simulator.SetActiveJob | project2/simulator.c:24-37 | puts the named arrived job on the core; fails if and only if there is no such entry |
| Simulator.Simulator.DeleteEntry | project2/simulator.c:260-265 | the last entry replaces the deleted one and the array gets shorter |
| Simulator.Simulator.FinishOne | project2/simulator.c:250-279 | reporting a finished job refines `FinishAt` and never takes the error exit |
| Simulator.Simulator.FinishJobs | project2/simulator.c:248-280 | the finish loop, which steps back after each deletion, refines `FinishPhase` |
| Simulator.Simulator.ExpireOne | project2/simulator.c:297-323 | an expired quantum refines `ExpireAt` and never takes the error exit |
| Simulator.Simulator.ExpireQuanta | project2/simulator.c:291-328 | the quantum loop over the cores refines `QuantumPhase` |
| Simulator.Simulator.Occupy | project2/simulator.c:350-359 | the arriving entry, and no other, has the core, and under round robin the core's clock is wound |
| Simulator.Simulator.ArriveOne | project2/simulator.c:336-371 | an arrival refines `ArriveAt` and never takes the error exit |
| Simulator.Simulator.AdmitArrivals | project2/simulator.c:334-372 | the arrival loop refines `ArrivalPhase` |
| Simulator.Simulator.RunEntries | project2/simulator.c:378-403 | every entry on a core loses one unit, its core's clock one tick; the assertion that a core's time string is still empty never fails |
| Simulator.Simulator.RunUnit | project2/simulator.c:378-464 | the time unit refines `Tick` and the sanity check never fails |
| Simulator.Simulator.Iterate | project2/simulator.c:241-465 | one pass of the main loop leads from state n to state n + 1, or leaves the loop exactly when the run is over |
| Simulator.Simulator.Run | project2/simulator.c:241-465 | the whole loop ends, without an error, the first time the run is over, within the proved bound |
| Simulator.Simulate | project2/simulator.c:192-465 | for every legal input the program ends with exit code 0 by last arrival + sum of run times; all jobs are counted; turnaround = waiting + run times = job-time in the system; response is the job-time spent without an answer, never exceeds waiting and equals it without preemption |
| Safety.FinishSafe | project2/simulator.c:250-273 | a finished entry is on a core, the scheduler has its job, and the job named next is in the array |
| Safety.ExpireSafe | project2/simulator.c:304-316 | the job named after an expired quantum is in the array |
| Safety.ArriveSafe | project2/simulator.c:338-370 | the core named for a new job exists or is -1, and with all cores active the queue is at least as long as the preemptive branch needs |
| Safety.TickSafe | project2/simulator.c:384-392 | no two entries share a core |
| Safety.SomeEntryRuns | project2/simulator.c:453-458 | with a job alive some entry is on a core |
| Phases.FinishPhaseGood | project2/simulator.c:248-280 | the finish phase keeps the invariant and both ledgers and leaves no entry without work |
| Phases.QuantumPhaseGood | project2/simulator.c:291-328 | the quantum phase keeps the invariant and both ledgers and leaves no occupied core with an expired clock |
| Phases.ArrivalPhaseGood | project2/simulator.c:334-372 | the arrival phase keeps the invariant and both ledgers; afterwards the arrived jobs are those with arrival time up to now |
| RunsForward.TickGood | project2/simulator.c:378-464 | running a time unit keeps the invariant and the balance and ages every alive job by one |
| Moments.StateIsMoment | project2/simulator.c:241-465 | the event-by-event view of the loop passes through every iteration's first state and every state a time unit is run in |
| Moments.RecordsAgree | project2/libscheduler/libscheduler.c:206-364 | between any two events of any run: the scheduler has exactly one record of each arrived job, on the same core, whose lazily updated remaining time minus the time since it started is the simulator's true remaining time |
| Moments.RecordIsEntry | project2/simulator.c:258-339 | conversely every record belongs to an arrived entry, and the number of jobs alive is the length of the queue |
| Moments.CoresAgree | project2/libscheduler/libscheduler.c:186-378 | between any two events: cores are not shared, a core is active if and only if some entry is on it, and no core is inactive while an arrived job waits |
| Moments.QueueInOrder | project2/libscheduler/libscheduler.c:42-86 | between any two events the queue is in the scheme's order (PSJF: on one core) |
| Moments.LineInOrder | project2/libscheduler/libscheduler.c:42-86 | between any two events, in terms of the loaded jobs: the first idle job, who is served next, is the earliest (FCFS), the shortest (SJF) or the most urgent (PRI, PPRI), earlier arrivals first |
| Moments.FrontRuns | project2/libscheduler/libscheduler.c:204-229 | under PPRI and PSJF with any number of cores, the running jobs are exactly the first min(cores, alive) of the queue |
| Moments.PriorityRuns | project2/libscheduler/libscheduler.c:75-86 | under PPRI with any number of cores, no running job comes after a waiting one by priority, then arrival |
| Moments.ShortestAlwaysRuns | project2/libscheduler/libscheduler.c:62-73 | under PSJF on one core the running job is least by true remaining time, then arrival, although stored values are compared |
| Moments.ResponseWithinWaiting | project2/libscheduler/libscheduler.c:290-299 | between any two events total response is at most total waiting, and equal to it under FCFS, SJF and PRI |
| Moments.QuantumInStep | project2/simulator.c:291-390 | under round robin, between any two events, every running job has used exactly what its core's quantum clock has lost, and no more than a quantum |
| Moments.IdleInOrder | project2/libscheduler/libscheduler.c:340-364 | under round robin, between any two events, the idle jobs are in the order in which they went idle |
| Keeping.KeepsCore | project2/libscheduler/libscheduler.c:195-203 | under FCFS, SJF and PRI a job that is on a core is on it, by the same dispatch, at every later moment until it is found to have used up its time, and then it is gone for good |
| Keeping.KeepsQuantum | project2/simulator.c:291-305 | under round robin, too, a job keeps the core it was given, at every later moment of the run, until it has used up its time or the core is looked at exactly one quantum after it was given away |
| Keeping.QuantumEnds | project2/simulator.c:297-311 | when that quantum is over the job goes idle and the first job of the line has the core, or, with nobody in line, the job has it for another quantum; the clock is wound again |
| Keeping.StepKeeps | project2/simulator.c:241-465 | in every step of every run, whatever the scheme: who loses its core has finished, has had exactly its quantum, or a job arrives under a preemptive scheme; who gains one gets it now; a record becomes answered exactly when its job gets a core |
| Keeping.DispatchedNow | project2/libscheduler/libscheduler.c:195-364 | a job on a core on which it was not a step before has that time as the start of its dispatch |
| Keeping.AnsweredIffRun | project2/libscheduler/libscheduler.c:195-299 | at every moment of every run the mark for an answered job is set if and only if the job has been on a core at that moment or before |
| Keeping.FinishKeeps | project2/simulator.c:250-273 | a finish takes its own job off its core and out of the array and leaves every other running job where it is, with the record it has |
| Keeping.ArriveKeeps | project2/simulator.c:338-358 | an arrival gives a core to nobody but the new job, at the present time, and without preemption leaves every running job where it is |
| Keeping.ExpireKeeps | project2/simulator.c:297-323 | an expired quantum leaves every running job on another core where it is, with the record it has |
| Arriving.ComparesBefore | project2/libscheduler/libscheduler.c:42-91 | the comparison functions order by arrival (FCFS), run time (SJF), remaining time (PSJF) or priority (PRI, PPRI), earlier arrivals first; round robin's puts everything after |
| Arriving.NewJobPlace | project2/libscheduler/libscheduler.c:168-235 | in all three branches the new job is inserted at the head if it goes before the head, else in front of the first later record that does not go before it, in round robin at the end; the others keep their order |
| Arriving.FreeCoreTaken | project2/libscheduler/libscheduler.c:186-203 | in every run an arriving job gets the lowest free core, if one is free, and nobody else's entry changes |
| Arriving.FullHouseWaits | project2/libscheduler/libscheduler.c:230-232 | without preemption and with no core free it waits, and nobody else's entry changes |
| Arriving.ContendByPlace | project2/libscheduler/libscheduler.c:204-229 | with no core free a preemptive scheme gives the new job the core of the last of the first cores-many records if and only if one of these goes after it, or, behind the head, ties with it |
| Arriving.PreemptsIf | project2/libscheduler/libscheduler.c:204-229 | in every run of PSJF and PPRI with any number of cores, all taken, an arriving job gets a core if some running job has more true work left (PSJF) or a larger priority number (PPRI) |
| Arriving.PreemptsOnlyIf | project2/libscheduler/libscheduler.c:204-229 | it gets one only if some running job has more, or as much and arrived at the same time |
| Arriving.PreemptsIff | project2/libscheduler/libscheduler.c:204-229 | so if no running job arrived at that very time, it gets a core if and only if some running job has more |
| Arriving.WhyCoreLost | project2/simulator.c:248-372 | in every run under every scheme a job loses its core only because it has used up its time, because exactly its quantum has passed under round robin, or to the job that arrives at that moment under PSJF and PPRI |
| Accounting.StateGood | project2/simulator.c:241-465 | at the top of every iteration: turnaround - waiting + what queued jobs will still add is the sum of the run times, and turnaround + the ages of queued jobs is the job-time spent so far |
| Accounting.CompleteRun | project2/libscheduler/libscheduler.c:391-420 | over every complete run: turnaround = waiting + sum of run times = job-time units in the system; every job counted; the response law |
| Answering.WokenHeard | project2/libscheduler/libscheduler.c:290-299 | the charge for response when a job is woken is the time it has been without an answer: charged response plus lasting silence stays the same |
| Answering.SilenceBalanced | project2/simulator.c:241-465 | at the top of every iteration, response charged plus the silence of the jobs still without an answer is the job-time spent without an answer so far |
| Answering.ExactResponse | project2/libscheduler/libscheduler.c:290-299 | over every complete run, for every scheme, total response is exactly the number of job-time units that jobs in the system spent without an answer |
| Progress.StepProgress | project2/simulator.c:241-465 | work left + time to the last arrival falls in every iteration but the last |
| Progress.SomeoneRuns | project2/simulator.c:453-458 | with a job alive, an arrived job is on a core |
| Progress.EndsInTime | project2/simulator.c:241-465 | every run ends, at last arrival + sum of run times at the latest |
| OneCore.OneCoreStep | project2/simulator.c:378-403 | on one core a time unit does one unit of work on one pending job, or none if and only if none is pending; under PSJF on a least one |
| OneCore.ShortestRuns | project2/libscheduler/libscheduler.c:62-73 | in every state that satisfies the invariant, PSJF on one core has the least job on the core |
| OneCore.AliveIsAbove | project2/simulator.c:263-340 | the jobs alive are the arrived jobs with work left |
| Majorization.ShortestKeepsDominating | project2/libscheduler/libscheduler.c:62-73 | one unit of work on a shortest job, against one unit on any job, keeps the work above every threshold at least as large |
| Majorization.ArrivalsKeepDominating | project2/simulator.c:334-372 | so do arrivals |
| Optimality.SameWork | project2/simulator.c:241-465 | on one core any two schemes leave the same work present and the same total work at every tick |
| Optimality.SameEnd | project2/simulator.c:241-286 | so their runs are over at the same time |
| Optimality.ShortestDominates | project2/libscheduler/libscheduler.c:62-73 | at every tick and above every threshold PSJF has at least as much work left as any scheme |
| Optimality.ShortestFewestAlive | project2/libscheduler/libscheduler.c:62-73 | on one core PSJF has at every tick no more jobs in the system than any scheme on the same jobs |
| Optimality.ShortestLeastTurnaround | project2/libscheduler/libscheduler.c:391-420 | so its total turnaround and its total waiting are the least, over the same number of jobs |
| RoundRobin.WakeTakesFront | project2/libscheduler/libscheduler.c:277-303 | a freed core goes to the idle job at the front, and the others keep their order |
| RoundRobin.FinishedFifo | project2/libscheduler/libscheduler.c:252-306 | a finish takes the front of the line of idle jobs |
| RoundRobin.ExpiredFifo | project2/libscheduler/libscheduler.c:322-381 | an expired quantum puts the job at the back of the line and takes the front |
| RoundRobin.NewJobFifo | project2/libscheduler/libscheduler.c:168-235 | an arrival joins the back of the line or leaves it alone: nobody is overtaken |
| RoundRobin.CapacityReset | project2/simulator.c:257-305 | of the hand-overs that the quantum clocks make certain within a given time, a hand-over on any core uses up at most one |
| RoundRobin.BoundedWaiting | project2/simulator.c:291-328 | a job with k idle jobs ahead gets a core within quantum * (k / cores + 1) time units, whoever arrives meanwhile: while somebody waits, all cores together work off the line |
| Policies.OneCoreShorter | project2/libscheduler/libscheduler.c:204-229 | in every run of PSJF on one core, a job that loses the core to an arriving one still needs at least as much time |
| Policies.CrowdRuns | project2/simulator.c:241-465 | the exact state of the simulator at the top of each iteration while a crowd of jobs fills n cores |
| Policies.CrowdBreaks | project2/libscheduler/libscheduler.c:195-229 | for every number n of cores from two on, a run in which a job that needs 2n units loses its core to one that needs 2n + 1 |
| Policies.ShorterPreemptsIffOneCore | project2/libscheduler/libscheduler.c:62-73 | so PSJF keeps that promise at every moment of every run, whatever the jobs, if and only if there is one core |
| Philosophers.StepOneChopstick | pthreads_pc/dp_asymmetric.c:159-186 | every step is one lock or one unlock: it moves the philosopher one place on in its cycle and changes the owner of exactly one chopstick, from nobody to the philosopher or back |
| Philosophers.LeftAloneReachable | pthreads_pc/dp_asymmetric.c:185-186 | the state between the two unlock calls, with the right chopstick already locked by the right neighbour, is reachable for every philosopher in both versions, except exactly for the even one of two asymmetric philosophers |
| Philosophers.BlockedIffWaits | pthreads_pc/dp_asymmetric.c:159-168 | a philosopher cannot step if and only if another one holds the chopstick it is about to lock |
| Philosophers.StepConsistent | pthreads_pc/dp_asymmetric.c:159-186 | every lock and unlock keeps each locked chopstick with exactly the philosopher whose place in the cycle says so |
| Philosophers.NeighboursExclude | pthreads_pc/dp_asymmetric.c:159-186 | in both versions neighbours never eat together |
| Philosophers.LocksInOrder | pthreads_pc/dp_asymmetric.c:159-168 | in the asymmetric version everyone locks in the order of one ranking of the chopsticks |
| Philosophers.WaitsUpwards | pthreads_pc/dp_asymmetric.c:159-168 | whoever is waited for waits for a higher-ranked chopstick, if at all |
| Philosophers.ShortChains | pthreads_pc/dp_asymmetric.c:159-168 | in every reachable state a chain of waiting has at most three links, at most two if the number is even |
| Philosophers.LongestChain | pthreads_pc/dp_asymmetric.c:159-168 | three links are reached for every odd number from five on |
| Philosophers.NoDeadlock | pthreads_pc/dp_asymmetric.c:159-186 | in every reachable state everyone can step or is at most three waits behind someone who can |
| Philosophers.AnyoneCanEat | pthreads_pc/dp_asymmetric.c:159-186 | from every reachable state some finite schedule lets any chosen philosopher eat |
| Philosophers.StuckIffAllHoldLeft | pthreads_pc/dining_philosophers.c:155-171 | a reachable state of the symmetric version is a deadlock if and only if everyone holds its left chopstick and waits for its right one |
| Philosophers.DeadlockReachable | pthreads_pc/dining_philosophers.c:155-156 | that deadlock is reachable for every number of philosophers |
| BuddySpec.LogOfPower | project3Graphical/main.cpp:79-91 | `set_block_order` inverts the power of two |
| BuddySpec.SplitTiling | project3Graphical/main.cpp:143-170 | a split keeps the blocks tiling the memory, each a power of two in size, of the right order, at a multiple of its size |
| BuddySpec.InitialTiling | project3Graphical/main.cpp:200-215 | so does the initial list |
| BuddySpec.FindsBestFit | project3Graphical/main.cpp:245-291 | the search finds a free block of least sufficient size if there is one, else the head |
| BuddySpec.BreaksTies | project3Graphical/main.cpp:257-270 | among several free blocks of that size the first is taken if the size is exact, the last otherwise |
| BuddySpec.SplitDownNarrows | project3Graphical/main.cpp:316-319 | the splitting loop keeps the tiling, the allocated intervals and the block's beginning, and stops at a block that is large enough and not larger than necessary |
| BuddySpec.SplitDownCuts | project3Graphical/main.cpp:316-319 | the splitting loop replaces block k by a smaller one at its beginning and, behind it, one free block each of that size, twice that size and so on up to half of the former block; all other blocks are the same records |
| BuddySpec.AllocTiles | project3Graphical/main.cpp:293-333 | every request, met or not, keeps the tiling |
| BuddySpec.AllocBestFit | project3Graphical/main.cpp:306-327 | if a free block fits: a part of a least sufficient one is taken, large enough, of the least size or less than twice the request, apart from every earlier interval, all of which are unchanged |
| BuddySpec.AllocCuts | project3Graphical/main.cpp:306-327 | the exact list after a request in range: the taken record field by field, the free blocks split off behind it, all other records as they were, and where each block begins |
| BuddySpec.OutOfRange | project3Graphical/main.cpp:298-302 | a request for more than the memory, or for a negative size, which is compared as unsigned, changes nothing |
| BuddySpec.OnlyMeetable | project3Graphical/main.cpp:298-302 | such requests can be left out of any sequence of requests without changing its outcome |
| BuddySpec.AllocSafeIffFits | project3Graphical/main.cpp:245-291 | the block that is taken is free and large enough if and only if some free block is large enough |
| BuddySpec.HandedOutTwice | project3Graphical/main.cpp:245-327 | a reachable state and a request for which no block is free: the same interval is handed out again and its first owner loses it |
| BuddySpec.UsedHeadSplit | project3Graphical/main.cpp:316-327 | in any state, a request that fits nowhere and is at most half of the head splits the head while it is in use and marks a part of it free |
| BuddySpec.UsedBlockSplit | project3Graphical/main.cpp:316-327 | such a state is reached after one request for the whole memory |
| BuddySpec.AllocAllTiles | project3Graphical/main.cpp:293-333 | any sequence of requests keeps the tiling |
| BuddySpec.AllocAllKeeps | project3Graphical/main.cpp:293-333 | while requests in range fit, each of them gets an interval of its own, large enough, overlapping neither another new one nor an old one, and the others get none; at the end exactly the old and the new intervals are in use |
| BuddySpec.FreeSizesDiffer | project3Graphical/main.cpp:293-333 | while requests in range fit, no two free blocks have the same size if none had at first |
| Buddy.MemBlock.SetOrder | project3Graphical/main.cpp:79-91 | the halving loop counts the logarithm of the size |
| Buddy.MemList.constructor | project3Graphical/main.cpp:200-215 | one free block of the whole memory, which tiles it |
| Buddy.MemList.SplitBlock | project3Graphical/main.cpp:143-170 | the new right half is linked in behind the shrunk left half, the chain's length is kept in `list_size`; null and no change at the least size |
| Buddy.MemList.FindFreeBlock | project3Graphical/main.cpp:245-291 | the walk over the chain answers the block that `FindFree` names |
| Buddy.MemList.SplitFor | project3Graphical/main.cpp:316-319 | the splitting loop refines `SplitDown` and never gets null from `split_block` |
| Buddy.MemList.BuddyAlloc | project3Graphical/main.cpp:293-333 | `buddy_alloc` refines `Alloc` and keeps the tiling |
| RingList.MutuallyInverse | project3/list.h:40-48 | on a ring `next` and `prev` undo each other |
| RingList.RingIsUnique | project3/list.h:216-218 | the links determine the sequence of entries behind a head |
| RingList.InsertRing | project3/list.h:40-48 | the four assignments of an insertion make a ring of the new sequence |
| RingList.RemoveRing | project3/list.h:83-87 | the two assignments of a removal make a ring of the rest |
| RingList.SpliceRing | project3/list.h:143-155 | the links set by a splice make one ring of both sequences |
| RingList.Init | project3/list.h:30-32 | an empty ring |
| RingList.AddBetween | project3/list.h:40-48 | inserts between two adjacent nodes, also when they are the same |
| RingList.ListAdd | project3/list.h:58-61 | the new entry comes first |
| RingList.ListAddTail | project3/list.h:71-74 | the new entry comes last |
| RingList.DelBetween | project3/list.h:83-87 | bridges one node, also in a ring of two; a ring of one stays as it is |
| RingList.ListDel | project3/list.h:94-99 | the others, if there are any, keep their order; the entry's links are poisoned |
| RingList.ListDelInit | project3/list.h:105-109 | the others, if there are any, keep their order; the entry is an empty ring, also if it was one before |
| RingList.ListMove | project3/list.h:116-120 | the entry leaves its ring, which may be its own alone, and comes first in the other, or in the same one |
| RingList.ListMoveTail | project3/list.h:127-132 | the same, last |
| RingList.ListEmpty | project3/list.h:138-141 | true if and only if there is no entry |
| RingList.SpliceEntries | project3/list.h:143-155 | all entries of a list that is not empty go in front of the other's, in order |
| RingList.ListSplice | project3/list.h:162-166 | concatenation of the two sequences, no entry lost or duplicated |
| RingList.ListSpliceInit | project3/list.h:175-182 | the same, and the emptied head is an empty ring |
| RingList.ForEachSafe | project3/list.h:216-218 | the traversal visits every entry once and in order, although entries are deleted as they are visited; exactly the deleted ones are gone |

## Left out

- Reading the command line and the CSV file, printing, the timing diagram's text and its memory, `scheduler_show_queue`: a run starts from the loaded jobs, and a core's time string is modelled by whether it has been written.
- `malloc` and `free`, `scheduler_clean_up`, `priqueue_destroy`: no statement about memory that is never released.
- Averages: the accumulators are `float` in C and only ever add integers; the model has exact integers and stops before the divisions.
- Integer overflow: times and differences in the comparison functions are unbounded integers.
- Jobs with a run time of 0 and negative arrival times, which the program does not reject.
- `priqueue_peek`, `priqueue_poll`, `priqueue_remove`: the scheduler does not call them; `priqueue_remove` reads an uninitialised pointer.
- The queue holds job records, and the comparison function is a function on their values.
- `core_list[i].active` and `responded` take two values each and are booleans.
- Scheduler.Scheduler.NewJob: asks, as the code silently does, that a preemptive scheme with all cores active has as many queued jobs as cores; `Safety.ArriveSafe` proves it of every run.
- Scheduler.Scheduler.JobFinished: asks that the job is queued, because the code follows a null pointer otherwise; `Safety.FinishSafe` proves it of every run.
- The philosophers' `Stop` flag, the unlocking of all mutexes by `main`, thinking and eating times, progress counters: a philosopher may stay at any place in its cycle for any time.
- Freedom from starvation: pthread mutexes promise no fairness, so only the existence of a schedule is proved.
- `pthreads_pc/dp_waiter.c`: its guard tests pointers, which are never null, and so excludes nothing.
- The buddy program's `prev` pointers, which `split_block` does not repair, its drawing, `buddy_free`, and the counters that are never updated.
- `list_entry`, the other iteration macros of `list.h`, and the value of the poison pointers, which is null here.
- `project3/main.cpp`, `ipc`, `signals`, `qsortfunctionptrs`, `pthread` and `project2/doc`.
