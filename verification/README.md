# A model of the ping-pong process benchmark

The program measures how fast two threads can hand a turn back and forth. It implements the same
two-party handshake over about a dozen mechanisms, runs one of them in two child processes, and lets a
monitor process start them, read their counters and stop them. This project models that core and proves
what it is meant to guarantee, for every schedule, every run and every input.

## What is modelled, and how

- **`Runs.dfy`** holds what all protocols share: runs and reachable states of a step relation, inductive
  invariants, the abstract turn-taking game (a ping only when everything is answered, a pong only when one
  ping is open), simulation of the game, and progress. Progress is an exact account: an increment of
  `ping_count` takes on the work of a round, every useful step does one piece of it, and failed or
  interrupted attempts do nothing or undo a stated number of pieces. `Runs.Throughput` turns the account into
  an equation over whole runs, `Runs.CanCount` into a bound on the distance to the next increment from any
  reachable state. `Runs.GameAlternates` and `Runs.AlternatingIsAGame` show that the game is strict
  alternation, no more and no less, and `Runs.Refinement` carries it over to every mode.
- **The handshakes** are step relations, one atomic step for each load, store, system call or failed attempt,
  interleaved arbitrarily. Three pairs of accesses are merged into one step: the load and the store of an
  increment of `ping_count` where only ping writes it, the load of a recorded pid with the `kill` that uses
  it, and, in `SignalMode.dfy`, a wait that names no child with the comparison that follows it. The modules
  are `Channel.dfy` (generic loop, pipe, socket pair, tcp, message queue and eventfd, over the descriptors
  wired in `Wiring.dfy`), `SharedWord.dfy` (spin and yield), `SpinUnrolled.dfy` (the ten-fold unrolled loops
  as straight-line code with a jump), `Semaphore.dfy` (sem and busysem with the monitor as third actor),
  `SignalMode.dfy` (pending signals and flags, together with the start of the threads and the marks that the
  monitor's `child_handler` makes meanwhile, with its results in `SignalExchange.dfy`), `Futex.dfy` (word and
  sleep queue) and `Race.dfy` (unsynchronised increments as loads and stores).
- **The life of a run** is `Lifecycle.dfy`: the monitor's statements, the two children, and a stack of signal
  handlers that may interrupt the monitor and each other between any two statements. `LifecycleSafety.dfy`
  proves what every run keeps, `LifecycleModes.dfy` which properties depend on the thread mode, and
  `LifecycleStop.dfy` how a run comes to its end and what each handler may do on the way.
- **The sequential parts** are imperative: classes and array algorithms, each proved against a
  specification whose own meaning is then proved. `PeriodicStats.dfy` (interval statistics), `Units.dfy`
  (`subsec_string` writing into its buffer), `SchedLines.dfy` (the two scheduler texts cut up in place, with
  what is shown of reports as the kernel writes them in `SchedReports.dfy`), `Registry.dfy` (the array of modes that grows by slabs), `SpinOptions.dfy` (the sorted menu and its option),
  `Wiring.dfy` (the pair makers and `make_pairs`).
- **Single statements** are also described where they are not the subject of a result below, apart from the
  functions that define the steps: the two waits of the monitor and of `stop_handler`, the preparation of a child,
  the signals to the children, the waits of an alarm and the end of the process
  (`LifecycleStop.WaitsUntilReady`, `WaitsForBoth`, `ChildInOrder`, `SignalReaches`, `AlarmWaitsFor`,
  `ExitsExactly`), the tests of `stop` (`Futex.StopEndsLoops`), polls and marks (`SignalMode.NoChoice`,
  `WaitsUntilReady`, `WatchesOnceCaught`, `ComparesFirst`), the ends of pipes and sockets (`Wiring.Directions`),
  and the constants (`Registry.SlabsOfFive`, `SpinOptions.Characters`, `PeriodicStats.BorrowsASecond`,
  `Units.LastDecimal`, `DigitsAreDecimal`, `InfinityIsOneCharacter`, `SevenSeconds`).

## Where the code does less than one would expect

Each of these has a lemma with the exact condition, proved in both directions, and a run or an input on which
the expected property fails.

- *Futex words stop alternating once the run is stopped.* However a run goes on without a further stop request,
  its words alternate exactly if it has not been stopped (`Futex.StopDecides`): every stopped run can go on, by
  the steps of either thread alone, so that it stores its value twice in a row (`Futex.StoppedStoresTwice`, and from the start
  `Futex.StopEndsTheExchange`). Mutual sleep is excluded even then.
- *The running copy of the unrolled ping loop* is the increment count modulo ten, but the 64-bit counter shows
  it only while it has wrapped a multiple of five times (`SpinUnrolled.CopyShowsCount`); it is lost with the
  increment that wraps the counter for the first time (`SpinUnrolled.CopyIsLost`).
- *race2 leaves at least two counts* exactly when the increments cannot wrap the counter
  (`Race.AtLeastTwo`); the counts it can leave are exactly an interval (`Race.PossibleCounts`), and with
  2^64 increments or more 0 is among the remainders (`Race.PossibleWords`).
- *An interrupt before the children are ready* makes `stop_threads` signal a recorded child that has no
  handler yet. What the monitor sees of a child is safe exactly if its pid is unrecorded or it is ready
  (`LifecycleModes.SafeToStop`, with the run of `LifecycleModes.EarlyKill`).
- *The signal exchange with cloned children can lose the turn.* A child marked with a pid of -1 before it looks
  at its pid never gets a signal. The turn is kept, and the exchange can always go on, exactly for forked
  children (`SignalExchange.TurnIsKept`, `SignalExchange.ExchangeGoesOn`); a reachable state can come to another
  count exactly if nothing is counted yet or both pids are recorded (`SignalExchange.SignalProgress`).
  `SignalExchange.LosesTheTurn` is a run that ends with both threads polling for ever and nobody asking to stop.
- *Cloned children can be marked dead while they live*: their pids are 0 until they record them, and
  `waitpid` reports 0 for "nobody died". That a pid of -1 means a reaped child, that it stays -1, and
  that the final statistics follow the reaping, hold exactly for forked children
  (`LifecycleModes.GoneMeansReaped`, `GoneIsForEver`, `FinalMeansReaped`, with the run of
  `FinalWithLivingChildren`). So does that a living child, once started, has its pid recorded
  (`StartedPidIsReal`, with the run of `MarkedChildrenStart`).
- *A raised `stop` can be withdrawn*, by the monitor's clearing it after the handler of SIGCHLD is installed;
  exactly that statement withdraws it (`LifecycleModes.StopIsKept`, with the runs of `DiesEarly` and
  `ExposedPong`).
- *Every reaped child is marked, or about to be*, in the forked runs without alarms and not in those with them
  (`LifecycleModes.ReapedIsMarked`, with the run of `AlarmMissesChild`): the wait of an alarm can reap a child
  unnoticed. Such a child is never marked, and the final statistics never come out
  (`LifecycleModes.MissedForEver`).
- *Interval counts* add up exactly if and only if no alarm found the counter lower than the alarm before
  (`PeriodicStats.CountsAreConserved`, `PeriodicStats.FallenCounts`), which race2 can cause
  (`Race.CountCanFall`).
- *`subsec_string` rounds the integer part and truncates the decimals*, so 9.96 s becomes "0.9 s"
  (`Units.CarryLosesTheTens`). The printed decimal is the truncated size exactly if the size has at most
  three digits before the point and its fraction stays below one by more than half of the last decimal
  (`Units.PrintedNumber`).
- *`parse_sched_data` runs out of slots* exactly when the first text does not end in a newline, all its
  other lines became rows and its last line meets a line with an equal key
  (`SchedLines.SlotsRunOutExactly`); two texts "a::b" are enough (`SchedLines.NoSlotForLastLine`).
- *A line without a separator* can be accepted; its value is then taken from the line behind it. Key,
  separators and value give a line back exactly if the line has a separator (`SchedLines.RowRebuilds`). In
  the texts "a", newline, "::b" the first line gets the value "b" (`SchedLines.ValueOfNextLine`).
- *The spin comparator* contradicts itself exactly on entries that are equal in what it compares
  (`SpinOptions.ComparatorConsistent`).
- *The second number of a spin option is not checked to be one.* What follows the comma is accepted exactly if
  the value that `strtol` takes from it is in the menu, and pong's entry is one that the option numbers exactly
  if a number follows the comma (`SpinOptions.SecondNumber`); "1,x" is accepted and gives pong the first entry
  (`SpinOptions.JunkIsAccepted`).

## Model

| member | source | states |
|---|---|---|
| Wiring.PairMaker.MakePair | comms/tcp.c:38-95 | each pair maker fills its pair from its static counter: pipe ends, socket ends, the two ends of one connection, one counter twice, one index twice, or the two futex indices |
| Wiring.Config.MakePairs | setup.c:233-241 | whatever the pair maker, each thread's mouth leads into the other's ear and nowhere else; for the futex word both threads speak and listen with their own index |
| Wiring.WiredAsMade | setup.c:233-241 | the wiring is crossed for every maker but the futex word |
| Wiring.TcpEndsAreCrossed | comms/tcp.c:97-117 | the tcp loops, which bypass mouths and ears, still speak into each other's ears |
| Channel.CallsSucceedExactly | comms/eventfd.c:46-78 | a send succeeds exactly if its channel has room and adds one, a receive exactly if something waits and takes one, or all of an eventfd counter; no other channel changes |
| Channel.ChannelAlternates | comms.c:182-205 | over any crossed wiring and any failing attempts, increments and replies strictly alternate |
| Channel.OneByteInFlight | comms/mq.c:59-93 | at most one byte is in flight over both channels, exactly one when both threads listen, and a sender finds its channel empty, so a queue of capacity one is never full; the count leads the replies by at most one |
| Channel.ChannelProgress | comms/pipe.c:48-70 | from every reachable state the next increment is at most five useful steps away |
| Channel.ChannelThroughput | comms/tcp.c:97-117 | exactly four useful sends and receives are done or outstanding for every increment |
| Channel.EventfdIsCounting | comms/eventfd.c:46-78 | the eventfd counters never exceed one, and the draining reads have step for step the same runs as reads of a counting channel |
| SharedWord.SpinAlternates | comms/spin.c:124-147 | however often a poll misses, increments and pong's stores strictly alternate, and the word is 1 exactly while a ping is stored and unanswered |
| SharedWord.OneStepEach | comms/spin.c:124-147 | in every state each thread has exactly one step: a poll misses exactly if it cannot see |
| SharedWord.SpinProgress | comms/yield.c:59-83 | from every reachable state the next increment is at most eight useful steps away |
| SharedWord.SpinThroughput | comms/yield.c:59-83 | exactly six useful steps are done or outstanding for every increment |
| SpinUnrolled.StepCode | comms/spin_unrolled.c:94-126 | executing the ten copies in a row is executing one copy, by the place within it, with a jump at the end |
| SpinUnrolled.UnrolledRunsAreSpinRuns | comms/spin_unrolled.c:85-126 | forgetting the copies turns every run of the unrolled loops, each thread at its own phase, into a run of the plain loops, so it alternates |
| SpinUnrolled.SpinRunsAreUnrolledRuns | comms/spin_unrolled.c:85-126 | every run of the plain loops is obtained that way |
| SpinUnrolled.CopyShowsCount | comms/spin_unrolled.c:94-110 | once a copy has counted it is the increments minus one modulo ten; the wrapped counter shows this exactly while it has wrapped a multiple of five times |
| SpinUnrolled.CopyIsLost | comms/spin_unrolled.c:94-110 | a reachable state, after 2^64 increments, in which the counter no longer shows the running copy |
| SpinUnrolled.UnrolledProgress | comms/spin_unrolled.c:85-126 | from every reachable state of the unrolled loops the next increment is at most eight useful steps away |
| SpinUnrolled.UnrolledThroughput | comms/spin_unrolled.c:85-126 | exactly six useful steps are done or outstanding for every increment |
| Semaphore.OneToken | comms/sem.c:58-80 | semaphores and threads together hold no token before `do_begin_sem` and exactly one ever after, whenever the monitor posts it, waiting or busy-waiting |
| Semaphore.FailsExactly | comms/sem.c:62-100 | a trywait fails exactly if there is no token; a wait may be interrupted at any time |
| Semaphore.SemAlternates | comms/sem.c:62-100 | the token alternates, and the count leads the replies by zero to two because it is bumped before the wait |
| Semaphore.LagIsTight | comms/sem.c:62-100 | each of the three leads is reached, in both modes |
| Semaphore.SemProgress | comms/sem.c:58-80 | once begun the next increment is at most seven useful steps away |
| Semaphore.SemThroughput | comms/sem.c:62-100 | exactly four semaphore operations are done or outstanding for every increment |
| SignalExchange.OneTurn | comms/signal.c:80-111 | the threads about to send, the pending signals and the flags hold exactly one turn, or it has been lost to a pid of -1; every signal meets an installed handler and a clear flag and nobody is killed; with both pids recorded at the start nothing is ever lost, and otherwise ping counts at most once |
| SignalExchange.TurnIsKept | threads_monitor.c:163-191 | in all runs the turn is in exactly one place and no signal is forgotten, exactly if children are forked |
| SignalExchange.LosesTheTurn | comms/signal.c:88-98 | a run with cloned children, started and not stopped, in which ping's first signal goes nowhere and both threads poll for ever |
| SignalExchange.SignalAlternates | comms/signal.c:80-111 | wherever signals are delivered, increments and pong's signals strictly alternate, and a round is open exactly while the turn is with pong or on its way there, or was lost on that way |
| SignalExchange.SignalProgress | comms/signal.c:65-111 | a reachable state, from the birth of the threads on, can come to another increment exactly if nothing is counted yet or both pids are recorded; it is then at most 22 useful steps away |
| SignalExchange.ExchangeGoesOn | threads_children.c:143-206 | the next increment can be reached from every reachable state exactly if children are forked |
| SignalExchange.SignalThroughput | comms/signal.c:80-111 | in every run two steps enter the loops and eight make a round, done, outstanding, or lost with the turn |
| Futex.Values | comms/futex.c:52-56 | through the wiring each thread sleeps on the value that the other one stores: 0x0B by ping, 0x0A by pong |
| Futex.KernelAnswers | comms/futex.c:62-76 | in every reachable state a wake-up returns 0 exactly if the other thread does not sleep, and a wait is refused exactly while the word holds the thread's own value |
| Futex.CallsEnd | comms/futex.c:62-76 | after a failed call or an interrupted sleep a thread tests `stop` and can do nothing else; a wake-up that wakes the other thread ends the send of the one and the receive of the other |
| Futex.NeverBothAsleep | comms/futex.c:62-76 | in every reachable state, stopping or not, at most one thread sleeps, on its own value, and a wake-up that returns 1 has woken the other thread |
| Futex.FutexAlternates | comms/futex.c:62-76 | until the stop, increments and pong's stores alternate, and so do the two values of the word, under any refused, interrupted and fruitless calls |
| Futex.StoppedStoresTwice | comms/futex.c:65-72 | every run that has been asked to stop, whatever its threads are doing, can go on by the steps of either thread alone so that it leaves its loops and stores its value twice in a row |
| Futex.StopDecides | comms/futex.c:62-76 | for every run: the words alternate in all ways it can go on without a further stop request exactly if it has not been asked to stop |
| Futex.WordsAlternateUntilStop | comms/futex.c:62-76 | the words alternate in all runs that end stopped, or in all that do not, exactly if they do not |
| Futex.StopEndsTheExchange | comms/futex.c:65-72 | such a run, stopped after ping's first store |
| Futex.FutexProgress | comms/futex.c:62-76 | no wake-up is lost: before the stop the next increment is at most eight useful steps away without any retry |
| Futex.FutexThroughput | comms/futex.c:62-76 | six useful steps are done or outstanding for every increment, plus the test of `stop` after every call that failed and one more step for every interrupted sleep |
| Race.CountBounds | comms/race.c:58-82 | at every moment the counter is at most the completed increments, at least one after a store, at least two after two of each thread, and exact while one thread has completed none |
| Race.PossibleCounts | comms/race.c:58-82 | the counts that a and b increments can leave are exactly those from the least (2, 1 or a+b) to a+b |
| Race.LosesTwice | comms/race.c:58-82 | schedules that lose any chosen number of increments, among them one that ends at 2 for all a and b from 2 on |
| Race.PossibleWords | comms/race.c:58-82 | the 64-bit counter leaves exactly the remainders of those counts |
| Race.AtLeastTwo | comms/race.c:58-82 | two threads with two or more increments each always leave at least two exactly if a+b is below 2^64 |
| Race.CountCanFall | comms/race.c:58-82 | a late store can make the counter fall |
| LifecycleSafety.StartIsSafe | threads_monitor.c:206-214 | nothing is counted before the start, the start follows both readinesses and is never withdrawn, a ready child has its handler and a pid that is no longer 0, and from the start on `stop_threads` hits no unprepared child |
| LifecycleSafety.OneFinal | threads_monitor.c:82-108 | however handlers nest, also between the test and the increment of `visited`, the final statistics come out at most once, and then both pids are -1 of reaped children unless a wait that named nobody marked one |
| LifecycleSafety.StepKeeps | threads_monitor.c:122-225 | the invariant of monitor, children and handler stack survives every statement, signal and death, and what was learnt about a child stays true |
| LifecycleSafety.StepKeepsOne | threads_monitor.c:82-89 | on a handler that has counted its visit no other one passes the test, whatever interrupts what |
| LifecycleModes.SafeToStop | threads_monitor.c:65-71 | judged by the recorded pid and the readiness, signalling a child is safe exactly if its pid is not recorded or it is ready |
| LifecycleModes.EarlyKill | threads_monitor.c:65-71 | reachable states in which the monitor is about to signal either child before it has its handler |
| LifecycleModes.GoneMeansReaped | threads_monitor.c:163-191 | a pid of -1 means a reaped child exactly for forked children |
| LifecycleModes.GoneIsForEver | threads_children.c:153-154 | a pid stays -1 exactly for forked children |
| LifecycleModes.FinalMeansReaped | threads_startup.c:32-92 | the final statistics follow the reaping of both children exactly for forked children |
| LifecycleModes.FinalWithLivingChildren | threads_monitor.c:82-108 | a run with cloned children that puts out the final statistics while both live |
| LifecycleModes.StartedPidIsReal | threads_children.c:153-154 | a living child that has been started has its pid recorded exactly if children are forked |
| LifecycleModes.MarkedChildrenStart | threads_monitor.c:193-214 | a run in which two living cloned children are started with pids of -1 and `stop` cleared |
| LifecycleModes.StopWithdrawn | threads_monitor.c:110-119 | a raised `stop` is withdrawn by a step exactly if that is the monitor's clearing statement, not interrupted by a handler |
| LifecycleModes.StopIsKept | threads_monitor.c:193-225 | in either thread mode a raised `stop` survives every step at a statement of the monitor exactly if it is not the one that clears it |
| LifecycleModes.MissedForEver | stats_periodic.c:41-42 | a child reaped with its pid recorded, which no reaper on the stack is about to mark, stays so in every later state, and the final statistics never come out |
| LifecycleModes.ReapedIsMarked | threads_monitor.c:163-191 | in all forked runs every reaped child is marked, or a reaper on the stack is about to mark it, exactly if no alarm is let through |
| LifecycleModes.AlarmMissesChild | stats_periodic.c:41-42 | for either forked child a run in which the wait of an alarm reaps it before the handler of SIGCHLD comes to it |
| LifecycleStop.CallsWhenStopped | threads_monitor.c:219-222 | at its test of `stop`, not interrupted, the monitor goes on to call `stop_handler` exactly if `stop` is raised, and otherwise tests again |
| LifecycleStop.StopsWhenAsked | threads_monitor.c:219-222 | in every reachable state `stop` is raised when the monitor is at its call of `stop_handler` or behind it, in a `stop_handler` entered neither by a signal nor by an alarm, and before any signal to a child |
| LifecycleStop.StoppingIsQuiet | threads_monitor.c:65-108 | whoever signals the children has raised `stop` and stopped the timer, and both stay so until the final statistics are out, whatever interrupts the wait |
| LifecycleStop.ReaperReports | threads_monitor.c:171-180 | of a child it has identified the handler makes the pid -1, raises `stop` and stops the timer, and nothing else |
| LifecycleStop.ReaperReturnsExactly | threads_monitor.c:170-190 | the handler returns exactly when its wait reports no child or none that died; an unknown child does not end it |
| LifecycleStop.WaitIsDecided | threads_monitor.c:170 | a wait always has something to report, and a choice only between two dead children |
| LifecycleStop.HandlersOnce | threads_monitor.c:110-161 | however handlers nest, each signal's handler is on the stack at most once, and a caught signal is let through exactly if it is not |
| LifecycleStop.AlarmsAreServed | threads_monitor.c:122-136 | until a `stop_handler` has counted its visit every alarm finds `in_interrupt` clear and is served; alarms never nest |
| LifecycleStop.AlarmStopsWhenDue | threads_monitor.c:129-135 | after its waits an alarm calls `stop_handler` exactly if the time is up, and otherwise clears `in_interrupt` and returns |
| LifecycleStop.OnlyPingCounts | threads_children.c:202-206 | the counter grows by one with each iteration of ping's loop and never otherwise |
| LifecycleStop.EndsInOrder | threads_monitor.c:163-225 | a run from start to end: a child dies, the handler raises `stop`, the monitor calls `stop_handler`, the other child dies, and the final statistics come out once |
| PeriodicStats.Elapsed | common.c:183-194 | the elapsed time has the value of the difference and is normalised if both times are |
| PeriodicStats.ElapsedIsTheOne | common.c:170-181 | it is the only normalised time with that value, in micro- and nanoseconds |
| PeriodicStats.ByteCopy | common.c:74-79 | the bytes are copied and nothing behind them is touched |
| PeriodicStats.RunData.GatherPeriodicStats | stats_periodic.c:33-90 | every figure of the interval, with the sums of context switches and the time of one count, is that of the difference between the sample and what was stored last, figure by figure, after the waits have filled in the usage of children they report |
| PeriodicStats.RunData.StoreLastStats | stats_periodic.c:207-228 | the counter, the time and both usages become the last ones |
| PeriodicStats.RunData.ShowPeriodicStats | stats_periodic.c:93-110 | an alarm reports and stores its sample exactly if no request is outstanding and the run is not stopping; otherwise nothing stored changes |
| PeriodicStats.RunData.Alarms | stats_periodic.c:93-110 | over any sequence of alarms, whatever sets the counter, the request and the stop flag in between, what is shown and stored is what the samples determine; the counts shown add up modulo 2^64 and the times exactly |
| PeriodicStats.EveryIntervalTells | stats_periodic.c:33-90 | over any alarms there is one interval for each that finds nothing outstanding and nobody stopping, in order; each of its figures is the change since the one before, of the right child, and the time of one count times the counts is the time of the interval |
| PeriodicStats.ShownFiguresAddUp | stats_periodic.c:45-87 | over any alarms the run time shown is all interval times so far, the time of one count times the counts sums to the time between first and last sample, and the context switches shown sum up for their own child |
| PeriodicStats.CountsAreConserved | stats_periodic.c:45-47 | over any alarms the reported counts sum to the last stored counter modulo 2^64, exactly if and only if it was never found fallen |
| PeriodicStats.CountsAddUp | stats_periodic.c:45-47 | the sum of the counts is the change of the counter plus 2^64 for every fall |
| PeriodicStats.FallenCounts | stats_periodic.c:45-47 | a counter found at 5 and then at 3 makes the counts add up to 3 and 2^64 |
| PeriodicStats.SingleWriter | stats_periodic.c:45-47 | a counter that only grows is never found fallen |
| PeriodicStats.UsageIsConserved | stats_periodic.c:59-71 | user and system time, both kinds of context switches and their sum telescope for either child to the last stored sample minus the first |
| PeriodicStats.TimesAreConserved | stats_periodic.c:45-46 | the interval times telescope likewise |
| PeriodicStats.IntervalsAreNormal | stats_periodic.c:67-71 | with normalised samples every reported time is normalised |
| Units.Parts | common.c:274-293 | integer and decimals make up the magnitude rounded to the nearest unit of the last decimal |
| Units.SubsecString | units.c:30-96 | the buffer given, or the static one if none is, holds the text of the scaled size and its unit, or the sign for infinity, a NUL behind it, and is unchanged behind that |
| Units.TextFits | units.c:33-55 | no text is longer than its decimals and seven characters |
| Units.UnitIsLargest | units.c:59-68 | the unit is the largest in which the size is at least one, and exactly the sizes below 10^-15 become 0 s |
| Units.IntegerCarries | units.c:70-77 | the integer part is the rounded one: it exceeds the floor by one exactly if the fraction is within half of the last decimal from one |
| Units.DecimalsTruncate | units.c:79-88 | the digits behind the point are the fraction cut off, less than one unit of the last decimal below it |
| Units.PrintedNumber | units.c:70-88 | the number read back from the text is the size cut off at the last decimal exactly if the size is below 1000 and does not carry |
| Units.SubsecStringShows | units.c:57-95 | for every size from 10^-15 on, the number read back from the text times what its unit is worth is the size, cut off at the last decimal, exactly if the size is below 1000 s and does not carry |
| Units.ShowsLargestUnit | units.c:39-68 | the unit shown is worth the most of the six that are not worth more than the size |
| Units.DigitsShown | units.c:73-95 | digit by digit: as many digits before the point as the rounded integer needs, but tens only for sizes of ten and more, the decimals asked for behind it, and a point between them if there are any |
| Units.SmallIsZero | units.c:36-68 | whatever is below 10^-15 or negative is shown as the number 0 and the unit s |
| Units.FiveMilliseconds | units.c:30-96 | 0.005 s with one decimal is "5.0 ms" |
| Units.CarryLosesTheTens | units.c:70-88 | 9.96 s with one decimal is shown as 0.9 s |
| SchedLines.CountSchedLines | stats_final.c:118-127 | the number of newlines of the text |
| SchedLines.StrTok | stats_final.c:140-156 | the next non-empty line, a NUL written at its end and nowhere else |
| SchedLines.SplitSchedLines | stats_final.c:88-116 | a slot is filled exactly for a stored pair, cleared again exactly if the keys match without a value, and untouched otherwise; a NUL is written at the end of both keys exactly if neither is empty, and nothing else |
| SchedLines.ParseSchedData | stats_final.c:129-160 | the rows shown, the slots used, whether a slot was missing, and the final contents of both buffers are those of the paired lines of the two texts |
| SchedLines.WrittenPlaces | stats_final.c:140-156 | between two pairs a buffer holds its text with NULs at exactly the ends of the lines taken and of the keys of the pairs done that have two |
| SchedLines.WorkedPlaces | stats_final.c:88-116 | likewise when a pair has been split, and so where a slot is missing |
| SchedLines.LinesAndNewlines | stats_final.c:137-140 | there are at most as many non-empty lines as newlines, plus a last one without newline |
| SchedLines.SlotsRunOutExactly | stats_final.c:137-156 | no slot is ever missing if the first text ends in a newline; one is missing exactly if it does not, all its other lines became rows and the last pair of lines has equal keys |
| SchedLines.NoSlotForLastLine | stats_final.c:137-144 | with two texts "a::b" without a newline the slot of the row is missing |
| SchedLines.AcceptedExactly | stats_final.c:88-116 | two lines with separators are accepted exactly if both read "key, two or more colons and spaces, value" with one key, and the row holds that key and the values |
| SchedLines.OnlyReading | stats_final.c:92-113 | a line can be read that way in only one way, the one the code takes |
| SchedLines.RowRebuilds | stats_final.c:92-113 | the key of a row is non-empty and free of colons and spaces, and key, separators and value rebuild a line exactly if it has a colon or a space |
| SchedLines.NoSeparatorRunsOn | stats_final.c:102-113 | an accepted line without separator shows the whole rest of the text |
| SchedLines.ValueOfNextLine | stats_final.c:102-113 | with two texts of the lines "a" and "::b" the first row has the key "a" and the values "b" of the second line |
| SchedLines.RowsInOrder | stats_final.c:143-157 | with enough slots the rows are those of the stored pairs, all of them and in order |
| SchedReports.JudgedAsWritten | stats_final.c:88-116 | two lines "key, spaces, colon, spaces, value" are refused if the keys differ, cleared if in either no space stands beside the colon, and otherwise make the row of the key and the two values |
| SchedReports.LinesOfReport | stats_final.c:140-156 | the lines found in a report are the lines written into it |
| SchedReports.ReportsAreShown | stats_final.c:129-160 | of any two reports no slot is missing, and the rows shown are those of the lines whose keys agree and are interesting, with both values, in their order |
| SchedReports.SwitchesAreShown | stats_final.c:66-160 | the line "nr_switches : 12" in both texts shows that key and 12 twice |
| Registry.Modes.Grow | comms.c:73-94 | a slab more, zeroed, and all earlier entries kept |
| Registry.Modes.Add | comms.c:67-101 | the entries are the earlier ones and one uninitialised entry with the name, its index its position; the capacity is the count rounded up to slabs |
| Registry.Modes.DoInitialization | comms.c:117-146 | the first entry with exactly that name is initialised, with each of the eleven operations supplied or, except for the pair maker, its own named default, and with the help if there is one; no other entry changes, and none without such an entry |
| Registry.Modes.VerifyAll | comms.c:149-161 | true exactly if every entry is initialised |
| Registry.Modes.ParseCommMode | comms.c:35-47 | the first entry with that name, or -1 and the default index 0 |
| Registry.Modes.RegisterAll | comms.h:82-96 | registering any modes in any order leaves the entries of the specification, in slabs that just hold them |
| Registry.EntriesOfModes | comms.h:82-96 | one entry per mode in its place; it is initialised exactly if it is the first of its name, and then with the operations of the last mode of that name, completed one by one by their defaults, and the help of the last that gives one |
| Registry.VerifiedMeansDistinct | comms.c:149-161 | after any registrations everything is initialised exactly if all names are distinct |
| Registry.FoundIsInitialized | comms.c:35-47 | a mode found by name is always an initialised one, with complete operations; it is not found exactly if no mode has the name |
| SpinOptions.ComparatorConsistent | comms/spin.c:211-227 | exchanging the arguments negates the comparison exactly if the entries differ in number, name or description |
| SpinOptions.ComparatorOrders | comms/spin.c:211-227 | on entries that differ the comparison is transitive, whatever the addresses |
| SpinOptions.ComparesByNumber | comms/spin.c:211-227 | an entry comes before another exactly if it has the smaller number, or the same and the earlier name in dictionary order, or both the same and the earlier description |
| SpinOptions.CanBeSorted | comms/spin.c:252 | every table has a sorted arrangement, repeated entries or not |
| SpinOptions.SortedAscends | comms/spin.c:252 | with distinct numbers the sorted table strictly ascends |
| SpinOptions.OneMenu | comms/spin.c:229-262 | any two arrangements of the same table have the same sorted menu |
| SpinOptions.NthSmallest | comms/spin.c:229-262 | the n-th entry of the menu is the entry of the table with exactly n smaller numbers |
| SpinOptions.MenuByNumber | comms/spin.c:180-187 | methods numbered without gap, as the eight from 3 to 10 are, appear in the order of their numbers however they are linked |
| SpinOptions.Spin.ParseOptions | comms/spin.c:292-331 | the run ends, or ping and pong get the entries that the option means, and the menu is dropped |
| SpinOptions.StrToLReads | comms/spin.c:301-304 | reading back a written number gives the number and what follows it |
| SpinOptions.NumbersPick | comms/spin.c:301-314 | "n" picks the n-th entry for both and "n,m" the n-th and m-th; a number beyond the menu ends the run |
| SpinOptions.EndsTheRun | comms/spin.c:301-314 | an option ends the run exactly if it does not begin with the number of an entry (none, a negative one, one too large), or a number out of the menu follows its comma |
| SpinOptions.PickMeans | comms/spin.c:301-317 | an option that begins with the number of an entry gives it to both threads if nothing follows, and leaves pong what it had if anything but a comma follows |
| SpinOptions.NegativeEndsTheRun | comms/spin.c:301-304 | a negative number ends the run, whatever follows it |
| SpinOptions.StrToLExactly | comms/spin.c:301-311 | `strtol` takes a number from a text exactly if the text begins with one, after spaces and with a sign if any, and then that number and what follows it |
| SpinOptions.SecondNumber | comms/spin.c:309-314 | what follows the comma is accepted exactly if the value taken from it is in the menu, and pong's entry is then one that the option numbers exactly if a number follows the comma |
| SpinOptions.SecondNumberUnchecked | comms/spin.c:309-314 | a comma followed by anything but a number picks the first entry for pong |
| SpinOptions.JunkIsAccepted | comms/spin.c:309-314 | "1,x" picks the second entry for ping and the first for pong, which it does not number |
| SpinOptions.MenuIgnoresLinkOrder | comms/spin.c:229-331 | for tables linked in any order the option "n,m" picks the same entries: those with n and with m smaller numbers |

## Left out

- The endless ping and pong loops and the retry loops around system calls are step relations on values, not methods with loops: they end only when a signal ends the process. The monitor and its handlers are a step relation for the same reason.
- Weak memory, barriers and `msync`: memory is sequentially consistent, and synchronisation code is a step without effect.
- `ping_count` in the handshakes is unbounded; its 64 bits are modelled where they matter, in `SpinUnrolled`, `Race` and `PeriodicStats`.
- FUTEX_WAIT returns 0 only to a thread that was woken; spurious returns of 0 are not modelled.
- System calls, sockets, `mmap`, `fork` and `clone` appear only by their effect: a channel, a counter, a queue, a child that lives, dies and is reaped. Left-over semaphores and message queues of an earlier run, and their errors, are not part of this model.
- That a stopped run ever ends: the alarm can reap a child itself, testing `stop` and suspending are two steps, and `stop_handler` can land on `child_handler`, so only safety is proved.
- In `SignalMode` the children do not die and the run is not stopped, and `child_handler` appears by those of its waits that name no child; `Lifecycle` has all of it, without the signals of the exchange.
- Threads of pthread mode, which share the monitor's pid.
- The remaining modes: benaphore, sendmmsg, futex_test, inotify, nop, udp and named pipes, race1 and yield_nop; and `race_var`, which nothing reads.
- Times and sizes are real numbers: rounding errors of `long double`, NaN, and the overflow of `llroundl` for sizes of 10^18 units and more are not modelled. An interval without counts has no time of one count, where the code divides by zero.
- `qsort` and `strtol` are given by what they compute: any sorted arrangement of the same entries, with entries that compare equal in any order, and an unbounded value (a value that `strtol` would saturate is beyond the menu either way).
- `comm_spin_parse_options` with an unrecognised suffix while pong was never set reads before the menu; the model says only that pong has no method then.
- SchedLines.ParseSchedData: stops where a slot is missing, because the code then writes behind its slots.
- The table of interesting scheduler statistics is a parameter of `SchedLines.ParseSchedData`.
- `comm_mode_mark_initialized`, which is never called, and failures of memory allocation.
- Header lines, the layout of the printed statistics, options other than those of the spin mode, priorities, affinity and the estimate of the processor's speed.
