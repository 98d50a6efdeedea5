# Models of a reconfigurable accelerator platform and its SystemC components

The repository holds a virtual platform (a RISC-V core, a reconfigurable array of
arithmetic units, a DMA engine, a flash controller and an interrupt controller) and a
set of SystemC programs (an RSA demonstration, a simple bus, a FIR filter, a pool of
transactions). This project models their hardest parts and proves what they are for.

Each component has a module with its state as a value, its steps as functions and the
properties as lemmas over all inputs, states and runs; beside it stand classes and methods
in the form of the program, with its fields, loops and in-place updates, whose contracts
tie them to those functions.

- `NumberTheory`, `Rsa`, `Witnesses`: Euclid, modular exponentiation, Miller-Rabin and the
  RSA round trip (section 5.1 of RFC 8017). The round trip holds for all messages if and
  only if the two primes differ; k rounds of the primality test miss a composite number on
  about one list of random strings in 2^k.
- `ArrayTypes`, `Loader`, `ArithPe`, `Storer`, `Dataflow`: two loaders, an arithmetic unit
  and a storer as a step system in which any unit may go next. A zero-time chain of
  notifications inside a unit is one step. Every schedule ends, after 18 steps a word, with
  the operation carried out on two vectors in memory (`Dataflow.VectorOperation`).
- `ContextWords`, `Controller`, `Routing`, `Deployment`: command words, allocation, dispatch
  and the read-after-write stall of the array's controller, and the way from a program's
  words to the running data path.
- `Distributor`, `Crossbar`, `ArrayLinks`: multicast with join over the crossbar, and the
  links of the data path as a view of it.
- `SimpleBus`, `BusErrors`, `BusLocks`, `BusBursts`, `BusTiming`, `BusObjects`: request forms,
  arbitration with locks, bursts that can be preempted between words, memories with wait
  states.
- `FirFilter`, `FirRtl`: convolution, the behavioural filter, and the four-state machine
  with datapath.
- `Instr`, `Compressed`, `Iss`, `Rvc`, `WordArithmetic`, `CompressedEffects`: RV32C (sections
  16.3 to 16.5 of the RISC-V Unprivileged ISA, version 20191213) against decoding, expansion
  and execution, and what the operations compute in numbers, bits and bytes.
- `TransactionPool`, `Flash`, `Dma`, `Plic`: the linked pool, the write-back block buffer,
  the chunked copy and the interrupt controller.

Where the code does not do what one would expect of it, the code is modelled as it is and a
lemma states exactly when it does: `Rsa.RoundTripIffDistinct`, `Rsa.FindRelPrime`,
`Rvc.ExpansionPreservesMeaning` (a left shift uses the wrong register field, and some hints
write), `SimpleBus.AccessCompletesIffWaitStates`, `SimpleBus.LastWordCompletesBelowTop`,
`BusErrors.TopWordIsNeverAnnounced`, `BusErrors.AnnouncedIffAllWordsGood`,
`BusLocks.LockReachesTwoWords`, `Controller.StallEndsIff` (a release can be lost),
`Controller.SecondWordInAStallIsLost`, `Controller.ReservedOperationWaitsForEver`,
`ContextWords.MatrixColumnDecodesIff`, `Dataflow.EveryScheduleEndsIff`,
`Crossbar.BothInputsFedIff`, `FirRtl.ResetRestartsIff`, `FirRtl.ChangeIsHarmlessIff`,
`Dma.CopiesIffSafe`, `Flash.PositionedAgreesIff`, `Flash.FailedLoadSpillsIff`,
`Plic.ZeroMeansNothingIff`. The comments of `plic.h` speak of a priority for each interrupt;
the code orders by number only, and so does the model. The arbiter's comment says that a
locked burst cannot be broken into; since locks are weakened after every word
(`BusLocks.LockAfterWord`), it can: `BusLocks.LockReachesTwoWords` says how far a lock
reaches in every run, and `BusLocks.LockedBurstCanBeBrokenInto` gives a run in which a
burst loses the bus. A request without a lock that follows a locked one at once keeps its
lock (`BusLocks.NextRequestWinsIff`).

`dafny verify dfyconfig.toml` checks the whole project. The table lists the main results
and the operations that carry them; the smaller methods of the classes, which have no row,
are each tied to their step of the same model.

## Model

| member | source | states |
|---|---|---|
| `NumberTheory.GcdIsGreatest` | ProgrammingExercises/examples/sysc/rsa/rsa.cpp:191-197 | `gcd` is a common divisor and every common divisor divides it |
| `NumberTheory.EuclidIsBezout` | ProgrammingExercises/examples/sysc/rsa/rsa.cpp:203-218 | for all a, b >= 0 the extended algorithm returns d == gcd(a, b) with a*x + b*y == d |
| `NumberTheory.EuclidIsBounded` | ProgrammingExercises/examples/sysc/rsa/rsa.cpp:203-218 | the cofactors satisfy abs(x) <= max(1, b) and abs(y) <= max(1, a), so they fit wherever the arguments do |
| `NumberTheory.SquareRootsOfOne` | ProgrammingExercises/examples/sysc/rsa/rsa.cpp:303-305 | modulo a prime only 1 and -1 square to 1, which is why a nontrivial root proves compositeness |
| `NumberTheory.Fermat` | ProgrammingExercises/examples/sysc/rsa/rsa.cpp:311-313 | Fermat's little theorem, proved from the binomial theorem |
| `Rsa.SquareAndMultiply` | ProgrammingExercises/examples/sysc/rsa/rsa.cpp:220-235 | one round of the exponentiation loop takes d == a^(leading bits) mod n to one bit more |
| `Rsa.ModularExp` | ProgrammingExercises/examples/sysc/rsa/rsa.cpp:220-235 | the loop over all 250 bits with truncating remainders returns a^b mod n for every a, also negative, and every value it stores fits |
| `Rsa.RetPos` | ProgrammingExercises/examples/sysc/rsa/rsa.cpp:179-186 | a truncated remainder becomes the residue in [0, n) |
| `Rsa.Inverse` | ProgrammingExercises/examples/sysc/rsa/rsa.cpp:240-251 | the assertion holds if and only if gcd(a, n) == 1; then the result is in [0, n), is an inverse, and is the only one there |
| `Rsa.InverseIsUnique` | ProgrammingExercises/examples/sysc/rsa/rsa.cpp:240-251 | two inverses in [0, n) are equal |
| `Rsa.FindRelPrime` | ProgrammingExercises/examples/sysc/rsa/rsa.cpp:258-273 | the assertion trips exactly for n == 0 and n == 3; otherwise the result is the least odd number above 1 coprime to n |
| `Rsa.Witness` | ProgrammingExercises/examples/sysc/rsa/rsa.cpp:277-316 | the loop answers true exactly when a exposes n as composite, by Fermat's test or by a nontrivial square root of 1 met on the way |
| `Rsa.PrimesHaveNoWitness` | ProgrammingExercises/examples/sysc/rsa/rsa.cpp:277-316 | no base 1 <= a < n exposes a prime n > 2 |
| `Rsa.PrimesPassTrialDivision` | ProgrammingExercises/examples/sysc/rsa/rsa.cpp:321-338 | no prime is rejected by trial division |
| `Rsa.SmallDivisorsAreFound` | ProgrammingExercises/examples/sysc/rsa/rsa.cpp:321-338 | trial division rejects exactly the numbers with an odd divisor from 3 to 1023 other than themselves |
| `Rsa.DivTest` | ProgrammingExercises/examples/sysc/rsa/rsa.cpp:321-338 | the loop answers true exactly when no odd number from 3 up to its bound divides n |
| `Rsa.MillerRabin` | ProgrammingExercises/examples/sysc/rsa/rsa.cpp:348-378 | accepts every prime above 2 whatever the 50 draws are, and accepts exactly the numbers without a small odd divisor that none of the 50 bases exposes |
| `Rsa.Cipher` | ProgrammingExercises/examples/sysc/rsa/rsa.cpp:420-424 | msg^e mod n, within the machine width |
| `Rsa.Decipher` | ProgrammingExercises/examples/sysc/rsa/rsa.cpp:428-432 | msg^d mod n, within the machine width |
| `Rsa.PrimeFactorRecovers` | ProgrammingExercises/examples/sysc/rsa/rsa.cpp:420-432 | modulo one prime factor an exponent that is 1 modulo p-1 recovers every message, multiples of p included |
| `Rsa.DistinctPrimesRecover` | ProgrammingExercises/examples/sysc/rsa/rsa.cpp:462-463 | two distinct prime factors recover it together |
| `Rsa.RoundTripRecovers` | ProgrammingExercises/examples/sysc/rsa/rsa.cpp:420-432 | every message in [0, pq), coprime to n or not, comes back |
| `Rsa.RoundTripIffDistinct` | ProgrammingExercises/examples/sysc/rsa/rsa.cpp:455-481 | with inverse exponents all messages come back if and only if p and q, which the program draws independently, differ |
| `Rsa.HalfWidthProduct` | ProgrammingExercises/examples/sysc/rsa/rsa.cpp:462-463 | primes of half the width have a product, and a totient, within 250 bits |
| `ArrayTypes.StreamAddrDoesNotWrap` | RGFP/hardware/RFU/loader.cpp:131 | within the 17, 12 and 15 bits of a configuration word an address stream never wraps in 32 bits |
| `ArrayTypes.StreamAddrWraps` | RGFP/hardware/RFU/loader.cpp:131 | beyond that an address is the one modulo 2^32 |
| `Loader.LoaderUnit.ReadStep` | RGFP/hardware/RFU/loader.cpp:120-160 | one word is requested with its address, credit, pool and end-of-batch bookkeeping |
| `Loader.LoaderUnit.StartSend` | RGFP/hardware/RFU/loader.cpp:208-225 | the oldest word leaves, marked last when the batch has been read and nothing else is in flight |
| `Loader.LoaderUnit.EndSend` | RGFP/hardware/RFU/loader.cpp:227-237 | the transaction is freed; the unit releases itself after the final word |
| `ArithPe.ArithUnit.Accept` | RGFP/hardware/RFU/arith_PE.cpp:85-188 | one word from each input is taken and the result enters the pipeline, marked last once an operand was; the assertions on queues and pool are tracked |
| `Storer.StorerUnit.Accept` | RGFP/hardware/RFU/storer.cpp:73-129 | one result is taken and queued for its address; the assertions on queue and pool are tracked |
| `Dataflow.LoadsSeeInitialMemory` | RGFP/hardware/RFU/loader.cpp:168-200 | what has been stored never touches what is still to be loaded, so loads see the memory as it was |
| `Dataflow.StepKeeps` | RGFP/hardware/RFU/loader.cpp:113-252 | whichever unit, link or memory port steps next, every count, queue, credit, mark and history stays as promised |
| `Dataflow.StepWorks` | RGFP/hardware/RFU/loader.cpp:113-252 | each step is one of exactly eighteen for every word |
| `Dataflow.StuckMeansFinished` | RGFP/hardware/RFU/loader.cpp:242-252 | with every loop and credit exhausted the computation is complete: there is no deadlock |
| `Dataflow.EverySchedule` | RGFP/hardware/RFU/arith_PE.cpp:85-243 | for every schedule: no assertion fails, each hop carries exactly the promised words in order with the last mark on the final one only, no unit releases twice, and the schedule can go on until, after exactly 18 L steps, L words are stored in order and each unit has released itself once |
| `Dataflow.FinalMemory` | RGFP/hardware/RFU/storer.cpp:107-167 | at the end result k stands at its address unless a later one went there |
| `Dataflow.OtherMemoryUnchanged` | RGFP/hardware/RFU/storer.cpp:107-167 | memory outside the stored addresses is unchanged |
| `Dataflow.CreditsInWords` | RGFP/hardware/RFU/loader.cpp:242-252 | in every run a loader asks for its next word exactly while words are left and fewer than two are under way, the arithmetic unit accepts while it holds fewer than six results, the storer fewer than two |
| `Dataflow.VectorOperation` | RGFP/hardware/RFU/loader.cpp:113-252 | whatever the schedule, once the 18 steps of each word are done the memory holds at addrS + 4 incS k the operation applied to the words at addrA + 4 incA k and addrB + 4 incB k, for every k, and everything else as it was, if no result goes over an operand |
| `Dataflow.FurtherStartsAreHarmless` | RGFP/hardware/RFU/ReconfigController.cpp:222-233 | in no run does a further start signal, or a context for another unit, change a unit at work |
| `Dataflow.ReadyForTheNext` | RGFP/hardware/RFU/storer.cpp:35-55 | a finished array configured again starts as from reset |
| `Dataflow.Fabric.Perform` | RGFP/hardware/RFU/loader.cpp:113-252 | the wired modules take exactly the steps of the model |
| `ContextWords.LoadFields` | RGFP/software/matrix_multi/main.c:7-17 | the two words software writes for a load carry the whole 17-bit address, 12-bit stride and 15-bit length into the controller's fields |
| `ContextWords.StoreFields` | RGFP/software/matrix_multi/main.c:13-17 | likewise for a store |
| `ContextWords.ArithFields` | RGFP/software/matrix_multi/main.c:10-11 | likewise for an arithmetic command, in one word |
| `ContextWords.AllocationCarriesCommand` | RGFP/hardware/RFU/contextreg_if.h:87-113 | writing a command into a 64-bit context sets busy, keeps number and operation, and every field reads back although some share bits |
| `ContextWords.FreshContext` | RGFP/hardware/RFU/contextreg_if.h:78-85 | a context built by the generator macros has its number and operation and is idle |
| `Controller.ReconfigController.Operation` | RGFP/hardware/RFU/ReconfigController.cpp:54-98 | a word moves the state machine and is consumed, stalled or handed to allocation; one that arrives while another waits takes its place |
| `Controller.ReconfigController.TryAllocate` | RGFP/hardware/RFU/ReconfigController.cpp:154-215 | one pass over the slots takes the first idle unit with the operation, or changes nothing |
| `Controller.ReconfigController.Configure` | RGFP/hardware/RFU/ReconfigController.cpp:172-201 | the unit is marked, its name bound before its inputs are translated, and its context written |
| `Controller.ReconfigController.DispatchAll` | RGFP/hardware/RFU/ReconfigController.cpp:217-236 | the loop over the dispatch bits sends each marked context once, in slot order, and clears the mask |
| `Controller.ReconfigController.ReleaseBusy` | RGFP/hardware/RFU/ReconfigController.cpp:257-261 | the unit, whatever its state, becomes idle, and a watched stall ends if the unit it is on is now idle |
| `Controller.StepKeeps` | RGFP/hardware/RFU/ReconfigController.cpp:54-261 | after any step each slot has its number and operation, no busy unit has been handed out, marks are on busy units only, contexts are sent as written, and the table names the last unit bound to each name |
| `Controller.UnitAccounts` | RGFP/hardware/RFU/ReconfigController.cpp:154-261 | in every reachable state a unit is busy exactly when assigned once more than released, and marked exactly when assigned once more than sent |
| `Controller.UnitsServeTheirCommands` | RGFP/hardware/RFU/ReconfigController.cpp:25-39 | in every run loads go to units 0 to 3, additions to 4 to 7, multiplications to 8 and 9, square roots to 10, sines to 11 and stores to 12 and 13 |
| `Controller.InputsAreTheLastNamed` | RGFP/hardware/RFU/ReconfigController.cpp:176-198 | a new context holds its whole command, its inputs being the units last given the input names, itself included |
| `Controller.EncodedIsReadBack` | RGFP/software/matrix_multi/main.c:7-17 | reading the encoding of any list of commands, in any state but halfway through a command, yields exactly that list |
| `Controller.CommandStreamSurvives` | RGFP/hardware/RFU/ReconfigController.cpp:54-145 | for every schedule of words, stalls, retries, dispatches and releases, units are assigned to a prefix of the encoded list, in order, and to all of it once the last word is consumed |
| `Controller.RetriesWhileAllBusy` | RGFP/hardware/RFU/ReconfigController.cpp:160-213 | an allocation attempt is a no-op exactly when each of the units wired for the command, by their numbers, is busy |
| `Controller.ReservedOperationWaitsForEver` | RGFP/hardware/RFU/ReconfigController.cpp:162-213 | a word with an operation no unit performs never reaches the assertion for it: the controller searches for ever |
| `Controller.RunStartsAfterStores` | RGFP/hardware/RFU/ReconfigController.cpp:222-233 | in every run the start signal follows each store context at once and is given at no other time |
| `Controller.LoadWaitsForItsStore` | RGFP/hardware/RFU/ReconfigController.cpp:109-130 | a load from the block of the store before it is held back exactly while the unit of that very store is busy |
| `Controller.EarlyReleaseCanHappen` | RGFP/hardware/RFU/ReconfigController.cpp:118-126 | such a stall is reachable by a store and a load from its block |
| `Routing.NamesBecomePaths` | RGFP/hardware/RFU/ReconfigController.cpp:176-198 | the context of an assigned unit makes the crossbar see the unit's own slot and the units last given its input names |
| `Distributor.CompleteIff` | RGFP/hardware/RFU/distributor.cpp:155-164 | the equal-counts test holds exactly when some branch is selected and all selected branches have answered |
| `Distributor.SendingsHandOn` | RGFP/hardware/RFU/distributor.cpp:118-128 | the calls made for a request go to ascending ports, each carries that request, and a port is among them exactly when its branch is selected |
| `Distributor.PoppedOk` | RGFP/hardware/RFU/distributor.cpp:145-185 | looking at one queued answer, stale or not, answers upstream once if that is so and not otherwise |
| `Distributor.DistributorUnit.WriteContextReg` | RGFP/hardware/RFU/distributor.cpp:38-83 | exactly the port at which a consumer reads this source is opened, input b only when input a does not match |
| `Distributor.DistributorUnit.SendFirst` | RGFP/hardware/RFU/distributor.cpp:99-142 | the first request is sent on to exactly the selected branches, in port order, and the last of a batch ends the configuration |
| `Distributor.DistributorUnit.AnswerFirst` | RGFP/hardware/RFU/distributor.cpp:155-182 | counting, clearing and answering for one queued answer |
| `Crossbar.EndsAgree` | RGFP/hardware/RFU/combiner.cpp:27-49 | wherever a distributor opens a branch the combiner there selects that distributor |
| `Crossbar.PassedIff` | RGFP/hardware/RFU/distributor.cpp:118-128 | a unit comes to hold a request exactly when the branch at its port is open and its combiner selects the source; all others keep what they hold |
| `Crossbar.StepKeeps` | RGFP/hardware/RFU/distributor.cpp:38-221 | any order of configurations, requests, deliveries, answers and looks keeps every distributor's flags, queues and selections consistent with what the units hold |
| `Crossbar.AnswersExactlyWhenDue` | RGFP/hardware/RFU/distributor.cpp:145-185 | a source is answered exactly when its request has been sent, to at least one unit, and every unit it was sent to has answered; with its own transaction if the queue was empty before; after the last request all branches are closed |
| `Crossbar.OneAnswerPerRequest` | RGFP/hardware/RFU/distributor.cpp:94-221 | in every run each source has had exactly one answer for every request but the one it still waits on |
| `Crossbar.BranchesStayOpen` | RGFP/hardware/RFU/distributor.cpp:145-185 | in every run looking at an answer to any but the last request of a batch leaves all branches of the source as configured |
| `Crossbar.NoBranchNoAnswer` | RGFP/hardware/RFU/distributor.cpp:164 | with no open branch the request is never answered |
| `Crossbar.BothInputsFedIff` | RGFP/hardware/RFU/distributor.cpp:43-66 | an arithmetic unit's second input is fed exactly when its two sources differ |
| `Crossbar.CombinerUnit.WriteContextReg` | RGFP/hardware/RFU/combiner.cpp:27-49 | the combiner selects what the crossbar expects at its port |
| `Crossbar.CombinerUnit.RequestThread` | RGFP/hardware/RFU/combiner.cpp:75-91 | kept requests are forwarded in order, each once |
| `Crossbar.CombinerUnit.ResponseThread` | RGFP/hardware/RFU/combiner.cpp:107-122 | answers go to the selected source in order, each once |
| `BusObjects.BusModule.IssueRequest` | ProgrammingExercises/examples/sysc/simple_bus/simple_bus.cpp:150-271 | a request fills the form of its priority, whether that is pending or not, and nothing else |
| `BusObjects.BusModule.HandleRequest` | ProgrammingExercises/examples/sysc/simple_bus/simple_bus.cpp:285-347 | one access with its alignment and mapping errors, wait answers and completion |
| `BusObjects.BusModule.GetRequest` | ProgrammingExercises/examples/sysc/simple_bus/simple_bus.cpp:361-375 | the form of a priority is found or created, so priorities never repeat |
| `BusObjects.BusModule.GetNextRequest` | ProgrammingExercises/examples/sysc/simple_bus/simple_bus.cpp:377-400 | the winner among the pending forms becomes current; with distinct priorities the arbiter's assertion holds |
| `BusObjects.Arbiter.Arbitrate` | ProgrammingExercises/examples/sysc/simple_bus/simple_bus_arbiter.cpp:40-104 | the three rules in order, and the winner's lock promoted |
| `BusObjects.SlowMemory.Read` | ProgrammingExercises/examples/sysc/simple_bus/simple_bus_slow_mem.h:130-145 | an access starts, waits or delivers by the counter |
| `BusObjects.SlowMemory.Write` | ProgrammingExercises/examples/sysc/simple_bus/simple_bus_slow_mem.h:147-162 | an access starts, waits or stores by the counter |
| `SimpleBus.RunKeeps` | ProgrammingExercises/examples/sysc/simple_bus/simple_bus.cpp:101-409 | in every reachable state priorities are distinct, every burst has moved its words once each in order with address and pointer in step, no waiting form holds a granted lock and at most one a set one at arbitration, and only the current request's memory counts |
| `SimpleBus.RequestedWords` | ProgrammingExercises/examples/sysc/simple_bus/simple_bus.cpp:213-271 | a request fills its form with a proper burst of the length asked for if and only if it is aligned, not empty and ends below the top word; start, pointer and direction are its own |
| `SimpleBus.PriorityDecides` | ProgrammingExercises/examples/sysc/simple_bus/simple_bus_arbiter.cpp:89-103 | without locks the winner is the unique minimum of the priorities |
| `SimpleBus.LockedBurstWins` | ProgrammingExercises/examples/sysc/simple_bus/simple_bus_arbiter.cpp:64-77 | the one waiting form with a set lock wins whatever else is pending |
| `SimpleBus.GrantedLockKeepsNextWord` | ProgrammingExercises/examples/sysc/simple_bus/simple_bus.cpp:107-117 | a request served under a granted lock is served again for its very next word, whatever arrives in between |
| `SimpleBus.OnlyCurrentIsServed` | ProgrammingExercises/examples/sysc/simple_bus/simple_bus.cpp:107-117 | while a request is being served no other memory and no other form is touched |
| `SimpleBus.ServedCycle` | ProgrammingExercises/examples/sysc/simple_bus/simple_bus_slow_mem.h:113-162 | one clock cycle of a request being served: it counts on, or delivers its word and leaves |
| `SimpleBus.SlowAccessTakesItsWaitStates` | ProgrammingExercises/examples/sysc/simple_bus/simple_bus_slow_mem.h:113-162 | with N wait states the word moves on exactly the N-th falling edge after the one that began the access, whatever is issued meanwhile |
| `SimpleBus.LastWordCompletesBelowTop` | ProgrammingExercises/examples/sysc/simple_bus/simple_bus.cpp:326-340 | the last word of a burst completes it exactly when it is not the top word of the address space |
| `FirFilter.TapsAreExact` | ProgrammingExercises/examples/sysc/fir/fir.cpp:61-67 | the 19-bit accumulator never wraps on any window of samples, in any of the partial sums |
| `FirFilter.NarrowingKeepsWhatFits` | ProgrammingExercises/examples/sysc/fir/fir.cpp:42-67 | each narrowing takes a number to the one number of its range that differs by a multiple of the range, itself if it fits |
| `FirFilter.ConvInFull` | ProgrammingExercises/examples/sysc/fir/fir_const.h:38-53 | the convolution with the sixteen coefficients written out |
| `FirFilter.ConstantStream` | ProgrammingExercises/examples/sysc/fir/fir_const.h:38-53 | taps 1 to 15 are symmetric, and a constant stream comes out 502 times as large |
| `FirFilter.RampResponse` | ProgrammingExercises/examples/sysc/fir/log:1-49 | on samples that count up from 0 the results are the numbers of the program's log, from the sixteenth on 502 n - 4064 |
| `FirFilter.ProductNeverWraps` | ProgrammingExercises/examples/sysc/fir/fir.cpp:65 | no product of sample and coefficient leaves 17 bits |
| `FirFilter.FilteredIsConv` | ProgrammingExercises/examples/sysc/fir/fir.cpp:58-67 | the wrapped accumulation equals the convolution sum of coefs[k]*x[n-k] |
| `FirFilter.Fir.Filter` | ProgrammingExercises/examples/sysc/fir/fir.cpp:60-76 | one turn of the loop: result and in-place shift |
| `FirFilter.Fir.Entry` | ProgrammingExercises/examples/sysc/fir/fir.cpp:57-79 | for every stream each result is the convolution of the samples read so far, of the samples themselves if they are bytes |
| `FirRtl.FirFsm.Entry` | ProgrammingExercises/examples/sysc/fir/fir_fsm.cpp:46-82 | the next state and the state signal, which a reset leaves alone |
| `FirRtl.FirData.Entry` | ProgrammingExercises/examples/sysc/fir/fir_data.cpp:47-104 | one execution of the datapath, reset included |
| `FirRtl.ComputedInFirst` | ProgrammingExercises/examples/sysc/fir/fir_data.cpp:68-75 | state 1 starts the sum afresh, so running it again for a new sample leaves no trace |
| `FirRtl.StepKeeps` | ProgrammingExercises/examples/sysc/fir/fir_data.cpp:66-98 | any held clock or sample change keeps the partial sum, the register contents and the results so far exact |
| `FirRtl.RtlIsConvolution` | ProgrammingExercises/examples/sysc/fir/fir_fsm.cpp:52-82 | for every run in which samples are held, the results are exactly the convolutions of the accepted samples, in order, of the values on the signal themselves if these are bytes: the same as the behavioural filter's |
| `Instr.RTypeFields` | RGFP/hardware/core/instr.cpp:104-122 | register encoders are undone by the field accessors |
| `Instr.ITypeFields` | RGFP/hardware/core/instr.cpp:124-142 | likewise for immediate encoders |
| `Instr.ITypeImmediate` | RGFP/hardware/core/instr.cpp:124-142 | the accessor returns the encoded immediate exactly when it fits 12 signed bits |
| `Instr.ShiftTypeFields` | RGFP/hardware/core/instr.cpp:144-154 | shift encoders are undone by the accessors |
| `Instr.SWImmediate` | RGFP/hardware/core/instr.cpp:128-130 | the split store immediate comes back exactly when it fits 12 signed bits |
| `Instr.BTypeImmediate` | RGFP/hardware/core/instr.cpp:164-170 | the scattered branch offset comes back exactly when even and within 13 signed bits |
| `Instr.JALImmediate` | RGFP/hardware/core/instr.cpp:156-158 | the scattered jump offset comes back exactly when even and within 21 signed bits |
| `Instr.LUIFields` | RGFP/hardware/core/instr.cpp:132-134 | the upper immediate encoder is undone by the accessors |
| `Rvc.JumpOffsetAgrees` | RGFP/hardware/core/instr.cpp:66-68 | the extractor reassembles the jump offset as the specification scatters it |
| `Rvc.BranchOffsetAgrees` | RGFP/hardware/core/instr.cpp:82-84 | likewise the branch offset |
| `Rvc.WordImmediatesAgree` | RGFP/hardware/core/instr.cpp:54-64 | likewise the scaled offsets of word loads and stores |
| `Rvc.LegalWordsDecode` | RGFP/hardware/core/instr.cpp:183-312 | every legal word of RV32C is decoded as its operation |
| `Compressed.RegisterWordsDecode` | RGFP/hardware/core/instr.cpp:104-122 | the words built for register operations are read by the ordinary decoder as that operation with all three operands in place |
| `Compressed.ImmediateWordsDecode` | RGFP/hardware/core/instr.cpp:132-154 | likewise those built for operations with an immediate or a shift amount |
| `Compressed.ExpansionDecodes` | RGFP/hardware/core/instr.cpp:489-656 | the ordinary decoder reads every expanded word as the very operation that is executed in its place |
| `Rvc.LegalWordsRunAsSpecified` | RGFP/hardware/core/iss.h:85-276 | on every machine every legal word has exactly the specified effect on registers, memory and pc, link included, a left shift outside x8-x15 excepted |
| `WordArithmetic.SumAdds` | RGFP/hardware/core/iss.h:102-128 | the 32-bit sum is addition modulo 2^32 of the numbers the words stand for |
| `WordArithmetic.MinusSubtracts` | RGFP/hardware/core/iss.h:130-132 | the difference is that of the first and the second number, modulo 2^32 |
| `WordArithmetic.LogicIsBitwise` | RGFP/hardware/core/iss.h:154-164 | and, or and exclusive or act on each bit |
| `WordArithmetic.LeftShiftMultiplies` | RGFP/hardware/core/iss.h:166-168 | a left shift multiplies by 2^k, modulo 2^32 |
| `WordArithmetic.RightShiftDivides` | RGFP/hardware/core/iss.h:170-172 | an unsigned right shift divides by 2^k |
| `WordArithmetic.SignedShiftDivides` | RGFP/hardware/core/iss.h:174-176 | a signed right shift divides the signed number by 2^k, rounding down |
| `WordArithmetic.TargetsAreEven` | RGFP/hardware/core/iss.h:192-198 | the target of an indirect jump is the even number at or just below the sum |
| `WordArithmetic.StoresFourBytes` | RGFP/hardware/core/iss.h:212-216 | a stored word puts its bytes, lowest first, at four consecutive addresses and leaves all other bytes |
| `WordArithmetic.LoadAfterStore` | RGFP/hardware/core/iss.h:212-234 | a word stored at any address is loaded again from there |
| `CompressedEffects.RegisterWordsCompute` | RGFP/hardware/core/iss.h:126-164 | every legal register word moves the pc on by two and leaves in its one register the sum, copy, difference or bitwise combination of its operands, as numbers and bits, and nothing else |
| `CompressedEffects.ImmediateWordsCompute` | RGFP/hardware/core/iss.h:102-124 | likewise every legal word with an immediate |
| `CompressedEffects.ShiftWordsCompute` | RGFP/hardware/core/iss.h:166-176 | likewise the shifts, as multiplication and division by 2^k, left shifts outside x8-x15 excepted |
| `CompressedEffects.MemoryWordsCompute` | RGFP/hardware/core/iss.h:212-234 | every legal load fills one register with, and every legal store writes, the four bytes from base plus offset on, lowest first, and nothing else changes |
| `CompressedEffects.JumpWordsCompute` | RGFP/hardware/core/iss.h:186-198 | every legal jump goes to pc plus offset, or to the even number at or just below its register, and links pc plus two in x1 where it should |
| `CompressedEffects.BranchWordsCompute` | RGFP/hardware/core/iss.h:247-256 | every legal branch goes to pc plus offset exactly when its register is zero, or not zero, and on by two otherwise; a breakpoint only sets the status |
| `Rvc.SlliGoesWrong` | RGFP/hardware/core/instr.cpp:435-441 | the exception is real: such a left shift changes the wrong register on some machine, because the small register field is used |
| `Rvc.HintsDecode` | RGFP/hardware/core/instr.cpp:183-312 | what each hint encoding is taken for |
| `Rvc.HarmfulHintGoesWrong` | RGFP/hardware/core/instr.cpp:318-465 | every hint other than the neutral ones leaves a trace on some machine |
| `Rvc.ExpansionPreservesMeaning` | RGFP/hardware/core/instr.cpp:474-487 | decoding, expansion and execution preserve the meaning of a defined word on all machines if and only if it is not one of those two families |
| `Rvc.FaithfulStepsKeepZero` | RGFP/hardware/core/iss.h:671-676 | after a faithful word x0 is still zero, as the simulator asserts before every step |
| `Rvc.IllegalWordsFault` | RGFP/hardware/core/instr.cpp:318-330 | of the encodings without a meaning exactly two reserved families are executed, all others fault |
| `Iss.Core.RunStep` | RGFP/hardware/core/iss.h:671-691 | the core on its register array takes exactly the modelled step, and fails exactly when x0 is not zero or the word cannot be expanded |
| `TransactionPool.MemoryManager.Allocate` | ProgrammingExercises/edaplayground-example5/utilities.h:38-52 | the most recently freed transaction, or a fresh one exactly when none is pooled; the list stays doubly linked with empties just before free_list |
| `TransactionPool.MemoryManager.Free` | ProgrammingExercises/edaplayground-example5/utilities.h:54-67 | the transaction goes on top, into an empty node or a new one; list and pool stay well formed |
| `TransactionPool.StepKeeps` | ProgrammingExercises/edaplayground-example5/utilities.h:38-67 | pooled and live transactions stay disjoint and none is pooled twice |
| `TransactionPool.NeverMoreThanInUse` | ProgrammingExercises/edaplayground-example5/utilities.h:38-67 | over every sequence of calls exactly as many transactions are created as were in use at one time |
| `TransactionPool.LastInFirstOut` | ProgrammingExercises/edaplayground-example5/utilities.h:38-67 | freeing any list of live transactions and allocating as often hands them out in the opposite order and restores pool, live set and count |
| `Flash.PositionedAgreesIff` | RGFP/hardware/vp/flash.h:28-40 | moving the buffer keeps the client's view exactly when the save and the load it needed succeeded or changed nothing |
| `Flash.FlushedAgreesIff` | RGFP/hardware/vp/flash.h:82-89 | after clear the store is what the client wrote exactly when the dirty block was saved or unchanged |
| `Flash.ServedAlike` | RGFP/hardware/vp/flash.h:163-222 | each register and data access answers as on a bare disk and keeps buffer and disk in agreement |
| `Flash.BufferIsTransparent` | RGFP/hardware/vp/flash.h:163-222 | every sequence of accesses is answered as by the bare disk, and the store is that disk after the final clear |
| `Flash.BytesAreDigits` | RGFP/hardware/vp/flash.h:103-113 | byte i of a register has the weight 256^i and nothing stands above the last byte |
| `Flash.WindowAddresses` | RGFP/hardware/vp/flash.h:92-97 | bytes 0 to 7 choose the block, bytes 8 to 15 give the number of blocks, and bytes 16 to 527 are the chosen block |
| `Flash.SavesNeedWrites` | RGFP/hardware/vp/flash.h:28-46 | over every sequence of accesses the device is written to at most once for each write of data |
| `Flash.FailedLoadSpillsIff` | RGFP/hardware/vp/flash.h:28-90 | when a load fails, the old contents go over the new block at the next flush if and only if they were dirty, had not been saved first and differ from it |
| `Flash.BlockBuffer.SetPos` | RGFP/hardware/vp/flash.h:28-40 | save, load and position, with the outcome of each transfer |
| `Flash.BlockBuffer.Clear` | RGFP/hardware/vp/flash.h:82-89 | the buffer is written back if need be and given up |
| `Dma.CopiesIffSafe` | RGFP/hardware/vp/dma.h:63-79 | for every length the chunked copy is a memmove on all memories if and only if dst <= src, the ranges are disjoint, or len <= 64 |
| `Dma.Overtaken` | RGFP/hardware/vp/dma.h:68-79 | otherwise a byte is copied from an address already overwritten |
| `Dma.SimpleDma.PerformMemcpy` | RGFP/hardware/vp/dma.h:68-79 | the loop in place on memory |
| `Dma.SimpleDma.Run` | RGFP/hardware/vp/dma.h:81-115 | which operations copy, which only interrupt, which stop the simulation |
| `Plic.BitBelowValue` | RGFP/hardware/vp/plic.h:64 | a set bit's position is below the value of the word, which the loop bound relies on |
| `Plic.StepKeeps` | RGFP/hardware/vp/plic.h:47-92 | a line is high exactly while raised and not claimed since, and an enabled high line has the hart told or about to be |
| `Plic.NoLostInterrupt` | RGFP/hardware/vp/plic.h:47-92 | the same for every reachable state |
| `Plic.TriggeredOnlyWithReason` | RGFP/hardware/vp/plic.h:80-92 | in every run the hart is triggered only while an enabled line has been raised and not claimed since, and never twice without a completion in between |
| `Plic.OneRunPerNotification` | RGFP/hardware/vp/plic.h:47-58 | from reset the process runs at most once for each interrupt and each completion |
| `Plic.RaisedWord` | RGFP/hardware/vp/plic.h:47-51 | line i sets the bit of value 2^i, and line 31 all bits from 31 to 63 |
| `Plic.HighUntilClaimed` | RGFP/hardware/vp/plic.h:59-71 | a line stays high until a claim answers with it |
| `Plic.ZeroMeansNothingIff` | RGFP/hardware/vp/plic.h:63-71 | a claim answers zero exactly when nothing was waiting or line 0 was |
| `Plic.AllServedInOrder` | RGFP/software/basic-dma/irq.c:27-41 | rounds of trigger, claim and completion serve the waiting lines once each, lowest first, and leave none |
| `Plic.InterruptController.ReadClaim` | RGFP/hardware/vp/plic.h:59-71 | the bounded search returns and clears the lowest enabled line |
| `Rsa.Session` | ProgrammingExercises/examples/sysc/rsa/rsa.cpp:455-518 | key set-up, enciphering and deciphering on any two primes but twice 2 and any message: the assertions on e and d hold, the one on the message fails for zero only, the exponents are inverse, and the message is recovered if the primes differ |
| `Witnesses.HalfOfAllBasesExpose` | ProgrammingExercises/examples/sysc/rsa/rsa.cpp:340-348 | of the bases 1 to n-1 of a composite n at least half expose it |
| `Witnesses.ErrorBound` | ProgrammingExercises/examples/sysc/rsa/rsa.cpp:340-377 | of the lists of k random strings of b bits that the program reduces to bases, the share on which k rounds expose nothing of a composite number n is at most (1/2)^k, with (n-1)/2 to be added to the 2^b strings for the uneven remainder |
| `Witnesses.MissingIff` | ProgrammingExercises/examples/sysc/rsa/rsa.cpp:360-377 | the lists counted are exactly those that every round of the test lets pass |
| `Dataflow.Fabric.constructor` | RGFP/hardware/RFU/RFA.cpp:173-187 | broadcasting all contexts to all four units, and then the start signal, gives the start state |
| `ArrayLinks.CrossbarRefinesLink` | RGFP/hardware/RFU/distributor.cpp:94-221 | for a source with one open branch every step of the whole crossbar is a step of the data path's link, or leaves it alone, and the unit holds exactly the request in flight |
| `Controller.StallEndsIff` | RGFP/hardware/RFU/ReconfigController.cpp:238-261 | a stall ends exactly at a release, of any unit, that happens while the stall is watched and leaves its unit idle |
| `Controller.OwnReleaseEndsStall` | RGFP/hardware/RFU/ReconfigController.cpp:238-261 | once a clock period has passed, the release of the unit a stalled load waits for lets it go on |
| `Controller.EarlyReleaseIsLost` | RGFP/hardware/RFU/ReconfigController.cpp:118-126 | a release within the first clock period of a stall is lost: the unit is idle and the load waits on, until the first release of another unit once the stall is watched |
| `Crossbar.NeverStuck` | RGFP/hardware/RFU/distributor.cpp:94-221 | a request with an open branch can always be sent, answered by a unit that holds it, or settled |
| `Crossbar.AnswerArrives` | RGFP/hardware/RFU/distributor.cpp:94-221 | from any reachable state such steps alone bring the answer, within two and one for each open branch |
| `BusObjects.BusModule.MainAction` | ProgrammingExercises/examples/sysc/simple_bus/simple_bus.cpp:101-118 | one falling edge of the bus: arbitration when idle, one access of the current request, locks cleared when the request leaves |
| `BusErrors.RefusedIff` | ProgrammingExercises/examples/sysc/simple_bus/simple_bus.cpp:292-306 | an access is refused exactly when its word is misaligned or unmapped, without a notification and without touching data |
| `BusErrors.AnnouncedIffAllWordsGood` | ProgrammingExercises/examples/sysc/simple_bus/simple_bus.cpp:285-347 | in every reachable state a request no longer pending has been announced if and only if each of its words is aligned and mapped; otherwise it failed at the first that is not |
| `BusErrors.RequestAnnouncedIff` | ProgrammingExercises/examples/sysc/simple_bus/simple_bus.cpp:213-347 | in every run a regular request that is no longer pending has been announced if and only if the words asked for, length of them from its address on, are all aligned and mapped |
| `BusErrors.TopWordIsNeverAnnounced` | ProgrammingExercises/examples/sysc/simple_bus/simple_bus.cpp:326-335 | in no reachable state has a request that ends in the top word of the address space been announced: its address wraps before it can pass the end |
| `BusErrors.FailedCallerSleeps` | ProgrammingExercises/examples/sysc/simple_bus/simple_bus.cpp:233-242 | a caller that waits for the announcement of a failed request is never woken, whatever all others do |
| `BusLocks.LockAfterWord` | ProgrammingExercises/examples/sysc/simple_bus/simple_bus.cpp:402-409 | after a word a granted lock is still set, and any other is gone |
| `BusLocks.BurstGoesOnIff` | ProgrammingExercises/examples/sysc/simple_bus/simple_bus_arbiter.cpp:64-103 | a burst waiting for its next word gets the bus exactly when its lock is still set or it comes before every other pending form in its own right |
| `BusLocks.LockedBurstIsBrokenInto` | ProgrammingExercises/examples/sysc/simple_bus/simple_bus_arbiter.cpp:64-77 | a locked burst served under a lock that was only set loses the bus, in mid-burst, to a request with a lower number that arrives after the word |
| `BusLocks.LockedBurstCanBeBrokenInto` | ProgrammingExercises/examples/sysc/simple_bus/simple_bus.cpp:101-118 | a run from a bus at rest in which that happens |
| `SimpleBus.AccessCompletesIffWaitStates` | ProgrammingExercises/examples/sysc/simple_bus/simple_bus_slow_mem.h:130-162 | a request in service gets its word in some continuation of the run if and only if its memory has wait states |
| `SimpleBus.NoWaitStatesHangTheBus` | ProgrammingExercises/examples/sysc/simple_bus/simple_bus_slow_mem.h:130-162 | an access to a memory without wait states is begun again at every edge: it stays in service for ever and nothing moves |
| `SimpleBus.NoWaitStatesNoWords` | ProgrammingExercises/examples/sysc/simple_bus/simple_bus_slow_mem.h:130-162 | no run writes or reads a word of a memory without wait states |
| `BusBursts.EdgeCarries` | ProgrammingExercises/examples/sysc/simple_bus/simple_bus.cpp:101-118 | a cycle carries one word of one pending form, between exactly its address and its pointer, or nothing |
| `BusBursts.WordsInOrder` | ProgrammingExercises/examples/sysc/simple_bus/simple_bus_slow_mem.h:113-162 | word k of a memory stands 4 k bytes above its start address |
| `BusBursts.ReadBurstDelivers` | ProgrammingExercises/examples/sysc/simple_bus/simple_bus.cpp:213-242 | an announced read request has brought the contents of its length words from its address on into its buffer, in order, however often it was preempted, if no other request stores into these words or loads into the buffer |
| `BusBursts.WriteBurstDelivers` | ProgrammingExercises/examples/sysc/simple_bus/simple_bus.cpp:244-271 | an announced write request has put the length words of its buffer at its address under the same condition |
| `FirRtl.ResultAfterThreeEdges` | ProgrammingExercises/examples/sysc/fir/fir_fsm.cpp:59-82 | an accepted sample has its result three edges later, and then the state signal is 4 and the sample still there |
| `FirRtl.ResetForgetsIff` | ProgrammingExercises/examples/sysc/fir/fir_data.cpp:47-54 | a reset empties the shift register exactly when the state signal is not 4 or the sample byte is zero |
| `FirRtl.ResetRestartsIff` | ProgrammingExercises/examples/sysc/fir/fir_data.cpp:47-98 | after a reset every run's results are the convolutions of the samples accepted since, if and only if that is so; otherwise the first result is off by nine times the byte |
| `FirRtl.EveryResultIsAtRisk` | ProgrammingExercises/examples/sysc/fir/fir_data.cpp:88-98 | a reset while a result is presented restarts the filter properly exactly for a zero sample |
| `Flash.FlashController.Transport` | RGFP/hardware/vp/flash.h:163-222 | the register decode, with the outcome of the block transfers an access needs |
| `Dataflow.EveryScheduleEndsIff` | RGFP/hardware/RFU/loader.cpp:115-160 | every schedule can be continued until all is stored and released if and only if there is at least one word to compute; with an empty batch, which the units accept, nothing ever steps |
| `ContextWords.BareExtensionServesIff` | RGFP/software/matrix_multi/main.c:7-21 | a load whose extension word is made without length and stride decodes to itself exactly when its length is below 1024 and its stride below 128 |
| `ContextWords.MatrixColumnDecodesIff` | RGFP/software/matrix_multi/main.c:50-58 | the column load of the matrix product, made that way with the size as its stride, is right exactly for sizes below 128; at the shipped 128 its stride comes out as 0 |
| `BusTiming.BurstTakes` | ProgrammingExercises/examples/sysc/simple_bus/simple_bus_slow_mem.h:113-162 | a request for any regular range over memories with wait states, alone on an idle bus, is announced after exactly the sum of wait states plus one over its length words, and not before |
| `BusTiming.UniformBurstTakes` | ProgrammingExercises/examples/sysc/simple_bus/simple_bus_slow_mem.h:113-162 | with N wait states throughout, a request for n words is announced after exactly n(N+1) edges |
| `BusLocks.LockReachesTwoWords` | ProgrammingExercises/examples/sysc/simple_bus/simple_bus.cpp:101-118 | in every run, a locked request chosen at its first arbitration keeps the bus for its first two words whatever is issued; from the third on, or from the first if it was not chosen, it goes on exactly when it is foremost in its own right |
| `BusLocks.NextRequestWinsIff` | ProgrammingExercises/examples/sysc/simple_bus/simple_bus.cpp:40-52 | in every run, a master that ends a locked request and asks again before the next arbitration gets the bus ahead of everybody if it asks for a lock, and otherwise exactly when it is foremost; either way it is served under a granted lock |
| `Deployment.ProgramReachesStart` | RGFP/hardware/RFU/ReconfigController.cpp:215-235 | however dispatches fall among the words, the encoded commands Load, Load, Add or Multiply, Store, with lengths given as such or as powers of two, consumed and dispatched, send contexts that take the four units to the start state of the data path and wire the crossbar as its links, to unit 4 or 8 |
| `Deployment.ProgramCanBeDeployed` | RGFP/hardware/RFU/ReconfigController.cpp:100-235 | a schedule that does so exists for every such program |
| `FirRtl.ChangeIsHarmlessIff` | ProgrammingExercises/examples/sysc/fir/fir_data.cpp:66-101 | a change of the sample between edges leaves all later results right always at state signal 0 and 1, at 2 and 3 exactly when the taps added twice make up for the changed head of the sum, never at 4 |
| `Controller.SecondWordInAStallIsLost` | RGFP/hardware/RFU/ReconfigController.cpp:100-136 | the second word of a stalled load takes the place of the first: the stall then ends without the load being given a unit |

## Left out

- The SystemC kernel, event queues and simulated time: only the order of steps they impose is kept.
- Random numbers: the draws of the primality test are a parameter; the search loop `find_prime` and its termination are not modelled.
- Rsa.Session: takes the two primes as given.
- Floating point: the arithmetic units apply an arbitrary function to two 32-bit words; square root and sine units, which have one operand, are not modelled.
- Dataflow.EverySchedule: covers two loaders, one two-operand unit and one storer with a store range disjoint from both load ranges; longer chains of units and overlapping ranges are not modelled, and the payload pools appear as counts of free transactions.
- Distributor.DistributorUnit.WriteContextReg: without the self-feeding flag, its pending port and the self-starting thread; contexts in which a unit reads its own result are excluded, as their routing is switched in mid-stream.
- Distributor.DistributorUnit.SendFirst: without the route switch of self-feeding at the last word.
- Crossbar.StepKeeps: units are configured only while they and their sources are idle, and sources start after the start signal; the delay queues of the combiners are folded into the delivery.
- Controller.StepKeeps: in its runs releases come from units that are busy and have been sent their context, as the units of the array make them.
- Deployment.ProgramReachesStart: field values are those of the 64-bit contexts; no unit reports back before the start signal.
- Controller.CommandStreamSurvives: each word is consumed before the next is written; what becomes of one that is not is said by Controller.Overwritten and Controller.SecondWordInAStallIsLost.
- Controller.LoadWaitsForItsStore: the hazard test compares with the previous command only, as the code does; hazards over longer distances are not detected and not modelled.
- The dispatch mask is a set of slot numbers rather than a 32-bit word, and the translation table is a finite map that answers 0 where the original inserts a 0.
- The fast memory and the direct interface of the bus: they answer at once and add only easy members.
- SimpleBus.RunKeeps: in its runs a master asks again only when its request is no longer pending; a second blocking call on a pending priority, which the program does not check, would overwrite the form.
- BusBursts.ReadBurstDelivers: speaks of a burst once announced; starvation by an endless stream of higher priorities is not excluded.
- Compressed.ExpansionDecodes: the ordinary decoder tells apart only the operations that expansion produces; all others are one outcome.
- Iss.Core.RunStep: without interrupts, breakpoints set by a debugger, exit through system calls and cycle accounting.
- Floating-point, atomic, compressed floating-point and 32-bit instructions, traps, interrupts, CSRs and timing of the core: only what compressed words expand to is modelled, memory as a function from addresses to bytes.
- FirRtl.RtlIsConvolution: starts from a reset with the state signal at 0; FirRtl.ResetRestartsIff takes the sample signal as still while reset is high; the text output of the modules is left out.
- Flash.BlockBuffer.SetPos: a failed transfer leaves buffer and store as they were; partial transfers, device discovery and the simulated delay are not modelled.
- Flash.FlashController.Transport: requests stay inside the register or window they start in.
- Flash.ServedAlike: for successful block transfers; Flash.PositionedAgreesIff says what a failed one costs.
- Dma.SimpleDma.Run: both ranges lie in memory, and the register window and the events that start the engine are left out.
- Plic.StepKeeps: interrupt numbers are below 32, as the shift in the code requires; thresholds and per-interrupt priorities are unused by the code.
- The packet switch, the matrix unit, the risc_cpu example, sensors, ethernet, display, debug server, ELF loading and system calls: input and output, or nothing that composes.
