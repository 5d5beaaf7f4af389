# FmiGo in Dafny

FmiGo is a co-simulation master: it steps many FMUs in an order that the user gives as a tree of
parallel and serial groups, moves outputs to inputs over a pipelined request/response protocol,
and lets FMUs look ahead and be rolled back. This project models its five connected cores and
proves what they promise.

* **Execution order.** `OrderTree`, `RendCompiler`, `RendCheck`, `OrderAcceptance`, `RendOrder`,
  `OrderTheorem`, `OrderShapes`, `LiveTrees`, `Schedule`, `Includes`, `StrongMaster`, `Meeting`,
  `OrderRun`, `Steps` and `FixedOrders`: the compiler from trees to rendezvous vectors, the
  constructor's checks, the scheduler, and what a whole time step and a whole simulation do.
* **Data movement.** `Wiring` and `Simulators` (connections, conversions, and what assignments do to
  an FMU), `RefValues` (the split into simple and complex connections), `Network` (requests, caches,
  the lists of inputs and pipelined set/step/get messages in both build modes) and `Mobility`
  (requests for directional derivatives and where their answers go).
* **Protocol.** `Framing` (packets and hand-written encodings) and `Protocol` (request counting and
  the `wait()` barrier).
* **Rollback.** `FmuTemplate`, `Calls`, `Rollback`, `Lasting`, `Linear`, `CallSequence` (the FMU
  template, the server's look-ahead, numerical derivatives, the call-permission masks) and `Storage`
  (the model-exchange storage with its store and restore).
* **Parsers.** `Sax` (the handlers that read an order tree) and `Escape` (option values).

`IntSets` and `Options` hold shared definitions. Doubles are `real`s and FMUs are abstract
deterministic machines. `fatal` and `exit` are a `Stop` outcome or an `ok` flag. What happens at
random (which client answers first, in which order a set is iterated, what forces the solver
finds) is a parameter or a nondeterministic choice.

Where a promise is false of the code, the code is modelled as it is, a concrete input shows the
failure, and the exact condition under which the promise holds is proved:

* A serial group that ends in a parallel group holding a serial compiles to a wrong structure,
  because an assignment overwrites heads already inserted (`NestedEndingRejected`). Among trees
  without empty groups the checks reject every such tree (`AcceptedIffPlain`); with empty groups a
  tree can hide it, and then it has a dead rend (`QuietAccepted`). For trees with distinct ids the
  exact condition is `AcceptedIff`.
* A tree that names an FMU twice can be accepted (`TwinAccepted`), but then a rend is dead and no
  step over it completes (`LiveIsDistinct`).
* Trees with empty parallel groups can be accepted and yet lose part of the order
  (`HiddenLeafUnordered`, `HiddenLeafRun`). The compiled order is the tree's order if and only if
  the tree is `Sealed` (`OrderCompleteIffSealed`).
* `std::includes` on unordered sets may answer "no" for a subset (`WalkMisses`). Its "yes" is always
  right (`WalkSound`), and on two listings of one set it is "yes" exactly if they are the same
  sequence (`WalkSameSet`). For every iteration order, a step over a forward vector succeeds exactly
  if no rend is dead, every connection can be converted, and some round that is reached sees the
  kinematic FMUs (`RunIteration`); if these do not wait for each other, that fails exactly if a
  round is reached whose open set is the kinematic set listed in another order (`MeetsUnless`). Two
  kinematic FMUs in jacobi order are enough (`JacobiUnfulfillable`, `RunUnfulfillable`).
* A framed packet is read back if and only if it is shorter than 2^31 bytes (`FramingRoundTrip`).
* Splitting connections assigns every input the same value if and only if an input with a complex
  connection has a complex connection as its last one (`SplitAgrees`, `SplitUnsafe`). Even so the
  order of the set calls changes, and values of earlier batches may be sent again; an FMU cannot
  tell if and only if setting different real inputs commutes and setting a real input again
  overwrites it (`LawfulIff`). Where either half of that law fails, a safe wiring and caches show the
  difference (`CommutingNeeded`, `OverwritingNeeded`, `LoggerUnlawful`). An FMU over the template
  obeys the law if and only if its setters of reals store what they are given (`LawfulIffStores`).
  The results about states are for networks that are `Faithful` in this sense; the results about
  order and progress are for all.
* A mobility entry answers the request for its FMU's last attachment in the equation
  (`FiledAll`). It is right for all answers if and only if that attachment asks for the same
  (`PlacedIff`), in particular if no equation holds an FMU twice (`EachInItsPlace`); an equation
  that holds both connectors of one FMU shows the failure (`SharedMisplaced`).
* A saved FMU state comes back if and only if the latest save had the same GSL variables
  (`RestoreExact`, `NestedSaveLost`). A kinematic request never nests saves.
* The numerical derivative of an affine model falls short of the weighted sum of partials by what
  repeated inputs count twice (`NumericalIs`, `RepeatedInputDiffers`). Before the first step of a
  run the server's step size is not set; if it happens not to be positive, the derivative is only
  the direct effect of the inputs (`NoStepDifference`).
* Values escaped once survive the two splits of an option if and only if they hold no comma and no
  backslash (`EscapedOnce`); escaped twice they always do (`EscapedTwice`).

The comment above `escapeSplit` says that trailing single backslashes are pruned; the code stops
instead, and so does the model.

## Model

| member | source | states |
|---|---|---|
| `RendCompiler.Traversal.Parallels` | src/master/parseargs.cpp:314-330 | traversing a parallel group extends the shared rend vector by exactly the group's denotation `Compiled`, adds the heads of its serials to the parent rend, and stops exactly if some serial has fewer than two elements |
| `RendCompiler.Traversal.Serials` | src/master/parseargs.cpp:332-368 | the same for a serial group, whose last rend gets the tail of the last element as children, overwriting what was there |
| `RendCompiler.BuildExecutionOrder` | src/master/parseargs.cpp:370-400 | the rend vector of a whole tree is root, compiled body and terminal; it stops exactly for trees with a short serial |
| `RendCheck.CheckRends` | src/master/StrongMaster.cpp:28-66 | the constructor's loop accepts if and only if every FMU id is counted exactly once as parent and once as child and no other id occurs |
| `OrderAcceptance.AcceptedIff` | src/master/StrongMaster.cpp:28-66 | for trees with distinct ids: accepted if and only if the leaves are all FMU ids and every serial ends in an element whose head is its tail |
| `OrderAcceptance.AcceptedIffPlain` | src/master/StrongMaster.cpp:28-66 | for trees without empty groups: accepted if and only if ids are distinct, the leaves are all FMU ids, and no serial ends in a group that holds a serial |
| `LiveTrees.LiveIsDistinct` | src/master/StrongMaster.cpp:28-66 | an accepted vector without dead rends comes from a tree that names every FMU once, with or without empty groups |
| `LiveTrees.TwinAccepted` | src/master/parseargs.cpp:356-362 | a tree that names an FMU twice and is accepted, with a dead rend |
| `LiveTrees.QuietAccepted` | src/master/parseargs.cpp:356-362 | a serial that ends in a group holding a serial, hidden by empty groups and accepted, with a dead rend |
| `OrderTheorem.OrderSound` | src/master/parseargs.cpp:314-368 | whatever the compiled rends order, the tree orders: no extra constraints |
| `OrderTheorem.OrderCompleteIffSealed` | src/master/parseargs.cpp:314-368 | the compiled rends order all that the tree orders if and only if the tree is sealed |
| `OrderTheorem.OrderExact` | src/master/parseargs.cpp:314-368 | for accepted trees without empty groups the transitive closure of parent-to-child is exactly the tree's precedence |
| `OrderShapes.CompiledForward` | src/master/parseargs.cpp:348-364 | in a compiled vector a child's own rend has a higher index than the rend that opens it |
| `OrderShapes.CompiledLive` | src/master/parseargs.cpp:348-364 | a tree without empty groups compiles to a vector in which no rend but the root waits for nobody yet opens somebody |
| `OrderShapes.BuildJacobi` | src/master/parseargs.cpp:884-893 | the jacobi vector is the compiled tree of one parallel group of all FMUs |
| `OrderShapes.BuildGaussSeidel` | src/master/parseargs.cpp:894-912 | the gs vector built in place is the chain of g |
| `OrderShapes.ChainIsCompiled` | src/master/parseargs.cpp:894-912 | that chain is what the tree of one serial group over g compiles to |
| `Schedule.AcceptedTidy` | src/master/StrongMaster.cpp:28-66 | accepted vectors give every FMU exactly one rend that awaits it and exactly one that opens it |
| `Schedule.RunInOrder` | src/master/StrongMaster.cpp:230-257 | in every run, FMUs ordered by the rends are stepped in earlier and later batches respectively |
| `Schedule.BatchCount` | src/master/StrongMaster.cpp:182-228 | a run has at most as many batches as it steps FMUs |
| `Schedule.HeldUp` | src/master/StrongMaster.cpp:182-228 | in a forward, live vector every FMU that is not open waits, possibly through others, for an FMU that is open |
| `Schedule.CompleteIsLive` | src/master/StrongMaster.cpp:182-228 | conversely, a run that steps all FMUs is possible only for a vector without dead rends |
| `Schedule.TogetherIsIndependent` | src/master/StrongMaster.cpp:527-530 | FMUs stepped in one batch are not ordered by the rends |
| `Includes.StdIncludes` | src/master/StrongMaster.cpp:188-188 | the merge walk of std::includes |
| `Includes.WalkSound` | src/master/StrongMaster.cpp:188-188 | a true answer means subset, in whatever order the sets are iterated |
| `Includes.WalkExact` | src/master/StrongMaster.cpp:186-188 | on ascending sequences the answer is exactly subset |
| `Includes.WalkEqual` | src/master/StrongMaster.cpp:186-188 | on sequences of one length the answer is yes exactly if they are equal |
| `Includes.WalkSameSet` | src/master/StrongMaster.cpp:186-188 | two listings of one set: included exactly if listed in the same order |
| `Includes.WalkMisses` | src/master/StrongMaster.cpp:188-188 | two iteration orders of a subset for which the answer is false |
| `StrongMaster.SchedPartition` | src/master/StrongMaster.cpp:182-257 | done, open and todo are disjoint and together all FMUs |
| `StrongMaster.Master.Poke` | src/master/StrongMaster.cpp:230-245 | moves FMUs from open to done and counts down every rend, so that each counter is the number of its parents not done; reports exactly the rends completed |
| `StrongMaster.Master.MoveCranked` | src/master/StrongMaster.cpp:230-257 | keeps the partition and the counters, and opens exactly the children of completed rends; never stops |
| `StrongMaster.Master.CrankRound` | src/master/StrongMaster.cpp:186-226 | one round, for any iteration orders: reached exactly if std::includes says so, blocked exactly if it does not and nothing but the target is open; in a forward, live vector with an independent target, blocked exactly if the open set is the target listed in another order |
| `StrongMaster.BlockedIff` | src/master/StrongMaster.cpp:186-201 | the same about any consistent state of the scheduler |
| `StrongMaster.Master.CrankAll` | src/master/StrongMaster.cpp:182-228 | with an empty target, steps everything; over a forward vector it stops only for a dead rend or a connection that cannot be converted |
| `StrongMaster.Master.CrankIt` | src/master/StrongMaster.cpp:182-228 | with a target, and for any iteration orders, succeeds exactly if some round that is reached sees the target, and then the target is open and not stepped; if it stops over a forward, live vector with an independent target, the open set is the target listed in another order |
| `StrongMaster.Stuck` | src/master/StrongMaster.cpp:190-201 | in a forward, live vector, if nothing can be stepped short of the target, one target FMU precedes another |
| `StrongMaster.Master.Restart` | src/master/StrongMaster.cpp:507-523 | the step begins with nothing done, the root's children open and full counters |
| `StrongMaster.Master.RunIteration` | src/master/StrongMaster.cpp:507-536 | if a step does not stop, every FMU was stepped exactly once, in at most n batches, and the FMUs of a faithful network ended where the batch-wise semantics puts them; over a forward vector, for any iteration orders, it succeeds exactly if every connection can be converted, no rend is dead, and some round sees the kinematic FMUs |
| `Meeting.MeetsUnless` | src/master/StrongMaster.cpp:186-201 | in a forward, live vector with an independent target, some round sees it unless a round is reached whose open set is the target listed in another order |
| `Meeting.AlikeMeets` | src/master/StrongMaster.cpp:186-201 | so it is always seen if the open set is iterated like the target whenever the two are equal |
| `Meeting.AscendingAlike` | src/master/StrongMaster.cpp:186-188 | as with sets that iterate in ascending order |
| `Meeting.JacobiUnfulfillable` | src/master/StrongMaster.cpp:195-201 | two kinematic FMUs in jacobi order, the open set listed 1, 0 and the kinematic set 0, 1: nothing to step and nothing ever seen |
| `OrderRun.TreeOrderKept` | src/master/StrongMaster.cpp:182-257 | u is stepped in an earlier batch than v whenever a sealed, accepted, live tree puts u in an earlier element of a common serial |
| `OrderRun.TreeRuns` | src/master/StrongMaster.cpp:182-228 | for accepted trees without empty groups progress is assured if and only if no kinematic FMU precedes another in the tree |
| `OrderRun.RunTree` | src/master/StrongMaster.cpp:507-536 | compile, check and run any tree, for any iteration orders: if the step goes through, each FMU once, ids distinct, states of a faithful network as the batch-wise semantics, and tree order if the tree is sealed; any tree goes through exactly if its serials are long, its vector is accepted and live, every connection can be converted, and some round sees the kinematic FMUs; a tree without empty groups goes through exactly if it is well formed, covers the FMUs, orders no kinematic FMU before another, every connection can be converted, and some round sees the kinematic FMUs |
| `OrderRun.NestedEndingRejected` | src/master/parseargs.cpp:356-362 | the smallest serial ending in a parallel that holds a serial compiles to a rejected vector |
| `OrderRun.HiddenLeafUnordered` | src/master/parseargs.cpp:356-362 | an accepted tree with an empty group whose vector does not order two FMUs that the tree orders |
| `OrderRun.HiddenLeafRun` | src/master/StrongMaster.cpp:182-257 | a complete run of that vector that steps both FMUs in one batch |
| `FixedOrders.BatchReads` | src/master/StrongMaster.cpp:202-223 | an FMU in batch k reads stepped outputs of exactly the FMUs of earlier batches and unstepped outputs of all others |
| `FixedOrders.RunJacobi` | src/master/parseargs.cpp:884-893 | a step in jacobi order is the simultaneous update of all FMUs of a faithful network; it succeeds exactly if every connection can be converted |
| `FixedOrders.RunUnfulfillable` | src/master/StrongMaster.cpp:195-201 | two kinematic FMUs in jacobi order with differently listed sets: the step stops |
| `FixedOrders.RunGaussSeidel` | src/master/parseargs.cpp:894-912 | a step in gs order is the one-by-one update in order g of a faithful network; it succeeds exactly if g is a permutation and every connection can be converted |
| `Steps.Simulate` | src/master/main.cpp:1057-1088 | any number of steps, the lists of inputs and caches of one reused by the next: every step steps each FMU once in an order that the rends allow, and the states of a faithful network are those of all logged batches in sequence; over a forward vector all steps go through exactly if the connections can be converted, no rend is dead and every step sees the kinematic FMUs |
| `FixedOrders.SimulateJacobi` | src/master/parseargs.cpp:884-893 | any number of steps in jacobi order is as many simultaneous updates of a faithful network; succeeds exactly if there are no steps or every connection can be converted |
| `FixedOrders.SimulateGaussSeidel` | src/master/parseargs.cpp:894-912 | any number of steps in gs order is as many rounds of one-by-one updates in order g; succeeds exactly if g is a permutation and there are no steps or every connection can be converted |
| `FixedOrders.GaussSeidelFine` | src/master/parseargs.cpp:894-912 | the gs vector is accepted if and only if g is a permutation of the FMU ids, and then it is forward and live |
| `Network.Net.QueueVars` | include/fmitcp/Client.h:82-127 | in both build modes every asked value is requested or, in the debug build, cached |
| `Network.Net.QueueValueRequests` | src/fmitcp/Client.cpp:453-467 | up to four get requests per client, one per type with outstanding values, go to the end of its queue |
| `Network.Net.Flush` | src/fmitcp/Client.cpp:384-423 | sending a queue applies its sets and steps in order, and the replies to the gets hold the outputs after all of them |
| `Network.Net.Wait` | src/master/BaseMaster.cpp:166-229 | afterwards all queues are empty, the FMUs have handled all that was queued, and caches hold the answers |
| `Network.Net.Fetch` | src/master/StrongMaster.cpp:203-211 | after requesting and waiting, every value that the batch reads is cached and equals the FMU's current output, with or without the filtering cache; stops only at an enumeration |
| `Network.CollectMatches` | src/master/WeakConnection.cpp:43-164 | over fresh caches the plain loop collects exactly the converted current outputs, type by type, in connection order |
| `Network.Net.CollectInputs` | src/master/StrongMaster.cpp:212-213 | what initRefValues and the complex connections leave to be sent takes every FMU of a faithful network where the plain inputs would; stops exactly if a connection of the batch cannot be converted |
| `Network.Net.SendInputs` | src/master/FMIClient.cpp:345-361 | the lists of one client are sent as one message per type that has values, and have the effect of all of them in order |
| `Network.Net.Forget` | include/fmitcp/Client.h:68-80 | the caches of stepped FMUs are emptied, the others kept |
| `Network.Net.Crank` | src/master/StrongMaster.cpp:186-223 | a pipelined batch, sending simple inputs before complex ones and leftovers of earlier batches with them, leaves the FMUs of a faithful network, all queued messages counted in, exactly where the simultaneous step of that batch puts them, in the debug and in the release build; every cached value stays current; it stops exactly if a connection of the batch cannot be converted |
| `Network.Net.LookAhead` | src/master/StrongMaster.cpp:259-297 | a kinematic request leaves the FMUs of a faithful network as after setting their inputs |
| `Network.Net.StepKinematic` | src/master/StrongMaster.cpp:259-504 | the kinematic step is the batch step with whatever forces the solver found |
| `RefValues.AppendInputs` | src/master/WeakConnection.cpp:43-164 | the loop appends to each selected client what its connections deliver, in list order, leaves other clients alone, and stops exactly if a conversion of a selected client does |
| `RefValues.CollectLast` | src/master/WeakConnection.cpp:43-164 | the value left in a real input is that of the last connection to it, or else what was there |
| `RefValues.RefTable.constructor` | src/master/StrongMaster.cpp:68-84 | the split loop puts every connection, in order, in its target's simple list or in the complex list |
| `RefValues.RefTable.InitRefValues` | src/master/StrongMaster.cpp:117-151 | clients outside the batch are emptied, those with simple connections get exactly these, and the rest keep leftovers that a complex connection will overwrite; reading an absent value puts a 0 into the cache |
| `RefValues.SplitAgrees` | src/master/StrongMaster.cpp:68-84 | simple values followed by complex connections set the same values as the plain loop over all connections, and stop together |
| `RefValues.SplitUnsafe` | src/master/StrongMaster.cpp:68-84 | whenever the condition of SplitAgrees fails there are caches on which the two set different values |
| `RefValues.DistinctIsSafe` | src/master/StrongMaster.cpp:68-84 | distinct targets per client and type meet that condition |
| `RefValues.RefTable.Refresh` | src/master/StrongMaster.cpp:212-213 | for any batch and caches, with leftovers of any earlier batches in the table, the inputs have the same effect as those collected from scratch over the caches in which absent simple sources have become 0, and the table stays usable; stops exactly if the plain loop would |
| `Wiring.ConvertedType` | src/master/WeakConnection.cpp:73-162 | whether a value can be converted depends on the types alone, and the result has the type of the target |
| `Simulators.SameEffectSameState` | src/master/FMIClient.cpp:345-361 | lists of the same effect take an FMU that obeys the law of assignment to the same state |
| `Simulators.LawfulIff` | src/master/FMIClient.cpp:345-361 | that law, which speaks of real inputs only, holds if and only if any two lists of the same effect lead to the same state |
| `Lasting.LawfulIffStores` | tools/fmi2template/fmuTemplate_impl.h:453-477 | an FMU over the template, seen as the network's simulator, obeys that law if and only if its setters of reals commute and overwrite |
| `Lasting.FollowerLawful` | tools/fmi2template/fmuTemplate_impl.h:453-477 | so does a concrete template FMU whose real input refuses an integer |
| `Simulators.CommutingNeeded` | src/master/StrongMaster.cpp:212-218 | for every FMU in which two real inputs do not commute there is a safe wiring whose split ends in another state than the plain loop |
| `Simulators.OverwritingNeeded` | src/master/StrongMaster.cpp:119-124 | for every FMU in which setting a real input again does not overwrite it, there is a wiring whose earlier batch collects a value that the next batch sends again before the new one, which leads to another state than the plain loop |
| `Simulators.LoggerUnlawful` | src/master/StrongMaster.cpp:212-218 | an FMU that logs which inputs are set tells the order apart |
| `Mobility.Kinematics.constructor` | src/master/StrongMaster.cpp:283-291 | open FMUs get different slots |
| `Mobility.Kinematics.AskAll` | src/master/StrongMaster.cpp:331-366 | every slot gets the requests of its FMU's visits in loop order, one input reference per output reference; stops exactly if some visit is not allowed |
| `Mobility.NextAnswers` | src/master/StrongMaster.cpp:380-422 | the answers next in an FMU's list are those to the current visit's own requests |
| `Mobility.Kinematics.FileAll` | src/master/StrongMaster.cpp:380-422 | files every answer, ends with each offset at the number of requests, and stops exactly if an equation holds an FMU that is not open |
| `Mobility.FiledAll` | src/master/StrongMaster.cpp:390-394 | for any equations, entry (connector, equation) holds the answers to the requests of the FMU's last attachment in that equation |
| `Mobility.EachInItsPlace` | src/master/StrongMaster.cpp:390-394 | if no equation holds an FMU twice, every entry holds the derivative it was requested for |
| `Mobility.PlacedIff` | src/master/StrongMaster.cpp:390-394 | an entry is right for all answers if and only if the FMU's last attachment in the equation makes the same requests |
| `Mobility.SharedMisplaced` | src/master/StrongMaster.cpp:390-394 | an equation that holds both connectors of one FMU: answers for which its first entry is wrong |
| `Mobility.Kinematics.Derivatives` | src/master/StrongMaster.cpp:331-422 | both passes around the answers: every entry right, every answer used |
| `Framing.LeRoundTrip` | include/fmitcp/serialize.h:43-75 | little-endian bytes read back as the number modulo their width |
| `Framing.PackIntoCharVector` | include/fmitcp/serialize.h:43-61 | appends the size and the packet; stops for packets of 2^32 bytes or more |
| `Framing.ParseFramed` | include/fmitcp/serialize.h:63-75 | the size read from a frame is the packet's below 2^31, and wrapped around in 64 bits from there on |
| `Framing.ClientData` | src/fmitcp/Client.cpp:55-76 | the receive loop computes the split of the buffer, or stops on a malformed one |
| `Framing.FramingRoundTrip` | src/fmitcp/Server.cpp:363-392 | packets packed one after another are split into exactly these packets if and only if each is shorter than 2^31 bytes |
| `Framing.GetRealFast` | include/fmitcp/serialize.h:130-166 | appends byte for byte what packing the plain get_real request would |
| `Framing.SetRealRoundTrip` | src/fmitcp/serialize.cpp:188-208 | an encoded set_real is decoded to the same references and values; encoding stops exactly on different lengths |
| `Framing.HandleGetReal` | src/fmitcp/Client.cpp:150-167 | stores the returned values under the outgoing references in order; stops on a bad status |
| `Framing.RequestReals` | src/fmitcp/Client.cpp:453-457 | after request and reply every requested reference holds the FMU's value, whatever the order of the set, and every other one its old value |
| `Protocol.LoadParts` | src/fmitcp/Client.cpp:384-395 | what a client adds to the pending count is its queued, in-flight, unread and never-answered requests |
| `Protocol.Exchange.QueueMessage` | src/fmitcp/Client.cpp:384-395 | one more request queued, one more pending |
| `Protocol.Exchange.SendQueued` | src/fmitcp/Client.cpp:397-423 | the whole queue goes out as one message |
| `Protocol.Exchange.Serve` | src/fmitcp/Server.cpp:363-392 | the server handles the requests of a message in order and answers with one packet per replying request, in that order |
| `Protocol.Exchange.Receive` | src/fmitcp/Client.cpp:55-91 | each reply packet lowers the pending count by one, which never runs below zero |
| `Protocol.Exchange.Wait` | src/master/BaseMaster.cpp:166-229 | whatever the servers do meanwhile, on return all queues are empty and every request was handled, answered and read in order; with a request that is never answered it cannot return |
| `FmuTemplate.ModelInstance.InvalidState` | tools/fmi2template/fmuTemplate_impl.h:56-65 | a call outside its mask puts the instance in the error state |
| `FmuTemplate.ModelInstance.SetupExperiment` | tools/fmi2template/fmuTemplate_impl.h:299-315 | sets the start time of an instantiated instance and nothing else |
| `FmuTemplate.ModelInstance.EnterInitializationMode` | tools/fmi2template/fmuTemplate_impl.h:317-329 | allowed only just after instantiation |
| `FmuTemplate.ModelInstance.ExitInitializationMode` | tools/fmi2template/fmuTemplate_impl.h:331-348 | allowed only in initialization mode |
| `FmuTemplate.ModelInstance.Terminate` | tools/fmi2template/fmuTemplate_impl.h:350-358 | allowed once initialized |
| `FmuTemplate.ModelInstance.Set` | tools/fmi2template/fmuTemplate_impl.h:453-488 | assigns in order up to the first failure, and reports it |
| `FmuTemplate.ModelInstance.GetReal` | tools/fmi2template/fmuTemplate_impl.h:371-391 | reads all values, or reports the first that cannot be read |
| `FmuTemplate.ModelInstance.GetDirectionalDerivative` | tools/fmi2template/fmuTemplate_impl.h:614-645 | the partials weighted by the seed, summed over the inputs; fails exactly if a partial is undefined |
| `Rollback.Server.NumericalDerivative` | src/fmitcp/Server.cpp:1676-1731 | the two trial steps are undone, whatever status they had, and the answer is the difference they made |
| `Rollback.Server.DirectionalDerivative` | src/fmitcp/Server.cpp:292-333 | answers from the FMU's partials or numerically, observably without effect; fails exactly if neither is possible |
| `Rollback.Server.LookAhead` | src/fmitcp/Server.cpp:1491-1510 | on success the FMU is observably unchanged and the values are those after the step; on failure it is left where the step put it |
| `Rollback.Server.Serve` | src/fmitcp/Server.cpp:1438-1524 | a kinematic request succeeds exactly if setting, looking ahead and all derivatives do; then the FMU is observably as after setting its inputs, for any number of derivative requests, and every answer is right; the FMI calls made are those of the turn it comes down to, or the first of them if it fails |
| `Lasting.InputsAreSetAll` | src/fmitcp/Server.cpp:1453-1489 | setting the inputs of a request takes the instance where the same assignments take the network's simulator |
| `Lasting.ServeAsSimulator` | src/fmitcp/Server.cpp:1438-1524 | so serving a kinematic request has no other lasting effect on that simulator |
| `Rollback.BackupIsLatest` | tools/cgsl/src/gsl-interface.c:220-226 | after any calls the single backup holds the GSL variables of the latest save |
| `Rollback.RestoreExact` | tools/cgsl/src/gsl-interface.c:332-348 | after any calls, restoring a saved state brings it back if and only if the latest save had the same GSL variables |
| `Rollback.NestedSaveLost` | tools/cgsl/src/gsl-interface.c:220-226 | two saves around a step: the first state does not come back |
| `Linear.NumericalIs` | src/fmitcp/Server.cpp:1676-1731 | for outputs affine in the inputs, the numerical derivative is the weighted sum of slopes less what repeated inputs count twice, for every seed |
| `Linear.NumericalIsAnalytic` | src/fmitcp/Server.cpp:1676-1731 | it equals the FMU's own answer if and only if that overlap is zero, in particular for distinct inputs |
| `Linear.RepeatedInputDiffers` | src/fmitcp/Server.cpp:1676-1731 | a concrete affine model asked with its input named twice: the numerical derivative is 1 where the weighted sum is 2 |
| `Linear.NoStepDifference` | src/fmitcp/Server.cpp:1681-1731 | with a step size that is not positive nothing is stepped, and the answer is the direct effect of raising the inputs |
| `CallSequence.Perform` | tools/fmi2template/fmuTemplate.h:22-54 | any call on an instance, with any arguments, moves it as the life cycle says; a call outside its mask fails and ends in the error state, and an allowed one fails only for a non-positive step or unknown references |
| `CallSequence.LegalNeverErrs` | tools/fmi2template/fmuTemplate_impl.h:56-65 | a sequence of allowed calls never reaches the error state |
| `CallSequence.TurnLegal` | src/fmitcp/Server.cpp:1438-1519 | every request of the running phase is allowed, and only a step leaves the just-initialized state |
| `CallSequence.MasterRunLegal` | src/master/main.cpp:949-1130 | every run of the master makes only allowed calls and ends with the instance freed |
| `CallSequence.MasterNeverErrs` | src/master/main.cpp:949-1130 | at no point of any run, complete or cut short, is the instance in the error state |
| `CallSequence.EarlyGetErrs` | tools/fmi2template/fmuTemplate.h:36-39 | reading an output before initialization mode is not allowed and ends in the error state |
| `Storage.TilesOwner` | include/common/fmigo_storage.h:51-64 | every buffer position lies in exactly one client's slice |
| `Storage.FmigoStorage.Allocate` | src/common/fmigo_storage.cpp:37-52 | slices of the given sizes, one after another, cover the zeroed buffer and its backup |
| `Storage.FmigoStorage.constructor` | src/common/fmigo_storage.cpp:54-60 | all four kinds are allocated consistently |
| `Storage.FmigoStorage.PushTo` | src/common/fmigo_storage.cpp:114-126 | replaces the client's slice and no other of any kind; refuses a wrong size |
| `Storage.FmigoStorage.PastEvent` | src/common/fmigo_storage.cpp:165-173 | true exactly if an indicator of the client changed sign against the backup |
| `Storage.FmigoStorage.CopyAllStates` | include/common/fmigo_storage.h:51-58 | copying slice by slice copies the whole buffer |
| `Storage.ModelExchangeStepper.StoreStates` | src/master/modelExchange.cpp:298-314 | what is kept is the simulation as it is, with the states the FMUs report |
| `Storage.ModelExchangeStepper.RestoreStates` | src/master/modelExchange.cpp:275-290 | the simulation returns to what was kept, which stays kept |
| `Storage.ModelExchangeStepper.Retry` | src/master/modelExchange.cpp:275-314 | after any mix of pushes and integration, one or more restores return states, derivatives, time and step size to the last store |
| `Storage.ModelExchangeStepper.RestoredBeforeEvent` | src/master/modelExchange.cpp:275-290 | right after a restore no client is past an event |
| `Sax.AtoiDecimal` | src/master/parseargs.cpp:279-279 | a decimal id is read back |
| `Sax.HandledKeepsStack` | src/master/parseargs.cpp:210-305 | no event that is handled upsets the pointer stack |
| `Sax.RunKeepsStack` | src/master/parseargs.cpp:166-305 | for every sequence of events that does not stop, the pointer stack designates the open nodes, each a child of the one below |
| `Sax.DocumentRun` | src/master/parseargs.cpp:210-305 | the events of any document, in any interleaving and with text in any pieces, build exactly the tree that it means |
| `Sax.FitsIff` | src/master/parseargs.cpp:247-250 | a document fits if and only if no f is empty and fewer than 256 elements are nested |
| `Sax.LeavesCommute` | src/master/parseargs.cpp:143-146 | where an f stands among the serials of a parallel does not matter |
| `Sax.WriteParallel` | src/master/parseargs.cpp:143-161 | every tree over nonnegative ids is the meaning of some document without empty f |
| `Sax.HeightIsNesting` | src/master/parseargs.cpp:143-161 | a document nests exactly as deep as the tree that it means |
| `Sax.TreeReadBack` | src/master/parseargs.cpp:210-305 | every tree over nonnegative ids is written to a document that is read back as that tree if it nests fewer than 256 elements, and refused otherwise |
| `Sax.ParserStruct.StartElement` | src/master/parseargs.cpp:210-252 | opens the element in the node one level up, or stops on a wrong tag or too deep nesting; keeps the stack |
| `Sax.ParserStruct.EndElement` | src/master/parseargs.cpp:268-305 | puts a read id into the node one level up, or stops on an empty f; keeps the stack |
| `Sax.ReadDocument` | src/master/parseargs.cpp:370-389 | a document is read as the tree that it means, and refused exactly if it does not fit |
| `Escape.LauncherEscapes` | tools/ssp/ssp-launcher.py:174-175 | the three sequential replacements are the character-wise escape |
| `Escape.EscapeSplit` | src/master/parseargs.cpp:90-120 | the loop computes the split: fields unescaped, stops on a bad escape or a trailing backslash |
| `Escape.SplitJoin` | src/master/parseargs.cpp:90-120 | splitting the join of escaped fields returns exactly the fields, for all strings |
| `Escape.ParseValues` | src/master/parseargs.cpp:478-485 | values are split at colons, then each part at commas |
| `Escape.EscapedTwice` | src/master/parseargs.cpp:478-485 | fields escaped twice are what the two splits return |
| `Escape.RawSplit` | src/master/parseargs.cpp:90-120 | unescaped fields survive a split at commas if and only if none holds a comma or a backslash |
| `Escape.EscapedOnce` | src/master/parseargs.cpp:478-485 | fields escaped once, as the launcher does, survive the two splits if and only if none holds a comma or a backslash |

## Left out

- ZeroMQ, MPI, sockets, poll timing and real-time pacing: channels are ordered sequences, and which message arrives when is a free choice.
- Protobuf messages other than the hand-written get_real and set_real encodings.
- FMILib, GSL, expat and lxml themselves, and HDF5 and Matlab output.
- The SPOOK solver: the forces of a kinematic step are arbitrary.
- Model-exchange event location (solveME, stepToEvent) and FMUs of both kinds in one storage: client ids are storage positions.
- The control port and CSV inputs, which set variables outside the cache and the send phase of wait().
- The geometry of strong couplings; the Jacobian elements are given.
- Rounding, NaN and signed zero: doubles are exact reals, and a sign is "less than zero".
- The rest of the launcher and of the option parser, pygo, and the wrapper and header generators.
- Network.Net.LookAhead: takes the look-ahead of a request as rolled back, as `Lasting.ServeAsSimulator` proves it for a server over the FMU template.
- Network.Net.Wait: clients are flushed one after another; that the order of arrival does not matter is the subject of `Protocol`.
- Network.Net.Crank: the states are proved for networks whose FMUs obey the law of assignment for real inputs; for others the code depends on the order of set calls, as `Simulators.CommutingNeeded` shows. "Stops exactly if" leaves out FMUs that report an error: in the code a bad status of a set, get or step is fatal.
- StrongMaster.Master.RunIteration: "succeeds exactly if" likewise takes every FMU call to succeed, and so do the results built on it; a bad status of a reply ends the program (src/fmitcp/Client.cpp:98-111).
- Steps.Simulate: pausing, user parameters from CSV and reading outputs for printing between steps are not modelled.
- RendCheck.CheckRends: for a parent id outside the range the code writes `clientrend[id]`, out of bounds, before it checks the range (src/master/StrongMaster.cpp:39-46); here that is a plain stop.
- FmuTemplate.ModelInstance.Set: models generated getters and setters, for which an unknown reference is an error return; that reals may also be set in continuous-time mode, which co-simulation never enters, and recomputing outputs in initialization mode are not modelled.
- Protocol.Exchange.Wait: says nothing about when replies arrive; it either returns settled or gives up after the allowed number of polls.
- Mobility.Kinematics.Derivatives: takes as given that every open FMU's request is sent and answered, one answer per request in order.
- Sax.ParserStruct.StartElement: pointers are paths from the root, so reallocation of a vector is not modelled; following a NULL or mistyped pointer counts as stopping.
- Storage.ModelExchangeStepper.StoreStates: the states that the FMUs report are a parameter.
