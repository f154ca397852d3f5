# KernelLeaf, verified

A Dafny model of the parts of KernelLeaf whose correctness spans many functions or many
processes, with proofs for all inputs and all runs. Arithmetic is over the reals.

* **Sparse sharded parameter server** (`SparseProtocol`, `SparseShard`, `SparseServer`,
  `SparseLedger`, `SparseFailures`, `SparseLosses`, `SparseBook`, `SparseAnswers`, `SparseWrites`,
  `SparseModes`, `SparseClocks`, `SparseLr`, `SparseCluster`, `SparseProgress`).
  A shard keeps updates per worker and clock, a sync barrier, immediate async pushes and a switch
  between the modes that flushes pending work. `SparseShard` gives each request as a function; the
  class in `SparseServer` updates its fields in place and is proved to do the same, errors half-way
  included. A push that waits is a program counter, each pass through its loop one atomic step.
  `SparseLedger` follows every accepted update through any run of additive updates of one length
  per key; `SparseFailures` says exactly when barriers and flushes fail and what is then lost, and
  `SparseLosses` keeps the account of all runs, losses included. `SparseBook` follows each accepted
  push until it is applied or lost, and `SparseAnswers` compares that with what the push is told.
  `SparseWrites` says what a pull reads after any run, sets included, `SparseModes` who is sync and
  whom a sync shard waits for, and `SparseClocks` whom a round releases. `SparseLr` is the training
  loop, its gradient and its step, also said without the loops.
  `SparseCluster` runs logistic-regression workers against several shards, and `SparseProgress`
  shows that those runs move and end.
* **Dense synchronous parameter server** (`DenseServer`, `DenseWorker`, `DenseTraining`,
  `DenseCluster`, `DenseTimeouts`). Server, worker and client loop as classes, and their product:
  every order of requests and responses and every clock reading is a run. It is compared with the
  single-process loop and its schedule of batches; the optimizer is any deterministic function that
  keeps shapes. `DenseTimeouts` says over whole runs when a heartbeat timeout fails the job, and for
  whom.
* **Reverse-mode differentiation** (`Autograd`, `FirstOrder`, `Derivative`). The depth-first sort,
  the accumulation of adjoints, and the proof that the stored gradients are the derivative:
  adjoints are the transpose of dual-number tangents, and those are true slopes.
* **Data loader** (`DataLoader`, `Batching`). Producer, workers and consumer take turns in any
  order; delivery is the synchronous one, slots are conserved, nothing deadlocks.
* **Convolution and pooling** (`Layout`, `Conv`, `ConvBackward`, `Pool`, `ConvTiles`). Naive and
  chunked forms, forward and backward, compute the same sums; the gradients are transposes; the
  direct pooling path is the scatter; the tiled kernel loads and stores the right elements, each
  output once.
* **Wire** (`Framing`, `Codec`, `JsonSyntax`, `Utf8`). Length-prefixed frames over arbitrary
  fragments, the JSON form of values with arrays, its compact text with sorted keys, and UTF-8.

`Sums`, `Arithmetic` and `Decimals` hold the finite sums, integer quotients and decimal texts the
others share.

Five facts about the shard shape its theorems.

* Work can be lost. A barrier takes contributions out of the pending table before it merges and
  applies them (`experiments/distributed/runtime/server.py:160-166`), and a flush takes out slot
  after slot (`experiments/distributed/runtime/server.py:205-210`), so a raise on the way drops what
  was taken out and not applied. A barrier raises if and only if two of its entries for one key mix
  operations or additive lengths, or one adds a length other than the stored one (`BarrierExact`).
  A switch to async raises if and only if some pending entry, in flush order, adds a length other
  than that of the closest value of its key before it (`ModeFailsExactly`); it then leaves an async
  shard with later slots still pending (`ModeFailureLeaves`). Each failure is reached from a new
  shard by registrations and pushes (`ConflictLosesBoth`, `MismatchLosesWork`, `SwitchStrandsWork`).
* A sync shard waits only for workers that are registered and declared sync. A registration declares
  the shard's mode, a targeted switch its worker and a global switch to a new mode everybody
  (`RegistrationDeclares`, `SwitchDeclares`). After a global switch to sync, and as long as nobody
  switches back, nothing is applied until every worker has pushed one same clock, before or since
  (`SwitchMakesAllWait`); a round that is applied releases all of them (`RoundReleasesAll`).
* The account stays exact. For any requests, values plus pending plus dropped is initial plus
  accepted, at every coordinate of a key that is only added to (`EverythingIsAccounted`), and nothing
  is dropped if and only if every request meets those conditions (`NothingIsDroppedExactly`).
* A success may be untrue. A waiting push is told "switched" because the shard is async, and "joined"
  because its worker's clock has moved on and its slot is gone
  (`experiments/distributed/runtime/server.py:135-153`); neither looks at what became of its entries.
  From a new shard, a push lost in a conflict is later told either (`LostYetSwitched`,
  `LostYetJoined`), and one that a failed switch left pending is told that it switched or was applied
  (`StrandedYetSwitched`, `StrandedYetApplied`). Over any run, a success is true if and only if no
  request has lost the push's entry and the answer does not leave its slot behind on an async shard
  or with a worker no longer sync (`SuccessMeansApplied`); the answer given at once is always true
  (`FirstAnswerIsTrue`), and so is every success in a run of clean requests (`CleanRunsAnswerTruly`).
* A push whose barrier timed out leaves its entries pending
  (`experiments/distributed/runtime/server.py:180-185`), so an error does not mean the update will
  not be applied; the ledger keeps such updates open until a barrier or a flush settles them.

## Model

| member | source | states |
|---|---|---|
| `SparseProtocol.MergeEntries` | experiments/distributed/runtime/protocol.py:162-190 | the loop over a dictionary of merged entries computes the merge of the list, or its conflict |
| `SparseProtocol.MergeFailsExactlyOnDisagreement` | experiments/distributed/runtime/protocol.py:170-190 | merging succeeds if and only if no two updates of one key mix operations or additive lengths; the result has each key of the input exactly once |
| `SparseProtocol.MergeFromShape` | experiments/distributed/runtime/protocol.py:166-190 | the same, starting from entries already merged: which batches can join which |
| `SparseProtocol.LastSetWins` | experiments/distributed/runtime/protocol.py:172-174 | a key that is set ends with the last value given |
| `SparseProtocol.UntouchedEntryStays` | experiments/distributed/runtime/protocol.py:167-171 | entries of other keys are left as they were |
| `SparseProtocol.MergeFromKeepsTotals` | experiments/distributed/runtime/protocol.py:180-189 | merging additive updates keeps the total of every coordinate of every key |
| `SparseProtocol.MergeFromJoins` | experiments/distributed/runtime/protocol.py:166-190 | an update can join the merged entries if and only if it can join every entry they came from |
| `SparseServer.ParameterServerState.constructor` | experiments/distributed/runtime/server.py:27-64 | a new shard holds the initial values at version 1, no workers and no pending work |
| `SparseServer.ParameterServerState.EnrollLocked` | experiments/distributed/runtime/server.py:75-79 | a worker gets the shard's mode and keeps pending work and clock it already had |
| `SparseServer.ParameterServerState.RegisterWorker` | experiments/distributed/runtime/server.py:69-79 | registration as the request function says; the empty id is refused |
| `SparseServer.ParameterServerState.Pull` | experiments/distributed/runtime/server.py:81-89 | one value and version per distinct requested key, missing keys read as zero at version 0, nothing changed |
| `SparseShard.DistinctGrows` | experiments/distributed/runtime/server.py:81-82 | requested keys are answered once each, in the order in which they are first asked for |
| `SparseServer.ParameterServerState.ApplyLocked` | experiments/distributed/runtime/server.py:239-257 | entries are applied in order until one has the wrong length; those before it stay applied |
| `SparseServer.ParameterServerState.Push` | experiments/distributed/runtime/server.py:91-186 | whole state and reply of a push in either mode: enrolment, immediate apply, or pending plus the first pass through the barrier loop |
| `SparseServer.ParameterServerState.BarrierPass` | experiments/distributed/runtime/server.py:135-186 | one pass of a waiting push: switched, joined, barrier, timed out or still waiting |
| `SparseServer.ParameterServerState.CloseBarrier` | experiments/distributed/runtime/server.py:159-179 | contributions of the sync workers are taken in id order, merged and applied, and their clocks advanced; a failure keeps what was taken and applied before it |
| `SparseServer.ParameterServerState.SwitchMode` | experiments/distributed/runtime/server.py:188-220 | a mode switch, its declared worker modes and, towards async, the flush |
| `SparseServer.ParameterServerState.FlushPending` | experiments/distributed/runtime/server.py:203-213 | pending work is applied by worker and clock, each slot taken out before it is applied |
| `SparseLedger.StepIsSound` | experiments/distributed/runtime/server.py:91-220 | every request keeps the ledger invariant (pending work implies shard and worker both sync; values balance); a push that does not raise is settled exactly when its reply is not 'wait', and the only error is an expired barrier, whose update stays pending |
| `SparseLedger.RunIsSound` | experiments/distributed/runtime/server.py:91-220 | the invariant holds after every run of registrations, pushes, wake-ups, timeouts and switches, and settled updates stay settled: each is applied once |
| `SparseLedger.Conservation` | experiments/distributed/runtime/server.py:111-213 | after any run, stored value plus all pending contributions is the initial value plus every accepted update, at every coordinate |
| `SparseLedger.PushOpens` | experiments/distributed/runtime/server.py:124-132 | a sync push records exactly its entries in its worker's slot for the clock, keeps the ledger invariant, and then makes one pass through the barrier loop |
| `SparseLedger.BarrierApplies` | experiments/distributed/runtime/server.py:159-172 | a full barrier neither conflicts nor fails on additive entries of one length per key, and moves the pending totals into the values |
| `SparseLedger.BarrierMoved` | experiments/distributed/runtime/server.py:159-179 | a barrier moves exactly the slots of its clock from pending to stored |
| `SparseLedger.FlushEffect` | experiments/distributed/runtime/server.py:203-213 | the unmerged flush adds the pending totals of its slots to the values, like the merged barrier |
| `SparseLedger.AllSlotsComplete` | experiments/distributed/runtime/server.py:205-207 | the flush visits every pending slot exactly once |
| `SparseLedger.PassMoved` | experiments/distributed/runtime/server.py:135-186 | a pass of a waiting push either changes nothing or moves whole pending slots to the values |
| `SparseLedger.SetModeMoved` | experiments/distributed/runtime/server.py:188-220 | a switch moves whole pending slots to the values, whichever direction it goes |
| `SparseFailures.ApplyExact` | experiments/distributed/runtime/server.py:239-257 | applying stops at exactly the first entry that adds a length other than that of the closest value of its key before it, applied entries included |
| `SparseFailures.ApplyByKey` | experiments/distributed/runtime/server.py:239-257 | with one entry a key, the counted entries change their key's value as if alone and the others leave theirs |
| `SparseFailures.BarrierExact` | experiments/distributed/runtime/server.py:159-172 | a barrier applies if and only if the pending entries of the sync workers agree on operations and additive lengths and each one that adds finds its key missing or as long; it reports a conflict or a length mismatch exactly when the first or only the second part fails |
| `SparseFailures.BarrierLeaves` | experiments/distributed/runtime/server.py:160-172 | what a raising barrier leaves: the slots gone, no clock advanced; after a conflict nothing else changed, after a mismatch some first merged entries applied and the rest gone |
| `SparseFailures.FailedRoundTimesOut` | experiments/distributed/runtime/server.py:135-185 | directly after a failed barrier the other pushes of that clock are told nothing: their next pass waits or times out; what they may be told later is in `SparseAnswers.SuccessMeansApplied` |
| `SparseFailures.DisagreementLosesWork` | experiments/distributed/runtime/server.py:160-165 | two sync workers whose entries for a key disagree: the barrier raises and every contribution of that clock is gone without being applied |
| `SparseFailures.FlushIsApply` | experiments/distributed/runtime/server.py:203-213 | a flush applies the entries of its slots as one list, up to the same first misfit |
| `SparseFailures.SlotsInOrder` | experiments/distributed/runtime/server.py:205-207 | the flush visits slots by worker and, for one worker, by clock |
| `SparseFailures.ModeFailsExactly` | experiments/distributed/runtime/server.py:188-213 | a switch fails if and only if it goes from sync to async and some pending entry does not fit when its turn in the flush comes |
| `SparseFailures.ModeFailureLeaves` | experiments/distributed/runtime/server.py:195-213 | what a failing switch leaves: mode async, the slots before the failing one applied, that one gone with the entries before its misfit applied, later ones pending on an async shard |
| `SparseFailures.ConflictLosesBoth` | experiments/distributed/runtime/server.py:124-165 | from a new shard with two workers: any two entries that disagree make the second push raise, and both contributions are gone |
| `SparseFailures.MismatchLosesWork` | experiments/distributed/runtime/server.py:159-166 | from a new shard with one worker: an additive entry of the wrong length makes its push raise, and it is gone from the pending table with no value changed |
| `SparseFailures.SwitchStrandsWork` | experiments/distributed/runtime/server.py:203-213 | from a new shard with two waiting pushes: the switch fails on the first one's entry, which is gone, and strands the second one's on an async shard |
| `SparseLosses.PushIs` | experiments/distributed/runtime/server.py:91-132 | a push is refused, values and slots untouched, if and only if it lacks an id, has a negative clock, or its entries disagree with each other or with its slot; otherwise it applies at once or makes its pass |
| `SparseLosses.RefusedFor` | experiments/distributed/runtime/server.py:97-103 | which refusal a push gets: for the empty id, for a negative clock, or for entries that disagree |
| `SparseLosses.DropsNothingIfClean` | experiments/distributed/runtime/server.py:91-220 | a request leaves no accepted entry unapplied and off the table if and only if it meets its condition on the tables before it |
| `SparseLosses.DropsAreRaised` | experiments/distributed/runtime/server.py:91-220 | a request that drops accepted entries answers with a conflict, a length mismatch or a failed switch, and an accepted one answers so only then |
| `SparseLosses.ServeHeld` | experiments/distributed/runtime/server.py:91-220 | for one request of any kind: values plus pending plus dropped afterwards is values plus pending plus accepted before |
| `SparseLosses.EverythingIsAccounted` | experiments/distributed/runtime/server.py:91-220 | over any run, whatever happens to other keys: values plus pending plus dropped is initial plus accepted, at every coordinate of a key only added to |
| `SparseLosses.NothingIsDroppedExactly` | experiments/distributed/runtime/server.py:91-220 | a run drops nothing if and only if each request is clean in the state it finds |
| `SparseBook.EnterTickets` | experiments/distributed/runtime/server.py:91-220 | after every request each accepted push is applied, lost, or still has its slot pending, never two of these |
| `SparseBook.EnterExact` | experiments/distributed/runtime/server.py:91-220 | every request, failing or not, keeps the book exact for a key it only adds to: the stored value is the initial one plus the applied pushes, and the pending table holds what the pending pushes brought |
| `SparseBook.StoredIsApplied` | experiments/distributed/runtime/server.py:91-220 | over any run the stored value of a key only added to is its initial value plus the pushes that were applied; those lost or pending contribute nothing |
| `SparseAnswers.EnterLoses` | experiments/distributed/runtime/server.py:91-220 | which pushes a request loses, read off the tables before it: those of the round that its barrier takes out, or of the slot at which its flush stops, if the key is among what is left over |
| `SparseAnswers.LostExactly` | experiments/distributed/runtime/server.py:91-220 | a push is lost after a run if and only if one of the run's requests loses it |
| `SparseAnswers.SuccessMeansApplied` | experiments/distributed/runtime/server.py:135-179 | over any run, a waiting push answered with success has been applied if and only if no request of the run lost its entry and it is not still pending; it is still pending if and only if it was and the answer leaves its slot behind |
| `SparseAnswers.FirstAnswerIsTrue` | experiments/distributed/runtime/server.py:111-179 | a push that is accepted and at once answered with success has been applied, at every key and after any run |
| `SparseAnswers.CleanStays` | experiments/distributed/runtime/server.py:91-220 | over a run of clean requests pending work implies that shard and worker are sync, whatever the entries |
| `SparseAnswers.CleanRunsAnswerTruly` | experiments/distributed/runtime/server.py:135-179 | over a run of clean requests every success means that the push has been applied |
| `SparseAnswers.LostYetSwitched` | experiments/distributed/runtime/server.py:136-142 | from a new shard: a push lost to a conflict, then a successful switch to async with no value changed, then the answer "switched" |
| `SparseAnswers.LostYetJoined` | experiments/distributed/runtime/server.py:143-153 | from a new shard: a push lost to a conflict, then both workers repeat the clock with another key, then the answer "joined" while the lost push's key has its initial value |
| `SparseAnswers.StrandedYetSwitched` | experiments/distributed/runtime/server.py:136-142 | from a new shard: a failed switch leaves a push pending with no value changed, and it is told that it switched |
| `SparseAnswers.StrandedYetApplied` | experiments/distributed/runtime/server.py:154-179 | then a third worker is declared sync: no registered worker is, the barrier closes over nobody and tells the pending push that it was applied |
| `SparseWrites.ApplyWrites` | experiments/distributed/runtime/server.py:239-257 | after applying, each stored value is the last one set for its key, or else the one before, plus every later addition, coordinate by coordinate and all of one length; versions and clock count the applied entries |
| `SparseWrites.MergedWrites` | experiments/distributed/runtime/protocol.py:162-190 | applying merged entries leaves the values that applying the entries they came from would leave, sets included |
| `SparseWrites.GroupedIsListed` | experiments/distributed/runtime/server.py:159-164 | a round's entries are those of the sync workers' slots in the order of the worker ids |
| `SparseWrites.BarrierWrites` | experiments/distributed/runtime/server.py:159-166 | a round that is applied leaves the values of its workers' pending entries applied in the order of their ids |
| `SparseWrites.FlushWrites` | experiments/distributed/runtime/server.py:203-213 | a switch to async leaves the values of the backlog applied in flush order up to the first misfit, and succeeds if and only if there is none |
| `SparseWrites.PushIsRead` | experiments/distributed/runtime/server.py:111-122 | after an async push that succeeds a pull of any key reads the last value the push set, or else the one read before, plus what it added since |
| `SparseWrites.RoundIsRead` | experiments/distributed/runtime/server.py:159-179 | the same after a round, over the entries of all its workers: of values set for a key, that of the last worker by id |
| `SparseWrites.FlushIsRead` | experiments/distributed/runtime/server.py:188-220 | the same after a successful switch to async, over all pending entries by worker and clock |
| `SparseWrites.RunRecords` | experiments/distributed/runtime/server.py:81-220 | after any run, failing requests included, a pull reads the last value the run wrote with a set, or else the one before the run, plus everything it wrote with an addition since; versions and clock count what was written |
| `SparseWrites.NewIsRead` | experiments/distributed/runtime/server.py:44-63 | a new shard reads its initial values at version 1 and any other key as zero at version 0 |
| `SparseWrites.AnswersCount` | experiments/distributed/runtime/server.py:69-220 | every answer of an applied push, a round or a switch reports as many entries as the request wrote and the shard's clock after it |
| `SparseModes.SwitchDeclares` | experiments/distributed/runtime/server.py:188-202 | a targeted switch declares its worker, also when the shard is in that mode already; a global switch to a new mode declares every registered worker; all other declarations stay |
| `SparseModes.RegistrationDeclares` | experiments/distributed/runtime/server.py:69-79 | a registration declares the shard's mode for its worker and leaves other workers, all pending work and all clocks as they were |
| `SparseModes.NothingTakenBeforeAll` | experiments/distributed/runtime/server.py:135-166 | on a sync shard whose workers all are sync, over any requests but switches to async: while a registered worker neither had a clock pending nor has pushed it, every slot of that clock stays pending |
| `SparseModes.NothingAppliedBeforeAll` | experiments/distributed/runtime/server.py:135-166 | over such a run, if any value, version or the clock has changed, there is a clock that every worker registered at its start had pending or has pushed |
| `SparseModes.PushIsHeld` | experiments/distributed/runtime/server.py:124-186 | a push to such a shard gets no success while somebody has not pushed its clock, and an accepted one stays pending |
| `SparseModes.SwitchMakesAllWait` | experiments/distributed/runtime/server.py:188-202 | after a global switch from async to sync, over any run without a switch back, nothing is applied until every worker registered at the switch has one clock pending from before or has pushed it since |
| `SparseClocks.RoundClocks` | experiments/distributed/runtime/server.py:167-172 | a round that is applied raises the applied clocks of exactly its workers, one that raises none |
| `SparseClocks.PushNowClocks` | experiments/distributed/runtime/server.py:111-116 | a push applied at once raises its worker's clock if it succeeds, and no other |
| `SparseClocks.SwitchClocks` | experiments/distributed/runtime/server.py:203-213 | a flush raises clocks to the highest of the slots it has applied, all of them if it succeeds, and never lowers one |
| `SparseClocks.RoundReleasesAll` | experiments/distributed/runtime/server.py:135-153 | once a round has been applied, whatever requests follow, the next wake-up of any sync worker that waited for it answers with success and changes nothing |
| `SparseLr.RowGradientLocal` | experiments/distributed/sparse_lr.py:83-91 | a row's gradient depends only on the bias and the row's own features, so pulling those keys is enough |
| `SparseLr.FeatureKeysDiffer` | experiments/distributed/sparse_lr.py:17-21 | every feature has its own key, and none has the key of the bias |
| `SparseLr.RowGradientExact` | experiments/distributed/sparse_lr.py:81-91 | a row's gradient is the logistic function of its score minus its target at the bias, that times its value at each of its features, and zero at every other key; the score is the bias weight plus the sum of weight times value |
| `SparseLr.DescentExact` | experiments/distributed/sparse_lr.py:323-355 | the weights after each epoch are exactly those of descent from zero: each epoch changes a weight, times the sample count, by minus the rate times the sum of the rows' gradients at its key |
| `SparseLr.StrideSplit` | experiments/distributed/sparse_lr.py:185 | rows dealt out by stride: the workers' sums add up to the sum over all rows |
| `SparseLr.BatchGradients` | experiments/distributed/sparse_lr.py:81-91 | the loops over a batch compute the sum of its row gradients at every key |
| `SparseLr.EpochGradients` | experiments/distributed/sparse_lr.py:330-348 | the batched loop of an epoch accumulates the gradient sum over all rows, whatever the batch size |
| `SparseLr.ScaledUpdates` | experiments/distributed/sparse_lr.py:47-54 | every key's update times the sample count (at least 1) is minus the learning rate times its gradient; no key is added or dropped |
| `SparseLr.RunBaseline` | experiments/distributed/sparse_lr.py:323-355 | the local baseline ends with the weights of full-batch descent after all epochs, missing keys read as zero: of any path from zero that moves in each epoch as `SparseLr.DescentExact` says |
| `SparseCluster.RoundIsEpoch` | experiments/distributed/sparse_lr.py:95-104 | the workers' updates of one round add up to one baseline epoch step at every key |
| `SparseCluster.GroupShape` | experiments/distributed/runtime/client.py:122-139 | the group sent to a shard carries the update of every key that hashes there and nothing else |
| `SparseCluster.BarrierFinishesRound` | experiments/distributed/runtime/server.py:159-179 | a full barrier takes a shard from the values of one round to those of the next |
| `SparseCluster.PullSeesEpoch` | experiments/distributed/runtime/client.py:86-100 | while a worker pulls, every shard has finished exactly the worker's past rounds and holds the baseline's weights of its epoch |
| `SparseCluster.NextKeeps` | experiments/distributed/sparse_lr.py:203-223 | every step of every worker keeps the cluster invariant: workers within one round of each shard, each shard holding the baseline's weights of its round, pending slots holding the round's updates |
| `SparseCluster.BulkSynchronousPulls` | experiments/distributed/runtime/server.py:135-179 | in every interleaving, a worker that pulls a key in epoch e reads the weight of full-batch descent after e epochs: the updates of all workers for all clocks below e and nothing of clock e |
| `SparseCluster.TrainsTheBaseline` | experiments/distributed/sparse_lr.py:57-109 | in every interleaving, for every number of workers and shards and every order of the worker ids: once all have finished, the shards together hold the weights of the baseline, which are those of full-batch descent |
| `SparseCluster.Progress` | experiments/distributed/runtime/server.py:135-186 | until all have finished, some worker has a request that neither fails nor wakes in vain |
| `SparseProgress.RequestsNeverFail` | experiments/distributed/runtime/server.py:91-186 | in every state of every run, whatever request a worker sends next is not answered with an error |
| `SparseProgress.StepExists` | experiments/distributed/sparse_lr.py:57-109 | a worker that has not finished always has its next pull, computation, push, wake-up or epoch |
| `SparseProgress.NextShrinks` | experiments/distributed/sparse_lr.py:203-223 | a step changes nothing, being a vain wake-up, or strictly lowers the work left |
| `SparseProgress.ChangesAreBounded` | experiments/distributed/sparse_lr.py:203-223 | in every run only a bounded number of steps change anything |
| `SparseProgress.RunsCanFinish` | experiments/distributed/sparse_lr.py:203-223 | every run can go on until every worker has finished |
| `SparseProgress.SomeRunTrains` | experiments/distributed/sparse_lr.py:164-223 | every setup has a complete run, and it ends with the weights of full-batch descent |
| `DenseServer.PayloadError` | kernelleaf/distributed/parameter_server.py:182-232 | a gradient payload is accepted if and only if its count is positive and its shapes are the schema's |
| `DenseServer.HandleKeepsInv` | kernelleaf/distributed/parameter_server.py:308-379 | for any request at all: pending submissions stay registered, well shaped and short of the full worker set, and none remain once the job failed |
| `DenseServer.FailureIsFinal` | kernelleaf/distributed/parameter_server.py:313-316 | once a timeout has failed the job every request is refused and nothing changes |
| `DenseServer.RefusalsExact` | kernelleaf/distributed/parameter_server.py:308-379 | who is turned away and why, as if-and-only-ifs; an error on a live job changes neither parameters nor step nor pending work, and every reply carries the request's id and the step reached |
| `DenseServer.StepAnswers` | kernelleaf/distributed/parameter_server.py:331-371 | what a registered worker of a live job is answered to a push and to a pull, by its step |
| `DenseTimeouts.HandleNotes` | kernelleaf/distributed/parameter_server.py:308-331 | a request is noted as a sign of life, at the time of its second clock reading, if and only if its sender is not turned away |
| `DenseTimeouts.ExpiredExactly` | kernelleaf/distributed/parameter_server.py:276-284 | over any run, a check finds exactly the workers that have joined and whose last accepted request was read more than the limit before |
| `DenseTimeouts.FailsExactly` | kernelleaf/distributed/parameter_server.py:276-295 | over any run the job has failed if and only if at some request or check some joined worker was overdue, and it names exactly the workers overdue at the first such call |
| `DenseTimeouts.LivelyRunsSucceed` | kernelleaf/distributed/parameter_server.py:276-295 | a run in which no worker's last accepted request is ever more than the limit before a check never fails |
| `DenseTimeouts.NeverFails` | kernelleaf/distributed/parameter_server.py:276-278 | without a limit no run fails |
| `DenseServer.AdvancesExactlyOnLastSubmission` | kernelleaf/distributed/parameter_server.py:345-368 | the step and parameters change if and only if the request is the valid submission that completes the worker set, and then by one step |
| `DenseServer.ParameterServer.CheckTimeoutsLocked` | kernelleaf/distributed/parameter_server.py:276-290 | which workers expired; the first expiry fails the job and drops pending work |
| `DenseServer.ParameterServer.TotalSamples` | kernelleaf/distributed/parameter_server.py:235-238 | the sample count of all submissions |
| `DenseServer.ParameterServer.Accumulate` | kernelleaf/distributed/parameter_server.py:240-247 | the in-place accumulation gives the sample-weighted sum at every coordinate |
| `DenseServer.ParameterServer.ApplyPendingGradients` | kernelleaf/distributed/parameter_server.py:234-262 | every parameter gets its weighted average, the optimizer steps once, the step advances and pending is cleared |
| `DenseServer.ParameterServer.HandleMessage` | kernelleaf/distributed/parameter_server.py:308-379 | whole new state and reply, for every request and error code modelled |
| `DenseWorker.PollingInstalls` | kernelleaf/distributed/runtime.py:63-90 | after any number of waits followed by parameters the client holds exactly those parameters, having sent one poll per wait for the version after its own |
| `DenseWorker.InstallsExactly` | kernelleaf/distributed/worker.py:103-173 | parameters are installed if and only if they answer the request sent, are no older than those held and have the schema's shapes; nothing else moves the version, and of misshapen ones the entries before the first misfit are copied |
| `DenseWorker.Worker.AcceptParameters` | kernelleaf/distributed/worker.py:103-155 | a response is checked and copied entry by entry; a misshapen entry raises with the earlier ones already copied |
| `DenseWorker.Worker.HandleResponse` | kernelleaf/distributed/worker.py:157-173 | request id check, then accept, keep waiting, acknowledge or raise |
| `DenseWorker.Worker.PushGradientsAndWait` | kernelleaf/distributed/runtime.py:51-90 | the push-and-poll loop over whatever responses arrive is the fold of single responses |
| `Batching.ChopCovers` | apps/distributed_mnist.py:122-125 | cutting into batches keeps every index once and in order |
| `Batching.ChopSizes` | apps/distributed_mnist.py:122-125 | all batches are full but the last, which holds the remainder |
| `DenseTraining.GlobalBatchesExact` | apps/distributed_mnist.py:117-131 | an epoch can be planned if and only if its last batch has a sample for every worker; the plan covers the epoch in order |
| `DenseTraining.ScheduleExact` | apps/distributed_mnist.py:193-194 | the schedule goes through every sample of every epoch in order; no batch crosses an epoch, all but an epoch's last are full, and there are as many as the lengths over the batch size rounded up |
| `DenseTraining.ScheduleIgnoresWorld` | benchmarks/bench_distributed.py:39-50 | planning for one process gives the same batches as planning for all workers |
| `DenseTraining.TrainingExact` | benchmarks/bench_distributed.py:39-50 | the reference models are exactly those of one optimizer step per scheduled batch on the gradient whose multiple by the batch size is the sum of the samples' gradients |
| `DenseTraining.StartGrows` | apps/distributed_mnist.py:200-202 | the split of a batch among the workers stays in range and gives every worker a sample when there are enough |
| `DenseTraining.AverageIsGlobalMean` | kernelleaf/distributed/parameter_server.py:239-246 | the sample-weighted average of the local mean gradients is the mean over the whole global batch |
| `DenseTraining.RunSingleProcess` | benchmarks/bench_distributed.py:39-50 | the sequential loop over epochs and batches takes as many steps as the epochs have batches, by the sum of their lengths over the batch size rounded up, and ends with the model of that many optimizer steps on mean gradients; it raises if and only if some epoch cannot be planned, with the epochs before it trained |
| `DenseCluster.StepKeeps` | kernelleaf/distributed/parameter_server.py:308-379 | every composition, request, response and timeout check keeps the joint invariant of server and workers |
| `DenseCluster.TrainsLikeOneProcess` | kernelleaf/distributed/parameter_server.py:234-262 | in every interleaving, also with timeouts: the server at step t holds the single process's model after t steps, a worker at version v holds its version v, and no worker is more than one version behind |
| `DenseCluster.TrainsOnMeanGradients` | kernelleaf/distributed/parameter_server.py:234-262 | the same of any sequence of models that takes one optimizer step on the mean gradient of each scheduled batch |
| `DenseCluster.JointInvariant` | kernelleaf/distributed/parameter_server.py:345-366 | pending is a proper subset of the workers, each at the server's step; no worker ever receives an error or raises unless a timeout has failed the job, and then pending is empty |
| `DenseCluster.StoppedMeansTrained` | apps/distributed_mnist.py:193-242 | a worker that has shut down holds the model after one optimizer step on the mean gradient of every batch of every epoch |
| `DenseCluster.MoveProgress` | kernelleaf/distributed/runtime.py:63-90 | without timeouts every step but the poll of a pending worker strictly lowers the work left, and no step raises it |
| `DenseCluster.SomebodyMoves` | kernelleaf/distributed/parameter_server.py:336-368 | while a worker has not stopped, some worker can take a step that is not a fruitless poll |
| `DenseCluster.UsefulMovesAreBounded` | kernelleaf/distributed/runtime.py:51-90 | any schedule holds a bounded number of useful steps |
| `DenseCluster.Progress` | apps/distributed_mnist.py:193-242 | every reachable state is finished, all workers holding the fully trained model, or has a step that lowers the work left |
| `Autograd.RuleIsLinear` | kernelleaf/ops/ops_mathematic.py:15-130 | every gradient rule is its own adjoint times fixed partial derivatives |
| `Autograd.Search.Visit` | kernelleaf/autograd.py:445-455 | the recursive visit places the node and only nodes it reaches, each once, inputs first, and leaves no call open |
| `Autograd.FindTopoSort` | kernelleaf/autograd.py:429-442 | the order holds exactly the nodes reachable from the given ones, each once, inputs before users |
| `Autograd.UnreachedAdjoint` | kernelleaf/autograd.py:412-415 | nodes the output does not reach have adjoint zero |
| `Autograd.CollectedIsAdjoint` | kernelleaf/autograd.py:418-426 | once all reached users of a node are done, its contributions add up to its adjoint |
| `Autograd.SweepFinds` | kernelleaf/autograd.py:411-415 | a reached node whose users are done has a list, so the skip is never taken, and its sum is its adjoint |
| `Autograd.SweepNext` | kernelleaf/autograd.py:420-426 | processing a node passes exactly its shares on, also when an input is repeated |
| `Autograd.Tape.SumNodeList` | kernelleaf/autograd.py:463-468 | the left fold of a non-empty list |
| `Autograd.Tape.Process` | kernelleaf/autograd.py:411-426 | one node: summed, kept if it is a trainable leaf, passed on; the sweep invariant holds |
| `Autograd.Tape.ComputeGradientOfVariables` | kernelleaf/autograd.py:396-426 | exactly the reached leaves that require a gradient get their adjoint, replacing the old value; every other gradient is untouched |
| `Derivative.RuleMatchesDual` | kernelleaf/ops/ops_mathematic.py:11-130 | every rule, division and negative powers included, is the transpose of dual-number arithmetic |
| `Derivative.AdjointsTransposeTangents` | kernelleaf/autograd.py:396-426 | seed times the output's forward tangent is the sum over leaves of adjoint times tangent, for every graph and direction |
| `Derivative.TangentIsSlope` | kernelleaf/ops/ops_mathematic.py:11-130 | forward tangents are true derivatives of the values: the first-order error is at most a constant times the square of the step |
| `Derivative.SeededGradients` | kernelleaf/autograd.py:396-418 | with any output gradient, the stored gradients give that multiple of the derivative along every direction of the trainable leaves |
| `Derivative.GradientsAreTheDerivative` | kernelleaf/autograd.py:396-426 | after backward with seed 1 the stored gradients are the derivative of the output with respect to the trainable leaves |
| `FirstOrder.SlopeOfProduct` | kernelleaf/ops/ops_mathematic.py:34-40 | the product rule, with an explicit quadratic error bound |
| `FirstOrder.SlopeOfInverse` | kernelleaf/ops/ops_mathematic.py:102-109 | the quotient rule's reciprocal, away from zero, with an explicit quadratic error bound |
| `Batching.ChopCount` | kernelleaf/data/data_basic.py:170-173 | the number of batches is the length over the size, rounded up |
| `DataLoader.OrderingExact` | kernelleaf/data/data_basic.py:143-173 | the ordering has as many batches as the length says and covers the shuffled indices in order; with drop_last only full batches, leaving out less than one |
| `DataLoader.AnswersAre` | kernelleaf/data/data_basic.py:189-195 | the answers are those of the batches in order up to the first error: each the batch fetched and converted, or the error of the first of these that failed |
| `DataLoader.SyncIterator.Next` | kernelleaf/data/data_basic.py:189-195 | the next batch's outcome, the index advancing also when it raises |
| `DataLoader.ReadSynchronously` | kernelleaf/data/data_basic.py:189-195 | a caller that stops at the first error sees the reference sequence of answers |
| `DataLoader.LoaderState.Produce` | kernelleaf/data/data_basic.py:337-352 | the producer's next atomic action, as the turn function says |
| `DataLoader.LoaderState.Serve` | kernelleaf/data/data_basic.py:355-371 | a worker's next atomic action |
| `DataLoader.LoaderState.Consume` | kernelleaf/data/data_basic.py:225-256 | the consumer's next atomic action: take a result, or deliver the next batch and free its slot |
| `DataLoader.TurnKeeps` | kernelleaf/data/data_basic.py:225-371 | every turn of every thread keeps the loader invariant |
| `DataLoader.SameAsSynchronous` | kernelleaf/data/data_basic.py:225-256 | in any schedule the delivered answers are a prefix of the synchronous ones, and all of them, up to the same first error, once the loader closes; answer i is the batch with number i fetched and converted, or the error of that |
| `DataLoader.SlotsAreConserved` | kernelleaf/data/data_basic.py:279-285 | free slots plus held sequences is the capacity, and each submitted undelivered sequence is in exactly one place |
| `DataLoader.QueuesHaveRoom` | kernelleaf/data/data_basic.py:313-320 | a task or result ready to be queued always finds room |
| `DataLoader.NoDeadlock` | kernelleaf/data/data_basic.py:337-371 | until the loader closes some thread has an action that is not a timed-out wait |
| `DataLoader.TurnShrinks` | kernelleaf/data/data_basic.py:225-371 | every action leaves strictly less to do |
| `DataLoader.ActionsAreBounded` | kernelleaf/data/data_basic.py:225-371 | any schedule holds a bounded number of actions |
| `DataLoader.StuckMeansDone` | kernelleaf/data/data_basic.py:225-371 | a schedule after which no thread can act has delivered everything |
| `Conv.ConvShapeExact` | kernelleaf/ops/ops_conv.py:29-60 | a convolution is planned if and only if a kernel fits, strides are positive and channels match; the output then holds every window that fits |
| `Conv.WindowSum` | kernelleaf/ops/ops_conv.py:180-189 | accumulating a window times a filter tap by tap gives the window sum |
| `Conv.ForwardNaive` | kernelleaf/ops/ops_conv.py:174-190 | the naive loops give the window sum at every output |
| `Conv.PixelInside` | kernelleaf/ops/ops_conv.py:197-217 | every gathered index lies inside the input |
| `Conv.RowIsConv` | kernelleaf/ops/ops_conv.py:221-231 | a column row times a weight row is the window sum at that output |
| `Conv.ChunkFitsLimit` | kernelleaf/ops/ops_conv.py:192-194 | a chunk has as many rows as there are, or as many as fit the limit with their column values, column gradients and outputs, and a single row if not even one fits |
| `Conv.MultiplyChunk` | kernelleaf/ops/ops_conv.py:228-231 | a chunk writes its own output rows and no other |
| `Conv.ForwardIm2col` | kernelleaf/ops/ops_conv.py:221-234 | the chunked column form gives the same window sum at every output, for every chunk size |
| `ConvBackward.Gradients.BackwardNaive` | kernelleaf/ops/ops_conv.py:260-283 | the four nested loops give both gradient sums |
| `ConvBackward.ColumnGradients.SweepChunks` | kernelleaf/ops/ops_conv.py:302-328 | all chunks together add up all rows, whatever their size |
| `ConvBackward.ColumnGradients.BackwardIm2col` | kernelleaf/ops/ops_conv.py:285-329 | the chunked scatter-add and matrix products give the same two gradient sums as the naive loops |
| `ConvBackward.ScatterIsGradX` | kernelleaf/ops/ops_conv.py:311-328 | scattering all rows onto a pixel is the sum over the outputs whose window covers it |
| `ConvBackward.UpColumnsIsGradW` | kernelleaf/ops/ops_conv.py:308 | upstream times columns, by rows, is the weight gradient sum |
| `ConvBackward.InputGradientIsTranspose` | kernelleaf/ops/ops_conv.py:260-283 | the inner product of conv(x) with g is that of x with the input gradient of g |
| `ConvBackward.WeightGradientIsTranspose` | kernelleaf/ops/ops_conv.py:260-283 | the inner product of conv(x) with g is that of the weights with the weight gradient of g |
| `Pool.PoolShapeExact` | kernelleaf/ops/ops_conv.py:388-400 | pooling is possible if and only if a window fits; the output holds every window that does |
| `Pool.ArgMax` | kernelleaf/ops/ops_conv.py:355-357 | the first position of the window's maximum |
| `Pool.GradientByScatter` | kernelleaf/ops/ops_conv.py:373-386 | the scatter-add gives every pixel the gradients of the outputs taken from it |
| `Pool.ReconstructionIsScatter` | kernelleaf/ops/ops_conv.py:359-371 | when windows tile the input, the one-hot, axis-swapped, reshaped element is the scattered sum |
| `Pool.GradientByReconstruction` | kernelleaf/ops/ops_conv.py:359-371 | the direct path computes the same gradient as the scatter |
| `Pool.Gradient` | kernelleaf/ops/ops_conv.py:347-386 | whichever path is taken, the same input gradient |
| `ConvTiles.ProgramOfTile` | kernelleaf/kernels/conv.py:41-49 | every program number has a tile of the grid, and the tile gives the number back |
| `ConvTiles.TileOfProgram` | kernelleaf/kernels/conv.py:41-49 | every tile has a program, also in a short last group: the mapping is a bijection |
| `ConvTiles.NextProgram` | kernelleaf/kernels/conv.py:41-49 | the programs of a group take its row tiles one after the other and then the next channel tile |
| `ConvTiles.StoredOnce` | kernelleaf/kernels/conv.py:91-100 | exactly one program stores each output element |
| `ConvTiles.OffsetsAreDistinct` | kernelleaf/kernels/conv.py:91-94 | store offsets stay inside the output and no two elements share one |
| `ConvTiles.LoadsAreInside` | kernelleaf/kernels/conv.py:69-88 | every unmasked load offset lies inside its flat array and holds the pixel or weight of its row, channel and tap |
| `ConvTiles.ProgramComputesConv` | kernelleaf/kernels/conv.py:60-89 | the masked blocked reduction over the values loaded from the flat arrays is the convolution at the element stored |
| `Framing.LengthOfHeader` | kernelleaf/distributed/transport.py:12-15 | the four header bytes give the length back |
| `Framing.HeadersAreOrdered` | kernelleaf/distributed/transport.py:12-15 | headers are ordered like the lengths, from the first byte on: the high byte comes first |
| `Framing.FrameRoundTrip` | kernelleaf/distributed/transport.py:40-83 | a packed frame is read back as its payload, and nothing after it is touched |
| `Framing.ReadIsPacked` | kernelleaf/distributed/transport.py:75-83 | whatever is received stood in the stream as a packed frame within the limit |
| `Framing.FramesRoundTrip` | kernelleaf/distributed/transport.py:40-83 | a list of frames is received as the same list |
| `Framing.FramesWithinExact` | kernelleaf/distributed/transport.py:40-50 | the number of frames wholly inside a cut: they end in it and the next one does not |
| `Framing.CutStreamsGivePrefixes` | kernelleaf/distributed/transport.py:53-83 | a stream cut at any byte gives exactly the frames wholly before the cut, in order, up to the number asked for |
| `Framing.Connection.RecvExact` | kernelleaf/distributed/transport.py:53-72 | in whatever pieces the bytes arrive, exactly the requested number is taken, or the peer closed first |
| `Framing.Connection.ReceiveFrame` | kernelleaf/distributed/transport.py:75-83 | one frame, an invalid length or a disconnect, with exactly the bytes consumed |
| `Framing.Connection.ReceiveFrames` | kernelleaf/distributed/transport.py:75-83 | receiving frames one by one gives the frames of the stream up to the first failure |
| `Codec.ArrayRoundTrip` | kernelleaf/distributed/serialization.py:44-61 | an encodable array decodes to itself |
| `Codec.RoundTrip` | kernelleaf/distributed/serialization.py:43-116 | whatever can be encoded decodes to the same value, up to tuples becoming lists and numpy scalars Python numbers |
| `Codec.OnlyArraysLookLikeArrays` | kernelleaf/distributed/serialization.py:64-69 | an encoded value carries the array marker if and only if it is an array |
| `Codec.EncodesExactly` | kernelleaf/distributed/serialization.py:43-80 | a value is encoded if and only if it is built of plain values, lists, tuples, text-keyed dictionaries without the reserved key, and arrays of supported types with finite floats |
| `Codec.ArraysDecodeExactly` | kernelleaf/distributed/serialization.py:83-116 | an object with the marker decodes if and only if it has the four members and nothing else, a shape, a supported type and as many convertible, finite numbers as the shape holds, and then to that array |
| `Codec.ArrayForm` | kernelleaf/distributed/serialization.py:44-61 | the object an array travels as, member by member |
| `Codec.MessagesArrive` | kernelleaf/distributed/transport.py:118-135 | messages encoded, framed and concatenated arrive as the same messages, for any text that parses what it prints |
| `JsonSyntax.ParsePrint` | kernelleaf/distributed/serialization.py:124-150 | a finite tree printed with sorted keys, escapes and no blanks parses to itself, whatever follows it in a list or object |
| `JsonSyntax.TextRoundTrip` | kernelleaf/distributed/serialization.py:124-150 | every finite tree is read back from its whole text |
| `Utf8.DecodeEncode` | kernelleaf/distributed/serialization.py:124-150 | every string is read back from its UTF-8 bytes |
| `Utf8.EncodeDecode` | kernelleaf/distributed/serialization.py:124-150 | bytes that decode are the encoding of the string they decode to: the strict decoder accepts nothing else |
| `Codec.CompactTextIsFaithful` | kernelleaf/distributed/serialization.py:124-150 | compact JSON in UTF-8 prints every finite tree and only those, and parses what it prints |
| `Codec.SendsExactly` | kernelleaf/distributed/serialization.py:124-150 | a message has bytes if and only if its values can be encoded and its numbers are finite; they are framed if and only if they fit the limit |
| `Codec.CompactMessagesArrive` | kernelleaf/distributed/transport.py:118-135 | whatever compact text can send arrives, with no assumption about the text |
| `Codec.PlainArraysAreValid` | kernelleaf/distributed/serialization.py:44-61 | with conversions that take numbers as given, an array meets what is asked of numpy if and only if its data fills its shape |

## Left out

- Floating-point rounding, dtypes, devices and GPU execution: values are reals; of the GPU kernels only the index arithmetic and the reduction are modelled.
- CRC32, shuffling and numpy conversions: parameters (a total shard function, an arbitrary order, a conversion that is the identity on an array's own data).
- JSON text: a float is written as sign, digits and exponent, not as Python's shortest decimal; reading is proved on what was printed and refuses blanks, accepts leading zeros and joins no escaped surrogate pairs; strings hold no lone surrogates.
- Sockets, gRPC, processes and clocks: delivery and clock readings are steps and parameters; a retried or duplicated request is not modelled.
- Strings as worker ids: ids are integers in the order of the strings; which number a worker was started with is a permutation that `SparseCluster` leaves arbitrary.
- SparseCluster.TrainsTheBaseline: runs without barrier timeouts and mode switches, workers registered before the first round, as the trainer arranges with its registration barrier.
- SparseCluster.Progress: without barrier timeouts; fairness of the scheduler is not modelled, so what is proved is that some useful step is always there and that only boundedly many are.
- SparseLedger.Conservation: entries are additive with one length per key and a worker has one push outstanding; all other runs are in `SparseLosses.EverythingIsAccounted`.
- SparseFailures.FailedRoundTimesOut: one pass, directly after the failure; over runs the statement would be false, and `SparseAnswers` has the witnesses and the exact condition.
- SparseBook.StoredIsApplied: for a key that is also set the book says only which pushes were taken out and not dropped; what such a key holds is `SparseWrites.RunRecords`.
- SparseLosses.EverythingIsAccounted: a key that is also set has no conserved total; what it holds is `SparseWrites.RunRecords`.
- SparseServer.ParameterServerState.constructor: shard numbers, mode names, timeout and the conversion of initial scalars are not checked or modelled.
- DenseWorker.Worker.AcceptParameters: names and dtypes of entries and clearing stale gradients are not modelled; position stands for name.
- Conv.ConvShapeExact: rank, dtype and device checks are not modelled; dimensions are given as four numbers.
- Framing.Connection.RecvExact: socket timeouts and operating-system errors are not modelled, only data and an orderly close.
- Codec.ArrayRoundTrip: numpy's conversion of an array to lists and back is assumed to give the array's own data.
- Codec.MessagesArrive: messages are values; their conversion from and to dataclasses and socket errors are not modelled.
- Async-mode training rounds, whose result depends on the schedule.
- DenseServer.PayloadError: dtype and finiteness checks and the names inside gradient entries are not modelled; position stands for name.
- DenseCluster.Progress: for jobs without a heartbeat timeout; the safety results hold with timeouts, and when those fail a job is `DenseTimeouts.FailsExactly`.
- Models whose gradient is not a function of parameters and one sample (batch normalisation, dropout).
- Autograd: operations other than the scalar ones listed in `Autograd.Op`, broadcasting, reductions, and the graph nodes the gradient rules themselves build; one coordinate of an element-wise tensor is one real.
- Derivative.GradientsAreTheDerivative: no division by zero and no negative power of zero among the nodes the output reaches.
- DataLoader.LoaderState.Consume: joining threads at close and the error for workers that exited without a result are not modelled.
- DataLoader.SameAsSynchronous: up to the first error or the last batch, when the asynchronous iterator closes; the synchronous one would go on after an error. Closing, joining threads and the check for workers that exited without a result are not modelled.
- Codec.RoundTrip: type names and list conversion are numpy's, assumed to give an array's own data back.
- Configuration checks, metrics, logging, the applications around these components and their user interfaces.
