# Turbo: models and proofs

This project models the parts of the Turbo inference runtime and its bundle tools whose
correctness rests on reasoning across many steps, and proves what the code and its comments
promise of them. Each component is a group of modules; `dafny verify dfyconfig.toml` covers
them all.

**The Hailo session pipeline** (`HailoTrace`, `HailoSession`, `HailoModel`, `HailoSlots`,
`HailoFlight`, `HailoFill`, `HailoVectors`, `HailoFrames`, `HailoDevice`; core/hailo/embed.cpp). A ring
of frame sets is filled by the host and handed to an asynchronous device. Memory is a map from addresses
to frames owned by the class `Device`, which plays an adversary: whenever the host looks away,
running jobs may finish, fail, scribble on their output or do nothing, by oracles the proofs know
nothing of. `HailoVectors` says in plain terms which tokens a vector is the mean of and that a
normalized one has length 1. Storing, loading, freeing and submitting a frame have ownership as their
precondition, so that a verified caller never touches a frame the device may hold. `Session` and
`Model` have the fields of the C++ classes and their methods the same order of steps.
`HailoTrace.Trace` makes any sequence of calls on any number of sessions. Waiting is counted in
the milliseconds of the waits that came to nothing.

**The shared vdevice registry** (`VdeviceRegistry`, `VdeviceSteps`, `VdeviceRuns`,
`VdeviceAnswers`; core/hailo/backend.cpp). `shared_vdevice` and its deleter as the steps of any
number of threads around one lock and one condition variable, with spurious wake-ups, failing
creations and contexts dropped at any moment, also while another thread has the lock.

**The CUDA kernel choices** (`CudaChoices`, `ChoicesNames`, `ChoicesText`, `ChoicesParser`,
`ChoicesRoundTrip`, `ChoicesMeaning`, `CudaTables`, `Decimals`; core/cuda/autotune.cpp, autotune.h). The
canonicalizer, the printer of the choices line, the parser that walks it by index, and the numeric
classes. `ChoicesText` has the grammar as functions on strings; the parser's methods are proved to
read by it, and the theorems are about what it means. `CudaTables` has the tiles each GEMM takes by
shape, what runs in place of the others, and the words of the line.

**The ONNX graph passes** (`OnnxGraph`, `GraphPrune`, `CutEmbeddings`, `CutMeaning`, `RetypeCasts`,
`RetypeMeaning`, `RetypeTables`; bundle/reference/onnx_f16.py, onnx_to_openvino_ir.py). A graph is a
list of nodes over named tensors, its meaning the run of its nodes in order under any operators.
Dead-node pruning, cutting an export at its word rows and attention bias, and the retyping of casts are
methods that edit such a graph in place, proved to keep its meaning, order and names.

**The rotary weight layout** (`RotaryRows`, `RotaryTurns`, `RotarySlots`, `RotaryTables`;
core/cuda/rotary.cpp, include/turbo/turbo_backend.h). The loops that reorder Q and K rows and interleave gate and up rows on flat arrays, the slots that
point at them, and what a session computes from the slots.

**Atomic writes** (`AtomicWrite`, `AtomicWriteRuns`, `AtomicWriteSearch`, `AtomicWriteClash`,
`AtomicWriteLeftovers`, `AtomicWriteAnswers`; bundle/src/fetch.rs). `write_atomic` as file system steps
of any number of writers in any number of processes on one directory: partial writes, failing
writes, syncs, renames and removals, processes killed between any two steps, pids that come round
again, and a loss of power after which what was not synced holds anything.

**Arithmetic and layouts** (`CivilDate`, `PairwiseSum`, `ReferenceFile`, `ChunkRanges`, `QaWindows`,
`Arith`; bench/src/lib.rs, bundle/src/static_reference.rs, bench/reference/hailort_reference.py,
bench/src/ranges.rs, bundle/reference/qa_reference.py). The date arithmetic of `utc`, the pairwise
sum and its depth, the reference file written and read, and the chunks and windows of texts.

## Where the code and its comments part

The models follow the code.

- core/hailo/embed.cpp:320-321 says a frame holds the pad id's row past the written length; the
  code at 328-330 repeats the row's first id. `HailoFrames.TokenId` does too.
- core/hailo/embed.cpp:465-468 says a failed run returns after one FRAME_TIMEOUT at most. A frame
  is waited for by the session's own timeout, which may be set longer (45-71). What a run costs is
  exactly `HailoSession.Cost` of how it ended, and that is within FRAME_TIMEOUT however it ends
  just when the session's timeout is (`HailoTrace.EveryCostIsWithinFrameTimeoutIff`); a device that
  ends no frame makes any run of a row cost the session's timeout (`HailoTrace.LateRun`).
- core/hailo/embed.h:171-177 bounds a release by one frame timeout. Between calls a session that
  is not broken has nothing in flight, and a broken one does not wait, so a release between calls
  waits for nothing; `HailoTrace.Trace` says so.
- core/cuda/autotune.h:158-164 promises that forcing the reported line back runs the same. More
  than 64 stream-K steps are left as they are by the canonicalizer, printed, and refused by the
  parser (core/cuda/autotune.cpp:172-176): `ChoicesRoundTrip.ForcingBackRunsTheSame` has the exact
  condition, on the steps asked for, and `ChoicesRoundTrip.SixtyFiveStepsAreRefused` a case. The
  variable TURBO_CUDA_SK_STEPS is held to 1 to 64, so more come only from the call that stands in
  for it (core/cuda/backend.cpp:1581-1593, 3847).
- bundle/reference/onnx_f16.py:96-97 names an added cast without looking whether the name is
  taken: `RetypeMeaning.NamesStayUniqueIffNoCollision` and `RetypeMeaning.CollidingIsNotUnique`.
- bundle/src/fetch.rs:98-101 says writes in other processes never touch each other's bytes. That
  holds exactly when no name written is itself a temporary name of another, the condition
  `AtomicWriteRuns.Apart`: `AtomicWriteClash.DestinationsAreOldOrWholeIffApart`.
- bundle/src/fetch.rs:102 says the temporary file is removed when a write fails. It is left
  exactly when its removal is refused, whose error the code drops:
  `AtomicWriteLeftovers.OnlyARefusedRemovalLeaves`.
- bundle/src/static_reference.rs:376 narrows a row's length to 32 bits, so that a row of 2 to the
  31 ids or more reads back at another length: `ReferenceFile.EveryLengthReadsBack`.

## Model

| member | source | states |
|---|---|---|
| `HailoTrace.Trace` | core/hailo/embed.h:145-177 | any sequence of creates, writes, range writes, runs and releases of any number of sessions on one model, then the model's release, against a device that finishes, fails or sits on each frame as it likes: every access to frame memory on the way was the host's to make; what stays allocated is exactly what the model left to the device, each frame of it a job's that still ran when the model began to go, and nothing a job still has was freed; the retired count is the sets handed over less those reclaimed; and all the waits of the whole history that came to nothing are at most one a run, none in a release |
| `HailoTrace.Do` | core/hailo/embed.cpp:219-472 | one call of that history keeps every session valid and every ring of frames apart from the others and from the retired ones |
| `HailoTrace.DoRun` | core/hailo/embed.cpp:419-472 | a run touches no frame of another session and costs exactly the wait it ended in, if it ended in one |
| `HailoTrace.DoRelease` | core/hailo/embed.cpp:404-417 | releasing a session between calls waits for nothing, frees its frames or hands them to the model, and leaves the other sessions as they were |
| `HailoTrace.LetGo` | core/hailo/embed.cpp:188-205 | the last sessions and the model go: what is left allocated was a running job's when the model began to go, and no job's frame was freed |
| `HailoTrace.EveryCostIsWithinFrameTimeoutIff` | core/hailo/embed.cpp:465-468 | however a run ends its wait is within FRAME_TIMEOUT, just when the session's own timeout is within 10000 ms |
| `HailoTrace.LateRun` | core/hailo/embed.cpp:433-445 | on a device that ends no frame a run of one row waits exactly the session's timeout, whatever it is set to, and past FRAME_TIMEOUT just when it is longer |
| `HailoSession.Session.Run` | core/hailo/embed.cpp:419-472 | a run that succeeds pooled each row once, put at each index the vector its row owes, which is the pooled values cut and, where normalized, of length 1 and along them; counted batch times the frame sizes each way, and left no slot busy; one that fails leaves the session broken, having waited in vain exactly once for a frame that still runs or for room in the queue, or not at all; on a device that ends no frame it fails so; without a write it is refused and nothing changes; either way the write is spent |
| `HailoSession.Session.SendAll` | core/hailo/embed.cpp:446-464 | after the loop each row is in flight or pooled, once, or the session is broken |
| `HailoSession.Session.Turn` | core/hailo/embed.cpp:446-463 | row b takes slot b mod slots once the frame in it has come back and was pooled; what it costs is what its failure says |
| `HailoSession.Session.Send` | core/hailo/embed.cpp:450-463 | an idle slot is filled with the row's frame and given to the device whole, or nothing is given |
| `HailoSession.Session.Drain` | core/hailo/embed.cpp:469-471 | every frame still in flight comes back and is pooled, or the session is broken with the rest left to the device and one wait at most, exactly the session's timeout |
| `HailoSession.Session.Finish` | core/hailo/embed.cpp:433-445 | a frame that came back is pooled and its slot idle; one that did not leaves its slot busy, its memory alone, and the session broken; it costs exactly the session's timeout, just when the frame still runs |
| `HailoSession.Session.Fill` | core/hailo/embed.cpp:322-342 | the slot holds its row's frames, and no other memory changed |
| `HailoSession.Session.Pool` | core/hailo/embed.cpp:350-374 | exactly the vectors of the slot's row are written, each at its own index, from the slot's hidden states |
| `HailoSession.Session.Write` | core/hailo/embed.cpp:264-285 | a write copies just the rows' tokens; a broken session, or a token type other than 0, is refused, and a refused write leaves nothing written |
| `HailoSession.TaskHolds` | core/hailo/embed.cpp:264-285 | what a write copies: id and mask t of row b are the caller's at b strides and t, and the pooling, the norm and the size are as given |
| `HailoSession.Session.WriteRanges` | core/hailo/embed.cpp:287-318 | accepted just when the pooling is the mean, there is at least one range and no more than fit, and each lies in a row with a live token; else nothing is written |
| `HailoSession.Session.CheckRanges` | core/hailo/embed.cpp:302-313 | true just when every range is inside its row and has a token of mask 1 |
| `HailoSession.Session.Create` | core/hailo/embed.cpp:219-262 | makes as many idle frame sets as two bursts, the queue and the rows allow, apart from all others, or leaves no memory behind; and reaps what the model kept |
| `HailoSession.Session.AddSlot` | core/hailo/embed.cpp:242-258 | one more frame set, or none and nothing allocated |
| `HailoSession.SlotCount` | core/hailo/embed.cpp:240-241 | the least of two bursts, the queue and the rows (two at least) where the device has bursts and a queue, and one slot where it has none |
| `HailoSession.Session.Release` | core/hailo/embed.cpp:404-417 | what has come back is freed, what has not goes to the model, and the device is waited for at most once, not at all by a broken session or one with nothing in flight |
| `HailoSession.Session.Part` | core/hailo/embed.cpp:408-415 | the ring is split into what the host may free and what the device may still own, nothing lost and nothing in both |
| `HailoSession.Everything` | core/hailo/embed.cpp:446-472 | an empty ring means every row's vectors are in the output |
| `HailoModel.Model.Retire` | core/hailo/embed.cpp:182-186 | the set is kept and counted |
| `HailoModel.Model.Reap` | core/hailo/embed.cpp:188-194 | frees exactly the kept sets whose job has ended, by success or failure, never one still running, and takes them off the count; waits for nothing |
| `HailoModel.Model.Release` | core/hailo/embed.cpp:196-205 | frees what has ended and leaves allocated what the device may still write |
| `HailoFlight.Returned` | core/hailo/embed.cpp:433-445 | a frame taken back and pooled keeps the account: each row sent is in flight or pooled, once |
| `HailoFlight.Sent` | core/hailo/embed.cpp:446-463 | and so does sending the next row in its slot of the ring |
| `HailoFlight.AllBack` | core/hailo/embed.cpp:469-471 | with nothing in flight every row has been pooled once, whatever the order |
| `HailoFlight.CameBack` | core/hailo/embed.cpp:433-445 | what a finished slot holds is what the device gives for its row, and the host may read it |
| `HailoFlight.MidRunWaits` | core/hailo/embed.cpp:435-440 | however the device moves meanwhile, the ring keeps its rows and its memory |
| `HailoSlots.NewSlot` | core/hailo/embed.cpp:242-258 | three frames no one had, of the streams' sizes, or none left allocated |
| `HailoSlots.FreeSlots` | core/hailo/embed.cpp:188-194 | frees the sets' memory and only it, none of it the device's |
| `HailoDevice.Device.Move` | core/hailo/embed.cpp:456-462 | the adversary: a running job ends well with what the encoder makes of its inputs, ends with an error and anything in its output, or scribbles there and runs on |
| `HailoDevice.MoveIsProgress` | core/hailo/embed.cpp:456-462 | any number of moves leave ended jobs ended and change only the outputs of running ones |
| `HailoDevice.InputsStand` | core/hailo/embed.cpp:456-462 | no job overwrites another's frame, so what a job computes is what was given |
| `HailoDevice.Device.Submit` | core/hailo/embed.cpp:456-463 | gives the device three frames the host owns, or refuses them |
| `HailoDevice.Device.Wait` | core/hailo/embed.cpp:435-440 | an answer once the job has ended, a timeout at the cost of the wait while it runs |
| `HailoDevice.Device.Free` | core/hailo/embed.cpp:188-194 | memory is freed only when no running job has it |
| `HailoFrames.QuantizedWithinHalfAStep` | core/hailo/embed.cpp:104-125 | a value in a stream's range is read back within half a quantization step |
| `HailoFrames.AcceptedRangeHasATerm` | core/hailo/embed.cpp:299-313 | a range that was accepted is never a mean over nothing |
| `HailoFrames.WholeRowRangeIsTheRow` | core/hailo/embed.cpp:376-390 | a range over a whole row has the row's own mean-pooled vector |
| `HailoVectors.PutClamps` | core/hailo/embed.cpp:103-113 | past a stream's range a value is written as the nearer end, 0 or 255, or 65535 in two bytes |
| `HailoVectors.RoundsToEven` | core/hailo/embed.cpp:106 | rounding is to the nearest integer, and to the even one of two as near |
| `HailoVectors.MeanIsTheMean` | core/hailo/embed.cpp:376-390 | each mean is over exactly the tokens of the range that the mask keeps, in order, their values read as the stream's numbers say |
| `HailoVectors.RowIsPooled` | core/hailo/embed.cpp:364-372 | a row's values are the mean of its kept tokens, its first token, or its last kept one, by its pooling |
| `HailoVectors.NormalizedHasLengthOne` | core/hailo/embed.cpp:393-402 | where the root of the squares of the values cut is a root and is above 1e-12, the squares of the normalized ones add up to 1, and they are a positive multiple of those cut |
| `HailoVectors.VectorIsDelivered` | core/hailo/embed.cpp:350-402 | vector i of a write is the values pooled for its row or range, cut and normalized |
| `HailoVectors.OwedIsDelivered` | core/hailo/embed.cpp:350-402 | so what a run owes at an index, of the states the device makes of the row's frame, is that, and of length 1 where normalized |
| `HailoFill.FillRows` | core/hailo/embed.cpp:322-332 | the frame of word rows, the first id's row past the written length |
| `HailoFill.FillBias` | core/hailo/embed.cpp:333-341 | the bias of every query and head: 0 for a kept key, the masked value for any other |
| `HailoFill.RowsFrameHolds` | core/hailo/embed.cpp:327-332 | value h of token t's place is the word table's of the token's id, or of the first id past the written length |
| `HailoFill.BiasFrameHolds` | core/hailo/embed.cpp:333-341 | the bias of any query, head and key is 0 where the key's mask is not 0, and -100 for any other key |
| `HailoFill.Mean` | core/hailo/embed.cpp:379-390 | the total of the live tokens' values over the columns given, divided by how many they are |
| `HailoFill.PoolRanges` | core/hailo/embed.cpp:355-363 | each range of the row at the range's index, the other indexes untouched |
| `HailoFill.PoolRow` | core/hailo/embed.cpp:364-373 | the row's vector by its pooling, at the row's index |
| `HailoFill.PutVector` | core/hailo/embed.cpp:393-402 | the values cut to the size asked for, each divided by the root of the sum of the squares of those, or by 1e-12 when that is greater, where they are normalized; into its own place |
| `HailoFill.AVectorHolds` | core/hailo/embed.cpp:360-374 | value h of vector i is at i sizes and h of the output |
| `VdeviceSteps.StepKeepsInv` | core/hailo/backend.cpp:316-357 | every step of every thread keeps: one entry a key, counts that are the pointers there are, one deleter a vdevice, an entry from just after a vdevice is made until its own deleter erases it, and a deleter still to notify for each thread that waits |
| `VdeviceSteps.ErasesItsOwn` | core/hailo/backend.cpp:348-354 | the entry a deleter erases is that of the vdevice it destroyed |
| `VdeviceSteps.WaitsForADeleter` | core/hailo/backend.cpp:330-334 | a thread that starts to wait does so while a deleter of its key is still to erase and notify |
| `VdeviceSteps.LockedKept` | core/hailo/backend.cpp:320-357 | the lock is held by the one thread the state says |
| `VdeviceSteps.CountedKept` | core/hailo/backend.cpp:331-355 | a vdevice's count is what contexts hold and what calls are about to hand over |
| `VdeviceRuns.EveryRunKeepsInv` | core/hailo/backend.cpp:316-357 | all of that in every state of every run of any number of threads |
| `VdeviceRuns.OneOpenVdeviceADevice` | core/hailo/backend.cpp:306-322 | two vdevices of a device are never both out of their constructor and not yet out of their destructor |
| `VdeviceRuns.OpensOnlyAfterTheLastIsGone` | core/hailo/backend.cpp:316-319 | VDevice::create is called only when every earlier vdevice of the device is destroyed |
| `VdeviceRuns.NobodyGetsADyingVdevice` | core/hailo/backend.cpp:330-334 | what a context holds or is about to get is shared, alive and of the device asked for |
| `VdeviceRuns.ContextsOnADeviceShare` | core/hailo/backend.cpp:306-309 | two contexts on one device hold one vdevice, whenever each got it |
| `VdeviceRuns.EveryoneReturns` | core/hailo/backend.cpp:324-357 | no wake-up is lost: left alone, the threads take at most a known number of steps, and where none can step every call and every deleter has ended |
| `VdeviceRuns.OwnStepsRunOut` | core/hailo/backend.cpp:330-354 | each own step leaves fewer, though one notify wakes every waiter of every key |
| `VdeviceRuns.SomeoneCanStep` | core/hailo/backend.cpp:324-357 | no deadlock: while some thread is in a call or a deleter, one can step |
| `VdeviceAnswers.ACallGetsItsVdevice` | core/hailo/backend.cpp:324-357 | in every run, a call returns nothing exactly when its own last step was making a vdevice in vain; any other returns one that is shared, alive and of the device its caller named, and that its caller then holds |
| `VdeviceAnswers.ALookTakesWhatIsShared` | core/hailo/backend.cpp:330-334 | a look at an entry of the key that is shared leaves with that vdevice and counts it once more, at one that is expired it waits and lets the lock go, and exactly with no entry of the key it makes one |
| `VdeviceAnswers.ACallOnAnOpenDeviceShares` | core/hailo/backend.cpp:324-331 | while a context holds a vdevice of the device, a call that looks gets that very one |
| `VdeviceAnswers.EveryRunTells` | core/hailo/backend.cpp:324-357 | where a thread is in its call tells the key it was called with, and one about to return what its own last step was |
| `VdeviceAnswers.WhatMayCome` | core/hailo/backend.cpp:324-357 | no step is ruled out: calls, shares and drops come whenever their thread is free, making a vdevice may fail, a wait may end for no reason, and a free lock goes to any that asks |
| `CudaChoices.Canonicalize` | core/cuda/autotune.cpp:206-239 | the loop in place gives every bin its canonical choices, those of the tables of `CudaTables` |
| `CudaChoices.CanonicalizeIsIdempotent` | core/cuda/autotune.cpp:206-239 | canonical choices name what runs: canonicalizing again changes nothing, and no tile is the unnameable default |
| `CudaChoices.CanonicalTileIsStable` | core/cuda/autotune.cpp:51-102 | the same of one tile, for every shape |
| `CudaChoices.GatedSecondGemmSumsInF32` | core/cuda/autotune.cpp:36-102 | a gated MLP's second GEMM with F16 operands on tensor cores never sums in F16 |
| `CudaTables.WhatRunsIsTaken` | core/cuda/autotune.cpp:50-102 | the tile that runs is always one the GEMM takes by its shape, and a tile it takes runs as asked |
| `CudaTables.SumsAreWhatWasAsked` | core/cuda/autotune.cpp:82-101 | on F16 tensor cores, off a gated MLP's second GEMM, the tile that runs sums in F16 just when the one asked for does or is the default |
| `CudaTables.F16Replacements` | core/cuda/autotune.cpp:82-101 | there, what runs in place of each tile that is not taken: CUTLASS's whole-k tile for the default where K is a multiple of 8, and the others by name |
| `CudaTables.GatedReplacements` | core/cuda/autotune.cpp:36-56 | in a gated MLP's second GEMM, each F16 sum's schedule in F32 |
| `CudaTables.OtherReplacements` | core/cuda/autotune.cpp:57-81 | what runs in place of the others on the FMA kernel and in TF32 |
| `CudaTables.TheRestOfAGemm` | core/cuda/autotune.cpp:210-239 | TF32 only where F32 operands meet tensor cores, and steps only where a GEMM streams, four where none are asked for |
| `CudaTables.AttentionThatRuns` | core/cuda/autotune.cpp:207-230 | the attention that runs is one its shape takes, as asked when it can be, and which it is otherwise |
| `CudaTables.LayerNormThatRuns` | core/cuda/autotune.cpp:231 | a row wider than 512 has a LayerNorm of its own, and nothing else of a bin changes |
| `CudaTables.Classes` | core/cuda/autotune.cpp:247-256 | the class of every GEMM and attention, by operands, tensor cores and the tiles and attentions that sum in F16 |
| `CudaChoices.NumericsOf` | core/cuda/autotune.cpp:258-265 | exactly the classes of the GEMMs and attentions of the bins that exist |
| `CudaChoices.Outside` | core/cuda/autotune.cpp:277-294 | finds a kernel just when some class is not allowed, the first in the order of the bins |
| `CudaChoices.BinsFor` | core/cuda/autotune.h:53-58 | the bins up to the one that holds tcap tokens |
| `CudaChoices.BinOf` | core/cuda/autotune.h:60-65 | the bin whose edges hold the tokens, among those that exist |
| `CudaChoices.BinOfARun` | core/cuda/autotune.h:48-65 | a run within the session's tokens falls in a bin that exists, between its edges |
| `ChoicesText.TilesAreNamed` | core/cuda/autotune.h:76-100 | every tile but the default has a name of its own that names it back |
| `CudaTables.TilesAreSpelt` | core/cuda/autotune.h:78-100 | the word of each tile |
| `CudaTables.TheOthersAreSpelt` | core/cuda/autotune.cpp:27-30 | the words of attentions, LayerNorms and poolings, and those of GEMMs, bins and knobs |
| `CudaTables.ALine` | core/cuda/autotune.cpp:296-325 | a line of one bin spelt out to its last character |
| `CudaTables.ANumberIsRead` | core/cuda/autotune.cpp:172-173 | a step count is blanks, a sign or none, and digits to where they end; with no digit there is none |
| `CudaTables.WhyAPieceIsRefused` | core/cuda/autotune.cpp:158-182 | which pieces of a GEMM's value are refused, for what, and that each names itself |
| `CudaTables.WhyAValueIsRefused` | core/cuda/autotune.cpp:364-379 | the same of a bin's parts: the tile, attention, LayerNorm or key that is not one |
| `CudaTables.WhyAnItemIsRefused` | core/cuda/autotune.cpp:335-349 | and of a line's items: the pooling, the item without a colon, or the bin that is not one |
| `ChoicesParser.FormatChoices` | core/cuda/autotune.cpp:296-325 | what fits of the line and a NUL, and the length needed |
| `ChoicesParser.Forced` | core/cuda/autotune.h:137-145 | the knobs forced in any bin that exists, or the pooling's |
| `ChoicesParser.ParseGemm` | core/cuda/autotune.cpp:146-184 | walking the value by index reads it as the grammar does |
| `ChoicesParser.ParsePartOf` | core/cuda/autotune.cpp:352-381 | one part into every bin it names |
| `ChoicesParser.ParseChoices` | core/cuda/autotune.cpp:327-384 | walking the line by index reads it as the grammar does, errors included |
| `ChoicesRoundTrip.ReadPrintedGemm` | core/cuda/autotune.cpp:120-184 | a printed GEMM reads back as itself just when its tile has a name and its steps are at most 64 |
| `ChoicesRoundTrip.ReadPrintedBin` | core/cuda/autotune.cpp:296-384 | and a printed bin just when each of its GEMMs does |
| `ChoicesRoundTrip.LineReadsBack` | core/cuda/autotune.cpp:296-384 | a session's line is read without complaint by one of the same bins just when every GEMM can be said, and then sets everything as printed |
| `ChoicesRoundTrip.ForcingBackRunsTheSame` | core/cuda/autotune.h:158-164 | the canonical line forced back is accepted just when the stream-K steps are at most 64; it then forces every knob, misses no bin, runs the same kernels, and canonicalizing changes none of them |
| `ChoicesRoundTrip.SixtyFiveStepsAreRefused` | core/cuda/autotune.cpp:172-176 | 65 steps are canonical, printed as they stand, and refused |
| `ChoicesMeaning.LineMeans` | core/cuda/autotune.cpp:327-384 | a line is accepted just when each item is one the grammar has, whatever was chosen before; each bin then takes its own parts in order |
| `ChoicesMeaning.LineSetsJustWhatItNames` | core/cuda/autotune.cpp:327-384 | an accepted line changes and forces just the knobs it names, in just the bins it names, and absent is exactly the bins named with parts that the session lacks |
| `ChoicesMeaning.AllNamesEachBin` | core/cuda/autotune.cpp:344-363 | all: is naming each bin the session has |
| `GraphPrune.Graph.Live` | bundle/reference/onnx_to_openvino_ir.py:305-317 | the walk ends with exactly the tensors an output reaches back to |
| `GraphPrune.Graph.Prune` | bundle/reference/onnx_to_openvino_ir.py:298-324 | keeps exactly the nodes and initializers that feed an output, in order |
| `GraphPrune.PrunePreservesOutputs` | bundle/reference/onnx_to_openvino_ir.py:298-324 | the pruned graph gives every output the value it had, for every feed and any operators |
| `GraphPrune.KeptIsOrdered` | bundle/reference/onnx_to_openvino_ir.py:298-324 | no kept node loses the producer of what it reads |
| `GraphPrune.KeptReadsLive` | bundle/reference/onnx_to_openvino_ir.py:312-318 | a kept node reads live tensors alone |
| `CutEmbeddings.WordGather` | bundle/reference/onnx_to_openvino_ir.py:265-273 | found just when one Gather alone reads input_ids, and it is that one; else the refusal counts them |
| `CutEmbeddings.AttentionBias` | bundle/reference/onnx_to_openvino_ir.py:276-295 | found just when there is a Softmax and each reads an Add, last made so, of one tensor a MatMul makes and this one, which none does; each refusal is true of the graph |
| `CutEmbeddings.BiasIs` | bundle/reference/onnx_to_openvino_ir.py:283-291 | the bias found for a Softmax is b just when its first input is last made by an Add that reads exactly two tensors, one last made by a MatMul and the other b, not made so, in either order; and it has no Add just when nothing, or another operator, makes what it reads |
| `CutEmbeddings.TheWords` | bundle/reference/onnx_to_openvino_ir.py:265-295 | the names of the token inputs and of the two new ones, and the operators, spelt out |
| `CutEmbeddings.FoldTokens` | bundle/reference/onnx_to_openvino_ir.py:347-357 | each token input is made its constant just when both that must be there are and none is a constant already; else the refusal names one that is missing or is one |
| `CutEmbeddings.TokensBecome` | bundle/reference/onnx_to_openvino_ir.py:347-357 | the mask becomes ones, the ids and token types zeros, and no input that is not a token goes |
| `CutEmbeddings.OnlyTheFirstGoes` | bundle/reference/onnx_to_openvino_ir.py:348-355 | of a name's inputs the first alone goes, and the rest keep their order |
| `CutEmbeddings.Cut` | bundle/reference/onnx_to_openvino_ir.py:327-368 | the cut graph in full: inputs, constants, renamed reads, then pruned; given just when there is a sole word Gather with a table of rank 2, one tensor every Softmax adds to a MatMul's scores, and foldable token inputs; each refusal is true of the export |
| `CutMeaning.CutGivesTheExportsOutputs` | bundle/reference/onnx_to_openvino_ir.py:327-368 | for every feed on which the token inputs reach the outputs only through the two tensors, the cut given those tensors' values gives the export's outputs |
| `CutMeaning.CutExport` | bundle/reference/onnx_to_openvino_ir.py:327-368 | what the cut itself leaves of an export, when it can be cut, is in order and gives the export's outputs on every feed of that kind, the bias the tensor every Softmax adds |
| `CutMeaning.NoTokenRead` | bundle/reference/onnx_to_openvino_ir.py:327-368 | when no kept node reads a token input no feed is left out |
| `CutMeaning.CutLeavesNothingDangling` | bundle/reference/onnx_to_openvino_ir.py:298-324 | what each kept node of the cut reads is given and kept, or made before it |
| `RetypeCasts.Model.Consumers` | bundle/reference/onnx_f16.py:75-78 | the users of each tensor |
| `RetypeCasts.Model.Move` | bundle/reference/onnx_f16.py:98-101 | each converted user's reads of the tensor become reads of its twin |
| `RetypeCasts.Model.RetypeFloatCasts` | bundle/reference/onnx_f16.py:68-106 | the graph, the types recorded and the count the pass leaves |
| `RetypeTables.KindIs` | bundle/reference/onnx_f16.py:81-95 | a Cast to FLOAT is retyped just when nodes in F16, and nothing else, read it, and it gets a twin just when something else needs it too |
| `RetypeTables.TheResultSpeltOut` | bundle/reference/onnx_f16.py:68-106 | each node after the pass: where it is, its type, each tensor it reads and the Cast added after it, by who reads what |
| `RetypeTables.WhatIsRecorded` | bundle/reference/onnx_f16.py:72-106 | the tensors whose recorded type becomes FLOAT16, and the count |
| `RetypeMeaning.RetypedIsFlat` | bundle/reference/onnx_f16.py:79-105 | the nodes stay in their places, each added cast just after the cast it stands beside |
| `RetypeMeaning.RetypingKeepsEveryValue` | bundle/reference/onnx_f16.py:68-106 | with casts to FLOAT and FLOAT16 read alike, every tensor of the graph has the value it had |
| `RetypeMeaning.NoConvertedOpReadsAFloatCast` | bundle/reference/onnx_f16.py:69-72 | no converted op reads a Cast to FLOAT afterwards |
| `RetypeMeaning.TheRestStays` | bundle/reference/onnx_f16.py:69-72 | every node is still there in order; an unconverted node reads what it read, and a graph output or anything such a node reads keeps its type |
| `RetypeMeaning.CountIsRetypedAndAdded` | bundle/reference/onnx_f16.py:72-106 | the count returned is the casts retyped and the casts added |
| `RetypeMeaning.NamesStayUniqueIffNoCollision` | bundle/reference/onnx_f16.py:96-105 | the result's names are unique just when no added name was there before; it is then in topological order |
| `RetypeMeaning.CollidingIsNotUnique` | bundle/reference/onnx_f16.py:96-97 | a graph on which the added name is taken |
| `RotaryRows.ReorderQkv` | core/cuda/rotary.cpp:104-112 | the nested loops with their running row leave each row holding the stored row its place calls for, V as stored |
| `RotaryRows.ReorderingIsABijectionInEachHead` | core/cuda/rotary.cpp:107-111 | the reordering is a bijection that keeps rows in their heads |
| `RotaryRows.Interleave` | core/cuda/rotary.cpp:122-126 | gate row j, then up row j |
| `RotaryTurns.TurningCommutes` | core/cuda/rotary.h:10-16 | turning neighbours of the reordered columns is reordering the columns turned by rotate_half |
| `RotaryTables.TurnedIsRotateHalf` | core/cuda/rotary.h:10-16 | a head turned by halves is x times cos plus the second half negated then the first times sin, the tables repeating after half a head |
| `RotaryTables.ScoreAdds` | core/cuda/rotary.h:10-16 | a score is the total of the products of a head's columns |
| `RotaryTables.DotAdds` | core/cuda/rotary.h:10-16 | a column of a product is the total of the products of its row's numbers |
| `RotaryTurns.EveryScoreIsTheStoredOne` | core/cuda/rotary.h:10-16 | every query-key score of every head is the one rotate_half of the stored weight gives, at any two positions |
| `RotaryTurns.EveryValueIsTheStoredOne` | core/cuda/rotary.cpp:112 | V's columns are the stored ones |
| `RotaryTurns.OneProductGates` | core/cuda/kernels.h:413-417 | columns 2j and 2j + 1 of one product are the gate and the up column |
| `RotarySlots.Slots` | core/cuda/rotary.cpp:75-156 | each slot of each layer and of the embeddings points where it belongs, into the model's tensors or the vectors made |
| `RotaryTables.EachSlotHoldsItsTensor` | core/cuda/rotary.cpp:100-155 | each slot of a layer holds the tensor that is for what BERT's slot is for, zeros where the family has none, and nothing where ModernBERT's layer has no attention norm |
| `RotaryTables.EachEmbeddingSlotHoldsItsTensor` | core/cuda/rotary.cpp:88-99 | and so the five of the embeddings |
| `RotaryTables.StoredParts` | core/cuda/rotary.cpp:103-121 | which tensors the reordered weights are taken from |
| `RotarySlots.EverySlotIsInside` | core/cuda/rotary.cpp:81-156 | no slot, of the embeddings or of a layer, points past what it points into |
| `RotarySlots.AbsentBiasesAreZero` | core/cuda/rotary.cpp:84-87 | every bias the family lacks reads zeros, as many as it needs |
| `RotarySlots.SlotsAreTheThirds` | core/cuda/rotary.cpp:131-133 | the Q, K and V slots are the thirds of the reordered weight |
| `RotarySlots.TheSlotsRunTheStoredLayer` | core/cuda/rotary.cpp:100-156 | from its slots a session computes the stored layer: the scores of its Q and K slots, the values of its V slot and act(gate) times up |
| `AtomicWriteRuns.TempNamesAreApart` | bundle/src/fetch.rs:111-112 | a temporary name tells the file, the process and the number |
| `AtomicWriteRuns.StepKeepsInv` | bundle/src/fetch.rs:103-127 | every step of every writer, every kill and every loss of power keeps what the next lemmas say |
| `AtomicWriteRuns.DestinationIsOldOrWhole` | bundle/src/fetch.rs:95-127 | in every state a destination is absent, as it was, or the whole bytes of one writer of it, on the disk |
| `AtomicWriteRuns.OthersAreUntouched` | bundle/src/fetch.rs:98-102 | any other name stands for what it did, leftovers of killed processes among them, and what a link led to is never written |
| `AtomicWriteRuns.WritersKeepToTheirOwn` | bundle/src/fetch.rs:95-102 | a writer writes, renames and removes only the file it made |
| `AtomicWriteRuns.ReturningLeavesNone` | bundle/src/fetch.rs:120-126 | what a returned writer made is at its destination or nowhere; leftovers belong to refused removals and dead processes |
| `AtomicWriteAnswers.TheResultSaysWhatWasDone` | bundle/src/fetch.rs:110-126 | in every state of every run, a call has returned well just when it made its rename, and with an error that leaves no file just when its open was refused or its removal made |
| `AtomicWriteAnswers.ReturningWellStores` | bundle/src/fetch.rs:120-126 | a call that returned well left its whole bytes at its destination, on the disk |
| `AtomicWriteAnswers.WhatMayCome` | bundle/src/fetch.rs:110-126 | no fault is ruled out: each step of a writer may be refused, and a kill or a loss of power may come in any state |
| `AtomicWriteAnswers.WhatAPowerLossTakes` | bundle/src/fetch.rs:95-127 | a loss of power leaves names as they are, puts anything in files not synced, and stops everyone |
| `AtomicWriteAnswers.ATemporaryName` | bundle/src/fetch.rs:111-112 | a temporary name spelt out |
| `AtomicWriteLeftovers.OnlyARefusedRemovalLeaves` | bundle/src/fetch.rs:102-126 | a call that has returned has left a file outside the names written just when the run refused it the removal |
| `AtomicWriteLeftovers.ARefusedRemovalIsReached` | bundle/src/fetch.rs:123-125 | and some run of any such name does so |
| `AtomicWriteSearch.TheSearchEnds` | bundle/src/fetch.rs:108-117 | from any point of any run a writer passes over no more names than were there ahead of it |
| `AtomicWriteSearch.TriesFall` | bundle/src/fetch.rs:110-116 | no step of anyone adds a name ahead, and each name passed over leaves one fewer |
| `AtomicWriteClash.ATemporaryNameAsDestinationBreaksIt` | bundle/src/fetch.rs:98-102 | whenever a name and any temporary name of it are both written, some run comes to where a writer of each has returned and the first holds bytes no writer of it was given |
| `AtomicWriteClash.DestinationsAreOldOrWholeIffApart` | bundle/src/fetch.rs:95-127 | in every state of every run each destination is absent, as it was or written whole, just when no name written is a temporary name of another |
| `AtomicWriteClash.TwoNamesSuffice` | bundle/src/fetch.rs:98-102 | the case of two names spelt out |
| `PairwiseSum.PairwiseSquares` | bundle/src/static_reference.rs:104-122 | the additions made, over any arithmetic |
| `PairwiseSum.TheHalves` | bundle/src/static_reference.rs:109-112 | above 128 values the first half is the greatest multiple of 8 up to half of them |
| `PairwiseSum.ARunningSum` | bundle/src/static_reference.rs:113-119 | running sum k takes every eighth square from k on, in order |
| `PairwiseSum.TheSumOfEleven` | bundle/src/static_reference.rs:113-121 | the additions of eleven values spelt out |
| `PairwiseSum.EverySquareOnce` | bundle/src/static_reference.rs:100-122 | whatever is weighed over the squares added, each element counts once |
| `PairwiseSum.DepthIsLogarithmic` | bundle/src/static_reference.rs:100-122 | no square passes through more than 24 + k additions when there are at most 16 + 112 times 2 to the k |
| `PairwiseSum.ItIsTheSum` | bundle/src/static_reference.rs:100-122 | in exact arithmetic it is the plain sum of squares |
| `PairwiseSum.ItIsNearTheSum` | bundle/src/static_reference.rs:100-122 | with each operation rounded within a factor of 1 - u and 1 + u the result is within those factors to the power 25 + k |
| `ReferenceFile.SafetensorsFile` | bundle/src/static_reference.rs:367-395 | the bytes written |
| `ReferenceFile.AByteHolds` | bundle/src/static_reference.rs:373 | byte j of a number is its digit j in base 256, the least first |
| `ReferenceFile.AWordHolds` | bundle/src/static_reference.rs:371-377 | word k's four bytes are at 4 k |
| `ReferenceFile.AnIdHolds` | bundle/src/static_reference.rs:371-375 | entry (i, p) of the ids is row i's, or the padding past its end, in two's complement |
| `ReferenceFile.TheWidth` | bundle/src/static_reference.rs:369 | the table is as wide as its longest row, and one wide at least |
| `ReferenceFile.AValueHolds` | bundle/src/static_reference.rs:377 | value h of vector i is at i dims and h |
| `ReferenceFile.TheFilling` | bundle/src/static_reference.rs:385-387 | the header is filled up with spaces |
| `ReferenceFile.TheTensorsPartitionThePayload` | bundle/src/static_reference.rs:378-389 | the three tensors follow one another from the payload's first byte to its last, each as long as its shape says, from a multiple of eight |
| `ReferenceFile.EveryTensorIsFound` | bench/reference/hailort_reference.py:32-42 | the reader refuses none of the three and gets the bytes written |
| `ReferenceFile.WhatATensorIs` | bench/reference/hailort_reference.py:32-42 | of any file the reader takes the header's type, shape and offsets past it, and refuses another type, offsets that go back, and bytes that are not four for each number |
| `ReferenceFile.EveryRowReadsBack` | bench/reference/hailort_reference.py:70-72 | row i read at its length is row i, none and empty rows included |
| `ReferenceFile.EveryLengthReadsBack` | bundle/src/static_reference.rs:376 | the length stored is the row's just when it is under 2 to the 31 |
| `ReferenceFile.WhatIsWrittenIsRead` | bench/reference/hailort_reference.py:60-72 | writing then reading gives back every row |
| `CivilDate.TheChainFindsThePlace` | bench/src/lib.rs:136-139 | the divisions find the year of the era and the day of the year |
| `CivilDate.EveryDayIsCounted` | bench/src/lib.rs:134-143 | day n's date is 1970-01-01 counted on n days by the calendar, and a date there is |
| `CivilDate.DaysAndDatesAreOneToOne` | bench/src/lib.rs:134-143 | the chain and the count of days by years and months undo each other |
| `CivilDate.EveryStepIsInRange` | bench/src/lib.rs:132-143 | no step leaves 64 bits, and each is in the range its name says |
| `CivilDate.TheTextStandsForTheTime` | bench/src/lib.rs:130-145 | to the year 9999 the text is a date-time of section 5.6 of RFC 3339 that stands for the seconds it was made from |
| `ChunkRanges.ChunkRanges` | bench/src/ranges.rs:120-134 | the ranges pushed, or a refusal of no chunk or too short a row |
| `ChunkRanges.ChunksPartitionTheText` | bench/src/ranges.rs:125-132 | each text position is in one chunk of its row; chunks follow on, none empty, as many in every row |
| `ChunkRanges.ChunkRows` | bench/src/ranges.rs:138-161 | each chunk as a row between the row's first and last token, padded, with its mask |
| `ChunkRanges.AChunkRowHolds` | bench/src/ranges.rs:141-150 | each position of a chunk's row and of its mask |
| `ChunkRanges.WidestIsOne` | bench/src/ranges.rs:139 | the width is that of a longest chunk |
| `ChunkRanges.TheChunksAreTheText` | bench/src/ranges.rs:138-150 | a row's chunks end to end are its text |
| `ChunkRanges.TheFramesAreTheRows` | bench/src/ranges.rs:243-258 | the frames end to end are the rows |
| `ChunkRanges.EachRunTakesEachPlaceOnce` | bench/src/ranges.rs:163-184 | over any n rounds on end each run has each place once |
| `ChunkRanges.TheTurns` | bench/src/ranges.rs:175-179 | round i starts at run i mod n and takes the others in turn |
| `QaWindows.RowsOf` | bundle/reference/qa_reference.py:18-43 | the loop ends, with the windows of the context and their rows and segments, unless the overlap is not below the room |
| `QaWindows.ARowHolds` | bundle/reference/qa_reference.py:26-31 | each position of a row and of its segments, for BERT and for RoBERTa |
| `QaWindows.TheWindowsAreTheContext` | bundle/reference/qa_reference.py:24-43 | each window repeats exactly the overlap and adds a token; without repeats they are the context |
| `QaWindows.EveryRowFits` | bundle/reference/qa_reference.py:26-31 | every row fits the limit and has as many segments as ids |

## Left out

- HailoRT, CUDA, OpenVINO, the ONNX checker and tokenizers: their answers are oracles, parameters
  or any function at all.
- Floating-point rounding: values are reals. `PairwiseSum` alone has rounding, as a relative error of
  each operation. The square root of the norm is a parameter, and a mean over no token is an
  unnamed value in place of NaN.
- Bytes inside a frame: a frame is a sequence of elements of 8 or 16 bits, its size in bytes a
  product.
- Frame sets as heap objects: a slot is a value of three addresses, a job and a row, in a sequence
  field; ownership is of the addresses. C++ moves of the set from session to model are moves of
  that value.
- Threads calling one model at once: calls of a history run one after another, as the run lock
  makes runs do; the device moves inside them.
- HailoModel.Model.Release: the wait of HailoRT's own shutdown of a configured model, which the file says it
  does not bound.
- Model loading and stream description (core/hailo/embed.cpp:84-178): one-branch checks.
- The frame timeout's text: the variable is a parameter that is a number of milliseconds or refused.
- The texts of error messages: refusals are told apart by their kind.
- Exceptions and failed allocation of strings and vectors.
- The vdevice registry and the atomic write are state machines over values, not classes, because
  what is proved of them is about the interleavings of their steps; aliasing inside one call is
  not modelled.
- Device enumeration, buffers and the C entry points of the backend.
- The directory a file is renamed in may itself be rolled back by a loss of power: only the
  bytes of files that were not synced are lost here.
- The write counter's wrap at 2 to the 64.
- Other programs that write in the directory: every change is by a writer of the model.
- The choices: `Canonicalize` and the parser return new choices where the code writes through a
  pointer, and a knob set is a set of names where the code has bits.
- variant_name, gemm_variants and tiles_forced: lists and one-line tests on the same data.
- CUDA kernels: only what their epilogues are said to compute is used.
- rotary_check's refusals: its geometry is the precondition `RotarySlots.Checked`.
- Shapes and types of tensors in the graph passes: values are of one abstract type, and a Cast's
  target is an attribute. Subgraphs of nodes are not modelled.
- The check of a cut model against the export by compiling both.
- CutMeaning.CutGivesTheExportsOutputs: asks that no tensor of the export is called word_rows or
  attn_bias, that no graph output is a token input, and that the feed gives just the inputs; so
  does CutMeaning.CutExport.
- JSON text: a header is written and read by any pair of functions that read back what was
  written, with spaces after it.
- The rest of the static reference: the table parser, the licence and the session checks; and
  Table::mean, a loop of the same form as the pooled means.
- Times before 1970 print as 1970-01-01T00:00:00Z; the clock is a parameter.
- The durations measured and their statistics in bench/src/ranges.rs, and its 32-bit products of
  batch and length.
- The padding of the rows of several question cases into one array.
