# Verified model of the SPIR-V probe and artifact tooling

The repository prepares, instruments and judges GPU runs. This project models
the programs at its core and proves what they are for.

* **The effective-module compiler** rewrites a SPIR-V module, a list of 32-bit
  words, in six stages: it writes the workgroup size down, folds specialization
  constants, replaces 16-bit loads by byte loads, replaces bitcasts of words to
  four bytes, adds a barrier and separates descriptors that share a binding.
  `Words` is the physical layout (section 2.3 of the SPIR-V Specification);
  `Machine` and `Meaning` give a module its meaning: any number of invocations,
  interleaved one instruction at a time over one memory, with every opcode the
  tools do not touch an uninterpreted step. `Translation` and `Reproduction` are
  the two simulation theorems, one for each direction; `LocalSize`, `Specializing`,
  `Storage16`, `Bitcasts`, `Barriers`, `Bindings` and `Reconstruction` (with the
  modules named `…Sound` and `…Shape`) are the stages and their composition.
  `SizePatch`, `SizeChain`, `LoadPlaces`, `CastPlaces` and `BarrierPlace` say, from
  the instructions alone, when a stage changes a module and what it leaves
  (`Latest` is about the declarations they look for). `Definitions`, `StageIds` and
  `StorageIds` follow the result ids through the stages; `LoadWitness` has a module
  that meets all premises.
* **The probe protocol.** `Instrumenter` splices declarations and blocks of
  stores into a module; many invocations then write words into one buffer;
  `ProbeParser` reads it back. `ProbeBlocks`, `ProbeSound`, `ProbeLog`,
  `ProbeEvents`, `ProbeProtocol` and `ProbeRun` lead to the end-to-end theorem;
  `ProbeVerdict` is what the reader says of any buffer. `ProbeFit` and
  `ProbeAccepted` say which stores can be probed; `ProbeLayout`, `ProbeIds`,
  `ProbeShape` and `ProbeDescriptor` are about the output module; `ProbeSharing` is about a probe buffer that is not left to the
  probes; `ProbeWitness` and `LaneWitness` have modules for which the premises
  hold or fail.
* **The analyser and the manifest verifier**: `ControlFlow`, `BlockCover`,
  `Predecessors`, `Analysis`, `AnalysisTables`, `Bisection`, `Manifest`,
  `ManifestAccepted`, `ManifestBuild` and `PlanShape`. One script plans, the other
  refuses plans that are not safe; the results are exactly which manifests the
  second accepts, and exactly when it accepts the first's.
* **The GGUF index**: `Gguf`, `GgufIndex` and `GgufLimits`.
* **The artifact classifier**: `Json`, `Writeback`, `WritebackVerdict`,
  `Classifier`, `ClassifierGrounds` and `ClassifierWitness`.

Each loop that updates variables is a method with invariants, proved against a
function; the lemmas are about those functions.

## What the results rest on

* *Safe runs.* Refinement is stated for sources that no schedule drives into a
  fault. Faults are loads outside a buffer, values of the wrong shape, and the
  like; `Machine.Act` says which.
* *Compiler* (`Reconstruction.Sound`). Declared ids are unique and below the
  bound, numeric constants take one word, the binding table has in set 0 only what
  the dispatch reports, and no boolean specialization constant is switched by the
  dispatch. The last one is needed: `Specializing.BooleanLosesItsValue` is a module
  on which folding changes a value. Only where 16-bit loads are lowered, their two
  views must be the same read-only buffer and the pointer of a lowered load must be
  used by that load alone. `LoadWitness.CompilerPremisesMet` is a module with a
  lowered load for which all of this holds.
* *Ids* (`Definitions.Tidy`). Each id is defined once, and earlier in the stream
  than its uses, a phi excepted; types and constants come before code. That this
  is kept needs, where loads are lowered, the byte view declared in front of them
  and their pointers used by them alone (`StorageIds.LoadsClean`).
* *Instrumenter* (`ProbeSound.Undisturbed`). Three ids are written into the code
  as numbers: %52 must be the constant 0, %6 the unsigned type and %14 the 32-bit
  float type, the last two only where a target's value has them. The dispatch
  must bind a buffer to the probe's descriptor that is neither read-only nor bound
  to a variable of the module. `ProbeSharing.QuietIffFree` shows that this is
  exactly what is needed in a world where a store writes its value through its
  pointer (`StoresWrite`), and `ProbeWitness.SharedLeaks` what happens otherwise.
* *Protocol.* Targets are among the ten the reader knows, in its order; each
  invocation's LocalInvocationId.x is below 32; uninterpreted steps neither
  produce pointers to the probe variable (`ProbeLog.Discreet`) nor jump after a
  store (`ProbeEvents.StoresFall`).

## Where the code falls short of what it is for

Each has the condition under which the code does what it is for, and an input
for which it does not.

* A workgroup size is resolved from the literal, not from the constant's own
  default, where the dispatch gives no entry: `LocalSize.ResolvedDimExact`, and
  `LocalSize.UnsuppliedDefault`.
* Folding drops the SpecId of boolean constants without folding them:
  `Specializing.MaterializePreservesConstantsIff`, and
  `Specializing.BooleanLosesItsValue`.
* The instrumenter accepts a descriptor that is in use: `ProbeSharing.QuietIffFree`,
  and `ProbeWitness.SharedLeaks`.
* It uses %52 without declaring it: `ProbeIds.NothingLate`, and
  `ProbeWitness.ZeroMissing`.
* The choice of a probe descriptor may have a set number of 8 or more:
  `Analysis.ChoiceMeans`, and `Analysis.SetTooLarge`. The verifier refuses it,
  and may refuse the analyser's own plan for three more reasons:
  `ManifestBuild.PlanAccepted`, and `ManifestBuild.PlanRefused`.
* The verifier looks at no file if the manifest names none:
  `ManifestAccepted.AcceptedExactly`, and `ManifestAccepted.UnnamedUnchecked`.
* The guard against a second barrier looks at the words of the label in front of
  the comparison, so it never fires (`BarrierPlace.NeverPresent`); a second barrier
  is prevented because the pattern is gone (`Barriers.GuardIdempotent`).
* A conditional branch with the same label on both sides is listed twice as the
  true side: `Predecessors.SidesExactIff`, and `Predecessors.BothSidesTrue`.
* A correctness claim needs no passing prompt probes if there is an oracle event,
  and no oracle event if there is no sign of a dispatch: `Classifier.ClaimExact`,
  and `ClassifierWitness.ClaimWithoutEvents`.

## Model

| member | source | states |
|---|---|---|
| Words.ParseFlatten | scripts/reconstruct-q6-effective-spirv.py:57-66 | writing well-sized instructions out and reading the stream gives the same instructions, wherever they stand |
| Words.ModuleRoundTrip | scripts/reconstruct-q6-effective-spirv.py:57-66 | a stream that can be read is a valid module whose words are the stream |
| Words.IterInstructions | scripts/reconstruct-q6-effective-spirv.py:57-66 | the iterator delivers exactly the parsed instructions, each with the word index at which it stands, and stops with the same error on the same streams |
| Translation.RewriteRefines | scripts/reconstruct-q6-effective-spirv.py:622-644 | if every replaced unit has the same effect, any run of the target, under any schedule, ends like some run of the source |
| Reproduction.RewriteReproduces | scripts/reconstruct-q6-effective-spirv.py:622-644 | without added barriers every run of the source is matched by a run of the target |
| LocalSize.PatchLiteralLocalSizeFromSpec | scripts/reconstruct-q6-effective-spirv.py:97-146 | the loop changes the three literal words exactly for eligible modules, and reports the size it resolved |
| LocalSize.PatchPreservesProgram | scripts/reconstruct-q6-effective-spirv.py:97-146 | the patched module is the same program, effective workgroup size included, under any entries, because a WorkgroupSize constant overrides the patched literal |
| LocalSize.ResolvedDimExact | scripts/reconstruct-q6-effective-spirv.py:112-120 | the resolved dimension is the value of the member constant if and only if the dispatch supplies it or its own default is 1 |
| SizePatch.PatchesIff | scripts/reconstruct-q6-effective-spirv.py:97-140 | a module is patched if and only if its one size declaration is the literal 1 1 1 and, of the first WorkgroupSize composite, the first member is supplied as 32 and the others as 1 or not at all |
| SizePatch.PatchWrites | scripts/reconstruct-q6-effective-spirv.py:138-146 | then exactly those three words become 32, 1 and 1 |
| LocalSize.UnsuppliedDefault | scripts/reconstruct-q6-effective-spirv.py:112-120 | an eligible module whose second member has the default 5 and no entry: its size is patched to 1 there |
| Specializing.MaterializeSpecializationConstants | scripts/reconstruct-q6-effective-spirv.py:149-274 | the fixpoint loop over skipped ids terminates and, with the rewriting loop, gives exactly the folded module or the same error |
| Specializing.MaterializePreservesConstantsIff | scripts/reconstruct-q6-effective-spirv.py:149-274 | all ids keep their values under the same entries, in both modes, if and only if every boolean constant that loses its SpecId is left at its default |
| Specializing.BooleanLosesItsValue | scripts/reconstruct-q6-effective-spirv.py:209-218 | a concrete module whose boolean is switched on by the dispatch and is off after folding |
| SizeChain.MaterializeClosesIff | scripts/reconstruct-q6-effective-spirv.py:149-274 | the output has no specialization constant and no SpecId left if and only if nothing specializable hangs on a workgroup size that cannot be fixed |
| SizeChain.MaterializeOpenIff | scripts/reconstruct-q6-effective-spirv.py:183-237 | a specialization constant, composite or operator is in the output, and an id keeps its SpecId, if and only if it was so in the source, the size cannot be fixed, and the id hangs on it: it is a constituent of the WorkgroupSize composite, or an operator with such an operand along a finite chain |
| SizeChain.PreservesIff | scripts/reconstruct-q6-effective-spirv.py:175-182 | the size cannot be fixed if and only if it is given by ids, or a dimension of the literal is not the last word the entries supply for it (0 read as 1 where a member without an entry follows) |
| SizeChain.MaterializeSucceedsIff | scripts/reconstruct-q6-effective-spirv.py:209-269 | folding succeeds if and only if every operator that does not hang on the size is a division of known numbers, not by zero, or picks one of the first four components of a known composite |
| Storage16.LowerStorage16LoadsToStorage8 | scripts/reconstruct-q6-effective-spirv.py:277-420 | the counting and the rewriting loop agree on every readable stream, so neither accounting error occurs, and the output is the lowered module; unreadable streams fail or pass unchanged |
| LoadPlaces.LowersIff | scripts/reconstruct-q6-effective-spirv.py:300-362 | the stage changes a module if and only if its bound is above 371 and at most 65536, the types and constants are declared in front of the first function, there are 1 to 256 chains into %371 with their load directly behind, and the new ids fit |
| LoadPlaces.NoneLeft | scripts/reconstruct-q6-effective-spirv.py:364-407 | no such chain with its load is left |
| Storage16Sound.LowerEquivalent | scripts/reconstruct-q6-effective-spirv.py:364-407 | the byte loads do what the 16-bit loads did: both directions, any schedule, any number of invocations |
| Storage16Shape.LowerDefs | scripts/reconstruct-q6-effective-spirv.py:354-362 | each reserved id is defined exactly once, in order, and the new bound is one past the last |
| Storage16Shape.LowerWellFormed | scripts/reconstruct-q6-effective-spirv.py:354-420 | the output is a valid module with unique declared ids below its new bound, and its code reads nothing at or above it |
| StorageIds.LoadIds | scripts/reconstruct-q6-effective-spirv.py:354-420 | exact accounting of result ids: each is defined as often as before, less the dropped pointers, plus each reserved id once, plus the pointer type where it is added |
| StorageIds.LoadsTidy | scripts/reconstruct-q6-effective-spirv.py:354-420 | if every id of the module is defined once and before its uses, and the dropped pointers are used by the lowered loads alone, so is every id of the output |
| Storage16Shape.LowerLength | scripts/reconstruct-q6-effective-spirv.py:354-420 | the output is 44 words longer for each lowered load, plus 4 if the pointer type is added, which happens at most once |
| Bitcasts.LowerU32ToU8vec4Bitcasts | scripts/reconstruct-q6-effective-spirv.py:423-504 | counting and rewriting agree on every readable stream, and the output is the lowered module |
| CastPlaces.LowersIff | scripts/reconstruct-q6-effective-spirv.py:434-459 | the stage changes a module if and only if the types and constants are declared and there are 1 to 256 bitcasts to four bytes |
| CastPlaces.NoneLeft | scripts/reconstruct-q6-effective-spirv.py:460-504 | no such bitcast is left |
| BitcastSound.LowerEquivalent | scripts/reconstruct-q6-effective-spirv.py:460-497 | shifts, conversions and construction do what the bitcast did, in both directions |
| BitcastSound.BytesRecombine | scripts/reconstruct-q6-effective-spirv.py:474-492 | the four components of a word are its bytes, lowest first, and recombine to it |
| BitcastSound.LowerDefs | scripts/reconstruct-q6-effective-spirv.py:457-497 | each reserved id is defined exactly once, in order, up to the new bound |
| BitcastSound.LowerWellFormed | scripts/reconstruct-q6-effective-spirv.py:460-504 | the output has unique declared ids below its new bound, and its code reads nothing at or above it |
| StageIds.CastIds | scripts/reconstruct-q6-effective-spirv.py:457-504 | every result id is defined as often as before, and each reserved id once |
| StageIds.CastTidy | scripts/reconstruct-q6-effective-spirv.py:457-504 | ids stay defined once, below the bound and before their uses |
| BitcastSound.LowerLength | scripts/reconstruct-q6-effective-spirv.py:460-504 | the output is exactly 34 words longer for each bitcast |
| Barriers.InsertFinalStorePreBarrier | scripts/reconstruct-q6-effective-spirv.py:507-559 | a barrier is put in at the place found, or nothing changes |
| BarrierPlace.GuardInserts | scripts/reconstruct-q6-effective-spirv.py:517-559 | where the ids are declared and the exit label is directly followed by the comparison of the lane with 0, exactly one barrier is put between them, behind the first such label; else nothing changes |
| BarrierPlace.BarrierMeans | scripts/reconstruct-q6-effective-spirv.py:524-534 | the operands of the barrier are constants of value 2, 2 and 264 |
| BarrierPlace.NeverPresent | scripts/reconstruct-q6-effective-spirv.py:552-555 | in a module whose ids are defined once the words in front of the comparison are never the barrier |
| Barriers.GuardRefines | scripts/reconstruct-q6-effective-spirv.py:507-559 | the barrier only removes behaviours: every run of the output ends like some run of the input |
| Barriers.GuardIdempotent | scripts/reconstruct-q6-effective-spirv.py:527-559 | with one reduction exit label a second application changes nothing |
| StageIds.GuardTidy | scripts/reconstruct-q6-effective-spirv.py:507-559 | the barrier reads only ids declared in front of it; ids stay defined once and before their uses |
| Bindings.RewriteDuplicateDescriptorBindings | scripts/reconstruct-q6-effective-spirv.py:562-612 | the two flag arrays and the words updated in place give exactly the rewritten module and its aliases, or the same error |
| BindingsSound.BindingsDistinct | scripts/reconstruct-q6-effective-spirv.py:562-612 | on success all binding numbers of set 0 differ, first occurrences and all other words are untouched, and aliases are distinct and avoid every declared and reported number |
| BindingsSound.RewriteFailsIff | scripts/reconstruct-q6-effective-spirv.py:573-606 | it succeeds exactly when all numbers are below 64 and those in use plus the duplicates are at most 64 |
| BindingsSound.AliasesLeast | scripts/reconstruct-q6-effective-spirv.py:600-607 | each alias is the least number that is not declared, reported or given to an earlier duplicate |
| BindingsSound.RewriteIdempotent | scripts/reconstruct-q6-effective-spirv.py:562-612 | a second application finds no duplicate and changes nothing |
| BindingsSound.RewritePreservesProgram | scripts/reconstruct-q6-effective-spirv.py:562-612 | with the aliases bound to the buffers they stand for, it is the same program |
| BindingsSound.RewriteValid | scripts/reconstruct-q6-effective-spirv.py:562-612 | length, ids and code stay, and the output is valid |
| Reconstruction.Reconstruct | scripts/reconstruct-q6-effective-spirv.py:622-644 | the six stages, each reading the words the one before wrote, give the words of the effective module, or its error |
| Reconstruction.EffectivePreserves | scripts/reconstruct-q6-effective-spirv.py:622-644 | every run of the output, under the event's entries, ends with the stored memory and statuses of some run of the source; without an added barrier also the other way round |
| Reconstruction.EffectiveWithoutEntries | scripts/reconstruct-q6-effective-spirv.py:622-644 | where nothing specializable hangs on a size that cannot be fixed, the output needs no specialization data: with any data, or none, it does what the source does with the event's |
| Reconstruction.PatchedNeedsNoEntries | scripts/reconstruct-q6-effective-spirv.py:622-644 | the same for every event whose local size was patched |
| Reconstruction.PatchThenMaterialize | scripts/reconstruct-q6-effective-spirv.py:175-269 | after a patch, folding leaves nothing specializable, and folding again is the identity |
| Reconstruction.EffectiveWellFormed | scripts/reconstruct-q6-effective-spirv.py:622-644 | for every well-formed source on which the compiler returns: the output is a module again and parses back to itself, every id, declared or defined by its code, is defined at most once and below its bound, its code reads nothing at or above the bound, and the bindings of set 0 are distinct |
| Reconstruction.EffectiveTidy | scripts/reconstruct-q6-effective-spirv.py:622-644 | through all six stages every id stays defined once and before it is used |
| LoadWitness.CompilerPremisesMet | scripts/reconstruct-q6-effective-spirv.py:622-644 | a module with a lowered load, a dispatch and a world for which every premise of the theorems holds and the compiler returns |
| Instrumenter.InsertProbeWrites | scripts/instrument-spirv-noop-probe.py:245-506 | the loop with its allocator, constant tables and spliced lists gives exactly the specified declarations and blocks, or the specified refusal |
| Instrumenter.InstrumentAssembly | scripts/instrument-spirv-noop-probe.py:509-576 | declarations, interface, probes and bound together, or the error |
| ProbeAccepted.AcceptedIff | scripts/instrument-spirv-noop-probe.py:509-576 | a module is returned if and only if the anchors are there, every target is stored, every matched store can be probed, and the new bound fits a word |
| ProbeAccepted.AcceptedInSource | scripts/instrument-spirv-noop-probe.py:245-576 | the same, read off the source module's own instructions, where targets name ids of the module and declarations have no typed result |
| ProbeFit.RefusedIff | scripts/instrument-spirv-noop-probe.py:324-443 | a store can be probed if and only if its value has type %6 or %14; a final store's pointer is an access chain that ends in an unsigned index; a lane-traced one's has at least three indices, the first two unsigned; and both of these find the builtins and an input pointer type |
| LaneWitness.LaneAccepted | scripts/instrument-spirv-noop-probe.py:434-443 | a module with a lane-traced store through three indices is accepted |
| ProbeLayout.DeclaredLayout | scripts/instrument-spirv-noop-probe.py:525-556 | the debug buffer's decorations stand in front of the first type, its types and variable in front of the first function, and the variable at the end of the entry point's interface; nothing else changes |
| ProbeShape.ErasureRestores | scripts/instrument-spirv-noop-probe.py:509-576 | erasing what was added gives back the source, but for the interface of the entry point, which ends with the probe variable |
| ProbeShape.OutputValid | scripts/instrument-spirv-noop-probe.py:509-576 | the output is a valid module: its words parse to its instructions |
| ProbeShape.ProbesTyped | scripts/instrument-spirv-noop-probe.py:331-383 | every word a block stores is unsigned if and only if the stored value has type %14 or the unsigned type is %6 |
| ProbeIds.ProbedIdsExact | scripts/instrument-spirv-noop-probe.py:259-301 | declarations use each id below the first store's once, blocks define each remaining id once and in order, and the new bound is one past the last |
| ProbeIds.NothingLate | scripts/instrument-spirv-noop-probe.py:259-301 | everything the inserted code reads is declared or defined if and only if nothing is probed or %52 is there; no constant is requested late |
| ProbeBlocks.ProbeRuns | scripts/instrument-spirv-noop-probe.py:331-455 | from any values, an inserted block runs to its end, sets only fresh ids, and writes exactly the specified slots with the specified values |
| ProbeSound.InstrumentationInvisible | scripts/instrument-spirv-noop-probe.py:245-506 | original and probed module have the same runs for the host, in both directions, for any schedule |
| ProbeSound.ProbesKeepValues | scripts/instrument-spirv-noop-probe.py:245-506 | in every run every original id has, in every invocation, the value it has in a run of the original, and memory is the same |
| ProbeSharing.QuietIffFree | scripts/instrument-spirv-noop-probe.py:43-58 | where stores write through their pointers, every inserted block runs to its end, and leaves shared memory as it was if and only if the buffer at the probe's descriptor is writable and no variable of the module has it |
| ProbeSharing.SharedSchedule | scripts/instrument-spirv-noop-probe.py:331-455 | one invocation that runs a block without interruption does in the machine exactly what the block does on its own |
| ProbeWitness.SharedLeaks | scripts/instrument-spirv-noop-probe.py:43-58 | a module probed through the descriptor of its own buffer, in a world where all stores write: accepted, and not equivalent, because the probes write into that buffer |
| ProbeWitness.ZeroMissing | scripts/instrument-spirv-noop-probe.py:384-395 | a module that declares all it uses is accepted, and the probed module uses %52, which nothing declares |
| ProbeWitness.PremisesMet | scripts/instrument-spirv-noop-probe.py:245-506 | a module, target, dispatch and world for which all premises of the probe theorems hold at once |
| ProbeDescriptor.ChosenIsFree | scripts/analyze-spirv.py:487-515 | the descriptor the analyser picks is free in the sense the instrumented module needs, if the dispatch binds a buffer of its own to it |
| ProbeParser.U32SamplesToMap | scripts/parse-q6k-probe-u32.py:146-157 | the map holds each integer index's last sample |
| ProbeVerdict.LastSample | scripts/parse-q6k-probe-u32.py:146-157 | an index is in the map if and only if some sample has it, with the value of the last one |
| ProbeParser.ParseLaneTrace | scripts/parse-q6k-probe-u32.py:174-271 | the nested loops over regions and lanes give the specified lane report |
| ProbeParser.ParseBinding | scripts/parse-q6k-probe-u32.py:274-417 | the loop over the expected records gives the specified report: records, failures, unexpected words, verdict |
| ProbeVerdict.FailuresAre | scripts/parse-q6k-probe-u32.py:283-392 | for any buffer and writeback: exactly which candidate, role, trace, writeback, lane and header failures are listed, with what was found |
| ProbeVerdict.NoFailureIff | scripts/parse-q6k-probe-u32.py:274-417 | no failure is listed if and only if each record is blank, or has its candidate and role, its place if final, and agrees with a nonempty writeback; each lane is blank or has its number and candidate; and the header is valid or nothing of the trace is there |
| ProbeVerdict.StatusIs | scripts/parse-q6k-probe-u32.py:292-330 | the status and trace status of every record, from its slots |
| ProbeVerdict.PassIff | scripts/parse-q6k-probe-u32.py:400-416 | the report passes if and only if it has no failure and one of the two final records is not blank |
| ProbeVerdict.CountsAre | scripts/parse-q6k-probe-u32.py:362-400 | the three counts are those of the passed records, and a slot is unexpected if and only if it holds a nonzero number outside records, header and lanes |
| ProbeProtocol.ReportClean | scripts/parse-q6k-probe-u32.py:274-417 | for any interleaving of whole passes the report has no failure and no unexpected word, and a record is reported exactly for the targets that were passed |
| ProbeProtocol.LayoutLimits | scripts/instrument-spirv-noop-probe.py:134-142 | n records stay below the trace header if and only if n is at most ten, and a lane stays in its region if and only if it is below 32 |
| ProbeRun.ProtocolHolds | scripts/instrument-spirv-noop-probe.py:384-455 | instrument, dispatch under any schedule, stop when no invocation is inside a block, read back: no failure; some run of the source has the same outcome; a record is reported if and only if that run executed the target's store, with a value stored there; the report passes exactly if a final store was executed; of targets with the same pointer and object only the last is probed, so only its record is reported |
| Bisection.BisectRounds | scripts/analyze-spirv.py:398-433 | the rounds end, number the ceiling of log2 plus one, cover all candidates in order with balanced sizes, each candidate is in one leaf, and each round halves exactly the ranges of the one before that have more than one candidate |
| Bisection.CeilLog2Least | scripts/analyze-spirv.py:398-433 | that ceiling is the least exponent whose power of two reaches the count |
| ControlFlow.SummarizeCfg | scripts/analyze-spirv.py:231-396 | the state machine over the instructions gives the summarised functions and blocks |
| ControlFlow.SummaryDescribes | scripts/analyze-spirv.py:231-352 | each block is a label of the stream with the instructions behind it; entry and exit are the first instruction that is no phi and the first that merges or terminates |
| BlockCover.SummaryCovers | scripts/analyze-spirv.py:231-352 | the summarised blocks are exactly the labels inside functions, in order, each with all instructions up to the next label or the end of its function, its function and its number in it |
| BlockCover.SummaryPoints | scripts/analyze-spirv.py:271-345 | the entry point of every block is its first instruction that is no phi, the exit point its first merge or terminator |
| ControlFlow.EntryBeforeExit | scripts/analyze-spirv.py:271-345 | insertion points lie in the module and the entry never behind the exit |
| Predecessors.PredMap | scripts/analyze-spirv.py:354-368 | the three nested loops give each label its predecessors in order, once for each time it is named |
| Predecessors.TargetsIff | scripts/analyze-spirv.py:218-228 | exactly the words of a branch, conditional branch or switch that are labels |
| Predecessors.EnteringIff | scripts/analyze-spirv.py:218-228 | a block is a predecessor of exactly the labels its terminator names |
| Predecessors.EdgesConserved | scripts/analyze-spirv.py:354-368 | a label has as many predecessors as there are jumps to it |
| Predecessors.ConditionalPredecessors | scripts/analyze-spirv.py:534-557 | the loops give the conditional predecessors of each block |
| Predecessors.SidesExactIff | scripts/analyze-spirv.py:534-557 | a side is always found, and the sides listed are the real ones if and only if not both sides lead to the block |
| Predecessors.BothSidesTrue | scripts/analyze-spirv.py:534-557 | a branch with block 5 on both sides is listed twice as the true side of block 5 |
| Analysis.ChooseDebugDescriptor | scripts/analyze-spirv.py:487-515 | the search over sets and numbers ends in the first set it tries |
| Analysis.ChoiceMeans | scripts/analyze-spirv.py:487-515 | a descriptor is found if and only if one of 16 numbers is unused; its number is the least unused one, its set the least declared one or 0, and below 8 if and only if none is declared or a declared one is |
| AnalysisTables.PairsIff | scripts/analyze-spirv.py:1208-1235 | a set and binding is declared if and only if some variable has that binding, and that set or none and 0 |
| AnalysisTables.StoresExact | scripts/analyze-spirv.py:1318-1476 | every store is listed, in order, with its word index, operands, and where its pointer goes |
| Analysis.SetTooLarge | scripts/analyze-spirv.py:487-515 | for one descriptor at set 8 the choice is set 8 |
| Manifest.VerifyManifest | scripts/verify-spirv-probe-manifest.py:41-343 | the loops collect the findings of every check, from the schema to the last target, in order |
| Manifest.AcceptedIsSafe | scripts/verify-spirv-probe-manifest.py:41-343 | no finding implies: the file, if one is named, is the one described, every candidate of the range is named once, insertion points are inside and in order, the probe descriptor is within limits and collides with none, and fragments and dispatch are not allowed |
| ManifestAccepted.AcceptedExactly | scripts/verify-spirv-probe-manifest.py:41-343 | the verifier finds nothing if and only if, field by field: the fixed fields are right, the file is the one described if one is named, the descriptor is within limits, chosen, checked and free with all collision flags false, the candidates are the range's, each range lists its own indices, and every target has its role, place, captures and base |
| ManifestAccepted.UnnamedUnchecked | scripts/verify-spirv-probe-manifest.py:68-82 | an accepted manifest that names no file is accepted with any hash |
| ManifestBuild.BuildTargets | scripts/analyze-spirv.py:518-699 | the loops over output stores and phases give the planned targets |
| PlanShape.PhaseExact | scripts/analyze-spirv.py:636-682 | each output store's phase: its name, its place, and in order exactly the workgroup stores behind the output store before it that feed it, the first as partial result, the second as reduction, the rest after it |
| PlanShape.TargetPlaced | scripts/analyze-spirv.py:528-573 | a target has the first block whose range has its word, and the last candidate with that function and label |
| PlanShape.CandidatesExact | scripts/analyze-spirv.py:370-396 | the selected candidates are the blocks in the range, each with its number in the whole module, its labels and its insertion points |
| ManifestBuild.BuildProbeManifest | scripts/analyze-spirv.py:717-857 | a manifest is built exactly for files that can be analysed, and its acceptance is decided by the plan alone |
| ManifestBuild.PlanAccepted | scripts/analyze-spirv.py:717-857 | the verifier accepts the analyser's manifest if and only if the selection is not empty, its blocks end, a number below 16 is unused with a set below 8, all planned stores are in blocks, and where output and workgroup stores exist some output store has two workgroup stores in front |
| ManifestBuild.PlanRefused | scripts/analyze-spirv.py:717-857 | a module that is analysed and whose plan the verifier refuses for every range |
| Gguf.ParsePrint | scripts/gguf-tensor-range-index.py:123-157 | parsing inverts a printer of all nested metadata values, wherever they stand |
| Gguf.ParsedPrintable | scripts/gguf-tensor-range-index.py:123-157 | and every parsed value is printable and of the type asked for |
| Gguf.Reader.Value | scripts/gguf-tensor-range-index.py:123-157 | the recursive reader over the moving cursor computes that parse and stops where it stops |
| GgufIndex.TableBack | scripts/gguf-tensor-range-index.py:199-240 | reading a printed table gives it back, whatever follows |
| GgufLimits.ReadLimited | scripts/gguf-tensor-range-index.py:110-225 | every table that is read has at most 2000000 tensors, 1000000 entries, 16 dimensions, texts of 256 MiB and arrays of 1000000 items, at every depth |
| GgufLimits.LimitsExact | scripts/gguf-tensor-range-index.py:110-225 | the tables that can be written and read back are exactly those within these limits whose numbers fit their fields |
| GgufIndex.BuildIndex | scripts/gguf-tensor-range-index.py:199-263 | the loops over the cursor give the index or the error |
| GgufIndex.IndexFinds | scripts/gguf-tensor-range-index.py:199-263 | the index of a written file has that table, its tensors placed behind the aligned data start, each ending its exact size behind its start |
| GgufIndex.TensorBytesExact | scripts/gguf-tensor-range-index.py:160-170 | a tensor of a known type takes q blocks' bytes for the one q with (q-1) blocks < elements <= q blocks, and none for an unknown type |
| GgufIndex.ProductUnordered | scripts/gguf-tensor-range-index.py:164-166 | the number of elements does not depend on the order of the dimensions |
| GgufIndex.AlignUpLeast | scripts/gguf-tensor-range-index.py:117-120 | alignment gives the least multiple that is not below the value |
| GgufIndex.LookupRanges | scripts/gguf-tensor-range-index.py:266-310 | the loop gives the matches and covered bytes, or refuses |
| GgufIndex.LookupExact | scripts/gguf-tensor-range-index.py:266-296 | a lookup is refused only for a negative offset or an empty range; else it reports, in table order, exactly the tensors with a looked-up byte, and of each exactly its looked-up bytes |
| GgufIndex.CoveredExact | scripts/gguf-tensor-range-index.py:273-283 | covered bytes are never fewer than the looked-up bytes inside tensors, and as many if and only if none lies in two |
| GgufIndex.CoveredBounded | scripts/gguf-tensor-range-index.py:273-283 | for disjoint tensors they never exceed the length |
| GgufIndex.MatchesAccount | scripts/gguf-tensor-range-index.py:273-296 | the matches are exactly the tensors with a looked-up byte and account for all covered bytes |
| GgufIndex.SpacesAgree | scripts/gguf-tensor-range-index.py:271-272 | a payload lookup is the absolute lookup behind the data start, and finds what the table's own offsets say, moved by the data start |
| Json.Visit | scripts/verify-llama-gpu-artifact.py:418-440 | the recursive search with its early returns collects the first 16 hits in order |
| Json.SearchExact | scripts/verify-llama-gpu-artifact.py:399-557 | a search is empty if and only if no node anywhere in the artifact matches |
| Writeback.Q6WritebackEvidence | scripts/verify-llama-gpu-artifact.py:677-922 | the loops over rows and bindings give the evidence, or fail where a value cannot be looped over |
| Writeback.PassExact | scripts/verify-llama-gpu-artifact.py:677-922 | the summary passes if and only if every writable binding has equal nonzero hashes and every sampled row is on both sides with the same value, and nothing is listed as wrong |
| WritebackVerdict.SummaryExact | scripts/verify-llama-gpu-artifact.py:911 | the summary is a mismatch if and only if a row differs, two valid hashes differ, or one is marked; a pass if and only if all is proven; unverified otherwise |
| Classifier.Q6DescriptorInvariantMismatches | scripts/verify-llama-gpu-artifact.py:648-674 | the loops give the listed findings and one for each field of each binding that is not true |
| Classifier.ClaimExact | scripts/verify-llama-gpu-artifact.py:2119-2763 | a correctness claim is made for exactly the artifacts with all its grounds: native kernel, workgroup 32x1x1, true descriptor invariants, proven writeback, matching oracle, observed markers, no adverse field anywhere; a benchmark claim for exactly those that also have a CPU comparison and a speedup |
| Classifier.NeverClears | scripts/verify-llama-gpu-artifact.py:2561-2690 | an oracle mismatch is never classified as cleared, whatever the artifact's analyses say |
| ClassifierGrounds.GateFirst | scripts/verify-llama-gpu-artifact.py:2160-2470 | of ten grounds in order, the first that holds is the answer given before the Q6 evidence |
| ClassifierGrounds.VerdictFirst | scripts/verify-llama-gpu-artifact.py:2500-2560 | of nine grounds in order, each a condition on the evidence, the first that holds is the verdict; without one it is the split of an oracle mismatch, or inconclusive |
| ClassifierGrounds.SplitFirst | scripts/verify-llama-gpu-artifact.py:2561-2690 | the same for what an oracle mismatch is blamed on |
| ClassifierGrounds.BlockerExact | scripts/verify-llama-gpu-artifact.py:1067-1110 | what the u32 probe's report is blamed on, by the first thing its failures mention |
| ClassifierWitness.ClaimWithoutEvents | scripts/verify-llama-gpu-artifact.py:2119-2763 | an artifact with no oracle event counted for which the correctness claim is made |

## Left out

- Files, command lines, JSON encoding and external tools (`spirv-dis`, `spirv-as`, `spirv-val`, `adb`): assembly text is a list of instructions, an artifact or manifest is a value.
- FNV-1a: a function of the file's words; nothing is proved from equal hashes.
- Floating-point values are bit patterns, or real numbers where the classifier compares samples; rounding and NaN are not modelled.
- Calls, call stacks and memory models weaker than sequential consistency: the compiler's modules have one function, and invocations take turns one instruction at a time.
- Faulting sources: what the output does where the source may fault is not stated, because it differs.
- Words that a rewrite would give a bound of 2 to the 32 or more: the model returns an error where Python's unbounded number would fail later, on writing the file.
- Python's recursion limit and running out of memory.
- ProbeIds.NothingLate: is stated for bounds above 52; below, %52 would name an id of the probes' own.
- Instrumenter.InstrumentAssembly: which lines the source's pattern for a typed result matches is a parameter (`typed`), because it is a pattern over text.
- ProbeParser.ParseBinding: sample lists are lists of optional integers; the text of the report and its float renderings are not modelled, and a readback is at least 656 words long where runs are concerned.
- ProbeRun.ProtocolHolds: targets stand in the reader's order; with others the reader reports candidate or role failures by design.
- ControlFlow.SummarizeCfg: merge operands, histograms and counters are not modelled, and a block is a value that is replaced where the source updates a dictionary in place; edges are in `Predecessors`.
- ManifestBuild.BuildTargets: which workgroup variables feed an output store is a parameter, because the source follows expressions through shared and possibly cyclic dictionaries.
- ManifestBuild.PlanAccepted: holds for every such feeding relation, but does not say which one the source finds.
- Manifest.VerifyManifest: a field that is missing or of the wrong type is none; the source's type errors on values of unexpected types are not modelled.
- GgufIndex.BuildIndex: names are bytes, `infer_expert` is left out, and how Python's `int` reads an alignment that is not an integer is a parameter.
- Classifier.ClaimExact: sections that can only answer with a blocked claim (service readiness and API reconciliation, container exit, setup failure, settings propagation, prompt probes, speedup fields) and the analyses an oracle mismatch is split by are functions of the artifact; conversions of values to integers, numbers and text are parameters; exceptions in those sections are not modelled.
- The diagnostic texts and next actions of all scripts, documentation generators, device workflow scripts and the C source: no property to prove.
