# Verified model of the ControlVault 2 enrollment tools

The repository studies fingerprint enrollment on a Broadcom ControlVault 2
sensor.  This project models its three intricate parts in Dafny and proves what
they promise.

**USB capture analysis** (`Prelude`, `StableSort`, `UsbFraming`, `Reassembly`,
`Provenance`, `ChunkIndependence`, `OffsetRanges`, `CaptureLinks`,
`StableOffsets`, `UpdateExchanges`, `WholeMessages`, `ShapeComparison`).
Interleaved transfers are reassembled into length-prefixed messages with a
buffer per direction, and compared structurally.  The loops of the Python code
are methods proved against specification functions.

**Enrollment interposer and capture probe** (`DriverTypes`, `MetadataTrace`,
`InterposerMachine`, `CallLedger`, `Holding`, `Budgets`, `BudgetTightness`,
`ZeroInputTightness`, `SoloCalls`, `TraceRefinement`, `Interposer`, `CallerLoop`,
`CallerLimits`, `OuterDispatch`, `SessionTotals`, `SessionWitnesses`,
`CaptureProbe`).  A call is a sequence of atomic actions; any number of threads
interleave them; the vendor driver is an arbitrary function of everything that
happened before.  Counters wrap at 32 bits.
`Interposer.Process` and `CaptureProbe.ProbeProcess` are the C functions in
place, proved to be uninterrupted calls of these machines.  Above them stand the
caller loop of the test driver and the vendor plugin's dispatch table.

**Host coordinator, ABI adapter and commit** (`Buffers`, `AbiAdapter`,
`GenericCommit`, `CoordinatorSpec`, `CoordinatorRuns`, `CoordinatorOverAdapter`,
`Coordinator`).  Structures with arrays that are filled and cleared in place,
over native callbacks that may report any size and status.

`dafny verify dfyconfig.toml` checks everything.

Four findings qualify what one might expect:

- A message whose first fragment is one to three bytes long is dropped
  (`ChunkIndependence.ShortFragmentLosesMessage`); the exactness theorems state
  the exact condition.
- The live bytes of a direction need not be the start of any message: eight to
  eleven of them may already declare a length below twelve
  (`UsbFraming.LiveBytesMayDeclareTooLittle`), which the code notices with the
  twelfth byte; in all other cases they are
  (`UsbFraming.LiveBytesProperPrefixIff`).
- The enrollment caller re-queues a capture after 0xa4 and after a 0x8f that
  comes from the driver itself without any 0x8A; a re-arming session's captures
  are armed exactly after the other answers
  (`OuterDispatch.SessionCapturesArmed`), and such a 0x8f counts as a sample
  (`SessionTotals.SamplesExact`); sessions that show both are in
  `SessionWitnesses.UnarmedCaptureHappens`.
- Every budget ends when its 32-bit counter wraps
  (`BudgetTightness.AcceptedBudgetExact`,
  `ZeroInputTightness.ZeroInputBudgetExact`, `CaptureProbe.ProbeBoundExact`), and
  so does completeness of the probe (`CaptureProbe.CompleteStays`).

## Model

| member | source | states |
|---|---|---|
| `Reassembly.ReassembleMessages` | tools/compare_cv_usb_updates.py:93-159 | The nested loops over per-direction state return `Reassembled`, the specification all theorems below are about. |
| `Reassembly.TakeMessages` | tools/compare_cv_usb_updates.py:115-157 | The inner loop takes every whole message off the live bytes, each pass at least twelve bytes, and keeps or drops the state like the code. |
| `UsbFraming.LaneSound` | tools/compare_cv_usb_updates.py:98-157 | Soundness and conservation for one direction: every emitted segment starts with the magic, has its declared length of at least 12 and decodes to the reported fields; emitted, discarded and live bytes concatenate to the stream, so each byte is accounted for once; live bytes start with the magic and, from twelve on, are fewer than they declare (see the next row). |
| `UsbFraming.LiveBytesProperPrefixIff` | tools/compare_cv_usb_updates.py:98-154 | The live bytes of a direction are a proper prefix of some message if and only if they do not yet declare a length below twelve, which can happen only while there are eight to eleven of them. |
| `UsbFraming.LiveBytesMayDeclareTooLittle` | tools/compare_cv_usb_updates.py:115-122 | A transfer that leaves live bytes which no message starts with: a magic and a declared length of zero. |
| `UsbFraming.MagicRecheckUnreachable` | tools/compare_cv_usb_updates.py:115-118 | Removing the magic test at the head of the inner loop changes no run. |
| `Reassembly.ScanIsolated` | tools/compare_cv_usb_updates.py:96-157 | Before the sort, state and messages of one direction in an interleaved run are those of that direction run alone. |
| `Reassembly.ReassembledTowards` | tools/compare_cv_usb_updates.py:96-159 | One direction of the sorted result is the sort of that direction alone. |
| `Reassembly.DirectionIsolation` | tools/compare_cv_usb_updates.py:93-159 | Filtering the final result by direction equals reassembling only that direction, for every interleaving. |
| `Reassembly.ReassemblySound` | tools/compare_cv_usb_updates.py:93-159 | The ledger property of `LaneSound` for the list that is returned. |
| `StableSort.SortStable` | tools/compare_cv_usb_updates.py:159-159 | The sort keeps the order of messages of equal frame. |
| `StableSort.StableSortUnique` | tools/compare_cv_usb_updates.py:159-159 | It is the only function that sorts and keeps ties in order. |
| `StableSort.FilterSort` | tools/compare_cv_usb_updates.py:159-159 | The stable sort commutes with dropping elements. |
| `StableSort.SortOfSorted` | tools/compare_cv_usb_updates.py:159-159 | An ordered list is returned unchanged. |
| `Provenance.LaneProvenance` | tools/compare_cv_usb_updates.py:103-109 | Every message carries frame, time and endpoint of the transfer that holds its first byte, even when one transfer ends a message and starts several. |
| `Provenance.HolderSpans` | tools/compare_cv_usb_updates.py:103-109 | The transfer said to hold a byte does span it. |
| `Provenance.MessagesInFrameOrder` | tools/compare_cv_usb_updates.py:129-157 | With frames that do not decrease, one direction emits in frame order. |
| `Provenance.SortKeepsDirectionOrder` | tools/compare_cv_usb_updates.py:129-159 | The final sort then never reorders messages of one direction. |
| `ChunkIndependence.MessagesExact` | tools/compare_cv_usb_updates.py:98-157 | Whole messages and a cut-off one, in transfers of which none that is followed by further data ends 1-3 bytes into a message: exactly the messages come out. |
| `ChunkIndependence.NothingLostIff` | tools/compare_cv_usb_updates.py:101-154 | All bytes end up in their message or stay live if and only if no transfer ends 1-3 bytes into a message. |
| `ChunkIndependence.WholeStreamExactIff` | tools/compare_cv_usb_updates.py:101-154 | For whole messages the payloads alone are right if and only if the same holds. |
| `ChunkIndependence.ChunkIndependence` | tools/compare_cv_usb_updates.py:93-159 | Chunk independence of the final result, whatever the other direction interleaves. |
| `ChunkIndependence.ChunkIndependenceIff` | tools/compare_cv_usb_updates.py:93-159 | The exact condition for the final result on streams of whole messages. |
| `WholeMessages.MessagesDecoded` | tools/compare_cv_usb_updates.py:93-159 | Under the same conditions message k of a direction is the decoding of the k-th message of its stream, with frame, time and endpoint of the transfer that holds its first byte. |
| `WholeMessages.SameMessagesSameExchanges` | tools/compare_cv_usb_updates.py:93-334 | Two cleanly cut captures of the same messages that agree on where each message starts give the same list and the same update exchanges, however they cut and interleave the rest. |
| `ChunkIndependence.ShortFragmentLosesMessage` | tools/compare_cv_usb_updates.py:101-102 | A concrete capture that loses a message because its first fragment is shorter than the magic. |
| `OffsetRanges.ContiguousRanges` | tools/compare_cv_usb_updates.py:194-206 | The loop returns canonical ranges whose expansion is the given list, for every integer list. |
| `OffsetRanges.CanonicalUnique` | tools/compare_cv_usb_updates.py:194-206 | Expansion and canonicity determine the ranges. |
| `OffsetRanges.CanonicalMinimal` | tools/compare_cv_usb_updates.py:194-206 | No list of non-empty ranges with the same expansion is shorter. |
| `OffsetRanges.IncreasingRangesSeparated` | tools/compare_cv_usb_updates.py:194-206 | For strictly increasing offsets the ranges are disjoint, ascending and not adjacent. |
| `OffsetRanges.RangesAreMaximalRuns` | tools/compare_cv_usb_updates.py:194-206 | For strictly increasing offsets the ranges are exactly the maximal runs. |
| `OffsetRanges.RangesExact` | tools/compare_cv_usb_updates.py:194-206 | The recursive ranges used by the trim specification are the canonical ones. |
| `CaptureLinks.TrimBlocks` | tools/compare_cv_usb_updates.py:269-291 | The loop over blocks returns `Trimmed`. |
| `CaptureLinks.KeepLongRuns` | tools/compare_cv_usb_updates.py:281-290 | The inner loop appends the runs of at least the minimum size. |
| `CaptureLinks.LinksAreMaximalRuns` | tools/compare_cv_usb_updates.py:275-290 | A block reports a link if and only if it is a maximal varying run of at least the minimum size, aligned as the block is. |
| `CaptureLinks.LinksAscend` | tools/compare_cv_usb_updates.py:281-290 | Each run is reported once, in ascending order, never touching. |
| `CaptureLinks.TrimmedLinksMatch` | tools/compare_cv_usb_updates.py:269-291 | Blocks that are byte matches yield links that are byte matches inside the variable offsets. |
| `StableOffsets.DifferingExact` | tools/compare_cv_usb_updates.py:215-223 | An offset differs exactly when one payload lacks it or the bytes differ; each is listed once, ascending. |
| `StableOffsets.NoDifferenceIffEqual` | tools/compare_cv_usb_updates.py:215-223 | No difference is reported if and only if the payloads are equal. |
| `StableOffsets.StableExact` | tools/compare_cv_usb_updates.py:226-234 | An offset is stable exactly when all payloads have it with one value. |
| `StableOffsets.VariableIsUnionOfDifferences` | tools/compare_cv_usb_updates.py:343-347 | The variable set is the union of the differences from the first request below the minimum length. |
| `StableOffsets.StableOfConcatenation` | tools/compare_cv_usb_updates.py:226-234 | Stable offsets of two groups together: stable in both, with the same first value. |
| `UpdateExchanges.CollectUpdateExchanges` | tools/compare_cv_usb_updates.py:294-334 | The loop yields one exchange for every outgoing update and no other message. |
| `UpdateExchanges.ExchangeMeaning` | tools/compare_cv_usb_updates.py:301-331 | Response and capture of every exchange: first later incoming update, last incoming capture of the interval, missing only if there is none. |
| `UpdateExchanges.IntervalsTile` | tools/compare_cv_usb_updates.py:296-333 | Intervals and requests tile the list up to the last request. |
| `UpdateExchanges.NoUpdateAmongPreceding` | tools/compare_cv_usb_updates.py:320-324 | Preceding commands never contain 0x6c. |
| `UpdateExchanges.ResponsesMonotone` | tools/compare_cv_usb_updates.py:301-309 | Response positions do not decrease and missing responses form a suffix. |
| `UpdateExchanges.ResponsesDistinctIff` | tools/compare_cv_usb_updates.py:301-309 | Responses are distinct if and only if an incoming update separates each two consecutive requests that have responses. |
| `ShapeComparison.FirstDifferenceExact` | tools/compare_cv_usb_updates.py:411-436 | The reported index is the first at which the lists differ or one ends; none means equal. |
| `ShapeComparison.ShapeDifferenceLaws` | tools/compare_cv_usb_updates.py:406-436 | Symmetry, none exactly for equal shapes, and the ultrametric law. |
| `ShapeComparison.CountsListEachShapeOnce` | tools/summarize_cv_usb_pcap.py:36-69 | Each shape is listed once, with its multiplicity, in strict key order. |
| `ShapeComparison.CountsOfPermutation` | tools/summarize_cv_usb_pcap.py:36-69 | Every permutation of an OUT/IN input gives the same summary. |
| `ShapeComparison.CountsConserveTotal` | tools/summarize_cv_usb_pcap.py:38-46 | The counts add up to the number of messages. |
| `MetadataTrace.TraceOneCall` | tools/enrollment_0x89_rearm_preload.c:475-693 | One traced call reports what the full history prescribes, and the constant-size state remembers the longer history. |
| `TraceRefinement.SessionReportsHistory` | tools/enrollment_0x89_rearm_preload.c:475-693 | After every call sequence, policy and native behaviour, all reports are the relations read off the full history. |
| `TraceRefinement.TracingChangesNothingElse` | tools/enrollment_0x89_rearm_preload.c:755-775 | With the trace on or off, every schedule of every number of threads has the same native calls, returns, memory and policy counters. |
| `Interposer.Process.MetadataBeforeUpdate` | tools/enrollment_0x89_rearm_preload.c:475-622 | The comparisons of the code, in place, make the report and the trace state of the specification; nothing else changes. |
| `Interposer.Process.CompareInputs` | tools/enrollment_0x89_rearm_preload.c:508-542 | The branches on the first call, null inputs and remembered values yield the specified relations. |
| `Interposer.Process.RememberInputs` | tools/enrollment_0x89_rearm_preload.c:601-619 | What is remembered of this call, and of the first. |
| `Interposer.Process.MetadataAfterUpdate` | tools/enrollment_0x89_rearm_preload.c:624-693 | The comparisons of the outputs, in place, make the closing report and remember the output. |
| `Interposer.Process.ForwardUpdate` | tools/enrollment_0x89_rearm_preload.c:755-775 | A native update and its trace are the machine's three steps. |
| `Interposer.Process.GateInput` | tools/enrollment_0x89_rearm_preload.c:711-753 | Readiness, required input, budget and the zeroed static buffer are the machine's gates. |
| `Interposer.Process.BoundSuccess` | tools/enrollment_0x89_rearm_preload.c:788-844 | A fresh policy's native success is blocked, bounded or re-armed as the machine does it. |
| `Interposer.Process.SendRearm` | tools/enrollment_0x89_rearm_preload.c:895-922 | The 0x8A command with its attempt counter and its fatal failures. |
| `Interposer.Process.UpdateEnrollment` | tools/enrollment_0x89_rearm_preload.c:695-923 | The whole function in place is one uninterrupted call of the machine, for all four policies. |
| `InterposerMachine.SoloIsRun` | tools/enrollment_0x89_rearm_preload.c:695-923 | An uninterrupted call is one of the thread schedules, so facts about schedules apply to it. |
| `InterposerMachine.ReachThenSolo` | tools/enrollment_0x89_rearm_preload.c:695-923 | So is a further call after any schedule that left none in progress. |
| `CallLedger.StepKeepsLedger` | tools/enrollment_0x89_rearm_preload.c:776-922 | Every atomic action keeps the ledger of its call, whatever other threads did to the shared state. |
| `CallLedger.EveryReturnKeepsContract` | tools/enrollment_0x89_rearm_preload.c:409-417 | Re-arm ledger, in every interleaving: at most one 0x8A per call; 0x89 is returned exactly when the last native status was 0x89 and 0x8A then succeeded; a failed 0x8A never surfaces as 0, 0x89, 0xa4 or 0x8f; at most two native updates, two only for the legacy policy after a first 0x59; a fresh success needs completion byte zero. |
| `Budgets.ZeroInputBudget` | tools/enrollment_0x89_rearm_preload.c:730-748 | At most 24 native updates under the zero-input policy in any interleaving of fewer than 2^32 calls, and the bound beyond. |
| `ZeroInputTightness.ZeroInputBudgetExact` | tools/enrollment_0x89_rearm_preload.c:730-748 | With every driver, n calls in a row make exactly as many native updates as the wrapping counter allows: 24 from the 24th call on, and more than 24 if and only if n reaches 2^32. |
| `Budgets.AcceptedBudget` | tools/enrollment_0x89_rearm_preload.c:797-819 | At most three successes under the re-arming policies, likewise. |
| `Budgets.PassesWithinLimitIff` | tools/enrollment_0x89_rearm_preload.c:797-819 | A wrapping counter lets no more than its limit pass if and only if it has been drawn fewer than 2^32 times. |
| `Budgets.RetryAttemptCountsRearms` | tools/enrollment_0x89_rearm_preload.c:821-829 | In every schedule `retry_attempt` is the number of 0x8A commands sent or about to be sent, modulo 2^32. |
| `BudgetTightness.AcceptedBudgetExact` | tools/enrollment_0x89_rearm_preload.c:797-819 | With a driver that accepts everything, the limit of three is reached, and holds if and only if there were fewer than 2^32 calls. |
| `SoloCalls.SoloTrail` | tools/enrollment_0x89_rearm_preload.c:695-923 | What one uninterrupted call adds to the log, and that it keeps the contract. |
| `SoloCalls.FreshSuccessIsIncomplete` | tools/enrollment_0x89_rearm_preload.c:788-804 | A fresh policy returns success only with a completion pointer whose byte is zero in the memory the caller then sees. |
| `SoloCalls.ZeroInputStable` | tools/enrollment_0x89_rearm_preload.c:749-752 | Every native update of the zero-input policy gets the static buffer with twenty zeros, even if earlier native calls wrote to it. |
| `CallerLoop.Update` | tests/fixtures/mock_cv2_driver.c:259-268 | One update with the wrapper's cancel on every status but 0, 0xa4 and 0x89. |
| `CallerLoop.SequentialUpdates` | tests/fixtures/mock_cv2_driver.c:259-295 | The loop makes one capture between two updates, goes on only after success, and stops at the requested count; update k gets the caller's arguments, on the buffers the update before left except for the next ID. |
| `CallerLoop.RunEnrollment` | tests/fixtures/mock_cv2_driver.c:220-336 | A whole attempt: abort on an invalid count; otherwise its outline is the script of its returned statuses; the buffers of every update are those its predecessor left, with the copied, changed or unchanged ID, and untouched for a repetition; under both re-arming policies every capture start follows a successful 0x8A with no native command in between; every property that calls and caller commands keep is kept. |
| `CallerLoop.SoloArms` | tools/enrollment_0x89_rearm_preload.c:895-922 | Under a re-arming policy a call that returns 0 or 0x89 leaves the driver armed. |
| `CallerLimits.TranscriptCommands` | tests/fixtures/mock_cv2_driver.c:259-318 | Every run cancels once or not at all, exactly when its last status is not 0, 0xa4 or 0x89; discards at most once, with the exact condition; the number of captures. |
| `CallerLimits.CallsConserved` | tests/fixtures/mock_cv2_driver.c:259-318 | In every schedule the calls begun are those returned and those in progress. |
| `CallerLimits.EnrollOnce` | tests/fixtures/mock_cv2_driver.c:220-336 | A new process and one attempt: at most one cancel and one discard; under a re-arming policy at most three successes and four captures, all armed. |
| `OuterDispatch.FreshNeverComplete` | docs/enrollment-0x59-analysis.md:92-100 | Under a fresh policy the wrapper never returns 0, whatever the driver does. |
| `OuterDispatch.CommitQueuedIff` | docs/enrollment-0x59-analysis.md:94-112 | An update queues the commit if and only if the policy is the legacy one, the raw status is 0 and the completion byte is not. |
| `OuterDispatch.FreshNeverCommits` | docs/enrollment-0x59-analysis.md:94-114 | No session under the three fresh policies ever moves to state 2, sends a commit or completes. |
| `OuterDispatch.ArmedAfterUpdate` | docs/enrollment-0x59-analysis.md:104-112 | After a re-arming update the driver is armed for raw 0 and 0x89, and not armed for the two other answers that queue a capture, 0xa4 and a raw 0x8f. |
| `OuterDispatch.SessionCapturesArmed` | docs/enrollment-0x59-analysis.md:104-114 | In every session of a re-arming policy a capture starts armed if and only if the answer before it was neither 0xa4 nor a raw 0x8f. |
| `SessionTotals.SessionReachable` | docs/enrollment-0x59-analysis.md:78-114 | Every session is a schedule of the interposer, so budgets and contracts hold in it. |
| `SessionTotals.SamplesExact` | docs/enrollment-0x59-analysis.md:106-108 | Under a fresh policy the sample counter is the number of successful updates plus the raw 0x8f answers. |
| `SessionTotals.SamplesBounded` | docs/enrollment-0x59-analysis.md:106-108 | Under a re-arming policy at most three samples beyond those raw answers. |
| `SessionWitnesses.UnarmedCaptureHappens` | docs/enrollment-0x59-analysis.md:104-114 | Both exceptions occur: with a driver that answers 0xa4, or 0x8f, a session starts a capture that nothing armed; 0x8f has by then counted as a sample although no update succeeded. |
| `SessionWitnesses.LegacyCommits` | docs/enrollment-0x59-analysis.md:112-113 | Under the legacy policy three tasks reach the commit, so the restriction to fresh policies is needed. |
| `CaptureProbe.ProbeContract` | tools/capture_get_result_probe_preload.c:291-348 | In every schedule: at most one native call per time the wrapping counter returns one, hence at most one in the first 2^32 intercepted updates; fixed selector, capacity and a zeroed buffer; every call returns 0x100003. |
| `CaptureProbe.ProbeBoundExact` | tools/capture_get_result_probe_preload.c:291-348 | With every native function, n usable updates in a row reach that bound: one native call up to 2^32 updates, a second one with the next. |
| `CaptureProbe.CompleteStays` | tools/capture_get_result_probe_preload.c:250-257 | Once complete, complete for the first 2^32 intercepted updates exactly until the last of them wraps the counter. |
| `CaptureProbe.ReadersAreRight` | tools/capture_get_result_probe_preload.c:250-257 | A thread that loads the three atomics one by one, at different times, and answers yes is right from then on. |
| `CaptureProbe.NoPayloadLeft` | tools/capture_get_result_probe_preload.c:321-342 | What is freed is all zero, whatever the native function wrote: one wiped buffer for each native call, none kept once no call is in progress; other buffers hold something only between the native call and the wipe. |
| `CaptureProbe.ProbeProcess.UpdateEnrollment` | tools/capture_get_result_probe_preload.c:271-349 | The function in place is one uninterrupted call of the probe's machine and returns the failure status. |
| `CaptureProbe.ProbeProcess.ReadCapture` | tools/capture_get_result_probe_preload.c:328-342 | Native call, store of the flag, and the private array, which holds only zeros when it is given up. |
| `CaptureProbe.FinishIsRun` | tools/capture_get_result_probe_preload.c:271-349 | An uninterrupted call is one of the schedules. |
| `Buffers.SecureClear` | tools/bcm5880_linux_abi_adapter.c:10-17 | The clearing loop zeroes exactly the first n bytes. |
| `AbiAdapter.GuardBounds` | tools/bcm5880_linux_abi_adapter.c:87-93 | A reported size never exceeds the capacity; an overrun, and only that, becomes 0x47 with size zero over a zeroed buffer; "success with nothing" passes through unchanged. |
| `AbiAdapter.Init` | tools/bcm5880_linux_abi_adapter.c:19-51 | An adapter is initialised exactly in mock mode with all three callbacks; otherwise the first fault is named, missing arguments before the mode, and the adapter is cleared. |
| `AbiAdapter.Adapter.Clear` | tools/bcm5880_linux_abi_adapter.c:53-58 | A cleared adapter is uninitialised, and so refuses every call. |
| `AbiAdapter.Adapter.CaptureGetResult` | tools/bcm5880_linux_abi_adapter.c:60-94 | Refused calls reach no native function and change nothing; accepted ones reach it once, and size and buffer are the guarded reply. |
| `AbiAdapter.Adapter.CreateTemplate` | tools/bcm5880_linux_abi_adapter.c:96-144 | The same for four features, each with a size in range and a pointer. |
| `AbiAdapter.Adapter.CommitEnrollment` | tools/bcm5880_linux_abi_adapter.c:146-194 | The same for token, two optional inputs, optional output and result. |
| `GenericCommit.Phase` | tools/bcm5880_generic_commit_sequence.c:45-57 | One commit call through the adapter, with the fixed inputs. |
| `GenericCommit.ClosingSizeIsZero` | tools/bcm5880_generic_commit_sequence.c:81-87 | Behind the adapter the second phase never reports a size: the size test there is unreachable. |
| `GenericCommit.AllOrNothing` | tools/bcm5880_generic_commit_sequence.c:36-89 | A run returns 0 if and only if the native function was called twice with the same token and inputs, giving first status 0 and 1 to 0x800 bytes, then status 0 and none; every other run makes one or two calls and leaves no byte and no size. |
| `GenericCommit.CommitRun` | tools/bcm5880_generic_commit_sequence.c:28-90 | The run in place is that specification; with a missing pointer it calls nothing and leaves the output alone. |
| `CoordinatorRuns.GoodIsBuffered` | tools/bcm5880_enrollment_coordinator.c:139-147 | A usable feature goes byte for byte into the next slot and touches no other. |
| `CoordinatorRuns.LastErrorExact` | tools/bcm5880_enrollment_coordinator.c:125-136 | The last error of a whole run from its calls alone: which error the last call gets, given whether the calls before it left fewer than four relevant, all usable ones. |
| `CoordinatorRuns.TemplateCallsExact` | tools/bcm5880_enrollment_coordinator.c:114-193 | Over any run the template callback runs at most once: with the first four calls not meant for another enrollment, in order and byte for byte, if all four are usable; and the run is over exactly after four such calls or an unusable one. |
| `CoordinatorRuns.MismatchesDeletable` | tools/bcm5880_enrollment_coordinator.c:131-134 | Calls with another ID can be deleted from a run; only the last error may differ, and only if the last call is deleted. |
| `CoordinatorRuns.AlwaysFailClosed` | tools/bcm5880_enrollment_coordinator.c:37-64 | In every reachable state: over and not ready means ID, sizes, features, template and token are zero and counts are zero; ready means a size of 1 to 0x708, no buffered feature and a token ending in sixteen zeros. |
| `CoordinatorRuns.TokenTail` | tools/bcm5880_enrollment_coordinator.c:181-189 | The token is the callback's four bytes and sixteen zeros. |
| `CoordinatorRuns.ReadyOnce` | tools/bcm5880_enrollment_coordinator.c:190-192 | A run reports its template once if it ends ready, and otherwise never. |
| `CoordinatorRuns.TerminalForGood` | tools/bcm5880_enrollment_coordinator.c:129-130 | After the end nothing but the last error changes. |
| `CoordinatorRuns.SnapshotsConsistent` | tools/bcm5880_enrollment_coordinator.c:195-215 | Snapshots show a template size exactly when ready and buffered features only before the end. |
| `CoordinatorOverAdapter.PassedOnIsGuard` | tools/bcm5880_linux_abi_adapter.c:137-143 | What the adapter leaves in the buffer is what its reply as a callback writes there. |
| `CoordinatorOverAdapter.CallAdapter` | tools/bcm5880_linux_abi_adapter.c:96-144 | The adapter's method, called in place as the coordinator calls it, is that callback. |
| `CoordinatorOverAdapter.NativeSeesEveryCall` | tools/bcm5880_enrollment_coordinator.c:151-168 | The coordinator's template call always passes the adapter's checks and is answered by the native function for exactly that call, at most once. |
| `CoordinatorOverAdapter.OnlyTheAnswerMatters` | tools/bcm5880_enrollment_coordinator.c:151-168 | Two native functions that agree on that one call give the same run, whatever they answer elsewhere. |
| `CoordinatorOverAdapter.FourthOverAdapter` | tools/bcm5880_enrollment_coordinator.c:151-192 | The fourth feature over the adapter: native called once with the four features; overrun gives 0x47 and a template-status error; template-size error exactly when native returns status 0 with size 0; ready exactly otherwise unless the random callback fails. |
| `Coordinator.New` | tools/bcm5880_enrollment_coordinator.c:66-103 | Refusals of a bad configuration, and the state of a new coordinator. |
| `Coordinator.Enrollment.Reject` | tools/bcm5880_enrollment_coordinator.c:37-64 | Clearing in place is the specified clearing, and happens once. |
| `Coordinator.Enrollment.BufferFeature` | tools/bcm5880_enrollment_coordinator.c:139-147 | Copying in place is the specified buffering. |
| `Coordinator.Enrollment.CreateTemplate` | tools/bcm5880_enrollment_coordinator.c:151-192 | Template call, checks and token in place are the specified ones. |
| `Coordinator.Enrollment.AcceptFeature` | tools/bcm5880_enrollment_coordinator.c:114-193 | The method on arrays is the specified step for the bytes behind the caller's pointers at the time of the call. |
| `Coordinator.OfferAll` | tools/bcm5880_enrollment_coordinator.c:114-193 | A run through one ID buffer and one feature buffer, overwritten after every call, is the run on values. |

## Left out

- Symbol resolution, one-time initialisation and target validation of both preloads: one Boolean `ready`.
- All output text: logging, report formatting, enum names; only the relations and numbers behind them are modelled.
- tshark, parsing of its text, argument parsing and file access.
- `SequenceMatcher`: matching blocks are given triples; the eight-distinct-bytes filter in front of the trim is not modelled.
- The audit and target validators, Frida tracers, PowerShell and shell runners and the libfprint harnesses.
- Allocation failure in the coordinator, compile-time gates, the free function and calls on a null coordinator.
- Memory overruns by native code: callbacks write only inside the buffers they are given, but may report any size or status.
- Times are numbers without floating-point rounding; they are copied, never computed with.
- Per-direction state dictionaries of the reassembler are values of a map that the method reassigns; two directions never share a buffer, so aliasing is not lost.
- TraceRefinement.SessionReportsHistory: sequential calls only; with several threads the source interleaves its own snapshots. `TracingChangesNothingElse` holds for every schedule.
- InterposerMachine.Step: drawing the call number and updating the trace under its lock are one atomic action, the two reads of the completion byte are one, and clearing the zero buffer belongs to the ticket that allows it.
- SoloCalls.ZeroInputStable: stated for uninterrupted calls, because the static buffer is shared without a lock.
- CallerLoop.RunEnrollment: environment variables are the fields of `Settings`; the stand-in driver of the same file is replaced by an arbitrary one; counters of commands are counts over the log.
- OuterDispatch.RunTask: the user's cancellation, the interrupt loop and the statuses of capture start, which the plugin does not test, are not modelled; a retried task keeps the state it ran in, as the queue helper copies it.
- Coordinator.Enrollment.AcceptFeature: the caller's buffers are not the coordinator's own, which C guarantees only by hiding the structure.
- GenericCommit.CommitRun: token and output are different buffers.
