# FaultSim core in Dafny

This project models the core of FaultSim, a Monte Carlo simulator of DRAM reliability. FaultSim
injects faults into memory devices, checks them against an error-correcting scheme, and counts
how many simulated lifetimes end in an uncorrectable or undetectable error. This project covers:

- **Fault ranges** (`fault_range.dfy`, `words.dfy`). A range is an address word plus a wildcard
  mask. The fast three-operation intersection test equals the per-bit reference loop.
- **Address layout** (`geometry.dfy`, `layout.dfy`, `range_gen.dfy`). This is how a device lays
  out rank|bank|row|col|bit into a 64-bit word for each fault class and for through-silicon-via
  (TSV) faults. It also gives the number of bits a range covers.
- **DRAM devices** (`dram_domain.dfy`). The class `Chip` holds the per-interval fault
  injection for the seven fault classes, test mode, TSV fault injection, scrub,
  reset and the statistics counters.
- **Fault domains** (`fault_domain.dfy`). The class `Group` holds a group of devices: update,
  repair through its schemes, fill-in of replacements, scrub, finalize, reset and statistics. It
  covers both the DIMM group and the stacked-memory ("cube") group with its TSV wiring.
- **Repair schemes.** These are the schemes the simulator applies to a group:
  - `bch.dfy`: BCH over DIMM words;
  - `bch_cube.dfy`: BCH over cube data blocks;
  - `chipkill.dfy`: ChipKill over symbols;
  - `chipkill_cube.dfy`: ChipKill for cubes, including the bank relocation and the per-range
    touch counters;
  - `cube_raid.dfy`: RAID across the devices of a cube.

  `scheme_common.dfy` holds what they share: the first match in a list, the count of devices
  hit, the table of verdicts and the sweep that applies it.
- **The interval simulation** (`simulation.dfy`). The class `Simulation` holds one trial
  (`runOne`), the scrub schedule, the failure histograms and the trial loop (`simulate`). The
  domain answers come in as inputs, and the model records the calls the engine makes.
- **The event-driven simulation** (`event_simulation.dfy`). This is how `EventSimulation::runOne`
  generates every device's fault arrivals up to the end of a lifetime, then handles them
  latest first through a max-heap. It scrubs every domain when an event's scrub period (its
  time over the scrub interval) differs from the previous event's, and logs failures in the
  bin of the event's time.

Randomness comes in as parameters: the draws of the address fields, the per-interval
outcomes of the fault injection, and the arrival periods. The clock, printing and
configuration parsing are not modelled.

## Model

| member | source | states |
|---|---|---|
| FaultRanges.NewRange | src/FaultRange.cpp:13-28 | a new range is permanent, not TSV, address and mask 0, untouched, removable by scrub, no bits, timestamp 0 |
| FaultRanges.Intersects | src/FaultRange.cpp:62-87 | the three-operation test (OR of masks, complemented XOR of addresses) is true exactly when no bit position is concrete on both sides with different address bits |
| FaultRanges.IntersectsSlow | src/FaultRange.cpp:32-58 | the 64-step per-bit loop returns the same answer as the fast test on every pair of ranges |
| FaultRanges.IntersectsSymmetric | src/FaultRange.cpp:62-87 | intersection does not depend on argument order |
| FaultRanges.IntersectsSelf | src/FaultRange.cpp:62-87 | every range intersects itself |
| FaultRanges.IntersectsConcrete | src/FaultRange.cpp:62-87 | two ranges without wildcard bits intersect iff their addresses are equal |
| FaultRanges.IntersectsAllWild | src/FaultRange.cpp:62-87 | a range wild in all 64 bits intersects every range, on either side |
| FaultRanges.WidenIntersects | src/BCHRepair.cpp:44-50 | a copy with extra wildcard bits, as the schemes build their queries, still meets the range it came from |
| FaultRanges.WideningKeepsIntersection | src/FaultRange.cpp:62-87 | setting more wildcard bits on one side keeps an existing intersection, on both sides |
| FaultRanges.Describe | src/FaultRange.cpp:89-127 | decoding the address and the mask field by field from the lowest bit yields the rank, bank, row, column and bit fields `Unpack` defines |
| Words.WordsIntersectIff | src/FaultRange.cpp:69-73 | the three-operation word test is zero exactly when the conflict word is zero |
| Words.ConflictLowBit | src/FaultRange.cpp:40-43 | the per-bit loop's test on the lowest bit passes exactly when bit 0 of the conflict word is clear |
| Words.ConflictHalf | src/FaultRange.cpp:45-48 | shifting all four words right by one shifts their conflict word right by one |
| Words.Clear64 | src/FaultRange.cpp:38-57 | examining all 64 positions one shift at a time finds no conflict iff the conflict word is zero |
| Words.ConflictSymmetric | src/FaultRange.cpp:69-73 | the conflict word does not depend on the order of the two ranges |
| Words.ConflictConcrete | src/FaultRange.cpp:69-73 | two concrete words conflict unless they are equal |
| Words.ConflictWider | src/FaultRange.cpp:69-73 | more wildcard bits on one side keep a conflict-free pair conflict-free |
| Geometry.Log2 | src/DRAMDomain.cpp:50-54 | the stored log of a size is the largest k with 2^k at most the size |
| Geometry.Log2OfPow2 | src/DRAMDomain.cpp:50-54 | the log of a power of two is its exponent |
| Geometry.LogsBelow32 | src/DRAMDomain.cpp:24-54 | every field of a device with 32-bit sizes is at most 31 bits wide |
| Layout.UnpackPack | src/FaultRange.cpp:89-118 | reading the fields back from a packed address yields the fields again |
| Layout.PackBound | src/DRAMDomain.cpp:367-442 | a packed address fits into the device's address width |
| Layout.StepExact | src/DRAMDomain.cpp:385-396 | a shift-and-OR layout step on fields that fit their widths appends the field exactly |
| Layout.StepLowBits | src/DRAMDomain.cpp:434-437 | the last layout step leaves the ORed value in the lowest bits, whatever was shifted out |
| Layout.ShiftLeftAligned | src/DRAMDomain.cpp:385-386 | a 64-bit left shift by k leaves the lowest k bits clear, even when high bits are lost |
| Layout.BitAndLowMask | src/FaultRange.cpp:97 | AND with 2^k - 1 keeps the lowest k bits |
| Layout.AppendSplit | src/FaultRange.cpp:97-98 | splitting off the lowest w bits undoes appending them |
| RangeGen.StepsAreWords | src/DRAMDomain.cpp:378-428 | every intermediate address and mask of the layout stays a 64-bit word |
| RangeGen.LayoutExact | src/DRAMDomain.cpp:378-428 | the five layout steps over fields that fit their widths build the packed address |
| RangeGen.FieldsFit | src/DRAMDomain.cpp:378-428 | a drawn field (draw modulo size) and a wild field (size - 1) are below their field size |
| RangeGen.GenLayout | src/DRAMDomain.cpp:367-442 | for power-of-two sizes whose address fits 64 bits, a non-TSV range decodes to its drawn fixed fields and all-ones wild fields, within the address width |
| RangeGen.GenTsvLowBits | src/DRAMDomain.cpp:430-438 | a TSV range holds the given row-bit position in its joint column and bit field, with no wildcard bits there |
| RangeGen.GenMaxFaultsExact | src/DRAMDomain.cpp:375-427 | `max_faults` is the product of the sizes of the wild fields whenever that product fits 64 bits |
| RangeGen.CoverageAtMostDevice | src/DRAMDomain.cpp:375-427 | a range never covers more bits than its device holds |
| RangeGen.ClassMaxFaults | src/DRAMDomain.cpp:330-365 | the bits covered by each class: 1 for 1BIT, the bit width for 1WORD, rows x width for 1COL, cols x width for 1ROW, a bank, all banks of a rank, the whole device for NRANK |
| DramDomain.Realized | src/DRAMDomain.cpp:131-157 | one range is built per injection call, in call order |
| DramDomain.RealizedAppend | src/DRAMDomain.cpp:124-197 | the ranges of consecutive batches of calls are the concatenation of each batch's ranges |
| DramDomain.ClassTally | src/DRAMDomain.cpp:124-160 | drawing one class keeps the per-class counters one entry per class |
| DramDomain.DieTallyCounts | src/DRAMDomain.cpp:124-161 | one interval adds to the transient and permanent totals, and to each class's counter, exactly the number of firing draws of that kind |
| DramDomain.TestModeFired | src/DRAMDomain.cpp:145-160 | in test mode k the classes below n fire once in all iff they include class k - 1, whatever the draws |
| DramDomain.TestModeRequests | src/DRAMDomain.cpp:145-160 | in test mode k an interval makes exactly two calls, a transient one then a permanent one, both with class k - 1's pattern |
| DramDomain.TestModeTally | src/DRAMDomain.cpp:145-160 | in test mode k an interval adds one fault of each kind, both to class k - 1 |
| DramDomain.RowbitBound | src/DRAMDomain.cpp:176-178 | every row position a TSV fault gives lies inside the row and fits 32 bits |
| DramDomain.TsvFault | src/DRAMDomain.cpp:176-193 | one TSV fault becomes `m_cols * m_bitwidth / cube_data_tsv` ranges |
| DramDomain.TsvOnce | src/DRAMDomain.cpp:168-195 | a TSV fault materialises at most once: its new state makes no calls, counts nothing and is a fixed point |
| DramDomain.TsvFaultRanges | src/DRAMDomain.cpp:170-194 | state 1 yields permanent TSV ranges and state 2 transient ones, each wild in rank, bank and row and fixed at its row position |
| DramDomain.ScrubKeeps | src/DRAMDomain.cpp:267-282 | scrubbing only removes ranges, and keeps every range that is permanent or not marked removable |
| DramDomain.ScrubSkipsNext | src/DRAMDomain.cpp:273-280 | the range right after an erased one is skipped by the loop and survives even when erasable; erasing the last range runs past the end |
| DramDomain.Chip.constructor | src/DRAMDomain.cpp:24-56 | a new device has no ranges, zero counters and zero probabilities, and the cube settings of a fresh fault domain |
| DramDomain.Chip.Attach | src/FaultDomain.cpp:120-131 | attaching installs the parent's cube mode, TSV arrays, TSV width, slice index and TSV switch |
| DramDomain.Chip.GenRandomRange | src/DRAMDomain.cpp:367-442 | the method's shift-and-OR loop over the fields builds exactly the range `GenRange` describes |
| DramDomain.Chip.LayField | src/DRAMDomain.cpp:378-393 | one field shifts address and mask up by its width and ORs in the drawn value or the all-ones wild value, scaling `max_faults` when wild |
| DramDomain.Chip.GenerateRanges | src/DRAMDomain.cpp:330-365 | a fault of a class appends one range with that class's fixed/wild pattern |
| DramDomain.Chip.InjectKind | src/DRAMDomain.cpp:127-142 | a firing draw bumps the aggregate and the class counter of its kind and appends one range |
| DramDomain.Chip.InjectClass | src/DRAMDomain.cpp:124-160 | one class draws transient then permanent; the result says whether either fired |
| DramDomain.Chip.InjectDieFaults | src/DRAMDomain.cpp:124-161 | the ranges, counters and new-fault flag of an interval are those of the class-by-class specification; a new fault is reported iff the fault count grew |
| DramDomain.Chip.InjectTsv | src/DRAMDomain.cpp:168-196 | a marked TSV in state 1 or 2 appends its ranges, counts a permanent or transient TSV fault and moves to state 3 or 4; no other TSV changes |
| DramDomain.Chip.InjectTsvFaults | src/DRAMDomain.cpp:164-198 | the TSVs of the device's slice materialise in index order, with counts equal to the number of marked TSVs in each state |
| DramDomain.Chip.Update | src/DRAMDomain.cpp:117-203 | one interval: die faults, then TSV faults when cube mode and TSVs are on; the interval counter grows by one; the result says whether the fault count grew |
| DramDomain.Chip.Scrub | src/DRAMDomain.cpp:267-282 | the new range list is the one the source's erase-and-advance iteration leaves |
| DramDomain.Chip.Reset | src/DRAMDomain.cpp:215-227 | the per-trial counters are zero, the trial is counted and every range is deleted |
| DramDomain.Chip.ResetStats | src/DRAMDomain.cpp:525-528 | the cross-trial statistics are zero |
| DramDomain.Chip.SetFIT | src/DRAMDomain.cpp:284-291 | only the probability of the given class and kind changes |
| DramDomain.Chip.Repair | src/FaultDomain.cpp:169-219 | a device with no schemes reports every fault as undetectable and uncorrectable, and counts an error of each kind when it has any fault |
| DramDomain.Chip.FillRepl | src/FaultDomain.cpp:220-248 | a device with no schemes reports every fault as uncorrectable, counting an error when there is any |
| DramDomain.Chip.Finalize | src/FaultDomain.cpp:273-317 | a device with any fault counts a failed trial, and each error kind seen counts a failure of that kind |
| FaultDomains.Written | src/FaultDomain.cpp:192-208 | writing a scheme's lists back replaces the lists of the devices it returned and leaves the rest |
| FaultDomains.Stage | src/FaultDomain.cpp:192-208 | each scheme sees the device lists the schemes before it left, one list per device |
| FaultDomains.Reports | src/FaultDomain.cpp:192-197 | one output of every attached scheme, in the order they are attached |
| FaultDomains.LeastIsMinimum | src/FaultDomain.cpp:190-197 | the folded `min` is at most the starting fault count and every scheme's output, and equals one of them |
| FaultDomains.LeastNext | src/FaultDomain.cpp:196-197 | one more scheme folds its output into the running minimum |
| FaultDomains.Mark | src/GroupDomain_cube.cpp:124-129 | a draw marks the TSV at its location in the given state unless it is already marked; no other TSV changes |
| FaultDomains.Marks | src/GroupDomain_cube.cpp:114-144 | a cube interval's marking keeps both arrays' sizes |
| FaultDomains.MarksKeepMarked | src/GroupDomain_cube.cpp:125-141 | marking never clears a mark and never changes the state of a TSV already marked |
| FaultDomains.TransientMarkIsPermanent | src/GroupDomain_cube.cpp:119-129 | an unmarked TSV hit by the transient draw gets state 1, which the device materialises as permanent ranges |
| FaultDomains.Lists | src/FaultDomain.cpp:195 | the range lists a scheme sees are the devices' lists, one per device |
| FaultDomains.SumsZero | src/FaultDomain.cpp:286-296 | the devices' summed fault count is zero iff every device has no fault |
| FaultDomains.UpdateAll | src/FaultDomain.cpp:146-160 | every device is updated once, in order; the result says whether any device's fault count grew |
| FaultDomains.RepairDevices | src/FaultDomain.cpp:178-183 | every device repairs, keeping its ranges and counting an error of each kind when it has any fault |
| FaultDomains.FillReplDevices | src/FaultDomain.cpp:228-230 | every device counts an uncorrected error when it has any fault |
| FaultDomains.ScrubDevices | src/FaultDomain.cpp:257-266 | every device erases what its own scrub erases |
| FaultDomains.FinalizeDevices | src/FaultDomain.cpp:280-282 | every device records its own trial outcome |
| FaultDomains.ResetDevices | src/FaultDomain.cpp:59-63 | every device starts a trial with no fault, no error and no range |
| FaultDomains.ResetStatsDevices | src/FaultDomain.cpp:346-350 | every device's cross-trial statistics are zero |
| FaultDomains.WriteBack | src/FaultDomain.cpp:195 | the devices' lists become the scheme's lists |
| FaultDomains.RepairSchemes | src/FaultDomain.cpp:186-208 | the schemes run in order on the lists; each output is the minimum of the starting fault count and every scheme's report |
| FaultDomains.RepairTree | src/FaultDomain.cpp:169-208 | the devices repair first; the schemes then run on the devices' lists; the outputs are the minima over the schemes' reports |
| FaultDomains.AnyFaulty | src/FaultDomain.cpp:290-296 | the scan finds a failure iff some device has a fault |
| FaultDomains.FinalizeTree | src/FaultDomain.cpp:279-296 | the devices finalize, and the scan reports a failure iff the devices' summed fault count is nonzero |
| FaultDomains.ClearCubeCounters | src/FaultDomain.cpp:312-315 | every attached ChipKill cube scheme's counters are zero afterwards |
| FaultDomains.RunScheme | src/FaultDomain.cpp:195 | running an attached scheme gives what that scheme's own specification reports |
| FaultDomains.HorizontalSlicesFit | src/GroupDomain_cube.cpp:70-78 | with horizontal channels every chip's slice of the data TSVs lies inside the TSV arrays |
| FaultDomains.VerticalSlicesFit | src/GroupDomain_cube.cpp:79-84 | with vertical channels the slices lie inside the arrays when there are no more chips than banks |
| FaultDomains.Group.Dimm | src/GroupDomain_dimm.cpp:13-24 | a DIMM group starts with no devices, no schemes, zero counters and cube mode off |
| FaultDomains.Group.Cube | src/GroupDomain_cube.cpp:22-84 | a cube group has half the burst size as data TSVs and TSV arrays of the horizontal or vertical size, all clear |
| FaultDomains.Group.AddDomain | src/FaultDomain.cpp:120-131 | the device is appended and receives the group's cube mode, TSV arrays, TSV width, its index and the TSV switch |
| FaultDomains.Group.UpdateChildren | src/FaultDomain.cpp:146-160 | every device updates, none skipped after a fault; the result says whether any device's fault count grew |
| FaultDomains.Group.MarkTsv | src/GroupDomain_cube.cpp:114-144 | each firing TSV draw counts a fault of its kind and marks its TSV as `Marks` says |
| FaultDomains.Group.Update | src/GroupDomain_cube.cpp:109-148 | a cube reports a new fault only when a TSV draw fires (device faults are ignored), a DIMM reports one when any device's count grew; every device advances one interval |
| FaultDomains.Group.Repair | src/FaultDomain.cpp:169-219 | devices repair first, then the schemes in order; each output is the minimum of the group's fault count and every scheme's report; a nonzero output counts an error |
| FaultDomains.Group.CountErrors | src/FaultDomain.cpp:210-216 | a nonzero outcome of each kind counts one error; the devices are unchanged |
| FaultDomains.Group.FillRepl | src/FaultDomain.cpp:220-248 | the result is the group's fault count without schemes, and 0 with them, since every scheme reports 0; a nonzero result counts an error |
| FaultDomains.Group.Scrub | src/FaultDomain.cpp:257-266 | every device scrubs |
| FaultDomains.Group.Finalize | src/FaultDomain.cpp:273-317 | devices finalize; a failed trial is counted iff the group's fault count is nonzero; the error kinds seen count failures; the scheme counters are cleared |
| FaultDomains.Group.CountFailures | src/FaultDomain.cpp:298-310 | a failure and each error kind seen are counted once |
| FaultDomains.Group.Reset | src/FaultDomain.cpp:52-64 | the group and every device drop their faults and errors, every range is deleted, and the trial is counted |
| FaultDomains.Group.ResetStats | src/FaultDomain.cpp:341-357 | the cross-trial statistics of the group and every device are zero |
| FaultDomains.Group.AddRepair | src/FaultDomain.cpp:162-165 | the scheme is appended after those already attached |
| Schemes.ClearTouched | src/ChipKillRepair.cpp:29-40 | the reset pass returns the snapshot with every range's `touched` zeroed (`Untouched`) |
| Schemes.UntouchedKeeps | src/BCHRepair.cpp:33-43 | the reset keeps every list's length and every field except `touched`, which becomes 0, and a second reset changes nothing |
| Schemes.MeetFlagBlind | src/FaultRange.cpp:62-87 | intersection reads neither the query's `touched` nor either range's `transient_remove` flag |
| Schemes.LiveFlagBlind | src/BCHRepair.cpp:96 | the test "intersects and still below `max_faults`" reads no `transient_remove` flag either |
| Schemes.FirstMatch | src/ChipKillRepair.cpp:69-79 | the index found lies in the searched part of the list |
| Schemes.FirstMatchIsFirst | src/ChipKillRepair.cpp:69-79 | the range found matches and no earlier one does; when none is found, no range from the start position on matches |
| Schemes.FirstMatchIgnoresFlags | src/ChipKillRepair.cpp:69-79 | clearing `transient_remove` flags in a list does not change which range matches first |
| Schemes.FindMatch | src/ChipKillRepair.cpp:69-79 | the inner loop that breaks at the first matching range returns that range's index |
| Schemes.DevicesHit | src/ChipKillRepair.cpp:64-82 | the count of devices hit is at most the number of devices scanned, one fewer when a scanned device is skipped |
| Schemes.CountDevices | src/ChipKillRepair.cpp:64-82 | the device loop counts each device, other than the skipped one, that holds a matching range once |
| Schemes.DevicesHitAtLeast | src/ChipKillRepair.cpp:64-82 | a device other than the skipped one that holds a matching range makes the count at least 1 |
| Schemes.DevicesHitSkipped | src/CubeRAIDRepair.cpp:70-93 | the skipped device's range list is never read |
| Schemes.DevicesHitIgnoresFlags | src/ChipKillRepair.cpp:64-92 | flags cleared earlier in the scan do not change a later count |
| Schemes.AlignDown | src/BCHRepair.cpp:78-82 | shifting right then left by `s` gives the multiple of `2^s` at most `2^s - 1` below the word |
| Schemes.Aligned | src/BCHRepair.cpp:78-80 | the aligned copy differs from the range only in its address and mask, and its address is the block start at or below the range |
| Schemes.AlignedRoom | src/BCHRepair.cpp:83-105 | the `2^s` probes of an aligned block stay below `2^64` |
| Schemes.SweepLowers | src/ChipKillRepair.cpp:45-99 | a scan of the devices only ever clears `transient_remove` flags |
| Schemes.SweepComplete | src/ChipKillRepair.cpp:45-99 | a scan with no early return adds every verdict's outputs, from the start position on, and clears exactly the flags its verdicts clear |
| Schemes.RunComplete | src/ChipKillRepair.cpp:45-99 | a whole scan with no early return outputs the sums over the verdict table and clears exactly the flagged ranges |
| Schemes.SweepAddsOnce | src/BCHRepair.cpp:111-121 | when every verdict that adds also returns, a scan adds at most one verdict's worth |
| Schemes.SweepAddsNothing | src/BCHRepair.cpp:107-121 | when no verdict adds to an output, the scan leaves that output where it started |
| Bch.CodeShift | src/BCHRepair.cpp:63-76 | a grouping shift exists exactly for codes correcting 1, 3 or 6 bits, and lies between 2 and 5; any other code is the failing assert |
| Bch.NoLiveReset | src/BCHRepair.cpp:33-43 | the reset keeps `max_faults`, so a snapshot with no range below it (where the assert is never reached) keeps that property |
| Bch.WindowHits | src/BCHRepair.cpp:85-105 | the probes of a window count at most one hit per device per probe |
| Bch.ProbeInBlock | src/BCHRepair.cpp:78-104 | probe `ii` is address `ii` of the aligned block holding the range, with the mask aligned too and every other field kept |
| Bch.CountWindow | src/BCHRepair.cpp:85-105 | the probe loop counts, over `2^s` consecutive addresses, each device that holds a live intersecting range |
| Bch.WindowIgnoresFlags | src/BCHRepair.cpp:85-105 | flags cleared earlier in the scan do not change a window's count |
| Bch.TableAt | src/BCHRepair.cpp:56-122 | the table entry of a range is its verdict, computed on the reset snapshot |
| Bch.JudgeRange | src/BCHRepair.cpp:56-122 | judging one range in the middle of the scan gives its table entry, because earlier verdicts only cleared flags |
| Bch.Repair | src/BCHRepair.cpp:19-125 | outputs and range lists are those of the reset followed by the scan that returns at the first range over the code's strength |
| Bch.UndetectableNever | src/BCHRepair.cpp:107-121 | when the detection strength is at least the correction strength, the undetectable output is always 0 |
| Bch.VerdictBound | src/BCHRepair.cpp:107-121 | a verdict adds at most `2^s` times the number of devices, and only when it returns |
| Bch.AtMostOneRange | src/BCHRepair.cpp:107-121 | one repair adds at most `2^s` times the number of devices to the two outputs together |
| Bch.OnlyFlagsChange | src/BCHRepair.cpp:33-121 | a repair changes only `touched` and `transient_remove`, and a group with no ranges reports nothing |
| ChipKill.SymbolQuery | src/ChipKillRepair.cpp:55-59 | the query copy differs from its range only in the mask |
| ChipKill.QueryMeetsOwn | src/ChipKillRepair.cpp:55-75 | the symbol query always meets the range it was copied from |
| ChipKill.Hits | src/ChipKillRepair.cpp:64-82 | a range hits at most every device once |
| ChipKill.ScannedCount | src/ChipKillRepair.cpp:61-82 | a range below its `max_faults` counts at least its own device |
| ChipKill.Judge | src/ChipKillRepair.cpp:84-96 | a verdict never returns; it adds uncorrectable iff the count exceeds the correction strength and undetectable iff it exceeds the detection strength; it clears the flag when the count reaches the correction strength, and below that iff the mask exceeds the correction strength |
| ChipKill.TableAt | src/ChipKillRepair.cpp:53-97 | the table entry of a range is its verdict for its own count on the reset snapshot |
| ChipKill.JudgeRange | src/ChipKillRepair.cpp:53-97 | judging one range mid-scan applies its table entry |
| ChipKill.JudgeDevice | src/ChipKillRepair.cpp:45-98 | the pass over one device's list carries the scan to the next device |
| ChipKill.Repair | src/ChipKillRepair.cpp:18-106 | with 18 devices per corrected symbol, the outputs and range lists are those of the reset followed by the full scan |
| ChipKill.RepairComplete | src/ChipKillRepair.cpp:29-99 | the outputs are the sums over every range's verdict, and exactly the ranges whose verdicts clear have their flag cleared |
| ChipKill.SingleSymbolClearsScanned | src/ChipKillRepair.cpp:84-93 | with single-symbol correction, every range with a nonzero `max_faults` has its flag cleared |
| CubeRaid.BlockQuery | src/CubeRAIDRepair.cpp:57-62 | the query copy differs from its range only in the mask |
| CubeRaid.BlockMeetFlagBlind | src/CubeRAIDRepair.cpp:79-86 | stretching both ranges to a data block and intersecting them reads no `transient_remove` flag |
| CubeRaid.Hits | src/CubeRAIDRepair.cpp:70-93 | a range hits at most every other device once |
| CubeRaid.OwnDeviceSkipped | src/CubeRAIDRepair.cpp:70-93 | the count never reads the range's own device and is at most the number of other devices |
| CubeRaid.FailingRange | src/CubeRAIDRepair.cpp:96-111 | a range is cleared and adds uncorrectable errors iff its count reaches the correction strength; the pass returns iff that happens without `continue_running`, and then adds no undetectable error; otherwise it adds undetectable errors iff the count reaches the detection strength |
| CubeRaid.VerdictBound | src/CubeRAIDRepair.cpp:101-105 | one range adds at most the number of devices minus the correction strength |
| CubeRaid.TableAt | src/CubeRAIDRepair.cpp:55-112 | the table entry of a range is its verdict for its count among the other devices on the reset snapshot |
| CubeRaid.JudgeRange | src/CubeRAIDRepair.cpp:57-94 | judging one range in the middle of the scan gives its table entry |
| CubeRaid.JudgeDevice | src/CubeRAIDRepair.cpp:46-113 | the pass over one device's list either returns with the scan's result or carries the scan to the next device |
| CubeRaid.Repair | src/CubeRAIDRepair.cpp:23-114 | outputs and range lists are those of the reset followed by the scan, which stops at the first failing range unless `continue_running` |
| CubeRaid.ContinueJudgesAll | src/CubeRAIDRepair.cpp:46-113 | with `continue_running`, the outputs are the sums over every range's verdict and exactly the failing ranges are cleared |
| CubeRaid.LoneDevice | src/CubeRAIDRepair.cpp:70-111 | a group of one device never reports an error, and only the reset changes its ranges |
| BchCube.Narrow | src/BCHRepair_cube.cpp:101-107 | narrowing changes only the query's address and mask |
| BchCube.NarrowMaskIs | src/BCHRepair_cube.cpp:104-105 | the narrowed mask is the meet of the query's and the found range's masks |
| BchCube.NarrowMaskShrinks | src/BCHRepair_cube.cpp:104-106 | narrowing never makes a bit wild that was not wild before |
| BchCube.NarrowKeepsUnchanged | src/BCHRepair_cube.cpp:106-107 | the address bits whose wildness did not change keep the query's value |
| BchCube.NarrowKeepsLow | src/BCHRepair_cube.cpp:102-107 | the offset bits inside the data block keep the query's value |
| BchCube.NarrowTakesUpper | src/BCHRepair_cube.cpp:101-107 | the bits that stopped being wild take the found range's address above the offset |
| BchCube.Step | src/BCHRepair_cube.cpp:80-116 | one offset adds at most one intersection |
| BchCube.Window | src/BCHRepair_cube.cpp:75-117 | the block scan counts at most one intersection per offset |
| BchCube.StepIgnoresFlags | src/BCHRepair_cube.cpp:80-116 | one offset over a list whose flags have been cleared is the same step |
| BchCube.WindowIgnoresFlags | src/BCHRepair_cube.cpp:75-117 | the block scan over a list whose flags have been cleared is the same scan |
| BchCube.CountBlock | src/BCHRepair_cube.cpp:68-117 | the offset loop over the range's own device gives the block scan's intersection count |
| BchCube.TableAt | src/BCHRepair_cube.cpp:57-135 | the table entry of a range is its verdict, read from its own device's list on the reset snapshot |
| BchCube.JudgeRange | src/BCHRepair_cube.cpp:57-135 | judging one range in the middle of the scan gives its table entry |
| BchCube.Repair | src/BCHRepair_cube.cpp:23-138 | outputs and range lists are those of the reset followed by the scan, which stops at the first failing range unless `continue_running` |
| BchCube.OwnDeviceOnly | src/BCHRepair_cube.cpp:75-117 | a range's verdict reads only its own device's list, and adds at most `2^s` uncorrectable errors |
| BchCube.ContinueJudgesAll | src/BCHRepair_cube.cpp:49-137 | with `continue_running`, the outputs are the sums over every range's verdict and exactly the failing ranges are cleared |
| BchCube.FailingRange | src/BCHRepair_cube.cpp:121-134 | a range is cleared iff its count exceeds the correction strength; the pass returns iff that happens without `continue_running`, and then adds no undetectable error; otherwise it adds undetectable errors iff the count exceeds the detection strength |
| ChipKillCube.Query | src/ChipKillRepair_cube.cpp:86-103 | the query copy has mask `0x3F` and differs from its range only in the address and the mask |
| ChipKillCube.RelocatedForm | src/ChipKillRepair_cube.cpp:95-103 | the rewritten address is the bits above the bank field, then the bank number, then the bits below, concatenated |
| ChipKillCube.RelocatedFields | src/ChipKillRepair_cube.cpp:95-103 | the rewrite keeps the bits below and above the three bank bits and puts the bank number between them |
| ChipKillCube.RelocatedReads | src/ChipKillRepair_cube.cpp:95-103 | the rewrite reads only the bits below the bank field and above the three bank bits |
| ChipKillCube.RewrittenDirect | src/ChipKillRepair_cube.cpp:92-103 | rewriting bank after bank, as the loop does to its one copy, gives the direct rewrite for the last bank |
| ChipKillCube.QueryAtBank | src/ChipKillRepair_cube.cpp:92-103 | the query for bank `ii` holds `ii` in the bank field and the range's own bits elsewhere |
| ChipKillCube.BankNumber | src/ChipKillRepair_cube.cpp:249-262 | the bank number is -1 or a value below the device size |
| ChipKillCube.BankNumberIsField | src/ChipKillRepair_cube.cpp:249-262 | for power-of-two geometries the bank number is -1 iff the bank field is wholly wild, and otherwise it is the address's bank field |
| ChipKillCube.PairAcceptsIdle | src/ChipKillRepair_cube.cpp:131-162 | with `bank_number1` never leaving 0, the second search block accepts exactly bank 0 and wholly wild banks |
| ChipKillCube.IdleFirstCounter | src/ChipKillRepair_cube.cpp:110-213 | with `counter1` never leaving 0, only the first block (for `counter2` below 2) and the second (for `counter2` = 4) can run, and never both |
| ChipKillCube.Probe | src/ChipKillRepair_cube.cpp:110-230 | the index a block stops at lies in the die's list |
| ChipKillCube.Bump | src/ChipKillRepair_cube.cpp:119 | bumping `touched` keeps the snapshot's shape |
| ChipKillCube.BumpRetouches | src/ChipKillRepair_cube.cpp:119 | bumping changes only that range's `touched` |
| ChipKillCube.BumpCounts | src/ChipKillRepair_cube.cpp:119 | each bump adds one to the snapshot's total `touched` |
| ChipKillCube.RangeScan | src/ChipKillRepair_cube.cpp:92-233 | the scan of one organizing range never lowers the count and keeps the snapshot's shape |
| ChipKillCube.ScanStep | src/ChipKillRepair_cube.cpp:106-232 | each (bank, die) pair probes once, bumps the range found and counts it, and always advances `counter2` |
| ChipKillCube.ScanRetouches | src/ChipKillRepair_cube.cpp:92-233 | the scan changes nothing but `touched` |
| ChipKillCube.ScanAtMostThree | src/ChipKillRepair_cube.cpp:92-233 | one organizing range counts at most three intersections, one for each of the `counter2` values 0, 1 and 4 still ahead |
| ChipKillCube.Over | src/ChipKillRepair_cube.cpp:234-240 | the amount added is positive iff the count exceeds the threshold, and then is the excess |
| ChipKillCube.Organize | src/ChipKillRepair_cube.cpp:75-242 | organizing every range keeps the snapshot's shape |
| ChipKillCube.OrganizeRetouches | src/ChipKillRepair_cube.cpp:75-242 | organizing changes nothing but `touched` |
| ChipKillCube.OnlyTouchedChanges | src/ChipKillRepair_cube.cpp:49-243 | `repair_hc` changes nothing in the ranges but `touched` |
| ChipKillCube.OrganizeBound | src/ChipKillRepair_cube.cpp:234-240 | with a threshold of three or more, organizing adds nothing to that output |
| ChipKillCube.StrongCodeReportsNothing | src/ChipKillRepair_cube.cpp:49-243 | a code correcting (or detecting) three or more symbols never reports an uncorrectable (or undetectable) error |
| ChipKillCube.Scheme.constructor | src/ChipKillRepair_cube.cpp:17-32 | the scheme takes its strengths and the first device's geometry, and both counters start at 0 |
| ChipKillCube.Scheme.ClearCounters | src/ChipKillRepair_cube.cpp:271-275 | both counters are 0 |
| ChipKillCube.Scheme.Repair | src/ChipKillRepair_cube.cpp:34-46 | `repair_hc` runs when `cube_model_enable` is 1; otherwise `repair_vc` reports nothing and changes nothing |
| ChipKillCube.Scheme.RepairHc | src/ChipKillRepair_cube.cpp:49-243 | outputs and range lists are those of the reset followed by organizing every range |
| ChipKillCube.Scheme.ScanRange | src/ChipKillRepair_cube.cpp:89-233 | the scan loop returns the organizing range's count and its bumps, and the total `touched` grows by exactly that count |
| ChipKillCube.Scheme.ScanBank | src/ChipKillRepair_cube.cpp:106-232 | one bank's pass over the dies is the scan's step to its last die, and adds to the total `touched` what it counts |
| Simulations.CountsAppend | src/Simulation.cpp:191-273 | the logged failures, replacement count and update count of a trace grow call by call |
| Simulations.ShapeElements | src/Simulation.cpp:179-273 | a trace so far starts with the reset, and every later call is a legal call to one domain |
| Simulations.Extend | src/Simulation.cpp:196-273 | a legal call to a domain extends a trace so far and adds its own counts |
| Simulations.VisitCalls | src/Simulation.cpp:199-218 | a visit updates the domain and repairs it only when the update reports a new fault; the failure it logs is the repair's outputs at that interval and domain |
| Simulations.VisitHalts | src/Simulation.cpp:220-238 | without `continue_running`, a failed visit finalizes the domains and the trial returns 1 |
| Simulations.VisitKeeps | src/Simulation.cpp:196-258 | one domain visit either keeps a running trial consistent or closes it with 1 |
| Simulations.DomainsKeep | src/Simulation.cpp:196-260 | the pass over the domains either keeps a running trial consistent or closes it with 1 |
| Simulations.ScrubCalls | src/Simulation.cpp:263-272 | at a scrub step each domain is scrubbed and then asked for a replacement |
| Simulations.ScrubHalts | src/Simulation.cpp:268-271 | a replacement request finalizes the domains and the trial returns 1 |
| Simulations.ScrubsKeep | src/Simulation.cpp:263-273 | the scrub pass either keeps a running trial consistent or closes it with 1 |
| Simulations.EndCloses | src/Simulation.cpp:278-282 | a trial that runs through every interval finalizes and returns 1 iff it counted an error |
| Simulations.IntervalKeeps | src/Simulation.cpp:191-274 | one interval either keeps a running trial consistent or closes it with 1 |
| Simulations.IntervalsClose | src/Simulation.cpp:191-282 | the remaining intervals finish a running trial consistently |
| Simulations.ClosedTrace | src/Simulation.cpp:174-283 | a finished trial's calls are the reset, legal calls to domains, and the final finalize |
| Simulations.FinalizeOnce | src/Simulation.cpp:174-283 | every trial resets first, finalizes last, and does neither in between |
| Simulations.RepairOnlyAfterNewFault | src/Simulation.cpp:199-273 | a domain is repaired only when its update reported a new fault, and scrubbed or asked for a replacement only at a scrub step |
| Simulations.ResultMeansFailure | src/Simulation.cpp:220-282 | a trial returns 1 iff it logged a failure or a domain asked for a replacement, and 0 otherwise |
| Simulations.HaltOnFirstFailure | src/Simulation.cpp:220-238 | without `continue_running`, a trial logs at most one failure, and the failure it logs is the last visit before the finalize |
| Simulations.RunsToTheEnd | src/Simulation.cpp:191-274 | a trial that returns 0, or runs with `continue_running` and no replacement, updates every domain in every interval |
| Simulations.Bump | src/Simulation.cpp:228-233 | counting in a bin keeps the number of bins |
| Simulations.SumBump | src/Simulation.cpp:228 | counting in a bin adds one to the histogram's total |
| Simulations.BinInRange | src/Simulation.cpp:183-227 | a failure in an interval of the trial falls in a bin the histogram has when the bins cover the trial |
| Simulations.BinPastEnd | src/Simulation.cpp:90-227 | when the trial length is not a multiple of the bin length, a failure can fall one bin past the histogram |
| Simulations.UnevenHorizonFits | src/Simulation.cpp:90-227 | a trial length that is not a multiple of the bin length can still give every interval a bin (10 s, 5 s steps, 4 s bins) |
| Simulations.LogAllCounts | src/Simulation.cpp:227-253 | logging failures keeps the number of bins and adds one to the total per failure |
| Simulations.RunningSums | src/Simulation.cpp:155-168 | there is one cumulative entry per bin |
| Simulations.RunningSumsNext | src/Simulation.cpp:160-165 | each cumulative entry is the one before plus the bin's own count |
| Simulations.LastRunningSum | src/Simulation.cpp:155-168 | the last cumulative entry is the histogram's total |
| Simulations.NewSimulation | src/Simulation.cpp:19-34 | a simulation exists iff the scrub interval is a multiple of the time step, and then holds the given settings and no domain |
| Simulations.Simulation.Settings | src/Simulation.cpp:183-186 | a nonzero scrub interval that is a multiple of the time step gives a nonzero scrub ratio |
| Simulations.Simulation.constructor | src/Simulation.cpp:19-34 | the settings are kept, no domain is attached and the statistics are zero |
| Simulations.Simulation.AddDomain | src/Simulation.cpp:36-40 | one more domain is attached |
| Simulations.Simulation.ResetStats | src/Simulation.cpp:69-74 | the three statistics are zero |
| Simulations.Simulation.Record | src/Simulation.cpp:227-233 | logging a failure counts it in its bin, and in the uncorrectable and undetectable histograms when it has those errors |
| Simulations.Simulation.VisitOne | src/Simulation.cpp:199-258 | one domain visit updates the trial as the model's visit does, and logs its failure in the histograms |
| Simulations.Simulation.VisitDomains | src/Simulation.cpp:196-260 | the domain loop is the model's domain pass, with every failure it logs in the histograms |
| Simulations.Simulation.ScrubDomains | src/Simulation.cpp:263-273 | the scrub loop is the model's scrub pass |
| Simulations.Simulation.RunOne | src/Simulation.cpp:174-283 | the trial returns the model's result and trace, and the histograms gain exactly the failures it logged |
| Simulations.Simulation.Tally | src/Simulation.cpp:111-119 | each trial adds one to the trials run, and one to the trials failed iff it returns nonzero |
| Simulations.Simulation.AllocateBins | src/Simulation.cpp:90-99 | three fresh histograms of the requested length, all zero |
| Simulations.Simulation.Covered | src/Simulation.cpp:90-227 | when the trial length is a multiple of the bin length, every interval's failures fall in an allocated bin |
| Simulations.Simulation.Simulate | src/Simulation.cpp:76-128 | given that every interval's failure has one of the `max_time/bin_length` bins, after the trial loop, the trials run and the simulated time are as requested, the trials failed are those whose run returns nonzero, and the histograms hold every trial's failures, starting from zero |
| Simulations.Simulation.Cumulative | src/Simulation.cpp:155-168 | the output's cumulative columns are the running sums of the three histograms |
| Simulations.LogAllAppend | src/Simulation.cpp:111-113 | logging two trials' failures one after the other is logging them together |
| EventSimulations.KindTable | src/EventSimulation.cpp:77-133 | event kind `e` draws a range of fault class `e mod 7`, transient iff `e < 7` |
| EventSimulations.StreamArrivals | src/EventSimulation.cpp:70-141 | a kind's arrivals are the running sums of its periods, each at most the horizon and with a range drawn for its kind; the stream stops only at the first arrival past the horizon or when the draws run out |
| EventSimulations.GeneratedEvents | src/EventSimulation.cpp:64-145 | every queued event belongs to a device and a kind, and is one of that kind's arrivals within the horizon |
| EventSimulations.Tally | src/EventSimulation.cpp:135-136 | there is one counter per device |
| EventSimulations.TallyTotal | src/EventSimulation.cpp:134-137 | every queued event is counted once, as transient or as permanent, on its device |
| EventSimulations.StreamInto | src/EventSimulation.cpp:70-141 | the arrival loop of one kind appends that kind's stream to the queue and keeps both per-device counters equal to the queue's tallies |
| EventSimulations.Generate | src/EventSimulation.cpp:64-145 | the generation loops queue every device's streams, kind by kind, with the per-device counters matching the queue |
| EventSimulations.Top | src/EventSimulation.cpp:29-36 | the top of the queue is an event no other event is later than |
| EventSimulations.Remove | src/EventSimulation.cpp:175 | popping removes exactly that one event from the queue |
| EventSimulations.ScrubAll | src/EventSimulation.cpp:219-225 | the scrub loop scrubs each domain and asks it for a replacement, stopping at the first that asks |
| EventSimulations.PopOne | src/EventSimulation.cpp:155-227 | one turn of the event loop is the model's turn, keeps every queued event's bin inside the histograms, and logs its failure in the bin of the event's time |
| EventSimulations.RunOne | src/EventSimulation.cpp:48-237 | the trial queues the generated events with their counters, then returns the model's result and logs exactly its failures in the histograms |
| EventSimulations.ShapeElements | src/EventSimulation.cpp:155-228 | a trace so far starts with the reset, and every later call is legal after the one before it |
| EventSimulations.DescendingOrder | src/EventSimulation.cpp:29-36 | events handled latest first have non-increasing times |
| EventSimulations.PopOrder | src/EventSimulation.cpp:155-175 | popping the top keeps the handled events latest first and the queue below the last of them, and loses no event |
| EventSimulations.PopKeeps | src/EventSimulation.cpp:155-228 | one turn of the loop keeps the trial consistent or closes it with result 1 |
| EventSimulations.DrainCloses | src/EventSimulation.cpp:155-236 | the loop always ends in a consistent finished trial |
| EventSimulations.EventTraceLegal | src/EventSimulation.cpp:54-236 | a trial resets first, finalizes last, and in between inserts each event into its own device before repairing the first domain, and scrubs only when the scrub period changes |
| EventSimulations.EventPopOrder | src/EventSimulation.cpp:155-228 | events are handled latest first, each queued event at most once, and a trial that returns 0 handles every queued event |
| EventSimulations.EventFailuresLogged | src/EventSimulation.cpp:179-208 | the failures logged are exactly the handled events whose repair failed, and the result is 0 or 1 |
| EventSimulations.EventHaltOnFirstFailure | src/EventSimulation.cpp:179-195 | without `continue_running`, a trial logs at most one failure and returns 1 iff it logged one or a domain asked for a replacement; that failure is the last event handled, right before the finalize |
| EventSimulations.EventResultIsLastEvent | src/EventSimulation.cpp:168-236 | with `continue_running`, a trial returns 1 iff a domain asked for a replacement or the last event handled failed, because the error count is cleared at every event |
| EventSimulations.EarlierFailureForgotten | src/EventSimulation.cpp:168-236 | a trial whose only failure is not its last event logs that failure but returns 0 |
| EventSimulations.LogEventsCounts | src/EventSimulation.cpp:185-206 | logging failures whose bins exist keeps the number of bins and adds one to the total per failure |
| EventSimulations.EventBinAtHorizon | src/EventSimulation.cpp:71-75 | an event exactly at the horizon falls one bin past a histogram of horizon over bin length bins |
| EventSimulations.BinnedIff | src/EventSimulation.cpp:185-202 | `n` bins of a given length hold a queue's events iff every event is before `n` times the bin length |
| EventSimulations.BinBelow | src/EventSimulation.cpp:185 | a time's bin is below `n` iff the time is below `n` bin lengths |

## Left out

- Random draws, failure probabilities and inter-arrival periods are inputs. The draws, the per-interval injection outcomes and the event periods come in as parameters; probabilities are fixed-point numerators. The Boost generators, their seeding from the clock and the FIT-to-probability conversion (`1 - exp(...)` over doubles) are floating point and randomness.
- Event timestamps are whole seconds. The source keeps them as doubles.
- `main.cpp`, `ConfigParser.cpp` and `Settings.hh` are command-line and INI parsing through foreign libraries; `continue_running` and `debug` are parameters instead.
- Printing is not modelled: `printStats`, `dumpState`, the verbose and debug output, the `sprintf` in `toString` (its field decoding is modelled), and the CSV file with its double-precision columns. Only the integer cumulative columns are modelled.
- `Simulation::getFaultCounts` and the per-trial "F/C/." classification in `simulate` only feed verbose output.
- `Simulation::init`, `FaultDomain::init`, the group `setFIT` (empty for a DIMM, a failing assert for a cube) and the device's FIT conversion are not modelled, because they convert floating-point rates.
- Heap ownership (`new`/`delete`, `dynamic_cast`) is not modelled. A range is a value. A scheme works on a snapshot of its devices' range lists, which the group writes back. No scheme's query copy aliases a list element, so no aliasing is lost.
- `clear_counters` of the BCH, ChipKill and RAID schemes is not modelled: those counters are never read. The cube ChipKill scheme's counters are modelled, and finalize clears them.
- Counters and statistics are unbounded naturals. The source's `uint64_t` counters would need more than 2^64 events to wrap.
- `repair_vc` is empty in the source: the model reports 0/0 and changes nothing, and gives it no other meaning.
- ChipKillCube.RelocatedFields: the field reading of the bank rewrite is proved for banks below 8, the three bank bits the source assumes. For more banks the rewrite carries into the bits above; the model computes that carry exactly but states no field lemma for it.
- BchCube.NarrowMaskShrinks: "the mask never gains bits" is proved for one narrowing step. The same fact over a whole window follows step by step but is not stated as one lemma, because its proof is too costly for the verifier.
- Bch.Repair: requires that `n_correct` is 1, 3 or 6, or that no range is below its `max_faults`. Otherwise the source reaches `assert(0)`.
- ChipKill.Repair: requires `18 * n_correct` devices, which the source asserts.
- BchCube.Repair: requires a block of fewer than 2^31 addresses, because `1 << bit_shift` is a 32-bit `int` shift.
- CubeRaid.Repair: requires a block of fewer than 2^31 addresses, because `1 << m_log_block_bits` is a 32-bit `int` shift.
- ChipKillCube.Scheme.RepairHc: requires the bit, row and column widths to sum to less than 31, because `1<<(logBits+logRows+logCols)` is a 32-bit `int` shift.
- DramDomain.Chip.Scrub: requires that the scan never erases the last range right after erasing the one before it. In that case the source's `it++` steps past `end()`, which is undefined behaviour.
- Simulations.Simulation.RunOne: requires a nonzero scrub interval (the source takes `iter % 0`) and histograms with a bin for every interval of the trial. The source does not check the bins, and `Simulations.BinPastEnd` shows a failure landing past them.
- EventSimulations.RunOne: requires that every generated event's time has a histogram bin, a nonzero scrub interval and at least one domain. The source does not check the bins, and `EventSimulations.EventBinAtHorizon` shows an event exactly at the horizon landing one bin past the histogram; `EventSimulations.BinnedIff` says which queues fit. With a zero scrub interval the source converts a division by zero to `uint64_t` (src/EventSimulation.cpp:217), which is undefined.
- EventSimulations.PopOne: requires a nonzero scrub interval and that every queued event has a bin, for the same reasons as `EventSimulations.RunOne`.
- Simulations.NewSimulation: requires a nonzero time step, because the source's `m_scrub_interval % m_interval` (src/Simulation.cpp:30) divides by zero otherwise.
- Simulations.Simulation.Simulate: requires a nonzero scrub interval and bin length and that every interval's failure has a bin, because the source divides by both and writes unchecked into its bins.
- Simulations.Simulation.constructor: leaves the histograms empty. `simulate` allocates them (`Simulations.Simulation.AllocateBins`).
- The order among events with equal timestamps is unspecified in `std::priority_queue`. The model pops the first such event in queue order, and its properties hold for any order among equal times.
- The event model's draw sequences are finite. A kind's stream also stops when its draws run out, where the source keeps drawing until it passes the horizon.
- The domains in both trial engines are abstract: their answers to update, repair, scrub and `fill_repl` are inputs, and the trial records the calls it makes. In the event engine, adding a popped range to its device's list is the `Insert` call.
- `simulate` with the event-driven `runOne` is the same trial loop around a different trial, and is not modelled a second time.
