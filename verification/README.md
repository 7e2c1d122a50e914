# OpenHypervisor vCPU monitor: a verified model

OpenHypervisor runs a guest hypervisor inside an ordinary virtual CPU. One call
to `hv_vcpu_run` is many guest entries; between them the library answers trapped
registers, walks the guest's page tables, keeps its timers, decides when an
interrupt may be shown to it and tracks which exception level the guest believes
it is at. This project models that monitor in Dafny and proves what its comments
and documentation promise, over all inputs and over whole runs.

`dafny verify dfyconfig.toml` checks everything.

## How it is laid out

| file | what it is |
|---|---|
| `Words.dfy` | 64-bit words as integers: wrapping sums, shifts, masks, single bits |
| `Slot.dfy` | one vCPU as a value: the context page and the fields of `VcpuSlot` |
| `AssocList.dfy` | the three bounded register lists, as arrays and as maps |
| `Stage1.dfy`, `WalkLaws.dfy` | the stage-1 page table walk behind AT; the walk against translation tables in plain numbers |
| `Timers.dfy` | CVAL, TVAL and CTL in two clocks, and the expiry test |
| `Gate.dfy` | the virtual FIQ and IRQ levels |
| `Emulator.dfy`, `EmulatorLaws.dfy` | the trapped-register dispatcher and its laws |
| `Dispatch.dfy`, `AccessAnswers.dfy` | which encoding is which register; what an access returns, and what it marks |
| `Exits.dfy`, `ExitLaws.dfy`, `ExitAnswers.dfy` | exit classification, exception entry and return at the virtual EL2; what every exit answers, leaves and marks |
| `Coherence.dfy` | the emulated registers against the code that consumes them |
| `Sysregs.dfy` | the VMM's register tables, and snapshot and restore |
| `Calls.dfy` | the VMM's calls that write the page past its registers and control fields |
| `Machine.dfy`, `TimerMask.dfy`, `HeldRegisters.dfy` | whole runs of VMM calls, guest entries and exits; the timer mask and the library's registers in them |
| `VcpuSlot.dfy` | the vCPU object: the library's methods, changing it in place |
| `Cancel.dfy`, `Band.dfy` | the two protocols between threads, step by step |
| `Gic.dfy`, `Mapping.dfy` | SPI injection, the mapping index |
| `Probe.dfy`, `ProbeMiss.dfy` | the offset probe's walk, and a program it does not cover |

What a call does is a function from `Slot` to `Slot`; the methods of
`VcpuSlot.Vcpu` (and of `ShadowList`, `GicModel`, `MapIndex`, `Walker`) do it in
place and are proved to leave exactly the state the function gives. The theorems
are about the functions, and a reference that does not mention them: the level
an interrupt line should have, the last value written to a register, the last
request in a history, a finite map, a recursive page-table semantics, the
context layout read from its own side.

Fixed as the defaults: the VM has EL2, no `OHV_*` variable is set (so the timer
gate is mode 4). The set of vCPUs whose timer is delivered as an IRQ is a
parameter. The host's counter, guest memory, cache descriptions, the exit
record, the instruction at the PC and the guarded return pair that a register
sync brings in are parameters too.

## Main results

- **Threads.** Between a request to exit and the next return of `hv_vcpu_run` at
  most one RUN trap starts, in every interleaving (`Cancel.AtMostOneStart`), a
  CANCELED answers a request that nothing else answered
  (`Cancel.CancelAnswersRequest`), and every return has its cause
  (`Cancel.LastStepLeads`); the monitor band ends up the least one seen (`Band.QuietMeansMinimum`).
- **Whole runs of one vCPU.** The hardware's VF and VI are at every entry what the
  history calls for (`Machine.HardwareFollowsHistory`), never up where the gate
  must hold them (`Machine.GateSafeAlways`); hardware HCR_EL2 is the page's
  (`Machine.HardwareIsPage`); NV stands while the guest is at its own EL2
  (`Machine.VirtualEl2Holds`), exactly as long as the VMM lets it
  (`Machine.NvExactly`); no library step arms the hardware's physical timer
  (`Machine.NeverArmed`); when the timer mask reaches the hardware
  (`TimerMask.MaskReaches`); and the registers kept beside the page hold the
  guest's last write over all of it (`HeldRegisters.HoldsLastGiven`).
- **Exits and the virtual EL2.** Every exit's answer, field by field
  (`ExitAnswers.KeepsRunning`, `ExitAnswers.ReportedReason`), the level and the
  traps it leaves (`ExitAnswers.LevelAfter`), what it leaves alone
  (`ExitAnswers.ExitFrame`) and that no change goes unmarked
  (`ExitAnswers.ChangesAreMarked`); entry and return are inverse
  (`ExitLaws.ReturnUndoesEntry`), every exit keeps the invariants
  (`ExitLaws.HandleKeeps`), and the VMM sees the guest as it stopped
  (`ExitLaws.VmmSeesTheGuest`).
- **Trapped registers.** Every encoding reaches its register and no other does
  (`Dispatch.KeptExactly`, `Dispatch.TimerExactly`), every access is answered or
  refused as its encoding says (`AccessAnswers.AnsweredExactly`), the guest's clock
  runs as the host's (`AccessAnswers.ClockTicks`), and
  one file of registers holds last-written values over any
  run (`EmulatorLaws.RegistersHold`), and the parts of the library that use them:
  timers, return, vector, translation (`Coherence`).
- **The walk** refines a recursive semantics (`Stage1.TranslateStage1`), with its
  radix and leaf laws; in the four-level regime it answers with just what a chain of
  descriptors from the address's own base register maps (`WalkLaws.PathLeads`,
  `WalkLaws.MappedExactly`).
- **The VMM's registers** are all there, never alias, and a snapshot survives any
  writes (`Sysregs.WordIsFound`, `Sysregs.NoAliases`, `Sysregs.RestoreUndoesWrites`).
- **The rest.** No interrupt in two list registers (`Gic.NeverTwice`), queued with
  its own priority byte (`Gic.RaisedPriority`), the mapping
  array as a map (`Mapping.RunRefines`), the probe's walk and exactly when it
  finds everything (`Probe.Walker.WalkFrom`, `Probe.FindsExactly`).

## Where the code and its comments part

- `src/ohv_gic.cpp:460` says the pending bit keeps an SPI that found no free list
  register. It does, and nothing queues it later: after a raise there is a live
  entry exactly when there was one or a register was free (`Gic.RaiseQueues`),
  and no event but another raise brings one (`Gic.NoneComesLater`). The ninth of
  nine is the input (`Gic.NinthIsLost`, `Gic.FortyIsLost`).
- The radix property of the walk fails for 4 KiB granules with more than 48
  address bits, and holds for every other supported geometry (`Stage1.RadixExactly`).
- The monitor window is empty for bases within 0x20000000 of 2^64, and right for
  all others (`Gate.WindowExactly`).
- The virtual timer's mask is put up without marking the controls. The hardware
  has it at the next entry exactly if NV went back up at that exit, a call of the
  VMM in between marked the controls, or the entry changes VF or VI
  (`TimerMask.MaskReaches`); with the gate closed none of that need happen
  (`TimerMask.MaskLost`). HCR_EL2 itself is always marked.
- `ohv_guest_ptr` can answer a request whose end wraps past 2^64; for the others
  it is the map lookup (`Mapping.HandedOutRange`, `Mapping.WrappedRequestAnswered`).
- `nv_off_for_geret` apart, a guest at its own EL2 has NV up at every point of a run
  exactly if every VMM write to the HCR_EL2 control field leaves it up or finds the
  guest with no need of it (`Machine.NvExactly`); one write of zero is enough to
  break it (`Machine.HcrWriteBreaksNv`).
- Of the EL2 registers both the guest and the VMM can name, only five are one
  word under both names (`Coherence.OneWordTwoNames`); VBAR_EL2, for one, is not.
- `tools/offset_probe.cpp:126` calls the probe's walk breadth-first. It takes the
  branch met last first and marks an address when it pushes it, so an address
  first seen six deep is gone no further from, and what lies beyond can be missed
  even when it is near (`ProbeMiss.MissesThreeEdgesAway`, `Probe.FindsExactly`).

## Model

The rows come in three groups: first the main results, down to
`ProbeMiss.MissesThreeEdgesAway`; then the supporting laws; then the methods
that do in place what the laws are about.

| member | source | states |
|---|---|---|
| Cancel.AtMostOneStart | src/ohv_vcpu.cpp:3430-3535 | in every interleaving, after a request latches, at most one RUN trap starts on that vCPU before hv_vcpu_run returns, and the request stands until then |
| Cancel.CancelsAreRequested | src/ohv_vcpu.cpp:3483-3515 | CANCELED answers caused by the latch never outnumber the requests |
| Cancel.CancelAnswersRequest | src/ohv_vcpu.cpp:3483-3515 | in every run from a latch that is down, a CANCELED caused by the latch comes exactly when some request has been answered by no exit and no other CANCELED |
| Cancel.LastStepLeads | src/ohv_vcpu.cpp:3421-3517 | wherever the owner thread is, what brought it there: it returns only for a failed trap, an exit classified as the VMM's, or a request, and goes round again exactly when an exit is not the VMM's and no request is found |
| Band.OnlyDecreases | src/ohv_vcpu.cpp:2974-2984 | once non-zero the shared band only goes down |
| Band.QuietMeansMinimum | src/ohv_vcpu.cpp:2954-2986 | when no thread is inside, the shared band is the least kernel band any vCPU was seen in, 0 if none, and no vCPU's own base is below it |
| Band.FailureHasACause | src/ohv_vcpu.cpp:2980-2983 | a compare-exchange that fails for a reason fails because another thread has put a strictly lower band there |
| Machine.HardwareFollowsHistory | src/ohv_vcpu.cpp:3036-3266 | at every entry of every run the hardware's HCR_EL2 has the levels the history calls for, even after the VMM overwrote the register |
| Machine.HardwareIsPage | src/ohv_vcpu.cpp:3198-3265 | loading HCR_EL2 only when marked is loading it always: at every entry of every run the hardware has all 64 bits of the page's word |
| Machine.GateSafeAlways | src/ohv_vcpu.cpp:3430-3435 | over every history, the hardware enters with a level up only if the VMM last said parked, or outside the monitor and unmasked |
| Machine.VirtualEl2Holds | src/ohv_vcpu.cpp:1432-1566 | at every entry of every run in which each VMM write to HCR_EL2 leaves NV up or lands where the guest has no need of it, a guest at its own EL2 has NV up in the hardware unless a guarded return is out; PSTATE never names EL2 |
| Machine.NvExactly | src/ohv_vcpu.cpp:3573-3600 | over any run, NV is up at every point where the guest needs it exactly if every VMM write to HCR_EL2 was of that kind where it landed |
| Machine.HcrWriteExactly | src/ohv_vcpu.cpp:3595 | a VMM write to the HCR_EL2 field keeps that invariant exactly if it leaves NV up or the guest has no use for it |
| Machine.NeverArmed | src/ohv_vcpu.cpp:739-755 | no call, no preparation of an entry and no exit stores a non-zero word where the hardware would load CNTP_CTL from |
| TimerMask.MaskReaches | src/ohv_vcpu.cpp:1839-1847 | anywhere in any run, after the timer is reported and whatever calls follow, the interrupt controller's and the debug traps' included, the hardware has the page's timer word at the next entry exactly if NV went back up at that exit, a call marked the controls, or the entry changes a level |
| TimerMask.RunBehind | src/ohv_vcpu.cpp:1839-1847 | over any run the hardware's timer word is behind the page's only while the page says masked |
| TimerMask.MaskLost | src/ohv_vcpu.cpp:1839-1847 | an exit after which the hardware enters the guest with the mask still down, exactly if the monitor is known |
| Gate.EntryLevels | src/ohv_vcpu.cpp:3295-3418 | at every entry VF and VI are a stateless function of the lines, the due timers, the band, the PC and PSTATE, whatever HCR_EL2 held; its other 62 bits are kept |
| Gate.LevelsInNumbers | src/ohv_vcpu.cpp:2988-3266 | those levels, from the lines, the band, the PC and bits 6 and 7 of PSTATE in plain numbers |
| Gate.WindowExactly | src/ohv_vcpu.cpp:2988-2995 | the monitor test sees the whole window exactly when its end does not wrap, and nothing when it does |
| ExitAnswers.LevelAfter | src/ohv_vcpu.cpp:1319-2065 | after every exit, from the numbers in the exit record alone: the level the guest believes in, whether NV is up, and whether a guarded return is out |
| ExitAnswers.ReturnsTrapAgain | src/ohv_vcpu.cpp:1424-1566 | in the kernel's half, and at the exit from the guarded state, NV is up after any exit but a trapped return, and no guarded return is out any more |
| ExitAnswers.KeepsRunning | src/ohv_vcpu.cpp:1806-2105 | the VMM is told of every exit but the kernel's own, the accesses answered, an HVC that is the guest hypervisor's, and a return that is the hardware's or its own EL2's |
| ExitAnswers.ReportedReason | src/ohv_vcpu.cpp:1806-2105 | which of the four reasons the VMM is given, for every exit it is told of |
| ExitAnswers.ReportedAddresses | src/ohv_vcpu.cpp:1774-1789 | the virtual address is FAR; the physical one has the kernel's page and FAR's offset |
| ExitAnswers.ReportedSyndrome | src/ohv_vcpu.cpp:249-302 | the syndrome is the kernel's, but for an access or a guarded exit that it left without one |
| ExitAnswers.ExitFrame | src/ohv_vcpu.cpp:1350-2105 | an exit that is no register access leaves the general registers, the lines, everything beside the page and all but nine words of it alone |
| ExitAnswers.QuietExit | src/ohv_vcpu.cpp:1806-2105 | one that is no exception entry and no return either leaves the guest exactly where it was |
| ExitAnswers.ChangesAreMarked | src/ohv_vcpu.cpp:1319-2065 | after every exit each changed word of the page is marked for the kernel in its own part of the state, but for the timer mask, and no mark is lost |
| ExitAnswers.GuardedLeft | src/ohv_vcpu.cpp:1959-1983 | a guarded return left to the hardware finds its pair where a hardware ERET looks, the guest otherwise where it was, NV down |
| ExitLaws.HandleKeeps | src/ohv_vcpu.cpp:1350-2105 | every exit keeps the lines, the offset, every HCR_EL2 bit but NV, the virtual-EL2 invariant and a PSTATE not naming EL2, and marks a changed HCR_EL2 |
| ExitLaws.ReturnUndoesEntry | src/ohv_vcpu.cpp:1333-2065 | HVC then ERET with the pair untouched resumes after the HVC; the whole PSTATE is back exactly if it did not name EL2, the level exactly if it was EL1 |
| ExitLaws.GuardedIsLegal | src/ohv_vcpu.cpp:1231-1303 | the returns left to the hardware are exactly the non-zero ones legal from EL1, so the illegal-return report never fires there |
| ExitLaws.VmmSeesTheGuest | src/ohv_vcpu.cpp:1806-2105 | an exit handed to the VMM leaves the PC, the general registers and PSTATE as the guest left them, refused accesses included |
| Dispatch.KeptExactly | src/ohv_vcpu.cpp:332-369 | an access goes to the place of a kept register exactly if its encoding is a name of that register: no row is missing, none is wrong |
| Dispatch.TimerExactly | src/ohv_vcpu.cpp:713-789 | 0xdf10 to 0xdf12 are the physical timer's TVAL, CTL and CVAL, 0xdf18 to 0xdf1a the virtual one's, and nothing else is |
| AccessAnswers.AnsweredExactly | src/ohv_vcpu.cpp:530-1202 | an access is answered exactly if its encoding names a kept register that no full list refuses, or is one of the listed others |
| AccessAnswers.ReadsAnswer | src/ohv_vcpu.cpp:555-705 | what a read of a counter, of its frequency, of the version and of a cache description leaves in X[Rt] |
| AccessAnswers.ClockTicks | src/ohv_vcpu.cpp:688-705 | between any two counter reads, whatever accesses lie between, the guest's count advances by what the host's did |
| AccessAnswers.WritesAreMarked | src/ohv_vcpu.cpp:530-1202 | every word of the page that an access changes is marked for the kernel, in the part of the state it belongs to |
| EmulatorLaws.StepDiscipline | src/ohv_vcpu.cpp:530-1202 | an answered access adds 4 to the PC and changes only X[Rt], on a read with Rt not 31; a refused one leaves both alone |
| EmulatorLaws.RegistersHold | src/ohv_vcpu.cpp:530-1202 | over any run of trapped accesses each emulated register holds the last value written to it |
| EmulatorLaws.PlacesApart | src/ohv_vcpu.cpp:332-369 | two encodings share a place only if they are the two views of one CTRR slot |
| HeldRegisters.HoldsLastGiven | src/ohv_vcpu.cpp:530-1202 | over any run of entries, exits and VMM calls, each register kept beside the page (the GIC interface, the Apple, trace and CTRR registers, the GL2 bank, the FIQ enable) holds what the guest last wrote to it, full lists' refusals aside |
| HeldRegisters.GuestReadsBack | src/ohv_vcpu.cpp:530-1202 | and a turn that traps on a read of it goes on with that value in X[Rt] |
| Coherence.CvalReadsBack | src/ohv_vcpu.cpp:713-797 | guest CVAL reads back after any other trapped accesses, for both timers |
| Coherence.TvalReadsDown | src/ohv_vcpu.cpp:774-778 | a read of TVAL after it was written, and any other accesses, gives the signed value written less the ticks gone by, for both timers |
| Coherence.CtlReadsBack | src/ohv_vcpu.cpp:749-782 | CTL holds, and reads back, what the guest wrote, over any other accesses, for both timers |
| Coherence.TvalFiresOnTime | src/ohv_vcpu.cpp:775-778 | after TVAL is written and any other accesses, a sweep fires the timer exactly if it is then armed and that many ticks have gone by, for every elapsed time; ISTATUS says so for an enabled one |
| Coherence.CvalFiresOnGuestTime | src/ohv_vcpu.cpp:783-786 | after CVAL is written and any other accesses, it fires exactly if it is then armed and the guest's count has reached the guest's value |
| Coherence.EretUsesLastPair | src/ohv_vcpu.cpp:2011-2055 | an ERET lands on the last ELR_EL2 and SPSR_EL2 written, over any run of accesses |
| Coherence.HvcUsesLastVector | src/ohv_vcpu.cpp:1322-1338 | an HVC lands in the vector table last written to VBAR_EL2 |
| Coherence.TranslateUsesLastRegime | src/ohv_vcpu.cpp:860-869 | AT answers with the walk of the tables last written to the EL2 translation registers |
| Coherence.OneWordTwoNames | src/ohv_sysreg_apple.cpp:64-164 | of the EL2 registers both sides can name, exactly five are one word under both names |
| AssocList.RunIsMap | src/ohv_vcpu.cpp:1118-1133 | after any run a listed encoding holds its last write, and one asked for but not listed means the list is full |
| AssocList.CtrrNeverFills | src/ohv_vcpu.cpp:1024-1034 | whatever came before, a CTRR access is never refused: at most four of six entries are used |
| Stage1.TranslateStage1 | src/ohv_vcpu.cpp:441-528 | the whole of ohv_translate_stage1 against the semantics |
| WalkLaws.HalfExactly | src/ohv_vcpu.cpp:456-487 | which base register, size and granule an address is walked with, from the bits of TCR, and when that is refused |
| WalkLaws.PathLeads | src/ohv_vcpu.cpp:441-528 | with 48-bit addresses and 4 KiB granules: a chain of descriptors in memory from the half's own base register to a leaf of any size makes the answer the leaf's address and the offset under it |
| WalkLaws.MappedExactly | src/ohv_vcpu.cpp:441-528 | and the answer is a fault exactly if there is no such chain |
| Stage1.RadixExactly | src/ohv_vcpu.cpp:488-501 | the indices at their shifts and the page offset rebuild every address for exactly the geometries other than 4 KiB with more than 48 bits |
| Stage1.LeafTranslates | src/ohv_vcpu.cpp:516-521 | all addresses under one leaf translate through it with their offset kept |
| Stage1.ReadsStayInTables | src/ohv_vcpu.cpp:496-526 | every read is an aligned word inside the granule of the table in hand |
| Stage1.OnlyVisitedMatters | src/ohv_vcpu.cpp:497-527 | two memories that agree on the visited descriptors give the same answer |
| Sysregs.WordIsFound | src/ohv_sysreg_table.cpp:4-250 | every register that the context layout has a word for is found under its encoding, with the mark of the part it belongs to |
| Sysregs.NoAliases | src/ohv_sysreg_table.cpp:4-250 | two backed encodings share a word, shadow or ID slot only if they are equal |
| Sysregs.RestoreUndoesWrites | include/openhyp/openhyp.hpp:119-140 | after any writes whatever a restored snapshot reads back: PSTATE exactly if it did not name EL2, CPTR_EL2 exactly if its two bits were up, everything else always |
| Gic.NeverTwice | src/ohv_gic.cpp:392-473 | over any calls and hardware steps no interrupt occupies two live list registers of one vCPU |
| Gic.RaiseQueues | src/ohv_gic.cpp:415-462 | after an enabled raise there is one live entry exactly if there was one or a register was free, pending, group 1, with the distributor's priority |
| Gic.RaisedPriority | src/ohv_gic.cpp:412-456 | with the four bytes of a GICD_IPRIORITYR word given, a raise queues the interrupt with its own byte, the lowest first |
| Gic.NinthIsLost | src/ohv_gic.cpp:415-462 | the ninth of any nine distinct interrupts raised on an idle vCPU is pending and never queued until it is raised again |
| Gic.PendingIsLastLevel | src/ohv_gic.cpp:396-402 | the pending bitmap is the last level of every interrupt |
| Mapping.RunRefines | src/ohv_vm.cpp:326-343 | over any run within capacity the array is the map, with unique keys |
| Mapping.GuestPtrIsLookup | src/ohv_vm.cpp:345-353 | for disjoint ranges the scan answers exactly when a mapping covers the request, with its address |
| Mapping.HandedOutRange | src/ohv_vm.cpp:348 | an answered request lies inside a live mapping exactly when its end does not wrap |
| Probe.Walker.WalkFrom | tools/offset_probe.cpp:160-214 | the walk ends, even with the table full, in the state its turns lead to; it scans only what is at most six edges away, nothing twice unless the table filled up, and follows every branch of a body scanned less than six deep unless something overflowed |
| Probe.FindsExactly | tools/offset_probe.cpp:160-214 | a finished walk in which nothing overflowed scanned everything reachable inside the text exactly if no body scanned six deep branches, inside the text, to an unscanned address |
| ProbeMiss.MissesThreeEdgesAway | tools/offset_probe.cpp:108-214 | a ten-word program on which nothing overflows and an address three edges from the start is never scanned |
| Cancel.OneStartHappens | src/ohv_vcpu.cpp:3526-3535 | the bound of one is reached: a request can land just before the trap |
| Cancel.LatchIsRequest | src/ohv_vcpu.cpp:3519-3535 | the latch is up exactly while some request stands unanswered |
| Band.BandIsFloor | src/ohv_vcpu.cpp:2966 | the band of an address is the multiple of 256 MiB at or below it |
| Band.RunKeepsInv | src/ohv_vcpu.cpp:2954-2986 | in every interleaving each band seen is published or some thread is on its way to publish it or a lower one |
| Machine.FieldsApart | src/ohv_vcpu.cpp:3552-3571 | two control fields never name one word |
| Machine.FieldsPlaced | src/ohv_vcpu.cpp:3552-3571 | each field is its register's word in the controls block, each such word is a field, and 4, 10 and those from 18 up name none |
| Machine.ControlReadsBack | src/ohv_vcpu.cpp:3573-3606 | a field reads back its last write, but for the guarded level's, and moves no other field |
| Machine.TimerCallsHold | src/ohv_vcpu.cpp:2856-2878 | the VMM's mask is bit 0 of the timer word and its offset the whole of the other, and neither call moves another word |
| Machine.RunKeeps | src/ohv_vcpu.cpp:3421-3517 | over any run, turns cut short at the latch or by a failed trap included, the lines are the VMM's last word, hardware HCR_EL2 is the page's or marked, its other bits are as last written, and the virtual-EL2 invariant stands while the VMM's writes are harmless to it |
| Machine.ListsAlwaysOk | src/ohv_vcpu.cpp:389-411 | over any run the three register lists stay maps with unique keys, so the register laws apply from any point of it |
| Machine.HcrWriteBreaksNv | src/ohv_vcpu.cpp:3595 | one write of zero breaks it |
| Calls.ApplyElsewhere | src/ohv_gic.cpp:307-473 | the calls past the registers and control fields write none of the words the run loop lives by; which of them mark the controls, from the call and the list registers it finds |
| Calls.ApplyMarks | src/ohv_gic.cpp:136-358 | which marks each of those calls leaves, bit by bit |
| Calls.TrapDebugBits | src/ohv_vcpu.cpp:2824-2843 | MDCR_EL2 after the two debug-trap calls, bit by bit |
| Calls.IchReadsBack | src/ohv_gic.cpp:279-340 | each ICH register has its own word, reads back its last write, a list register without the mark, and moves no other |
| Calls.SimdReadsBack | src/ohv_vcpu.cpp:2478-2489 | Q0 to Q31 are apart and read back |
| Calls.SpiIsGic | src/ohv_gic.cpp:392-473 | what a shared interrupt does to a vCPU's page is what the interrupt controller's model says |
| Machine.CreationStarts | src/ohv_vcpu.cpp:2137-2342 | a new vCPU satisfies what the run theorems start from, and its HCR_EL2 has the bits creation adds |
| Machine.CreationTraps | src/ohv_vcpu.cpp:2262-2343 | the fine-grained and counter traps and the GIC enable of a new vCPU, bit by bit |
| Machine.CreationRest | src/ohv_vcpu.cpp:2262-2342 | what creation puts in HACR_EL2 and the guest's own HCR_EL2, and that it writes nothing else but the traps |
| TimerMask.HandleTimer | src/ohv_vcpu.cpp:1774-1850 | only the report of the virtual timer writes the timer word, and it marks nothing by itself |
| TimerMask.CallMarks | src/ohv_vcpu.cpp:2754-2878 | which VMM calls mark the controls, from the call and the state it finds |
| Gate.NotedInProtocol | src/ohv_vcpu.cpp:2956-2986 | what a vCPU does to its base and to the shared word is what the protocol's steps come to when no other thread is between them |
| Gate.NotedBelow | src/ohv_vcpu.cpp:2956-2986 | a vCPU in the kernel's half knows a base at or below where it is; a known base only goes down |
| Gate.AsIrqNames | src/ohv_vcpu.cpp:3149-3151 | the mask of vCPUs whose timer is an IRQ has a bit a vCPU |
| Gate.SetLevelWrites | src/ohv_vcpu.cpp:3195-3200 | writing a level only when it differs is writing it: one bit, marked if it changed, nothing else |
| Gate.EntryFrame | src/ohv_vcpu.cpp:3295-3418 | an entry changes only HCR_EL2, the dirty mask, the two ISTATUS bits and the lines, and a changed HCR_EL2 is marked |
| Gate.GateSafety | src/ohv_vcpu.cpp:2988-3034 | with the monitor known, a level up at an entry means parked, or outside the monitor with that interrupt unmasked |
| Gate.TimerPicksOneLine | src/ohv_vcpu.cpp:3149-3225 | a due timer reaches exactly one of the two lines, and neither the VMM's half nor the timer's takes the other's level down |
| Gate.PendingSetsLevel | src/ohv_vcpu.cpp:2754-2817 | a VMM level call sets its own line to what it should be at once |
| Gate.ParkingSetsLevels | src/ohv_vcpu.cpp:3281-3293 | parking or unparking sets both lines again and no other bit |
| Timers.CvalRoundTrip | src/ohv_vcpu.cpp:783-786 | CVAL written then read through the offset is the identity modulo 2^64 |
| Timers.TvalCountsDown | src/ohv_vcpu.cpp:775-778 | TVAL reads back the signed value written less the ticks gone by |
| Timers.TvalDue | src/ohv_vcpu.cpp:777 | a timer set to a signed distance is due exactly from that many ticks on until the signed comparison wraps, for every elapsed time |
| Timers.DueInGuestTime | src/ohv_vcpu.cpp:3314 | the host-clock comparison is the comparison the guest would make in its own clock |
| Timers.SweptBits | src/ohv_vcpu.cpp:3313-3336 | ISTATUS is the comparison for an enabled timer, a disabled one keeps its word, no other bit moves, and it is written only when wrong |
| Timers.SweepSettles | src/ohv_vcpu.cpp:3313-3336 | sweeping twice at one time is sweeping once |
| ExitAnswers.ReturnFrame | src/ohv_vcpu.cpp:1959-2065 | a return leaves its pair and the syndrome as they were |
| ExitAnswers.EntryIsMarked | src/ohv_vcpu.cpp:3295-3418 | what the preparation of an entry changes is marked too, the swept control word among it |
| ExitAnswers.MsrExactly | src/ohv_vcpu.cpp:264 | which instruction words are a register access |
| ExitAnswers.SyndromeFields | src/ohv_vcpu.cpp:530-541 | the access in a syndrome, field by field |
| ExitLaws.HvcEnters | src/ohv_vcpu.cpp:1319-1348 | an HVC from EL1 enters the guest's own EL2 vector with the return state in the registers it reads, NV armed |
| ExitLaws.EretReturns | src/ohv_vcpu.cpp:1994-2065 | a trapped ERET resumes at ELR with SPSR, EL2 modes rewritten to EL1, and leaves EL2 exactly on a return to EL1 |
| ExitLaws.ActivatedExactly | src/ohv_vcpu.cpp:1839-1847 | the virtual timer is reported exactly when it is enabled, unmasked and has fired, no other bit of its control word is up, and the mask is down |
| ExitLaws.SyndromeNamesAccess | src/ohv_vcpu.cpp:264-281 | the syndrome built from an instruction decodes to that instruction's access, in class 0x18 |
| Dispatch.NoTimerExactly | src/ohv_vcpu.cpp:713-797 | the encodings beside the timers' that are refused |
| Dispatch.CounterExactly | src/ohv_vcpu.cpp:688-701 | the two counters and their frequency, reads only |
| Dispatch.AppleCounterExactly | src/ohv_vcpu.cpp:1102-1110 | Apple's two counters, in every CRn but the interrupt interface's |
| Dispatch.CacheExactly | src/ohv_vcpu.cpp:638-667 | the cache registers' encodings |
| Dispatch.HiddenExactly | src/ohv_vcpu.cpp:555-586 | the version read and the handoff write |
| Dispatch.InstructionExactly | src/ohv_vcpu.cpp:860-873 | the translation and maintenance encodings |
| Dispatch.WorkingNames | src/ohv_vcpu.cpp:332-369 | the words the library works on are the registers of those names |
| Emulator.PickValid | src/ohv_vcpu.cpp:530-1202 | the words the dispatcher's registers live in are none of the general registers, the PC, the controls, the timers' or the dirty mask |
| EmulatorLaws.ServeKeeps | src/ohv_vcpu.cpp:530-1202 | no access touches the registers, PSTATE, the lines or a control but HCR_EL2; only the handoff moves the virtual level, and it arms NV |
| EmulatorLaws.PickNamed | src/ohv_vcpu.cpp:332-369 | every access goes to the place of the register its encoding names, by the context layout and the VNCR offsets |
| EmulatorLaws.CellAccess | src/ohv_vcpu.cpp:530-1202 | a register write changes that register and no other, a read returns it, and only a full list refuses |
| EmulatorLaws.OtherAccess | src/ohv_vcpu.cpp:530-1202 | counters, timers, translations, maintenance and the handoff touch none of the emulated registers |
| EmulatorLaws.PhysicalStaysDisarmed | src/ohv_vcpu.cpp:739-755 | no access stores a non-zero word where the hardware would load CNTP_CTL from |
| Coherence.SweepDecides | src/ohv_vcpu.cpp:3302-3343 | the sweep's verdict and control word for each timer, within a whole entry |
| Coherence.El2Names | src/ohv_vcpu.cpp:332-369 | ELR_EL2, SPSR_EL2 and VBAR_EL2 reach the words exception entry and return use |
| Coherence.VmmReadsGuestPair | src/ohv_sysreg_table.cpp:97-98 | through the EL1 names the VMM reads the return pair the guest last wrote |
| AssocList.AccessRefines | src/ohv_vcpu.cpp:1118-1133 | an answered access reads and updates a total map at one encoding; only an unlisted encoding of a full list is refused |
| AssocList.GicDefaults | src/ohv_vcpu.cpp:389-401 | the interface registers start at 0 and ICC_SRE_EL1 at 7 |
| AssocList.CtrrSlots | src/ohv_vcpu.cpp:1017-1021 | two CTRR encodings share a slot exactly when they are its EL1 and EL2 views |
| AssocList.CtrrViewsAgree | src/ohv_vcpu.cpp:1017-1048 | a write through the EL1 view is what the EL2 view reads |
| WalkLaws.OwnHalf | src/ohv_vcpu.cpp:458-465 | addresses of one half are translated without the other half's base register |
| WalkLaws.FirstRead | src/ohv_vcpu.cpp:458-504 | the first word read lies in the granule at the half's own base |
| WalkLaws.AddressBits | src/ohv_vcpu.cpp:514 | a descriptor's address is its bits 47 to 12 |
| WalkLaws.RootBits | src/ohv_vcpu.cpp:496 | a base register's table is its bits 47 down to the granule |
| WalkLaws.DescriptorExactly | src/ohv_vcpu.cpp:509-522 | bits 1 and 0 and the level say whether a descriptor is nothing, a table or a leaf |
| WalkLaws.Untranslated | src/ohv_vcpu.cpp:447-450 | with translation off the answer is bits 47 to 12 of the address |
| Stage1.StartIsStart | src/ohv_vcpu.cpp:488-494 | the start level is the only one whose index reaches the top of the address, and every level from it down is walkable |
| Stage1.TranslateFits | src/ohv_vcpu.cpp:441-528 | PAR_EL1 is a 64-bit word with bit 0 set exactly on a fault |
| Stage1.Radix | src/ohv_vcpu.cpp:497-501 | the indices at their shifts and the page offset rebuild the address |
| Sysregs.LookupPlaced | src/ohv_sysreg_table.cpp:128-250 | every table row is the place the context layout gives that register, in range, and never CNTP_CTL's hardware word |
| Sysregs.ShadowIsFound | src/ohv_sysreg_apple.cpp:64-164 | every shadowed register is found under its encoding |
| Sysregs.IdIsFound | src/ohv_misc.cpp:15-28 | every ID register is found under its encoding |
| Sysregs.DroppedExactly | src/ohv_sysreg_table.cpp:4-68 | the sixty-four breakpoint and watchpoint registers are the ones accepted and dropped |
| Sysregs.MarkIsPart | src/ohv_sysreg_table.cpp:4-118 | a row's mark is the part of the state its word is in |
| Sysregs.SetMarks | src/ohv_vcpu.cpp:2654 | a write marks its word's part and no other |
| Sysregs.SyncExactly | src/ohv_vcpu.cpp:2552-2584 | which accesses ask for the kernel's copy first |
| Sysregs.StoredBits | src/ohv_vcpu.cpp:2586-2598 | the two bits CPTR_EL2 gains |
| Sysregs.RegistersPlaced | src/ohv_vcpu.cpp:2411-2476 | where X0 to X30 and the PC are, and which numbers are no register |
| Sysregs.GetAfterSet | src/ohv_vcpu.cpp:2492-2672 | get after set returns the value (CPTR_EL2 gains 0x300000) and every other register keeps its own |
| Sysregs.GetRegAfterSet | src/ohv_vcpu.cpp:2411-2476 | the same for the general registers, with PSTATE rewritten from EL2 to EL1 |
| Sysregs.Demote | src/ohv_vcpu.cpp:2449-2457 | a PSTATE set by the VMM never names EL2, keeps its other bits, and is unchanged if it did not |
| Sysregs.FilesApart | src/ohv_vcpu.cpp:2411-2672 | no general register is a system register |
| Sysregs.ValuesComeBack | include/openhyp/openhyp.hpp:114-131 | writing a list's values back onto any state gives the list its values |
| Sysregs.ReadsAreQuiet | src/ohv_vcpu.cpp:2522-2536 | a read, which may bring the ID registers in, changes no register's value |
| Gic.QueuedFields | src/ohv_gic.cpp:454-456 | the packed list register has the fields it was packed from |
| Gic.DistributorBits | src/ohv_gic.cpp:396-413 | where the enable and pending bits of an interrupt are |
| Gic.DisabledRaise | src/ohv_gic.cpp:416 | a raise of a disabled interrupt reaches no list register |
| Gic.LowerRetracts | src/ohv_gic.cpp:464-471 | a lower leaves no pending-only entry and keeps one already taken |
| Gic.DeliverMoves | src/ohv_gic.cpp:415-471 | a list register changes, and the change is marked, exactly when there is something new to queue and a free register, or a pending-only entry to take out |
| Gic.OthersUntouched | src/ohv_gic.cpp:392-473 | other interrupts keep their entries in place and their distributor bits |
| Gic.ChangesAreMarked | src/ohv_gic.cpp:457-469 | a list register differs only on a vCPU then marked for the kernel |
| Gic.NoneComesLater | src/ohv_gic.cpp:392-473 | an interrupt in no list register gets into none over any events without a raise of it |
| Gic.FortyIsLost | src/ohv_gic.cpp:415-462 | a vCPU and nine interrupts of which the ninth is lost so |
| Mapping.RememberRefines | src/ohv_vm.cpp:331-336 | remembering is map update, dropped only when full of other keys |
| Mapping.ForgetRefines | src/ohv_vm.cpp:338-342 | forgetting by moving the last record down is map removal |
| Mapping.GuestPtrIgnoresOrder | src/ohv_vm.cpp:345-353 | the order of the array does not matter |
| Mapping.WrappedRequestAnswered | src/ohv_vm.cpp:348 | a wrapping request that is answered |
| Probe.FindsShallow | tools/offset_probe.cpp:160-214 | a finished walk in which nothing overflowed scans everything reachable inside the text if nothing is at the end of a path of exactly six edges |
| Probe.BranchOff | tools/offset_probe.cpp:93-95 | the offset is the 26-bit field, sign-extended, times four |
| Probe.Code.ScansExactly | tools/offset_probe.cpp:164-212 | a body is scanned up to a word exactly if it is within 6144 bytes, nothing ended it before, and nowhere before are there 320 undecodable words in a row |
| Probe.NotStored | tools/offset_probe.cpp:111-114 | an empty slot ends every run an address could be in |
| Probe.StoreFindable | tools/offset_probe.cpp:115 | storing keeps every address findable and adds exactly one |
| Probe.TurnsKeep | tools/offset_probe.cpp:160-214 | any number of turns keeps the walk sound: reached entries, nothing twice, every branch of a shallow body followed |
| Probe.FromWordKeeps | tools/offset_probe.cpp:168-212 | scanning a body from any word on keeps that and follows every branch met |
| Probe.TurnDescends | tools/offset_probe.cpp:163-164 | a pop and its pushes lower the depth-ordered count of the stack |
| Cancel.VcpusExit | src/ohv_vcpu.cpp:3519-3535 | a bad id latches nobody; otherwise exactly the named vCPUs are latched and the mask has exactly their bits |
| AssocList.ShadowList.Search | src/ohv_vcpu.cpp:402-404 | the scan finds the first entry for the encoding, or the end |
| AssocList.ShadowList.Use | src/ohv_vcpu.cpp:1118-1133 | find or append, then read or write, in place, is the list access; a refusal changes nothing |
| Stage1.StartLevel | src/ohv_vcpu.cpp:489-494 | the loop finds the start level |
| Stage1.ReadLevel | src/ohv_vcpu.cpp:498-522 | one turn of the loop is one step of the recursive semantics |
| Stage1.WalkTables | src/ohv_vcpu.cpp:496-527 | the loop computes the recursive walk, ends, and never reaches its last fault |
| Gic.GicModel.Inject | src/ohv_gic.cpp:415-462 | the two scans and the store, in place |
| Gic.GicModel.Withdraw | src/ohv_gic.cpp:464-471 | the retracting loop, in place |
| Gic.GicModel.SetSpiLevel | src/ohv_gic.cpp:392-473 | the whole call, in place, and its range check |
| Mapping.MapIndex.MapRemember | src/ohv_vm.cpp:331-336 | in place, the sequence operation |
| Mapping.MapIndex.MapForget | src/ohv_vm.cpp:338-342 | in place, the sequence operation |
| Mapping.MapIndex.OhvGuestPtr | src/ohv_vm.cpp:345-353 | the scan loop |
| Probe.Walker.Lookup | tools/offset_probe.cpp:108-114 | the probe loop ends and decides membership |
| Probe.Walker.VisSeen | tools/offset_probe.cpp:108-117 | true exactly for stored addresses; otherwise stored until the table is half full |
| Probe.Walker.Enqueue | tools/offset_probe.cpp:152-158 | in place, the push as a function of the whole state |
| Probe.Walker.ScanBody | tools/offset_probe.cpp:164-212 | the loop over a body, in place |
| VcpuSlot.Vcpu.constructor | src/ohv_internal.h:33-169 | a slot starts as declared, timers' FIQ enable at 3 |
| VcpuSlot.Vcpu.UpdateFiqLevel | src/ohv_vcpu.cpp:3203-3266 | in place, the new state is that of the gate's function |
| VcpuSlot.Vcpu.UpdateIrqLevel | src/ohv_vcpu.cpp:3168-3200 | in place, the new state is that of the gate's function |
| VcpuSlot.Vcpu.SetPendingInterrupt | src/ohv_vcpu.cpp:2754-2817 | in place, the new state is that of the gate's function |
| VcpuSlot.Vcpu.Park | src/ohv_vcpu.cpp:3281-3293 | in place, the new state is that of the gate's function |
| VcpuSlot.Vcpu.NoteImageBand | src/ohv_vcpu.cpp:2956-2986 | in place: this vCPU's base and the shared word |
| VcpuSlot.Vcpu.SweepTimer | src/ohv_vcpu.cpp:3302-3343 | one turn of the sweep, in place |
| VcpuSlot.Vcpu.Expire | src/ohv_vcpu.cpp:3295-3418 | band, both timers and both levels, in place |
| VcpuSlot.Vcpu.AccessTimer | src/ohv_vcpu.cpp:713-797 | the timer registers, in place |
| VcpuSlot.Vcpu.UseGic | src/ohv_vcpu.cpp:389-411 | the interface list with its late first entry, in place |
| VcpuSlot.Vcpu.AccessTranslation | src/ohv_vcpu.cpp:860-869 | AT leaves the walk's answer in PAR_EL1, in place |
| VcpuSlot.Vcpu.ServiceNv2Access | src/ohv_vcpu.cpp:530-1202 | the whole dispatcher, in place |
| VcpuSlot.Vcpu.EnterEl2 | src/ohv_vcpu.cpp:1319-1348 | exception entry, in place |
| VcpuSlot.Vcpu.LeaveEretToHardware | src/ohv_vcpu.cpp:1964-1983 | the guarded return, in place |
| VcpuSlot.Vcpu.CompleteEret | src/ohv_vcpu.cpp:2011-2063 | the emulated return, in place |
| VcpuSlot.Vcpu.RestoreTraps | src/ohv_vcpu.cpp:1432-1566 | NV put back at a guarded exit and in the kernel's half, in place |
| VcpuSlot.Vcpu.HandleInterrupt | src/ohv_vcpu.cpp:1819-1850 | a physical interrupt, in place |
| VcpuSlot.Vcpu.ExitFromRo | src/ohv_vcpu.cpp:1350-2105 | the whole classification, state and answer, in place |
| VcpuSlot.Vcpu.GetRegister | src/ohv_vcpu.cpp:2411-2432 | the general register read |
| VcpuSlot.Vcpu.SetRegister | src/ohv_vcpu.cpp:2434-2476 | the general register write, in place |
| VcpuSlot.Vcpu.GetSystemRegister | src/ohv_vcpu.cpp:2492-2672 | the system register read: no such register, a refused sync, the ID registers' late load, in place |
| VcpuSlot.Vcpu.SetSystemRegister | src/ohv_vcpu.cpp:2492-2672 | the system register write: no such register, a refused sync with nothing done, in place |
| VcpuSlot.Vcpu.SetControlField | src/ohv_vcpu.cpp:3573-3600 | the control field write: unknown fields refused, the guarded level's dropped, in place |
| VcpuSlot.Vcpu.Snapshot | include/openhyp/openhyp.hpp:124-133 | the loops take the registers and the listed values, or fail only where an access does |
| VcpuSlot.Vcpu.RestoreSnapshot | include/openhyp/openhyp.hpp:134-140 | the loops write them back, up to the first access that fails |
| VcpuSlot.Process.Publish | src/ohv_vcpu.cpp:2974-2984 | the loop lowers the shared word to the band, unless it is there already, however often the exchange fails for no reason |
| VcpuSlot.Vcpu.SweepTimers | src/ohv_vcpu.cpp:3302-3343 | the loop over both timers, in place |

## Left out

- The `svc` gate and the kernel beyond RUN, SYNC and CANCEL: foreign code. RUN is a step that loads the marked controls, takes the mark down and returns arbitrary registers, PSTATE at EL0 or EL1, and an arbitrary rest of the page.
- The register sync: which accesses ask for it and what happens when it is refused are modelled; what it brings in is only the guarded return pair at an exit, and it changes nothing else in the page.
- Tracing and the `OHV_*` variables: the defaults are fixed.
- Writes through the context pointer that `__hv_vcpu_get_context` (`src/ohv_vcpu.cpp:3607`) hands out: any word of the page can change that way.
- Weak memory ordering, and calls on a vCPU from a thread that does not own it: atomics are sequentially consistent, and only the latch and the band are shared. A shared interrupt raised while the guest runs comes before or after that run.
- VM destruction and re-creation: one VM lifetime.
- Handles, name aliases, error strings, configuration getters and setters, SME and AMX copies, ID-register masks, MSI, GIC state save: thin or branch-local; where such a call marks a part of the state, that mark is an event of the runs.
- The host's ID register values, the cache descriptions and the counter frequency are parameters.
- EmulatorLaws.RegistersHold: the PSTATE-field word is one per process; its law is for runs in which no other vCPU writes it, and HeldRegisters leaves that word out.
- hv_vcpu_create: the slot search, the version check and the nested address space are not modelled.
- VcpuSlot.Process.Publish: the loop runs alone with the shared word; interleavings are in `Band.dfy`.
- The small fixed banks of the slot (GL2, trace, ID registers) are sequence fields, not arrays.
- Gic.NeverTwice: list registers written by the caller are excluded, since those can place duplicates by design.
- Probe: the instruction decoder is a table of what each address holds; the recorded immediates, trap numbers and reports are left out, and a read outside the table decodes as an unknown instruction.
