# USLOSS: a verified model of the simulator's machine

USLOSS simulates a small computer inside one Unix process: a software MMU, interrupt-driven devices,
and the trap protocol between user and kernel mode. This project models the three parts of it that
are hard to get right and proves what they are for.

**The MMU** (`src/mmu.c`) keeps reference and dirty bits lazily. A page starts without any access
from the host; each fault raises its real protection by one step and records one bit. `LazyMmu` says
what the program does, including the host's own mapping, which only `mmap` changes. `EagerMmu` is the
MMU its callers have in mind: it has no real protection, no host and no counter, checks permission
and sets the bits at each access, and loads a page table in one go. The main theorem is that nobody
can tell them apart, over any run (`MmuRefinement.LazyRefinesEager`), and that the condition on the
calls is exact (`MmuRefinement.DocumentedIsExact`). On top of it: the bound on silent faults, the
counter, host agreement, unreachable handler cases, and isolation of contexts with disjoint frames.

**The event ring** (`src/devices.c`) with the disks and terminals that feed it. `EventRing` describes
insertion by priority displacement into a ring of any size with any number of levels (the program has
256 slots and 3 as the terminal's level) and proves what it does to contents, occupied slots and the
devices of other priorities; `EventRuns` adds time, delivery and whole runs. `Devices` composes alarm,
disks and terminals, `AlarmClock` shows that alarms ring on time, `DiskRuns` and `TermRuns`
that each disk and terminal behind the ring still is what it is alone, and `TornInsertion` what device
ticks inside an insertion do.

**Traps** (`src/sig_ints.c`, `src/globals.c`): several contexts, timer signals between any two steps,
one `trap_pending` flag and one argument register, the status word and the clock.

Refinement compares two descriptions, and definitions they share could be wrong in both. So what a
caller gets is also stated end to end, in the numbers and macros of `usloss.h` and through the calls
themselves (`MmuGuarantees`, `DiskGuarantees`, `TermGuarantees`, `DeviceGuarantees`, `TrapGuarantees`).

Each part has the state as the program keeps it: classes whose methods change arrays and fields in
place (`MmuDevice`, `MmuApi`, `EventQueue`, `Disk.DiskInfo`, `Terminal.TermDevice`, `DeviceBoard`,
`TrapMachine`), each method proved to do exactly one step of the functions the theorems are about.

## Where the code does not do what its callers expect

Each of these is a theorem over all inputs of the kind it names.

- `USLOSS_MmuMap` accepts protection 2, which `usloss.h` does not define (src/mmu.c:326). The first
  load or store there ends in the handler's internal error (`MmuRefinement.UndocumentedMap`).
- `USLOSS_MmuSetAccess` with the reference bit and not the dirty bit makes every page of the current
  tag on that frame readable, pages without any access included; a store to one of those ends in the
  handler's internal error (src/mmu.c:604-613, `MmuRefinement.UndocumentedSetAccess`).
- The handler's page number is rounded towards zero and kept in an int (src/mmu.c:78-79, 678, 691), so
  an address outside the region can have the number of a page in it: any on the guard page just below
  (`MmuRefinement.BelowStrays`), and any that is a multiple of 2^32 pages past one of the region
  (`MmuRefinement.FarStrays`). It raises an MMU interrupt where a plain segmentation fault is due. If
  that page is mapped it is left with its full real protection, its frame with the reference bit if
  the page is readable and the dirty bit if it is writable, even for a load
  (`MmuRefinement.StrayAccess`).
- `disk_action` does not refuse a negative sector (src/dev_disk.c:143). The simulator stops, or a
  sector elsewhere on the disk is read or written (`Disk.NegativeSectorReaches`), one of an earlier
  track unless the offset overflows (`Disk.EarlierTrack`).
- A seek by exactly -2^31 tracks has a delay of -7, which the ring takes for 249 (src/dev_disk.c:97-104,
  `Disk.DelayShort`).
- `schedule_int` never returns on a full ring (`EventQueue.FullRingNeverEnds`), which is reached
  exactly when the alarms outstanding and the busy disks are as many as its slots
  (`Devices.StepSound`); two alarms for the same tick cannot both be exact (`AlarmClock.ExactSlot`); a
  time of 0 means once round the ring.
- Nothing keeps timer signals out of `USLOSS_DeviceOutput` and `schedule_int` when interrupts are on
  (src/devices.c:44-65, 175-199). A request interrupted by device ticks once its index is computed is
  one made after them for so many ticks less (`EventQueue.DeviceQueue.ScheduleInterrupted`), so it
  keeps its tick exactly when they are fewer than it asked for (`AlarmClock.KeepsItsTick`); otherwise
  it comes a round of the ring late, already with one tick inside a request for one
  (`AlarmClock.RoundLate`). A device tick inside a swap loses, repeats or changes an event exactly when
  it consumes the slot that is being swapped (`TornInsertion.TickConserves`): an evicted event is
  delivered twice (`TornInsertion.DeliveredTwice`), or the new one is delivered with the slot's old
  argument, for a disk the number of another unit (`TornInsertion.WrongArgument`).
- A handler's return does not restore the current fields of the status word from the previous ones,
  as src/usloss.h:174-178 says, but the whole word (src/sig_ints.c:189). The two agree exactly when the
  previous fields are those of the entry (`Traps.ReturnAsDocumented`); a handler's change of them is
  lost (`Traps.PreviousIgnored`).

## Model

| member | source | states |
|---|---|---|
| MmuRefinement.LazyRefinesEager | src/mmu.c:111-1095 | From power-on, over every run of the MMU's calls, loads and stores that keeps to the documentation, every status, mapping, access word, cause, loaded byte and interrupt is the eager MMU's |
| MmuRefinement.RunRefines | src/mmu.c:307-977 | The same from any sound state, and the two machines end in corresponding states |
| MmuRefinement.DocumentedIsExact | src/mmu.c:307-977 | In every sound state a call can never be told from the eager MMU's, whatever follows, if and only if it is documented: it does not map with protection 2, does not set the reference bit alone on a frame mapped without access under the current tag, and is no access outside the region whose page number, as the handler computes it, is in the region |
| MmuRefinement.StepRefines | src/mmu.c:307-1095 | One documented call changes the abstract state and answers as the eager MMU does, and keeps real protections at or below virtual ones |
| MmuRefinement.UndocumentedDiffers | src/mmu.c:729-756 | For every undocumented call there is a documented continuation that shows the difference |
| MmuRefinement.UndocumentedMap | src/mmu.c:326-328 | After an accepted mapping with protection 2, switching to its tag and any load from or store to the page aborts the simulator; the eager MMU aborts nowhere in that run |
| MmuRefinement.UndocumentedSetAccess | src/mmu.c:602-613 | After the reference bit alone is set on a frame mapped without access, a load from any of its pages succeeds and a store aborts the simulator, where the eager MMU raises an access interrupt for both |
| MmuRefinement.StrayAccess | src/mmu.c:678-757 | What every access outside the region leaves whose page number strays into it: the interrupt, its cause, the exact number of silent handler runs, and a mapped page raised to its full virtual protection with the access bits of that protection |
| MmuRefinement.StrayDiffers | src/mmu.c:691-707 | Every stray load or store raises an MMU interrupt, where the eager MMU ends the process |
| MmuRefinement.BelowStrays | src/mmu.c:78-79 | Every address on the page just below the region strays, to page 0 |
| MmuRefinement.FarStrays | src/mmu.c:678-691 | Every address a positive multiple of 2^32 pages past one of the region strays, to that one's page |
| MmuRefinement.HandlePage | src/mmu.c:729-756 | In a sound state the handler retries or interrupts on every page of the region: its "can't happen" cases and its internal error are unreachable |
| MmuRefinement.AccessRefines | src/mmu.c:671-757 | A load or store with all its silent handler runs has the value, interrupt, cause and access bits of one eager check; a store to a read-only page sets the reference bit before it is refused |
| MmuRefinement.RetryRefines | src/mmu.c:737-747 | A silent run of the handler sets only a bit the access was about to set anyway |
| MmuRefinement.PermittedRefines | src/mmu.c:594-614 | An access the host lets through finds its access bits already set, through whatever alias of the frame it comes |
| MmuRefinement.MapRefines | src/mmu.c:308-354 | Map has the eager MMU's status, with its errors in the same order, and its effect on the one entry; the mapping counter decides as a count of the live entries does |
| MmuRefinement.UnmapRefines | src/mmu.c:407-440 | The same for Unmap |
| MmuRefinement.SwitchRefines | src/mmu.c:931-977 | A tag switch changes the current tag and nothing else a caller can see |
| MmuRefinement.BitsRefines | src/mmu.c:575-615 | USLOSS_MmuSetAccess changes the access word of the one frame and nothing else a caller can see |
| MmuRefinement.InstallRefines | src/mmu.c:1047-1095 | USLOSS_MmuSetPageTable is exact from any state: entries below the first bad one are in force, nothing is mapped from there on, and the status names what is wrong with that entry; a null table unmaps all |
| MmuRefinement.InstallErrors | src/mmu.c:1066-1092 | Its only errors are a write-only entry and a frame out of range, and it succeeds if and only if every entry is good: never out of mappings, never a mapping in the way |
| MmuRefinement.SpareMapping | src/mmu.c:141-143 | In page-table mode an unmapped page implies a spare mapping (pigeonhole over the row) |
| MmuInvariant.StepKeeps | src/mmu.c:111-1095 | Every call, documented or not, keeps the invariant: frames in range, current tag in range, host and tables in agreement, counter exact, access bits not under-reporting |
| MmuInvariant.MapKeeps | src/mmu.c:323-353 | Map keeps it; the counter never passes its maximum |
| MmuInvariant.UnmapKeeps | src/mmu.c:419-438 | Unmap keeps it |
| MmuInvariant.SwitchKeeps | src/mmu.c:957-975 | A tag switch keeps it: every entry of another tag has no real protection |
| MmuInvariant.BitsKeeps | src/mmu.c:594-614 | Clearing access bits keeps it: each page on the frame loses the real access its bits no longer account for |
| MmuInvariant.HandleKeeps | src/mmu.c:729-747 | A handler run keeps it |
| MmuInvariant.AccessKeeps | src/mmu.c:671-757 | A load or store keeps it |
| MmuInvariant.StartedWellFormed | src/mmu.c:177-209 | USLOSS_MmuInit establishes it |
| MmuGuarantees.TableOutcomes | src/mmu.c:1066-1092 | After a page table is accepted, a load from a page succeeds if and only if its entry is in core and readable, a store if and only if it is writable as well; otherwise the cause is 2 on a page in core and 1 elsewhere |
| MmuGuarantees.TableGrants | src/mmu.c:1049-1095 | After any page table, accepted or not: the byte loaded and stored, the access bits and the cause, for every page up to the first bad entry; from there on every access faults |
| MmuGuarantees.TableAnswers | src/mmu.c:1069-1092 | Status 0 if and only if no in-core entry is write-only or has a frame that does not exist; otherwise 5 or 4, after the first such entry |
| MmuGuarantees.NoTableFaults | src/mmu.c:1053-1066 | With a null table every access faults |
| MmuGuarantees.MapAnswers | src/mmu.c:317-335 | The status of USLOSS_MmuMap, with its tests in order |
| MmuGuarantees.MapTold | src/mmu.c:346-353 | A new mapping is told by USLOSS_MmuGetMap, and the others are told as before |
| MmuGuarantees.MapGrants | src/mmu.c:308-354 | Under its tag a mapping with protection 0, 1 or 3 gives exactly the loads and stores of that protection, on the bytes of its frame, with the access bits they set |
| MmuGuarantees.UnmapFaults | src/mmu.c:407-440 | An unmapped page is told as such, and every access to it faults |
| MmuGuarantees.BitsTold | src/mmu.c:594-597 | Access bits that are set are read back, and those of other frames are as before |
| MmuGuarantees.OtherAnswers | src/mmu.c:413-422 | The statuses of unmapping, switching tags, setting access bits and the other calls in TLB mode |
| MmuGuarantees.NullAnswers | src/mmu.c:508-526 | The answers of the getters, null pointers last |
| MmuGuarantees.ModeAnswers | src/mmu.c:384-386 | The calls of TLB mode answer 11 in page-table mode, and an MMU that is on answers 2 to USLOSS_MmuInit |
| MmuGuarantees.OffAnswers | src/mmu.c:381-383 | Every call but the cause and the start answers 1 while the MMU is off |
| MmuGuarantees.InitAnswers | src/mmu.c:131-209 | The status of USLOSS_MmuInit, with its tests in order, and the sizes, mode, maximum, empty tables, bits and bytes it starts with |
| MmuGuarantees.MappingsFromStart | src/mmu.c:145-182 | Started with k mappings, the MMU grants exactly the first k of any new mappings and answers 10 to the rest |
| MmuFaults.BoundedFaults | src/mmu.c:729-747 | Any access in the region ends in success or one delivered interrupt, success exactly when the virtual protection allows it; the silent handler runs before are exactly the given number, at most the gap between virtual and real protection, at most two |
| MmuFaults.EveryRunKeeps | src/mmu.c:182-186 | Over every run whatsoever the invariant holds, so table indices stay in bounds and the counter exact |
| MmuIsolation.Isolation | src/sig_ints.c:218-235 | If each context's tables name only its own frames, what a context observes over any interleaving of switches, loads and stores is what it observes running alone |
| MmuIsolation.EagerIsolation | src/mmu.c:1049-1094 | The same for the eager MMU, from any two machines that look alike to the context |
| MmuDevice.MmuInfo.Map | src/mmu.c:308-354 | In place on the arrays; state and status are the function's, and the invariant holds |
| MmuDevice.MmuInfo.Unmap | src/mmu.c:407-440 | In place; the page no longer answers to a touch (its self-check) |
| MmuDevice.MmuInfo.SetRealProt | src/mmu.c:816-842 | In place, with the loop that checks every unmapped page, which never fails |
| MmuDevice.MmuInfo.SetAccess | src/mmu.c:575-615 | In place, with the loop over pages; all selected pages are changed and no other |
| MmuDevice.MmuInfo.SetTag | src/mmu.c:931-977 | In place, with both loops: old pages lose access, new ones are shown without |
| MmuDevice.MmuInfo.Handler | src/mmu.c:671-757 | In place; state and verdict are the function's |
| MmuDevice.MmuInfo.SetPageTable | src/mmu.c:1047-1095 | In place, with both loops; the default case of the first is unreachable |
| MmuApi.Usloss.MmuInit | src/mmu.c:111-210 | One step of the machine: the errors in order, or a new MMU in its initial state; the mode check before raises one illegal-instruction interrupt in user mode |
| MmuApi.Usloss.MmuDone | src/mmu.c:265-290 | One step of the machine; the mode check before raises one illegal-instruction interrupt in user mode |
| MmuApi.Usloss.MmuMap | src/mmu.c:371-389 | One step of the machine; the mode check before raises one illegal-instruction interrupt in user mode |
| MmuApi.Usloss.MmuUnmap | src/mmu.c:457-473 | One step of the machine; the mode check before raises one illegal-instruction interrupt in user mode |
| MmuApi.Usloss.MmuSetTag | src/mmu.c:858-876 | One step of the machine; in user mode one illegal-instruction interrupt, and a second one from SetTag |
| MmuApi.Usloss.MmuSetAccess | src/mmu.c:574-615 | One step of the machine; the mode check before raises one illegal-instruction interrupt in user mode |
| MmuApi.Usloss.MmuSetPageTable | src/mmu.c:1033-1095 | One step of the machine; the mode check before raises one illegal-instruction interrupt in user mode |
| MmuApi.Usloss.MemoryAccess | src/mmu.c:671-771 | Try the access, on denial run the handler and retry or deliver the interrupt: one step of the machine |
| EventRing.ChainIsChain | src/devices.c:51-64 | The slots an insertion writes go up in place and strictly down in urgency, start at the first slot that gives way, end in the first free slot, and are at most one per level |
| EventRing.PlaceShifts | src/devices.c:57-62 | Each event of that chain moves one link on, the new one takes the first, and no other slot changes |
| EventRing.PlaceOccupies | src/devices.c:54-64 | The occupied slots grow by exactly the first free one from the target on |
| EventRuns.ScheduleConserves | src/devices.c:44-65 | The pending (device, argument) pairs gain exactly the new one, wherever it lands on the ring |
| EventRuns.DispatchConserves | src/devices.c:96-102 | A device tick removes exactly the event it consumes |
| EventRuns.DeliveryWindow | src/devices.c:50-64 | With p events pending and time + p at most the ring's size, the new event lands between time and time + p ticks away, and each displaced one moves strictly later, none past the read pointer |
| EventRuns.FilterSchedule | src/devices.c:51-64 | To the devices numbered d and below, an insertion of theirs is an insertion into the ring as they see it, and one of a less urgent device is none at all |
| EventRuns.RunSeen | src/devices.c:44-102 | Over every run, the slots and the consumed events those devices see are what they would be if less urgent devices had asked for nothing |
| EventRuns.RoomIffFew | src/devices.c:54-55 | There is a free slot if and only if there are fewer pending events than slots |
| EventQueue.DeviceQueue.ScheduleInt | src/devices.c:44-65 | Uninterrupted, the array version terminates and is the insertion on the ring seen from the read pointer |
| EventQueue.DeviceQueue.ScheduleInterrupted | src/devices.c:50-65 | With any number of timer signals after the index is computed, it is the insertion into the ring after the device ticks among them, for so many ticks less |
| EventQueue.DeviceQueue.Signals | src/devices.c:74-102 | Every second timer signal is a device tick, and each brings the slot of an interrupted request one nearer |
| EventQueue.DeviceQueue.Probe | src/devices.c:51-64 | The two nested wrapping loops terminate when a slot is free, and place the event as the recursive description does |
| EventQueue.DeviceQueue.IndexAt | src/devices.c:50 | The starting index, with its wrap-around, is the ring's target slot |
| EventQueue.DeviceQueue.DispatchInt | src/devices.c:72-102 | Clock and device ticks alternate; a device tick consumes the next slot, frees it and leaves the rest |
| EventQueue.DeviceQueue.constructor | src/devices.c:26-31 | An empty ring whose first tick is the clock's |
| EventQueue.FullRingNeverEnds | src/devices.c:51-64 | With no free slot the loops are still going after any number of rounds |
| AlarmClock.ExactSlot | src/devices.c:50-64 | A request gets exactly its slot, and disturbs nobody as urgent, if and only if the slot is free to events as urgent |
| AlarmClock.AlarmsOnTime | src/dev_alarm.c:35-54 | Over every run, wherever it ends, in which no two alarms are due at one tick, alarms ring at exactly the ticks they were asked for, whatever disks and terminals do, and at no others |
| AlarmClock.AlarmsFromStart | src/dev_alarm.c:35-54 | From the start state, on a ring of three slots or more: if an alarm is asked for only when none is armed, for 1 to n ticks ahead, no insertion diverges, no illegal event comes up, and alarms ring at exactly `time` device ticks after they were asked for |
| AlarmClock.OnTimeExactly | src/dev_alarm.c:35-54 | From the start, over every run that delivers all alarms it asks for, they ring at exactly their ticks if and only if no two are asked for for the same tick |
| AlarmClock.InterruptedAlarm | src/devices.c:50-62 | An alarm asked for when there is none, with device ticks inside the request, is in one slot only, and rings at the tick it was asked for if and only if fewer ticks come inside than it was asked for |
| AlarmClock.RoundLate | src/devices.c:50-59 | One device tick inside a request for the next one makes the alarm a whole round of the ring late |
| DeviceGuarantees.RequestAnswers | src/dev_disk.c:79-105 | The codes of alarm and disk requests: 2 for a unit that does not exist or a disk that is not there, 1 for a busy disk, 0 otherwise |
| DeviceGuarantees.QueryAnswers | src/dev_alarm.c:20-30 | The codes and status words of queries to every device |
| DeviceGuarantees.AlarmTold | src/dev_alarm.c:42-54 | The alarm is told as busy after its request |
| DeviceGuarantees.TickTells | src/devices.c:79-119 | Clock and device ticks alternate; a device tick is the alarm's, a disk's with its stored request, or the terminals', as the next event says |
| DeviceGuarantees.TicksAlternate | src/devices.c:81-92 | Over every run that goes on to its end, every second timer tick is a device tick |
| DeviceGuarantees.LoneRequest | src/dev_disk.c:89-105 | A request to an idle disk with nothing in the ring is stored and due at exactly the tick of its delay |
| DeviceGuarantees.AtStart | src/devices.c:24-36 | At the start nothing is pending, the alarm is not armed and the first timer tick is the clock's |
| TornInsertion.GoIsRound | src/devices.c:51-64 | The steps an insertion is cut into are, without ticks, one round of its loops |
| TornInsertion.TickConserves | src/devices.c:54-63 | A device tick between any two steps of an insertion conserves the events waiting, in hand and delivered if and only if it does not consume the slot of a swap under way with an event read and not replaced, or with the device stored and another argument |
| TornInsertion.InterruptedConserves | src/devices.c:54-63 | An insertion with any device ticks in it but those loses, repeats and changes no event |
| TornInsertion.WrongArgument | src/devices.c:59-60 | A tick between the two stores into the slot it consumes delivers the new device with the old argument, and the event asked for is gone |
| TornInsertion.DeliveredTwice | src/devices.c:57-59 | A tick between reading and writing the slot it consumes delivers the event that the insertion then places again |
| AlarmClock.StepKeeps | src/devices.c:95-128 | One step keeps the ring's promises to the alarm, and an alarm rings exactly when one is due |
| Devices.StepSound | src/devices.c:44-128 | Whatever is asked, each busy disk has exactly one event in the ring and no other disk any, and the illegal-device branch is unreachable; an insertion diverges if and only if the alarms outstanding and the busy disks are as many as the ring's slots |
| Devices.DiskTick | src/dev_disk.c:120-175 | A disk event finds its unit busy, performs the stored request and ends the busy state |
| Devices.DiskAccounting | src/dev_disk.c:83-105 | Over every run, also one that stops or diverges, the requests a unit accepted are, in order, those it performed and then the one in flight: none lost, repeated or overwritten; no illegal event ever comes up |
| Devices.ServedFinishes | src/devices.c:44-128 | A run goes on to its end if and only if every request to be inserted finds room and no disk request stops the simulator |
| Devices.ReadyAgain | src/devices.c:102-119 | An accepted character is out and the transmitter ready within four device ticks more than the alarm and disk events delivered meanwhile |
| Devices.ReadyAfterStart | src/devices.c:102-119 | The same at any moment after the start, whatever was asked before |
| Devices.InitialSound | src/devices.c:26-36 | The initial devices satisfy the invariant |
| DeviceBoard.Board.AlarmStatus | src/dev_alarm.c:20-30 | One step of the devices, which changes nothing |
| DeviceBoard.Board.AlarmRequest | src/dev_alarm.c:35-45 | One step of the devices, in place; a refused one needs no room |
| DeviceBoard.Board.DiskRequest | src/dev_disk.c:73-108 | One step of the devices, in place; a refused one needs no room |
| DeviceBoard.Board.TimerTick | src/devices.c:72-129 | One step of the devices, in place: the dispatch to the alarm, disk or terminal action |
| DiskRuns.UnitRun | src/devices.c:110-114 | In every run of all the devices a disk unit goes through a run of its own, of its requests, queries and interrupts, with the answers its callers are shown |
| DiskRuns.DiskIsIdeal | src/dev_disk.c:58-175 | So, behind the ring and over every run, a unit that is asked for no negative sector shows what an array of tracks of sectors shows |
| TermRuns.TermsRun | src/devices.c:115-119 | In every run of all the devices the terminals go through a run of their own, of their requests, queries and the polls left by the other devices |
| TermRuns.TermsStandBehindRing | src/dev_term.c:133-233 | So, behind the ring and over every run, the packed status words show what separate fields show, and a unit's output grows by exactly the characters answered with OK |
| TermRuns.OutputFromStart | src/dev_term.c:167-179 | From the start a unit's output is exactly those characters, in order |
| Disk.CompleteIsIdeal | src/dev_disk.c:132-175 | Performing a request on the file is performing it on an array of tracks of sectors, if and only if a read or write has no negative sector |
| Disk.StorageRefines | src/dev_disk.c:58-175 | Any run of requests, completions and status queries without a negative sector shows what the array of tracks shows, with buffers read at completion; the head stays in range |
| Disk.WriteCell | src/dev_disk.c:147-154 | Writing a sector's range of the file changes that (track, sector) and no other |
| DiskGuarantees.WriteThenRead | src/dev_disk.c:132-165 | What is written to a track and sector is read back from it, into the buffer named by the second register, whatever the unused registers hold, and every other sector is as it was |
| DiskGuarantees.SeekServes | src/dev_disk.c:134-140 | A seek to a track of the disk moves the head there and does nothing else |
| DiskGuarantees.ReadServes | src/dev_disk.c:141-164 | A read delivers the 512 bytes of the sector named by the first register |
| DiskGuarantees.WriteServes | src/dev_disk.c:141-157 | A write puts the buffer there and leaves every other sector |
| DiskGuarantees.TracksServes | src/dev_disk.c:167-169 | The number of tracks goes to the address in the first register |
| DiskGuarantees.ErrorToldOnce | src/dev_disk.c:135-144 | A track or sector that does not exist is an error that the status tells once |
| DiskGuarantees.Answers | src/dev_disk.c:60-106 | The answers of an absent, a busy and an idle unit |
| DiskGuarantees.DelayExact | src/dev_disk.c:97-103 | One tick for all but seeks; for a seek over k tracks one more than the last digit of k, three at most |
| Disk.SectorsDisjoint | src/dev_disk.c:147-148 | Different (track, sector) pairs have disjoint ranges, within the file |
| Disk.NegativeSectorReaches | src/dev_disk.c:143-164 | Every outcome of a read or write of a negative sector, with the offset computed in ints: the simulator stops, another sector is read or written, or a write extends the file |
| Disk.EarlierTrack | src/dev_disk.c:147-148 | Unless that offset overflows, the sector reached is on an earlier track, or before the file |
| Disk.DelayShort | src/dev_disk.c:97-104 | The delay is one to three ticks, and -7 exactly for a seek by -2^31 tracks |
| Disk.DiskInfo.constructor | src/dev_disk.c:36-50 | The unit holds the given file with its number of tracks and its head on track 0; a file of whole tracks gives a disk within the theorems' reach; one with an incomplete track gives none |
| Disk.DiskInfo.DiskRequest | src/dev_disk.c:73-108 | In place: answer, stored request and delay are the function's |
| Disk.DiskInfo.DiskGetStatus | src/dev_disk.c:58-68 | In place: the status, and an error is reported once |
| Disk.DiskInfo.DiskAction | src/dev_disk.c:120-175 | In place: the stored request performed |
| Terminal.RecvField | src/dev_term.c:29-31 | Setting the receive field is read back and leaves the transmit field and the character alone |
| Terminal.XmitField | src/dev_term.c:25-27 | The same for the transmit field |
| Terminal.CharField | src/dev_term.c:33-35 | The same for the character |
| Terminal.RunStands | src/dev_term.c:133-233 | Over every run the packed status words show what four units with separate fields show |
| Terminal.OutputIsSent | src/dev_term.c:167-179 | Over every run a unit's output grows by exactly the characters whose requests were answered with OK, in order |
| TermGuarantees.OrderAnswered | src/dev_term.c:163-181 | A control word packed with the header's macros writes its character, and no other, if it asks for it and the transmitter is ready, is answered with 1 if not, and writes nothing if it does not ask |
| TermGuarantees.PollTells | src/dev_term.c:195-231 | A poll puts a character other than '@' into the status fields, makes the transmitter ready and raises exactly the interrupts the last control word wants |
| TermGuarantees.SendThenReady | src/dev_term.c:167-231 | A character sent is out, and the transmitter ready with its interrupt, at the unit's next turn |
| TermGuarantees.QueryShows | src/dev_term.c:139-146 | A query shows the word and empties the receiver, and nothing else |
| TermGuarantees.NoSuchUnit | src/dev_term.c:136-162 | Units below 0 and above 3 are answered with 2 |
| Terminal.ReadyWithinFour | src/dev_term.c:195-231 | At its next turn, one to four polls away, a unit's transmitter is ready, whatever is asked meanwhile |
| Terminal.TermDevice.TermRequest | src/dev_term.c:154-182 | In place: one step of the terminals; a refused request still replaces the control register |
| Terminal.TermDevice.TermGetStatus | src/dev_term.c:133-147 | In place: the status word, and the receive side is emptied |
| Terminal.TermDevice.TermAction | src/dev_term.c:188-233 | In place: the next unit in turn is polled |
| Traps.RunSafe | src/sig_ints.c:114-195 | With timer signals anywhere, every current or saved status word has its magic bits and is never user mode with interrupts off, and the checks of the status word and of the pending trap never fail |
| Traps.StepSafe | src/sig_ints.c:114-195 | One step keeps that, and that only the current context can be inside a trap, in user mode, with the pending trap and the argument its own |
| Traps.NothingInsideTraps | src/sig_ints.c:132-134 | While a context is inside a trap a timer signal dispatches no device interrupt, and the pending trap stays until its own handler is called |
| Traps.SyscallsDelivered | src/sig_ints.c:141-157 | Over every interleaving the handler is called, on each context, with exactly the arguments of that context's own system calls, in order |
| TrapGuarantees.TrapsFromUserMode | src/sig_ints.c:328-331 | A system call or an illegal instruction ends the simulator if and only if the mode bit is set |
| TrapGuarantees.SyscallArrives | src/sig_ints.c:342-344 | From user mode a system call, with any number of timer signals before each of its steps, calls the handler with its argument, on the same context, in kernel mode with interrupts off and with the interrupted word saved |
| TrapGuarantees.IllegalArrives | src/sig_ints.c:367-368 | The same for an illegal instruction, and for a kernel call made in user mode, which then goes on |
| TrapGuarantees.CheckPasses | src/globals.h:46-49 | In kernel mode the check lets the call go on and changes nothing else |
| TrapGuarantees.SignalsArrive | src/sig_ints.c:128-171 | Between traps every timer signal and every fault calls its handler, with the clock one tick further for the former |
| TrapGuarantees.ReturnGoesBack | src/sig_ints.c:186-189 | A handler's return restores the saved word and the place in the program |
| TrapGuarantees.SwitchGoesOn | src/sig_ints.c:236-246 | A context switch goes on in the new context; the one left is between instructions with its handlers as they were, and everything else is untouched |
| TrapGuarantees.SwitchBack | src/sig_ints.c:203-247 | Whatever others do after a switch away from a context, the first switch back finds its handlers as it left them |
| TrapGuarantees.AtBoot | src/globals.c:19-25 | USLOSS_PsrGet answers 1 at the start, at time 0 |
| TrapGuarantees.CorruptionCaught | src/globals.c:52-57 | A status word is found corrupted exactly when its upper 28 bits are not the magic ones |
| TrapGuarantees.WordsGood | src/globals.c:83-93 | In every state that is kept, each current or saved word has those bits and is not user mode with interrupts off |
| TrapGuarantees.ReadingExact | src/globals.c:159-164 | A clock reading is the time in microseconds, 5 to 9 later than before |
| TrapGuarantees.ClockCounts | src/sig_ints.c:130-131 | Over every run without readings the clock counts the timer signals, those inside traps included |
| Traps.HandlerRestores | src/sig_ints.c:116-189 | Whatever a handler leads to, it can return, and its return leaves the status word, the place in the program and the handlers below it as it found them |
| Traps.ReturnAsDocumented | src/sig_ints.c:186-189 | A handler's return restores the current fields from the previous ones if and only if the latter are those of its entry |
| Traps.PreviousIgnored | src/usloss.h:174-178 | A handler that sets the previous fields and returns leaves the word as it was before the interrupt |
| Traps.UserCallsCaught | src/globals.h:46-49 | Over every run, on each context, the kernel calls that go on in user mode are matched one by one with illegal-instruction interrupts before them |
| Traps.UserCallsFromStart | src/globals.h:46-49 | So from the start there are never more of the calls than of the interrupts |
| Traps.PsrRoundTrip | src/globals.c:75-101 | Past its mode check, USLOSS_PsrSet takes exactly the words with no upper bits that are not user mode with interrupts off, USLOSS_PsrGet reads them back, anything else is refused and only ends the call |
| Traps.EnteredGood | src/sig_ints.c:122-123 | On an interrupt the current fields become the previous ones, in kernel mode with interrupts off |
| Traps.StepTime | src/sig_ints.c:130-131 | A timer signal moves time up to the next whole tick, a clock reading by 5 to 9 |
| Traps.ClockRises | src/globals.c:152-169 | Clock readings strictly increase over any mix of readings and timer signals |
| TrapMachine.Simulator.CheckKernelMode | src/globals.h:46-49 | One step, in place: on into the call in kernel mode, to an illegal-instruction trap in user mode |
| TrapMachine.Simulator.BeginSyscall | src/sig_ints.c:322-342 | One step, in place: from user mode only |
| TrapMachine.Simulator.TrapSignal | src/sig_ints.c:139-165 | One step, in place: the pending trap is cleared and its handler called with the stored argument |
| TrapMachine.Simulator.TimerSignal | src/sig_ints.c:128-135 | One step, in place: the clock moves, and devices are dispatched unless a trap is pending |
| TrapMachine.Simulator.HandlerReturn | src/sig_ints.c:184-189 | One step, in place: the saved status word comes back |
| TrapMachine.Simulator.SetPsr | src/globals.c:80-101 | One step, in place, after the mode check |
| TrapMachine.Simulator.ContextSwitch | src/sig_ints.c:236-246 | One step, in place, after the mode check: the other context goes on |
| TrapMachine.Simulator.ReadTheClock | src/globals.c:158-169 | One step, in place, after the mode check |

## Left out

- The real `mmap`, `munmap`, `msync`, temporary files and guard pages: an array of (backing, protection) per page stands for the host, changed only where the program calls `mmap`. Loads and stores are single bytes.
- `USLOSS_MmuTouch` by `sigsetjmp`: whether the host allows a read.
- The handler's way to the default SIGSEGV action: the process ends there (`SegFault`), as it does after the handler's internal error (`Aborted`).
- The test for tag -1 in the handler and in `SetTag`: the public call refuses -1 (src/mmu.c:871), so it is unreachable.
- Physical memory after `USLOSS_MmuDone`, which never unmaps it: the model has no direct access to it while the MMU is off.
- `USLOSS_MmuGetConfig`, `USLOSS_MmuGetMode`, `USLOSS_MmuGetPageTable` and the `pageTable` field: plain getters.
- The page size is a parameter of initialisation; physical memory is reached directly through two operations of the model while the MMU is on, for the pointer `USLOSS_MmuGetConfig` returns.
- What the handler of the illegal-instruction interrupt does when a kernel call is made from user mode: `Traps` has the interrupt and lets the call go on when the handler returns; `MmuApi` counts the interrupts and takes the handler to leave the MMU alone; the disk, terminal and alarm calls start after the check in `USLOSS_DeviceInput` and `USLOSS_DeviceOutput`. Checks inside other calls (`USLOSS_MmuSetPageTable` in a context switch) may come at any time in a call.
- The MMU's calls and the devices' are single steps in all run theorems. A caller ensures that by keeping interrupts off. Requests interrupted by device ticks have theorems of their own (`EventQueue`, `AlarmClock`, `TornInsertion`); those of a request made by a handler inside another request are not covered.
- EventQueue.DeviceQueue.ScheduleInt: takes no timer signal inside, because `ScheduleInterrupted` and `TornInsertion` say what one does.
- AlarmClock.AlarmsFromStart: takes requests as uninterrupted, because a tick inside one can make it late (`AlarmClock.RoundLate`).
- Devices.DiskAccounting: takes requests as uninterrupted, because a tick inside a swap can perform another unit's request (`TornInsertion.WrongArgument`).
- MmuRefinement.LazyRefinesEager: does not cover undocumented calls, because the theorem is false for each of them (`MmuRefinement.DocumentedIsExact`).
- AlarmClock.AlarmsOnTime: does not cover runs with two alarms due at one tick, because only one event fits a slot (`AlarmClock.OnTimeExactly`), and takes requests as uninterrupted.
- TrapMachine.Simulator.ContextSwitch: does not install the page table (src/sig_ints.c:219-235), which `MmuIsolation` has as an event of its own, because the two states are kept apart; a null context stops the simulator and is not modelled.
- DeviceBoard.Board.AlarmRequest: requires a free slot for the alarm of unit 0, because it does not return otherwise.
- DeviceBoard.Board.DiskRequest: requires a free slot for a request that is accepted, because it does not return otherwise.
- No order among disk events and no bound on their delivery are claimed: a displaced disk event can pass another one, and alarms can postpone it again and again.
- Disk.StorageRefines: does not cover files without a whole track, on which reads stop the simulator and writes extend the file, or larger than a 32-bit offset, where the program's offsets overflow.
- Disk.CompleteIsIdeal: does not cover those files either, for the same reason.
- The operating system's interrupt handlers, interrupt vectors that are not set, and `USLOSS_WaitInt`.
- Terminal files: input is a given character or end of file at each poll, output a sequence. Input that is not read before the unit's next character is lost, as in the program. A character 0xff read by `read` counts as end of file.
- The signal mask (`int_on`, `int_off`): timer signals may arrive between any two steps, which allows more runs than the program has.
- TrapMachine.Simulator.BeginSyscall: does not abort when SIGUSR1 is blocked, because the mask is not modelled; nor does `BeginIllegal`.
- Stacks, `ucontext` and the launching of contexts: a context is what its active handlers return to, and where it is inside a kernel call or a trap.
- Integer overflow of the clock and of the sizes of the MMU: `numPages * 4`, the region's and the frames' byte offsets are computed in ints by the program (src/mmu.c:145, 159, 169, 342) and unbounded here. Where ints do wrap in the model, as in disk offsets, the C standard leaves it undefined.
- MmuApi.Usloss.MmuInit: takes all positive sizes, for the reason above.
- MmuApi.Usloss.MmuSetPageTable: does not keep the table's address, which only `USLOSS_MmuGetPageTable` reads.
- `libuser` packs system call arguments into a structure, `pterm` shows the terminals in windows, `libdisk` formats disk files, `src/main.c` parses options and starts everything, and the clock's status register holds the time: none of them keeps state that the parts above depend on.
