# Verified models of Pktgen's packet paths

Pktgen-DPDK sends, captures and paces packets from tight per-core loops. This project models the
parts of it whose correctness is not visible in any one function, and proves what they promise
for every input, every schedule or every run:

- **Replay engine** (`Replay`, `ReplayControl`, `ReplaySafety`, `ReplayLiveness`, `ReplayProgress`,
  `ReplayCommands`, `ReplayBursts`, `ReplaySchedules`, `ReplayWitness`, `ReplayOverruns`,
  `ReplayFirstPass`, `ReplayPort`). A capture too large for memory is streamed through two packet sections: the
  transmitter drains one while a worker refills the other. They share a mutex, two condition
  variables, a request slot, an in-progress slot and per-section locks. The model is a transition
  system with an adversarial scheduler. The results, for every burst size: a refinement (what
  leaves the port is the endless repetition of the source files), exclusion, chunk order, when the
  port can go on, what each start and stop hands over, and for each hazard they exclude a schedule
  that meets it and what it does.
  `ReplayPort` is the same engine as an object with mutable fields; any interleaving of its
  actions is a schedule of the transition system.
- **Pcap files** (`PcapFile`, `PcapReader`, `Sizing`, `SourceCheck`). Byte-level decoding in both
  byte orders, the writer, the cyclic reader over a list of files, the start-up scan, the sizing
  of the sections, and which of the sources that start-up accepts can be read on.
- **Capture arena** (`Capture`). A byte log written burst by burst and scanned back.
- **Random bit fields** (`RandomBits`, `RandomApply`, `Xorshift`). The pattern compiler, its
  printer, the in-place application to a burst, and the generator behind it.
- **Transmit control** (`TxCount`, `Pacing`). The lock-free packet counter and the deadlines of
  the polling loops.
- **Latency and range** (`Latency`, `Range`). Rolling percentiles and cyclic field stepping.
- **Test capture generator** (`Checksum`, `Generator`). The one's-complement checksum, the packet
  builders and the file writer.
- **End to end** (`EndToEnd`). File format, reader and replay engine together: what is written to
  a capture file is what goes out on the wire, over and over.

`Arith` and `Bytes` hold shared arithmetic and the byte layouts of a little-endian host.
`dafny verify dfyconfig.toml` checks everything.

## Assumptions of the replay model

- One transmit queue drives a replay port.
- What runs under the state mutex is one step, except that the two reads of a section's load
  count (pktgen.c:953 and :961) are two steps, since the worker writes that count without the
  mutex, and that a waiting transmitter may wake at any time.
- Each memory pool is a FIFO; buffers return to the tail of their pool in the order they were
  sent.
- The NIC may hold any number of buffers. What is proved of all schedules then holds for those that
  a transmit ring of any size allows, the sender waiting until the ring has taken its burst
  (pktgen.c:300-304). The schedules built to show what can go wrong never hand over a burst before
  the NIC is empty, so a ring of one burst is enough for them (`ReplaySchedules.OneBurstInNic`).

Four hazards are told apart, each a property of one step of a schedule:

- *Race*: the transmitter passes its load-count test while the next section is still locked. One
  can happen in every two-section set-up (`ReplayWitness.RaceReachable`), and it is exactly what
  breaks exclusion (`ReplayControl.ExclusionIffNoRace`). Once the worker has begun to load between
  the two reads nothing but a race lets another packet out (`ReplayWitness.RaceInevitable`), and
  the race sends a stale record (`ReplayWitness.RaceSendsStale`). None happens when the decision is
  atomic and waiters wake only on the broadcast (`ReplayLiveness.AtomicRunsAreRaceFree`).
- *Overwrite*: the worker fills a slot whose buffer the NIC has yet to send. Filling any other
  slot, while the NIC still holds buffers of the section, is not a hazard. The code does not
  exclude an overwrite: a worker that gets ahead of the last burst of a section changes the packets
  in it (`ReplayWitness.OverwriteHarms`). A fill is one exactly when enough of the section's buffers
  are still with the NIC to reach down to its slot (`ReplaySafety.OverwritesIff`), so with a ring
  of r descriptors only the last r fills of a refill can be; and it does no harm exactly when it is
  none, or the slot already holds the record (`ReplaySafety.FillKeepsPendingIff`).
- *Overrun*: a burst is taken that goes past the end of the section.
- *Misaligned start*: sending is started, before the end of a section, with the packet index off
  a multiple of the burst, as a count that is not such a multiple leaves it.

Exclusion, chunk order, the bounds at a switch and progress assume only that there is no race.
That every switch ends a complete pass assumes no race and no overrun. The refinement is about
*clean* schedules: no race, no overrun and no overwrite. From a state reached by one, some clean
continuation lets another packet out unless the NIC is empty and the second read has become a race
(`ReplayProgress.GoesOnIff`); sending forever and without commands it takes, in addition, a burst
that ends within the section (`ReplayProgress.SendsForeverIff`). A start without a count then puts
out any number of packets (`ReplayCommands.StartedForeverIff`), and a start for a count hands over
that count and ends (`ReplayCommands.CountIsKept`).

Overruns are a matter of the burst and of the starts, exactly: without misaligned starts there is
none if and only if the burst divides each capacity it does not exceed
(`ReplayOverruns.SuitingBurstsIff`), and without restriction on the starts if and only if the
burst is 1 or both sections hold one packet (`ReplayOverruns.AnyStartIff`). The capacities the
sizing chooses are multiples of 64, and the bursts that suit every multiple of 64 are its divisors
(`Sizing.BurstSuitsPlansIff`); the command line accepts any from 1 to 256.

## Where the code does less than its documentation

- pktgen.c:110 calls the computed rate "per thread", but the cycle count derived from it spreads
  it over all queues: in any window a port with n queues sends, up to a burst, the lag limit and
  the rounding, no more than the requested rate divided by n (`Pacing.TotalRate`), and that much if
  its queues keep up (`Pacing.TotalRateMet`). So the rate asked for is met with one queue.
- A record longer than 65344 bytes makes the computed data room exceed the 16 bits in which it is
  handed to the pool (`Sizing.RecordsFitIff`).
- The packets that the hugepages hold are counted in 32 bits: a port with room for exactly 2^32 of
  them stops for want of memory (`Sizing.WrapsToNothing`), and `Sizing.SizeSections` says what is
  planned for any other amount.
- The start-up scan does not notice data cut short at the end of a file, and the reader exits on it
  when it gets there, at start-up or in the reload worker (`SourceCheck.TruncatedFileExits`). A
  source that the scan accepts can be read on exactly when all its files are well formed
  (`SourceCheck.AcceptedReadsForeverIff`).
- The capture dump stops at a record whose stored 16-bit length is 0, which a packet of 65536
  bytes has (`Capture.CaptureZone.Session`).
- The worker's exit test is unreachable (pktgen-pcap.c:449-454), so nothing is claimed about
  stopping it.

## Model

| member | source | states |
|---|---|---|
| ReplaySafety.ReplayRefinesStream | Pktgen-DPDK/app/pktgen.c:927-1002 | for any burst, after every clean schedule with two sections, the packets that have left the port are the records of the source files repeated endlessly from the first |
| ReplaySafety.CleanStepKeeps | Pktgen-DPDK/app/pktgen-pcap.c:439-472 | every step of transmitter, worker, NIC or command line that neither races, overruns nor overwrites keeps the invariant on sections, contents, pool order and sent data |
| ReplaySafety.CleanRunKeeps | Pktgen-DPDK/app/pktgen-pcap.c:439-472 | that invariant holds after every clean schedule from start-up |
| ReplaySafety.OpenedInv | Pktgen-DPDK/app/pktgen-pcap.c:849-889 | start-up loads both sections and establishes the invariant |
| ReplaySafety.FillKeepsPendingIff | Pktgen-DPDK/app/pktgen-pcap.c:655-665 | filling a slot keeps what the NIC has yet to send if and only if the slot's buffer is not waiting there, or the slot already holds the record it gets |
| ReplaySafety.OverwritesIff | Pktgen-DPDK/app/pktgen-pcap.c:644-671 | with the pools in order a fill overwrites a waiting buffer if and only if the section's buffers still with the NIC number at least the capacity less the slot |
| ReplaySafety.RingBoundsOverwrites | Pktgen-DPDK/app/pktgen.c:300-304 | with at most r buffers in the NIC, only the last r fills of a refill can overwrite one |
| ReplaySafety.SwitchesEndPasses | Pktgen-DPDK/app/pktgen.c:971-979 | without race and overrun every switch ends a complete pass: the index equals the load count, every slot was sent once, the pool is back at slot 0, the other section is full and unlocked |
| ReplaySafety.OverrunPassesEnd | Pktgen-DPDK/app/pktgen.c:997-1000 | a burst keeps the index within the section and the pool in turn if and only if it is no overrun, and after an overrun the section cannot end in a complete pass |
| ReplayControl.NextKeeps | Pktgen-DPDK/app/pktgen.c:937-982 | for any burst, every step that is not a race keeps the control invariant: locks, request and in-progress slots, chunk numbers, load counts, reader position and the transmitter's place fit together |
| ReplayControl.RunKeeps | Pktgen-DPDK/app/pktgen-pcap.c:439-472 | that invariant holds after every race-free schedule from start-up, whatever is overwritten or overrun |
| ReplayControl.TestWithoutSwitch | Pktgen-DPDK/app/pktgen.c:947-969 | a decision that does not switch changes only the transmitter's place; its own reload request at lines 954-959 is never made once both sections are loaded |
| ReplayControl.CoreExclusive | Pktgen-DPDK/app/pktgen-pcap.c:457-468 | the section being filled is never the active one, a section is locked exactly when requested or in progress, at most one is, and never both slots are in use |
| ReplayControl.SwitchesOnlyWhenReady | Pktgen-DPDK/app/pktgen.c:947-979 | a step that is not a race switches only when loaded <= index < loaded + burst, the other section is full and unlocked and no request is pending |
| ReplayControl.ExclusionAlways | Pktgen-DPDK/app/pktgen.c:947-981 | in every state that a race-free schedule reaches, for any burst and any starts: exclusion, chunks entered 1, 2, 3, ... without gap or repeat, the active section holding exactly its chunk of the source, and switches only at such a point |
| ReplayControl.RaceEntersLockedSection | Pktgen-DPDK/app/pktgen.c:961-974 | every race step is enabled and breaks exclusion |
| ReplayControl.ExclusionIffNoRace | Pktgen-DPDK/app/pktgen.c:953-974 | after any race-free schedule, one more step keeps exclusion if and only if it is not a race |
| ReplayLiveness.AtomicRunsAreRaceFree | Pktgen-DPDK/app/pktgen.c:937-982 | schedules with an atomic decision and wakeups by broadcast only have no race |
| ReplayLiveness.WaitingHasHelp | Pktgen-DPDK/app/pktgen-pcap.c:448-468 | a waiting transmitter waits for a section that is requested or being refilled, and the worker's next step is enabled and no race |
| ReplayLiveness.WaitingStep | Pktgen-DPDK/app/pktgen-pcap.c:448-468 | while it waits, each worker step brings the end one nearer, no other step puts it off, and only the worker's finish wakes it |
| ReplayLiveness.WokenEnters | Pktgen-DPDK/app/pktgen.c:961-979 | no wakeup is lost: a waiter is woken exactly when its section is unlocked, and then enters it |
| ReplayLiveness.WaitCanEnd | Pktgen-DPDK/app/pktgen.c:961-968 | from every wait some schedule no longer than the distance, plus the wakeup, ends it in the awaited section |
| ReplayLiveness.WaitIsBounded | Pktgen-DPDK/app/pktgen.c:961-968 | however it is scheduled, the worker takes during a wait exactly as many steps as the distance falls, so no more than the distance |
| ReplayProgress.GoesOnIff | Pktgen-DPDK/app/pktgen.c:937-1002 | from every state a clean schedule reaches, for any burst, some clean continuation lets another packet out if and only if the NIC holds one or the transmitter is not about to read again a load count that has left 0 |
| ReplayProgress.SendsForeverIff | Pktgen-DPDK/app/pktgen.c:985-1001 | sending forever and without further commands, the same if and only if the NIC holds one, or that is not so and a full burst ends within the section it comes from; a burst larger than the section leaves the port silent |
| ReplayProgress.SuitingBurstSendsOn | Pktgen-DPDK/app/pktgen.c:985-1001 | with a burst dividing both capacities and aligned starts, sending forever goes on by itself unless that race is the only way on |
| ReplayCommands.CountIsKept | Pktgen-DPDK/app/pktgen.c:985-1001 | after a start for k packets and no later command at most k are handed to the NIC; sending ends exactly at the first draw after k packets' worth of bursts; if every bulk take succeeds each draw hands over a full burst until k is reached, and exactly k have been handed over when sending ends |
| ReplayCommands.ForeverInFullBursts | Pktgen-DPDK/app/pktgen-cmds.c:1262-1276 | after a start without a count and no later command sending never ends, and each draw hands over a full burst when its take succeeds |
| ReplayCommands.StartedForeverIff | Pktgen-DPDK/app/pktgen-cmds.c:1262-1276 | start without a count on a port with two sections, a burst that divides both capacities, and no race, overwrite or misaligned start so far: for every n some clean continuation without commands puts n more packets on the wire, if and only if the transmitter is not caught at a second read that only a race leaves |
| ReplayCommands.StartWaits | Pktgen-DPDK/app/pktgen-cmds.c:1265 | without a stop a second start is accepted only when the count of the first, which then was not for ever, has been used up |
| ReplayCommands.StopEnds | Pktgen-DPDK/app/pktgen-cmds.c:1287-1292 | after a stop and no later command at most one more draw is made, of at most one burst |
| ReplayCommands.StopEndsForever | Pktgen-DPDK/app/pktgen-cmds.c:1287-1292 | a stop of what was started without a count hands over nothing more |
| ReplayCommands.StopMidCount | Pktgen-DPDK/app/pktgen.c:985-1001 | a draw under way when a stop comes still hands over its burst of what is left of the count, given the buffers |
| ReplayCommands.SilentUntilStarted | Pktgen-DPDK/app/pktgen-cmds.c:1262-1276 | before the first start, whatever else happens, nothing is handed to the NIC |
| ReplayBursts.AlignedRunsDoNotOverrun | Pktgen-DPDK/app/pktgen.c:986-1000 | with a burst that suits both sections, no schedule without race and misaligned start overruns a section |
| ReplayBursts.AlignedRunsAreClean | Pktgen-DPDK/app/pktgen.c:986-1000 | so if it also overwrites nothing it is clean |
| ReplayOverruns.SuitingBurstsIff | Pktgen-DPDK/app/pktgen.c:986-1000 | over all schedules without race and misaligned start, also when kept from overwrites or to one burst in the NIC: no section is overrun, and every switch ends a complete pass, if and only if the burst divides each of the two capacities that it does not exceed |
| ReplayOverruns.AnyStartIff | Pktgen-DPDK/app/pktgen-cmds.c:1262-1292 | over all schedules without race, started anywhere, also when kept from overwrites or to one burst in the NIC: the same if and only if the burst is 1 or both sections hold one packet |
| ReplayWitness.RaceReachable | Pktgen-DPDK/app/pktgen-pcap.c:669-670 | in every two-section set-up a schedule with no other hazard leads to a race that puts the transmitter into a section holding one record |
| ReplayWitness.RaceInevitable | Pktgen-DPDK/app/pktgen.c:961-968 | in every two-section set-up a schedule without any hazard reaches a state from which no continuation without a race lets another packet out |
| ReplayWitness.RaceSendsStale | Pktgen-DPDK/app/pktgen.c:961-1001 | with bursts of at least two packets, a race reached without any hazard and followed by none sends record 1 again where record c0 + c1 + 1 is due |
| ReplaySchedules.OneBurstInNic | Pktgen-DPDK/app/pktgen.c:300-304 | a schedule that hands over a burst only when the NIC is empty never has more than one burst there |
| ReplayWitness.OverwriteHarms | Pktgen-DPDK/app/pktgen-pcap.c:658-665 | in every two-section set-up a schedule with no other hazard, and never more than a burst in the NIC, sends the records due up to the last burst of the first section, refills the slots before it, overwrites its first slot k and sends record c0 + c1 + k where record k is due |
| ReplayFirstPass.OneSectionRepeats | Pktgen-DPDK/app/pktgen.c:947-1000 | with one section of c slots, in every schedule and for every burst, packet i out is record i mod c, so records past the c-th are never sent |
| ReplayFirstPass.RunFirstPass | Pktgen-DPDK/app/pktgen.c:986-1000 | until the first switch the pool goes round its slots in order, whatever the burst and the schedule |
| ReplayFirstPass.OverrunRepeats | Pktgen-DPDK/app/pktgen.c:997-1000 | whenever the first section can be overrun, a schedule with no other hazard (a misaligned start only if the burst suits the section) sends record 0 again where record c0 is due |
| ReplayPort.PcapInfo.constructor | Pktgen-DPDK/app/pktgen-pcap.c:673-711 | a new port object has the state of the transition system before loading |
| ReplayPort.PcapInfo.IterateMbuf | Pktgen-DPDK/app/pktgen-pcap.c:644-671 | the per-buffer callback is the fill of one slot, and exits exactly when the reader does |
| ReplayPort.PcapInfo.LoadSection | Pktgen-DPDK/app/pktgen-pcap.c:426-437 | the loop over a pool's buffers loads the whole section |
| ReplayPort.PcapInfo.Open | Pktgen-DPDK/app/pktgen-pcap.c:849-889 | the loading half of start-up reaches the initial state, or exits exactly when it does |
| ReplayPort.PcapInfo.Act | Pktgen-DPDK/app/pktgen.c:927-1002 | an action of any thread on the object's fields is done exactly when it is enabled; short of a race it keeps the control invariant on the object, and if clean the whole invariant |
| ReplayPort.PcapInfo.Perform | Pktgen-DPDK/app/pktgen.c:927-1002 | any interleaving of actions on an opened object is a run of the transition system; if clean, the object's wire is the stream of the source, and without a race exclusion and chunk order hold of its fields |
| EndToEnd.WrittenFileIsReplayable | Pktgen-DPDK/app/pktgen-pcap.c:527-613 | any file with at least one packet, with any two sections and any burst, meets the conditions of the refinement |
| EndToEnd.WrittenFileReplays | Pktgen-DPDK/app/pktgen.c:927-1002 | write a file in either byte order and replay it: after any clean schedule the packets on the wire are those written, in order and over and over |
| EndToEnd.GeneratedCaptureReplays | data/scripts/generate_tester_pcap.py:231-258 | generate a capture and replay it: every packet on the wire is the generated one due there, passes a receiver's checks and shows its number |
| PcapFile.FileRoundTrip | Pktgen-DPDK/app/pktgen-pcap.c:192-216 | a written file in either byte order, with any timestamps, is well formed and reads back as exactly the packets written, in order |
| PcapFile.FileHeaderRoundTrip | Pktgen-DPDK/app/pktgen-pcap.c:192-216 | either byte order is recognised from the magic number and every header field comes back |
| PcapFile.DecodedConvert | Pktgen-DPDK/app/pktgen-pcap.c:195-203 | which files are accepted, and with which conversion flag, from their first four bytes |
| PcapFile.MagicBytes | Pktgen-DPDK/app/pktgen-pcap.c:192-203 | a file is read natively exactly when it has 24 bytes and begins d4 c3 b2 a1, and converted exactly when it begins a1 b2 c3 d4 |
| PcapFile.RecordBytes | Pktgen-DPDK/app/pktgen-pcap.c:615-656 | the record at the front is the bytes behind the 16 of its header, as many as header bytes 8 to 11 spell in the byte order of the file; there is none if fewer are left |
| PcapFile.ConvertedInclLen | Pktgen-DPDK/app/pktgen-pcap.c:97-106 | the length read natively and converted is the one the bytes spell in the file's byte order |
| PcapFile.RecordsRoundTrip | Pktgen-DPDK/app/pktgen-pcap.c:615-671 | reading an encoded record area gives its packets |
| PcapFile.PcapWriter.Create | Pktgen-DPDK/app/pktgen-pcap.c:944-969 | a new file is the 24 bytes of the header the writers give it, and a well-formed file of no packets |
| PcapFile.PcapWriter.WriteMbuf | Pktgen-DPDK/app/pktgen-pcap.c:978-1002 | appending a packet keeps the file well formed and adds that packet to what it reads back as |
| PcapReader.SeekKeepsPlace | Pktgen-DPDK/app/pktgen-pcap.c:621-637 | passing to the next file, or back to the first, and over empty ones, loses and repeats nothing |
| PcapReader.ReadsTheStream | Pktgen-DPDK/app/pktgen-pcap.c:615-671 | over the whole life of the reader, the record read after k others is record k mod N of the concatenated files |
| PcapReader.SearchShrinks | Pktgen-DPDK/app/pktgen-pcap.c:627-637 | the file-advance loop ends: the cyclic distance to a useful file falls |
| PcapReader.RewoundHasReadNothing | Pktgen-DPDK/app/pktgen-pcap.c:271-279 | rewinding leaves a reader that has delivered nothing |
| PcapReader.PcapSource.OpenSourceIndex | Pktgen-DPDK/app/pktgen-pcap.c:234-269 | opening a source file: out of range, exit or positioned after its header |
| PcapReader.PcapSource.ReadRecordHeader | Pktgen-DPDK/app/pktgen-pcap.c:615-642 | the loop finds the next record header in cyclic file order, and exits exactly when the search does |
| PcapReader.PcapSource.ReadPacket | Pktgen-DPDK/app/pktgen-pcap.c:655-660 | the packet read and the position after it |
| Sizing.GetInfo | Pktgen-DPDK/app/pktgen-pcap.c:527-613 | the loops compute count, largest size and total of the scan, or exit |
| Sizing.InfoOfSource | Pktgen-DPDK/app/pktgen-pcap.c:572-606 | for well-formed files the count is the number of records, the largest is attained and bounds all, the total is the sum of the record sizes |
| Sizing.AcceptedIsStartable | Pktgen-DPDK/app/pktgen-pcap.c:601-603 | any source the scan accepts, well formed or not, is one on which the reader's search ends |
| SourceCheck.AcceptedReadsForeverIff | Pktgen-DPDK/app/pktgen-pcap.c:615-671 | a source that the scan accepts can be read on for any number of records if and only if every file of it is well formed |
| SourceCheck.TruncatedFileExits | Pktgen-DPDK/app/pktgen-pcap.c:572-600 | any well-formed file cut short within the data of its last record is accepted with the numbers of the whole file, and the reader exits on it |
| Sizing.PlanSections | Pktgen-DPDK/app/pktgen-pcap.c:751-834 | the sizing arithmetic with its casts computes the plan, for any amount of memory |
| Sizing.SizeSections | Pktgen-DPDK/app/pktgen-pcap.c:740-843 | the plan from the files, the hugepage total and the memory in use, and without its own arithmetic: each packet takes 288 bytes and the largest record, rounded up to 32 past a cache line; the reserve is half as many 2 MB pages again as hold the memory in use, one at least; with the two the plan is within the hugepages, is the one that 32-bit counts lead to, and below 640 GiB is one section for all the packets when they go in, else the most blocks of 64 that go into each half, or none |
| Sizing.PlanFits | Pktgen-DPDK/app/pktgen-pcap.c:368-381 | for any amount of memory: it stops exactly when the 32-bit count of packets that fit is 0, or they do not all fit and that for half the memory is below 64; otherwise both capacities are multiples of 64 within the memory, the first positive |
| Sizing.SourceDivided | Pktgen-DPDK/app/pktgen-pcap.c:740-843 | from a well-formed source on: the same of the number of its records and its largest record |
| Sizing.WrapsToNothing | Pktgen-DPDK/app/pktgen-pcap.c:786-793 | with room for exactly 2^32 packets it stops, as if there were room for none |
| Sizing.SizedAsIntended | Pktgen-DPDK/app/pktgen-pcap.c:740-843 | with less than 640 GiB of hugepages: it stops exactly when the packets do not all fit and half the memory holds fewer than 64; otherwise a second section exists, no smaller than the first, exactly when they do not all fit |
| Sizing.ReserveBytes | Pktgen-DPDK/app/pktgen-pcap.c:383-395 | the reserve is at least one page and one and a half times the memory in use |
| Sizing.BurstSuitsPlansIff | Pktgen-DPDK/app/pktgen-pcap.c:28-32 | the bursts that suit every multiple of 64, as all planned capacities are, are exactly the divisors of 64 |
| Sizing.SizedPortReplays | Pktgen-DPDK/app/pktgen-pcap.c:740-843 | from the files on: the two sections that scan and sizing give, with a burst dividing 64, meet the condition under which no section is overrun |
| Sizing.RecordsFitIff | Pktgen-DPDK/app/pktgen-pcap.c:747-749 | every record up to the largest fits its buffer if and only if the largest is at most 65344 bytes |
| Capture.CaptureZone.constructor | Pktgen-DPDK/app/pktgen-capture.c:55-63 | a new arena holds the empty log and its sentinel |
| Capture.CaptureZone.Enable | Pktgen-DPDK/app/pktgen-capture.c:113-123 | enabling capture clears the log |
| Capture.CaptureZone.AppendRecord | Pktgen-DPDK/app/pktgen-capture.c:278-287 | the stores of one record extend the encoded log by exactly that record, inside the zone |
| Capture.CaptureZone.CaptureBulk | Pktgen-DPDK/app/pktgen-capture.c:246-293 | a burst appends the records of its longest prefix that fits, and the sentinel, all inside the zone |
| Capture.LongestPrefix | Pktgen-DPDK/app/pktgen-capture.c:275-276 | the accepted records fit and one more would not |
| Capture.UsedIsSum | Pktgen-DPDK/app/pktgen-capture.c:290-292 | the bytes in use are the sum of the record sizes |
| Capture.CaptureZone.Dump | Pktgen-DPDK/app/pktgen-capture.c:178-210 | the scan writes out exactly the records appended, in order, up to the first of stored length 0 |
| Capture.DumpsPacketsIff | Pktgen-DPDK/app/pktgen-capture.c:181-184 | of packets captured, all are dumped if and only if no packet's length is a positive multiple of 65536 |
| Capture.StoredZeroIff | Pktgen-DPDK/app/pktgen-capture.c:264-279 | a stored length is 0 exactly for packet lengths that are positive multiples of 65536 |
| Capture.CaptureZone.Session | Pktgen-DPDK/app/pktgen-capture.c:113-210 | enabled, fed any bursts and dumped: the log has one record for each packet of the longest fitting prefix of each burst, with all the data of its buffer (128 bytes of the room if that is 0), its length in 16 bits (128 if that is 0) and its time; the dump shows exactly that data and length of each, up to the first packet whose length is a positive multiple of 65536, and so all of it if and only if there is none |
| RandomBits.ScanMask | Pktgen-DPDK/app/pktgen-random.c:95-121 | the loop accepts exactly the patterns over 0, 1, '.', x, X and leaves three disjoint masks that mark the places of their symbols |
| RandomBits.CompileMask | Pktgen-DPDK/app/pktgen-random.c:123-157 | compiling then printing gives the pattern back, in upper case and padded with '.', and the masks are disjoint |
| RandomBits.PrintedPattern | Pktgen-DPDK/app/pktgen-cmds.c:44-54 | a bit field that shows the symbols of a pattern prints as that pattern, padded |
| RandomBits.ConvertBitfield | Pktgen-DPDK/app/pktgen-cmds.c:32-56 | the printing loop |
| RandomBits.RndBits.constructor | Pktgen-DPDK/app/pktgen-random.c:42-60 | no bit field is active |
| RandomBits.RndBits.SetRandomBitfield | Pktgen-DPDK/app/pktgen-random.c:75-161 | an accepted pattern sets and activates its slot and no other; an empty one deactivates it; a refused one or a slot out of range changes nothing |
| RandomApply.PatchedBit | Pktgen-DPDK/app/pktgen-random.c:199-215 | one bit field decides each bit of a packet by its symbol there |
| RandomApply.SymbolIsPrinted | Pktgen-DPDK/app/pktgen-random.c:123-131 | that symbol is the printed character at the bit's distance from the byte offset, most significant first |
| RandomApply.BurstBitDecided | Pktgen-DPDK/app/pktgen-random.c:190-222 | for any random numbers, each bit of each packet is decided by the highest-numbered active bit field with a symbol other than '.' there: 0, 1 or the bit of its own draw, draws being numbered through the burst |
| RandomApply.BurstBitUntouched | Pktgen-DPDK/app/pktgen-random.c:190-222 | every other bit is unchanged |
| RandomApply.ApplySpec | Pktgen-DPDK/app/pktgen-random.c:199-214 | the in-place rewrite of one word; a number is drawn only if some bit is random |
| RandomApply.ApplyToPacket | Pktgen-DPDK/app/pktgen-random.c:190-219 | shifting the active word out applies exactly the active bit fields, in order |
| RandomApply.Apply | Pktgen-DPDK/app/pktgen-random.c:176-223 | the whole burst in place, drawing from the one generator; every bit with an 'X' as its last symbol is that bit, 0 to 31, of the generator's own 64-bit output for its packet and bit field, every one with '0' or '1' is that, and every other is as it was; only the active bit fields need to lie inside the packets |
| RandomApply.DrawnIsLow | Pktgen-DPDK/app/pktgen-random.h:121-124 | the numbers drawn are the generator's outputs modulo 2^32 |
| Xorshift.StepReversible | Pktgen-DPDK/app/xorshift64star.h:43-47 | the state step is a bijection on 64-bit words, with the inverse given |
| Xorshift.OnlyZeroReachesZero | Pktgen-DPDK/app/xorshift64star.h:43-47 | zero steps to zero and no other state does |
| Xorshift.OutputBijective | Pktgen-DPDK/app/xorshift64star.h:48 | the output multiplication is a bijection |
| Xorshift.RunReversible | Pktgen-DPDK/app/xorshift64star.h:40-49 | the seed of any run is recovered from its last state |
| Xorshift.RunStaysNonZero | Pktgen-DPDK/app/xorshift64star.h:43 | a run is ever in the zero state exactly when seeded with zero |
| Xorshift.RunIsACycle | Pktgen-DPDK/app/xorshift64star.h:40-49 | a run that repeats a state has already come back to its seed |
| Xorshift.Generator.Next | Pktgen-DPDK/app/xorshift64star.h:40-49 | the three assignments are the step, and the result is its output |
| TxCount.Conservation | Pktgen-DPDK/app/pktgen-port-cfg.h:267-283 | for any number of queues and any interleaving of reads and sets, what was drawn plus what is left is what was loaded, each draw is between 1 and the burst, and only the last is short |
| TxCount.AllDrawn | Pktgen-DPDK/app/pktgen.c:986-995 | the count is zero exactly when all has been drawn, after one draw per started burst |
| TxCount.FailsOnlyForProgress | Pktgen-DPDK/app/pktgen-port-cfg.h:273-280 | a set fails exactly when another queue has drawn since the read |
| TxCount.AttemptsBounded | Pktgen-DPDK/app/pktgen-port-cfg.h:273-280 | no queue has tried more often than all queues together have succeeded |
| TxCount.Counter.Take | Pktgen-DPDK/app/pktgen-port-cfg.h:267-283 | the retry loop ends under any interference, and takes the smaller of the burst and what it found |
| Pacing.PollLoop | Pktgen-DPDK/app/pktgen.c:1179-1192 | the loop sends at exactly the polls that reach the deadline |
| Pacing.NoDrift | Pktgen-DPDK/app/pktgen.c:1127-1135 | the next deadline is exactly the first plus one cycle count per burst if and only if no burst was later than the lag limit |
| Pacing.DeadlineIs | Pktgen-DPDK/app/pktgen.c:1183-1192 | otherwise it is off by exactly the delay of the later ones |
| Pacing.BurstsBounded | Pktgen-DPDK/app/pktgen.c:1127-1135 | by time t at most 1 + (t - d0) / cycles bursts have gone out, whatever the poll times |
| Pacing.WindowBounded | Pktgen-DPDK/app/pktgen.c:1128-1132 | in any window of polls, at most the lag limit's worth of bursts comes on top of the rate |
| Pacing.OnTimeExactIff | Pktgen-DPDK/app/pktgen.c:1127-1135 | a queue kept on time has sent by a poll exactly the bursts due if and only if the poll came less than a cycle count after the deadline it found |
| Pacing.PacketRate | Pktgen-DPDK/app/pktgen.c:90-119 | the packet rate is the whole part, at least 1, of the requested percentage of the packets the link carries, divided by the number of queues: never more bits than that share of the link unless it is 1, and short of it by less than a packet of each queue and of the link; at 100 percent and one queue the most packets the link carries; the cycle count is the one, rounded to the nearest, at which a burst of every queue makes that rate; none for a link that is down or a rate of zero |
| Pacing.RoundedQuotient | Pktgen-DPDK/app/pktgen.c:114-118 | adding half the packet rate before dividing rounds to the nearest |
| Pacing.WindowRate | Pktgen-DPDK/app/pktgen.c:110-118 | in any window the packets sent stay within the rate, one burst, the lag limit and the rounding |
| Pacing.TotalRate | Pktgen-DPDK/app/pktgen.c:110-118 | with the values computed from the link and each queue polling on its own, the packets of all queues in any window stay within the requested rate divided by the number of queues, times the window, plus a burst, the lag limit and the rounding |
| Pacing.TotalRateMet | Pktgen-DPDK/app/pktgen.c:110-118 | when all queues keep up, their packets come to the requested rate divided by the number of queues, less one per second, up to the rounding: the requested rate with one queue |
| Latency.LatencyRing.Insert | Pktgen-DPDK/app/pktgen.c:306-313 | inserting keeps the ring equal to the newest values |
| Latency.CellsHold | Pktgen-DPDK/app/pktgen.c:306-313 | the filled cells are, as a multiset, the last 1024 values inserted |
| Latency.LatencyRing.GetPercentile | Pktgen-DPDK/app/pktgen-latency.c:214-236 | the percentile shown is that of the last 1024 values, in whatever order they lie |
| Latency.PercentileBetween | Pktgen-DPDK/app/pktgen-latency.c:227-235 | it lies between the two order statistics around its position |
| Latency.PercentileIs | Pktgen-DPDK/app/pktgen-latency.c:225-235 | with the samples in ascending order it is the linear interpolation at q times the last position between the samples on either side, cut down to a whole number |
| Latency.PercentileMonotone | Pktgen-DPDK/app/pktgen-latency.c:227-235 | it grows with the fraction asked for |
| Latency.PercentileEnds | Pktgen-DPDK/app/pktgen-latency.c:227-235 | at 0 and 1 it is the smallest and the largest sample |
| Latency.Displayed | Pktgen-DPDK/app/pktgen-latency.c:353-366 | p90 <= p95 <= p99 <= some sample |
| Latency.SortedMeans | Pktgen-DPDK/app/pktgen-latency.c:225 | what sorting yields: ascending, with the same elements |
| Latency.AscendingUnique | Pktgen-DPDK/app/pktgen-latency.c:225 | and there is only one such sequence |
| Range.StaysInBounds | Pktgen-DPDK/app/pktgen-range.c:74-131 | a stepping field is within its bounds from the first step on, whatever it started from and even when the addition wraps |
| Range.FixedFields | Pktgen-DPDK/app/pktgen-range.c:74-131 | a field with increment 0 has its start value in every packet built, from the first on |
| Range.OrbitIff | Pktgen-DPDK/app/pktgen-range.c:108-131 | from min, the k-th value is min + (k mod P) * inc for every k, if and only if the step past the last value does not wrap the word, or there is one value, or it wraps exactly onto min |
| Range.FieldsRun | Pktgen-DPDK/app/pktgen-range.c:26-131 | over a run every field is on its own orbit; the tunnel id advances only with packets to the GTP-U port |
| Range.TunnelSteps | Pktgen-DPDK/app/pktgen-range.c:26-131 | the tunnel id steps with exactly the packets whose destination port is 2152 before its own step |
| Range.PktSeq.RangeCtor | Pktgen-DPDK/app/pktgen-range.c:26-131 | the in-place step is the step of the template |
| Checksum.FoldAdds | data/scripts/generate_tester_pcap.py:99-101 | folding per word keeps sixteen bits and adds modulo 65535, with 0 only for a zero sum |
| Checksum.ComputeChecksum16 | data/scripts/generate_tester_pcap.py:95-102 | the loop, with its padding of odd data, computes the complement of the one's-complement sum |
| Checksum.VerifiesIff | data/scripts/generate_tester_pcap.py:95-102 | data verifies exactly when its word sum is a positive multiple of 65535 |
| Checksum.Inserted | data/scripts/generate_tester_pcap.py:132-134 | inserting a checksum at any even offset makes a message verify, with 0 sent as 0xFFFF too |
| Checksum.WordReplaced | data/scripts/generate_tester_pcap.py:95-102 | replacing one word of a message that verifies goes unnoticed exactly when 0 and 0xFFFF are exchanged and the rest is not all zero, or 0 becomes 0xFFFF |
| Generator.Ipv4Verifies | data/scripts/generate_tester_pcap.py:112-146 | every IPv4 header built verifies |
| Generator.UdpVerifies | data/scripts/generate_tester_pcap.py:149-156 | every UDP datagram built verifies with its pseudo-header, and its checksum is not 0 |
| Generator.IcmpVerifies | data/scripts/generate_tester_pcap.py:159-162 | every ICMP message built verifies |
| Generator.BuildPacket | data/scripts/generate_tester_pcap.py:165-210 | a packet is built exactly for lengths 64 to 1514, and has that length |
| Generator.PacketsSound | data/scripts/generate_tester_pcap.py:165-210 | every packet built passes a receiver's checks of lengths, protocol and both checksums |
| Generator.SequenceShown | data/scripts/generate_tester_pcap.py:165-210 | every packet shows its number modulo 65536: by the IPv4 identification, in icmp-seq mode by protocol 1, identifier d00d and the echo sequence, in udp-ports mode by protocol 17 and the ports, by the formula the script prints; payload mode has fixed ports; addresses and marker text are as given |
| Generator.CycleLengths | data/scripts/generate_tester_pcap.py:213-217 | in cycle mode each length appears once in every span |
| Generator.ValidateArgs | data/scripts/generate_tester_pcap.py:220-228 | the arguments accepted |
| Generator.WritePcap | data/scripts/generate_tester_pcap.py:231-258 | the writing loop produces the encoded capture, carrying microseconds into seconds |
| Generator.CaptureReadsBack | data/scripts/generate_tester_pcap.py:231-258 | reading the file back gives the packets in order, each sound, of its chosen length and showing its number, 100 microseconds apart |

## Left out

- Multi-queue replay: the pool is fetched outside the mutex and only queue 0 advances the packet index, so exclusion needs one queue.
- Worker shutdown, `pktgen_pcap_reload_section`, writes to the packet index from the command line (`pcap <n>`, `page next`), and a burst size changed while a replay runs.
- 32-bit wrap-around of `pkt_index` and `pkt_count`, and of 64-bit time stamps and deadlines.
- Start-up without hugepage information, directory scanning, and failures of stat, fopen, fseek and malloc.
- Mempool, NIC, condition variable and memory-order internals beyond the assumptions above; buffers that cannot be taken after a successful draw are not sent, as in the code.
- File offsets, statistics and the log lines kept beside the replay.
- Sizing.SizeSections: assumes fewer than 2^32 records in the source, whose count is 32 bits wide.
- Capture: the progress display, time stamps and file output of the dump (record lengths and data are modelled), and the state cleared when capture is disabled.
- RandomApply.Apply: every packet buffer is assumed to hold four bytes at the offset of each active bit field, and no two entries of a burst are the same buffer.
- Reading the seed from /dev/urandom, and the test hook that replaces the generator.
- Xorshift: the length of its cycle.
- Latency.LatencyRing.GetPercentile: positions and fractions are exact reals, so the rounding of doubles is not modelled; qsort is a sorted permutation.
- Pacing.PacketRate: exact reals in place of doubles; the wire size of a packet is a parameter.
- Pacing.TotalRate: a cycle count that rounds to 0, which leaves the queues unpaced.
- TxCount.Counter.Take: a transmit count of 2^63 or more, negative as a signed value, is not modelled.
- Range.PktSeq.RangeCtor: VLAN, CoS, ToS, MAC and VxLAN stepping and the IPv6 branch; VLAN, CoS and ToS skip one step once, and the VxLAN id uses another field's increment.
- Generator.BuildPacket: the marker text is a parameter, so its decimal formatting is not modelled; random lengths are any lengths in range.
- Packet header constructors, protocol handlers, command line, Lua bindings, display pages and configuration files.
