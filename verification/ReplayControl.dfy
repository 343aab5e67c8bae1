/** Two sections and any burst: what every step short of a race keeps about the sections, the
    locks, the reload slots, the reader and the transmitter's place. Nothing is assumed here of
    the burst size, of where transmission starts, or of the NIC. */
module ReplayControl {
  import opened Arith
  import opened Bytes
  import opened PcapFile
  import opened PcapReader
  import opened Replay

  /** Both sections exist; the source is well formed and not empty. */
  ghost predicate BothExist(cfg: Config) {
    Usable(cfg) && Source(cfg.files) && cfg.caps[1] > 0
  }

  /** How many records the first `j` chunks hold: chunks fill the sections in turn. */
  ghost function Before(cfg: Config, j: nat): nat
    requires |cfg.caps| == 2
  {
    if j == 0 then 0 else Before(cfg, j - 1) + cfg.caps[(j - 1) % 2]
  }

  // -------------------------------------------------------------- the invariant

  function Other(s: State): nat
    requires s.active < 2
  {
    1 - s.active
  }

  /** No reload is pending and the other section holds the next chunk. */
  ghost predicate Ready(s: State, o: nat)
    requires o < |s.secs|
  {
    s.request == -1 && s.inProgress == -1 && s.worker == Waiting && !s.secs[o].locked
  }

  ghost predicate Requested(s: State, o: nat)
    requires o < |s.secs|
  {
    s.request == o && s.inProgress == -1 && s.worker == Waiting && s.secs[o].locked
  }

  ghost predicate Taken(s: State, o: nat)
    requires o < |s.secs|
  {
    s.request == -1 && s.inProgress == o && s.worker == Loading(o) && s.secs[o].locked
  }

  ghost predicate Refilling(s: State, o: nat)
    requires o < |s.secs|
  {
    s.request == -1 && s.inProgress == o && s.worker == Filling(o, s.secs[o].loaded) && s.secs[o].locked
  }

  /** How much of the chunk after the active one is already in the other section. */
  ghost function Fresh(s: State): nat
    requires |s.secs| == 2 && s.active < 2
  {
    if s.request >= 0 || s.worker.Loading? then 0 else s.secs[Other(s)].loaded
  }

  /** The sections, the reload slots and the locks fit together; `m` is the chunk being sent. */
  ghost predicate Sections(cfg: Config, s: State, m: nat)
    requires Shape(cfg, s)
  {
    var a, o := s.secs[s.active], s.secs[Other(s)];
    && m == |s.passes| > 0 && s.active == (m - 1) % 2
    && (forall i :: 0 <= i < m ==> s.passes[i] == i + 1)
    && !a.locked && a.chunk == m && a.loaded == a.cap
    && (Ready(s, Other(s)) || Requested(s, Other(s)) || Taken(s, Other(s)) || Refilling(s, Other(s)))
    && (if s.request >= 0 || s.worker.Loading?
        then s.nextChunk == m + 1
        else s.nextChunk == m + 2 && o.chunk == m + 1)
    && (if s.worker.Filling? then o.loaded <= o.cap else o.loaded == o.cap)
  }

  /** Where the transmitter stands: it goes on sending only before the end of the section, and
      overshoots the end by less than a burst. */
  ghost predicate Standing(cfg: Config, s: State)
    requires Shape(cfg, s)
  {
    var cap := cfg.caps[s.active];
    && s.index < cap + cfg.burst
    && (s.tx.Sending? ==> s.index < cap)
    && (s.tx.Rechecking? || s.tx.AwaitLoad? || s.tx.AwaitUnlock? ==> s.index >= cap)
    && (s.tx.Rechecking? ==> s.worker.Filling?)
    && (s.tx.AwaitLoad? || s.tx.AwaitUnlock? ==> s.woken == !s.secs[Other(s)].locked)
  }

  /** `n` slots of a section hold the stream from record `first` on. */
  ghost predicate Holds(cfg: Config, sec: Section, n: nat, first: nat)
    requires Source(cfg.files)
  {
    n <= |sec.slots| && forall j :: 0 <= j < n ==> sec.slots[j] == Stream(cfg.files, first + j)
  }

  ghost predicate Contents(cfg: Config, s: State, m: nat)
    requires Shape(cfg, s) && Source(cfg.files) && m > 0
  {
    && Holds(cfg, s.secs[s.active], cfg.caps[s.active], Before(cfg, m - 1))
    && Holds(cfg, s.secs[Other(s)], Fresh(s), Before(cfg, m))
    && HasRead(cfg.files, s.cursor, Before(cfg, m) + Fresh(s))
  }

  ghost predicate Core(cfg: Config, s: State) {
    && BothExist(cfg) && Shape(cfg, s) && |s.passes| > 0
    && Sections(cfg, s, |s.passes|) && Standing(cfg, s) && Contents(cfg, s, |s.passes|)
  }

  // -------------------------------------------------------------- the transmitter

  lemma SwitchSections(cfg: Config, s: State, m: nat)
    requires Shape(cfg, s) && Sections(cfg, s, m) && Ready(s, Other(s))
    ensures Sections(cfg, Switch(cfg, s), m + 1)
  {
    hide ValidBufs, ValidSlots, Readable;
  }

  lemma SwitchContents(cfg: Config, s: State, m: nat)
    requires Shape(cfg, s) && Source(cfg.files) && Sections(cfg, s, m) && Ready(s, Other(s))
    requires Contents(cfg, s, m)
    ensures Contents(cfg, Switch(cfg, s), m + 1)
  {
    hide ValidBufs, ValidSlots, Readable, HasRead, Source;
    assert Before(cfg, m + 1) == Before(cfg, m) + cfg.caps[Other(s)];
  }

  /** Entering a ready section at the end of the active one. */
  lemma SwitchKeeps(cfg: Config, s: State)
    requires Core(cfg, s) && Ready(s, Other(s))
    ensures Core(cfg, Switch(cfg, s))
  {
    hide Sections, Contents, Source, Readable;
    SwitchSections(cfg, s, |s.passes|);
    SwitchContents(cfg, s, |s.passes|);
    SwitchStands(cfg, s);
  }

  lemma SwitchStands(cfg: Config, s: State)
    requires BothExist(cfg) && Shape(cfg, s)
    ensures Standing(cfg, Switch(cfg, s))
  {
    hide ValidBufs, ValidSlots, Readable, Source;
  }

  /** The decision short of a switch moves the transmitter and nothing else; in particular
      its own reload request (pktgen.c:954-959) is never made. */
  lemma TestWithoutSwitch(cfg: Config, s: State)
    requires BothExist(cfg) && Shape(cfg, s) && Sections(cfg, s, |s.passes|)
    requires s.index < cfg.caps[s.active] || !Ready(s, Other(s))
    ensures Test(cfg, s) ==
            if s.index < cfg.caps[s.active] then s.(tx := Sending)
            else if s.secs[Other(s)].loaded == 0 then s.(tx := Rechecking)
            else s.(tx := AwaitUnlock, woken := false)
    ensures s.index >= cfg.caps[s.active] && s.secs[Other(s)].loaded == 0 ==> s.worker.Filling?
    ensures s.index >= cfg.caps[s.active] ==> s.secs[Other(s)].locked
  {
    hide ValidBufs, ValidSlots, Readable, Source;
  }

  /** Steps that touch only the transmitter's control fields. */
  lemma SameSource(cfg: Config, s: State, s': State)
    requires Core(cfg, s) && Shape(cfg, s') && Standing(cfg, s')
    requires s' == s.(tx := s'.tx, woken := s'.woken, sending := s'.sending, quota := s'.quota)
    ensures Core(cfg, s')
  {
    hide HasRead, Source, Readable;
  }

  /** At the end of a section whose successor is ready, the decision is the switch. */
  lemma TestSwitches(cfg: Config, s: State)
    requires BothExist(cfg) && Shape(cfg, s) && Sections(cfg, s, |s.passes|)
    requires s.index >= cfg.caps[s.active] && Ready(s, Other(s))
    ensures Test(cfg, s) == Switch(cfg, s)
  {
    hide ValidBufs, ValidSlots, Readable, Source, Switch;
  }

  lemma TestKeeps(cfg: Config, s: State)
    requires Core(cfg, s)
    ensures Core(cfg, Test(cfg, s))
  {
    hide Contents, Source, Readable, ValidBufs, ValidSlots, Test, Sections, Switch;
    if s.index >= cfg.caps[s.active] && Ready(s, Other(s)) {
      TestSwitches(cfg, s);
      SwitchKeeps(cfg, s);
    } else {
      TestWithoutSwitch(cfg, s);
      SameSource(cfg, s, Test(cfg, s));
    }
  }

  /** Without a race the second read of the load count finds 0, and the wait begins. */
  lemma RecheckWaits(cfg: Config, s: State)
    requires Core(cfg, s) && s.tx.Rechecking? && !Race(cfg, s, TxRecheck)
    ensures s.secs[Other(s)].locked
    ensures Recheck(cfg, s) == s.(tx := AwaitLoad, woken := false)
  {
    hide Contents, Source, Readable, Switch;
  }

  lemma RecheckKeeps(cfg: Config, s: State)
    requires Core(cfg, s) && s.tx.Rechecking? && !Race(cfg, s, TxRecheck)
    ensures Core(cfg, Recheck(cfg, s))
  {
    hide Contents, Source, Readable, Sections, Recheck;
    RecheckWaits(cfg, s);
    SameSource(cfg, s, Recheck(cfg, s));
  }

  /** Without a race a waiter that wakes enters an unlocked section or waits on. */
  lemma WakeOutcome(cfg: Config, s: State)
    requires Core(cfg, s) && (s.tx.AwaitLoad? || s.tx.AwaitUnlock?) && !Race(cfg, s, TxWake)
    ensures Ready(s, Other(s)) == !s.secs[Other(s)].locked
    ensures Wake(cfg, s) == if Ready(s, Other(s)) then Switch(cfg, s) else s.(woken := false)
  {
    hide Contents, Source, Readable, Switch, ValidBufs, ValidSlots;
  }

  lemma WakeKeeps(cfg: Config, s: State)
    requires Core(cfg, s) && (s.tx.AwaitLoad? || s.tx.AwaitUnlock?) && !Race(cfg, s, TxWake)
    ensures Core(cfg, Wake(cfg, s))
  {
    hide Contents, Source, Readable, Sections, Wake, Switch;
    WakeOutcome(cfg, s);
    if Ready(s, Other(s)) {
      SwitchKeeps(cfg, s);
    } else {
      SameSource(cfg, s, Wake(cfg, s));
    }
  }

  lemma SameContents(cfg: Config, s: State, s': State, m: nat)
    requires Shape(cfg, s) && Shape(cfg, s') && Source(cfg.files) && m > 0 && Contents(cfg, s, m)
    requires s'.active == s.active && s'.cursor == s.cursor && Fresh(s') == Fresh(s)
    requires forall i :: 0 <= i < 2 ==> s'.secs[i].slots == s.secs[i].slots
    ensures Contents(cfg, s', m)
  {
    hide Readable, HasRead, Stream, ValidBufs, ValidSlots, Fresh;
  }

  lemma SameSections(cfg: Config, s: State, s': State, m: nat)
    requires Shape(cfg, s) && Shape(cfg, s') && Sections(cfg, s, m)
    requires s'.active == s.active && s'.passes == s.passes && s'.worker == s.worker && s'.nextChunk == s.nextChunk
    requires s'.request == s.request && s'.inProgress == s.inProgress
    requires forall i :: 0 <= i < 2 ==> s'.secs[i] == s.secs[i].(free := s'.secs[i].free)
    ensures Sections(cfg, s', m) && Fresh(s') == Fresh(s)
  {
    hide Readable, ValidBufs, ValidSlots;
  }

  lemma SendStands(cfg: Config, s: State)
    requires BothExist(cfg) && Shape(cfg, s) && Standing(cfg, s) && s.tx.Sending?
    ensures Standing(cfg, Send(cfg, s))
  {
    hide Source, Readable, ValidBufs, ValidSlots;
  }

  /** Steps that move buffers between pools and the NIC leave the sections as they are. */
  lemma SameLoads(cfg: Config, s: State, s': State)
    requires Core(cfg, s) && Shape(cfg, s') && Standing(cfg, s')
    requires s'.active == s.active && s'.passes == s.passes && s'.worker == s.worker && s'.nextChunk == s.nextChunk
    requires s'.request == s.request && s'.inProgress == s.inProgress && s'.cursor == s.cursor
    requires forall i :: 0 <= i < 2 ==> s'.secs[i] == s.secs[i].(free := s'.secs[i].free)
    ensures Core(cfg, s')
  {
    hide Source, Readable, Contents, Sections, Fresh, ValidBufs, ValidSlots, Standing;
    SameSections(cfg, s, s', |s.passes|);
    SameContents(cfg, s, s', |s.passes|);
  }

  lemma SendFrame(cfg: Config, s: State)
    requires Shape(cfg, s)
    ensures var s' := Send(cfg, s);
      && s'.active == s.active && s'.passes == s.passes && s'.worker == s.worker && s'.nextChunk == s.nextChunk
      && s'.request == s.request && s'.inProgress == s.inProgress && s'.cursor == s.cursor
      && |s.secs| == |s'.secs| == 2
      && forall i :: 0 <= i < 2 ==> s'.secs[i] == s.secs[i].(free := s'.secs[i].free)
  {
    hide ValidBufs, ValidSlots, Draw, Readable;
  }

  lemma SendKeeps(cfg: Config, s: State)
    requires Core(cfg, s) && s.tx.Sending?
    ensures Core(cfg, Send(cfg, s))
  {
    SendStands(cfg, s);
    SendFrame(cfg, s);
    hide Source, Readable, Contents, Sections, ValidBufs, ValidSlots, Standing, Send;
    SameLoads(cfg, s, Send(cfg, s));
  }

  // -------------------------------------------------------------- the reload worker

  lemma WorkerControl(cfg: Config, s: State, m: nat)
    requires Shape(cfg, s) && Sections(cfg, s, m)
    ensures s.worker.Waiting? && s.request >= 0 ==> Sections(cfg, Take(cfg, s), m)
    ensures s.worker.Loading? ==> s.worker.sec == Other(s) && Sections(cfg, Reset(cfg, s), m)
    ensures s.worker.Filling? ==>
      s.worker.target == Other(s) && s.worker.slot == s.secs[Other(s)].loaded && s.request == -1
    ensures s.worker.Filling? && s.worker.slot >= cfg.caps[s.worker.target] ==> Sections(cfg, Finish(cfg, s), m)
  {
    hide Readable, ValidBufs, ValidSlots;
  }

  /** The worker's steps outside the fill loop move no packet. */
  lemma ControlStepKeeps(cfg: Config, s: State, s': State)
    requires Core(cfg, s) && Shape(cfg, s') && Sections(cfg, s', |s.passes|) && Standing(cfg, s')
    requires s'.active == s.active && s'.passes == s.passes && s'.cursor == s.cursor && Fresh(s') == Fresh(s)
    requires forall i :: 0 <= i < 2 ==> s'.secs[i].slots == s.secs[i].slots
    ensures Core(cfg, s')
  {
    hide Sections, Standing, Contents, Source, Readable, ValidBufs, ValidSlots;
    SameContents(cfg, s, s', |s.passes|);
  }

  lemma TakeKeeps(cfg: Config, s: State)
    requires Core(cfg, s) && s.worker.Waiting? && s.request >= 0 && !s.tx.Rechecking?
    ensures Core(cfg, Take(cfg, s))
  {
    hide Contents, Source, Readable, ValidBufs, ValidSlots;
    WorkerControl(cfg, s, |s.passes|);
    ControlStepKeeps(cfg, s, Take(cfg, s));
  }

  lemma ResetKeeps(cfg: Config, s: State)
    requires Core(cfg, s) && s.worker.Loading?
    ensures Core(cfg, Reset(cfg, s))
  {
    hide Contents, Source, Readable, ValidBufs, ValidSlots;
    WorkerControl(cfg, s, |s.passes|);
    ControlStepKeeps(cfg, s, Reset(cfg, s));
  }

  lemma FinishKeeps(cfg: Config, s: State)
    requires Core(cfg, s) && s.worker.Filling? && s.worker.slot >= cfg.caps[s.worker.target] && !s.tx.Rechecking?
    ensures Core(cfg, Finish(cfg, s))
  {
    hide Contents, Source, Readable, ValidBufs, ValidSlots;
    WorkerControl(cfg, s, |s.passes|);
    ControlStepKeeps(cfg, s, Finish(cfg, s));
  }

  /** The state after a fill step that puts `data` in the next slot of the other section. */
  ghost function Filled(s: State, data: Packet, cursor: Cursor): State
    requires |s.secs| == 2 && s.active < 2 && s.secs[Other(s)].loaded < |s.secs[Other(s)].slots|
  {
    var o := Other(s);
    var at := s.secs[o].loaded;
    SetSec(s, o, s.secs[o].(slots := s.secs[o].slots[at := data], loaded := at + 1))
    .(cursor := cursor, worker := Filling(o, at + 1))
  }

  /** A reader that has delivered `k` records puts record `k` of the stream in the slot. */
  lemma FillSlotReads(cfg: Config, s: State, i: nat, slot: nat, k: nat)
    requires Shape(cfg, s) && Source(cfg.files) && i < 2 && slot < cfg.caps[i]
    requires s.secs[i].loaded < cfg.caps[i] && HasRead(cfg.files, s.cursor, k)
    ensures FillSlot(cfg, s, i, slot).Some?
    ensures var sec, s' := s.secs[i], FillSlot(cfg, s, i, slot).value;
            && s' == SetSec(s, i, sec.(slots := sec.slots[slot := Stream(cfg.files, k)], loaded := sec.loaded + 1))
                     .(cursor := s'.cursor)
            && HasRead(cfg.files, s'.cursor, k + 1)
  {
    hide HasRead, Source, Stream, ValidBufs, ValidSlots, ReadNext;
    ReadsTheStream(cfg.files, s.cursor, k);
  }

  /** The record a fill step reads is the next of the chunk being loaded. */
  lemma FillReads(cfg: Config, s: State, m: nat)
    requires Shape(cfg, s) && Source(cfg.files) && m > 0 && Contents(cfg, s, m)
    requires s.worker == Filling(Other(s), s.secs[Other(s)].loaded) && s.request == -1
    requires s.secs[Other(s)].loaded < cfg.caps[Other(s)]
    ensures Fill(cfg, s).Some?
    ensures var s', k := Fill(cfg, s).value, Before(cfg, m) + s.secs[Other(s)].loaded;
            s' == Filled(s, Stream(cfg.files, k), s'.cursor) && HasRead(cfg.files, s'.cursor, k + 1)
  {
    hide HasRead, Source, Stream, Readable, ValidBufs, ValidSlots, FillSlot, Holds, Before;
    FillSlotReads(cfg, s, Other(s), s.worker.slot, Before(cfg, m) + s.worker.slot);
  }

  lemma FilledSections(cfg: Config, s: State, s': State, m: nat)
    requires Shape(cfg, s) && Shape(cfg, s') && Sections(cfg, s, m)
    requires s.worker.Filling? && s.secs[Other(s)].loaded < cfg.caps[Other(s)]
    requires s' == Filled(s, s'.secs[Other(s)].slots[s.secs[Other(s)].loaded], s'.cursor)
    ensures Sections(cfg, s', m)
  {
    hide Readable, ValidBufs, ValidSlots;
  }

  lemma FilledHolds(cfg: Config, sec: Section, n: nat, first: nat)
    requires Source(cfg.files) && n < |sec.slots| && Holds(cfg, sec, n, first)
    ensures Holds(cfg, sec.(slots := sec.slots[n := Stream(cfg.files, first + n)], loaded := n + 1), n + 1, first)
  {
    hide Stream;
  }

  lemma FilledContents(cfg: Config, s: State, s': State, m: nat)
    requires Shape(cfg, s) && Shape(cfg, s') && Source(cfg.files) && m > 0 && Contents(cfg, s, m)
    requires s.request == -1 && s.worker.Filling? && s.secs[Other(s)].loaded < cfg.caps[Other(s)]
    requires var k := Before(cfg, m) + s.secs[Other(s)].loaded;
             s' == Filled(s, Stream(cfg.files, k), s'.cursor) && HasRead(cfg.files, s'.cursor, k + 1)
    ensures Contents(cfg, s', m)
  {
    hide Readable, HasRead, Source, Stream, ValidBufs, ValidSlots, Holds, Before;
    var o := Other(s);
    FilledHolds(cfg, s.secs[o], s.secs[o].loaded, Before(cfg, m));
    assert s'.secs[s.active] == s.secs[s.active];
  }

  lemma FilledStands(cfg: Config, s: State, s': State)
    requires Shape(cfg, s) && Shape(cfg, s') && Standing(cfg, s) && s.worker.Filling?
    requires s.secs[Other(s)].loaded < cfg.caps[Other(s)]
    requires s' == Filled(s, s'.secs[Other(s)].slots[s.secs[Other(s)].loaded], s'.cursor)
    ensures Standing(cfg, s')
  {
    hide Readable, ValidBufs, ValidSlots;
  }

  /** A fill never exits: it puts the next record of the source into the next slot. */
  lemma FillStep(cfg: Config, s: State)
    requires Core(cfg, s) && s.worker.Filling? && s.worker.slot < cfg.caps[s.worker.target]
    ensures s.worker.target == Other(s) && s.worker.slot == s.secs[Other(s)].loaded && s.request == -1
    ensures Fill(cfg, s).Some?
    ensures var s', k := Fill(cfg, s).value, Before(cfg, |s.passes|) + s.worker.slot;
            s' == Filled(s, Stream(cfg.files, k), s'.cursor) && HasRead(cfg.files, s'.cursor, k + 1)
  {
    hide Fill, Standing, Contents, Source, Stream, HasRead, Readable, ValidBufs, ValidSlots, Sections;
    WorkerControl(cfg, s, |s.passes|);
    FillReads(cfg, s, |s.passes|);
  }

  lemma FilledKeeps(cfg: Config, s: State, s': State)
    requires Core(cfg, s) && Shape(cfg, s') && s.request == -1
    requires s.worker.Filling? && s.secs[Other(s)].loaded < cfg.caps[Other(s)]
    requires var k := Before(cfg, |s.passes|) + s.secs[Other(s)].loaded;
             s' == Filled(s, Stream(cfg.files, k), s'.cursor) && HasRead(cfg.files, s'.cursor, k + 1)
    ensures Core(cfg, s')
  {
    hide Contents, Source, Stream, HasRead, Readable, ValidBufs, ValidSlots, Standing, Sections;
    FilledStands(cfg, s, s');
    FilledSections(cfg, s, s', |s.passes|);
    FilledContents(cfg, s, s', |s.passes|);
  }

  lemma FillKeeps(cfg: Config, s: State)
    requires Core(cfg, s) && s.worker.Filling? && s.worker.slot < cfg.caps[s.worker.target]
    ensures Fill(cfg, s).Some? && Core(cfg, Fill(cfg, s).value)
  {
    hide Fill, Standing, Contents, Source, Stream, HasRead, Readable, ValidBufs, ValidSlots, Sections, Filled;
    FillStep(cfg, s);
    FilledKeeps(cfg, s, Fill(cfg, s).value);
  }

  lemma NicKeeps(cfg: Config, s: State)
    requires Core(cfg, s)
    ensures s.nic != [] ==> Core(cfg, Transmit(cfg, s))
    ensures s.done != [] ==> Core(cfg, Free(cfg, s))
  {
    hide Source, Readable, Contents, Sections, Fresh, ValidBufs, ValidSlots;
    if s.nic != [] {
      SameLoads(cfg, s, Transmit(cfg, s));
    }
    if s.done != [] {
      SameLoads(cfg, s, Free(cfg, s));
    }
  }

  lemma CommandKeeps(cfg: Config, s: State, count: nat)
    requires Core(cfg, s)
    ensures Core(cfg, StartSending(s, count)) && Core(cfg, StopSending(s))
  {
    hide Contents, Source, Readable, Sections;
    SameSource(cfg, s, StartSending(s, count));
    SameSource(cfg, s, StopSending(s));
  }

  /** Every step of every thread that is not a race keeps the core invariant. */
  lemma NextKeeps(cfg: Config, s: State, l: Label)
    requires Core(cfg, s) && !Race(cfg, s, l) && Next(cfg, s, l).Some?
    ensures Core(cfg, Next(cfg, s, l).value)
  {
    hide Core;
    match l
    case TxTest => TestKeeps(cfg, s);
    case TxRecheck => RecheckKeeps(cfg, s);
    case TxWake => WakeKeeps(cfg, s);
    case TxSend => SendKeeps(cfg, s);
    case WorkerTake => TakeKeeps(cfg, s);
    case WorkerReset => ResetKeeps(cfg, s);
    case WorkerFill => FillKeeps(cfg, s);
    case WorkerFinish => FinishKeeps(cfg, s);
    case NicTransmit => NicKeeps(cfg, s);
    case NicFree => NicKeeps(cfg, s);
    case Start(count) => CommandKeeps(cfg, s, count);
    case Stop => CommandKeeps(cfg, s, 0);
  }

  // ----------------------------------------------------------------- the start

  lemma {:induction false} FillsFrom(cfg: Config, s: State, i: nat, first: nat)
    requires Shape(cfg, s) && Source(cfg.files) && i < 2 && s.secs[i].loaded <= cfg.caps[i]
    requires Holds(cfg, s.secs[i], s.secs[i].loaded, first)
    requires HasRead(cfg.files, s.cursor, first + s.secs[i].loaded)
    ensures var r := FillFrom(cfg, s, i, s.secs[i].loaded);
            && r.Some?
            && r.value == SetSec(s, i, s.secs[i].(slots := r.value.secs[i].slots, loaded := cfg.caps[i]))
                          .(cursor := r.value.cursor)
            && Holds(cfg, r.value.secs[i], cfg.caps[i], first)
            && HasRead(cfg.files, r.value.cursor, first + cfg.caps[i])
    decreases cfg.caps[i] - s.secs[i].loaded
  {
    hide HasRead, Source, Stream, Readable, ValidBufs, ValidSlots, FillSlot, Holds;
    var slot := s.secs[i].loaded;
    if slot < cfg.caps[i] {
      FillSlotReads(cfg, s, i, slot, first + slot);
      FilledHolds(cfg, s.secs[i], slot, first);
      FillsFrom(cfg, FillSlot(cfg, s, i, slot).value, i, first);
    }
  }

  /** pcap_load_section puts the next cap records of the source into the section. */
  lemma LoadsSection(cfg: Config, s: State, i: nat, first: nat)
    requires Shape(cfg, s) && Source(cfg.files) && i < 2 && HasRead(cfg.files, s.cursor, first)
    ensures var r := LoadSection(cfg, s, i);
            && r.Some?
            && r.value == SetSec(s, i, s.secs[i].(slots := r.value.secs[i].slots, loaded := cfg.caps[i],
                                                  chunk := s.nextChunk))
                          .(cursor := r.value.cursor, nextChunk := s.nextChunk + 1)
            && Holds(cfg, r.value.secs[i], cfg.caps[i], first)
            && HasRead(cfg.files, r.value.cursor, first + cfg.caps[i])
  {
    hide HasRead, Source, Stream, Readable, ValidBufs, ValidSlots, FillFrom;
    FillsFrom(cfg, ResetSection(cfg, s, i), i, first);
  }

  /** The state start-up leaves on a well-formed source, for some section contents. */
  ghost predicate JustOpened(cfg: Config, s: State)
    requires BothExist(cfg)
  {
    && s == Created(cfg, s.cursor).(secs := s.secs, nextChunk := 3, passes := [1])
    && |s.secs| == 2
    && (forall i :: 0 <= i < 2 ==>
          s.secs[i] == EmptySection(cfg.caps[i]).(slots := s.secs[i].slots, loaded := cfg.caps[i], chunk := i + 1))
    && Holds(cfg, s.secs[0], cfg.caps[0], 0) && Holds(cfg, s.secs[1], cfg.caps[1], cfg.caps[0])
    && HasRead(cfg.files, s.cursor, cfg.caps[0] + cfg.caps[1])
  }

  lemma LoadsBoth(cfg: Config, s0: State)
    requires BothExist(cfg) && Shape(cfg, s0) && s0 == Created(cfg, s0.cursor) && HasRead(cfg.files, s0.cursor, 0)
    ensures LoadSection(cfg, s0, 0).Some? && LoadSection(cfg, LoadSection(cfg, s0, 0).value, 1).Some?
    ensures var s := LoadSection(cfg, LoadSection(cfg, s0, 0).value, 1).value;
            s.secs[0].chunk == 1 && JustOpened(cfg, s.(passes := [1]))
  {
    hide HasRead, Source, Stream, LoadSection, Readable, Holds, ValidBufs, ValidSlots;
    LoadsSection(cfg, s0, 0, 0);
    var s1 := LoadSection(cfg, s0, 0).value;
    LoadsSection(cfg, s1, 1, cfg.caps[0]);
    var s2 := LoadSection(cfg, s1, 1).value;
    assert s2.secs[0] == s1.secs[0];
  }

  lemma CreatedShape(cfg: Config, at: Cursor)
    requires Usable(cfg) && InRange(cfg.files, at)
    ensures Shape(cfg, Created(cfg, at))
  {
  }

  lemma OpenedIs(cfg: Config, at: Cursor)
    requires Usable(cfg) && cfg.caps[1] > 0 && Open(cfg.files, 0) == Some(at)
    requires Shape(cfg, Created(cfg, at)) && LoadSection(cfg, Created(cfg, at), 0).Some?
    requires LoadSection(cfg, LoadSection(cfg, Created(cfg, at), 0).value, 1).Some?
    ensures var s := LoadSection(cfg, LoadSection(cfg, Created(cfg, at), 0).value, 1).value;
            Opened(cfg) == Some(s.(passes := [s.secs[0].chunk]))
  {
    hide Open, LoadSection, Created, Readable, ValidBufs, ValidSlots;
  }

  lemma OpensReplay(cfg: Config)
    requires BothExist(cfg)
    ensures Opened(cfg).Some? && JustOpened(cfg, Opened(cfg).value)
  {
    RewoundHasReadNothing(cfg.files);
    var at := Open(cfg.files, 0).value;
    CreatedShape(cfg, at);
    hide HasRead, Source, Open, LoadSection, JustOpened, Opened, Shape;
    assert Created(cfg, at).cursor == at;
    LoadsBoth(cfg, Created(cfg, at));
    OpenedIs(cfg, at);
  }

  lemma JustOpenedControl(cfg: Config, s: State)
    requires BothExist(cfg) && Shape(cfg, s) && JustOpened(cfg, s)
    ensures Sections(cfg, s, 1) && Standing(cfg, s)
  {
    hide HasRead, Source, Stream, Readable, Holds, ValidBufs, ValidSlots;
  }

  lemma JustOpenedContents(cfg: Config, s: State)
    requires BothExist(cfg) && Shape(cfg, s) && JustOpened(cfg, s)
    ensures Contents(cfg, s, 1)
  {
    hide HasRead, Source, Stream, Readable, Holds, ValidBufs, ValidSlots;
    assert Before(cfg, 0) == 0 && Before(cfg, 1) == cfg.caps[0];
  }

  /** Start-up never exits on a well-formed source and establishes the core invariant. */
  lemma OpenedCore(cfg: Config)
    requires BothExist(cfg)
    ensures Opened(cfg).Some? && Core(cfg, Opened(cfg).value)
  {
    hide Opened, Source, Readable, Contents, Sections, Standing, Holds, HasRead;
    OpensReplay(cfg);
    JustOpenedControl(cfg, Opened(cfg).value);
    JustOpenedContents(cfg, Opened(cfg).value);
  }

  // ------------------------------------------------------------ whole schedules

  lemma ClearsRace(cfg: Config, s: State, l: Label, hs: set<Hazard>)
    requires Shape(cfg, s) && cfg.burst > 0 && Clears(cfg, s, l, hs) && Racing in hs
    ensures !Race(cfg, s, l)
  {
    assert !Hits(cfg, s, l, Racing);
  }

  /** The core invariant holds in every state a race-free schedule reaches, for every burst. */
  lemma {:induction false} RunKeeps(cfg: Config, ls: seq<Label>)
    requires BothExist(cfg) && RaceFree(cfg, ls) && Run(cfg, ls).Some?
    ensures Core(cfg, Run(cfg, ls).value)
  {
    hide Core, Clears, Next, Opened, Source;
    if ls == [] {
      OpenedCore(cfg);
    } else {
      var before, l := ls[..|ls| - 1], ls[|ls| - 1];
      RunKeeps(cfg, before);
      ClearsRace(cfg, Run(cfg, before).value, l, {Racing});
      NextKeeps(cfg, Run(cfg, before).value, l);
    }
  }

  /** The section being filled is never the active one. */
  ghost predicate Exclusive(cfg: Config, s: State)
    requires Shape(cfg, s)
  {
    && !s.secs[s.active].locked
    && (s.worker.Loading? ==> s.worker.sec != s.active)
    && (s.worker.Filling? ==> s.worker.target != s.active)
    && (forall i :: 0 <= i < 2 ==> s.secs[i].locked == (i == s.request || i == s.inProgress))
    && !(s.secs[0].locked && s.secs[1].locked)
    && !(s.request >= 0 && s.inProgress >= 0)
  }

  lemma CoreExclusive(cfg: Config, s: State)
    requires Core(cfg, s)
    ensures Exclusive(cfg, s)
  {
    hide Standing, Contents, Source, Readable, ValidBufs, ValidSlots;
  }

  /** What every switch finds: the active section sent to its end, overshot by less than a
      burst; the other loaded to the full and unlocked; nothing requested or being reloaded. */
  ghost predicate SwitchPoint(cfg: Config, s: State)
    requires Shape(cfg, s)
  {
    && s.secs[s.active].loaded == cfg.caps[s.active] <= s.index < cfg.caps[s.active] + cfg.burst
    && Ready(s, Other(s)) && s.secs[Other(s)].loaded == cfg.caps[Other(s)]
  }

  lemma OnlyTheDecisionSwitches(cfg: Config, s: State, l: Label)
    requires Shape(cfg, s) && Next(cfg, s, l).Some? && !l.TxTest? && !l.TxRecheck? && !l.TxWake?
    ensures Next(cfg, s, l).value.active == s.active
  {
    hide Readable, ValidBufs, ValidSlots, ReadNext;
  }

  lemma ReadyAtEnd(cfg: Config, s: State)
    requires Core(cfg, s) && s.index >= cfg.caps[s.active] && Ready(s, Other(s))
    ensures SwitchPoint(cfg, s)
  {
    hide Contents, Source, Readable, ValidBufs, ValidSlots;
  }

  /** A step that is not a race changes the active section only at such a point. */
  lemma SwitchesOnlyWhenReady(cfg: Config, s: State, l: Label)
    requires Core(cfg, s) && !Race(cfg, s, l) && Next(cfg, s, l).Some?
    requires Next(cfg, s, l).value.active != s.active
    ensures SwitchPoint(cfg, s)
  {
    hide Contents, Source, Readable, ValidBufs, ValidSlots, Fill, Sections, Test, Recheck, Wake, SwitchPoint;
    if l.TxTest? {
      if s.index < cfg.caps[s.active] || !Ready(s, Other(s)) {
        TestWithoutSwitch(cfg, s);
      } else {
        ReadyAtEnd(cfg, s);
      }
    } else if l.TxRecheck? {
      RecheckWaits(cfg, s);
    } else if l.TxWake? {
      WakeOutcome(cfg, s);
      if Ready(s, Other(s)) {
        ReadyAtEnd(cfg, s);
      }
    } else {
      hide Next;
      OnlyTheDecisionSwitches(cfg, s, l);
    }
  }

  /** In every state a race-free schedule reaches, whatever the burst, the starts and the NIC:
      exclusion holds, the sections entered are the chunks 1, 2, 3, ... without gap or repeat,
      the one being sent holds exactly its chunk of the source, and the next step switches
      only at a switch point, so that it never overwrites a pending request. */
  lemma ExclusionAlways(cfg: Config, ls: seq<Label>, l: Label)
    requires BothExist(cfg) && RaceFree(cfg, ls + [l]) && Run(cfg, ls + [l]).Some?
    ensures Run(cfg, ls).Some?
    ensures var s := Run(cfg, ls).value;
      && Exclusive(cfg, s)
      && |s.passes| > 0 && (forall i :: 0 <= i < |s.passes| ==> s.passes[i] == i + 1)
      && s.secs[s.active].chunk == |s.passes|
      && Holds(cfg, s.secs[s.active], cfg.caps[s.active], Before(cfg, |s.passes| - 1))
      && (Run(cfg, ls + [l]).value.active != s.active ==> SwitchPoint(cfg, s))
  {
    hide Exclusive, SwitchPoint, Next, Opened, Clears, Source, HasRead, Holds, Race;
    assert (ls + [l])[..|ls|] == ls;
    RunKeeps(cfg, ls);
    var s := Run(cfg, ls).value;
    ClearsRace(cfg, s, l, {Racing});
    CoreExclusive(cfg, s);
    if Next(cfg, s, l).value.active != s.active {
      SwitchesOnlyWhenReady(cfg, s, l);
    }
  }

  // --------------------------------------------------- exclusion, exactly when

  /** Passing the load-count test while the section is locked enters the section being filled. */
  lemma RaceEntersLockedSection(cfg: Config, s: State, l: Label)
    requires Shape(cfg, s) && Race(cfg, s, l)
    ensures Next(cfg, s, l).Some? && !Exclusive(cfg, Next(cfg, s, l).value)
  {
    hide Readable, ValidBufs, ValidSlots;
  }

  /** After any race-free schedule, one more step keeps exclusion if and only if it is not a
      race: the transmitter may pass its load-count test just when the next section is
      unlocked. */
  lemma ExclusionIffNoRace(cfg: Config, ls: seq<Label>, l: Label)
    requires BothExist(cfg) && RaceFree(cfg, ls) && Run(cfg, ls).Some?
    requires Next(cfg, Run(cfg, ls).value, l).Some?
    ensures Exclusive(cfg, Next(cfg, Run(cfg, ls).value, l).value) <==> !Race(cfg, Run(cfg, ls).value, l)
  {
    hide Core, Exclusive, Next, Opened, Run, RaceFree, Race;
    RunKeeps(cfg, ls);
    var s := Run(cfg, ls).value;
    if Race(cfg, s, l) {
      RaceEntersLockedSection(cfg, s, l);
    } else {
      NextKeeps(cfg, s, l);
      CoreExclusive(cfg, Next(cfg, s, l).value);
    }
  }
}
