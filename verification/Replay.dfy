/** The double-buffered replay engine as a transition system. Every atomic action of the
    transmitter, the reload worker and the NIC is one labelled step, and a schedule is any
    sequence of labels: the scheduler is the adversary.

    One TX queue. What holds the state mutex is one step, except that the transmitter's two
    reads of a section's load count (pktgen.c:953 and :961) are two steps, because the worker
    writes that count without the mutex. A waiting transmitter may wake at any time. */
module Replay {
  import opened Arith
  import opened Bytes
  import opened PcapFile
  import opened PcapReader

  const PCAP_NUM_SECTIONS := 2

  /** pcap_section_t and its mempool: the buffers by slot, and the pool's FIFO of free slots.
      A section without a mempool has no slots. */
  datatype Section = Section(cap: nat, loaded: nat, chunk: nat, locked: bool, slots: seq<Packet>, free: seq<nat>)

  /** Where the reload worker is in its loop. */
  datatype Worker = Waiting | Loading(sec: nat) | Filling(target: nat, slot: nat)

  /** Where the transmitter is in pktgen_send_pkts. */
  datatype Tx = Testing | Rechecking | AwaitLoad | AwaitUnlock | Sending

  /** SEND_FOREVER, or the value of current_tx_count. */
  datatype Quota = Forever | Count(n: nat)

  datatype Buf = Buf(sec: nat, slot: nat)

  datatype State = State(
    secs: seq<Section>, active: nat, index: nat,       // sections, active_section_idx, pkt_index
    request: int, inProgress: int, nextChunk: nat,     // reload_request, reload_in_progress, next_chunk_id
    worker: Worker, cursor: Cursor,                    // the reload thread and the reader it alone drives
    tx: Tx, woken: bool, sending: bool, quota: Quota,  // the TX lcore; woken: the broadcast came since it began to wait
    nic: seq<Buf>, done: seq<Buf>, wire: seq<Packet>,  // handed to the NIC; sent, not yet freed; what left the port
    passes: seq<nat>)                                  // chunk ids of the sections entered, in order

  /** A replay set-up: the source files, the two section capacities and tx_burst. */
  datatype Config = Config(files: seq<seq<byte>>, caps: seq<nat>, burst: nat)

  datatype Label =
    | TxTest | TxRecheck | TxWake | TxSend
    | WorkerTake | WorkerReset | WorkerFill | WorkerFinish
    | NicTransmit | NicFree
    | Start(count: nat) | Stop

  function NextSection(s: State): nat {
    (s.active + 1) % PCAP_NUM_SECTIONS
  }

  ghost predicate Readable(files: seq<seq<byte>>, c: Cursor) {
    Startable(files) && InRange(files, c)
  }

  ghost predicate ValidSlots(cap: nat, free: seq<nat>) {
    forall k :: 0 <= k < |free| ==> free[k] < cap
  }

  ghost predicate ValidBufs(caps: seq<nat>, q: seq<Buf>)
    requires |caps| == 2
  {
    forall k :: 0 <= k < |q| ==> q[k].sec < 2 && q[k].slot < caps[q[k].sec]
  }

  ghost predicate Shape(cfg: Config, s: State) {
    && |cfg.caps| == |s.secs| == PCAP_NUM_SECTIONS
    && s.active < PCAP_NUM_SECTIONS
    && (forall i :: 0 <= i < 2 ==> s.secs[i].cap == cfg.caps[i] == |s.secs[i].slots|)
    && Readable(cfg.files, s.cursor)
    && (forall i :: 0 <= i < 2 ==> ValidSlots(cfg.caps[i], s.secs[i].free))
    && ValidBufs(cfg.caps, s.nic) && ValidBufs(cfg.caps, s.done)
    && s.request < 2
    && (s.worker.Loading? ==> s.worker.sec < 2)
    && (s.worker.Filling? ==> s.worker.target < 2)
  }

  function SetSec(s: State, i: nat, sec: Section): State
    requires i < |s.secs|
  {
    s.(secs := s.secs[i := sec])
  }

  // ------------------------------------------------------------- transmitter

  /** Enter the next section and ask for a reload of the one left (pktgen.c:974-978). */
  function Switch(cfg: Config, s: State): (r: State)
    requires Shape(cfg, s)
    ensures Shape(cfg, r)
  {
    var next := NextSection(s);
    SetSec(s, s.active, s.secs[s.active].(locked := true))
    .(active := next, index := 0, request := s.active, tx := Sending, woken := false,
      passes := s.passes + [s.secs[next].chunk])
  }

  /** The decision under the mutex up to the first read of the load count (pktgen.c:937-968). */
  function Test(cfg: Config, s: State): (r: State)
    requires Shape(cfg, s)
    ensures Shape(cfg, r)
  {
    var next := NextSection(s);
    if s.index >= s.secs[s.active].loaded && s.secs[next].cap > 0 then
      if s.secs[next].loaded == 0 then
        var s' := if s.request < 0 && s.inProgress < 0 && !s.secs[next].locked
                  then SetSec(s, next, s.secs[next].(locked := true)).(request := next)
                  else s;
        s'.(tx := Rechecking)
      else if s.secs[next].locked then s.(tx := AwaitUnlock, woken := false)
      else Switch(cfg, s)
    else s.(tx := Sending)
  }

  /** The loop test at pktgen.c:961. */
  function Recheck(cfg: Config, s: State): (r: State)
    requires Shape(cfg, s)
    ensures Shape(cfg, r)
  {
    if s.secs[NextSection(s)].loaded == 0 then s.(tx := AwaitLoad, woken := false) else Switch(cfg, s)
  }

  /** Return from pthread_cond_wait, for whatever reason, and test again. */
  function Wake(cfg: Config, s: State): (r: State)
    requires Shape(cfg, s)
    ensures Shape(cfg, r)
  {
    var next := s.secs[NextSection(s)];
    var again := if s.tx.AwaitLoad? then next.loaded == 0 else next.locked;
    if again then s.(woken := false) else Switch(cfg, s)
  }

  /** pkt_atomic64_tx_count for the only queue, or tx_burst when sending forever. */
  function Draw(cfg: Config, q: Quota): nat {
    match q
    case Forever => cfg.burst
    case Count(n) => if n > cfg.burst then cfg.burst else n
  }

  function QuotaAfter(cfg: Config, q: Quota): Quota {
    match q
    case Forever => Forever
    case Count(n) => Count(n - Draw(cfg, q))
  }

  function Bufs(sec: nat, slots: seq<nat>): (bs: seq<Buf>)
    ensures |bs| == |slots| && forall i :: 0 <= i < |bs| ==> bs[i] == Buf(sec, slots[i])
  {
    seq(|slots|, i requires 0 <= i < |slots| => Buf(sec, slots[i]))
  }

  /** Draw, take that many buffers from the active pool, hand them over (pktgen.c:986-1001). */
  function Send(cfg: Config, s: State): (r: State)
    requires Shape(cfg, s)
    ensures Shape(cfg, r)
  {
    var n := Draw(cfg, s.quota);
    var pool := s.secs[s.active];
    var s' := s.(tx := Testing, quota := QuotaAfter(cfg, s.quota));
    if n == 0 then s'.(sending := false)
    else if n <= |pool.free| then
      SetSec(s', s.active, pool.(free := pool.free[n..]))
      .(nic := s.nic + Bufs(s.active, pool.free[..n]), index := s.index + n)
    else s'
  }

  // ------------------------------------------------------------------ worker

  /** pcap_load_section up to its iteration over the pool. */
  function ResetSection(cfg: Config, s: State, i: nat): (r: State)
    requires Shape(cfg, s) && i < 2
    ensures Shape(cfg, r)
  {
    SetSec(s, i, s.secs[i].(chunk := s.nextChunk, loaded := 0)).(nextChunk := s.nextChunk + 1)
  }

  /** mbuf_iterate_cb on one buffer; None is rte_exit. */
  function FillSlot(cfg: Config, s: State, i: nat, slot: nat): (r: Option<State>)
    requires Shape(cfg, s) && i < 2 && slot < cfg.caps[i]
    ensures r.Some? ==> Shape(cfg, r.value)
  {
    var sec := s.secs[i];
    if sec.loaded >= sec.cap then Some(s)
    else
      match ReadNext(cfg.files, s.cursor)
      case None => None
      case Some((data, cursor)) =>
        Some(SetSec(s, i, sec.(slots := sec.slots[slot := data], loaded := sec.loaded + 1)).(cursor := cursor))
  }

  /** The worker takes the pending request (pktgen-pcap.c:457-460). */
  function Take(cfg: Config, s: State): (r: State)
    requires Shape(cfg, s) && s.request >= 0
    ensures Shape(cfg, r)
  {
    s.(request := -1, inProgress := s.request, worker := Loading(s.request))
  }

  /** The worker starts on the section it took. */
  function Reset(cfg: Config, s: State): (r: State)
    requires Shape(cfg, s) && s.worker.Loading?
    ensures Shape(cfg, r)
  {
    ResetSection(cfg, s, s.worker.sec).(worker := Filling(s.worker.sec, 0))
  }

  /** The worker loads the next buffer of its section. */
  function Fill(cfg: Config, s: State): (r: Option<State>)
    requires Shape(cfg, s) && s.worker.Filling? && s.worker.slot < cfg.caps[s.worker.target]
    ensures r.Some? ==> Shape(cfg, r.value)
  {
    match FillSlot(cfg, s, s.worker.target, s.worker.slot)
    case None => None
    case Some(s') => Some(s'.(worker := Filling(s.worker.target, s.worker.slot + 1)))
  }

  /** The worker unlocks the section and broadcasts (pktgen-pcap.c:464-468). */
  function Finish(cfg: Config, s: State): (r: State)
    requires Shape(cfg, s) && s.worker.Filling?
    ensures Shape(cfg, r)
  {
    var i := s.worker.target;
    SetSec(s, i, s.secs[i].(locked := false)).(inProgress := -1, worker := Waiting, woken := true)
  }

  // --------------------------------------------------------------------- NIC

  /** The oldest buffer handed over leaves the port with the data it then holds. */
  function Transmit(cfg: Config, s: State): (r: State)
    requires Shape(cfg, s) && s.nic != []
    ensures Shape(cfg, r)
  {
    var b := s.nic[0];
    s.(nic := s.nic[1..], done := s.done + [b], wire := s.wire + [s.secs[b.sec].slots[b.slot]])
  }

  /** The oldest buffer sent returns to the tail of its pool's FIFO. */
  function Free(cfg: Config, s: State): (r: State)
    requires Shape(cfg, s) && s.done != []
    ensures Shape(cfg, r)
  {
    var b := s.done[0];
    var sec := s.secs[b.sec];
    SetSec(s, b.sec, sec.(free := sec.free + [b.slot])).(done := s.done[1..])
  }

  // ------------------------------------------------------------- command line

  /** pktgen_start_transmitting; a transmit_count of 0 means forever. */
  function StartSending(s: State, count: nat): State {
    s.(sending := true, quota := if count == 0 then Forever else Count(count))
  }

  /** pktgen_stop_transmitting clears SENDING_PACKETS and SEND_FOREVER. */
  function StopSending(s: State): State {
    s.(sending := false, quota := if s.quota.Forever? then Count(0) else s.quota)
  }

  // -------------------------------------------------------------------- steps

  /** The effect of a label, or None when its action is not enabled (or exits). */
  function Next(cfg: Config, s: State, l: Label): (r: Option<State>)
    requires Shape(cfg, s)
    ensures r.Some? ==> Shape(cfg, r.value)
  {
    match l
    case TxTest => if s.tx.Testing? && s.sending then Some(Test(cfg, s)) else None
    case TxRecheck => if s.tx.Rechecking? then Some(Recheck(cfg, s)) else None
    case TxWake => if s.tx.AwaitLoad? || s.tx.AwaitUnlock? then Some(Wake(cfg, s)) else None
    case TxSend => if s.tx.Sending? then Some(Send(cfg, s)) else None
    case WorkerTake =>
      if s.worker.Waiting? && s.request >= 0 && !s.tx.Rechecking? then Some(Take(cfg, s)) else None
    case WorkerReset => if s.worker.Loading? then Some(Reset(cfg, s)) else None
    case WorkerFill =>
      if s.worker.Filling? && s.worker.slot < cfg.caps[s.worker.target] then Fill(cfg, s) else None
    case WorkerFinish =>
      if s.worker.Filling? && s.worker.slot >= cfg.caps[s.worker.target] && !s.tx.Rechecking?
      then Some(Finish(cfg, s)) else None
    case NicTransmit => if s.nic != [] then Some(Transmit(cfg, s)) else None
    case NicFree => if s.done != [] then Some(Free(cfg, s)) else None
    case Start(count) => if s.sending then None else Some(StartSending(s, count))
    case Stop => if s.sending then Some(StopSending(s)) else None
  }

  // ------------------------------------------------------------------ set-up

  function EmptySection(cap: nat): Section {
    Section(cap, 0, 0, false, seq(cap, _ => []), seq(cap, i => i))
  }

  /** pktgen_pcap_add and the pools just created, before any load. */
  function Created(cfg: Config, at: Cursor): State
    requires |cfg.caps| == 2
  {
    State([EmptySection(cfg.caps[0]), EmptySection(cfg.caps[1])], 0, 0, -1, -1, 1, Waiting, at,
          Testing, false, false, Count(0), [], [], [], [])
  }

  function FillFrom(cfg: Config, s: State, i: nat, slot: nat): (r: Option<State>)
    requires Shape(cfg, s) && i < 2 && slot <= cfg.caps[i]
    ensures r.Some? ==> Shape(cfg, r.value)
    decreases cfg.caps[i] - slot
  {
    if slot == cfg.caps[i] then Some(s)
    else
      match FillSlot(cfg, s, i, slot)
      case None => None
      case Some(s') => FillFrom(cfg, s', i, slot + 1)
  }

  /** pcap_load_section, uninterrupted. */
  function LoadSection(cfg: Config, s: State, i: nat): (r: Option<State>)
    requires Shape(cfg, s) && i < 2
    ensures r.Some? ==> Shape(cfg, r.value)
  {
    FillFrom(cfg, ResetSection(cfg, s, i), i, 0)
  }

  ghost predicate Usable(cfg: Config) {
    && |cfg.caps| == 2 && cfg.caps[0] > 0 && cfg.burst > 0
    && Startable(cfg.files) && |cfg.files| > 0
  }

  /** The state pktgen_pcap_open leaves, or None when it exits. */
  function Opened(cfg: Config): (r: Option<State>)
    requires Usable(cfg)
    ensures r.Some? ==> Shape(cfg, r.value)
  {
    match Open(cfg.files, 0)
    case None => None
    case Some(at) =>
      match LoadSection(cfg, Created(cfg, at), 0)
      case None => None
      case Some(s) =>
        match (if cfg.caps[1] > 0 then LoadSection(cfg, s, 1) else Some(s))
        case None => None
        case Some(s') => Some(s'.(passes := [s'.secs[0].chunk]))
  }

  /** The state after a schedule, or None when some label of it is not enabled. */
  function Run(cfg: Config, ls: seq<Label>): (r: Option<State>)
    requires Usable(cfg)
    ensures r.Some? ==> Shape(cfg, r.value)
  {
    if ls == [] then Opened(cfg)
    else
      match Run(cfg, ls[..|ls| - 1])
      case None => None
      case Some(s) => Next(cfg, s, ls[|ls| - 1])
  }

  // ----------------------------------------------------------------- hazards

  /** The transmitter passes its load-count test while the next section is still locked. */
  ghost predicate Race(cfg: Config, s: State, l: Label)
    requires Shape(cfg, s)
  {
    && ((l.TxRecheck? && s.tx.Rechecking?) || (l.TxWake? && s.tx.AwaitLoad?))
    && s.secs[NextSection(s)].loaded != 0
    && s.secs[NextSection(s)].locked
  }

  /** The worker overwrites a buffer the NIC has yet to send. */
  ghost predicate Overwrite(s: State, l: Label) {
    l.WorkerFill? && s.worker.Filling? && Buf(s.worker.target, s.worker.slot) in s.nic
  }

  /** A burst is taken that goes on past the end of the section. */
  ghost predicate Overrun(cfg: Config, s: State, l: Label)
    requires Shape(cfg, s)
  {
    && l.TxSend? && s.tx.Sending?
    && 0 < Draw(cfg, s.quota) <= |s.secs[s.active].free|
    && s.index + Draw(cfg, s.quota) > cfg.caps[s.active]
  }

  /** Transmission is started within a section, between two bursts' boundaries. */
  ghost predicate MisalignedStart(cfg: Config, s: State, l: Label)
    requires Shape(cfg, s) && cfg.burst > 0
  {
    l.Start? && s.index < cfg.caps[s.active] && Wrap(s.index, cfg.burst) != 0
  }

  /** A burst is taken while the NIC still holds buffers of an earlier one. This harms nothing;
      without it the NIC never holds more than one burst. */
  ghost predicate Backlog(cfg: Config, s: State, l: Label)
    requires Shape(cfg, s)
  {
    l.TxSend? && s.tx.Sending? && 0 < Draw(cfg, s.quota) <= |s.secs[s.active].free| && s.nic != []
  }

  datatype Hazard = Racing | Overwriting | Overrunning | Misaligned | Backlogged

  ghost predicate Hits(cfg: Config, s: State, l: Label, h: Hazard)
    requires Shape(cfg, s) && cfg.burst > 0
  {
    match h
    case Racing => Race(cfg, s, l)
    case Overwriting => Overwrite(s, l)
    case Overrunning => Overrun(cfg, s, l)
    case Misaligned => MisalignedStart(cfg, s, l)
    case Backlogged => Backlog(cfg, s, l)
  }

  /** The step hits none of the hazards `hs`. */
  ghost predicate Clears(cfg: Config, s: State, l: Label, hs: set<Hazard>)
    requires Shape(cfg, s) && cfg.burst > 0
  {
    forall h :: h in hs ==> !Hits(cfg, s, l, h)
  }

  /** No step of the schedule hits one of the hazards `hs` where it is taken. */
  ghost predicate Avoids(cfg: Config, ls: seq<Label>, hs: set<Hazard>)
    requires Usable(cfg)
  {
    ls == [] ||
    var before := ls[..|ls| - 1];
    && Avoids(cfg, before, hs)
    && (Run(cfg, before).Some? ==> Clears(cfg, Run(cfg, before).value, ls[|ls| - 1], hs))
  }

  /** A race-free schedule may overwrite buffers, overrun sections and start anywhere; a clean
      one neither races nor overwrites nor overruns. */
  ghost predicate RaceFree(cfg: Config, ls: seq<Label>)
    requires Usable(cfg)
  {
    Avoids(cfg, ls, {Racing})
  }

  ghost predicate CleanRun(cfg: Config, ls: seq<Label>)
    requires Usable(cfg)
  {
    Avoids(cfg, ls, {Racing, Overwriting, Overrunning})
  }

  lemma {:induction false} AvoidsFewer(cfg: Config, ls: seq<Label>, hs: set<Hazard>, fewer: set<Hazard>)
    requires Usable(cfg) && Avoids(cfg, ls, hs) && fewer <= hs
    ensures Avoids(cfg, ls, fewer)
  {
    hide Run, Hits;
    if ls != [] {
      AvoidsFewer(cfg, ls[..|ls| - 1], hs, fewer);
    }
  }

  lemma AvoidsLast(cfg: Config, ls: seq<Label>, l: Label, hs: set<Hazard>)
    requires Usable(cfg) && Avoids(cfg, ls + [l], hs)
    ensures Avoids(cfg, ls, hs)
    ensures Run(cfg, ls).Some? ==> Clears(cfg, Run(cfg, ls).value, l, hs)
    ensures Run(cfg, ls + [l]) == if Run(cfg, ls).Some? then Next(cfg, Run(cfg, ls).value, l) else None
  {
    hide Clears, Next, Opened;
    assert (ls + [l])[..|ls|] == ls;
  }

  /** A schedule avoids several hazards if it avoids some of them and the rest. */
  lemma {:induction false} AvoidsBoth(cfg: Config, ls: seq<Label>, hs: set<Hazard>, more: set<Hazard>)
    requires Usable(cfg) && Avoids(cfg, ls, hs) && Avoids(cfg, ls, more)
    ensures Avoids(cfg, ls, hs + more)
  {
    hide Run, Hits;
    if ls != [] {
      AvoidsBoth(cfg, ls[..|ls| - 1], hs, more);
    }
  }
}
