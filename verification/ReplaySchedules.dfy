/** Schedules built for arbitrary two-section configurations, out of parts of a section sent and
    returned. They hand over each burst with the NIC empty, so they need room for one burst in the
    NIC and no more. */
module ReplaySchedules {
  import opened Arith
  import opened Bytes
  import opened PcapFile
  import opened PcapReader
  import opened Replay
  import opened ReplayControl
  import opened ReplaySafety
  import opened ReplayLiveness
  import opened ReplayBursts

  /** Apart from what left the port and where free buffers are, the states agree. */
  ghost predicate SameBut(s: State, s': State) {
    && |s.secs| == |s'.secs| == 2
    && s' == s.(secs := s'.secs, nic := s'.nic, done := s'.done, wire := s'.wire)
    && forall i :: 0 <= i < 2 ==> s'.secs[i] == s.secs[i].(free := s'.secs[i].free)
  }

  ghost predicate Idle(s: State) {
    s.nic == [] && s.done == []
  }

  // -------------------------------------------------------------- steps without hazard

  /** A step that is neither a second read, a wakeup, a fill, a burst nor a start hits nothing. */
  lemma HarmlessClears(cfg: Config, s: State, l: Label, hs: set<Hazard>)
    requires Shape(cfg, s) && cfg.burst > 0
    requires !l.TxRecheck? && !l.TxWake? && !l.WorkerFill? && !l.TxSend? && !l.Start?
    ensures Clears(cfg, s, l, hs)
  {
    hide Shape;
  }

  lemma SendClears(cfg: Config, s: State, hs: set<Hazard>)
    requires Shape(cfg, s) && cfg.burst > 0 && (Overrunning in hs ==> !Overrun(cfg, s, TxSend))
    requires Backlogged in hs ==> !Backlog(cfg, s, TxSend)
    ensures Clears(cfg, s, TxSend, hs)
  {
    hide Shape;
  }

  lemma StartClears(cfg: Config, s: State, count: nat, hs: set<Hazard>)
    requires Shape(cfg, s) && cfg.burst > 0 && (Misaligned in hs ==> !MisalignedStart(cfg, s, Start(count)))
    ensures Clears(cfg, s, Start(count), hs)
  {
    hide Shape;
  }

  lemma FillClears(cfg: Config, s: State, hs: set<Hazard>)
    requires Shape(cfg, s) && cfg.burst > 0 && (Overwriting in hs ==> !Overwrite(s, WorkerFill))
    ensures Clears(cfg, s, WorkerFill, hs)
  {
    hide Shape, Overwrite;
  }

  lemma TransmitFrame(cfg: Config, s: State)
    requires Shape(cfg, s) && s.nic != []
    ensures Next(cfg, s, NicTransmit) == Some(Transmit(cfg, s))
    ensures var s' := Transmit(cfg, s);
            && SameBut(s, s') && |s'.wire| + |s'.nic| == |s.wire| + |s.nic|
            && |s'.nic| == |s.nic| - 1 && |s'.done| == |s.done| + 1
  {
    hide Readable, ValidBufs, ValidSlots;
  }

  lemma FreeFrame(cfg: Config, s: State)
    requires Shape(cfg, s) && s.done != []
    ensures Next(cfg, s, NicFree) == Some(Free(cfg, s))
    ensures var s' := Free(cfg, s);
            && SameBut(s, s') && s'.wire == s.wire && s'.nic == s.nic && |s'.done| == |s.done| - 1
  {
    hide Readable, ValidBufs, ValidSlots;
  }

  lemma IdleOrder(s: State)
    requires |s.secs| == 2 && Idle(s)
    ensures forall i :: 0 <= i < 2 ==> Order(s, i) == s.secs[i].free
  {
  }

  // ------------------------------------------------------ room for one burst

  lemma DrawnBurst(cfg: Config, q: Quota)
    ensures Draw(cfg, q) <= cfg.burst
  {
  }

  lemma StepRoom(cfg: Config, s: State, l: Label)
    requires Shape(cfg, s) && !Backlog(cfg, s, l) && Next(cfg, s, l).Some? && |s.nic| <= cfg.burst
    ensures |Next(cfg, s, l).value.nic| <= cfg.burst
  {
    hide Readable, ValidBufs, ValidSlots, ReadNext, Draw;
    DrawnBurst(cfg, s.quota);
  }

  lemma OpenedRoom(cfg: Config)
    requires BothExist(cfg)
    ensures Opened(cfg).Some? && Opened(cfg).value.nic == []
  {
    hide Opened, Source, Readable, Holds, HasRead;
    OpensReplay(cfg);
  }

  /** A schedule that hands over a burst only when the NIC is empty never needs more room there
      than one burst takes. */
  lemma {:induction false} OneBurstInNic(cfg: Config, ls: seq<Label>)
    requires BothExist(cfg) && Avoids(cfg, ls, {Backlogged}) && Run(cfg, ls).Some?
    ensures |Run(cfg, ls).value.nic| <= cfg.burst
  {
    hide Clears, Next, Opened, Source, Backlog;
    if ls == [] {
      OpenedRoom(cfg);
    } else {
      var before, l := ls[..|ls| - 1], ls[|ls| - 1];
      OneBurstInNic(cfg, before);
      ClearsEach(cfg, Run(cfg, before).value, l, {Backlogged});
      StepRoom(cfg, Run(cfg, before).value, l);
    }
  }

  // ------------------------------------------------------ building blocks

  /** The NIC sends and frees everything it was handed. */
  lemma Drain(cfg: Config, ls: seq<Label>, s: State, hs: set<Hazard>) returns (ls': seq<Label>, s': State)
    requires Usable(cfg) && Shape(cfg, s) && Reached(cfg, ls, s, hs)
    ensures Shape(cfg, s') && Reached(cfg, ls', s', hs) && SameBut(s, s') && Idle(s')
    ensures forall i :: 0 <= i < 2 ==> s'.secs[i].free == Order(s, i)
    ensures |s'.wire| == |s.wire| + |s.nic| && ls <= ls' && NoCommands(ls', |ls|)
    decreases 2 * |s.nic| + |s.done|
  {
    hide Reached, Order, Next, Clears, Readable, ValidBufs, ValidSlots, Transmit, Free;
    if s.nic != [] {
      TransmitFrame(cfg, s);
      HarmlessClears(cfg, s, NicTransmit, hs);
      ReachNext(cfg, ls, s, NicTransmit, hs);
      TransmitKeepsOrder(cfg, s, 0);
      TransmitKeepsOrder(cfg, s, 1);
      ls', s' := Drain(cfg, ls + [NicTransmit], Transmit(cfg, s), hs);
    } else if s.done != [] {
      FreeFrame(cfg, s);
      HarmlessClears(cfg, s, NicFree, hs);
      ReachNext(cfg, ls, s, NicFree, hs);
      FreeKeepsOrder(cfg, s, 0);
      FreeKeepsOrder(cfg, s, 1);
      ls', s' := Drain(cfg, ls + [NicFree], Free(cfg, s), hs);
    } else {
      ls', s' := ls, s;
      IdleOrder(s);
    }
  }

  // ------------------------------------------------------------ sending a count

  /** The state after `k` packets of the active section have been handed to the NIC. */
  function Handed(s: State, k: nat): State
    requires s.active < |s.secs| && k <= |s.secs[s.active].free|
  {
    var pool := s.secs[s.active];
    SetSec(s, s.active, pool.(free := pool.free[k..]))
    .(nic := s.nic + Bufs(s.active, pool.free[..k]), index := s.index + k)
  }

  /** `k` packets in bursts of `b` from packet index `index`: each burst starts before `cap`. */
  predicate StartsWithin(index: nat, k: nat, b: nat, cap: nat)
    requires b > 0
    decreases k
  {
    k == 0 || (index < cap && (k <= b || StartsWithin(index + b, k - b, b, cap)))
  }

  lemma {:induction false} WithinSection(index: nat, k: nat, b: nat, cap: nat)
    requires b > 0 && index + k <= cap
    ensures StartsWithin(index, k, b, cap)
    decreases k
  {
    if k > b {
      WithinSection(index + b, k - b, b, cap);
    }
  }

  lemma {:induction false} WholeBursts(index: nat, k: nat, b: nat, cap: nat)
    requires b > 0 && Wrap(k, b) == 0 && index + k < cap + b
    ensures StartsWithin(index, k, b, cap)
    decreases k
  {
    if k > b {
      WholeBursts(index + b, k - b, b, cap);
    }
  }

  /** Before the end of the section the decision goes straight on to sending. */
  lemma TestMidSection(cfg: Config, ls: seq<Label>, s: State, hs: set<Hazard>)
    requires Usable(cfg) && Shape(cfg, s) && Reached(cfg, ls, s, hs) && s.tx.Testing? && s.sending
    requires s.index < s.secs[s.active].loaded
    ensures Reached(cfg, ls + [TxTest], s.(tx := Sending), hs) && Shape(cfg, s.(tx := Sending))
  {
    hide Reached, Readable, ValidBufs, ValidSlots, Clears;
    HarmlessClears(cfg, s, TxTest, hs);
    ReachNext(cfg, ls, s, TxTest, hs);
  }

  lemma BurstHanded(cfg: Config, s: State, k: nat, n: nat)
    requires Shape(cfg, s) && s.tx.Sending? && s.quota == Count(k) && 0 < n == Draw(cfg, s.quota)
    requires n <= |s.secs[s.active].free|
    ensures Send(cfg, s) == Handed(s.(tx := Testing, quota := Count(k - n)), n)
  {
    hide Readable, ValidBufs, ValidSlots;
  }

  lemma BurstStarts(index: nat, k: nat, b: nat, cap: nat)
    requires b > 0 && k > 0 && StartsWithin(index, k, b, cap)
    ensures index < cap && StartsWithin(index + if k > b then b else k, k - if k > b then b else k, b, cap)
  {
  }

  lemma SendEnabled(cfg: Config, s: State)
    requires Shape(cfg, s) && s.tx.Sending?
    ensures Next(cfg, s, TxSend) == Some(Send(cfg, s))
  {
    hide Shape, Send;
  }

  function BurstOf(cfg: Config, k: nat): nat {
    if k > cfg.burst then cfg.burst else k
  }

  lemma BurstOfSome(cfg: Config, k: nat)
    requires cfg.burst > 0 && k > 0
    ensures 0 < BurstOf(cfg, k) <= k
  {
  }

  /** The first `k` packets of a count of `k + left` can be sent, in whole bursts if any are left. */
  ghost predicate CanPlay(cfg: Config, s: State, k: nat, left: nat, hs: set<Hazard>) {
    && Shape(cfg, s) && cfg.burst > 0 && Idle(s)
    && s.tx.Testing? && s.sending && s.quota == Count(k + left)
    && k <= s.secs[s.active].loaded == cfg.caps[s.active] == |s.secs[s.active].free|
    && (left == 0 || Wrap(k, cfg.burst) == 0)
    && StartsWithin(s.index, k, cfg.burst, cfg.caps[s.active])
    && (Overrunning in hs ==> s.index + k <= cfg.caps[s.active])
  }

  /** The state after `k` packets of a count have been sent and returned and `left` are left. */
  ghost predicate PartPlayed(s: State, s': State, k: nat, left: nat) {
    && SameBut(s.(index := s.index + k, quota := Count(left)), s') && Idle(s')
    && |s'.wire| == |s.wire| + k
    && forall i :: 0 <= i < 2 ==> |s'.secs[i].free| == |s.secs[i].free|
  }

  lemma HandedOrder(s: State, k: nat)
    requires |s.secs| == 2 && s.active < 2 && k <= |s.secs[s.active].free| && Idle(s)
    ensures forall i :: 0 <= i < 2 ==> |Order(Handed(s, k), i)| == |s.secs[i].free|
  {
    var free := s.secs[s.active].free;
    SelOfBufs([], s.active, free[..k], 0);
    SelOfBufs([], s.active, free[..k], 1);
    assert [] + Bufs(s.active, free[..k]) == Handed(s, k).nic;
    hide Bufs;
  }

  /** One burst of `n`, sent and returned. */
  lemma BurstReturned(s: State, s1: State, s': State, n: nat, left: nat)
    requires |s.secs| == 2 && s.active < 2 && n <= |s.secs[s.active].free| && Idle(s) && s.tx.Testing?
    requires s1 == Handed(s.(tx := Testing, quota := Count(left)), n)
    requires SameBut(s1, s') && Idle(s') && |s'.wire| == |s1.wire| + |s1.nic|
    requires forall i :: 0 <= i < 2 ==> s'.secs[i].free == Order(s1, i)
    ensures PartPlayed(s, s', n, left)
  {
    hide Order, Bufs;
    HandedOrder(s, n);
    SameQueues(s, s1, n, left);
  }

  lemma SameQueues(s: State, s1: State, n: nat, left: nat)
    requires |s.secs| == 2 && s.active < 2 && n <= |s.secs[s.active].free|
    requires s1 == Handed(s.(tx := Testing, quota := Count(left)), n)
    ensures forall i :: 0 <= i < 2 ==> Order(s1, i) == Order(Handed(s, n), i)
  {
    hide Sel, Bufs;
  }

  /** The decision and one burst, handed to an empty NIC. */
  lemma OneBurst(cfg: Config, ls: seq<Label>, s: State, n: nat, left: nat, hs: set<Hazard>)
    requires Usable(cfg) && Shape(cfg, s) && Reached(cfg, ls, s, hs) && Idle(s)
    requires s.tx.Testing? && s.sending && s.quota == Count(n + left) && 0 < n == Draw(cfg, s.quota)
    requires n <= |s.secs[s.active].free| && s.index < s.secs[s.active].loaded
    requires Overrunning in hs ==> s.index + n <= cfg.caps[s.active]
    ensures s.active < |s.secs|
    ensures var s1 := Handed(s.(tx := Testing, quota := Count(left)), n);
      Shape(cfg, s1) && Reached(cfg, ls + [TxTest] + [TxSend], s1, hs)
  {
    assert s.active < |s.secs|;
    hide Reached, Shape, Next, Clears, Send, Handed;
    var s1 := s.(tx := Sending);
    TestMidSection(cfg, ls, s, hs);
    SendClears(cfg, s1, hs);
    SendEnabled(cfg, s1);
    ReachNext(cfg, ls + [TxTest], s1, TxSend, hs);
    BurstHanded(cfg, s1, n + left, n);
    SameTesting(s, n, left);
  }

  lemma SameTesting(s: State, n: nat, left: nat)
    requires s.active < |s.secs| && n <= |s.secs[s.active].free|
    ensures s.(tx := Sending).(tx := Testing, quota := Count(left)) == s.(tx := Testing, quota := Count(left))
  {
  }

  lemma CanPlayFacts(cfg: Config, s: State, k: nat, left: nat, hs: set<Hazard>)
    requires CanPlay(cfg, s, k, left, hs)
    ensures Shape(cfg, s) && s.active < |s.secs| == |cfg.caps| == 2 && cfg.burst > 0 && Idle(s)
    ensures s.tx.Testing? && s.sending && s.quota == Count(k + left) && k <= |s.secs[s.active].free|
    ensures s.secs[s.active].loaded == cfg.caps[s.active]
    ensures StartsWithin(s.index, k, cfg.burst, cfg.caps[s.active])
    ensures Overrunning in hs ==> s.index + k <= cfg.caps[s.active]
    ensures k > 0 ==> Draw(cfg, s.quota) == BurstOf(cfg, k)
  {
    hide Readable, ValidBufs, ValidSlots, StartsWithin;
  }

  /** One burst on, the rest can be played. */
  lemma CanPlayOn(cfg: Config, s: State, s2: State, k: nat, left: nat, hs: set<Hazard>)
    requires CanPlay(cfg, s, k, left, hs) && k > 0 && Shape(cfg, s2)
    requires BurstOf(cfg, k) <= k && PartPlayed(s, s2, BurstOf(cfg, k), k - BurstOf(cfg, k) + left)
    ensures CanPlay(cfg, s2, k - BurstOf(cfg, k), left, hs)
  {
    hide Readable, ValidBufs, ValidSlots, StartsWithin;
    BurstStarts(s.index, k, cfg.burst, cfg.caps[s.active]);
  }

  lemma PartsJoin(s: State, s1: State, s2: State, n: nat, k: nat, left: nat, rest: nat)
    requires PartPlayed(s, s1, n, left) && PartPlayed(s1, s2, k, rest)
    ensures PartPlayed(s, s2, n + k, rest)
  {
  }

  lemma NothingPlayed(s: State, left: nat)
    requires |s.secs| == 2 && Idle(s) && s.quota == Count(left)
    ensures PartPlayed(s, s, 0, left)
  {
  }

  /** The first `k` packets of a count: burst by burst, each sent and returned before the next. */
  lemma {:induction false} PlayBursts(cfg: Config, ls: seq<Label>, s: State, k: nat, left: nat, hs: set<Hazard>)
    returns (ls': seq<Label>, s': State)
    requires Usable(cfg) && Reached(cfg, ls, s, hs) && CanPlay(cfg, s, k, left, hs)
    ensures Shape(cfg, s') && Reached(cfg, ls', s', hs) && PartPlayed(s, s', k, left)
    decreases k
  {
    hide *;
    CanPlayFacts(cfg, s, k, left, hs);
    if k == 0 {
      ls', s' := ls, s;
      NothingPlayed(s, left);
    } else {
      var n := BurstOf(cfg, k);
      BurstOfSome(cfg, k);
      BurstStarts(s.index, k, cfg.burst, cfg.caps[s.active]);
      BurstFitsIn(cfg, s, k, n, hs);
      OneBurst(cfg, ls, s, n, k - n + left, hs);
      var s1 := Handed(s.(tx := Testing, quota := Count(k - n + left)), n);
      var ls2, s2 := Drain(cfg, ls + [TxTest] + [TxSend], s1, hs);
      BurstReturned(s, s1, s2, n, k - n + left);
      CanPlayOn(cfg, s, s2, k, left, hs);
      ls', s' := PlayBursts(cfg, ls2, s2, k - n, left, hs);
      PartsJoin(s, s2, s', n, k - n, k - n + left, left);
    }
  }

  lemma BurstFitsIn(cfg: Config, s: State, k: nat, n: nat, hs: set<Hazard>)
    requires s.active < |s.secs| == |cfg.caps| && n <= k
    requires Overrunning in hs ==> s.index + k <= cfg.caps[s.active]
    ensures Overrunning in hs ==> s.index + n <= cfg.caps[s.active]
  {
  }

  // ------------------------------------------------------ parts of a section, played out

  /** The transmitter is stopped and every buffer of its section is back. */
  ghost predicate Stopped(cfg: Config, s: State) {
    && Shape(cfg, s) && cfg.burst > 0 && s.tx.Testing? && !s.sending && Idle(s)
    && s.secs[s.active].loaded == cfg.caps[s.active] == |s.secs[s.active].free|
  }

  /** The state after `k` packets have been started, sent and returned. */
  ghost predicate Played(s: State, s': State, k: nat) {
    && SameBut(s.(index := s.index + k, sending := true, quota := Count(0)), s') && Idle(s')
    && |s'.wire| == |s.wire| + k
    && forall i :: 0 <= i < 2 ==> |s'.secs[i].free| == |s.secs[i].free|
  }

  lemma StartCount(cfg: Config, ls: seq<Label>, s: State, k: nat, hs: set<Hazard>)
    requires Usable(cfg) && Reached(cfg, ls, s, hs) && Stopped(cfg, s) && 0 < k <= cfg.caps[s.active]
    requires StartsWithin(s.index, k, cfg.burst, cfg.caps[s.active])
    requires Overrunning in hs ==> s.index + k <= cfg.caps[s.active]
    requires Misaligned in hs ==> Wrap(s.index, cfg.burst) == 0
    ensures Reached(cfg, ls + [Start(k)], StartSending(s, k), hs) && CanPlay(cfg, StartSending(s, k), k, 0, hs)
    ensures Shape(cfg, StartSending(s, k))
  {
    hide Reached, Clears, StartsWithin, Readable, ValidBufs, ValidSlots, Wrap;
    StartClears(cfg, s, k, hs);
    ReachNext(cfg, ls, s, Start(k), hs);
  }

  /** Start a count, send it all, and let the NIC send and return it all. */
  lemma PlayPart(cfg: Config, ls: seq<Label>, s: State, k: nat, hs: set<Hazard>) returns (ls': seq<Label>, s': State)
    requires Usable(cfg) && Reached(cfg, ls, s, hs) && Stopped(cfg, s) && 0 < k <= cfg.caps[s.active]
    requires StartsWithin(s.index, k, cfg.burst, cfg.caps[s.active])
    requires Overrunning in hs ==> s.index + k <= cfg.caps[s.active]
    requires Misaligned in hs ==> Wrap(s.index, cfg.burst) == 0
    ensures Shape(cfg, s') && Reached(cfg, ls', s', hs) && Played(s, s', k)
  {
    hide *;
    StartCount(cfg, ls, s, k, hs);
    ls', s' := PlayBursts(cfg, ls + [Start(k)], StartSending(s, k), k, 0, hs);
    PlayedFromStart(s, s', k);
  }

  lemma PlayedFromStart(s: State, s': State, k: nat)
    requires k > 0 && PartPlayed(StartSending(s, k), s', k, 0)
    ensures Played(s, s', k)
  {
  }

  /** In the middle of a section, a count that has run out stops the transmission. */
  lemma StopMidSection(cfg: Config, ls: seq<Label>, s: State, hs: set<Hazard>)
    requires Usable(cfg) && Shape(cfg, s) && Reached(cfg, ls, s, hs)
    requires s.tx.Testing? && s.sending && s.quota == Count(0) && s.index < s.secs[s.active].loaded
    ensures Reached(cfg, ls + [TxTest] + [TxSend], s.(sending := false), hs) && Shape(cfg, s.(sending := false))
  {
    hide Reached, Readable, ValidBufs, ValidSlots, Clears;
    TestMidSection(cfg, ls, s, hs);
    var s1 := s.(tx := Sending);
    SendClears(cfg, s1, hs);
    ReachNext(cfg, ls + [TxTest], s1, TxSend, hs);
    assert Send(cfg, s1) == s.(sending := false);
  }

  /** The state in the next section, transmission stopped. */
  function Entered(cfg: Config, s: State): State
    requires Shape(cfg, s)
  {
    Switch(cfg, s).(tx := Testing, sending := false)
  }

  /** At the end of a section the decision enters the next one if it is ready. */
  lemma SwitchNow(cfg: Config, ls: seq<Label>, s: State, hs: set<Hazard>)
    requires Usable(cfg) && Shape(cfg, s) && Reached(cfg, ls, s, hs) && s.tx.Testing? && s.sending
    requires s.index >= s.secs[s.active].loaded
    requires var o := NextSection(s); s.secs[o].cap > 0 && s.secs[o].loaded > 0 && !s.secs[o].locked
    ensures Next(cfg, s, TxTest) == Some(Switch(cfg, s))
    ensures Reached(cfg, ls + [TxTest], Switch(cfg, s), hs)
  {
    hide Reached, Readable, ValidBufs, ValidSlots, Clears;
    HarmlessClears(cfg, s, TxTest, hs);
    ReachNext(cfg, ls, s, TxTest, hs);
  }

  lemma EnterNext(cfg: Config, ls: seq<Label>, s: State, hs: set<Hazard>)
    requires Usable(cfg) && Shape(cfg, s) && Reached(cfg, ls, s, hs) && s.tx.Testing? && s.sending
    requires s.index >= s.secs[s.active].loaded && s.quota == Count(0)
    requires var o := NextSection(s); s.secs[o].cap > 0 && s.secs[o].loaded > 0 && !s.secs[o].locked
    ensures Shape(cfg, Entered(cfg, s)) && Reached(cfg, ls + [TxTest] + [TxSend], Entered(cfg, s), hs)
  {
    hide Reached, Readable, ValidBufs, ValidSlots, Clears;
    SwitchNow(cfg, ls, s, hs);
    var s1 := Switch(cfg, s);
    SendClears(cfg, s1, hs);
    ReachNext(cfg, ls + [TxTest], s1, TxSend, hs);
    assert Send(cfg, s1) == Entered(cfg, s);
  }

  // ------------------------------------------------------------- the first two passes

  /** Just opened: stopped at the start of the first section, nothing asked of the worker. */
  lemma StartUp(cfg: Config, hs: set<Hazard>) returns (s: State)
    requires BothExist(cfg)
    ensures Reached(cfg, [], s, hs) && Stopped(cfg, s) && JustOpened(cfg, s)
  {
    hide Opened, HasRead, Source, Readable, ValidBufs, ValidSlots, Holds;
    OpensReplay(cfg);
    s := Opened(cfg).value;
  }

  /** The first section sent and all its buffers returned, the second entered. */
  lemma ToSecond(cfg: Config, hs: set<Hazard>) returns (ls: seq<Label>, s: State)
    requires BothExist(cfg)
    ensures Reached(cfg, ls, s, hs) && Stopped(cfg, s) && s.active == 1 && s.index == 0
    ensures s.request == 0 && s.inProgress == -1 && s.worker == Worker.Waiting
    ensures s.secs[0].locked && s.secs[0].loaded == cfg.caps[0] && Holds(cfg, s.secs[0], cfg.caps[0], 0)
    ensures |s.wire| == cfg.caps[0] && |s.passes| == 2
  {
    hide Reached, Source, StartsWithin, Wrap, Holds;
    var s0 := StartUp(cfg, hs);
    WithinSection(0, cfg.caps[0], cfg.burst, cfg.caps[0]);
    NothingLeft(cfg.burst);
    FirstFacts(cfg, s0);
    var ls1, s1 := PlayPart(cfg, [], s0, cfg.caps[0], hs);
    FirstPlayed(cfg, s0, s1);
    EnterNext(cfg, ls1, s1, hs);
    ls, s := ls1 + [TxTest] + [TxSend], Entered(cfg, s1);
    SecondFacts(cfg, s1);
  }

  lemma FirstFacts(cfg: Config, s: State)
    requires BothExist(cfg) && Stopped(cfg, s) && JustOpened(cfg, s)
    ensures s.active == 0 && s.index == 0 && s.request == -1 && s.inProgress == -1 && s.worker == Worker.Waiting
    ensures forall i :: 0 <= i < 2 ==>
      s.secs[i].loaded == cfg.caps[i] == |s.secs[i].free| && !s.secs[i].locked && s.secs[i].cap == cfg.caps[i]
  {
    hide HasRead, Source, Readable, ValidBufs, ValidSlots, Holds;
  }

  /** The first section has been played out. */
  ghost predicate FirstDone(cfg: Config, s: State)
    requires |cfg.caps| == 2 && Source(cfg.files)
  {
    && |s.secs| > 0 && Holds(cfg, s.secs[0], cfg.caps[0], 0) && |s.wire| == cfg.caps[0] && |s.passes| == 1
    && |s.secs| == 2 && s.active == 0 && s.tx.Testing? && s.sending && s.quota == Count(0) && Idle(s)
    && s.request == -1 && s.inProgress == -1 && s.worker == Worker.Waiting
    && s.index == cfg.caps[0]
    && forall i :: 0 <= i < 2 ==>
         s.secs[i].loaded == cfg.caps[i] == |s.secs[i].free| && !s.secs[i].locked && s.secs[i].cap == cfg.caps[i]
  }

  lemma FirstPlayed(cfg: Config, s0: State, s1: State)
    requires BothExist(cfg) && Stopped(cfg, s0) && JustOpened(cfg, s0) && Played(s0, s1, cfg.caps[0])
    ensures FirstDone(cfg, s1)
  {
    hide HasRead, Source, Stream, Readable, ValidBufs, ValidSlots;
  }

  lemma SecondFacts(cfg: Config, s1: State)
    requires BothExist(cfg) && Shape(cfg, s1) && FirstDone(cfg, s1)
    ensures var s := Entered(cfg, s1);
      && Stopped(cfg, s) && s.active == 1 && s.index == 0
      && s.request == 0 && s.inProgress == -1 && s.worker == Worker.Waiting
      && s.secs[0].locked && s.secs[0].loaded == cfg.caps[0] && Holds(cfg, s.secs[0], cfg.caps[0], 0)
      && |s.wire| == cfg.caps[0] && |s.passes| == 2
  {
    hide HasRead, Source, Stream, Readable, ValidBufs, ValidSlots;
  }

  lemma BeforeTwo(cfg: Config)
    requires |cfg.caps| == 2
    ensures Before(cfg, 2) == cfg.caps[0] + cfg.caps[1]
  {
    assert Before(cfg, 1) == Before(cfg, 0) + cfg.caps[0];
  }

  lemma ReachedFewer(cfg: Config, ls: seq<Label>, s: State, hs: set<Hazard>, fewer: set<Hazard>)
    requires Usable(cfg) && Reached(cfg, ls, s, hs) && fewer <= hs
    ensures Reached(cfg, ls, s, fewer)
  {
    hide Run, Avoids;
    AvoidsFewer(cfg, ls, hs, fewer);
  }

  lemma ReachedRun(cfg: Config, ls: seq<Label>, s: State, hs: set<Hazard>)
    requires Usable(cfg) && Reached(cfg, ls, s, hs)
    ensures Run(cfg, ls) == Some(s) && Avoids(cfg, ls, hs)
  {
    hide Run, Avoids;
  }
}
