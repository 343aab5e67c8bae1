/** In every two-section configuration a race and an overwrite can happen, with room for one burst
    in the NIC, and what they send. */
module ReplayWitness {
  import opened Arith
  import opened Bytes
  import opened PcapFile
  import opened PcapReader
  import opened Replay
  import opened ReplayControl
  import opened ReplaySafety
  import opened ReplayLiveness
  import opened ReplayBursts
  import opened ReplaySchedules
  import opened ReplayProgress

  const EVERY_HAZARD := {Racing, Overwriting, Overrunning, Misaligned, Backlogged}
  const ALL_BUT_RACES := {Overwriting, Overrunning, Misaligned, Backlogged}
  const ALL_BUT_OVERWRITES := {Racing, Overrunning, Misaligned, Backlogged}

  // ---------------------------------------------------------------------- races

  /** Both sections sent once and returned, the first waiting to be refilled. */
  ghost predicate BothSent(cfg: Config, s: State)
    requires BothExist(cfg)
  {
    && Shape(cfg, s) && s.active == 1 && s.tx.Testing? && s.sending && Idle(s)
    && s.index == cfg.caps[1] == s.secs[1].loaded && |s.passes| == 2 && |s.wire| == cfg.caps[0] + cfg.caps[1]
    && s.request == 0 && s.inProgress == -1 && s.worker == Worker.Waiting && s.secs[0].locked
    && Holds(cfg, s.secs[0], cfg.caps[0], 0)
  }

  lemma SecondPlayed(cfg: Config, s: State, s': State)
    requires BothExist(cfg) && Shape(cfg, s') && Stopped(cfg, s) && s.active == 1 && s.index == 0
    requires Played(s, s', cfg.caps[1]) && |s.passes| == 2 && |s.wire| == cfg.caps[0]
    requires s.request == 0 && s.inProgress == -1 && s.worker == Worker.Waiting && s.secs[0].locked
    requires Holds(cfg, s.secs[0], cfg.caps[0], 0)
    ensures BothSent(cfg, s')
  {
    hide Source, Stream, Readable, ValidBufs, ValidSlots;
  }

  lemma SendsBoth(cfg: Config) returns (ls: seq<Label>, s: State)
    requires BothExist(cfg)
    ensures Reached(cfg, ls, s, EVERY_HAZARD) && BothSent(cfg, s)
  {
    hide Reached, Source, StartsWithin, Wrap, Holds;
    var ls1, s1 := ToSecond(cfg, EVERY_HAZARD);
    WithinSection(0, cfg.caps[1], cfg.burst, cfg.caps[1]);
    NothingLeft(cfg.burst);
    ls, s := PlayPart(cfg, ls1, s1, cfg.caps[1], EVERY_HAZARD);
    SecondPlayed(cfg, s1, s);
  }

  /** The transmitter has read a load count of 0 and is about to read it again, the worker has
      loaded `n` records into the section; the slots beyond still hold the first chunk. */
  ghost predicate AboutToRead(cfg: Config, s: State, n: nat)
    requires BothExist(cfg)
  {
    && Shape(cfg, s) && s.active == 1 && s.tx.Rechecking? && s.sending && Idle(s)
    && s.index == cfg.caps[1] && |s.passes| == 2 && |s.wire| == cfg.caps[0] + cfg.caps[1]
    && s.worker == Filling(0, n) && n == s.secs[0].loaded && s.secs[0].locked
    && |s.secs[0].slots| == cfg.caps[0]
    && (forall j :: n <= j < cfg.caps[0] ==> s.secs[0].slots[j] == Stream(cfg.files, j))
  }

  /** The worker takes the request and empties the section; the transmitter, at the end of the
      other, reads a load count of 0 and goes on to read it again. */
  lemma ReadsZero(cfg: Config, ls: seq<Label>, s: State, hs: set<Hazard>) returns (ls': seq<Label>, s': State)
    requires BothExist(cfg) && Reached(cfg, ls, s, hs) && BothSent(cfg, s)
    ensures Reached(cfg, ls', s', hs) && AboutToRead(cfg, s', 0)
  {
    hide Reached, Source, Readable, ValidBufs, ValidSlots, Clears, Stream, Holds;
    HarmlessClears(cfg, s, WorkerTake, hs);
    ReachNext(cfg, ls, s, WorkerTake, hs);
    var s1 := Take(cfg, s);
    HarmlessClears(cfg, s1, WorkerReset, hs);
    ReachNext(cfg, ls + [WorkerTake], s1, WorkerReset, hs);
    var s2 := Reset(cfg, s1);
    HarmlessClears(cfg, s2, TxTest, hs);
    ReachNext(cfg, ls + [WorkerTake] + [WorkerReset], s2, TxTest, hs);
    ls', s' := ls + [WorkerTake] + [WorkerReset] + [TxTest], Test(cfg, s2);
    HeldSlots(cfg, s.secs[0]);
  }

  lemma HeldSlots(cfg: Config, sec: Section)
    requires BothExist(cfg) && Holds(cfg, sec, cfg.caps[0], 0)
    ensures forall j :: 0 <= j < cfg.caps[0] && j < |sec.slots| ==> sec.slots[j] == Stream(cfg.files, j)
  {
    hide Source, Stream;
  }

  lemma LoadsOne(cfg: Config, ls: seq<Label>, s: State, hs: set<Hazard>) returns (ls': seq<Label>, s': State)
    requires BothExist(cfg) && Reached(cfg, ls, s, hs) && Racing in hs && AboutToRead(cfg, s, 0)
    ensures Reached(cfg, ls', s', hs) && AboutToRead(cfg, s', 1)
    ensures s'.secs[0].slots[0] == Stream(cfg.files, cfg.caps[0] + cfg.caps[1])
  {
    hide *;
    AboutFacts(cfg, s, 0);
    ReachedCore(cfg, ls, s, hs);
    RefillStep(cfg, s, 0);
    NothingWaiting(s);
    FillClears(cfg, s, hs);
    ReachNext(cfg, ls, s, WorkerFill, hs);
    ls', s' := ls + [WorkerFill], Fill(cfg, s).value;
    OneLoaded(cfg, s, s', Stream(cfg.files, cfg.caps[0] + cfg.caps[1]));
  }

  lemma AboutFacts(cfg: Config, s: State, n: nat)
    requires BothExist(cfg) && AboutToRead(cfg, s, n)
    ensures Usable(cfg) && Source(cfg.files) && |cfg.caps| == 2 && cfg.caps[0] > 0 && cfg.burst > 0
    ensures Shape(cfg, s) && s.active == 1 && s.nic == [] && |s.passes| == 2
    ensures s.worker == Filling(0, n) && s.tx.Rechecking? && s.sending && |s.secs| == 2
    ensures |s.secs[0].slots| == cfg.caps[0]
  {
    hide Source, Stream, Readable, ValidBufs, ValidSlots;
  }

  lemma NothingWaiting(s: State)
    requires s.nic == []
    ensures !Overwrite(s, WorkerFill)
  {
  }

  lemma OneLoaded(cfg: Config, s: State, s': State, data: Packet)
    requires BothExist(cfg) && AboutToRead(cfg, s, 0) && Shape(cfg, s') && s' == Filled(s, data, s'.cursor)
    ensures AboutToRead(cfg, s', 1) && s'.secs[0].slots[0] == data
  {
    hide Source, Stream, Readable, ValidBufs, ValidSlots;
  }

  lemma AboutToRace(cfg: Config, s: State)
    requires BothExist(cfg) && AboutToRead(cfg, s, 1)
    ensures Race(cfg, s, TxRecheck) && s.secs[0].loaded == 1
  {
    hide Source, Stream, Readable, ValidBufs, ValidSlots;
  }

  lemma OneRecordLoaded(cfg: Config) returns (ls: seq<Label>, s: State)
    requires BothExist(cfg)
    ensures Reached(cfg, ls, s, EVERY_HAZARD) && AboutToRead(cfg, s, 1)
    ensures s.secs[0].slots[0] == Stream(cfg.files, cfg.caps[0] + cfg.caps[1])
  {
    hide Reached, Source, Stream, BothSent, AboutToRead;
    var ls1, s1 := SendsBoth(cfg);
    var ls2, s2 := ReadsZero(cfg, ls1, s1, EVERY_HAZARD);
    ls, s := LoadsOne(cfg, ls2, s2, EVERY_HAZARD);
  }

  /** In every two-section configuration, whatever the burst, a schedule without any other
      hazard leads to a race: the transmitter reads a load count of 0, the worker loads one
      record, and the second read lets the transmitter into the section being filled. */
  lemma RaceReachable(cfg: Config) returns (ls: seq<Label>, s: State)
    requires BothExist(cfg)
    ensures Shape(cfg, s) && Reached(cfg, ls, s, EVERY_HAZARD) && Race(cfg, s, TxRecheck)
    ensures Next(cfg, s, TxRecheck).Some? && !Exclusive(cfg, Next(cfg, s, TxRecheck).value)
    ensures s.active == 1 && s.secs[0].loaded == 1
  {
    hide Reached, Source, Exclusive, AboutToRead, Next, Race, Shape;
    ls, s := OneRecordLoaded(cfg);
    AboutFacts(cfg, s, 1);
    AboutToRace(cfg, s);
    RaceEntersLockedSection(cfg, s, TxRecheck);
  }

  /** And no way is left but a race: when the worker has loaded that record the transmitter holds
      the mutex, so the worker cannot finish, and no continuation without a race lets another
      packet out, whatever the threads, the NIC and the command line do. */
  lemma RaceInevitable(cfg: Config) returns (ls: seq<Label>)
    requires BothExist(cfg)
    ensures Avoids(cfg, ls, EVERY_HAZARD) && Run(cfg, ls).Some?
    ensures forall more :: RaceFree(cfg, ls + more) && Run(cfg, ls + more).Some? ==>
              Run(cfg, ls + more).value.wire == Run(cfg, ls).value.wire
  {
    hide Reached, Source, AboutToRead, Run, Avoids, RaceFree, Doomed;
    var ls1, s := OneRecordLoaded(cfg);
    ls := ls1;
    AboutFacts(cfg, s, 1);
    ReachedRun(cfg, ls, s, EVERY_HAZARD);
    IsDoomed(cfg, s);
    forall more | RaceFree(cfg, ls + more) && Run(cfg, ls + more).Some?
      ensures Run(cfg, ls + more).value.wire == Run(cfg, ls).value.wire
    {
      DoomedStays(cfg, ls, more);
    }
  }

  lemma IsDoomed(cfg: Config, s: State)
    requires BothExist(cfg) && AboutToRead(cfg, s, 1)
    ensures s.active == 1 && |s.secs| == 2 && Doomed(s)
  {
    hide Source, Stream, Readable, ValidBufs, ValidSlots;
  }

  // ------------------------------------------------------ what a race sends

  /** A new count of `k`, given while the transmitter is at the end of a section. */
  lemma NewCount(cfg: Config, ls: seq<Label>, s: State, k: nat, hs: set<Hazard>)
    requires Usable(cfg) && Shape(cfg, s) && Reached(cfg, ls, s, hs) && s.sending && k > 0
    requires s.index >= cfg.caps[s.active]
    ensures Reached(cfg, ls + [Stop] + [Start(k)], s.(quota := Count(k)), hs) && Shape(cfg, s.(quota := Count(k)))
  {
    hide Reached, Readable, ValidBufs, ValidSlots, Clears;
    HarmlessClears(cfg, s, Stop, hs);
    ReachNext(cfg, ls, s, Stop, hs);
    var s1 := StopSending(s);
    StartClears(cfg, s1, k, hs);
    ReachNext(cfg, ls + [Stop], s1, Start(k), hs);
    assert StartSending(s1, k) == s.(quota := Count(k));
  }

  /** The first section entered by a race, two packets of it with the NIC. */
  ghost predicate TwoHanded(cfg: Config, s: State, a: Packet, b: Packet) {
    && Shape(cfg, s) && s.nic == [Buf(0, 0), Buf(0, 1)] && |s.secs[0].slots| >= 2
    && s.secs[0].slots[0] == a && s.secs[0].slots[1] == b
  }

  lemma EnteredByRace(cfg: Config, s: State)
    requires BothExist(cfg) && cfg.burst > 1 && cfg.caps[0] > 1 && AboutToRead(cfg, s, 1) && s.quota == Count(2)
    requires |s.secs| == 2 && |s.secs[0].free| >= 2 && s.secs[0].free[0] == 0 && s.secs[0].free[1] == 1
    ensures Shape(cfg, s) && Next(cfg, s, TxRecheck) == Some(Switch(cfg, s))
    ensures Next(cfg, Switch(cfg, s), TxSend) == Some(Send(cfg, Switch(cfg, s)))
    ensures !Overrun(cfg, Switch(cfg, s), TxSend) && !Backlog(cfg, Switch(cfg, s), TxSend)
    ensures var s2 := Send(cfg, Switch(cfg, s));
      s2.wire == s.wire && TwoHanded(cfg, s2, s.secs[0].slots[0], Stream(cfg.files, 1))
  {
    hide Source, Stream, Readable, ValidBufs, ValidSlots;
    assert Bufs(0, s.secs[0].free[..2]) == [Buf(0, 0), Buf(0, 1)];
  }

  lemma SendsTwo(cfg: Config, s: State, a: Packet, b: Packet)
    requires TwoHanded(cfg, s, a, b)
    ensures Shape(cfg, s) && s.nic != [] && Transmit(cfg, s).nic != []
    ensures Transmit(cfg, Transmit(cfg, s)).wire == s.wire + [a, b]
  {
    hide Readable, ValidBufs, ValidSlots;
  }

  lemma PoolAtStart(cfg: Config, ls: seq<Label>, s: State)
    requires BothExist(cfg) && Reached(cfg, ls, s, EVERY_HAZARD) && AboutToRead(cfg, s, 1)
    requires cfg.caps[0] > 1
    ensures |s.secs| == 2 && |s.secs[0].free| >= 2 && s.secs[0].free[0] == 0 && s.secs[0].free[1] == 1
  {
    AvoidsFewer(cfg, ls, EVERY_HAZARD, {Racing, Overrunning});
    RunTurns(cfg, ls);
    hide Run, Avoids, Core, Source, Stream, Readable, ValidBufs, ValidSlots, Circle;
    assert s.secs[0].free == Order(s, 0) == Circle(cfg.caps[0], 0);
    CircleAt(cfg.caps[0], 0, 0);
    CircleAt(cfg.caps[0], 0, 1);
  }

  /** The steps after the race, none of which is another hazard. */
  lemma AfterRace(cfg: Config, ls: seq<Label>, s: State, hs: set<Hazard>)
    requires BothExist(cfg) && Racing !in hs && Reached(cfg, ls, s, hs) && Shape(cfg, s)
    requires Next(cfg, s, TxRecheck) == Some(Switch(cfg, s))
    requires Next(cfg, Switch(cfg, s), TxSend) == Some(Send(cfg, Switch(cfg, s)))
    requires !Overrun(cfg, Switch(cfg, s), TxSend) && !Backlog(cfg, Switch(cfg, s), TxSend)
    requires var s2 := Send(cfg, Switch(cfg, s)); s2.nic != [] && Transmit(cfg, s2).nic != []
    ensures var s2 := Send(cfg, Switch(cfg, s));
      Reached(cfg, ls + [TxRecheck] + [TxSend] + [NicTransmit] + [NicTransmit], Transmit(cfg, Transmit(cfg, s2)), hs)
  {
    assert Usable(cfg) && cfg.burst > 0;
    hide *;
    RecheckClears(cfg, s, hs);
    ReachNext(cfg, ls, s, TxRecheck, hs);
    var s1 := Switch(cfg, s);
    SendClears(cfg, s1, hs);
    ReachNext(cfg, ls + [TxRecheck], s1, TxSend, hs);
    var s2 := Send(cfg, s1);
    HarmlessClears(cfg, s2, NicTransmit, hs);
    TransmitFrame(cfg, s2);
    ReachNext(cfg, ls + [TxRecheck] + [TxSend], s2, NicTransmit, hs);
    HarmlessClears(cfg, Transmit(cfg, s2), NicTransmit, hs);
    TransmitFrame(cfg, Transmit(cfg, s2));
    ReachNext(cfg, ls + [TxRecheck] + [TxSend] + [NicTransmit], Transmit(cfg, s2), NicTransmit, hs);
  }

  lemma RecheckClears(cfg: Config, s: State, hs: set<Hazard>)
    requires Shape(cfg, s) && cfg.burst > 0 && Racing !in hs
    ensures Clears(cfg, s, TxRecheck, hs)
  {
    hide Shape;
  }

  /** What a race sends: in every two-section configuration with bursts of at least two packets
      and two packets in the first section, a race is reached by a schedule without any hazard and
      followed by none, and record 1 goes out a second time, as packet c0 + c1 + 1. */
  lemma RaceSendsStale(cfg: Config) returns (ls: seq<Label>, s: State, s': State)
    requires BothExist(cfg) && cfg.burst > 1 && cfg.caps[0] > 1
    ensures Shape(cfg, s) && Reached(cfg, ls, s, EVERY_HAZARD) && Race(cfg, s, TxRecheck)
    ensures Reached(cfg, ls + [TxRecheck] + [TxSend] + [NicTransmit] + [NicTransmit], s', ALL_BUT_RACES)
    ensures |s.wire| == cfg.caps[0] + cfg.caps[1]
    ensures s'.wire == s.wire + [Stream(cfg.files, |s.wire|), Stream(cfg.files, 1)]
  {
    hide Reached, Source, Stream, AboutToRead, Next, Race, Shape, Switch, Send, Transmit, TwoHanded, Overrun, Backlog;
    var ls1, s1 := OneRecordLoaded(cfg);
    AboutFacts(cfg, s1, 1);
    PoolAtStart(cfg, ls1, s1);
    AboutIndex(cfg, s1);
    NewCount(cfg, ls1, s1, 2, EVERY_HAZARD);
    ls, s := ls1 + [Stop] + [Start(2)], s1.(quota := Count(2));
    SameAbout(cfg, s1);
    AboutToRace(cfg, s);
    EnteredByRace(cfg, s);
    var s2 := Send(cfg, Switch(cfg, s));
    SendsTwo(cfg, s2, s.secs[0].slots[0], Stream(cfg.files, 1));
    ReachedFewer(cfg, ls, s, EVERY_HAZARD, ALL_BUT_RACES);
    AfterRace(cfg, ls, s, ALL_BUT_RACES);
    s' := Transmit(cfg, Transmit(cfg, s2));
  }

  lemma AboutIndex(cfg: Config, s: State)
    requires BothExist(cfg) && AboutToRead(cfg, s, 1)
    ensures Shape(cfg, s) && s.active == 1 && s.index == cfg.caps[1] && |s.wire| == cfg.caps[0] + cfg.caps[1]
  {
    hide Source, Stream, Readable, ValidBufs, ValidSlots;
  }

  lemma SameAbout(cfg: Config, s: State)
    requires BothExist(cfg) && AboutToRead(cfg, s, 1)
    ensures AboutToRead(cfg, s.(quota := Count(2)), 1)
  {
    hide Source, Stream, Readable, ValidBufs, ValidSlots;
  }

  // ----------------------------------------------------------------- overwrites

  lemma {:induction false} LastBoundaryBelow(n: nat, b: nat)
    requires b > 0
    ensures Wrap(n, b) <= n && Wrap(n - Wrap(n, b), b) == 0
    decreases n
  {
    if n >= b {
      LastBoundaryBelow(n - b, b);
      assert n - Wrap(n, b) >= b;
    }
  }

  /** All of the first section but its last burst has been sent and returned; that burst is with
      the NIC. The second section has been entered. */
  ghost predicate LastInNic(cfg: Config, s: State, k: nat) {
    && Shape(cfg, s) && s.active == 1 && s.request == 0 && s.worker == Worker.Waiting
    && s.inProgress == -1 && !s.tx.Rechecking? && |s.passes| == 2
    && PendingFrom(cfg, s, k)
  }

  /** The NIC holds slots `k` and up of the first section, and `k` packets have gone out. */
  ghost predicate PendingFrom(cfg: Config, s: State, k: nat)
    requires |cfg.caps| == 2
  {
    && k < cfg.caps[0] <= k + cfg.burst && |s.wire| == k && |s.nic| == cfg.caps[0] - k
    && forall j :: 0 <= j < |s.nic| ==> s.nic[j] == Buf(0, k + j)
  }

  /** Before the last burst of the first section. */
  ghost predicate BeforeLast(cfg: Config, s: State, k: nat) {
    && BothExist(cfg) && Shape(cfg, s) && s.active == 0 && s.index == k == |s.wire|
    && k < cfg.caps[0] <= k + cfg.burst
    && s.tx.Testing? && s.sending && s.quota == Count(cfg.caps[0] - k) && Idle(s)
    && s.request == -1 && s.inProgress == -1 && s.worker == Worker.Waiting && |s.passes| == 1
    && forall i :: 0 <= i < 2 ==>
         s.secs[i].loaded == cfg.caps[i] == |s.secs[i].free| && !s.secs[i].locked && s.secs[i].cap == cfg.caps[i]
  }

  lemma BeforeLastFacts(cfg: Config, s0: State, s: State, k: nat)
    requires BothExist(cfg) && Stopped(cfg, s0) && JustOpened(cfg, s0) && Shape(cfg, s)
    requires k < cfg.caps[0] <= k + cfg.burst
    requires PartPlayed(StartSending(s0, cfg.caps[0]), s, k, cfg.caps[0] - k)
    ensures BeforeLast(cfg, s, k)
  {
    hide HasRead, Source, Readable, ValidBufs, ValidSlots, Holds;
  }

  lemma UpToLast(cfg: Config) returns (ls: seq<Label>, s: State, k: nat)
    requires BothExist(cfg)
    ensures Reached(cfg, ls, s, EVERY_HAZARD) && BeforeLast(cfg, s, k)
  {
    hide Reached, Source, StartsWithin, Wrap, Shape, Holds, JustOpened, Readable;
    var s0 := StartUp(cfg, EVERY_HAZARD);
    FirstFacts(cfg, s0);
    var c0 := cfg.caps[0];
    LastBoundaryBelow(c0 - 1, cfg.burst);
    k := c0 - 1 - Wrap(c0 - 1, cfg.burst);
    NothingLeft(cfg.burst);
    WithinSection(0, k, cfg.burst, c0);
    WithinSection(0, c0, cfg.burst, c0);
    StartCount(cfg, [], s0, c0, EVERY_HAZARD);
    FewerPlayable(cfg, StartSending(s0, c0), k, c0 - k);
    ls, s := PlayBursts(cfg, [] + [Start(c0)], StartSending(s0, c0), k, c0 - k, EVERY_HAZARD);
    BeforeLastFacts(cfg, s0, s, k);
  }

  lemma FewerPlayable(cfg: Config, s: State, k: nat, left: nat)
    requires CanPlay(cfg, s, k + left, 0, EVERY_HAZARD) && Wrap(k, cfg.burst) == 0
    requires StartsWithin(s.index, k, cfg.burst, cfg.caps[s.active])
    ensures CanPlay(cfg, s, k, left, EVERY_HAZARD)
  {
    hide Readable, ValidBufs, ValidSlots, StartsWithin, Wrap;
  }

  lemma PoolFrom(cfg: Config, ls: seq<Label>, s: State, k: nat)
    requires BothExist(cfg) && Reached(cfg, ls, s, EVERY_HAZARD) && BeforeLast(cfg, s, k)
    ensures |s.secs| == 2 && s.secs[0].free == Circle(cfg.caps[0], k)
  {
    AvoidsFewer(cfg, ls, EVERY_HAZARD, {Racing, Overrunning});
    RunTurns(cfg, ls);
    hide Run, Avoids, Core, Source, Stream, Readable, ValidBufs, ValidSlots, Circle;
    assert s.secs[0].free == Order(s, 0);
  }

  lemma LastHanded(cfg: Config, s: State, k: nat)
    requires BeforeLast(cfg, s, k) && |s.secs| == 2 && s.secs[0].free == Circle(cfg.caps[0], k)
    ensures cfg.caps[0] - k <= |s.secs[0].free| && s.active == 0 && cfg.caps[0] - k == Draw(cfg, s.quota)
    ensures s.index < s.secs[0].loaded && s.index + (cfg.caps[0] - k) <= cfg.caps[0]
    ensures Idle(s) && s.tx.Testing? && s.sending && s.quota == Count(cfg.caps[0] - k) && Shape(cfg, s)
    ensures var s1 := Handed(s.(tx := Testing, quota := Count(0)), cfg.caps[0] - k);
      Shape(cfg, s1) ==>
        && s1.tx.Testing? && s1.sending && s1.index >= s1.secs[s1.active].loaded && NextSection(s1) == 1
        && s1.secs[1].cap > 0 && s1.secs[1].loaded > 0 && !s1.secs[1].locked
        && LastInNic(cfg, Switch(cfg, s1), k)
  {
    hide Source, Readable, ValidBufs, ValidSlots, Circle;
    var n := cfg.caps[0] - k;
    var free := s.secs[0].free[..n];
    forall j | 0 <= j < n
      ensures free[j] == k + j
    {
      CircleAt(cfg.caps[0], k, j);
    }
  }

  lemma HandsLast(cfg: Config) returns (ls: seq<Label>, s: State, k: nat)
    requires BothExist(cfg)
    ensures Reached(cfg, ls, s, EVERY_HAZARD) && LastInNic(cfg, s, k)
  {
    hide *;
    ConfigFacts(cfg);
    var ls0, s0, k0 := UpToLast(cfg);
    k := k0;
    BeforeLastShape(cfg, s0, k);
    PoolFrom(cfg, ls0, s0, k);
    LastHanded(cfg, s0, k);
    OneBurst(cfg, ls0, s0, cfg.caps[0] - k, 0, EVERY_HAZARD);
    var s1 := Handed(s0.(tx := Testing, quota := Count(0)), cfg.caps[0] - k);
    SwitchNow(cfg, ls0 + [TxTest] + [TxSend], s1, EVERY_HAZARD);
    ls, s := ls0 + [TxTest] + [TxSend] + [TxTest], Switch(cfg, s1);
  }

  lemma BeforeLastShape(cfg: Config, s: State, k: nat)
    requires BeforeLast(cfg, s, k)
    ensures Shape(cfg, s) && |cfg.caps| == 2 && k < cfg.caps[0]
  {
    hide Source, Readable, ValidBufs, ValidSlots;
  }

  /** The worker has refilled `m` slots, none of them with the NIC. */
  ghost predicate Refills(cfg: Config, s: State, k: nat, m: nat) {
    && Shape(cfg, s) && s.active == 1 && s.worker == Filling(0, m) && m <= k && |s.passes| == 2
    && PendingFrom(cfg, s, k)
  }

  /** The worker begins to refill the section whose last packets the NIC still holds. */
  lemma BeginsRefill(cfg: Config, ls: seq<Label>, s: State, k: nat, hs: set<Hazard>)
    returns (ls': seq<Label>, s': State)
    requires Usable(cfg) && Reached(cfg, ls, s, hs) && LastInNic(cfg, s, k)
    ensures Reached(cfg, ls', s', hs) && Refills(cfg, s', k, 0)
  {
    hide Reached, Readable, ValidBufs, ValidSlots, Clears;
    HarmlessClears(cfg, s, WorkerTake, hs);
    ReachNext(cfg, ls, s, WorkerTake, hs);
    var s1 := Take(cfg, s);
    HarmlessClears(cfg, s1, WorkerReset, hs);
    ReachNext(cfg, ls + [WorkerTake], s1, WorkerReset, hs);
    ls', s' := ls + [WorkerTake] + [WorkerReset], Reset(cfg, s1);
  }

  lemma RefillStep(cfg: Config, s: State, m: nat)
    requires Core(cfg, s) && s.worker == Filling(0, m) && s.active == 1 && |s.passes| == 2
    requires |cfg.caps| == 2 && m < cfg.caps[0]
    ensures Shape(cfg, s) && s.secs[0].loaded == m
    ensures Fill(cfg, s).Some? && Next(cfg, s, WorkerFill) == Fill(cfg, s)
    ensures var s2 := Fill(cfg, s).value;
      Shape(cfg, s2) && s2 == Filled(s, Stream(cfg.files, cfg.caps[0] + cfg.caps[1] + m), s2.cursor)
  {
    hide *;
    CoreShape(cfg, s);
    TwoOfEach(cfg, s);
    FillEnabled(cfg, s);
    FillStep(cfg, s);
    BeforeTwo(cfg);
    OtherOfSecond(s);
  }

  lemma TwoOfEach(cfg: Config, s: State)
    requires BothExist(cfg) && Shape(cfg, s)
    ensures |cfg.caps| == |s.secs| == 2 && cfg.caps[0] > 0
  {
    hide Source;
  }

  lemma FillEnabled(cfg: Config, s: State)
    requires Shape(cfg, s) && s.worker.Filling? && s.worker.slot < cfg.caps[s.worker.target]
    ensures Next(cfg, s, WorkerFill) == Fill(cfg, s)
  {
    hide Shape, Fill;
  }

  lemma OtherOfSecond(s: State)
    requires s.active == 1
    ensures Other(s) == 0
  {
  }

  lemma RefillsFacts(cfg: Config, s: State, k: nat, m: nat)
    requires BothExist(cfg) && Refills(cfg, s, k, m)
    ensures Usable(cfg) && |cfg.caps| == 2 && cfg.burst > 0 && m < cfg.caps[0] && m <= k && Shape(cfg, s)
    ensures s.worker == Filling(0, m) && s.active == 1 && |s.passes| == 2 && |s.wire| == k
    ensures s.nic != [] && s.nic[0] == Buf(0, k) && |s.nic| == cfg.caps[0] - k <= cfg.burst
    ensures Overwrite(s, WorkerFill) <==> m == k
  {
    hide Source, Readable, ValidBufs, ValidSlots;
  }

  lemma RefillsOn(cfg: Config, s: State, s2: State, k: nat, m: nat, data: Packet)
    requires BothExist(cfg) && Refills(cfg, s, k, m) && m < k && Shape(cfg, s2) && s.secs[0].loaded == m
    requires s2 == Filled(s, data, s2.cursor)
    ensures Refills(cfg, s2, k, m + 1)
  {
    hide Source, Readable, ValidBufs, ValidSlots;
  }

  /** The slots the NIC no longer holds are refilled without hazard. */
  lemma {:induction false} RefillsRest(cfg: Config, ls: seq<Label>, s: State, k: nat, m: nat)
    returns (ls': seq<Label>, s': State)
    requires BothExist(cfg) && Reached(cfg, ls, s, EVERY_HAZARD) && Refills(cfg, s, k, m)
    ensures Reached(cfg, ls', s', EVERY_HAZARD) && Refills(cfg, s', k, k)
    decreases k - m
  {
    assert Racing in EVERY_HAZARD;
    hide *;
    ConfigFacts(cfg);
    RefillsFacts(cfg, s, k, m);
    if m == k {
      ls', s' := ls, s;
    } else {
      ReachedCore(cfg, ls, s, EVERY_HAZARD);
      RefillStep(cfg, s, m);
      FillClears(cfg, s, EVERY_HAZARD);
      ReachNext(cfg, ls, s, WorkerFill, EVERY_HAZARD);
      RefillsOn(cfg, s, Fill(cfg, s).value, k, m, Stream(cfg.files, cfg.caps[0] + cfg.caps[1] + m));
      ls', s' := RefillsRest(cfg, ls + [WorkerFill], Fill(cfg, s).value, k, m + 1);
    }
  }

  /** After the fill the packet that goes out next is the record just read. */
  lemma RefilledPacketGoesOut(cfg: Config, s: State, s2: State, k: nat, data: Packet)
    requires BothExist(cfg) && Refills(cfg, s, k, k) && Shape(cfg, s2) && s.secs[0].loaded == k
    requires s2 == Filled(s, data, s2.cursor)
    ensures s2.nic != [] && Transmit(cfg, s2).wire == s.wire + [data]
  {
    hide Source, Readable, ValidBufs, ValidSlots;
  }

  /** The fill, then the next packet sent. */
  lemma FillThenTransmit(cfg: Config, ls: seq<Label>, s: State, s2: State, hs: set<Hazard>)
    requires Usable(cfg) && cfg.burst > 0 && Shape(cfg, s) && Shape(cfg, s2) && Reached(cfg, ls, s, hs)
    requires Overwriting !in hs && Next(cfg, s, WorkerFill) == Some(s2) && s2.nic != []
    ensures Reached(cfg, ls + [WorkerFill] + [NicTransmit], Transmit(cfg, s2), hs)
  {
    hide *;
    FillClears(cfg, s, hs);
    ReachNext(cfg, ls, s, WorkerFill, hs);
    HarmlessClears(cfg, s2, NicTransmit, hs);
    TransmitFrame(cfg, s2);
    ReachNext(cfg, ls + [WorkerFill], s2, NicTransmit, hs);
  }

  lemma RefilledUpToPending(cfg: Config) returns (ls: seq<Label>, s: State, k: nat)
    requires BothExist(cfg)
    ensures Reached(cfg, ls, s, EVERY_HAZARD) && Refills(cfg, s, k, k)
  {
    hide *;
    ConfigFacts(cfg);
    var ls1, s1, k1 := HandsLast(cfg);
    k := k1;
    var ls2, s2 := BeginsRefill(cfg, ls1, s1, k, EVERY_HAZARD);
    RefillsFacts(cfg, s2, k, 0);
    ls, s := RefillsRest(cfg, ls2, s2, k, 0);
  }

  lemma PendingOverwritten(cfg: Config, ls: seq<Label>, s: State, k: nat) returns (s': State)
    requires BothExist(cfg) && Source(cfg.files) && |cfg.caps| == 2
    requires Reached(cfg, ls, s, EVERY_HAZARD) && Refills(cfg, s, k, k)
    ensures Reached(cfg, ls + [WorkerFill] + [NicTransmit], s', ALL_BUT_OVERWRITES)
    ensures s'.wire == s.wire + [Stream(cfg.files, cfg.caps[0] + cfg.caps[1] + k)]
  {
    assert Racing in EVERY_HAZARD && ALL_BUT_OVERWRITES <= EVERY_HAZARD;
    assert Overwriting !in ALL_BUT_OVERWRITES;
    hide *;
    RefillsFacts(cfg, s, k, k);
    ReachedCore(cfg, ls, s, EVERY_HAZARD);
    RefillStep(cfg, s, k);
    var s2 := Fill(cfg, s).value;
    RefilledPacketGoesOut(cfg, s, s2, k, Stream(cfg.files, cfg.caps[0] + cfg.caps[1] + k));
    ReachedFewer(cfg, ls, s, EVERY_HAZARD, ALL_BUT_OVERWRITES);
    FillThenTransmit(cfg, ls, s, s2, ALL_BUT_OVERWRITES);
    s' := Transmit(cfg, s2);
  }

  /** In every two-section configuration, whatever the burst, the refill can overtake the NIC: the
      last burst of the first section is still there when the worker comes to its first slot. A
      schedule with no other hazard, and never more than a burst in the NIC, then sends record
      c0 + c1 + k as packet k, after sending the packets before it as they are due. */
  lemma OverwriteHarms(cfg: Config) returns (ls: seq<Label>, s: State, s': State)
    requires BothExist(cfg)
    ensures Shape(cfg, s) && Reached(cfg, ls, s, EVERY_HAZARD) && Overwrite(s, WorkerFill)
    ensures 0 < |s.nic| <= cfg.burst && |s.wire| + |s.nic| == cfg.caps[0]
    ensures forall i :: 0 <= i < |s.wire| ==> s.wire[i] == Stream(cfg.files, i)
    ensures Reached(cfg, ls + [WorkerFill] + [NicTransmit], s', ALL_BUT_OVERWRITES)
    ensures s'.wire == s.wire + [Stream(cfg.files, cfg.caps[0] + cfg.caps[1] + |s.wire|)]
  {
    hide *;
    ConfigFacts(cfg);
    var ls1, s1, k := RefilledUpToPending(cfg);
    ls, s := ls1, s1;
    RefillsFacts(cfg, s, k, k);
    s' := PendingOverwritten(cfg, ls, s, k);
    SentSoFar(cfg, ls, s);
  }

  lemma ConfigFacts(cfg: Config)
    requires BothExist(cfg)
    ensures Usable(cfg) && Source(cfg.files) && |cfg.caps| == 2
  {
  }

  lemma SentSoFar(cfg: Config, ls: seq<Label>, s: State)
    requires BothExist(cfg) && Reached(cfg, ls, s, EVERY_HAZARD)
    ensures forall i :: 0 <= i < |s.wire| ==> s.wire[i] == Stream(cfg.files, i)
  {
    hide Run, Avoids, Source, Stream;
    AvoidsFewer(cfg, ls, EVERY_HAZARD, {Racing, Overwriting, Overrunning});
    ReplayRefinesStream(cfg, ls);
  }
}
