/** Exactly when a port that has kept clean so far can go on: when some clean continuation of the
    schedule lets another packet out. */
module ReplayProgress {
  import opened Arith
  import opened Bytes
  import opened PcapFile
  import opened PcapReader
  import opened Replay
  import opened ReplayControl
  import opened ReplaySafety
  import opened ReplayLiveness
  import opened ReplayBursts
  import opened ReplaySchedules

  const CLEAN := {Racing, Overwriting, Overrunning}

  /** The transmitter has read a load count of 0 and is about to read it again, under the mutex,
      when the worker has begun to load. */
  ghost predicate Doomed(s: State)
    requires |s.secs| == 2 && s.active < 2
  {
    s.tx.Rechecking? && s.secs[Other(s)].loaded != 0
  }

  /** A full burst ends within the section it comes from: the active one or, at its end, the
      other. */
  predicate BurstFitsNext(cfg: Config, s: State)
    requires |cfg.caps| == 2 && s.active < 2
  {
    if s.index < cfg.caps[s.active] then s.index + cfg.burst <= cfg.caps[s.active]
    else cfg.burst <= cfg.caps[Other(s)]
  }

  ghost predicate Stuck(cfg: Config, s: State) {
    && |cfg.caps| == |s.secs| == 2 && s.active < 2 && s.nic == []
    && (Doomed(s) || (s.quota.Forever? && !BurstFitsNext(cfg, s)))
  }

  ghost predicate IsCommand(l: Label) {
    l.Start? || l.Stop?
  }

  // ------------------------------------------------------------------ no way on

  lemma DoomedFacts(cfg: Config, s: State)
    requires Core(cfg, s)
    ensures |s.secs| == |cfg.caps| == 2 && s.active < 2 && Shape(cfg, s) && NextSection(s) == Other(s)
    ensures Doomed(s) ==> s.worker.Filling? && Race(cfg, s, TxRecheck)
  {
    hide Contents, Source, Readable, ValidBufs, ValidSlots;
  }

  lemma DoomedOtherStep(cfg: Config, s: State, l: Label)
    requires Shape(cfg, s) && s.active < 2 && |s.secs| == 2 && Doomed(s) && s.worker.Filling? && s.nic == []
    requires Next(cfg, s, l).Some? && !l.TxRecheck? && !l.WorkerFill?
    ensures var s' := Next(cfg, s, l).value;
      |s'.secs| == 2 && s'.active < 2 && Doomed(s') && s'.nic == [] && s'.wire == s.wire
  {
    hide Readable, ValidBufs, ValidSlots, Test, Wake, Send, Take, Reset, Finish, Transmit;
  }

  lemma DoomedFill(cfg: Config, s: State)
    requires Core(cfg, s) && s.worker.Filling? && s.worker.slot < cfg.caps[s.worker.target]
    requires |s.secs| == 2 && s.active < 2 && Doomed(s) && s.nic == []
    ensures Fill(cfg, s).Some?
    ensures var s' := Fill(cfg, s).value;
      |s'.secs| == 2 && s'.active < 2 && Doomed(s') && s'.nic == [] && s'.wire == s.wire
  {
    FillStep(cfg, s);
    hide Core, Fill, Source, Stream, HasRead, Readable, ValidBufs, ValidSlots;
  }

  /** The second read now is a race, and no other step of any thread changes that: the worker
      cannot finish while the transmitter holds the mutex. */
  lemma DoomedStep(cfg: Config, s: State, l: Label)
    requires Core(cfg, s) && Next(cfg, s, l).Some? && !Race(cfg, s, l) && s.nic == []
    requires |s.secs| == 2 && s.active < 2 && Doomed(s)
    ensures var s' := Next(cfg, s, l).value;
      |s'.secs| == 2 && s'.active < 2 && Doomed(s') && s'.nic == [] && s'.wire == s.wire
  {
    hide Core, Doomed, Race;
    DoomedFacts(cfg, s);
    if l.WorkerFill? {
      hide Fill;
      DoomedFill(cfg, s);
    } else if !l.TxRecheck? {
      hide Next;
      DoomedOtherStep(cfg, s, l);
    }
  }

  /** What the decision leaves alone, whether it switches or not. */
  ghost predicate SameFlow(s: State, s': State) {
    s'.quota == s.quota && s'.nic == s.nic && s'.wire == s.wire
  }

  lemma SwitchFlow(cfg: Config, s: State)
    requires Shape(cfg, s)
    ensures SameFlow(s, Switch(cfg, s))
  {
    hide Readable, ValidBufs, ValidSlots;
  }

  lemma TestFlow(cfg: Config, s: State)
    requires Shape(cfg, s)
    ensures SameFlow(s, Test(cfg, s))
  {
    SwitchFlow(cfg, s);
    hide Readable, ValidBufs, ValidSlots, Switch;
  }

  lemma WaitFlow(cfg: Config, s: State)
    requires Shape(cfg, s)
    ensures SameFlow(s, Recheck(cfg, s)) && SameFlow(s, Wake(cfg, s))
  {
    SwitchFlow(cfg, s);
    hide Readable, ValidBufs, ValidSlots, Switch;
  }

  lemma DecisionFlow(cfg: Config, s: State, l: Label)
    requires Shape(cfg, s) && Next(cfg, s, l).Some? && (l.TxTest? || l.TxRecheck? || l.TxWake?)
    ensures SameFlow(s, Next(cfg, s, l).value)
  {
    hide Shape, Test, Recheck, Wake, SameFlow;
    TestFlow(cfg, s);
    WaitFlow(cfg, s);
  }

  lemma StuckKept(cfg: Config, s: State, s': State)
    requires Stuck(cfg, s) && !Doomed(s) && cfg.caps[0] > 0 && cfg.caps[1] > 0
    requires SameFlow(s, s') && |s'.secs| == 2
    requires (s'.active == s.active && s'.index == s.index)
          || (s'.active == Other(s) && s'.index == 0 && s.index >= cfg.caps[s.active])
    ensures Stuck(cfg, s') && s'.wire == s.wire
  {
  }

  lemma SameBuffersPlace(s: State, s': State)
    requires SameBuffers(s, s')
    ensures s'.active == s.active && s'.index == s.index && |s'.secs| == 2
  {
  }

  lemma StuckDecision(cfg: Config, s: State, l: Label)
    requires Core(cfg, s) && Stuck(cfg, s) && !Doomed(s) && !Race(cfg, s, l) && Next(cfg, s, l).Some?
    requires l.TxTest? || l.TxRecheck? || l.TxWake?
    ensures Stuck(cfg, Next(cfg, s, l).value) && Next(cfg, s, l).value.wire == s.wire
  {
    assert |cfg.caps| == 2 && s.active < 2;
    hide *;
    var s' := Next(cfg, s, l).value;
    DecisionFrame(cfg, s, l);
    DoomedFacts(cfg, s);
    DecisionFlow(cfg, s, l);
    BothPositive(cfg, s);
    if SameBuffers(s, s') {
      SameBuffersPlace(s, s');
    } else {
      SwitchPlace(cfg, s);
    }
    StuckKept(cfg, s, s');
  }

  lemma BothPositive(cfg: Config, s: State)
    requires Core(cfg, s)
    ensures cfg.caps[0] > 0 && cfg.caps[1] > 0 && cfg.burst > 0
  {
  }

  lemma SwitchPlace(cfg: Config, s: State)
    requires Shape(cfg, s)
    ensures s.active < 2
    ensures Switch(cfg, s).active == Other(s) && Switch(cfg, s).index == 0 && |Switch(cfg, s).secs| == 2
  {
    hide Readable, ValidBufs, ValidSlots;
  }

  lemma StuckSend(cfg: Config, s: State)
    requires Shape(cfg, s) && Stuck(cfg, s) && !Doomed(s) && s.tx.Sending? && !Overrun(cfg, s, TxSend)
    requires cfg.burst > 0 && s.index < cfg.caps[s.active]
    ensures Send(cfg, s) == s.(tx := Testing)
  {
    hide Readable, ValidBufs, ValidSlots;
  }

  lemma WorkerFlow(cfg: Config, s: State, l: Label)
    requires Shape(cfg, s) && Next(cfg, s, l).Some? && (WorkerLabel(l) || l.NicFree?)
    ensures var s' := Next(cfg, s, l).value;
      SameFlow(s, s') && |s'.secs| == 2 && s'.active == s.active && s'.index == s.index
  {
    hide Readable, ValidBufs, ValidSlots, ReadNext;
  }

  lemma StuckOther(cfg: Config, s: State, l: Label)
    requires Shape(cfg, s) && Stuck(cfg, s) && !Doomed(s) && !Overrun(cfg, s, l) && Next(cfg, s, l).Some?
    requires cfg.burst > 0 && cfg.caps[0] > 0 && cfg.caps[1] > 0
    requires s.tx.Sending? ==> s.index < cfg.caps[s.active]
    requires !IsCommand(l) && !l.TxTest? && !l.TxRecheck? && !l.TxWake?
    ensures Stuck(cfg, Next(cfg, s, l).value) && Next(cfg, s, l).value.wire == s.wire
  {
    if l.TxSend? {
      hide Shape, Send, Overrun, BurstFitsNext;
      StuckSend(cfg, s);
    } else if !l.NicTransmit? {
      assert WorkerLabel(l) || l.NicFree?;
      hide *;
      WorkerFlow(cfg, s, l);
      StuckKept(cfg, s, Next(cfg, s, l).value);
    } else {
      hide Shape, Transmit;
    }
  }

  lemma StuckStep(cfg: Config, s: State, l: Label)
    requires Core(cfg, s) && Stuck(cfg, s) && !Race(cfg, s, l) && !Overrun(cfg, s, l) && Next(cfg, s, l).Some?
    requires !IsCommand(l)
    ensures Stuck(cfg, Next(cfg, s, l).value) && Next(cfg, s, l).value.wire == s.wire
  {
    assert |cfg.caps| == |s.secs| == 2 && s.active < 2 && s.nic == [];
    hide Core, Next, Doomed, Overrun, Shape, Race, BurstFitsNext;
    SendingInside(cfg, s);
    if Doomed(s) {
      DoomedStep(cfg, s, l);
    } else if l.TxTest? || l.TxRecheck? || l.TxWake? {
      StuckDecision(cfg, s, l);
    } else {
      BothPositive(cfg, s);
      StuckOther(cfg, s, l);
    }
  }

  lemma SendingInside(cfg: Config, s: State)
    requires Core(cfg, s)
    ensures Shape(cfg, s) && cfg.burst > 0 && (s.tx.Sending? ==> s.index < cfg.caps[s.active])
  {
    hide Sections, Contents, Source, Readable, ValidBufs, ValidSlots;
  }

  lemma LastOfMore(cfg: Config, ls: seq<Label>, more: seq<Label>, hs: set<Hazard>)
    requires Usable(cfg) && more != [] && Avoids(cfg, ls + more, hs) && Run(cfg, ls + more).Some?
    ensures var front, l := more[..|more| - 1], more[|more| - 1];
      && Avoids(cfg, ls + front, hs) && Run(cfg, ls + front).Some?
      && Clears(cfg, Run(cfg, ls + front).value, l, hs)
      && Next(cfg, Run(cfg, ls + front).value, l) == Run(cfg, ls + more)
  {
    hide Run, Avoids;
    assert ls + more == (ls + more[..|more| - 1]) + [more[|more| - 1]];
    AvoidsLast(cfg, ls + more[..|more| - 1], more[|more| - 1], hs);
  }

  lemma CleanCore(cfg: Config, ls: seq<Label>)
    requires BothExist(cfg) && Avoids(cfg, ls, CLEAN) && Run(cfg, ls).Some?
    ensures Core(cfg, Run(cfg, ls).value) && Orderly(cfg, Run(cfg, ls).value)
  {
    hide Run, Avoids, Core, Turns, Source;
    AvoidsFewer(cfg, ls, CLEAN, {Racing, Overrunning});
    RunTurns(cfg, ls);
  }

  /** From a stuck state no packet goes out without a command or a hazard. */
  lemma {:induction false} StuckStays(cfg: Config, ls: seq<Label>, more: seq<Label>)
    requires BothExist(cfg) && Avoids(cfg, ls + more, CLEAN) && Run(cfg, ls + more).Some? && NoCommands(more, 0)
    requires Run(cfg, ls).Some? && Stuck(cfg, Run(cfg, ls).value)
    ensures Stuck(cfg, Run(cfg, ls + more).value)
    ensures Run(cfg, ls + more).value.wire == Run(cfg, ls).value.wire
    decreases |more|
  {
    hide Run, Avoids, Core, Stuck, Next, Clears, Source, Orderly, Race, Overrun;
    if more == [] {
      assert ls + more == ls;
    } else {
      var front, l := more[..|more| - 1], more[|more| - 1];
      LastOfMore(cfg, ls, more, CLEAN);
      StuckStays(cfg, ls, front);
      CleanCore(cfg, ls + front);
      ClearsEach(cfg, Run(cfg, ls + front).value, l, CLEAN);
      StuckStep(cfg, Run(cfg, ls + front).value, l);
    }
  }

  ghost predicate DoomedIdle(s: State) {
    |s.secs| == 2 && s.active < 2 && s.nic == [] && Doomed(s)
  }

  /** From a doomed state with an empty NIC no packet goes out without a race. */
  lemma {:induction false} DoomedStays(cfg: Config, ls: seq<Label>, more: seq<Label>)
    requires BothExist(cfg) && RaceFree(cfg, ls + more) && Run(cfg, ls + more).Some?
    requires Run(cfg, ls).Some? && DoomedIdle(Run(cfg, ls).value)
    ensures DoomedIdle(Run(cfg, ls + more).value)
    ensures Run(cfg, ls + more).value.wire == Run(cfg, ls).value.wire
    decreases |more|
  {
    hide Run, Avoids, Core, Next, Clears, Source, Race, Doomed;
    if more == [] {
      assert ls + more == ls;
    } else {
      var front, l := more[..|more| - 1], more[|more| - 1];
      LastOfMore(cfg, ls, more, {Racing});
      DoomedStays(cfg, ls, front);
      RunKeeps(cfg, ls + front);
      ClearsRace(cfg, Run(cfg, ls + front).value, l, {Racing});
      DoomedStep(cfg, Run(cfg, ls + front).value, l);
    }
  }

  // ------------------------------------------------------------------ a way on

  /** The one schedule continues the other without a command. */
  ghost predicate Continues(ls: seq<Label>, ls': seq<Label>) {
    ls <= ls' && NoCommands(ls', |ls|)
  }

  lemma ContinuesSelf(ls: seq<Label>)
    ensures Continues(ls, ls)
  {
  }

  lemma ContinuesBy(ls: seq<Label>, ls': seq<Label>, l: Label)
    requires Continues(ls, ls') && !IsCommand(l)
    ensures Continues(ls, ls' + [l])
  {
  }

  lemma ContinuesOn(ls: seq<Label>, ls1: seq<Label>, ls2: seq<Label>)
    requires Continues(ls, ls1) && Continues(ls1, ls2)
    ensures Continues(ls, ls2)
  {
    forall i | |ls| <= i < |ls2|
      ensures !ls2[i].Start? && !ls2[i].Stop?
    {
      if i < |ls1| {
        assert ls2[i] == ls1[i];
      }
    }
  }

  /** The next burst can be drawn; nothing has gone out since. */
  ghost predicate AtSend(cfg: Config, s: State, s': State) {
    && |cfg.caps| == 2 && s.active < 2 && Shape(cfg, s') && s'.tx.Sending? && Idle(s')
    && s'.quota == s.quota && s'.sending == s.sending && s'.wire == s.wire
    && (if s.index < cfg.caps[s.active] then s'.active == s.active && s'.index == s.index
        else s'.active == Other(s) && s'.index == 0)
  }

  /** A wait at the end of a section is waited out by the worker's steps. */
  lemma WaitsOut(cfg: Config, ls: seq<Label>, s: State) returns (ls': seq<Label>, s': State)
    requires BothExist(cfg) && Reached(cfg, ls, s, CLEAN) && Blocked(s) && Idle(s)
    ensures Reached(cfg, ls', s', CLEAN) && AtSend(cfg, s, s') && Continues(ls, ls')
  {
    assert Racing in CLEAN && Usable(cfg) && cfg.burst > 0 && !IsCommand(TxWake);
    hide *;
    ReachedDistance(cfg, ls, s, CLEAN);
    IdleNic(s);
    var ls1, s1 := WaitCanWake(cfg, ls, s, CLEAN);
    WaitContinues(ls, ls1);
    SameBlocked(s, s1);
    ReachedCore(cfg, ls1, s1, CLEAN);
    ReachedShape(cfg, ls1, s1, CLEAN);
    WokenEnters(cfg, s1);
    WakeClears(cfg, s1, CLEAN);
    ReachNext(cfg, ls1, s1, TxWake, CLEAN);
    ContinuesBy(ls, ls1, TxWake);
    BlockedAtEnd(cfg, s);
    SwitchedAtSend(cfg, s, s1);
    ls', s' := ls1 + [TxWake], Switch(cfg, s1);
  }

  lemma IdleNic(s: State)
    requires Idle(s)
    ensures s.nic == [] && s.done == []
  {
  }

  lemma WaitContinues(ls: seq<Label>, ls': seq<Label>)
    requires ls <= ls' && NoCommands(ls', |ls|)
    ensures Continues(ls, ls')
  {
  }

  lemma SameBlocked(s: State, s1: State)
    requires Blocked(s) && s1.tx == s.tx
    ensures Blocked(s1)
  {
  }

  /** A switch at the end of the active section leads to the next draw. */
  lemma SwitchedAtSend(cfg: Config, s: State, s1: State)
    requires Shape(cfg, s1) && |cfg.caps| == 2 && s.active < 2 && s.index >= cfg.caps[s.active]
    requires s1.active == s.active && s1.nic == s.nic && s1.done == s.done && s1.wire == s.wire && Idle(s)
    requires s1.quota == s.quota && s1.sending == s.sending
    ensures AtSend(cfg, s, Switch(cfg, s1))
  {
    hide Readable, ValidBufs, ValidSlots;
  }

  lemma BlockedAtEnd(cfg: Config, s: State)
    requires Core(cfg, s) && Blocked(s)
    ensures |cfg.caps| == 2 && s.active < 2 && s.index >= cfg.caps[s.active]
  {
    hide Sections, Contents, Source, Readable, ValidBufs, ValidSlots;
  }

  /** A second read that still finds 0 goes on to wait. */
  lemma ReadsAgain(cfg: Config, ls: seq<Label>, s: State)
    requires BothExist(cfg) && Reached(cfg, ls, s, CLEAN) && Core(cfg, s) && s.tx.Rechecking?
    requires |s.secs| == 2 && s.active < 2 && !Doomed(s)
    ensures Reached(cfg, ls + [TxRecheck], s.(tx := AwaitLoad, woken := false), CLEAN)
    ensures |cfg.caps| == 2 && s.index >= cfg.caps[s.active]
  {
    DoomedFacts(cfg, s);
    RecheckAtEnd(cfg, s);
    assert !Race(cfg, s, TxRecheck) && Recheck(cfg, s) == s.(tx := AwaitLoad, woken := false) by {
      hide Core, Shape, Switch;
    }
    hide Core, Reached, Shape, Recheck, Race, Clears;
    NoRaceClears(cfg, s, CLEAN);
    ReachNext(cfg, ls, s, TxRecheck, CLEAN);
  }

  lemma RecheckAtEnd(cfg: Config, s: State)
    requires Core(cfg, s) && s.tx.Rechecking?
    ensures |cfg.caps| == 2 && s.active < 2 && s.index >= cfg.caps[s.active]
  {
    hide Sections, Contents, Source, Readable, ValidBufs, ValidSlots;
  }

  lemma NoRaceClears(cfg: Config, s: State, hs: set<Hazard>)
    requires Shape(cfg, s) && cfg.burst > 0 && !Race(cfg, s, TxRecheck)
    ensures Clears(cfg, s, TxRecheck, hs)
  {
    hide Shape, Race;
  }

  /** The decision at the end of a section, short of a switch. */
  lemma TestAtEnd(cfg: Config, s: State)
    requires Core(cfg, s) && s.tx.Testing? && s.sending && s.index >= cfg.caps[s.active] && !Ready(s, Other(s))
    ensures Shape(cfg, s) && Next(cfg, s, TxTest) == Some(Test(cfg, s))
    ensures |s.secs| == 2
    ensures Test(cfg, s) == if s.secs[Other(s)].loaded == 0 then s.(tx := Rechecking)
                            else s.(tx := AwaitUnlock, woken := false)
  {
    TestWithoutSwitch(cfg, s);
    hide Contents, Source, Readable, ValidBufs, ValidSlots, Test, Sections, Standing;
  }

  lemma TestPlace(cfg: Config, s: State)
    requires Core(cfg, s)
    ensures Shape(cfg, s) && Usable(cfg) && |cfg.caps| == |s.secs| == 2 && s.active < 2 && NextSection(s) == Other(s)
    ensures s.secs[s.active].loaded == cfg.caps[s.active]
    ensures Ready(s, Other(s)) ==>
      s.secs[Other(s)].cap > 0 && s.secs[Other(s)].loaded > 0 && !s.secs[Other(s)].locked
  {
    hide Contents, Source, Readable, ValidBufs, ValidSlots, Standing;
  }

  lemma MidSectionAtSend(cfg: Config, s: State)
    requires |cfg.caps| == 2 && s.active < 2 && s.index < cfg.caps[s.active] && Idle(s)
    ensures Shape(cfg, s.(tx := Sending)) ==> AtSend(cfg, s, s.(tx := Sending))
  {
    hide Shape;
  }

  lemma AtSendFrom(cfg: Config, s: State, s1: State, s': State)
    requires s1.active == s.active && s1.index == s.index && s1.quota == s.quota && s1.sending == s.sending
    requires s1.wire == s.wire && AtSend(cfg, s1, s')
    ensures AtSend(cfg, s, s')
  {
    hide Shape;
  }

  lemma FromTest(cfg: Config, ls: seq<Label>, s: State) returns (ls': seq<Label>, s': State)
    requires BothExist(cfg) && Reached(cfg, ls, s, CLEAN) && s.tx.Testing? && s.sending && Idle(s)
    ensures Reached(cfg, ls', s', CLEAN) && AtSend(cfg, s, s') && Continues(ls, ls')
  {
    assert Racing in CLEAN && cfg.burst > 0 && !IsCommand(TxTest);
    hide *;
    ReachedCore(cfg, ls, s, CLEAN);
    TestPlace(cfg, s);
    ContinuesSelf(ls);
    ContinuesBy(ls, ls, TxTest);
    if s.index < cfg.caps[s.active] {
      TestMidSection(cfg, ls, s, CLEAN);
      MidSectionAtSend(cfg, s);
      ls', s' := ls + [TxTest], s.(tx := Sending);
    } else if Ready(s, Other(s)) {
      SwitchNow(cfg, ls, s, CLEAN);
      SwitchedAtSend(cfg, s, s);
      ls', s' := ls + [TxTest], Switch(cfg, s);
    } else {
      ls', s' := FromTestAtEnd(cfg, ls, s);
    }
  }

  lemma FromTestAtEnd(cfg: Config, ls: seq<Label>, s: State) returns (ls': seq<Label>, s': State)
    requires BothExist(cfg) && Usable(cfg) && Reached(cfg, ls, s, CLEAN) && s.tx.Testing? && s.sending && Idle(s)
    requires Core(cfg, s) && |cfg.caps| == |s.secs| == 2 && s.active < 2
    requires s.index >= cfg.caps[s.active] && Other(s) < 2 && !Ready(s, Other(s))
    ensures Reached(cfg, ls', s', CLEAN) && AtSend(cfg, s, s') && Continues(ls, ls')
  {
    assert cfg.burst > 0 && !IsCommand(TxTest);
    hide *;
    TestAtEnd(cfg, s);
    HarmlessClears(cfg, s, TxTest, CLEAN);
    ReachNext(cfg, ls, s, TxTest, CLEAN);
    ContinuesSelf(ls);
    ContinuesBy(ls, ls, TxTest);
    var s1 := if s.secs[Other(s)].loaded == 0 then s.(tx := Rechecking) else s.(tx := AwaitUnlock, woken := false);
    AtEndFacts(s, s1);
    if s.secs[Other(s)].loaded == 0 {
      ls', s' := FromRecheck(cfg, ls + [TxTest], s1);
    } else {
      ls', s' := WaitsOut(cfg, ls + [TxTest], s1);
    }
    AtSendFrom(cfg, s, s1, s');
    ContinuesOn(ls, ls + [TxTest], ls');
  }

  lemma AtEndFacts(s: State, s1: State)
    requires |s.secs| == 2 && s.active < 2 && Idle(s)
    requires s1 == if s.secs[Other(s)].loaded == 0 then s.(tx := Rechecking) else s.(tx := AwaitUnlock, woken := false)
    ensures Idle(s1) && !Doomed(s1) && |s1.secs| == 2 && s1.active < 2
    ensures if s.secs[Other(s)].loaded == 0 then s1.tx.Rechecking? else Blocked(s1)
    ensures s1.active == s.active && s1.index == s.index && s1.quota == s.quota && s1.sending == s.sending
    ensures s1.wire == s.wire
  {
  }

  lemma FromRecheck(cfg: Config, ls: seq<Label>, s: State) returns (ls': seq<Label>, s': State)
    requires BothExist(cfg) && Reached(cfg, ls, s, CLEAN) && s.tx.Rechecking? && Idle(s)
    requires |s.secs| == 2 && s.active < 2 && !Doomed(s)
    ensures Reached(cfg, ls', s', CLEAN) && AtSend(cfg, s, s') && Continues(ls, ls')
  {
    assert Racing in CLEAN && !IsCommand(TxRecheck);
    hide *;
    ReachedCore(cfg, ls, s, CLEAN);
    ReadsAgain(cfg, ls, s);
    ContinuesSelf(ls);
    ContinuesBy(ls, ls, TxRecheck);
    var s1 := s.(tx := AwaitLoad, woken := false);
    WaitingFor(s, s1);
    ls', s' := WaitsOut(cfg, ls + [TxRecheck], s1);
    AtSendFrom(cfg, s, s1, s');
    ContinuesOn(ls, ls + [TxRecheck], ls');
  }

  lemma WaitingFor(s: State, s1: State)
    requires Idle(s) && s1 == s.(tx := AwaitLoad, woken := false)
    ensures Idle(s1) && Blocked(s1)
  {
  }

  /** Unless it is doomed, the transmitter gets to its next draw without a command. */
  lemma ToSend(cfg: Config, ls: seq<Label>, s: State) returns (ls': seq<Label>, s': State)
    requires BothExist(cfg) && Reached(cfg, ls, s, CLEAN) && (s.tx.Testing? ==> s.sending) && Idle(s)
    requires |s.secs| == 2 && s.active < 2 && !Doomed(s)
    ensures Reached(cfg, ls', s', CLEAN) && AtSend(cfg, s, s') && Continues(ls, ls')
  {
    assert Racing in CLEAN;
    hide Core, Source, Reached, Shape, Doomed, CLEAN, Continues;
    if s.tx.Testing? {
      ls', s' := FromTest(cfg, ls, s);
    } else if s.tx.Rechecking? {
      ls', s' := FromRecheck(cfg, ls, s);
    } else if s.tx.Sending? {
      ReachedCore(cfg, ls, s, CLEAN);
      SendingInside(cfg, s);
      CoreShape(cfg, s);
      ContinuesSelf(ls);
      ls', s' := ls, s;
    } else {
      ls', s' := WaitsOut(cfg, ls, s);
    }
  }

  lemma FullPool(cfg: Config, s: State)
    requires Orderly(cfg, s) && Idle(s)
    ensures Shape(cfg, s) && |s.secs[s.active].free| == cfg.caps[s.active]
  {
    hide Sections, Standing, Contents, Source, Readable, ValidBufs, ValidSlots, Circle;
    assert s.secs[s.active].free == Order(s, s.active);
    CircleLength(cfg.caps[s.active], s.index);
  }

  lemma ReachedOrderly(cfg: Config, ls: seq<Label>, s: State)
    requires BothExist(cfg) && Reached(cfg, ls, s, CLEAN)
    ensures Core(cfg, s) && Orderly(cfg, s) && Usable(cfg) && cfg.burst > 0 && Backlogged !in CLEAN
  {
    hide Run, Avoids, Core, Turns, Source;
    CleanCore(cfg, ls);
  }

  /** A burst within the section is drawn, and its first packet goes out. */
  lemma SendsNow(cfg: Config, ls: seq<Label>, s: State) returns (s': State)
    requires BothExist(cfg) && Reached(cfg, ls, s, CLEAN) && Shape(cfg, s) && s.tx.Sending? && Idle(s)
    requires 0 < Draw(cfg, s.quota) && s.index + Draw(cfg, s.quota) <= cfg.caps[s.active]
    ensures Reached(cfg, ls + [TxSend] + [NicTransmit], s', CLEAN) && |s'.wire| == |s.wire| + 1
    ensures s'.tx.Testing? && s'.sending == s.sending && (s.quota.Forever? ==> s'.quota.Forever?)
  {
    hide *;
    ReachedOrderly(cfg, ls, s);
    IdleNic(s);
    FullPool(cfg, s);
    TakesBurst(cfg, s);
    SendClears(cfg, s, CLEAN);
    SendEnabled(cfg, s);
    ReachNext(cfg, ls, s, TxSend, CLEAN);
    var s1 := Send(cfg, s);
    HarmlessClears(cfg, s1, NicTransmit, CLEAN);
    TransmitFrame(cfg, s1);
    ReachNext(cfg, ls + [TxSend], s1, NicTransmit, CLEAN);
    s' := Transmit(cfg, s1);
    OneMore(cfg, s1);
  }

  lemma OneMore(cfg: Config, s: State)
    requires Shape(cfg, s) && s.nic != []
    ensures |Transmit(cfg, s).wire| == |s.wire| + 1
    ensures var s' := Transmit(cfg, s);
      s'.tx == s.tx && s'.sending == s.sending && s'.quota == s.quota && s'.secs == s.secs && s'.active == s.active
  {
    hide Readable, ValidBufs, ValidSlots;
  }

  lemma TakesBurst(cfg: Config, s: State)
    requires Shape(cfg, s) && s.tx.Sending? && s.nic == [] && |s.secs[s.active].free| == cfg.caps[s.active]
    requires 0 < Draw(cfg, s.quota) && s.index + Draw(cfg, s.quota) <= cfg.caps[s.active]
    ensures !Overrun(cfg, s, TxSend) && Send(cfg, s).nic != [] && Send(cfg, s).wire == s.wire
    ensures Send(cfg, s).tx.Testing? && Send(cfg, s).sending == s.sending
    ensures s.quota.Forever? ==> Send(cfg, s).quota.Forever?
  {
    hide Readable, ValidBufs, ValidSlots, Draw;
  }

  // ------------------------------------------------------------- exactly when

  /** A clean continuation of the schedule that lets another packet out. */
  ghost predicate Longer(cfg: Config, ls: seq<Label>, more: seq<Label>)
    requires Usable(cfg)
  {
    && Avoids(cfg, ls + more, CLEAN) && Run(cfg, ls).Some? && Run(cfg, ls + more).Some?
    && |Run(cfg, ls + more).value.wire| > |Run(cfg, ls).value.wire|
  }

  lemma LongerBy(cfg: Config, ls: seq<Label>, s: State, ls': seq<Label>, s': State)
    requires Usable(cfg) && Reached(cfg, ls, s, CLEAN) && Reached(cfg, ls', s', CLEAN) && |s'.wire| > |s.wire|
    requires ls <= ls'
    ensures Longer(cfg, ls, ls'[|ls|..])
  {
    hide Run, Avoids;
    assert ls + ls'[|ls|..] == ls';
  }

  lemma TransmitsNow(cfg: Config, ls: seq<Label>, s: State, more: seq<Label>)
    requires BothExist(cfg) && Reached(cfg, ls, s, CLEAN) && s.nic != [] && more == [NicTransmit]
    ensures Longer(cfg, ls, more) && NoCommands(more, 0)
  {
    assert NoCommands(more, 0);
    hide *;
    ReachedOrderly(cfg, ls, s);
    ReachedShape(cfg, ls, s, CLEAN);
    HarmlessClears(cfg, s, NicTransmit, CLEAN);
    TransmitFrame(cfg, s);
    ReachNext(cfg, ls, s, NicTransmit, CLEAN);
    OneMore(cfg, s);
    Prefixed(ls, more);
    LongerBy(cfg, ls, s, ls + more, Transmit(cfg, s));
  }

  lemma Prefixed(ls: seq<Label>, more: seq<Label>)
    ensures ls <= ls + more && (ls + more)[|ls|..] == more
  {
  }

  /** Emptying the NIC and the pools' queues moves nothing else. */
  lemma Emptied(cfg: Config, ls: seq<Label>, s: State) returns (ls': seq<Label>, s': State)
    requires BothExist(cfg) && Reached(cfg, ls, s, CLEAN) && |s.secs| == 2 && s.active < 2 && s.nic == [] && !Doomed(s)
    ensures Reached(cfg, ls', s', CLEAN) && Continues(ls, ls') && Idle(s') && |s'.secs| == 2 && s'.active < 2
    ensures !Doomed(s') && s'.tx == s.tx && s'.active == s.active && s'.index == s.index
    ensures s'.sending == s.sending && s'.quota == s.quota && |s'.wire| == |s.wire| && Shape(cfg, s')
  {
    hide *;
    ReachedOrderly(cfg, ls, s);
    ReachedShape(cfg, ls, s, CLEAN);
    ls', s' := Drain(cfg, ls, s, CLEAN);
    WaitContinues(ls, ls');
    SameButFacts(s, s');
  }

  lemma SameButFacts(s: State, s': State)
    requires SameBut(s, s') && s.active < 2
    ensures |s'.secs| == 2 && s'.active == s.active && s'.tx == s.tx && s'.index == s.index
    ensures s'.sending == s.sending && s'.quota == s.quota && (Doomed(s) <==> Doomed(s'))
  {
  }

  lemma StopsNow(cfg: Config, ls: seq<Label>, s: State)
    requires Usable(cfg) && cfg.burst > 0 && Reached(cfg, ls, s, CLEAN) && Shape(cfg, s) && s.sending
    ensures Reached(cfg, ls + [Stop], StopSending(s), CLEAN) && Shape(cfg, StopSending(s))
  {
    assert Next(cfg, s, Stop) == Some(StopSending(s)) by {
      hide Shape;
    }
    hide *;
    StopShape(cfg, s);
    HarmlessClears(cfg, s, Stop, CLEAN);
    ReachNext(cfg, ls, s, Stop, CLEAN);
  }

  lemma StartsOne(cfg: Config, ls: seq<Label>, s: State)
    requires Usable(cfg) && cfg.burst > 0 && Reached(cfg, ls, s, CLEAN) && Shape(cfg, s) && !s.sending
    ensures Reached(cfg, ls + [Start(1)], s.(sending := true, quota := Count(1)), CLEAN)
  {
    assert Misaligned !in CLEAN;
    assert Next(cfg, s, Start(1)) == Some(s.(sending := true, quota := Count(1))) by {
      hide Shape;
    }
    hide *;
    StartClears(cfg, s, 1, CLEAN);
    ReachNext(cfg, ls, s, Start(1), CLEAN);
  }

  /** The command line asks for one packet more. */
  lemma AsksForOne(cfg: Config, ls: seq<Label>, s: State) returns (ls': seq<Label>)
    requires Usable(cfg) && cfg.burst > 0 && Reached(cfg, ls, s, CLEAN) && Shape(cfg, s)
    ensures Reached(cfg, ls', s.(sending := true, quota := Count(1)), CLEAN) && ls <= ls'
  {
    var s1 := StopSending(s);
    assert !s1.sending && s1.(sending := true, quota := Count(1)) == s.(sending := true, quota := Count(1));
    hide *;
    if s.sending {
      StopsNow(cfg, ls, s);
      StartsOne(cfg, ls + [Stop], s1);
      ls' := ls + [Stop] + [Start(1)];
    } else {
      StartsOne(cfg, ls, s);
      ls' := ls + [Start(1)];
    }
  }

  lemma StopShape(cfg: Config, s: State)
    requires Shape(cfg, s)
    ensures Shape(cfg, StopSending(s))
  {
    hide Readable, ValidBufs, ValidSlots;
  }

  lemma OnePacket(cfg: Config, s: State, s': State)
    requires BothExist(cfg) && AtSend(cfg, s, s') && s.quota == Count(1) && Core(cfg, s')
    ensures Shape(cfg, s') && s'.tx.Sending? && Idle(s') && |s'.wire| == |s.wire|
    ensures 0 < Draw(cfg, s'.quota) && s'.index + Draw(cfg, s'.quota) <= cfg.caps[s'.active]
  {
    SendingInside(cfg, s');
    hide Core, Source, Readable, ValidBufs, ValidSlots;
  }

  lemma Asked(s: State, s1: State)
    requires |s.secs| == 2 && s.active < 2 && Idle(s) && s1 == s.(sending := true, quota := Count(1))
    ensures Idle(s1) && s1.sending && s1.quota == Count(1) && |s1.secs| == 2 && s1.active < 2
    ensures s1.wire == s.wire && (Doomed(s1) <==> Doomed(s))
  {
  }

  /** Anything but a doomed state with an empty NIC can go on, if need be with a command for one
      packet more. */
  lemma GoesOn(cfg: Config, ls: seq<Label>, s: State) returns (more: seq<Label>)
    requires BothExist(cfg) && Reached(cfg, ls, s, CLEAN) && |s.secs| == 2 && s.active < 2
    requires s.nic != [] || !Doomed(s)
    ensures Longer(cfg, ls, more)
  {
    hide *;
    ReachedOrderly(cfg, ls, s);
    if s.nic != [] {
      more := [NicTransmit];
      TransmitsNow(cfg, ls, s, more);
    } else {
      var ls1, s1 := Emptied(cfg, ls, s);
      var ls2 := AsksForOne(cfg, ls1, s1);
      var s2 := s1.(sending := true, quota := Count(1));
      Asked(s1, s2);
      var ls3, s3 := ToSend(cfg, ls2, s2);
      ReachedOrderly(cfg, ls3, s3);
      OnePacket(cfg, s2, s3);
      var s4 := SendsNow(cfg, ls3, s3);
      ContinuedPrefix(ls, ls1);
      ContinuedPrefix(ls2, ls3);
      LongPrefix(ls, ls1, ls2, ls3);
      LongerBy(cfg, ls, s, ls3 + [TxSend] + [NicTransmit], s4);
      more := (ls3 + [TxSend] + [NicTransmit])[|ls|..];
    }
  }

  lemma ContinuedPrefix(ls: seq<Label>, ls': seq<Label>)
    requires Continues(ls, ls')
    ensures ls <= ls'
  {
  }

  lemma LongPrefix(ls: seq<Label>, ls1: seq<Label>, ls2: seq<Label>, ls3: seq<Label>)
    requires ls <= ls1 <= ls2 <= ls3
    ensures ls <= ls3 + [TxSend] + [NicTransmit]
  {
  }

  /** From every state that a clean schedule reaches, whatever the burst, some clean continuation
      lets another packet out if and only if the NIC still holds one or the transmitter is not
      doomed to a race. */
  lemma GoesOnIff(cfg: Config, ls: seq<Label>)
    requires BothExist(cfg) && CleanRun(cfg, ls) && Run(cfg, ls).Some?
    ensures |Run(cfg, ls).value.secs| == 2 && Run(cfg, ls).value.active < 2
    ensures (exists more :: Longer(cfg, ls, more))
       <==> (Run(cfg, ls).value.nic != [] || !Doomed(Run(cfg, ls).value))
  {
    hide Run, Avoids, Core, Source, Doomed, Orderly;
    CleanCore(cfg, ls);
    var s := Run(cfg, ls).value;
    DoomedFacts(cfg, s);
    if s.nic != [] || !Doomed(s) {
      var more := GoesOn(cfg, ls, s);
      assert Longer(cfg, ls, more);
    } else {
      forall more
        ensures !Longer(cfg, ls, more)
      {
        if Longer(cfg, ls, more) {
          AvoidsFewer(cfg, ls + more, CLEAN, {Racing});
          DoomedStays(cfg, ls, more);
        }
      }
    }
  }

  lemma FullBurst(cfg: Config, s: State, s': State)
    requires BothExist(cfg) && AtSend(cfg, s, s') && s.quota.Forever? && BurstFitsNext(cfg, s)
    ensures Shape(cfg, s') && s'.tx.Sending? && Idle(s') && |s'.wire| == |s.wire|
    ensures 0 < Draw(cfg, s'.quota) && s'.index + Draw(cfg, s'.quota) <= cfg.caps[s'.active]
  {
    hide Source, Readable, ValidBufs, ValidSlots;
  }

  lemma SameFit(cfg: Config, s: State, s': State)
    requires |cfg.caps| == 2 && s.active < 2 && s'.active == s.active && s'.index == s.index
    ensures BurstFitsNext(cfg, s) <==> BurstFitsNext(cfg, s')
  {
  }

  /** One packet more, sending forever, with no doomed read on the way. */
  lemma OnePacketMore(cfg: Config, ls: seq<Label>, s: State) returns (ls': seq<Label>, s': State)
    requires BothExist(cfg) && Reached(cfg, ls, s, CLEAN) && |cfg.caps| == |s.secs| == 2 && s.active < 2
    requires s.sending && s.quota.Forever? && !Doomed(s) && (s.nic != [] || BurstFitsNext(cfg, s))
    ensures Reached(cfg, ls', s', CLEAN) && Continues(ls, ls') && |s'.wire| == |s.wire| + 1
    ensures |s'.secs| == 2 && s'.active < 2 && s'.sending && s'.quota.Forever? && !Doomed(s')
  {
    assert !IsCommand(TxSend) && !IsCommand(NicTransmit);
    hide *;
    ReachedOrderly(cfg, ls, s);
    ContinuesSelf(ls);
    if s.nic != [] {
      ReachedShape(cfg, ls, s, CLEAN);
      HarmlessClears(cfg, s, NicTransmit, CLEAN);
      TransmitFrame(cfg, s);
      ReachNext(cfg, ls, s, NicTransmit, CLEAN);
      OneMore(cfg, s);
      ContinuesBy(ls, ls, NicTransmit);
      ls', s' := ls + [NicTransmit], Transmit(cfg, s);
      SameDoom(s, s');
    } else {
      var ls1, s1 := Emptied(cfg, ls, s);
      var ls2, s2 := ToSend(cfg, ls1, s1);
      SameFit(cfg, s, s1);
      FullBurst(cfg, s1, s2);
      s' := SendsNow(cfg, ls2, s2);
      SameFlags(cfg, s1, s2);
      ContinuesOn(ls, ls1, ls2);
      ContinuesBy(ls, ls2, TxSend);
      ContinuesBy(ls, ls2 + [TxSend], NicTransmit);
      ls' := ls2 + [TxSend] + [NicTransmit];
      ReachedOrderly(cfg, ls', s');
      DoomedFacts(cfg, s');
      TestingNotDoomed(s');
    }
  }

  lemma SameFlags(cfg: Config, s: State, s': State)
    requires AtSend(cfg, s, s')
    ensures s'.sending == s.sending && s'.quota == s.quota
  {
    hide Shape;
  }

  lemma SameDoom(s: State, s': State)
    requires s'.tx == s.tx && s'.secs == s.secs && s'.active == s.active && |s.secs| == 2 && s.active < 2
    ensures Doomed(s') <==> Doomed(s)
  {
  }

  lemma TestingNotDoomed(s: State)
    requires |s.secs| == 2 && s.active < 2 && s.tx.Testing?
    ensures !Doomed(s)
  {
  }

  /** Sending forever, what is not stuck goes on without a command. */
  lemma SendsOn(cfg: Config, ls: seq<Label>, s: State) returns (more: seq<Label>)
    requires BothExist(cfg) && Reached(cfg, ls, s, CLEAN) && |cfg.caps| == |s.secs| == 2 && s.active < 2
    requires s.sending && s.quota.Forever? && (s.nic != [] || (!Doomed(s) && BurstFitsNext(cfg, s)))
    ensures Longer(cfg, ls, more) && NoCommands(more, 0)
  {
    hide *;
    ReachedOrderly(cfg, ls, s);
    if s.nic != [] {
      more := [NicTransmit];
      TransmitsNow(cfg, ls, s, more);
    } else {
      var ls', s' := OnePacketMore(cfg, ls, s);
      ContinuedPrefix(ls, ls');
      LongerBy(cfg, ls, s, ls', s');
      more := ls'[|ls|..];
      TailHasNone(ls, ls');
    }
  }

  lemma TailHasNone(ls: seq<Label>, ls': seq<Label>)
    requires Continues(ls, ls')
    ensures NoCommands(ls'[|ls|..], 0)
  {
    forall i | 0 <= i < |ls'[|ls|..]|
      ensures !ls'[|ls|..][i].Start? && !ls'[|ls|..][i].Stop?
    {
      assert ls'[|ls|..][i] == ls'[|ls| + i];
    }
  }

  /** Sending forever and left alone: another packet can go out, in a clean continuation without
      commands, if and only if the NIC still holds one, or the transmitter is not doomed and a
      full burst ends within the section it comes from. A burst larger than that section is never
      taken, so the port falls silent there. */
  lemma SendsForeverIff(cfg: Config, ls: seq<Label>)
    requires BothExist(cfg) && CleanRun(cfg, ls) && Run(cfg, ls).Some?
    requires Run(cfg, ls).value.sending && Run(cfg, ls).value.quota.Forever?
    ensures (exists more :: Longer(cfg, ls, more) && NoCommands(more, 0)) <==> !Stuck(cfg, Run(cfg, ls).value)
  {
    hide Run, Avoids, Core, Source, Doomed, Orderly, BurstFitsNext;
    CleanCore(cfg, ls);
    var s := Run(cfg, ls).value;
    DoomedFacts(cfg, s);
    if !Stuck(cfg, s) {
      var more := SendsOn(cfg, ls, s);
      assert Longer(cfg, ls, more) && NoCommands(more, 0);
    } else {
      forall more
        ensures !(Longer(cfg, ls, more) && NoCommands(more, 0))
      {
        if Longer(cfg, ls, more) && NoCommands(more, 0) {
          StuckStays(cfg, ls, more);
        }
      }
    }
  }

  /** On a burst boundary a burst that divides both capacities fits. */
  lemma AlignedFits(cfg: Config, s: State)
    requires TwoSections(cfg) && Shape(cfg, s) && Aligned(cfg, s) && s.quota.Forever? && s.index <= cfg.caps[s.active]
    requires cfg.burst <= cfg.caps[0] && cfg.burst <= cfg.caps[1]
    ensures |cfg.caps| == 2 && s.active < 2 && BurstFitsNext(cfg, s)
  {
    hide Source, Readable, ValidBufs, ValidSlots, Wrap;
    if s.index < cfg.caps[s.active] {
      BurstFits(s.index, cfg.caps[s.active], cfg.burst);
    }
  }

  /** With a burst that divides both capacities, started only on burst boundaries and sending
      forever, the port goes on unless it is doomed to a race: the NIC takes and returns, the
      worker refills, and no command is needed. */
  lemma SuitingBurstSendsOn(cfg: Config, ls: seq<Label>)
    requires TwoSections(cfg) && cfg.burst <= cfg.caps[0] && cfg.burst <= cfg.caps[1]
    requires Avoids(cfg, ls, {Racing, Overwriting, Misaligned}) && Run(cfg, ls).Some?
    requires Run(cfg, ls).value.sending && Run(cfg, ls).value.quota.Forever?
    ensures |Run(cfg, ls).value.secs| == 2 && Run(cfg, ls).value.active < 2
    ensures (exists more :: Longer(cfg, ls, more) && NoCommands(more, 0))
       <==> (Run(cfg, ls).value.nic != [] || !Doomed(Run(cfg, ls).value))
  {
    hide Run, Avoids, Core, Source, Doomed, Turns, Aligned, BurstFitsNext, Longer;
    AvoidsFewer(cfg, ls, {Racing, Overwriting, Misaligned}, {Racing, Misaligned});
    AlignedRunsDoNotOverrun(cfg, ls);
    AlignedRunsAreClean(cfg, ls);
    SendsForeverIff(cfg, ls);
    var s := Run(cfg, ls).value;
    DoomedFacts(cfg, s);
    WithinEnd(cfg, s);
    AlignedFits(cfg, s);
  }

  lemma WithinEnd(cfg: Config, s: State)
    requires Orderly(cfg, s)
    ensures Shape(cfg, s) && s.index <= cfg.caps[s.active]
  {
    hide Sections, Standing, Contents, Source, Pools, Readable, ValidBufs, ValidSlots;
  }
}
