/** Exactly which bursts, and exactly which starts, keep every pass over a section complete. */
module ReplayOverruns {
  import opened Arith
  import opened Bytes
  import opened PcapFile
  import opened PcapReader
  import opened Replay
  import opened ReplayControl
  import opened ReplaySafety
  import opened ReplayLiveness
  import opened ReplayBursts
  import opened ReplaySchedules

  ghost predicate NeverOverruns(cfg: Config, hs: set<Hazard>)
    requires Usable(cfg)
  {
    forall ls :: Avoids(cfg, ls, hs) ==> Avoids(cfg, ls, {Overrunning})
  }

  /** If the last step of the schedule switches, it ends a complete pass. */
  ghost predicate EndsPass(cfg: Config, ls: seq<Label>, l: Label)
    requires Usable(cfg)
  {
    Run(cfg, ls).Some? && Run(cfg, ls + [l]).Some? && Run(cfg, ls + [l]).value.active != Run(cfg, ls).value.active
    ==> PassComplete(cfg, Run(cfg, ls).value)
  }

  /** Every switch of every schedule without the hazards `hs` ends a complete pass. */
  ghost predicate SwitchesComplete(cfg: Config, hs: set<Hazard>)
    requires Usable(cfg)
  {
    forall ls, l :: Avoids(cfg, ls + [l], hs) ==> EndsPass(cfg, ls, l)
  }

  lemma NoOverrunThenComplete(cfg: Config, hs: set<Hazard>)
    requires BothExist(cfg) && Racing in hs && NeverOverruns(cfg, hs)
    ensures SwitchesComplete(cfg, hs)
  {
    hide Run, Avoids, Source, PassComplete;
    forall ls, l | Avoids(cfg, ls + [l], hs)
      ensures EndsPass(cfg, ls, l)
    {
      AvoidsFewer(cfg, ls + [l], hs, {Racing});
      AvoidsBoth(cfg, ls + [l], {Racing}, {Overrunning});
      assert {Racing} + {Overrunning} == {Racing, Overrunning};
      if Run(cfg, ls + [l]).Some? {
        SwitchesEndPasses(cfg, ls, l);
      }
    }
  }

  // ------------------------------------------------------------ past the end

  /** Two counts that together go past the end of a section of `cap` slots. */
  ghost predicate Overshoots(b: nat, cap: nat, k1: nat, k2: nat, hs: set<Hazard>)
    requires b > 0
  {
    && 0 < k1 < cap && 0 < k2 <= cap < k1 + k2
    && StartsWithin(0, k1, b, cap) && StartsWithin(k1, k2, b, cap)
    && Overrunning !in hs && (Misaligned in hs ==> Wrap(k1, b) == 0)
  }

  lemma {:induction false} LastBoundary(cap: nat, b: nat)
    requires 0 < b <= cap
    ensures Wrap(cap, b) < b <= cap - Wrap(cap, b) && Wrap(cap - Wrap(cap, b), b) == 0
  {
    if cap - b >= b {
      LastBoundary(cap - b, b);
    } else {
      assert Wrap(cap, b) == Wrap(cap - b, b) == cap - b;
    }
  }

  /** From the last burst boundary one more burst goes past the end, if the end is not one. From
      slot 1 a whole round of bursts does. */
  lemma Overshooting(b: nat, cap: nat, hs: set<Hazard>) returns (k1: nat, k2: nat)
    requires b > 1 && cap > 1 && Overrunning !in hs && (Misaligned in hs ==> !Suits(cap, b))
    ensures Overshoots(b, cap, k1, k2, hs)
  {
    if !Suits(cap, b) {
      k1, k2 := cap - Wrap(cap, b), b;
      LastBoundary(cap, b);
      WithinSection(0, k1, b, cap);
    } else {
      k1, k2 := 1, cap;
      if cap >= b {
        WholeBursts(1, cap, b, cap);
      }
    }
  }

  lemma PlayedTwice(s: State, s1: State, s2: State, k1: nat, k2: nat)
    requires Played(s, s1, k1) && Played(s1.(sending := false), s2, k2)
    ensures Played(s, s2, k1 + k2)
  {
  }

  lemma StillStopped(cfg: Config, s: State, s1: State, k: nat)
    requires Stopped(cfg, s) && s.index == 0 && Shape(cfg, s1) && Played(s, s1, k) && k < cfg.caps[s.active]
    ensures s1.tx.Testing? && s1.sending && s1.quota == Count(0) && s1.active == s.active
    ensures s1.index == k < s1.secs[s1.active].loaded
    ensures Shape(cfg, s1.(sending := false)) ==> Stopped(cfg, s1.(sending := false))
  {
    hide Readable, ValidBufs, ValidSlots;
  }

  /** From a stop at the start of a section, two counts leave the index past its end. */
  lemma Overshoot(cfg: Config, ls: seq<Label>, s: State, k1: nat, k2: nat, hs: set<Hazard>)
    returns (ls': seq<Label>, s': State)
    requires Usable(cfg) && Reached(cfg, ls, s, hs) && Stopped(cfg, s) && s.index == 0
    requires Overshoots(cfg.burst, cfg.caps[s.active], k1, k2, hs)
    ensures Shape(cfg, s') && Reached(cfg, ls', s', hs) && Played(s, s', k1 + k2)
  {
    hide Reached, Stopped, Played, StartsWithin, Wrap;
    FromTheStart(cfg);
    var ls1, s1 := PlayPart(cfg, ls, s, k1, hs);
    StillStopped(cfg, s, s1, k1);
    StopMidSection(cfg, ls1, s1, hs);
    ls', s' := PlayPart(cfg, ls1 + [TxTest] + [TxSend], s1.(sending := false), k2, hs);
    PlayedTwice(s, s1, s', k1, k2);
  }

  lemma FromTheStart(cfg: Config)
    requires cfg.burst > 0
    ensures Wrap(0, cfg.burst) == 0
  {
  }

  // ------------------------------------------------------------- late switches

  /** The next section is entered when the active one has been overrun. */
  ghost predicate LateSwitch(cfg: Config, ls: seq<Label>, l: Label, hs: set<Hazard>)
    requires Usable(cfg)
  {
    Avoids(cfg, ls + [l], hs) && !EndsPass(cfg, ls, l)
  }

  lemma SwitchedLate(cfg: Config, ls: seq<Label>, s: State, l: Label, s': State, hs: set<Hazard>)
    requires Usable(cfg) && Shape(cfg, s) && Reached(cfg, ls, s, hs) && Reached(cfg, ls + [l], s', hs)
    requires s.index > cfg.caps[s.active] && s'.active != s.active
    ensures LateSwitch(cfg, ls, l, hs)
  {
    hide Run, Avoids, Readable, ValidBufs, ValidSlots, SwitchPoint, Order;
  }

  /** The first section is left late: the second is ready, so the next decision enters it. */
  lemma LateFromFirst(cfg: Config, hs: set<Hazard>) returns (ls: seq<Label>, l: Label)
    requires BothExist(cfg) && cfg.burst > 1 && cfg.caps[0] > 1
    requires Overrunning !in hs && (Misaligned in hs ==> !Suits(cfg.caps[0], cfg.burst))
    ensures LateSwitch(cfg, ls, l, hs)
  {
    hide Reached, Source, LateSwitch, StartsWithin, Wrap, Stopped, Played, Shape, Next, JustOpened, Suits;
    var s0 := StartUp(cfg, hs);
    FirstFacts(cfg, s0);
    var k1, k2 := Overshooting(cfg.burst, cfg.caps[0], hs);
    var ls1, s1 := Overshoot(cfg, [], s0, k1, k2, hs);
    FirstOverrun(cfg, s0, s1, k1 + k2);
    SwitchNow(cfg, ls1, s1, hs);
    SwitchGoesOn(cfg, s1);
    SwitchedLate(cfg, ls1, s1, TxTest, Switch(cfg, s1), hs);
    ls, l := ls1, TxTest;
  }

  lemma FirstOverrun(cfg: Config, s: State, s': State, k: nat)
    requires BothExist(cfg) && Stopped(cfg, s) && JustOpened(cfg, s) && Played(s, s', k) && Shape(cfg, s')
    requires k > cfg.caps[0]
    ensures s'.active == 0 && s'.tx.Testing? && s'.sending && s'.index == k && s'.secs[0].loaded == cfg.caps[0]
    ensures NextSection(s') == 1
    ensures s'.secs[1].cap > 0 && s'.secs[1].loaded > 0 && !s'.secs[1].locked
  {
    hide HasRead, Source, Readable, Holds, ValidBufs, ValidSlots;
  }

  lemma SwitchGoesOn(cfg: Config, s: State)
    requires Shape(cfg, s)
    ensures Switch(cfg, s).active != s.active
  {
    hide Readable, ValidBufs, ValidSlots;
  }

  /** Waiting, past the end of the second section, for the first to be refilled. */
  ghost predicate WaitsLate(cfg: Config, s: State) {
    Shape(cfg, s) && s.tx.AwaitUnlock? && s.active == 1 && s.index > cfg.caps[1] && s.nic == []
  }

  /** The second section is left late: the first is being refilled, so the transmitter waits for
      it, past the end, and then enters it. */
  lemma LateFromSecond(cfg: Config, hs: set<Hazard>) returns (ls: seq<Label>, l: Label)
    requires BothExist(cfg) && cfg.burst > 1 && cfg.caps[1] > 1 && Racing in hs
    requires Overrunning !in hs && (Misaligned in hs ==> !Suits(cfg.caps[1], cfg.burst))
    ensures LateSwitch(cfg, ls, l, hs)
  {
    hide Reached, Source, LateSwitch, StartsWithin, Wrap, Stopped, Played, Shape, Next, Suits;
    var ls0, s0 := ToSecond(cfg, hs);
    var k1, k2 := Overshooting(cfg.burst, cfg.caps[1], hs);
    var ls1, s1 := Overshoot(cfg, ls0, s0, k1, k2, hs);
    SecondOverrun(cfg, s0, s1, k1 + k2);
    HarmlessClears(cfg, s1, TxTest, hs);
    ReachNext(cfg, ls1, s1, TxTest, hs);
    ls, l := LeavesLate(cfg, ls1 + [TxTest], Test(cfg, s1), hs);
  }

  lemma SecondOverrun(cfg: Config, s: State, s': State, k: nat)
    requires BothExist(cfg) && Stopped(cfg, s) && s.active == 1 && s.index == 0 && Played(s, s', k) && Shape(cfg, s')
    requires s.secs[0].locked && s.secs[0].loaded == cfg.caps[0] && k > cfg.caps[1]
    ensures Next(cfg, s', TxTest) == Some(Test(cfg, s')) && WaitsLate(cfg, Test(cfg, s'))
  {
    hide Source, Readable, ValidBufs, ValidSlots;
  }

  lemma LeavesLate(cfg: Config, ls: seq<Label>, s: State, hs: set<Hazard>) returns (ls': seq<Label>, l: Label)
    requires BothExist(cfg) && Reached(cfg, ls, s, hs) && Racing in hs && WaitsLate(cfg, s)
    ensures LateSwitch(cfg, ls', l, hs)
  {
    hide Reached, Core, Source, LateSwitch, Shape, Next, SwitchPoint, Race;
    ReachedDistance(cfg, ls, s, hs);
    var ls1, s1 := WaitCanWake(cfg, ls, s, hs);
    ReachedCore(cfg, ls1, s1, hs);
    ReachedShape(cfg, ls1, s1, hs);
    WokenEnters(cfg, s1);
    WakeClears(cfg, s1, hs);
    ReachNext(cfg, ls1, s1, TxWake, hs);
    SwitchGoesOn(cfg, s1);
    SwitchedLate(cfg, ls1, s1, TxWake, Switch(cfg, s1), hs);
    ls', l := ls1, TxWake;
  }

  // ------------------------------------------------------------- exactly when

  lemma LateThenIncomplete(cfg: Config, ls: seq<Label>, l: Label, hs: set<Hazard>)
    requires Usable(cfg) && LateSwitch(cfg, ls, l, hs)
    ensures !SwitchesComplete(cfg, hs)
  {
    hide EndsPass, Avoids;
  }

  lemma SuitingBursts(cfg: Config, hs: set<Hazard>)
    requires TwoSections(cfg) && Racing in hs && Misaligned in hs
    ensures NeverOverruns(cfg, hs)
  {
    hide Run, Avoids, Source, Orderly, Aligned;
    forall ls | Avoids(cfg, ls, hs)
      ensures Avoids(cfg, ls, {Overrunning})
    {
      AvoidsFewer(cfg, ls, hs, {Racing, Misaligned});
      AlignedRunsDoNotOverrun(cfg, ls);
      AvoidsFewer(cfg, ls, {Racing, Overrunning}, {Overrunning});
    }
  }

  /** A burst that does not suit a section is at least 2 and no larger than the section. */
  lemma Unsuited(cap: nat, b: nat)
    requires b > 0 && !Suits(cap, b)
    ensures b > 1 && cap > 1
  {
    BurstOfOne(cap);
  }

  /** Over the schedules without race and misaligned start, whatever else they are kept from, for
      every source: no section is overrun if and only if every switch ends a complete pass, if
      and only if the burst divides each capacity it does not exceed. Nothing changes when they
      are also kept from overwrites, and from handing over a burst before the NIC is empty. */
  lemma SuitingBurstsIff(cfg: Config, hs: set<Hazard>)
    requires BothExist(cfg) && Racing in hs && Misaligned in hs && Overrunning !in hs
    ensures NeverOverruns(cfg, hs) <==> TwoSections(cfg)
    ensures SwitchesComplete(cfg, hs) <==> TwoSections(cfg)
  {
    hide NeverOverruns, SwitchesComplete, LateSwitch, Source, Suits;
    if TwoSections(cfg) {
      SuitingBursts(cfg, hs);
    } else if !Suits(cfg.caps[0], cfg.burst) {
      Unsuited(cfg.caps[0], cfg.burst);
      var ls, l := LateFromFirst(cfg, hs);
      LateThenIncomplete(cfg, ls, l, hs);
    } else {
      Unsuited(cfg.caps[1], cfg.burst);
      var ls, l := LateFromSecond(cfg, hs);
      LateThenIncomplete(cfg, ls, l, hs);
    }
    if NeverOverruns(cfg, hs) {
      NoOverrunThenComplete(cfg, hs);
    }
  }

  /** No place to start from is off a burst boundary. */
  ghost predicate OnlyBoundaries(cfg: Config)
    requires |cfg.caps| == 2
  {
    cfg.burst == 1 || (cfg.caps[0] == 1 && cfg.caps[1] == 1)
  }

  lemma NoMisalignedStart(cfg: Config, s: State, l: Label)
    requires BothExist(cfg) && OnlyBoundaries(cfg) && Shape(cfg, s)
    ensures !MisalignedStart(cfg, s, l)
  {
    hide Source, Readable, ValidBufs, ValidSlots;
    BurstOfOne(s.index);
  }

  lemma {:induction false} AlwaysAligned(cfg: Config, ls: seq<Label>)
    requires BothExist(cfg) && OnlyBoundaries(cfg)
    ensures Avoids(cfg, ls, {Misaligned})
  {
    hide Run, Source, OnlyBoundaries, MisalignedStart;
    if ls != [] {
      AlwaysAligned(cfg, ls[..|ls| - 1]);
      if Run(cfg, ls[..|ls| - 1]).Some? {
        NoMisalignedStart(cfg, Run(cfg, ls[..|ls| - 1]).value, ls[|ls| - 1]);
      }
    }
  }

  lemma OnlyBoundariesSuit(cfg: Config, hs: set<Hazard>)
    requires BothExist(cfg) && OnlyBoundaries(cfg) && Racing in hs
    ensures NeverOverruns(cfg, hs)
  {
    hide Run, Avoids, Source;
    BurstOfOne(cfg.caps[0]);
    BurstOfOne(cfg.caps[1]);
    assert TwoSections(cfg);
    SuitingBursts(cfg, hs + {Misaligned});
    forall ls | Avoids(cfg, ls, hs)
      ensures Avoids(cfg, ls, {Overrunning})
    {
      AlwaysAligned(cfg, ls);
      AvoidsBoth(cfg, ls, hs, {Misaligned});
    }
  }

  /** Over the schedules without race, started anywhere: the same if and only if the burst is 1,
      or both sections hold a single packet. In every other set-up there is a start that overruns
      a section. */
  lemma AnyStartIff(cfg: Config, hs: set<Hazard>)
    requires BothExist(cfg) && Racing in hs && Misaligned !in hs && Overrunning !in hs
    ensures NeverOverruns(cfg, hs) <==> OnlyBoundaries(cfg)
    ensures SwitchesComplete(cfg, hs) <==> OnlyBoundaries(cfg)
  {
    hide NeverOverruns, SwitchesComplete, LateSwitch, Source, Suits;
    if OnlyBoundaries(cfg) {
      OnlyBoundariesSuit(cfg, hs);
    } else if cfg.caps[0] > 1 {
      var ls, l := LateFromFirst(cfg, hs);
      LateThenIncomplete(cfg, ls, l, hs);
    } else {
      var ls, l := LateFromSecond(cfg, hs);
      LateThenIncomplete(cfg, ls, l, hs);
    }
    if NeverOverruns(cfg, hs) {
      NoOverrunThenComplete(cfg, hs);
    }
  }
}
