/** Which bursts and starts keep the replay from overrunning a section. */
module ReplayBursts {
  import opened Arith
  import opened Bytes
  import opened PcapFile
  import opened PcapReader
  import opened Replay
  import opened ReplayControl
  import opened ReplaySafety

  /** A burst ends a section exactly: it divides the capacity, or it is larger, and then only a
      last, short draw can be taken at all. */
  predicate Suits(cap: nat, burst: nat)
    requires burst > 0
  {
    cap < burst || Wrap(cap, burst) == 0
  }

  /** Both sections exist and tx_burst suits each. */
  ghost predicate TwoSections(cfg: Config) {
    BothExist(cfg) && Suits(cfg.caps[0], cfg.burst) && Suits(cfg.caps[1], cfg.burst)
  }

  /** The packet index is on a burst boundary, unless the section or the count is at its end. */
  ghost predicate Aligned(cfg: Config, s: State)
    requires Shape(cfg, s) && cfg.burst > 0
  {
    s.index == cfg.caps[s.active] || Wrap(s.index, cfg.burst) == 0 || s.quota == Count(0)
  }

  /** A burst that starts on a burst boundary before the end stays within the section. */
  lemma {:induction false} BurstFits(index: nat, cap: nat, b: nat)
    requires b > 0 && Wrap(index, b) == 0 && Wrap(cap, b) == 0 && index < cap
    ensures index + b <= cap && Wrap(index + b, b) == 0
  {
    if index >= b {
      BurstFits(index - b, cap - b, b);
    }
  }

  lemma OrderBoundsFree(s: State, sec: nat, cap: nat, h: nat)
    requires sec < |s.secs| && Order(s, sec) == Circle(cap, h)
    ensures |s.secs[sec].free| <= cap
  {
    hide Sel;
    assert |Order(s, sec)| == cap;
  }

  /** A draw that can be taken ends within the section, and off a burst boundary only when it
      exhausts the count. */
  lemma SendAligned(cfg: Config, s: State)
    requires TwoSections(cfg) && Shape(cfg, s) && Aligned(cfg, s) && s.index < cfg.caps[s.active]
    requires |s.secs[s.active].free| <= cfg.caps[s.active]
    ensures !Overrun(cfg, s, TxSend) && Aligned(cfg, Send(cfg, s))
  {
    hide Source, Readable, ValidBufs, ValidSlots;
    if cfg.burst <= cfg.caps[s.active] && Wrap(s.index, cfg.burst) == 0 {
      BurstFits(s.index, cfg.caps[s.active], cfg.burst);
    }
  }

  lemma OrderlyFacts(cfg: Config, s: State)
    requires Orderly(cfg, s)
    ensures Shape(cfg, s) && (s.tx.Sending? ==> s.index < cfg.caps[s.active])
    ensures |s.secs[s.active].free| <= cfg.caps[s.active]
  {
    hide Sections, Contents, Readable, ValidBufs, ValidSlots, Order, Circle, Source;
    OrderBoundsFree(s, s.active, cfg.caps[s.active], s.index);
  }

  lemma OtherStepsAligned(cfg: Config, s: State, l: Label)
    requires Shape(cfg, s) && cfg.burst > 0 && Aligned(cfg, s) && Next(cfg, s, l).Some? && !l.TxSend?
    requires !MisalignedStart(cfg, s, l) && s.index <= cfg.caps[s.active]
    ensures Aligned(cfg, Next(cfg, s, l).value)
  {
    hide Readable, ValidBufs, ValidSlots, ReadNext, Wrap;
    assert Wrap(0, cfg.burst) == 0 by { NothingLeft(cfg.burst); }
  }

  lemma NothingLeft(b: nat)
    requires b > 0
    ensures Wrap(0, b) == 0
  {
  }

  lemma StepAligned(cfg: Config, s: State, l: Label)
    requires TwoSections(cfg) && Orderly(cfg, s) && Shape(cfg, s) && Aligned(cfg, s)
    requires !Race(cfg, s, l) && !MisalignedStart(cfg, s, l) && Next(cfg, s, l).Some?
    ensures !Overrun(cfg, s, l)
    ensures Orderly(cfg, Next(cfg, s, l).value) && Aligned(cfg, Next(cfg, s, l).value)
  {
    OrderlyFacts(cfg, s);
    assert s.index <= cfg.caps[s.active];
    hide Aligned, Orderly, Race, MisalignedStart, Shape;
    if l.TxSend? {
      if s.tx.Sending? {
        SendAligned(cfg, s);
      }
    } else {
      hide Next;
      OtherStepsAligned(cfg, s, l);
    }
    hide Next, Overrun;
    StepTurns(cfg, s, l);
  }

  /** With bursts that suit both sections, a race-free schedule that starts only on burst
      boundaries overruns no section. */
  lemma {:induction false} AlignedRunsDoNotOverrun(cfg: Config, ls: seq<Label>)
    requires TwoSections(cfg) && Avoids(cfg, ls, {Racing, Misaligned})
    ensures Avoids(cfg, ls, {Racing, Overrunning})
    ensures Run(cfg, ls).Some? ==> Orderly(cfg, Run(cfg, ls).value) && Aligned(cfg, Run(cfg, ls).value)
  {
    hide Orderly, Aligned, Next, Opened, Source, Race, Overrun, MisalignedStart, Overwrite, Hits, Clears;
    if ls == [] {
      OpenedAligned(cfg);
    } else {
      var before, l := ls[..|ls| - 1], ls[|ls| - 1];
      AlignedRunsDoNotOverrun(cfg, before);
      if Run(cfg, before).Some? {
        var s := Run(cfg, before).value;
        ClearsEach(cfg, s, l, {Racing, Misaligned});
        StepOrNothing(cfg, s, l);
      }
    }
  }

  lemma OpenedAligned(cfg: Config)
    requires TwoSections(cfg)
    ensures Opened(cfg).Some? && Orderly(cfg, Opened(cfg).value) && Aligned(cfg, Opened(cfg).value)
  {
    hide Opened, Source, Core, Turns, Sent, JustOpened;
    OpensReplay(cfg);
    OpenedInv(cfg);
    JustOpenedAligned(cfg, Opened(cfg).value);
  }

  lemma JustOpenedAligned(cfg: Config, s: State)
    requires BothExist(cfg) && Shape(cfg, s) && JustOpened(cfg, s)
    ensures Aligned(cfg, s)
  {
    hide HasRead, Source, Readable, Holds, ValidBufs, ValidSlots;
  }

  lemma StepOrNothing(cfg: Config, s: State, l: Label)
    requires TwoSections(cfg) && Orderly(cfg, s) && Shape(cfg, s) && Aligned(cfg, s)
    requires !Race(cfg, s, l) && !MisalignedStart(cfg, s, l)
    ensures Clears(cfg, s, l, {Racing, Overrunning})
    ensures Next(cfg, s, l).Some? ==> Orderly(cfg, Next(cfg, s, l).value) && Aligned(cfg, Next(cfg, s, l).value)
  {
    hide Orderly, Aligned, Race, MisalignedStart, Shape, Send;
    if Overrun(cfg, s, l) {
      assert Next(cfg, s, l).Some?;
    }
    hide Next, Overrun;
    if Next(cfg, s, l).Some? {
      StepAligned(cfg, s, l);
    }
  }

  /** So if it also overwrites nothing it is clean, and the refinement applies. */
  lemma AlignedRunsAreClean(cfg: Config, ls: seq<Label>)
    requires TwoSections(cfg) && Avoids(cfg, ls, {Racing, Overwriting, Misaligned})
    ensures CleanRun(cfg, ls)
  {
    hide Avoids, Run, Source, Orderly, Aligned;
    AvoidsFewer(cfg, ls, {Racing, Overwriting, Misaligned}, {Racing, Misaligned});
    AvoidsFewer(cfg, ls, {Racing, Overwriting, Misaligned}, {Overwriting});
    AlignedRunsDoNotOverrun(cfg, ls);
    AvoidsBoth(cfg, ls, {Racing, Overrunning}, {Overwriting});
    assert {Racing, Overrunning} + {Overwriting} == {Racing, Overwriting, Overrunning};
  }

  /** With a burst of 1 no start is misaligned. */
  lemma {:induction false} BurstOfOne(index: nat)
    ensures Wrap(index, 1) == 0
  {
    if index >= 1 {
      BurstOfOne(index - 1);
    }
  }
}
