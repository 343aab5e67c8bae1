/** The engine before its first switch: all there is with one section, and the first pass
    with two. Here nothing is assumed of the burst size, of the starts or of the schedule. */
module ReplayFirstPass {
  import opened Arith
  import opened Bytes
  import opened PcapFile
  import opened PcapReader
  import opened Replay
  import opened ReplayControl
  import opened ReplaySafety
  import opened ReplayLiveness
  import opened ReplayBursts
  import opened ReplaySchedules
  import opened ReplayOverruns

  const ALIGNED := {Racing, Overwriting, Misaligned, Backlogged}
  const ANY_START := {Racing, Overwriting, Backlogged}

  ghost predicate Sound(cfg: Config) {
    Usable(cfg) && Source(cfg.files)
  }

  /** No switch has been made and nothing asked of the worker. */
  ghost predicate Quiet(cfg: Config, s: State)
    requires Shape(cfg, s)
  {
    && s.active == 0 && |s.passes| == 1
    && s.request == -1 && s.inProgress == -1 && s.worker == Worker.Waiting
    && (s.tx.Testing? || s.tx.Sending?)
    && forall i :: 0 <= i < 2 ==> s.secs[i].loaded == cfg.caps[i] && !s.secs[i].locked
  }

  /** What left the port, then what the NIC holds, goes round the first `c` records. */
  ghost predicate GoesRound(files: seq<seq<byte>>, c: nat, wire: seq<Packet>, nic: seq<Buf>, slots: seq<Packet>)
    requires Source(files) && c > 0
  {
    && (forall i :: 0 <= i < |wire| ==> wire[i] == Stream(files, Wrap(i, c)))
    && (forall p :: 0 <= p < |nic| ==>
          nic[p].sec == 0 && nic[p].slot < |slots| && slots[nic[p].slot] == Stream(files, Wrap(|wire| + p, c)))
  }

  ghost predicate Rounds(cfg: Config, s: State)
    requires Shape(cfg, s) && Source(cfg.files) && cfg.caps[0] > 0
  {
    && Holds(cfg, s.secs[0], cfg.caps[0], 0)
    && s.index == |s.wire| + |s.nic|
    && GoesRound(cfg.files, cfg.caps[0], s.wire, s.nic, s.secs[0].slots)
    && Order(s, 0) == Circle(cfg.caps[0], s.index)
  }

  ghost predicate FirstPass(cfg: Config, s: State) {
    Sound(cfg) && Shape(cfg, s) && Quiet(cfg, s) && Rounds(cfg, s)
  }

  lemma SendKeepsQuiet(cfg: Config, s: State)
    requires Shape(cfg, s) && Quiet(cfg, s)
    ensures Quiet(cfg, Send(cfg, s))
  {
    hide Readable, ValidBufs, ValidSlots, Draw;
  }

  lemma BurstRounds(cfg: Config, s: State, n: nat)
    requires Sound(cfg) && Shape(cfg, s) && Quiet(cfg, s) && Rounds(cfg, s)
    requires 0 < n == Draw(cfg, s.quota) <= |s.secs[0].free|
    requires forall k :: 0 <= k < n ==> s.secs[0].free[k] == Wrap(s.index + k, cfg.caps[0])
    requires Order(Send(cfg, s), 0) == Circle(cfg.caps[0], s.index + n)
    ensures Rounds(cfg, Send(cfg, s))
  {
    hide Source, Readable, Stream, ValidSlots, Order, Circle;
    var s', c := Send(cfg, s), cfg.caps[0];
    forall p | |s.nic| <= p < |s'.nic|
      ensures s'.nic[p].sec == 0 && s'.nic[p].slot < |s.secs[0].slots|
           && s'.secs[0].slots[s'.nic[p].slot] == Stream(cfg.files, Wrap(|s.wire| + p, c))
    {
      var k := p - |s.nic|;
      assert s'.nic[p] == Buf(0, Wrap(s.index + k, c));
      assert s.secs[0].slots[Wrap(s.index + k, c)] == Stream(cfg.files, 0 + Wrap(s.index + k, c));
    }
  }

  lemma BurstTurns(cfg: Config, s: State, n: nat)
    requires Shape(cfg, s) && s.active == 0 && cfg.caps[0] > 0
    requires Order(s, 0) == Circle(cfg.caps[0], s.index)
    requires 0 < n == Draw(cfg, s.quota) <= |s.secs[0].free|
    ensures forall k :: 0 <= k < n ==> s.secs[0].free[k] == Wrap(s.index + k, cfg.caps[0])
    ensures Order(Send(cfg, s), 0) == Circle(cfg.caps[0], s.index + n)
  {
    hide Sel, Circle, ValidBufs, ValidSlots, Readable, Draw;
    var free, sent, held := s.secs[0].free, Sel(s.done, 0), Sel(s.nic, 0);
    assert free + sent + held == free + (sent + held);
    TurnCircle(free, sent + held, cfg.caps[0], s.index, n);
    SelOfBufs(s.nic, 0, free[..n], 0);
    assert free[n..] + sent + (held + free[..n]) == free[n..] + (sent + held + free[..n]);
  }

  lemma NoBurstRounds(cfg: Config, s: State)
    requires Shape(cfg, s) && Source(cfg.files) && cfg.caps[0] > 0 && Rounds(cfg, s) && s.active == 0
    requires Draw(cfg, s.quota) == 0 || Draw(cfg, s.quota) > |s.secs[0].free|
    ensures Rounds(cfg, Send(cfg, s))
  {
    hide Source, Readable, Stream, Wrap, ValidSlots, ValidBufs, Circle, Sel, Draw;
  }

  lemma SendFirstPass(cfg: Config, s: State)
    requires FirstPass(cfg, s)
    ensures FirstPass(cfg, Send(cfg, s))
  {
    hide Source, Readable, Rounds, ValidSlots, ValidBufs, Send, Circle, Order, Wrap, Draw;
    SendKeepsQuiet(cfg, s);
    var n := Draw(cfg, s.quota);
    if 0 < n <= |s.secs[0].free| {
      RoundsOrder(cfg, s);
      BurstTurns(cfg, s, n);
      BurstRounds(cfg, s, n);
    } else {
      NoBurstRounds(cfg, s);
    }
  }

  lemma RoundsOrder(cfg: Config, s: State)
    requires Shape(cfg, s) && Source(cfg.files) && cfg.caps[0] > 0 && Rounds(cfg, s)
    ensures Order(s, 0) == Circle(cfg.caps[0], s.index)
  {
  }

  lemma SameButQuiet(cfg: Config, s: State, s': State)
    requires Shape(cfg, s) && Shape(cfg, s') && Quiet(cfg, s) && SameBut(s, s')
    ensures Quiet(cfg, s')
  {
    hide Readable, ValidBufs, ValidSlots;
  }

  lemma RoundShifts(files: seq<seq<byte>>, c: nat, wire: seq<Packet>, nic: seq<Buf>, slots: seq<Packet>)
    requires Source(files) && c > 0 && nic != [] && GoesRound(files, c, wire, nic, slots)
    ensures GoesRound(files, c, wire + [slots[nic[0].slot]], nic[1..], slots)
  {
    hide Source, Stream, Wrap;
  }

  lemma TransmitRounds(cfg: Config, s: State)
    requires Shape(cfg, s) && Source(cfg.files) && cfg.caps[0] > 0 && Rounds(cfg, s) && s.nic != []
    ensures Rounds(cfg, Transmit(cfg, s))
  {
    TransmitKeepsOrder(cfg, s, 0);
    RoundShifts(cfg.files, cfg.caps[0], s.wire, s.nic, s.secs[0].slots);
    assert s.nic[0].sec == 0;
    hide Source, Readable, GoesRound, Stream, Holds, ValidSlots, Order, Circle;
  }

  lemma FreeRounds(cfg: Config, s: State)
    requires Shape(cfg, s) && Source(cfg.files) && cfg.caps[0] > 0 && Rounds(cfg, s) && s.done != []
    ensures Rounds(cfg, Free(cfg, s))
  {
    FreeKeepsOrder(cfg, s, 0);
    hide Source, Readable, GoesRound, Stream, ValidSlots, ValidBufs, Order, Circle;
  }

  lemma NicFirstPass(cfg: Config, s: State)
    requires FirstPass(cfg, s)
    ensures s.nic != [] ==> FirstPass(cfg, Transmit(cfg, s))
    ensures s.done != [] ==> FirstPass(cfg, Free(cfg, s))
  {
    hide Source, Readable, Quiet, Rounds, SameBut, ValidBufs, ValidSlots;
    if s.nic != [] {
      TransmitFrame(cfg, s);
      SameButQuiet(cfg, s, Transmit(cfg, s));
      TransmitRounds(cfg, s);
    }
    if s.done != [] {
      FreeFrame(cfg, s);
      SameButQuiet(cfg, s, Free(cfg, s));
      FreeRounds(cfg, s);
    }
  }

  /** The remaining steps of the first pass change neither packets nor queues. */
  lemma ControlFirstPass(cfg: Config, s: State, l: Label)
    requires FirstPass(cfg, s) && Next(cfg, s, l).Some? && |Next(cfg, s, l).value.passes| == 1
    requires !l.TxSend? && !l.NicTransmit? && !l.NicFree?
    ensures FirstPass(cfg, Next(cfg, s, l).value)
  {
    hide Source, Readable, Stream, ValidSlots, ValidBufs, Circle, Sel;
  }

  lemma NextFirstPass(cfg: Config, s: State, l: Label)
    requires FirstPass(cfg, s) && Next(cfg, s, l).Some? && |Next(cfg, s, l).value.passes| == 1
    ensures FirstPass(cfg, Next(cfg, s, l).value)
  {
    hide FirstPass;
    if l.TxSend? {
      SendFirstPass(cfg, s);
    } else if l.NicTransmit? || l.NicFree? {
      NicFirstPass(cfg, s);
    } else {
      hide Next;
      ControlFirstPass(cfg, s, l);
    }
  }

  lemma PassesGrow(cfg: Config, s: State, l: Label)
    requires Shape(cfg, s) && Next(cfg, s, l).Some?
    ensures |s.passes| <= |Next(cfg, s, l).value.passes|
  {
    hide Readable, ValidSlots, ValidBufs, Fill, Send, Transmit, Free, Reset, Take, Finish;
    if l.TxSend? || l.NicTransmit? || l.NicFree? || WorkerLabel(l) {
      OthersKeepPasses(cfg, s, l);
    }
  }

  lemma OthersKeepPasses(cfg: Config, s: State, l: Label)
    requires Shape(cfg, s) && Next(cfg, s, l).Some? && !l.TxTest? && !l.TxRecheck? && !l.TxWake?
    ensures Next(cfg, s, l).value.passes == s.passes
  {
    hide Readable, ValidSlots, ValidBufs, ReadNext;
  }

  lemma {:induction false} RunFirstPass(cfg: Config, ls: seq<Label>)
    requires Sound(cfg) && Run(cfg, ls).Some? && |Run(cfg, ls).value.passes| == 1
    ensures FirstPass(cfg, Run(cfg, ls).value)
  {
    hide FirstPass, Next, Opened, Source;
    if ls == [] {
      OpenedFirstPass(cfg);
    } else {
      var before := ls[..|ls| - 1];
      PassesGrow(cfg, Run(cfg, before).value, ls[|ls| - 1]);
      RunStarted(cfg, before);
      RunFirstPass(cfg, before);
      NextFirstPass(cfg, Run(cfg, before).value, ls[|ls| - 1]);
    }
  }

  lemma {:induction false} RunStarted(cfg: Config, ls: seq<Label>)
    requires Sound(cfg) && Run(cfg, ls).Some?
    ensures |Run(cfg, ls).value.passes| >= 1
  {
    hide Next, Source;
    if ls != [] {
      RunStarted(cfg, ls[..|ls| - 1]);
      PassesGrow(cfg, Run(cfg, ls[..|ls| - 1]).value, ls[|ls| - 1]);
    }
  }

  lemma FreshFirstPass(cfg: Config, s: State)
    requires Sound(cfg) && Shape(cfg, s)
    requires s == Created(cfg, s.cursor).(secs := s.secs, nextChunk := s.nextChunk, passes := s.passes)
    requires |s.passes| == 1
    requires forall i :: 0 <= i < 2 ==> s.secs[i].loaded == cfg.caps[i] && !s.secs[i].locked
    requires s.secs[0].free == seq(cfg.caps[0], i => i) && Holds(cfg, s.secs[0], cfg.caps[0], 0)
    ensures FirstPass(cfg, s)
  {
    hide Source, Stream, Readable, ValidBufs, ValidSlots;
    assert Order(s, 0) == Circle(cfg.caps[0], 0);
  }

  lemma OpenedFirstPass(cfg: Config)
    requires Sound(cfg)
    ensures Opened(cfg).Some? && FirstPass(cfg, Opened(cfg).value)
  {
    hide Opened, Source, Stream, Readable, HasRead, ValidBufs, ValidSlots, FirstPass, Holds;
    if cfg.caps[1] > 0 {
      OpensReplay(cfg);
      FreshFirstPass(cfg, Opened(cfg).value);
    } else {
      OpensOne(cfg);
      FreshFirstPass(cfg, Opened(cfg).value);
    }
  }

  lemma OpensOne(cfg: Config)
    requires Sound(cfg) && cfg.caps[1] == 0
    ensures Opened(cfg).Some?
    ensures var s := Opened(cfg).value;
            && s == Created(cfg, s.cursor).(secs := s.secs, nextChunk := 2, passes := [1])
            && s.secs == [EmptySection(cfg.caps[0]).(slots := s.secs[0].slots, loaded := cfg.caps[0], chunk := 1),
                          EmptySection(0)]
            && Holds(cfg, s.secs[0], cfg.caps[0], 0)
  {
    RewoundHasReadNothing(cfg.files);
    var at := Open(cfg.files, 0).value;
    CreatedShape(cfg, at);
    hide HasRead, Source, Open, LoadSection, Holds, Readable, ValidBufs, ValidSlots;
    LoadsSection(cfg, Created(cfg, at), 0, 0);
  }

  /** With one section, any burst size, any starts and stops and any schedule, the `i`-th packet
      out is record `i mod c` of the source, `c` being the section's capacity: records past the
      `c`-th are never sent. */
  lemma {:induction false} OneSectionRepeats(cfg: Config, ls: seq<Label>)
    requires Sound(cfg) && cfg.caps[1] == 0 && Run(cfg, ls).Some?
    ensures |Run(cfg, ls).value.passes| == 1
    ensures forall i :: 0 <= i < |Run(cfg, ls).value.wire| ==>
              Run(cfg, ls).value.wire[i] == Stream(cfg.files, Wrap(i, cfg.caps[0]))
  {
    OneSectionNeverSwitches(cfg, ls);
    RunFirstPass(cfg, ls);
    hide Run, Source, Stream;
  }

  lemma {:induction false} OneSectionNeverSwitches(cfg: Config, ls: seq<Label>)
    requires Sound(cfg) && cfg.caps[1] == 0 && Run(cfg, ls).Some?
    ensures |Run(cfg, ls).value.passes| == 1
  {
    hide FirstPass, Next, Source;
    if ls != [] {
      var before := ls[..|ls| - 1];
      OneSectionNeverSwitches(cfg, before);
      RunFirstPass(cfg, before);
      NoNextSection(cfg, Run(cfg, before).value, ls[|ls| - 1]);
    }
  }

  lemma NoNextSection(cfg: Config, s: State, l: Label)
    requires FirstPass(cfg, s) && cfg.caps[1] == 0 && Next(cfg, s, l).Some?
    ensures Next(cfg, s, l).value.passes == s.passes
  {
    hide Rounds, Source, Readable, ValidBufs, ValidSlots, ReadNext;
  }

  /** What an overrun sends: in every set-up in which the first section can be overrun, some
      schedule with no other hazard sends the first record again where record c0 of the source
      is due; and with a burst that does not suit the section, it starts on burst boundaries. */
  lemma OverrunRepeats(cfg: Config) returns (ls: seq<Label>, s: State)
    requires BothExist(cfg) && cfg.burst > 1 && cfg.caps[0] > 1
    ensures Reached(cfg, ls, s, if Suits(cfg.caps[0], cfg.burst) then ANY_START else ALIGNED)
    ensures |s.passes| == 1 && |s.wire| > cfg.caps[0] && s.wire[cfg.caps[0]] == Stream(cfg.files, 0)
  {
    hide Reached, Source, Stream, StartsWithin, Suits, Shape;
    var hs := if Suits(cfg.caps[0], cfg.burst) then ANY_START else ALIGNED;
    var s0 := StartUp(cfg, hs);
    FirstFacts(cfg, s0);
    var k1, k2 := Overshooting(cfg.burst, cfg.caps[0], hs);
    ls, s := Overshoot(cfg, [], s0, k1, k2, hs);
    PlayedWire(cfg, s0, s, k1 + k2);
    ReachedFirstPass(cfg, ls, s, hs);
    FirstAgain(cfg, s);
  }

  lemma PlayedWire(cfg: Config, s0: State, s: State, k: nat)
    requires BothExist(cfg) && JustOpened(cfg, s0) && Played(s0, s, k)
    ensures |s.passes| == 1 && |s.wire| == k
  {
    hide HasRead, Source, Holds;
  }

  lemma FirstAgain(cfg: Config, s: State)
    requires FirstPass(cfg, s) && |s.wire| > cfg.caps[0]
    ensures s.wire[cfg.caps[0]] == Stream(cfg.files, 0)
  {
    hide Source, Stream, Readable, ValidBufs, ValidSlots, Holds, Order, Circle;
    assert Wrap(cfg.caps[0], cfg.caps[0]) == 0;
  }

  lemma ReachedFirstPass(cfg: Config, ls: seq<Label>, s: State, hs: set<Hazard>)
    requires Sound(cfg) && Reached(cfg, ls, s, hs) && |s.passes| == 1
    ensures FirstPass(cfg, s)
  {
    hide FirstPass, Run, Avoids, Source;
    RunFirstPass(cfg, ls);
  }
}
