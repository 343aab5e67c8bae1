/** Two sections and any burst: the order of the pools on schedules that overrun no section,
    the data on its way where nothing unsent is overwritten, and the refinement that follows. */
module ReplaySafety {
  import opened Arith
  import opened Bytes
  import opened PcapFile
  import opened PcapReader
  import opened Replay
  import opened ReplayControl

  // -------------------------------------------------------------- the invariant

  /** The slots of section `sec` in a queue of buffers, in order. */
  ghost function Sel(q: seq<Buf>, sec: nat): seq<nat> {
    if q == [] then []
    else Sel(q[..|q| - 1], sec) + if q[|q| - 1].sec == sec then [q[|q| - 1].slot] else []
  }

  /** The slots of a pool in the order in which they can be taken: the free ones, then
      those on their way back. */
  ghost function Order(s: State, sec: nat): seq<nat>
    requires sec < |s.secs|
  {
    s.secs[sec].free + Sel(s.done, sec) + Sel(s.nic, sec)
  }

  /** The slots 0, 1, ..., cap-1 in a circle, from the position `h` steps on. */
  ghost function Circle(cap: nat, h: nat): seq<nat> {
    seq<nat>(cap, i requires 0 <= i < cap => Wrap(h + i, cap))
  }

  ghost predicate Pools(cfg: Config, s: State)
    requires Shape(cfg, s) && s.index <= cfg.caps[s.active]
  {
    && Order(s, s.active) == Circle(cfg.caps[s.active], s.index)
    && Order(s, Other(s)) == Circle(cfg.caps[Other(s)], 0)
  }

  /** What left the port, and what the NIC still holds, is the stream so far. */
  ghost predicate Sent(cfg: Config, s: State, m: nat)
    requires Shape(cfg, s) && Source(cfg.files) && m > 0
  {
    && |s.wire| + |s.nic| == Before(cfg, m - 1) + s.index
    && (forall i :: 0 <= i < |s.wire| ==> s.wire[i] == Stream(cfg.files, i))
    && (forall p :: 0 <= p < |s.nic| ==> s.secs[s.nic[p].sec].slots[s.nic[p].slot] == Stream(cfg.files, |s.wire| + p))
  }

  /** The active section has not been overrun, and each pool is at its place in the circle. */
  ghost predicate Turns(cfg: Config, s: State)
    requires Shape(cfg, s)
  {
    s.index <= cfg.caps[s.active] && Pools(cfg, s)
  }

  ghost predicate Orderly(cfg: Config, s: State) {
    Core(cfg, s) && Turns(cfg, s)
  }

  ghost predicate Inv(cfg: Config, s: State) {
    Orderly(cfg, s) && Sent(cfg, s, |s.passes|)
  }

  // ------------------------------------------------------------ the buffer queues

  lemma {:induction false} SelPrepend(b: Buf, q: seq<Buf>, sec: nat)
    ensures Sel([b] + q, sec) == (if b.sec == sec then [b.slot] else []) + Sel(q, sec)
  {
    if q == [] {
      assert [b] + q == [b];
      assert Sel([b][..0], sec) == [];
    } else {
      assert ([b] + q)[..|q|] == [b] + q[..|q| - 1];
      SelPrepend(b, q[..|q| - 1], sec);
    }
  }

  lemma {:induction false} SelOfBufs(q: seq<Buf>, sec: nat, slots: seq<nat>, of: nat)
    ensures Sel(q + Bufs(sec, slots), of) == Sel(q, of) + if of == sec then slots else []
  {
    var n := |slots|;
    if n == 0 {
      assert q + Bufs(sec, slots) == q;
    } else {
      var qq := q + Bufs(sec, slots);
      assert qq[..|qq| - 1] == q + Bufs(sec, slots[..n - 1]);
      SelOfBufs(q, sec, slots[..n - 1], of);
      assert slots[..n - 1] + [slots[n - 1]] == slots;
    }
  }

  lemma SelAppend(q: seq<Buf>, b: Buf, sec: nat)
    ensures Sel(q + [b], sec) == Sel(q, sec) + if b.sec == sec then [b.slot] else []
  {
    assert (q + [b])[..|q|] == q;
  }

  lemma TransmitKeepsOrder(cfg: Config, s: State, sec: nat)
    requires Shape(cfg, s) && s.nic != [] && sec < 2
    ensures Order(Transmit(cfg, s), sec) == Order(s, sec)
  {
    hide Sel, ValidBufs, ValidSlots, Readable;
    var b, rest := s.nic[0], s.nic[1..];
    SelPrepend(b, rest, sec);
    SelAppend(s.done, b, sec);
    assert [b] + rest == s.nic;
    if b.sec == sec {
      var before := s.secs[sec].free + Sel(s.done, sec);
      assert before + ([b.slot] + Sel(rest, sec)) == s.secs[sec].free + (Sel(s.done, sec) + [b.slot]) + Sel(rest, sec);
    }
  }

  lemma FreeKeepsOrder(cfg: Config, s: State, sec: nat)
    requires Shape(cfg, s) && s.done != [] && sec < 2
    ensures Order(Free(cfg, s), sec) == Order(s, sec)
  {
    hide Sel, ValidBufs, ValidSlots, Readable;
    var b, rest := s.done[0], s.done[1..];
    SelPrepend(b, rest, sec);
    assert [b] + rest == s.done;
    if b.sec == sec {
      var free := s.secs[sec].free;
      assert free + ([b.slot] + Sel(rest, sec)) == (free + [b.slot]) + Sel(rest, sec);
    }
  }

  /** Taking the first `n` of a circle and queueing them again behind turns it by `n`. */
  lemma TurnCircle(free: seq<nat>, rest: seq<nat>, cap: nat, h: nat, n: nat)
    requires n <= |free| && free + rest == Circle(cap, h)
    ensures forall k :: 0 <= k < n ==> cap > 0 && free[k] == Wrap(h + k, cap)
    ensures free[n..] + (rest + free[..n]) == Circle(cap, h + n)
  {
    var c, c' := Circle(cap, h), free[n..] + (rest + free[..n]);
    assert forall k :: 0 <= k < |free| ==> free[k] == c[k];
    assert forall k :: 0 <= k < |rest| ==> rest[k] == c[|free| + k];
    forall k | 0 <= k < cap
      ensures c'[k] == Wrap(h + n + k, cap)
    {
      if k < cap - n {
        assert c'[k] == c[n + k];
      } else {
        assert c'[k] == c[k - (cap - n)];
        assert Wrap(h + n + k, cap) == Wrap(h + n + k - cap, cap);
      }
    }
  }

  /** A full turn leaves the circle as it was. */
  lemma FullTurn(cap: nat)
    ensures Circle(cap, cap) == Circle(cap, 0)
  {
    assert forall i :: 0 <= i < cap ==> Wrap(cap + i, cap) == Wrap(i, cap);
  }

  /** The buffers a burst takes are the next slots in order, and the circle turns by as many. */
  lemma TakenSlots(cfg: Config, s: State, n: nat)
    requires Shape(cfg, s) && s.index + n <= cfg.caps[s.active]
    requires Order(s, s.active) == Circle(cfg.caps[s.active], s.index)
    requires 0 < n == Draw(cfg, s.quota) <= |s.secs[s.active].free|
    ensures forall k :: 0 <= k < n ==> s.secs[s.active].free[k] == s.index + k
    ensures Order(Send(cfg, s), s.active) == Circle(cfg.caps[s.active], s.index + n)
    ensures Order(Send(cfg, s), Other(s)) == Order(s, Other(s))
  {
    hide Sel, Circle, ValidBufs, ValidSlots, Readable;
    var a, s' := s.active, Send(cfg, s);
    var free, sent, held := s.secs[a].free, Sel(s.done, a), Sel(s.nic, a);
    assert free + sent + held == free + (sent + held);
    TurnCircle(free, sent + held, cfg.caps[a], s.index, n);
    SelOfBufs(s.nic, a, free[..n], a);
    SelOfBufs(s.nic, a, free[..n], Other(s));
    assert free[n..] + sent + (held + free[..n]) == free[n..] + (sent + held + free[..n]);
  }

  // ------------------------------------------------------ steps keep the pools' order

  lemma SwitchSent(cfg: Config, s: State, m: nat)
    requires Shape(cfg, s) && Source(cfg.files) && Sections(cfg, s, m) && Sent(cfg, s, m)
    requires s.index == cfg.caps[s.active]
    ensures Sent(cfg, Switch(cfg, s), m + 1)
  {
    hide ValidSlots, Readable, Source;
    assert Before(cfg, m) == Before(cfg, m - 1) + cfg.caps[s.active];
  }

  lemma SwitchPools(cfg: Config, s: State)
    requires Shape(cfg, s) && s.index == cfg.caps[s.active] && Pools(cfg, s)
    ensures Pools(cfg, Switch(cfg, s))
  {
    hide ValidBufs, ValidSlots, Readable, Sel;
    var s' := Switch(cfg, s);
    FullTurn(cfg.caps[s.active]);
    assert Order(s', 0) == Order(s, 0) && Order(s', 1) == Order(s, 1);
  }

  /** What moves only the transmitter leaves pools and data alone. */
  ghost predicate SameBuffers(s: State, s': State) {
    && s'.active == s.active && s'.index == s.index && s'.passes == s.passes
    && s'.done == s.done && s'.nic == s.nic && s'.wire == s.wire && |s.secs| == |s'.secs| == 2
    && forall i :: 0 <= i < 2 ==> s'.secs[i].free == s.secs[i].free && s'.secs[i].slots == s.secs[i].slots
  }

  /** The three decision steps switch, or move only the transmitter. */
  lemma DecisionFrame(cfg: Config, s: State, l: Label)
    requires Core(cfg, s) && !Race(cfg, s, l) && Next(cfg, s, l).Some? && (l.TxTest? || l.TxRecheck? || l.TxWake?)
    ensures var s' := Next(cfg, s, l).value;
      SameBuffers(s, s') || (s' == Switch(cfg, s) && s.index >= cfg.caps[s.active])
  {
    hide Contents, Source, Readable, Sections, Test, Recheck, Wake, Switch, ValidBufs, ValidSlots;
    if l.TxTest? {
      if s.index >= cfg.caps[s.active] && Ready(s, Other(s)) {
        TestSwitches(cfg, s);
      } else {
        TestWithoutSwitch(cfg, s);
      }
    } else if l.TxRecheck? {
      RecheckWaits(cfg, s);
    } else {
      WakeOutcome(cfg, s);
      if Ready(s, Other(s)) {
        EndOfSection(cfg, s);
      }
    }
  }

  lemma EndOfSection(cfg: Config, s: State)
    requires Core(cfg, s) && (s.tx.AwaitLoad? || s.tx.AwaitUnlock?)
    ensures s.index >= cfg.caps[s.active]
  {
    hide Contents, Source, Readable, Sections, ValidBufs, ValidSlots;
  }

  lemma SamePools(cfg: Config, s: State, s': State)
    requires Shape(cfg, s) && Shape(cfg, s') && s.index <= cfg.caps[s.active] && Pools(cfg, s)
    requires s'.active == s.active && s'.index == s.index && s'.done == s.done && s'.nic == s.nic
    requires forall i :: 0 <= i < 2 ==> s'.secs[i].free == s.secs[i].free
    ensures Pools(cfg, s')
  {
    hide Readable, Sel, Circle, ValidBufs, ValidSlots;
    assert Order(s', 0) == Order(s, 0) && Order(s', 1) == Order(s, 1);
  }

  lemma SameSent(cfg: Config, s: State, s': State, m: nat)
    requires Shape(cfg, s) && Shape(cfg, s') && Source(cfg.files) && m > 0 && Sent(cfg, s, m)
    requires s'.index == s.index && s'.nic == s.nic && s'.wire == s.wire
    requires forall i :: 0 <= i < 2 ==> s'.secs[i].slots == s.secs[i].slots
    ensures Sent(cfg, s', m)
  {
    hide Readable, Stream, ValidSlots;
  }

  lemma ControlFrame(cfg: Config, s: State, l: Label)
    requires Shape(cfg, s) && Next(cfg, s, l).Some?
    requires l.WorkerTake? || l.WorkerReset? || l.WorkerFinish? || l.Start? || l.Stop?
    ensures SameBuffers(s, Next(cfg, s, l).value)
  {
    hide ValidBufs, ValidSlots, Readable;
  }

  /** A burst within the section takes the next slots in order, and the circle turns with it. */
  lemma SendTurns(cfg: Config, s: State)
    requires Shape(cfg, s) && s.tx.Sending? && Turns(cfg, s) && !Overrun(cfg, s, TxSend)
    ensures Turns(cfg, Send(cfg, s))
  {
    hide Order, Circle, ValidBufs, ValidSlots, Readable;
    var n := Draw(cfg, s.quota);
    if 0 < n <= |s.secs[s.active].free| {
      TakenSlots(cfg, s, n);
    } else {
      SamePools(cfg, s, Send(cfg, s));
    }
  }

  lemma FillFrame(cfg: Config, s: State)
    requires Core(cfg, s) && s.worker.Filling? && s.worker.slot < cfg.caps[s.worker.target]
    ensures Fill(cfg, s).Some?
    ensures var s' := Fill(cfg, s).value;
      && s'.active == s.active && s'.index == s.index && s'.passes == s.passes
      && s'.done == s.done && s'.nic == s.nic && s'.wire == s.wire && |s'.secs| == 2
      && forall i :: 0 <= i < 2 ==> s'.secs[i].free == s.secs[i].free
  {
    FillStep(cfg, s);
    hide Fill, Core, Source, Stream, HasRead, Readable, ValidSlots, ValidBufs;
  }

  lemma TransmitPools(cfg: Config, s: State)
    requires Shape(cfg, s) && s.index <= cfg.caps[s.active] && Pools(cfg, s) && s.nic != []
    ensures Pools(cfg, Transmit(cfg, s))
  {
    hide Order, Circle, Readable, ValidBufs, ValidSlots;
    TransmitKeepsOrder(cfg, s, 0);
    TransmitKeepsOrder(cfg, s, 1);
  }

  lemma FreePools(cfg: Config, s: State)
    requires Shape(cfg, s) && s.index <= cfg.caps[s.active] && Pools(cfg, s) && s.done != []
    ensures Pools(cfg, Free(cfg, s))
  {
    hide Order, Circle, Readable, ValidBufs, ValidSlots;
    FreeKeepsOrder(cfg, s, 0);
    FreeKeepsOrder(cfg, s, 1);
  }

  lemma NicTurns(cfg: Config, s: State)
    requires Shape(cfg, s) && Turns(cfg, s)
    ensures s.nic != [] ==> Turns(cfg, Transmit(cfg, s))
    ensures s.done != [] ==> Turns(cfg, Free(cfg, s))
  {
    hide Readable, ValidBufs, ValidSlots, Pools;
    if s.nic != [] {
      TransmitPools(cfg, s);
    }
    if s.done != [] {
      FreePools(cfg, s);
    }
  }

  lemma DecisionTurns(cfg: Config, s: State, l: Label)
    requires Orderly(cfg, s) && !Race(cfg, s, l) && Next(cfg, s, l).Some? && (l.TxTest? || l.TxRecheck? || l.TxWake?)
    ensures Turns(cfg, Next(cfg, s, l).value)
  {
    DecisionFrame(cfg, s, l);
    hide Core, Next, Readable, ValidBufs, ValidSlots, Pools, Switch;
    var s' := Next(cfg, s, l).value;
    if SameBuffers(s, s') {
      SamePools(cfg, s, s');
    } else {
      SwitchPools(cfg, s);
      SwitchStartsOver(cfg, s);
    }
  }

  lemma SwitchStartsOver(cfg: Config, s: State)
    requires Shape(cfg, s)
    ensures Switch(cfg, s).index == 0
  {
    hide Readable, ValidBufs, ValidSlots;
  }

  /** Every step that neither races nor overruns keeps the pools in order. */
  lemma StepTurns(cfg: Config, s: State, l: Label)
    requires Orderly(cfg, s) && !Race(cfg, s, l) && !Overrun(cfg, s, l) && Next(cfg, s, l).Some?
    ensures Orderly(cfg, Next(cfg, s, l).value)
  {
    NextKeeps(cfg, s, l);
    hide Core, Race;
    assert Shape(cfg, s) by { CoreShape(cfg, s); }
    hide Pools, Readable, ValidBufs, ValidSlots, Shape;
    if l.TxTest? || l.TxRecheck? || l.TxWake? {
      hide Next, Turns;
      DecisionTurns(cfg, s, l);
    } else if l.TxSend? {
      hide Turns, Send;
      SendTurns(cfg, s);
    } else if l.NicTransmit? || l.NicFree? {
      hide Turns, Transmit, Free;
      NicTurns(cfg, s);
    } else if l.WorkerFill? {
      hide Fill;
      FillFrame(cfg, s);
      SamePools(cfg, s, Next(cfg, s, l).value);
    } else {
      hide Next;
      ControlFrame(cfg, s, l);
      SamePools(cfg, s, Next(cfg, s, l).value);
    }
  }

  lemma CoreShape(cfg: Config, s: State)
    requires Core(cfg, s)
    ensures Shape(cfg, s) && BothExist(cfg) && Source(cfg.files) && |cfg.caps| == 2 && |s.passes| > 0
  {
  }

  // ------------------------------------------------------- refilling under the NIC

  /** The data the NIC has yet to send. */
  ghost function Pending(cfg: Config, s: State): seq<Packet>
    requires Shape(cfg, s)
  {
    seq(|s.nic|, p requires 0 <= p < |s.nic| => s.secs[s.nic[p].sec].slots[s.nic[p].slot])
  }

  /** A fill keeps what the NIC has yet to send if and only if the slot it fills is not waiting
      there, or gets the record it already holds. */
  lemma FillKeepsPendingIff(cfg: Config, s: State, s': State)
    requires Core(cfg, s) && s.worker.Filling? && s.worker.slot < cfg.caps[s.worker.target]
    requires Fill(cfg, s) == Some(s')
    ensures Shape(cfg, s') && s.worker.target == Other(s)
    ensures var k := Before(cfg, |s.passes|) + s.worker.slot;
      Pending(cfg, s') == Pending(cfg, s)
      <==> (!Overwrite(s, WorkerFill) || s.secs[Other(s)].slots[s.worker.slot] == Stream(cfg.files, k))
  {
    hide *;
    CoreShape(cfg, s);
    FillStep(cfg, s);
    PendingAfterFill(cfg, s, s', Stream(cfg.files, Before(cfg, |s.passes|) + s.worker.slot));
  }

  lemma PendingAfterFill(cfg: Config, s: State, s': State, data: Packet)
    requires Shape(cfg, s) && Shape(cfg, s')
    requires s.worker == Filling(Other(s), s.secs[Other(s)].loaded) && s.secs[Other(s)].loaded < cfg.caps[Other(s)]
    requires s' == Filled(s, data, s'.cursor)
    ensures Pending(cfg, s') == Pending(cfg, s)
      <==> (!Overwrite(s, WorkerFill) || s.secs[Other(s)].slots[s.worker.slot] == data)
  {
    hide Readable, ValidSlots;
    var b := Buf(Other(s), s.worker.slot);
    if b in s.nic {
      var p :| 0 <= p < |s.nic| && s.nic[p] == b;
      assert Pending(cfg, s)[p] == s.secs[Other(s)].slots[s.worker.slot] && Pending(cfg, s')[p] == data;
    }
    if b !in s.nic || s.secs[Other(s)].slots[s.worker.slot] == data {
      assert forall p :: 0 <= p < |s.nic| ==> s.nic[p] in s.nic;
      assert Pending(cfg, s') == Pending(cfg, s);
    }
  }

  lemma PendingSent(cfg: Config, s: State, s': State, m: nat)
    requires Shape(cfg, s) && Shape(cfg, s') && Source(cfg.files) && m > 0 && Sent(cfg, s, m)
    requires s'.index == s.index && s'.nic == s.nic && s'.wire == s.wire && Pending(cfg, s') == Pending(cfg, s)
    ensures Sent(cfg, s', m)
  {
    hide Readable, Stream, ValidSlots;
    forall p | 0 <= p < |s'.nic|
      ensures s'.secs[s'.nic[p].sec].slots[s'.nic[p].slot] == Stream(cfg.files, |s'.wire| + p)
    {
      assert Pending(cfg, s')[p] == Pending(cfg, s)[p];
    }
  }

  // --------------------------------------------------- when a refill meets the NIC

  lemma {:induction false} SelHolds(q: seq<Buf>, sec: nat, slot: nat)
    ensures Buf(sec, slot) in q <==> slot in Sel(q, sec)
    ensures |Sel(q, sec)| <= |q|
  {
    if q != [] {
      var front, last := q[..|q| - 1], q[|q| - 1];
      assert q == front + [last];
      SelHolds(front, sec, slot);
    }
  }

  /** The end of the circle from slot 0 holds the highest slots. */
  lemma EndOfCircle(front: seq<nat>, held: seq<nat>, cap: nat, slot: nat)
    requires front + held == Circle(cap, 0) && slot < cap
    ensures slot in held <==> |held| >= cap - slot
  {
    var m := |held|;
    CircleLength(cap, 0);
    hide Circle;
    forall j | 0 <= j < m
      ensures held[j] == cap - m + j
    {
      assert held[j] == (front + held)[cap - m + j];
      CircleAt(cap, 0, cap - m + j);
    }
    if m >= cap - slot {
      assert held[slot - (cap - m)] == slot;
    }
  }

  lemma CircleLength(cap: nat, h: nat)
    ensures |Circle(cap, h)| == cap
  {
  }

  /** Before the first full turn a circle counts up. */
  lemma CircleAt(cap: nat, h: nat, j: nat)
    requires h + j < cap
    ensures j < |Circle(cap, h)| && Circle(cap, h)[j] == h + j
  {
    assert Wrap(h + j, cap) == h + j;
  }

  /** While the pools are in order a fill overwrites a waiting buffer exactly when so many of the
      section's buffers are still with the NIC that they reach down to its slot. */
  lemma OverwritesIff(cfg: Config, s: State)
    requires Orderly(cfg, s) && s.worker.Filling? && s.worker.slot < cfg.caps[s.worker.target]
    ensures s.worker.target == Other(s)
    ensures Overwrite(s, WorkerFill) <==> |Sel(s.nic, Other(s))| >= cfg.caps[Other(s)] - s.worker.slot
  {
    FillStep(cfg, s);
    OtherInOrder(cfg, s);
    var o := Other(s);
    hide Orderly, Sel, Circle, Fill, Stream, HasRead, Source;
    assert s.secs[o].free + Sel(s.done, o) + Sel(s.nic, o) == Circle(cfg.caps[o], 0);
    EndOfCircle(s.secs[o].free + Sel(s.done, o), Sel(s.nic, o), cfg.caps[o], s.worker.slot);
    SelHolds(s.nic, o, s.worker.slot);
  }

  lemma OtherInOrder(cfg: Config, s: State)
    requires Orderly(cfg, s)
    ensures Shape(cfg, s) && Order(s, Other(s)) == Circle(cfg.caps[Other(s)], 0)
  {
    hide Sections, Standing, Contents, Source, Readable, Order, Circle;
  }

  /** So with no more than `r` buffers in the NIC, as in a ring of `r` descriptors, only the last
      `r` fills of a refill can overwrite one. */
  lemma RingBoundsOverwrites(cfg: Config, s: State, r: nat)
    requires Orderly(cfg, s) && s.worker.Filling? && s.worker.slot + r < cfg.caps[s.worker.target] && |s.nic| <= r
    ensures !Overwrite(s, WorkerFill)
  {
    hide Orderly, Sel;
    OverwritesIff(cfg, s);
    SelHolds(s.nic, Other(s), 0);
  }

  // ------------------------------------------------------------- steps keep the data

  lemma SentByBurst(cfg: Config, s: State, n: nat)
    requires Shape(cfg, s) && Source(cfg.files) && |s.passes| > 0
    requires Contents(cfg, s, |s.passes|) && Sent(cfg, s, |s.passes|)
    requires 0 < n == Draw(cfg, s.quota) <= |s.secs[s.active].free| && s.index + n <= cfg.caps[s.active]
    requires forall k :: 0 <= k < n ==> s.secs[s.active].free[k] == s.index + k
    ensures Sent(cfg, Send(cfg, s), |s.passes|)
  {
    hide HasRead, Source, Readable, Stream, ValidSlots;
    var s', first := Send(cfg, s), Before(cfg, |s.passes| - 1);
    assert Holds(cfg, s.secs[s.active], cfg.caps[s.active], first);
    forall p | |s.nic| <= p < |s'.nic|
      ensures s'.secs[s'.nic[p].sec].slots[s'.nic[p].slot] == Stream(cfg.files, |s.wire| + p)
    {
      var k := s.index + (p - |s.nic|);
      assert s'.nic[p] == Buf(s.active, k);
      assert s.secs[s.active].slots[k] == Stream(cfg.files, first + k);
    }
  }

  lemma TransmitSent(cfg: Config, s: State, m: nat)
    requires Shape(cfg, s) && Source(cfg.files) && m > 0 && Sent(cfg, s, m) && s.nic != []
    ensures Sent(cfg, Transmit(cfg, s), m)
  {
    hide Readable, Stream, ValidSlots;
  }

  lemma SendSent(cfg: Config, s: State)
    requires Inv(cfg, s) && s.tx.Sending? && !Overrun(cfg, s, TxSend)
    ensures |Send(cfg, s).passes| > 0 && Sent(cfg, Send(cfg, s), |s.passes|)
  {
    hide Source, Readable, Sent, Order, Circle, Sections, Standing, Contents, ValidBufs, ValidSlots;
    var n := Draw(cfg, s.quota);
    if 0 < n <= |s.secs[s.active].free| {
      TakenSlots(cfg, s, n);
      SentByBurst(cfg, s, n);
    } else {
      SameSent(cfg, s, Send(cfg, s), |s.passes|);
    }
  }

  lemma FillSent(cfg: Config, s: State)
    requires Inv(cfg, s) && s.worker.Filling? && s.worker.slot < cfg.caps[s.worker.target]
    requires !Overwrite(s, WorkerFill)
    ensures Fill(cfg, s).Some? && Sent(cfg, Fill(cfg, s).value, |s.passes|)
  {
    CoreShape(cfg, s);
    FillFrame(cfg, s);
    hide Fill, Core, Turns, Source, Stream, Readable, ValidSlots, ValidBufs, Sent, Pending, Shape;
    FillKeepsPendingIff(cfg, s, Fill(cfg, s).value);
    PendingSent(cfg, s, Fill(cfg, s).value, |s.passes|);
  }

  lemma DecisionSent(cfg: Config, s: State, l: Label)
    requires Inv(cfg, s) && !Race(cfg, s, l) && Next(cfg, s, l).Some? && (l.TxTest? || l.TxRecheck? || l.TxWake?)
    ensures var s' := Next(cfg, s, l).value; |s'.passes| > 0 && Sent(cfg, s', |s'.passes|)
  {
    DecisionFrame(cfg, s, l);
    var s' := Next(cfg, s, l).value;
    if SameBuffers(s, s') {
      hide Next, Core, Turns;
      assert Shape(cfg, s) && Source(cfg.files) by { CoreShape(cfg, s); }
      hide Shape, Sent, Source, SameBuffers;
      SameBuffersSent(cfg, s, s');
    } else {
      hide Next;
      SwitchedSent(cfg, s);
    }
  }

  lemma SameBuffersSent(cfg: Config, s: State, s': State)
    requires Shape(cfg, s) && Shape(cfg, s') && Source(cfg.files) && |s.passes| > 0 && Sent(cfg, s, |s.passes|)
    requires SameBuffers(s, s')
    ensures |s'.passes| > 0 && Sent(cfg, s', |s'.passes|)
  {
    hide Sent, Source, Shape;
    SameSent(cfg, s, s', |s.passes|);
  }

  lemma SwitchedSent(cfg: Config, s: State)
    requires Inv(cfg, s) && s.index >= cfg.caps[s.active]
    ensures |Switch(cfg, s).passes| > 0 && Sent(cfg, Switch(cfg, s), |Switch(cfg, s).passes|)
  {
    hide Readable, ValidBufs, ValidSlots, Pools, Sent, Contents, Standing, Source, Sections, Switch;
    SwitchSent(cfg, s, |s.passes|);
    SwitchCounts(cfg, s);
  }

  lemma SwitchCounts(cfg: Config, s: State)
    requires Shape(cfg, s)
    ensures |Switch(cfg, s).passes| == |s.passes| + 1
  {
    hide Readable, ValidBufs, ValidSlots;
  }

  lemma NicSent(cfg: Config, s: State)
    requires Shape(cfg, s) && Source(cfg.files) && |s.passes| > 0 && Sent(cfg, s, |s.passes|)
    ensures s.nic != [] ==> Transmit(cfg, s).passes == s.passes && Sent(cfg, Transmit(cfg, s), |s.passes|)
    ensures s.done != [] ==> Free(cfg, s).passes == s.passes && Sent(cfg, Free(cfg, s), |s.passes|)
  {
    hide Sent, Readable, ValidBufs, ValidSlots, Source;
    if s.nic != [] {
      TransmitSent(cfg, s, |s.passes|);
    }
    if s.done != [] {
      FreeSameSlots(cfg, s);
      SameSent(cfg, s, Free(cfg, s), |s.passes|);
    }
  }

  lemma ControlSent(cfg: Config, s: State, l: Label)
    requires Shape(cfg, s) && Source(cfg.files) && |s.passes| > 0 && Sent(cfg, s, |s.passes|)
    requires Next(cfg, s, l).Some? && (l.WorkerTake? || l.WorkerReset? || l.WorkerFinish? || l.Start? || l.Stop?)
    ensures var s' := Next(cfg, s, l).value; |s'.passes| > 0 && Sent(cfg, s', |s'.passes|)
  {
    hide Sent, Source, Next, SameBuffers;
    ControlFrame(cfg, s, l);
    SameBuffersSent(cfg, s, Next(cfg, s, l).value);
  }

  lemma FreeSameSlots(cfg: Config, s: State)
    requires Shape(cfg, s) && s.done != []
    ensures forall i :: 0 <= i < 2 ==> Free(cfg, s).secs[i].slots == s.secs[i].slots
  {
    hide Readable, ValidBufs, ValidSlots;
  }

  lemma FillPasses(cfg: Config, s: State)
    requires Core(cfg, s) && s.worker.Filling? && s.worker.slot < cfg.caps[s.worker.target]
    ensures Fill(cfg, s).Some? && Fill(cfg, s).value.passes == s.passes
  {
    FillFrame(cfg, s);
  }

  /** Every step that neither races, overruns nor overwrites keeps the invariant. */
  lemma CleanStepKeeps(cfg: Config, s: State, l: Label)
    requires Inv(cfg, s) && Next(cfg, s, l).Some?
    requires !Race(cfg, s, l) && !Overrun(cfg, s, l) && !Overwrite(s, l)
    ensures Inv(cfg, Next(cfg, s, l).value)
  {
    StepTurns(cfg, s, l);
    CoreShape(cfg, s);
    hide Orderly, Sent, Race, Overrun, Overwrite;
    if l.TxTest? || l.TxRecheck? || l.TxWake? {
      hide Next;
      DecisionSent(cfg, s, l);
    } else if l.TxSend? {
      hide Send;
      SendSent(cfg, s);
      SendPasses(cfg, s);
    } else if l.WorkerFill? {
      hide Fill;
      OrderlyCore(cfg, s);
      FillSent(cfg, s);
      FillPasses(cfg, s);
    } else if l.NicTransmit? || l.NicFree? {
      hide Transmit, Free;
      NicSent(cfg, s);
    } else {
      hide Next;
      ControlSent(cfg, s, l);
    }
  }

  lemma OrderlyCore(cfg: Config, s: State)
    requires Orderly(cfg, s)
    ensures Core(cfg, s)
  {
  }

  lemma SendPasses(cfg: Config, s: State)
    requires Shape(cfg, s)
    ensures Send(cfg, s).passes == s.passes
  {
    hide Readable, ValidBufs, ValidSlots;
  }

  // ----------------------------------------------------------------- the start

  lemma JustOpenedData(cfg: Config, s: State)
    requires BothExist(cfg) && Shape(cfg, s) && JustOpened(cfg, s)
    ensures |s.passes| == 1 && Turns(cfg, s) && Sent(cfg, s, 1)
  {
    hide HasRead, Source, Stream, Readable, Holds, ValidBufs, ValidSlots;
    assert Order(s, 0) == Circle(cfg.caps[0], 0);
    assert Order(s, 1) == Circle(cfg.caps[1], 0);
    assert Before(cfg, 0) == 0;
  }

  /** Start-up establishes the invariant. */
  lemma OpenedInv(cfg: Config)
    requires BothExist(cfg)
    ensures Opened(cfg).Some? && Inv(cfg, Opened(cfg).value)
  {
    hide Opened, Source, Readable, Core, Turns, Sent, JustOpened;
    OpensReplay(cfg);
    OpenedCore(cfg);
    JustOpenedData(cfg, Opened(cfg).value);
  }

  // ------------------------------------------------------------ whole schedules

  lemma ClearsEach(cfg: Config, s: State, l: Label, hs: set<Hazard>)
    requires Shape(cfg, s) && cfg.burst > 0 && Clears(cfg, s, l, hs)
    ensures Racing in hs ==> !Race(cfg, s, l)
    ensures Overwriting in hs ==> !Overwrite(s, l)
    ensures Overrunning in hs ==> !Overrun(cfg, s, l)
    ensures Misaligned in hs ==> !MisalignedStart(cfg, s, l)
    ensures Backlogged in hs ==> !Backlog(cfg, s, l)
  {
    assert Racing in hs ==> !Hits(cfg, s, l, Racing);
    assert Overwriting in hs ==> !Hits(cfg, s, l, Overwriting);
    assert Overrunning in hs ==> !Hits(cfg, s, l, Overrunning);
    assert Misaligned in hs ==> !Hits(cfg, s, l, Misaligned);
    assert Backlogged in hs ==> !Hits(cfg, s, l, Backlogged);
  }

  /** The pools are in order in every state reached without race and overrun. */
  lemma {:induction false} RunTurns(cfg: Config, ls: seq<Label>)
    requires BothExist(cfg) && Avoids(cfg, ls, {Racing, Overrunning}) && Run(cfg, ls).Some?
    ensures Orderly(cfg, Run(cfg, ls).value)
  {
    hide Orderly, Clears, Next, Opened, Source, Race, Overrun;
    if ls == [] {
      OpenedInv(cfg);
    } else {
      var before, l := ls[..|ls| - 1], ls[|ls| - 1];
      RunTurns(cfg, before);
      ClearsEach(cfg, Run(cfg, before).value, l, {Racing, Overrunning});
      StepTurns(cfg, Run(cfg, before).value, l);
    }
  }

  /** The invariant holds in every state a clean schedule reaches. */
  lemma {:induction false} CleanRunKeeps(cfg: Config, ls: seq<Label>)
    requires BothExist(cfg) && CleanRun(cfg, ls) && Run(cfg, ls).Some?
    ensures Inv(cfg, Run(cfg, ls).value)
  {
    hide Inv, Clears, Next, Opened, Source, Race, Overrun, Overwrite;
    if ls == [] {
      OpenedInv(cfg);
    } else {
      var before, l := ls[..|ls| - 1], ls[|ls| - 1];
      CleanRunKeeps(cfg, before);
      ClearsEach(cfg, Run(cfg, before).value, l, {Racing, Overwriting, Overrunning});
      CleanStepKeeps(cfg, Run(cfg, before).value, l);
    }
  }

  /** Refinement: for any burst and whatever the interleaving, what has left the port is the
      endless repetition of the source files' records from the first on. */
  lemma ReplayRefinesStream(cfg: Config, ls: seq<Label>)
    requires BothExist(cfg) && CleanRun(cfg, ls) && Run(cfg, ls).Some?
    ensures var s := Run(cfg, ls).value;
            forall i :: 0 <= i < |s.wire| ==> s.wire[i] == Stream(cfg.files, i)
  {
    CleanRunKeeps(cfg, ls);
    hide Run, CleanRun, Stream, Source, HasRead, Pools, Sections, Contents, Standing;
  }

  // ------------------------------------------------------------------- complete passes

  /** The end of a complete pass: a switch point with the packet index on the load count, every
      slot sent once and the pool's order back at slot 0. */
  ghost predicate PassComplete(cfg: Config, s: State)
    requires Shape(cfg, s)
  {
    && SwitchPoint(cfg, s)
    && s.index == cfg.caps[s.active]
    && Order(s, s.active) == Circle(cfg.caps[s.active], 0)
  }

  lemma EndIsComplete(cfg: Config, s: State)
    requires Orderly(cfg, s) && SwitchPoint(cfg, s)
    ensures PassComplete(cfg, s)
  {
    CoreShape(cfg, s);
    hide Core, Readable, ValidBufs, ValidSlots, Order;
    FullTurn(cfg.caps[s.active]);
  }

  /** Without race and overrun every switch ends a complete pass. */
  lemma SwitchesEndPasses(cfg: Config, ls: seq<Label>, l: Label)
    requires BothExist(cfg) && Avoids(cfg, ls + [l], {Racing, Overrunning}) && Run(cfg, ls + [l]).Some?
    ensures Run(cfg, ls).Some?
    ensures Run(cfg, ls + [l]).value.active != Run(cfg, ls).value.active ==> PassComplete(cfg, Run(cfg, ls).value)
  {
    hide Core, Turns, PassComplete, Next, Clears, Source, SwitchPoint, Run, Avoids, Race, Overrun;
    AvoidsLast(cfg, ls, l, {Racing, Overrunning});
    RunTurns(cfg, ls);
    var s := Run(cfg, ls).value;
    ClearsEach(cfg, s, l, {Racing, Overrunning});
    if Next(cfg, s, l).value.active != s.active {
      SwitchesOnlyWhenReady(cfg, s, l);
      EndIsComplete(cfg, s);
    }
  }

  /** The step keeps the index within the section if and only if it is no overrun; and once
      past the end, the switch that follows does not end a complete pass. */
  lemma OverrunPassesEnd(cfg: Config, s: State)
    requires Orderly(cfg, s) && s.tx.Sending?
    ensures Turns(cfg, Send(cfg, s)) <==> !Overrun(cfg, s, TxSend)
    ensures Overrun(cfg, s, TxSend) ==> !PassComplete(cfg, Send(cfg, s)) && Send(cfg, s).active == s.active
  {
    if Overrun(cfg, s, TxSend) {
      hide Core, Pools, Readable, ValidBufs, ValidSlots, Order;
    } else {
      CoreShape(cfg, s);
      hide Core, Turns, Send, Overrun;
      SendTurns(cfg, s);
    }
  }
}
