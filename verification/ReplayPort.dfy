/** pcap_info_t as the source keeps it: an object whose fields the transmitter, the reload
    worker, the NIC and the command line update. Each action on the fields is the step of the
    transition system of the same name, so what is proved of the steps and of whole schedules
    holds of the object; pcap_load_section, pktgen_pcap_open and the interleaving of the threads
    are its loops. */
module ReplayPort {
  import opened Bytes
  import opened PcapFile
  import opened PcapReader
  import R = Replay
  import ReplayControl
  import ReplaySafety

  class PcapInfo {
    const caps: seq<nat>
    const txBurst: nat
    const source: PcapSource
    var sections: seq<R.Section>
    var activeSectionIdx: nat
    var pktIndex: nat
    var reloadRequest: int
    var reloadInProgress: int
    var nextChunkId: nat
    var worker: R.Worker
    var tx: R.Tx
    var woken: bool
    var sendingPackets: bool
    var quota: R.Quota
    var nic: seq<R.Buf>
    var done: seq<R.Buf>
    ghost var wire: seq<Packet>
    ghost var passes: seq<nat>

    ghost function Cfg(): R.Config {
      R.Config(source.sourceFiles, caps, txBurst)
    }

    ghost function View(): R.State
      reads this, source
    {
      R.State(sections, activeSectionIdx, pktIndex, reloadRequest, reloadInProgress, nextChunkId, worker,
              source.At(), tx, woken, sendingPackets, quota, nic, done, wire, passes)
    }

    ghost predicate Valid()
      reads this, source
    {
      R.Usable(Cfg()) && R.Shape(Cfg(), View()) && source.Valid()
    }

    /** pktgen_pcap_add and the creation of the two pools, on a source just rewound. */
    constructor (source: PcapSource, caps: seq<nat>, txBurst: nat)
      requires source.Valid() && R.Usable(R.Config(source.sourceFiles, caps, txBurst))
      ensures this.source == source && this.caps == caps && this.txBurst == txBurst
      ensures Valid() && View() == R.Created(Cfg(), source.At())
    {
      this.source, this.caps, this.txBurst := source, caps, txBurst;
      sections := [R.EmptySection(caps[0]), R.EmptySection(caps[1])];
      activeSectionIdx, pktIndex, nextChunkId := 0, 0, 1;
      reloadRequest, reloadInProgress := -1, -1;
      worker, tx, woken, sendingPackets, quota := R.Waiting, R.Testing, false, false, R.Count(0);
      nic, done, wire, passes := [], [], [], [];
    }

    // ---------------------------------------------------------- pktgen_send_pkts

    method Switch()
      requires Valid()
      modifies this
      ensures Valid() && View() == R.Switch(Cfg(), old(View()))
    {
      assert |sections| == 2 && activeSectionIdx < 2;
      ghost var goal := R.Switch(Cfg(), View());
      hide R.Shape, R.Usable;
      var idx := activeSectionIdx;
      var nextIdx := (idx + 1) % R.PCAP_NUM_SECTIONS;
      activeSectionIdx := nextIdx;
      pktIndex := 0;
      passes := passes + [sections[nextIdx].chunk];
      sections := sections[idx := sections[idx].(locked := true)];
      reloadRequest := idx;
      tx, woken := R.Sending, false;
      assert View() == goal;
    }

    /** The next section has never been loaded: ask for it, unless that has been done. */
    method RequestFirstLoad(nextIdx: nat)
      requires |sections| == 2 && nextIdx < 2
      modifies this`sections, this`reloadRequest, this`tx
      ensures var s := old(View());
        View() == (if s.request < 0 && s.inProgress < 0 && !s.secs[nextIdx].locked
                   then R.SetSec(s, nextIdx, s.secs[nextIdx].(locked := true)).(request := nextIdx)
                   else s).(tx := R.Rechecking)
    {
      if reloadRequest < 0 && reloadInProgress < 0 && !sections[nextIdx].locked {
        sections := sections[nextIdx := sections[nextIdx].(locked := true)];
        reloadRequest := nextIdx;
      }
      tx := R.Rechecking;
    }

    method Decide()
      requires Valid()
      modifies this
      ensures Valid() && View() == R.Test(Cfg(), old(View()))
    {
      ghost var s := View();
      TestCases(Cfg(), s);
      hide R.Shape, R.Usable, R.Switch, R.Test, R.SetSec;
      var idx := activeSectionIdx;
      var nextIdx := (idx + 1) % R.PCAP_NUM_SECTIONS;
      if pktIndex >= sections[idx].loaded && sections[nextIdx].cap > 0 {
        if sections[nextIdx].loaded == 0 {
          RequestFirstLoad(nextIdx);
          assert View() == R.Test(Cfg(), s);
        } else if sections[nextIdx].locked {
          tx, woken := R.AwaitUnlock, false;
          assert View() == s.(tx := R.AwaitUnlock, woken := false);
        } else {
          Switch();
          assert View() == R.Switch(Cfg(), s);
        }
      } else {
        tx := R.Sending;
        assert View() == s.(tx := R.Sending);
      }
    }

    method RecheckLoaded()
      requires Valid()
      modifies this
      ensures Valid() && View() == R.Recheck(Cfg(), old(View()))
    {
      if sections[(activeSectionIdx + 1) % R.PCAP_NUM_SECTIONS].loaded == 0 {
        tx, woken := R.AwaitLoad, false;
      } else {
        Switch();
      }
    }

    method WakeUp()
      requires Valid()
      modifies this
      ensures Valid() && View() == R.Wake(Cfg(), old(View()))
    {
      var next := sections[(activeSectionIdx + 1) % R.PCAP_NUM_SECTIONS];
      if (tx.AwaitLoad? && next.loaded == 0) || (!tx.AwaitLoad? && next.locked) {
        woken := false;
      } else {
        Switch();
      }
    }

    /** pkt_atomic64_tx_count, undisturbed, with the clamp that follows it. */
    method DrawCount() returns (txCnt: nat)
      modifies this`quota
      ensures txCnt == R.Draw(Cfg(), old(quota)) && quota == R.QuotaAfter(Cfg(), old(quota))
    {
      match quota {
        case Forever => txCnt := txBurst;
        case Count(tmp1) =>
          txCnt := if tmp1 > txBurst then txBurst else tmp1;
          quota := R.Count(tmp1 - txCnt);
      }
    }

    /** Take buffers from the active pool, if it has enough, and hand them over. */
    method HandOver(txCnt: nat)
      requires |sections| == 2 && activeSectionIdx < 2
      modifies this`sections, this`nic, this`pktIndex
      ensures View() == HandedOver(old(View()), txCnt)
    {
      hide R.Bufs;
      var pool := sections[activeSectionIdx];
      if txCnt <= |pool.free| {
        var pkts := R.Bufs(activeSectionIdx, pool.free[..txCnt]);
        sections := sections[activeSectionIdx := pool.(free := pool.free[txCnt..])];
        nic := nic + pkts;
        pktIndex := pktIndex + txCnt;
      }
    }

    method SendBurst()
      requires Valid()
      modifies this
      ensures Valid() && View() == R.Send(Cfg(), old(View()))
    {
      SendCases(Cfg(), View());
      hide R.Shape, R.Usable, R.Send, R.Draw, R.QuotaAfter, HandedOver;
      ghost var s := View();
      tx := R.Testing;
      var txCnt := DrawCount();
      assert View() == s.(tx := R.Testing, quota := R.QuotaAfter(Cfg(), s.quota));
      if txCnt == 0 {
        sendingPackets := false;
        assert View() == R.Send(Cfg(), s);
      } else {
        HandOver(txCnt);
        assert View() == R.Send(Cfg(), s);
      }
    }

    // --------------------------------------------------------- pcap_reload_worker

    method TakeRequest()
      requires Valid() && reloadRequest >= 0
      modifies this
      ensures Valid() && View() == R.Take(Cfg(), old(View()))
    {
      var sectionIdx := reloadRequest;
      reloadRequest := -1;
      reloadInProgress := sectionIdx;
      worker := R.Loading(sectionIdx);
    }

    method ResetSection(i: nat)
      requires Valid() && i < 2
      modifies this
      ensures Valid() && View() == R.ResetSection(Cfg(), old(View()), i)
    {
      sections := sections[i := sections[i].(chunk := nextChunkId, loaded := 0)];
      nextChunkId := nextChunkId + 1;
    }

    /** mbuf_iterate_cb on the buffer in `slot`. */
    method IterateMbuf(i: nat, slot: nat) returns (exited: bool)
      requires Valid() && i < 2 && slot < caps[i]
      modifies this, source
      ensures exited == R.FillSlot(Cfg(), old(View()), i, slot).None?
      ensures !exited ==> Valid() && View() == R.FillSlot(Cfg(), old(View()), i, slot).value
    {
      var sec := sections[i];
      if sec.loaded >= sec.cap {
        return false;
      }
      var data := source.ReadPacket();
      if data.None? {
        return true;
      }
      sections := sections[i := sec.(slots := sec.slots[slot := data.value], loaded := sec.loaded + 1)];
      return false;
    }

    /** pcap_load_section: rte_mempool_obj_iter visits the buffers in slot order. */
    method LoadSection(i: nat) returns (exited: bool)
      requires Valid() && i < 2
      modifies this, source
      ensures exited == R.LoadSection(Cfg(), old(View()), i).None?
      ensures !exited ==> Valid() && View() == R.LoadSection(Cfg(), old(View()), i).value
    {
      ghost var goal := R.LoadSection(Cfg(), View(), i);
      ResetSection(i);
      var slot := 0;
      while slot < caps[i]
        invariant slot <= caps[i] && Valid()
        invariant R.FillFrom(Cfg(), View(), i, slot) == goal
      {
        var bad := IterateMbuf(i, slot);
        if bad {
          return true;
        }
        slot := slot + 1;
      }
      return false;
    }

    method StartReload()
      requires Valid() && worker.Loading?
      modifies this
      ensures Valid() && View() == R.Reset(Cfg(), old(View()))
    {
      ghost var goal := R.Reset(Cfg(), View());
      var i := worker.sec;
      hide R.Shape, R.Usable, R.ResetSection;
      ResetSection(i);
      worker := R.Filling(i, 0);
      assert View() == goal;
    }

    method FillNext() returns (exited: bool)
      requires Valid() && worker.Filling? && worker.slot < caps[worker.target]
      modifies this, source
      ensures exited == R.Fill(Cfg(), old(View())).None?
      ensures !exited ==> Valid() && View() == R.Fill(Cfg(), old(View())).value
    {
      ghost var goal := R.Fill(Cfg(), View());
      var i, slot := worker.target, worker.slot;
      assert i < 2;
      hide R.Shape, R.Usable, R.FillSlot;
      exited := IterateMbuf(i, slot);
      if !exited {
        worker := R.Filling(i, slot + 1);
        assert View() == goal.value;
      }
    }

    method Finish()
      requires Valid() && worker.Filling?
      modifies this
      ensures Valid() && View() == R.Finish(Cfg(), old(View()))
    {
      var i := worker.target;
      sections := sections[i := sections[i].(locked := false)];
      reloadInProgress := -1;
      worker, woken := R.Waiting, true;
    }

    // ------------------------------------------------- the NIC and the command line

    method Transmit()
      requires Valid() && nic != []
      modifies this
      ensures Valid() && View() == R.Transmit(Cfg(), old(View()))
    {
      var b := nic[0];
      wire := wire + [sections[b.sec].slots[b.slot]];
      nic := nic[1..];
      done := done + [b];
    }

    method Free()
      requires Valid() && done != []
      modifies this
      ensures Valid() && View() == R.Free(Cfg(), old(View()))
    {
      ghost var goal := R.Free(Cfg(), View());
      var b := done[0];
      assert b.sec < |sections|;
      hide R.Shape, R.Usable;
      var sec := sections[b.sec];
      sections := sections[b.sec := sec.(free := sec.free + [b.slot])];
      done := done[1..];
      assert View() == goal;
    }

    method StartTransmitting(count: nat)
      requires Valid()
      modifies this`sendingPackets, this`quota
      ensures Valid() && View() == R.StartSending(old(View()), count)
    {
      sendingPackets := true;
      quota := if count == 0 then R.Forever else R.Count(count);
    }

    method StopTransmitting()
      requires Valid()
      modifies this`sendingPackets, this`quota
      ensures Valid() && View() == R.StopSending(old(View()))
    {
      sendingPackets := false;
      if quota.Forever? {
        quota := R.Count(0);
      }
    }

    // ------------------------------------------------------------ the threads together

    method TransmitterActs(l: R.Label) returns (ok: bool)
      requires Valid() && (l.TxTest? || l.TxRecheck? || l.TxWake? || l.TxSend?)
      modifies this
      ensures ok == R.Next(Cfg(), old(View()), l).Some?
      ensures ok ==> Valid() && View() == R.Next(Cfg(), old(View()), l).value
    {
      hide R.Shape, R.Usable, R.Test, R.Recheck, R.Wake, R.Send;
      match l {
        case TxTest => ok := tx.Testing? && sendingPackets; if ok { Decide(); }
        case TxRecheck => ok := tx.Rechecking?; if ok { RecheckLoaded(); }
        case TxWake => ok := tx.AwaitLoad? || tx.AwaitUnlock?; if ok { WakeUp(); }
        case TxSend => ok := tx.Sending?; if ok { SendBurst(); }
      }
    }

    method WorkerActs(l: R.Label) returns (ok: bool)
      requires Valid() && (l.WorkerTake? || l.WorkerReset? || l.WorkerFill? || l.WorkerFinish?)
      modifies this, source
      ensures ok == R.Next(Cfg(), old(View()), l).Some?
      ensures ok ==> Valid() && View() == R.Next(Cfg(), old(View()), l).value
    {
      assert worker.Filling? ==> worker.target < |caps|;
      hide R.Shape, R.Usable, R.Take, R.Reset, R.Fill, R.Finish;
      match l {
        case WorkerTake => ok := worker.Waiting? && reloadRequest >= 0 && !tx.Rechecking?; if ok { TakeRequest(); }
        case WorkerReset => ok := worker.Loading?; if ok { StartReload(); }
        case WorkerFill =>
          ok := worker.Filling? && worker.slot < caps[worker.target];
          if ok {
            var exited := FillNext();
            ok := !exited;
          }
        case WorkerFinish =>
          ok := worker.Filling? && worker.slot >= caps[worker.target] && !tx.Rechecking?;
          if ok {
            Finish();
          }
      }
    }

    method OthersAct(l: R.Label) returns (ok: bool)
      requires Valid() && (l.NicTransmit? || l.NicFree? || l.Start? || l.Stop?)
      modifies this
      ensures ok == R.Next(Cfg(), old(View()), l).Some?
      ensures ok ==> Valid() && View() == R.Next(Cfg(), old(View()), l).value
    {
      hide R.Shape, R.Usable, R.Transmit, R.Free, R.StartSending, R.StopSending;
      match l {
        case NicTransmit => ok := nic != []; if ok { Transmit(); }
        case NicFree => ok := done != []; if ok { Free(); }
        case Start(count) => ok := !sendingPackets; if ok { StartTransmitting(count); }
        case Stop => ok := sendingPackets; if ok { StopTransmitting(); }
      }
    }

    /** One action of one thread, if it is enabled. A step that neither races, overruns nor
        overwrites keeps the invariant of the replay on the object. */
    method Act(l: R.Label) returns (ok: bool)
      requires Valid()
      modifies this, source
      ensures ok == R.Next(Cfg(), old(View()), l).Some?
      ensures ok ==> Valid() && View() == R.Next(Cfg(), old(View()), l).value
      ensures ok && ReplayControl.Core(Cfg(), old(View())) && !R.Race(Cfg(), old(View()), l) ==>
                ReplayControl.Core(Cfg(), View())
      ensures ok && ReplaySafety.Inv(Cfg(), old(View()))
              && !R.Race(Cfg(), old(View()), l) && !R.Overrun(Cfg(), old(View()), l) && !R.Overwrite(old(View()), l) ==>
                ReplaySafety.Inv(Cfg(), View())
    {
      ghost var s := View();
      ghost var goal := R.Next(Cfg(), s, l);
      hide *;
      if l.TxTest? || l.TxRecheck? || l.TxWake? || l.TxSend? {
        ok := TransmitterActs(l);
      } else if l.WorkerTake? || l.WorkerReset? || l.WorkerFill? || l.WorkerFinish? {
        ok := WorkerActs(l);
      } else {
        ok := OthersAct(l);
      }
      if ok {
        StepKeeps(Cfg(), s, l, goal.value);
      }
    }

    /** Any interleaving of the threads on a port just opened, up to the first action that is not
        enabled. A clean one leaves on the wire exactly the records of the source files over and
        over; one without a race never lets the worker fill the section being sent, and enters
        the chunks 1, 2, 3, ... */
    method Perform(ls: seq<R.Label>) returns (ok: bool)
      requires Valid() && R.Opened(Cfg()) == Some(View())
      modifies this, source
      ensures ok == R.Run(Cfg(), ls).Some?
      ensures ok ==> Valid() && R.Run(Cfg(), ls) == Some(View())
      ensures ok && ReplayControl.BothExist(Cfg()) && R.CleanRun(Cfg(), ls) ==>
                forall i :: 0 <= i < |wire| ==> wire[i] == Stream(source.sourceFiles, i)
      ensures ok && ReplayControl.BothExist(Cfg()) && R.RaceFree(Cfg(), ls) ==>
                && ReplayControl.Exclusive(Cfg(), View())
                && forall i :: 0 <= i < |passes| ==> passes[i] == i + 1
    {
      hide R.Run, R.Opened, R.Next, R.Shape, R.Usable, R.CleanRun, R.RaceFree, R.Race, R.Overrun, R.Overwrite,
           ReplayControl.BothExist, ReplayControl.Exclusive, ReplayControl.Core, ReplaySafety.Inv, Source, Stream;
      var n := 0;
      NothingRun(Cfg(), ls);
      while n < |ls|
        invariant n <= |ls| && Valid() && R.Run(Cfg(), ls[..n]) == Some(View())
      {
        RunNext(Cfg(), ls, n);
        ok := Act(ls[n]);
        if !ok {
          RunStops(Cfg(), ls, n + 1);
          return false;
        }
        n := n + 1;
      }
      assert ls[..n] == ls;
      ok := true;
      WholeRun(Cfg(), ls);
    }

    /** The loading half of pktgen_pcap_open, on a port just constructed. */
    method Open() returns (exited: bool)
      requires Valid() && View() == R.Created(Cfg(), source.At())
      modifies this, source
      ensures exited == R.Opened(Cfg()).None?
      ensures !exited ==> Valid() && View() == R.Opened(Cfg()).value
    {
      hide R.LoadSection, R.ValidBufs, R.ValidSlots, R.EmptySection, PcapReader.Open;
      var rc, bad := source.OpenSourceIndex(0);
      if bad {
        return true;
      }
      bad := LoadSection(0);
      if bad {
        return true;
      }
      if caps[1] > 0 {
        bad := LoadSection(1);
        if bad {
          return true;
        }
      }
      passes := [sections[0].chunk];
      return false;
    }
  }

  /** The branches of the decision. */
  lemma TestCases(cfg: R.Config, s: R.State)
    requires R.Shape(cfg, s)
    ensures var next := (s.active + 1) % R.PCAP_NUM_SECTIONS; next < |s.secs| && s.active < |s.secs|
    ensures var next := (s.active + 1) % R.PCAP_NUM_SECTIONS;
      if s.index >= s.secs[s.active].loaded && s.secs[next].cap > 0 then
        if s.secs[next].loaded == 0 then
          R.Test(cfg, s)
          == (if s.request < 0 && s.inProgress < 0 && !s.secs[next].locked
              then R.SetSec(s, next, s.secs[next].(locked := true)).(request := next)
              else s).(tx := R.Rechecking)
        else if s.secs[next].locked then R.Test(cfg, s) == s.(tx := R.AwaitUnlock, woken := false)
        else R.Test(cfg, s) == R.Switch(cfg, s)
      else R.Test(cfg, s) == s.(tx := R.Sending)
  {
    hide R.Readable, R.ValidBufs, R.ValidSlots, R.Switch;
  }

  /** The state after `n` buffers of the active pool are handed over, if there are as many. */
  ghost function HandedOver(s: R.State, n: nat): R.State
    requires s.active < |s.secs|
  {
    var pool := s.secs[s.active];
    if n > |pool.free| then s
    else s.(secs := s.secs[s.active := pool.(free := pool.free[n..])],
            nic := s.nic + R.Bufs(s.active, pool.free[..n]), index := s.index + n)
  }

  /** The branches of a burst. */
  lemma SendCases(cfg: R.Config, s: R.State)
    requires R.Shape(cfg, s)
    ensures s.active < |s.secs| == 2
    ensures var n, s' := R.Draw(cfg, s.quota), s.(tx := R.Testing, quota := R.QuotaAfter(cfg, s.quota));
      R.Send(cfg, s) == if n == 0 then s'.(sending := false) else HandedOver(s', n)
  {
    hide R.Readable, R.ValidBufs, R.ValidSlots, R.Draw, R.QuotaAfter, R.Bufs;
  }

  lemma StepKeeps(cfg: R.Config, s: R.State, l: R.Label, s': R.State)
    requires R.Usable(cfg) && R.Shape(cfg, s) && R.Next(cfg, s, l) == Some(s')
    ensures ReplayControl.Core(cfg, s) && !R.Race(cfg, s, l) ==> ReplayControl.Core(cfg, s')
    ensures ReplaySafety.Inv(cfg, s) && !R.Race(cfg, s, l) && !R.Overrun(cfg, s, l) && !R.Overwrite(s, l) ==>
              ReplaySafety.Inv(cfg, s')
  {
    hide *;
    if ReplayControl.Core(cfg, s) && !R.Race(cfg, s, l) {
      ReplayControl.NextKeeps(cfg, s, l);
    }
    if ReplaySafety.Inv(cfg, s) && !R.Race(cfg, s, l) && !R.Overrun(cfg, s, l) && !R.Overwrite(s, l) {
      ReplaySafety.CleanStepKeeps(cfg, s, l);
    }
  }

  lemma NothingRun(cfg: R.Config, ls: seq<R.Label>)
    requires R.Usable(cfg)
    ensures R.Run(cfg, ls[..0]) == R.Opened(cfg)
  {
    hide R.Opened, R.Usable;
    assert ls[..0] == [];
  }

  lemma RunNext(cfg: R.Config, ls: seq<R.Label>, n: nat)
    requires R.Usable(cfg) && n < |ls| && R.Run(cfg, ls[..n]).Some?
    ensures R.Run(cfg, ls[..n + 1]) == R.Next(cfg, R.Run(cfg, ls[..n]).value, ls[n])
  {
    hide R.Opened, R.Usable, R.Next, R.Shape;
    assert ls[..n + 1][..n] == ls[..n] && ls[..n + 1][n] == ls[n];
  }

  /** A schedule that cannot go on has no run. */
  lemma {:induction false} RunStops(cfg: R.Config, ls: seq<R.Label>, n: nat)
    requires R.Usable(cfg) && n <= |ls| && R.Run(cfg, ls[..n]).None?
    ensures R.Run(cfg, ls).None?
    decreases |ls|
  {
    hide R.Opened, R.Usable, R.Next, R.Shape;
    if n == |ls| {
      assert ls[..n] == ls;
    } else {
      assert ls[..|ls| - 1][..n] == ls[..n];
      RunStops(cfg, ls[..|ls| - 1], n);
    }
  }

  lemma WholeRun(cfg: R.Config, ls: seq<R.Label>)
    requires R.Usable(cfg) && R.Run(cfg, ls).Some?
    ensures ReplayControl.BothExist(cfg) && R.CleanRun(cfg, ls) ==>
              var wire := R.Run(cfg, ls).value.wire;
              forall i :: 0 <= i < |wire| ==> wire[i] == Stream(cfg.files, i)
    ensures ReplayControl.BothExist(cfg) && R.RaceFree(cfg, ls) ==>
              var s := R.Run(cfg, ls).value;
              && ReplayControl.Exclusive(cfg, s)
              && forall i :: 0 <= i < |s.passes| ==> s.passes[i] == i + 1
  {
    hide R.Run, R.CleanRun, R.RaceFree, Source, ReplayControl.Exclusive, ReplayControl.Contents, ReplayControl.Standing;
    if ReplayControl.BothExist(cfg) && R.CleanRun(cfg, ls) {
      ReplaySafety.ReplayRefinesStream(cfg, ls);
    }
    if ReplayControl.BothExist(cfg) && R.RaceFree(cfg, ls) {
      ReplayControl.RunKeeps(cfg, ls);
      ReplayControl.CoreExclusive(cfg, R.Run(cfg, ls).value);
    }
  }
}
