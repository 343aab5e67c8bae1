/** Two sections and any burst: why a schedule with an atomic decision has no race, and why a
    waiting transmitter always gets on. */
module ReplayLiveness {
  import opened Arith
  import opened Bytes
  import opened PcapFile
  import opened PcapReader
  import opened Replay
  import opened ReplayControl

  // ------------------------------------------------------- what rules out a race

  /** The decision is atomic and waiters wake only on the broadcast: each second read of the
      load count directly follows the first, and a wait ends only after WorkerFinish. */
  ghost predicate AtomicAndWoken(cfg: Config, ls: seq<Label>)
    requires Usable(cfg)
  {
    ls == [] ||
    var n := |ls| - 1;
    && AtomicAndWoken(cfg, ls[..n])
    && (ls[n].TxRecheck? ==> n > 0 && ls[n - 1].TxTest?)
    && (ls[n].TxWake? && Run(cfg, ls[..n]).Some? ==> Run(cfg, ls[..n]).value.woken)
  }

  lemma RecheckAfterTestIsNoRace(cfg: Config, s: State)
    requires Shape(cfg, s) && Test(cfg, s).tx.Rechecking?
    ensures !Race(cfg, Test(cfg, s), TxRecheck)
  {
    hide Readable, ValidBufs, ValidSlots;
  }

  lemma WokenWakeIsNoRace(cfg: Config, s: State)
    requires Core(cfg, s) && s.woken
    ensures !Race(cfg, s, TxWake)
  {
    hide Sections, Contents, Source, Readable, ValidBufs, ValidSlots;
  }

  /** A scheduler that keeps the decision atomic and never wakes a waiter early has no race. */
  lemma {:induction false} AtomicRunsAreRaceFree(cfg: Config, ls: seq<Label>)
    requires BothExist(cfg) && AtomicAndWoken(cfg, ls)
    ensures RaceFree(cfg, ls)
  {
    hide Core, Opened, Next, Race, Source;
    if ls != [] {
      var n := |ls| - 1;
      var before, l := ls[..n], ls[n];
      AtomicRunsAreRaceFree(cfg, before);
      if Run(cfg, before).Some? {
        RunKeeps(cfg, before);
        LastStepNoRace(cfg, before, l);
      }
    }
  }

  lemma LastStepNoRace(cfg: Config, before: seq<Label>, l: Label)
    requires BothExist(cfg) && Run(cfg, before).Some? && Core(cfg, Run(cfg, before).value)
    requires l.TxRecheck? ==> before != [] && before[|before| - 1].TxTest?
    requires l.TxWake? ==> Run(cfg, before).value.woken
    ensures !Race(cfg, Run(cfg, before).value, l)
  {
    hide Opened, Source, Core;
    if l.TxWake? {
      WokenWakeIsNoRace(cfg, Run(cfg, before).value);
    } else if l.TxRecheck? {
      var s0 := Run(cfg, before[..|before| - 1]).value;
      hide Test;
      if Test(cfg, s0).tx.Rechecking? {
        RecheckAfterTestIsNoRace(cfg, s0);
      }
    }
  }

  // ------------------------------------------------------------------ progress

  predicate Blocked(s: State) {
    s.tx.AwaitLoad? || s.tx.AwaitUnlock?
  }

  ghost predicate Waiting(s: State) {
    Blocked(s) && !s.woken
  }

  /** The request and the worker are about sections that exist. */
  predicate Placed(cfg: Config, s: State) {
    && |cfg.caps| == 2 && s.request < 2
    && (s.worker.Loading? ==> s.worker.sec < 2)
    && (s.worker.Filling? ==> s.worker.target < 2 && s.worker.slot <= cfg.caps[s.worker.target])
  }

  /** How many worker steps the wait can still take. */
  function Distance(cfg: Config, s: State): nat
    requires Placed(cfg, s)
  {
    if s.request >= 0 then cfg.caps[s.request] + 3
    else match s.worker
      case Waiting => 0
      case Loading(i) => cfg.caps[i] + 2
      case Filling(i, slot) => cfg.caps[i] - slot + 1
  }

  predicate WorkerLabel(l: Label) {
    l.WorkerTake? || l.WorkerReset? || l.WorkerFill? || l.WorkerFinish?
  }

  /** The step the worker takes next. */
  function WorkerNext(cfg: Config, s: State): Label
    requires |cfg.caps| == 2 && (s.worker.Filling? ==> s.worker.target < 2)
  {
    match s.worker
    case Waiting => WorkerTake
    case Loading(_) => WorkerReset
    case Filling(i, slot) => if slot < cfg.caps[i] then WorkerFill else WorkerFinish
  }

  /** What the invariant says of the worker, in particular while the transmitter waits. */
  lemma WaitingFacts(cfg: Config, s: State)
    requires Core(cfg, s)
    ensures Placed(cfg, s) && cfg.burst > 0 && Shape(cfg, s)
    ensures s.worker.Filling? ==> s.worker.target == Other(s)
    ensures s.worker.Loading? || s.worker.Filling? ==> s.request == -1
    ensures s.request >= 0 ==> s.request == Other(s) && s.worker.Waiting?
    ensures NextSection(s) == Other(s)
    ensures Waiting(s) ==> s.secs[Other(s)].locked
    ensures Waiting(s) ==> s.request == Other(s) || s.inProgress == Other(s)
    ensures Waiting(s) && s.worker.Waiting? ==> s.request >= 0
  {
    hide Contents, Source, Readable, ValidBufs, ValidSlots;
  }

  /** A waiting transmitter waits for a section that is requested or being refilled, and the
      worker's next step is enabled and no race. */
  lemma WaitingHasHelp(cfg: Config, s: State)
    requires Core(cfg, s) && Waiting(s)
    ensures s.request == NextSection(s) || s.inProgress == NextSection(s)
    ensures s.worker.Filling? ==> s.worker.target < 2
    ensures WorkerLabel(WorkerNext(cfg, s))
    ensures Next(cfg, s, WorkerNext(cfg, s)).Some? && !Race(cfg, s, WorkerNext(cfg, s))
  {
    hide Core, Shape, Next;
    WaitingFacts(cfg, s);
    if WorkerNext(cfg, s) == WorkerFill {
      FillKeeps(cfg, s);
    }
    HelperEnabled(cfg, s);
  }

  lemma HelperEnabled(cfg: Config, s: State)
    requires Shape(cfg, s) && Waiting(s)
    requires s.worker.Waiting? ==> s.request >= 0
    requires WorkerNext(cfg, s) == WorkerFill ==> Fill(cfg, s).Some?
    ensures Next(cfg, s, WorkerNext(cfg, s)).Some? && !Race(cfg, s, WorkerNext(cfg, s))
  {
    hide Shape, Fill, Reset, Take, Finish;
  }

  lemma WorkerStep(cfg: Config, s: State, l: Label)
    requires Shape(cfg, s) && Waiting(s) && Next(cfg, s, l).Some? && WorkerLabel(l)
    requires Placed(cfg, s) && (s.worker.Loading? || s.worker.Filling? ==> s.request == -1)
    ensures var s' := Next(cfg, s, l).value;
            && s'.tx == s.tx && s'.active == s.active && s'.index == s.index && s'.nic == s.nic
            && s'.done == s.done && s'.wire == s.wire && s'.quota == s.quota && s'.sending == s.sending
            && (s'.woken ==> l.WorkerFinish?)
            && Placed(cfg, s') && Distance(cfg, s') == Distance(cfg, s) - 1
  {
    hide Readable, ValidBufs, ValidSlots, ReadNext;
  }

  lemma IdleStep(cfg: Config, s: State, l: Label)
    requires Shape(cfg, s) && Waiting(s) && Next(cfg, s, l).Some? && !WorkerLabel(l) && !Race(cfg, s, l)
    requires s.secs[NextSection(s)].locked
    ensures var s' := Next(cfg, s, l).value;
            && s'.tx == s.tx && s'.active == s.active && s'.index == s.index && !s'.woken
            && s'.worker == s.worker && s'.request == s.request
  {
    hide Readable, ValidBufs, ValidSlots, ReadNext;
  }

  /** While the transmitter waits every step that is not a race leaves it waiting or woken; each
      worker step brings the end one nearer, and no other step puts it off. */
  lemma WaitingStep(cfg: Config, s: State, l: Label)
    requires Core(cfg, s) && Waiting(s) && !Race(cfg, s, l) && Next(cfg, s, l).Some?
    ensures var s' := Next(cfg, s, l).value;
            && Core(cfg, s') && s'.tx == s.tx && s'.active == s.active && s'.index == s.index
            && (s'.woken ==> l.WorkerFinish?)
            && Placed(cfg, s) && Placed(cfg, s')
            && Distance(cfg, s') == Distance(cfg, s) - if WorkerLabel(l) then 1 else 0
  {
    NextKeeps(cfg, s, l);
    WaitingFacts(cfg, s);
    hide Core, Distance, Shape, Next, Placed;
    if WorkerLabel(l) {
      WorkerStep(cfg, s, l);
    } else {
      IdleStep(cfg, s, l);
      SameDistance(cfg, s, Next(cfg, s, l).value);
    }
  }

  lemma SameDistance(cfg: Config, s: State, s': State)
    requires Placed(cfg, s) && s'.worker == s.worker && s'.request == s.request
    ensures Placed(cfg, s') && Distance(cfg, s') == Distance(cfg, s)
  {
  }

  /** No wakeup is lost: once the section is unlocked the waiter is woken, and waking it then
      enters the section. */
  lemma WokenEnters(cfg: Config, s: State)
    requires Core(cfg, s) && Blocked(s)
    ensures s.woken == !s.secs[NextSection(s)].locked
    ensures s.woken ==>
      && !Race(cfg, s, TxWake) && SwitchPoint(cfg, s) && Next(cfg, s, TxWake) == Some(Switch(cfg, s))
      && Switch(cfg, s).tx.Sending? && Switch(cfg, s).active == NextSection(s)
  {
    hide Contents, Source, Readable, ValidBufs, ValidSlots;
  }

  // ----------------------------------------------------- whole waits, schedules

  /** The schedule `ls`, free of the hazards `hs`, leads to `s`. */
  ghost predicate Reached(cfg: Config, ls: seq<Label>, s: State, hs: set<Hazard>)
    requires Usable(cfg)
  {
    Avoids(cfg, ls, hs) && Run(cfg, ls) == Some(s)
  }

  lemma ReachedCore(cfg: Config, ls: seq<Label>, s: State, hs: set<Hazard>)
    requires BothExist(cfg) && Reached(cfg, ls, s, hs) && Racing in hs
    ensures Core(cfg, s)
  {
    hide Core, Run, Avoids, Source;
    AvoidsFewer(cfg, ls, hs, {Racing});
    RunKeeps(cfg, ls);
  }

  lemma ReachedShape(cfg: Config, ls: seq<Label>, s: State, hs: set<Hazard>)
    requires Usable(cfg) && Reached(cfg, ls, s, hs)
    ensures Shape(cfg, s)
  {
    hide Run, Avoids;
    var _ := Run(cfg, ls);
  }

  lemma ReachNext(cfg: Config, ls: seq<Label>, s: State, l: Label, hs: set<Hazard>)
    requires Usable(cfg) && Shape(cfg, s) && Reached(cfg, ls, s, hs)
    requires Next(cfg, s, l).Some? && Clears(cfg, s, l, hs)
    ensures Reached(cfg, ls + [l], Next(cfg, s, l).value, hs)
  {
    hide Next, Clears, Shape, Opened;
    assert (ls + [l])[..|ls|] == ls;
  }

  /** A worker step hits no hazard but an overwrite, and not that if the NIC holds nothing. */
  lemma WorkerClears(cfg: Config, s: State, l: Label, hs: set<Hazard>)
    requires Shape(cfg, s) && cfg.burst > 0 && WorkerLabel(l) && (Overwriting in hs ==> s.nic == [])
    ensures Clears(cfg, s, l, hs)
  {
    hide Shape;
  }

  lemma WakeClears(cfg: Config, s: State, hs: set<Hazard>)
    requires Shape(cfg, s) && cfg.burst > 0 && !Race(cfg, s, TxWake)
    ensures Clears(cfg, s, TxWake, hs)
  {
    hide Shape, Race;
  }

  /** From the `n`-th label on, no command is given. */
  ghost predicate NoCommands(ls: seq<Label>, n: nat) {
    forall i :: n <= i < |ls| ==> !ls[i].Start? && !ls[i].Stop?
  }

  lemma ReachedDistance(cfg: Config, ls: seq<Label>, s: State, hs: set<Hazard>)
    requires BothExist(cfg) && Reached(cfg, ls, s, hs) && Racing in hs
    ensures Core(cfg, s) && Placed(cfg, s)
  {
    hide Core, Reached;
    ReachedCore(cfg, ls, s, hs);
    WaitingFacts(cfg, s);
  }

  /** The worker's own steps, no more of them than the distance, wake every waiter. A schedule
      that may not overwrite buffers has to let the NIC empty first. */
  lemma WaitCanWake(cfg: Config, ls: seq<Label>, s: State, hs: set<Hazard>) returns (ls': seq<Label>, s': State)
    requires BothExist(cfg) && Reached(cfg, ls, s, hs) && Racing in hs && (Overwriting in hs ==> s.nic == [])
    requires Blocked(s) && Placed(cfg, s)
    ensures Reached(cfg, ls', s', hs) && ls <= ls' && |ls'| <= |ls| + Distance(cfg, s)
    ensures s'.tx == s.tx && s'.active == s.active && s'.index == s.index && s'.nic == s.nic && s'.woken
    ensures s'.done == s.done && s'.wire == s.wire && s'.quota == s.quota && s'.sending == s.sending
    ensures NoCommands(ls', |ls|)
    decreases Distance(cfg, s)
  {
    hide Core, Next, Clears, Source, Reached, Distance, Shape;
    if s.woken {
      ls', s' := ls, s;
    } else {
      ReachedCore(cfg, ls, s, hs);
      WaitingFacts(cfg, s);
      WaitingHasHelp(cfg, s);
      var l := WorkerNext(cfg, s);
      WaitingStep(cfg, s, l);
      WorkerStep(cfg, s, l);
      WorkerClears(cfg, s, l, hs);
      ReachNext(cfg, ls, s, l, hs);
      ls', s' := WaitCanWake(cfg, ls + [l], Next(cfg, s, l).value, hs);
    }
  }

  /** So some schedule ends every wait within the distance, plus the wakeup itself. */
  lemma WaitCanEnd(cfg: Config, ls: seq<Label>, s: State) returns (ls': seq<Label>, s': State)
    requires BothExist(cfg) && Reached(cfg, ls, s, {Racing}) && Blocked(s)
    ensures Placed(cfg, s) && Reached(cfg, ls', s', {Racing}) && ls <= ls' && |ls'| <= |ls| + Distance(cfg, s) + 1
    ensures s'.tx.Sending? && s'.active == NextSection(s)
  {
    hide Core, Next, Clears, Source, Reached, Distance, Switch, SwitchPoint, Shape;
    ReachedDistance(cfg, ls, s, {Racing});
    var ls1, s1 := WaitCanWake(cfg, ls, s, {Racing});
    ReachedCore(cfg, ls1, s1, {Racing});
    ReachedShape(cfg, ls1, s1, {Racing});
    WokenEnters(cfg, s1);
    WakeClears(cfg, s1, {Racing});
    ReachNext(cfg, ls1, s1, TxWake, {Racing});
    ls', s' := ls1 + [TxWake], Switch(cfg, s1);
  }

  ghost function WorkerSteps(ls: seq<Label>): nat {
    if ls == [] then 0 else WorkerSteps(ls[..|ls| - 1]) + if WorkerLabel(ls[|ls| - 1]) then 1 else 0
  }

  /** However it is scheduled, a wait uses up its distance, one for each worker step: the
      worker takes no more steps than that before it ends. */
  lemma {:induction false} WaitIsBounded(cfg: Config, from: seq<Label>, ls: seq<Label>)
    requires BothExist(cfg) && RaceFree(cfg, from + ls)
    requires forall k :: 0 <= k <= |ls| ==>
               Run(cfg, from + ls[..k]).Some? && Waiting(Run(cfg, from + ls[..k]).value)
    ensures Run(cfg, from).Some? && Run(cfg, from + ls).Some?
    ensures var s, s' := Run(cfg, from).value, Run(cfg, from + ls).value;
            && Placed(cfg, s) && Placed(cfg, s')
            && WorkerSteps(ls) + Distance(cfg, s') == Distance(cfg, s)
  {
    hide Core, Next, Clears, Source, Distance, Waiting, Run, Avoids;
    assert ls[..|ls|] == ls && ls[..0] == [] && from + [] == from;
    if ls == [] {
      RunKeeps(cfg, from);
      WaitingFacts(cfg, Run(cfg, from).value);
    } else {
      var n := |ls| - 1;
      var before := ls[..n];
      assert from + ls == (from + before) + [ls[n]];
      assert forall k :: 0 <= k <= n ==> before[..k] == ls[..k];
      AvoidsLast(cfg, from + before, ls[n], {Racing});
      WaitIsBounded(cfg, from, before);
      assert before == ls[..n] && Waiting(Run(cfg, from + ls[..n]).value);
      RunKeeps(cfg, from + before);
      ClearsRace(cfg, Run(cfg, from + before).value, ls[n], {Racing});
      WaitingStep(cfg, Run(cfg, from + before).value, ls[n]);
    }
  }
}
