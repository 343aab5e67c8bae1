/** What the command line gets: a start for a count hands over that many packets, a start without
    one goes on for ever in full bursts, and a stop ends either. */
module ReplayCommands {
  import opened Arith
  import opened Bytes
  import opened PcapFile
  import opened PcapReader
  import opened Replay
  import opened ReplayControl
  import opened ReplaySafety
  import opened ReplayLiveness
  import opened ReplayBursts
  import opened ReplaySchedules
  import opened ReplayProgress

  /** How many packets have been handed to the NIC. */
  ghost function Handovers(s: State): nat {
    |s.wire| + |s.nic|
  }

  /** How often the transmitter has come to draw. */
  ghost function Draws(ls: seq<Label>): nat {
    if ls == [] then 0 else Draws(ls[..|ls| - 1]) + if ls[|ls| - 1].TxSend? then 1 else 0
  }

  /** In what follows `ls`, the pool had enough buffers at every draw but the one that ended the
      transmission. */
  ghost predicate EveryTake(cfg: Config, ls: seq<Label>, more: seq<Label>)
    requires Usable(cfg)
  {
    more == [] ||
    var front, l := more[..|more| - 1], more[|more| - 1];
    && EveryTake(cfg, ls, front)
    && (l.TxSend? && Run(cfg, ls + front).Some? && Run(cfg, ls + more).Some? && Run(cfg, ls + more).value.sending ==>
          Handovers(Run(cfg, ls + more).value) > Handovers(Run(cfg, ls + front).value))
  }

  // -------------------------------------------------------------------- steps

  /** What a step that is neither a draw nor a command leaves alone. */
  ghost predicate SameHands(s: State, s': State) {
    Handovers(s') == Handovers(s) && s'.quota == s.quota && s'.sending == s.sending
  }

  lemma SwitchHands(cfg: Config, s: State)
    requires Shape(cfg, s)
    ensures SameHands(s, Switch(cfg, s))
  {
    hide Readable, ValidBufs, ValidSlots;
  }

  lemma TestHands(cfg: Config, s: State)
    requires Shape(cfg, s)
    ensures SameHands(s, Test(cfg, s))
  {
    SwitchHands(cfg, s);
    hide Readable, ValidBufs, ValidSlots, Switch;
  }

  lemma WaitHands(cfg: Config, s: State)
    requires Shape(cfg, s)
    ensures SameHands(s, Recheck(cfg, s)) && SameHands(s, Wake(cfg, s))
  {
    SwitchHands(cfg, s);
    hide Readable, ValidBufs, ValidSlots, Switch;
  }

  lemma DecisionHands(cfg: Config, s: State, l: Label)
    requires Shape(cfg, s) && Next(cfg, s, l).Some? && (l.TxTest? || l.TxRecheck? || l.TxWake?)
    ensures SameHands(s, Next(cfg, s, l).value) && (l.TxTest? ==> s.sending) && (!l.TxTest? ==> !s.tx.Testing?)
  {
    hide Shape, Test, Recheck, Wake, SameHands;
    TestHands(cfg, s);
    WaitHands(cfg, s);
  }

  lemma WorkerHands(cfg: Config, s: State, l: Label)
    requires Shape(cfg, s) && Next(cfg, s, l).Some? && WorkerLabel(l)
    ensures SameHands(s, Next(cfg, s, l).value) && Next(cfg, s, l).value.tx == s.tx
  {
    hide Readable, ValidBufs, ValidSlots, ReadNext;
  }

  lemma NicHands(cfg: Config, s: State)
    requires Shape(cfg, s)
    ensures s.nic != [] ==> SameHands(s, Transmit(cfg, s)) && Transmit(cfg, s).tx == s.tx
    ensures s.done != [] ==> SameHands(s, Free(cfg, s)) && Free(cfg, s).tx == s.tx
  {
    hide Readable, ValidBufs, ValidSlots;
  }

  lemma OtherHands(cfg: Config, s: State, l: Label)
    requires Shape(cfg, s) && Next(cfg, s, l).Some? && !l.TxSend? && !IsCommand(l)
    ensures SameHands(s, Next(cfg, s, l).value)
    ensures (l.TxTest? ==> s.sending) && (s.tx.Testing? && !l.TxTest? ==> Next(cfg, s, l).value.tx.Testing?)
  {
    if l.TxTest? || l.TxRecheck? || l.TxWake? {
      hide *;
      DecisionHands(cfg, s, l);
    } else if WorkerLabel(l) {
      hide *;
      WorkerHands(cfg, s, l);
    } else {
      hide Shape, Transmit, Free, SameHands;
      NicHands(cfg, s);
    }
  }

  lemma DrawHands(cfg: Config, s: State)
    requires Shape(cfg, s) && Next(cfg, s, TxSend).Some?
    ensures !s.tx.Testing?
    ensures var n, s' := Draw(cfg, s.quota), Next(cfg, s, TxSend).value;
      && s'.tx.Testing? && s'.quota == QuotaAfter(cfg, s.quota)
      && (n == 0 ==> Handovers(s') == Handovers(s) && !s'.sending)
      && (n > 0 ==> s'.sending == s.sending)
      && (Handovers(s') == Handovers(s) || Handovers(s') == Handovers(s) + n)
  {
    hide Readable, ValidBufs, ValidSlots, Draw, QuotaAfter;
  }

  lemma RunOn(cfg: Config, ls: seq<Label>, more: seq<Label>)
    requires Usable(cfg) && more != [] && Run(cfg, ls + more).Some?
    ensures var front := more[..|more| - 1];
      Run(cfg, ls + front).Some? && Run(cfg, ls + more) == Next(cfg, Run(cfg, ls + front).value, more[|more| - 1])
  {
    hide Next, Opened;
    assert (ls + more)[..|ls + more| - 1] == ls + more[..|more| - 1];
  }

  lemma FrontQuiet(more: seq<Label>)
    requires more != [] && NoCommands(more, 0)
    ensures NoCommands(more[..|more| - 1], 0) && !IsCommand(more[|more| - 1])
  {
  }

  lemma OneMoreBurst(t: nat, b: nat)
    ensures (t + 1) * b == t * b + b
  {
  }

  lemma TakeSplits(cfg: Config, ls: seq<Label>, more: seq<Label>)
    requires Usable(cfg) && more != [] && Run(cfg, ls + more).Some? && Run(cfg, ls + more[..|more| - 1]).Some?
    ensures var front, l := more[..|more| - 1], more[|more| - 1];
      var s, s' := Run(cfg, ls + front).value, Run(cfg, ls + more).value;
      EveryTake(cfg, ls, more) ==>
        EveryTake(cfg, ls, front) && (l.TxSend? && s'.sending ==> Handovers(s') > Handovers(s))
  {
    hide Run, Usable, Handovers;
  }

  lemma DrawsSplit(more: seq<Label>)
    requires more != []
    ensures Draws(more) == Draws(more[..|more| - 1]) + if more[|more| - 1].TxSend? then 1 else 0
  {
  }

  /** The first step of a continuation that begins with a command. */
  lemma CommandFirst(cfg: Config, ls: seq<Label>, l: Label)
    requires Usable(cfg) && Run(cfg, (ls + [l]) + []).Some?
    ensures Run(cfg, ls).Some? && Run(cfg, (ls + [l]) + []) == Next(cfg, Run(cfg, ls).value, l)
    ensures Draws([]) == 0
  {
    hide Next, Opened;
    assert (ls + [l]) + [] == ls + [l];
    assert (ls + [l])[..|ls|] == ls;
  }

  lemma BurstPositive(cfg: Config)
    requires Usable(cfg)
    ensures cfg.burst > 0
  {
  }

  // ------------------------------------------------------------------ a count

  /** The state after `t` draws from a count of `k`, `h` packets having been handed over before. */
  ghost predicate Counting(s: State, k: nat, b: nat, t: nat, h: nat) {
    && s.quota == Count(if t * b >= k then 0 else k - t * b)
    && (s.sending <==> t == 0 || (t - 1) * b < k)
    && Handovers(s) <= h + k - s.quota.n
  }

  lemma CountsOn(cfg: Config, s: State, l: Label, k: nat, t: nat, h: nat)
    requires Shape(cfg, s) && cfg.burst > 0 && Next(cfg, s, l).Some? && !IsCommand(l) && Counting(s, k, cfg.burst, t, h)
    ensures var s' := Next(cfg, s, l).value;
      && Counting(s', k, cfg.burst, t + if l.TxSend? then 1 else 0, h)
      && s'.quota.Count? && s'.quota.n <= s.quota.n
      && (Handovers(s') > Handovers(s) ==> Handovers(s') + s'.quota.n == Handovers(s) + s.quota.n)
      && (Handovers(s') == Handovers(s) && (l.TxSend? ==> !s'.sending) ==> s'.quota == s.quota)
  {
    hide Shape, Next, Handovers;
    if l.TxSend? {
      DrawHands(cfg, s);
      OneMoreBurst(t, cfg.burst);
      if t > 0 {
        OneMoreBurst(t - 1, cfg.burst);
      }
    } else {
      OtherHands(cfg, s, l);
    }
  }

  lemma StartsCount(cfg: Config, s: State, k: nat)
    requires Shape(cfg, s) && k > 0 && Next(cfg, s, Start(k)).Some?
    ensures var s' := Next(cfg, s, Start(k)).value;
      Counting(s', k, cfg.burst, 0, Handovers(s)) && Handovers(s') == Handovers(s) && s'.quota == Count(k)
  {
    hide Shape;
  }

  /** The count so far, and what has been handed over if every take had its buffers. */
  ghost predicate Counted(cfg: Config, s: State, k: nat, t: nat, h: nat, all: bool) {
    Counting(s, k, cfg.burst, t, h) && (all ==> Handovers(s) == h + k - s.quota.n)
  }

  lemma CountedOn(cfg: Config, s: State, l: Label, k: nat, t: nat, h: nat, all: bool, all': bool)
    requires Shape(cfg, s) && cfg.burst > 0 && Next(cfg, s, l).Some? && !IsCommand(l) && Counted(cfg, s, k, t, h, all)
    requires all' ==> all
    requires all' && l.TxSend? && Next(cfg, s, l).value.sending ==> Handovers(Next(cfg, s, l).value) > Handovers(s)
    ensures Counted(cfg, Next(cfg, s, l).value, k, t + if l.TxSend? then 1 else 0, h, all')
  {
    CountsOn(cfg, s, l, k, t, h);
    GrowsOnly(cfg, s, l);
    hide Shape, Next, Handovers;
  }

  lemma GrowsOnly(cfg: Config, s: State, l: Label)
    requires Shape(cfg, s) && Next(cfg, s, l).Some? && !IsCommand(l)
    ensures Handovers(Next(cfg, s, l).value) >= Handovers(s)
    ensures !l.TxSend? ==> Handovers(Next(cfg, s, l).value) == Handovers(s)
  {
    hide Shape, Next, Handovers;
    if l.TxSend? {
      DrawHands(cfg, s);
    } else {
      OtherHands(cfg, s, l);
    }
  }

  lemma {:induction false} CountsThrough(cfg: Config, ls: seq<Label>, k: nat, more: seq<Label>)
    requires Usable(cfg) && k > 0 && Run(cfg, (ls + [Start(k)]) + more).Some? && NoCommands(more, 0)
    ensures Run(cfg, ls).Some?
    ensures Counted(cfg, Run(cfg, (ls + [Start(k)]) + more).value, k, Draws(more), Handovers(Run(cfg, ls).value),
                    EveryTake(cfg, ls + [Start(k)], more))
    decreases |more|
  {
    var from := ls + [Start(k)];
    if more == [] {
      hide *;
      CommandFirst(cfg, ls, Start(k));
      StartsCount(cfg, Run(cfg, ls).value, k);
      CountedFirst(cfg, Run(cfg, from + []).value, k, Handovers(Run(cfg, ls).value));
    } else {
      hide *;
      var front, l := more[..|more| - 1], more[|more| - 1];
      BurstPositive(cfg);
      RunOn(cfg, from, more);
      FrontQuiet(more);
      CountsThrough(cfg, ls, k, front);
      TakeSplits(cfg, from, more);
      DrawsSplit(more);
      CountedOn(cfg, Run(cfg, from + front).value, l, k, Draws(front), Handovers(Run(cfg, ls).value),
                EveryTake(cfg, from, front), EveryTake(cfg, from, more));
    }
  }

  lemma CountedFirst(cfg: Config, s: State, k: nat, h: nat)
    requires Counting(s, k, cfg.burst, 0, h) && Handovers(s) == h && s.quota == Count(k)
    ensures forall all: bool :: Counted(cfg, s, k, 0, h, all)
  {
  }

  /** After a start for `k` packets and no later command, whatever the threads and the NIC do: at
      most `k` packets are handed over; the transmission ends at the first draw after `k` packets'
      worth of bursts, whether their takes succeeded or not; and if they did, each draw handed over
      a full burst until the count ran out, and exactly `k` have been when it ends. */
  lemma CountIsKept(cfg: Config, ls: seq<Label>, k: nat, more: seq<Label>)
    requires Usable(cfg) && k > 0 && Run(cfg, (ls + [Start(k)]) + more).Some? && NoCommands(more, 0)
    ensures Run(cfg, ls).Some?
    ensures var s, s' := Run(cfg, ls).value, Run(cfg, (ls + [Start(k)]) + more).value;
      && Handovers(s') <= Handovers(s) + k
      && (s'.sending <==> Draws(more) == 0 || (Draws(more) - 1) * cfg.burst < k)
      && (EveryTake(cfg, ls + [Start(k)], more) ==>
            Handovers(s') == Handovers(s) + if Draws(more) * cfg.burst >= k then k else Draws(more) * cfg.burst)
      && (EveryTake(cfg, ls + [Start(k)], more) && !s'.sending ==> Handovers(s') == Handovers(s) + k)
  {
    hide *;
    CountsThrough(cfg, ls, k, more);
    CountedMeans(cfg, Run(cfg, (ls + [Start(k)]) + more).value, k, Draws(more), Handovers(Run(cfg, ls).value),
                 EveryTake(cfg, ls + [Start(k)], more));
  }

  lemma CountedMeans(cfg: Config, s: State, k: nat, t: nat, h: nat, all: bool)
    requires Counted(cfg, s, k, t, h, all) && k > 0
    ensures Handovers(s) <= h + k && (s.sending <==> t == 0 || (t - 1) * cfg.burst < k)
    ensures all ==> Handovers(s) == h + if t * cfg.burst >= k then k else t * cfg.burst
    ensures all && !s.sending ==> Handovers(s) == h + k
  {
    hide Handovers;
    if t > 0 {
      OneMoreBurst(t - 1, cfg.burst);
    }
  }

  // ------------------------------------------------------------------ for ever

  /** Sending for ever after `t` draws. */
  ghost predicate Endless(s: State, b: nat, t: nat, h: nat, all: bool) {
    s.sending && s.quota.Forever? && Handovers(s) <= h + t * b && (all ==> Handovers(s) == h + t * b)
  }

  lemma EndlessOn(cfg: Config, s: State, l: Label, t: nat, h: nat, all: bool, all': bool)
    requires Shape(cfg, s) && cfg.burst > 0 && Next(cfg, s, l).Some? && !IsCommand(l)
    requires Endless(s, cfg.burst, t, h, all) && (all' ==> all)
    requires all' && l.TxSend? && Next(cfg, s, l).value.sending ==> Handovers(Next(cfg, s, l).value) > Handovers(s)
    ensures Endless(Next(cfg, s, l).value, cfg.burst, t + if l.TxSend? then 1 else 0, h, all')
  {
    hide Shape, Next, Handovers;
    if l.TxSend? {
      DrawHands(cfg, s);
      OneMoreBurst(t, cfg.burst);
    } else {
      OtherHands(cfg, s, l);
    }
  }

  lemma StartsEndless(cfg: Config, s: State)
    requires Shape(cfg, s) && Next(cfg, s, Start(0)).Some?
    ensures var s' := Next(cfg, s, Start(0)).value;
      && s'.sending && s'.quota.Forever? && Handovers(s') == Handovers(s) && s'.wire == s.wire && s'.nic == s.nic
      && s'.tx == s.tx && s'.secs == s.secs && s'.active == s.active
  {
    hide Shape;
  }

  lemma ForeverFirst(cfg: Config, ls: seq<Label>, all: bool)
    requires Usable(cfg) && Run(cfg, (ls + [Start(0)]) + []).Some?
    ensures Run(cfg, ls).Some?
    ensures Endless(Run(cfg, (ls + [Start(0)]) + []).value, cfg.burst, 0, Handovers(Run(cfg, ls).value), all)
  {
    hide Run, Handovers, Usable, Next;
    CommandFirst(cfg, ls, Start(0));
    StartsEndless(cfg, Run(cfg, ls).value);
  }

  lemma ForeverNext(cfg: Config, from: seq<Label>, more: seq<Label>, h: nat)
    requires Usable(cfg) && more != [] && Run(cfg, from + more).Some? && NoCommands(more, 0)
    requires Run(cfg, from + more[..|more| - 1]).Some?
    requires var front := more[..|more| - 1];
      Endless(Run(cfg, from + front).value, cfg.burst, Draws(front), h, EveryTake(cfg, from, front))
    ensures Endless(Run(cfg, from + more).value, cfg.burst, Draws(more), h, EveryTake(cfg, from, more))
  {
    hide *;
    var front, l := more[..|more| - 1], more[|more| - 1];
    BurstPositive(cfg);
    RunOn(cfg, from, more);
    FrontQuiet(more);
    TakeSplits(cfg, from, more);
    DrawsSplit(more);
    EndlessOn(cfg, Run(cfg, from + front).value, l, Draws(front), h,
              EveryTake(cfg, from, front), EveryTake(cfg, from, more));
  }

  lemma {:induction false} EndlessThrough(cfg: Config, ls: seq<Label>, more: seq<Label>)
    requires Usable(cfg) && Run(cfg, (ls + [Start(0)]) + more).Some? && NoCommands(more, 0)
    ensures Run(cfg, ls).Some?
    ensures var s, s' := Run(cfg, ls).value, Run(cfg, (ls + [Start(0)]) + more).value;
      Endless(s', cfg.burst, Draws(more), Handovers(s), EveryTake(cfg, ls + [Start(0)], more))
    decreases |more|
  {
    var from := ls + [Start(0)];
    assert Draws([]) == 0;
    hide *;
    if more == [] {
      ForeverFirst(cfg, ls, EveryTake(cfg, from, more));
    } else {
      RunOn(cfg, from, more);
      FrontQuiet(more);
      EndlessThrough(cfg, ls, more[..|more| - 1]);
      ForeverNext(cfg, from, more, Handovers(Run(cfg, ls).value));
    }
  }

  /** After a start without a count and no later command the transmission never ends; if every
      take has its buffers, every draw hands over exactly one full burst. */
  lemma ForeverInFullBursts(cfg: Config, ls: seq<Label>, more: seq<Label>)
    requires Usable(cfg) && Run(cfg, (ls + [Start(0)]) + more).Some? && NoCommands(more, 0)
    ensures Run(cfg, ls).Some?
    ensures var s, s' := Run(cfg, ls).value, Run(cfg, (ls + [Start(0)]) + more).value;
      && s'.sending && Handovers(s') <= Handovers(s) + Draws(more) * cfg.burst
      && (EveryTake(cfg, ls + [Start(0)], more) ==> Handovers(s') == Handovers(s) + Draws(more) * cfg.burst)
  {
    EndlessThrough(cfg, ls, more);
    hide Run, Usable, Handovers, EveryTake, Draws;
  }

  // -------------------------------------------------------------------- a stop

  /** Stopped, at most one draw being still to come. */
  ghost predicate Ending(s: State, b: nat, t: nat, h: nat, forever: bool) {
    && !s.sending && t <= 1 && (t == 1 ==> s.tx.Testing?)
    && Handovers(s) <= h + t * b && (forever ==> s.quota == Count(0) && Handovers(s) == h)
  }

  lemma DrawBound(cfg: Config, q: Quota)
    ensures Draw(cfg, q) <= cfg.burst
    ensures q == Count(0) ==> Draw(cfg, q) == 0 && QuotaAfter(cfg, q) == Count(0)
  {
  }

  lemma EndingOn(cfg: Config, s: State, l: Label, t: nat, h: nat, forever: bool)
    requires Shape(cfg, s) && Next(cfg, s, l).Some? && !IsCommand(l) && Ending(s, cfg.burst, t, h, forever)
    ensures Ending(Next(cfg, s, l).value, cfg.burst, t + if l.TxSend? then 1 else 0, h, forever)
  {
    hide Shape, Next, Handovers, Draw, QuotaAfter;
    if l.TxSend? {
      DrawHands(cfg, s);
      DrawBound(cfg, s.quota);
    } else {
      OtherHands(cfg, s, l);
    }
  }

  lemma StopsNow(cfg: Config, s: State)
    requires Shape(cfg, s) && Next(cfg, s, Stop).Some?
    ensures Ending(Next(cfg, s, Stop).value, cfg.burst, 0, Handovers(s), s.quota.Forever?)
  {
    hide Shape;
  }

  lemma {:induction false} EndsAfter(cfg: Config, ls: seq<Label>, more: seq<Label>)
    requires Usable(cfg) && Run(cfg, (ls + [Stop]) + more).Some? && NoCommands(more, 0)
    ensures Run(cfg, ls).Some?
    ensures var s, s' := Run(cfg, ls).value, Run(cfg, (ls + [Stop]) + more).value;
      Ending(s', cfg.burst, Draws(more), Handovers(s), s.quota.Forever?)
    decreases |more|
  {
    var from := ls + [Stop];
    if more == [] {
      hide *;
      CommandFirst(cfg, ls, Stop);
      StopsNow(cfg, Run(cfg, ls).value);
    } else {
      hide *;
      var front, l := more[..|more| - 1], more[|more| - 1];
      RunOn(cfg, from, more);
      FrontQuiet(more);
      EndsAfter(cfg, ls, front);
      DrawsSplit(more);
      EndingOn(cfg, Run(cfg, from + front).value, l, Draws(front), Handovers(Run(cfg, ls).value),
               Run(cfg, ls).value.quota.Forever?);
    }
  }

  /** After a stop and no later command the transmitter comes to draw at most once more, and hands
      over at most one burst. */
  lemma StopEnds(cfg: Config, ls: seq<Label>, more: seq<Label>)
    requires Usable(cfg) && Run(cfg, (ls + [Stop]) + more).Some? && NoCommands(more, 0)
    ensures Run(cfg, ls).Some?
    ensures var s, s' := Run(cfg, ls).value, Run(cfg, (ls + [Stop]) + more).value;
      !s'.sending && Draws(more) <= 1 && Handovers(s') <= Handovers(s) + cfg.burst
  {
    hide *;
    EndsAfter(cfg, ls, more);
    EndingMeans(Run(cfg, (ls + [Stop]) + more).value, cfg.burst, Draws(more), Handovers(Run(cfg, ls).value),
                Run(cfg, ls).value.quota.Forever?);
  }

  lemma EndingMeans(s: State, b: nat, t: nat, h: nat, forever: bool)
    requires Ending(s, b, t, h, forever)
    ensures !s.sending && t <= 1 && Handovers(s) <= h + b && (forever ==> Handovers(s) == h)
  {
    hide Handovers;
    assert t == 0 || t == 1;
  }

  /** A stop of what was started without a count hands over nothing more. */
  lemma StopEndsForever(cfg: Config, ls: seq<Label>, during: seq<Label>, after: seq<Label>)
    requires Usable(cfg) && NoCommands(during, 0) && NoCommands(after, 0)
    requires Run(cfg, ((ls + [Start(0)] + during) + [Stop]) + after).Some?
    ensures Run(cfg, ls + [Start(0)] + during).Some?
    ensures Handovers(Run(cfg, ((ls + [Start(0)] + during) + [Stop]) + after).value)
         == Handovers(Run(cfg, ls + [Start(0)] + during).value)
  {
    hide Run, Usable, Handovers, EveryTake;
    EndsAfter(cfg, ls + [Start(0)] + during, after);
    EndlessThrough(cfg, ls, during);
  }

  lemma {:induction false} NoDrawsKeep(cfg: Config, from: seq<Label>, mid: seq<Label>)
    requires Usable(cfg) && Run(cfg, from + mid).Some? && NoCommands(mid, 0) && Draws(mid) == 0
    ensures Run(cfg, from).Some? && SameHands(Run(cfg, from).value, Run(cfg, from + mid).value)
    decreases |mid|
  {
    if mid == [] {
      hide Run, Usable;
      assert from + mid == from;
    } else {
      hide *;
      var front, l := mid[..|mid| - 1], mid[|mid| - 1];
      RunOn(cfg, from, mid);
      FrontQuiet(mid);
      DrawsSplit(mid);
      NoDrawsKeep(cfg, from, front);
      OtherHands(cfg, Run(cfg, from + front).value, l);
      SameTwice(Run(cfg, from).value, Run(cfg, from + front).value, Run(cfg, from + mid).value);
    }
  }

  lemma SameTwice(s: State, s': State, s'': State)
    requires SameHands(s, s') && SameHands(s', s'')
    ensures SameHands(s, s'')
  {
    hide Handovers;
  }

  lemma StopKeepsCount(cfg: Config, s: State, k: nat, t: nat, h: nat)
    requires Shape(cfg, s) && Next(cfg, s, Stop).Some? && Counting(s, k, cfg.burst, t, h)
    ensures var s' := Next(cfg, s, Stop).value;
      s'.quota == Count(if t * cfg.burst >= k then 0 else k - t * cfg.burst) && Handovers(s') == Handovers(s)
  {
    hide Shape;
  }

  /** A draw that finds a burst of buffers in the pool hands over what it draws. */
  lemma TakeHands(cfg: Config, s: State)
    requires Shape(cfg, s) && Next(cfg, s, TxSend).Some? && s.active < |s.secs|
    requires |s.secs[s.active].free| >= cfg.burst
    ensures Handovers(Next(cfg, s, TxSend).value) == Handovers(s) + Draw(cfg, s.quota)
  {
    DrawBound(cfg, s.quota);
    hide Readable, ValidBufs, ValidSlots, Draw, QuotaAfter;
  }

  lemma DrawOf(cfg: Config, s: State, s': State, rest: nat)
    requires SameHands(s, s') && s.quota == Count(rest)
    ensures Handovers(s') == Handovers(s) && Draw(cfg, s'.quota) == if rest > cfg.burst then cfg.burst else rest
  {
    hide Handovers;
  }

  lemma CountAt(cfg: Config, ls: seq<Label>, k: nat, during: seq<Label>)
    requires Usable(cfg) && k > 0 && NoCommands(during, 0) && Run(cfg, (ls + [Start(k)]) + during).Some?
    ensures exists h: nat :: Counting(Run(cfg, (ls + [Start(k)]) + during).value, k, cfg.burst, Draws(during), h)
  {
    CountsThrough(cfg, ls, k, during);
    hide Run, Usable, Counting, EveryTake, Draws;
  }

  /** A draw under way when the stop comes still takes its burst of what is left of the count. */
  lemma StopMidCount(cfg: Config, ls: seq<Label>, k: nat, during: seq<Label>, mid: seq<Label>)
    requires Usable(cfg) && k > 0 && NoCommands(during, 0) && NoCommands(mid, 0)
    requires var stopped := ((ls + [Start(k)]) + during) + [Stop];
      && Run(cfg, stopped + mid).Some? && Next(cfg, Run(cfg, stopped + mid).value, TxSend).Some?
      && var s := Run(cfg, stopped + mid).value;
      s.active < |s.secs| && |s.secs[s.active].free| >= cfg.burst
    ensures var from := (ls + [Start(k)]) + during;
      && Run(cfg, from).Some? && Draws(mid) == 0
      && var left := if Draws(during) * cfg.burst >= k then 0 else k - Draws(during) * cfg.burst;
      Handovers(Next(cfg, Run(cfg, (from + [Stop]) + mid).value, TxSend).value)
      == Handovers(Run(cfg, from).value) + if left > cfg.burst then cfg.burst else left
  {
    var from := (ls + [Start(k)]) + during;
    hide *;
    NoDrawBeforeLast(cfg, from, mid);
    NoDrawsKeep(cfg, from + [Stop], mid);
    assert (from + [Stop]) + [] == from + [Stop];
    CommandFirst(cfg, from, Stop);
    CountAt(cfg, ls, k, during);
    var h: nat :| Counting(Run(cfg, from).value, k, cfg.burst, Draws(during), h);
    StopKeepsCount(cfg, Run(cfg, from).value, k, Draws(during), h);
    var left := if Draws(during) * cfg.burst >= k then 0 else k - Draws(during) * cfg.burst;
    DrawOf(cfg, Run(cfg, from + [Stop]).value, Run(cfg, (from + [Stop]) + mid).value, left);
    TakeHands(cfg, Run(cfg, (from + [Stop]) + mid).value);
  }

  /** Only the first draw after a stop is one. */
  lemma NoDrawBeforeLast(cfg: Config, from: seq<Label>, mid: seq<Label>)
    requires Usable(cfg) && NoCommands(mid, 0) && Run(cfg, (from + [Stop]) + mid).Some?
    requires Next(cfg, Run(cfg, (from + [Stop]) + mid).value, TxSend).Some?
    ensures Draws(mid) == 0
  {
    hide *;
    EndsAfter(cfg, from, mid);
    NoneDrawn(cfg, Run(cfg, (from + [Stop]) + mid).value, Draws(mid), Handovers(Run(cfg, from).value),
              Run(cfg, from).value.quota.Forever?);
  }

  lemma NoneDrawn(cfg: Config, s: State, t: nat, h: nat, forever: bool)
    requires Shape(cfg, s) && Next(cfg, s, TxSend).Some? && Ending(s, cfg.burst, t, h, forever)
    ensures t == 0
  {
    hide Shape, Handovers, Send;
  }

  /** Without a stop a second start is accepted only once the count of the first has been used up:
      it was not for ever, as many draws have been made as the count takes, and one more that found
      nothing left; and if every take succeeded, all of the count has been handed over. */
  lemma StartWaits(cfg: Config, ls: seq<Label>, k: nat, more: seq<Label>, j: nat)
    requires Usable(cfg) && NoCommands(more, 0) && Run(cfg, ((ls + [Start(k)]) + more) + [Start(j)]).Some?
    ensures k > 0 && Draws(more) > 0 && (Draws(more) - 1) * cfg.burst >= k
    ensures Run(cfg, ls).Some? && Run(cfg, (ls + [Start(k)]) + more).Some?
    ensures EveryTake(cfg, ls + [Start(k)], more) ==>
      Handovers(Run(cfg, (ls + [Start(k)]) + more).value) == Handovers(Run(cfg, ls).value) + k
  {
    hide *;
    var from := (ls + [Start(k)]) + more;
    assert (from + [Start(j)]) + [] == from + [Start(j)];
    CommandFirst(cfg, from, Start(j));
    NotSending(cfg, Run(cfg, from).value, j);
    if k == 0 {
      ForeverInFullBursts(cfg, ls, more);
    } else {
      CountIsKept(cfg, ls, k, more);
    }
  }

  lemma NotSending(cfg: Config, s: State, j: nat)
    requires Shape(cfg, s) && Next(cfg, s, Start(j)).Some?
    ensures !s.sending
  {
    hide Shape;
  }

  // -------------------------------------------------------------- before any start

  /** Idle, nothing having been handed over. */
  ghost predicate Silent(s: State) {
    !s.sending && s.tx.Testing? && s.wire == [] && s.nic == []
  }

  lemma FillSilent(cfg: Config, s: State, i: nat, slot: nat)
    requires Shape(cfg, s) && i < 2 && slot < cfg.caps[i] && Silent(s) && FillSlot(cfg, s, i, slot).Some?
    ensures Silent(FillSlot(cfg, s, i, slot).value)
  {
    hide Readable, ValidBufs, ValidSlots, ReadNext;
  }

  lemma {:induction false} LoadSilent(cfg: Config, s: State, i: nat, slot: nat)
    requires Shape(cfg, s) && i < 2 && slot <= cfg.caps[i] && Silent(s) && FillFrom(cfg, s, i, slot).Some?
    ensures Silent(FillFrom(cfg, s, i, slot).value)
    decreases cfg.caps[i] - slot
  {
    if slot < cfg.caps[i] {
      hide Shape, Silent, FillSlot;
      FillSilent(cfg, s, i, slot);
      LoadSilent(cfg, FillSlot(cfg, s, i, slot).value, i, slot + 1);
    }
  }

  lemma SectionSilent(cfg: Config, s: State, i: nat)
    requires Shape(cfg, s) && i < 2 && Silent(s) && LoadSection(cfg, s, i).Some?
    ensures Silent(LoadSection(cfg, s, i).value)
  {
    assert Silent(ResetSection(cfg, s, i)) by {
      hide Shape;
    }
    assert |cfg.caps| == 2;
    hide Shape, Silent, ResetSection, FillFrom;
    LoadSilent(cfg, ResetSection(cfg, s, i), i, 0);
  }

  lemma CreatedSilent(cfg: Config)
    requires Usable(cfg) && Open(cfg.files, 0).Some?
    ensures |cfg.caps| == 2
    ensures var s := Created(cfg, Open(cfg.files, 0).value);
      Shape(cfg, s) && Silent(s)
  {
    hide Open, Startable;
  }

  lemma OpenedSilent(cfg: Config)
    requires Usable(cfg) && Opened(cfg).Some?
    ensures Silent(Opened(cfg).value)
  {
    CreatedSilent(cfg);
    var s := Created(cfg, Open(cfg.files, 0).value);
    hide Shape, Silent, LoadSection, Created, Open;
    assert Opened(cfg).value == (if cfg.caps[1] > 0 then LoadSection(cfg, LoadSection(cfg, s, 0).value, 1).value
                                 else LoadSection(cfg, s, 0).value).(passes := Opened(cfg).value.passes);
    SectionSilent(cfg, s, 0);
    if cfg.caps[1] > 0 {
      SectionSilent(cfg, LoadSection(cfg, s, 0).value, 1);
    }
  }

  lemma SilentOn(cfg: Config, s: State, l: Label)
    requires Shape(cfg, s) && Next(cfg, s, l).Some? && Silent(s) && !l.Start?
    ensures Silent(Next(cfg, s, l).value)
  {
    if WorkerLabel(l) {
      hide Shape, Next;
      WorkerHands(cfg, s, l);
    } else {
      hide Shape, Take, Reset, Fill, Finish;
      NicHands(cfg, s);
    }
  }

  /** Before the first start nothing is handed over. */
  lemma {:induction false} SilentUntilStarted(cfg: Config, ls: seq<Label>)
    requires Usable(cfg) && Run(cfg, ls).Some? && forall i :: 0 <= i < |ls| ==> !ls[i].Start?
    ensures Silent(Run(cfg, ls).value)
  {
    if ls == [] {
      hide Opened, Usable, Silent;
      OpenedSilent(cfg);
    } else {
      hide Opened, Next, Silent, Usable;
      var front := ls[..|ls| - 1];
      SilentUntilStarted(cfg, front);
      SilentOn(cfg, Run(cfg, front).value, ls[|ls| - 1]);
    }
  }

  // ------------------------------------------------------ for ever, on the wire

  lemma {:induction false} QuietAligned(cfg: Config, ls: seq<Label>, ls': seq<Label>)
    requires Usable(cfg) && Avoids(cfg, ls, {Misaligned}) && Continues(ls, ls')
    ensures Avoids(cfg, ls', {Misaligned})
    decreases |ls'|
  {
    hide Run;
    if ls' == ls {
    } else {
      var front := ls'[..|ls'| - 1];
      assert ls <= front;
      QuietAligned(cfg, ls, front);
    }
  }

  /** A state from which sending goes on for ever. */
  ghost predicate Runs(cfg: Config, ls: seq<Label>, s: State)
    requires Usable(cfg)
  {
    && Reached(cfg, ls, s, CLEAN) && Avoids(cfg, ls, {Misaligned})
    && |s.secs| == 2 && s.active < 2 && s.sending && s.quota.Forever? && !Doomed(s)
  }

  lemma RunsFit(cfg: Config, ls: seq<Label>, s: State)
    requires TwoSections(cfg) && cfg.burst <= cfg.caps[0] && cfg.burst <= cfg.caps[1] && Runs(cfg, ls, s)
    ensures |cfg.caps| == 2 && BurstFitsNext(cfg, s)
  {
    hide Run, Avoids, Source, Orderly, Aligned, BurstFitsNext, Doomed;
    AvoidsFewer(cfg, ls, CLEAN, {Racing});
    AvoidsBoth(cfg, ls, {Racing}, {Misaligned});
    assert {Racing} + {Misaligned} == {Racing, Misaligned};
    AlignedRunsDoNotOverrun(cfg, ls);
    WithinEnd(cfg, s);
    AlignedFits(cfg, s);
  }

  lemma RunsOn(cfg: Config, ls: seq<Label>, s: State) returns (ls': seq<Label>, s': State)
    requires TwoSections(cfg) && cfg.burst <= cfg.caps[0] && cfg.burst <= cfg.caps[1] && Runs(cfg, ls, s)
    ensures Runs(cfg, ls', s') && Continues(ls, ls') && |s'.wire| == |s.wire| + 1
  {
    hide Reached, Avoids, Source, BurstFitsNext, Doomed, Continues;
    RunsFit(cfg, ls, s);
    ls', s' := OnePacketMore(cfg, ls, s);
    QuietAligned(cfg, ls, ls');
  }

  lemma {:induction false} SendsMany(cfg: Config, ls: seq<Label>, s: State, n: nat)
    returns (ls': seq<Label>, s': State)
    requires TwoSections(cfg) && cfg.burst <= cfg.caps[0] && cfg.burst <= cfg.caps[1] && Runs(cfg, ls, s)
    ensures Runs(cfg, ls', s') && Continues(ls, ls') && |s'.wire| == |s.wire| + n
    decreases n
  {
    hide Runs, Continues, Source;
    if n == 0 {
      ContinuesSelf(ls);
      ls', s' := ls, s;
    } else {
      var ls1, s1 := SendsMany(cfg, ls, s, n - 1);
      ls', s' := RunsOn(cfg, ls1, s1);
      ContinuesOn(ls, ls1, ls');
    }
  }

  /** Some clean continuation without commands puts exactly `n` packets more on the wire. */
  ghost predicate PutsOut(cfg: Config, ls: seq<Label>, n: nat)
    requires Usable(cfg)
  {
    Run(cfg, ls).Some? && exists more :: PutsOutBy(cfg, ls, more, n)
  }

  ghost predicate PutsOutBy(cfg: Config, ls: seq<Label>, more: seq<Label>, n: nat)
    requires Usable(cfg) && Run(cfg, ls).Some?
  {
    && NoCommands(more, 0) && CleanRun(cfg, ls + more) && Run(cfg, ls + more).Some?
    && |Run(cfg, ls + more).value.wire| == |Run(cfg, ls).value.wire| + n
  }

  lemma ContinuationPutsOut(cfg: Config, ls: seq<Label>, s: State, ls': seq<Label>, s': State, n: nat)
    requires Usable(cfg) && Reached(cfg, ls, s, CLEAN) && Reached(cfg, ls', s', CLEAN) && Continues(ls, ls')
    requires |s'.wire| == |s.wire| + n
    ensures PutsOut(cfg, ls, n)
  {
    hide Run, Avoids;
    var more := ls'[|ls|..];
    assert ls + more == ls';
    TailHasNone(ls, ls');
    assert PutsOutBy(cfg, ls, more, n);
  }

  // ------------------------------------------------ doomed, with packets in the NIC

  lemma DoomedHands(cfg: Config, s: State, l: Label)
    requires Core(cfg, s) && Next(cfg, s, l).Some? && !Race(cfg, s, l)
    requires |s.secs| == 2 && s.active < 2 && Doomed(s)
    ensures var s' := Next(cfg, s, l).value;
      |s'.secs| == 2 && s'.active < 2 && Doomed(s') && Handovers(s') == Handovers(s)
  {
    hide Core, Doomed, Race;
    DoomedFacts(cfg, s);
    if l.WorkerFill? {
      hide Fill;
      DoomedFillHands(cfg, s);
    } else if l.NicTransmit? {
      hide Transmit, Shape;
      TransmitFrame(cfg, s);
      TransmitDoom(s, Transmit(cfg, s));
    } else if !l.TxRecheck? {
      hide Next;
      DoomedOtherHands(cfg, s, l);
    }
  }

  lemma TransmitDoom(s: State, s': State)
    requires SameBut(s, s') && s.active < 2 && Doomed(s)
    ensures Doomed(s')
  {
  }

  lemma DoomedOtherHands(cfg: Config, s: State, l: Label)
    requires Shape(cfg, s) && s.active < 2 && |s.secs| == 2 && Doomed(s) && s.worker.Filling?
    requires Next(cfg, s, l).Some? && !l.TxRecheck? && !l.WorkerFill? && !l.NicTransmit?
    ensures var s' := Next(cfg, s, l).value;
      |s'.secs| == 2 && s'.active < 2 && Doomed(s') && Handovers(s') == Handovers(s)
  {
    hide Readable, ValidBufs, ValidSlots, Test, Wake, Send, Take, Reset, Finish, Transmit;
  }

  lemma DoomedFillHands(cfg: Config, s: State)
    requires Core(cfg, s) && s.worker.Filling? && s.worker.slot < cfg.caps[s.worker.target]
    requires |s.secs| == 2 && s.active < 2 && Doomed(s)
    ensures Fill(cfg, s).Some?
    ensures var s' := Fill(cfg, s).value;
      |s'.secs| == 2 && s'.active < 2 && Doomed(s') && Handovers(s') == Handovers(s)
  {
    FillStep(cfg, s);
    hide Core, Fill, Source, Stream, HasRead, Readable, ValidBufs, ValidSlots;
  }

  ghost predicate DoomedWith(s: State, h: nat) {
    |s.secs| == 2 && s.active < 2 && Doomed(s) && Handovers(s) == h
  }

  lemma {:induction false} DoomedHandsNone(cfg: Config, ls: seq<Label>, more: seq<Label>, h: nat)
    requires BothExist(cfg) && RaceFree(cfg, ls + more) && Run(cfg, ls + more).Some?
    requires Run(cfg, ls).Some? && DoomedWith(Run(cfg, ls).value, h)
    ensures DoomedWith(Run(cfg, ls + more).value, h)
    decreases |more|
  {
    hide Run, Avoids, Core, Next, Clears, Source, Race, Doomed, Handovers;
    if more == [] {
      assert ls + more == ls;
    } else {
      var front, l := more[..|more| - 1], more[|more| - 1];
      LastOfMore(cfg, ls, more, {Racing});
      DoomedHandsNone(cfg, ls, front, h);
      RunKeeps(cfg, ls + front);
      ClearsRace(cfg, Run(cfg, ls + front).value, l, {Racing});
      DoomedHands(cfg, Run(cfg, ls + front).value, l);
    }
  }

  /** Started without a count, with a burst that divides both capacities, after any schedule
      without race, overwrite and misaligned start: for every `n` the port can put `n` packets more
      on the wire, cleanly and without further commands, if and only if the transmitter is not
      doomed to a race; if it is, no more than the NIC holds come out. */
  lemma StartedForeverIff(cfg: Config, ls: seq<Label>)
    requires TwoSections(cfg) && cfg.burst <= cfg.caps[0] && cfg.burst <= cfg.caps[1]
    requires Avoids(cfg, ls + [Start(0)], {Racing, Overwriting, Misaligned}) && Run(cfg, ls + [Start(0)]).Some?
    ensures Run(cfg, ls).Some? && |Run(cfg, ls).value.secs| == 2 && Run(cfg, ls).value.active < 2
    ensures (forall n: nat :: PutsOut(cfg, ls + [Start(0)], n)) <==> !Doomed(Run(cfg, ls).value)
  {
    var from := ls + [Start(0)];
    hide Run, Avoids, Source, Doomed, Handovers, Next, Core, Reached, Runs, PutsOut, Orderly, Aligned;
    var s, s1 := StartedState(cfg, ls);
    if !Doomed(s) {
      forall n: nat
        ensures PutsOut(cfg, from, n)
      {
        StartedRuns(cfg, ls, s1);
        var ls', s' := SendsMany(cfg, from, s1, n);
        RunsReached(cfg, from, s1);
        RunsReached(cfg, ls', s');
        ContinuationPutsOut(cfg, from, s1, ls', s', n);
      }
    } else {
      NoMoreThanNic(cfg, from, |s1.nic| + 1);
    }
  }

  /** The states before and after the start. */
  lemma StartedState(cfg: Config, ls: seq<Label>) returns (s: State, s1: State)
    requires TwoSections(cfg)
    requires Avoids(cfg, ls + [Start(0)], {Racing, Overwriting, Misaligned}) && Run(cfg, ls + [Start(0)]).Some?
    ensures Run(cfg, ls) == Some(s) && Run(cfg, ls + [Start(0)]) == Some(s1)
    ensures |s.secs| == 2 && s.active < 2 && |s1.secs| == 2 && s1.active < 2 && (Doomed(s1) <==> Doomed(s))
    ensures s1.sending && s1.quota.Forever? && s1.nic == s.nic && s1.wire == s.wire
    ensures Reached(cfg, ls + [Start(0)], s1, CLEAN)
  {
    var from := ls + [Start(0)];
    hide Run, Avoids, Source, Doomed, Next, Core, Orderly, Aligned;
    RunOn(cfg, ls, [Start(0)]);
    assert ls + [Start(0)][..0] == ls;
    s, s1 := Run(cfg, ls).value, Run(cfg, from).value;
    StartsEndless(cfg, s);
    AlignedRunsAreClean(cfg, from);
    CleanCore(cfg, from);
    DoomedFacts(cfg, s1);
    SameDoom(s, s1);
  }

  lemma StartedRuns(cfg: Config, ls: seq<Label>, s1: State)
    requires TwoSections(cfg) && Avoids(cfg, ls + [Start(0)], {Racing, Overwriting, Misaligned})
    requires Reached(cfg, ls + [Start(0)], s1, CLEAN) && |s1.secs| == 2 && s1.active < 2
    requires s1.sending && s1.quota.Forever? && !Doomed(s1)
    ensures Runs(cfg, ls + [Start(0)], s1)
  {
    hide Run, Avoids, Source, Doomed, Reached;
    AvoidsFewer(cfg, ls + [Start(0)], {Racing, Overwriting, Misaligned}, {Misaligned});
  }

  lemma RunsReached(cfg: Config, ls: seq<Label>, s: State)
    requires Usable(cfg) && Runs(cfg, ls, s)
    ensures Reached(cfg, ls, s, CLEAN)
  {
    hide Reached, Avoids;
  }

  lemma NoMoreThanNic(cfg: Config, ls: seq<Label>, n: nat)
    requires BothExist(cfg) && Run(cfg, ls).Some? && n > |Run(cfg, ls).value.nic|
    requires var s := Run(cfg, ls).value; |s.secs| == 2 && s.active < 2 && Doomed(s)
    ensures !PutsOut(cfg, ls, n)
  {
    hide Run, Avoids, Source, Doomed;
    forall more
      ensures !PutsOutBy(cfg, ls, more, n)
    {
      if PutsOutBy(cfg, ls, more, n) {
        AvoidsFewer(cfg, ls + more, CLEAN, {Racing});
        DoomedHandsNone(cfg, ls, more, Handovers(Run(cfg, ls).value));
      }
    }
  }
}
