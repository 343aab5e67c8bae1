/** The shared countdown of packets to send: any number of transmit queues draw bursts from one
    counter with a read followed by a compare-and-set, retrying until the set succeeds. */
module TxCount {

  /** A queue is outside the loop, or holds a value it has read; `since` counts the draws that
      had been made when it read. */
  datatype Queue = Idle | Holding(seen: nat, since: nat)

  datatype Draw = Draw(queue: nat, amount: nat)

  /** `draws` lists the successful sets in order, `lost[q]` counts the failed ones of queue `q`. */
  datatype State = State(count: nat, queues: seq<Queue>, draws: seq<Draw>, lost: seq<nat>)

  datatype Label = Read(queue: nat) | Cas(queue: nat)

  function Min(a: nat, b: nat): nat {
    if a > b then b else a
  }

  /** The load of the counter and the two assignments before the set; zero leaves the loop. */
  function ReadStep(s: State, q: nat): State
    requires q < |s.queues|
  {
    if s.count == 0 then s
    else s.(queues := s.queues[q := Holding(s.count, |s.draws|)])
  }

  /** The compare-and-set: a failure goes back to the load. */
  function CasStep(s: State, q: nat, burst: nat): State
    requires q < |s.queues| == |s.lost| && s.queues[q].Holding?
  {
    var seen := s.queues[q].seen;
    var taken := Min(seen, burst);
    if s.count == seen then
      s.(count := seen - taken, queues := s.queues[q := Idle], draws := s.draws + [Draw(q, taken)])
    else
      s.(queues := s.queues[q := Idle], lost := s.lost[q := s.lost[q] + 1])
  }

  ghost predicate Next(s: State, l: Label, burst: nat, t: State) {
    match l
    case Read(q) =>
      q < |s.queues| && s.queues[q].Idle? && t == ReadStep(s, q)
    case Cas(q) =>
      q < |s.queues| == |s.lost| && s.queues[q].Holding? && t == CasStep(s, q, burst)
  }

  /** A fresh count, no queue in the loop. */
  function Loaded(transmitCount: nat, queues: nat): State {
    State(transmitCount, seq(queues, i => Idle), [], seq<nat>(queues, i => 0))
  }

  /** Any interleaving of the queues' steps. */
  ghost predicate Run(states: seq<State>, labels: seq<Label>, burst: nat) {
    && |states| == |labels| + 1
    && forall i :: 0 <= i < |labels| ==> Next(states[i], labels[i], burst, states[i + 1])
  }

  function Sum(draws: seq<Draw>): nat {
    if draws == [] then 0 else Sum(draws[..|draws| - 1]) + draws[|draws| - 1].amount
  }

  /** The number of draws queue `q` has made. */
  function Made(draws: seq<Draw>, q: nat): nat {
    if draws == [] then 0
    else Made(draws[..|draws| - 1], q) + if draws[|draws| - 1].queue == q then 1 else 0
  }

  /** What is left after `n` draws of `burst` out of `loaded`. */
  function Left(loaded: nat, burst: nat, n: nat): nat {
    if n == 0 then loaded else Left(loaded, burst, n - 1) - Min(Left(loaded, burst, n - 1), burst)
  }

  // ------------------------------------------------------------------- invariant

  /** What is known about a queue: while it holds a value no draw since its read is its own, and
      the value is still the counter exactly when there was none. */
  ghost predicate QueueInv(s: State, q: nat)
    requires q < |s.queues| == |s.lost|
  {
    match s.queues[q]
    case Idle =>
      Made(s.draws, q) + s.lost[q] <= |s.draws|
    case Holding(seen, since) =>
      && since <= |s.draws|
      && s.count <= seen && seen > 0
      && (seen == s.count <==> since == |s.draws|)
      && (forall k :: since <= k < |s.draws| ==> s.draws[k].queue != q)
      && Made(s.draws, q) + s.lost[q] <= since
  }

  ghost predicate Inv(s: State, loaded: nat, burst: nat) {
    && |s.queues| == |s.lost|
    && s.count + Sum(s.draws) == loaded
    && s.count == Left(loaded, burst, |s.draws|)
    && (forall k :: 0 <= k < |s.draws| ==>
          1 <= s.draws[k].amount <= burst && s.draws[k].queue < |s.queues|)
    && (forall q :: 0 <= q < |s.queues| ==> QueueInv(s, q))
  }

  lemma LoadedInv(loaded: nat, queues: nat, burst: nat)
    ensures Inv(Loaded(loaded, queues), loaded, burst)
  {
  }

  lemma DrawnAppend(draws: seq<Draw>, d: Draw, q: nat)
    ensures Sum(draws + [d]) == Sum(draws) + d.amount
    ensures Made(draws + [d], q) == Made(draws, q) + if d.queue == q then 1 else 0
  {
    assert (draws + [d])[..|draws|] == draws;
  }

  /** Another queue's step keeps what is known about queue `p`. */
  lemma OtherDraws(s: State, q: nat, burst: nat, p: nat)
    requires burst > 0 && q < |s.queues| == |s.lost| && s.queues[q].Holding? && p < |s.queues| && p != q
    requires QueueInv(s, q) && QueueInv(s, p)
    ensures QueueInv(CasStep(s, q, burst), p)
  {
    DrawnAppend(s.draws, Draw(q, Min(s.queues[q].seen, burst)), p);
  }

  lemma OwnCas(s: State, q: nat, burst: nat)
    requires burst > 0 && q < |s.queues| == |s.lost| && s.queues[q].Holding? && QueueInv(s, q)
    ensures QueueInv(CasStep(s, q, burst), q)
  {
    DrawnAppend(s.draws, Draw(q, Min(s.queues[q].seen, burst)), q);
  }

  lemma CasKeeps(s: State, q: nat, loaded: nat, burst: nat)
    requires burst > 0 && Inv(s, loaded, burst) && q < |s.queues| && s.queues[q].Holding?
    ensures Inv(CasStep(s, q, burst), loaded, burst)
  {
    var t := CasStep(s, q, burst);
    DrawnAppend(s.draws, Draw(q, Min(s.queues[q].seen, burst)), q);
    forall p | 0 <= p < |t.queues|
      ensures QueueInv(t, p)
    {
      assert QueueInv(s, p);
      if p == q {
        OwnCas(s, q, burst);
      } else {
        OtherDraws(s, q, burst, p);
      }
    }
  }

  lemma ReadKeeps(s: State, q: nat, loaded: nat, burst: nat)
    requires Inv(s, loaded, burst) && q < |s.queues| && s.queues[q].Idle?
    ensures Inv(ReadStep(s, q), loaded, burst)
  {
    var t := ReadStep(s, q);
    forall p | 0 <= p < |t.queues|
      ensures QueueInv(t, p)
    {
      assert QueueInv(s, p);
    }
  }

  lemma {:induction false} RunKeeps(states: seq<State>, labels: seq<Label>, loaded: nat, burst: nat, n: nat)
    requires burst > 0 && Run(states, labels, burst) && n <= |labels| && Inv(states[0], loaded, burst)
    ensures Inv(states[n], loaded, burst)
  {
    if n > 0 {
      RunKeeps(states, labels, loaded, burst, n - 1);
      assert Next(states[n - 1], labels[n - 1], burst, states[n]);
      match labels[n - 1] {
        case Read(q) => ReadKeeps(states[n - 1], q, loaded, burst);
        case Cas(q) => CasKeeps(states[n - 1], q, loaded, burst);
      }
    }
  }

  // --------------------------------------------------------------------- results

  lemma {:induction false} LeftIs(loaded: nat, burst: nat, n: nat)
    ensures Left(loaded, burst, n) == if n * burst >= loaded then 0 else loaded - n * burst
  {
    if n > 0 {
      LeftIs(loaded, burst, n - 1);
      assert n * burst == (n - 1) * burst + burst;
    }
  }

  /** Conservation, in every state of every run: nothing is lost or drawn twice, each draw is
      between 1 and the burst, and only the last one is short. */
  lemma Conservation(states: seq<State>, labels: seq<Label>, loaded: nat, queues: nat, burst: nat, n: nat)
    requires burst > 0 && Run(states, labels, burst) && n <= |labels| && states[0] == Loaded(loaded, queues)
    ensures var s := states[n];
      && s.count + Sum(s.draws) == loaded
      && s.count == (if |s.draws| * burst >= loaded then 0 else loaded - |s.draws| * burst)
      && forall k :: 0 <= k < |s.draws| ==> 1 <= s.draws[k].amount <= burst
  {
    LoadedInv(loaded, queues, burst);
    RunKeeps(states, labels, loaded, burst, n);
    LeftIs(loaded, burst, |states[n].draws|);
  }

  /** The count has reached zero exactly when all of it has been drawn, which takes one draw per
      started burst. */
  lemma AllDrawn(states: seq<State>, labels: seq<Label>, loaded: nat, queues: nat, burst: nat, n: nat)
    requires burst > 0 && Run(states, labels, burst) && n <= |labels| && states[0] == Loaded(loaded, queues)
    ensures var s := states[n];
      && (s.count == 0 <==> Sum(s.draws) == loaded)
      && (s.count == 0 <==> |s.draws| >= (loaded + burst - 1) / burst)
      && |s.draws| <= (loaded + burst - 1) / burst
  {
    var s := states[n];
    Conservation(states, labels, loaded, queues, burst, n);
    RoundedUp(loaded, burst, |s.draws|);
    DrawsBounded(states, labels, loaded, queues, burst, n);
  }

  lemma RoundedUp(loaded: nat, burst: nat, n: nat)
    requires burst > 0
    ensures n * burst >= loaded <==> n >= (loaded + burst - 1) / burst
  {
    var q := (loaded + burst - 1) / burst;
    assert burst * q <= loaded + burst - 1 < burst * q + burst by {
      assert loaded + burst - 1 == burst * q + (loaded + burst - 1) % burst;
    }
    if n >= q {
      assert n * burst >= q * burst;
    } else {
      assert n * burst <= (q - 1) * burst == q * burst - burst;
    }
  }

  lemma {:induction false} DrawsBounded(states: seq<State>, labels: seq<Label>, loaded: nat, queues: nat, burst: nat,
                                        n: nat)
    requires burst > 0 && Run(states, labels, burst) && n <= |labels| && states[0] == Loaded(loaded, queues)
    ensures |states[n].draws| <= (loaded + burst - 1) / burst
  {
    if n > 0 {
      DrawsBounded(states, labels, loaded, queues, burst, n - 1);
      var s := states[n - 1];
      LoadedInv(loaded, queues, burst);
      RunKeeps(states, labels, loaded, burst, n - 1);
      assert Next(s, labels[n - 1], burst, states[n]);
      if labels[n - 1].Cas? {
        assert QueueInv(s, labels[n - 1].queue);
        LeftIs(loaded, burst, |s.draws|);
        RoundedUp(loaded, burst, |s.draws|);
      }
    }
  }

  /** A set fails exactly when some other queue has drawn since the value was read. */
  lemma FailsOnlyForProgress(states: seq<State>, labels: seq<Label>, loaded: nat, queues: nat, burst: nat, n: nat,
                             q: nat)
    requires burst > 0 && Run(states, labels, burst) && n < |labels| && states[0] == Loaded(loaded, queues)
    requires labels[n] == Cas(q)
    ensures var s := states[n];
      && q < |s.queues| == |s.lost| == |states[n + 1].lost| && s.queues[q].Holding?
      && (states[n + 1].lost[q] == s.lost[q] + 1 <==> s.queues[q].since < |s.draws|)
      && (s.queues[q].since < |s.draws| ==> s.draws[s.queues[q].since].queue != q)
      && (states[n + 1].draws != s.draws <==> s.queues[q].since == |s.draws|)
  {
    LoadedInv(loaded, queues, burst);
    RunKeeps(states, labels, loaded, burst, n);
    assert Next(states[n], labels[n], burst, states[n + 1]);
    assert QueueInv(states[n], q);
  }

  /** No queue has tried more often than all queues together have succeeded. */
  lemma AttemptsBounded(states: seq<State>, labels: seq<Label>, loaded: nat, queues: nat, burst: nat, n: nat, q: nat)
    requires burst > 0 && Run(states, labels, burst) && n <= |labels| && states[0] == Loaded(loaded, queues)
    requires q < queues
    ensures q < |states[n].lost|
    ensures Made(states[n].draws, q) + states[n].lost[q] <= |states[n].draws| <= (loaded + burst - 1) / burst
  {
    LoadedInv(loaded, queues, burst);
    RunKeeps(states, labels, loaded, burst, n);
    QueuesKept(states, labels, burst, n);
    assert QueueInv(states[n], q);
    DrawsBounded(states, labels, loaded, queues, burst, n);
  }

  lemma {:induction false} QueuesKept(states: seq<State>, labels: seq<Label>, burst: nat, n: nat)
    requires Run(states, labels, burst) && n <= |labels| && |states[0].queues| == |states[0].lost|
    ensures |states[n].queues| == |states[n].lost| == |states[0].queues|
  {
    if n > 0 {
      QueuesKept(states, labels, burst, n - 1);
      assert Next(states[n - 1], labels[n - 1], burst, states[n]);
    }
  }

  // ---------------------------------------------------------------- one caller

  class Counter {
    var cnt: nat

    /** What the other queues draw in between, `n` times. */
    method Interfere(n: nat, burst: nat) returns (drawn: nat)
      requires burst > 0
      modifies this
      ensures cnt == Left(old(cnt), burst, n)
      ensures cnt + drawn == old(cnt)
      ensures n == 0 || old(cnt) == 0 ==> cnt == old(cnt)
      ensures n > 0 && old(cnt) > 0 ==> cnt < old(cnt)
    {
      drawn := 0;
      for i := 0 to n
        invariant cnt == Left(old(cnt), burst, i)
        invariant cnt + drawn == old(cnt)
        invariant i > 0 && old(cnt) > 0 ==> cnt < old(cnt)
      {
        drawn := drawn + Min(cnt, burst);
        cnt := cnt - Min(cnt, burst);
      }
    }

    method CompareAndSet(expected: nat, desired: nat) returns (success: bool)
      modifies this
      ensures success == (old(cnt) == expected)
      ensures cnt == if success then desired else old(cnt)
    {
      success := cnt == expected;
      if success {
        cnt := desired;
      }
    }

    /** The retry loop of one queue, with `others(k)` draws by other queues between the read and
        the set of its `k`-th attempt: it ends whatever they do, because each failure means the
        count has fallen. */
    method Take(burst: nat, others: nat -> nat) returns (taken: nat, ghost drawnByOthers: nat)
      requires burst > 0
      modifies this
      ensures cnt + taken + drawnByOthers == old(cnt)
      ensures taken <= burst
      ensures taken == 0 ==> cnt == 0
      ensures old(cnt) == 0 ==> taken == 0
      ensures taken == Min(cnt + taken, burst)
    {
      drawnByOthers := 0;
      var attempt: nat := 0;
      var success := false;
      taken := 0;
      while !success
        invariant cnt + (if success then taken else 0) + drawnByOthers == old(cnt)
        invariant success ==> 0 < taken == Min(cnt + taken, burst)
        decreases if success then 0 else 1, cnt
      {
        var seen := cnt;
        if seen == 0 {
          return 0, drawnByOthers;
        }
        taken := if seen > burst then burst else seen;
        var drawn := Interfere(others(attempt), burst);
        drawnByOthers := drawnByOthers + drawn;
        success := CompareAndSet(seen, seen - taken);
        attempt := attempt + 1;
      }
    }
  }
}
