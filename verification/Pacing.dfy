/** Pacing of transmit bursts: the deadline kept by the polling loops, and the cycle count that
    is computed from the requested rate. */
module Pacing {

  const DEFAULT_MAX_TX_LAG: nat := 20000
  const MILLION: nat := 1_000_000

  // ------------------------------------------------------------------ the deadline

  /** The deadline after polling at time `now`: a burst goes out when it has been reached, and
      a delay of no more than the lag limit is credited to the next one. */
  function NextCycle(next: int, now: int, cycles: nat): int {
    var dt := now - next;
    if dt >= 0 then now + cycles - (if dt <= DEFAULT_MAX_TX_LAG then dt else 0) else next
  }

  /** The deadline after the first `n` polls, starting from `d0`. */
  function Deadline(polls: seq<int>, cycles: nat, d0: int, n: nat): int
    requires n <= |polls|
  {
    if n == 0 then d0 else NextCycle(Deadline(polls, cycles, d0, n - 1), polls[n - 1], cycles)
  }

  /** Poll `i` sends a burst. */
  predicate Sends(polls: seq<int>, cycles: nat, d0: int, i: nat)
    requires i < |polls|
  {
    polls[i] >= Deadline(polls, cycles, d0, i)
  }

  /** The bursts sent by polls `a` to `b - 1`. */
  function Bursts(polls: seq<int>, cycles: nat, d0: int, a: nat, b: nat): nat
    requires a <= b <= |polls|
  {
    if a == b then 0
    else Bursts(polls, cycles, d0, a, b - 1) + if Sends(polls, cycles, d0, b - 1) then 1 else 0
  }

  ghost predicate Ordered(polls: seq<int>) {
    forall i, j :: 0 <= i <= j < |polls| ==> polls[i] <= polls[j]
  }

  /** The delay that is not made up for: that of the bursts later than the lag limit. */
  function Slip(polls: seq<int>, cycles: nat, d0: int, n: nat): nat
    requires n <= |polls|
  {
    if n == 0 then 0
    else
      var dt := polls[n - 1] - Deadline(polls, cycles, d0, n - 1);
      Slip(polls, cycles, d0, n - 1) + if dt > DEFAULT_MAX_TX_LAG then dt else 0
  }

  /** Every burst so far was sent within the lag limit of its deadline. */
  ghost predicate OnTime(polls: seq<int>, cycles: nat, d0: int, n: nat)
    requires n <= |polls|
  {
    forall i :: 0 <= i < n && Sends(polls, cycles, d0, i) ==>
      polls[i] - Deadline(polls, cycles, d0, i) <= DEFAULT_MAX_TX_LAG
  }

  /** The deadline is the ideal one, a multiple of the cycle count from the first, plus exactly
      the delay that was not made up for. */
  lemma {:induction false} DeadlineIs(polls: seq<int>, cycles: nat, d0: int, n: nat)
    requires n <= |polls|
    ensures Deadline(polls, cycles, d0, n)
         == d0 + Bursts(polls, cycles, d0, 0, n) * cycles + Slip(polls, cycles, d0, n)
  {
    if n > 0 {
      DeadlineIs(polls, cycles, d0, n - 1);
      NextTimes(Bursts(polls, cycles, d0, 0, n - 1), cycles);
    }
  }

  lemma {:induction false} NoSlip(polls: seq<int>, cycles: nat, d0: int, n: nat)
    requires n <= |polls|
    ensures Slip(polls, cycles, d0, n) == 0 <==> OnTime(polls, cycles, d0, n)
  {
    if n > 0 {
      NoSlip(polls, cycles, d0, n - 1);
    }
  }

  /** No drift: after any polls the next deadline is exactly `d0` plus one cycle count per burst
      if and only if no burst was later than the lag limit. */
  lemma NoDrift(polls: seq<int>, cycles: nat, d0: int, n: nat)
    requires n <= |polls|
    ensures Deadline(polls, cycles, d0, n) == d0 + Bursts(polls, cycles, d0, 0, n) * cycles
       <==> OnTime(polls, cycles, d0, n)
  {
    DeadlineIs(polls, cycles, d0, n);
    NoSlip(polls, cycles, d0, n);
  }

  /** The last burst of a range of polls went out no earlier than its deadline. */
  lemma {:induction false} LastBurst(polls: seq<int>, cycles: nat, d0: int, a: nat, b: nat) returns (i: nat)
    requires a <= b <= |polls| && Bursts(polls, cycles, d0, a, b) > 0
    ensures a <= i < b && Sends(polls, cycles, d0, i)
    ensures Bursts(polls, cycles, d0, a, i) == Bursts(polls, cycles, d0, a, b) - 1
  {
    if Sends(polls, cycles, d0, b - 1) {
      i := b - 1;
    } else {
      i := LastBurst(polls, cycles, d0, a, b - 1);
    }
  }

  /** The first burst of a range. */
  lemma {:induction false} FirstBurst(polls: seq<int>, cycles: nat, d0: int, a: nat, b: nat) returns (i: nat)
    requires a <= b <= |polls| && Bursts(polls, cycles, d0, a, b) > 0
    ensures a <= i < b && Sends(polls, cycles, d0, i)
    ensures Bursts(polls, cycles, d0, a, i) == 0
    decreases b
  {
    if Bursts(polls, cycles, d0, a, b - 1) > 0 {
      i := FirstBurst(polls, cycles, d0, a, b - 1);
    } else {
      i := b - 1;
    }
  }

  lemma {:induction false} BurstsSplit(polls: seq<int>, cycles: nat, d0: int, a: nat, m: nat, b: nat)
    requires a <= m <= b <= |polls|
    ensures Bursts(polls, cycles, d0, a, b) == Bursts(polls, cycles, d0, a, m) + Bursts(polls, cycles, d0, m, b)
    decreases b
  {
    if m < b {
      BurstsSplit(polls, cycles, d0, a, m, b - 1);
    }
  }

  lemma {:induction false} BurstsGrow(polls: seq<int>, cycles: nat, d0: int, a: nat, m: nat, n: nat)
    requires a <= m <= n <= |polls|
    ensures Bursts(polls, cycles, d0, a, m) <= Bursts(polls, cycles, d0, a, n)
    decreases n
  {
    if m < n {
      BurstsGrow(polls, cycles, d0, a, m, n - 1);
    }
  }

  /** Between two polls the deadline moves by at least one cycle count per burst. */
  lemma {:induction false} DeadlineAdvances(polls: seq<int>, cycles: nat, d0: int, m: nat, n: nat)
    requires m <= n <= |polls|
    ensures Deadline(polls, cycles, d0, n)
         >= Deadline(polls, cycles, d0, m) + Bursts(polls, cycles, d0, m, n) * cycles
    decreases n
  {
    if m < n {
      DeadlineAdvances(polls, cycles, d0, m, n - 1);
      NextTimes(Bursts(polls, cycles, d0, m, n - 1), cycles);
    }
  }

  lemma NextTimes(k: nat, c: nat)
    ensures (k + 1) * c == k * c + c
  {
  }

  /** The long-run bound: by time `t` at most 1 + (t - d0) / cycles bursts have gone out, whatever
      the poll times. */
  lemma BurstsBounded(polls: seq<int>, cycles: nat, d0: int, n: nat, t: int)
    requires cycles > 0 && n <= |polls| && Ordered(polls) && (n > 0 ==> polls[n - 1] <= t)
    ensures t >= d0 ==> Bursts(polls, cycles, d0, 0, n) <= 1 + (t - d0) / cycles
    ensures t < d0 ==> Bursts(polls, cycles, d0, 0, n) == 0
  {
    var k := Bursts(polls, cycles, d0, 0, n);
    if k > 0 {
      var i := LastBurst(polls, cycles, d0, 0, n);
      DeadlineIs(polls, cycles, d0, i);
      assert (k - 1) * cycles <= t - d0;
      AtMost(k - 1, cycles, t - d0);
    }
  }

  lemma AtMost(k: nat, cycles: nat, x: int)
    requires cycles > 0 && k * cycles <= x
    ensures k <= x / cycles
  {
    var q := x / cycles;
    assert x == cycles * q + x % cycles;
    Products(k, q, cycles);
  }

  lemma Products(k: nat, q: int, c: nat)
    ensures k > q ==> k * c >= c * q + c
  {
    if k > q {
      Monotone(q + 1, k, c);
      assert (q + 1) * c == c * q + c;
    }
  }

  /** The deadline set by a burst is not before its time plus one cycle count, less the lag. */
  lemma DeadlineAfterBurst(polls: seq<int>, cycles: nat, d0: int, i: nat)
    requires i < |polls| && Sends(polls, cycles, d0, i)
    ensures Deadline(polls, cycles, d0, i + 1) >= polls[i] + cycles - DEFAULT_MAX_TX_LAG
  {
  }

  /** From burst `i` to burst `j`: the bursts in between each took a cycle count. */
  lemma BurstToBurst(polls: seq<int>, cycles: nat, d0: int, i: nat, j: nat)
    requires i < j < |polls| && Sends(polls, cycles, d0, i) && Sends(polls, cycles, d0, j)
    ensures Bursts(polls, cycles, d0, i + 1, j) * cycles + cycles <= polls[j] - polls[i] + DEFAULT_MAX_TX_LAG
  {
    DeadlineAfterBurst(polls, cycles, d0, i);
    DeadlineAdvances(polls, cycles, d0, i + 1, j);
  }

  /** The window bound: catching up after a delay never sends more than the lag limit's worth of
      bursts on top of the rate. */
  lemma WindowBounded(polls: seq<int>, cycles: nat, d0: int, a: nat, b: nat)
    requires cycles > 0 && a < b <= |polls| && Ordered(polls)
    ensures Bursts(polls, cycles, d0, a, b) <= 1 + (polls[b - 1] - polls[a] + DEFAULT_MAX_TX_LAG) / cycles
  {
    var k := Bursts(polls, cycles, d0, a, b);
    var x := polls[b - 1] - polls[a] + DEFAULT_MAX_TX_LAG;
    if k <= 1 {
      AtMost(0, cycles, x);
    } else {
      var i := FirstBurst(polls, cycles, d0, a, b);
      var j := LastBurst(polls, cycles, d0, a, b);
      if j <= i {
        BurstsGrow(polls, cycles, d0, a, j, i);
        assert false;
      }
      BurstsSplit(polls, cycles, d0, a, i + 1, j);
      assert Bursts(polls, cycles, d0, a, i + 1) == 1;
      hide *;
      BurstToBurst(polls, cycles, d0, i, j);
      NextTimes(k - 2, cycles);
      PollsBetween(polls, a, b, i, j);
      AtMost(k - 1, cycles, x);
    }
  }

  lemma PollsBetween(polls: seq<int>, a: nat, b: nat, i: nat, j: nat)
    requires Ordered(polls) && a <= i < j < b <= |polls|
    ensures polls[j] - polls[i] <= polls[b - 1] - polls[a]
  {
  }

  /** The polling loop: the clock is read once per turn. The polls that send are returned. */
  method PollLoop(polls: seq<int>, txCycles: nat, first: int) returns (next: int, sent: seq<nat>)
    ensures next == Deadline(polls, txCycles, first, |polls|)
    ensures |sent| == Bursts(polls, txCycles, first, 0, |polls|)
    ensures forall i :: i in sent <==> 0 <= i < |polls| && Sends(polls, txCycles, first, i)
    ensures forall k :: 0 < k < |sent| ==> sent[k - 1] < sent[k]
  {
    next := first;
    sent := [];
    for i := 0 to |polls|
      invariant next == Deadline(polls, txCycles, first, i)
      invariant |sent| == Bursts(polls, txCycles, first, 0, i)
      invariant forall k :: k in sent <==> 0 <= k < i && Sends(polls, txCycles, first, k)
      invariant forall k :: 0 <= k < |sent| ==> sent[k] < i
      invariant forall k :: 0 < k < |sent| ==> sent[k - 1] < sent[k]
    {
      var currTsc := polls[i];
      var dt := currTsc - next;
      if dt >= 0 {
        next := currTsc + txCycles - (if dt <= DEFAULT_MAX_TX_LAG then dt else 0);
        assert forall k :: k in sent + [i] <==> k in sent || k == i;
        sent := sent + [i];
      }
    }
  }

  /** A queue kept on time misses nothing if it keeps up: by the time of a poll it has sent
      exactly the bursts due, if and only if that poll came less than a cycle count after the
      deadline it found. */
  lemma OnTimeExactIff(polls: seq<int>, cycles: nat, d0: int, n: nat)
    requires cycles > 0 && 0 < n <= |polls| && Ordered(polls) && OnTime(polls, cycles, d0, n) && polls[n - 1] >= d0
    ensures Bursts(polls, cycles, d0, 0, n) == 1 + (polls[n - 1] - d0) / cycles
       <==> polls[n - 1] - Deadline(polls, cycles, d0, n - 1) < cycles
  {
    hide *;
    NoDrift(polls, cycles, d0, n);
    BurstsBounded(polls, cycles, d0, n, polls[n - 1]);
    KeepsUpIff(polls, cycles, d0, n);
    CountIff(Bursts(polls, cycles, d0, 0, n), cycles, polls[n - 1] - d0);
  }

  /** The next deadline is still ahead exactly when the poll came less than a cycle count after
      the last one. */
  lemma KeepsUpIff(polls: seq<int>, cycles: nat, d0: int, n: nat)
    requires cycles > 0 && 0 < n <= |polls| && OnTime(polls, cycles, d0, n)
    ensures polls[n - 1] < Deadline(polls, cycles, d0, n)
       <==> polls[n - 1] - Deadline(polls, cycles, d0, n - 1) < cycles
  {
    assert Deadline(polls, cycles, d0, n) == NextCycle(Deadline(polls, cycles, d0, n - 1), polls[n - 1], cycles);
    assert Sends(polls, cycles, d0, n - 1) ==> polls[n - 1] - Deadline(polls, cycles, d0, n - 1) <= DEFAULT_MAX_TX_LAG;
    hide Deadline;
  }

  lemma CountIff(k: nat, cycles: nat, x: nat)
    requires cycles > 0
    ensures k * cycles > x <==> k >= 1 + x / cycles
  {
    var q := x / cycles;
    assert x == cycles * q + x % cycles;
    if k <= q {
      Monotone(k, q, cycles);
    } else {
      Monotone(q + 1, k, cycles);
      NextTimes(q, cycles);
    }
  }

  /** Over a window of polls in which a queue is kept on time and at the end of which it has kept
      up, its bursts fill the time from the deadline it began with. */
  lemma WindowFilled(polls: seq<int>, cycles: nat, d0: int, a: nat, b: nat)
    requires cycles > 0 && a < b <= |polls| && OnTime(polls, cycles, d0, b)
    requires polls[b - 1] - Deadline(polls, cycles, d0, b - 1) < cycles
    ensures Bursts(polls, cycles, d0, a, b) * cycles > polls[b - 1] - Deadline(polls, cycles, d0, a)
  {
    OnTimeBefore(polls, cycles, d0, a, b);
    hide *;
    KeepsUpIff(polls, cycles, d0, b);
    NoDrift(polls, cycles, d0, a);
    NoDrift(polls, cycles, d0, b);
    BurstsSplit(polls, cycles, d0, 0, a, b);
    Distribute(Bursts(polls, cycles, d0, 0, a), Bursts(polls, cycles, d0, a, b), cycles);
  }

  lemma OnTimeBefore(polls: seq<int>, cycles: nat, d0: int, a: nat, b: nat)
    requires a <= b <= |polls| && OnTime(polls, cycles, d0, b)
    ensures OnTime(polls, cycles, d0, a)
  {
    hide Deadline;
  }

  lemma Distribute(x: nat, y: nat, c: nat)
    ensures (x + y) * c == x * c + y * c
  {
  }

  // ---------------------------------------------------------------------- the rate

  /** `rate` percent of `x`. */
  function Percent(x: real, rate: real): real {
    x * rate / 100.0
  }

  /** How many packets of `wireBits` bits a link of `linkSpeed` megabits per second carries. */
  function LinkPackets(linkSpeed: nat, wireBits: nat): nat
    requires wireBits > 0
  {
    (linkSpeed * MILLION) / wireBits
  }

  /** `packets` is how many packets of `wireBits` bits go into `linkBits`. */
  ghost predicate Carries(linkBits: nat, wireBits: nat, packets: nat) {
    packets * wireBits <= linkBits < (packets + 1) * wireBits
  }

  /** The packets per second asked for: `txRate` percent of those a link of `linkBits` bits per
      second carries. */
  ghost predicate Asked(linkBits: nat, wireBits: nat, txRate: real, asked: real) {
    exists packets: nat :: Carries(linkBits, wireBits, packets) && asked * 100.0 == packets as real * txRate
  }

  /** `x` is the whole part of the positive rate `y`, but at least 1. */
  ghost predicate WholeRate(x: nat, y: real) {
    x >= 1 && y < x as real + 1.0 && (x as real <= y || x == 1)
  }

  /** `cycles` is `n / pps` rounded to the nearest. */
  ghost predicate Rounded(cycles: nat, n: nat, pps: nat) {
    n - (pps + 1) / 2 < cycles * pps <= n + pps / 2
  }

  datatype Rate = Rate(txCycles: nat, txPps: nat)

  /** One queue's share of the rate asked for, in the order of the source's arithmetic. */
  function ShareOf(linkSpeed: nat, wireBits: nat, txRate: real, txCount: nat): (r: real)
    requires wireBits > 0 && txRate >= 0.0 && txCount > 0
    ensures r == Percent(LinkPackets(linkSpeed, wireBits) as real, txRate) / txCount as real
  {
    Share(LinkPackets(linkSpeed, wireBits) as real, txRate, txCount as real);
    hide Percent, LinkPackets;
    Percent(LinkPackets(linkSpeed, wireBits) as real, txRate / txCount as real)
  }

  /** The packets that all queues send in one burst each, times the clock frequency. */
  function BurstWork(txCount: nat, txBurst: nat, hz: nat): nat {
    txCount * txBurst * hz
  }

  lemma BurstWorkIs(txCount: nat, txBurst: nat, hz: nat)
    ensures BurstWork(txCount, txBurst, hz) == txCount * txBurst * hz
  {
  }

  /** `pps` is the whole part of a queue's share of the rate asked for, and 1 below that. So it
      never asks more of the link than that share but for the 1, and falls short by less than a
      packet of each queue and the part of a packet that the link itself is short of. */
  ghost predicate PacesLink(linkBits: nat, wireBits: nat, txRate: real, txCount: nat, pps: nat)
    requires txCount > 0
  {
    && (exists asked: real :: Asked(linkBits, wireBits, txRate, asked) && WholeRate(pps, asked / txCount as real))
    && (pps == 1 || pps as real * (100.0 * txCount as real) * wireBits as real <= linkBits as real * txRate)
    && linkBits as real * txRate < ((pps as real + 1.0) * (100.0 * txCount as real) + txRate) * wireBits as real
  }

  /** There is one number of packets a link carries, and so one rate asked for. */
  lemma CarriesOne(bits: nat, w: nat, p: nat, p': nat)
    requires Carries(bits, w, p) && Carries(bits, w, p')
    ensures p == p'
  {
    if p < p' {
      Monotone(p + 1, p', w);
    } else if p' < p {
      Monotone(p' + 1, p, w);
    }
  }

  lemma AskedOnce(bits: nat, w: nat, rate: real, asked: real, asked': real)
    requires Asked(bits, w, rate, asked) && Asked(bits, w, rate, asked')
    ensures asked == asked'
  {
    var p: nat :| Carries(bits, w, p) && asked * 100.0 == p as real * rate;
    var p': nat :| Carries(bits, w, p') && asked' * 100.0 == p' as real * rate;
    CarriesOne(bits, w, p, p');
  }

  lemma PacedShare(bits: nat, w: nat, rate: real, txCount: nat, asked: real, pps: nat)
    requires txCount > 0 && Asked(bits, w, rate, asked) && PacesLink(bits, w, rate, txCount, pps)
    ensures WholeRate(pps, asked / txCount as real)
  {
    hide Asked, WholeRate;
    var asked': real :| Asked(bits, w, rate, asked') && WholeRate(pps, asked' / txCount as real);
    AskedOnce(bits, w, rate, asked, asked');
  }

  lemma LinkPacketsAre(linkSpeed: nat, wireBits: nat)
    requires wireBits > 0
    ensures Carries(linkSpeed * 1000000, wireBits, LinkPackets(linkSpeed, wireBits))
  {
    var bits := linkSpeed * MILLION;
    assert bits == wireBits * (bits / wireBits) + bits % wireBits;
  }

  lemma PercentOf(x: real, rate: real)
    ensures Percent(x, rate) * 100.0 == x * rate
  {
  }

  lemma ShareTimes(asked: real, n: real)
    requires n > 0.0
    ensures asked / n * (100.0 * n) == asked * 100.0
  {
    var y := asked / n;
    assert y * n == asked;
    assert y * (100.0 * n) == (y * n) * 100.0;
  }

  /** Both bounds, from `packets` packets on the link and a share `y` of them. */
  lemma ShareBounds(bits: real, w: real, rate: real, c: real, packets: real, y: real, pps: real)
    requires w > 0.0 && rate > 0.0 && c > 0.0
    requires packets * w <= bits < (packets + 1.0) * w
    requires y * c == packets * rate && y < pps + 1.0
    ensures pps <= y ==> pps * c * w <= bits * rate
    ensures bits * rate < ((pps + 1.0) * c + rate) * w
  {
    if pps <= y {
      Grow(pps, y, c);
      Grow(pps * c, packets * rate, w);
      Grow(packets * w, bits, rate);
      Swap(packets, rate, w);
    }
    AboveShare(y, pps + 1.0, c, packets * rate);
    UpperBound(bits, w, rate, packets, (pps + 1.0) * c);
  }

  lemma AboveShare(y: real, z: real, c: real, x: real)
    requires y < z && c > 0.0 && y * c == x
    ensures x < z * c
  {
    GrowStrictly(y, z, c);
  }

  lemma UpperBound(bits: real, w: real, rate: real, packets: real, top: real)
    requires w > 0.0 && rate > 0.0 && bits < (packets + 1.0) * w && packets * rate < top
    ensures bits * rate < (top + rate) * w
  {
    GrowStrictly(bits, (packets + 1.0) * w, rate);
    Swap(packets + 1.0, rate, w);
    OneMore(packets, rate);
    GrowStrictly((packets + 1.0) * rate, top + rate, w);
  }

  lemma OneMore(x: real, y: real)
    ensures (x + 1.0) * y == x * y + y
  {
  }

  lemma Grow(x: real, y: real, z: real)
    requires x <= y && z > 0.0
    ensures x * z <= y * z
  {
  }

  lemma GrowStrictly(x: real, y: real, z: real)
    requires x < y && z > 0.0
    ensures x * z < y * z
  {
  }

  lemma Swap(x: real, y: real, z: real)
    ensures x * y * z == x * z * y
  {
  }

  lemma SharePaces(bits: nat, w: nat, rate: real, txCount: nat, packets: nat, asked: real, pps: nat)
    requires w > 0 && txCount > 0 && rate > 0.0
    requires Carries(bits, w, packets) && asked * 100.0 == packets as real * rate
    requires WholeRate(pps, asked / txCount as real)
    ensures PacesLink(bits, w, rate, txCount, pps)
  {
    var share, c := asked / txCount as real, 100.0 * txCount as real;
    AsReal(packets, w, bits);
    ShareTimes(asked, txCount as real);
    WholeRateIs(pps, share);
    assert Asked(bits, w, rate, asked);
    hide WholeRate, Asked, Carries;
    ShareBounds(bits as real, w as real, rate, c, packets as real, share, pps as real);
  }

  lemma WholeRateIs(x: nat, y: real)
    requires WholeRate(x, y)
    ensures y < x as real + 1.0 && (x as real <= y || x == 1)
  {
  }

  lemma FullLink(bits: nat, w: nat, packets: nat, asked: real, pps: nat)
    requires w <= bits && Carries(bits, w, packets) && asked * 100.0 == packets as real * 100.0
    requires WholeRate(pps, asked / 1.0)
    ensures pps * w <= bits < (pps + 1) * w
  {
    assert asked == packets as real;
    FullShare(packets, w, bits);
    assert pps == packets;
  }

  /** The whole part of the share, by the source's own arithmetic, paces the link; and of a full
      link with one queue it is the number of packets the link carries. */
  lemma PacedAsAsked(linkSpeed: nat, wireBits: nat, txRate: real, txCount: nat)
    requires linkSpeed > 0 && wireBits > 0 && txCount > 0 && txRate > 0.0
    ensures var pps := WholePart(ShareOf(linkSpeed, wireBits, txRate, txCount));
      && PacesLink(linkSpeed * 1000000, wireBits, txRate, txCount, pps)
      && (txRate == 100.0 && txCount == 1 && linkSpeed * 1000000 >= wireBits ==>
            pps * wireBits <= linkSpeed * 1000000 < (pps + 1) * wireBits)
  {
    hide *;
    var packets, share := LinkPackets(linkSpeed, wireBits), ShareOf(linkSpeed, wireBits, txRate, txCount);
    var asked := Percent(packets as real, txRate);
    LinkPacketsAre(linkSpeed, wireBits);
    PercentOf(packets as real, txRate);
    SharePaces(linkSpeed * 1000000, wireBits, txRate, txCount, packets, asked, WholePart(share));
    if txRate == 100.0 && txCount == 1 && linkSpeed * 1000000 >= wireBits {
      FullLink(linkSpeed * 1000000, wireBits, packets, asked, WholePart(share));
    }
  }

  lemma FullShare(packets: nat, w: nat, bits: nat)
    requires w <= bits < (packets + 1) * w
    ensures packets >= 1
  {
  }

  lemma AsReal(packets: nat, w: nat, bits: nat)
    requires packets * w <= bits < (packets + 1) * w
    ensures packets as real * w as real <= bits as real < (packets as real + 1.0) * w as real
  {
  }

  /** The rate of a port; a link that is down or a rate of zero leaves it unpaced. The packet
      rate is the whole part of one queue's share of the rate asked for; and one burst of every
      queue in each cycle count makes this rate, the cycle count rounded to the nearest. */
  method PacketRate(linkSpeed: nat, wireBits: nat, txRate: real, txCount: nat, txBurst: nat, hz: nat) returns (r: Rate)
    requires wireBits > 0 && txCount > 0 && txRate >= 0.0
    ensures linkSpeed == 0 || txRate == 0.0 ==> r == Rate(0, 0)
    ensures linkSpeed != 0 && txRate != 0.0 ==>
      && PacesLink(linkSpeed * 1000000, wireBits, txRate, txCount, r.txPps)
      && Rounded(r.txCycles, txCount * txBurst * hz, r.txPps)
      && (txRate == 100.0 && txCount == 1 && linkSpeed * 1000000 >= wireBits ==>
            r.txPps * wireBits <= linkSpeed * 1000000 < (r.txPps + 1) * wireBits)
  {
    BurstWorkIs(txCount, txBurst, hz);
    hide ShareOf, BurstWork, RoundedQuotient, Rounded, WholeRate, PacesLink;
    if linkSpeed == 0 || txRate == 0.0 {
      return Rate(0, 0);
    }
    PacedAsAsked(linkSpeed, wireBits, txRate, txCount);
    var pps := WholePart(ShareOf(linkSpeed, wireBits, txRate, txCount));
    var cpb := RoundedQuotient(BurstWork(txCount, txBurst, hz), pps);
    return Rate(cpb, pps);
  }

  /** The conversion to uint64_t, and the replacement of 0. */
  function WholePart(y: real): (pps: nat)
    ensures WholeRate(pps, y) && pps > 0
  {
    if y.Floor > 0 then y.Floor else 1
  }

  /** Adding half the divisor before dividing rounds to the nearest. */
  function RoundedQuotient(n: nat, pps: nat): (c: nat)
    requires pps > 0
    ensures Rounded(c, n, pps)
  {
    var x := pps / 2 + n;
    assert x == pps * (x / pps) + x % pps;
    x / pps
  }

  lemma Share(packets: real, rate: real, n: real)
    requires n > 0.0
    ensures Percent(packets, rate / n) == Percent(packets, rate) / n
  {
    var r := rate / n;
    assert packets * rate == packets * (r * n);
    assert packets * (r * n) == (packets * r) * n;
    Cancel(packets * r, n);
  }

  lemma Cancel(x: real, n: real)
    requires n > 0.0
    ensures x * n / 100.0 / n == x / 100.0
  {
    var y := x / 100.0;
    assert x * n / 100.0 == y * n;
    assert y * n / n == y;
  }

  /** Over any window of polls a queue sends no more than its part of the rate: `k` bursts of
      `n` units of work stay within the rate times the window, plus one burst, the lag limit and
      the rounding. */
  lemma WindowRate(polls: seq<int>, c: nat, n: nat, pps: nat, d0: int, a: nat, b: nat)
    requires c > 0 && Rounded(c, n, pps) && a < b <= |polls| && Ordered(polls)
    ensures var k := Bursts(polls, c, d0, a, b);
      k * n <= pps * (polls[b - 1] - polls[a] + DEFAULT_MAX_TX_LAG + c) + k * ((pps + 1) / 2)
  {
    WindowBounded(polls, c, d0, a, b);
    assert polls[b - 1] >= polls[a];
    Scaled(Bursts(polls, c, d0, a, b), c, polls[b - 1] - polls[a] + DEFAULT_MAX_TX_LAG, n, pps);
  }

  lemma Scaled(k: nat, c: nat, w: nat, n: nat, pps: nat)
    requires c > 0 && k <= 1 + w / c && n <= c * pps + (pps + 1) / 2
    ensures k * n <= pps * (w + c) + k * ((pps + 1) / 2)
  {
    var h := (pps + 1) / 2;
    assert k * c <= w + c by {
      Monotone(k, 1 + w / c, c);
      NextTimes(w / c, c);
      assert w == c * (w / c) + w % c;
    }
    Monotone(n, c * pps + h, k);
    Monotone(k * c, w + c, pps);
    Regroup(k, c, pps, h);
  }

  lemma Monotone(x: int, y: int, z: nat)
    requires x <= y
    ensures x * z <= y * z && z * x <= z * y
  {
  }

  lemma Regroup(k: nat, c: nat, pps: nat, h: nat)
    ensures k * (c * pps + h) == (k * c) * pps + k * h
  {
    assert k * (c * pps) == (k * c) * pps;
  }

  // -------------------------------------------------------------- all queues of a port

  /** A queue's loop: its poll times, its first deadline, and a range of its polls. */
  datatype Queue = Queue(polls: seq<int>, d0: int, a: nat, b: nat)

  ghost predicate Ranges(queues: seq<Queue>) {
    forall i :: 0 <= i < |queues| ==> queues[i].a <= queues[i].b <= |queues[i].polls|
  }

  /** The ranges lie within `w` cycles from time `t`. */
  ghost predicate Within(q: Queue, t: int, w: nat) {
    && Ordered(q.polls) && q.a <= q.b <= |q.polls|
    && (q.a < q.b ==> t <= q.polls[q.a] && q.polls[q.b - 1] <= t + w)
  }

  ghost predicate AllWithin(queues: seq<Queue>, t: int, w: nat) {
    Ranges(queues) && forall i :: 0 <= i < |queues| ==> Within(queues[i], t, w)
  }

  ghost function BurstsOf(q: Queue, cycles: nat): nat
    requires q.a <= q.b <= |q.polls|
  {
    Bursts(q.polls, cycles, q.d0, q.a, q.b)
  }

  /** The bursts of all the queues. */
  ghost function PortBursts(queues: seq<Queue>, cycles: nat): nat
    requires Ranges(queues)
  {
    if queues == [] then 0
    else PortBursts(queues[..|queues| - 1], cycles) + BurstsOf(queues[|queues| - 1], cycles)
  }

  lemma OneQueue(q: Queue, c: nat, n: nat, pps: nat, t: int, w: nat)
    requires c > 0 && Rounded(c, n, pps) && Within(q, t, w)
    ensures BurstsOf(q, c) * n <= pps * (w + DEFAULT_MAX_TX_LAG + c) + BurstsOf(q, c) * ((pps + 1) / 2)
  {
    hide Bursts, Rounded;
    if q.a < q.b {
      WindowRate(q.polls, c, n, pps, q.d0, q.a, q.b);
      Monotone(q.polls[q.b - 1] - q.polls[q.a] + DEFAULT_MAX_TX_LAG + c, w + DEFAULT_MAX_TX_LAG + c, pps);
    } else {
      NoBursts(q.polls, c, q.d0, q.a);
    }
  }

  lemma NoBursts(polls: seq<int>, cycles: nat, d0: int, a: nat)
    requires a <= |polls|
    ensures Bursts(polls, cycles, d0, a, a) == 0
  {
  }

  lemma {:induction false} AllQueues(queues: seq<Queue>, c: nat, n: nat, pps: nat, t: int, w: nat)
    requires c > 0 && Rounded(c, n, pps) && AllWithin(queues, t, w)
    ensures Ranges(queues)
    ensures PortBursts(queues, c) * n
         <= |queues| * (pps * (w + DEFAULT_MAX_TX_LAG + c)) + PortBursts(queues, c) * ((pps + 1) / 2)
  {
    hide Rounded, Within, BurstsOf;
    if queues == [] {
      assert PortBursts(queues, c) == 0;
    } else {
      var m := |queues| - 1;
      assert AllWithin(queues[..m], t, w) && Within(queues[m], t, w) && queues[m].a <= queues[m].b <= |queues[m].polls|;
      AllQueues(queues[..m], c, n, pps, t, w);
      OneQueue(queues[m], c, n, pps, t, w);
      assert PortBursts(queues, c) == PortBursts(queues[..m], c) + BurstsOf(queues[m], c);
      hide *;
      AddBounds(PortBursts(queues[..m], c), BurstsOf(queues[m], c), n, m, pps * (w + DEFAULT_MAX_TX_LAG + c),
                (pps + 1) / 2);
    }
  }

  lemma AddBounds(k: nat, k': nat, n: nat, m: nat, x: nat, h: nat)
    requires k * n <= m * x + k * h && k' * n <= x + k' * h
    ensures (k + k') * n <= (m + 1) * x + (k + k') * h
  {
    assert (k + k') * n == k * n + k' * n;
    assert (k + k') * h == k * h + k' * h;
    assert (m + 1) * x == m * x + x;
  }

  /** What the port as a whole sends, each queue polling on its own with the computed cycle
      count. The `k` bursts of all queues in any window are `k * txBurst` packets; times the
      clock frequency and the number of queues they stay within the rate asked for times the
      window, plus a burst and the lag limit, and the rounding. So the packets stay within the
      rate asked for divided by the number of queues. */
  lemma TotalRate(linkSpeed: nat, wireBits: nat, txRate: real, asked: real, txCount: nat, txBurst: nat, hz: nat,
                  r: Rate, queues: seq<Queue>, t: int, w: nat)
    requires wireBits > 0 && txRate >= 0.0 && |queues| == txCount > 0
    requires Asked(linkSpeed * 1000000, wireBits, txRate, asked)
    requires PacesLink(linkSpeed * 1000000, wireBits, txRate, txCount, r.txPps)
    requires Rounded(r.txCycles, txCount * txBurst * hz, r.txPps) && r.txCycles > 0
    requires AllWithin(queues, t, w)
    ensures Ranges(queues)
    ensures var k := PortBursts(queues, r.txCycles);
      (k * (txCount * txBurst * hz)) as real
        <= AtLeast(asked, txCount) * (w + DEFAULT_MAX_TX_LAG + r.txCycles) as real
         + (k * ((r.txPps + 1) / 2)) as real
  {
    hide *;
    PacedShare(linkSpeed * 1000000, wireBits, txRate, txCount, asked, r.txPps);
    TotalOf(asked, txCount * txBurst * hz, r, queues, t, w);
  }

  lemma TotalOf(requested: real, n: nat, r: Rate, queues: seq<Queue>, t: int, w: nat)
    requires |queues| > 0 && WholeRate(r.txPps, requested / |queues| as real)
    requires Rounded(r.txCycles, n, r.txPps) && r.txCycles > 0 && AllWithin(queues, t, w)
    ensures Ranges(queues)
    ensures var k := PortBursts(queues, r.txCycles);
      (k * n) as real
        <= AtLeast(requested, |queues|) * (w + DEFAULT_MAX_TX_LAG + r.txCycles) as real
         + (k * ((r.txPps + 1) / 2)) as real
  {
    hide *;
    var time := w + DEFAULT_MAX_TX_LAG + r.txCycles;
    AllQueues(queues, r.txCycles, n, r.txPps, t, w);
    WholeShare(r.txPps, requested, |queues|);
    Shared(|queues|, r.txPps, time, AtLeast(requested, |queues|));
    var k := PortBursts(queues, r.txCycles);
    Chain(k * n, |queues| * (r.txPps * time), k * ((r.txPps + 1) / 2), AtLeast(requested, |queues|) * time as real);
  }

  lemma Chain(x: int, y: int, z: int, r: real)
    requires x <= y + z && y as real <= r
    ensures x as real <= r + z as real
  {
  }

  /** A queue that is polled on time from no later than `t` and still keeps up at a poll at or
      after `t + w`. */
  ghost predicate KeepsUp(q: Queue, c: nat, t: int, w: nat) {
    && q.a < q.b <= |q.polls| && OnTime(q.polls, c, q.d0, q.b)
    && q.polls[q.b - 1] - Deadline(q.polls, c, q.d0, q.b - 1) < c
    && Deadline(q.polls, c, q.d0, q.a) <= t && t + w <= q.polls[q.b - 1]
  }

  ghost predicate AllKeepUp(queues: seq<Queue>, c: nat, t: int, w: nat) {
    Ranges(queues) && forall i :: 0 <= i < |queues| ==> KeepsUp(queues[i], c, t, w)
  }

  lemma OneQueueMet(q: Queue, c: nat, n: nat, pps: nat, t: int, w: nat)
    requires c > 0 && Rounded(c, n, pps) && KeepsUp(q, c, t, w)
    ensures pps * w <= BurstsOf(q, c) * n + BurstsOf(q, c) * (pps / 2)
  {
    WindowFilled(q.polls, c, q.d0, q.a, q.b);
    hide Deadline, Bursts, OnTime;
    ScaledUp(BurstsOf(q, c), c, w, n, pps);
  }

  lemma ScaledUp(k: nat, c: nat, w: nat, n: nat, pps: nat)
    requires w <= k * c && c * pps <= n + pps / 2
    ensures pps * w <= k * n + k * (pps / 2)
  {
    Monotone(w, k * c, pps);
    Monotone(c * pps, n + pps / 2, k);
    Regroup(k, c, pps, 0);
    Distribute(n, pps / 2, k);
  }

  lemma {:induction false} AllQueuesMet(queues: seq<Queue>, c: nat, n: nat, pps: nat, t: int, w: nat)
    requires c > 0 && Rounded(c, n, pps) && AllKeepUp(queues, c, t, w)
    ensures Ranges(queues)
    ensures |queues| * (pps * w) <= PortBursts(queues, c) * n + PortBursts(queues, c) * (pps / 2)
  {
    hide Rounded, KeepsUp, BurstsOf;
    if queues == [] {
      assert PortBursts(queues, c) == 0;
    } else {
      var m := |queues| - 1;
      assert AllKeepUp(queues[..m], c, t, w) && KeepsUp(queues[m], c, t, w);
      assert queues[m].a <= queues[m].b <= |queues[m].polls|;
      AllQueuesMet(queues[..m], c, n, pps, t, w);
      OneQueueMet(queues[m], c, n, pps, t, w);
      assert PortBursts(queues, c) == PortBursts(queues[..m], c) + BurstsOf(queues[m], c);
      hide *;
      AddLower(PortBursts(queues[..m], c), BurstsOf(queues[m], c), n, m, pps * w, pps / 2);
    }
  }

  lemma AddLower(k: nat, k': nat, n: nat, m: nat, x: nat, h: nat)
    requires m * x <= k * n + k * h && x <= k' * n + k' * h
    ensures (m + 1) * x <= (k + k') * n + (k + k') * h
  {
    assert (k + k') * n == k * n + k' * n;
    assert (k + k') * h == k * h + k' * h;
    assert (m + 1) * x == m * x + x;
  }

  /** The matching lower bound: when all the queues keep up, the port's packets times the clock
      frequency and the number of queues come to the rate asked for, less one packet per second
      and queue, times the window, up to the rounding. So the port sends the rate asked for
      divided by the number of queues, which is the rate asked for when there is one queue. */
  lemma TotalRateMet(linkSpeed: nat, wireBits: nat, txRate: real, asked: real, txCount: nat, txBurst: nat, hz: nat,
                     r: Rate, queues: seq<Queue>, t: int, w: nat)
    requires wireBits > 0 && txRate >= 0.0 && |queues| == txCount > 0
    requires Asked(linkSpeed * 1000000, wireBits, txRate, asked)
    requires PacesLink(linkSpeed * 1000000, wireBits, txRate, txCount, r.txPps)
    requires Rounded(r.txCycles, txCount * txBurst * hz, r.txPps) && r.txCycles > 0
    requires AllKeepUp(queues, r.txCycles, t, w)
    ensures Ranges(queues)
    ensures var k := PortBursts(queues, r.txCycles);
      (asked - txCount as real) * w as real
        <= (k * (txCount * txBurst * hz)) as real + (k * (r.txPps / 2)) as real
  {
    hide *;
    PacedShare(linkSpeed * 1000000, wireBits, txRate, txCount, asked, r.txPps);
    TotalOfMet(asked, txCount * txBurst * hz, r, queues, t, w);
  }

  lemma TotalOfMet(requested: real, n: nat, r: Rate, queues: seq<Queue>, t: int, w: nat)
    requires |queues| > 0 && WholeRate(r.txPps, requested / |queues| as real)
    requires Rounded(r.txCycles, n, r.txPps) && r.txCycles > 0 && AllKeepUp(queues, r.txCycles, t, w)
    ensures Ranges(queues)
    ensures var k := PortBursts(queues, r.txCycles);
      (requested - |queues| as real) * w as real <= (k * n) as real + (k * (r.txPps / 2)) as real
  {
    hide *;
    AllQueuesMet(queues, r.txCycles, n, r.txPps, t, w);
    var k := PortBursts(queues, r.txCycles);
    NearShare(r.txPps, requested, |queues|);
    SharedLower(|queues|, r.txPps, w, requested - |queues| as real);
    ChainLower(|queues| * (r.txPps * w), k * n, k * (r.txPps / 2), (requested - |queues| as real) * w as real);
  }

  /** The rate asked for, but at least one packet per second for each queue. */
  ghost function AtLeast(requested: real, n: nat): real {
    if requested >= n as real then requested else n as real
  }

  lemma WholeShare(pps: nat, requested: real, n: nat)
    requires n > 0 && WholeRate(pps, requested / n as real)
    ensures (n * pps) as real <= AtLeast(requested, n)
  {
    if pps > 1 {
      var share := requested / n as real;
      assert share * n as real == requested;
      Scale(pps as real, share, n as real);
      assert (n * pps) as real == pps as real * n as real;
    }
  }

  lemma NearShare(pps: nat, requested: real, n: nat)
    requires n > 0 && WholeRate(pps, requested / n as real)
    ensures requested - n as real <= (n * pps) as real
  {
    var share := requested / n as real;
    assert share * n as real == requested;
    Scale(share, pps as real + 1.0, n as real);
    assert (pps as real + 1.0) * n as real == pps as real * n as real + n as real;
    assert (n * pps) as real == pps as real * n as real;
  }

  lemma SharedLower(n: nat, pps: nat, time: nat, requested: real)
    requires requested <= (n * pps) as real
    ensures requested * time as real <= (n * (pps * time)) as real
  {
    Scale(requested, (n * pps) as real, time as real);
    assert n * (pps * time) == (n * pps) * time;
    assert ((n * pps) * time) as real == (n * pps) as real * time as real;
  }

  lemma ChainLower(x: int, y: int, z: int, r: real)
    requires x <= y + z && r <= x as real
    ensures r <= y as real + z as real
  {
  }

  lemma Scale(x: real, y: real, z: real)
    requires z >= 0.0
    ensures x <= y ==> x * z <= y * z
    ensures x > y && z > 0.0 ==> x * z > y * z
  {
    assert (y - x) * z == y * z - x * z;
  }

  lemma Shared(n: nat, pps: nat, time: nat, requested: real)
    requires (n * pps) as real <= requested
    ensures (n * (pps * time)) as real <= requested * time as real
  {
    Scale((n * pps) as real, requested, time as real);
    assert n * (pps * time) == (n * pps) * time;
    assert ((n * pps) * time) as real == (n * pps) as real * time as real;
  }
}
