/** Rolling latencies: a ring of the most recent samples, and the percentiles shown for it. */
module Latency {

  const RING_SIZE: nat := 1024

  // --------------------------------------------------------------------- sorting

  ghost predicate Ascending(s: seq<nat>) {
    forall i, j :: 0 <= i <= j < |s| ==> s[i] <= s[j]
  }

  /** `x` put in its place in an ascending sequence. */
  function Inserted(s: seq<nat>, x: nat): seq<nat> {
    if s == [] || x <= s[0] then [x] + s else [s[0]] + Inserted(s[1..], x)
  }

  function Sorted(s: seq<nat>): seq<nat> {
    if s == [] then [] else Inserted(Sorted(s[1..]), s[0])
  }

  lemma {:induction false} InsertedContents(s: seq<nat>, x: nat)
    ensures multiset(Inserted(s, x)) == multiset(s) + multiset{x}
  {
    if s != [] && x > s[0] {
      InsertedContents(s[1..], x);
      assert s == [s[0]] + s[1..];
    }
  }

  lemma PrependedAscends(s: seq<nat>, x: nat)
    requires Ascending(s) && (s == [] || x <= s[0])
    ensures Ascending([x] + s)
  {
    var t := [x] + s;
    forall i, j | 0 <= i <= j < |t|
      ensures t[i] <= t[j]
    {
      if i > 0 {
        assert t[i] == s[i - 1] && t[j] == s[j - 1];
      } else if j > 0 {
        assert t[j] == s[j - 1] && s[0] <= s[j - 1];
      }
    }
  }

  lemma InsertedFirst(s: seq<nat>, x: nat)
    ensures Inserted(s, x) != []
    ensures Inserted(s, x)[0] == x || (s != [] && Inserted(s, x)[0] == s[0])
  {
  }

  lemma {:induction false} InsertedAscends(s: seq<nat>, x: nat)
    requires Ascending(s)
    ensures Ascending(Inserted(s, x))
  {
    if s == [] || x <= s[0] {
      PrependedAscends(s, x);
    } else {
      assert Ascending(s[1..]);
      InsertedAscends(s[1..], x);
      InsertedFirst(s[1..], x);
      PrependedAscends(Inserted(s[1..], x), s[0]);
    }
  }

  /** The sorted sequence is ascending and has the same elements. */
  lemma {:induction false} SortedMeans(s: seq<nat>)
    ensures Ascending(Sorted(s)) && multiset(Sorted(s)) == multiset(s) && |Sorted(s)| == |s|
  {
    if s != [] {
      SortedMeans(s[1..]);
      InsertedAscends(Sorted(s[1..]), s[0]);
      InsertedContents(Sorted(s[1..]), s[0]);
      assert s == [s[0]] + s[1..];
    }
    assert |Sorted(s)| == |multiset(Sorted(s))| == |multiset(s)|;
  }

  lemma SmallestFirst(s: seq<nat>, t: seq<nat>)
    requires Ascending(s) && Ascending(t) && multiset(s) == multiset(t) && s != [] && t != []
    ensures s[0] <= t[0]
  {
    assert t[0] in multiset(s);
  }

  lemma WithoutFirst(s: seq<nat>)
    requires s != []
    ensures multiset(s[1..]) == multiset(s) - multiset{s[0]}
  {
    assert s == [s[0]] + s[1..];
  }

  lemma {:induction false} AscendingUnique(s: seq<nat>, t: seq<nat>)
    requires Ascending(s) && Ascending(t) && multiset(s) == multiset(t)
    ensures s == t
  {
    assert |s| == |multiset(s)| == |multiset(t)| == |t|;
    if s != [] {
      SmallestFirst(s, t);
      SmallestFirst(t, s);
      WithoutFirst(s);
      WithoutFirst(t);
      AscendingUnique(s[1..], t[1..]);
      assert s == [s[0]] + s[1..] && t == [t[0]] + t[1..];
    }
  }

  /** What is sorted depends only on the elements, not on their order in the ring. */
  lemma SortedOfSame(s: seq<nat>, t: seq<nat>)
    requires multiset(s) == multiset(t)
    ensures Sorted(s) == Sorted(t)
  {
    SortedMeans(s);
    SortedMeans(t);
    AscendingUnique(Sorted(s), Sorted(t));
  }

  // ------------------------------------------------------------------ percentiles

  /** A fraction `f` of a difference, cut down to a whole number. */
  function Part(d: int, f: real): int {
    (d as real * f).Floor
  }

  lemma PartBetween(d: nat, f: real)
    requires 0.0 <= f <= 1.0
    ensures 0 <= Part(d, f) <= d
  {
    var x := d as real;
    assert x * f >= 0.0;
    assert x - x * f == x * (1.0 - f) >= 0.0;
  }

  lemma PartMonotone(d: nat, f: real, g: real)
    requires f <= g
    ensures Part(d, f) <= Part(d, g)
  {
    var x := d as real;
    assert x * g - x * f == x * (g - f) >= 0.0;
  }

  lemma ProductNotNegative(a: real, b: real)
    requires a >= 0.0 && b >= 0.0
    ensures a * b >= 0.0
  {
  }

  /** The position of a fraction `q` among `n` samples. */
  function Position(n: nat, q: real): (p: real)
    requires n > 0 && 0.0 <= q <= 1.0
    ensures 0.0 <= p && p.Floor < n
  {
    var m := (n - 1) as real;
    ProductNotNegative(q, m);
    ProductNotNegative(1.0 - q, m);
    assert m - q * m == (1.0 - q) * m;
    q * m
  }

  lemma PositionMonotone(n: nat, q: real, r: real)
    requires n > 0 && 0.0 <= q <= r <= 1.0
    ensures Position(n, q) <= Position(n, r)
    ensures Position(n, 0.0) == 0.0 && Position(n, 1.0) == (n - 1) as real
  {
    var m := (n - 1) as real;
    assert r * m - q * m == (r - q) * m >= 0.0;
  }

  /** The sample at position `pos` of an ascending sequence, between two samples their linear
      interpolation, cut down to a whole number. */
  function Interpolated(s: seq<nat>, pos: real): int
    requires 0.0 <= pos && pos.Floor < |s|
  {
    var idx := pos.Floor;
    var lower: int := s[idx];
    if idx + 1 < |s| then
      var upper: int := s[idx + 1];
      lower + Part(upper - lower, pos - idx as real)
    else lower
  }

  /** The percentile of any samples. */
  function Percentile(samples: seq<nat>, q: real): int
    requires 0.0 <= q <= 1.0
  {
    if samples == [] then 0
    else
      SortedMeans(samples);
      Interpolated(Sorted(samples), Position(|samples|, q))
  }

  /** An interpolated sample lies between the samples on either side. */
  lemma InterpolatedBetween(s: seq<nat>, pos: real)
    requires Ascending(s) && 0.0 <= pos && pos.Floor < |s|
    ensures s[pos.Floor] <= Interpolated(s, pos)
    ensures pos.Floor + 1 < |s| ==> Interpolated(s, pos) <= s[pos.Floor + 1]
  {
    hide Part;
    var idx := pos.Floor;
    if idx + 1 < |s| {
      PartBetween(s[idx + 1] - s[idx], pos - idx as real);
    }
  }

  lemma FloorOrder(p: real, r: real)
    requires p <= r
    ensures p.Floor <= r.Floor
  {
  }

  lemma InterpolatedMonotone(s: seq<nat>, p: real, r: real)
    requires Ascending(s) && 0.0 <= p <= r && r.Floor < |s|
    ensures p.Floor < |s| && Interpolated(s, p) <= Interpolated(s, r)
  {
    FloorOrder(p, r);
    hide Part;
    if p.Floor == r.Floor {
      var idx := p.Floor;
      if idx + 1 < |s| {
        PartMonotone(s[idx + 1] - s[idx], p - idx as real, r - idx as real);
      }
    } else {
      assert s[p.Floor + 1] <= s[r.Floor];
      hide Interpolated;
      InterpolatedBetween(s, p);
      InterpolatedBetween(s, r);
    }
  }

  /** The percentile grows with the fraction asked for. */
  lemma PercentileMonotone(samples: seq<nat>, q: real, r: real)
    requires samples != [] && 0.0 <= q <= r <= 1.0
    ensures Percentile(samples, q) <= Percentile(samples, r)
  {
    hide Sorted, Interpolated, Position;
    SortedMeans(samples);
    PositionMonotone(|samples|, q, r);
    InterpolatedMonotone(Sorted(samples), Position(|samples|, q), Position(|samples|, r));
  }

  /** It lies between the two order statistics around its position. */
  lemma PercentileBetween(samples: seq<nat>, q: real)
    requires samples != [] && 0.0 <= q <= 1.0
    ensures |Sorted(samples)| == |samples|
    ensures var s, idx := Sorted(samples), Position(|samples|, q).Floor;
      && 0 <= idx < |s| && s[idx] <= Percentile(samples, q)
      && (idx + 1 < |s| ==> Percentile(samples, q) <= s[idx + 1])
  {
    hide Sorted, Interpolated, Position;
    SortedMeans(samples);
    InterpolatedBetween(Sorted(samples), Position(|samples|, q));
  }

  /** `x` is the value at `pos` of the ascending `s`: the linear interpolation between the samples
      before and after, cut down to a whole number; the last sample has none after it. */
  ghost predicate ValueAt(x: int, s: seq<nat>, pos: real) {
    exists i: nat :: WholeAndRest(pos, i) && i < |s| &&
      if i + 1 == |s| then x == s[i]
      else
        var lower, upper: int := s[i], s[i + 1];
        CutDown(x, lower as real + (upper - lower) as real * (pos - i as real))
  }

  ghost predicate WholeAndRest(pos: real, i: nat) {
    i as real <= pos < i as real + 1.0
  }

  ghost predicate CutDown(x: int, y: real) {
    x as real <= y < x as real + 1.0
  }

  /** The number itself, from the samples in ascending order and the fraction asked for. */
  lemma PercentileIs(samples: seq<nat>, q: real, s: seq<nat>)
    requires samples != [] && 0.0 <= q <= 1.0
    requires Ascending(s) && multiset(s) == multiset(samples)
    ensures ValueAt(Percentile(samples, q), s, q * (|samples| - 1) as real)
  {
    PercentileOf(samples, q, s);
    hide *;
    PositionIs(|samples|, q);
    InterpolatedIs(s, Position(|samples|, q));
  }

  lemma PercentileOf(samples: seq<nat>, q: real, s: seq<nat>)
    requires samples != [] && 0.0 <= q <= 1.0
    requires Ascending(s) && multiset(s) == multiset(samples)
    ensures |s| == |samples| && Percentile(samples, q) == Interpolated(s, Position(|samples|, q))
  {
    SortedMeans(samples);
    AscendingUnique(s, Sorted(samples));
    hide Sorted, Interpolated, Position;
  }

  lemma PositionIs(n: nat, q: real)
    requires n > 0 && 0.0 <= q <= 1.0
    ensures Position(n, q) == q * (n - 1) as real
  {
  }

  lemma InterpolatedIs(s: seq<nat>, pos: real)
    requires 0.0 <= pos && pos.Floor < |s|
    ensures ValueAt(Interpolated(s, pos), s, pos)
  {
    var i: nat := pos.Floor;
    assert WholeAndRest(pos, i);
    if i + 1 < |s| {
      var lower, upper: int := s[i], s[i + 1];
      PartIs(upper - lower, pos - i as real);
    }
    hide Part;
  }

  lemma PartIs(d: int, f: real)
    ensures Part(d, f) as real <= d as real * f < Part(d, f) as real + 1.0
  {
  }

  /** From the smallest sample to the largest. */
  lemma PercentileEnds(samples: seq<nat>)
    requires samples != []
    ensures Percentile(samples, 0.0) in samples && Percentile(samples, 1.0) in samples
    ensures forall x :: x in samples ==> Percentile(samples, 0.0) <= x <= Percentile(samples, 1.0)
  {
    var s := Sorted(samples);
    SortedMeans(samples);
    hide Sorted;
    PositionMonotone(|samples|, 0.0, 1.0);
    Ends(s);
    hide Interpolated, Position;
    assert s[0] in multiset(s) && s[|s| - 1] in multiset(s);
    forall x | x in samples
      ensures s[0] <= x <= s[|s| - 1]
    {
      assert x in multiset(s);
    }
  }

  lemma Ends(s: seq<nat>)
    requires s != []
    ensures Interpolated(s, 0.0) == s[0]
    ensures ((|s| - 1) as real).Floor == |s| - 1 && Interpolated(s, (|s| - 1) as real) == s[|s| - 1]
  {
    if |s| > 1 {
      var upper: int := s[1];
      NoPart(upper - s[0]);
    }
    hide Part;
  }

  lemma NoPart(d: int)
    ensures Part(d, 0.0) == 0
  {
  }

  /** The percentiles on the display are in order, and none is above the maximum. */
  lemma Displayed(samples: seq<nat>)
    requires samples != []
    ensures Percentile(samples, 0.90) <= Percentile(samples, 0.95) <= Percentile(samples, 0.99)
    ensures exists x :: x in samples && Percentile(samples, 0.99) <= x
  {
    hide Percentile;
    PercentileMonotone(samples, 0.90, 0.95);
    PercentileMonotone(samples, 0.95, 0.99);
    PercentileMonotone(samples, 0.99, 1.0);
    PercentileEnds(samples);
  }

  // ---------------------------------------------------------------------- the ring

  function Last(history: seq<nat>, n: nat): seq<nat> {
    if |history| <= n then history else history[|history| - n..]
  }

  /** Before `head` stand the newest values of `history`, and after it, once the ring is full,
      the older ones. */
  ghost predicate Holds(cells: seq<nat>, head: nat, count: nat, history: seq<nat>) {
    && |cells| == RING_SIZE && head < RING_SIZE && count <= RING_SIZE && head <= |history|
    && cells[..head] == history[|history| - head..]
    && (count < RING_SIZE ==> head == count == |history|)
    && (count == RING_SIZE ==>
          |history| >= RING_SIZE && cells[head..] == history[|history| - RING_SIZE..|history| - head])
  }

  /** The next write position. */
  function NextHead(head: nat): nat {
    (head + 1) % RING_SIZE
  }

  lemma NextHeadIs(head: nat)
    requires head < RING_SIZE
    ensures NextHead(head) == if head + 1 == RING_SIZE then 0 else head + 1
  {
  }

  lemma InsertNewest(cells: seq<nat>, head: nat, history: seq<nat>, value: nat)
    requires head < |cells| && head <= |history| && cells[..head] == history[|history| - head..]
    ensures cells[head := value][..head + 1] == (history + [value])[|history| - head..]
  {
    var c := cells[head := value];
    assert c[..head + 1] == c[..head] + [value] == cells[..head] + [value];
  }

  lemma InsertOlder(cells: seq<nat>, head: nat, history: seq<nat>, value: nat)
    requires head < |cells| == RING_SIZE <= |history|
    requires cells[head..] == history[|history| - RING_SIZE..|history| - head]
    ensures cells[head := value][head + 1..] == (history + [value])[|history| + 1 - RING_SIZE..|history| - head]
  {
    var c, n := cells[head := value], |history|;
    assert c[head + 1..] == cells[head..][1..];
    assert (history + [value])[n + 1 - RING_SIZE..n - head] == history[n - RING_SIZE..n - head][1..];
  }

  lemma InsertFilling(cells: seq<nat>, head: nat, history: seq<nat>, value: nat)
    requires Holds(cells, head, head, history) && head + 1 < RING_SIZE
    ensures Holds(cells[head := value], head + 1, head + 1, history + [value])
  {
    InsertNewest(cells, head, history, value);
  }

  lemma InsertFull(cells: seq<nat>, head: nat, history: seq<nat>, value: nat)
    requires Holds(cells, head, RING_SIZE, history) && head + 1 < RING_SIZE
    ensures Holds(cells[head := value], head + 1, RING_SIZE, history + [value])
  {
    InsertNewest(cells, head, history, value);
    InsertOlder(cells, head, history, value);
  }

  lemma WholeRing(cells: seq<nat>, history: seq<nat>)
    requires |cells| == RING_SIZE <= |history| && cells == history[|history| - RING_SIZE..]
    ensures Holds(cells, 0, RING_SIZE, history)
  {
    assert cells[..0] == [] == history[|history| - 0..];
    assert cells[0..] == cells && history[|history| - RING_SIZE..|history| - 0] == history[|history| - RING_SIZE..];
  }

  lemma InsertLast(cells: seq<nat>, head: nat, count: nat, history: seq<nat>, value: nat)
    requires Holds(cells, head, count, history) && head + 1 == RING_SIZE
    ensures Holds(cells[head := value], 0, RING_SIZE, history + [value])
  {
    InsertNewest(cells, head, history, value);
    hide Holds;
    assert cells[head := value][..head + 1] == cells[head := value];
    WholeRing(cells[head := value], history + [value]);
  }

  lemma InsertHolds(cells: seq<nat>, head: nat, count: nat, history: seq<nat>, value: nat)
    requires Holds(cells, head, count, history)
    ensures Holds(cells[head := value], NextHead(head), if count < RING_SIZE then count + 1 else count,
                  history + [value])
  {
    assert head < RING_SIZE && (count < RING_SIZE ==> head == count) && count <= RING_SIZE;
    NextHeadIs(head);
    hide Holds, NextHead;
    if head + 1 == RING_SIZE {
      InsertLast(cells, head, count, history, value);
    } else if count < RING_SIZE {
      InsertFilling(cells, head, history, value);
    } else {
      InsertFull(cells, head, history, value);
    }
  }

  /** The filled cells hold the last `RING_SIZE` values inserted, in some order. */
  lemma CellsHold(cells: seq<nat>, head: nat, count: nat, history: seq<nat>)
    requires Holds(cells, head, count, history)
    ensures count <= |cells| && multiset(cells[..count]) == multiset(Last(history, RING_SIZE))
  {
    var n := |history|;
    if count == RING_SIZE {
      assert cells[..count] == cells;
      Rotated(cells, head);
      Cut(history, n - RING_SIZE, n - head);
    } else {
      assert cells[..count] == history;
    }
  }

  lemma Rotated(s: seq<nat>, m: nat)
    requires m <= |s|
    ensures multiset(s) == multiset(s[m..]) + multiset(s[..m])
  {
    assert s == s[..m] + s[m..];
  }

  lemma Cut(s: seq<nat>, m: nat, n: nat)
    requires m <= n <= |s|
    ensures multiset(s[m..]) == multiset(s[m..n]) + multiset(s[n..])
  {
    assert s[m..] == s[m..n] + s[n..];
  }

  class LatencyRing {
    const data: array<nat>
    var head: nat
    var count: nat
    /** Every value inserted so far. */
    ghost var history: seq<nat>

    ghost predicate Valid()
      reads this, data
    {
      Holds(data[..], head, count, history)
    }

    constructor ()
      ensures Valid() && fresh(data) && history == []
    {
      data := new nat[RING_SIZE];
      head, count, history := 0, 0, [];
    }

    method Insert(value: nat)
      requires Valid()
      modifies this, data
      ensures Valid() && history == old(history) + [value]
    {
      InsertHolds(data[..], head, count, history, value);
      ghost var cells := data[..];
      data[head] := value;
      assert data[..] == cells[head := value];
      history := history + [value];
      head := NextHead(head);
      if count < RING_SIZE {
        count := count + 1;
      }
    }

    /** The percentile shown is that of the last `RING_SIZE` values. */
    method GetPercentile(q: real) returns (r: int)
      requires Valid() && 0.0 <= q <= 1.0
      ensures r == Percentile(Last(history, RING_SIZE), q)
    {
      CellsHold(data[..], head, count, history);
      assert data[..][..count] == data[..count];
      SameSamples(data[..count], Last(history, RING_SIZE), q);
      hide Last, Holds, Percentile, Sorted;
      if count == 0 {
        NoSamples(q);
        return 0;
      }
      var copy: seq<nat> := [];
      for i := 0 to count
        invariant copy == data[..i]
      {
        copy := copy + [data[i]];
      }
      r := OfSamples(copy, q);
    }
  }

  lemma SameSamples(s: seq<nat>, t: seq<nat>, q: real)
    requires multiset(s) == multiset(t) && 0.0 <= q <= 1.0
    ensures Percentile(s, q) == Percentile(t, q)
  {
    assert |s| == |multiset(s)| == |multiset(t)| == |t|;
    SortedOfSame(s, t);
    hide Sorted, Interpolated, Position;
  }

  lemma NoSamples(q: real)
    requires 0.0 <= q <= 1.0
    ensures Percentile([], q) == 0
  {
  }

  /** The percentile of copied samples: sort them, and interpolate at the position. */
  method OfSamples(samples: seq<nat>, q: real) returns (r: int)
    requires samples != [] && 0.0 <= q <= 1.0
    ensures r == Percentile(samples, q)
  {
    hide Sorted, Part, Position;
    SortedMeans(samples);
    var tmp := Sorted(samples);
    var pos := Position(|samples|, q);
    var idx := pos.Floor;
    var frac := pos - idx as real;
    r := tmp[idx];
    if idx + 1 < |samples| {
      var upper: int := tmp[idx + 1];
      r := r + Part(upper - r, frac);
    }
  }
}
