/** Applying the active bit fields to the packets of a burst, and what each bit of each packet
    is decided by. */
module RandomApply {

  import opened Bytes
  import opened RandomBits
  import Xorshift

  // ------------------------------------------------------------------- one word

  /** Bit `b` of a byte, counted from the least significant. */
  predicate BitOfByte(x: bv8, b: bv32)
    requires b < 8
  {
    Bit(x as bv32, b)
  }

  /** The four bytes at `o`, as a little-endian host loads them. */
  function Load(d: seq<bv8>, o: nat): bv32
    requires o + 4 <= |d|
  {
    Word(d[o], d[o + 1], d[o + 2], d[o + 3])
  }

  function Word(b0: bv8, b1: bv8, b2: bv8, b3: bv8): bv32 {
    b0 as bv32 | (b1 as bv32 << 8) | (b2 as bv32 << 16) | (b3 as bv32 << 24)
  }

  /** Byte `r` of a word in memory. */
  function ByteOf(w: bv32, r: nat): bv8
    requires r < 4
  {
    ByteAt(w, ByteShift(r))
  }

  function ByteShift(r: nat): (s: bv32)
    requires r < 4
    ensures s <= 24
  {
    if r == 0 then 0 else if r == 1 then 8 else if r == 2 then 16 else 24
  }

  function Masked(w: bv32, sp: Spec): bv32 {
    (w & sp.andMask) | sp.orMask
  }

  function Merged(w: bv32, sp: Spec, rnd: bv32): bv32 {
    w | (rnd & sp.rndMask)
  }

  /** The word after a bit field, `rnd` being the number drawn for it. */
  function Mixed(w: bv32, sp: Spec, rnd: bv32): bv32 {
    Merged(Masked(w, sp), sp, rnd)
  }

  function Patched(d: seq<bv8>, sp: Spec, rnd: bv32): (r: seq<bv8>)
    requires sp.offset + 4 <= |d|
    ensures |r| == |d|
  {
    var w := Mixed(Load(d, sp.offset), sp, rnd);
    d[..sp.offset] + [ByteOf(w, 0), ByteOf(w, 1), ByteOf(w, 2), ByteOf(w, 3)] + d[sp.offset + 4..]
  }

  /** The number of bit `b` of byte `r` within the word as it is stored, and in network order. */
  function StoredBit(r: nat, b: bv32): (k: bv32)
    requires r < 4 && b < 8
    ensures k < 32
  {
    ByteShift(r) + b
  }

  function NetworkBit(r: nat, b: bv32): (k: bv32)
    requires r < 4 && b < 8
    ensures k < 32
  {
    StoredBit(r, b) ^ 24
  }

  lemma LoadedBit(b0: bv8, b1: bv8, b2: bv8, b3: bv8, b: bv32)
    requires b < 8
    ensures Bit(Word(b0, b1, b2, b3), b) <==> BitOfByte(b0, b)
    ensures Bit(Word(b0, b1, b2, b3), 8 + b) <==> BitOfByte(b1, b)
    ensures Bit(Word(b0, b1, b2, b3), 16 + b) <==> BitOfByte(b2, b)
    ensures Bit(Word(b0, b1, b2, b3), 24 + b) <==> BitOfByte(b3, b)
  {
  }

  lemma LoadBit(d: seq<bv8>, o: nat, r: nat, b: bv32)
    requires o + 4 <= |d| && r < 4 && b < 8
    ensures Bit(Load(d, o), StoredBit(r, b)) <==> BitOfByte(d[o + r], b)
  {
    hide Bit, BitOfByte, Word;
    LoadedBit(d[o], d[o + 1], d[o + 2], d[o + 3], b);
  }

  /** Byte `at / 8` of a word. */
  function ByteAt(w: bv32, at: bv32): bv8
    requires at <= 24
  {
    ((w >> at) & 0xff) as bv8
  }

  lemma ShiftedByte(w: bv32, at: bv32, b: bv32)
    requires at <= 24 && b < 8
    ensures at + b < 32
    ensures BitOfByte(ByteAt(w, at), b) <==> Bit(w, at + b)
  {
  }

  lemma StoredByte(w: bv32, r: nat, b: bv32)
    requires r < 4 && b < 8
    ensures BitOfByte(ByteOf(w, r), b) <==> Bit(w, StoredBit(r, b))
  {
    hide Bit, BitOfByte, ByteShift, ByteAt;
    ShiftedByte(w, ByteShift(r), b);
  }

  lemma MixedBits(w: bv32, sp: Spec, rnd: bv32, q: bv32)
    requires q < 32
    ensures Bit(Mixed(w, sp, rnd), q) <==>
      (Bit(w, q) && Bit(sp.andMask, q)) || Bit(sp.orMask, q) || (Bit(rnd, q) && Bit(sp.rndMask, q))
  {
    MixedBitOf(w, sp.andMask, sp.orMask, sp.rndMask, rnd, q);
    hide Bit;
  }

  lemma MixedBitOf(w: bv32, x: bv32, y: bv32, z: bv32, rnd: bv32, q: bv32)
    requires q < 32
    ensures Bit(((w & x) | y) | (rnd & z), q) <==> (Bit(w, q) && Bit(x, q)) || Bit(y, q) || (Bit(rnd, q) && Bit(z, q))
  {
  }

  lemma DisjointBits(sp: Spec, q: bv32)
    requires q < 32 && Disjoint(sp)
    ensures Bit(sp.orMask, q) ==> Bit(sp.andMask, q) && !Bit(sp.rndMask, q)
    ensures Bit(sp.rndMask, q) ==> !Bit(sp.andMask, q)
  {
  }

  lemma Reversed(q: bv32)
    requires q < 32
    ensures q ^ 24 < 32 && (q ^ 24) ^ 24 == q
  {
  }

  lemma SymbolStored(sp: Spec, q: bv32)
    requires q < 32
    ensures q ^ 24 < 32
    ensures SymbolAt(sp, q ^ 24) == if Bit(sp.rndMask, q) then 'X' else if !Bit(sp.andMask, q) then '0'
                                    else if Bit(sp.orMask, q) then '1' else '.'
  {
    Reversed(q);
    BitOfHton(sp.rndMask, q ^ 24);
    BitOfHton(sp.andMask, q ^ 24);
    BitOfHton(sp.orMask, q ^ 24);
    hide Bit, Hton;
  }

  /** What a symbol makes of a bit: force it, leave it, or take the bit drawn. */
  function Decided(c: char, was: bool, drawn: bool): bool {
    if c == '.' then was
    else if c == '0' then false
    else if c == '1' then true
    else drawn
  }

  lemma MixedBit(w: bv32, sp: Spec, rnd: bv32, q: bv32)
    requires q < 32 && Disjoint(sp)
    ensures q ^ 24 < 32
    ensures Bit(Mixed(w, sp, rnd), q) <==> Decided(SymbolAt(sp, q ^ 24), Bit(w, q), Bit(rnd, q))
  {
    hide Bit, Hton, Disjoint, Mixed, SymbolAt;
    MixedBits(w, sp, rnd, q);
    DisjointBits(sp, q);
    SymbolStored(sp, q);
  }

  ghost predicate Covers(sp: Spec, j: nat) {
    sp.offset <= j < sp.offset + 4
  }

  /** The symbol of a bit field for bit `b` of byte `j` of the packet; '.' outside it. */
  ghost function SymbolFor(sp: Spec, j: nat, b: bv32): char
    requires b < 8
  {
    if Covers(sp, j) then SymbolAt(sp, NetworkBit(j - sp.offset, b)) else '.'
  }

  /** The bit of a drawn number that falls on bit `b` of byte `j`. */
  ghost function DrawnBit(sp: Spec, rnd: bv32, j: nat, b: bv32): bool
    requires b < 8
  {
    Covers(sp, j) && Bit(rnd, StoredBit(j - sp.offset, b))
  }

  lemma PatchedByte(d: seq<bv8>, sp: Spec, rnd: bv32, j: nat)
    requires sp.offset + 4 <= |d| && j < |d|
    ensures !Covers(sp, j) ==> Patched(d, sp, rnd)[j] == d[j]
    ensures Covers(sp, j) ==> Patched(d, sp, rnd)[j] == ByteOf(Mixed(Load(d, sp.offset), sp, rnd), j - sp.offset)
  {
    hide Mixed, Load, ByteOf;
    if Covers(sp, j) {
      var r := j - sp.offset;
      assert r == 0 || r == 1 || r == 2 || r == 3;
    }
  }

  lemma NewByteBit(w: bv32, sp: Spec, rnd: bv32, r: nat, b: bv32)
    requires r < 4 && b < 8 && Disjoint(sp)
    ensures BitOfByte(ByteOf(Mixed(w, sp, rnd), r), b)
       <==> Decided(SymbolAt(sp, NetworkBit(r, b)), Bit(w, StoredBit(r, b)), Bit(rnd, StoredBit(r, b)))
  {
    StoredByte(Mixed(w, sp, rnd), r, b);
    MixedBit(w, sp, rnd, StoredBit(r, b));
    hide Bit, BitOfByte, Hton, Disjoint, Mixed, SymbolAt, ByteOf, StoredBit;
  }

  /** One bit field decides each bit of the packet by its symbol there. */
  lemma PatchedBit(d: seq<bv8>, sp: Spec, rnd: bv32, j: nat, b: bv32)
    requires sp.offset + 4 <= |d| && j < |d| && b < 8 && Disjoint(sp)
    ensures BitOfByte(Patched(d, sp, rnd)[j], b)
       <==> Decided(SymbolFor(sp, j, b), BitOfByte(d[j], b), DrawnBit(sp, rnd, j, b))
  {
    hide Bit, BitOfByte, Hton, Disjoint, Mixed, SymbolAt, Load, ByteOf, StoredBit, NetworkBit, Patched;
    PatchedByte(d, sp, rnd, j);
    if Covers(sp, j) {
      NewByteBit(Load(d, sp.offset), sp, rnd, j - sp.offset, b);
      LoadBit(d, sp.offset, j - sp.offset, b);
    }
  }

  // ------------------------------------------------------- the bit fields in turn

  function SpecOf(specs: seq<Spec>, j: bv32): Spec
    requires |specs| == 32 && j < 32
  {
    NumberBound(j);
    specs[j as int]
  }

  /** Every active bit field lies inside a packet of `size` bytes. */
  ghost predicate Fits(specs: seq<Spec>, active: bv32, size: nat) {
    && |specs| == 32
    && forall j: bv32 :: j < 32 && Bit(active, j) ==> SpecOf(specs, j).offset + 4 <= size && Disjoint(SpecOf(specs, j))
  }

  lemma FitsOf(specs: seq<Spec>, active: bv32, size: nat, j: bv32)
    requires j < 32 && Fits(specs, active, size) && Bit(active, j)
    ensures SpecOf(specs, j).offset + 4 <= size && Disjoint(SpecOf(specs, j))
  {
    hide Bit, SpecOf, Disjoint;
  }

  lemma FitsLength(specs: seq<Spec>, active: bv32, size: nat)
    requires Fits(specs, active, size)
    ensures |specs| == 32
  {
  }

  /** The numbers drawn for one packet by the bit fields below `n`. */
  function Draws(specs: seq<Spec>, active: bv32, n: bv32): nat
    requires |specs| == 32 && n <= 32
    decreases n
  {
    if n == 0 then 0
    else Draws(specs, active, n - 1) + if Bit(active, n - 1) && SpecOf(specs, n - 1).rndMask != 0 then 1 else 0
  }

  /** A packet after the active bit fields below `n`, the next number drawn being `rnd(at)`. */
  ghost function Applied(d: seq<bv8>, specs: seq<Spec>, active: bv32, n: bv32, rnd: nat -> bv32, at: nat): (r: seq<bv8>)
    requires n <= 32 && Fits(specs, active, |d|)
    ensures |r| == |d|
    decreases n
  {
    if n == 0 then d
    else
      var r := Applied(d, specs, active, n - 1, rnd, at);
      if Bit(active, n - 1) then
        FitsOf(specs, active, |d|, n - 1);
        Patched(r, SpecOf(specs, n - 1), rnd(at + Draws(specs, active, n - 1)))
      else r
  }

  /** Bit field `i` has a say in bit `b` of byte `j`. */
  ghost predicate Decides(specs: seq<Spec>, active: bv32, i: bv32, j: nat, b: bv32)
    requires |specs| == 32 && i < 32 && b < 8
  {
    Bit(active, i) && SymbolFor(SpecOf(specs, i), j, b) != '.'
  }

  /** What the last bit field does to a bit. */
  lemma LastDecides(d: seq<bv8>, specs: seq<Spec>, active: bv32, n: bv32, rnd: nat -> bv32, at: nat, j: nat, b: bv32)
    requires 0 < n <= 32 && Fits(specs, active, |d|) && j < |d| && b < 8
    ensures |specs| == 32
    ensures var sp := SpecOf(specs, n - 1);
      var was := BitOfByte(Applied(d, specs, active, n - 1, rnd, at)[j], b);
      var now := BitOfByte(Applied(d, specs, active, n, rnd, at)[j], b);
      if Decides(specs, active, n - 1, j, b)
      then now == Decided(SymbolFor(sp, j, b), false, DrawnBit(sp, rnd(at + Draws(specs, active, n - 1)), j, b))
      else now == was
  {
    assert |specs| == 32;
    hide Bit, BitOfByte, Fits, Draws, SymbolFor, DrawnBit, Patched, SpecOf;
    if Bit(active, n - 1) {
      FitsOf(specs, active, |d|, n - 1);
      var sp, draw := SpecOf(specs, n - 1), rnd(at + Draws(specs, active, n - 1));
      var was := Applied(d, specs, active, n - 1, rnd, at);
      PatchedBit(was, sp, draw, j, b);
    }
  }

  lemma Below(i: bv32, n: bv32)
    requires i < n <= 32
    ensures n - 1 < n && n - 1 < 32 && (i == n - 1 || i < n - 1)
  {
  }

  /** A bit in which no bit field has a say is left as it was. */
  lemma {:induction false} BitUntouched(d: seq<bv8>, specs: seq<Spec>, active: bv32, n: bv32, rnd: nat -> bv32,
                                        at: nat, j: nat, b: bv32)
    requires n <= 32 && Fits(specs, active, |d|) && j < |d| && b < 8
    requires forall k: bv32 :: k < n ==> !Decides(specs, active, k, j, b)
    ensures BitOfByte(Applied(d, specs, active, n, rnd, at)[j], b) <==> BitOfByte(d[j], b)
    decreases n
  {
    if n > 0 {
      hide *;
      Below(0, n);
      LastDecides(d, specs, active, n, rnd, at, j, b);
      forall k: bv32 | k < n - 1
        ensures !Decides(specs, active, k, j, b)
      {
        Below(k, n);
      }
      BitUntouched(d, specs, active, n - 1, rnd, at, j, b);
    }
  }

  /** The highest-numbered active bit field with a say in a bit decides it: it is forced to 0 or
      1, or it is the bit of the number drawn for that bit field. */
  lemma {:induction false} BitDecided(d: seq<bv8>, specs: seq<Spec>, active: bv32, n: bv32, rnd: nat -> bv32,
                                      at: nat, j: nat, b: bv32, i: bv32)
    requires i < n <= 32 && Fits(specs, active, |d|) && j < |d| && b < 8
    requires Decides(specs, active, i, j, b)
    requires forall k: bv32 :: i < k < n ==> !Decides(specs, active, k, j, b)
    ensures var sp := SpecOf(specs, i);
      BitOfByte(Applied(d, specs, active, n, rnd, at)[j], b)
      <==> Decided(SymbolFor(sp, j, b), false, DrawnBit(sp, rnd(at + Draws(specs, active, i)), j, b))
    decreases n
  {
    hide *;
    Below(i, n);
    LastDecides(d, specs, active, n, rnd, at, j, b);
    if i != n - 1 {
      forall k: bv32 | i < k < n - 1
        ensures !Decides(specs, active, k, j, b)
      {
        Below(k, n);
      }
      BitDecided(d, specs, active, n - 1, rnd, at, j, b, i);
    }
  }

  // ------------------------------------------------------------------- the burst

  /** The random numbers of a generator seeded with `seed`: the low halves of its outputs. */
  function Drawn(seed: bv64): nat -> bv32 {
    (n: nat) => Low(Xorshift.Output(Xorshift.Nth(seed, n + 1)))
  }

  function Low(x: bv64): bv32 {
    (x & 0xffff_ffff) as bv32
  }

  /** Bit `q` of a 64-bit word. */
  ghost predicate WideBit(x: bv64, q: bv32)
    requires q < 64
  {
    (x >> q) & 1 == 1
  }

  function High(x: bv64): bv32 {
    (x >> 32) as bv32
  }

  lemma Halves(x: bv64)
    ensures x == ((High(x) as bv64) << 32) | (Low(x) as bv64)
  {
  }

  lemma Joined(x: bv64, h: bv32, l: bv32)
    requires x == ((h as bv64) << 32) | (l as bv64)
    ensures x as int == h as int * 0x1_0000_0000 + l as int
  {
  }

  lemma HalfSize(l: bv32)
    ensures 0 <= l as int < 0x1_0000_0000
  {
  }

  lemma Remainder(x: int, h: int, l: int)
    requires x == h * 0x1_0000_0000 + l && 0 <= l < 0x1_0000_0000
    ensures l == x % 0x1_0000_0000
  {
  }

  lemma LowIsRemainder(x: bv64)
    ensures Low(x) as int == x as int % 0x1_0000_0000
  {
    Halves(x);
    Joined(x, High(x), Low(x));
    HalfSize(Low(x));
    hide *;
    Remainder(x as int, High(x) as int, Low(x) as int);
  }

  /** The numbers drawn are the generator's outputs modulo 2^32. */
  lemma DrawnIsLow(seed: bv64, n: nat)
    ensures Drawn(seed)(n) as int == Xorshift.Output(Xorshift.Nth(seed, n + 1)) as int % 0x1_0000_0000
  {
    LowIsRemainder(Xorshift.Output(Xorshift.Nth(seed, n + 1)));
    hide Low, Xorshift.Output, Xorshift.Nth;
  }

  lemma LowBit(x: bv64, q: bv32)
    requires q < 32
    ensures Bit(Low(x), q) <==> WideBit(x, q)
  {
  }

  method DefaultRndFunc(rng: Xorshift.Generator, ghost seed: bv64, ghost at: nat) returns (r: bv32)
    requires rng.state == Xorshift.Nth(seed, at)
    modifies rng
    ensures rng.state == Xorshift.Nth(seed, at + 1)
    ensures r == Drawn(seed)(at)
  {
    hide Xorshift.Output, Xorshift.Step, Low;
    var x := rng.Next();
    r := Low(x);
  }

  lemma NothingMerged(w: bv32, sp: Spec, rnd: bv32)
    requires sp.rndMask == 0
    ensures Merged(w, sp, rnd) == w
  {
  }

  /** The word at the bit field's offset, rewritten. */
  method ApplyMasks(word: bv32, sp: Spec, rng: Xorshift.Generator, ghost seed: bv64, ghost at: nat) returns (w: bv32)
    requires rng.state == Xorshift.Nth(seed, at)
    modifies rng
    ensures w == Mixed(word, sp, Drawn(seed)(at))
    ensures rng.state == Xorshift.Nth(seed, at + if sp.rndMask != 0 then 1 else 0)
  {
    hide Masked, Merged, Drawn;
    w := Masked(word, sp);
    if sp.rndMask != 0 {
      var rnd := DefaultRndFunc(rng, seed, at);
      w := Merged(w, sp, rnd);
    } else {
      NothingMerged(w, sp, Drawn(seed)(at));
    }
  }

  /** A bit field applied in place; a number is drawn only for a bit field with random bits. */
  method ApplySpec(pkt: array<bv8>, sp: Spec, rng: Xorshift.Generator, ghost seed: bv64, ghost at: nat)
    requires sp.offset + 4 <= pkt.Length && rng.state == Xorshift.Nth(seed, at)
    modifies pkt, rng
    ensures pkt[..] == Patched(old(pkt[..]), sp, Drawn(seed)(at))
    ensures rng.state == Xorshift.Nth(seed, at + if sp.rndMask != 0 then 1 else 0)
  {
    hide *;
    ghost var d := pkt[..];
    var o := sp.offset;
    var w := ApplyMasks(Load(pkt[..], o), sp, rng, seed, at);
    PatchedOf(d, sp, Drawn(seed)(at));
    StoreWord(pkt, o, w);
  }

  method StoreWord(pkt: array<bv8>, o: nat, w: bv32)
    requires o + 4 <= pkt.Length
    modifies pkt
    ensures pkt[..] == old(pkt[..o]) + [ByteOf(w, 0), ByteOf(w, 1), ByteOf(w, 2), ByteOf(w, 3)] + old(pkt[o + 4..])
  {
    hide *;
    pkt[o] := ByteOf(w, 0);
    pkt[o + 1] := ByteOf(w, 1);
    pkt[o + 2] := ByteOf(w, 2);
    pkt[o + 3] := ByteOf(w, 3);
  }

  lemma PatchedOf(d: seq<bv8>, sp: Spec, rnd: bv32)
    requires sp.offset + 4 <= |d|
    ensures var w := Mixed(Load(d, sp.offset), sp, rnd);
      Patched(d, sp, rnd)
      == d[..sp.offset] + [ByteOf(w, 0), ByteOf(w, 1), ByteOf(w, 2), ByteOf(w, 3)] + d[sp.offset + 4..]
  {
    hide Mixed, Load, ByteOf;
  }

  lemma ShiftedOut(active: bv32, n: bv32)
    requires n <= 32 && active >> n != 0
    ensures n < 32 && (active >> n) >> 1 == active >> (n + 1)
    ensures (active >> n) & 1 == 1 <==> Bit(active, n)
  {
    assert n < 32;
    BitOfShr1(active, n);
  }

  /** `a` is what is left of `active` after the first `n` bits. */
  ghost predicate Left(a: bv32, active: bv32, n: bv32) {
    n <= 32 && a == active >> n
  }

  lemma LeftAll(active: bv32)
    ensures Left(active, active, 0)
  {
  }

  predicate LowestBit(a: bv32) {
    a & 1 == 1
  }

  function Halved(a: bv32): bv32 {
    a >> 1
  }

  lemma LeftNext(a: bv32, active: bv32, n: bv32)
    requires Left(a, active, n) && a != 0
    ensures n < 32 && Left(Halved(a), active, n + 1)
    ensures LowestBit(a) <==> Bit(active, n)
  {
    ShiftedOut(active, n);
  }

  lemma HalvedIsLess(a: bv32)
    requires a != 0
    ensures Halved(a) < a
  {
  }

  /** Once no active bit is left the remaining bit fields change nothing. */
  lemma {:induction false} NoneLeft(d: seq<bv8>, specs: seq<Spec>, active: bv32, m: bv32, n: bv32,
                                    rnd: nat -> bv32, at: nat)
    requires m <= n <= 32 && Fits(specs, active, |d|)
    requires Left(0, active, m)
    ensures Applied(d, specs, active, n, rnd, at) == Applied(d, specs, active, m, rnd, at)
    ensures Draws(specs, active, n) == Draws(specs, active, m)
    decreases n
  {
    FitsLength(specs, active, |d|);
    if m < n {
      hide *;
      Above(m, n);
      BitOfNone(active, m, n - 1);
      AppliedInactive(d, specs, active, n, rnd, at);
      NoneLeft(d, specs, active, m, n - 1, rnd, at);
    }
  }

  lemma Above(m: bv32, n: bv32)
    requires m < n <= 32
    ensures 0 < n && n - 1 < n && m <= n - 1 < 32
  {
  }

  lemma AppliedActive(d: seq<bv8>, specs: seq<Spec>, active: bv32, n: bv32, rnd: nat -> bv32, at: nat)
    requires 0 < n <= 32 && Fits(specs, active, |d|) && Bit(active, n - 1)
    ensures |specs| == 32 && SpecOf(specs, n - 1).offset + 4 <= |d|
    ensures Applied(d, specs, active, n, rnd, at)
         == Patched(Applied(d, specs, active, n - 1, rnd, at), SpecOf(specs, n - 1),
                    rnd(at + Draws(specs, active, n - 1)))
  {
    FitsLength(specs, active, |d|);
    FitsOf(specs, active, |d|, n - 1);
    hide Bit, Fits, Patched, SpecOf, Disjoint, Draws;
  }

  lemma DrawsActive(specs: seq<Spec>, active: bv32, n: bv32)
    requires 0 < n <= 32 && |specs| == 32 && Bit(active, n - 1)
    ensures Draws(specs, active, n) == Draws(specs, active, n - 1) + if SpecOf(specs, n - 1).rndMask != 0 then 1 else 0
  {
    hide Bit, SpecOf;
  }

  lemma AppliedInactive(d: seq<bv8>, specs: seq<Spec>, active: bv32, n: bv32, rnd: nat -> bv32, at: nat)
    requires 0 < n <= 32 && Fits(specs, active, |d|) && !Bit(active, n - 1)
    ensures |specs| == 32
    ensures Applied(d, specs, active, n, rnd, at) == Applied(d, specs, active, n - 1, rnd, at)
    ensures Draws(specs, active, n) == Draws(specs, active, n - 1)
  {
    FitsLength(specs, active, |d|);
    hide Bit, Fits, Patched, SpecOf, Disjoint;
  }

  /** The bit fields of a port: the slots, and the set of the active ones. */
  datatype Fields = Fields(specs: seq<Spec>, active: bv32)

  ghost predicate FieldsFit(f: Fields, size: nat) {
    Fits(f.specs, f.active, size)
  }

  /** The numbers one packet takes from the generator. */
  ghost function PacketDraws(f: Fields): nat
    requires |f.specs| == 32
  {
    Draws(f.specs, f.active, 32)
  }

  /** A packet after all the active bit fields. */
  ghost function AppliedAll(d: seq<bv8>, f: Fields, rnd: nat -> bv32, at: nat): (r: seq<bv8>)
    requires FieldsFit(f, |d|)
    ensures |r| == |d|
  {
    Applied(d, f.specs, f.active, 32, rnd, at)
  }

  /** The state of the loop over the bit fields: `left` holds the active bits from `n` on. */
  ghost predicate Reached(now: seq<bv8>, state: bv64, d: seq<bv8>, f: Fields, left: bv32, n: bv32, seed: bv64,
                          at: nat) {
    && FieldsFit(f, |d|)
    && Left(left, f.active, n)
    && now == Applied(d, f.specs, f.active, n, Drawn(seed), at)
    && state == Xorshift.Nth(seed, at + Draws(f.specs, f.active, n))
  }

  lemma ReachedStart(d: seq<bv8>, f: Fields, seed: bv64, at: nat)
    requires FieldsFit(f, |d|)
    ensures Reached(d, Xorshift.Nth(seed, at), d, f, f.active, 0, seed, at)
  {
    LeftAll(f.active);
  }

  lemma ReachedEnd(now: seq<bv8>, state: bv64, d: seq<bv8>, f: Fields, left: bv32, n: bv32, seed: bv64, at: nat)
    requires Reached(now, state, d, f, left, n, seed, at) && left == 0
    ensures FieldsFit(f, |d|) && |f.specs| == 32
    ensures now == AppliedAll(d, f, Drawn(seed), at)
    ensures state == Xorshift.Nth(seed, at + PacketDraws(f))
  {
    hide Fits, Drawn, Draws, Applied;
    AllApplied(d, f.specs, f.active, left, n, Drawn(seed), at);
  }

  lemma ReachedParts(now: seq<bv8>, state: bv64, d: seq<bv8>, f: Fields, left: bv32, n: bv32, seed: bv64, at: nat)
    requires Reached(now, state, d, f, left, n, seed, at)
    ensures Fits(f.specs, f.active, |d|) && |f.specs| == 32 && |now| == |d|
    ensures n <= 32 && Left(left, f.active, n)
    ensures now == Applied(d, f.specs, f.active, n, Drawn(seed), at)
    ensures state == Xorshift.Nth(seed, at + Draws(f.specs, f.active, n))
  {
    hide Fits, Applied, Draws, Drawn, Xorshift.Nth;
    FitsLength(f.specs, f.active, |d|);
  }

  lemma ReachedFrom(now: seq<bv8>, state: bv64, d: seq<bv8>, f: Fields, left: bv32, n: bv32, seed: bv64, at: nat)
    requires Fits(f.specs, f.active, |d|) && |f.specs| == 32
    requires n <= 32 && Left(left, f.active, n)
    requires now == Applied(d, f.specs, f.active, n, Drawn(seed), at)
    requires state == Xorshift.Nth(seed, at + Draws(f.specs, f.active, n))
    ensures Reached(now, state, d, f, left, n, seed, at)
  {
    hide Fits, Applied, Draws, Drawn, Xorshift.Nth, Left;
  }

  lemma ReachedActive(now: seq<bv8>, state: bv64, d: seq<bv8>, f: Fields, left: bv32, n: bv32, seed: bv64, at: nat)
    requires Reached(now, state, d, f, left, n, seed, at) && left != 0 && LowestBit(left)
    ensures |f.specs| == 32 && n < 32 && SpecOf(f.specs, n).offset + 4 <= |now|
    ensures state == Xorshift.Nth(seed, at + Draws(f.specs, f.active, n))
    ensures var sp, k := SpecOf(f.specs, n), at + Draws(f.specs, f.active, n);
      Reached(Patched(now, sp, Drawn(seed)(k)), Xorshift.Nth(seed, k + if sp.rndMask != 0 then 1 else 0),
              d, f, Halved(left), n + 1, seed, at)
  {
    hide *;
    ReachedParts(now, state, d, f, left, n, seed, at);
    LeftNext(left, f.active, n);
    Counted(n);
    AppliedActive(d, f.specs, f.active, n + 1, Drawn(seed), at);
    DrawsActive(f.specs, f.active, n + 1);
    var sp, k := SpecOf(f.specs, n), at + Draws(f.specs, f.active, n);
    ReachedFrom(Patched(now, sp, Drawn(seed)(k)), Xorshift.Nth(seed, k + if sp.rndMask != 0 then 1 else 0),
                d, f, Halved(left), n + 1, seed, at);
  }

  lemma ReachedInactive(now: seq<bv8>, state: bv64, d: seq<bv8>, f: Fields, left: bv32, n: bv32, seed: bv64, at: nat)
    requires Reached(now, state, d, f, left, n, seed, at) && left != 0 && !LowestBit(left)
    ensures n < 32 && Reached(now, state, d, f, Halved(left), n + 1, seed, at)
  {
    hide *;
    ReachedParts(now, state, d, f, left, n, seed, at);
    LeftNext(left, f.active, n);
    Counted(n);
    AppliedInactive(d, f.specs, f.active, n + 1, Drawn(seed), at);
    ReachedFrom(now, state, d, f, Halved(left), n + 1, seed, at);
  }

  /** Bit field `n` is applied if it is active. */
  method ApplySlot(pkt: array<bv8>, f: Fields, n: bv32, active: bv32, rng: Xorshift.Generator,
                   ghost d: seq<bv8>, ghost seed: bv64, ghost at: nat)
    requires pkt.Length == |d| && active != 0
    requires Reached(pkt[..], rng.state, d, f, active, n, seed, at)
    modifies pkt, rng
    ensures Reached(pkt[..], rng.state, d, f, Halved(active), n + 1, seed, at)
  {
    hide *;
    if LowestBit(active) {
      ReachedActive(pkt[..], rng.state, d, f, active, n, seed, at);
      ApplySpec(pkt, SpecOf(f.specs, n), rng, seed, at + Draws(f.specs, f.active, n));
    } else {
      ReachedInactive(pkt[..], rng.state, d, f, active, n, seed, at);
    }
  }

  /** One packet: the active word is shifted right until it is empty, and the bit fields whose
      bit comes out are applied. */
  method ApplyToPacket(pkt: array<bv8>, f: Fields, rng: Xorshift.Generator, ghost seed: bv64, ghost at: nat)
    requires FieldsFit(f, pkt.Length) && rng.state == Xorshift.Nth(seed, at)
    modifies pkt, rng
    ensures FieldsFit(f, |old(pkt[..])|) && |f.specs| == 32
    ensures pkt[..] == AppliedAll(old(pkt[..]), f, Drawn(seed), at)
    ensures rng.state == Xorshift.Nth(seed, at + PacketDraws(f))
  {
    hide *;
    ghost var d := pkt[..];
    ReachedStart(d, f, seed, at);
    var active := f.active;
    var n: bv32 := 0;
    while active != 0
      invariant Reached(pkt[..], rng.state, d, f, active, n, seed, at)
      decreases active
    {
      HalvedIsLess(active);
      ApplySlot(pkt, f, n, active, rng, d, seed, at);
      n := n + 1;
      active := Halved(active);
    }
    ReachedEnd(pkt[..], rng.state, d, f, active, n, seed, at);
  }

  lemma AllApplied(d: seq<bv8>, specs: seq<Spec>, active: bv32, a: bv32, n: bv32, rnd: nat -> bv32, at: nat)
    requires n <= 32 && Fits(specs, active, |d|) && a == 0 && Left(a, active, n)
    ensures |specs| == 32
    ensures Applied(d, specs, active, 32, rnd, at) == Applied(d, specs, active, n, rnd, at)
    ensures Draws(specs, active, 32) == Draws(specs, active, n)
  {
    NoneLeft(d, specs, active, n, 32, rnd, at);
  }

  lemma Counted(n: bv32)
    requires n < 32
    ensures 0 < n + 1 <= 32 && n + 1 - 1 == n
  {
  }

  /** The number of draws made before packet `m`. */
  function DrawsBefore(draws: nat, m: nat): nat {
    if m == 0 then 0 else DrawsBefore(draws, m - 1) + draws
  }

  ghost function Contents(pkts: seq<array<bv8>>): (c: seq<seq<bv8>>)
    reads pkts
    ensures |c| == |pkts|
  {
    seq(|pkts|, m requires 0 <= m < |pkts| reads pkts => pkts[m][..])
  }

  ghost predicate AllFit(f: Fields, was: seq<seq<bv8>>) {
    |f.specs| == 32 && forall m :: 0 <= m < |was| ==> FieldsFit(f, |was[m]|)
  }

  /** A burst after the bit fields: its packets in order, the draws numbered through. */
  ghost function AppliedBurst(was: seq<seq<bv8>>, f: Fields, rnd: nat -> bv32): (r: seq<seq<bv8>>)
    requires AllFit(f, was)
    ensures |r| == |was|
  {
    seq(|was|, m requires 0 <= m < |was| => AppliedAll(was[m], f, rnd, DrawsBefore(PacketDraws(f), m)))
  }

  /** Packet `m` of a burst and what it becomes. */
  lemma BurstAt(was: seq<seq<bv8>>, f: Fields, rnd: nat -> bv32, m: nat)
    requires m < |was| && AllFit(f, was)
    ensures |f.specs| == 32 && FieldsFit(f, |was[m]|)
    ensures AppliedBurst(was, f, rnd)[m] == AppliedAll(was[m], f, rnd, DrawsBefore(PacketDraws(f), m))
  {
    hide AppliedAll, PacketDraws;
  }

  lemma ContentsAt(pkts: seq<array<bv8>>, m: nat)
    requires m < |pkts|
    ensures Contents(pkts)[m] == pkts[m][..]
  {
  }

  lemma ContentsAre(pkts: seq<array<bv8>>, c: seq<seq<bv8>>)
    requires |c| == |pkts| && forall m :: 0 <= m < |pkts| ==> pkts[m][..] == c[m]
    ensures Contents(pkts) == c
  {
  }

  method ApplyToPackets(pkts: seq<array<bv8>>, f: Fields, rng: Xorshift.Generator)
    requires forall i, j :: 0 <= i < j < |pkts| ==> pkts[i] != pkts[j]
    requires |f.specs| == 32 && AllFit(f, Contents(pkts))
    modifies pkts, rng
    ensures rng.state == Xorshift.Nth(old(rng.state), DrawsBefore(PacketDraws(f), |pkts|))
    ensures Contents(pkts) == AppliedBurst(old(Contents(pkts)), f, Drawn(old(rng.state)))
  {
    hide *;
    ghost var seed := rng.state;
    ghost var was := Contents(pkts);
    ghost var goal := AppliedBurst(was, f, Drawn(seed));
    NoSteps(seed, PacketDraws(f));
    forall m | 0 <= m < |pkts|
      ensures pkts[m][..] == was[m]
    {
      ContentsAt(pkts, m);
    }
    for cnt := 0 to |pkts|
      invariant rng.state == Xorshift.Nth(seed, DrawsBefore(PacketDraws(f), cnt))
      invariant forall m :: cnt <= m < |pkts| ==> pkts[m][..] == was[m]
      invariant forall m :: 0 <= m < cnt ==> pkts[m][..] == goal[m]
    {
      BurstAt(was, f, Drawn(seed), cnt);
      NextDraws(PacketDraws(f), cnt);
      ApplyToPacket(pkts[cnt], f, rng, seed, DrawsBefore(PacketDraws(f), cnt));
    }
    ContentsAre(pkts, goal);
  }

  lemma NoSteps(seed: bv64, draws: nat)
    ensures seed == Xorshift.Nth(seed, DrawsBefore(draws, 0))
  {
  }

  lemma NextDraws(draws: nat, m: nat)
    ensures DrawsBefore(draws, m + 1) == DrawsBefore(draws, m) + draws
  {
  }

  lemma BurstPacket(was: seq<seq<bv8>>, f: Fields, rnd: nat -> bv32, m: nat)
    requires m < |was| && AllFit(f, was)
    ensures |f.specs| == 32 && Fits(f.specs, f.active, |was[m]|)
    ensures AppliedBurst(was, f, rnd)[m]
         == Applied(was[m], f.specs, f.active, 32, rnd, DrawsBefore(PacketDraws(f), m))
  {
    BurstAt(was, f, rnd, m);
    hide AppliedBurst, Applied, PacketDraws, AllFit;
  }

  /** A bit of a packet of a burst in which no active bit field has a say is unchanged. */
  lemma BurstBitUntouched(was: seq<seq<bv8>>, f: Fields, rnd: nat -> bv32, m: nat, j: nat, b: bv32)
    requires m < |was| && AllFit(f, was) && |f.specs| == 32 && j < |was[m]| && b < 8
    requires forall k: bv32 :: k < 32 ==> !Decides(f.specs, f.active, k, j, b)
    ensures |AppliedBurst(was, f, rnd)[m]| == |was[m]|
    ensures BitOfByte(AppliedBurst(was, f, rnd)[m][j], b) <==> BitOfByte(was[m][j], b)
  {
    hide *;
    BurstPacket(was, f, rnd, m);
    BitUntouched(was[m], f.specs, f.active, 32, rnd, DrawsBefore(PacketDraws(f), m), j, b);
  }

  /** Every other bit of every packet of a burst is decided by the highest-numbered active bit
      field with a say in it; draws are numbered through the burst, packet by packet. */
  lemma BurstBitDecided(was: seq<seq<bv8>>, f: Fields, rnd: nat -> bv32, m: nat, j: nat, b: bv32, i: bv32)
    requires m < |was| && AllFit(f, was) && |f.specs| == 32 && j < |was[m]| && b < 8
    requires i < 32 && Decides(f.specs, f.active, i, j, b)
    requires forall k: bv32 :: i < k < 32 ==> !Decides(f.specs, f.active, k, j, b)
    ensures |AppliedBurst(was, f, rnd)[m]| == |was[m]|
    ensures var sp := SpecOf(f.specs, i);
      var draw := rnd(DrawsBefore(PacketDraws(f), m) + Draws(f.specs, f.active, i));
      BitOfByte(AppliedBurst(was, f, rnd)[m][j], b)
      <==> Decided(SymbolFor(sp, j, b), false, DrawnBit(sp, draw, j, b))
  {
    hide *;
    BurstPacket(was, f, rnd, m);
    BitDecided(was[m], f.specs, f.active, 32, rnd, DrawsBefore(PacketDraws(f), m), j, b, i);
  }

  lemma PlaceOfBit(r: nat, b: bv32)
    requires r < 4 && b < 8
    ensures 31 - NetworkBit(r, b) < 32 && 31 - (31 - NetworkBit(r, b)) == NetworkBit(r, b)
    ensures 31 - NetworkBit(r, b) == ByteShift(r) + (7 - b)
  {
  }

  lemma PlaceAsInteger(r: nat, b: bv32)
    requires r < 4 && b < 8
    ensures (ByteShift(r) + (7 - b)) as int == 8 * r + 7 - b as int
  {
  }

  /** The symbol for a bit of the packet is the character at its place in the printed pattern:
      eight to a byte from the offset on, most significant first. */
  lemma SymbolIsPrinted(sp: Spec, j: nat, b: bv32)
    requires b < 8 && Covers(sp, j)
    ensures 0 <= 8 * (j - sp.offset) + 7 - b as int < 32
    ensures SymbolFor(sp, j, b) == Printed(sp)[8 * (j - sp.offset) + 7 - b as int]
  {
    var r := j - sp.offset;
    PlaceOfBit(r, b);
    PlaceAsInteger(r, b);
    hide SymbolAt, Printed, NetworkBit, ByteShift;
    PrintedAt(sp, 31 - NetworkBit(r, b));
  }

  /** Bit field `i` is the last with a say in bit `b` of byte `j`, and has an 'X' there. */
  ghost predicate Random(f: Fields, i: bv32, j: nat, b: bv32)
    requires |f.specs| == 32
  {
    && i < 32 && b < 8
    && Bit(f.active, i) && Covers(SpecOf(f.specs, i), j) && SymbolFor(SpecOf(f.specs, i), j, b) == 'X'
    && forall k: bv32 :: i < k < 32 ==> !Decides(f.specs, f.active, k, j, b)
  }

  /** The bit of a number for bit `b` of byte `j`: bit field `i` is read as a little-endian word. */
  ghost predicate Lands(f: Fields, i: bv32, j: nat, b: bv32, q: bv32)
    requires |f.specs| == 32 && i < 32
  {
    b < 8 && q < 32 && q as int == 8 * (j - SpecOf(f.specs, i).offset) + b as int
  }

  /** The numbers drawn before bit field `i` of packet `m` draws its own. */
  ghost function TakenBefore(f: Fields, m: nat, i: bv32): nat
    requires |f.specs| == 32 && i < 32
  {
    DrawsBefore(PacketDraws(f), m) + Draws(f.specs, f.active, i)
  }

  /** Every random bit of a burst is a bit of the generator's output for its packet and bit field. */
  ghost predicate BitsOfGenerator(now: seq<seq<bv8>>, f: Fields, seed: bv64)
    requires |f.specs| == 32
  {
    forall m, i, j, b, q :: 0 <= m < |now| && 0 <= j < |now[m]| && Random(f, i, j, b) && Lands(f, i, j, b, q) ==>
      (BitOfByte(now[m][j], b) <==> WideBit(Xorshift.Output(Xorshift.Nth(seed, TakenBefore(f, m, i) + 1)), q))
  }

  lemma LandsAt(f: Fields, i: bv32, j: nat, b: bv32, q: bv32)
    requires |f.specs| == 32 && i < 32 && Covers(SpecOf(f.specs, i), j) && Lands(f, i, j, b, q)
    ensures StoredBit(j - SpecOf(f.specs, i).offset, b) == q
  {
    hide SpecOf;
  }

  lemma WordDrawn(seed: bv64, n: nat, q: bv32)
    requires q < 32
    ensures Bit(Drawn(seed)(n), q) <==> WideBit(Xorshift.Output(Xorshift.Nth(seed, n + 1)), q)
  {
    LowBit(Xorshift.Output(Xorshift.Nth(seed, n + 1)), q);
    hide Bit, WideBit, Low, Xorshift.Output, Xorshift.Nth;
  }

  lemma RandomParts(f: Fields, i: bv32, j: nat, b: bv32)
    requires |f.specs| == 32 && Random(f, i, j, b)
    ensures i < 32 && b < 8 && Covers(SpecOf(f.specs, i), j) && SymbolFor(SpecOf(f.specs, i), j, b) == 'X'
    ensures Decides(f.specs, f.active, i, j, b)
    ensures forall k: bv32 :: i < k < 32 ==> !Decides(f.specs, f.active, k, j, b)
  {
    hide Bit, Covers, SymbolFor, SpecOf;
  }

  lemma RandomDecided(sp: Spec, rnd: bv32, j: nat, b: bv32)
    requires b < 8 && Covers(sp, j) && SymbolFor(sp, j, b) == 'X'
    ensures Decided(SymbolFor(sp, j, b), false, DrawnBit(sp, rnd, j, b))
       <==> Bit(rnd, StoredBit(j - sp.offset, b))
  {
    hide Bit, SymbolFor, StoredBit;
  }

  lemma TakenBeforeIs(f: Fields, m: nat, i: bv32)
    requires |f.specs| == 32 && i < 32
    ensures TakenBefore(f, m, i) == DrawsBefore(PacketDraws(f), m) + Draws(f.specs, f.active, i)
  {
    hide DrawsBefore, PacketDraws, Draws;
  }

  /** A random bit is the bit of the number drawn at its place in the word. */
  lemma RandomBitDrawn(was: seq<seq<bv8>>, f: Fields, rnd: nat -> bv32, m: nat, i: bv32, j: nat, b: bv32)
    requires m < |was| && AllFit(f, was) && |f.specs| == 32 && j < |was[m]|
    requires Random(f, i, j, b)
    ensures i < 32 && b < 8 && Covers(SpecOf(f.specs, i), j) && |AppliedBurst(was, f, rnd)[m]| == |was[m]|
    ensures BitOfByte(AppliedBurst(was, f, rnd)[m][j], b)
       <==> Bit(rnd(TakenBefore(f, m, i)), StoredBit(j - SpecOf(f.specs, i).offset, b))
  {
    hide *;
    RandomParts(f, i, j, b);
    TakenBeforeIs(f, m, i);
    BurstBitDecided(was, f, rnd, m, j, b, i);
    RandomDecided(SpecOf(f.specs, i), rnd(TakenBefore(f, m, i)), j, b);
  }

  lemma LandsIn(f: Fields, i: bv32, j: nat, b: bv32, q: bv32)
    requires |f.specs| == 32 && i < 32 && Lands(f, i, j, b, q)
    ensures q < 32
  {
    hide SpecOf;
  }

  lemma RandomBit(was: seq<seq<bv8>>, f: Fields, seed: bv64, m: nat, i: bv32, j: nat, b: bv32, q: bv32)
    requires m < |was| && AllFit(f, was) && |f.specs| == 32 && j < |was[m]|
    requires Random(f, i, j, b) && i < 32 && Lands(f, i, j, b, q)
    ensures b < 8 && q < 32 && |AppliedBurst(was, f, Drawn(seed))[m]| == |was[m]|
    ensures BitOfByte(AppliedBurst(was, f, Drawn(seed))[m][j], b)
       <==> WideBit(Xorshift.Output(Xorshift.Nth(seed, TakenBefore(f, m, i) + 1)), q)
  {
    hide *;
    RandomBitDrawn(was, f, Drawn(seed), m, i, j, b);
    LandsIn(f, i, j, b, q);
    LandsAt(f, i, j, b, q);
    WordDrawn(seed, TakenBefore(f, m, i), q);
  }

  lemma BurstBits(was: seq<seq<bv8>>, f: Fields, seed: bv64)
    requires AllFit(f, was)
    ensures |f.specs| == 32 && BitsOfGenerator(AppliedBurst(was, f, Drawn(seed)), f, seed)
  {
    AllFitSize(f, was);
    hide AppliedBurst, AllFit, SpecOf, Covers, SymbolFor, Decides, Bit, BitOfByte, WideBit, TakenBefore, Drawn,
      Xorshift.Output, Xorshift.Nth;
    var now := AppliedBurst(was, f, Drawn(seed));
    forall m | 0 <= m < |was|
      ensures |now[m]| == |was[m]|
    {
      BurstAt(was, f, Drawn(seed), m);
    }
    forall m, i, j, b, q | 0 <= m < |now| && 0 <= j < |now[m]| && Random(f, i, j, b) && Lands(f, i, j, b, q)
      ensures i < 32 && b < 8 && q < 32
      ensures BitOfByte(now[m][j], b) <==> WideBit(Xorshift.Output(Xorshift.Nth(seed, TakenBefore(f, m, i) + 1)), q)
    {
      RandomBit(was, f, seed, m, i, j, b, q);
    }
  }

  /** Bit field `i` is the last with a say in bit `b` of byte `j`, and forces it. */
  ghost predicate Forces(f: Fields, i: bv32, j: nat, b: bv32)
    requires |f.specs| == 32
  {
    && i < 32 && b < 8
    && Decides(f.specs, f.active, i, j, b) && SymbolFor(SpecOf(f.specs, i), j, b) != 'X'
    && forall k: bv32 :: i < k < 32 ==> !Decides(f.specs, f.active, k, j, b)
  }

  ghost predicate NoSay(f: Fields, j: nat, b: bv32)
    requires |f.specs| == 32
  {
    b < 8 && forall k: bv32 :: k < 32 ==> !Decides(f.specs, f.active, k, j, b)
  }

  /** Every other bit of a burst: it is 1 or 0 as the last symbol for it says, or as it was. */
  ghost predicate BitsOfPatterns(was: seq<seq<bv8>>, now: seq<seq<bv8>>, f: Fields)
    requires |f.specs| == 32
  {
    && |now| == |was| && (forall m :: 0 <= m < |was| ==> |now[m]| == |was[m]|)
    && (forall m, i, j, b :: 0 <= m < |was| && 0 <= j < |was[m]| && Forces(f, i, j, b) ==>
          (BitOfByte(now[m][j], b) <==> SymbolFor(SpecOf(f.specs, i), j, b) == '1'))
    && (forall m, j, b :: 0 <= m < |was| && 0 <= j < |was[m]| && NoSay(f, j, b) ==>
          (BitOfByte(now[m][j], b) <==> BitOfByte(was[m][j], b)))
  }

  lemma ForcesParts(f: Fields, i: bv32, j: nat, b: bv32)
    requires |f.specs| == 32 && Forces(f, i, j, b)
    ensures i < 32 && b < 8 && Decides(f.specs, f.active, i, j, b) && SymbolFor(SpecOf(f.specs, i), j, b) != 'X'
    ensures SymbolFor(SpecOf(f.specs, i), j, b) != '.'
    ensures forall k: bv32 :: i < k < 32 ==> !Decides(f.specs, f.active, k, j, b)
  {
    hide Bit, SymbolFor, SpecOf;
  }

  lemma ForcedValue(sp: Spec, j: nat, b: bv32, drawn: bool)
    requires b < 8 && SymbolFor(sp, j, b) != 'X' && SymbolFor(sp, j, b) != '.'
    ensures Decided(SymbolFor(sp, j, b), false, drawn) <==> SymbolFor(sp, j, b) == '1'
  {
    hide Bit, Hton, NetworkBit;
  }

  lemma ForcedBit(was: seq<seq<bv8>>, f: Fields, rnd: nat -> bv32, m: nat, i: bv32, j: nat, b: bv32)
    requires m < |was| && AllFit(f, was) && |f.specs| == 32 && j < |was[m]| && Forces(f, i, j, b)
    ensures i < 32 && b < 8 && |AppliedBurst(was, f, rnd)[m]| == |was[m]|
    ensures BitOfByte(AppliedBurst(was, f, rnd)[m][j], b) <==> SymbolFor(SpecOf(f.specs, i), j, b) == '1'
  {
    hide *;
    ForcesParts(f, i, j, b);
    BurstBitDecided(was, f, rnd, m, j, b, i);
    var draw := rnd(DrawsBefore(PacketDraws(f), m) + Draws(f.specs, f.active, i));
    ForcedValue(SpecOf(f.specs, i), j, b, DrawnBit(SpecOf(f.specs, i), draw, j, b));
  }

  lemma BurstPatterns(was: seq<seq<bv8>>, f: Fields, rnd: nat -> bv32)
    requires AllFit(f, was)
    ensures |f.specs| == 32 && BitsOfPatterns(was, AppliedBurst(was, f, rnd), f)
  {
    AllFitSize(f, was);
    hide AppliedBurst, AllFit, SpecOf, Covers, SymbolFor, Decides, Bit, BitOfByte;
    var now := AppliedBurst(was, f, rnd);
    forall m | 0 <= m < |was|
      ensures |now[m]| == |was[m]|
    {
      BurstAt(was, f, rnd, m);
    }
    forall m, i, j, b | 0 <= m < |was| && 0 <= j < |was[m]| && Forces(f, i, j, b)
      ensures BitOfByte(now[m][j], b) <==> SymbolFor(SpecOf(f.specs, i), j, b) == '1'
    {
      ForcedBit(was, f, rnd, m, i, j, b);
    }
    forall m, j, b | 0 <= m < |was| && 0 <= j < |was[m]| && NoSay(f, j, b)
      ensures BitOfByte(now[m][j], b) <==> BitOfByte(was[m][j], b)
    {
      BurstBitUntouched(was, f, rnd, m, j, b);
    }
  }

  /** With no active bit field nothing changes and nothing is drawn. */
  lemma Idle(d: seq<bv8>, f: Fields, rnd: nat -> bv32, at: nat)
    requires FieldsFit(f, |d|) && f.active == 0
    ensures AppliedAll(d, f, rnd, at) == d
  {
    LeftAll(0);
    AllApplied(d, f.specs, 0, 0, 0, rnd, at);
  }

  lemma {:induction false} IdleDraws(specs: seq<Spec>, n: bv32)
    requires |specs| == 32 && n <= 32
    ensures Draws(specs, 0, n) == 0
    decreases n
  {
    if n > 0 {
      BitOfZero(n - 1);
      IdleDraws(specs, n - 1);
    }
  }

  lemma {:induction false} NoDraws(m: nat)
    ensures DrawsBefore(0, m) == 0
  {
    if m > 0 {
      NoDraws(m - 1);
    }
  }

  lemma IdleBurst(was: seq<seq<bv8>>, f: Fields, rnd: nat -> bv32)
    requires AllFit(f, was) && f.active == 0
    ensures AppliedBurst(was, f, rnd) == was
    ensures DrawsBefore(PacketDraws(f), |was|) == 0
  {
    IdleDraws(f.specs, 32);
    NoDraws(|was|);
    hide AppliedAll, FieldsFit;
    forall m | 0 <= m < |was|
      ensures AppliedAll(was[m], f, rnd, DrawsBefore(PacketDraws(f), m)) == was[m]
    {
      Idle(was[m], f, rnd, DrawsBefore(PacketDraws(f), m));
    }
  }

  lemma AllFitSize(f: Fields, was: seq<seq<bv8>>)
    requires AllFit(f, was)
    ensures |f.specs| == 32
  {
  }

  /** Every active bit field of a port lies inside a packet of `size` bytes. */
  ghost predicate Inside(f: Fields, size: nat) {
    |f.specs| == 32 && forall j: bv32 :: j < 32 && Bit(f.active, j) ==> SpecOf(f.specs, j).offset + 4 <= size
  }

  ghost predicate AllInside(f: Fields, was: seq<seq<bv8>>) {
    |f.specs| == 32 && forall m :: 0 <= m < |was| ==> Inside(f, |was[m]|)
  }

  ghost predicate Compiled(f: Fields) {
    |f.specs| == 32 && forall i :: 0 <= i < 32 ==> Disjoint(f.specs[i])
  }

  lemma InsideFits(f: Fields, size: nat)
    requires Inside(f, size) && Compiled(f)
    ensures FieldsFit(f, size)
  {
    hide Bit, Disjoint;
    forall j: bv32 | j < 32 && Bit(f.active, j)
      ensures SpecOf(f.specs, j).offset + 4 <= size && Disjoint(SpecOf(f.specs, j))
    {
      NumberBound(j);
    }
  }

  lemma AllInsideFit(f: Fields, was: seq<seq<bv8>>)
    requires AllInside(f, was) && Compiled(f)
    ensures AllFit(f, was)
  {
    hide Inside, Compiled, FieldsFit;
    forall m | 0 <= m < |was|
      ensures FieldsFit(f, |was[m]|)
    {
      InsideFits(f, |was[m]|);
    }
  }

  /** A burst through the bit fields of a port, in place; nothing is done when none is active. An
      inactive bit field may have any offset. */
  method Apply(pkts: seq<array<bv8>>, rndBits: RndBits, rng: Xorshift.Generator)
    requires forall i, j :: 0 <= i < j < |pkts| ==> pkts[i] != pkts[j]
    requires rndBits.Valid()
    requires AllInside(Fields(rndBits.specs[..], rndBits.activeSpecs), Contents(pkts))
    modifies pkts, rng
    ensures AllFit(old(Fields(rndBits.specs[..], rndBits.activeSpecs)), old(Contents(pkts)))
    ensures var f := old(Fields(rndBits.specs[..], rndBits.activeSpecs));
      && rng.state == Xorshift.Nth(old(rng.state), DrawsBefore(PacketDraws(f), |pkts|))
      && Contents(pkts) == AppliedBurst(old(Contents(pkts)), f, Drawn(old(rng.state)))
      && BitsOfGenerator(Contents(pkts), f, old(rng.state))
      && BitsOfPatterns(old(Contents(pkts)), Contents(pkts), f)
  {
    ghost var f := Fields(rndBits.specs[..], rndBits.activeSpecs);
    assert Compiled(f);
    hide AppliedBurst, PacketDraws, AllFit, AllInside, Drawn, Compiled, Disjoint, BitsOfGenerator,
      BitsOfPatterns;
    AllInsideFit(f, Contents(pkts));
    AllFitSize(f, Contents(pkts));
    BurstBits(Contents(pkts), f, rng.state);
    BurstPatterns(Contents(pkts), f, Drawn(rng.state));
    if rndBits.activeSpecs == 0 {
      IdleBurst(Contents(pkts), f, Drawn(rng.state));
      return;
    }
    ApplyToPackets(pkts, Fields(rndBits.specs[..], rndBits.activeSpecs), rng);
  }
}
