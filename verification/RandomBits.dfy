/** Random bit fields: compiling a pattern of 0, 1, '.' and X into masks, printing it back, and
    applying the active patterns to the packets of a burst.

    Bits of a word are numbered from the least significant, by numbers that are themselves
    words; a pattern is written most significant bit first. */
module RandomBits {

  import opened Bytes

  // --------------------------------------------------------------- single bits

  predicate Bit(x: bv32, k: bv32)
    requires k < 32
  {
    (x >> k) & 1 == 1
  }

  /** htonl and ntohl on a little-endian host. */
  function Hton(x: bv32): bv32 {
    (x << 24) | ((x & 0xff00) << 8) | ((x >> 8) & 0xff00) | (x >> 24)
  }

  lemma BitOfOr(x: bv32, y: bv32, k: bv32)
    requires k < 32
    ensures Bit(x | y, k) <==> Bit(x, k) || Bit(y, k)
  {
  }

  lemma BitOfNot(x: bv32, k: bv32)
    requires k < 32
    ensures Bit(!x, k) <==> !Bit(x, k)
  {
  }

  lemma BitOfShl1(x: bv32, k: bv32)
    requires k < 32
    ensures Bit(x << 1, k) <==> k > 0 && Bit(x, k - 1)
    ensures Bit((x << 1) + 1, k) <==> (k == 0 || Bit(x, k - 1))
  {
  }

  lemma BitOfShl(x: bv32, n: bv32, k: bv32)
    requires k < 32 && n < 32
    ensures Bit(x << n, k) <==> k >= n && Bit(x, k - n)
  {
  }

  lemma BitOfShr1(x: bv32, n: bv32)
    requires n < 32
    ensures (x >> n) & 1 == 1 <==> Bit(x, n)
    ensures (x >> n) >> 1 == x >> (n + 1)
  {
  }

  lemma BitOfNone(x: bv32, n: bv32, k: bv32)
    requires n <= k < 32
    requires x >> n == 0
    ensures !Bit(x, k)
  {
  }

  lemma BitOfZero(k: bv32)
    requires k < 32
    ensures !Bit(0, k)
  {
  }

  lemma BitByMask(x: bv32, k: bv32)
    requires k < 32
    ensures x & (1 << k) != 0 <==> Bit(x, k)
  {
  }

  lemma HtonInvolutive(x: bv32)
    ensures Hton(Hton(x)) == x
  {
  }

  /** Bit `k` in network order is bit `k ^ 24` of the word in memory: the byte number, held in
      bits 3 and 4 of `k`, is reversed. */
  lemma BitOfHton(x: bv32, k: bv32)
    requires k < 32
    ensures Bit(Hton(x), k) <==> Bit(x, k ^ 24)
  {
  }

  // ------------------------------------------------------- bit numbers as integers

  lemma NumberOrder(k: bv32, n: bv32)
    requires k <= 32 && n <= 32
    ensures k < n <==> k as int < n as int
  {
  }

  lemma NumberBound(k: bv32)
    requires k < 32
    ensures k as int < 32
  {
  }

  lemma NumberNext(k: bv32)
    requires k < 32
    ensures (k + 1) as int == k as int + 1
  {
  }

  lemma NumberAsWord(n: nat)
    requires n <= 32
    ensures (n as bv32) as int == n
  {
  }

  lemma NumberWithin(k: bv32)
    ensures k as int <= 32 ==> k <= 32
  {
  }

  lemma NumberOf(n: nat)
    requires n <= 32
    ensures (n as bv32) as int == n && n as bv32 <= 32
  {
    NumberAsWord(n);
    NumberWithin(n as bv32);
  }

  // ------------------------------------------------------------ patterns and masks

  /** Both letters mean a random bit. */
  function Upper(c: char): char {
    if c == 'x' then 'X' else c
  }

  /** Character `j` of a pattern; past the end every bit is ignored. */
  function At(text: string, j: bv32): char {
    if j as int < |text| then Upper(text[j as int]) else '.'
  }

  predicate IsSymbol(c: char) {
    c == '0' || c == '1' || c == '.' || c == 'X'
  }

  /** The patterns that set a bit field, rather than clear it or be refused. */
  ghost predicate Accepted(text: string) {
    && 0 < |text| <= 32
    && forall j: bv32 :: j as int < |text| ==> IsSymbol(At(text, j))
  }

  /** The bits of `m` are the places of the symbol `c` among the first `n` characters. */
  ghost predicate Marks(m: bv32, text: string, n: bv32, c: char) {
    forall k: bv32 :: k < 32 ==> (Bit(m, k) <==> k < n && At(text, n - 1 - k) == c)
  }

  lemma NothingMarked(text: string, c: char)
    ensures Marks(0, text, 0, c)
  {
    forall k: bv32 | k < 32
      ensures !Bit(0, k)
    {
      BitOfZero(k);
    }
  }

  /** A mask with one more bit shifted in on the right. */
  function Pushed(m: bv32, b: bool): bv32 {
    if b then (m << 1) + 1 else m << 1
  }

  lemma BitOfPushed(m: bv32, b: bool, k: bv32)
    requires k < 32
    ensures Bit(Pushed(m, b), k) <==> if k == 0 then b else Bit(m, k - 1)
  {
    BitOfShl1(m, k);
  }

  lemma IndexNext(n: bv32, k: bv32)
    requires n < 32 && k < 32
    ensures k == 0 ==> n + 1 - 1 - k == n && k < n + 1
    ensures k > 0 ==> k - 1 < 32 && n - 1 - (k - 1) == n + 1 - 1 - k && (k - 1 < n <==> k < n + 1)
  {
  }

  lemma MarkNextBit(m: bv32, text: string, n: bv32, c: char, k: bv32)
    requires n < 32 && k < 32
    requires k > 0 ==> k - 1 < 32 && (Bit(m, k - 1) <==> k - 1 < n && At(text, n - 1 - (k - 1)) == c)
    ensures Bit(Pushed(m, At(text, n) == c), k) <==> k < n + 1 && At(text, n + 1 - 1 - k) == c
  {
    hide *;
    BitOfPushed(m, At(text, n) == c, k);
    IndexNext(n, k);
  }

  lemma MarkNext(m: bv32, text: string, n: bv32, c: char)
    requires n < 32
    requires Marks(m, text, n, c)
    ensures Marks(Pushed(m, At(text, n) == c), text, n + 1, c)
  {
    hide Bit, At, Pushed;
    var m' := Pushed(m, At(text, n) == c);
    forall k: bv32 | k < 32
      ensures Bit(m', k) <==> k < n + 1 && At(text, n + 1 - 1 - k) == c
    {
      IndexNext(n, k);
      MarkNextBit(m, text, n, c, k);
    }
  }

  lemma IndexPadded(n: bv32, pad: bv32, k: bv32)
    requires 0 < n <= 32 && k < 32 && pad == 32 - n
    ensures pad < 32 && 31 - k <= 32
    ensures k >= pad ==> n - 1 - (k - pad) == 31 - k && k - pad < n && k - pad < 32
    ensures k < pad ==> 31 - k >= n
  {
  }

  lemma PastTheEnd(text: string, n: bv32, j: bv32)
    requires n <= 32 && n as int == |text| && n <= j <= 32
    ensures At(text, j) == '.'
  {
    NumberOrder(j, n);
  }

  lemma MarkedBit(m: bv32, text: string, n: bv32, c: char, j: bv32)
    requires j < 32 && Marks(m, text, n, c)
    ensures Bit(m, j) <==> j < n && At(text, n - 1 - j) == c
  {
  }

  function Raised(m: bv32, pad: bv32): bv32
    requires pad < 32
  {
    m << pad
  }

  lemma BitOfRaised(m: bv32, pad: bv32, k: bv32)
    requires k < 32 && pad < 32
    ensures Bit(Raised(m, pad), k) <==> k >= pad && Bit(m, k - pad)
  {
    BitOfShl(m, pad, k);
  }

  /** Moved to the top of the word, the mask marks the whole padded pattern. */
  lemma MarkPadded(m: bv32, text: string, n: bv32, c: char, pad: bv32, k: bv32)
    requires 0 < n <= 32 && n as int == |text| && k < 32 && pad < 32 && c != '.'
    requires pad == 32 - n && Marks(m, text, n, c)
    ensures Bit(Raised(m, pad), k) <==> At(text, 31 - k) == c
  {
    hide *;
    IndexPadded(n, pad, k);
    if k >= pad {
      MarkedBit(m, text, n, c, k - pad);
    } else {
      PastTheEnd(text, n, 31 - k);
    }
    BitOfRaised(m, pad, k);
  }

  /** One bit field: the word at byte `offset` of a packet, and what happens to its bits. */
  datatype Spec = Spec(offset: byte, andMask: bv32, orMask: bv32, rndMask: bv32)

  /** The symbol a bit field shows for bit `k`, as it is printed. */
  function SymbolAt(sp: Spec, k: bv32): char
    requires k < 32
  {
    if Bit(Hton(sp.rndMask), k) then 'X'
    else if !Bit(Hton(sp.andMask), k) then '0'
    else if Bit(Hton(sp.orMask), k) then '1'
    else '.'
  }

  /** The bits cleared, set and drawn at random are disjoint, and a bit is drawn only
      after it has been cleared. */
  ghost predicate Disjoint(sp: Spec) {
    && sp.orMask & sp.rndMask == 0
    && sp.andMask & sp.rndMask == 0
    && sp.orMask & !sp.andMask == 0
  }

  function Assembled(offset: byte, zero: bv32, one: bv32, rnd: bv32): Spec {
    Spec(offset, Hton(!(zero | rnd)), Hton(one), Hton(rnd))
  }

  lemma HtonOfNot(x: bv32)
    ensures Hton(!x) == !Hton(x)
  {
  }

  lemma HtonOfAnd(x: bv32, y: bv32)
    ensures Hton(x & y) == Hton(x) & Hton(y)
  {
  }

  lemma AssembledDisjoint(offset: byte, zero: bv32, one: bv32, rnd: bv32)
    requires zero & one == 0 && zero & rnd == 0 && one & rnd == 0
    ensures Disjoint(Assembled(offset, zero, one, rnd))
  {
    assert one & !!(zero | rnd) == 0;
    assert !(zero | rnd) & rnd == 0;
    assert Hton(0) == 0;
    hide Hton;
    HtonOfAnd(one, rnd);
    HtonOfAnd(!(zero | rnd), rnd);
    HtonOfAnd(one, !!(zero | rnd));
    HtonOfNot(!(zero | rnd));
  }

  /** The round trip of one bit: the symbol printed is the symbol compiled. */
  lemma AssembledSymbol(offset: byte, zero: bv32, one: bv32, rnd: bv32, k: bv32, c: char)
    requires k < 32 && IsSymbol(c)
    requires Bit(zero, k) <==> c == '0'
    requires Bit(one, k) <==> c == '1'
    requires Bit(rnd, k) <==> c == 'X'
    ensures SymbolAt(Assembled(offset, zero, one, rnd), k) == c
  {
    hide Bit, Hton;
    HtonInvolutive(!(zero | rnd));
    HtonInvolutive(one);
    HtonInvolutive(rnd);
    BitOfOr(zero, rnd, k);
    BitOfNot(zero | rnd, k);
  }

  ghost predicate Apart(x: bv32, y: bv32) {
    x & y == 0
  }

  lemma PushedFalse(m: bv32)
    ensures Pushed(m, false) == m << 1
  {
  }

  lemma PushedTrue(m: bv32)
    ensures Pushed(m, true) == (m << 1) + 1
  {
  }

  lemma PushedApart(x: bv32, y: bv32, b: bool, c: bool)
    requires Apart(x, y) && !(b && c)
    ensures Apart(Pushed(x, b), Pushed(y, c))
  {
  }

  lemma RaisedApart(x: bv32, y: bv32, pad: bv32)
    requires Apart(x, y) && pad < 32
    ensures Apart(Raised(x, pad), Raised(y, pad))
  {
  }

  /** The three masks after `n` characters. */
  ghost predicate Scanned(zero: bv32, one: bv32, rnd: bv32, text: string, n: bv32) {
    && Marks(zero, text, n, '0') && Marks(one, text, n, '1') && Marks(rnd, text, n, 'X')
    && Apart(zero, one) && Apart(zero, rnd) && Apart(one, rnd)
  }

  lemma ScannedNothing(text: string)
    ensures Scanned(0, 0, 0, text, 0)
  {
    NothingMarked(text, '0');
    NothingMarked(text, '1');
    NothingMarked(text, 'X');
  }

  lemma ScannedNext(zero: bv32, one: bv32, rnd: bv32, text: string, n: bv32)
    requires n < 32 && Scanned(zero, one, rnd, text, n)
    ensures var c := At(text, n);
      Scanned(Pushed(zero, c == '0'), Pushed(one, c == '1'), Pushed(rnd, c == 'X'), text, n + 1)
  {
    var c := At(text, n);
    hide Marks, Apart, Pushed, At;
    MarkNext(zero, text, n, '0');
    MarkNext(one, text, n, '1');
    MarkNext(rnd, text, n, 'X');
    PushedApart(zero, one, c == '0', c == '1');
    PushedApart(zero, rnd, c == '0', c == 'X');
    PushedApart(one, rnd, c == '1', c == 'X');
  }

  /** One character of the pattern: each mask moves left, and one of them may get a new bit. */
  method ShiftIn(c: char, mask0: bv32, mask1: bv32, maskRnd: bv32)
    returns (ok: bool, zero: bv32, one: bv32, rnd: bv32)
    ensures ok <==> IsSymbol(Upper(c))
    ensures ok ==> zero == Pushed(mask0, Upper(c) == '0')
    ensures ok ==> one == Pushed(mask1, Upper(c) == '1')
    ensures ok ==> rnd == Pushed(maskRnd, Upper(c) == 'X')
  {
    hide Pushed;
    zero, one, rnd := mask0 << 1, mask1 << 1, maskRnd << 1;
    ghost var zero0, one0, rnd0 := zero, one, rnd;
    assert zero0 == Pushed(mask0, false) && one0 == Pushed(mask1, false) && rnd0 == Pushed(maskRnd, false) by {
      PushedFalse(mask0);
      PushedFalse(mask1);
      PushedFalse(maskRnd);
    }
    ok := true;
    if c == '0' {
      PushedTrue(mask0);
      zero := zero + 1;
    } else if c == '1' {
      PushedTrue(mask1);
      one := one + 1;
    } else if c == 'x' || c == 'X' {
      PushedTrue(maskRnd);
      rnd := rnd + 1;
    } else if c != '.' {
      ok := false;
    }
  }

  ghost predicate Known(text: string, n: bv32) {
    forall j: bv32 :: j < n ==> IsSymbol(At(text, j))
  }

  lemma KnownNothing(text: string)
    ensures Known(text, 0)
  {
  }

  lemma KnownNext(text: string, n: bv32)
    requires n < 32 && Known(text, n) && IsSymbol(At(text, n))
    ensures Known(text, n + 1)
  {
    forall j: bv32 | j < n + 1
      ensures IsSymbol(At(text, j))
    {
      if j != n {
        assert j < n;
      }
    }
  }

  lemma AllKnown(text: string, n: bv32)
    requires 0 < |text| <= 32 && n <= 32 && n as int == |text| && Known(text, n)
    ensures Accepted(text)
  {
    forall j: bv32 | j as int < |text|
      ensures IsSymbol(At(text, j))
    {
      BelowLimit(j, n);
    }
  }

  lemma BelowLimit(j: bv32, n: bv32)
    requires n <= 32 && j as int < n as int
    ensures j < n
  {
  }

  lemma Unknown(text: string, j: bv32)
    requires j as int < |text| && !IsSymbol(At(text, j))
    ensures !Accepted(text)
  {
  }

  lemma CharAt(text: string, j: bv32)
    requires j as int < |text|
    ensures At(text, j) == Upper(text[j as int])
  {
  }

  /** Scanning a pattern from left to right; the first unknown character refuses it. The length
      is returned as a word. */
  method ScanMask(mask: string) returns (ok: bool, maskLen: bv32, zero: bv32, one: bv32, rnd: bv32)
    requires 0 < |mask| <= 32
    ensures ok <==> Accepted(mask)
    ensures ok ==> 0 < maskLen <= 32 && maskLen as int == |mask|
    ensures ok ==> Scanned(zero, one, rnd, mask, maskLen)
  {
    hide *;
    ScannedNothing(mask);
    KnownNothing(mask);
    maskLen, zero, one, rnd := 0, 0, 0, 0;
    while maskLen as int < |mask|
      invariant maskLen <= 32 && maskLen as int <= |mask|
      invariant Scanned(zero, one, rnd, mask, maskLen)
      invariant Known(mask, maskLen)
      decreases |mask| - maskLen as int
    {
      NumberOrder(maskLen, 32);
      NumberNext(maskLen);
      CharAt(mask, maskLen);
      ScannedNext(zero, one, rnd, mask, maskLen);
      ok, zero, one, rnd := ShiftIn(mask[maskLen as int], zero, one, rnd);
      if !ok {
        Unknown(mask, maskLen);
        return;
      }
      KnownNext(mask, maskLen);
      maskLen := maskLen + 1;
    }
    ok := true;
    AllKnown(mask, maskLen);
  }

  // ---------------------------------------------------------------- printing

  lemma NumberBack(k: bv32)
    requires k < 32
    ensures k as int < 32 && (k as int) as bv32 == k
  {
  }

  /** The bit number of character `i` of a printed pattern. */
  function BitOfChar(i: nat): (k: bv32)
    requires i < 32
    ensures k < 32
  {
    NumberOf(i);
    Mirrored(i as bv32);
    31 - i as bv32
  }

  lemma Mirrored(k: bv32)
    requires k < 32
    ensures 31 - k < 32 && 31 - (31 - k) == k
  {
  }

  /** A bit field as it is shown, most significant bit first. */
  function Printed(sp: Spec): (p: string)
    ensures |p| == 32
  {
    seq(32, i requires 0 <= i < 32 => SymbolAt(sp, BitOfChar(i)))
  }

  /** A pattern with its letters in upper case, padded to 32 characters with '.'. */
  function Padded(text: string): string {
    seq(32, i requires 0 <= i < 32 => if i < |text| then Upper(text[i]) else '.')
  }

  ghost predicate Shows(sp: Spec, text: string) {
    forall k: bv32 :: k < 32 ==> SymbolAt(sp, k) == At(text, 31 - k)
  }

  lemma PaddedAt(text: string, i: nat)
    requires i < 32
    ensures Padded(text)[i] == At(text, 31 - BitOfChar(i))
  {
    NumberOf(i);
    Mirrored(i as bv32);
  }

  /** Print after compile: the pattern comes back, in upper case and padded. */
  lemma PrintedPattern(sp: Spec, text: string)
    requires Shows(sp, text)
    ensures Printed(sp) == Padded(text)
  {
    hide SymbolAt, At, BitOfChar, Upper;
    forall i | 0 <= i < 32
      ensures Printed(sp)[i] == Padded(text)[i]
    {
      PaddedAt(text, i);
    }
  }

  lemma PrintedAt(sp: Spec, k: bv32)
    requires k < 32
    ensures k as int < 32 && Printed(sp)[k as int] == SymbolAt(sp, 31 - k)
  {
    NumberBack(k);
    hide SymbolAt;
  }

  /** The printer: one character per bit, from the most significant; a random bit is looked for
      first, because its bit of the and-mask is also 0. */
  method ConvertBitfield(bf: Spec) returns (p: string)
    ensures p == Printed(bf)
  {
    hide *;
    p := [];
    var i: bv32 := 0;
    while i < 32
      invariant i <= 32 && |p| == i as int
      invariant |p| <= 32 && p == Printed(bf)[..|p|]
      decreases 32 - i
    {
      NumberOrder(i, 32);
      NumberNext(i);
      PrintedAt(bf, i);
      var c := CharOfBit(bf, i);
      p := p + [c];
      i := i + 1;
    }
    NumberOrder(i, 32);
  }

  method CharOfBit(bf: Spec, i: bv32) returns (c: char)
    requires i < 32
    ensures c == SymbolAt(bf, 31 - i)
  {
    Mirrored(i);
    var mask := 1 << (31 - i);
    BitByMask(Hton(bf.rndMask), 31 - i);
    BitByMask(Hton(bf.andMask), 31 - i);
    BitByMask(Hton(bf.orMask), 31 - i);
    hide Hton, Bit;
    c := if Hton(bf.rndMask) & mask != 0 then 'X'
         else if Hton(bf.andMask) & mask == 0 then '0'
         else if Hton(bf.orMask) & mask != 0 then '1'
         else '.';
  }

  // ------------------------------------------------------------ the bit fields of a port

  /** A set of slot numbers, as the word of their bits. */
  function With(a: bv32, idx: bv32): bv32
    requires idx < 32
  {
    a | (1 << idx)
  }

  function Without(a: bv32, idx: bv32): bv32
    requires idx < 32
  {
    a & !(1 << idx)
  }

  lemma BitSet(a: bv32, idx: bv32, j: bv32)
    requires idx < 32 && j < 32
    ensures Bit(With(a, idx), j) <==> Bit(a, j) || j == idx
  {
  }

  lemma BitCleared(a: bv32, idx: bv32, j: bv32)
    requires idx < 32 && j < 32
    ensures Bit(Without(a, idx), j) <==> Bit(a, j) && j != idx
  {
  }

  lemma BitOfWith(a: bv32, idx: bv32)
    requires idx < 32
    ensures forall j: bv32 :: j < 32 ==> (Bit(With(a, idx), j) <==> Bit(a, j) || j == idx)
  {
    hide *;
    forall j: bv32 | j < 32
      ensures Bit(With(a, idx), j) <==> Bit(a, j) || j == idx
    {
      BitSet(a, idx, j);
    }
  }

  lemma BitOfWithout(a: bv32, idx: bv32)
    requires idx < 32
    ensures forall j: bv32 :: j < 32 ==> (Bit(Without(a, idx), j) <==> Bit(a, j) && j != idx)
  {
    hide *;
    forall j: bv32 | j < 32
      ensures Bit(Without(a, idx), j) <==> Bit(a, j) && j != idx
    {
      BitCleared(a, idx, j);
    }
  }

  lemma CompiledShows(text: string, n: bv32, offset: byte, mask0: bv32, mask1: bv32, maskRnd: bv32, pad: bv32)
    requires Accepted(text) && 0 < n <= 32 && n as int == |text| && pad == 32 - n && pad < 32
    requires Scanned(mask0, mask1, maskRnd, text, n)
    ensures Shows(Assembled(offset, Raised(mask0, pad), Raised(mask1, pad), Raised(maskRnd, pad)), text)
    ensures Disjoint(Assembled(offset, Raised(mask0, pad), Raised(mask1, pad), Raised(maskRnd, pad)))
  {
    hide *;
    var z, o, r := Raised(mask0, pad), Raised(mask1, pad), Raised(maskRnd, pad);
    ScannedParts(mask0, mask1, maskRnd, text, n);
    forall k: bv32 | k < 32
      ensures SymbolAt(Assembled(offset, z, o, r), k) == At(text, 31 - k)
    {
      MarkPadded(mask0, text, n, '0', pad, k);
      MarkPadded(mask1, text, n, '1', pad, k);
      MarkPadded(maskRnd, text, n, 'X', pad, k);
      SymbolAccepted(text, 31 - k);
      AssembledSymbol(offset, z, o, r, k, At(text, 31 - k));
    }
    ShowsAll(Assembled(offset, z, o, r), text);
    RaisedApart(mask0, mask1, pad);
    RaisedApart(mask0, maskRnd, pad);
    RaisedApart(mask1, maskRnd, pad);
    AssembledDisjoint(offset, z, o, r);
  }

  lemma ScannedParts(zero: bv32, one: bv32, rnd: bv32, text: string, n: bv32)
    requires Scanned(zero, one, rnd, text, n)
    ensures Marks(zero, text, n, '0') && Marks(one, text, n, '1') && Marks(rnd, text, n, 'X')
    ensures Apart(zero, one) && Apart(zero, rnd) && Apart(one, rnd)
  {
  }

  lemma SymbolAccepted(text: string, j: bv32)
    requires Accepted(text)
    ensures IsSymbol(At(text, j))
  {
  }

  lemma ShowsAll(sp: Spec, text: string)
    requires forall k: bv32 :: k < 32 ==> SymbolAt(sp, k) == At(text, 31 - k)
    ensures Shows(sp, text)
  {
  }

  lemma RaisedOf(m: bv32, pad: bv32)
    requires pad < 32
    ensures Raised(m, pad) == m << pad
  {
  }

  lemma AssembledOf(offset: byte, zero: bv32, one: bv32, rnd: bv32)
    ensures Assembled(offset, zero, one, rnd) == Spec(offset, Hton(!(zero | rnd)), Hton(one), Hton(rnd))
  {
  }

  lemma PadLength(n: bv32)
    requires 0 < n <= 32
    ensures 32 - n < 32
  {
  }

  /** Compiling a pattern: the three masks are moved to the top of the word, so that they start
      at the offset, and stored in network order. */
  method CompileMask(offset: byte, mask: string) returns (ok: bool, sp: Spec)
    requires 0 < |mask| <= 32
    ensures ok <==> Accepted(mask)
    ensures ok ==> sp.offset == offset && Disjoint(sp) && Printed(sp) == Padded(mask)
  {
    hide *;
    sp := Spec(offset, 0, 0, 0);
    var maskLen, mask0, mask1, maskRnd;
    ok, maskLen, mask0, mask1, maskRnd := ScanMask(mask);
    if ok {
      PadLength(maskLen);
      var padLen := 32 - maskLen;
      CompiledShows(mask, maskLen, offset, mask0, mask1, maskRnd, padLen);
      RaisedOf(mask0, padLen);
      RaisedOf(mask1, padLen);
      RaisedOf(maskRnd, padLen);
      mask0 := mask0 << padLen;
      mask1 := mask1 << padLen;
      maskRnd := maskRnd << padLen;
      AssembledOf(offset, mask0, mask1, maskRnd);
      sp := Spec(offset, Hton(!(mask0 | maskRnd)), Hton(mask1), Hton(maskRnd));
      PrintedPattern(sp, mask);
    }
  }

  class RndBits {
    var activeSpecs: bv32
    const specs: array<Spec>

    ghost predicate Valid()
      reads this, specs
    {
      && specs.Length == 32
      && forall i :: 0 <= i < 32 ==> Disjoint(specs[i])
    }

    ghost predicate Active(j: bv32)
      requires j < 32
      reads this
    {
      Bit(activeSpecs, j)
    }

    /** All masks zero and no bit field active. */
    constructor ()
      ensures Valid() && fresh(specs)
      ensures forall j: bv32 :: j < 32 ==> !Active(j)
    {
      activeSpecs := 0;
      specs := new Spec[32](i => Spec(0, 0, 0, 0));
      new;
      forall j: bv32 | j < 32
        ensures !Active(j)
      {
        BitOfZero(j);
      }
    }

    /** Set, clear (empty pattern) or leave alone (refused pattern) bit field `idx`. */
    method SetRandomBitfield(idx: bv32, offset: byte, mask: string) returns (active: bv32)
      requires Valid()
      modifies this, specs
      ensures Valid() && active == activeSpecs
      ensures forall j: bv32 :: j < 32 ==>
        (Active(j) <==> if j == idx && mask == "" then false
                        else old(Active(j)) || (j == idx && Accepted(mask)))
      ensures idx < 32 && Accepted(mask) ==>
        var sp := specs[idx as int];
        && specs[..] == old(specs[..])[idx as int := sp]
        && sp.offset == offset && Printed(sp) == Padded(mask)
      ensures idx >= 32 || !Accepted(mask) ==> specs[..] == old(specs[..])
    {
      assert |mask| > 32 || |mask| == 0 ==> !Accepted(mask);
      hide Bit, With, Without, Disjoint, Accepted, Printed, Padded;
      if idx >= 32 {
        return activeSpecs;
      }
      if |mask| > 32 {
        return activeSpecs;
      }
      ghost var was := activeSpecs;
      if |mask| == 0 {
        activeSpecs := Without(activeSpecs, idx);
        BitOfWithout(was, idx);
        return activeSpecs;
      }
      var ok, sp := CompileMask(offset, mask);
      if !ok {
        return activeSpecs;
      }
      activeSpecs := With(activeSpecs, idx);
      BitOfWith(was, idx);
      NumberBound(idx);
      specs[idx as int] := sp;
      return activeSpecs;
    }
  }
}
