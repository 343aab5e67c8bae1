/** The Internet checksum (RFC 1071, section 1) as the test generator computes it. */
module Checksum {

  import opened Bytes

  /** Two bytes as a big-endian word. */
  function Word(high: byte, low: byte): uint16 {
    0x100 * high as int + low as int
  }

  /** The sum of the big-endian 16-bit words, an odd last byte being padded with zero. */
  function WordSum(data: seq<byte>): nat {
    if |data| == 0 then 0
    else if |data| == 1 then Word(data[0], 0)
    else Word(data[0], data[1]) + WordSum(data[2..])
  }

  /** The one's-complement value of a sum: its remainder by 65535, but only zero gives 0. */
  function OnesComplement(n: nat): (r: nat)
    ensures r < 0x1_0000
    ensures r == 0 <==> n == 0
  {
    if n == 0 then 0 else (n - 1) % 0xFFFF + 1
  }

  function Checksum16(data: seq<byte>): uint16 {
    0xFFFF - OnesComplement(WordSum(data))
  }

  /** Adding a word and folding the carry back in. */
  function Fold(total: uint16, word: uint16): nat {
    (total as int + word) % 0x1_0000 + (total as int + word) / 0x1_0000
  }

  lemma Congruent(n: nat)
    ensures OnesComplement(n) % 0xFFFF == n % 0xFFFF
  {
  }

  /** The fold keeps sixteen bits and adds modulo 65535. */
  lemma FoldAdds(n: nat, word: uint16)
    ensures Fold(OnesComplement(n), word) == OnesComplement(n + word)
  {
    var t := OnesComplement(n);
    if n > 0 {
      var q, r := (n - 1) / 0xFFFF, (n - 1) % 0xFFFF;
      assert n - 1 == 0xFFFF * q + r;
      if r + word < 0xFFFF {
        Remainder(q, r + word);
      } else {
        Remainder(q + 1, r + word - 0xFFFF);
      }
    }
  }

  lemma Remainder(q: nat, r: nat)
    requires r < 0xFFFF
    ensures (0xFFFF * q + r) % 0xFFFF == r
  {
  }

  lemma {:induction false} WordSumAppend(a: seq<byte>, b: seq<byte>)
    requires |a| % 2 == 0
    ensures WordSum(a + b) == WordSum(a) + WordSum(b)
  {
    if a == [] {
      assert a + b == b;
    } else {
      assert (a + b)[2..] == a[2..] + b;
      WordSumAppend(a[2..], b);
    }
  }

  lemma PaddedSum(data: seq<byte>)
    requires |data| % 2 == 1
    ensures WordSum(data + [0]) == WordSum(data)
  {
    var n := |data| - 1;
    assert data == data[..n] + [data[n]];
    assert data + [0] == data[..n] + [data[n], 0];
    WordSumAppend(data[..n], [data[n]]);
    WordSumAppend(data[..n], [data[n], 0]);
    assert [data[n], 0][2..] == [];
  }

  lemma NextWord(data: seq<byte>, i: nat)
    requires i % 2 == 0 && i + 2 <= |data|
    ensures WordSum(data[..i + 2]) == WordSum(data[..i]) + Word(data[i], data[i + 1])
  {
    assert data[..i + 2] == data[..i] + [data[i], data[i + 1]];
    WordSumAppend(data[..i], [data[i], data[i + 1]]);
    assert [data[i], data[i + 1]][2..] == [];
  }

  /** The loop of the generator: pad, then add and fold word by word, and complement. */
  method ComputeChecksum16(data: seq<byte>) returns (r: uint16)
    ensures r == Checksum16(data)
  {
    hide WordSum, OnesComplement;
    var d := data;
    if |data| % 2 != 0 {
      d := data + [0];
      PaddedSum(data);
    }
    Nothing();
    var total: uint16 := 0;
    var i := 0;
    while i < |d|
      invariant i % 2 == 0 && i <= |d| && |d| % 2 == 0
      invariant WordSum(d) == WordSum(data)
      invariant total == OnesComplement(WordSum(d[..i]))
    {
      NextWord(d, i);
      FoldAdds(WordSum(d[..i]), Word(d[i], d[i + 1]));
      total := Fold(total, Word(d[i], d[i + 1]));
      i := i + 2;
    }
    assert d[..i] == d;
    r := 0xFFFF - total;
  }

  lemma Nothing()
    ensures OnesComplement(WordSum([])) == 0
  {
  }

  // ----------------------------------------------------------- what a checksum means

  /** Data verifies: its sum is a multiple of 65535, and not every byte is zero. */
  ghost predicate Verifies(data: seq<byte>) {
    Checksum16(data) == 0
  }

  lemma VerifiesIff(data: seq<byte>)
    ensures Verifies(data) <==> WordSum(data) > 0 && WordSum(data) % 0xFFFF == 0
  {
    Multiple(WordSum(data));
  }

  lemma Multiple(n: nat)
    ensures OnesComplement(n) == 0xFFFF <==> n > 0 && n % 0xFFFF == 0
  {
    Congruent(n);
  }

  /** What goes into the checksum field: the complement, or all ones instead of zero. */
  ghost predicate Fits(c: uint16, data: seq<byte>) {
    c == Checksum16(data) || (c == 0xFFFF && Checksum16(data) == 0)
  }

  /** The sum with a 16-bit field at an even offset. */
  lemma FieldSum(before: seq<byte>, c: uint16, after: seq<byte>)
    requires |before| % 2 == 0
    ensures WordSum(before + ToBe16(c) + after) == WordSum(before) + WordSum(after) + c
  {
    var field := ToBe16(c);
    WordSumAppend(before + field, after);
    WordSumAppend(before, field);
    assert field[2..] == [];
    assert Word(field[0], field[1]) == c;
  }

  /** Inserting the checksum of a message into a 16-bit field of it that was zero, at an even
      offset, makes the message verify. */
  lemma Inserted(before: seq<byte>, after: seq<byte>, c: uint16)
    requires |before| % 2 == 0
    requires Fits(c, before + ToBe16(0) + after)
    ensures Verifies(before + ToBe16(c) + after)
  {
    hide WordSum, OnesComplement, ToBe16, Verifies;
    FieldSum(before, 0, after);
    FieldSum(before, c, after);
    VerifiesIff(before + ToBe16(c) + after);
    Completed(WordSum(before) + WordSum(after), c);
  }

  lemma Completed(n: nat, c: uint16)
    requires c == 0xFFFF - OnesComplement(n) || (c == 0xFFFF && OnesComplement(n) == 0xFFFF)
    ensures n + c > 0 && (n + c) % 0xFFFF == 0
  {
    Congruent(n);
  }

  /** Error detection: when one 16-bit word of a message that verifies is replaced by another, it
      verifies no more, except when 0 and 0xFFFF were exchanged and the rest is not all zero. */
  lemma WordReplaced(before: seq<byte>, after: seq<byte>, w: uint16, v: uint16)
    requires |before| % 2 == 0 && w != v
    requires Verifies(before + ToBe16(w) + after)
    ensures Verifies(before + ToBe16(v) + after) <==>
      (w == 0 && v == 0xFFFF) || (w == 0xFFFF && v == 0 && WordSum(before) + WordSum(after) > 0)
  {
    hide *;
    FieldSum(before, w, after);
    FieldSum(before, v, after);
    VerifiesIff(before + ToBe16(w) + after);
    VerifiesIff(before + ToBe16(v) + after);
    Residues(WordSum(before) + WordSum(after), w, v);
  }

  lemma Residues(n: nat, w: uint16, v: uint16)
    requires w != v && (n + w) % 0xFFFF == 0 && n + w > 0
    ensures n + v > 0 && (n + v) % 0xFFFF == 0 <==> (w == 0 && v == 0xFFFF) || (w == 0xFFFF && v == 0 && n > 0)
  {
    var q := (n + w) / 0xFFFF;
    assert n + w == 0xFFFF * q;
    var p := (n + v) / 0xFFFF;
    assert n + v == 0xFFFF * p + (n + v) % 0xFFFF;
  }
}
