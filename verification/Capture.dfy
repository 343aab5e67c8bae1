/** The packet capture arena: a memory zone filled as a log of records and scanned back when
    capturing stops. */
module Capture {
  import opened Bytes

  const HDR := 12          // offsetof(cap_hdr_t, pkt): 64-bit time, two 16-bit lengths
  const SIZEOF_CAP_HDR := 16
  const PKT_LEN_AT := 8
  const DATA_LEN_AT := 10

  /** A received buffer: its data room and the two lengths of its mbuf. */
  datatype Mbuf = Mbuf(room: seq<byte>, dataLen: uint16, pktLen: uint32)

  /** One record of the log. */
  datatype Record = Record(tstamp: uint64, pktLen: uint16, data: seq<byte>)

  /** A zero length is taken as 128. */
  function DataLen(m: Mbuf): uint16 {
    if m.dataLen == 0 then 128 else m.dataLen
  }

  function StoredPktLen(m: Mbuf): uint16 {
    (if m.pktLen == 0 then 128 else m.pktLen) % 0x1_0000
  }

  /** The data room holds what is copied out of it: the data, or 128 bytes when there is none. */
  ghost predicate Roomy(m: Mbuf) {
    (m.dataLen > 0 ==> m.dataLen <= |m.room|) && (m.dataLen == 0 ==> 128 <= |m.room|)
  }

  ghost predicate Readable(ms: seq<Mbuf>) {
    forall i :: 0 <= i < |ms| ==> Roomy(ms[i])
  }

  function RecordOf(m: Mbuf, now: uint64): Record
    requires DataLen(m) <= |m.room|
  {
    Record(now, StoredPktLen(m), m.room[..DataLen(m)])
  }

  function Encode(r: Record): (b: seq<byte>)
    requires |r.data| < 0x1_0000
    ensures |b| == HDR + |r.data|
  {
    ToLe64(r.tstamp) + ToLe16(r.pktLen) + ToLe16(|r.data|) + r.data
  }

  ghost predicate Encodable(rs: seq<Record>) {
    forall i :: 0 <= i < |rs| ==> |rs[i].data| < 0x1_0000
  }

  ghost function EncodeAll(rs: seq<Record>): seq<byte>
    requires Encodable(rs)
  {
    if rs == [] then [] else EncodeAll(rs[..|rs| - 1]) + Encode(rs[|rs| - 1])
  }

  /** The bytes of all records, headers included. */
  ghost function LogBytes(rs: seq<Record>): nat {
    if rs == [] then 0 else LogBytes(rs[..|rs| - 1]) + HDR + |rs[|rs| - 1].data|
  }

  /** `used` counts exactly the bytes of the records captured. */
  lemma {:induction false} UsedIsSum(rs: seq<Record>)
    requires Encodable(rs)
    ensures |EncodeAll(rs)| == LogBytes(rs)
  {
    if rs != [] {
      UsedIsSum(rs[..|rs| - 1]);
    }
  }

  /** How many of a burst go in before the first that does not fit. */
  function Accepted(ms: seq<Mbuf>, room: nat): (k: nat)
    ensures k <= |ms|
  {
    if ms == [] || HDR + DataLen(ms[0]) > room then 0
    else 1 + Accepted(ms[1..], room - (HDR + DataLen(ms[0])))
  }

  ghost function RecordsOf(ms: seq<Mbuf>, times: seq<uint64>): seq<Record>
    requires Readable(ms) && |ms| <= |times|
  {
    seq(|ms|, i requires 0 <= i < |ms| => RecordOf(ms[i], times[i]))
  }

  /** Bytes the first `k` records of a burst take. */
  function SizeOf(ms: seq<Mbuf>, k: nat): nat
    requires k <= |ms|
  {
    if k == 0 then 0 else HDR + DataLen(ms[0]) + SizeOf(ms[1..], k - 1)
  }

  /** The accepted records are the longest prefix of the burst that fits. */
  lemma {:induction false} LongestPrefix(ms: seq<Mbuf>, room: nat)
    ensures SizeOf(ms, Accepted(ms, room)) <= room
    ensures Accepted(ms, room) < |ms| ==> SizeOf(ms, Accepted(ms, room) + 1) > room
  {
    if ms != [] && HDR + DataLen(ms[0]) <= room {
      LongestPrefix(ms[1..], room - (HDR + DataLen(ms[0])));
    }
  }

  lemma EncodeAllLast(rs: seq<Record>)
    requires rs != [] && Encodable(rs)
    ensures Encodable(rs[..|rs| - 1]) && |rs[|rs| - 1].data| < 0x1_0000
    ensures EncodeAll(rs) == EncodeAll(rs[..|rs| - 1]) + Encode(rs[|rs| - 1])
  {
    hide Encode;
  }

  lemma EncodableRest(r: Record, rs: seq<Record>)
    requires Encodable([r] + rs)
    ensures |r.data| < 0x1_0000 && Encodable(rs)
  {
    assert ([r] + rs)[0] == r;
    assert forall i :: 0 <= i < |rs| ==> rs[i] == ([r] + rs)[i + 1];
  }

  lemma JoinRight(a: seq<byte>, b: seq<byte>, c: seq<byte>)
    ensures (a + b) + c == a + (b + c)
  {
  }

  lemma {:induction false} EncodeAllPrepend(r: Record, rs: seq<Record>)
    requires Encodable([r] + rs)
    ensures |r.data| < 0x1_0000 && Encodable(rs)
    ensures EncodeAll([r] + rs) == Encode(r) + EncodeAll(rs)
  {
    hide Encode, Encodable;
    EncodableRest(r, rs);
    EncodeAllLast([r] + rs);
    if rs == [] {
      assert ([r] + rs)[..0] == [] && EncodeAll([]) == [];
    } else {
      hide EncodeAll;
      var front, last := rs[..|rs| - 1], rs[|rs| - 1];
      assert ([r] + rs)[..|rs|] == [r] + front;
      EncodeAllPrepend(r, front);
      EncodeAllLast(rs);
      JoinRight(Encode(r), EncodeAll(front), Encode(last));
    }
  }

  /** The log up to its first record of stored length 0, as the dump loop sees it. */
  ghost function UpToZero(rs: seq<Record>): seq<Record> {
    if rs == [] || rs[0].pktLen == 0 then [] else [rs[0]] + UpToZero(rs[1..])
  }

  /** The dump returns the whole log if and only if no record's stored length is 0. */
  lemma {:induction false} DumpsAllIff(rs: seq<Record>)
    ensures UpToZero(rs) == rs <==> forall i :: 0 <= i < |rs| ==> rs[i].pktLen != 0
  {
    if rs != [] && rs[0].pktLen != 0 {
      DumpsAllIff(rs[1..]);
      assert rs == [rs[0]] + rs[1..];
      assert forall i :: 0 < i < |rs| ==> rs[i] == rs[1..][i - 1];
      assert forall i :: 0 <= i < |rs| - 1 ==> rs[1..][i] == rs[i + 1];
    }
  }

  /** A record's stored length is 0 exactly for packets of a positive multiple of 65536 bytes,
      which only segmented packets can have. */
  lemma StoredZeroIff(m: Mbuf)
    ensures StoredPktLen(m) == 0 <==> m.pktLen > 0 && m.pktLen % 0x1_0000 == 0
  {
  }

  /** A packet whose length, truncated to 16 bits, becomes 0. */
  predicate LengthLost(m: Mbuf) {
    m.pktLen > 0 && m.pktLen % 0x1_0000 == 0
  }

  /** `pktLen` and `data` are what capturing keeps of a packet: all the data of its buffer, and its
      length in 16 bits; 128 where the buffer gives 0. */
  ghost predicate Kept(m: Mbuf, pktLen: uint16, data: seq<byte>) {
    && Roomy(m)
    && (m.dataLen > 0 ==> data == m.room[..m.dataLen])
    && (m.dataLen == 0 ==> data == m.room[..128])
    && (0 < m.pktLen < 0x1_0000 ==> pktLen == m.pktLen)
    && (m.pktLen == 0 ==> pktLen == 128)
    && (m.pktLen >= 0x1_0000 ==> pktLen == m.pktLen % 0x1_0000)
  }

  lemma KeptInRecord(m: Mbuf, now: uint64)
    requires Roomy(m)
    ensures DataLen(m) <= |m.room|
    ensures Kept(m, RecordOf(m, now).pktLen, RecordOf(m, now).data)
    ensures RecordOf(m, now).tstamp == now
  {
  }

  /** The log has one record for each packet, in order, with what is kept of it and its time. */
  ghost predicate KeptAll(ms: seq<Mbuf>, times: seq<uint64>, log: seq<Record>) {
    && |log| == |ms| == |times|
    && forall i :: 0 <= i < |ms| ==> Kept(ms[i], log[i].pktLen, log[i].data) && log[i].tstamp == times[i]
  }

  /** The dump has what is kept of each packet, in order, up to the first whose length is lost. */
  ghost predicate DumpedUpToLost(ms: seq<Mbuf>, out: seq<(uint16, seq<byte>)>) {
    && |out| <= |ms|
    && (forall i :: 0 <= i < |out| ==> Kept(ms[i], out[i].0, out[i].1) && !LengthLost(ms[i]))
    && (|out| < |ms| ==> LengthLost(ms[|out|]))
  }

  lemma RecordsKept(ms: seq<Mbuf>, times: seq<uint64>)
    requires Readable(ms) && |ms| == |times|
    ensures KeptAll(ms, times, RecordsOf(ms, times))
  {
    hide Kept;
    forall i | 0 <= i < |ms|
      ensures Kept(ms[i], RecordsOf(ms, times)[i].pktLen, RecordsOf(ms, times)[i].data)
    {
      KeptInRecord(ms[i], times[i]);
    }
  }

  /** What the dump shows of a log is the log up to its first record of stored length 0. */
  lemma {:induction false} ShownUpToZero(rs: seq<Record>)
    ensures var out := Shown(UpToZero(rs));
      && |out| <= |rs|
      && (forall i :: 0 <= i < |out| ==> out[i] == (rs[i].pktLen, rs[i].data) && rs[i].pktLen != 0)
      && (|out| < |rs| ==> rs[|out|].pktLen == 0)
  {
    if rs != [] && rs[0].pktLen != 0 {
      ShownUpToZero(rs[1..]);
    }
  }

  lemma DumpKept(ms: seq<Mbuf>, times: seq<uint64>, log: seq<Record>)
    requires KeptAll(ms, times, log)
    ensures DumpedUpToLost(ms, Shown(UpToZero(log)))
  {
    hide Shown, UpToZero;
    ShownUpToZero(log);
    var out := Shown(UpToZero(log));
    forall i | 0 <= i < |ms|
      ensures log[i].pktLen == 0 <==> LengthLost(ms[i])
    {
      KeptLength(ms[i], log[i].pktLen, log[i].data);
    }
    hide Kept, LengthLost;
  }

  lemma KeptLength(m: Mbuf, pktLen: uint16, data: seq<byte>)
    requires Kept(m, pktLen, data)
    ensures pktLen == 0 <==> LengthLost(m)
  {
  }

  /** Everything captured is dumped if and only if no captured packet's length is lost. */
  lemma DumpsPacketsIff(ms: seq<Mbuf>, times: seq<uint64>)
    requires Readable(ms) && |ms| <= |times|
    ensures UpToZero(RecordsOf(ms, times)) == RecordsOf(ms, times) <==> forall i :: 0 <= i < |ms| ==> !LengthLost(ms[i])
  {
    hide UpToZero, StoredPktLen, LengthLost;
    var rs := RecordsOf(ms, times);
    DumpsAllIff(rs);
    forall i | 0 <= i < |ms|
      ensures rs[i].pktLen == 0 <==> LengthLost(ms[i])
    {
      StoredLengthOf(ms[i]);
    }
  }

  lemma StoredLengthOf(m: Mbuf)
    ensures StoredPktLen(m) == 0 <==> LengthLost(m)
  {
    hide StoredPktLen;
    StoredZeroIff(m);
  }

  /** A burst of received packets and the times at which they are stored. */
  datatype Burst = Burst(pkts: seq<Mbuf>, times: seq<uint64>)

  ghost predicate Bursts(bs: seq<Burst>) {
    forall i :: 0 <= i < |bs| ==> Readable(bs[i].pkts) && |bs[i].pkts| <= |bs[i].times|
  }

  /** The packets that go into an arena of `room` bytes: of each burst, the longest prefix that
      still fits. */
  ghost function Taken(bs: seq<Burst>, room: nat): (r: Burst)
    requires Bursts(bs)
    ensures Readable(r.pkts) && |r.pkts| == |r.times|
  {
    if bs == [] then Burst([], [])
    else
      var r, b := Taken(bs[..|bs| - 1], room), bs[|bs| - 1];
      var used := LogBytes(RecordsOf(r.pkts, r.times));
      var k := if used <= room then Accepted(b.pkts, room - used) else 0;
      Burst(r.pkts + b.pkts[..k], r.times + b.times[..k])
  }

  lemma RecordsOfJoined(a: Burst, b: Burst, k: nat)
    requires Readable(a.pkts) && |a.pkts| == |a.times| && Readable(b.pkts) && k <= |b.pkts| <= |b.times|
    ensures Readable(b.pkts[..k]) && Readable(a.pkts + b.pkts[..k])
    ensures RecordsOf(a.pkts + b.pkts[..k], a.times + b.times[..k])
         == RecordsOf(a.pkts, a.times) + RecordsOf(b.pkts[..k], b.times[..k])
  {
  }

  /** rte_memcpy and field stores: `b` at offset `at`. */
  method Store(a: array<byte>, at: nat, b: seq<byte>)
    requires at + |b| <= a.Length
    modifies a
    ensures forall i :: 0 <= i < a.Length ==> a[i] == if at <= i < at + |b| then b[i - at] else old(a[i])
  {
    for i := 0 to |b|
      invariant forall j :: 0 <= j < a.Length ==> a[j] == if at <= j < at + i then b[j - at] else old(a[j])
    {
      a[at + i] := b[i];
    }
  }

  class CaptureZone {
    const mz: array<byte>
    const end: nat
    var tail: nat
    var used: nat
    var nbPkts: nat
    ghost var log: seq<Record>

    ghost predicate Layout()
      reads this
    {
      mz.Length >= SIZEOF_CAP_HDR && end == mz.Length - SIZEOF_CAP_HDR && tail <= end
    }

    /** The zone holds the encoded log, then a sentinel: a header of packet length 0. */
    ghost predicate Valid()
      reads this, mz
    {
      && Layout() && Encodable(log)
      && mz[..tail] == EncodeAll(log)
      && mz[tail + PKT_LEN_AT] == 0 && mz[tail + PKT_LEN_AT + 1] == 0
      && used == tail && nbPkts == |log|
    }

    /** pktgen_packet_capture_init on a reserved zone. */
    constructor (zone: array<byte>)
      requires zone.Length >= SIZEOF_CAP_HDR
      modifies zone
      ensures mz == zone && end == zone.Length - 16 && Valid() && log == []
    {
      mz, end := zone, zone.Length - SIZEOF_CAP_HDR;
      tail, used, nbPkts, log := 0, 0, 0, [];
      new;
      var zeros := seq(SIZEOF_CAP_HDR, _ => 0);
      Store(zone, 0, zeros);
      Store(zone, end, zeros);
    }

    /** Turning capture on clears what was there. */
    method Enable()
      requires Layout()
      modifies this, mz
      ensures Valid() && log == []
    {
      tail, used, nbPkts, log := 0, 0, 0, [];
      var zeros := seq(SIZEOF_CAP_HDR, _ => 0);
      Store(mz, 0, zeros);
      Store(mz, end, zeros);
    }

    /** The three fields of a record header, at the tail. */
    method StoreHeader(pktLen: uint16, dataLen: uint16, now: uint64)
      requires Layout() && tail + HDR <= end
      modifies mz
      ensures mz[..tail] == old(mz[..tail])
      ensures mz[tail..tail + HDR] == ToLe64(now) + ToLe16(pktLen) + ToLe16(dataLen)
    {
      hide ToLe64, ToLe16;
      Store(mz, tail + PKT_LEN_AT, ToLe16(pktLen));
      Store(mz, tail + DATA_LEN_AT, ToLe16(dataLen));
      Store(mz, tail, ToLe64(now));
    }

    /** The body of the capture loop for a packet that fits. */
    method AppendRecord(m: Mbuf, now: uint64)
      requires Layout() && Encodable(log) && mz[..tail] == EncodeAll(log) && nbPkts == |log|
      requires DataLen(m) <= |m.room| && tail + HDR + DataLen(m) <= end
      modifies this`tail, this`nbPkts, this`log, mz
      ensures Layout() && tail == old(tail) + HDR + DataLen(m) && nbPkts == old(nbPkts) + 1
      ensures log == old(log) + [RecordOf(m, now)] && Encodable(log) && mz[..tail] == EncodeAll(log)
    {
      hide Encode, EncodeAll, ToLe64, ToLe16, StoredPktLen, Encodable;
      var dlen := DataLen(m);
      StoreHeader(StoredPktLen(m), dlen, now);
      ghost var before := mz[..tail + HDR];
      assert before == mz[..tail] + mz[tail..tail + HDR];
      Store(mz, tail + HDR, m.room[..dlen]);
      assert mz[..tail + HDR + dlen] == before + m.room[..dlen];
      AppendedLog(log, m, now, mz[..tail + HDR + dlen]);
      tail := tail + HDR + dlen;
      nbPkts := nbPkts + 1;
      log := log + [RecordOf(m, now)];
    }

    /** The end of the capture routine: the sentinel and the count of bytes in use. */
    method Seal()
      requires Layout() && Encodable(log) && mz[..tail] == EncodeAll(log) && nbPkts == |log|
      modifies this`used, mz
      ensures Valid()
    {
      ghost var was := mz[..tail];
      Store(mz, tail + PKT_LEN_AT, [0, 0]);
      assert mz[..tail] == was;
      used := tail;
    }

    /** pktgen_packet_capture_bulk: the longest prefix of the burst that fits is appended. */
    method CaptureBulk(pkts: seq<Mbuf>, times: seq<uint64>)
      requires Valid() && Readable(pkts) && |pkts| <= |times|
      modifies this, mz
      ensures Valid()
      ensures var k := Accepted(pkts, old(end - tail));
              log == old(log) + RecordsOf(pkts[..k], times[..k])
    {
      hide RecordsOf, EncodeAll, Encodable;
      RecordsOfNone(pkts, times);
      if tail >= end {
        assert Accepted(pkts, end - tail) == 0;
        return;
      }
      var i := 0;
      ghost var k := Accepted(pkts, end - tail);
      assert pkts[0..] == pkts;
      while i < |pkts|
        invariant i <= |pkts| && Layout() && Encodable(log) && mz[..tail] == EncodeAll(log) && nbPkts == |log|
        invariant k == i + Accepted(pkts[i..], end - tail)
        invariant log == old(log) + RecordsOf(pkts[..i], times[..i])
      {
        if tail + HDR + DataLen(pkts[i]) > end {
          break;
        }
        AppendRecord(pkts[i], times[i]);
        RecordsOfNext(pkts, times, i);
        assert pkts[i..][1..] == pkts[i + 1..];
        i := i + 1;
      }
      Seal();
    }

    /** The dump loop of pktgen_set_capture: the packet lengths and data it writes out. */
    method Dump() returns (out: seq<(uint16, seq<byte>)>)
      requires Valid()
      ensures out == Shown(UpToZero(log))
    {
      hide Encode, EncodeAll, Encodable, Le16, UpToZero, Shown;
      out := [];
      var hdr: nat := 0;
      var i: nat := 0;
      assert log[0..] == log && mz[0..tail] == mz[..tail];
      assert out + Shown(UpToZero(log)) == Shown(UpToZero(log));
      while i < nbPkts
        invariant i <= |log| == nbPkts && hdr <= tail
        invariant Encodable(log[i..]) && mz[hdr..tail] == EncodeAll(log[i..])
        invariant out + Shown(UpToZero(log[i..])) == Shown(UpToZero(log))
      {
        ghost var rest := log[i..];
        FirstOfLog(mz[hdr..tail], rest);
        ShownFirst(rest);
        var pktLen := Le16([mz[hdr + PKT_LEN_AT], mz[hdr + PKT_LEN_AT + 1]]);
        if pktLen == 0 {
          return;
        }
        var dataLen := Le16([mz[hdr + DATA_LEN_AT], mz[hdr + DATA_LEN_AT + 1]]);
        out := out + [(pktLen, mz[hdr + HDR..hdr + HDR + dataLen])];
        assert mz[hdr..tail][HDR..HDR + dataLen] == mz[hdr + HDR..hdr + HDR + dataLen];
        assert mz[hdr..tail][HDR + dataLen..] == mz[hdr + HDR + dataLen..tail];
        assert rest[1..] == log[i + 1..];
        hdr := hdr + HDR + dataLen;
        i := i + 1;
      }
      assert log[i..] == [];
      ShownNone();
    }

    /** Capturing from one command to the next: turned on, fed every burst received, dumped. The
        dump is what the captured packets left in the log up to the first whose length is lost;
        so it is whole if and only if there is none. Of each packet its data is kept whole. */
    method Session(bursts: seq<Burst>) returns (out: seq<(uint16, seq<byte>)>)
      requires Layout() && Bursts(bursts)
      modifies this, mz
      ensures Valid()
      ensures log == RecordsOf(Taken(bursts, end).pkts, Taken(bursts, end).times)
      ensures out == Shown(UpToZero(log))
      ensures KeptAll(Taken(bursts, end).pkts, Taken(bursts, end).times, log)
      ensures DumpedUpToLost(Taken(bursts, end).pkts, out)
      ensures var pkts := Taken(bursts, end).pkts;
        out == Shown(log) <==> forall i :: 0 <= i < |pkts| ==> !LengthLost(pkts[i])
    {
      hide Encode, Encodable, RecordsOf, Accepted, UpToZero, Shown, LengthLost, KeptAll, DumpedUpToLost;
      Enable();
      var i := 0;
      RecordsOfNone([], []);
      while i < |bursts|
        invariant i <= |bursts| && Valid()
        invariant log == RecordsOf(Taken(bursts[..i], end).pkts, Taken(bursts[..i], end).times)
      {
        UsedIsSum(log);
        assert tail == LogBytes(log);
        TakenNext(bursts, i, end);
        CaptureBulk(bursts[i].pkts, bursts[i].times);
        i := i + 1;
      }
      assert bursts[..i] == bursts;
      out := Dump();
      DumpsPacketsIff(Taken(bursts, end).pkts, Taken(bursts, end).times);
      ShownAllIff(log);
      RecordsKept(Taken(bursts, end).pkts, Taken(bursts, end).times);
      DumpKept(Taken(bursts, end).pkts, Taken(bursts, end).times, log);
    }
  }

  lemma TakenNext(bs: seq<Burst>, i: nat, room: nat)
    requires Bursts(bs) && i < |bs|
    requires LogBytes(RecordsOf(Taken(bs[..i], room).pkts, Taken(bs[..i], room).times)) <= room
    ensures var r, r', b := Taken(bs[..i], room), Taken(bs[..i + 1], room), bs[i];
      var k := Accepted(b.pkts, room - LogBytes(RecordsOf(r.pkts, r.times)));
      && Readable(b.pkts[..k])
      && RecordsOf(r'.pkts, r'.times) == RecordsOf(r.pkts, r.times) + RecordsOf(b.pkts[..k], b.times[..k])
  {
    hide RecordsOf, LogBytes, Accepted;
    assert bs[..i + 1][..i] == bs[..i] && bs[..i + 1][i] == bs[i];
    var r := Taken(bs[..i], room);
    RecordsOfJoined(r, bs[i], Accepted(bs[i].pkts, room - LogBytes(RecordsOf(r.pkts, r.times))));
  }

  lemma ShownAllIff(rs: seq<Record>)
    ensures Shown(UpToZero(rs)) == Shown(rs) <==> UpToZero(rs) == rs
  {
    UpToZeroIsPrefix(rs);
    hide UpToZero;
    if Shown(UpToZero(rs)) == Shown(rs) {
      assert |UpToZero(rs)| == |Shown(UpToZero(rs))| == |Shown(rs)| == |rs|;
    }
  }

  lemma {:induction false} UpToZeroIsPrefix(rs: seq<Record>)
    ensures UpToZero(rs) <= rs
  {
    if rs != [] {
      UpToZeroIsPrefix(rs[1..]);
    }
  }

  lemma AppendedLog(rs: seq<Record>, m: Mbuf, now: uint64, b: seq<byte>)
    requires Encodable(rs) && DataLen(m) <= |m.room|
    requires b == EncodeAll(rs) + (ToLe64(now) + ToLe16(StoredPktLen(m)) + ToLe16(DataLen(m))) + m.room[..DataLen(m)]
    ensures Encodable(rs + [RecordOf(m, now)]) && EncodeAll(rs + [RecordOf(m, now)]) == b
  {
    hide ToLe64, ToLe16, StoredPktLen;
    var r := RecordOf(m, now);
    assert (rs + [r])[..|rs|] == rs;
    assert EncodeAll(rs + [r]) == EncodeAll(rs) + Encode(r);
  }

  /** What the dump writes of each record. */
  ghost function Shown(rs: seq<Record>): seq<(uint16, seq<byte>)> {
    seq(|rs|, i requires 0 <= i < |rs| => (rs[i].pktLen, rs[i].data))
  }

  lemma ShownFirst(rs: seq<Record>)
    requires rs != []
    ensures rs[0].pktLen == 0 ==> Shown(UpToZero(rs)) == []
    ensures rs[0].pktLen != 0 ==> Shown(UpToZero(rs)) == [(rs[0].pktLen, rs[0].data)] + Shown(UpToZero(rs[1..]))
  {
  }

  lemma ShownNone()
    ensures Shown(UpToZero([])) == []
  {
  }

  /** The header fields and data of the record at the front of an encoded log. */
  lemma FirstOfLog(b: seq<byte>, rs: seq<Record>)
    requires rs != [] && Encodable(rs) && b == EncodeAll(rs)
    ensures |b| >= HDR + |rs[0].data| && |rs[0].data| < 0x1_0000
    ensures Le16([b[PKT_LEN_AT], b[PKT_LEN_AT + 1]]) == rs[0].pktLen
    ensures Le16([b[DATA_LEN_AT], b[DATA_LEN_AT + 1]]) == |rs[0].data|
    ensures b[HDR..HDR + |rs[0].data|] == rs[0].data
    ensures Encodable(rs[1..]) && b[HDR + |rs[0].data|..] == EncodeAll(rs[1..])
  {
    var r := rs[0];
    assert [r] + rs[1..] == rs;
    EncodeAllPrepend(r, rs[1..]);
    EncodedFields(r);
    hide Encode;
    assert b[HDR..HDR + |r.data|] == Encode(r)[HDR..];
  }

  lemma EncodedFields(r: Record)
    requires |r.data| < 0x1_0000
    ensures Le16([Encode(r)[PKT_LEN_AT], Encode(r)[PKT_LEN_AT + 1]]) == r.pktLen
    ensures Le16([Encode(r)[DATA_LEN_AT], Encode(r)[DATA_LEN_AT + 1]]) == |r.data|
    ensures Encode(r)[HDR..] == r.data
  {
    Le16RoundTrip(r.pktLen);
    Le16RoundTrip(|r.data|);
  }

  lemma RecordsOfNone(ms: seq<Mbuf>, times: seq<uint64>)
    ensures ms[..0] == [] && times[..0] == [] && RecordsOf([], []) == []
  {
  }

  lemma RecordsOfNext(ms: seq<Mbuf>, times: seq<uint64>, i: nat)
    requires Readable(ms) && i < |ms| <= |times|
    ensures Readable(ms[..i]) && Readable(ms[..i + 1])
    ensures RecordsOf(ms[..i + 1], times[..i + 1]) == RecordsOf(ms[..i], times[..i]) + [RecordOf(ms[i], times[i])]
  {
  }
}
