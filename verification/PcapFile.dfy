/** The classic pcap file: global header, record headers, both byte orders,
    decoding as pktgen-pcap.c does it and encoding as the two writers do it. */
module PcapFile {
  import opened Bytes

  const PCAP_MAGIC_NUMBER: uint32 := 0xa1b2c3d4
  const PCAPNG_MAGIC_NUMBER: uint32 := 0x0A0D0D0A
  const SWAPPED_MAGIC_NUMBER: uint32 := 0xd4c3b2a1
  const FILE_HEADER_LEN := 24
  const RECORD_HEADER_LEN := 16

  type Packet = seq<byte>

  datatype Option<+T> = None | Some(value: T)

  /** pcap_hdr_t; thiszone is kept as its 32-bit pattern. */
  datatype FileHeader = FileHeader(magic: uint32, versionMajor: uint16, versionMinor: uint16,
                                   thiszone: uint32, sigfigs: uint32, snaplen: uint32, network: uint32)

  /** pcap_record_hdr_t */
  datatype RecordHeader = RecordHeader(tsSec: uint32, tsUsec: uint32, inclLen: uint32, origLen: uint32)

  /** What pcap_decode_header leaves in its two out-parameters, or its error. */
  datatype Decoded = Good(hdr: FileHeader, convert: bool) | PcapNg | BadMagic

  /** The structure a fread of the file header fills on a little-endian host. */
  function ReadFileHeader(b: seq<byte>): FileHeader
    requires |b| == FILE_HEADER_LEN
  {
    FileHeader(Le32(b[0..4]), Le16(b[4..6]), Le16(b[6..8]), Le32(b[8..12]), Le32(b[12..16]),
               Le32(b[16..20]), Le32(b[20..24]))
  }

  function SwapFileHeader(h: FileHeader): FileHeader {
    FileHeader(Ntohl(h.magic), Ntohs(h.versionMajor), Ntohs(h.versionMinor), Ntohl(h.thiszone),
               Ntohl(h.sigfigs), Ntohl(h.snaplen), Ntohl(h.network))
  }

  function DecodeHeader(h: FileHeader): Decoded {
    if h.magic == PCAPNG_MAGIC_NUMBER then PcapNg
    else if h.magic == PCAP_MAGIC_NUMBER then Good(h, false)
    else if h.magic == Ntohl(PCAP_MAGIC_NUMBER) then Good(SwapFileHeader(h), true)
    else BadMagic
  }

  function ReadRecordHeader(b: seq<byte>): RecordHeader
    requires |b| == RECORD_HEADER_LEN
  {
    RecordHeader(Le32(b[0..4]), Le32(b[4..8]), Le32(b[8..12]), Le32(b[12..16]))
  }

  /** pcap_convert_record_header */
  function ConvertRecordHeader(convert: bool, h: RecordHeader): RecordHeader {
    if convert
    then RecordHeader(Ntohl(h.tsSec), Ntohl(h.tsUsec), Ntohl(h.inclLen), Ntohl(h.origLen))
    else h
  }

  /** The data length a record header announces, in the byte order of its file. */
  function InclLen(b: seq<byte>, convert: bool): uint32
    requires |b| >= RECORD_HEADER_LEN
  {
    if convert then Be32(b[8..12]) else Le32(b[8..12])
  }

  /** The packet at the front of `b`, or None when its header or its data is cut short. */
  function FirstRecord(b: seq<byte>, convert: bool): (r: Option<Packet>)
    ensures r.Some? ==> RECORD_HEADER_LEN + |r.value| <= |b|
  {
    if |b| < RECORD_HEADER_LEN || |b| < RECORD_HEADER_LEN + InclLen(b, convert) then None
    else Some(b[RECORD_HEADER_LEN..RECORD_HEADER_LEN + InclLen(b, convert)])
  }

  /** The packets of a record area that ends exactly after its last record. */
  function ParseRecords(b: seq<byte>, convert: bool): Option<seq<Packet>>
    decreases |b|
  {
    if b == [] then Some([])
    else
      match FirstRecord(b, convert)
      case None => None
      case Some(data) =>
        match ParseRecords(b[RECORD_HEADER_LEN + |data|..], convert)
        case None => None
        case Some(rest) => Some([data] + rest)
  }

  /** Whether a file is one the reader opens, and if so whether it must convert. */
  function Convert(f: seq<byte>): Option<bool> {
    if |f| < FILE_HEADER_LEN then None
    else if Le32(f[0..4]) == PCAP_MAGIC_NUMBER then Some(false)
    else if Le32(f[0..4]) == SWAPPED_MAGIC_NUMBER then Some(true)
    else None
  }

  /** A file with a readable header whose record area is a whole number of records. */
  predicate WellFormed(f: seq<byte>) {
    && Convert(f).Some?
    && ParseRecords(f[FILE_HEADER_LEN..], Convert(f).value).Some?
  }

  function Records(f: seq<byte>): seq<Packet>
    requires WellFormed(f)
  {
    ParseRecords(f[FILE_HEADER_LEN..], Convert(f).value).value
  }

  // ---------------------------------------------------------------- writing

  datatype ByteOrder = Little | Big

  function Put32(o: ByteOrder, x: uint32): (b: seq<byte>)
    ensures |b| == 4
  {
    if o.Little? then ToLe32(x) else ToBe32(x)
  }

  function Put16(o: ByteOrder, x: uint16): (b: seq<byte>)
    ensures |b| == 2
  {
    if o.Little? then ToLe16(x) else ToBe16(x)
  }

  function EncodeFileHeader(o: ByteOrder, h: FileHeader): (b: seq<byte>)
    ensures |b| == FILE_HEADER_LEN
  {
    Put32(o, h.magic) + Put16(o, h.versionMajor) + Put16(o, h.versionMinor) + Put32(o, h.thiszone)
    + Put32(o, h.sigfigs) + Put32(o, h.snaplen) + Put32(o, h.network)
  }

  function EncodeRecordHeader(o: ByteOrder, h: RecordHeader): (b: seq<byte>)
    ensures |b| == RECORD_HEADER_LEN
  {
    Put32(o, h.tsSec) + Put32(o, h.tsUsec) + Put32(o, h.inclLen) + Put32(o, h.origLen)
  }

  /** A packet on its way to a file, with the two timestamp words its writer chose. */
  datatype Stamped = Stamped(tsSec: uint32, tsUsec: uint32, data: Packet)

  ghost predicate Writable(rs: seq<Stamped>) {
    forall i :: 0 <= i < |rs| ==> |rs[i].data| < 0x1_0000_0000
  }

  function EncodeRecord(o: ByteOrder, r: Stamped): seq<byte>
    requires |r.data| < 0x1_0000_0000
  {
    EncodeRecordHeader(o, RecordHeader(r.tsSec, r.tsUsec, |r.data|, |r.data|)) + r.data
  }

  ghost function EncodeRecords(o: ByteOrder, rs: seq<Stamped>): seq<byte>
    requires Writable(rs)
  {
    if rs == [] then [] else EncodeRecord(o, rs[0]) + EncodeRecords(o, rs[1..])
  }

  ghost function Payloads(rs: seq<Stamped>): seq<Packet> {
    seq(|rs|, i requires 0 <= i < |rs| => rs[i].data)
  }

  // ----------------------------------------------------------------- proofs

  /** What a native fread sees of a field written in byte order `o`. */
  function Seen32(o: ByteOrder, x: uint32): uint32 {
    if o.Little? then x else Ntohl(x)
  }

  lemma Put32Seen(o: ByteOrder, x: uint32)
    ensures Le32(Put32(o, x)) == Seen32(o, x)
  {
    Le32RoundTrip(x);
  }

  lemma RecordHeaderSeen(o: ByteOrder, h: RecordHeader)
    ensures ReadRecordHeader(EncodeRecordHeader(o, h))
         == RecordHeader(Seen32(o, h.tsSec), Seen32(o, h.tsUsec), Seen32(o, h.inclLen), Seen32(o, h.origLen))
  {
    var b := EncodeRecordHeader(o, h);
    assert b[0..4] == Put32(o, h.tsSec);
    assert b[4..8] == Put32(o, h.tsUsec);
    assert b[8..12] == Put32(o, h.inclLen);
    assert b[12..16] == Put32(o, h.origLen);
    Put32Seen(o, h.tsSec);
    Put32Seen(o, h.tsUsec);
    Put32Seen(o, h.inclLen);
    Put32Seen(o, h.origLen);
  }

  lemma RecordHeaderRoundTrip(o: ByteOrder, h: RecordHeader)
    ensures ConvertRecordHeader(o.Big?, ReadRecordHeader(EncodeRecordHeader(o, h))) == h
  {
    RecordHeaderSeen(o, h);
    NtohlInvolutive(h.tsSec);
    NtohlInvolutive(h.tsUsec);
    NtohlInvolutive(h.inclLen);
    NtohlInvolutive(h.origLen);
  }

  /** The length the reader uses, fread as a structure and converted, is the length
      the bytes spell in the byte order of the file. */
  lemma ConvertedInclLen(b: seq<byte>, convert: bool)
    requires |b| >= RECORD_HEADER_LEN
    ensures ConvertRecordHeader(convert, ReadRecordHeader(b[..RECORD_HEADER_LEN])).inclLen == InclLen(b, convert)
  {
    assert b[..RECORD_HEADER_LEN][8..12] == b[8..12];
    NtohlReadsBigEndian(b[8..12]);
  }

  /** pcap_decode_header on the header it fread accepts exactly the files of `Convert`,
      with the same flag. */
  lemma DecodedConvert(f: seq<byte>)
    requires |f| >= FILE_HEADER_LEN
    ensures var d := DecodeHeader(ReadFileHeader(f[..FILE_HEADER_LEN]));
            Convert(f) == if d.Good? then Some(d.convert) else None
  {
    hide SwapFileHeader, Ntohl, Le32;
    assert f[..FILE_HEADER_LEN][0..4] == f[0..4];
    SwappedMagic();
  }

  /** The files the reader opens, by their bytes: a whole header that begins with the magic number
      in either byte order. */
  lemma MagicBytes(f: seq<byte>)
    ensures Convert(f) == Some(false) <==> |f| >= 24 && f[..4] == [0xd4, 0xc3, 0xb2, 0xa1]
    ensures Convert(f) == Some(true) <==> |f| >= 24 && f[..4] == [0xa1, 0xb2, 0xc3, 0xd4]
  {
    if |f| >= 24 {
      assert f[0..4] == f[..4] == [f[0], f[1], f[2], f[3]];
      MagicDigits(f[0], f[1], f[2], f[3]);
    }
    hide Le32;
  }

  lemma MagicDigits(b0: byte, b1: byte, b2: byte, b3: byte)
    ensures Le32([b0, b1, b2, b3]) == 0xa1b2c3d4 <==> b0 == 0xd4 && b1 == 0xc3 && b2 == 0xb2 && b3 == 0xa1
    ensures Le32([b0, b1, b2, b3]) == 0xd4c3b2a1 <==> b0 == 0xa1 && b1 == 0xb2 && b2 == 0xc3 && b3 == 0xd4
  {
  }

  /** Four bytes as a number, the last or the first of them counting most. */
  ghost predicate Spells(b0: byte, b1: byte, b2: byte, b3: byte, convert: bool, n: nat) {
    if convert then n == ((b0 * 0x100 + b1) * 0x100 + b2) * 0x100 + b3
    else n == ((b3 * 0x100 + b2) * 0x100 + b1) * 0x100 + b0
  }

  /** The record at the front, by its bytes: behind a header of 16 stand as many as its bytes 8 to
      11 spell in the byte order of the file, or there is no whole record. */
  lemma RecordBytes(b: seq<byte>, convert: bool, n: nat)
    requires |b| >= 16 && Spells(b[8], b[9], b[10], b[11], convert, n)
    ensures FirstRecord(b, convert) == if |b| >= 16 + n then Some(b[16..16 + n]) else None
  {
    assert b[8..12] == [b[8], b[9], b[10], b[11]];
  }

  /** Whatever follows it, an encoded record is the first record read back. */
  lemma FirstRecordRoundTrip(o: ByteOrder, r: Stamped, rest: seq<byte>)
    requires |r.data| < 0x1_0000_0000
    ensures FirstRecord(EncodeRecord(o, r) + rest, o.Big?) == Some(r.data)
  {
    hide InclLen, ReadRecordHeader, EncodeRecordHeader;
    var h := RecordHeader(r.tsSec, r.tsUsec, |r.data|, |r.data|);
    var b := EncodeRecord(o, r) + rest;
    assert b[..RECORD_HEADER_LEN] == EncodeRecordHeader(o, h);
    assert b[RECORD_HEADER_LEN..RECORD_HEADER_LEN + |r.data|] == r.data;
    RecordHeaderRoundTrip(o, h);
    ConvertedInclLen(b, o.Big?);
  }

  lemma {:induction false} RecordsRoundTrip(o: ByteOrder, rs: seq<Stamped>)
    requires Writable(rs)
    ensures ParseRecords(EncodeRecords(o, rs), o.Big?) == Some(Payloads(rs))
  {
    if rs == [] {
      assert Payloads(rs) == [];
    } else {
      var b := EncodeRecords(o, rs);
      var tail := EncodeRecords(o, rs[1..]);
      FirstRecordRoundTrip(o, rs[0], tail);
      RecordsRoundTrip(o, rs[1..]);
      assert b[RECORD_HEADER_LEN + |rs[0].data|..] == tail;
      assert Payloads(rs) == [rs[0].data] + Payloads(rs[1..]);
    }
  }

  lemma FileHeaderSeen(o: ByteOrder, h: FileHeader)
    ensures ReadFileHeader(EncodeFileHeader(o, h)) == if o.Little? then h else SwapFileHeader(h)
  {
    var b := EncodeFileHeader(o, h);
    assert b[0..4] == Put32(o, h.magic);
    assert b[4..6] == Put16(o, h.versionMajor);
    assert b[6..8] == Put16(o, h.versionMinor);
    assert b[8..12] == Put32(o, h.thiszone);
    assert b[12..16] == Put32(o, h.sigfigs);
    assert b[16..20] == Put32(o, h.snaplen);
    assert b[20..24] == Put32(o, h.network);
    Put32Seen(o, h.magic);
    Put32Seen(o, h.thiszone);
    Put32Seen(o, h.sigfigs);
    Put32Seen(o, h.snaplen);
    Put32Seen(o, h.network);
    Le16RoundTrip(h.versionMajor);
    Le16RoundTrip(h.versionMinor);
  }

  lemma SwapFileHeaderInvolutive(h: FileHeader)
    ensures SwapFileHeader(SwapFileHeader(h)) == h
  {
    NtohlInvolutive(h.magic);
    NtohsInvolutive(h.versionMajor);
    NtohsInvolutive(h.versionMinor);
    NtohlInvolutive(h.thiszone);
    NtohlInvolutive(h.sigfigs);
    NtohlInvolutive(h.snaplen);
    NtohlInvolutive(h.network);
  }

  lemma SwappedMagic()
    ensures Ntohl(PCAP_MAGIC_NUMBER) == SWAPPED_MAGIC_NUMBER
  {
  }

  /** Either byte order is recognised from the magic, and every header field comes back. */
  lemma FileHeaderRoundTrip(o: ByteOrder, h: FileHeader)
    requires h.magic == PCAP_MAGIC_NUMBER
    ensures DecodeHeader(ReadFileHeader(EncodeFileHeader(o, h))) == Good(h, o.Big?)
  {
    var seen := ReadFileHeader(EncodeFileHeader(o, h));
    FileHeaderSeen(o, h);
    SwappedMagic();
    SwapFileHeaderInvolutive(h);
    assert seen == if o.Little? then h else SwapFileHeader(h);
  }

  /** A written file, in either byte order and with any timestamps, is well formed
      and reading it gives exactly the packets written, in order. */
  lemma FileRoundTrip(o: ByteOrder, h: FileHeader, rs: seq<Stamped>)
    requires h.magic == PCAP_MAGIC_NUMBER && Writable(rs)
    ensures WellFormed(EncodeFileHeader(o, h) + EncodeRecords(o, rs))
    ensures Records(EncodeFileHeader(o, h) + EncodeRecords(o, rs)) == Payloads(rs)
  {
    hide Convert, EncodeFileHeader;
    var f := EncodeFileHeader(o, h) + EncodeRecords(o, rs);
    assert f[..FILE_HEADER_LEN] == EncodeFileHeader(o, h);
    assert f[FILE_HEADER_LEN..] == EncodeRecords(o, rs);
    FileHeaderRoundTrip(o, h);
    DecodedConvert(f);
    RecordsRoundTrip(o, rs);
  }

  lemma {:induction false} EncodeRecordsAppend(o: ByteOrder, rs: seq<Stamped>, r: Stamped)
    requires Writable(rs) && |r.data| < 0x1_0000_0000
    ensures Writable(rs + [r])
    ensures EncodeRecords(o, rs + [r]) == EncodeRecords(o, rs) + EncodeRecord(o, r)
  {
    hide EncodeRecord;
    if rs == [] {
      assert rs + [r] == [r];
      assert EncodeRecords(o, [r]) == EncodeRecord(o, r) + EncodeRecords(o, []);
    } else {
      assert (rs + [r])[1..] == rs[1..] + [r];
      EncodeRecordsAppend(o, rs[1..], r);
      var first, rest, last := EncodeRecord(o, rs[0]), EncodeRecords(o, rs[1..]), EncodeRecord(o, r);
      assert first + (rest + last) == (first + rest) + last;
    }
  }

  ghost function WrittenFile(rs: seq<Stamped>): seq<byte>
    requires Writable(rs)
  {
    EncodeFileHeader(Little, WRITER_HEADER) + EncodeRecords(Little, rs)
  }

  lemma AppendedFile(rs: seq<Stamped>, r: Stamped)
    requires Writable(rs) && |r.data| < 0x1_0000_0000
    ensures Writable(rs + [r])
    ensures WrittenFile(rs + [r])
         == WrittenFile(rs) + EncodeRecordHeader(Little, RecordHeader(r.tsSec, r.tsUsec, |r.data|, |r.data|)) + r.data
  {
    EncodeRecordsAppend(Little, rs, r);
    calc {
      WrittenFile(rs + [r]);
      EncodeFileHeader(Little, WRITER_HEADER) + (EncodeRecords(Little, rs) + EncodeRecord(Little, r));
      WrittenFile(rs) + EncodeRecord(Little, r);
    }
  }

  lemma PayloadsAppend(rs: seq<Stamped>, r: Stamped)
    ensures Payloads(rs + [r]) == Payloads(rs) + [r.data]
  {
  }

  /** The writer of pktgen: pktgen_create_pcap_file and pktgen_write_mbuf_to_pcap_file
      on one open file, kept as the bytes written so far. */
  class PcapWriter {
    var file: seq<byte>
    ghost var packets: seq<Stamped>

    ghost predicate Valid()
      reads this
    {
      Writable(packets) && file == WrittenFile(packets)
    }

    constructor Create()
      ensures Valid() && packets == []
      ensures file == [0xd4, 0xc3, 0xb2, 0xa1, 2, 0, 4, 0] + [0, 0, 0, 0, 0, 0, 0, 0] + [0xff, 0xff, 0, 0, 1, 0, 0, 0]
    {
      WriterHeaderBytes();
      hide EncodeFileHeader;
      file := EncodeFileHeader(Little, WRITER_HEADER);
      packets := [];
    }

    method WriteMbuf(data: Packet)
      requires Valid() && |data| < 0x1_0000_0000
      modifies this
      ensures Valid() && packets == old(packets) + [Stamped(0, 0, data)]
      ensures WellFormed(file) && Records(file) == Payloads(old(packets)) + [data]
    {
      file := file + EncodeRecordHeader(Little, RecordHeader(0, 0, |data|, |data|));
      file := file + data;
      AppendedFile(packets, Stamped(0, 0, data));
      PayloadsAppend(packets, Stamped(0, 0, data));
      packets := packets + [Stamped(0, 0, data)];
      FileRoundTrip(Little, WRITER_HEADER, packets);
    }
  }

  const WRITER_HEADER := FileHeader(0xa1b2c3d4, 2, 4, 0, 0, 65535, 1)

  /** The header the writers put first: version 2.4, at most 65535 bytes a packet, Ethernet. */
  lemma WriterHeaderBytes()
    ensures EncodeFileHeader(Little, WRITER_HEADER)
         == [0xd4, 0xc3, 0xb2, 0xa1, 2, 0, 4, 0] + [0, 0, 0, 0, 0, 0, 0, 0] + [0xff, 0xff, 0, 0, 1, 0, 0, 0]
  {
  }
}
