/** From a written capture file to the wire: the file format, the reader and the replay engine
    together. */
module EndToEnd {
  import opened Arith
  import opened Bytes
  import opened PcapFile
  import opened PcapReader
  import opened Replay
  import opened ReplayControl
  import opened ReplaySafety
  import Generator

  /** A port that replays one file. */
  ghost function Port(f: seq<byte>, c0: nat, c1: nat, burst: nat): Config {
    Config([f], [c0, c1], burst)
  }

  ghost function Written(o: ByteOrder, h: FileHeader, rs: seq<Stamped>): seq<byte>
    requires Writable(rs)
  {
    EncodeFileHeader(o, h) + EncodeRecords(o, rs)
  }

  lemma OneFile(f: seq<byte>)
    requires WellFormed(f) && Records(f) != []
    ensures Source([f]) && Concat([f], 0) == Records(f)
  {
    hide WellFormed, Records;
    assert Concat([f], 1) == [];
  }

  lemma OneFileStream(f: seq<byte>, k: nat)
    requires WellFormed(f) && Records(f) != []
    ensures Source([f]) && Stream([f], k) == Records(f)[Wrap(k, |Records(f)|)]
  {
    OneFile(f);
    hide WellFormed, Records, Source, Concat, Wrap;
  }

  /** The stream of one written file is its packets, over and over. */
  lemma WrittenStream(o: ByteOrder, h: FileHeader, rs: seq<Stamped>)
    requires h.magic == PCAP_MAGIC_NUMBER && Writable(rs) && rs != []
    ensures Source([Written(o, h, rs)])
    ensures forall k: nat :: Stream([Written(o, h, rs)], k) == rs[Wrap(k, |rs|)].data
  {
    var f := Written(o, h, rs);
    FileRoundTrip(o, h, rs);
    assert WellFormed(f) && Records(f) == Payloads(rs);
    hide WellFormed, Records, Written, Source, Stream, Wrap;
    OneFile(f);
    forall k: nat
      ensures Stream([f], k) == rs[Wrap(k, |rs|)].data
    {
      OneFileStream(f, k);
    }
  }

  /** Any file with at least one packet, with any two sections and any burst, meets the
      conditions of the refinement. */
  lemma WrittenFileIsReplayable(o: ByteOrder, h: FileHeader, rs: seq<Stamped>, c0: nat, c1: nat, burst: nat)
    requires h.magic == PCAP_MAGIC_NUMBER && Writable(rs) && rs != []
    requires c0 > 0 && c1 > 0 && burst > 0
    ensures BothExist(Port(Written(o, h, rs), c0, c1, burst))
  {
    hide Source, Written, Startable;
    WrittenStream(o, h, rs);
    SourceStartable([Written(o, h, rs)]);
  }

  /** Write a file, in either byte order, and replay it through two sections: after any clean
      schedule the packets on the wire are the packets written, in order and over and over. */
  lemma WrittenFileReplays(o: ByteOrder, h: FileHeader, rs: seq<Stamped>, c0: nat, c1: nat, burst: nat, ls: seq<Label>)
    requires h.magic == PCAP_MAGIC_NUMBER && Writable(rs) && rs != []
    requires c0 > 0 && c1 > 0 && burst > 0
    requires var cfg := Port(Written(o, h, rs), c0, c1, burst);
      Usable(cfg) && CleanRun(cfg, ls) && Run(cfg, ls).Some?
    ensures var wire := Run(Port(Written(o, h, rs), c0, c1, burst), ls).value.wire;
      forall i :: 0 <= i < |wire| ==> wire[i] == rs[Wrap(i, |rs|)].data
  {
    hide Run, CleanRun, Source, Stream, Written, BothExist, Usable;
    WrittenFileIsReplayable(o, h, rs, c0, c1, burst);
    WrittenStream(o, h, rs);
    ReplayRefinesStream(Port(Written(o, h, rs), c0, c1, burst), ls);
  }

  lemma CapturedPackets(args: Generator.Args, t0: nat, marker: (nat, int) -> seq<byte>)
    requires Generator.Ready(args, t0)
    ensures var rs := Generator.Capture(args, t0, marker, args.count);
      && |rs| == args.count > 0
      && forall i :: 0 <= i < args.count ==>
           rs[i].data == Generator.PacketAt(args, t0, marker, i).data && Numbered(args, marker, rs[i].data, i)
  {
    hide Generator.Sound, Generator.Shows, Generator.PacketAt, WellFormed, Records, WrittenFile, Generator.Capture;
    Generator.CaptureReadsBack(args, t0, marker);
  }

  /** A packet that passes a receiver's checks and shows its number, counted from 1. */
  ghost predicate Numbered(args: Generator.Args, marker: (nat, int) -> seq<byte>, p: Packet, i: nat) {
    Generator.Sound(p) && Generator.Shows(p, args.infoMode, i + 1, marker(i + 1, |p|))
  }

  /** Generate a test capture and replay it: every packet on the wire is the generated one due
      there, passes a receiver's checks and shows its number. */
  lemma GeneratedCaptureReplays(args: Generator.Args, t0: nat, marker: (nat, int) -> seq<byte>,
                                c0: nat, c1: nat, burst: nat, ls: seq<Label>)
    requires Generator.Ready(args, t0)
    requires c0 > 0 && c1 > 0 && burst > 0
    requires var cfg := Port(WrittenFile(Generator.Capture(args, t0, marker, args.count)), c0, c1, burst);
      Usable(cfg) && CleanRun(cfg, ls) && Run(cfg, ls).Some?
    ensures var rs := Generator.Capture(args, t0, marker, args.count);
      var wire := Run(Port(WrittenFile(rs), c0, c1, burst), ls).value.wire;
      forall i :: 0 <= i < |wire| ==>
        wire[i] == Generator.PacketAt(args, t0, marker, Wrap(i, args.count)).data
        && Numbered(args, marker, wire[i], Wrap(i, args.count))
  {
    var rs := Generator.Capture(args, t0, marker, args.count);
    CapturedPackets(args, t0, marker);
    assert WrittenFile(rs) == Written(Little, WRITER_HEADER, rs) by {
      hide EncodeFileHeader, EncodeRecords;
    }
    assert WRITER_HEADER.magic == PCAP_MAGIC_NUMBER;
    hide *;
    WrittenFileReplays(Little, WRITER_HEADER, rs, c0, c1, burst, ls);
  }
}
