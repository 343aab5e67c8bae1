/** The test capture generator: packets with correct checksums, written as a pcap file. */
module Generator {

  import Arith
  import opened Bytes
  import opened Checksum
  import opened PcapFile

  const ETH_HEADER_LEN := 14
  const IP_HEADER_LEN := 20
  const UDP_HEADER_LEN := 8
  const ICMP_HEADER_LEN := 8
  const MIN_FRAME_LEN := 64
  const MAX_FRAME_LEN := 1514

  const IPPROTO_ICMP: byte := 1
  const IPPROTO_UDP: byte := 17

  const SRC_IP: seq<byte> := [198, 18, 0, 1]
  const DST_IP: seq<byte> := [198, 18, 0, 2]

  // ---------------------------------------------------------------------- headers

  function BuildEthHeader(): (h: seq<byte>)
    ensures |h| == ETH_HEADER_LEN
  {
    [2, 0, 0, 0, 0, 1] + [2, 0, 0, 0, 0, 2] + [8, 0]
  }

  /** The IPv4 header up to its checksum, and from there on. */
  function Ipv4Front(totalLen: uint16, identification: nat, protocol: byte): (h: seq<byte>)
    ensures |h| == 10
  {
    [0x45, 0] + ToBe16(totalLen) + ToBe16(identification % 0x1_0000) + ToBe16(0x4000) + [64, protocol]
  }

  function Ipv4Header(totalLen: uint16, identification: nat, protocol: byte, checksum: uint16): (h: seq<byte>)
    ensures |h| == IP_HEADER_LEN
  {
    Ipv4Front(totalLen, identification, protocol) + ToBe16(checksum) + (SRC_IP + DST_IP)
  }

  function BuildIpv4Header(totalLen: uint16, identification: nat, protocol: byte): (h: seq<byte>)
    ensures |h| == IP_HEADER_LEN
  {
    Ipv4Header(totalLen, identification, protocol, Checksum16(Ipv4Header(totalLen, identification, protocol, 0)))
  }

  function UdpHeader(srcPort: uint16, dstPort: uint16, udpLen: uint16, checksum: uint16): (h: seq<byte>)
    ensures |h| == UDP_HEADER_LEN
  {
    ToBe16(srcPort) + ToBe16(dstPort) + ToBe16(udpLen) + ToBe16(checksum)
  }

  /** The addresses, protocol and length a UDP checksum covers besides the datagram. */
  function PseudoHeader(srcIp: seq<byte>, dstIp: seq<byte>, udpLen: uint16): (h: seq<byte>)
    requires |srcIp| == |dstIp| == 4
    ensures |h| == 12
  {
    srcIp + dstIp + [0, IPPROTO_UDP] + ToBe16(udpLen)
  }

  function UdpChecksum(payload: seq<byte>, srcIp: seq<byte>, dstIp: seq<byte>, srcPort: uint16, dstPort: uint16): uint16
    requires |srcIp| == |dstIp| == 4 && UDP_HEADER_LEN + |payload| < 0x1_0000
  {
    var udpLen := UDP_HEADER_LEN + |payload|;
    var c := Checksum16(PseudoHeader(srcIp, dstIp, udpLen) + UdpHeader(srcPort, dstPort, udpLen, 0) + payload);
    if c == 0 then 0xFFFF else c
  }

  function BuildUdpHeader(payload: seq<byte>, srcIp: seq<byte>, dstIp: seq<byte>, srcPort: uint16, dstPort: uint16):
    (h: seq<byte>)
    requires |srcIp| == |dstIp| == 4 && UDP_HEADER_LEN + |payload| < 0x1_0000
    ensures |h| == UDP_HEADER_LEN
  {
    UdpHeader(srcPort, dstPort, UDP_HEADER_LEN + |payload|, UdpChecksum(payload, srcIp, dstIp, srcPort, dstPort))
  }

  function IcmpHeader(checksum: uint16, identifier: nat, sequence: nat): (h: seq<byte>)
    ensures |h| == ICMP_HEADER_LEN
  {
    [8, 0] + ToBe16(checksum) + (ToBe16(identifier % 0x1_0000) + ToBe16(sequence % 0x1_0000))
  }

  function BuildIcmpEchoHeader(payload: seq<byte>, identifier: nat, sequence: nat): (h: seq<byte>)
    ensures |h| == ICMP_HEADER_LEN
  {
    IcmpHeader(Checksum16(IcmpHeader(0, identifier, sequence) + payload), identifier, sequence)
  }

  /** Every IPv4 header built verifies. */
  lemma Ipv4Verifies(totalLen: uint16, identification: nat, protocol: byte)
    ensures Verifies(BuildIpv4Header(totalLen, identification, protocol))
  {
    hide Checksum16, ToBe16;
    Inserted(Ipv4Front(totalLen, identification, protocol), SRC_IP + DST_IP,
             Checksum16(Ipv4Header(totalLen, identification, protocol, 0)));
  }

  /** Every ICMP message built verifies, with payloads of even and of odd length. */
  lemma IcmpVerifies(payload: seq<byte>, identifier: nat, sequence: nat)
    ensures Verifies(BuildIcmpEchoHeader(payload, identifier, sequence) + payload)
  {
    var c := Checksum16(IcmpHeader(0, identifier, sequence) + payload);
    var rest := ToBe16(identifier % 0x1_0000) + ToBe16(sequence % 0x1_0000);
    hide Checksum16, ToBe16, Verifies;
    assert IcmpHeader(0, identifier, sequence) + payload == [8, 0] + ToBe16(0) + (rest + payload);
    assert IcmpHeader(c, identifier, sequence) + payload == [8, 0] + ToBe16(c) + (rest + payload);
    Inserted([8, 0], rest + payload, c);
  }

  /** The pseudo-header and every UDP datagram built verify; the checksum sent is never zero,
      which would mean that there is none (RFC 768). */
  lemma UdpVerifies(payload: seq<byte>, srcIp: seq<byte>, dstIp: seq<byte>, srcPort: uint16, dstPort: uint16)
    requires |srcIp| == |dstIp| == 4 && UDP_HEADER_LEN + |payload| < 0x1_0000
    ensures UdpChecksum(payload, srcIp, dstIp, srcPort, dstPort) != 0
    ensures Verifies(PseudoHeader(srcIp, dstIp, UDP_HEADER_LEN + |payload|)
                     + BuildUdpHeader(payload, srcIp, dstIp, srcPort, dstPort) + payload)
  {
    var len := UDP_HEADER_LEN + |payload|;
    var pseudo := PseudoHeader(srcIp, dstIp, len);
    var c := UdpChecksum(payload, srcIp, dstIp, srcPort, dstPort);
    hide Checksum16, ToBe16, Verifies, PseudoHeader;
    var front := pseudo + (ToBe16(srcPort) + ToBe16(dstPort) + ToBe16(len));
    assert pseudo + UdpHeader(srcPort, dstPort, len, 0) + payload == front + ToBe16(0) + payload;
    assert pseudo + UdpHeader(srcPort, dstPort, len, c) + payload == front + ToBe16(c) + payload;
    Inserted(front, payload, c);
  }

  // ---------------------------------------------------------------------- packets

  datatype InfoMode = IcmpSeq | UdpPorts | Payload

  datatype Result<T> = Ok(value: T) | Err(message: string)

  /** The payload: the marker text, cut to length or filled up with 'X'. */
  function BuildPayload(prefix: seq<byte>, len: nat): (p: seq<byte>)
    ensures |p| == len
    ensures forall i :: 0 <= i < len && i < |prefix| ==> p[i] == prefix[i]
  {
    if |prefix| >= len then prefix[..len] else prefix + seq<byte>(len - |prefix|, i => 0x58)
  }

  function SrcPort(seqNo: nat): (p: uint16)
  {
    20000 + (seqNo / 0x100) % 0x100
  }

  function DstPort(seqNo: nat): (p: uint16)
  {
    30000 + seqNo % 0x100
  }

  /** The transport header and the protocol number. */
  function BuildL4(mode: InfoMode, seqNo: nat, payload: seq<byte>): (r: (seq<byte>, byte))
    requires |payload| < 0xFFF8
    ensures |r.0| == 8
  {
    match mode
    case IcmpSeq => (BuildIcmpEchoHeader(payload, 0xD00D, seqNo), IPPROTO_ICMP)
    case UdpPorts => (BuildUdpHeader(payload, SRC_IP, DST_IP, SrcPort(seqNo), DstPort(seqNo)), IPPROTO_UDP)
    case Payload => (BuildUdpHeader(payload, SRC_IP, DST_IP, 12345, 23456), IPPROTO_UDP)
  }

  /** A frame of the requested length; `prefix` is the marker text of the payload. */
  function BuildPacket(seqNo: nat, frameLen: int, mode: InfoMode, prefix: seq<byte>): (r: Result<Packet>)
    ensures r.Ok? <==> MIN_FRAME_LEN <= frameLen <= MAX_FRAME_LEN
    ensures r.Ok? ==> |r.value| == frameLen
  {
    if frameLen < MIN_FRAME_LEN || frameLen > MAX_FRAME_LEN then Err("Frame length out of valid range")
    else
      var payload := BuildPayload(prefix, frameLen - (ETH_HEADER_LEN + IP_HEADER_LEN + 8));
      var (l4, protocol) := BuildL4(mode, seqNo, payload);
      var ip := BuildIpv4Header(IP_HEADER_LEN + |l4| + |payload|, seqNo, protocol);
      Ok(BuildEthHeader() + ip + l4 + payload)
  }

  /** What a receiver checks: the IPv4 header, its total length, and the transport checksum of
      the protocol it names. */
  ghost predicate Sound(packet: Packet) {
    && |packet| >= ETH_HEADER_LEN + IP_HEADER_LEN + 8
    && var ip := packet[14..34];
    && var l4 := packet[34..];
    && packet[12..14] == [8, 0] && ip[0] == 0x45
    && Verifies(ip)
    && Be16(ip[2..4]) == |packet| - ETH_HEADER_LEN
    && |l4| < 0x1_0000
    && (ip[9] == IPPROTO_ICMP || ip[9] == IPPROTO_UDP)
    && (ip[9] == IPPROTO_ICMP ==> Verifies(l4))
    && (ip[9] == IPPROTO_UDP ==>
          Be16(l4[4..6]) == |l4| && Be16(l4[6..8]) != 0
          && Verifies(PseudoHeader(ip[12..16], ip[16..20], |l4|) + l4))
  }

  lemma Ipv4Fields(totalLen: uint16, identification: nat, protocol: byte)
    ensures var h := BuildIpv4Header(totalLen, identification, protocol);
      && h[0] == 0x45 && Be16(h[2..4]) == totalLen && h[9] == protocol
      && h[12..16] == SRC_IP && h[16..20] == DST_IP
  {
    hide Checksum16, ToBe16, Be16;
    var h := BuildIpv4Header(totalLen, identification, protocol);
    assert h[2..4] == ToBe16(totalLen);
    Be16RoundTrip(totalLen);
  }

  lemma UdpFields(payload: seq<byte>, srcPort: uint16, dstPort: uint16)
    requires UDP_HEADER_LEN + |payload| < 0x1_0000
    ensures var h := BuildUdpHeader(payload, SRC_IP, DST_IP, srcPort, dstPort) + payload;
      && Be16(h[0..2]) == srcPort && Be16(h[2..4]) == dstPort
      && Be16(h[4..6]) == |h| && Be16(h[6..8]) == UdpChecksum(payload, SRC_IP, DST_IP, srcPort, dstPort)
  {
    hide Checksum16, ToBe16, Be16, UdpChecksum;
    var c := UdpChecksum(payload, SRC_IP, DST_IP, srcPort, dstPort);
    var h := BuildUdpHeader(payload, SRC_IP, DST_IP, srcPort, dstPort) + payload;
    assert h[0..2] == ToBe16(srcPort) && h[2..4] == ToBe16(dstPort);
    assert h[4..6] == ToBe16(UDP_HEADER_LEN + |payload|) && h[6..8] == ToBe16(c);
    Be16RoundTrip(srcPort);
    Be16RoundTrip(dstPort);
    Be16RoundTrip(UDP_HEADER_LEN + |payload|);
    Be16RoundTrip(c);
  }

  /** The transport part built for any mode passes the receiver's check. */
  lemma L4Sound(mode: InfoMode, seqNo: nat, payload: seq<byte>)
    requires |payload| < 0xFFF8
    ensures var (h, protocol) := BuildL4(mode, seqNo, payload);
      var l4 := h + payload;
      && |l4| < 0x1_0000 && (protocol == IPPROTO_ICMP || protocol == IPPROTO_UDP)
      && (protocol == IPPROTO_ICMP ==> Verifies(l4))
      && (protocol == IPPROTO_UDP ==>
            Be16(l4[4..6]) == |l4| && Be16(l4[6..8]) != 0
            && Verifies(PseudoHeader(SRC_IP, DST_IP, |l4|) + l4))
  {
    hide Verifies, PseudoHeader, BuildUdpHeader, BuildIcmpEchoHeader, Be16;
    match mode {
      case IcmpSeq =>
        IcmpVerifies(payload, 0xD00D, seqNo);
      case UdpPorts =>
        UdpSound(payload, SrcPort(seqNo), DstPort(seqNo));
      case Payload =>
        UdpSound(payload, 12345, 23456);
    }
  }

  lemma UdpSound(payload: seq<byte>, srcPort: uint16, dstPort: uint16)
    requires UDP_HEADER_LEN + |payload| < 0x1_0000
    ensures var l4 := BuildUdpHeader(payload, SRC_IP, DST_IP, srcPort, dstPort) + payload;
      && |l4| < 0x1_0000 && Be16(l4[4..6]) == |l4| && Be16(l4[6..8]) != 0
      && Verifies(PseudoHeader(SRC_IP, DST_IP, |l4|) + l4)
  {
    hide Verifies, PseudoHeader, BuildUdpHeader, Be16, UdpChecksum;
    UdpVerifies(payload, SRC_IP, DST_IP, srcPort, dstPort);
    UdpFields(payload, srcPort, dstPort);
    var pseudo := PseudoHeader(SRC_IP, DST_IP, UDP_HEADER_LEN + |payload|);
    var h := BuildUdpHeader(payload, SRC_IP, DST_IP, srcPort, dstPort);
    assert pseudo + h + payload == pseudo + (h + payload);
  }

  /** Every packet built, of any length, sequence number and mode, is sound. */
  lemma PacketsSound(seqNo: nat, frameLen: int, mode: InfoMode, prefix: seq<byte>)
    requires MIN_FRAME_LEN <= frameLen <= MAX_FRAME_LEN
    ensures Sound(BuildPacket(seqNo, frameLen, mode, prefix).value)
  {
    hide Verifies, PseudoHeader, BuildL4, BuildIpv4Header, BuildPayload, Be16;
    var payload := BuildPayload(prefix, frameLen - 42);
    var (l4, protocol) := BuildL4(mode, seqNo, payload);
    var ip := BuildIpv4Header(28 + |payload|, seqNo, protocol);
    var p := BuildPacket(seqNo, frameLen, mode, prefix).value;
    assert p == BuildEthHeader() + ip + l4 + payload;
    assert p[14..34] == ip && p[34..] == l4 + payload;
    L4Sound(mode, seqNo, payload);
    Ipv4Verifies(28 + |payload|, seqNo, protocol);
    Ipv4Fields(28 + |payload|, seqNo, protocol);
  }

  // ---------------------------------------------------- the sequence number in a packet

  /** The fields by which a packet shows its number `seqNo`: the IPv4 identification always, and by
      the mode the sequence of an echo request, or the two ports; and the marker text, cut off or
      filled up with 'X'. */
  ghost predicate Shows(p: Packet, mode: InfoMode, seqNo: nat, prefix: seq<byte>) {
    && |p| >= 42
    && p[..6] == [2, 0, 0, 0, 0, 1] && p[6..12] == [2, 0, 0, 0, 0, 2]
    && Be16(p[18..20]) == seqNo % 0x1_0000 && Be16(p[20..22]) == 0x4000 && p[22] == 64
    && p[26..30] == [198, 18, 0, 1] && p[30..34] == [198, 18, 0, 2]
    && ShowsInTransport(p[34..], p[23], mode, seqNo)
    && forall i :: 0 <= i < |p| - 42 ==> p[42 + i] == if i < |prefix| then prefix[i] else 'X' as int
  }

  ghost predicate ShowsInTransport(l4: seq<byte>, protocol: byte, mode: InfoMode, seqNo: nat)
    requires |l4| >= 8
  {
    match mode
    case IcmpSeq =>
      && protocol == 1 && l4[0] == 8 && l4[1] == 0
      && Be16(l4[4..6]) == 0xD00D && Be16(l4[6..8]) == seqNo % 0x1_0000
    case UdpPorts =>
      && protocol == 17
      && (Be16(l4[0..2]) - 20000) * 0x100 + (Be16(l4[2..4]) - 30000) == seqNo % 0x1_0000
      && 20000 <= Be16(l4[0..2]) < 20256 && 30000 <= Be16(l4[2..4]) < 30256
    case Payload =>
      protocol == 17 && Be16(l4[0..2]) == 12345 && Be16(l4[2..4]) == 23456
  }

  lemma IcmpFields(payload: seq<byte>, identifier: nat, sequence: nat)
    ensures var h := BuildIcmpEchoHeader(payload, identifier, sequence) + payload;
      && h[0] == 8 && h[1] == 0
      && Be16(h[4..6]) == identifier % 0x1_0000 && Be16(h[6..8]) == sequence % 0x1_0000
  {
    hide Checksum16, ToBe16, Be16;
    var h := BuildIcmpEchoHeader(payload, identifier, sequence) + payload;
    assert h[4..6] == ToBe16(identifier % 0x1_0000) && h[6..8] == ToBe16(sequence % 0x1_0000);
    Be16RoundTrip(identifier % 0x1_0000);
    Be16RoundTrip(sequence % 0x1_0000);
  }

  lemma TransportShows(mode: InfoMode, seqNo: nat, payload: seq<byte>)
    requires |payload| < 0xFFF8
    ensures var (h, protocol) := BuildL4(mode, seqNo, payload);
      ShowsInTransport(h + payload, protocol, mode, seqNo)
  {
    hide BuildUdpHeader, BuildIcmpEchoHeader, Be16;
    match mode {
      case IcmpSeq =>
        IcmpFields(payload, 0xD00D, seqNo);
      case UdpPorts =>
        UdpFields(payload, SrcPort(seqNo), DstPort(seqNo));
        TwoDigits(seqNo);
      case Payload =>
        UdpFields(payload, 12345, 23456);
    }
  }

  lemma Ipv4Shows(totalLen: uint16, identification: nat, protocol: byte)
    ensures var h := BuildIpv4Header(totalLen, identification, protocol);
      && Be16(h[4..6]) == identification % 0x1_0000 && Be16(h[6..8]) == 0x4000 && h[8] == 64 && h[9] == protocol
      && h[12..16] == [198, 18, 0, 1] && h[16..20] == [198, 18, 0, 2]
  {
    hide Checksum16, ToBe16, Be16;
    var h := BuildIpv4Header(totalLen, identification, protocol);
    assert h[4..6] == ToBe16(identification % 0x1_0000) && h[6..8] == ToBe16(0x4000);
    Be16RoundTrip(identification % 0x1_0000);
    Be16RoundTrip(0x4000);
  }

  lemma PayloadShows(prefix: seq<byte>, len: nat)
    ensures forall i :: 0 <= i < len ==>
      BuildPayload(prefix, len)[i] == if i < |prefix| then prefix[i] else 'X' as int
  {
  }

  /** Every packet built shows its number, modulo 65536: the sequence of an echo request in
      icmp-seq mode, and in udp-ports mode, as the generator's own message says,
      (source - 20000) * 256 + destination - 30000. */
  lemma SequenceShown(seqNo: nat, frameLen: int, mode: InfoMode, prefix: seq<byte>)
    requires MIN_FRAME_LEN <= frameLen <= MAX_FRAME_LEN
    ensures Shows(BuildPacket(seqNo, frameLen, mode, prefix).value, mode, seqNo, prefix)
  {
    var payload := BuildPayload(prefix, frameLen - 42);
    var (l4, protocol) := BuildL4(mode, seqNo, payload);
    var ip := BuildIpv4Header(28 + |payload|, seqNo, protocol);
    var p := BuildPacket(seqNo, frameLen, mode, prefix).value;
    hide BuildL4, BuildIpv4Header, BuildPayload, Be16, Shows, ShowsInTransport;
    assert p == BuildEthHeader() + ip + l4 + payload;
    TransportShows(mode, seqNo, payload);
    Ipv4Shows(28 + |payload|, seqNo, protocol);
    PayloadShows(prefix, frameLen - 42);
    PartsShow(p, ip, l4, protocol, payload, mode, seqNo, prefix);
  }

  lemma PartsShow(p: Packet, ip: seq<byte>, l4: seq<byte>, protocol: byte, payload: seq<byte>,
                  mode: InfoMode, seqNo: nat, prefix: seq<byte>)
    requires |ip| == IP_HEADER_LEN && |l4| == 8 && p == BuildEthHeader() + ip + l4 + payload
    requires Be16(ip[4..6]) == seqNo % 0x1_0000 && Be16(ip[6..8]) == 0x4000 && ip[8] == 64 && ip[9] == protocol
    requires ip[12..16] == [198, 18, 0, 1] && ip[16..20] == [198, 18, 0, 2]
    requires ShowsInTransport(l4 + payload, protocol, mode, seqNo)
    requires forall i :: 0 <= i < |payload| ==> payload[i] == if i < |prefix| then prefix[i] else 'X' as int
    ensures Shows(p, mode, seqNo, prefix)
  {
    hide Be16, ShowsInTransport;
    assert p[34..] == l4 + payload;
    assert p[18..20] == ip[4..6] && p[20..22] == ip[6..8] && p[26..30] == ip[12..16] && p[30..34] == ip[16..20];
    assert forall i :: 0 <= i < |payload| ==> p[42 + i] == payload[i];
  }

  lemma TwoDigits(n: nat)
    ensures ((n / 0x100) % 0x100) * 0x100 + n % 0x100 == n % 0x1_0000
  {
  }

  // ------------------------------------------------------------------ the capture file

  /** The command line; `pick(i)` is what random.randint returns for packet `i`. */
  datatype LengthMode = Random(pick: nat -> int) | Cycle

  datatype Args = Args(count: int, minLen: int, maxLen: int, lengthMode: LengthMode, infoMode: InfoMode)

  function ValidateArgs(args: Args): (r: Result<()>)
    ensures r.Ok? <==> args.count > 0 && MIN_FRAME_LEN <= args.minLen <= args.maxLen <= MAX_FRAME_LEN
  {
    if args.count <= 0 then Err("--count must be greater than 0")
    else if args.minLen < MIN_FRAME_LEN then Err("--min-len too small")
    else if args.maxLen > MAX_FRAME_LEN then Err("--max-len too large")
    else if args.minLen > args.maxLen then Err("--min-len must be <= --max-len")
    else Ok(())
  }

  function LengthForPacket(index: nat, args: Args): int
    requires args.minLen <= args.maxLen
  {
    match args.lengthMode
    case Cycle =>
      var span := args.maxLen - args.minLen + 1;
      args.minLen + index % span
    case Random(pick) => pick(index)
  }

  /** randint keeps its promise. */
  ghost predicate PicksInRange(args: Args) {
    args.lengthMode.Random? ==> forall i: nat :: args.minLen <= args.lengthMode.pick(i) <= args.maxLen
  }

  lemma LengthInRange(index: nat, args: Args)
    requires args.minLen <= args.maxLen && PicksInRange(args)
    ensures args.minLen <= LengthForPacket(index, args) <= args.maxLen
  {
  }

  /** In cycle mode any run of `span` packets has every length once: packet `index` has length
      `len` exactly when it is `len - min` places into its cycle. */
  lemma CycleLengths(index: nat, args: Args, len: int)
    requires args.minLen <= args.maxLen && args.lengthMode.Cycle?
    ensures var span := args.maxLen - args.minLen + 1;
      && (LengthForPacket(index, args) == len <==> index % span == len - args.minLen)
      && LengthForPacket(index + span, args) == LengthForPacket(index, args)
  {
    var span := args.maxLen - args.minLen + 1;
    assert index == span * (index / span) + index % span;
    Arith.DivModUnique(index + span, span, index / span + 1, index % span);
  }

  ghost predicate Ready(args: Args, t0: nat) {
    ValidateArgs(args).Ok? && PicksInRange(args) && t0 + (args.count - 1) / 10_000 < 0x1_0000_0000
  }

  /** Packet `i` of a capture, numbered from 1, with its time: 100 microseconds after the last. */
  ghost function PacketAt(args: Args, t0: nat, marker: (nat, int) -> seq<byte>, i: nat): Stamped
    requires Ready(args, t0) && i < args.count
  {
    LengthInRange(i, args);
    var len := LengthForPacket(i, args);
    assert i / 10_000 <= (args.count - 1) / 10_000;
    Stamped(t0 + i / 10_000, 100 * (i % 10_000),
            BuildPacket(i + 1, len, args.infoMode, marker(i + 1, len)).value)
  }

  ghost function Capture(args: Args, t0: nat, marker: (nat, int) -> seq<byte>, n: nat): (rs: seq<Stamped>)
    requires Ready(args, t0) && n <= args.count
    ensures |rs| == n && Writable(rs)
    ensures forall i :: 0 <= i < n ==> rs[i] == PacketAt(args, t0, marker, i)
  {
    if n == 0 then [] else
      LengthInRange(n - 1, args);
      Capture(args, t0, marker, n - 1) + [PacketAt(args, t0, marker, n - 1)]
  }

  /** The loop that writes the file, carrying the microseconds into the seconds by hand. */
  method WritePcap(args: Args, t0: nat, marker: (nat, int) -> seq<byte>) returns (f: seq<byte>)
    requires Ready(args, t0)
    ensures f == WrittenFile(Capture(args, t0, marker, args.count))
  {
    hide BuildPacket, EncodeRecords, EncodeRecordHeader, EncodeFileHeader, LengthForPacket;
    var tsSec: nat := t0;
    var tsUsec: nat := 0;
    f := EncodeFileHeader(Little, WRITER_HEADER);
    HeaderOnly();
    for i := 0 to args.count
      invariant f == WrittenFile(Capture(args, t0, marker, i))
      invariant tsSec == t0 + i / 10_000 && tsUsec == 100 * (i % 10_000)
    {
      var seqNo := i + 1;
      LengthInRange(i, args);
      var frameLen := LengthForPacket(i, args);
      var packet := BuildPacket(seqNo, frameLen, args.infoMode, marker(seqNo, frameLen)).value;
      ghost var r := PacketAt(args, t0, marker, i);
      AppendedFile(Capture(args, t0, marker, i), r);
      assert r == Stamped(tsSec, tsUsec, packet);
      f := f + EncodeRecordHeader(Little, RecordHeader(tsSec, tsUsec, |packet|, |packet|));
      f := f + packet;
      NextTime(i);
      tsUsec := tsUsec + 100;
      if tsUsec >= 1_000_000 {
        tsSec := tsSec + 1;
        tsUsec := tsUsec - 1_000_000;
      }
    }
  }

  lemma HeaderOnly()
    ensures WrittenFile([]) == EncodeFileHeader(Little, WRITER_HEADER)
  {
    hide EncodeFileHeader;
  }

  lemma NextTime(i: nat)
    ensures i % 10_000 == 9_999 ==> (i + 1) / 10_000 == i / 10_000 + 1 && (i + 1) % 10_000 == 0
    ensures i % 10_000 != 9_999 ==> (i + 1) / 10_000 == i / 10_000 && (i + 1) % 10_000 == i % 10_000 + 1
  {
  }

  /** Packet `i` of a capture as it should be: sound, of its length, showing its number, and in time. */
  ghost predicate InPlace(args: Args, t0: nat, marker: (nat, int) -> seq<byte>, r: Stamped, i: nat)
    requires args.minLen <= args.maxLen
  {
    && Sound(r.data) && |r.data| == LengthForPacket(i, args)
    && Shows(r.data, args.infoMode, i + 1, marker(i + 1, |r.data|))
    && r.tsUsec < 1_000_000
    && 1_000_000 * r.tsSec + r.tsUsec == 1_000_000 * t0 + 100 * i
  }

  lemma PacketInPlace(args: Args, t0: nat, marker: (nat, int) -> seq<byte>, i: nat)
    requires Ready(args, t0) && i < args.count
    ensures InPlace(args, t0, marker, PacketAt(args, t0, marker, i), i)
  {
    LengthInRange(i, args);
    var len := LengthForPacket(i, args);
    hide Sound, Shows, LengthForPacket, BuildPacket, PicksInRange;
    PacketsSound(i + 1, len, args.infoMode, marker(i + 1, len));
    SequenceShown(i + 1, len, args.infoMode, marker(i + 1, len));
  }

  /** Reading a generated capture back gives the packets in order, every one of them sound, of the
      length chosen for it and showing its number, at times 100 microseconds apart. */
  lemma CaptureReadsBack(args: Args, t0: nat, marker: (nat, int) -> seq<byte>)
    requires Ready(args, t0)
    ensures var rs := Capture(args, t0, marker, args.count);
      && WellFormed(WrittenFile(rs))
      && var ps := Records(WrittenFile(rs));
      && |ps| == args.count
      && (forall i :: 0 <= i < args.count ==> ps[i] == rs[i].data && InPlace(args, t0, marker, rs[i], i))
  {
    var rs := Capture(args, t0, marker, args.count);
    hide InPlace, WellFormed, EncodeRecords, EncodeFileHeader, Records, PacketAt;
    FileRoundTrip(Little, WRITER_HEADER, rs);
    assert WrittenFile(rs) == EncodeFileHeader(Little, WRITER_HEADER) + EncodeRecords(Little, rs);
    forall i | 0 <= i < args.count
      ensures InPlace(args, t0, marker, rs[i], i)
    {
      PacketInPlace(args, t0, marker, i);
    }
  }
}
