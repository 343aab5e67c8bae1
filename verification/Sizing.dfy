/** Start-up of a replay port: the first scan of the source files and the division of the
    huge pages into two packet sections. */
module Sizing {
  import opened Arith
  import opened Bytes
  import opened PcapFile
  import opened PcapReader
  import opened Replay
  import opened ReplayControl
  import opened ReplayBursts

  const PCAP_SECTION_PKT_MULTIPLE := 64
  const DEFAULT_TX_DESC := 1024
  const RTE_PKTMBUF_HEADROOM := 128
  const SIZEOF_RTE_MBUF := 128

  // ------------------------------------------------------------- pcap_get_info

  /** pkt_count, max_pkt_size and the summed sizes. */
  datatype Info = Info(count: nat, max: nat, total: nat)

  function Max(a: nat, b: nat): nat { if a > b then a else b }

  /** The scan of one file's record area from a count so far: fseek passes over the data
      without looking, so data cut short at the end of the file goes unnoticed. */
  function Scan(b: seq<byte>, convert: bool, sofar: Info): Option<Info>
    decreases |b|
  {
    if b == [] then Some(sofar)
    else if |b| < RECORD_HEADER_LEN then None
    else
      var n := InclLen(b, convert);
      var rest := if RECORD_HEADER_LEN + n <= |b| then b[RECORD_HEADER_LEN + n..] else [];
      Scan(rest, convert, Info(sofar.count + 1, Max(sofar.max, n), sofar.total + n))
  }

  function ScanFiles(files: seq<seq<byte>>, i: nat, sofar: Info): Option<Info>
    requires i <= |files|
    decreases |files| - i
  {
    if i == |files| then Some(sofar)
    else
      match Convert(files[i])
      case None => None
      case Some(convert) =>
        match Scan(files[i][FILE_HEADER_LEN..], convert, sofar)
        case None => None
        case Some(info) => ScanFiles(files, i + 1, info)
  }

  /** The inner loop of pcap_get_info, over the records of one open file. */
  method ScanOpenFile(f: seq<byte>, convert: bool, sofar: Info) returns (info: Option<Info>)
    requires |f| >= FILE_HEADER_LEN
    ensures info == Scan(f[FILE_HEADER_LEN..], convert, sofar)
  {
    hide InclLen, ReadRecordHeader, ConvertRecordHeader;
    var at := FILE_HEADER_LEN;
    var pktCount: nat, maxPktSize: nat, totalSize: nat := sofar.count, sofar.max, sofar.total;
    while at < |f|
      invariant FILE_HEADER_LEN <= at <= |f|
      invariant Scan(f[at..], convert, Info(pktCount, maxPktSize, totalSize))
             == Scan(f[FILE_HEADER_LEN..], convert, sofar)
    {
      ghost var b := f[at..];
      if at + RECORD_HEADER_LEN > |f| {
        return None;
      }
      var rec := ConvertRecordHeader(convert, ReadRecordHeader(f[at..][..RECORD_HEADER_LEN]));
      ConvertedInclLen(b, convert);
      var n: nat := rec.inclLen;
      var next := at + RECORD_HEADER_LEN + n;
      if next <= |f| {
        assert b[RECORD_HEADER_LEN + n..] == f[next..];
      }
      at := if next <= |f| then next else |f|;
      pktCount, totalSize := pktCount + 1, totalSize + n;
      if n > maxPktSize {
        maxPktSize := n;
      }
    }
    return Some(Info(pktCount, maxPktSize, totalSize));
  }

  /** pcap_get_info; None is one of its exits, the one for an empty source included. */
  method GetInfo(files: seq<seq<byte>>) returns (info: Option<Info>)
    ensures var scanned := ScanFiles(files, 0, Info(0, 0, 0));
            info == if scanned.Some? && scanned.value.count == 0 then None else scanned
  {
    hide Scan, Convert, ReadFileHeader, DecodeHeader;
    var sofar := Info(0, 0, 0);
    for i := 0 to |files|
      invariant ScanFiles(files, i, sofar) == ScanFiles(files, 0, Info(0, 0, 0))
    {
      var f := files[i];
      if |f| < FILE_HEADER_LEN {
        ShortFile(f);
        return None;
      }
      DecodedConvert(f);
      match DecodeHeader(ReadFileHeader(f[..FILE_HEADER_LEN])) {
        case PcapNg => return None;
        case BadMagic => return None;
        case Good(_, convert) =>
          var scanned := ScanOpenFile(f, convert, sofar);
          if scanned.None? {
            return None;
          }
          sofar := scanned.value;
      }
    }
    return if sofar.count == 0 then None else Some(sofar);
  }

  lemma ShortFile(f: seq<byte>)
    requires |f| < FILE_HEADER_LEN
    ensures Convert(f).None?
  {
  }

  ghost function Tally(ps: seq<Packet>, sofar: Info): Info {
    if ps == [] then sofar
    else Tally(ps[1..], Info(sofar.count + 1, Max(sofar.max, |ps[0]|), sofar.total + |ps[0]|))
  }

  lemma {:induction false} TallyConcat(a: seq<Packet>, b: seq<Packet>, sofar: Info)
    ensures Tally(a + b, sofar) == Tally(b, Tally(a, sofar))
  {
    if a == [] {
      assert a + b == b;
    } else {
      assert (a + b)[1..] == a[1..] + b;
      TallyConcat(a[1..], b, Info(sofar.count + 1, Max(sofar.max, |a[0]|), sofar.total + |a[0]|));
    }
  }

  lemma ParsedFirst(b: seq<byte>, convert: bool)
    requires b != [] && ParseRecords(b, convert).Some?
    ensures |b| >= RECORD_HEADER_LEN && |b| >= RECORD_HEADER_LEN + InclLen(b, convert)
    ensures var n := InclLen(b, convert);
      var data, rest := b[RECORD_HEADER_LEN..RECORD_HEADER_LEN + n], b[RECORD_HEADER_LEN + n..];
      ParseRecords(rest, convert).Some?
      && ParseRecords(b, convert).value == [data] + ParseRecords(rest, convert).value
  {
    hide InclLen;
  }

  lemma ScannedFirst(b: seq<byte>, convert: bool, sofar: Info)
    requires |b| >= RECORD_HEADER_LEN && |b| >= RECORD_HEADER_LEN + InclLen(b, convert)
    ensures var n := InclLen(b, convert);
      Scan(b, convert, sofar)
      == Scan(b[RECORD_HEADER_LEN + n..], convert, Info(sofar.count + 1, Max(sofar.max, n), sofar.total + n))
  {
    hide InclLen;
  }

  lemma {:induction false} ScanTallies(b: seq<byte>, convert: bool, sofar: Info)
    requires ParseRecords(b, convert).Some?
    ensures Scan(b, convert, sofar) == Some(Tally(ParseRecords(b, convert).value, sofar))
    decreases |b|
  {
    if b == [] {
      hide InclLen;
      assert ParseRecords(b, convert).value == [];
    } else {
      hide InclLen, ParseRecords, Scan, Tally;
      ParsedFirst(b, convert);
      ScannedFirst(b, convert, sofar);
      var n := InclLen(b, convert);
      var data, rest := b[RECORD_HEADER_LEN..RECORD_HEADER_LEN + n], b[RECORD_HEADER_LEN + n..];
      var next := Info(sofar.count + 1, Max(sofar.max, n), sofar.total + n);
      ScanTallies(rest, convert, next);
      var all := ParseRecords(b, convert).value;
      assert all[0] == data && all[1..] == ParseRecords(rest, convert).value;
      TallyFirst(all, sofar);
    }
  }

  lemma TallyFirst(all: seq<Packet>, sofar: Info)
    requires all != []
    ensures Tally(all, sofar)
         == Tally(all[1..], Info(sofar.count + 1, Max(sofar.max, |all[0]|), sofar.total + |all[0]|))
  {
    hide Max;
  }

  lemma {:induction false} ScanFilesTallies(files: seq<seq<byte>>, i: nat, sofar: Info)
    requires i <= |files| && forall k :: 0 <= k < |files| ==> WellFormed(files[k])
    ensures ScanFiles(files, i, sofar) == Some(Tally(Concat(files, i), sofar))
    decreases |files| - i
  {
    if i < |files| {
      ScanTallies(files[i][FILE_HEADER_LEN..], Convert(files[i]).value, sofar);
      TallyConcat(Records(files[i]), Concat(files, i + 1), sofar);
      ScanFilesTallies(files, i + 1, Tally(Records(files[i]), sofar));
    }
  }

  /** The sum of the packets' sizes. */
  ghost function TotalSize(ps: seq<Packet>): nat {
    if ps == [] then 0 else |ps[0]| + TotalSize(ps[1..])
  }

  lemma {:induction false} TallyMeans(ps: seq<Packet>, sofar: Info)
    ensures Tally(ps, sofar).count == sofar.count + |ps|
    ensures Tally(ps, sofar).total == sofar.total + TotalSize(ps)
    ensures sofar.max <= Tally(ps, sofar).max
    ensures forall i :: 0 <= i < |ps| ==> |ps[i]| <= Tally(ps, sofar).max
    ensures Tally(ps, sofar).max == sofar.max || exists i :: 0 <= i < |ps| && |ps[i]| == Tally(ps, sofar).max
  {
    if ps != [] {
      var next := Info(sofar.count + 1, Max(sofar.max, |ps[0]|), sofar.total + |ps[0]|);
      TallyMeans(ps[1..], next);
      assert forall i :: 0 < i < |ps| ==> ps[i] == ps[1..][i - 1];
    }
  }

  /** On a well-formed source the scan counts exactly the records the reader will deliver, its
      maximum is the size of the largest and its total the sum of their sizes. */
  lemma InfoOfSource(files: seq<seq<byte>>)
    requires Source(files)
    ensures var all, r := Concat(files, 0), ScanFiles(files, 0, Info(0, 0, 0));
            && r.Some? && r.value.count == |all| > 0 && r.value.total == TotalSize(all)
            && (forall i :: 0 <= i < |all| ==> |all[i]| <= r.value.max)
            && (exists i :: 0 <= i < |all| && |all[i]| == r.value.max)
  {
    hide Convert, ParseRecords;
    var all := Concat(files, 0);
    ScanFilesTallies(files, 0, Info(0, 0, 0));
    TallyMeans(all, Info(0, 0, 0));
    hide ScanFiles, Concat, Tally;
    assert |all[0]| <= Tally(all, Info(0, 0, 0)).max;
  }

  lemma {:induction false} CountNeedsUsefulFile(files: seq<seq<byte>>, i: nat, sofar: Info)
    requires i <= |files| && ScanFiles(files, i, sofar).Some? && ScanFiles(files, i, sofar).value.count > sofar.count
    ensures exists k :: i <= k < |files| && !SilentlyEmpty(files[k])
    decreases |files| - i
  {
    if i < |files| && SilentlyEmpty(files[i]) {
      assert Scan(files[i][FILE_HEADER_LEN..], Convert(files[i]).value, sofar) == Some(sofar);
      CountNeedsUsefulFile(files, i + 1, sofar);
    }
  }

  /** Any source the scan accepts, well formed or not, is one on which the reader's search for
      the next record comes to an end. */
  lemma AcceptedIsStartable(files: seq<seq<byte>>)
    requires ScanFiles(files, 0, Info(0, 0, 0)).Some? && ScanFiles(files, 0, Info(0, 0, 0)).value.count > 0
    ensures Startable(files)
  {
    CountNeedsUsefulFile(files, 0, Info(0, 0, 0));
  }

  // ----------------------------------------------------------- section sizes

  function FloorMultiple(n: nat): (r: nat)
    ensures r % PCAP_SECTION_PKT_MULTIPLE == 0 && r <= n < r + PCAP_SECTION_PKT_MULTIPLE
  {
    n - n % PCAP_SECTION_PKT_MULTIPLE
  }

  /** RTE_ALIGN_CEIL to a cache line, in 32 bits. */
  function AlignCeil32(n: nat): uint32 {
    (n % 0x1_0000_0000 + 63) % 0x1_0000_0000 / 64 * 64
  }

  function Dataroom(maxPktSize: uint32): uint32 {
    AlignCeil32(maxPktSize + RTE_PKTMBUF_HEADROOM)
  }

  /** Memory one packet takes, by the source's own estimate. */
  function PerPktBytes(dataroom: uint32): (r: nat)
    ensures r > 0
  {
    (SIZEOF_RTE_MBUF + dataroom + 63) / 64 * 64 + 32
  }

  /** pcap_get_baseline_hugepages, in bytes: one and a half times the 2 MB pages in use. */
  function ReserveBytes(totalMemUsed: nat): (r: nat)
    ensures r >= 2048 * 1024 && 2 * r >= 3 * totalMemUsed
  {
    var usedKb := (totalMemUsed + 1023) / 1024;
    var needed := (usedKb + 2048 - 1) / 2048;
    var baseline := (needed * 3 + 1) / 2;
    assert needed * 2048 >= usedKb && usedKb * 1024 >= totalMemUsed;
    (if baseline == 0 then 1 else baseline) * 2048 * 1024
  }

  /** What start-up decides: stop, or two capacities (the second 0 for one section). */
  datatype Plan = Exit | Caps(c0: nat, c1: nat)

  /** The bytes left for packets. */
  function Usable64(total: nat, reserve: nat): nat {
    if total > reserve then total - reserve else 0
  }

  /** How many packets of `per` bytes go into `bytes`. */
  function Fit(bytes: nat, per: nat): nat
    requires per > 0
  {
    bytes / per
  }

  lemma FitBounds(bytes: nat, per: nat)
    requires per > 0
    ensures Fit(bytes, per) * per <= bytes < (Fit(bytes, per) + 1) * per
  {
    assert bytes == per * (bytes / per) + bytes % per;
  }

  lemma FitMonotone(a: nat, a': nat, per: nat)
    requires per > 0 && a <= a'
    ensures Fit(a, per) <= Fit(a', per)
  {
    FitBounds(a, per);
    FitBounds(a', per);
    hide Fit;
    if Fit(a, per) > Fit(a', per) {
      MulOrder(Fit(a', per) + 1, Fit(a, per), per);
    }
  }

  /** A cast to uint32_t. */
  function Cast32(x: nat): uint32 {
    x % 0x1_0000_0000
  }

  lemma FloorZero(x: nat)
    ensures FloorMultiple(x) == 0 <==> x < PCAP_SECTION_PKT_MULTIPLE
  {
  }

  /** How many packets the source takes to fit, in 32 bits. */
  function Fit32(bytes: nat, per: nat): uint32
    requires per > 0
  {
    Cast32(Fit(bytes, per))
  }

  /** A cast to 32 bits only lowers a count. */
  lemma FitCast(bytes: nat, per: nat)
    requires per > 0
    ensures Fit32(bytes, per) * per <= bytes
  {
    FitBounds(bytes, per);
    hide Fit;
    MulOrder(Cast32(Fit(bytes, per)), Fit(bytes, per), per);
  }

  /** All the packets are taken to fit, with a minimum of four descriptor rings of them. */
  ghost predicate AllFit(scanned: uint32, per: nat, usable: nat)
    requires per > 0
  {
    Max(scanned, DEFAULT_TX_DESC * 4) <= Fit32(usable, per)
  }

  /** The plan for a source of `scanned` packets with `usable` bytes of memory. */
  ghost predicate Planned(scanned: uint32, per: nat, usable: nat, plan: Plan)
    requires per > 0
  {
    if Fit32(usable, per) == 0 then plan == Exit
    else if AllFit(scanned, per, usable) then plan == Caps(FloorMultiple(Max(scanned, DEFAULT_TX_DESC * 4)), 0)
    else if Fit32(usable / 2, per) < PCAP_SECTION_PKT_MULTIPLE then plan == Exit
    else plan == Caps(FloorMultiple(Fit32(usable / 2, per)), FloorMultiple(Fit32(usable - usable / 2, per)))
  }

  /** When the count for half the memory is cast to 0, that for all of it is cast to 2 at most. */
  lemma HalfIsAlmostNone(available: nat, per: nat)
    requires per > 0 && Fit32(available / 2, per) == 0
    ensures Fit32(available, per) <= 2
  {
    var h := Fit(available / 2, per);
    TwiceFits(available, per);
    assert Fit(available, per) == 2 * h + (Fit(available, per) - 2 * h);
    hide Fit;
    CastOfDouble(h, Fit(available, per));
  }

  /** Twice what fits into half fits into the whole, and no more than two packets more. */
  lemma TwiceFits(available: nat, per: nat)
    requires per > 0
    ensures 2 * Fit(available / 2, per) <= Fit(available, per) <= 2 * Fit(available / 2, per) + 2
  {
    FitBounds(available / 2, per);
    FitBounds(available, per);
    hide Fit;
    var h, all := Fit(available / 2, per), Fit(available, per);
    assert 2 * (h * per) == (2 * h) * per && 2 * ((h + 1) * per) == (2 * h + 2) * per;
    Distributes(2 * h + 2, 1, per);
    if all < 2 * h {
      MulOrder(all + 1, 2 * h, per);
    }
    if all > 2 * h + 2 {
      MulOrder(2 * h + 3, all, per);
    }
  }

  lemma CastOfDouble(h: nat, all: nat)
    requires Cast32(h) == 0 && 2 * h <= all <= 2 * h + 2
    ensures Cast32(all) <= 2
  {
    var q := h / 0x1_0000_0000;
    assert h == 0x1_0000_0000 * q;
    assert all == 0x1_0000_0000 * (2 * q) + (all - 2 * h);
  }

  /** The sizing arithmetic of pktgen_pcap_open, with its 32-bit casts. */
  method PlanSections(scanned: uint32, per: nat, total: nat, reserve: nat) returns (plan: Plan)
    requires per > 0
    ensures Planned(scanned, per, Usable64(total, reserve), plan)
  {
    hide Fit, FloorMultiple, Fit32;
    var pktCount: nat := scanned;
    if pktCount < DEFAULT_TX_DESC * 4 {
      pktCount := DEFAULT_TX_DESC * 4;
    }
    var available := if total > reserve then total - reserve else 0;
    var budget0 := available / 2;
    var budget1 := available - budget0;
    var cap0: nat := Fit32(budget0, per);
    var cap1: nat := Fit32(budget1, per);
    var maxPktsFit := Fit32(available, per);
    if maxPktsFit == 0 {
      return Exit;
    }
    if pktCount <= maxPktsFit {
      cap0, cap1 := pktCount, 0;
    } else {
      pktCount := maxPktsFit;
    }
    if cap0 == 0 {
      HalfIsAlmostNone(available, per);
    }
    FloorZero(if cap0 > 0 then cap0 else pktCount);
    FloorZero(0);
    var create0 := FloorMultiple(if cap0 > 0 then cap0 else pktCount);
    var create1 := FloorMultiple(if cap1 > 0 then cap1 else 0);
    if create0 == 0 {
      return Exit;
    }
    return Caps(create0, create1);
  }

  /** A record length is 32 bits wide, so the largest one is. */
  lemma {:induction false} ScanBounded(b: seq<byte>, convert: bool, sofar: Info)
    requires sofar.max < 0x1_0000_0000 && Scan(b, convert, sofar).Some?
    ensures Scan(b, convert, sofar).value.max < 0x1_0000_0000
    decreases |b|
  {
    if b != [] {
      hide InclLen;
      var n := InclLen(b, convert);
      var rest := if RECORD_HEADER_LEN + n <= |b| then b[RECORD_HEADER_LEN + n..] else [];
      ScanBounded(rest, convert, Info(sofar.count + 1, Max(sofar.max, n), sofar.total + n));
    }
  }

  lemma {:induction false} ScanFilesBounded(files: seq<seq<byte>>, i: nat, sofar: Info)
    requires i <= |files| && sofar.max < 0x1_0000_0000 && ScanFiles(files, i, sofar).Some?
    ensures ScanFiles(files, i, sofar).value.max < 0x1_0000_0000
    decreases |files| - i
  {
    if i < |files| {
      hide Scan, Convert;
      var convert := Convert(files[i]).value;
      ScanBounded(files[i][FILE_HEADER_LEN..], convert, sofar);
      ScanFilesBounded(files, i + 1, Scan(files[i][FILE_HEADER_LEN..], convert, sofar).value);
    }
  }

  /** The plan for the files and the memory: the scan, the packet size it leads to, and the
      memory beyond the reserve. */
  ghost predicate Sized(files: seq<seq<byte>>, total: nat, totalMemUsed: nat, plan: Plan) {
    var s := ScanFiles(files, 0, Info(0, 0, 0));
    if s.None? || s.value.count == 0 then plan == Exit
    else
      s.value.count < 0x1_0000_0000 && s.value.max < 0x1_0000_0000
      && Planned(s.value.count, PerPktBytes(Dataroom(s.value.max)), Usable64(total, ReserveBytes(totalMemUsed)), plan)
  }

  /** The sizing of pktgen_pcap_open from the scan of its source to the two capacities. */
  method SizeSections(files: seq<seq<byte>>, total: nat, totalMemUsed: nat) returns (plan: Plan)
    requires var s := ScanFiles(files, 0, Info(0, 0, 0)); s.Some? ==> s.value.count < 0x1_0000_0000
    ensures Sized(files, total, totalMemUsed, plan)
    ensures var s := ScanFiles(files, 0, Info(0, 0, 0));
      s.Some? && s.value.count > 0 && s.value.max + 191 < 0x1_0000_0000 ==>
        && WithinMemory(s.value.max, totalMemUsed, total, plan)
        && CountedFor(s.value.count, s.value.max, totalMemUsed, total, plan)
        && (total < 160 * 0x1_0000_0000 ==> DividedFor(s.value.count, s.value.max, totalMemUsed, total, plan))
  {
    hide PerPktBytes, Dataroom, ReserveBytes, Planned, Fit, ScanFiles, WithinMemory, CountedFor, DividedFor;
    var info := GetInfo(files);
    if info.None? {
      return Exit;
    }
    ScanFilesBounded(files, 0, Info(0, 0, 0));
    plan := PlanSections(info.value.count, PerPktBytes(Dataroom(info.value.max)), total, ReserveBytes(totalMemUsed));
    if info.value.max + 191 < 0x1_0000_0000 {
      SizedWithinMemory(files, total, totalMemUsed, plan);
      SizedIn32(files, total, totalMemUsed, plan);
      if total < 160 * 0x1_0000_0000 {
        SizedExactly(files, total, totalMemUsed, plan);
      }
    }
  }

  /** It stops exactly when no packet is taken to fit, or they do not all fit and half the memory
      is taken to hold fewer than 64. It makes two sections exactly when they do not all fit and
      the other half is taken to hold 64. */
  lemma PlanStopsIff(scanned: uint32, per: nat, usable: nat, plan: Plan)
    requires per > 0 && Planned(scanned, per, usable, plan)
    ensures plan.Exit? <==>
      Fit32(usable, per) == 0 || (!AllFit(scanned, per, usable) && Fit32(usable / 2, per) < 64)
    ensures plan.Caps? ==> (plan.c1 > 0 <==> !AllFit(scanned, per, usable) && Fit32(usable - usable / 2, per) >= 64)
  {
    FloorZero(Fit32(usable - usable / 2, per));
    hide Fit32, FloorMultiple;
  }

  /** Both capacities are whole multiples of 64 and the first is not 0. */
  lemma PlanMultiples(scanned: uint32, per: nat, usable: nat, plan: Plan)
    requires per > 0 && Planned(scanned, per, usable, plan) && plan.Caps?
    ensures plan.c0 > 0 && plan.c0 % 64 == 0 && plan.c1 % 64 == 0
  {
    hide Fit32, FloorMultiple;
    FloorFacts(Max(scanned, DEFAULT_TX_DESC * 4));
    FloorFacts(Fit32(usable / 2, per));
    FloorFacts(Fit32(usable - usable / 2, per));
  }

  /** The packets of both sections are within the memory left. */
  lemma PlanWithinMemory(scanned: uint32, per: nat, usable: nat, plan: Plan)
    requires per > 0 && Planned(scanned, per, usable, plan) && plan.Caps?
    ensures (plan.c0 + plan.c1) * per <= usable
  {
    var half0, half1 := usable / 2, usable - usable / 2;
    var all, n0, n1 := Fit32(usable, per), Fit32(half0, per), Fit32(half1, per);
    FitCast(usable, per);
    FitCast(half0, per);
    FitCast(half1, per);
    hide Fit32, FloorMultiple;
    FloorFacts(Max(scanned, DEFAULT_TX_DESC * 4));
    FloorFacts(n0);
    FloorFacts(n1);
    if AllFit(scanned, per, usable) {
      MulOrder(plan.c0, all, per);
    } else {
      MulOrder(plan.c0, n0, per);
      MulOrder(plan.c1, n1, per);
      Distributes(plan.c0, plan.c1, per);
    }
  }

  lemma FloorFacts(n: nat)
    ensures FloorMultiple(n) % 64 == 0 && FloorMultiple(n) <= n && (n >= 64 ==> FloorMultiple(n) > 0)
  {
  }

  lemma Distributes(a: nat, b: nat, per: nat)
    ensures (a + b) * per == a * per + b * per
  {
  }

  lemma FloorOrder(a: nat, b: nat)
    requires a <= b
    ensures FloorMultiple(a) <= FloorMultiple(b)
  {
  }

  /** What every plan guarantees, however much memory there is. It stops exactly as above.
      Otherwise both capacities are whole multiples of 64, the first is not 0, and both are
      within the memory left: a truncating cast only lowers them. */
  lemma PlanFits(scanned: uint32, per: nat, usable: nat, plan: Plan)
    requires per > 0 && Planned(scanned, per, usable, plan)
    ensures plan.Exit? <==>
      Fit32(usable, per) == 0 || (!AllFit(scanned, per, usable) && Fit32(usable / 2, per) < 64)
    ensures plan.Caps? ==>
      && plan.c0 > 0 && plan.c0 % 64 == 0 && plan.c1 % 64 == 0
      && (plan.c0 + plan.c1) * per <= usable
      && (plan.c1 > 0 <==> !AllFit(scanned, per, usable) && Fit32(usable - usable / 2, per) >= 64)
  {
    hide *;
    PlanStopsIff(scanned, per, usable, plan);
    if plan.Caps? {
      PlanMultiples(scanned, per, usable, plan);
      PlanWithinMemory(scanned, per, usable, plan);
    }
  }

  /** The plan as the source intends it: it stops exactly when the packets do not all fit and half
      the memory holds fewer than 64, and otherwise there are two sections, the second no smaller,
      exactly when the packets do not all fit. */
  ghost predicate Intended(scanned: uint32, per: nat, usable: nat, plan: Plan)
    requires per > 0
  {
    var all := Max(scanned, DEFAULT_TX_DESC * 4) <= Fit(usable, per);
    && (plan.Exit? <==> !all && Fit(usable / 2, per) < 64)
    && (plan.Caps? ==> (plan.c1 > 0 <==> !all) && (plan.c1 > 0 ==> plan.c1 >= plan.c0))
  }

  /** Below 2^32 packets the casts lose nothing. */
  lemma PlanAsIntended(scanned: uint32, per: nat, usable: nat, plan: Plan)
    requires per > 0 && Planned(scanned, per, usable, plan) && Fit(usable, per) < 0x1_0000_0000
    ensures Intended(scanned, per, usable, plan)
  {
    hide Fit, Fit32, FloorMultiple;
    var half0, half1 := usable / 2, usable - usable / 2;
    FitMonotone(half0, half1, per);
    FitMonotone(half1, usable, per);
    FitExact(half0, per);
    FitExact(half1, per);
    FitExact(usable, per);
    FloorOrder(Fit(half0, per), Fit(half1, per));
    FloorZero(Fit(half1, per));
  }

  lemma FitExact(bytes: nat, per: nat)
    requires per > 0 && Fit(bytes, per) < 0x1_0000_0000
    ensures Fit32(bytes, per) == Fit(bytes, per)
  {
    hide Fit;
  }

  /** A packet takes at least 160 bytes. */
  lemma CountsFit(bytes: nat, dataroom: uint32)
    requires bytes < 160 * 0x1_0000_0000
    ensures Fit(bytes, PerPktBytes(dataroom)) < 0x1_0000_0000
  {
    var per := PerPktBytes(dataroom);
    assert per >= 160;
    FitBounds(bytes, per);
    hide Fit, PerPktBytes;
    if Fit(bytes, per) >= 0x1_0000_0000 {
      MulOrder(0x1_0000_0000, Fit(bytes, per), per);
    }
  }

  /** So with less than 640 GiB of hugepages the sizing does what it is meant to. */
  lemma SizedAsIntended(files: seq<seq<byte>>, total: nat, totalMemUsed: nat, plan: Plan)
    requires Sized(files, total, totalMemUsed, plan) && total < 160 * 0x1_0000_0000
    requires ScanFiles(files, 0, Info(0, 0, 0)).Some? && ScanFiles(files, 0, Info(0, 0, 0)).value.count > 0
    ensures var s := ScanFiles(files, 0, Info(0, 0, 0));
      && s.value.count < 0x1_0000_0000 && s.value.max < 0x1_0000_0000
      && Intended(s.value.count, PerPktBytes(Dataroom(s.value.max)), Usable64(total, ReserveBytes(totalMemUsed)), plan)
  {
    hide Planned, PerPktBytes, Dataroom, ReserveBytes, Fit, Intended, ScanFiles;
    var s := ScanFiles(files, 0, Info(0, 0, 0)).value;
    var dataroom, usable := Dataroom(s.max), Usable64(total, ReserveBytes(totalMemUsed));
    CountsFit(usable, dataroom);
    PlanAsIntended(s.count, PerPktBytes(dataroom), usable, plan);
  }

  // ------------------------------------------- the plan, from the files and the memory alone

  /** What a packet takes when the largest is `max` bytes: the buffer header, the headroom, the
      largest packet and the pool's own 32 bytes, rounded up to the next cache line but for the 32. */
  ghost predicate PacketTakes(max: nat, per: nat) {
    per % 64 == 32 && max + 128 + 128 + 32 <= per < max + 128 + 128 + 32 + 64
  }

  lemma PerPktTakes(max: uint32)
    requires max + 191 < 0x1_0000_0000
    ensures PacketTakes(max, PerPktBytes(Dataroom(max)))
  {
    DataroomIs(max);
    hide Dataroom;
  }

  /** The reserve is half as many 2 MB pages again as hold what is used, and one at least. */
  ghost predicate Reserved(used: nat, reserve: nat) {
    exists n: nat, p: nat :: Pages(used, n) && HalfAgain(n, p) && reserve == p * 0x20_0000
  }

  ghost predicate Pages(used: nat, n: nat) {
    used <= n * 0x20_0000 < used + 0x20_0000
  }

  ghost predicate HalfAgain(n: nat, p: nat) {
    if n == 0 then p == 1 else 3 * n <= 2 * p <= 3 * n + 1
  }

  lemma ReserveIs(used: nat)
    ensures Reserved(used, ReserveBytes(used))
  {
    var usedKb := (used + 1023) / 1024;
    var n := (usedKb + 2048 - 1) / 2048;
    var p := if n == 0 then 1 else (n * 3 + 1) / 2;
    assert Pages(used, n) && HalfAgain(n, p);
  }

  /** The bytes left beyond a reserve. */
  ghost predicate Left(total: nat, reserve: nat, usable: nat) {
    if total > reserve then usable == total - reserve else usable == 0
  }

  /** `c` is the most packets of `per` bytes, in whole blocks of 64, that go into `bytes`. */
  ghost predicate MostBlocks(c: nat, per: nat, bytes: nat) {
    c % 64 == 0 && c * per <= bytes < (c + 64) * per
  }

  /** One section for all the packets, up to whole blocks of 64, when they go into `usable` bytes;
      else two, each as large as goes into its half; or none when the first would be empty. */
  ghost predicate Divided(want: nat, per: nat, usable: nat, plan: Plan) {
    if want * per <= usable then
      plan.Caps? && plan.c1 == 0 && plan.c0 % 64 == 0 && plan.c0 <= want < plan.c0 + 64
    else if usable / 2 < 64 * per then plan.Exit?
    else plan.Caps? && MostBlocks(plan.c0, per, usable / 2) && MostBlocks(plan.c1, per, usable - usable / 2)
  }

  /** `n` is the number of packets of `per` bytes that go into `bytes`, as 32 bits hold it. */
  ghost predicate Counted(n: nat, per: nat, bytes: nat) {
    n < 0x1_0000_0000 && exists wraps: nat :: WholePackets(n + wraps * 0x1_0000_0000, per, bytes)
  }

  ghost predicate WholePackets(n: nat, per: nat, bytes: nat) {
    n * per <= bytes < (n + 1) * per
  }

  ghost predicate Blocks(c: nat, n: nat) {
    c % 64 == 0 && c <= n < c + 64
  }

  /** The same by counts: `all` packets go into the whole memory, `n0` and `n1` into its halves. */
  ghost predicate DividedBy(want: nat, all: nat, n0: nat, n1: nat, plan: Plan) {
    if all == 0 then plan.Exit?
    else if want <= all then plan.Caps? && plan.c1 == 0 && Blocks(plan.c0, want)
    else if n0 < 64 then plan.Exit?
    else plan.Caps? && Blocks(plan.c0, n0) && Blocks(plan.c1, n1)
  }

  /** For any memory, the counts being those that 32 bits hold. */
  ghost predicate DividedIn32(want: nat, per: nat, usable: nat, plan: Plan) {
    exists all: nat, n0: nat, n1: nat ::
      && Counted(all, per, usable) && Counted(n0, per, usable / 2) && Counted(n1, per, usable - usable / 2)
      && DividedBy(want, all, n0, n1, plan)
  }

  ghost predicate CountedFor(count: nat, max: nat, used: nat, total: nat, plan: Plan) {
    exists per: nat, reserve: nat, usable: nat ::
      && PacketTakes(max, per) && Reserved(used, reserve) && Left(total, reserve, usable)
      && DividedIn32(if count > 4096 then count else 4096, per, usable, plan)
  }

  lemma Fit32Counts(bytes: nat, per: nat)
    requires per > 0
    ensures Counted(Fit32(bytes, per), per, bytes)
  {
    FitBounds(bytes, per);
    var n := Fit(bytes, per);
    assert n == Cast32(n) + (n / 0x1_0000_0000) * 0x1_0000_0000;
    hide Fit;
    assert WholePackets(Cast32(n) + (n / 0x1_0000_0000) * 0x1_0000_0000, per, bytes);
  }

  lemma BlocksOf(n: nat)
    ensures Blocks(FloorMultiple(n), n)
  {
  }

  lemma PlanDividesBy(scanned: uint32, per: nat, usable: nat, plan: Plan)
    requires per > 0 && Planned(scanned, per, usable, plan)
    ensures DividedBy(Max(scanned, DEFAULT_TX_DESC * 4), Fit32(usable, per), Fit32(usable / 2, per),
                      Fit32(usable - usable / 2, per), plan)
  {
    BlocksOf(Max(scanned, DEFAULT_TX_DESC * 4));
    BlocksOf(Fit32(usable / 2, per));
    BlocksOf(Fit32(usable - usable / 2, per));
    hide Fit32, FloorMultiple, Blocks;
  }

  lemma PlanDividesIn32(scanned: uint32, per: nat, usable: nat, plan: Plan)
    requires per > 0 && Planned(scanned, per, usable, plan)
    ensures DividedIn32(Max(scanned, DEFAULT_TX_DESC * 4), per, usable, plan)
  {
    PlanDividesBy(scanned, per, usable, plan);
    Fit32Counts(usable, per);
    Fit32Counts(usable / 2, per);
    Fit32Counts(usable - usable / 2, per);
    hide Fit32, FloorMultiple, Counted, DividedBy, Planned, Max;
  }

  /** The largest of the records the plan is made for, and never fewer of them than 4096. */
  ghost predicate DividedFor(count: nat, max: nat, used: nat, total: nat, plan: Plan) {
    exists per: nat, reserve: nat, usable: nat ::
      && PacketTakes(max, per) && Reserved(used, reserve) && Left(total, reserve, usable)
      && Divided(if count > 4096 then count else 4096, per, usable, plan)
  }

  /** What is planned and what is reserved are within the memory. */
  ghost predicate WithinMemory(max: nat, used: nat, total: nat, plan: Plan) {
    exists per: nat, reserve: nat ::
      && PacketTakes(max, per) && Reserved(used, reserve)
      && (plan.Caps? ==> (plan.c0 + plan.c1) * per + reserve <= total)
  }

  lemma BlocksFit(bytes: nat, per: nat)
    requires per > 0
    ensures MostBlocks(FloorMultiple(Fit(bytes, per)), per, bytes)
  {
    FitBounds(bytes, per);
    var n := Fit(bytes, per);
    var c := FloorMultiple(n);
    assert c % 64 == 0 && c <= n && n + 1 <= c + 64;
    hide Fit, FloorMultiple;
    MulOrder(c, n, per);
    MulOrder(n + 1, c + 64, per);
  }

  lemma FitsIff(want: nat, bytes: nat, per: nat)
    requires per > 0
    ensures want <= Fit(bytes, per) <==> want * per <= bytes
  {
    FitBounds(bytes, per);
    var n := Fit(bytes, per);
    hide Fit;
    if want <= n {
      MulOrder(want, n, per);
    } else {
      MulOrder(n + 1, want, per);
    }
  }

  lemma PlanDivides(scanned: uint32, per: nat, usable: nat, plan: Plan)
    requires per > 0 && Planned(scanned, per, usable, plan) && Fit(usable, per) < 0x1_0000_0000
    ensures Divided(Max(scanned, DEFAULT_TX_DESC * 4), per, usable, plan)
  {
    var want, half0, half1 := Max(scanned, DEFAULT_TX_DESC * 4), usable / 2, usable - usable / 2;
    FitMonotone(half0, usable, per);
    FitMonotone(half1, usable, per);
    FitExact(half0, per);
    FitExact(half1, per);
    FitExact(usable, per);
    FitsIff(want, usable, per);
    FitsIff(64, half0, per);
    BlocksFit(half0, per);
    BlocksFit(half1, per);
    assert FloorMultiple(want) <= want < FloorMultiple(want) + 64;
    hide Fit, Fit32, FloorMultiple, MostBlocks;
  }

  lemma LeftIs(total: nat, reserve: nat)
    ensures Left(total, reserve, Usable64(total, reserve))
  {
  }

  /** The plan for the scan of the files is within the memory, the largest packet counted for each. */
  lemma SizedWithinMemory(files: seq<seq<byte>>, total: nat, used: nat, plan: Plan)
    requires Sized(files, total, used, plan)
    requires var s := ScanFiles(files, 0, Info(0, 0, 0));
      s.Some? && s.value.count > 0 && s.value.max + 191 < 0x1_0000_0000
    ensures WithinMemory(ScanFiles(files, 0, Info(0, 0, 0)).value.max, used, total, plan)
  {
    hide Planned, PerPktBytes, Dataroom, ReserveBytes, ScanFiles, PacketTakes, Reserved;
    var s := ScanFiles(files, 0, Info(0, 0, 0)).value;
    var per, reserve := PerPktBytes(Dataroom(s.max)), ReserveBytes(used);
    PerPktTakes(s.max);
    ReserveIs(used);
    if plan.Caps? {
      PlanWithinMemory(s.count, per, Usable64(total, reserve), plan);
      PlanMultiples(s.count, per, Usable64(total, reserve), plan);
      AtLeastOne(plan.c0 + plan.c1, per);
    }
  }

  lemma AtLeastOne(c: nat, per: nat)
    requires c > 0 && per > 0
    ensures c * per > 0
  {
  }

  /** With less than 640 GiB the plan is exactly the one the files and the memory call for. */
  lemma SizedExactly(files: seq<seq<byte>>, total: nat, used: nat, plan: Plan)
    requires Sized(files, total, used, plan) && total < 160 * 0x1_0000_0000
    requires var s := ScanFiles(files, 0, Info(0, 0, 0));
      s.Some? && s.value.count > 0 && s.value.max + 191 < 0x1_0000_0000
    ensures var s := ScanFiles(files, 0, Info(0, 0, 0)).value;
      DividedFor(s.count, s.max, used, total, plan)
  {
    hide Planned, PerPktBytes, Dataroom, ReserveBytes, ScanFiles, PacketTakes, Reserved, Divided, Fit;
    var s := ScanFiles(files, 0, Info(0, 0, 0)).value;
    var reserve := ReserveBytes(used);
    var per, usable := PerPktBytes(Dataroom(s.max)), Usable64(total, reserve);
    PerPktTakes(s.max);
    ReserveIs(used);
    LeftIs(total, reserve);
    CountsFit(usable, Dataroom(s.max));
    PlanDivides(s.count, per, usable, plan);
  }

  /** However much memory there is, the plan is the one that 32-bit counts of packets lead to. */
  lemma SizedIn32(files: seq<seq<byte>>, total: nat, used: nat, plan: Plan)
    requires Sized(files, total, used, plan)
    requires var s := ScanFiles(files, 0, Info(0, 0, 0));
      s.Some? && s.value.count > 0 && s.value.max + 191 < 0x1_0000_0000
    ensures var s := ScanFiles(files, 0, Info(0, 0, 0)).value;
      CountedFor(s.count, s.max, used, total, plan)
  {
    hide Planned, PerPktBytes, Dataroom, ReserveBytes, ScanFiles, PacketTakes, Reserved, DividedIn32;
    var s := ScanFiles(files, 0, Info(0, 0, 0)).value;
    var reserve := ReserveBytes(used);
    var per, usable := PerPktBytes(Dataroom(s.max)), Usable64(total, reserve);
    PerPktTakes(s.max);
    ReserveIs(used);
    LeftIs(total, reserve);
    PlanDividesIn32(s.count, per, usable, plan);
  }

  /** Room for 2^32 packets counts as room for none: the port stops for want of memory. */
  lemma WrapsToNothing(scanned: uint32, per: nat, plan: Plan)
    requires per > 0 && Planned(scanned, per, 0x1_0000_0000 * per, plan)
    ensures plan.Exit?
  {
    FitsIff(0x1_0000_0000, 0x1_0000_0000 * per, per);
    FitsIff(0x1_0000_0001, 0x1_0000_0000 * per, per);
    hide Fit, Planned;
    assert Fit(0x1_0000_0000 * per, per) == 0x1_0000_0000;
    assert Fit32(0x1_0000_0000 * per, per) == 0;
    PlanStopsIff(scanned, per, 0x1_0000_0000 * per, plan);
  }

  ghost predicate Largest(ps: seq<Packet>, max: nat) {
    (forall i :: 0 <= i < |ps| ==> |ps[i]| <= max) && exists i :: 0 <= i < |ps| && |ps[i]| == max
  }

  /** From the files: a well-formed source is divided by the number and the largest of its
      records, and every one of them has its bytes and two headers' worth for each buffer. */
  lemma SourceDivided(files: seq<seq<byte>>, total: nat, used: nat, plan: Plan, max: nat)
    requires Source(files) && Sized(files, total, used, plan)
    requires Largest(Concat(files, 0), max) && max + 191 < 0x1_0000_0000
    ensures WithinMemory(max, used, total, plan)
    ensures CountedFor(|Concat(files, 0)|, max, used, total, plan)
    ensures total < 160 * 0x1_0000_0000 ==> DividedFor(|Concat(files, 0)|, max, used, total, plan)
  {
    InfoOfSource(files);
    hide Planned, ScanFiles, Source, Concat, Sized, WithinMemory, CountedFor, DividedFor;
    assert max == ScanFiles(files, 0, Info(0, 0, 0)).value.max;
    SizedWithinMemory(files, total, used, plan);
    SizedIn32(files, total, used, plan);
    if total < 160 * 0x1_0000_0000 {
      SizedExactly(files, total, used, plan);
    }
  }

  lemma MulOrder(a: nat, b: nat, k: nat)
    requires a <= b
    ensures a * k <= b * k
  {
    assert b * k - a * k == (b - a) * k;
  }

  lemma {:induction false} MultipleWraps(m: nat, k: nat, n: nat)
    requires n > 0 && Wrap(m, n) == 0
    ensures Wrap(m * k, n) == 0
  {
    if k > 0 {
      MultipleWraps(m, k - 1, n);
      WrapPlus(m, m * (k - 1), n);
      assert m * k == m + m * (k - 1);
    }
  }

  /** Planned capacities are multiples of 64; the bursts that suit every multiple of 64 are its
      divisors. */
  lemma BurstSuitsPlansIff(burst: nat)
    requires burst > 0
    ensures (forall k: nat :: k > 0 ==> Suits(64 * k, burst)) <==> Wrap(64, burst) == 0
  {
    if Wrap(64, burst) == 0 {
      forall k: nat | k > 0
        ensures Suits(64 * k, burst)
      {
        MultipleWraps(64, k, burst);
      }
    } else if burst <= 64 {
      assert !Suits(64 * 1, burst);
    } else {
      TwoMultiples(burst);
    }
  }

  /** A burst above 64 cannot divide two successive multiples of 64. */
  lemma TwoMultiples(burst: nat)
    requires burst > 64
    ensures !Suits(64 * burst, burst) || !Suits(64 * (burst + 1), burst)
  {
    WrapPlus(64 * burst, 64, burst);
    assert 64 * burst + 64 == 64 * (burst + 1);
    if Wrap(64 * burst, burst) == 0 {
      assert Wrap(64 * (burst + 1), burst) == 64;
    }
  }

  /** From the files to the replay: on a well-formed source, with the two sections that the scan
      and the sizing give and a burst that divides 64, a port meets the conditions under which
      no section is overrun. */
  lemma SizedPortReplays(files: seq<seq<byte>>, total: nat, totalMemUsed: nat, plan: Plan, burst: nat)
    requires Source(files) && burst > 0 && Wrap(64, burst) == 0
    requires Sized(files, total, totalMemUsed, plan) && plan.Caps? && plan.c1 > 0
    ensures TwoSections(Config(files, [plan.c0, plan.c1], burst))
  {
    InfoOfSource(files);
    SizedIsPlanned(files, total, totalMemUsed, plan);
    hide Planned, PerPktBytes, Dataroom, ReserveBytes, Source, Startable;
    var info := ScanFiles(files, 0, Info(0, 0, 0)).value;
    PlanMultiples(info.count, PerPktBytes(Dataroom(info.max)), Usable64(total, ReserveBytes(totalMemUsed)), plan);
    MultipleOf64(plan.c0, burst);
    MultipleOf64(plan.c1, burst);
    SourceStartable(files);
    SourceNotEmpty(files);
  }

  lemma SizedIsPlanned(files: seq<seq<byte>>, total: nat, totalMemUsed: nat, plan: Plan)
    requires Sized(files, total, totalMemUsed, plan) && plan.Caps?
    ensures var s := ScanFiles(files, 0, Info(0, 0, 0));
      && s.Some? && s.value.count < 0x1_0000_0000 && s.value.max < 0x1_0000_0000
      && Planned(s.value.count, PerPktBytes(Dataroom(s.value.max)), Usable64(total, ReserveBytes(totalMemUsed)), plan)
  {
    hide Planned, PerPktBytes, Dataroom, ReserveBytes;
  }

  lemma SourceNotEmpty(files: seq<seq<byte>>)
    requires Source(files)
    ensures |files| > 0
  {
  }

  lemma MultipleOf64(cap: nat, burst: nat)
    requires burst > 0 && Wrap(64, burst) == 0 && cap % 64 == 0
    ensures Suits(cap, burst)
  {
    MultipleWraps(64, cap / 64, burst);
  }

  /** rte_pktmbuf_pool_create takes the data room as 16 bits. */
  function PoolDataroom(dataroom: uint32): uint16 {
    dataroom % 0x1_0000
  }

  /** A record of `len` bytes fits its buffer behind the headroom. */
  predicate FitsBuffer(len: nat, maxPktSize: uint32) {
    RTE_PKTMBUF_HEADROOM + len <= PoolDataroom(Dataroom(maxPktSize))
  }

  /** Every record up to the largest fits if and only if the largest is at most 65344 bytes:
      beyond that the data room exceeds the 16 bits in which it is passed to the pool, and
      nothing checks it. */
  lemma RecordsFitIff(maxPktSize: uint32)
    ensures (forall len: nat :: len <= maxPktSize ==> FitsBuffer(len, maxPktSize)) <==> maxPktSize <= 65344
  {
    DataroomIs(maxPktSize);
    hide Dataroom;
    if maxPktSize > 65344 {
      PoolTooSmall(maxPktSize);
      assert !FitsBuffer(maxPktSize, maxPktSize);
    }
  }

  lemma DataroomIs(maxPktSize: uint32)
    ensures var room := Dataroom(maxPktSize);
      && room % 64 == 0
      && (maxPktSize + RTE_PKTMBUF_HEADROOM + 63 < 0x1_0000_0000 ==>
            maxPktSize + RTE_PKTMBUF_HEADROOM <= room < maxPktSize + RTE_PKTMBUF_HEADROOM + 64)
      && (maxPktSize + RTE_PKTMBUF_HEADROOM + 63 >= 0x1_0000_0000 ==> room <= 190)
  {
  }

  lemma PoolTooSmall(maxPktSize: uint32)
    ensures PoolDataroom(Dataroom(maxPktSize)) <= 65472
  {
    DataroomIs(maxPktSize);
    Sixteen(Dataroom(maxPktSize));
  }

  lemma Sixteen(x: nat)
    requires x % 64 == 0
    ensures x % 0x1_0000 <= 65472
  {
    var q, d := x / 64, x / 0x1_0000;
    assert x == 64 * q && x == 0x1_0000 * d + x % 0x1_0000;
    assert x % 0x1_0000 == 64 * (q - 1024 * d);
  }
}
