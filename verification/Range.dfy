/** Range mode: stepping the fields of the packet template, once for every packet built. */
module Range {

  import opened Arith
  import opened Bytes

  const WORD: nat := 0x1_0000_0000
  const ETHER_TYPE_IPV4: nat := 0x0800
  const IPPROTO_TCP: nat := 6
  const IPPROTO_UDP: nat := 17
  const GTPU_PORT: nat := 2152

  /** The settings of one field: the value used when it does not step, the increment and the
      bounds. */
  datatype Field = Field(start: uint32, inc: uint32, min: uint32, max: uint32)

  /** One step of a field, in 32-bit arithmetic. */
  function Step(f: Field, v: uint32): uint32 {
    var p: uint32 := if v + f.inc < WORD then v + f.inc else v + f.inc - WORD;
    if p < f.min then f.max
    else if p > f.max then f.min
    else p
  }

  /** The value of a field in the next packet. */
  function Stepped(f: Field, v: uint32): uint32 {
    if f.inc != 0 then Step(f, v) else f.start
  }

  /** After `k` packets. */
  function Nth(f: Field, v: uint32, k: nat): uint32 {
    if k == 0 then v else Stepped(f, Nth(f, v, k - 1))
  }

  /** A stepping field stays within its bounds from the first step on, whatever it started from
      and even when the addition wraps. */
  lemma StaysInBounds(f: Field, v: uint32, k: nat)
    requires f.min <= f.max && f.inc != 0 && k > 0
    ensures f.min <= Nth(f, v, k) <= f.max
  {
    var w := Nth(f, v, k - 1);
    assert Nth(f, v, k) == Step(f, w);
  }

  /** A field that does not step has its own value from the first packet built on, whatever was
      in the template before. */
  lemma StaysAtStart(f: Field, v: uint32, k: nat)
    requires f.inc == 0 && k > 0
    ensures Nth(f, v, k) == f.start
  {
    assert Nth(f, v, k) == Stepped(f, Nth(f, v, k - 1));
  }

  // ------------------------------------------------------------------- the orbit

  /** The number of values from `min` on in steps of `inc`. */
  function Period(f: Field): nat
    requires f.min <= f.max && f.inc > 0
  {
    (f.max - f.min) / f.inc + 1
  }

  /** Value number `i` of the orbit. */
  function OrbitValue(f: Field, i: nat): nat {
    f.min + i * f.inc
  }

  lemma OrbitBounds(f: Field, i: nat)
    requires f.min <= f.max && f.inc > 0
    ensures i < Period(f) <==> OrbitValue(f, i) <= f.max
    ensures OrbitValue(f, i + 1) == OrbitValue(f, i) + f.inc
  {
    AtMostQuotient(i, f.max - f.min, f.inc);
    assert (i + 1) * f.inc == i * f.inc + f.inc;
  }

  lemma AtMostQuotient(i: nat, d: nat, n: nat)
    requires n > 0
    ensures i <= d / n <==> i * n <= d
  {
    var q, r := d / n, d % n;
    assert d == n * q + r;
    Multiples(i, q, n);
  }

  lemma Multiples(i: nat, q: nat, n: nat)
    ensures i <= q ==> i * n <= n * q
    ensures i > q ==> i * n >= n * q + n
  {
    if i <= q {
      MulAtLeast(n, q - i + 1);
      assert n * (q - i + 1) == n * q - i * n + n;
    } else {
      MulAtLeast(n, i - q);
      assert n * (i - q) == i * n - n * q;
    }
  }

  /** The sum that leaves the orbit again: one increment past its last value. */
  function Overrun(f: Field): nat
    requires f.min <= f.max && f.inc > 0
  {
    OrbitValue(f, Period(f))
  }

  /** The step after the last value leads back to `min`: it does not wrap around the 32-bit
      word, or there is only one value, or it wraps exactly onto `min`. */
  ghost predicate Closes(f: Field)
    requires f.min <= f.max && f.inc > 0
  {
    Overrun(f) < WORD || f.min == f.max || Overrun(f) == WORD + f.min
  }

  lemma StepWithin(f: Field, i: nat)
    requires f.min <= f.max && f.inc > 0 && i + 1 < Period(f)
    ensures OrbitValue(f, i) <= f.max && Step(f, OrbitValue(f, i)) == OrbitValue(f, i + 1)
  {
    OrbitBounds(f, i);
    OrbitBounds(f, i + 1);
    assert OrbitValue(f, i + 1) >= f.min by {
      assert (i + 1) * f.inc >= 0;
    }
    hide OrbitValue, Period;
  }

  lemma StepAround(f: Field)
    requires f.min <= f.max && f.inc > 0
    ensures OrbitValue(f, Period(f) - 1) <= f.max
    ensures Step(f, OrbitValue(f, Period(f) - 1)) == f.min <==> Closes(f)
  {
    OrbitBounds(f, Period(f) - 1);
    OrbitBounds(f, Period(f));
    hide OrbitValue, Period;
  }

  lemma {:induction false} OrbitHolds(f: Field, k: nat)
    requires f.min <= f.max && f.inc > 0 && Closes(f)
    ensures Nth(f, f.min, k) == OrbitValue(f, Wrap(k, Period(f)))
  {
    var p := Period(f);
    if k == 0 {
      assert OrbitValue(f, 0) == f.min;
    } else {
      OrbitHolds(f, k - 1);
      WrapNext(k - 1, p);
      var i := Wrap(k - 1, p);
      assert OrbitValue(f, 0) == f.min;
      hide OrbitValue, Wrap, Closes, Step, Period;
      if i + 1 < p {
        StepWithin(f, i);
      } else {
        StepAround(f);
      }
    }
  }

  lemma {:induction false} OrbitStart(f: Field, k: nat)
    requires f.min <= f.max && f.inc > 0 && k < Period(f)
    ensures Nth(f, f.min, k) == OrbitValue(f, k)
  {
    if k == 0 {
      assert OrbitValue(f, 0) == f.min;
    } else {
      OrbitStart(f, k - 1);
      StepWithin(f, k - 1);
    }
  }

  /** The field runs through min, min + inc, ... up to max and over again, for ever, if and only
      if the orbit closes. */
  lemma OrbitIff(f: Field)
    requires f.min <= f.max && f.inc > 0
    ensures (forall k: nat :: Nth(f, f.min, k) == f.min + (k % Period(f)) * f.inc) <==> Closes(f)
  {
    var p := Period(f);
    if Closes(f) {
      forall k: nat
        ensures Nth(f, f.min, k) == f.min + (k % p) * f.inc
      {
        OrbitHolds(f, k);
        WrapIsMod(k, p);
      }
    } else {
      OrbitStart(f, p - 1);
      StepAround(f);
      assert Nth(f, f.min, p) != f.min;
      DivModUnique(p, p, 1, 0);
      assert f.min + (p % p) * f.inc == f.min;
    }
  }

  // --------------------------------------------------------------- the packet template

  datatype RangeInfo = RangeInfo(tcpSeq: Field, tcpAck: Field, gtpuTeid: Field, srcPort: Field, dstPort: Field,
                                 ttl: Field, srcIp: Field, dstIp: Field, pktSize: Field)

  /** The narrow fields have settings of their own width. */
  ghost predicate Typed(r: RangeInfo) {
    Narrow(r.srcPort, 0x1_0000) && Narrow(r.dstPort, 0x1_0000) && Narrow(r.pktSize, 0x1_0000) && Narrow(r.ttl, 0x100)
  }

  ghost predicate Narrow(f: Field, width: nat) {
    f.start < width && f.min < width && f.max < width
  }

  /** The stepped part of the template. */
  datatype Template = Template(ethType: nat, ipProto: nat, tcpSeq: uint32, tcpAck: uint32, gtpuTeid: uint32,
                               sport: uint32, dport: uint32, ttl: uint32, srcIp: uint32, dstIp: uint32,
                               pktSize: uint32)

  predicate Ipv4Stream(t: Template) {
    t.ethType == ETHER_TYPE_IPV4 && (t.ipProto == IPPROTO_TCP || t.ipProto == IPPROTO_UDP)
  }

  /** The template for the next packet. The TCP numbers step for TCP whatever the network
      protocol; the tunnel id steps while the destination port, before its own step, is that of
      GTP-U. */
  function NextTemplate(r: RangeInfo, t: Template): Template {
    var t1 := if t.ipProto == IPPROTO_TCP
              then t.(tcpSeq := Stepped(r.tcpSeq, t.tcpSeq), tcpAck := Stepped(r.tcpAck, t.tcpAck))
              else t;
    if !Ipv4Stream(t) then t1
    else
      t1.(gtpuTeid := if t.dport == GTPU_PORT then Stepped(r.gtpuTeid, t.gtpuTeid) else t.gtpuTeid,
          sport := Stepped(r.srcPort, t.sport), dport := Stepped(r.dstPort, t.dport),
          ttl := Stepped(r.ttl, t.ttl),
          srcIp := Stepped(r.srcIp, t.srcIp), dstIp := Stepped(r.dstIp, t.dstIp),
          pktSize := Stepped(r.pktSize, t.pktSize))
  }

  function Templates(r: RangeInfo, t: Template, k: nat): Template {
    if k == 0 then t else NextTemplate(r, Templates(r, t, k - 1))
  }

  /** How many of the first `k` packets go to the GTP-U port. */
  function Tunnelled(r: RangeInfo, t: Template, k: nat): nat {
    if k == 0 then 0
    else Tunnelled(r, t, k - 1) + if Templates(r, t, k - 1).dport == GTPU_PORT then 1 else 0
  }

  /** Over a whole run every field of an IPv4 TCP or UDP template is on its own orbit; the tunnel
      id advances only with the packets that go to the GTP-U port. */
  lemma {:induction false} FieldsRun(r: RangeInfo, t: Template, k: nat)
    requires Ipv4Stream(t)
    ensures var n := Templates(r, t, k);
      && n.ethType == t.ethType && n.ipProto == t.ipProto
      && n.sport == Nth(r.srcPort, t.sport, k) && n.dport == Nth(r.dstPort, t.dport, k)
      && n.ttl == Nth(r.ttl, t.ttl, k) && n.pktSize == Nth(r.pktSize, t.pktSize, k)
      && n.srcIp == Nth(r.srcIp, t.srcIp, k) && n.dstIp == Nth(r.dstIp, t.dstIp, k)
      && n.gtpuTeid == Nth(r.gtpuTeid, t.gtpuTeid, Tunnelled(r, t, k))
      && (t.ipProto == IPPROTO_TCP ==>
            n.tcpSeq == Nth(r.tcpSeq, t.tcpSeq, k) && n.tcpAck == Nth(r.tcpAck, t.tcpAck, k))
      && (t.ipProto != IPPROTO_TCP ==> n.tcpSeq == t.tcpSeq && n.tcpAck == t.tcpAck)
  {
    hide Stepped;
    if k > 0 {
      FieldsRun(r, t, k - 1);
    }
  }

  /** The tunnel id steps with exactly the packets whose destination port is 2152. */
  lemma TunnelSteps(r: RangeInfo, t: Template, k: nat)
    requires Ipv4Stream(t)
    ensures var id, id' := Templates(r, t, k).gtpuTeid, Templates(r, t, k + 1).gtpuTeid;
      id' == if Nth(r.dstPort, t.dport, k) == 2152 then Nth(r.gtpuTeid, id, 1) else id
  {
    FieldsRun(r, t, k);
    assert Nth(r.gtpuTeid, Templates(r, t, k).gtpuTeid, 1) == Stepped(r.gtpuTeid, Templates(r, t, k).gtpuTeid) by {
      assert Nth(r.gtpuTeid, Templates(r, t, k).gtpuTeid, 0) == Templates(r, t, k).gtpuTeid;
    }
    hide Stepped;
  }

  /** Over a run the fields that do not step have their own values in every packet built. */
  lemma FixedFields(r: RangeInfo, t: Template, k: nat)
    requires Ipv4Stream(t) && k > 0
    ensures var n := Templates(r, t, k);
      && (r.srcPort.inc == 0 ==> n.sport == r.srcPort.start) && (r.dstPort.inc == 0 ==> n.dport == r.dstPort.start)
      && (r.ttl.inc == 0 ==> n.ttl == r.ttl.start) && (r.pktSize.inc == 0 ==> n.pktSize == r.pktSize.start)
      && (r.srcIp.inc == 0 ==> n.srcIp == r.srcIp.start) && (r.dstIp.inc == 0 ==> n.dstIp == r.dstIp.start)
      && (t.ipProto == IPPROTO_TCP && r.tcpSeq.inc == 0 ==> n.tcpSeq == r.tcpSeq.start)
      && (t.ipProto == IPPROTO_TCP && r.tcpAck.inc == 0 ==> n.tcpAck == r.tcpAck.start)
  {
    FieldsRun(r, t, k);
    FixedOnce(r.srcPort, t.sport, k);
    FixedOnce(r.dstPort, t.dport, k);
    FixedOnce(r.ttl, t.ttl, k);
    FixedOnce(r.pktSize, t.pktSize, k);
    FixedOnce(r.srcIp, t.srcIp, k);
    FixedOnce(r.dstIp, t.dstIp, k);
    FixedOnce(r.tcpSeq, t.tcpSeq, k);
    FixedOnce(r.tcpAck, t.tcpAck, k);
    hide *;
  }

  lemma FixedOnce(f: Field, v: uint32, k: nat)
    requires k > 0
    ensures f.inc == 0 ==> Nth(f, v, k) == f.start
  {
    if f.inc == 0 {
      StaysAtStart(f, v, k);
    }
  }

  class PktSeq {
    var ethType: nat
    var ipProto: nat
    var tcpSeq: uint32
    var tcpAck: uint32
    var gtpuTeid: uint32
    var sport: uint16
    var dport: uint16
    var ttl: byte
    var srcIp: uint32
    var dstIp: uint32
    var pktSize: uint16

    ghost function View(): Template
      reads this
    {
      Template(ethType, ipProto, tcpSeq, tcpAck, gtpuTeid, sport, dport, ttl, srcIp, dstIp, pktSize)
    }

    method RangeCtor(range: RangeInfo)
      requires Typed(range)
      modifies this
      ensures View() == NextTemplate(range, old(View()))
    {
      if ipProto == IPPROTO_TCP {
        tcpSeq := NextValue(range.tcpSeq, tcpSeq);
        tcpAck := NextValue(range.tcpAck, tcpAck);
      }
      if ethType == ETHER_TYPE_IPV4 {
        if ipProto == IPPROTO_TCP || ipProto == IPPROTO_UDP {
          if dport == GTPU_PORT {
            gtpuTeid := NextValue(range.gtpuTeid, gtpuTeid);
          }
          sport := NextValue(range.srcPort, sport);
          dport := NextValue(range.dstPort, dport);
          ttl := NextValue(range.ttl, ttl);
          srcIp := NextValue(range.srcIp, srcIp);
          dstIp := NextValue(range.dstIp, dstIp);
          pktSize := NextValue(range.pktSize, pktSize);
        }
      }
    }
  }

  /** The step of one field: an increment of zero selects the fixed value. */
  method NextValue(f: Field, v: uint32) returns (p: uint32)
    ensures p == Stepped(f, v)
    ensures forall width: nat :: Narrow(f, width) ==> p < width
  {
    if f.inc != 0 {
      var sum := v + f.inc;
      p := sum % WORD;
      if p < f.min {
        p := f.max;
      } else if p > f.max {
        p := f.min;
      }
    } else {
      p := f.start;
    }
  }
}
