/** Frames as a sender builds them, and what the capture programs make of them. */
module HttpFrames {
  import opened Common
  import opened HttpCapture

  /**
  An Ethernet frame with an IPv4 header (section 3.1 of RFC 791) and a TCP header (section 3.1 of RFC 9293);
  the fields the programs do not look at are kept as raw bytes.
  */
  datatype Frame = Frame(
    macs: seq<Byte>,
    version: nat, ihl: nat, ipFields: seq<Byte>, ipChecksum: seq<Byte>, srcIp: seq<Byte>, dstIp: seq<Byte>,
    ipOptions: seq<Byte>,
    srcPort: nat, dstPort: nat, seqAck: seq<Byte>, dataOffset: nat, reserved: nat, tcpFields: seq<Byte>,
    tcpOptions: seq<Byte>,
    payload: seq<Byte>)

  predicate WellFormed(p: Frame) {
    && |p.macs| == 12
    && p.version < 16 && 5 <= p.ihl < 16 && |p.ipFields| == 8 && |p.ipChecksum| == 2
    && |p.srcIp| == 4 && |p.dstIp| == 4 && |p.ipOptions| == 4 * p.ihl - 20
    && p.srcPort < 0x1_0000 && p.dstPort < 0x1_0000 && |p.seqAck| == 8
    && 5 <= p.dataOffset < 16 && p.reserved < 16 && |p.tcpFields| == 7
    && |p.tcpOptions| == 4 * p.dataOffset - 20
  }

  function Eth(p: Frame): (r: seq<Byte>)
    requires WellFormed(p)
    ensures |r| == 14 && r[..12] == p.macs && U16(r, 12) == ETH_P_IP
  {
    p.macs + [8, 0]
  }

  function IpFixed(p: Frame): (r: seq<Byte>)
    requires WellFormed(p)
    ensures |r| == 20 && r[0] == p.version * 16 + p.ihl && r[1..9] == p.ipFields && r[9] == IPPROTO_TCP
    ensures r[10..12] == p.ipChecksum && r[12..16] == p.srcIp && r[16..20] == p.dstIp
  {
    [p.version * 16 + p.ihl] + p.ipFields + [6] + p.ipChecksum + p.srcIp + p.dstIp
  }

  function TcpFixed(p: Frame): (r: seq<Byte>)
    requires WellFormed(p)
    ensures |r| == 20 && U16(r, 0) == p.srcPort && U16(r, 2) == p.dstPort && r[4..12] == p.seqAck
    ensures r[12] == p.dataOffset * 16 + p.reserved && r[13..20] == p.tcpFields
  {
    [p.srcPort / 256, p.srcPort % 256, p.dstPort / 256, p.dstPort % 256] + p.seqAck +
    [p.dataOffset * 16 + p.reserved] + p.tcpFields
  }

  function Encode(p: Frame): seq<Byte>
    requires WellFormed(p)
  {
    Eth(p) + IpFixed(p) + p.ipOptions + TcpFixed(p) + p.tcpOptions + p.payload
  }

  /** Where the parts of an encoded frame lie. */
  lemma Layout(p: Frame)
    requires WellFormed(p)
    ensures var f := Encode(p); var tcp := 14 + 4 * p.ihl; var pay := tcp + 4 * p.dataOffset;
      && |f| == pay + |p.payload|
      && f[..14] == Eth(p) && f[14..34] == IpFixed(p) && f[34..tcp] == p.ipOptions
      && f[tcp..tcp + 20] == TcpFixed(p) && f[tcp + 20..pay] == p.tcpOptions && f[pay..] == p.payload
  {}

  /** Byte `i` of a part that starts at `at` is byte `at + i` of the frame. */
  lemma InPart(f: seq<Byte>, at: nat, part: seq<Byte>, i: nat)
    requires at + |part| <= |f| && f[at..at + |part|] == part && i < |part|
    ensures f[at + i] == part[i]
  {
    assert f[at..at + |part|][i] == f[at + i];
  }

  /** A slice of such a part is the same slice of the frame. */
  lemma SliceOfPart(f: seq<Byte>, at: nat, part: seq<Byte>, i: nat, j: nat)
    requires at + |part| <= |f| && f[at..at + |part|] == part && i <= j <= |part|
    ensures f[at + i..at + j] == part[i..j]
  {
    forall k | 0 <= k < j - i ensures f[at + i..at + j][k] == part[i..j][k] {
      InPart(f, at, part, i + k);
    }
  }

  lemma WalkIp(p: Frame)
    requires WellFormed(p)
    ensures var f := Encode(p);
      && |f| >= 34 && IsIp(f) && f[23] == IPPROTO_TCP && TcpStart(f) == 14 + 4 * p.ihl
      && f[26..30] == p.srcIp && f[30..34] == p.dstIp
  {
    Layout(p);
    var f := Encode(p);
    InPart(f, 0, Eth(p), 12);
    InPart(f, 0, Eth(p), 13);
    InPart(f, 14, IpFixed(p), 0);
    InPart(f, 14, IpFixed(p), 9);
    SliceOfPart(f, 14, IpFixed(p), 12, 16);
    SliceOfPart(f, 14, IpFixed(p), 16, 20);
  }

  lemma WalkTcp(p: Frame)
    requires WellFormed(p)
    ensures var f := Encode(p); var tcp := 14 + 4 * p.ihl;
      && tcp + 20 <= |f| && U16(f, tcp) == p.srcPort && U16(f, tcp + 2) == p.dstPort
      && f[tcp + 12] == p.dataOffset * 16 + p.reserved
  {
    Layout(p);
    var f := Encode(p);
    var tcp := 14 + 4 * p.ihl;
    InPart(f, tcp, TcpFixed(p), 0);
    InPart(f, tcp, TcpFixed(p), 1);
    InPart(f, tcp, TcpFixed(p), 2);
    InPart(f, tcp, TcpFixed(p), 3);
    InPart(f, tcp, TcpFixed(p), 12);
  }

  /** The walk finds every header of an encoded frame, whatever its options. */
  lemma WalkEncoded(p: Frame)
    requires WellFormed(p)
    ensures var f := Encode(p);
      && IsIp(f) && IsTcp(f) && TcpStart(f) == 14 + 4 * p.ihl
      && SrcPort(f) == p.srcPort && DstPort(f) == p.dstPort
      && PayloadStart(f) == 14 + 4 * p.ihl + 4 * p.dataOffset && f[PayloadStart(f)..] == p.payload
      && f[26..30] == p.srcIp && f[30..34] == p.dstIp
  {
    WalkIp(p);
    WalkTcp(p);
    Layout(p);
    assert (p.dataOffset * 16 + p.reserved) / 16 == p.dataOffset;
  }

  /** Zero-padded start of a payload. */
  function Padded(payload: seq<Byte>, cap: nat): seq<Byte> {
    if |payload| < cap then payload + Zeroes(cap - |payload|) else payload[..cap]
  }

  /**
  What the XDP program does with a well-formed frame: port 8888 is dropped; of the rest exactly the port-80
  frames give an event (if the ring has room), with the sender's addresses, ports and the first 1024 payload bytes.
  */
  lemma XdpOnEncoded(p: Frame, reserved: bool)
    requires WellFormed(p)
    ensures XdpSpec(Encode(p), reserved) ==
      if p.dstPort == 8888 then (XdpDrop, None)
      else if reserved && (p.srcPort == 80 || p.dstPort == 80) then
        (XdpPass, Some(HttpEvent(p.srcIp, p.dstIp, p.srcPort, p.dstPort, Padded(p.payload, XDP_CAP))))
      else (XdpPass, None)
  {
    WalkEncoded(p);
    Layout(p);
    var f := Encode(p);
    var start := PayloadStart(f);
    var n := XdpLen(|p.payload|);
    assert f[start..start + n] == f[start..][..n];
    assert Captured(f, start, n, XDP_CAP) == Padded(p.payload, XDP_CAP);
  }

  /**
  What the TC program does with a well-formed frame, whatever its destination port: exactly the port-80 frames
  give an event (if the ring has room), with the sender's addresses, ports and the first 256 payload bytes,
  except that of exactly 255 bytes it keeps none.
  */
  lemma TcOnEncoded(p: Frame, reserved: bool)
    requires WellFormed(p)
    ensures TcSpec(Encode(p), ETH_P_IP, reserved) ==
      if reserved && (p.srcPort == 80 || p.dstPort == 80) then
        Some(HttpEvent(p.srcIp, p.dstIp, p.srcPort, p.dstPort,
                       if |p.payload| == 255 then Zeroes(256) else Padded(p.payload, 256)))
      else None
  {
    WalkEncoded(p);
    Layout(p);
    var f := Encode(p);
    var start := PayloadStart(f);
    var n := TcLen(|p.payload|);
    if |p.payload| == 255 {
      assert Captured(f, start, n, TC_CAP) == Zeroes(256);
    } else {
      assert f[start..start + n] == f[start..][..n];
      assert Captured(f, start, n, TC_CAP) == Padded(p.payload, TC_CAP);
    }
  }

  /** A port-80 frame without payload, a pure acknowledgement for instance, still gives an event. */
  lemma EmptyPayloadIsReported(p: Frame)
    requires WellFormed(p) && p.payload == [] && p.dstPort != 8888 && (p.srcPort == 80 || p.dstPort == 80)
    ensures XdpSpec(Encode(p), true) ==
      (XdpPass, Some(HttpEvent(p.srcIp, p.dstIp, p.srcPort, p.dstPort, Zeroes(XDP_CAP))))
    ensures TcSpec(Encode(p), ETH_P_IP, true) ==
      Some(HttpEvent(p.srcIp, p.dstIp, p.srcPort, p.dstPort, Zeroes(TC_CAP)))
  {
    XdpOnEncoded(p, true);
    WalkEncoded(p);
    Layout(p);
    CapturesAgree(Encode(p), ETH_P_IP);
    assert Padded([], XDP_CAP) == Zeroes(XDP_CAP) && Zeroes(XDP_CAP)[..TC_CAP] == Zeroes(TC_CAP);
  }

  /** A reply from port 80 with 255 bytes of text behind plain headers. */
  function LongReply(): (p: Frame)
    ensures WellFormed(p)
  {
    Frame(Zeroes(12), 4, 5, Zeroes(8), Zeroes(2), Zeroes(4), Zeroes(4), [],
          80, 1024, Zeroes(8), 5, 0, Zeroes(7), [], seq(255, _ => 65))
  }

  /** Of this frame one program captures the text and the other nothing but zeros. */
  lemma LongReplyDiffers()
    ensures var f := Encode(LongReply());
      && XdpSpec(f, true).1.Some? && XdpSpec(f, true).1.value.payload[..255] == seq(255, _ => 65)
      && TcSpec(f, ETH_P_IP, true).Some? && TcSpec(f, ETH_P_IP, true).value.payload == Zeroes(TC_CAP)
  {
    var p := LongReply();
    XdpOnEncoded(p, true);
    WalkEncoded(p);
    Layout(p);
  }

  /** The parts of a frame, by the two header lengths found in it. */
  function Decode(f: seq<Byte>): Frame
    requires IsTcp(f) && TcpStart(f) >= 34 && PayloadStart(f) <= |f|
    requires PayloadStart(f) >= TcpStart(f) + 20
  {
    var tcp := TcpStart(f);
    var pay := PayloadStart(f);
    Frame(f[..12], f[14] as int / 16, f[14] as int % 16, f[15..23], f[24..26], f[26..30], f[30..34], f[34..tcp],
          U16(f, tcp), U16(f, tcp + 2), f[tcp + 4..tcp + 12], f[tcp + 12] as int / 16, f[tcp + 12] as int % 16,
          f[tcp + 13..tcp + 20], f[tcp + 20..pay], f[pay..])
  }

  ghost predicate Legal(f: seq<Byte>) {
    IsIp(f) && IsTcp(f) && TcpStart(f) >= 34 && TcpStart(f) + 20 <= PayloadStart(f) <= |f|
  }

  lemma DecodeIp(f: seq<Byte>)
    requires Legal(f)
    ensures WellFormed(Decode(f)) && Eth(Decode(f)) == f[..14] && IpFixed(Decode(f)) == f[14..34]
  {
    assert f[..12] + [f[12], f[13]] == f[..14];
    assert [f[14]] + f[15..23] + [f[23]] + f[24..26] + f[26..30] + f[30..34] == f[14..34];
  }

  lemma TcpParts(f: seq<Byte>, t: nat)
    requires t + 20 <= |f|
    ensures [f[t], f[t + 1], f[t + 2], f[t + 3]] + f[t + 4..t + 12] + [f[t + 12]] + f[t + 13..t + 20] == f[t..t + 20]
  {}

  lemma DecodeTcp(f: seq<Byte>)
    requires Legal(f) && WellFormed(Decode(f))
    ensures TcpFixed(Decode(f)) == f[TcpStart(f)..TcpStart(f) + 20]
  {
    TcpParts(f, TcpStart(f));
  }

  lemma Rejoin(f: seq<Byte>, a: nat, b: nat, c: nat, d: nat, e: nat)
    requires a <= b <= c <= d <= e <= |f|
    ensures f[..a] + f[a..b] + f[b..c] + f[c..d] + f[d..e] + f[e..] == f
  {}

  /** Every IPv4/TCP frame with legal header lengths is the encoding of its parts. */
  lemma EncodeDecode(f: seq<Byte>)
    requires Legal(f)
    ensures WellFormed(Decode(f)) && Encode(Decode(f)) == f
  {
    DecodeIp(f);
    DecodeTcp(f);
    Rejoin(f, 14, 34, TcpStart(f), TcpStart(f) + 20, PayloadStart(f));
  }

  /** Decoding undoes encoding. */
  lemma DecodeEncode(p: Frame)
    requires WellFormed(p)
    ensures var f := Encode(p); IsTcp(f) && TcpStart(f) >= 34 && TcpStart(f) + 20 <= PayloadStart(f) <= |f|
    ensures Decode(Encode(p)) == p
  {
    WalkEncoded(p);
    Layout(p);
    var f := Encode(p);
    var tcp := TcpStart(f);
    SliceOfPart(f, 0, Eth(p), 0, 12);
    InPart(f, 14, IpFixed(p), 0);
    SliceOfPart(f, 14, IpFixed(p), 1, 9);
    SliceOfPart(f, 14, IpFixed(p), 10, 12);
    SliceOfPart(f, tcp, TcpFixed(p), 4, 12);
    InPart(f, tcp, TcpFixed(p), 12);
    SliceOfPart(f, tcp, TcpFixed(p), 13, 20);
  }
}
