/** The header walk and payload capture of eBPF/xdp.bpf.c and eBPF/tc_trace.bpf.c. */
module HttpCapture {
  import opened Common

  const ETH_LEN: nat := 14
  const ETH_P_IP: nat := 0x0800
  const IPPROTO_TCP: nat := 6
  const XDP_CAP: nat := 1024
  const TC_CAP: nat := 256

  datatype Verdict = XdpPass | XdpDrop

  /** struct http_event; addresses in network order. */
  datatype HttpEvent = HttpEvent(
    srcIp: seq<Byte>, dstIp: seq<Byte>, srcPort: nat, dstPort: nat, payload: seq<Byte>)

  function U16(f: seq<Byte>, i: nat): nat
    requires i + 2 <= |f|
  {
    f[i] as int * 256 + f[i + 1] as int
  }

  // ---------------------------------------------------------------- what a frame is

  /** The TCP header starts behind an IP header of IHL words. */
  function TcpStart(f: seq<Byte>): nat
    requires |f| >= ETH_LEN + 20
  {
    ETH_LEN + f[ETH_LEN] % 16 * 4
  }

  /** Behind an Ethernet header lies what reads as an IPv4 header with protocol TCP and room for a TCP header. */
  predicate IsTcp(f: seq<Byte>) {
    |f| >= ETH_LEN + 20 && f[ETH_LEN + 9] == IPPROTO_TCP && TcpStart(f) + 20 <= |f|
  }

  /** The Ethernet type says IPv4. */
  predicate IsIp(f: seq<Byte>) { |f| >= ETH_LEN && U16(f, 12) == ETH_P_IP }

  function SrcPort(f: seq<Byte>): nat requires IsTcp(f) { U16(f, TcpStart(f)) }
  function DstPort(f: seq<Byte>): nat requires IsTcp(f) { U16(f, TcpStart(f) + 2) }

  /** The payload starts behind a TCP header of Data Offset words. */
  function PayloadStart(f: seq<Byte>): nat
    requires IsTcp(f)
  {
    TcpStart(f) + f[TcpStart(f) + 12] / 16 * 4
  }

  predicate IsHttp(f: seq<Byte>) {
    IsTcp(f) && (SrcPort(f) == 80 || DstPort(f) == 80) && PayloadStart(f) <= |f|
  }

  /** A zeroed buffer of `cap` bytes into which `len` bytes were copied if the frame has them. */
  function Captured(f: seq<Byte>, start: nat, len: nat, cap: nat): (r: seq<Byte>)
    requires len <= cap
    ensures |r| == cap
  {
    if start + len <= |f| then f[start..start + len] + Zeroes(cap - len) else Zeroes(cap)
  }

  function XdpLen(available: nat): nat { if available < 1024 then available else 1024 }
  function TcLen(available: nat): nat { if available < 255 then available else 256 }

  function EventOf(f: seq<Byte>, payload: seq<Byte>): HttpEvent
    requires IsTcp(f)
  {
    HttpEvent(f[ETH_LEN + 12..ETH_LEN + 16], f[ETH_LEN + 16..ETH_LEN + 20], SrcPort(f), DstPort(f), payload)
  }

  function XdpSpec(f: seq<Byte>, reserved: bool): (Verdict, Option<HttpEvent>) {
    if IsIp(f) && IsTcp(f) && DstPort(f) == 8888 then (XdpDrop, None)
    else if IsIp(f) && IsHttp(f) && reserved then
      (XdpPass, Some(EventOf(f, Captured(f, PayloadStart(f), XdpLen(|f| - PayloadStart(f)), XDP_CAP))))
    else (XdpPass, None)
  }

  /** This program looks at the protocol of the socket buffer instead of the Ethernet header. */
  function TcSpec(f: seq<Byte>, protocol: nat, reserved: bool): Option<HttpEvent> {
    if protocol == ETH_P_IP && IsHttp(f) && reserved
    then Some(EventOf(f, Captured(f, PayloadStart(f), TcLen(|f| - PayloadStart(f)), TC_CAP)))
    else None
  }

  // ---------------------------------------------------------------- the answers, byte by byte

  /** The frame is IPv4 and TCP with room for the TCP header behind its IHL words; `tcp` is where that lies. */
  ghost predicate TcpAt(f: seq<Byte>, tcp: nat) {
    |f| >= 34 && f[23] == 6 && tcp == 14 + 4 * (f[14] % 16) && tcp + 20 <= |f|
  }

  ghost predicate PortAt(f: seq<Byte>, i: nat, port: nat) {
    i + 2 <= |f| && f[i] as nat * 256 + f[i + 1] as nat == port
  }

  /** Source or destination port 80, and a payload start inside the frame. */
  ghost predicate HttpAt(f: seq<Byte>, tcp: nat) {
    && TcpAt(f, tcp) && (PortAt(f, tcp, 80) || PortAt(f, tcp + 2, 80))
    && tcp + 4 * (f[tcp + 12] / 16) <= |f|
  }

  /** The bytes behind a TCP header of Data Offset words. */
  ghost function PayloadAt(f: seq<Byte>, tcp: nat): seq<Byte>
    requires HttpAt(f, tcp)
  {
    f[tcp + 4 * (f[tcp + 12] / 16)..]
  }

  /** The event of a frame: addresses and ports from the headers, and the first `len` payload bytes. */
  ghost predicate EventFor(f: seq<Byte>, tcp: nat, e: HttpEvent, len: nat, cap: nat)
    requires HttpAt(f, tcp) && len <= |PayloadAt(f, tcp)|
  {
    && e.srcIp == f[26..30] && e.dstIp == f[30..34]
    && PortAt(f, tcp, e.srcPort) && PortAt(f, tcp + 2, e.dstPort)
    && |e.payload| == cap
    && forall k :: 0 <= k < cap ==> e.payload[k] == if k < len then PayloadAt(f, tcp)[k] else 0
  }

  ghost predicate XdpEventFor(f: seq<Byte>, tcp: nat, e: HttpEvent)
    requires HttpAt(f, tcp)
  {
    var n := |PayloadAt(f, tcp)|;
    EventFor(f, tcp, e, if n < 1024 then n else 1024, 1024)
  }

  ghost predicate TcEventFor(f: seq<Byte>, tcp: nat, e: HttpEvent)
    requires HttpAt(f, tcp)
  {
    var n := |PayloadAt(f, tcp)|;
    EventFor(f, tcp, e, if n < 255 then n else if n == 255 then 0 else 256, 256)
  }

  /** The Ethernet type is 08 00. */
  ghost predicate TypeIp(f: seq<Byte>) { |f| >= 14 && f[12] == 8 && f[13] == 0 }

  ghost predicate GoesTo8888(f: seq<Byte>) { exists tcp: nat :: TcpAt(f, tcp) && PortAt(f, tcp + 2, 8888) }

  ghost predicate CarriesHttp(f: seq<Byte>) { exists tcp: nat :: HttpAt(f, tcp) }

  /**
  For any frame: XDP drops exactly what goes to TCP port 8888 over IPv4 and passes everything else; it emits an
  event exactly for the other HTTP frames when the ring has room, with up to 1024 payload bytes.
  */
  lemma XdpOnBytes(f: seq<Byte>, reserved: bool)
    ensures var (verdict, e) := XdpSpec(f, reserved);
      && (verdict == XdpDrop <==> TypeIp(f) && GoesTo8888(f))
      && (e.Some? <==> reserved && verdict == XdpPass && TypeIp(f) && CarriesHttp(f))
      && (e.Some? ==> exists tcp: nat :: HttpAt(f, tcp) && XdpEventFor(f, tcp, e.value))
  {
    if |f| >= 34 {
      var tcp := 14 + 4 * (f[14] % 16) as nat;
      assert IsTcp(f) <==> TcpAt(f, tcp);
      if IsTcp(f) {
        assert PortAt(f, tcp, SrcPort(f)) && PortAt(f, tcp + 2, DstPort(f));
        assert IsHttp(f) <==> HttpAt(f, tcp);
      }
    }
  }

  /**
  The same for TC, which goes by the socket buffer's protocol and always lets the frame through: up to 256
  payload bytes, but none if there are exactly 255.
  */
  lemma TcOnBytes(f: seq<Byte>, protocol: nat, reserved: bool)
    ensures var e := TcSpec(f, protocol, reserved);
      && (e.Some? <==> reserved && protocol == 0x0800 && CarriesHttp(f))
      && (e.Some? ==> exists tcp: nat :: HttpAt(f, tcp) && TcEventFor(f, tcp, e.value))
  {
    if |f| >= 34 {
      var tcp := 14 + 4 * (f[14] % 16) as nat;
      assert IsTcp(f) <==> TcpAt(f, tcp);
      if IsTcp(f) {
        assert PortAt(f, tcp, SrcPort(f)) && PortAt(f, tcp + 2, DstPort(f));
        assert IsHttp(f) <==> HttpAt(f, tcp);
      }
    }
  }

  // ---------------------------------------------------------------- the programs

  /** memset of the event's payload, then the guarded copy, in place. */
  method Capture(f: seq<Byte>, payload: nat, copyLen: nat, cap: nat) returns (r: seq<Byte>)
    requires copyLen <= cap && payload <= |f|
    ensures r == Captured(f, payload, copyLen, cap)
  {
    var buf := new Byte[cap];
    var i := 0;
    while i < cap
      invariant 0 <= i <= cap && forall k :: 0 <= k < i ==> buf[k] == 0
    {
      buf[i] := 0;
      i := i + 1;
    }
    if payload + copyLen <= |f| {
      i := 0;
      while i < copyLen
        invariant 0 <= i <= copyLen
        invariant forall k :: 0 <= k < cap ==> buf[k] == if k < i then f[payload + k] else 0
      {
        buf[i] := f[payload + i];
        i := i + 1;
      }
    }
    r := buf[..];
    assert r == Captured(f, payload, copyLen, cap);
  }

  /** xdp_pass on any frame whatsoever: every byte it reads lies inside the frame. */
  method XdpProgram(f: seq<Byte>, reserved: bool) returns (verdict: Verdict, e: Option<HttpEvent>)
    ensures (verdict, e) == XdpSpec(f, reserved)
    ensures verdict == XdpDrop <==> TypeIp(f) && GoesTo8888(f)
    ensures e.Some? <==> reserved && verdict == XdpPass && TypeIp(f) && CarriesHttp(f)
  {
    XdpOnBytes(f, reserved);
    var dataEnd := |f|;
    verdict, e := XdpPass, None;
    if ETH_LEN > dataEnd {
      return;
    }
    if U16(f, 12) != ETH_P_IP {
      return;
    }
    var iph := ETH_LEN;
    if iph + 20 > dataEnd {
      return;
    }
    if f[iph + 9] != IPPROTO_TCP {
      return;
    }
    var tcph := iph + f[iph] % 16 * 4;
    if tcph + 20 > dataEnd {
      return;
    }
    assert IsTcp(f) && tcph == TcpStart(f);
    if U16(f, tcph + 2) == 8888 {
      return XdpDrop, None;
    }
    var srcPort := U16(f, tcph);
    var dstPort := U16(f, tcph + 2);
    if srcPort != 80 && dstPort != 80 {
      return;
    }
    var payload := tcph + f[tcph + 12] / 16 * 4;
    assert payload == PayloadStart(f);
    if payload > dataEnd {
      return;
    }
    if !reserved {
      return;
    }
    var available := dataEnd - payload;
    var copyLen := if available < 1024 then available else 1024;
    var bytes := Capture(f, payload, copyLen, XDP_CAP);
    e := Some(HttpEvent(f[iph + 12..iph + 16], f[iph + 16..iph + 20], srcPort, dstPort, bytes));
  }

  /** tc_http_parse; the frame itself always continues. */
  method TcProgram(f: seq<Byte>, protocol: nat, reserved: bool) returns (e: Option<HttpEvent>)
    ensures e == TcSpec(f, protocol, reserved)
    ensures e.Some? <==> reserved && protocol == 0x0800 && CarriesHttp(f)
  {
    TcOnBytes(f, protocol, reserved);
    var dataEnd := |f|;
    e := None;
    if protocol != ETH_P_IP {
      return;
    }
    if ETH_LEN > dataEnd {
      return;
    }
    var l3 := ETH_LEN;
    if l3 + 20 > dataEnd {
      return;
    }
    if f[l3 + 9] != IPPROTO_TCP {
      return;
    }
    var l4 := l3 + f[l3] % 16 * 4;
    if l4 + 20 > dataEnd {
      return;
    }
    assert IsTcp(f) && l4 == TcpStart(f);
    var srcPort := U16(f, l4);
    var dstPort := U16(f, l4 + 2);
    if srcPort != 80 && dstPort != 80 {
      return;
    }
    var payload := l4 + f[l4 + 12] / 16 * 4;
    assert payload == PayloadStart(f);
    if payload > dataEnd {
      return;
    }
    if !reserved {
      return;
    }
    var available := dataEnd - payload;
    var copyLen := if available < 255 then available else 256;
    var bytes := Capture(f, payload, copyLen, TC_CAP);
    assert IsHttp(f) && copyLen == TcLen(|f| - PayloadStart(f));
    e := Some(HttpEvent(f[l3 + 12..l3 + 16], f[l3 + 16..l3 + 20], srcPort, dstPort, bytes));
  }

  // ---------------------------------------------------------------- the two programs compared

  /**
  On every frame not addressed to port 8888 whose socket buffer agrees with its Ethernet type, the two programs
  capture the same packets with the same addresses and ports; the shorter capture is the start of the longer
  one except when exactly 255 payload bytes remain, where the guard of the shorter one skips the copy.
  */
  lemma CapturesAgree(f: seq<Byte>, protocol: nat)
    requires protocol == ETH_P_IP <==> IsIp(f)
    requires IsTcp(f) ==> DstPort(f) != 8888
    ensures var x := XdpSpec(f, true).1; var t := TcSpec(f, protocol, true);
      && (x.Some? <==> t.Some?)
      && (t.Some? ==>
            && t.value.(payload := []) == x.value.(payload := [])
            && |t.value.payload| == TC_CAP && |x.value.payload| == XDP_CAP
            && (t.value.payload == x.value.payload[..TC_CAP] <==>
                  |f| - PayloadStart(f) != 255 || f[PayloadStart(f)..] == Zeroes(255)))
  {
    if IsHttp(f) {
      var start := PayloadStart(f);
      var available := |f| - start;
      var x := Captured(f, start, XdpLen(available), XDP_CAP);
      var t := Captured(f, start, TcLen(available), TC_CAP);
      if available < 255 {
        assert x[..TC_CAP] == t;
      } else if available == 255 {
        assert t == Zeroes(TC_CAP);
        assert x[..255] == f[start..] && x[255] == 0;
        if f[start..] == Zeroes(255) {
          assert x[..TC_CAP] == t;
        } else {
          var k :| 0 <= k < 255 && f[start..][k] != 0;
          assert x[..TC_CAP][k] == f[start..][k];
        }
      } else {
        assert t == f[start..start + 256];
        assert x[..TC_CAP] == t;
      }
    }
  }
}
