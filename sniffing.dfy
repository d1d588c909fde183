/** The sniffer (Sniffer.cs): for one captured frame it fills a SniffPacket
    layer by layer (Ethernet addresses, then IP addresses, then ports and
    the hex dump) and decides whether the frame is reported at all.

    The frames are given here already decoded, as the layers the packet
    library would find in them; decoding the bytes into layers is not part
    of this model. Every layer keeps the bytes of the whole capture, since
    the dump is always taken of the whole frame. */
module Sniffing {
  import opened Wrappers
  import opened Text
  import opened Filters
  import opened Arguments
  import opened Dump
  import opened Packets

  // ---------------------------------------------------------------- layers

  /** Source and destination port of a TCP or UDP segment. */
  datatype PortPair = PortPair(src: UShort, dst: UShort)

  /** The TCP and the UDP segment found inside a packet, if any. */
  datatype Transport = Transport(tcp: Option<PortPair>, udp: Option<PortPair>)

  /** Source and destination address of an IP packet, as text. */
  datatype IpPair = IpPair(src: string, dst: string)

  /** What an IPv6 packet carries: an ICMPv6 message of some type, or any
      other protocol. */
  datatype Ipv6Payload =
    | Icmpv6Message(icmpType: Byte)
    | OtherProtocol(transport: Transport)

  /** The payload of an Ethernet frame: an IPv6 packet, or anything else
      (IPv4, ARP, ...), possibly holding an IP packet and a segment. */
  datatype Network =
    | Ipv6Packet(addrs: IpPair, payload: Ipv6Payload)
    | OtherNetwork(ip: Option<IpPair>, transport: Transport)

  datatype EthernetFrame = EthernetFrame(srcMac: seq<Byte>, dstMac: seq<Byte>, network: Network)

  datatype LinkLayer = EthernetLink(frame: EthernetFrame) | UnsupportedLink

  /** One capture: when it was taken, its bytes and its decoded layers. */
  datatype RawCapture = RawCapture(timestamp: string, data: seq<Byte>, link: LinkLayer)

  /** The exception thrown for a link layer other than Ethernet. */
  datatype CaptureError = NotSupported(message: string)

  const LinkError := NotSupported("only Ethernet link layer is supported")

  // ----------------------------------------------------------- ICMPv6 types

  /** Multicast Listener Query, Report and Done (section 3 of RFC 2710). */
  predicate IsMld(icmpType: Byte) {
    130 <= icmpType <= 132
  }

  /** Router Solicitation and Advertisement, Neighbor Solicitation and
      Advertisement, Redirect (section 4 of RFC 4861). */
  predicate IsNdp(icmpType: Byte) {
    133 <= icmpType <= 137
  }

  // ---------------------------------------------------------- MAC addresses

  /** One byte as BitConverter writes it: two upper-case hex digits. */
  function BytePair(b: Byte): (s: string)
    ensures |s| == 2 && IsHexDigit(s[0]) && IsHexDigit(s[1])
    ensures HexValue(s[0]) * 16 + HexValue(s[1]) == b
    ensures forall k :: 0 <= k < 2 && !IsDigit(s[k]) ==> 'A' <= s[k] <= 'F'
  {
    [HexDigit(b / 16, true), HexDigit(b % 16, true)]
  }

  function BytePairs(bytes: seq<Byte>): seq<string>
  {
    seq(|bytes|, i requires 0 <= i < |bytes| => BytePair(bytes[i]))
  }

  /** BitConverter.ToString(bytes).Replace('-', ':'). */
  function MacString(bytes: seq<Byte>): string
  {
    Replace(Join("-", BytePairs(bytes)), '-', ':')
  }

  /** The reader of MAC text: colon-separated pairs of hex digits. */
  function ReadMac(s: string): Option<seq<Byte>>
    decreases |s|
  {
    if |s| == 0 then Some([])
    else if |s| == 2 then
      if IsHexDigit(s[0]) && IsHexDigit(s[1]) then Some([HexValue(s[0]) * 16 + HexValue(s[1])]) else None
    else if |s| > 2 && s[|s| - 3] == ':' && IsHexDigit(s[|s| - 2]) && IsHexDigit(s[|s| - 1]) then
      match ReadMac(s[..|s| - 3])
      case Some(m) => if m == [] then None else Some(m + [HexValue(s[|s| - 2]) * 16 + HexValue(s[|s| - 1])])
      case None => None
    else None
  }

  lemma ReplaceAppend(a: string, b: string, from: char, to: char)
    ensures Replace(a + b, from, to) == Replace(a, from, to) + Replace(b, from, to)
  {
  }

  /** Replacing the dashes of the joined pairs gives the pairs joined by
      colons. */
  lemma {:induction false} DashesToColons(bytes: seq<Byte>)
    ensures MacString(bytes) == Join(":", BytePairs(bytes))
    decreases |bytes|
  {
    var ps := BytePairs(bytes);
    if |bytes| == 1 {
      assert Replace(ps[0], '-', ':') == ps[0];
    } else if |bytes| > 1 {
      var n := |bytes|;
      var front := bytes[..n - 1];
      assert ps[..n - 1] == BytePairs(front);
      DashesToColons(front);
      ReplaceAppend(Join("-", ps[..n - 1]) + "-", ps[n - 1], '-', ':');
      ReplaceAppend(Join("-", ps[..n - 1]), "-", '-', ':');
      assert Replace(ps[n - 1], '-', ':') == ps[n - 1];
    }
  }

  lemma ReadPair(b: Byte)
    ensures ReadMac(BytePair(b)) == Some([b])
  {
    assert |BytePair(b)| == 2;
  }

  /** One more pair after a colon adds one byte to what is read. */
  lemma ReadMacSnoc(pre: string, m: seq<Byte>, b: Byte)
    requires ReadMac(pre) == Some(m) && m != []
    ensures ReadMac(pre + ":" + BytePair(b)) == Some(m + [b])
  {
    var s := pre + ":" + BytePair(b);
    assert s[..|s| - 3] == pre;
    assert s[|s| - 3] == ':' && s[|s| - 2] == BytePair(b)[0] && s[|s| - 1] == BytePair(b)[1];
  }

  /** The colon-joined pairs of one more byte: the pairs so far, a colon
      and the new pair. */
  lemma ColonsSnoc(bytes: seq<Byte>, front: seq<Byte>, last: Byte)
    requires bytes == front + [last] && front != []
    ensures Join(":", BytePairs(bytes)) == Join(":", BytePairs(front)) + ":" + BytePair(last)
  {
    var ps := BytePairs(bytes);
    assert ps[..|ps| - 1] == BytePairs(front);
    assert ps[|ps| - 1] == BytePair(last);
  }

  lemma {:induction false} ReadColons(bytes: seq<Byte>)
    ensures ReadMac(Join(":", BytePairs(bytes))) == Some(bytes)
    decreases |bytes|
  {
    var n := |bytes|;
    if n == 1 {
      assert Join(":", BytePairs(bytes)) == BytePair(bytes[0]);
      ReadPair(bytes[0]);
      assert bytes == [bytes[0]];
    } else if n > 1 {
      var front, last := bytes[..n - 1], bytes[n - 1];
      assert bytes == front + [last];
      ReadColons(front);
      ColonsSnoc(bytes, front, last);
      ReadMacSnoc(Join(":", BytePairs(front)), front, last);
    }
  }

  /** Reading the MAC text of any address gives the address back. */
  lemma MacRoundTrip(bytes: seq<Byte>)
    ensures ReadMac(MacString(bytes)) == Some(bytes)
  {
    DashesToColons(bytes);
    ReadColons(bytes);
  }

  /** A colon at every third position and nowhere else. */
  ghost predicate ColonsEveryThird(s: string)
  {
    forall i :: 0 <= i < |s| ==> (s[i] == ':' <==> i % 3 == 2)
  }

  /** A colon and a pair of hex digits keep the pattern after the pairs of
      n bytes. */
  lemma ColonsAppend(pre: string, pair: string, n: nat)
    requires |pre| == 3 * n - 1 && ColonsEveryThird(pre)
    requires |pair| == 2 && IsHexDigit(pair[0]) && IsHexDigit(pair[1])
    ensures ColonsEveryThird(pre + ":" + pair)
  {
    var s := pre + ":" + pair;
    forall i | 0 <= i < |s|
      ensures s[i] == ':' <==> i % 3 == 2
    {
      if i < |pre| {
        assert s[i] == pre[i];
      } else if i >= |pre| + 1 {
        assert s[i] == pair[i - |pre| - 1];
      }
    }
  }

  lemma {:induction false} ColonShape(bytes: seq<Byte>)
    requires |bytes| > 0
    ensures |Join(":", BytePairs(bytes))| == 3 * |bytes| - 1
    ensures ColonsEveryThird(Join(":", BytePairs(bytes)))
    decreases |bytes|
  {
    var n := |bytes|;
    if n == 1 {
      assert Join(":", BytePairs(bytes)) == BytePair(bytes[0]);
    } else {
      var front, last := bytes[..n - 1], bytes[n - 1];
      assert bytes == front + [last];
      ColonShape(front);
      ColonsSnoc(bytes, front, last);
      ColonsAppend(Join(":", BytePairs(front)), BytePair(last), |front|);
    }
  }

  /** An address of n bytes reads as 3n - 1 characters with a colon at
      every third position: seventeen characters for six bytes. */
  lemma MacShape(bytes: seq<Byte>)
    requires |bytes| > 0
    ensures |MacString(bytes)| == 3 * |bytes| - 1
    ensures forall i :: 0 <= i < |MacString(bytes)| ==> (MacString(bytes)[i] == ':' <==> i % 3 == 2)
  {
    DashesToColons(bytes);
    ColonShape(bytes);
  }

  // -------------------------------------------------- what each layer sets

  /** The ports Port takes: those of the TCP segment, else those of the UDP
      segment, else none. */
  function ChosenPorts(t: Transport): Option<PortPair>
  {
    if t.tcp.Some? then t.tcp else t.udp
  }

  function WithMacs(v: Summary, frame: EthernetFrame): Summary
  {
    v.(srcMac := Some(MacString(frame.srcMac)), dstMac := Some(MacString(frame.dstMac)))
  }

  function WithIp(v: Summary, ip: Option<IpPair>): Summary
  {
    if ip.Some? then v.(srcIp := Some(ip.value.src), dstIp := Some(ip.value.dst)) else v
  }

  function WithPorts(v: Summary, t: Transport): Summary
  {
    var p := ChosenPorts(t);
    if p.Some? then v.(srcPort := Some(p.value.src), dstPort := Some(p.value.dst)) else v
  }

  function WithDump(v: Summary, data: seq<Byte>): Summary
  {
    v.(hexData := HexDump(data))
  }

  const NoTransport := Transport(None, None)

  /** HandleDefaultIp: ports, then the dump. */
  function DefaultIpSummary(v: Summary, t: Transport, data: seq<Byte>): Summary
  {
    WithDump(WithPorts(v, t), data)
  }

  /** HandleDefault: IP addresses if there is an IP packet, then as
      HandleDefaultIp. */
  function DefaultSummary(v: Summary, ip: Option<IpPair>, t: Transport, data: seq<Byte>): Summary
  {
    DefaultIpSummary(WithIp(v, ip), t, data)
  }

  /** HandleIcmp6: MLD and NDP messages are dropped unless their tag was
      asked for, and dumped if it was; every other type is kept as it is. */
  function Icmp6Summary(args: Args, v: Summary, icmpType: Byte, data: seq<Byte>): Option<Summary>
  {
    if IsMld(icmpType) then
      if args.IsFiltered(Mld) then Some(DefaultIpSummary(v, NoTransport, data)) else None
    else if IsNdp(icmpType) then
      if args.IsFiltered(Ndp) then Some(DefaultIpSummary(v, NoTransport, data)) else None
    else Some(v)
  }

  /** HandleIP: the addresses, then by protocol. */
  function IpSummary(args: Args, v: Summary, addrs: IpPair, payload: Ipv6Payload, data: seq<Byte>): Option<Summary>
  {
    var w := WithIp(v, Some(addrs));
    match payload
    case Icmpv6Message(t) => Icmp6Summary(args, w, t, data)
    case OtherProtocol(t) => Some(DefaultIpSummary(w, t, data))
  }

  /** HandleEth: IPv6 packets, and everything else. */
  function EthSummary(args: Args, v: Summary, network: Network, data: seq<Byte>): Option<Summary>
  {
    match network
    case Ipv6Packet(addrs, payload) => IpSummary(args, v, addrs, payload, data)
    case OtherNetwork(ip, t) => Some(DefaultSummary(v, ip, t, data))
  }

  /** What HandleLinkTypes leaves: the error for a non-Ethernet capture, no
      record for a dropped frame, or the record to report. */
  function Summarize(args: Args, rc: RawCapture): Result<Option<Summary>, CaptureError>
  {
    match rc.link
    case UnsupportedLink => Failure(LinkError)
    case EthernetLink(frame) =>
      Success(EthSummary(args, WithMacs(Fresh(rc.timestamp, |rc.data|), frame), frame.network, rc.data))
  }

  // ------------------------------------------------------------ the class

  class Sniffer {
    const args: Args

    constructor (args: Args)
      ensures this.args == args
    {
      this.args := args;
    }

    /** Reports one capture: true, with the record's text printed, when the
        frame is kept; false, with nothing printed, when it is dropped; the
        error for a link layer other than Ethernet. */
    method Info(rc: RawCapture) returns (r: Result<bool, CaptureError>, printed: string)
      ensures r.Failure? <==> rc.link.UnsupportedLink?
      ensures r.Failure? ==> r.error == LinkError
      ensures r.Success? ==> (r.value <==> Summarize(args, rc).value.Some?)
      ensures printed == if r == Success(true) then Report(Summarize(args, rc).value.value) + "\n" else ""
    {
      var sp := HandleLinkTypes(rc);
      if sp.Failure? {
        return Failure(sp.error), "";
      }
      if sp.value == null {
        return Success(false), "";
      }
      var text := sp.value.ToString();
      printed := text + "\n";
      r := Success(true);
    }

    method HandleLinkTypes(rc: RawCapture) returns (r: Result<SniffPacket?, CaptureError>)
      ensures r.Success? <==> Summarize(args, rc).Success?
      ensures r.Failure? ==> r.error == Summarize(args, rc).error
      ensures r.Success? ==> (r.value == null <==> Summarize(args, rc).value.None?)
      ensures r.Success? && r.value != null ==>
        fresh(r.value) && Summarize(args, rc).value == Some(r.value.View())
    {
      var sp := new SniffPacket(rc.timestamp, |rc.data|);
      match rc.link
      case UnsupportedLink =>
        r := Failure(LinkError);
      case EthernetLink(frame) =>
        var p := Ethernet(sp, frame, rc.data);
        r := Success(p);
    }

    /** Sets both MAC addresses, then goes on by network layer. */
    method Ethernet(sp: SniffPacket, frame: EthernetFrame, data: seq<Byte>) returns (r: SniffPacket?)
      modifies sp
      ensures r == null || r == sp
      ensures EthSummary(args, WithMacs(old(sp.View()), frame), frame.network, data)
        == if r == null then None else Some(sp.View())
      ensures r == null ==> frame.network.Ipv6Packet?
      ensures r == null ==> sp.View() == WithIp(WithMacs(old(sp.View()), frame), Some(frame.network.addrs))
    {
      sp.srcMac := Some(MacString(frame.srcMac));
      sp.dstMac := Some(MacString(frame.dstMac));
      r := HandleEth(sp, frame.network, data);
    }

    method HandleEth(sp: SniffPacket, network: Network, data: seq<Byte>) returns (r: SniffPacket?)
      modifies sp
      ensures r == null || r == sp
      ensures EthSummary(args, old(sp.View()), network, data) == if r == null then None else Some(sp.View())
      ensures r == null ==> network.Ipv6Packet? && sp.View() == WithIp(old(sp.View()), Some(network.addrs))
    {
      match network
      case Ipv6Packet(addrs, payload) =>
        r := HandleIP(sp, addrs, payload, data);
      case OtherNetwork(ip, t) =>
        r := HandleDefault(sp, ip, t, data);
    }

    method HandleIP(sp: SniffPacket, addrs: IpPair, payload: Ipv6Payload, data: seq<Byte>) returns (r: SniffPacket?)
      modifies sp
      ensures r == null || r == sp
      ensures IpSummary(args, old(sp.View()), addrs, payload, data) == if r == null then None else Some(sp.View())
      ensures r == null ==> sp.View() == WithIp(old(sp.View()), Some(addrs))
    {
      sp.srcIp := Some(addrs.src);
      sp.dstIp := Some(addrs.dst);
      match payload
      case Icmpv6Message(t) =>
        r := HandleIcmp6(sp, t, data);
      case OtherProtocol(t) =>
        r := HandleDefaultIp(sp, t, data);
    }

    method HandleIcmp6(sp: SniffPacket, icmpType: Byte, data: seq<Byte>) returns (r: SniffPacket?)
      modifies sp
      ensures r == null || r == sp
      ensures Icmp6Summary(args, old(sp.View()), icmpType, data) == if r == null then None else Some(sp.View())
      ensures r == null ==> unchanged(sp)
    {
      if IsMld(icmpType) {
        if !args.IsFiltered(Mld) {
          return null;
        }
        var _ := HandleDefaultIp(sp, NoTransport, data);
      } else if IsNdp(icmpType) {
        if !args.IsFiltered(Ndp) {
          return null;
        }
        var _ := HandleDefaultIp(sp, NoTransport, data);
      }
      r := sp;
    }

    method HandleDefault(sp: SniffPacket, ip: Option<IpPair>, t: Transport, data: seq<Byte>) returns (r: SniffPacket)
      modifies sp
      ensures r == sp && sp.View() == DefaultSummary(old(sp.View()), ip, t, data)
    {
      Ip(sp, ip);
      Port(sp, t);
      sp.SetHexData(data);
      r := sp;
    }

    method HandleDefaultIp(sp: SniffPacket, t: Transport, data: seq<Byte>) returns (r: SniffPacket)
      modifies sp
      ensures r == sp && sp.View() == DefaultIpSummary(old(sp.View()), t, data)
    {
      Port(sp, t);
      sp.SetHexData(data);
      r := sp;
    }

    method Ip(sp: SniffPacket, ip: Option<IpPair>)
      modifies sp
      ensures sp.View() == WithIp(old(sp.View()), ip)
    {
      if ip.Some? {
        sp.srcIp := Some(ip.value.src);
        sp.dstIp := Some(ip.value.dst);
      }
    }

    method Port(sp: SniffPacket, t: Transport)
      modifies sp
      ensures sp.View() == WithPorts(old(sp.View()), t)
    {
      if t.tcp.Some? {
        sp.srcPort := Some(t.tcp.value.src);
        sp.dstPort := Some(t.tcp.value.dst);
      } else if t.udp.Some? {
        sp.srcPort := Some(t.udp.value.src);
        sp.dstPort := Some(t.udp.value.dst);
      }
    }
  }

  // ------------------------------------------------------------ properties

  /** Only Ethernet captures are handled; any other link layer is an error. */
  lemma OnlyEthernet(args: Args, rc: RawCapture)
    ensures Summarize(args, rc).Failure? <==> rc.link.UnsupportedLink?
    ensures Summarize(args, rc).Failure? ==> Summarize(args, rc).error == LinkError
  {
  }

  /** Every record carries the capture's time, its length in bytes and the
      frame's two MAC addresses. */
  lemma FrameFields(args: Args, rc: RawCapture, v: Summary)
    requires Summarize(args, rc) == Success(Some(v))
    ensures v.timestamp == rc.timestamp && v.frameLen == |rc.data|
    ensures v.srcMac == Some(MacString(rc.link.frame.srcMac))
    ensures v.dstMac == Some(MacString(rc.link.frame.dstMac))
  {
  }

  /** A frame that is not IPv6 is always reported, with the addresses of
      the IP packet inside if there is one, the ports of its segment and a
      dump of the whole frame. */
  lemma NonIpv6Kept(args: Args, rc: RawCapture)
    requires rc.link.EthernetLink? && rc.link.frame.network.OtherNetwork?
    ensures Summarize(args, rc).Success? && Summarize(args, rc).value.Some?
    ensures var v := Summarize(args, rc).value.value;
      var n := rc.link.frame.network;
      var p := ChosenPorts(n.transport);
      && (v.srcIp.Some? <==> n.ip.Some?) && (v.dstIp.Some? <==> n.ip.Some?)
      && (n.ip.Some? ==> v.srcIp == Some(n.ip.value.src) && v.dstIp == Some(n.ip.value.dst))
      && v.srcPort == (if p.Some? then Some(p.value.src) else None)
      && v.dstPort == (if p.Some? then Some(p.value.dst) else None)
      && v.hexData == HexDump(rc.data)
  {
  }

  /** An IPv6 packet that is not ICMPv6 is always reported, with its
      addresses, its ports and the dump. */
  lemma Ipv6TransportKept(args: Args, rc: RawCapture)
    requires rc.link.EthernetLink? && rc.link.frame.network.Ipv6Packet?
    requires rc.link.frame.network.payload.OtherProtocol?
    ensures Summarize(args, rc).Success? && Summarize(args, rc).value.Some?
    ensures var v := Summarize(args, rc).value.value;
      var n := rc.link.frame.network;
      var p := ChosenPorts(n.payload.transport);
      && v.srcIp == Some(n.addrs.src) && v.dstIp == Some(n.addrs.dst)
      && v.srcPort == (if p.Some? then Some(p.value.src) else None)
      && v.dstPort == (if p.Some? then Some(p.value.dst) else None)
      && v.hexData == HexDump(rc.data)
  {
  }

  /** A TCP segment's ports win over a UDP segment's. */
  lemma TcpPreferred(v: Summary, tcp: PortPair, udp: Option<PortPair>)
    ensures WithPorts(v, Transport(Some(tcp), udp)).srcPort == Some(tcp.src)
    ensures WithPorts(v, Transport(Some(tcp), udp)).dstPort == Some(tcp.dst)
  {
  }

  /** Without a segment the ports stay unset. */
  lemma NoSegmentNoPorts(v: Summary)
    ensures WithPorts(v, NoTransport) == v
  {
  }

  /** An MLD message is reported exactly when the mld tag was asked for,
      and then with its addresses, no ports and the dump. */
  lemma MldGate(args: Args, rc: RawCapture)
    requires rc.link.EthernetLink? && rc.link.frame.network.Ipv6Packet?
    requires rc.link.frame.network.payload.Icmpv6Message?
    requires IsMld(rc.link.frame.network.payload.icmpType)
    ensures Summarize(args, rc).Success?
    ensures Summarize(args, rc).value.Some? <==> Mld in args.filters
    ensures Summarize(args, rc).value.Some? ==>
      var v := Summarize(args, rc).value.value;
      && v.srcIp == Some(rc.link.frame.network.addrs.src)
      && v.dstIp == Some(rc.link.frame.network.addrs.dst)
      && v.srcPort.None? && v.dstPort.None? && v.hexData == HexDump(rc.data)
  {
  }

  /** The same for NDP messages and the ndp tag. */
  lemma NdpGate(args: Args, rc: RawCapture)
    requires rc.link.EthernetLink? && rc.link.frame.network.Ipv6Packet?
    requires rc.link.frame.network.payload.Icmpv6Message?
    requires IsNdp(rc.link.frame.network.payload.icmpType)
    ensures Summarize(args, rc).Success?
    ensures Summarize(args, rc).value.Some? <==> Ndp in args.filters
    ensures Summarize(args, rc).value.Some? ==>
      var v := Summarize(args, rc).value.value;
      && v.srcIp == Some(rc.link.frame.network.addrs.src)
      && v.dstIp == Some(rc.link.frame.network.addrs.dst)
      && v.srcPort.None? && v.dstPort.None? && v.hexData == HexDump(rc.data)
  {
  }

  /** Any other ICMPv6 message is reported with its addresses only: no
      ports and no dump. */
  lemma OtherIcmp6Undumped(args: Args, rc: RawCapture)
    requires rc.link.EthernetLink? && rc.link.frame.network.Ipv6Packet?
    requires rc.link.frame.network.payload.Icmpv6Message?
    requires var t := rc.link.frame.network.payload.icmpType; !IsMld(t) && !IsNdp(t)
    ensures Summarize(args, rc).Success? && Summarize(args, rc).value.Some?
    ensures var v := Summarize(args, rc).value.value;
      && v.srcIp == Some(rc.link.frame.network.addrs.src)
      && v.dstIp == Some(rc.link.frame.network.addrs.dst)
      && v.srcPort.None? && v.dstPort.None? && v.hexData == ""
  {
  }

  /** The sniffer consults no argument but the mld and ndp tags: two
      argument sets that agree on those classify every capture alike. */
  lemma OnlyMldNdpConsulted(a1: Args, a2: Args, rc: RawCapture)
    requires (Mld in a1.filters <==> Mld in a2.filters) && (Ndp in a1.filters <==> Ndp in a2.filters)
    ensures Summarize(a1, rc) == Summarize(a2, rc)
  {
  }

  /** A frame is dropped only when it is an MLD or NDP message whose tag
      was not asked for. */
  lemma DroppedOnlyByTag(args: Args, rc: RawCapture)
    requires Summarize(args, rc) == Success(None)
    ensures rc.link.EthernetLink? && rc.link.frame.network.Ipv6Packet?
    ensures rc.link.frame.network.payload.Icmpv6Message?
    ensures var t := rc.link.frame.network.payload.icmpType;
      (IsMld(t) && Mld !in args.filters) || (IsNdp(t) && Ndp !in args.filters)
  {
  }

  /** A record's dump is either empty or the dump of the whole frame. */
  lemma DumpOrNothing(args: Args, rc: RawCapture, v: Summary)
    requires Summarize(args, rc) == Success(Some(v))
    ensures v.hexData == "" || v.hexData == HexDump(rc.data)
  {
    var frame := rc.link.frame;
    match frame.network
    case OtherNetwork(_, _) =>
    case Ipv6Packet(_, payload) =>
      match payload
      case OtherProtocol(_) =>
      case Icmpv6Message(_) =>
  }

  /** A record that carries a dump gives back the frame's bytes when the
      dump is read. */
  lemma DumpIsWholeFrame(args: Args, rc: RawCapture, v: Summary)
    requires Summarize(args, rc) == Success(Some(v))
    ensures v.hexData != "" ==> ReadDump(v.hexData) == rc.data
  {
    DumpOrNothing(args, rc, v);
    if v.hexData != "" {
      DumpRoundTrip(rc.data);
    }
  }
}
