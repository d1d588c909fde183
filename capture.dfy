/** The capture side (Iface.cs): the capture-filter expression built from
    the protocol tags and ports, its installation on the device, and the
    arrival handler that counts reported frames up to the requested number.

    The device itself (opening it, looking it up by name, delivering
    frames, the busy wait for the count) is not part of this model; the
    filter installed on it is a field, and frames are handed to the
    handler one at a time. */
module Capture {
  import opened Wrappers
  import opened Text
  import opened Filters
  import opened Arguments
  import opened Packets
  import opened Sniffing

  // ------------------------------------------------------- port restriction

  const DstWord := " and dst port "
  const SrcWord := " and src port "

  function PortPart(word: string, port: Option<UShort>): string
  {
    if port.Some? then word + Decimal(port.value) else ""
  }

  /** What GetPorts builds: the destination restriction, then the source
      restriction, each only when that port was given. */
  function PortSuffix(args: Args): string
  {
    PortPart(DstWord, args.dstPort) + PortPart(SrcWord, args.srcPort)
  }

  /** Reads one restriction introduced by word at the front of s: its port
      and the text after it; no port and s itself when s does not start
      with word. */
  function ReadPortPart(s: string, word: string): (Option<nat>, string)
  {
    if |word| <= |s| && s[..|word|] == word then
      var k := DigitRun(s, |word|);
      (ParseNat(s[|word|..|word| + k]), s[|word| + k..])
    else (None, s)
  }

  /** The reader of a port suffix: destination, then source, then nothing. */
  function ReadPorts(s: string): Option<(Option<nat>, Option<nat>)>
  {
    var (dst, rest) := ReadPortPart(s, DstWord);
    var (src, rest2) := ReadPortPart(rest, SrcWord);
    if rest2 == "" then Some((dst, src)) else None
  }

  /** The run of digits at i is exactly d when a non-digit or the end
      follows it. */
  lemma DigitRunOf(s: string, i: nat, d: string)
    requires AllDigits(d) && i + |d| <= |s| && s[i..i + |d|] == d
    requires i + |d| == |s| || !IsDigit(s[i + |d|])
    ensures DigitRun(s, i) == |d|
  {
  }

  lemma ReadPortPartOf(word: string, port: Option<UShort>, rest: string)
    requires |word| > 0 && !IsDigit(word[|word| - 1])
    requires rest == "" || !IsDigit(rest[0])
    requires port.None? ==> !(|word| <= |rest| && rest[..|word|] == word)
    ensures ReadPortPart(PortPart(word, port) + rest, word) == (port, rest)
  {
    if port.Some? {
      var d := Decimal(port.value);
      var s := word + d + rest;
      assert s[..|word|] == word;
      assert s[|word|..|word| + |d|] == d;
      assert s[|word| + |d|..] == rest;
      if rest != "" {
        assert s[|word| + |d|] == rest[0];
      }
      DigitRunOf(s, |word|, d);
      DecimalRoundTrip(port.value);
      assert PortPart(word, port) + rest == s;
    } else {
      assert PortPart(word, port) + rest == rest;
    }
  }

  /** The suffix reads back as the two ports it was built from. */
  lemma PortsRoundTrip(args: Args)
    ensures ReadPorts(PortSuffix(args)) == Some((args.dstPort, args.srcPort))
  {
    var srcPart := PortPart(SrcWord, args.srcPort);
    ReadPortPartOf(SrcWord, args.srcPort, "");
    assert srcPart + "" == srcPart;
    if args.srcPort.Some? {
      assert srcPart[5] == 's' && DstWord[5] == 'd';
    }
    ReadPortPartOf(DstWord, args.dstPort, srcPart);
  }

  /** Without ports the suffix is empty, and with one it is not. */
  lemma PortSuffixEmpty(args: Args)
    ensures PortSuffix(args) == "" <==> args.dstPort.None? && args.srcPort.None?
  {
  }

  // -------------------------------------------------- the filter expression

  /** The clause for one tag: the protocol's keyword, and the port
      restriction for TCP and UDP only. The three ICMPv6 tags share one
      clause, since a capture filter cannot tell MLD or NDP messages from
      other ICMPv6 messages. */
  function Clause(f: Filter, ports: string): (c: string)
    ensures 3 <= |c|
    ensures IsTransport(f) ==> c[..3] == (if f == Tcp then "tcp" else "udp")
    ensures IsTransport(f) ==> c[3..] == ports
    ensures !IsTransport(f) ==> c in {"icmp", "icmp6", "arp", "igmp"}
    ensures f in {Icmp6, Ndp, Mld} ==> c == "icmp6"
  {
    match f
    case Tcp => "tcp" + ports
    case Udp => "udp" + ports
    case Icmp4 => "icmp"
    case Icmp6 | Ndp | Mld => "icmp6"
    case Arp => "arp"
    case Igmp => "igmp"
  }

  function Clauses(fs: seq<Filter>, ports: string): seq<string>
  {
    seq(|fs|, i requires 0 <= i < |fs| => Clause(fs[i], ports))
  }

  /** What GetFilter returns: one clause per tag, in the order given,
      duplicates kept, joined by " or ". */
  function FilterExpression(args: Args): string
  {
    Join(" or ", Clauses(args.filters, PortSuffix(args)))
  }

  lemma {:induction false} JoinEmpty(sep: string, parts: seq<string>)
    requires forall i :: 0 <= i < |parts| ==> parts[i] != ""
    ensures Join(sep, parts) == "" <==> parts == []
    decreases |parts|
  {
    if |parts| > 1 {
      JoinEmpty(sep, parts[..|parts| - 1]);
      assert parts[|parts| - 1] != "";
    }
  }

  /** The expression is empty exactly when no tag was given. */
  lemma ExpressionEmpty(args: Args)
    ensures FilterExpression(args) == "" <==> args.filters == []
  {
    JoinEmpty(" or ", Clauses(args.filters, PortSuffix(args)));
  }

  /** A single tag gives its clause alone. */
  lemma ExpressionSingle(args: Args, f: Filter)
    requires args.filters == [f]
    ensures FilterExpression(args) == Clause(f, PortSuffix(args))
  {
  }

  /** One more tag adds " or " and its clause, whether or not the tag was
      given before. */
  lemma ExpressionSnoc(args: Args, f: Filter)
    requires args.filters != []
    ensures FilterExpression(args.(filters := args.filters + [f]))
      == FilterExpression(args) + " or " + Clause(f, PortSuffix(args))
  {
    var ports := PortSuffix(args);
    var more := args.(filters := args.filters + [f]);
    assert PortSuffix(more) == ports;
    var cs := Clauses(args.filters + [f], ports);
    assert |cs| > 1 && cs[..|cs| - 1] == Clauses(args.filters, ports);
    assert Join(" or ", cs) == Join(" or ", cs[..|cs| - 1]) + " or " + cs[|cs| - 1];
  }

  lemma EightyText()
    ensures Decimal(80) == "80"
  {
    assert Decimal(80) == Decimal(8) + [DigitChar(0)];
  }

  /** "-t --port-destination 80" restricts TCP to destination port 80. */
  lemma TcpDstPortExample(args: Args)
    requires args.filters == [Tcp] && args.dstPort == Some(80) && args.srcPort.None?
    ensures FilterExpression(args) == "tcp and dst port 80"
  {
    EightyText();
  }

  /** The ndp and mld tags both become "icmp6", twice over. */
  lemma NdpMldExample(args: Args)
    requires args.filters == [Ndp, Mld]
    ensures FilterExpression(args) == "icmp6 or icmp6"
  {
    var cs := Clauses(args.filters, PortSuffix(args));
    assert cs == ["icmp6", "icmp6"];
    assert cs[..1] == ["icmp6"];
    assert Join(" or ", cs) == Join(" or ", cs[..1]) + " or " + cs[1];
  }

  /** The icmp, arp and igmp tags give their own keywords, in the order
      given and without the port restriction. */
  lemma OtherTagsExample(args: Args)
    requires args.filters == [Icmp4, Arp, Igmp]
    ensures FilterExpression(args) == "icmp or arp or igmp"
  {
    var cs := Clauses(args.filters, PortSuffix(args));
    assert cs == ["icmp", "arp", "igmp"];
    assert cs[..2][..1] == ["icmp"];
    assert Join(" or ", cs[..2]) == "icmp or arp";
    assert Join(" or ", cs) == Join(" or ", cs[..2]) + " or " + cs[2];
  }

  // --------------------------------------------------------------- arrivals

  /** The frames Info reports. */
  predicate Kept(args: Args, rc: RawCapture)
  {
    Summarize(args, rc).Success? && Summarize(args, rc).value.Some?
  }

  /** The count after one arrival whose frame is reported (kept) or not:
      frames that come once the count is reached are ignored; a reported
      frame counts one. */
  function CountStep(number: nat, recv: nat, kept: bool): nat
  {
    if recv >= number then recv else if kept then recv + 1 else recv
  }

  /** The count after a run of arrivals, given which of them are reported. */
  function Counted(number: nat, recv: nat, kept: seq<bool>): nat
    decreases |kept|
  {
    if kept == [] then recv else Counted(number, CountStep(number, recv, kept[0]), kept[1..])
  }

  /** How many arrivals are reported. */
  function Trues(kept: seq<bool>): nat
    decreases |kept|
  {
    if kept == [] then 0 else (if kept[0] then 1 else 0) + Trues(kept[1..])
  }

  function Min(a: nat, b: nat): nat
  {
    if a < b then a else b
  }

  /** The count is the number of reported arrivals, stopped at the number
      asked for. */
  lemma {:induction false} CountsTrues(number: nat, recv: nat, kept: seq<bool>)
    requires recv <= number
    ensures Counted(number, recv, kept) == Min(number, recv + Trues(kept))
    decreases |kept|
  {
    if kept != [] {
      CountsTrues(number, CountStep(number, recv, kept[0]), kept[1..]);
    }
  }

  /** Once the count is reached, no further arrival changes it. */
  lemma {:induction false} CountedStops(number: nat, recv: nat, kept: seq<bool>)
    requires recv >= number
    ensures Counted(number, recv, kept) == recv
    decreases |kept|
  {
    if kept != [] {
      CountedStops(number, recv, kept[1..]);
    }
  }

  /** Which of a run of captured frames Info reports. */
  function KeptFlags(args: Args, rcs: seq<RawCapture>): (kept: seq<bool>)
    ensures |kept| == |rcs|
    decreases |rcs|
  {
    if rcs == [] then [] else [Kept(args, rcs[0])] + KeptFlags(args, rcs[1..])
  }

  /** The count after one arrival. */
  function Arrive(args: Args, recv: nat, rc: RawCapture): nat
  {
    CountStep(args.number, recv, Kept(args, rc))
  }

  /** The count after a run of arrivals, in order. */
  function ArriveAll(args: Args, recv: nat, rcs: seq<RawCapture>): nat
  {
    Counted(args.number, recv, KeptFlags(args, rcs))
  }

  /** How many of the frames would be reported. */
  function KeptCount(args: Args, rcs: seq<RawCapture>): nat
  {
    Trues(KeptFlags(args, rcs))
  }

  /** A run of arrivals is its first arrival, then the rest. */
  lemma ArriveFirst(args: Args, recv: nat, rcs: seq<RawCapture>)
    requires rcs != []
    ensures ArriveAll(args, recv, rcs) == ArriveAll(args, Arrive(args, recv, rcs[0]), rcs[1..])
  {
    assert KeptFlags(args, rcs)[1..] == KeptFlags(args, rcs[1..]);
  }

  /** The count is the number of reported frames, stopped at the number
      asked for. */
  lemma CountsKept(args: Args, recv: nat, rcs: seq<RawCapture>)
    requires recv <= args.number
    ensures ArriveAll(args, recv, rcs) == Min(args.number, recv + KeptCount(args, rcs))
  {
    CountsTrues(args.number, recv, KeptFlags(args, rcs));
  }

  /** The count never passes the number asked for. */
  lemma CountBounded(args: Args, rcs: seq<RawCapture>)
    ensures ArriveAll(args, 0, rcs) <= args.number
  {
    CountsKept(args, 0, rcs);
  }

  /** Once the count is reached, no further arrival changes it. */
  lemma CountStops(args: Args, recv: nat, rcs: seq<RawCapture>)
    requires recv >= args.number
    ensures ArriveAll(args, recv, rcs) == recv
  {
    CountedStops(args.number, recv, KeptFlags(args, rcs));
  }

  // -------------------------------------------------------------- the class

  class Iface {
    const args: Args
    const sniffer: Sniffer
    /** The capture filter set on the device, if any. */
    var devFilter: Option<string>
    var recv: nat

    ghost predicate Valid()
      reads this
    {
      sniffer.args == args && recv <= args.number
    }

    constructor (args: Args)
      ensures this.args == args && Valid()
      ensures recv == 0 && devFilter.None?
    {
      this.args := args;
      sniffer := new Sniffer(args);
      devFilter := None;
      recv := 0;
    }

    method GetPorts() returns (ports: string)
      ensures ports == PortSuffix(args)
    {
      ports := "";
      if args.dstPort.Some? {
        ports := ports + DstWord + Decimal(args.dstPort.value);
      }
      if args.srcPort.Some? {
        ports := ports + SrcWord + Decimal(args.srcPort.value);
      }
    }

    method GetFilter() returns (filter: string)
      ensures filter == FilterExpression(args)
    {
      var filters: seq<string> := [];
      var ports := GetPorts();
      var i := 0;
      while i < |args.filters|
        invariant 0 <= i <= |args.filters| && |filters| == i
        invariant forall j :: 0 <= j < i ==> filters[j] == Clause(args.filters[j], ports)
      {
        var clause := match args.filters[i]
          case Tcp => "tcp" + ports
          case Udp => "udp" + ports
          case Icmp4 => "icmp"
          case Icmp6 | Ndp | Mld => "icmp6"
          case Arp => "arp"
          case Igmp => "igmp";
        filters := filters + [clause];
        i := i + 1;
      }
      assert filters == Clauses(args.filters, ports);
      filter := Join(" or ", filters);
    }

    /** The filter step of Sniff: the expression is set on the device only
        when it is not empty. */
    method InstallFilter()
      requires Valid()
      modifies this
      ensures Valid()
      ensures args.filters == [] ==> devFilter == old(devFilter)
      ensures args.filters != [] ==> devFilter == Some(FilterExpression(args))
      ensures recv == old(recv)
    {
      var filter := GetFilter();
      if |filter| > 0 {
        devFilter := Some(filter);
      }
      ExpressionEmpty(args);
    }

    /** The arrival handler: once the count is reached the frame is
        ignored; otherwise it is handed to Info, and counted when Info
        reports it. Info's exception for a non-Ethernet link is passed on,
        with the count unchanged. */
    method OnPacketArrival(rc: RawCapture) returns (printed: string, error: Option<CaptureError>)
      requires Valid()
      modifies this
      ensures Valid() && devFilter == old(devFilter)
      ensures recv == Arrive(args, old(recv), rc)
      ensures printed == if recv == old(recv) + 1 then Report(Summarize(args, rc).value.value) + "\n" else ""
      ensures error.Some? <==> old(recv) < args.number && rc.link.UnsupportedLink?
    {
      if recv >= args.number {
        return "", None;
      }
      var r, text := sniffer.Info(rc);
      if r.Failure? {
        return "", Some(r.error);
      }
      if r.value {
        recv := recv + 1;
      }
      printed, error := text, None;
    }
  }
}
