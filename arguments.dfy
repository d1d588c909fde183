/** The command-line parser (Args.cs). The constructor of class Args walks
    the argument span token by token, filling the interface name, the
    protocol tags, the two ports and the capture count, and throws
    ArgumentException on a malformed line. Only the constructor writes
    those properties, so the parsed line is a value here, and the
    exceptions are the Failure side of a Result. */
module Arguments {
  import opened Wrappers
  import opened Text
  import opened Filters

  /** The properties of class Args after construction. */
  datatype Args = Args(
    iface: Option<string>,
    filters: seq<Filter>,
    dstPort: Option<UShort>,
    srcPort: Option<UShort>,
    number: UInt)
  {
    /** Whether tag f was asked for. Sniffer.cs calls IsFiltered on the
        arguments; its definition is not part of this model, and it is read
        here as membership in the list of tags. */
    predicate IsFiltered(f: Filter): (r: bool)
      ensures r <==> exists i :: 0 <= i < |filters| && filters[i] == f
    {
      f in filters
    }

    /** Interface listing is wanted when nothing that restricts a capture
        was given: the line set nothing but, at most, the count. */
    predicate DisplayIfaces(): (r: bool)
      ensures r <==> this == Defaults.(number := number)
    {
      iface.None? && srcPort.None? && dstPort.None? && |filters| == 0
    }
  }

  /** The property initialisers: count 1, nothing else set. */
  const Defaults := Args(None, [], None, None, 1)

  /** The ArgumentExceptions the constructor throws, by cause. */
  datatype ArgError =
    | InterfaceNotSpecified
    | MissingValue(flag: string)
    | InvalidValue(arg: string)
    | UnknownArgument(arg: string)
    | PortWithoutProtocol

  /** GetNext: step past a flag to its value; fails when nothing follows. */
  function GetNext(args: seq<string>): (r: Result<seq<string>, ArgError>)
    requires args != []
    ensures r.Success? <==> 2 <= |args|
    ensures r.Success? ==> r.value == args[1..]
    ensures r.Failure? ==> r.error == MissingValue(args[0])
  {
    if |args| == 1 then Failure(MissingValue(args[0])) else Success(args[1..])
  }

  /** ParseArg: the token as a decimal number of the target type (at most
      max), or the "invalid argument type" error. */
  function ParseArg(arg: string, max: nat): (r: Result<nat, ArgError>)
    ensures r.Success? <==> ParseNat(arg).Some? && ParseNat(arg).value <= max
    ensures r.Success? ==> r.value == ParseNat(arg).value && r.value <= max
    ensures r.Failure? ==> r.error == InvalidValue(arg)
  {
    match ParseNat(arg)
    case Some(n) => if n <= max then Success(n) else Failure(InvalidValue(arg))
    case None => Failure(InvalidValue(arg))
  }

  // --------------------------------------------------------- the token machine

  /** The constructor's state between tokens: the properties filled so far
      and the local flag recording that -t or -u was seen. */
  datatype ParseState = ParseState(args: Args, port: bool)

  const Initial := ParseState(Defaults, false)

  /** The cases of the constructor's switch. */
  datatype Flag =
    | InterfaceFlag
    | TagFlag(tag: Filter)
    | PortFlag
    | SourcePortFlag
    | DestinationPortFlag
    | CountFlag
    | NotAFlag

  /** The case of the switch a token falls in; the protocol flags carry the
      tag they append. */
  function FlagOf(tok: string): Flag
  {
    if tok == "-i" || tok == "--interface" then InterfaceFlag
    else if tok == "-t" || tok == "--tcp" then TagFlag(Tcp)
    else if tok == "-u" || tok == "--udp" then TagFlag(Udp)
    else if tok == "-p" then PortFlag
    else if tok == "--port-source" then SourcePortFlag
    else if tok == "--port-destination" then DestinationPortFlag
    else if tok == "--icmp4" then TagFlag(Icmp4)
    else if tok == "--icmp6" then TagFlag(Icmp6)
    else if tok == "--arp" then TagFlag(Arp)
    else if tok == "--ndp" then TagFlag(Ndp)
    else if tok == "--igmp" then TagFlag(Igmp)
    else if tok == "--mld" then TagFlag(Mld)
    else if tok == "-n" then CountFlag
    else NotAFlag
  }

  /** The flags that take a number after them. */
  lemma ValueFlags()
    ensures FlagOf("-p") == PortFlag && FlagOf("--port-source") == SourcePortFlag
    ensures FlagOf("--port-destination") == DestinationPortFlag && FlagOf("-n") == CountFlag
  {
  }

  /** Where a port flag stores its value: -p in both ports. */
  function WithPort(flag: Flag, a: Args, p: UShort): Args
  {
    if flag.PortFlag? then a.(dstPort := Some(p), srcPort := Some(p))
    else if flag.SourcePortFlag? then a.(srcPort := Some(p))
    else a.(dstPort := Some(p))
  }

  /** The final check: a port needs -t or -u somewhere on the line. */
  function Finish(st: ParseState): Result<Args, ArgError>
  {
    if (st.args.dstPort.Some? || st.args.srcPort.Some?) && !st.port then Failure(PortWithoutProtocol)
    else Success(st.args)
  }

  /** The rest of the constructor's loop from the span args onward; len is
      the length of the whole command line. */
  function Run(args: seq<string>, len: nat, st: ParseState): Result<Args, ArgError>
    decreases |args|
  {
    if args == [] then Finish(st)
    else
      var a := st.args;
      var tok := args[0];
      match FlagOf(tok)
      case InterfaceFlag =>
        (match GetNext(args)
         case Failure(_) => if len != 1 then Failure(InterfaceNotSpecified) else Success(a)
         case Success(rest) => Run(rest[1..], len, st.(args := a.(iface := Some(rest[0])))))
      case TagFlag(f) =>
        Run(args[1..], len, ParseState(a.(filters := a.filters + [f]), st.port || IsTransport(f)))
      case PortFlag | SourcePortFlag | DestinationPortFlag =>
        (match GetNext(args)
         case Failure(e) => Failure(e)
         case Success(rest) =>
           match ParseArg(rest[0], MaxUShort)
           case Failure(e) => Failure(e)
           case Success(p) => Run(rest[1..], len, st.(args := WithPort(FlagOf(tok), a, p))))
      case CountFlag =>
        (match GetNext(args)
         case Failure(e) => Failure(e)
         case Success(rest) =>
           match ParseArg(rest[0], MaxUInt)
           case Failure(e) => Failure(e)
           case Success(n) => Run(rest[1..], len, st.(args := a.(number := n))))
      case NotAFlag => Failure(UnknownArgument(tok))
  }

  /** What the constructor of Args makes of argv. */
  function Parse(argv: seq<string>): Result<Args, ArgError>
  {
    Run(argv, |argv|, Initial)
  }

  /** The constructor of Args: a loop that advances the span one flag (and
      its value) at a time and fills the properties in place. */
  method ParseArgs(argv: seq<string>) returns (r: Result<Args, ArgError>)
    ensures r == Parse(argv)
  {
    var len := |argv|;
    var port := false;
    var iface: Option<string> := None;
    var filters: seq<Filter> := [];
    var dstPort: Option<UShort> := None;
    var srcPort: Option<UShort> := None;
    var number: UInt := 1;
    var args := argv;
    while args != []
      invariant Run(args, len, ParseState(Args(iface, filters, dstPort, srcPort, number), port)) == Parse(argv)
      decreases |args|
    {
      var tok := args[0];
      match FlagOf(tok) {
        case InterfaceFlag =>
          var next := GetNext(args);
          if next.Failure? {
            if len != 1 {
              return Failure(InterfaceNotSpecified);
            }
            return Success(Args(iface, filters, dstPort, srcPort, number));
          }
          args := next.value;
          iface := Some(args[0]);
        case TagFlag(Tcp) =>
          filters := filters + [Tcp];
          port := true;
        case TagFlag(Udp) =>
          filters := filters + [Udp];
          port := true;
        case PortFlag =>
          var next := GetNext(args);
          if next.Failure? {
            return Failure(next.error);
          }
          args := next.value;
          var p := ParseArg(args[0], MaxUShort);
          if p.Failure? {
            return Failure(p.error);
          }
          dstPort := Some(p.value);
          srcPort := dstPort;
        case SourcePortFlag =>
          var next := GetNext(args);
          if next.Failure? {
            return Failure(next.error);
          }
          args := next.value;
          var p := ParseArg(args[0], MaxUShort);
          if p.Failure? {
            return Failure(p.error);
          }
          srcPort := Some(p.value);
        case DestinationPortFlag =>
          var next := GetNext(args);
          if next.Failure? {
            return Failure(next.error);
          }
          args := next.value;
          var p := ParseArg(args[0], MaxUShort);
          if p.Failure? {
            return Failure(p.error);
          }
          dstPort := Some(p.value);
        case TagFlag(Icmp4) =>
          filters := filters + [Icmp4];
        case TagFlag(Icmp6) =>
          filters := filters + [Icmp6];
        case TagFlag(Arp) =>
          filters := filters + [Arp];
        case TagFlag(Ndp) =>
          filters := filters + [Ndp];
        case TagFlag(Igmp) =>
          filters := filters + [Igmp];
        case TagFlag(Mld) =>
          filters := filters + [Mld];
        case CountFlag =>
          var next := GetNext(args);
          if next.Failure? {
            return Failure(next.error);
          }
          args := next.value;
          var n := ParseArg(args[0], MaxUInt);
          if n.Failure? {
            return Failure(n.error);
          }
          number := n.value;
        case NotAFlag =>
          return Failure(UnknownArgument(tok));
      }
      args := args[1..];
    }
    if (dstPort.Some? || srcPort.Some?) && !port {
      return Failure(PortWithoutProtocol);
    }
    return Success(Args(iface, filters, dstPort, srcPort, number));
  }

  // ------------------------------------------- an independent reading of a line

  /** One well-formed option of the command line, with its value. */
  datatype Opt =
    | InterfaceOpt(long: bool, name: string)
    | ProtocolOpt(tag: Filter, long: bool)
    | PortOpt(port: UShort)
    | SourcePortOpt(port: UShort)
    | DestinationPortOpt(port: UShort)
    | CountOpt(count: UInt)

  /** The flag that asks for tag f; only -t and -u have a short form. */
  function ProtocolToken(f: Filter, long: bool): string
  {
    match f
    case Tcp => if long then "--tcp" else "-t"
    case Udp => if long then "--udp" else "-u"
    case Icmp4 => "--icmp4"
    case Icmp6 => "--icmp6"
    case Arp => "--arp"
    case Ndp => "--ndp"
    case Igmp => "--igmp"
    case Mld => "--mld"
  }

  /** The tokens a user types for one option. */
  function Spelling(o: Opt): seq<string>
  {
    match o
    case InterfaceOpt(long, name) => [if long then "--interface" else "-i", name]
    case ProtocolOpt(f, long) => [ProtocolToken(f, long)]
    case PortOpt(p) => ["-p", Decimal(p)]
    case SourcePortOpt(p) => ["--port-source", Decimal(p)]
    case DestinationPortOpt(p) => ["--port-destination", Decimal(p)]
    case CountOpt(n) => ["-n", Decimal(n)]
  }

  function Render(opts: seq<Opt>): seq<string>
  {
    if opts == [] then [] else Render(opts[..|opts| - 1]) + Spelling(opts[|opts| - 1])
  }

  /** The protocol tags named, in command-line order, repeats included. */
  function Tags(opts: seq<Opt>): seq<Filter>
  {
    if opts == [] then []
    else
      var before := Tags(opts[..|opts| - 1]);
      match opts[|opts| - 1]
      case ProtocolOpt(f, _) => before + [f]
      case _ => before
  }

  /** The last interface named. */
  function LastInterface(opts: seq<Opt>): Option<string>
  {
    if opts == [] then None
    else
      match opts[|opts| - 1]
      case InterfaceOpt(_, name) => Some(name)
      case _ => LastInterface(opts[..|opts| - 1])
  }

  /** The last destination port given, by -p or --port-destination. */
  function LastDestination(opts: seq<Opt>): Option<UShort>
  {
    if opts == [] then None
    else
      match opts[|opts| - 1]
      case PortOpt(p) => Some(p)
      case DestinationPortOpt(p) => Some(p)
      case _ => LastDestination(opts[..|opts| - 1])
  }

  /** The last source port given, by -p or --port-source. */
  function LastSource(opts: seq<Opt>): Option<UShort>
  {
    if opts == [] then None
    else
      match opts[|opts| - 1]
      case PortOpt(p) => Some(p)
      case SourcePortOpt(p) => Some(p)
      case _ => LastSource(opts[..|opts| - 1])
  }

  /** The last count given, 1 when there is none. */
  function LastCount(opts: seq<Opt>): UInt
  {
    if opts == [] then 1
    else
      match opts[|opts| - 1]
      case CountOpt(n) => n
      case _ => LastCount(opts[..|opts| - 1])
  }

  /** Some option asks for TCP or UDP. */
  predicate NamesTransport(opts: seq<Opt>)
  {
    exists i :: 0 <= i < |opts| && opts[i].ProtocolOpt? && IsTransport(opts[i].tag)
  }

  /** What a line of well-formed options means. */
  function Meaning(opts: seq<Opt>): Args
  {
    Args(LastInterface(opts), Tags(opts), LastDestination(opts), LastSource(opts), LastCount(opts))
  }

  /** The state after the parser has read the tokens of opts. */
  function StateAfter(opts: seq<Opt>): ParseState
  {
    ParseState(Meaning(opts), NamesTransport(opts))
  }

  lemma {:induction false} RenderEmpty(opts: seq<Opt>)
    ensures Render(opts) == [] <==> opts == []
    ensures opts != [] ==> |Render(opts)| >= |Spelling(opts[|opts| - 1])|
  {
  }

  lemma NamesTransportSnoc(opts: seq<Opt>, o: Opt)
    ensures NamesTransport(opts + [o]) == (NamesTransport(opts) || (o.ProtocolOpt? && IsTransport(o.tag)))
  {
    var all := opts + [o];
    if NamesTransport(opts) {
      var i :| 0 <= i < |opts| && opts[i].ProtocolOpt? && IsTransport(opts[i].tag);
      assert all[i] == opts[i];
    }
    if NamesTransport(all) && !(o.ProtocolOpt? && IsTransport(o.tag)) {
      var i :| 0 <= i < |all| && all[i].ProtocolOpt? && IsTransport(all[i].tag);
      assert i < |opts| && all[i] == opts[i];
    }
    if o.ProtocolOpt? && IsTransport(o.tag) {
      assert all[|opts|] == o;
    }
  }

  /** The state after opts + [o], computed from the state after opts as the
      constructor's switch does for o. */
  function Step(st: ParseState, o: Opt): ParseState
  {
    var a := st.args;
    match o
    case InterfaceOpt(_, name) => st.(args := a.(iface := Some(name)))
    case ProtocolOpt(f, _) => ParseState(a.(filters := a.filters + [f]), st.port || IsTransport(f))
    case PortOpt(p) => st.(args := a.(dstPort := Some(p), srcPort := Some(p)))
    case SourcePortOpt(p) => st.(args := a.(srcPort := Some(p)))
    case DestinationPortOpt(p) => st.(args := a.(dstPort := Some(p)))
    case CountOpt(n) => st.(args := a.(number := n))
  }

  lemma StateAfterSnoc(opts: seq<Opt>, o: Opt)
    ensures StateAfter(opts + [o]) == Step(StateAfter(opts), o)
  {
    var all := opts + [o];
    assert all[..|all| - 1] == opts;
    NamesTransportSnoc(opts, o);
  }

  /** The case of the switch the flag of an option falls in. */
  function FlagFor(o: Opt): Flag
  {
    match o
    case InterfaceOpt(_, _) => InterfaceFlag
    case ProtocolOpt(f, _) => TagFlag(f)
    case PortOpt(_) => PortFlag
    case SourcePortOpt(_) => SourcePortFlag
    case DestinationPortOpt(_) => DestinationPortFlag
    case CountOpt(_) => CountFlag
  }

  /** The switch sends the first token of every option to its own case. */
  lemma SpellingFlag(o: Opt)
    ensures FlagOf(Spelling(o)[0]) == FlagFor(o)
  {
    match o
    case ProtocolOpt(f, long) =>
      match f {
        case Tcp =>
        case Udp =>
        case Icmp4 =>
        case Icmp6 =>
        case Arp =>
        case Ndp =>
        case Igmp =>
        case Mld =>
      }
    case _ =>
  }

  /** Reading an option that takes a number: the flag, then its value. */
  lemma RunValueOption(o: Opt, rest: seq<string>, len: nat, st: ParseState)
    requires o.PortOpt? || o.SourcePortOpt? || o.DestinationPortOpt? || o.CountOpt?
    ensures Run(Spelling(o) + rest, len, st) == Run(rest, len, Step(st, o))
  {
    var toks := Spelling(o) + rest;
    SpellingFlag(o);
    var p := if o.CountOpt? then o.count else o.port;
    DecimalRoundTrip(p);
    assert toks[1..][0] == Decimal(p);
    assert toks[1..][1..] == rest;
  }

  /** Reading the tokens of one more option moves the parser from the state
      after opts to the state after opts + [o]. */
  lemma RunOneOption(opts: seq<Opt>, o: Opt, rest: seq<string>, len: nat)
    ensures Run(Spelling(o) + rest, len, StateAfter(opts)) == Run(rest, len, StateAfter(opts + [o]))
  {
    StateAfterSnoc(opts, o);
    var st := StateAfter(opts);
    var toks := Spelling(o) + rest;
    match o
    case InterfaceOpt(long, name) =>
      SpellingFlag(o);
      assert toks[1..][0] == name;
      assert toks[1..][1..] == rest;
    case ProtocolOpt(f, long) =>
      SpellingFlag(o);
      assert toks[1..] == rest;
    case _ =>
      RunValueOption(o, rest, len, st);
  }

  /** Reading the tokens of a list of options leaves the parser in the state
      the options mean, whatever follows and however long the line is. */
  lemma {:induction false} RunRendered(opts: seq<Opt>, rest: seq<string>, len: nat)
    ensures Run(Render(opts) + rest, len, Initial) == Run(rest, len, StateAfter(opts))
    decreases |opts|
  {
    if opts == [] {
      assert Render(opts) + rest == rest;
      assert StateAfter(opts) == Initial by {
        assert !NamesTransport(opts);
      }
    } else {
      var before := opts[..|opts| - 1];
      var o := opts[|opts| - 1];
      assert before + [o] == opts;
      assert Render(opts) + rest == Render(before) + (Spelling(o) + rest);
      RunRendered(before, Spelling(o) + rest, len);
      RunOneOption(before, o, rest, len);
    }
  }

  /** A line of well-formed options is accepted exactly when a port comes
      with -t or -u somewhere on the line (in either order), and then the
      parsed properties are the options' meaning: tags in order with
      repeats, the last interface, the last of each port (-p sets both),
      the last count, defaults otherwise. */
  lemma ParseRendered(opts: seq<Opt>)
    ensures Parse(Render(opts)) ==
      if (LastDestination(opts).Some? || LastSource(opts).Some?) && !NamesTransport(opts)
      then Failure(PortWithoutProtocol)
      else Success(Meaning(opts))
  {
    RunRendered(opts, [], |Render(opts)|);
    assert Render(opts) + [] == Render(opts);
  }

  /** The empty command line yields the defaults. */
  lemma EmptyLine()
    ensures Parse([]) == Success(Defaults)
  {
    ParseRendered([]);
  }

  predicate IsFlag(tok: string) {
    tok in {"-i", "--interface", "-t", "--tcp", "-u", "--udp", "-p", "--port-source",
            "--port-destination", "--icmp4", "--icmp6", "--arp", "--ndp", "--igmp", "--mld", "-n"}
  }

  /** A token that is no flag, met where a flag is expected, is rejected,
      whatever follows it. */
  lemma UnknownTokenRejected(opts: seq<Opt>, tok: string, rest: seq<string>)
    requires !IsFlag(tok)
    ensures Parse(Render(opts) + [tok] + rest) == Failure(UnknownArgument(tok))
  {
    var line := Render(opts) + [tok] + rest;
    assert line == Render(opts) + ([tok] + rest);
    RunRendered(opts, [tok] + rest, |line|);
  }

  /** A value-taking flag other than -i at the end of the line is missing
      its value. */
  lemma MissingValueRejected(opts: seq<Opt>, flag: string)
    requires flag in {"-p", "--port-source", "--port-destination", "-n"}
    ensures Parse(Render(opts) + [flag]) == Failure(MissingValue(flag))
  {
    ValueFlags();
    RunRendered(opts, [flag], |Render(opts) + [flag]|);
  }

  /** -i with nothing after it is accepted, leaving everything unset, when
      it is the whole line; after other options it is an error. */
  lemma InterfaceFlagLast(opts: seq<Opt>, flag: string)
    requires flag == "-i" || flag == "--interface"
    ensures Parse(Render(opts) + [flag]) ==
      if opts == [] then Success(Defaults) else Failure(InterfaceNotSpecified)
  {
    RunRendered(opts, [flag], |Render(opts) + [flag]|);
    RenderEmpty(opts);
    if opts == [] {
      assert StateAfter(opts) == Initial by {
        assert !NamesTransport(opts);
      }
    }
  }

  /** A port value that is not a decimal number up to 65535 is rejected. */
  lemma InvalidPortRejected(opts: seq<Opt>, flag: string, value: string, rest: seq<string>)
    requires flag in {"-p", "--port-source", "--port-destination"}
    requires ParseNat(value).None? || ParseNat(value).value > MaxUShort
    ensures Parse(Render(opts) + [flag, value] + rest) == Failure(InvalidValue(value))
  {
    var line := Render(opts) + [flag, value] + rest;
    assert line == Render(opts) + ([flag, value] + rest);
    ValueFlags();
    RunRendered(opts, [flag, value] + rest, |line|);
    assert ([flag, value] + rest)[1..][0] == value;
  }

  /** A count that is not a decimal number up to 4294967295 is rejected. */
  lemma InvalidCountRejected(opts: seq<Opt>, value: string, rest: seq<string>)
    requires ParseNat(value).None? || ParseNat(value).value > MaxUInt
    ensures Parse(Render(opts) + ["-n", value] + rest) == Failure(InvalidValue(value))
  {
    var line := Render(opts) + ["-n", value] + rest;
    assert line == Render(opts) + (["-n", value] + rest);
    ValueFlags();
    RunRendered(opts, ["-n", value] + rest, |line|);
    assert (["-n", value] + rest)[1..][0] == value;
  }

  /** On an accepted line of options, interface listing is chosen exactly
      when every option is a count. */
  lemma {:induction false} DisplayIfacesOnlyCounts(opts: seq<Opt>)
    ensures Meaning(opts).DisplayIfaces() <==> forall i :: 0 <= i < |opts| ==> opts[i].CountOpt?
  {
    if opts != [] {
      var before := opts[..|opts| - 1];
      DisplayIfacesOnlyCounts(before);
      if forall i :: 0 <= i < |before| ==> before[i].CountOpt? {
        if opts[|opts| - 1].CountOpt? {
          forall i | 0 <= i < |opts| ensures opts[i].CountOpt? {
            if i < |before| {
              assert opts[i] == before[i];
            }
          }
        }
      } else {
        var i :| 0 <= i < |before| && !before[i].CountOpt?;
        assert opts[i] == before[i];
        assert !Meaning(before).DisplayIfaces();
      }
    }
  }

  // ------------------------------------------------------------- worked lines

  lemma DecimalExamples()
    ensures Decimal(0) == "0" && Decimal(53) == "53" && Decimal(80) == "80"
  {
    assert Decimal(5) == "5" && Decimal(8) == "8";
  }

  lemma RenderTwo(a: Opt, b: Opt)
    ensures Render([a, b]) == Spelling(a) + Spelling(b)
  {
    assert [a, b][..1] == [a];
    assert [a][..0] == [];
    assert Render([a]) == Render([]) + Spelling(a);
  }

  lemma StateAfterEmpty()
    ensures StateAfter([]) == Initial
  {
    assert !NamesTransport([]);
  }

  /** The state after a short line, one option at a time. */
  lemma StateAfterTwo(a: Opt, b: Opt)
    ensures StateAfter([a, b]) == Step(StateAfter([a]), b)
    ensures StateAfter([a]) == Step(Initial, a)
  {
    StateAfterEmpty();
    assert [] + [a] == [a];
    StateAfterSnoc([], a);
    assert [a] + [b] == [a, b];
    StateAfterSnoc([a], b);
  }

  lemma RenderThree(a: Opt, b: Opt, c: Opt)
    ensures Render([a, b, c]) == Spelling(a) + Spelling(b) + Spelling(c)
  {
    assert [a, b, c][..2] == [a, b];
    RenderTwo(a, b);
  }

  /** -p sets both ports; a later --port-source overrides the source. */
  lemma LaterPortFlagOverrides()
    ensures Parse(["-t", "-p", "80", "--port-source", "53"]) ==
      Success(Args(None, [Tcp], Some(80), Some(53), 1))
  {
    var opts := [ProtocolOpt(Tcp, false), PortOpt(80), SourcePortOpt(53)];
    DecimalExamples();
    RenderThree(opts[0], opts[1], opts[2]);
    assert Render(opts) == ["-t", "-p", "80", "--port-source", "53"];
    StateAfterTwo(opts[0], opts[1]);
    assert [opts[0], opts[1]] + [opts[2]] == opts;
    StateAfterSnoc([opts[0], opts[1]], opts[2]);
    assert StateAfter(opts) == ParseState(Args(None, [Tcp], Some(80), Some(53), 1), true);
    ParseRendered(opts);
  }

  /** The port check looks at the whole line: -t after the port is enough. */
  lemma TransportAfterPortAccepted()
    ensures Parse(["-p", "80", "-t"]) == Success(Args(None, [Tcp], Some(80), Some(80), 1))
  {
    DecimalExamples();
    var opts := [PortOpt(80), ProtocolOpt(Tcp, false)];
    RenderTwo(opts[0], opts[1]);
    assert Render(opts) == ["-p", "80", "-t"];
    StateAfterTwo(opts[0], opts[1]);
    assert StateAfter(opts) == ParseState(Args(None, [Tcp], Some(80), Some(80), 1), true);
    ParseRendered(opts);
  }

  /** A port with only non-transport tags is rejected. */
  lemma PortWithIcmp6Rejected()
    ensures Parse(["-p", "80", "--icmp6"]) == Failure(PortWithoutProtocol)
  {
    DecimalExamples();
    var opts := [PortOpt(80), ProtocolOpt(Icmp6, true)];
    RenderTwo(opts[0], opts[1]);
    assert Render(opts) == ["-p", "80", "--icmp6"];
    assert opts[..1] == [opts[0]] && opts[..1][..0] == [];
    assert LastDestination(opts).Some?;
    assert !NamesTransport(opts) by {
      forall i | 0 <= i < |opts| ensures !(opts[i].ProtocolOpt? && IsTransport(opts[i].tag)) {
      }
    }
    ParseRendered(opts);
  }

  /** Repeated protocol flags are all kept, in order. */
  lemma RepeatedFlagsKept()
    ensures Parse(["--ndp", "--mld", "--ndp"]) == Success(Args(None, [Ndp, Mld, Ndp], None, None, 1))
  {
    var opts := [ProtocolOpt(Ndp, true), ProtocolOpt(Mld, true), ProtocolOpt(Ndp, true)];
    RenderThree(opts[0], opts[1], opts[2]);
    assert Render(opts) == ["--ndp", "--mld", "--ndp"];
    StateAfterTwo(opts[0], opts[1]);
    assert [opts[0], opts[1]] + [opts[2]] == opts;
    StateAfterSnoc([opts[0], opts[1]], opts[2]);
    assert StateAfter(opts) == ParseState(Args(None, [Ndp, Mld, Ndp], None, None, 1), false);
    ParseRendered(opts);
  }

  /** The parser accepts a count of 0: the type is uint and nothing checks
      for a positive count. */
  lemma ZeroCountAccepted()
    ensures Parse(["-n", "0"]) == Success(Defaults.(number := 0))
  {
    DecimalExamples();
    var opts := [CountOpt(0)];
    assert opts[..0] == [];
    assert Render(opts) == ["-n", "0"];
    ParseRendered(opts);
  }
}
