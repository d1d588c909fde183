# Packet sniffer core, modelled in Dafny

The program is a command-line packet sniffer. It reads its arguments into
an `Args` record (interface, protocol tags, port restrictions, packet count).
From those it builds a pcap capture expression such as `tcp and dst port 80
or icmp6`. Then, for each captured frame, it fills a `SniffPacket` summary:
timestamp, frame length, MAC addresses, IPv6 or other IP addresses, TCP/UDP
ports and a hex/ASCII dump of the frame. It prints the summary and stops once
`-n` frames have been reported.

The model follows the program's classes file by file:

- `filters.dfy` (module `Filters`): the protocol tags of `Filter.cs`.
- `arguments.dfy` (module `Arguments`): the `Args` constructor's token
  switch (`Args.cs`). It is an imperative loop (`ParseArgs`) proved equal to
  a token-by-token specification (`Parse`/`Run`), and `Parse` is in turn
  characterised against an independent rendering of option lists (`Render`,
  `Meaning`). `GetNext`, `ParseArg` and `DisplayIfaces` are modelled too.
- `dump.dfy` (module `Dump`): the dump `SetHexData` writes, as a function of
  the frame's bytes (`HexDump`). The loop's step function is
  `Advance`/`AfterBytes`. A reader (`ReadDump`) recovers the bytes from the
  text.
- `packets.dfy` (module `Packets`): the `SniffPacket` class with its fields,
  constructor, `ToString` and `SetHexData`. `SetHexData`'s loop is the method
  `DumpText`, proved to build `HexDump`.
- `sniffing.dfy` (module `Sniffing`): the `Sniffer` class (`Sniffer.cs`).
  Each `Handle*` method updates the `SniffPacket` in place and is proved
  against the specification function `Summarize`. Properties of the
  classification are lemmas about `Summarize`.
- `capture.dfy` (module `Capture`): the `Iface` class (`Iface.cs`):
  `GetPorts`, `GetFilter`, the filter step of `Sniff`, and `OnPacketArrival`
  with its counter. The counting over a run of arrivals is proved against
  `ArriveAll`.
- `text.dfy` and `wrappers.dfy` (modules `Text`, `Wrappers`): the .NET string
  and number operations the program uses, and `Option`/`Result`.

Exceptions become `Result`/`Option` values. Console output becomes a
returned string.

## Model

| member | source | states |
|---|---|---|
| `Arguments.GetNext` | Args.cs:104-114 | succeeds exactly when a value follows the flag, returning the tokens after the flag; otherwise fails with the flag's missing-value error |
| `Arguments.ParseArg` | Args.cs:123-128 | succeeds exactly when the token is a decimal number no larger than the target type's maximum, with that value; otherwise the invalid-argument error |
| `Arguments.ParseArgs` | Args.cs:15-87 | the constructor's loop over the token span returns exactly `Parse(argv)`: the token-by-token switch, then the port-without-TCP/UDP check |
| `Arguments.SpellingFlag` | Args.cs:20-76 | the first token of each option's spelling selects that option's own case of the switch |
| `Arguments.RunValueOption` | Args.cs:42-76 | a value-taking flag followed by a valid value consumes both tokens and updates the fields as the switch does |
| `Arguments.RunOneOption` | Args.cs:19-82 | one well-formed option, whatever the options before it, moves the parser from the state after those options to the state after them and it |
| `Arguments.RunRendered` | Args.cs:19-83 | any sequence of well-formed options leaves the parser in the state the options describe, with the rest of the line still to read |
| `Arguments.ParseRendered` | Args.cs:15-87 | parsing any well-formed option list gives its meaning: the tags in order, the last interface, ports and count, and it fails exactly when a port is given without `-t`/`-u` |
| `Arguments.EmptyLine` | Args.cs:5-9 | no arguments give the defaults: no interface, no tags, no ports, count 1 |
| `Arguments.UnknownTokenRejected` | Args.cs:77-80 | a token that is not one of the sixteen flags fails with the unknown-argument error naming it |
| `Arguments.MissingValueRejected` | Args.cs:104-111 | a value-taking flag at the end of the line fails with the missing-value error naming it |
| `Arguments.InterfaceFlagLast` | Args.cs:21-31 | a trailing `-i` is accepted (leaving the interface unset) only when it is the whole line, and otherwise fails with interface-not-specified |
| `Arguments.InvalidPortRejected` | Args.cs:42-54 | a port flag whose value is not a number up to 65535 fails with the invalid-argument error |
| `Arguments.InvalidCountRejected` | Args.cs:73-76 | `-n` with a value that is not a number up to 4294967295 fails with the invalid-argument error |
| `Arguments.Args.DisplayIfaces` | Args.cs:93-96 | interfaces are listed exactly when no interface, no port and no tag was set: the arguments are the defaults except, possibly, the count |
| `Arguments.Args.IsFiltered` | Sniffer.cs:79-90 | tag f counts as asked for exactly when some position of the parsed tag list holds f |
| `Arguments.DisplayIfacesOnlyCounts` | Args.cs:93-96 | interfaces are listed exactly when the options given are only `-n` options |
| `Arguments.LaterPortFlagOverrides` | Args.cs:42-50 | `-p 80` sets both ports, and a later `--port-source 53` replaces the source port only |
| `Arguments.TransportAfterPortAccepted` | Args.cs:85-86 | the port check runs after the whole line, so `-p 80 -t` is accepted |
| `Arguments.PortWithIcmp6Rejected` | Args.cs:85-86 | a port with only non-transport tags fails with the port error |
| `Arguments.RepeatedFlagsKept` | Args.cs:64-72 | repeated tags are all kept, in order |
| `Arguments.ZeroCountAccepted` | Args.cs:73-76 | `-n 0` is accepted, with count 0 |
| `Text.DecimalRoundTrip` | Args.cs:123-128 | the number parser reads back the decimal text of every natural number |
| `Text.PadLeft` | SniffPacket.cs:57 | the result is as long as the width (or the string, if longer) and is fill characters followed by the string |
| `Text.PadRight` | SniffPacket.cs:74 | the result is as long as the width (or the string, if longer), starts with the string and is filled after it |
| `Text.Replace` | Sniffer.cs:45-50 | same length, every occurrence of one character replaced and every other character kept |
| `Dump.HexByte` | SniffPacket.cs:57 | a byte is written as two lower-case hex digits, high nibble first |
| `Dump.AsciiChar` | SniffPacket.cs:58-63 | bytes 33..126 appear as themselves, every other byte as `.`; never a newline or a space |
| `Dump.TruncDiv` | SniffPacket.cs:66 | C#'s division: Dafny's quotient for a non-negative dividend, and 0 for a negative dividend smaller in size than the divisor |
| `Dump.Label` | SniffPacket.cs:66 | a line label is all digits and at least four characters |
| `Dump.LabelValue` | SniffPacket.cs:66 | a line label reads back as the number it was made from: the zero padding in front does not change its value |
| `Text.LeadingZerosValue` | SniffPacket.cs:66 | zeros put in front of a run of digits leave its value unchanged |
| `Dump.Chunk` | SniffPacket.cs:65-75 | every line shows 1 to 16 bytes, and exactly 16 unless it is a short last line |
| `Dump.HexTextAt` | SniffPacket.cs:57 | byte j's two digits stand at columns 3j and 3j+1 of the hex column, followed by a space |
| `Dump.AsciiTextAt` | SniffPacket.cs:58-63 | byte j's character stands at column j of the ASCII column |
| `Dump.FullColumn` | SniffPacket.cs:67 | the 48-character hex column of a full line reads back to its 16 bytes |
| `Dump.FinalColumn` | SniffPacket.cs:74 | the short last line's hex column, padded to 49, reads back to its bytes |
| `Dump.ReadLine` | SniffPacket.cs:67 | a dump line (`0x`, label, `: `, hex column, space, ASCII column, newline) reads back to its bytes, followed by whatever comes after it |
| `Dump.DumpRoundTrip` | SniffPacket.cs:53-78 | reading the dump gives back exactly the frame's bytes |
| `Dump.EmptyDump` | SniffPacket.cs:53-78 | the dump is empty exactly when the frame is |
| `Dump.DumpShape` | SniffPacket.cs:56-77 | the dump has ceil(n/16) lines, all of 16 bytes except possibly the last, and together they hold the frame's bytes in order |
| `Dump.FinalLabelValue` | SniffPacket.cs:71-72 | the short last line is labelled 10 for a frame under 16 bytes, and (n/16)*10 otherwise |
| `Dump.ShortFrameLabel` | SniffPacket.cs:70-75 | the dump of a frame shorter than 16 bytes begins `0x0010: ` |
| `Dump.SingleLine` | SniffPacket.cs:70-75 | the dump of a frame shorter than 16 bytes is that one short line |
| `Dump.LoopIndex` | SniffPacket.cs:65-66 | counter i closes a line exactly at a line's sixteenth byte, and its label there is the line number times ten |
| `Dump.WithinLine` | SniffPacket.cs:57-63 | inside a line only the two columns grow, holding exactly the line's bytes so far, and the builder is untouched |
| `Dump.FullLineDone` | SniffPacket.cs:65-69 | after a line's sixteenth byte the builder gains that full line and both columns are reset |
| `Dump.FinalLineDone` | SniffPacket.cs:70-75 | after the last byte of a short last line the builder gains that line |
| `Dump.LinesDone` | SniffPacket.cs:56-77 | at every line boundary the builder holds exactly the dump's first lines |
| `Dump.AllBytesDumped` | SniffPacket.cs:56-78 | after all bytes the builder's text is the whole dump |
| `Packets.Fresh` | SniffPacket.cs:17-20 | a new record has its timestamp and length set, no optional field set and an empty dump |
| `Packets.SniffPacket.constructor` | SniffPacket.cs:17-20 | the constructed object's fields are those of a fresh record |
| `Packets.SniffPacket.ToString` | SniffPacket.cs:22-44 | the method builds exactly the report of the object's current fields |
| `Packets.ReportLines` | SniffPacket.cs:22-44 | the report is one `name: value` line per entry, in the fixed field order, then a blank line and the dump |
| `Packets.EntryCount` | SniffPacket.cs:23-40 | timestamp and frame length always have a line, and each optional field has one exactly when it is set |
| `Packets.TimestampEntry` | SniffPacket.cs:23 | the timestamp line holds exactly the record's timestamp |
| `Packets.LengthEntry` | SniffPacket.cs:30 | the frame-length line holds exactly the length in decimal followed by ` bytes` |
| `Packets.MacEntries` | SniffPacket.cs:25-28 | a MAC line is there exactly when that MAC is set, and holds it |
| `Packets.IpEntries` | SniffPacket.cs:32-40 | a `src IP`/`dst IP` line holding x is there exactly when that address is x or that port is written x |
| `Packets.ReportEndsWithDump` | SniffPacket.cs:42 | the report ends with a newline followed by the dump |
| `Packets.DumpText` | SniffPacket.cs:53-78 | the byte-by-byte loop builds exactly the dump of the frame |
| `Packets.SniffPacket.SetHexData` | SniffPacket.cs:50-79 | the dump field becomes the frame's dump and every other field is unchanged |
| `Sniffing.BytePair` | Sniffer.cs:45-50 | a MAC byte is two upper-case hex digits whose value is the byte |
| `Sniffing.DashesToColons` | Sniffer.cs:45-50 | the dashed text with dashes replaced by colons is the byte pairs joined by `:` |
| `Sniffing.MacRoundTrip` | Sniffer.cs:45-50 | reading a MAC string gives back its bytes |
| `Sniffing.MacShape` | Sniffer.cs:45-50 | a MAC string of n bytes has 3n-1 characters, with a colon at exactly every third position |
| `Sniffing.Sniffer.constructor` | Sniffer.cs:8-10 | the sniffer keeps the arguments it was given |
| `Sniffing.Sniffer.Info` | Sniffer.cs:17-24 | fails exactly on a non-Ethernet link; otherwise returns whether the frame is reported and prints exactly its report and a newline when it is |
| `Sniffing.Sniffer.HandleLinkTypes` | Sniffer.cs:26-37 | returns a fresh summary object equal to `Summarize`, null exactly when the frame is dropped, and the link error for a non-Ethernet link |
| `Sniffing.Sniffer.Ethernet` | Sniffer.cs:44-53 | sets both MACs, then leaves the record as the Ethernet classification does; null only for a dropped IPv6 frame |
| `Sniffing.Sniffer.HandleEth` | Sniffer.cs:55-60 | IPv6 frames go to the IP handler and others to the default handler, with the state the classification prescribes |
| `Sniffing.Sniffer.HandleIP` | Sniffer.cs:62-71 | sets both addresses, then hands ICMPv6 to the ICMPv6 handler and everything else to the default IP handler |
| `Sniffing.Sniffer.HandleIcmp6` | Sniffer.cs:73-99 | MLD and NDP messages are dropped (record untouched) unless their tag was asked for, otherwise given ports and the dump; other types are kept unchanged |
| `Sniffing.Sniffer.HandleDefault` | Sniffer.cs:101-106 | the record gains the IP addresses if present, the ports and the dump |
| `Sniffing.Sniffer.HandleDefaultIp` | Sniffer.cs:108-112 | the record gains the ports and the dump |
| `Sniffing.Sniffer.Ip` | Sniffer.cs:119-125 | addresses are set when an IP header is present, and the record is unchanged otherwise |
| `Sniffing.Sniffer.Port` | Sniffer.cs:132-142 | the ports are set from TCP if present, else from UDP, and the record is unchanged otherwise |
| `Sniffing.OnlyEthernet` | Sniffer.cs:30-36 | classification fails exactly for a non-Ethernet link, with the link error |
| `Sniffing.FrameFields` | Sniffer.cs:26-53 | a reported frame carries its capture timestamp, its length and both MAC strings |
| `Sniffing.NonIpv6Kept` | Sniffer.cs:55-60 | a non-IPv6 Ethernet frame is always reported, with both addresses exactly when it has an IP header, the source and destination ports of its TCP segment, else of its UDP segment, else none, and the dump |
| `Sniffing.Ipv6TransportKept` | Sniffer.cs:62-71 | an IPv6 frame that is not ICMPv6 is always reported, with its source and destination addresses, the ports of its TCP segment, else of its UDP segment, else none, and the dump |
| `Sniffing.TcpPreferred` | Sniffer.cs:135-137 | when TCP is present its ports are taken, whatever UDP holds |
| `Sniffing.NoSegmentNoPorts` | Sniffer.cs:132-142 | with neither TCP nor UDP the record is left unchanged |
| `Sniffing.MldGate` | Sniffer.cs:76-83 | an MLD message is reported exactly when `--mld` was given, then with its source and destination addresses, no ports and the dump |
| `Sniffing.NdpGate` | Sniffer.cs:85-94 | an NDP message is reported exactly when `--ndp` was given, then with its source and destination addresses, no ports and the dump |
| `Sniffing.OtherIcmp6Undumped` | Sniffer.cs:95-98 | any other ICMPv6 message is always reported, with addresses, no ports and no dump |
| `Sniffing.OnlyMldNdpConsulted` | Sniffer.cs:73-99 | classification depends on the arguments only through whether `--mld` and `--ndp` were given |
| `Sniffing.DroppedOnlyByTag` | Sniffer.cs:79-91 | a frame is dropped only when it is an MLD or NDP message whose tag was not given |
| `Sniffing.DumpOrNothing` | Sniffer.cs:101-112 | a reported frame's dump is either empty or the dump of all its bytes |
| `Sniffing.DumpIsWholeFrame` | Sniffer.cs:104-110 | a non-empty dump reads back to the whole captured frame |
| `Capture.PortsRoundTrip` | Iface.cs:105-114 | the port suffix can be read back to the destination and source ports it was built from |
| `Capture.PortSuffixEmpty` | Iface.cs:105-114 | the port suffix is empty exactly when no port was given |
| `Capture.Clause` | Iface.cs:88-96 | TCP and UDP clauses are `tcp` or `udp` followed by the port suffix; every other tag gives one of `icmp`, `icmp6`, `arp`, `igmp`, without ports, and the three ICMPv6 tags all give `icmp6` |
| `Capture.ExpressionEmpty` | Iface.cs:83-99 | the capture expression is empty exactly when no tag was given |
| `Capture.ExpressionSingle` | Iface.cs:83-99 | one tag gives just its clause |
| `Capture.ExpressionSnoc` | Iface.cs:87-98 | one more tag appends ` or ` and its clause |
| `Capture.TcpDstPortExample` | Iface.cs:89 | `-t --port-destination 80` gives `tcp and dst port 80` |
| `Capture.NdpMldExample` | Iface.cs:92 | `--ndp --mld` gives `icmp6 or icmp6` (clauses are not de-duplicated) |
| `Capture.OtherTagsExample` | Iface.cs:91-94 | `--icmp4 --arp --igmp` gives `icmp or arp or igmp` |
| `Capture.CountsKept` | Iface.cs:54-61 | after any run of arrivals the count is the number of reported frames added, capped at `-n` |
| `Capture.CountBounded` | Iface.cs:54-61 | the count never exceeds `-n` |
| `Capture.CountStops` | Iface.cs:55-56 | once `-n` is reached, later arrivals change nothing |
| `Capture.Iface.constructor` | Iface.cs:16-20 | the sniffer and the capture object share the arguments; no frame counted, no filter set |
| `Capture.Iface.GetPorts` | Iface.cs:105-114 | builds exactly the port suffix of the arguments |
| `Capture.Iface.GetFilter` | Iface.cs:83-99 | builds exactly the clauses of the tags, in order, joined by ` or ` |
| `Capture.Iface.InstallFilter` | Iface.cs:36-38 | the device filter is set to the capture expression exactly when some tag was given, and left as it was otherwise |
| `Capture.Iface.OnPacketArrival` | Iface.cs:54-61 | an arrival once the count is reached changes nothing; otherwise the count grows by one exactly when the frame is reported, whose report is what is printed |

## Left out

- `Capture.CountsKept`, `Capture.ArriveAll`, `Capture.CountBounded`,
  `Capture.CountStops`: a frame of a non-Ethernet capture counts as not
  reported and the run goes on. In the program, the `NotSupportedException`
  thrown by `HandleLinkTypes` (Sniffer.cs:33) escapes `OnPacketArrival`
  (Iface.cs:59) and ends the capture, so the run lemmas describe a run only
  up to the first such frame.
- `Arguments.ParseArg`: .NET's `TryParse` also accepts leading and
  trailing white space and a leading sign (`+80`, `-0`). The model accepts
  only non-empty strings of ASCII digits, so it rejects those inputs.
- Line ends: `Console.WriteLine` and `StringBuilder.AppendLine` write
  `Environment.NewLine`. The model writes `"\n"`, which is
  `Environment.NewLine` on Unix; on Windows the program writes `"\r\n"`,
  which the model does not capture.
- The timestamp (`ConvTimestamp`, `XmlConvert.ToString`, SniffPacket.cs:86-88)
  and IP addresses (`IPAddress.ToString`) are opaque text in the model; how
  .NET formats them is not modelled.
- PacketDotNet's decoding of frames is replaced by the `Network` and
  `Ipv6Payload` datatypes, whose values are the headers found.
  `HandleEth` and `HandleIP` use the IPv6 header and the ICMPv6 message
  without a null check (Sniffer.cs:57, 63, 68). The model therefore assumes
  they are present whenever the type fields say so. A malformed frame that
  would raise a `NullReferenceException` is not modelled.
- `Sniffing.Sniffer.HandleIcmp6` passes `NoTransport` to `Port`. An ICMPv6
  message contains no TCP or UDP header, so `Extract<TcpPacket>()` and
  `Extract<UdpPacket>()` find nothing.
- The dump is of the whole captured frame in every branch.
  `packet.BytesSegment.Bytes` is the underlying array, which is the whole
  frame whichever sub-packet the segment belongs to.
- `Sniff`'s device handling is not modelled: `Dev.Open`, registering the
  handler, `StartCapture`, `StopCapture`, `Close` and the busy wait
  `while (Recv < Args.Number) {}` (Iface.cs:43). Only the filter step
  (`InstallFilter`) and the handler (`OnPacketArrival`) are modelled.
  Concurrent arrivals are not.
- `Iface.ListIfaces` and `Iface.GetIface` are not modelled; they read the
  host's device list. Program.cs is not part of this model.
- Console output becomes the returned `printed` string. `Console.WriteLine`
  in `Info` adds the trailing newline.
- Exceptions become error values: the `ArgumentException`s of `Args` become
  `ArgError` values (their message text is not modelled), and the
  `NotSupportedException` of `HandleLinkTypes` becomes the `CaptureError`
  result.
- Integer widths are bounded types: `ushort` ports are `UShort`
  (0..65535) and the `uint` count is `UInt` (0..4294967295). `Recv` and the
  frame length are `nat`; the `uint` counter never reaches its limit because
  it stops at `Number`.
- The `_ => ""` arm of `GetFilter`'s switch (Iface.cs:95) is not modelled.
  It cannot be reached, because every `Filter` value has its own arm.

## Behaviour kept as the code has it

- `--ndp`, `--mld` and `--icmp6` each add their own `icmp6` clause, and
  repeated tags repeat clauses (`Capture.NdpMldExample`,
  `Arguments.RepeatedFlagsKept`).
- `-n 0` is accepted; with a count of 0 every arrival is ignored
  (`Arguments.ZeroCountAccepted`, `Capture.CountStops`).
- ICMPv6 messages other than MLD and NDP are reported with addresses but
  without a dump (`Sniffing.OtherIcmp6Undumped`).
- Port lines in the report are named `src IP` and `dst IP`
  (`Packets.IpEntries`).
- The short last line of a dump pads its hex column to 49 characters
  (full lines have 48). A frame under 16 bytes is labelled `0010`
  (`Dump.FinalColumn`, `Dump.ShortFrameLabel`).
- The port check runs once, after the whole line, so a port option may
  come before `-t`/`-u` (`Arguments.TransportAfterPortAccepted`).
