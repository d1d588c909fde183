/** The summary the sniffer fills for one captured frame (SniffPacket.cs):
    its fields, the report ToString renders from them, and SetHexData,
    which writes the frame's hex/ASCII dump into the record.

    Timestamps and IP addresses are carried as the text that .NET's
    XmlConvert and IPAddress.ToString produce for them; how that text is
    produced is not part of this model. */
module Packets {
  import opened Wrappers
  import opened Text
  import opened Dump

  /** The fields of a SniffPacket at one moment. */
  datatype Summary = Summary(
    timestamp: string,
    frameLen: nat,
    srcMac: Option<string>,
    dstMac: Option<string>,
    srcIp: Option<string>,
    dstIp: Option<string>,
    srcPort: Option<UShort>,
    dstPort: Option<UShort>,
    hexData: string)

  /** A record as the constructor leaves it: timestamp and frame length set,
      every optional field unset, no dump. */
  function Fresh(timestamp: string, frameLen: nat): (v: Summary)
    ensures v.timestamp == timestamp && v.frameLen == frameLen && v.hexData == ""
    ensures v.srcMac.None? && v.dstMac.None? && v.srcIp.None? && v.dstIp.None?
    ensures v.srcPort.None? && v.dstPort.None?
  {
    Summary(timestamp, frameLen, None, None, None, None, None, None, "")
  }

  // ------------------------------------------------------------ the report

  /** One "name: value" line of the report. */
  datatype Entry = Entry(name: string, value: string)

  function OptEntry(name: string, value: Option<string>): seq<Entry>
  {
    if value.Some? then [Entry(name, value.value)] else []
  }

  function PortText(port: Option<UShort>): Option<string>
  {
    if port.Some? then Some(Decimal(port.value)) else None
  }

  /** The lines of the report, in the fixed order timestamp, source and
      destination MAC, frame length, source and destination IP, source and
      destination port. Unset fields have no line. The port lines are
      named "src IP" and "dst IP", as SniffPacket.cs writes them. */
  function Entries(v: Summary): seq<Entry>
  {
    [Entry("timestamp", v.timestamp)]
    + OptEntry("src MAC", v.srcMac) + OptEntry("dst MAC", v.dstMac)
    + [Entry("frame length", Decimal(v.frameLen) + " bytes")]
    + OptEntry("src IP", v.srcIp) + OptEntry("dst IP", v.dstIp)
    + OptEntry("src IP", PortText(v.srcPort)) + OptEntry("dst IP", PortText(v.dstPort))
  }

  /** One report line as ToString interpolates it: $"{name}: {value}\n". */
  function EntryLine(name: string, value: string): string
  {
    name + ": " + value + "\n"
  }

  /** The text of report lines, one after another. */
  function EntryText(es: seq<Entry>): string
  {
    if es == [] then "" else EntryText(es[..|es| - 1]) + EntryLine(es[|es| - 1].name, es[|es| - 1].value)
  }

  /** The line of an optional field, or nothing when it is unset. */
  function OptLine(name: string, value: Option<string>): string
  {
    if value.Some? then EntryLine(name, value.value) else ""
  }

  /** The report as ToString assembles it, field by field, then a blank
      line and the dump. ReportLines shows it is the text of Entries(v). */
  function Report(v: Summary): string
  {
    EntryLine("timestamp", v.timestamp)
    + OptLine("src MAC", v.srcMac) + OptLine("dst MAC", v.dstMac)
    + EntryLine("frame length", Decimal(v.frameLen) + " bytes")
    + OptLine("src IP", v.srcIp) + OptLine("dst IP", v.dstIp)
    + OptLine("src IP", PortText(v.srcPort)) + OptLine("dst IP", PortText(v.dstPort))
    + "\n" + v.hexData
  }

  lemma EntryTextSnoc(es: seq<Entry>, e: Entry)
    ensures EntryText(es + [e]) == EntryText(es) + EntryLine(e.name, e.value)
  {
    assert (es + [e])[..|es|] == es;
  }

  /** Appending the line of an optional field appends its text, or
      nothing when the field is unset. */
  lemma EntryTextOpt(es: seq<Entry>, name: string, value: Option<string>)
    ensures EntryText(es + OptEntry(name, value)) == EntryText(es) + OptLine(name, value)
  {
    if value.Some? {
      EntryTextSnoc(es, Entry(name, value.value));
    } else {
      assert es + [] == es;
    }
  }

  /** The report is its lines, one "name: value" line per entry of
      Entries(v), then a blank line and the dump. */
  lemma ReportLines(v: Summary)
    ensures Report(v) == EntryText(Entries(v)) + "\n" + v.hexData
  {
    var e := [Entry("timestamp", v.timestamp)];
    var head := EntryLine("timestamp", v.timestamp);
    EntryTextSnoc([], e[0]);
    assert [] + e == e;
    assert EntryText(e) == head;
    EntryTextOpt(e, "src MAC", v.srcMac);
    e, head := e + OptEntry("src MAC", v.srcMac), head + OptLine("src MAC", v.srcMac);
    EntryTextOpt(e, "dst MAC", v.dstMac);
    e, head := e + OptEntry("dst MAC", v.dstMac), head + OptLine("dst MAC", v.dstMac);
    assert EntryText(e) == head;
    var length := Entry("frame length", Decimal(v.frameLen) + " bytes");
    EntryTextSnoc(e, length);
    e, head := e + [length], head + EntryLine(length.name, length.value);
    assert EntryText(e) == head;
    EntryTextOpt(e, "src IP", v.srcIp);
    e, head := e + OptEntry("src IP", v.srcIp), head + OptLine("src IP", v.srcIp);
    EntryTextOpt(e, "dst IP", v.dstIp);
    e, head := e + OptEntry("dst IP", v.dstIp), head + OptLine("dst IP", v.dstIp);
    assert EntryText(e) == head;
    EntryTextOpt(e, "src IP", PortText(v.srcPort));
    e, head := e + OptEntry("src IP", PortText(v.srcPort)), head + OptLine("src IP", PortText(v.srcPort));
    EntryTextOpt(e, "dst IP", PortText(v.dstPort));
    e, head := e + OptEntry("dst IP", PortText(v.dstPort)), head + OptLine("dst IP", PortText(v.dstPort));
    assert EntryText(e) == head;
    assert e == Entries(v);
  }

  function Count(o: Option<string>): nat
  {
    if o.Some? then 1 else 0
  }

  /** Timestamp and frame length always have a line; each optional field
      has exactly one line when it is set and none when it is not. */
  lemma EntryCount(v: Summary)
    ensures |Entries(v)| == 2 + Count(v.srcMac) + Count(v.dstMac) + Count(v.srcIp) + Count(v.dstIp)
                              + Count(PortText(v.srcPort)) + Count(PortText(v.dstPort))
  {
  }

  /** The timestamp line holds exactly the record's timestamp. */
  lemma TimestampEntry(v: Summary, x: string)
    ensures Entry("timestamp", x) in Entries(v) <==> x == v.timestamp
  {
  }

  /** The frame length line holds exactly the record's length in bytes. */
  lemma LengthEntry(v: Summary, x: string)
    ensures Entry("frame length", x) in Entries(v) <==> x == Decimal(v.frameLen) + " bytes"
  {
  }

  /** A MAC line is there exactly when that MAC is set, and holds it. */
  lemma MacEntries(v: Summary, x: string)
    ensures Entry("src MAC", x) in Entries(v) <==> v.srcMac == Some(x)
    ensures Entry("dst MAC", x) in Entries(v) <==> v.dstMac == Some(x)
  {
  }

  /** A "src IP" (resp. "dst IP") line holding x is there exactly when the
      source (resp. destination) IP is x or the source (resp. destination)
      port is written x: a port line cannot be told from an address line
      by its name. */
  lemma IpEntries(v: Summary, x: string)
    ensures Entry("src IP", x) in Entries(v) <==> v.srcIp == Some(x) || PortText(v.srcPort) == Some(x)
    ensures Entry("dst IP", x) in Entries(v) <==> v.dstIp == Some(x) || PortText(v.dstPort) == Some(x)
  {
  }

  /** The dump is the tail of the report, after a blank line. */
  lemma ReportEndsWithDump(v: Summary)
    ensures |Report(v)| > |v.hexData|
    ensures Report(v)[|Report(v)| - |v.hexData|..] == v.hexData
    ensures Report(v)[|Report(v)| - |v.hexData| - 1] == '\n'
  {
    ReportLines(v);
    var head := EntryText(Entries(v)) + "\n";
    assert Report(v) == head + v.hexData;
  }

  /** The loop of SetHexData: byte by byte, the hex and ASCII columns of
      the current line grow, and a line is appended after every sixteenth
      byte and after the last one. The text it builds is the dump. */
  method DumpText(bytes: seq<Byte>) returns (sb: string)
    ensures sb == HexDump(bytes)
  {
    sb := "";
    var text := "";
    var text2 := "";
    var i := 1;
    ghost var done := 0;
    while i <= |bytes|
      invariant 1 <= i <= |bytes| + 1 && done == i - 1
      invariant Progress(sb, text, text2) == AfterBytes(bytes, done)
    {
      AfterBytesStep(bytes, done, i);
      text := text + HexByte(bytes[i - 1]) + " ";
      if 33 <= bytes[i - 1] <= 126 {
        text2 := text2 + [bytes[i - 1] as char];
      } else {
        text2 := text2 + ".";
      }
      if i % 16 == 0 {
        var text3 := Label(FullLabel(i));
        sb := sb + Line(text3, text, text2);
        text := "";
        text2 := "";
      } else if i == |bytes| {
        var text3 := Label(FinalLabel(i));
        sb := sb + Line(text3, PadRight(text, 49, ' '), text2);
      }
      done, i := i, i + 1;
    }
    AllBytesDumped(bytes);
  }

  /** The record the sniffer fills for one frame. */
  class SniffPacket {
    var timestamp: string
    var frameLen: nat
    var srcMac: Option<string>
    var dstMac: Option<string>
    var srcIp: Option<string>
    var dstIp: Option<string>
    var srcPort: Option<UShort>
    var dstPort: Option<UShort>
    var hexData: string

    function View(): Summary
      reads this
    {
      Summary(timestamp, frameLen, srcMac, dstMac, srcIp, dstIp, srcPort, dstPort, hexData)
    }

    /** A record for a frame of frameLen bytes captured at timestamp. */
    constructor (timestamp: string, frameLen: nat)
      ensures View() == Fresh(timestamp, frameLen)
    {
      this.timestamp := timestamp;
      this.frameLen := frameLen;
      srcMac, dstMac, srcIp, dstIp := None, None, None, None;
      srcPort, dstPort := None, None;
      hexData := "";
    }

    /** The report, built field by field. */
    method ToString() returns (res: string)
      ensures res == Report(View())
    {
      var v := View();
      ghost var head := EntryLine("timestamp", v.timestamp);
      res := EntryLine("timestamp", v.timestamp);
      if v.srcMac.Some? {
        res := res + EntryLine("src MAC", v.srcMac.value);
      }
      head := head + OptLine("src MAC", v.srcMac);
      assert res == head;
      if v.dstMac.Some? {
        res := res + EntryLine("dst MAC", v.dstMac.value);
      }
      head := head + OptLine("dst MAC", v.dstMac);
      assert res == head;
      res := res + EntryLine("frame length", Decimal(v.frameLen) + " bytes");
      head := head + EntryLine("frame length", Decimal(v.frameLen) + " bytes");
      if v.srcIp.Some? {
        res := res + EntryLine("src IP", v.srcIp.value);
      }
      head := head + OptLine("src IP", v.srcIp);
      assert res == head;
      if v.dstIp.Some? {
        res := res + EntryLine("dst IP", v.dstIp.value);
      }
      head := head + OptLine("dst IP", v.dstIp);
      assert res == head;
      if v.srcPort.Some? {
        res := res + EntryLine("src IP", Decimal(v.srcPort.value));
      }
      head := head + OptLine("src IP", PortText(v.srcPort));
      assert res == head;
      if v.dstPort.Some? {
        res := res + EntryLine("dst IP", Decimal(v.dstPort.value));
      }
      head := head + OptLine("dst IP", PortText(v.dstPort));
      assert res == head;
      res := res + "\n" + v.hexData;
    }

    /** Writes the dump of the frame's bytes into the record and changes
        nothing else. */
    method SetHexData(bytes: seq<Byte>)
      modifies this
      ensures View() == old(View()).(hexData := HexDump(bytes))
    {
      hexData := DumpText(bytes);
    }
  }
}
