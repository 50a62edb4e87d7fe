/**
 Generation and serialization of NetFlow v9 packets: the export structures, their sizes and
 padding, and the bytes they become. The values drawn for flow fields are arbitrary.
 */
module NetFlowExport {
  import opened Wrappers
  import opened Bytes
  import opened Codec
  import opened NetFlowGrammar
  import opened FlowRecords

  datatype Profile = Generic | Minimal | Extended

  const FLOW_TEMPLATE_ID: U16 := 256

  datatype Template = Template(templateID: U16, fieldCount: U16, fields: seq<Field>)

  datatype TemplateFlowSet = TemplateFlowSet(flowSetID: U16, length: U16, templates: seq<Template>, padding: nat)

  datatype DataFlowSet = DataFlowSet(flowSetID: U16, length: U16, items: seq<Flow>, padding: nat)

  datatype Netflow = Netflow(header: Header, templateFlowSets: seq<TemplateFlowSet>, dataFlowSets: seq<DataFlowSet>)

  /** The field specifiers a profile puts in its template. */
  function TemplateFields(p: Profile): seq<Field> {
    match p
    case Generic =>
      [Field(1, 4), Field(23, 4), Field(2, 4), Field(24, 4), Field(8, 4), Field(12, 4),
       Field(27, 16), Field(28, 16), Field(29, 1), Field(30, 1), Field(7, 2), Field(11, 2),
       Field(4, 1), Field(6, 1), Field(22, 4), Field(21, 4), Field(38, 1), Field(39, 1)]
    case Minimal =>
      [Field(1, 4), Field(2, 4), Field(8, 4), Field(12, 4), Field(7, 2), Field(11, 2), Field(4, 1)]
    case Extended =>
      [Field(1, 4), Field(2, 4), Field(8, 4), Field(12, 4), Field(7, 2), Field(11, 2), Field(4, 1),
       Field(56, 6), Field(57, 6), Field(58, 2), Field(59, 2), Field(52, 1), Field(53, 1),
       Field(22, 4), Field(21, 4)]
  }

  /** The byte widths of the fields of a profile's flow record struct, in declaration order. */
  function StructLayout(p: Profile): seq<nat> {
    match p
    case Generic => [4, 4, 4, 4, 4, 4, 16, 16, 1, 1, 2, 2, 1, 1, 4, 4, 1, 1]
    case Minimal => [4, 4, 4, 4, 2, 2, 1]
    case Extended => [4, 4, 4, 4, 2, 2, 1, 6, 6, 2, 2, 1, 1, 4, 4]
  }

  // ----- Serialization -----

  function TemplateBytes(t: Template): seq<Byte> {
    PutU16(t.templateID) + PutU16(t.fieldCount) + EncodeFields(t.fields)
  }

  function TemplateFlowSetBytes(t: TemplateFlowSet): seq<Byte> {
    PutU16(t.flowSetID) + PutU16(t.length) + (Encode(TemplateBytes, t.templates) + Zeros(t.padding))
  }

  function DataFlowSetBytes(d: DataFlowSet): seq<Byte> {
    PutU16(d.flowSetID) + PutU16(d.length) + (Encode(FlowBytes, d.items) + Zeros(d.padding))
  }

  function NetflowBytes(n: Netflow): seq<Byte> {
    EncodeHeader(n.header) + Encode(TemplateFlowSetBytes, n.templateFlowSets)
    + Encode(DataFlowSetBytes, n.dataFlowSets)
  }

  method WriteTemplate(buf: seq<Byte>, template: Template) returns (out: seq<Byte>)
    ensures out == buf + TemplateBytes(template)
  {
    out := buf + PutU16(template.templateID);
    out := out + PutU16(template.fieldCount);
    ghost var start := out;
    for i := 0 to |template.fields|
      invariant out == start + Encode(EncodeField, template.fields[..i])
    {
      EncodeNext(EncodeField, template.fields, i);
      out := out + PutU16(template.fields[i].kind);
      out := out + PutU16(template.fields[i].length);
    }
    assert template.fields[..|template.fields|] == template.fields;
  }

  method WriteTemplateFlowSet(buf: seq<Byte>, tFlow: TemplateFlowSet) returns (out: seq<Byte>)
    ensures out == buf + TemplateFlowSetBytes(tFlow)
  {
    hide TemplateBytes;
    out := buf + PutU16(tFlow.flowSetID);
    out := out + PutU16(tFlow.length);
    ghost var start := out;
    for i := 0 to |tFlow.templates|
      invariant out == start + Encode(TemplateBytes, tFlow.templates[..i])
    {
      EncodeNext(TemplateBytes, tFlow.templates, i);
      out := WriteTemplate(out, tFlow.templates[i]);
    }
    assert tFlow.templates[..|tFlow.templates|] == tFlow.templates;
    if tFlow.padding > 0 {
      out := out + Zeros(tFlow.padding);
    }
  }

  method WriteDataFlowSet(buf: seq<Byte>, dFlow: DataFlowSet) returns (out: seq<Byte>)
    ensures out == buf + DataFlowSetBytes(dFlow)
  {
    hide FlowBytes;
    out := buf + PutU16(dFlow.flowSetID);
    out := out + PutU16(dFlow.length);
    ghost var start := out;
    for i := 0 to |dFlow.items|
      invariant out == start + Encode(FlowBytes, dFlow.items[..i])
    {
      EncodeNext(FlowBytes, dFlow.items, i);
      out := out + FlowBytes(dFlow.items[i]);
    }
    assert dFlow.items[..|dFlow.items|] == dFlow.items;
    if dFlow.padding != 0 {
      out := out + Zeros(dFlow.padding);
    }
  }

  /** Writes header, then template sets, then data sets. */
  method ToBytes(n: Netflow) returns (buf: seq<Byte>)
    ensures buf == NetflowBytes(n)
  {
    hide TemplateFlowSetBytes, DataFlowSetBytes, EncodeHeader;
    buf := EncodeHeader(n.header);
    ghost var start := buf;
    for i := 0 to |n.templateFlowSets|
      invariant buf == start + Encode(TemplateFlowSetBytes, n.templateFlowSets[..i])
    {
      EncodeNext(TemplateFlowSetBytes, n.templateFlowSets, i);
      buf := WriteTemplateFlowSet(buf, n.templateFlowSets[i]);
    }
    assert n.templateFlowSets[..|n.templateFlowSets|] == n.templateFlowSets;
    start := buf;
    for i := 0 to |n.dataFlowSets|
      invariant buf == start + Encode(DataFlowSetBytes, n.dataFlowSets[..i])
    {
      EncodeNext(DataFlowSetBytes, n.dataFlowSets, i);
      buf := WriteDataFlowSet(buf, n.dataFlowSets[i]);
    }
    assert n.dataFlowSets[..|n.dataFlowSets|] == n.dataFlowSets;
  }

  // ----- Generation -----

  /** The size of a data set without padding. */
  function RawSize(items: seq<Flow>): nat {
    4 + |Encode(FlowBytes, items)|
  }

  /** Numbers the packets of one generator run. */
  class Session {
    const startTime: int
    var flowSequence: U32

    constructor (now: int)
      ensures startTime == now && flowSequence == 0
    {
      startTime := now;
      flowSequence := 0;
    }

    method NextSeq() returns (seqNo: U32)
      modifies this
      ensures flowSequence == (old(flowSequence) + 1) % 0x1_0000_0000 && seqNo == flowSequence
    {
      flowSequence := (flowSequence + 1) % 0x1_0000_0000;
      seqNo := flowSequence;
    }
  }

  /** Integer division as the program's: toward zero. */
  function Quotient(n: int, d: nat): int
    requires d > 0
  {
    if n >= 0 then n / d else -(-n / d)
  }

  /** Milliseconds since the session started, and 1000 more; times are in nanoseconds. */
  function SysUptime(now: int, started: int): U32 {
    (Quotient(now - started, 1_000_000) + 1000) % 0x1_0000_0000
  }

  function UnixSec(now: int): U32 {
    Quotient(now, 1_000_000_000) % 0x1_0000_0000
  }

  /** The uptime counts whole milliseconds. */
  lemma UptimeCounts(now: int, started: int, milliseconds: nat)
    requires 1_000_000 * milliseconds <= now - started < 1_000_000 * (milliseconds + 1)
    ensures SysUptime(now, started) == (milliseconds + 1000) % 0x1_0000_0000
  {
  }

  /** Whole seconds are counted. */
  lemma SecondsCount(now: int, seconds: nat)
    requires 1_000_000_000 * seconds <= now < 1_000_000_000 * (seconds + 1)
    ensures UnixSec(now) == seconds % 0x1_0000_0000
  {
  }

  method GenerateHeader(flowSetCount: nat, sourceID: int, session: Session, now: int) returns (h: Header)
    modifies session
    ensures session.flowSequence == (old(session.flowSequence) + 1) % 0x1_0000_0000
    ensures h == Header(9, flowSetCount % 0x1_0000, SysUptime(now, session.startTime), UnixSec(now),
                        session.flowSequence, sourceID % 0x1_0000_0000)
  {
    var seqNo := session.NextSeq();
    h := Header(9, flowSetCount % 0x1_0000, SysUptime(now, session.startTime), UnixSec(now), seqNo,
                sourceID % 0x1_0000_0000);
  }

  method RawTemplateSize(templates: seq<Template>) returns (size: nat)
    ensures size == 4 + |Encode(TemplateBytes, templates)|
  {
    size := 4;
    for i := 0 to |templates|
      invariant size == 4 + |Encode(TemplateBytes, templates[..i])|
    {
      EncodeNext(TemplateBytes, templates, i);
      size := size + 4;
      FieldsSize(templates[i].fields);
      for f := 0 to |templates[i].fields|
        invariant size == 8 + |Encode(TemplateBytes, templates[..i])| + 4 * f
      {
        size := size + 4;
      }
    }
    assert templates[..|templates|] == templates;
  }

  /** The size of a data set up to the next 32-bit boundary, and the padding that takes it there. */
  method DataSize(items: seq<Flow>) returns (size: nat, padding: nat)
    ensures padding == PaddingFor(RawSize(items)) && size == RawSize(items) + padding
  {
    hide FlowBytes;
    size, padding := 4, 0;
    for i := 0 to |items|
      invariant size == 4 + |Encode(FlowBytes, items[..i])|
    {
      EncodeNext(FlowBytes, items, i);
      size := size + |FlowBytes(items[i])|;
    }
    assert items[..|items|] == items;
    var remainder := size % 4;
    if remainder > 0 {
      padding := 4 - remainder;
    }
    size := size + padding;
  }

  method GenerateTemplateFlowSet(p: Profile) returns (t: TemplateFlowSet)
    ensures t.flowSetID == 0
    ensures t.templates == [Template(FLOW_TEMPLATE_ID, |TemplateFields(p)|, TemplateFields(p))]
    ensures t.padding == 0 && t.length == 8 + 4 * |TemplateFields(p)|
  {
    var fields := TemplateFields(p);
    var templates := [Template(FLOW_TEMPLATE_ID, |fields| % 0x1_0000, fields)];
    var rawSize := RawTemplateSize(templates);
    FieldsSize(fields);
    assert Encode(TemplateBytes, templates) == TemplateBytes(templates[0]) + Encode(TemplateBytes, []);
    var padding := PaddingFor(rawSize);
    t := TemplateFlowSet(0, (rawSize + padding) % 0x1_0000, templates, padding);
  }

  /** A draw failed, or the padded set of what was drawn would not fit a 16-bit length. */
  ghost predicate Unfit(draws: seq<Option<Flow>>) {
    None in draws || exists items :: Drawn(draws, items) && RawSize(items) + PaddingFor(RawSize(items)) > MAX_U16
  }

  /**
   Draws the flows one by one; fails when a draw fails or the padded set would not fit its 16-bit
   length field.
   */
  method GenerateDataFlowSet(flowCount: nat, draws: seq<Option<Flow>>) returns (r: Result<DataFlowSet>)
    requires |draws| == flowCount
    ensures r.Ok? ==>
              var d := r.value;
              && d.flowSetID == FLOW_TEMPLATE_ID && Drawn(draws, d.items)
              && d.padding == PaddingFor(RawSize(d.items)) && d.length == RawSize(d.items) + d.padding
    ensures r.Err? <==> Unfit(draws)
  {
    var items: seq<Flow> := [];
    for i := 0 to flowCount
      invariant Drawn(draws[..i], items)
    {
      if draws[i].None? {
        return Err("generate flow");
      }
      items := items + [draws[i].value];
    }
    assert draws[..flowCount] == draws;
    assert None !in draws;
    assert forall others :: Drawn(draws, others) ==> others == items;
    var size, padding := DataSize(items);
    if size > 0xFFFF {
      return Err("DataFlowSet size exceeds uint16 max (65535)");
    }
    return Ok(DataFlowSet(FLOW_TEMPLATE_ID, size, items, padding));
  }

  /** A packet with the template and the flows; the header counts the template too. */
  method GenerateNetflow(flowCount: nat, sourceID: int, draws: seq<Option<Flow>>, session: Session, now: int,
                         p: Profile)
    returns (r: Result<Netflow>)
    requires |draws| == flowCount
    modifies session
    ensures r.Err? <==> Unfit(draws)
    ensures r.Err? ==> session.flowSequence == old(session.flowSequence)
    ensures r.Ok? ==>
              && r.value.header == Header(9, (flowCount + 1) % 0x1_0000, SysUptime(now, session.startTime),
                                          UnixSec(now), session.flowSequence, sourceID % 0x1_0000_0000)
              && session.flowSequence == (old(session.flowSequence) + 1) % 0x1_0000_0000
              && |r.value.templateFlowSets| == |r.value.dataFlowSets| == 1
              && GeneratedTemplate(p, r.value.templateFlowSets[0])
              && GeneratedData(r.value.dataFlowSets[0]) && Drawn(draws, r.value.dataFlowSets[0].items)
  {
    var templateFlow := GenerateTemplateFlowSet(p);
    var dataFlow := GenerateDataFlowSet(flowCount, draws);
    if dataFlow.Err? {
      return Err("generate data flow set");
    }
    var header := GenerateHeader(flowCount + 1, sourceID, session, now);
    return Ok(Netflow(header, [templateFlow], [dataFlow.value]));
  }

  method GenerateDataNetflow(flowCount: nat, sourceID: int, draws: seq<Option<Flow>>, session: Session, now: int)
    returns (r: Result<Netflow>)
    requires |draws| == flowCount
    modifies session
    ensures r.Err? <==> Unfit(draws)
    ensures r.Err? ==> session.flowSequence == old(session.flowSequence)
    ensures r.Ok? ==>
              && r.value.header == Header(9, flowCount % 0x1_0000, SysUptime(now, session.startTime), UnixSec(now),
                                          session.flowSequence, sourceID % 0x1_0000_0000)
              && session.flowSequence == (old(session.flowSequence) + 1) % 0x1_0000_0000
              && r.value.templateFlowSets == [] && |r.value.dataFlowSets| == 1
              && GeneratedData(r.value.dataFlowSets[0]) && Drawn(draws, r.value.dataFlowSets[0].items)
  {
    var dataFlow := GenerateDataFlowSet(flowCount, draws);
    if dataFlow.Err? {
      return Err("generate data flow set");
    }
    var header := GenerateHeader(flowCount, sourceID, session, now);
    return Ok(Netflow(header, [], [dataFlow.value]));
  }

  method GenerateTemplateNetflow(sourceID: int, session: Session, now: int, p: Profile) returns (n: Netflow)
    modifies session
    ensures n.header == Header(9, 1, SysUptime(now, session.startTime), UnixSec(now), session.flowSequence,
                               sourceID % 0x1_0000_0000)
    ensures session.flowSequence == (old(session.flowSequence) + 1) % 0x1_0000_0000
    ensures |n.templateFlowSets| == 1 && GeneratedTemplate(p, n.templateFlowSets[0]) && n.dataFlowSets == []
  {
    var templateFlow := GenerateTemplateFlowSet(p);
    var header := GenerateHeader(1, sourceID, session, now);
    return Netflow(header, [templateFlow], []);
  }

  /** A template set as the generator makes it. */
  ghost predicate GeneratedTemplate(p: Profile, t: TemplateFlowSet) {
    t == TemplateFlowSet(0, 8 + 4 * |TemplateFields(p)|,
                         [Template(FLOW_TEMPLATE_ID, |TemplateFields(p)|, TemplateFields(p))], 0)
  }

  /** A data set as the generator makes it: its own length, padded to a 32-bit boundary. */
  ghost predicate GeneratedData(d: DataFlowSet) {
    && d.flowSetID == FLOW_TEMPLATE_ID && d.padding == PaddingFor(RawSize(d.items))
    && d.length == RawSize(d.items) + d.padding
  }
}
