/**
 Generation and serialization of IPFIX messages, and the sequence counter that numbers their Data
 Records (section 3.1 of RFC 7011).
 */
module IpfixExport {
  import opened Wrappers
  import opened Bytes
  import opened Codec
  import opened FlowRecords
  import opened Sums

  datatype Field = Field(kind: U16, length: U16)

  datatype Template = Template(templateID: U16, fieldCount: U16, fields: seq<Field>)

  datatype TemplateFlowSet = TemplateFlowSet(flowSetID: U16, length: U16, templates: seq<Template>, padding: nat)

  datatype OptionsTemplate = OptionsTemplate(templateID: U16, fieldCount: U16, scopeFieldCount: U16, fields: seq<Field>)

  datatype OptionsTemplateFlowSet =
    OptionsTemplateFlowSet(flowSetID: U16, length: U16, template: OptionsTemplate, padding: nat)

  datatype DataFlowSet = DataFlowSet(flowSetID: U16, length: U16, items: seq<Flow>, padding: nat)

  /** An options data record holds its observation domain. */
  datatype OptionsDataFlowSet = OptionsDataFlowSet(flowSetID: U16, length: U16, records: seq<U32>, padding: nat)

  datatype Header = Header(version: U16, length: U16, exportTime: U32, sequenceNumber: U32, observationDomainId: U32)

  datatype IPFIX = IPFIX(header: Header,
                         templateFlowSets: seq<TemplateFlowSet>,
                         optionsTemplateFlowSets: seq<OptionsTemplateFlowSet>,
                         dataFlowSets: seq<DataFlowSet>,
                         optionsDataFlowSets: seq<OptionsDataFlowSet>)

  const TEMPLATE_FIELDS: seq<Field> :=
    [Field(1, 4), Field(23, 4), Field(2, 4), Field(24, 4), Field(8, 4), Field(12, 4),
     Field(27, 16), Field(28, 16), Field(29, 1), Field(30, 1), Field(7, 2), Field(11, 2),
     Field(4, 1), Field(6, 1), Field(152, 8), Field(153, 8), Field(61, 1), Field(5, 1), Field(136, 1)]

  /** The byte widths of the flow record struct's fields, in declaration order. */
  const STRUCT_LAYOUT: seq<nat> := [4, 4, 4, 4, 4, 4, 16, 16, 1, 1, 2, 2, 1, 1, 8, 8, 1, 1, 1]

  const RECORD_SIZE := 83

  const OBSERVATION_DOMAIN_ID: U16 := 149

  // ----- Layout -----

  function FieldBytes(f: Field): seq<Byte> {
    PutU16(f.kind) + PutU16(f.length)
  }

  function TemplateBytes(t: Template): seq<Byte> {
    PutU16(t.templateID) + PutU16(t.fieldCount) + Encode(FieldBytes, t.fields)
  }

  function TemplateFlowSetBytes(t: TemplateFlowSet): seq<Byte> {
    PutU16(t.flowSetID) + PutU16(t.length) + (Encode(TemplateBytes, t.templates) + Zeros(t.padding))
  }

  function OptionsTemplateBytes(o: OptionsTemplate): seq<Byte> {
    PutU16(o.templateID) + PutU16(o.fieldCount) + PutU16(o.scopeFieldCount) + Encode(FieldBytes, o.fields)
  }

  function OptionsTemplateFlowSetBytes(o: OptionsTemplateFlowSet): seq<Byte> {
    PutU16(o.flowSetID) + PutU16(o.length) + (OptionsTemplateBytes(o.template) + Zeros(o.padding))
  }

  function DataFlowSetBytes(d: DataFlowSet): seq<Byte> {
    PutU16(d.flowSetID) + PutU16(d.length) + (Encode(FlowBytes, d.items) + Zeros(d.padding))
  }

  function DomainBytes(domain: U32): seq<Byte> {
    PutU32(domain)
  }

  function OptionsDataFlowSetBytes(o: OptionsDataFlowSet): seq<Byte> {
    PutU16(o.flowSetID) + PutU16(o.length) + (Encode(DomainBytes, o.records) + Zeros(o.padding))
  }

  function SetsBytes(f: IPFIX): seq<Byte> {
    Encode(TemplateFlowSetBytes, f.templateFlowSets)
    + Encode(OptionsTemplateFlowSetBytes, f.optionsTemplateFlowSets)
    + Encode(DataFlowSetBytes, f.dataFlowSets)
    + Encode(OptionsDataFlowSetBytes, f.optionsDataFlowSets)
  }

  function HeaderBytes(h: Header): (b: seq<Byte>)
    ensures |b| == 16
  {
    PutU16(h.version) + (PutU16(h.length)
    + (PutU32(h.exportTime) + (PutU32(h.sequenceNumber) + PutU32(h.observationDomainId))))
  }

  /** The message as sent: its header carries the length of the whole. */
  function MessageBytes(f: IPFIX): seq<Byte>
    requires 16 + |SetsBytes(f)| <= MAX_U16
  {
    HeaderBytes(f.header.(length := 16 + |SetsBytes(f)|)) + SetsBytes(f)
  }

  // ----- Serialization -----

  method WriteFields(buf: seq<Byte>, fields: seq<Field>) returns (out: seq<Byte>)
    ensures out == buf + Encode(FieldBytes, fields)
  {
    out := buf;
    for i := 0 to |fields|
      invariant out == buf + Encode(FieldBytes, fields[..i])
    {
      EncodeNext(FieldBytes, fields, i);
      out := out + PutU16(fields[i].kind);
      out := out + PutU16(fields[i].length);
    }
    assert fields[..|fields|] == fields;
  }

  method WriteTemplateFlowSet(buf: seq<Byte>, tFlow: TemplateFlowSet) returns (out: seq<Byte>)
    ensures out == buf + TemplateFlowSetBytes(tFlow)
  {
    hide PutU16, FieldBytes;
    out := buf + PutU16(tFlow.flowSetID);
    out := out + PutU16(tFlow.length);
    ghost var start := out;
    for i := 0 to |tFlow.templates|
      invariant out == start + Encode(TemplateBytes, tFlow.templates[..i])
    {
      EncodeNext(TemplateBytes, tFlow.templates, i);
      var template := tFlow.templates[i];
      out := out + PutU16(template.templateID);
      out := out + PutU16(template.fieldCount);
      out := WriteFields(out, template.fields);
    }
    assert tFlow.templates[..|tFlow.templates|] == tFlow.templates;
    if tFlow.padding > 0 {
      out := out + Zeros(tFlow.padding);
    }
  }

  method WriteOptionsTemplateFlowSet(buf: seq<Byte>, oFlow: OptionsTemplateFlowSet) returns (out: seq<Byte>)
    ensures out == buf + OptionsTemplateFlowSetBytes(oFlow)
  {
    hide PutU16, FieldBytes;
    out := buf + PutU16(oFlow.flowSetID);
    out := out + PutU16(oFlow.length);
    var t := oFlow.template;
    out := out + PutU16(t.templateID);
    out := out + PutU16(t.fieldCount);
    out := out + PutU16(t.scopeFieldCount);
    out := WriteFields(out, t.fields);
    if oFlow.padding > 0 {
      out := out + Zeros(oFlow.padding);
    }
  }

  method WriteDataFlowSet(buf: seq<Byte>, dFlow: DataFlowSet) returns (out: seq<Byte>)
    ensures out == buf + DataFlowSetBytes(dFlow)
  {
    hide FlowBytes;
    out := buf + PutU16(dFlow.flowSetID);
    out := out + PutU16(dFlow.length);
    ghost var start := out;
    for i := 0 to |dFlow.items|
      invariant out == start + Encode(FlowBytes, dFlow.items[..i])
    {
      EncodeNext(FlowBytes, dFlow.items, i);
      out := out + FlowBytes(dFlow.items[i]);
    }
    assert dFlow.items[..|dFlow.items|] == dFlow.items;
    if dFlow.padding > 0 {
      out := out + Zeros(dFlow.padding);
    }
  }

  method WriteOptionsDataFlowSet(buf: seq<Byte>, oData: OptionsDataFlowSet) returns (out: seq<Byte>)
    ensures out == buf + OptionsDataFlowSetBytes(oData)
  {
    hide DomainBytes;
    out := buf + PutU16(oData.flowSetID);
    out := out + PutU16(oData.length);
    ghost var start := out;
    for i := 0 to |oData.records|
      invariant out == start + Encode(DomainBytes, oData.records[..i])
    {
      EncodeNext(DomainBytes, oData.records, i);
      out := out + DomainBytes(oData.records[i]);
    }
    assert oData.records[..|oData.records|] == oData.records;
    if oData.padding > 0 {
      out := out + Zeros(oData.padding);
    }
  }

  method WriteTemplateFlowSets(buf: seq<Byte>, sets: seq<TemplateFlowSet>) returns (out: seq<Byte>)
    ensures out == buf + Encode(TemplateFlowSetBytes, sets)
  {
    hide TemplateFlowSetBytes;
    out := buf;
    for i := 0 to |sets|
      invariant out == buf + Encode(TemplateFlowSetBytes, sets[..i])
    {
      EncodeNext(TemplateFlowSetBytes, sets, i);
      out := WriteTemplateFlowSet(out, sets[i]);
    }
    assert sets[..|sets|] == sets;
  }

  method WriteOptionsTemplateFlowSets(buf: seq<Byte>, sets: seq<OptionsTemplateFlowSet>) returns (out: seq<Byte>)
    ensures out == buf + Encode(OptionsTemplateFlowSetBytes, sets)
  {
    hide OptionsTemplateFlowSetBytes;
    out := buf;
    for i := 0 to |sets|
      invariant out == buf + Encode(OptionsTemplateFlowSetBytes, sets[..i])
    {
      EncodeNext(OptionsTemplateFlowSetBytes, sets, i);
      out := WriteOptionsTemplateFlowSet(out, sets[i]);
    }
    assert sets[..|sets|] == sets;
  }

  method WriteDataFlowSets(buf: seq<Byte>, sets: seq<DataFlowSet>) returns (out: seq<Byte>)
    ensures out == buf + Encode(DataFlowSetBytes, sets)
  {
    hide DataFlowSetBytes;
    out := buf;
    for i := 0 to |sets|
      invariant out == buf + Encode(DataFlowSetBytes, sets[..i])
    {
      EncodeNext(DataFlowSetBytes, sets, i);
      out := WriteDataFlowSet(out, sets[i]);
    }
    assert sets[..|sets|] == sets;
  }

  method WriteOptionsDataFlowSets(buf: seq<Byte>, sets: seq<OptionsDataFlowSet>) returns (out: seq<Byte>)
    ensures out == buf + Encode(OptionsDataFlowSetBytes, sets)
  {
    hide OptionsDataFlowSetBytes;
    out := buf;
    for i := 0 to |sets|
      invariant out == buf + Encode(OptionsDataFlowSetBytes, sets[..i])
    {
      EncodeNext(OptionsDataFlowSetBytes, sets, i);
      out := WriteOptionsDataFlowSet(out, sets[i]);
    }
    assert sets[..|sets|] == sets;
  }

  /** Writes the sets, then a header with their length before them; fails past 65535 bytes. */
  method ToBytes(f: IPFIX) returns (r: Result<seq<Byte>>)
    ensures r.Ok? <==> 16 + |SetsBytes(f)| <= MAX_U16
    ensures r.Ok? ==> r.value == MessageBytes(f)
  {
    hide TemplateFlowSetBytes, OptionsTemplateFlowSetBytes, DataFlowSetBytes, OptionsDataFlowSetBytes;
    hide HeaderBytes, Encode;
    var setsBuf := WriteTemplateFlowSets([], f.templateFlowSets);
    setsBuf := WriteOptionsTemplateFlowSets(setsBuf, f.optionsTemplateFlowSets);
    setsBuf := WriteDataFlowSets(setsBuf, f.dataFlowSets);
    setsBuf := WriteOptionsDataFlowSets(setsBuf, f.optionsDataFlowSets);
    assert setsBuf == SetsBytes(f);
    var totalLength := 16 + |setsBuf|;
    if totalLength > 65535 {
      return Err("IPFIX message size exceeds maximum 65535 bytes");
    }
    var h := f.header.(length := totalLength);
    return Ok(HeaderBytes(h) + setsBuf);
  }

  // ----- Sizes and counts -----

  /** Every set's length field is the size of the bytes it becomes. */
  ghost predicate SizedRight(f: IPFIX) {
    && (forall t :: t in f.templateFlowSets ==> |TemplateFlowSetBytes(t)| == t.length)
    && (forall o :: o in f.optionsTemplateFlowSets ==> |OptionsTemplateFlowSetBytes(o)| == o.length)
    && (forall d :: d in f.dataFlowSets ==> |DataFlowSetBytes(d)| == d.length)
    && (forall o :: o in f.optionsDataFlowSets ==> |OptionsDataFlowSetBytes(o)| == o.length)
  }

  function TemplateSetLength(t: TemplateFlowSet): nat {
    t.length
  }

  function OptionsTemplateSetLength(o: OptionsTemplateFlowSet): nat {
    o.length
  }

  function DataSetLength(d: DataFlowSet): nat {
    d.length
  }

  function OptionsDataSetLength(o: OptionsDataFlowSet): nat {
    o.length
  }

  /** The length fields of all sets together. */
  function SetLengths(f: IPFIX): nat {
    Sum(Mapped(TemplateSetLength, f.templateFlowSets))
    + Sum(Mapped(OptionsTemplateSetLength, f.optionsTemplateFlowSets))
    + Sum(Mapped(DataSetLength, f.dataFlowSets)) + Sum(Mapped(OptionsDataSetLength, f.optionsDataFlowSets))
  }

  lemma LengthNext<S>(length: S -> nat, sets: seq<S>, i: nat)
    requires i < |sets|
    ensures Sum(Mapped(length, sets[..i + 1])) == Sum(Mapped(length, sets[..i])) + length(sets[i])
  {
    assert Mapped(length, sets[..i + 1])[..i] == Mapped(length, sets[..i]);
  }

  /** The header and the length fields of the sets, before anything is serialized. */
  method EstimatedSize(f: IPFIX) returns (size: nat)
    ensures size == 16 + SetLengths(f)
  {
    hide Sum, Mapped;
    size := 16;
    ghost var start := size;
    NoLengths(f);
    for i := 0 to |f.templateFlowSets|
      invariant size == start + Sum(Mapped(TemplateSetLength, f.templateFlowSets[..i]))
    {
      LengthNext(TemplateSetLength, f.templateFlowSets, i);
      size := size + f.templateFlowSets[i].length;
    }
    assert f.templateFlowSets[..|f.templateFlowSets|] == f.templateFlowSets;
    start := size;
    for i := 0 to |f.optionsTemplateFlowSets|
      invariant size == start + Sum(Mapped(OptionsTemplateSetLength, f.optionsTemplateFlowSets[..i]))
    {
      LengthNext(OptionsTemplateSetLength, f.optionsTemplateFlowSets, i);
      size := size + f.optionsTemplateFlowSets[i].length;
    }
    assert f.optionsTemplateFlowSets[..|f.optionsTemplateFlowSets|] == f.optionsTemplateFlowSets;
    start := size;
    for i := 0 to |f.dataFlowSets|
      invariant size == start + Sum(Mapped(DataSetLength, f.dataFlowSets[..i]))
    {
      LengthNext(DataSetLength, f.dataFlowSets, i);
      size := size + f.dataFlowSets[i].length;
    }
    assert f.dataFlowSets[..|f.dataFlowSets|] == f.dataFlowSets;
    start := size;
    for i := 0 to |f.optionsDataFlowSets|
      invariant size == start + Sum(Mapped(OptionsDataSetLength, f.optionsDataFlowSets[..i]))
    {
      LengthNext(OptionsDataSetLength, f.optionsDataFlowSets, i);
      size := size + f.optionsDataFlowSets[i].length;
    }
    assert f.optionsDataFlowSets[..|f.optionsDataFlowSets|] == f.optionsDataFlowSets;
  }

  lemma NoLengths(f: IPFIX)
    ensures Sum(Mapped(TemplateSetLength, f.templateFlowSets[..0])) == 0
    ensures Sum(Mapped(OptionsTemplateSetLength, f.optionsTemplateFlowSets[..0])) == 0
    ensures Sum(Mapped(DataSetLength, f.dataFlowSets[..0])) == 0
    ensures Sum(Mapped(OptionsDataSetLength, f.optionsDataFlowSets[..0])) == 0
  {
  }

  /** Where every length field is right, the estimate is the size of the message. */
  lemma LengthsAreSizes(f: IPFIX)
    requires SizedRight(f)
    ensures SetLengths(f) == |SetsBytes(f)|
  {
    hide TemplateFlowSetBytes, OptionsTemplateFlowSetBytes, DataFlowSetBytes, OptionsDataFlowSetBytes;
    hide Sum, Mapped, Encode;
    EncodeLength(TemplateFlowSetBytes, TemplateSetLength, f.templateFlowSets);
    EncodeLength(OptionsTemplateFlowSetBytes, OptionsTemplateSetLength, f.optionsTemplateFlowSets);
    EncodeLength(DataFlowSetBytes, DataSetLength, f.dataFlowSets);
    EncodeLength(OptionsDataFlowSetBytes, OptionsDataSetLength, f.optionsDataFlowSets);
  }

  /** The Data Records in data sets and in options data sets. */
  function FlowCount(ds: seq<DataFlowSet>): nat {
    if ds == [] then 0 else FlowCount(ds[..|ds| - 1]) + |ds[|ds| - 1].items|
  }

  function OptionsCount(os: seq<OptionsDataFlowSet>): nat {
    if os == [] then 0 else OptionsCount(os[..|os| - 1]) + |os[|os| - 1].records|
  }

  function DataRecords(f: IPFIX): nat {
    FlowCount(f.dataFlowSets) + OptionsCount(f.optionsDataFlowSets)
  }

  method DataRecordCount(f: IPFIX) returns (count: nat)
    ensures count == DataRecords(f)
  {
    count := 0;
    for i := 0 to |f.dataFlowSets|
      invariant count == FlowCount(f.dataFlowSets[..i])
    {
      assert f.dataFlowSets[..i + 1][..i] == f.dataFlowSets[..i];
      count := count + |f.dataFlowSets[i].items|;
    }
    assert f.dataFlowSets[..|f.dataFlowSets|] == f.dataFlowSets;
    for i := 0 to |f.optionsDataFlowSets|
      invariant count == FlowCount(f.dataFlowSets) + OptionsCount(f.optionsDataFlowSets[..i])
    {
      assert f.optionsDataFlowSets[..i + 1][..i] == f.optionsDataFlowSets[..i];
      count := count + |f.optionsDataFlowSets[i].records|;
    }
    assert f.optionsDataFlowSets[..|f.optionsDataFlowSets|] == f.optionsDataFlowSets;
  }

  // ----- Sequence numbers -----

  /** Counts the Data Records exported so far, modulo 2^32. */
  class IPFIXSequence {
    var counter: U32

    constructor ()
      ensures counter == 0
    {
      counter := 0;
    }

    /** Takes the next `recordCount` numbers; returns the first of them. */
    method Reserve(recordCount: nat) returns (start: U32)
      modifies this
      ensures start == old(counter)
      ensures counter == (old(counter) + recordCount) % 0x1_0000_0000
    {
      var n := recordCount % 0x1_0000_0000;
      counter := (counter + n) % 0x1_0000_0000;
      start := (counter - n) % 0x1_0000_0000;
    }

    method Current() returns (c: U32)
      ensures c == counter
    {
      c := counter;
    }
  }
}
