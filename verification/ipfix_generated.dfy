/**
 The IPFIX generators: a message's sequence range is reserved only once the message is known to
 fit, so every reserved range belongs to a message that can be sent; and every generated message
 is one the validator accepts.
 */
module IpfixGenerated {
  import opened Wrappers
  import opened Bytes
  import opened Codec
  import opened IpfixExport
  import opened IpfixSerialized
  import opened FlowRecords
  import G = IpfixGrammar
  import opened Sums

  function Lengths(fs: seq<Field>): seq<nat> {
    seq(|fs|, i requires 0 <= i < |fs| => fs[i].length)
  }

  /** The template describes the flow record: field by field, its lengths are the struct's widths. */
  lemma TemplateMatchesLayout()
    ensures |TEMPLATE_FIELDS| == 19 && Lengths(TEMPLATE_FIELDS) == STRUCT_LAYOUT
    ensures forall i :: 0 <= i < 19 ==> TEMPLATE_FIELDS[i].length > 0
  {
  }

  lemma LayoutSize()
    ensures Sum(STRUCT_LAYOUT) == RECORD_SIZE
  {
    assert Sum(STRUCT_LAYOUT[..0]) == 0;
    hide Sum;
    SumFour(STRUCT_LAYOUT, 0);
    SumFour(STRUCT_LAYOUT, 4);
    SumFour(STRUCT_LAYOUT, 8);
    SumFour(STRUCT_LAYOUT, 12);
    SumNext(STRUCT_LAYOUT, 16);
    SumNext(STRUCT_LAYOUT, 17);
    SumNext(STRUCT_LAYOUT, 18);
    assert STRUCT_LAYOUT[..19] == STRUCT_LAYOUT;
  }

  // ----- Generated sets -----

  const TEMPLATE_SET: TemplateFlowSet :=
    TemplateFlowSet(2, 84, [Template(256, 19, TEMPLATE_FIELDS)], 0)

  const OPTIONS_TEMPLATE_SET: OptionsTemplateFlowSet :=
    OptionsTemplateFlowSet(3, 16, OptionsTemplate(257, 1, 1, [Field(OBSERVATION_DOMAIN_ID, 4)]), 2)

  function OptionsDataSet(domain: U32): OptionsDataFlowSet {
    OptionsDataFlowSet(257, 8, [domain], 0)
  }

  /** A data set as the generator makes it. */
  ghost predicate GeneratedData(d: DataFlowSet) {
    var rawSize := 4 + RECORD_SIZE * |d.items|;
    && d.flowSetID == 256 && AllMatch(STRUCT_LAYOUT, d.items)
    && d.padding == PaddingFor(rawSize) && d.length == rawSize + d.padding
  }

  method GenerateTemplateFlowSet() returns (t: TemplateFlowSet)
    ensures t == TEMPLATE_SET
  {
    var fields := TEMPLATE_FIELDS;
    var template := Template(256, |fields|, fields);
    var rawSize := 4 + 4 + |fields| * 4;
    var padding := PaddingFor(rawSize);
    return TemplateFlowSet(2, rawSize + padding, [template], padding);
  }

  method GenerateOptionsTemplateFlowSet() returns (o: OptionsTemplateFlowSet)
    ensures o == OPTIONS_TEMPLATE_SET
  {
    var scopeFields := [Field(OBSERVATION_DOMAIN_ID, 4)];
    var allFields := scopeFields;
    var rawSize := 4 + 6 + |allFields| * 4;
    var padding := PaddingFor(rawSize);
    return OptionsTemplateFlowSet(3, rawSize + padding, OptionsTemplate(257, |allFields|, |scopeFields|, allFields),
                                  padding);
  }

  method GenerateOptionsDataFlowSet(sourceID: int) returns (o: OptionsDataFlowSet)
    ensures o == OptionsDataSet(sourceID % 0x1_0000_0000)
  {
    var length := 8;
    var padding := PaddingFor(length);
    return OptionsDataFlowSet(257, length + padding, [sourceID % 0x1_0000_0000], padding);
  }

  /** The padded size of a data set with this many flows. */
  function DataLength(flowCount: nat): nat {
    4 + RECORD_SIZE * flowCount + PaddingFor(4 + RECORD_SIZE * flowCount)
  }

  /** A message carries up to 789 flows, or 788 and the template. */
  lemma MostFlows(flowCount: nat)
    ensures 16 + DataLength(flowCount) <= 65535 <==> flowCount <= 789
    ensures 100 + DataLength(flowCount) <= 65535 <==> flowCount <= 788
  {
  }

  /** Draws the flows; fails when a draw fails or the padded set passes 65535 bytes. */
  method GenerateDataFlowSet(flowCount: nat, draws: seq<Option<Flow>>) returns (r: Result<DataFlowSet>)
    requires |draws| == flowCount && DrawsMatch(STRUCT_LAYOUT, draws)
    ensures r.Ok? <==> None !in draws && DataLength(flowCount) <= MAX_U16
    ensures r.Ok? ==> GeneratedData(r.value) && Drawn(draws, r.value.items)
  {
    var items: seq<Flow> := [];
    for i := 0 to flowCount
      invariant |items| == i && forall k :: 0 <= k < i ==> draws[k] == Some(items[k])
      invariant forall k :: 0 <= k < i ==> Matches(STRUCT_LAYOUT, items[k])
    {
      if draws[i].None? {
        return Err("generate flow");
      }
      items := items + [draws[i].value];
    }
    var length := 4 + flowCount * RECORD_SIZE;
    var padding := PaddingFor(length);
    length := length + padding;
    if length > 65535 {
      return Err("DataFlowSet length exceeds maximum 65535 bytes");
    }
    return Ok(DataFlowSet(256, length, items, padding));
  }

  // ----- Generated messages -----

  /** What one generator call makes: at most one set of each kind, as the generators fill them. */
  ghost predicate Generated(f: IPFIX) {
    && f.header.version == 10
    && (f.templateFlowSets == [] || f.templateFlowSets == [TEMPLATE_SET])
    && (f.optionsTemplateFlowSets == [] || f.optionsTemplateFlowSets == [OPTIONS_TEMPLATE_SET])
    && |f.dataFlowSets| <= 1 && (forall d :: d in f.dataFlowSets ==> GeneratedData(d))
    && |f.optionsDataFlowSets| <= 1
    && (forall o :: o in f.optionsDataFlowSets ==> exists domain :: o == OptionsDataSet(domain))
  }

  lemma TemplateSetSize()
    ensures |TemplateFlowSetBytes(TEMPLATE_SET)| == 84
    ensures |OptionsTemplateFlowSetBytes(OPTIONS_TEMPLATE_SET)| == 16
  {
    hide TEMPLATE_FIELDS;
    FieldsSize(TEMPLATE_FIELDS);
    TemplateMatchesLayout();
    EncodeOne(TemplateBytes, TEMPLATE_SET.templates[0]);
    FieldsSize(OPTIONS_TEMPLATE_SET.template.fields);
  }

  lemma {:induction false} FieldsSize(fs: seq<Field>)
    ensures |Encode(FieldBytes, fs)| == 4 * |fs|
  {
    if fs == [] {
    } else {
      FieldsSize(fs[1..]);
    }
  }

  lemma DataSetSize(d: DataFlowSet)
    requires GeneratedData(d)
    ensures |DataFlowSetBytes(d)| == d.length
  {
    hide FlowBytes, Encode;
    LayoutSize();
    FlowsSize(STRUCT_LAYOUT, d.items);
  }

  lemma OptionsDataSize(domain: U32)
    ensures |OptionsDataFlowSetBytes(OptionsDataSet(domain))| == 8
  {
    EncodeOne(DomainBytes, domain);
  }

  /** Generated sets carry their exact size, so the estimate is exact. */
  lemma GeneratedIsSized(f: IPFIX)
    requires Generated(f)
    ensures SizedRight(f) && SetLengths(f) == |SetsBytes(f)|
  {
    hide TemplateFlowSetBytes, OptionsTemplateFlowSetBytes, DataFlowSetBytes, OptionsDataFlowSetBytes, TEMPLATE_FIELDS;
    hide SetLengths, SetsBytes;
    TemplateSetSize();
    forall d | d in f.dataFlowSets ensures |DataFlowSetBytes(d)| == d.length {
      DataSetSize(d);
    }
    forall o | o in f.optionsDataFlowSets ensures |OptionsDataFlowSetBytes(o)| == o.length {
      var domain :| o == OptionsDataSet(domain);
      OptionsDataSize(domain);
    }
    LengthsAreSizes(f);
  }

  // ----- Generators -----

  /** The message carries `before`; counting its Data Records leads to `after`; and it can be sent. */
  ghost predicate Numbered(f: IPFIX, before: U32, after: U32) {
    && Generated(f) && f.header.sequenceNumber == before
    && after == (before + DataRecords(f)) % 0x1_0000_0000
    && 16 + |SetsBytes(f)| <= MAX_U16
  }

  /** The second a time in nanoseconds falls in. */
  function ExportTime(now: int): U32 {
    now / 1_000_000_000 % 0x1_0000_0000
  }

  /** Whole seconds are counted. */
  lemma SecondsCount(now: int, seconds: nat)
    requires 1_000_000_000 * seconds <= now < 1_000_000_000 * (seconds + 1)
    ensures ExportTime(now) == seconds % 0x1_0000_0000
  {
  }

  function NewHeader(sourceID: int, sequenceNumber: U32, now: int): Header {
    Header(10, 0, ExportTime(now), sequenceNumber, sourceID % 0x1_0000_0000)
  }

  lemma SetsSizes(f: IPFIX)
    requires Generated(f)
    ensures |SetsBytes(f)| == 84 * |f.templateFlowSets| + 16 * |f.optionsTemplateFlowSets|
                              + (if f.dataFlowSets == [] then 0 else f.dataFlowSets[0].length)
                              + 8 * |f.optionsDataFlowSets|
  {
    hide TemplateFlowSetBytes, OptionsTemplateFlowSetBytes, DataFlowSetBytes, OptionsDataFlowSetBytes, TEMPLATE_FIELDS;
    GeneratedIsSized(f);
    if f.templateFlowSets != [] {
      EncodeOne(TemplateFlowSetBytes, TEMPLATE_SET);
    }
    if f.optionsTemplateFlowSets != [] {
      EncodeOne(OptionsTemplateFlowSetBytes, OPTIONS_TEMPLATE_SET);
    }
    if f.dataFlowSets != [] {
      EncodeOne(DataFlowSetBytes, f.dataFlowSets[0]);
      assert f.dataFlowSets == [f.dataFlowSets[0]];
    }
    if f.optionsDataFlowSets != [] {
      assert f.optionsDataFlowSets[0] in f.optionsDataFlowSets;
      EncodeOne(OptionsDataFlowSetBytes, f.optionsDataFlowSets[0]);
      assert f.optionsDataFlowSets == [f.optionsDataFlowSets[0]];
    }
  }

  lemma RecordsOf(f: IPFIX)
    requires Generated(f)
    ensures DataRecords(f) == (if f.dataFlowSets == [] then 0 else |f.dataFlowSets[0].items|) + |f.optionsDataFlowSets|
  {
    if f.dataFlowSets != [] {
      assert FlowCount(f.dataFlowSets[..0]) == 0;
    }
    if f.optionsDataFlowSets != [] {
      var o := f.optionsDataFlowSets[0];
      assert o in f.optionsDataFlowSets;
      var domain :| o == OptionsDataSet(domain);
      assert OptionsCount(f.optionsDataFlowSets[..0]) == 0;
    }
  }

  /** A template message: it carries the current count and does not advance it. */
  method GenerateTemplateIPFIX(sourceID: int, sequence: IPFIXSequence, now: int) returns (f: IPFIX)
    ensures Numbered(f, sequence.counter, sequence.counter) && f.header == NewHeader(sourceID, sequence.counter, now)
    ensures f.templateFlowSets == [TEMPLATE_SET] && f.optionsTemplateFlowSets == [OPTIONS_TEMPLATE_SET]
    ensures f.dataFlowSets == [] && f.optionsDataFlowSets == []
  {
    hide SetsBytes;
    var templateFlow := GenerateTemplateFlowSet();
    var optionsTemplate := GenerateOptionsTemplateFlowSet();
    var current := sequence.Current();
    f := IPFIX(NewHeader(sourceID, current, now), [templateFlow], [optionsTemplate], [], []);
    SetsSizes(f);
  }

  /** An options data message: one Data Record. */
  method GenerateOptionsDataIPFIX(sourceID: int, sequence: IPFIXSequence, now: int) returns (f: IPFIX)
    modifies sequence
    ensures Numbered(f, old(sequence.counter), sequence.counter)
    ensures f.header == NewHeader(sourceID, old(sequence.counter), now)
    ensures f.templateFlowSets == [] && f.optionsTemplateFlowSets == [] && f.dataFlowSets == []
    ensures f.optionsDataFlowSets == [OptionsDataSet(sourceID % 0x1_0000_0000)]
  {
    hide SetsBytes;
    var optionsData := GenerateOptionsDataFlowSet(sourceID);
    var start := sequence.Reserve(1);
    f := IPFIX(NewHeader(sourceID, start, now), [], [], [], [optionsData]);
    SetsSizes(f);
    RecordsOf(f);
  }

  /**
   A data message: the range is reserved only after the size is known to be sendable, so a failure
   leaves the counter as it was.
   */
  method GenerateDataIPFIX(flowCount: nat, sourceID: int, draws: seq<Option<Flow>>, sequence: IPFIXSequence, now: int)
    returns (r: Result<IPFIX>)
    requires |draws| == flowCount && DrawsMatch(STRUCT_LAYOUT, draws)
    modifies sequence
    ensures r.Err? ==> sequence.counter == old(sequence.counter)
    ensures r.Ok? <==> None !in draws && 16 + DataLength(flowCount) <= MAX_U16
    ensures r.Ok? ==> Numbered(r.value, old(sequence.counter), sequence.counter)
    ensures r.Ok? ==> r.value.header == NewHeader(sourceID, old(sequence.counter), now)
    ensures r.Ok? ==> DataRecords(r.value) == flowCount
    ensures r.Ok? ==>
              var f := r.value;
              && f.templateFlowSets == [] && f.optionsTemplateFlowSets == [] && f.optionsDataFlowSets == []
              && |f.dataFlowSets| == 1 && Drawn(draws, f.dataFlowSets[0].items)
  {
    hide SetsBytes, Matches;
    var dataFlow := GenerateDataFlowSet(flowCount, draws);
    if dataFlow.Err? {
      return Err("generate data flow set");
    }
    var flow := IPFIX(Header(10, 0, 0, 0, 0), [], [], [dataFlow.value], []);
    GeneratedIsSized(flow);
    SetsSizes(flow);
    var size := EstimatedSize(flow);
    if size > 65535 {
      return Err("IPFIX message size exceeds maximum 65535 bytes");
    }
    var start := sequence.Reserve(flowCount);
    flow := flow.(header := NewHeader(sourceID, start, now));
    SetsSizes(flow);
    RecordsOf(flow);
    return Ok(flow);
  }

  /** A message with template and data. */
  method GenerateIPFIX(flowCount: nat, sourceID: int, draws: seq<Option<Flow>>, sequence: IPFIXSequence, now: int)
    returns (r: Result<IPFIX>)
    requires |draws| == flowCount && DrawsMatch(STRUCT_LAYOUT, draws)
    modifies sequence
    ensures r.Ok? ==> |r.value.dataFlowSets| == 1 && Drawn(draws, r.value.dataFlowSets[0].items)
    ensures r.Err? ==> sequence.counter == old(sequence.counter)
    ensures r.Ok? <==> None !in draws && 100 + DataLength(flowCount) <= MAX_U16
    ensures r.Ok? ==> Numbered(r.value, old(sequence.counter), sequence.counter)
    ensures r.Ok? ==> r.value.header == NewHeader(sourceID, old(sequence.counter), now)
    ensures r.Ok? ==> DataRecords(r.value) == flowCount
    ensures r.Ok? ==>
              var f := r.value;
              f.templateFlowSets == [TEMPLATE_SET] && f.optionsTemplateFlowSets == [] && f.optionsDataFlowSets == []
  {
    hide SetsBytes, Matches, TEMPLATE_FIELDS;
    var templateFlow := GenerateTemplateFlowSet();
    var dataFlow := GenerateDataFlowSet(flowCount, draws);
    if dataFlow.Err? {
      return Err("generate data flow set");
    }
    var flow := IPFIX(Header(10, 0, 0, 0, 0), [templateFlow], [], [dataFlow.value], []);
    GeneratedIsSized(flow);
    SetsSizes(flow);
    var size := EstimatedSize(flow);
    if size > 65535 {
      return Err("IPFIX message size exceeds maximum 65535 bytes");
    }
    var start := sequence.Reserve(flowCount);
    flow := flow.(header := NewHeader(sourceID, start, now));
    SetsSizes(flow);
    RecordsOf(flow);
    return Ok(flow);
  }

  // ----- Generated messages as messages of the grammar -----

  lemma TemplateKinds()
    ensures Plain(TEMPLATE_FIELDS)
  {
    hide STRUCT_LAYOUT;
    forall f | f in TEMPLATE_FIELDS ensures f.kind < G.ENTERPRISE_BIT {
      var i :| 0 <= i < |TEMPLATE_FIELDS| && TEMPLATE_FIELDS[i] == f;
    }
  }

  /** A generated message is well formed: its sets have the IDs, lengths and counts they should. */
  lemma GeneratedIsWf(f: IPFIX)
    requires Generated(f)
    ensures WfStructure(f)
  {
    hide TEMPLATE_FIELDS, STRUCT_LAYOUT, Plain, AllMatch;
    hide TemplateFlowSetBytes, OptionsTemplateFlowSetBytes, DataFlowSetBytes, OptionsDataFlowSetBytes;
    TemplateKinds();
    DomainKind();
    TemplateSetSize();
    TemplateMatchesLayout();
    forall d | d in f.dataFlowSets ensures WfDataSet(d) {
      DataSetSize(d);
    }
    forall o | o in f.optionsDataFlowSets ensures WfOptionsDataSet(o) {
      var domain :| o == OptionsDataSet(domain);
      OptionsDataSize(domain);
    }
  }

  lemma DomainKind()
    ensures Plain(OPTIONS_TEMPLATE_SET.template.fields)
  {
  }

  /**
   A generated message that fits is one the validator accepts; read back it has the sequence
   number, the domain and the sets it was made with.
   */
  lemma GeneratedAccepted(f: IPFIX)
    requires Generated(f) && 16 + |SetsBytes(f)| <= MAX_U16
    ensures G.Accepted(MessageBytes(f))
    ensures G.ParseMessage(MessageBytes(f)) == Some(MessageOf(f))
  {
    hide Generated, WfStructure, SetsBytes, MessageBytes, G.Accepted;
    GeneratedIsWf(f);
    SerializedReadsBack(f);
  }

  /** The flows of a generated message are read back from its data set, exactly and in order. */
  lemma GeneratedFlowsReadBack(f: IPFIX)
    requires Generated(f) && f.dataFlowSets != []
    ensures var d := f.dataFlowSets[0];
            ReadFlows(Lengths(TEMPLATE_FIELDS), |d.items|, DataSetOf(d).body) == Some(Items(d.items, Zeros(d.padding)))
  {
    TemplateMatchesLayout();
    var d := f.dataFlowSets[0];
    assert d in f.dataFlowSets;
    FlowsReadBack(STRUCT_LAYOUT, d.items, Zeros(d.padding));
  }
}
