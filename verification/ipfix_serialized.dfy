/**
 Serializing and reading IPFIX messages undo each other, for any number of sets of each kind whose
 length fields and field counts are right.
 */
module IpfixSerialized {
  import opened Wrappers
  import opened Bytes
  import opened Codec
  import opened FlowRecords
  import opened IpfixExport
  import G = IpfixGrammar

  function SpecifierOf(f: Field): G.Specifier {
    G.Specifier(f.kind, f.length, [])
  }

  /** A template without fields is a withdrawal. */
  function RecordOf(t: Template): G.Record {
    if t.fields == [] then G.Withdrawal(t.templateID) else G.Template(t.templateID, Mapped(SpecifierOf, t.fields))
  }

  function OptionsRecordOf(o: OptionsTemplate): G.Record {
    G.OptionsTemplate(o.templateID, o.scopeFieldCount, Mapped(SpecifierOf, o.fields))
  }

  function TemplateSetOf(t: TemplateFlowSet): G.Set {
    G.TemplateSet(Mapped(RecordOf, t.templates), Zeros(t.padding))
  }

  function OptionsTemplateSetOf(o: OptionsTemplateFlowSet): G.Set {
    G.OptionsTemplateSet([OptionsRecordOf(o.template)], Zeros(o.padding))
  }

  function DataSetOf(d: DataFlowSet): G.Set {
    G.DataSet(d.flowSetID, Encode(FlowBytes, d.items) + Zeros(d.padding))
  }

  function OptionsDataSetOf(o: OptionsDataFlowSet): G.Set {
    G.DataSet(o.flowSetID, Encode(DomainBytes, o.records) + Zeros(o.padding))
  }

  /** The sets of a message, in the order they are written. */
  function SetsOf(f: IPFIX): seq<G.Set> {
    Mapped(TemplateSetOf, f.templateFlowSets) + Mapped(OptionsTemplateSetOf, f.optionsTemplateFlowSets)
    + Mapped(DataSetOf, f.dataFlowSets) + Mapped(OptionsDataSetOf, f.optionsDataFlowSets)
  }

  /** The message of the grammar a structure stands for. */
  function MessageOf(f: IPFIX): G.Message {
    G.Message(f.header.exportTime, f.header.sequenceNumber, f.header.observationDomainId, SetsOf(f))
  }

  /** No field of the structures is an enterprise field. */
  ghost predicate Plain(fs: seq<Field>) {
    forall f :: f in fs ==> f.kind < G.ENTERPRISE_BIT
  }

  ghost predicate WfTemplate(t: Template) {
    t.templateID >= G.MIN_TEMPLATE_ID && t.fieldCount == |t.fields| && Plain(t.fields)
  }

  ghost predicate WfTemplateSet(t: TemplateFlowSet) {
    && t.flowSetID == G.TEMPLATE_SET_ID && t.length == |TemplateFlowSetBytes(t)| && t.padding < 4
    && t.templates != [] && forall r :: r in t.templates ==> WfTemplate(r)
  }

  ghost predicate WfOptionsTemplateSet(o: OptionsTemplateFlowSet) {
    && o.flowSetID == G.OPTIONS_SET_ID && o.length == |OptionsTemplateFlowSetBytes(o)| && o.padding < 4
    && o.template.templateID >= G.MIN_TEMPLATE_ID && o.template.fieldCount == |o.template.fields|
    && 0 < o.template.scopeFieldCount <= o.template.fieldCount && Plain(o.template.fields)
  }

  ghost predicate WfDataSet(d: DataFlowSet) {
    d.flowSetID >= G.MIN_TEMPLATE_ID && d.length == |DataFlowSetBytes(d)|
  }

  ghost predicate WfOptionsDataSet(o: OptionsDataFlowSet) {
    o.flowSetID >= G.MIN_TEMPLATE_ID && o.length == |OptionsDataFlowSetBytes(o)|
  }

  /** Every set has an ID of its kind, its exact length, and for templates a record and exact field counts. */
  ghost predicate WfStructure(f: IPFIX) {
    && f.header.version == G.VERSION
    && (forall t :: t in f.templateFlowSets ==> WfTemplateSet(t))
    && (forall o :: o in f.optionsTemplateFlowSets ==> WfOptionsTemplateSet(o))
    && (forall d :: d in f.dataFlowSets ==> WfDataSet(d))
    && forall o :: o in f.optionsDataFlowSets ==> WfOptionsDataSet(o)
  }

  /** Specifiers of the structures are 4 bytes each. */
  lemma SpecifierLayout(fs: seq<Field>)
    requires Plain(fs)
    ensures G.EncodeSpecifiers(Mapped(SpecifierOf, fs)) == Encode(FieldBytes, fs)
    ensures All(G.WfSpecifier, Mapped(SpecifierOf, fs))
  {
    hide Encode, PutU16;
    forall f | f in fs ensures FieldBytes(f) == G.EncodeSpecifier(SpecifierOf(f)) {
      assert PutU16(f.kind) + PutU16(f.length) + [] == PutU16(f.kind) + PutU16(f.length);
    }
    EncodeMapped(FieldBytes, G.EncodeSpecifier, SpecifierOf, fs);
    AllMapped(G.WfSpecifier, SpecifierOf, fs);
  }

  lemma TemplateLayout(t: Template)
    requires WfTemplate(t)
    ensures TemplateBytes(t) == G.EncodeRecord(RecordOf(t)) && G.WfTemplate(RecordOf(t))
  {
    hide PutU16, Plain, All;
    SpecifierLayout(t.fields);
    if t.fields == [] {
      assert PutU16(t.templateID) + PutU16(0) + [] == PutU16(t.templateID) + PutU16(0);
    }
  }

  lemma TemplateSetLayout(t: TemplateFlowSet)
    requires WfTemplateSet(t)
    ensures TemplateFlowSetBytes(t) == G.EncodeSet(TemplateSetOf(t)) && G.WfSet(TemplateSetOf(t))
  {
    hide PutU16, Encode, All, TemplateBytes, G.EncodeRecord, WfTemplate, G.WfTemplate, RecordOf;
    forall r | r in t.templates ensures TemplateBytes(r) == G.EncodeRecord(RecordOf(r)) && G.WfTemplate(RecordOf(r)) {
      TemplateLayout(r);
    }
    EncodeMapped(TemplateBytes, G.EncodeRecord, RecordOf, t.templates);
    AllMapped(G.WfTemplate, RecordOf, t.templates);
    assert |TemplateFlowSetBytes(t)| == 4 + |G.Content(TemplateSetOf(t))|;
  }

  lemma OptionsTemplateSetLayout(o: OptionsTemplateFlowSet)
    requires WfOptionsTemplateSet(o)
    ensures OptionsTemplateFlowSetBytes(o) == G.EncodeSet(OptionsTemplateSetOf(o)) && G.WfSet(OptionsTemplateSetOf(o))
  {
    hide PutU16, Encode, Plain;
    var r := OptionsRecordOf(o.template);
    SpecifierLayout(o.template.fields);
    EncodeOne(G.EncodeRecord, r);
    assert OptionsTemplateBytes(o.template) == G.EncodeRecord(r);
    assert |OptionsTemplateFlowSetBytes(o)| == 4 + |G.Content(OptionsTemplateSetOf(o))|;
  }

  lemma DataSetLayout(d: DataFlowSet)
    requires WfDataSet(d)
    ensures DataFlowSetBytes(d) == G.EncodeSet(DataSetOf(d)) && G.WfSet(DataSetOf(d))
  {
    hide PutU16, Encode;
    assert |DataFlowSetBytes(d)| == 4 + |G.Content(DataSetOf(d))|;
  }

  lemma OptionsDataSetLayout(o: OptionsDataFlowSet)
    requires WfOptionsDataSet(o)
    ensures OptionsDataFlowSetBytes(o) == G.EncodeSet(OptionsDataSetOf(o)) && G.WfSet(OptionsDataSetOf(o))
  {
    hide PutU16, Encode;
    assert |OptionsDataFlowSetBytes(o)| == 4 + |G.Content(OptionsDataSetOf(o))|;
  }

  /** One list of sets of a kind. */
  lemma PartLayout<S>(bytes: S -> seq<Byte>, image: S -> G.Set, sets: seq<S>)
    requires forall s :: s in sets ==> bytes(s) == G.EncodeSet(image(s)) && G.WfSet(image(s))
    ensures Encode(bytes, sets) == Encode(G.EncodeSet, Mapped(image, sets)) && All(G.WfSet, Mapped(image, sets))
  {
    EncodeMapped(bytes, G.EncodeSet, image, sets);
    AllMapped(G.WfSet, image, sets);
  }

  lemma PartsLayout(f: IPFIX)
    requires WfStructure(f)
    ensures Encode(TemplateFlowSetBytes, f.templateFlowSets)
         == Encode(G.EncodeSet, Mapped(TemplateSetOf, f.templateFlowSets))
    ensures Encode(OptionsTemplateFlowSetBytes, f.optionsTemplateFlowSets)
         == Encode(G.EncodeSet, Mapped(OptionsTemplateSetOf, f.optionsTemplateFlowSets))
    ensures Encode(DataFlowSetBytes, f.dataFlowSets) == Encode(G.EncodeSet, Mapped(DataSetOf, f.dataFlowSets))
    ensures Encode(OptionsDataFlowSetBytes, f.optionsDataFlowSets)
         == Encode(G.EncodeSet, Mapped(OptionsDataSetOf, f.optionsDataFlowSets))
    ensures All(G.WfSet, Mapped(TemplateSetOf, f.templateFlowSets))
    ensures All(G.WfSet, Mapped(OptionsTemplateSetOf, f.optionsTemplateFlowSets))
    ensures All(G.WfSet, Mapped(DataSetOf, f.dataFlowSets))
    ensures All(G.WfSet, Mapped(OptionsDataSetOf, f.optionsDataFlowSets))
  {
    hide TemplateFlowSetBytes, OptionsTemplateFlowSetBytes, DataFlowSetBytes, OptionsDataFlowSetBytes;
    hide Encode, All, Mapped;
    hide WfTemplateSet, WfOptionsTemplateSet, WfDataSet, WfOptionsDataSet, G.EncodeSet, G.WfSet;
    hide TemplateSetOf, OptionsTemplateSetOf, DataSetOf, OptionsDataSetOf;
    forall t | t in f.templateFlowSets
      ensures TemplateFlowSetBytes(t) == G.EncodeSet(TemplateSetOf(t)) && G.WfSet(TemplateSetOf(t))
    {
      TemplateSetLayout(t);
    }
    PartLayout(TemplateFlowSetBytes, TemplateSetOf, f.templateFlowSets);
    forall o | o in f.optionsTemplateFlowSets
      ensures OptionsTemplateFlowSetBytes(o) == G.EncodeSet(OptionsTemplateSetOf(o)) && G.WfSet(OptionsTemplateSetOf(o))
    {
      OptionsTemplateSetLayout(o);
    }
    PartLayout(OptionsTemplateFlowSetBytes, OptionsTemplateSetOf, f.optionsTemplateFlowSets);
    forall d | d in f.dataFlowSets ensures DataFlowSetBytes(d) == G.EncodeSet(DataSetOf(d)) && G.WfSet(DataSetOf(d)) {
      DataSetLayout(d);
    }
    PartLayout(DataFlowSetBytes, DataSetOf, f.dataFlowSets);
    forall o | o in f.optionsDataFlowSets
      ensures OptionsDataFlowSetBytes(o) == G.EncodeSet(OptionsDataSetOf(o)) && G.WfSet(OptionsDataSetOf(o))
    {
      OptionsDataSetLayout(o);
    }
    PartLayout(OptionsDataFlowSetBytes, OptionsDataSetOf, f.optionsDataFlowSets);
  }

  /** The serializer writes the layout of the sets the structure stands for, all of them well formed. */
  lemma SerializedSets(f: IPFIX)
    requires WfStructure(f)
    ensures SetsBytes(f) == Encode(G.EncodeSet, SetsOf(f)) && All(G.WfSet, SetsOf(f))
  {
    hide Encode, All, G.EncodeSet, G.WfSet, Mapped, WfStructure;
    PartsLayout(f);
    var a, b := Mapped(TemplateSetOf, f.templateFlowSets), Mapped(OptionsTemplateSetOf, f.optionsTemplateFlowSets);
    var c, d := Mapped(DataSetOf, f.dataFlowSets), Mapped(OptionsDataSetOf, f.optionsDataFlowSets);
    EncodeAppend(G.EncodeSet, a, b);
    EncodeAppend(G.EncodeSet, a + b, c);
    EncodeAppend(G.EncodeSet, a + b + c, d);
    AllConcat(G.WfSet, a, b);
    AllConcat(G.WfSet, a + b, c);
    AllConcat(G.WfSet, a + b + c, d);
  }

  lemma SameHeader(h: Header)
    requires h.version == 10
    ensures HeaderBytes(h) == G.EncodeHeader(h.length, h.exportTime, h.sequenceNumber, h.observationDomainId)
  {
  }

  /** A well-formed structure that fits a message, serialized and read, is what it stands for. */
  lemma SerializedReadsBack(f: IPFIX)
    requires WfStructure(f) && 16 + |SetsBytes(f)| <= MAX_U16
    ensures G.Accepted(MessageBytes(f)) && G.ParseMessage(MessageBytes(f)) == Some(MessageOf(f))
  {
    hide SetsOf, SetsBytes, HeaderBytes, G.EncodeHeader, G.WfSet, All;
    SerializedSets(f);
    SameHeader(f.header.(length := 16 + |SetsBytes(f)|));
    assert G.WfMessage(MessageOf(f)) && G.EncodeMessage(MessageOf(f)) == MessageBytes(f);
    G.ReaderIsGrammar(MessageBytes(f), MessageOf(f));
  }
}
