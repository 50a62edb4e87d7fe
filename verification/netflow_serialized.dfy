/**
 Serializing and reading NetFlow v9 packets undo each other, for any number of template and data
 sets whose length fields and field counts are right.
 */
module NetFlowSerialized {
  import opened Wrappers
  import opened Bytes
  import opened Codec
  import opened Sums
  import opened NetFlowGrammar
  import opened NetFlowExport
  import opened FlowRecords

  function RecordOf(t: Template): TemplateRecord {
    TemplateRecord(t.templateID, t.fields)
  }

  function TemplateSetOf(t: TemplateFlowSet): FlowSet {
    Templates(Mapped(RecordOf, t.templates), t.padding)
  }

  function DataSetOf(d: DataFlowSet): FlowSet {
    Data(d.flowSetID, Encode(FlowBytes, d.items) + Zeros(d.padding))
  }

  function SetsOf(n: Netflow): seq<FlowSet> {
    Mapped(TemplateSetOf, n.templateFlowSets) + Mapped(DataSetOf, n.dataFlowSets)
  }

  /** The packet of the grammar a structure stands for. */
  function PacketOf(n: Netflow): Packet {
    Packet(n.header, SetsOf(n))
  }

  ghost predicate SizedTemplate(t: Template) {
    t.fieldCount == |t.fields|
  }

  ghost predicate SizedTemplateSet(t: TemplateFlowSet) {
    && t.flowSetID == TEMPLATE_SET_ID && t.length == |TemplateFlowSetBytes(t)|
    && forall r :: r in t.templates ==> SizedTemplate(r)
  }

  ghost predicate SizedDataSet(d: DataFlowSet) {
    d.length == |DataFlowSetBytes(d)|
  }

  /** Length fields and field counts say what is there. */
  ghost predicate Sized(n: Netflow) {
    && (forall t :: t in n.templateFlowSets ==> SizedTemplateSet(t))
    && forall d :: d in n.dataFlowSets ==> SizedDataSet(d)
  }

  ghost predicate WfTemplateSet(t: TemplateFlowSet) {
    && t.templates != [] && t.padding < 4
    && forall r :: r in t.templates ==> WfTemplate(RecordOf(r))
  }

  ghost predicate WfDataSet(d: DataFlowSet) {
    d.flowSetID >= MIN_TEMPLATE_ID && Encode(FlowBytes, d.items) + Zeros(d.padding) != []
  }

  /** Every set holds something, under IDs from 256 on, and no field is empty. */
  ghost predicate WfStructure(n: Netflow) {
    && (forall t :: t in n.templateFlowSets ==> WfTemplateSet(t))
    && forall d :: d in n.dataFlowSets ==> WfDataSet(d)
  }

  lemma TemplateSetLayout(t: TemplateFlowSet)
    requires SizedTemplateSet(t)
    ensures TemplateFlowSetBytes(t) == EncodeFlowSet(TemplateSetOf(t))
    ensures WfTemplateSet(t) ==> WfFlowSet(TemplateSetOf(t))
  {
    hide Encode, PutU16, WfTemplate;
    forall r | r in t.templates ensures TemplateBytes(r) == EncodeTemplate(RecordOf(r)) {
      assert SizedTemplate(r);
    }
    EncodeMapped(TemplateBytes, EncodeTemplate, RecordOf, t.templates);
    assert |TemplateFlowSetBytes(t)| == 4 + |Content(TemplateSetOf(t))|;
    if WfTemplateSet(t) {
      AllMapped(WfTemplate, RecordOf, t.templates);
    }
  }

  lemma DataSetLayout(d: DataFlowSet)
    requires SizedDataSet(d)
    ensures DataFlowSetBytes(d) == EncodeFlowSet(DataSetOf(d))
    ensures WfDataSet(d) ==> WfFlowSet(DataSetOf(d))
  {
    hide Encode, PutU16;
    assert |DataFlowSetBytes(d)| == 4 + |Content(DataSetOf(d))|;
  }

  /** The serializer writes the layout of the packet the structure stands for. */
  lemma SerializedLayout(n: Netflow)
    requires Sized(n)
    ensures NetflowBytes(n) == EncodePacket(PacketOf(n))
  {
    hide TemplateFlowSetBytes, DataFlowSetBytes, EncodeFlowSet, Encode, EncodeHeader;
    forall t | t in n.templateFlowSets ensures TemplateFlowSetBytes(t) == EncodeFlowSet(TemplateSetOf(t)) {
      TemplateSetLayout(t);
    }
    EncodeMapped(TemplateFlowSetBytes, EncodeFlowSet, TemplateSetOf, n.templateFlowSets);
    forall d | d in n.dataFlowSets ensures DataFlowSetBytes(d) == EncodeFlowSet(DataSetOf(d)) {
      DataSetLayout(d);
    }
    EncodeMapped(DataFlowSetBytes, EncodeFlowSet, DataSetOf, n.dataFlowSets);
    EncodeAppend(EncodeFlowSet, Mapped(TemplateSetOf, n.templateFlowSets), Mapped(DataSetOf, n.dataFlowSets));
  }

  /** What is written is as long as the header and the length fields of the sets together. */
  lemma SerializedSize(n: Netflow)
    requires Sized(n)
    ensures |NetflowBytes(n)|
         == HEADER_SIZE + Sum(Mapped((t: TemplateFlowSet) => t.length as nat, n.templateFlowSets))
            + Sum(Mapped((d: DataFlowSet) => d.length as nat, n.dataFlowSets))
  {
    hide TemplateFlowSetBytes, DataFlowSetBytes, Encode, EncodeHeader;
    EncodeLength(TemplateFlowSetBytes, (t: TemplateFlowSet) => t.length as nat, n.templateFlowSets);
    EncodeLength(DataFlowSetBytes, (d: DataFlowSet) => d.length as nat, n.dataFlowSets);
    HeaderSize(n.header);
  }

  lemma HeaderSize(h: Header)
    ensures |EncodeHeader(h)| == HEADER_SIZE
  {
  }

  /** A well-formed structure, serialized and read, is what it stands for: nothing is lost or mixed up. */
  lemma SerializedReadsBack(n: Netflow)
    requires Sized(n) && WfStructure(n)
    ensures ParsePacket(NetflowBytes(n)) == Some(PacketOf(n)) && WfPacket(PacketOf(n))
  {
    hide WfFlowSet, SizedTemplateSet, SizedDataSet, WfTemplateSet, WfDataSet, EncodePacket, NetflowBytes;
    SerializedLayout(n);
    forall t | t in n.templateFlowSets ensures WfFlowSet(TemplateSetOf(t)) {
      TemplateSetLayout(t);
    }
    forall d | d in n.dataFlowSets ensures WfFlowSet(DataSetOf(d)) {
      DataSetLayout(d);
    }
    AllMapped(WfFlowSet, TemplateSetOf, n.templateFlowSets);
    AllMapped(WfFlowSet, DataSetOf, n.dataFlowSets);
    AllConcat(WfFlowSet, Mapped(TemplateSetOf, n.templateFlowSets), Mapped(DataSetOf, n.dataFlowSets));
    ReaderIsGrammar(NetflowBytes(n), PacketOf(n));
  }
}
