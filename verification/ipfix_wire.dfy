/** The bytes of generated IPFIX messages: which value stands where. */
module IpfixWire {
  import opened Bytes
  import opened Codec
  import opened IpfixExport
  import opened IpfixGenerated
  import opened FlowRecords
  import G = IpfixGrammar

  // ----- Sets -----

  /** The template set: set 2, template 256, and kind and length of its 19 fields. */
  lemma TemplateSetOnBytes()
    ensures var b := TemplateFlowSetBytes(TEMPLATE_SET);
            && |b| == 84 && GetU16(b, 0) == 2 && GetU16(b, 2) == 84 && GetU16(b, 4) == 256 && GetU16(b, 6) == 19
            && forall i :: 0 <= i < 19 ==>
                 && GetU16(b, 8 + 4 * i) == TEMPLATE_FIELDS[i].kind
                 && GetU16(b, 10 + 4 * i) == TEMPLATE_FIELDS[i].length
  {
    TemplateMatchesLayout();
    hide Encode, GetU16, TEMPLATE_FIELDS;
    var fields, t := TEMPLATE_FIELDS, TEMPLATE_SET.templates[0];
    EncodeOne(TemplateBytes, t);
    FieldsSize(fields);
    var content, b := TemplateBytes(t) + Zeros(0), TemplateFlowSetBytes(TEMPLATE_SET);
    SetHeader(2, 84, content);
    assert content == PutU16(256) + PutU16(19) + Encode(FieldBytes, fields);
    SetHeader(256, 19, Encode(FieldBytes, fields));
    Dropped(b, 4, 0);
    Dropped(b, 4, 2);
    forall i | 0 <= i < 19
      ensures GetU16(b, 8 + 4 * i) == fields[i].kind && GetU16(b, 10 + 4 * i) == fields[i].length
    {
      FieldOfTemplate(fields, i);
      assert b[8..] == b[4..][4..] == Encode(FieldBytes, fields);
      Dropped(b, 8, 4 * i);
      Dropped(b, 8, 4 * i + 2);
    }
  }

  lemma FieldOfTemplate(fields: seq<Field>, i: nat)
    requires i < |fields|
    ensures var b := Encode(FieldBytes, fields);
            4 * i + 4 <= |b| && GetU16(b, 4 * i) == fields[i].kind && GetU16(b, 4 * i + 2) == fields[i].length
  {
    hide GetU16, Encode;
    var b := Encode(FieldBytes, fields);
    ItemAt(FieldBytes, fields, 4, i);
    FrontTwo(fields[i].kind, fields[i].length, []);
    assert FieldBytes(fields[i]) == PutU16(fields[i].kind) + PutU16(fields[i].length) + [];
    Sliced(b, 4 * i, 4 * i + 4, 0);
    Sliced(b, 4 * i, 4 * i + 4, 2);
  }

  /** The options template set: template 257 with one field, a scope field: observationDomainId, four bytes long. */
  lemma OptionsTemplateSetIs()
    ensures OptionsTemplateFlowSetBytes(OPTIONS_TEMPLATE_SET)
         == [0, 3, 0, 16, 1, 1, 0, 1, 0, 1, 0, 149, 0, 4, 0, 0]
  {
    var f := Field(OBSERVATION_DOMAIN_ID, 4);
    EncodeOne(FieldBytes, f);
  }

  /** The options data set: for template 257, the domain in four bytes. */
  lemma OptionsDataSetIs(domain: U32)
    ensures OptionsDataFlowSetBytes(OptionsDataSet(domain)) == [1, 1, 0, 8] + PutU32(domain)
  {
    hide PutU32;
    EncodeOne(DomainBytes, domain);
    assert Zeros(0) == [];
  }

  lemma DataSetOnBytes(d: DataFlowSet)
    requires GeneratedData(d)
    ensures DataOnBytes(STRUCT_LAYOUT, d.items, DataFlowSetBytes(d))
  {
    hide STRUCT_LAYOUT, Encode, DataOnBytes, AllMatch;
    LayoutSize();
    DataSetBytes(STRUCT_LAYOUT, d.items, d.padding);
  }

  // ----- Messages -----

  /** The header of a message: version 10, the length of the whole, time, sequence number and domain. */
  lemma HeaderOnBytes(f: IPFIX)
    requires 16 + |SetsBytes(f)| <= 65535 && f.header.version == 10
    ensures var b, h := MessageBytes(f), f.header;
            && |b| == 16 + |SetsBytes(f)| && b[0] == 0 && b[1] == 10 && GetU16(b, 2) == |b|
            && GetU32(b, 4) == h.exportTime && GetU32(b, 8) == h.sequenceNumber
            && GetU32(b, 12) == h.observationDomainId && b[16..] == SetsBytes(f)
  {
    hide SetsBytes, G.EncodeHeader, HeaderBytes;
    var length, h := 16 + |SetsBytes(f)|, f.header;
    HeaderIs(h.(length := length));
    G.HeaderRead(length, h.exportTime, h.sequenceNumber, h.observationDomainId, SetsBytes(f));
    VersionBytes(MessageBytes(f));
  }

  lemma VersionBytes(b: seq<Byte>)
    requires |b| >= 2 && GetU16(b, 0) == 10
    ensures b[0] == 0 && b[1] == 10
  {
  }

  lemma HeaderIs(h: Header)
    requires h.version == 10
    ensures HeaderBytes(h) == G.EncodeHeader(h.length, h.exportTime, h.sequenceNumber, h.observationDomainId)
  {
  }

  /** The sets of a message: template, options template, data, options data, each if there is one, and no more. */
  lemma GeneratedOnBytes(f: IPFIX)
    requires Generated(f)
    ensures SetsBytes(f)
         == (if f.templateFlowSets == [] then [] else TemplateFlowSetBytes(TEMPLATE_SET))
            + (if f.optionsTemplateFlowSets == [] then [] else OptionsTemplateFlowSetBytes(OPTIONS_TEMPLATE_SET))
            + (if f.dataFlowSets == [] then [] else DataFlowSetBytes(f.dataFlowSets[0]))
            + (if f.optionsDataFlowSets == [] then [] else OptionsDataFlowSetBytes(f.optionsDataFlowSets[0]))
    ensures f.dataFlowSets != [] ==>
              DataOnBytes(STRUCT_LAYOUT, f.dataFlowSets[0].items, DataFlowSetBytes(f.dataFlowSets[0]))
  {
    hide TemplateFlowSetBytes, OptionsTemplateFlowSetBytes, DataFlowSetBytes, OptionsDataFlowSetBytes, Encode;
    hide TEMPLATE_SET, OPTIONS_TEMPLATE_SET, DataOnBytes, GeneratedData;
    SetOrNone(TemplateFlowSetBytes, f.templateFlowSets);
    SetOrNone(OptionsTemplateFlowSetBytes, f.optionsTemplateFlowSets);
    SetOrNone(DataFlowSetBytes, f.dataFlowSets);
    SetOrNone(OptionsDataFlowSetBytes, f.optionsDataFlowSets);
    if f.dataFlowSets != [] {
      assert f.dataFlowSets[0] in f.dataFlowSets;
      DataSetOnBytes(f.dataFlowSets[0]);
    }
  }

  lemma SetOrNone<S>(e: S -> seq<Byte>, sets: seq<S>)
    requires |sets| <= 1
    ensures Encode(e, sets) == if sets == [] then [] else e(sets[0])
  {
    if sets != [] {
      assert sets == [sets[0]];
      EncodeOne(e, sets[0]);
    }
  }

  // ----- The fields of the template -----

  /** How many bytes an information element of this number has (IANA's registry), for those in use. */
  function StandardLength(kind: U16): nat {
    match kind
    case 1 => 4   // octetDeltaCount, in its reduced size
    case 2 => 4   // packetDeltaCount, in its reduced size
    case 4 => 1   // protocolIdentifier
    case 5 => 1   // ipClassOfService
    case 6 => 1   // tcpControlBits, in its reduced size
    case 7 => 2   // sourceTransportPort
    case 8 => 4   // sourceIPv4Address
    case 11 => 2  // destinationTransportPort
    case 12 => 4  // destinationIPv4Address
    case 23 => 4  // postOctetDeltaCount, in its reduced size
    case 24 => 4  // postPacketDeltaCount, in its reduced size
    case 27 => 16 // sourceIPv6Address
    case 28 => 16 // destinationIPv6Address
    case 29 => 1  // sourceIPv6PrefixLength
    case 30 => 1  // destinationIPv6PrefixLength
    case 61 => 1  // flowDirection
    case 136 => 1 // flowEndReason
    case 152 => 8 // flowStartMilliseconds
    case 153 => 8 // flowEndMilliseconds
    case _ => 0
  }

  /** The elements stand in the order of the flow record's fields, each as long as it is. */
  lemma FieldsAreStandard()
    ensures |TEMPLATE_FIELDS| == 19
    ensures seq(19, i requires 0 <= i < 19 => TEMPLATE_FIELDS[i].kind)
         == [1, 23, 2, 24, 8, 12, 27, 28, 29, 30, 7, 11, 4, 6, 152, 153, 61, 5, 136]
    ensures forall i :: 0 <= i < 19 ==> TEMPLATE_FIELDS[i].length == StandardLength(TEMPLATE_FIELDS[i].kind) > 0
  {
  }
}
