/** The bytes of generated NetFlow v9 packets: which value stands where. */
module NetFlowWire {
  import opened Bytes
  import opened Codec
  import opened NetFlowGrammar
  import opened NetFlowExport
  import opened NetFlowGenerated
  import opened FlowRecords

  // ----- Parts of a packet -----

  /** A template set of one template: set 0, template 256, and kind and length of every field. */
  ghost predicate TemplateOnBytes(fields: seq<Field>, b: seq<Byte>) {
    && |b| == 8 + 4 * |fields| && GetU16(b, 0) == 0 && GetU16(b, 2) == |b|
    && GetU16(b, 4) == 256 && GetU16(b, 6) == |fields|
    && forall i :: 0 <= i < |fields| ==>
         GetU16(b, 8 + 4 * i) == fields[i].kind && GetU16(b, 10 + 4 * i) == fields[i].length
  }

  lemma TemplateSetOnBytes(p: Profile, t: TemplateFlowSet)
    requires GeneratedTemplate(p, t)
    ensures TemplateOnBytes(TemplateFields(p), TemplateFlowSetBytes(t))
  {
    hide TemplateFields, Encode, GetU16;
    var fields := TemplateFields(p);
    EncodeOne(TemplateBytes, t.templates[0]);
    FieldsSize(fields);
    var content := TemplateBytes(t.templates[0]) + Zeros(0);
    var b := TemplateFlowSetBytes(t);
    SetHeader(0, t.length, content);
    assert content == PutU16(256) + PutU16(|fields|) + EncodeFields(fields);
    SetHeader(256, |fields|, EncodeFields(fields));
    Dropped(b, 4, 0);
    Dropped(b, 4, 2);
    forall i | 0 <= i < |fields|
      ensures GetU16(b, 8 + 4 * i) == fields[i].kind && GetU16(b, 10 + 4 * i) == fields[i].length
    {
      FieldOfTemplate(fields, i);
      assert b[8..] == b[4..][4..] == EncodeFields(fields);
      Dropped(b, 8, 4 * i);
      Dropped(b, 8, 4 * i + 2);
    }
  }

  lemma FieldOfTemplate(fields: seq<Field>, i: nat)
    requires i < |fields|
    ensures var b := EncodeFields(fields);
            4 * i + 4 <= |b| && GetU16(b, 4 * i) == fields[i].kind && GetU16(b, 4 * i + 2) == fields[i].length
  {
    hide GetU16, Encode;
    var b, f := EncodeFields(fields), EncodeField(fields[i]);
    ItemAt(EncodeField, fields, 4, i);
    FrontTwo(fields[i].kind, fields[i].length, []);
    assert f == PutU16(fields[i].kind) + PutU16(fields[i].length) + [];
    Sliced(b, 4 * i, 4 * i + 4, 0);
    Sliced(b, 4 * i, 4 * i + 4, 2);
  }

  lemma DataSetOnBytes(p: Profile, d: DataFlowSet)
    requires GeneratedData(d) && AllMatch(StructLayout(p), d.items)
    ensures DataOnBytes(StructLayout(p), d.items, DataFlowSetBytes(d))
  {
    hide StructLayout, Encode, DataOnBytes, Matches;
    FlowsSize(StructLayout(p), d.items);
    DataSetBytes(StructLayout(p), d.items, d.padding);
  }

  // ----- Whole packets -----

  /** The header of a packet: version 9 and the six values, each at its place. */
  lemma HeaderOnBytes(n: Netflow)
    ensures var b, h := NetflowBytes(n), n.header;
            && |b| >= 20 && GetU16(b, 0) == h.version && GetU16(b, 2) == h.flowCount && GetU32(b, 4) == h.sysUptime
            && GetU32(b, 8) == h.unixSec && GetU32(b, 12) == h.flowSequence && GetU32(b, 16) == h.sourceId
  {
    hide EncodeHeader, GetU16, GetU32, Encode;
    var rest := Encode(TemplateFlowSetBytes, n.templateFlowSets) + Encode(DataFlowSetBytes, n.dataFlowSets);
    assert NetflowBytes(n) == EncodeHeader(n.header) + rest;
    HeaderRoundTrip(n.header, rest);
  }

  /** Behind the header: the template set if there is one, then the data set if there is one, and no more. */
  lemma GeneratedOnBytes(p: Profile, n: Netflow)
    requires Generated(p, n)
    ensures var b := NetflowBytes(n);
            var data := if n.templateFlowSets == [] then 20 else 28 + 4 * |TemplateFields(p)|;
            && 20 <= data <= |b|
            && (n.templateFlowSets != [] ==> TemplateOnBytes(TemplateFields(p), b[20..data]))
            && (if n.dataFlowSets == [] then |b| == data else DataOnBytes(StructLayout(p), FlowsOf(n), b[data..]))
  {
    hide EncodeHeader, TemplateOnBytes, DataOnBytes, TemplateFields, StructLayout, Encode, AllMatch;
    hide TemplateFlowSetBytes, DataFlowSetBytes, GeneratedTemplate, GeneratedData;
    var ts, ds := n.templateFlowSets, n.dataFlowSets;
    if ts != [] {
      assert ts == [ts[0]];
      TemplateSetOnBytes(p, ts[0]);
      TemplateSize(p, TemplateFlowSetBytes(ts[0]));
      EncodeOne(TemplateFlowSetBytes, ts[0]);
    } else {
      EncodeNone(TemplateFlowSetBytes);
    }
    if ds != [] {
      assert ds == [ds[0]];
      DataSetOnBytes(p, ds[0]);
      EncodeOne(DataFlowSetBytes, ds[0]);
    } else {
      EncodeNone(DataFlowSetBytes);
    }
  }

  lemma TemplateSize(p: Profile, b: seq<Byte>)
    requires TemplateOnBytes(TemplateFields(p), b)
    ensures |b| == 8 + 4 * |TemplateFields(p)|
  {
  }

  lemma EncodeNone<T>(e: T -> seq<Byte>)
    ensures Encode(e, []) == []
  {
  }

  // ----- The fields of the templates -----

  /** How many bytes a field of this kind has (section 8 of RFC 3954), for the kinds in use. */
  function StandardLength(kind: U16): nat {
    match kind
    case 1 => 4   // bytes in
    case 2 => 4   // packets in
    case 4 => 1   // protocol
    case 6 => 1   // TCP flags
    case 7 => 2   // source port
    case 8 => 4   // IPv4 source
    case 11 => 2  // destination port
    case 12 => 4  // IPv4 destination
    case 21 => 4  // last switched
    case 22 => 4  // first switched
    case 23 => 4  // bytes out
    case 24 => 4  // packets out
    case 27 => 16 // IPv6 source
    case 28 => 16 // IPv6 destination
    case 29 => 1  // IPv6 source mask
    case 30 => 1  // IPv6 destination mask
    case 38 => 1  // engine type
    case 39 => 1  // engine ID
    case 52 => 1  // shortest time to live
    case 53 => 1  // longest time to live
    case 56 => 6  // source MAC in
    case 57 => 6  // destination MAC out
    case 58 => 2  // source VLAN
    case 59 => 2  // destination VLAN
    case _ => 0
  }

  function Kinds(fields: seq<Field>): seq<nat> {
    seq(|fields|, i requires 0 <= i < |fields| => fields[i].kind)
  }

  /** The kinds in the order of the flow record's fields: bytes and packets, then addresses, ports and protocol. */
  lemma KindsInOrder(p: Profile)
    ensures Kinds(TemplateFields(p)) ==
            match p
            case Generic => [1, 23, 2, 24, 8, 12, 27, 28, 29, 30, 7, 11, 4, 6, 22, 21, 38, 39]
            case Minimal => [1, 2, 8, 12, 7, 11, 4]
            case Extended => [1, 2, 8, 12, 7, 11, 4, 56, 57, 58, 59, 52, 53, 22, 21]
  {
  }

  /** Every field is as long as its kind is. */
  lemma FieldsAreStandard(p: Profile)
    ensures forall i :: 0 <= i < |TemplateFields(p)| ==>
              TemplateFields(p)[i].length == StandardLength(TemplateFields(p)[i].kind) > 0
  {
  }

  /** No kind is repeated in a template. */
  lemma KindsAreDistinct(p: Profile, i: nat, j: nat)
    requires i < j < |TemplateFields(p)|
    ensures TemplateFields(p)[i].kind != TemplateFields(p)[j].kind
  {
    hide TemplateFields;
    KindsInOrder(p);
    assert Kinds(TemplateFields(p))[i] != Kinds(TemplateFields(p))[j];
  }
}
