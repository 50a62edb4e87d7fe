/**
 The NetFlow v9 packet layout (sections 5.1 to 5.3 and 6.1 of RFC 3954): what a packet is,
 how it is laid out in bytes, and a reader that recovers it. The reader accepts exactly the
 layouts of well-formed packets, so a byte string has at most one reading.
 */
module NetFlowGrammar {
  import opened Wrappers
  import opened Bytes
  import opened Codec

  const HEADER_SIZE := 20
  const TEMPLATE_SET_ID := 0
  const OPTIONS_SET_ID := 1
  const MIN_TEMPLATE_ID := 256

  datatype Field = Field(kind: U16, length: U16)

  datatype TemplateRecord = TemplateRecord(id: U16, fields: seq<Field>)

  datatype OptionsRecord = OptionsRecord(id: U16, scopes: seq<Field>, options: seq<Field>)

  datatype FlowSet =
    | Templates(templates: seq<TemplateRecord>, padding: nat)
    | OptionsTemplates(optionsTemplates: seq<OptionsRecord>, padding: nat)
    | Data(id: U16, body: seq<Byte>)

  datatype Header = Header(version: U16, flowCount: U16, sysUptime: U32, unixSec: U32,
                           flowSequence: U32, sourceId: U32)

  datatype Packet = Packet(header: Header, flowSets: seq<FlowSet>)

  // ----- Layout -----

  function EncodeField(f: Field): seq<Byte> {
    PutU16(f.kind) + PutU16(f.length)
  }

  function EncodeFields(fs: seq<Field>): seq<Byte> {
    Encode(EncodeField, fs)
  }

  function EncodeTemplate(t: TemplateRecord): seq<Byte> {
    PutU16(t.id) + PutU16(|t.fields|) + EncodeFields(t.fields)
  }

  function EncodeOptions(o: OptionsRecord): seq<Byte> {
    PutU16(o.id) + PutU16(4 * |o.scopes|) + PutU16(4 * |o.options|)
    + EncodeFields(o.scopes + o.options)
  }

  function SetId(s: FlowSet): U16 {
    match s
    case Templates(_, _) => TEMPLATE_SET_ID
    case OptionsTemplates(_, _) => OPTIONS_SET_ID
    case Data(id, _) => id
  }

  function Content(s: FlowSet): seq<Byte> {
    match s
    case Templates(ts, padding) => Encode(EncodeTemplate, ts) + Zeros(padding)
    case OptionsTemplates(os, padding) => Encode(EncodeOptions, os) + Zeros(padding)
    case Data(_, body) => body
  }

  function EncodeFlowSet(s: FlowSet): seq<Byte> {
    PutU16(SetId(s)) + PutU16(4 + |Content(s)|) + Content(s)
  }

  function HeaderTail(h: Header): (b: seq<Byte>)
    ensures |b| == 16
  {
    (PutU32(h.sysUptime) + PutU32(h.unixSec)) + (PutU32(h.flowSequence) + PutU32(h.sourceId))
  }

  function EncodeHeader(h: Header): (b: seq<Byte>)
    ensures |b| == HEADER_SIZE
  {
    PutU16(h.version) + (PutU16(h.flowCount) + HeaderTail(h))
  }

  function EncodePacket(p: Packet): seq<Byte> {
    EncodeHeader(p.header) + Encode(EncodeFlowSet, p.flowSets)
  }

  // ----- Well-formedness -----

  ghost predicate WfField(f: Field) {
    f.length > 0
  }

  ghost predicate WfTemplate(t: TemplateRecord) {
    t.id >= MIN_TEMPLATE_ID && |t.fields| <= MAX_U16 && All(WfField, t.fields)
  }

  ghost predicate WfOptions(o: OptionsRecord) {
    && o.id >= MIN_TEMPLATE_ID
    && 4 * |o.scopes| <= MAX_U16 && 4 * |o.options| <= MAX_U16
    && All(WfField, o.scopes) && All(WfField, o.options)
  }

  ghost predicate WfContent(s: FlowSet) {
    match s
    case Templates(ts, padding) => ts != [] && All(WfTemplate, ts) && padding < 4
    case OptionsTemplates(os, padding) => os != [] && All(WfOptions, os) && padding < 6
    case Data(id, body) => id >= MIN_TEMPLATE_ID && body != []
  }

  ghost predicate WfFlowSet(s: FlowSet) {
    WfContent(s) && 4 + |Content(s)| <= MAX_U16
  }

  ghost predicate WfPacket(p: Packet) {
    All(WfFlowSet, p.flowSets)
  }

  // ----- Reader -----

  ghost function ParseField(b: seq<Byte>): Parsed<Field> {
    if |b| < 4 || GetU16(b, 2) == 0 then Fail else Got(Field(GetU16(b, 0), GetU16(b, 2)), 4)
  }

  ghost function ParseTemplate(b: seq<Byte>): Parsed<TemplateRecord> {
    if |b| < 4 || GetU16(b, 0) < MIN_TEMPLATE_ID then Fail
    else
      var r := Times(ParseField, GetU16(b, 2), b[4..]);
      if r.None? then Fail
      else Got(TemplateRecord(GetU16(b, 0), r.value.items), 4 + 4 * GetU16(b, 2))
  }

  ghost function ParseOptions(b: seq<Byte>): Parsed<OptionsRecord> {
    if |b| < 6 || GetU16(b, 0) < MIN_TEMPLATE_ID || GetU16(b, 2) % 4 != 0 || GetU16(b, 4) % 4 != 0
    then Fail
    else
      var n, m := GetU16(b, 2) / 4, GetU16(b, 4) / 4;
      var r := Times(ParseField, n + m, b[6..]);
      if r.None? then Fail
      else Got(OptionsRecord(GetU16(b, 0), r.value.items[..n], r.value.items[n..]), 6 + 4 * (n + m))
  }

  /** The set with this ID and these bytes after its set header. */
  ghost function ParseContent(id: U16, body: seq<Byte>): Option<FlowSet> {
    if id == TEMPLATE_SET_ID then
      var r := Many(ParseTemplate, 4, body);
      if r.None? || r.value.items == [] || !AllZero(r.value.tail) then None
      else Some(Templates(r.value.items, |r.value.tail|))
    else if id == OPTIONS_SET_ID then
      var r := Many(ParseOptions, 6, body);
      if r.None? || r.value.items == [] || !AllZero(r.value.tail) then None
      else Some(OptionsTemplates(r.value.items, |r.value.tail|))
    else if id < MIN_TEMPLATE_ID || body == [] then None
    else Some(Data(id, body))
  }

  ghost function ParseFlowSet(b: seq<Byte>): Parsed<FlowSet> {
    if |b| < 4 || GetU16(b, 2) < 4 || GetU16(b, 2) > |b| then Fail
    else
      var r := ParseContent(GetU16(b, 0), b[4..GetU16(b, 2)]);
      if r.None? then Fail else Got(r.value, GetU16(b, 2))
  }

  function ParseHeader(b: seq<Byte>): Header
    requires |b| >= HEADER_SIZE
  {
    Header(GetU16(b, 0), GetU16(b, 2), GetU32(b, 4), GetU32(b, 8), GetU32(b, 12), GetU32(b, 16))
  }

  ghost function ParseFlowSets(b: seq<Byte>): Option<Items<FlowSet>> {
    Many(ParseFlowSet, 1, b)
  }

  ghost function ParsePacket(b: seq<Byte>): Option<Packet> {
    if |b| < HEADER_SIZE then None
    else
      var r := ParseFlowSets(b[HEADER_SIZE..]);
      if r.None? then None else Some(Packet(ParseHeader(b), r.value.items))
  }

  // ----- The reader reads back exactly the layouts -----

  lemma FieldCodes()
    ensures Codes(ParseField, EncodeField, WfField)
  {
    forall b ensures SoundAt(ParseField, EncodeField, WfField, b) {
      if ParseField(b).Got? {
        U16Bytes(b, 0);
        U16Bytes(b, 2);
      }
    }
    forall f, rest ensures CompleteAt(ParseField, EncodeField, WfField, f, rest) {
      var b := EncodeField(f) + rest;
      assert GetU16(b, 0) == f.kind && GetU16(b, 2) == f.length;
    }
  }

  lemma {:induction false} FieldsSize(fs: seq<Field>)
    ensures |EncodeFields(fs)| == 4 * |fs|
  {
    if fs == [] {
    } else {
      FieldsSize(fs[1..]);
    }
  }

  lemma FieldListSound(n: nat, b: seq<Byte>)
    requires Times(ParseField, n, b).Some?
    ensures 4 * n <= |b|
    ensures var r := Times(ParseField, n, b).value;
            EncodeFields(r.items) == b[..4 * n] && All(WfField, r.items) && r.tail == b[4 * n..]
  {
    FieldCodes();
    TimesSound(ParseField, EncodeField, WfField, n, b);
    FieldsSize(Times(ParseField, n, b).value.items);
  }

  lemma FieldListComplete(fs: seq<Field>, rest: seq<Byte>)
    requires All(WfField, fs)
    ensures Times(ParseField, |fs|, EncodeFields(fs) + rest) == Some(Items(fs, rest))
    ensures |EncodeFields(fs)| == 4 * |fs|
  {
    FieldCodes();
    TimesComplete(ParseField, EncodeField, WfField, fs, rest);
    FieldsSize(fs);
  }

  lemma TemplateSoundAt(b: seq<Byte>)
    ensures SoundAt(ParseTemplate, EncodeTemplate, WfTemplate, b)
  {
    if ParseTemplate(b).Got? {
      FieldListSound(GetU16(b, 2), b[4..]);
      U16Bytes(b, 0);
      U16Bytes(b, 2);
      var t := ParseTemplate(b).item;
      assert EncodeTemplate(t) == b[0..2] + b[2..4] + b[4..ParseTemplate(b).size];
    }
  }

  lemma TemplateCompleteAt(t: TemplateRecord, rest: seq<Byte>)
    ensures CompleteAt(ParseTemplate, EncodeTemplate, WfTemplate, t, rest)
  {
    hide GetU16, EncodeFields, ParseField, Times, All;
    if WfTemplate(t) {
      var head, body := PutU16(t.id) + PutU16(|t.fields|), EncodeFields(t.fields);
      assert head + body + rest == head + (body + rest);
      FrontTwo(t.id, |t.fields|, body + rest);
      FieldListComplete(t.fields, rest);
    }
  }

  lemma TemplateCodes()
    ensures Codes(ParseTemplate, EncodeTemplate, WfTemplate)
    ensures forall t :: WfTemplate(t) ==> |EncodeTemplate(t)| >= 4
  {
    forall b ensures SoundAt(ParseTemplate, EncodeTemplate, WfTemplate, b) {
      TemplateSoundAt(b);
    }
    forall t, rest ensures CompleteAt(ParseTemplate, EncodeTemplate, WfTemplate, t, rest) {
      TemplateCompleteAt(t, rest);
    }
  }

  lemma OptionsSoundAt(b: seq<Byte>)
    ensures SoundAt(ParseOptions, EncodeOptions, WfOptions, b)
  {
    hide GetU16, WfField, EncodeOptions, EncodeFields, All, Times, ParseField;
    if ParseOptions(b).Got? {
      var n, m := GetU16(b, 2) / 4, GetU16(b, 4) / 4;
      assert GetU16(b, 2) == 4 * n && GetU16(b, 4) == 4 * m;
      FieldListSound(n + m, b[6..]);
      var fields := Times(ParseField, n + m, b[6..]).value.items;
      TimesCount(ParseField, n + m, b[6..]);
      OptionsBytes(b, n, m, fields);
      AllSplit(WfField, fields, n);
    }
  }

  lemma OptionsBytes(b: seq<Byte>, n: nat, m: nat, fields: seq<Field>)
    requires |b| >= 6 + 4 * (n + m) && |fields| == n + m
    requires GetU16(b, 2) == 4 * n && GetU16(b, 4) == 4 * m
    requires EncodeFields(fields) == b[6..][..4 * (n + m)]
    ensures EncodeOptions(OptionsRecord(GetU16(b, 0), fields[..n], fields[n..])) == b[..6 + 4 * (n + m)]
  {
    assert fields[..n] + fields[n..] == fields;
    U16Bytes(b, 0);
    U16Bytes(b, 2);
    U16Bytes(b, 4);
  }

  lemma OptionsRead(b: seq<Byte>, n: nat, fields: seq<Field>, rest: seq<Byte>)
    requires |b| >= 6 && GetU16(b, 0) >= MIN_TEMPLATE_ID
    requires n <= |fields| && All(WfField, fields)
    requires GetU16(b, 2) == 4 * n && GetU16(b, 4) == 4 * (|fields| - n)
    requires b[6..] == EncodeFields(fields) + rest
    ensures ParseOptions(b)
         == Got(OptionsRecord(GetU16(b, 0), fields[..n], fields[n..]), 6 + |EncodeFields(fields)|)
  {
    var m := |fields| - n;
    assert GetU16(b, 2) / 4 == n && GetU16(b, 4) / 4 == m;
    assert GetU16(b, 2) % 4 == 0 && GetU16(b, 4) % 4 == 0;
    FieldListComplete(fields, rest);
    assert Times(ParseField, n + m, b[6..]) == Some(Items(fields, rest));
  }

  lemma OptionsCompleteAt(o: OptionsRecord, rest: seq<Byte>)
    ensures CompleteAt(ParseOptions, EncodeOptions, WfOptions, o, rest)
  {
    hide GetU16, EncodeFields, ParseOptions, All;
    if WfOptions(o) {
      var fields := o.scopes + o.options;
      var head := PutU16(o.id) + PutU16(4 * |o.scopes|) + PutU16(4 * |o.options|);
      var tail := EncodeFields(fields) + rest;
      assert EncodeOptions(o) + rest == head + tail;
      FrontThree(o.id, 4 * |o.scopes|, 4 * |o.options|, tail);
      assert fields[..|o.scopes|] == o.scopes && fields[|o.scopes|..] == o.options;
      AllConcat(WfField, o.scopes, o.options);
      OptionsRead(head + tail, |o.scopes|, fields, rest);
    }
  }

  lemma OptionsCodes()
    ensures Codes(ParseOptions, EncodeOptions, WfOptions)
    ensures forall o :: WfOptions(o) ==> |EncodeOptions(o)| >= 6
  {
    forall b ensures SoundAt(ParseOptions, EncodeOptions, WfOptions, b) {
      OptionsSoundAt(b);
    }
    forall o, rest ensures CompleteAt(ParseOptions, EncodeOptions, WfOptions, o, rest) {
      OptionsCompleteAt(o, rest);
    }
  }

  lemma AllZeroIsZeros(b: seq<Byte>)
    requires AllZero(b)
    ensures b == Zeros(|b|)
  {
  }

  lemma ContentSound(id: U16, body: seq<Byte>)
    requires ParseContent(id, body).Some?
    ensures var s := ParseContent(id, body).value;
            WfContent(s) && SetId(s) == id && Content(s) == body
  {
    if id == TEMPLATE_SET_ID {
      TemplateCodes();
      ManySound(ParseTemplate, EncodeTemplate, WfTemplate, 4, body);
      AllZeroIsZeros(Many(ParseTemplate, 4, body).value.tail);
    } else if id == OPTIONS_SET_ID {
      OptionsCodes();
      ManySound(ParseOptions, EncodeOptions, WfOptions, 6, body);
      AllZeroIsZeros(Many(ParseOptions, 6, body).value.tail);
    }
  }

  lemma ContentComplete(s: FlowSet)
    requires WfContent(s)
    ensures ParseContent(SetId(s), Content(s)) == Some(s)
  {
    match s
    case Templates(ts, padding) =>
      TemplateCodes();
      ManyComplete(ParseTemplate, EncodeTemplate, WfTemplate, 4, ts, Zeros(padding));
    case OptionsTemplates(os, padding) =>
      OptionsCodes();
      ManyComplete(ParseOptions, EncodeOptions, WfOptions, 6, os, Zeros(padding));
    case Data(_, _) =>
  }

  lemma FlowSetSoundAt(b: seq<Byte>)
    ensures SoundAt(ParseFlowSet, EncodeFlowSet, WfFlowSet, b)
  {
    if ParseFlowSet(b).Got? {
      var n := GetU16(b, 2);
      ContentSound(GetU16(b, 0), b[4..n]);
      U16Bytes(b, 0);
      U16Bytes(b, 2);
      assert b[..n] == b[0..2] + b[2..4] + b[4..n];
    }
  }

  lemma FlowSetCompleteAt(s: FlowSet, rest: seq<Byte>)
    ensures CompleteAt(ParseFlowSet, EncodeFlowSet, WfFlowSet, s, rest)
  {
    hide GetU16, ParseContent, Content, SetId, WfContent;
    if WfFlowSet(s) {
      SetHeaderRead(SetId(s), Content(s), rest);
      ContentComplete(s);
    }
  }

  lemma FlowSetCodes()
    ensures Codes(ParseFlowSet, EncodeFlowSet, WfFlowSet)
    ensures forall s :: WfFlowSet(s) ==> |EncodeFlowSet(s)| >= 1
  {
    forall b ensures SoundAt(ParseFlowSet, EncodeFlowSet, WfFlowSet, b) {
      FlowSetSoundAt(b);
    }
    forall s, rest ensures CompleteAt(ParseFlowSet, EncodeFlowSet, WfFlowSet, s, rest) {
      FlowSetCompleteAt(s, rest);
    }
  }

  lemma HeaderTailRead(h: Header)
    ensures var b := HeaderTail(h);
            && GetU32(b, 0) == h.sysUptime && GetU32(b, 4) == h.unixSec
            && GetU32(b, 8) == h.flowSequence && GetU32(b, 12) == h.sourceId
  {
    var first := PutU32(h.sysUptime) + PutU32(h.unixSec);
    var second := PutU32(h.flowSequence) + PutU32(h.sourceId);
    PairU32(h.sysUptime, h.unixSec);
    PairU32(h.flowSequence, h.sourceId);
    Kept(first, second, 0);
    Kept(first, second, 4);
    assert (first + second)[8..] == second;
    Dropped(first + second, 8, 0);
    Dropped(first + second, 8, 4);
  }

  lemma HeaderRoundTrip(h: Header, rest: seq<Byte>)
    ensures ParseHeader(EncodeHeader(h) + rest) == h
  {
    var b := EncodeHeader(h);
    HeaderTailRead(h);
    FrontU16(h.version, PutU16(h.flowCount) + HeaderTail(h));
    FrontU16(h.flowCount, HeaderTail(h));
    Dropped(b, 2, 0);
    assert b[4..] == HeaderTail(h);
    forall i | i in {4, 8, 12, 16} ensures GetU32(b + rest, i) == GetU32(HeaderTail(h), i - 4) {
      Dropped(b, 4, i - 4);
      Kept(b, rest, i);
    }
    Kept(b, rest, 0);
    Kept(b, rest, 2);
  }

  lemma HeaderBytes(b: seq<Byte>)
    requires |b| >= HEADER_SIZE
    ensures EncodeHeader(ParseHeader(b)) == b[..HEADER_SIZE]
  {
    U16Bytes(b, 0);
    U16Bytes(b, 2);
    U32Bytes(b, 4);
    U32Bytes(b, 8);
    U32Bytes(b, 12);
    U32Bytes(b, 16);
  }

  lemma ReaderSound(b: seq<Byte>)
    requires ParsePacket(b).Some?
    ensures var p := ParsePacket(b).value; WfPacket(p) && EncodePacket(p) == b
  {
    hide EncodeHeader, ParseHeader, EncodeFlowSet, ParseFlowSet, WfFlowSet, Many, Encode;
    FlowSetCodes();
    ManySound(ParseFlowSet, EncodeFlowSet, WfFlowSet, 1, b[HEADER_SIZE..]);
    HeaderBytes(b);
    assert b == b[..HEADER_SIZE] + b[HEADER_SIZE..];
  }

  lemma ReaderComplete(p: Packet)
    requires WfPacket(p)
    ensures ParsePacket(EncodePacket(p)) == Some(p)
  {
    hide EncodeHeader, ParseHeader, EncodeFlowSet, Many;
    var sets, b := Encode(EncodeFlowSet, p.flowSets), EncodePacket(p);
    assert b[HEADER_SIZE..] == sets == sets + [];
    FlowSetCodes();
    ManyComplete(ParseFlowSet, EncodeFlowSet, WfFlowSet, 1, p.flowSets, []);
    HeaderRoundTrip(p.header, sets);
  }

  /** The reader and the layout undo each other: b reads as p exactly when p is well formed and laid out as b. */
  lemma ReaderIsGrammar(b: seq<Byte>, p: Packet)
    ensures ParsePacket(b) == Some(p) <==> WfPacket(p) && EncodePacket(p) == b
  {
    hide ParsePacket, EncodePacket, WfPacket;
    if ParsePacket(b) == Some(p) {
      ReaderSound(b);
    }
    if WfPacket(p) && EncodePacket(p) == b {
      ReaderComplete(p);
    }
  }
}
