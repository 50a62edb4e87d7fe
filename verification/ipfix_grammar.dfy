/**
 The IPFIX message layout (sections 3.1 to 3.4 and 8.1 of RFC 7011): messages, sets, template and
 options template records with 4- or 8-byte field specifiers, withdrawals, and a reader that
 accepts exactly the layouts of well-formed messages.
 */
module IpfixGrammar {
  import opened Wrappers
  import opened Bytes
  import opened Codec

  const VERSION := 10
  const HEADER_SIZE := 16
  const TEMPLATE_SET_ID := 2
  const OPTIONS_SET_ID := 3
  const MIN_TEMPLATE_ID := 256
  const ENTERPRISE_BIT := 0x8000

  /** A field specifier; one with the enterprise bit carries four more bytes. */
  datatype Specifier = Specifier(element: U16, length: U16, enterprise: seq<Byte>)

  datatype Record =
    | Withdrawal(id: U16)
    | Template(id: U16, specifiers: seq<Specifier>)
    | OptionsTemplate(id: U16, scopeCount: U16, specifiers: seq<Specifier>)

  datatype Set =
    | TemplateSet(records: seq<Record>, trailing: seq<Byte>)
    | OptionsTemplateSet(records: seq<Record>, trailing: seq<Byte>)
    | DataSet(id: U16, body: seq<Byte>)

  datatype Message = Message(exportTime: U32, sequence: U32, domain: U32, sets: seq<Set>)

  // ----- Layout -----

  function EncodeSpecifier(s: Specifier): seq<Byte> {
    PutU16(s.element) + PutU16(s.length) + s.enterprise
  }

  function EncodeSpecifiers(ss: seq<Specifier>): seq<Byte> {
    Encode(EncodeSpecifier, ss)
  }

  function EncodeRecord(r: Record): seq<Byte> {
    match r
    case Withdrawal(id) => PutU16(id) + PutU16(0)
    case Template(id, ss) => PutU16(id) + PutU16(|ss|) + EncodeSpecifiers(ss)
    case OptionsTemplate(id, scopeCount, ss) =>
      PutU16(id) + PutU16(|ss|) + PutU16(scopeCount) + EncodeSpecifiers(ss)
  }

  function SetId(s: Set): U16 {
    match s
    case TemplateSet(_, _) => TEMPLATE_SET_ID
    case OptionsTemplateSet(_, _) => OPTIONS_SET_ID
    case DataSet(id, _) => id
  }

  function Content(s: Set): seq<Byte> {
    match s
    case TemplateSet(rs, trailing) => Encode(EncodeRecord, rs) + trailing
    case OptionsTemplateSet(rs, trailing) => Encode(EncodeRecord, rs) + trailing
    case DataSet(_, body) => body
  }

  function EncodeSet(s: Set): seq<Byte> {
    PutU16(SetId(s)) + PutU16(4 + |Content(s)|) + Content(s)
  }

  function HeaderTail(exportTime: U32, sequence: U32, domain: U32): (b: seq<Byte>)
    ensures |b| == 12
  {
    PutU32(exportTime) + (PutU32(sequence) + PutU32(domain))
  }

  function EncodeHeader(length: nat, exportTime: U32, sequence: U32, domain: U32): (b: seq<Byte>)
    ensures |b| == HEADER_SIZE
  {
    PutU16(VERSION) + (PutU16(length) + HeaderTail(exportTime, sequence, domain))
  }

  function EncodeMessage(m: Message): seq<Byte> {
    var sets := Encode(EncodeSet, m.sets);
    EncodeHeader(HEADER_SIZE + |sets|, m.exportTime, m.sequence, m.domain) + sets
  }

  // ----- Well-formedness -----

  ghost predicate WfSpecifier(s: Specifier) {
    |s.enterprise| == if s.element >= ENTERPRISE_BIT then 4 else 0
  }

  ghost predicate WfTemplate(r: Record) {
    && !r.OptionsTemplate? && r.id >= MIN_TEMPLATE_ID
    && (r.Template? ==> 0 < |r.specifiers| <= MAX_U16 && All(WfSpecifier, r.specifiers))
  }

  ghost predicate WfOptions(r: Record) {
    && !r.Template? && r.id >= MIN_TEMPLATE_ID
    && (r.OptionsTemplate? ==>
          0 < r.scopeCount <= |r.specifiers| <= MAX_U16 && All(WfSpecifier, r.specifiers))
  }

  ghost predicate WfContent(s: Set) {
    match s
    case TemplateSet(rs, trailing) => rs != [] && All(WfTemplate, rs) && |trailing| < 4
    case OptionsTemplateSet(rs, trailing) => rs != [] && All(WfOptions, rs) && |trailing| < 4
    case DataSet(id, _) => id >= MIN_TEMPLATE_ID
  }

  ghost predicate WfSet(s: Set) {
    WfContent(s) && 4 + |Content(s)| <= MAX_U16
  }

  ghost predicate WfMessage(m: Message) {
    All(WfSet, m.sets) && HEADER_SIZE + |Encode(EncodeSet, m.sets)| <= MAX_U16
  }

  /** The bytes lay out some well-formed message. */
  ghost predicate Accepted(b: seq<Byte>) {
    exists m :: WfMessage(m) && EncodeMessage(m) == b
  }

  // ----- Reader -----

  ghost function ParseSpecifier(b: seq<Byte>): Parsed<Specifier> {
    if |b| < 4 then Fail
    else
      var size := if GetU16(b, 0) >= ENTERPRISE_BIT then 8 else 4;
      if |b| < size then Fail else Got(Specifier(GetU16(b, 0), GetU16(b, 2), b[4..size]), size)
  }

  ghost function ParseTemplate(b: seq<Byte>): Parsed<Record> {
    if |b| < 4 || GetU16(b, 0) < MIN_TEMPLATE_ID then Fail
    else if GetU16(b, 2) == 0 then Got(Withdrawal(GetU16(b, 0)), 4)
    else
      var r := Times(ParseSpecifier, GetU16(b, 2), b[4..]);
      if r.None? then Fail else Got(Template(GetU16(b, 0), r.value.items), |b| - |r.value.tail|)
  }

  ghost function ParseOptions(b: seq<Byte>): Parsed<Record> {
    if |b| < 4 || GetU16(b, 0) < MIN_TEMPLATE_ID then Fail
    else if GetU16(b, 2) == 0 then Got(Withdrawal(GetU16(b, 0)), 4)
    else if |b| < 6 || GetU16(b, 4) == 0 || GetU16(b, 4) > GetU16(b, 2) then Fail
    else
      var r := Times(ParseSpecifier, GetU16(b, 2), b[6..]);
      if r.None? then Fail
      else Got(OptionsTemplate(GetU16(b, 0), GetU16(b, 4), r.value.items), |b| - |r.value.tail|)
  }

  /** The set with this ID and these bytes after its set header. */
  ghost function ParseContent(id: U16, body: seq<Byte>): Option<Set> {
    if id == TEMPLATE_SET_ID then
      var r := Many(ParseTemplate, 4, body);
      if r.None? || r.value.items == [] then None else Some(TemplateSet(r.value.items, r.value.tail))
    else if id == OPTIONS_SET_ID then
      var r := Many(ParseOptions, 4, body);
      if r.None? || r.value.items == [] then None else Some(OptionsTemplateSet(r.value.items, r.value.tail))
    else if id < MIN_TEMPLATE_ID then None
    else Some(DataSet(id, body))
  }

  ghost function ParseSet(b: seq<Byte>): Parsed<Set> {
    if |b| < 4 || GetU16(b, 2) < 4 || GetU16(b, 2) > |b| then Fail
    else
      var r := ParseContent(GetU16(b, 0), b[4..GetU16(b, 2)]);
      if r.None? then Fail else Got(r.value, GetU16(b, 2))
  }

  ghost function ParseSets(b: seq<Byte>): Option<Items<Set>> {
    Many(ParseSet, 1, b)
  }

  ghost function ParseMessage(b: seq<Byte>): Option<Message> {
    if |b| < HEADER_SIZE || GetU16(b, 0) != VERSION || GetU16(b, 2) != |b| then None
    else
      var r := ParseSets(b[HEADER_SIZE..]);
      if r.None? then None
      else Some(Message(GetU32(b, 4), GetU32(b, 8), GetU32(b, 12), r.value.items))
  }

  // ----- The reader reads back exactly the layouts -----

  lemma SpecifierCodes()
    ensures Codes(ParseSpecifier, EncodeSpecifier, WfSpecifier)
  {
    forall b ensures SoundAt(ParseSpecifier, EncodeSpecifier, WfSpecifier, b) {
      if ParseSpecifier(b).Got? {
        U16Bytes(b, 0);
        U16Bytes(b, 2);
        assert b[..ParseSpecifier(b).size] == b[0..2] + b[2..4] + b[4..ParseSpecifier(b).size];
      }
    }
    forall s, rest ensures CompleteAt(ParseSpecifier, EncodeSpecifier, WfSpecifier, s, rest) {
      var b := EncodeSpecifier(s) + rest;
      assert GetU16(b, 0) == s.element && GetU16(b, 2) == s.length;
      assert WfSpecifier(s) ==> b[4..4 + |s.enterprise|] == s.enterprise;
    }
  }

  lemma SpecifiersSound(n: nat, b: seq<Byte>)
    requires Times(ParseSpecifier, n, b).Some?
    ensures var r := Times(ParseSpecifier, n, b).value;
            EncodeSpecifiers(r.items) == b[..|b| - |r.tail|] && All(WfSpecifier, r.items)
  {
    SpecifierCodes();
    TimesSound(ParseSpecifier, EncodeSpecifier, WfSpecifier, n, b);
    var r := Times(ParseSpecifier, n, b).value;
    assert b == EncodeSpecifiers(r.items) + r.tail;
  }

  lemma SpecifiersComplete(ss: seq<Specifier>, rest: seq<Byte>)
    requires All(WfSpecifier, ss)
    ensures Times(ParseSpecifier, |ss|, EncodeSpecifiers(ss) + rest) == Some(Items(ss, rest))
  {
    SpecifierCodes();
    TimesComplete(ParseSpecifier, EncodeSpecifier, WfSpecifier, ss, rest);
  }

  lemma TemplateSoundAt(b: seq<Byte>)
    ensures SoundAt(ParseTemplate, EncodeRecord, WfTemplate, b)
  {
    if ParseTemplate(b).Got? {
      U16Bytes(b, 0);
      U16Bytes(b, 2);
      assert b[..4] == b[0..2] + b[2..4];
      if GetU16(b, 2) > 0 {
        SpecifiersSound(GetU16(b, 2), b[4..]);
        var size := ParseTemplate(b).size;
        assert b[..size] == b[..4] + b[4..size];
      }
    }
  }

  lemma TemplateRead(id: U16, ss: seq<Specifier>, rest: seq<Byte>)
    requires id >= MIN_TEMPLATE_ID && 0 < |ss| <= MAX_U16 && All(WfSpecifier, ss)
    ensures ParseTemplate(PutU16(id) + PutU16(|ss|) + (EncodeSpecifiers(ss) + rest))
         == Got(Template(id, ss), 4 + |EncodeSpecifiers(ss)|)
  {
    hide GetU16, EncodeSpecifiers, ParseSpecifier, Times, All;
    FrontTwo(id, |ss|, EncodeSpecifiers(ss) + rest);
    SpecifiersComplete(ss, rest);
  }

  lemma WithdrawalRead(id: U16, rest: seq<Byte>)
    requires id >= MIN_TEMPLATE_ID
    ensures ParseTemplate(PutU16(id) + PutU16(0) + rest) == Got(Withdrawal(id), 4)
    ensures ParseOptions(PutU16(id) + PutU16(0) + rest) == Got(Withdrawal(id), 4)
  {
    hide GetU16, Times;
    FrontTwo(id, 0, rest);
  }

  lemma TemplateCompleteAt(t: Record, rest: seq<Byte>)
    ensures CompleteAt(ParseTemplate, EncodeRecord, WfTemplate, t, rest)
  {
    hide GetU16, EncodeSpecifiers, ParseTemplate, ParseOptions, All;
    if WfTemplate(t) {
      if t.Template? {
        var head, body := PutU16(t.id) + PutU16(|t.specifiers|), EncodeSpecifiers(t.specifiers);
        assert head + body + rest == head + (body + rest);
        TemplateRead(t.id, t.specifiers, rest);
      } else {
        WithdrawalRead(t.id, rest);
      }
    }
  }

  lemma TemplateCodes()
    ensures Codes(ParseTemplate, EncodeRecord, WfTemplate)
    ensures forall t :: WfTemplate(t) ==> |EncodeRecord(t)| >= 4
  {
    forall b ensures SoundAt(ParseTemplate, EncodeRecord, WfTemplate, b) {
      TemplateSoundAt(b);
    }
    forall t, rest ensures CompleteAt(ParseTemplate, EncodeRecord, WfTemplate, t, rest) {
      TemplateCompleteAt(t, rest);
    }
  }

  lemma OptionsSoundAt(b: seq<Byte>)
    ensures SoundAt(ParseOptions, EncodeRecord, WfOptions, b)
  {
    if ParseOptions(b).Got? {
      U16Bytes(b, 0);
      U16Bytes(b, 2);
      assert b[..4] == b[0..2] + b[2..4];
      if GetU16(b, 2) > 0 {
        U16Bytes(b, 4);
        SpecifiersSound(GetU16(b, 2), b[6..]);
        var size := ParseOptions(b).size;
        assert b[..size] == b[..4] + b[4..6] + b[6..size];
      }
    }
  }

  lemma OptionsRead(id: U16, scopeCount: U16, ss: seq<Specifier>, rest: seq<Byte>)
    requires id >= MIN_TEMPLATE_ID && 0 < scopeCount <= |ss| <= MAX_U16 && All(WfSpecifier, ss)
    ensures var head := PutU16(id) + PutU16(|ss|) + PutU16(scopeCount);
            ParseOptions(head + (EncodeSpecifiers(ss) + rest))
            == Got(OptionsTemplate(id, scopeCount, ss), 6 + |EncodeSpecifiers(ss)|)
  {
    hide GetU16, PutU16, EncodeSpecifiers, ParseSpecifier, Times, All;
    FrontThree(id, |ss|, scopeCount, EncodeSpecifiers(ss) + rest);
    SpecifiersComplete(ss, rest);
    assert |PutU16(id) + PutU16(|ss|) + PutU16(scopeCount)| == 6 by {
      HeadSize(id, |ss|, scopeCount);
    }
  }

  lemma HeadSize(x: U16, y: U16, z: U16)
    ensures |PutU16(x) + PutU16(y) + PutU16(z)| == 6
  {
  }

  lemma OptionsCompleteAt(o: Record, rest: seq<Byte>)
    ensures CompleteAt(ParseOptions, EncodeRecord, WfOptions, o, rest)
  {
    hide GetU16, EncodeSpecifiers, ParseOptions, All;
    if WfOptions(o) {
      if o.OptionsTemplate? {
        var head := PutU16(o.id) + PutU16(|o.specifiers|) + PutU16(o.scopeCount);
        var body := EncodeSpecifiers(o.specifiers);
        assert head + body + rest == head + (body + rest);
        OptionsRead(o.id, o.scopeCount, o.specifiers, rest);
      } else {
        WithdrawalRead(o.id, rest);
      }
    }
  }

  lemma OptionsCodes()
    ensures Codes(ParseOptions, EncodeRecord, WfOptions)
    ensures forall o :: WfOptions(o) ==> |EncodeRecord(o)| >= 4
  {
    forall b ensures SoundAt(ParseOptions, EncodeRecord, WfOptions, b) {
      OptionsSoundAt(b);
    }
    forall o, rest ensures CompleteAt(ParseOptions, EncodeRecord, WfOptions, o, rest) {
      OptionsCompleteAt(o, rest);
    }
  }

  lemma ContentSound(id: U16, body: seq<Byte>)
    requires ParseContent(id, body).Some?
    ensures var s := ParseContent(id, body).value;
            WfContent(s) && SetId(s) == id && Content(s) == body
  {
    if id == TEMPLATE_SET_ID {
      TemplateCodes();
      ManySound(ParseTemplate, EncodeRecord, WfTemplate, 4, body);
    } else if id == OPTIONS_SET_ID {
      OptionsCodes();
      ManySound(ParseOptions, EncodeRecord, WfOptions, 4, body);
    }
  }

  lemma ContentComplete(s: Set)
    requires WfContent(s)
    ensures ParseContent(SetId(s), Content(s)) == Some(s)
  {
    match s
    case TemplateSet(rs, trailing) =>
      TemplateCodes();
      ManyComplete(ParseTemplate, EncodeRecord, WfTemplate, 4, rs, trailing);
    case OptionsTemplateSet(rs, trailing) =>
      OptionsCodes();
      ManyComplete(ParseOptions, EncodeRecord, WfOptions, 4, rs, trailing);
    case DataSet(_, _) =>
  }

  lemma SetSoundAt(b: seq<Byte>)
    ensures SoundAt(ParseSet, EncodeSet, WfSet, b)
  {
    if ParseSet(b).Got? {
      var n := GetU16(b, 2);
      ContentSound(GetU16(b, 0), b[4..n]);
      U16Bytes(b, 0);
      U16Bytes(b, 2);
      assert b[..n] == b[0..2] + b[2..4] + b[4..n];
    }
  }

  lemma SetCompleteAt(s: Set, rest: seq<Byte>)
    ensures CompleteAt(ParseSet, EncodeSet, WfSet, s, rest)
  {
    hide GetU16, ParseContent, Content, SetId, WfContent;
    if WfSet(s) {
      SetHeaderRead(SetId(s), Content(s), rest);
      ContentComplete(s);
    }
  }

  lemma SetCodes()
    ensures Codes(ParseSet, EncodeSet, WfSet)
    ensures forall s :: WfSet(s) ==> |EncodeSet(s)| >= 1
  {
    forall b ensures SoundAt(ParseSet, EncodeSet, WfSet, b) {
      SetSoundAt(b);
    }
    forall s, rest ensures CompleteAt(ParseSet, EncodeSet, WfSet, s, rest) {
      SetCompleteAt(s, rest);
    }
  }

  lemma HeaderTailRead(exportTime: U32, sequence: U32, domain: U32)
    ensures var b := HeaderTail(exportTime, sequence, domain);
            GetU32(b, 0) == exportTime && GetU32(b, 4) == sequence && GetU32(b, 8) == domain
  {
    var rest := PutU32(sequence) + PutU32(domain);
    PairU32(sequence, domain);
    FrontU32(exportTime, rest);
    Dropped(PutU32(exportTime) + rest, 4, 0);
    Dropped(PutU32(exportTime) + rest, 4, 4);
  }

  lemma HeaderRead(length: nat, exportTime: U32, sequence: U32, domain: U32, rest: seq<Byte>)
    requires length <= MAX_U16
    ensures var b := EncodeHeader(length, exportTime, sequence, domain) + rest;
            && GetU16(b, 0) == VERSION && GetU16(b, 2) == length
            && GetU32(b, 4) == exportTime && GetU32(b, 8) == sequence && GetU32(b, 12) == domain
  {
    var tail := HeaderTail(exportTime, sequence, domain);
    var b := EncodeHeader(length, exportTime, sequence, domain);
    HeaderTailRead(exportTime, sequence, domain);
    FrontU16(VERSION, PutU16(length) + tail);
    FrontU16(length, tail);
    Dropped(b, 2, 0);
    assert b[4..] == tail;
    forall i | i in {4, 8, 12} ensures GetU32(b + rest, i) == GetU32(tail, i - 4) {
      Dropped(b, 4, i - 4);
      Kept(b, rest, i);
    }
    Kept(b, rest, 0);
    Kept(b, rest, 2);
  }

  lemma HeaderBytes(b: seq<Byte>)
    requires |b| >= HEADER_SIZE && GetU16(b, 0) == VERSION
    ensures EncodeHeader(GetU16(b, 2), GetU32(b, 4), GetU32(b, 8), GetU32(b, 12)) == b[..HEADER_SIZE]
  {
    U16Bytes(b, 0);
    U16Bytes(b, 2);
    U32Bytes(b, 4);
    U32Bytes(b, 8);
    U32Bytes(b, 12);
  }

  lemma ReaderSound(b: seq<Byte>)
    requires ParseMessage(b).Some?
    ensures var m := ParseMessage(b).value; WfMessage(m) && EncodeMessage(m) == b
  {
    hide EncodeHeader, GetU16, GetU32, EncodeSet;
    SetCodes();
    ManySound(ParseSet, EncodeSet, WfSet, 1, b[HEADER_SIZE..]);
    HeaderBytes(b);
    assert b == b[..HEADER_SIZE] + b[HEADER_SIZE..];
  }

  lemma ReaderComplete(m: Message)
    requires WfMessage(m)
    ensures ParseMessage(EncodeMessage(m)) == Some(m)
  {
    hide EncodeHeader, GetU16, GetU32, EncodeSet, Many;
    var sets, b := Encode(EncodeSet, m.sets), EncodeMessage(m);
    assert b[HEADER_SIZE..] == sets == sets + [];
    SetCodes();
    ManyComplete(ParseSet, EncodeSet, WfSet, 1, m.sets, []);
    HeaderRead(HEADER_SIZE + |sets|, m.exportTime, m.sequence, m.domain, sets);
  }

  /** The reader and the layout undo each other; a byte string lays out at most one message. */
  lemma ReaderIsGrammar(b: seq<Byte>, m: Message)
    ensures ParseMessage(b) == Some(m) <==> WfMessage(m) && EncodeMessage(m) == b
  {
    hide ParseMessage, EncodeMessage, WfMessage;
    if ParseMessage(b) == Some(m) {
      ReaderSound(b);
    }
    if WfMessage(m) && EncodeMessage(m) == b {
      ReaderComplete(m);
    }
  }

  /** Acceptance is having a reading. */
  lemma OneReading(b: seq<Byte>)
    ensures Accepted(b) <==> ParseMessage(b).Some?
  {
    if ParseMessage(b).Some? {
      ReaderIsGrammar(b, ParseMessage(b).value);
    }
    forall m | WfMessage(m) && EncodeMessage(m) == b ensures ParseMessage(b) == Some(m) {
      ReaderIsGrammar(b, m);
    }
  }

  /** Two well-formed messages with the same bytes are the same message. */
  lemma SplitIsUnique(m: Message, n: Message)
    requires WfMessage(m) && WfMessage(n) && EncodeMessage(m) == EncodeMessage(n)
    ensures m == n
  {
    ReaderIsGrammar(EncodeMessage(m), m);
    ReaderIsGrammar(EncodeMessage(m), n);
  }
}
