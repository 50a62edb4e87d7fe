/** The IPFIX validator as the program runs it, and the timestamp refresh. */
module IpfixValidator {
  import opened Wrappers
  import opened Bytes
  import opened Codec
  import opened IpfixGrammar

  /** The size of the field specifier at an offset: 8 when its first two bytes have the top bit set. */
  function FieldSpecifierSize(payload: seq<Byte>, offset: nat): nat {
    if offset + 4 > |payload| then 4
    else if GetU16(payload, offset) >= ENTERPRISE_BIT then 8
    else 4
  }

  /** What the reader makes of the specifier at an offset. */
  lemma SpecifierParts(payload: seq<Byte>, at: nat, end: nat)
    requires at <= end <= |payload|
    ensures var size := FieldSpecifierSize(payload, at);
            var r := ParseSpecifier(payload[at..end]);
            if at + 4 > end || at + size > end then r.Fail? else r.Got? && r.size == size
  {
    if at + 4 <= end {
      Sliced(payload, at, end, 0);
    }
  }

  /** Walks `fieldCount` specifiers of a record; `consumed` counts the bytes up to their end. */
  method WalkSpecifiers(payload: seq<Byte>, setOffset: nat, remaining: nat, head: nat, fieldCount: nat,
                        ghost whole: Option<Items<Specifier>>)
    returns (ok: bool, consumed: nat)
    requires head <= remaining && setOffset + remaining <= |payload|
    requires whole == Times(ParseSpecifier, fieldCount, payload[setOffset + head..setOffset + remaining])
    ensures ok == whole.Some?
    ensures ok ==> head <= consumed <= remaining && |whole.value.tail| == remaining - consumed
  {
    hide Times, ParseSpecifier, FieldSpecifierSize;
    consumed, ok := head, false;
    var i := 0;
    ghost var done: seq<Specifier>, at, left, end := [], setOffset + head, fieldCount, setOffset + remaining;
    while i < fieldCount
      invariant 0 <= i <= fieldCount && left == fieldCount - i
      invariant head <= consumed <= remaining && at == setOffset + consumed
      invariant Continues(whole, done, Times(ParseSpecifier, left, payload[at..end]))
    {
      SpecifierParts(payload, at, end);
      var specSize := FieldSpecifierSize(payload, setOffset + consumed);
      if consumed + 4 > remaining || consumed + specSize > remaining {
        TimesRefused(ParseSpecifier, left, payload[at..end], whole, done);
        return;
      }
      ghost var x, next := ParseSpecifier(payload[at..end]).item, at + specSize;
      TimesNext(ParseSpecifier, left, payload, at, next, end, x, whole, done);
      done, at, left := done + [x], next, left - 1;
      consumed := consumed + specSize;
      i := i + 1;
    }
    TimesEnd(whole, done, ParseSpecifier, payload[at..end]);
    ok := true;
  }

  /** One template record: how many bytes it takes, or that it is none. */
  method ValidateTemplateRecord(payload: seq<Byte>, setOffset: nat, remaining: nat)
    returns (consumed: nat, err: Option<string>)
    requires setOffset + remaining <= |payload|
    ensures var r := ParseTemplate(payload[setOffset..setOffset + remaining]);
            if err.Some? then r.Fail? else r.Got? && r.size == consumed && 4 <= consumed <= remaining
  {
    hide Times;
    ghost var end := setOffset + remaining;
    if remaining < 4 {
      return 0, Some("insufficient data for Template record header");
    }
    var templateID := GetU16(payload, setOffset);
    var fieldCount := GetU16(payload, setOffset + 2);
    Sliced(payload, setOffset, end, 0);
    Sliced(payload, setOffset, end, 2);
    if templateID < 256 {
      return 0, Some("Template ID is below 256");
    }
    if fieldCount == 0 {
      return 4, None;
    }
    ghost var whole := Times(ParseSpecifier, fieldCount, payload[setOffset + 4..end]);
    assert payload[setOffset..end][4..] == payload[setOffset + 4..end];
    var ok;
    ok, consumed := WalkSpecifiers(payload, setOffset, remaining, 4, fieldCount, whole);
    if !ok {
      return 0, Some("insufficient data for field specifier");
    }
    return consumed, None;
  }

  /** One options template record: how many bytes it takes, or that it is none. */
  method ValidateOptionsTemplateRecord(payload: seq<Byte>, setOffset: nat, remaining: nat)
    returns (consumed: nat, err: Option<string>)
    requires setOffset + remaining <= |payload|
    ensures var r := ParseOptions(payload[setOffset..setOffset + remaining]);
            if err.Some? then r.Fail? else r.Got? && r.size == consumed && 4 <= consumed <= remaining
  {
    hide Times;
    ghost var end := setOffset + remaining;
    if remaining < 4 {
      return 0, Some("insufficient data for Options Template record header");
    }
    var templateID := GetU16(payload, setOffset);
    var fieldCount := GetU16(payload, setOffset + 2);
    Sliced(payload, setOffset, end, 0);
    Sliced(payload, setOffset, end, 2);
    if templateID < 256 {
      return 0, Some("Options Template ID is below 256");
    }
    if fieldCount == 0 {
      return 4, None;
    }
    if remaining < 6 {
      return 0, Some("insufficient data for Scope Field Count");
    }
    var scopeFieldCount := GetU16(payload, setOffset + 4);
    Sliced(payload, setOffset, end, 4);
    if scopeFieldCount == 0 {
      return 0, Some("Scope Field Count must be at least 1");
    }
    if scopeFieldCount > fieldCount {
      return 0, Some("Scope Field Count > Field Count");
    }
    ghost var whole := Times(ParseSpecifier, fieldCount, payload[setOffset + 6..end]);
    assert payload[setOffset..end][6..] == payload[setOffset + 6..end];
    var ok;
    ok, consumed := WalkSpecifiers(payload, setOffset, remaining, 6, fieldCount, whole);
    if !ok {
      return 0, Some("insufficient data for field specifier");
    }
    return consumed, None;
  }

  /** The records of a Template Set or, with `options`, of an Options Template Set. */
  method ValidateRecords(payload: seq<Byte>, start: nat, end: nat, options: bool, ghost whole: Option<Items<Record>>)
    returns (ok: bool, recordsParsed: nat)
    requires start <= end <= |payload|
    requires whole == Many(RecordReader(options), 4, payload[start..end])
    ensures ok == whole.Some?
    ensures ok ==> recordsParsed == |whole.value.items|
  {
    hide Many, ParseTemplate, ParseOptions;
    recordsParsed, ok := 0, false;
    var setOffset, remaining := start, end - start;
    ghost var done: seq<Record> := [];
    while remaining >= 4
      invariant start <= setOffset <= end && remaining == end - setOffset && recordsParsed == |done|
      invariant Continues(whole, done, Many(RecordReader(options), 4, payload[setOffset..end]))
    {
      var consumed, err;
      if options {
        consumed, err := ValidateOptionsTemplateRecord(payload, setOffset, remaining);
      } else {
        consumed, err := ValidateTemplateRecord(payload, setOffset, remaining);
      }
      assert setOffset + remaining == end;
      ghost var p := RecordReader(options);
      if err.Some? {
        ManyRefused(p, 4, payload[setOffset..end], whole, done);
        return;
      }
      var next := setOffset + consumed;
      ghost var x := p(payload[setOffset..end]).item;
      ManyNext(p, 4, payload, setOffset, next, end, x, whole, done);
      done := done + [x];
      setOffset := next;
      remaining := remaining - consumed;
      recordsParsed := recordsParsed + 1;
    }
    ContinuesEnd(whole, done, RecordReader(options), 4, payload[setOffset..end]);
    ok := true;
  }

  ghost function RecordReader(options: bool): seq<Byte> -> Parsed<Record> {
    if options then ParseOptions else ParseTemplate
  }

  /** What the reader makes of the set at an offset, from its set header. */
  lemma SetParts(payload: seq<Byte>, offset: nat, setEnd: nat, limit: nat)
    requires offset + 4 <= limit <= |payload| && setEnd == offset + GetU16(payload, offset + 2)
    ensures var r := ParseSet(payload[offset..limit]);
            if setEnd < offset + 4 || setEnd > limit then r.Fail?
            else
              var content := ParseContent(GetU16(payload, offset), payload[offset + 4..setEnd]);
              r == if content.None? then Fail else Got(content.value, setEnd - offset)
  {
    hide ParseContent, GetU16;
    Sliced(payload, offset, limit, 0);
    Sliced(payload, offset, limit, 2);
    if offset + 4 <= setEnd <= limit {
      SliceOfSlice(payload, offset, limit, 4, setEnd - offset);
    }
  }

  lemma ShortSet(b: seq<Byte>)
    requires |b| < 4
    ensures ParseSet(b).Fail?
  {
  }

  /** What decides the content of a set, by its ID. */
  lemma ContentParts(id: U16, body: seq<Byte>)
    ensures var records := Many(RecordReader(id == 3), 4, body);
            ParseContent(id, body).Some? <==>
              if id in {2, 3} then records.Some? && records.value.items != [] else id > 255
  {
  }

  /** One set: where it ends, or that it is none. */
  method ValidateSet(payload: seq<Byte>, offset: nat, limit: nat, ghost whole: Option<Items<Set>>, ghost done: seq<Set>)
    returns (ok: bool, setEnd: nat, ghost s: Set)
    requires offset < limit == |payload|
    requires Continues(whole, done, Many(ParseSet, 1, payload[offset..limit]))
    ensures !ok ==> whole.None?
    ensures ok ==> offset < setEnd <= limit && Continues(whole, done + [s], Many(ParseSet, 1, payload[setEnd..limit]))
  {
    hide Many, ParseContent, ParseSet, GetU16;
    ok, setEnd, s := false, offset, DataSet(0, []);
    ghost var b := payload[offset..limit];
    if offset + 4 > limit {
      ShortSet(b);
      ManyRefused(ParseSet, 1, b, whole, done);
      return;
    }
    var setID := GetU16(payload, offset);
    var setLength := GetU16(payload, offset + 2);
    setEnd := offset + setLength;
    SetParts(payload, offset, setEnd, limit);
    if setLength < 4 || setEnd > limit {
      ManyRefused(ParseSet, 1, b, whole, done);
      return;
    }
    var setOffset := offset + 4;
    ghost var content := ParseContent(setID, payload[setOffset..setEnd]);
    ContentParts(setID, payload[setOffset..setEnd]);
    if setID == 0 || setID == 1 || 4 <= setID <= 255 {
      ManyRefused(ParseSet, 1, b, whole, done);
      return;
    }
    if setID == 2 || setID == 3 {
      ghost var records := Many(RecordReader(setID == 3), 4, payload[setOffset..setEnd]);
      var recordsOk, recordsParsed := ValidateRecords(payload, setOffset, setEnd, setID == 3, records);
      if !recordsOk || recordsParsed == 0 {
        ManyRefused(ParseSet, 1, b, whole, done);
        return;
      }
    }
    s := content.value;
    ManyNext(ParseSet, 1, payload, offset, setEnd, limit, s, whole, done);
    ok := true;
  }

  /** The validator accepts exactly the layouts of well-formed messages. */
  method IsValidIPFIX(payload: seq<Byte>) returns (ok: bool, err: Option<string>)
    ensures ok <==> Accepted(payload)
    ensures ok <==> err.None?
  {
    hide Accepted, Many, GetU16;
    OneReading(payload);
    if |payload| < 16 {
      return false, Some("payload too short for IPFIX header");
    }
    if GetU16(payload, 0) != VERSION {
      return false, Some("version is not IPFIX");
    }
    var messageLength := GetU16(payload, 2);
    if messageLength < 16 {
      return false, Some("declared message length is less than minimum header size");
    }
    if messageLength != |payload| {
      return false, Some("declared message length does not match payload length");
    }
    var offset, limit := 16, messageLength;
    ghost var whole, sets := ParseSets(payload[16..]), [];
    assert payload[16..limit] == payload[16..];
    while offset < limit
      invariant 16 <= offset <= limit
      invariant Continues(whole, sets, Many(ParseSet, 1, payload[offset..limit]))
    {
      var setOk;
      ghost var s;
      setOk, offset, s := ValidateSet(payload, offset, limit, whole, sets);
      if !setOk {
        return false, Some("invalid set");
      }
      sets := sets + [s];
    }
    ContinuesEnd(whole, sets, ParseSet, 1, payload[offset..limit]);
    return true, None;
  }

  // ----- Timestamp -----

  /** The payload with its export time replaced. */
  function Refreshed(payload: seq<Byte>, now: U32): seq<Byte>
    requires |payload| >= HEADER_SIZE
  {
    payload[..4] + PutU32(now) + payload[8..]
  }

  /** Copies the payload and overwrites four bytes of the copy. */
  method UpdateTimeStamp(payload: seq<Byte>, now: U32) returns (r: Result<seq<Byte>>)
    ensures r.Ok? <==> |payload| >= HEADER_SIZE
    ensures r.Ok? ==> r.value == Refreshed(payload, now)
  {
    if |payload| < 16 {
      return Err("payload too short for IPFIX header");
    }
    var result := new Byte[|payload|](i requires 0 <= i < |payload| => payload[i]);
    var word := PutU32(now);
    assert result[..] == payload;
    result[4], result[5], result[6], result[7] := word[0], word[1], word[2], word[3];
    assert result[..] == Refreshed(payload, now);
    return Ok(result[..]);
  }

  /** A refresh touches four bytes. */
  lemma RefreshKeepsBytes(payload: seq<Byte>, now: U32)
    requires |payload| >= HEADER_SIZE
    ensures var r := Refreshed(payload, now);
            && |r| == |payload| && GetU32(r, 4) == now
            && forall i :: 0 <= i < |r| && !(4 <= i < 8) ==> r[i] == payload[i]
  {
    var r := Refreshed(payload, now);
    assert r[4..8] == PutU32(now);
    Dropped(r[..8], 4, 0);
  }

  /** A refreshed message keeps its verdict. */
  lemma RefreshKeepsVerdict(payload: seq<Byte>, now: U32)
    requires |payload| >= HEADER_SIZE
    ensures Accepted(Refreshed(payload, now)) <==> Accepted(payload)
  {
    hide Accepted, Many;
    var r := Refreshed(payload, now);
    OneReading(payload);
    OneReading(r);
    assert r[HEADER_SIZE..] == payload[HEADER_SIZE..];
    assert forall i :: 0 <= i < 4 ==> r[i] == payload[i];
  }
}
