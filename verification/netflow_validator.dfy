/**
 The NetFlow v9 validator as the program runs it: offsets into the payload, a template table
 filled while parsing, and Data FlowSets put off until their template is known.
 */
module NetFlowValidator {
  import opened Wrappers
  import opened Bytes
  import opened Codec
  import opened NetFlowGrammar
  import opened NetFlowCounts
  import opened Sums

  /**
   The least and greatest record counts a data length allows, or -1 twice when it allows none.
   Exactly the counts between the two can be padded to this length.
   */
  method CountDataRecordsRange(dataLen: nat, recordSize: nat) returns (minCount: int, maxCount: int)
    requires recordSize > 0
    ensures forall c: nat :: Fits(dataLen, recordSize, c) <==> 0 <= minCount <= c <= maxCount
    ensures -1 <= minCount <= maxCount
    ensures minCount < 0 ==> maxCount == -1
    ensures minCount >= 0 ==> minCount == MinCount(dataLen, recordSize) && maxCount == MaxCount(dataLen, recordSize)
  {
    minCount, maxCount := -1, -1;
    var pad := 0;
    while pad < 4
      invariant 0 <= pad <= 4
      invariant minCount < 0 ==> minCount == maxCount == -1
      invariant minCount >= 0 ==> Fits(dataLen, recordSize, minCount) && maxCount >= minCount
      invariant maxCount >= 0 ==> Fits(dataLen, recordSize, maxCount) && minCount >= 0
      invariant forall c: nat, q: nat :: q < pad && PaddedBy(dataLen, recordSize, c, q) ==>
                  0 <= minCount <= c <= maxCount
    {
      var dataBytes := dataLen - pad;
      if dataBytes > 0 {
        PaddingFixesCount(dataLen, recordSize, pad);
      }
      if dataBytes > 0 && dataBytes % recordSize == 0 {
        var count := dataBytes / recordSize;
        assert PaddedBy(dataLen, recordSize, count, pad);
        if minCount < 0 || count < minCount {
          minCount := count;
        }
        if maxCount < 0 || count > maxCount {
          maxCount := count;
        }
      }
      pad := pad + 1;
    }
    BoundsAreEnds(dataLen, recordSize, minCount, maxCount);
  }

  /** With the padding given, a length admits one count, and only if it is a multiple of the size. */
  lemma PaddingFixesCount(dataLen: nat, recordSize: nat, pad: nat)
    requires recordSize > 0 && pad < 4 && dataLen > pad
    ensures forall c: nat :: PaddedBy(dataLen, recordSize, c, pad) <==>
              (dataLen - pad) % recordSize == 0 && c == (dataLen - pad) / recordSize
  {
    var n := dataLen - pad;
    forall c: nat
      ensures PaddedBy(dataLen, recordSize, c, pad) <==> n % recordSize == 0 && c == n / recordSize
    {
      assert n == n / recordSize * recordSize + n % recordSize;
      if n == c * recordSize {
        DivBounds(n, recordSize, c);
        DivBounds(n, recordSize, c + 1);
      }
    }
  }

  lemma BoundsAreEnds(dataLen: nat, recordSize: nat, least: int, greatest: int)
    requires recordSize > 0
    requires least < 0 ==> least == greatest == -1
    requires least >= 0 ==> Fits(dataLen, recordSize, least) && greatest >= least
    requires greatest >= 0 ==> Fits(dataLen, recordSize, greatest)
    requires forall c: nat, q: nat :: q < 4 && PaddedBy(dataLen, recordSize, c, q) ==> 0 <= least <= c <= greatest
    ensures forall c: nat :: Fits(dataLen, recordSize, c) <==> 0 <= least <= c <= greatest
    ensures least >= 0 ==> least == MinCount(dataLen, recordSize) && greatest == MaxCount(dataLen, recordSize)
  {
    forall c: nat | Fits(dataLen, recordSize, c) ensures 0 <= least <= c <= greatest {
      var q :| PaddedBy(dataLen, recordSize, c, q);
    }
    if least >= 0 {
      FitsIsRange(dataLen, recordSize, least);
      FitsIsRange(dataLen, recordSize, greatest);
      FitsIsRange(dataLen, recordSize, MinCount(dataLen, recordSize));
      FitsIsRange(dataLen, recordSize, MaxCount(dataLen, recordSize));
      forall c: nat | least <= c <= greatest ensures Fits(dataLen, recordSize, c) {
        FitsIsRange(dataLen, recordSize, c);
      }
    }
  }

  /** The one count a data length allows, or -1 when there is none or more than one. */
  method CountDataRecords(dataLen: nat, recordSize: nat) returns (count: int)
    requires recordSize > 0
    ensures count >= 0 ==> forall c: nat :: Fits(dataLen, recordSize, c) <==> c == count
    ensures count < 0 ==> count == -1
    ensures count < 0 ==> !exists c: nat :: Fits(dataLen, recordSize, c)
                                         && forall d: nat :: Fits(dataLen, recordSize, d) ==> d == c
  {
    var least, greatest := CountDataRecordsRange(dataLen, recordSize);
    if least == greatest {
      return least;
    }
    assert Fits(dataLen, recordSize, least) && Fits(dataLen, recordSize, greatest);
    return -1;
  }

  /** How a read of n items goes on after some of them. */
  lemma {:induction false} TimesSplit<T>(p: seq<Byte> -> Parsed<T>, n: nat, m: nat, b: seq<Byte>)
    ensures var r := Times(p, n, b);
            Times(p, n + m, b) == if r.None? then None else Prepend(r.value.items, Times(p, m, r.value.tail))
    decreases n
  {
    if n == 0 {
      var q := Times(p, m, b);
      assert q.Some? ==> [] + q.value.items == q.value.items;
    } else if p(b).Got? && p(b).size <= |b| {
      var rest := b[p(b).size..];
      TimesSplit(p, n - 1, m, rest);
      var r := Times(p, n - 1, rest);
      if r.Some? {
        var q := Times(p, m, r.value.tail);
        assert q.Some? ==>
          [p(b).item] + (r.value.items + q.value.items) == ([p(b).item] + r.value.items) + q.value.items;
      }
    }
  }

  lemma {:induction false} WidthConcat(a: seq<Field>, b: seq<Field>)
    ensures Width(a + b) == Width(a) + Width(b)
  {
    if b == [] {
      assert a + b == a;
    } else {
      assert (a + b)[..|a + b| - 1] == a + b[..|b| - 1];
      WidthConcat(a, b[..|b| - 1]);
    }
  }

  /** One more field specifier read. */
  lemma FieldNext(payload: seq<Byte>, at: nat, end: nat, n: nat, whole: Option<Items<Field>>, done: seq<Field>)
    requires n > 0 && at + 4 <= end <= |payload|
    requires Continues(whole, done, Times(ParseField, n, payload[at..end]))
    ensures var length := GetU16(payload, at + 2);
            if length == 0 then whole.None?
            else
              var field := Field(GetU16(payload, at), length);
              && Continues(whole, done + [field], Times(ParseField, n - 1, payload[at + 4..end]))
              && Width(done + [field]) == Width(done) + length
  {
    var b := payload[at..end];
    Sliced(payload, at, end, 0);
    Sliced(payload, at, end, 2);
    if GetU16(b, 2) != 0 {
      var field := ParseField(b).item;
      assert b[4..] == payload[at + 4..end];
      ContinuesNext(whole, done, field, Times(ParseField, n - 1, b[4..]));
      assert (done + [field])[..|done|] == done;
    }
  }

  /**
   Sums the lengths of `count` field specifiers, refusing a zero length. The caller has compared
   the size of the record with the set, so every specifier lies inside it.
   */
  method SumFieldLengths(payload: seq<Byte>, start: nat, end: nat, count: nat, ghost fields: Option<Items<Field>>)
    returns (ok: bool, total: nat)
    requires start + 4 * count <= end <= |payload|
    requires fields == Times(ParseField, count, payload[start..end])
    ensures ok == fields.Some?
    ensures ok ==> total == Width(fields.value.items)
  {
    hide GetU16, ParseField, Continues, Times, Width;
    FieldsStart(fields);
    total := 0;
    var f := 0;
    ghost var done: seq<Field>, at, left := [], start, count;
    while f < count
      invariant 0 <= f <= count && at == start + 4 * f && left == count - f
      invariant Continues(fields, done, Times(ParseField, left, payload[at..end]))
      invariant total == Width(done)
    {
      var fOffset := start + f * 4;
      assert fOffset + 4 <= end;
      var fLength := GetU16(payload, fOffset + 2);
      FieldNext(payload, at, end, left, fields, done);
      if fLength == 0 {
        return false, 0;
      }
      done := done + [Field(GetU16(payload, fOffset), fLength)];
      at, left := at + 4, left - 1;
      total := total + fLength;
      f := f + 1;
    }
    ok := true;
    TimesEnd(fields, done, ParseField, payload[at..end]);
  }

  lemma FieldsStart(fields: Option<Items<Field>>)
    ensures Continues(fields, [], fields) && Width([]) == 0
  {
  }

  /** What the reader makes of a template record, from its specifiers. */
  lemma TemplateParts(payload: seq<Byte>, at: nat, next: nat, end: nat, n: nat)
    requires at + 4 <= next <= end <= |payload|
    requires next == at + 4 + 4 * n && GetU16(payload, at + 2) == n
    requires GetU16(payload, at) >= MIN_TEMPLATE_ID
    ensures var r := Times(ParseField, n, payload[at + 4..end]);
            ParseTemplate(payload[at..end]) ==
              if r.None? then Fail else Got(TemplateRecord(GetU16(payload, at), r.value.items), next - at)
  {
    var b := payload[at..end];
    Sliced(payload, at, end, 0);
    Sliced(payload, at, end, 2);
    assert b[4..] == payload[at + 4..end];
  }

  /** A record the reader takes lies inside its set. */
  lemma TemplateFits(b: seq<Byte>)
    requires ParseTemplate(b).Got?
    ensures 4 + 4 * GetU16(b, 2) <= |b|
  {
    FieldListSound(GetU16(b, 2), b[4..]);
  }

  /** The definitions a list of template records makes. */
  ghost predicate Defines(ts: seq<TemplateRecord>, ds: seq<Definition>) {
    |ds| == |ts| && forall i :: 0 <= i < |ts| ==> ds[i] == Definition(ts[i].id, Width(ts[i].fields))
  }

  ghost predicate DefinesOptions(os: seq<OptionsRecord>, ds: seq<Definition>) {
    |ds| == |os| && forall i :: 0 <= i < |os| ==> ds[i] == Definition(os[i].id, Width(os[i].scopes + os[i].options))
  }

  lemma DefineNext(table: map<U16, nat>, ds: seq<Definition>, d: Definition)
    ensures Define(table, ds + [d]) == Define(table, ds)[d.id := d.size]
  {
    assert (ds + [d])[..|ds|] == ds;
  }

  /** One template record of a set: its ID, its record size and where the next one starts. */
  method CheckTemplate(payload: seq<Byte>, setOffset: nat, end: nat,
                       ghost whole: Option<Items<TemplateRecord>>, ghost done: seq<TemplateRecord>)
    returns (ok: bool, tmplID: U16, recordSize: nat, next: nat, ghost t: TemplateRecord)
    requires setOffset + 4 <= end <= |payload|
    requires Continues(whole, done, Many(ParseTemplate, 4, payload[setOffset..end]))
    ensures !ok ==> whole.None?
    ensures ok ==> setOffset + 4 <= next <= end && tmplID == t.id && recordSize == Width(t.fields)
    ensures ok ==> Continues(whole, done + [t], Many(ParseTemplate, 4, payload[next..end]))
  {
    hide Many, Times;
    ghost var b := payload[setOffset..end];
    tmplID := GetU16(payload, setOffset);
    var fieldCount := GetU16(payload, setOffset + 2);
    Sliced(payload, setOffset, end, 0);
    Sliced(payload, setOffset, end, 2);
    recordSize, next, t, ok := 0, setOffset, TemplateRecord(tmplID, []), false;
    var fieldSpecSize := fieldCount * 4;
    if tmplID < 256 || 4 + fieldSpecSize > end - setOffset {
      if ParseTemplate(b).Got? {
        TemplateFits(b);
      }
      ManyRefused(ParseTemplate, 4, b, whole, done);
    } else {
      next := setOffset + 4 + fieldSpecSize;
      ghost var fields := Times(ParseField, fieldCount, payload[setOffset + 4..end]);
      TemplateParts(payload, setOffset, next, end, fieldCount);
      ok, recordSize := SumFieldLengths(payload, setOffset + 4, end, fieldCount, fields);
      if ok {
        t := TemplateRecord(tmplID, fields.value.items);
        ManyNext(ParseTemplate, 4, payload, setOffset, next, end, t, whole, done);
      } else {
        ManyRefused(ParseTemplate, 4, b, whole, done);
      }
    }
  }

  /** The records of a Template FlowSet; `rest` is where its padding starts. */
  method CheckTemplates(payload: seq<Byte>, start: nat, end: nat, known: map<U16, nat>,
                        ghost whole: Option<Items<TemplateRecord>>)
    returns (ok: bool, recordsParsed: nat, templateRecordSizes: map<U16, nat>, rest: nat)
    requires start <= end <= |payload|
    requires whole == Many(ParseTemplate, 4, payload[start..end])
    ensures ok == whole.Some?
    ensures ok ==> start <= rest <= end && whole.value.tail == payload[rest..end]
    ensures ok ==> recordsParsed == |whole.value.items|
    ensures ok ==> templateRecordSizes == Define(known, Definitions(Templates(whole.value.items, end - rest)))
  {
    hide Many, ParseTemplate;
    recordsParsed, templateRecordSizes, ok := 0, known, true;
    var setOffset, remaining := start, end - start;
    ghost var ts: seq<TemplateRecord>, ds: seq<Definition> := [], [];
    while ok && remaining >= 4
      invariant start <= setOffset <= end && remaining == end - setOffset
      invariant if ok then Continues(whole, ts, Many(ParseTemplate, 4, payload[setOffset..end])) else whole.None?
      invariant recordsParsed == |ts| && Defines(ts, ds)
      invariant templateRecordSizes == Define(known, ds)
      decreases ok, remaining
    {
      var tmplID, recordSize, next;
      ghost var t;
      ok, tmplID, recordSize, next, t := CheckTemplate(payload, setOffset, end, whole, ts);
      if ok {
        DefineNext(known, ds, Definition(tmplID, recordSize));
        ts, ds := ts + [t], ds + [Definition(tmplID, recordSize)];
        templateRecordSizes := templateRecordSizes[tmplID := recordSize];
        remaining := remaining - (next - setOffset);
        setOffset := next;
        recordsParsed := recordsParsed + 1;
      }
    }
    rest := setOffset;
    if ok {
      ContinuesEnd(whole, ts, ParseTemplate, 4, payload[rest..end]);
      assert Definitions(Templates(ts, end - rest)) == ds;
    }
  }

  /** Scope and option specifiers read one after the other are one list of specifiers. */
  lemma FieldsSplit(payload: seq<Byte>, at: nat, middle: nat, end: nat, n: nat, m: nat)
    requires at + 4 * n == middle && middle + 4 * m <= end <= |payload|
    ensures var r := Times(ParseField, n, payload[at..end]);
            var q := Times(ParseField, m, payload[middle..end]);
            var both := Times(ParseField, n + m, payload[at..end]);
            if r.None? || q.None? then both.None?
            else both.Some? && both.value.items == r.value.items + q.value.items
  {
    var b := payload[at..end];
    TimesSplit(ParseField, n, m, b);
    if Times(ParseField, n, b).Some? {
      FieldListSound(n, b);
      assert b[4 * n..] == payload[middle..end];
    }
  }

  /** A record the reader takes lies inside its set. */
  lemma OptionsFits(b: seq<Byte>)
    requires ParseOptions(b).Got?
    ensures 6 + GetU16(b, 2) + GetU16(b, 4) <= |b|
  {
    FieldListSound(GetU16(b, 2) / 4 + GetU16(b, 4) / 4, b[6..]);
  }

  /** What the reader makes of an options template record, from its specifiers read in two parts. */
  lemma OptionsParts(payload: seq<Byte>, at: nat, middle: nat, next: nat, end: nat, n: nat, m: nat)
    requires at + 6 <= middle <= next <= end <= |payload|
    requires middle == at + 6 + 4 * n && next == middle + 4 * m
    requires GetU16(payload, at) >= MIN_TEMPLATE_ID
    requires GetU16(payload, at + 2) == 4 * n && GetU16(payload, at + 4) == 4 * m
    ensures var r := Times(ParseField, n, payload[at + 6..end]);
            var q := Times(ParseField, m, payload[middle..end]);
            ParseOptions(payload[at..end]) ==
              if r.None? || q.None? then Fail
              else Got(OptionsRecord(GetU16(payload, at), r.value.items, q.value.items), next - at)
  {
    var b := payload[at..end];
    Sliced(payload, at, end, 0);
    Sliced(payload, at, end, 2);
    Sliced(payload, at, end, 4);
    assert GetU16(b, 2) / 4 == n && GetU16(b, 4) / 4 == m && GetU16(b, 2) % 4 == 0 && GetU16(b, 4) % 4 == 0;
    assert b[6..] == payload[at + 6..end];
    FieldsSplit(payload, at + 6, middle, end, n, m);
  }

  /** One options template record of a set: its ID, its record size and where the next one starts. */
  method CheckOptionsRecord(payload: seq<Byte>, setOffset: nat, end: nat,
                            ghost whole: Option<Items<OptionsRecord>>, ghost done: seq<OptionsRecord>)
    returns (ok: bool, tmplID: U16, optsDataSize: nat, next: nat, ghost o: OptionsRecord)
    requires setOffset + 6 <= end <= |payload|
    requires Continues(whole, done, Many(ParseOptions, 6, payload[setOffset..end]))
    ensures !ok ==> whole.None?
    ensures ok ==> setOffset + 6 <= next <= end && tmplID == o.id && optsDataSize == Width(o.scopes + o.options)
    ensures ok ==> Continues(whole, done + [o], Many(ParseOptions, 6, payload[next..end]))
  {
    hide Many, Times;
    ghost var b := payload[setOffset..end];
    tmplID := GetU16(payload, setOffset);
    var scopeLen := GetU16(payload, setOffset + 2);
    var optLen := GetU16(payload, setOffset + 4);
    Sliced(payload, setOffset, end, 0);
    Sliced(payload, setOffset, end, 2);
    Sliced(payload, setOffset, end, 4);
    optsDataSize, next, o, ok := 0, setOffset, OptionsRecord(tmplID, [], []), false;
    var optsRecordSize := 6 + scopeLen + optLen;
    if tmplID < 256 || scopeLen % 4 != 0 || optLen % 4 != 0 || optsRecordSize > end - setOffset {
      if ParseOptions(b).Got? {
        OptionsFits(b);
      }
      ManyRefused(ParseOptions, 6, b, whole, done);
    } else {
      var scopeFieldCount, optFieldCount := scopeLen / 4, optLen / 4;
      var middle := setOffset + 6 + scopeLen;
      next := setOffset + optsRecordSize;
      ghost var scopes := Times(ParseField, scopeFieldCount, payload[setOffset + 6..end]);
      ghost var options := Times(ParseField, optFieldCount, payload[middle..end]);
      OptionsParts(payload, setOffset, middle, next, end, scopeFieldCount, optFieldCount);
      var scopeOk, scopeSize := SumFieldLengths(payload, setOffset + 6, end, scopeFieldCount, scopes);
      if scopeOk {
        var optSize;
        ok, optSize := SumFieldLengths(payload, middle, end, optFieldCount, options);
        optsDataSize := scopeSize + optSize;
      }
      if ok {
        o := OptionsRecord(tmplID, scopes.value.items, options.value.items);
        WidthConcat(o.scopes, o.options);
        ManyNext(ParseOptions, 6, payload, setOffset, next, end, o, whole, done);
      } else {
        ManyRefused(ParseOptions, 6, b, whole, done);
      }
    }
  }

  /** The records of an Options Template FlowSet; `rest` is where its padding starts. */
  method CheckOptionsTemplates(payload: seq<Byte>, start: nat, end: nat, known: map<U16, nat>,
                               ghost whole: Option<Items<OptionsRecord>>)
    returns (ok: bool, recordsParsed: nat, templateRecordSizes: map<U16, nat>, rest: nat)
    requires start <= end <= |payload|
    requires whole == Many(ParseOptions, 6, payload[start..end])
    ensures ok == whole.Some?
    ensures ok ==> start <= rest <= end && whole.value.tail == payload[rest..end]
    ensures ok ==> recordsParsed == |whole.value.items|
    ensures ok ==> templateRecordSizes == Define(known, Definitions(OptionsTemplates(whole.value.items, end - rest)))
  {
    hide Many, ParseOptions;
    recordsParsed, templateRecordSizes, ok := 0, known, true;
    var setOffset, remaining := start, end - start;
    ghost var os: seq<OptionsRecord>, ds: seq<Definition> := [], [];
    while ok && remaining >= 6
      invariant start <= setOffset <= end && remaining == end - setOffset
      invariant if ok then Continues(whole, os, Many(ParseOptions, 6, payload[setOffset..end])) else whole.None?
      invariant recordsParsed == |os| && DefinesOptions(os, ds)
      invariant templateRecordSizes == Define(known, ds)
      decreases ok, remaining
    {
      var tmplID, optsDataSize, next;
      ghost var o;
      ok, tmplID, optsDataSize, next, o := CheckOptionsRecord(payload, setOffset, end, whole, os);
      if ok {
        DefineNext(known, ds, Definition(tmplID, optsDataSize));
        os, ds := os + [o], ds + [Definition(tmplID, optsDataSize)];
        templateRecordSizes := templateRecordSizes[tmplID := optsDataSize];
        remaining := remaining - (next - setOffset);
        setOffset := next;
        recordsParsed := recordsParsed + 1;
      }
    }
    rest := setOffset;
    if ok {
      ContinuesEnd(whole, os, ParseOptions, 6, payload[rest..end]);
      assert Definitions(OptionsTemplates(os, end - rest)) == ds;
    }
  }

  method CheckPadding(payload: seq<Byte>, setOffset: nat, end: nat) returns (ok: bool)
    requires setOffset <= end <= |payload|
    ensures ok == AllZero(payload[setOffset..end])
  {
    var i, remaining := 0, end - setOffset;
    while i < remaining
      invariant 0 <= i <= remaining
      invariant forall k :: 0 <= k < i ==> payload[setOffset..end][k] == 0
    {
      assert payload[setOffset..end][i] == payload[setOffset + i];
      if payload[setOffset + i] != 0 {
        return false;
      }
      i := i + 1;
    }
    return true;
  }

  function TemplateCount(s: FlowSet): nat {
    match s
    case Templates(ts, _) => |ts|
    case OptionsTemplates(os, _) => |os|
    case Data(_, _) => 0
  }

  /** A Template or Options Template FlowSet: its records, then zero padding. */
  method CheckTemplateContent(payload: seq<Byte>, setID: U16, setOffset: nat, setEnd: nat, known: map<U16, nat>,
                              ghost content: Option<FlowSet>)
    returns (ok: bool, recordsParsed: nat, templateRecordSizes: map<U16, nat>)
    requires setOffset <= setEnd <= |payload| && setID <= 1
    requires content == ParseContent(setID, payload[setOffset..setEnd])
    ensures ok == content.Some?
    ensures ok ==> recordsParsed == TemplateCount(content.value)
    ensures ok ==> templateRecordSizes == Define(known, Definitions(content.value))
  {
    hide Many;
    var rest;
    if setID == 0 {
      ghost var whole := Many(ParseTemplate, 4, payload[setOffset..setEnd]);
      ok, recordsParsed, templateRecordSizes, rest := CheckTemplates(payload, setOffset, setEnd, known, whole);
    } else {
      ghost var whole := Many(ParseOptions, 6, payload[setOffset..setEnd]);
      ok, recordsParsed, templateRecordSizes, rest := CheckOptionsTemplates(payload, setOffset, setEnd, known, whole);
    }
    if !ok || recordsParsed == 0 {
      return false, recordsParsed, templateRecordSizes;
    }
    ok := CheckPadding(payload, rest, setEnd);
  }

  /** The totals, the table and the deferred list are those of the sets met so far, all of them countable. */
  ghost predicate Tracks(sets: seq<FlowSet>, templateRecordSizes: map<U16, nat>, deferredData: seq<Deferred>,
                         totalMin: nat, totalMax: nat)
  {
    var a := MeetAll(sets);
    && templateRecordSizes == a.table && deferredData == a.deferred
    && totalMin == SumLo(a.met) && totalMax == SumHi(a.met)
    && AllFeasible(a.met) && !AnyOpen(a.met)
  }

  /** The sets cannot be read, or one of them met with a known template has no possible count. */
  ghost predicate Hopeless(whole: Option<Items<FlowSet>>) {
    whole.None? || !AllFeasible(MeetAll(whole.value.items).met)
  }

  lemma MeetAppend(sets: seq<FlowSet>, s: FlowSet)
    ensures MeetAll(sets + [s]) == Meet(MeetAll(sets), s)
  {
    assert (sets + [s])[..|sets|] == sets;
  }

  lemma SumsAppend(rs: seq<Range>, r: Range)
    ensures SumLo(rs + [r]) == SumLo(rs) + r.lo && SumHi(rs + [r]) == SumHi(rs) + r.hi
  {
    assert (rs + [r])[..|rs|] == rs;
  }

  /** A count once impossible stays impossible. */
  lemma {:induction false} StillInfeasible(sets: seq<FlowSet>, more: seq<FlowSet>)
    requires !AllFeasible(MeetAll(sets).met)
    ensures !AllFeasible(MeetAll(sets + more).met)
  {
    hide Meet, AllFeasible;
    if more == [] {
      assert sets + more == sets;
    } else {
      var n := |more| - 1;
      StillInfeasible(sets, more[..n]);
      assert sets + more == sets + more[..n] + [more[n]];
      MeetAppend(sets + more[..n], more[n]);
      MeetStaysInfeasible(MeetAll(sets + more[..n]), more[n]);
    }
  }

  lemma MeetStaysInfeasible(a: Account, s: FlowSet)
    requires !AllFeasible(a.met)
    ensures !AllFeasible(Meet(a, s).met)
  {
    hide Feasible, Define, Definitions, DataRange, Known;
    var i :| 0 <= i < |a.met| && !Feasible(a.met[i]);
    assert Meet(a, s).met[i] == a.met[i];
  }

  lemma TracksNext(sets: seq<FlowSet>, s: FlowSet, table: map<U16, nat>, deferred: seq<Deferred>, lo: nat, hi: nat)
    requires Tracks(sets, table, deferred, lo, hi)
    ensures !s.Data? ==>
              Tracks(sets + [s], Define(table, Definitions(s)), deferred, lo + TemplateCount(s), hi + TemplateCount(s))
    ensures s.Data? && Known(table, s.id) == 0 ==>
              Tracks(sets + [s], table, deferred + [Deferred(s.id, |s.body|)], lo, hi)
    ensures s.Data? && Known(table, s.id) > 0 ==>
              var size := Known(table, s.id);
              var least, greatest := MinCount(|s.body|, size), MaxCount(|s.body|, size);
              if least <= greatest then Tracks(sets + [s], table, deferred, lo + least, hi + greatest)
              else !AllFeasible(MeetAll(sets + [s]).met)
  {
    hide Define, Definitions, Known, MinCount, MaxCount, SumLo, SumHi, MeetAll;
    MeetAppend(sets, s);
    var before, after := MeetAll(sets).met, MeetAll(sets + [s]).met;
    if |after| > |before| {
      SumsAppend(before, after[|before|]);
      assert after[|before|] == after[|after| - 1];
    }
  }

  /** What the reader makes of the set at an offset, from its set header. */
  lemma SetParts(payload: seq<Byte>, offset: nat, setEnd: nat, limit: nat)
    requires offset + 4 <= limit <= |payload| && setEnd == offset + GetU16(payload, offset + 2)
    ensures var r := ParseFlowSet(payload[offset..limit]);
            if setEnd < offset + 4 || setEnd > limit then r.Fail?
            else
              var content := ParseContent(GetU16(payload, offset), payload[offset + 4..setEnd]);
              r == if content.None? then Fail else Got(content.value, setEnd - offset)
  {
    hide ParseContent, GetU16;
    Sliced(payload, offset, limit, 0);
    Sliced(payload, offset, limit, 2);
    if offset + 4 <= setEnd <= limit {
      SliceOfSlice(payload, offset, limit, 4, setEnd - offset);
    }
  }

  /** A reserved ID is no content. */
  lemma ReservedIds(id: U16, body: seq<Byte>)
    requires id >= 2
    ensures ParseContent(id, body) == if id <= 255 || body == [] then None else Some(Data(id, body))
  {
  }

  /** One FlowSet: checked, counted or put off; `setEnd` is where the next one starts. */
  method CheckFlowSet(payload: seq<Byte>, offset: nat, limit: nat, known: map<U16, nat>, deferred: seq<Deferred>,
                      lo: nat, hi: nat, ghost whole: Option<Items<FlowSet>>, ghost done: seq<FlowSet>)
    returns (ok: bool, setEnd: nat, templateRecordSizes: map<U16, nat>, deferredData: seq<Deferred>,
             totalMin: nat, totalMax: nat, ghost s: FlowSet)
    requires offset < limit == |payload|
    requires Tracks(done, known, deferred, lo, hi)
    requires Continues(whole, done, Many(ParseFlowSet, 1, payload[offset..limit]))
    ensures !ok ==> Hopeless(whole)
    ensures ok ==> offset < setEnd <= limit
    ensures ok ==> Tracks(done + [s], templateRecordSizes, deferredData, totalMin, totalMax)
    ensures ok ==> Continues(whole, done + [s], Many(ParseFlowSet, 1, payload[setEnd..limit]))
  {
    hide Many, Tracks, ParseContent, ParseFlowSet, GetU16;
    ok, setEnd, templateRecordSizes, deferredData, totalMin, totalMax, s :=
      false, offset, known, deferred, lo, hi, Data(0, []);
    ghost var b := payload[offset..limit];
    if offset + 4 > limit {
      ShortSet(b);
      ManyRefused(ParseFlowSet, 1, b, whole, done);
      return;
    }
    var setID := GetU16(payload, offset);
    var setLength := GetU16(payload, offset + 2);
    setEnd := offset + setLength;
    SetParts(payload, offset, setEnd, limit);
    if setLength < 4 || setEnd > limit {
      ManyRefused(ParseFlowSet, 1, b, whole, done);
      return;
    }
    var setOffset := offset + 4;
    ghost var content := ParseContent(setID, payload[setOffset..setEnd]);
    if setID >= 2 {
      ReservedIds(setID, payload[setOffset..setEnd]);
    }
    if 2 <= setID <= 255 {
      ManyRefused(ParseFlowSet, 1, b, whole, done);
      return;
    }
    if setID <= 1 {
      var recordsParsed;
      ok, recordsParsed, templateRecordSizes :=
        CheckTemplateContent(payload, setID, setOffset, setEnd, known, content);
      if !ok {
        ManyRefused(ParseFlowSet, 1, b, whole, done);
        return;
      }
      s := content.value;
      TemplateContent(setID, payload[setOffset..setEnd]);
      totalMin, totalMax := totalMin + recordsParsed, totalMax + recordsParsed;
    } else {
      var remaining := setLength - 4;
      if remaining < 1 {
        ManyRefused(ParseFlowSet, 1, b, whole, done);
        return;
      }
      s := content.value;
      assert |s.body| == remaining;
      if setID in templateRecordSizes && templateRecordSizes[setID] > 0 {
        var rs := templateRecordSizes[setID];
        var minCount, maxCount := CountDataRecordsRange(remaining, rs);
        if minCount < 0 {
          NoCount(remaining, rs);
        } else {
          totalMin, totalMax := totalMin + minCount, totalMax + maxCount;
        }
        ok := minCount >= 0;
      } else {
        deferredData := deferredData + [Deferred(setID, remaining)];
        ok := true;
      }
    }
    TracksNext(done, s, known, deferred, lo, hi);
    ManyNext(ParseFlowSet, 1, payload, offset, setEnd, limit, s, whole, done);
    if !ok && whole.Some? {
      StillInfeasible(done + [s], Many(ParseFlowSet, 1, payload[setEnd..limit]).value.items);
    }
  }

  lemma ShortSet(b: seq<Byte>)
    requires |b| < 4
    ensures ParseFlowSet(b).Fail?
  {
  }

  lemma TemplateContent(id: U16, body: seq<Byte>)
    requires id <= 1 && ParseContent(id, body).Some?
    ensures !ParseContent(id, body).value.Data?
  {
  }

  lemma NoCount(length: nat, size: nat)
    requires size > 0 && forall c: nat :: !Fits(length, size, c)
    ensures MinCount(length, size) > MaxCount(length, size)
  {
    FitsIsRange(length, size, MinCount(length, size));
  }

  lemma SettleNext(table: map<U16, nat>, ds: seq<Deferred>, k: nat)
    requires k < |ds|
    ensures Settle(table, ds[..k + 1]) == Settle(table, ds[..k]) + [Settle(table, ds)[k]]
    ensures |Settle(table, ds)| == |ds| && Settle(table, ds)[k] == DataRange(ds[k].length, Known(table, ds[k].id))
  {
  }

  lemma SettleNone(table: map<U16, nat>, ds: seq<Deferred>)
    ensures SumLo(Settle(table, ds[..0])) == 0 && SumHi(Settle(table, ds[..0])) == 0
    ensures |Settle(table, ds)| == |ds| && ds[..|ds|] == ds
  {
  }

  /** The deferred Data FlowSets, counted now that all templates are known. */
  method SettleDeferred(table: map<U16, nat>, deferredData: seq<Deferred>, lo: nat, hi: nat)
    returns (ok: bool, hasUnresolvedData: bool, totalMin: nat, totalMax: nat)
    ensures ok == AllFeasible(Settle(table, deferredData))
    ensures ok ==> hasUnresolvedData == AnyOpen(Settle(table, deferredData))
    ensures ok ==> totalMin == lo + SumLo(Settle(table, deferredData))
    ensures ok ==> totalMax == hi + SumHi(Settle(table, deferredData))
  {
    hide Settle, SumLo, SumHi, MinCount, MaxCount, Fits;
    totalMin, totalMax, hasUnresolvedData, ok := lo, hi, false, true;
    SettleNone(table, deferredData);
    ghost var ranges := Settle(table, deferredData);
    var k := 0;
    while k < |deferredData|
      invariant 0 <= k <= |deferredData|
      invariant forall i :: 0 <= i < k ==> Feasible(ranges[i])
      invariant hasUnresolvedData <==> exists i :: 0 <= i < k && ranges[i].open
      invariant totalMin == lo + SumLo(Settle(table, deferredData[..k]))
      invariant totalMax == hi + SumHi(Settle(table, deferredData[..k]))
    {
      var info := deferredData[k];
      SettleNext(table, deferredData, k);
      SumsAppend(Settle(table, deferredData[..k]), ranges[k]);
      if info.id !in table || table[info.id] == 0 {
        hasUnresolvedData := true;
        totalMin := totalMin + 1;
      } else {
        var rs := table[info.id];
        var minCount, maxCount := CountDataRecordsRange(info.length, rs);
        if minCount < 0 {
          NoCount(info.length, rs);
          return false, hasUnresolvedData, totalMin, totalMax;
        }
        totalMin, totalMax := totalMin + minCount, totalMax + maxCount;
      }
      k := k + 1;
    }
  }

  /** A byte string with a reading is accepted exactly when that reading is a valid packet of the version. */
  lemma OneReading(payload: seq<Byte>, version: int)
    ensures Accepted(payload, version) <==>
              var r := ParsePacket(payload);
              r.Some? && r.value.header.version == version % 0x1_0000 && ValidPacket(r.value)
  {
    var r := ParsePacket(payload);
    if r.Some? {
      ReaderIsGrammar(payload, r.value);
      if r.value.header.version == version % 0x1_0000 && ValidPacket(r.value) {
        assert Reads(payload, version, r.value);
      }
    }
    forall p | Reads(payload, version, p) ensures r == Some(p) {
      ReaderIsGrammar(payload, p);
    }
  }

  lemma {:induction false} SumCoversEach(counts: seq<nat>, i: nat)
    requires i < |counts|
    ensures Sum(counts) >= counts[i]
  {
    if i == |counts| - 1 {
    } else {
      SumCoversEach(counts[..|counts| - 1], i);
    }
  }

  lemma FitsIsPositive(length: nat, size: nat, count: nat)
    requires Fits(length, size, count)
    ensures count > 0
  {
  }

  lemma ChoiceIsPositive(sets: seq<FlowSet>, counts: seq<nat>)
    requires sets != [] && All(WfFlowSet, sets) && Interprets(sets, counts)
    ensures Sum(counts) > 0
  {
    hide SizeAt, Fits, Content, Sum;
    assert WfFlowSet(sets[0]) && Admits(sets, 0, counts[0]);
    assert counts[0] > 0 by {
      if sets[0].Data? && SizeAt(sets, 0) > 0 {
        FitsIsPositive(|sets[0].body|, SizeAt(sets, 0), counts[0]);
      }
    }
    SumCoversEach(counts, 0);
  }

  /** Every set holds a record, so a packet with a set cannot announce none. */
  lemma NoZeroTotal(sets: seq<FlowSet>)
    requires sets != [] && All(WfFlowSet, sets)
    ensures !TotalAllowed(Counted(sets), 0)
  {
    hide Interprets, TotalAllowed, All;
    CountedDecides(sets, 0);
    forall counts | SumsTo(sets, counts, 0) ensures false {
      ChoiceIsPositive(sets, counts);
    }
  }

  /** The sets of a readable packet are well formed. */
  lemma SetsWellFormed(b: seq<Byte>)
    requires ParseFlowSets(b).Some?
    ensures All(WfFlowSet, ParseFlowSets(b).value.items)
  {
    FlowSetCodes();
    ManySound(ParseFlowSet, EncodeFlowSet, WfFlowSet, 1, b);
  }

  /** Joining the two lists of ranges joins what decides the totals. */
  lemma AllowedConcat(a: seq<Range>, b: seq<Range>, total: nat)
    requires AllFeasible(a) && !AnyOpen(a)
    ensures TotalAllowed(a + b, total) <==>
              && AllFeasible(b) && SumLo(a) + SumLo(b) <= total
              && (AnyOpen(b) || total <= SumHi(a) + SumHi(b))
  {
    SumsConcat(a, b);
    var c := a + b;
    assert forall i :: 0 <= i < |b| ==> b[i] == c[|a| + i];
    assert forall i :: 0 <= i < |c| ==> c[i] == if i < |a| then a[i] else b[i - |a|];
    if AnyOpen(b) {
      var i :| 0 <= i < |b| && b[i].open;
      assert c[|a| + i].open;
    }
    if AllFeasible(c) {
      forall i | 0 <= i < |b| ensures Feasible(b[i]) {
        assert Feasible(c[|a| + i]);
      }
    }
  }

  /** Sets that cannot be read or counted make no accepted packet. */
  lemma HopelessIsRejected(payload: seq<Byte>, version: int)
    requires |payload| >= HEADER_SIZE
    requires Hopeless(ParseFlowSets(payload[HEADER_SIZE..]))
    ensures !Accepted(payload, version)
  {
    OneReading(payload, version);
    var r := ParsePacket(payload);
    if r.Some? {
      var sets := r.value.flowSets;
      CountedDecides(sets, r.value.header.flowCount);
      var i :| 0 <= i < |MeetAll(sets).met| && !Feasible(MeetAll(sets).met[i]);
      assert Counted(sets)[i] == MeetAll(sets).met[i];
    }
  }

  /** The final comparison of the header count with the totals. */
  lemma Decision(payload: seq<Byte>, version: int, sets: seq<FlowSet>, table: map<U16, nat>,
                 deferred: seq<Deferred>, lo: nat, hi: nat)
    requires |payload| >= HEADER_SIZE && GetU16(payload, 0) == version % 0x1_0000
    requires ParseFlowSets(payload[HEADER_SIZE..]) == Some(Items(sets, []))
    requires Tracks(sets, table, deferred, lo, hi)
    ensures var rest := Settle(table, deferred);
            var flowCount := GetU16(payload, 2);
            Accepted(payload, version) <==>
              && sets != [] && flowCount > 0 && AllFeasible(rest)
              && lo + SumLo(rest) <= flowCount && (AnyOpen(rest) || flowCount <= hi + SumHi(rest))
  {
    var flowCount := GetU16(payload, 2);
    OneReading(payload, version);
    SetsWellFormed(payload[HEADER_SIZE..]);
    CountedDecides(sets, flowCount);
    AllowedConcat(MeetAll(sets).met, Settle(table, deferred), flowCount);
    if sets != [] {
      NoZeroTotal(sets);
    }
  }

  /**
   The validator accepts exactly the byte strings the packet grammar and the counting rule accept.
   Every read is inside the payload and every loop ends.
   */
  method IsValidNetFlow(payload: seq<Byte>, nfVersion: int) returns (ok: bool, err: Option<string>)
    ensures ok <==> Accepted(payload, nfVersion)
    ensures ok <==> err.None?
  {
    hide Accepted, Hopeless, Tracks, Many, GetU16;
    if |payload| < 20 {
      OneReading(payload, nfVersion);
      return false, Some("payload too short for NetFlow v9 header");
    }
    var version, flowCount := GetU16(payload, 0), GetU16(payload, 2);
    if version != nfVersion % 0x1_0000 {
      OneReading(payload, nfVersion);
      return false, Some("header version doesn't match");
    }
    var offset, limit, setCount := 20, |payload|, 0;
    var templateRecordSizes: map<U16, nat>, deferredData: seq<Deferred> := map[], [];
    var totalMinRecords: nat, totalMaxRecords: nat := 0, 0;
    ghost var whole, sets := ParseFlowSets(payload[20..]), [];
    assert payload[20..limit] == payload[20..];
    TracksNothing();
    while offset < limit
      invariant 20 <= offset <= limit && setCount == |sets|
      invariant Tracks(sets, templateRecordSizes, deferredData, totalMinRecords, totalMaxRecords)
      invariant Continues(whole, sets, Many(ParseFlowSet, 1, payload[offset..limit]))
    {
      ghost var s;
      var valid;
      valid, offset, templateRecordSizes, deferredData, totalMinRecords, totalMaxRecords, s :=
        CheckFlowSet(payload, offset, limit, templateRecordSizes, deferredData,
                     totalMinRecords, totalMaxRecords, whole, sets);
      if !valid {
        HopelessIsRejected(payload, nfVersion);
        return false, Some("invalid FlowSet");
      }
      sets := sets + [s];
      setCount := setCount + 1;
    }
    ContinuesEnd(whole, sets, ParseFlowSet, 1, payload[offset..limit]);
    Decision(payload, nfVersion, sets, templateRecordSizes, deferredData, totalMinRecords, totalMaxRecords);
    var settled, hasUnresolvedData;
    settled, hasUnresolvedData, totalMinRecords, totalMaxRecords :=
      SettleDeferred(templateRecordSizes, deferredData, totalMinRecords, totalMaxRecords);
    if !settled {
      return false, Some("Data FlowSet has invalid record layout for its template");
    }
    if setCount == 0 {
      return false, Some("NetFlow v9 packet contains no FlowSets");
    }
    if flowCount == 0 {
      return false, Some("header FlowCount is zero");
    }
    if totalMinRecords > MAX_U16 {
      return false, Some("record count exceeds FlowCount field capacity");
    }
    if hasUnresolvedData {
      if flowCount < totalMinRecords {
        return false, Some("header FlowCount is less than minimum record count");
      }
    } else {
      if flowCount < totalMinRecords || flowCount > totalMaxRecords {
        return false, Some("header FlowCount is outside valid range");
      }
    }
    return true, None;
  }

  lemma TracksNothing()
    ensures Tracks([], map[], [], 0, 0)
  {
  }
}
