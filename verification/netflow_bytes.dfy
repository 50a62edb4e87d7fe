/** The NetFlow v9 validator's verdict on packets of one FlowSet, byte by byte. */
module NetFlowBytes {
  import opened Wrappers
  import opened Bytes
  import opened Codec
  import opened NetFlowGrammar
  import opened NetFlowCounts
  import opened NetFlowValidator
  import opened Sums

  /** A header of 20 bytes, and one set that fills the rest. */
  ghost predicate OneSet(b: seq<Byte>) {
    |b| >= 24 && GetU16(b, 22) == |b| - 20
  }

  lemma OneSetRead(b: seq<Byte>)
    requires OneSet(b)
    ensures var s := ParseContent(GetU16(b, 20), b[24..]);
            ParsePacket(b) == if s.None? then None else Some(Packet(ParseHeader(b), [s.value]))
  {
    hide ParseContent, ParseHeader;
    var sets := b[20..];
    assert GetU16(sets, 0) == GetU16(b, 20) && GetU16(sets, 2) == |sets|;
    assert sets[4..|sets|] == b[24..];
    ManyOne(ParseFlowSet, 1, sets);
  }

  /** What one set comes to: the version, and a FlowCount its records allow. */
  lemma OneSetDecides(b: seq<Byte>, version: int)
    requires OneSet(b)
    ensures var s := ParseContent(GetU16(b, 20), b[24..]);
            Accepted(b, version) <==>
              && s.Some? && GetU16(b, 0) == version % 0x1_0000
              && if s.value.Data? then GetU16(b, 2) >= 1 else GetU16(b, 2) == TemplateCount(s.value)
  {
    hide Accepted, ParseContent, ParsePacket;
    OneReading(b, version);
    OneSetRead(b);
    var s := ParseContent(GetU16(b, 20), b[24..]);
    if s.Some? {
      OneSetCounts(s.value, GetU16(b, 2));
    }
  }

  lemma OneSetCounts(s: FlowSet, total: nat)
    ensures (exists counts :: SumsTo([s], counts, total)) <==>
            if s.Data? then total >= 1 else total == TemplateCount(s)
  {
    var sets := [s];
    if s.Data? {
      assert sets[..0] == [] && Table(sets) == Define(map[], []);
      assert SizeAt(sets, 0) == 0;
    }
    forall counts | SumsTo(sets, counts, total) ensures Admits(sets, 0, total) {
      assert counts == [counts[0]] && Sum(counts) == Sum(counts[..0]) + counts[0];
    }
    if Admits(sets, 0, total) {
      assert Sum([total]) == Sum([total][..0]) + total;
      assert SumsTo(sets, [total], total);
    }
  }

  /** A packet is at least a header with a FlowCount, a set header and a byte. */
  lemma AcceptedHeader(b: seq<Byte>, version: int)
    requires Accepted(b, version)
    ensures |b| >= 25 && GetU16(b, 0) == version % 0x1_0000 && GetU16(b, 2) >= 1
    ensures 4 <= GetU16(b, 22) <= |b| - 20 && (GetU16(b, 20) <= 1 || GetU16(b, 20) >= 256)
  {
    hide Accepted, ParsePacket, EncodePacket, Interprets, WfFlowSet;
    OneReading(b, version);
    var p := ParsePacket(b).value;
    ReaderIsGrammar(b, p);
    var counts :| SumsTo(p.flowSets, counts, p.header.flowCount);
    ChoiceIsPositive(p.flowSets, counts);
    FirstSet(b);
  }

  lemma FirstSet(b: seq<Byte>)
    requires ParsePacket(b).Some? && ParsePacket(b).value.flowSets != []
    ensures |b| >= 25 && 4 <= GetU16(b, 22) <= |b| - 20 && (GetU16(b, 20) <= 1 || GetU16(b, 20) >= 256)
    ensures ParsePacket(b).value.header.version == GetU16(b, 0) && ParsePacket(b).value.header.flowCount == GetU16(b, 2)
  {
    hide Times;
    var sets := b[20..];
    assert ParseFlowSet(sets).Got?;
    assert GetU16(sets, 0) == GetU16(b, 20) && GetU16(sets, 2) == GetU16(b, 22);
    assert ParseContent(GetU16(sets, 0), sets[4..GetU16(sets, 2)]).Some?;
  }

  /** Data alone: accepted with any FlowCount but zero, if there is any data, under an ID from 256 on. */
  lemma DataAlone(b: seq<Byte>)
    requires OneSet(b) && GetU16(b, 20) >= 2
    ensures Accepted(b, 9) <==> b[0] == 0 && b[1] == 9 && GetU16(b, 2) >= 1 && GetU16(b, 20) >= 256 && |b| >= 25
  {
    hide Accepted;
    OneSetDecides(b, 9);
  }

  /** The lengths of n field specifiers from here on are not zero. */
  ghost predicate LengthsFrom(b: seq<Byte>, at: nat, n: nat)
    requires at + 4 * n <= |b|
  {
    forall k :: 0 <= k < n ==> GetU16(b, at + 4 * k + 2) > 0
  }

  /** n specifiers are read exactly when none of their lengths is zero. */
  lemma {:induction false} FieldsRead(b: seq<Byte>, at: nat, n: nat)
    requires at <= |b|
    ensures var r := Times(ParseField, n, b[at..]);
            && (r.Some? <==> at + 4 * n <= |b| && LengthsFrom(b, at, n))
            && (r.Some? ==> r.value.tail == b[at + 4 * n..])
    decreases n
  {
    if n == 0 {
    } else {
      var rest := b[at..];
      if |rest| >= 4 {
        assert GetU16(rest, 2) == GetU16(b, at + 2);
        if GetU16(rest, 2) > 0 {
          assert rest[4..] == b[at + 4..];
          FieldsRead(b, at + 4, n - 1);
          LengthsNext(b, at, n);
        }
      }
      if at + 4 * n <= |b| && LengthsFrom(b, at, n) {
        assert GetU16(b, at + 4 * 0 + 2) > 0;
      }
    }
  }

  lemma LengthsNext(b: seq<Byte>, at: nat, n: nat)
    requires n > 0 && at + 4 <= |b|
    ensures at + 4 * n <= |b| <==> at + 4 + 4 * (n - 1) <= |b|
    ensures at + 4 * n <= |b| ==>
              (LengthsFrom(b, at, n) <==> GetU16(b, at + 2) > 0 && LengthsFrom(b, at + 4, n - 1))
  {
    if at + 4 * n <= |b| {
      if LengthsFrom(b, at, n) {
        assert GetU16(b, at + 4 * 0 + 2) > 0;
        forall k | 0 <= k < n - 1 ensures GetU16(b, at + 4 + 4 * k + 2) > 0 {
          assert GetU16(b, at + 4 * (k + 1) + 2) > 0;
        }
      }
      if GetU16(b, at + 2) > 0 && LengthsFrom(b, at + 4, n - 1) {
        forall k | 0 <= k < n ensures GetU16(b, at + 4 * k + 2) > 0 {
          if k > 0 {
            assert GetU16(b, at + 4 + 4 * (k - 1) + 2) > 0;
          }
        }
      }
    }
  }

  /**
   One template, in a set with less than four bytes left behind it: accepted exactly when its ID is
   at least 256, no field is empty, what is left is zero, and the FlowCount is 1.
   */
  lemma TemplateAlone(b: seq<Byte>)
    requires OneSet(b) && b[20] == 0 && b[21] == 0 && |b| >= 28
    requires |b| - 4 < 28 + 4 * GetU16(b, 26) <= |b|
    ensures Accepted(b, 9) <==>
              && b[0] == 0 && b[1] == 9 && b[2] == 0 && b[3] == 1 && GetU16(b, 24) >= 256
              && LengthsFrom(b, 28, GetU16(b, 26))
              && forall i :: 28 + 4 * GetU16(b, 26) <= i < |b| ==> b[i] == 0
  {
    hide Accepted, Times;
    OneSetDecides(b, 9);
    var n, body := GetU16(b, 26), b[24..];
    assert body[4..] == b[28..];
    FieldsRead(b, 28, n);
    assert GetU16(body, 0) == GetU16(b, 24) && GetU16(body, 2) == n;
    if ParseTemplate(body).Got? {
      var left := b[28 + 4 * n..];
      assert body[4 + 4 * n..] == left;
      assert Many(ParseTemplate, 4, left) == Some(Items([], left));
      LeftZero(b, 28 + 4 * n, left);
    }
  }

  lemma LeftZero(b: seq<Byte>, at: nat, left: seq<Byte>)
    requires at <= |b| && left == b[at..]
    ensures AllZero(left) <==> forall i :: at <= i < |b| ==> b[i] == 0
  {
    if AllZero(left) {
      forall i | at <= i < |b| ensures b[i] == 0 {
        assert left[i - at] == 0;
      }
    }
  }

  /** One template that needs more bytes than its set has is refused. */
  lemma TemplateTooLong(b: seq<Byte>)
    requires OneSet(b) && b[20] == 0 && b[21] == 0 && |b| >= 28 && 28 + 4 * GetU16(b, 26) > |b|
    ensures !Accepted(b, 9)
  {
    hide Accepted, Times;
    OneSetDecides(b, 9);
    var body := b[24..];
    assert body[4..] == b[28..];
    FieldsRead(b, 28, GetU16(b, 26));
    assert GetU16(body, 2) == GetU16(b, 26);
    assert ParseTemplate(body).Fail?;
  }

  /**
   One options template, in a set with less than six bytes left behind it, likewise; the byte
   lengths of its scope and option fields are multiples of four.
   */
  lemma OptionsAlone(b: seq<Byte>)
    requires OneSet(b) && b[20] == 0 && b[21] == 1 && |b| >= 30
    requires |b| - 6 < 30 + GetU16(b, 26) + GetU16(b, 28) <= |b|
    ensures Accepted(b, 9) <==>
              && b[0] == 0 && b[1] == 9 && b[2] == 0 && b[3] == 1 && GetU16(b, 24) >= 256
              && GetU16(b, 26) % 4 == 0 && GetU16(b, 28) % 4 == 0
              && LengthsFrom(b, 30, (GetU16(b, 26) + GetU16(b, 28)) / 4)
              && forall i :: 30 + GetU16(b, 26) + GetU16(b, 28) <= i < |b| ==> b[i] == 0
  {
    hide Accepted, ParseOptions;
    OneSetDecides(b, 9);
    OptionsBody(b);
    var at, body := 30 + GetU16(b, 26) + GetU16(b, 28), b[24..];
    if ParseOptions(body).Got? {
      var left := b[at..];
      assert body[at - 24..] == left;
      assert Many(ParseOptions, 6, left) == Some(Items([], left));
      LeftZero(b, at, left);
    }
  }

  lemma OptionsBody(b: seq<Byte>)
    requires |b| >= 30 && 30 + GetU16(b, 26) + GetU16(b, 28) <= |b|
    ensures var n, r := (GetU16(b, 26) + GetU16(b, 28)) / 4, ParseOptions(b[24..]);
            && (r.Got? <==>
                  && GetU16(b, 24) >= 256 && GetU16(b, 26) % 4 == 0 && GetU16(b, 28) % 4 == 0
                  && LengthsFrom(b, 30, n))
            && (r.Got? ==> r.size == 6 + GetU16(b, 26) + GetU16(b, 28))
  {
    hide Times, LengthsFrom;
    var n, body := (GetU16(b, 26) + GetU16(b, 28)) / 4, b[24..];
    assert body[6..] == b[30..];
    FieldsRead(b, 30, n);
    assert GetU16(body, 0) == GetU16(b, 24) && GetU16(body, 2) == GetU16(b, 26) && GetU16(body, 4) == GetU16(b, 28);
  }
}
