/** The IPFIX validator's verdict on messages of no set and of one set, byte by byte. */
module IpfixBytes {
  import opened Wrappers
  import opened Bytes
  import opened Codec
  import opened IpfixGrammar

  /** A specifier whose first bit is set takes eight bytes, any other four. */
  lemma SpecifierTakes(b: seq<Byte>)
    requires |b| >= 4
    ensures b[0] < 128 ==> ParseSpecifier(b) == Got(Specifier(GetU16(b, 0), GetU16(b, 2), []), 4)
    ensures b[0] >= 128 && |b| >= 8 ==>
              ParseSpecifier(b) == Got(Specifier(GetU16(b, 0), GetU16(b, 2), b[4..8]), 8)
    ensures b[0] >= 128 && |b| < 8 ==> ParseSpecifier(b).Fail?
  {
    assert b[4..4] == [];
  }

  /** Where n specifiers that start here end; past the end of the bytes if they do not fit. */
  function EndOf(b: seq<Byte>, at: nat, n: nat): nat
    decreases n
  {
    if n == 0 then at
    else if at + 4 > |b| then |b| + 1
    else EndOf(b, at + (if b[at] >= 128 then 8 else 4), n - 1)
  }

  lemma {:induction false} EndIsLater(b: seq<Byte>, at: nat, n: nat)
    ensures at > |b| ==> EndOf(b, at, n) > |b|
    ensures EndOf(b, at, n) <= |b| ==> at <= EndOf(b, at, n)
    decreases n
  {
    if n == 0 || at + 4 > |b| {
    } else {
      EndIsLater(b, at + (if b[at] >= 128 then 8 else 4), n - 1);
    }
  }

  /** Specifiers are read exactly when they fit. */
  lemma {:induction false} SpecifiersRead(b: seq<Byte>, at: nat, n: nat)
    requires at <= |b|
    ensures var r, end := Times(ParseSpecifier, n, b[at..]), EndOf(b, at, n);
            && (r.Some? <==> end <= |b|)
            && (r.Some? ==> r.value.tail == b[end..])
    decreases n
  {
    hide ParseSpecifier;
    if n == 0 {
    } else if at + 4 > |b| {
      TooShort(b[at..]);
    } else {
      var rest, size := b[at..], if b[at] >= 128 then 8 else 4;
      SpecifierTakes(rest);
      EndIsLater(b, at + size, n - 1);
      if at + size <= |b| {
        assert rest[size..] == b[at + size..];
        SpecifiersRead(b, at + size, n - 1);
      }
    }
  }

  lemma TooShort(b: seq<Byte>)
    requires |b| < 4
    ensures ParseSpecifier(b).Fail?
  {
  }

  // ----- Messages -----

  /** The first four bytes: version 10, and the length of the whole. */
  ghost predicate Header(b: seq<Byte>) {
    |b| >= 16 && b[0] == 0 && b[1] == 10 && GetU16(b, 2) == |b|
  }

  lemma AcceptedHeader(b: seq<Byte>)
    requires Accepted(b)
    ensures Header(b)
  {
    hide Accepted, Many;
    OneReading(b);
  }

  /** A header alone is a message. */
  lemma HeaderAlone(b: seq<Byte>)
    requires |b| == 16
    ensures Accepted(b) <==> b[0] == 0 && b[1] == 10 && b[2] == 0 && b[3] == 16
  {
    hide Accepted;
    OneReading(b);
    assert b[16..] == [];
    assert Many(ParseSet, 1, b[16..]) == Some(Items([], []));
  }

  /** One set fills what follows the header. */
  ghost predicate OneSet(b: seq<Byte>) {
    |b| >= 20 && GetU16(b, 18) == |b| - 16
  }

  lemma OneSetDecides(b: seq<Byte>)
    requires OneSet(b)
    ensures Accepted(b) <==> Header(b) && ParseContent(GetU16(b, 16), b[20..]).Some?
  {
    hide Accepted, ParseContent;
    OneReading(b);
    var sets := b[16..];
    assert GetU16(sets, 0) == GetU16(b, 16) && GetU16(sets, 2) == |sets|;
    assert sets[4..|sets|] == b[20..];
    ManyOne(ParseSet, 1, sets);
  }

  /** Data is not looked into: any ID from 256 on will do, none below but those of template sets. */
  lemma DataAlone(b: seq<Byte>)
    requires OneSet(b) && GetU16(b, 16) != 2 && GetU16(b, 16) != 3
    ensures Accepted(b) <==> Header(b) && GetU16(b, 16) >= 256
  {
    hide Accepted;
    OneSetDecides(b);
  }

  /** A set with one record, and less than four bytes left behind it, is a set if the record is one. */
  lemma OneRecord(parse: seq<Byte> -> Parsed<Record>, body: seq<Byte>)
    requires |body| >= 4
    requires parse(body).Got? ==> 0 < parse(body).size <= |body| < parse(body).size + 4
    ensures Many(parse, 4, body).Some? <==> parse(body).Got?
    ensures Many(parse, 4, body).Some? ==> Many(parse, 4, body).value.items != []
  {
    if parse(body).Got? {
      var left := body[parse(body).size..];
      assert Many(parse, 4, left) == Some(Items([], left));
    }
  }

  /** A template withdrawal is four bytes, in a template set or in an options template set. */
  lemma WithdrawalAlone(b: seq<Byte>)
    requires OneSet(b) && 24 <= |b| < 28 && (GetU16(b, 16) == 2 || GetU16(b, 16) == 3) && GetU16(b, 22) == 0
    ensures Accepted(b) <==> Header(b) && GetU16(b, 20) >= 256
  {
    hide Accepted, Times;
    OneSetDecides(b);
    var body := b[20..];
    assert GetU16(body, 0) == GetU16(b, 20) && GetU16(body, 2) == GetU16(b, 22);
    OneRecord(ParseTemplate, body);
    OneRecord(ParseOptions, body);
  }

  /** One template with fields: accepted exactly when its ID is at least 256 and its specifiers fit. */
  lemma TemplateAlone(b: seq<Byte>)
    requires OneSet(b) && GetU16(b, 16) == 2 && |b| >= 24 && GetU16(b, 22) > 0
    requires EndOf(b, 24, GetU16(b, 22)) > |b| - 4
    ensures Accepted(b) <==> Header(b) && GetU16(b, 20) >= 256 && EndOf(b, 24, GetU16(b, 22)) <= |b|
  {
    hide Accepted, Times;
    OneSetDecides(b);
    var body := b[20..];
    assert GetU16(body, 0) == GetU16(b, 20) && GetU16(body, 2) == GetU16(b, 22);
    assert body[4..] == b[24..];
    SpecifiersRead(b, 24, GetU16(b, 22));
    OneRecord(ParseTemplate, body);
  }

  /** So a template of one field needs four bytes for it, and four more if the first bit is set. */
  lemma OneFieldAlone(b: seq<Byte>)
    requires OneSet(b) && GetU16(b, 16) == 2 && 28 <= |b| < 36 && GetU16(b, 22) == 1
    requires b[24] < 128 ==> |b| < 32
    ensures Accepted(b) <==> Header(b) && GetU16(b, 20) >= 256 && (b[24] >= 128 ==> |b| >= 32)
  {
    hide Accepted;
    assert EndOf(b, 24, 1) == EndOf(b, 24 + (if b[24] >= 128 then 8 else 4), 0);
    TemplateAlone(b);
  }

  /** One options template: it has a number of scope fields too, from 1 to the number of all fields. */
  lemma OptionsAlone(b: seq<Byte>)
    requires OneSet(b) && GetU16(b, 16) == 3 && |b| >= 24 && GetU16(b, 22) > 0
    requires |b| >= 26 ==> EndOf(b, 26, GetU16(b, 22)) > |b| - 4
    ensures Accepted(b) <==>
              && Header(b) && GetU16(b, 20) >= 256 && |b| >= 26
              && 1 <= GetU16(b, 24) <= GetU16(b, 22) && EndOf(b, 26, GetU16(b, 22)) <= |b|
  {
    hide Accepted, Times;
    OneSetDecides(b);
    var body := b[20..];
    assert GetU16(body, 0) == GetU16(b, 20) && GetU16(body, 2) == GetU16(b, 22);
    if |b| >= 26 {
      assert GetU16(body, 4) == GetU16(b, 24) && body[6..] == b[26..];
      SpecifiersRead(b, 26, GetU16(b, 22));
    }
    OneRecord(ParseOptions, body);
  }
}
