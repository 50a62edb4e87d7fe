/** What the verdict on a NetFlow v9 packet does and does not depend on. */
module NetFlowProperties {
  import opened Wrappers
  import opened Bytes
  import opened NetFlowGrammar
  import opened NetFlowCounts
  import opened NetFlowValidator
  import opened Sums

  lemma WellFormedVerdict(p: Packet, version: int)
    requires WfPacket(p)
    ensures Accepted(EncodePacket(p), version) <==> p.header.version == version % 0x1_0000 && ValidPacket(p)
  {
    OneReading(EncodePacket(p), version);
    ReaderIsGrammar(EncodePacket(p), p);
  }

  // ----- Padding -----

  /** A choice of padding for every set: none beyond the Data FlowSets, whole records before it. */
  ghost predicate Padding(sets: seq<FlowSet>, pads: seq<nat>) {
    |pads| == |sets| && forall i :: 0 <= i < |sets| ==> PaddingAt(sets, i, pads[i])
  }

  ghost predicate PaddingAt(sets: seq<FlowSet>, i: nat, pad: nat)
    requires i < |sets|
  {
    if sets[i].Data? then
      && pad < 4 && pad < |sets[i].body| && SizeAt(sets, i) > 0
      && (|sets[i].body| - pad) % SizeAt(sets, i) == 0
    else pad == 0
  }

  function CountAt(sets: seq<FlowSet>, i: nat, pad: nat): nat
    requires i < |sets| && PaddingAt(sets, i, pad)
  {
    if sets[i].Data? then (|sets[i].body| - pad) / SizeAt(sets, i) else TemplateCount(sets[i])
  }

  function CountsWith(sets: seq<FlowSet>, pads: seq<nat>): seq<nat>
    requires Padding(sets, pads)
  {
    seq(|sets|, i requires 0 <= i < |sets| => CountAt(sets, i, pads[i]))
  }

  lemma CountIsAdmitted(sets: seq<FlowSet>, i: nat, pad: nat)
    requires i < |sets| && PaddingAt(sets, i, pad)
    ensures Admits(sets, i, CountAt(sets, i, pad))
  {
    if sets[i].Data? {
      var length, size := |sets[i].body|, SizeAt(sets, i);
      PaddingFixesCount(length, size, pad);
      assert PaddedBy(length, size, CountAt(sets, i, pad), pad);
    }
  }

  lemma AdmittedHasPadding(sets: seq<FlowSet>, i: nat, count: nat) returns (pad: nat)
    requires i < |sets| && Admits(sets, i, count)
    requires sets[i].Data? ==> SizeAt(sets, i) > 0
    ensures PaddingAt(sets, i, pad) && CountAt(sets, i, pad) == count
  {
    pad := 0;
    if sets[i].Data? {
      var length, size := |sets[i].body|, SizeAt(sets, i);
      pad :| PaddedBy(length, size, count, pad);
      PaddingFixesCount(length, size, pad);
    }
  }

  lemma {:induction false} ChoosePads(sets: seq<FlowSet>, counts: seq<nat>, k: nat) returns (pads: seq<nat>)
    requires Interprets(sets, counts) && k <= |sets|
    requires forall i :: 0 <= i < |sets| && sets[i].Data? ==> SizeAt(sets, i) > 0
    ensures |pads| == k
    ensures forall i :: 0 <= i < k ==> PaddingAt(sets, i, pads[i]) && CountAt(sets, i, pads[i]) == counts[i]
  {
    hide SizeAt, Fits;
    if k == 0 {
      pads := [];
    } else {
      var front := ChoosePads(sets, counts, k - 1);
      var pad := AdmittedHasPadding(sets, k - 1, counts[k - 1]);
      pads := front + [pad];
    }
  }

  /**
   When every Data FlowSet has a known record size, a well-formed packet is accepted exactly when
   some padding of at most three bytes per Data FlowSet, each leaving whole records, makes the
   template and data records sum to the FlowCount.
   */
  lemma PaddingDecides(p: Packet, version: int)
    requires WfPacket(p)
    requires forall i :: 0 <= i < |p.flowSets| && p.flowSets[i].Data? ==> SizeAt(p.flowSets, i) > 0
    ensures Accepted(EncodePacket(p), version) <==>
              && p.header.version == version % 0x1_0000 && p.flowSets != []
              && exists pads :: Padding(p.flowSets, pads) && Sum(CountsWith(p.flowSets, pads)) == p.header.flowCount
  {
    var sets, total := p.flowSets, p.header.flowCount;
    WellFormedVerdict(p, version);
    forall counts | SumsTo(sets, counts, total)
      ensures exists pads :: Padding(sets, pads) && Sum(CountsWith(sets, pads)) == total
    {
      var pads := ChoosePads(sets, counts, |sets|);
      assert CountsWith(sets, pads) == counts;
    }
    forall pads | Padding(sets, pads) && Sum(CountsWith(sets, pads)) == total
      ensures exists counts :: SumsTo(sets, counts, total)
    {
      forall i | 0 <= i < |sets| ensures Admits(sets, i, CountsWith(sets, pads)[i]) {
        CountIsAdmitted(sets, i, pads[i]);
      }
      assert SumsTo(sets, CountsWith(sets, pads), total);
    }
  }

  // ----- Timestamp -----

  /** The payload with its header time replaced. */
  function Refreshed(payload: seq<Byte>, now: U32): seq<Byte>
    requires |payload| >= HEADER_SIZE
  {
    payload[..8] + PutU32(now) + payload[12..]
  }

  /** Reads the header, sets its time, and writes header and remainder back. */
  method UpdateTimeStamp(payload: seq<Byte>, now: U32) returns (r: Result<seq<Byte>>)
    ensures r.Ok? <==> |payload| >= HEADER_SIZE
    ensures r.Ok? ==> r.value == Refreshed(payload, now)
  {
    if |payload| < HEADER_SIZE {
      return Err("unexpected EOF");
    }
    var header := ParseHeader(payload);
    var remainder := payload[HEADER_SIZE..];
    header := header.(unixSec := now);
    RefreshedHeader(payload, now);
    return Ok(EncodeHeader(header) + remainder);
  }

  lemma Regrouped(a: seq<Byte>, b: seq<Byte>, c: seq<Byte>, d: seq<Byte>, e: seq<Byte>)
    ensures a + (b + ((c + d) + e)) == (a + (b + c)) + d + e
  {
  }

  /** The header around its time field. */
  lemma HeaderAroundTime(h: Header)
    ensures var first, last := PutU16(h.version) + (PutU16(h.flowCount) + PutU32(h.sysUptime)),
                               PutU32(h.flowSequence) + PutU32(h.sourceId);
            EncodeHeader(h) == first + PutU32(h.unixSec) + last && |first| == 8 && |last| == 8
  {
    HeaderParts(PutU16(h.version), PutU16(h.flowCount), PutU32(h.sysUptime), PutU32(h.flowSequence),
                PutU32(h.sourceId));
    hide PutU16, PutU32;
    Regrouped(PutU16(h.version), PutU16(h.flowCount), PutU32(h.sysUptime), PutU32(h.unixSec),
              PutU32(h.flowSequence) + PutU32(h.sourceId));
  }

  lemma HeaderParts(a: seq<Byte>, b: seq<Byte>, c: seq<Byte>, d: seq<Byte>, e: seq<Byte>)
    requires |a| == |b| == 2 && |c| == |d| == |e| == 4
    ensures |a + (b + c)| == 8 && |d + e| == 8
  {
  }

  lemma ReplaceMiddle(b: seq<Byte>, first: seq<Byte>, mid: seq<Byte>, last: seq<Byte>, tail: seq<Byte>,
                      other: seq<Byte>)
    requires b == first + mid + last + tail && |first| == 8 && |mid| == |other| == 4
    ensures first + other + last + tail == b[..8] + other + b[12..]
  {
    assert b[..8] == first && b[12..] == last + tail;
  }

  lemma RefreshedHeader(payload: seq<Byte>, now: U32)
    requires |payload| >= HEADER_SIZE
    ensures EncodeHeader(ParseHeader(payload).(unixSec := now)) + payload[HEADER_SIZE..] == Refreshed(payload, now)
  {
    hide GetU16, GetU32, PutU16, EncodeHeader, ParseHeader;
    var h, tail := ParseHeader(payload), payload[HEADER_SIZE..];
    HeaderBytes(payload);
    HeaderAroundTime(h);
    HeaderAroundTime(h.(unixSec := now));
    var first := PutU16(h.version) + (PutU16(h.flowCount) + PutU32(h.sysUptime));
    var last := PutU32(h.flowSequence) + PutU32(h.sourceId);
    assert payload == payload[..HEADER_SIZE] + tail;
    TimeSize(h.unixSec);
    TimeSize(now);
    ReplaceMiddle(payload, first, PutU32(h.unixSec), last, tail, PutU32(now));
  }

  lemma TimeSize(x: U32)
    ensures |PutU32(x)| == 4
  {
  }

  /** A refresh touches four bytes. */
  lemma RefreshKeepsBytes(payload: seq<Byte>, now: U32)
    requires |payload| >= HEADER_SIZE
    ensures var r := Refreshed(payload, now);
            && |r| == |payload| && GetU32(r, 8) == now
            && forall i :: 0 <= i < |r| && !(8 <= i < 12) ==> r[i] == payload[i]
  {
    assert Refreshed(payload, now)[8..12] == PutU32(now);
    Dropped(Refreshed(payload, now)[..12], 8, 0);
  }

  /** A refreshed packet keeps its verdict. */
  lemma RefreshKeepsVerdict(payload: seq<Byte>, now: U32, version: int)
    requires |payload| >= HEADER_SIZE
    ensures Accepted(Refreshed(payload, now), version) <==> Accepted(payload, version)
  {
    hide ValidPacket;
    var r := Refreshed(payload, now);
    OneReading(payload, version);
    OneReading(r, version);
    assert r[HEADER_SIZE..] == payload[HEADER_SIZE..];
    RefreshedHeader(payload, now);
    HeaderRoundTrip(ParseHeader(payload).(unixSec := now), payload[HEADER_SIZE..]);
    if ParsePacket(payload).Some? {
      SameVerdict(ParsePacket(payload).value, ParsePacket(r).value);
    }
  }

  lemma SameVerdict(p: Packet, q: Packet)
    requires p.flowSets == q.flowSets && p.header.flowCount == q.header.flowCount
    ensures ValidPacket(p) <==> ValidPacket(q)
  {
  }
}
