/** What a barrage worker's packets and statistics are, byte by byte and figure by figure. */
module BarrageWire {
  import opened Wrappers
  import opened Bytes
  import opened FlowRecords
  import opened Barrage
  import opened Sums
  import V9 = NetFlowExport
  import V9Generated = NetFlowGenerated
  import V10 = IpfixExport
  import V10Generated = IpfixGenerated
  import NetFlowWire
  import IpfixWire

  /** What a counted event adds: a template one flow, data as many flows as were drawn and one cycle. */
  ghost predicate Adds(e: Event, flows: nat, cycles: nat) {
    match e
    case Cancelled => false
    case TemplateDue(_, _) => flows == 1 && cycles == 0
    case DataDue(flowCount, draws, _, _) => flowCount == Some(flows) && cycles == 1
  }

  lemma {:induction false} TotalsAre(sends: seq<Send>, flows: seq<nat>, cycles: seq<nat>, sizes: seq<nat>)
    requires |flows| == |cycles| == |sizes| == |sends|
    requires forall j :: 0 <= j < |sends| ==> sends[j] == Send(flows[j], cycles[j] == 1, sizes[j]) && cycles[j] <= 1
    ensures Flows(sends) == Sum(flows) && Cycles(sends) == Sum(cycles) && Sizes(sends) == Sum(sizes)
  {
    if sends == [] {
    } else {
      var n := |sends| - 1;
      TotalsAre(sends[..n], flows[..n], cycles[..n], sizes[..n]);
    }
  }

  /** Each statistic adds up what the events so far have sent, in 64 bits: flows, cycles and bytes of packets. */
  lemma StatsAddUp(id: int, sourceID: int, openers: nat, events: seq<Event>, packets: seq<seq<Byte>>, sends: seq<Send>,
                   stats: seq<WorkerStat>, k: nat, flows: seq<nat>, cycles: seq<nat>, sizes: seq<nat>)
    requires Reported(id, sourceID, sends, stats) && Counted(openers, events, packets, sends) && k < |stats|
    requires |flows| == |cycles| == |sizes| == k + 1
    requires forall j :: 0 <= j <= k ==> Adds(events[j], flows[j], cycles[j]) && sizes[j] == |packets[openers + j]|
    ensures stats[k] == WorkerStat(id, sourceID, Sum(flows) % 0x1_0000_0000_0000_0000,
                                   Sum(cycles) % 0x1_0000_0000_0000_0000, Sum(sizes) % 0x1_0000_0000_0000_0000)
  {
    hide Sum, Flows, Cycles, Sizes;
    var front := sends[..k + 1];
    forall j | 0 <= j < |front| ensures front[j] == Send(flows[j], cycles[j] == 1, sizes[j]) && cycles[j] <= 1 {
      assert Adds(events[j], flows[j], cycles[j]);
      assert sends[j] == SendOf(events[j], |packets[openers + j]|);
    }
    TotalsAre(front, flows, cycles, sizes);
  }

  /** NetFlow packets are numbered from 1 on, one by one, in bytes 12 to 15; bytes 16 to 19 are the source. */
  lemma NetFlowOnWire(p: Protocol, sourceID: int, started: int, opening: Opening, events: seq<Event>,
                      log: seq<Export>, packets: seq<seq<Byte>>, i: nat)
    requires p.NetFlow? && Wire(p, log, packets) && Story(p, sourceID, started, opening, events, log) && i < |packets|
    ensures var b := packets[i];
            && |b| >= 20 && GetU16(b, 0) == 9 && GetU32(b, 12) == (i + 1) % 0x1_0000_0000
            && GetU32(b, 16) == sourceID % 0x1_0000_0000
  {
    hide Wire, Story, V9.NetflowBytes, GetU16, GetU32;
    PacketIs(p, sourceID, started, opening, events, log, packets, i);
    NetFlowWire.HeaderOnBytes(log[i].n);
  }

  lemma PacketIs(p: Protocol, sourceID: int, started: int, opening: Opening, events: seq<Event>,
                 log: seq<Export>, packets: seq<seq<Byte>>, i: nat)
    requires p.NetFlow? && Wire(p, log, packets) && Story(p, sourceID, started, opening, events, log) && i < |packets|
    ensures |packets| == |log| && log[i].OverNetFlow? && packets[i] == V9.NetflowBytes(log[i].n)
    ensures var h := log[i].n.header;
            h.version == 9 && h.flowSequence == (i + 1) % 0x1_0000_0000 && h.sourceId == sourceID % 0x1_0000_0000
  {
    hide V9.NetflowBytes, Values, Valid, V9.GeneratedTemplate, V9.GeneratedData, AllMatch;
    assert Follows(p, log[..i], log[i]);
    if i > 0 {
      assert Answers(events[i - 1], log[i], sourceID, started);
    }
  }

  /** The Data Records of a message: none in a template, one in options data, else the flows drawn. */
  ghost predicate Holds(events: seq<Event>, i: nat, records: nat) {
    if i <= 1 then records == i
    else
      i - 2 < |events|
      && match events[i - 2]
         case Cancelled => false
         case TemplateDue(_, _) => records == 0
         case DataDue(_, draws, _, _) => records == |draws|
  }

  lemma {:induction false} RecordsAre(sourceID: int, started: int, opening: Opening, events: seq<Event>,
                                      log: seq<Export>, packets: seq<seq<Byte>>, records: seq<nat>, i: nat)
    requires Wire(Ipfix, log, packets) && Story(Ipfix, sourceID, started, opening, events, log)
    requires |records| == |log| && i <= |log| && forall j :: 0 <= j < |log| ==> Holds(events, j, records[j])
    ensures Records(log[..i]) == Sum(records[..i])
  {
    hide Wire, Story;
    if i == 0 {
      assert Records(log[..0]) == 0 && Sum(records[..0]) == 0;
    } else {
      RecordsAre(sourceID, started, opening, events, log, packets, records, i - 1);
      assert log[..i][..i - 1] == log[..i - 1] && records[..i][..i - 1] == records[..i - 1];
      MessageHolds(sourceID, started, opening, events, log, packets, records[i - 1], i - 1);
    }
  }

  lemma MessageHolds(sourceID: int, started: int, opening: Opening, events: seq<Event>, log: seq<Export>,
                     packets: seq<seq<Byte>>, records: nat, i: nat)
    requires Wire(Ipfix, log, packets) && Story(Ipfix, sourceID, started, opening, events, log)
    requires i < |log| && Holds(events, i, records)
    ensures RecordsIn(log[i]) == records
  {
    hide ExportBytes, Valid, Sendable;
    assert Follows(Ipfix, log[..i], log[i]);
    V10Generated.RecordsOf(log[i].f);
    if i >= 2 {
      assert Answers(events[i - 2], log[i], sourceID, started);
    }
  }

  /**
   An IPFIX message carries in bytes 8 to 11 the number of Data Records in all messages before it,
   and in bytes 12 to 15 the source.
   */
  lemma IpfixOnWire(sourceID: int, started: int, opening: Opening, events: seq<Event>, log: seq<Export>,
                    packets: seq<seq<Byte>>, records: seq<nat>, i: nat)
    requires Wire(Ipfix, log, packets) && Story(Ipfix, sourceID, started, opening, events, log) && i < |packets|
    requires |records| == |log| && forall j :: 0 <= j < |log| ==> Holds(events, j, records[j])
    ensures var b := packets[i];
            && |b| >= 16 && b[0] == 0 && b[1] == 10 && GetU16(b, 2) == |b|
            && GetU32(b, 8) == Sum(records[..i]) % 0x1_0000_0000 && GetU32(b, 12) == sourceID % 0x1_0000_0000
  {
    hide Wire, Story, Holds, V10.MessageBytes, V10.SetsBytes, GetU16, GetU32, Records, Sum;
    MessageIs(sourceID, started, opening, events, log, packets, i);
    RecordsAre(sourceID, started, opening, events, log, packets, records, i);
    IpfixWire.HeaderOnBytes(log[i].f);
  }

  lemma MessageIs(sourceID: int, started: int, opening: Opening, events: seq<Event>, log: seq<Export>,
                  packets: seq<seq<Byte>>, i: nat)
    requires Wire(Ipfix, log, packets) && Story(Ipfix, sourceID, started, opening, events, log) && i < |packets|
    ensures |packets| == |log| && log[i].OverIpfix? && 16 + |V10.SetsBytes(log[i].f)| <= 65535
    ensures var f := log[i].f;
            && packets[i] == V10.MessageBytes(f) && f.header.version == 10
            && f.header.sequenceNumber == Records(log[..i]) % 0x1_0000_0000
            && f.header.observationDomainId == sourceID % 0x1_0000_0000
  {
    hide V10.MessageBytes, V10.SetsBytes, Values, Valid, Records;
    assert Follows(Ipfix, log[..i], log[i]);
    if i >= 2 {
      assert Answers(events[i - 2], log[i], sourceID, started);
    }
  }

  /** The packet has the second of the event in bytes 8 to 11, and behind its header the template or the flows drawn. */
  ghost predicate NetFlowAnswer(profile: V9.Profile, e: Event, b: seq<Byte>) {
    && |b| >= 20
    && match e
       case Cancelled => false
       case TemplateDue(now, _) =>
         GetU32(b, 8) == V9.UnixSec(now) && NetFlowWire.TemplateOnBytes(V9.TemplateFields(profile), b[20..])
       case DataDue(_, draws, now, _) =>
         && None !in draws && GetU32(b, 8) == V9.UnixSec(now)
         && DataOnBytes(V9.StructLayout(profile), Values(draws), b[20..])
  }

  /** The first packet is the template, every other answers the event before it. */
  lemma NetFlowAnswers(p: Protocol, sourceID: int, started: int, opening: Opening, events: seq<Event>,
                       log: seq<Export>, packets: seq<seq<Byte>>, i: nat)
    requires p.NetFlow? && Wire(p, log, packets) && Story(p, sourceID, started, opening, events, log) && i < |packets|
    ensures i > 0 ==> i - 1 < |events|
    ensures var e := if i == 0 then TemplateDue(opening.templateAt, true) else events[i - 1];
            NetFlowAnswer(p.profile, e, packets[i])
  {
    hide V9.NetflowBytes, GetU32, Valid, V9Generated.Generated, DataOnBytes, V9.TemplateFields, V9.StructLayout;
    hide NetFlowWire.TemplateOnBytes;
    assert Follows(p, log[..i], log[i]);
    NetFlowWire.HeaderOnBytes(log[i].n);
    NetFlowWire.GeneratedOnBytes(p.profile, log[i].n);
    if i > 0 {
      assert Answers(events[i - 1], log[i], sourceID, started);
    }
    var b := packets[i];
    assert b[20..|b|] == b[20..];
  }

  /** The same for an IPFIX message, whose time is in bytes 4 to 7 and whose templates are two. */
  ghost predicate IpfixAnswer(e: Event, b: seq<Byte>) {
    && |b| >= 16
    && match e
       case Cancelled => false
       case TemplateDue(now, _) =>
         && GetU32(b, 4) == V10Generated.ExportTime(now)
         && b[16..] == V10.TemplateFlowSetBytes(V10Generated.TEMPLATE_SET)
                       + V10.OptionsTemplateFlowSetBytes(V10Generated.OPTIONS_TEMPLATE_SET)
       case DataDue(_, draws, now, _) =>
         && None !in draws && GetU32(b, 4) == V10Generated.ExportTime(now)
         && DataOnBytes(V10.STRUCT_LAYOUT, Values(draws), b[16..])
  }

  /** The first message holds the templates, the second the source as options data, every other answers an event. */
  lemma IpfixAnswers(sourceID: int, started: int, opening: Opening, events: seq<Event>, log: seq<Export>,
                     packets: seq<seq<Byte>>, i: nat)
    requires Wire(Ipfix, log, packets) && Story(Ipfix, sourceID, started, opening, events, log) && i < |packets|
    ensures i == 0 ==> IpfixAnswer(TemplateDue(opening.templateAt, true), packets[i])
    ensures i == 1 ==>
              && |packets[i]| == 24 && GetU32(packets[i], 4) == V10Generated.ExportTime(opening.optionsAt)
              && packets[i][16..] == [1, 1, 0, 8] + PutU32(sourceID % 0x1_0000_0000)
    ensures i > 1 ==> i - 2 < |events| && IpfixAnswer(events[i - 2], packets[i])
  {
    hide V10.MessageBytes, V10.SetsBytes, GetU32, PutU32, Valid, V10Generated.Generated, DataOnBytes, Records;
    hide V10.STRUCT_LAYOUT, V10Generated.TEMPLATE_SET, V10Generated.OPTIONS_TEMPLATE_SET, V10Generated.OptionsDataSet;
    hide V10.TemplateFlowSetBytes, V10.OptionsTemplateFlowSetBytes, V10.OptionsDataFlowSetBytes, V10.DataFlowSetBytes;
    MessageIs(sourceID, started, opening, events, log, packets, i);
    assert Follows(Ipfix, log[..i], log[i]);
    IpfixWire.HeaderOnBytes(log[i].f);
    if i > 1 {
      assert Answers(events[i - 2], log[i], sourceID, started);
      var e := events[i - 2];
      SaidOnBytes(log[i].f, if e.TemplateDue? then Templates else Data(Values(e.draws)), sourceID, e.now, started);
    } else {
      SaidOnBytes(log[i].f, if i == 0 then Templates else OptionsData, sourceID,
                  if i == 0 then opening.templateAt else opening.optionsAt, started);
    }
  }

  lemma SaidOnBytes(f: V10.IPFIX, c: Content, sourceID: int, now: int, started: int)
    requires V10Generated.Generated(f) && Says(OverIpfix(f), c, sourceID, now, started)
    ensures f.header.exportTime == V10Generated.ExportTime(now)
    ensures match c
            case Templates =>
              V10.SetsBytes(f) == V10.TemplateFlowSetBytes(V10Generated.TEMPLATE_SET)
                                  + V10.OptionsTemplateFlowSetBytes(V10Generated.OPTIONS_TEMPLATE_SET)
            case OptionsData => V10.SetsBytes(f) == [1, 1, 0, 8] + PutU32(sourceID % 0x1_0000_0000)
            case Data(flows) => DataOnBytes(V10.STRUCT_LAYOUT, flows, V10.SetsBytes(f))
  {
    hide V10.SetsBytes, PutU32, V10Generated.Generated, DataOnBytes, V10Generated.OptionsDataSet;
    hide V10.STRUCT_LAYOUT, V10Generated.TEMPLATE_SET, V10Generated.OPTIONS_TEMPLATE_SET;
    hide V10.TemplateFlowSetBytes, V10.OptionsTemplateFlowSetBytes, V10.OptionsDataFlowSetBytes, V10.DataFlowSetBytes;
    IpfixWire.GeneratedOnBytes(f);
    IpfixWire.OptionsDataSetIs(sourceID % 0x1_0000_0000);
    var t := V10.TemplateFlowSetBytes(V10Generated.TEMPLATE_SET);
    var o := V10.OptionsTemplateFlowSetBytes(V10Generated.OPTIONS_TEMPLATE_SET);
    match c
    case Templates => assert V10.SetsBytes(f) == t + o;
    case OptionsData =>
    case Data(_) => assert V10.SetsBytes(f) == V10.DataFlowSetBytes(f.dataFlowSets[0]);
  }
}
