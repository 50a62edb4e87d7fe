/**
 A barrage worker: it sends a template, for IPFIX an options data message, and then any mix of
 repeated templates and data until it is cancelled or something fails. Ticks, drawn values and
 the fate of each send arrive as events.
 */
module Barrage {
  import opened Wrappers
  import opened Bytes
  import opened FlowRecords
  import V9 = NetFlowExport
  import V9Generated = NetFlowGenerated
  import V9Counts = NetFlowCounts
  import V10 = IpfixExport
  import V10Generated = IpfixGenerated
  import V10Grammar = IpfixGrammar

  datatype Protocol = NetFlow(profile: V9.Profile) | Ipfix

  /** One packet handed to the socket, as the structure it was serialized from. */
  datatype Export = OverNetFlow(n: V9.Netflow) | OverIpfix(f: V10.IPFIX)

  ghost predicate Sendable(m: Export) {
    m.OverIpfix? ==> 16 + |V10.SetsBytes(m.f)| <= MAX_U16
  }

  function ExportBytes(m: Export): seq<Byte>
    requires Sendable(m)
  {
    match m
    case OverNetFlow(n) => V9.NetflowBytes(n)
    case OverIpfix(f) => V10.MessageBytes(f)
  }

  /** The Data Records a message adds to the IPFIX sequence. */
  function RecordsIn(m: Export): nat {
    match m
    case OverNetFlow(_) => 0
    case OverIpfix(f) => V10.DataRecords(f)
  }

  function Records(log: seq<Export>): nat {
    if log == [] then 0 else Records(log[..|log| - 1]) + RecordsIn(log[|log| - 1])
  }

  /** Accepted by the validator of its protocol. */
  ghost predicate Valid(p: Protocol, b: seq<Byte>) {
    match p
    case NetFlow(_) => V9Counts.Accepted(b, 9)
    case Ipfix => V10Grammar.Accepted(b)
  }

  /**
   What the message after these must look like: an IPFIX message carries the number of Data Records
   in all earlier ones, a NetFlow packet its own number, both modulo 2^32.
   */
  ghost predicate Follows(p: Protocol, earlier: seq<Export>, m: Export) {
    match p
    case NetFlow(profile) =>
      && m.OverNetFlow? && V9Generated.Generated(profile, m.n)
      && m.n.header.flowSequence == (|earlier| + 1) % 0x1_0000_0000
      && (m.n.dataFlowSets == [] || V9Generated.FlowsOf(m.n) != [])
    case Ipfix =>
      && m.OverIpfix? && V10Generated.Generated(m.f) && Sendable(m)
      && m.f.header.sequenceNumber == Records(earlier) % 0x1_0000_0000
  }

  ghost predicate ProperRun(p: Protocol, log: seq<Export>) {
    forall i :: 0 <= i < |log| ==> Follows(p, log[..i], log[i])
  }

  /** What a message carries. */
  datatype Content = Templates | OptionsData | Data(flows: seq<Flow>)

  /** The message carries this and nothing else, stamped with the source and the time. */
  ghost predicate Says(m: Export, c: Content, sourceID: int, now: int, started: int) {
    match m
    case OverNetFlow(n) =>
      && n.header.sysUptime == V9.SysUptime(now, started) && n.header.unixSec == V9.UnixSec(now)
      && n.header.sourceId == sourceID % 0x1_0000_0000
      && (match c
          case Templates => |n.templateFlowSets| == 1 && n.dataFlowSets == []
          case OptionsData => false
          case Data(flows) => n.templateFlowSets == [] && |n.dataFlowSets| == 1 && n.dataFlowSets[0].items == flows)
    case OverIpfix(f) =>
      && f.header.exportTime == V10Generated.ExportTime(now) && f.header.observationDomainId == sourceID % 0x1_0000_0000
      && (f.templateFlowSets != [] <==> c.Templates?) && (f.optionsTemplateFlowSets != [] <==> c.Templates?)
      && f.optionsDataFlowSets
         == (if c.OptionsData? then [V10Generated.OptionsDataSet(sourceID % 0x1_0000_0000)] else [])
      && (match c
          case Data(flows) => |f.dataFlowSets| == 1 && f.dataFlowSets[0].items == flows
          case _ => f.dataFlowSets == [])
  }

  lemma RecordsNext(log: seq<Export>, m: Export)
    ensures Records(log + [m]) == Records(log) + RecordsIn(m)
    ensures Records(log + [m]) % 0x1_0000_0000 == (Records(log) % 0x1_0000_0000 + RecordsIn(m)) % 0x1_0000_0000
  {
    assert (log + [m])[..|log|] == log;
  }

  lemma ProperNext(p: Protocol, log: seq<Export>, m: Export)
    requires ProperRun(p, log) && Follows(p, log, m)
    ensures ProperRun(p, log + [m]) && Records(log + [m]) == Records(log) + RecordsIn(m)
  {
    hide Follows, Records, RecordsIn;
    RecordsNext(log, m);
    var longer := log + [m];
    assert longer[..|log|] == log;
    forall i | 0 <= i < |log| ensures Follows(p, longer[..i], longer[i]) {
      assert longer[..i] == log[..i];
    }
  }

  lemma FollowsIsValid(p: Protocol, earlier: seq<Export>, m: Export)
    requires Follows(p, earlier, m)
    ensures Sendable(m) && Valid(p, ExportBytes(m))
  {
    hide V9.NetflowBytes, V10.MessageBytes;
    match p
    case NetFlow(profile) => V9Generated.GeneratedAccepted(profile, m.n);
    case Ipfix => V10Generated.GeneratedAccepted(m.f);
  }

  /** What was drawn, when no draw failed. */
  function Values(draws: seq<Option<Flow>>): seq<Flow>
    requires None !in draws
  {
    seq(|draws|, i requires 0 <= i < |draws| => (assert draws[i] in draws; draws[i].value))
  }

  lemma DrawnIsValues(draws: seq<Option<Flow>>, items: seq<Flow>)
    requires Drawn(draws, items)
    ensures None !in draws && items == Values(draws)
  {
  }

  /** A flow drawn for a worker has the struct of the worker's protocol and profile. */
  ghost predicate DrawsFit(p: Protocol, draws: seq<Option<Flow>>) {
    var layout := match p case NetFlow(profile) => V9.StructLayout(profile) case Ipfix => V10.STRUCT_LAYOUT;
    DrawsMatch(layout, draws)
  }

  /** A worker's generator: its own sequence counter, and the session that numbers NetFlow packets. */
  class Generator {
    const protocol: Protocol
    const sequence: V10.IPFIXSequence
    const session: V9.Session

    constructor ForWorker(protocol: Protocol, now: int)
      ensures this.protocol == protocol && fresh(sequence) && fresh(session) && session.startTime == now
      ensures Counts([])
    {
      this.protocol := protocol;
      sequence := new V10.IPFIXSequence();
      session := new V9.Session(now);
    }

    /** The counters are those after these messages. */
    ghost predicate Counts(log: seq<Export>)
      reads sequence, session
    {
      match protocol
      case NetFlow(_) => session.flowSequence == |log| % 0x1_0000_0000
      case Ipfix => sequence.counter == Records(log) % 0x1_0000_0000
    }

    method NetFlowTemplate(sourceID: int, now: int, ghost log: seq<Export>)
      returns (m: Export, bytes: seq<Byte>)
      requires protocol.NetFlow? && Counts(log)
      modifies session
      ensures Follows(protocol, log, m) && bytes == ExportBytes(m) && Counts(log + [m]) && RecordsIn(m) == 0
      ensures Says(m, Templates, sourceID, now, session.startTime)
    {
      hide V9.NetflowBytes, V9.TemplateFields;
      var n := V9.GenerateTemplateNetflow(sourceID, session, now, protocol.profile);
      bytes := V9.ToBytes(n);
      m := OverNetFlow(n);
    }

    method IpfixTemplate(sourceID: int, now: int, ghost log: seq<Export>)
      returns (m: Export, bytes: seq<Byte>)
      requires protocol.Ipfix? && Counts(log)
      ensures Follows(protocol, log, m) && bytes == ExportBytes(m) && Counts(log + [m]) && RecordsIn(m) == 0
      ensures Says(m, Templates, sourceID, now, session.startTime)
    {
      hide V10.MessageBytes, V10.SetsBytes, V10.TEMPLATE_FIELDS, V10Generated.Generated, Records;
      var f := V10Generated.GenerateTemplateIPFIX(sourceID, sequence, now);
      var buf := V10.ToBytes(f);
      bytes, m := buf.value, OverIpfix(f);
      V10Generated.RecordsOf(f);
      RecordsNext(log, m);
    }

    method GenerateTemplate(sourceID: int, now: int, ghost log: seq<Export>)
      returns (m: Export, bytes: seq<Byte>)
      requires Counts(log)
      modifies session
      ensures Follows(protocol, log, m) && bytes == ExportBytes(m) && Counts(log + [m]) && RecordsIn(m) == 0
      ensures Says(m, Templates, sourceID, now, session.startTime)
    {
      if protocol.NetFlow? {
        m, bytes := NetFlowTemplate(sourceID, now, log);
      } else {
        m, bytes := IpfixTemplate(sourceID, now, log);
      }
    }

    method IpfixOptionsData(sourceID: int, now: int, ghost log: seq<Export>)
      returns (m: Export, bytes: seq<Byte>)
      requires protocol.Ipfix? && Counts(log)
      modifies sequence
      ensures Follows(protocol, log, m) && bytes == ExportBytes(m) && Counts(log + [m]) && RecordsIn(m) == 1
      ensures Says(m, OptionsData, sourceID, now, session.startTime)
    {
      hide V10.MessageBytes, V10.SetsBytes, V10.TEMPLATE_FIELDS, V10Generated.Generated, Records;
      var f := V10Generated.GenerateOptionsDataIPFIX(sourceID, sequence, now);
      var buf := V10.ToBytes(f);
      bytes, m := buf.value, OverIpfix(f);
      V10Generated.RecordsOf(f);
      RecordsNext(log, m);
    }

    /** IPFIX only: the options data message. */
    method GenerateOptionsData(sourceID: int, now: int, ghost log: seq<Export>)
      returns (r: Option<(Export, seq<Byte>)>)
      requires Counts(log)
      modifies sequence
      ensures r.None? <==> protocol.NetFlow?
      ensures r.None? ==> Counts(log)
      ensures r.Some? ==>
                var (m, bytes) := r.value;
                && Follows(protocol, log, m) && bytes == ExportBytes(m) && Counts(log + [m]) && RecordsIn(m) == 1
                && Says(m, OptionsData, sourceID, now, session.startTime)
    {
      if protocol.NetFlow? {
        return None;
      }
      var m, bytes := IpfixOptionsData(sourceID, now, log);
      return Some((m, bytes));
    }

    method NetFlowData(flowCount: nat, sourceID: int, draws: seq<Option<Flow>>, now: int, ghost log: seq<Export>)
      returns (r: Result<(Export, seq<Byte>)>)
      requires protocol.NetFlow? && Counts(log) && |draws| == flowCount > 0 && DrawsFit(protocol, draws)
      modifies session
      ensures r.Err? ==> session.flowSequence == old(session.flowSequence)
      ensures r.Err? ==> V9.Unfit(draws)
      ensures r.Ok? ==>
                var (m, bytes) := r.value;
                && Follows(protocol, log, m) && Sendable(m) && bytes == ExportBytes(m) && Counts(log + [m])
                && None !in draws && Says(m, Data(Values(draws)), sourceID, now, session.startTime)
    {
      hide V9.NetflowBytes, V9.StructLayout, DrawsFit, DrawsMatch, V9.GeneratedData, V9Generated.Generated;
      var flow := V9.GenerateDataNetflow(flowCount, sourceID, draws, session, now);
      if flow.Err? {
        return Err("GenerateDataNetflow failed");
      }
      NetFlowDrawsFit(protocol.profile, draws);
      V9Generated.DrawnIsGenerated(protocol.profile, flow.value, draws);
      DrawnIsValues(draws, flow.value.dataFlowSets[0].items);
      var bytes := V9.ToBytes(flow.value);
      return Ok((OverNetFlow(flow.value), bytes));
    }

    method IpfixData(flowCount: nat, sourceID: int, draws: seq<Option<Flow>>, now: int, ghost log: seq<Export>)
      returns (r: Result<(Export, seq<Byte>)>)
      requires protocol.Ipfix? && Counts(log) && |draws| == flowCount && DrawsFit(protocol, draws)
      modifies sequence
      ensures r.Err? ==> sequence.counter == old(sequence.counter)
      ensures r.Err? ==> None in draws || 16 + V10Generated.DataLength(flowCount) > MAX_U16
      ensures r.Ok? ==>
                var (m, bytes) := r.value;
                && Follows(protocol, log, m) && Sendable(m) && bytes == ExportBytes(m)
                && Counts(log + [m]) && RecordsIn(m) == flowCount
                && None !in draws && Says(m, Data(Values(draws)), sourceID, now, session.startTime)
    {
      hide V10.MessageBytes, V10.SetsBytes, Matches, V10Generated.Generated, V10.STRUCT_LAYOUT;
      hide DrawsFit, Drawn, V10Generated.DataLength, Records, Says, Values, Follows, V10.DataRecords;
      IpfixDrawsFit(draws);
      var flow := V10Generated.GenerateDataIPFIX(flowCount, sourceID, draws, sequence, now);
      if flow.Err? {
        return Err("GenerateDataIPFIX failed");
      }
      IpfixSays(flow.value, draws, sourceID, now, session.startTime);
      IpfixFollows(log, flow.value);
      // A message that reserved a range always serializes.
      var buf := V10.ToBytes(flow.value);
      assert buf.Ok?;
      var m := OverIpfix(flow.value);
      RecordsNext(log, m);
      return Ok((m, buf.value));
    }

    /**
     A data packet; a failure leaves the counters as they were. With less than 25 flows the only
     failure is a failed draw.
     */
    method GenerateData(flowCount: nat, sourceID: int, draws: seq<Option<Flow>>, now: int, ghost log: seq<Export>)
      returns (r: Result<(Export, seq<Byte>)>)
      requires Counts(log) && |draws| == flowCount > 0 && DrawsFit(protocol, draws)
      modifies sequence, session
      ensures r.Err? ==> sequence.counter == old(sequence.counter) && session.flowSequence == old(session.flowSequence)
      ensures r.Err? && flowCount < 25 ==> None in draws
      ensures r.Ok? ==>
                var (m, bytes) := r.value;
                && Follows(protocol, log, m) && Sendable(m) && bytes == ExportBytes(m) && Counts(log + [m])
                && None !in draws && Says(m, Data(Values(draws)), sourceID, now, session.startTime)
    {
      hide DrawsFit, Follows, ExportBytes, Sendable, Says, Values;
      if protocol.NetFlow? {
        FewFlowsFit(protocol.profile, draws);
        r := NetFlowData(flowCount, sourceID, draws, now, log);
      } else {
        r := IpfixData(flowCount, sourceID, draws, now, log);
      }
    }
  }

  lemma IpfixFollows(log: seq<Export>, f: V10.IPFIX)
    requires V10Generated.Generated(f) && 16 + |V10.SetsBytes(f)| <= MAX_U16
    requires f.header.sequenceNumber == Records(log) % 0x1_0000_0000
    ensures Follows(Ipfix, log, OverIpfix(f)) && Sendable(OverIpfix(f))
  {
  }

  lemma IpfixSays(f: V10.IPFIX, draws: seq<Option<Flow>>, sourceID: int, now: int, started: int)
    requires f.templateFlowSets == [] && f.optionsTemplateFlowSets == [] && f.optionsDataFlowSets == []
    requires |f.dataFlowSets| == 1 && Drawn(draws, f.dataFlowSets[0].items)
    requires f.header.exportTime == V10Generated.ExportTime(now)
    requires f.header.observationDomainId == sourceID % 0x1_0000_0000
    ensures None !in draws && Says(OverIpfix(f), Data(Values(draws)), sourceID, now, started)
  {
    DrawnIsValues(draws, f.dataFlowSets[0].items);
  }

  lemma IpfixDrawsFit(draws: seq<Option<Flow>>)
    requires DrawsFit(Ipfix, draws)
    ensures DrawsMatch(V10.STRUCT_LAYOUT, draws)
  {
  }

  lemma NetFlowDrawsFit(profile: V9.Profile, draws: seq<Option<Flow>>)
    requires DrawsFit(NetFlow(profile), draws)
    ensures DrawsMatch(V9.StructLayout(profile), draws)
  {
  }

  /** Less than 25 flows of any profile fit a data set. */
  lemma FewFlowsFit(profile: V9.Profile, draws: seq<Option<Flow>>)
    requires DrawsFit(NetFlow(profile), draws)
    ensures |draws| < 25 && V9.Unfit(draws) ==> None in draws
  {
    if |draws| < 25 && None !in draws {
      forall items | Drawn(draws, items) ensures V9.RawSize(items) + PaddingFor(V9.RawSize(items)) <= MAX_U16 {
        var layout := V9.StructLayout(profile);
        DrawnMatch(layout, draws, items);
        FlowsSize(layout, items);
        V9Generated.RecordSizes(profile);
      }
    }
  }

  // ----- The worker loop -----

  const WRAP64: nat := 0x1_0000_0000_0000_0000

  datatype WorkerStat = WorkerStat(workerID: int, sourceID: int, flowsSent: nat, cycles: nat, bytesSent: nat)

  /** What makes the worker act: a cancelled context, or one of its two tickers. */
  datatype Event =
    | Cancelled
    | TemplateDue(now: int, delivered: bool)
    | DataDue(flowCount: Option<nat>, draws: seq<Option<Flow>>, now: int, delivered: bool)

  /** The flow count of a data tick is drawn from 5 to 24, or the draw fails. */
  ghost predicate Possible(p: Protocol, e: Event) {
    e.DataDue? && e.flowCount.Some? ==>
      5 <= e.flowCount.value < 25 && |e.draws| == e.flowCount.value && DrawsFit(p, e.draws)
  }

  /** A packet sent from the loop, as the statistics count it. */
  datatype Send = Send(flows: nat, data: bool, size: nat)

  function Flows(sends: seq<Send>): nat {
    if sends == [] then 0 else Flows(sends[..|sends| - 1]) + sends[|sends| - 1].flows
  }

  function Cycles(sends: seq<Send>): nat {
    if sends == [] then 0 else Cycles(sends[..|sends| - 1]) + (if sends[|sends| - 1].data then 1 else 0)
  }

  function Sizes(sends: seq<Send>): nat {
    if sends == [] then 0 else Sizes(sends[..|sends| - 1]) + sends[|sends| - 1].size
  }

  /** The cumulative statistics after these sends, in 64-bit counters. */
  function StatAfter(id: int, sourceID: int, sends: seq<Send>): WorkerStat {
    WorkerStat(id, sourceID, Flows(sends) % WRAP64, Cycles(sends) % WRAP64, Sizes(sends) % WRAP64)
  }

  lemma AddWraps(a: nat, b: nat)
    ensures (a % WRAP64 + b) % WRAP64 == (a + b) % WRAP64
  {
  }

  lemma StatNext(id: int, sourceID: int, sends: seq<Send>, s: Send)
    ensures var stat := StatAfter(id, sourceID, sends);
            StatAfter(id, sourceID, sends + [s])
            == stat.(flowsSent := (stat.flowsSent + s.flows) % WRAP64,
                     cycles := if s.data then (stat.cycles + 1) % WRAP64 else stat.cycles,
                     bytesSent := (stat.bytesSent + s.size) % WRAP64)
  {
    hide WRAP64;
    assert (sends + [s])[..|sends|] == sends;
    AddWraps(Flows(sends), s.flows);
    AddWraps(Cycles(sends), if s.data then 1 else 0);
    AddWraps(Sizes(sends), s.size);
  }

  /** The statistics sent so far are the cumulative ones after each send. */
  ghost predicate Reported(id: int, sourceID: int, sends: seq<Send>, stats: seq<WorkerStat>) {
    |stats| == |sends| && forall k :: 0 <= k < |sends| ==> stats[k] == StatAfter(id, sourceID, sends[..k + 1])
  }

  lemma ReportedNext(id: int, sourceID: int, sends: seq<Send>, stats: seq<WorkerStat>, s: Send, stat: WorkerStat)
    requires Reported(id, sourceID, sends, stats) && stat == StatAfter(id, sourceID, sends + [s])
    ensures Reported(id, sourceID, sends + [s], stats + [stat])
  {
    hide StatAfter;
    var longer := sends + [s];
    forall k | 0 <= k < |longer| ensures (stats + [stat])[k] == StatAfter(id, sourceID, longer[..k + 1]) {
      if k < |sends| {
        assert longer[..k + 1] == sends[..k + 1];
      } else {
        assert longer[..k + 1] == longer;
      }
    }
  }

  /** Each packet is the serialized message of the log, accepted by the validator of its protocol. */
  ghost predicate Wire(p: Protocol, log: seq<Export>, packets: seq<seq<Byte>>) {
    && |packets| == |log| && ProperRun(p, log)
    && forall i :: 0 <= i < |log| ==> Sendable(log[i]) && packets[i] == ExportBytes(log[i]) && Valid(p, packets[i])
  }

  lemma WireNext(p: Protocol, log: seq<Export>, packets: seq<seq<Byte>>, m: Export, bytes: seq<Byte>)
    requires Wire(p, log, packets) && Follows(p, log, m) && Sendable(m) && bytes == ExportBytes(m)
    ensures Wire(p, log + [m], packets + [bytes])
  {
    hide Follows, Valid, ExportBytes, Sendable;
    ProperNext(p, log, m);
    FollowsIsValid(p, log, m);
  }

  // ----- What the worker does about each event -----

  /** Before the loop: whether a socket could be opened, and when the opening messages are made and if they get out. */
  datatype Opening = Opening(connected: bool, templateAt: int, templateDelivered: bool,
                             optionsAt: int, optionsDelivered: bool)

  /** Messages before the loop. */
  function Openers(p: Protocol): nat {
    if p.Ipfix? then 2 else 1
  }

  /** The message is what the event asks for. */
  ghost predicate Answers(e: Event, m: Export, sourceID: int, started: int) {
    match e
    case Cancelled => false
    case TemplateDue(now, _) => Says(m, Templates, sourceID, now, started)
    case DataDue(_, draws, now, _) => None !in draws && Says(m, Data(Values(draws)), sourceID, now, started)
  }

  /** Templates first, then for IPFIX options data, then one message an event. */
  ghost predicate Story(p: Protocol, sourceID: int, started: int, opening: Opening, events: seq<Event>,
                        log: seq<Export>)
  {
    && (|log| > 0 ==> Says(log[0], Templates, sourceID, opening.templateAt, started))
    && (p.Ipfix? && |log| > 1 ==> Says(log[1], OptionsData, sourceID, opening.optionsAt, started))
    && forall k :: Openers(p) <= k < |log| ==>
         k - Openers(p) < |events| && Answers(events[k - Openers(p)], log[k], sourceID, started)
  }

  lemma StoryNext(p: Protocol, sourceID: int, started: int, opening: Opening, events: seq<Event>,
                  log: seq<Export>, m: Export)
    requires Story(p, sourceID, started, opening, events, log)
    requires var n, o := |log|, Openers(p);
             if n == 0 then Says(m, Templates, sourceID, opening.templateAt, started)
             else if n < o then Says(m, OptionsData, sourceID, opening.optionsAt, started)
             else n - o < |events| && Answers(events[n - o], m, sourceID, started)
    ensures Story(p, sourceID, started, opening, events, log + [m])
  {
    hide Says, Answers;
  }

  /** The event ends the loop without its packet being counted. */
  predicate Fails(e: Event) {
    match e
    case Cancelled => true
    case TemplateDue(_, delivered) => !delivered
    case DataDue(flowCount, draws, _, delivered) => flowCount.None? || None in draws || !delivered
  }

  lemma FailsIs(e: Event)
    ensures Fails(e) <==> e.Cancelled? || !e.delivered || (e.DataDue? && (e.flowCount.None? || None in e.draws))
  {
  }

  /** A message is made for the event, whether or not it gets out. */
  predicate Made(e: Event) {
    match e
    case Cancelled => false
    case TemplateDue(_, _) => true
    case DataDue(flowCount, draws, _, _) => flowCount.Some? && None !in draws
  }

  /** The message made for the event after the first n, if one was; it did not get out. */
  function Unsent(events: seq<Event>, n: nat): nat {
    if n < |events| && Made(events[n]) then 1 else 0
  }

  /** A template counts as one flow sent, a data packet as its flows and as a cycle. */
  function SendOf(e: Event, size: nat): Send
    requires !Fails(e)
  {
    match e
    case TemplateDue(_, _) => Send(1, false, size)
    case DataDue(flowCount, _, _, _) => Send(flowCount.value, true, size)
  }

  /** The sends counted are those of the first events, none of which failed. */
  ghost predicate Counted(openers: nat, events: seq<Event>, packets: seq<seq<Byte>>, sends: seq<Send>) {
    && |sends| <= |events| && (sends != [] ==> openers + |sends| <= |packets|)
    && forall k :: 0 <= k < |sends| ==> !Fails(events[k]) && sends[k] == SendOf(events[k], |packets[openers + k]|)
  }

  lemma CountedMore(openers: nat, events: seq<Event>, packets: seq<seq<Byte>>, sends: seq<Send>, bytes: seq<Byte>)
    requires Counted(openers, events, packets, sends)
    ensures Counted(openers, events, packets + [bytes], sends)
  {
    hide SendOf, Fails;
  }

  lemma CountedNext(openers: nat, events: seq<Event>, packets: seq<seq<Byte>>, sends: seq<Send>)
    requires Counted(openers, events, packets, sends) && |sends| < |events| && !Fails(events[|sends|])
    requires openers + |sends| < |packets|
    ensures Counted(openers, events, packets, sends + [SendOf(events[|sends|], |packets[openers + |sends|]|)])
  {
    hide SendOf, Fails;
  }

  /** Makes and serializes what the event asks for, if anything can be made for it. */
  method Answer(gen: Generator, e: Event, sourceID: int, ghost log: seq<Export>)
    returns (r: Option<(Export, seq<Byte>)>)
    requires gen.Counts(log) && Possible(gen.protocol, e)
    modifies gen.sequence, gen.session
    ensures r.Some? <==> Made(e)
    ensures r.None? ==> gen.Counts(log)
    ensures r.Some? ==>
              var (m, bytes) := r.value;
              && Follows(gen.protocol, log, m) && Sendable(m) && bytes == ExportBytes(m) && gen.Counts(log + [m])
              && Answers(e, m, sourceID, gen.session.startTime)
  {
    hide Follows, Sendable, ExportBytes, Valid, Says, Values, DrawsFit;
    match e {
      case Cancelled =>
        return None;
      case TemplateDue(now, _) =>
        var m, bytes := gen.GenerateTemplate(sourceID, now, log);
        FollowsIsValid(gen.protocol, log, m);
        return Some((m, bytes));
      case DataDue(flowCount, draws, now, _) =>
        if flowCount.None? {
          return None;
        }
        var data := gen.GenerateData(flowCount.value, sourceID, draws, now, log);
        return if data.Err? then None else Some(data.value);
    }
  }

  /**
   A worker from start to end. Whatever the events, each message it hands to the socket carries the
   right number, is accepted by the validator and is what the event before it asks for; once the
   opening messages got out it makes exactly one message an event until an event fails, and none
   after; and each statistic it reports is the cumulative total of the sends after the opening ones.
   */
  method Work(gen: Generator, id: int, sourceID: int, opening: Opening, events: seq<Event>)
    returns (packets: seq<seq<Byte>>, stats: seq<WorkerStat>, ghost log: seq<Export>, ghost sends: seq<Send>)
    requires gen.Counts([]) && forall i :: 0 <= i < |events| ==> Possible(gen.protocol, events[i])
    modifies gen.sequence, gen.session
    ensures Wire(gen.protocol, log, packets) && gen.Counts(log)
    ensures Story(gen.protocol, sourceID, gen.session.startTime, opening, events, log)
    ensures Reported(id, sourceID, sends, stats) && Counted(Openers(gen.protocol), events, packets, sends)
    ensures if !opening.connected then log == [] && sends == []
            else if opening.templateDelivered && (opening.optionsDelivered || gen.protocol.NetFlow?)
            then (|sends| == |events| || Fails(events[|sends|]))
                 && |log| == Openers(gen.protocol) + |sends| + Unsent(events, |sends|)
            else sends == [] && |log| == if opening.templateDelivered then 2 else 1
  {
    hide Wire, Follows, Sendable, ExportBytes, Valid, Reported, StatAfter, Records, Counted, Story, Says, Values;
    packets, stats, log, sends := [], [], [], [];
    NothingYet(gen.protocol, id, sourceID, gen.session.startTime, opening, events);
    ghost var openers := Openers(gen.protocol);
    var wStats := WorkerStat(id, sourceID, 0, 0, 0);
    if !opening.connected {
      return;
    }
    var m, tBuf := gen.GenerateTemplate(sourceID, opening.templateAt, []);
    StoryNext(gen.protocol, sourceID, gen.session.startTime, opening, events, log, m);
    CountedMore(openers, events, packets, sends, tBuf);
    packets, log := Handed(gen.protocol, packets, log, m, tBuf);
    if !opening.templateDelivered {
      return;
    }
    var oBuf := gen.GenerateOptionsData(sourceID, opening.optionsAt, log);
    if oBuf.Some? {
      StoryNext(gen.protocol, sourceID, gen.session.startTime, opening, events, log, oBuf.value.0);
      CountedMore(openers, events, packets, sends, oBuf.value.1);
      packets, log := Handed(gen.protocol, packets, log, oBuf.value.0, oBuf.value.1);
      if !opening.optionsDelivered {
        return;
      }
    }
    for i := 0 to |events|
      invariant Wire(gen.protocol, log, packets) && gen.Counts(log) && |packets| == |log|
      invariant Story(gen.protocol, sourceID, gen.session.startTime, opening, events, log)
      invariant Reported(id, sourceID, sends, stats) && wStats == StatAfter(id, sourceID, sends)
      invariant |sends| == i && openers + i == |packets|
      invariant Counted(openers, events, packets, sends)
    {
      var r := Answer(gen, events[i], sourceID, log);
      if r.None? {
        return;
      }
      var (message, buf) := r.value;
      StoryNext(gen.protocol, sourceID, gen.session.startTime, opening, events, log, message);
      CountedMore(openers, events, packets, sends, buf);
      packets, log := Handed(gen.protocol, packets, log, message, buf);
      if !events[i].delivered {
        return;
      }
      CountedNext(openers, events, packets, sends);
      ghost var send := SendOf(events[i], |buf|);
      StatNext(id, sourceID, sends, send);
      var (flows, data) := if events[i].DataDue? then (events[i].flowCount.value, true) else (1, false);
      wStats := wStats.(flowsSent := (wStats.flowsSent + flows) % WRAP64,
                        cycles := if data then (wStats.cycles + 1) % WRAP64 else wStats.cycles,
                        bytesSent := (wStats.bytesSent + |buf|) % WRAP64);
      ReportedNext(id, sourceID, sends, stats, send, wStats);
      stats, sends := stats + [wStats], sends + [send];
    }
  }

  method Handed(p: Protocol, packets: seq<seq<Byte>>, ghost log: seq<Export>, ghost m: Export, bytes: seq<Byte>)
    returns (morePackets: seq<seq<Byte>>, ghost longer: seq<Export>)
    requires Wire(p, log, packets) && Follows(p, log, m) && Sendable(m) && bytes == ExportBytes(m)
    ensures longer == log + [m] && morePackets == packets + [bytes] && Wire(p, longer, morePackets)
  {
    WireNext(p, log, packets, m, bytes);
    morePackets, longer := packets + [bytes], log + [m];
  }

  lemma NothingYet(p: Protocol, id: int, sourceID: int, started: int, opening: Opening, events: seq<Event>)
    ensures Wire(p, [], []) && Reported(id, sourceID, [], [])
    ensures StatAfter(id, sourceID, []) == WorkerStat(id, sourceID, 0, 0, 0)
    ensures Story(p, sourceID, started, opening, events, []) && Counted(Openers(p), events, [], [])
  {
    hide Wire, Story, Counted, Openers;
    NothingWritten(p, sourceID, started, opening, events, [], []);
    NothingSent(id, sourceID);
  }

  lemma NothingWritten(p: Protocol, sourceID: int, started: int, opening: Opening, events: seq<Event>,
                       log: seq<Export>, packets: seq<seq<Byte>>)
    requires |log| == |packets| == 0
    ensures Wire(p, log, packets)
    ensures Story(p, sourceID, started, opening, events, log) && Counted(Openers(p), events, packets, [])
  {
    assert Openers(p) >= 1;
    hide Follows, Sendable, ExportBytes, Valid, Says, Answers, Fails, SendOf;
  }

  lemma NothingSent(id: int, sourceID: int)
    ensures Reported(id, sourceID, [], [])
    ensures StatAfter(id, sourceID, []) == WorkerStat(id, sourceID, 0, 0, 0)
  {
    assert Flows([]) == 0 && Cycles([]) == 0 && Sizes([]) == 0;
  }
}
