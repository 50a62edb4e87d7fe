/** Every packet the NetFlow v9 generator makes is accepted, counted and read back as it was meant. */
module NetFlowGenerated {
  import opened Wrappers
  import opened Bytes
  import opened Codec
  import opened NetFlowGrammar
  import opened NetFlowCounts
  import opened NetFlowReadings
  import opened NetFlowValidator
  import opened NetFlowProperties
  import opened NetFlowExport
  import opened NetFlowSerialized
  import opened FlowRecords
  import opened Sums

  // ----- Template and record layout -----

  /** The template describes the flow record: field by field, its lengths are the struct's widths. */
  lemma TemplateMatchesLayout(p: Profile)
    ensures |TemplateFields(p)| == |StructLayout(p)|
    ensures Lengths(TemplateFields(p)) == StructLayout(p)
    ensures forall i :: 0 <= i < |StructLayout(p)| ==> TemplateFields(p)[i].length > 0
  {
  }

  /** The record sizes of the three profiles. */
  lemma RecordSizes(p: Profile)
    ensures Sum(StructLayout(p)) == (match p case Generic => 74 case Minimal => 21 case Extended => 47)
    ensures Width(TemplateFields(p)) == Sum(StructLayout(p))
  {
    TemplateMatchesLayout(p);
    WidthIsSum(TemplateFields(p));
    LayoutSizes(p);
  }

  lemma LayoutSizes(p: Profile)
    ensures Sum(StructLayout(p)) == (match p case Generic => 74 case Minimal => 21 case Extended => 47)
  {
    match p
    case Generic => GenericSize(StructLayout(p));
    case Minimal => MinimalSize(StructLayout(p));
    case Extended => ExtendedSize(StructLayout(p));
  }

  lemma SumNone(ws: seq<nat>)
    ensures Sum(ws[..0]) == 0
  {
  }

  lemma GenericSize(ws: seq<nat>)
    requires ws == StructLayout(Generic)
    ensures Sum(ws) == 74
  {
    hide Sum;
    SumNone(ws);
    SumFour(ws, 0);
    SumFour(ws, 4);
    SumFour(ws, 8);
    SumFour(ws, 12);
    SumNext(ws, 16);
    SumNext(ws, 17);
    assert ws[..18] == ws;
  }

  lemma MinimalSize(ws: seq<nat>)
    requires ws == StructLayout(Minimal)
    ensures Sum(ws) == 21
  {
    hide Sum;
    SumNone(ws);
    SumFour(ws, 0);
    SumNext(ws, 4);
    SumNext(ws, 5);
    SumNext(ws, 6);
    assert ws[..7] == ws;
  }

  lemma ExtendedSize(ws: seq<nat>)
    requires ws == StructLayout(Extended)
    ensures Sum(ws) == 47
  {
    hide Sum;
    SumNone(ws);
    SumFour(ws, 0);
    SumFour(ws, 4);
    SumFour(ws, 8);
    SumNext(ws, 12);
    SumNext(ws, 13);
    SumNext(ws, 14);
    assert ws[..15] == ws;
  }

  // ----- Generated packets as packets of the grammar -----

  /** The one template set of a profile. */
  function TemplateSet(p: Profile): FlowSet {
    Templates([TemplateRecord(FLOW_TEMPLATE_ID, TemplateFields(p))], 0)
  }

  /** What the generator makes, for the flows of one profile. */
  ghost predicate Generated(p: Profile, n: Netflow) {
    && |n.templateFlowSets| <= 1 && |n.dataFlowSets| <= 1 && |n.templateFlowSets| + |n.dataFlowSets| > 0
    && (forall t :: t in n.templateFlowSets ==> GeneratedTemplate(p, t))
    && (forall d :: d in n.dataFlowSets ==> GeneratedData(d) && AllMatch(StructLayout(p), d.items))
    && n.header.version == 9
    && n.header.flowCount == (|n.templateFlowSets| + |FlowsOf(n)|) % 0x1_0000
  }

  function FlowsOf(n: Netflow): seq<Flow> {
    if n.dataFlowSets == [] then [] else n.dataFlowSets[0].items
  }

  lemma TemplateIsSized(p: Profile, t: TemplateFlowSet)
    requires GeneratedTemplate(p, t)
    ensures SizedTemplateSet(t) && WfTemplateSet(t) && TemplateSetOf(t) == TemplateSet(p)
  {
    TemplateMatchesLayout(p);
    hide TemplateFields, StructLayout;
    var fields := TemplateFields(p);
    FieldsSize(fields);
    EncodeOne(TemplateBytes, t.templates[0]);
    MappedOne(RecordOf, t.templates[0]);
  }

  lemma DataIsSized(d: DataFlowSet)
    requires GeneratedData(d)
    ensures SizedDataSet(d) && (WfDataSet(d) <==> Encode(FlowBytes, d.items) != [])
  {
    hide Encode, PutU16;
    assert |DataFlowSetBytes(d)| == RawSize(d.items) + d.padding;
    if Encode(FlowBytes, d.items) == [] {
      assert RawSize(d.items) == 4;
    }
  }

  /** What a generated packet stands for: its profile's template set, then its flows. */
  lemma GeneratedSets(p: Profile, n: Netflow)
    requires Generated(p, n)
    ensures Sized(n)
    ensures SetsOf(n) == (if n.templateFlowSets == [] then [] else [TemplateSet(p)])
                         + (if n.dataFlowSets == [] then [] else [DataSetOf(n.dataFlowSets[0])])
  {
    hide TemplateSet, SizedTemplateSet, SizedDataSet, GeneratedTemplate, GeneratedData, AllMatch, DataSetOf;
    hide TemplateSetOf, WfTemplateSet, WfDataSet;
    var ts, ds := n.templateFlowSets, n.dataFlowSets;
    if ts != [] {
      assert ts == [ts[0]];
      TemplateIsSized(p, ts[0]);
      MappedOne(TemplateSetOf, ts[0]);
    }
    if ds != [] {
      assert ds == [ds[0]];
      DataIsSized(ds[0]);
      MappedOne(DataSetOf, ds[0]);
    }
  }

  // ----- Verdict and contents of a generated packet -----

  /** A data set fits its 16-bit length, so the header count never wraps. */
  lemma FlowCountFits(p: Profile, d: DataFlowSet)
    requires GeneratedData(d) && AllMatch(StructLayout(p), d.items)
    ensures |Encode(FlowBytes, d.items)| == |d.items| * Width(TemplateFields(p))
    ensures Width(TemplateFields(p)) > 3 && |d.items| < MAX_U16
    ensures Encode(FlowBytes, d.items) != [] <==> d.items != []
  {
    hide TemplateFields, StructLayout, Encode, Width, Sum;
    var w := Width(TemplateFields(p));
    RecordSizes(p);
    FlowsSize(StructLayout(p), d.items);
    MulMono(21, w, |d.items|);
  }

  lemma GeneratedIsWf(p: Profile, n: Netflow)
    requires Generated(p, n) && (n.dataFlowSets == [] || FlowsOf(n) != [])
    ensures WfStructure(n)
  {
    hide TemplateFields, GeneratedTemplate, WfTemplateSet, WfDataSet, SizedTemplateSet, SizedDataSet, Encode;
    forall t | t in n.templateFlowSets ensures WfTemplateSet(t) {
      TemplateIsSized(p, t);
    }
    forall d | d in n.dataFlowSets ensures WfDataSet(d) {
      FlowCountFits(p, d);
      DataIsSized(d);
    }
  }

  /** A set header with nothing after it is no Data FlowSet. */
  lemma EmptyDataRefused(front: seq<FlowSet>, d: FlowSet)
    requires All(WfFlowSet, front) && |front| <= 1 && d == Data(FLOW_TEMPLATE_ID, [])
    ensures ParseFlowSets(Encode(EncodeFlowSet, front + [d])).None?
  {
    hide EncodeFlowSet, ParseFlowSet, WfFlowSet, Encode;
    EncodeOne(EncodeFlowSet, d);
    EmptySetFails(d);
    if front == [] {
      assert front + [d] == [d];
    } else {
      var s := front[0];
      assert front == [s];
      EncodeOne(EncodeFlowSet, s);
      EncodeAppend(EncodeFlowSet, front, [d]);
      FlowSetCodes();
      ReadThenRefused(s, EncodeFlowSet(d));
    }
  }

  lemma ReadThenRefused(s: FlowSet, rest: seq<Byte>)
    requires WfFlowSet(s) && |EncodeFlowSet(s)| >= 1 && |rest| >= 1 && ParseFlowSet(rest).Fail?
    requires Codes(ParseFlowSet, EncodeFlowSet, WfFlowSet)
    ensures ParseFlowSets(EncodeFlowSet(s) + rest).None?
  {
    hide EncodeFlowSet, ParseFlowSet, WfFlowSet;
    assert CompleteAt(ParseFlowSet, EncodeFlowSet, WfFlowSet, s, rest);
    var b := EncodeFlowSet(s) + rest;
    assert ParseFlowSet(b) == Got(s, |EncodeFlowSet(s)|);
    assert b[|EncodeFlowSet(s)|..] == rest;
    assert Many(ParseFlowSet, 1, rest).None?;
  }

  lemma EmptySetFails(d: FlowSet)
    requires d == Data(FLOW_TEMPLATE_ID, [])
    ensures |EncodeFlowSet(d)| == 4 && ParseFlowSet(EncodeFlowSet(d)).Fail?
  {
  }

  /** A generated packet without flows in its data set cannot be read. */
  lemma NoFlowsRefused(p: Profile, n: Netflow, version: int)
    requires Generated(p, n) && n.dataFlowSets != [] && FlowsOf(n) == []
    ensures !Accepted(NetflowBytes(n), version)
  {
    hide Encode, EncodeFlowSet, EncodeHeader, TemplateFields, TemplateFlowSetBytes, DataFlowSetBytes;
    hide NetflowBytes, WfFlowSet, Accepted;
    var sets := SetsOf(n);
    var front := if n.templateFlowSets == [] then [] else [TemplateSet(p)];
    GeneratedSets(p, n);
    if n.templateFlowSets != [] {
      TemplateIsSized(p, n.templateFlowSets[0]);
      TemplateSetLayout(n.templateFlowSets[0]);
    }
    NothingDrawn(n.dataFlowSets[0]);
    EmptyDataRefused(front, DataSetOf(n.dataFlowSets[0]));
    SerializedLayout(n);
    var b := NetflowBytes(n);
    assert b[HEADER_SIZE..] == Encode(EncodeFlowSet, sets);
    OneReading(b, version);
  }

  lemma NothingDrawn(d: DataFlowSet)
    requires GeneratedData(d) && d.items == []
    ensures DataSetOf(d) == Data(FLOW_TEMPLATE_ID, [])
  {
  }

  /** The one admitted count of a data set counted with its own template. */
  lemma OnlyGeneratedCount(w: nat, n: nat, pad: nat, count: nat)
    requires w > 3 && pad < 4 && n > 0
    ensures Fits(n * w + pad, w, count) <==> count == n
  {
    hide Fits, MinCount, MaxCount;
    var length := n * w + pad;
    FitsIsRange(length, w, count);
    CountBounds(length, w, count);
    if count < n {
      MulMono(count + 1, n, w);
    } else if count > n {
      MulMono(n + 1, count, w);
    } else {
      MulMono(1, n, w);
    }
  }

  lemma SizeOfGenerated(p: Profile, d: DataFlowSet)
    requires d.flowSetID == FLOW_TEMPLATE_ID
    ensures SizeAt([TemplateSet(p), DataSetOf(d)], 1) == Width(TemplateFields(p))
    ensures SizeAt([DataSetOf(d)], 0) == 0
  {
    RecordSizes(p);
    hide TemplateFields, Encode;
    var t := TemplateSet(p);
    var ds := Definitions(t);
    assert ds == [Definition(FLOW_TEMPLATE_ID, Width(TemplateFields(p)))] && ds[..0] == [];
    assert [t, DataSetOf(d)][..1] == [t] && [t][..0] == [];
    assert Table([t]) == Define(map[], ds);
    assert [DataSetOf(d)][..0] == [];
    assert Table([DataSetOf(d)]) == Define(map[], []);
  }

  lemma SumOfTwo(counts: seq<nat>)
    ensures |counts| == 1 ==> Sum(counts) == counts[0]
    ensures |counts| == 2 ==> Sum(counts) == counts[0] + counts[1]
  {
    if |counts| == 2 {
      assert Sum(counts[..1]) == Sum(counts[..1][..0]) + counts[0];
    }
  }

  /** The counts that explain a generated packet: one template, and as many records as were drawn. */
  function CountsOf(n: Netflow): seq<nat> {
    (if n.templateFlowSets == [] then [] else [1]) + (if n.dataFlowSets == [] then [] else [|FlowsOf(n)|])
  }

  lemma DataCount(p: Profile, n: Netflow, sets: seq<FlowSet>, i: nat, count: nat)
    requires Generated(p, n) && n.dataFlowSets != [] && FlowsOf(n) != []
    requires i < |sets| && sets[i] == DataSetOf(n.dataFlowSets[0])
    requires SizeAt(sets, i) == Width(TemplateFields(p)) || SizeAt(sets, i) == 0
    ensures Admits(sets, i, |FlowsOf(n)|)
    ensures SizeAt(sets, i) > 0 && Admits(sets, i, count) ==> count == |FlowsOf(n)|
  {
    hide SizeAt, Fits, Width, TemplateFields, Encode;
    var d := n.dataFlowSets[0];
    FlowCountFits(p, d);
    OnlyGeneratedCount(Width(TemplateFields(p)), |d.items|, d.padding, |d.items|);
    OnlyGeneratedCount(Width(TemplateFields(p)), |d.items|, d.padding, count);
  }

  lemma GeneratedCounts(p: Profile, n: Netflow)
    requires Generated(p, n) && (n.dataFlowSets == [] || FlowsOf(n) != [])
    ensures SumsTo(SetsOf(n), CountsOf(n), n.header.flowCount)
    ensures n.templateFlowSets != [] ==> forall counts :: Interprets(SetsOf(n), counts) <==> counts == CountsOf(n)
  {
    hide TemplateFields, Encode, SizeAt, Fits, Width, Sum, SetsOf, Sized, Mapped, RawSize, PutU16;
    GeneratedSets(p, n);
    var sets, only := SetsOf(n), CountsOf(n);
    SumOfTwo(only);
    if n.templateFlowSets != [] && n.dataFlowSets != [] {
      var d := n.dataFlowSets[0];
      FlowCountFits(p, d);
      SizeOfGenerated(p, d);
      assert sets == [TemplateSet(p), DataSetOf(d)];
      DataCount(p, n, sets, 1, 0);
      assert Admits(sets, 0, 1);
      forall counts | Interprets(sets, counts) ensures counts == only {
        assert Admits(sets, 0, counts[0]) && Admits(sets, 1, counts[1]);
        DataCount(p, n, sets, 1, counts[1]);
      }
    } else if n.dataFlowSets != [] {
      var d := n.dataFlowSets[0];
      FlowCountFits(p, d);
      SizeOfGenerated(p, d);
      assert sets == [DataSetOf(d)];
      DataCount(p, n, sets, 0, 0);
    } else {
      assert sets == [TemplateSet(p)] && Admits(sets, 0, 1);
      forall counts | Interprets(sets, counts) ensures counts == only {
        assert Admits(sets, 0, counts[0]);
      }
    }
  }

  /**
   A generated packet is accepted exactly when it has no data set or its data set has a flow; it
   then reads as the template and the data set it was made from.
   */
  lemma GeneratedAccepted(p: Profile, n: Netflow)
    requires Generated(p, n)
    ensures Accepted(NetflowBytes(n), 9) <==> n.dataFlowSets == [] || FlowsOf(n) != []
    ensures n.dataFlowSets == [] || FlowsOf(n) != [] ==>
              ParsePacket(NetflowBytes(n)) == Some(PacketOf(n))
  {
    hide Accepted, NetflowBytes, EncodePacket, SumsTo, Generated, TemplateFields, Sized, WfStructure, SetsOf;
    if n.dataFlowSets == [] || FlowsOf(n) != [] {
      GeneratedSets(p, n);
      GeneratedIsWf(p, n);
      SerializedLayout(n);
      SerializedReadsBack(n);
      GeneratedCounts(p, n);
      NineAndSets(p, n);
      WellFormedVerdict(PacketOf(n), 9);
    } else {
      NoFlowsRefused(p, n, 9);
    }
  }

  lemma NineAndSets(p: Profile, n: Netflow)
    requires Generated(p, n)
    ensures n.header.version == 9 && SetsOf(n) != []
  {
    GeneratedSets(p, n);
  }

  /** What the generator returns for some draws is a generated packet holding exactly the flows drawn. */
  lemma DrawnIsGenerated(p: Profile, n: Netflow, draws: seq<Option<Flow>>)
    requires n.header.version == 9 && n.header.flowCount == (|n.templateFlowSets| + |draws|) % 0x1_0000
    requires |n.templateFlowSets| <= 1 && forall t :: t in n.templateFlowSets ==> GeneratedTemplate(p, t)
    requires |n.dataFlowSets| == 1 && GeneratedData(n.dataFlowSets[0]) && Drawn(draws, n.dataFlowSets[0].items)
    requires DrawsMatch(StructLayout(p), draws)
    ensures Generated(p, n) && Drawn(draws, FlowsOf(n))
  {
    hide GeneratedTemplate, GeneratedData, StructLayout, AllMatch, DrawsMatch;
    var d := n.dataFlowSets[0];
    assert n.dataFlowSets == [d];
    DrawnMatch(StructLayout(p), draws, d.items);
  }

  /**
   With any other FlowCount a generated packet is refused if its template is in it. Without the
   template every FlowCount of at least one is accepted, since nothing says how long a record is.
   */
  lemma FlowCountDecides(p: Profile, n: Netflow, total: U16)
    requires Generated(p, n) && (n.dataFlowSets == [] || FlowsOf(n) != [])
    ensures Accepted(NetflowBytes(n.(header := n.header.(flowCount := total))), 9)
       <==> if n.templateFlowSets == [] then total >= 1 else total == n.header.flowCount
  {
    hide Accepted, NetflowBytes, EncodePacket, Sized, WfStructure, SetsOf, TemplateFields;
    hide Admits, Sum, Generated, ParsePacket;
    var m := n.(header := n.header.(flowCount := total));
    NineAndSets(p, n);
    SameStructure(p, n, m);
    SerializedLayout(m);
    SerializedReadsBack(m);
    WellFormedVerdict(PacketOf(m), 9);
    GeneratedCounts(p, n);
    if n.templateFlowSets == [] {
      AnyCount(p, n, total);
    }
  }

  lemma SameStructure(p: Profile, n: Netflow, m: Netflow)
    requires Generated(p, n) && (n.dataFlowSets == [] || FlowsOf(n) != [])
    requires m.templateFlowSets == n.templateFlowSets && m.dataFlowSets == n.dataFlowSets
    ensures Sized(m) && WfStructure(m) && SetsOf(m) == SetsOf(n)
  {
    GeneratedSets(p, n);
    GeneratedIsWf(p, n);
  }

  /** Data without a template may be any number of records, but not none. */
  lemma AnyCount(p: Profile, n: Netflow, total: nat)
    requires Generated(p, n) && n.templateFlowSets == [] && FlowsOf(n) != []
    ensures (exists counts :: SumsTo(SetsOf(n), counts, total)) <==> total >= 1
  {
    hide TemplateFields, SizeAt, SetsOf, Sum;
    var d := n.dataFlowSets[0];
    GeneratedSets(p, n);
    SizeOfGenerated(p, d);
    var sets := SetsOf(n);
    assert sets == [DataSetOf(d)];
    assert Admits(sets, 0, total) <==> total >= 1;
    SumOfTwo([total]);
    if total >= 1 {
      assert SumsTo(sets, [total], total);
    }
    forall counts | SumsTo(sets, counts, total) ensures total >= 1 {
      SumOfTwo(counts);
      assert Admits(sets, 0, counts[0]);
    }
  }

  lemma NetflowIsGenerated(p: Profile, n: Netflow, draws: seq<Option<Flow>>)
    requires n.header.version == 9 && n.header.flowCount == (|draws| + 1) % 0x1_0000
    requires |n.templateFlowSets| == |n.dataFlowSets| == 1 && GeneratedTemplate(p, n.templateFlowSets[0])
    requires GeneratedData(n.dataFlowSets[0]) && Drawn(draws, n.dataFlowSets[0].items)
    requires DrawsMatch(StructLayout(p), draws)
    ensures Generated(p, n) && |FlowsOf(n)| == |draws| && n.header.flowCount == |draws| + 1
  {
    hide GeneratedTemplate, GeneratedData, DrawsMatch, Generated, StructLayout, AllMatch, Encode, TemplateFields, Width;
    DrawnIsGenerated(p, n, draws);
    DrawnMatch(StructLayout(p), draws, n.dataFlowSets[0].items);
    FlowCountFits(p, n.dataFlowSets[0]);
  }

  /**
   What GenerateNetflow returns, for every profile and number of flows: accepted exactly when it has
   a flow, and then read as one template and exactly the flows asked for.
   */
  lemma NetflowIsAccepted(p: Profile, n: Netflow, draws: seq<Option<Flow>>)
    requires n.header.version == 9 && n.header.flowCount == (|draws| + 1) % 0x1_0000
    requires |n.templateFlowSets| == |n.dataFlowSets| == 1 && GeneratedTemplate(p, n.templateFlowSets[0])
    requires GeneratedData(n.dataFlowSets[0]) && Drawn(draws, n.dataFlowSets[0].items)
    requires DrawsMatch(StructLayout(p), draws)
    ensures Accepted(NetflowBytes(n), 9) <==> draws != []
    ensures draws != [] ==>
              && ParsePacket(NetflowBytes(n)) == Some(PacketOf(n))
              && n.header.flowCount == |draws| + 1
              && forall counts :: Interprets(SetsOf(n), counts) <==> counts == [1, |draws|]
  {
    hide Accepted, NetflowBytes, GeneratedTemplate, GeneratedData, DrawsMatch, Generated, ParsePacket, PacketOf;
    hide SetsOf, Interprets, StructLayout, SumsTo, FlowsOf;
    NetflowIsGenerated(p, n, draws);
    GeneratedAccepted(p, n);
    if draws != [] {
      GeneratedCounts(p, n);
      assert CountsOf(n) == [1, |draws|];
    }
  }

  /** The most flows of a profile one packet can carry. */
  function Most(p: Profile): nat {
    match p case Generic => 885 case Minimal => 3120 case Extended => 1394
  }

  /** Generating data fails exactly when a draw does or there are more flows than fit. */
  lemma MostFlows(p: Profile, draws: seq<Option<Flow>>)
    requires DrawsMatch(StructLayout(p), draws)
    ensures Unfit(draws) <==> None in draws || |draws| > Most(p)
  {
    hide StructLayout, RawSize, DrawsMatch;
    forall items | Drawn(draws, items)
      ensures None !in draws && (RawSize(items) + PaddingFor(RawSize(items)) > MAX_U16 <==> |draws| > Most(p))
    {
      SizeOfDrawn(p, draws, items);
    }
    if None !in draws {
      assert forall i :: 0 <= i < |draws| ==> draws[i] in draws;
      var items := seq(|draws|, i requires 0 <= i < |draws| => draws[i].value);
      assert Drawn(draws, items);
    }
  }

  lemma SizeOfDrawn(p: Profile, draws: seq<Option<Flow>>, items: seq<Flow>)
    requires DrawsMatch(StructLayout(p), draws) && Drawn(draws, items)
    ensures RawSize(items) + PaddingFor(RawSize(items)) > MAX_U16 <==> |draws| > Most(p)
  {
    hide StructLayout, Encode, DrawsMatch, Sum;
    DrawnMatch(StructLayout(p), draws, items);
    FlowsSize(StructLayout(p), items);
    LayoutSizes(p);
  }

  /** The flows of a generated packet are read back from its data set, exactly and in order. */
  lemma GeneratedFlowsReadBack(p: Profile, n: Netflow)
    requires Generated(p, n) && n.dataFlowSets != []
    ensures ReadFlows(Lengths(TemplateFields(p)), |FlowsOf(n)|, DataSetOf(n.dataFlowSets[0]).body)
         == Some(Items(FlowsOf(n), Zeros(n.dataFlowSets[0].padding)))
  {
    TemplateMatchesLayout(p);
    FlowsReadBack(StructLayout(p), FlowsOf(n), Zeros(n.dataFlowSets[0].padding));
  }
}
