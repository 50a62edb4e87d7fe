/**
 Flow records: a struct whose fields are written one after the other, and the reader a collector
 uses, which cuts a record at the field lengths of a template.
 */
module FlowRecords {
  import opened Wrappers
  import opened Bytes
  import opened Codec
  import opened Sums

  /** The fields of a flow record struct, each in big-endian bytes. */
  type Flow = seq<seq<Byte>>

  /** All draws succeeded and these are the flows drawn. */
  ghost predicate Drawn(draws: seq<Option<Flow>>, items: seq<Flow>) {
    |items| == |draws| && forall i :: 0 <= i < |draws| ==> draws[i] == Some(items[i])
  }

  lemma DrawnMatch(widths: seq<nat>, draws: seq<Option<Flow>>, items: seq<Flow>)
    requires DrawsMatch(widths, draws) && Drawn(draws, items)
    ensures AllMatch(widths, items)
  {
    hide Matches;
    forall i | 0 <= i < |items| ensures Matches(widths, items[i]) {
      assert draws[i] == Some(items[i]);
    }
  }

  /** Bytes needed to reach a 32-bit boundary. */
  function PaddingFor(size: nat): (padding: nat)
    ensures padding < 4 && (size + padding) % 4 == 0
  {
    if size % 4 > 0 then 4 - size % 4 else 0
  }

  function FlowBytes(flow: Flow): seq<Byte> {
    if flow == [] then [] else FlowBytes(flow[..|flow| - 1]) + flow[|flow| - 1]
  }

  /** The record has the fields the widths describe. */
  ghost predicate Matches(widths: seq<nat>, flow: Flow) {
    |flow| == |widths| && forall i :: 0 <= i < |widths| ==> |flow[i]| == widths[i]
  }

  /** What is drawn, if anything, has these widths. */
  ghost predicate DrawsMatch(widths: seq<nat>, draws: seq<Option<Flow>>) {
    forall i :: 0 <= i < |draws| && draws[i].Some? ==> Matches(widths, draws[i].value)
  }

  ghost predicate AllMatch(widths: seq<nat>, flows: seq<Flow>) {
    forall i :: 0 <= i < |flows| ==> Matches(widths, flows[i])
  }

  /** Cuts a record into fields of these widths. */
  function Cut(widths: seq<nat>, b: seq<Byte>): Flow
    requires |b| >= Sum(widths)
  {
    if widths == [] then []
    else Cut(widths[..|widths| - 1], b) + [b[Sum(widths[..|widths| - 1])..Sum(widths)]]
  }

  function ReadFlow(widths: seq<nat>, b: seq<Byte>): Parsed<Flow> {
    if |b| < Sum(widths) then Fail else Got(Cut(widths, b), Sum(widths))
  }

  /** The first n records of a data set body, and the bytes after them. */
  ghost function ReadFlows(widths: seq<nat>, n: nat, body: seq<Byte>): Option<Items<Flow>> {
    Times(b => ReadFlow(widths, b), n, body)
  }

  lemma SumNext(widths: seq<nat>, k: nat)
    requires k < |widths|
    ensures Sum(widths[..k + 1]) == Sum(widths[..k]) + widths[k]
  {
    assert widths[..k + 1][..k] == widths[..k];
  }

  lemma SumFour(widths: seq<nat>, k: nat)
    requires k + 3 < |widths|
    ensures Sum(widths[..k + 4]) == Sum(widths[..k]) + widths[k] + widths[k + 1] + widths[k + 2] + widths[k + 3]
  {
    hide Sum;
    SumNext(widths, k);
    SumNext(widths, k + 1);
    SumNext(widths, k + 2);
    SumNext(widths, k + 3);
  }

  lemma {:induction false} FlowSize(widths: seq<nat>, flow: Flow)
    requires Matches(widths, flow)
    ensures |FlowBytes(flow)| == Sum(widths)
  {
    if widths == [] {
    } else {
      FlowSize(widths[..|widths| - 1], flow[..|flow| - 1]);
    }
  }

  lemma MulStep(n: nat, w: nat)
    ensures (n + 1) * w == n * w + w
  {
  }

  lemma {:induction false} FlowsSize(widths: seq<nat>, flows: seq<Flow>)
    requires AllMatch(widths, flows)
    ensures |Encode(FlowBytes, flows)| == |flows| * Sum(widths)
  {
    hide Matches, FlowBytes, Sum;
    if flows == [] {
    } else {
      FlowSize(widths, flows[0]);
      FlowsSize(widths, flows[1..]);
      MulStep(|flows| - 1, Sum(widths));
    }
  }

  lemma {:induction false} CutIsInverse(widths: seq<nat>, flow: Flow, rest: seq<Byte>)
    requires Matches(widths, flow)
    ensures |FlowBytes(flow)| == Sum(widths) && Cut(widths, FlowBytes(flow) + rest) == flow
  {
    FlowSize(widths, flow);
    if widths == [] {
    } else {
      var n := |widths| - 1;
      FlowSize(widths[..n], flow[..n]);
      assert FlowBytes(flow) + rest == FlowBytes(flow[..n]) + (flow[n] + rest);
      CutIsInverse(widths[..n], flow[..n], flow[n] + rest);
      assert flow == flow[..n] + [flow[n]];
    }
  }

  lemma {:induction false} CutMatches(widths: seq<nat>, b: seq<Byte>)
    requires |b| >= Sum(widths)
    ensures Matches(widths, Cut(widths, b))
  {
    if widths == [] {
    } else {
      CutMatches(widths[..|widths| - 1], b);
    }
  }

  lemma {:induction false} CutCoversRecord(widths: seq<nat>, b: seq<Byte>)
    requires |b| >= Sum(widths)
    ensures FlowBytes(Cut(widths, b)) == b[..Sum(widths)]
  {
    if widths == [] {
    } else {
      var n := |widths| - 1;
      CutCoversRecord(widths[..n], b);
      var cut, k, m := Cut(widths, b), Sum(widths[..n]), Sum(widths);
      assert cut == Cut(widths[..n], b) + [b[k..m]] && cut[..|cut| - 1] == Cut(widths[..n], b);
      assert b[..m] == b[..k] + b[k..m];
    }
  }

  /** Records are read back, for every list of widths. */
  lemma FlowCodes(widths: seq<nat>)
    ensures Codes(b => ReadFlow(widths, b), FlowBytes, flow => Matches(widths, flow))
  {
    var p, wf := b => ReadFlow(widths, b), flow => Matches(widths, flow);
    forall b ensures SoundAt(p, FlowBytes, wf, b) {
      if |b| >= Sum(widths) {
        CutMatches(widths, b);
        CutCoversRecord(widths, b);
      }
    }
    forall flow, rest ensures CompleteAt(p, FlowBytes, wf, flow, rest) {
      if wf(flow) {
        CutIsInverse(widths, flow, rest);
      }
    }
  }

  /** Records written one after the other are read back, exactly and in order. */
  lemma FlowsReadBack(widths: seq<nat>, flows: seq<Flow>, rest: seq<Byte>)
    requires AllMatch(widths, flows)
    ensures ReadFlows(widths, |flows|, Encode(FlowBytes, flows) + rest) == Some(Items(flows, rest))
  {
    FlowCodes(widths);
    TimesComplete(b => ReadFlow(widths, b), FlowBytes, flow => Matches(widths, flow), flows, rest);
  }

  /** Field j of a record starts after the widths of the fields before it. */
  lemma {:induction false} FieldAt(widths: seq<nat>, flow: Flow, j: nat)
    requires Matches(widths, flow) && j < |widths|
    ensures Sum(widths[..j]) + widths[j] <= |FlowBytes(flow)|
    ensures FlowBytes(flow)[Sum(widths[..j])..Sum(widths[..j]) + widths[j]] == flow[j]
  {
    var n := |widths| - 1;
    FlowSize(widths[..n], flow[..n]);
    if j == n {
    } else {
      FieldAt(widths[..n], flow[..n], j);
      assert widths[..n][..j] == widths[..j];
      var front, at := FlowBytes(flow[..n]), Sum(widths[..j]);
      assert (front + flow[n])[at..at + widths[j]] == front[at..at + widths[j]];
    }
  }

  /** Field j of record f in a list of records, at its place in the bytes. */
  lemma FlowAt(widths: seq<nat>, flows: seq<Flow>, f: nat, j: nat)
    requires AllMatch(widths, flows) && f < |flows| && j < |widths|
    ensures var at := f * Sum(widths) + Sum(widths[..j]);
            at + widths[j] <= |Encode(FlowBytes, flows)| && Encode(FlowBytes, flows)[at..at + widths[j]] == flows[f][j]
  {
    hide FlowBytes, Encode, Sum, Matches;
    forall flow | flow in flows ensures |FlowBytes(flow)| == Sum(widths) {
      FlowSize(widths, flow);
    }
    ItemAt(FlowBytes, flows, Sum(widths), f);
    FieldAt(widths, flows[f], j);
    PartAt(Encode(FlowBytes, flows), f * Sum(widths), FlowBytes(flows[f]), Sum(widths[..j]), widths[j]);
  }

  lemma PartAt(all: seq<Byte>, at: nat, part: seq<Byte>, offset: nat, width: nat)
    requires at + |part| <= |all| && all[at..at + |part|] == part && offset + width <= |part|
    ensures all[at + offset..at + offset + width] == part[offset..offset + width]
  {
    SliceOfSlice(all, at, at + |part|, offset, offset + width);
  }

  // ----- Data sets byte by byte -----

  /**
   A data set for template 256: field j of record f after the records before it and the fields
   before it, then zeros up to a length divisible by four.
   */
  ghost predicate DataOnBytes(widths: seq<nat>, flows: seq<Flow>, b: seq<Byte>) {
    var end := 4 + |flows| * Sum(widths);
    && end <= |b| < end + 4 && |b| % 4 == 0 && GetU16(b, 0) == 256 && GetU16(b, 2) == |b|
    && (forall f, j :: 0 <= f < |flows| && 0 <= j < |widths| ==> FieldOnBytes(widths, flows, b, f, j))
    && forall i :: end <= i < |b| ==> b[i] == 0
  }

  ghost predicate FieldOnBytes(widths: seq<nat>, flows: seq<Flow>, b: seq<Byte>, f: nat, j: nat)
    requires f < |flows| && j < |widths|
  {
    var at := 4 + f * Sum(widths) + Sum(widths[..j]);
    && 0 <= at <= at + widths[j] <= |b|
    && j < |flows[f]| && b[at..at + widths[j]] == flows[f][j]
  }

  lemma SetHeader(id: U16, length: U16, content: seq<Byte>)
    ensures var b := PutU16(id) + PutU16(length) + content;
            |b| == 4 + |content| && GetU16(b, 0) == id && GetU16(b, 2) == length && b[4..] == content
  {
    FrontTwo(id, length, content);
  }

  /** Records and the padding they need, behind a set header. */
  lemma DataSetBytes(widths: seq<nat>, flows: seq<Flow>, padding: nat)
    requires AllMatch(widths, flows)
    requires padding == PaddingFor(4 + |flows| * Sum(widths)) && 4 + |flows| * Sum(widths) + padding <= MAX_U16
    ensures var length := 4 + |flows| * Sum(widths) + padding;
            DataOnBytes(widths, flows, PutU16(256) + PutU16(length) + (Encode(FlowBytes, flows) + Zeros(padding)))
  {
    hide Encode, GetU16, Sum, AllMatch, FieldOnBytes;
    var records, length := Encode(FlowBytes, flows), 4 + |flows| * Sum(widths) + padding;
    var b := PutU16(256) + PutU16(length) + (records + Zeros(padding));
    FlowsSize(widths, flows);
    SetHeader(256, length, records + Zeros(padding));
    forall f, j | 0 <= f < |flows| && 0 <= j < |widths| ensures FieldOnBytes(widths, flows, b, f, j) {
      FieldInSet(widths, flows, b, f, j);
    }
    PaddedBytes(b, records, padding);
  }

  lemma PaddedBytes(b: seq<Byte>, records: seq<Byte>, padding: nat)
    requires |b| >= 4 && b[4..] == records + Zeros(padding)
    ensures |b| == 4 + |records| + padding
    ensures forall i :: 4 + |records| <= i < |b| ==> b[i] == 0
  {
    assert forall i :: 4 <= i < |b| ==> b[i] == b[4..][i - 4];
  }

  lemma FieldInSet(widths: seq<nat>, flows: seq<Flow>, b: seq<Byte>, f: nat, j: nat)
    requires AllMatch(widths, flows) && f < |flows| && j < |widths|
    requires |b| >= 4 && Encode(FlowBytes, flows) <= b[4..]
    ensures FieldOnBytes(widths, flows, b, f, j)
  {
    hide Encode, FlowBytes, Sum, AllMatch;
    FlowAt(widths, flows, f, j);
    FieldCount(widths, flows, f);
    RecordsInSet(b, Encode(FlowBytes, flows), f * Sum(widths) + Sum(widths[..j]), widths[j]);
  }

  lemma FieldCount(widths: seq<nat>, flows: seq<Flow>, f: nat)
    requires AllMatch(widths, flows) && f < |flows|
    ensures |flows[f]| == |widths|
  {
  }

  lemma RecordsInSet(b: seq<Byte>, records: seq<Byte>, at: nat, width: nat)
    requires |b| >= 4 && records <= b[4..] && at + width <= |records|
    ensures b[4 + at..4 + at + width] == records[at..at + width]
  {
    assert records == b[4..4 + |records|];
    SliceOfSlice(b, 4, 4 + |records|, at, at + width);
  }
}
