/**
 What the verdict on a NetFlow v9 packet comes to, without a template table: a data set is counted
 with the record size of the last definition of its ID before it or, if there is none to count
 with, in the whole packet.
 */
module NetFlowReadings {
  import opened Bytes
  import opened NetFlowGrammar
  import opened NetFlowCounts
  import opened NetFlowValidator
  import opened NetFlowProperties
  import opened Sums

  function Lengths(fs: seq<Field>): seq<nat> {
    seq(|fs|, i requires 0 <= i < |fs| => fs[i].length)
  }

  lemma {:induction false} WidthIsSum(fs: seq<Field>)
    ensures Width(fs) == Sum(Lengths(fs))
  {
    if fs == [] {
    } else {
      WidthIsSum(fs[..|fs| - 1]);
      assert Lengths(fs)[..|fs| - 1] == Lengths(fs[..|fs| - 1]);
    }
  }

  lemma {:induction false} WidthConcat(a: seq<Field>, b: seq<Field>)
    ensures Width(a + b) == Width(a) + Width(b)
  {
    if b == [] {
      assert a + b == a;
    } else {
      WidthConcat(a, b[..|b| - 1]);
      assert (a + b)[..|a + b| - 1] == a + b[..|b| - 1];
    }
  }

  // ----- Definitions -----

  /** Record q of the set defines this ID, with records of this size; scope fields are part of a record. */
  ghost predicate DefinesAt(s: FlowSet, q: nat, id: U16, size: nat) {
    match s
    case Templates(ts, _) => q < |ts| && ts[q].id == id && size == Sum(Lengths(ts[q].fields))
    case OptionsTemplates(os, _) =>
      q < |os| && os[q].id == id && size == Sum(Lengths(os[q].scopes)) + Sum(Lengths(os[q].options))
    case Data(_, _) => false
  }

  ghost predicate Defines(s: FlowSet, id: U16) {
    exists q, size :: DefinesAt(s, q, id, size)
  }

  lemma DefinitionIs(s: FlowSet, q: nat, id: U16, size: nat)
    ensures DefinesAt(s, q, id, size) <==> q < |Definitions(s)| && Definitions(s)[q] == Definition(id, size)
  {
    hide Width, Sum;
    match s
    case Templates(ts, _) =>
      if q < |ts| {
        WidthIsSum(ts[q].fields);
      }
    case OptionsTemplates(os, _) =>
      if q < |os| {
        WidthConcat(os[q].scopes, os[q].options);
        WidthIsSum(os[q].scopes);
        WidthIsSum(os[q].options);
      }
    case Data(_, _) =>
  }

  /** The set defines the ID, last with this size. */
  ghost predicate DefinesLast(s: FlowSet, id: U16, size: nat) {
    exists q :: DefinesAt(s, q, id, size) && forall r, x :: r > q ==> !DefinesAt(s, r, id, x)
  }

  /** The last definition of the ID in these sets has this size; 0 if there is none. */
  ghost predicate LastSize(sets: seq<FlowSet>, id: U16, size: nat) {
    if forall j :: 0 <= j < |sets| ==> !Defines(sets[j], id) then size == 0
    else
      exists j :: 0 <= j < |sets| && DefinesLast(sets[j], id, size)
                  && forall k :: j < k < |sets| ==> !Defines(sets[k], id)
  }

  /** What is known of an ID after some definitions: the size of its last one, else what was known before. */
  lemma {:induction false} LastDefined(table: map<U16, nat>, ds: seq<Definition>, id: U16)
    ensures var after := Define(table, ds);
            if exists q :: 0 <= q < |ds| && ds[q].id == id then
              exists q :: 0 <= q < |ds| && ds[q] == Definition(id, Known(after, id))
                          && forall r :: q < r < |ds| ==> ds[r].id != id
            else Known(after, id) == Known(table, id)
  {
    if ds == [] {
    } else {
      var n := |ds| - 1;
      LastDefined(table, ds[..n], id);
      if ds[n].id == id {
        assert ds[n] == Definition(id, Known(Define(table, ds), id));
      } else if q :| 0 <= q < n && ds[q].id == id {
        assert ds[..n][q].id == id;
        var p :| 0 <= p < n && ds[..n][p] == Definition(id, Known(Define(table, ds[..n]), id))
                 && forall r :: p < r < n ==> ds[..n][r].id != id;
        assert ds[p] == Definition(id, Known(Define(table, ds), id));
        forall r | p < r < |ds| ensures ds[r].id != id {
          assert r < n ==> ds[r] == ds[..n][r];
        }
      }
    }
  }

  lemma SetDefines(table: map<U16, nat>, s: FlowSet, id: U16)
    ensures var size := Known(Define(table, Definitions(s)), id);
            if Defines(s, id) then DefinesLast(s, id, size) else size == Known(table, id)
  {
    hide Definitions, Define, DefinesAt;
    var ds := Definitions(s);
    LastDefined(table, ds, id);
    forall q: nat, size ensures DefinesAt(s, q, id, size) <==> q < |ds| && ds[q] == Definition(id, size) {
      DefinitionIs(s, q, id, size);
    }
    if q :| 0 <= q < |ds| && ds[q].id == id {
      assert DefinesAt(s, q, id, ds[q].size);
    }
  }

  lemma LastInFront(sets: seq<FlowSet>, s: FlowSet, id: U16, size: nat)
    requires LastSize(sets, id, size) && !Defines(s, id)
    ensures LastSize(sets + [s], id, size)
  {
    hide Defines, DefinesLast;
    var all := sets + [s];
    if j :| 0 <= j < |sets| && Defines(sets[j], id) {
      assert Defines(all[j], id);
      var i :| 0 <= i < |sets| && DefinesLast(sets[i], id, size)
               && forall k :: i < k < |sets| ==> !Defines(sets[k], id);
      assert DefinesLast(all[i], id, size);
    }
  }

  lemma LastAtEnd(sets: seq<FlowSet>, s: FlowSet, id: U16, size: nat)
    requires Defines(s, id) && DefinesLast(s, id, size)
    ensures LastSize(sets + [s], id, size)
  {
    hide Defines, DefinesLast;
    var all := sets + [s];
    assert all[|sets|] == s;
  }

  /** The table knows the size of the last definition. */
  lemma {:induction false} TableKnowsLast(sets: seq<FlowSet>, id: U16)
    ensures LastSize(sets, id, Known(Table(sets), id))
  {
    hide Definitions, Define, Defines, DefinesLast, LastSize;
    if sets == [] {
      NothingDefined(id);
    } else {
      var front, s := sets[..|sets| - 1], sets[|sets| - 1];
      TableKnowsLast(front, id);
      SetDefines(Table(front), s, id);
      assert sets == front + [s];
      if Defines(s, id) {
        LastAtEnd(front, s, id, Known(Table(sets), id));
      } else {
        LastInFront(front, s, id, Known(Table(front), id));
      }
    }
  }

  lemma NothingDefined(id: U16)
    ensures LastSize([], id, 0) && Known(map[], id) == 0
  {
  }

  lemma OneLast(s: FlowSet, id: U16, x: nat, y: nat)
    requires DefinesLast(s, id, x) && DefinesLast(s, id, y)
    ensures x == y
  {
    hide DefinesAt;
    var p :| DefinesAt(s, p, id, x) && forall r, z :: r > p ==> !DefinesAt(s, r, id, z);
    var q :| DefinesAt(s, q, id, y) && forall r, z :: r > q ==> !DefinesAt(s, r, id, z);
    DefinitionIs(s, p, id, x);
    DefinitionIs(s, q, id, y);
  }

  lemma LastIsDefined(s: FlowSet, id: U16, size: nat)
    requires DefinesLast(s, id, size)
    ensures Defines(s, id)
  {
    hide DefinesAt;
  }

  lemma SizeIsUnique(sets: seq<FlowSet>, id: U16, x: nat, y: nat)
    requires LastSize(sets, id, x) && LastSize(sets, id, y)
    ensures x == y
  {
    hide Defines, DefinesLast;
    if exists j :: 0 <= j < |sets| && Defines(sets[j], id) {
      var i :| 0 <= i < |sets| && DefinesLast(sets[i], id, x) && forall k :: i < k < |sets| ==> !Defines(sets[k], id);
      var j :| 0 <= j < |sets| && DefinesLast(sets[j], id, y) && forall k :: j < k < |sets| ==> !Defines(sets[k], id);
      LastIsDefined(sets[i], id, x);
      LastIsDefined(sets[j], id, y);
      OneLast(sets[i], id, x, y);
    }
  }

  // ----- The verdict -----

  /** Data of this length may be so many records: whole ones up to three bytes of padding, at least one. */
  ghost predicate Divides(length: nat, size: nat, count: int) {
    count >= 1 && 0 <= length - count * size <= 3
  }

  /** Set i may be read as this many records. */
  ghost predicate Holds(sets: seq<FlowSet>, i: nat, count: nat)
    requires i < |sets|
  {
    match sets[i]
    case Templates(ts, _) => count == |ts|
    case OptionsTemplates(os, _) => count == |os|
    case Data(id, body) =>
      exists before, all :: LastSize(sets[..i], id, before) && LastSize(sets, id, all)
        && if before > 0 then Divides(|body|, before, count)
           else if all > 0 then Divides(|body|, all, count)
           else count >= 1
  }

  lemma FitsIsDivides(length: nat, size: nat, count: nat)
    requires size > 0
    ensures Fits(length, size, count) <==> Divides(length, size, count)
  {
    if Fits(length, size, count) {
      var pad :| PaddedBy(length, size, count, pad);
      assert length - count * size == pad;
      assert count >= 1;
    }
    if Divides(length, size, count) {
      MulMono(1, count, size);
      assert PaddedBy(length, size, count, length - count * size);
    }
  }

  lemma AdmitsIsHolds(sets: seq<FlowSet>, i: nat, count: nat)
    requires i < |sets|
    ensures Admits(sets, i, count) <==> Holds(sets, i, count)
  {
    hide Fits, Divides, LastSize, Table;
    if sets[i].Data? {
      var id, length := sets[i].id, |sets[i].body|;
      var met, known := Known(Table(sets[..i]), id), Known(Table(sets), id);
      TableKnowsLast(sets[..i], id);
      TableKnowsLast(sets, id);
      forall x, y | LastSize(sets[..i], id, x) && LastSize(sets, id, y) ensures x == met && y == known {
        SizeIsUnique(sets[..i], id, x, met);
        SizeIsUnique(sets, id, y, known);
      }
      if SizeAt(sets, i) > 0 {
        FitsIsDivides(length, SizeAt(sets, i), count);
      }
    }
  }

  ghost predicate Explains(p: Packet, counts: seq<nat>) {
    && |counts| == |p.flowSets| && Sum(counts) == p.header.flowCount
    && forall i :: 0 <= i < |counts| ==> Holds(p.flowSets, i, counts[i])
  }

  /** A well-formed packet is accepted exactly when some counts of its sets explain its FlowCount. */
  lemma ReadingDecides(p: Packet, version: int)
    requires WfPacket(p)
    ensures Accepted(EncodePacket(p), version) <==>
              p.header.version == version % 0x1_0000 && p.flowSets != [] && exists counts :: Explains(p, counts)
  {
    hide Holds, Admits, Sum;
    WellFormedVerdict(p, version);
    forall i, count | 0 <= i < |p.flowSets| ensures Admits(p.flowSets, i, count) <==> Holds(p.flowSets, i, count) {
      AdmitsIsHolds(p.flowSets, i, count);
    }
    forall counts ensures Explains(p, counts) <==> SumsTo(p.flowSets, counts, p.header.flowCount) {
    }
  }

  // ----- One template and its data -----

  /** A set of one definition and a data set for it, in either order: the definition counts one record. */
  lemma PairDecides(h: Header, t: FlowSet, d: FlowSet, size: nat, sets: seq<FlowSet>, version: int)
    requires WfFlowSet(t) && WfFlowSet(d) && d.Data? && size > 0 && Definitions(t) == [Definition(d.id, size)]
    requires !t.Data? && TemplateCount(t) == 1
    requires sets == [t, d] || sets == [d, t]
    ensures Accepted(EncodePacket(Packet(h, sets)), version) <==>
              h.version == version % 0x1_0000 && Divides(|d.body|, size, h.flowCount - 1)
  {
    hide WfFlowSet, Definitions, TemplateCount, Divides, Interprets;
    assert forall i :: 0 <= i < 2 ==> sets[i] == t || sets[i] == d;
    WellFormedVerdict(Packet(h, sets), version);
    PairCounts(t, d, size, sets, h.flowCount);
  }

  lemma PairCounts(t: FlowSet, d: FlowSet, size: nat, sets: seq<FlowSet>, total: nat)
    requires d.Data? && size > 0 && Definitions(t) == [Definition(d.id, size)] && !t.Data? && TemplateCount(t) == 1
    requires sets == [t, d] || sets == [d, t]
    ensures (exists counts :: SumsTo(sets, counts, total)) <==> Divides(|d.body|, size, total - 1)
  {
    var i := if sets[0] == t then 1 else 0;
    PairSize(t, d, size, sets, i);
    hide SizeAt, Fits, Definitions, Sum;
    assert sets[1 - i] == t && sets[i] == d;
    forall counts | SumsTo(sets, counts, total) ensures Divides(|d.body|, size, total - 1) {
      PairSum(counts);
      assert Admits(sets, i, counts[i]) && Admits(sets, 1 - i, counts[1 - i]);
      FitsIsDivides(|d.body|, size, counts[i]);
    }
    if Divides(|d.body|, size, total - 1) {
      var count := total - 1;
      FitsIsDivides(|d.body|, size, count);
      var counts := if i == 1 then [1, count] else [count, 1];
      PairSum(counts);
      assert Admits(sets, 0, counts[0]) && Admits(sets, 1, counts[1]);
      assert SumsTo(sets, counts, total);
    }
  }

  lemma PairSum(counts: seq<nat>)
    ensures |counts| == 2 ==> Sum(counts) == counts[0] + counts[1]
  {
    if |counts| == 2 {
      assert Sum(counts[..1]) == Sum(counts[..1][..0]) + counts[0];
    }
  }

  lemma PairSize(t: FlowSet, d: FlowSet, size: nat, sets: seq<FlowSet>, i: nat)
    requires d.Data? && size > 0 && Definitions(t) == [Definition(d.id, size)]
    requires (sets == [t, d] && i == 1) || (sets == [d, t] && i == 0)
    ensures SizeAt(sets, i) == size
  {
    var ds := Definitions(t);
    assert ds[..0] == [];
    assert Definitions(d) == [];
    if i == 1 {
      assert sets[..1] == [t] && sets[..1][..0] == [] && Table([t]) == Define(map[], ds);
    } else {
      assert sets[..0] == [] && sets[..1] == [d] && [d][..0] == [];
      assert Table([d]) == Define(map[], []);
      assert Table(sets) == Define(Table([d]), ds);
    }
  }

  /**
   An options template and data for it, in either order: accepted exactly when the data is a whole
   number of records as long as all scope and option fields together, up to three bytes of padding,
   and the FlowCount is that number and one for the options template.
   */
  lemma OptionsAndData(h: Header, o: OptionsRecord, padding: nat, body: seq<Byte>, sets: seq<FlowSet>, version: int)
    requires WfFlowSet(OptionsTemplates([o], padding)) && WfFlowSet(Data(o.id, body))
    requires Sum(Lengths(o.scopes)) + Sum(Lengths(o.options)) > 0
    requires sets == [OptionsTemplates([o], padding), Data(o.id, body)]
             || sets == [Data(o.id, body), OptionsTemplates([o], padding)]
    ensures Accepted(EncodePacket(Packet(h, sets)), version) <==>
              && h.version == version % 0x1_0000 && h.flowCount >= 2
              && 0 <= |body| - (h.flowCount - 1) * (Sum(Lengths(o.scopes)) + Sum(Lengths(o.options))) <= 3
  {
    hide WfFlowSet, Width, Sum, Accepted, EncodePacket;
    var t, d := OptionsTemplates([o], padding), Data(o.id, body);
    var size := Sum(Lengths(o.scopes)) + Sum(Lengths(o.options));
    WidthConcat(o.scopes, o.options);
    WidthIsSum(o.scopes);
    WidthIsSum(o.options);
    assert Definitions(t) == [Definition(o.id, size)];
    PairDecides(h, t, d, size, sets, version);
  }

  /** A template and data for it, likewise. */
  lemma TemplateAndData(h: Header, r: TemplateRecord, padding: nat, body: seq<Byte>, sets: seq<FlowSet>, version: int)
    requires WfFlowSet(Templates([r], padding)) && WfFlowSet(Data(r.id, body)) && Sum(Lengths(r.fields)) > 0
    requires sets == [Templates([r], padding), Data(r.id, body)] || sets == [Data(r.id, body), Templates([r], padding)]
    ensures Accepted(EncodePacket(Packet(h, sets)), version) <==>
              && h.version == version % 0x1_0000 && h.flowCount >= 2
              && 0 <= |body| - (h.flowCount - 1) * Sum(Lengths(r.fields)) <= 3
  {
    hide WfFlowSet, Width, Sum, Accepted, EncodePacket;
    var t, d := Templates([r], padding), Data(r.id, body);
    WidthIsSum(r.fields);
    assert Definitions(t) == [Definition(r.id, Sum(Lengths(r.fields)))];
    PairDecides(h, t, d, Sum(Lengths(r.fields)), sets, version);
  }
}
