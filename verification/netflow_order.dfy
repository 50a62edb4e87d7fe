/**
 When the order of a packet's FlowSets can change its verdict: exactly when two of its template
 sets leave an ID with sizes that count differently, unless their records alone fill the FlowCount.
 */
module NetFlowOrder {
  import opened Bytes
  import opened Codec
  import opened NetFlowGrammar
  import opened NetFlowCounts
  import opened NetFlowValidator
  import opened NetFlowProperties
  import opened Sums

  // ----- What a set leaves in the table -----

  /** The longest data a FlowSet can hold. */
  const MAX_BODY := MAX_U16 - 4

  /** The sizes a set leaves, whatever was defined before it. */
  function Leaves(s: FlowSet): map<U16, nat> {
    Define(map[], Definitions(s))
  }

  /** Sizes that count alike: the same, or both more than any data set holds. */
  predicate Alike(x: nat, y: nat) {
    x == y || (x > MAX_BODY && y > MAX_BODY)
  }

  /** Any two sets that define an ID leave it with sizes that count alike. */
  ghost predicate LeaveAlike(sets: seq<FlowSet>) {
    forall s, t, id :: s in sets && t in sets && id in Leaves(s) && id in Leaves(t) ==>
      Alike(Leaves(s)[id], Leaves(t)[id])
  }

  /** What one set leaves replaces what was there, and nothing else. */
  lemma {:induction false} DefineOver(table: map<U16, nat>, ds: seq<Definition>, id: U16)
    ensures id in Define(table, ds) <==> id in table || id in Define(map[], ds)
    ensures id in Define(table, ds) ==>
              Define(table, ds)[id] == if id in Define(map[], ds) then Define(map[], ds)[id] else table[id]
  {
    if ds == [] {
    } else {
      DefineOver(table, ds[..|ds| - 1], id);
    }
  }

  ghost predicate Left(sets: seq<FlowSet>, id: U16, size: nat) {
    exists s :: s in sets && id in Leaves(s) && Leaves(s)[id] == size
  }

  /** Every size in the table is one some set leaves. */
  lemma {:induction false} TableIsLeft(sets: seq<FlowSet>, id: U16)
    requires id in Table(sets)
    ensures Left(sets, id, Table(sets)[id])
  {
    hide Definitions, Define;
    var front, last := sets[..|sets| - 1], sets[|sets| - 1];
    DefineOver(Table(front), Definitions(last), id);
    if id in Leaves(last) {
      assert last in sets;
    } else {
      TableIsLeft(front, id);
    }
  }

  /** Every ID some set leaves is in the table. */
  lemma {:induction false} LeftIsInTable(sets: seq<FlowSet>, s: FlowSet, id: U16)
    requires s in sets && id in Leaves(s)
    ensures id in Table(sets)
  {
    hide Definitions, Define;
    var front, last := sets[..|sets| - 1], sets[|sets| - 1];
    DefineOver(Table(front), Definitions(last), id);
    if s == last {
    } else {
      LeftIsInTable(front, s, id);
    }
  }

  /** Sets drawn from sets that leave alike know no size that counts differently from the whole's. */
  lemma KnownAlike(part: seq<FlowSet>, sets: seq<FlowSet>, id: U16)
    requires LeaveAlike(sets) && forall s :: s in part ==> s in sets
    ensures Known(Table(part), id) == 0 || Alike(Known(Table(part), id), Known(Table(sets), id))
    ensures (forall s :: s in sets ==> s in part) ==> Alike(Known(Table(part), id), Known(Table(sets), id))
  {
    hide Leaves, Table;
    if id in Table(part) {
      TableIsLeft(part, id);
      var s :| s in part && id in Leaves(s) && Leaves(s)[id] == Table(part)[id];
      LeftIsInTable(sets, s, id);
      TableIsLeft(sets, id);
    } else if id in Table(sets) && forall s :: s in sets ==> s in part {
      TableIsLeft(sets, id);
      var s :| s in sets && id in Leaves(s);
      LeftIsInTable(part, s, id);
    }
  }

  // ----- Alike sizes give the same ranges -----

  /** No record of a size over the length fits in it. */
  lemma TooLarge(length: nat, size: nat)
    requires size > length
    ensures DataRange(length, size) == Range(1, 0, false)
  {
    DivSmall(length, size);
    if length > 4 {
      DivSmall(length - 4, size);
    }
  }

  lemma DivSmall(n: nat, d: nat)
    requires n < d
    ensures n / d == 0
  {
    DivBounds(n, d, 1);
  }

  lemma AlikeRanges(length: nat, x: nat, y: nat)
    requires Alike(x, y) && length <= MAX_BODY
    ensures DataRange(length, x) == DataRange(length, y)
  {
    if x != y {
      TooLarge(length, x);
      TooLarge(length, y);
    }
  }

  function RangesFrom(table: map<U16, nat>, sets: seq<FlowSet>): seq<Range> {
    seq(|sets|, i requires 0 <= i < |sets| => RangeMet(table, table, sets[i]))
  }

  /** With sets that leave alike, every set counts as with the final table. */
  lemma OneTableSuffices(sets: seq<FlowSet>)
    requires LeaveAlike(sets) && All(WfFlowSet, sets)
    ensures Ranges(sets) == RangesFrom(Table(sets), sets)
  {
    hide LeaveAlike, RangeAt, RangeMet, Table, WfFlowSet;
    forall i | 0 <= i < |sets| ensures RangeAt(sets, i) == RangeMet(Table(sets), Table(sets), sets[i]) {
      OneTableAt(sets, i);
    }
  }

  lemma OneTableAt(sets: seq<FlowSet>, i: nat)
    requires LeaveAlike(sets) && i < |sets| && WfFlowSet(sets[i])
    ensures RangeAt(sets, i) == RangeMet(Table(sets), Table(sets), sets[i])
  {
    hide LeaveAlike, Table, Known, DataRange;
    if sets[i].Data? {
      var id, length := sets[i].id, |sets[i].body|;
      KnownAlike(sets[..i], sets, id);
      if Known(Table(sets[..i]), id) > 0 {
        AlikeRanges(length, Known(Table(sets[..i]), id), Known(Table(sets), id));
      }
    }
  }

  lemma {:induction false} RangesPermuted(table: map<U16, nat>, a: seq<FlowSet>, b: seq<FlowSet>)
    requires multiset(a) == multiset(b)
    ensures multiset(RangesFrom(table, a)) == multiset(RangesFrom(table, b))
    decreases |a|
  {
    if a == [] {
      assert |multiset(b)| == 0;
    } else {
      var j := TakeOut(a, b);
      RangesPermuted(table, a[..|a| - 1], b[..j] + b[j + 1..]);
      RangesSplit(table, a, |a| - 1);
      RangesSplit(table, b, j);
    }
  }

  lemma RangesSplit(table: map<U16, nat>, sets: seq<FlowSet>, j: nat)
    requires j < |sets|
    ensures multiset(RangesFrom(table, sets))
         == multiset(RangesFrom(table, sets[..j] + sets[j + 1..])) + multiset{RangeMet(table, table, sets[j])}
    ensures j == |sets| - 1 ==> sets[..j] + sets[j + 1..] == sets[..j]
  {
    hide RangeMet;
    var all := RangesFrom(table, sets);
    assert RangesFrom(table, sets[..j] + sets[j + 1..]) == all[..j] + all[j + 1..];
    assert all == all[..j] + [all[j]] + all[j + 1..];
  }

  lemma SameSets(a: seq<FlowSet>, b: seq<FlowSet>)
    requires multiset(a) == multiset(b)
    ensures forall s :: s in a <==> s in b
  {
    forall s ensures s in a <==> s in b {
      assert s in a <==> s in multiset(a);
      assert s in b <==> s in multiset(b);
    }
  }

  lemma TablesAlike(a: seq<FlowSet>, b: seq<FlowSet>)
    requires multiset(a) == multiset(b) && LeaveAlike(a) && All(WfFlowSet, b)
    ensures RangesFrom(Table(a), b) == RangesFrom(Table(b), b)
  {
    SameSets(a, b);
    hide LeaveAlike, Table, Known, DataRange;
    forall i | 0 <= i < |b| ensures RangeMet(Table(a), Table(a), b[i]) == RangeMet(Table(b), Table(b), b[i]) {
      if b[i].Data? {
        assert WfFlowSet(b[i]);
        KnownAlike(b, a, b[i].id);
        AlikeRanges(|b[i].body|, Known(Table(a), b[i].id), Known(Table(b), b[i].id));
      }
    }
  }

  /** The verdicts on two orders of FlowSets under one header are the same. */
  ghost predicate SameVerdicts(h: Header, a: seq<FlowSet>, b: seq<FlowSet>, version: int) {
    Accepted(EncodePacket(Packet(h, a)), version) <==> Accepted(EncodePacket(Packet(h, b)), version)
  }

  lemma PermutedWf(h: Header, a: seq<FlowSet>, b: seq<FlowSet>)
    requires WfPacket(Packet(h, a)) && multiset(a) == multiset(b)
    ensures WfPacket(Packet(h, b)) && |a| == |b|
  {
    hide WfFlowSet;
    SameSets(a, b);
    assert forall s :: s in a ==> WfFlowSet(s);
    assert |multiset(a)| == |a| && |multiset(b)| == |b|;
  }

  /** The verdict is that of the ranges. */
  lemma RangesDecide(h: Header, a: seq<FlowSet>, version: int)
    requires WfPacket(Packet(h, a))
    ensures Accepted(EncodePacket(Packet(h, a)), version) <==>
              h.version == version % 0x1_0000 && a != [] && TotalAllowed(Ranges(a), h.flowCount)
  {
    hide EncodePacket, Accepted, TotalAllowed, Ranges, SumsTo;
    WellFormedVerdict(Packet(h, a), version);
    ChoiceExists(a, h.flowCount);
  }

  /**
   Reordering the FlowSets of a packet never changes the verdict, as long as its sets leave alike:
   counting a set when it is met and counting it at the end come to the same.
   */
  lemma OrderDoesNotMatter(h: Header, a: seq<FlowSet>, b: seq<FlowSet>, version: int)
    requires WfPacket(Packet(h, a)) && multiset(a) == multiset(b) && LeaveAlike(a)
    ensures SameVerdicts(h, a, b, version)
  {
    hide Table, EncodePacket, Leaves, Accepted, TotalAllowed, Ranges, RangesFrom, Alike, WfFlowSet;
    SameSets(a, b);
    PermutedWf(h, a, b);
    assert LeaveAlike(b);
    OneTableSuffices(a);
    OneTableSuffices(b);
    TablesAlike(a, b);
    RangesPermuted(Table(a), a, b);
    AllowedPermuted(Ranges(a), Ranges(b), h.flowCount);
    RangesDecide(h, a, version);
    RangesDecide(h, b, version);
  }

  /** No template ID is defined twice. */
  ghost predicate DefinedOnce(sets: seq<FlowSet>) {
    forall i, j, a, b |
      && 0 <= i < |sets| && 0 <= a < |Definitions(sets[i])|
      && 0 <= j < |sets| && 0 <= b < |Definitions(sets[j])|
      && Definitions(sets[i])[a].id == Definitions(sets[j])[b].id
      :: i == j && a == b
  }

  lemma LeftIsDefined(s: FlowSet, id: U16)
    requires id in Leaves(s)
    ensures exists i :: 0 <= i < |Definitions(s)| && Definitions(s)[i].id == id
  {
    hide Definitions, Define;
    DefineKeeps(map[], Definitions(s), id);
  }

  lemma {:induction false} DefineKeeps(table: map<U16, nat>, ds: seq<Definition>, id: U16)
    ensures id in Define(table, ds) <==> id in table || exists d :: d in ds && d.id == id
    ensures id in Define(table, ds) ==>
              Definition(id, Define(table, ds)[id]) in ds || (id in table && Define(table, ds)[id] == table[id])
  {
    if ds == [] {
    } else {
      var front, last := ds[..|ds| - 1], ds[|ds| - 1];
      DefineKeeps(table, front, id);
      assert ds == front + [last];
      assert forall d :: d in ds <==> d in front || d == last;
    }
  }

  /** Sets that define each ID at most once leave alike. */
  lemma OnceLeavesAlike(sets: seq<FlowSet>)
    requires DefinedOnce(sets)
    ensures LeaveAlike(sets)
  {
    hide Definitions, Define;
    forall s, t, id | s in sets && t in sets && id in Leaves(s) && id in Leaves(t)
      ensures Alike(Leaves(s)[id], Leaves(t)[id])
    {
      var i :| 0 <= i < |sets| && sets[i] == s;
      var j :| 0 <= j < |sets| && sets[j] == t;
      LeftIsDefined(s, id);
      LeftIsDefined(t, id);
      var a :| 0 <= a < |Definitions(s)| && Definitions(s)[a].id == id;
      var b :| 0 <= b < |Definitions(t)| && Definitions(t)[b].id == id;
      assert Definitions(sets[i])[a].id == Definitions(sets[j])[b].id;
    }
  }

  lemma OrderDoesNotMatterOnce(h: Header, a: seq<FlowSet>, b: seq<FlowSet>, version: int)
    requires WfPacket(Packet(h, a)) && multiset(a) == multiset(b) && DefinedOnce(a)
    ensures SameVerdicts(h, a, b, version)
  {
    OnceLeavesAlike(a);
    OrderDoesNotMatter(h, a, b, version);
  }

  // ----- Exactly when the order matters -----

  function TemplateRecords(ts: seq<FlowSet>): nat {
    if ts == [] then 0 else TemplateRecords(ts[..|ts| - 1]) + TemplateCount(ts[|ts| - 1])
  }

  predicate OnlyTemplates(ts: seq<FlowSet>) {
    forall t :: t in ts ==> !t.Data?
  }

  predicate OnlyData(ds: seq<FlowSet>) {
    forall d :: d in ds ==> d.Data?
  }

  /** Template sets count their records, whatever the table. */
  lemma {:induction false} TemplateRanges(table: map<U16, nat>, ts: seq<FlowSet>)
    requires OnlyTemplates(ts)
    ensures var rs := RangesFrom(table, ts);
            SumLo(rs) == SumHi(rs) == TemplateRecords(ts) && AllFeasible(rs) && !AnyOpen(rs)
  {
    if ts == [] {
    } else {
      var n := |ts| - 1;
      TemplateRanges(table, ts[..n]);
      var rs, front := RangesFrom(table, ts), RangesFrom(table, ts[..n]);
      assert rs[..n] == front && rs == front + [rs[n]];
      assert forall i :: 0 <= i < n ==> rs[i] == front[i];
    }
  }

  lemma RecordsPermuted(a: seq<FlowSet>, b: seq<FlowSet>)
    requires OnlyTemplates(a) && multiset(a) == multiset(b)
    ensures OnlyTemplates(b) && TemplateRecords(a) == TemplateRecords(b)
  {
    hide RangesFrom;
    SameSets(a, b);
    TemplateRanges(map[], a);
    TemplateRanges(map[], b);
    RangesPermuted(map[], a, b);
    SumsPermuted(RangesFrom(map[], a), RangesFrom(map[], b));
  }

  lemma OneRange(r: Range)
    ensures SumLo([r]) == r.lo && SumHi([r]) == r.hi
    ensures (AllFeasible([r]) <==> Feasible(r)) && (AnyOpen([r]) <==> r.open)
  {
    assert [r][0] == r && [r][..0] == [];
  }

  /** A data set after all template sets counts with what the last of them leaves. */
  lemma SizeAtEnd(rest: seq<FlowSet>, s: FlowSet, d: FlowSet)
    requires d.Data? && d.id in Leaves(s)
    ensures var sets := rest + [s] + [d]; SizeAt(sets, |sets| - 1) == Leaves(s)[d.id]
  {
    hide Define;
    var us := rest + [s];
    assert us[..|rest|] == rest && (us + [d])[..|us|] == us;
    DefineOver(Table(rest), Definitions(s), d.id);
    DefineOver(Table(us), Definitions(d), d.id);
    NothingDefined(d, d.id);
  }

  lemma NothingDefined(d: FlowSet, id: U16)
    requires d.Data?
    ensures id !in Leaves(d)
  {
  }

  lemma RangesAtEnd(us: seq<FlowSet>, d: FlowSet)
    requires OnlyTemplates(us) && d.Data?
    ensures Ranges(us + [d]) == RangesFrom(map[], us) + [DataRange(|d.body|, SizeAt(us + [d], |us|))]
  {
    hide SizeAt, DataRange;
    assert forall i :: 0 <= i < |us| ==> (us + [d])[i] == us[i] && us[i] in us;
  }

  /** The verdict on template sets and one data set after them. */
  lemma EndVerdict(h: Header, us: seq<FlowSet>, d: FlowSet, version: int)
    requires OnlyTemplates(us) && d.Data? && WfPacket(Packet(h, us + [d])) && h.version == version % 0x1_0000
    ensures var r := DataRange(|d.body|, SizeAt(us + [d], |us|));
            Accepted(EncodePacket(Packet(h, us + [d])), version) <==>
              && Feasible(r) && TemplateRecords(us) + r.lo <= h.flowCount
              && (r.open || h.flowCount <= TemplateRecords(us) + r.hi)
  {
    hide Accepted, EncodePacket, WfFlowSet, SizeAt, DataRange, TotalAllowed, Ranges, RangesFrom, SumLo, SumHi;
    var r, rs := DataRange(|d.body|, SizeAt(us + [d], |us|)), RangesFrom(map[], us);
    RangesDecide(h, us + [d], version);
    TemplateRanges(map[], us);
    RangesAtEnd(us, d);
    AllowedConcat(rs, [r], h.flowCount);
    OneRange(r);
  }

  /** For sizes that do not count alike there is data one of them counts as one record and the other does not. */
  lemma TellingLength(m: nat, n: nat) returns (length: nat)
    requires m < n && m <= MAX_BODY
    ensures 0 < length <= MAX_BODY
    ensures var r := DataRange(length, m); Feasible(r) && r.lo == 1 && (r.open || r.hi >= 1)
    ensures var q := DataRange(length, n); Feasible(q) ==> q.lo > 1
  {
    if m > 0 {
      length := m;
      FitsOnce(m);
      TooLarge(m, n);
    } else if n > 1 {
      length := 1;
      TooLarge(1, n);
    } else {
      length := 5;
    }
  }

  lemma FitsOnce(size: nat)
    requires size > 0
    ensures DataRange(size, size) == Range(1, 1, false)
  {
    DivBounds(size, size, 1);
    DivBounds(size, size, 2);
    if size > 4 {
      DivSmall(size - 4, size);
    }
  }

  lemma Without(ts: seq<FlowSet>, s: FlowSet) returns (rest: seq<FlowSet>)
    requires s in ts
    ensures multiset(rest) + multiset{s} == multiset(ts)
  {
    var i :| 0 <= i < |ts| && ts[i] == s;
    rest := ts[..i] + ts[i + 1..];
    assert ts == ts[..i] + [s] + ts[i + 1..];
  }

  /** Two orders of these template sets and some data sets, under one header. */
  ghost predicate Reordered(h: Header, ts: seq<FlowSet>, ds: seq<FlowSet>, a: seq<FlowSet>, b: seq<FlowSet>) {
    OnlyData(ds) && WfPacket(Packet(h, a)) && multiset(a) == multiset(b) == multiset(ts) + multiset(ds)
  }

  ghost predicate OrderNeverMatters(ts: seq<FlowSet>, version: int) {
    forall h, ds, a, b :: Reordered(h, ts, ds, a, b) ==> SameVerdicts(h, a, b, version)
  }

  lemma DataSetIsWf(s: FlowSet, id: U16, length: nat)
    requires WfFlowSet(s) && id in Leaves(s) && 0 < length <= MAX_BODY
    ensures WfFlowSet(Data(id, Zeros(length)))
  {
    LeftIsDefined(s, id);
    hide Definitions;
    DefinitionsAreWf(s);
  }

  lemma DefinitionsAreWf(s: FlowSet)
    requires WfFlowSet(s)
    ensures forall i :: 0 <= i < |Definitions(s)| ==> Definitions(s)[i].id >= MIN_TEMPLATE_ID
  {
  }

  /**
   The packet that tells: a data set after all template sets, the last of them either the one that
   leaves the smaller size or the one that leaves the larger.
   */
  lemma TellingPacket(ts: seq<FlowSet>, s: FlowSet, t: FlowSet, id: U16, version: int)
    returns (h: Header, ds: seq<FlowSet>, a: seq<FlowSet>, b: seq<FlowSet>)
    requires OnlyTemplates(ts) && All(WfFlowSet, ts) && TemplateRecords(ts) < MAX_U16
    requires s in ts && t in ts && id in Leaves(s) && id in Leaves(t)
    requires Leaves(s)[id] < Leaves(t)[id] && Leaves(s)[id] <= MAX_BODY
    ensures Reordered(h, ts, ds, a, b)
    ensures Accepted(EncodePacket(Packet(h, a)), version) && !Accepted(EncodePacket(Packet(h, b)), version)
  {
    hide Leaves, WfFlowSet, Accepted, EncodePacket, DataRange, SizeAt, Zeros, TemplateRecords;
    var length := TellingLength(Leaves(s)[id], Leaves(t)[id]);
    DataSetIsWf(s, id, length);
    var d := Data(id, Zeros(length));
    var others := Without(ts, s);
    assert t in others by {
      assert t in multiset(ts);
    }
    var rest := Without(others, t);
    h, ds := Header(version % 0x1_0000, TemplateRecords(ts) + 1, 0, 0, 0, 0), [d];
    var us, vs := rest + [t] + [s], rest + [s] + [t];
    a, b := us + [d], vs + [d];
    Arranged(ts, us, d, h);
    Arranged(ts, vs, d, h);
    SizeAtEnd(rest + [t], s, d);
    SizeAtEnd(rest + [s], t, d);
    EndVerdict(h, us, d, version);
    EndVerdict(h, vs, d, version);
    BodyOf(id, length);
  }

  lemma BodyOf(id: U16, length: nat)
    ensures |Data(id, Zeros(length)).body| == length
  {
  }

  lemma Arranged(ts: seq<FlowSet>, us: seq<FlowSet>, d: FlowSet, h: Header)
    requires OnlyTemplates(ts) && All(WfFlowSet, ts) && WfFlowSet(d) && d.Data? && multiset(us) == multiset(ts)
    ensures WfPacket(Packet(h, us + [d])) && multiset(us + [d]) == multiset(ts) + multiset([d])
    ensures OnlyTemplates(us) && TemplateRecords(us) == TemplateRecords(ts)
  {
    hide WfFlowSet;
    SameSets(us, ts);
    RecordsPermuted(ts, us);
    assert forall i :: 0 <= i < |us| ==> us[i] in us;
  }

  /** Sets that do not leave alike give some packet two verdicts. */
  lemma OrderMatters(ts: seq<FlowSet>, version: int)
    requires OnlyTemplates(ts) && All(WfFlowSet, ts) && TemplateRecords(ts) < MAX_U16 && !LeaveAlike(ts)
    ensures !OrderNeverMatters(ts, version)
  {
    hide Leaves, WfFlowSet, Accepted, EncodePacket, TemplateRecords;
    var s, t, id :| s in ts && t in ts && id in Leaves(s) && id in Leaves(t) && !Alike(Leaves(s)[id], Leaves(t)[id]);
    var h, ds, a, b;
    if Leaves(s)[id] < Leaves(t)[id] {
      h, ds, a, b := TellingPacket(ts, s, t, id, version);
    } else {
      h, ds, a, b := TellingPacket(ts, t, s, id, version);
    }
    assert Reordered(h, ts, ds, a, b) && !SameVerdicts(h, a, b, version);
  }

  /** Without data there is nothing to count with the table. */
  lemma NoDataNoTable(a: seq<FlowSet>)
    requires OnlyTemplates(a)
    ensures Ranges(a) == RangesFrom(map[], a)
  {
    hide SizeAt;
  }

  lemma {:induction false} LowerBound(rs: seq<Range>, ls: seq<Range>)
    requires |rs| == |ls| && forall i :: 0 <= i < |rs| ==> rs[i].lo >= ls[i].lo
    ensures SumLo(rs) >= SumLo(ls)
  {
    if rs == [] {
    } else {
      LowerBound(rs[..|rs| - 1], ls[..|ls| - 1]);
    }
  }

  lemma {:induction false} DataCountsOne(ds: seq<FlowSet>)
    requires OnlyData(ds)
    ensures SumLo(RangesFrom(map[], ds)) == |ds|
  {
    if ds == [] {
    } else {
      var n := |ds| - 1;
      DataCountsOne(ds[..n]);
      assert ds[n] in ds;
      OpenRange(|ds[n].body|);
      assert RangesFrom(map[], ds)[n] == Range(1, 0, true);
      assert RangesFrom(map[], ds)[..n] == RangesFrom(map[], ds[..n]);
    }
  }

  lemma AtLeastOne(length: nat, size: nat)
    ensures DataRange(length, size).lo >= 1
  {
  }

  /** Every data set counts for one record at least, in every order. */
  lemma LeastCount(ts: seq<FlowSet>, ds: seq<FlowSet>, a: seq<FlowSet>)
    requires OnlyTemplates(ts) && OnlyData(ds) && multiset(a) == multiset(ts) + multiset(ds)
    ensures SumLo(Ranges(a)) >= TemplateRecords(ts) + |ds|
  {
    hide SizeAt, DataRange, SumLo, SumHi, TemplateRecords;
    var ls := RangesFrom(map[], a);
    forall i | 0 <= i < |a| ensures RangeAt(a, i).lo >= ls[i].lo {
      if a[i].Data? {
        AtLeastOne(|a[i].body|, SizeAt(a, i));
        OpenRange(|a[i].body|);
      }
    }
    LowerBound(Ranges(a), ls);
    RangesPermuted(map[], a, ts + ds);
    SumsPermuted(ls, RangesFrom(map[], ts + ds));
    assert RangesFrom(map[], ts + ds) == RangesFrom(map[], ts) + RangesFrom(map[], ds);
    SumsConcat(RangesFrom(map[], ts), RangesFrom(map[], ds));
    TemplateRanges(map[], ts);
    DataCountsOne(ds);
  }

  lemma OpenRange(length: nat)
    ensures DataRange(length, 0) == Range(1, 0, true)
  {
  }

  /** When template records alone fill the FlowCount, no packet with data is accepted; without data order is nothing. */
  lemma FullCount(h: Header, ts: seq<FlowSet>, ds: seq<FlowSet>, a: seq<FlowSet>, b: seq<FlowSet>, version: int)
    requires OnlyTemplates(ts) && TemplateRecords(ts) >= MAX_U16 && Reordered(h, ts, ds, a, b)
    ensures SameVerdicts(h, a, b, version)
  {
    hide WfFlowSet, Accepted, EncodePacket, TemplateRecords, Ranges, RangesFrom, SumLo;
    PermutedWf(h, a, b);
    RangesDecide(h, a, version);
    RangesDecide(h, b, version);
    if ds == [] {
      assert multiset(ds) == multiset{};
      RecordsPermuted(ts, a);
      RecordsPermuted(ts, b);
      NoDataNoTable(a);
      NoDataNoTable(b);
      RangesPermuted(map[], a, b);
      AllowedPermuted(Ranges(a), Ranges(b), h.flowCount);
    } else {
      LeastCount(ts, ds, a);
      LeastCount(ts, ds, b);
    }
  }

  lemma WithDataAlike(ts: seq<FlowSet>, ds: seq<FlowSet>, a: seq<FlowSet>)
    requires LeaveAlike(ts) && OnlyData(ds) && multiset(a) == multiset(ts) + multiset(ds)
    ensures LeaveAlike(a)
  {
    hide Leaves, Alike;
    assert multiset(ts + ds) == multiset(ts) + multiset(ds);
    SameSets(a, ts + ds);
    forall d, id | d in ds ensures id !in Leaves(d) {
      NothingDefined(d, id);
    }
  }

  /**
   The exact condition, on the template sets alone: whatever data sets they are sent with, under
   whatever header and in whatever order, the verdict is the same if and only if the sets leave
   alike, or hold so many records that no data set can be counted beside them.
   */
  lemma OrderDecides(ts: seq<FlowSet>, version: int)
    requires OnlyTemplates(ts) && All(WfFlowSet, ts)
    ensures OrderNeverMatters(ts, version) <==> LeaveAlike(ts) || TemplateRecords(ts) >= MAX_U16
  {
    hide LeaveAlike, WfFlowSet, TemplateRecords, SameVerdicts;
    if LeaveAlike(ts) || TemplateRecords(ts) >= MAX_U16 {
      forall h, ds, a, b | Reordered(h, ts, ds, a, b) ensures SameVerdicts(h, a, b, version) {
        if LeaveAlike(ts) {
          WithDataAlike(ts, ds, a);
          OrderDoesNotMatter(h, a, b, version);
        } else {
          FullCount(h, ts, ds, a, b, version);
        }
      }
    } else {
      OrderMatters(ts, version);
    }
  }

  /** Two definitions of one ID with different sizes: here the order decides. */
  lemma OrderCanMatter() returns (h: Header, a: seq<FlowSet>, b: seq<FlowSet>)
    ensures WfPacket(Packet(h, a)) && multiset(a) == multiset(b)
    ensures Accepted(EncodePacket(Packet(h, a)), 9) && !Accepted(EncodePacket(Packet(h, b)), 9)
  {
    hide EncodePacket, SumsTo, WfFlowSet, Accepted, Zeros;
    var t4 := Templates([TemplateRecord(256, [Field(1, 4)])], 0);
    var t8 := Templates([TemplateRecord(256, [Field(1, 8)])], 0);
    var d := Data(256, Zeros(8));
    a, b, h := [t4, d, t8], [t8, d, t4], Header(9, 4, 0, 0, 0, 0);
    Swapped(t4, d, t8);
    SmallSetsWf(t4, t8, d);
    CountsOfThree(t4, d, t8, 2, 4, 4);
    CountsOfThree(t8, d, t4, 1, 8, 4);
    WellFormedVerdict(Packet(h, a), 9);
    WellFormedVerdict(Packet(h, b), 9);
  }

  lemma Swapped(x: FlowSet, y: FlowSet, z: FlowSet)
    ensures multiset([x, y, z]) == multiset([z, y, x])
  {
  }

  /** Eight data bytes after a template of size n: the total is fixed by n alone. */
  lemma CountsOfThree(t: FlowSet, d: FlowSet, u: FlowSet, count: nat, n: U16, total: nat)
    requires n > 3 && count * n == 8 && d == Data(256, Zeros(8))
    requires t == Templates([TemplateRecord(256, [Field(1, n)])], 0) && u.Templates? && |u.templates| == 1
    ensures (exists counts :: SumsTo([t, d, u], counts, total)) <==> total == 2 + count
  {
    hide SizeAt, Fits;
    var sets := [t, d, u];
    MetSize(t, u, d, n);
    forall c ensures Fits(8, n, c) <==> c == count {
      FitsExactly(8, n, c, count);
    }
    assert Admits(sets, 0, 1) && Admits(sets, 1, count) && Admits(sets, 2, 1);
    var only := [1, count, 1];
    assert only[..2] == [1, count] && [1, count][..1] == [1] && [1][..0] == [];
    assert Sum([1]) == 1 && Sum([1, count]) == 1 + count;
    assert SumsTo(sets, only, 2 + count);
    forall counts | SumsTo(sets, counts, total) ensures total == 2 + count {
      assert Admits(sets, 0, counts[0]) && Admits(sets, 1, counts[1]) && Admits(sets, 2, counts[2]);
      assert counts == only;
    }
  }

  /** Records of more than three bytes that fill a length fit in no other number. */
  lemma FitsExactly(length: nat, size: nat, c: nat, count: nat)
    requires size > 3 && count * size == length && count > 0
    ensures Fits(length, size, c) <==> c == count
  {
    CountBounds(length, size, c);
    FitsIsRange(length, size, c);
    if c < count {
      MulMono(c + 1, count, size);
    } else if c > count {
      MulMono(count + 1, c, size);
    }
  }

  lemma SmallSetsWf(t4: FlowSet, t8: FlowSet, d: FlowSet)
    requires t4 == Templates([TemplateRecord(256, [Field(1, 4)])], 0)
    requires t8 == Templates([TemplateRecord(256, [Field(1, 8)])], 0)
    requires d == Data(256, Zeros(8))
    ensures WfFlowSet(t4) && WfFlowSet(t8) && WfFlowSet(d)
  {
    forall n | n in {4, 8} ensures WfFlowSet(Templates([TemplateRecord(256, [Field(1, n)])], 0)) {
      var t := TemplateRecord(256, [Field(1, n)]);
      FieldsSize(t.fields);
      assert Encode(EncodeTemplate, [t]) == EncodeTemplate(t) + Encode(EncodeTemplate, []);
    }
  }

  /** A Data FlowSet met after a template counts with that template's size, whatever follows. */
  lemma MetSize(t: FlowSet, u: FlowSet, d: FlowSet, n: U16)
    requires n > 0 && t == Templates([TemplateRecord(256, [Field(1, n)])], 0) && d.Data? && d.id == 256
    ensures SizeAt([t, d, u], 1) == n
  {
    var fields := [Field(1, n)];
    assert fields[..0] == [] && Width(fields) == n;
    var ds := Definitions(t);
    assert ds == [Definition(256, n)] && ds[..0] == [];
    assert [t, d, u][..1] == [t] && [t][..0] == [];
    assert Table([t]) == Define(map[], ds) == map[256 := n];
  }
}
