/**
 How many records a packet may be read as holding (sections 5.1 and 5.3 of RFC 3954). Template
 records are counted exactly. The records of a Data FlowSet follow from the record size of its
 template up to three bytes of padding, so a set may admit several counts; without a template it
 admits any count of at least one. A packet is valid when some choice of admitted counts sums to
 the FlowCount of its header.
 */
module NetFlowCounts {
  import opened Bytes
  import opened NetFlowGrammar
  import opened Sums

  // ----- Template table -----

  /** Bytes of one data record described by these field specifiers. */
  function Width(fs: seq<Field>): nat {
    if fs == [] then 0 else Width(fs[..|fs| - 1]) + fs[|fs| - 1].length
  }

  /** One definition: a template ID and its record size. */
  datatype Definition = Definition(id: U16, size: nat)

  function Definitions(s: FlowSet): seq<Definition> {
    match s
    case Templates(ts, _) =>
      seq(|ts|, i requires 0 <= i < |ts| => Definition(ts[i].id, Width(ts[i].fields)))
    case OptionsTemplates(os, _) =>
      seq(|os|, i requires 0 <= i < |os| => Definition(os[i].id, Width(os[i].scopes + os[i].options)))
    case Data(_, _) => []
  }

  /** Later definitions of an ID replace earlier ones. */
  function Define(table: map<U16, nat>, ds: seq<Definition>): map<U16, nat> {
    if ds == [] then table
    else Define(table, ds[..|ds| - 1])[ds[|ds| - 1].id := ds[|ds| - 1].size]
  }

  function Table(sets: seq<FlowSet>): map<U16, nat> {
    if sets == [] then map[] else Define(Table(sets[..|sets| - 1]), Definitions(sets[|sets| - 1]))
  }

  /** The size known for an ID; zero when there is none to count with. */
  function Known(table: map<U16, nat>, id: U16): nat {
    if id in table then table[id] else 0
  }

  /** The record size of a Data FlowSet: the one known where it stands, else the one known at the end. */
  function SizeAt(sets: seq<FlowSet>, i: nat): nat
    requires i < |sets| && sets[i].Data?
  {
    var met := Known(Table(sets[..i]), sets[i].id);
    if met > 0 then met else Known(Table(sets), sets[i].id)
  }

  // ----- Admitted counts -----

  ghost predicate PaddedBy(length: nat, size: nat, count: nat, pad: nat) {
    pad < 4 && length > pad && length - pad == count * size
  }

  /** `length` bytes can be read as `count` records of this size and at most three bytes of padding. */
  ghost predicate Fits(length: nat, size: nat, count: nat) {
    exists pad :: PaddedBy(length, size, count, pad)
  }

  ghost predicate Admits(sets: seq<FlowSet>, i: nat, count: nat)
    requires i < |sets|
  {
    match sets[i]
    case Templates(ts, _) => count == |ts|
    case OptionsTemplates(os, _) => count == |os|
    case Data(_, body) =>
      if SizeAt(sets, i) == 0 then count >= 1 else Fits(|body|, SizeAt(sets, i), count)
  }

  ghost predicate Interprets(sets: seq<FlowSet>, counts: seq<nat>) {
    |counts| == |sets| && forall i :: 0 <= i < |sets| ==> Admits(sets, i, counts[i])
  }

  ghost predicate SumsTo(sets: seq<FlowSet>, counts: seq<nat>, total: nat) {
    Interprets(sets, counts) && Sum(counts) == total
  }

  ghost predicate ValidPacket(p: Packet) {
    p.flowSets != [] && exists counts :: SumsTo(p.flowSets, counts, p.header.flowCount)
  }

  ghost predicate Reads(b: seq<Byte>, version: int, p: Packet) {
    WfPacket(p) && EncodePacket(p) == b && p.header.version == version % 0x1_0000
  }

  /** The bytes lay out a packet of this version whose FlowCount some choice of counts explains. */
  ghost predicate Accepted(b: seq<Byte>, version: int) {
    exists p :: Reads(b, version, p) && ValidPacket(p)
  }

  // ----- Counts as ranges -----

  datatype Range = Range(lo: nat, hi: nat, open: bool)

  ghost predicate InRange(r: Range, count: nat) {
    r.lo <= count && (r.open || count <= r.hi)
  }

  ghost predicate Feasible(r: Range) {
    r.open || r.lo <= r.hi
  }

  function MaxCount(length: nat, size: nat): nat
    requires size > 0
  {
    length / size
  }

  function MinCount(length: nat, size: nat): nat
    requires size > 0
  {
    if length <= 4 then 1 else (length - 4) / size + 1
  }

  function DataRange(length: nat, size: nat): Range {
    if size == 0 then Range(1, 0, true) else Range(MinCount(length, size), MaxCount(length, size), false)
  }

  function RangeAt(sets: seq<FlowSet>, i: nat): Range
    requires i < |sets|
  {
    match sets[i]
    case Templates(ts, _) => Range(|ts|, |ts|, false)
    case OptionsTemplates(os, _) => Range(|os|, |os|, false)
    case Data(_, body) => DataRange(|body|, SizeAt(sets, i))
  }

  function Ranges(sets: seq<FlowSet>): seq<Range> {
    seq(|sets|, i requires 0 <= i < |sets| => RangeAt(sets, i))
  }

  function SumLo(rs: seq<Range>): nat {
    if rs == [] then 0 else SumLo(rs[..|rs| - 1]) + rs[|rs| - 1].lo
  }

  function SumHi(rs: seq<Range>): nat {
    if rs == [] then 0 else SumHi(rs[..|rs| - 1]) + rs[|rs| - 1].hi
  }

  ghost predicate AnyOpen(rs: seq<Range>) {
    exists i :: 0 <= i < |rs| && rs[i].open
  }

  ghost predicate AllFeasible(rs: seq<Range>) {
    forall i :: 0 <= i < |rs| ==> Feasible(rs[i])
  }

  /** The totals the ranges allow, in closed form. */
  ghost predicate TotalAllowed(rs: seq<Range>, total: nat) {
    AllFeasible(rs) && SumLo(rs) <= total && (AnyOpen(rs) || total <= SumHi(rs))
  }

  /** The counts a data length admits have no gap: they are exactly the ones between two bounds. */
  lemma FitsIsRange(length: nat, size: nat, count: nat)
    requires size > 0
    ensures Fits(length, size, count) <==> MinCount(length, size) <= count <= MaxCount(length, size)
  {
    if Fits(length, size, count) {
      var pad :| PaddedBy(length, size, count, pad);
      CountBounds(length, size, count);
    } else if MinCount(length, size) <= count <= MaxCount(length, size) {
      CountBounds(length, size, count);
      assert PaddedBy(length, size, count, length - count * size);
    }
  }

  lemma CountBounds(length: nat, size: nat, count: nat)
    requires size > 0
    ensures count <= MaxCount(length, size) <==> count * size <= length
    ensures count >= MinCount(length, size) <==> count > 0 && length - count * size < 4
  {
    DivBounds(length, size, count);
    if length > 4 {
      DivBounds(length - 4, size, count - 1);
      if count > 0 {
        DivBounds(length - 4, size, count);
      }
    }
    if count >= 1 {
      assert count * size >= size by { MulMono(1, count, size); }
    }
  }

  lemma DivBounds(n: nat, d: nat, q: int)
    requires d > 0
    ensures q <= n / d <==> q * d <= n
  {
    if q <= n / d {
      MulMono(q, n / d, d);
    } else {
      MulMono(n / d + 1, q, d);
    }
  }

  // ----- Choosing counts is the same as comparing totals -----

  ghost predicate Within(rs: seq<Range>, counts: seq<nat>) {
    |counts| == |rs| && forall i :: 0 <= i < |rs| ==> InRange(rs[i], counts[i])
  }

  lemma {:induction false} LoBelowHi(rs: seq<Range>)
    requires AllFeasible(rs) && !AnyOpen(rs)
    ensures SumLo(rs) <= SumHi(rs)
  {
    if rs == [] {
    } else {
      var front, r := rs[..|rs| - 1], rs[|rs| - 1];
      assert AllFeasible(front) && Feasible(r) && !r.open;
      assert !AnyOpen(front);
      LoBelowHi(front);
    }
  }

  lemma {:induction false} ChoiceIsAllowed(rs: seq<Range>, counts: seq<nat>)
    requires Within(rs, counts)
    ensures TotalAllowed(rs, Sum(counts))
  {
    if rs == [] {
    } else {
      var n := |rs| - 1;
      var front, r := rs[..n], rs[n];
      assert InRange(r, counts[n]);
      ChoiceIsAllowed(front, counts[..n]);
      forall i | 0 <= i < |rs| ensures Feasible(rs[i]) {
        assert InRange(rs[i], counts[i]);
      }
      if AnyOpen(front) {
        var i :| 0 <= i < |front| && front[i].open;
        assert rs[i].open;
      }
    }
  }

  lemma {:induction false} AllowedHasChoice(rs: seq<Range>, total: nat) returns (counts: seq<nat>)
    requires TotalAllowed(rs, total)
    ensures Within(rs, counts) && Sum(counts) == total
  {
    if rs == [] {
      counts := [];
    } else {
      var n := |rs| - 1;
      var front, r := rs[..n], rs[n];
      assert Feasible(r) && AllFeasible(front);
      if !AnyOpen(front) {
        LoBelowHi(front);
      }
      var spare := total - SumLo(front);
      var last := if r.open || spare <= r.hi then spare else r.hi;
      assert AnyOpen(front) || total - last <= SumHi(front) by {
        if AnyOpen(rs) && !AnyOpen(front) {
          assert r.open;
        }
      }
      var others := AllowedHasChoice(front, total - last);
      counts := others + [last];
      assert counts[..n] == others;
    }
  }

  lemma AdmitsIsRange(sets: seq<FlowSet>, i: nat, count: nat)
    requires i < |sets|
    ensures Admits(sets, i, count) <==> InRange(RangeAt(sets, i), count)
  {
    match sets[i]
    case Templates(_, _) =>
    case OptionsTemplates(_, _) =>
    case Data(_, body) =>
      if SizeAt(sets, i) > 0 {
        FitsIsRange(|body|, SizeAt(sets, i), count);
      }
  }

  lemma InterpretsIsWithin(sets: seq<FlowSet>, counts: seq<nat>)
    ensures Interprets(sets, counts) <==> Within(Ranges(sets), counts)
  {
    if |counts| == |sets| {
      forall i | 0 <= i < |sets|
        ensures Admits(sets, i, counts[i]) <==> InRange(Ranges(sets)[i], counts[i])
      {
        AdmitsIsRange(sets, i, counts[i]);
      }
    }
  }

  /**
   Some choice of admitted counts reaches a total exactly when the total lies between the summed
   bounds, the upper one dropped as soon as one set has no known template.
   */
  lemma ChoiceExists(sets: seq<FlowSet>, total: nat)
    ensures (exists counts :: SumsTo(sets, counts, total)) <==> TotalAllowed(Ranges(sets), total)
  {
    forall counts | SumsTo(sets, counts, total)
      ensures TotalAllowed(Ranges(sets), total)
    {
      InterpretsIsWithin(sets, counts);
      ChoiceIsAllowed(Ranges(sets), counts);
    }
    if TotalAllowed(Ranges(sets), total) {
      var counts := AllowedHasChoice(Ranges(sets), total);
      InterpretsIsWithin(sets, counts);
      assert SumsTo(sets, counts, total);
    }
  }

  // ----- The running account kept while the sets are met in order -----

  datatype Deferred = Deferred(id: U16, length: nat)

  /** The table so far, the ranges of the sets counted when met, and the Data FlowSets put off. */
  datatype Account = Account(table: map<U16, nat>, met: seq<Range>, deferred: seq<Deferred>)

  function Meet(a: Account, s: FlowSet): Account {
    match s
    case Templates(ts, _) => a.(table := Define(a.table, Definitions(s)), met := a.met + [Range(|ts|, |ts|, false)])
    case OptionsTemplates(os, _) =>
      a.(table := Define(a.table, Definitions(s)), met := a.met + [Range(|os|, |os|, false)])
    case Data(id, body) =>
      if Known(a.table, id) > 0 then a.(met := a.met + [DataRange(|body|, Known(a.table, id))])
      else a.(deferred := a.deferred + [Deferred(id, |body|)])
  }

  function MeetAll(sets: seq<FlowSet>): Account {
    if sets == [] then Account(map[], [], []) else Meet(MeetAll(sets[..|sets| - 1]), sets[|sets| - 1])
  }

  function Settle(table: map<U16, nat>, ds: seq<Deferred>): seq<Range> {
    seq(|ds|, i requires 0 <= i < |ds| => DataRange(ds[i].length, Known(table, ds[i].id)))
  }

  /** All ranges, in the order they are counted: first the sets met, then the deferred ones. */
  function Counted(sets: seq<FlowSet>): seq<Range> {
    MeetAll(sets).met + Settle(MeetAll(sets).table, MeetAll(sets).deferred)
  }

  lemma {:induction false} SumsConcat(a: seq<Range>, b: seq<Range>)
    ensures SumLo(a + b) == SumLo(a) + SumLo(b) && SumHi(a + b) == SumHi(a) + SumHi(b)
  {
    if b == [] {
      assert a + b == a;
    } else {
      assert (a + b)[..|a + b| - 1] == a + b[..|b| - 1];
      SumsConcat(a, b[..|b| - 1]);
    }
  }

  /** Where the last element of a stands in a permutation b, and that the rest are permutations too. */
  lemma TakeOut<T>(a: seq<T>, b: seq<T>) returns (j: nat)
    requires a != [] && multiset(a) == multiset(b)
    ensures j < |b| && b[j] == a[|a| - 1]
    ensures multiset(a[..|a| - 1]) == multiset(b[..j] + b[j + 1..])
  {
    var n, x := |a| - 1, a[|a| - 1];
    assert a == a[..n] + [x];
    assert x in multiset(b);
    j :| 0 <= j < |b| && b[j] == x;
    assert b == b[..j] + [x] + b[j + 1..];
    assert multiset(a[..n]) == multiset(a) - multiset{x};
    assert multiset(b[..j] + b[j + 1..]) == multiset(b) - multiset{x};
  }

  /** The totals depend on which ranges there are, not on their order. */
  lemma {:induction false} SumsPermuted(a: seq<Range>, b: seq<Range>)
    requires multiset(a) == multiset(b)
    ensures SumLo(a) == SumLo(b) && SumHi(a) == SumHi(b)
    decreases |a|
  {
    if a == [] {
      assert |multiset(b)| == 0;
    } else {
      var j := TakeOut(a, b);
      var n, r := |a| - 1, b[j];
      SumsPermuted(a[..n], b[..j] + b[j + 1..]);
      assert b == b[..j] + ([r] + b[j + 1..]);
      SumsConcat(b[..j], b[j + 1..]);
      SumsConcat(b[..j], [r] + b[j + 1..]);
      SumsConcat([r], b[j + 1..]);
    }
  }

  lemma AllowedPermuted(a: seq<Range>, b: seq<Range>, total: nat)
    requires multiset(a) == multiset(b)
    ensures TotalAllowed(a, total) <==> TotalAllowed(b, total)
  {
    SumsPermuted(a, b);
    forall r ensures r in a <==> r in b {
      assert r in a <==> r in multiset(a);
      assert r in b <==> r in multiset(b);
    }
    assert AllFeasible(a) <==> forall r :: r in a ==> Feasible(r);
    assert AllFeasible(b) <==> forall r :: r in b ==> Feasible(r);
    assert AnyOpen(a) <==> exists r :: r in a && r.open;
    assert AnyOpen(b) <==> exists r :: r in b && r.open;
  }

  lemma {:induction false} TableMet(sets: seq<FlowSet>)
    ensures MeetAll(sets).table == Table(sets)
  {
    if sets == [] {
    } else {
      TableMet(sets[..|sets| - 1]);
    }
  }

  /** The range of a set met with this table, when the packet ends with that one. */
  function RangeMet(met: map<U16, nat>, end: map<U16, nat>, s: FlowSet): Range {
    match s
    case Templates(ts, _) => Range(|ts|, |ts|, false)
    case OptionsTemplates(os, _) => Range(|os|, |os|, false)
    case Data(id, body) => DataRange(|body|, if Known(met, id) > 0 then Known(met, id) else Known(end, id))
  }

  lemma MeetAddsRange(a: Account, s: FlowSet, end: map<U16, nat>)
    ensures var b := Meet(a, s);
            multiset(b.met + Settle(end, b.deferred))
            == multiset(a.met + Settle(end, a.deferred)) + multiset{RangeMet(a.table, end, s)}
  {
    var b, r := Meet(a, s), RangeMet(a.table, end, s);
    if s.Data? && Known(a.table, s.id) == 0 {
      assert Settle(end, b.deferred) == Settle(end, a.deferred) + [r];
    } else {
      assert b.met == a.met + [r];
    }
  }

  lemma MeetNext(sets: seq<FlowSet>, k: nat)
    requires 0 < k <= |sets|
    ensures var a := MeetAll(sets[..k - 1]);
            && MeetAll(sets[..k]) == Meet(a, sets[k - 1])
            && RangeAt(sets, k - 1) == RangeMet(a.table, Table(sets), sets[k - 1])
  {
    assert sets[..k][..k - 1] == sets[..k - 1];
    TableMet(sets[..k - 1]);
  }

  lemma RangesNext(sets: seq<FlowSet>, k: nat)
    requires 0 < k <= |sets|
    ensures multiset(Ranges(sets)[..k]) == multiset(Ranges(sets)[..k - 1]) + multiset{RangeAt(sets, k - 1)}
  {
    hide RangeAt;
    assert Ranges(sets)[..k] == Ranges(sets)[..k - 1] + [RangeAt(sets, k - 1)];
  }

  /** Counting met sets at once and deferred ones at the end counts every set with its own range. */
  lemma {:induction false} CountedUpTo(sets: seq<FlowSet>, k: nat)
    requires k <= |sets|
    ensures var a := MeetAll(sets[..k]);
            multiset(Ranges(sets)[..k]) == multiset(a.met + Settle(Table(sets), a.deferred))
  {
    if k == 0 {
    } else {
      CountedUpTo(sets, k - 1);
      RangesNext(sets, k);
      MeetNext(sets, k);
      MeetAddsRange(MeetAll(sets[..k - 1]), sets[k - 1], Table(sets));
    }
  }

  /** The closed form of the verdict, over the ranges in the order they are counted. */
  lemma CountedDecides(sets: seq<FlowSet>, total: nat)
    ensures TotalAllowed(Counted(sets), total) <==> exists counts :: SumsTo(sets, counts, total)
  {
    CountedUpTo(sets, |sets|);
    assert sets[..|sets|] == sets && Ranges(sets)[..|sets|] == Ranges(sets);
    TableMet(sets);
    AllowedPermuted(Ranges(sets), Counted(sets), total);
    ChoiceExists(sets, total);
  }
}
