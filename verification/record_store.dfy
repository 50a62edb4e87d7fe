/**
 The recorder's database as an append-only log: payloads under 4-byte big-endian keys in a
 byte-ordered map, written by recorders that may stop and restart, read back in key order.
 */
module RecordStore {
  import opened Wrappers
  import opened Bytes

  type Key = seq<Byte>
  type Payload = seq<Byte>
  type Entries = map<Key, Payload>

  // ----- Key order -----

  /** Lexicographic order on byte strings. */
  predicate Before(a: Key, b: Key) {
    if b == [] then false
    else if a == [] then true
    else a[0] < b[0] || (a[0] == b[0] && Before(a[1..], b[1..]))
  }

  ghost predicate Ascending(ks: seq<Key>) {
    forall i, j :: 0 <= i < j < |ks| ==> Before(ks[i], ks[j])
  }

  /** The order in which an iterator of the map visits its keys. */
  ghost predicate Visits(order: seq<Key>, entries: Entries) {
    Ascending(order) && forall k :: k in order <==> k in entries
  }

  lemma {:induction false} BeforeIsStrict(a: Key, b: Key)
    ensures !(Before(a, b) && Before(b, a))
    ensures !Before(a, a)
  {
    if a == [] {
    } else {
      if b != [] {
        BeforeIsStrict(a[1..], b[1..]);
      } else {
        BeforeIsStrict(a[1..], a[1..]);
      }
    }
  }

  /** Between 4-byte keys, byte order is numeric order. */
  lemma BigEndianOrder(a: Key, b: Key)
    requires |a| == |b| == 4
    ensures Before(a, b) <==> GetU32(a, 0) < GetU32(b, 0)
  {
    TwoBytes(a[2..], b[2..]);
    assert a[1..][1..] == a[2..] && b[1..][1..] == b[2..];
    assert Before(a[1..], b[1..]) <==> a[1] < b[1] || (a[1] == b[1] && Before(a[2..], b[2..]));
  }

  lemma TwoBytes(a: Key, b: Key)
    requires |a| == |b| == 2
    ensures Before(a, b) <==> GetU16(a, 0) < GetU16(b, 0)
  {
    assert a[1..][1..] == [] && b[1..][1..] == [];
    assert Before(a[1..], b[1..]) <==> a[1] < b[1];
  }

  lemma KeyIsNumber(a: Key, b: Key)
    requires |a| == |b| == 4 && GetU32(a, 0) == GetU32(b, 0)
    ensures a == b
  {
    U32Bytes(a, 0);
    U32Bytes(b, 0);
    assert a[0..4] == a && b[0..4] == b;
  }

  /** The key of record n. */
  function KeyOf(n: nat): (k: Key)
    ensures |k| == 4 && (n <= MAX_U32 ==> GetU32(k, 0) == n)
  {
    PutU32(n)
  }

  lemma HasKey(ks: seq<Key>)
    requires ks != []
    ensures exists k :: k in ks
  {
    assert ks[0] in ks;
  }

  /** Two ascending lists of the same keys end in the same key. */
  lemma SameLast(a: seq<Key>, b: seq<Key>)
    requires Ascending(a) && Ascending(b) && forall k :: k in a <==> k in b
    requires a != [] && b != []
    ensures a[|a| - 1] == b[|b| - 1]
  {
    hide Before;
    var n, m := |a| - 1, |b| - 1;
    assert a[n] in a && b[m] in b;
    var i :| 0 <= i <= m && b[i] == a[n];
    var j :| 0 <= j <= n && a[j] == b[m];
    BeforeIsStrict(b[i], b[m]);
  }

  /** A map has one visiting order. */
  lemma {:induction false} OneOrder(a: seq<Key>, b: seq<Key>)
    requires Ascending(a) && Ascending(b) && forall k :: k in a <==> k in b
    ensures a == b
    decreases |a|
  {
    hide Before;
    if b != [] {
      HasKey(b);
    }
    if a == [] {
    } else {
      var n, m := |a| - 1, |b| - 1;
      assert a[n] in a;
      SameLast(a, b);
      forall k ensures k in a[..n] <==> k in b[..m] {
        LastIsNew(a, k);
        LastIsNew(b, k);
      }
      OneOrder(a[..n], b[..m]);
      assert a == a[..n] + [a[n]] && b == b[..m] + [b[m]];
    }
  }

  lemma LastIsNew(ks: seq<Key>, k: Key)
    requires Ascending(ks) && ks != []
    ensures k in ks[..|ks| - 1] <==> k in ks && k != ks[|ks| - 1]
  {
    var n := |ks| - 1;
    if k in ks[..n] {
      var i :| 0 <= i < n && ks[i] == k;
      BeforeIsStrict(ks[i], ks[n]);
    }
  }

  lemma {:induction false} BeforeIsTotal(a: Key, b: Key)
    ensures a == b || Before(a, b) || Before(b, a)
  {
    if a == [] || b == [] || a[0] != b[0] {
    } else {
      BeforeIsTotal(a[1..], b[1..]);
      assert a == [a[0]] + a[1..] && b == [b[0]] + b[1..];
    }
  }

  lemma {:induction false} BeforeIsTransitive(a: Key, b: Key, c: Key)
    requires Before(a, b) && Before(b, c)
    ensures Before(a, c)
  {
    if a == [] || a[0] != b[0] || b[0] != c[0] {
    } else {
      BeforeIsTransitive(a[1..], b[1..], c[1..]);
    }
  }

  /** The keys with one more put where it belongs. */
  lemma {:induction false} Inserted(ks: seq<Key>, k: Key) returns (more: seq<Key>)
    requires Ascending(ks) && k !in ks
    ensures Ascending(more) && forall x :: x in more <==> x in ks || x == k
  {
    if ks == [] {
      more := [k];
    } else {
      var n := |ks| - 1;
      BeforeIsTotal(ks[n], k);
      if Before(ks[n], k) {
        more := ks + [k];
        forall i | 0 <= i < n ensures Before(ks[i], k) {
          BeforeIsTransitive(ks[i], ks[n], k);
        }
      } else {
        var front := Inserted(ks[..n], k);
        more := front + [ks[n]];
        forall i | 0 <= i < |front| ensures Before(front[i], ks[n]) {
          assert front[i] in front;
        }
        assert ks == ks[..n] + [ks[n]];
      }
    }
  }

  /** Every map has a visiting order. */
  lemma {:induction false} HasOrder(entries: Entries) returns (order: seq<Key>)
    ensures Visits(order, entries)
    decreases |entries|
  {
    if entries == map[] {
      order := [];
    } else {
      var k :| k in entries;
      var fewer := map x | x in entries && x != k :: entries[x];
      assert fewer.Keys == entries.Keys - {k};
      var front := HasOrder(fewer);
      order := Inserted(front, k);
    }
  }

  // ----- Recording -----

  /** Every 4-byte key of the map is below this number. */
  ghost predicate Above(next: nat, entries: Entries) {
    forall k :: k in entries && |k| == 4 ==> GetU32(k, 0) < next
  }

  /** 1, or one more than the largest 4-byte key; no number is left after 2^32 - 1. */
  method NextRecordID(order: seq<Key>, ghost entries: Entries) returns (r: Result<U32>)
    requires Visits(order, entries)
    ensures r.Ok? ==> r.value >= 1 && Above(r.value, entries)
    ensures r.Ok? && r.value > 1 ==> KeyOf(r.value - 1) in entries
    ensures r.Err? <==> KeyOf(MAX_U32) in entries
  {
    var next := 1;
    var i := |order|;
    while i > 0
      invariant 0 <= i <= |order|
      invariant forall j :: i <= j < |order| ==> |order[j]| != 4
    {
      i := i - 1;
      var key := order[i];
      assert key in entries;
      if |key| == 4 {
        var last := GetU32(key, 0);
        U32Bytes(key, 0);
        assert key[0..4] == key;
        LastKeyIsLargest(order, entries, i);
        if last == MAX_U32 {
          return Err("record database key space exhausted");
        }
        return Ok(last + 1);
      }
    }
    assert forall k :: k in entries ==> |k| != 4;
    return Ok(next);
  }

  lemma LastKeyIsLargest(order: seq<Key>, entries: Entries, i: nat)
    requires Visits(order, entries) && i < |order| && |order[i]| == 4
    requires forall j :: i < j < |order| ==> |order[j]| != 4
    ensures Above(GetU32(order[i], 0) + 1, entries)
    ensures KeyOf(MAX_U32) in entries ==> GetU32(order[i], 0) == MAX_U32
  {
    forall k | k in entries && |k| == 4 ensures GetU32(k, 0) <= GetU32(order[i], 0) {
      assert k in order;
      var j :| 0 <= j < |order| && order[j] == k;
      if j < i {
        BigEndianOrder(k, order[i]);
      }
    }
  }

  /** What reaches the writer: a payload, whose write may fail, or the end of the recording. */
  datatype Arrival = Stored(payload: Payload) | WriteFailed(payload: Payload) | Stopped

  /** The payloads written before the first failure or stop, at most this many. */
  function Written(arrivals: seq<Arrival>, room: nat): seq<Payload> {
    if arrivals == [] || !arrivals[0].Stored? || room == 0 then []
    else [arrivals[0].payload] + Written(arrivals[1..], room - 1)
  }

  /** Consecutive keys from a number on. */
  function Keys(first: nat, n: nat): (ks: seq<Key>)
    ensures |ks| == n && forall i :: 0 <= i < n ==> ks[i] == KeyOf(first + i)
  {
    seq(n, i requires 0 <= i < n => KeyOf(first + i))
  }

  /** The payloads put under consecutive keys. */
  function Append(entries: Entries, first: nat, payloads: seq<Payload>): Entries {
    if payloads == [] then entries
    else Append(entries, first, payloads[..|payloads| - 1])[KeyOf(first + |payloads| - 1) := payloads[|payloads| - 1]]
  }

  /** The writer's loop: stores each payload under the next key until stopped, failing or exhausted. */
  method StoreFrom(entries: Entries, first: U32, arrivals: seq<Arrival>)
    returns (after: Entries, err: Option<string>, written: seq<Payload>)
    requires first >= 1
    ensures after == Append(entries, first, written) && first + |written| <= 0x1_0000_0000
    ensures written == Written(arrivals, 0x1_0000_0000 - first)
    ensures err.Some? <==>
              || first + |written| == 0x1_0000_0000
              || (|written| < |arrivals| && arrivals[|written|].WriteFailed?)
  {
    hide KeyOf, Written, Append, Remains;
    var id := first;
    after, written := entries, [];
    AppendNone(entries, first);
    ghost var room := 0x1_0000_0000 - first;
    ghost var all := Written(arrivals, room);
    AllRemains(arrivals, room);
    for i := 0 to |arrivals|
      invariant |written| == i && id == first + i <= MAX_U32 && room == 0x1_0000_0000 - id
      invariant after == Append(entries, first, written)
      invariant Remains(all, written, arrivals, i, room)
    {
      WrittenNext(all, arrivals, i, room, written);
      match arrivals[i] {
        case Stopped =>
          return after, None, written;
        case WriteFailed(_) =>
          return after, Some("write record"), written;
        case Stored(payload) =>
          AppendNext(entries, first, written, payload);
          after, written := after[KeyOf(id) := payload], written + [payload];
          room := room - 1;
          if id == MAX_U32 {
            NothingRemains(all, arrivals, i + 1, room, written);
            return after, Some("record database key space exhausted"), written;
          }
          id := id + 1;
      }
    }
    NothingRemains(all, arrivals, |arrivals|, room, written);
    return after, None, written;
  }

  /** One recorder run: finds the first free number and stores from there. */
  method RunDBIngest(entries: Entries, order: seq<Key>, arrivals: seq<Arrival>)
    returns (after: Entries, err: Option<string>, first: nat, written: seq<Payload>)
    requires Visits(order, entries)
    ensures after == Append(entries, first, written) && first + |written| <= 0x1_0000_0000
    ensures KeyOf(MAX_U32) in entries ==> written == []
    ensures KeyOf(MAX_U32) !in entries ==>
              first >= 1 && Above(first, entries) && written == Written(arrivals, 0x1_0000_0000 - first)
    ensures first > 1 && KeyOf(MAX_U32) !in entries ==> KeyOf(first - 1) in entries
    ensures err.Some? <==>
              || KeyOf(MAX_U32) in entries || first + |written| == 0x1_0000_0000
              || (|written| < |arrivals| && arrivals[|written|].WriteFailed?)
  {
    hide KeyOf, Written, Above, Visits, Append;
    var nextID := NextRecordID(order, entries);
    if nextID.Err? {
      AppendNone(entries, 1);
      return entries, Some(nextID.error), 1, [];
    }
    first := nextID.value;
    after, err, written := StoreFrom(entries, nextID.value, arrivals);
  }

  lemma AppendNone(entries: Entries, first: nat)
    ensures Append(entries, first, []) == entries
  {
  }

  lemma AppendNext(entries: Entries, first: nat, payloads: seq<Payload>, p: Payload)
    ensures Append(entries, first, payloads + [p])
         == Append(entries, first, payloads)[KeyOf(first + |payloads|) := p]
  {
    assert (payloads + [p])[..|payloads|] == payloads;
  }

  /** What is written so far, then what the arrivals from i on add, is all that is written. */
  ghost predicate Remains(all: seq<Payload>, written: seq<Payload>, arrivals: seq<Arrival>, i: nat, room: nat)
    requires i <= |arrivals|
  {
    all == written + Written(arrivals[i..], room)
  }

  lemma AllRemains(arrivals: seq<Arrival>, room: nat)
    ensures Remains(Written(arrivals, room), [], arrivals, 0, room)
  {
    assert arrivals[0..] == arrivals;
  }

  lemma WrittenNext(all: seq<Payload>, arrivals: seq<Arrival>, i: nat, room: nat, written: seq<Payload>)
    requires i < |arrivals| && room > 0 && Remains(all, written, arrivals, i, room)
    ensures arrivals[i].Stored? ==> Remains(all, written + [arrivals[i].payload], arrivals, i + 1, room - 1)
    ensures !arrivals[i].Stored? ==> all == written
  {
    assert arrivals[i..][1..] == arrivals[i + 1..];
    if arrivals[i].Stored? {
      var rest := Written(arrivals[i + 1..], room - 1);
      assert written + ([arrivals[i].payload] + rest) == written + [arrivals[i].payload] + rest;
    }
  }

  lemma NothingRemains(all: seq<Payload>, arrivals: seq<Arrival>, i: nat, room: nat, written: seq<Payload>)
    requires i <= |arrivals| && (room == 0 || i == |arrivals|) && Remains(all, written, arrivals, i, room)
    ensures all == written
  {
  }

  // ----- The log -----

  /** A key of the run that started at `first` and wrote n payloads. */
  ghost predicate IsNew(first: nat, n: nat, k: Key) {
    |k| == 4 && first <= GetU32(k, 0) < first + n
  }

  /** The payloads of a run are under its keys, everything else is as it was. */
  lemma {:induction false} AppendIs(entries: Entries, first: nat, payloads: seq<Payload>)
    requires first + |payloads| <= 0x1_0000_0000
    ensures var after := Append(entries, first, payloads);
            && (forall k :: k in after <==> k in entries || IsNew(first, |payloads|, k))
            && (forall k :: k in after ==>
                  after[k] == if IsNew(first, |payloads|, k) then payloads[GetU32(k, 0) - first] else entries[k])
  {
    hide GetU32;
    if payloads == [] {
    } else {
      var n := |payloads| - 1;
      var last := KeyOf(first + n);
      AppendIs(entries, first, payloads[..n]);
      forall k: Key | |k| == 4 && GetU32(k, 0) == first + n ensures k == last {
        KeyIsNumber(k, last);
      }
    }
  }

  /** No stored record is overwritten, whatever keys the database holds. */
  lemma NothingOverwritten(entries: Entries, first: nat, payloads: seq<Payload>)
    requires Above(first, entries) && first + |payloads| <= 0x1_0000_0000
    ensures var after := Append(entries, first, payloads);
            && (forall k :: k in entries ==> k in after && after[k] == entries[k])
            && |after| == |entries| + |payloads|
  {
    hide GetU32;
    AppendIs(entries, first, payloads);
    AppendGrows(entries, first, payloads);
  }

  /** Every payload gets a key of its own. */
  lemma {:induction false} AppendGrows(entries: Entries, first: nat, payloads: seq<Payload>)
    requires Above(first, entries) && first + |payloads| <= 0x1_0000_0000
    ensures |Append(entries, first, payloads)| == |entries| + |payloads|
  {
    hide GetU32;
    if payloads == [] {
    } else {
      var n := |payloads| - 1;
      AppendGrows(entries, first, payloads[..n]);
      AppendIs(entries, first, payloads[..n]);
      var before := Append(entries, first, payloads[..n]);
      assert KeyOf(first + n) !in before;
    }
  }

  ghost predicate FourByteKeys(entries: Entries) {
    forall k :: k in entries ==> |k| == 4
  }

  /** The payloads in the order of these keys. */
  function ReadAll(order: seq<Key>, entries: Entries): seq<Payload>
    requires forall k :: k in order ==> k in entries
  {
    seq(|order|, i requires 0 <= i < |order| => entries[order[i]])
  }

  lemma KeysAreNew(first: nat, n: nat)
    requires first + n <= 0x1_0000_0000
    ensures forall k :: k in Keys(first, n) <==> IsNew(first, n, k)
    ensures forall i :: 0 <= i < n ==> GetU32(Keys(first, n)[i], 0) == first + i
  {
    hide GetU32;
    var keys := Keys(first, n);
    forall k ensures k in keys <==> IsNew(first, n, k) {
      if IsNew(first, n, k) {
        var i := GetU32(k, 0) - first;
        KeyIsNumber(k, keys[i]);
      }
    }
  }

  lemma LongerAscends(entries: Entries, order: seq<Key>, first: nat, n: nat)
    requires Visits(order, entries) && FourByteKeys(entries) && Above(first, entries)
    requires first + n <= 0x1_0000_0000
    ensures Ascending(order + Keys(first, n))
  {
    hide GetU32, Before;
    KeysAreNew(first, n);
    var keys := Keys(first, n);
    var longer := order + keys;
    forall i, j | 0 <= i < j < |longer| ensures Before(longer[i], longer[j]) {
      if j >= |order| {
        assert longer[j] == keys[j - |order|];
        if i < |order| {
          assert longer[i] in entries;
        } else {
          assert longer[i] == keys[i - |order|];
        }
        BigEndianOrder(longer[i], longer[j]);
      }
    }
  }

  /** After a run, the visiting order is the old one followed by the new keys, and so are the payloads. */
  lemma AppendIsRead(entries: Entries, order: seq<Key>, first: nat, payloads: seq<Payload>)
    requires Visits(order, entries) && FourByteKeys(entries) && Above(first, entries)
    requires first + |payloads| <= 0x1_0000_0000
    ensures var after, longer := Append(entries, first, payloads), order + Keys(first, |payloads|);
            && Visits(longer, after) && FourByteKeys(after)
            && ReadAll(longer, after) == ReadAll(order, entries) + payloads
  {
    hide GetU32, KeyOf, Append;
    LongerVisits(entries, order, first, payloads);
    var after, keys := Append(entries, first, payloads), Keys(first, |payloads|);
    assert forall i :: 0 <= i < |order| ==> (order + keys)[i] in after;
    hide Visits;
    LongerReads(entries, order, first, payloads);
  }

  lemma LongerVisits(entries: Entries, order: seq<Key>, first: nat, payloads: seq<Payload>)
    requires Visits(order, entries) && FourByteKeys(entries) && Above(first, entries)
    requires first + |payloads| <= 0x1_0000_0000
    ensures var after := Append(entries, first, payloads);
            Visits(order + Keys(first, |payloads|), after) && FourByteKeys(after)
  {
    LongerAscends(entries, order, first, |payloads|);
    hide GetU32, KeyOf, Ascending, Append;
    AppendIs(entries, first, payloads);
    KeysAreNew(first, |payloads|);
  }

  lemma NewIsRead(entries: Entries, first: nat, payloads: seq<Payload>, i: nat)
    requires first + |payloads| <= 0x1_0000_0000 && i < |payloads|
    ensures var k, after := KeyOf(first + i), Append(entries, first, payloads);
            k in after && after[k] == payloads[i]
  {
    hide KeyOf, Append;
    AppendIs(entries, first, payloads);
    KeysAreNew(first, |payloads|);
    assert Keys(first, |payloads|)[i] in Keys(first, |payloads|);
  }

  lemma LongerReads(entries: Entries, order: seq<Key>, first: nat, payloads: seq<Payload>)
    requires Visits(order, entries) && Above(first, entries) && first + |payloads| <= 0x1_0000_0000
    requires forall k :: k in order + Keys(first, |payloads|) ==> k in Append(entries, first, payloads)
    ensures ReadAll(order + Keys(first, |payloads|), Append(entries, first, payloads))
         == ReadAll(order, entries) + payloads
  {
    hide KeyOf, Append, Above, Ascending;
    var after, keys := Append(entries, first, payloads), Keys(first, |payloads|);
    NothingOverwritten(entries, first, payloads);
    forall i | 0 <= i < |order| ensures after[(order + keys)[i]] == entries[order[i]] {
      assert (order + keys)[i] == order[i];
    }
    forall i | 0 <= i < |keys| ensures after[(order + keys)[|order| + i]] == payloads[i] {
      NewIsRead(entries, first, payloads, i);
    }
    ReadsInParts(order, keys, entries, payloads, after);
  }

  lemma ReadsInParts(order: seq<Key>, keys: seq<Key>, entries: Entries, payloads: seq<Payload>, after: Entries)
    requires |keys| == |payloads|
    requires (forall k :: k in order ==> k in entries) && forall k :: k in order + keys ==> k in after
    requires forall i :: 0 <= i < |order| ==> after[(order + keys)[i]] == entries[order[i]]
    requires forall i :: 0 <= i < |keys| ==> after[(order + keys)[|order| + i]] == payloads[i]
    ensures ReadAll(order + keys, after) == ReadAll(order, entries) + payloads
  {
    var a, b := ReadAll(order + keys, after), ReadAll(order, entries) + payloads;
    forall i | 0 <= i < |a| ensures a[i] == b[i] {
      if i >= |order| {
        assert after[(order + keys)[|order| + (i - |order|)]] == payloads[i - |order|];
      }
    }
  }

  // ----- Restarts -----

  /** The payloads a run stores when the numbers do not run out. */
  function Accepted(arrivals: seq<Arrival>): seq<Payload> {
    Written(arrivals, |arrivals|)
  }

  function Concat(runs: seq<seq<Arrival>>): seq<Payload> {
    if runs == [] then [] else Concat(runs[..|runs| - 1]) + Accepted(runs[|runs| - 1])
  }

  function Lengths(runs: seq<seq<Arrival>>): nat {
    if runs == [] then 0 else Lengths(runs[..|runs| - 1]) + |runs[|runs| - 1]|
  }

  lemma {:induction false} WrittenIsBounded(arrivals: seq<Arrival>, room: nat)
    ensures |Written(arrivals, room)| <= room && |Written(arrivals, room)| <= |arrivals|
    ensures room >= |arrivals| ==> Written(arrivals, room) == Accepted(arrivals)
    decreases |arrivals|
  {
    if arrivals == [] || !arrivals[0].Stored? || room == 0 {
    } else {
      WrittenIsBounded(arrivals[1..], room - 1);
      if room >= |arrivals| {
        WrittenIsBounded(arrivals[1..], |arrivals| - 1);
      }
    }
  }

  /** What is written is what arrives up to the first failure or stop, or as much of it as there is room for. */
  lemma {:induction false} WrittenIs(arrivals: seq<Arrival>, room: nat)
    ensures var w := Written(arrivals, room);
            && |w| <= room && |w| <= |arrivals|
            && (forall i :: 0 <= i < |w| ==> arrivals[i] == Stored(w[i]))
            && (|w| < room && |w| < |arrivals| ==> !arrivals[|w|].Stored?)
    decreases |arrivals|
  {
    if arrivals == [] || !arrivals[0].Stored? || room == 0 {
    } else {
      var rest := Written(arrivals[1..], room - 1);
      WrittenIs(arrivals[1..], room - 1);
      forall i | 0 <= i < |rest| + 1 ensures arrivals[i] == Stored(([arrivals[0].payload] + rest)[i]) {
        if i > 0 {
          assert arrivals[1..][i - 1] == Stored(rest[i - 1]);
        }
      }
    }
  }

  /** What the runs store, each from the number after the last, until the numbers run out. */
  function Logged(next: nat, runs: seq<seq<Arrival>>): (logged: seq<Payload>)
    requires next <= 0x1_0000_0000
    ensures next + |logged| <= 0x1_0000_0000
  {
    if runs == [] then []
    else
      var front, run := Logged(next, runs[..|runs| - 1]), runs[|runs| - 1];
      var room := 0x1_0000_0000 - next - |front|;
      WrittenIsBounded(run, room);
      front + Written(run, room)
  }

  /** As long as the numbers last, the runs store everything. */
  lemma {:induction false} NumbersSuffice(next: nat, runs: seq<seq<Arrival>>)
    requires next + Lengths(runs) <= 0x1_0000_0000
    ensures Logged(next, runs) == Concat(runs) && |Concat(runs)| <= Lengths(runs)
  {
    if runs == [] {
    } else {
      var front, run := runs[..|runs| - 1], runs[|runs| - 1];
      NumbersSuffice(next, front);
      WrittenIsBounded(run, 0x1_0000_0000 - next - |Concat(front)|);
    }
  }

  /** No number from `next` on is taken, and the one before it is. */
  ghost predicate Free(next: nat, entries: Entries) {
    1 <= next <= 0x1_0000_0000 && Above(next, entries) && (next > 1 ==> KeyOf(next - 1) in entries)
  }

  lemma FreeIsUnique(a: nat, b: nat, entries: Entries)
    requires Free(a, entries) && Free(b, entries)
    ensures a == b
  {
    hide GetU32;
    if a > 1 {
      assert GetU32(KeyOf(a - 1), 0) == a - 1;
    }
    if b > 1 {
      assert GetU32(KeyOf(b - 1), 0) == b - 1;
    }
  }

  /** One past the last 4-byte key among the first i, where no later key has four bytes. */
  lemma {:induction false} FirstFree(order: seq<Key>, entries: Entries, i: nat) returns (next: nat)
    requires Visits(order, entries) && i <= |order| && forall j :: i <= j < |order| ==> |order[j]| != 4
    ensures Free(next, entries)
  {
    hide GetU32;
    if i == 0 {
      next := 1;
      assert forall k :: k in entries ==> |k| != 4;
    } else if |order[i - 1]| != 4 {
      next := FirstFree(order, entries, i - 1);
    } else {
      var last := order[i - 1];
      assert last in entries;
      LastKeyIsLargest(order, entries, i - 1);
      next := GetU32(last, 0) + 1;
      KeyIsNumber(last, KeyOf(next - 1));
    }
  }

  /** Every database, whatever its keys, can be opened: it has one visiting order and one first free number. */
  lemma Openable(entries: Entries) returns (order: seq<Key>, next: nat)
    ensures Visits(order, entries) && Free(next, entries)
    ensures forall o, n: nat :: Visits(o, entries) && Free(n, entries) ==> o == order && n == next
  {
    hide Above, KeyOf, Before;
    order := HasOrder(entries);
    next := FirstFree(order, entries, |order|);
    forall o, n: nat | Visits(o, entries) && Free(n, entries) ensures o == order && n == next {
      assert forall k :: k in o <==> k in order;
      OneOrder(o, order);
      FreeIsUnique(n, next, entries);
    }
  }

  /** A run leaves the numbers after its own free. */
  lemma FreeAfter(entries: Entries, first: nat, payloads: seq<Payload>)
    requires Free(first, entries) && first + |payloads| <= 0x1_0000_0000
    ensures Free(first + |payloads|, Append(entries, first, payloads))
  {
    hide GetU32, KeyOf;
    AppendIs(entries, first, payloads);
    if payloads == [] {
      AppendNone(entries, first);
    } else {
      KeysAreNew(first, |payloads|);
      assert Keys(first, |payloads|)[|payloads| - 1] in Keys(first, |payloads|);
    }
  }

  /** A database that has given out number 2^32 - 1 has none left. */
  lemma ExhaustedIsFull(next: nat, entries: Entries)
    requires Free(next, entries)
    ensures KeyOf(MAX_U32) in entries <==> next == 0x1_0000_0000
  {
    hide GetU32;
    assert GetU32(KeyOf(MAX_U32), 0) == MAX_U32;
  }

  /** What a run stores, in terms of the first free number. */
  lemma RunIsAppend(before: Entries, now: nat, run: seq<Arrival>, first: nat, written: seq<Payload>)
    requires Free(now, before) && first + |written| <= 0x1_0000_0000
    requires KeyOf(MAX_U32) in before ==> written == []
    requires KeyOf(MAX_U32) !in before ==>
               first >= 1 && Above(first, before) && written == Written(run, 0x1_0000_0000 - first)
    requires first > 1 && KeyOf(MAX_U32) !in before ==> KeyOf(first - 1) in before
    ensures Above(now, before)
    ensures Append(before, first, written) == Append(before, now, written) && now + |written| <= 0x1_0000_0000
    ensures Keys(first, |written|) == Keys(now, |written|)
    ensures written == Written(run, 0x1_0000_0000 - now)
  {
    hide GetU32, KeyOf;
    ExhaustedIsFull(now, before);
    if now == 0x1_0000_0000 {
      AppendNone(before, first);
      AppendNone(before, now);
      WrittenIsBounded(run, 0);
    } else {
      FreeIsUnique(now, first, before);
      WrittenIsBounded(run, 0x1_0000_0000 - first);
    }
  }

  /** One run, from a database whose first free number is `now`. */
  lemma OneRun(before: Entries, order: seq<Key>, now: nat, run: seq<Arrival>, first: nat, written: seq<Payload>)
    requires Visits(order, before) && FourByteKeys(before) && Free(now, before) && first + |written| <= 0x1_0000_0000
    requires KeyOf(MAX_U32) in before ==> written == []
    requires KeyOf(MAX_U32) !in before ==>
               first >= 1 && Above(first, before) && written == Written(run, 0x1_0000_0000 - first)
    requires first > 1 && KeyOf(MAX_U32) !in before ==> KeyOf(first - 1) in before
    ensures now + |written| <= 0x1_0000_0000 && written == Written(run, 0x1_0000_0000 - now)
    ensures Keys(first, |written|) == Keys(now, |written|)
    ensures var after, longer := Append(before, first, written), order + Keys(first, |written|);
            && Visits(longer, after) && FourByteKeys(after) && Free(now + |written|, after)
            && ReadAll(longer, after) == ReadAll(order, before) + written
  {
    hide KeyOf, Append, Written, Visits, FourByteKeys, Ascending, Keys;
    RunIsAppend(before, now, run, first, written);
    AppendIsRead(before, order, now, written);
    FreeAfter(before, now, written);
  }

  lemma FreeIsBounded(next: nat, entries: Entries)
    requires Free(next, entries)
    ensures next <= 0x1_0000_0000
  {
  }

  lemma NoKeys(order: seq<Key>, next: nat)
    ensures order + Keys(next, 0) == order
  {
  }

  lemma KeysJoin(order: seq<Key>, next: nat, n: nat, m: nat)
    ensures order + Keys(next, n) + Keys(next + n, m) == order + Keys(next, n + m)
  {
    hide KeyOf;
    var a, b := order + Keys(next, n) + Keys(next + n, m), order + Keys(next, n + m);
    forall i | |order| + n <= i < |a| ensures a[i] == b[i] {
      assert Keys(next + n, m)[i - |order| - n] == KeyOf(next + i - |order|);
    }
  }

  lemma RunsNext(runs: seq<seq<Arrival>>, i: nat, next: nat, logged: seq<Payload>, written: seq<Payload>)
    requires i < |runs| && next + |logged| <= 0x1_0000_0000 && logged == Logged(next, runs[..i])
    requires written == Written(runs[i], 0x1_0000_0000 - next - |logged|)
    ensures logged + written == Logged(next, runs[..i + 1])
  {
    assert runs[..i + 1][..i] == runs[..i];
  }

  lemma RunsStart(runs: seq<seq<Arrival>>, next: nat)
    requires next <= 0x1_0000_0000
    ensures Logged(next, runs[..0]) == [] && runs[..|runs|] == runs
  {
  }

  lemma ReadMore(a: seq<Payload>, b: seq<Payload>, c: seq<Payload>)
    ensures a + b + c == a + (b + c)
  {
  }

  /**
   Any number of recorder runs on one database of 4-byte keys: reading it back gives what was there
   before, then everything the runs stored, in the order it arrived, until the numbers run out.
   Nothing stored is overwritten.
   */
  method RecordRuns(entries: Entries, order: seq<Key>, runs: seq<seq<Arrival>>, ghost next: nat)
    returns (after: Entries, longer: seq<Key>, logged: seq<Payload>)
    requires Visits(order, entries) && FourByteKeys(entries) && Free(next, entries)
    ensures Visits(longer, after) && FourByteKeys(after) && Free(next + |logged|, after)
    ensures ReadAll(longer, after) == ReadAll(order, entries) + logged
    ensures longer == order + Keys(next, |logged|)
    ensures logged == Logged(next, runs)
  {
    hide FourByteKeys, Free, Append, Written, Above, ReadAll, KeyOf, Keys, Ascending, Logged, IsNew, Before;
    FreeIsBounded(next, entries);
    RunsStart(runs, next);
    after, longer, logged := entries, order, [];
    NoKeys(order, next);
    for i := 0 to |runs|
      invariant Visits(longer, after) && FourByteKeys(after) && Free(next + |logged|, after)
      invariant next + |logged| <= 0x1_0000_0000
      invariant ReadAll(longer, after) == ReadAll(order, entries) + logged
      invariant longer == order + Keys(next, |logged|)
      invariant logged == Logged(next, runs[..i])
    {
      ghost var before := after;
      var err, first, written;
      after, err, first, written := RunDBIngest(after, longer, runs[i]);
      OneRun(before, longer, next + |logged|, runs[i], first, written);
      KeysJoin(order, next, |logged|, |written|);
      RunsNext(runs, i, next, logged, written);
      ReadMore(ReadAll(order, entries), logged, written);
      longer := longer + Keys(first, |written|);
      logged := logged + written;
    }
  }
}
