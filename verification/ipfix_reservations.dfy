/**
 What concurrent callers of one sequence counter are handed: the ranges never meet and together
 are exactly the numbers counted, in whatever order the atomic additions happen.
 */
module IpfixReservations {
  import opened Bytes
  import opened Sums
  import opened IpfixExport

  const WRAP32: nat := 0x1_0000_0000

  /** The k-th number from `start` on, in 32-bit arithmetic. */
  function Number(start: U32, k: nat): U32 {
    (start + k) % WRAP32
  }

  lemma NumberAdds(start: U32, k: nat, p: nat)
    ensures Number(Number(start, k), p) == Number(start, k + p)
  {
  }

  // ----- One list of calls -----

  /** Each call starts where the ones before it end. */
  ghost predicate Started(from: U32, calls: seq<nat>, starts: seq<U32>) {
    |starts| == |calls| && forall i :: 0 <= i < |calls| ==> starts[i] == Number(from, Sum(calls[..i]))
  }

  lemma {:induction false} SumsGrow(calls: seq<nat>, i: nat, j: nat)
    requires i <= j <= |calls|
    ensures Sum(calls[..i]) <= Sum(calls[..j])
    decreases j - i
  {
    if i == j {
    } else {
      assert calls[..j][..j - 1] == calls[..j - 1];
      SumsGrow(calls, i, j - 1);
    }
  }

  /** Offset k from the counter before all calls falls into call i. */
  ghost predicate InCall(calls: seq<nat>, i: nat, k: nat) {
    i < |calls| && Sum(calls[..i]) <= k < Sum(calls[..i]) + calls[i]
  }

  lemma {:induction false} SomeCall(calls: seq<nat>, n: nat, k: nat) returns (i: nat)
    requires n <= |calls| && k < Sum(calls[..n])
    ensures InCall(calls, i, k)
  {
    assert calls[..n][..n - 1] == calls[..n - 1];
    if k < Sum(calls[..n - 1]) {
      i := SomeCall(calls, n - 1, k);
    } else {
      i := n - 1;
    }
  }

  /** The calls tile the counted interval: the offsets of a call lie in it, and belong to no other call. */
  lemma CallsTile(calls: seq<nat>, i: nat, j: nat, k: nat)
    requires InCall(calls, i, k)
    ensures k < Sum(calls)
    ensures InCall(calls, j, k) ==> i == j
  {
    assert calls[..|calls|] == calls;
    assert calls[..i + 1][..i] == calls[..i];
    SumsGrow(calls, i + 1, |calls|);
    if InCall(calls, j, k) {
      assert calls[..j + 1][..j] == calls[..j];
      if i < j {
        SumsGrow(calls, i + 1, j);
      } else if j < i {
        SumsGrow(calls, j + 1, i);
      }
    }
  }

  /** No number is in two ranges, or twice in one. */
  ghost predicate Disjoint(calls: seq<nat>, starts: seq<U32>)
    requires |starts| == |calls|
  {
    forall i, j, p: nat, q: nat ::
      && 0 <= i < |calls| && 0 <= j < |calls| && p < calls[i] && q < calls[j]
      && Number(starts[i], p) == Number(starts[j], q)
      ==> i == j && p == q
  }

  /** Every number of the counted interval is handed out. */
  lemma RangesCover(from: U32, calls: seq<nat>, starts: seq<U32>, k: nat)
    requires Started(from, calls, starts) && k < Sum(calls)
    ensures exists i, p: nat :: 0 <= i < |calls| && p < calls[i] && Number(starts[i], p) == Number(from, k)
  {
    hide Number;
    assert calls[..|calls|] == calls;
    var i := SomeCall(calls, |calls|, k);
    var p := k - Sum(calls[..i]);
    NumberAdds(from, Sum(calls[..i]), p);
    assert p < calls[i] && Number(starts[i], p) == Number(from, k);
  }

  /** Every number handed out is of the counted interval. */
  lemma RangeIsCounted(from: U32, calls: seq<nat>, starts: seq<U32>, i: nat, p: nat)
    requires Started(from, calls, starts) && i < |calls| && p < calls[i]
    ensures var k := Sum(calls[..i]) + p;
            InCall(calls, i, k) && k < Sum(calls) && Number(starts[i], p) == Number(from, k)
  {
    hide Number;
    NumberAdds(from, Sum(calls[..i]), p);
    CallsTile(calls, i, i, Sum(calls[..i]) + p);
  }

  lemma NumbersRepeat(from: U32, k: nat, l: nat)
    ensures k < WRAP32 && l < WRAP32 && Number(from, k) == Number(from, l) ==> k == l
    ensures Number(from, 0) == Number(from, WRAP32)
  {
  }

  /** The ranges are disjoint exactly while at most 2^32 numbers are handed out. */
  lemma RangesAreDisjoint(from: U32, calls: seq<nat>, starts: seq<U32>)
    requires Started(from, calls, starts)
    ensures Disjoint(calls, starts) <==> Sum(calls) <= WRAP32
  {
    hide Number, InCall, Sum;
    if Sum(calls) <= WRAP32 {
      forall i, j, p: nat, q: nat |
        && 0 <= i < |calls| && 0 <= j < |calls| && p < calls[i] && q < calls[j]
        && Number(starts[i], p) == Number(starts[j], q)
        ensures i == j && p == q
      {
        RangeIsCounted(from, calls, starts, i, p);
        RangeIsCounted(from, calls, starts, j, q);
        NumbersRepeat(from, Sum(calls[..i]) + p, Sum(calls[..j]) + q);
        CallsTile(calls, i, j, Sum(calls[..i]) + p);
      }
    } else {
      TwiceHanded(from, calls, starts);
    }
  }

  lemma TwiceHanded(from: U32, calls: seq<nat>, starts: seq<U32>)
    requires Started(from, calls, starts) && Sum(calls) > WRAP32
    ensures !Disjoint(calls, starts)
  {
    hide Number;
    assert calls[..|calls|] == calls;
    var i := SomeCall(calls, |calls|, 0);
    var j := SomeCall(calls, |calls|, WRAP32);
    var p, q := 0 - Sum(calls[..i]), WRAP32 - Sum(calls[..j]);
    NumberAdds(from, Sum(calls[..i]), p);
    NumberAdds(from, Sum(calls[..j]), q);
    NumbersRepeat(from, 0, WRAP32);
    assert Number(starts[i], p) == Number(starts[j], q);
  }

  // ----- Threads with calls of their own -----

  /** How often a thread has had its turn. */
  function Turns(schedule: seq<nat>, t: nat): nat {
    if schedule == [] then 0
    else Turns(schedule[..|schedule| - 1], t) + (if schedule[|schedule| - 1] == t then 1 else 0)
  }

  /** The schedule names, addition by addition, a thread that still has a call to make. */
  ghost predicate Interleaves(threads: seq<seq<nat>>, schedule: seq<nat>) {
    forall k :: 0 <= k < |schedule| ==>
      schedule[k] < |threads| && Turns(schedule[..k], schedule[k]) < |threads[schedule[k]]|
  }

  /** At any point any thread with a call left may make it. */
  lemma AnyMayBeNext(threads: seq<seq<nat>>, schedule: seq<nat>, t: nat)
    ensures Interleaves(threads, [])
    ensures Interleaves(threads, schedule) && t < |threads| && Turns(schedule, t) < |threads[t]| ==>
              Interleaves(threads, schedule + [t])
  {
    hide Turns;
    var longer := schedule + [t];
    if Interleaves(threads, schedule) && t < |threads| && Turns(schedule, t) < |threads[t]| {
      forall k | 0 <= k < |longer|
        ensures longer[k] < |threads| && Turns(longer[..k], longer[k]) < |threads[longer[k]]|
      {
        assert longer[..k] == schedule[..k];
      }
      assert longer[..|schedule|] == schedule;
    }
  }

  lemma InterleavesFront(threads: seq<seq<nat>>, schedule: seq<nat>, n: nat)
    requires Interleaves(threads, schedule) && n <= |schedule|
    ensures Interleaves(threads, schedule[..n])
  {
    forall k | 0 <= k < n
      ensures schedule[..n][k] < |threads| && Turns(schedule[..n][..k], schedule[..n][k]) < |threads[schedule[..n][k]]|
    {
      assert schedule[..n][..k] == schedule[..k];
    }
  }

  /** The calls in the order the schedule makes them. */
  ghost function Merged(threads: seq<seq<nat>>, schedule: seq<nat>): (calls: seq<nat>)
    requires Interleaves(threads, schedule)
    ensures |calls| == |schedule|
    ensures forall k :: 0 <= k < |schedule| ==> calls[k] == threads[schedule[k]][Turns(schedule[..k], schedule[k])]
  {
    seq(|schedule|, k requires 0 <= k < |schedule| => threads[schedule[k]][Turns(schedule[..k], schedule[k])])
  }

  lemma MergedFront(threads: seq<seq<nat>>, schedule: seq<nat>, n: nat)
    requires Interleaves(threads, schedule) && n <= |schedule|
    ensures Interleaves(threads, schedule[..n]) && Merged(threads, schedule[..n]) == Merged(threads, schedule)[..n]
  {
    InterleavesFront(threads, schedule, n);
    forall k | 0 <= k < n ensures Merged(threads, schedule[..n])[k] == Merged(threads, schedule)[k] {
      assert schedule[..n][..k] == schedule[..k];
    }
  }

  /** What the first n threads have reserved. */
  ghost function Reserved(threads: seq<seq<nat>>, schedule: seq<nat>, n: nat): nat
    requires n <= |threads| && forall t :: 0 <= t < n ==> Turns(schedule, t) <= |threads[t]|
  {
    if n == 0 then 0 else Reserved(threads, schedule, n - 1) + Sum(threads[n - 1][..Turns(schedule, n - 1)])
  }

  lemma {:induction false} TurnsFit(threads: seq<seq<nat>>, schedule: seq<nat>, t: nat)
    requires Interleaves(threads, schedule) && t < |threads|
    ensures Turns(schedule, t) <= |threads[t]|
  {
    if schedule == [] {
    } else {
      var n := |schedule| - 1;
      InterleavesFront(threads, schedule, n);
      TurnsFit(threads, schedule[..n], t);
    }
  }

  lemma {:induction false} ReservedNext(threads: seq<seq<nat>>, schedule: seq<nat>, next: nat, n: nat)
    requires n <= |threads| && next < |threads| && Turns(schedule, next) < |threads[next]|
    requires forall t :: 0 <= t < |threads| ==> Turns(schedule, t) <= |threads[t]|
    requires forall t :: 0 <= t < |threads| ==> Turns(schedule + [next], t) <= |threads[t]|
    ensures Reserved(threads, schedule + [next], n)
         == Reserved(threads, schedule, n) + (if next < n then threads[next][Turns(schedule, next)] else 0)
  {
    if n == 0 {
    } else {
      ReservedNext(threads, schedule, next, n - 1);
      assert (schedule + [next])[..|schedule|] == schedule;
      var row, k := threads[n - 1], Turns(schedule, n - 1);
      if next == n - 1 {
        assert row[..k + 1][..k] == row[..k];
      }
    }
  }

  /** Whatever the schedule, what is counted is what the threads have reserved. */
  lemma {:induction false} MergedSum(threads: seq<seq<nat>>, schedule: seq<nat>)
    requires Interleaves(threads, schedule)
    ensures forall t :: 0 <= t < |threads| ==> Turns(schedule, t) <= |threads[t]|
    ensures Sum(Merged(threads, schedule)) == Reserved(threads, schedule, |threads|)
  {
    forall t | 0 <= t < |threads| ensures Turns(schedule, t) <= |threads[t]| {
      TurnsFit(threads, schedule, t);
    }
    if schedule == [] {
      NothingReserved(threads, |threads|);
    } else {
      var n := |schedule| - 1;
      MergedFront(threads, schedule, n);
      MergedSum(threads, schedule[..n]);
      assert schedule == schedule[..n] + [schedule[n]];
      ReservedNext(threads, schedule[..n], schedule[n], |threads|);
    }
  }

  lemma {:induction false} NothingReserved(threads: seq<seq<nat>>, n: nat)
    requires n <= |threads|
    ensures Reserved(threads, [], n) == 0
  {
    if n == 0 {
    } else {
      NothingReserved(threads, n - 1);
      assert threads[n - 1][..0] == [];
    }
  }

  /** Thread t's i-th call was handed a p-th number. */
  ghost predicate Has(threads: seq<seq<nat>>, starts: seq<seq<U32>>, t: int, i: int, p: int) {
    0 <= t < |starts| && t < |threads| && 0 <= i < |starts[t]| && i < |threads[t]| && 0 <= p < threads[t][i]
  }

  /** No two threads, calls or places share a number. */
  ghost predicate ThreadsDisjoint(threads: seq<seq<nat>>, starts: seq<seq<U32>>) {
    forall s, i, p, t, j, q ::
      && Has(threads, starts, s, i, p) && Has(threads, starts, t, j, q)
      && Number(starts[s][i], p) == Number(starts[t][j], q)
      ==> s == t && i == j && p == q
  }

  /** Some thread has the number. */
  ghost predicate Handed(threads: seq<seq<nat>>, starts: seq<seq<U32>>, x: U32) {
    exists t, i, p :: Has(threads, starts, t, i, p) && Number(starts[t][i], p) == x
  }

  /** The numbers the threads have are exactly the first `total` from the counter on. */
  ghost predicate ThreadsCover(from: U32, total: nat, threads: seq<seq<nat>>, starts: seq<seq<U32>>) {
    forall x: U32 :: Handed(threads, starts, x) <==> exists k: nat :: k < total && Number(from, k) == x
  }

  /** Each thread has its own starts, in the order of its calls. */
  ghost predicate Placed(threads: seq<seq<nat>>, schedule: seq<nat>, starts: seq<seq<U32>>, flat: seq<U32>) {
    && |flat| == |schedule| && |starts| == |threads|
    && (forall t :: 0 <= t < |starts| ==> |starts[t]| == Turns(schedule, t))
    && forall k :: 0 <= k < |schedule| ==>
         var t, i := schedule[k], Turns(schedule[..k], schedule[k]);
         t < |starts| && i < |starts[t]| && starts[t][i] == flat[k]
  }

  lemma TurnsNext(schedule: seq<nat>, t: nat, u: nat)
    ensures Turns(schedule + [t], u) == Turns(schedule, u) + (if t == u then 1 else 0)
  {
    assert (schedule + [t])[..|schedule|] == schedule;
  }

  lemma PlacedNext(threads: seq<seq<nat>>, schedule: seq<nat>, t: nat, starts: seq<seq<U32>>, flat: seq<U32>,
                   start: U32)
    requires t < |threads| && Placed(threads, schedule, starts, flat)
    ensures Placed(threads, schedule + [t], starts[t := starts[t] + [start]], flat + [start])
  {
    hide Turns;
    var longer, more := schedule + [t], starts[t := starts[t] + [start]];
    forall u | 0 <= u < |more| ensures |more[u]| == Turns(longer, u) {
      TurnsNext(schedule, t, u);
    }
    forall k | 0 <= k < |longer|
      ensures var u, i := longer[k], Turns(longer[..k], longer[k]);
              u < |more| && i < |more[u]| && more[u][i] == (flat + [start])[k]
    {
      assert longer[..k] == schedule[..k];
      if k == |schedule| {
        assert schedule[..k] == schedule;
      }
    }
  }

  /** The addition in which thread t makes its i-th call. */
  lemma {:induction false} AdditionOf(schedule: seq<nat>, t: nat, i: nat) returns (k: nat)
    requires i < Turns(schedule, t)
    ensures k < |schedule| && schedule[k] == t && Turns(schedule[..k], t) == i
  {
    var n := |schedule| - 1;
    if schedule[n] == t && Turns(schedule[..n], t) == i {
      k := n;
    } else {
      k := AdditionOf(schedule[..n], t, i);
      assert schedule[..n][..k] == schedule[..k];
    }
  }

  lemma {:induction false} TurnsGrow(schedule: seq<nat>, t: nat, k: nat, l: nat)
    requires k <= l <= |schedule|
    ensures Turns(schedule[..k], t) <= Turns(schedule[..l], t)
    ensures k < l && schedule[k] == t ==> Turns(schedule[..k], t) < Turns(schedule[..l], t)
    decreases l
  {
    if k == l {
    } else {
      assert schedule[..l][..l - 1] == schedule[..l - 1];
      TurnsGrow(schedule, t, k, l - 1);
    }
  }

  lemma OneAddition(schedule: seq<nat>, k: nat, l: nat)
    requires k < |schedule| && l < |schedule| && schedule[k] == schedule[l]
    requires Turns(schedule[..k], schedule[k]) == Turns(schedule[..l], schedule[l])
    ensures k == l
  {
    if k < l {
      TurnsGrow(schedule, schedule[k], k, l);
    } else {
      TurnsGrow(schedule, schedule[k], l, k);
    }
  }

  /** What a thread has is what one addition handed out, and the other way round. */
  lemma HasIsAddition(threads: seq<seq<nat>>, schedule: seq<nat>, starts: seq<seq<U32>>, flat: seq<U32>,
                      t: nat, i: nat, p: nat)
    returns (k: nat)
    requires Interleaves(threads, schedule) && Placed(threads, schedule, starts, flat) && Has(threads, starts, t, i, p)
    ensures k < |schedule| && schedule[k] == t && Turns(schedule[..k], t) == i
    ensures p < Merged(threads, schedule)[k] && flat[k] == starts[t][i]
  {
    k := AdditionOf(schedule, t, i);
  }

  lemma AdditionIsHad(threads: seq<seq<nat>>, schedule: seq<nat>, starts: seq<seq<U32>>, flat: seq<U32>, k: nat, p: nat)
    requires Interleaves(threads, schedule) && Placed(threads, schedule, starts, flat)
    requires k < |schedule| && p < Merged(threads, schedule)[k]
    ensures var t, i := schedule[k], Turns(schedule[..k], schedule[k]);
            Has(threads, starts, t, i, p) && starts[t][i] == flat[k]
  {
  }

  lemma PlacedSize(threads: seq<seq<nat>>, schedule: seq<nat>, starts: seq<seq<U32>>, flat: seq<U32>)
    requires Placed(threads, schedule, starts, flat)
    ensures |flat| == |schedule| && |starts| == |threads|
    ensures forall t :: 0 <= t < |starts| ==> |starts[t]| == Turns(schedule, t)
  {
  }

  lemma DisjointAlike(threads: seq<seq<nat>>, schedule: seq<nat>, starts: seq<seq<U32>>, flat: seq<U32>)
    requires Interleaves(threads, schedule) && Placed(threads, schedule, starts, flat)
    ensures ThreadsDisjoint(threads, starts) <==> Disjoint(Merged(threads, schedule), flat)
  {
    hide Number, Placed, Interleaves, Turns;
    var calls := Merged(threads, schedule);
    PlacedSize(threads, schedule, starts, flat);
    if Disjoint(calls, flat) {
      forall s, i, p, t, j, q |
        && Has(threads, starts, s, i, p) && Has(threads, starts, t, j, q)
        && Number(starts[s][i], p) == Number(starts[t][j], q)
        ensures s == t && i == j && p == q
      {
        var k := HasIsAddition(threads, schedule, starts, flat, s, i, p);
        var l := HasIsAddition(threads, schedule, starts, flat, t, j, q);
      }
    }
    if ThreadsDisjoint(threads, starts) {
      forall k, l, p: nat, q: nat |
        0 <= k < |calls| && 0 <= l < |calls| && p < calls[k] && q < calls[l] && Number(flat[k], p) == Number(flat[l], q)
        ensures k == l && p == q
      {
        AdditionIsHad(threads, schedule, starts, flat, k, p);
        AdditionIsHad(threads, schedule, starts, flat, l, q);
        OneAddition(schedule, k, l);
      }
    }
  }

  lemma CoverAlike(from: U32, threads: seq<seq<nat>>, schedule: seq<nat>, starts: seq<seq<U32>>, flat: seq<U32>)
    requires Interleaves(threads, schedule) && Placed(threads, schedule, starts, flat)
    requires Started(from, Merged(threads, schedule), flat)
    ensures ThreadsCover(from, Sum(Merged(threads, schedule)), threads, starts)
  {
    hide Number, Placed, Interleaves, Turns, Started, Sum;
    var calls := Merged(threads, schedule);
    PlacedSize(threads, schedule, starts, flat);
    forall x: U32 ensures Handed(threads, starts, x) <==> exists k: nat :: k < Sum(calls) && Number(from, k) == x {
      if Handed(threads, starts, x) {
        var t, i, p :| Has(threads, starts, t, i, p) && Number(starts[t][i], p) == x;
        var l := HasIsAddition(threads, schedule, starts, flat, t, i, p);
        RangeIsCounted(from, calls, flat, l, p);
        assert Number(from, Sum(calls[..l]) + p) == x;
      }
      if k: nat :| k < Sum(calls) && Number(from, k) == x {
        RangesCover(from, calls, flat, k);
        var l, p: nat :| 0 <= l < |calls| && p < calls[l] && Number(flat[l], p) == Number(from, k);
        AdditionIsHad(threads, schedule, starts, flat, l, p);
      }
    }
  }

  lemma NextStart(from: U32, calls: seq<nat>, n: nat, flat: seq<U32>, start: U32)
    requires n < |calls| && Started(from, calls[..n], flat) && start == Number(from, Sum(calls[..n]))
    ensures Started(from, calls[..n + 1], flat + [start])
    ensures Number(start, calls[n]) == Number(from, Sum(calls[..n + 1]))
  {
    hide Number;
    var longer := calls[..n + 1];
    assert longer[..n] == calls[..n];
    NumberAdds(from, Sum(calls[..n]), calls[n]);
    forall k | 0 <= k < n + 1 ensures (flat + [start])[k] == Number(from, Sum(longer[..k])) {
      if k < n {
        assert longer[..k] == calls[..n][..k];
      }
    }
  }

  lemma NothingYet(threads: seq<seq<nat>>, schedule: seq<nat>, from: U32, starts: seq<seq<U32>>)
    requires Interleaves(threads, schedule) && starts == seq(|threads|, _ => [])
    ensures Placed(threads, schedule[..0], starts, [])
    ensures Started(from, Merged(threads, schedule)[..0], [])
    ensures from == Number(from, Sum(Merged(threads, schedule)[..0]))
  {
  }

  /** The call the schedule makes next. */
  lemma NextCall(threads: seq<seq<nat>>, schedule: seq<nat>, k: nat, starts: seq<seq<U32>>, flat: seq<U32>)
    requires Interleaves(threads, schedule) && k < |schedule| && Placed(threads, schedule[..k], starts, flat)
    ensures var t := schedule[k];
            t < |threads| && t < |starts| && |starts[t]| < |threads[t]|
            && threads[t][|starts[t]|] == Merged(threads, schedule)[k]
  {
  }

  /**
   Threads that reserve concurrently, in any interleaving of their atomic additions, at any point
   of it: the numbers they have are exactly the counted ones; no two of them share one exactly as
   long as at most 2^32 are reserved; and how many are depends on the threads alone.
   */
  method ReserveConcurrently(sequence: IPFIXSequence, threads: seq<seq<nat>>, schedule: seq<nat>)
    returns (starts: seq<seq<U32>>)
    requires Interleaves(threads, schedule)
    modifies sequence
    ensures |starts| == |threads|
    ensures forall t :: 0 <= t < |threads| ==> |starts[t]| == Turns(schedule, t) <= |threads[t]|
    ensures var total := Reserved(threads, schedule, |threads|);
            && sequence.counter == Number(old(sequence.counter), total)
            && ThreadsCover(old(sequence.counter), total, threads, starts)
            && (ThreadsDisjoint(threads, starts) <==> total <= WRAP32)
  {
    hide Sum, Interleaves, Placed, Started, Turns, Reserved, ThreadsDisjoint, ThreadsCover, Disjoint;
    ghost var from, calls := sequence.counter, Merged(threads, schedule);
    ghost var flat: seq<U32> := [];
    starts := seq(|threads|, _ => []);
    NothingYet(threads, schedule, from, starts);
    for k := 0 to |schedule|
      invariant Placed(threads, schedule[..k], starts, flat) && |starts| == |threads|
      invariant Started(from, calls[..k], flat)
      invariant sequence.counter == Number(from, Sum(calls[..k]))
    {
      var t := schedule[k];
      NextCall(threads, schedule, k, starts, flat);
      PlacedNext(threads, schedule[..k], t, starts, flat, sequence.counter);
      assert schedule[..k + 1] == schedule[..k] + [t];
      NextStart(from, calls, k, flat, sequence.counter);
      var start := sequence.Reserve(threads[t][|starts[t]|]);
      starts, flat := starts[t := starts[t] + [start]], flat + [start];
    }
    assert schedule[..|schedule|] == schedule && calls[..|calls|] == calls;
    MergedSum(threads, schedule);
    PlacedSize(threads, schedule, starts, flat);
    DisjointAlike(threads, schedule, starts, flat);
    RangesAreDisjoint(from, calls, flat);
    CoverAlike(from, threads, schedule, starts, flat);
  }
}
