/** The statistics collector: the latest cumulative figures of every worker, their totals, and a rolling history. */
module Collector {
  import opened Barrage
  import opened Sums

  const MAX_HISTORY := 300

  datatype StatTotals = StatTotals(flowsSent: nat, cycles: nat, bytesSent: nat)

  datatype StatSnapshot = StatSnapshot(timestamp: int, totals: StatTotals, workers: map<int, WorkerStat>)

  /** One of the three counters. */
  datatype Counter = FlowsSent | Cycles | BytesSent

  function Get(s: WorkerStat, c: Counter): nat {
    match c case FlowsSent => s.flowsSent case Cycles => s.cycles case BytesSent => s.bytesSent
  }

  function GetTotal(t: StatTotals, c: Counter): nat {
    match c case FlowsSent => t.flowsSent case Cycles => t.cycles case BytesSent => t.bytesSent
  }

  // ----- Sums over a map -----

  lemma SomeWorker(ids: set<int>)
    ensures ids == {} || exists id :: id in ids
  {
    if !exists id :: id in ids {
      assert ids == {};
    }
  }

  /** The sum of a counter over all workers, taken in some order. */
  ghost function SumOver(workers: map<int, WorkerStat>, c: Counter): nat {
    if workers.Keys == {} then 0
    else
      SomeWorker(workers.Keys);
      var id :| id in workers.Keys;
      Get(workers[id], c) + SumOver(workers - {id}, c)
  }

  /** The order does not matter: any worker may be taken first. */
  lemma {:induction false} SumRemove(workers: map<int, WorkerStat>, id: int, c: Counter)
    requires id in workers
    ensures SumOver(workers, c) == Get(workers[id], c) + SumOver(workers - {id}, c)
    decreases workers
  {
    var first :| first in workers.Keys && SumOver(workers, c) == Get(workers[first], c) + SumOver(workers - {first}, c);
    if first == id {
    } else {
      SumRemove(workers - {first}, id, c);
      SumRemove(workers - {id}, first, c);
      assert workers - {first} - {id} == workers - {id} - {first};
    }
  }

  /** Replacing or adding one worker's figures. */
  lemma SumUpdate(workers: map<int, WorkerStat>, s: WorkerStat, c: Counter)
    ensures SumOver(workers[s.workerID := s], c)
            == SumOver(workers, c) + Get(s, c) - (if s.workerID in workers then Get(workers[s.workerID], c) else 0)
  {
    var id, after := s.workerID, workers[s.workerID := s];
    SumRemove(after, id, c);
    if id in workers {
      SumRemove(workers, id, c);
      assert after - {id} == workers - {id};
    } else {
      assert after - {id} == workers;
    }
  }

  /** The totals are the sums, in 64-bit counters. */
  ghost predicate AreTotals(t: StatTotals, workers: map<int, WorkerStat>) {
    forall c :: GetTotal(t, c) == SumOver(workers, c) % WRAP64
  }

  lemma TotalsAreUnique(t: StatTotals, u: StatTotals, workers: map<int, WorkerStat>)
    requires AreTotals(t, workers) && AreTotals(u, workers)
    ensures t == u
  {
    assert GetTotal(t, FlowsSent) == GetTotal(u, FlowsSent);
    assert GetTotal(t, Cycles) == GetTotal(u, Cycles);
    assert GetTotal(t, BytesSent) == GetTotal(u, BytesSent);
  }

  /** These are the workers of the map, each once, and in the same order one figure of each. */
  ghost predicate Lists(ids: seq<int>, workers: map<int, WorkerStat>, figures: seq<nat>, c: Counter) {
    && (forall i, j :: 0 <= i < j < |ids| ==> ids[i] != ids[j])
    && (forall id :: id in ids <==> id in workers)
    && |figures| == |ids|
    && forall i :: 0 <= i < |ids| ==> ids[i] in workers && figures[i] == Get(workers[ids[i]], c)
  }

  lemma {:induction false} SumOfList(workers: map<int, WorkerStat>, ids: seq<int>, figures: seq<nat>, c: Counter)
    requires Lists(ids, workers, figures, c)
    ensures SumOver(workers, c) == Sum(figures)
  {
    if ids == [] {
      forall id ensures id !in workers {
        assert id !in ids;
      }
      assert workers.Keys == {};
    } else {
      var n := |ids| - 1;
      ListsFewer(ids, workers, figures, c);
      hide Lists;
      SumOfList(workers - {ids[n]}, ids[..n], figures[..n], c);
      SumRemove(workers, ids[n], c);
    }
  }

  lemma ListsFewer(ids: seq<int>, workers: map<int, WorkerStat>, figures: seq<nat>, c: Counter)
    requires Lists(ids, workers, figures, c) && ids != []
    ensures var n := |ids| - 1;
            && |figures| == n + 1 && ids[n] in workers && figures[n] == Get(workers[ids[n]], c)
            && Lists(ids[..n], workers - {ids[n]}, figures[..n], c)
  {
    hide Get;
    var n := |ids| - 1;
    var fewer, front := workers - {ids[n]}, ids[..n];
    forall i | 0 <= i < n ensures front[i] in fewer {
      assert ids[i] in workers && ids[i] != ids[n];
    }
    forall x | x in fewer ensures x in front {
      var i :| 0 <= i < |ids| && ids[i] == x;
      assert front[i] == x;
    }
  }

  /** In whatever order the workers are listed, each total adds up its own figure of every worker, in 64 bits. */
  lemma TotalsAdd(t: StatTotals, workers: map<int, WorkerStat>, ids: seq<int>,
                  flows: seq<nat>, cycles: seq<nat>, bytes: seq<nat>)
    requires AreTotals(t, workers) && forall i, j :: 0 <= i < j < |ids| ==> ids[i] != ids[j]
    requires |flows| == |cycles| == |bytes| == |ids| && forall id :: id in ids <==> id in workers
    requires forall i :: 0 <= i < |ids| ==>
               && ids[i] in workers && flows[i] == workers[ids[i]].flowsSent
               && cycles[i] == workers[ids[i]].cycles && bytes[i] == workers[ids[i]].bytesSent
    ensures t.flowsSent == Sum(flows) % 0x1_0000_0000_0000_0000
    ensures t.cycles == Sum(cycles) % 0x1_0000_0000_0000_0000
    ensures t.bytesSent == Sum(bytes) % 0x1_0000_0000_0000_0000
  {
    hide Sum, SumOver;
    SumOfList(workers, ids, flows, FlowsSent);
    SumOfList(workers, ids, cycles, Cycles);
    SumOfList(workers, ids, bytes, BytesSent);
    assert GetTotal(t, FlowsSent) == SumOver(workers, FlowsSent) % WRAP64;
    assert GetTotal(t, Cycles) == SumOver(workers, Cycles) % WRAP64;
    assert GetTotal(t, BytesSent) == SumOver(workers, BytesSent) % WRAP64;
  }

  /** One addition of the totals loop, whichever worker it takes. */
  lemma AddOne(t: StatTotals, done: map<int, WorkerStat>, s: WorkerStat, u: StatTotals)
    requires AreTotals(t, done) && s.workerID !in done
    requires u == StatTotals((t.flowsSent + s.flowsSent) % WRAP64, (t.cycles + s.cycles) % WRAP64,
                             (t.bytesSent + s.bytesSent) % WRAP64)
    ensures AreTotals(u, done[s.workerID := s])
  {
    hide SumOver;
    forall c ensures GetTotal(u, c) == SumOver(done[s.workerID := s], c) % WRAP64 {
      SumUpdate(done, s, c);
      AddWraps(SumOver(done, c), Get(s, c));
    }
  }

  // ----- The collector -----

  /** The latest figures of each worker after these updates. */
  function MapAfter(stats: seq<WorkerStat>): map<int, WorkerStat> {
    if stats == [] then map[]
    else
      var s := stats[|stats| - 1];
      MapAfter(stats[..|stats| - 1])[s.workerID := s]
  }

  /** The snapshots of all updates, oldest first. */
  ghost predicate AreSnapshots(stats: seq<WorkerStat>, clock: seq<int>, snapshots: seq<StatSnapshot>) {
    && |snapshots| == |stats| <= |clock|
    && forall i :: 0 <= i < |stats| ==>
         && snapshots[i].timestamp == clock[i] && snapshots[i].workers == MapAfter(stats[..i + 1])
         && AreTotals(snapshots[i].totals, snapshots[i].workers)
  }

  /** The last entries, as many as the history keeps. */
  function Recent(snapshots: seq<StatSnapshot>): seq<StatSnapshot> {
    if |snapshots| > MAX_HISTORY then snapshots[|snapshots| - MAX_HISTORY..] else snapshots
  }

  lemma RecentNext(snapshots: seq<StatSnapshot>, s: StatSnapshot)
    ensures Recent(snapshots + [s]) == Recent(Recent(snapshots) + [s])
  {
  }

  /** The history is the last 300 entries, or all there are, up to the newest. */
  lemma RecentAre(snapshots: seq<StatSnapshot>)
    ensures var recent, n := Recent(snapshots), |snapshots|;
            && |recent| == (if n <= 300 then n else 300)
            && forall k :: 0 <= k < |recent| ==> recent[k] == snapshots[n - |recent| + k]
  {
  }

  lemma SnapshotsNext(stats: seq<WorkerStat>, clock: seq<int>, snapshots: seq<StatSnapshot>, i: nat, s: StatSnapshot)
    requires i < |stats| <= |clock| && AreSnapshots(stats[..i], clock, snapshots)
    requires s.timestamp == clock[i] && s.workers == MapAfter(stats[..i])[stats[i].workerID := stats[i]]
    requires AreTotals(s.totals, s.workers)
    ensures AreSnapshots(stats[..i + 1], clock, snapshots + [s]) && s.workers == MapAfter(stats[..i + 1])
  {
    hide AreTotals;
    var longer := stats[..i + 1];
    assert longer[..i] == stats[..i];
    forall k | 0 <= k < |longer| ensures (snapshots + [s])[k].workers == MapAfter(longer[..k + 1]) {
      if k < i {
        assert longer[..k + 1] == stats[..i][..k + 1];
      } else {
        assert longer[..k + 1] == longer;
      }
    }
  }

  class Collector {
    var statsMap: map<int, WorkerStat>
    var statsTotals: StatTotals
    var history: seq<StatSnapshot>

    constructor ()
      ensures statsMap == map[] && history == [] && AreTotals(statsTotals, statsMap)
    {
      statsMap, statsTotals, history := map[], StatTotals(0, 0, 0), [];
    }

    /** Keyed by worker, as the map always is. */
    ghost predicate Valid()
      reads this
    {
      forall id :: id in statsMap ==> statsMap[id].workerID == id
    }

    /** Appends a copy of the present state to the history, and drops the oldest entry past the limit. */
    method AppendSnapshot(now: int)
      modifies `history
      ensures history == Recent(old(history) + [StatSnapshot(now, statsTotals, statsMap)])
    {
      var workersCopy := statsMap;
      history := history + [StatSnapshot(now, statsTotals, workersCopy)];
      if |history| > MAX_HISTORY {
        history := history[|history| - MAX_HISTORY..];
      }
    }

    /**
     One update: the worker's figures are replaced, and the totals summed again from the map in
     whatever order it is walked.
     */
    method Update(stat: WorkerStat, now: int)
      requires Valid()
      modifies this
      ensures Valid() && statsMap == old(statsMap)[stat.workerID := stat]
      ensures AreTotals(statsTotals, statsMap)
      ensures history == Recent(old(history) + [StatSnapshot(now, statsTotals, statsMap)])
    {
      hide AreTotals, Recent;
      statsMap := statsMap[stat.workerID := stat];
      statsTotals := StatTotals(0, 0, 0);
      var left := statsMap.Keys;
      ghost var done: map<int, WorkerStat> := map[];
      NoTotals(statsTotals);
      while left != {}
        invariant left <= statsMap.Keys && statsMap == old(statsMap)[stat.workerID := stat] && Valid()
        invariant done == statsMap - left && history == old(history)
        invariant AreTotals(statsTotals, done)
      {
        SomeWorker(left);
        var id :| id in left;
        var s := statsMap[id];
        left := left - {id};
        ghost var before := statsTotals;
        statsTotals := StatTotals((statsTotals.flowsSent + s.flowsSent) % WRAP64,
                                  (statsTotals.cycles + s.cycles) % WRAP64,
                                  (statsTotals.bytesSent + s.bytesSent) % WRAP64);
        AddOne(before, done, s, statsTotals);
        assert statsMap - left == done[id := s];
        done := statsMap - left;
      }
      assert done == statsMap;
      AppendSnapshot(now);
    }

    /** All updates from the start: the history is the most recent of all snapshots ever taken. */
    method Run(stats: seq<WorkerStat>, clock: seq<int>) returns (ghost snapshots: seq<StatSnapshot>)
      requires statsMap == map[] && history == [] && AreTotals(statsTotals, statsMap) && |clock| >= |stats|
      modifies this
      ensures statsMap == MapAfter(stats) && AreTotals(statsTotals, statsMap)
      ensures AreSnapshots(stats, clock, snapshots) && history == Recent(snapshots)
      ensures |history| == if |stats| <= 300 then |stats| else 300
      ensures |snapshots| == |stats|
      ensures forall k :: 0 <= k < |history| ==> history[k] == snapshots[|stats| - |history| + k]
      ensures stats != [] ==> history[|history| - 1] == StatSnapshot(clock[|stats| - 1], statsTotals, statsMap)
    {
      hide AreTotals, MapAfter, AreSnapshots, Recent;
      snapshots := [];
      NoSnapshots(clock);
      assert stats[..0] == [];
      for i := 0 to |stats|
        invariant Valid() && AreTotals(statsTotals, statsMap)
        invariant statsMap == MapAfter(stats[..i])
        invariant AreSnapshots(stats[..i], clock, snapshots) && history == Recent(snapshots) && |snapshots| == i
        invariant i > 0 ==> snapshots[i - 1] == StatSnapshot(clock[i - 1], statsTotals, statsMap)
      {
        Update(stats[i], clock[i]);
        ghost var s := StatSnapshot(clock[i], statsTotals, statsMap);
        SnapshotsNext(stats, clock, snapshots, i, s);
        RecentNext(snapshots, s);
        snapshots := snapshots + [s];
      }
      assert stats[..|stats|] == stats;
      RecentAre(snapshots);
    }
  }

  lemma NoTotals(t: StatTotals)
    requires t == StatTotals(0, 0, 0)
    ensures AreTotals(t, map[])
  {
  }

  lemma NoSnapshots(clock: seq<int>)
    ensures AreSnapshots([], clock, []) && MapAfter([]) == map[] && Recent([]) == []
  {
  }

  /** The map holds exactly the workers that reported, each with its last report. */
  lemma {:induction false} MapHoldsLast(stats: seq<WorkerStat>, id: int)
    ensures id in MapAfter(stats) <==> exists i :: 0 <= i < |stats| && stats[i].workerID == id
    ensures id in MapAfter(stats) ==>
              exists i :: 0 <= i < |stats| && stats[i].workerID == id && MapAfter(stats)[id] == stats[i]
                          && forall j :: i < j < |stats| ==> stats[j].workerID != id
  {
    if stats == [] {
    } else {
      var n := |stats| - 1;
      MapHoldsLast(stats[..n], id);
      if stats[n].workerID != id && id in MapAfter(stats[..n]) {
        var i :| 0 <= i < n && stats[..n][i].workerID == id && MapAfter(stats[..n])[id] == stats[..n][i]
                 && forall j :: i < j < n ==> stats[..n][j].workerID != id;
        assert stats[i].workerID == id && MapAfter(stats)[id] == stats[i];
        assert forall j :: i < j < n ==> stats[j] == stats[..n][j];
      }
    }
  }

  // ----- Totals never decrease -----

  /** Later figures of the same worker are no smaller. */
  ghost predicate Cumulative(stats: seq<WorkerStat>) {
    forall i, j, c :: 0 <= i < j < |stats| && stats[i].workerID == stats[j].workerID ==>
      Get(stats[i], c) <= Get(stats[j], c)
  }

  lemma SumGrows(stats: seq<WorkerStat>, n: nat, c: Counter)
    requires Cumulative(stats) && n < |stats|
    ensures SumOver(MapAfter(stats[..n]), c) <= SumOver(MapAfter(stats[..n + 1]), c)
  {
    hide SumOver;
    var s := stats[n];
    assert stats[..n + 1][..n] == stats[..n];
    SumUpdate(MapAfter(stats[..n]), s, c);
    MapHoldsLast(stats[..n], s.workerID);
  }

  lemma {:induction false} SumsGrow(stats: seq<WorkerStat>, i: nat, j: nat, c: Counter)
    requires Cumulative(stats) && i <= j <= |stats|
    ensures SumOver(MapAfter(stats[..i]), c) <= SumOver(MapAfter(stats[..j]), c)
    decreases j
  {
    hide SumOver, MapAfter, Cumulative;
    if i == j {
    } else {
      SumsGrow(stats, i, j - 1, c);
      SumGrows(stats, j - 1, c);
    }
  }

  /** The reports of one worker, in order. */
  function Of(stats: seq<WorkerStat>, id: int): seq<WorkerStat> {
    if stats == [] then []
    else
      var front, s := Of(stats[..|stats| - 1], id), stats[|stats| - 1];
      if s.workerID == id then front + [s] else front
  }

  lemma {:induction false} OfHolds(stats: seq<WorkerStat>, i: nat)
    requires i < |stats|
    ensures stats[i] in Of(stats, stats[i].workerID)
  {
    var n := |stats| - 1;
    if i == n {
    } else {
      OfHolds(stats[..n], i);
    }
  }

  ghost predicate Growing(stats: seq<WorkerStat>) {
    forall i, j, c :: 0 <= i < j < |stats| ==> Get(stats[i], c) <= Get(stats[j], c)
  }

  lemma GrowingFront(stats: seq<WorkerStat>, s: WorkerStat)
    requires Growing(stats + [s])
    ensures Growing(stats)
    ensures forall x, c :: x in stats ==> Get(x, c) <= Get(s, c)
  {
    var longer := stats + [s];
    assert forall i :: 0 <= i < |stats| ==> longer[i] == stats[i];
    assert longer[|stats|] == s;
  }

  lemma CumulativeNext(stats: seq<WorkerStat>, s: WorkerStat)
    requires Cumulative(stats)
    requires forall i, c :: 0 <= i < |stats| && stats[i].workerID == s.workerID ==> Get(stats[i], c) <= Get(s, c)
    ensures Cumulative(stats + [s])
  {
  }

  /** Reports that grow worker by worker grow in whatever order the channel merged them. */
  lemma {:induction false} MergedIsCumulative(stats: seq<WorkerStat>)
    requires forall id :: Growing(Of(stats, id))
    ensures Cumulative(stats)
  {
    hide Get, Growing, Cumulative;
    if stats == [] {
      NothingIsCumulative();
    } else {
      var front, s := stats[..|stats| - 1], stats[|stats| - 1];
      assert Growing(Of(stats, s.workerID));
      GrowingFront(Of(front, s.workerID), s);
      forall id ensures Growing(Of(front, id)) {
        assert Growing(Of(stats, id));
      }
      MergedIsCumulative(front);
      forall i, c | 0 <= i < |front| && front[i].workerID == s.workerID ensures Get(front[i], c) <= Get(s, c) {
        OfHolds(front, i);
      }
      CumulativeNext(front, s);
      assert stats == front + [s];
    }
  }

  lemma NothingIsCumulative()
    ensures Cumulative([])
  {
  }

  lemma {:induction false} CountsGrow(sends: seq<Send>, i: nat, j: nat)
    requires i <= j <= |sends|
    ensures Flows(sends[..i]) <= Flows(sends[..j])
    ensures Barrage.Cycles(sends[..i]) <= Barrage.Cycles(sends[..j])
    ensures Sizes(sends[..i]) <= Sizes(sends[..j])
    decreases j
  {
    if i == j {
    } else {
      CountsGrow(sends, i, j - 1);
      assert sends[..j][..j - 1] == sends[..j - 1];
    }
  }

  ghost predicate Unwrapped(sends: seq<Send>) {
    Flows(sends) < WRAP64 && Barrage.Cycles(sends) < WRAP64 && Sizes(sends) < WRAP64
  }

  lemma ExactStat(id: int, sourceID: int, sends: seq<Send>, k: nat)
    requires Unwrapped(sends) && k <= |sends|
    ensures var front := sends[..k];
            StatAfter(id, sourceID, front)
            == WorkerStat(id, sourceID, Flows(front), Barrage.Cycles(front), Sizes(front))
  {
    hide Flows, Barrage.Cycles, Sizes;
    CountsGrow(sends, k, |sends|);
    assert sends[..|sends|] == sends;
  }

  /** What a worker reports grows, as long as its own 64-bit counters have not wrapped. */
  lemma ReportsGrow(id: int, sourceID: int, sends: seq<Send>, stats: seq<WorkerStat>)
    requires Reported(id, sourceID, sends, stats) && Unwrapped(sends)
    ensures Growing(stats)
  {
    hide Flows, Barrage.Cycles, Sizes, StatAfter, Unwrapped;
    forall i, j, c | 0 <= i < j < |stats| ensures Get(stats[i], c) <= Get(stats[j], c) {
      ExactStat(id, sourceID, sends, i + 1);
      ExactStat(id, sourceID, sends, j + 1);
      CountsGrow(sends, i + 1, j + 1);
    }
  }

  /** A worker's whole run, as far as its reports go. */
  datatype Source = Source(sourceID: int, sends: seq<Send>, reports: seq<WorkerStat>)

  /** The merged reports come from workers, each worker's in its own order; no worker's counters wrapped. */
  ghost predicate FromWorkers(stats: seq<WorkerStat>, workers: map<int, Source>) {
    && (forall i :: 0 <= i < |stats| ==> stats[i].workerID in workers)
    && forall id :: id in workers ==>
         var w := workers[id];
         && Reported(id, w.sourceID, w.sends, w.reports) && Of(stats, id) <= w.reports && Unwrapped(w.sends)
  }

  lemma {:induction false} OfStranger(stats: seq<WorkerStat>, id: int)
    requires forall i :: 0 <= i < |stats| ==> stats[i].workerID != id
    ensures Of(stats, id) == []
  {
    if stats == [] {
    } else {
      OfStranger(stats[..|stats| - 1], id);
    }
  }

  lemma WorkersAreCumulative(stats: seq<WorkerStat>, workers: map<int, Source>)
    requires FromWorkers(stats, workers)
    ensures Cumulative(stats)
  {
    hide Of, Reported, Unwrapped, Cumulative;
    forall id ensures Growing(Of(stats, id)) {
      if id in workers {
        var w := workers[id];
        ReportsGrow(id, w.sourceID, w.sends, w.reports);
      } else {
        OfStranger(stats, id);
      }
    }
    MergedIsCumulative(stats);
  }

  /**
   Whatever the number of workers and the order their reports arrive in, each counter's total never
   decreases from a snapshot to a later one, unless the sum over the workers passes 64 bits.
   */
  lemma TotalsNeverDecrease(stats: seq<WorkerStat>, workers: map<int, Source>, clock: seq<int>,
                            snapshots: seq<StatSnapshot>, i: nat, j: nat, c: Counter)
    requires FromWorkers(stats, workers) && AreSnapshots(stats, clock, snapshots) && i <= j < |snapshots|
    requires SumOver(MapAfter(stats[..j + 1]), c) < WRAP64
    ensures GetTotal(snapshots[i].totals, c) <= GetTotal(snapshots[j].totals, c)
  {
    hide FromWorkers, Cumulative, SumOver, MapAfter;
    WorkersAreCumulative(stats, workers);
    SumsGrow(stats, i + 1, j + 1, c);
    assert AreTotals(snapshots[i].totals, snapshots[i].workers);
    assert AreTotals(snapshots[j].totals, snapshots[j].workers);
  }
}
