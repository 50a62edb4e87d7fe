/**
 Replaying a database once: a reader walks the records in key order and hands them, refreshed if
 asked to, over a bounded channel to any number of workers.
 */
module Replay {
  import opened Wrappers
  import opened Bytes
  import opened FlowPackets
  import RecordPipeline
  import RecordStore

  const CAPACITY := 1024

  /** `b` is what may be sent for the stored payload `a`. */
  ghost predicate Emits(a: Payload, b: Payload, refresh: bool) {
    if refresh then exists now: U32 :: IsRefreshed(a, b, now) else b == a
  }

  ghost predicate Copies(stored: seq<Payload>, emitted: seq<Payload>, refresh: bool) {
    && |emitted| <= |stored|
    && forall i :: 0 <= i < |emitted| ==> Emits(stored[i], emitted[i], refresh)
  }

  /**
   The reader's pass. `cancelledAt` is the number of records read when the context is cancelled, at
   least the number of records if it never is. Only a record that cannot be refreshed stops the pass.
   */
  method DbReader(order: seq<RecordStore.Key>, entries: RecordStore.Entries, refresh: bool, clock: nat -> U32,
                  cancelledAt: nat)
    returns (emitted: seq<Payload>, err: Option<string>)
    requires RecordStore.Visits(order, entries)
    ensures Copies(RecordStore.ReadAll(order, entries), emitted, refresh)
    ensures err.None? ==> |emitted| == if cancelledAt < |order| then cancelledAt else |order|
    ensures err.Some? <==>
              && |emitted| < |order| && |emitted| < cancelledAt
              && forall b :: !Emits(entries[order[|emitted|]], b, refresh)
    ensures forall i :: 0 <= i < |emitted| ==>
              if refresh then Stamped(entries[order[i]], emitted[i], clock(i)) else emitted[i] == entries[order[i]]
  {
    hide IsRefreshed, Stamped;
    emitted := [];
    for i := 0 to |order|
      invariant |emitted| == i <= cancelledAt
      invariant Copies(RecordStore.ReadAll(order, entries), emitted, refresh)
      invariant forall k :: 0 <= k < i ==>
                  if refresh then Stamped(entries[order[k]], emitted[k], clock(k)) else emitted[k] == entries[order[k]]
    {
      if i == cancelledAt {
        return emitted, None;
      }
      var value := entries[order[i]];
      if refresh {
        var updated := UpdateTimestamp(value, clock(i));
        if updated.Err? {
          NeverRefreshed(value, clock(i));
          return emitted, Some(updated.error);
        }
        assert IsRefreshed(value, updated.value, clock(i));
        RefreshIsStamp(value, updated.value, clock(i));
        emitted := emitted + [updated.value];
      } else {
        emitted := emitted + [value];
      }
      assert Emits(value, emitted[i], refresh);
    }
    err := None;
  }

  /** Whether a payload can be refreshed does not depend on the time. */
  lemma NeverRefreshed(a: Payload, now: U32)
    requires forall b :: !IsRefreshed(a, b, now)
    ensures forall b :: !Emits(a, b, true)
  {
    forall b, t: U32 ensures !IsRefreshed(a, b, t) {
      if IsRefreshed(a, b, t) {
        var c := if NetflowVersion(a) == 9 then V9Properties.Refreshed(a, now) else V10Validator.Refreshed(a, now);
        assert IsRefreshed(a, c, now);
      }
    }
  }

  /** A stored flow packet can always be sent, and what is sent for it is a packet of the same protocol. */
  lemma FlowsEmit(a: Payload, refresh: bool)
    requires IsFlow(a)
    ensures CanEmit(a, refresh)
    ensures forall b :: Emits(a, b, refresh) ==> IsFlow(b) && SameProtocol(a, b)
  {
    hide IsNetFlow, IsIpfix, IsRefreshed;
    if refresh {
      RefreshKeepsFlow(a, 0);
      var c :| IsRefreshed(a, c, 0);
      assert Emits(a, c, refresh);
      forall b | Emits(a, b, refresh) ensures IsFlow(b) && SameProtocol(a, b) {
        var now: U32 :| IsRefreshed(a, b, now);
        RefreshKeepsFlow(a, now);
      }
    } else {
      assert Emits(a, a, refresh);
    }
  }

  ghost predicate CanEmit(a: Payload, refresh: bool) {
    exists b :: Emits(a, b, refresh)
  }

  /** Every record can be sent. */
  ghost predicate Readable(stored: seq<Payload>, refresh: bool) {
    forall i :: 0 <= i < |stored| ==> CanEmit(stored[i], refresh)
  }

  /** A database can be replayed as it is; to be refreshed it needs to hold flow packets, as recorded ones do. */
  lemma FlowsAreReadable(stored: seq<Payload>, refresh: bool)
    requires refresh ==> forall i :: 0 <= i < |stored| ==> IsFlow(stored[i])
    ensures Readable(stored, refresh)
  {
    hide IsFlow;
    forall i | 0 <= i < |stored| ensures CanEmit(stored[i], refresh) {
      if refresh {
        FlowsEmit(stored[i], refresh);
      } else {
        assert Emits(stored[i], stored[i], refresh);
      }
    }
  }

  /**
   Recording and then replaying is the identity: after any number of recorder runs, the reader emits
   what the database held before and then what the runs stored, in the order it arrived; on a new
   database with numbers left, everything that arrived.
   */
  method RecordThenReplay(entries: RecordStore.Entries, order: seq<RecordStore.Key>,
                          runs: seq<seq<RecordStore.Arrival>>, ghost next: nat, clock: nat -> U32)
    returns (emitted: seq<Payload>)
    requires RecordStore.Visits(order, entries) && RecordStore.FourByteKeys(entries) && RecordStore.Free(next, entries)
    ensures emitted == RecordStore.ReadAll(order, entries) + RecordStore.Logged(next, runs)
    ensures next + RecordStore.Lengths(runs) <= 0x1_0000_0000 ==>
              emitted == RecordStore.ReadAll(order, entries) + RecordStore.Concat(runs)
  {
    if next + RecordStore.Lengths(runs) <= 0x1_0000_0000 {
      RecordStore.NumbersSuffice(next, runs);
    }
    hide RecordStore.Visits, RecordStore.FourByteKeys;
    var after, longer, payloads := RecordStore.RecordRuns(entries, order, runs, next);
    var err;
    emitted, err := DbReader(longer, after, false, clock, |longer|);
    NothingFails(after, longer, emitted, err);
  }

  lemma NothingFails(entries: RecordStore.Entries, order: seq<RecordStore.Key>, emitted: seq<Payload>,
                     err: Option<string>)
    requires RecordStore.Visits(order, entries) && Copies(RecordStore.ReadAll(order, entries), emitted, false)
    requires err.None? ==> |emitted| == |order|
    requires err.Some? ==> |emitted| < |order| && forall b :: !Emits(entries[order[|emitted|]], b, false)
    ensures emitted == RecordStore.ReadAll(order, entries)
  {
    if err.Some? {
      var a := entries[order[|emitted|]];
      assert Emits(a, a, false);
      assert false;
    }
    assert forall i :: 0 <= i < |emitted| ==> Emits(RecordStore.ReadAll(order, entries)[i], emitted[i], false);
  }

  // ----- Reader and workers as concurrent steps -----

  datatype Job = Job(stored: seq<Payload>, refresh: bool)

  datatype Worker = Worker(hand: Option<Payload>, gone: bool)

  /** `emitted` and `taken` are histories: what the reader has read out, and what workers have received. */
  datatype State = State(
    emitted: seq<Payload>,
    hand: Option<Payload>,
    chan: seq<Payload>, closed: bool,
    taken: seq<Payload>,
    workers: seq<Worker>,
    sent: seq<Payload>,
    cancelled: bool)

  datatype Step =
    | Read(value: Payload)
    | Push
    | Finish
    | ReaderStops
    | ReaderFails
    | Take(w: nat)
    | Send(w: nat)
    | WorkerExits(w: nat)
    | WorkerStops(w: nat)
    | WorkerFails(w: nat)
    | Cancel

  ghost predicate Init(s: State) {
    && s == State([], None, [], false, [], s.workers, [], false)
    && forall w :: 0 <= w < |s.workers| ==> s.workers[w] == Worker(None, false)
  }

  ghost predicate Reading(job: Job, s: State) {
    !s.closed && s.hand.None? && |s.emitted| < |job.stored|
  }

  predicate Working(s: State, w: nat) {
    w < |s.workers| && !s.workers[w].gone
  }

  ghost predicate Next(job: Job, s: State, step: Step, t: State) {
    match step
    case Read(value) =>
      && Reading(job, s) && Emits(job.stored[|s.emitted|], value, job.refresh)
      && t == s.(emitted := s.emitted + [value], hand := Some(value))
    case Push =>
      && !s.closed && s.hand.Some? && |s.chan| < CAPACITY
      && t == s.(chan := s.chan + [s.hand.value], hand := None)
    case Finish =>
      !s.closed && s.hand.None? && |s.emitted| == |job.stored| && t == s.(closed := true)
    case ReaderStops => !s.closed && s.cancelled && t == s.(closed := true)
    case ReaderFails => !s.closed && s.hand.None? && t == s.(closed := true, cancelled := true)
    case Take(w) =>
      && Working(s, w) && s.workers[w].hand.None? && s.chan != []
      && t == s.(chan := s.chan[1..], taken := s.taken + [s.chan[0]],
                 workers := s.workers[w := Worker(Some(s.chan[0]), false)])
    case Send(w) =>
      && Working(s, w) && s.workers[w].hand.Some?
      && t == s.(sent := s.sent + [s.workers[w].hand.value], workers := s.workers[w := Worker(None, false)])
    case WorkerExits(w) =>
      && Working(s, w) && s.workers[w].hand.None? && s.closed && s.chan == []
      && t == s.(workers := s.workers[w := Worker(None, true)])
    case WorkerStops(w) =>
      && Working(s, w) && s.workers[w].hand.None? && s.cancelled
      && t == s.(workers := s.workers[w := Worker(None, true)])
    case WorkerFails(w) =>
      Working(s, w) && t == s.(workers := s.workers[w := Worker(s.workers[w].hand, true)], cancelled := true)
    case Cancel => !s.cancelled && t == s.(cancelled := true)
  }

  ghost predicate Run(job: Job, states: seq<State>, steps: seq<Step>) {
    && |states| == |steps| + 1 && Init(states[0])
    && forall i :: 0 <= i < |steps| ==> Next(job, states[i], steps[i], states[i + 1])
  }

  /** Every goroutine has returned. */
  ghost predicate Ended(s: State) {
    s.closed && forall w :: 0 <= w < |s.workers| ==> s.workers[w].gone
  }

  // ----- Nothing is lost or duplicated -----

  /** The payloads the workers hold. */
  function HandsOf(ws: seq<Worker>): multiset<Payload> {
    if ws == [] then multiset{} else HandsOf(ws[..|ws| - 1]) + multiset(Held(ws[|ws| - 1].hand))
  }

  lemma Regroup(a: multiset<Payload>, b: multiset<Payload>, h: multiset<Payload>, x: multiset<Payload>,
                l: multiset<Payload>)
    requires a + h == b + x
    ensures a + l + h == b + l + x
  {
    assert a + l + h == (a + h) + l;
  }

  lemma {:induction false} HandsUpdate(ws: seq<Worker>, w: nat, x: Worker)
    requires w < |ws|
    ensures HandsOf(ws[w := x]) + multiset(Held(ws[w].hand)) == HandsOf(ws) + multiset(Held(x.hand))
  {
    hide Held;
    var n := |ws| - 1;
    var was, now := multiset(Held(ws[w].hand)), multiset(Held(x.hand));
    if w == n {
      assert ws[w := x][..n] == ws[..n];
      assert HandsOf(ws[w := x]) == HandsOf(ws[..n]) + now;
      assert HandsOf(ws[..n]) + now + was == HandsOf(ws[..n]) + was + now;
    } else {
      assert ws[w := x][..n] == ws[..n][w := x];
      HandsUpdate(ws[..n], w, x);
      Regroup(HandsOf(ws[..n][w := x]), HandsOf(ws[..n]), was, now, multiset(Held(ws[n].hand)));
    }
  }

  /** What a worker's hand contributes, before and after. */
  lemma HandChanges(ws: seq<Worker>, w: nat, x: Worker)
    requires w < |ws|
    ensures x.hand == ws[w].hand ==> HandsOf(ws[w := x]) == HandsOf(ws)
    ensures x.hand.Some? && ws[w].hand.None? ==> HandsOf(ws[w := x]) == HandsOf(ws) + multiset([x.hand.value])
    ensures x.hand.None? && ws[w].hand.Some? ==> HandsOf(ws[w := x]) + multiset([ws[w].hand.value]) == HandsOf(ws)
  {
    hide HandsOf;
    HandsUpdate(ws, w, x);
    var a, b := HandsOf(ws[w := x]), HandsOf(ws);
    var none: seq<Payload> := [];
    assert a + multiset(none) == a && b + multiset(none) == b;
    if x.hand == ws[w].hand {
      var h := multiset(Held(x.hand));
      assert a == a + h - h && b == b + h - h;
    }
  }

  lemma {:induction false} NoHands(ws: seq<Worker>)
    requires forall w :: 0 <= w < |ws| ==> ws[w].hand.None?
    ensures HandsOf(ws) == multiset{}
  {
    if ws == [] {
    } else {
      NoHands(ws[..|ws| - 1]);
    }
  }

  /** What the workers received is what they sent and what they hold. */
  ghost predicate Accounted(s: State) {
    multiset(s.sent) + HandsOf(s.workers) == multiset(s.taken)
  }

  ghost predicate Kept(job: Job, s: State) {
    && Copies(job.stored, s.emitted, job.refresh)
    && s.taken + s.chan + Held(s.hand) == s.emitted
    && Accounted(s)
    && (|s.workers| == 1 ==> s.sent + Held(s.workers[0].hand) == s.taken)
    && |s.chan| <= CAPACITY
    && (!s.cancelled && s.closed ==> s.hand.None? && |s.emitted| == |job.stored|)
    && (!s.cancelled ==> forall w :: 0 <= w < |s.workers| && s.workers[w].gone ==>
          s.workers[w].hand.None? && s.closed && s.chan == [])
  }

  lemma InitKept(job: Job, s: State)
    requires Init(s)
    ensures Kept(job, s)
  {
    NoHands(s.workers);
  }

  lemma Taken(s: State, t: State)
    requires s.chan != [] && t.chan == s.chan[1..] && t.taken == s.taken + [s.chan[0]]
    ensures t.taken + t.chan == s.taken + s.chan
  {
    assert s.chan == [s.chan[0]] + t.chan;
  }

  lemma Added(a: multiset<Payload>, b: multiset<Payload>, c: multiset<Payload>, h: multiset<Payload>,
              d: multiset<Payload>)
    requires a + b == c && d == b + h
    ensures a + d == c + h
  {
    assert a + d == (a + b) + h;
  }

  lemma TakeAccounts(s: State, w: nat, t: State)
    requires Accounted(s) && w < |s.workers| && s.workers[w].hand.None? && s.chan != []
    requires t.taken == s.taken + [s.chan[0]] && t.sent == s.sent
    requires t.workers == s.workers[w := Worker(Some(s.chan[0]), false)]
    ensures Accounted(t)
  {
    hide HandsOf;
    var p := s.chan[0];
    HandChanges(s.workers, w, Worker(Some(p), false));
    Added(multiset(s.sent), HandsOf(s.workers), multiset(s.taken), multiset([p]), HandsOf(t.workers));
    assert multiset(t.taken) == multiset(s.taken) + multiset([p]);
  }

  lemma TakeKeeps(job: Job, s: State, w: nat, t: State)
    requires Kept(job, s) && Next(job, s, Take(w), t)
    ensures Kept(job, t)
  {
    hide Copies, Accounted;
    Taken(s, t);
    TakeAccounts(s, w, t);
  }

  lemma SendAccounts(s: State, w: nat, t: State)
    requires Accounted(s) && w < |s.workers| && s.workers[w].hand.Some?
    requires t.sent == s.sent + [s.workers[w].hand.value] && t.taken == s.taken
    requires t.workers == s.workers[w := Worker(None, false)]
    ensures Accounted(t)
  {
    hide HandsOf;
    var p := s.workers[w].hand.value;
    HandChanges(s.workers, w, Worker(None, false));
    Added(HandsOf(t.workers), multiset([p]), HandsOf(s.workers), multiset(s.sent), multiset([p]) + multiset(s.sent));
    assert multiset(t.sent) == multiset([p]) + multiset(s.sent);
  }

  lemma SendKeeps(job: Job, s: State, w: nat, t: State)
    requires Kept(job, s) && Next(job, s, Send(w), t)
    ensures Kept(job, t)
  {
    hide Copies, Accounted;
    SendAccounts(s, w, t);
  }

  lemma ReadKeeps(job: Job, s: State, value: Payload, t: State)
    requires Kept(job, s) && Next(job, s, Read(value), t)
    ensures Kept(job, t)
  {
    hide Emits, HandsOf;
    assert t.taken + t.chan + Held(t.hand) == s.taken + s.chan + Held(s.hand) + [value];
  }

  lemma GoneAccounts(s: State, w: nat, t: State)
    requires Accounted(s) && w < |s.workers| && t.sent == s.sent && t.taken == s.taken
    requires t.workers == s.workers[w := Worker(s.workers[w].hand, true)]
    ensures Accounted(t)
  {
    hide HandsOf;
    HandChanges(s.workers, w, Worker(s.workers[w].hand, true));
  }

  lemma WorkerGoneKeeps(job: Job, s: State, step: Step, t: State)
    requires Kept(job, s) && Next(job, s, step, t)
    requires step.WorkerExits? || step.WorkerStops? || step.WorkerFails?
    ensures Kept(job, t)
  {
    hide Copies, Accounted;
    GoneAccounts(s, step.w, t);
  }

  lemma SameAccounts(s: State, t: State)
    requires Accounted(s) && t.sent == s.sent && t.taken == s.taken && t.workers == s.workers
    ensures Accounted(t)
  {
  }

  lemma PushKeeps(job: Job, s: State, t: State)
    requires Kept(job, s) && Next(job, s, Push, t)
    ensures Kept(job, t)
  {
    hide Copies, Accounted;
    SameAccounts(s, t);
    assert t.taken + t.chan == s.taken + s.chan + Held(s.hand);
  }

  lemma OtherKeeps(job: Job, s: State, step: Step, t: State)
    requires Kept(job, s) && Next(job, s, step, t)
    requires step.Finish? || step.ReaderStops? || step.ReaderFails? || step.Cancel?
    ensures Kept(job, t)
  {
    hide Copies, Accounted;
    SameAccounts(s, t);
  }

  lemma StepKeeps(job: Job, s: State, step: Step, t: State)
    requires Kept(job, s) && Next(job, s, step, t)
    ensures Kept(job, t)
  {
    hide Kept, Next;
    match step
    case Read(value) => ReadKeeps(job, s, value, t);
    case Push => PushKeeps(job, s, t);
    case Take(w) => TakeKeeps(job, s, w, t);
    case Send(w) => SendKeeps(job, s, w, t);
    case WorkerExits(_) => WorkerGoneKeeps(job, s, step, t);
    case WorkerStops(_) => WorkerGoneKeeps(job, s, step, t);
    case WorkerFails(_) => WorkerGoneKeeps(job, s, step, t);
    case _ => OtherKeeps(job, s, step, t);
  }

  /**
   In every state of every run, cancelled or not: sent, in a worker's hands, queued and in the
   reader's hand together are exactly what was read out, which is what the first records emit.
   */
  lemma {:induction false} RunKeeps(job: Job, states: seq<State>, steps: seq<Step>, k: nat)
    requires Run(job, states, steps) && k < |states|
    ensures Kept(job, states[k]) && |states[k].workers| == |states[0].workers|
  {
    hide Kept;
    if k == 0 {
      InitKept(job, states[0]);
    } else {
      RunKeeps(job, states, steps, k - 1);
      StepKeeps(job, states[k - 1], steps[k - 1], states[k]);
    }
  }

  /**
   Exactly once: a run with a worker that ends without cancellation or failure has sent a copy of
   every record, once each; with one worker, in key order.
   */
  lemma ExactlyOnce(job: Job, states: seq<State>, steps: seq<Step>)
    requires Run(job, states, steps) && states[0].workers != []
    requires Ended(states[|steps|]) && !states[|steps|].cancelled
    ensures var s := states[|steps|];
            && |s.emitted| == |job.stored| && Copies(job.stored, s.emitted, job.refresh)
            && multiset(s.sent) == multiset(s.emitted)
            && (|s.workers| == 1 ==> s.sent == s.emitted)
            && (!job.refresh ==> multiset(s.sent) == multiset(job.stored))
  {
    RunKeeps(job, states, steps, |steps|);
    var s := states[|steps|];
    assert s.workers[0].gone;
    NoHands(s.workers);
    assert s.taken == s.emitted;
    assert !job.refresh ==> s.emitted == job.stored;
  }

  // ----- Recording, then replaying -----

  /** The job reads this database. */
  ghost predicate Reads(job: Job, entries: RecordStore.Entries) {
    forall order :: RecordStore.Visits(order, entries) ==> job.stored == RecordStore.ReadAll(order, entries)
  }

  /** Every database can be read by a job. */
  lemma ReadsIt(entries: RecordStore.Entries, refresh: bool) returns (job: Job)
    ensures Reads(job, entries) && job.refresh == refresh
  {
    hide RecordStore.Visits;
    var order, next := RecordStore.Openable(entries);
    HoldsKeys(order, entries);
    job := Job(RecordStore.ReadAll(order, entries), refresh);
    forall o | RecordStore.Visits(o, entries) ensures o == order {
      assert RecordStore.Free(next, entries);
    }
  }

  lemma HoldsKeys(order: seq<RecordStore.Key>, entries: RecordStore.Entries)
    requires RecordStore.Visits(order, entries)
    ensures forall k :: k in order ==> k in entries
  {
  }

  /**
   Every payload a recorder wrote, in any state of any run of it, survives the timestamp update, and
   what is sent for it is a packet of the same protocol.
   */
  lemma RecordedSurvives(entries: RecordStore.Entries, next: nat, recording: seq<RecordPipeline.State>,
                         writes: seq<RecordPipeline.Step>, k: nat, refresh: bool)
    requires RecordPipeline.Run(entries, next, recording, writes) && k < |recording|
    ensures Readable(recording[k].stored, refresh)
    ensures forall p, b :: p in recording[k].stored && Emits(p, b, refresh) ==> IsFlow(b) && SameProtocol(p, b)
  {
    hide RecordPipeline.Run, FlowsIn, IsFlow, SameProtocol, Emits, CanEmit;
    RecordPipeline.StoredIsPrefix(entries, next, recording, writes, k);
    var stored, received := recording[k].stored, recording[k].received;
    forall i | 0 <= i < |stored|
      ensures CanEmit(stored[i], refresh)
      ensures forall b :: Emits(stored[i], b, refresh) ==> IsFlow(b) && SameProtocol(stored[i], b)
    {
      FlowsAreFlows(received, i);
      FlowsEmit(stored[i], refresh);
    }
  }

  /** What a replay of the recorder's database reads. */
  lemma RecordedIsRead(entries: RecordStore.Entries, order: seq<RecordStore.Key>, next: nat,
                       recording: seq<RecordPipeline.State>, writes: seq<RecordPipeline.Step>, k: nat, job: Job)
    requires RecordPipeline.Run(entries, next, recording, writes) && k < |recording|
    requires RecordStore.Visits(order, entries) && RecordStore.FourByteKeys(entries) && Reads(job, recording[k].db)
    ensures job.stored == RecordStore.ReadAll(order, entries) + recording[k].stored
    ensures recording[k].stored <= FlowsIn(recording[k].received)
  {
    hide RecordPipeline.Run, FlowsIn, RecordStore.Ascending, RecordStore.FourByteKeys, RecordStore.Free;
    hide RecordStore.Keys, RecordStore.KeyOf;
    RecordPipeline.RunIsRead(entries, order, next, recording, writes, k);
  }

  /** So a database that could be replayed can still be replayed after any recorder, and is then never stuck. */
  lemma RecordedIsReadable(entries: RecordStore.Entries, order: seq<RecordStore.Key>, next: nat,
                           recording: seq<RecordPipeline.State>, writes: seq<RecordPipeline.Step>, k: nat, job: Job)
    requires RecordPipeline.Run(entries, next, recording, writes) && k < |recording|
    requires RecordStore.Visits(order, entries) && RecordStore.FourByteKeys(entries)
    requires Reads(job, recording[k].db) && Readable(RecordStore.ReadAll(order, entries), job.refresh)
    ensures Readable(job.stored, job.refresh)
  {
    hide RecordPipeline.Run, FlowsIn, CanEmit, Reads, RecordStore.Visits, RecordStore.FourByteKeys;
    RecordedIsRead(entries, order, next, recording, writes, k, job);
    RecordedSurvives(entries, next, recording, writes, k, job.refresh);
  }

  /**
   What a recorder wrote, in any state of any run of it, is sent exactly once by any number of
   workers, refreshed or not: the records there were before, then the first flow packets received.
   One worker sends them in that order.
   */
  lemma RecordedIsSent(entries: RecordStore.Entries, order: seq<RecordStore.Key>, next: nat,
                       recording: seq<RecordPipeline.State>, writes: seq<RecordPipeline.Step>, k: nat,
                       job: Job, states: seq<State>, steps: seq<Step>)
    requires RecordPipeline.Run(entries, next, recording, writes) && k < |recording|
    requires RecordStore.Visits(order, entries) && RecordStore.FourByteKeys(entries)
    requires Reads(job, recording[k].db) && Run(job, states, steps) && states[0].workers != []
    requires Ended(states[|steps|]) && !states[|steps|].cancelled
    ensures var s, stored := states[|steps|], recording[k].stored;
            var all := RecordStore.ReadAll(order, entries) + stored;
            && stored <= FlowsIn(recording[k].received)
            && |s.emitted| == |all| && Copies(all, s.emitted, job.refresh)
            && multiset(s.sent) == multiset(s.emitted)
            && (|s.workers| == 1 ==> s.sent == s.emitted)
            && (!job.refresh ==> s.emitted == all)
  {
    var s := states[|steps|];
    hide RecordPipeline.Run, Run, Ended, FlowsIn, Copies, Reads, RecordStore.Visits, RecordStore.FourByteKeys;
    RecordedIsRead(entries, order, next, recording, writes, k, job);
    ExactlyOnce(job, states, steps);
    CopiesAsIs(job, s.emitted);
  }

  lemma CopiesAsIs(job: Job, emitted: seq<Payload>)
    requires Copies(job.stored, emitted, job.refresh) && |emitted| == |job.stored|
    ensures !job.refresh ==> emitted == job.stored
  {
    assert !job.refresh ==> forall i :: 0 <= i < |emitted| ==> Emits(job.stored[i], emitted[i], false);
  }

  /** Without a refresh one worker sends exactly the payloads, in the order they were received. */
  lemma RecordedIsSentInOrder(entries: RecordStore.Entries, order: seq<RecordStore.Key>, next: nat,
                              recording: seq<RecordPipeline.State>, writes: seq<RecordPipeline.Step>, k: nat,
                              job: Job, states: seq<State>, steps: seq<Step>)
    requires RecordPipeline.Run(entries, next, recording, writes) && k < |recording|
    requires RecordStore.Visits(order, entries) && RecordStore.FourByteKeys(entries)
    requires Reads(job, recording[k].db) && !job.refresh && Run(job, states, steps) && |states[0].workers| == 1
    requires Ended(states[|steps|]) && !states[|steps|].cancelled
    ensures states[|steps|].sent == RecordStore.ReadAll(order, entries) + recording[k].stored
  {
    hide RecordPipeline.Run, Ended, FlowsIn, Kept;
    RunKeeps(job, states, steps, |steps|);
    RecordedIsSent(entries, order, next, recording, writes, k, job, states, steps);
  }

  // ----- Every run ends -----

  function Busy(ws: seq<Worker>): nat {
    if ws == [] then 0
    else
      var x := ws[|ws| - 1];
      Busy(ws[..|ws| - 1]) + (if x.gone then 0 else if x.hand.Some? then 2 else 1)
  }

  lemma {:induction false} BusyUpdate(ws: seq<Worker>, w: nat, x: Worker)
    requires w < |ws|
    ensures Busy(ws[w := x]) == Busy(ws) + Busy([x]) - Busy([ws[w]])
  {
    var n := |ws| - 1;
    if w == n {
      assert ws[w := x][..n] == ws[..n];
    } else {
      assert ws[w := x][..n] == ws[..n][w := x];
      BusyUpdate(ws[..n], w, x);
    }
  }

  lemma {:induction false} BusyAtFirst(ws: seq<Worker>)
    requires forall w :: 0 <= w < |ws| ==> ws[w] == Worker(None, false)
    ensures Busy(ws) == |ws|
  {
    if ws == [] {
    } else {
      BusyAtFirst(ws[..|ws| - 1]);
    }
  }

  /** What is still to do; no step leaves it as it is. */
  function Remaining(job: Job, s: State): int {
    4 * (|job.stored| - |s.emitted|) + 3 * |Held(s.hand)| + 2 * |s.chan| + Busy(s.workers)
    + (if s.closed then 0 else 1) + (if s.cancelled then 0 else 1)
  }

  lemma StepRemains(job: Job, s: State, step: Step, t: State)
    requires Next(job, s, step, t)
    ensures Remaining(job, t) < Remaining(job, s)
  {
    hide Emits;
    if step.Take? || step.Send? || step.WorkerExits? || step.WorkerStops? || step.WorkerFails? {
      BusyUpdate(s.workers, step.w, t.workers[step.w]);
    }
  }

  lemma {:induction false} RunRemains(job: Job, states: seq<State>, steps: seq<Step>, k: nat)
    requires Run(job, states, steps) && k < |states|
    ensures k + Remaining(job, states[k]) <= Remaining(job, states[0])
  {
    hide Remaining, Next;
    if k == 0 {
    } else {
      RunRemains(job, states, steps, k - 1);
      assert Next(job, states[k - 1], steps[k - 1], states[k]);
      StepRemains(job, states[k - 1], steps[k - 1], states[k]);
    }
  }

  /** No run is longer than four steps a record, one a worker, one to close and one to cancel. */
  lemma RunsEnd(job: Job, states: seq<State>, steps: seq<Step>)
    requires Run(job, states, steps)
    ensures |steps| <= 4 * |job.stored| + |states[0].workers| + 2
  {
    RunRemains(job, states, steps, |steps|);
    RunKeeps(job, states, steps, |steps|);
    BusyAtFirst(states[0].workers);
  }

  /** A step that neither fails nor cancels. */
  predicate Proper(step: Step) {
    !(step.Cancel? || step.WorkerFails? || step.ReaderFails?)
  }

  lemma WorkerProgress(job: Job, s: State, w: nat)
    requires Kept(job, s) && Working(s, w)
    requires s.workers[w].hand.Some? || s.chan != [] || s.closed
    ensures exists step, t :: Proper(step) && Next(job, s, step, t)
  {
    hide Emits, HandsOf, Copies;
    if s.workers[w].hand.Some? {
      var t := s.(sent := s.sent + [s.workers[w].hand.value], workers := s.workers[w := Worker(None, false)]);
      assert Next(job, s, Send(w), t);
    } else if s.chan != [] {
      var t := s.(chan := s.chan[1..], taken := s.taken + [s.chan[0]],
                  workers := s.workers[w := Worker(Some(s.chan[0]), false)]);
      assert Next(job, s, Take(w), t);
    } else {
      assert Next(job, s, WorkerExits(w), s.(workers := s.workers[w := Worker(None, true)]));
    }
  }

  lemma ReaderProgress(job: Job, s: State)
    requires Kept(job, s) && !s.closed && (s.hand.None? || |s.chan| < CAPACITY)
    requires s.hand.None? && |s.emitted| < |job.stored| ==> CanEmit(job.stored[|s.emitted|], job.refresh)
    ensures exists step, t :: Proper(step) && Next(job, s, step, t)
  {
    hide Emits, HandsOf;
    if s.hand.Some? {
      assert Next(job, s, Push, s.(chan := s.chan + [s.hand.value], hand := None));
    } else if |s.emitted| == |job.stored| {
      assert Next(job, s, Finish, s.(closed := true));
    } else {
      var b :| Emits(job.stored[|s.emitted|], b, job.refresh);
      assert Next(job, s, Read(b), s.(emitted := s.emitted + [b], hand := Some(b)));
    }
  }

  /**
   No deadlock: replaying a readable database with at least one worker, until every goroutine has
   returned some goroutine can go on without a failure. With RunsEnd, every such run ends by itself.
   */
  lemma Progress(job: Job, states: seq<State>, steps: seq<Step>)
    requires Run(job, states, steps) && states[0].workers != []
    requires Readable(job.stored, job.refresh)
    requires !states[|steps|].cancelled && !Ended(states[|steps|])
    ensures exists step, t :: Proper(step) && Next(job, states[|steps|], step, t)
  {
    hide Emits, HandsOf, Copies, Next;
    var s := states[|steps|];
    RunKeeps(job, states, steps, |steps|);
    if s.closed {
      var w :| 0 <= w < |s.workers| && !s.workers[w].gone;
      WorkerProgress(job, s, w);
    } else if s.hand.Some? && |s.chan| == CAPACITY {
      assert !s.workers[0].gone;
      WorkerProgress(job, s, 0);
    } else {
      ReaderProgress(job, s);
    }
  }

  lemma ProperKeeps(job: Job, s: State, step: Step, t: State)
    requires Next(job, s, step, t) && Proper(step) && !s.cancelled
    ensures !t.cancelled && |t.workers| == |s.workers|
  {
    hide Emits;
  }

  lemma RemainingIsNat(job: Job, s: State)
    requires Kept(job, s)
    ensures Remaining(job, s) >= 0
  {
    hide Emits, HandsOf, Busy;
  }

  /** An undisturbed run can go on until every goroutine has returned. */
  lemma {:induction false} Completes(job: Job, states: seq<State>, steps: seq<Step>)
    returns (more: seq<State>, longer: seq<Step>)
    requires Run(job, states, steps) && states[0].workers != [] && Readable(job.stored, job.refresh)
    requires !states[|steps|].cancelled
    ensures Run(job, more, longer) && states <= more && steps <= longer
    ensures Ended(more[|longer|]) && !more[|longer|].cancelled
    decreases Remaining(job, states[|steps|])
  {
    hide Next, Kept, Remaining, Readable;
    var s := states[|steps|];
    if Ended(s) {
      more, longer := states, steps;
    } else {
      RunKeeps(job, states, steps, |steps|);
      RemainingIsNat(job, s);
      Progress(job, states, steps);
      var step, t :| Proper(step) && Next(job, s, step, t);
      ProperKeeps(job, s, step, t);
      StepRemains(job, s, step, t);
      StepKeeps(job, s, step, t);
      RemainingIsNat(job, t);
      RunNext(job, states, steps, step, t);
      more, longer := Completes(job, states + [t], steps + [step]);
    }
  }

  /** For any readable database and any number of workers but none there is a run that sends every record once. */
  lemma Sends(job: Job, workers: nat) returns (states: seq<State>, steps: seq<Step>)
    requires Readable(job.stored, job.refresh) && workers > 0
    ensures Run(job, states, steps) && |states[0].workers| == workers
    ensures var s := states[|steps|];
            && Ended(s) && !s.cancelled
            && |s.emitted| == |job.stored| && Copies(job.stored, s.emitted, job.refresh)
            && multiset(s.sent) == multiset(s.emitted)
  {
    hide Next, Ended, Readable, Copies;
    var start := State([], None, [], false, [], seq(workers, _ => Worker(None, false)), [], false);
    states, steps := Completes(job, [start], []);
    ExactlyOnce(job, states, steps);
  }

  lemma Stops(job: Job, s: State) returns (step: Step, t: State)
    requires s.cancelled && !Ended(s)
    ensures Next(job, s, step, t) && t.cancelled
  {
    if !s.closed {
      step, t := ReaderStops, s.(closed := true);
    } else {
      var w :| 0 <= w < |s.workers| && !s.workers[w].gone;
      var hand := s.workers[w].hand;
      if hand.Some? {
        step, t := Send(w), s.(sent := s.sent + [hand.value], workers := s.workers[w := Worker(None, false)]);
      } else {
        step, t := WorkerStops(w), s.(workers := s.workers[w := Worker(None, true)]);
      }
    }
  }

  /** Any run can be cancelled, and then every goroutine returns. */
  lemma {:induction false} Cancels(job: Job, states: seq<State>, steps: seq<Step>)
    returns (more: seq<State>, longer: seq<Step>)
    requires Run(job, states, steps)
    ensures Run(job, more, longer) && states <= more && steps <= longer
    ensures more[|longer|].cancelled && Ended(more[|longer|])
    decreases Remaining(job, states[|steps|])
  {
    hide Next, Kept, Remaining, Ended;
    var s := states[|steps|];
    if s.cancelled && Ended(s) {
      more, longer := states, steps;
    } else {
      RunKeeps(job, states, steps, |steps|);
      RemainingIsNat(job, s);
      var step, t;
      if s.cancelled {
        step, t := Stops(job, s);
      } else {
        step, t := Cancel, s.(cancelled := true);
        CancelIsNext(job, s, t);
      }
      StepRemains(job, s, step, t);
      StepKeeps(job, s, step, t);
      RemainingIsNat(job, t);
      RunNext(job, states, steps, step, t);
      more, longer := Cancels(job, states + [t], steps + [step]);
    }
  }

  lemma CancelIsNext(job: Job, s: State, t: State)
    requires !s.cancelled && t == s.(cancelled := true)
    ensures Next(job, s, Cancel, t)
  {
  }

  /** A send or a read may fail at any time; it ends its goroutine and cancels the rest. */
  lemma MayFail(job: Job, s: State, w: nat)
    ensures !s.closed && s.hand.None? ==> exists t :: Next(job, s, ReaderFails, t) && t.cancelled && t.closed
    ensures w < |s.workers| && !s.workers[w].gone ==>
              exists t :: Next(job, s, WorkerFails(w), t) && t.cancelled && t.workers[w].gone && t.sent == s.sent
  {
    if !s.closed && s.hand.None? {
      assert Next(job, s, ReaderFails, s.(closed := true, cancelled := true));
    }
    if w < |s.workers| && !s.workers[w].gone {
      var gone := Worker(s.workers[w].hand, true);
      assert Next(job, s, WorkerFails(w), s.(workers := s.workers[w := gone], cancelled := true));
    }
  }

  /** Without workers nothing is sent, and the reader is stuck unless the channel holds the whole database. */
  lemma {:induction false} NoWorkers(job: Job, states: seq<State>, steps: seq<Step>, k: nat)
    requires Run(job, states, steps) && k < |states| && states[0].workers == []
    ensures states[k].sent == [] && states[k].taken == []
    ensures Ended(states[k]) && !states[k].cancelled ==> |job.stored| <= 1024
  {
    hide Emits;
    RunKeeps(job, states, steps, k);
    if k == 0 {
    } else {
      NoWorkers(job, states, steps, k - 1);
      RunKeeps(job, states, steps, k - 1);
      assert Next(job, states[k - 1], steps[k - 1], states[k]);
    }
  }

  lemma RunNext(job: Job, states: seq<State>, steps: seq<Step>, step: Step, t: State)
    requires Run(job, states, steps) && Next(job, states[|steps|], step, t)
    ensures Run(job, states + [t], steps + [step])
  {
    hide Next;
    var more, longer := states + [t], steps + [step];
    forall i | 0 <= i < |longer| ensures Next(job, more[i], longer[i], more[i + 1]) {
      if i < |steps| {
        assert more[i] == states[i] && more[i + 1] == states[i + 1];
      } else {
        assert more[i] == states[|steps|] && more[i + 1] == t;
      }
    }
  }

  /** The state after n records were read and queued, with no worker to take them. */
  ghost predicate Queued(s: State, n: nat) {
    s == State(s.emitted, None, s.emitted, false, [], [], [], false) && |s.emitted| == n
  }

  lemma {:induction false} QueueUp(job: Job, n: nat) returns (states: seq<State>, steps: seq<Step>)
    requires Readable(job.stored, job.refresh) && n <= |job.stored| && n <= CAPACITY
    ensures Run(job, states, steps) && states[0].workers == [] && Queued(states[|steps|], n)
  {
    if n == 0 {
      states, steps := [State([], None, [], false, [], [], [], false)], [];
    } else {
      states, steps := QueueUp(job, n - 1);
      hide Emits, Run;
      var s := states[|steps|];
      assert CanEmit(job.stored[n - 1], job.refresh);
      var b :| Emits(job.stored[n - 1], b, job.refresh);
      var held := s.(emitted := s.emitted + [b], hand := Some(b));
      RunNext(job, states, steps, Read(b), held);
      var queued := held.(chan := held.chan + [b], hand := None);
      RunNext(job, states + [held], steps + [Read(b)], Push, queued);
      states, steps := states + [held] + [queued], steps + [Read(b)] + [Push];
    }
  }

  /** Some run without workers ends without cancellation or failure. */
  ghost predicate EndsAlone(job: Job) {
    exists states: seq<State>, steps: seq<Step> ::
      Run(job, states, steps) && states[0].workers == [] && Ended(states[|steps|]) && !states[|steps|].cancelled
  }

  /** Without workers a readable database can be read to its end exactly when it fits the channel. */
  lemma NoWorkersEnd(job: Job)
    requires Readable(job.stored, job.refresh)
    ensures EndsAlone(job) <==> |job.stored| <= 1024
  {
    if EndsAlone(job) {
      var states: seq<State>, steps: seq<Step> :|
        Run(job, states, steps) && states[0].workers == [] && Ended(states[|steps|]) && !states[|steps|].cancelled;
      NoWorkers(job, states, steps, |steps|);
    }
    if |job.stored| <= CAPACITY {
      var states, steps := QueueUp(job, |job.stored|);
      var s := states[|steps|];
      var t := s.(closed := true);
      RunNext(job, states, steps, Finish, t);
      assert (states + [t])[0] == states[0] && (states + [t])[|steps + [Finish]|] == t;
    }
  }
}
