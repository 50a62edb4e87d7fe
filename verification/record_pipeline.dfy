/**
 The recorder as concurrent steps: a listener, a parser and a database writer joined by two
 bounded channels, on a database that may hold records already. A goroutine that stops keeps what
 it holds, so nothing leaves the account.
 */
module RecordPipeline {
  import opened Wrappers
  import opened Bytes
  import opened FlowPackets
  import opened Store = RecordStore

  const CAPACITY := 1024

  /** `stored` is a history: what this recorder wrote. */
  datatype State = State(
    received: seq<Payload>,
    listenerHand: Option<Payload>, listenerDone: bool,
    parseChan: seq<Payload>,
    parserHand: Option<Payload>, parserDone: bool,
    dataChan: seq<Payload>,
    writerHand: Option<Payload>, writerDone: bool,
    db: Entries, nextID: nat, stored: seq<Payload>,
    validCount: nat, invalidCount: nat,
    cancelled: bool)

  datatype Step =
    | Receive(payload: Payload)
    | ListenerSends
    | ParserTakes
    | ParserSends
    | WriterTakes
    | WriterStores
    | WriterFails
    | WriterRefuses
    | ListenerFails
    | Cancel
    | ListenerStops
    | ParserStops
    | WriterStops

  /** The writer opens the database and finds its first free number. */
  ghost predicate Init(entries: Entries, next: nat, s: State) {
    && Free(next, entries)
    && s == State([], None, false, [], None, false, [], None, false, entries, next, [], 0, 0, false)
  }

  ghost predicate Next(s: State, step: Step, t: State) {
    match step
    case Receive(payload) =>
      && !s.listenerDone && s.listenerHand.None?
      && t == s.(received := s.received + [payload], listenerHand := Some(payload))
    case ListenerSends =>
      && !s.listenerDone && s.listenerHand.Some? && |s.parseChan| < CAPACITY
      && t == s.(parseChan := s.parseChan + [s.listenerHand.value], listenerHand := None)
    case ParserTakes =>
      && !s.parserDone && s.parserHand.None? && s.parseChan != []
      && var taken := s.(parseChan := s.parseChan[1..]);
         if IsFlow(s.parseChan[0]) then
           t == taken.(parserHand := Some(s.parseChan[0]), validCount := s.validCount + 1)
         else
           t == taken.(invalidCount := s.invalidCount + 1)
    case ParserSends =>
      && !s.parserDone && s.parserHand.Some? && |s.dataChan| < CAPACITY
      && t == s.(dataChan := s.dataChan + [s.parserHand.value], parserHand := None)
    case WriterTakes =>
      && !s.writerDone && s.writerHand.None? && s.dataChan != [] && s.nextID <= MAX_U32
      && t == s.(writerHand := Some(s.dataChan[0]), dataChan := s.dataChan[1..])
    case WriterStores =>
      && !s.writerDone && s.writerHand.Some?
      && var written := s.(db := s.db[KeyOf(s.nextID) := s.writerHand.value], nextID := s.nextID + 1,
                           stored := s.stored + [s.writerHand.value], writerHand := None);
         if s.nextID == MAX_U32 then t == written.(writerDone := true, cancelled := true) else t == written
    case WriterFails =>
      !s.writerDone && s.writerHand.Some? && t == s.(writerDone := true, cancelled := true)
    // No number is left in the database that was opened.
    case WriterRefuses =>
      && !s.writerDone && s.writerHand.None? && s.nextID > MAX_U32
      && t == s.(writerDone := true, cancelled := true)
    case ListenerFails =>
      !s.listenerDone && s.listenerHand.None? && t == s.(listenerDone := true, cancelled := true)
    case Cancel => !s.cancelled && t == s.(cancelled := true)
    case ListenerStops => !s.listenerDone && s.cancelled && t == s.(listenerDone := true)
    case ParserStops => !s.parserDone && s.cancelled && t == s.(parserDone := true)
    case WriterStops => !s.writerDone && s.cancelled && s.writerHand.None? && t == s.(writerDone := true)
  }

  /** A run on a database: states joined by steps. */
  ghost predicate Run(entries: Entries, next: nat, states: seq<State>, steps: seq<Step>) {
    && |states| == |steps| + 1 && Init(entries, next, states[0])
    && forall i :: 0 <= i < |steps| ==> Next(states[i], steps[i], states[i + 1])
  }

  /** Payloads past the parser, oldest first. */
  function Parsed(s: State): seq<Payload> {
    s.stored + Held(s.writerHand) + s.dataChan + Held(s.parserHand)
  }

  /** Payloads before the parser, oldest first. */
  function Waiting(s: State): seq<Payload> {
    s.parseChan + Held(s.listenerHand)
  }

  ghost predicate Conserved(s: State) {
    && Parsed(s) + FlowsIn(Waiting(s)) == FlowsIn(s.received)
    && s.validCount == |Parsed(s)|
    && s.validCount + s.invalidCount + |Waiting(s)| == |s.received|
    && |s.parseChan| <= CAPACITY && |s.dataChan| <= CAPACITY
  }

  lemma ReceiveKeeps(s: State, t: State, p: Payload)
    requires Conserved(s) && Next(s, Receive(p), t)
    ensures Conserved(t)
  {
    hide FlowsIn, IsFlow;
    FlowsConcat(s.received, [p]);
    FlowsConcat(Waiting(s), [p]);
    assert Waiting(t) == Waiting(s) + [p] && Parsed(t) == Parsed(s);
    assert Parsed(s) + (FlowsIn(Waiting(s)) + FlowsIn([p])) == Parsed(s) + FlowsIn(Waiting(s)) + FlowsIn([p]);
  }

  lemma ParserTakesKeeps(s: State, t: State)
    requires Conserved(s) && Next(s, ParserTakes, t)
    ensures Conserved(t)
  {
    hide FlowsIn, IsFlow;
    var p := s.parseChan[0];
    assert Waiting(s) == [p] + Waiting(t);
    FlowsConcat([p], Waiting(t));
    FlowsOne(p);
    assert Parsed(t) == Parsed(s) + FlowsIn([p]);
    assert Parsed(s) + (FlowsIn([p]) + FlowsIn(Waiting(t))) == Parsed(s) + FlowsIn([p]) + FlowsIn(Waiting(t));
  }

  /** A payload handed on stays in its place. */
  lemma MoveKeeps(s: State, step: Step, t: State)
    requires Conserved(s) && Next(s, step, t)
    requires step.ListenerSends? || step.ParserSends? || step.WriterTakes? || step.WriterStores?
    ensures Conserved(t)
  {
    hide FlowsIn, IsFlow, KeyOf;
    if step.ListenerSends? {
      assert Waiting(t) == Waiting(s);
    } else {
      assert Parsed(t) == Parsed(s);
    }
  }

  lemma StopKeeps(s: State, step: Step, t: State)
    requires Conserved(s) && Next(s, step, t)
    requires step.WriterFails? || step.WriterRefuses? || step.ListenerFails? || step.Cancel?
             || step.ListenerStops? || step.ParserStops? || step.WriterStops?
    ensures Conserved(t)
  {
    hide FlowsIn, IsFlow, KeyOf;
    assert Parsed(t) == Parsed(s) && Waiting(t) == Waiting(s);
  }

  /** Every step, of any goroutine, keeps the account. */
  lemma StepKeeps(s: State, step: Step, t: State)
    requires Conserved(s) && Next(s, step, t)
    ensures Conserved(t)
  {
    hide Conserved, Next;
    match step
    case Receive(p) => ReceiveKeeps(s, t, p);
    case ParserTakes => ParserTakesKeeps(s, t);
    case ListenerSends => MoveKeeps(s, step, t);
    case ParserSends => MoveKeeps(s, step, t);
    case WriterTakes => MoveKeeps(s, step, t);
    case WriterStores => MoveKeeps(s, step, t);
    case _ => StopKeeps(s, step, t);
  }

  lemma NoFlows()
    ensures FlowsIn([]) == []
  {
  }

  lemma InitConserves(entries: Entries, next: nat, s: State)
    requires Init(entries, next, s)
    ensures Conserved(s)
  {
    hide Free;
    NoFlows();
  }

  /**
   In every state of every run, whatever was cancelled or failed on the way: what is stored, then
   what is on its way in order, is exactly the flow packets received, none lost or duplicated; the
   counters agree with it; and both channels stay within their capacity.
   */
  lemma {:induction false} RunConserves(entries: Entries, next: nat, states: seq<State>, steps: seq<Step>, k: nat)
    requires Run(entries, next, states, steps) && k < |states|
    ensures Conserved(states[k]) && |states[k].parseChan| <= 1024 && |states[k].dataChan| <= 1024
  {
    hide Next, Conserved, Free;
    if k == 0 {
      InitConserves(entries, next, states[0]);
    } else {
      RunConserves(entries, next, states, steps, k - 1);
      assert Next(states[k - 1], steps[k - 1], states[k]);
      StepKeeps(states[k - 1], steps[k - 1], states[k]);
    }
    WithinCapacity(states[k]);
  }

  lemma WithinCapacity(s: State)
    requires Conserved(s)
    ensures |s.parseChan| <= 1024 && |s.dataChan| <= 1024
  {
    hide FlowsIn;
  }

  /** Putting a payload into a channel waits exactly while it holds 1024. */
  lemma SendsWait(s: State)
    ensures (exists t :: Next(s, ListenerSends, t)) <==>
              !s.listenerDone && s.listenerHand.Some? && |s.parseChan| < 1024
    ensures (exists t :: Next(s, ParserSends, t)) <==> !s.parserDone && s.parserHand.Some? && |s.dataChan| < 1024
  {
    if s.listenerHand.Some? && !s.listenerDone && |s.parseChan| < 1024 {
      assert Next(s, ListenerSends, s.(parseChan := s.parseChan + [s.listenerHand.value], listenerHand := None));
    }
    if s.parserHand.Some? && !s.parserDone && |s.dataChan| < 1024 {
      assert Next(s, ParserSends, s.(dataChan := s.dataChan + [s.parserHand.value], parserHand := None));
    }
  }

  /** So the stored payloads are the first flow packets received, in order. */
  lemma StoredIsPrefix(entries: Entries, next: nat, states: seq<State>, steps: seq<Step>, k: nat)
    requires Run(entries, next, states, steps) && k < |states|
    ensures states[k].stored <= FlowsIn(states[k].received)
    ensures Waiting(states[k]) == [] && Parsed(states[k]) == states[k].stored ==>
              states[k].stored == FlowsIn(states[k].received)
  {
    hide FlowsIn, Run;
    NoFlows();
    RunConserves(entries, next, states, steps, k);
  }

  // ----- The database -----

  /** The database holds what it held and what was stored, under consecutive keys, as long as there are any. */
  ghost predicate InDatabase(entries: Entries, next: nat, s: State) {
    && s.nextID == next + |s.stored| <= MAX_U32 + 1
    && s.db == Append(entries, next, s.stored)
    && (s.writerHand.Some? && !s.writerDone ==> s.nextID <= MAX_U32)
    && (s.nextID > MAX_U32 && s.stored != [] ==> s.writerDone && s.cancelled)
  }

  lemma StepStores(entries: Entries, next: nat, s: State, step: Step, t: State)
    requires InDatabase(entries, next, s) && Next(s, step, t)
    ensures InDatabase(entries, next, t)
  {
    hide Append, KeyOf, IsFlow;
    if step.WriterStores? {
      AppendNext(entries, next, s.stored, s.writerHand.value);
    }
  }

  lemma {:induction false} RunStores(entries: Entries, next: nat, states: seq<State>, steps: seq<Step>, k: nat)
    requires Run(entries, next, states, steps) && k < |states|
    ensures InDatabase(entries, next, states[k])
  {
    hide Next, Append, Above;
    if k == 0 {
      AppendNone(entries, next);
    } else {
      RunStores(entries, next, states, steps, k - 1);
      assert Next(states[k - 1], steps[k - 1], states[k]);
      StepStores(entries, next, states[k - 1], steps[k - 1], states[k]);
    }
  }

  lemma RunStarts(entries: Entries, next: nat, states: seq<State>, steps: seq<Step>)
    requires Run(entries, next, states, steps)
    ensures Free(next, entries)
  {
  }

  lemma FreeIsAbove(entries: Entries, next: nat)
    requires Free(next, entries)
    ensures Above(next, entries)
  {
  }

  /**
   End to end: in every state of every run on a database of 4-byte keys, reading the database in key
   order gives what it held before and then the first flow packets received, in order; the next
   recorder finds the number after the last one written; and a writer that used number 2^32 - 1 has
   stopped with an error.
   */
  lemma RunIsRead(entries: Entries, order: seq<Key>, next: nat, states: seq<State>, steps: seq<Step>, k: nat)
    requires Run(entries, next, states, steps) && k < |states|
    requires Visits(order, entries) && FourByteKeys(entries)
    ensures var s := states[k];
            var longer := order + Keys(next, |s.stored|);
            && Visits(longer, s.db) && FourByteKeys(s.db) && Free(s.nextID, s.db)
            && ReadAll(longer, s.db) == ReadAll(order, entries) + s.stored
            && s.stored <= FlowsIn(s.received)
            && (KeyOf(MAX_U32) in s.db && s.stored != [] ==> s.writerDone && s.cancelled)
  {
    hide Run, Append, FlowsIn, KeyOf, Keys, FourByteKeys, Visits, ReadAll, Free;
    RunStarts(entries, next, states, steps);
    FreeIsAbove(entries, next);
    RunStores(entries, next, states, steps, k);
    StoredIsPrefix(entries, next, states, steps, k);
    var s := states[k];
    AppendIsRead(entries, order, next, s.stored);
    FreeAfter(entries, next, s.stored);
    ExhaustedIsFull(s.nextID, s.db);
  }
  // ----- Every payload received is stored in the end -----

  /** What is still to do; a payload received adds to it, and every other step takes from it. */
  function Remaining(s: State): nat {
    5 * |Held(s.listenerHand)| + 4 * |s.parseChan| + 3 * |Held(s.parserHand)| + 2 * |s.dataChan| + |Held(s.writerHand)|
    + (if s.listenerDone then 0 else 1) + (if s.parserDone then 0 else 1) + (if s.writerDone then 0 else 1)
    + (if s.cancelled then 0 else 1)
  }

  lemma StepRemains(s: State, step: Step, t: State)
    requires Next(s, step, t)
    ensures Remaining(t) < Remaining(s) + 6 * (|t.received| - |s.received|)
  {
    hide Next, Remaining;
    if step.Receive? || step.ListenerSends? || step.ParserTakes? || step.ParserSends? {
      FrontRemains(s, step, t);
    } else {
      WriterRemains(s, step, t);
    }
  }

  lemma FrontRemains(s: State, step: Step, t: State)
    requires Next(s, step, t)
    requires step.Receive? || step.ListenerSends? || step.ParserTakes? || step.ParserSends?
    ensures Remaining(t) < Remaining(s) + 6 * (|t.received| - |s.received|)
  {
    hide IsFlow, KeyOf;
  }

  lemma WriterRemains(s: State, step: Step, t: State)
    requires Next(s, step, t)
    requires !(step.Receive? || step.ListenerSends? || step.ParserTakes? || step.ParserSends?)
    ensures Remaining(t) < Remaining(s) && t.received == s.received
  {
    hide IsFlow, KeyOf;
  }

  lemma {:induction false} RunRemains(entries: Entries, next: nat, states: seq<State>, steps: seq<Step>, k: nat)
    requires Run(entries, next, states, steps) && k < |states|
    ensures k + Remaining(states[k]) <= 6 * |states[k].received| + 4
  {
    hide Remaining, Next, Free;
    if k == 0 {
      InitRemains(entries, next, states[0]);
    } else {
      RunRemains(entries, next, states, steps, k - 1);
      assert Next(states[k - 1], steps[k - 1], states[k]);
      StepRemains(states[k - 1], steps[k - 1], states[k]);
    }
  }

  lemma InitRemains(entries: Entries, next: nat, s: State)
    requires Init(entries, next, s)
    ensures Remaining(s) == 4
  {
    hide Free;
  }

  /** No run is longer than six steps a payload received, one to cancel and one a goroutine to stop. */
  lemma RunsEnd(entries: Entries, next: nat, states: seq<State>, steps: seq<Step>)
    requires Run(entries, next, states, steps)
    ensures |steps| <= 6 * |states[|steps|].received| + 4
  {
    hide Next, Free, Remaining;
    RunRemains(entries, next, states, steps, |steps|);
  }

  /** Only a cancelled context stops a goroutine, since a failure cancels it. */
  ghost predicate Alive(s: State) {
    !s.cancelled ==> !s.listenerDone && !s.parserDone && !s.writerDone
  }

  lemma StepAlive(s: State, step: Step, t: State)
    requires Alive(s) && Next(s, step, t)
    ensures Alive(t)
  {
    hide IsFlow, KeyOf;
  }

  lemma {:induction false} RunAlive(entries: Entries, next: nat, states: seq<State>, steps: seq<Step>, k: nat)
    requires Run(entries, next, states, steps) && k < |states|
    ensures Alive(states[k])
  {
    hide Next, Free;
    if k == 0 {
    } else {
      RunAlive(entries, next, states, steps, k - 1);
      assert Next(states[k - 1], steps[k - 1], states[k]);
      StepAlive(states[k - 1], steps[k - 1], states[k]);
    }
  }

  /** A step of a goroutine on its own: no payload comes in, and nothing fails or is cancelled. */
  predicate Proper(step: Step) {
    !(step.Receive? || step.Cancel? || step.ListenerFails? || step.WriterFails?)
  }

  ghost predicate CanGoOn(s: State) {
    exists step, t :: Proper(step) && Next(s, step, t)
  }

  /** Something accepted is not stored yet, or the database has no number left. */
  ghost predicate Unfinished(s: State) {
    s.nextID > MAX_U32 || Waiting(s) != [] || Parsed(s) != s.stored
  }

  /** A step on its own; unless it uses the last number it cancels nothing. */
  ghost predicate Clean(s: State, step: Step, t: State) {
    && Proper(step) && Next(s, step, t) && t.received == s.received
    && (s.nextID < MAX_U32 ==> t.cancelled == s.cancelled)
  }

  lemma WriterGoesOn(s: State) returns (step: Step, t: State)
    requires !s.writerDone && (s.writerHand.Some? || s.nextID > MAX_U32 || s.dataChan != [])
    requires s.writerHand.Some? ==> s.nextID <= MAX_U32
    ensures Clean(s, step, t)
  {
    hide KeyOf;
    if s.writerHand.Some? {
      var written := s.(db := s.db[KeyOf(s.nextID) := s.writerHand.value], nextID := s.nextID + 1,
                        stored := s.stored + [s.writerHand.value], writerHand := None);
      step := WriterStores;
      t := if s.nextID == MAX_U32 then written.(writerDone := true, cancelled := true) else written;
    } else if s.nextID > MAX_U32 {
      step, t := WriterRefuses, s.(writerDone := true, cancelled := true);
    } else {
      step, t := WriterTakes, s.(writerHand := Some(s.dataChan[0]), dataChan := s.dataChan[1..]);
    }
  }

  lemma ParserGoesOn(s: State) returns (step: Step, t: State)
    requires !s.parserDone && s.dataChan == [] && (s.parserHand.Some? || s.parseChan != [])
    ensures Clean(s, step, t)
  {
    hide IsFlow;
    if s.parserHand.Some? {
      step, t := ParserSends, s.(dataChan := s.dataChan + [s.parserHand.value], parserHand := None);
    } else {
      var taken := s.(parseChan := s.parseChan[1..]);
      step := ParserTakes;
      t := if IsFlow(s.parseChan[0]) then taken.(parserHand := Some(s.parseChan[0]), validCount := s.validCount + 1)
           else taken.(invalidCount := s.invalidCount + 1);
    }
  }

  lemma ListenerGoesOn(s: State) returns (step: Step, t: State)
    requires !s.listenerDone && s.listenerHand.Some? && s.parseChan == []
    ensures Clean(s, step, t)
  {
    step, t := ListenerSends, s.(parseChan := s.parseChan + [s.listenerHand.value], listenerHand := None);
  }

  lemma GoesOn(s: State) returns (step: Step, t: State)
    requires !s.cancelled && Alive(s) && Unfinished(s) && (s.writerHand.Some? ==> s.nextID <= MAX_U32)
    ensures Clean(s, step, t)
  {
    hide Clean;
    if s.writerHand.Some? || s.nextID > MAX_U32 || s.dataChan != [] {
      step, t := WriterGoesOn(s);
    } else if s.parserHand.Some? || s.parseChan != [] {
      step, t := ParserGoesOn(s);
    } else {
      step, t := ListenerGoesOn(s);
    }
  }

  ghost predicate AllDone(s: State) {
    s.listenerDone && s.parserDone && s.writerDone
  }

  lemma Stops(s: State) returns (step: Step, t: State)
    requires s.cancelled && !AllDone(s) && (s.writerHand.Some? && !s.writerDone ==> s.nextID <= MAX_U32)
    ensures Proper(step) && Next(s, step, t) && t.received == s.received
  {
    if !s.listenerDone {
      step, t := ListenerStops, s.(listenerDone := true);
    } else if !s.parserDone {
      step, t := ParserStops, s.(parserDone := true);
    } else if s.writerHand.Some? {
      step, t := WriterGoesOn(s);
    } else {
      step, t := WriterStops, s.(writerDone := true);
    }
  }

  lemma NothingGoesOn(s: State, step: Step, t: State)
    requires Alive(s) && Proper(step) && Next(s, step, t)
    ensures if s.cancelled then !AllDone(s) else Unfinished(s)
  {
    hide IsFlow, KeyOf;
  }

  /**
   No deadlock, and no idling: as long as nothing is cancelled, some goroutine can go on by itself
   exactly when a payload is on its way or the database is exhausted; once the context is cancelled,
   exactly when some goroutine has not returned. With RunsEnd, a recorder left to itself comes to rest.
   */
  lemma Progress(entries: Entries, next: nat, states: seq<State>, steps: seq<Step>, k: nat)
    requires Run(entries, next, states, steps) && k < |states|
    ensures var s := states[k]; CanGoOn(s) <==> if s.cancelled then !AllDone(s) else Unfinished(s)
  {
    RunAlive(entries, next, states, steps, k);
    RunStores(entries, next, states, steps, k);
    var s := states[k];
    if CanGoOn(s) {
      var step, t :| Proper(step) && Next(s, step, t);
      NothingGoesOn(s, step, t);
    }
    hide Run, Next, Append, Unfinished;
    if s.cancelled && !AllDone(s) {
      var step, t := Stops(s);
    } else if !s.cancelled && Unfinished(s) {
      var step, t := GoesOn(s);
    }
  }

  /**
   At rest without a cancellation everything received is recorded: reading the database gives what it
   held before and then every flow packet received, in order.
   */
  lemma RestIsComplete(entries: Entries, order: seq<Key>, next: nat, states: seq<State>, steps: seq<Step>, k: nat)
    requires Run(entries, next, states, steps) && k < |states|
    requires Visits(order, entries) && FourByteKeys(entries)
    requires !states[k].cancelled && !CanGoOn(states[k])
    ensures var s := states[k];
            var longer := order + Keys(next, |s.stored|);
            Visits(longer, s.db) && ReadAll(longer, s.db) == ReadAll(order, entries) + FlowsIn(s.received)
  {
    hide Run, FlowsIn, CanGoOn, Visits, FourByteKeys, Keys, ReadAll, Free;
    Progress(entries, next, states, steps, k);
    StoredIsPrefix(entries, next, states, steps, k);
    RunIsRead(entries, order, next, states, steps, k);
  }

  // ----- Runs that record everything -----

  lemma RunNext(entries: Entries, next: nat, states: seq<State>, steps: seq<Step>, step: Step, t: State)
    requires Run(entries, next, states, steps) && Next(states[|steps|], step, t)
    ensures Run(entries, next, states + [t], steps + [step])
  {
    hide Next;
    var more, longer := states + [t], steps + [step];
    forall i | 0 <= i < |longer| ensures Next(more[i], longer[i], more[i + 1]) {
      if i < |steps| {
        assert more[i] == states[i] && more[i + 1] == states[i + 1];
      } else {
        assert more[i] == states[|steps|] && more[i + 1] == t;
      }
    }
  }

  /** A run left to itself while numbers last comes to rest with everything stored. */
  lemma {:induction false} Drain(entries: Entries, next: nat, states: seq<State>, steps: seq<Step>)
    returns (more: seq<State>, longer: seq<Step>)
    requires Run(entries, next, states, steps) && !states[|steps|].cancelled
    requires next + |FlowsIn(states[|steps|].received)| <= MAX_U32
    ensures Run(entries, next, more, longer) && states <= more && steps <= longer
    ensures var t := more[|longer|];
            t.received == states[|steps|].received && !t.cancelled && !Unfinished(t) && t.stored == FlowsIn(t.received)
    decreases Remaining(states[|steps|])
  {
    hide Next, Free, Remaining, FlowsIn, Append, Unfinished, Conserved;
    var s := states[|steps|];
    RunAlive(entries, next, states, steps, |steps|);
    RunStores(entries, next, states, steps, |steps|);
    if !Unfinished(s) {
      NothingIsLeft(s);
      StoredIsPrefix(entries, next, states, steps, |steps|);
      more, longer := states, steps;
    } else {
      RunConserves(entries, next, states, steps, |steps|);
      var step, t := GoesOn(s);
      NumbersLast(s, step, t, next);
      StepRemains(s, step, t);
      RunNext(entries, next, states, steps, step, t);
      more, longer := Drain(entries, next, states + [t], steps + [step]);
    }
  }

  lemma NothingIsLeft(s: State)
    requires !Unfinished(s)
    ensures Waiting(s) == [] && Parsed(s) == s.stored
  {
  }

  /** The last number is not used as long as there are numbers for all flow packets received. */
  lemma NumbersLast(s: State, step: Step, t: State, next: nat)
    requires Conserved(s) && s.nextID == next + |s.stored| && next + |FlowsIn(s.received)| <= MAX_U32
    requires Clean(s, step, t) && !s.cancelled && Alive(s)
    ensures !t.cancelled
  {
    hide FlowsIn, IsFlow, KeyOf;
    assert |Parsed(s)| <= |FlowsIn(s.received)|;
  }

  /** Whatever is received, there is a run that stores every flow packet, in order, if the numbers last. */
  lemma {:induction false} Records(entries: Entries, next: nat, payloads: seq<Payload>)
    returns (states: seq<State>, steps: seq<Step>)
    requires Free(next, entries) && next + |FlowsIn(payloads)| <= MAX_U32
    ensures Run(entries, next, states, steps)
    ensures var s := states[|steps|];
            && s.received == payloads && !s.cancelled && !Unfinished(s) && s.stored == FlowsIn(payloads)
            && s.db == Append(entries, next, FlowsIn(payloads))
  {
    hide Next, Free, FlowsIn, Append;
    if payloads == [] {
      states, steps := [State([], None, false, [], None, false, [], None, false, entries, next, [], 0, 0, false)], [];
      NoFlows();
    } else {
      var n := |payloads| - 1;
      assert payloads == payloads[..n] + [payloads[n]];
      FlowsConcat(payloads[..n], [payloads[n]]);
      states, steps := Records(entries, next, payloads[..n]);
      var s := states[|steps|];
      RunAlive(entries, next, states, steps, |steps|);
      var t := s.(received := payloads, listenerHand := Some(payloads[n]));
      Receives(s, payloads[n], t);
      RunNext(entries, next, states, steps, Receive(payloads[n]), t);
      states, steps := Drain(entries, next, states + [t], steps + [Receive(payloads[n])]);
    }
    RunStores(entries, next, states, steps, |steps|);
  }

  lemma Receives(s: State, p: Payload, t: State)
    requires !s.listenerDone && s.listenerHand.None? && t == s.(received := s.received + [p], listenerHand := Some(p))
    ensures Next(s, Receive(p), t)
  {
  }

  /** Any run can be cancelled, and then every goroutine returns. */
  lemma {:induction false} Cancels(entries: Entries, next: nat, states: seq<State>, steps: seq<Step>)
    returns (more: seq<State>, longer: seq<Step>)
    requires Run(entries, next, states, steps)
    ensures Run(entries, next, more, longer) && states <= more && steps <= longer
    ensures var t := more[|longer|]; t.cancelled && AllDone(t) && t.received == states[|steps|].received
    decreases Remaining(states[|steps|])
  {
    hide Next, Free, Remaining, Append;
    var s := states[|steps|];
    RunAlive(entries, next, states, steps, |steps|);
    RunStores(entries, next, states, steps, |steps|);
    if s.cancelled && AllDone(s) {
      more, longer := states, steps;
    } else {
      var step, t;
      if s.cancelled {
        step, t := Stops(s);
      } else {
        step, t := Cancel, s.(cancelled := true);
        CancelIsNext(s, t);
      }
      StepRemains(s, step, t);
      RunNext(entries, next, states, steps, step, t);
      more, longer := Cancels(entries, next, states + [t], steps + [step]);
    }
  }

  lemma CancelIsNext(s: State, t: State)
    requires !s.cancelled && t == s.(cancelled := true)
    ensures Next(s, Cancel, t)
  {
  }

  /** Waiting for a payload may fail, and so may writing one; either ends the recorder and changes nothing stored. */
  lemma MayFail(s: State)
    ensures !s.listenerDone && s.listenerHand.None? ==>
              exists t :: Next(s, ListenerFails, t) && t.cancelled && t.listenerDone && t.db == s.db
    ensures !s.writerDone && s.writerHand.Some? ==>
              exists t :: Next(s, WriterFails, t) && t.cancelled && t.writerDone && t.db == s.db
  {
    assert !s.listenerDone && s.listenerHand.None? ==>
        Next(s, ListenerFails, s.(listenerDone := true, cancelled := true));
    assert !s.writerDone && s.writerHand.Some? ==> Next(s, WriterFails, s.(writerDone := true, cancelled := true));
  }
}
