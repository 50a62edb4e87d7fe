/**
 The proxy as concurrent steps: a listener, a parser, a replicator and one worker a target, joined
 by bounded queues. Whoever finds the queue before it full drops the payload and goes on.
 */
module Proxy {
  import opened Wrappers
  import opened FlowPackets
  import opened Subsequences

  const CAPACITY := 1024

  /** A target's queue and worker; `drops` counts what the replicator dropped at this target. */
  datatype Target = Target(queue: seq<Payload>, hand: Option<Payload>, sent: seq<Payload>, drops: nat, done: bool)

  /**
   `received`, `parsed` and `replicated` are histories: what the listener read, and what the parser
   and the replicator took. `at` is the target the replicator's payload goes to next.
   */
  datatype State = State(
    received: seq<Payload>,
    listenerHand: Option<Payload>, listenerDrops: nat, listenerDone: bool,
    proxyChan: seq<Payload>,
    parsed: seq<Payload>, validCount: nat, invalidCount: nat,
    parserHand: Option<Payload>, parserDrops: nat, parserDone: bool,
    dataChan: seq<Payload>,
    replicated: seq<Payload>,
    replicatorHand: Option<Payload>, at: nat, replicatorDone: bool,
    targets: seq<Target>,
    cancelled: bool)

  datatype Step =
    | Receive(payload: Payload)
    | ListenerPushes
    | ListenerDrops
    | ListenerStops
    | ParserTakes
    | ParserForwards
    | ParserDrops
    | ParserStops
    | ReplicatorTakes
    | ReplicatorDelivers
    | ReplicatorDrops
    | ReplicatorFinishes
    | ReplicatorStops
    | WorkerTakes(k: nat)
    | WorkerSends(k: nat)
    | WorkerStops(k: nat)
    | Cancel

  ghost predicate Init(s: State) {
    && s == State([], None, 0, false, [], [], 0, 0, None, 0, false, [], [], None, 0, false, s.targets, false)
    && forall k :: 0 <= k < |s.targets| ==> s.targets[k] == Target([], None, [], 0, false)
  }

  ghost predicate NextListener(s: State, step: Step, t: State) {
    && !s.listenerDone
    && match step
       case Receive(payload) =>
         && s.listenerHand.None?
         && t == s.(received := s.received + [payload], listenerHand := Some(payload))
       case ListenerPushes =>
         && s.listenerHand.Some? && |s.proxyChan| < CAPACITY
         && t == s.(proxyChan := s.proxyChan + [s.listenerHand.value], listenerHand := None)
       case ListenerDrops =>
         && s.listenerHand.Some? && |s.proxyChan| == CAPACITY
         && t == s.(listenerHand := None, listenerDrops := s.listenerDrops + 1)
       case ListenerStops => t == s.(listenerDone := true, cancelled := true)
       case _ => false
  }

  ghost predicate NextParser(s: State, step: Step, t: State) {
    && !s.parserDone
    && match step
       case ParserTakes =>
         && s.parserHand.None? && s.proxyChan != []
         && var p := s.proxyChan[0];
            var taken := s.(proxyChan := s.proxyChan[1..], parsed := s.parsed + [p]);
            if IsFlow(p) then t == taken.(parserHand := Some(p), validCount := s.validCount + 1)
            else t == taken.(invalidCount := s.invalidCount + 1)
       case ParserForwards =>
         && s.parserHand.Some? && |s.dataChan| < CAPACITY
         && t == s.(dataChan := s.dataChan + [s.parserHand.value], parserHand := None)
       case ParserDrops =>
         && s.parserHand.Some? && |s.dataChan| == CAPACITY
         && t == s.(parserHand := None, parserDrops := s.parserDrops + 1)
       case ParserStops => s.cancelled && t == s.(parserDone := true)
       case _ => false
  }

  ghost predicate NextReplicator(s: State, step: Step, t: State) {
    && !s.replicatorDone
    && match step
       case ReplicatorTakes =>
         && s.replicatorHand.None? && s.dataChan != []
         && t == s.(dataChan := s.dataChan[1..], replicated := s.replicated + [s.dataChan[0]],
                    replicatorHand := Some(s.dataChan[0]), at := 0)
       case ReplicatorDelivers =>
         && s.replicatorHand.Some? && s.at < |s.targets| && |s.targets[s.at].queue| < CAPACITY
         && var x := s.targets[s.at];
            t == s.(targets := s.targets[s.at := x.(queue := x.queue + [s.replicatorHand.value])], at := s.at + 1)
       case ReplicatorDrops =>
         && s.replicatorHand.Some? && s.at < |s.targets| && |s.targets[s.at].queue| == CAPACITY
         && var x := s.targets[s.at];
            t == s.(targets := s.targets[s.at := x.(drops := x.drops + 1)], at := s.at + 1)
       case ReplicatorFinishes =>
         s.replicatorHand.Some? && s.at == |s.targets| && t == s.(replicatorHand := None)
       case ReplicatorStops => s.cancelled && t == s.(replicatorDone := true)
       case _ => false
  }

  ghost predicate NextWorker(s: State, step: Step, k: nat, t: State) {
    && k < |s.targets| && !s.targets[k].done
    && var x := s.targets[k];
       match step
       case WorkerTakes(_) =>
         && x.hand.None? && x.queue != []
         && t == s.(targets := s.targets[k := x.(queue := x.queue[1..], hand := Some(x.queue[0]))])
       case WorkerSends(_) =>
         && x.hand.Some?
         && t == s.(targets := s.targets[k := x.(sent := x.sent + [x.hand.value], hand := None)])
       // A send failure or the context ends the worker; a payload it holds stays unsent.
       case WorkerStops(_) =>
         t == s.(targets := s.targets[k := x.(done := true)], cancelled := true)
       case _ => false
  }

  ghost predicate Next(s: State, step: Step, t: State) {
    match step
    case Receive(_) => NextListener(s, step, t)
    case ListenerPushes => NextListener(s, step, t)
    case ListenerDrops => NextListener(s, step, t)
    case ListenerStops => NextListener(s, step, t)
    case ParserTakes => NextParser(s, step, t)
    case ParserForwards => NextParser(s, step, t)
    case ParserDrops => NextParser(s, step, t)
    case ParserStops => NextParser(s, step, t)
    case WorkerTakes(k) => NextWorker(s, step, k, t)
    case WorkerSends(k) => NextWorker(s, step, k, t)
    case WorkerStops(k) => NextWorker(s, step, k, t)
    case Cancel => !s.cancelled && t == s.(cancelled := true)
    case _ => NextReplicator(s, step, t)
  }

  ghost predicate Run(states: seq<State>, steps: seq<Step>) {
    && |states| == |steps| + 1 && Init(states[0])
    && forall i :: 0 <= i < |steps| ==> Next(states[i], steps[i], states[i + 1])
  }

  // ----- What each stage keeps -----

  /** What the listener passed on: taken by the parser, then queued. */
  function Accepted(s: State): seq<Payload> {
    s.parsed + s.proxyChan
  }

  /** What the parser passed on: taken by the replicator, then queued. */
  function Forwarded(s: State): seq<Payload> {
    s.replicated + s.dataChan
  }

  /** What a target has been given: sent, in the worker's hand, then queued. */
  function Delivered(x: Target): seq<Payload> {
    x.sent + Held(x.hand) + x.queue
  }

  /** The replicator's payload, as long as target `k` has not had its turn. */
  function Pending(s: State, k: nat): seq<Payload> {
    if s.at <= k then Held(s.replicatorHand) else []
  }

  /**
   `passed`, then what is in hand, is what came in less `drops` dropped payloads; none is dropped
   before a queue filled up.
   */
  ghost predicate Stage(passed: seq<Payload>, hand: seq<Payload>, drops: nat, came: seq<Payload>) {
    && Sub(passed + hand, came)
    && |passed| + |hand| + drops == |came|
    && (drops > 0 ==> |passed| >= CAPACITY)
  }

  ghost predicate Kept(s: State) {
    && Stage(Accepted(s), Held(s.listenerHand), s.listenerDrops, s.received)
    && Stage(Forwarded(s), Held(s.parserHand), s.parserDrops, FlowsIn(s.parsed))
    && (forall k :: 0 <= k < |s.targets| ==>
          Stage(Delivered(s.targets[k]), Pending(s, k), s.targets[k].drops, s.replicated))
    && s.validCount == |FlowsIn(s.parsed)| && s.validCount + s.invalidCount == |s.parsed|
    && |s.proxyChan| <= CAPACITY && |s.dataChan| <= CAPACITY
    && forall k :: 0 <= k < |s.targets| ==> |s.targets[k].queue| <= CAPACITY
  }

  lemma StageTakes(passed: seq<Payload>, drops: nat, came: seq<Payload>, p: Payload)
    requires Stage(passed, [], drops, came)
    ensures Stage(passed, [p], drops, came + [p])
  {
    assert passed + [] == passed;
    SubMore(passed, came, p);
  }

  lemma StagePasses(passed: seq<Payload>, drops: nat, came: seq<Payload>, p: Payload)
    requires Stage(passed, [p], drops, came)
    ensures Stage(passed + [p], [], drops, came)
  {
    assert passed + [p] + [] == passed + [p];
  }

  lemma StageDrops(passed: seq<Payload>, drops: nat, came: seq<Payload>, p: Payload)
    requires Stage(passed, [p], drops, came) && |passed| >= CAPACITY
    ensures Stage(passed, [], drops + 1, came)
  {
    SubDropLast(passed, p, came);
    assert passed + [] == passed;
  }

  lemma ListenerKeeps(s: State, step: Step, t: State)
    requires Kept(s) && NextListener(s, step, t)
    ensures Kept(t)
  {
    hide Stage, IsFlow, FlowsIn, Delivered;
    match step
    case Receive(p) => StageTakes(Accepted(s), s.listenerDrops, s.received, p);
    case ListenerPushes =>
      StagePasses(Accepted(s), s.listenerDrops, s.received, s.listenerHand.value);
      assert Accepted(t) == Accepted(s) + [s.listenerHand.value];
    case ListenerDrops => StageDrops(Accepted(s), s.listenerDrops, s.received, s.listenerHand.value);
    case _ =>
  }

  lemma ParserKeeps(s: State, step: Step, t: State)
    requires Kept(s) && NextParser(s, step, t)
    ensures Kept(t)
  {
    hide Stage, IsFlow, FlowsIn, Delivered;
    match step
    case ParserTakes =>
      var p := s.proxyChan[0];
      assert Accepted(t) == Accepted(s);
      FlowsConcat(s.parsed, [p]);
      FlowsOne(p);
      if IsFlow(p) {
        StageTakes(Forwarded(s), s.parserDrops, FlowsIn(s.parsed), p);
      } else {
        assert FlowsIn(s.parsed) + [] == FlowsIn(s.parsed);
      }
    case ParserForwards =>
      StagePasses(Forwarded(s), s.parserDrops, FlowsIn(s.parsed), s.parserHand.value);
      assert Forwarded(t) == Forwarded(s) + [s.parserHand.value];
    case ParserDrops => StageDrops(Forwarded(s), s.parserDrops, FlowsIn(s.parsed), s.parserHand.value);
    case _ =>
  }

  lemma ReplicatorKeeps(s: State, step: Step, t: State)
    requires Kept(s) && NextReplicator(s, step, t)
    ensures Kept(t)
  {
    hide Stage, IsFlow, FlowsIn;
    match step
    case ReplicatorTakes =>
      var p := s.dataChan[0];
      assert Forwarded(t) == Forwarded(s);
      forall k | 0 <= k < |s.targets|
        ensures Stage(Delivered(t.targets[k]), Pending(t, k), t.targets[k].drops, t.replicated)
      {
        StageTakes(Delivered(s.targets[k]), s.targets[k].drops, s.replicated, p);
      }
    case ReplicatorDelivers =>
      var x, p := s.targets[s.at], s.replicatorHand.value;
      StagePasses(Delivered(x), x.drops, s.replicated, p);
      assert Delivered(t.targets[s.at]) == Delivered(x) + [p];
    case ReplicatorDrops =>
      var x, p := s.targets[s.at], s.replicatorHand.value;
      StageDrops(Delivered(x), x.drops, s.replicated, p);
    case _ =>
  }

  lemma WorkerKeeps(s: State, step: Step, k: nat, t: State)
    requires Kept(s) && NextWorker(s, step, k, t)
    ensures Kept(t)
  {
    hide Stage, IsFlow, FlowsIn;
    assert Delivered(t.targets[k]) == Delivered(s.targets[k]);
  }

  /** Every step, of any goroutine, keeps all stages. */
  lemma StepKeeps(s: State, step: Step, t: State)
    requires Kept(s) && Next(s, step, t)
    ensures Kept(t)
  {
    hide Stage, IsFlow, FlowsIn, Delivered, NextListener, NextParser, NextReplicator, NextWorker;
    if step.Receive? || step.ListenerPushes? || step.ListenerDrops? || step.ListenerStops? {
      ListenerKeeps(s, step, t);
    } else if step.ParserTakes? || step.ParserForwards? || step.ParserDrops? || step.ParserStops? {
      ParserKeeps(s, step, t);
    } else if step.WorkerTakes? || step.WorkerSends? || step.WorkerStops? {
      WorkerKeeps(s, step, step.k, t);
    } else if !step.Cancel? {
      ReplicatorKeeps(s, step, t);
    }
  }

  lemma {:induction false} RunKeeps(states: seq<State>, steps: seq<Step>, n: nat)
    requires Run(states, steps) && n < |states|
    ensures Kept(states[n])
  {
    hide IsFlow;
    if n == 0 {
    } else {
      RunKeeps(states, steps, n - 1);
      StepKeeps(states[n - 1], steps[n - 1], states[n]);
    }
  }

  // ----- From end to end -----

  lemma {:induction false} FlowsSub(a: seq<Payload>, b: seq<Payload>)
    requires Sub(a, b)
    ensures Sub(FlowsIn(a), FlowsIn(b))
    decreases |b|
  {
    hide IsFlow;
    if a == [] {
    } else {
      var a', b', p := a[..|a| - 1], b[..|b| - 1], b[|b| - 1];
      if Sub(a, b') {
        FlowsSub(a, b');
        if IsFlow(p) {
          SubMore(FlowsIn(a), FlowsIn(b'), p);
        }
      } else {
        FlowsSub(a', b');
        if IsFlow(p) {
          SubMore(FlowsIn(a'), FlowsIn(b'), p);
        }
      }
    }
  }

  /**
   In every state of every run, what a target has been sent, then what waits for it, is a
   subsequence of the flow packets received, in order: nothing is invented, repeated or reordered,
   whatever is dropped here or elsewhere. Queues stay bounded and the counters add up.
   */
  lemma Relayed(states: seq<State>, steps: seq<Step>, n: nat, k: nat)
    requires Run(states, steps) && n < |states| && k < |states[n].targets|
    ensures var s := states[n];
            && Sub(Delivered(s.targets[k]), FlowsIn(s.received))
            && |s.proxyChan| <= 1024 && |s.dataChan| <= 1024 && |s.targets[k].queue| <= 1024
            && s.validCount == |FlowsIn(s.parsed)| && s.validCount + s.invalidCount == |s.parsed|
  {
    hide IsFlow, Sub, FlowsIn;
    RunKeeps(states, steps, n);
    var s := states[n];
    SubPrefix(Delivered(s.targets[k]), Pending(s, k), s.replicated);
    SubPrefix(Forwarded(s), Held(s.parserHand), FlowsIn(s.parsed));
    SubPrefix(s.replicated, s.dataChan, FlowsIn(s.parsed));
    SubTransitive(Delivered(s.targets[k]), s.replicated, FlowsIn(s.parsed));
    SubPrefix(Accepted(s), Held(s.listenerHand), s.received);
    SubPrefix(s.parsed, s.proxyChan, s.received);
    FlowsSub(s.parsed, s.received);
    SubTransitive(Delivered(s.targets[k]), FlowsIn(s.parsed), FlowsIn(s.received));
  }

  /** Target `k`'s way is clear of drops. */
  predicate Undropped(s: State, k: nat)
    requires k < |s.targets|
  {
    s.listenerDrops == 0 && s.parserDrops == 0 && s.targets[k].drops == 0
  }

  /**
   Targets do not disturb each other: as long as nothing was dropped on the way to target `k`,
   however much was dropped at others, it has been given or still awaits exactly the flow packets
   received, in order.
   */
  lemma NothingElseIsLost(states: seq<State>, steps: seq<Step>, n: nat, k: nat)
    requires Run(states, steps) && n < |states| && k < |states[n].targets|
    ensures var s := states[n];
            Undropped(s, k) ==>
              Delivered(s.targets[k]) + Pending(s, k) + s.dataChan + Held(s.parserHand)
              + FlowsIn(s.proxyChan + Held(s.listenerHand)) == FlowsIn(s.received)
  {
    hide IsFlow, Sub, FlowsIn, Delivered;
    RunKeeps(states, steps, n);
    var s := states[n];
    if Undropped(s, k) {
      SubLength(Accepted(s) + Held(s.listenerHand), s.received);
      SubLength(Forwarded(s) + Held(s.parserHand), FlowsIn(s.parsed));
      SubLength(Delivered(s.targets[k]) + Pending(s, k), s.replicated);
      assert s.received == s.parsed + (s.proxyChan + Held(s.listenerHand));
      FlowsConcat(s.parsed, s.proxyChan + Held(s.listenerHand));
    }
  }

  /** A drop needs a full queue, so nothing is dropped among the first 1024 payloads. */
  lemma FirstAreKept(states: seq<State>, steps: seq<Step>, n: nat, k: nat)
    requires Run(states, steps) && n < |states| && k < |states[n].targets|
    ensures |states[n].received| <= 1024 ==> Undropped(states[n], k)
  {
    hide IsFlow, Sub, FlowsIn;
    RunKeeps(states, steps, n);
    var s := states[n];
    SubLengths(s, k);
  }

  lemma SubLengths(s: State, k: nat)
    requires Kept(s) && k < |s.targets|
    ensures |s.replicated| <= |Forwarded(s)| <= |FlowsIn(s.parsed)| - s.parserDrops
    ensures |FlowsIn(s.parsed)| <= |s.parsed| <= |s.received| - s.listenerDrops
    ensures |Delivered(s.targets[k])| <= |s.replicated| - s.targets[k].drops
  {
    hide IsFlow, Sub, FlowsIn;
  }
}
