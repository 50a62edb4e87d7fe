/**
 The proxy gets on with its work: no run goes on for ever without receiving, some goroutine can go
 on exactly while there is something to do, and what comes to rest undropped was sent to the target.
 */
module ProxyProgress {
  import opened Wrappers
  import opened FlowPackets
  import opened Proxy

  // ----- Every run ends -----

  /** What a target still has to do. */
  function Load(xs: seq<Target>): nat {
    if xs == [] then 0
    else
      var x := xs[|xs| - 1];
      Load(xs[..|xs| - 1]) + 2 * |x.queue| + |Held(x.hand)| + (if x.done then 0 else 1)
  }

  lemma {:induction false} LoadUpdate(xs: seq<Target>, k: nat, x: Target)
    requires k < |xs|
    ensures Load(xs[k := x]) == Load(xs) + Load([x]) - Load([xs[k]])
  {
    hide Held;
    var n := |xs| - 1;
    assert [x][..0] == [] && [xs[k]][..0] == [];
    if k == n {
      assert xs[k := x][..n] == xs[..n];
    } else {
      assert xs[k := x][..n] == xs[..n][k := x];
      LoadUpdate(xs[..n], k, x);
    }
  }

  lemma LoadOne(x: Target)
    ensures Load([x]) == 2 * |x.queue| + (if x.hand.Some? then 1 else 0) + (if x.done then 0 else 1)
  {
    assert [x][..0] == [];
  }

  /** Steps of the replicator, and of the workers after it, for the payload it holds. */
  function Replicating(s: State): int {
    if s.replicatorHand.Some? then 3 * (|s.targets| - s.at) + 1 else 0
  }

  /** Payloads on their way to the replicator. */
  function Coming(s: State): nat {
    |Held(s.listenerHand)| + |s.proxyChan| + |Held(s.parserHand)| + |s.dataChan|
  }

  /** Steps that take those payloads to the replicator. */
  function Upstream(s: State): nat {
    5 * |Held(s.listenerHand)| + 4 * |s.proxyChan| + 3 * |Held(s.parserHand)| + 2 * |s.dataChan|
  }

  function Running(s: State): nat {
    (if s.listenerDone then 0 else 1) + (if s.parserDone then 0 else 1) + (if s.replicatorDone then 0 else 1)
    + (if s.cancelled then 0 else 1)
  }

  /** What it takes to send these payloads to the targets, at `w` for each. */
  function Onward(w: nat, coming: nat): nat {
    w * coming
  }

  /** Only a payload received adds to what is still to do; every other step takes from it. */
  function Remaining(s: State): int {
    Onward(3 * |s.targets|, Coming(s)) + Upstream(s) + Replicating(s) + Load(s.targets) + Running(s)
  }

  /** One payload more or less on its way. */
  lemma OneMore(w: nat, n: nat)
    ensures Onward(w, n + 1) == Onward(w, n) + w
    ensures n > 0 ==> Onward(w, n - 1) == Onward(w, n) - w
  {
  }

  lemma ListenerRemains(s: State, step: Step, t: State)
    requires NextListener(s, step, t)
    ensures |t.targets| == |s.targets|
    ensures if step.Receive? then |t.received| == |s.received| + 1 && Remaining(t) < Remaining(s) + 3 * |s.targets| + 6
            else t.received == s.received && Remaining(t) < Remaining(s)
  {
    hide Load, Onward;
    OneMore(3 * |s.targets|, Coming(s));
    if step.Receive? {
      assert |t.received| == |s.received| + 1 && Coming(t) == Coming(s) + 1;
    } else {
      assert |t.received| == |s.received|;
    }
  }

  lemma ParserRemains(s: State, step: Step, t: State)
    requires NextParser(s, step, t)
    ensures |t.targets| == |s.targets| && t.received == s.received && Remaining(t) < Remaining(s)
  {
    hide Load, IsFlow, Onward;
    OneMore(3 * |s.targets|, Coming(s));
  }

  lemma ReplicatorRemains(s: State, step: Step, t: State)
    requires NextReplicator(s, step, t)
    ensures |t.targets| == |s.targets| && t.received == s.received && Remaining(t) < Remaining(s)
  {
    hide Load, Onward;
    OneMore(3 * |s.targets|, Coming(s));
    if step.ReplicatorDelivers? || step.ReplicatorDrops? {
      LoadUpdate(s.targets, s.at, t.targets[s.at]);
      LoadOne(s.targets[s.at]);
      LoadOne(t.targets[s.at]);
    }
  }

  lemma WorkerRemains(s: State, step: Step, k: nat, t: State)
    requires NextWorker(s, step, k, t)
    ensures |t.targets| == |s.targets| && t.received == s.received && Remaining(t) < Remaining(s)
  {
    hide Load, Onward, Held;
    LoadUpdate(s.targets, k, t.targets[k]);
    LoadOne(s.targets[k]);
    LoadOne(t.targets[k]);
  }

  lemma StepRemains(s: State, step: Step, t: State)
    requires Next(s, step, t)
    ensures |t.targets| == |s.targets|
    ensures if step.Receive? then |t.received| == |s.received| + 1 && Remaining(t) < Remaining(s) + 3 * |s.targets| + 6
            else t.received == s.received && Remaining(t) < Remaining(s)
  {
    hide NextListener, NextParser, NextReplicator, NextWorker, Remaining;
    if step.Receive? || step.ListenerPushes? || step.ListenerDrops? || step.ListenerStops? {
      ListenerRemains(s, step, t);
    } else if step.ParserTakes? || step.ParserForwards? || step.ParserDrops? || step.ParserStops? {
      ParserRemains(s, step, t);
    } else if step.WorkerTakes? || step.WorkerSends? || step.WorkerStops? {
      WorkerRemains(s, step, step.k, t);
    } else if step.Cancel? {
      CancelRemains(s, t);
    } else {
      ReplicatorRemains(s, step, t);
    }
  }

  lemma CancelRemains(s: State, t: State)
    requires Next(s, Cancel, t)
    ensures t.targets == s.targets && t.received == s.received && Remaining(t) < Remaining(s)
  {
    hide Load, Onward;
  }

  // ----- What holds in every run -----

  /** Only a cancelled context stops a goroutine, and the replicator is at one of the targets or past the last. */
  ghost predicate Sane(s: State) {
    && s.at <= |s.targets|
    && (!s.cancelled ==>
          && !s.listenerDone && !s.parserDone && !s.replicatorDone
          && forall k :: 0 <= k < |s.targets| ==> !s.targets[k].done)
  }

  lemma StepSane(s: State, step: Step, t: State)
    requires Sane(s) && Next(s, step, t)
    ensures Sane(t)
  {
    hide IsFlow;
  }

  lemma {:induction false} LoadAtFirst(xs: seq<Target>)
    requires forall k :: 0 <= k < |xs| ==> xs[k] == Target([], None, [], 0, false)
    ensures Load(xs) == |xs|
  {
    if xs == [] {
    } else {
      LoadAtFirst(xs[..|xs| - 1]);
    }
  }

  lemma InitRemains(s: State)
    requires Init(s)
    ensures Sane(s) && Remaining(s) == |s.targets| + 4 && s.received == []
  {
    LoadAtFirst(s.targets);
  }

  /** What a run of so many receipts may still take. */
  function Allowed(targets: nat, received: nat): nat {
    (3 * targets + 6) * received + targets + 4
  }

  lemma AllowedNext(targets: nat, received: nat)
    ensures Allowed(targets, received + 1) == Allowed(targets, received) + 3 * targets + 6
  {
  }

  lemma {:induction false} RunRemains(states: seq<State>, steps: seq<Step>, n: nat)
    requires Run(states, steps) && n < |states|
    ensures var s := states[n];
            && |s.targets| == |states[0].targets| && Sane(s)
            && n + Remaining(s) <= Allowed(|s.targets|, |s.received|)
  {
    hide Next, Remaining, Sane, Init, Allowed;
    if n == 0 {
      InitRemains(states[0]);
      NothingAllowed(|states[0].targets|);
    } else {
      RunRemains(states, steps, n - 1);
      var s, t := states[n - 1], states[n];
      assert Next(s, steps[n - 1], t);
      StepSane(s, steps[n - 1], t);
      StepRemains(s, steps[n - 1], t);
      AllowedNext(|s.targets|, |s.received|);
    }
  }

  lemma NothingAllowed(targets: nat)
    ensures Allowed(targets, 0) == targets + 4
  {
  }

  lemma RemainingIsNat(s: State)
    requires Sane(s)
    ensures Remaining(s) >= 0
  {
    hide Load;
    assert Onward(3 * |s.targets|, Coming(s)) >= 0;
  }

  /** A run is no longer than the payloads received allow: three steps a target and six more for each. */
  lemma RunsEnd(states: seq<State>, steps: seq<Step>)
    requires Run(states, steps)
    ensures var s := states[|steps|];
            |steps| <= (3 * |s.targets| + 6) * |s.received| + |s.targets| + 4
  {
    hide Next, Remaining, Init, Sane;
    RunRemains(states, steps, |steps|);
    RemainingIsNat(states[|steps|]);
  }

  // ----- Progress -----

  /**
   A step of a goroutine on its own: nothing comes in, nothing is cancelled, and the listener and
   the workers do not end unless the context has ended.
   */
  predicate Proper(s: State, step: Step) {
    match step
    case Receive(_) => false
    case Cancel => false
    case ListenerStops => s.cancelled
    case WorkerStops(_) => s.cancelled
    case _ => true
  }

  ghost predicate CanGoOn(s: State) {
    exists step, t :: Proper(s, step) && Next(s, step, t)
  }

  /** A payload is in a hand or in a queue. */
  ghost predicate Busy(s: State) {
    || s.listenerHand.Some? || s.proxyChan != [] || s.parserHand.Some? || s.dataChan != [] || s.replicatorHand.Some?
    || exists k :: 0 <= k < |s.targets| && (s.targets[k].hand.Some? || s.targets[k].queue != [])
  }

  ghost predicate AllDone(s: State) {
    && s.listenerDone && s.parserDone && s.replicatorDone
    && forall k :: 0 <= k < |s.targets| ==> s.targets[k].done
  }

  /** Nothing was dropped anywhere. */
  ghost predicate NoDrops(s: State) {
    && s.listenerDrops == 0 && s.parserDrops == 0
    && forall k :: 0 <= k < |s.targets| ==> s.targets[k].drops == 0
  }

  /** A step on its own that drops nothing. */
  ghost predicate Clean(s: State, step: Step, t: State) {
    && Proper(s, step) && Next(s, step, t) && t.cancelled == s.cancelled && t.received == s.received
    && (NoDrops(s) ==> NoDrops(t))
  }

  lemma WorkerGoesOn(s: State, k: nat) returns (step: Step, t: State)
    requires k < |s.targets| && !s.targets[k].done && (s.targets[k].hand.Some? || s.targets[k].queue != [])
    ensures Clean(s, step, t)
  {
    var x := s.targets[k];
    if x.hand.Some? {
      step, t := WorkerSends(k), s.(targets := s.targets[k := x.(sent := x.sent + [x.hand.value], hand := None)]);
    } else {
      step, t := WorkerTakes(k), s.(targets := s.targets[k := x.(queue := x.queue[1..], hand := Some(x.queue[0]))]);
    }
  }

  lemma ReplicatorGoesOn(s: State) returns (step: Step, t: State)
    requires Sane(s) && !s.replicatorDone && (s.replicatorHand.Some? || s.dataChan != [])
    requires forall k :: 0 <= k < |s.targets| ==> s.targets[k].queue == []
    ensures Clean(s, step, t)
  {
    if s.replicatorHand.None? {
      step, t := ReplicatorTakes, s.(dataChan := s.dataChan[1..], replicated := s.replicated + [s.dataChan[0]],
                                     replicatorHand := Some(s.dataChan[0]), at := 0);
    } else if s.at == |s.targets| {
      step, t := ReplicatorFinishes, s.(replicatorHand := None);
    } else {
      var x := s.targets[s.at];
      step := ReplicatorDelivers;
      t := s.(targets := s.targets[s.at := x.(queue := x.queue + [s.replicatorHand.value])], at := s.at + 1);
    }
  }

  lemma ParserGoesOn(s: State) returns (step: Step, t: State)
    requires !s.parserDone && s.dataChan == [] && (s.parserHand.Some? || s.proxyChan != [])
    ensures Clean(s, step, t)
  {
    hide IsFlow;
    if s.parserHand.Some? {
      step, t := ParserForwards, s.(dataChan := s.dataChan + [s.parserHand.value], parserHand := None);
    } else {
      var p := s.proxyChan[0];
      var taken := s.(proxyChan := s.proxyChan[1..], parsed := s.parsed + [p]);
      step := ParserTakes;
      t := if IsFlow(p) then taken.(parserHand := Some(p), validCount := s.validCount + 1)
           else taken.(invalidCount := s.invalidCount + 1);
    }
  }

  /** Whoever is nearest to the targets goes on, so queues are empty when something is put into them. */
  lemma GoesOn(s: State) returns (step: Step, t: State)
    requires Sane(s) && !s.cancelled && Busy(s)
    ensures Clean(s, step, t)
  {
    hide Clean;
    if k: nat :| k < |s.targets| && (s.targets[k].hand.Some? || s.targets[k].queue != []) {
      step, t := WorkerGoesOn(s, k);
    } else if s.replicatorHand.Some? || s.dataChan != [] {
      step, t := ReplicatorGoesOn(s);
    } else if s.parserHand.Some? || s.proxyChan != [] {
      step, t := ParserGoesOn(s);
    } else {
      step, t := ListenerGoesOn(s);
    }
  }

  lemma ListenerGoesOn(s: State) returns (step: Step, t: State)
    requires !s.listenerDone && s.listenerHand.Some? && s.proxyChan == []
    ensures Clean(s, step, t)
  {
    step, t := ListenerPushes, s.(proxyChan := s.proxyChan + [s.listenerHand.value], listenerHand := None);
  }

  lemma Stops(s: State) returns (step: Step, t: State)
    requires s.cancelled && !AllDone(s)
    ensures Proper(s, step) && Next(s, step, t) && t.cancelled && t.received == s.received
  {
    if !s.listenerDone {
      step, t := ListenerStops, s.(listenerDone := true, cancelled := true);
    } else if !s.parserDone {
      step, t := ParserStops, s.(parserDone := true);
    } else if !s.replicatorDone {
      step, t := ReplicatorStops, s.(replicatorDone := true);
    } else {
      var k :| 0 <= k < |s.targets| && !s.targets[k].done;
      step, t := WorkerStops(k), s.(targets := s.targets[k := s.targets[k].(done := true)], cancelled := true);
    }
  }

  lemma OnlyIfBusy(s: State, step: Step, t: State)
    requires Sane(s) && Proper(s, step) && Next(s, step, t)
    ensures if s.cancelled then !AllDone(s) else Busy(s)
  {
    hide IsFlow;
  }

  /**
   No deadlock, and no idling: as long as nothing is cancelled, some goroutine can go on by itself
   exactly when a payload is in a hand or a queue; once the context is cancelled, exactly when some
   goroutine has not returned. With RunsEnd, a proxy left to itself comes to rest.
   */
  lemma Progress(states: seq<State>, steps: seq<Step>, n: nat)
    requires Run(states, steps) && n < |states|
    ensures var s := states[n]; CanGoOn(s) <==> if s.cancelled then !AllDone(s) else Busy(s)
  {
    hide Next, Busy, AllDone, Remaining, Init;
    RunRemains(states, steps, n);
    var s := states[n];
    if CanGoOn(s) {
      var step, t :| Proper(s, step) && Next(s, step, t);
      OnlyIfBusy(s, step, t);
    }
    if !s.cancelled && Busy(s) {
      var step, t := GoesOn(s);
    }
    if s.cancelled && !AllDone(s) {
      var step, t := Stops(s);
    }
  }

  /** At rest without a cancellation, a target nothing was dropped for has been sent every flow packet, in order. */
  lemma RestIsComplete(states: seq<State>, steps: seq<Step>, n: nat, k: nat)
    requires Run(states, steps) && n < |states| && k < |states[n].targets|
    requires !states[n].cancelled && !CanGoOn(states[n]) && Undropped(states[n], k)
    ensures states[n].targets[k].sent == FlowsIn(states[n].received)
  {
    Progress(states, steps, n);
    hide Next, Init, CanGoOn, FlowsIn, IsFlow;
    NothingElseIsLost(states, steps, n, k);
    NoFlows();
    assert states[n].proxyChan + Held(states[n].listenerHand) == [];
  }

  lemma NoFlows()
    ensures FlowsIn([]) == []
  {
  }

  // ----- Runs that relay everything -----

  lemma RunNext(states: seq<State>, steps: seq<Step>, step: Step, t: State)
    requires Run(states, steps) && Next(states[|steps|], step, t)
    ensures Run(states + [t], steps + [step])
  {
    hide Next;
    var more, longer := states + [t], steps + [step];
    forall i | 0 <= i < |longer| ensures Next(more[i], longer[i], more[i + 1]) {
      if i < |steps| {
        assert more[i] == states[i] && more[i + 1] == states[i + 1];
      } else {
        assert more[i] == states[|steps|] && more[i + 1] == t;
      }
    }
  }

  /** A run that can be left to itself until it rests, dropping nothing. */
  lemma {:induction false} Drain(states: seq<State>, steps: seq<Step>) returns (more: seq<State>, longer: seq<Step>)
    requires Run(states, steps) && !states[|steps|].cancelled && NoDrops(states[|steps|])
    ensures Run(more, longer) && states <= more && steps <= longer
    ensures var s, t := states[|steps|], more[|longer|];
            !t.cancelled && NoDrops(t) && !Busy(t) && t.received == s.received && |t.targets| == |s.targets|
    decreases Remaining(states[|steps|])
  {
    hide Next, Init, Busy, NoDrops, Remaining;
    var s := states[|steps|];
    RunRemains(states, steps, |steps|);
    if !Busy(s) {
      more, longer := states, steps;
    } else {
      RemainingIsNat(s);
      var step, t := GoesOn(s);
      StepRemains(s, step, t);
      RunNext(states, steps, step, t);
      more, longer := Drain(states + [t], steps + [step]);
    }
  }

  /** Whatever is received, and however much, some run sends every flow packet to every target, in order. */
  lemma {:induction false} Relays(payloads: seq<Payload>, targets: nat) returns (states: seq<State>, steps: seq<Step>)
    ensures Run(states, steps)
    ensures var s := states[|steps|];
            && s.received == payloads && |s.targets| == targets && !s.cancelled && !Busy(s) && NoDrops(s)
            && forall k :: 0 <= k < targets ==> s.targets[k].sent == FlowsIn(payloads)
  {
    hide Next, FlowsIn, CanGoOn, Remaining;
    if payloads == [] {
      states, steps := [Start(targets)], [];
      StartsSo(targets);
    } else {
      var n := |payloads| - 1;
      states, steps := Relays(payloads[..n], targets);
      var s := states[|steps|];
      var t := s.(received := s.received + [payloads[n]], listenerHand := Some(payloads[n]));
      RunRemains(states, steps, |steps|);
      Receives(s, payloads[n], t);
      RunNext(states, steps, Receive(payloads[n]), t);
      assert payloads[..n] + [payloads[n]] == payloads;
      states, steps := Drain(states + [t], steps + [Receive(payloads[n])]);
    }
    var s := states[|steps|];
    Progress(states, steps, |steps|);
    forall k | 0 <= k < targets ensures s.targets[k].sent == FlowsIn(payloads) {
      RestIsComplete(states, steps, |steps|, k);
    }
  }

  function Start(targets: nat): State {
    State([], None, 0, false, [], [], 0, 0, None, 0, false, [], [], None, 0, false,
          seq(targets, _ => Target([], None, [], 0, false)), false)
  }

  lemma StartsSo(targets: nat)
    ensures Run([Start(targets)], []) && NoDrops(Start(targets)) && !Busy(Start(targets))
  {
  }

  lemma Receives(s: State, p: Payload, t: State)
    requires Sane(s) && !s.cancelled && !Busy(s)
    requires t == s.(received := s.received + [p], listenerHand := Some(p))
    ensures Next(s, Receive(p), t) && (NoDrops(s) ==> NoDrops(t))
  {
  }

  /** Any run can be cancelled, and then every goroutine returns. */
  lemma {:induction false} Cancels(states: seq<State>, steps: seq<Step>) returns (more: seq<State>, longer: seq<Step>)
    requires Run(states, steps)
    ensures Run(more, longer) && states <= more && steps <= longer
    ensures more[|longer|].cancelled && AllDone(more[|longer|]) && more[|longer|].received == states[|steps|].received
    decreases Remaining(states[|steps|])
  {
    hide Next, Init, AllDone, Remaining;
    var s := states[|steps|];
    RunRemains(states, steps, |steps|);
    RemainingIsNat(s);
    if s.cancelled && AllDone(s) {
      more, longer := states, steps;
    } else {
      var step, t;
      if s.cancelled {
        step, t := Stops(s);
      } else {
        step, t := Cancel, s.(cancelled := true);
        CancelIsNext(s, t);
      }
      StepRemains(s, step, t);
      StepSane(s, step, t);
      RemainingIsNat(t);
      RunNext(states, steps, step, t);
      more, longer := Cancels(states + [t], steps + [step]);
    }
  }

  lemma CancelIsNext(s: State, t: State)
    requires !s.cancelled && t == s.(cancelled := true)
    ensures Next(s, Cancel, t)
  {
  }

  /** A push waits for nothing: it happens below 1024 payloads in the queue and is a drop at 1024. */
  lemma PushOrDrop(s: State)
    ensures (exists t :: Next(s, ListenerPushes, t)) <==>
              !s.listenerDone && s.listenerHand.Some? && |s.proxyChan| < 1024
    ensures (exists t :: Next(s, ListenerDrops, t)) <==>
              !s.listenerDone && s.listenerHand.Some? && |s.proxyChan| == 1024
  {
    if !s.listenerDone && s.listenerHand.Some? {
      if |s.proxyChan| < 1024 {
        assert Next(s, ListenerPushes, s.(proxyChan := s.proxyChan + [s.listenerHand.value], listenerHand := None));
      }
      if |s.proxyChan| == 1024 {
        assert Next(s, ListenerDrops, s.(listenerHand := None, listenerDrops := s.listenerDrops + 1));
      }
    }
  }

  /** Listening and sending may fail at any time; the failure ends the goroutine and cancels the rest. */
  lemma MayFail(s: State, k: nat)
    ensures !s.listenerDone ==> exists t :: Next(s, ListenerStops, t) && t.cancelled && t.listenerDone
    ensures k < |s.targets| && !s.targets[k].done ==>
              exists t :: Next(s, WorkerStops(k), t) && t.cancelled && k < |t.targets| && t.targets[k].done
  {
    if !s.listenerDone {
      assert Next(s, ListenerStops, s.(listenerDone := true, cancelled := true));
    }
    if k < |s.targets| && !s.targets[k].done {
      assert Next(s, WorkerStops(k), s.(targets := s.targets[k := s.targets[k].(done := true)], cancelled := true));
    }
  }
}
