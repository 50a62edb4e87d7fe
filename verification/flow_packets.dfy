/** What the recorder, the replayer and the proxy have in common: which payloads are flow packets. */
module FlowPackets {
  import opened Wrappers
  import opened Bytes
  import V9 = NetFlowCounts
  import V9Validator = NetFlowValidator
  import V9Properties = NetFlowProperties
  import V10 = IpfixGrammar
  import V10Validator = IpfixValidator

  type Payload = seq<Byte>

  ghost predicate IsNetFlow(payload: Payload) {
    V9.Accepted(payload, 9)
  }

  ghost predicate IsIpfix(payload: Payload) {
    V10.Accepted(payload)
  }

  ghost predicate IsFlow(payload: Payload) {
    IsNetFlow(payload) || IsIpfix(payload)
  }

  /** Tries NetFlow v9, then IPFIX. */
  method CheckFlow(payload: Payload) returns (ok: bool)
    ensures ok <==> IsFlow(payload)
  {
    var err;
    ok, err := V9Validator.IsValidNetFlow(payload, 9);
    if err.Some? {
      ok, err := V10Validator.IsValidIPFIX(payload);
      if err.Some? {
        return false;
      }
    }
  }

  /** The version field; 0 when the payload is too short for one. */
  function NetflowVersion(payload: Payload): nat {
    if |payload| < 2 then 0 else GetU16(payload, 0)
  }

  /** The version field tells the two protocols apart, and a flow packet has its whole header. */
  lemma VersionOfFlow(payload: Payload)
    ensures IsNetFlow(payload) ==> |payload| >= 20 && NetflowVersion(payload) == 9
    ensures IsIpfix(payload) ==> |payload| >= 16 && NetflowVersion(payload) == 10
    ensures !(IsNetFlow(payload) && IsIpfix(payload))
  {
    V9Validator.OneReading(payload, 9);
    V10.OneReading(payload);
  }

  /** `b` is `a` with the header time of its protocol set to `now`. */
  ghost predicate IsRefreshed(a: Payload, b: Payload, now: U32) {
    if NetflowVersion(a) == 9 then |a| >= 20 && b == V9Properties.Refreshed(a, now)
    else NetflowVersion(a) == 10 && |a| >= 16 && b == V10Validator.Refreshed(a, now)
  }

  /** Dispatches on the version; fails on other versions and on short headers, and only then. */
  method UpdateTimestamp(payload: Payload, now: U32) returns (r: Result<Payload>)
    ensures r.Ok? ==> IsRefreshed(payload, r.value, now)
    ensures r.Err? <==> forall b :: !IsRefreshed(payload, b, now)
  {
    var version := NetflowVersion(payload);
    if version == 9 {
      r := V9Properties.UpdateTimeStamp(payload, now);
      assert r.Ok? ==> IsRefreshed(payload, r.value, now);
    } else if version == 10 {
      r := V10Validator.UpdateTimeStamp(payload, now);
      assert r.Ok? ==> IsRefreshed(payload, r.value, now);
    } else {
      r := Err("unsupported flow version for timestamp update");
    }
  }

  /** `b` is `a` but for the four bytes from here on, which read as `now`. */
  ghost predicate StampedAt(a: Payload, b: Payload, at: nat, now: U32) {
    && |b| == |a| && at + 4 <= |b| && GetU32(b, at) == now
    && forall i :: 0 <= i < |b| && !(at <= i < at + 4) ==> b[i] == a[i]
  }

  /** The time of a version 9 header of 20 bytes is at 8, that of a version 10 header of 16 bytes at 4. */
  ghost predicate Stamped(a: Payload, b: Payload, now: U32) {
    || (|a| >= 20 && a[0] == 0 && a[1] == 9 && StampedAt(a, b, 8, now))
    || (|a| >= 16 && a[0] == 0 && a[1] == 10 && StampedAt(a, b, 4, now))
  }

  lemma OneStamp(a: Payload, b: Payload, c: Payload, at: nat, now: U32)
    requires StampedAt(a, b, at, now) && StampedAt(a, c, at, now)
    ensures b == c
  {
    U32Bytes(b, at);
    U32Bytes(c, at);
    forall i | 0 <= i < |b| ensures b[i] == c[i] {
      if at <= i < at + 4 {
        assert b[at..at + 4][i - at] == c[at..at + 4][i - at];
      }
    }
  }

  /** On bytes, a refresh is a new stamp. */
  lemma RefreshIsStamp(a: Payload, b: Payload, now: U32)
    ensures IsRefreshed(a, b, now) <==> Stamped(a, b, now)
  {
    hide GetU32, V9Properties.Refreshed, V10Validator.Refreshed;
    if |a| >= 20 && a[0] == 0 && a[1] == 9 {
      V9Properties.RefreshKeepsBytes(a, now);
      assert StampedAt(a, V9Properties.Refreshed(a, now), 8, now);
      if StampedAt(a, b, 8, now) {
        OneStamp(a, b, V9Properties.Refreshed(a, now), 8, now);
      }
    } else if |a| >= 16 && a[0] == 0 && a[1] == 10 {
      V10Validator.RefreshKeepsBytes(a, now);
      assert StampedAt(a, V10Validator.Refreshed(a, now), 4, now);
      if StampedAt(a, b, 4, now) {
        OneStamp(a, b, V10Validator.Refreshed(a, now), 4, now);
      }
    }
  }

  /** The first two bytes decide whose packet it can be. */
  lemma FlowByVersion(payload: Payload)
    ensures IsFlow(payload) <==>
              && |payload| >= 2 && payload[0] == 0
              && ((payload[1] == 9 && V9.Accepted(payload, 9)) || (payload[1] == 10 && V10.Accepted(payload)))
  {
    hide V9.Accepted, V10.Accepted;
    VersionOfFlow(payload);
  }

  /** Both are packets of the same protocol, or neither is a flow packet. */
  ghost predicate SameProtocol(a: Payload, b: Payload) {
    (IsNetFlow(b) <==> IsNetFlow(a)) && (IsIpfix(b) <==> IsIpfix(a))
  }

  /** Every flow packet survives a refresh, and stays a packet of the same protocol. */
  lemma RefreshKeepsFlow(payload: Payload, now: U32)
    requires IsFlow(payload)
    ensures exists b :: IsRefreshed(payload, b, now)
    ensures forall b :: IsRefreshed(payload, b, now) ==> SameProtocol(payload, b)
  {
    hide V9.Accepted, V10.Accepted;
    VersionOfFlow(payload);
    if IsNetFlow(payload) {
      assert IsRefreshed(payload, V9Properties.Refreshed(payload, now), now);
    } else {
      assert IsRefreshed(payload, V10Validator.Refreshed(payload, now), now);
    }
    forall b | IsRefreshed(payload, b, now) ensures SameProtocol(payload, b) {
      VersionOfFlow(b);
      if NetflowVersion(payload) == 9 {
        V9Properties.RefreshKeepsVerdict(payload, now, 9);
      } else {
        V10Validator.RefreshKeepsVerdict(payload, now);
      }
    }
  }

  /** The flow packets among some payloads, in order. */
  ghost function FlowsIn(ps: seq<Payload>): seq<Payload> {
    if ps == [] then []
    else
      var front := FlowsIn(ps[..|ps| - 1]);
      if IsFlow(ps[|ps| - 1]) then front + [ps[|ps| - 1]] else front
  }

  lemma {:induction false} FlowsAreFlows(ps: seq<Payload>, i: nat)
    requires i < |FlowsIn(ps)|
    ensures IsFlow(FlowsIn(ps)[i])
  {
    hide IsFlow;
    if ps == [] {
      assert false;
    } else {
      var front := ps[..|ps| - 1];
      if i < |FlowsIn(front)| {
        FlowsAreFlows(front, i);
      }
    }
  }

  lemma {:induction false} FlowsConcat(a: seq<Payload>, b: seq<Payload>)
    ensures FlowsIn(a + b) == FlowsIn(a) + FlowsIn(b)
  {
    hide IsFlow;
    if b == [] {
      assert a + b == a && FlowsIn(a) + [] == FlowsIn(a);
    } else {
      var n := |b| - 1;
      assert (a + b)[..|a + b| - 1] == a + b[..n];
      FlowsConcat(a, b[..n]);
      assert FlowsIn(a) + (FlowsIn(b[..n]) + [b[n]]) == FlowsIn(a) + FlowsIn(b[..n]) + [b[n]];
    }
  }

  lemma FlowsOne(p: Payload)
    ensures FlowsIn([p]) == if IsFlow(p) then [p] else []
  {
    assert [p][..0] == [];
  }

  /** The payload a goroutine holds, as a sequence. */
  function Held(hand: Option<Payload>): seq<Payload> {
    match hand case None => [] case Some(p) => [p]
  }
}
