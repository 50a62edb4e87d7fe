/** What a barrage sends, recorded and replayed, arrives as it was sent. */
module EndToEnd {
  import opened Bytes
  import opened FlowPackets
  import opened Barrage
  import RecordStore
  import RecordPipeline
  import Proxy
  import ProxyProgress
  import Replay

  /** Every packet a barrage worker hands to the socket is a flow packet. */
  lemma {:induction false} BarrageIsFlows(p: Protocol, packets: seq<seq<Byte>>)
    requires forall i :: 0 <= i < |packets| ==> Valid(p, packets[i])
    ensures FlowsIn(packets) == packets
  {
    hide Valid, IsFlow;
    if packets == [] {
    } else {
      var n := |packets| - 1;
      ValidIsFlow(p, packets[n]);
      BarrageIsFlows(p, packets[..n]);
      assert packets == packets[..n] + [packets[n]];
    }
  }

  lemma ValidIsFlow(p: Protocol, packet: seq<Byte>)
    requires Valid(p, packet)
    ensures IsFlow(packet)
  {
  }

  lemma WireIsFlows(p: Protocol, log: seq<Export>, packets: seq<seq<Byte>>)
    requires Wire(p, log, packets)
    ensures FlowsIn(packets) == packets
  {
    hide Valid, ExportBytes, FlowsIn;
    BarrageIsFlows(p, packets);
  }

  /** A recorder at rest that has received what a worker sent has stored all of it, behind what was there, in order. */
  lemma BarrageIsRecorded(p: Protocol, log: seq<Export>, packets: seq<seq<Byte>>,
                          entries: RecordStore.Entries, order: seq<RecordStore.Key>, next: nat,
                          states: seq<RecordPipeline.State>, steps: seq<RecordPipeline.Step>, k: nat)
    requires Wire(p, log, packets) && RecordPipeline.Run(entries, next, states, steps) && k < |states|
    requires RecordStore.Visits(order, entries) && RecordStore.FourByteKeys(entries)
    requires states[k].received == packets && !states[k].cancelled && !RecordPipeline.CanGoOn(states[k])
    ensures states[k].stored == packets
    ensures var s := states[k];
            var longer := order + RecordStore.Keys(next, |packets|);
            && RecordStore.Visits(longer, s.db)
            && RecordStore.ReadAll(longer, s.db) == RecordStore.ReadAll(order, entries) + packets
  {
    hide Wire, RecordPipeline.Run, FlowsIn, RecordPipeline.CanGoOn, RecordStore.Visits, RecordStore.FourByteKeys;
    hide RecordStore.Keys, RecordStore.ReadAll, RecordStore.Free;
    WireIsFlows(p, log, packets);
    RecordPipeline.RestIsComplete(entries, order, next, states, steps, k);
    RecordPipeline.Progress(entries, next, states, steps, k);
    RecordPipeline.StoredIsPrefix(entries, next, states, steps, k);
  }

  /** Replayed by one worker without a refresh, it leaves as it came. */
  lemma BarrageIsReplayed(p: Protocol, log: seq<Export>, packets: seq<seq<Byte>>,
                          entries: RecordStore.Entries, order: seq<RecordStore.Key>, next: nat,
                          recording: seq<RecordPipeline.State>, writes: seq<RecordPipeline.Step>, k: nat,
                          job: Replay.Job, states: seq<Replay.State>, steps: seq<Replay.Step>)
    requires Wire(p, log, packets) && RecordPipeline.Run(entries, next, recording, writes) && k < |recording|
    requires RecordStore.Visits(order, entries) && RecordStore.FourByteKeys(entries)
    requires recording[k].received == packets && !recording[k].cancelled && !RecordPipeline.CanGoOn(recording[k])
    requires Replay.Reads(job, recording[k].db) && !job.refresh
    requires Replay.Run(job, states, steps) && |states[0].workers| == 1
    requires Replay.Ended(states[|steps|]) && !states[|steps|].cancelled
    ensures states[|steps|].sent == RecordStore.ReadAll(order, entries) + packets
  {
    hide Wire, RecordPipeline.Run, Replay.Run, RecordPipeline.CanGoOn, RecordStore.Visits, RecordStore.FourByteKeys;
    hide Replay.Reads, Replay.Ended;
    BarrageIsRecorded(p, log, packets, entries, order, next, recording, writes, k);
    Replay.RecordedIsSentInOrder(entries, order, next, recording, writes, k, job, states, steps);
  }

  /** Relayed by a proxy at rest that dropped nothing on the way to a target, it is sent there as it came. */
  lemma BarrageIsRelayed(p: Protocol, log: seq<Export>, packets: seq<seq<Byte>>,
                         states: seq<Proxy.State>, steps: seq<Proxy.Step>, n: nat, k: nat)
    requires Wire(p, log, packets) && Proxy.Run(states, steps) && n < |states| && k < |states[n].targets|
    requires states[n].received == packets && !states[n].cancelled && !ProxyProgress.CanGoOn(states[n])
    requires Proxy.Undropped(states[n], k)
    ensures states[n].targets[k].sent == packets
  {
    hide Wire, Proxy.Run, ProxyProgress.CanGoOn, FlowsIn;
    WireIsFlows(p, log, packets);
    ProxyProgress.RestIsComplete(states, steps, n, k);
  }

  /** And this happens: from an empty database, some recorder and some replay send what a barrage sent. */
  lemma SomeReplay(p: Protocol, log: seq<Export>, packets: seq<seq<Byte>>)
    returns (recording: seq<RecordPipeline.State>, writes: seq<RecordPipeline.Step>,
             job: Replay.Job, states: seq<Replay.State>, steps: seq<Replay.Step>)
    requires Wire(p, log, packets) && |packets| < MAX_U32
    ensures RecordPipeline.Run(map[], 1, recording, writes) && recording[|writes|].received == packets
    ensures Replay.Reads(job, recording[|writes|].db) && Replay.Run(job, states, steps) && states[0].workers != []
    ensures Replay.Ended(states[|steps|]) && states[|steps|].sent == packets
  {
    hide Wire, RecordPipeline.Next, RecordPipeline.CanGoOn, RecordPipeline.Unfinished, FlowsIn;
    hide RecordStore.Free, RecordStore.Append;
    hide Replay.Next, Replay.Reads, Replay.Ended, Replay.Copies;
    WireIsFlows(p, log, packets);
    EmptyDatabase();
    recording, writes := RecordPipeline.Records(map[], 1, packets);
    RecordPipeline.Progress(map[], 1, recording, writes, |writes|);
    job := Replay.ReadsIt(recording[|writes|].db, false);
    Replay.FlowsAreReadable(job.stored, false);
    states, steps := Replay.Sends(job, 1);
    BarrageIsReplayed(p, log, packets, map[], [], 1, recording, writes, |writes|, job, states, steps);
    assert RecordStore.ReadAll([], map[]) + packets == packets;
  }

  lemma EmptyDatabase()
    ensures RecordStore.Free(1, map[]) && RecordStore.Visits([], map[]) && RecordStore.FourByteKeys(map[])
  {
  }
}
