/** What a host never takes back: bindings, filled messages, the published log, time. And where every
    tick leaves it. */
module HostGrowth {
  import opened Options
  import opened Packets
  import opened Queues
  import opened Trails
  import opened PeerStates
  import opened HostRuns

  /** The part of the log whose order and times are settled. */
  function Published(h: PeerState): seq<Entry>
    requires h.queueIndex <= |h.queue|
  {
    h.queue[..h.queueIndex]
  }

  function Rank(state: SlotState): nat {
    match state
    case Empty => 0
    case SessionRequest => 1
    case Ready => 2
  }

  ghost predicate SlotGrows(a: Slot, b: Slot) {
    && b.local == a.local
    && (a.remote.id != UNDEFINED ==> b.remote.id == a.remote.id && b.actor == a.actor)
    && Extends(a.queue, b.queue)
    && a.inIndex <= b.inIndex && a.outIndex <= b.outIndex
    && Rank(a.state) <= Rank(b.state)
  }

  /** h can become g. */
  ghost predicate Grows(h: PeerState, g: PeerState) {
    && h.queueIndex <= |h.queue| && g.queueIndex <= |g.queue|
    && Published(h) <= Published(g)
    && h.time <= g.time
    && |g.slots| == |h.slots|
    && forall i :: 0 <= i < |h.slots| ==> SlotGrows(h.slots[i], g.slots[i])
  }

  lemma GrowsTransitive(a: PeerState, b: PeerState, c: PeerState)
    requires Grows(a, b) && Grows(b, c)
    ensures Grows(a, c)
  {
    forall i | 0 <= i < |a.slots| ensures SlotGrows(a.slots[i], c.slots[i]) {
      assert SlotGrows(a.slots[i], b.slots[i]) && SlotGrows(b.slots[i], c.slots[i]);
    }
  }

  lemma OneSlotGrows(h: PeerState, j: nat, slot: Slot)
    requires h.queueIndex <= |h.queue| && j < |h.slots| && SlotGrows(h.slots[j], slot)
    ensures Grows(h, h.(slots := h.slots[j := slot]))
  {
  }

  lemma AcceptGrows(t: HostTrace, p: Packet)
    requires HostInv(t) && StepAllowed(t, Accept(p))
    ensures Grows(t.host, InputPacket(t.host, p).state)
  {
    var h := t.host;
    if HasLocal(h.slots, p.destination) {
      match FindMatch(h.slots, p, 0)
      case Some(j) =>
        PacketChunksSmall(p);
        HostReceiveAllKeeps(h, j, h.queue, PacketChunks(p));
        OneSlotGrows(h, j, ReceiveAll(h, j, PacketChunks(p)).state.slots[j]);
      case None =>
        match FindFree(h.slots, 1)
        case Some(j) => OneSlotGrows(h, j, Assigned(h.slots[j], j, p));
        case None =>
    }
  }

  lemma EnqueueGrows(t: HostTrace, data: seq<byte>)
    requires HostInv(t)
    ensures Grows(t.host, Enqueued(t.host, Some(data)).state)
  {
  }

  /** Where an accepted tick leaves slot i. */
  ghost predicate SlotSettled(a: Slot, b: Slot, log: seq<Entry>) {
    && SlotGrows(a, b)
    && b.queue == a.queue && b.remote == a.remote
    && b.inIndex == ReadyEnd(a.queue, a.inIndex)
    && (a.state == Ready ==> b.outIndex == |log|)
    && (b.state == if a.state == SessionRequest then Ready else a.state)
  }

  lemma MergedSettles(t: HostTrace, elapsed: nat, i: nat)
    requires HostInv(t) && TickAccepted(t.host, elapsed) && 0 < i < |t.host.slots|
    ensures var m := Merged(Advanced(t.host, elapsed)); var a := t.host.slots[i];
            && HostSendable(m) && |m.slots| == |t.host.slots|
            && m.slots[i] == a.(clock := m.slots[i].clock, inIndex := ReadyEnd(a.queue, a.inIndex))
            && a.outIndex <= |m.queue|
  {
    hide HostInv;
    var a := Advanced(t.host, elapsed);
    MergedOk(t, elapsed);
    assert MergedUpTo(Stamped(a), MergeTo(Stamped(a), |a.slots|), |a.slots|);
  }

  lemma MergedLog(t: HostTrace, elapsed: nat)
    requires HostInv(t) && TickAccepted(t.host, elapsed)
    ensures var m := Merged(Advanced(t.host, elapsed));
            && Published(t.host) <= m.queue && m.queueIndex == |m.queue| && m.time == t.host.timeLocal + elapsed
            && |m.slots| == |t.host.slots|
            && (|m.slots| > 0 ==> m.slots[0] == t.host.slots[0])
            && (forall k :: |t.host.queue| <= k < |m.queue| ==> m.queue[k].time == m.time)
            && (forall k :: t.host.queueIndex <= k < |m.queue| ==> m.queue[k].time == m.time)
  {
    hide HostInv, BooksOk, TimesOk, HostSendable;
    var a := Advanced(t.host, elapsed);
    MergedOk(t, elapsed);
    TraceBounds(t);
    StampedLog(t.host, elapsed);
  }

  lemma TraceBounds(t: HostTrace)
    requires HostInv(t)
    ensures t.host.queueIndex <= |t.host.queue|
    ensures |t.host.slots| > 0 ==> t.host.slots[0].clock == 0
    ensures t.host.time == t.host.timeLocal
  {
  }

  lemma StampedLog(h: PeerState, elapsed: nat)
    requires h.queueIndex <= |h.queue|
    ensures var s := Stamped(Advanced(h, elapsed));
            && |s.queue| == |h.queue| && Published(h) <= s.queue && s.time == h.timeLocal + elapsed
            && |s.slots| == |h.slots|
            && (|h.slots| > 0 && h.slots[0].clock == 0 ==> s.slots[0] == h.slots[0])
            && (forall k :: h.queueIndex <= k < |s.queue| ==> s.queue[k].time == s.time)
  {
    assert Stamped(Advanced(h, elapsed)).queue[..h.queueIndex] == Published(h);
  }

  /** After every accepted tick the whole log is published, every inbox is drained up to its first gap,
      and every slot that was ready has been sent everything. */
  lemma TickSettles(t: HostTrace, elapsed: nat, draws: Draws)
    requires HostInv(t) && TickAccepted(t.host, elapsed) && TickOk(t.host, elapsed)
    ensures var g := Tick(t.host, elapsed, draws).state;
            && Published(t.host) <= g.queue && g.queueIndex == |g.queue|
            && g.time == t.host.timeLocal + elapsed
            && |g.slots| == |t.host.slots|
            && (|g.slots| > 0 ==> g.slots[0] == t.host.slots[0])
            && (forall i :: 0 < i < |g.slots| ==> SlotSettled(t.host.slots[i], g.slots[i], g.queue))
  {
    hide HostInv, Merged, HostSend, SlotSettled, Published, HostSendable;
    var m := Merged(Advanced(t.host, elapsed));
    MergedOk(t, elapsed);
    MergedLog(t, elapsed);
    TickedState(t, elapsed, draws);
    forall i | 0 < i < |m.slots| ensures SlotSettled(t.host.slots[i], HostSend(m, i, draws).slot, m.queue) {
      SlotSettles(t, elapsed, draws, i);
    }
  }

  lemma SlotSettles(t: HostTrace, elapsed: nat, draws: Draws, i: nat)
    requires HostInv(t) && TickAccepted(t.host, elapsed) && 0 < i < |t.host.slots|
    ensures var m := Merged(Advanced(t.host, elapsed));
            && HostSendable(m) && i < |m.slots|
            && SlotSettled(t.host.slots[i], HostSend(m, i, draws).slot, m.queue)
  {
    hide HostInv, Merged, HostSend;
    var m := Merged(Advanced(t.host, elapsed));
    MergedSettles(t, elapsed, i);
    HostSendShape(m, i, draws);
  }

  lemma TickGrows(t: HostTrace, elapsed: int, draws: Draws)
    requires HostInv(t) && TickOk(t.host, elapsed)
    ensures Grows(t.host, Tick(t.host, elapsed, draws).state)
  {
    hide PeerStates.Tick, TickOk, HostInv;
    TraceBounds(t);
    if TickAccepted(t.host, elapsed) {
      TickSettles(t, elapsed, draws);
      SettledGrows(t.host, PeerStates.Tick(t.host, elapsed, draws).state);
    } else {
      RejectedTick(t.host, elapsed, draws);
    }
  }

  lemma SettledGrows(h: PeerState, g: PeerState)
    requires h.queueIndex <= |h.queue| && g.queueIndex == |g.queue| && Published(h) <= g.queue && h.time <= g.time
    requires |g.slots| == |h.slots| && (|g.slots| > 0 ==> g.slots[0] == h.slots[0])
    requires forall i :: 0 < i < |g.slots| ==> SlotSettled(h.slots[i], g.slots[i], g.queue)
    ensures Grows(h, g)
  {
    assert Published(g) == g.queue;
    forall i | 0 <= i < |h.slots| ensures SlotGrows(h.slots[i], g.slots[i]) {
      if i > 0 {
        assert SlotSettled(h.slots[i], g.slots[i], g.queue);
      }
    }
  }

  /** Bindings, filled messages, published entries with their times, and time itself are never taken back by
      any step. */
  lemma StepGrows(t: HostTrace, step: HostStep)
    requires HostInv(t) && StepAllowed(t, step)
    ensures Grows(t.host, HostNext(t, step).host)
  {
    match step
    case Enqueue(data) => EnqueueGrows(t, data);
    case Accept(p) => AcceptGrows(t, p);
    case Elapse(elapsed, draws) => TickGrows(t, elapsed, draws);
  }

  /** Nor by any number of steps. */
  lemma {:induction false} RunGrows(t: HostTrace, steps: seq<HostStep>, n: nat)
    requires HostRun(t, steps) && n <= |steps|
    ensures HostRun(t, steps[..n])
    ensures Grows(HostAfter(t, steps[..n]).host, HostAfter(t, steps).host)
  {
    if n == |steps| {
      assert steps[..n] == steps;
    } else {
      var most := steps[..|steps| - 1];
      assert most[..n] == steps[..n];
      hide Grows, HostInv, HostNext;
      RunGrows(t, most, n);
      StepGrows(HostAfter(t, most), steps[|steps| - 1]);
      GrowsTransitive(HostAfter(t, steps[..n]).host, HostAfter(t, most).host, HostAfter(t, steps).host);
    }
  }

  /** In every run: entries published once stay as they are, in time order; what the host queued and what
      it took from each inbox is in the log, in order and complete; and no slot stays silent for more
      than the heartbeat timeout. */
  lemma HostGuarantees(t: HostTrace, steps: seq<HostStep>, n: nat)
    requires HostRun(t, steps) && n <= |steps|
    ensures HostRun(t, steps[..n])
    ensures var past, now := HostAfter(t, steps[..n]), HostAfter(t, steps); var h := now.host;
            && Published(past.host) <= Published(h)
            && TimesOk(h.queue, h.queueIndex, h.time)
            && SentBy(h.queue, 0) == now.hosted
            && |h.queue| == |now.hosted| + SumIn(h.slots)
            && (forall i :: 0 < i < |h.slots| ==>
                  && SentBy(h.queue, i) == Payloads(h.slots[i].queue[..h.slots[i].inIndex])
                  && (h.slots[i].state == Ready ==>
                        0 < h.slots[i].clock == 10 - now.quiet[i] && 0 <= now.quiet[i] < 10))
  {
    hide HostAfter;
    RunGrows(t, steps, n);
    assert HostInv(HostAfter(t, steps)) && HostInv(HostAfter(t, steps[..n]));
    var now := HostAfter(t, steps);
    forall i | 0 < i < |now.host.slots|
      ensures SlotOk(now.host.slots[i], i, now.host.queue) && ClockOk(now.host.slots[i], now.quiet[i])
    {
    }
  }
}
