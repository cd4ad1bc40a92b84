/** The ticks of a client: what they send, how the heartbeat clock runs, and when one must not be made. */
module ClientTicks {
  import opened Options
  import opened Trails
  import opened PeerStates
  import opened HostRuns
  import opened Network

  /** The tick sends a heartbeat. */
  predicate Beats(c: PeerState, elapsed: int)
    requires |c.slots| == 1
  {
    TickAccepted(c, elapsed) && ClientBeats(Aged(c.slots[0], elapsed))
  }

  /** An accepted tick sends something exactly when there is something new or the clock has run out, and then
      everything has been sent once. Only a heartbeat winds the clock up again: new messages leave it running. */
  lemma ClientTickShape(h: PeerState, c: PeerState, elapsed: int, draws: Draws)
    requires ClientOk(h, c) && TickAccepted(c, elapsed) && TickOk(c, elapsed)
    ensures var r := PeerStates.Tick(c, elapsed, draws); var slot := c.slots[0];
            var left := if slot.clock > 0 then slot.clock - elapsed else slot.clock;
            && r.status == OK && |r.state.slots| == 1 && r.state.timeLocal == c.timeLocal + elapsed
            && (r.packets != [] <==> slot.outIndex < |slot.queue| || left <= 0)
            && r.state.slots[0].outIndex == |slot.queue|
            && r.state.slots[0].clock
               == (if slot.outIndex == |slot.queue| && left <= 0 then 10 else left)
            && (slot.outIndex == |slot.queue| ==> r.state.slots[0].clock > 0)
  {
    hide QueuePackets, HeartbeatPackets, MutualOk, SessionOk;
    var slot := Advanced(c, elapsed).slots[0];
    if slot.outIndex < |slot.queue| {
      QueuePacketsSome(slot.queue, slot.outIndex, slot.local.id, slot.remote.id, draws, 0);
    } else if slot.clock <= 0 {
      HeartbeatPacketsSome(slot.local.id, slot.remote.id, c.queue, slot.outIndex, 0, c.actor, draws, 0);
    }
  }

  /** A client may tick except exactly when the tick beats and its out-index, which counts its own messages,
      lies beyond the mutual queue, out of which the heartbeat takes its trail. */
  lemma ClientTickOkIff(t: HostTrace, c: PeerState, elapsed: int)
    requires HostInv(t) && ClientOk(t.host, c)
    ensures TickOk(c, elapsed) <==> !(Beats(c, elapsed) && c.slots[0].outIndex > |c.queue|)
  {
    MutualFits(t, c);
    hide HostInv, MutualOk, SessionOk;
  }

  lemma MutualFits(t: HostTrace, c: PeerState)
    requires HostInv(t) && ClientOk(t.host, c)
    ensures QueueFits(c.queue)
  {
    hide ClocksOk, SlotOk, SessionOk, OutboxOk, SumIn, TimeOk, IndicesOk;
    forall k | 0 <= k < |c.queue| ensures |c.queue[k].data| <= MAX_MESSAGE_SIZE {
      if c.queue[k].ready {
        assert c.queue[k] == t.host.queue[k];
      }
    }
  }
}
