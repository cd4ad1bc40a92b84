/** A peer, host or client, updated in place. */
module Peers {
  import opened Options
  import opened Serial
  import opened Packets
  import opened Queues
  import opened Trails
  import opened PeerStates

  class Peer {
    const mode: Mode
    var time: int
    var timeLocal: int
    var actor: int
    var slots: seq<Slot>
    var queue: seq<Entry>
    var queueIndex: nat

    ghost function State(): PeerState
      reads this
    {
      PeerState(mode, time, timeLocal, actor, slots, queue, queueIndex)
    }

    constructor (mode: Mode)
      ensures State() == NewPeer(mode)
      ensures this.mode == mode && time == 0 && timeLocal == 0 && slots == [] && queue == [] && queueIndex == 0
      ensures actor == if mode == Host then 0 else -1
    {
      this.mode := mode;
      time, timeLocal := 0, 0;
      actor := if mode == Host then 0 else UNDEFINED;
      slots, queue, queueIndex := [], [], 0;
    }

    /** Opens one slot for each id. */
    method Open(ids: IdList) returns (status: Status)
      modifies this
      ensures Outcome(status, State()) == OpenOutcome(old(State()), ids)
    {
      match ids
      case NullIds(size) =>
        return if size == 0 then OK else {InvalidId};
      case Ids(values) =>
        for i := 0 to |values|
          invariant State() == OpenedSlots(old(State()), values[..i])
        {
          slots := slots + [NewSlot(mode, values[i], i)];
        }
        assert values[..|values|] == values;
        return OK;
    }

    /** Queues a message: on the mutual queue of a host, on the outgoing queue of a client. */
    method Queue(data: Option<seq<byte>>) returns (status: Status)
      modifies this
      ensures Outcome(status, State()) == Enqueued(old(State()), data)
    {
      if data.None? {
        return {InvalidMessage};
      }
      if mode == Host {
        queue := Append(queue, 0, actor, data.value);
        return OK;
      }
      if |slots| > 0 {
        slots := slots[0 := slots[0].(queue := Append(slots[0].queue, 0, actor, data.value))];
        return OK;
      }
      return {InvalidMode};
    }

    /** Points the first unbound slot at a server. */
    method Connect(server: int) returns (status: Status)
      modifies this
      ensures Outcome(status, State()) == Connected(old(State()), server)
    {
      for i := 0 to |slots|
        invariant FindUnbound(slots, 0) == FindUnbound(slots, i)
        invariant State() == old(State())
      {
        if slots[i].remote.id == UNDEFINED {
          slots := slots[i := slots[i].(remote := Endpoint(server, true, []))];
          return OK;
        }
      }
      return {NoFreeSlots};
    }

    // ---- Receiving ----

    method ReceiveAsHost(j: nat, m: Message) returns (status: Status)
      requires mode == Host && j < |slots|
      modifies this
      ensures Outcome(status, State()) == Receive(old(State()), j, m)
    {
      var slot := slots[j];
      assert slots[j := slot] == slots;
      if m.time != 0 {
        return {InvalidMessageTime};
      }
      if Actor32(m) != slot.actor {
        return {InvalidMessageActor};
      }
      if m.mode == MESSAGE_MODE_SERVICE {
        return if IsService(m, M_HEARTBEAT) then OK else {UnknownServiceId};
      }
      var r := Insert(slot.queue, m.index, m.time, Actor32(m), m.data);
      slots := slots[j := slot.(queue := r.queue)];
      return r.status;
    }

    method ReceiveAsClient(j: nat, m: Message) returns (status: Status)
      requires mode == Client && j < |slots|
      modifies this
      ensures Outcome(status, State()) == Receive(old(State()), j, m)
    {
      status := OK;
      if m.mode == MESSAGE_MODE_SERVICE {
        if IsService(m, M_HEARTBEAT) {
        } else if IsService(m, M_SESSION_RESPONSE) {
          AdoptSession(j, m);
        } else {
          status := {UnknownServiceId};
        }
      } else {
        var r := Insert(queue, m.index, m.time, Actor32(m), m.data);
        queue, status := r.queue, r.status;
      }
      if time < m.time {
        time := m.time;
      }
    }

    /** Takes over the actor and the remote address of a session response and restamps the queued messages. */
    method AdoptSession(j: nat, m: Message)
      requires j < |slots| && |m.data| >= 1
      modifies this
      ensures State() == Adopt(old(State()), j, m)
    {
      actor := Actor32(m);
      var slot := slots[j];
      var q := slot.queue;
      for k := 0 to |q|
        invariant |q| == |slot.queue|
        invariant forall i :: 0 <= i < |q| ==> q[i] == if i < k then slot.queue[i].(actor := actor) else slot.queue[i]
      {
        q := q[k := q[k].(actor := actor)];
      }
      assert q == Restamp(slot.queue, actor);
      slots := slots[j := slot.(remote := slot.remote.(resolved := false, address := m.data[1..]), queue := q)];
    }

    method InputChunks(j: nat, chunks: seq<Chunk>) returns (status: Status)
      requires j < |slots| && Headed(chunks)
      modifies this
      ensures Outcome(status, State()) == ReceiveAll(old(State()), j, chunks)
    {
      status := OK;
      for k := 0 to |chunks|
        invariant |slots| == |old(slots)|
        invariant Outcome(status, State()) == ReceiveAll(old(State()), j, chunks[..k])
      {
        assert chunks[..k + 1][..k] == chunks[..k];
        var m := ReadMessage(chunks[k]);
        var s;
        if mode == Host {
          s := ReceiveAsHost(j, m);
        } else {
          s := ReceiveAsClient(j, m);
        }
        status := status + s;
      }
      assert chunks[..|chunks|] == chunks;
    }

    method InputOne(p: Packet) returns (status: Status)
      requires InputOk(State(), p)
      modifies this
      ensures Outcome(status, State()) == InputPacket(old(State()), p)
    {
      status := OK;
      var found := false;
      for j := 0 to |slots|
        invariant found <==> exists i :: 0 <= i < j && slots[i].local.id == p.destination
      {
        if slots[j].local.id == p.destination {
          found := true;
          break;
        }
      }
      assert found <==> HasLocal(slots, p.destination);
      if !found {
        return OK;
      }
      for j := 0 to |slots|
        invariant State() == old(State())
        invariant FindMatch(slots, p, 0) == FindMatch(slots, p, j)
      {
        if Matches(slots[j], p) {
          var s, chunks := Unpack([p]);
          UnpackOne(p);
          status := InputChunks(j, chunks);
          status := s + status;
          return status;
        }
      }
      if mode != Host || slots[0].remote.id != UNDEFINED {
        return OK;
      }
      for j := 1 to |slots|
        invariant State() == old(State())
        invariant FindFree(slots, 1) == FindFree(slots, j)
      {
        if Assignable(slots[j]) {
          slots := slots[j := Assigned(slots[j], j, p)];
          return OK;
        }
      }
      return {NoFreeSlots};
    }

    /** Takes in received packets, one after another. */
    method Input(packets: seq<Packet>) returns (status: Status)
      requires InputAllOk(State(), packets)
      modifies this
      ensures Outcome(status, State()) == InputAll(old(State()), packets)
    {
      status := OK;
      for i := 0 to |packets|
        invariant InputAllOk(old(State()), packets[..i])
        invariant Outcome(status, State()) == InputAll(old(State()), packets[..i])
      {
        InputAllOkPrefix(old(State()), packets, i + 1);
        assert packets[..i + 1][..i] == packets[..i];
        var s := InputOne(packets[i]);
        status := status + s;
      }
      assert packets[..|packets|] == packets;
    }

    // ---- Ticking ----

    method AdvanceClock(elapsed: int)
      modifies this
      ensures State() == Advanced(old(State()), elapsed)
    {
      timeLocal := timeLocal + elapsed;
      ghost var before := slots;
      for i := 0 to |slots|
        invariant |slots| == |before|
        invariant forall j :: 0 <= j < |slots| ==> slots[j] == if j < i then Aged(before[j], elapsed) else before[j]
        invariant State() == old(State()).(timeLocal := timeLocal, slots := slots) &&
            timeLocal == old(timeLocal) + elapsed
      {
        if slots[i].clock > 0 {
          slots := slots[i := slots[i].(clock := slots[i].clock - elapsed)];
        }
      }
      assert slots == AgedAll(before, elapsed);
    }

    method StampQueue()
      modifies this
      ensures State() == Stamped(old(State()))
    {
      time := timeLocal;
      ghost var before := queue;
      var i := queueIndex;
      while i < |queue|
        invariant queueIndex <= i
        invariant |queue| == |before| && State() == old(State()).(time := timeLocal, queue := queue)
        invariant forall k :: 0 <= k < |queue| ==>
            queue[k] == if queueIndex <= k < i then before[k].(time := time) else before[k]
      {
        queue := queue[i := queue[i].(time := time)];
        i := i + 1;
      }
      assert queue == Stamp(before, queueIndex, time);
    }

    /** Moves the run of filled messages at slot i's in-index into the mutual queue, one by one. */
    method MergeOne(i: nat)
      requires i < |slots|
      modifies this
      ensures State() == MergeSlot(old(State()), i)
    {
      ghost var before, first := queue, slots[i].inIndex;
      while slots[i].inIndex < |slots[i].queue|
        invariant i < |slots| && first <= slots[i].inIndex
        invariant slots == old(slots)[i := old(slots)[i].(inIndex := slots[i].inIndex)]
        invariant slots[i].inIndex == first || slots[i].inIndex <= |slots[i].queue|
        invariant ReadyEnd(slots[i].queue, slots[i].inIndex) == ReadyEnd(slots[i].queue, first)
        invariant queue == before + Taken(slots[i].queue, first, slots[i].inIndex, time, slots[i].actor)
        invariant State() == old(State()).(queue := queue, slots := slots)
        decreases |slots[i].queue| - slots[i].inIndex
      {
        var slot := slots[i];
        var message := slot.queue[slot.inIndex];
        if !message.ready {
          break;
        }
        queue := Append(queue, time, slot.actor, message.data);
        slots := slots[i := slot.(inIndex := slot.inIndex + 1)];
      }
    }

    method MergeSlots()
      modifies this
      ensures State() == MergeTo(old(State()), |old(slots)|)
    {
      var i := 1;
      while i < |slots|
        invariant 1 <= i && (i <= |slots| || i == 1) && |slots| == |old(slots)|
        invariant State() == MergeTo(old(State()), if i <= |slots| then i else |slots|)
      {
        MergeOne(i);
        i := i + 1;
      }
    }

    /** Sends what slot i is due: a session response, new messages with a trail, or a heartbeat with one. */
    method SendFromHost(i: nat, draws: Draws, out: PacketList) returns (status: Status)
      requires 0 < i < |slots| && SlotSendable(queue, slots[i])
      modifies this, out
      ensures var sent := HostSend(old(State()), i, draws);
              && status == OK
              && State() == old(State()).(slots := old(slots)[i := sent.slot])
              && out.values == old(out.values) + sent.packets
    {
      var slot := slots[i];
      match slot.state
      case Empty =>
        assert slots[i := slot] == slots && out.values + [] == out.values;
        return OK;
      case SessionRequest =>
        var c := NewChunk(SessionResponse(time, slot));
        EncodeFramed(SessionResponse(time, slot));
        ghost var before := out.values;
        status := Pack(slots[0].local.id, slot.remote.id, [c], out);
        PackedOutput(slots[0].local.id, slot.remote.id, [c], before, out.values, status);
        slots := slots[i := slot.(clock := TIMEOUT_HEARTBEAT, state := Ready)];
      case Ready =>
        if slot.outIndex < |queue| {
          status := QueuePack(queue, slot.outIndex, slot.local.id, slot.remote.id, draws, i, out);
          if status == OK {
            slot := slot.(outIndex := |queue|);
          }
          slots := slots[i := slot.(clock := TIMEOUT_HEARTBEAT)];
        } else if slot.clock <= 0 {
          status := SendHeartbeat(slot, queue, time, actor, draws, i, out);
          slots := slots[i := slot.(clock := TIMEOUT_HEARTBEAT)];
        } else {
          assert slots[i := slot] == slots && out.values + [] == out.values;
          return OK;
        }
    }

    /** A heartbeat message followed by a trail of q at the slot's out-index. */
    method SendHeartbeat(slot: Slot, q: seq<Entry>, stamp: int, sender: int, draws: Draws, i: nat, out: PacketList)
      returns (status: Status)
      requires QueueFits(q) && slot.outIndex <= |q|
      modifies out
      ensures status == OK
      ensures out.values == old(out.values)
                + HeartbeatPackets(slot.local.id, slot.remote.id, q, slot.outIndex, stamp, sender, draws, i)
    {
      var c := NewChunk(Heartbeat(stamp, sender));
      var chunks := AppendTrail(q, slot.outIndex, draws, i, [c]);
      HeartbeatChunksFramed(q, slot.outIndex, stamp, sender, draws, i);
      ghost var before := out.values;
      status := Pack(slot.local.id, slot.remote.id, chunks, out);
      PackedOutput(slot.local.id, slot.remote.id, chunks, before, out.values, status);
    }

    /** Stamps and merges, after which every queued message counts as processed. */
    method Synchronize()
      modifies this
      ensures State() == Merged(old(State()))
    {
      StampQueue();
      MergeSlots();
      queueIndex := |queue|;
    }

    method SendToSlots(draws: Draws, out: PacketList) returns (status: Status)
      requires HostSendable(State())
      modifies this, out
      ensures status == OK
      ensures State() == old(State()).(slots := SentSlots(old(State()), |old(slots)|, draws))
      ensures out.values == old(out.values) + SentPackets(old(State()), |old(slots)|, draws)
    {
      hide HostSend;
      ghost var m, before := State(), out.values;
      status := OK;
      var i := 1;
      SentNone(m, draws);
      while i < |slots|
        invariant 1 <= i && |slots| == |m.slots| && (i <= |slots| || i == 1)
        invariant State() == m.(slots := slots)
        invariant slots == SentSlots(m, if i <= |slots| then i else |slots|, draws)
        invariant out.values == before + SentPackets(m, if i <= |slots| then i else |slots|, draws)
        invariant status == OK
      {
        SentOneMore(m, i, draws);
        HostSendLocal(m, State(), i, draws);
        var s := SendFromHost(i, draws, out);
        status := status + s;
        Associative(before, SentPackets(m, i, draws), HostSend(m, i, draws).packets);
        i := i + 1;
      }
    }

    method TickHost(draws: Draws, out: PacketList) returns (status: Status)
      requires mode == Host && HostSendable(Merged(State()))
      modifies this, out
      ensures var t := HostTick(old(State()), draws);
              status == t.status && State() == t.state && out.values == old(out.values) + t.packets
    {
      hide Merged, SentSlots, SentPackets;
      Synchronize();
      status := SendToSlots(draws, out);
    }

    method TickClient(draws: Draws, out: PacketList) returns (status: Status)
      requires mode == Client && (|slots| > 0 ==> ClientSendable(State(), slots[0]))
      modifies this, out
      ensures var t := ClientTick(old(State()), draws);
              status == t.status && State() == t.state && out.values == old(out.values) + t.packets
    {
      if |slots| == 0 {
        assert out.values + [] == out.values;
        return OK;
      }
      var slot := slots[0];
      status := OK;
      if slot.outIndex < |slot.queue| {
        status := QueuePack(slot.queue, slot.outIndex, slot.local.id, slot.remote.id, draws, 0, out);
        if status == OK {
          slots := slots[0 := slot.(outIndex := |slot.queue|)];
        }
      } else if slot.clock <= 0 {
        status := SendHeartbeat(slot, queue, 0, actor, draws, 0, out);
        slots := slots[0 := slot.(clock := TIMEOUT_HEARTBEAT)];
      } else {
        assert slots[0 := slot] == slots && out.values + [] == out.values;
      }
    }

    /** Lets time pass and returns the packets to send. */
    method Tick(elapsed: int, draws: Draws) returns (status: Status, packets: seq<Packet>)
      requires TickOk(State(), elapsed)
      modifies this
      ensures Ticked(status, State(), packets) == PeerStates.Tick(old(State()), elapsed, draws)
    {
      packets := [];
      if elapsed < 0 {
        return {InvalidTimeElapsed}, [];
      }
      if timeLocal > INT64_MAX - elapsed {
        return {TimeOverflow}, [];
      }
      AdvanceClock(elapsed);
      var out := new PacketList();
      if mode == Host {
        status := TickHost(draws, out);
      } else {
        status := TickClient(draws, out);
      }
      packets := out.values;
    }
  }

  lemma UnpackOne(p: Packet)
    ensures ParseAll([p]) == ParsePacket(p)
  {
    assert [p][..0] == [];
  }

  lemma {:induction false} InputAllOkPrefix(s: PeerState, ps: seq<Packet>, n: nat)
    requires InputAllOk(s, ps) && n <= |ps|
    ensures InputAllOk(s, ps[..n])
  {
    if n == |ps| {
      assert ps[..n] == ps;
    } else {
      InputAllOkPrefix(s, ps[..|ps| - 1], n);
      assert ps[..|ps| - 1][..n] == ps[..n];
    }
  }

  lemma SentNone(m: PeerState, draws: Draws)
    requires HostSendable(m)
    ensures forall n :: 0 <= n <= 1 && n <= |m.slots| ==>
        SentSlots(m, n, draws) == m.slots && SentPackets(m, n, draws) == []
  {
  }

  lemma SentOneMore(m: PeerState, i: nat, draws: Draws)
    requires HostSendable(m) && 0 < i < |m.slots|
    ensures SentSlots(m, i + 1, draws) == SentSlots(m, i, draws)[i := HostSend(m, i, draws).slot]
    ensures SentPackets(m, i + 1, draws) == SentPackets(m, i, draws) + HostSend(m, i, draws).packets
  {
    hide HostSend;
  }

  /** What the host sends for slot i does not depend on what it did to other slots on this tick. */
  lemma HostSendLocal(m: PeerState, s: PeerState, i: nat, draws: Draws)
    requires HostSendable(m) && 0 < i < |m.slots|
    requires s == m.(slots := s.slots) && |s.slots| == |m.slots|
    requires s.slots[0] == m.slots[0] && s.slots[i] == m.slots[i]
    ensures SlotSendable(s.queue, s.slots[i]) && HostSend(s, i, draws) == HostSend(m, i, draws)
  {
  }
}
