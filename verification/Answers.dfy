/** What a peer answers to what it is given, and what that leaves in it, said of the outcome alone. */
module Answers {
  import opened Options
  import opened Serial
  import opened Packets
  import opened Queues
  import opened PeerStates
  import opened HostRuns

  // ---- Opening and queueing ----

  /** Opening adds one slot for each id behind those already there: unbound, empty, and numbered from 0 on a host. */
  lemma OpenAddsSlots(s: PeerState, values: seq<int>)
    ensures var r := OpenOutcome(s, Ids(values));
            && r.status == {}
            && r.state == s.(slots := r.state.slots)
            && |r.state.slots| == |s.slots| + |values|
            && (forall i :: 0 <= i < |s.slots| ==> r.state.slots[i] == s.slots[i])
            && (forall i :: 0 <= i < |values| ==>
                  var slot := r.state.slots[|s.slots| + i];
                  && slot.local.id == values[i] && slot.local.resolved && slot.local.address == []
                  && slot.remote.id == -1 && !slot.remote.resolved && slot.remote.address == []
                  && slot.state == Empty && slot.queue == []
                  && slot.inIndex == 0 && slot.outIndex == 0 && slot.clock == 0
                  && slot.actor == if s.mode == Host then i else -1)
  {
  }

  /** A null list opens nothing; it is an error exactly if it claims to hold ids. */
  lemma OpenNull(s: PeerState, size: nat)
    ensures OpenOutcome(s, NullIds(size)).state == s
    ensures OpenOutcome(s, NullIds(size)).status == {} <==> size == 0
    ensures OpenOutcome(s, NullIds(size)).status <= {InvalidId}
  {
  }

  /** Queueing fails exactly for a null message and on a client without slots, and then changes nothing. */
  lemma QueueAnswer(s: PeerState, data: Option<seq<byte>>)
    ensures var r := Enqueued(s, data);
            && (InvalidMessage in r.status <==> data.None?)
            && (InvalidMode in r.status <==> data.Some? && s.mode == Client && s.slots == [])
            && r.status <= {InvalidMessage, InvalidMode}
            && (r.status != {} ==> r.state == s)
            && (r.status == {} && s.mode == Host ==>
                  && r.state == s.(queue := r.state.queue)
                  && r.state.queue == s.queue + [Entry(true, 0, s.actor, data.value)])
            && (r.status == {} && s.mode == Client ==>
                  && |r.state.slots| == |s.slots| && r.state == s.(slots := r.state.slots)
                  && (forall i :: 0 < i < |s.slots| ==> r.state.slots[i] == s.slots[i])
                  && r.state.slots[0] == s.slots[0].(queue := r.state.slots[0].queue)
                  && r.state.slots[0].queue == s.slots[0].queue + [Entry(true, 0, s.actor, data.value)])
  {
  }

  // ---- One message ----

  /** Which messages a host answers with an error, and with which one. */
  lemma HostRefusals(slot: Slot, m: Message)
    ensures var status := HostReceive(slot, m).status;
            var addressed := m.time == 0 && m.actor % 0x1_0000_0000 == slot.actor;
            && (InvalidMessageTime in status <==> m.time != 0)
            && (InvalidMessageActor in status <==> m.time == 0 && m.actor % 0x1_0000_0000 != slot.actor)
            && (UnknownServiceId in status <==> addressed && m.mode == 0 && (m.data == [] || m.data[0] != 1))
            && (InvalidMessageIndex in status <==> addressed && m.mode != 0 && m.index < -1)
            && status <= {InvalidMessageTime, InvalidMessageActor, UnknownServiceId, InvalidMessageIndex}
  {
  }

  /** A client refuses only unknown service messages and impossible indices. */
  lemma ClientRefusals(s: PeerState, j: nat, m: Message)
    requires j < |s.slots|
    ensures var status := ClientReceive(s, j, m).status;
            && (UnknownServiceId in status <==> m.mode == 0 && (m.data == [] || m.data[0] !in {1, 5}))
            && (InvalidMessageIndex in status <==> m.mode != 0 && m.index < -1)
            && status <= {UnknownServiceId, InvalidMessageIndex}
  {
  }

  /** Every message moves a client's time up to its own; only a session response changes who the client is and
      where its host listens, and then every queued message gets the new actor. */
  lemma ClientServed(s: PeerState, j: nat, m: Message)
    requires j < |s.slots| && m.mode == 0
    ensures var r := ClientReceive(s, j, m).state;
            && r.time == (if s.time < m.time then m.time else s.time)
            && r.queue == s.queue && r.timeLocal == s.timeLocal && r.queueIndex == s.queueIndex
            && |r.slots| == |s.slots|
            && (m.data == [] || m.data[0] != 5 ==> r.actor == s.actor && r.slots == s.slots)
            && (m.data != [] && m.data[0] == 5 ==>
                  && r.actor == m.actor % 0x1_0000_0000
                  && (forall i :: 0 <= i < |s.slots| && i != j ==> r.slots[i] == s.slots[i])
                  && r.slots[j] == s.slots[j].(remote := r.slots[j].remote, queue := r.slots[j].queue)
                  && r.slots[j].remote.id == s.slots[j].remote.id && !r.slots[j].remote.resolved
                  && r.slots[j].remote.address == m.data[1..]
                  && |r.slots[j].queue| == |s.slots[j].queue|
                  && forall k :: 0 <= k < |s.slots[j].queue| ==>
                       r.slots[j].queue[k] == s.slots[j].queue[k].(actor := r.actor))
  {
  }

  /** Any other message goes to the mutual queue, where the first to arrive at an index stays. */
  lemma ClientStores(s: PeerState, j: nat, m: Message)
    requires j < |s.slots| && m.mode != 0
    ensures var r := ClientReceive(s, j, m).state;
            && r.time == (if s.time < m.time then m.time else s.time)
            && r.actor == s.actor && r.slots == s.slots
            && r.timeLocal == s.timeLocal && r.queueIndex == s.queueIndex
            && |r.queue| == (if m.index >= |s.queue| then m.index + 1 else |s.queue|)
            && forall k :: 0 <= k < |r.queue| ==>
                 r.queue[k] == if k == m.index && !Filled(s.queue, k)
                               then Entry(true, m.time, m.actor % 0x1_0000_0000, m.data)
                               else if k < |s.queue| then s.queue[k] else Entry(false, 0, 0, [])
  {
    InsertExtends(s.queue, m.index, m.time, Actor32(m), m.data);
  }

  // ---- One packet ----

  lemma ReceiveAllSingle(s: PeerState, j: nat, c: Chunk)
    requires j < |s.slots| && |c| >= N_MESSAGE_DATA
    ensures ReceiveAll(s, j, [c]) == Receive(s, j, ReadMessage(c))
  {
    assert [c][..0] == [];
    assert ReceiveAll(s, j, []) == Outcome(OK, s);
  }

  lemma ReceiveAllSnoc(s: PeerState, j: nat, a: seq<Chunk>, c: Chunk)
    requires j < |s.slots| && Headed(a) && |c| >= N_MESSAGE_DATA
    ensures Headed(a + [c])
    ensures var r := ReceiveAll(s, j, a); var q := Receive(r.state, j, ReadMessage(c));
            ReceiveAll(s, j, a + [c]) == Outcome(r.status + q.status, q.state)
  {
    hide Receive, ReadMessage;
    assert (a + [c])[..|a|] == a;
  }

  lemma HeadedParts(a: seq<Chunk>, b: seq<Chunk>)
    ensures Headed(a + b) <==> Headed(a) && Headed(b)
  {
    assert forall i :: 0 <= i < |a| ==> (a + b)[i] == a[i];
    assert forall i :: 0 <= i < |b| ==> (a + b)[|a| + i] == b[i];
  }

  /** Messages are taken in one after another, whatever was answered to those before; the answers are united. */
  lemma {:induction false} ReceiveAllConcat(s: PeerState, j: nat, a: seq<Chunk>, b: seq<Chunk>)
    requires j < |s.slots| && Headed(a + b)
    ensures Headed(a) && Headed(b)
    ensures var r := ReceiveAll(s, j, a); var q := ReceiveAll(r.state, j, b);
            ReceiveAll(s, j, a + b) == Outcome(r.status + q.status, q.state)
    decreases |b|
  {
    hide *;
    HeadedParts(a, b);
    if b == [] {
      assert a + b == a;
      ReceiveNone(ReceiveAll(s, j, a).state, j);
    } else {
      var most, c := LastHeaded(b);
      HeadedParts(a, most);
      Associative(a, most, [c]);
      ReceiveAllConcat(s, j, a, most);
      ReceiveAllSnoc(s, j, a + most, c);
      ReceiveAllSnoc(ReceiveAll(s, j, a).state, j, most, c);
    }
  }

  lemma ReceiveNone(s: PeerState, j: nat)
    requires j < |s.slots|
    ensures Headed([]) && ReceiveAll(s, j, []) == Outcome({}, s)
  {
  }

  lemma LastHeaded(b: seq<Chunk>) returns (most: seq<Chunk>, c: Chunk)
    requires Headed(b) && b != []
    ensures b == most + [c] && Headed(most) && |c| >= N_MESSAGE_DATA
  {
    most, c := b[..|b| - 1], b[|b| - 1];
  }

  /** What is answered to a message depends on nothing the messages before it change. */
  lemma AnswerKeeps(s: PeerState, j: nat, m: Message, n: Message)
    requires j < |s.slots|
    ensures Receive(Receive(s, j, m).state, j, n).status == Receive(s, j, n).status
  {
  }

  /** An error is answered to a packet's messages exactly if it is answered to one of them. */
  lemma {:induction false} AnswersCollect(s: PeerState, j: nat, chunks: seq<Chunk>, e: Error)
    requires j < |s.slots| && Headed(chunks)
    ensures e in ReceiveAll(s, j, chunks).status <==>
            exists i :: 0 <= i < |chunks| && e in Receive(s, j, ReadMessage(chunks[i])).status
    decreases |chunks|
  {
    if chunks != [] {
      var c, rest := chunks[0], chunks[1..];
      assert chunks == [c] + rest;
      hide ReadMessage, Receive, ReceiveAll;
      ReceiveAllConcat(s, j, [c], rest);
      ReceiveAllSingle(s, j, c);
      var r := Receive(s, j, ReadMessage(c)).state;
      AnswersCollect(r, j, rest, e);
      forall i | 0 <= i < |rest|
        ensures Receive(r, j, ReadMessage(rest[i])).status == Receive(s, j, ReadMessage(rest[i])).status
      {
        AnswerKeeps(s, j, ReadMessage(c), ReadMessage(rest[i]));
      }
      if i :| 0 <= i < |chunks| && e in Receive(s, j, ReadMessage(chunks[i])).status {
        assert i > 0 ==> rest[i - 1] == chunks[i];
      }
      if i :| 0 <= i < |rest| && e in Receive(r, j, ReadMessage(rest[i])).status {
        assert chunks[i + 1] == rest[i];
      }
    } else {
      hide ReadMessage, Receive;
    }
  }

  /** A packet that belongs to a slot is answered with what its parsing raises and what its messages raise. */
  lemma PacketAnswer(s: PeerState, p: Packet, j: nat, e: Error)
    requires InputOk(s, p) && FindMatch(s.slots, p, 0) == Some(j)
    ensures Headed(PacketChunks(p))
    ensures InputPacket(s, p).state == ReceiveAll(s, j, PacketChunks(p)).state
    ensures e in InputPacket(s, p).status <==>
            || e in ParsePacket(p).status
            || exists i :: 0 <= i < |PacketChunks(p)| && e in Receive(s, j, ReadMessage(PacketChunks(p)[i])).status
  {
    hide ReadMessage, Receive, ReceiveAll, ParsePacket;
    assert HasLocal(s.slots, p.destination);
    assert Headed(PacketChunks(p));
    AnswersCollect(s, j, PacketChunks(p), e);
  }

  /** The first free slot from slot 1 on. */
  predicate IsFirstFree(slots: seq<Slot>, j: nat) {
    && 0 < j < |slots|
    && slots[j].remote.id == -1 && slots[j].local.address != []
    && forall i :: 0 < i < j ==> slots[i].remote.id != -1 || slots[i].local.address == []
  }

  /** A packet that belongs to no slot is passed over without an error, except by a host it is addressed to whose
      slot 0 is unbound: that binds the first free slot to its source, or says that there is none. */
  lemma StrangerAnswer(s: PeerState, p: Packet)
    requires forall i :: 0 <= i < |s.slots| ==> s.slots[i].local.id != p.destination || s.slots[i].remote.id != p.source
    ensures InputOk(s, p)
    ensures var r := InputPacket(s, p);
            var open := s.mode == Host && s.slots != [] && s.slots[0].remote.id == -1
                        && exists i :: 0 <= i < |s.slots| && s.slots[i].local.id == p.destination;
            && (!open ==> r == Outcome({}, s))
            && (open && (forall j: nat :: !IsFirstFree(s.slots, j)) ==> r == Outcome({NoFreeSlots}, s))
            && (open ==> forall j: nat :: IsFirstFree(s.slots, j) ==>
                  && r.status == {} && r.state == s.(slots := r.state.slots) && |r.state.slots| == |s.slots|
                  && (forall i :: 0 <= i < |s.slots| && i != j ==> r.state.slots[i] == s.slots[i])
                  && r.state.slots[j]
                     == s.slots[j].(state := SessionRequest, actor := j, remote := r.state.slots[j].remote)
                  && r.state.slots[j].remote == s.slots[j].remote.(id := p.source, resolved := true))
  {
    assert FindMatch(s.slots, p, 0).None?;
    if HasLocal(s.slots, p.destination) {
      match FindFree(s.slots, 1)
      case Some(j) => assert IsFirstFree(s.slots, j);
      case None =>
    }
  }

  // ---- Several packets ----

  lemma InputAllSingle(s: PeerState, p: Packet)
    ensures InputAllOk(s, [p]) <==> InputOk(s, p)
    ensures InputOk(s, p) ==> InputAll(s, [p]) == InputPacket(s, p)
  {
    hide InputPacket, InputOk;
    assert [p][..0] == [];
    assert InputAllOk(s, []) && InputAll(s, []) == Outcome(OK, s);
  }

  /** Packets are taken in one after another, whatever was answered to those before; the answers are united. */
  lemma {:induction false} InputAllConcat(s: PeerState, ps: seq<Packet>, qs: seq<Packet>)
    requires InputAllOk(s, ps + qs)
    ensures InputAllOk(s, ps) && InputAllOk(InputAll(s, ps).state, qs)
    ensures var r := InputAll(s, ps); var q := InputAll(r.state, qs);
            InputAll(s, ps + qs) == Outcome(r.status + q.status, q.state)
    decreases |qs|
  {
    hide InputPacket, InputOk;
    if qs == [] {
      assert ps + qs == ps;
    } else {
      var most, q := qs[..|qs| - 1], qs[|qs| - 1];
      assert (ps + qs)[..|ps + qs| - 1] == ps + most;
      InputAllConcat(s, ps, most);
    }
  }

  function Accepts(ps: seq<Packet>): (steps: seq<HostStep>)
    ensures |steps| == |ps| && forall i :: 0 <= i < |ps| ==> steps[i] == Accept(ps[i])
  {
    seq(|ps|, i requires 0 <= i < |ps| => Accept(ps[i]))
  }

  /** Taking in packets in one call is a run of a host that accepts them one by one. */
  lemma {:induction false} InputAllIsRun(t: HostTrace, steps: seq<HostStep>, ps: seq<Packet>)
    requires HostRun(t, steps) && InputAllOk(HostAfter(t, steps).host, ps)
    requires forall i :: 0 <= i < |ps| ==> ps[i].source != UNDEFINED
    ensures HostRun(t, steps + Accepts(ps))
    ensures HostAfter(t, steps + Accepts(ps)).host == InputAll(HostAfter(t, steps).host, ps).state
    decreases |ps|
  {
    hide HostInv, HostStart, InputOk, InputPacket;
    if ps == [] {
      assert steps + Accepts(ps) == steps;
    } else {
      var most := ps[..|ps| - 1];
      InputAllIsRun(t, steps, most);
      var all := steps + Accepts(ps);
      assert all[..|all| - 1] == steps + Accepts(most) && all[|all| - 1] == Accept(ps[|ps| - 1]);
    }
  }
}
