/** Runs, with no forged packet in them, in which obvious claims about the library fail. */
module Counterexamples {
  import opened Options
  import opened Serial
  import opened Packets
  import opened Queues
  import opened Trails
  import opened PeerStates
  import opened HostRuns
  import opened HostGrowth
  import opened Network
  import opened Agreement
  import opened Runs
  import opened Carriage
  import opened ClientTicks
  import opened Heartbeats
  import opened Fifo
  import opened MisleadingBeats
  import opened Letters
  import opened Scripts

  // ---- A client tick that must not be made ----

  /** A client that sends a message and hears nothing back must not make another tick. */
  lemma ClientTickCanFail(s: System) returns (steps: seq<Step>)
    requires Start(s) && |s.clients| > 0
    ensures Run(s, steps) && |After(s, steps).clients| > 0
    ensures !TickOk(After(s, steps).clients[0], 0)
  {
    var draws: Draws := (_, _) => 0;
    UnheardTick(s.clients[0], draws);
    hide Start, Run, After, PeerStates.Tick, Enqueued, TickOk;
    Begin(s);
    DoClientQueue(s, [], s.Host(), s.clients, 0, []);
    steps := [] + [ClientQueue(0, [])];
    var queued := s.clients[0 := Enqueued(s.clients[0], Some([])).state];
    DoClientTick(s, steps, s.Host(), queued, 0, 0, draws);
    steps := steps + [ClientTick(0, 0, draws)];
  }

  lemma UnheardTick(c: PeerState, draws: Draws)
    requires |c.slots| == 1 && c == OpenedSlots(NewPeer(Client), [Local(c).id])
    ensures var queued := Enqueued(c, Some([])).state;
            && |queued.slots| == 1 && |queued.slots[0].queue| == 1
            && TickOk(queued, 0)
            && !TickOk(PeerStates.Tick(queued, 0, draws).state, 0)
  {
    hide QueuePackets;
  }

  // ---- The cast: a host with two slots, one client ----

  const OWN: Slot := Slot(Empty, Endpoint(1, true, []), Endpoint(UNDEFINED, false, []), [], 0, 0, 0, 0)

  function HostWith(slot: Slot, queue: seq<Entry>, queueIndex: nat): PeerState {
    PeerState(Host, 0, 0, 0, [OWN, slot], queue, queueIndex)
  }

  function Session(state: SlotState, remote: int, queue: seq<Entry>, inIndex: nat, outIndex: nat, clock: int): Slot {
    Slot(state, Endpoint(2, true, [7]), Endpoint(remote, remote != UNDEFINED, []), queue, 1, inIndex, outIndex, clock)
  }

  function ClientWith(actor: int, remote: Endpoint, out: seq<Entry>, outIndex: nat, clock: int,
      queue: seq<Entry>): PeerState {
    PeerState(Client, 0, 0, actor, [Slot(Empty, Endpoint(3, true, []), remote, out, UNDEFINED, 0, outIndex, clock)],
        queue, 0)
  }

  const UNBOUND := Endpoint(UNDEFINED, false, [])
  const AT_HOST := Endpoint(1, true, [])
  const AT_SLOT := Endpoint(2, true, [7])

  function Own(data: byte): Entry {
    Entry(true, 0, 0, [data])
  }

  function Theirs(data: byte): Entry {
    Entry(true, 0, 1, [data])
  }

  const IDLE := Session(Empty, UNDEFINED, [], 0, 0, 0)
  const LOG := [Own(10), Theirs(1)]

  function Cast(): System {
    System(HostTrace(HostWith(IDLE, [], 0), [], [0, 0]), [ClientWith(UNDEFINED, UNBOUND, [], 0, 0, [])], {})
  }

  lemma CastStarts()
    ensures Start(Cast())
  {
    CastHostStarts();
    CastClientStarts();
    hide HostStart, HostEndpointsOk, ClientEndpointsOk, HostWith, OpenedSlots;
  }

  lemma CastHostStarts()
    ensures HostStart(Cast().trace) && HostEndpointsOk(HostWith(IDLE, [], 0))
  {
  }

  lemma CastClientStarts()
    ensures ClientEndpointsOk(HostWith(IDLE, [], 0), Cast().clients)
    ensures |Cast().clients[0].slots| == 1 && Cast().clients[0] == OpenedSlots(NewPeer(Client), [3])
  {
  }

  // ---- Packets with few messages ----

  lemma ReceiveTwo(s: PeerState, j: nat, a: Message, b: Message)
    requires j < |s.slots| && Sendable(a) && Sendable(b)
    ensures Headed([Encode(a), Encode(b)])
    ensures ReceiveAll(s, j, [Encode(a), Encode(b)]).state == Receive(Receive(s, j, a).state, j, b).state
  {
    MessageRoundTrip(b);
    ReceiveOne(s, j, a);
    assert [Encode(a), Encode(b)][..1] == [Encode(a)];
  }

  // ---- The handshake ----

  lemma Requests(draws: Draws) returns (p: Packet)
    ensures var c := ClientWith(UNDEFINED, AT_HOST, [], 0, 0, []);
            && TickOk(c, 0)
            && PeerStates.Tick(c, 0, draws).state == ClientWith(UNDEFINED, AT_HOST, [], 0, 10, [])
            && p in PeerStates.Tick(c, 0, draws).packets
    ensures p.source == 3 && p.destination == 1
  {
    hide HeartbeatPackets;
    var c := ClientWith(UNDEFINED, AT_HOST, [], 0, 0, []);
    HeartbeatPacketsSome(3, 1, [], 0, 0, UNDEFINED, draws, 0);
    p := HeartbeatPackets(3, 1, [], 0, 0, UNDEFINED, draws, 0)[0];
    assert PeerStates.Tick(c, 0, draws).packets == BeatPackets(c, draws);
    BeatPacketsAddressed(c, draws);
    BeatPacketsFrom(c, draws);
  }

  lemma Assigns(p: Packet)
    requires p.source == 3 && p.destination == 1
    ensures var h := HostWith(IDLE, [], 0);
            InputOk(h, p) && InputPacket(h, p).state == HostWith(Session(SessionRequest, 3, [], 0, 0, 0), [], 0)
  {
    var slots := HostWith(IDLE, [], 0).slots;
    assert slots[0].local.id == 1;
    assert FindMatch(slots, p, 2) == None;
    assert FindMatch(slots, p, 1) == None;
  }

  /** A tick of a host with a single slot for clients. */
  lemma OneClientTick(h: PeerState, m: PeerState, draws: Draws)
    requires h.mode == Host && |h.slots| == 2 && h.timeLocal == 0
    requires var s := MergeSlot(Stamped(Advanced(h, 0)), 1); m == s.(queueIndex := |s.queue|)
    requires |m.slots| == 2 && SlotSendable(m.queue, m.slots[1])
    ensures TickOk(h, 0)
    ensures var sent := HostSend(m, 1, draws);
            PeerStates.Tick(h, 0, draws) == Ticked(OK, m.(slots := [m.slots[0], sent.slot]), sent.packets)
  {
    hide HostSend, MergeSlot, Stamped, Advanced;
    var s := Stamped(Advanced(h, 0));
    ShapeKept(h);
    assert MergeTo(s, 1) == s;
    assert MergeTo(s, 2) == MergeSlot(s, 1);
    assert Merged(Advanced(h, 0)) == m;
    assert SentPackets(m, 1, draws) == [];
    assert SentPackets(m, 2, draws) == [] + HostSend(m, 1, draws).packets;
    assert SentSlots(m, 2, draws) == [m.slots[0], HostSend(m, 1, draws).slot];
  }

  lemma ShapeKept(h: PeerState)
    ensures |Stamped(Advanced(h, 0)).slots| == |h.slots| && Advanced(h, 0).mode == h.mode
  {
  }

  lemma Responds(draws: Draws)
    ensures var h := HostWith(Session(SessionRequest, 3, [], 0, 0, 0), [], 0);
            && TickOk(h, 0)
            && PeerStates.Tick(h, 0, draws).state == HostWith(Session(Ready, 3, [], 0, 0, 10), [], 0)
            && PeerStates.Tick(h, 0, draws).packets == ResponsePackets(1, 0, h.slots[1])
  {
    hide ResponsePackets, PeerStates.Tick, TickOk;
    var h := HostWith(Session(SessionRequest, 3, [], 0, 0, 0), [], 0);
    assert MergeSlot(Stamped(Advanced(h, 0)), 1) == h;
    OneClientTick(h, h, draws);
  }

  lemma Adopts(p: Packet)
    requires p in ResponsePackets(1, 0, Session(SessionRequest, 3, [], 0, 0, 0))
    ensures var c := ClientWith(UNDEFINED, AT_HOST, [], 0, 10, []);
            && InputOk(c, p)
            && InputPacket(c, p).state == ClientWith(1, Endpoint(1, false, [7]), [], 0, 10, [])
  {
    var c := ClientWith(UNDEFINED, AT_HOST, [], 0, 10, []);
    var m := SessionResponse(0, Session(SessionRequest, 3, [], 0, 0, 0));
    AddressedAs(1, 3, m, p);
    assert Matches(c.slots[0], p);
    hide PackedPackets, Encode, InputPacket, InputOk;
    InputsOne(c, 0, p, m);
  }

  // ---- The exchange ----

  /** The client's first message in one packet. */
  function FirstPackets(): seq<Packet> {
    One(3, 2, MessageAt([Theirs(1)], 0));
    PackedPackets(3, 2, [Encode(MessageAt([Theirs(1)], 0))])
  }

  /** A client's tick with something new to send. */
  lemma SendingTick(c: PeerState, next: PeerState, draws: Draws)
    requires c.mode == Client && |c.slots| == 1 && c.timeLocal == 0
    requires QueueFits(c.queue) && QueueFits(c.slots[0].queue) && c.slots[0].outIndex < |c.slots[0].queue|
    requires var slot := Advanced(c, 0).slots[0];
             next == Advanced(c, 0).(slots := [slot.(outIndex := |slot.queue|)])
    ensures TickOk(c, 0)
    ensures var slot := c.slots[0];
            PeerStates.Tick(c, 0, draws) == Ticked(OK, next,
              QueuePackets(slot.queue, slot.outIndex, slot.local.id, slot.remote.id, draws, 0))
  {
    hide QueuePackets, HeartbeatPackets, Merged, HostSendable, PeerStates.HostTick;
    var a := Advanced(c, 0);
    assert ClientSendable(a, a.slots[0]);
    assert a.slots[0 := next.slots[0]] == next.slots;
  }

  lemma FirstMessageSent(draws: Draws) returns (p: Packet)
    ensures var c := ClientWith(1, AT_SLOT, [Theirs(1)], 0, 10, []); var t := PeerStates.Tick(c, 0, draws);
            && TickOk(c, 0)
            && t.state == ClientWith(1, AT_SLOT, [Theirs(1)], 1, 10, [])
            && p in t.packets
    ensures p in FirstPackets()
  {
    hide *;
    FirstPacked(draws);
    p := FirstPackets()[0];
    FirstAdvanced();
    SendingTick(ClientWith(1, AT_SLOT, [Theirs(1)], 0, 10, []), ClientWith(1, AT_SLOT, [Theirs(1)], 1, 10, []), draws);
  }

  lemma FirstAdvanced()
    ensures var c := ClientWith(1, AT_SLOT, [Theirs(1)], 0, 10, []);
            var next := ClientWith(1, AT_SLOT, [Theirs(1)], 1, 10, []);
            && c.mode == Client && |c.slots| == 1 && c.timeLocal == 0 && QueueFits(c.queue)
            && c.slots[0].queue == [Theirs(1)] && c.slots[0].outIndex == 0
            && c.slots[0].local.id == 3 && c.slots[0].remote.id == 2
            && next == Advanced(c, 0).(slots := [Advanced(c, 0).slots[0].(outIndex := 1)])
            && |Advanced(c, 0).slots[0].queue| == 1
  {
  }

  lemma FirstPacked(draws: Draws)
    ensures QueueFits([Theirs(1)]) && QueuePackets([Theirs(1)], 0, 3, 2, draws, 0) == FirstPackets() != []
  {
    hide PackedPackets, Encode;
    assert QueueChunks([Theirs(1)], 0, draws, 0) == [Encode(MessageAt([Theirs(1)], 0))];
    QueuePacketsSome([Theirs(1)], 0, 3, 2, draws, 0);
  }

  lemma FirstMessageStored(p: Packet)
    requires p in FirstPackets()
    ensures var h := HostWith(Session(Ready, 3, [], 0, 0, 10), [Own(10)], 0);
            && InputOk(h, p)
            && InputPacket(h, p).state == HostWith(Session(Ready, 3, [Theirs(1)], 0, 0, 10), [Own(10)], 0)
  {
    var h := HostWith(Session(Ready, 3, [], 0, 0, 10), [Own(10)], 0);
    var m := MessageAt([Theirs(1)], 0);
    AddressedAs(3, 2, m, p);
    MessageStored(h, m);
    ForSlotOne(h, p);
    hide PackedPackets, Encode, InputPacket, InputOk, Receive, FindMatch, HasLocal;
    InputsOne(h, 1, p, m);
  }

  lemma MessageStored(h: PeerState, m: Message)
    requires h == HostWith(Session(Ready, 3, [], 0, 0, 10), [Own(10)], 0) && m == MessageAt([Theirs(1)], 0)
    ensures Receive(h, 1, m).state == HostWith(Session(Ready, 3, [Theirs(1)], 0, 0, 10), [Own(10)], 0)
    ensures Sendable(m)
  {
    assert Insert([], 0, 0, 1, [1]).queue == [Theirs(1)];
  }

  lemma ForSlotOne(h: PeerState, p: Packet)
    requires h == HostWith(Session(Ready, 3, [], 0, 0, 10), [Own(10)], 0) && p.source == 3 && p.destination == 2
    ensures HasLocal(h.slots, p.destination) && FindMatch(h.slots, p, 0) == Some(1)
  {
    assert Matches(h.slots[1], p);
    assert FindMatch(h.slots, p, 1) == Some(1);
  }

  lemma Two(source: int, destination: int, a: Message, b: Message)
    requires Writable(a) && Writable(b) && |a.data| + |b.data| <= 300
    ensures AllFramed([Encode(a), Encode(b)]) && Fits([Encode(a), Encode(b)])
    ensures PackedPackets(source, destination, [Encode(a), Encode(b)])
        == [Sealed(source, destination, [Encode(a), Encode(b)])]
    ensures ParsePacket(Sealed(source, destination, [Encode(a), Encode(b)])) == Parsed(OK, [Encode(a), Encode(b)])
  {
    EncodeFramed(a);
    EncodeFramed(b);
    PairLoad(Encode(a), Encode(b));
    hide Encode, Framed, Load, Sealed, ParsePacket, PackedPackets, Writable;
    OnePacket(source, destination, [Encode(a), Encode(b)]);
  }

  lemma PairLoad(a: Chunk, b: Chunk)
    ensures Load([a, b]) == |a| + |b|
  {
    LoadSnoc([a], b);
    LoadSnoc([], a);
    EmptyGroup();
    assert [] + [a] == [a] && [a] + [b] == [a, b];
  }

  /** The log in one packet. */
  function LogPackets(): seq<Packet> {
    var a, b := MessageAt(LOG, 0), MessageAt(LOG, 1);
    Two(2, 3, a, b);
    PackedPackets(2, 3, [Encode(a), Encode(b)])
  }

  lemma LogSent(draws: Draws) returns (p: Packet)
    ensures var h := HostWith(Session(Ready, 3, [Theirs(1)], 0, 0, 10), [Own(10)], 0);
        var t := PeerStates.Tick(h, 0, draws);
            && TickOk(h, 0)
            && t.state == HostWith(Session(Ready, 3, [Theirs(1)], 1, 2, 10), LOG, 2)
            && p in t.packets
    ensures p in LogPackets()
  {
    hide PackedPackets, Encode, PeerStates.Tick, TickOk;
    var h := HostWith(Session(Ready, 3, [Theirs(1)], 0, 0, 10), [Own(10)], 0);
    var m := HostWith(Session(Ready, 3, [Theirs(1)], 1, 0, 10), LOG, 2);
    var slot := Session(Ready, 3, [Theirs(1)], 1, 2, 10);
    assert |m.slots| == 2 && m.slots[0] == OWN && m.(slots := [OWN, slot]) == HostWith(slot, LOG, 2);
    assert h.mode == Host && |h.slots| == 2 && h.timeLocal == 0;
    LogMerged();
    LogDue(draws);
    p := LogPackets()[0];
    hide *;
    OneClientTick(h, m, draws);
  }

  lemma LogDue(draws: Draws)
    ensures var m := HostWith(Session(Ready, 3, [Theirs(1)], 1, 0, 10), LOG, 2);
            && SlotSendable(m.queue, m.slots[1])
            && HostSend(m, 1, draws) == Sent(Session(Ready, 3, [Theirs(1)], 1, 2, 10), LogPackets())
    ensures LogPackets() != []
  {
    LogPacked(draws);
    hide QueuePackets, LogPackets;
  }

  lemma LogMerged()
    ensures var h := HostWith(Session(Ready, 3, [Theirs(1)], 0, 0, 10), [Own(10)], 0);
            var s := MergeSlot(Stamped(Advanced(h, 0)), 1);
            s.(queueIndex := |s.queue|) == HostWith(Session(Ready, 3, [Theirs(1)], 1, 0, 10), LOG, 2)
  {
    var h := HostWith(Session(Ready, 3, [Theirs(1)], 0, 0, 10), [Own(10)], 0);
    assert ReadyEnd([Theirs(1)], 1) == 1;
    assert MergeSlot(Stamped(Advanced(h, 0)), 1).queue == LOG;
  }

  lemma LogPacked(draws: Draws)
    ensures QueueFits(LOG) && QueuePackets(LOG, 0, 2, 3, draws, 1) == LogPackets() != []
  {
    hide PackedPackets, Encode;
    assert QueueChunks(LOG, 0, draws, 1) == [Encode(MessageAt(LOG, 0)), Encode(MessageAt(LOG, 1))];
    QueuePacketsSome(LOG, 0, 2, 3, draws, 1);
  }

  lemma LogReceived(p: Packet)
    requires p in LogPackets()
    ensures var c := ClientWith(1, AT_SLOT, [Theirs(1)], 1, 10, []);
            && InputOk(c, p)
            && InputPacket(c, p).state == ClientWith(1, AT_SLOT, [Theirs(1)], 1, 10, LOG)
  {
    var c := ClientWith(1, AT_SLOT, [Theirs(1)], 1, 10, []);
    var a, b := MessageAt(LOG, 0), MessageAt(LOG, 1);
    Two(2, 3, a, b);
    LogInserted(c);
    InputsTwo(c, p, a, b);
  }

  lemma InputsTwo(c: PeerState, p: Packet, a: Message, b: Message)
    requires Sendable(a) && Sendable(b) && a.mode != MESSAGE_MODE_SERVICE && b.mode != MESSAGE_MODE_SERVICE
    requires |c.slots| == 1 && Matches(c.slots[0], p)
    requires Headed([Encode(a), Encode(b)]) && ParsePacket(p) == Parsed(OK, [Encode(a), Encode(b)])
    ensures InputOk(c, p) && InputPacket(c, p).state == Receive(Receive(c, 0, a).state, 0, b).state
  {
    MessageRoundTrip(a);
    MessageRoundTrip(b);
    ReceiveTwo(c, 0, a, b);
    hide ReadMessage, Encode, ParsePacket, ReceiveAll, Receive;
    assert c.slots[0].local.id == p.destination;
  }

  lemma LogInserted(c: PeerState)
    requires c == ClientWith(1, AT_SLOT, [Theirs(1)], 1, 10, [])
    ensures Receive(Receive(c, 0, MessageAt(LOG, 0)).state, 0, MessageAt(LOG, 1)).state
        == ClientWith(1, AT_SLOT, [Theirs(1)], 1, 10, LOG)
  {
    assert Receive(c, 0, MessageAt(LOG, 0)).state == ClientWith(1, AT_SLOT, [Theirs(1)], 1, 10, [LOG[0]]);
  }

  lemma SecondMessageLost(draws: Draws)
    ensures var c := ClientWith(1, AT_SLOT, [Theirs(1), Theirs(2)], 1, 10, LOG);
            TickOk(c, 0) && PeerStates.Tick(c, 0, draws).state
                == ClientWith(1, AT_SLOT, [Theirs(1), Theirs(2)], 2, 10, LOG)
  {
    hide QueuePackets;
  }

  // ---- The run ----

  lemma CastConnects()
    ensures var h, c := HostWith(IDLE, [], 0), ClientWith(UNDEFINED, UNBOUND, [], 0, 0, []);
            && Cast().Host() == h && Cast().clients == [c] && |h.slots| == 2
            && var connected := ClientWith(UNDEFINED, AT_HOST, [], 0, 0, []);
               && Connected(c, h.slots[0].local.id).state == connected
               && |connected.slots| == 1 && |connected.slots[0].queue| <= INT64_MAX
  {
  }

  /** The client connects and ticks; the host takes the heartbeat for a request. */
  lemma Request(draws: Draws) returns (steps: seq<Step>)
    ensures At(Cast(), steps, HostWith(Session(SessionRequest, 3, [], 0, 0, 0), [], 0),
        [ClientWith(UNDEFINED, AT_HOST, [], 0, 10, [])])
  {
    hide *;
    var h, c := HostWith(IDLE, [], 0), ClientWith(UNDEFINED, UNBOUND, [], 0, 0, []);
    var connected, sent := ClientWith(UNDEFINED, AT_HOST, [], 0, 0, []), ClientWith(UNDEFINED, AT_HOST, [], 0, 10, []);
    CastStarts();
    CastConnects();
    Begin(Cast());
    DoClientConnect(Cast(), [], h, [c], 0);
    steps := [] + [ClientConnect(0)];
    assert [c][0 := connected] == [connected] && [connected][0 := sent] == [sent];
    var p := Requests(draws);
    DoClientTick(Cast(), steps, h, [connected], 0, 0, draws);
    steps := steps + [ClientTick(0, 0, draws)];
    Assigns(p);
    DoHostInput(Cast(), steps, h, [sent], p);
    steps := steps + [HostInput(p)];
  }

  /** The host answers; the client adopts the slot and resolves its address. */
  lemma Answer(draws: Draws) returns (steps: seq<Step>)
    ensures At(Cast(), steps, HostWith(Session(Ready, 3, [], 0, 0, 10), [], 0), [ClientWith(1, AT_SLOT, [], 0, 10, [])])
  {
    var h, c := HostWith(Session(SessionRequest, 3, [], 0, 0, 0), [], 0), ClientWith(UNDEFINED, AT_HOST, [], 0, 10, []);
    var ready, told := HostWith(Session(Ready, 3, [], 0, 0, 10), [], 0),
        ClientWith(1, Endpoint(1, false, [7]), [], 0, 10, []);
    var settled := ClientWith(1, AT_SLOT, [], 0, 10, []);
    assert Resolved(told, ready.slots[1].local.id) == settled;
    assert !Remote(told).resolved && Remote(told).address == [7] == ready.slots[1].local.address && |ready.slots| == 2;
    assert ready.queue == [] && h.slots[1] == Session(SessionRequest, 3, [], 0, 0, 0);
    assert [c][0 := told] == [told] && [told][0 := settled] == [settled];
    ResponsePacketsSome(1, 0, h.slots[1]);
    hide *;
    steps := Request(draws);
    Responds(draws);
    var p := ResponsePackets(1, 0, h.slots[1])[0];
    DoHostTick(Cast(), steps, h, [c], 0, draws);
    steps := steps + [Step.HostTick(0, draws)];
    Adopts(p);
    DoClientInput(Cast(), steps, ready, [c], 0, p);
    steps := steps + [ClientInput(0, p)];
    DoResolve(Cast(), steps, ready, [told], 0, 1);
    steps := steps + [Resolve(0, 1)];
  }

  lemma FirstQueued()
    ensures 1 <= MAX_MESSAGE_SIZE
    ensures var h, c := HostWith(Session(Ready, 3, [], 0, 0, 10), [], 0), ClientWith(1, AT_SLOT, [], 0, 10, []);
            var queued := ClientWith(1, AT_SLOT, [Theirs(1)], 0, 10, []);
            && Enqueued(h, Some([10])).state == HostWith(Session(Ready, 3, [], 0, 0, 10), [Own(10)], 0)
            && Enqueued(c, Some([1])).state == queued
            && |queued.slots| == 1 && |queued.slots[0].queue| <= INT64_MAX
  {
    assert [] + [Theirs(1)] == [Theirs(1)] && [] + [Own(10)] == [Own(10)];
  }

  /** Host and client each queue a message; the client's arrives. */
  lemma FirstMessage(draws: Draws) returns (steps: seq<Step>)
    ensures At(Cast(), steps, HostWith(Session(Ready, 3, [Theirs(1)], 0, 0, 10), [Own(10)], 0),
        [ClientWith(1, AT_SLOT, [Theirs(1)], 1, 10, [])])
  {
    hide *;
    var h, c := HostWith(Session(Ready, 3, [], 0, 0, 10), [], 0), ClientWith(1, AT_SLOT, [], 0, 10, []);
    var stocked, queued := HostWith(Session(Ready, 3, [], 0, 0, 10), [Own(10)], 0),
        ClientWith(1, AT_SLOT, [Theirs(1)], 0, 10, []);
    var sent := ClientWith(1, AT_SLOT, [Theirs(1)], 1, 10, []);
    FirstQueued();
    steps := Answer(draws);
    assert [c][0 := queued] == [queued] && [queued][0 := sent] == [sent];
    DoHostQueue(Cast(), steps, h, [c], [10]);
    steps := steps + [HostQueue([10])];
    DoClientQueue(Cast(), steps, stocked, [c], 0, [1]);
    steps := steps + [ClientQueue(0, [1])];
    var p := FirstMessageSent(draws);
    DoClientTick(Cast(), steps, stocked, [queued], 0, 0, draws);
    steps := steps + [Step.ClientTick(0, 0, draws)];
    FirstMessageStored(p);
    DoHostInput(Cast(), steps, stocked, [sent], p);
    steps := steps + [HostInput(p)];
  }

  lemma SecondQueued()
    ensures 1 <= MAX_MESSAGE_SIZE
    ensures var informed, queued := ClientWith(1, AT_SLOT, [Theirs(1)], 1, 10, LOG),
                                    ClientWith(1, AT_SLOT, [Theirs(1), Theirs(2)], 1, 10, LOG);
            && Enqueued(informed, Some([2])).state == queued
            && |queued.slots| == 1 && |queued.slots[0].queue| <= INT64_MAX
            && |HostWith(Session(Ready, 3, [Theirs(1)], 1, 2, 10), LOG, 2).queue| <= INT64_MAX
  {
    assert [Theirs(1)] + [Theirs(2)] == [Theirs(1), Theirs(2)];
  }

  /** The client receives the log, and then sends a second message that is lost. */
  lemma SecondMessage(draws: Draws) returns (steps: seq<Step>)
    ensures At(Cast(), steps, HostWith(Session(Ready, 3, [Theirs(1)], 1, 2, 10), LOG, 2),
        [ClientWith(1, AT_SLOT, [Theirs(1), Theirs(2)], 2, 10, LOG)])
  {
    hide *;
    var h, merged := HostWith(Session(Ready, 3, [Theirs(1)], 0, 0, 10), [Own(10)], 0),
        HostWith(Session(Ready, 3, [Theirs(1)], 1, 2, 10), LOG, 2);
    var c, informed := ClientWith(1, AT_SLOT, [Theirs(1)], 1, 10, []), ClientWith(1, AT_SLOT, [Theirs(1)], 1, 10, LOG);
    var queued, sent := ClientWith(1, AT_SLOT, [Theirs(1), Theirs(2)], 1, 10, LOG),
        ClientWith(1, AT_SLOT, [Theirs(1), Theirs(2)], 2, 10, LOG);
    SecondQueued();
    steps := FirstMessage(draws);
    assert [c][0 := informed] == [informed] && [informed][0 := queued] == [queued] && [queued][0 := sent] == [sent];
    var p := LogSent(draws);
    DoHostTick(Cast(), steps, h, [c], 0, draws);
    steps := steps + [Step.HostTick(0, draws)];
    LogReceived(p);
    DoClientInput(Cast(), steps, merged, [c], 0, p);
    steps := steps + [ClientInput(0, p)];
    DoClientQueue(Cast(), steps, merged, [informed], 0, [2]);
    steps := steps + [ClientQueue(0, [2])];
    SecondMessageLost(draws);
    DoClientTick(Cast(), steps, merged, [queued], 0, 0, draws);
    steps := steps + [Step.ClientTick(0, 0, draws)];
  }

  // ---- The heartbeat that breaks the order ----

  lemma {:induction false} ReceiveAllLength(s: PeerState, j: nat, chunks: seq<Chunk>, n: nat)
    requires s.mode == Host && j < |s.slots| && Headed(chunks) && |s.slots[j].queue| <= n
    requires forall i :: 0 <= i < |chunks| ==> ReadMessage(chunks[i]).index < n
    ensures |ReceiveAll(s, j, chunks).state.slots[j].queue| <= n
  {
    if chunks != [] {
      hide ReadMessage;
      ReceiveAllLength(s, j, chunks[..|chunks| - 1], n);
    }
  }

  lemma BeatIndices(t: HostTrace, c: PeerState, draws: Draws, p: Packet)
    requires HostInv(t) && ClientOk(t.host, c) && |c.slots[0].queue| <= INT64_MAX && c.slots[0].outIndex <= |c.queue|
    requires QueueFits(c.queue) && p in BeatPackets(c, draws)
    ensures Headed(PacketChunks(p))
    ensures forall i :: 0 <= i < |PacketChunks(p)| ==> ReadMessage(PacketChunks(p)[i]).index < |c.queue|
  {
    hide HostInv, ClientOk, BeatPackets, PacketChunks, ReadMessage, InReach, MessageAt, TrailIndices;
    BeatCarries(t, c, draws);
    forall i | 0 <= i < |PacketChunks(p)| ensures ReadMessage(PacketChunks(p)[i]).index < |c.queue| {
      assert PacketChunks(p)[i] in PacketChunks(p);
      assert Carries(p, ReadMessage(PacketChunks(p)[i]));
      BeatMessage(t, c, draws, p, ReadMessage(PacketChunks(p)[i]));
    }
  }

  /** The states at that point: the next heartbeat resends, under index 1, the client's first message. */
  lemma AboutToBreak(t: HostTrace, c: PeerState) returns (draws: Draws, p: Packet)
    requires HostInv(t) && HostEndpointsOk(t.host) && ClientOk(t.host, c)
    requires t.host == HostWith(Session(Ready, 3, [Theirs(1)], 1, 2, 10), LOG, 2)
    requires c == ClientWith(1, AT_SLOT, [Theirs(1), Theirs(2)], 2, 10, LOG)
    ensures TickOk(c, 10) && p in PeerStates.Tick(c, 10, draws).packets
    ensures InputOk(t.host, p)
    ensures var h := InputPacket(t.host, p).state;
            && h.queue == LOG && |h.slots| == 2 && h.timeLocal == 0
            && |h.slots[1].queue| == 2 && h.slots[1].queue[1].ready && h.slots[1].queue[1].data == [1]
  {
    hide InputPacket, InputOk, BeatPackets, HostInv, HostEndpointsOk, ClientOk, TickOk, PeerStates.Tick;
    assert Misleading(c, 1);
    draws, p := MisleadingBeatBreaksFifo(t, c, 1);
    ClientTickOkIff(t, c, 10);
    ClientTickShape(t.host, c, 10, draws);
    ClientTickPackets(c, 10, draws);
    BeatFillsTwo(t, c, draws, p);
  }

  lemma BeatFillsTwo(t: HostTrace, c: PeerState, draws: Draws, p: Packet)
    requires HostInv(t) && ClientOk(t.host, c) && c.slots[0].outIndex <= |c.queue| == 2 && |c.slots[0].queue| == 2
    requires QueueFits(c.queue) && p in BeatPackets(c, draws) && InputOk(t.host, p)
    requires |t.host.slots| == 2 && |t.host.slots[1].queue| <= 2
    ensures |InputPacket(t.host, p).state.slots| == 2 && |InputPacket(t.host, p).state.slots[1].queue| <= 2
    ensures InputPacket(t.host, p).state.queue == t.host.queue &&
        InputPacket(t.host, p).state.timeLocal == t.host.timeLocal
  {
    hide InputPacket, InputOk, BeatPackets, PacketChunks, ReadMessage;
    SlotsAre(t, 1);
    BeatIndices(t, c, draws, p);
    hide HostInv, ClientOk;
    InputLength(t.host, p);
  }

  lemma InputLength(h: PeerState, p: Packet)
    requires h.mode == Host && |h.slots| == 2 && |h.slots[1].queue| <= 2 && InputOk(h, p)
    requires Headed(PacketChunks(p)) && forall i :: 0 <= i < |PacketChunks(p)| ==>
        ReadMessage(PacketChunks(p)[i]).index < 2
    ensures |InputPacket(h, p).state.slots| == 2 && |InputPacket(h, p).state.slots[1].queue| <= 2
    ensures InputPacket(h, p).state.queue == h.queue && InputPacket(h, p).state.timeLocal == h.timeLocal
  {
    hide PacketChunks, ReadMessage, ReceiveAll;
    match FindMatch(h.slots, p, 0)
    case Some(j) =>
      if j == 1 {
        ReceiveAllLength(h, j, PacketChunks(p), 2);
      }
      ReceiveAllOthers(h, j, PacketChunks(p), 1 - j);
    case None =>
  }

  lemma {:induction false} ReceiveAllOthers(s: PeerState, j: nat, chunks: seq<Chunk>, i: nat)
    requires s.mode == Host && j < |s.slots| && Headed(chunks) && i < |s.slots| && i != j
    ensures ReceiveAll(s, j, chunks).state.slots[i] == s.slots[i] && ReceiveAll(s, j, chunks).state.queue == s.queue
    ensures ReceiveAll(s, j, chunks).state.timeLocal == s.timeLocal
  {
    if chunks != [] {
      ReceiveAllOthers(s, j, chunks[..|chunks| - 1], i);
    }
  }

  /** The next tick of the host takes the wrong message into the log. */
  lemma LastTick(t: HostTrace, draws: Draws)
    requires HostInv(t) && |t.host.slots| == 2 && |t.host.queue| == 2
    requires TickAccepted(t.host, 0)
    requires var slot := t.host.slots[1];
             slot.inIndex >= 1 && |slot.queue| == 2 && slot.queue[1].ready && slot.queue[1].data == [1]
    ensures TickOk(t.host, 0)
    ensures var log := PeerStates.Tick(t.host, 0, draws).state.queue;
            |log| <= 4 && SentBy(log, 1) == [t.host.slots[1].queue[0].data, [1]]
    ensures var slots := PeerStates.Tick(t.host, 0, draws).state.slots;
            |slots| == 2 && slots[1].remote == t.host.slots[1].remote
  {
    hide PeerStates.Tick, TickOk, HostInv;
    TickNeverBlocked(t, 0, draws);
    TickSettles(t, 0, draws);
    ElapseKeeps(t, 0, draws);
    TraceShape(t);
    var next := HostNext(t, Elapse(0, draws));
    SlotsAre(next, 1);
    LogSize(t);
    LogSize(next);
    DrainedTwo(t.host.slots[1], next.host.slots[1], next.host.queue);
  }

  lemma DrainedTwo(a: Slot, b: Slot, log: seq<Entry>)
    requires SlotSettled(a, b, log) && TakenOk(b, 1, log)
    requires a.inIndex >= 1 && |a.queue| == 2 && a.queue[1].ready
    ensures SentBy(log, 1) == [a.queue[0].data, a.queue[1].data] && b.inIndex == 2
  {
    hide SlotGrows, SentBy;
  }

  lemma LogSize(t: HostTrace)
    requires HostInv(t) && |t.host.slots| == 2
    ensures |t.host.queue| == |t.hosted| + t.host.slots[1].inIndex
  {
    var slots := t.host.slots;
    assert slots[..1][..0] == [] && slots[..1][0] == slots[0];
    assert SumIn(slots[..1]) == SumIn([]) + slots[0].inIndex;
  }

  lemma StatesFound(steps: seq<Step>, h: PeerState, c: PeerState) returns (t: HostTrace)
    requires At(Cast(), steps, h, [c])
    requires c == ClientWith(1, AT_SLOT, [Theirs(1), Theirs(2)], 2, 10, LOG)
    ensures t.host == h && HostInv(t) && HostEndpointsOk(h) && ClientOk(h, c)
    ensures |c.slots| == 1 && |c.slots[0].queue| == 2 <= INT64_MAX && c.actor == 1
  {
    hide Inv, Run;
    var now := After(Cast(), steps);
    t := now.trace;
    assert now.clients[0] == c;
    InvHost(now);
    ClientIdDefined(now, 0);
  }

  /** The heartbeat reaches the host. */
  lemma HeartbeatArrives(steps: seq<Step>, h: PeerState, c: PeerState) returns (next: seq<Step>, heard: PeerState,
      sent: PeerState)
    requires h == HostWith(Session(Ready, 3, [Theirs(1)], 1, 2, 10), LOG, 2)
    requires c == ClientWith(1, AT_SLOT, [Theirs(1), Theirs(2)], 2, 10, LOG)
    requires At(Cast(), steps, h, [c])
    ensures At(Cast(), next, heard, [sent])
    ensures Grows(h, heard) && heard.queue == LOG && |heard.slots| == 2 && heard.timeLocal == 0
    ensures var q := heard.slots[1].queue; |q| == 2 && q[1].ready && q[1].data == [1]
    ensures sent.actor == 1 && |sent.slots| == 1 && sent.slots[0].queue == c.slots[0].queue && Local(sent) == Local(c)
  {
    hide *;
    var t := StatesFound(steps, h, c);
    var draws, p := AboutToBreak(t, c);
    sent := PeerStates.Tick(c, 10, draws).state;
    heard := InputPacket(h, p).state;
    ClientKept(h, c, draws);
    DoClientTick(Cast(), steps, h, [c], 0, 10, draws);
    assert [c][0 := sent] == [sent];
    next := steps + [Step.ClientTick(0, 10, draws)];
    HostHears(next, h, [sent], p);
    next := next + [HostInput(p)];
  }

  lemma ClientKept(h: PeerState, c: PeerState, draws: Draws)
    requires ClientOk(h, c) && TickOk(c, 10)
    ensures var r := PeerStates.Tick(c, 10, draws).state;
            r.actor == c.actor && |r.slots| == 1 && r.slots[0].queue == c.slots[0].queue && Local(r) == Local(c)
  {
    hide PeerStates.Tick, TickOk;
    if TickAccepted(c, 10) {
      ClientTicked(h, c, 10, draws);
    } else {
      RejectedTick(c, 10, draws);
    }
  }

  lemma HostHears(steps: seq<Step>, h: PeerState, clients: seq<PeerState>, p: Packet)
    requires At(Cast(), steps, h, clients) && InNet(Cast(), steps, p) && InputOk(h, p)
    ensures At(Cast(), steps + [HostInput(p)], InputPacket(h, p).state, clients)
    ensures Grows(h, InputPacket(h, p).state)
  {
    var now := After(Cast(), steps);
    assert p in now.net && now.Host() == h;
    InvHost(now);
    SentDefined(now, p);
    assert StepAllowed(now.trace, Accept(p));
    hide *;
    DoHostInput(Cast(), steps, h, clients, p);
    AcceptGrows(now.trace, p);
  }

  /** The host's next tick. */
  lemma LogBreaks(steps: seq<Step>, heard: PeerState, clients: seq<PeerState>,
      draws: Draws) returns (next: seq<Step>, g: PeerState)
    requires At(Cast(), steps, heard, clients)
    requires |heard.slots| == 2 && |heard.queue| == 2 && heard.timeLocal == 0
    requires var slot := heard.slots[1];
             slot.inIndex >= 1 && |slot.queue| == 2 && slot.queue[1].ready && slot.queue[1].data == [1]
    ensures At(Cast(), next, g, clients)
    ensures SentBy(g.queue, 1) == [heard.slots[1].queue[0].data, [1]]
    ensures |g.slots| == 2 && g.slots[1].remote == heard.slots[1].remote
  {
    var now := After(Cast(), steps);
    assert now.trace.host == heard;
    InvHost(now);
    hide *;
    InRange(now.trace);
    LastTick(now.trace, draws);
    DoHostTick(Cast(), steps, heard, clients, 0, draws);
    next, g := steps + [Step.HostTick(0, draws)], PeerStates.Tick(heard, 0, draws).state;
  }

  /** A run without forgery after which the log does not hold, from the client's slot, a prefix of what the client
      queued: its first message is there twice, in the place of its second. */
  lemma FifoCanBreak() returns (steps: seq<Step>)
    ensures Run(Cast(), steps) && forall i :: 0 <= i < |steps| ==> !steps[i].Inject?
    ensures var now := After(Cast(), steps);
            && |now.clients| == 1 && |now.clients[0].slots| == 1 && |now.Host().slots| == 2
            && now.clients[0].actor == 1 && now.Host().slots[1].remote.id == Local(now.clients[0]).id
            && Payloads(now.clients[0].slots[0].queue) == [[1], [2]]
            && SentBy(now.Host().queue, 1) == [[1], [1]]
  {
    var none: Draws := (_, _) => 0;
    var h, c := HostWith(Session(Ready, 3, [Theirs(1)], 1, 2, 10), LOG, 2),
        ClientWith(1, AT_SLOT, [Theirs(1), Theirs(2)], 2, 10, LOG);
    assert |c.slots| == 1 && Payloads(c.slots[0].queue) == [[1], [2]] && Local(c).id == 3 && |LOG| == 2;
    hide Start, Run, After, HostWith, ClientWith, Grows, SentBy, Payloads, LOG;
    steps := SecondMessage(none);
    var heard, sent, g;
    steps, heard, sent := HeartbeatArrives(steps, h, c);
    HeardSlot(h, heard);
    steps, g := LogBreaks(steps, heard, [sent], none);
  }

  lemma InRange(t: HostTrace)
    requires HostInv(t) && t.host.timeLocal == 0
    ensures TickAccepted(t.host, 0)
  {
  }

  lemma HeardSlot(h: PeerState, heard: PeerState)
    requires h == HostWith(Session(Ready, 3, [Theirs(1)], 1, 2, 10), LOG, 2)
    requires Grows(h, heard)
    ensures |heard.slots| == 2
    ensures var slot := heard.slots[1];
            slot.inIndex >= 1 && |slot.queue| >= 1 && slot.queue[0].data == [1] && slot.remote.id == 3
  {
    assert SlotGrows(h.slots[1], heard.slots[1]);
    assert h.slots[1].queue[0].ready;
  }

  // ---- One source, several slots ----

  /** Whoever sends two packets to slot 0 of a host is given two slots, if two are free. */
  lemma RepeatedRequest(h: PeerState, p: Packet, i: nat, j: nat)
    requires h.mode == Host && HostEndpointsOk(h) && h.slots[0].remote.id == UNDEFINED
    requires p.source != UNDEFINED && p.destination == h.slots[0].local.id
    requires FindFree(h.slots, 1) == Some(i) && FindFree(h.slots, i + 1) == Some(j)
    ensures i != j && InputAllOk(h, [p, p])
    ensures var r := InputAll(h, [p, p]);
            && r.status == OK && |r.state.slots| == |h.slots|
            && r.state.slots[i].remote.id == p.source == r.state.slots[j].remote.id
  {
    assert [p, p][..1] == [p] && [p][..0] == [];
    assert InputAll(h, []) == Outcome(OK, h);
    SlotTaken(h, p, i);
    var mid := h.(slots := h.slots[i := Assigned(h.slots[i], i, p)]);
    NextFree(h.slots, mid.slots, 1, i, j);
    SlotTaken(mid, p, j);
  }

  lemma SlotTaken(h: PeerState, p: Packet, i: nat)
    requires h.mode == Host && HostEndpointsOk(h) && h.slots[0].remote.id == UNDEFINED
    requires p.source != UNDEFINED && p.destination == h.slots[0].local.id
    requires FindFree(h.slots, 1) == Some(i)
    ensures InputOk(h, p)
    ensures InputPacket(h, p) == Outcome(OK, h.(slots := h.slots[i := Assigned(h.slots[i], i, p)]))
  {
    assert h.slots[0].local.id == p.destination;
    assert FindMatch(h.slots, p, 0) == None;
  }

  lemma {:induction false} NextFree(a: seq<Slot>, b: seq<Slot>, n: nat, i: nat, j: nat)
    requires n <= i < |a| && |b| == |a| && FindFree(a, n) == Some(i) && FindFree(a, i + 1) == Some(j)
    requires b == a[i := b[i]] && !Assignable(b[i])
    ensures FindFree(b, n) == Some(j)
    decreases i - n
  {
    if n < i {
      NextFree(a, b, n + 1, i, j);
    } else {
      AgreeFrom(a, b, i + 1);
    }
  }

  lemma {:induction false} AgreeFrom(a: seq<Slot>, b: seq<Slot>, n: nat)
    requires |a| == |b| && forall k :: n <= k < |a| ==> a[k] == b[k]
    ensures FindFree(a, n) == FindFree(b, n)
    decreases |a| - n
  {
    if n < |a| {
      AgreeFrom(a, b, n + 1);
    }
  }
}
