/** All runs of the system, and what holds in every one of them. */
module Runs {
  import opened Options
  import opened Serial
  import opened Packets
  import opened Queues
  import opened Trails
  import opened PeerStates
  import opened HostRuns
  import opened HostGrowth
  import opened Network
  import opened Agreement

  ghost predicate Run(s: System, steps: seq<Step>)
    decreases |steps|, 0
  {
    && Start(s)
    && (steps == [] || (Run(s, steps[..|steps| - 1]) && Allowed(After(s, steps[..|steps| - 1]), steps[|steps| - 1])))
  }

  /** The system after a run of steps. */
  ghost function After(s: System, steps: seq<Step>): (r: System)
    requires Run(s, steps)
    ensures Inv(r)
    decreases |steps|, 1
  {
    if steps == [] then
      StartInvariant(s);
      s
    else
      var most, step := After(s, steps[..|steps| - 1]), steps[|steps| - 1];
      SystemStepKeeps(most, step);
      Next(most, step)
  }

  lemma RunMost(s: System, steps: seq<Step>)
    requires Run(s, steps) && steps != []
    ensures var most, step := steps[..|steps| - 1], steps[|steps| - 1];
            Run(s, most) && Allowed(After(s, most), step) && After(s, steps) == Next(After(s, most), step)
  {
    hide Start, Inv, Next, Allowed;
  }

  // ---- What is never taken back ----

  ghost predicate ClientGrows(a: PeerState, b: PeerState) {
    && |a.slots| == 1 && |b.slots| == 1
    && Local(a) == Local(b)
    && a.time <= b.time
    && Extends(a.queue, b.queue)
    && Payloads(a.slots[0].queue) <= Payloads(b.slots[0].queue)
  }

  ghost predicate SystemGrows(s: System, r: System) {
    && Grows(s.Host(), r.Host())
    && s.net <= r.net
    && |s.clients| == |r.clients|
    && forall c :: 0 <= c < |s.clients| ==> ClientGrows(s.clients[c], r.clients[c])
  }

  lemma SystemGrowsTransitive(a: System, b: System, c: System)
    requires SystemGrows(a, b) && SystemGrows(b, c)
    ensures SystemGrows(a, c)
  {
    GrowsTransitive(a.Host(), b.Host(), c.Host());
    forall i | 0 <= i < |a.clients| ensures ClientGrows(a.clients[i], c.clients[i]) {
      assert ClientGrows(a.clients[i], b.clients[i]) && ClientGrows(b.clients[i], c.clients[i]);
      ExtendsTransitive(a.clients[i].queue, b.clients[i].queue, c.clients[i].queue);
    }
  }

  lemma HostGrowsRefl(h: PeerState)
    requires h.queueIndex <= |h.queue|
    ensures Grows(h, h)
  {
  }

  lemma ClientGrowsRefl(h: PeerState, c: PeerState)
    requires ClientOk(h, c)
    ensures ClientGrows(c, c)
  {
  }

  /** Receiving changes no payload of the outgoing queue. */
  lemma ReceivePayloads(c: PeerState, m: Message)
    requires |c.slots| == 1
    ensures var r := ClientReceive(c, 0, m).state;
            |r.slots| == 1 && Payloads(r.slots[0].queue) == Payloads(c.slots[0].queue)
  {
  }

  lemma {:induction false} ReceiveAllPayloads(c: PeerState, chunks: seq<Chunk>)
    requires |c.slots| == 1 && c.mode == Client && Headed(chunks)
    ensures Payloads(ReceiveAll(c, 0, chunks).state.slots[0].queue) == Payloads(c.slots[0].queue)
  {
    if chunks != [] {
      hide ClientReceive, ReadMessage;
      var most := chunks[..|chunks| - 1];
      ReceiveAllPayloads(c, most);
      ReceivePayloads(ReceiveAll(c, 0, most).state, ReadMessage(chunks[|chunks| - 1]));
    }
  }

  lemma InputPayloads(h: PeerState, c: PeerState, p: Packet)
    requires ClientOk(h, c) && InputOk(c, p)
    ensures Payloads(InputPacket(c, p).state.slots[0].queue) == Payloads(c.slots[0].queue)
  {
    if FindMatch(c.slots, p, 0).Some? && HasLocal(c.slots, p.destination) {
      ReceiveAllPayloads(c, PacketChunks(p));
    }
  }

  lemma QueuePayloads(h: PeerState, c: PeerState, data: seq<byte>)
    requires ClientOk(h, c)
    ensures var r := Enqueued(c, Some(data)).state;
        ClientGrows(c, r) && Payloads(r.slots[0].queue) == Payloads(c.slots[0].queue) + [data]
  {
  }

  lemma OneClientGrows(s: System, c: nat, next: PeerState, sent: set<Packet>)
    requires Inv(s) && c < |s.clients| && ClientGrows(s.clients[c], next)
    ensures SystemGrows(s, s.(clients := s.clients[c := next], net := s.net + sent))
  {
    hide HostInv, ClientOk, Grows, PacketOk, ClientGrows;
    InvHost(s);
    TraceBounds(s.trace);
    HostGrowsRefl(s.Host());
    forall d | 0 <= d < |s.clients| ensures ClientGrows(s.clients[d], s.clients[d]) {
      ClientIdDefined(s, d);
      ClientGrowsRefl(s.Host(), s.clients[d]);
    }
  }

  lemma HostStepGrows(s: System, step: Step)
    requires Inv(s) && Allowed(s, step) && (step.HostQueue? || step.HostInput? || step.HostTick?)
    ensures SystemGrows(s, Next(s, step))
  {
    hide HostInv, ClientOk, Grows, PacketOk, ClientGrows, PeerStates.Tick, HostEndpointsOk, ClientEndpointsOk;
    InvHost(s);
    match step {
      case HostQueue(data) => StepGrows(s.trace, Enqueue(data));
      case HostInput(p) =>
        SentDefined(s, p);
        StepGrows(s.trace, Accept(p));
      case HostTick(elapsed, draws) => StepGrows(s.trace, Elapse(elapsed, draws));
    }
    forall d | 0 <= d < |s.clients| ensures ClientGrows(s.clients[d], s.clients[d]) {
      ClientIdDefined(s, d);
      ClientGrowsRefl(s.Host(), s.clients[d]);
    }
  }

  lemma ClientStepGrows(s: System, step: Step)
    requires Inv(s) && Allowed(s, step) && !(step.HostQueue? || step.HostInput? || step.HostTick?)
    ensures SystemGrows(s, Next(s, step))
  {
    hide Inv, HostInv, ClientOk, PeerStates.Tick, Enqueued, InputPacket, InputOk, TickOk, SystemGrows, HostEndpointsOk;
    var h := s.Host();
    InvHost(s);
    if step.Inject? {
      InjectGrows(s, step.p);
      return;
    }
    ClientIdDefined(s, step.c);
    ClientMode(h, s.clients[step.c]);
    var c := s.clients[step.c];
    assert s.net + {} == s.net;
    match step
    case ClientConnect(i) =>
      OneClientGrows(s, i, Connected(c, h.slots[0].local.id).state, {});
    case ClientQueue(i, data) =>
      QueuePayloads(h, c, data);
      OneClientGrows(s, i, Enqueued(c, Some(data)).state, {});
    case ClientInput(i, p) =>
      SentDefined(s, p);
      InputGood(h, c, p);
      ClientMode(h, InputPacket(c, p).state);
      InputPayloads(h, c, p);
      OneClientGrows(s, i, InputPacket(c, p).state, {});
    case ClientTick(i, elapsed, draws) =>
      ClientTickKeeps(h, c, elapsed, draws);
      ClientMode(h, PeerStates.Tick(c, elapsed, draws).state);
      OneClientGrows(s, i, PeerStates.Tick(c, elapsed, draws).state,
          PacketSet(PeerStates.Tick(c, elapsed, draws).packets));
    case Resolve(i, j) =>
      OneClientGrows(s, i, Resolved(c, h.slots[j].local.id), {});
  }

  lemma InjectGrows(s: System, p: Packet)
    requires Inv(s) && Allowed(s, Inject(p))
    ensures SystemGrows(s, Next(s, Inject(p)))
  {
    hide HostInv, ClientOk, Grows, PacketOk, ClientGrows;
    InvHost(s);
    TraceBounds(s.trace);
    HostGrowsRefl(s.Host());
    forall d | 0 <= d < |s.clients| ensures ClientGrows(s.clients[d], s.clients[d]) {
      ClientIdDefined(s, d);
      ClientGrowsRefl(s.Host(), s.clients[d]);
    }
  }

  lemma SystemStepGrows(s: System, step: Step)
    requires Inv(s) && Allowed(s, step)
    ensures SystemGrows(s, Next(s, step))
  {
    hide Inv, Allowed, SystemGrows;
    if step.HostQueue? || step.HostInput? || step.HostTick? {
      HostStepGrows(s, step);
    } else {
      ClientStepGrows(s, step);
    }
  }

  /** Between any two moments of a run, the published log and every client's filled entries only grow. */
  lemma {:induction false} SystemRunGrows(s: System, steps: seq<Step>, n: nat)
    requires Run(s, steps) && n <= |steps|
    ensures Run(s, steps[..n])
    ensures SystemGrows(After(s, steps[..n]), After(s, steps))
  {
    hide *;
    if n == |steps| {
      assert steps[..n] == steps;
      SystemGrowsRefl(After(s, steps));
    } else {
      var most := steps[..|steps| - 1];
      assert most[..n] == steps[..n];
      RunMost(s, steps);
      SystemRunGrows(s, most, n);
      SystemStepGrows(After(s, most), steps[|steps| - 1]);
      SystemGrowsTransitive(After(s, steps[..n]), After(s, most), After(s, steps));
    }
  }

  lemma SystemGrowsRefl(s: System)
    requires Inv(s)
    ensures SystemGrows(s, s)
  {
    hide HostInv, ClientOk, Grows, PacketOk, ClientGrows;
    InvHost(s);
    TraceBounds(s.trace);
    HostGrowsRefl(s.Host());
    forall d | 0 <= d < |s.clients| ensures ClientGrows(s.clients[d], s.clients[d]) {
      ClientIdDefined(s, d);
      ClientGrowsRefl(s.Host(), s.clients[d]);
    }
  }

  // ---- Log agreement ----

  lemma ClientAgrees(s: System, c: nat, k: nat)
    requires Inv(s) && c < |s.clients| && Filled(s.clients[c].queue, k)
    ensures k < s.Host().queueIndex <= |s.Host().queue| && s.clients[c].queue[k] == s.Host().queue[k]
    ensures s.clients[c].queue[k].time <= s.clients[c].time <= s.Host().time
  {
    hide HostInv, HostEndpointsOk, ClientEndpointsOk, PacketOk;
    assert ClientOk(s.Host(), s.clients[c]);
    assert MutualOk(s.Host(), s.clients[c].queue, s.clients[c].time);
  }

  /** Whatever is lost, repeated or reordered: an entry any client holds at any moment is the host's published
      entry at that index from then on, so no two clients ever hold different entries at an index, not even at
      different moments. */
  lemma LogAgreement(s: System, steps: seq<Step>, n: nat, c: nat, d: nat, k: nat)
    requires Run(s, steps) && n <= |steps|
    ensures Run(s, steps[..n])
    ensures var past, now := After(s, steps[..n]), After(s, steps);
            && |past.clients| == |now.clients|
            && (c < |past.clients| && Filled(past.clients[c].queue, k) ==>
                  && k < now.Host().queueIndex <= |now.Host().queue|
                  && past.clients[c].queue[k] == now.Host().queue[k]
                  && (d < |now.clients| && Filled(now.clients[d].queue, k) ==>
                    past.clients[c].queue[k] == now.clients[d].queue[k]))
  {
    hide Inv, Start;
    SystemRunGrows(s, steps, n);
    var past, now := After(s, steps[..n]), After(s, steps);
    if c < |past.clients| && Filled(past.clients[c].queue, k) {
      ClientAgrees(past, c, k);
      assert Published(past.Host())[k] == Published(now.Host())[k];
      if d < |now.clients| && Filled(now.clients[d].queue, k) {
        ClientAgrees(now, d, k);
      }
    }
  }

  // ---- Mutual time ----

  /** Every client's time never goes back, is at least the time of everything it holds, and at most the host's. */
  lemma MutualTime(s: System, steps: seq<Step>, n: nat, c: nat, k: nat)
    requires Run(s, steps) && n <= |steps| && c < |s.clients|
    ensures Run(s, steps[..n])
    ensures var past, now := After(s, steps[..n]), After(s, steps);
            && |past.clients| == |now.clients| == |s.clients|
            && past.clients[c].time <= now.clients[c].time <= now.Host().time
            && (Filled(now.clients[c].queue, k) ==> now.clients[c].queue[k].time <= now.clients[c].time)
  {
    hide Inv, Start, Grows, HostInv;
    SystemRunGrows(s, steps, 0);
    assert steps[..0] == [];
    SystemRunGrows(s, steps, n);
    var past, now := After(s, steps[..n]), After(s, steps);
    assert ClientGrows(past.clients[c], now.clients[c]);
    ClientIdDefined(now, c);
    if Filled(now.clients[c].queue, k) {
      ClientAgrees(now, c, k);
    }
  }

  // ---- Actors ----

  /** An adopted actor is the number of a slot bound to exactly that client: never the host's 0, never two
      clients' alike; and whatever fills a slot's inbox carries that slot's number. */
  lemma ActorIdentity(s: System, steps: seq<Step>, c: nat, d: nat)
    requires Run(s, steps) && c < |s.clients| && d < |s.clients|
    ensures var now := After(s, steps); var h := now.Host();
            && |now.clients| == |s.clients| && |now.clients[c].slots| == 1
            && (now.clients[c].actor != UNDEFINED ==>
                  && 0 < now.clients[c].actor < |h.slots|
                  && h.slots[now.clients[c].actor].actor == now.clients[c].actor
                  && h.slots[now.clients[c].actor].remote.id == Local(now.clients[c]).id
                  && now.clients[c].actor != h.actor
                  && (c != d ==> now.clients[c].actor != now.clients[d].actor))
            && (forall j, k :: 0 < j < |h.slots| && 0 <= k < |h.slots[j].queue| && h.slots[j].queue[k].ready ==>
                  h.slots[j].actor == j == h.slots[j].queue[k].actor)
  {
    SystemRunGrows(s, steps, 0);
    assert steps[..0] == [];
    assert After(s, []) == s;
    ActorsDistinct(After(s, steps), c, d);
    SlotActors(After(s, steps).trace);
  }

  lemma ActorsDistinct(now: System, c: nat, d: nat)
    requires Inv(now) && c < |now.clients| && d < |now.clients|
    ensures |now.clients[c].slots| == 1
    ensures now.clients[c].actor != UNDEFINED ==>
              && 0 < now.clients[c].actor < |now.Host().slots|
              && now.Host().slots[now.clients[c].actor].remote.id == Local(now.clients[c]).id != UNDEFINED
              && (c != d ==> now.clients[c].actor != now.clients[d].actor)
  {
    hide HostInv, PacketOk, MutualOk, OutboxOk, HostEndpointsOk;
    assert ClientOk(now.Host(), now.clients[c]) && ClientOk(now.Host(), now.clients[d]);
  }

  lemma SlotActors(t: HostTrace)
    requires HostInv(t)
    ensures t.host.actor == 0
    ensures forall j :: 0 < j < |t.host.slots| && t.host.slots[j].remote.id != UNDEFINED ==> t.host.slots[j].actor == j
    ensures forall j, k ::
              0 < j < |t.host.slots| && 0 <= k < |t.host.slots[j].queue| && t.host.slots[j].queue[k].ready ==>
                t.host.slots[j].actor == j == t.host.slots[j].queue[k].actor
  {
    hide LogOk, TimeOk, TakenOk, ClocksOk, IndicesOk;
    forall j | 0 < j < |t.host.slots| ensures StateOk(t.host.slots[j], j) && InboxOk(t.host.slots[j], j) {
      assert SlotOk(t.host.slots[j], j, t.host.queue);
    }
  }

  // ---- Nothing gets stuck ----

  /** Any packet ever sent can be delivered to any client at any time, and the host can always tick. */
  lemma NothingBlocked(s: System, steps: seq<Step>, c: nat, p: Packet, elapsed: int)
    requires Run(s, steps) && p in After(s, steps).net
    ensures c < |After(s, steps).clients| ==> InputOk(After(s, steps).clients[c], p)
    ensures InputOk(After(s, steps).Host(), p)
    ensures TickOk(After(s, steps).Host(), elapsed)
  {
    hide Run, After;
    var now := After(s, steps);
    InvHost(now);
    SentDefined(now, p);
    hide Inv, HostInv;
    var none: Draws := (_, _) => 0;
    TickNeverBlocked(now.trace, elapsed, none);
    if c < |now.clients| {
      ClientIdDefined(now, c);
      DeliveryNeverBlocked(now.Host(), now.clients[c], p);
    }
  }
}
