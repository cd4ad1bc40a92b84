/** Spelling out a run step by step. */
module Scripts {
  import opened Options
  import opened Packets
  import opened Trails
  import opened PeerStates
  import opened HostRuns
  import opened Network
  import opened Agreement
  import opened Runs

  /** These steps are a run without forged packets, and this is where it leaves the host and the clients. */
  ghost predicate At(s: System, steps: seq<Step>, h: PeerState, clients: seq<PeerState>) {
    && Run(s, steps) && After(s, steps).Host() == h && After(s, steps).clients == clients
    && forall i :: 0 <= i < |steps| ==> !steps[i].Inject?
  }

  ghost predicate InNet(s: System, steps: seq<Step>, p: Packet) {
    Run(s, steps) && p in After(s, steps).net
  }

  lemma Begin(s: System)
    requires Start(s)
    ensures At(s, [], s.Host(), s.clients)
  {
    hide Start;
  }

  lemma Extend(s: System, steps: seq<Step>, step: Step)
    requires Run(s, steps) && Allowed(After(s, steps), step)
    ensures Run(s, steps + [step]) && After(s, steps + [step]) == Next(After(s, steps), step)
  {
    hide Inv, Next, Allowed, Start;
    assert (steps + [step])[..|steps|] == steps;
  }

  lemma DoHostQueue(s: System, steps: seq<Step>, h: PeerState, clients: seq<PeerState>, data: seq<byte>)
    requires At(s, steps, h, clients) && |data| <= MAX_MESSAGE_SIZE
    ensures At(s, steps + [HostQueue(data)], Enqueued(h, Some(data)).state, clients)
  {
    hide Start, Run, After, Enqueued, Inv, HostInv;
    InvHost(After(s, steps));
    Extend(s, steps, HostQueue(data));
  }

  lemma DoHostInput(s: System, steps: seq<Step>, h: PeerState, clients: seq<PeerState>, p: Packet)
    requires At(s, steps, h, clients) && InNet(s, steps, p) && InputOk(h, p)
    ensures At(s, steps + [HostInput(p)], InputPacket(h, p).state, clients)
  {
    hide Start, Run, After, InputPacket, InputOk, Inv, HostInv, PacketOk;
    InvHost(After(s, steps));
    SentDefined(After(s, steps), p);
    Extend(s, steps, HostInput(p));
  }

  lemma DoHostTick(s: System, steps: seq<Step>, h: PeerState, clients: seq<PeerState>, elapsed: int, draws: Draws)
    requires At(s, steps, h, clients) && TickOk(h, elapsed)
    requires |PeerStates.Tick(h, elapsed, draws).state.queue| <= INT64_MAX
    ensures var next := steps + [HostTick(elapsed, draws)]; var t := PeerStates.Tick(h, elapsed, draws);
            At(s, next, t.state, clients) && forall p :: p in t.packets ==> InNet(s, next, p)
  {
    hide Start, Run, After, PeerStates.Tick, TickOk, Inv, HostInv;
    InvHost(After(s, steps));
    Extend(s, steps, HostTick(elapsed, draws));
  }

  lemma DoClientConnect(s: System, steps: seq<Step>, h: PeerState, clients: seq<PeerState>, c: nat)
    requires At(s, steps, h, clients) && c < |clients|
    ensures |h.slots| > 0
    ensures At(s, steps + [ClientConnect(c)], h, clients[c := Connected(clients[c], h.slots[0].local.id).state])
  {
    hide Start, Run, After, Connected, Inv, HostInv;
    InvHost(After(s, steps));
    Extend(s, steps, ClientConnect(c));
  }

  lemma DoClientQueue(s: System, steps: seq<Step>, h: PeerState, clients: seq<PeerState>, c: nat, data: seq<byte>)
    requires At(s, steps, h, clients) && c < |clients| && |data| <= MAX_MESSAGE_SIZE
    ensures At(s, steps + [ClientQueue(c, data)], h, clients[c := Enqueued(clients[c], Some(data)).state])
  {
    hide Start, Run, After, Enqueued, Inv;
    Extend(s, steps, ClientQueue(c, data));
  }

  lemma DoClientInput(s: System, steps: seq<Step>, h: PeerState, clients: seq<PeerState>, c: nat, p: Packet)
    requires At(s, steps, h, clients) && c < |clients| && InNet(s, steps, p) && InputOk(clients[c], p)
    ensures At(s, steps + [ClientInput(c, p)], h, clients[c := InputPacket(clients[c], p).state])
  {
    hide Start, Run, After, InputPacket, InputOk, Inv;
    Extend(s, steps, ClientInput(c, p));
  }

  lemma DoClientTick(s: System, steps: seq<Step>, h: PeerState, clients: seq<PeerState>, c: nat, elapsed: int,
      draws: Draws)
    requires At(s, steps, h, clients) && c < |clients| && TickOk(clients[c], elapsed)
    requires |clients[c].slots| > 0 && |clients[c].slots[0].queue| <= INT64_MAX
    ensures var next := steps + [ClientTick(c, elapsed, draws)]; var t := PeerStates.Tick(clients[c], elapsed, draws);
            At(s, next, h, clients[c := t.state]) && forall p :: p in t.packets ==> InNet(s, next, p)
  {
    hide Start, Run, After, PeerStates.Tick, TickOk, Inv;
    Extend(s, steps, ClientTick(c, elapsed, draws));
  }

  lemma DoResolve(s: System, steps: seq<Step>, h: PeerState, clients: seq<PeerState>, c: nat, j: nat)
    requires At(s, steps, h, clients) && c < |clients| && |clients[c].slots| > 0 && 0 < j < |h.slots|
    requires !Remote(clients[c]).resolved && Remote(clients[c]).address != []
    requires Remote(clients[c]).address == h.slots[j].local.address
    ensures At(s, steps + [Resolve(c, j)], h, clients[c := Resolved(clients[c], h.slots[j].local.id)])
  {
    hide Start, Run, After, Resolved, Inv;
    Extend(s, steps, Resolve(c, j));
  }
}
