/** The order of the log: what a tick publishes is sorted by actor, the host's own messages first, and that
    together with what each actor sent leaves no choice. */
module MergeOrders {
  import opened Options
  import opened Packets
  import opened Queues
  import opened Trails
  import opened PeerStates
  import opened HostRuns
  import opened HostGrowth

  predicate ByActor(q: seq<Entry>, from: nat) {
    forall a, b :: from <= a < b < |q| ==> q[a].actor <= q[b].actor
  }

  /** The entries from an index on come from actors in a range. */
  predicate ActorsIn(q: seq<Entry>, from: nat, low: int, high: int) {
    forall k :: from <= k < |q| ==> low <= q[k].actor < high
  }

  // ---- One tick ----

  lemma {:induction false} MergeToOrder(s: PeerState, hosted: seq<seq<byte>>, n: nat)
    requires Stocked(s, hosted) && n <= |s.slots|
    ensures var r := MergeTo(s, n);
            s.queue <= r.queue && ActorsIn(r.queue, |s.queue|, 1, if n > 1 then n else 1) && ByActor(r.queue, |s.queue|)
  {
    if n > 1 {
      var mid := MergeTo(s, n - 1);
      MergeToOk(s, hosted, n - 1);
      MergeToOrder(s, hosted, n - 1);
      MergeOneOrder(mid, hosted, n - 1, |s.queue|);
      hide Stocked, ActorsIn, ByActor, MergedUpTo;
    }
  }

  lemma MergeOneOrder(s: PeerState, hosted: seq<seq<byte>>, i: nat, from: nat)
    requires Stocked(s, hosted) && 0 < i < |s.slots|
    requires from <= |s.queue| && ActorsIn(s.queue, from, 1, if i > 1 then i else 1) && ByActor(s.queue, from)
    ensures var r := MergeSlot(s, i);
            s.queue <= r.queue && ActorsIn(r.queue, from, 1, i + 1) && ByActor(r.queue, from)
  {
    assert SlotOk(s.slots[i], i, s.queue);
    TakenEntries(s.slots[i], i, s.queue, s.time);
    hide Stocked, SlotOk, Taken, ReadyEnd;
  }

  /** Everything a tick publishes has its time, and is sorted by actor: first what the host queued since the last
      tick, then slot by slot what was taken from the inboxes. */
  lemma TickOrder(t: HostTrace, elapsed: nat, draws: Draws)
    requires HostInv(t) && TickAccepted(t.host, elapsed) && TickOk(t.host, elapsed)
    ensures var g := Tick(t.host, elapsed, draws).state;
            && t.host.queueIndex <= |t.host.queue| <= |g.queue|
            && g.queueIndex == |g.queue| && Published(t.host) <= g.queue
            && ByActor(g.queue, t.host.queueIndex)
            && (forall k :: t.host.queueIndex <= k < |g.queue| ==> g.queue[k].time == g.time)
            && (forall k :: t.host.queueIndex <= k < |t.host.queue| ==>
                  g.queue[k].actor == 0 && g.queue[k].data == t.host.queue[k].data)
            && (forall k :: |t.host.queue| <= k < |g.queue| ==> 0 < g.queue[k].actor < |g.slots|)
  {
    hide Merged, SentSlots, SentPackets, HostSendable, TickOk, Tick;
    var a := Advanced(t.host, elapsed);
    var s := Stamped(a);
    AdvancedOk(t, elapsed);
    StampedOk(a, t.hosted);
    MergeToOk(s, t.hosted, |a.slots|);
    MergeToOrder(s, t.hosted, |a.slots|);
    MergedOk(t, elapsed);
    MergedLog(t, elapsed);
    TickedState(t, elapsed, draws);
    OwnFirst(t, elapsed);
    hide HostInv, Stocked, MergeTo, Stamped, Advanced, MergedUpTo;
    var m := Merged(a);
    assert m.queue == MergeTo(s, |a.slots|).queue;
    SortedAfterOwn(s.queue, m.queue, t.host.queueIndex);
  }

  /** The entries not yet published when a tick begins are the host's own. */
  lemma OwnFirst(t: HostTrace, elapsed: nat)
    requires HostInv(t)
    ensures var s := Stamped(Advanced(t.host, elapsed));
            && t.host.queueIndex <= |t.host.queue| == |s.queue| && |s.slots| == |t.host.slots|
            && forall k :: t.host.queueIndex <= k < |s.queue| ==>
                 s.queue[k].actor == 0 && s.queue[k].data == t.host.queue[k].data
  {
    hide BooksOk, ClocksOk, TimeOk;
  }

  lemma SortedAfterOwn(own: seq<Entry>, log: seq<Entry>, from: nat)
    requires own <= log && from <= |own| && ByActor(log, |own|)
    requires forall k :: from <= k < |own| ==> own[k].actor == 0
    requires forall k :: |own| <= k < |log| ==> log[k].actor >= 1
    ensures ByActor(log, from)
    ensures forall k :: from <= k < |own| ==> log[k] == own[k]
  {
  }

  // ---- Sorting and projections determine the log ----

  lemma {:induction false} SentByFind(q: seq<Entry>, actor: int) returns (k: nat)
    requires SentBy(q, actor) != []
    ensures k < |q| && q[k].actor == actor
  {
    k := |q| - 1;
    if q[k].actor != actor {
      k := SentByFind(q[..k], actor);
    }
  }

  ghost predicate SameProjections(q: seq<Entry>, r: seq<Entry>) {
    forall actor :: SentBy(q, actor) == SentBy(r, actor)
  }

  predicate AllAt(q: seq<Entry>, time: int) {
    forall k :: 0 <= k < |q| ==> q[k].ready && q[k].time == time
  }

  lemma LastSentBy(q: seq<Entry>, r: seq<Entry>)
    requires q != [] && SameProjections(q, r) && ByActor(r, 0)
    ensures r != [] && q[|q| - 1].actor <= r[|r| - 1].actor
  {
    assert SentBy(q, q[|q| - 1].actor) != [];
    var k := SentByFind(r, q[|q| - 1].actor);
  }

  lemma DropSame(q: seq<Entry>, r: seq<Entry>)
    requires q != [] && r != [] && SameProjections(q, r) && q[|q| - 1].actor == r[|r| - 1].actor
    ensures q[|q| - 1].data == r[|r| - 1].data && SameProjections(q[..|q| - 1], r[..|r| - 1])
  {
    var most, rest, e, f := q[..|q| - 1], r[..|r| - 1], q[|q| - 1], r[|r| - 1];
    assert SentBy(q, e.actor) == SentBy(most, e.actor) + [e.data];
    assert SentBy(r, e.actor) == SentBy(rest, e.actor) + [f.data];
    forall actor ensures SentBy(most, actor) == SentBy(rest, actor) {
      assert SentBy(q, actor) == SentBy(r, actor);
      if actor == e.actor {
        SnocEqual(SentBy(most, actor), e.data, SentBy(rest, actor), f.data);
      }
    }
    SnocEqual(SentBy(most, e.actor), e.data, SentBy(rest, e.actor), f.data);
  }

  lemma SnocEqual<T>(a: seq<T>, x: T, b: seq<T>, y: T)
    requires a + [x] == b + [y]
    ensures a == b && x == y
  {
    assert (a + [x])[..|a|] == a && (b + [y])[..|b|] == b;
    assert (a + [x])[|a|] == x && (b + [y])[|b|] == y;
  }

  /** What a tick publishes is determined by what each actor sent: there is one log of these messages, at this
      time, that is sorted by actor. */
  lemma {:induction false} OrderDetermines(q: seq<Entry>, r: seq<Entry>, time: int)
    requires ByActor(q, 0) && ByActor(r, 0) && AllAt(q, time) && AllAt(r, time) && SameProjections(q, r)
    ensures q == r
  {
    if q == [] {
      if r != [] {
        LastSentBy(r, q);
      }
    } else {
      LastSentBy(q, r);
      LastSentBy(r, q);
      DropSame(q, r);
      hide SentBy, SameProjections;
      OrderDetermines(q[..|q| - 1], r[..|r| - 1], time);
      assert q == q[..|q| - 1] + [q[|q| - 1]] && r == r[..|r| - 1] + [r[|r| - 1]];
    }
  }

  // ---- Every run ----

  /** Step n of a run is an accepted tick. */
  ghost predicate TickAt(t: HostTrace, steps: seq<HostStep>, n: nat)
    requires HostRun(t, steps) && n < |steps|
  {
    RunGrows(t, steps, n);
    steps[n].Elapse? && TickAccepted(HostAfter(t, steps[..n]).host, steps[n].elapsed)
  }

  /** The log between its lengths before and after a tick of the run, in every later state of the run: sorted by
      actor, and all at that tick's time. */
  lemma RunOrder(t: HostTrace, steps: seq<HostStep>, n: nat)
    requires HostRun(t, steps) && n < |steps| && TickAt(t, steps, n)
    ensures HostRun(t, steps[..n]) && HostRun(t, steps[..n + 1])
    ensures var before, after := HostAfter(t, steps[..n]).host, HostAfter(t, steps[..n + 1]).host;
            var now := HostAfter(t, steps).host;
            && before.queueIndex <= after.queueIndex <= now.queueIndex <= |now.queue|
            && (forall a, b :: before.queueIndex <= a < b < after.queueIndex ==>
                  now.queue[a].actor <= now.queue[b].actor)
            && (forall k :: before.queueIndex <= k < after.queueIndex ==> now.queue[k].time == after.time)
  {
    hide *;
    RunGrows(t, steps, n);
    RunGrows(t, steps, n + 1);
    OneStepOn(t, steps, n);
    TickAtShape(t, steps, n);
    TickedOrder(HostAfter(t, steps[..n]), steps[n]);
    PublishedStays(HostAfter(t, steps[..n]).host, HostAfter(t, steps[..n + 1]).host, HostAfter(t, steps).host);
  }

  lemma TickAtShape(t: HostTrace, steps: seq<HostStep>, n: nat)
    requires HostRun(t, steps) && n < |steps| && HostRun(t, steps[..n]) && TickAt(t, steps, n)
    ensures HostInv(HostAfter(t, steps[..n]))
    ensures steps[n].Elapse? && TickAccepted(HostAfter(t, steps[..n]).host, steps[n].elapsed)
  {
    hide HostRun, HostAfter, HostInv;
  }

  lemma PublishedStays(before: PeerState, after: PeerState, now: PeerState)
    requires before.queueIndex <= after.queueIndex == |after.queue| && ByActor(after.queue, before.queueIndex)
    requires forall k :: before.queueIndex <= k < |after.queue| ==> after.queue[k].time == after.time
    requires Grows(after, now)
    ensures before.queueIndex <= after.queueIndex <= now.queueIndex <= |now.queue|
    ensures forall a, b :: before.queueIndex <= a < b < after.queueIndex ==> now.queue[a].actor <= now.queue[b].actor
    ensures forall k :: before.queueIndex <= k < after.queueIndex ==> now.queue[k].time == after.time
  {
    hide SlotGrows;
    assert |Published(after)| <= |Published(now)|;
    assert forall k :: 0 <= k < after.queueIndex ==> Published(after)[k] == Published(now)[k];
  }

  lemma TickedOrder(t: HostTrace, step: HostStep)
    requires HostInv(t) && StepAllowed(t, step) && step.Elapse? && TickAccepted(t.host, step.elapsed)
    ensures var g := HostNext(t, step).host;
            && t.host.queueIndex <= g.queueIndex == |g.queue| && ByActor(g.queue, t.host.queueIndex)
            && forall k :: t.host.queueIndex <= k < |g.queue| ==> g.queue[k].time == g.time
  {
    hide Tick, HostInv, TickOk;
    TickOrder(t, step.elapsed, step.draws);
    TraceBounds(t);
  }

  /** Step n leads from one prefix of the run to the next. */
  lemma OneStepOn(t: HostTrace, steps: seq<HostStep>, n: nat)
    requires HostRun(t, steps) && n < |steps| && HostRun(t, steps[..n]) && HostRun(t, steps[..n + 1])
    ensures StepAllowed(HostAfter(t, steps[..n]), steps[n])
    ensures HostAfter(t, steps[..n]).host.mode == Host
    ensures |HostAfter(t, steps[..n]).quiet| == |HostAfter(t, steps[..n]).host.slots|
    ensures HostAfter(t, steps[..n + 1]) == HostNext(HostAfter(t, steps[..n]), steps[n])
  {
    hide HostInv, HostNext, StepAllowed, HostStart;
    assert steps[..n + 1][..n] == steps[..n] && steps[..n + 1][n] == steps[n];
    RunShape(HostAfter(t, steps[..n]));
  }

  lemma RunShape(t: HostTrace)
    requires HostInv(t)
    ensures t.host.mode == Host && |t.quiet| == |t.host.slots|
  {
  }

  /** Only accepted ticks publish. */
  lemma OthersPublishNothing(t: HostTrace, step: HostStep)
    requires HostInv(t) && StepAllowed(t, step)
    requires !(step.Elapse? && TickAccepted(t.host, step.elapsed))
    ensures t.host.mode == Host && |t.quiet| == |t.host.slots|
    ensures HostNext(t, step).host.queueIndex == t.host.queueIndex
  {
    RunShape(t);
    match step
    case Enqueue(data) =>
    case Accept(p) => AcceptPublishesNothing(t, p);
    case Elapse(elapsed, draws) =>
      hide HostInv, TickOk, Tick;
      RejectedTick(t.host, elapsed, draws);
  }

  lemma AcceptPublishesNothing(t: HostTrace, p: Packet)
    requires HostInv(t) && StepAllowed(t, Accept(p))
    ensures InputPacket(t.host, p).state.queueIndex == t.host.queueIndex
  {
    var h := t.host;
    hide SentBy, ReceiveAll, InboxOk, TakenOk;
    if HasLocal(h.slots, p.destination) {
      match FindMatch(h.slots, p, 0)
      case Some(j) =>
        PacketChunksSmall(p);
        HostReceiveAllKeeps(h, j, h.queue, PacketChunks(p));
      case None =>
    }
  }

  /** Every published entry was published by a tick of the run. */
  lemma {:induction false} PublishingTick(t: HostTrace, steps: seq<HostStep>, k: nat) returns (n: nat)
    requires HostRun(t, steps) && k < HostAfter(t, steps).host.queueIndex
    ensures n < |steps| && TickAt(t, steps, n) && HostRun(t, steps[..n]) && HostRun(t, steps[..n + 1])
    ensures HostAfter(t, steps[..n]).host.queueIndex <= k < HostAfter(t, steps[..n + 1]).host.queueIndex
  {
    hide *;
    if steps == [] {
      NothingAtStart(t, steps);
    } else {
      var last := |steps| - 1;
      var most := steps[..last];
      RunGrows(t, steps, last);
      if k < HostAfter(t, most).host.queueIndex {
        n := PublishingTick(t, most, k);
        assert most[..n] == steps[..n] && most[..n + 1] == steps[..n + 1];
        TickAtEarlier(t, steps, most, n);
      } else {
        n := last;
        assert steps[..n + 1] == steps;
        LastTick(t, steps);
      }
    }
  }

  lemma NothingAtStart(t: HostTrace, steps: seq<HostStep>)
    requires HostRun(t, steps) && steps == []
    ensures HostAfter(t, steps).host.queueIndex == 0
  {
  }

  lemma TickAtEarlier(t: HostTrace, steps: seq<HostStep>, most: seq<HostStep>, n: nat)
    requires HostRun(t, steps) && HostRun(t, most) && most <= steps && n < |most| && TickAt(t, most, n)
    ensures TickAt(t, steps, n)
  {
    hide HostInv, HostNext, StepAllowed, HostRun, HostAfter;
    assert most[..n] == steps[..n];
  }

  lemma LastTick(t: HostTrace, steps: seq<HostStep>)
    requires HostRun(t, steps) && steps != [] && HostRun(t, steps[..|steps| - 1])
    requires HostAfter(t, steps).host.queueIndex != HostAfter(t, steps[..|steps| - 1]).host.queueIndex
    ensures TickAt(t, steps, |steps| - 1)
  {
    var last := |steps| - 1;
    assert steps[..last + 1] == steps;
    OneStepOn(t, steps, last);
    hide HostInv, HostNext, StepAllowed, HostRun, HostAfter;
    if !TickAt(t, steps, last) {
      OthersPublishNothing(HostAfter(t, steps[..last]), steps[last]);
    }
  }
}
