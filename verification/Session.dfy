/** Which slot belongs to whom: the numbers slots are opened with, and exactly when a source ends up with two. */
module Sessions {
  import opened Options
  import opened Packets
  import opened Queues
  import opened PeerStates
  import opened HostRuns
  import opened HostGrowth

  // ---- Numbers ----

  /** Every slot from n on carries its own number as actor. */
  predicate NumberedFrom(slots: seq<Slot>, n: nat) {
    forall j :: n <= j < |slots| ==> slots[j].actor == j
  }

  /** The slots a host opens get their own numbers exactly if there are none, or none were there before. */
  lemma OpenedNumbersIff(h: PeerState, ids: seq<int>)
    requires h.mode == Host
    ensures NumberedFrom(OpenedSlots(h, ids).slots, |h.slots|) <==> ids == [] || h.slots == []
  {
    if ids != [] && h.slots != [] {
      assert OpenedSlots(h, ids).slots[|h.slots|].actor == 0;
    }
  }

  /** A second call that gives slot 1 the number 0. */
  lemma SecondOpenStartsOver()
    ensures var h := OpenedSlots(OpenedSlots(NewPeer(Host), [1]), [2]);
            |h.slots| == 2 && h.slots[1].actor == 0 && !NumberedFrom(h.slots, 1)
  {
    OpenedNumbersIff(OpenedSlots(NewPeer(Host), [1]), [2]);
  }

  /** However many calls opened the slots, the host is a start of runs. */
  lemma OpenedAgainStarts(t: HostTrace, ids: seq<int>)
    requires HostStart(t) && |t.host.slots| + |ids| < TWO_32 - 1
    ensures HostStart(HostTrace(OpenedSlots(t.host, ids), [], seq(|t.host.slots| + |ids|, _ => 0)))
  {
  }

  /** And in every run a slot bound to a client carries its own number, whatever it was opened with. */
  lemma BoundNumbers(t: HostTrace, steps: seq<HostStep>, j: nat)
    requires HostRun(t, steps) && 0 < j < |HostAfter(t, steps).host.slots|
    ensures var slot := HostAfter(t, steps).host.slots[j];
            && (slot.remote.id != UNDEFINED ==> slot.actor == j)
            && (slot.remote.id == UNDEFINED <==> slot.state == Empty)
  {
    hide HostAfter, LogOk, InboxOk, TakenOk, TimeOk, IndicesOk, ClocksOk;
    assert HostInv(HostAfter(t, steps));
    assert SlotOk(HostAfter(t, steps).host.slots[j], j, HostAfter(t, steps).host.queue);
  }

  // ---- Sources ----

  /** No two slots are bound to the same source. */
  predicate OneEach(slots: seq<Slot>) {
    forall i, j :: 0 < i < j < |slots| && slots[i].remote.id != UNDEFINED ==> slots[i].remote.id != slots[j].remote.id
  }

  predicate HoldsSlot(slots: seq<Slot>, id: int) {
    exists j :: 0 < j < |slots| && slots[j].remote.id == id
  }

  /** The packet is for this host, belongs to no slot, finds a free one, and its source has a slot already. */
  predicate TakesAnother(h: PeerState, p: Packet) {
    && HasLocal(h.slots, p.destination) && FindMatch(h.slots, p, 0).None? && FindFree(h.slots, 1).Some?
    && HoldsSlot(h.slots, p.source)
  }

  predicate SameRemotes(a: seq<Slot>, b: seq<Slot>) {
    |a| == |b| && forall j :: 0 <= j < |a| ==> a[j].remote.id == b[j].remote.id
  }

  lemma AcceptOneEachIff(t: HostTrace, p: Packet)
    requires HostInv(t) && StepAllowed(t, Accept(p)) && OneEach(t.host.slots)
    ensures OneEach(InputPacket(t.host, p).state.slots) <==> !TakesAnother(t.host, p)
  {
    var h := t.host;
    hide SentBy, ReceiveAll, InboxOk, TakenOk;
    if HasLocal(h.slots, p.destination) {
      match FindMatch(h.slots, p, 0)
      case Some(j) =>
        PacketChunksSmall(p);
        HostReceiveAllKeeps(h, j, h.queue, PacketChunks(p));
        assert SameRemotes(h.slots, InputPacket(h, p).state.slots);
      case None =>
        match FindFree(h.slots, 1)
        case Some(j) => BindOneEachIff(h.slots, j, Assigned(h.slots[j], j, p));
        case None =>
    }
  }

  lemma BindOneEachIff(slots: seq<Slot>, j: nat, slot: Slot)
    requires OneEach(slots) && 0 < j < |slots| && slots[j].remote.id == UNDEFINED && slot.remote.id != UNDEFINED
    ensures OneEach(slots[j := slot]) <==> !HoldsSlot(slots, slot.remote.id)
  {
    var next := slots[j := slot];
    if i :| 0 < i < |slots| && slots[i].remote.id == slot.remote.id {
      assert next[i].remote.id == next[j].remote.id;
    }
  }

  /** The other steps bind nothing. */
  lemma OthersBindNothing(t: HostTrace, step: HostStep)
    requires HostInv(t) && StepAllowed(t, step) && !step.Accept?
    ensures SameRemotes(t.host.slots, HostNext(t, step).host.slots)
  {
    match step
    case Enqueue(data) =>
    case Elapse(elapsed, draws) =>
      hide PeerStates.Tick, TickOk, HostInv;
      if TickAccepted(t.host, elapsed) {
        TickSettles(t, elapsed, draws);
      } else {
        RejectedTick(t.host, elapsed, draws);
      }
  }

  lemma StepOneEachIff(t: HostTrace, step: HostStep)
    requires HostInv(t) && StepAllowed(t, step)
    ensures OneEach(HostNext(t, step).host.slots) <==>
            OneEach(t.host.slots) && !(step.Accept? && TakesAnother(t.host, step.p))
  {
    if !OneEach(t.host.slots) {
      TwoStayTwo(t, step);
    } else if step.Accept? {
      AcceptOneEachIff(t, step.p);
    } else {
      OthersBindNothing(t, step);
    }
  }

  /** A source with two slots keeps them. */
  lemma TwoStayTwo(t: HostTrace, step: HostStep)
    requires HostInv(t) && StepAllowed(t, step) && !OneEach(t.host.slots)
    ensures !OneEach(HostNext(t, step).host.slots)
  {
    StepGrows(t, step);
    assert t.host.mode == Host && |t.quiet| == |t.host.slots|;
    hide HostInv, HostNext, StepAllowed;
    var a, b := t.host.slots, HostNext(t, step).host.slots;
    var i, j :| 0 < i < j < |a| && a[i].remote.id != UNDEFINED && a[i].remote.id == a[j].remote.id;
    assert SlotGrows(a[i], b[i]) && SlotGrows(a[j], b[j]);
  }

  /** Step n of a run is the delivery of a packet that takes its source another slot. */
  ghost predicate TakesAnotherAt(t: HostTrace, steps: seq<HostStep>, n: nat)
    requires HostRun(t, steps) && n < |steps|
  {
    RunGrows(t, steps, n);
    steps[n].Accept? && TakesAnother(HostAfter(t, steps[..n]).host, steps[n].p)
  }

  lemma TakesAnotherEarlier(t: HostTrace, steps: seq<HostStep>, most: seq<HostStep>, n: nat)
    requires HostRun(t, steps) && HostRun(t, most) && most <= steps && n < |most|
    ensures TakesAnotherAt(t, most, n) <==> TakesAnotherAt(t, steps, n)
  {
    hide TakesAnother, HostInv, HostNext, StepAllowed;
    assert most[..n] == steps[..n];
  }

  lemma LastStepOneEachIff(t: HostTrace, steps: seq<HostStep>)
    requires HostRun(t, steps) && steps != []
    ensures HostRun(t, steps[..|steps| - 1])
    ensures OneEach(HostAfter(t, steps).host.slots) <==>
            && OneEach(HostAfter(t, steps[..|steps| - 1]).host.slots)
            && !TakesAnotherAt(t, steps, |steps| - 1)
  {
    hide OneEach, TakesAnother, HostInv, StepAllowed;
    StepOneEachIff(HostAfter(t, steps[..|steps| - 1]), steps[|steps| - 1]);
    hide HostNext;
  }

  /** No packet of the run took its source another slot. */
  ghost predicate NeverAnother(t: HostTrace, steps: seq<HostStep>)
    requires HostRun(t, steps)
  {
    forall n :: 0 <= n < |steps| ==> !TakesAnotherAt(t, steps, n)
  }

  lemma NeverAnotherSnoc(t: HostTrace, steps: seq<HostStep>, most: seq<HostStep>)
    requires HostRun(t, steps) && HostRun(t, most) && most <= steps && |steps| == |most| + 1
    ensures NeverAnother(t, steps) <==> NeverAnother(t, most) && !TakesAnotherAt(t, steps, |most|)
  {
    hide TakesAnotherAt, HostRun, HostAfter;
    forall n | 0 <= n < |most| ensures TakesAnotherAt(t, most, n) <==> TakesAnotherAt(t, steps, n) {
      TakesAnotherEarlier(t, steps, most, n);
    }
    assert NeverAnother(t, steps) ==> NeverAnother(t, most);
  }

  lemma NeverAnotherStart(t: HostTrace)
    requires HostRun(t, [])
    ensures NeverAnother(t, [])
  {
  }

  lemma StartOneEach(t: HostTrace)
    requires HostRun(t, [])
    ensures OneEach(HostAfter(t, []).host.slots)
  {
  }

  /** After any run every source holds at most one slot exactly if no packet took its source another one. */
  lemma {:induction false} OneSlotPerSourceIff(t: HostTrace, steps: seq<HostStep>)
    requires HostRun(t, steps)
    ensures OneEach(HostAfter(t, steps).host.slots) <==> NeverAnother(t, steps)
  {
    if steps == [] {
      hide *;
      assert HostRun(t, []);
      StartOneEach(t);
      NeverAnotherStart(t);
    } else {
      hide *;
      var most := steps[..|steps| - 1];
      LastStepOneEachIff(t, steps);
      OneSlotPerSourceIff(t, most);
      NeverAnotherSnoc(t, steps, most);
    }
  }
}
