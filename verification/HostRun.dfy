/** Runs of a host fed with arbitrary packets: what every step keeps. */
module HostRuns {
  import opened Options
  import opened Serial
  import opened Packets
  import opened Queues
  import opened Trails
  import opened PeerStates

  /** A host with its history: the payloads it queued itself, and for every slot the time since the
      last packet produced for it. */
  datatype HostTrace = HostTrace(host: PeerState, hosted: seq<seq<byte>>, quiet: seq<int>)

  datatype HostStep =
    | Enqueue(data: seq<byte>)
    | Accept(p: Packet)
    | Elapse(elapsed: int, draws: Draws)

  // ---- Start ----

  predicate FreshSlot(slot: Slot) {
    && slot.state == Empty && slot.remote.id == UNDEFINED && slot.queue == []
    && slot.inIndex == 0 && slot.outIndex == 0 && slot.clock == 0
    && |slot.local.address| <= ADDRESS_SIZE
  }

  /** Just opened, with whatever addresses the application gave the slots. */
  predicate HostStart(t: HostTrace) {
    var h := t.host;
    && h.mode == Host && h.time == 0 && h.timeLocal == 0 && h.actor == 0
    && h.queue == [] && h.queueIndex == 0
    && |h.slots| < TWO_32 - 1
    && (forall i :: 0 <= i < |h.slots| ==> FreshSlot(h.slots[i]))
    && t.hosted == []
    && t.quiet == seq(|h.slots|, _ => 0)
  }

  /** Gives every slot its local address. */
  function Addressed(s: PeerState, addresses: seq<seq<byte>>): PeerState
    requires |addresses| == |s.slots|
  {
    s.(slots := seq(|s.slots|, i requires 0 <= i < |s.slots| =>
         s.slots[i].(local := s.slots[i].local.(address := addresses[i]))))
  }

  lemma OpenedHostStarts(ids: seq<int>, addresses: seq<seq<byte>>)
    requires |ids| == |addresses| < TWO_32 - 1
    requires forall i :: 0 <= i < |addresses| ==> |addresses[i]| <= ADDRESS_SIZE
    ensures var host := OpenOutcome(NewPeer(Host), Ids(ids));
            && host.status == OK && |host.state.slots| == |ids|
            && HostStart(HostTrace(Addressed(host.state, addresses), [], seq(|ids|, _ => 0)))
  {
  }

  // ---- Steps ----

  ghost predicate StepAllowed(t: HostTrace, step: HostStep) {
    match step
    case Enqueue(data) => |data| <= MAX_MESSAGE_SIZE
    case Accept(p) => p.source != UNDEFINED && InputOk(t.host, p)
    case Elapse(elapsed, draws) => TickOk(t.host, elapsed)
  }

  /** The time since the last packet for each slot, after a tick. */
  function Quieted(m: PeerState, quiet: seq<int>, elapsed: int, draws: Draws): (r: seq<int>)
    requires HostSendable(m) && |quiet| == |m.slots|
    ensures |r| == |quiet|
    ensures forall i :: 0 < i < |r| ==> r[i] == if HostSend(m, i, draws).packets != [] then 0 else quiet[i] + elapsed
  {
    seq(|quiet|, i requires 0 <= i < |quiet| =>
      if 0 < i && HostSend(m, i, draws).packets != [] then 0 else quiet[i] + elapsed)
  }

  ghost function HostNext(t: HostTrace, step: HostStep): HostTrace
    requires t.host.mode == Host && |t.quiet| == |t.host.slots| && StepAllowed(t, step)
  {
    match step
    case Enqueue(data) => t.(host := Enqueued(t.host, Some(data)).state, hosted := t.hosted + [data])
    case Accept(p) => t.(host := InputPacket(t.host, p).state)
    case Elapse(elapsed, draws) =>
      var quiet := if TickAccepted(t.host, elapsed)
                   then Quieted(Merged(Advanced(t.host, elapsed)), t.quiet, elapsed, draws) else t.quiet;
      t.(host := Tick(t.host, elapsed, draws).state, quiet := quiet)
  }

  // ---- The invariant ----

  predicate TimesOk(q: seq<Entry>, n: nat, time: int)
    requires n <= |q|
  {
    && (forall k :: 0 <= k < n ==> 0 <= q[k].time <= time)
    && (forall i, j :: 0 <= i <= j < n ==> q[i].time <= q[j].time)
  }

  /** Slot 0 stands for the host itself and is never bound. */
  predicate OwnSlotOk(slot: Slot) {
    FreshSlot(slot)
  }

  predicate StateOk(slot: Slot, i: nat) {
    && (slot.state == Empty <==> slot.remote.id == UNDEFINED)
    && (slot.state == Empty ==> FreshSlot(slot))
    && (slot.state != Empty ==> slot.actor == i && slot.local.address != [])
    && |slot.local.address| <= ADDRESS_SIZE
  }

  /** Filled messages of slot i carry its actor and no time, and everything before the in-index is filled. */
  predicate InboxOk(slot: Slot, i: nat) {
    && QueueFits(slot.queue)
    && slot.inIndex <= |slot.queue|
    && (forall k :: 0 <= k < |slot.queue| && slot.queue[k].ready ==>
      slot.queue[k].actor == i && slot.queue[k].time == 0)
    && (forall k :: 0 <= k < slot.inIndex ==> slot.queue[k].ready)
  }

  /** The mutual queue holds, in order, exactly what was taken from the slot's inbox. */
  predicate TakenOk(slot: Slot, i: nat, log: seq<Entry>) {
    slot.inIndex <= |slot.queue| && SentBy(log, i) == Payloads(slot.queue[..slot.inIndex])
  }

  predicate ClockOk(slot: Slot, quiet: int) {
    if slot.state == Ready then 0 < slot.clock <= TIMEOUT_HEARTBEAT && slot.clock == TIMEOUT_HEARTBEAT - quiet
    else slot.clock == 0
  }

  predicate SlotOk(slot: Slot, i: nat, log: seq<Entry>) {
    StateOk(slot, i) && InboxOk(slot, i) && TakenOk(slot, i, log)
  }

  function SumIn(slots: seq<Slot>): nat {
    if slots == [] then 0 else SumIn(slots[..|slots| - 1]) + slots[|slots| - 1].inIndex
  }

  predicate LogOk(h: PeerState, hosted: seq<seq<byte>>) {
    && QueueFits(h.queue)
    && (forall k :: 0 <= k < |h.queue| ==>
          && h.queue[k].ready && 0 <= h.queue[k].actor
          && (h.queue[k].actor == 0 || h.queue[k].actor < |h.slots|))
    && SentBy(h.queue, 0) == hosted
    && |h.queue| == |hosted| + SumIn(h.slots)
  }

  /** Slots in order, and the log made of what the host queued and what it took from them. */
  predicate BooksOk(h: PeerState, hosted: seq<seq<byte>>) {
    && h.mode == Host && h.actor == 0
    && |h.slots| < TWO_32 - 1
    && LogOk(h, hosted)
    && (|h.slots| > 0 ==> OwnSlotOk(h.slots[0]))
    && (forall i :: 0 < i < |h.slots| ==> SlotOk(h.slots[i], i, h.queue))
  }

  predicate IndicesOk(h: PeerState) {
    && h.queueIndex <= |h.queue|
    && (forall i :: 0 < i < |h.slots| ==> h.slots[i].outIndex <= h.queueIndex)
    && (forall k :: h.queueIndex <= k < |h.queue| ==> h.queue[k].actor == 0 && h.queue[k].time == 0)
  }

  predicate TimeOk(h: PeerState) {
    && h.time == h.timeLocal && 0 <= h.time <= INT64_MAX
    && h.queueIndex <= |h.queue|
    && TimesOk(h.queue, h.queueIndex, h.time)
  }

  predicate ClocksOk(h: PeerState, quiet: seq<int>) {
    && |quiet| == |h.slots|
    && forall i :: 0 < i < |h.slots| ==> ClockOk(h.slots[i], quiet[i])
  }

  predicate HostInv(t: HostTrace) {
    BooksOk(t.host, t.hosted) && IndicesOk(t.host) && TimeOk(t.host) && ClocksOk(t.host, t.quiet)
  }

  lemma {:induction false} NothingTaken(slots: seq<Slot>)
    requires forall i :: 0 <= i < |slots| ==> slots[i].inIndex == 0
    ensures SumIn(slots) == 0
  {
    if slots != [] {
      NothingTaken(slots[..|slots| - 1]);
    }
  }

  lemma StartInv(t: HostTrace)
    requires HostStart(t)
    ensures HostInv(t)
  {
    NothingTaken(t.host.slots);
  }

  // ---- Queueing ----

  lemma SentByAppend(q: seq<Entry>, e: Entry, actor: int)
    ensures SentBy(q + [e], actor) == if e.actor == actor then SentBy(q, actor) + [e.data] else SentBy(q, actor)
  {
    assert (q + [e])[..|q|] == q;
  }

  lemma EnqueueKeeps(t: HostTrace, data: seq<byte>)
    requires HostInv(t) && StepAllowed(t, Enqueue(data))
    ensures HostInv(HostNext(t, Enqueue(data)))
  {
    hide BooksOk, ClocksOk;
    EnqueueKeepsBooks(t.host, t.hosted, data);
    EnqueueKeepsClocks(t, data);
  }

  lemma EnqueueKeepsClocks(t: HostTrace, data: seq<byte>)
    requires ClocksOk(t.host, t.quiet) && BooksOk(t.host, t.hosted)
    ensures ClocksOk(Enqueued(t.host, Some(data)).state, t.quiet)
    ensures Enqueued(t.host, Some(data)).state == t.host.(queue := t.host.queue + [Entry(true, 0, 0, data)])
  {
  }

  lemma EnqueueKeepsBooks(h: PeerState, hosted: seq<seq<byte>>, data: seq<byte>)
    requires BooksOk(h, hosted) && |data| <= MAX_MESSAGE_SIZE
    ensures BooksOk(Enqueued(h, Some(data)).state, hosted + [data])
  {
    var e := Entry(true, 0, 0, data);
    SentByAppend(h.queue, e, 0);
    forall i | 0 < i < |h.slots| ensures SlotOk(h.slots[i], i, h.queue + [e]) {
      SentByAppend(h.queue, e, i);
    }
  }

  // ---- Receiving ----

  lemma HostReceiveKeeps(slot: Slot, i: nat, log: seq<Entry>, m: Message)
    requires SlotOk(slot, i, log) && slot.state != Empty && |m.data| <= MAX_MESSAGE_SIZE
    ensures var r := HostReceive(slot, m).slot;
            SlotOk(r, i, log) && r == slot.(queue := r.queue) && Extends(slot.queue, r.queue)
  {
    var r := HostReceive(slot, m).slot;
    InsertExtends(slot.queue, m.index, m.time, Actor32(m), m.data);
    assert Payloads(r.queue[..slot.inIndex]) == Payloads(slot.queue[..slot.inIndex]);
  }

  predicate SmallChunks(chunks: seq<Chunk>) {
    forall i :: 0 <= i < |chunks| ==> |chunks[i]| <= PAYLOAD_SIZE
  }

  lemma {:induction false} ParsedChunksSmall(data: Frame, size: int, offset: nat)
    requires N_PACKET_MESSAGES <= offset <= PACKET_SIZE && size <= PACKET_SIZE
    ensures SmallChunks(ParseFrom(data, size, offset).chunks)
    decreases PACKET_SIZE - offset
  {
    if offset + N_MESSAGE_DATA <= size {
      var n := ReadMessageSize(data[offset..]);
      if n != 0 && offset + n <= PACKET_SIZE {
        ParsedChunksSmall(data, size, offset + n);
      }
    }
  }

  lemma PacketChunksSmall(p: Packet)
    ensures SmallChunks(PacketChunks(p))
  {
    if N_PACKET_MESSAGES <= p.size <= PACKET_SIZE {
      ParsedChunksSmall(p.data, p.size, N_PACKET_MESSAGES);
    }
  }

  lemma {:induction false} HostReceiveAllKeeps(s: PeerState, j: nat, log: seq<Entry>, chunks: seq<Chunk>)
    requires s.mode == Host && j < |s.slots| && Headed(chunks) && SmallChunks(chunks)
    requires SlotOk(s.slots[j], j, log) && s.slots[j].state != Empty
    ensures var r := ReceiveAll(s, j, chunks).state; var slot := s.slots[j].(queue := r.slots[j].queue);
            && r == s.(slots := s.slots[j := slot])
            && SlotOk(slot, j, log) && Extends(s.slots[j].queue, slot.queue)
  {
    if chunks == [] {
      assert s.slots[j := s.slots[j]] == s.slots;
    } else {
      var most, c := chunks[..|chunks| - 1], chunks[|chunks| - 1];
      HostReceiveAllKeeps(s, j, log, most);
      var mid := ReceiveAll(s, j, most).state;
      HostReceiveKeeps(mid.slots[j], j, log, ReadMessage(c));
    }
  }

  lemma {:induction false} SumInUpdate(slots: seq<Slot>, i: nat, slot: Slot)
    requires i < |slots|
    ensures SumIn(slots[i := slot]) == SumIn(slots) - slots[i].inIndex + slot.inIndex
  {
    var n := |slots| - 1;
    if i == n {
      assert slots[i := slot][..n] == slots[..n];
    } else {
      SumInUpdate(slots[..n], i, slot);
      assert slots[i := slot][..n] == slots[..n][i := slot];
    }
  }

  lemma SlotChangeKeeps(t: HostTrace, j: nat, slot: Slot)
    requires HostInv(t) && 0 < j < |t.host.slots|
    requires SlotOk(slot, j, t.host.queue) && ClockOk(slot, t.quiet[j])
    requires slot.inIndex == t.host.slots[j].inIndex && slot.outIndex == t.host.slots[j].outIndex
    ensures HostInv(t.(host := t.host.(slots := t.host.slots[j := slot])))
  {
    SlotChangeKeepsBooks(t.host, t.hosted, j, slot);
    SlotChangeKeepsIndices(t.host, j, slot);
    hide BooksOk, IndicesOk, SlotOk, ClockOk, TimesOk;
  }

  lemma SlotChangeKeepsBooks(h: PeerState, hosted: seq<seq<byte>>, j: nat, slot: Slot)
    requires BooksOk(h, hosted) && 0 < j < |h.slots|
    requires SlotOk(slot, j, h.queue) && slot.inIndex == h.slots[j].inIndex
    ensures BooksOk(h.(slots := h.slots[j := slot]), hosted)
  {
    SumInUpdate(h.slots, j, slot);
    hide SlotOk, OwnSlotOk, SumIn, SentBy;
  }

  lemma SlotChangeKeepsIndices(h: PeerState, j: nat, slot: Slot)
    requires IndicesOk(h) && 0 < j < |h.slots| && slot.outIndex == h.slots[j].outIndex
    ensures IndicesOk(h.(slots := h.slots[j := slot]))
  {
  }

  lemma AssignedOk(slot: Slot, j: nat, p: Packet, log: seq<Entry>)
    requires SlotOk(slot, j, log) && Assignable(slot) && p.source != UNDEFINED
    ensures SlotOk(Assigned(slot, j, p), j, log)
  {
  }

  lemma AcceptKeeps(t: HostTrace, p: Packet)
    requires HostInv(t) && StepAllowed(t, Accept(p))
    ensures HostInv(HostNext(t, Accept(p)))
  {
    var h := t.host;
    if HasLocal(h.slots, p.destination) {
      match FindMatch(h.slots, p, 0)
      case Some(j) =>
        PacketChunksSmall(p);
        HostReceiveAllKeeps(h, j, h.queue, PacketChunks(p));
        SlotChangeKeeps(t, j, ReceiveAll(h, j, PacketChunks(p)).state.slots[j]);
      case None =>
        match FindFree(h.slots, 1)
        case Some(j) =>
          AssignedOk(h.slots[j], j, p, h.queue);
          SlotChangeKeeps(t, j, Assigned(h.slots[j], j, p));
        case None =>
    }
  }

  // ---- Ticking: the clock ----

  /** Between the ageing of the clocks and the sending, every clock is what the time since the last packet makes it. */
  predicate ClockAged(slot: Slot, quiet: int) {
    if slot.state == Ready then slot.clock == TIMEOUT_HEARTBEAT - quiet <= TIMEOUT_HEARTBEAT else slot.clock == 0
  }

  lemma AgedOk(slot: Slot, i: nat, log: seq<Entry>, quiet: int, elapsed: nat)
    requires SlotOk(slot, i, log) && ClockOk(slot, quiet)
    ensures var a := Aged(slot, elapsed);
            && SlotOk(a, i, log) && ClockAged(a, quiet + elapsed)
            && a == slot.(clock := a.clock)
  {
  }

  lemma {:induction false} SumInSame(a: seq<Slot>, b: seq<Slot>)
    requires |a| == |b| && forall i :: 0 <= i < |a| ==> a[i].inIndex == b[i].inIndex
    ensures SumIn(a) == SumIn(b)
  {
    if a != [] {
      SumInSame(a[..|a| - 1], b[..|b| - 1]);
    }
  }

  lemma AdvancedOk(t: HostTrace, elapsed: nat)
    requires HostInv(t) && TickAccepted(t.host, elapsed)
    ensures var a := Advanced(t.host, elapsed);
            && BooksOk(a, t.hosted) && IndicesOk(a)
            && a.time <= a.timeLocal <= INT64_MAX && TimesOk(a.queue, a.queueIndex, a.time) && 0 <= a.time
            && (forall i :: 0 < i < |a.slots| ==> ClockAged(a.slots[i], t.quiet[i] + elapsed))
  {
    var h, a := t.host, Advanced(t.host, elapsed);
    SumInSame(h.slots, a.slots);
    forall i | 0 < i < |a.slots|
      ensures SlotOk(a.slots[i], i, a.queue) && ClockAged(a.slots[i], t.quiet[i] + elapsed) &&
          a.slots[i].outIndex == h.slots[i].outIndex
    {
      AgedOk(h.slots[i], i, h.queue, t.quiet[i], elapsed);
    }
  }

  // ---- Ticking: stamping and merging ----

  lemma {:induction false} SentByStamp(q: seq<Entry>, r: seq<Entry>, actor: int)
    requires |q| == |r| && forall k :: 0 <= k < |q| ==> r[k].actor == q[k].actor && r[k].data == q[k].data
    ensures SentBy(q, actor) == SentBy(r, actor)
  {
    if q != [] {
      SentByStamp(q[..|q| - 1], r[..|r| - 1], actor);
    }
  }

  /** The host in the middle of a tick: the whole log is stamped. */
  predicate Stocked(h: PeerState, hosted: seq<seq<byte>>) {
    && BooksOk(h, hosted)
    && h.time == h.timeLocal && 0 <= h.time <= INT64_MAX
    && TimesOk(h.queue, |h.queue|, h.time)
  }

  lemma StampedOk(a: PeerState, hosted: seq<seq<byte>>)
    requires BooksOk(a, hosted) && IndicesOk(a)
    requires 0 <= a.time <= a.timeLocal <= INT64_MAX && TimesOk(a.queue, a.queueIndex, a.time)
    ensures Stocked(Stamped(a), hosted)
  {
    var q := Stamp(a.queue, a.queueIndex, a.timeLocal);
    SentByStamp(a.queue, q, 0);
    forall i | 0 < i < |a.slots| ensures SlotOk(a.slots[i], i, q) {
      SentByStamp(a.queue, q, i);
    }
  }

  lemma PayloadsSplit(q: seq<Entry>, a: nat, b: nat, time: int, actor: int)
    requires a <= b <= |q|
    ensures Payloads(q[..b]) == Payloads(q[..a]) + Payloads(Taken(q, a, b, time, actor))
  {
  }

  lemma MergedSlotOk(slot: Slot, i: nat, log: seq<Entry>, time: int)
    requires SlotOk(slot, i, log)
    ensures var end := ReadyEnd(slot.queue, slot.inIndex);
            SlotOk(slot.(inIndex := end), i, log + Taken(slot.queue, slot.inIndex, end, time, slot.actor))
  {
    var end := ReadyEnd(slot.queue, slot.inIndex);
    var taken := Taken(slot.queue, slot.inIndex, end, time, slot.actor);
    if slot.state == Empty {
      assert taken == [] && log + taken == log;
    } else {
      SentByConcat(log, taken, i);
      SentByOne(taken, i, i);
      PayloadsSplit(slot.queue, slot.inIndex, end, time, i);
    }
  }

  lemma OtherSlotOk(slot: Slot, i: nat, log: seq<Entry>, taken: seq<Entry>, actor: int)
    requires SlotOk(slot, i, log) && actor != i && forall k :: 0 <= k < |taken| ==> taken[k].actor == actor
    ensures SlotOk(slot, i, log + taken)
  {
    SentByConcat(log, taken, i);
    SentByOne(taken, actor, i);
  }

  lemma MergeSlotOk(h: PeerState, hosted: seq<seq<byte>>, i: nat)
    requires BooksOk(h, hosted) && 0 < i < |h.slots|
    ensures BooksOk(MergeSlot(h, i), hosted)
  {
    MergeSlotLog(h, hosted, i);
    hide LogOk, SlotOk, OwnSlotOk;
    forall j | 0 < j < |h.slots| ensures SlotOk(MergeSlot(h, i).slots[j], j, MergeSlot(h, i).queue) {
      MergeSlotOther(h, hosted, i, j);
    }
  }

  lemma MergeSlotOther(h: PeerState, hosted: seq<seq<byte>>, i: nat, j: nat)
    requires BooksOk(h, hosted) && 0 < i < |h.slots| && 0 < j < |h.slots|
    ensures SlotOk(MergeSlot(h, i).slots[j], j, MergeSlot(h, i).queue)
  {
    hide LogOk, OwnSlotOk, InboxOk, TakenOk;
    var slot := h.slots[i];
    var end := ReadyEnd(slot.queue, slot.inIndex);
    var taken := Taken(slot.queue, slot.inIndex, end, h.time, slot.actor);
    assert SlotOk(slot, i, h.queue) && SlotOk(h.slots[j], j, h.queue);
    if i == j {
      MergedSlotOk(slot, i, h.queue, h.time);
    } else if slot.state == Empty {
      assert taken == [] && h.queue + taken == h.queue;
    } else {
      OtherSlotOk(h.slots[j], j, h.queue, taken, i);
    }
  }

  lemma MergeSlotLog(h: PeerState, hosted: seq<seq<byte>>, i: nat)
    requires BooksOk(h, hosted) && 0 < i < |h.slots|
    ensures LogOk(MergeSlot(h, i), hosted)
  {
    var slot := h.slots[i];
    var end := ReadyEnd(slot.queue, slot.inIndex);
    var taken := Taken(slot.queue, slot.inIndex, end, h.time, slot.actor);
    assert SlotOk(slot, i, h.queue);
    TakenEntries(slot, i, h.queue, h.time);
    SumInUpdate(h.slots, i, slot.(inIndex := end));
    SentByOne(taken, i, 0);
    hide SlotOk, LogOk, Taken, ReadyEnd, SumIn, SentBy;
    LogGains(h, hosted, taken, i, h.slots[i := slot.(inIndex := end)]);
  }

  lemma LogGains(h: PeerState, hosted: seq<seq<byte>>, taken: seq<Entry>, i: nat, slots: seq<Slot>)
    requires LogOk(h, hosted) && 0 < i < |h.slots| == |slots|
    requires forall k :: 0 <= k < |taken| ==>
               taken[k].ready && taken[k].actor == i && |taken[k].data| <= MAX_MESSAGE_SIZE
    requires SentBy(taken, 0) == [] && SumIn(slots) == SumIn(h.slots) + |taken|
    ensures LogOk(h.(queue := h.queue + taken, slots := slots), hosted)
  {
    SentByConcat(h.queue, taken, 0);
    hide SumIn, SentBy;
  }

  lemma TakenEntries(slot: Slot, i: nat, log: seq<Entry>, time: int)
    requires SlotOk(slot, i, log)
    ensures slot.inIndex <= |slot.queue|
    ensures var taken := Taken(slot.queue, slot.inIndex, ReadyEnd(slot.queue, slot.inIndex), time, slot.actor);
            forall k :: 0 <= k < |taken| ==>
                taken[k].ready && taken[k].actor == i && |taken[k].data| <= MAX_MESSAGE_SIZE
  {
    hide SentBy;
  }

  /** Slots before n are drained as far as they are filled; the rest and all else but the log are as before. */
  predicate MergedUpTo(s: PeerState, r: PeerState, n: nat) {
    && |r.slots| == |s.slots|
    && r == s.(queue := r.queue, slots := r.slots)
    && s.queue <= r.queue
    && (forall k :: |s.queue| <= k < |r.queue| ==> r.queue[k].time == s.time)
    && (forall i :: 0 <= i < |s.slots| ==>
          r.slots[i] == if 0 < i < n
                        then s.slots[i].(inIndex := ReadyEnd(s.slots[i].queue, s.slots[i].inIndex))
                        else s.slots[i])
  }

  lemma MergedOneMore(s: PeerState, mid: PeerState, n: nat)
    requires 1 < n <= |s.slots| && MergedUpTo(s, mid, n - 1)
    ensures MergedUpTo(s, MergeSlot(mid, n - 1), n)
  {
  }

  lemma MergeKeepsTimes(s: PeerState, i: nat)
    requires i < |s.slots| && 0 <= s.time && TimesOk(s.queue, |s.queue|, s.time)
    ensures TimesOk(MergeSlot(s, i).queue, |MergeSlot(s, i).queue|, s.time)
  {
  }

  lemma {:induction false} MergeToOk(s: PeerState, hosted: seq<seq<byte>>, n: nat)
    requires Stocked(s, hosted) && n <= |s.slots|
    ensures Stocked(MergeTo(s, n), hosted) && MergedUpTo(s, MergeTo(s, n), n)
  {
    if n > 1 {
      hide BooksOk, TimesOk, MergedUpTo;
      var mid := MergeTo(s, n - 1);
      MergeToOk(s, hosted, n - 1);
      MergeSlotOk(mid, hosted, n - 1);
      MergeKeepsTimes(mid, n - 1);
      MergedOneMore(s, mid, n);
    }
  }

  /** The host ready to send: everything merged and processed. */
  lemma MergedOk(t: HostTrace, elapsed: nat)
    requires HostInv(t) && TickAccepted(t.host, elapsed)
    ensures var a := Advanced(t.host, elapsed); var m := Merged(a);
            && Stocked(m, t.hosted) && HostSendable(m)
            && MergedUpTo(Stamped(a), MergeTo(Stamped(a), |a.slots|), |a.slots|)
            && m == MergeTo(Stamped(a), |a.slots|).(queueIndex := |m.queue|)
            && (forall i :: 0 < i < |m.slots| ==>
                  && m.slots[i].outIndex == t.host.slots[i].outIndex <= |m.queue|
                  && m.slots[i].state == t.host.slots[i].state
                  && ClockAged(m.slots[i], t.quiet[i] + elapsed))
  {
    hide HostInv, Stocked, BooksOk;
    var a := Advanced(t.host, elapsed);
    AdvancedOk(t, elapsed);
    StampedOk(a, t.hosted);
    MergeToOk(Stamped(a), t.hosted, |a.slots|);
    MergedDetails(t, elapsed);
  }

  lemma MergedDetails(t: HostTrace, elapsed: nat)
    requires HostInv(t)
    requires var a := Advanced(t.host, elapsed);
             && (forall i :: 0 < i < |a.slots| ==> ClockAged(a.slots[i], t.quiet[i] + elapsed))
             && MergedUpTo(Stamped(a), MergeTo(Stamped(a), |a.slots|), |a.slots|)
             && Stocked(MergeTo(Stamped(a), |a.slots|), t.hosted)
    ensures var a := Advanced(t.host, elapsed); var m := Merged(a);
            && Stocked(m, t.hosted) && HostSendable(m)
            && (forall i :: 0 < i < |m.slots| ==>
                  && m.slots[i].outIndex == t.host.slots[i].outIndex <= |m.queue|
                  && m.slots[i].state == t.host.slots[i].state
                  && ClockAged(m.slots[i], t.quiet[i] + elapsed))
  {
    var a := Advanced(t.host, elapsed);
    var r, m := MergeTo(Stamped(a), |a.slots|), Merged(a);
    assert |m.queue| >= |a.queue|;
    forall i | 0 < i < |m.slots|
      ensures m.slots[i].outIndex == t.host.slots[i].outIndex <= |m.queue|
      ensures m.slots[i].state == t.host.slots[i].state
      ensures ClockAged(m.slots[i], t.quiet[i] + elapsed)
      ensures SlotSendable(m.queue, m.slots[i])
    {
      assert SlotOk(r.slots[i], i, r.queue);
    }
  }

  // ---- Ticking: sending ----

  lemma QueuePacketsSome(q: seq<Entry>, index: nat, source: int, destination: int, draws: Draws, slot: nat)
    requires QueueFits(q) && index < |q|
    ensures QueuePackets(q, index, source, destination, draws, slot) != []
  {
    SendIndicesInRange(q, index, draws, slot);
    ChunksFramed(q, SendIndices(|q|, index, draws, slot));
    PackedPacketsShape(source, destination, QueueChunks(q, index, draws, slot));
  }

  lemma HeartbeatPacketsSome(local: int, remote: int, q: seq<Entry>, index: nat, time: int, actor: int, draws: Draws,
      slot: nat)
    requires QueueFits(q) && index <= |q|
    ensures HeartbeatPackets(local, remote, q, index, time, actor, draws, slot) != []
  {
    HeartbeatChunksFramed(q, index, time, actor, draws, slot);
    PackedPacketsShape(local, remote, HeartbeatChunks(q, index, time, actor, draws, slot));
  }

  lemma ResponsePacketsSome(source: int, time: int, slot: Slot)
    requires |slot.local.address| <= ADDRESS_SIZE
    ensures ResponsePackets(source, time, slot) != []
  {
    EncodeFramed(SessionResponse(time, slot));
    PackedPacketsShape(source, slot.remote.id, [Encode(SessionResponse(time, slot))]);
  }

  /** When slot i is sent to, and what that does to it. */
  lemma HostSendShape(m: PeerState, i: nat, draws: Draws)
    requires 0 < i < |m.slots| && SlotSendable(m.queue, m.slots[i])
    ensures var slot, sent := m.slots[i], HostSend(m, i, draws);
            && (sent.packets != [] <==>
                  || slot.state == SessionRequest
                  || (slot.state == Ready && (slot.outIndex < |m.queue| || slot.clock <= 0)))
            && (sent.packets == [] ==> sent.slot == slot)
            && (sent.packets != [] ==>
                  && sent.slot == slot.(clock := TIMEOUT_HEARTBEAT, state := Ready, outIndex := sent.slot.outIndex)
                  && sent.slot.outIndex == if slot.state == Ready then |m.queue| else slot.outIndex)
  {
    hide PackedPackets, QueuePackets, HeartbeatPackets, ResponsePackets;
    var slot := m.slots[i];
    match slot.state
    case Empty =>
    case SessionRequest => ResponsePacketsSome(m.slots[0].local.id, m.time, slot);
    case Ready =>
      if slot.outIndex < |m.queue| {
        QueuePacketsSome(m.queue, slot.outIndex, slot.local.id, slot.remote.id, draws, i);
      } else {
        HeartbeatPacketsSome(slot.local.id, slot.remote.id, m.queue, slot.outIndex, m.time, m.actor, draws, i);
      }
  }

  lemma SentSlotOk(m: PeerState, i: nat, draws: Draws, quiet: int, elapsed: nat)
    requires 0 < i < |m.slots| && SlotSendable(m.queue, m.slots[i])
    requires SlotOk(m.slots[i], i, m.queue) && ClockAged(m.slots[i], quiet + elapsed)
    ensures var sent := HostSend(m, i, draws);
            && SlotOk(sent.slot, i, m.queue)
            && ClockOk(sent.slot, if sent.packets != [] then 0 else quiet + elapsed)
            && sent.slot.outIndex <= |m.queue|
            && sent.slot.inIndex == m.slots[i].inIndex
  {
    hide HostSend;
    HostSendShape(m, i, draws);
  }

  lemma SentSlotsOk(m: PeerState, quiet: seq<int>, elapsed: nat, draws: Draws)
    requires HostSendable(m) && |quiet| == |m.slots|
    requires forall i :: 0 < i < |m.slots| ==>
        SlotOk(m.slots[i], i, m.queue) && ClockAged(m.slots[i], quiet[i] + elapsed)
    ensures var slots := SentSlots(m, |m.slots|, draws); var r := Quieted(m, quiet, elapsed, draws);
            forall i :: 0 < i < |slots| ==>
              && SlotOk(slots[i], i, m.queue) && ClockOk(slots[i], r[i])
              && slots[i].outIndex <= |m.queue| && slots[i].inIndex == m.slots[i].inIndex
  {
    hide HostSend, SlotOk, ClockOk, ClockAged;
    forall i | 0 < i < |m.slots|
      ensures var sent := HostSend(m, i, draws);
              && SlotOk(sent.slot, i, m.queue) && sent.slot.outIndex <= |m.queue|
              && sent.slot.inIndex == m.slots[i].inIndex
              && ClockOk(sent.slot, if sent.packets != [] then 0 else quiet[i] + elapsed)
    {
      SentSlotOk(m, i, draws, quiet[i], elapsed);
    }
  }

  lemma SendKeeps(m: PeerState, t: HostTrace, elapsed: nat, draws: Draws)
    requires Stocked(m, t.hosted) && HostSendable(m) && m.queueIndex == |m.queue| && |t.quiet| == |m.slots|
    requires forall i :: 0 < i < |m.slots| ==> ClockAged(m.slots[i], t.quiet[i] + elapsed)
    ensures var h := m.(slots := SentSlots(m, |m.slots|, draws));
            HostInv(HostTrace(h, t.hosted, Quieted(m, t.quiet, elapsed, draws)))
  {
    hide HostSend, SlotOk, ClockOk, ClockAged;
    var h := m.(slots := SentSlots(m, |m.slots|, draws));
    SentSlotsOk(m, t.quiet, elapsed, draws);
    SumInSame(m.slots, h.slots);
  }

  /** A host that keeps its books can always tick: no trail ever reaches outside a queue. */
  lemma TickNeverBlocked(t: HostTrace, elapsed: int, draws: Draws)
    requires HostInv(t)
    ensures StepAllowed(t, Elapse(elapsed, draws))
  {
    if TickAccepted(t.host, elapsed) {
      MergedOk(t, elapsed);
    }
  }

  lemma ElapseKeeps(t: HostTrace, elapsed: int, draws: Draws)
    requires HostInv(t) && StepAllowed(t, Elapse(elapsed, draws))
    ensures HostInv(HostNext(t, Elapse(elapsed, draws)))
  {
    if TickAccepted(t.host, elapsed) {
      hide HostInv, Stocked, SentSlots, Merged, Quieted;
      MergedOk(t, elapsed);
      TickedState(t, elapsed, draws);
      SendKeeps(Merged(Advanced(t.host, elapsed)), t, elapsed, draws);
    }
  }

  lemma TickedState(t: HostTrace, elapsed: nat, draws: Draws)
    requires HostInv(t) && TickAccepted(t.host, elapsed) && HostSendable(Merged(Advanced(t.host, elapsed)))
    ensures var m := Merged(Advanced(t.host, elapsed));
            && |t.quiet| == |m.slots| == |t.host.slots| && m.queueIndex == |m.queue| && t.host.mode == Host
            && Tick(t.host, elapsed, draws) == Ticked(OK, m.(slots := SentSlots(m, |m.slots|, draws)),
              SentPackets(m, |m.slots|, draws))
  {
  }

  // ---- Every run ----

  ghost predicate HostRun(t: HostTrace, steps: seq<HostStep>)
    decreases |steps|, 0
  {
    && HostStart(t)
    && (steps == [] ||
         (HostRun(t, steps[..|steps| - 1]) && StepAllowed(HostAfter(t, steps[..|steps| - 1]), steps[|steps| - 1])))
  }

  /** The host after a run of steps. */
  ghost function HostAfter(t: HostTrace, steps: seq<HostStep>): (r: HostTrace)
    requires HostRun(t, steps)
    ensures HostInv(r)
    decreases |steps|, 1
  {
    if steps == [] then
      StartInv(t);
      t
    else
      var most, step := HostAfter(t, steps[..|steps| - 1]), steps[|steps| - 1];
      StepKeeps(most, step);
      HostNext(most, step)
  }

  /** Every step of a host, whatever packets reach it, keeps the invariant. */
  lemma StepKeeps(t: HostTrace, step: HostStep)
    requires HostInv(t) && StepAllowed(t, step)
    ensures HostInv(HostNext(t, step))
  {
    match step
    case Enqueue(data) => EnqueueKeeps(t, data);
    case Accept(p) => AcceptKeeps(t, p);
    case Elapse(elapsed, draws) => ElapseKeeps(t, elapsed, draws);
  }
}
