/** Message queues with gaps: appending, inserting by index, and why the order of delivery
    does not matter. */
module Queues {
  import opened Options

  /** A stored message. A gap is an entry that is not ready. */
  datatype Entry = Entry(ready: bool, time: int, actor: int, data: seq<byte>)

  const GAP := Entry(false, 0, 0, [])

  datatype Inserted = Inserted(status: Status, queue: seq<Entry>)

  function Append(q: seq<Entry>, time: int, actor: int, data: seq<byte>): seq<Entry> {
    q + [Entry(true, time, actor, data)]
  }

  /** Extends a queue with gaps up to a length. */
  function Widen(q: seq<Entry>, length: nat): (r: seq<Entry>)
    ensures |r| == if length > |q| then length else |q|
    ensures forall k :: 0 <= k < |r| ==> r[k] == if k < |q| then q[k] else GAP
  {
    if length > |q| then q + seq(length - |q|, _ => GAP) else q
  }

  /** Stores a message at its index unless that index is already filled. */
  function Insert(q: seq<Entry>, index: int, time: int, actor: int, data: seq<byte>): Inserted {
    if index == UNDEFINED then Inserted(OK, q)
    else if index < 0 then Inserted({InvalidMessageIndex}, q)
    else if index < |q| && q[index].ready then Inserted(OK, q)
    else Inserted(OK, Widen(q, index + 1)[index := Entry(true, time, actor, data)])
  }

  predicate Filled(q: seq<Entry>, k: nat) {
    k < |q| && q[k].ready
  }

  /** The queue grew only at its gaps and its end: filled entries never change. */
  ghost predicate Extends(q: seq<Entry>, r: seq<Entry>) {
    && |q| <= |r|
    && forall k :: 0 <= k < |q| && q[k].ready ==> r[k] == q[k]
  }

  lemma InsertExtends(q: seq<Entry>, index: int, time: int, actor: int, data: seq<byte>)
    ensures var r := Insert(q, index, time, actor, data).queue;
            && Extends(q, r)
            && (index >= 0 ==> index < |r| && r[index].ready)
            && (forall k :: 0 <= k < |r| && k != index ==> r[k] == if k < |q| then q[k] else GAP)
            && |r| == if index >= |q| then index + 1 else |q|
  {
  }

  // ---- Delivery in any order ----

  /** An indexed message on its way to a queue. */
  datatype Delivery = Delivery(index: int, time: int, actor: int, data: seq<byte>)

  function Deliver(q: seq<Entry>, d: Delivery): seq<Entry> {
    Insert(q, d.index, d.time, d.actor, d.data).queue
  }

  function DeliverAll(q: seq<Entry>, ds: seq<Delivery>): seq<Entry> {
    if ds == [] then q else Deliver(DeliverAll(q, ds[..|ds| - 1]), ds[|ds| - 1])
  }

  function Stored(d: Delivery): Entry {
    Entry(true, d.time, d.actor, d.data)
  }

  /** No two messages under the same index differ. */
  ghost predicate Consistent(ds: set<Delivery>) {
    forall a, b :: a in ds && b in ds && a.index == b.index ==> a == b
  }

  /** Entry k after every message of ds was delivered to q: what q had if filled, else the message
      numbered k, else what q had there or a gap. */
  ghost predicate Settled(q: seq<Entry>, ds: set<Delivery>, k: nat, e: Entry) {
    if k < |q| && q[k].ready then e == q[k]
    else if exists d :: d in ds && d.index == k then exists d :: d in ds && d.index == k && e == Stored(d)
    else e == if k < |q| then q[k] else GAP
  }

  function Members(ds: seq<Delivery>): set<Delivery> {
    set d | d in ds
  }

  /** The length a queue needs for ds. */
  ghost predicate Reaches(q: seq<Entry>, ds: set<Delivery>, length: nat) {
    && length >= |q|
    && (forall d :: d in ds ==> d.index < length)
    && (length == |q| || exists d :: d in ds && d.index == length - 1)
  }

  lemma {:induction false} DeliveryOutcome(q: seq<Entry>, ds: seq<Delivery>)
    requires Consistent(Members(ds))
    ensures var r := DeliverAll(q, ds);
            && Reaches(q, Members(ds), |r|)
            && (forall k :: 0 <= k < |r| ==> Settled(q, Members(ds), k, r[k]))
            && Extends(q, r)
  {
    if ds != [] {
      var most, d := ds[..|ds| - 1], ds[|ds| - 1];
      assert Members(ds) == Members(most) + {d};
      DeliveryOutcome(q, most);
      OneMore(q, Members(most), d, DeliverAll(q, most));
    }
  }

  lemma OneMore(q: seq<Entry>, ds: set<Delivery>, d: Delivery, r: seq<Entry>)
    requires Consistent(ds + {d}) && Extends(q, r)
    requires Reaches(q, ds, |r|) && forall k :: 0 <= k < |r| ==> Settled(q, ds, k, r[k])
    ensures var s := Deliver(r, d);
            && Reaches(q, ds + {d}, |s|)
            && (forall k :: 0 <= k < |s| ==> Settled(q, ds + {d}, k, s[k]))
            && Extends(q, s)
  {
    var s := Deliver(r, d);
    InsertExtends(r, d.index, d.time, d.actor, d.data);
    assert d in ds + {d};
    forall k | 0 <= k < |s| ensures Settled(q, ds + {d}, k, s[k]) {
      if k == d.index && !(k < |q| && q[k].ready) {
        if k < |r| && r[k].ready {
          assert Settled(q, ds, k, r[k]);
          var e :| e in ds && e.index == k && r[k] == Stored(e);
          assert e in ds + {d};
        } else {
          assert s[k] == Stored(d);
        }
      } else if k < |r| {
        assert Settled(q, ds, k, r[k]);
        if e :| e in ds && e.index == k {
          assert e in ds + {d};
        }
      } else {
        assert forall e :: e in ds ==> e.index != k;
      }
    }
  }

  /** Delivering the same messages in any order, any of them any number of times, gives the same queue. */
  lemma DeliveryOrderIrrelevant(q: seq<Entry>, ds: seq<Delivery>, es: seq<Delivery>)
    requires Members(ds) == Members(es) && Consistent(Members(ds))
    ensures DeliverAll(q, ds) == DeliverAll(q, es)
  {
    var r, s := DeliverAll(q, ds), DeliverAll(q, es);
    DeliveryOutcome(q, ds);
    DeliveryOutcome(q, es);
    assert |r| == |s|;
    forall k | 0 <= k < |r| ensures r[k] == s[k] {
      assert Settled(q, Members(ds), k, r[k]) && Settled(q, Members(ds), k, s[k]);
    }
  }

  /** Into an empty queue: filled exactly at the delivered indices, one longer than the largest. */
  lemma DeliveredToEmpty(ds: seq<Delivery>)
    requires Consistent(Members(ds))
    ensures var r := DeliverAll([], ds);
            && (forall k :: 0 <= k < |r| ==> (r[k].ready <==> exists d :: d in ds && d.index == k))
            && (forall d :: d in ds && d.index >= 0 ==> d.index < |r| && r[d.index] == Stored(d))
            && (r == [] || exists d :: d in ds && d.index == |r| - 1)
  {
    var r := DeliverAll([], ds);
    DeliveryOutcome([], ds);
    forall k | 0 <= k < |r| ensures r[k].ready <==> exists d :: d in ds && d.index == k {
      assert Settled([], Members(ds), k, r[k]);
      if d :| d in ds && d.index == k {
        assert d in Members(ds);
      }
    }
    forall d | d in ds && d.index >= 0 ensures d.index < |r| && r[d.index] == Stored(d) {
      assert d in Members(ds);
      assert Settled([], Members(ds), d.index, r[d.index]);
    }
  }

  // ---- Ready prefixes ----

  /** The end of the run of filled entries that starts at i. */
  function ReadyEnd(q: seq<Entry>, i: nat): (e: nat)
    ensures i <= e && (i <= |q| ==> e <= |q|) && (i > |q| ==> e == i)
    ensures forall k :: i <= k < e ==> q[k].ready
    ensures e < |q| ==> !q[e].ready
    decreases |q| - i
  {
    if i < |q| && q[i].ready then ReadyEnd(q, i + 1) else i
  }

  /** The payloads of a queue's entries in order. */
  function Payloads(q: seq<Entry>): (r: seq<seq<byte>>)
    ensures |r| == |q|
    ensures forall k :: 0 <= k < |q| ==> r[k] == q[k].data
  {
    seq(|q|, k requires 0 <= k < |q| => q[k].data)
  }

  /** The payloads, in order, of the entries one actor sent. */
  function SentBy(q: seq<Entry>, actor: int): seq<seq<byte>> {
    if q == [] then []
    else
      var most, e := q[..|q| - 1], q[|q| - 1];
      if e.actor == actor then SentBy(most, actor) + [e.data] else SentBy(most, actor)
  }

  lemma {:induction false} SentByConcat(q: seq<Entry>, r: seq<Entry>, actor: int)
    ensures SentBy(q + r, actor) == SentBy(q, actor) + SentBy(r, actor)
  {
    if r == [] {
      assert q + r == q;
    } else {
      var most, e := r[..|r| - 1], r[|r| - 1];
      assert (q + r)[..|q + r| - 1] == q + most;
      SentByConcat(q, most, actor);
    }
  }

  lemma {:induction false} SentByPrefix(q: seq<Entry>, n: nat, actor: int)
    requires n <= |q|
    ensures SentBy(q[..n], actor) <= SentBy(q, actor)
  {
    assert q == q[..n] + q[n..];
    SentByConcat(q[..n], q[n..], actor);
  }

  lemma {:induction false} SentByOne(q: seq<Entry>, actor: int, other: int)
    requires forall k :: 0 <= k < |q| ==> q[k].actor == actor
    ensures SentBy(q, other) == if other == actor then Payloads(q) else []
  {
    if q != [] {
      SentByOne(q[..|q| - 1], actor, other);
      if other == actor {
        assert Payloads(q) == Payloads(q[..|q| - 1]) + [q[|q| - 1].data];
      }
    }
  }
}
