/**
 The table of requests that wait for a reply (mcp/stdio/hermes-session.js): a reply, a timeout, a failed write and the
 exit of the child each take the request out of the table and settle it.
 */
module PendingReplies {
  import opened Common

  datatype End<R> = Resolved(result: R) | Rejected(why: string)

  datatype Settlement<R> = Settlement(id: nat, end: End<R>)

  /** What happens to the table. */
  datatype Event<R> = Request(writable: bool) | Reply(id: nat, end: End<R>) | Timeout(id: nat) | Exit

  datatype Table<R> = Table(next: nat, pending: set<nat>, settled: seq<Settlement<R>>)

  const TIMED_OUT: string := "timed out"
  const NOT_WRITABLE: string := "child not writable"
  const EXITED: string := "child exited"

  function Settle<R>(t: Table<R>, id: nat, end: End<R>): Table<R> {
    t.(pending := t.pending - {id}, settled := t.settled + [Settlement(id, end)])
  }

  /** The requests in `order`, rejected one after the other. */
  function RejectAll<R>(t: Table<R>, order: seq<nat>): Table<R> {
    if order == [] then t else
    var last := |order| - 1;
    Settle(RejectAll(t, order[..last]), order[last], Rejected(EXITED))
  }

  /** `order` lists what is pending, each once, as the exit handler goes through it. */
  predicate Lists(order: seq<nat>, ids: set<nat>) {
    (forall i :: 0 <= i < |order| ==> order[i] in ids) && (forall id :: id in ids ==> id in order)
    && (forall i, j :: 0 <= i < j < |order| ==> order[i] != order[j])
  }

  /** A reply or a timeout for a request that is not pending does nothing: its timer is cleared, the reply is late. */
  predicate Step<R(==)>(t: Table<R>, e: Event<R>, order: seq<nat>, u: Table<R>) {
    match e
    case Request(writable) =>
      var added := t.(next := t.next + 1, pending := t.pending + {t.next});
      u == if writable then added else Settle(added, t.next, Rejected(NOT_WRITABLE))
    case Reply(id, end) => u == if id in t.pending then Settle(t, id, end) else t
    case Timeout(id) => u == if id in t.pending then Settle(t, id, Rejected(TIMED_OUT)) else t
    case Exit => Lists(order, t.pending) && u == RejectAll(t, order)
  }

  /** Every request ever made is pending or settled, never both, and settled at most once. */
  ghost predicate Inv<R>(t: Table<R>) {
    && (forall id :: id in t.pending ==> id < t.next)
    && (forall i :: 0 <= i < |t.settled| ==> t.settled[i].id < t.next && t.settled[i].id !in t.pending)
    && (forall i, j :: 0 <= i < j < |t.settled| ==> t.settled[i].id != t.settled[j].id)
    && (forall id :: 1 <= id < t.next && id !in t.pending ==> exists i :: 0 <= i < |t.settled| && t.settled[i].id == id)
  }

  lemma {:induction false} SettleKeeps<R>(t: Table<R>, id: nat, end: End<R>)
    requires Inv(t) && id in t.pending
    ensures Inv(Settle(t, id, end))
  {
    var u := Settle(t, id, end);
    assert u.settled[|t.settled|].id == id;
    forall k | 1 <= k < u.next && k !in u.pending ensures exists i :: 0 <= i < |u.settled| && u.settled[i].id == k {
      if k != id {
        var i :| 0 <= i < |t.settled| && t.settled[i].id == k;
        assert u.settled[i].id == k;
      }
    }
  }

  lemma {:induction false} RequestKeeps<R>(t: Table<R>)
    requires Inv(t)
    ensures Inv(t.(next := t.next + 1, pending := t.pending + {t.next}))
  {
  }

  lemma {:induction false} RejectAllKeeps<R>(t: Table<R>, order: seq<nat>)
    requires Inv(t) && (forall i :: 0 <= i < |order| ==> order[i] in t.pending)
    requires forall i, j :: 0 <= i < j < |order| ==> order[i] != order[j]
    ensures Inv(RejectAll(t, order)) && RejectAll(t, order).next == t.next
    ensures forall id :: id in RejectAll(t, order).pending <==> id in t.pending && id !in order
    decreases |order|
  {
    if order != [] {
      var n := |order| - 1;
      RejectAllKeeps(t, order[..n]);
      InitLast(order);
      assert order[n] !in order[..n];
      SettleKeeps(RejectAll(t, order[..n]), order[n], Rejected(EXITED));
    }
  }

  /** Going through the list, the next request is still pending. */
  lemma {:induction false} StillPending<R>(t: Table<R>, order: seq<nat>, i: nat)
    requires Inv(t) && Lists(order, t.pending) && i < |order|
    ensures order[i] in RejectAll(t, order[..i]).pending
    ensures RejectAll(t, order[..i+1]) == Settle(RejectAll(t, order[..i]), order[i], Rejected(EXITED))
  {
    RejectAllKeeps(t, order[..i]);
    assert order[..i+1][..i] == order[..i];
    assert order[i] !in order[..i];
  }

  lemma {:induction false} StepKeeps<R>(t: Table<R>, e: Event<R>, order: seq<nat>, u: Table<R>)
    requires Inv(t) && Step(t, e, order, u)
    ensures Inv(u) && (e == Exit ==> u.pending == {})
  {
    match e {
      case Request(writable) =>
        RequestKeeps(t);
        if !writable {
          SettleKeeps(t.(next := t.next + 1, pending := t.pending + {t.next}), t.next, Rejected(NOT_WRITABLE));
        }
      case Reply(id, end) => if id in t.pending { SettleKeeps(t, id, end); }
      case Timeout(id) => if id in t.pending { SettleKeeps(t, id, Rejected(TIMED_OUT)); }
      case Exit => RejectAllKeeps(t, order);
    }
  }

  ghost predicate IsHistory<R>(tables: seq<Table<R>>, events: seq<Event<R>>, orders: seq<seq<nat>>) {
    && |tables| == |events| + 1 && |orders| == |events|
    && forall i :: 0 <= i < |events| ==> Step(tables[i], events[i], orders[i], tables[i+1])
  }

  /** In every history: no request is settled twice or lost, and right after an exit none is pending. */
  lemma {:induction false} SettledOnce<R>(tables: seq<Table<R>>, events: seq<Event<R>>, orders: seq<seq<nat>>, n: nat)
    requires IsHistory(tables, events, orders) && Inv(tables[0]) && n < |tables|
    ensures Inv(tables[n]) && (n > 0 && events[n-1] == Exit ==> tables[n].pending == {})
  {
    if n > 0 {
      SettledOnce(tables, events, orders, n - 1);
      StepKeeps(tables[n-1], events[n-1], orders[n-1], tables[n]);
    }
  }

  // ---------------------------------------------------------------------------------------------
  // The session's handlers

  class Replies<R(==)> {
    var nextId: nat
    var pending: set<nat>
    var timers: set<nat>
    var settled: seq<Settlement<R>>

    function Now(): Table<R>
      reads this
    {
      Table(nextId, pending, settled)
    }

    /** A timer is armed for exactly the pending requests. */
    ghost predicate Valid()
      reads this
    {
      Inv(Now()) && timers == pending
    }

    constructor ()
      ensures Valid() && pending == {} && settled == []
    {
      nextId, pending, timers, settled := 1, {}, {}, [];
    }

    method SettleOne(id: nat, end: End<R>)
      requires Valid() && id in pending
      modifies this
      ensures Valid() && Now() == Settle(old(Now()), id, end)
    {
      SettleKeeps(Now(), id, end);
      pending, timers := pending - {id}, timers - {id};
      settled := settled + [Settlement(id, end)];
    }

    method Ask(writable: bool) returns (id: nat)
      requires Valid()
      modifies this
      ensures Valid() && id == old(nextId) && Step(old(Now()), Request(writable), [], Now())
    {
      RequestKeeps(Now());
      id := nextId;
      nextId, pending, timers := nextId + 1, pending + {id}, timers + {id};
      if !writable {
        SettleOne(id, Rejected(NOT_WRITABLE));
      }
    }

    method OnReply(id: nat, end: End<R>)
      requires Valid()
      modifies this
      ensures Valid() && Step(old(Now()), Reply(id, end), [], Now())
    {
      if id in pending {
        SettleOne(id, end);
      }
    }

    /** A timer that was cleared does not fire. */
    method OnTimeout(id: nat)
      requires Valid()
      modifies this
      ensures Valid() && Step(old(Now()), Timeout(id), [], Now())
    {
      if id in timers {
        SettleOne(id, Rejected(TIMED_OUT));
      }
    }

    method OnExit(order: seq<nat>)
      requires Valid() && Lists(order, pending)
      modifies this
      ensures Valid() && pending == {} && timers == {} && Step(old(Now()), Exit, order, Now())
    {
      ghost var start := Now();
      RejectAllKeeps(start, order);
      for i := 0 to |order|
        invariant Valid() && Now() == RejectAll(start, order[..i])
      {
        StillPending(start, order, i);
        SettleOne(order[i], Rejected(EXITED));
      }
      assert order[..|order|] == order;
    }
  }
}
