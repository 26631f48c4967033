/** The queue object itself: the dictionaries that `TerminalOutputWriteQueue` updates in place, and its methods. */
module WriteQueueService {
  import opened Common
  import opened WriteQueue
  import opened WriteQueueOrder

  /** A flush between its pop and its return; the first one in line holds the write lock. */
  datatype Drain = Drain(terminal: string, batches: seq<Batch>)

  datatype Row = Row(log: seq<Batch>, number: nat)

  /** History only: no branch of the queue reads it. */
  datatype Past = Past(accepted: seq<Chunk>, dropped: seq<Chunk>, lost: seq<Chunk>, published: map<nat, string>, posted: string)

  function DrainsOf(ds: seq<Drain>, id: string): seq<seq<Batch>> {
    if ds == [] then [] else
    (if ds[0].terminal == id then [ds[0].batches] else []) + DrainsOf(ds[1..], id)
  }

  lemma {:induction false} DrainsAppend(a: seq<Drain>, b: seq<Drain>, id: string)
    ensures DrainsOf(a + b, id) == DrainsOf(a, id) + DrainsOf(b, id)
  {
    if a == [] {
      assert a + b == b;
    } else {
      assert (a + b)[1..] == a[1..] + b;
      DrainsAppend(a[1..], b, id);
    }
  }

  lemma {:induction false} DrainsOne(d: Drain, id: string)
    ensures DrainsOf([d], id) == if d.terminal == id then [d.batches] else []
  {
  }

  lemma {:induction false} DrainsFirst(ds: seq<Drain>)
    requires ds != []
    ensures var id := ds[0].terminal; DrainsOf(ds, id) == [ds[0].batches] + DrainsOf(ds[1..], id)
    ensures forall other :: other != ds[0].terminal ==> DrainsOf(ds, other) == DrainsOf(ds[1..], other)
  {
  }

  lemma {:induction false} DrainsWith(ds: seq<Drain>, d: Drain)
    ensures DrainsOf(ds + [d], d.terminal) == DrainsOf(ds, d.terminal) + [d.batches]
    ensures forall other :: other != d.terminal ==> DrainsOf(ds + [d], other) == DrainsOf(ds, other)
  {
    DrainsAppend(ds, [d], d.terminal);
    DrainsOne(d, d.terminal);
    forall other | other != d.terminal ensures DrainsOf(ds + [d], other) == DrainsOf(ds, other) {
      DrainsAppend(ds, [d], other);
      DrainsOne(d, other);
    }
  }

  lemma {:induction false} DrainsWithout(ds: seq<Drain>, i: nat)
    requires i < |ds|
    ensures forall other :: other != ds[i].terminal ==> DrainsOf(ds[..i] + ds[i+1..], other) == DrainsOf(ds, other)
    ensures var id := ds[i].terminal;
      var k := |DrainsOf(ds[..i], id)|;
      var all := DrainsOf(ds, id);
      k < |all| && all[k] == ds[i].batches && DrainsOf(ds[..i] + ds[i+1..], id) == all[..k] + all[k+1..]
  {
    forall other ensures other != ds[i].terminal ==> DrainsOf(ds[..i] + ds[i+1..], other) == DrainsOf(ds, other) {
      DrainsSplit(ds, i, other);
      DrainsAppend(ds[..i], ds[i+1..], other);
    }
    DrainsSplit(ds, i, ds[i].terminal);
    DrainsAppend(ds[..i], ds[i+1..], ds[i].terminal);
  }

  ghost predicate Reachable(t: Terminal, limit: nat) {
    exists number: nat, ops: seq<Op> :: t == Run(Fresh(number), ops, limit)
  }

  lemma {:induction false} ReachableStart(number: nat, limit: nat)
    ensures Reachable(Fresh(number), limit)
  {
    assert Fresh(number) == Run(Fresh(number), [], limit);
  }

  lemma {:induction false} RunAppend(t: Terminal, ops: seq<Op>, op: Op, limit: nat)
    requires Counted(t)
    ensures Run(t, ops + [op], limit) == Step(Run(t, ops, limit), op, limit)
    decreases |ops|
  {
    if ops == [] {
      assert [] + [op] == [op] && [op][1..] == [];
    } else {
      assert (ops + [op])[1..] == ops[1..] + [op];
      StepCounted(t, ops[0], limit);
      RunAppend(Step(t, ops[0], limit), ops[1..], op, limit);
    }
  }

  lemma {:induction false} ReachableStep(t: Terminal, op: Op, limit: nat)
    requires Reachable(t, limit)
    ensures Counted(t) && Reachable(Step(t, op, limit), limit)
  {
    var number: nat, ops: seq<Op> :| t == Run(Fresh(number), ops, limit);
    RunAppend(Fresh(number), ops, op, limit);
    assert Step(t, op, limit) == Run(Fresh(number), ops + [op], limit);
  }

  lemma {:induction false} ReachableConserved(t: Terminal, limit: nat)
    requires Reachable(t, limit)
    ensures Inv(t)
  {
    var number: nat, ops: seq<Op> :| t == Run(Fresh(number), ops, limit);
    RunConserves(Fresh(number), ops, limit);
  }

  /** Handing back before the drain is over, as `flush_terminal` does, comes to the same. */
  lemma {:induction false} FailedIsHandedBack(t: Terminal, u: Terminal)
    requires Writing(t) && u == HandedBack(t, t.drains[0])
    ensures u.drains == t.drains && u.(drains := t.drains[1..]) == Failed(t)
  {
  }

  class TerminalOutputWriteQueue {
    const maxPendingChars: nat
    var pending: map<string, Pending>
    var seqFloor: map<string, nat>
    var inFlight: nat
    var drains: seq<Drain>
    var rows: map<string, Row>
    var past: map<string, Past>

    ghost function View(id: string): Terminal
      reads this
    {
      var p := History(id);
      var r := if id in rows then rows[id] else Row([], 0);
      Terminal(if id in pending then Some(pending[id]) else None, if id in seqFloor then seqFloor[id] else 0,
               DrainsOf(drains, id), r.log, r.number, p.accepted, p.dropped, p.lost, p.published, p.posted)
    }

    /** The in-flight count is the number of drains, and every terminal is in a state its own steps can reach. */
    ghost predicate Valid()
      reads this
    {
      inFlight == |drains| && forall id :: Reachable(View(id), maxPendingChars)
    }

    constructor (maxPendingChars: nat, rows: map<string, Row>)
      requires forall id :: id in rows ==> rows[id].log == []
      ensures Valid() && this.maxPendingChars == maxPendingChars && this.rows == rows
      ensures forall id :: View(id) == Fresh(if id in rows then rows[id].number else 0)
    {
      this.maxPendingChars := maxPendingChars;
      this.rows := rows;
      pending, seqFloor, inFlight, drains, past := map[], map[], 0, [], map[];
      new;
      forall id ensures Reachable(View(id), maxPendingChars) {
        ReachableStart(if id in rows then rows[id].number else 0, maxPendingChars);
      }
    }

    twostate lemma StillValid(id: string)
      requires old(Valid()) && inFlight == |drains|
      requires Reachable(View(id), maxPendingChars)
      requires forall other :: other != id ==> View(other) == old(View(other))
      ensures Valid()
    {
      forall other ensures Reachable(View(other), maxPendingChars) {
        if other != id { assert Reachable(old(View(other)), maxPendingChars); }
      }
    }

    /** `_bound_pending_locked`: give up oldest chunks until what is left fits. */
    method BoundPending(state: Pending) returns (r: Pending)
      requires |Concat(state.chunks)| == state.chars
      ensures r == WriteQueue.BoundPending(state, maxPendingChars)
    {
      r := state;
      var k := 0;
      while r.chars > maxPendingChars && r.chunks != []
        invariant 0 <= k <= |state.chunks|
        invariant r.chunks == state.chunks[k..]
        invariant r == state.(chunks := r.chunks, chars := |Concat(r.chunks)|, dropped := state.dropped + |Concat(state.chunks[..k])|)
        invariant Excess(state.chunks, state.chars, maxPendingChars) == k + Excess(r.chunks, r.chars, maxPendingChars)
        decreases |r.chunks|
      {
        var removed := r.chunks[0];
        LengthOfAppend(state.chunks[..k], removed);
        assert state.chunks[..k] + [removed] == state.chunks[..k+1];
        assert r.chunks[1..] == state.chunks[k+1..];
        r := r.(chunks := r.chunks[1..], chars := r.chars - |removed.text|, dropped := r.dropped + |removed.text|);
        k := k + 1;
      }
    }

    function History(id: string): Past
      reads this
    {
      if id in past then past[id] else Past([], [], [], map[], "")
    }

    /** What `enqueue` does to one terminal's entries while it holds the lock. */
    method Accept(state0: Pending, floor0: nat, was0: Past, output: string, status: string, baseSeq: int, ghost t: Terminal)
      returns (state: Pending, floor: nat, was: Past)
      requires output != "" || status != ""
      requires Counted(t) && State(t) == state0 && t.floor == floor0
      requires t.accepted == was0.accepted && t.dropped == was0.dropped && t.posted == was0.posted
      ensures was.lost == was0.lost && was.published == was0.published
      ensures state.lastSeq == Claim(t, baseSeq)
      ensures Posted(t, output, status, baseSeq, maxPendingChars) ==
        t.(pending := Some(state), floor := floor, accepted := was.accepted, dropped := was.dropped, posted := was.posted)
    {
      state, floor, was := state0, floor0, was0;
      if state.lastSeq == 0 {
        state := state.(lastSeq := Max(baseSeq, floor) + 1);
        floor := state.lastSeq;
      }
      if output != "" {
        var c := Chunk(|was.accepted|, output);
        LengthOfAppend(state.chunks, c);
        state := WithChunk(state, c);
        was := was.(accepted := was.accepted + [c],
                    dropped := was.dropped + state.chunks[..Excess(state.chunks, state.chars, maxPendingChars)]);
        state := BoundPending(state);
      }
      if status != "" {
        state := state.(status := status);
        was := was.(posted := status);
      }
    }

    method Enqueue(id: string, output: string, status: string, baseSeq: int) returns (number: nat)
      requires Valid()
      modifies this`pending, this`seqFloor, this`past
      ensures Valid()
      ensures id == "" ==> number == 0 && View(id) == old(View(id))
      ensures id != "" ==> number == Number(old(View(id)), output, status, baseSeq)
      ensures id != "" ==> View(id) == Posted(old(View(id)), output, status, baseSeq, maxPendingChars)
      ensures id != "" && status != "" ==> id in pending && pending[id].status == status
      ensures id != "" && status == "" && output != "" ==> id in pending && pending[id].status == if id in old(pending) then old(pending)[id].status else ""
      ensures forall other :: other != id ==> View(other) == old(View(other))
    {
      if id == "" || (output == "" && status == "") {
        return 0;
      }
      ghost var t := View(id);
      ReachableStep(t, Post(output, status, baseSeq), maxPendingChars);
      var state := if id in pending then pending[id] else NewPending();
      var floor := if id in seqFloor then seqFloor[id] else 0;
      var was := History(id);
      state, floor, was := Accept(state, floor, was, output, status, baseSeq, t);
      pending := pending[id := state];
      seqFloor := seqFloor[id := floor];
      past := past[id := was];
      number := state.lastSeq;
      StillValid(id);
    }

    /** `flush_terminal` up to its wait for the write lock: the pop and the count are one critical section. */
    method FlushTerminal(id: string)
      requires Valid()
      modifies this`pending, this`inFlight, this`drains, this`past
      ensures Valid()
      ensures View(id) == Flushed(old(View(id)))
      ensures forall other :: other != id ==> View(other) == old(View(other))
      ensures id !in pending
    {
      if id in pending {
        ReachableStep(View(id), Flush, maxPendingChars);
        var state, was := pending[id], History(id);
        var d := Drain(id, state.retry + [Open(state)]);
        was := was.(published := if state.lastSeq == 0 then was.published else was.published[state.lastSeq := Text(Open(state))]);
        DrainsWith(drains, d);
        drains := drains + [d];
        inFlight := inFlight + 1;
        pending := pending - {id};
        past := past[id := was];
        StillValid(id);
      }
    }

    /** The holder of the write lock returns: its `finally` takes it off the count. */
    method EndDrain()
      requires inFlight == |drains| && drains != []
      modifies this`inFlight, this`drains
      ensures inFlight == |drains| && drains == old(drains)[1..]
      ensures var id := old(drains[0].terminal);
        var t := old(View(id));
        t.drains != [] && t.drains[0] == old(drains[0].batches) && View(id) == t.(drains := t.drains[1..])
      ensures forall other :: other != old(drains[0].terminal) ==> View(other) == old(View(other))
    {
      DrainsFirst(drains);
      drains := drains[1..];
      inFlight := inFlight - 1;
    }

    /** The drain that holds the write lock has written all its batches and returns. */
    method FinishDrain()
      requires Valid() && drains != [] && drains[0].batches == []
      modifies this`inFlight, this`drains
      ensures Valid()
      ensures var id := old(drains[0].terminal); View(id) == Written(old(View(id)))
      ensures forall other :: other != old(drains[0].terminal) ==> View(other) == old(View(other))
    {
      ghost var id := drains[0].terminal;
      ReachableStep(View(id), WriteOk, maxPendingChars);
      EndDrain();
      StillValid(id);
    }

    /** One batch of the drain that holds the write lock: skipped when empty, otherwise written and committed. */
    method CommitBatch()
      requires Valid() && drains != [] && drains[0].batches != []
      modifies this`drains, this`rows
      ensures Valid()
      ensures var id := old(drains[0].terminal); View(id) == Written(old(View(id)))
      ensures forall other :: other != old(drains[0].terminal) ==> View(other) == old(View(other))
    {
      var id, b := drains[0].terminal, drains[0].batches[0];
      ghost var t := View(id);
      ReachableStep(t, WriteOk, maxPendingChars);
      DrainsFirst(drains);
      var rest := [Drain(id, drains[0].batches[1..])] + drains[1..];
      assert rest[1..] == drains[1..];
      DrainsFirst(rest);
      drains := rest;
      if !Void(b) {
        var row := if id in rows then rows[id] else Row([], 0);
        rows := rows[id := Row(row.log + [b], if b.number == 0 then row.number else b.number)];
      }
      assert View(id) == Written(t);
      StillValid(id);
    }

    /** The write fails: the rest of the drain is handed back and the drain returns, in one step. */
    method FailBatch()
      requires Valid() && drains != [] && drains[0].batches != [] && !Void(drains[0].batches[0])
      modifies this`pending, this`inFlight, this`drains, this`past
      ensures Valid()
      ensures var id := old(drains[0].terminal); View(id) == Failed(old(View(id)))
      ensures forall other :: other != old(drains[0].terminal) ==> View(other) == old(View(other))
    {
      var id, batches := drains[0].terminal, drains[0].batches;
      ghost var t := View(id);
      ReachableStep(t, WriteFails, maxPendingChars);
      RequeueFront(id, batches);
      ghost var u := View(id);
      EndDrain();
      FailedIsHandedBack(t, u);
      StillValid(id);
    }

    /** What a failed drain leaves to hand back: the batches that have text, and the last status among them. */
    method HandBack(batches: seq<Batch>) returns (keep: seq<Batch>, status: string)
      ensures keep == Keep(batches) && status == LastStatus(batches)
    {
      keep, status := [], "";
      for i := |batches| downto 0
        invariant keep == Keep(batches[i..]) && status == LastStatus(batches[i..])
      {
        var b := batches[i];
        assert batches[i..][1..] == batches[i+1..];
        if Text(b) != "" {
          keep := [b.(status := "")] + keep;
        }
        if status == "" {
          status := b.status;
        }
      }
      assert batches[0..] == batches;
    }

    method RequeueFront(id: string, batches: seq<Batch>)
      modifies this`pending, this`past
      ensures View(id) == HandedBack(old(View(id)), batches)
      ensures forall other :: other != id ==> View(other) == old(View(other))
    {
      var keep, status := HandBack(batches);
      if keep == [] && status == "" {
        return;
      }
      var state, was := if id in pending then pending[id] else NewPending(), History(id);
      var all := keep + state.retry;
      state := BoundRetry(state.(retry := all));
      state := state.(status := if status != "" then status else state.status);
      was := was.(dropped := was.dropped + Flat(all[..RetryExcess(all)]));
      assert HandedBack(View(id), batches) == View(id).(pending := Some(state), dropped := was.dropped);
      past := past[id := was];
      pending := pending[id := state];
    }

    /** `_bound_retry_locked`: give up the oldest handed-back batches above the limit. */
    method BoundRetry(state: Pending) returns (r: Pending)
      ensures r == WriteQueue.BoundRetry(state)
    {
      r := state;
      var k := 0;
      while |r.retry| > MAX_RETRY_BATCHES
        invariant 0 <= k <= RetryExcess(state.retry)
        invariant r == state.(retry := state.retry[k..], dropped := state.dropped + TextLength(state.retry[..k]))
        decreases |r.retry|
      {
        var gone := r.retry[0];
        LengthWithNext(state.retry, k);
        assert r.retry[1..] == state.retry[k+1..];
        r := r.(retry := r.retry[1..], dropped := r.dropped + |Text(gone)|);
        k := k + 1;
      }
    }

    /** A drain cancelled while it waits for the write lock, which another drain, a settle or a writer outside the queue holds. */
    method CancelWaiting(i: nat)
      requires Valid() && i < |drains|
      modifies this`inFlight, this`drains, this`past
      ensures Valid()
      ensures var id := old(drains[i].terminal); exists k: nat :: k < |old(View(id)).drains| && View(id) == Cancelled(old(View(id)), k)
      ensures forall other :: other != old(drains[i].terminal) ==> View(other) == old(View(other))
    {
      var d := drains[i];
      ghost var t := View(d.terminal);
      ghost var k := |DrainsOf(drains[..i], d.terminal)|;
      ReachableStep(t, Cancel(k), maxPendingChars);
      DrainsWithout(drains, i);
      drains := drains[..i] + drains[i+1..];
      inFlight := inFlight - 1;
      var was := History(d.terminal);
      past := past[d.terminal := was.(lost := was.lost + Flat(d.batches))];
      assert View(d.terminal) == Cancelled(t, k);
      StillValid(d.terminal);
    }

    /**
     One look of `flush_all`. It may only return when it finds nothing pending and nothing in flight, and at that
     instant every accepted chunk of every terminal is in its row, or was dropped by a bound, or was lost with a
     cancelled drain.
     */
    method Drained() returns (done: bool)
      requires Valid()
      ensures done <==> pending == map[] && inFlight == 0
      ensures done ==> forall id ::
        var t := View(id); multiset(Flat(t.log)) + multiset(t.dropped) + multiset(t.lost) == multiset(t.accepted)
    {
      done := |pending| == 0 && inFlight == 0;
      if done {
        forall id ensures var t := View(id); multiset(Flat(t.log)) + multiset(t.dropped) + multiset(t.lost) == multiset(t.accepted) {
          var t := View(id);
          ReachableConserved(t, maxPendingChars);
          AtRest(t);
        }
      }
    }
  }

  lemma {:induction false} LengthWithNext(bs: seq<Batch>, k: nat)
    requires k < |bs|
    ensures TextLength(bs[..k+1]) == TextLength(bs[..k]) + |Text(bs[k])|
  {
    if k > 0 {
      LengthWithNext(bs[1..], k - 1);
      assert bs[..k+1][1..] == bs[1..][..k] && bs[..k][1..] == bs[1..][..k-1];
    } else {
      assert bs[..1][1..] == [];
    }
  }

  lemma {:induction false} DrainsSplit(ds: seq<Drain>, i: nat, id: string)
    requires i < |ds|
    ensures DrainsOf(ds, id) == DrainsOf(ds[..i], id) + (if ds[i].terminal == id then [ds[i].batches] else []) + DrainsOf(ds[i+1..], id)
  {
    DrainsAppend(ds[..i], ds[i..], id);
    assert ds == ds[..i] + ds[i..] && ds[i..][1..] == ds[i+1..];
  }
}
