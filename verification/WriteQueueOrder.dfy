/** What every run of the write queue keeps: conservation, order, and the meaning of a published number. */
module WriteQueueOrder {
  import opened Common
  import opened WriteQueue

  // ---------------------------------------------------------------------------------------------
  // Conservation: every accepted chunk is in exactly one place, exactly once

  ghost predicate Numbered(t: Terminal) {
    forall i :: 0 <= i < |t.accepted| ==> t.accepted[i].id == i && t.accepted[i].text != ""
  }

  ghost predicate Conserved(t: Terminal) {
    multiset(Live(t)) + multiset(t.dropped) + multiset(t.lost) == multiset(t.accepted)
  }

  ghost predicate Inv(t: Terminal) {
    Counted(t) && Numbered(t) && Conserved(t)
  }

  lemma {:induction false} FlatAppend(a: seq<Batch>, b: seq<Batch>)
    ensures Flat(a + b) == Flat(a) + Flat(b)
  {
    if a == [] {
      assert a + b == b;
    } else {
      assert (a + b)[1..] == a[1..] + b;
      FlatAppend(a[1..], b);
    }
  }

  lemma {:induction false} FlatDrainsAppend(a: seq<seq<Batch>>, b: seq<seq<Batch>>)
    ensures FlatDrains(a + b) == FlatDrains(a) + FlatDrains(b)
  {
    if a == [] {
      assert a + b == b;
    } else {
      assert (a + b)[1..] == a[1..] + b;
      FlatDrainsAppend(a[1..], b);
    }
  }

  lemma {:induction false} FlatOne(b: Batch)
    ensures Flat([b]) == b.chunks
  {
  }

  lemma {:induction false} FlatDrainsOne(d: seq<Batch>)
    ensures FlatDrains([d]) == Flat(d)
  {
  }

  predicate Solid(cs: seq<Chunk>) {
    forall i :: 0 <= i < |cs| ==> cs[i].text != ""
  }

  lemma {:induction false} NoText(cs: seq<Chunk>)
    requires Solid(cs) && Concat(cs) == ""
    ensures cs == []
  {
  }

  lemma {:induction false} SolidParts(a: seq<Chunk>, b: seq<Chunk>)
    requires Solid(a + b)
    ensures Solid(a) && Solid(b)
  {
    assert forall i :: 0 <= i < |a| ==> (a + b)[i] == a[i];
    assert forall i :: 0 <= i < |b| ==> (a + b)[|a| + i] == b[i];
  }

  /** Handing back drops no chunk: a batch with no text has none. */
  lemma {:induction false} FlatKeep(bs: seq<Batch>)
    requires Solid(Flat(bs))
    ensures Flat(Keep(bs)) == Flat(bs)
  {
    if bs != [] {
      SolidParts(bs[0].chunks, Flat(bs[1..]));
      FlatKeep(bs[1..]);
      if Text(bs[0]) == "" {
        NoText(bs[0].chunks);
        assert Keep(bs) == Keep(bs[1..]);
      } else {
        FlatAppend([bs[0].(status := "")], Keep(bs[1..]));
        FlatOne(bs[0].(status := ""));
      }
    }
  }

  lemma {:induction false} LiveIsAccepted(t: Terminal, c: Chunk)
    requires Inv(t) && c in Live(t)
    ensures c in t.accepted && c.text != "" && c.id < |t.accepted|
  {
    assert c in multiset(Live(t));
    assert c in multiset(t.accepted);
  }

  lemma {:induction false} LiveOfFailing(t: Terminal)
    requires Inv(t) && t.drains != []
    ensures Solid(Flat(t.drains[0]))
    ensures Flat(Keep(t.drains[0])) == Flat(t.drains[0])
  {
    var cs := Flat(t.drains[0]);
    forall i | 0 <= i < |cs| ensures cs[i].text != "" {
      assert Live(t)[|Flat(t.log)| + i] == cs[i];
      LiveIsAccepted(t, cs[i]);
    }
    FlatKeep(t.drains[0]);
  }

  // How each step moves the chunks between the places.

  lemma {:induction false} LivePosted(t: Terminal, text: string, status: string, base: int, limit: nat)
    requires Counted(t) && text != ""
    ensures var c := Chunk(|t.accepted|, text);
      var cs := State(t).chunks + [c];
      var k := Excess(cs, State(t).chars + |text|, limit);
      var u := Posted(t, text, status, base, limit);
      && u.dropped == t.dropped + cs[..k]
      && u.accepted == t.accepted + [c]
      && Live(u) == Flat(t.log) + FlatDrains(t.drains) + Flat(State(t).retry) + cs[k..]
      && Live(t) + [c] == Flat(t.log) + FlatDrains(t.drains) + Flat(State(t).retry) + cs
  {
  }

  lemma {:induction false} LiveFlushed(t: Terminal)
    ensures Live(Flushed(t)) == Live(t)
  {
    if t.pending.Some? {
      var p := t.pending.value;
      FlatDrainsAppend(t.drains, [p.retry + [Open(p)]]);
      FlatDrainsOne(p.retry + [Open(p)]);
      FlatAppend(p.retry, [Open(p)]);
      FlatOne(Open(p));
    }
  }

  lemma {:induction false} FlatDrainsNext(ds: seq<seq<Batch>>)
    requires ds != [] && ds[0] != []
    ensures FlatDrains(ds) == ds[0][0].chunks + FlatDrains([ds[0][1..]] + ds[1..])
  {
  }

  lemma {:induction false} VoidIsEmpty(t: Terminal)
    requires Inv(t) && t.drains != [] && t.drains[0] != [] && Void(t.drains[0][0])
    ensures t.drains[0][0].chunks == []
  {
    var cs := t.drains[0][0].chunks;
    if cs != [] {
      FlatDrainsNext(t.drains);
      assert Live(t)[|Flat(t.log)|] == cs[0];
      LiveIsAccepted(t, cs[0]);
    }
  }

  lemma {:induction false} Shift(a: seq<Chunk>, b: seq<Chunk>, c: seq<Chunk>, d: seq<Chunk>)
    ensures (a + b) + c + d == a + (b + c) + d
  {
  }

  lemma {:induction false} LiveCommitted(t: Terminal)
    requires Writing(t)
    ensures Live(Written(t)) == Live(t)
  {
    var b := t.drains[0][0];
    var u := Written(t);
    FlatDrainsNext(t.drains);
    FlatAppend(t.log, [b]);
    FlatOne(b);
    Shift(Flat(t.log), b.chunks, FlatDrains(u.drains), Waiting(t.pending));
  }

  lemma {:induction false} LiveSkipped(t: Terminal)
    requires Inv(t) && t.drains != [] && t.drains[0] != [] && Void(t.drains[0][0])
    ensures Live(Written(t)) == Live(t)
  {
    VoidIsEmpty(t);
    FlatDrainsNext(t.drains);
    var u := Written(t);
    assert u.log == t.log && u.pending == t.pending && u.drains == [t.drains[0][1..]] + t.drains[1..];
    assert [] + FlatDrains(u.drains) == FlatDrains(u.drains);
  }

  lemma {:induction false} LiveWritten(t: Terminal)
    requires Inv(t)
    ensures Live(Written(t)) == Live(t)
  {
    if Writing(t) {
      LiveCommitted(t);
    } else if t.drains != [] && t.drains[0] != [] {
      LiveSkipped(t);
    } else if t.drains != [] {
      assert FlatDrains(t.drains) == FlatDrains(t.drains[1..]);
    }
  }

  lemma {:induction false} FailedShape(t: Terminal)
    requires Writing(t)
    ensures var all := Keep(t.drains[0]) + State(t).retry;
      var k := RetryExcess(all);
      var u := Failed(t);
      && u.accepted == t.accepted && u.lost == t.lost && u.log == t.log && u.drains == t.drains[1..]
      && u.dropped == t.dropped + Flat(all[..k])
      && u.pending.Some? && u.pending.value.retry == all[k..] && u.pending.value.chunks == State(t).chunks
  {
  }

  lemma {:induction false} LiveFailed(t: Terminal)
    requires Inv(t) && Writing(t)
    ensures var all := Keep(t.drains[0]) + State(t).retry;
      var k := RetryExcess(all);
      && Live(Failed(t)) == Flat(t.log) + FlatDrains(t.drains[1..]) + (Flat(all[k..]) + State(t).chunks)
      && Flat(all[..k]) + Flat(all[k..]) == Flat(t.drains[0]) + Flat(State(t).retry)
  {
    var all := Keep(t.drains[0]) + State(t).retry;
    FailedShape(t);
    LiveOfFailing(t);
    FlatAppend(Keep(t.drains[0]), State(t).retry);
    FlatCut(all, RetryExcess(all));
  }

  lemma {:induction false} FlatDrainsSplit(ds: seq<seq<Batch>>, i: nat)
    requires i < |ds|
    ensures FlatDrains(ds) == FlatDrains(ds[..i]) + Flat(ds[i]) + FlatDrains(ds[i+1..])
  {
    FlatDrainsAppend(ds[..i], ds[i..]);
    assert ds == ds[..i] + ds[i..];
    assert ds[i..][1..] == ds[i+1..];
  }

  lemma {:induction false} LiveCancelled(t: Terminal, i: nat)
    requires i < |t.drains|
    ensures Live(Cancelled(t, i)) == Flat(t.log) + (FlatDrains(t.drains[..i]) + FlatDrains(t.drains[i+1..])) + Waiting(t.pending)
  {
    FlatDrainsAppend(t.drains[..i], t.drains[i+1..]);
  }

  lemma {:induction false} Splits(live: seq<Chunk>, front: seq<Chunk>, cs: seq<Chunk>, c: Chunk, k: nat)
    requires k <= |cs| && live + [c] == front + cs
    ensures multiset(front + cs[k..]) + multiset(cs[..k]) == multiset(live) + multiset([c])
  {
    assert cs == cs[..k] + cs[k..];
    assert multiset(live + [c]) == multiset(front) + (multiset(cs[..k]) + multiset(cs[k..]));
  }

  lemma {:induction false} Rebalance(live: multiset<Chunk>, live': multiset<Chunk>, dropped: seq<Chunk>, lost: seq<Chunk>, accepted: seq<Chunk>,
                  c: Chunk, out: seq<Chunk>)
    requires live + multiset(dropped) + multiset(lost) == multiset(accepted)
    requires live' + multiset(out) == live + multiset([c])
    ensures live' + multiset(dropped + out) + multiset(lost) == multiset(accepted + [c])
  {
    calc {
      live' + multiset(dropped + out) + multiset(lost);
      (live' + multiset(out)) + multiset(dropped) + multiset(lost);
      (live + multiset([c])) + multiset(dropped) + multiset(lost);
      multiset(accepted) + multiset([c]);
      multiset(accepted + [c]);
    }
  }

  lemma {:induction false} ConservedPosted(t: Terminal, text: string, status: string, base: int, limit: nat)
    requires Inv(t) && text != ""
    ensures Conserved(Posted(t, text, status, base, limit))
  {
    LivePosted(t, text, status, base, limit);
    var c := Chunk(|t.accepted|, text);
    var cs := State(t).chunks + [c];
    var k := Excess(cs, State(t).chars + |text|, limit);
    var front := Flat(t.log) + FlatDrains(t.drains) + Flat(State(t).retry);
    Splits(Live(t), front, cs, c, k);
    Rebalance(multiset(Live(t)), multiset(front + cs[k..]), t.dropped, t.lost, t.accepted, c, cs[..k]);
  }

  lemma {:induction false} NumberedPosted(t: Terminal, text: string, status: string, base: int, limit: nat)
    requires Inv(t)
    ensures Numbered(Posted(t, text, status, base, limit))
  {
  }

  lemma {:induction false} ConservedFailed(t: Terminal)
    requires Inv(t) && Writing(t)
    ensures Conserved(Failed(t))
  {
    FailedShape(t);
    LiveFailed(t);
    var all := Keep(t.drains[0]) + State(t).retry;
    var k := RetryExcess(all);
    MovesBack(Flat(t.log), Flat(t.drains[0]), FlatDrains(t.drains[1..]), Flat(State(t).retry), State(t).chunks,
              Flat(all[..k]), Flat(all[k..]));
    assert Live(t) == Flat(t.log) + (Flat(t.drains[0]) + FlatDrains(t.drains[1..])) + (Flat(State(t).retry) + State(t).chunks);
  }

  lemma {:induction false} MovesBack(log: seq<Chunk>, d: seq<Chunk>, ds: seq<Chunk>, retry: seq<Chunk>, cs: seq<Chunk>, out: seq<Chunk>, kept: seq<Chunk>)
    requires out + kept == d + retry
    ensures multiset(log + ds + (kept + cs)) + multiset(out) == multiset(log + (d + ds) + (retry + cs))
  {
    calc {
      multiset(log + ds + (kept + cs)) + multiset(out);
      multiset(log) + multiset(ds) + multiset(cs) + (multiset(out) + multiset(kept));
      { assert multiset(out) + multiset(kept) == multiset(out + kept) == multiset(d + retry); }
      multiset(log) + multiset(ds) + multiset(cs) + (multiset(d) + multiset(retry));
      multiset(log + (d + ds) + (retry + cs));
    }
  }

  lemma {:induction false} ConservedCancelled(t: Terminal, i: nat)
    requires Inv(t) && i < |t.drains|
    ensures Conserved(Cancelled(t, i))
  {
    LiveCancelled(t, i);
    FlatDrainsSplit(t.drains, i);
    var a, d, b := FlatDrains(t.drains[..i]), Flat(t.drains[i]), FlatDrains(t.drains[i+1..]);
    assert multiset(Live(t)) == multiset(Flat(t.log)) + multiset(a + d + b) + multiset(Waiting(t.pending));
    assert multiset(Live(Cancelled(t, i))) == multiset(Flat(t.log)) + multiset(a + b) + multiset(Waiting(t.pending));
  }

  lemma {:induction false} InvPosted(t: Terminal, text: string, status: string, base: int, limit: nat)
    requires Inv(t)
    ensures Inv(Posted(t, text, status, base, limit))
  {
    StepCounted(t, Post(text, status, base), limit);
    NumberedPosted(t, text, status, base, limit);
    if text != "" {
      ConservedPosted(t, text, status, base, limit);
    } else {
      assert Live(Posted(t, text, status, base, limit)) == Live(t);
    }
  }

  lemma {:induction false} InvFlushed(t: Terminal)
    requires Inv(t)
    ensures Inv(Flushed(t))
  {
    LiveFlushed(t);
  }

  lemma {:induction false} SameChunks(t: Terminal, u: Terminal)
    requires Inv(t) && Counted(u) && Live(u) == Live(t)
    requires u.accepted == t.accepted && u.dropped == t.dropped && u.lost == t.lost
    ensures Inv(u)
  {
  }

  lemma {:induction false} WrittenLeaves(t: Terminal)
    ensures var u := Written(t);
      u.pending == t.pending && u.accepted == t.accepted && u.dropped == t.dropped && u.lost == t.lost
  {
  }

  lemma {:induction false} InvWritten(t: Terminal)
    requires Inv(t)
    ensures Inv(Written(t))
  {
    WrittenLeaves(t);
    LiveWritten(t);
    SameChunks(t, Written(t));
  }

  lemma {:induction false} InvFailed(t: Terminal)
    requires Inv(t)
    ensures Inv(Failed(t))
  {
    if Writing(t) {
      FailedShape(t);
      ConservedFailed(t);
      StepCounted(t, WriteFails, 0);
    }
  }

  lemma {:induction false} InvCancelled(t: Terminal, i: nat)
    requires Inv(t)
    ensures Inv(Cancelled(t, i))
  {
    if i < |t.drains| { ConservedCancelled(t, i); }
  }

  lemma {:induction false} StepInv(t: Terminal, op: Op, limit: nat)
    requires Inv(t)
    ensures Inv(Step(t, op, limit))
  {
    match op
    case Post(text, status, base) => InvPosted(t, text, status, base, limit);
    case Flush => InvFlushed(t);
    case WriteOk => InvWritten(t);
    case WriteFails => InvFailed(t);
    case Cancel(i) => InvCancelled(t, i);
  }

  /**
   Conservation over every run: whatever the interleaving of posts, flushes, commits, failures and
   cancellations, the chunks in the row, in drains, handed back and pending, together with those the bounds
   dropped and those lost to a cancelled drain, are the accepted chunks, each exactly once.
   */
  lemma {:induction false} RunConserves(t: Terminal, ops: seq<Op>, limit: nat)
    requires Inv(t)
    ensures Inv(Run(t, ops, limit))
    decreases |ops|
  {
    if ops != [] {
      StepInv(t, ops[0], limit);
      RunConserves(Step(t, ops[0], limit), ops[1..], limit);
    }
  }

  /** With nothing pending and no drain outstanding, every accepted chunk is in the row, dropped, or lost. */
  lemma {:induction false} AtRest(t: Terminal)
    requires Inv(t) && t.pending.None? && t.drains == []
    ensures multiset(Flat(t.log)) + multiset(t.dropped) + multiset(t.lost) == multiset(t.accepted)
  {
  }

  // ---------------------------------------------------------------------------------------------
  // Order

  predicate Increasing(cs: seq<Chunk>) {
    forall i, j :: 0 <= i < j < |cs| ==> cs[i].id < cs[j].id
  }

  predicate Ordered(t: Terminal) {
    Increasing(Live(t))
  }

  /** Every write that fails does so while no other drain of the terminal is outstanding. */
  predicate FailsAlone(t: Terminal, ops: seq<Op>, limit: nat)
    requires Counted(t)
    decreases |ops|
  {
    ops == [] || (
      && (ops[0].WriteFails? && Writing(t) ==> |t.drains| == 1)
      && (StepCounted(t, ops[0], limit); FailsAlone(Step(t, ops[0], limit), ops[1..], limit)))
  }

  lemma {:induction false} WithoutMiddle(a: seq<Chunk>, b: seq<Chunk>, c: seq<Chunk>)
    requires Increasing(a + b + c)
    ensures Increasing(a + c)
  {
    var all, rest := a + b + c, a + c;
    forall i, j | 0 <= i < j < |rest| ensures rest[i].id < rest[j].id {
      var i' := if i < |a| then i else i + |b|;
      var j' := if j < |a| then j else j + |b|;
      assert all[i'] == rest[i] && all[j'] == rest[j];
    }
  }

  lemma {:induction false} AppendThenTrim(live: seq<Chunk>, front: seq<Chunk>, cs: seq<Chunk>, c: Chunk, k: nat)
    requires Increasing(live) && live + [c] == front + cs && k <= |cs|
    requires forall i :: 0 <= i < |live| ==> live[i].id < c.id
    ensures Increasing(front + cs[k..])
  {
    assert Increasing(live + [c]);
    assert front + cs == front + cs[..k] + cs[k..];
    WithoutMiddle(front, cs[..k], cs[k..]);
  }

  lemma {:induction false} OrderedPosted(t: Terminal, text: string, status: string, base: int, limit: nat)
    requires Inv(t) && Ordered(t) && text != ""
    ensures Ordered(Posted(t, text, status, base, limit))
  {
    LivePosted(t, text, status, base, limit);
    var c := Chunk(|t.accepted|, text);
    var cs := State(t).chunks + [c];
    forall i | 0 <= i < |Live(t)| ensures Live(t)[i].id < c.id { LiveIsAccepted(t, Live(t)[i]); }
    AppendThenTrim(Live(t), Flat(t.log) + FlatDrains(t.drains) + Flat(State(t).retry), cs, c,
                   Excess(cs, State(t).chars + |text|, limit));
  }

  lemma {:induction false} WithoutInner(l: seq<Chunk>, a: seq<Chunk>, d: seq<Chunk>, b: seq<Chunk>, w: seq<Chunk>)
    requires Increasing(l + (a + d + b) + w)
    ensures Increasing(l + (a + b) + w)
  {
    assert l + (a + d + b) + w == (l + a) + d + (b + w);
    WithoutMiddle(l + a, d, b + w);
    assert l + (a + b) + w == (l + a) + (b + w);
  }

  lemma {:induction false} OrderedCancelled(t: Terminal, i: nat)
    requires Ordered(t) && i < |t.drains|
    ensures Ordered(Cancelled(t, i))
  {
    LiveCancelled(t, i);
    FlatDrainsSplit(t.drains, i);
    WithoutInner(Flat(t.log), FlatDrains(t.drains[..i]), Flat(t.drains[i]), FlatDrains(t.drains[i+1..]), Waiting(t.pending));
  }

  /** The chunks of a failing drain that are still held after `_bound_retry_locked`. */
  function StillHeld(t: Terminal): seq<Chunk>
    requires t.drains != []
  {
    var keep := Keep(t.drains[0]);
    Flat(keep[Min(|keep|, RetryExcess(keep + State(t).retry))..])
  }

  function RetryLeft(t: Terminal): seq<Chunk>
    requires t.drains != []
  {
    var keep := Keep(t.drains[0]);
    var k := RetryExcess(keep + State(t).retry);
    Flat(State(t).retry[Max(0, k - |keep|)..])
  }

  lemma {:induction false} FlatCut(bs: seq<Batch>, m: nat)
    requires m <= |bs|
    ensures Flat(bs) == Flat(bs[..m]) + Flat(bs[m..])
  {
    assert bs == bs[..m] + bs[m..];
    FlatAppend(bs[..m], bs[m..]);
  }

  lemma {:induction false} FlatTail(keep: seq<Batch>, retry: seq<Batch>, k: nat)
    requires k <= |keep + retry|
    ensures Flat((keep + retry)[k..]) == Flat(keep[Min(|keep|, k)..]) + Flat(retry[Max(0, k - |keep|)..])
  {
    var m, n := Min(|keep|, k), Max(0, k - |keep|);
    assert (keep + retry)[k..] == keep[m..] + retry[n..];
    FlatAppend(keep[m..], retry[n..]);
  }

  lemma {:induction false} HeldParts(t: Terminal) returns (o: seq<Chunk>, o': seq<Chunk>)
    requires Inv(t) && Writing(t)
    ensures Flat(t.drains[0]) == o + StillHeld(t) && Flat(State(t).retry) == o' + RetryLeft(t)
    ensures Live(Failed(t)) == Flat(t.log) + FlatDrains(t.drains[1..]) + ((StillHeld(t) + RetryLeft(t)) + State(t).chunks)
  {
    var keep, retry := Keep(t.drains[0]), State(t).retry;
    var k := RetryExcess(keep + retry);
    LiveFailed(t);
    LiveOfFailing(t);
    FlatTail(keep, retry, k);
    FlatCut(keep, Min(|keep|, k));
    FlatCut(retry, Max(0, k - |keep|));
    o, o' := Flat(keep[..Min(|keep|, k)]), Flat(retry[..Max(0, k - |keep|)]);
  }

  lemma {:induction false} BlocksInOrder(a: seq<Chunk>, o: seq<Chunk>, h: seq<Chunk>, d: seq<Chunk>, o': seq<Chunk>, r: seq<Chunk>, c: seq<Chunk>)
    requires Increasing(a + ((o + h) + d) + ((o' + r) + c))
    ensures Increasing(a + d + ((h + r) + c)) <==> d == [] || h == []
  {
    var mid := h + d;
    assert a + ((o + h) + d) + ((o' + r) + c) == a + o + (mid + ((o' + r) + c));
    WithoutMiddle(a, o, mid + ((o' + r) + c));
    assert a + (mid + ((o' + r) + c)) == (a + mid) + o' + (r + c);
    WithoutMiddle(a + mid, o', r + c);
    var short := (a + mid) + (r + c);
    var swapped := a + d + ((h + r) + c);
    if d == [] || h == [] {
      assert swapped == short;
    } else {
      assert swapped[|a|] == d[0] && swapped[|a| + |d|] == h[0];
      assert short[|a|] == h[0] && short[|a| + |h|] == d[0];
    }
  }

  /**
   A failure keeps the order exactly when nothing newer is already on its way: either no other drain of this
   terminal holds a chunk, or nothing of the failing drain is still held.
   */
  lemma {:induction false} FailureKeepsOrderIff(t: Terminal)
    requires Inv(t) && Ordered(t) && Writing(t)
    ensures Ordered(Failed(t)) <==> FlatDrains(t.drains[1..]) == [] || StillHeld(t) == []
  {
    var o, o' := HeldParts(t);
    BlocksInOrder(Flat(t.log), o, StillHeld(t), FlatDrains(t.drains[1..]), o', RetryLeft(t), State(t).chunks);
  }

  predicate StepInOrder(t: Terminal, op: Op) {
    op.WriteFails? && Writing(t) ==> FlatDrains(t.drains[1..]) == [] || StillHeld(t) == []
  }

  /** No write fails while a chunk of its drain would be handed back behind chunks of a newer drain. */
  predicate FailsInOrder(t: Terminal, ops: seq<Op>, limit: nat)
    requires Counted(t)
    decreases |ops|
  {
    ops == [] || (
      && StepInOrder(t, ops[0])
      && (StepCounted(t, ops[0], limit); FailsInOrder(Step(t, ops[0], limit), ops[1..], limit)))
  }

  /** In particular when every write that fails does so with no other drain of the terminal outstanding. */
  lemma {:induction false} AloneIsInOrder(t: Terminal, ops: seq<Op>, limit: nat)
    requires Counted(t) && FailsAlone(t, ops, limit)
    ensures FailsInOrder(t, ops, limit)
    decreases |ops|
  {
    if ops != [] {
      StepCounted(t, ops[0], limit);
      AloneIsInOrder(Step(t, ops[0], limit), ops[1..], limit);
    }
  }

  lemma {:induction false} StepOrdered(t: Terminal, op: Op, limit: nat)
    requires Inv(t) && Ordered(t)
    ensures Ordered(Step(t, op, limit)) <==> StepInOrder(t, op)
  {
    match op
    case Post(text, status, base) => if text != "" { OrderedPosted(t, text, status, base, limit); }
    case Flush => LiveFlushed(t);
    case WriteOk => LiveWritten(t);
    case WriteFails => if Writing(t) { FailureKeepsOrderIff(t); }
    case Cancel(i) => if i < |t.drains| { OrderedCancelled(t, i); }
  }

  /** Posting order holds before and after every step of a run if and only if every failure in it is of that kind. */
  lemma {:induction false} OrderedThroughoutIff(t: Terminal, ops: seq<Op>, limit: nat)
    requires Inv(t) && Ordered(t)
    ensures Throughout(t, ops, limit, Ordered) <==> FailsInOrder(t, ops, limit)
    decreases |ops|
  {
    if ops == [] {
      ThroughoutNothing(t, limit, Ordered);
    } else {
      var u := Step(t, ops[0], limit);
      StepInv(t, ops[0], limit);
      StepOrdered(t, ops[0], limit);
      ThroughoutStep(t, ops, limit, Ordered);
      if StepInOrder(t, ops[0]) {
        OrderedThroughoutIff(u, ops[1..], limit);
      } else {
        assert Run(u, ops[1..][..0], limit) == u;
      }
    }
  }

  lemma {:induction false} RunOrdered(t: Terminal, ops: seq<Op>, limit: nat)
    requires Inv(t) && Ordered(t) && FailsInOrder(t, ops, limit)
    ensures Inv(Run(t, ops, limit)) && Ordered(Run(t, ops, limit))
  {
    RunConserves(t, ops, limit);
    OrderedThroughoutIff(t, ops, limit);
    assert ops[..|ops|] == ops;
  }

  /** The accepted chunks without those that were removed, in posting order. */
  function Survivors(accepted: seq<Chunk>, removed: seq<Chunk>): seq<Chunk> {
    if accepted == [] then [] else
    (if accepted[0] in removed then [] else [accepted[0]]) + Survivors(accepted[1..], removed)
  }

  lemma {:induction false} SurvivorsSorted(cs: seq<Chunk>, removed: seq<Chunk>)
    requires Increasing(cs)
    ensures Increasing(Survivors(cs, removed))
    ensures forall c :: c in Survivors(cs, removed) <==> c in cs && c !in removed
  {
    if cs != [] {
      var head, rest := cs[0], Survivors(cs[1..], removed);
      SurvivorsSorted(cs[1..], removed);
      forall i | 0 <= i < |rest| ensures head.id < rest[i].id { assert rest[i] in cs[1..]; }
      assert Increasing([head] + rest);
    }
  }

  lemma {:induction false} SortedUnique(a: seq<Chunk>, b: seq<Chunk>)
    requires Increasing(a) && Increasing(b)
    requires forall c :: c in a <==> c in b
    ensures a == b
  {
    if a != [] {
      HasMember(a, b);
      assert a[0] in b && b[0] in a;
      forall c ensures c in a[1..] <==> c in b[1..] {
        if c in a[1..] { assert c in b; }
        if c in b[1..] { assert c in a; }
      }
      SortedUnique(a[1..], b[1..]);
    } else if b != [] {
      HasMember(b, a);
    }
  }

  lemma {:induction false} HasMember(a: seq<Chunk>, b: seq<Chunk>)
    requires a != [] && forall c :: c in a ==> c in b
    ensures b != []
  {
    assert a[0] in b;
  }

  lemma {:induction false} LiveIsSurvivors(t: Terminal)
    requires Inv(t) && Ordered(t)
    ensures Live(t) == Survivors(t.accepted, t.dropped + t.lost)
  {
    SurvivorsSorted(t.accepted, t.dropped + t.lost);
    forall c ensures c in Live(t) <==> c in t.accepted && c !in t.dropped + t.lost {
      assert multiset(t.accepted)[c] <= 1 by { OnceEach(t.accepted, c); }
      assert multiset(t.accepted)[c] == multiset(Live(t))[c] + multiset(t.dropped)[c] + multiset(t.lost)[c];
      assert c in t.accepted <==> multiset(t.accepted)[c] > 0;
      assert c in Live(t) <==> multiset(Live(t))[c] > 0;
      assert c in t.dropped <==> multiset(t.dropped)[c] > 0;
      assert c in t.lost <==> multiset(t.lost)[c] > 0;
    }
    SortedUnique(Live(t), Survivors(t.accepted, t.dropped + t.lost));
  }

  lemma {:induction false} OnceEach(cs: seq<Chunk>, c: Chunk)
    requires Increasing(cs)
    ensures multiset(cs)[c] <= 1
  {
    if cs != [] {
      assert cs == [cs[0]] + cs[1..];
      OnceEach(cs[1..], c);
      if c == cs[0] { assert c !in cs[1..]; }
    }
  }

  /**
   The order theorem. From a fresh terminal, for every interleaving in which no failure lets newer chunks pass,
   the chunks of the row followed by what has not been written yet are the accepted chunks in posting order,
   each once, without those the bounds dropped or a cancelled drain lost. When the queue is empty and nothing
   was removed, the row is byte for byte what was posted, with no note in it.
   */
  lemma {:induction false} StoredInPostingOrder(number: nat, ops: seq<Op>, limit: nat)
    requires FailsInOrder(Fresh(number), ops, limit)
    ensures var t := Run(Fresh(number), ops, limit);
      && Flat(t.log) + FlatDrains(t.drains) + Waiting(t.pending) == Survivors(t.accepted, t.dropped + t.lost)
      && (t.pending.None? && t.drains == [] && t.dropped == [] && t.lost == [] ==> RowText(t.log) == Concat(t.accepted))
  {
    FreshInOrder(number);
    RunOrdered(Fresh(number), ops, limit);
    RunNoteFree(Fresh(number), ops, limit);
    StoredBytes(Run(Fresh(number), ops, limit));
  }

  lemma {:induction false} FreshInOrder(number: nat)
    ensures Inv(Fresh(number)) && Ordered(Fresh(number)) && NoteFree(Fresh(number))
  {
  }

  lemma {:induction false} StoredBytes(t: Terminal)
    requires Inv(t) && Ordered(t) && NoteFree(t)
    ensures Flat(t.log) + FlatDrains(t.drains) + Waiting(t.pending) == Survivors(t.accepted, t.dropped + t.lost)
    ensures t.pending.None? && t.drains == [] && t.dropped == [] && t.lost == [] ==> RowText(t.log) == Concat(t.accepted)
  {
    LiveIsSurvivors(t);
    if t.pending.None? && t.drains == [] && t.dropped == [] && t.lost == [] {
      NothingRemoved(t.accepted);
      assert t.dropped + t.lost == [];
      assert Live(t) == Flat(t.log);
      RowTextPlain(t.log);
    }
  }

  // ---------------------------------------------------------------------------------------------
  // The bytes of the row

  /** What the row holds: the text of its batches, notes included. */
  function RowText(bs: seq<Batch>): string {
    if bs == [] then "" else Text(bs[0]) + RowText(bs[1..])
  }

  predicate Unnoted(bs: seq<Batch>) {
    forall b :: b in bs ==> b.note == ""
  }

  /** As long as the bounds removed nothing, no batch anywhere carries a note, and every batch handed back has text. */
  ghost predicate NoteFree(t: Terminal) {
    && Counted(t)
    && (forall b :: b in State(t).retry ==> Text(b) != "")
    && (t.dropped == [] ==>
          && Unnoted(t.log) && (forall d :: d in t.drains ==> Unnoted(d)) && Unnoted(State(t).retry)
          && State(t).dropped == 0)
  }

  lemma {:induction false} RowTextPlain(bs: seq<Batch>)
    requires Unnoted(bs)
    ensures RowText(bs) == Concat(Flat(bs))
  {
    if bs != [] {
      assert bs[0] in bs && forall b :: b in bs[1..] ==> b in bs;
      RowTextPlain(bs[1..]);
      ConcatAppend(bs[0].chunks, Flat(bs[1..]));
      assert Text(bs[0]) == Concat(bs[0].chunks);
    }
  }

  lemma {:induction false} KeepUnnoted(bs: seq<Batch>)
    ensures forall b :: b in Keep(bs) ==> Text(b) != ""
    ensures Unnoted(bs) ==> Unnoted(Keep(bs))
  {
    if bs != [] {
      assert bs[0] in bs && forall b :: b in bs[1..] ==> b in bs;
      KeepUnnoted(bs[1..]);
    }
  }

  /** A batch with text and no note has a chunk, so evicting it removes something. */
  lemma {:induction false} EvictedHasChunk(bs: seq<Batch>, k: nat)
    requires k <= |bs| && Unnoted(bs) && forall b :: b in bs ==> Text(b) != ""
    ensures Flat(bs[..k]) == [] <==> k == 0
  {
    if k > 0 {
      assert bs[..k][0] == bs[0] && bs[0] in bs;
      assert bs[0].chunks != [];
    }
  }

  lemma {:induction false} FailedNoteFree(t: Terminal)
    requires NoteFree(t) && Writing(t)
    ensures NoteFree(Failed(t))
  {
    FailedShape(t);
    StepCounted(t, WriteFails, 0);
    KeepUnnoted(t.drains[0]);
    var u, all := Failed(t), Keep(t.drains[0]) + State(t).retry;
    var k := RetryExcess(all);
    assert t.drains[0] in t.drains;
    assert forall b :: b in all ==> Text(b) != "";
    assert forall b :: b in all[k..] ==> b in all;
    if u.dropped == [] {
      assert t.dropped == [] && Unnoted(all);
      EvictedHasChunk(all, k);
      assert all[..k] == [] && TextLength(all[..k]) == 0;
    }
  }

  lemma {:induction false} PostedNoteFree(t: Terminal, text: string, status: string, base: int, limit: nat)
    requires NoteFree(t)
    ensures NoteFree(Posted(t, text, status, base, limit))
  {
    StepCounted(t, Post(text, status, base), limit);
    var u, cs := Posted(t, text, status, base, limit), State(t).chunks + [Chunk(|t.accepted|, text)];
    var k := if text == "" then 0 else Excess(cs, State(t).chars + |text|, limit);
    assert cs[..0] == [];
    assert (text == "" && status == "") || (u.dropped == t.dropped + cs[..k] && State(u).dropped == State(t).dropped + |Concat(cs[..k])|);
  }

  lemma {:induction false} WrittenNoteFree(t: Terminal)
    requires NoteFree(t)
    ensures NoteFree(Written(t))
  {
    var u := Written(t);
    if t.dropped == [] && t.drains != [] {
      assert t.drains[0] in t.drains && forall d :: d in t.drains[1..] ==> d in t.drains;
      if t.drains[0] != [] {
        assert t.drains[0][0] in t.drains[0] && forall b :: b in t.drains[0][1..] ==> b in t.drains[0];
      }
    }
  }

  lemma {:induction false} StepNoteFree(t: Terminal, op: Op, limit: nat)
    requires NoteFree(t)
    ensures NoteFree(Step(t, op, limit))
  {
    match op
    case Post(text, status, base) => PostedNoteFree(t, text, status, base, limit);
    case Flush =>
    case WriteOk => WrittenNoteFree(t);
    case WriteFails => if Writing(t) { FailedNoteFree(t); }
    case Cancel(i) =>
  }

  lemma {:induction false} RunNoteFree(t: Terminal, ops: seq<Op>, limit: nat)
    requires NoteFree(t)
    ensures NoteFree(Run(t, ops, limit))
    decreases |ops|
  {
    if ops != [] {
      StepNoteFree(t, ops[0], limit);
      RunNoteFree(Step(t, ops[0], limit), ops[1..], limit);
    }
  }

  lemma {:induction false} NothingRemoved(cs: seq<Chunk>)
    ensures Survivors(cs, []) == cs
  {
    if cs != [] { NothingRemoved(cs[1..]); }
  }
}
