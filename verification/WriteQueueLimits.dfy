/** Where the queue keeps a promise only under a condition: overlapping drains, cancelled drains, statuses handed back. */
module WriteQueueLimits {
  import opened Common
  import opened WriteQueue
  import opened WriteQueueOrder
  import opened WriteQueueNumbers

  // ---------------------------------------------------------------------------------------------
  // Overlapping drains

  function One(id: nat, text: string, number: nat): Batch {
    Batch("", 0, [Chunk(id, text)], "", number)
  }

  /** A post that opens a batch, flushed at once. */
  lemma {:induction false} PostThenFlush(t: Terminal, text: string, limit: nat)
    requires t.pending.None? && text != "" && |text| <= limit
    ensures var u := Posted(t, text, "", 0, limit);
      var v := Flushed(u);
      && v.pending.None? && v.log == t.log && v.number == t.number && v.floor == t.floor + 1
      && v.accepted == t.accepted + [Chunk(|t.accepted|, text)]
      && v.drains == t.drains + [[One(|t.accepted|, text, t.floor + 1)]]
  {
    var c := Chunk(|t.accepted|, text);
    var u := Posted(t, text, "", 0, limit);
    assert [] + [c] == [c];
    assert Concat([c]) == text by { assert [c][1..] == []; }
    assert u.pending == Some(Pending([], [c], |text|, "", 0, t.floor + 1));
    assert [] + [Open(u.pending.value)] == [One(|t.accepted|, text, t.floor + 1)];
  }

  /** With two drains outstanding, the older one failing lets the newer one reach the row first. */
  lemma {:induction false} OlderFails(t: Terminal, a: Batch, b: Batch)
    requires t.pending.None? && t.drains == [[a], [b]] && t.log == [] && a.status == "" && Text(a) != "" && Text(b) != ""
    ensures var u := Written(Failed(t));
      && u.log == [b] && u.drains == [[]] && u.pending == Some(Pending([a], [], 0, "", 0, 0))
      && u.number == if b.number == 0 then t.number else b.number
  {
    assert [a][1..] == [] && Keep([a]) == [a] && LastStatus([a]) == "";
    assert [a] + [] == [a] && [b][1..] == [];
    FailedShape(t);
    assert Failed(t).drains == [[b]];
    assert Written(Failed(t)).drains == [[]];
  }

  lemma {:induction false} RetriedLast(t: Terminal, a: Batch, b: Batch)
    requires t.log == [b] && t.drains == [[]] && t.pending == Some(Pending([a], [], 0, "", 0, 0)) && Text(a) != ""
    ensures var v := Written(Flushed(Written(t)));
      v.log == [b, a] && v.number == if a.number == 0 then t.number else a.number
  {
  }

  /**
   Two drains of one terminal, the older failing: the row ends with the second post before the first, and its
   number falls from 2 to 1. So "a write fails with no other drain outstanding" cannot be dropped as a hypothesis.
   */
  lemma {:induction false} OverlapReorders(x: string, y: string, limit: nat)
    requires x != "" && y != "" && |x| <= limit && |y| <= limit
    ensures var t := Flushed(Posted(Flushed(Posted(Fresh(0), x, "", 0, limit)), y, "", 0, limit));
      var u := Written(Failed(t));
      var v := Written(Flushed(Written(u)));
      && u.log == [One(1, y, 2)] && u.number == 2
      && v.log == [One(1, y, 2), One(0, x, 1)] && v.number == 1
  {
    PostThenFlush(Fresh(0), x, limit);
    var t1 := Flushed(Posted(Fresh(0), x, "", 0, limit));
    PostThenFlush(t1, y, limit);
    var t := Flushed(Posted(t1, y, "", 0, limit));
    var a, b := One(0, x, 1), One(1, y, 2);
    assert t.drains == [[a], [b]];
    assert a.chunks[1..] == [] && b.chunks[1..] == [];
    assert Text(a) == x && Text(b) == y;
    OlderFails(t, a, b);
    RetriedLast(Written(Failed(t)), a, b);
  }

  // ---------------------------------------------------------------------------------------------
  // Lost to a cancelled drain

  /** Every cancelled drain of the run had no chunk left to write. */
  predicate CancelsNothing(t: Terminal, ops: seq<Op>, limit: nat)
    requires Counted(t)
    decreases |ops|
  {
    ops == [] || (
      && (ops[0].Cancel? && ops[0].drain < |t.drains| ==> Flat(t.drains[ops[0].drain]) == [])
      && (StepCounted(t, ops[0], limit); CancelsNothing(Step(t, ops[0], limit), ops[1..], limit)))
  }

  lemma {:induction false} LostGrows(t: Terminal, ops: seq<Op>, limit: nat)
    requires Counted(t)
    ensures |t.lost| <= |Run(t, ops, limit).lost|
    decreases |ops|
  {
    if ops != [] {
      StepCounted(t, ops[0], limit);
      LostGrows(Step(t, ops[0], limit), ops[1..], limit);
    }
  }

  /** A run loses no chunk if and only if it cancels no drain that still carries one. */
  lemma {:induction false} LosesNothingIff(t: Terminal, ops: seq<Op>, limit: nat)
    requires Counted(t)
    ensures Run(t, ops, limit).lost == t.lost <==> CancelsNothing(t, ops, limit)
    decreases |ops|
  {
    if ops != [] {
      var u := Step(t, ops[0], limit);
      StepCounted(t, ops[0], limit);
      LosesNothingIff(u, ops[1..], limit);
      LostGrows(u, ops[1..], limit);
      assert u.lost == t.lost || |u.lost| > |t.lost|;
    }
  }

  /** Two posts, two flushes, and the second flush cancelled while it waits for the write lock: the second post is lost. */
  lemma {:induction false} CancelLosesPost(x: string, y: string, limit: nat)
    requires x != "" && y != "" && |x| <= limit && |y| <= limit
    ensures var t := Flushed(Posted(Flushed(Posted(Fresh(0), x, "", 0, limit)), y, "", 0, limit));
      var u := Written(Written(Cancelled(t, 1)));
      && u.accepted == [Chunk(0, x), Chunk(1, y)] && u.lost == [Chunk(1, y)]
      && u.log == [One(0, x, 1)] && u.drains == [] && u.pending.None?
  {
    PostThenFlush(Fresh(0), x, limit);
    var t1 := Flushed(Posted(Fresh(0), x, "", 0, limit));
    PostThenFlush(t1, y, limit);
    var t := Flushed(Posted(t1, y, "", 0, limit));
    var a, b := One(0, x, 1), One(1, y, 2);
    assert t.drains == [[a], [b]];
    CancelSecond(t, a, b);
  }

  lemma {:induction false} CancelSecond(t: Terminal, a: Batch, b: Batch)
    requires t.drains == [[a], [b]] && t.pending.None? && |a.chunks| == 1 && a.chunks[0].text != ""
    ensures var u := Written(Written(Cancelled(t, 1)));
      u.lost == t.lost + b.chunks && u.log == t.log + [a] && u.drains == [] && u.pending.None? && u.accepted == t.accepted
  {
    var u := Cancelled(t, 1);
    FlatOne(b);
    assert u.drains == [[a]];
    assert !Void(a) by { assert a.chunks == [a.chunks[0]] && a.chunks[1..] == []; }
    assert [a][1..] == [] && [[a]][1..] == [];
    assert Written(u).drains == [[]];
  }

  // ---------------------------------------------------------------------------------------------
  // The newest status

  function All(t: Terminal): seq<Batch> {
    t.log + Unwritten(t)
  }

  /** The status the row will end with if everything waiting is written now. */
  function Outcome(t: Terminal): string {
    LastStatus(All(t))
  }

  predicate Plain(bs: seq<Batch>) {
    forall b :: b in bs ==> b.status == ""
  }

  /** The status that will be written last is the newest one posted. */
  predicate NewestLast(t: Terminal) {
    Outcome(t) == t.posted
  }

  predicate StatusInv(t: Terminal) {
    Counted(t) && Plain(State(t).retry) && NewestLast(t)
  }

  lemma {:induction false} LastStatusAppend(a: seq<Batch>, b: seq<Batch>)
    ensures LastStatus(a + b) == if LastStatus(b) != "" then LastStatus(b) else LastStatus(a)
  {
    if a == [] {
      assert a + b == b;
    } else {
      assert (a + b)[1..] == a[1..] + b;
      LastStatusAppend(a[1..], b);
    }
  }

  lemma {:induction false} LastStatusPlain(bs: seq<Batch>)
    requires Plain(bs)
    ensures LastStatus(bs) == ""
  {
    if bs != [] {
      assert bs[0] in bs && forall b :: b in bs[1..] ==> b in bs;
      LastStatusPlain(bs[1..]);
    }
  }

  lemma {:induction false} KeepPlain(bs: seq<Batch>)
    ensures Plain(Keep(bs))
  {
    if bs != [] { KeepPlain(bs[1..]); }
  }

  lemma {:induction false} OutcomePending(t: Terminal)
    requires Plain(State(t).retry)
    ensures Outcome(t) == if State(t).status != "" then State(t).status else LastStatus(t.log + Join(t.drains))
  {
    LastStatusAppend(t.log + Join(t.drains), Backlog(t.pending));
    assert All(t) == (t.log + Join(t.drains)) + Backlog(t.pending);
    if t.pending.Some? {
      var p := t.pending.value;
      LastStatusAppend(p.retry, [Open(p)]);
      LastStatusPlain(p.retry);
      assert [Open(p)][1..] == [];
    }
  }

  lemma {:induction false} OutcomeFailed(t: Terminal)
    requires Plain(State(t).retry) && Writing(t)
    ensures Plain(State(Failed(t)).retry)
    ensures var back, others := LastStatus(t.drains[0]), t.log + Join(t.drains[1..]);
      Outcome(Failed(t)) == (if back != "" then back else if State(t).status != "" then State(t).status else LastStatus(others))
  {
    FailedShape(t);
    KeepPlain(t.drains[0]);
    var all := Keep(t.drains[0]) + State(t).retry;
    assert Plain(all);
    assert forall b :: b in all[RetryExcess(all)..] ==> b in all;
    OutcomePending(Failed(t));
  }

  lemma {:induction false} WithoutPlainDrain(log: seq<Batch>, d: seq<Batch>, rest: seq<Batch>)
    requires LastStatus(d) == ""
    ensures LastStatus(log + (d + rest)) == LastStatus(log + rest)
  {
    LastStatusAppend(log, d + rest);
    LastStatusAppend(d, rest);
    LastStatusAppend(log, rest);
  }

  /**
   "The last one written must win" holds across a hand-back, however many drains overlap, exactly when the
   failing drain carries no status or carries the newest one: `_requeue_front_locked` lets it overwrite whatever is pending.
   */
  lemma {:induction false} NewestStatusSurvivesIff(t: Terminal)
    requires StatusInv(t) && Writing(t)
    ensures NewestLast(Failed(t)) <==> LastStatus(t.drains[0]) == "" || LastStatus(t.drains[0]) == t.posted
  {
    OutcomePending(t);
    OutcomeFailed(t);
    if LastStatus(t.drains[0]) == "" { WithoutPlainDrain(t.log, t.drains[0], Join(t.drains[1..])); }
  }

  /**
   A drain cancelled before it held the lock takes its statuses with it: that is harmless exactly when it
   carries none, a newer one waits behind it, or what was to be written before it ends in the same word.
   */
  lemma {:induction false} CancelKeepsStatusIff(t: Terminal, i: nat)
    requires StatusInv(t) && i < |t.drains|
    ensures NewestLast(Cancelled(t, i)) <==> LastStatus(t.drains[i]) == "" || LastStatus(Behind(t, i)) != ""
                                             || LastStatus(t.log + Join(t.drains[..i])) == t.posted
  {
    var front, d, rest := t.log + Join(t.drains[..i]), t.drains[i], Behind(t, i);
    UnwrittenCancelled(t, i);
    assert All(t) == front + (d + rest);
    assert All(Cancelled(t, i)) == front + rest;
    LastStatusAppend(front, d + rest);
    LastStatusAppend(d, rest);
    LastStatusAppend(front, rest);
  }

  predicate StepKeepsStatus(t: Terminal, op: Op) {
    && (op.WriteFails? && Writing(t) ==> LastStatus(t.drains[0]) == "" || LastStatus(t.drains[0]) == t.posted)
    && (op.Cancel? && op.drain < |t.drains| ==>
          LastStatus(t.drains[op.drain]) == "" || LastStatus(Behind(t, op.drain)) != ""
          || LastStatus(t.log + Join(t.drains[..op.drain])) == t.posted)
  }

  /** No failing or cancelled drain of the run lets an older status outlive the newest one. */
  predicate NoStatusClash(t: Terminal, ops: seq<Op>, limit: nat)
    requires Counted(t)
    decreases |ops|
  {
    ops == [] || (
      && StepKeepsStatus(t, ops[0])
      && (StepCounted(t, ops[0], limit); NoStatusClash(Step(t, ops[0], limit), ops[1..], limit)))
  }

  lemma {:induction false} StatusPosted(t: Terminal, text: string, status: string, base: int, limit: nat)
    requires StatusInv(t)
    ensures StatusInv(Posted(t, text, status, base, limit))
  {
    var u := Posted(t, text, status, base, limit);
    StepCounted(t, Post(text, status, base), limit);
    assert State(u).retry == State(t).retry;
    OutcomePending(t);
    OutcomePending(u);
  }

  lemma {:induction false} LastStatusSkips(log: seq<Batch>, b: Batch, rest: seq<Batch>)
    requires b.status == ""
    ensures LastStatus(log + ([b] + rest)) == LastStatus(log + rest)
  {
    LastStatusAppend(log, [b] + rest);
    LastStatusAppend(log, rest);
    assert ([b] + rest)[1..] == rest;
  }

  lemma {:induction false} NextUnwritten(t: Terminal)
    requires t.drains != [] && t.drains[0] != []
    ensures Unwritten(t) == [t.drains[0][0]] + Unwritten(Written(t))
  {
    var u := Written(t);
    assert u.drains[0] == t.drains[0][1..] && u.drains[1..] == t.drains[1..];
  }

  lemma {:induction false} StatusWritten(t: Terminal)
    requires StatusInv(t)
    ensures StatusInv(Written(t))
  {
    var u := Written(t);
    if t.drains != [] && t.drains[0] != [] {
      var b := t.drains[0][0];
      NextUnwritten(t);
      if Void(b) {
        LastStatusSkips(t.log, b, Unwritten(u));
      } else {
        assert u.log == t.log + [b];
        assert All(u) == All(t);
      }
    } else if t.drains != [] {
      assert All(u) == All(t);
    }
  }

  lemma {:induction false} StepStatus(t: Terminal, op: Op, limit: nat)
    requires StatusInv(t)
    ensures Counted(Step(t, op, limit)) && Plain(State(Step(t, op, limit)).retry)
    ensures NewestLast(Step(t, op, limit)) <==> StepKeepsStatus(t, op)
  {
    StepCounted(t, op, limit);
    match op
    case Post(text, status, base) => StatusPosted(t, text, status, base, limit);
    case Flush => StoredFlushed(t);
    case WriteOk => StatusWritten(t);
    case WriteFails => if Writing(t) { NewestStatusSurvivesIff(t); OutcomeFailed(t); }
    case Cancel(i) => if i < |t.drains| { CancelKeepsStatusIff(t, i); }
  }

  /** For every run: the newest status posted is the last one to be written, after each step, if and only if no step is such a clash. */
  lemma {:induction false} NewestStatusWinsIff(t: Terminal, ops: seq<Op>, limit: nat)
    requires StatusInv(t)
    ensures Throughout(t, ops, limit, NewestLast) <==> NoStatusClash(t, ops, limit)
    decreases |ops|
  {
    if ops == [] {
      ThroughoutNothing(t, limit, NewestLast);
    } else {
      var u := Step(t, ops[0], limit);
      StepStatus(t, ops[0], limit);
      ThroughoutStep(t, ops, limit, NewestLast);
      if StepKeepsStatus(t, ops[0]) {
        NewestStatusWinsIff(u, ops[1..], limit);
      } else {
        assert Run(u, ops[1..][..0], limit) == u;
      }
    }
  }

  function Mark(status: string, number: nat): Batch {
    Batch("", 0, [], status, number)
  }

  /** A post of a status alone, flushed at once. */
  lemma {:induction false} MarkThenFlush(t: Terminal, status: string, limit: nat)
    requires t.pending.None? && status != ""
    ensures var v := Flushed(Posted(t, "", status, 0, limit));
      && v.pending.None? && v.log == t.log && v.floor == t.floor + 1 && v.posted == status
      && v.drains == t.drains + [[Mark(status, t.floor + 1)]]
  {
    var u := Posted(t, "", status, 0, limit);
    assert u.pending == Some(Pending([], [], 0, status, 0, t.floor + 1));
    assert [] + [Open(u.pending.value)] == [Mark(status, t.floor + 1)];
  }

  lemma {:induction false} MarkHandedBack(t: Terminal, a: Batch, b: Batch)
    requires t.pending.None? && t.drains == [[a], [b]] && a.status != "" && b.status != "" && Text(a) == ""
    ensures var u := Written(Written(Failed(t)));
      && u.pending == Some(NewPending().(status := a.status)) && u.drains == [] && u.log == t.log + [b] && u.posted == t.posted
  {
    assert [a][1..] == [] && [b][1..] == [] && Keep([a]) == [] && LastStatus([a]) == a.status;
    assert [] + State(t).retry == [];
    assert Failed(t).drains == [[b]];
    assert Written(Failed(t)).drains == [[]];
  }

  lemma {:induction false} MarkWritten(t: Terminal, status: string)
    requires t.pending == Some(NewPending().(status := status)) && t.drains == [] && status != ""
    ensures var u := Written(Written(Flushed(t)));
      && u.pending.None? && u.drains == [] && u.log == t.log + [Mark(status, 0)] && u.posted == t.posted
  {
    var b, v := Mark(status, 0), Flushed(t);
    assert [] + [b] == [b] && v.drains == [[b]];
    assert [b][1..] == [] && Written(v).drains == [[]];
  }

  /**
   A status posted and flushed, a newer one posted and flushed, and the older write failing: once everything is
   written the row ends with the older status.
   */
  lemma {:induction false} OlderStatusWins(x: string, y: string, limit: nat)
    requires x != "" && y != ""
    ensures var t := Flushed(Posted(Flushed(Posted(Fresh(0), "", x, 0, limit)), "", y, 0, limit));
      var u := Written(Written(Failed(t)));
      var v := Written(Written(Flushed(u)));
      && v.posted == y && v.pending.None? && v.drains == []
      && v.log == [Mark(y, 2), Mark(x, 0)] && LastStatus(v.log) == x
  {
    MarkThenFlush(Fresh(0), x, limit);
    var t1 := Flushed(Posted(Fresh(0), "", x, 0, limit));
    MarkThenFlush(t1, y, limit);
    var t := Flushed(Posted(t1, "", y, 0, limit));
    var a, b := Mark(x, 1), Mark(y, 2);
    assert t.drains == [[a], [b]];
    MarkHandedBack(t, a, b);
    MarkWritten(Written(Written(Failed(t))), x);
    LastStatusAppend([b], [Mark(x, 0)]);
    assert [Mark(x, 0)][1..] == [] && [b] + [Mark(x, 0)] == [b, Mark(x, 0)];
  }
}
