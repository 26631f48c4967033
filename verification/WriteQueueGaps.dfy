/**
 Frames without a gap. A dashboard takes a number that skips one for a lost frame and fetches everything again; the numbers
 are claimed one after the other, and this says exactly which steps make one of them go missing.
 */
module WriteQueueGaps {
  import opened Common
  import opened WriteQueue
  import opened WriteQueueOrder
  import opened WriteQueueNumbers
  import opened WriteQueueLimits

  /** The numbers of the batches that have one. */
  function Nums(bs: seq<Batch>): seq<nat> {
    if bs == [] then [] else (if bs[0].number == 0 then [] else [bs[0].number]) + Nums(bs[1..])
  }

  /** The numbers above `low` up to `high`. */
  function Range(low: nat, high: nat): (r: seq<nat>)
    ensures |r| == Max(0, high - low) && forall i :: 0 <= i < |r| ==> r[i] == low + 1 + i
  {
    seq(Max(0, high - low), i requires 0 <= i < Max(0, high - low) => low + 1 + i)
  }

  /** The frames still to be sent carry the numbers that follow the row's, up to the last one claimed, none missing and none twice. */
  predicate Gapless(t: Terminal) {
    Nums(Unwritten(t)) == Range(t.number, t.floor)
  }

  /** Whatever claimed a number has something to send. */
  ghost predicate Sends(t: Terminal) {
    Counted(t) && forall b :: b in Unwritten(t) && b.number != 0 ==> !Void(b)
  }

  lemma {:induction false} NumsAppend(a: seq<Batch>, b: seq<Batch>)
    ensures Nums(a + b) == Nums(a) + Nums(b)
  {
    if a == [] {
      assert a + b == b;
    } else {
      assert (a + b)[1..] == a[1..] + b;
      NumsAppend(a[1..], b);
    }
  }

  lemma {:induction false} NumsOne(b: Batch)
    ensures Nums([b]) == if b.number == 0 then [] else [b.number]
  {
    assert [b][1..] == [];
  }

  lemma {:induction false} NoNums(bs: seq<Batch>)
    ensures Nums(bs) == [] <==> Unnumbered(bs)
  {
    if bs != [] {
      NoNums(bs[1..]);
      assert bs[0] in bs && forall b :: b in bs <==> b == bs[0] || b in bs[1..];
    }
  }

  // ---------------------------------------------------------------------------------------------
  // Posts, flushes and writes

  lemma {:induction false} PostedOpen(t: Terminal, text: string, status: string, base: int, limit: nat)
    requires Counted(t) && Accepts(text, status)
    ensures var u := Posted(t, text, status, base, limit);
      && u.pending.Some? && u.drains == t.drains && u.number == t.number && u.pending.value.retry == State(t).retry
      && u.pending.value.lastSeq == Claim(t, base) && u.floor == (if State(t).lastSeq != 0 then t.floor else Claim(t, base))
      && !Void(Open(u.pending.value))
  {
    var u := Posted(t, text, status, base, limit);
    if text != "" {
      var cs := State(t).chunks + [Chunk(|t.accepted|, text)];
      LengthOfAppend(State(t).chunks, Chunk(|t.accepted|, text));
      var k := Excess(cs, State(t).chars + |text|, limit);
      LengthOfRest(cs, k);
      assert |Concat(cs)| > 0;
    }
  }

  lemma {:induction false} PostedUnwritten(t: Terminal, text: string, status: string, base: int, limit: nat)
    requires Counted(t) && Accepts(text, status)
    ensures var u, front := Posted(t, text, status, base, limit), Join(t.drains) + State(t).retry;
      && Unwritten(u) == front + [Open(u.pending.value)]
      && Unwritten(t) == front + if t.pending.Some? then [Open(t.pending.value)] else []
  {
    PostedOpen(t, text, status, base, limit);
    var u := Posted(t, text, status, base, limit);
    Associate(Join(t.drains), State(t).retry, [Open(u.pending.value)]);
  }

  lemma {:induction false} SendsPosted(t: Terminal, text: string, status: string, base: int, limit: nat)
    requires Sends(t) && Accepts(text, status)
    ensures Sends(Posted(t, text, status, base, limit))
  {
    StepCounted(t, Post(text, status, base), limit);
    PostedOpen(t, text, status, base, limit);
    PostedUnwritten(t, text, status, base, limit);
  }

  /** A batch that opens takes the next number exactly when its `base_seq` is not ahead of the last one claimed. */
  lemma {:induction false} PostGaplessIff(t: Terminal, text: string, status: string, base: int, limit: nat)
    requires Counted(t) && Gapless(t) && Accepts(text, status)
    ensures Gapless(Posted(t, text, status, base, limit)) <==> State(t).lastSeq != 0 || Max(base, t.floor) == Max(t.number, t.floor)
  {
    PostedOpen(t, text, status, base, limit);
    PostedNums(t, text, status, base, limit);
    if State(t).lastSeq == 0 {
      OneMoreNumber(t.number, t.floor, Claim(t, base));
    }
  }

  lemma {:induction false} PostedNums(t: Terminal, text: string, status: string, base: int, limit: nat)
    requires Counted(t) && Accepts(text, status)
    ensures Nums(Unwritten(Posted(t, text, status, base, limit))) == Nums(Unwritten(t)) + if State(t).lastSeq == 0 then [Claim(t, base)] else []
  {
    var u, front := Posted(t, text, status, base, limit), Join(t.drains) + State(t).retry;
    PostedOpen(t, text, status, base, limit);
    PostedUnwritten(t, text, status, base, limit);
    NumsAppend(front, [Open(u.pending.value)]);
    NumsOne(Open(u.pending.value));
    if t.pending.Some? {
      NumsAppend(front, [Open(t.pending.value)]);
      NumsOne(Open(t.pending.value));
    }
  }

  lemma {:induction false} OneMoreNumber(low: nat, high: nat, n: nat)
    requires n > high
    ensures Range(low, high) + [n] == Range(low, n) <==> n == Max(low, high) + 1
  {
    var r, s := Range(low, high) + [n], Range(low, n);
    if n == Max(low, high) + 1 {
      assert |r| == |s|;
    } else {
      assert |r| != |s|;
    }
  }

  lemma {:induction false} WrittenUnwritten(t: Terminal)
    ensures var u := Written(t);
      if t.drains != [] && t.drains[0] != [] then Unwritten(t) == [t.drains[0][0]] + Unwritten(u) else Unwritten(u) == Unwritten(t)
  {
    if t.drains != [] && t.drains[0] != [] {
      NextUnwritten(t);
    } else if t.drains != [] {
      assert Join(t.drains) == [] + Join(t.drains[1..]);
    }
  }

  /** Each frame goes out under the row's number or the next one. */
  lemma {:induction false} FramesFollow(t: Terminal)
    requires Sends(t) && Gapless(t)
    ensures Sends(Written(t)) && Gapless(Written(t)) && t.number <= Written(t).number <= t.number + 1
  {
    WrittenUnwritten(t);
    if t.drains != [] && t.drains[0] != [] {
      var u, b := Written(t), t.drains[0][0];
      assert b in Unwritten(t) && forall c :: c in Unwritten(u) ==> c in Unwritten(t);
      NumsAppend([b], Unwritten(u));
      NumsOne(b);
      if b.number != 0 {
        var r := Range(t.number, t.floor);
        assert r[0] == b.number && r[1..] == Nums(Unwritten(u));
        assert r[1..] == Range(t.number + 1, t.floor);
      }
    }
  }

  // ---------------------------------------------------------------------------------------------
  // Failures and cancelled drains

  /** What a hand-back gives up for good: the batches of the drain without text, and what it evicts. */
  predicate GivesUpNoNumber(t: Terminal)
    requires t.drains != []
  {
    var all := Keep(t.drains[0]) + State(t).retry;
    && (forall b :: b in t.drains[0] && Text(b) == "" ==> b.number == 0)
    && Unnumbered(all[..RetryExcess(all)])
  }

  lemma {:induction false} NumsKeep(bs: seq<Batch>)
    ensures |Nums(Keep(bs))| <= |Nums(bs)|
    ensures if forall b :: b in bs && Text(b) == "" ==> b.number == 0 then Nums(Keep(bs)) == Nums(bs) else |Nums(Keep(bs))| < |Nums(bs)|
  {
    if bs != [] {
      var b := bs[0];
      assert forall c :: c in bs <==> c == b || c in bs[1..];
      NumsKeep(bs[1..]);
      if Text(b) == "" {
        assert Keep(bs) == Keep(bs[1..]);
      } else {
        NumsAppend([b.(status := "")], Keep(bs[1..]));
        NumsOne(b.(status := ""));
      }
    }
  }

  lemma {:induction false} NumsDrop(bs: seq<Batch>, m: nat)
    requires m <= |bs|
    ensures Nums(bs) == Nums(bs[..m]) + Nums(bs[m..])
  {
    assert bs == bs[..m] + bs[m..];
    NumsAppend(bs[..m], bs[m..]);
  }

  /** Dropping `k` batches off the front of two lists in a row. */
  lemma {:induction false} NumsCut(keep: seq<Batch>, retry: seq<Batch>, k: nat)
    requires k <= |keep + retry|
    ensures var m, n := Min(|keep|, k), Max(0, k - |keep|);
      Nums((keep + retry)[..k]) == Nums(keep[..m]) + Nums(retry[..n])
  {
    var m, n := Min(|keep|, k), Max(0, k - |keep|);
    assert (keep + retry)[..k] == keep[..m] + retry[..n];
    NumsAppend(keep[..m], retry[..n]);
  }

  /** What is given up and what is kept of the numbers of a failing drain and of what was handed back before. */
  lemma {:induction false} KeptNums(t: Terminal)
    requires t.drains != []
    ensures var keep, all := Nums(Keep(t.drains[0])), Keep(t.drains[0]) + State(t).retry;
      var gone := Nums(all[..RetryExcess(all)]);
      && |gone| + |Nums(KeptBatches(t))| + |Nums(RetryKept(t))| == |keep| + |Nums(State(t).retry)|
      && (gone == [] ==> Nums(KeptBatches(t)) == keep && Nums(RetryKept(t)) == Nums(State(t).retry))
  {
    var keep, retry := Keep(t.drains[0]), State(t).retry;
    var k := RetryExcess(keep + retry);
    NumsCut(keep, retry, k);
    NumsDrop(keep, Min(|keep|, k));
    NumsDrop(retry, Max(0, k - |keep|));
  }

  lemma {:induction false} NumsAfter(t: Terminal) returns (last: seq<nat>)
    requires Writing(t)
    ensures last == if State(t).lastSeq == 0 then [] else [State(t).lastSeq]
    ensures Nums(Unwritten(Failed(t))) == Nums(Join(t.drains[1..])) + (Nums(KeptBatches(t)) + (Nums(RetryKept(t)) + last))
  {
    var d, ks, rs := Join(t.drains[1..]), KeptBatches(t), RetryKept(t);
    FailedBacklog(t);
    var b := Open(Failed(t).pending.value);
    last := Nums([b]);
    NumsOne(b);
    NumsAppend(d, ks + (rs + [b]));
    NumsAppend(ks, rs + [b]);
    NumsAppend(rs, [b]);
  }

  lemma {:induction false} NumsBefore(t: Terminal, last: seq<nat>)
    requires t.drains != [] && last == if State(t).lastSeq == 0 then [] else [State(t).lastSeq]
    ensures Nums(Unwritten(t)) == Nums(t.drains[0]) + (Nums(Join(t.drains[1..])) + (Nums(State(t).retry) + last))
  {
    var d := Join(t.drains[1..]);
    assert Unwritten(t) == t.drains[0] + (d + Backlog(t.pending)) by { Associate(t.drains[0], d, Backlog(t.pending)); }
    NumsAppend(t.drains[0], d + Backlog(t.pending));
    NumsAppend(d, Backlog(t.pending));
    if t.pending.Some? {
      NumsAppend(State(t).retry, [Open(t.pending.value)]);
      NumsOne(Open(t.pending.value));
    }
  }

  /** Two blocks of a list without repetition may change places only if one of them is empty. */
  lemma {:induction false} NoSwap(a: seq<nat>, b: seq<nat>, c: seq<nat>)
    requires forall i, j :: 0 <= i < j < |a + (b + c)| ==> (a + (b + c))[i] != (a + (b + c))[j]
    ensures b + (a + c) == a + (b + c) <==> a == [] || b == []
  {
    if a == [] {
      assert a + c == c && a + (b + c) == b + c;
    } else if b == [] {
      assert b + c == c && b + (a + c) == a + c;
    } else {
      var ab := a + (b + c);
      assert (b + (a + c))[0] == b[0] && ab[|a|] == b[0] && ab[0] != ab[|a|];
    }
  }

  /** A hand-back leaves no gap exactly when it gives up no number and lets none pass. */
  lemma {:induction false} FailureGaplessIff(t: Terminal)
    requires Gapless(t) && Writing(t)
    ensures Gapless(Failed(t)) <==> GivesUpNoNumber(t) && StepRises(t, WriteFails)
  {
    var last := NumsAfter(t);
    NumsBefore(t, last);
    FailedBacklog(t);
    KeptNums(t);
    NumsKeep(t.drains[0]);
    var all := Keep(t.drains[0]) + State(t).retry;
    NoNums(all[..RetryExcess(all)]);
    NoNums(Join(t.drains[1..]));
    NoNums(KeptBatches(t));
    if GivesUpNoNumber(t) {
      NoSwap(Nums(t.drains[0]), Nums(Join(t.drains[1..])), Nums(State(t).retry) + last);
    } else {
      assert |Nums(Unwritten(Failed(t)))| < |Nums(Unwritten(t))|;
    }
  }

  lemma {:induction false} SendsFailed(t: Terminal)
    requires Sends(t) && Writing(t)
    ensures Sends(Failed(t))
  {
    var u := Failed(t);
    StepCounted(t, WriteFails, 0);
    FailedBacklog(t);
    KeepUnnoted(t.drains[0]);
    var b := Open(u.pending.value);
    forall c | c in Unwritten(u) && c.number != 0 ensures !Void(c) {
      assert c in Join(t.drains[1..]) || c in KeptBatches(t) || c in RetryKept(t) || c == b;
      if c in KeptBatches(t) {
        assert c in Keep(t.drains[0]);
      } else if c == b {
        FailedSends(t);
      } else {
        assert c in RetryKept(t) ==> c in State(t).retry;
        assert c in Unwritten(t);
      }
    }
  }

  lemma {:induction false} FailedSends(t: Terminal)
    requires Sends(t) && Writing(t) && State(t).lastSeq != 0
    ensures !Void(Open(Failed(t).pending.value))
  {
    FailedShape(t);
    assert Open(t.pending.value) in Unwritten(t);
    var p, q := t.pending.value, Failed(t).pending.value;
    assert q.dropped >= p.dropped && q.chunks == p.chunks && (q.status == "" ==> p.status == "");
    assert DropNote(p.dropped) != "" ==> DropNote(q.dropped) != "";
  }

  /** A cancelled drain leaves no gap exactly when it carried no number. */
  lemma {:induction false} CancelGaplessIff(t: Terminal, i: nat)
    requires Gapless(t) && i < |t.drains|
    ensures Gapless(Cancelled(t, i)) <==> Unnumbered(t.drains[i])
  {
    var a, d, b := Join(t.drains[..i]), t.drains[i], Behind(t, i);
    UnwrittenCancelled(t, i);
    NumsAppend(a, d + b);
    NumsAppend(d, b);
    NumsAppend(a, b);
    NoNums(d);
    if Unnumbered(d) { assert Nums(d) + Nums(b) == Nums(b); }
  }

  lemma {:induction false} SendsCancelled(t: Terminal, i: nat)
    requires Sends(t) && i < |t.drains|
    ensures Sends(Cancelled(t, i))
  {
    UnwrittenCancelled(t, i);
    assert forall b :: b in Unwritten(Cancelled(t, i)) ==> b in Unwritten(t);
  }

  // ---------------------------------------------------------------------------------------------
  // Every run

  predicate StepGapless(t: Terminal, op: Op) {
    match op
    case Post(text, status, base) => !Accepts(text, status) || State(t).lastSeq != 0 || Max(base, t.floor) == Max(t.number, t.floor)
    case Flush => true
    case WriteOk => true
    case WriteFails => Writing(t) ==> GivesUpNoNumber(t) && StepRises(t, op)
    case Cancel(i) => i < |t.drains| ==> Unnumbered(t.drains[i])
  }

  /** No post jumps ahead, no hand-back gives up a number or lets one pass, and no cancelled drain carries one. */
  predicate KeepsNumbers(t: Terminal, ops: seq<Op>, limit: nat)
    requires Counted(t)
    decreases |ops|
  {
    ops == [] || (
      && StepGapless(t, ops[0])
      && (StepCounted(t, ops[0], limit); KeepsNumbers(Step(t, ops[0], limit), ops[1..], limit)))
  }

  lemma {:induction false} StepGaplessIff(t: Terminal, op: Op, limit: nat)
    requires Sends(t) && Gapless(t)
    ensures Sends(Step(t, op, limit)) && (Gapless(Step(t, op, limit)) <==> StepGapless(t, op))
  {
    StepCounted(t, op, limit);
    match op
    case Post(text, status, base) =>
      if Accepts(text, status) {
        SendsPosted(t, text, status, base, limit);
        PostGaplessIff(t, text, status, base, limit);
      }
    case Flush => StoredFlushed(t);
    case WriteOk => FramesFollow(t);
    case WriteFails => if Writing(t) { SendsFailed(t); FailureGaplessIff(t); }
    case Cancel(i) => if i < |t.drains| { SendsCancelled(t, i); CancelGaplessIff(t, i); }
  }

  /**
   For every run: after each step the frames to come carry exactly the numbers that follow the row's if and only if no
   step jumps ahead, gives up a number, or lets one pass another.
   */
  lemma {:induction false} GaplessThroughoutIff(t: Terminal, ops: seq<Op>, limit: nat)
    requires Sends(t) && Gapless(t)
    ensures Throughout(t, ops, limit, Gapless) <==> KeepsNumbers(t, ops, limit)
    decreases |ops|
  {
    if ops == [] {
      ThroughoutNothing(t, limit, Gapless);
    } else {
      var u := Step(t, ops[0], limit);
      StepGaplessIff(t, ops[0], limit);
      ThroughoutStep(t, ops, limit, Gapless);
      if StepGapless(t, ops[0]) {
        GaplessThroughoutIff(u, ops[1..], limit);
      } else {
        assert Run(u, ops[1..][..0], limit) == u;
      }
    }
  }

  /** A fresh terminal starts so. */
  lemma {:induction false} FreshIsGapless(number: nat)
    ensures Sends(Fresh(number)) && Gapless(Fresh(number))
  {
  }

  /** A status posted alone whose write fails takes its number with it: the next frame, of text, goes out under 2. */
  lemma {:induction false} StatusLosesNumber(x: string, status: string, limit: nat)
    requires x != "" && status != "" && |x| <= limit
    ensures var t := Failed(Flushed(Posted(Fresh(0), "", status, 0, limit)));
      var u := Written(Flushed(Posted(t, x, "", 0, limit)));
      && t.number == 0 && u.number == 2 && u.log == [One(0, x, 2).(status := status)]
  {
    MarkThenFlush(Fresh(0), status, limit);
    var s, b := Flushed(Posted(Fresh(0), "", status, 0, limit)), Mark(status, 1);
    assert s.drains == [[b]] && [b][1..] == [];
    assert Keep([b]) == [] + [];
    assert LastStatus([b]) == status by { assert LastStatus([b][1..]) == ""; }
    var t := Failed(s);
    assert [] + State(s).retry == [];
    assert t.pending == Some(NewPending().(status := status)) && t.drains == [] && t.accepted == [];
    PostAfterStatus(t, x, status, limit);
  }

  lemma {:induction false} PostAfterStatus(t: Terminal, x: string, status: string, limit: nat)
    requires t.pending == Some(NewPending().(status := status)) && t.drains == [] && t.accepted == [] && t.log == [] && t.floor == 1
    requires x != "" && |x| <= limit
    ensures var u := Written(Flushed(Posted(t, x, "", 0, limit))); u.number == 2 && u.log == [One(0, x, 2).(status := status)]
  {
    var c := Chunk(0, x);
    var u := Posted(t, x, "", 0, limit);
    assert [] + [c] == [c] && [c][1..] == [] && Concat([c]) == x;
    assert u.pending == Some(Pending([], [c], |x|, status, 0, 2));
    var b := One(0, x, 2).(status := status);
    assert [] + [Open(u.pending.value)] == [b];
    assert Flushed(u).drains == [[b]] && Text(b) == x;
    assert [] + [b] == [b];
  }
}
