/** What the drop notes of the row announce, against what the queue dropped. */
module WriteQueueNotes {
  import opened Common
  import opened WriteQueue
  import opened WriteQueueOrder
  import opened WriteQueueNumbers
  import opened WriteQueueLimits

  function Announced(bs: seq<Batch>): nat {
    if bs == [] then 0 else bs[0].omitted + Announced(bs[1..])
  }

  function NoteLength(bs: seq<Batch>): nat {
    if bs == [] then 0 else |bs[0].note| + NoteLength(bs[1..])
  }

  predicate WellNoted(bs: seq<Batch>) {
    forall b :: b in bs ==> (b.note == "" <==> b.omitted == 0)
  }

  /** What the notes in the row and those still to be written announce, against the characters the bounds removed. */
  predicate Announces(t: Terminal) {
    Announced(All(t)) == |Concat(t.dropped)|
  }

  predicate NoteInv(t: Terminal) {
    Counted(t) && WellNoted(All(t)) && Announces(t)
  }

  lemma {:induction false} AnnouncedAppend(a: seq<Batch>, b: seq<Batch>)
    ensures Announced(a + b) == Announced(a) + Announced(b)
  {
    if a == [] {
      assert a + b == b;
    } else {
      assert (a + b)[1..] == a[1..] + b;
      AnnouncedAppend(a[1..], b);
    }
  }

  lemma {:induction false} AnnouncedKeep(bs: seq<Batch>)
    requires WellNoted(bs)
    ensures Announced(Keep(bs)) == Announced(bs) && WellNoted(Keep(bs))
  {
    if bs != [] {
      assert bs[0] in bs && forall b :: b in bs[1..] ==> b in bs;
      AnnouncedKeep(bs[1..]);
      if Text(bs[0]) == "" {
        assert Keep(bs) == Keep(bs[1..]);
      } else {
        var b := bs[0].(status := "");
        AnnouncedAppend([b], Keep(bs[1..]));
        assert [b][1..] == [];
      }
    }
  }

  /** What an eviction adds to the count: the texts of the batches, notes included. */
  lemma {:induction false} TextLengthParts(bs: seq<Batch>)
    ensures TextLength(bs) == NoteLength(bs) + |Concat(Flat(bs))|
  {
    if bs != [] {
      TextLengthParts(bs[1..]);
      ConcatAppend(bs[0].chunks, Flat(bs[1..]));
    }
  }

  lemma {:induction false} Tally(t: Terminal)
    ensures Announced(All(t)) == Announced(t.log) + Announced(Join(t.drains)) + Announced(State(t).retry) + State(t).dropped
  {
    AnnouncedAppend(t.log, Unwritten(t));
    AnnouncedAppend(Join(t.drains), Backlog(t.pending));
    if t.pending.Some? {
      var b := Open(t.pending.value);
      AnnouncedAppend(t.pending.value.retry, [b]);
      assert [b][1..] == [];
    }
  }

  /** The batches a hand-back pushes out. */
  function Evicted(t: Terminal): seq<Batch>
    requires t.drains != []
  {
    var all := Keep(t.drains[0]) + State(t).retry;
    all[..RetryExcess(all)]
  }

  lemma {:induction false} AnnouncedSplit(all: seq<Batch>, k: nat)
    requires k <= |all|
    ensures Announced(all) == Announced(all[..k]) + Announced(all[k..])
  {
    AnnouncedAppend(all[..k], all[k..]);
    assert all == all[..k] + all[k..];
  }

  lemma {:induction false} FailedTally(t: Terminal)
    requires Writing(t) && WellNoted(All(t))
    ensures Announced(All(Failed(t))) == Announced(All(t)) + TextLength(Evicted(t)) - Announced(Evicted(t))
  {
    FailedShape(t);
    var u := Failed(t);
    var all := Keep(t.drains[0]) + State(t).retry;
    var k := RetryExcess(all);
    assert State(u).dropped == State(t).dropped + TextLength(all[..k]);
    Tally(t);
    Tally(u);
    AnnouncedSplit(all, k);
    AnnouncedAppend(Keep(t.drains[0]), State(t).retry);
    AnnouncedAppend(t.drains[0], Join(t.drains[1..]));
    assert forall b :: b in t.drains[0] ==> b in Join(t.drains) && b in All(t);
    AnnouncedKeep(t.drains[0]);
  }

  /**
   After a hand-back the notes still announce exactly what was dropped if and only if the notes of the evicted
   batches are together as long as the number they announced: an evicted note is counted by its own length.
   */
  lemma {:induction false} EvictionAnnouncesIff(t: Terminal)
    requires Writing(t) && NoteInv(t)
    ensures Announces(Failed(t)) <==> NoteLength(Evicted(t)) == Announced(Evicted(t))
  {
    FailedShape(t);
    FailedTally(t);
    TextLengthParts(Evicted(t));
    ConcatAppend(t.dropped, Flat(Evicted(t)));
  }

  /** A cancelled drain takes its notes with it: what is left still announces every drop exactly when it carried none. */
  lemma {:induction false} CancelAnnouncesIff(t: Terminal, i: nat)
    requires NoteInv(t) && i < |t.drains|
    ensures WellNoted(All(Cancelled(t, i)))
    ensures Announces(Cancelled(t, i)) <==> Announced(t.drains[i]) == 0
  {
    var front, d, rest := t.log + Join(t.drains[..i]), t.drains[i], Behind(t, i);
    UnwrittenCancelled(t, i);
    assert All(t) == front + (d + rest);
    assert All(Cancelled(t, i)) == front + rest;
    assert forall b :: b in front + rest ==> b in All(t);
    AnnouncedAppend(front, d + rest);
    AnnouncedAppend(d, rest);
    AnnouncedAppend(front, rest);
  }

  predicate StepKeepsNotes(t: Terminal, op: Op) {
    && (op.WriteFails? && Writing(t) ==> NoteLength(Evicted(t)) == Announced(Evicted(t)))
    && (op.Cancel? && op.drain < |t.drains| ==> Announced(t.drains[op.drain]) == 0)
  }

  /** Along the run no cancelled drain carries a note, and no hand-back evicts notes whose length differs from their number. */
  predicate NotesKept(t: Terminal, ops: seq<Op>, limit: nat)
    requires Counted(t)
    decreases |ops|
  {
    ops == [] || (
      && StepKeepsNotes(t, ops[0])
      && (StepCounted(t, ops[0], limit); NotesKept(Step(t, ops[0], limit), ops[1..], limit)))
  }

  lemma {:induction false} DropNoteEmpty(n: nat)
    ensures DropNote(n) == "" <==> n == 0
  {
  }

  lemma {:induction false} PostedNoted(t: Terminal, text: string, status: string, base: int, limit: nat)
    requires Counted(t) && WellNoted(All(t))
    ensures WellNoted(All(Posted(t, text, status, base, limit)))
  {
  }

  lemma {:induction false} NotesPosted(t: Terminal, text: string, status: string, base: int, limit: nat)
    requires NoteInv(t)
    ensures NoteInv(Posted(t, text, status, base, limit))
  {
    var u := Posted(t, text, status, base, limit);
    StepCounted(t, Post(text, status, base), limit);
    PostedNoted(t, text, status, base, limit);
    Tally(t);
    Tally(u);
    var cs := State(t).chunks + [Chunk(|t.accepted|, text)];
    var k := if text == "" then 0 else Excess(cs, State(t).chars + |text|, limit);
    assert (text == "" && status == "") || u.dropped == t.dropped + cs[..k];
    ConcatAppend(t.dropped, cs[..k]);
    assert State(u).dropped == State(t).dropped + if text == "" && status == "" then 0 else |Concat(cs[..k])|;
  }

  lemma {:induction false} NotesFailed(t: Terminal)
    requires NoteInv(t) && Writing(t)
    ensures WellNoted(All(Failed(t)))
  {
    FailedShape(t);
    var u := Failed(t);
    DropNoteEmpty(u.pending.value.dropped);
    assert forall b :: b in t.drains[0] ==> b in Join(t.drains) && b in All(t);
    AnnouncedKeep(t.drains[0]);
    var all := Keep(t.drains[0]) + State(t).retry;
    forall b | b in All(u) ensures b.note == "" <==> b.omitted == 0 {
      assert b in All(t) || b in all || b == Open(u.pending.value);
      assert b in State(t).retry ==> b in Backlog(t.pending);
    }
  }

  /** A batch that moves from the queue to the log is announced once, before and after. */
  lemma {:induction false} AnnouncedMoves(log: seq<Batch>, b: Batch, rest: seq<Batch>)
    ensures Announced(log + ([b] + rest)) == Announced((log + [b]) + rest)
    ensures Announced(log + ([b] + rest)) == Announced(log) + Announced([b]) + Announced(rest)
    ensures Announced(log + rest) == Announced(log) + Announced(rest)
  {
    AnnouncedAppend(log, [b] + rest);
    AnnouncedAppend([b], rest);
    AnnouncedAppend(log, rest);
    assert log + ([b] + rest) == (log + [b]) + rest;
  }

  lemma {:induction false} NoteWritten(t: Terminal)
    requires t.drains != [] && t.drains[0] != [] && WellNoted(All(t))
    ensures Announced(All(Written(t))) == Announced(All(t)) && WellNoted(All(Written(t)))
  {
    var u := Written(t);
    var b := t.drains[0][0];
    NextUnwritten(t);
    assert b in All(t);
    AnnouncedMoves(t.log, b, Unwritten(u));
    if Void(b) {
      assert [b][1..] == [];
    } else {
      assert All(u) == All(t);
    }
  }

  lemma {:induction false} NotesWritten(t: Terminal)
    requires NoteInv(t)
    ensures NoteInv(Written(t))
  {
    var u := Written(t);
    if t.drains != [] && t.drains[0] != [] {
      NoteWritten(t);
    } else if t.drains != [] {
      assert All(u) == All(t);
    }
  }

  lemma {:induction false} StepNotes(t: Terminal, op: Op, limit: nat)
    requires NoteInv(t)
    ensures Counted(Step(t, op, limit)) && WellNoted(All(Step(t, op, limit)))
    ensures Announces(Step(t, op, limit)) <==> StepKeepsNotes(t, op)
  {
    StepCounted(t, op, limit);
    match op
    case Post(text, status, base) => NotesPosted(t, text, status, base, limit);
    case Flush => StoredFlushed(t);
    case WriteOk => NotesWritten(t);
    case WriteFails => if Writing(t) { EvictionAnnouncesIff(t); NotesFailed(t); }
    case Cancel(i) => if i < |t.drains| { CancelAnnouncesIff(t, i); }
  }

  /** For every run: the notes announce exactly the characters the two bounds removed, after each step, if and only if every step keeps them so. */
  lemma {:induction false} NotesAnnounceDropsIff(t: Terminal, ops: seq<Op>, limit: nat)
    requires NoteInv(t)
    ensures Throughout(t, ops, limit, Announces) <==> NotesKept(t, ops, limit)
    decreases |ops|
  {
    if ops == [] {
      ThroughoutNothing(t, limit, Announces);
    } else {
      var u := Step(t, ops[0], limit);
      StepNotes(t, ops[0], limit);
      ThroughoutStep(t, ops, limit, Announces);
      if StepKeepsNotes(t, ops[0]) {
        NotesAnnounceDropsIff(u, ops[1..], limit);
      } else {
        assert Run(u, ops[1..][..0], limit) == u;
      }
    }
  }

  // ---------------------------------------------------------------------------------------------
  // A run that evicts a note

  /** `n` posts of `text`, each flushed at once, every write failing. */
  function Failing(text: string, n: nat): seq<Op> {
    if n == 0 then [] else [Post(text, "", 0), Flush, WriteFails] + Failing(text, n - 1)
  }

  predicate Full(bs: seq<Batch>) {
    forall b :: b in bs ==> Text(b) != "" && b.status == ""
  }

  /** No drain is outstanding and the row is empty; `bs` wait to be written again, and `n` characters to be announced. */
  predicate Holds(t: Terminal, bs: seq<Batch>, n: nat) {
    t.drains == [] && t.log == [] && State(t) == Pending(bs, [], 0, "", n, 0)
  }

  lemma {:induction false} KeepFull(bs: seq<Batch>)
    requires Full(bs)
    ensures Keep(bs) == bs && LastStatus(bs) == ""
  {
    if bs != [] {
      assert bs[0] in bs && forall b :: b in bs[1..] ==> b in bs;
      KeepFull(bs[1..]);
      assert bs == [bs[0]] + bs[1..];
    }
  }

  lemma {:induction false} FailedRound(t: Terminal, d: seq<Batch>)
    requires t.drains == [d] && t.log == [] && t.pending.None? && d != [] && Full(d)
    ensures var u, k := Failed(t), RetryExcess(d);
      Holds(u, d[k..], TextLength(d[..k])) && u.dropped == t.dropped + Flat(d[..k])
  {
    KeepFull(d);
    assert d[0] in d;
    assert d + [] == d;
    assert [d][1..] == [];
  }

  /** The batch that a post of `text` opens and a flush closes. */
  function Closed(t: Terminal, text: string, limit: nat): Batch {
    if |text| > limit then Batch(DropNote(|text|), |text|, [], "", Max(0, t.floor) + 1) else One(|t.accepted|, text, Max(0, t.floor) + 1)
  }

  lemma {:induction false} PostedAndFlushed(t: Terminal, bs: seq<Batch>, text: string, limit: nat)
    requires Holds(t, bs, 0) && text != ""
    ensures var u := Flushed(Posted(t, text, "", 0, limit));
      && u.drains == [bs + [Closed(t, text, limit)]] && u.log == [] && u.pending.None?
      && u.dropped == t.dropped + if |text| > limit then [Chunk(|t.accepted|, text)] else []
  {
    var c := Chunk(|t.accepted|, text);
    assert [] + [c] == [c] && [c][1..] == [] && Concat([c]) == text;
    var k := if |text| > limit then 1 else 0;
    assert Excess([c], |text|, limit) == k;
    assert [c][..k] == (if k == 1 then [c] else []) && [c][k..] == (if k == 1 then [] else [c]);
  }

  lemma {:induction false} RunRound(t: Terminal, text: string, rest: seq<Op>, limit: nat)
    requires Counted(t)
    ensures var u := Failed(Flushed(Posted(t, text, "", 0, limit)));
      Counted(u) && Run(t, [Post(text, "", 0), Flush, WriteFails] + rest, limit) == Run(u, rest, limit)
  {
    var a, b, c := Post(text, "", 0), Flush, WriteFails;
    RunOne(t, a, [b, c] + rest, limit);
    RunOne(Step(t, a, limit), b, [c] + rest, limit);
    RunOne(Step(Step(t, a, limit), b, limit), c, rest, limit);
    assert [a] + ([b, c] + rest) == [a, b, c] + rest && [b] + ([c] + rest) == [b, c] + rest;
  }

  lemma {:induction false} RunOne(t: Terminal, op: Op, rest: seq<Op>, limit: nat)
    requires Counted(t)
    ensures Counted(Step(t, op, limit)) && Run(t, [op] + rest, limit) == Run(Step(t, op, limit), rest, limit)
  {
    StepCounted(t, op, limit);
    assert ([op] + rest)[1..] == rest;
  }

  lemma {:induction false} Round(t: Terminal, bs: seq<Batch>, text: string, limit: nat)
    requires Holds(t, bs, 0) && Full(bs) && text != ""
    ensures var u, b := Failed(Flushed(Posted(t, text, "", 0, limit))), Closed(t, text, limit);
      var k := RetryExcess(bs + [b]);
      && Full(bs + [b]) && Holds(u, (bs + [b])[k..], TextLength((bs + [b])[..k]))
      && u.dropped == t.dropped + (if |text| > limit then [Chunk(|t.accepted|, text)] else []) + Flat((bs + [b])[..k])
  {
    PostedAndFlushed(t, bs, text, limit);
    var b := Closed(t, text, limit);
    assert Text(b) != "" by {
      DropNoteEmpty(|text|);
      assert [Chunk(|t.accepted|, text)][1..] == [];
    }
    FailedRound(Flushed(Posted(t, text, "", 0, limit)), bs + [b]);
  }

  ghost predicate Piled(t: Terminal, bs: seq<Batch>, dropped: seq<Chunk>) {
    Counted(t) && Holds(t, bs, 0) && Full(bs) && t.dropped == dropped
  }

  lemma {:induction false} RoundFits(t: Terminal, bs: seq<Batch>, text: string, n: nat, limit: nat) returns (u: Terminal, b: Batch)
    requires Piled(t, bs, t.dropped) && 0 < |text| <= limit && |bs| < MAX_RETRY_BATCHES && n > 0
    ensures Piled(u, bs + [b], t.dropped) && b.omitted == 0
    ensures Run(t, Failing(text, n), limit) == Run(u, Failing(text, n - 1), limit)
  {
    u, b := Failed(Flushed(Posted(t, text, "", 0, limit))), Closed(t, text, limit);
    RunRound(t, text, Failing(text, n - 1), limit);
    Round(t, bs, text, limit);
    assert (bs + [b])[0..] == bs + [b] && (bs + [b])[..0] == [];
  }

  /** As long as they fit in the retry list, failing batches pile up behind those already held. */
  lemma {:induction false} FailingPilesUp(t: Terminal, bs: seq<Batch>, text: string, n: nat, limit: nat) returns (more: seq<Batch>)
    requires Piled(t, bs, t.dropped) && 0 < |text| <= limit && |bs| + n <= MAX_RETRY_BATCHES
    ensures Piled(Run(t, Failing(text, n), limit), bs + more, t.dropped)
    ensures |more| == n && Announced(more) == 0
    decreases n
  {
    if n == 0 {
      more := [];
      assert bs + more == bs;
    } else {
      var u, b := RoundFits(t, bs, text, n, limit);
      var later := FailingPilesUp(u, bs + [b], text, n - 1, limit);
      more := [b] + later;
      Associate(bs, [b], later);
      NoteThenMore(b, later);
    }
  }

  /** The first post is too long and leaves only its note behind. */
  lemma {:induction false} NoteAlone(x: string, limit: nat)
    requires |x| > limit
    ensures var t := Run(Fresh(0), Failing(x, 1), limit);
      Holds(t, [Batch(DropNote(|x|), |x|, [], "", 1)], 0) && t.dropped == [Chunk(0, x)]
  {
    var t, b := Fresh(0), Closed(Fresh(0), x, limit);
    Round(t, [], x, limit);
    RunRound(t, x, [], limit);
    assert Failing(x, 1) == [Post(x, "", 0), Flush, WriteFails] + [];
    assert [] + [b] == [b] && [b][0..] == [b] && [b][..0] == [];
  }

  lemma {:induction false} HeldNotes(t: Terminal, bs: seq<Batch>, n: nat)
    requires Holds(t, bs, n)
    ensures Announced(All(t)) == Announced(bs) + n
  {
    Tally(t);
  }

  lemma {:induction false} NoteThenMore(note: Batch, more: seq<Batch>)
    ensures Announced([note] + more) == note.omitted + Announced(more)
  {
    assert ([note] + more)[1..] == more;
  }

  /**
   An over-long post leaves a note, and its writes keep failing while further posts join it. With the thirty-third
   batch the note itself is evicted and counted by its own length: the notes then announce that length, not what was dropped.
   */
  lemma {:induction false} EvictedNoteMisleads(x: string, y: string, limit: nat)
    requires |x| > limit && 0 < |y| <= limit && |DropNote(|x|)| != |x|
    ensures var before := Failing(x, 1) + Failing(y, MAX_RETRY_BATCHES - 1);
      && Announces(Run(Fresh(0), before, limit))
      && !Announces(Run(Fresh(0), before + Failing(y, 1), limit))
  {
    var before := Failing(x, 1) + Failing(y, MAX_RETRY_BATCHES - 1);
    var note := Batch(DropNote(|x|), |x|, [], "", 1);
    NoteAlone(x, limit);
    DropNoteEmpty(|x|);
    var t1 := Run(Fresh(0), Failing(x, 1), limit);
    var more := FailingPilesUp(t1, [note], y, MAX_RETRY_BATCHES - 1, limit);
    RunJoin(Fresh(0), Failing(x, 1), Failing(y, MAX_RETRY_BATCHES - 1), limit);
    RunJoin(Fresh(0), before, Failing(y, 1), limit);
    var t2 := Run(Fresh(0), before, limit);
    HeldNotes(t2, [note] + more, 0);
    NoteThenMore(note, more);
    assert Concat([Chunk(0, x)]) == x by { assert [Chunk(0, x)][1..] == []; }
    LastRound(t2, note, more, x, y, limit);
  }

  lemma {:induction false} LastRound(t: Terminal, note: Batch, more: seq<Batch>, x: string, y: string, limit: nat)
    requires Counted(t) && Holds(t, [note] + more, 0) && Full([note] + more) && |more| == MAX_RETRY_BATCHES - 1 && Announced(more) == 0
    requires 0 < |y| <= limit && note.chunks == [] && t.dropped == [Chunk(0, x)] && |note.note| != |x|
    ensures !Announces(Run(t, Failing(y, 1), limit))
  {
    var b, u := Closed(t, y, limit), Failed(Flushed(Posted(t, y, "", 0, limit)));
    Round(t, [note] + more, y, limit);
    RunRound(t, y, [], limit);
    assert Failing(y, 1) == [Post(y, "", 0), Flush, WriteFails] + [];
    var all := [note] + more + [b];
    assert all[..1] == [note] && all[1..] == more + [b];
    assert [note][1..] == [] && TextLength([note]) == |note.note| && Flat([note]) == [];
    HeldNotes(u, more + [b], |note.note|);
    AnnouncedAppend(more, [b]);
    assert [b][1..] == [];
    assert Concat([Chunk(0, x)]) == x by { assert [Chunk(0, x)][1..] == []; }
    assert u.dropped == [Chunk(0, x)];
  }
}
