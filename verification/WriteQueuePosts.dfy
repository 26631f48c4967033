/** The queue's history read off the posts of a run: which status was posted last, which texts were accepted, and what is kept of them. */
module WriteQueuePosts {
  import opened Common
  import opened WriteQueue
  import opened WriteQueueOrder
  import opened WriteQueueNumbers
  import opened WriteQueueLimits

  // ---------------------------------------------------------------------------------------------
  // Statuses

  /** The last status that any of these posts carries; "" when none does. */
  function Newest(ops: seq<Op>): string {
    if ops == [] then ""
    else if Newest(ops[1..]) != "" then Newest(ops[1..])
    else if ops[0].Post? then ops[0].status else ""
  }

  function Latest(ops: seq<Op>, before: string): string {
    if Newest(ops) != "" then Newest(ops) else before
  }

  lemma {:induction false} PostedIsNewest(t: Terminal, ops: seq<Op>, limit: nat)
    requires Counted(t)
    ensures Run(t, ops, limit).posted == Latest(ops, t.posted)
    decreases |ops|
  {
    if ops != [] {
      StepCounted(t, ops[0], limit);
      PostedIsNewest(Step(t, ops[0], limit), ops[1..], limit);
      StepPosts(t, ops[0], limit);
    }
  }

  lemma {:induction false} StepPosts(t: Terminal, op: Op, limit: nat)
    requires Counted(t)
    ensures Step(t, op, limit).posted == if op.Post? && op.status != "" then op.status else t.posted
  {
  }

  /** After each step, the status that will be written last is the last one posted until then. */
  ghost predicate LastPostedWins(t: Terminal, ops: seq<Op>, limit: nat)
    requires Counted(t)
  {
    forall k :: 0 <= k <= |ops| ==> Outcome(Run(t, ops[..k], limit)) == Latest(ops[..k], t.posted)
  }

  /**
   For every run, failures under overlap and cancelled drains included: after each step the status to be written last is
   the one posted last if and only if every failing and every cancelled drain carries no status that a newer one replaced.
   */
  lemma {:induction false} LastPostedWinsIff(t: Terminal, ops: seq<Op>, limit: nat)
    requires StatusInv(t)
    ensures LastPostedWins(t, ops, limit) <==> NoStatusClash(t, ops, limit)
  {
    NewestStatusWinsIff(t, ops, limit);
    forall k | 0 <= k <= |ops| ensures Run(t, ops[..k], limit).posted == Latest(ops[..k], t.posted) {
      PostedIsNewest(t, ops[..k], limit);
    }
    if Throughout(t, ops, limit, NewestLast) {
      forall k | 0 <= k <= |ops| ensures Outcome(Run(t, ops[..k], limit)) == Latest(ops[..k], t.posted) {
        assert NewestLast(Run(t, ops[..k], limit));
      }
    }
    if LastPostedWins(t, ops, limit) {
      forall k | 0 <= k <= |ops| ensures NewestLast(Run(t, ops[..k], limit)) {
        assert Outcome(Run(t, ops[..k], limit)) == Latest(ops[..k], t.posted);
      }
    }
  }

  /** With everything written, the status of the row is the last one posted. */
  lemma {:induction false} RowEndsWithLastPosted(number: nat, ops: seq<Op>, limit: nat)
    requires NoStatusClash(Fresh(number), ops, limit)
    ensures var t := Run(Fresh(number), ops, limit); t.pending.None? && t.drains == [] ==> LastStatus(t.log) == Newest(ops)
  {
    var t := Run(Fresh(number), ops, limit);
    LastPostedWinsIff(Fresh(number), ops, limit);
    assert ops[..|ops|] == ops;
    if t.pending.None? && t.drains == [] { assert All(t) == t.log; }
  }

  // ---------------------------------------------------------------------------------------------
  // Texts

  /** The texts that were posted, in order; a post without text adds none. */
  function PostedTexts(ops: seq<Op>): seq<string> {
    if ops == [] then [] else (if ops[0].Post? && ops[0].text != "" then [ops[0].text] else []) + PostedTexts(ops[1..])
  }

  function Glue(texts: seq<string>): string {
    if texts == [] then "" else texts[0] + Glue(texts[1..])
  }

  /** `cs` holds exactly these texts, in this order. */
  predicate Holds(cs: seq<Chunk>, texts: seq<string>) {
    |cs| == |texts| && forall i :: 0 <= i < |cs| ==> cs[i].text == texts[i]
  }

  lemma {:induction false} StepAccepts(t: Terminal, op: Op, limit: nat)
    requires Counted(t)
    ensures var u := Step(t, op, limit);
      u.accepted == t.accepted + if op.Post? && op.text != "" then [Chunk(|t.accepted|, op.text)] else []
  {
    assert t.accepted + [] == t.accepted;
  }

  /** What a run accepts are the texts posted in it. */
  lemma {:induction false} AcceptedArePosted(t: Terminal, ops: seq<Op>, limit: nat, before: seq<string>)
    requires Counted(t) && Holds(t.accepted, before)
    ensures Holds(Run(t, ops, limit).accepted, before + PostedTexts(ops))
    decreases |ops|
  {
    if ops == [] {
      assert before + [] == before;
    } else {
      var u := Step(t, ops[0], limit);
      StepCounted(t, ops[0], limit);
      StepAccepts(t, ops[0], limit);
      var more := if ops[0].Post? && ops[0].text != "" then [ops[0].text] else [];
      assert Holds(u.accepted, before + more);
      AcceptedArePosted(u, ops[1..], limit, before + more);
      Associate(before, more, PostedTexts(ops[1..]));
    }
  }

  lemma {:induction false} GluedText(cs: seq<Chunk>, texts: seq<string>)
    requires Holds(cs, texts)
    ensures Concat(cs) == Glue(texts)
  {
    if cs != [] {
      forall i | 0 <= i < |cs[1..]| ensures cs[1..][i].text == texts[1..][i] { assert cs[1..][i] == cs[i+1] && texts[1..][i] == texts[i+1]; }
      GluedText(cs[1..], texts[1..]);
    }
  }

  /** In every run whose failures let nothing pass: at rest with nothing removed, the row is the posted texts one after the other. */
  lemma {:induction false} RowIsWhatWasPosted(number: nat, ops: seq<Op>, limit: nat)
    requires FailsInOrder(Fresh(number), ops, limit)
    ensures var t := Run(Fresh(number), ops, limit);
      t.pending.None? && t.drains == [] && t.dropped == [] && t.lost == [] ==> RowText(t.log) == Glue(PostedTexts(ops))
  {
    StoredInPostingOrder(number, ops, limit);
    AcceptedArePosted(Fresh(number), ops, limit, []);
    assert [] + PostedTexts(ops) == PostedTexts(ops);
    GluedText(Run(Fresh(number), ops, limit).accepted, PostedTexts(ops));
  }

  // ---------------------------------------------------------------------------------------------
  // The two bounds

  /** What waits to be batched fits in the limit, and at most 32 batches wait to be written again. */
  ghost predicate Bounded(t: Terminal, limit: nat) {
    Counted(t) && |Concat(State(t).chunks)| <= limit && |State(t).retry| <= 32
  }

  lemma {:induction false} TrimmedFits(cs: seq<Chunk>, limit: nat)
    ensures |Concat(cs[Excess(cs, |Concat(cs)|, limit)..])| <= limit
  {
    ExcessIsLeast(cs, limit);
    var k := Excess(cs, |Concat(cs)|, limit);
    if k == |cs| { assert cs[k..] == []; }
  }

  lemma {:induction false} PostedChunks(t: Terminal, text: string, status: string, base: int, limit: nat)
    requires Counted(t)
    ensures var u, cs := Posted(t, text, status, base, limit), State(t).chunks + [Chunk(|t.accepted|, text)];
      && State(u).retry == State(t).retry
      && State(u).chunks == if text == "" then State(t).chunks else cs[Excess(cs, |Concat(cs)|, limit)..]
  {
    LengthOfAppend(State(t).chunks, Chunk(|t.accepted|, text));
  }

  lemma {:induction false} PostBounded(t: Terminal, text: string, status: string, base: int, limit: nat)
    requires Bounded(t, limit)
    ensures Bounded(Posted(t, text, status, base, limit), limit)
  {
    StepCounted(t, Post(text, status, base), limit);
    PostedChunks(t, text, status, base, limit);
    TrimmedFits(State(t).chunks + [Chunk(|t.accepted|, text)], limit);
  }

  lemma {:induction false} StepBounded(t: Terminal, op: Op, limit: nat)
    requires Bounded(t, limit)
    ensures Bounded(Step(t, op, limit), limit)
  {
    StepCounted(t, op, limit);
    match op
    case Post(text, status, base) => PostBounded(t, text, status, base, limit);
    case Flush =>
    case WriteOk =>
    case WriteFails => if Writing(t) { FailedShape(t); }
    case Cancel(i) =>
  }

  /** Whatever happens, the queue never holds more of a terminal than that. */
  lemma {:induction false} RunBounded(number: nat, ops: seq<Op>, limit: nat)
    ensures Bounded(Run(Fresh(number), ops, limit), limit)
  {
    StaysBounded(Fresh(number), ops, limit);
  }

  lemma {:induction false} StaysBounded(t: Terminal, ops: seq<Op>, limit: nat)
    requires Bounded(t, limit)
    ensures Bounded(Run(t, ops, limit), limit)
    decreases |ops|
  {
    if ops != [] {
      StepBounded(t, ops[0], limit);
      StaysBounded(Step(t, ops[0], limit), ops[1..], limit);
    }
  }

  // ---------------------------------------------------------------------------------------------
  // The number in a note

  function Value(digits: string): int {
    if digits == "" then 0 else 10 * Value(digits[..|digits|-1]) + (digits[|digits|-1] as int - '0' as int)
  }

  /** The digits of a number say it: read from left to right they give it back. */
  lemma {:induction false} DecimalReadsBack(n: nat)
    ensures Value(Decimal(n)) == n && Decimal(n) != "" && forall i :: 0 <= i < |Decimal(n)| ==> '0' <= Decimal(n)[i] <= '9'
  {
    if n >= 10 {
      DecimalReadsBack(n / 10);
      var d := Decimal(n);
      assert d[..|d|-1] == Decimal(n / 10);
    }
  }

  /** The number a note of this shape gives. */
  function Announces(note: string): int {
    if |note| < 20 + 37 then 0 else Value(note[20..|note|-37])
  }

  /** The note of a batch says how many characters it stands for, in the words a reader sees. */
  lemma {:induction false} NoteSaysHowMany(n: nat)
    requires n > 0
    ensures var note := DropNote(n);
      && note[..20] == "[aify-comms dropped " && note[|note|-37..] == " chars from terminal output backlog]\n"
      && Announces(note) == n
  {
    DecimalReadsBack(n);
    var note := DropNote(n);
    assert |NOTE_HEAD| == 20 && |NOTE_TAIL| == 37;
    assert note[..20] == NOTE_HEAD;
    assert note[|note|-37..] == NOTE_TAIL && note[20..|note|-37] == Decimal(n);
  }

  /** Every batch, wherever it is, carries the note of the number it stands for. */
  ghost predicate RightNotes(t: Terminal) {
    Counted(t) && forall b :: b in All(t) ==> b.note == DropNote(b.omitted)
  }

  lemma {:induction false} KeepNotes(bs: seq<Batch>)
    requires forall b :: b in bs ==> b.note == DropNote(b.omitted)
    ensures forall b :: b in Keep(bs) ==> b.note == DropNote(b.omitted)
  {
    if bs != [] {
      assert bs[0] in bs && forall b :: b in bs[1..] ==> b in bs;
      KeepNotes(bs[1..]);
    }
  }

  lemma {:induction false} FailedNotes(t: Terminal)
    requires RightNotes(t) && Writing(t)
    ensures RightNotes(Failed(t))
  {
    var u := Failed(t);
    StepCounted(t, WriteFails, 0);
    FailedBacklog(t);
    assert forall b :: b in t.drains[0] ==> b in Join(t.drains) && b in All(t);
    KeepNotes(t.drains[0]);
    forall b | b in All(u) ensures b.note == DropNote(b.omitted) {
      assert b in t.log || b in Join(t.drains[1..]) || b in KeptBatches(t) || b in RetryKept(t) || b == Open(u.pending.value);
      assert b in KeptBatches(t) ==> b in Keep(t.drains[0]);
      assert b in RetryKept(t) ==> b in State(t).retry && b in Backlog(t.pending);
      assert b in t.log || b in Join(t.drains[1..]) ==> b in All(t);
    }
  }

  lemma {:induction false} WrittenNotes(t: Terminal)
    requires RightNotes(t)
    ensures RightNotes(Written(t))
  {
    var u := Written(t);
    if t.drains != [] && t.drains[0] != [] {
      NextUnwritten(t);
      assert t.drains[0][0] in All(t) && forall b :: b in All(u) ==> b in All(t) || b == t.drains[0][0];
    } else if t.drains != [] {
      assert All(u) == All(t);
    }
  }

  lemma {:induction false} StepNotesRight(t: Terminal, op: Op, limit: nat)
    requires RightNotes(t)
    ensures RightNotes(Step(t, op, limit))
  {
    StepCounted(t, op, limit);
    match op
    case Post(text, status, base) => PostedChunks(t, text, status, base, limit);
    case Flush => StoredFlushed(t);
    case WriteOk => WrittenNotes(t);
    case WriteFails => if Writing(t) { FailedNotes(t); }
    case Cancel(i) =>
      if i < |t.drains| {
        UnwrittenCancelled(t, i);
        assert forall b :: b in All(Cancelled(t, i)) ==> b in All(t);
      }
  }

  lemma {:induction false} NotesStayRight(t: Terminal, ops: seq<Op>, limit: nat)
    requires RightNotes(t)
    ensures RightNotes(Run(t, ops, limit))
    decreases |ops|
  {
    if ops != [] {
      StepNotesRight(t, ops[0], limit);
      NotesStayRight(Step(t, ops[0], limit), ops[1..], limit);
    }
  }

  /** In every run, the note of each batch in the row, where there is one, announces the number the batch stands for. */
  lemma {:induction false} StoredNotesSayHowMany(number: nat, ops: seq<Op>, limit: nat, b: Batch)
    requires b in Run(Fresh(number), ops, limit).log
    ensures if b.omitted == 0 then b.note == "" else b.note != "" && Announces(b.note) == b.omitted
  {
    NotesStayRight(Fresh(number), ops, limit);
    assert b in All(Run(Fresh(number), ops, limit));
    if b.omitted > 0 { NoteSaysHowMany(b.omitted); }
  }
}
