/**
 The terminal-output write queue, one terminal at a time.

 Every critical section of the source runs without an await, so it is one atomic step here, and a write
 is one atomic commit or rollback. When a flush starts is left free: the timers of the source only choose
 the moment of a `Flush` step. A chunk carries the position of its post among the accepted ones; that
 number steers nothing and is only used to say which post a stored character came from.
 */
module WriteQueue {
  import opened Common

  const MAX_RETRY_BATCHES: nat := 32
  const NOTE_HEAD: string := "[aify-comms dropped "
  const NOTE_TAIL: string := " chars from terminal output backlog]\n"

  datatype Chunk = Chunk(id: nat, text: string)

  /** One frame: its drop note and the number of characters it announces, its chunks, a status, and the number it is published under. */
  datatype Batch = Batch(note: string, omitted: nat, chunks: seq<Chunk>, status: string, number: nat)

  datatype Pending = Pending(retry: seq<Batch>, chunks: seq<Chunk>, chars: nat, status: string, dropped: nat, lastSeq: nat)

  /**
   What the queue, the outstanding drains and the row hold for one terminal.
   `drains` are the flushes that popped a state and have not finished, in the order they wait for the
   write lock; `log` and `number` are the row. The remaining fields are history: every accepted chunk, the
   chunks the two bounds removed, the chunks of cancelled drains, the text published under each number, and the newest status posted.
   */
  datatype Terminal = Terminal(
    pending: Option<Pending>, floor: nat, drains: seq<seq<Batch>>, log: seq<Batch>, number: nat,
    accepted: seq<Chunk>, dropped: seq<Chunk>, lost: seq<Chunk>, published: map<nat, string>, posted: string)

  datatype Op =
    | Post(text: string, status: string, base: int)
    | Flush
    | WriteOk
    | WriteFails
    | Cancel(drain: nat)

  function Fresh(number: nat): Terminal {
    Terminal(None, 0, [], [], number, [], [], [], map[], "")
  }

  // ---------------------------------------------------------------------------------------------
  // Text of chunks and batches

  function Concat(cs: seq<Chunk>): string {
    if cs == [] then "" else cs[0].text + Concat(cs[1..])
  }

  function Text(b: Batch): string {
    b.note + Concat(b.chunks)
  }

  function TextLength(bs: seq<Batch>): nat {
    if bs == [] then 0 else |Text(bs[0])| + TextLength(bs[1..])
  }

  predicate Void(b: Batch) {
    Text(b) == "" && b.status == ""
  }

  function DropNote(n: nat): string {
    if n == 0 then "" else NOTE_HEAD + Decimal(n) + NOTE_TAIL
  }

  /** The chunks of a list of batches, in order. */
  function Flat(bs: seq<Batch>): seq<Chunk> {
    if bs == [] then [] else bs[0].chunks + Flat(bs[1..])
  }

  function FlatDrains(ds: seq<seq<Batch>>): seq<Chunk> {
    if ds == [] then [] else Flat(ds[0]) + FlatDrains(ds[1..])
  }

  function Waiting(p: Option<Pending>): seq<Chunk> {
    if p.None? then [] else Flat(p.value.retry) + p.value.chunks
  }

  /** Everything that is still in the row, in a drain, handed back or pending, in the order it would reach the row. */
  function Live(t: Terminal): seq<Chunk> {
    Flat(t.log) + FlatDrains(t.drains) + Waiting(t.pending)
  }

  // ---------------------------------------------------------------------------------------------
  // The steps

  function NewPending(): Pending {
    Pending([], [], 0, "", 0, 0)
  }

  function State(t: Terminal): Pending {
    if t.pending.Some? then t.pending.value else NewPending()
  }

  /** How many of the oldest chunks `_bound_pending_locked` gives up. */
  function Excess(cs: seq<Chunk>, chars: int, limit: nat): (k: nat)
    ensures k <= |cs|
  {
    if chars > limit && cs != [] then 1 + Excess(cs[1..], chars - |cs[0].text|, limit) else 0
  }

  function BoundPending(p: Pending, limit: nat): Pending
    requires |Concat(p.chunks)| == p.chars
  {
    var k := Excess(p.chunks, p.chars, limit);
    LengthOfRest(p.chunks, k);
    p.(chunks := p.chunks[k..], chars := |Concat(p.chunks[k..])|, dropped := p.dropped + |Concat(p.chunks[..k])|)
  }

  function Claim(t: Terminal, base: int): nat {
    if State(t).lastSeq != 0 then State(t).lastSeq else Max(base, t.floor) + 1
  }

  /** A post that carries neither text nor status is refused and answers 0. */
  function Number(t: Terminal, text: string, status: string, base: int): nat {
    if text == "" && status == "" then 0 else Claim(t, base)
  }

  function WithChunk(p: Pending, c: Chunk): Pending {
    p.(chunks := p.chunks + [c], chars := p.chars + |c.text|)
  }

  predicate Counted(t: Terminal) {
    t.pending.Some? ==> |Concat(t.pending.value.chunks)| == t.pending.value.chars
  }

  function Posted(t: Terminal, text: string, status: string, base: int, limit: nat): Terminal
    requires Counted(t)
  {
    if text == "" && status == "" then t else
    var n := Claim(t, base);
    var c := Chunk(|t.accepted|, text);
    var p := State(t).(lastSeq := n);
    var q := WithChunk(p, c);
    LengthOfAppend(p.chunks, c);
    var k := if text == "" then 0 else Excess(q.chunks, q.chars, limit);
    var r := if text == "" then p else BoundPending(q, limit);
    t.(pending := Some(if status == "" then r else r.(status := status)),
       floor := if State(t).lastSeq != 0 then t.floor else n,
       accepted := if text == "" then t.accepted else t.accepted + [c],
       dropped := t.dropped + q.chunks[..k],
       posted := if status == "" then t.posted else status)
  }

  function Open(p: Pending): Batch {
    Batch(DropNote(p.dropped), p.dropped, p.chunks, p.status, p.lastSeq)
  }

  /** `flush_terminal`: pop the state; its batches wait, in order, for the write lock. */
  function Flushed(t: Terminal): Terminal {
    if t.pending.None? then t else
    var p := t.pending.value;
    t.(pending := None,
       drains := t.drains + [p.retry + [Open(p)]],
       published := if p.lastSeq == 0 then t.published else t.published[p.lastSeq := Text(Open(p))])
  }

  /** The oldest drain makes progress: it finishes, skips an empty batch, or commits its next one. */
  function Written(t: Terminal): Terminal {
    if t.drains == [] then t else
    if t.drains[0] == [] then t.(drains := t.drains[1..]) else
    var b := t.drains[0][0];
    var rest := t.(drains := [t.drains[0][1..]] + t.drains[1..]);
    if Void(b) then rest else
    rest.(log := t.log + [b], number := if b.number == 0 then t.number else b.number)
  }

  /** What a failed drain hands back: every batch with text, its status cleared. */
  function Keep(bs: seq<Batch>): seq<Batch> {
    if bs == [] then [] else
    (if Text(bs[0]) == "" then [] else [bs[0].(status := "")]) + Keep(bs[1..])
  }

  function LastStatus(bs: seq<Batch>): string {
    if bs == [] then "" else
    var later := LastStatus(bs[1..]);
    if later != "" then later else bs[0].status
  }

  function RetryExcess(retry: seq<Batch>): (k: nat)
    ensures k <= |retry|
  {
    if |retry| > MAX_RETRY_BATCHES then |retry| - MAX_RETRY_BATCHES else 0
  }

  function BoundRetry(p: Pending): Pending {
    var k := RetryExcess(p.retry);
    p.(retry := p.retry[k..], dropped := p.dropped + TextLength(p.retry[..k]))
  }

  function HandedBack(t: Terminal, bs: seq<Batch>): Terminal {
    var keep := Keep(bs);
    var status := LastStatus(bs);
    if keep == [] && status == "" then t else
    var all := keep + State(t).retry;
    var p := BoundRetry(State(t).(retry := all));
    t.(pending := Some(if status == "" then p else p.(status := status)),
       dropped := t.dropped + Flat(all[..RetryExcess(all)]))
  }

  predicate Writing(t: Terminal) {
    t.drains != [] && t.drains[0] != [] && !Void(t.drains[0][0])
  }

  function Failed(t: Terminal): Terminal {
    if Writing(t) then HandedBack(t.(drains := t.drains[1..]), t.drains[0]) else t
  }

  /** A drain cancelled while it waits for the write lock: nothing hands its batches back. */
  function Cancelled(t: Terminal, i: nat): Terminal {
    if i < |t.drains| then
      t.(drains := t.drains[..i] + t.drains[i+1..], lost := t.lost + Flat(t.drains[i]))
    else t
  }

  function Step(t: Terminal, op: Op, limit: nat): Terminal
    requires Counted(t)
  {
    match op
    case Post(text, status, base) => Posted(t, text, status, base, limit)
    case Flush => Flushed(t)
    case WriteOk => Written(t)
    case WriteFails => Failed(t)
    case Cancel(i) => Cancelled(t, i)
  }

  lemma {:induction false} StepCounted(t: Terminal, op: Op, limit: nat)
    requires Counted(t)
    ensures Counted(Step(t, op, limit))
  {
  }

  function Run(t: Terminal, ops: seq<Op>, limit: nat): (r: Terminal)
    requires Counted(t)
    ensures Counted(r)
    decreases |ops|
  {
    if ops == [] then t else
    StepCounted(t, ops[0], limit);
    Run(Step(t, ops[0], limit), ops[1..], limit)
  }

  lemma {:induction false} RunJoin(t: Terminal, a: seq<Op>, b: seq<Op>, limit: nat)
    requires Counted(t)
    ensures Run(t, a + b, limit) == Run(Run(t, a, limit), b, limit)
    decreases |a|
  {
    if a == [] {
      assert a + b == b;
    } else {
      assert (a + b)[0] == a[0] && (a + b)[1..] == a[1..] + b;
      StepCounted(t, a[0], limit);
      RunJoin(Step(t, a[0], limit), a[1..], b, limit);
    }
  }

  /** `good` holds before the run and after each of its steps. */
  ghost predicate Throughout(t: Terminal, ops: seq<Op>, limit: nat, good: Terminal -> bool)
    requires Counted(t)
  {
    forall k :: 0 <= k <= |ops| ==> good(Run(t, ops[..k], limit))
  }

  lemma {:induction false} RunPrefix(t: Terminal, ops: seq<Op>, limit: nat, k: nat)
    requires Counted(t) && k < |ops|
    ensures Counted(Step(t, ops[0], limit))
    ensures Run(t, ops[..k+1], limit) == Run(Step(t, ops[0], limit), ops[1..][..k], limit)
  {
    StepCounted(t, ops[0], limit);
    assert ops[..k+1][0] == ops[0] && ops[..k+1][1..] == ops[1..][..k];
  }

  lemma {:induction false} ThroughoutStep(t: Terminal, ops: seq<Op>, limit: nat, good: Terminal -> bool)
    requires Counted(t) && ops != []
    ensures Counted(Step(t, ops[0], limit))
    ensures Throughout(t, ops, limit, good) <==> good(t) && Throughout(Step(t, ops[0], limit), ops[1..], limit, good)
  {
    StepCounted(t, ops[0], limit);
    assert ops[..0] == [] && Run(t, ops[..0], limit) == t;
    var u, rest := Step(t, ops[0], limit), ops[1..];
    forall k | 0 <= k <= |rest| ensures Run(t, ops[..k+1], limit) == Run(u, rest[..k], limit) {
      RunPrefix(t, ops, limit, k);
    }
    if good(t) && Throughout(u, rest, limit, good) {
      forall k | 0 <= k <= |ops| ensures good(Run(t, ops[..k], limit)) {
        if k > 0 { assert Run(t, ops[..k-1+1], limit) == Run(u, rest[..k-1], limit); }
      }
    }
  }

  lemma {:induction false} ThroughoutNothing(t: Terminal, limit: nat, good: Terminal -> bool)
    requires Counted(t)
    ensures Throughout(t, [], limit, good) <==> good(t)
  {
    var none: seq<Op> := [];
    assert none[..0] == none;
  }

  // ---------------------------------------------------------------------------------------------
  // Lengths

  lemma {:induction false} ConcatAppend(a: seq<Chunk>, b: seq<Chunk>)
    ensures Concat(a + b) == Concat(a) + Concat(b)
  {
    if a == [] {
      assert a + b == b;
    } else {
      assert (a + b)[1..] == a[1..] + b;
      ConcatAppend(a[1..], b);
    }
  }

  lemma {:induction false} LengthOfRest(cs: seq<Chunk>, k: nat)
    requires k <= |cs|
    ensures |Concat(cs[..k])| + |Concat(cs[k..])| == |Concat(cs)|
  {
    ConcatAppend(cs[..k], cs[k..]);
    assert cs[..k] + cs[k..] == cs;
  }

  lemma {:induction false} LengthOfAppend(cs: seq<Chunk>, c: Chunk)
    ensures |Concat(cs + [c])| == |Concat(cs)| + |c.text|
  {
    ConcatAppend(cs, [c]);
  }

  /** The bound removes no more than it must: what stays fits, or nothing stays; and one chunk fewer would not fit. */
  lemma {:induction false} ExcessIsLeast(cs: seq<Chunk>, limit: nat)
    ensures var k := Excess(cs, |Concat(cs)|, limit);
      && (|Concat(cs[k..])| <= limit || k == |cs|)
      && (forall j :: 0 <= j < k ==> |Concat(cs[j..])| > limit)
  {
    if |Concat(cs)| > limit && cs != [] {
      ExcessIsLeast(cs[1..], limit);
      var k := Excess(cs, |Concat(cs)|, limit);
      assert cs[1..][k-1..] == cs[k..];
      forall j | 0 <= j < k ensures |Concat(cs[j..])| > limit {
        if j == 0 { assert cs[0..] == cs; } else { assert cs[1..][j-1..] == cs[j..]; }
      }
    } else {
      assert cs[0..] == cs;
    }
  }
}
