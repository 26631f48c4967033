/** What a sequence number means: claimed once per batch, never claimed for another payload, and exactly when the stored one can fall. */
module WriteQueueNumbers {
  import opened Common
  import opened WriteQueue
  import opened WriteQueueOrder

  // ---------------------------------------------------------------------------------------------
  // A number names one payload for ever

  ghost predicate Named(published: map<nat, string>, bs: seq<Batch>) {
    forall b :: b in bs && b.number != 0 ==> b.number in published && published[b.number] == Text(b)
  }

  ghost predicate PublishInv(t: Terminal) {
    && Counted(t)
    && Named(t.published, t.log)
    && (forall d :: d in t.drains ==> Named(t.published, d))
    && (t.pending.Some? ==>
          && Named(t.published, t.pending.value.retry)
          && t.pending.value.lastSeq <= t.floor
          && t.pending.value.lastSeq !in t.published)
    && (forall n :: n in t.published ==> 0 < n <= t.floor)
  }

  lemma {:induction false} KeepNamed(published: map<nat, string>, bs: seq<Batch>)
    requires Named(published, bs)
    ensures Named(published, Keep(bs))
  {
    if bs != [] {
      assert forall b :: b in bs[1..] ==> b in bs;
      KeepNamed(published, bs[1..]);
      assert bs[0] in bs;
      assert Text(bs[0].(status := "")) == Text(bs[0]);
    }
  }

  lemma {:induction false} NamedFailed(t: Terminal)
    requires PublishInv(t) && Writing(t)
    ensures PublishInv(Failed(t))
  {
    KeepNamed(t.published, t.drains[0]);
    var u := t.(drains := t.drains[1..]);
    var all := Keep(t.drains[0]) + State(u).retry;
    var k := RetryExcess(all);
    assert Named(t.published, all) by {
      forall b | b in all && b.number != 0 ensures b.number in t.published && t.published[b.number] == Text(b) {
        assert b in Keep(t.drains[0]) || b in State(u).retry;
      }
    }
    assert forall b :: b in all[k..] ==> b in all;
  }

  lemma {:induction false} NamedFlushed(t: Terminal)
    requires PublishInv(t) && t.pending.Some?
    ensures PublishInv(Flushed(t))
  {
    var p := t.pending.value;
    var u := Flushed(t);
    assert Named(u.published, p.retry + [Open(p)]) by {
      forall b | b in p.retry + [Open(p)] && b.number != 0
        ensures b.number in u.published && u.published[b.number] == Text(b)
      {
        assert b in p.retry || b == Open(p);
      }
    }
    assert forall d :: d in u.drains ==> d in t.drains || d == p.retry + [Open(p)];
  }

  lemma {:induction false} NamedWritten(t: Terminal)
    requires PublishInv(t)
    ensures PublishInv(Written(t))
  {
    if t.drains != [] {
      var d := t.drains[0];
      assert d in t.drains;
      assert forall e :: e in t.drains[1..] ==> e in t.drains;
      if d != [] {
        assert d[0] in d && forall b :: b in d[1..] ==> b in d;
        assert Named(t.published, d[1..]);
        assert forall b :: b in t.log + [d[0]] ==> b in t.log || b == d[0];
      }
    }
  }

  lemma {:induction false} StepPublishes(t: Terminal, op: Op, limit: nat)
    requires PublishInv(t)
    ensures var u := Step(t, op, limit);
      && PublishInv(u)
      && t.floor <= u.floor
      && (forall n :: n in t.published ==> n in u.published && u.published[n] == t.published[n])
  {
    StepCounted(t, op, limit);
    match op
    case Post(text, status, base) =>
    case Flush => if t.pending.Some? { NamedFlushed(t); }
    case WriteOk => NamedWritten(t);
    case WriteFails => if Writing(t) { NamedFailed(t); }
    case Cancel(i) =>
  }

  /**
   Over every run, with any overlap of drains and any failures: once a number is published for a text it stays
   published for that text, and every batch in the row, in a drain or handed back still carries the text its
   number was published for.
   */
  lemma {:induction false} NumberNamesOnePayload(t: Terminal, ops: seq<Op>, limit: nat)
    requires PublishInv(t)
    ensures var u := Run(t, ops, limit);
      && PublishInv(u)
      && t.floor <= u.floor
      && (forall n :: n in t.published ==> n in u.published && u.published[n] == t.published[n])
    decreases |ops|
  {
    if ops != [] {
      StepPublishes(t, ops[0], limit);
      NumberNamesOnePayload(Step(t, ops[0], limit), ops[1..], limit);
    }
  }

  // ---------------------------------------------------------------------------------------------
  // One number per batch, and each batch above the last

  predicate Accepts(text: string, status: string) {
    text != "" || status != ""
  }

  /** After a post answered `n`, either its batch is still open under `n`, or `n` is behind the floor. */
  ghost predicate After(t: Terminal, n: nat, open: bool) {
    && 0 < n <= t.floor
    && (open ==> t.pending.Some? && t.pending.value.lastSeq == n)
    && (!open ==> State(t).lastSeq == 0 || State(t).lastSeq > n)
  }

  lemma {:induction false} AfterRun(t: Terminal, ops: seq<Op>, limit: nat, n: nat, open: bool)
    requires PublishInv(t) && After(t, n, open)
    ensures After(Run(t, ops, limit), n, open && Flush !in ops)
    decreases |ops|
  {
    if ops != [] {
      var u := Step(t, ops[0], limit);
      StepPublishes(t, ops[0], limit);
      assert ops == [ops[0]] + ops[1..];
      assert After(u, n, open && ops[0] != Flush);
      AfterRun(u, ops[1..], limit, n, open && ops[0] != Flush);
    }
  }

  /**
   Two accepted posts, with anything in between: they get the same number exactly when no flush came between
   them, and otherwise the later one gets a strictly larger number.
   */
  lemma {:induction false} OneNumberPerBatch(t: Terminal, text: string, status: string, base: int, ops: seq<Op>,
                                             text': string, status': string, base': int, limit: nat)
    requires PublishInv(t) && Accepts(text, status) && Accepts(text', status')
    ensures var first := Number(t, text, status, base);
      var u := Posted(t, text, status, base, limit);
      Counted(u) &&
      var second := Number(Run(u, ops, limit), text', status', base');
      && first > 0
      && (Flush !in ops ==> second == first)
      && (Flush in ops ==> second > first)
  {
    var u := Posted(t, text, status, base, limit);
    var n := Number(t, text, status, base);
    StepPublishes(t, Post(text, status, base), limit);
    assert After(u, n, true);
    AfterRun(u, ops, limit, n, true);
  }

  // ---------------------------------------------------------------------------------------------
  // The stored number

  function Join(ds: seq<seq<Batch>>): seq<Batch> {
    if ds == [] then [] else ds[0] + Join(ds[1..])
  }

  function Backlog(p: Option<Pending>): seq<Batch> {
    if p.None? then [] else p.value.retry + [Open(p.value)]
  }

  function Unwritten(t: Terminal): seq<Batch> {
    Join(t.drains) + Backlog(t.pending)
  }

  /** Nonzero numbers rise along the list, above `low` and no higher than `high`. */
  predicate Rising(bs: seq<Batch>, low: int, high: int) {
    bs == [] || (if bs[0].number == 0 then Rising(bs[1..], low, high)
                 else low < bs[0].number <= high && Rising(bs[1..], bs[0].number, high))
  }

  predicate StoredInv(t: Terminal) {
    Counted(t) && t.number <= t.floor && Rising(Unwritten(t), t.number, t.floor)
  }

  lemma {:induction false} RisingWeaker(bs: seq<Batch>, low: int, low': int, high: int, high': int)
    requires Rising(bs, low, high) && low' <= low && high <= high'
    ensures Rising(bs, low', high')
  {
    if bs != [] {
      var n := bs[0].number;
      RisingWeaker(bs[1..], if n == 0 then low else n, if n == 0 then low' else n, high, high');
    }
  }

  lemma {:induction false} RisingParts(a: seq<Batch>, b: seq<Batch>, low: int, high: int)
    requires Rising(a + b, low, high)
    ensures Rising(a, low, high) && Rising(b, low, high)
  {
    if a == [] {
      assert a + b == b;
    } else {
      assert (a + b)[1..] == a[1..] + b;
      if a[0].number == 0 {
        RisingParts(a[1..], b, low, high);
      } else {
        RisingParts(a[1..], b, a[0].number, high);
        RisingWeaker(b, a[0].number, low, high, high);
      }
    }
  }

  /** Dropping a middle block, or the empty batches of it, keeps the numbers rising. */
  lemma {:induction false} RisingWithout(a: seq<Batch>, b: seq<Batch>, c: seq<Batch>, low: int, high: int)
    requires Rising(a + (b + c), low, high)
    ensures Rising(a + c, low, high)
  {
    if a == [] {
      assert a + (b + c) == b + c && a + c == c;
      RisingParts(b, c, low, high);
    } else {
      assert (a + (b + c))[1..] == a[1..] + (b + c) && (a + c)[1..] == a[1..] + c;
      RisingWithout(a[1..], b, c, if a[0].number == 0 then low else a[0].number, high);
    }
  }

  lemma {:induction false} RisingKeep(bs: seq<Batch>, c: seq<Batch>, low: int, high: int)
    requires Rising(bs + c, low, high)
    ensures Rising(Keep(bs) + c, low, high)
  {
    if bs != [] {
      assert (bs + c)[1..] == bs[1..] + c;
      var low' := if bs[0].number == 0 then low else bs[0].number;
      RisingKeep(bs[1..], c, low', high);
      if Text(bs[0]) == "" {
        assert Keep(bs) + c == Keep(bs[1..]) + c;
        RisingWeaker(Keep(bs[1..]) + c, low', low, high, high);
      } else {
        assert (Keep(bs) + c)[1..] == Keep(bs[1..]) + c;
      }
    }
  }

  lemma {:induction false} RisingAppend(bs: seq<Batch>, b: Batch, low: int, high: int, high': int)
    requires Rising(bs, low, high) && high <= high'
    requires b.number == 0 || high < b.number <= high'
    requires low <= high
    ensures Rising(bs + [b], low, high')
  {
    if bs == [] {
      assert bs + [b] == [b];
    } else {
      assert (bs + [b])[1..] == bs[1..] + [b];
      RisingAppend(bs[1..], b, if bs[0].number == 0 then low else bs[0].number, high, high');
    }
  }

  lemma {:induction false} JoinAppend(a: seq<seq<Batch>>, b: seq<seq<Batch>>)
    ensures Join(a + b) == Join(a) + Join(b)
  {
    if a == [] {
      assert a + b == b;
    } else {
      assert (a + b)[1..] == a[1..] + b;
      JoinAppend(a[1..], b);
    }
  }

  lemma {:induction false} RisingLast(bs: seq<Batch>, b: Batch, b': Batch, low: int, high: int)
    requires Rising(bs + [b], low, high) && b.number == b'.number
    ensures Rising(bs + [b'], low, high)
  {
    if bs == [] {
      assert bs + [b] == [b] && bs + [b'] == [b'];
    } else {
      assert (bs + [b])[1..] == bs[1..] + [b] && (bs + [b'])[1..] == bs[1..] + [b'];
      RisingLast(bs[1..], b, b', if bs[0].number == 0 then low else bs[0].number, high);
    }
  }

  lemma {:induction false} StoredPosted(t: Terminal, text: string, status: string, base: int, limit: nat)
    requires StoredInv(t) && Accepts(text, status)
    ensures StoredInv(Posted(t, text, status, base, limit))
  {
    var u := Posted(t, text, status, base, limit);
    StepCounted(t, Post(text, status, base), limit);
    var front := Join(t.drains) + State(t).retry;
    var b := Open(u.pending.value);
    assert Unwritten(u) == front + [b];
    if t.pending.Some? {
      assert Unwritten(t) == front + [Open(t.pending.value)];
      RisingParts(front, [Open(t.pending.value)], t.number, t.floor);
    } else {
      assert Unwritten(t) == front;
    }
    if State(t).lastSeq != 0 {
      RisingLast(front, Open(t.pending.value), b, t.number, t.floor);
    } else {
      RisingAppend(front, b, t.number, t.floor, u.floor);
    }
  }

  lemma {:induction false} StoredFlushed(t: Terminal)
    ensures Unwritten(Flushed(t)) == Unwritten(t)
  {
    if t.pending.Some? {
      var d := t.pending.value.retry + [Open(t.pending.value)];
      JoinAppend(t.drains, [d]);
      assert Join([d]) == d;
    }
  }

  lemma {:induction false} StoredWritten(t: Terminal)
    requires StoredInv(t)
    ensures StoredInv(Written(t)) && t.number <= Written(t).number
  {
    if t.drains != [] && t.drains[0] != [] {
      var b := t.drains[0][0];
      var u := Written(t);
      assert u.drains[0] == t.drains[0][1..] && u.drains[1..] == t.drains[1..];
      assert Unwritten(t)[1..] == Unwritten(u);
      if b.number != 0 && Void(b) { RisingWeaker(Unwritten(u), b.number, t.number, t.floor, t.floor); }
    } else if t.drains != [] {
      assert Unwritten(Written(t)) == Unwritten(t);
    }
  }

  predicate Unnumbered(bs: seq<Batch>) {
    forall b :: b in bs ==> b.number == 0
  }

  lemma {:induction false} RisingInsert(a: seq<Batch>, m: seq<Batch>, c: seq<Batch>, low: int, high: int)
    requires Unnumbered(m)
    ensures Rising(a + (m + c), low, high) <==> Rising(a + c, low, high)
    decreases |a|, |m|
  {
    if a != [] {
      assert (a + (m + c))[1..] == a[1..] + (m + c) && (a + c)[1..] == a[1..] + c;
      RisingInsert(a[1..], m, c, if a[0].number == 0 then low else a[0].number, high);
    } else {
      assert a + (m + c) == m + c && a + c == c;
      if m == [] {
        assert m + c == c;
      } else {
        assert m[0] in m && (m + c)[1..] == m[1..] + c && (forall b :: b in m[1..] ==> b in m);
        RisingInsert([], m[1..], c, low, high);
        assert [] + (m[1..] + c) == m[1..] + c && [] + c == c;
      }
    }
  }

  lemma {:induction false} RisingAbove(bs: seq<Batch>, low: int, high: int, b: Batch)
    requires Rising(bs, low, high) && b in bs && b.number != 0
    ensures low < b.number
  {
    if b != bs[0] {
      assert b in bs[1..];
      RisingAbove(bs[1..], if bs[0].number == 0 then low else bs[0].number, high, b);
    }
  }

  lemma {:induction false} RisingApart(a: seq<Batch>, b: seq<Batch>, low: int, high: int, x: Batch, y: Batch)
    requires Rising(a + b, low, high) && x in a && y in b && x.number != 0 && y.number != 0
    ensures x.number < y.number
  {
    assert (a + b)[1..] == a[1..] + b;
    var low' := if a[0].number == 0 then low else a[0].number;
    if x == a[0] {
      assert y in a[1..] + b;
      RisingAbove(a[1..] + b, low', high, y);
    } else {
      assert x in a[1..];
      RisingApart(a[1..], b, low', high, x, y);
    }
  }

  /** What of a failing drain is still held after `_bound_retry_locked`. */
  function KeptBatches(t: Terminal): seq<Batch>
    requires t.drains != []
  {
    var keep := Keep(t.drains[0]);
    keep[Min(|keep|, RetryExcess(keep + State(t).retry))..]
  }

  function RetryKept(t: Terminal): seq<Batch>
    requires t.drains != []
  {
    var keep := Keep(t.drains[0]);
    State(t).retry[Max(0, RetryExcess(keep + State(t).retry) - |keep|)..]
  }

  /** Blocks `d`, then `o + k` of which `k` is held, in front of `r`: `k` behind `d` still rises exactly when one of the two has no number. */
  lemma {:induction false} BlocksRise(o: seq<Batch>, k: seq<Batch>, d: seq<Batch>, o': seq<Batch>, r: seq<Batch>, low: int, high: int)
    requires Rising((o + k) + (d + (o' + r)), low, high)
    ensures Rising(d + (k + r), low, high) <==> Unnumbered(d) || Unnumbered(k)
  {
    assert (o + k) + (d + (o' + r)) == o + (k + (d + (o' + r)));
    RisingParts(o, k + (d + (o' + r)), low, high);
    assert k + (d + (o' + r)) == (k + d) + (o' + r);
    RisingWithout(k + d, o', r, low, high);
    assert (k + d) + r == k + (d + r);
    assert [] + (d + (k + r)) == d + (k + r) && [] + (k + (d + r)) == k + (d + r);
    if Unnumbered(d) {
      RisingInsert([], d, k + r, low, high);
      RisingInsert(k, d, r, low, high);
      assert [] + (k + r) == k + r;
    } else if Unnumbered(k) {
      RisingInsert(d, k, r, low, high);
      RisingInsert([], k, d + r, low, high);
      assert [] + (d + r) == d + r;
    } else if Rising(d + (k + r), low, high) {
      var x, y :| x in k && x.number != 0 && y in d && y.number != 0;
      RisingApart(k, d + r, low, high, x, y);
      RisingApart(d, k + r, low, high, y, x);
    }
  }

  /** The batch to be opened, or nothing; a state that did not exist before opens one without a number. */
  lemma {:induction false} FailedBacklog(t: Terminal)
    requires Writing(t)
    ensures var u := Failed(t);
      && u.pending.Some? && u.number == t.number && u.floor == t.floor
      && Unwritten(u) == Join(t.drains[1..]) + (KeptBatches(t) + (RetryKept(t) + [Open(u.pending.value)]))
      && Open(u.pending.value).number == State(t).lastSeq
      && Backlog(t.pending) == if t.pending.Some? then State(t).retry + [Open(t.pending.value)] else []
  {
    FailedShape(t);
    var keep, retry := Keep(t.drains[0]), State(t).retry;
    var k := RetryExcess(keep + retry);
    assert (keep + retry)[k..] == KeptBatches(t) + RetryKept(t);
    Associate(KeptBatches(t), RetryKept(t), [Open(Failed(t).pending.value)]);
  }

  /** A hand-back changes what the open batch says, not its number; where nothing was open it adds one without a number. */
  lemma {:induction false} RisingReopened(t: Terminal, front: seq<Batch>, last: Batch, low: int, high: int)
    requires last.number == State(t).lastSeq && Rising(front + Backlog(t.pending), low, high) && low <= high
    ensures Rising(front + (State(t).retry + [last]), low, high)
  {
    var all := front + State(t).retry;
    assert front + (State(t).retry + [last]) == all + [last];
    if t.pending.Some? {
      assert front + Backlog(t.pending) == all + [Open(t.pending.value)];
      RisingLast(all, Open(t.pending.value), last, low, high);
    } else {
      assert front + Backlog(t.pending) == all;
      RisingAppend(all, last, low, high, high);
    }
  }

  lemma {:induction false} KeepRises(t: Terminal, last: Batch)
    requires StoredInv(t) && t.drains != [] && last.number == State(t).lastSeq
    ensures Rising(Keep(t.drains[0]) + (Join(t.drains[1..]) + (State(t).retry + [last])), t.number, t.floor)
  {
    var d := Join(t.drains[1..]);
    Associate(t.drains[0], d, Backlog(t.pending));
    RisingReopened(t, t.drains[0] + d, last, t.number, t.floor);
    Associate(t.drains[0], d, State(t).retry + [last]);
    RisingKeep(t.drains[0], d + (State(t).retry + [last]), t.number, t.floor);
  }

  lemma {:induction false} KeptParts(t: Terminal, last: Batch) returns (o: seq<Batch>, o': seq<Batch>)
    requires t.drains != []
    ensures Keep(t.drains[0]) == o + KeptBatches(t) && State(t).retry + [last] == o' + (RetryKept(t) + [last])
  {
    var keep, retry := Keep(t.drains[0]), State(t).retry;
    var k := RetryExcess(keep + retry);
    o, o' := keep[..Min(|keep|, k)], retry[..Max(0, k - |keep|)];
    Associate(o', RetryKept(t), [last]);
  }

  /**
   After a failed write the numbers still to be stored keep rising exactly when no numbered batch of another drain of the
   terminal is overtaken: none of them has a number, or nothing numbered of the failing drain is still held.
   */
  lemma {:induction false} FailureKeepsRisingIff(t: Terminal)
    requires StoredInv(t) && Writing(t)
    ensures StoredInv(Failed(t)) <==> Unnumbered(Join(t.drains[1..])) || Unnumbered(KeptBatches(t))
  {
    StepCounted(t, WriteFails, 0);
    FailedBacklog(t);
    var last := Open(Failed(t).pending.value);
    KeepRises(t, last);
    var o, o' := KeptParts(t, last);
    BlocksRise(o, KeptBatches(t), Join(t.drains[1..]), o', RetryKept(t) + [last], t.number, t.floor);
  }

  /** What is to be written after the drain at `i`. */
  function Behind(t: Terminal, i: nat): seq<Batch>
    requires i < |t.drains|
  {
    Join(t.drains[i+1..]) + Backlog(t.pending)
  }

  lemma {:induction false} UnwrittenCancelled(t: Terminal, i: nat)
    requires i < |t.drains|
    ensures Unwritten(t) == Join(t.drains[..i]) + (t.drains[i] + Behind(t, i))
    ensures Unwritten(Cancelled(t, i)) == Join(t.drains[..i]) + Behind(t, i)
  {
    var a, b := t.drains[..i], t.drains[i+1..];
    JoinAppend(a, b);
    JoinAppend(a, t.drains[i..]);
    assert t.drains == a + t.drains[i..] && t.drains[i..][1..] == b;
  }

  lemma {:induction false} StoredCancelled(t: Terminal, i: nat)
    requires StoredInv(t) && i < |t.drains|
    ensures StoredInv(Cancelled(t, i))
  {
    UnwrittenCancelled(t, i);
    RisingWithout(Join(t.drains[..i]), t.drains[i], Behind(t, i), t.number, t.floor);
  }

  predicate StepRises(t: Terminal, op: Op) {
    op.WriteFails? && Writing(t) ==> Unnumbered(Join(t.drains[1..])) || Unnumbered(KeptBatches(t))
  }

  /** No write fails while a numbered batch of its drain would be handed back behind a numbered batch of a newer drain. */
  predicate FailsRising(t: Terminal, ops: seq<Op>, limit: nat)
    requires Counted(t)
    decreases |ops|
  {
    ops == [] || (
      && StepRises(t, ops[0])
      && (StepCounted(t, ops[0], limit); FailsRising(Step(t, ops[0], limit), ops[1..], limit)))
  }

  /** In particular when every write that fails does so with no other drain of the terminal outstanding. */
  lemma {:induction false} AloneIsRising(t: Terminal, ops: seq<Op>, limit: nat)
    requires Counted(t) && FailsAlone(t, ops, limit)
    ensures FailsRising(t, ops, limit)
    decreases |ops|
  {
    if ops != [] {
      StepCounted(t, ops[0], limit);
      AloneIsRising(Step(t, ops[0], limit), ops[1..], limit);
    }
  }

  lemma {:induction false} StepStored(t: Terminal, op: Op, limit: nat)
    requires StoredInv(t)
    ensures Counted(Step(t, op, limit)) && t.number <= Step(t, op, limit).number
    ensures StoredInv(Step(t, op, limit)) <==> StepRises(t, op)
  {
    StepCounted(t, op, limit);
    match op
    case Post(text, status, base) => if Accepts(text, status) { StoredPosted(t, text, status, base, limit); }
    case Flush => StoredFlushed(t);
    case WriteOk => StoredWritten(t);
    case WriteFails => if Writing(t) { FailureKeepsRisingIff(t); FailedBacklog(t); }
    case Cancel(i) => if i < |t.drains| { StoredCancelled(t, i); }
  }

  /**
   For every run: after each step the number in the row is followed only by larger ones, in the order they will be
   stored, if and only if every failure in it is of that kind.
   */
  lemma {:induction false} RisingThroughoutIff(t: Terminal, ops: seq<Op>, limit: nat)
    requires StoredInv(t)
    ensures Throughout(t, ops, limit, StoredInv) <==> FailsRising(t, ops, limit)
    decreases |ops|
  {
    if ops == [] {
      ThroughoutNothing(t, limit, StoredInv);
    } else {
      var u := Step(t, ops[0], limit);
      StepStored(t, ops[0], limit);
      ThroughoutStep(t, ops, limit, StoredInv);
      if StepRises(t, ops[0]) {
        RisingThroughoutIff(u, ops[1..], limit);
      } else {
        assert Run(u, ops[1..][..0], limit) == u;
      }
    }
  }

  lemma {:induction false} RunStored(t: Terminal, ops: seq<Op>, limit: nat)
    requires StoredInv(t) && Throughout(t, ops, limit, StoredInv)
    ensures StoredInv(Run(t, ops, limit)) && t.number <= Run(t, ops, limit).number
    decreases |ops|
  {
    if ops != [] {
      var u := Step(t, ops[0], limit);
      StepStored(t, ops[0], limit);
      ThroughoutStep(t, ops, limit, StoredInv);
      assert Run(u, ops[1..][..0], limit) == u;
      RunStored(u, ops[1..], limit);
    }
  }

  /** The first accepted post carries a `base_seq` that is at least the number in the row. */
  predicate FirstBaseCovers(ops: seq<Op>, number: nat) {
    ops == [] ||
    (if ops[0].Post? && Accepts(ops[0].text, ops[0].status) then ops[0].base >= number else FirstBaseCovers(ops[1..], number))
  }

  /**
   The number stored in the row never decreases: at any two moments of a run that starts from a row holding
   `number`, whose first `base_seq` covers it, and in which no failure lets a newer number pass.
   */
  lemma {:induction false} StoredNumberNeverFalls(number: nat, ops: seq<Op>, more: seq<Op>, limit: nat)
    requires FirstBaseCovers(ops + more, number) && FailsRising(Fresh(number), ops + more, limit)
    ensures Run(Fresh(number), ops, limit).number <= Run(Fresh(number), ops + more, limit).number
    decreases |ops|
  {
    var t := Fresh(number);
    if ops == [] {
      assert ops + more == more;
      FirstClaim(number, more, limit);
    } else {
      assert (ops + more)[1..] == ops[1..] + more;
      var op := ops[0];
      if op.Post? && Accepts(op.text, op.status) {
        var u := Step(t, op, limit);
        FreshPosted(number, op, limit);
        RisingParted(u, ops[1..], more, limit);
        NeverFalls(u, ops[1..], limit);
        NeverFalls(Run(u, ops[1..], limit), more, limit);
      } else {
        StoredNumberNeverFalls(number, ops[1..], more, limit);
      }
    }
  }

  lemma {:induction false} FreshPosted(number: nat, op: Op, limit: nat)
    requires op.Post? && Accepts(op.text, op.status) && op.base >= number
    ensures var u := Step(Fresh(number), op, limit); StoredInv(u) && u.number == number
  {
  }

  lemma {:induction false} FirstClaim(number: nat, ops: seq<Op>, limit: nat)
    requires FirstBaseCovers(ops, number) && FailsRising(Fresh(number), ops, limit)
    ensures number <= Run(Fresh(number), ops, limit).number
    decreases |ops|
  {
    if ops != [] {
      var op := ops[0];
      if op.Post? && Accepts(op.text, op.status) {
        FreshPosted(number, op, limit);
        NeverFalls(Step(Fresh(number), op, limit), ops[1..], limit);
      } else {
        FirstClaim(number, ops[1..], limit);
      }
    }
  }

  lemma {:induction false} NeverFalls(t: Terminal, ops: seq<Op>, limit: nat)
    requires StoredInv(t) && FailsRising(t, ops, limit)
    ensures StoredInv(Run(t, ops, limit)) && t.number <= Run(t, ops, limit).number
  {
    RisingThroughoutIff(t, ops, limit);
    RunStored(t, ops, limit);
  }

  lemma {:induction false} RisingParted(t: Terminal, a: seq<Op>, b: seq<Op>, limit: nat)
    requires Counted(t) && FailsRising(t, a + b, limit)
    ensures FailsRising(t, a, limit) && Counted(Run(t, a, limit)) && FailsRising(Run(t, a, limit), b, limit)
    ensures Run(t, a + b, limit) == Run(Run(t, a, limit), b, limit)
    decreases |a|
  {
    if a == [] {
      assert a + b == b;
    } else {
      assert (a + b)[1..] == a[1..] + b;
      StepCounted(t, a[0], limit);
      RisingParted(Step(t, a[0], limit), a[1..], b, limit);
    }
  }
}
