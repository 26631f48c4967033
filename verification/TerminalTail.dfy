/**
 The durable half of one terminal write: the row, the held tail that lags it, and the rollback of both.

 The row is only changed by a commit. The held tail is changed before the statements run, so every failure up
 to the commit has to put it back. A write number of 0 stands for "none", as in the source.
 */
module TerminalTail {
  import opened Common

  const MAX_CHARS: nat := 65536
  const FLUSH_INTERVAL: nat := 1000

  datatype Row = Row(output: string, seq_: nat)
  datatype Held = Held(tail: string, seq_: nat, flushedAt: int, dirty: bool)
  datatype Store = Store(row: Row, held: Option<Held>)

  /** Where one write is refused, if anywhere. */
  datatype Fault = Nowhere | AtUpdate | AtEvent | AtCommit

  // ---------------------------------------------------------------------------------------------
  // Trimming

  function Newline(s: string): (i: nat)
    ensures i <= |s|
    ensures i < |s| ==> s[i] == '\n'
    ensures forall k :: 0 <= k < i ==> s[k] != '\n'
  {
    if s == "" || s[0] == '\n' then 0 else 1 + Newline(s[1..])
  }

  function Trim(s: string): string {
    if |s| <= MAX_CHARS then s else
    var tail := s[|s| - MAX_CHARS..];
    var i := Newline(tail);
    if i + 1 < |tail| then tail[i+1..] else tail
  }

  predicate Suffix(a: string, b: string) {
    |a| <= |b| && b[|b| - |a|..] == a
  }

  lemma {:induction false} SuffixTransitive(a: string, b: string, c: string)
    requires Suffix(a, b) && Suffix(b, c)
    ensures Suffix(a, c)
  {
  }

  lemma {:induction false} SuffixExtend(a: string, b: string, c: string)
    requires Suffix(a, b)
    ensures Suffix(a + c, b + c)
  {
  }

  /** Index `i` is the first line break of the last 65536 characters. */
  ghost predicate FirstBreak(s: string, i: nat) {
    && |s| > 65536 && |s| - 65536 <= i < |s| && s[i] == '\n' && forall k :: |s| - 65536 <= k < i ==> s[k] != '\n'
  }

  /**
   A trimmed text is the end of the text and fits. One that is too long is cut right after the first line break of its last
   65536 characters, unless nothing would be left or there is none; then those characters stay.
   */
  lemma {:induction false} TrimKeepsTheEnd(s: string)
    ensures Suffix(Trim(s), s) && |Trim(s)| <= 65536
    ensures |s| <= 65536 ==> Trim(s) == s
    ensures forall i: nat :: FirstBreak(s, i) ==> Trim(s) == if i + 1 < |s| then s[i+1..] else s[|s| - 65536..]
    ensures |s| > 65536 && (forall i: nat :: !FirstBreak(s, i)) ==> Trim(s) == s[|s| - 65536..]
  {
    if |s| > 65536 {
      var cut := |s| - 65536;
      var tail := s[cut..];
      var i := Newline(tail);
      assert forall k :: 0 <= k < |tail| ==> tail[k] == s[cut+k];
      if i < |tail| {
        assert FirstBreak(s, cut + i);
        assert tail[i+1..] == s[cut+i+1..];
      }
      forall j: nat | FirstBreak(s, j) ensures j == cut + i {
        assert tail[j-cut] == '\n';
      }
    }
  }

  // ---------------------------------------------------------------------------------------------
  // One write

  function Tail(s: Store): string {
    if s.held.Some? then s.held.value.tail else s.row.output
  }

  function Number(s: Store): nat {
    if s.held.Some? then s.held.value.seq_ else s.row.seq_
  }

  /** `record`: hold the tail, and say whether it is due to be written. */
  function Due(h: Option<Held>, now: int): bool {
    h.None? || now - h.value.flushedAt >= FLUSH_INTERVAL
  }

  /** A committed write of `chunk` under `number`, at time `now`; `must` forces the tail out, `ending` also lets it go. */
  function Appended(s: Store, chunk: string, number: nat, now: int, must: bool, ending: bool): Store {
    var next := Trim(Tail(s) + chunk);
    var n := if number != 0 then number else s.row.seq_;
    var write := Due(s.held, now) || must || ending;
    var flushedAt := if write then now else s.held.value.flushedAt;
    Store(if write then Row(next, n) else s.row,
          if ending then None else Some(Held(next, n, flushedAt, !write)))
  }

  predicate Settleable(s: Store) {
    s.held.Some? && s.held.value.dirty
  }

  function Settled(s: Store, now: int): Store {
    if Settleable(s) then Appended(s, "", s.held.value.seq_, now, true, false) else s
  }

  // ---------------------------------------------------------------------------------------------
  // Runs, and the eager writer they are compared with

  datatype Op =
    | Put(chunk: string, number: nat, now: int, ending: bool)
    | Settle(now: int)

  /** What an attempt is to leave behind: a refused one nothing at all. `TerminalStore` has to undo what it did to get there. */
  function Attempt(s: Store, op: Op, fault: Fault): Store {
    if fault != Nowhere then s else
    match op
    case Put(chunk, number, now, ending) => Appended(s, chunk, number, now, false, ending)
    case Settle(now) => Settled(s, now)
  }

  function Run(s: Store, ops: seq<(Op, Fault)>): Store
    decreases |ops|
  {
    if ops == [] then s else Run(Attempt(s, ops[0].0, ops[0].1), ops[1..])
  }

  predicate Taken(op: Op, fault: Fault) {
    op.Put? && fault == Nowhere
  }

  function Next(r: Row, op: Op, fault: Fault): Row {
    if Taken(op, fault) then Row(Trim(r.output + op.chunk), if op.number != 0 then op.number else r.seq_) else r
  }

  /** The reference: every accepted chunk goes straight into the row. */
  function Eager(r: Row, ops: seq<(Op, Fault)>): Row
    decreases |ops|
  {
    if ops == [] then r else Eager(Next(r, ops[0].0, ops[0].1), ops[1..])
  }

  predicate Consistent(s: Store) {
    && |Tail(s)| <= MAX_CHARS
    && (s.held.Some? && !s.held.value.dirty ==> s.row == Row(s.held.value.tail, s.held.value.seq_))
  }

  predicate Numbered(ops: seq<(Op, Fault)>) {
    forall i :: 0 <= i < |ops| ==> ops[i].0.Put? ==> ops[i].0.number != 0
  }

  /** A tail that is still to be written carries a number, unless the row has none either. */
  predicate Ready(s: Store) {
    Consistent(s) && (Settleable(s) && Number(s) == 0 ==> s.row.seq_ == 0)
  }

  /** The row holds another number than the one that is served. */
  predicate Lags(s: Store) {
    s.row.seq_ != Number(s)
  }

  /** No write without a number is accepted while the row lags. */
  predicate NumberedWhileLagging(s: Store, ops: seq<(Op, Fault)>)
    decreases |ops|
  {
    ops == [] || (
      && !(Taken(ops[0].0, ops[0].1) && ops[0].0.number == 0 && Lags(s))
      && NumberedWhileLagging(Attempt(s, ops[0].0, ops[0].1), ops[1..]))
  }

  /** What is served is what an eager writer would have stored, bytes and number. */
  ghost predicate ServesEager(s: Store, r: Row) {
    Row(Tail(s), Number(s)) == r
  }

  /** And it is so before the run and after each of its steps. */
  ghost predicate EagerThroughout(s: Store, r: Row, ops: seq<(Op, Fault)>) {
    forall k :: 0 <= k <= |ops| ==> ServesEager(Run(s, ops[..k]), Eager(r, ops[..k]))
  }

  // ---------------------------------------------------------------------------------------------
  // The store

  class TerminalStore {
    var row: Row
    var held: Option<Held>
    var screenTracked: bool

    ghost function View(): Store
      reads this
    {
      Store(row, held)
    }

    constructor (row: Row)
      ensures View() == Store(row, None) && !screenTracked
    {
      this.row, held, screenTracked := row, None, false;
    }

    method Restore(before: Option<Held>)
      modifies this`held, this`screenTracked
      ensures held == before && !screenTracked
    {
      held, screenTracked := before, false;
    }

    method Record(tail: string, number: nat, now: int) returns (due: bool)
      modifies this`held
      ensures due == Due(old(held), now)
      ensures held == Some(Held(tail, number, if due then now else old(held).value.flushedAt, !due))
    {
      due := held.None? || now - held.value.flushedAt >= FLUSH_INTERVAL;
      held := Some(Held(tail, number, if due then now else held.value.flushedAt, !due));
    }

    /** `_append_terminal_output`: the new row is prepared but not durable until the caller commits. */
    method Append(chunk: string, number: nat, now: int, settle: bool, ending: bool, fault: Fault)
      returns (ok: bool, prepared: Row)
      modifies this`held, this`screenTracked
      ensures ok == (fault != AtUpdate)
      ensures !ok ==> held == old(held) && !screenTracked
      ensures ok ==> Store(prepared, held) == Appended(old(View()), chunk, number, now, settle, ending)
    {
      var current := if held.Some? then held.value.tail else row.output;
      var next := Trim(current + chunk);
      if chunk != "" {
        screenTracked := true;
      }
      var before := held;
      var n := if number != 0 then number else row.seq_;
      var due := Record(next, n, now);
      prepared := row;
      if due || ending || settle {
        prepared := Row(next, n);
        held := Some(held.value.(flushedAt := now, dirty := false));
      }
      if ending {
        held := None;
      }
      if fault == AtUpdate {
        Restore(before);
        return false, prepared;
      }
      ok := true;
    }

    /** `_write_terminal_output`: all of it, or nothing of it, in the row and in the held tail together. */
    method Write(chunk: string, number: nat, now: int, settle: bool, ending: bool, fault: Fault) returns (ok: bool)
      requires settle ==> chunk == "" && !ending
      modifies this
      ensures ok == (fault == Nowhere || (settle && !Settleable(old(View()))))
      ensures View() == if !ok || (settle && !Settleable(old(View()))) then old(View())
                        else Appended(old(View()), chunk, number, now, settle, ending)
      ensures !ok ==> !screenTracked
    {
      var before := held;
      if settle && (held.None? || !held.value.dirty) {
        return true;
      }
      var appended, prepared := Append(chunk, number, now, settle, ending, fault);
      if !appended || fault == AtEvent || fault == AtCommit {
        Restore(before);
        return false;
      }
      row := prepared;
      return true;
    }

    /** One operation of a run, as its callers make it: a settle writes what is held under the number it is held with. */
    method Apply(op: Op, fault: Fault) returns (ok: bool)
      modifies this
      ensures View() == Attempt(old(View()), op, fault)
      ensures fault == Nowhere ==> ok
      ensures !ok ==> View() == old(View()) && !screenTracked
    {
      match op
      case Put(chunk, number, now, ending) => ok := Write(chunk, number, now, false, ending, fault);
      case Settle(now) => ok := Write("", if held.Some? then held.value.seq_ else 0, now, true, false, fault);
    }

    /** A caller that tries again after each refusal: the row and the held tail end as if only the last attempt had been made. */
    method Retry(op: Op, faults: seq<Fault>)
      requires forall fault :: fault in faults ==> fault != Nowhere
      modifies this
      ensures View() == Attempt(old(View()), op, Nowhere)
    {
      ghost var start := View();
      for i := 0 to |faults|
        invariant View() == start
      {
        assert faults[i] in faults;
        var ok := Apply(op, faults[i]);
      }
      var ok := Apply(op, Nowhere);
    }

    /**
     A whole run, whichever of the attempts were refused and wherever: the bytes the object then serves are those an eager
     writer would have stored, and the number too if no unnumbered write was accepted while the row lagged.
     */
    method Play(ops: seq<(Op, Fault)>)
      modifies this
      ensures View() == Run(old(View()), ops)
      ensures old(Ready(View())) ==> Tail(View()) == Eager(old(Row(Tail(View()), Number(View()))), ops).output
      ensures old(Ready(View())) && NumberedWhileLagging(old(View()), ops) ==>
                ServesEager(View(), Eager(old(Row(Tail(View()), Number(View()))), ops))
    {
      ghost var start := View();
      for i := 0 to |ops|
        invariant View() == Run(start, ops[..i])
      {
        RunSnoc(start, ops[..i], ops[i]);
        assert ops[..i+1] == ops[..i] + [ops[i]];
        var ok := Apply(ops[i].0, ops[i].1);
      }
      assert ops[..|ops|] == ops;
      if Ready(start) {
        LazyBytesAreEager(start, ops, Row(Tail(start), Number(start)));
        if NumberedWhileLagging(start, ops) { LazyTailIsEager(start, ops); }
      }
    }
  }

  lemma {:induction false} RunSnoc(s: Store, ops: seq<(Op, Fault)>, last: (Op, Fault))
    ensures Run(s, ops + [last]) == Attempt(Run(s, ops), last.0, last.1)
    decreases |ops|
  {
    if ops == [] {
      assert ops + [last] == [last] && [last][1..] == [];
    } else {
      assert (ops + [last])[1..] == ops[1..] + [last];
      RunSnoc(Attempt(s, ops[0].0, ops[0].1), ops[1..], last);
    }
  }

  // ---------------------------------------------------------------------------------------------
  // The lazy tail against an eager one

  /**
   When the row is written: with the first write, when the last one that was is a second or more old, and when the terminal
   ends; a write in between is only held, and the row stays as it was.
   */
  lemma {:induction false} RowIsWrittenIff(s: Store, chunk: string, number: nat, now: int, ending: bool)
    ensures var u := Appended(s, chunk, number, now, false, ending);
      && (s.held.None? || ending || now - s.held.value.flushedAt >= 1000 ==> u.row == Row(Tail(u), Number(u)))
      && (s.held.Some? && !ending && now - s.held.value.flushedAt < 1000 ==> u.row == s.row && Settleable(u))
      && (u.held.None? <==> ending)
  {
  }

  lemma {:induction false} PutIsEager(s: Store, chunk: string, number: nat, now: int, ending: bool)
    ensures var u := Appended(s, chunk, number, now, false, ending);
      && Consistent(u) && Tail(u) == Trim(Tail(s) + chunk)
      && Number(u) == if number != 0 then number else s.row.seq_
  {
  }

  /** A settle that succeeds makes the row equal to what is served, and changes nothing that is served. */
  lemma {:induction false} SettleCatchesUp(s: Store, now: int)
    requires Ready(s)
    ensures var u := Settled(s, now);
      Ready(u) && u.row == Row(Tail(s), Number(s)) && Tail(u) == Tail(s) && Number(u) == Number(s)
  {
  }

  lemma {:induction false} AttemptIsEager(s: Store, op: Op, fault: Fault)
    requires Ready(s)
    ensures var u, r := Attempt(s, op, fault), Row(Tail(s), Number(s));
      && Ready(u) && Tail(u) == Next(r, op, fault).output
      && (Number(u) == Next(r, op, fault).seq_ <==> !(Taken(op, fault) && op.number == 0 && Lags(s)))
  {
    if Taken(op, fault) {
      PutIsEager(s, op.chunk, op.number, op.now, op.ending);
    } else if op.Settle? {
      SettleCatchesUp(s, op.now);
    }
  }

  lemma {:induction false} EagerStep(s: Store, r: Row, ops: seq<(Op, Fault)>)
    requires ops != []
    ensures var op, fault := ops[0].0, ops[0].1;
      EagerThroughout(s, r, ops) <==> ServesEager(s, r) && EagerThroughout(Attempt(s, op, fault), Next(r, op, fault), ops[1..])
  {
    var u, n, rest := Attempt(s, ops[0].0, ops[0].1), Next(r, ops[0].0, ops[0].1), ops[1..];
    forall k | 0 <= k <= |rest|
      ensures Run(s, ops[..k+1]) == Run(u, rest[..k]) && Eager(r, ops[..k+1]) == Eager(n, rest[..k])
    {
      assert ops[..k+1][0] == ops[0] && ops[..k+1][1..] == rest[..k];
    }
    assert Run(s, ops[..0]) == s && Eager(r, ops[..0]) == r;
    if ServesEager(s, r) && EagerThroughout(u, n, rest) {
      forall k | 0 <= k <= |ops| ensures ServesEager(Run(s, ops[..k]), Eager(r, ops[..k])) {
        if k > 0 { assert Run(s, ops[..k-1+1]) == Run(u, rest[..k-1]) && Eager(r, ops[..k-1+1]) == Eager(n, rest[..k-1]); }
      }
    }
    if EagerThroughout(s, r, ops) {
      assert ServesEager(Run(s, ops[..0]), Eager(r, ops[..0]));
      forall k | 0 <= k <= |rest| ensures ServesEager(Run(u, rest[..k]), Eager(n, rest[..k])) {
        assert ServesEager(Run(s, ops[..k+1]), Eager(r, ops[..k+1]));
      }
    }
  }

  /**
   Whatever the cadence, the clock, the settles and the failures: what is served is, after every step, what an eager writer
   would have stored from the accepted writes alone, bytes and number, if and only if no write without a number is accepted
   while the row lags behind what is served.
   */
  lemma {:induction false} LazyTailIsEagerIff(s: Store, ops: seq<(Op, Fault)>)
    requires Ready(s)
    ensures EagerThroughout(s, Row(Tail(s), Number(s)), ops) <==> NumberedWhileLagging(s, ops)
    decreases |ops|
  {
    var r := Row(Tail(s), Number(s));
    if ops == [] {
      assert forall k :: 0 <= k <= |ops| ==> ops[..k] == [];
    } else {
      var u, n := Attempt(s, ops[0].0, ops[0].1), Next(r, ops[0].0, ops[0].1);
      AttemptIsEager(s, ops[0].0, ops[0].1);
      EagerStep(s, r, ops);
      if ServesEager(u, n) {
        LazyTailIsEagerIff(u, ops[1..]);
      } else {
        assert Run(u, ops[1..][..0]) == u && Eager(n, ops[1..][..0]) == n;
      }
    }
  }

  lemma {:induction false} LazyTailIsEager(s: Store, ops: seq<(Op, Fault)>)
    requires Ready(s) && NumberedWhileLagging(s, ops)
    ensures ServesEager(Run(s, ops), Eager(Row(Tail(s), Number(s)), ops))
  {
    LazyTailIsEagerIff(s, ops);
    assert ops[..|ops|] == ops;
  }

  /** In particular when every write carries a number. */
  lemma {:induction false} NumberedIsEager(s: Store, ops: seq<(Op, Fault)>)
    requires Numbered(ops)
    ensures NumberedWhileLagging(s, ops)
    decreases |ops|
  {
    if ops != [] {
      assert Numbered(ops[1..]) by {
        forall i | 0 <= i < |ops[1..]| ensures ops[1..][i].0.Put? ==> ops[1..][i].0.number != 0 { assert ops[1..][i] == ops[i+1]; }
      }
      NumberedIsEager(Attempt(s, ops[0].0, ops[0].1), ops[1..]);
    }
  }

  lemma {:induction false} SettleKeepsBytes(s: Store, now: int)
    requires Consistent(s)
    ensures Consistent(Settled(s, now)) && Tail(Settled(s, now)) == Tail(s)
  {
  }

  /** The bytes alone agree with the eager writer for every run, numbered or not. */
  lemma {:induction false} LazyBytesAreEager(s: Store, ops: seq<(Op, Fault)>, r: Row)
    requires Consistent(s) && r.output == Tail(s)
    ensures Tail(Run(s, ops)) == Eager(r, ops).output
    decreases |ops|
  {
    if ops != [] {
      var (op, fault) := ops[0];
      if Taken(op, fault) {
        PutIsEager(s, op.chunk, op.number, op.now, op.ending);
      } else if op.Settle? {
        SettleKeepsBytes(s, op.now);
      }
      LazyBytesAreEager(Attempt(s, op, fault), ops[1..], Next(r, op, fault));
    }
  }

  lemma {:induction false} RunThree(s: Store, r: Row, a: Op, b: Op, c: Op)
    ensures var ops := [(a, Nowhere), (b, Nowhere), (c, Nowhere)];
      && Run(s, ops) == Attempt(Attempt(Attempt(s, a, Nowhere), b, Nowhere), c, Nowhere)
      && Eager(r, ops) == Next(Next(Next(r, a, Nowhere), b, Nowhere), c, Nowhere)
  {
    var x, y, z := (a, Nowhere), (b, Nowhere), (c, Nowhere);
    assert [x, y, z][1..] == [y, z] && [y, z][1..] == [z] && [z][1..] == [];
    var s1, r1 := Attempt(s, a, Nowhere), Next(r, a, Nowhere);
    var s2, r2 := Attempt(s1, b, Nowhere), Next(r1, b, Nowhere);
    assert Run(s2, [z]) == Run(Attempt(s2, c, Nowhere), []) && Eager(r2, [z]) == Eager(Next(r2, c, Nowhere), []);
    assert Run(s1, [y, z]) == Run(s2, [z]) && Eager(r1, [y, z]) == Eager(r2, [z]);
  }

  /**
   A new terminal, a write under 1, one under 2 ten milliseconds later that is only held, and an unnumbered one: the bytes
   go forward and the number served falls back to 1.
   */
  lemma {:induction false} UnnumberedFallsBack(a: string, b: string, c: string)
    requires |a + b + c| <= MAX_CHARS
    ensures var s, r := Store(Row("", 0), None), Row("", 0);
      var ops := [(Put(a, 1, 0, false), Nowhere), (Put(b, 2, 10, false), Nowhere), (Put(c, 0, 20, false), Nowhere)];
      && Ready(s) && ServesEager(s, r)
      && Tail(Run(s, ops)) == Eager(r, ops).output == a + b + c
      && Number(Run(s, ops)) == 1 && Eager(r, ops).seq_ == 2
  {
    var s, r := Store(Row("", 0), None), Row("", 0);
    RunThree(s, r, Put(a, 1, 0, false), Put(b, 2, 10, false), Put(c, 0, 20, false));
    assert "" + a == a;
    assert Attempt(s, Put(a, 1, 0, false), Nowhere) == Store(Row(a, 1), Some(Held(a, 1, 0, false)));
    assert Attempt(Store(Row(a, 1), Some(Held(a, 1, 0, false))), Put(b, 2, 10, false), Nowhere)
      == Store(Row(a, 1), Some(Held(a + b, 2, 0, true)));
  }

  function Texts(ops: seq<(Op, Fault)>): string {
    if ops == [] then "" else
    (if Taken(ops[0].0, ops[0].1) then ops[0].0.chunk else "") + Texts(ops[1..])
  }

  lemma {:induction false} NextIsTheEnd(r: Row, whole: string, op: Op, fault: Fault)
    requires Suffix(r.output, whole)
    ensures Suffix(Next(r, op, fault).output, whole + if Taken(op, fault) then op.chunk else "")
  {
    if Taken(op, fault) {
      SuffixExtend(r.output, whole, op.chunk);
      TrimKeepsTheEnd(r.output + op.chunk);
      SuffixTransitive(Trim(r.output + op.chunk), r.output + op.chunk, whole + op.chunk);
    } else {
      assert whole + "" == whole;
    }
  }

  /** The stored tail is always the end of everything that was written. */
  lemma {:induction false} EagerIsTheEnd(r: Row, whole: string, ops: seq<(Op, Fault)>)
    requires Suffix(r.output, whole)
    ensures Suffix(Eager(r, ops).output, whole + Texts(ops))
    decreases |ops|
  {
    if ops == [] {
      assert whole + "" == whole;
    } else {
      var (op, fault) := ops[0];
      var chunk := if Taken(op, fault) then op.chunk else "";
      NextIsTheEnd(r, whole, op, fault);
      EagerIsTheEnd(Next(r, op, fault), whole + chunk, ops[1..]);
      Associate(whole, chunk, Texts(ops[1..]));
    }
  }
}
