/**
 What a checkout reports of what it wrote (service/db_pool.py): statements are noted when they are issued, a commit
 reports the notes if the connection's count of changed rows has moved since the last commit or rollback, and a
 rollback drops them. A rollback does not take the count back.
 */
module CommitReport {
  import opened Common

  /**
   How a commit ends. Work already handed to the connection's worker goes on when its request is cancelled, so a commit
   may also take effect without the checkout ever hearing of it.
   */
  datatype Outcome = Done | Refused | Unheard

  /** What happens on one connection, over any number of checkouts. */
  datatype Op<W> =
    | Statement(note: Option<W>, rows: nat)
    | Commit(outcome: Outcome)
    | Rollback(ok: bool)
    | Script(ok: bool, notes: seq<W>, rows: nat)
    | Checkout

  /** The checkout's notes, the count it last looked at, the connection's count, and everything reported so far. */
  datatype State<W> = State(writes: seq<W>, seen: nat, total: nat, reports: seq<seq<W>>)

  predicate Changed<W>(s: State<W>) {
    s.total != s.seen
  }

  function Noted<W>(note: Option<W>): seq<W> {
    if note.Some? then [note.value] else []
  }

  function Report<W>(due: bool, writes: seq<W>): seq<seq<W>> {
    if due && writes != [] then [writes] else []
  }

  /** The notes are taken and the count is looked at; they are reported if it moved. */
  function Settled<W>(s: State<W>, more: seq<W>): State<W> {
    State([], s.total, s.total, s.reports + Report(Changed(s), s.writes + more))
  }

  function Step<W>(s: State<W>, op: Op<W>): State<W> {
    match op
    case Statement(note, rows) => s.(writes := s.writes + Noted(note), total := s.total + rows)
    case Commit(outcome) => if outcome.Done? then Settled(s, []) else s
    case Rollback(ok) => State([], s.total, s.total, s.reports)
    case Script(ok, notes, rows) =>
      var t := s.(total := s.total + rows);
      if ok then Settled(t, notes) else t
    case Checkout => State([], s.total, s.total, s.reports)
  }

  function Run<W>(s: State<W>, ops: seq<Op<W>>): State<W>
    decreases |ops|
  {
    if ops == [] then s else Run(Step(s, ops[0]), ops[1..])
  }

  // ---------------------------------------------------------------------------------------------
  // What should be reported

  /** The transaction as it really is: what it has noted, and whether it changed a row. */
  datatype Tx<W> = Tx(open: seq<W>, changed: bool)

  function TxStep<W>(t: Tx<W>, op: Op<W>): Tx<W> {
    match op
    case Statement(note, rows) => Tx(if note.Some? then t.open + [note.value] else t.open, t.changed || rows > 0)
    case Commit(outcome) => if outcome.Refused? then t else Tx([], false)
    case Rollback(ok) => if ok then Tx([], false) else t
    case Script(ok, notes, rows) => Tx([], false)
    case Checkout => Tx([], false)
  }

  /** What there is to tell of writes that became durable: nothing of those that changed no row, and no empty list. */
  function ToTell<W>(changed: bool, writes: seq<W>): (told: seq<seq<W>>)
    ensures told == [writes] || told == []
    ensures told == [] <==> !changed || |writes| == 0
  {
    if changed && writes != [] then [writes] else []
  }

  /** What became durable in this step and changed something. A failed script still commits what was pending before it. */
  function Durable<W>(t: Tx<W>, op: Op<W>): seq<seq<W>> {
    match op
    case Statement(note, rows) => []
    case Commit(outcome) => if outcome.Refused? then [] else ToTell(t.changed, t.open)
    case Rollback(ok) => []
    case Script(ok, notes, rows) =>
      if ok then ToTell(t.changed || rows > 0, t.open + notes) else ToTell(t.changed, t.open) + ToTell(rows > 0, notes)
    case Checkout => []
  }

  function Reference<W>(t: Tx<W>, ops: seq<Op<W>>): seq<seq<W>>
    decreases |ops|
  {
    if ops == [] then [] else Durable(t, ops[0]) + Reference(TxStep(t, ops[0]), ops[1..])
  }

  /** The checkout's notes and count describe the transaction. */
  ghost predicate Tracks<W>(s: State<W>, t: Tx<W>) {
    s.writes == t.open && s.seen <= s.total && Changed(s) == t.changed
  }

  predicate Behaves<W>(op: Op<W>) {
    match op
    case Commit(outcome) => !outcome.Unheard?
    case Rollback(ok) => ok
    case Script(ok, notes, rows) => ok
    case _ => true
  }

  predicate AllBehave<W>(ops: seq<Op<W>>) {
    forall i :: 0 <= i < |ops| ==> Behaves(ops[i])
  }

  predicate NothingPending<W>(s: State<W>, op: Op<W>) {
    s.writes == [] && !Changed(s) && (op.Script? ==> op.rows == 0)
  }

  /** A step keeps track of the transaction and reports what it made durable, exactly when it behaves or finds nothing pending. */
  lemma {:induction false} StepTracksIff<W>(s: State<W>, t: Tx<W>, op: Op<W>)
    requires Tracks(s, t)
    ensures Tracks(Step(s, op), TxStep(t, op)) && Step(s, op).reports == s.reports + Durable(t, op)
       <==> Behaves(op) || NothingPending(s, op)
  {
    assert s.writes + [] == s.writes && s.reports + [] == s.reports;
  }

  /**
   Every history of statements, commits (refused ones too), rollbacks, scripts and re-checkouts in which rollbacks and
   scripts succeed and no commit goes unheard reports exactly the writes of the transactions that committed and changed
   a row, in order, each once.
   */
  lemma {:induction false} ReportsWhatCommitted<W>(s: State<W>, t: Tx<W>, ops: seq<Op<W>>)
    requires Tracks(s, t) && AllBehave(ops)
    ensures Run(s, ops).reports == s.reports + Reference(t, ops)
    decreases |ops|
  {
    if ops == [] {
      assert s.reports + [] == s.reports;
    } else {
      StepTracksIff(s, t, ops[0]);
      ReportsWhatCommitted(Step(s, ops[0]), TxStep(t, ops[0]), ops[1..]);
      Associate(s.reports, Durable(t, ops[0]), Reference(TxStep(t, ops[0]), ops[1..]));
    }
  }

  // ---------------------------------------------------------------------------------------------
  // After a rollback or a script that failed, or a commit that went unheard

  /** Whatever is done after `op`, the reports are right. */
  ghost predicate RightAfter<W(!new)>(s: State<W>, t: Tx<W>, op: Op<W>) {
    forall later: seq<Op<W>> :: AllBehave(later) ==>
      Run(s, [op] + later).reports == s.reports + Reference(t, [op] + later)
  }

  lemma {:induction false} OneThen<W>(s: State<W>, t: Tx<W>, op: Op<W>, later: seq<Op<W>>)
    ensures Run(s, [op] + later) == Run(Step(s, op), later)
    ensures Reference(t, [op] + later) == Durable(t, op) + Reference(TxStep(t, op), later)
  {
  }

  /** A commit after one more statement. */
  lemma {:induction false} StatementThenCommit<W>(s: State<W>, t: Tx<W>, w: W, rows: nat)
    ensures var ops := [Statement(Some(w), rows), Commit(Done)];
      && Run(s, ops).reports == s.reports + Report(s.total + rows != s.seen, s.writes + [w])
      && Reference(t, ops) == Report(t.changed || rows > 0, t.open + [w])
  {
    var a, b := Statement(Some(w), rows), Commit(Done);
    assert [a, b] == [a] + [b] && [b] == [b] + [];
    OneThen(s, t, a, [b]);
    OneThen(Step(s, a), TxStep(t, a), b, []);
    assert (s.writes + [w]) + [] == s.writes + [w];
    assert Durable(t, a) + Reference(TxStep(t, a), [b]) == Reference(TxStep(t, a), [b]);
    assert Durable(TxStep(t, a), b) + [] == Durable(TxStep(t, a), b);
  }

  /** What must be right in particular: nothing more at all, and one more statement with or without a changed row. */
  lemma {:induction false} RightNext<W(!new)>(s: State<W>, t: Tx<W>, op: Op<W>, later: seq<Op<W>>)
    requires RightAfter(s, t, op) && AllBehave(later)
    ensures Run(Step(s, op), later).reports == s.reports + (Durable(t, op) + Reference(TxStep(t, op), later))
  {
  }

  lemma {:induction false} RightStatement<W(!new)>(s: State<W>, t: Tx<W>, op: Op<W>, w: W, rows: nat)
    requires RightAfter(s, t, op) && Step(s, op).reports == s.reports && Durable(t, op) == []
    ensures var s', t' := Step(s, op), TxStep(t, op);
      Report(s'.total + rows != s'.seen, s'.writes + [w]) == Report(t'.changed || rows > 0, t'.open + [w])
  {
    var s', t' := Step(s, op), TxStep(t, op);
    var ops := [Statement(Some(w), rows), Commit(Done)];
    RightNext(s, t, op, ops);
    StatementThenCommit(s', t', w, rows);
    assert Durable(t, op) + Reference(t', ops) == Reference(t', ops);
    SameRest(s.reports, Report(s'.total + rows != s'.seen, s'.writes + [w]), Reference(t', ops));
  }

  lemma {:induction false} OnlyIfNothingPending<W(!new)>(s: State<W>, t: Tx<W>, op: Op<W>, w: W)
    requires Tracks(s, t) && !Behaves(op) && RightAfter(s, t, op)
    ensures NothingPending(s, op)
  {
    var s', t' := Step(s, op), TxStep(t, op);
    RightNext(s, t, op, []);
    assert s.reports + [] == s'.reports;
    SameRest(s.reports, [], Durable(t, op) + []);
    assert Durable(t, op) == [];
    RightStatement(s, t, op, w, 0);
    RightStatement(s, t, op, w, 1);
    assert s'.seen <= s'.total;
    assert Report(true, s'.writes + [w]) == [s'.writes + [w]] && Report(true, t'.open + [w]) == [t'.open + [w]];
    assert [s'.writes + [w]][0] == [t'.open + [w]][0];
    assert (s'.writes + [w])[..|s'.writes|] == s'.writes && (t'.open + [w])[..|t'.open|] == t'.open;
  }

  /**
   A failed rollback or script and an unheard commit leave the reporting right if and only if nothing was pending: no
   write noted and no row changed since the last commit or rollback, and no row changed by the script before it failed.
   */
  lemma {:induction false} FailureIsReportedRightIff<W(!new)>(s: State<W>, t: Tx<W>, op: Op<W>, w: W)
    requires Tracks(s, t) && !Behaves(op)
    ensures RightAfter(s, t, op) <==> NothingPending(s, op)
  {
    if NothingPending(s, op) {
      forall later: seq<Op<W>> | AllBehave(later) ensures Run(s, [op] + later).reports == s.reports + Reference(t, [op] + later) {
        OneThen(s, t, op, later);
        ReportsWhatCommitted(Step(s, op), TxStep(t, op), later);
        assert Durable(t, op) == [];
        assert [] + Reference(TxStep(t, op), later) == Reference(TxStep(t, op), later);
      }
    } else if RightAfter(s, t, op) {
      OnlyIfNothingPending(s, t, op, w);
    }
  }

  /** A script that fails after the statements before it were committed, and a rollback: those writes are never reported. */
  lemma {:induction false} FailedScriptLosesReport<W>(w: W)
    ensures var ops := [Statement(Some(w), 1), Script(false, [], 0), Rollback(true)];
      Run(State([], 0, 0, []), ops).reports == [] && Reference(Tx([], false), ops) == [[w]]
  {
    var s, t: Tx<W> := State([], 0, 0, []), Tx([], false);
    var a, b, c := Statement(Some(w), 1), Script(false, [], 0), Rollback(true);
    var s1, t1 := Step(s, a), TxStep(t, a);
    var s2, t2 := Step(s1, b), TxStep(t1, b);
    assert [a, b, c] == [a] + [b, c] && [b, c] == [b] + [c] && [c] == [c] + [];
    OneThen(s, t, a, [b, c]);
    OneThen(s1, t1, b, [c]);
    OneThen(s2, t2, c, []);
    assert t1 == Tx([w], true);
    assert Durable(t1, b) == [[w]];
    assert Reference(t2, [c]) == [];
  }

  /** A request cancelled inside its commit: the write is durable, the checkout is given back, and nothing was reported. */
  lemma {:induction false} UnheardCommitLosesReport<W>(w: W)
    ensures var ops := [Statement(Some(w), 1), Commit(Unheard), Op.Checkout];
      Run(State([], 0, 0, []), ops).reports == [] && Reference(Tx([], false), ops) == [[w]]
  {
    var s, t: Tx<W> := State([], 0, 0, []), Tx([], false);
    var a, b, c := Statement(Some(w), 1), Commit(Unheard), Op<W>.Checkout;
    var s1, t1 := Step(s, a), TxStep(t, a);
    var s2, t2 := Step(s1, b), TxStep(t1, b);
    assert [a, b, c] == [a] + [b, c] && [b, c] == [b] + [c] && [c] == [c] + [];
    OneThen(s, t, a, [b, c]);
    OneThen(s1, t1, b, [c]);
    OneThen(s2, t2, c, []);
    assert t1 == Tx([w], true);
    assert Durable(t1, b) == [[w]];
    assert Reference(t2, [c]) == [];
  }

  // ---------------------------------------------------------------------------------------------
  // The checkout object

  /**
   One connection and the checkout that uses it; `reported` is what the pool was told. The ghost fields are the
   transaction as it really is and what became durable: `Right` says that the checkout tells neither more nor less.
   */
  class Checkout<W> {
    var writes: seq<W>
    var rowsChanged: nat
    var totalChanges: nat
    var reported: seq<seq<W>>
    ghost var transaction: Tx<W>
    ghost var durable: seq<seq<W>>

    function Now(): State<W>
      reads this
    {
      State(writes, rowsChanged, totalChanges, reported)
    }

    ghost predicate Right()
      reads this
    {
      Tracks(Now(), transaction) && reported == durable
    }

    /** `op` happened to the transaction and to the file, whatever the checkout makes of it. */
    twostate predicate Happened(op: Op<W>)
      reads this
    {
      transaction == TxStep(old(transaction), op) && durable == old(durable) + Durable(old(transaction), op)
    }

    /** What was told is still right exactly when `op` behaves or found nothing pending. */
    twostate predicate ToldRightIff(op: Op<W>)
      reads this
    {
      old(Right()) ==> (Right() <==> Behaves(op) || NothingPending(old(Now()), op))
    }

    constructor ()
      ensures Right() && durable == [] && transaction == Tx([], false)
    {
      writes, rowsChanged, totalChanges, reported := [], 0, 0, [];
      transaction, durable := Tx([], false), [];
    }

    /** `_take_writes` and `_rows_changed_since_last`, then `_report`. */
    method Settle(more: seq<W>)
      modifies this`writes, this`rowsChanged, this`reported
      ensures Now() == Settled(old(Now()), more)
    {
      var taken := writes + more;
      writes := [];
      var changed := totalChanges != rowsChanged;
      rowsChanged := totalChanges;
      if changed && taken != [] {
        reported := reported + [taken];
      }
    }

    ghost method Happens(op: Op<W>)
      modifies this`transaction, this`durable
      ensures Happened(op)
    {
      durable := durable + Durable(transaction, op);
      transaction := TxStep(transaction, op);
    }

    method Execute(note: Option<W>, rows: nat)
      modifies this
      ensures Happened(Statement(note, rows)) && (old(Right()) ==> Right())
      ensures Now() == Step(old(Now()), Statement(note, rows))
    {
      ghost var s, t := Now(), transaction;
      if note.Some? {
        writes := writes + [note.value];
      }
      totalChanges := totalChanges + rows;
      Happens(Statement(note, rows));
      if old(Right()) { StepTracksIff(s, t, Statement(note, rows)); }
    }

    method Commit(outcome: Outcome)
      modifies this
      ensures Happened(Op.Commit(outcome)) && ToldRightIff(Op.Commit(outcome))
      ensures Now() == Step(old(Now()), Op.Commit(outcome))
    {
      ghost var s, t := Now(), transaction;
      if outcome.Done? {
        Settle([]);
      }
      Happens(Op.Commit(outcome));
      if old(Right()) { StepTracksIff(s, t, Op.Commit(outcome)); }
    }

    method Rollback(ok: bool)
      modifies this
      ensures Happened(Op.Rollback(ok)) && ToldRightIff(Op.Rollback(ok))
      ensures Now() == Step(old(Now()), Op.Rollback(ok))
    {
      ghost var s, t := Now(), transaction;
      writes, rowsChanged := [], totalChanges;
      Happens(Op.Rollback(ok));
      if old(Right()) { StepTracksIff(s, t, Op.Rollback(ok)); }
    }

    method ExecuteScript(ok: bool, notes: seq<W>, rows: nat)
      modifies this
      ensures Happened(Script(ok, notes, rows)) && ToldRightIff(Script(ok, notes, rows))
      ensures Now() == Step(old(Now()), Script(ok, notes, rows))
    {
      ghost var s, t := Now(), transaction;
      totalChanges := totalChanges + rows;
      if ok {
        Settle(notes);
      }
      Happens(Script(ok, notes, rows));
      if old(Right()) { StepTracksIff(s, t, Script(ok, notes, rows)); }
    }

    /** The connection goes back to the pool and is taken out again. */
    method Reissue()
      modifies this
      ensures Happened(Op.Checkout) && (old(Right()) ==> Right())
      ensures Now() == Step(old(Now()), Op.Checkout)
    {
      ghost var s, t := Now(), transaction;
      writes, rowsChanged := [], totalChanges;
      Happens(Op.Checkout);
      if old(Right()) { StepTracksIff(s, t, Op.Checkout); }
    }
  }
}
