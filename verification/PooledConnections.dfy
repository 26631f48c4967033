/**
 The database connection pool (service/db_pool.py): a checkout is detached when it is closed, the connection's own
 worker ends whatever was still queued before the reset, and only then may the connection be idle again. Every method
 is one step between two awaits. The per-timeout lists of idle connections are kept in one list, in the order of return.
 */
module PooledConnections {
  /** What a worker is asked to do, as far as the open transaction is concerned. */
  datatype Job = Statement(opens: bool) | Ends | Reset

  datatype Place = Out(ticket: nat) | Releasing(ticket: nat, done: bool) | Idle | Gone

  datatype Conn = Conn(path: string, busy: int, loop: int, alive: bool, inTx: bool, queue: seq<Job>, dirtied: bool, place: Place)

  /** One `PooledConnection`; closed means it has let go of its connection. */
  datatype Ticket = Ticket(conn: nat, open: bool, dirty: bool)

  datatype State = State(conns: map<nat, Conn>, tickets: map<nat, Ticket>, idle: seq<nat>, path: string, loop: int)

  predicate Distinct(s: seq<nat>) {
    forall i, j :: 0 <= i < j < |s| ==> s[i] != s[j]
  }

  predicate NoReset(q: seq<Job>) {
    forall i :: 0 <= i < |q| ==> q[i] != Reset
  }

  /** What a connection must be like where it is. */
  predicate Fits(id: nat, c: Conn, tickets: map<nat, Ticket>, idle: seq<nat>, path: string, loop: int) {
    match c.place
    case Out(t) => t in tickets && tickets[t] == Ticket(id, true, c.dirtied) && NoReset(c.queue) && id !in idle
    case Releasing(t, done) =>
      && t in tickets && tickets[t] == Ticket(id, false, false) && !c.dirtied && id !in idle
      && (if done then c.queue == [] && !c.inTx else c.queue != [] && c.queue[|c.queue|-1] == Reset && NoReset(c.queue[..|c.queue|-1]))
    case Idle => id in idle && c.queue == [] && !c.inTx && !c.dirtied && c.path == path && c.loop == loop
    case Gone => id !in idle
  }

  /** Every connection is in exactly one place, and fits it; every open checkout holds one connection of its own. */
  ghost predicate Inv(s: State) {
    && Distinct(s.idle) && (forall id :: id in s.idle ==> id in s.conns)
    && (forall id :: id in s.conns ==> Fits(id, s.conns[id], s.tickets, s.idle, s.path, s.loop))
    && (forall t :: t in s.tickets && s.tickets[t].open ==> s.tickets[t].conn in s.conns && s.conns[s.tickets[t].conn].place == Out(t))
  }

  /** What `Inv` promises whoever takes a connection from the pool. */
  lemma {:induction false} IdleIsClean(s: State, i: nat)
    requires Inv(s) && i < |s.idle|
    ensures s.idle[i] in s.conns && var c := s.conns[s.idle[i]];
      c.place == Idle && c.queue == [] && !c.inTx && !c.dirtied && c.path == s.path && c.loop == s.loop
    ensures forall j :: 0 <= j < |s.idle| && j != i ==> s.idle[j] != s.idle[i]
  {
  }

  /** No two open checkouts share a connection. */
  lemma {:induction false} CheckoutsAreApart(s: State, t: nat, u: nat)
    requires Inv(s) && t in s.tickets && u in s.tickets && s.tickets[t].open && s.tickets[u].open && t != u
    ensures s.tickets[t].conn != s.tickets[u].conn
  {
  }

  // ---------------------------------------------------------------------------------------------
  // The worker

  function Done(c: Conn, ok: bool): Conn
    requires c.queue != []
  {
    match c.queue[0]
    case Statement(opens) => c.(queue := c.queue[1..], inTx := c.inTx || opens)
    case Ends => c.(queue := c.queue[1..], inTx := false)
    case Reset =>
      var inTx := c.inTx && !ok;
      c.(queue := c.queue[1..], inTx := inTx, place := if c.place.Releasing? && !inTx then Releasing(c.place.ticket, true) else Gone)
  }

  /** Whatever was still queued when the checkout was closed has run when the reset has. */
  lemma {:induction false} WorkerKeeps(s: State, id: nat, ok: bool)
    requires Inv(s) && id in s.conns && s.conns[id].queue != []
    ensures Inv(s.(conns := s.conns[id := Done(s.conns[id], ok)]))
  {
    var c := s.conns[id];
    assert Fits(id, c, s.tickets, s.idle, s.path, s.loop);
    var d := Done(c, ok);
    assert c.place.Releasing? && |c.queue| > 1 ==> c.queue[1..][..|c.queue|-2] == c.queue[..|c.queue|-1][1..];
    assert Fits(id, d, s.tickets, s.idle, s.path, s.loop);
  }

  /** The connection after its worker has done its first `n` jobs. */
  function Worked(c: Conn, n: nat): Conn
    requires n <= |c.queue|
    decreases n
  {
    if n == 0 then c else Worked(Done(c, true), n - 1)
  }

  /** The first `n` jobs leave a transaction open: one of them opened it and none after that ended it, or it was open and none did. */
  ghost predicate LeavesOpen(c: Conn, n: nat) {
    && n <= |c.queue|
    && (|| (c.inTx && forall i :: 0 <= i < n ==> !c.queue[i].Ends?)
        || (exists i :: 0 <= i < n && c.queue[i] == Statement(true) && forall j :: i < j < n ==> !c.queue[j].Ends?))
  }

  /** What the model calls an open transaction is one, for every list of statements, commits and rollbacks. */
  lemma {:induction false} OpenTransactionIff(c: Conn, n: nat)
    requires n <= |c.queue| && NoReset(c.queue)
    ensures Worked(c, n).inTx <==> LeavesOpen(c, n)
    decreases n
  {
    if n > 0 {
      var d := Done(c, true);
      assert d.queue == c.queue[1..] && forall i :: 0 <= i < |d.queue| ==> d.queue[i] == c.queue[i+1];
      OpenTransactionIff(d, n - 1);
      OpensFirst(c, d, n);
    }
  }

  lemma {:induction false} OpensFirst(c: Conn, d: Conn, n: nat)
    requires 0 < n <= |c.queue| && d.queue == c.queue[1..] && c.queue[0] != Reset
    requires d.inTx <==> c.queue[0] == Statement(true) || (c.inTx && !c.queue[0].Ends?)
    ensures LeavesOpen(d, n - 1) <==> LeavesOpen(c, n)
  {
    assert forall i :: 0 <= i < |d.queue| ==> d.queue[i] == c.queue[i+1];
    if LeavesOpen(d, n - 1) {
      if d.inTx && forall i :: 0 <= i < n - 1 ==> !d.queue[i].Ends? {
        assert forall j :: 0 < j < n ==> c.queue[j] == d.queue[j-1];
      } else {
        var i :| 0 <= i < n - 1 && d.queue[i] == Statement(true) && forall j :: i < j < n - 1 ==> !d.queue[j].Ends?;
        assert c.queue[i+1] == Statement(true) && forall j :: i + 1 < j < n ==> c.queue[j] == d.queue[j-1];
      }
    }
    if LeavesOpen(c, n) && !(d.inTx && forall i :: 0 <= i < n - 1 ==> !d.queue[i].Ends?) {
      assert exists i :: 0 <= i < n && c.queue[i] == Statement(true) && forall j :: i < j < n ==> !c.queue[j].Ends?;
      var i :| 0 <= i < n && c.queue[i] == Statement(true) && forall j :: i < j < n ==> !c.queue[j].Ends?;
      assert d.queue[i-1] == Statement(true) && forall j :: i - 1 < j < n - 1 ==> d.queue[j] == c.queue[j+1];
    }
  }

  // ---------------------------------------------------------------------------------------------
  // Taking out

  /** The most recently returned idle connection with that timeout, as an index into the idle list; -1 if none. */
  function LastWith(s: State, busy: int, n: nat): (i: int)
    requires n <= |s.idle| && forall id :: id in s.idle ==> id in s.conns
    ensures -1 <= i < n
    ensures i >= 0 ==> s.conns[s.idle[i]].busy == busy
    ensures forall j :: i < j < n ==> s.conns[s.idle[j]].busy != busy
  {
    if n == 0 then -1 else if s.conns[s.idle[n-1]].busy == busy then n - 1 else LastWith(s, busy, n - 1)
  }

  function Without(idle: seq<nat>, i: nat): seq<nat>
    requires i < |idle|
  {
    idle[..i] + idle[i+1..]
  }

  lemma {:induction false} WithoutMembers(idle: seq<nat>, i: nat)
    requires Distinct(idle) && i < |idle|
    ensures Distinct(Without(idle, i)) && forall id :: id in Without(idle, i) <==> id in idle && id != idle[i]
  {
  }

  function Moved(s: State, i: nat, place: Place): State
    requires i < |s.idle| && s.idle[i] in s.conns
  {
    s.(conns := s.conns[s.idle[i] := s.conns[s.idle[i]].(place := place)], idle := Without(s.idle, i))
  }

  lemma {:induction false} RetireKeeps(s: State, i: nat)
    requires Inv(s) && i < |s.idle|
    ensures Inv(Moved(s, i, Gone))
  {
    WithoutMembers(s.idle, i);
    IdleIsClean(s, i);
    var r := Moved(s, i, Gone);
    forall id | id in r.conns ensures Fits(id, r.conns[id], r.tickets, r.idle, r.path, r.loop) {
      assert Fits(id, s.conns[id], s.tickets, s.idle, s.path, s.loop);
    }
  }

  function CheckedOut(s: State, i: nat, t: nat): State
    requires i < |s.idle| && s.idle[i] in s.conns
  {
    var r := Moved(s, i, Out(t));
    r.(tickets := r.tickets[t := Ticket(s.idle[i], true, false)])
  }

  lemma {:induction false} CheckoutKeeps(s: State, i: nat, t: nat)
    requires Inv(s) && i < |s.idle| && t !in s.tickets
    ensures Inv(CheckedOut(s, i, t))
  {
    WithoutMembers(s.idle, i);
    IdleIsClean(s, i);
    var r := CheckedOut(s, i, t);
    forall id | id in r.conns ensures Fits(id, r.conns[id], r.tickets, r.idle, r.path, r.loop) {
      assert Fits(id, s.conns[id], s.tickets, s.idle, s.path, s.loop);
    }
  }

  function Fresh(s: State, id: nat, t: nat, path: string, busy: int, loop: int): State {
    s.(conns := s.conns[id := Conn(path, busy, loop, true, false, [], false, Out(t))], tickets := s.tickets[t := Ticket(id, true, false)])
  }

  lemma {:induction false} FreshKeeps(s: State, id: nat, t: nat, path: string, busy: int, loop: int)
    requires Inv(s) && id !in s.conns && t !in s.tickets
    ensures Inv(Fresh(s, id, t, path, busy, loop))
  {
  }

  // ---------------------------------------------------------------------------------------------
  // Using and giving back

  function Issued(s: State, t: nat, job: Job, stateful: bool): State
    requires t in s.tickets && s.tickets[t].conn in s.conns
  {
    var id := s.tickets[t].conn;
    var c := s.conns[id];
    s.(conns := s.conns[id := c.(queue := c.queue + [job], dirtied := c.dirtied || stateful)],
       tickets := s.tickets[t := s.tickets[t].(dirty := s.tickets[t].dirty || stateful)])
  }

  lemma {:induction false} IssueKeeps(s: State, t: nat, job: Job, stateful: bool)
    requires Inv(s) && t in s.tickets && s.tickets[t].open && job != Reset
    ensures Inv(Issued(s, t, job, stateful))
  {
  }

  /** `close`: detached first; then the reset is queued behind everything else, or the connection is let go. */
  function Closed(s: State, t: nat, keep: bool): State
    requires t in s.tickets && s.tickets[t].conn in s.conns
  {
    var id := s.tickets[t].conn;
    var c := s.conns[id];
    s.(conns := s.conns[id := if keep then c.(queue := c.queue + [Reset], place := Releasing(t, false)) else c.(place := Gone)],
       tickets := s.tickets[t := s.tickets[t].(open := false)])
  }

  lemma {:induction false} CloseKeeps(s: State, t: nat, keep: bool)
    requires Inv(s) && t in s.tickets && s.tickets[t].open && (keep ==> !s.tickets[t].dirty)
    ensures Inv(Closed(s, t, keep))
  {
  }

  function Returned(s: State, id: nat, keep: bool): State
    requires id in s.conns
  {
    s.(conns := s.conns[id := s.conns[id].(place := if keep then Idle else Gone)], idle := if keep then s.idle + [id] else s.idle)
  }

  lemma {:induction false} ReturnKeeps(s: State, id: nat, keep: bool)
    requires Inv(s) && id in s.conns && s.conns[id].place.Releasing?
    requires keep ==> s.conns[id].place.done && s.conns[id].path == s.path && s.conns[id].loop == s.loop
    ensures Inv(Returned(s, id, keep))
  {
    var r := Returned(s, id, keep);
    assert Fits(id, s.conns[id], s.tickets, s.idle, s.path, s.loop);
    forall i | i in r.conns ensures Fits(i, r.conns[i], r.tickets, r.idle, r.path, r.loop) {
      assert Fits(i, s.conns[i], s.tickets, s.idle, s.path, s.loop);
    }
  }

  /** With nothing idle the pool may be bound to another file and loop. */
  lemma {:induction false} RebindKeeps(s: State, path: string, loop: int)
    requires Inv(s) && s.idle == []
    ensures Inv(s.(path := path, loop := loop))
  {
    var r := s.(path := path, loop := loop);
    forall id | id in r.conns ensures Fits(id, r.conns[id], r.tickets, r.idle, path, loop) {
      assert Fits(id, s.conns[id], s.tickets, s.idle, s.path, s.loop);
    }
  }

  lemma {:induction false} DeathKeeps(s: State, id: nat)
    requires Inv(s) && id in s.conns
    ensures Inv(s.(conns := s.conns[id := s.conns[id].(alive := false)]))
  {
    assert Fits(id, s.conns[id], s.tickets, s.idle, s.path, s.loop);
  }

  // ---------------------------------------------------------------------------------------------
  // Every run

  datatype Action =
    | TakesOut(i: nat, t: nat)
    | Opens(id: nat, t: nat, path: string, busy: int, loop: int)
    | Issues(t: nat, job: Job, stateful: bool)
    | Works(id: nat, ok: bool)
    | Dies(id: nat)
    | Closes(t: nat, enabled: bool)
    | Fails(id: nat)
    | Finishes(id: nat, enabled: bool)
    | LetsGo(i: nat)
    | Rebinds(path: string, loop: int)

  predicate Enabled(s: State, a: Action) {
    match a
    case TakesOut(i, t) => i < |s.idle| && s.idle[i] in s.conns && t !in s.tickets
    case Opens(id, t, path, busy, loop) => id !in s.conns && t !in s.tickets
    case Issues(t, job, stateful) => t in s.tickets && s.tickets[t].open && s.tickets[t].conn in s.conns && job != Reset
    case Works(id, ok) => id in s.conns && s.conns[id].queue != []
    case Dies(id) => id in s.conns
    case Closes(t, enabled) => t in s.tickets && s.tickets[t].open && s.tickets[t].conn in s.conns
    case Fails(id) => id in s.conns && s.conns[id].place.Releasing?
    case Finishes(id, enabled) => id in s.conns && s.conns[id].place.Releasing? && s.conns[id].place.done
    case LetsGo(i) => i < |s.idle| && s.idle[i] in s.conns
    case Rebinds(path, loop) => s.idle == []
  }

  function Step(s: State, a: Action, idleMax: nat): State
    requires Enabled(s, a)
  {
    match a
    case TakesOut(i, t) => CheckedOut(s, i, t)
    case Opens(id, t, path, busy, loop) => Fresh(s, id, t, path, busy, loop)
    case Issues(t, job, stateful) => Issued(s, t, job, stateful)
    case Works(id, ok) => s.(conns := s.conns[id := Done(s.conns[id], ok)])
    case Dies(id) => s.(conns := s.conns[id := s.conns[id].(alive := false)])
    case Closes(t, enabled) => Closed(s, t, enabled && !s.tickets[t].dirty && s.conns[s.tickets[t].conn].alive)
    case Fails(id) => Returned(s, id, false)
    case Finishes(id, enabled) =>
      Returned(s, id, enabled && s.conns[id].path == s.path && s.conns[id].loop == s.loop && |s.idle| < idleMax)
    case LetsGo(i) => Moved(s, i, Gone)
    case Rebinds(path, loop) => s.(path := path, loop := loop)
  }

  ghost predicate Sound(s: State, idleMax: nat) {
    Inv(s) && |s.idle| <= idleMax
  }

  lemma {:induction false} StepKeeps(s: State, a: Action, idleMax: nat)
    requires Sound(s, idleMax) && Enabled(s, a)
    ensures Sound(Step(s, a, idleMax), idleMax)
  {
    match a {
      case TakesOut(i, t) => CheckoutKeeps(s, i, t);
      case Opens(id, t, path, busy, loop) => FreshKeeps(s, id, t, path, busy, loop);
      case Issues(t, job, stateful) => IssueKeeps(s, t, job, stateful);
      case Works(id, ok) => WorkerKeeps(s, id, ok);
      case Dies(id) => DeathKeeps(s, id);
      case Closes(t, enabled) => CloseKeeps(s, t, enabled && !s.tickets[t].dirty && s.conns[s.tickets[t].conn].alive);
      case Fails(id) => ReturnKeeps(s, id, false);
      case Finishes(id, enabled) =>
        ReturnKeeps(s, id, enabled && s.conns[id].path == s.path && s.conns[id].loop == s.loop && |s.idle| < idleMax);
      case LetsGo(i) => RetireKeeps(s, i);
      case Rebinds(path, loop) => RebindKeeps(s, path, loop);
    }
  }

  ghost predicate IsRun(s: State, actions: seq<Action>, idleMax: nat)
    decreases |actions|
  {
    actions == [] || (Enabled(s, actions[0]) && IsRun(Step(s, actions[0], idleMax), actions[1..], idleMax))
  }

  function After(s: State, actions: seq<Action>, idleMax: nat): State
    requires IsRun(s, actions, idleMax)
    decreases |actions|
  {
    if actions == [] then s else After(Step(s, actions[0], idleMax), actions[1..], idleMax)
  }

  /**
   In every run, however requests, workers, cancellations and re-bindings interleave: each connection is in exactly one
   place and fits it, open checkouts hold connections of their own, and the idle ones are within the limit.
   */
  lemma {:induction false} AlwaysInOnePlace(s: State, actions: seq<Action>, idleMax: nat)
    requires Sound(s, idleMax) && IsRun(s, actions, idleMax)
    ensures Sound(After(s, actions, idleMax), idleMax)
    decreases |actions|
  {
    if actions != [] {
      StepKeeps(s, actions[0], idleMax);
      AlwaysInOnePlace(Step(s, actions[0], idleMax), actions[1..], idleMax);
    }
  }
}
