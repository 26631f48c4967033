/** The pool object (service/db_pool.py, `ConnectionPool` and `PooledConnection`): its methods and their invariant. */
module ConnectionPool {
  import opened PooledConnections

  /** Some idle connections are let go, and nothing else changes. */
  ghost predicate Retires(before: map<nat, Conn>, after: map<nat, Conn>) {
    && after.Keys == before.Keys
    && forall id :: id in after ==> after[id] == before[id] || (before[id].place == Idle && after[id] == before[id].(place := Gone))
  }

  /** The same, and only of connections that were dead. */
  ghost predicate RetiresDead(before: map<nat, Conn>, after: map<nat, Conn>) {
    && after.Keys == before.Keys
    && forall id :: id in after ==>
         after[id] == before[id] || (before[id].place == Idle && !before[id].alive && after[id] == before[id].(place := Gone))
  }

  lemma {:induction false} RetiresTwice(a: map<nat, Conn>, b: map<nat, Conn>, c: map<nat, Conn>)
    requires Retires(a, b) && Retires(b, c)
    ensures Retires(a, c)
  {
  }

  lemma {:induction false} RestoreOne(a: map<nat, Conn>, b: map<nat, Conn>, id: nat, c: Conn)
    requires RetiresDead(a, b) && id in b && b[id].alive
    ensures id in a && b[id] == a[id] && RetiresDead(a, b[id := c][id := a[id]])
  {
  }

  lemma {:induction false} RetiresDeadTwice(a: map<nat, Conn>, b: map<nat, Conn>, c: map<nat, Conn>)
    requires RetiresDead(a, b) && RetiresDead(b, c)
    ensures RetiresDead(a, c)
  {
  }

  lemma {:induction false} LiveStaysIdle(before: map<nat, Conn>, s: State, id: nat)
    requires Inv(s) && RetiresDead(before, s.conns) && id in before && before[id].alive && before[id].place == Idle
    ensures id in s.idle && s.conns[id] == before[id]
  {
    assert Fits(id, s.conns[id], s.tickets, s.idle, s.path, s.loop);
  }

  class Pool {
    var conns: map<nat, Conn>
    var tickets: map<nat, Ticket>
    var idle: seq<nat>
    var path: string
    var loop: int
    var enabled: bool
    const idleMax: nat

    function Now(): State
      reads this
    {
      State(conns, tickets, idle, path, loop)
    }

    ghost predicate Valid()
      reads this
    {
      Inv(Now()) && |idle| <= idleMax
    }

    constructor (idleMax: nat, path: string, loop: int)
      ensures Valid() && !enabled && conns == map[] && tickets == map[]
    {
      conns, tickets, idle, this.path, this.loop, enabled, this.idleMax := map[], map[], [], path, loop, false, idleMax;
    }

    /** One idle connection is let go. */
    method RetireAt(i: nat)
      requires Valid() && i < |idle|
      modifies this`conns, this`idle
      ensures Valid() && |idle| < |old(idle)| && old(idle)[i] in old(conns) && Now() == Moved(old(Now()), i, Gone)
      ensures Retires(old(conns), conns) && (!old(conns)[old(idle)[i]].alive ==> RetiresDead(old(conns), conns))
    {
      RetireKeeps(Now(), i);
      IdleIsClean(Now(), i);
      conns, idle := conns[idle[i] := conns[idle[i]].(place := Gone)], Without(idle, i);
    }

    /** One idle connection is checked out. */
    method CheckOutAt(i: nat, t: nat)
      requires Valid() && i < |idle| && t !in tickets
      modifies this`conns, this`tickets, this`idle
      ensures Valid() && old(idle)[i] in old(conns) && Now() == CheckedOut(old(Now()), i, t)
      ensures var c := conns[old(idle)[i]]; c.queue == [] && !c.inTx && !c.dirtied && c.path == path && c.loop == loop
    {
      CheckoutKeeps(Now(), i, t);
      IdleIsClean(Now(), i);
      tickets := tickets[t := Ticket(idle[i], true, false)];
      conns, idle := conns[idle[i] := conns[idle[i]].(place := Out(t))], Without(idle, i);
    }

    /** `retire_idle`: every idle connection is let go; nothing else changes. */
    method RetireIdle()
      requires Valid()
      modifies this`conns, this`idle
      ensures Valid() && idle == [] && conns.Keys == old(conns.Keys)
      ensures forall id :: id in conns ==>
        conns[id] == if old(conns)[id].place == Idle then old(conns)[id].(place := Gone) else old(conns)[id]
    {
      while idle != []
        invariant Valid() && Retires(old(conns), conns)
        decreases |idle|
      {
        ghost var before := conns;
        RetireAt(|idle| - 1);
        RetiresTwice(old(conns), before, conns);
      }
      assert forall id :: id in conns ==> Fits(id, conns[id], tickets, idle, path, loop);
    }

    /** `_bind`: connections of another file or loop are never reused. */
    method Bind(path: string, loop: int)
      requires Valid()
      modifies this`conns, this`idle, this`path, this`loop
      ensures Valid() && this.path == path && this.loop == loop && tickets == old(tickets)
      ensures path == old(this.path) && loop == old(this.loop) ==> conns == old(conns) && idle == old(idle)
    {
      if path != this.path || loop != this.loop {
        RetireIdle();
        RebindKeeps(Now(), path, loop);
        this.path, this.loop := path, loop;
      }
    }

    /** `aclose`: pooling is off and nothing stays idle. */
    method Aclose()
      requires Valid()
      modifies this`conns, this`idle, this`enabled
      ensures Valid() && !enabled && idle == []
    {
      enabled := false;
      RetireIdle();
    }

    /** The part of `acquire` before a connection has to be opened: dead idle connections are let go on the way. */
    method TakeIdle(path: string, busy: int, loop: int, t: nat) returns (got: bool)
      requires Valid() && enabled && t !in tickets
      modifies this`conns, this`tickets, this`idle, this`path, this`loop
      ensures Valid() && this.path == path && this.loop == loop
      ensures if got then tickets.Keys == old(tickets.Keys) + {t} && tickets[t].open && tickets[t].conn in conns else tickets == old(tickets)
      ensures got ==> var c := conns[tickets[t].conn];
        c.place == Out(t) && c.alive && c.queue == [] && !c.inTx && !c.dirtied && c.path == path && c.loop == loop && c.busy == busy
      ensures !got ==> forall id :: id in idle ==> conns[id].busy != busy
      ensures path == old(this.path) && loop == old(this.loop) && !got ==> RetiresDead(old(conns), conns)
      ensures path == old(this.path) && loop == old(this.loop) && got ==>
        tickets[t].conn in old(conns) && RetiresDead(old(conns), conns[tickets[t].conn := old(conns)[tickets[t].conn]])
    {
      Bind(path, loop);
      got := PopAlive(busy, t);
    }

    /** Takes the most recently returned live connection with that timeout; dead ones found on the way are let go. */
    method PopAlive(busy: int, t: nat) returns (got: bool)
      requires Valid() && t !in tickets
      modifies this`conns, this`tickets, this`idle
      ensures Valid()
      ensures if got then tickets.Keys == old(tickets.Keys) + {t} && tickets[t].open && tickets[t].conn in conns else tickets == old(tickets)
      ensures got ==> var c := conns[tickets[t].conn];
        c.place == Out(t) && c.alive && c.queue == [] && !c.inTx && !c.dirtied && c.path == path && c.loop == loop && c.busy == busy
      ensures !got ==> RetiresDead(old(conns), conns) && forall id :: id in idle ==> conns[id].busy != busy
      ensures got ==> tickets[t].conn in old(conns) && RetiresDead(old(conns), conns[tickets[t].conn := old(conns)[tickets[t].conn]])
    {
      var i := LastWith(Now(), busy, |idle|);
      while i >= 0
        invariant Valid() && tickets == old(tickets) && RetiresDead(old(conns), conns)
        invariant i == LastWith(Now(), busy, |idle|)
        decreases |idle|
      {
        IdleIsClean(Now(), i);
        if conns[idle[i]].alive {
          RestoreOne(old(conns), conns, idle[i], conns[idle[i]].(place := Out(t)));
          CheckOutAt(i, t);
          return true;
        }
        ghost var before := conns;
        RetireAt(i);
        RetiresDeadTwice(old(conns), before, conns);
        i := LastWith(Now(), busy, |idle|);
      }
      got := false;
    }

    /** The connection `acquire` had to open; by now the pool may be bound elsewhere. */
    method Opened(id: nat, path: string, busy: int, loop: int, t: nat)
      requires Valid() && id !in conns && t !in tickets
      modifies this`conns, this`tickets
      ensures Valid() && Now() == Fresh(old(Now()), id, t, path, busy, loop)
    {
      FreshKeeps(Now(), id, t, path, busy, loop);
      conns := conns[id := Conn(path, busy, loop, true, false, [], false, Out(t))];
      tickets := tickets[t := Ticket(id, true, false)];
    }

    /** A statement, commit or rollback on a checkout: queued on the worker; refused once the checkout is closed. */
    method Issue(t: nat, job: Job, stateful: bool) returns (ok: bool)
      requires Valid() && t in tickets && job != Reset
      modifies this`conns, this`tickets
      ensures Valid() && ok == old(tickets)[t].open
      ensures Now() == if ok then Issued(old(Now()), t, job, stateful) else old(Now())
    {
      ok := tickets[t].open;
      if ok {
        IssueKeeps(Now(), t, job, stateful);
        var id := tickets[t].conn;
        conns := conns[id := conns[id].(queue := conns[id].queue + [job], dirtied := conns[id].dirtied || stateful)];
        tickets := tickets[t := tickets[t].(dirty := tickets[t].dirty || stateful)];
      }
    }

    /** The worker of one connection finishes its oldest job; `ok` is whether a rollback in the reset worked. */
    method Work(id: nat, ok: bool)
      requires Valid() && id in conns && conns[id].queue != []
      modifies this`conns
      ensures Valid() && conns == old(conns)[id := Done(old(conns)[id], ok)]
    {
      WorkerKeeps(Now(), id, ok);
      conns := conns[id := Done(conns[id], ok)];
    }

    /** A connection's thread or file goes away by itself. */
    method Dies(id: nat)
      requires Valid() && id in conns
      modifies this`conns
      ensures Valid() && conns == old(conns)[id := old(conns)[id].(alive := false)]
    {
      DeathKeeps(Now(), id);
      conns := conns[id := conns[id].(alive := false)];
    }

    /** `close` up to its await: a second close does nothing. */
    method Close(t: nat)
      requires Valid() && t in tickets
      modifies this`conns, this`tickets
      ensures Valid() && t in tickets && !tickets[t].open
      ensures !old(tickets)[t].open ==> Now() == old(Now())
      ensures old(tickets)[t].open ==> old(tickets)[t].conn in old(conns)
      ensures old(tickets)[t].open ==>
        Now() == Closed(old(Now()), t, enabled && !old(tickets)[t].dirty && old(conns)[old(tickets)[t].conn].alive)
    {
      if tickets[t].open {
        var id := tickets[t].conn;
        var keep := enabled && !tickets[t].dirty && conns[id].alive;
        CloseKeeps(Now(), t, keep);
        tickets := tickets[t := tickets[t].(open := false)];
        if keep {
          conns := conns[id := conns[id].(queue := conns[id].queue + [Reset], place := Releasing(t, false))];
        } else {
          conns := conns[id := conns[id].(place := Gone)];
        }
      }
    }

    /** The reset was cancelled or failed: the connection's state is unknown, so it is let go. */
    method ReleaseFails(id: nat)
      requires Valid() && id in conns && conns[id].place.Releasing?
      modifies this`conns
      ensures Valid() && Now() == Returned(old(Now()), id, false)
    {
      ReturnKeeps(Now(), id, false);
      conns := conns[id := conns[id].(place := Gone)];
    }

    /** The rest of `release`, after the reset: everything is checked again before the connection is idle. */
    method FinishRelease(id: nat)
      requires Valid() && id in conns && conns[id].place.Releasing? && conns[id].place.done
      modifies this`conns, this`idle
      ensures Valid()
      ensures var c := old(conns)[id];
        Now() == Returned(old(Now()), id, enabled && c.loop == loop && c.path == path && |old(idle)| < idleMax)
    {
      var c := conns[id];
      if !enabled || c.loop != loop || c.path != path || |idle| >= idleMax {
        ReturnKeeps(Now(), id, false);
        conns := conns[id := c.(place := Gone)];
      } else {
        ReturnKeeps(Now(), id, true);
        conns, idle := conns[id := c.(place := Idle)], idle + [id];
      }
    }

    /** A connection that was opened for a request is closed, and its reset is queued. */
    method OpenAndClose(id: nat, busy: int, t: nat)
      requires Valid() && enabled && id !in conns && t !in tickets
      modifies this`conns, this`tickets
      ensures Valid() && tickets.Keys == old(tickets.Keys) + {t} && id in conns
      ensures conns[id] == Conn(path, busy, loop, true, false, [Reset], false, Releasing(t, false))
    {
      Opened(id, path, busy, loop, t);
      Close(t);
      assert [] + [Reset] == [Reset];
    }

    /** Its worker resets it, and it is idle. */
    method ResetAndReturn(id: nat, t: nat)
      requires Valid() && enabled && |idle| < idleMax && id in conns
      requires conns[id].queue == [Reset] && !conns[id].inTx && conns[id].place == Releasing(t, false) && conns[id].path == path && conns[id].loop == loop
      modifies this`conns, this`idle
      ensures Valid() && id in idle && id in conns && conns[id] == old(conns)[id].(queue := [], place := Idle)
    {
      Work(id, true);
      assert conns[id] == old(conns)[id].(queue := [], place := Releasing(t, true));
      FinishRelease(id);
    }

    /** An idle connection with that timeout that is alive is enough for a request to be served. */
    method TakesWhatIsIdle(id: nat, busy: int, next: nat) returns (got: bool)
      requires Valid() && enabled && next !in tickets && id in idle && id in conns && conns[id].alive && conns[id].busy == busy
      modifies this`conns, this`tickets, this`idle, this`path, this`loop
      ensures Valid() && got && path == old(path) && loop == old(loop) && next in tickets && tickets[next].open && tickets[next].conn in conns
      ensures var c := conns[tickets[next].conn]; c.alive && !c.inTx && c.queue == [] && c.path == path && c.loop == loop && c.busy == busy
    {
      ghost var before := conns;
      assert Fits(id, conns[id], tickets, idle, path, loop);
      got := TakeIdle(path, busy, loop, next);
      if !got {
        LiveStaysIdle(before, Now(), id);
      }
    }

    /**
     One connection's whole life in the pool: opened for a request, closed, reset by its worker, returned; the next request
     for the same file, timeout and loop is then served without opening another.
     */
    method ServesNextRequest(id: nat, busy: int, t: nat, next: nat) returns (got: bool)
      requires Valid() && enabled && |idle| < idleMax && id !in conns && t !in tickets && next !in tickets && t != next
      modifies this
      ensures Valid() && got && path == old(path) && loop == old(loop) && next in tickets && tickets[next].open && tickets[next].conn in conns
      ensures var c := conns[tickets[next].conn]; c.alive && !c.inTx && c.queue == [] && c.path == path && c.loop == loop && c.busy == busy
    {
      OpenAndClose(id, busy, t);
      ResetAndReturn(id, t);
      got := TakesWhatIsIdle(id, busy, next);
    }
  }
}
