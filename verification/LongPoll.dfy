/**
 Waiting for work (service/longpoll.py): a table of sleepers that a notification wakes all at once, and the claim loop
 that sleeps between attempts until there is work, its caller leaves or its time is up. Times are in milliseconds.
 */
module LongPoll {
  import opened Common

  const GLOBAL: string := "*"
  const MAX_WAIT: nat := 25000

  // ---------------------------------------------------------------------------------------------
  // The waiter table

  class Waiters {
    var waiters: map<string, set<nat>>
    var done: set<nat>
    ghost var sleeping: map<nat, string>

    /** The table holds exactly the sleepers, each under its own scope, and no scope that nobody sleeps on. */
    ghost predicate Valid()
      reads this
    {
      && (forall s :: s in waiters ==> waiters[s] != {})
      && (forall s, f :: s in waiters && f in waiters[s] ==> f in sleeping && sleeping[f] == s)
      && (forall f :: f in sleeping ==> sleeping[f] in waiters && f in waiters[sleeping[f]])
    }

    constructor ()
      ensures Valid() && sleeping == map[] && done == {}
    {
      waiters, done, sleeping := map[], {}, map[];
    }

    method Register(scope: string, f: nat)
      requires Valid() && f !in sleeping && f !in done
      modifies this
      ensures Valid() && sleeping == old(sleeping)[f := scope] && done == old(done)
    {
      waiters := waiters[scope := (if scope in waiters then waiters[scope] else {}) + {f}];
      sleeping := sleeping[f := scope];
    }

    method Unregister(scope: string, f: nat)
      requires Valid() && f in sleeping && sleeping[f] == scope
      modifies this
      ensures Valid() && sleeping == old(sleeping) - {f} && done == old(done)
    {
      var left := waiters[scope] - {f};
      waiters := if left == {} then waiters - {scope} else waiters[scope := left];
      sleeping := sleeping - {f};
    }

    /** Resolves the given futures, counting the ones that were not done. */
    method Wake(futures: set<nat>) returns (woken: nat)
      modifies this`done
      ensures done == old(done) + futures && woken == |done - old(done)|
    {
      ghost var start := done;
      var queue := futures;
      ghost var past: set<nat> := {};
      woken := 0;
      while queue != {}
        invariant past + queue == futures && Resolved(start, past, done, woken)
        decreases |queue|
      {
        var f :| f in queue;
        OneMore(start, past, done, woken, f);
        MoveOver(past, queue, f);
        woken := if f in done then woken else woken + 1;
        queue, past, done := queue - {f}, past + {f}, done + {f};
      }
    }

    /** Whom a notification reaches: its scope and the wildcard; the wildcard reaches everyone. */
    ghost predicate Reaches(scope: string, f: nat)
      reads this
    {
      f in sleeping && (scope == GLOBAL || sleeping[f] == scope || sleeping[f] == GLOBAL)
    }

    /** `notify`: every sleeper it concerns is awake afterwards, nobody else is woken, and each is counted once. */
    method Notify(scope: string) returns (woken: nat)
      requires Valid()
      modifies this`done
      ensures Valid() && (forall f :: f in done <==> f in old(done) || Reaches(scope, f)) && woken == |done - old(done)|
    {
      var targets := if scope == GLOBAL then waiters.Keys else {scope, GLOBAL};
      forall f ensures f in Under(waiters, targets) <==> Reaches(scope, f) { TargetsReach(scope, targets, f); }
      woken := WakeAll(targets);
    }

    lemma TargetsReach(scope: string, targets: set<string>, f: nat)
      requires Valid() && targets == if scope == GLOBAL then waiters.Keys else {scope, GLOBAL}
      ensures f in Under(waiters, targets) <==> Reaches(scope, f)
    {
    }

    method WakeAll(scopes: set<string>) returns (woken: nat)
      modifies this`done
      ensures done == old(done) + Under(waiters, scopes) && woken == |done - old(done)|
    {
      ghost var start := done;
      var table := waiters;
      var left := scopes;
      ghost var past: set<string> := {};
      woken := 0;
      while left != {}
        invariant past + left == scopes && waiters == table && Woken(table, past, start, done, woken)
        decreases |left|
      {
        var s :| s in left;
        ghost var before := done;
        var n := Wake(Sleepers(table, s));
        WokenMore(table, past, s, start, before, done, woken, n);
        MoveOver(past, left, s);
        left, past, woken := left - {s}, past + {s}, woken + n;
      }
    }
  }

  lemma {:induction false} MoveOver<T>(past: set<T>, left: set<T>, x: T)
    requires x in left
    ensures (past + {x}) + (left - {x}) == past + left
  {
  }

  function Sleepers(table: map<string, set<nat>>, s: string): set<nat> {
    if s in table then table[s] else {}
  }

  /** The sleepers on any of the scopes. */
  function Under(table: map<string, set<nat>>, scopes: set<string>): set<nat> {
    set s, f | s in table && s in scopes && f in table[s] :: f
  }

  ghost predicate Woken(table: map<string, set<nat>>, scopes: set<string>, start: set<nat>, done: set<nat>, woken: nat) {
    done == start + Under(table, scopes) && woken == |done - start|
  }

  lemma {:induction false} WokenMore(table: map<string, set<nat>>, scopes: set<string>, s: string, start: set<nat>, before: set<nat>, after: set<nat>, woken: nat, n: nat)
    requires Woken(table, scopes, start, before, woken) && after == before + Sleepers(table, s) && n == |after - before|
    ensures Woken(table, scopes + {s}, start, after, woken + n)
  {
  }

  ghost predicate Resolved(start: set<nat>, past: set<nat>, done: set<nat>, woken: nat) {
    done == start + past && woken == |done - start|
  }

  lemma {:induction false} OneMore(start: set<nat>, past: set<nat>, done: set<nat>, woken: nat, f: nat)
    requires Resolved(start, past, done, woken)
    ensures Resolved(start, past + {f}, done + {f}, if f in done then woken else woken + 1)
  {
  }

  // ---------------------------------------------------------------------------------------------
  // The claim loop

  /** What one attempt comes back with. */
  datatype Tried<A> = Answer(answer: A, empty: bool) | Locked | Fails

  /** One turn of the world: when a notification would come, whether the caller has left, and the next attempt. */
  datatype Turn<A> = Turn(nap: nat, leftBefore: bool, leftAfter: bool, work: nat, tried: Tried<A>)

  /** `StillWaiting` is a poll that has not ended when the turns have. */
  datatype Outcome<A> = Returned(answer: A) | Raised | StillWaiting(answer: A)

  /** `attributable_ms`. */
  function Attributable(total: int, waited: int): int {
    Max(0, total - waited)
  }

  function Sum(naps: seq<int>): int {
    if naps == [] then 0 else Sum(naps[..|naps|-1]) + naps[|naps|-1]
  }

  /** What a poll has done so far: how long each sleep was, how many attempts followed the first, and the clock since that one ended. */
  datatype Account = Account(naps: seq<int>, attempts: nat, clock: int)

  /** How long the first `n` attempts took. */
  function Worked<A>(turns: seq<Turn<A>>, n: nat): nat
    requires n <= |turns|
  {
    if n == 0 then 0 else Worked(turns, n - 1) + turns[n-1].work
  }

  /** Every attempt was made for a caller still there and found nothing, and no sleep was longer than the fallback. */
  ghost predicate Waits<A>(a: Account, turns: seq<Turn<A>>, fallback: nat, lockResult: Option<A>) {
    && a.attempts <= |turns| && a.attempts <= |a.naps| <= a.attempts + 1
    && (forall i :: 0 <= i < a.attempts ==> !turns[i].leftBefore && !turns[i].leftAfter)
    && (forall i :: 0 <= i < a.attempts - 1 ==> IsEmpty(turns[i].tried, lockResult))
    && (forall i :: 0 <= i < |a.naps| ==> 0 <= a.naps[i] <= fallback)
  }

  /**
   The account of a poll that is within its limits: the sleeps fit in the wait, and what the clock shows beyond them is
   the time of the attempts.
   */
  ghost predicate Within<A>(a: Account, turns: seq<Turn<A>>, limit: int, fallback: nat, lockResult: Option<A>) {
    && Waits(a, turns, fallback, lockResult) && 0 <= Sum(a.naps) <= limit
    && a.clock == Sum(a.naps) + Worked(turns, a.attempts)
  }

  lemma {:induction false} Sleeps<A>(a: Account, turns: seq<Turn<A>>, limit: int, fallback: nat, lockResult: Option<A>, nap: int)
    requires Within(a, turns, limit, fallback, lockResult) && |a.naps| == a.attempts && 0 <= nap <= fallback && nap <= limit - a.clock
    ensures Within(a.(naps := a.naps + [nap], clock := a.clock + nap), turns, limit, fallback, lockResult)
  {
  }

  lemma {:induction false} Attempts<A>(a: Account, turns: seq<Turn<A>>, limit: int, fallback: nat, lockResult: Option<A>)
    requires Within(a, turns, limit, fallback, lockResult) && |a.naps| == a.attempts + 1 && a.attempts < |turns|
    requires !turns[a.attempts].leftBefore && !turns[a.attempts].leftAfter
    requires a.attempts > 0 ==> IsEmpty(turns[a.attempts-1].tried, lockResult)
    ensures Within(a.(attempts := a.attempts + 1, clock := a.clock + turns[a.attempts].work), turns, limit, fallback, lockResult)
  {
  }

  /** How long it sleeps: until notified, but not past its deadline or the fallback. */
  function Nap(a: Account, notified: nat, limit: int, fallback: nat): (nap: int)
    ensures a.clock < limit ==> 0 <= nap <= fallback && nap <= limit - a.clock
  {
    Min(notified, Min(limit - a.clock, fallback))
  }

  /** Sleeps, and makes the next attempt unless the time is up or the caller has left. */
  method TakeTurn<A>(a: Account, turns: seq<Turn<A>>, limit: int, fallback: nat, lockResult: Option<A>) returns (b: Account, tried: bool)
    requires Within(a, turns, limit, fallback, lockResult) && a.attempts == |a.naps| < |turns|
    requires a.attempts > 0 ==> IsEmpty(turns[a.attempts-1].tried, lockResult)
    ensures Within(b, turns, limit, fallback, lockResult) && b.attempts == a.attempts + (if tried then 1 else 0)
    ensures tried ==> |b.naps| == b.attempts
    ensures b.clock >= a.clock
    ensures b.naps == if a.clock >= limit || turns[a.attempts].leftBefore then a.naps
      else a.naps + [Nap(a, turns[a.attempts].nap, limit, fallback)]
    ensures a.clock < limit && !turns[a.attempts].leftBefore ==>
      var nap, notified := b.naps[|a.naps|], turns[a.attempts].nap;
      nap <= notified && nap <= fallback && nap <= limit - a.clock && (nap == notified || nap == fallback || nap == limit - a.clock)
    ensures tried <==> a.clock < limit && !turns[a.attempts].leftBefore && !turns[a.attempts].leftAfter
  {
    b := a;
    var turn := turns[a.attempts];
    if a.clock >= limit || turn.leftBefore {
      return b, false;
    }
    var nap := Nap(a, turn.nap, limit, fallback);
    Sleeps(a, turns, limit, fallback, lockResult, nap);
    b := a.(naps := a.naps + [nap], clock := a.clock + nap);
    if turn.leftAfter {
      return b, false;
    }
    Attempts(b, turns, limit, fallback, lockResult);
    b := b.(attempts := b.attempts + 1, clock := b.clock + turn.work);
    tried := true;
  }

  /** Why the poll is over: an answer, an error, the caller gone, the time up; or it is not over. */
  ghost predicate IsEnd<A>(limit: int, first: Tried<A>, turns: seq<Turn<A>>, lockResult: Option<A>, outcome: Outcome<A>, a: Account) {
    && a.attempts <= |turns| && outcome == Ends(Result(Last(first, turns, a.attempts), lockResult), outcome.StillWaiting?)
    && (outcome.StillWaiting? ==> a.attempts == |turns|)
    && (outcome.Returned? && IsEmpty(Last(first, turns, a.attempts), lockResult) ==>
         a.attempts < |turns| && (turns[a.attempts].leftBefore || turns[a.attempts].leftAfter || a.clock >= limit))
  }

  /** An attempt that came back empty, or found the database locked. */
  predicate GaveNothing<A>(t: Tried<A>) {
    t.Locked? || (t.Answer? && t.empty)
  }

  /** Attempt `k` came back with `tried`, which is not an answer to stop at. */
  ghost predicate FoundNothing<A>(first: Tried<A>, turns: seq<Turn<A>>, k: nat, lockResult: Option<A>, tried: Option<A>) {
    k <= |turns| && tried.Some? && Result(Last(first, turns, k), lockResult) == tried && IsEmpty(Last(first, turns, k), lockResult)
  }

  /** The loop, after a first attempt that found nothing. */
  method Wait<A>(limit: nat, fallback: nat, first: Tried<A>, lockResult: Option<A>, turns: seq<Turn<A>>)
    returns (outcome: Outcome<A>, account: Account)
    requires IsEmpty(first, lockResult)
    ensures Within(account, turns, limit, fallback, lockResult) && IsEnd(limit, first, turns, lockResult, outcome, account)
  {
    account := Account([], 0, 0);
    NothingYet(turns, limit, fallback, lockResult);
    var tried := Result(first, lockResult);
    for k := 0 to |turns|
      invariant account.attempts == k == |account.naps| && Within(account, turns, limit, fallback, lockResult)
      invariant FoundNothing(first, turns, k, lockResult, tried)
    {
      var again;
      account, again := TakeTurn(account, turns, limit, fallback, lockResult);
      if !again {
        return Returned(tried.value), account;
      }
      tried := Result(turns[k].tried, lockResult);
      if tried.None? {
        return Raised, account;
      }
      if !IsEmpty(turns[k].tried, lockResult) {
        return Returned(tried.value), account;
      }
    }
    outcome := StillWaiting(tried.value);
  }

  /**
   `longpoll`: no attempt starts once the caller has left, the sleeps together stay within the wait and 25 seconds, the
   poll ends with the first attempt that finds something, and what is attributed to the request is the time of its attempts.
   */
  method Poll<A>(waitMs: int, fallback: nat, first: Tried<A>, lockResult: Option<A>, turns: seq<Turn<A>>)
    returns (outcome: Outcome<A>, account: Account)
    ensures Within(account, turns, Limit(waitMs), fallback, lockResult)
    ensures Attributable(account.clock, Sum(account.naps)) == Worked(turns, account.attempts)
    ensures if waitMs <= 0 then account.naps == [] else Sum(account.naps) <= waitMs && Sum(account.naps) <= 25000
    ensures first.Answer? && (!first.empty || waitMs <= 0) ==> outcome == Returned(first.answer) && account.naps == [] && account.attempts == 0
    ensures first.Fails? || (first.Locked? && lockResult.None?) ==> outcome == Raised && account.attempts == 0
    ensures outcome.Returned? && account.attempts > 0 && turns[account.attempts-1].tried.Answer? ==>
      outcome.answer == turns[account.attempts-1].tried.answer
    ensures waitMs > 0 && outcome.Returned? && GaveNothing(if account.attempts == 0 then first else turns[account.attempts-1].tried) ==>
      account.attempts < |turns|
      && (turns[account.attempts].leftBefore || turns[account.attempts].leftAfter || account.clock >= if waitMs < 25000 then waitMs else 25000)
    ensures if Limit(waitMs) == 0 || !IsEmpty(first, lockResult) then account == Account([], 0, 0) && outcome == Ends(Result(first, lockResult), false)
      else IsEnd(Limit(waitMs), first, turns, lockResult, outcome, account)
  {
    account := Account([], 0, 0);
    NothingYet(turns, Limit(waitMs), fallback, lockResult);
    if Limit(waitMs) == 0 || !IsEmpty(first, lockResult) {
      outcome := Ends(Result(first, lockResult), false);
    } else {
      outcome, account := Wait(Limit(waitMs), fallback, first, lockResult, turns);
    }
  }

  /** How long the caller may be held: nothing for no wait, and 25 seconds at the most. */
  function Limit(waitMs: int): nat {
    if waitMs <= 0 then 0 else if waitMs <= MAX_WAIT then waitMs else MAX_WAIT
  }

  lemma {:induction false} NothingYet<A>(turns: seq<Turn<A>>, limit: nat, fallback: nat, lockResult: Option<A>)
    ensures Within(Account([], 0, 0), turns, limit, fallback, lockResult)
  {
  }

  function Ends<A>(result: Option<A>, waiting: bool): Outcome<A> {
    if result.None? then Raised else if waiting then StillWaiting(result.value) else Returned(result.value)
  }

  /** The last attempt made. */
  function Last<A>(first: Tried<A>, turns: seq<Turn<A>>, attempts: nat): Tried<A>
    requires attempts <= |turns|
  {
    if attempts == 0 then first else turns[attempts-1].tried
  }

  /** What an attempt gives; a lock counts as the empty result when the caller has one, anything else is raised. */
  function Result<A>(t: Tried<A>, lockResult: Option<A>): Option<A> {
    match t
    case Answer(answer, empty) => Some(answer)
    case Locked => lockResult
    case Fails => None
  }

  predicate IsEmpty<A>(t: Tried<A>, lockResult: Option<A>) {
    match t
    case Answer(answer, empty) => empty
    case Locked => lockResult.Some?
    case Fails => false
  }
}
