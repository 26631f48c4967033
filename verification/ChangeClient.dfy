/**
 A dashboard that follows the change feed (service/change_feed.py, service/new_dashboard/change-refresh.mjs): it fetches
 everything when its socket opens, and when an event's number does not follow the last one or comes from another server
 process; otherwise only the tables the event names. Time is counted in events published: a fetch at time `at` sees
 everything up to event `at`.
 */
module ChangeClient {
  import opened Common
  import opened ChangeFeed

  /** The last event seen since the socket opened, when everything was fetched last, and when a table was fetched alone after that. */
  datatype Client = Client(seen: Option<Event>, all: int, fetched: map<string, int>)

  function LastFetch(c: Client, table: string): int {
    if table in c.fetched then Max(c.all, c.fetched[table]) else c.all
  }

  predicate Next(last: Event, e: Event) {
    last.instance == e.instance && e.number == last.number + 1
  }

  /** What reaches the client: its socket opens, or it gets event `k`, at once or late, again or out of turn. */
  datatype Heard = Opened(at: int) | Got(k: nat, at: int)

  /** `opened` and `changed`. The first event after opening is taken as it comes. */
  function Hear(es: seq<Event>, c: Client, h: Heard): Client
    requires h.Got? ==> h.k < |es|
  {
    match h
    case Opened(at) => Client(None, at, map[])
    case Got(k, at) =>
      var e := es[k];
      if c.seen.None? || Next(c.seen.value, e) then
        Client(Some(e), c.all, map t | t in c.fetched.Keys + e.tables :: if t in e.tables then at else c.fetched[t])
      else Client(Some(e), at, map[])
  }

  /** Everything published: numbers count up within a process, and a process that ended does not come back. */
  ghost predicate IsPublished(es: seq<Event>) {
    && (forall i {:trigger es[i+1]} :: 0 <= i && i + 1 < |es| && es[i].instance == es[i+1].instance ==> es[i+1].number == es[i].number + 1)
    && (forall i, j, k :: 0 <= i < j < k < |es| && es[i].instance == es[k].instance ==> es[j].instance == es[i].instance)
  }

  lemma {:induction false} NumbersCount(es: seq<Event>, i: nat, k: nat)
    requires IsPublished(es) && i <= k < |es| && es[i].instance == es[k].instance
    ensures es[k].number == es[i].number + (k - i)
    decreases k - i
  {
    if i < k {
      assert es[i+1].instance == es[i].instance;
      NumbersCount(es, i + 1, k);
    }
  }

  lemma {:induction false} NextIsNext(es: seq<Event>, r: nat, k: nat)
    requires IsPublished(es) && r < |es| && k < |es| && Next(es[r], es[k])
    ensures k == r + 1
  {
    if r <= k { NumbersCount(es, r, k); } else { NumbersCount(es, k, r); }
  }

  // ---------------------------------------------------------------------------------------------
  // Up to date

  /** A client, the newest event it knows of or fetched past, and the time of what it heard last. */
  datatype Watch = Watch(client: Client, known: int, clock: int)

  function After(es: seq<Event>, w: Watch, h: Heard): Watch
    requires h.Got? ==> h.k < |es|
  {
    Watch(Hear(es, w.client, h), Max(w.known, if h.Got? then h.k else h.at), h.at)
  }

  /** It has fetched every table since each event, up to the newest it knows of, that named it. */
  ghost predicate UpToDate(es: seq<Event>, w: Watch) {
    forall j, t :: 0 <= j <= w.known && j < |es| && t in es[j].tables ==> LastFetch(w.client, t) >= j
  }

  /** An event is heard of once it is published, and what is heard later is heard later. */
  predicate CanHear(es: seq<Event>, w: Watch, h: Heard) {
    w.clock <= h.at < |es| && (h.Got? ==> h.k <= h.at && h.k < |es|)
  }

  ghost predicate Valid(es: seq<Event>, w: Watch) {
    && w.known <= w.clock < |es| && w.client.all <= w.clock
    && (forall t :: t in w.client.fetched ==> w.client.fetched[t] <= w.clock)
    && match w.client.seen
       case None => w.client.all == w.known && w.client.fetched == map[]
       case Some(e) => exists r: nat :: r <= w.known && r < |es| && e == es[r]
  }

  /** If this is the first event after opening, every table that changed since is named by it. */
  ghost predicate MissesNothing(es: seq<Event>, w: Watch, h: Heard)
    requires h.Got? ==> h.k < |es|
  {
    h.Got? && w.client.seen.None? ==>
      forall j, t :: w.known < j < h.k && 0 <= j && t in es[j].tables ==> t in es[h.k].tables
  }

  lemma {:induction false} StaysValid(es: seq<Event>, w: Watch, h: Heard)
    requires Valid(es, w) && CanHear(es, w, h)
    ensures Valid(es, After(es, w, h))
  {
    if h.Got? {
      var u := After(es, w, h);
      assert u.client.seen == Some(es[h.k]) && h.k <= u.known;
    }
  }

  lemma {:induction false} FirstIffMissesNothing(es: seq<Event>, w: Watch, h: Heard)
    requires Valid(es, w) && CanHear(es, w, h) && UpToDate(es, w) && h.Got? && w.client.seen.None?
    ensures UpToDate(es, After(es, w, h)) <==> MissesNothing(es, w, h)
  {
    var u := After(es, w, h);
    forall t ensures LastFetch(u.client, t) == if t in es[h.k].tables then Max(w.known, h.at) else w.known {
    }
    if UpToDate(es, u) {
      forall j, t | w.known < j < h.k && 0 <= j && t in es[j].tables ensures t in es[h.k].tables {
        assert LastFetch(u.client, t) >= j;
      }
    }
  }

  lemma {:induction false} NextFetches(es: seq<Event>, w: Watch, h: Heard, t: string)
    requires h.Got? && h.k < |es| && w.client.seen.Some? && Next(w.client.seen.value, es[h.k])
    requires w.clock <= h.at && (t in w.client.fetched ==> w.client.fetched[t] <= w.clock)
    ensures var c := After(es, w, h).client;
      LastFetch(c, t) >= LastFetch(w.client, t) && (t in es[h.k].tables ==> LastFetch(c, t) >= h.at)
  {
  }

  lemma {:induction false} NextStaysUpToDate(es: seq<Event>, w: Watch, h: Heard)
    requires IsPublished(es) && Valid(es, w) && CanHear(es, w, h) && UpToDate(es, w)
    requires h.Got? && w.client.seen.Some? && Next(w.client.seen.value, es[h.k])
    ensures UpToDate(es, After(es, w, h))
  {
    var r: nat :| r <= w.known && r < |es| && w.client.seen.value == es[r];
    NextIsNext(es, r, h.k);
    var u := After(es, w, h);
    forall j, t | 0 <= j <= u.known && j < |es| && t in es[j].tables ensures LastFetch(u.client, t) >= j {
      NextFetches(es, w, h, t);
    }
  }

  /** What the client hears leaves it up to date unless it is a first event that leaves something out. */
  lemma {:induction false} HearIff(es: seq<Event>, w: Watch, h: Heard)
    requires IsPublished(es) && Valid(es, w) && CanHear(es, w, h) && UpToDate(es, w)
    ensures UpToDate(es, After(es, w, h)) <==> MissesNothing(es, w, h)
  {
    if h.Got? && w.client.seen.None? {
      FirstIffMissesNothing(es, w, h);
    } else if h.Got? && Next(w.client.seen.value, es[h.k]) {
      NextStaysUpToDate(es, w, h);
    }
  }

  ghost predicate CanHearAll(es: seq<Event>, w: Watch, hs: seq<Heard>)
    decreases |hs|
  {
    hs == [] || (CanHear(es, w, hs[0]) && CanHearAll(es, After(es, w, hs[0]), hs[1..]))
  }

  /** Up to date at the start and after each thing it hears. */
  ghost predicate AlwaysUpToDate(es: seq<Event>, w: Watch, hs: seq<Heard>)
    requires CanHearAll(es, w, hs)
    decreases |hs|
  {
    UpToDate(es, w) && (hs != [] ==> AlwaysUpToDate(es, After(es, w, hs[0]), hs[1..]))
  }

  ghost predicate MissesNothingAll(es: seq<Event>, w: Watch, hs: seq<Heard>)
    requires CanHearAll(es, w, hs)
    decreases |hs|
  {
    hs != [] ==> MissesNothing(es, w, hs[0]) && MissesNothingAll(es, After(es, w, hs[0]), hs[1..])
  }

  /**
   Whichever pushes were lost, came twice, late or out of turn, and however often the socket opened again: after everything
   it hears the client has fetched, since its publication, every table named by any event up to the newest it knows of, if
   and only if the first event after each opening leaves out no table that changed between the two.
   */
  lemma {:induction false} ClientIsUpToDateIff(es: seq<Event>, w: Watch, hs: seq<Heard>)
    requires IsPublished(es) && Valid(es, w) && UpToDate(es, w) && CanHearAll(es, w, hs)
    ensures AlwaysUpToDate(es, w, hs) <==> MissesNothingAll(es, w, hs)
    decreases |hs|
  {
    if hs != [] {
      StaysValid(es, w, hs[0]);
      HearIff(es, w, hs[0]);
      if MissesNothing(es, w, hs[0]) {
        ClientIsUpToDateIff(es, After(es, w, hs[0]), hs[1..]);
      }
    }
  }

  /** A client whose socket has just opened. */
  function JustOpened(at: int): Watch {
    Watch(Client(None, at, map[]), at, at)
  }

  lemma {:induction false} OpenedIsUpToDate(es: seq<Event>, at: int)
    requires at < |es|
    ensures Valid(es, JustOpened(at)) && UpToDate(es, JustOpened(at))
  {
  }

  /** The one push that is missed unseen: lost between the opening and the first event that arrives. */
  lemma {:induction false} FirstGapIsUnseen(instance: nat, t: string, u: string)
    requires t != u
    ensures var es := [Event(instance, 1, {t}, {}), Event(instance, 2, {u}, {})];
      var w := After(es, JustOpened(-1), Got(1, 1));
      && IsPublished(es) && CanHear(es, JustOpened(-1), Got(1, 1))
      && w.client.seen == Some(es[1]) && LastFetch(w.client, t) == -1 && !UpToDate(es, w)
  {
    var es := [Event(instance, 1, {t}, {}), Event(instance, 2, {u}, {})];
    var w := After(es, JustOpened(-1), Got(1, 1));
    assert t in es[0].tables && LastFetch(w.client, t) < 0;
  }

  // ---------------------------------------------------------------------------------------------
  // What is published of what was committed

  lemma {:induction false} EventsGrow(f: Feed, ops: seq<Op>)
    ensures f.events <= Run(f, ops).events
    decreases |ops|
  {
    if ops != [] {
      EventsGrow(Step(f, ops[0]), ops[1..]);
    }
  }

  /** A timer fires before the feed is detached, if it is at all. */
  predicate FlushBeforeDetach(ops: seq<Op>) {
    ops != [] && (ops[0].Flush? || (!ops[0].Detach? && FlushBeforeDetach(ops[1..])))
  }

  /** Then the very next event names a table whose change is waiting, and not as a mere sign of life. */
  lemma {:induction false} NextEventNames(f: Feed, ops: seq<Op>, table: string)
    requires f.attached && table in f.changed && FlushBeforeDetach(ops)
    ensures var g, n := Run(f, ops), |f.events|;
      |g.events| > n && table in g.events[n].tables && table !in g.events[n].liveness
    decreases |ops|
  {
    var g := Step(f, ops[0]);
    if ops[0].Flush? {
      EventsGrow(g, ops[1..]);
    } else {
      NextEventNames(g, ops[1..], table);
    }
  }

  /** Some event after the first `n` names the table. */
  ghost predicate NamedAfter(events: seq<Event>, n: nat, table: string) {
    exists k :: n <= k < |events| && table in events[k].tables
  }

  predicate MovesNoMore(ops: seq<Op>, table: string) {
    forall op :: op in ops && op.Commit? ==> table !in op.moved
  }

  lemma {:induction false} StepNames(f: Feed, op: Op, events: seq<Event>, table: string)
    requires Step(f, op).events <= events && !(op.Flush? && table in f.changed)
    ensures NamedAfter(events, |f.events|, table) <==> NamedAfter(events, |Step(f, op).events|, table)
  {
    var g, n := Step(f, op), |f.events|;
    if |g.events| == n + 1 {
      assert events[n] == g.events[n] && table !in events[n].tables;
    }
  }

  lemma {:induction false} NotWaitingIsNotNamed(f: Feed, ops: seq<Op>, table: string)
    requires table !in f.changed && MovesNoMore(ops, table)
    ensures !NamedAfter(Run(f, ops).events, |f.events|, table)
    decreases |ops|
  {
    if ops != [] {
      var g := Step(f, ops[0]);
      assert ops[0] in ops && forall op :: op in ops[1..] ==> op in ops;
      NotWaitingIsNotNamed(g, ops[1..], table);
      EventsGrow(g, ops[1..]);
      StepNames(f, ops[0], Run(f, ops).events, table);
    }
  }

  /**
   A change that waits, of a table that does not change again, is named by a later event if and only if a timer fires
   before the feed is detached.
   */
  lemma {:induction false} WaitingIsNamedIff(f: Feed, ops: seq<Op>, table: string)
    requires f.attached && table in f.changed && MovesNoMore(ops, table)
    ensures NamedAfter(Run(f, ops).events, |f.events|, table) <==> FlushBeforeDetach(ops)
    decreases |ops|
  {
    if FlushBeforeDetach(ops) {
      NextEventNames(f, ops, table);
    } else if ops != [] {
      var g := Step(f, ops[0]);
      assert ops[0] in ops && forall op :: op in ops[1..] ==> op in ops;
      EventsGrow(g, ops[1..]);
      StepNames(f, ops[0], Run(f, ops).events, table);
      if ops[0].Detach? {
        NotWaitingIsNotNamed(g, ops[1..], table);
      } else {
        WaitingIsNamedIff(g, ops[1..], table);
      }
    }
  }

  predicate CountsUp(f: Feed) {
    forall i :: 0 <= i < |f.events| ==> f.events[i].instance == f.instance && f.events[i].number == i + 1
  }

  /** What one process publishes is a stream that `ClientIsUpToDateIff` is about. */
  lemma {:induction false} RunPublishes(f: Feed, ops: seq<Op>)
    requires CountsUp(f)
    ensures CountsUp(Run(f, ops)) && IsPublished(Run(f, ops).events)
    decreases |ops|
  {
    if ops != [] {
      RunPublishes(Step(f, ops[0]), ops[1..]);
    }
  }

  /** Detaching drops what waits without leaving a gap: the change is in no event and the numbers still follow. */
  lemma {:induction false} DetachLeavesNoGap(instance: nat, t: string, u: string)
    requires t != u
    ensures var f := Feed(instance, true, {}, {}, []);
      var ops := [Commit({t}, {}), Op.Detach, Op.Attach, Commit({u}, {}), Op.Flush];
      Run(f, ops).events == [Event(instance, 1, {u}, {})]
  {
    var a, b, c, d, e := Commit({t}, {}), Detach, Attach, Commit({u}, {}), Flush;
    var f := Feed(instance, true, {}, {}, []);
    var f1 := Step(f, a);
    var f2 := Step(f1, b);
    var f3 := Step(f2, c);
    var f4 := Step(f3, d);
    var f5 := Step(f4, e);
    assert f2 == Feed(instance, false, {}, {}, []) && f4 == Feed(instance, true, {u}, {}, []);
    assert u in f4.changed && f4.liveness - f4.changed == {};
    assert f5.events == [] + [Event(instance, 1, {u}, {})];
    assert [a, b, c, d, e][1..] == [b, c, d, e] && [b, c, d, e][1..] == [c, d, e];
    assert [c, d, e][1..] == [d, e] && [d, e][1..] == [e] && [e][1..] == [];
    assert Run(f5, []) == f5 && Run(f4, [e]) == f5 && Run(f3, [d, e]) == f5;
    assert Run(f2, [c, d, e]) == f5 && Run(f1, [b, c, d, e]) == f5;
  }
}
