/**
 Telling the dashboards which tables changed (service/change_feed.py, `ChangeFeed`): committed writes gather until a
 timer fires, one numbered event is sent, and a client that finds a number missing refetches everything. Times are in
 milliseconds; the methods run on the event loop.
 */
module ChangeFeed {
  import opened Common
  import opened SqlColumns

  const COALESCE: int := 250
  const LIVENESS_COALESCE: int := 10000

  datatype Event = Event(instance: nat, number: nat, tables: set<string>, liveness: set<string>)

  type Declared = map<string, Option<set<string>>>

  function Real(writes: seq<Write>, declared: Declared): set<string> {
    set i | 0 <= i < |writes| && !Liveness(writes[i], declared) :: writes[i].table
  }

  function Live(writes: seq<Write>, declared: Declared): set<string> {
    set i | 0 <= i < |writes| && Liveness(writes[i], declared) :: writes[i].table
  }

  function Scopes(writes: seq<Write>, scopes: map<string, string>): set<string> {
    set i | 0 <= i < |writes| && writes[i].table in scopes :: scopes[writes[i].table]
  }

  lemma {:induction false} OneMoreWrite(writes: seq<Write>, n: nat, declared: Declared)
    requires n < |writes|
    ensures Real(writes[..n+1], declared) == Real(writes[..n], declared) + if Liveness(writes[n], declared) then {} else {writes[n].table}
    ensures Live(writes[..n+1], declared) == Live(writes[..n], declared) + if Liveness(writes[n], declared) then {writes[n].table} else {}
  {
  }

  // ---------------------------------------------------------------------------------------------
  // The feed as a value

  /** What happens to the feed: a commit moved some tables and only touched others, the timer fires, a sink comes or goes. */
  datatype Op = Commit(moved: set<string>, live: set<string>) | Flush | Attach | Detach

  datatype Feed = Feed(instance: nat, attached: bool, changed: set<string>, liveness: set<string>, events: seq<Event>)

  function Step(f: Feed, op: Op): Feed {
    match op
    case Commit(moved, live) => if f.attached then f.(changed := f.changed + moved, liveness := f.liveness + live) else f
    case Flush =>
      if f.attached && (f.changed != {} || f.liveness != {}) then
        Feed(f.instance, true, {}, {}, f.events + [Event(f.instance, |f.events| + 1, f.changed, f.liveness - f.changed)])
      else f.(changed := {}, liveness := {})
    case Attach => f.(attached := true)
    case Detach => Feed(f.instance, false, {}, {}, f.events)
  }

  function Run(f: Feed, ops: seq<Op>): Feed
    decreases |ops|
  {
    if ops == [] then f else Run(Step(f, ops[0]), ops[1..])
  }

  // ---------------------------------------------------------------------------------------------
  // The feed as an object

  class ChangeFeed {
    const instance: nat
    const declared: Declared
    const scopes: map<string, string>
    var seqNo: nat
    var attached: bool
    var changed: set<string>
    var liveness: set<string>
    var handle: Option<int>
    ghost var firstReal: Option<int>
    ghost var firstLive: Option<int>
    ghost var published: seq<Event>

    /** Whatever waits has a timer armed, due within its window of the commit that first made it wait. */
    ghost predicate Valid()
      reads this
    {
      && |published| == seqNo && (forall i :: 0 <= i < seqNo ==> published[i].instance == instance && published[i].number == i + 1)
      && (changed != {} ==> handle.Some? && firstReal.Some? && handle.value <= firstReal.value + COALESCE)
      && (liveness != {} ==> handle.Some? && firstLive.Some? && handle.value <= firstLive.value + LIVENESS_COALESCE)
      && (!attached ==> changed == {} && liveness == {})
    }

    ghost function View(): Feed
      reads this
    {
      Feed(instance, attached, changed, liveness, published)
    }

    constructor (instance: nat, declared: Declared, scopes: map<string, string>)
      ensures Valid() && !attached && published == [] && this.declared == declared && this.scopes == scopes && this.instance == instance
    {
      this.instance, this.declared, this.scopes := instance, declared, scopes;
      seqNo, attached, changed, liveness, handle := 0, false, {}, {}, None;
      firstReal, firstLive, published := None, None, [];
    }

    method Attach()
      requires Valid()
      modifies this`attached
      ensures Valid() && View() == Step(old(View()), Op.Attach)
    {
      attached := true;
    }

    /** What was waiting is dropped, and no number is used for it. */
    method Detach()
      requires Valid()
      modifies this
      ensures Valid() && View() == Step(old(View()), Op.Detach) && handle == None
    {
      attached, handle, changed, liveness := false, None, {}, {};
    }

    /** `_schedule`: the armed time only ever moves earlier. */
    method Schedule(now: int)
      requires changed != {} || liveness != {}
      modifies this`handle
      ensures handle.Some? && handle.value <= now + if changed != {} then 250 else 10000
      ensures old(handle).Some? ==> handle.value <= old(handle).value
      ensures handle == old(handle) || handle == Some(now + if changed != {} then COALESCE else LIVENESS_COALESCE)
    {
      var due := now + if changed != {} then COALESCE else LIVENESS_COALESCE;
      if handle.Some? && handle.value <= due {
        return;
      }
      handle := Some(due);
    }

    /** `committed`: waiting claimers are woken at once, attached or not; then the tables wait for the next event. */
    method Committed(writes: seq<Write>, now: int) returns (woken: set<string>)
      requires Valid()
      modifies this
      ensures Valid()
      ensures forall i :: 0 <= i < |writes| && writes[i].table in scopes ==> scopes[writes[i].table] in woken
      ensures forall s :: s in woken ==> exists i :: 0 <= i < |writes| && writes[i].table in scopes && scopes[writes[i].table] == s
      ensures attached ==> forall i :: 0 <= i < |writes| ==> writes[i].table in if Liveness(writes[i], declared) then liveness else changed
      ensures View() == Step(old(View()), Op.Commit(Real(writes, declared), Live(writes, declared)))
      ensures old(changed) != {} ==> firstReal == old(firstReal)
      ensures old(liveness) != {} ==> firstLive == old(firstLive)
      ensures old(changed) == {} && changed != {} ==> firstReal == Some(now)
      ensures old(liveness) == {} && liveness != {} ==> firstLive == Some(now)
    {
      woken := Scopes(writes, scopes);
      if !attached {
        return;
      }
      Gather(writes);
      if old(changed) == {} && changed != {} { firstReal := Some(now); }
      if old(liveness) == {} && liveness != {} { firstLive := Some(now); }
      if changed != {} || liveness != {} {
        Schedule(now);
      }
    }

    method Gather(writes: seq<Write>)
      modifies this`changed, this`liveness
      ensures changed == old(changed) + Real(writes, declared) && liveness == old(liveness) + Live(writes, declared)
    {
      for n := 0 to |writes|
        invariant changed == old(changed) + Real(writes[..n], declared) && liveness == old(liveness) + Live(writes[..n], declared)
      {
        OneMoreWrite(writes, n, declared);
        if Liveness(writes[n], declared) {
          liveness := liveness + {writes[n].table};
        } else {
          changed := changed + {writes[n].table};
        }
      }
      assert writes[..|writes|] == writes;
    }

    /** `flush`: one event with everything that waited; a table with a real write is named there, never only as liveness. */
    method Flush() returns (sent: Option<Event>)
      requires Valid()
      modifies this
      ensures Valid() && View() == Step(old(View()), Op.Flush) && handle == None
      ensures sent.Some? <==> old(attached) && (old(changed) != {} || old(liveness) != {})
      ensures published == old(published) + if sent.Some? then [sent.value] else []
    {
      handle := None;
      var tables, lives := changed, liveness - changed;
      changed, liveness := {}, {};
      if !attached || (tables == {} && lives == {}) {
        return None;
      }
      seqNo := seqNo + 1;
      sent := Some(Event(instance, seqNo, tables, lives));
      published := published + [sent.value];
    }
  }
}
