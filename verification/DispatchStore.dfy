/**
 The claim transaction itself (service/dispatch_claim.py, `_claim_dispatch_once`): gates, proof of life, cleanup of a
 stale active run, then the first queued run this bridge can execute.
 */
module DispatchStore {
  import opened Common
  import opened DispatchClaim

  datatype Gate = Withhold | Hold | Steer | Proceed

  /** What the transaction reads elsewhere: settings, the helpers that judge the bridge and the console, and the clock. */
  datatype World = World(removed: bool, sameHost: bool, adopt: bool, blocked: bool, console: bool, gate: Gate,
    minutes: int, runtime: string, mode: string -> Option<string>, now: int)

  datatype Verdict = Skip | Drop(status: Status) | Take

  const MANAGED: string := "managed"
  const MESSAGE_ONLY: string := "message_only"
  const REQUIRE_START: string := "require_start"

  /** What `_select_claimable_run` does with one queued run. */
  function Judge(r: Run, hold: bool, modes: set<string>, w: World): Verdict {
    if hold && (r.queueIfBusy || !r.steerIfBusy) then Skip
    else if modes != {} && (if r.executionMode == "" then MANAGED else r.executionMode) !in modes then Skip
    else if r.dispatchMode == MESSAGE_ONLY then Drop(Cancelled)
    else if r.wants != "" && r.wants != w.runtime then Skip
    else
      var mode := w.mode(r.wants);
      if mode.None? || mode.value == "" || (r.executionMode != "" && r.executionMode != mode.value) then
        Drop(if r.dispatchMode == REQUIRE_START then Failed else Cancelled)
      else Take
  }

  function Judgement(req: Request, w: World): Run -> Verdict {
    (r: Run) => Judge(r, w.gate == Steer, req.modes, w)
  }

  lemma {:induction false} JudgementSettles(req: Request, w: World)
    ensures Settles(Judgement(req, w))
  {
  }

  // ---------------------------------------------------------------------------------------------
  // What a bridge may take, said of the rows

  /** A turn is running and the run does not ask to be steered into it, or asks to be queued. */
  predicate WaitsForTurn(r: Run, w: World) {
    w.gate == Steer && (!r.steerIfBusy || r.queueIfBusy)
  }

  /** The bridge runs this kind of work; it may say nothing about kinds, and a run that names none is a managed one. */
  predicate ModeOffered(r: Run, req: Request) {
    req.modes != {} ==> if r.executionMode == "" then "managed" in req.modes else r.executionMode in req.modes
  }

  predicate RuntimeFits(r: Run, w: World) {
    r.wants == "" || r.wants == w.runtime
  }

  /** The agent has a way to execute it now, and it is the one the run was made for. */
  predicate ModeFits(r: Run, w: World) {
    var mode := w.mode(r.wants);
    mode.Some? && mode.value != "" && (r.executionMode == "" || r.executionMode == mode.value)
  }

  predicate Executable(r: Run, req: Request, w: World) {
    !WaitsForTurn(r, w) && ModeOffered(r, req) && r.dispatchMode != "message_only" && RuntimeFits(r, w) && ModeFits(r, w)
  }

  /** What a run that is looked at and not taken becomes: it waits on, or is settled because it can never start. */
  function Passed(r: Run, req: Request, w: World): Run {
    if WaitsForTurn(r, w) || !ModeOffered(r, req) then r
    else if r.dispatchMode == "message_only" then r.(status := Cancelled)
    else if RuntimeFits(r, w) && !ModeFits(r, w) then r.(status := if r.dispatchMode == "require_start" then Failed else Cancelled)
    else r
  }

  lemma {:induction false} JudgedByTheRow(r: Run, req: Request, w: World)
    ensures Judgement(req, w)(r).Take? <==> Executable(r, req, w)
    ensures !Judgement(req, w)(r).Take? ==>
      Passed(r, req, w) == match Judgement(req, w)(r) case Drop(status) => r.(status := status) case _ => r
  {
    assert MANAGED == "managed" && MESSAGE_ONLY == "message_only" && REQUIRE_START == "require_start";
  }

  /**
   The listed runs were looked at in order: those before index `n` could not be taken and became what they had to, the one
   at `n` is the bridge's, and nothing else changed but an active run that was failed first.
   */
  ghost predicate Picked(before: map<string, Run>, after: map<string, Run>, req: Request, w: World, failed: Option<string>,
    queue: seq<string>, n: nat, answer: Answer)
  {
    && after.Keys == before.Keys && n <= |queue| && (forall i :: 0 <= i < |queue| ==> queue[i] in before)
    && answer == (if n < |queue| then Claim(queue[n]) else NothingToDo)
    && (forall i :: 0 <= i < n ==> !Executable(before[queue[i]], req, w) && after[queue[i]] == Passed(before[queue[i]], req, w))
    && (n < |queue| ==>
          var r := before[queue[n]];
          && Executable(r, req, w) && r.target == req.agent && r.status == Queued && !r.answered
          && after[queue[n]] == r.(status := Claimed, owner := req.bridge, runtime := w.runtime))
    && (forall id :: id in before && id !in queue[..n] && (n < |queue| ==> id != queue[n]) ==>
          after[id] == if failed == Some(id) then before[id].(status := Failed) else before[id])
  }

  // ---------------------------------------------------------------------------------------------
  // The queue

  /** The queued runs before index `n` of the list, settled where they can never run. */
  function Pruned(runs: map<string, Run>, queue: seq<string>, n: nat, judge: Run -> Verdict): (r: map<string, Run>)
    requires n <= |queue| && forall i :: 0 <= i < |queue| ==> queue[i] in runs
    ensures r.Keys == runs.Keys
  {
    if n == 0 then runs else
    var rest := Pruned(runs, queue, n - 1, judge);
    var id := queue[n-1];
    var verdict := judge(runs[id]);
    if verdict.Drop? then rest[id := runs[id].(status := verdict.status)] else rest
  }

  /** A judgement that drops a run cancels or fails it. */
  ghost predicate Settles(judge: Run -> Verdict) {
    forall r :: judge(r).Drop? ==> judge(r).status == Cancelled || judge(r).status == Failed
  }

  lemma {:induction false} PrunedAt(runs: map<string, Run>, agent: string, queue: seq<string>, n: nat, judge: Run -> Verdict, id: string)
    requires IsQueueQuery(runs, agent, queue) && Settles(judge) && n <= |queue| && id in runs
    ensures var r := Pruned(runs, queue, n, judge);
      r[id] == runs[id] || (id in queue[..n] && IsDropped(runs[id], r[id], agent))
  {
    if n > 0 {
      PrunedAt(runs, agent, queue, n - 1, judge, id);
      assert queue[..n] == queue[..n-1] + [queue[n-1]];
    }
  }

  lemma {:induction false} PrunedIs(runs: map<string, Run>, queue: seq<string>, n: nat, judge: Run -> Verdict, id: string)
    requires n <= |queue| && (forall i :: 0 <= i < |queue| ==> queue[i] in runs) && id in runs
    ensures Pruned(runs, queue, n, judge)[id] == if id in queue[..n] && judge(runs[id]).Drop? then runs[id].(status := judge(runs[id]).status) else runs[id]
  {
    if n > 0 {
      PrunedIs(runs, queue, n - 1, judge, id);
      assert queue[..n] == queue[..n-1] + [queue[n-1]];
    }
  }

  ghost predicate WaitsAt(runs: map<string, Run>, queue: seq<string>, n: nat, judge: Run -> Verdict) {
    && n < |queue| && (forall i :: 0 <= i < |queue| ==> queue[i] in runs)
    && Pruned(runs, queue, n, judge)[queue[n]] == runs[queue[n]]
  }

  lemma {:induction false} StillWaits(runs: map<string, Run>, agent: string, queue: seq<string>, n: nat, judge: Run -> Verdict)
    requires IsQueueQuery(runs, agent, queue) && Settles(judge) && n < |queue|
    ensures WaitsAt(runs, queue, n, judge)
  {
    PrunedAt(runs, agent, queue, n, judge, queue[n]);
    assert queue[n] !in queue[..n];
  }

  /** A run is judged as it was when the list was read: nothing before it in the list has changed it. */
  ghost predicate AllStillWait(runs: map<string, Run>, queue: seq<string>, judge: Run -> Verdict)
  {
    forall n: nat :: n < |queue| ==> WaitsAt(runs, queue, n, judge)
  }

  /** Index `n` of the list is the first run that can be taken; the length of the list when there is none. */
  ghost predicate IsFirstTake(runs: map<string, Run>, queue: seq<string>, n: nat, judge: Run -> Verdict)
    requires forall i :: 0 <= i < |queue| ==> queue[i] in runs
  {
    && n <= |queue|
    && (forall i :: 0 <= i < n ==> !judge(runs[queue[i]]).Take?)
    && (n < |queue| ==> judge(runs[queue[n]]).Take?)
  }

  /** Settling stale runs changes nothing the list of queued runs depends on. */
  lemma {:induction false} QueueAfterHeal(runs: map<string, Run>, agent: string, queue: seq<string>, id: string)
    requires IsQueueQuery(runs, agent, queue) && id in runs && Active(runs[id])
    ensures IsQueueQuery(runs[id := runs[id].(status := Failed)], agent, queue)
  {
  }

  /** The asking bridge's heartbeat does not decide about a run of another bridge. */
  lemma {:induction false} HealDueSame(d: Db, e: Db, req: Request, r: Run, minutes: int, now: int)
    requires BridgesAfter(d, e, req, now) && r.target == req.agent
    ensures HealDue(r, d.bridges, req.bridge, minutes, now) == HealDue(r, e.bridges, req.bridge, minutes, now)
  {
  }

  lemma {:induction false} BridgesAfterTwice(d: Db, e: Db, f: Db, req: Request, now: int)
    requires BridgesAfter(d, e, req, now) && BridgesAfter(e, f, req, now) && e.bridges.Keys == d.bridges.Keys
    ensures BridgesAfter(d, f, req, now)
  {
  }

  /** One turn of the selection loop. */
  lemma {:induction false} PrunedNext(runs: map<string, Run>, queue: seq<string>, n: nat, judge: Run -> Verdict)
    requires (forall i :: 0 <= i < |queue| ==> queue[i] in runs) && AllStillWait(runs, queue, judge)
    requires n < |queue| && IsFirstTake(runs, queue[..n], n, judge)
    ensures var now, next := Pruned(runs, queue, n, judge), Pruned(runs, queue, n + 1, judge);
      && now[queue[n]] == runs[queue[n]]
      && match judge(runs[queue[n]])
         case Skip => next == now && IsFirstTake(runs, queue[..n+1], n + 1, judge)
         case Drop(status) => next == now[queue[n] := runs[queue[n]].(status := status)] && IsFirstTake(runs, queue[..n+1], n + 1, judge)
         case Take => IsFirstTake(runs, queue, n, judge)
  {
    assert WaitsAt(runs, queue, n, judge);
    assert forall i :: 0 <= i < n ==> queue[..n][i] == queue[i];
  }

  /** The rows after the whole transaction, seen run by run. */
  ghost predicate RunsAfter(d: Db, after: map<string, Run>, req: Request, active: Option<string>, minutes: int, now: int, answer: Answer) {
    && after.Keys == d.runs.Keys && (answer.Claim? ==> answer.id in d.runs)
    && (forall id :: id in d.runs ==> RunAfter(d, id, after[id], req, minutes, now, answer))
    && (active.Some? && active.value in d.runs ==> after[active.value].status == Failed)
  }

  /** The rows after the cleanup. */
  ghost predicate IsCleaned(d: Db, healed: map<string, Run>, req: Request, active: Option<string>, minutes: int, now: int) {
    match active
    case None => healed == d.runs
    case Some(id) =>
      && id in d.runs && IsHealed(d.runs[id], d.runs[id].(status := Failed), d, req, minutes, now)
      && healed == d.runs[id := d.runs[id].(status := Failed)]
  }

  lemma {:induction false} CleanedRuns(d: Db, healed: map<string, Run>, req: Request, active: Option<string>, minutes: int, now: int, answer: Answer)
    requires IsCleaned(d, healed, req, active, minutes, now) && !answer.Claim?
    ensures RunsAfter(d, healed, req, active, minutes, now, answer)
  {
  }

  /** What the selection leaves: the runs before the first that can be taken are settled, and that one is marked. */
  ghost predicate IsSelected(healed: map<string, Run>, queue: seq<string>, n: nat, judge: Run -> Verdict, bridge: string, runtime: string,
    after: map<string, Run>, answer: Answer)
  {
    && n <= |queue| && (forall i :: 0 <= i < |queue| ==> queue[i] in healed)
    && var pruned := Pruned(healed, queue, n, judge);
       if n < |queue| then answer == Claim(queue[n]) && after == pruned[queue[n] := Taken(healed[queue[n]], bridge, runtime)]
       else answer == NothingToDo && after == pruned
  }

  /** The selection, said of the rows. */
  lemma {:induction false} SelectedIsPicked(runs: map<string, Run>, queue: seq<string>, n: nat, req: Request, w: World, after: map<string, Run>, answer: Answer)
    requires IsQueueQuery(runs, req.agent, queue) && IsFirstTake(runs, queue, n, Judgement(req, w))
    requires IsSelected(runs, queue, n, Judgement(req, w), req.bridge, w.runtime, after, answer)
    ensures Picked(runs, after, req, w, None, queue, n, answer)
  {
    var judge := Judgement(req, w);
    forall i | 0 <= i < n ensures !Executable(runs[queue[i]], req, w) && after[queue[i]] == Passed(runs[queue[i]], req, w) {
      JudgedByTheRow(runs[queue[i]], req, w);
      PrunedIs(runs, queue, n, judge, queue[i]);
      assert queue[i] in queue[..n] by { assert queue[..n][i] == queue[i]; }
    }
    if n < |queue| { JudgedByTheRow(runs[queue[n]], req, w); }
    forall id | id in runs && id !in queue[..n] && (n < |queue| ==> id != queue[n]) ensures after[id] == runs[id] {
      PrunedIs(runs, queue, n, judge, id);
    }
  }

  /** The same, counted from before the active run was failed. */
  lemma {:induction false} PickedSinceStart(runs: map<string, Run>, active: string, queue: seq<string>, n: nat, req: Request, w: World, after: map<string, Run>, answer: Answer)
    requires IsQueueQuery(runs, req.agent, queue) && active in runs && Active(runs[active])
    requires Picked(runs[active := runs[active].(status := Failed)], after, req, w, None, queue, n, answer)
    ensures Picked(runs, after, req, w, Some(active), queue, n, answer)
  {
    assert active !in queue;
    assert forall i :: 0 <= i < |queue| ==> queue[i] != active;
  }

  /** No run that waits for the agent and could be taken was asked for before the one that is. */
  ghost predicate IsEarliest(runs: map<string, Run>, req: Request, w: World, id: string) {
    id in runs && forall j :: j in runs && runs[j].target == req.agent && runs[j].status == Queued && !runs[j].answered && Executable(runs[j], req, w) ==>
      runs[id].requested <= runs[j].requested
  }

  lemma {:induction false} PickedIsEarliest(runs: map<string, Run>, after: map<string, Run>, req: Request, w: World, failed: Option<string>,
    queue: seq<string>, n: nat, answer: Answer)
    requires IsQueueQuery(runs, req.agent, queue) && Picked(runs, after, req, w, failed, queue, n, answer) && answer.Claim?
    ensures IsEarliest(runs, req, w, answer.id)
  {
    forall j | j in runs && runs[j].target == req.agent && runs[j].status == Queued && !runs[j].answered && Executable(runs[j], req, w)
      ensures runs[answer.id].requested <= runs[j].requested
    {
      forall i | 0 <= i < n ensures queue[i] != j { assert !Executable(runs[queue[i]], req, w); }
      ListedEarlier(runs, req.agent, queue, n, j);
    }
  }

  lemma {:induction false} ListedEarlier(runs: map<string, Run>, agent: string, queue: seq<string>, n: nat, j: string)
    requires IsQueueQuery(runs, agent, queue) && n < |queue| && j in runs && Waiting(runs[j], agent) && forall i :: 0 <= i < n ==> queue[i] != j
    ensures runs[queue[n]].requested <= runs[j].requested
  {
    if j in queue {
      var i :| 0 <= i < |queue| && queue[i] == j;
      assert i >= n;
    }
  }

  /** Nothing of the agent's is claimed or running. */
  ghost predicate NothingRuns(runs: map<string, Run>, agent: string) {
    forall id :: id in runs && runs[id].target == agent ==> runs[id].status != Claimed && runs[id].status != Running
  }

  /**
   What an admitted poll comes to. Past the gates and the active run, the listed runs are looked at in order, and the one
   taken is the earliest that could be; otherwise nothing is taken and no row changes but that of an active run that is due.
   */
  ghost predicate Served(before: map<string, Run>, after: map<string, Run>, bridges: map<string, Bridge>, req: Request, w: World,
    active: Option<string>, queue: seq<string>, answer: Answer)
  {
    && (active.Some? ==> active.value in before)
    && var due := active.Some? && HealDue(before[active.value], bridges, req.bridge, w.minutes, w.now);
       if Opens(w) && (active.None? || due) then
         && (exists n: nat :: Picked(before, after, req, w, active, queue, n, answer))
         && (answer.Claim? ==> IsEarliest(before, req, w, answer.id) && (active.None? ==> NothingRuns(before, req.agent)))
       else !answer.Claim? && after == if due then before[active.value := before[active.value].(status := Failed)] else before
  }

  lemma {:induction false} TakenIsServed(d: Db, healed: map<string, Run>, after: map<string, Run>, req: Request, w: World, active: Option<string>, queue: seq<string>, answer: Answer)
    requires IsActiveQuery(d.runs, req.agent, active) && IsQueueQuery(d.runs, req.agent, queue)
    requires active.Some? ==> HealDue(d.runs[active.value], d.bridges, req.bridge, w.minutes, w.now)
    requires healed == if active.Some? then d.runs[active.value := d.runs[active.value].(status := Failed)] else d.runs
    requires if Opens(w) then exists n: nat :: Picked(healed, after, req, w, None, queue, n, answer) else !answer.Claim? && after == healed
    ensures Served(d.runs, after, d.bridges, req, w, active, queue, answer)
  {
    if Opens(w) {
      var n: nat :| Picked(healed, after, req, w, None, queue, n, answer);
      if active.Some? { PickedSinceStart(d.runs, active.value, queue, n, req, w, after, answer); }
      assert Picked(d.runs, after, req, w, active, queue, n, answer);
      if answer.Claim? { PickedIsEarliest(d.runs, after, req, w, active, queue, n, answer); }
    }
  }

  lemma {:induction false} RunsAfterQueue(d: Db, healed: map<string, Run>, req: Request, active: Option<string>,
    queue: seq<string>, n: nat, judge: Run -> Verdict, runtime: string, after: map<string, Run>, minutes: int, now: int, answer: Answer)
    requires IsQueueQuery(healed, req.agent, queue) && Settles(judge) && IsCleaned(d, healed, req, active, minutes, now)
    requires IsSelected(healed, queue, n, judge, req.bridge, runtime, after, answer)
    ensures RunsAfter(d, after, req, active, minutes, now, answer)
  {
    forall id | id in d.runs ensures RunAfter(d, id, after[id], req, minutes, now, answer) {
      PrunedAt(healed, req.agent, queue, n, judge, id);
    }
    if active.Some? {
      PrunedAt(healed, req.agent, queue, n, judge, active.value);
    }
  }

  lemma {:induction false} NothingClaimed(d: Db, e: Db, req: Request, active: Option<string>, minutes: int, now: int, answer: Answer)
    requires e.runs == d.runs && BridgesAfter(d, e, req, now) && e.agents.Keys == d.agents.Keys && !answer.Claim?
    ensures ClaimStep(d, e, req, active, minutes, now, answer)
  {
  }

  /** The gates before the active run is looked at, in order. */
  function Refused(agents: map<string, Agent>, req: Request, w: World): Option<Answer> {
    if req.agent !in agents then Some(if w.removed then Removed else NotFound) else
    var a := agents[req.agent];
    if req.machine != "" && a.machine != "" && !w.sameHost then Some(OtherHost)
    else if a.stopped then Some(Stopped)
    else if req.sidecar && !a.managed && !a.driving && !w.adopt then Some(Released)
    else if w.blocked then Some(BridgeBlocked)
    else None
  }

  /** The agent is not stopped, is asked for from its own host, and a sidecar only drives one that is managed, driven already, or to be adopted. */
  predicate MayAsk(agents: map<string, Agent>, req: Request, w: World) {
    && req.agent in agents && !w.blocked
    && var a := agents[req.agent];
       !a.stopped && (req.machine == "" || a.machine == "" || w.sameHost) && (!req.sidecar || a.managed || a.driving || w.adopt)
  }

  lemma {:induction false} NotRefusedMayAsk(agents: map<string, Agent>, req: Request, w: World)
    ensures Refused(agents, req, w).None? <==> MayAsk(agents, req, w)
  {
  }

  /** The bridge that polls was heard of now: its row says so, a sidecar's is not superseded, and a sidecar without one has it from now on. */
  predicate HeardNow(before: map<string, Bridge>, after: map<string, Bridge>, req: Request, now: int) {
    req.bridge != "" ==>
      if req.bridge !in before then (if req.sidecar then req.bridge in after && after[req.bridge] == Bridge(req.agent, now, false) else req.bridge !in after)
      else before[req.bridge].agent == req.agent ==>
        req.bridge in after && after[req.bridge].lastSeen == now && (req.sidecar ==> !after[req.bridge].superseded)
  }

  lemma {:induction false} PollIsHeard(bridges: map<string, Bridge>, req: Request, now: int)
    ensures HeardNow(bridges, Beaten(Revived(bridges, req, now), req, now), req, now)
  {
  }

  /** The owner's row is there for this agent, not superseded, and was heard of less than two minutes ago. */
  predicate HeardOf(r: Run, bridges: map<string, Bridge>, now: int) {
    r.owner in bridges && var b := bridges[r.owner]; b.agent == r.target && !b.superseded && b.lastSeen != 0 && now - b.lastSeen < 120
  }

  /** The bridge rows after a live sidecar's poll has taken back its own supersession. */
  function Revived(bridges: map<string, Bridge>, req: Request, now: int): map<string, Bridge> {
    if req.sidecar && req.bridge != "" && req.bridge in bridges && bridges[req.bridge].agent == req.agent && bridges[req.bridge].superseded
    then bridges[req.bridge := bridges[req.bridge].(superseded := false, lastSeen := now)] else bridges
  }

  /** The bridge rows after the heartbeat of the poll. */
  function Beaten(bridges: map<string, Bridge>, req: Request, now: int): map<string, Bridge> {
    if req.bridge == "" then bridges
    else if req.bridge in bridges then
      if bridges[req.bridge].agent == req.agent then bridges[req.bridge := bridges[req.bridge].(lastSeen := now)] else bridges
    else if req.sidecar then bridges[req.bridge := Bridge(req.agent, now, false)] else bridges
  }

  function Driving(agents: map<string, Agent>, agent: string): map<string, Agent>
    requires agent in agents
  {
    agents[agent := agents[agent].(driving := true)]
  }

  /** The gate at which a poll stops, before the bridge rows are touched. */
  predicate StopsEarly(refused: Option<Answer>) {
    refused.Some? && refused.value != BridgeBlocked
  }

  /** Neither the console nor the readiness gate holds the agent's work back. */
  predicate Opens(w: World) {
    !w.console && w.gate != Withhold && w.gate != Hold
  }

  class DispatchStore {
    var runs: map<string, Run>
    var bridges: map<string, Bridge>
    var agents: map<string, Agent>

    function Rows(): Db
      reads this
    {
      Db(runs, bridges, agents)
    }

    /** A live channel sidecar's poll is proof of life: its own row is no longer superseded. */
    method Revive(req: Request, now: int)
      modifies this`bridges
      ensures bridges == Revived(old(bridges), req, now) && BridgesAfter(old(Rows()), Rows(), req, now)
    {
      if req.sidecar && req.bridge != "" && req.bridge in bridges {
        var b := bridges[req.bridge];
        if b.agent == req.agent && b.superseded {
          bridges := bridges[req.bridge := b.(superseded := false, lastSeen := now)];
        }
      }
    }

    /** The claim poll is the heartbeat; a sidecar without a row gets one. */
    method Beat(req: Request, now: int)
      modifies this`bridges
      ensures bridges == Beaten(old(bridges), req, now) && BridgesAfter(old(Rows()), Rows(), req, now)
    {
      if req.bridge != "" {
        if req.bridge in bridges && bridges[req.bridge].agent == req.agent {
          bridges := bridges[req.bridge := bridges[req.bridge].(lastSeen := now)];
        } else if req.sidecar && req.bridge !in bridges {
          bridges := bridges[req.bridge := Bridge(req.agent, now, false)];
        }
      }
    }

    /** Leaves an active run alone while its owner may still be at work, and fails it otherwise. */
    method HealStale(req: Request, id: string, minutes: int, now: int) returns (busy: Option<Answer>)
      requires id in runs && runs[id].target == req.agent && Active(runs[id])
      modifies this`runs
      ensures busy.Some? ==> !busy.value.Claim?
      ensures busy.None? <==> HealDue(old(runs)[id], bridges, req.bridge, minutes, now)
      ensures var r := old(runs)[id];
        busy.None? <==> && (r.owner == "" || r.owner != req.bridge) && (r.owner == "" || !HeardOf(r, bridges, now))
                        && (r.since == 0 || now - r.since >= if r.owner != "" then 120 else if minutes == 0 then 1800 else Max(300, 60 * minutes))
      ensures runs == if busy.None? then old(runs)[id := old(runs)[id].(status := Failed)] else old(runs)
    {
      var r := runs[id];
      if r.owner != "" && r.owner == req.bridge {
        return Some(OwnRunActive);
      }
      if r.owner != "" {
        if r.owner in bridges && bridges[r.owner].agent == req.agent {
          var b := bridges[r.owner];
          if !b.superseded && b.lastSeen != 0 && now - b.lastSeen < OWNER_STALE {
            return Some(OwnerAlive);
          }
        }
      }
      var stale := StaleAfter(r, minutes);
      var age := if r.since != 0 then now - r.since else stale + 1;
      if age < stale {
        return Some(RunRecent);
      }
      runs := runs[id := r.(status := Failed)];
      busy := None;
    }

    /** The first run of the list this bridge can execute; the ones before it that can never run are settled. */
    method SelectClaimable(queue: seq<string>, judge: Run -> Verdict) returns (n: nat)
      requires (forall i :: 0 <= i < |queue| ==> queue[i] in runs) && AllStillWait(runs, queue, judge)
      modifies this`runs
      ensures IsFirstTake(old(runs), queue, n, judge) && runs == Pruned(old(runs), queue, n, judge)
    {
      ghost var start := runs;
      n := 0;
      while n < |queue|
        invariant n <= |queue| && runs == Pruned(start, queue, n, judge)
        invariant IsFirstTake(start, queue[..n], n, judge)
      {
        PrunedNext(start, queue, n, judge);
        var id := queue[n];
        match judge(runs[id]) {
          case Skip =>
          case Drop(status) => runs := runs[id := runs[id].(status := status)];
          case Take => return;
        }
        n := n + 1;
      }
    }

    /** Selects and marks. */
    method Select(req: Request, queue: seq<string>, judge: Run -> Verdict, runtime: string) returns (answer: Answer)
      requires (forall i :: 0 <= i < |queue| ==> queue[i] in runs) && AllStillWait(runs, queue, judge)
      modifies this`runs
      ensures exists n: nat :: IsFirstTake(old(runs), queue, n, judge) && IsSelected(old(runs), queue, n, judge, req.bridge, runtime, runs, answer)
    {
      ghost var start := runs;
      var n := SelectClaimable(queue, judge);
      if n == |queue| {
        answer := NothingToDo;
      } else {
        assert WaitsAt(start, queue, n, judge);
        answer := Claim(queue[n]);
        runs := runs[queue[n] := Taken(runs[queue[n]], req.bridge, runtime)];
      }
      assert IsSelected(start, queue, n, judge, req.bridge, runtime, runs, answer);
    }

    /** The queue. */
    method TakeFirst(req: Request, w: World, active: Option<string>, queue: seq<string>, ghost d: Db) returns (answer: Answer)
      requires IsQueueQuery(runs, req.agent, queue) && IsCleaned(d, runs, req, active, w.minutes, w.now)
      modifies this`runs
      ensures RunsAfter(d, runs, req, active, w.minutes, w.now, answer)
      ensures exists n: nat :: Picked(old(runs), runs, req, w, None, queue, n, answer)
    {
      ghost var start, judge := runs, Judgement(req, w);
      JudgementSettles(req, w);
      forall i: nat | i < |queue| { StillWaits(runs, req.agent, queue, i, judge); }
      answer := Select(req, queue, Judgement(req, w), w.runtime);
      ghost var n: nat :| IsFirstTake(start, queue, n, judge) && IsSelected(start, queue, n, judge, req.bridge, w.runtime, runs, answer);
      RunsAfterQueue(d, start, req, active, queue, n, judge, w.runtime, runs, w.minutes, w.now, answer);
      SelectedIsPicked(start, queue, n, req, w, runs, answer);
    }

    /** The console, the readiness gate, and then the queue. `d` is how the transaction began. */
    method TakeNext(req: Request, w: World, active: Option<string>, queue: seq<string>, ghost d: Db) returns (answer: Answer)
      requires IsQueueQuery(runs, req.agent, queue) && req.agent in agents && IsCleaned(d, runs, req, active, w.minutes, w.now)
      modifies this`runs, this`agents
      ensures RunsAfter(d, runs, req, active, w.minutes, w.now, answer) && agents.Keys == old(agents.Keys)
      ensures if Opens(w) then exists n: nat :: Picked(old(runs), runs, req, w, None, queue, n, answer) else !answer.Claim? && runs == old(runs)
      ensures agents == if answer.Claim? && req.sidecar && old(agents)[req.agent].managed then Driving(old(agents), req.agent) else old(agents)
    {
      if w.console {
        answer := ConsoleOwns;
        CleanedRuns(d, runs, req, active, w.minutes, w.now, answer);
        return;
      }
      if w.gate == Withhold || w.gate == Hold {
        answer := Withheld;
        CleanedRuns(d, runs, req, active, w.minutes, w.now, answer);
        return;
      }
      answer := TakeFirst(req, w, active, queue, d);
      if answer.Claim? && req.sidecar && agents[req.agent].managed {
        agents := agents[req.agent := agents[req.agent].(driving := true)];
      }
    }

    /** `_claim_dispatch_once`: the run the bridge gets is the oldest listed one it can execute. */
    method ClaimOnce(req: Request, w: World, active: Option<string>, queue: seq<string>) returns (answer: Answer)
      requires IsActiveQuery(runs, req.agent, active) && IsQueueQuery(runs, req.agent, queue)
      modifies this
      ensures ClaimStep(old(Rows()), Rows(), req, active, w.minutes, w.now, answer)
      ensures Refused(old(agents), req, w).Some? ==> answer == Refused(old(agents), req, w).value && runs == old(runs)
      ensures Refused(old(agents), req, w).None? && active.Some? ==>
        (runs[active.value].status == Failed <==> HealDue(old(runs)[active.value], old(bridges), req.bridge, w.minutes, w.now))
      ensures Refused(old(agents), req, w).None? ==> Served(old(runs), runs, old(bridges), req, w, active, queue, answer)
      ensures answer.Claim? ==> MayAsk(old(agents), req, w) && !w.console && (w.gate == Steer || w.gate == Proceed)
      ensures Refused(old(agents), req, w).None? ==> HeardNow(old(bridges), bridges, req, w.now)
      ensures bridges == match Refused(old(agents), req, w)
        case None => Beaten(Revived(old(bridges), req, w.now), req, w.now)
        case Some(why) => if why == BridgeBlocked then Revived(old(bridges), req, w.now) else old(bridges)
    {
      var refused := Admit(req, w);
      if refused.Some? {
        answer := refused.value;
        NothingClaimed(old(Rows()), Rows(), req, active, w.minutes, w.now, answer);
        return;
      }
      ghost var admitted := Rows();
      NotRefusedMayAsk(old(agents), req, w);
      PollIsHeard(old(bridges), req, w.now);
      Beat(req, w.now);
      BridgesAfterTwice(old(Rows()), admitted, Rows(), req, w.now);
      answer := CleanAndTake(req, w, active, queue, old(Rows()));
    }

    /** The gates before the active run, with the driver adoption and the revival that happen on the way. */
    method Admit(req: Request, w: World) returns (refused: Option<Answer>)
      modifies this`agents, this`bridges
      ensures refused == Refused(old(agents), req, w) && (refused.None? ==> req.agent in agents)
      ensures bridges == if StopsEarly(refused) then old(bridges) else Revived(old(bridges), req, w.now)
      ensures BridgesAfter(old(Rows()), Rows(), req, w.now) && agents.Keys == old(agents.Keys)
      ensures StopsEarly(refused) || !req.sidecar ==> agents == old(agents)
      ensures !StopsEarly(refused) && req.sidecar ==> req.agent in old(agents)
      ensures !StopsEarly(refused) && req.sidecar ==> agents == if old(agents)[req.agent].managed then old(agents) else Driving(old(agents), req.agent)
    {
      if req.agent !in agents {
        return Some(if w.removed then Removed else NotFound);
      }
      var a := agents[req.agent];
      if req.machine != "" && a.machine != "" && !w.sameHost {
        return Some(OtherHost);
      }
      if a.stopped {
        return Some(Stopped);
      }
      if req.sidecar && !a.managed && !a.driving {
        if !w.adopt {
          return Some(Released);
        }
        agents := agents[req.agent := a.(driving := true)];
      }
      Revive(req, w.now);
      refused := if w.blocked then Some(BridgeBlocked) else None;
    }

    /** From the active run on. `d` is how the transaction began; since then only bridge and agent rows changed. */
    method CleanAndTake(req: Request, w: World, active: Option<string>, queue: seq<string>, ghost d: Db) returns (answer: Answer)
      requires IsActiveQuery(runs, req.agent, active) && IsQueueQuery(runs, req.agent, queue) && req.agent in agents
      requires runs == d.runs && BridgesAfter(d, Rows(), req, w.now)
      modifies this`runs, this`agents
      ensures agents.Keys == old(agents.Keys) && RunsAfter(d, runs, req, if answer.Claim? then active else None, w.minutes, w.now, answer)
      ensures active.Some? ==>
        (runs[active.value].status == Failed <==> HealDue(d.runs[active.value], d.bridges, req.bridge, w.minutes, w.now))
      ensures Served(d.runs, runs, d.bridges, req, w, active, queue, answer)
      ensures agents == if answer.Claim? && req.sidecar && old(agents)[req.agent].managed then Driving(old(agents), req.agent) else old(agents)
    {
      if active.Some? {
        HealDueSame(d, Rows(), req, runs[active.value], w.minutes, w.now);
        QueueAfterHeal(runs, req.agent, queue, active.value);
        var busy := HealStale(req, active.value, w.minutes, w.now);
        if busy.Some? {
          return busy.value;
        }
      }
      ghost var healed := runs;
      answer := TakeNext(req, w, active, queue, d);
      TakenIsServed(d, healed, runs, req, w, active, queue, answer);
    }
  }
}
