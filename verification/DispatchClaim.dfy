/**
 Claiming a dispatch run (service/dispatch_claim.py): what one claim transaction may do to the run, bridge and agent
 rows, and what it keeps. `DispatchHistory` puts claims by any number of bridges and all other transactions together.
 Times are whole seconds; 0 is a time that could not be read.
 */
module DispatchClaim {
  import opened Common

  datatype Status = Queued | Claimed | Running | Settled | Failed | Cancelled

  datatype Run = Run(target: string, status: Status, owner: string, since: int, requested: int, answered: bool,
    queueIfBusy: bool, steerIfBusy: bool, executionMode: string, dispatchMode: string, wants: string, runtime: string)

  datatype Bridge = Bridge(agent: string, lastSeen: int, superseded: bool)

  datatype Agent = Agent(machine: string, stopped: bool, managed: bool, driving: bool)

  datatype Db = Db(runs: map<string, Run>, bridges: map<string, Bridge>, agents: map<string, Agent>)

  datatype Request = Request(agent: string, machine: string, bridge: string, sidecar: bool, modes: set<string>)

  datatype Answer = Removed | NotFound | OtherHost | Stopped | Released | BridgeBlocked
    | OwnRunActive | OwnerAlive | RunRecent | ConsoleOwns | Withheld | NothingToDo | Claim(id: string)

  /** `ACTIVE_RUN_BRIDGE_STALE_SECONDS`. */
  const OWNER_STALE: int := 120

  predicate Active(r: Run) {
    r.status == Claimed || r.status == Running
  }

  predicate Waiting(r: Run, agent: string) {
    r.target == agent && r.status == Queued && !r.answered
  }

  /** The owner bridge of the run is not superseded and has been heard of within the stale bound. */
  predicate OwnerLives(r: Run, bridges: map<string, Bridge>, now: int) {
    && r.owner != "" && r.owner in bridges
    && var b := bridges[r.owner];
       b.agent == r.target && !b.superseded && b.lastSeen != 0 && now - b.lastSeen < OWNER_STALE
  }

  function StaleAfter(r: Run, minutes: int): int {
    if r.owner != "" then OWNER_STALE else Max(300, (if minutes == 0 then 30 else minutes) * 60)
  }

  function Age(r: Run, minutes: int, now: int): int {
    if r.since != 0 then now - r.since else StaleAfter(r, minutes) + 1
  }

  /** Whether a claim by `bridge` that gets as far as the active run fails that run. */
  predicate HealDue(r: Run, bridges: map<string, Bridge>, bridge: string, minutes: int, now: int) {
    && !(r.owner != "" && r.owner == bridge)
    && !OwnerLives(r, bridges, now)
    && Age(r, minutes, now) >= StaleAfter(r, minutes)
  }

  function Taken(r: Run, bridge: string, runtime: string): Run {
    r.(status := Claimed, owner := bridge, runtime := runtime)
  }

  // ---------------------------------------------------------------------------------------------
  // The two queries

  /** The active run of the agent, if it has one. */
  predicate IsActiveQuery(runs: map<string, Run>, agent: string, active: Option<string>) {
    match active
    case None => forall id :: id in runs && runs[id].target == agent ==> !Active(runs[id])
    case Some(id) => id in runs && runs[id].target == agent && Active(runs[id])
  }

  const QUEUE_LIMIT: nat := 25

  /** The oldest queued, unanswered runs of the agent, in the order they were requested. */
  predicate IsQueueQuery(runs: map<string, Run>, agent: string, queue: seq<string>) {
    && |queue| <= QUEUE_LIMIT
    && (forall i :: 0 <= i < |queue| ==> queue[i] in runs && Waiting(runs[queue[i]], agent))
    && (forall i, j :: 0 <= i < j < |queue| ==> queue[i] != queue[j] && runs[queue[i]].requested <= runs[queue[j]].requested)
    && (forall id :: id in runs && Waiting(runs[id], agent) && id !in queue ==>
         |queue| == QUEUE_LIMIT && forall i :: 0 <= i < |queue| ==> runs[queue[i]].requested <= runs[id].requested)
  }

  // ---------------------------------------------------------------------------------------------
  // What one claim may do

  /** The run is failed because its owner is gone and it has been active for too long. */
  predicate IsHealed(r: Run, after: Run, d: Db, req: Request, minutes: int, now: int) {
    && r.target == req.agent && Active(r) && HealDue(r, d.bridges, req.bridge, minutes, now)
    && after == r.(status := Failed)
  }

  /** A queued run that this agent can never execute is settled without being run. */
  predicate IsDropped(r: Run, after: Run, agent: string) {
    Waiting(r, agent) && (after == r.(status := Cancelled) || after == r.(status := Failed))
  }

  predicate IsTaken(r: Run, after: Run, req: Request) {
    Waiting(r, req.agent) && after == Taken(r, req.bridge, after.runtime)
  }

  predicate RunAfter(d: Db, id: string, after: Run, req: Request, minutes: int, now: int, answer: Answer)
    requires id in d.runs
  {
    if answer == Claim(id) then IsTaken(d.runs[id], after, req)
    else after == d.runs[id] || IsHealed(d.runs[id], after, d, req, minutes, now) || IsDropped(d.runs[id], after, req.agent)
  }

  /** Only the asking bridge's own row changes, and only to say that it is alive. */
  predicate BridgesAfter(d: Db, e: Db, req: Request, now: int) {
    && d.bridges.Keys <= e.bridges.Keys <= d.bridges.Keys + {req.bridge}
    && (forall b :: b in d.bridges && b != req.bridge ==> e.bridges[b] == d.bridges[b])
    && (req.bridge in d.bridges ==>
         var b, c := d.bridges[req.bridge], e.bridges[req.bridge];
         c.agent == b.agent && (c.superseded ==> b.superseded) && (c.lastSeen == b.lastSeen || c.lastSeen == now))
    && (req.bridge in e.bridges && req.bridge !in d.bridges ==>
         e.bridges[req.bridge] == Bridge(req.agent, now, false))
  }

  predicate ClaimStep(d: Db, e: Db, req: Request, active: Option<string>, minutes: int, now: int, answer: Answer) {
    && e.runs.Keys == d.runs.Keys
    && (forall id :: id in d.runs ==> RunAfter(d, id, e.runs[id], req, minutes, now, answer))
    && (answer.Claim? ==> answer.id in d.runs)
    && (answer.Claim? && active.Some? ==> active.value in d.runs && e.runs[active.value].status == Failed)
    && BridgesAfter(d, e, req, now)
    && e.agents.Keys == d.agents.Keys
  }

  // ---------------------------------------------------------------------------------------------
  // One claim

  /** No agent has two active runs. */
  ghost predicate OneActive(runs: map<string, Run>) {
    forall i, j :: i in runs && j in runs && Active(runs[i]) && Active(runs[j]) && runs[i].target == runs[j].target ==> i == j
  }

  /** A run that is active after a claim was active before it, or is the one claimed; then nothing else is, for that agent. */
  lemma {:induction false} ActiveComesFrom(d: Db, e: Db, req: Request, active: Option<string>, minutes: int, now: int, answer: Answer, id: string)
    requires ClaimStep(d, e, req, active, minutes, now, answer) && id in e.runs && Active(e.runs[id])
    ensures e.runs[id].target == d.runs[id].target
    ensures if answer == Claim(id) then e.runs[id].target == req.agent && !Active(d.runs[id])
      else Active(d.runs[id]) && (answer.Claim? ==> active != Some(id))
  {
  }

  lemma {:induction false} ClaimKeepsOneActive(d: Db, e: Db, req: Request, active: Option<string>, minutes: int, now: int, answer: Answer)
    requires OneActive(d.runs) && IsActiveQuery(d.runs, req.agent, active)
    requires ClaimStep(d, e, req, active, minutes, now, answer)
    ensures OneActive(e.runs)
  {
    forall i, j | i in e.runs && j in e.runs && Active(e.runs[i]) && Active(e.runs[j]) && e.runs[i].target == e.runs[j].target
      ensures i == j
    {
      ActiveComesFrom(d, e, req, active, minutes, now, answer, i);
      ActiveComesFrom(d, e, req, active, minutes, now, answer, j);
    }
  }

  /** A run whose owner lives is left as it is by every claim: another bridge's and the owner's own. */
  lemma {:induction false} ClaimSparesLiveRun(d: Db, e: Db, req: Request, active: Option<string>, minutes: int, now: int, answer: Answer, id: string)
    requires ClaimStep(d, e, req, active, minutes, now, answer)
    requires id in d.runs && Active(d.runs[id]) && (OwnerLives(d.runs[id], d.bridges, now) || (req.bridge != "" && d.runs[id].owner == req.bridge))
    ensures e.runs[id] == d.runs[id]
  {
    assert RunAfter(d, id, e.runs[id], req, minutes, now, answer);
  }

  /** A claim does not end another bridge's life: an owner that lives at `now` still does afterwards. */
  lemma {:induction false} ClaimKeepsOwnerAlive(d: Db, e: Db, req: Request, active: Option<string>, minutes: int, now: int, answer: Answer, r: Run)
    requires ClaimStep(d, e, req, active, minutes, now, answer) && OwnerLives(r, d.bridges, now) && now != 0
    ensures OwnerLives(r, e.bridges, now)
  {
  }

  // ---------------------------------------------------------------------------------------------
  // How many runs are active

  function ActiveOf(runs: map<string, Run>, agent: string): set<string> {
    set id | id in runs && Active(runs[id]) && runs[id].target == agent
  }

  lemma {:induction false} SubsetIsSmaller(a: set<string>, b: set<string>)
    requires a <= b
    ensures |a| <= |b|
  {
    assert b == a + (b - a);
  }

  /** Whatever the rows hold, a claim leaves no agent with more active runs than it had, or than one. */
  lemma {:induction false} ClaimAddsNoActiveRun(d: Db, e: Db, req: Request, active: Option<string>, minutes: int, now: int, answer: Answer, agent: string)
    requires IsActiveQuery(d.runs, req.agent, active) && ClaimStep(d, e, req, active, minutes, now, answer)
    ensures |ActiveOf(e.runs, agent)| <= Max(1, |ActiveOf(d.runs, agent)|)
  {
    var before, after := ActiveOf(d.runs, agent), ActiveOf(e.runs, agent);
    forall id | id in after ensures id in before || (agent == req.agent && answer == Claim(id)) {
      ActiveComesFrom(d, e, req, active, minutes, now, answer, id);
    }
    if answer.Claim? && agent == req.agent {
      match active {
        case None =>
          assert before == {};
          SubsetIsSmaller(after, {answer.id});
        case Some(failed) =>
          assert failed in before && failed !in after;
          SubsetIsSmaller(after, (before - {failed}) + {answer.id});
      }
    } else {
      SubsetIsSmaller(after, before);
    }
  }
}
