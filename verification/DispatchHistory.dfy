/**
 Every history of claims by any number of bridges mixed with any other transactions of the service, and the one other
 transaction that makes a run active by itself: input delivered into a console (service/api_core/console_input_queue.py).
 */
module DispatchHistory {
  import opened Common
  import opened DispatchClaim

  datatype Event =
    | Asked(req: Request, active: Option<string>, minutes: int, now: int, answer: Answer)
    | Other

  /** A claim does what a claim may do; any other transaction may do anything. */
  ghost predicate Step(d: Db, e: Db, event: Event) {
    match event
    case Asked(req, active, minutes, now, answer) =>
      IsActiveQuery(d.runs, req.agent, active) && ClaimStep(d, e, req, active, minutes, now, answer)
    case Other => true
  }

  ghost predicate IsHistory(states: seq<Db>, events: seq<Event>) {
    |states| == |events| + 1 && forall i :: 0 <= i < |events| ==> Step(states[i], states[i+1], events[i])
  }

  // ---------------------------------------------------------------------------------------------
  // One active run per agent

  predicate NewlyActive(d: Db, e: Db, id: string) {
    id in e.runs && Active(e.runs[id]) && !(id in d.runs && Active(d.runs[id]) && d.runs[id].target == e.runs[id].target)
  }

  /** Every run that the transaction makes active, or hands to another agent while active, is then the only active run of its agent. */
  ghost predicate NewActiveAlone(d: Db, e: Db) {
    forall id :: NewlyActive(d, e, id) ==> ActiveOf(e.runs, e.runs[id].target) == {id}
  }

  lemma {:induction false} OneActiveSets(runs: map<string, Run>, id: string)
    requires OneActive(runs) && id in runs && Active(runs[id])
    ensures ActiveOf(runs, runs[id].target) == {id}
  {
  }

  /** A transaction keeps every agent at one active run if and only if the runs it makes active are alone. */
  lemma {:induction false} KeepsOneActiveIff(d: Db, e: Db)
    requires OneActive(d.runs)
    ensures OneActive(e.runs) <==> NewActiveAlone(d, e)
  {
    if OneActive(e.runs) {
      forall id | NewlyActive(d, e, id) ensures ActiveOf(e.runs, e.runs[id].target) == {id} { OneActiveSets(e.runs, id); }
    }
    if NewActiveAlone(d, e) {
      forall i, j | i in e.runs && j in e.runs && Active(e.runs[i]) && Active(e.runs[j]) && e.runs[i].target == e.runs[j].target
        ensures i == j
      {
        var both := ActiveOf(e.runs, e.runs[i].target);
        assert i in both && j in both;
        if NewlyActive(d, e, i) || NewlyActive(d, e, j) { assert both == {i} || both == {j}; }
      }
    }
  }

  ghost predicate OthersKeepAlone(states: seq<Db>, events: seq<Event>)
    requires IsHistory(states, events)
  {
    forall i {:trigger events[i]} :: 0 <= i < |events| && events[i].Other? ==> NewActiveAlone(states[i], states[i+1])
  }

  /** A claim is never the transaction that gives an agent its second active run. */
  lemma {:induction false} OneActiveSoFar(states: seq<Db>, events: seq<Event>, n: nat)
    requires IsHistory(states, events) && OneActive(states[0].runs) && n < |states| && OthersKeepAlone(states, events)
    ensures OneActive(states[n].runs)
  {
    if n > 0 {
      OneActiveSoFar(states, events, n - 1);
      var d, e := states[n-1], states[n];
      assert Step(d, e, events[n-1]);
      match events[n-1] {
        case Asked(req, active, minutes, now, answer) => ClaimKeepsOneActive(d, e, req, active, minutes, now, answer);
        case Other => KeepsOneActiveIff(d, e);
      }
    }
  }

  /**
   In every history, from rows in which no agent has two active runs: no agent ever has two if and only if every
   transaction that is not a claim leaves the runs it makes active alone. No condition falls on the claims.
   */
  lemma {:induction false} NeverTwoActiveIff(states: seq<Db>, events: seq<Event>)
    requires IsHistory(states, events) && OneActive(states[0].runs)
    ensures (forall n :: 0 <= n < |states| ==> OneActive(states[n].runs)) <==> OthersKeepAlone(states, events)
  {
    if OthersKeepAlone(states, events) {
      forall n | 0 <= n < |states| ensures OneActive(states[n].runs) { OneActiveSoFar(states, events, n); }
    }
    if forall n :: 0 <= n < |states| ==> OneActive(states[n].runs) {
      forall i {:trigger events[i]} | 0 <= i < |events| && events[i].Other? ensures NewActiveAlone(states[i], states[i+1]) {
        KeepsOneActiveIff(states[i], states[i+1]);
      }
    }
  }

  /** And without any hypothesis on the rows: claims alone never give an agent more active runs than it had, or than one. */
  lemma {:induction false} ClaimsAloneAddNone(states: seq<Db>, events: seq<Event>, agent: string, n: nat)
    requires IsHistory(states, events) && n < |states| && forall i :: 0 <= i < n ==> events[i].Asked?
    ensures |ActiveOf(states[n].runs, agent)| <= Max(1, |ActiveOf(states[0].runs, agent)|)
  {
    if n > 0 {
      ClaimsAloneAddNone(states, events, agent, n - 1);
      var d, e, event := states[n-1], states[n], events[n-1];
      assert Step(d, e, event);
      ClaimAddsNoActiveRun(d, e, event.req, event.active, event.minutes, event.now, event.answer, agent);
    }
  }

  // ---------------------------------------------------------------------------------------------
  // Console input

  const MANAGED := "managed"
  const TERMINAL := "terminal"

  predicate TracksTurn(runtime: string) {
    runtime in {"claude-code", "codex", "hermes", "opencode", "pi"}
  }

  /** The only runs the delivery looks for: active, terminal-backed, managed, of the same runtime. */
  predicate IsTurn(r: Run, agent: string, runtime: string) {
    r.target == agent && Active(r) && r.dispatchMode == TERMINAL && r.executionMode == MANAGED && r.runtime == runtime
  }

  predicate TurnUnderWay(d: Db, agent: string, runtime: string) {
    exists id :: id in d.runs && IsTurn(d.runs[id], agent, runtime)
  }

  function Delivered(agent: string, runtime: string, now: int): Run {
    var tracked := TracksTurn(runtime);
    Run(agent, if tracked then Running else Settled, "", if tracked then now else 0, now, false, false, false, MANAGED, TERMINAL, "", runtime)
  }

  /** `_record_terminal_delivery_contract`: join the turn that is under way, or insert a run under the new id. */
  function ConsoleInput(d: Db, agent: string, runtime: string, id: string, now: int): Db {
    if TracksTurn(runtime) && TurnUnderWay(d, agent, runtime) then d
    else d.(runs := d.runs[id := Delivered(agent, runtime, now)])
  }

  predicate IsManagedTurn(r: Run, agent: string, runtime: string) {
    && r.target == agent && r.runtime == runtime && r.dispatchMode == "terminal" && r.executionMode == "managed"
    && (r.status == Claimed || r.status == Running)
  }

  /** The turn that is joined, in the fields of its row; otherwise a run is added that is running from the start if its runtime tracks turns. */
  lemma {:induction false} JoinsTurnIff(d: Db, agent: string, runtime: string, id: string, now: int)
    requires id !in d.runs
    ensures var tracked := runtime == "claude-code" || runtime == "codex" || runtime == "hermes" || runtime == "opencode" || runtime == "pi";
      var joins := exists j :: j in d.runs && IsManagedTurn(d.runs[j], agent, runtime);
      var e := ConsoleInput(d, agent, runtime, id, now);
      && (e == d <==> tracked && joins)
      && (e != d ==> e.runs.Keys == d.runs.Keys + {id} && e.runs[id].target == agent && e.runs[id].owner == "" && (e.runs[id].status == Running <==> tracked))
  {
    assert MANAGED == "managed" && TERMINAL == "terminal";
    var e := ConsoleInput(d, agent, runtime, id, now);
    assert id in d.runs[id := Delivered(agent, runtime, now)];
    if TurnUnderWay(d, agent, runtime) {
      var j :| j in d.runs && IsTurn(d.runs[j], agent, runtime);
    }
  }

  lemma {:induction false} DeliveredIsNew(d: Db, agent: string, runtime: string, id: string, now: int)
    requires id !in d.runs && !(TracksTurn(runtime) && TurnUnderWay(d, agent, runtime))
    ensures var e := ConsoleInput(d, agent, runtime, id, now);
      && ActiveOf(e.runs, agent) == ActiveOf(d.runs, agent) + (if TracksTurn(runtime) then {id} else {})
      && (forall other :: NewlyActive(d, e, other) <==> other == id && TracksTurn(runtime))
  {
  }

  /**
   Console input keeps every agent at one active run if and only if its runtime tracks no turns, it joins a turn that is
   under way, or the agent has no active run at all: the look-up does not see an ordinary claimed run.
   */
  lemma {:induction false} ConsoleInputKeepsOneActiveIff(d: Db, agent: string, runtime: string, id: string, now: int)
    requires OneActive(d.runs) && id !in d.runs
    ensures OneActive(ConsoleInput(d, agent, runtime, id, now).runs) <==>
      !TracksTurn(runtime) || TurnUnderWay(d, agent, runtime) || ActiveOf(d.runs, agent) == {}
  {
    var e := ConsoleInput(d, agent, runtime, id, now);
    if !(TracksTurn(runtime) && TurnUnderWay(d, agent, runtime)) {
      KeepsOneActiveIff(d, e);
      DeliveredIsNew(d, agent, runtime, id, now);
      assert id !in ActiveOf(d.runs, agent);
      assert ActiveOf(d.runs, agent) + {id} == {id} <==> ActiveOf(d.runs, agent) == {};
      assert TracksTurn(runtime) ==> NewlyActive(d, e, id);
    }
  }

  /** A run claimed in the ordinary way, then a message typed into the agent's console: two active runs. */
  lemma {:induction false} ConsoleInputMakesTwo(agent: string, bridge: string, now: int)
    ensures var claimed := Run(agent, Claimed, bridge, now, now, false, false, false, MANAGED, "start_if_possible", "", "codex");
      var d := Db(map["run_1" := claimed], map[], map[]);
      && OneActive(d.runs) && !OneActive(ConsoleInput(d, agent, "codex", "run_2", now).runs)
      && ActiveOf(ConsoleInput(d, agent, "codex", "run_2", now).runs, agent) == {"run_1", "run_2"}
  {
    var claimed := Run(agent, Claimed, bridge, now, now, false, false, false, MANAGED, "start_if_possible", "", "codex");
    var d := Db(map["run_1" := claimed], map[], map[]);
    assert "run_1" in ActiveOf(d.runs, agent);
    assert "run_2"[4] != "run_1"[4] && "run_2" !in d.runs;
    assert !IsTurn(claimed, agent, "codex");
    ConsoleInputKeepsOneActiveIff(d, agent, "codex", "run_2", now);
    DeliveredIsNew(d, agent, "codex", "run_2", now);
    assert ActiveOf(d.runs, agent) == {"run_1"};
  }

  // ---------------------------------------------------------------------------------------------
  // A run whose owner lives

  predicate OwnedBy(d: Db, id: string, owner: string, target: string) {
    id in d.runs && Active(d.runs[id]) && d.runs[id].owner == owner && d.runs[id].target == target
  }

  /**
   The run starts active; at every claim of the history the owner it has then lives or is the one asking; and the other
   transactions may change the run as they like, as long as it stays active with the same owner and target.
   */
  ghost predicate LivesThrough(states: seq<Db>, events: seq<Event>, id: string, owner: string, target: string) {
    && |states| == |events| + 1 && OwnedBy(states[0], id, owner, target)
    && (forall i {:trigger events[i]} :: 0 <= i < |events| && OwnedBy(states[i], id, owner, target) ==>
         match events[i]
         case Asked(req, active, minutes, now, answer) =>
           OwnerLives(states[i].runs[id], states[i].bridges, now) || (req.bridge != "" && owner == req.bridge)
         case Other => OwnedBy(states[i+1], id, owner, target))
  }

  /** Then it is active with that owner and target throughout, and no claim by any bridge, in any order, changes it or its owner's life. */
  lemma {:induction false} LiveRunIsNeverFailed(states: seq<Db>, events: seq<Event>, id: string, owner: string, target: string, n: nat)
    requires IsHistory(states, events) && LivesThrough(states, events, id, owner, target) && n < |states|
    ensures OwnedBy(states[n], id, owner, target)
    ensures n < |events| && events[n].Asked? ==>
      && id in states[n+1].runs && states[n+1].runs[id] == states[n].runs[id]
      && (var now := events[n].now;
          now != 0 && OwnerLives(states[n].runs[id], states[n].bridges, now) ==> OwnerLives(states[n+1].runs[id], states[n+1].bridges, now))
  {
    if n > 0 { LiveRunIsNeverFailed(states, events, id, owner, target, n - 1); }
    if n < |events| && events[n].Asked? {
      var d, e, event := states[n], states[n+1], events[n];
      assert Step(d, e, event);
      ClaimSparesLiveRun(d, e, event.req, event.active, event.minutes, event.now, event.answer, id);
      if event.now != 0 && OwnerLives(d.runs[id], d.bridges, event.now) {
        ClaimKeepsOwnerAlive(d, e, event.req, event.active, event.minutes, event.now, event.answer, d.runs[id]);
      }
    }
  }

  // ---------------------------------------------------------------------------------------------
  // One claim per queueing

  predicate Returns(event: Event, id: string) {
    event.Asked? && event.answer == Claim(id)
  }

  predicate InQueue(d: Db, id: string) {
    id in d.runs && d.runs[id].status == Queued
  }

  lemma {:induction false} ReturnedWasQueued(d: Db, e: Db, event: Event, id: string)
    requires Step(d, e, event) && Returns(event, id)
    ensures InQueue(d, id) && !InQueue(e, id)
  {
  }

  lemma {:induction false} ClaimsQueueNothing(d: Db, e: Db, event: Event, id: string)
    requires Step(d, e, event) && event.Asked? && InQueue(e, id)
    ensures InQueue(d, id)
  {
  }

  /** Between two claims that return the same run, some other transaction put it back in the queue. */
  lemma {:induction false} ClaimedOncePerQueueing(states: seq<Db>, events: seq<Event>, i: nat, j: nat, id: string)
    returns (k: nat)
    requires IsHistory(states, events) && i < j < |events| && Returns(events[i], id) && Returns(events[j], id)
    ensures i < k < j && events[k].Other? && !InQueue(states[k], id) && InQueue(states[k+1], id)
  {
    ReturnedWasQueued(states[i], states[i+1], events[i], id);
    ReturnedWasQueued(states[j], states[j+1], events[j], id);
    k := i + 1;
    while !InQueue(states[k+1], id)
      invariant i < k < j && !InQueue(states[k], id)
      decreases j - k
    {
      k := k + 1;
    }
    if events[k].Asked? {
      ClaimsQueueNothing(states[k], states[k+1], events[k], id);
    }
  }
}
