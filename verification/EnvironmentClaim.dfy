/**
 Claiming an environment control (service/environment_claim.py): any number of bridges run the same loop at once. Each
 action below is one database statement of one of them; what a bridge has read may be out of date when it writes.
 */
module EnvironmentClaim {
  import opened Common

  datatype Status = Pending | Failed | Claimed

  /** `superseding` marks a stop the server asked for because another bridge took over; times that cannot be read are 0. */
  datatype Control = Control(environment: string, bridge: string, stop: bool, superseding: bool, requestedAt: int, status: Status)

  datatype Env = Env(bridge: string, startedAt: int)

  datatype Request = Request(environment: string, bridge: string)

  /** Where a claimer is in its loop, with what it has read. */
  datatype Pc = Start(req: Request) | Picked(req: Request, id: nat) | Voiding(req: Request, id: nat, env: Env) | Claiming(req: Request, id: nat, env: Env) | Done

  /** A control handed out: to whom, and the environment row that claimer had read. */
  datatype Grant = Grant(claimer: nat, id: nat, req: Request, env: Env)

  datatype State = State(controls: map<nat, Control>, envs: map<string, Env>, pcs: map<nat, Pc>, granted: seq<Grant>)

  function EnvOf(envs: map<string, Env>, id: string): Env {
    if id in envs then envs[id] else Env("", 0)
  }

  /** A stop that the current owner of the environment must not honour. */
  predicate IsVoid(c: Control, env: Env, req: Request) {
    && c.stop && env.bridge != "" && env.bridge == req.bridge
    && (c.superseding || (c.requestedAt > 0 && env.startedAt > 0 && c.requestedAt < env.startedAt))
  }

  predicate Matches(c: Control, req: Request) {
    c.environment == req.environment && c.status == Pending && (c.bridge == "" || c.bridge == req.bridge)
  }

  /** The row the SELECT returns. */
  predicate IsOldest(controls: map<nat, Control>, req: Request, id: nat) {
    && id in controls && Matches(controls[id], req)
    && (forall j :: j in controls && Matches(controls[j], req) ==> controls[id].requestedAt <= controls[j].requestedAt)
  }

  datatype Action = Begin(c: nat, req: Request) | Select(c: nat, id: Option<nat>) | ReadEnv(c: nat) | DoVoid(c: nat) | Swap(c: nat) | EnvMoves(envs: map<string, Env>)

  /** The action can happen now. */
  predicate Enabled(s: State, a: Action) {
    match a
    case Begin(c, req) => c !in s.pcs || s.pcs[c] == Done
    case Select(c, id) =>
      && c in s.pcs && s.pcs[c].Start?
      && (match id
          case Some(i) => IsOldest(s.controls, s.pcs[c].req, i)
          case None => forall j :: j in s.controls ==> !Matches(s.controls[j], s.pcs[c].req))
    case ReadEnv(c) => c in s.pcs && s.pcs[c].Picked? && s.pcs[c].id in s.controls
    case DoVoid(c) => c in s.pcs && s.pcs[c].Voiding? && s.pcs[c].id in s.controls
    case Swap(c) => c in s.pcs && s.pcs[c].Claiming? && s.pcs[c].id in s.controls
    case EnvMoves(envs) => true
  }

  function Step(s: State, a: Action): State
    requires Enabled(s, a)
  {
    match a
    case Begin(c, req) => s.(pcs := s.pcs[c := Start(req)])
    case Select(c, id) => s.(pcs := s.pcs[c := if id.Some? then Picked(s.pcs[c].req, id.value) else Done])
    case ReadEnv(c) =>
      var req, id := s.pcs[c].req, s.pcs[c].id;
      var env := EnvOf(s.envs, req.environment);
      s.(pcs := s.pcs[c := if IsVoid(s.controls[id], env, req) then Voiding(req, id, env) else Claiming(req, id, env)])
    case DoVoid(c) =>
      var id := s.pcs[c].id;
      s.(controls := if s.controls[id].status == Pending then s.controls[id := s.controls[id].(status := Failed)] else s.controls,
         pcs := s.pcs[c := Start(s.pcs[c].req)])
    case Swap(c) =>
      var id := s.pcs[c].id;
      if s.controls[id].status == Pending then
        s.(controls := s.controls[id := s.controls[id].(status := Claimed)], pcs := s.pcs[c := Done],
           granted := s.granted + [Grant(c, id, s.pcs[c].req, s.pcs[c].env)])
      else s.(pcs := s.pcs[c := Done])
    case EnvMoves(envs) => s.(envs := envs)
  }

  ghost predicate IsRun(s: State, acts: seq<Action>)
    decreases |acts|
  {
    acts == [] || (Enabled(s, acts[0]) && IsRun(Step(s, acts[0]), acts[1..]))
  }

  function After(s: State, acts: seq<Action>): State
    requires IsRun(s, acts)
    decreases |acts|
  {
    if acts == [] then s else After(Step(s, acts[0]), acts[1..])
  }

  // ---------------------------------------------------------------------------------------------
  // One winner

  ghost predicate GrantsAreSound(s: State) {
    && (forall i :: 0 <= i < |s.granted| ==> s.granted[i].id in s.controls && s.controls[s.granted[i].id].status == Claimed)
    && (forall i, j :: 0 <= i < j < |s.granted| ==> s.granted[i].id != s.granted[j].id)
    && (forall i :: 0 <= i < |s.granted| ==> s.granted[i].id in s.controls && !IsVoid(s.controls[s.granted[i].id], s.granted[i].env, s.granted[i].req))
  }

  ghost predicate ReadingsAreSound(s: State) {
    && (forall c :: c in s.pcs && s.pcs[c].Claiming? && s.pcs[c].id in s.controls ==> !IsVoid(s.controls[s.pcs[c].id], s.pcs[c].env, s.pcs[c].req))
    && (forall c :: c in s.pcs && s.pcs[c].Voiding? && s.pcs[c].id in s.controls ==> IsVoid(s.controls[s.pcs[c].id], s.pcs[c].env, s.pcs[c].req))
  }

  /** The control is meant for this environment, and for this bridge or any. */
  predicate IsFor(c: Control, req: Request) {
    c.environment == req.environment && (c.bridge == req.bridge || c.bridge == "")
  }

  /** Whatever was picked or handed out is meant for the one who got it. */
  ghost predicate AreFor(s: State) {
    && (forall c :: c in s.pcs && !s.pcs[c].Start? && !s.pcs[c].Done? && s.pcs[c].id in s.controls ==> IsFor(s.controls[s.pcs[c].id], s.pcs[c].req))
    && (forall i :: 0 <= i < |s.granted| && s.granted[i].id in s.controls ==> IsFor(s.controls[s.granted[i].id], s.granted[i].req))
  }

  ghost predicate Inv(s: State) {
    GrantsAreSound(s) && ReadingsAreSound(s) && AreFor(s)
  }

  /** A statement changes no more of a control than its status, and that only from pending. */
  predicate OnlyLeavesPending(a: map<nat, Control>, b: map<nat, Control>) {
    && b.Keys == a.Keys
    && forall id :: id in a ==> b[id] == a[id] || (a[id].status == Pending && (b[id] == a[id].(status := Failed) || b[id] == a[id].(status := Claimed)))
  }

  lemma {:induction false} StepLeavesPending(s: State, a: Action)
    requires Enabled(s, a)
    ensures OnlyLeavesPending(s.controls, Step(s, a).controls)
  {
  }

  lemma {:induction false} StepKeeps(s: State, a: Action)
    requires Inv(s) && Enabled(s, a)
    ensures Inv(Step(s, a))
  {
    StepKeepsGrants(s, a);
    StepKeepsReadings(s, a);
    StepKeepsFor(s, a);
  }

  lemma {:induction false} StepKeepsGrants(s: State, a: Action)
    requires GrantsAreSound(s) && ReadingsAreSound(s) && Enabled(s, a)
    ensures GrantsAreSound(Step(s, a))
  {
    StepLeavesPending(s, a);
  }

  lemma {:induction false} StepKeepsReadings(s: State, a: Action)
    requires ReadingsAreSound(s) && Enabled(s, a)
    ensures ReadingsAreSound(Step(s, a))
  {
    StepLeavesPending(s, a);
    var t := Step(s, a);
    forall c | c in t.pcs && t.pcs[c].Claiming? && t.pcs[c].id in t.controls
      ensures !IsVoid(t.controls[t.pcs[c].id], t.pcs[c].env, t.pcs[c].req)
    {
    }
  }

  lemma {:induction false} StepKeepsFor(s: State, a: Action)
    requires AreFor(s) && GrantsAreSound(s) && Enabled(s, a)
    ensures AreFor(Step(s, a))
  {
    StepLeavesPending(s, a);
    var t := Step(s, a);
    forall c | c in t.pcs && !t.pcs[c].Start? && !t.pcs[c].Done? && t.pcs[c].id in t.controls ensures IsFor(t.controls[t.pcs[c].id], t.pcs[c].req) {
      assert t.pcs[c].id in s.controls;
    }
  }

  // ---------------------------------------------------------------------------------------------
  // Which stops are honoured, said of the rows

  /** The environment belongs to the bridge that asks. */
  predicate Owns(env: Env, req: Request) {
    req.bridge != "" && req.bridge == env.bridge
  }

  /** The stop was asked for before the bridge started; nothing is known without both times. */
  predicate Predates(c: Control, env: Env) {
    0 < c.requestedAt < env.startedAt
  }

  lemma {:induction false} VoidByTheRow(c: Control, env: Env, req: Request)
    ensures IsVoid(c, env, req) <==> c.stop && Owns(env, req) && (c.superseding || Predates(c, env))
  {
  }

  /**
   In every run: a control handed out is meant for the environment and the bridge that asked; and a stop handed to the
   environment's owner is not one that a takeover asked for, nor one from before that bridge started.
   */
  lemma {:induction false} GrantedStopsAreFresh(s: State, acts: seq<Action>, i: nat)
    requires Inv(s) && IsRun(s, acts) && i < |After(s, acts).granted|
    ensures var g := After(s, acts).granted[i];
      && g.id in After(s, acts).controls
      && var c := After(s, acts).controls[g.id];
         && c.environment == g.req.environment && (c.bridge == "" || c.bridge == g.req.bridge)
         && (c.stop && g.env.bridge != "" && g.env.bridge == g.req.bridge ==>
               !c.superseding && (c.requestedAt > 0 && g.env.startedAt > 0 ==> c.requestedAt >= g.env.startedAt))
  {
    EachControlOnce(s, acts);
    var g := After(s, acts).granted[i];
    VoidByTheRow(After(s, acts).controls[g.id], g.env, g.req);
  }

  /**
   A control is failed only by a bridge that owned the environment when it looked, and only if it is a stop for it that a
   takeover asked for or that is older than the bridge.
   */
  lemma {:induction false} OnlyStaleStopsFail(s: State, a: Action, id: nat)
    requires Inv(s) && Enabled(s, a) && id in s.controls && s.controls[id].status != Failed && Step(s, a).controls[id].status == Failed
    ensures a.DoVoid? && s.pcs[a.c].Voiding? && s.pcs[a.c].id == id
    ensures var c, env, req := s.controls[id], s.pcs[a.c].env, s.pcs[a.c].req;
      && c.stop && c.environment == req.environment && (c.bridge == "" || c.bridge == req.bridge)
      && env.bridge != "" && env.bridge == req.bridge && (c.superseding || (0 < c.requestedAt < env.startedAt))
  {
    VoidByTheRow(s.controls[id], s.pcs[a.c].env, s.pcs[a.c].req);
  }

  /**
   In every run of any number of bridges: each control is handed out at most once, a control handed out is claimed, and
   no bridge is handed a stop that the environment row it read makes void.
   */
  lemma {:induction false} EachControlOnce(s: State, acts: seq<Action>)
    requires Inv(s) && IsRun(s, acts)
    ensures Inv(After(s, acts))
    decreases |acts|
  {
    if acts != [] {
      StepKeeps(s, acts[0]);
      EachControlOnce(Step(s, acts[0]), acts[1..]);
    }
  }

  lemma {:induction false} LeavesPendingTwice(a: map<nat, Control>, b: map<nat, Control>, c: map<nat, Control>)
    requires OnlyLeavesPending(a, b) && OnlyLeavesPending(b, c)
    ensures OnlyLeavesPending(a, c)
  {
  }

  /** A control leaves pending once, and never comes back. */
  lemma {:induction false} LeavesPendingOnce(s: State, acts: seq<Action>)
    requires IsRun(s, acts)
    ensures OnlyLeavesPending(s.controls, After(s, acts).controls)
    decreases |acts|
  {
    if acts != [] {
      StepLeavesPending(s, acts[0]);
      LeavesPendingOnce(Step(s, acts[0]), acts[1..]);
      LeavesPendingTwice(s.controls, Step(s, acts[0]).controls, After(s, acts).controls);
    }
  }

  // ---------------------------------------------------------------------------------------------
  // The void loop ends

  function PendingIds(controls: map<nat, Control>): set<nat> {
    set id | id in controls && controls[id].status == Pending
  }

  /** How often claimer `c` goes round the loop because of a void stop. */
  function Rounds(acts: seq<Action>, c: nat): nat {
    if acts == [] then 0 else (if acts[0] == DoVoid(c) then 1 else 0) + Rounds(acts[1..], c)
  }

  /** What a claimer still has to do with the control it picked: it was pending when picked. */
  function Debt(s: State, c: nat): nat {
    if c in s.pcs && (s.pcs[c].Picked? || s.pcs[c].Voiding?) && s.pcs[c].id !in PendingIds(s.controls) then 1 else 0
  }

  lemma {:induction false} PendingShrinks(a: map<nat, Control>, b: map<nat, Control>)
    requires OnlyLeavesPending(a, b)
    ensures PendingIds(b) <= PendingIds(a) && |PendingIds(b)| <= |PendingIds(a)|
  {
    Fewer(PendingIds(b), PendingIds(a));
  }

  lemma {:induction false} Fewer(a: set<nat>, b: set<nat>)
    requires a <= b
    ensures |a| <= |b| && (a != b ==> |a| < |b|)
  {
    assert b == a + (b - a) && a !! (b - a);
    assert |b| == |a| + |b - a|;
  }

  /** Every round removes a control from the pending ones, or answers for one that another bridge removed meanwhile. */
  lemma {:induction false} RoundCosts(s: State, a: Action, c: nat)
    requires Enabled(s, a)
    ensures var t := Step(s, a);
      (if a == DoVoid(c) then 1 else 0) + |PendingIds(t.controls)| + Debt(t, c) <= |PendingIds(s.controls)| + Debt(s, c)
  {
    var t := Step(s, a);
    StepLeavesPending(s, a);
    PendingShrinks(s.controls, t.controls);
    Fewer(PendingIds(t.controls), PendingIds(s.controls));
    if Debt(t, c) > Debt(s, c) {
      var id := t.pcs[c].id;
      assert id in PendingIds(s.controls) && id !in PendingIds(t.controls);
    }
  }

  /** Without new controls a bridge goes round at most as often as there are pending ones when it starts. */
  lemma {:induction false} VoidLoopEnds(s: State, acts: seq<Action>, c: nat)
    requires IsRun(s, acts)
    ensures Rounds(acts, c) + |PendingIds(After(s, acts).controls)| + Debt(After(s, acts), c) <= |PendingIds(s.controls)| + Debt(s, c)
    decreases |acts|
  {
    if acts != [] {
      RoundCosts(s, acts[0], c);
      VoidLoopEnds(Step(s, acts[0]), acts[1..], c);
    }
  }

  // ---------------------------------------------------------------------------------------------
  // The loop of one bridge

  lemma {:induction false} OldestExists(controls: map<nat, Control>, req: Request, ids: set<nat>, some: nat) returns (id: nat)
    requires ids <= controls.Keys && some in ids && Matches(controls[some], req)
    requires forall j :: j in controls && Matches(controls[j], req) && j !in ids ==> controls[some].requestedAt <= controls[j].requestedAt
    ensures IsOldest(controls, req, id)
    decreases |ids|
  {
    if forall j :: j in ids && Matches(controls[j], req) ==> controls[some].requestedAt <= controls[j].requestedAt {
      id := some;
    } else {
      var j :| j in ids && Matches(controls[j], req) && controls[j].requestedAt < controls[some].requestedAt;
      id := OldestExists(controls, req, ids - {some}, j);
    }
  }

  class Controls {
    var controls: map<nat, Control>

    /** Other bridges' statements, between two of this one's; `moved` are the controls they changed. */
    method Meanwhile(next: map<nat, Control>) returns (ghost moved: set<nat>)
      modifies this
      ensures OnlyLeavesPending(old(controls), controls) && Changed(old(controls), controls) <= moved
    {
      moved := {};
      if OnlyLeavesPending(controls, next) {
        moved := Changed(controls, next);
        controls := next;
      }
    }

    /** `UPDATE ... WHERE id = ? AND status = 'pending'`, and whether it changed a row. */
    method Update(id: nat, status: Status) returns (won: bool)
      requires id in controls && status != Pending
      modifies this
      ensures OnlyLeavesPending(old(controls), controls) && controls[id].status != Pending
      ensures won <==> old(controls)[id].status == Pending
      ensures controls == if won then old(controls)[id := old(controls)[id].(status := status)] else old(controls)
      ensures Changed(old(controls), controls) <= if won then {id} else {}
    {
      won := controls[id].status == Pending;
      if won {
        controls := controls[id := controls[id].(status := status)];
      }
    }

    method SelectOldest(req: Request) returns (id: Option<nat>)
      ensures id.Some? ==> IsOldest(controls, req, id.value)
      ensures id.None? ==> forall j :: j in controls ==> !Matches(controls[j], req)
    {
      if some :| some in controls && Matches(controls[some], req) {
        ghost var oldest := OldestExists(controls, req, controls.Keys, some);
        var found :| found in controls && IsOldest(controls, req, found);
        id := Some(found);
      } else {
        id := None;
      }
    }

    /**
     `_claim_environment_control_once`. `world(k)` is what other bridges have made of the rows at the k-th pause, and
     `envs(k)` the environment row then. The rows are tried oldest first; a void stop is failed and the search goes on.
     `voided` are the controls this bridge failed, with the environment row it had read; `others` those other bridges changed.
     */
    method ClaimOnce(req: Request, world: nat -> map<nat, Control>, envs: nat -> Env)
      returns (got: Option<nat>, env: Env, raced: bool, ghost voided: map<nat, Env>, ghost others: set<nat>)
      modifies this
      ensures OnlyLeavesPending(old(controls), controls)
      ensures got.Some? ==> got.value in old(controls) && controls[got.value].status == Claimed
      ensures got.Some? ==>
        var c := old(controls)[got.value];
        && c.status == Pending && c.environment == req.environment && (c.bridge == "" || c.bridge == req.bridge)
        && (c.stop && env.bridge != "" && env.bridge == req.bridge ==>
              !c.superseding && (c.requestedAt > 0 && env.startedAt > 0 ==> c.requestedAt >= env.startedAt))
      ensures got.Some? ==> forall j :: j in old(controls) && Matches(old(controls)[j], req) && old(controls)[j].requestedAt < old(controls)[got.value].requestedAt ==>
        j in others + voided.Keys
      ensures got.None? && !raced ==> forall j :: j in controls && controls[j].environment == req.environment && controls[j].status == Pending ==>
        controls[j].bridge != "" && controls[j].bridge != req.bridge
      ensures Changed(old(controls), controls) <= others + voided.Keys + if got.Some? then {got.value} else {}
      ensures forall id :: id in voided ==> id in old(controls) && old(controls)[id].stop
      ensures forall id :: id in voided ==> voided[id].bridge != "" && voided[id].bridge == req.bridge
      ensures forall id :: id in voided && !old(controls)[id].superseding ==> 0 < old(controls)[id].requestedAt < voided[id].startedAt
    {
      ghost var begun := controls;
      var k := 0;
      env, voided, others := Env("", 0), map[], {};
      while true
        invariant Accounted(begun, controls, voided, others, req)
        decreases |PendingIds(controls)|
      {
        ghost var start := controls;
        var candidate := SelectOldest(req);
        if candidate.None? {
          return None, env, false, voided, others;
        }
        var id := candidate.value;
        var row := controls[id];
        WasPending(begun, start, id);
        NoneOlder(begun, start, voided, others, req, id);
        ghost var moved := Meanwhile(world(k));
        OthersAccount(begun, start, controls, voided, others, moved, req);
        others := others + moved;
        env := envs(k);
        VoidByTheRow(row, env, req);
        if !IsVoid(row, env, req) {
          var won := Win(id, begun, voided, others, req);
          return if won then Some(id) else None, env, !won, voided, others;
        }
        ghost var seen := controls;
        moved := Meanwhile(world(k + 1));
        OthersAccount(begun, seen, controls, voided, others, moved, req);
        LeavesPendingTwice(start, seen, controls);
        others := others + moved;
        VoidOne(id, begun, start, env, voided, others, req);
        voided := voided[id := env];
        k := k + 2;
      }
    }

    /** The compare-and-swap. */
    method Win(id: nat, ghost begun: map<nat, Control>, ghost voided: map<nat, Env>, ghost others: set<nat>, req: Request) returns (won: bool)
      requires Accounted(begun, controls, voided, others, req) && id in controls
      modifies this
      ensures OnlyLeavesPending(begun, controls) && (won ==> controls[id].status == Claimed)
      ensures Changed(begun, controls) <= others + voided.Keys + if won then {id} else {}
    {
      ghost var before := controls;
      won := Update(id, Claimed);
      LeavesPendingTwice(begun, before, controls);
      ChangedTwice(begun, before, controls);
    }

    /** A void stop is failed; `start` is how this turn of the loop began. */
    method VoidOne(id: nat, ghost begun: map<nat, Control>, ghost start: map<nat, Control>, env: Env,
      ghost voided: map<nat, Env>, ghost others: set<nat>, req: Request)
      requires Accounted(begun, controls, voided, others, req) && OnlyLeavesPending(start, controls)
      requires id in start && start[id].status == Pending && id in begun && IsVoid(begun[id], env, req)
      modifies this
      ensures Accounted(begun, controls, voided[id := env], others, req) && |PendingIds(controls)| < |PendingIds(start)|
    {
      ghost var before := controls;
      var _ := Update(id, Failed);
      LeavesPendingTwice(begun, before, controls);
      LeavesPendingTwice(start, before, controls);
      ChangedTwice(begun, before, controls);
      OneFewer(start, controls, id);
    }
  }

  /** Everything that changed since the beginning was a void stop this bridge failed, or was changed by another bridge. */
  ghost predicate Accounted(begun: map<nat, Control>, now: map<nat, Control>, voided: map<nat, Env>, others: set<nat>, req: Request) {
    OnlyLeavesPending(begun, now) && AreVoid(begun, voided, req) && Changed(begun, now) <= others + voided.Keys
  }

  lemma {:induction false} NoneOlder(begun: map<nat, Control>, now: map<nat, Control>, voided: map<nat, Env>, others: set<nat>, req: Request, id: nat)
    requires Accounted(begun, now, voided, others, req) && IsOldest(now, req, id) && id in begun && begun[id] == now[id]
    ensures forall j :: j in begun && Matches(begun[j], req) && begun[j].requestedAt < begun[id].requestedAt ==> j in others + voided.Keys
  {
    forall j | j in begun && Matches(begun[j], req) && begun[j].requestedAt < begun[id].requestedAt ensures j in others + voided.Keys {
      assert now[j] != begun[j];
      assert j in Changed(begun, now);
    }
  }

  lemma {:induction false} OthersAccount(begun: map<nat, Control>, a: map<nat, Control>, b: map<nat, Control>, voided: map<nat, Env>, others: set<nat>, moved: set<nat>, req: Request)
    requires Accounted(begun, a, voided, others, req) && OnlyLeavesPending(a, b) && Changed(a, b) <= moved
    ensures Accounted(begun, b, voided, others + moved, req)
  {
    LeavesPendingTwice(begun, a, b);
    ChangedTwice(begun, a, b);
  }

  function Changed(a: map<nat, Control>, b: map<nat, Control>): set<nat>
    requires a.Keys == b.Keys
  {
    set id | id in a && a[id] != b[id]
  }

  ghost predicate AreVoid(controls: map<nat, Control>, voided: map<nat, Env>, req: Request) {
    forall id :: id in voided ==> id in controls && IsVoid(controls[id], voided[id], req)
  }

  lemma {:induction false} ChangedTwice(a: map<nat, Control>, b: map<nat, Control>, c: map<nat, Control>)
    requires a.Keys == b.Keys == c.Keys
    ensures Changed(a, c) <= Changed(a, b) + Changed(b, c)
  {
  }

  lemma {:induction false} WasPending(a: map<nat, Control>, b: map<nat, Control>, id: nat)
    requires OnlyLeavesPending(a, b) && id in b && b[id].status == Pending
    ensures id in a && a[id] == b[id]
  {
  }

  lemma {:induction false} OneFewer(a: map<nat, Control>, b: map<nat, Control>, id: nat)
    requires OnlyLeavesPending(a, b) && id in a && a[id].status == Pending && b[id].status != Pending
    ensures |PendingIds(b)| < |PendingIds(a)|
  {
    PendingShrinks(a, b);
    assert id in PendingIds(a) && id !in PendingIds(b);
    Fewer(PendingIds(b), PendingIds(a));
  }
}
