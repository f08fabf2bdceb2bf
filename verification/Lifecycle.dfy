/** The container lifecycle of `runtime/compose.py` over the state store, with a Docker that may
    fail any call and leave the container up or down, and evidence appends that may fail. */
module Lifecycle {
  import opened Common
  import opened Events

  /** `up` (which Compose projects have a running container) and `ups` (the decision behind each
      compose-up call) are not stored anywhere: they are what the recorded state is about. */
  datatype World = World(states: map<string, StateRecord>, consumed: set<string>,
                         evidence: map<string, seq<Event>>, up: set<string>, ups: seq<string>)

  datatype Consume = Normal | Raises(leavesMarker: bool)
  datatype Compose = Succeeds | Fails(leavesUp: bool)

  /** What the environment does to one call. */
  datatype Luck = Luck(consume: Consume, compose: Compose, appendOk: bool, clearOk: bool)

  datatype Reply = Disabled | Activated | Stopped | Gone | ResetDone | Noted | Refused

  predicate MaybeRunning(s: EnvState)
  {
    s.Active? || s.KillSwitchFailed? || s.Failed?
  }

  predicate RecordedMaybeRunning(w: World, env: string)
  {
    env in w.states && MaybeRunning(w.states[env].state)
  }

  // ----- the Compose project of an environment

  function Lower(c: char): char
  {
    if 'A' <= c <= 'Z' then c - 'A' + 'a' else c
  }

  predicate Kept(c: char)
  {
    'a' <= c <= 'z' || '0' <= c <= '9' || c == '-' || c == '_'
  }

  function Safe(env: string): string
  {
    if env == [] then [] else (if Kept(Lower(env[0])) then [Lower(env[0])] else []) + Safe(env[1..])
  }

  /** `_project_name` on ASCII ids: lowered, filtered, cut at 63; None raises. */
  function Project(env: string): Option<string>
  {
    var name := "az06-" + Safe(env);
    if Safe(env) == [] then None else Some(if |name| > 63 then name[..63] else name)
  }

  function Composed(up: set<string>, env: string, start: bool, c: Compose): (r: (bool, set<string>))
  {
    match Project(env)
    case None => (false, up)
    case Some(p) =>
      match c
      case Succeeds => (true, if start then up + {p} else up - {p})
      case Fails(leavesUp) => (false, if leavesUp then up + {p} else up - {p})
  }

  function LogOf(w: World, env: string): seq<Event>
  {
    if env in w.evidence then w.evidence[env] else []
  }

  function Appended(w: World, env: string, e: Event, ok: bool): World
  {
    if ok then w.(evidence := w.evidence[env := LogOf(w, env) + [e]]) else w
  }

  // ----- the four operations, and what observers record between them

  datatype Op =
    | Activate(env: string, live: bool, parses: bool, gates: bool, decision: string,
               packageId: string, packageDigest: string, nodeId: string, at: int)
    | Terminate(env: string, live: bool, valid: bool, decision: string, reason: string, at: int)
    | EmergencyStop(env: string, live: bool, named: bool, reason: string, at: int)
    | ResetEnv(env: string, at: int)
    | Observed(env: string, event: Event)   // an interaction or a drift, appended by an observer

  /** `_consume_decision`: the new ledger, and whether the call goes on. */
  function Consumed(consumed: set<string>, decision: string, c: Consume): (set<string>, bool)
  {
    if decision in consumed then (consumed, false)
    else if c.Raises? then (if c.leavesMarker then consumed + {decision} else consumed, false)
    else (consumed + {decision}, true)
  }

  /** `_record_failure`: the state write, then the evidence. */
  function FailureRecorded(w: World, env: string, packageId: string, nodeId: string, decision: string,
                   stage: Stage, at: int, appendOk: bool): World
  {
    Appended(w.(states := w.states[env := StateRecord(env, Failed, packageId, "", nodeId, decision)]),
             env, Lifecycle(Failure(stage), env, decision, "", at), appendOk)
  }

  function Step(w: World, op: Op, luck: Luck): (World, Reply)
  {
    match op
    case Activate(_, _, _, _, _, _, _, _, _) => Activation(w, op, luck)
    case Terminate(_, _, _, _, _, _) => Termination(w, op, luck)
    case EmergencyStop(_, _, _, _, _) => KillSwitch(w, op, luck)
    case ResetEnv(env, at) =>
      if RecordedMaybeRunning(w, env) || !luck.appendOk then (w, Refused)
      else
        var logged := Appended(w, env, Lifecycle(ResetCompleted, env, "", "", at), true);
        if luck.clearOk then (logged.(states := logged.states - {env}), ResetDone) else (logged, Refused)
    case Observed(env, event) =>
      if event.Lifecycle? || !luck.appendOk then (w, Refused) else (Appended(w, env, event, true), Noted)
  }

  function Activation(w: World, op: Op, luck: Luck): (World, Reply)
    requires op.Activate?
  {
    var env := op.env;
    var (ledger, granted) := Consumed(w.consumed, op.decision, luck.consume);
    if !op.parses then (w, Refused)
    else if !op.live then (w, Disabled)
    else if !op.gates then (w, Refused)
    else if env in w.states && w.states[env].state !in {Reset, Terminated, Failed} then (w, Refused)
    else if !granted then (w.(consumed := ledger), Refused)
    else
      var (ok, up) := Composed(w.up, env, true, luck.compose);
      var w1 := w.(consumed := ledger, up := up, ups := w.ups + [op.decision]);
      if !ok then
        (FailureRecorded(w1, env, op.packageId, op.nodeId, op.decision, ActivationStage, op.at, luck.appendOk), Refused)
      else
        var active := StateRecord(env, Active, op.packageId, op.packageDigest, op.nodeId, op.decision);
        (Appended(w1.(states := w1.states[env := active]),
                  env, Lifecycle(WasActivated, env, op.decision, "", op.at), luck.appendOk),
         if luck.appendOk then Activated else Refused)
  }

  function Termination(w: World, op: Op, luck: Luck): (World, Reply)
    requires op.Terminate?
  {
    var env := op.env;
    var (ledger, granted) := Consumed(w.consumed, op.decision, luck.consume);
    var w1 := w.(consumed := ledger);
    if !op.valid then (w, Refused)
    else if !granted then (w1, Refused)
    else if env !in w.states then (w1, Gone)
    else if RecordedMaybeRunning(w, env) && !op.live then (w1, Refused)
    else
      var current := w.states[env];
      var (ok, up) := if RecordedMaybeRunning(w, env) then Composed(w.up, env, false, luck.compose) else (true, w.up);
      var w2 := w1.(up := up);
      if !ok then
        (FailureRecorded(w2, env, OrUnknown(current.packageId), OrUnknown(current.nodeId), op.decision,
                 TerminationStage, op.at, luck.appendOk), Refused)
      else
        (Appended(w2.(states := w2.states[env := current.(state := Terminated)]), env,
                  Lifecycle(WasTerminated, env, op.decision, op.reason, op.at), luck.appendOk),
         if luck.appendOk then Stopped else Refused)
  }

  function OrUnknown(s: string): string
  {
    if s == "" then "unknown" else s
  }

  function KillSwitch(w: World, op: Op, luck: Luck): (World, Reply)
    requires op.EmergencyStop?
  {
    var env := op.env;
    if !op.named then (w, Refused)
    else
      var current := if env in w.states then w.states[env] else StateRecord("", Terminated, "", "", "", "");
      var (ok, up) := if op.live && RecordedMaybeRunning(w, env) then Composed(w.up, env, false, luck.compose)
                      else (true, w.up);
      var w1 := w.(up := up);
      var event := Lifecycle(if ok then WasTerminated else Failure(NoStage), env, "", op.reason, op.at);
      var record := if ok then current.(env := env, state := Terminated) else current.(state := KillSwitchFailed);
      if !luck.appendOk then (w1, Refused)
      else (Appended(w1, env, event, true).(states := w1.states[env := record]), if ok then Stopped else Refused)
  }

  // ----- the adapter

  class DockerComposeAdapter {
    const liveEnabled: bool
    var states: map<string, StateRecord>
    var consumed: set<string>
    var evidence: map<string, seq<Event>>
    ghost var up: set<string>
    ghost var ups: seq<string>

    constructor (liveEnabled: bool)
      ensures this.liveEnabled == liveEnabled && Contents() == World(map[], {}, map[], {}, [])
    {
      this.liveEnabled := liveEnabled;
      states, consumed, evidence, up, ups := map[], {}, map[], {}, [];
    }

    ghost function Contents(): World
      reads this
    {
      World(states, consumed, evidence, up, ups)
    }

    /** `RuntimeStateStore.consume_decision` as the adapter sees it. */
    method ConsumeDecision(decision: string, c: Consume) returns (ok: bool)
      modifies this`consumed
      ensures (consumed, ok) == Consumed(old(consumed), decision, c)
    {
      if decision in consumed {
        return false;
      }
      if c == Raises(false) {
        return false;
      }
      consumed := consumed + {decision};
      return c.Normal?;
    }

    /** `_compose(..., "up")` or `_compose(..., "down")`. */
    method RunCompose(env: string, start: bool, c: Compose) returns (ok: bool)
      modifies this`up
      ensures (ok, up) == Composed(old(up), env, start, c)
    {
      var project := Project(env);
      if project.None? {
        return false;
      }
      var running := start;
      if c.Fails? {
        running := c.leavesUp;
      }
      if running {
        up := up + {project.value};
      } else {
        up := up - {project.value};
      }
      return c.Succeeds?;
    }

    method AppendEvidence(env: string, e: Event, ok: bool)
      modifies this`evidence
      ensures Contents() == Appended(old(Contents()), env, e, ok)
    {
      if ok {
        evidence := evidence[env := (if env in evidence then evidence[env] else []) + [e]];
      }
    }

    method RecordFailure(env: string, packageId: string, nodeId: string, decision: string,
                         stage: Stage, at: int, appendOk: bool)
      modifies this`states, this`evidence
      ensures Contents() == FailureRecorded(old(Contents()), env, packageId, nodeId, decision, stage, at, appendOk)
    {
      states := states[env := StateRecord(env, Failed, packageId, "", nodeId, decision)];
      AppendEvidence(env, Lifecycle(Failure(stage), env, decision, "", at), appendOk);
    }

    method ActivateEnvironment(env: string, parses: bool, gates: bool, decision: string, packageId: string,
                               packageDigest: string, nodeId: string, at: int, luck: Luck)
      returns (reply: Reply)
      modifies this
      ensures (Contents(), reply) ==
              Step(old(Contents()), Activate(env, liveEnabled, parses, gates, decision, packageId,
                                             packageDigest, nodeId, at), luck)
    {
      if !parses {
        return Refused;
      }
      if !liveEnabled {
        return Disabled;
      }
      if !gates {
        return Refused;
      }
      if env in states && states[env].state !in {Reset, Terminated, Failed} {
        return Refused;
      }
      var granted := ConsumeDecision(decision, luck.consume);
      if !granted {
        return Refused;
      }
      ups := ups + [decision];
      var ok := RunCompose(env, true, luck.compose);
      if !ok {
        RecordFailure(env, packageId, nodeId, decision, ActivationStage, at, luck.appendOk);
        return Refused;
      }
      states := states[env := StateRecord(env, Active, packageId, packageDigest, nodeId, decision)];
      AppendEvidence(env, Lifecycle(WasActivated, env, decision, "", at), luck.appendOk);
      return if luck.appendOk then Activated else Refused;
    }

    method TerminateEnvironment(env: string, valid: bool, decision: string, reason: string, at: int, luck: Luck)
      returns (reply: Reply)
      modifies this
      ensures (Contents(), reply) ==
              Step(old(Contents()), Terminate(env, liveEnabled, valid, decision, reason, at), luck)
    {
      if !valid {
        return Refused;
      }
      var granted := ConsumeDecision(decision, luck.consume);
      if !granted {
        return Refused;
      }
      if env !in states {
        return Gone;
      }
      var current := states[env];
      if MaybeRunning(current.state) {
        if !liveEnabled {
          return Refused;
        }
        var ok := RunCompose(env, false, luck.compose);
        if !ok {
          RecordFailure(env, OrUnknown(current.packageId), OrUnknown(current.nodeId), decision,
                        TerminationStage, at, luck.appendOk);
          return Refused;
        }
      }
      states := states[env := current.(state := Terminated)];
      AppendEvidence(env, Lifecycle(WasTerminated, env, decision, reason, at), luck.appendOk);
      return if luck.appendOk then Stopped else Refused;
    }

    /** The evidence comes before the state write, so a failed append leaves the state maybe-running. */
    method EmergencyStopEnvironment(env: string, named: bool, reason: string, at: int, luck: Luck)
      returns (reply: Reply)
      modifies this
      ensures (Contents(), reply) ==
              Step(old(Contents()), EmergencyStop(env, liveEnabled, named, reason, at), luck)
    {
      if !named {
        return Refused;
      }
      var current := if env in states then states[env] else StateRecord("", Terminated, "", "", "", "");
      if liveEnabled && env in states && MaybeRunning(current.state) {
        var ok := RunCompose(env, false, luck.compose);
        if !ok {
          AppendEvidence(env, Lifecycle(Failure(NoStage), env, "", reason, at), luck.appendOk);
          if luck.appendOk {
            states := states[env := current.(state := KillSwitchFailed)];
          }
          return Refused;
        }
      }
      AppendEvidence(env, Lifecycle(WasTerminated, env, "", reason, at), luck.appendOk);
      if !luck.appendOk {
        return Refused;
      }
      states := states[env := current.(env := env, state := Terminated)];
      return Stopped;
    }

    method ResetEnvironment(env: string, at: int, luck: Luck) returns (reply: Reply)
      modifies this
      ensures (Contents(), reply) == Step(old(Contents()), ResetEnv(env, at), luck)
    {
      if env in states && MaybeRunning(states[env].state) {
        return Refused;
      }
      AppendEvidence(env, Lifecycle(ResetCompleted, env, "", "", at), luck.appendOk);
      if !luck.appendOk || !luck.clearOk {
        return Refused;
      }
      states := states - {env};
      return ResetDone;
    }
  }

  // ----- what every run keeps

  datatype Call = Call(op: Op, luck: Luck)

  const START := World(map[], {}, map[], {}, [])

  function After(calls: seq<Call>): World
  {
    if calls == [] then START
    else
      var last := calls[|calls| - 1];
      Step(After(calls[..|calls| - 1]), last.op, last.luck).0
  }

  /** The operator stopped a maybe-running environment through an adapter that runs no Docker. */
  predicate BlindStop(w: World, op: Op)
  {
    op.EmergencyStop? && op.named && !op.live && RecordedMaybeRunning(w, op.env)
  }

  ghost predicate NoBlindStop(calls: seq<Call>)
  {
    forall i :: 0 <= i < |calls| ==> !BlindStop(After(calls[..i]), calls[i].op)
  }

  /** Some environment of project `p` is recorded in a state a container may be running in. */
  ghost predicate Accounted(w: World, p: string)
  {
    exists env :: env in w.states && Project(env) == Some(p) && MaybeRunning(w.states[env].state)
  }

  ghost predicate AllUpAccounted(w: World)
  {
    forall p :: p in w.up ==> Accounted(w, p)
  }

  ghost predicate Distinct(ids: seq<string>)
  {
    forall i, j :: 0 <= i < j < |ids| ==> ids[i] != ids[j]
  }

  ghost predicate UpsAuthorized(w: World)
  {
    Distinct(w.ups) && forall d :: d in w.ups ==> d in w.consumed
  }

  /** An environment's record other than `env`'s is untouched, so it still accounts for `p`. */
  lemma StillAccounted(w: World, w': World, env: string, p: string)
    requires Accounted(w, p)
    requires forall e :: e in w.states && e != env ==> e in w'.states && w'.states[e] == w.states[e]
    requires Project(env) == Some(p) && RecordedMaybeRunning(w, env) ==> RecordedMaybeRunning(w', env)
    ensures Accounted(w', p)
  {
    var e :| e in w.states && Project(e) == Some(p) && MaybeRunning(w.states[e].state);
    assert e in w'.states && MaybeRunning(w'.states[e].state);
  }

  lemma RunningAccounts(w: World, env: string, p: string)
    requires Project(env) == Some(p) && RecordedMaybeRunning(w, env)
    ensures Accounted(w, p)
  {
  }

  /** A call on `env` leaves other records alone, and a project up after it is either the call's own,
      with `env` recorded maybe running, or was up before without `env` ceasing to account for it. */
  ghost predicate Settles(w: World, w': World, env: string)
  {
    && (forall e :: e in w.states && e != env ==> e in w'.states && w'.states[e] == w.states[e])
    && (forall p :: p in w'.up ==>
          || (Project(env) == Some(p) && RecordedMaybeRunning(w', env))
          || (p in w.up && !(Project(env) == Some(p) && RecordedMaybeRunning(w, env))))
  }

  lemma ActivationSettles(w: World, op: Op, luck: Luck)
    requires op.Activate?
    ensures Settles(w, Step(w, op, luck).0, op.env)
  {
    hide Project;
  }

  lemma TerminationSettles(w: World, op: Op, luck: Luck)
    requires op.Terminate?
    ensures Settles(w, Step(w, op, luck).0, op.env)
  {
    hide Project;
  }

  lemma KillSwitchSettles(w: World, op: Op, luck: Luck)
    requires op.EmergencyStop? && !BlindStop(w, op)
    ensures Settles(w, Step(w, op, luck).0, op.env)
  {
    hide Project;
  }

  lemma ResetSettles(w: World, op: Op, luck: Luck)
    requires op.ResetEnv?
    ensures Settles(w, Step(w, op, luck).0, op.env)
  {
    hide Project;
  }

  lemma ObservationSettles(w: World, op: Op, luck: Luck)
    requires op.Observed?
    ensures Settles(w, Step(w, op, luck).0, op.env)
  {
    hide Project;
  }

  lemma SettledStaysAccounted(w: World, w': World, env: string)
    requires AllUpAccounted(w) && Settles(w, w', env)
    ensures AllUpAccounted(w')
  {
    hide RecordedMaybeRunning;
    hide Accounted;
    forall p | p in w'.up
      ensures Accounted(w', p)
    {
      if Project(env) == Some(p) && RecordedMaybeRunning(w', env) {
        RunningAccounts(w', env, p);
      } else {
        StillAccounted(w, w', env, p);
      }
    }
  }

  lemma StepSettles(w: World, op: Op, luck: Luck)
    requires !BlindStop(w, op)
    ensures Settles(w, Step(w, op, luck).0, op.env)
  {
    hide Settles;
    hide Step;
    hide BlindStop;
    if op.Activate? {
      ActivationSettles(w, op, luck);
    } else if op.Terminate? {
      TerminationSettles(w, op, luck);
    } else if op.EmergencyStop? {
      KillSwitchSettles(w, op, luck);
    } else if op.ResetEnv? {
      ResetSettles(w, op, luck);
    } else {
      ObservationSettles(w, op, luck);
    }
  }

  lemma StepKeepsAccounted(w: World, op: Op, luck: Luck)
    requires AllUpAccounted(w) && !BlindStop(w, op)
    ensures AllUpAccounted(Step(w, op, luck).0)
  {
    hide Settles;
    hide Step;
    hide AllUpAccounted;
    StepSettles(w, op, luck);
    SettledStaysAccounted(w, Step(w, op, luck).0, op.env);
  }

  lemma StepKeepsUpsAuthorized(w: World, op: Op, luck: Luck)
    requires UpsAuthorized(w)
    ensures UpsAuthorized(Step(w, op, luck).0)
  {
    hide Project;
    hide Composed;
    hide FailureRecorded;
    UpsOnlyByDecision(w, op, luck);
  }

  /** A compose-up call comes with a decision consumed by the same call, and no decision is given back. */
  lemma UpsOnlyByDecision(w: World, op: Op, luck: Luck)
    ensures var w' := Step(w, op, luck).0;
            && w.consumed <= w'.consumed
            && (w'.ups == w.ups
                || (op.Activate? && w'.ups == w.ups + [op.decision] && op.decision in w'.consumed && op.decision !in w.consumed))
  {
    hide Project;
    hide Composed;
  }

  lemma NothingUpAtStart()
    ensures UpsAuthorized(START) && AllUpAccounted(START)
  {
  }

  /** Lifecycle safety over every run: whatever Docker and the evidence appends do, a running
      container's project has an environment recorded active, failed or kill_switch_failed, and
      each compose-up call had its own consumed decision. State writes are assumed to succeed. */
  lemma {:induction false} LifecycleSafety(calls: seq<Call>)
    ensures UpsAuthorized(After(calls))
    ensures NoBlindStop(calls) ==> AllUpAccounted(After(calls))
  {
    hide Step;
    hide UpsAuthorized;
    hide AllUpAccounted;
    if calls == [] {
      NothingUpAtStart();
    } else {
      var k := |calls| - 1;
      LifecycleSafety(calls[..k]);
      StepKeepsUpsAuthorized(After(calls[..k]), calls[k].op, calls[k].luck);
      if NoBlindStop(calls) {
        forall i | 0 <= i < k
          ensures !BlindStop(After(calls[..k][..i]), calls[..k][i].op)
        {
          assert calls[..k][..i] == calls[..i];
        }
        StepKeepsAccounted(After(calls[..k]), calls[k].op, calls[k].luck);
      }
    }
  }

  /** No other recorded environment folds to the same Compose project name. */
  ghost predicate Unshared(w: World, env: string)
  {
    forall e :: e in w.states && Project(e) == Project(env) ==> e == env
  }

  /** For an environment with a project of its own, container up means it is itself recorded
      as maybe running, so a reset that succeeds finds the container down. */
  lemma ContainerUpIsRecorded(calls: seq<Call>, env: string, at: int, luck: Luck)
    requires NoBlindStop(calls) && Unshared(After(calls), env) && Project(env).Some?
    ensures Project(env).value in After(calls).up ==> RecordedMaybeRunning(After(calls), env)
    ensures Step(After(calls), ResetEnv(env, at), luck).1 == ResetDone ==>
              Project(env).value !in Step(After(calls), ResetEnv(env, at), luck).0.up
  {
    LifecycleSafety(calls);
    var w := After(calls);
    if Project(env).value in w.up {
      var e :| e in w.states && Project(e) == Project(env) && MaybeRunning(w.states[e].state);
      assert e == env;
    }
  }

  /** Whatever failed before, a container that is up can be stopped: a live emergency stop is not
      refused, needs no decision, and leaves the container down and the record terminated. */
  lemma ContainerCanBeStopped(calls: seq<Call>, env: string, reason: string, at: int)
    requires NoBlindStop(calls) && Unshared(After(calls), env) && Project(env).Some?
    requires Project(env).value in After(calls).up
    ensures var (w, reply) := Step(After(calls), EmergencyStop(env, true, true, reason, at), Luck(Normal, Succeeds, true, true));
            && reply == Stopped && Project(env).value !in w.up && w.consumed == After(calls).consumed
            && env in w.states && w.states[env].state == Terminated
  {
    hide Project;
    hide After;
    ContainerUpIsRecorded(calls, env, at, Luck(Normal, Succeeds, true, true));
  }

  lemma StepOnlyAppends(w: World, op: Op, luck: Luck, env: string)
    ensures LogOf(w, env) <= LogOf(Step(w, op, luck).0, env)
  {
  }

  /** Each environment's evidence only ever grows by extension. */
  lemma {:induction false} EvidenceOnlyGrows(calls: seq<Call>, more: seq<Call>, env: string)
    ensures LogOf(After(calls), env) <= LogOf(After(calls + more), env)
    decreases |more|
  {
    if more == [] {
      assert calls + more == calls;
    } else {
      var k := |more| - 1;
      EvidenceOnlyGrows(calls, more[..k], env);
      assert (calls + more)[..|calls + more| - 1] == calls + more[..k];
      var w := After(calls + more[..k]);
      StepOnlyAppends(w, more[k].op, more[k].luck, env);
      assert LogOf(After(calls), env) <= LogOf(w, env) <= LogOf(Step(w, more[k].op, more[k].luck).0, env);
    }
  }

  // ----- where the two hypotheses matter

  /** A stop without Docker, exactly: after any run whose stops were live, one that gets to record
      itself leaves some running container unaccounted for if and only if the environment's own
      container is up and no other recorded environment shares its project. */
  lemma BlindStopExactly(calls: seq<Call>, op: Op, luck: Luck)
    requires NoBlindStop(calls) && BlindStop(After(calls), op) && Unshared(After(calls), op.env)
    ensures AllUpAccounted(Step(After(calls), op, luck).0) <==>
            !(luck.appendOk && Project(op.env).Some? && Project(op.env).value in After(calls).up)
  {
    LifecycleSafety(calls);
    BlindStopStep(After(calls), op, luck);
  }

  lemma BlindStopStep(w: World, op: Op, luck: Luck)
    requires AllUpAccounted(w) && BlindStop(w, op) && Unshared(w, op.env)
    ensures AllUpAccounted(Step(w, op, luck).0) <==>
            !(luck.appendOk && Project(op.env).Some? && Project(op.env).value in w.up)
  {
    hide Project;
    var w' := Step(w, op, luck).0;
    forall p | p in w.up && Project(op.env) != Some(p)
      ensures Accounted(w', p)
    {
      StillAccounted(w, w', op.env, p);
    }
    forall e | luck.appendOk && e in w'.states && Project(e) == Project(op.env)
      ensures !MaybeRunning(w'.states[e].state)
    {
      assert e == op.env || e in w.states;
    }
  }

  // ----- a stop that overlaps other calls

  /** What an emergency stop does that read the record earlier, as `read`, with other calls in between. */
  function FinishStop(w: World, env: string, live: bool, read: Option<StateRecord>, reason: string, at: int, luck: Luck): World
  {
    var current := if read.Some? then read.value else StateRecord("", Terminated, "", "", "", "");
    var (ok, up) := if live && read.Some? && MaybeRunning(current.state) then Composed(w.up, env, false, luck.compose)
                    else (true, w.up);
    var w1 := w.(up := up);
    var event := Lifecycle(if ok then WasTerminated else Failure(NoStage), env, "", reason, at);
    var record := if ok then current.(env := env, state := Terminated) else current.(state := KillSwitchFailed);
    if !luck.appendOk then w1 else Appended(w1, env, event, true).(states := w1.states[env := record])
  }

  /** With nothing in between it is the stop of the runs above. */
  lemma StopIsReadAndFinish(w: World, env: string, live: bool, reason: string, at: int, luck: Luck)
    ensures Step(w, EmergencyStop(env, live, true, reason, at), luck).0 ==
            FinishStop(w, env, live, if env in w.states then Some(w.states[env]) else None, reason, at, luck)
  {
  }

  /** The stop read a record that was not maybe running, the container has come up since, and the stop
      records itself; or it read one that was, which no longer is, and its compose call fails with a
      container up without recording itself. */
  ghost predicate GoesWrong(w: World, env: string, read: Option<StateRecord>, luck: Luck)
  {
    Project(env).Some? &&
    if read.Some? && MaybeRunning(read.value.state)
    then luck.compose == Fails(true) && !luck.appendOk && !RecordedMaybeRunning(w, env)
    else luck.appendOk && Project(env).value in w.up
  }

  /** The calls of a run do not overlap. Where a live stop does overlap others, this is exactly when it
      leaves a running container unaccounted for. */
  lemma OverlappedStopExactly(calls: seq<Call>, env: string, read: Option<StateRecord>, reason: string, at: int, luck: Luck)
    requires NoBlindStop(calls) && Unshared(After(calls), env)
    ensures AllUpAccounted(FinishStop(After(calls), env, true, read, reason, at, luck)) <==> !GoesWrong(After(calls), env, read, luck)
  {
    LifecycleSafety(calls);
    FinishedStopStep(After(calls), env, read, reason, at, luck);
  }

  lemma FinishedStopStep(w: World, env: string, read: Option<StateRecord>, reason: string, at: int, luck: Luck)
    requires AllUpAccounted(w) && Unshared(w, env)
    ensures AllUpAccounted(FinishStop(w, env, true, read, reason, at, luck)) <==> !GoesWrong(w, env, read, luck)
  {
    hide Project;
    var w' := FinishStop(w, env, true, read, reason, at, luck);
    forall p | p in w.up && Project(env) != Some(p)
      ensures Accounted(w', p)
    {
      StillAccounted(w, w', env, p);
    }
    forall e | e in w'.states && Project(e) == Project(env)
      ensures e == env
    {
      assert e == env || e in w.states;
    }
    if !luck.appendOk {
      forall p | p in w.up
        ensures Accounted(w', p)
      {
        StillAccounted(w, w', env, p);
      }
    }
    if Project(env).Some? && RecordedMaybeRunning(w', env) {
      RunningAccounts(w', env, Project(env).value);
    }
  }

  /** Every call of the run is for an environment among these. */
  ghost predicate Within(calls: seq<Call>, envs: iset<string>)
  {
    forall i :: 0 <= i < |calls| ==> calls[i].op.env in envs
  }

  /** No two of the environments have one Compose project. */
  ghost predicate ProjectsDiffer(envs: iset<string>)
  {
    forall a, b :: a in envs && b in envs && Project(a).Some? && Project(a) == Project(b) ==> a == b
  }

  lemma {:induction false} OnlyTheseRecorded(calls: seq<Call>, envs: iset<string>)
    requires Within(calls, envs)
    ensures forall e :: e in After(calls).states ==> e in envs
  {
    hide Step;
    if calls != [] {
      var k := |calls| - 1;
      OnlyTheseRecorded(calls[..k], envs);
      StepRecordsOwn(After(calls[..k]), calls[k].op, calls[k].luck);
    }
  }

  lemma StepRecordsOwn(w: World, op: Op, luck: Luck)
    ensures forall e :: e in Step(w, op, luck).0.states ==> e in w.states || e == op.env
  {
    hide Project;
  }

  /** Two ids of one project, whichever they are: a run of live calls on those two leaves the
      container up while the first is recorded terminated. */
  lemma SharedProjectLeavesUp(a: string, b: string) returns (calls: seq<Call>)
    requires a != b && Project(a).Some? && Project(a) == Project(b)
    ensures NoBlindStop(calls) && Within(calls, iset{a, b})
    ensures var w := After(calls);
            a in w.states && w.states[a].state == Terminated && Project(a).value in w.up
  {
    hide Project;
    var good := Luck(Normal, Succeeds, true, true);
    var stop := Call(EmergencyStop(a, true, true, "drill", 0), good);
    var start := Call(Activate(b, true, true, true, "d1", "p", "g", "n", 1), good);
    calls := [stop, start];
    assert calls[..1] == [stop] && calls[..0] == [] && [stop][..0] == [];
    assert After([]) == START;
    assert After([stop]) == Step(START, stop.op, good).0;
    assert After(calls) == Step(After([stop]), start.op, good).0;
  }

  /** A container up for the environment's project is up for an environment recorded maybe running. */
  ghost predicate OwnRecordTells(w: World, env: string)
  {
    Project(env).Some? && Project(env).value in w.up ==> RecordedMaybeRunning(w, env)
  }

  /** Exactly for which sets of environments the record can be trusted: on every run over them whose
      stops are live, a container up means its own environment is recorded maybe running, if and
      only if no two of them have one Compose project. */
  lemma OwnRecordIffProjectsDiffer(envs: iset<string>)
    ensures (forall calls, e :: NoBlindStop(calls) && Within(calls, envs) && e in envs ==> OwnRecordTells(After(calls), e))
            <==> ProjectsDiffer(envs)
  {
    hide Project;
    hide After;
    hide NoBlindStop;
    if ProjectsDiffer(envs) {
      forall calls, e | NoBlindStop(calls) && Within(calls, envs) && e in envs
        ensures OwnRecordTells(After(calls), e)
      {
        OnlyTheseRecorded(calls, envs);
        if Project(e).Some? {
          ContainerUpIsRecorded(calls, e, 0, Luck(Normal, Succeeds, true, true));
        }
      }
    } else {
      var a, b :| a in envs && b in envs && Project(a).Some? && Project(a) == Project(b) && a != b;
      var calls := SharedProjectLeavesUp(a, b);
      assert Within(calls, envs);
      assert !OwnRecordTells(After(calls), a);
    }
  }

  /** Ids that differ only in case are two such ids. */
  lemma SharedProjectExample()
    ensures Project("a") == Project("A") && Project("a").Some?
  {
    assert "a"[1..] == [] && "A"[1..] == [];
    assert Lower('A') == 'a' && Lower('a') == 'a';
    assert Safe("a") == "a" && Safe("A") == "a";
  }
}
