/** Which sessions can be reported at all: what failed calls and resets do to the record a bundle has to
    agree with (`runtime/compose.py`, `runtime/mio_feedback.py`). */
module Reporting {
  import opened Common
  import opened Events
  import opened EvidenceChain
  import opened Feedback
  import opened FeedbackBundle
  import opened BundleFacts
  import opened Lifecycle
  import opened AllClear

  /** The state file agrees with the evidence: it is the session's own and gives the state the records
      show; or it is gone and the session was reset. */
  ghost predicate Reportable(sc: Scheme<Event>, store: Store, c: ChainRef)
  {
    SessionState(sc, store.lines, c).Some? &&
    if store.state.Some?
    then IdentityProblem(store.state.value, c).None? && store.state.value.state == SessionState(sc, store.lines, c).value
    else SessionState(sc, store.lines, c) == Some(Reset)
  }

  /** What a request brings along is in order. */
  ghost predicate RequestInOrder(o: Outside, q: Request)
  {
    && o.names(q.raw.expected).Some? && o.names(q.raw.expected).value != []
    && (q.objective.Some? ==> o.digest(q.objective.value) == q.chain.ref.objectiveDigest)
    && RuntimeMechanism(q.mechanism, q.chain).Ok? && Normalized(o, q.raw).Ok?
  }

  /** Where the request is in order and the derivation gives a bundle, it is handed out exactly for a
      reportable session; otherwise no request gets one. */
  lemma BuiltIffReportable(o: Outside, sc: Scheme<Event>, d: Deriver, store: Store, q: Request)
    requires DerivesParts(o, sc, d) && Intact(sc, store.lines)
    ensures Build(o, sc, d, store, q, true).Ok? ==> Reportable(sc, store, q.chain.ref)
    ensures RequestInOrder(o, q) && Reportable(sc, store, q.chain.ref) &&
            d(store.lines, q.chain, Inputs(q.now, q.maxAge, Normalized(o, q.raw).value, q.objective,
                                           RuntimeMechanism(q.mechanism, q.chain).value), None).Ok? ==>
              Build(o, sc, d, store, q, true).Ok?
  {
    hide Parts;
    hide SessionState;
    hide Intact;
    hide ResetAfter;
    var r := Build(o, sc, d, store, q, true);
    if r.Ok? {
      BuiltMeansAgreement(o, sc, d, store, q, r.value);
    }
    if SessionState(sc, store.lines, q.chain.ref).Some? {
      ResetAfterIff(sc, store.lines, q.chain.ref);
    }
    if RequestInOrder(o, q) {
      var inp := Inputs(q.now, q.maxAge, Normalized(o, q.raw).value, q.objective, RuntimeMechanism(q.mechanism, q.chain).value);
      if d(store.lines, q.chain, inp, None).Ok? {
        PartsGiveState(o, sc, store.lines, q.chain.ref, inp, d(store.lines, q.chain, inp, None).value);
      }
    }
  }

  lemma ResetAfterIff(sc: Scheme<Event>, lines: Lines, c: ChainRef)
    requires SessionState(sc, lines, c).Some?
    ensures ResetAfter(sc, lines, c.generation) <==> SessionState(sc, lines, c) == Some(Reset)
  {
  }

  // ----- sessions of a run

  /** An event of this kind stands after position `g`. */
  ghost predicate Shows(log: seq<Event>, g: nat, k: Kind)
  {
    exists j :: g < j < |log| && IsKind(log[j], k)
  }

  ghost function Shown(log: seq<Event>, g: nat): Option<EnvState>
  {
    if Shows(log, g, WasActivated) then None
    else if Shows(log, g, ResetCompleted) then Some(Reset)
    else if Shows(log, g, WasTerminated) then Some(Terminated)
    else if Shows(log, g, Failure(ActivationStage)) || Shows(log, g, Failure(TerminationStage)) then Some(Failed)
    else Some(Active)
  }

  lemma LaterIffShows(sc: Scheme<Event>, log: seq<Event>, g: nat, k: Kind)
    requires forall t :: sc.str(Text(t)) == t
    ensures Intact(sc, Log(sc, log)) && (Later(Log(sc, log), g, k) <==> Shows(log, g, k))
  {
    hide Log;
    LogIsIntact(sc, log);
  }

  lemma SessionStateIsShown(sc: Scheme<Event>, log: seq<Event>, c: ChainRef)
    requires forall t :: sc.str(Text(t)) == t
    ensures SessionState(sc, Log(sc, log), c) == Shown(log, c.generation)
  {
    hide Log;
    hide Later;
    hide Shows;
    hide Has;
    hide Between;
    hide Intact;
    hide Records;
    var g := c.generation;
    LaterIffShows(sc, log, g, WasActivated);
    LaterIffShows(sc, log, g, ResetCompleted);
    LaterIffShows(sc, log, g, WasTerminated);
    LaterIffShows(sc, log, g, Failure(ActivationStage));
    LaterIffShows(sc, log, g, Failure(TerminationStage));
    HasIffLater(sc, Log(sc, log), g, WasActivated);
    HasIffLater(sc, Log(sc, log), g, ResetCompleted);
    HasIffLater(sc, Log(sc, log), g, WasTerminated);
    HasIffLater(sc, Log(sc, log), g, Failure(ActivationStage));
    HasIffLater(sc, Log(sc, log), g, Failure(TerminationStage));
  }

  /** Call `k` of the run is the activation that started the chain's session. */
  ghost predicate Starts(calls: seq<Call>, k: nat, c: ChainRef)
  {
    k < |calls| && calls[k].op.Activate? &&
    var op := calls[k].op;
    var w := After(calls[..k]);
    && Step(w, op, calls[k].luck).1 == Activated
    && c.env == op.env && c.decisionId == op.decision && c.packageId == op.packageId
    && c.packageDigest == op.packageDigest && c.nodeId == op.nodeId && c.generation == |LogOf(w, op.env)|
    && c.packageDigest != ""
  }

  /** The call takes the record away from the environment's session: its compose-up or compose-down
      call is made and a failure is recorded, a new session is started, or a reset records itself. */
  predicate TakesRecord(w: World, call: Call, env: string)
  {
    var (op, luck) := (call.op, call.luck);
    op.env == env &&
    match op
    case Activate(_, _, _, _, _, _, _, _, _) => Step(w, op, luck).0.ups != w.ups
    case Terminate(_, live, valid, decision, _, _) =>
      && valid && live && RecordedMaybeRunning(w, env) && Consumed(w.consumed, decision, luck.consume).1
      && !Composed(w.up, env, false, luck.compose).0
    case ResetEnv(_, _) => !RecordedMaybeRunning(w, env) && luck.appendOk
    case EmergencyStop(_, _, _, _, _) => false
    case Observed(_, _) => false
  }

  /** The record is the session's own, and nothing but stops and observations followed its start. */
  ghost predicate Kept(w: World, c: ChainRef)
  {
    && c.env in w.states && IdentityProblem(w.states[c.env], c).None?
    && (forall j :: c.generation < j < |LogOf(w, c.env)| ==> StopOrObservation(LogOf(w, c.env)[j]))
  }

  predicate StopOrObservation(e: Event)
  {
    e.Lifecycle? ==> e.kind == WasTerminated || e.kind == Failure(NoStage)
  }

  /** The record is gone or not the session's, or a reset of it is on record. */
  ghost predicate Taken(w: World, c: ChainRef)
  {
    || c.env !in w.states || IdentityProblem(w.states[c.env], c).Some?
    || Shows(LogOf(w, c.env), c.generation, ResetCompleted)
  }

  ghost predicate Begun(w: World, c: ChainRef)
  {
    && c.generation < |LogOf(w, c.env)| && c.decisionId in w.consumed && c.packageDigest != ""
    && (c.env in w.states ==> w.states[c.env].env == c.env)
  }

  lemma StartIsKept(calls: seq<Call>, k: nat, c: ChainRef)
    requires Starts(calls, k, c)
    ensures Begun(After(calls[..k + 1]), c) && Kept(After(calls[..k + 1]), c)
  {
    hide Project;
    hide After;
    AfterNext(calls, k);
  }

  lemma AfterNext(calls: seq<Call>, k: nat)
    requires k < |calls|
    ensures After(calls[..k + 1]) == Step(After(calls[..k]), calls[k].op, calls[k].luck).0
  {
    hide Step;
    assert calls[..k + 1][..k] == calls[..k];
  }

  lemma StepKeepsBegun(w: World, call: Call, c: ChainRef)
    requires Begun(w, c)
    ensures Begun(Step(w, call.op, call.luck).0, c)
  {
    StepOnlyAppends(w, call.op, call.luck, c.env);
    UpsOnlyByDecision(w, call.op, call.luck);
    RecordIsNamed(w, call, c.env);
  }

  lemma RecordIsNamed(w: World, call: Call, env: string)
    requires env in w.states ==> w.states[env].env == env
    ensures env in Step(w, call.op, call.luck).0.states ==> Step(w, call.op, call.luck).0.states[env].env == env
  {
    hide Project;
    hide Composed;
  }

  lemma StepKeepsKept(w: World, call: Call, c: ChainRef)
    requires Begun(w, c) && Kept(w, c) && !TakesRecord(w, call, c.env)
    ensures Kept(Step(w, call.op, call.luck).0, c)
  {
    hide Project;
    hide Composed;
  }

  lemma StepTakes(w: World, call: Call, c: ChainRef)
    requires Begun(w, c) && Kept(w, c) && TakesRecord(w, call, c.env)
    ensures Taken(Step(w, call.op, call.luck).0, c)
  {
    hide Project;
    hide Composed;
    var w' := Step(w, call.op, call.luck).0;
    if call.op.ResetEnv? {
      assert IsKind(LogOf(w', c.env)[|LogOf(w, c.env)|], ResetCompleted);
    }
  }

  lemma StepKeepsTaken(w: World, call: Call, c: ChainRef)
    requires Begun(w, c) && Taken(w, c)
    ensures Taken(Step(w, call.op, call.luck).0, c)
  {
    var w' := Step(w, call.op, call.luck).0;
    StepOnlyAppends(w, call.op, call.luck, c.env);
    if Shows(LogOf(w, c.env), c.generation, ResetCompleted) {
      var j :| c.generation < j < |LogOf(w, c.env)| && IsKind(LogOf(w, c.env)[j], ResetCompleted);
      assert LogOf(w', c.env)[j] == LogOf(w, c.env)[j];
    } else {
      RecordStaysForeign(w, call, c);
    }
  }

  ghost predicate Foreign(w: World, c: ChainRef)
  {
    c.env !in w.states || IdentityProblem(w.states[c.env], c).Some?
  }

  /** A new record of the environment comes with a new decision or without a digest. */
  lemma RecordStaysForeign(w: World, call: Call, c: ChainRef)
    requires Begun(w, c) && Foreign(w, c)
    ensures Foreign(Step(w, call.op, call.luck).0, c)
  {
    hide Project;
    hide Composed;
    if call.op.Activate? {
      ActivationStaysForeign(w, call, c);
    } else if call.op.Terminate? {
      TerminationStaysForeign(w, call, c);
    }
  }

  lemma ActivationStaysForeign(w: World, call: Call, c: ChainRef)
    requires Begun(w, c) && Foreign(w, c) && call.op.Activate?
    ensures Foreign(Step(w, call.op, call.luck).0, c)
  {
    hide Project;
    hide Composed;
    hide LogOf;
  }

  lemma TerminationStaysForeign(w: World, call: Call, c: ChainRef)
    requires Begun(w, c) && Foreign(w, c) && call.op.Terminate?
    ensures Foreign(Step(w, call.op, call.luck).0, c)
  {
    hide Project;
    hide Composed;
    hide LogOf;
    hide OrUnknown;
  }

  /** No call since the session's start took its record. */
  ghost predicate NoneTook(calls: seq<Call>, k: nat, env: string)
  {
    forall i :: k < i < |calls| ==> !TakesRecord(After(calls[..i]), calls[i], env)
  }

  lemma {:induction false} RecordSince(calls: seq<Call>, k: nat, c: ChainRef)
    requires Starts(calls, k, c)
    ensures Begun(After(calls), c)
    ensures if NoneTook(calls, k, c.env) then Kept(After(calls), c) else Taken(After(calls), c)
    decreases |calls|
  {
    hide Step;
    hide TakesRecord;
    hide Kept;
    hide Taken;
    hide Begun;
    var last := |calls| - 1;
    if last == k {
      StartIsKept(calls, k, c);
      assert calls[..k + 1] == calls;
    } else {
      var front := calls[..last];
      assert front[..k] == calls[..k];
      RecordSince(front, k, c);
      AfterNext(calls, last);
      assert calls[..last + 1] == calls;
      NoneTookStep(calls, k, c.env);
      var w := After(front);
      StepKeepsBegun(w, calls[last], c);
      if !NoneTook(front, k, c.env) {
        StepKeepsTaken(w, calls[last], c);
      } else if TakesRecord(w, calls[last], c.env) {
        StepTakes(w, calls[last], c);
      } else {
        StepKeepsKept(w, calls[last], c);
      }
    }
  }

  lemma NoneTookStep(calls: seq<Call>, k: nat, env: string)
    requires k < |calls| - 1
    ensures var last := |calls| - 1;
            NoneTook(calls, k, env) <==> NoneTook(calls[..last], k, env) && !TakesRecord(After(calls[..last]), calls[last], env)
  {
    hide TakesRecord;
    hide After;
    var last := |calls| - 1;
    assert forall i :: k < i < last ==> calls[..last][..i] == calls[..i] && calls[..last][i] == calls[i];
  }

  // ----- which ended sessions can be reported

  lemma StoppedStep(w: World, call: Call)
    requires Step(w, call.op, call.luck).1 == Stopped
    ensures var w' := Step(w, call.op, call.luck).0;
            var log := LogOf(w', call.op.env);
            && call.op.env in w'.states && w'.states[call.op.env].state == Terminated
            && |log| == |LogOf(w, call.op.env)| + 1 && IsKind(log[|log| - 1], WasTerminated)
  {
    hide Project;
    hide Composed;
  }

  /** What a stop leaves can be reported if the record was kept, and not if it was taken. */
  lemma StoppedReport(w: World, c: ChainRef, sc: Scheme<Event>, hasKey: bool)
    requires forall t :: sc.str(Text(t)) == t
    requires c.env in w.states && w.states[c.env].state == Terminated
    requires var log := LogOf(w, c.env); c.generation < |log| - 1 && IsKind(log[|log| - 1], WasTerminated)
    ensures Kept(w, c) ==> Reportable(sc, StoreOf(sc, w, c.env, hasKey), c)
    ensures Taken(w, c) ==> !Reportable(sc, StoreOf(sc, w, c.env, hasKey), c)
  {
    hide SessionState;
    hide Log;
    hide IdentityProblem;
    hide Shows;
    hide IsKind;
    var log := LogOf(w, c.env);
    SessionStateIsShown(sc, log, c);
    if Kept(w, c) {
      StopsShowTerminated(log, c.generation);
    }
  }

  /** A session that was stopped, by a termination or the kill switch, can be reported exactly when no
      call since its start took its record: no activation or termination failed at Docker and was
      recorded, no other session was started, no reset recorded itself. */
  lemma StoppedIsReportableIff(calls: seq<Call>, k: nat, c: ChainRef, sc: Scheme<Event>, hasKey: bool)
    requires Starts(calls, k, c) && k < |calls| - 1 && forall t :: sc.str(Text(t)) == t
    requires var last := |calls| - 1;
             calls[last].op.env == c.env && Step(After(calls[..last]), calls[last].op, calls[last].luck).1 == Stopped
    ensures c.env in After(calls).states && After(calls).states[c.env].state == Terminated
    ensures Reportable(sc, StoreOf(sc, After(calls), c.env, hasKey), c) <==> NoneTook(calls, k, c.env)
  {
    hide *;
    var last := |calls| - 1;
    AfterNext(calls, last);
    assert calls[..last + 1] == calls;
    StartsEarlier(calls, k, c);
    RecordSince(calls[..last], k, c);
    RecordSince(calls, k, c);
    StoppedOnward(After(calls[..last]), calls[last], c, sc, hasKey);
  }

  lemma StoppedOnward(w: World, call: Call, c: ChainRef, sc: Scheme<Event>, hasKey: bool)
    requires Begun(w, c) && call.op.env == c.env && Step(w, call.op, call.luck).1 == Stopped
    requires forall t :: sc.str(Text(t)) == t
    ensures var w' := Step(w, call.op, call.luck).0;
            && c.env in w'.states && w'.states[c.env].state == Terminated
            && (Kept(w', c) ==> Reportable(sc, StoreOf(sc, w', c.env, hasKey), c))
            && (Taken(w', c) ==> !Reportable(sc, StoreOf(sc, w', c.env, hasKey), c))
  {
    hide Step;
    hide Reportable;
    hide Kept;
    hide Taken;
    StoppedStep(w, call);
    StoppedReport(Step(w, call.op, call.luck).0, c, sc, hasKey);
  }

  lemma StartsEarlier(calls: seq<Call>, k: nat, c: ChainRef)
    requires Starts(calls, k, c) && k < |calls| - 1
    ensures Starts(calls[..|calls| - 1], k, c)
  {
    hide Step;
    hide After;
    assert calls[..|calls| - 1][..k] == calls[..k];
  }

  lemma StopsShowTerminated(log: seq<Event>, g: nat)
    requires g < |log| - 1 && IsKind(log[|log| - 1], WasTerminated)
    requires forall j :: g < j < |log| ==> StopOrObservation(log[j])
    ensures Shown(log, g) == Some(Terminated)
  {
  }

  lemma ResetReport(w: World, c: ChainRef, sc: Scheme<Event>, hasKey: bool)
    requires forall t :: sc.str(Text(t)) == t
    requires c.env !in w.states
    requires var log := LogOf(w, c.env); c.generation < |log| - 1 && IsKind(log[|log| - 1], ResetCompleted)
    ensures Reportable(sc, StoreOf(sc, w, c.env, hasKey), c) <==> !Shows(LogOf(w, c.env), c.generation, WasActivated)
  {
    hide SessionState;
    hide Log;
    hide Shows;
    hide IsKind;
    SessionStateIsShown(sc, LogOf(w, c.env), c);
    LastIsShown(LogOf(w, c.env), c.generation, ResetCompleted);
  }

  /** A reset puts it right: once it has removed the record, the session can be reported as reset
      exactly when no other one of the environment is on record since. */
  lemma ResetIsReportableIff(calls: seq<Call>, k: nat, c: ChainRef, sc: Scheme<Event>, hasKey: bool)
    requires Starts(calls, k, c) && k < |calls| - 1 && forall t :: sc.str(Text(t)) == t
    requires var last := |calls| - 1;
             calls[last].op.env == c.env && Step(After(calls[..last]), calls[last].op, calls[last].luck).1 == ResetDone
    ensures Reportable(sc, StoreOf(sc, After(calls), c.env, hasKey), c) <==>
            !Shows(LogOf(After(calls), c.env), c.generation, WasActivated)
  {
    hide *;
    var last := |calls| - 1;
    AfterNext(calls, last);
    assert calls[..last + 1] == calls;
    StartsEarlier(calls, k, c);
    RecordSince(calls[..last], k, c);
    ResetOnward(After(calls[..last]), calls[last], c, sc, hasKey);
  }

  lemma ResetOnward(w: World, call: Call, c: ChainRef, sc: Scheme<Event>, hasKey: bool)
    requires Begun(w, c) && call.op.env == c.env && Step(w, call.op, call.luck).1 == ResetDone
    requires forall t :: sc.str(Text(t)) == t
    ensures var w' := Step(w, call.op, call.luck).0;
            Reportable(sc, StoreOf(sc, w', c.env, hasKey), c) <==> !Shows(LogOf(w', c.env), c.generation, WasActivated)
  {
    hide Step;
    hide Reportable;
    hide Shows;
    ResetStep(w, call);
    ResetReport(Step(w, call.op, call.luck).0, c, sc, hasKey);
  }

  lemma LastIsShown(log: seq<Event>, g: nat, k: Kind)
    requires g < |log| - 1 && IsKind(log[|log| - 1], k)
    ensures Shows(log, g, k)
  {
  }

  lemma ResetStep(w: World, call: Call)
    requires Step(w, call.op, call.luck).1 == ResetDone
    ensures var w' := Step(w, call.op, call.luck).0;
            var log := LogOf(w', call.op.env);
            && call.op.env !in w'.states
            && |log| == |LogOf(w, call.op.env)| + 1 && IsKind(log[|log| - 1], ResetCompleted)
  {
    hide Project;
    hide Composed;
  }

  // ----- a failed termination and its retry

  /** The run: activated, a termination whose compose call fails, a termination that succeeds. */
  function Retried(env: string): seq<Call>
  {
    var good := Luck(Normal, Succeeds, true, true);
    [Call(Activate(env, true, true, true, "d1", "p", "g", "n", 0), good),
     Call(Terminate(env, true, true, "d2", "done", 0), good.(compose := Fails(true))),
     Call(Terminate(env, true, true, "d3", "done", 0), good)]
  }

  lemma RetriedSteps(env: string)
    requires Project(env).Some?
    ensures var calls := Retried(env);
            var w1 := Step(Lifecycle.START, calls[0].op, calls[0].luck).0;
            var w2 := Step(w1, calls[1].op, calls[1].luck).0;
            var w3 := Step(w2, calls[2].op, calls[2].luck).0;
            && env in w1.states && w1.states[env].state == Active && w1.consumed == {"d1"}
            && Step(Lifecycle.START, calls[0].op, calls[0].luck).1 == Activated
            && env in w2.states && w2.states[env].state == Failed && Step(w2, calls[2].op, calls[2].luck).1 == Stopped
            && Project(env).value !in w3.up && |LogOf(w3, env)| == 3
            && LogOf(w3, env)[1] == Lifecycle(Failure(TerminationStage), env, "d2", "", 0)
            && LogOf(w3, env)[2] == Lifecycle(WasTerminated, env, "d3", "done", 0)
  {
    hide Project;
  }

  lemma AfterRetried(env: string)
    requires Project(env).Some?
    ensures var calls := Retried(env);
            && After(calls[..0]) == Lifecycle.START
            && env in After(calls[..1]).states && After(calls[..1]).states[env].state == Active
            && After(calls[..1]).consumed == {"d1"} && Step(Lifecycle.START, calls[0].op, calls[0].luck).1 == Activated
            && env in After(calls[..2]).states && After(calls[..2]).states[env].state == Failed
            && Step(After(calls[..2]), calls[2].op, calls[2].luck).1 == Stopped
            && Project(env).value !in After(calls).up && |LogOf(After(calls), env)| == 3
            && LogOf(After(calls), env)[1] == Lifecycle(Failure(TerminationStage), env, "d2", "", 0)
            && LogOf(After(calls), env)[2] == Lifecycle(WasTerminated, env, "d3", "done", 0)
  {
    hide Project;
    hide After;
    hide Step;
    hide LogOf;
    var calls := Retried(env);
    assert calls[..3] == calls && calls[..0] == [];
    AfterNext(calls, 0);
    AfterNext(calls, 1);
    AfterNext(calls, 2);
    NothingYet();
    RetriedSteps(env);
  }

  lemma NothingYet()
    ensures After([]) == Lifecycle.START
  {
  }

  /** The container is down and both file and evidence say terminated, yet no request for the session
      gets a bundle: the failure took its record. */
  lemma RetriedIsNotReportable(env: string, c: ChainRef, sc: Scheme<Event>, hasKey: bool)
    requires Project(env).Some? && forall t :: sc.str(Text(t)) == t
    requires c.env == env && c.decisionId == "d1" && c.packageId == "p" && c.packageDigest == "g" && c.nodeId == "n"
    requires c.generation == 0
    ensures var w := After(Retried(env));
            && NoBlindStop(Retried(env)) && Project(env).value !in w.up
            && env in w.states && w.states[env].state == Terminated
            && SessionState(sc, Log(sc, LogOf(w, env)), c) == Some(Terminated)
            && !Reportable(sc, StoreOf(sc, w, env, hasKey), c)
  {
    hide Project;
    hide SessionState;
    hide Log;
    hide Reportable;
    hide Step;
    hide After;
    hide NoBlindStop;
    hide Shows;
    var calls := Retried(env);
    AfterRetried(env);
    RetriedIsNotBlind(env);
    assert calls[..2] == calls[..|calls| - 1];
    assert TakesRecord(After(calls[..1]), calls[1], env);
    StoppedIsReportableIff(calls, 0, c, sc, hasKey);
    var log := LogOf(After(calls), env);
    SessionStateIsShown(sc, log, c);
    RetriedShows(env, log);
  }

  lemma RetriedIsNotBlind(env: string)
    ensures NoBlindStop(Retried(env))
  {
    hide After;
  }

  lemma RetriedShows(env: string, log: seq<Event>)
    requires |log| == 3 && log[1] == Lifecycle(Failure(TerminationStage), env, "d2", "", 0)
    requires log[2] == Lifecycle(WasTerminated, env, "d3", "done", 0)
    ensures Shown(log, 0) == Some(Terminated)
  {
    assert IsKind(log[2], WasTerminated);
  }

  // ----- "failed" is never reported

  lemma {:induction false} FailedHasNoDigest(calls: seq<Call>)
    ensures forall env :: env in After(calls).states && After(calls).states[env].state == Failed ==>
              After(calls).states[env].packageDigest == ""
  {
    hide Step;
    if calls != [] {
      var last := |calls| - 1;
      FailedHasNoDigest(calls[..last]);
      StepFailedHasNoDigest(After(calls[..last]), calls[last]);
    }
  }

  lemma StepFailedHasNoDigest(w: World, call: Call)
    requires forall env :: env in w.states && w.states[env].state == Failed ==> w.states[env].packageDigest == ""
    ensures var w' := Step(w, call.op, call.luck).0;
            forall env :: env in w'.states && w'.states[env].state == Failed ==> w'.states[env].packageDigest == ""
  {
    hide Project;
    hide Composed;
    hide Consumed;
    hide OrUnknown;
    hide LogOf;
  }

  /** On no run does a session with a package digest get a bundle that says "failed": whatever records
      the failure records no digest. */
  lemma NeverReportsFailed(calls: seq<Call>, o: Outside, sc: Scheme<Event>, d: Deriver, hasKey: bool, q: Request, b: Bundle)
    requires DerivesParts(o, sc, d) && forall t :: sc.str(Text(t)) == t
    requires q.chain.ref.packageDigest != ""
    requires Build(o, sc, d, StoreOf(sc, After(calls), q.chain.ref.env, hasKey), q, true) == Ok(b)
    ensures b.envState != Failed
  {
    hide After;
    hide Log;
    hide SessionState;
    LogIsIntact(sc, LogOf(After(calls), q.chain.ref.env));
    BuiltIffReportable(o, sc, d, StoreOf(sc, After(calls), q.chain.ref.env, hasKey), q);
    BuiltMeansAgreement(o, sc, d, StoreOf(sc, After(calls), q.chain.ref.env, hasKey), q, b);
    FailedHasNoDigest(calls);
  }
}
