/** When each lifecycle call goes ahead, when Docker is called, and what it leaves, call by call. */
module LifecycleGuards {
  import opened Common
  import opened Events
  import opened Lifecycle

  /** The store grants the decision: it was never consumed and the store did not raise. */
  predicate Granted(w: World, decision: string, luck: Luck)
  {
    decision !in w.consumed && luck.consume == Normal
  }

  /** The ledger after asking for the decision: it is spent unless the store raised leaving no marker. */
  function Asked(w: World, decision: string, luck: Luck): set<string>
  {
    if luck.consume == Raises(false) then w.consumed else w.consumed + {decision}
  }

  /** The environment's container after a compose call of this sort, and no other. */
  ghost predicate DockerDid(w: World, w': World, env: string, start: bool, luck: Luck)
  {
    && (forall p :: Project(env) != Some(p) ==> (p in w'.up <==> p in w.up))
    && (Project(env).Some? && luck.compose == Succeeds ==> (Project(env).value in w'.up <==> start))
    && (Project(env).Some? && luck.compose != Succeeds ==> (Project(env).value in w'.up <==> luck.compose == Fails(true)))
  }

  predicate DockerOk(env: string, luck: Luck)
  {
    Project(env).Some? && luck.compose == Succeeds
  }

  /** Nothing but the environment's own record, log and container is touched. */
  ghost predicate OthersUntouched(w: World, w': World, env: string)
  {
    && (forall e :: e != env ==> LogOf(w', e) == LogOf(w, e) && (e in w'.states <==> e in w.states))
    && (forall e :: e != env && e in w.states ==> e in w'.states && w'.states[e] == w.states[e])
  }

  /** Everything but the ledger stays. */
  predicate OnlyLedger(w: World, w': World)
  {
    w' == w.(consumed := w'.consumed)
  }

  // ----- the project

  /** The project is named after the environment: its ASCII letters (65 to 90, lowered to 97 to 122), digits
      (48 to 57), `-` and `_`, in order, cut so that the name has at most 63 characters; an environment with
      none of them has no project. */
  lemma ProjectTells(env: string, c: char)
    ensures Project("").None?
    ensures 65 <= c as int <= 90 ==> Safe(env + [c]) == Safe(env) + [(c as int + 32) as char]
    ensures IsPlain(c) ==> Safe(env + [c]) == Safe(env) + [c]
    ensures !(65 <= c as int <= 90) && !IsPlain(c) ==> Safe(env + [c]) == Safe(env)
    ensures Project(env).None? <==> Safe(env) == ""
    ensures forall p :: Project(env) == Some(p) ==>
              p <= "az06-" + Safe(env) && |p| == Min(63, 5 + |Safe(env)|)
  {
    SafeOfOneMore(env, c);
    KeptOrNot(c);
    hide Safe;
    hide Kept;
    hide Lower;
    hide IsPlain;
    assert Safe("") == "" by { NothingSafe(); }
  }

  lemma NothingSafe()
    ensures Safe("") == ""
  {
  }

  lemma KeptOrNot(c: char)
    ensures 65 <= c as int <= 90 ==> Kept(Lower(c)) && Lower(c) == (c as int + 32) as char
    ensures IsPlain(c) ==> Kept(Lower(c)) && Lower(c) == c
    ensures !(65 <= c as int <= 90) && !IsPlain(c) ==> !Kept(Lower(c))
  {
  }

  predicate IsPlain(c: char)
  {
    97 <= c as int <= 122 || 48 <= c as int <= 57 || c in "-_"
  }

  lemma {:induction false} SafeOfOneMore(env: string, c: char)
    ensures Safe(env + [c]) == Safe(env) + if Kept(Lower(c)) then [Lower(c)] else []
  {
    if env == [] {
      SafeOfFirst(c, []);
      assert [c] + [] == env + [c];
      assert Safe([]) == [];
    } else {
      var first, rest := env[0], env[1..];
      SafeOfOneMore(rest, c);
      SafeOfFirst(first, rest);
      SafeOfFirst(first, rest + [c]);
      hide Safe;
      assert env == [first] + rest && env + [c] == [first] + (rest + [c]);
    }
  }

  lemma SafeOfFirst(first: char, rest: string)
    ensures Safe([first] + rest) == (if Kept(Lower(first)) then [Lower(first)] else []) + Safe(rest)
  {
    hide Kept;
    hide Lower;
    assert ([first] + rest)[0] == first && ([first] + rest)[1..] == rest;
  }

  // ----- activation

  /** The environment has no record, or one of a session that is over or never came up. */
  predicate FreeToActivate(w: World, env: string)
  {
    env in w.states ==> w.states[env].state == Terminated || w.states[env].state == Failed || w.states[env].state == Reset
  }

  predicate ReachesLedger(w: World, op: Op)
    requires op.Activate?
  {
    op.parses && op.live && op.gates && FreeToActivate(w, op.env)
  }

  /** Docker is asked to start a container exactly when the call parses, is live, passes its gates, finds
      the environment free, and is granted its decision. */
  lemma ActivationStartsIff(w: World, op: Op, luck: Luck)
    requires op.Activate?
    ensures var (w', reply) := Step(w, op, luck);
            && (w'.ups != w.ups <==> ReachesLedger(w, op) && Granted(w, op.decision, luck))
            && (w'.ups != w.ups ==> w'.ups == w.ups + [op.decision] && DockerDid(w, w', op.env, true, luck))
            && (w'.ups == w.ups ==> OnlyLedger(w, w'))
            && w'.consumed == (if ReachesLedger(w, op) then Asked(w, op.decision, luck) else w.consumed)
            && OthersUntouched(w, w', op.env)
            && (reply == Disabled <==> op.parses && !op.live)
            && (reply == Activated <==> w'.ups != w.ups && DockerOk(op.env, luck) && luck.appendOk)
            && (reply in {Disabled, Activated, Refused})
  {
  }

  /** What a started activation writes: an active record and its event when Docker succeeded, a failed
      record without a digest and the failure event when it did not. */
  lemma ActivationWrites(w: World, op: Op, luck: Luck)
    requires op.Activate? && Step(w, op, luck).0.ups != w.ups
    ensures var w' := Step(w, op, luck).0;
            var ok := DockerOk(op.env, luck);
            && op.env in w'.states
            && w'.states[op.env] == (if ok then StateRecord(op.env, Active, op.packageId, op.packageDigest, op.nodeId, op.decision)
                                     else StateRecord(op.env, Failed, op.packageId, "", op.nodeId, op.decision))
            && LogOf(w', op.env) == LogOf(w, op.env) + if !luck.appendOk then []
                 else [Lifecycle(if ok then WasActivated else Failure(ActivationStage), op.env, op.decision, "", op.at)]
  {
    hide Project;
  }

  // ----- termination

  /** Docker is asked to stop the container. */
  predicate TerminationCallsDocker(w: World, op: Op, luck: Luck)
    requires op.Terminate?
  {
    op.valid && Granted(w, op.decision, luck) && op.live && RecordedMaybeRunning(w, op.env)
  }

  /** A valid termination that is granted its decision finds nothing, is refused for want of Docker, or goes
      ahead, with Docker exactly when the record says a container may be running. */
  lemma TerminationIff(w: World, op: Op, luck: Luck)
    requires op.Terminate?
    ensures var (w', reply) := Step(w, op, luck);
            var granted := op.valid && Granted(w, op.decision, luck);
            var docker := TerminationCallsDocker(w, op, luck);
            var down := granted && op.env in w.states && (RecordedMaybeRunning(w, op.env) ==> op.live && DockerOk(op.env, luck));
            && w'.consumed == (if op.valid then Asked(w, op.decision, luck) else w.consumed) && w'.ups == w.ups
            && OthersUntouched(w, w', op.env)
            && (reply == Gone <==> granted && op.env !in w.states)
            && (reply == Stopped <==> down && luck.appendOk) && reply in {Gone, Stopped, Refused}
            && (if docker then DockerDid(w, w', op.env, false, luck) else w'.up == w.up)
            && (!down && !docker ==> OnlyLedger(w, w'))
  {
  }

  /** What a termination that goes ahead writes: the session's own record as terminated and its event; or,
      when Docker failed, a failed record of this decision, without a digest, and the failure event. */
  lemma TerminationWrites(w: World, op: Op, luck: Luck)
    requires op.Terminate? && op.valid && Granted(w, op.decision, luck) && op.env in w.states
    requires RecordedMaybeRunning(w, op.env) ==> op.live
    ensures var w' := Step(w, op, luck).0;
            var was := w.states[op.env];
            var ok := RecordedMaybeRunning(w, op.env) ==> DockerOk(op.env, luck);
            var orUnknown := (s: string) => if s == "" then "unknown" else s;
            && op.env in w'.states
            && w'.states[op.env] == (if ok then was.(state := Terminated)
                                     else StateRecord(op.env, Failed, orUnknown(was.packageId), "", orUnknown(was.nodeId), op.decision))
            && LogOf(w', op.env) == LogOf(w, op.env) + if !luck.appendOk then []
                 else [if ok then Lifecycle(WasTerminated, op.env, op.decision, op.reason, op.at)
                       else Lifecycle(Failure(TerminationStage), op.env, op.decision, "", op.at)]
  {
    hide Project;
  }

  // ----- the kill switch

  predicate StopCallsDocker(w: World, op: Op)
    requires op.EmergencyStop?
  {
    op.named && op.live && RecordedMaybeRunning(w, op.env)
  }

  /** A stop with operator and reason needs no decision: it calls Docker when it is live and the record
      says a container may be running, then records itself, and only then writes its state. */
  lemma StopIff(w: World, op: Op, luck: Luck)
    requires op.EmergencyStop?
    ensures var (w', reply) := Step(w, op, luck);
            var docker := StopCallsDocker(w, op);
            var ok := docker ==> DockerOk(op.env, luck);
            && w'.consumed == w.consumed && w'.ups == w.ups && OthersUntouched(w, w', op.env)
            && (reply == Stopped <==> op.named && ok && luck.appendOk) && reply in {Stopped, Refused}
            && (if docker then DockerDid(w, w', op.env, false, luck) else w'.up == w.up)
            && (!op.named || !luck.appendOk ==> w' == w.(up := w'.up))
  {
  }

  lemma StopWrites(w: World, op: Op, luck: Luck)
    requires op.EmergencyStop? && op.named && luck.appendOk
    ensures var w' := Step(w, op, luck).0;
            var ok := StopCallsDocker(w, op) ==> DockerOk(op.env, luck);
            && op.env in w'.states
            && (ok ==> w'.states[op.env].state == Terminated && w'.states[op.env].env == op.env)
            && (!ok ==> w'.states[op.env] == w.states[op.env].(state := KillSwitchFailed))
            && (op.env in w.states && ok ==> w'.states[op.env] == w.states[op.env].(env := op.env, state := Terminated))
            && (op.env !in w.states ==> w'.states[op.env] == StateRecord(op.env, Terminated, "", "", "", ""))
            && LogOf(w', op.env) == LogOf(w, op.env) +
                 [Lifecycle(if ok then WasTerminated else Failure(NoStage), op.env, "", op.reason, op.at)]
  {
    hide Project;
  }

  // ----- reset

  /** A reset never calls Docker; it goes ahead exactly when the record says nothing may be running, records
      itself first, and removes the record. */
  lemma ResetIff(w: World, op: Op, luck: Luck)
    requires op.ResetEnv?
    ensures var (w', reply) := Step(w, op, luck);
            var ahead := !RecordedMaybeRunning(w, op.env) && luck.appendOk;
            && w'.up == w.up && w'.consumed == w.consumed && w'.ups == w.ups && OthersUntouched(w, w', op.env)
            && (reply == ResetDone <==> ahead && luck.clearOk) && reply in {ResetDone, Refused}
            && (!ahead ==> w' == w)
            && (ahead ==> LogOf(w', op.env) == LogOf(w, op.env) + [Lifecycle(ResetCompleted, op.env, "", "", op.at)])
            && (reply == ResetDone ==> op.env !in w'.states)
            && (ahead && reply != ResetDone ==> w'.states == w.states)
  {
  }

  /** What observers add to a log between the calls is a contact or a drift record and touches nothing else. */
  lemma ObservedIff(w: World, op: Op, luck: Luck)
    requires op.Observed?
    ensures var (w', reply) := Step(w, op, luck);
            && (reply == Noted <==> !op.event.Lifecycle? && luck.appendOk) && reply in {Noted, Refused}
            && LogOf(w', op.env) == LogOf(w, op.env) + (if reply == Noted then [op.event] else [])
            && OthersUntouched(w, w', op.env) && w' == w.(evidence := w'.evidence)
  {
  }

  /** Which recorded states count as maybe running. */
  lemma MaybeRunningIff(w: World, env: string)
    ensures RecordedMaybeRunning(w, env) <==>
            env in w.states && w.states[env].state != Terminated && w.states[env].state != Reset
  {
  }

  /** Over runs: every container start came from a call that was live, gated and free to go ahead, and its
      decision was new. */
  lemma {:induction false} EveryStartWasAllowed(calls: seq<Call>)
    ensures |After(calls).ups| <= |calls|
    ensures forall i :: 0 <= i < |calls| && After(calls[..i + 1]).ups != After(calls[..i]).ups ==>
              && calls[i].op.Activate? && ReachesLedger(After(calls[..i]), calls[i].op)
              && calls[i].op.decision !in After(calls[..i]).consumed
              && After(calls[..i + 1]).ups == After(calls[..i]).ups + [calls[i].op.decision]
  {
    hide Step;
    hide Granted;
    hide ReachesLedger;
    if calls != [] {
      var last := |calls| - 1;
      var front := calls[..last];
      EveryStartWasAllowed(front);
      forall i | 0 <= i < |calls| && After(calls[..i + 1]).ups != After(calls[..i]).ups
        ensures calls[i].op.Activate? && ReachesLedger(After(calls[..i]), calls[i].op)
        ensures calls[i].op.decision !in After(calls[..i]).consumed
        ensures After(calls[..i + 1]).ups == After(calls[..i]).ups + [calls[i].op.decision]
      {
        assert calls[..i + 1][..i] == calls[..i];
        StartWasAllowed(After(calls[..i]), calls[i]);
      }
      assert calls[..last + 1] == calls;
      StartWasAllowed(After(front), calls[last]);
    }
  }

  lemma StartWasAllowed(w: World, call: Call)
    ensures var w' := Step(w, call.op, call.luck).0;
            w'.ups != w.ups ==>
              call.op.Activate? && ReachesLedger(w, call.op) && call.op.decision !in w.consumed && w'.ups == w.ups + [call.op.decision]
  {
    if call.op.Activate? {
      ActivationStartsIff(w, call.op, call.luck);
    }
  }
}
