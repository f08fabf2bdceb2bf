/** The lifecycle and the feedback bundle together: a bundle that says an environment ended is only
    built while its container is down (`runtime/compose.py`, `runtime/mio_feedback.py`). */
module AllClear {
  import opened Common
  import opened Events
  import opened EvidenceChain
  import opened Feedback
  import opened FeedbackBundle
  import opened BundleFacts
  import opened Sessions
  import opened Lifecycle

  /** The store an adapter's world gives the feedback module for one environment. */
  function StoreOf(sc: Scheme<Event>, w: World, env: string, hasKey: bool): Store
  {
    Store(Log(sc, LogOf(w, env)), if env in w.states then Some(w.states[env]) else None, hasKey)
  }

  /** No operation ever writes "reset" as a state: reset removes the file. */
  lemma {:induction false} NeverRecordedReset(calls: seq<Call>)
    ensures forall env :: env in After(calls).states ==> After(calls).states[env].state != Reset
  {
    if calls != [] {
      NeverRecordedReset(calls[..|calls| - 1]);
      StepNeverRecordsReset(After(calls[..|calls| - 1]), calls[|calls| - 1].op, calls[|calls| - 1].luck);
    }
  }

  lemma StepNeverRecordsReset(w: World, op: Op, luck: Luck)
    requires forall env :: env in w.states ==> w.states[env].state != Reset
    ensures forall env :: env in Step(w, op, luck).0.states ==> Step(w, op, luck).0.states[env].state != Reset
  {
  }

  /** A bundle is built only where the evidence fold agrees with the state file: with a file, they
      are equal; without one, the session was reset. */
  lemma BuiltMeansAgreement(o: Outside, sc: Scheme<Event>, d: Deriver, store: Store, q: Request, b: Bundle)
    requires DerivesParts(o, sc, d)
    requires Build(o, sc, d, store, q, Intact(sc, store.lines)) == Ok(b)
    ensures SessionState(sc, store.lines, q.chain.ref) == Some(b.envState)
    ensures if store.state.Some? then store.state.value.state == b.envState else b.envState == Reset
  {
    hide LastOf;
    hide Between;
    var mech := RuntimeMechanism(q.mechanism, q.chain).value;
    var inp := Inputs(q.now, q.maxAge, Normalized(o, q.raw).value, q.objective, mech);
    assert d(store.lines, q.chain, inp, None) == Ok(b);
    assert Parts(o, sc, store.lines, q.chain.ref, inp, b);
  }

  /** No false all-clear. On every run of live adapters, with any failing compose calls, failing
      appends and kill-switch retries, a bundle that says "terminated" or "reset" is built only
      while the container is down, the fold and the state file agreeing. */
  lemma NoFalseAllClear(calls: seq<Call>, o: Outside, sc: Scheme<Event>, d: Deriver, hasKey: bool, q: Request, b: Bundle)
    requires NoBlindStop(calls) && Unshared(After(calls), q.chain.ref.env) && Project(q.chain.ref.env).Some?
    requires DerivesParts(o, sc, d) && forall t :: sc.str(Text(t)) == t
    requires Build(o, sc, d, StoreOf(sc, After(calls), q.chain.ref.env, hasKey), q, true) == Ok(b)
    requires b.envState == Terminated || b.envState == Reset
    ensures Project(q.chain.ref.env).value !in After(calls).up
    ensures b.envState == Reset <==> q.chain.ref.env !in After(calls).states
    ensures b.envState == Terminated ==> After(calls).states[q.chain.ref.env].state == Terminated
  {
    hide Build;
    hide After;
    var env := q.chain.ref.env;
    var w := After(calls);
    LogIsIntact(sc, LogOf(w, env));
    BuiltMeansAgreement(o, sc, d, StoreOf(sc, w, env, hasKey), q, b);
    NeverRecordedReset(calls);
    ContainerUpIsRecorded(calls, env, 0, Luck(Normal, Succeeds, true, true));
  }

  /** `_derive` instantiates the all-clear. */
  lemma NoFalseAllClearForDerive(calls: seq<Call>, o: Outside, sc: Scheme<Event>, hasKey: bool, q: Request)
    requires NoBlindStop(calls) && Unshared(After(calls), q.chain.ref.env) && Project(q.chain.ref.env).Some?
    requires forall t :: sc.str(Text(t)) == t
    ensures var r := Build(o, sc, Derivation(o, sc), StoreOf(sc, After(calls), q.chain.ref.env, hasKey), q, true);
            r.Ok? && (r.value.envState == Terminated || r.value.envState == Reset) ==>
              Project(q.chain.ref.env).value !in After(calls).up
  {
    hide Build;
    hide Derive;
    hide After;
    DerivationIsSound(o, sc);
    var r := Build(o, sc, Derivation(o, sc), StoreOf(sc, After(calls), q.chain.ref.env, hasKey), q, true);
    if r.Ok? && (r.value.envState == Terminated || r.value.envState == Reset) {
      NoFalseAllClear(calls, o, sc, Derivation(o, sc), hasKey, q, r.value);
    }
  }

  // ----- where projects are shared

  /** The store of a session that was activated and terminated. */
  function EndedStore(sc: Scheme<Event>, env: string): Store
  {
    Store(Log(sc, [Started(env), Ended(env)]), Some(RecordOf(env, Terminated)), true)
  }

  /** The helpers accept such a session: some request gets its bundle. */
  ghost predicate ReportsEnded(o: Outside, sc: Scheme<Event>, env: string)
  {
    exists q: Request :: q.chain.ref.env == env && Build(o, sc, Derivation(o, sc), EndedStore(sc, env), q, true).Ok?
  }

  /** Helpers that accept everything do. */
  lemma AcceptingReportsEnded(o: Outside, sc: Scheme<Event>, env: string)
    requires forall t :: sc.str(Text(t)) == t
    ensures ReportsEnded(Accepting(o), sc, env)
  {
    hide Build;
    hide Derive;
    hide Log;
    hide Interactions;
    hide Fold;
    hide Post;
    var bodies := [Started(env), Ended(env)];
    LogIsIntact(sc, bodies);
    var lines := Log(sc, bodies);
    IntactIsNumbered(sc, lines);
    assert forall j :: 0 < j < 2 ==> lines[j].record.body == Ended(env);
    EndedSelected(sc, env, lines);
    SessionIsBuilt(o, sc, bodies, env, 0);
    assert RequestAt(sc, env, 0).chain.ref.env == env;
  }

  /** What `_derive` selects of it. */
  lemma EndedSelected(sc: Scheme<Event>, env: string, lines: Lines)
    requires Intact(sc, lines) && |lines| == 2 && lines[1].Dict? && lines[1].record.body == Ended(env) && Records(lines).Some?
    ensures !Later(lines, 0, WasActivated) && Fold(Post(sc, lines, 0)) == Terminated
    ensures Interactions(Post(sc, lines, 0), ChainOf(sc, env).ref, 0, 0) == Ok(Collected([], 0))
  {
    hide Post;
    hide Fold;
    hide Interactions;
    hide Intact;
    hide Records;
    PostStep(sc, lines, 0);
    PostStep(sc, lines[..1], 0);
    assert lines[..1][..0] == [];
    EmptyPost(sc);
    OneEnded(ChainOf(sc, env).ref, lines[1].record);
  }

  lemma EmptyPost(sc: Scheme<Event>)
    ensures Records([]) == Some([]) && Post(sc, [], 0) == []
  {
  }

  lemma OneEnded(c: ChainRef, r: Record<Event>)
    requires r.body == Ended(c.env)
    ensures Fold([] + [r]) == Terminated && Interactions([] + [r], c, 0, 0) == Ok(Collected([], 0))
  {
    assert [] + [r] == [r] && [r][..0] == [];
    assert LastOf([], ResetCompleted) == None && Interactions([], c, 0, 0) == Ok(Collected([], 0));
  }

  /** Two ids of one project: the first is stopped, the second started. */
  lemma SharedProjectRun(a: string, b: string) returns (calls: seq<Call>)
    requires a != b && Project(a).Some? && Project(a) == Project(b)
    ensures NoBlindStop(calls) && Within(calls, iset{a, b})
    ensures var w := After(calls);
            && a in w.states && w.states[a] == RecordOf(a, Terminated)
            && LogOf(w, a) == [Started(a), Ended(a)] && Project(a).value in w.up
  {
    hide Project;
    var good := Luck(Normal, Succeeds, true, true);
    var c0 := Call(Activate(a, true, true, true, "d1", "p", "g", "n", 0), good);
    var c1 := Call(Terminate(a, true, true, "d2", "done", 0), good);
    var c2 := Call(Activate(b, true, true, true, "d3", "p", "g", "n", 0), good);
    calls := [c0, c1, c2];
    assert calls[..2] == [c0, c1] && calls[..1] == [c0] && [c0, c1][..1] == [c0] && calls[..0] == [] && [c0][..0] == [];
    assert After([]) == Lifecycle.START;
    var w1 := Step(Lifecycle.START, c0.op, good).0;
    assert After([c0]) == w1;
    var w2 := Step(w1, c1.op, good).0;
    assert After([c0, c1]) == w2;
    assert After(calls) == Step(w2, c2.op, good).0;
  }

  /** A bundle of this environment, built after this run, does not say it ended while its container is up. */
  ghost predicate NotFalse(calls: seq<Call>, o: Outside, sc: Scheme<Event>, q: Request)
  {
    var env := q.chain.ref.env;
    var r := Build(o, sc, Derivation(o, sc), StoreOf(sc, After(calls), env, true), q, true);
    r.Ok? && (r.value.envState == Terminated || r.value.envState == Reset) && Project(env).Some? ==>
      Project(env).value !in After(calls).up
  }

  /** Exactly for which sets of environments there is no false all-clear: given helpers that accept an
      ended session, on every run over them whose stops are live, and for every request, if and only
      if no two have one Compose project. */
  lemma NoFalseAllClearIffProjectsDiffer(envs: iset<string>, o: Outside, sc: Scheme<Event>)
    requires forall t :: sc.str(Text(t)) == t
    requires forall env :: env in envs && Project(env).Some? ==> ReportsEnded(o, sc, env)
    ensures (forall calls, q: Request :: NoBlindStop(calls) && Within(calls, envs) && q.chain.ref.env in envs ==>
               NotFalse(calls, o, sc, q))
            <==> ProjectsDiffer(envs)
  {
    hide NotFalse;
    hide NoBlindStop;
    hide Project;
    hide ReportsEnded;
    if ProjectsDiffer(envs) {
      forall calls, q: Request | NoBlindStop(calls) && Within(calls, envs) && q.chain.ref.env in envs
        ensures NotFalse(calls, o, sc, q)
      {
        DifferingIsNotFalse(envs, calls, o, sc, q);
      }
    } else {
      var a, b :| a in envs && b in envs && Project(a).Some? && Project(a) == Project(b) && a != b;
      var calls := SharedProjectRun(a, b);
      var q := SharedIsFalse(calls, a, o, sc);
      assert Within(calls, envs);
    }
  }

  lemma DifferingIsNotFalse(envs: iset<string>, calls: seq<Call>, o: Outside, sc: Scheme<Event>, q: Request)
    requires NoBlindStop(calls) && Within(calls, envs) && q.chain.ref.env in envs && ProjectsDiffer(envs)
    requires forall t :: sc.str(Text(t)) == t
    ensures NotFalse(calls, o, sc, q)
  {
    hide Build;
    hide After;
    hide Project;
    OnlyTheseRecorded(calls, envs);
    if Project(q.chain.ref.env).Some? {
      NoFalseAllClearForDerive(calls, o, sc, true, q);
    }
  }

  lemma SharedIsFalse(calls: seq<Call>, a: string, o: Outside, sc: Scheme<Event>) returns (q: Request)
    requires Project(a).Some? && a in After(calls).states && After(calls).states[a] == RecordOf(a, Terminated)
    requires LogOf(After(calls), a) == [Started(a), Ended(a)] && Project(a).value in After(calls).up
    requires ReportsEnded(o, sc, a) && forall t :: sc.str(Text(t)) == t
    ensures q.chain.ref.env == a && !NotFalse(calls, o, sc, q)
  {
    hide Build;
    hide After;
    hide Project;
    hide Log;
    hide Derive;
    q :| q.chain.ref.env == a && Build(o, sc, Derivation(o, sc), EndedStore(sc, a), q, true).Ok?;
    LogIsIntact(sc, [Started(a), Ended(a)]);
    DerivationIsSound(o, sc);
    BuiltMeansAgreement(o, sc, Derivation(o, sc), EndedStore(sc, a), q,
                        Build(o, sc, Derivation(o, sc), EndedStore(sc, a), q, true).value);
  }
}
