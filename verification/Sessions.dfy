/** Sessions written out in full, and the requests that get a bundle for them: examples of what the
    derivation gives when every helper outside it accepts. */
module Sessions {
  import opened Common
  import opened Events
  import opened EvidenceChain
  import opened Feedback
  import opened FeedbackBundle
  import opened BundleFacts

  /** Helpers that accept whatever they are given, keeping the digest and the MAC. */
  function Accepting(o: Outside): Outside
  {
    o.(names := s => Some(s), refs := s => Some(s), surfaceMapOk := _ => true, terrain := _ => Ok(None),
       observe := _ => Some(""), envelope := _ => Some(""), isClean := _ => true)
  }

  const TELEMETRY := Declared(["t"], ["t"], [], [], map[])
  const LEASE := 1000

  function Started(env: string): Event
  {
    Lifecycle(WasActivated, env, "d1", "", 0)
  }

  function Ended(env: string): Event
  {
    Lifecycle(WasTerminated, env, "d2", "done", 0)
  }

  /** The chain of a session that the first record of the log started. */
  function ChainOf(sc: Scheme<Event>, env: string): ReferenceChain
  {
    var session := "session:" + sc.hash(Started(env), Int(0), Text(""));
    ReferenceChain(ChainRef("o", [], "f", "d1", "", 0, LEASE, "", "", env, "p", "g", "n", session, 0, "", true),
                   Some(Effect("", "", LEASE)))
  }

  function RequestAt(sc: Scheme<Event>, env: string, now: int): Request
  {
    Request(ChainOf(sc, env), now, 0, TELEMETRY, NotSupplied, None)
  }

  function RecordOf(env: string, state: EnvState): StateRecord
  {
    StateRecord(env, state, "p", "g", "n", "d1")
  }

  lemma FirstLine(sc: Scheme<Event>, bodies: seq<Event>)
    requires bodies != []
    ensures Log(sc, bodies)[0] == Dict(Sealed(sc, bodies[0], 0, ""))
  {
    LogOfExtension(sc, [bodies[0]], bodies[1..]);
    assert [bodies[0]] + bodies[1..] == bodies && [bodies[0]][..0] == [];
    assert Log(sc, [bodies[0]])[0] == Dict(Sealed(sc, bodies[0], 0, ""));
  }

  /** With helpers that accept, the bundle of such a session is built: at any time of its lease, from
      any later records that keep the rules, and with the state file in agreement. */
  lemma SessionIsBuilt(o: Outside, sc: Scheme<Event>, bodies: seq<Event>, env: string, now: int)
    requires forall t :: sc.str(Text(t)) == t
    requires bodies != [] && bodies[0] == Started(env) && 0 <= now < LEASE
    requires Intact(sc, Log(sc, bodies)) && !Later(Log(sc, bodies), 0, WasActivated) && Records(Log(sc, bodies)).Some?
    requires Interactions(Post(sc, Log(sc, bodies), 0), ChainOf(sc, env).ref, 0, now).Ok?
    ensures var lines := Log(sc, bodies);
            var store := Store(lines, Some(RecordOf(env, Fold(Post(sc, lines, 0)))), true);
            Build(Accepting(o), sc, Derivation(Accepting(o), sc), store, RequestAt(sc, env, now), true).Ok?
  {
    hide Interactions;
    hide Post;
    hide Fold;
    hide Later;
    hide Log;
    hide Intact;
    hide Records;
    hide Derive;
    hide Assemble;
    hide Build;
    var lines := Log(sc, bodies);
    var chain := ChainOf(sc, env);
    var inp := Inputs(now, 0, TELEMETRY, None, None);
    FirstLine(sc, bodies);
    var post := Post(sc, lines, 0);
    var got := Interactions(post, chain.ref, 0, now).value;
    DeriveAssembles(Accepting(o), sc, lines, chain, inp);
    CollectedInTime(post, chain.ref, 0, now);
    SessionIsAssembled(o, sc, chain, inp, lines[0].record, post, got, HashText(sc, lines[|lines| - 1].record), Drifts(post));
    DerivedIsBuilt(o, sc, lines, env, now, Fold(post));
  }

  lemma DerivedIsBuilt(o: Outside, sc: Scheme<Event>, lines: Lines, env: string, now: int, state: EnvState)
    requires var r := Derivation(Accepting(o), sc)(lines, ChainOf(sc, env), Inputs(now, 0, TELEMETRY, None, None), None);
             r.Ok? && r.value.envState == state
    ensures Build(Accepting(o), sc, Derivation(Accepting(o), sc), Store(lines, Some(RecordOf(env, state)), true),
                  RequestAt(sc, env, now), true).Ok?
  {
    hide Derive;
    assert RuntimeMechanism(NotSupplied, ChainOf(sc, env)) == Ok(None);
    assert Normalized(Accepting(o), TELEMETRY) == Ok(TELEMETRY);
  }

  lemma {:induction false} CollectedInTime(post: seq<Record<Event>>, c: ChainRef, start: int, now: int)
    requires Interactions(post, c, start, now).Ok?
    ensures forall i :: 0 <= i < |Interactions(post, c, start, now).value.items| ==>
              Interactions(post, c, start, now).value.items[i].at <= now + CLOCK_SKEW
  {
    if post != [] {
      CollectedInTime(post[..|post| - 1], c, start, now);
    }
  }

  lemma SessionIsAssembled(o: Outside, sc: Scheme<Event>, chain: ReferenceChain, inp: Inputs, first: Record<Event>,
                           post: seq<Record<Event>>, got: Collected, head: string, drifts: nat)
    requires chain.effect == Some(Effect("", "", LEASE)) && chain.ref.leaseStart == 0
    requires 0 <= inp.now < LEASE && inp == Inputs(inp.now, 0, TELEMETRY, None, None) && EventAt(first.body) == 0
    requires forall i :: 0 <= i < |got.items| ==> got.items[i].at <= inp.now + CLOCK_SKEW
    ensures var r := Assemble(Accepting(o), sc, chain, inp, first, post, got, head, drifts);
            r.Ok? && r.value.envState == Fold(post)
  {
    hide Fold;
    hide Anchor;
    hide LimitationsOf;
    hide CoverageOf;
    hide EffectStatusOf;
    var items := if |got.items| > MAX_INTERACTIONS then got.items[..MAX_INTERACTIONS] else got.items;
    AnchorIsNewest(0, items);
    assert TerrainOf(Accepting(o), sc, chain, inp, 0, post, head) == Ok(None);
  }
}
