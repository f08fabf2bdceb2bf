/** Which refusal a derivation, a build or a verification gives: that of the first thing out of order, in
    the source's order. */
module Refusals {
  import opened Common
  import opened Events
  import opened EvidenceChain
  import opened Feedback
  import opened FeedbackBundle
  import opened BundleFacts
  import opened BundleContents
  import opened BundleAcceptance

  // ----- deriving

  /** The bound contacts after the activation are valid, small, in time and have ids of their own. */
  ghost predicate ContactsInOrder(lines: Lines, chain: ReferenceChain, now: int)
    requires chain.ref.generation < |lines| && lines[chain.ref.generation].Dict?
  {
    && NothingBad(lines, chain.ref.generation)
    && InOrder(BoundAfter(lines, chain.ref.generation, chain.ref), EventAt(lines[chain.ref.generation].record.body), now)
  }

  /** Before anything is assembled: no effect, no evidence, no such session or a later activation, a contact
      out of order, evidence from the future, a lease yet to open, in this order. */
  lemma EarlyRefusals(o: Outside, sc: Scheme<Event>, lines: Lines, chain: ReferenceChain, inp: Inputs)
    requires Intact(sc, lines)
    ensures var r := Derive(o, sc, lines, chain, inp, None);
            var c := chain.ref;
            && (chain.effect.None? ==> r == Err(EffectRejected))
            && (chain.effect.Some? && lines == [] ==> r == Err(EvidenceTampered))
            && (chain.effect.Some? && lines != [] && !StartShown(sc, lines, c) ==> r == Err(SessionMismatch))
            && (chain.effect.Some? && StartShown(sc, lines, c) ==>
                  && (!ContactsInOrder(lines, chain, inp.now) ==> r == Err(EvidenceTampered))
                  && (ContactsInOrder(lines, chain, inp.now) ==> forall state, newest ::
                        StateShown(lines, c.generation, state)
                        && IsLatest(newest, EventAt(lines[c.generation].record.body), KeptAfter(lines, c.generation, c)) ==>
                          && (newest > inp.now + CLOCK_SKEW ==> r == Err(Stale))
                          && (newest <= inp.now + CLOCK_SKEW && state == Active && inp.now < c.leaseStart ==> r == Err(LeaseNotStarted))))
  {
    hide Intact;
    hide Post;
    hide Interactions;
    hide Assemble;
    hide StartShown;
    hide NothingBad;
    hide InOrder;
    hide Records;
    hide StateShown;
    hide IsLatest;
    hide BoundAfter;
    hide KeptAfter;
    LastIsThere(sc, lines);
    SessionAtIsStartShown(sc, lines, chain.ref);
    if chain.effect.Some? && lines == [] {
      NothingToDerive(o, sc, chain, inp);
    }
    if chain.effect.Some? && lines != [] && !StartShown(sc, lines, chain.ref) {
      DeriveSteps(o, sc, lines, chain, inp);
    }
    if chain.effect.Some? && StartShown(sc, lines, chain.ref) {
      StartIsThere(sc, lines, chain.ref);
      var start := EventAt(lines[chain.ref.generation].record.body);
      CollectsIff(sc, lines, chain.ref.generation, chain.ref, start, inp.now);
      if ContactsInOrder(lines, chain, inp.now) {
        DeriveAssembles(o, sc, lines, chain, inp);
        var post := Post(sc, lines, chain.ref.generation);
        var got := Interactions(post, chain.ref, start, inp.now).value;
        var b := AssembleTells(o, sc, chain, inp, lines[chain.ref.generation].record, post, got,
                               HashText(sc, lines[|lines| - 1].record), Drifts(post));
        NothingIsLost(sc, lines, chain.ref.generation, chain.ref, start, inp.now);
        KeptIs(lines, chain.ref.generation, chain.ref, got);
        forall state, newest | StateShown(lines, chain.ref.generation, state)
                               && IsLatest(newest, start, KeptAfter(lines, chain.ref.generation, chain.ref))
          ensures state == Fold(post) && newest == Anchor(start, KeptOf(got))
        {
          StateIff(sc, lines, chain.ref.generation, state);
          LatestIff(newest, start, KeptAfter(lines, chain.ref.generation, chain.ref));
        }
      } else {
        DeriveSteps(o, sc, lines, chain, inp);
      }
    }
  }

  lemma NoEffectRefused(o: Outside, sc: Scheme<Event>, lines: Lines, chain: ReferenceChain, inp: Inputs, upto: Option<int>)
    requires chain.effect.None?
    ensures Derive(o, sc, lines, chain, inp, upto) == Err(EffectRejected)
  {
  }

  lemma NothingToDerive(o: Outside, sc: Scheme<Event>, chain: ReferenceChain, inp: Inputs)
    requires chain.effect.Some?
    ensures Derive(o, sc, [], chain, inp, None) == Err(EvidenceTampered)
  {
  }

  lemma DeriveSteps(o: Outside, sc: Scheme<Event>, lines: Lines, chain: ReferenceChain, inp: Inputs)
    requires Intact(sc, lines) && chain.effect.Some? && lines != []
    ensures Records(lines).Some?
    ensures !SessionAt(sc, lines, chain.ref) ==> Derive(o, sc, lines, chain, inp, None) == Err(SessionMismatch)
    ensures SessionAt(sc, lines, chain.ref) ==>
              var got := Interactions(Post(sc, lines, chain.ref.generation), chain.ref,
                                      EventAt(lines[chain.ref.generation].record.body), inp.now);
              got.Err? ==> Derive(o, sc, lines, chain, inp, None) == Err(got.error)
  {
    hide Assemble;
    hide Interactions;
    IntactIsNumbered(sc, lines);
    RecordsAreLines(lines);
    var all := Records(lines).value;
    NoBounds(sc, all);
    WithSeqIsAt(sc, all, 0, chain.ref.generation);
    HasIffLater(sc, lines, chain.ref.generation, WasActivated);
  }

  ghost function KeptOf(got: Collected): seq<Observation>
  {
    if |got.items| > MAX_INTERACTIONS then got.items[..MAX_INTERACTIONS] else got.items
  }

  lemma KeptIs(lines: Lines, g: int, c: ChainRef, got: Collected)
    requires got.items == BoundAfter(lines, g, c)
    ensures KeptOf(got) == KeptAfter(lines, g, c)
  {
  }

  /** The bundle these parts make, with whatever effect observation and envelope the helpers grant. */
  function Draft(o: Outside, sc: Scheme<Event>, chain: ReferenceChain, inp: Inputs, activated: Record<Event>, env: EnvState,
                 status: Option<EffectStatus>, got: Collected, terr: Option<string>, head: string, drifts: nat): Bundle
    requires chain.effect.Some?
  {
    var c := chain.ref;
    var items := if |got.items| > MAX_INTERACTIONS then got.items[..MAX_INTERACTIONS] else got.items;
    var anchor := Anchor(EventAt(activated.body), items);
    var age := Max(0, inp.now - anchor);
    var gaps := Missing(inp.declared.expected, inp.declared.observed);
    var limits := LimitationsOf(c, inp, env, items, |got.items| > MAX_INTERACTIONS, got.unbound, gaps,
                                age <= inp.maxAge, drifts > 0, terr.Some?);
    var obs := if status.None? then None
               else o.observe(EffectArgs(chain.effect.value, status.value, inp.now, inp.mech, head, limits));
    var content := o.envelope(EnvelopeArgs(chain, terr, obs, inp.declared, gaps, Tags(items), |items|, drifts, head, inp.now));
    Bundle(c, inp.declared, o.mac(c.env, c.generation, inp.declared), env, obs, terr, inp.mech,
           HashText(sc, activated), items, |got.items| > MAX_INTERACTIONS, CoverageOf(inp.objective, items, inp.declared),
           Outcome(inp.now, gaps, if content.Some? then content.value else ""),
           Freshness(anchor, age, inp.maxAge, age <= inp.maxAge, items != []),
           if drifts > 0 then DriftSeen else if inp.declared.assertions != [] then Asserted else Unknown,
           drifts, limits, head)
  }

  lemma DraftHasParts(o: Outside, sc: Scheme<Event>, chain: ReferenceChain, inp: Inputs, activated: Record<Event>,
                      post: seq<Record<Event>>, got: Collected, terr: Option<string>, head: string, drifts: nat)
    requires chain.effect.Some?
    requires Anchor(EventAt(activated.body), KeptOf(got)) <= inp.now + CLOCK_SKEW
    requires Fold(post) == Active ==> chain.ref.leaseStart <= inp.now
    requires TerrainOf(o, sc, chain, inp, EventAt(activated.body), post, head) == Ok(terr)
    ensures AssembledParts(o, sc, chain, inp, activated, post, got, head, drifts,
                           Draft(o, sc, chain, inp, activated, Fold(post), DueStatus(chain.ref, inp, post, drifts), got, terr, head, drifts))
  {
    hide Fold;
    hide Anchor;
    hide CoverageOf;
    hide Missing;
    hide Tags;
    hide TerrainOf;
    hide EffectStatusOf;
    hide HashText;
    hide EventAt;
    hide LimitationsOf;
    hide LimitationsShown;
    hide DueStatus;
    var b := Draft(o, sc, chain, inp, activated, Fold(post), DueStatus(chain.ref, inp, post, drifts), got, terr, head, drifts);
    LimitationsIff(b, chain.ref, inp, got.unbound);
  }

  /** What assembling gives, case by case; `b` is what it assembles once the times and the terrain are in order. */
  lemma AssembleTells(o: Outside, sc: Scheme<Event>, chain: ReferenceChain, inp: Inputs, activated: Record<Event>,
                      post: seq<Record<Event>>, got: Collected, head: string, drifts: nat) returns (b: Bundle)
    requires chain.effect.Some?
    ensures var r := Assemble(o, sc, chain, inp, activated, post, got, head, drifts);
            var c, start := chain.ref, EventAt(activated.body);
            var newest := Anchor(start, KeptOf(got));
            var terrain := TerrainOf(o, sc, chain, inp, start, post, head);
            var early := Fold(post) == Active && inp.now < c.leaseStart;
            && (newest > inp.now + CLOCK_SKEW ==> r == Err(Stale))
            && (newest <= inp.now + CLOCK_SKEW && early ==> r == Err(LeaseNotStarted))
            && (newest <= inp.now + CLOCK_SKEW && !early && terrain.Err? ==> r == Err(terrain.error))
            && (newest <= inp.now + CLOCK_SKEW && !early && terrain.Ok? ==>
                  AssembledParts(o, sc, chain, inp, activated, post, got, head, drifts, b)
                  && HelpersTell(o, chain, inp, DueStatus(c, inp, post, drifts), Tags(b.interactions), b, r))
  {
    hide Fold;
    hide Anchor;
    hide CoverageOf;
    hide Missing;
    hide Tags;
    hide TerrainOf;
    hide EffectStatusOf;
    hide HashText;
    hide EventAt;
    hide LimitationsOf;
    hide LimitationsShown;
    hide AssembledParts;
    var terrain := TerrainOf(o, sc, chain, inp, EventAt(activated.body), post, head);
    var terr := if terrain.Ok? then terrain.value else None;
    b := Draft(o, sc, chain, inp, activated, Fold(post), DueStatus(chain.ref, inp, post, drifts), got, terr, head, drifts);
    if terrain.Ok? && Anchor(EventAt(activated.body), KeptOf(got)) <= inp.now + CLOCK_SKEW
       && (Fold(post) == Active ==> chain.ref.leaseStart <= inp.now) {
      DraftHasParts(o, sc, chain, inp, activated, post, got, terr, head, drifts);
    }
  }

  /** What the helpers make of an assembled bundle: an effect observation, then an envelope, then a clean whole. */
  ghost predicate HelpersTell(o: Outside, chain: ReferenceChain, inp: Inputs, status: Option<EffectStatus>, tags: set<string>,
                              b: Bundle, r: Result<Bundle, Code>)
    requires chain.effect.Some?
  {
    var observed := if status.None? then None
                    else o.observe(EffectArgs(chain.effect.value, status.value, inp.now, inp.mech, b.head, b.limitations));
    var refused := if status.None? then inp.now > chain.effect.value.expiresAt else observed.None?;
    var content := o.envelope(EnvelopeArgs(chain, b.terrain, observed, inp.declared, b.outcome.gaps, tags,
                                           |b.interactions|, b.driftCount, b.head, inp.now));
    && b.effectObservation == observed && (content.Some? ==> b.outcome.content == content.value)
    && r == if refused then Err(EffectRejected)
            else if content.None? then Err(EffectDecisionMismatch)
            else if !o.isClean(b) then Err(EvidenceTampered)
            else Ok(b)
  }

  /** After that: the terrain's refusal, then the effect's, then the envelope's, and at last a whole that is
      not clean; and otherwise the bundle. */
  lemma LateRefusals(o: Outside, sc: Scheme<Event>, lines: Lines, chain: ReferenceChain, inp: Inputs, state: EnvState, newest: int)
    returns (b: Bundle)
    requires Intact(sc, lines) && chain.effect.Some? && ReadyAt(sc, lines, chain, inp, state, newest)
    ensures var r := Derive(o, sc, lines, chain, inp, None);
            var head := sc.str(lines[|lines| - 1].record.hashField);
            && (forall code :: TerrainShown(o, sc, lines, chain, inp, state, head, Err(code)) ==> r == Err(code))
            && ((exists terrain :: TerrainShown(o, sc, lines, chain, inp, state, head, Ok(terrain))) ==>
                  && PartsShown(o, sc, lines, chain, inp, b)
                  && exists status, tags ::
                       && StatusShown(lines, chain.ref, inp.now, status) && AreTags(tags, b.interactions)
                       && HelpersTell(o, chain, inp, status, tags, b, r))
  {
    hide Intact;
    hide Post;
    hide Interactions;
    hide Assemble;
    hide StartShown;
    hide NothingBad;
    hide InOrder;
    hide Records;
    hide StateShown;
    hide IsLatest;
    hide BoundAfter;
    hide KeptAfter;
    hide TerrainShown;
    hide TerrainOf;
    hide AssembledParts;
    hide PartsShown;
    hide StatusShown;
    hide HelpersTell;
    hide Fold;
    hide Anchor;
    var c, g := chain.ref, chain.ref.generation;
    LastIsThere(sc, lines);
    StartIsThere(sc, lines, c);
    SessionAtIsStartShown(sc, lines, c);
    var start := EventAt(lines[g].record.body);
    CollectsIff(sc, lines, g, c, start, inp.now);
    DeriveAssembles(o, sc, lines, chain, inp);
    var post := Post(sc, lines, g);
    var got := Interactions(post, c, start, inp.now).value;
    var head := HashText(sc, lines[|lines| - 1].record);
    b := AssembleTells(o, sc, chain, inp, lines[g].record, post, got, head, Drifts(post));
    NothingIsLost(sc, lines, g, c, start, inp.now);
    KeptIs(lines, g, c, got);
    StateIff(sc, lines, g, state);
    LatestIff(newest, start, KeptAfter(lines, g, c));
    TerrainIsShown(o, sc, lines, chain, inp, head);
    var terrain := TerrainOf(o, sc, chain, inp, start, post, head);
    forall t | TerrainShown(o, sc, lines, chain, inp, state, head, t)
      ensures t == terrain
    {
      TerrainUnique(o, sc, lines, chain, inp, state, head, t, terrain);
    }
    if terrain.Ok? {
      PartsIff(o, sc, lines, chain, inp, b);
      StatusIsShown(sc, lines, c, inp.now);
      assert AreTags(Tags(b.interactions), b.interactions);
      assert HelpersTell(o, chain, inp, DueStatus(c, inp, post, Drifts(post)), Tags(b.interactions), b, Derive(o, sc, lines, chain, inp, None));
    }
  }

  // ----- building

  /** What a request's declarations come to, or the first refusal. */
  ghost predicate DeclaredRefused(o: Outside, raw: Declared, code: Code)
  {
    var named := o.names(raw.expected).Some? && o.names(raw.observed).Some?;
    var referred := o.refs(raw.assertions).Some? && o.refs(raw.surfaces).Some?;
    || (!named && code == TelemetryMissing)
    || (named && !referred && code == BadArgument)
    || (named && referred && !o.surfaceMapOk(raw.surfaceTelemetry) && code == TelemetryMissing)
  }

  lemma DeclaredRefusedIff(o: Outside, raw: Declared, code: Code)
    ensures Normalized(o, raw) == Err(code) <==> DeclaredRefused(o, raw, code)
  {
  }

  /** What mechanism evidence is refused with: what cannot be read, or is of another trace or decision. */
  ghost predicate MechanismRefused(given: Supplied, chain: ReferenceChain, code: Code)
  {
    || (given.Unparsable? && code == EffectRejected)
    || (given.Parsed? && !MechanismFits(given, chain, Some(given.mech)) && code == EffectDecisionMismatch)
  }

  lemma MechanismRefusedIff(given: Supplied, chain: ReferenceChain, code: Code)
    ensures RuntimeMechanism(given, chain) == Err(code) <==> MechanismRefused(given, chain, code)
  {
  }

  /** How many of the checks before the derivation a request passes in a row: names, an expected name,
      the evidence, the state file's identity or a reset on record, the objective, the mechanism, and
      the declarations; 7 is all of them. */
  ghost function RequestChecks(o: Outside, sc: Scheme<Event>, store: Store, q: Request): nat
  {
    var c := q.chain.ref;
    if o.names(q.raw.expected).None? || o.names(q.raw.observed).None? then 0
    else if o.names(q.raw.expected) == Some([]) then 1
    else if !Intact(sc, store.lines) then 2
    else if (if store.state.Some? then !IsOwnState(store.state.value, c) else !Later(store.lines, c.generation, ResetCompleted)) then 3
    else if q.objective.Some? && o.digest(q.objective.value) != c.objectiveDigest then 4
    else if exists code :: MechanismRefused(q.mechanism, q.chain, code) then 5
    else if exists code :: DeclaredRefused(o, q.raw, code) then 6
    else 7
  }

  /** A request is refused with the first of its checks that fails, then with what the derivation of the
      whole log is refused with, and at last because the state file says another state. */
  lemma BuildRefusals(o: Outside, sc: Scheme<Event>, store: Store, q: Request)
    ensures var r := Build(o, sc, Derivation(o, sc), store, q, Intact(sc, store.lines));
            var n := RequestChecks(o, sc, store, q);
            && (n == 0 || n == 1 ==> r == Err(TelemetryMissing))
            && (n == 2 ==> r == Err(EvidenceTampered))
            && (n == 3 && store.state.Some? ==> r == Err(IdentityProblem(store.state.value, q.chain.ref).value))
            && (n == 3 && store.state.None? ==> r == Err(SessionMismatch))
            && (n == 4 ==> r == Err(DecisionMismatch))
            && (n == 5 ==> forall code :: MechanismRefused(q.mechanism, q.chain, code) ==> r == Err(code))
            && (n == 6 ==> forall code :: DeclaredRefused(o, q.raw, code) ==> r == Err(code))
            && (n == 7 ==> forall declared, mech :: DeclaredAs(o, q.raw, declared) && MechanismFits(q.mechanism, q.chain, mech) ==>
                  var derived := Derive(o, sc, store.lines, q.chain, Inputs(q.now, q.maxAge, declared, q.objective, mech), None);
                  && (derived.Err? ==> r == derived)
                  && (derived.Ok? ==> r == if store.state.Some? && store.state.value.state != derived.value.envState
                                           then Err(EvidenceTampered) else derived))
  {
    hide Derive;
    hide Intact;
    hide Has;
    hide Between;
    hide Later;
    hide IsOwnState;
    hide IdentityProblem;
    hide RuntimeMechanism;
    hide MechanismFits;
    hide MechanismRefused;
    hide Normalized;
    hide DeclaredRefused;
    hide DeclaredAs;
    var c := q.chain.ref;
    if Intact(sc, store.lines) {
      HasIffLater(sc, store.lines, c.generation, ResetCompleted);
    }
    if store.state.Some? {
      IdentityIff(store.state.value, c);
    }
    forall code
      ensures MechanismRefused(q.mechanism, q.chain, code) <==> RuntimeMechanism(q.mechanism, q.chain) == Err(code)
      ensures DeclaredRefused(o, q.raw, code) <==> Normalized(o, q.raw) == Err(code)
    {
      MechanismRefusedIff(q.mechanism, q.chain, code);
      DeclaredRefusedIff(o, q.raw, code);
    }
    forall mech
      ensures MechanismFits(q.mechanism, q.chain, mech) <==> RuntimeMechanism(q.mechanism, q.chain) == Ok(mech)
    {
      MechanismIff(q.mechanism, q.chain, mech);
    }
    forall declared
      ensures DeclaredAs(o, q.raw, declared) <==> Normalized(o, q.raw) == Ok(declared)
    {
      NormalizedIff(o, q.raw, declared);
    }
  }

  // ----- verifying

  /** How many of the checks before the derivation a bundle passes in a row: the chain, the contacts, the
      evidence, a head that is in it, the last one unless an audit asks for less of a bundle that claims
      nothing live, the declarations' seal, the objective, a mechanism where the bundle has one, one that
      fits, and the declarations; 10 is all of them. */
  ghost function BundleChecks(o: Outside, sc: Scheme<Event>, store: Store, b: Bundle, chain: ReferenceChain,
                              mechanism: Supplied, historical: bool): nat
  {
    var c := chain.ref;
    if b.chain != c then 0
    else if !OwnContacts(b, c) then 1
    else if !Intact(sc, store.lines) || b.head == "" then 2
    else if forall k: nat :: !HeadBefore(sc, store.lines, b, k) then 3
    else if !HeadBefore(sc, store.lines, b, |store.lines|) && (!historical || SaysLive(b)) then 4
    else if !store.hasKey || b.mac != o.mac(c.env, c.generation, b.declared) then 5
    else if b.coverage.evaluated && o.digest(RebuiltObjective(b, c).value) != c.objectiveDigest then 6
    else if b.mech.Some? && mechanism.NotSupplied? then 7
    else if exists code :: MechanismRefused(mechanism, chain, code) then 8
    else if exists code :: DeclaredRefused(o, b.declared, code) then 9
    else 10
  }

  /** What rebuilding decides: its own refusal, another bundle, or the moment of verification. */
  ghost predicate RebuiltVerdict(o: Outside, sc: Scheme<Event>, store: Store, b: Bundle, chain: ReferenceChain, now: int, maxAge: int,
                                 mechanism: Supplied, historical: bool, k: nat, declared: Declared, mech: Option<Mechanism>)
  {
    var v := Verify(o, sc, Derivation(o, sc), store, b, chain, now, maxAge, mechanism, historical, Intact(sc, store.lines));
    var inp := Inputs(b.outcome.observedAt, b.freshness.maxAge, declared, RebuiltObjective(b, chain.ref), mech);
    && 0 < k <= |store.lines| && Records(store.lines).Some?
    && var rebuilt := Derive(o, sc, store.lines[..k], chain, inp, None);
    && (rebuilt.Err? ==> v == RefusedWith(rebuilt.error))
    && (rebuilt.Ok? && rebuilt.value != b ==> v == RefusedWith(EvidenceTampered))
    && (rebuilt == Ok(b) ==> v == TimeVerdict(sc, Records(store.lines).value, b, chain.ref, now, maxAge))
  }

  /** A bundle is refused with the first of its checks that fails, then with what rebuilding it from the log
      up to its head is refused with, then because what was rebuilt is another bundle, and at last for
      the moment it is verified at. */
  lemma VerifyRefusals(o: Outside, sc: Scheme<Event>, store: Store, b: Bundle, chain: ReferenceChain, now: int, maxAge: int,
                       mechanism: Supplied, historical: bool)
    requires EvidenceChain.Lawful(sc)
    ensures var v := Verify(o, sc, Derivation(o, sc), store, b, chain, now, maxAge, mechanism, historical, Intact(sc, store.lines));
            var n := BundleChecks(o, sc, store, b, chain, mechanism, historical);
            && (n == 0 ==> v == RefusedWith(ChainProblem(b.chain, chain.ref).value))
            && (n == 1 ==> InteractionProblem(b.interactions, chain.ref).Some?
                           && v == RefusedWith(InteractionProblem(b.interactions, chain.ref).value))
            && (n == 2 || n == 3 || n == 5 || n == 7 ==> v == RefusedWith(EvidenceTampered))
            && (n == 4 ==> v == RefusedWith(Stale))
            && (n == 6 ==> v == RefusedWith(DecisionMismatch))
            && (n == 8 ==> forall code :: MechanismRefused(mechanism, chain, code) ==> v == RefusedWith(code))
            && (n == 9 ==> forall code :: DeclaredRefused(o, b.declared, code) ==>
                  v == RefusedWith(if code == BadArgument then EvidenceTampered else code))
            && (n == 10 ==> forall k: nat, declared, mech ::
                  HeadBefore(sc, store.lines, b, k) && DeclaredAs(o, b.declared, declared) && MechanismFits(mechanism, chain, mech) ==>
                  RebuiltVerdict(o, sc, store, b, chain, now, maxAge, mechanism, historical, k, declared, mech))
  {
    hide Verify;
    hide RebuiltVerdict;
    hide ChainProblem;
    hide InteractionProblem;
    hide MechanismRefused;
    hide DeclaredRefused;
    hide DeclaredAs;
    hide MechanismFits;
    hide HeadBefore;
    hide BundleChecks;
    hide Intact;
    EarlyVerifyRefusals(o, sc, store, b, chain, now, maxAge, mechanism, historical);
    if BundleChecks(o, sc, store, b, chain, mechanism, historical) >= 8 {
      LateVerifyRefusals(o, sc, store, b, chain, now, maxAge, mechanism, historical);
    }
  }

  lemma EarlyVerifyRefusals(o: Outside, sc: Scheme<Event>, store: Store, b: Bundle, chain: ReferenceChain, now: int, maxAge: int,
                            mechanism: Supplied, historical: bool)
    requires EvidenceChain.Lawful(sc)
    ensures var v := Verify(o, sc, Derivation(o, sc), store, b, chain, now, maxAge, mechanism, historical, Intact(sc, store.lines));
            var n := BundleChecks(o, sc, store, b, chain, mechanism, historical);
            && (n == 0 ==> v == RefusedWith(ChainProblem(b.chain, chain.ref).value))
            && (n == 1 ==> InteractionProblem(b.interactions, chain.ref).Some?
                           && v == RefusedWith(InteractionProblem(b.interactions, chain.ref).value))
            && (n == 2 || n == 3 || n == 5 || n == 7 ==> v == RefusedWith(EvidenceTampered))
            && (n == 4 ==> v == RefusedWith(Stale))
            && (n == 6 ==> v == RefusedWith(DecisionMismatch))
            && n <= 10
  {
    hide Derive;
    hide Intact;
    hide HeadBefore;
    hide TimeVerdict;
    hide ChainProblem;
    hide InteractionProblem;
    hide OwnContacts;
    hide Records;
    hide HeadHash;
    hide WithHash;
    hide RuntimeMechanism;
    hide MechanismRefused;
    hide Normalized;
    hide DeclaredRefused;
    ChainRefusalTells(b.chain, chain.ref);
    OwnContactsIff(b, chain.ref);
    if Intact(sc, store.lines) && b.head != "" {
      HeadFound(sc, store.lines, b);
    }
  }

  /** What is left to check once the bundle's evidence and seal are in order. */
  ghost predicate OnlyRebuilding(o: Outside, sc: Scheme<Event>, store: Store, b: Bundle, chain: ReferenceChain, now: int, maxAge: int,
                                 mechanism: Supplied, historical: bool)
  {
    var c := chain.ref;
    Intact(sc, store.lines) && b.head != "" && (exists k: nat :: HeadBefore(sc, store.lines, b, k))
    && Records(store.lines).Some? && WithHash(sc, Records(store.lines).value, b.head).Some?
    && Verify(o, sc, Derivation(o, sc), store, b, chain, now, maxAge, mechanism, historical, Intact(sc, store.lines)) ==
       match RuntimeMechanism(mechanism, chain)
       case Err(code) => RefusedWith(code)
       case Ok(mech) =>
         match Normalized(o, b.declared)
         case Err(code) => RefusedWith(if code == BadArgument then EvidenceTampered else code)
         case Ok(declared) =>
           match Derive(o, sc, store.lines, chain, InputsOf(b, declared, RebuiltObjective(b, c), mech),
                        Some(SeqNo(sc, WithHash(sc, Records(store.lines).value, b.head).value)))
           case Err(code) => RefusedWith(code)
           case Ok(rebuilt) =>
             if b != rebuilt then RefusedWith(EvidenceTampered)
             else TimeVerdict(sc, Records(store.lines).value, b, c, now, maxAge)
  }

  lemma ChecksLeaveRebuilding(o: Outside, sc: Scheme<Event>, store: Store, b: Bundle, chain: ReferenceChain, now: int, maxAge: int,
                              mechanism: Supplied, historical: bool)
    requires EvidenceChain.Lawful(sc) && BundleChecks(o, sc, store, b, chain, mechanism, historical) >= 8
    ensures OnlyRebuilding(o, sc, store, b, chain, now, maxAge, mechanism, historical)
  {
    hide Derive;
    hide Intact;
    hide HeadBefore;
    hide TimeVerdict;
    hide ChainProblem;
    hide InteractionProblem;
    hide OwnContacts;
    hide Records;
    hide HeadHash;
    hide WithHash;
    hide RuntimeMechanism;
    hide MechanismRefused;
    hide Normalized;
    hide DeclaredRefused;
    ChainRefusalTells(b.chain, chain.ref);
    OwnContactsIff(b, chain.ref);
    HeadFound(sc, store.lines, b);
    assert ObjectiveOf(b, chain.ref) == RebuiltObjective(b, chain.ref);
  }

  lemma LateVerifyRefusals(o: Outside, sc: Scheme<Event>, store: Store, b: Bundle, chain: ReferenceChain, now: int, maxAge: int,
                           mechanism: Supplied, historical: bool)
    requires EvidenceChain.Lawful(sc) && BundleChecks(o, sc, store, b, chain, mechanism, historical) >= 8
    ensures var v := Verify(o, sc, Derivation(o, sc), store, b, chain, now, maxAge, mechanism, historical, Intact(sc, store.lines));
            var n := BundleChecks(o, sc, store, b, chain, mechanism, historical);
            && (n == 8 ==> forall code :: MechanismRefused(mechanism, chain, code) ==> v == RefusedWith(code))
            && (n == 9 ==> forall code :: DeclaredRefused(o, b.declared, code) ==>
                  v == RefusedWith(if code == BadArgument then EvidenceTampered else code))
            && (n == 10 ==> forall k: nat, declared, mech ::
                  HeadBefore(sc, store.lines, b, k) && DeclaredAs(o, b.declared, declared) && MechanismFits(mechanism, chain, mech) ==>
                  RebuiltVerdict(o, sc, store, b, chain, now, maxAge, mechanism, historical, k, declared, mech))
  {
    hide Verify;
    hide Intact;
    hide HeadBefore;
    hide RuntimeMechanism;
    hide MechanismFits;
    hide MechanismRefused;
    hide Normalized;
    hide DeclaredRefused;
    hide DeclaredAs;
    hide RebuiltVerdict;
    hide OnlyRebuilding;
    hide BundleChecks;
    ChecksLeaveRebuilding(o, sc, store, b, chain, now, maxAge, mechanism, historical);
    NothingElseRefused(o, sc, store, b, chain, mechanism, historical);
    hide BundleChecks;
    forall code | MechanismRefused(mechanism, chain, code)
      ensures Verify(o, sc, Derivation(o, sc), store, b, chain, now, maxAge, mechanism, historical, Intact(sc, store.lines)) == RefusedWith(code)
    {
      MechanismRefusedIff(mechanism, chain, code);
      RebuildingRefused(o, sc, store, b, chain, now, maxAge, mechanism, historical);
    }
    forall code | DeclaredRefused(o, b.declared, code) && forall other :: !MechanismRefused(mechanism, chain, other)
      ensures Verify(o, sc, Derivation(o, sc), store, b, chain, now, maxAge, mechanism, historical, Intact(sc, store.lines)) ==
              RefusedWith(if code == BadArgument then EvidenceTampered else code)
    {
      DeclaredRefusedIff(o, b.declared, code);
      if RuntimeMechanism(mechanism, chain).Err? {
        MechanismRefusedIff(mechanism, chain, RuntimeMechanism(mechanism, chain).error);
      }
      RebuildingRefused(o, sc, store, b, chain, now, maxAge, mechanism, historical);
    }
    forall k: nat, declared, mech |
      HeadBefore(sc, store.lines, b, k) && DeclaredAs(o, b.declared, declared) && MechanismFits(mechanism, chain, mech)
      ensures RebuiltVerdict(o, sc, store, b, chain, now, maxAge, mechanism, historical, k, declared, mech)
    {
      RebuildingTells(o, sc, store, b, chain, now, maxAge, mechanism, historical, k, declared, mech);
    }
  }

  lemma RebuildingRefused(o: Outside, sc: Scheme<Event>, store: Store, b: Bundle, chain: ReferenceChain, now: int, maxAge: int,
                          mechanism: Supplied, historical: bool)
    requires OnlyRebuilding(o, sc, store, b, chain, now, maxAge, mechanism, historical)
    ensures var v := Verify(o, sc, Derivation(o, sc), store, b, chain, now, maxAge, mechanism, historical, Intact(sc, store.lines));
            var mech, declared := RuntimeMechanism(mechanism, chain), Normalized(o, b.declared);
            && (mech.Err? ==> v == RefusedWith(mech.error))
            && (mech.Ok? && declared.Err? ==> v == RefusedWith(if declared.error == BadArgument then EvidenceTampered else declared.error))
  {
    hide Verify;
    hide Derive;
    hide Intact;
    hide TimeVerdict;
    hide Records;
    hide WithHash;
    hide RuntimeMechanism;
    hide Normalized;
  }

  lemma RebuildingTells(o: Outside, sc: Scheme<Event>, store: Store, b: Bundle, chain: ReferenceChain, now: int, maxAge: int,
                        mechanism: Supplied, historical: bool, k: nat, declared: Declared, mech: Option<Mechanism>)
    requires EvidenceChain.Lawful(sc) && OnlyRebuilding(o, sc, store, b, chain, now, maxAge, mechanism, historical)
    requires HeadBefore(sc, store.lines, b, k) && DeclaredAs(o, b.declared, declared) && MechanismFits(mechanism, chain, mech)
    ensures RebuiltVerdict(o, sc, store, b, chain, now, maxAge, mechanism, historical, k, declared, mech)
  {
    hide Verify;
    hide Derive;
    hide Intact;
    hide HeadBefore;
    hide TimeVerdict;
    hide Records;
    hide WithHash;
    hide RuntimeMechanism;
    hide MechanismFits;
    hide Normalized;
    hide DeclaredAs;
    MechanismIff(mechanism, chain, mech);
    NormalizedIff(o, b.declared, declared);
    HeadAndCut(o, sc, store.lines, b, chain, InputsOf(b, declared, RebuiltObjective(b, chain.ref), mech), k);
  }

  /** At the tenth check the mechanism fits, at the last the declarations are in order. */
  lemma NothingElseRefused(o: Outside, sc: Scheme<Event>, store: Store, b: Bundle, chain: ReferenceChain, mechanism: Supplied,
                           historical: bool)
    ensures BundleChecks(o, sc, store, b, chain, mechanism, historical) >= 9 ==> forall code :: !MechanismRefused(mechanism, chain, code)
  {
    hide MechanismRefused;
    hide DeclaredRefused;
    hide HeadBefore;
    hide OwnContacts;
    hide Intact;
  }

  lemma HeadFound(sc: Scheme<Event>, lines: Lines, b: Bundle)
    requires EvidenceChain.Lawful(sc) && Intact(sc, lines) && b.head != ""
    ensures Records(lines).Some?
    ensures WithHash(sc, Records(lines).value, b.head).Some? <==> exists k: nat :: HeadBefore(sc, lines, b, k)
    ensures (exists k: nat :: HeadBefore(sc, lines, b, k)) ==> lines != []
    ensures lines != [] ==> (HeadHash(sc, lines) == Ok(Some(b.head)) <==> HeadBefore(sc, lines, b, |lines|))
  {
    IntactIsNumbered(sc, lines);
    RecordsAreLines(lines);
    var all := Records(lines).value;
    if WithHash(sc, all, b.head).Some? {
      var i := FoundAt(sc, all, b.head);
      assert HeadBefore(sc, lines, b, i + 1);
    }
    if k: nat :| HeadBefore(sc, lines, b, k) {
      HeadIsLastIff(sc, lines, b, k);
    }
    if lines != [] {
      assert LinkIntact(sc, lines, |lines| - 1);
    }
  }

  lemma {:induction false} FoundAt(sc: Scheme<Event>, rs: seq<Record<Event>>, h: string) returns (i: nat)
    requires WithHash(sc, rs, h).Some?
    ensures i < |rs| && HashText(sc, rs[i]) == h
  {
    i := 0;
    if HashText(sc, rs[0]) != h {
      i := FoundAt(sc, rs[1..], h);
      i := i + 1;
    }
  }

  lemma HeadAndCut(o: Outside, sc: Scheme<Event>, lines: Lines, b: Bundle, chain: ReferenceChain, inp: Inputs, k: nat)
    requires EvidenceChain.Lawful(sc) && Intact(sc, lines) && b.head != "" && HeadBefore(sc, lines, b, k)
    ensures 0 < k <= |lines| && Records(lines).Some?
    ensures WithHash(sc, Records(lines).value, b.head).Some? && SeqNo(sc, WithHash(sc, Records(lines).value, b.head).value) == k - 1
    ensures HeadHash(sc, lines) == Ok(Some(b.head)) <==> k == |lines|
    ensures HeadBefore(sc, lines, b, |lines|) ==> k == |lines|
    ensures Derive(o, sc, lines, chain, inp, Some(k - 1)) == Derive(o, sc, lines[..k], chain, inp, None)
  {
    hide Derive;
    hide Intact;
    HeadIsLastIff(sc, lines, b, k);
    if HeadBefore(sc, lines, b, |lines|) {
      HeadIsLastIff(sc, lines, b, |lines|);
    }
    PrefixIntact(sc, lines, k);
    DerivationIsSound(o, sc);
    assert lines[..k] + lines[k..] == lines && |lines[..k]| - 1 == k - 1;
    assert Derivation(o, sc)(lines, chain, inp, Some(k - 1)) == Derivation(o, sc)(lines[..k], chain, inp, None);
  }
}
