/** Building and verifying, exactly and at any moment: which bundle a request gets, which bundle is
    accepted when, and which refusal stands for what. */
module BundleAcceptance {
  import opened Common
  import opened Events
  import opened EvidenceChain
  import opened Feedback
  import opened FeedbackBundle
  import opened BundleFacts
  import opened BundleContents
  import opened BundleAge

  // ----- what callers hand in

  ghost predicate IsOwnState(s: StateRecord, c: ChainRef)
  {
    s.env == c.env && s.decisionId == c.decisionId && s.packageId == c.packageId
    && s.packageDigest == c.packageDigest && s.nodeId == c.nodeId
  }

  /** Mechanism evidence is of the chain's trace, and of its decision or its effect's. */
  ghost predicate MechanismFits(given: Supplied, chain: ReferenceChain, mech: Option<Mechanism>)
  {
    || (given.NotSupplied? && mech.None?)
    || (given.Parsed? && mech == Some(given.mech) && given.mech.traceId == chain.ref.traceId
        && (given.mech.decisionRef == "decision:" + chain.ref.decisionId
            || (chain.effect.Some? && given.mech.decisionRef == chain.effect.value.decisionRef)))
  }

  ghost predicate DeclaredAs(o: Outside, raw: Declared, d: Declared)
  {
    && o.names(raw.expected) == Some(d.expected) && o.names(raw.observed) == Some(d.observed)
    && o.refs(raw.assertions) == Some(d.assertions) && o.refs(raw.surfaces) == Some(d.surfaces)
    && o.surfaceMapOk(raw.surfaceTelemetry) && d.surfaceTelemetry == raw.surfaceTelemetry
  }

  lemma MechanismIff(given: Supplied, chain: ReferenceChain, mech: Option<Mechanism>)
    ensures RuntimeMechanism(given, chain) == Ok(mech) <==> MechanismFits(given, chain, mech)
  {
  }

  lemma NormalizedIff(o: Outside, raw: Declared, d: Declared)
    ensures Normalized(o, raw) == Ok(d) <==> DeclaredAs(o, raw, d)
  {
  }

  lemma IdentityIff(s: StateRecord, c: ChainRef)
    ensures IdentityProblem(s, c).None? <==> IsOwnState(s, c)
    ensures IdentityProblem(s, c) == Some(EnvironmentMismatch) <==> s.env != c.env
    ensures IdentityProblem(s, c) == Some(DecisionMismatch) <==> s.env == c.env && s.decisionId != c.decisionId
    ensures IdentityProblem(s, c) == Some(PackageMismatch) <==>
            s.env == c.env && s.decisionId == c.decisionId && !(s.packageId == c.packageId && s.packageDigest == c.packageDigest)
    ensures IdentityProblem(s, c) == Some(NodeMismatch) <==>
            IsOwnState(s.(nodeId := c.nodeId), c) && s.nodeId != c.nodeId
  {
  }

  // ----- building

  ghost predicate BuiltFrom(o: Outside, sc: Scheme<Event>, store: Store, q: Request, b: Bundle, declared: Declared, mech: Option<Mechanism>)
  {
    && DeclaredAs(o, q.raw, declared) && declared.expected != []
    && Intact(sc, store.lines)
    && (q.objective.Some? ==> o.digest(q.objective.value) == q.chain.ref.objectiveDigest)
    && MechanismFits(q.mechanism, q.chain, mech)
    && Describes(o, sc, store.lines, q.chain, Inputs(q.now, q.maxAge, declared, q.objective, mech), b)
    && (store.state.Some? ==> IsOwnState(store.state.value, q.chain.ref) && store.state.value.state == b.envState)
    && (store.state.None? ==> b.envState == Reset)
  }

  /** What a request gets, exactly: the bundle that describes the whole log, while its declarations,
      objective and mechanism are in order and the state file is the session's own and says the same,
      or is gone after a reset. */
  lemma BuiltIff(o: Outside, sc: Scheme<Event>, store: Store, q: Request, b: Bundle)
    ensures Build(o, sc, Derivation(o, sc), store, q, Intact(sc, store.lines)) == Ok(b) <==>
            exists declared, mech :: BuiltFrom(o, sc, store, q, b, declared, mech)
  {
    hide Derive;
    hide Describes;
    hide Intact;
    hide IsOwnState;
    hide MechanismFits;
    hide DeclaredAs;
    hide IdentityProblem;
    hide RuntimeMechanism;
    hide ResetAfter;
    if Build(o, sc, Derivation(o, sc), store, q, Intact(sc, store.lines)) == Ok(b) {
      var declared := Normalized(o, q.raw).value;
      var mech := RuntimeMechanism(q.mechanism, q.chain).value;
      NormalizedIff(o, q.raw, declared);
      MechanismIff(q.mechanism, q.chain, mech);
      DerivedIff(o, sc, store.lines, q.chain, Inputs(q.now, q.maxAge, declared, q.objective, mech), b);
      if store.state.Some? {
        IdentityIff(store.state.value, q.chain.ref);
      } else {
        ResetAfterShows(o, sc, store.lines, q.chain, Inputs(q.now, q.maxAge, declared, q.objective, mech), b);
      }
      assert BuiltFrom(o, sc, store, q, b, declared, mech);
    }
    if declared, mech :| BuiltFrom(o, sc, store, q, b, declared, mech) {
      NormalizedIff(o, q.raw, declared);
      MechanismIff(q.mechanism, q.chain, mech);
      DeclaredNames(o, q.raw, declared);
      DerivedIff(o, sc, store.lines, q.chain, Inputs(q.now, q.maxAge, declared, q.objective, mech), b);
      if store.state.Some? {
        IdentityIff(store.state.value, q.chain.ref);
      } else {
        ResetAfterShows(o, sc, store.lines, q.chain, Inputs(q.now, q.maxAge, declared, q.objective, mech), b);
      }
    }
  }

  lemma DeclaredNames(o: Outside, raw: Declared, d: Declared)
    requires DeclaredAs(o, raw, d)
    ensures o.names(raw.expected) == Some(d.expected) && o.names(raw.observed) == Some(d.observed)
  {
  }

  lemma ResetAfterShows(o: Outside, sc: Scheme<Event>, lines: Lines, chain: ReferenceChain, inp: Inputs, b: Bundle)
    requires Intact(sc, lines) && Describes(o, sc, lines, chain, inp, b)
    ensures ResetAfter(sc, lines, chain.ref.generation) <==> b.envState == Reset
  {
    hide Intact;
    hide Later;
    hide Has;
    HasIffLater(sc, lines, chain.ref.generation, ResetCompleted);
  }

  // ----- verifying

  /** The bundle claims that its session is running and fine. */
  ghost predicate SaysLive(b: Bundle)
  {
    b.envState == Active && b.isolation != DriftSeen && !b.limitations.leaseExpired
  }

  ghost predicate OwnContacts(b: Bundle, c: ChainRef)
  {
    forall i :: 0 <= i < |b.interactions| ==>
      var o := b.interactions[i];
      o.env == c.env && o.nodeId == c.nodeId && o.packageId == c.packageId && forall r :: r in EvidenceRefs(c) ==> r in o.refs
  }

  /** The head the bundle names is the record before position `k`. */
  ghost predicate HeadBefore(sc: Scheme<Event>, lines: Lines, b: Bundle, k: nat)
  {
    0 < k <= |lines| && lines[k - 1].Dict? && sc.str(lines[k - 1].record.hashField) == b.head
  }

  function RebuiltObjective(b: Bundle, c: ChainRef): Option<Objective>
  {
    if b.coverage.evaluated then Some(Objective(c.objectiveRef, c.hypothesisRefs, c.frameRef, b.coverage.desired)) else None
  }

  /** The bundle is what the log up to its head calls for, under its own build time and declarations. */
  ghost predicate Rebuilds(o: Outside, sc: Scheme<Event>, store: Store, b: Bundle, chain: ReferenceChain, mechanism: Supplied,
                           k: nat, declared: Declared, mech: Option<Mechanism>)
  {
    && HeadBefore(sc, store.lines, b, k)
    && store.hasKey && b.mac == o.mac(chain.ref.env, chain.ref.generation, b.declared)
    && (b.coverage.evaluated ==> o.digest(RebuiltObjective(b, chain.ref).value) == chain.ref.objectiveDigest)
    && (b.mech.Some? ==> !mechanism.NotSupplied?) && MechanismFits(mechanism, chain, mech)
    && DeclaredAs(o, b.declared, declared)
    && Describes(o, sc, store.lines[..k], chain,
                 Inputs(b.outcome.observedAt, b.freshness.maxAge, declared, RebuiltObjective(b, chain.ref), mech), b)
  }

  /** Nothing later than the chain's activation ends its session or starts another. */
  ghost predicate StillRunning(lines: Lines, g: int)
  {
    !Later(lines, g, WasActivated) && !Later(lines, g, WasTerminated) && !Later(lines, g, ResetCompleted)
  }

  /** What the moment of verification decides. */
  ghost predicate TimeAllows(lines: Lines, b: Bundle, c: ChainRef, now: int, maxAge: int)
  {
    && b.outcome.observedAt <= now + CLOCK_SKEW && now - b.freshness.anchor <= maxAge
    && (SaysLive(b) ==> StillRunning(lines, c.generation) && c.leaseStart <= now < c.leaseEnd)
  }

  lemma TimeIff(sc: Scheme<Event>, lines: Lines, b: Bundle, c: ChainRef, now: int, maxAge: int)
    requires Intact(sc, lines)
    ensures Records(lines).Some?
    ensures TimeVerdict(sc, Records(lines).value, b, c, now, maxAge) == Accepted <==> TimeAllows(lines, b, c, now, maxAge)
  {
    hide Later;
    hide Has;
    hide Intact;
    hide FirstEnd;
    hide Between;
    hide Records;
    var g := c.generation;
    HasIffLater(sc, lines, g, WasActivated);
    HasIffLater(sc, lines, g, WasTerminated);
    HasIffLater(sc, lines, g, ResetCompleted);
    NoEndIff(sc, Records(lines).value, g);
  }

  /** Which refusal the moment gives: too early or too old, else the session's end, else the lease. */
  lemma TimeRefusals(sc: Scheme<Event>, lines: Lines, b: Bundle, c: ChainRef, now: int, maxAge: int)
    requires Intact(sc, lines)
    ensures Records(lines).Some?
    ensures var v := TimeVerdict(sc, Records(lines).value, b, c, now, maxAge);
            var timely := b.outcome.observedAt <= now + CLOCK_SKEW && now - b.freshness.anchor <= maxAge;
            && (v == RefusedWith(Stale) <==> !timely)
            && (v == RefusedWith(LeaseExpired) <==> timely && SaysLive(b) && StillRunning(lines, c.generation) && now >= c.leaseEnd)
            && (v == RefusedWith(LeaseNotStarted) <==>
                  timely && SaysLive(b) && StillRunning(lines, c.generation) && now < c.leaseEnd && now < c.leaseStart)
            && (v == RefusedWith(SessionReset) || v == RefusedWith(SessionMismatch) <==>
                  timely && SaysLive(b) && !StillRunning(lines, c.generation))
  {
    hide Later;
    hide Has;
    hide Intact;
    hide Between;
    hide Records;
    var g := c.generation;
    HasIffLater(sc, lines, g, WasActivated);
    HasIffLater(sc, lines, g, WasTerminated);
    HasIffLater(sc, lines, g, ResetCompleted);
    NoEndIff(sc, Records(lines).value, g);
    EndCodes(sc, Records(lines).value, g);
  }

  lemma {:induction false} EndCodes(sc: Scheme<Event>, rs: seq<Record<Event>>, g: nat)
    ensures FirstEnd(sc, rs, g) in {None, Some(SessionReset), Some(SessionMismatch)}
  {
    if rs != [] {
      EndCodes(sc, rs[..|rs| - 1], g);
    }
  }

  /** The refusal of the first record that ends the session tells a reset from anything else. */
  lemma {:induction false} FirstEndTells(sc: Scheme<Event>, rs: seq<Record<Event>>, g: nat) returns (i: nat)
    requires FirstEnd(sc, rs, g).Some?
    ensures i < |rs| && SeqNo(sc, rs[i]) > g
    ensures FirstEnd(sc, rs, g) == Some(if IsKind(rs[i].body, ResetCompleted) then SessionReset else SessionMismatch)
    ensures IsKind(rs[i].body, ResetCompleted) || IsKind(rs[i].body, WasTerminated) || IsKind(rs[i].body, WasActivated)
    ensures forall j :: 0 <= j < i && SeqNo(sc, rs[j]) > g ==>
              !IsKind(rs[j].body, ResetCompleted) && !IsKind(rs[j].body, WasTerminated) && !IsKind(rs[j].body, WasActivated)
  {
    var last := |rs| - 1;
    if FirstEnd(sc, rs[..last], g).Some? {
      i := FirstEndTells(sc, rs[..last], g);
      assert forall j :: 0 <= j < last ==> rs[..last][j] == rs[j];
    } else {
      i := last;
      NoEndBefore(sc, rs[..last], g);
      assert forall j :: 0 <= j < last ==> rs[..last][j] == rs[j];
    }
  }

  lemma {:induction false} NoEndBefore(sc: Scheme<Event>, rs: seq<Record<Event>>, g: nat)
    requires FirstEnd(sc, rs, g).None?
    ensures forall j :: 0 <= j < |rs| && SeqNo(sc, rs[j]) > g ==>
              !IsKind(rs[j].body, ResetCompleted) && !IsKind(rs[j].body, WasTerminated) && !IsKind(rs[j].body, WasActivated)
  {
    if rs != [] {
      var last := |rs| - 1;
      NoEndBefore(sc, rs[..last], g);
      assert forall j :: 0 <= j < last ==> rs[..last][j] == rs[j];
    }
  }

  lemma {:induction false} ContactsOkIff(items: seq<Observation>, c: ChainRef)
    ensures InteractionProblem(items, c).None? <==>
            forall i :: 0 <= i < |items| ==> Own(items[i], c) && CarriesRefs(c, items[i])
  {
    if items != [] {
      assert forall i :: 0 < i < |items| ==> items[i] == items[1..][i - 1];
      assert forall i :: 0 <= i < |items[1..]| ==> items[1..][i] == items[i + 1];
      ContactsOkIff(items[1..], c);
    }
  }

  lemma OwnContactsIff(b: Bundle, c: ChainRef)
    ensures InteractionProblem(b.interactions, c).None? <==> OwnContacts(b, c)
  {
    ContactsOkIff(b.interactions, c);
  }

  /** The refusal of the first contact at fault says what is wrong with it. */
  lemma {:induction false} ContactRefusalTells(items: seq<Observation>, c: ChainRef) returns (i: nat)
    requires InteractionProblem(items, c).Some?
    ensures i < |items| && forall j :: 0 <= j < i ==> Own(items[j], c) && CarriesRefs(c, items[j])
    ensures var o := items[i];
            && (InteractionProblem(items, c) == Some(InteractionUnbound) <==> !CarriesRefs(c, o))
            && (InteractionProblem(items, c) == Some(EnvironmentMismatch) <==> CarriesRefs(c, o) && o.env != c.env)
            && (InteractionProblem(items, c) == Some(NodeMismatch) <==> CarriesRefs(c, o) && o.env == c.env && o.nodeId != c.nodeId)
            && (InteractionProblem(items, c) == Some(PackageMismatch) <==>
                  CarriesRefs(c, o) && o.env == c.env && o.nodeId == c.nodeId && o.packageId != c.packageId)
  {
    if !CarriesRefs(c, items[0]) || !Own(items[0], c) {
      i := 0;
    } else {
      i := ContactRefusalTells(items[1..], c);
      assert forall j :: 0 < j < |items| ==> items[j] == items[1..][j - 1];
      i := i + 1;
    }
  }

  ghost predicate SameDecision(a: ChainRef, b: ChainRef)
  {
    a.objectiveRef == b.objectiveRef && a.hypothesisRefs == b.hypothesisRefs && a.frameRef == b.frameRef
    && a.decisionId == b.decisionId && a.decisionDigest == b.decisionDigest && a.leaseStart == b.leaseStart
    && a.leaseEnd == b.leaseEnd && a.objectiveDigest == b.objectiveDigest && a.contentBound == b.contentBound
  }

  /** The chain's refusal names the first group of fields in which the two differ. */
  lemma ChainRefusalTells(given: ChainRef, want: ChainRef)
    ensures var decision := SameDecision(given, want);
            var effect := given.traceId == want.traceId && given.effectRef == want.effectRef;
            var package := given.packageId == want.packageId && given.packageDigest == want.packageDigest;
            var session := given.sessionRef == want.sessionRef && given.generation == want.generation;
            var code := ChainProblem(given, want);
            && (code.None? <==> given == want)
            && (code == Some(DecisionMismatch) <==> !decision)
            && (code == Some(EffectDecisionMismatch) <==> decision && !effect)
            && (code == Some(EnvironmentMismatch) <==> decision && effect && given.env != want.env)
            && (code == Some(PackageMismatch) <==> decision && effect && given.env == want.env && !package)
            && (code == Some(NodeMismatch) <==> decision && effect && given.env == want.env && package && given.nodeId != want.nodeId)
            && (code == Some(SessionMismatch) <==>
                  decision && effect && given.env == want.env && package && given.nodeId == want.nodeId && !session)
  {
  }

  ghost predicate AcceptableAt(o: Outside, sc: Scheme<Event>, store: Store, b: Bundle, chain: ReferenceChain, now: int,
                               maxAge: int, mechanism: Supplied, historical: bool, k: nat, declared: Declared,
                               mech: Option<Mechanism>)
  {
    && b.chain == chain.ref && OwnContacts(b, chain.ref) && Intact(sc, store.lines) && b.head != ""
    && Rebuilds(o, sc, store, b, chain, mechanism, k, declared, mech)
    && (k == |store.lines| || (historical && !SaysLive(b)))
    && TimeAllows(store.lines, b, chain.ref, now, maxAge)
  }

  lemma HeadIsLastIff(sc: Scheme<Event>, lines: Lines, b: Bundle, k: nat)
    requires EvidenceChain.Lawful(sc) && Intact(sc, lines) && HeadBefore(sc, lines, b, k) && b.head != ""
    ensures Records(lines).Some? && WithHash(sc, Records(lines).value, b.head).Some?
    ensures lines[k - 1] == Dict(WithHash(sc, Records(lines).value, b.head).value)
    ensures SeqNo(sc, WithHash(sc, Records(lines).value, b.head).value) == k - 1
    ensures HeadHash(sc, lines) == Ok(Some(b.head)) <==> k == |lines|
  {
    IntactIsNumbered(sc, lines);
    RecordsAreLines(lines);
    var all := Records(lines).value;
    HashIsFound(sc, all, k - 1);
    var place := HeadPlace(sc, lines, b.head);
    SameLastRecord(sc, lines, lines, k - 1, place);
    var last := |lines| - 1;
    assert LinkIntact(sc, lines, last) && LinkIntact(sc, lines, k - 1);
    if HeadHash(sc, lines) == Ok(Some(b.head)) {
      SameLastRecord(sc, lines, lines, k - 1, last);
    }
  }

  /** What is accepted, exactly, at whatever moment: a bundle of this chain that describes the intact log
      up to the head it names under its own declarations, that head being the last record unless an
      audit asks for less and the bundle claims nothing live; not from the future, its evidence within
      `maxAge`, and, if it claims a live session, only inside the lease and with no end on record. */
  lemma AcceptedIff(o: Outside, sc: Scheme<Event>, store: Store, b: Bundle, chain: ReferenceChain, now: int, maxAge: int,
                    mechanism: Supplied, historical: bool)
    requires EvidenceChain.Lawful(sc)
    ensures Verify(o, sc, Derivation(o, sc), store, b, chain, now, maxAge, mechanism, historical, Intact(sc, store.lines)) == Accepted
            <==> exists k, declared, mech :: AcceptableAt(o, sc, store, b, chain, now, maxAge, mechanism, historical, k, declared, mech)
  {
    hide *;
    if Verify(o, sc, Derivation(o, sc), store, b, chain, now, maxAge, mechanism, historical, Intact(sc, store.lines)) == Accepted {
      var k := AcceptedIsAcceptable(o, sc, store, b, chain, now, maxAge, mechanism, historical);
    }
    if k, declared, mech :| AcceptableAt(o, sc, store, b, chain, now, maxAge, mechanism, historical, k, declared, mech) {
      AcceptableIsAccepted(o, sc, store, b, chain, now, maxAge, mechanism, historical, k, declared, mech);
    }
  }

  lemma AcceptedIsAcceptable(o: Outside, sc: Scheme<Event>, store: Store, b: Bundle, chain: ReferenceChain, now: int,
                             maxAge: int, mechanism: Supplied, historical: bool) returns (k: nat)
    requires EvidenceChain.Lawful(sc)
    requires Verify(o, sc, Derivation(o, sc), store, b, chain, now, maxAge, mechanism, historical, Intact(sc, store.lines)) == Accepted
    ensures exists declared, mech :: AcceptableAt(o, sc, store, b, chain, now, maxAge, mechanism, historical, k, declared, mech)
  {
    hide Derive;
    hide Describes;
    hide Intact;
    hide Records;
    hide TimeVerdict;
    hide TimeAllows;
    hide ChainProblem;
    hide InteractionProblem;
    hide OwnContacts;
    hide HeadHash;
    hide WithHash;
    hide RuntimeMechanism;
    hide Normalized;
    DerivationIsSound(o, sc);
    k := AcceptedIsDerived(o, sc, Derivation(o, sc), store, b, chain, now, maxAge, mechanism, historical);
    ChainRefusalTells(b.chain, chain.ref);
    OwnContactsIff(b, chain.ref);
    HeadIsLastIff(sc, store.lines, b, k);
    TimeIff(sc, store.lines, b, chain.ref, now, maxAge);
    var declared := Normalized(o, b.declared).value;
    var mech := RuntimeMechanism(mechanism, chain).value;
    NormalizedIff(o, b.declared, declared);
    MechanismIff(mechanism, chain, mech);
    PrefixIntact(sc, store.lines, k);
    DerivedIff(o, sc, store.lines[..k], chain,
               Inputs(b.outcome.observedAt, b.freshness.maxAge, declared, RebuiltObjective(b, chain.ref), mech), b);
    assert AcceptableAt(o, sc, store, b, chain, now, maxAge, mechanism, historical, k, declared, mech);
  }

  lemma AcceptableIsAccepted(o: Outside, sc: Scheme<Event>, store: Store, b: Bundle, chain: ReferenceChain, now: int,
                             maxAge: int, mechanism: Supplied, historical: bool, k: nat, declared: Declared, mech: Option<Mechanism>)
    requires EvidenceChain.Lawful(sc)
    requires AcceptableAt(o, sc, store, b, chain, now, maxAge, mechanism, historical, k, declared, mech)
    ensures Verify(o, sc, Derivation(o, sc), store, b, chain, now, maxAge, mechanism, historical, Intact(sc, store.lines)) == Accepted
  {
    hide Derive;
    hide Describes;
    hide Intact;
    hide Records;
    hide TimeVerdict;
    hide TimeAllows;
    hide ChainProblem;
    hide InteractionProblem;
    hide OwnContacts;
    hide HeadHash;
    hide WithHash;
    hide RuntimeMechanism;
    hide Normalized;
    hide DeclaredAs;
    hide MechanismFits;
    ChainRefusalTells(b.chain, chain.ref);
    OwnContactsIff(b, chain.ref);
    HeadIsLastIff(sc, store.lines, b, k);
    TimeIff(sc, store.lines, b, chain.ref, now, maxAge);
    NormalizedIff(o, b.declared, declared);
    MechanismIff(mechanism, chain, mech);
    PrefixIntact(sc, store.lines, k);
    DerivedIff(o, sc, store.lines[..k], chain,
               Inputs(b.outcome.observedAt, b.freshness.maxAge, declared, RebuiltObjective(b, chain.ref), mech), b);
    DerivationIsSound(o, sc);
    var inp := Inputs(b.outcome.observedAt, b.freshness.maxAge, declared, RebuiltObjective(b, chain.ref), mech);
    assert store.lines[..k] + store.lines[k..] == store.lines && |store.lines[..k]| - 1 == k - 1;
    assert Derivation(o, sc)(store.lines, chain, inp, Some(k - 1)) == Derivation(o, sc)(store.lines[..k], chain, inp, None) == Ok(b);
    assert InputsOf(b, declared, ObjectiveOf(b, chain.ref), mech) == inp;
  }

  // ----- the round trip at a later moment

  /** As far as the records show, the session runs, nothing failed and nothing drifted. */
  ghost predicate RunsClean(lines: Lines, g: int)
  {
    !EndShown(lines, g) && !FailureShown(lines, g) && DriftsAfter(lines, g) == {}
  }

  /** Built at one moment, verified at another, on the unchanged store and with the same mechanism: the
      bundle is accepted exactly when it is not from the future, the newest evidence it takes into
      account is within `maxAge`, the contacts it keeps are the chain's own, and, if the session ran
      clean and in its lease when it was built, the lease is still open. */
  lemma RoundTripAtIff(o: Outside, sc: Scheme<Event>, store: Store, q: Request, b: Bundle, now: int, maxAge: int, historical: bool)
    requires Feedback.Lawful(o) && EvidenceChain.Lawful(sc) && forall e, s, p :: sc.hash(e, s, p) != ""
    requires Admitted(o, q.chain.ref)
    requires Build(o, sc, Derivation(o, sc), store, q, Intact(sc, store.lines)) == Ok(b)
    ensures SessionAt(sc, store.lines, q.chain.ref)
    ensures var c := q.chain.ref;
            var kept := KeptAfter(store.lines, c.generation, c);
            Verify(o, sc, Derivation(o, sc), store.(hasKey := true), b, q.chain, now, maxAge, q.mechanism, historical,
                   Intact(sc, store.lines)) == Accepted
            <==> && q.now <= now + CLOCK_SKEW && now - NewestKept(store.lines, c) <= maxAge
                 && (forall i :: 0 <= i < |kept| ==> Own(kept[i], c))
                 && (RunsClean(store.lines, c.generation) && q.now < c.leaseEnd ==> c.leaseStart <= now < c.leaseEnd)
  {
    hide *;
    BuiltIff(o, sc, store, q, b);
    var declared, mech :| BuiltFrom(o, sc, store, q, b, declared, mech);
    BuiltIsIntact(o, sc, store, q, b, declared, mech);
    var keyed := store.(hasKey := true);
    BuiltRebuilds(o, sc, store, q, b, declared, mech);
    BuiltSays(o, sc, store, q, b, declared, mech, now, maxAge);
    var c := q.chain.ref;
    var goes := OwnContacts(b, c) && TimeAllows(store.lines, b, c, now, maxAge);
    AcceptedIff(o, sc, keyed, b, q.chain, now, maxAge, q.mechanism, historical);
    if goes {
      MakesAcceptable(o, sc, keyed, b, q.chain, now, maxAge, q.mechanism, historical, declared, mech);
    }
    if k, d, m :| AcceptableAt(o, sc, keyed, b, q.chain, now, maxAge, q.mechanism, historical, k, d, m) {
      AcceptableAllows(o, sc, keyed, b, q.chain, now, maxAge, q.mechanism, historical, k, d, m);
    }
  }

  lemma BuiltIsIntact(o: Outside, sc: Scheme<Event>, store: Store, q: Request, b: Bundle, declared: Declared, mech: Option<Mechanism>)
    requires BuiltFrom(o, sc, store, q, b, declared, mech)
    ensures Intact(sc, store.lines)
    ensures SessionAt(sc, store.lines, q.chain.ref) && q.chain.ref.generation < |store.lines| && store.lines[q.chain.ref.generation].Dict?
  {
    hide Intact;
    SessionAtIsStartShown(sc, store.lines, q.chain.ref);
  }

  lemma BuiltRebuilds(o: Outside, sc: Scheme<Event>, store: Store, q: Request, b: Bundle, declared: Declared, mech: Option<Mechanism>)
    requires Feedback.Lawful(o) && EvidenceChain.Lawful(sc) && forall e, s, p :: sc.hash(e, s, p) != ""
    requires Admitted(o, q.chain.ref) && BuiltFrom(o, sc, store, q, b, declared, mech)
    ensures b.chain == q.chain.ref && b.head != ""
    ensures Rebuilds(o, sc, store.(hasKey := true), b, q.chain, q.mechanism, |store.lines|, declared, mech)
  {
    hide Intact;
    hide StateShown;
    hide IsolationShown;
    hide InteractionsShown;
    hide LimitationsShown;
    hide TerrainShown;
    hide EffectShown;
    hide EnvelopeShown;
    hide NothingBad;
    hide InOrder;
    hide IsLatest;
    hide MechanismFits;
    assert store.lines[..|store.lines|] == store.lines;
    LastIsHead(sc, store.lines);
    CoverageDesired(q.objective, b.interactions, declared);
    ObjectiveIsRebuilt(o, q.chain.ref, q.objective, b);
    MechanismGiven(q.mechanism, q.chain, mech);
  }

  lemma CoverageDesired(obj: Option<Objective>, items: seq<Observation>, d: Declared)
    ensures obj.Some? ==> CoverageOf(obj, items, d).desired == obj.value.desired
  {
  }

  lemma MechanismGiven(given: Supplied, chain: ReferenceChain, mech: Option<Mechanism>)
    requires MechanismFits(given, chain, mech)
    ensures mech.Some? ==> !given.NotSupplied?
  {
  }

  lemma BuiltSays(o: Outside, sc: Scheme<Event>, store: Store, q: Request, b: Bundle, declared: Declared, mech: Option<Mechanism>,
                  now: int, maxAge: int)
    requires BuiltFrom(o, sc, store, q, b, declared, mech)
    requires q.chain.ref.generation < |store.lines| && store.lines[q.chain.ref.generation].Dict?
    ensures var c := q.chain.ref;
            var kept := KeptAfter(store.lines, c.generation, c);
            && (OwnContacts(b, c) <==> forall i :: 0 <= i < |kept| ==> Own(kept[i], c))
            && (TimeAllows(store.lines, b, c, now, maxAge) <==>
                  && q.now <= now + CLOCK_SKEW && now - NewestKept(store.lines, c) <= maxAge
                  && (RunsClean(store.lines, c.generation) && q.now < c.leaseEnd ==> c.leaseStart <= now < c.leaseEnd))
  {
    hide Intact;
    hide TerrainShown;
    hide EffectShown;
    hide EnvelopeShown;
    hide NothingBad;
    hide InOrder;
    hide MechanismFits;
    hide DeclaredAs;
    hide Later;
    hide DriftsAfter;
    hide BoundAfter;
    hide UnboundAfter;
    hide IsLatest;
    hide Anchor;
    hide Own;
    var c := q.chain.ref;
    LatestIff(b.freshness.anchor, EventAt(store.lines[c.generation].record.body), KeptAfter(store.lines, c.generation, c));
    NoLaterStart(sc, store.lines, c);
    KeptAreOwnIff(store.lines, c, b);
  }

  lemma NoLaterStart(sc: Scheme<Event>, lines: Lines, c: ChainRef)
    requires StartShown(sc, lines, c)
    ensures !Later(lines, c.generation, WasActivated)
  {
  }

  lemma KeptAreOwnIff(lines: Lines, c: ChainRef, b: Bundle)
    requires b.interactions == KeptAfter(lines, c.generation, c)
    ensures OwnContacts(b, c) <==> forall i :: 0 <= i < |b.interactions| ==> Own(b.interactions[i], c)
  {
    BoundCarry(lines, c.generation, c);
    var all := BoundAfter(lines, c.generation, c);
    assert forall i :: 0 <= i < |b.interactions| ==> b.interactions[i] == all[i] && CarriesRefs(c, all[i]);
  }

  lemma {:induction false} BoundCarry(lines: Lines, g: int, c: ChainRef)
    ensures forall i :: 0 <= i < |BoundAfter(lines, g, c)| ==> CarriesRefs(c, BoundAfter(lines, g, c)[i])
  {
    hide CarriesRefs;
    if lines != [] {
      BoundCarry(lines[..|lines| - 1], g, c);
    }
  }

  lemma MakesAcceptable(o: Outside, sc: Scheme<Event>, store: Store, b: Bundle, chain: ReferenceChain, now: int, maxAge: int,
                        mechanism: Supplied, historical: bool, declared: Declared, mech: Option<Mechanism>)
    requires b.chain == chain.ref && OwnContacts(b, chain.ref) && Intact(sc, store.lines) && b.head != ""
    requires Rebuilds(o, sc, store, b, chain, mechanism, |store.lines|, declared, mech)
    requires TimeAllows(store.lines, b, chain.ref, now, maxAge)
    ensures AcceptableAt(o, sc, store, b, chain, now, maxAge, mechanism, historical, |store.lines|, declared, mech)
  {
  }

  lemma AcceptableAllows(o: Outside, sc: Scheme<Event>, store: Store, b: Bundle, chain: ReferenceChain, now: int, maxAge: int,
                         mechanism: Supplied, historical: bool, k: nat, declared: Declared, mech: Option<Mechanism>)
    requires AcceptableAt(o, sc, store, b, chain, now, maxAge, mechanism, historical, k, declared, mech)
    ensures OwnContacts(b, chain.ref) && TimeAllows(store.lines, b, chain.ref, now, maxAge)
  {
  }
}
