/** `build_feedback_bundle` and `verify_feedback_bundle`, and what acceptance means. */
module FeedbackBundle {
  import opened Common
  import opened Events
  import opened EvidenceChain
  import opened Feedback

  /** A derivation: log, chain, inputs and optional cut to a bundle. Build and verify share one. */
  type Deriver = (seq<Line<Event>>, ReferenceChain, Inputs, Option<int>) -> Result<Bundle, Code>

  /** `_derive` itself. */
  function Derivation(o: Outside, sc: Scheme<Event>): Deriver
  {
    (lines, chain, inp, upto) => Derive(o, sc, lines, chain, inp, upto)
  }

  // ----- build

  /** `_check_state_identity`. */
  function IdentityProblem(s: StateRecord, c: ChainRef): Option<Code>
  {
    if s.env != c.env then Some(EnvironmentMismatch)
    else if s.decisionId != c.decisionId then Some(DecisionMismatch)
    else if s.packageId != c.packageId || s.packageDigest != c.packageDigest then Some(PackageMismatch)
    else if s.nodeId != c.nodeId then Some(NodeMismatch)
    else None
  }

  /** `_runtime_mechanism`. */
  function RuntimeMechanism(given: Supplied, chain: ReferenceChain): Result<Option<Mechanism>, Code>
  {
    match given
    case NotSupplied => Ok(None)
    case Unparsable => Err(EffectRejected)
    case Parsed(m) =>
      if m.traceId != chain.ref.traceId ||
         (m.decisionRef != "decision:" + chain.ref.decisionId &&
          (chain.effect.None? || m.decisionRef != chain.effect.value.decisionRef))
      then Err(EffectDecisionMismatch)
      else Ok(Some(m))
  }

  /** Validation of the caller's declarations, in the order the two callers make it. */
  function Normalized(o: Outside, raw: Declared): Result<Declared, Code>
  {
    var expected, observed := o.names(raw.expected), o.names(raw.observed);
    if expected.None? || observed.None? then Err(TelemetryMissing)
    else
      var assertions, surfaces := o.refs(raw.assertions), o.refs(raw.surfaces);
      if assertions.None? || surfaces.None? then Err(BadArgument)
      else if !o.surfaceMapOk(raw.surfaceTelemetry) then Err(TelemetryMissing)
      else Ok(Declared(expected.value, observed.value, assertions.value, surfaces.value, raw.surfaceTelemetry))
  }

  predicate ResetAfter(sc: Scheme<Event>, lines: seq<Line<Event>>, generation: nat)
  {
    Records(lines).Some? && Has(Between(sc, Records(lines).value, Some(generation), None), ResetCompleted)
  }

  datatype Request = Request(chain: ReferenceChain, now: int, maxAge: int, raw: Declared,
                             mechanism: Supplied, objective: Option<Objective>)

  function Build(o: Outside, sc: Scheme<Event>, d: Deriver, store: Store, q: Request, intact: bool): Result<Bundle, Code>
  {
    var c := q.chain.ref;
    if o.names(q.raw.expected).None? || o.names(q.raw.observed).None? then Err(TelemetryMissing)
    else if o.names(q.raw.expected).value == [] then Err(TelemetryMissing)
    else if !intact then Err(EvidenceTampered)
    else if store.state.Some? && IdentityProblem(store.state.value, c).Some? then
      Err(IdentityProblem(store.state.value, c).value)
    else if store.state.None? && !ResetAfter(sc, store.lines, c.generation) then Err(SessionMismatch)
    else if q.objective.Some? && o.digest(q.objective.value) != c.objectiveDigest then Err(DecisionMismatch)
    else
      match RuntimeMechanism(q.mechanism, q.chain)
      case Err(code) => Err(code)
      case Ok(mech) =>
        match Normalized(o, q.raw)
        case Err(code) => Err(code)
        case Ok(declared) =>
          match d(store.lines, q.chain, Inputs(q.now, q.maxAge, declared, q.objective, mech), None)
          case Err(code) => Err(code)
          case Ok(b) =>
            if store.state.Some? && store.state.value.state != b.envState then Err(EvidenceTampered) else Ok(b)
  }

  /** `build_feedback_bundle`, check by check. A built bundle leaves a session key behind; a refusal
      may, and nothing else changes. */
  method BuildFeedbackBundle(o: Outside, sc: Scheme<Event>, store: Store, q: Request)
    returns (r: Result<Bundle, Code>, after: Store)
    requires forall t :: sc.str(Text(t)) == t
    ensures r == Build(o, sc, Derivation(o, sc), store, q, Intact(sc, store.lines))
    ensures after == if r.Ok? then store.(hasKey := true) else store.(hasKey := after.hasKey)
  {
    hide Derive;
    hide Intact;
    after := store;
    var c := q.chain.ref;
    var expected, observed := o.names(q.raw.expected), o.names(q.raw.observed);
    if expected.None? || observed.None? || expected.value == [] {
      return Err(TelemetryMissing), after;
    }
    var intact := VerifyEvidenceChain(sc, store.lines);
    if !intact {
      return Err(EvidenceTampered), after;
    }
    if store.state.Some? {
      var problem := IdentityProblem(store.state.value, c);
      if problem.Some? {
        return Err(problem.value), after;
      }
    } else {
      var wasReset := SessionWasReset(sc, store.lines, c.generation);
      if !wasReset {
        return Err(SessionMismatch), after;
      }
    }
    if q.objective.Some? && o.digest(q.objective.value) != c.objectiveDigest {
      return Err(DecisionMismatch), after;
    }
    var mech := RuntimeMechanism(q.mechanism, q.chain);
    if mech.Err? {
      return Err(mech.error), after;
    }
    var assertions, surfaces := o.refs(q.raw.assertions), o.refs(q.raw.surfaces);
    if assertions.None? || surfaces.None? {
      return Err(BadArgument), after;
    }
    if !o.surfaceMapOk(q.raw.surfaceTelemetry) {
      return Err(TelemetryMissing), after;
    }
    var declared := Declared(expected.value, observed.value, assertions.value, surfaces.value, q.raw.surfaceTelemetry);
    r := DeriveBundle(o, sc, store.lines, q.chain, Inputs(q.now, q.maxAge, declared, q.objective, mech.value), None);
    if r.Ok? {
      after := store.(hasKey := true);
      if store.state.Some? && store.state.value.state != r.value.envState {
        r := Err(EvidenceTampered);
      }
    }
  }

  method SessionWasReset(sc: Scheme<Event>, lines: seq<Line<Event>>, generation: nat) returns (r: bool)
    ensures r == ResetAfter(sc, lines, generation)
  {
    hide Between;
    var all := ReadRecords(lines);
    if all.None? {
      return false;
    }
    var post := Select(sc, all.value, Some(generation), None);
    return Has(post, ResetCompleted);
  }

  // ----- verify

  /** `_claims_live`. */
  predicate ClaimsLive(b: Bundle)
  {
    b.envState == Active && b.isolation != DriftSeen && !b.limitations.leaseExpired
  }

  /** The first reference-chain field that differs, by its refusal code. */
  function ChainProblem(given: ChainRef, want: ChainRef): Option<Code>
  {
    if given.objectiveRef != want.objectiveRef || given.hypothesisRefs != want.hypothesisRefs ||
       given.frameRef != want.frameRef || given.decisionId != want.decisionId ||
       given.decisionDigest != want.decisionDigest || given.leaseStart != want.leaseStart ||
       given.leaseEnd != want.leaseEnd || given.objectiveDigest != want.objectiveDigest ||
       given.contentBound != want.contentBound then Some(DecisionMismatch)
    else if given.traceId != want.traceId || given.effectRef != want.effectRef then Some(EffectDecisionMismatch)
    else if given.env != want.env then Some(EnvironmentMismatch)
    else if given.packageId != want.packageId || given.packageDigest != want.packageDigest then Some(PackageMismatch)
    else if given.nodeId != want.nodeId then Some(NodeMismatch)
    else if given.sessionRef != want.sessionRef || given.generation != want.generation then Some(SessionMismatch)
    else None
  }

  predicate Own(o: Observation, c: ChainRef)
  {
    o.env == c.env && o.nodeId == c.nodeId && o.packageId == c.packageId
  }

  /** The first interaction the verifier refuses. */
  function InteractionProblem(items: seq<Observation>, c: ChainRef): Option<Code>
  {
    if items == [] then None
    else if !CarriesRefs(c, items[0]) then Some(InteractionUnbound)
    else if items[0].env != c.env then Some(EnvironmentMismatch)
    else if items[0].nodeId != c.nodeId then Some(NodeMismatch)
    else if items[0].packageId != c.packageId then Some(PackageMismatch)
    else InteractionProblem(items[1..], c)
  }

  /** The first record carrying hash `h`. */
  function WithHash(sc: Scheme<Event>, rs: seq<Record<Event>>, h: string): Option<Record<Event>>
  {
    if rs == [] then None
    else if HashText(sc, rs[0]) == h then Some(rs[0])
    else WithHash(sc, rs[1..], h)
  }

  /** What `verify_feedback_bundle` rebuilds the bundle from, all of it read from the bundle. */
  function InputsOf(b: Bundle, declared: Declared, objective: Option<Objective>, mech: Option<Mechanism>): Inputs
  {
    Inputs(b.outcome.observedAt, b.freshness.maxAge, declared, objective, mech)
  }

  function ObjectiveOf(b: Bundle, c: ChainRef): Option<Objective>
  {
    if b.coverage.evaluated then Some(Objective(c.objectiveRef, c.hypothesisRefs, c.frameRef, b.coverage.desired))
    else None
  }

  /** Refused with a code, or accepted. */
  datatype Verdict = Accepted | RefusedWith(code: Code)

  function Verify(o: Outside, sc: Scheme<Event>, d: Deriver, store: Store, b: Bundle, chain: ReferenceChain, now: int,
                  maxAge: int, mechanism: Supplied, allowHistorical: bool, intact: bool): Verdict
  {
    var c := chain.ref;
    if ChainProblem(b.chain, c).Some? then RefusedWith(ChainProblem(b.chain, c).value)
    else if InteractionProblem(b.interactions, c).Some? then RefusedWith(InteractionProblem(b.interactions, c).value)
    else if !intact || b.head == "" || Records(store.lines).None? then RefusedWith(EvidenceTampered)
    else
      var all := Records(store.lines).value;
      var headRecord := WithHash(sc, all, b.head);
      if headRecord.None? then RefusedWith(EvidenceTampered)
      else if HeadHash(sc, store.lines) != Ok(Some(b.head)) && (!allowHistorical || ClaimsLive(b)) then RefusedWith(Stale)
      else if !store.hasKey || b.mac != o.mac(c.env, c.generation, b.declared) then RefusedWith(EvidenceTampered)
      else
        var objective := ObjectiveOf(b, c);
        if objective.Some? && o.digest(objective.value) != c.objectiveDigest then RefusedWith(DecisionMismatch)
        else if b.mech.Some? && mechanism.NotSupplied? then RefusedWith(EvidenceTampered)
        else
          match RuntimeMechanism(mechanism, chain)
          case Err(code) => RefusedWith(code)
          case Ok(mech) =>
            match Normalized(o, b.declared)
            case Err(code) => RefusedWith(if code == BadArgument then EvidenceTampered else code)
            case Ok(declared) =>
              match d(store.lines, chain, InputsOf(b, declared, objective, mech),
                           Some(SeqNo(sc, headRecord.value)))
              case Err(code) => RefusedWith(code)
              case Ok(rebuilt) =>
                if b != rebuilt then RefusedWith(EvidenceTampered)
                else TimeVerdict(sc, all, b, c, now, maxAge)
  }

  function EndCode(sc: Scheme<Event>, r: Record<Event>, generation: nat): Option<Code>
  {
    if SeqNo(sc, r) <= generation then None
    else if IsKind(r.body, ResetCompleted) then Some(SessionReset)
    else if IsKind(r.body, WasTerminated) || IsKind(r.body, WasActivated) then Some(SessionMismatch)
    else None
  }

  /** The refusal for the first later record that ends the session, if any. */
  function FirstEnd(sc: Scheme<Event>, rs: seq<Record<Event>>, generation: nat): Option<Code>
  {
    if rs == [] then None
    else
      var before := FirstEnd(sc, rs[..|rs| - 1], generation);
      if before.Some? then before else EndCode(sc, rs[|rs| - 1], generation)
  }

  lemma HasOneMore(rs: seq<Record<Event>>, r: Record<Event>, k: Kind)
    ensures Has(rs + [r], k) <==> Has(rs, k) || IsKind(r.body, k)
  {
    assert (rs + [r])[..|rs|] == rs;
  }

  lemma {:induction false} NoEndIff(sc: Scheme<Event>, rs: seq<Record<Event>>, generation: nat)
    ensures var post := Between(sc, rs, Some(generation), None);
            FirstEnd(sc, rs, generation).None? <==>
              !Has(post, ResetCompleted) && !Has(post, WasTerminated) && !Has(post, WasActivated)
  {
    if rs != [] {
      var front, last := rs[..|rs| - 1], rs[|rs| - 1];
      NoEndIff(sc, front, generation);
      var before := Between(sc, front, Some(generation), None);
      assert before + [] == before;
      HasOneMore(before, last, ResetCompleted);
      HasOneMore(before, last, WasTerminated);
      HasOneMore(before, last, WasActivated);
    }
  }

  /** The checks relative to the moment of verification. */
  function TimeVerdict(sc: Scheme<Event>, all: seq<Record<Event>>, b: Bundle, c: ChainRef, now: int, maxAge: int): Verdict
  {
    if b.outcome.observedAt > now + CLOCK_SKEW then RefusedWith(Stale)
    else if now - b.freshness.anchor > maxAge then RefusedWith(Stale)
    else if !ClaimsLive(b) then Accepted
    else if FirstEnd(sc, all, c.generation).Some? then RefusedWith(FirstEnd(sc, all, c.generation).value)
    else if now >= c.leaseEnd then RefusedWith(LeaseExpired)
    else if now < c.leaseStart then RefusedWith(LeaseNotStarted)
    else Accepted
  }

  method CheckInteractions(items: seq<Observation>, c: ChainRef) returns (r: Option<Code>)
    ensures r == InteractionProblem(items, c)
  {
    for k := 0 to |items|
      invariant InteractionProblem(items, c) == InteractionProblem(items[k..], c)
    {
      assert items[k..][1..] == items[k + 1..];
      if !CarriesRefs(c, items[k]) {
        return Some(InteractionUnbound);
      }
      if items[k].env != c.env {
        return Some(EnvironmentMismatch);
      }
      if items[k].nodeId != c.nodeId {
        return Some(NodeMismatch);
      }
      if items[k].packageId != c.packageId {
        return Some(PackageMismatch);
      }
    }
    return None;
  }

  method FindHead(sc: Scheme<Event>, rs: seq<Record<Event>>, h: string) returns (r: Option<Record<Event>>)
    ensures r == WithHash(sc, rs, h)
  {
    for k := 0 to |rs|
      invariant WithHash(sc, rs, h) == WithHash(sc, rs[k..], h)
    {
      assert rs[k..][1..] == rs[k + 1..];
      if HashText(sc, rs[k]) == h {
        return Some(rs[k]);
      }
    }
    return None;
  }

  /** The loop over the records for a bundle that claims a live session. */
  method FindEnd(sc: Scheme<Event>, rs: seq<Record<Event>>, generation: nat) returns (r: Option<Code>)
    ensures r == FirstEnd(sc, rs, generation)
  {
    for k := 0 to |rs|
      invariant FirstEnd(sc, rs[..k], generation) == None
    {
      assert rs[..k + 1][..k] == rs[..k];
      r := EndCode(sc, rs[k], generation);
      if r.Some? {
        EndStays(sc, rs, generation, k + 1);
        return r;
      }
    }
    assert rs[..|rs|] == rs;
    return None;
  }

  lemma {:induction false} EndStays(sc: Scheme<Event>, rs: seq<Record<Event>>, generation: nat, k: nat)
    requires k <= |rs| && FirstEnd(sc, rs[..k], generation).Some?
    ensures FirstEnd(sc, rs, generation) == FirstEnd(sc, rs[..k], generation)
    decreases |rs|
  {
    if k < |rs| {
      assert rs[..|rs| - 1][..k] == rs[..k];
      EndStays(sc, rs[..|rs| - 1], generation, k);
    } else {
      assert rs[..k] == rs;
    }
  }

  /** `verify_feedback_bundle`, check by check. */
  method VerifyFeedbackBundle(o: Outside, sc: Scheme<Event>, store: Store, b: Bundle, chain: ReferenceChain,
                              now: int, maxAge: int, mechanism: Supplied, allowHistorical: bool)
    returns (v: Verdict)
    requires forall t :: sc.str(Text(t)) == t
    ensures v == Verify(o, sc, Derivation(o, sc), store, b, chain, now, maxAge, mechanism, allowHistorical, Intact(sc, store.lines))
  {
    hide Derive;
    hide Intact;
    hide InteractionProblem;
    hide ChainProblem;
    hide FirstEnd;
    hide WithHash;
    hide Records;
    var c := chain.ref;
    var problem := ChainProblem(b.chain, c);
    if problem.Some? {
      return RefusedWith(problem.value);
    }
    problem := CheckInteractions(b.interactions, c);
    if problem.Some? {
      return RefusedWith(problem.value);
    }
    var intact := VerifyEvidenceChain(sc, store.lines);
    var records := ReadRecords(store.lines);
    if !intact || b.head == "" || records.None? {
      return RefusedWith(EvidenceTampered);
    }
    var headRecord := FindHead(sc, records.value, b.head);
    if headRecord.None? {
      return RefusedWith(EvidenceTampered);
    }
    if HeadHash(sc, store.lines) != Ok(Some(b.head)) {
      if !allowHistorical || ClaimsLive(b) {
        return RefusedWith(Stale);
      }
    }
    if !store.hasKey || b.mac != o.mac(c.env, c.generation, b.declared) {
      return RefusedWith(EvidenceTampered);
    }
    var objective: Option<Objective> := None;
    if b.coverage.evaluated {
      var rebuiltObjective := Objective(c.objectiveRef, c.hypothesisRefs, c.frameRef, b.coverage.desired);
      if o.digest(rebuiltObjective) != c.objectiveDigest {
        return RefusedWith(DecisionMismatch);
      }
      objective := Some(rebuiltObjective);
    }
    if b.mech.Some? && mechanism.NotSupplied? {
      return RefusedWith(EvidenceTampered);
    }
    var mech := RuntimeMechanism(mechanism, chain);
    if mech.Err? {
      return RefusedWith(mech.error);
    }
    var declared := Normalized(o, b.declared);
    if declared.Err? {
      return RefusedWith(if declared.error == BadArgument then EvidenceTampered else declared.error);
    }
    var rebuilt := DeriveBundle(o, sc, store.lines, chain, InputsOf(b, declared.value, objective, mech.value),
                                Some(SeqNo(sc, headRecord.value)));
    if rebuilt.Err? {
      return RefusedWith(rebuilt.error);
    }
    if b != rebuilt.value {
      return RefusedWith(EvidenceTampered);
    }
    if b.outcome.observedAt > now + CLOCK_SKEW || now - b.freshness.anchor > maxAge {
      return RefusedWith(Stale);
    }
    if ClaimsLive(b) {
      problem := FindEnd(sc, records.value, c.generation);
      if problem.Some? {
        return RefusedWith(problem.value);
      }
      if now >= c.leaseEnd {
        return RefusedWith(LeaseExpired);
      }
      if now < c.leaseStart {
        return RefusedWith(LeaseNotStarted);
      }
    }
    return Accepted;
  }

  // ----- a verified log is numbered, so a cut by number is a prefix

  ghost predicate Numbered(sc: Scheme<Event>, rs: seq<Record<Event>>)
  {
    forall i :: 0 <= i < |rs| ==> SeqNo(sc, rs[i]) == i
  }

  lemma {:induction false} RecordsAreLines(lines: seq<Line<Event>>)
    ensures Records(lines).Some? ==>
              |Records(lines).value| == |lines| &&
              forall i :: 0 <= i < |lines| ==> lines[i] == Dict(Records(lines).value[i])
  {
    if lines != [] {
      RecordsAreLines(lines[..|lines| - 1]);
    }
  }

  lemma {:induction false} IntactIsNumbered(sc: Scheme<Event>, lines: seq<Line<Event>>)
    requires Intact(sc, lines)
    ensures Records(lines).Some? && |Records(lines).value| == |lines| && Numbered(sc, Records(lines).value)
  {
    RecordsAreLines(lines);
    if lines != [] {
      PrefixIntact(sc, lines, |lines| - 1);
      IntactIsNumbered(sc, lines[..|lines| - 1]);
      assert LinkIntact(sc, lines, |lines| - 1);
    }
  }

  lemma RecordsOfPrefix(lines: seq<Line<Event>>, more: seq<Line<Event>>)
    requires Records(lines + more).Some?
    ensures |Records(lines + more).value| == |lines| + |more|
    ensures Records(lines) == Some(Records(lines + more).value[..|lines|])
  {
    RecordsAreLines(lines + more);
    assert forall i :: 0 <= i < |lines| ==> (lines + more)[i] == lines[i];
    var all := Records(lines + more).value;
    RecordsOf(lines, all[..|lines|]);
  }

  lemma {:induction false} RecordsOf(lines: seq<Line<Event>>, rs: seq<Record<Event>>)
    requires |rs| == |lines| && forall i :: 0 <= i < |lines| ==> lines[i] == Dict(rs[i])
    ensures Records(lines) == Some(rs)
  {
    if lines != [] {
      RecordsOf(lines[..|lines| - 1], rs[..|rs| - 1]);
      assert rs == rs[..|rs| - 1] + [rs[|rs| - 1]];
    }
  }

  lemma {:induction false} NoUpperBound(sc: Scheme<Event>, rs: seq<Record<Event>>, lo: Option<int>, hi: int)
    requires Numbered(sc, rs) && |rs| <= hi + 1
    ensures Between(sc, rs, lo, Some(hi)) == Between(sc, rs, lo, None)
  {
    if rs != [] {
      NoUpperBound(sc, rs[..|rs| - 1], lo, hi);
    }
  }

  lemma {:induction false} NoBounds(sc: Scheme<Event>, rs: seq<Record<Event>>)
    ensures Between(sc, rs, None, None) == rs
  {
    if rs != [] {
      NoBounds(sc, rs[..|rs| - 1]);
    }
  }

  lemma {:induction false} CutIsPrefix(sc: Scheme<Event>, rs: seq<Record<Event>>, lo: Option<int>, k: nat)
    requires Numbered(sc, rs) && k < |rs|
    ensures Between(sc, rs, lo, Some(k)) == Between(sc, rs[..k + 1], lo, None)
    decreases |rs|
  {
    if |rs| == k + 1 {
      assert rs[..k + 1] == rs;
      NoUpperBound(sc, rs, lo, k);
    } else {
      CutIsPrefix(sc, rs[..|rs| - 1], lo, k);
      assert rs[..|rs| - 1][..k + 1] == rs[..k + 1];
    }
  }

  /** Deriving at an earlier head of an extended intact log gives what deriving from the log at
      that time gave. */
  ghost predicate PrefixStable(sc: Scheme<Event>, d: Deriver)
  {
    forall lines, more, chain, inp :: lines != [] && Intact(sc, lines + more) ==>
      d(lines + more, chain, inp, Some(|lines| - 1)) == d(lines, chain, inp, None)
  }

  lemma DeriveIsPrefixStable(o: Outside, sc: Scheme<Event>, lines: seq<Line<Event>>, more: seq<Line<Event>>,
                             chain: ReferenceChain, inp: Inputs)
    requires Intact(sc, lines + more) && lines != []
    ensures Derive(o, sc, lines + more, chain, inp, Some(|lines| - 1)) == Derive(o, sc, lines, chain, inp, None)
  {
    hide DeriveFrom;
    IntactIsNumbered(sc, lines + more);
    RecordsOfPrefix(lines, more);
    CutIsPrefix(sc, Records(lines + more).value, None, |lines| - 1);
    CutIsPrefix(sc, Records(lines + more).value, Some(chain.ref.generation), |lines| - 1);
  }

  /** What the verifier reads in a bundle derived from a whole log. */
  ghost predicate Parts(o: Outside, sc: Scheme<Event>, lines: seq<Line<Event>>, c: ChainRef, inp: Inputs, b: Bundle)
  {
    && lines != [] && lines[|lines| - 1].Dict? && b.head == HashText(sc, lines[|lines| - 1].record)
    && b.chain == c && b.declared == inp.declared && b.mech == inp.mech
    && b.mac == o.mac(c.env, c.generation, inp.declared)
    && b.outcome.observedAt == inp.now && b.freshness.maxAge == inp.maxAge
    && b.coverage.evaluated == inp.objective.Some?
    && (inp.objective.Some? ==> b.coverage.desired == inp.objective.value.desired)
    && (forall i :: 0 <= i < |b.interactions| ==> CarriesRefs(c, b.interactions[i]))
    && (b.envState == Active ==> inp.now >= c.leaseStart)
    && (inp.now >= c.leaseEnd ==> b.limitations.leaseExpired)
    && SessionState(sc, lines, c) == Some(b.envState)
  }

  /** The fold over the session's later records; None where the environment was activated again. */
  ghost function SessionState(sc: Scheme<Event>, lines: seq<Line<Event>>, c: ChainRef): Option<EnvState>
  {
    if Records(lines).None? then None
    else
      var post := Between(sc, Records(lines).value, Some(c.generation), None);
      if Has(post, WasActivated) then None else Some(Fold(post))
  }

  ghost predicate DerivesParts(o: Outside, sc: Scheme<Event>, d: Deriver)
  {
    forall lines, chain, inp :: Intact(sc, lines) && d(lines, chain, inp, None).Ok? ==>
      Parts(o, sc, lines, chain.ref, inp, d(lines, chain, inp, None).value)
  }

  lemma {:induction false} CollectedCarryRefs(post: seq<Record<Event>>, c: ChainRef, start: int, now: int)
    ensures Interactions(post, c, start, now).Ok? ==>
              forall i :: 0 <= i < |Interactions(post, c, start, now).value.items| ==>
                CarriesRefs(c, Interactions(post, c, start, now).value.items[i])
  {
    if post != [] {
      CollectedCarryRefs(post[..|post| - 1], c, start, now);
    }
  }

  lemma DeriveGivesParts(o: Outside, sc: Scheme<Event>, lines: seq<Line<Event>>, chain: ReferenceChain, inp: Inputs)
    requires Intact(sc, lines) && Derive(o, sc, lines, chain, inp, None).Ok?
    ensures Parts(o, sc, lines, chain.ref, inp, Derive(o, sc, lines, chain, inp, None).value)
  {
    hide Interactions;
    hide Between;
    hide CarriesRefs;
    IntactIsNumbered(sc, lines);
    var all := Records(lines).value;
    NoBounds(sc, all);
    var post := Between(sc, all, Some(chain.ref.generation), None);
    CollectedCarryRefs(post, chain.ref, EventAt(WithSeq(sc, all, chain.ref.generation).value.body), inp.now);
  }

  /** `_derive` has both properties the results below need. */
  lemma DerivationIsSound(o: Outside, sc: Scheme<Event>)
    ensures PrefixStable(sc, Derivation(o, sc)) && DerivesParts(o, sc, Derivation(o, sc))
  {
    hide Derive;
    forall lines, more, chain, inp | lines != [] && Intact(sc, lines + more)
      ensures Derivation(o, sc)(lines + more, chain, inp, Some(|lines| - 1)) == Derivation(o, sc)(lines, chain, inp, None)
    {
      DeriveIsPrefixStable(o, sc, lines, more, chain, inp);
    }
    forall lines, chain, inp | Intact(sc, lines) && Derivation(o, sc)(lines, chain, inp, None).Ok?
      ensures Parts(o, sc, lines, chain.ref, inp, Derivation(o, sc)(lines, chain, inp, None).value)
    {
      DeriveGivesParts(o, sc, lines, chain, inp);
    }
  }

  // ----- acceptance

  ghost function AcceptedInputs(o: Outside, b: Bundle, chain: ReferenceChain, mechanism: Supplied): Inputs
    requires Normalized(o, b.declared).Ok? && RuntimeMechanism(mechanism, chain).Ok?
  {
    InputsOf(b, Normalized(o, b.declared).value, ObjectiveOf(b, chain.ref), RuntimeMechanism(mechanism, chain).value)
  }

  lemma {:induction false} FirstWithHash(sc: Scheme<Event>, rs: seq<Record<Event>>, h: string) returns (i: nat)
    requires WithHash(sc, rs, h).Some?
    ensures i < |rs| && rs[i] == WithHash(sc, rs, h).value && HashText(sc, rs[i]) == h
  {
    if HashText(sc, rs[0]) == h {
      i := 0;
    } else {
      i := FirstWithHash(sc, rs[1..], h);
      i := i + 1;
    }
  }

  lemma {:induction false} HashIsFound(sc: Scheme<Event>, rs: seq<Record<Event>>, i: nat)
    requires i < |rs|
    ensures WithHash(sc, rs, HashText(sc, rs[i])).Some?
  {
    if i > 0 && HashText(sc, rs[0]) != HashText(sc, rs[i]) {
      HashIsFound(sc, rs[1..], i - 1);
    }
  }

  /** The place of the record a head names in an intact log. */
  lemma HeadPlace(sc: Scheme<Event>, lines: seq<Line<Event>>, h: string) returns (k: nat)
    requires Intact(sc, lines) && Records(lines).Some?
    requires WithHash(sc, Records(lines).value, h).Some?
    ensures k < |lines| && lines[k] == Dict(WithHash(sc, Records(lines).value, h).value)
    ensures SeqNo(sc, lines[k].record) == k && HashText(sc, lines[k].record) == h
  {
    IntactIsNumbered(sc, lines);
    RecordsAreLines(lines);
    k := FirstWithHash(sc, Records(lines).value, h);
  }

  /** Nothing is accepted but what the log up to the named head derives to. */
  lemma AcceptedIsDerived(o: Outside, sc: Scheme<Event>, d: Deriver, store: Store, b: Bundle, chain: ReferenceChain,
                          now: int, maxAge: int, mechanism: Supplied, historical: bool) returns (k: nat)
    requires PrefixStable(sc, d)
    requires Verify(o, sc, d, store, b, chain, now, maxAge, mechanism, historical, Intact(sc, store.lines)) == Accepted
    ensures Intact(sc, store.lines) && Normalized(o, b.declared).Ok? && RuntimeMechanism(mechanism, chain).Ok?
    ensures ObjectiveOf(b, chain.ref).Some? ==> o.digest(ObjectiveOf(b, chain.ref).value) == chain.ref.objectiveDigest
    ensures 0 < k <= |store.lines| && store.lines[k - 1].Dict? && HashText(sc, store.lines[k - 1].record) == b.head
    ensures d(store.lines[..k], chain, AcceptedInputs(o, b, chain, mechanism), None) == Ok(b)
  {
    hide Between;
    hide Records;
    var place := HeadPlace(sc, store.lines, b.head);
    k := place + 1;
    assert store.lines[..k] + store.lines[k..] == store.lines;
    assert |store.lines[..k]| - 1 == place;
  }

  /** A bundle accepted as current, and every accepted bundle that claims a live session, is derived
      from the whole of the log as it stands: nothing was appended since, and the session's fold is
      still the state the bundle gives. */
  lemma AcceptedIsCurrent(o: Outside, sc: Scheme<Event>, d: Deriver, store: Store, b: Bundle, chain: ReferenceChain,
                          now: int, maxAge: int, mechanism: Supplied, historical: bool)
    requires EvidenceChain.Lawful(sc) && PrefixStable(sc, d) && DerivesParts(o, sc, d)
    requires Verify(o, sc, d, store, b, chain, now, maxAge, mechanism, historical, Intact(sc, store.lines)) == Accepted
    requires !historical || ClaimsLive(b)
    ensures Normalized(o, b.declared).Ok? && RuntimeMechanism(mechanism, chain).Ok?
    ensures d(store.lines, chain, AcceptedInputs(o, b, chain, mechanism), None) == Ok(b)
    ensures SessionState(sc, store.lines, chain.ref) == Some(b.envState)
  {
    hide Verify;
    hide Parts;
    var k := AcceptedIsDerived(o, sc, d, store, b, chain, now, maxAge, mechanism, historical);
    AcceptedAtHead(o, sc, d, store, b, chain, now, maxAge, mechanism, historical);
    var last := |store.lines| - 1;
    assert LinkIntact(sc, store.lines, last) && LinkIntact(sc, store.lines, k - 1);
    SameLastRecord(sc, store.lines, store.lines, k - 1, last);
    assert store.lines[..k] == store.lines;
    PartsGiveState(o, sc, store.lines, chain.ref, AcceptedInputs(o, b, chain, mechanism), b);
  }

  lemma AcceptedAtHead(o: Outside, sc: Scheme<Event>, d: Deriver, store: Store, b: Bundle, chain: ReferenceChain,
                       now: int, maxAge: int, mechanism: Supplied, historical: bool)
    requires Verify(o, sc, d, store, b, chain, now, maxAge, mechanism, historical, Intact(sc, store.lines)) == Accepted
    requires !historical || ClaimsLive(b)
    ensures HeadHash(sc, store.lines) == Ok(Some(b.head))
  {
    hide TimeVerdict;
    hide ChainProblem;
    hide InteractionProblem;
    hide Normalized;
  }

  lemma PartsGiveState(o: Outside, sc: Scheme<Event>, lines: seq<Line<Event>>, c: ChainRef, inp: Inputs, b: Bundle)
    requires Parts(o, sc, lines, c, inp, b)
    ensures SessionState(sc, lines, c) == Some(b.envState)
  {
    hide SessionState;
  }

  /** Two bundles accepted for one chain, whenever and whichever of the two logs is the longer,
      are equal once head, build time, max_age, mechanism, declarations and objective presence agree. */
  lemma AcceptedBundlesAgree(o: Outside, sc: Scheme<Event>, d: Deriver, s1: Store, s2: Store, b1: Bundle, b2: Bundle,
                             chain: ReferenceChain, now1: int, now2: int, maxAge1: int, maxAge2: int,
                             mechanism: Supplied, historical1: bool, historical2: bool)
    requires Feedback.Lawful(o) && EvidenceChain.Lawful(sc) && PrefixStable(sc, d)
    requires Verify(o, sc, d, s1, b1, chain, now1, maxAge1, mechanism, historical1, Intact(sc, s1.lines)) == Accepted
    requires Verify(o, sc, d, s2, b2, chain, now2, maxAge2, mechanism, historical2, Intact(sc, s2.lines)) == Accepted
    requires b1.head == b2.head && b1.outcome.observedAt == b2.outcome.observedAt
    requires b1.freshness.maxAge == b2.freshness.maxAge && b1.declared == b2.declared
    requires b1.coverage.evaluated == b2.coverage.evaluated
    ensures b1 == b2
  {
    hide Verify;
    var k1 := AcceptedIsDerived(o, sc, d, s1, b1, chain, now1, maxAge1, mechanism, historical1);
    var k2 := AcceptedIsDerived(o, sc, d, s2, b2, chain, now2, maxAge2, mechanism, historical2);
    SameLastRecord(sc, s1.lines, s2.lines, k1 - 1, k2 - 1);
    EqualBelow(sc, s1.lines, s2.lines, k1 - 1);
    assert ObjectiveOf(b1, chain.ref) == ObjectiveOf(b2, chain.ref);
  }

  // ----- what is built is accepted

  /** The chain's digest is the digest of an objective with the chain's references, as binding makes it. */
  ghost predicate Admitted(o: Outside, c: ChainRef)
  {
    exists desired :: o.digest(Objective(c.objectiveRef, c.hypothesisRefs, c.frameRef, desired)) == c.objectiveDigest
  }

  lemma {:induction false} NoProblemIffOwn(items: seq<Observation>, c: ChainRef)
    requires forall i :: 0 <= i < |items| ==> CarriesRefs(c, items[i])
    ensures InteractionProblem(items, c).None? <==> forall i :: 0 <= i < |items| ==> Own(items[i], c)
  {
    if items != [] {
      assert forall i :: 0 < i < |items| ==> items[i] == items[1..][i - 1];
      NoProblemIffOwn(items[1..], c);
    }
  }

  /** Build/verify round trip, as far as the bundle goes. At the same instant on the unchanged store and
      with the same mechanism, a built bundle is accepted exactly when its own anchor is within `maxAge`
      and its interactions name the chain's environment, node and package. What the anchor is of the
      log, `BundleAge` says. */
  lemma BuiltIsAcceptedIff(o: Outside, sc: Scheme<Event>, d: Deriver, store: Store, q: Request, b: Bundle,
                           maxAge: int, historical: bool)
    requires Feedback.Lawful(o) && EvidenceChain.Lawful(sc) && PrefixStable(sc, d) && DerivesParts(o, sc, d)
    requires forall e, s, p :: sc.hash(e, s, p) != ""
    requires Admitted(o, q.chain.ref)
    requires Build(o, sc, d, store, q, Intact(sc, store.lines)) == Ok(b)
    ensures Verify(o, sc, d, store.(hasKey := true), b, q.chain, q.now, maxAge, q.mechanism, historical,
                   Intact(sc, store.lines)) == Accepted
            <==> q.now - b.freshness.anchor <= maxAge
                 && forall i :: 0 <= i < |b.interactions| ==> Own(b.interactions[i], q.chain.ref)
  {
    hide Between;
    var c := q.chain.ref;
    var lines := store.lines;
    var declared := Normalized(o, q.raw).value;
    var mech := RuntimeMechanism(q.mechanism, q.chain).value;
    var inp := Inputs(q.now, q.maxAge, declared, q.objective, mech);
    assert Parts(o, sc, lines, c, inp, b);
    NoProblemIffOwn(b.interactions, c);
    LastIsHead(sc, lines);
    ObjectiveIsRebuilt(o, c, q.objective, b);
    NoEndIff(sc, Records(lines).value, c.generation);
    assert Normalized(o, declared) == Ok(declared);
    assert InputsOf(b, declared, q.objective, mech) == inp;
    assert lines + [] == lines;
    assert d(lines, q.chain, inp, Some(|lines| - 1)) == Ok(b);
  }

  lemma ObjectiveIsRebuilt(o: Outside, c: ChainRef, given: Option<Objective>, b: Bundle)
    requires Feedback.Lawful(o) && Admitted(o, c)
    requires given.Some? ==> o.digest(given.value) == c.objectiveDigest && b.coverage.desired == given.value.desired
    requires b.coverage.evaluated == given.Some?
    ensures ObjectiveOf(b, c) == given
  {
    if given.Some? {
      var desired :| o.digest(Objective(c.objectiveRef, c.hypothesisRefs, c.frameRef, desired)) == c.objectiveDigest;
      assert given.value == Objective(c.objectiveRef, c.hypothesisRefs, c.frameRef, desired);
    }
  }

  /** In an intact log the last record is the one its hash finds, and its hash is the head. */
  lemma LastIsHead(sc: Scheme<Event>, lines: seq<Line<Event>>)
    requires EvidenceChain.Lawful(sc) && Intact(sc, lines) && lines != []
    requires forall e, s, p :: sc.hash(e, s, p) != ""
    ensures Records(lines).Some? && lines[|lines| - 1].Dict?
    ensures var h := HashText(sc, lines[|lines| - 1].record);
            && h != "" && HeadHash(sc, lines) == Ok(Some(h))
            && WithHash(sc, Records(lines).value, h).Some?
            && SeqNo(sc, WithHash(sc, Records(lines).value, h).value) == |lines| - 1
  {
    var last := |lines| - 1;
    assert LinkIntact(sc, lines, last);
    IntactIsNumbered(sc, lines);
    var all := Records(lines).value;
    HashIsFound(sc, all, last);
    var k := HeadPlace(sc, lines, HashText(sc, all[last]));
    SameLastRecord(sc, lines, lines, k, last);
  }
}
