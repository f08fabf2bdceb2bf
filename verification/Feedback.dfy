/** `runtime/mio_feedback.py`: deriving a feedback bundle from the evidence log, building one,
    and verifying one by deriving it again. Times and ages are integers of one unit. */
module Feedback {
  import opened Common
  import opened Events
  import opened EvidenceChain

  datatype Code =
    | DecisionMismatch | LeaseExpired | LeaseNotStarted | EnvironmentMismatch | PackageMismatch | NodeMismatch
    | SessionMismatch | SessionReset | EffectDecisionMismatch | EffectRejected | EvidenceTampered | Stale
    | InteractionUnbound | TelemetryMissing
    | BadArgument // a plain ValueError, which only `build_feedback_bundle` lets through

  const MAX_INTERACTIONS := 256
  const MAX_INTERACTION_BYTES := 8192
  const CLOCK_SKEW := 5

  datatype Objective = Objective(objectiveRef: string, hypothesisRefs: seq<string>, frameRef: string,
                                 desired: seq<(string, string)>)

  /** The part of a reference chain that is written into a bundle. */
  datatype ChainRef = ChainRef(
    objectiveRef: string, hypothesisRefs: seq<string>, frameRef: string, decisionId: string,
    decisionDigest: string, leaseStart: int, leaseEnd: int, traceId: string, effectRef: string,
    env: string, packageId: string, packageDigest: string, nodeId: string, sessionRef: string,
    generation: nat, objectiveDigest: string, contentBound: bool)

  datatype Effect = Effect(effectId: string, decisionRef: string, expiresAt: int)

  datatype ReferenceChain = ReferenceChain(ref: ChainRef, effect: Option<Effect>)

  datatype Mechanism = Mechanism(traceId: string, decisionRef: string, detail: string)

  /** What a caller hands in as Edge's mechanism evidence. */
  datatype Supplied = NotSupplied | Unparsable | Parsed(mech: Mechanism)

  datatype Declared = Declared(expected: seq<string>, observed: seq<string>, assertions: seq<string>,
                               surfaces: seq<string>, surfaceTelemetry: map<string, string>)

  /** The `limitations` list, whose entries have a fixed order: one field per entry that may be
      there, besides the two that always are. */
  datatype Limitations = Limitations(
    contentNotBound: bool, objectiveNotSupplied: bool, noInteractionIsNotSafety: bool, gaps: seq<string>,
    stale: bool, leaseExpired: bool, activeAfterLease: bool, redirectionIsNotDiversion: bool,
    driftObserved: bool, isolationNotAsserted: bool, truncated: bool, unboundExcluded: nat, outsideLease: nat,
    stateNotReverified: bool, effectWithheld: bool, sessionEnded: bool, terrainNotProjected: bool)

  /** Why an effect ended or failed; `Given` is the reason of the termination event. */
  datatype Reason = DriftReason | LeaseReason | FailureReason | ResetReason | TerminationReason | Given(text: string)

  datatype EffectStatus = EffectFailed(reason: Reason) | EffectTerminated(reason: Reason)

  datatype EntryStatus =
    | Observed | ConfoundedOnly | OutsideLeaseOnly | NotObservedWithCoverage
    | UnmappedSurface(surface: string) | UndeterminableGap(name: string)

  datatype Entry = Entry(hypothesis: string, cls: string, surface: string, status: EntryStatus,
                         observed: nat, confounded: nat, outside: nat, ids: seq<string>, truncated: bool)

  datatype Coverage = Coverage(evaluated: bool, objectiveRef: string, frameRef: string,
                               desired: seq<(string, string)>, entries: seq<Entry>,
                               counts: map<string, nat>, confounders: map<string, nat>)

  datatype IsolationStatus = DriftSeen | Asserted | Unknown

  datatype Freshness = Freshness(anchor: int, age: int, maxAge: int, isFresh: bool, fromInteraction: bool)

  /** The Fabric outcome envelope; `content` is everything in it the verifier does not read. */
  datatype Outcome = Outcome(observedAt: int, gaps: seq<string>, content: string)

  datatype Bundle = Bundle(
    chain: ChainRef, declared: Declared, mac: string, envState: EnvState,
    effectObservation: Option<string>, terrain: Option<string>, mech: Option<Mechanism>,
    activatedHash: string, interactions: seq<Observation>, truncated: bool, coverage: Coverage,
    outcome: Outcome, freshness: Freshness, isolation: IsolationStatus, driftCount: nat,
    limitations: Limitations, head: string)

  /** Arguments of the Fabric projections that are outside this model. */
  datatype Projection = Projection(
    chain: ReferenceChain, envState: EnvState, activatedAt: int, endedAt: Option<int>, resetHash: Option<string>,
    mech: Option<Mechanism>, assertions: seq<string>, now: int, head: string)

  datatype EffectArgs = EffectArgs(effect: Effect, status: EffectStatus, now: int, mech: Option<Mechanism>,
                                   head: string, limitations: Limitations)

  datatype EnvelopeArgs = EnvelopeArgs(
    chain: ReferenceChain, terrain: Option<string>, effectObservation: Option<string>, declared: Declared,
    gaps: seq<string>, confounders: set<string>, interactionCount: nat, driftCount: nat, head: string, now: int)

  /** Deterministic helpers of this module and of Fabric, as functions: name and reference
      validation, digests and MACs, and the wire-object builders, each None where it raises. */
  datatype Outside = Outside(
    names: seq<string> -> Option<seq<string>>,
    refs: seq<string> -> Option<seq<string>>,
    surfaceMapOk: map<string, string> -> bool,
    digest: Objective -> string,
    mac: (string, nat, Declared) -> string,
    terrain: Projection -> Result<Option<string>, Code>,
    observe: EffectArgs -> Option<string>,
    envelope: EnvelopeArgs -> Option<string>,
    isClean: Bundle -> bool)

  ghost predicate Lawful(o: Outside)
  {
    && (forall s :: o.names(s).Some? ==> o.names(o.names(s).value) == o.names(s))
    && (forall s :: o.refs(s).Some? ==> o.refs(o.refs(s).value) == o.refs(s))
    && (forall a, b :: o.digest(a) == o.digest(b) ==> a == b)
  }

  datatype Store = Store(lines: seq<Line<Event>>, state: Option<StateRecord>, hasKey: bool)

  // ----- reading the log

  /** None where a line is not a mapping, which a verified chain excludes. */
  function Records(lines: seq<Line<Event>>): Option<seq<Record<Event>>>
  {
    if lines == [] then Some([])
    else
      match Records(lines[..|lines| - 1])
      case None => None
      case Some(rs) => if lines[|lines| - 1].Junk? then None else Some(rs + [lines[|lines| - 1].record])
  }

  /** `_seq`: -1 for anything that is not an integer. */
  function SeqNo(sc: Scheme<Event>, r: Record<Event>): int
  {
    match AsInt(sc, r.seqField)
    case None => -1
    case Some(n) => n
  }

  /** The records with lo < sequence <= hi, in log order; None is no bound. */
  function Between(sc: Scheme<Event>, rs: seq<Record<Event>>, lo: Option<int>, hi: Option<int>): seq<Record<Event>>
  {
    if rs == [] then []
    else
      var last := rs[|rs| - 1];
      Between(sc, rs[..|rs| - 1], lo, hi) +
      if (lo.None? || lo.value < SeqNo(sc, last)) && (hi.None? || SeqNo(sc, last) <= hi.value) then [last] else []
  }

  function HashText(sc: Scheme<Event>, r: Record<Event>): string
  {
    sc.str(r.hashField)
  }

  /** The first record with sequence number `n`. */
  function WithSeq(sc: Scheme<Event>, rs: seq<Record<Event>>, n: int): Option<Record<Event>>
  {
    if rs == [] then None
    else if SeqNo(sc, rs[0]) == n then Some(rs[0])
    else WithSeq(sc, rs[1..], n)
  }

  /** The last record of a kind. */
  function LastOf(rs: seq<Record<Event>>, k: Kind): Option<Record<Event>>
  {
    if rs == [] then None
    else if IsKind(rs[|rs| - 1].body, k) then Some(rs[|rs| - 1])
    else LastOf(rs[..|rs| - 1], k)
  }

  predicate Has(rs: seq<Record<Event>>, k: Kind)
  {
    LastOf(rs, k).Some?
  }

  function Drifts(rs: seq<Record<Event>>): nat
  {
    if rs == [] then 0 else Drifts(rs[..|rs| - 1]) + if rs[|rs| - 1].body.Drift? then 1 else 0
  }

  function EventAt(e: Event): int
  {
    match e
    case Lifecycle(_, _, _, _, at) => at
    case Interaction(o) => o.at
    case Drift(_, _, _, _) => 0
    case BadInteraction => 0
  }

  // ----- interactions

  /** `ReferenceChain.evidence_refs`. */
  function EvidenceRefs(c: ChainRef): seq<string>
  {
    [c.objectiveRef] + c.hypothesisRefs +
    [c.frameRef, "decision:" + c.decisionId, c.sessionRef, "environment:" + c.env]
  }

  predicate CarriesRefs(c: ChainRef, o: Observation)
  {
    forall r :: r in EvidenceRefs(c) ==> r in o.refs
  }

  datatype Collected = Collected(items: seq<Observation>, unbound: nat)

  predicate IdUsed(items: seq<Observation>, id: string)
  {
    items != [] && (items[|items| - 1].id == id || IdUsed(items[..|items| - 1], id))
  }

  /** One record of the interaction loop. */
  function Collect(acc: Collected, c: ChainRef, e: Event, start: int, now: int): Result<Collected, Code>
  {
    match e
    case Lifecycle(_, _, _, _, _) => Ok(acc)
    case Drift(_, _, _, _) => Ok(acc)
    case BadInteraction => Err(EvidenceTampered)
    case Interaction(o) =>
      if !CarriesRefs(c, o) then Ok(acc.(unbound := acc.unbound + 1))
      else if o.size > MAX_INTERACTION_BYTES then Err(EvidenceTampered)
      else if IdUsed(acc.items, o.id) then Err(EvidenceTampered)
      else if o.at < start - CLOCK_SKEW || o.at > now + CLOCK_SKEW then Err(EvidenceTampered)
      else Ok(acc.(items := acc.items + [o]))
  }

  function Interactions(post: seq<Record<Event>>, c: ChainRef, start: int, now: int): Result<Collected, Code>
  {
    if post == [] then Ok(Collected([], 0))
    else
      match Interactions(post[..|post| - 1], c, start, now)
      case Err(code) => Err(code)
      case Ok(acc) => Collect(acc, c, post[|post| - 1].body, start, now)
  }

  /** The interaction loop of `_derive`. */
  method CollectInteractions(post: seq<Record<Event>>, c: ChainRef, start: int, now: int)
    returns (r: Result<Collected, Code>)
    ensures r == Interactions(post, c, start, now)
  {
    var items: seq<Observation> := [];
    var seen: set<string> := {};
    var unbound := 0;
    for k := 0 to |post|
      invariant Interactions(post[..k], c, start, now) == Ok(Collected(items, unbound))
      invariant forall id :: id in seen <==> IdUsed(items, id)
    {
      assert post[..k + 1][..k] == post[..k];
      assert forall n | k < n <= |post| :: post[..n][..|post[..n]| - 1] == post[..n - 1];
      var e := post[k].body;
      if e.BadInteraction? || (e.Interaction? && CarriesRefs(c, e.obs) &&
           (e.obs.size > MAX_INTERACTION_BYTES || e.obs.id in seen
            || e.obs.at < start - CLOCK_SKEW || e.obs.at > now + CLOCK_SKEW)) {
        RefusalStays(post, c, start, now, k + 1);
        return Err(EvidenceTampered);
      }
      if e.Interaction? {
        if !CarriesRefs(c, e.obs) {
          unbound := unbound + 1;
        } else {
          assert (items + [e.obs])[..|items|] == items;
          seen := seen + {e.obs.id};
          items := items + [e.obs];
        }
      }
    }
    assert post[..|post|] == post;
    return Ok(Collected(items, unbound));
  }

  /** A refused prefix refuses the whole. */
  lemma {:induction false} RefusalStays(post: seq<Record<Event>>, c: ChainRef, start: int, now: int, k: nat)
    requires k <= |post| && Interactions(post[..k], c, start, now).Err?
    ensures Interactions(post, c, start, now) == Interactions(post[..k], c, start, now)
    decreases |post|
  {
    if k < |post| {
      assert post[..|post| - 1][..k] == post[..k];
      RefusalStays(post[..|post| - 1], c, start, now, k);
    } else {
      assert post[..k] == post;
    }
  }

  /** The newest of the session's start and its interactions. */
  function Anchor(start: int, items: seq<Observation>): int
  {
    if items == [] then start else Max(Anchor(start, items[..|items| - 1]), items[|items| - 1].at)
  }

  function OutsideCount(items: seq<Observation>): nat
  {
    if items == [] then 0 else OutsideCount(items[..|items| - 1]) + if items[|items| - 1].outsideLease then 1 else 0
  }

  function Missing(expected: seq<string>, observed: seq<string>): seq<string>
  {
    if expected == [] then []
    else (if expected[0] in observed then [] else [expected[0]]) + Missing(expected[1..], observed)
  }

  function Tags(items: seq<Observation>): set<string>
  {
    set i, t | 0 <= i < |items| && t in items[i].confounders :: t
  }

  // ----- objective coverage

  predicate Wanted(o: Observation, cls: string, surface: string)
  {
    o.cls == cls && o.surface == surface
  }

  predicate Clean(o: Observation)
  {
    o.confounders == [] && !o.outsideLease
  }

  /** The matching observations, in order. */
  function Matching(items: seq<Observation>, cls: string, surface: string): seq<Observation>
  {
    if items == [] then []
    else
      Matching(items[..|items| - 1], cls, surface) +
      if Wanted(items[|items| - 1], cls, surface) then [items[|items| - 1]] else []
  }

  function Confounded(items: seq<Observation>): nat
  {
    if items == [] then 0
    else Confounded(items[..|items| - 1]) + if items[|items| - 1].confounders != [] then 1 else 0
  }

  function CleanCount(items: seq<Observation>): nat
  {
    if items == [] then 0 else CleanCount(items[..|items| - 1]) + if Clean(items[|items| - 1]) then 1 else 0
  }

  function Ids(items: seq<Observation>): (ids: seq<string>)
    ensures |ids| == |items|
  {
    seq(|items|, i requires 0 <= i < |items| => items[i].id)
  }

  function StatusOf(matching: seq<Observation>, surface: string, d: Declared): EntryStatus
  {
    if CleanCount(matching) > 0 then Observed
    else if matching != [] then
      if OutsideCount(matching) < |matching| then ConfoundedOnly else OutsideLeaseOnly
    else if surface !in d.surfaceTelemetry then UnmappedSurface(surface)
    else if d.surfaceTelemetry[surface] in d.observed then NotObservedWithCoverage
    else UndeterminableGap(d.surfaceTelemetry[surface])
  }

  function EntryFor(h: string, want: (string, string), items: seq<Observation>, d: Declared): Entry
  {
    var m := Matching(items, want.0, want.1);
    Entry(h, want.0, want.1, StatusOf(m, want.1, d), |m|, Confounded(m), OutsideCount(m),
          if |m| <= 8 then Ids(m) else Ids(m)[..8], |m| > 8)
  }

  function EntriesFor(h: string, desired: seq<(string, string)>, items: seq<Observation>, d: Declared): seq<Entry>
  {
    if desired == [] then []
    else EntriesFor(h, desired[..|desired| - 1], items, d) + [EntryFor(h, desired[|desired| - 1], items, d)]
  }

  function Entries(hs: seq<string>, desired: seq<(string, string)>, items: seq<Observation>, d: Declared): seq<Entry>
  {
    if hs == [] then []
    else Entries(hs[..|hs| - 1], desired, items, d) + EntriesFor(hs[|hs| - 1], desired, items, d)
  }

  function Bump(m: map<string, nat>, key: string): map<string, nat>
  {
    m[key := (if key in m then m[key] else 0) + 1]
  }

  function BumpAll(m: map<string, nat>, keys: seq<string>): map<string, nat>
  {
    if keys == [] then m else Bump(BumpAll(m, keys[..|keys| - 1]), keys[|keys| - 1])
  }

  function Counts(items: seq<Observation>): map<string, nat>
  {
    if items == [] then map[]
    else Bump(Counts(items[..|items| - 1]), items[|items| - 1].cls + ":" + items[|items| - 1].surface)
  }

  function TagCounts(items: seq<Observation>): map<string, nat>
  {
    if items == [] then map[]
    else BumpAll(TagCounts(items[..|items| - 1]), items[|items| - 1].confounders)
  }

  function CoverageOf(obj: Option<Objective>, items: seq<Observation>, d: Declared): Coverage
  {
    match obj
    case None => Coverage(false, "", "", [], [], Counts(items), TagCounts(items))
    case Some(o) =>
      Coverage(true, o.objectiveRef, o.frameRef, o.desired,
               Entries(o.hypothesisRefs, o.desired, items, d), Counts(items), TagCounts(items))
  }

  /** The counters of `_objective_coverage`. */
  method CountContacts(items: seq<Observation>) returns (counts: map<string, nat>, tags: map<string, nat>)
    ensures counts == Counts(items) && tags == TagCounts(items)
  {
    counts, tags := map[], map[];
    for k := 0 to |items|
      invariant counts == Counts(items[..k]) && tags == TagCounts(items[..k])
    {
      assert items[..k + 1][..k] == items[..k];
      counts := Bump(counts, items[k].cls + ":" + items[k].surface);
      ghost var before := tags;
      var given := items[k].confounders;
      for t := 0 to |given|
        invariant tags == BumpAll(before, given[..t])
      {
        assert given[..t + 1][..t] == given[..t];
        tags := Bump(tags, given[t]);
      }
      assert given[..|given|] == given;
    }
    assert items[..|items|] == items;
  }

  method EntriesOfHypothesis(h: string, desired: seq<(string, string)>, items: seq<Observation>, d: Declared)
    returns (entries: seq<Entry>)
    ensures entries == EntriesFor(h, desired, items, d)
  {
    entries := [];
    for w := 0 to |desired|
      invariant entries == EntriesFor(h, desired[..w], items, d)
    {
      assert desired[..w + 1][..w] == desired[..w];
      entries := entries + [EntryFor(h, desired[w], items, d)];
    }
    assert desired[..|desired|] == desired;
  }

  /** `_objective_coverage`: entries filled hypothesis by hypothesis, desired pair by desired pair. */
  method ObjectiveCoverage(obj: Option<Objective>, items: seq<Observation>, d: Declared) returns (r: Coverage)
    ensures r == CoverageOf(obj, items, d)
  {
    hide Counts;
    hide TagCounts;
    hide EntriesFor;
    var counts, tags := CountContacts(items);
    if obj.None? {
      return Coverage(false, "", "", [], [], counts, tags);
    }
    var hs, desired := obj.value.hypothesisRefs, obj.value.desired;
    var entries: seq<Entry> := [];
    for h := 0 to |hs|
      invariant entries == Entries(hs[..h], desired, items, d)
    {
      assert hs[..h + 1][..h] == hs[..h];
      var more := EntriesOfHypothesis(hs[h], desired, items, d);
      entries := entries + more;
    }
    assert hs[..|hs|] == hs;
    return Coverage(true, obj.value.objectiveRef, obj.value.frameRef, desired, entries, counts, tags);
  }

  // ----- derivation

  datatype Inputs = Inputs(now: int, maxAge: int, declared: Declared, objective: Option<Objective>,
                           mech: Option<Mechanism>)

  /** The fold of the session's later records into one environment state. */
  function Fold(post: seq<Record<Event>>): EnvState
  {
    if Has(post, ResetCompleted) then Reset
    else if Has(post, WasTerminated) then Terminated
    else if Has(post, Failure(ActivationStage)) || Has(post, Failure(TerminationStage)) then Failed
    else Active
  }

  predicate IsSessionStart(sc: Scheme<Event>, c: ChainRef, r: Record<Event>)
  {
    && IsKind(r.body, WasActivated)
    && "session:" + HashText(sc, r) == c.sessionRef
    && r.body.env == c.env && r.body.decision == c.decisionId
  }

  function LimitationsOf(c: ChainRef, inp: Inputs, env: EnvState, items: seq<Observation>, truncated: bool,
                         unbound: nat, gaps: seq<string>, isFresh: bool, drift: bool, terrain: bool): Limitations
  {
    var closed := inp.now >= c.leaseEnd;
    Limitations(!c.contentBound, inp.objective.None?, items == [], gaps, !isFresh, closed, closed && env == Active,
                inp.mech.Some?, drift, !drift && inp.declared.assertions == [], truncated, unbound,
                OutsideCount(items), env == Active, env == Active && !drift && !closed, env == Reset, !terrain)
  }

  /** Effect status and reason; None for a persisted "active" with no failure fact. */
  function EffectStatusOf(env: EnvState, drift: bool, overrun: bool, post: seq<Record<Event>>): Option<EffectStatus>
  {
    if drift then Some(EffectFailed(DriftReason))
    else if overrun then Some(EffectFailed(LeaseReason))
    else if env == Active then None
    else if env == Terminated || env == Reset then Some(EffectTerminated(EndReason(post)))
    else Some(EffectFailed(FailureReason))
  }

  function EndReason(post: seq<Record<Event>>): Reason
  {
    match LastOf(post, WasTerminated)
    case None => ResetReason
    case Some(r) =>
      if !r.body.Lifecycle? || r.body.reason == "" then TerminationReason
      else Given(if |r.body.reason| > 200 then r.body.reason[..200] else r.body.reason)
  }

  /** `_derive` from the records it selects: `rs` up to the cut, `drifts` from the drift reader. */
  function DeriveFrom(o: Outside, sc: Scheme<Event>, chain: ReferenceChain, inp: Inputs,
                      rs: seq<Record<Event>>, drifts: nat): Result<Bundle, Code>
  {
    var c := chain.ref;
    if chain.effect.None? then Err(EffectRejected)
    else if rs == [] then Err(EvidenceTampered)
    else
      var activated := WithSeq(sc, rs, c.generation);
      if activated.None? || !IsSessionStart(sc, c, activated.value) then Err(SessionMismatch)
      else
        var post := Between(sc, rs, Some(c.generation), None);
        if Has(post, WasActivated) then Err(SessionMismatch)
        else
          match Interactions(post, c, EventAt(activated.value.body), inp.now)
          case Err(code) => Err(code)
          case Ok(got) =>
            var head := HashText(sc, rs[|rs| - 1]);
            Assemble(o, sc, chain, inp, activated.value, post, got, head, drifts)
  }

  /** `_terrain`, projected only with isolation assertions and a mechanism. */
  function TerrainOf(o: Outside, sc: Scheme<Event>, chain: ReferenceChain, inp: Inputs, start: int,
                     post: seq<Record<Event>>, head: string): Result<Option<string>, Code>
  {
    var reset := LastOf(post, ResetCompleted);
    var ended := if reset.Some? then reset else LastOf(post, WasTerminated);
    if inp.declared.assertions == [] || inp.mech.None? then Ok(None)
    else o.terrain(Projection(chain, Fold(post), start, if ended.Some? then Some(EventAt(ended.value.body)) else None,
                              if reset.Some? then Some(HashText(sc, reset.value)) else None,
                              inp.mech, inp.declared.assertions, inp.now, head))
  }

  /** The effect observation: none for a status that is withheld, within the effect's own window. */
  function EffectOf(o: Outside, effect: Effect, status: Option<EffectStatus>, inp: Inputs, head: string,
                    limits: Limitations): Result<Option<string>, Code>
  {
    if status.None? then (if inp.now > effect.expiresAt then Err(EffectRejected) else Ok(None))
    else
      var obs := o.observe(EffectArgs(effect, status.value, inp.now, inp.mech, head, limits));
      if obs.None? then Err(EffectRejected) else Ok(obs)
  }

  function Assemble(o: Outside, sc: Scheme<Event>, chain: ReferenceChain, inp: Inputs, activated: Record<Event>,
                    post: seq<Record<Event>>, got: Collected, head: string, drifts: nat): Result<Bundle, Code>
    requires chain.effect.Some?
  {
    var c := chain.ref;
    var effect := chain.effect.value;
    var env := Fold(post);
    var truncated := |got.items| > MAX_INTERACTIONS;
    var items := if truncated then got.items[..MAX_INTERACTIONS] else got.items;
    var isolation := if drifts > 0 then DriftSeen else if inp.declared.assertions != [] then Asserted else Unknown;
    var anchor := Anchor(EventAt(activated.body), items);
    var age := Max(0, inp.now - anchor);
    var gaps := Missing(inp.declared.expected, inp.declared.observed);
    var closed := inp.now >= c.leaseEnd;
    if inp.now - anchor < -CLOCK_SKEW then Err(Stale)
    else if env == Active && inp.now < c.leaseStart then Err(LeaseNotStarted)
    else
      match TerrainOf(o, sc, chain, inp, EventAt(activated.body), post, head)
      case Err(code) => Err(code)
      case Ok(terr) =>
        var limits := LimitationsOf(c, inp, env, items, truncated, got.unbound, gaps, age <= inp.maxAge,
                                    drifts > 0, terr.Some?);
        var status := EffectStatusOf(env, drifts > 0, env == Active && closed, post);
        match EffectOf(o, effect, status, inp, head, limits)
        case Err(code) => Err(code)
        case Ok(obs) =>
          match o.envelope(EnvelopeArgs(chain, terr, obs, inp.declared, gaps, Tags(items), |items|, drifts, head, inp.now))
          case None => Err(EffectDecisionMismatch)
          case Some(content) =>
            var b := Bundle(c, inp.declared, o.mac(c.env, c.generation, inp.declared), env, obs, terr, inp.mech,
                            HashText(sc, activated), items, truncated,
                            CoverageOf(inp.objective, items, inp.declared),
                            Outcome(inp.now, gaps, content),
                            Freshness(anchor, age, inp.maxAge, age <= inp.maxAge, items != []),
                            isolation, drifts, limits, head);
            if o.isClean(b) then Ok(b) else Err(EvidenceTampered)
  }

  /** `_derive`; `upto` cuts the log at a sequence number. */
  function Derive(o: Outside, sc: Scheme<Event>, lines: seq<Line<Event>>, chain: ReferenceChain, inp: Inputs,
                  upto: Option<int>): Result<Bundle, Code>
  {
    if chain.effect.None? then Err(EffectRejected)
    else
      match Records(lines)
      case None => Err(EvidenceTampered)
      case Some(all) =>
        DeriveFrom(o, sc, chain, inp, Between(sc, all, None, upto),
                   Drifts(Between(sc, all, Some(chain.ref.generation), upto)))
  }

  // ----- `_derive`, step by step

  /** `_read_records`: refuses where a line is not a mapping. */
  method ReadRecords(lines: seq<Line<Event>>) returns (r: Option<seq<Record<Event>>>)
    ensures r == Records(lines)
  {
    var rs: seq<Record<Event>> := [];
    for k := 0 to |lines|
      invariant Records(lines[..k]) == Some(rs)
    {
      assert lines[..k + 1][..k] == lines[..k];
      if lines[k].Junk? {
        UnreadableStays(lines, k + 1);
        return None;
      }
      rs := rs + [lines[k].record];
    }
    assert lines[..|lines|] == lines;
    return Some(rs);
  }

  lemma {:induction false} UnreadableStays(lines: seq<Line<Event>>, k: nat)
    requires k <= |lines| && Records(lines[..k]).None?
    ensures Records(lines).None?
    decreases |lines|
  {
    if k < |lines| {
      assert lines[..|lines| - 1][..k] == lines[..k];
      UnreadableStays(lines[..|lines| - 1], k);
    } else {
      assert lines[..k] == lines;
    }
  }

  method Select(sc: Scheme<Event>, rs: seq<Record<Event>>, lo: Option<int>, hi: Option<int>) returns (r: seq<Record<Event>>)
    ensures r == Between(sc, rs, lo, hi)
  {
    r := [];
    for k := 0 to |rs|
      invariant r == Between(sc, rs[..k], lo, hi)
    {
      assert rs[..k + 1][..k] == rs[..k];
      if (lo.None? || lo.value < SeqNo(sc, rs[k])) && (hi.None? || SeqNo(sc, rs[k]) <= hi.value) {
        r := r + [rs[k]];
      }
    }
    assert rs[..|rs|] == rs;
  }

  method FindSeq(sc: Scheme<Event>, rs: seq<Record<Event>>, n: int) returns (r: Option<Record<Event>>)
    ensures r == WithSeq(sc, rs, n)
  {
    for k := 0 to |rs|
      invariant WithSeq(sc, rs, n) == WithSeq(sc, rs[k..], n)
    {
      if SeqNo(sc, rs[k]) == n {
        return Some(rs[k]);
      }
      assert rs[k..][1..] == rs[k + 1..];
    }
    return None;
  }

  method CountDrifts(rs: seq<Record<Event>>) returns (n: nat)
    ensures n == Drifts(rs)
  {
    n := 0;
    for k := 0 to |rs|
      invariant n == Drifts(rs[..k])
    {
      assert rs[..k + 1][..k] == rs[..k];
      if rs[k].body.Drift? {
        n := n + 1;
      }
    }
    assert rs[..|rs|] == rs;
  }

  method ProjectTerrain(o: Outside, sc: Scheme<Event>, chain: ReferenceChain, inp: Inputs, start: int,
                        post: seq<Record<Event>>, head: string) returns (r: Result<Option<string>, Code>)
    ensures r == TerrainOf(o, sc, chain, inp, start, post, head)
  {
    hide LastOf;
    var resets, ended := LastOf(post, ResetCompleted), LastOf(post, WasTerminated);
    var endedAt, resetHash: Option<string> := None, None;
    if ended.Some? {
      endedAt := Some(EventAt(ended.value.body));
    }
    if resets.Some? {
      endedAt, resetHash := Some(EventAt(resets.value.body)), Some(HashText(sc, resets.value));
    }
    if inp.declared.assertions == [] || inp.mech.None? {
      return Ok(None);
    }
    return o.terrain(Projection(chain, Fold(post), start, endedAt, resetHash, inp.mech, inp.declared.assertions, inp.now, head));
  }

  method FoldRecords(post: seq<Record<Event>>) returns (env: EnvState)
    ensures env == Fold(post)
  {
    hide Has;
    env := Active;
    if Has(post, ResetCompleted) {
      env := Reset;
    } else if Has(post, WasTerminated) {
      env := Terminated;
    } else if Has(post, Failure(ActivationStage)) || Has(post, Failure(TerminationStage)) {
      env := Failed;
    }
  }

  /** From the selected records on: state, freshness, lease, isolation, effect, coverage, envelope. */
  method AssembleBundle(o: Outside, sc: Scheme<Event>, chain: ReferenceChain, inp: Inputs, activated: Record<Event>,
                        post: seq<Record<Event>>, got: Collected, head: string, drifts: nat) returns (r: Result<Bundle, Code>)
    requires chain.effect.Some?
    ensures r == Assemble(o, sc, chain, inp, activated, post, got, head, drifts)
  {
    hide LimitationsOf;
    hide CoverageOf;
    hide Anchor;
    hide Missing;
    hide Has;
    hide TerrainOf;
    hide EffectOf;
    hide EffectStatusOf;
    hide Fold;
    hide Max;
    hide Tags;
    hide HashText;
    hide EventAt;
    var c := chain.ref;
    var env := FoldRecords(post);
    var items, truncated := got.items, |got.items| > MAX_INTERACTIONS;
    if truncated {
      items := items[..MAX_INTERACTIONS];
    }
    var start := EventAt(activated.body);
    var anchor := Anchor(start, items);
    if inp.now - anchor < -CLOCK_SKEW {
      return Err(Stale);
    }
    var age := Max(0, inp.now - anchor);
    var gaps := Missing(inp.declared.expected, inp.declared.observed);
    if env == Active && inp.now < c.leaseStart {
      return Err(LeaseNotStarted);
    }
    var terrain := ProjectTerrain(o, sc, chain, inp, start, post, head);
    if terrain.Err? {
      return Err(terrain.error);
    }
    var limits := LimitationsOf(c, inp, env, items, truncated, got.unbound, gaps, age <= inp.maxAge, drifts > 0, terrain.value.Some?);
    var status := EffectStatusOf(env, drifts > 0, env == Active && inp.now >= c.leaseEnd, post);
    var effect := EffectOf(o, chain.effect.value, status, inp, head, limits);
    if effect.Err? {
      return Err(effect.error);
    }
    var coverage := ObjectiveCoverage(inp.objective, items, inp.declared);
    var content := o.envelope(EnvelopeArgs(chain, terrain.value, effect.value, inp.declared, gaps, Tags(items), |items|, drifts, head, inp.now));
    if content.None? {
      return Err(EffectDecisionMismatch);
    }
    var isolation := if drifts > 0 then DriftSeen else if inp.declared.assertions != [] then Asserted else Unknown;
    var b := Bundle(c, inp.declared, o.mac(c.env, c.generation, inp.declared), env, effect.value, terrain.value, inp.mech,
                    HashText(sc, activated), items, truncated, coverage, Outcome(inp.now, gaps, content.value),
                    Freshness(anchor, age, inp.maxAge, age <= inp.maxAge, items != []), isolation, drifts, limits, head);
    return if o.isClean(b) then Ok(b) else Err(EvidenceTampered);
  }

  /** `_derive`. */
  method DeriveBundle(o: Outside, sc: Scheme<Event>, lines: seq<Line<Event>>, chain: ReferenceChain, inp: Inputs,
                      upto: Option<int>) returns (r: Result<Bundle, Code>)
    ensures r == Derive(o, sc, lines, chain, inp, upto)
  {
    hide Assemble;
    hide Between;
    hide Records;
    hide Interactions;
    hide Drifts;
    hide Has;
    if chain.effect.None? {
      return Err(EffectRejected);
    }
    var c := chain.ref;
    var all := ReadRecords(lines);
    if all.None? {
      return Err(EvidenceTampered);
    }
    var rs := Select(sc, all.value, None, upto);
    if rs == [] {
      return Err(EvidenceTampered);
    }
    var head := HashText(sc, rs[|rs| - 1]);
    var activated := FindSeq(sc, rs, c.generation);
    if activated.None? || !IsSessionStart(sc, c, activated.value) {
      return Err(SessionMismatch);
    }
    var post := Select(sc, rs, Some(c.generation), None);
    if Has(post, WasActivated) {
      return Err(SessionMismatch);
    }
    var got := CollectInteractions(post, c, EventAt(activated.value.body), inp.now);
    if got.Err? {
      return Err(got.error);
    }
    var drifted := Select(sc, all.value, Some(c.generation), upto);
    var drifts := CountDrifts(drifted);
    r := AssembleBundle(o, sc, chain, inp, activated.value, post, got.value, head, drifts);
  }
}
