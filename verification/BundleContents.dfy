/** A derived bundle field by field: the session's start, the effect's status and reason, terrain, envelope
    and limitations, each read against the log by position, and when the derivation gives one at all. */
module BundleContents {
  import opened Common
  import opened Events
  import opened EvidenceChain
  import opened Feedback
  import opened FeedbackBundle
  import opened BundleFacts

  /** Position `j` holds the last record of this kind after `g`. */
  ghost predicate LastAt(lines: Lines, g: int, k: Kind, j: int)
  {
    && 0 <= j < |lines| && g < j && lines[j].Dict? && IsKind(lines[j].record.body, k)
    && forall i :: j < i < |lines| && lines[i].Dict? ==> !IsKind(lines[i].record.body, k)
  }

  lemma LastOneMore(rs: seq<Record<Event>>, r: Record<Event>, k: Kind)
    ensures LastOf(rs + [r], k) == if IsKind(r.body, k) then Some(r) else LastOf(rs, k)
  {
    assert (rs + [r])[..|rs|] == rs;
  }

  lemma {:induction false} LastOfPost(sc: Scheme<Event>, lines: Lines, g: int, k: Kind) returns (j: int)
    requires Intact(sc, lines)
    ensures Records(lines).Some? && (LastOf(Post(sc, lines, g), k).Some? <==> Later(lines, g, k))
    ensures Later(lines, g, k) ==> LastAt(lines, g, k, j) && LastOf(Post(sc, lines, g), k) == Some(lines[j].record)
  {
    hide IsKind;
    hide Intact;
    j := 0;
    if lines != [] {
      var last := |lines| - 1;
      PostStep(sc, lines, g);
      LaterStep(lines, g, k);
      if g < last && IsKind(lines[last].record.body, k) {
        LastOneMore(Post(sc, lines[..last], g), lines[last].record, k);
        j := last;
      } else {
        j := LastOfPost(sc, lines[..last], g, k);
        if g < last {
          LastOneMore(Post(sc, lines[..last], g), lines[last].record, k);
        }
      }
    }
  }

  // ----- the session's start

  /** The record at the chain's generation is the activation it was bound to, and the last one. */
  ghost predicate StartShown(sc: Scheme<Event>, lines: Lines, c: ChainRef)
  {
    && c.generation < |lines| && lines[c.generation].Dict?
    && var r := lines[c.generation].record;
    && r.body.Lifecycle? && r.body.kind == WasActivated && r.body.env == c.env && r.body.decision == c.decisionId
    && c.sessionRef == "session:" + sc.str(r.hashField)
    && forall j :: c.generation < j < |lines| && lines[j].Dict? && lines[j].record.body.Lifecycle? ==>
         lines[j].record.body.kind != WasActivated
  }

  lemma SessionAtIsStartShown(sc: Scheme<Event>, lines: Lines, c: ChainRef)
    ensures SessionAt(sc, lines, c) <==> StartShown(sc, lines, c)
  {
  }

  // ----- the effect

  ghost predicate EndShown(lines: Lines, g: int)
  {
    Later(lines, g, WasTerminated) || Later(lines, g, ResetCompleted)
  }

  ghost predicate FailureShown(lines: Lines, g: int)
  {
    Later(lines, g, Failure(ActivationStage)) || Later(lines, g, Failure(TerminationStage))
  }

  /** The reason of the last termination, at most 200 characters of it, or the default for a termination
      without one, or for a reset without a termination. */
  ghost predicate ReasonShown(lines: Lines, g: int, r: Reason)
  {
    && (!Later(lines, g, WasTerminated) ==> r == ResetReason)
    && forall j :: LastAt(lines, g, WasTerminated, j) ==>
         var text := lines[j].record.body.reason;
         && (text == "" ==> r == TerminationReason)
         && (0 < |text| <= 200 ==> r == Given(text))
         && (|text| > 200 ==> r == Given(text[..200]))
  }

  /** Which status, if any, the records and the lease call for. */
  ghost predicate StatusShown(lines: Lines, c: ChainRef, now: int, status: Option<EffectStatus>)
  {
    var g := c.generation;
    var drift, ended, failed := DriftsAfter(lines, g) != {}, EndShown(lines, g), FailureShown(lines, g);
    && (status == Some(EffectFailed(DriftReason)) <==> drift)
    && (status == Some(EffectFailed(LeaseReason)) <==> !drift && !ended && !failed && now >= c.leaseEnd)
    && (status == Some(EffectFailed(FailureReason)) <==> !drift && !ended && failed)
    && (status.Some? && status.value.EffectTerminated? <==> !drift && ended)
    && (status.Some? && status.value.EffectTerminated? ==> ReasonShown(lines, g, status.value.reason))
    && (status.None? <==> !drift && !ended && !failed && now < c.leaseEnd)
  }

  ghost predicate EffectShown(o: Outside, lines: Lines, chain: ReferenceChain, inp: Inputs, b: Bundle)
  {
    chain.effect.Some? &&
    exists status ::
      && StatusShown(lines, chain.ref, inp.now, status)
      && (status.None? ==> b.effectObservation.None? && inp.now <= chain.effect.value.expiresAt)
      && (status.Some? ==>
            && b.effectObservation.Some?
            && b.effectObservation == o.observe(EffectArgs(chain.effect.value, status.value, inp.now, inp.mech, b.head, b.limitations)))
  }

  lemma StatusIsShown(sc: Scheme<Event>, lines: Lines, c: ChainRef, now: int)
    requires Intact(sc, lines)
    ensures Records(lines).Some?
    ensures var post := Post(sc, lines, c.generation);
            var env := Fold(post);
            StatusShown(lines, c, now, EffectStatusOf(env, Drifts(post) > 0, env == Active && now >= c.leaseEnd, post))
  {
    hide Later;
    hide Post;
    hide LastOf;
    hide DriftsAfter;
    hide Intact;
    hide Records;
    hide ReasonShown;
    var g := c.generation;
    DriftsAreCounted(sc, lines, g);
    HasIffLater(sc, lines, g, ResetCompleted);
    HasIffLater(sc, lines, g, WasTerminated);
    HasIffLater(sc, lines, g, Failure(ActivationStage));
    HasIffLater(sc, lines, g, Failure(TerminationStage));
    ReasonIsShown(sc, lines, g);
  }

  lemma ReasonIsShown(sc: Scheme<Event>, lines: Lines, g: int)
    requires Intact(sc, lines) && Records(lines).Some?
    ensures ReasonShown(lines, g, EndReason(Post(sc, lines, g)))
  {
    hide Post;
    hide Later;
    hide LastOf;
    hide Intact;
    var j := LastOfPost(sc, lines, g, WasTerminated);
    forall i | LastAt(lines, g, WasTerminated, i)
      ensures Later(lines, g, WasTerminated) && i == j
    {
      LastIsUnique(lines, g, WasTerminated, i, j);
    }
  }

  lemma LastIsUnique(lines: Lines, g: int, k: Kind, i: int, j: int)
    requires LastAt(lines, g, k, i)
    ensures Later(lines, g, k) && (LastAt(lines, g, k, j) ==> i == j)
  {
  }

  // ----- terrain

  /** When the session ended and the record of its reset, as the records show them. */
  ghost predicate EndingShown(sc: Scheme<Event>, lines: Lines, g: int, endedAt: Option<int>, resetHash: Option<string>)
  {
    && (!EndShown(lines, g) ==> endedAt.None?)
    && (!Later(lines, g, ResetCompleted) ==> resetHash.None?)
    && (forall j :: LastAt(lines, g, ResetCompleted, j) ==>
          endedAt == Some(lines[j].record.body.at) && resetHash == Some(sc.str(lines[j].record.hashField)))
    && (!Later(lines, g, ResetCompleted) ==>
          forall j :: LastAt(lines, g, WasTerminated, j) ==> endedAt == Some(lines[j].record.body.at))
  }

  ghost predicate TerrainShown(o: Outside, sc: Scheme<Event>, lines: Lines, chain: ReferenceChain, inp: Inputs,
                               envState: EnvState, head: string, terrain: Result<Option<string>, Code>)
    requires chain.ref.generation < |lines| && lines[chain.ref.generation].Dict?
  {
    if inp.declared.assertions == [] || inp.mech.None? then terrain == Ok(None)
    else
      exists endedAt, resetHash ::
        && EndingShown(sc, lines, chain.ref.generation, endedAt, resetHash)
        && terrain == o.terrain(Projection(chain, envState, EventAt(lines[chain.ref.generation].record.body), endedAt,
                                           resetHash, inp.mech, inp.declared.assertions, inp.now, head))
  }

  lemma TerrainIsShown(o: Outside, sc: Scheme<Event>, lines: Lines, chain: ReferenceChain, inp: Inputs, head: string)
    requires Intact(sc, lines) && chain.ref.generation < |lines| && lines[chain.ref.generation].Dict?
    ensures Records(lines).Some?
    ensures var post := Post(sc, lines, chain.ref.generation);
            TerrainShown(o, sc, lines, chain, inp, Fold(post), head,
                         TerrainOf(o, sc, chain, inp, EventAt(lines[chain.ref.generation].record.body), post, head))
  {
    hide Post;
    hide Later;
    hide LastOf;
    hide Intact;
    hide Fold;
    var g := chain.ref.generation;
    var i := LastOfPost(sc, lines, g, ResetCompleted);
    var j := LastOfPost(sc, lines, g, WasTerminated);
    var post := Post(sc, lines, g);
    var reset := LastOf(post, ResetCompleted);
    var ended := if reset.Some? then reset else LastOf(post, WasTerminated);
    var endedAt := if ended.Some? then Some(EventAt(ended.value.body)) else None;
    var resetHash := if reset.Some? then Some(HashText(sc, reset.value)) else None;
    forall n | LastAt(lines, g, ResetCompleted, n)
      ensures Later(lines, g, ResetCompleted) && n == i
    {
      LastIsUnique(lines, g, ResetCompleted, n, i);
    }
    forall n | LastAt(lines, g, WasTerminated, n)
      ensures Later(lines, g, WasTerminated) && n == j
    {
      LastIsUnique(lines, g, WasTerminated, n, j);
    }
    assert EndingShown(sc, lines, g, endedAt, resetHash);
  }

  // ----- envelope, limitations and the rest

  ghost predicate AreTags(tags: set<string>, items: seq<Observation>)
  {
    forall t :: t in tags <==> exists i :: 0 <= i < |items| && t in items[i].confounders
  }

  ghost predicate EnvelopeShown(o: Outside, chain: ReferenceChain, inp: Inputs, b: Bundle)
  {
    exists tags ::
      && AreTags(tags, b.interactions)
      && o.envelope(EnvelopeArgs(chain, b.terrain, b.effectObservation, inp.declared, b.outcome.gaps, tags,
                                 |b.interactions|, b.driftCount, b.head, inp.now)) == Some(b.outcome.content)
  }

  ghost function OutsideAt(items: seq<Observation>): set<int>
  {
    set i | 0 <= i < |items| && items[i].outsideLease
  }

  lemma {:induction false} OutsideIsCounted(items: seq<Observation>)
    ensures OutsideCount(items) == |OutsideAt(items)|
  {
    if items == [] {
      assert OutsideAt(items) == {};
    } else {
      var last := |items| - 1;
      OutsideIsCounted(items[..last]);
      assert OutsideAt(items) == OutsideAt(items[..last]) + if items[last].outsideLease then {last} else {};
    }
  }

  /** Every limitation is there exactly when it is due. */
  ghost predicate LimitationsShown(b: Bundle, c: ChainRef, inp: Inputs)
  {
    var l := b.limitations;
    && (l.contentNotBound <==> !c.contentBound) && (l.objectiveNotSupplied <==> inp.objective.None?)
    && (l.noInteractionIsNotSafety <==> b.interactions == []) && l.gaps == b.outcome.gaps
    && (l.stale <==> inp.now - b.freshness.anchor > inp.maxAge || inp.maxAge < 0)
    && (l.leaseExpired <==> inp.now >= c.leaseEnd) && (l.activeAfterLease <==> inp.now >= c.leaseEnd && b.envState == Active)
    && (l.redirectionIsNotDiversion <==> inp.mech.Some?)
    && (l.driftObserved <==> b.driftCount > 0) && (l.isolationNotAsserted <==> b.driftCount == 0 && inp.declared.assertions == [])
    && l.outsideLease == |OutsideAt(b.interactions)|
    && (l.stateNotReverified <==> b.envState == Active)
    && (l.effectWithheld <==> b.envState == Active && b.driftCount == 0 && inp.now < c.leaseEnd)
    && (l.sessionEnded <==> b.envState == Reset) && (l.terrainNotProjected <==> b.terrain.None?)
  }

  ghost predicate HeaderShown(o: Outside, sc: Scheme<Event>, lines: Lines, chain: ReferenceChain, inp: Inputs, b: Bundle)
    requires chain.ref.generation < |lines| && lines[chain.ref.generation].Dict? && lines[|lines| - 1].Dict?
  {
    && b.chain == chain.ref && b.declared == inp.declared && b.mech == inp.mech
    && b.mac == o.mac(chain.ref.env, chain.ref.generation, inp.declared)
    && b.head == sc.str(lines[|lines| - 1].record.hashField)
    && b.activatedHash == sc.str(lines[chain.ref.generation].record.hashField)
    && b.outcome.observedAt == inp.now && b.freshness.maxAge == inp.maxAge
    && b.freshness.age == Max(0, inp.now - b.freshness.anchor) && (b.freshness.fromInteraction <==> b.interactions != [])
    && (b.coverage.evaluated <==> inp.objective.Some?)
    && b.coverage == CoverageOf(inp.objective, b.interactions, inp.declared)
  }

  // ----- when there is a bundle

  ghost predicate NothingBad(lines: Lines, g: int)
  {
    forall j :: 0 <= j < |lines| && g < j && lines[j].Dict? ==> !lines[j].record.body.BadInteraction?
  }

  /** The bound observations are small, in time and have ids of their own. */
  ghost predicate InOrder(obs: seq<Observation>, start: int, now: int)
  {
    && (forall i :: 0 <= i < |obs| ==> obs[i].size <= MAX_INTERACTION_BYTES && start - CLOCK_SKEW <= obs[i].at <= now + CLOCK_SKEW)
    && forall i, j :: 0 <= i < j < |obs| ==> obs[i].id != obs[j].id
  }

  lemma {:induction false} IdUsedIff(items: seq<Observation>, id: string)
    ensures IdUsed(items, id) <==> exists i :: 0 <= i < |items| && items[i].id == id
  {
    if items != [] {
      var last := |items| - 1;
      IdUsedIff(items[..last], id);
      if i :| 0 <= i < last && items[..last][i].id == id {
        assert items[i].id == id;
      }
      if i :| 0 <= i < |items| && items[i].id == id {
        assert i < last ==> items[..last][i].id == id;
      }
    }
  }

  lemma InOrderStep(obs: seq<Observation>, o: Observation, start: int, now: int)
    ensures InOrder(obs + [o], start, now) <==>
            InOrder(obs, start, now) && o.size <= MAX_INTERACTION_BYTES && start - CLOCK_SKEW <= o.at <= now + CLOCK_SKEW
            && !IdUsed(obs, o.id)
  {
    IdUsedIff(obs, o.id);
    var all := obs + [o];
    assert forall i :: 0 <= i < |obs| ==> all[i] == obs[i];
    assert all[|obs|] == o;
  }

  /** The interaction loop goes through exactly when nothing after the start is invalid and the bound
      observations are in order; otherwise it refuses. */
  lemma {:induction false} CollectsIff(sc: Scheme<Event>, lines: Lines, g: int, c: ChainRef, start: int, now: int)
    requires Intact(sc, lines) && Records(lines).Some?
    ensures Interactions(Post(sc, lines, g), c, start, now).Ok? <==> NothingBad(lines, g) && InOrder(BoundAfter(lines, g, c), start, now)
    ensures Interactions(Post(sc, lines, g), c, start, now).Err? ==> Interactions(Post(sc, lines, g), c, start, now) == Err(EvidenceTampered)
  {
    hide Post;
    hide CarriesRefs;
    hide InOrder;
    hide Intact;
    hide Interactions;
    hide Records;
    if lines == [] {
      CollectsNothing(sc, g, c, start, now);
    } else {
      var last := |lines| - 1;
      PostStep(sc, lines, g);
      CollectsIff(sc, lines[..last], g, c, start, now);
      NothingBadStep(lines, g);
      var before := BoundAfter(lines[..last], g, c);
      assert before + [] == before;
      if g < last {
        if Interactions(Post(sc, lines[..last], g), c, start, now).Ok? {
          NothingIsLost(sc, lines[..last], g, c, start, now);
        }
        var e := lines[last].record.body;
        if e.Interaction? {
          InOrderStep(before, e.obs, start, now);
        }
        LoopStepIs(Post(sc, lines[..last], g), lines[last].record, c, start, now);
      }
    }
  }

  lemma CollectsNothing(sc: Scheme<Event>, g: int, c: ChainRef, start: int, now: int)
    ensures Interactions(Post(sc, [], g), c, start, now).Ok? && InOrder(BoundAfter([], g, c), start, now)
  {
  }

  lemma NothingBadStep(lines: Lines, g: int)
    requires lines != [] && lines[|lines| - 1].Dict?
    ensures var last := |lines| - 1;
            NothingBad(lines, g) <==> NothingBad(lines[..last], g) && (g < last ==> !lines[last].record.body.BadInteraction?)
  {
    var last := |lines| - 1;
    assert forall j :: 0 <= j < last ==> lines[..last][j] == lines[j];
  }

  predicate Passes(e: Event, c: ChainRef, start: int, now: int, items: seq<Observation>)
  {
    && !e.BadInteraction?
    && (e.Interaction? && CarriesRefs(c, e.obs) ==>
          && e.obs.size <= MAX_INTERACTION_BYTES && start - CLOCK_SKEW <= e.obs.at <= now + CLOCK_SKEW
          && !IdUsed(items, e.obs.id))
  }

  lemma LoopStepIs(post: seq<Record<Event>>, r: Record<Event>, c: ChainRef, start: int, now: int)
    ensures var before, after := Interactions(post, c, start, now), Interactions(post + [r], c, start, now);
            && (after.Err? ==> after == Err(EvidenceTampered) || (before.Err? && after == before))
            && (after.Ok? <==> before.Ok? && Passes(r.body, c, start, now, before.value.items))
  {
    hide CarriesRefs;
    hide IdUsed;
    assert (post + [r])[..|post|] == post;
  }

  // ----- all of it

  /** The session is there, its contacts are in order, and the times allow a bundle. */
  ghost predicate ReadyAt(sc: Scheme<Event>, lines: Lines, chain: ReferenceChain, inp: Inputs, state: EnvState, newest: int)
  {
    var c, g := chain.ref, chain.ref.generation;
    && StartShown(sc, lines, c) && lines[|lines| - 1].Dict?
    && var start := EventAt(lines[g].record.body);
    && NothingBad(lines, g) && InOrder(BoundAfter(lines, g, c), start, inp.now)
    && StateShown(lines, g, state) && IsLatest(newest, start, KeptAfter(lines, g, c))
    && newest <= inp.now + CLOCK_SKEW && (state == Active ==> c.leaseStart <= inp.now)
  }

  /** What the log, the chain and the inputs call for, but for the effect observation, the envelope's content
      and whether the whole is clean. */
  ghost predicate PartsShown(o: Outside, sc: Scheme<Event>, lines: Lines, chain: ReferenceChain, inp: Inputs, b: Bundle)
  {
    var c, g := chain.ref, chain.ref.generation;
    && ReadyAt(sc, lines, chain, inp, b.envState, b.freshness.anchor)
    && IsolationShown(lines, g, b) && InteractionsShown(lines, g, c, b)
    && (b.freshness.isFresh <==> inp.now - b.freshness.anchor <= inp.maxAge && 0 <= inp.maxAge)
    && b.outcome.gaps == Missing(inp.declared.expected, inp.declared.observed)
    && HeaderShown(o, sc, lines, chain, inp, b) && LimitationsShown(b, c, inp)
    && TerrainShown(o, sc, lines, chain, inp, b.envState, b.head, Ok(b.terrain))
  }

  /** `b` is what the log, the chain and the inputs call for, and everything it is made of is in order. */
  ghost predicate Describes(o: Outside, sc: Scheme<Event>, lines: Lines, chain: ReferenceChain, inp: Inputs, b: Bundle)
  {
    && PartsShown(o, sc, lines, chain, inp, b)
    && EffectShown(o, lines, chain, inp, b) && EnvelopeShown(o, chain, inp, b) && o.isClean(b)
  }

  /** The observation an effect status gives, against the effect's own window. */
  ghost predicate ObservedAs(o: Outside, effect: Effect, status: Option<EffectStatus>, inp: Inputs, b: Bundle)
  {
    && (status.None? ==> b.effectObservation.None? && inp.now <= effect.expiresAt)
    && (status.Some? ==>
          && b.effectObservation.Some?
          && b.effectObservation == o.observe(EffectArgs(effect, status.value, inp.now, inp.mech, b.head, b.limitations)))
  }

  /** Assembling, in terms of its parts: all but the effect observation, the envelope's content and whether
      the whole is clean. */
  ghost predicate AssembledParts(o: Outside, sc: Scheme<Event>, chain: ReferenceChain, inp: Inputs, activated: Record<Event>,
                                 post: seq<Record<Event>>, got: Collected, head: string, drifts: nat, b: Bundle)
  {
    var c, start := chain.ref, EventAt(activated.body);
    && b.interactions == (if |got.items| > MAX_INTERACTIONS then got.items[..MAX_INTERACTIONS] else got.items)
    && (b.truncated <==> |got.items| > MAX_INTERACTIONS) && b.limitations.truncated == b.truncated
    && b.limitations.unboundExcluded == got.unbound
    && b.envState == Fold(post) && b.driftCount == drifts
    && b.isolation == (if drifts > 0 then DriftSeen else if inp.declared.assertions != [] then Asserted else Unknown)
    && b.freshness.anchor == Anchor(start, b.interactions) && b.freshness.anchor <= inp.now + CLOCK_SKEW
    && (b.freshness.isFresh <==> inp.now - b.freshness.anchor <= inp.maxAge && 0 <= inp.maxAge)
    && (b.envState == Active ==> c.leaseStart <= inp.now)
    && b.outcome.gaps == Missing(inp.declared.expected, inp.declared.observed)
    && b.chain == c && b.declared == inp.declared && b.mech == inp.mech
    && b.mac == o.mac(c.env, c.generation, inp.declared) && b.head == head && b.activatedHash == HashText(sc, activated)
    && b.outcome.observedAt == inp.now && b.freshness.maxAge == inp.maxAge
    && b.freshness.age == Max(0, inp.now - b.freshness.anchor) && (b.freshness.fromInteraction <==> b.interactions != [])
    && b.coverage == CoverageOf(inp.objective, b.interactions, inp.declared)
    && LimitationsShown(b, c, inp)
    && TerrainOf(o, sc, chain, inp, start, post, head) == Ok(b.terrain)
  }

  ghost predicate AssembledFrom(o: Outside, sc: Scheme<Event>, chain: ReferenceChain, inp: Inputs, activated: Record<Event>,
                                post: seq<Record<Event>>, got: Collected, head: string, drifts: nat, b: Bundle)
    requires chain.effect.Some?
  {
    && AssembledParts(o, sc, chain, inp, activated, post, got, head, drifts, b)
    && ObservedAs(o, chain.effect.value, DueStatus(chain.ref, inp, post, drifts), inp, b)
    && o.envelope(EnvelopeArgs(chain, b.terrain, b.effectObservation, inp.declared, b.outcome.gaps, Tags(b.interactions),
                               |b.interactions|, drifts, head, inp.now)) == Some(b.outcome.content)
    && o.isClean(b)
  }

  ghost function DueStatus(c: ChainRef, inp: Inputs, post: seq<Record<Event>>, drifts: nat): Option<EffectStatus>
  {
    EffectStatusOf(Fold(post), drifts > 0, Fold(post) == Active && inp.now >= c.leaseEnd, post)
  }

  lemma LimitationsIff(b: Bundle, c: ChainRef, inp: Inputs, unbound: nat)
    requires b.freshness.isFresh <==> inp.now - b.freshness.anchor <= inp.maxAge && 0 <= inp.maxAge
    ensures b.limitations == LimitationsOf(c, inp, b.envState, b.interactions, b.truncated, unbound, b.outcome.gaps,
                                           b.freshness.isFresh, b.driftCount > 0, b.terrain.Some?)
            <==> LimitationsShown(b, c, inp) && b.limitations.truncated == b.truncated && b.limitations.unboundExcluded == unbound
  {
    OutsideIsCounted(b.interactions);
    hide OutsideCount;
    hide OutsideAt;
    var due := LimitationsOf(c, inp, b.envState, b.interactions, b.truncated, unbound, b.outcome.gaps,
                             b.freshness.isFresh, b.driftCount > 0, b.terrain.Some?);
    var l := b.limitations;
    assert l == due <==>
           && l.contentNotBound == due.contentNotBound && l.objectiveNotSupplied == due.objectiveNotSupplied
           && l.noInteractionIsNotSafety == due.noInteractionIsNotSafety && l.gaps == due.gaps && l.stale == due.stale
           && l.leaseExpired == due.leaseExpired && l.activeAfterLease == due.activeAfterLease
           && l.redirectionIsNotDiversion == due.redirectionIsNotDiversion && l.driftObserved == due.driftObserved
           && l.isolationNotAsserted == due.isolationNotAsserted && l.truncated == due.truncated
           && l.unboundExcluded == due.unboundExcluded && l.outsideLease == due.outsideLease
           && l.stateNotReverified == due.stateNotReverified && l.effectWithheld == due.effectWithheld
           && l.sessionEnded == due.sessionEnded && l.terrainNotProjected == due.terrainNotProjected;
  }

  lemma AssembledIsFrom(o: Outside, sc: Scheme<Event>, chain: ReferenceChain, inp: Inputs, activated: Record<Event>,
                        post: seq<Record<Event>>, got: Collected, head: string, drifts: nat, b: Bundle)
    requires chain.effect.Some? && Assemble(o, sc, chain, inp, activated, post, got, head, drifts) == Ok(b)
    ensures AssembledFrom(o, sc, chain, inp, activated, post, got, head, drifts, b)
  {
    hide Fold;
    hide Anchor;
    hide CoverageOf;
    hide Missing;
    hide Tags;
    hide TerrainOf;
    hide EffectStatusOf;
    hide HashText;
    hide EventAt;
    hide LimitationsOf;
    hide LimitationsShown;
    LimitationsIff(b, chain.ref, inp, got.unbound);
  }

  lemma FromIsAssembled(o: Outside, sc: Scheme<Event>, chain: ReferenceChain, inp: Inputs, activated: Record<Event>,
                        post: seq<Record<Event>>, got: Collected, head: string, drifts: nat, b: Bundle)
    requires chain.effect.Some? && AssembledFrom(o, sc, chain, inp, activated, post, got, head, drifts, b)
    ensures Assemble(o, sc, chain, inp, activated, post, got, head, drifts) == Ok(b)
  {
    hide Fold;
    hide Anchor;
    hide CoverageOf;
    hide Missing;
    hide Tags;
    hide TerrainOf;
    hide EffectStatusOf;
    hide HashText;
    hide EventAt;
    hide LimitationsOf;
    hide LimitationsShown;
    LimitationsIff(b, chain.ref, inp, got.unbound);
    assert EffectOf(o, chain.effect.value, DueStatus(chain.ref, inp, post, drifts), inp, head, b.limitations) == Ok(b.effectObservation);
  }

  // ----- uniqueness of what is shown

  lemma EndingUnique(sc: Scheme<Event>, lines: Lines, g: int, e1: Option<int>, h1: Option<string>, e2: Option<int>, h2: Option<string>)
    requires EndingShown(sc, lines, g, e1, h1) && EndingShown(sc, lines, g, e2, h2)
    ensures e1 == e2 && h1 == h2
  {
    hide Later;
    if Later(lines, g, ResetCompleted) {
      var j := LastExists(lines, g, ResetCompleted);
    } else if Later(lines, g, WasTerminated) {
      var j := LastExists(lines, g, WasTerminated);
    }
  }

  lemma {:induction false} LastExists(lines: Lines, g: int, k: Kind) returns (j: int)
    requires Later(lines, g, k)
    ensures LastAt(lines, g, k, j)
  {
    var last := |lines| - 1;
    if g < last && lines[last].Dict? && IsKind(lines[last].record.body, k) {
      j := last;
    } else {
      LaterStep(lines, g, k);
      j := LastExists(lines[..last], g, k);
    }
  }

  lemma StatusUnique(lines: Lines, c: ChainRef, now: int, s1: Option<EffectStatus>, s2: Option<EffectStatus>)
    requires StatusShown(lines, c, now, s1) && StatusShown(lines, c, now, s2)
    ensures s1 == s2
  {
    hide Later;
    hide DriftsAfter;
    hide LastAt;
    if Later(lines, c.generation, WasTerminated) {
      var j := LastExists(lines, c.generation, WasTerminated);
    }
  }

  lemma TerrainUnique(o: Outside, sc: Scheme<Event>, lines: Lines, chain: ReferenceChain, inp: Inputs, envState: EnvState,
                      head: string, t1: Result<Option<string>, Code>, t2: Result<Option<string>, Code>)
    requires chain.ref.generation < |lines| && lines[chain.ref.generation].Dict?
    requires TerrainShown(o, sc, lines, chain, inp, envState, head, t1) && TerrainShown(o, sc, lines, chain, inp, envState, head, t2)
    ensures t1 == t2
  {
    hide EndingShown;
    if inp.declared.assertions != [] && inp.mech.Some? {
      var g, start := chain.ref.generation, EventAt(lines[chain.ref.generation].record.body);
      var e1, h1 :| EndingShown(sc, lines, g, e1, h1)
                    && t1 == o.terrain(Projection(chain, envState, start, e1, h1, inp.mech, inp.declared.assertions, inp.now, head));
      var e2, h2 :| EndingShown(sc, lines, g, e2, h2)
                    && t2 == o.terrain(Projection(chain, envState, start, e2, h2, inp.mech, inp.declared.assertions, inp.now, head));
      EndingUnique(sc, lines, g, e1, h1, e2, h2);
    }
  }

  // ----- the derivation, exactly

  lemma EffectIff(o: Outside, sc: Scheme<Event>, lines: Lines, chain: ReferenceChain, inp: Inputs, b: Bundle)
    requires Intact(sc, lines) && chain.effect.Some?
    ensures Records(lines).Some?
    ensures var post := Post(sc, lines, chain.ref.generation);
            EffectShown(o, lines, chain, inp, b) <==>
              ObservedAs(o, chain.effect.value, DueStatus(chain.ref, inp, post, Drifts(post)), inp, b)
  {
    hide Intact;
    hide Post;
    hide StatusShown;
    hide Fold;
    hide EffectStatusOf;
    hide Records;
    StatusIsShown(sc, lines, chain.ref, inp.now);
    var post := Post(sc, lines, chain.ref.generation);
    var env := Fold(post);
    var due := EffectStatusOf(env, Drifts(post) > 0, env == Active && inp.now >= chain.ref.leaseEnd, post);
    forall status | StatusShown(lines, chain.ref, inp.now, status)
      ensures status == due
    {
      StatusUnique(lines, chain.ref, inp.now, status, due);
    }
  }

  lemma TerrainIff(o: Outside, sc: Scheme<Event>, lines: Lines, chain: ReferenceChain, inp: Inputs, head: string, terrain: Option<string>)
    requires Intact(sc, lines) && chain.ref.generation < |lines| && lines[chain.ref.generation].Dict?
    ensures Records(lines).Some?
    ensures var post := Post(sc, lines, chain.ref.generation);
            TerrainShown(o, sc, lines, chain, inp, Fold(post), head, Ok(terrain)) <==>
              TerrainOf(o, sc, chain, inp, EventAt(lines[chain.ref.generation].record.body), post, head) == Ok(terrain)
  {
    hide Intact;
    hide Post;
    hide Fold;
    hide TerrainShown;
    hide TerrainOf;
    hide Records;
    TerrainIsShown(o, sc, lines, chain, inp, head);
    var post := Post(sc, lines, chain.ref.generation);
    if TerrainShown(o, sc, lines, chain, inp, Fold(post), head, Ok(terrain)) {
      TerrainUnique(o, sc, lines, chain, inp, Fold(post), head, Ok(terrain),
                    TerrainOf(o, sc, chain, inp, EventAt(lines[chain.ref.generation].record.body), post, head));
    }
  }

  lemma StateIff(sc: Scheme<Event>, lines: Lines, g: int, state: EnvState)
    requires Intact(sc, lines)
    ensures Records(lines).Some? && (StateShown(lines, g, state) <==> state == Fold(Post(sc, lines, g)))
  {
    hide Later;
    hide Has;
    hide Post;
    hide Intact;
    hide Records;
    HasIffLater(sc, lines, g, ResetCompleted);
    HasIffLater(sc, lines, g, WasTerminated);
    HasIffLater(sc, lines, g, Failure(ActivationStage));
    HasIffLater(sc, lines, g, Failure(TerminationStage));
  }

  lemma EnvelopeIff(o: Outside, chain: ReferenceChain, inp: Inputs, b: Bundle)
    ensures EnvelopeShown(o, chain, inp, b) <==>
            o.envelope(EnvelopeArgs(chain, b.terrain, b.effectObservation, inp.declared, b.outcome.gaps, Tags(b.interactions),
                                    |b.interactions|, b.driftCount, b.head, inp.now)) == Some(b.outcome.content)
  {
    assert AreTags(Tags(b.interactions), b.interactions);
    forall tags | AreTags(tags, b.interactions)
      ensures tags == Tags(b.interactions)
    {
    }
  }

  /** What `_derive` gives, exactly: a bundle is derived from an intact log if and only if it is the one
      the log, the chain and the inputs call for and everything it is made of is in order. */
  lemma DerivedIff(o: Outside, sc: Scheme<Event>, lines: Lines, chain: ReferenceChain, inp: Inputs, b: Bundle)
    requires Intact(sc, lines)
    ensures Derive(o, sc, lines, chain, inp, None) == Ok(b) <==> Describes(o, sc, lines, chain, inp, b)
  {
    hide *;
    if Derive(o, sc, lines, chain, inp, None) == Ok(b) {
      DerivedDescribes(o, sc, lines, chain, inp, b);
    }
    if Describes(o, sc, lines, chain, inp, b) {
      DescribedDerives(o, sc, lines, chain, inp, b);
    }
  }

  /** Field by field, what is shown of an assembled bundle and what it is assembled from agree. */
  lemma PartsIff(o: Outside, sc: Scheme<Event>, lines: Lines, chain: ReferenceChain, inp: Inputs, b: Bundle)
    requires Intact(sc, lines) && StartShown(sc, lines, chain.ref) && lines[|lines| - 1].Dict?
    requires NothingBad(lines, chain.ref.generation)
    requires InOrder(BoundAfter(lines, chain.ref.generation, chain.ref), EventAt(lines[chain.ref.generation].record.body), inp.now)
    requires Records(lines).Some?
    requires Interactions(Post(sc, lines, chain.ref.generation), chain.ref, EventAt(lines[chain.ref.generation].record.body), inp.now).Ok?
    ensures var post := Post(sc, lines, chain.ref.generation);
            var got := Interactions(post, chain.ref, EventAt(lines[chain.ref.generation].record.body), inp.now).value;
            PartsShown(o, sc, lines, chain, inp, b) <==>
              AssembledParts(o, sc, chain, inp, lines[chain.ref.generation].record, post, got,
                             HashText(sc, lines[|lines| - 1].record), Drifts(post), b)
  {
    hide Intact;
    hide Post;
    hide Interactions;
    hide Fold;
    hide StateShown;
    hide TerrainShown;
    hide TerrainOf;
    hide LimitationsShown;
    hide StartShown;
    hide NothingBad;
    hide InOrder;
    hide BoundAfter;
    hide UnboundAfter;
    hide DriftsAfter;
    hide Anchor;
    hide IsLatest;
    hide Missing;
    hide CoverageOf;
    hide Records;
    hide EventAt;
    var c, g := chain.ref, chain.ref.generation;
    StartIsThere(sc, lines, c);
    var start := EventAt(lines[g].record.body);
    NothingIsLost(sc, lines, g, c, start, inp.now);
    DriftsAreCounted(sc, lines, g);
    StateIff(sc, lines, g, b.envState);
    TerrainIff(o, sc, lines, chain, inp, b.head, b.terrain);
    LatestIff(b.freshness.anchor, start, KeptAfter(lines, g, c));
    CoverageEvaluated(inp.objective, b.interactions, inp.declared);
    if LimitationsShown(b, c, inp) {
      NoInteractionShown(b, c, inp);
    }
    var post := Post(sc, lines, g);
    var got := Interactions(post, c, start, inp.now).value;
    var drifts := Drifts(post);
    if PartsShown(o, sc, lines, chain, inp, b) {
      assert b.driftCount == drifts && b.interactions == if |got.items| > MAX_INTERACTIONS then got.items[..MAX_INTERACTIONS] else got.items;
      assert b.isolation == if drifts > 0 then DriftSeen else if inp.declared.assertions != [] then Asserted else Unknown;
    }
    if AssembledParts(o, sc, chain, inp, lines[g].record, post, got, HashText(sc, lines[|lines| - 1].record), drifts, b) {
      assert IsolationShown(lines, g, b) && InteractionsShown(lines, g, c, b) && HeaderShown(o, sc, lines, chain, inp, b);
    }
  }

  lemma DescribesIffFrom(o: Outside, sc: Scheme<Event>, lines: Lines, chain: ReferenceChain, inp: Inputs, b: Bundle)
    requires Intact(sc, lines) && chain.effect.Some? && StartShown(sc, lines, chain.ref) && lines[|lines| - 1].Dict?
    requires NothingBad(lines, chain.ref.generation)
    requires InOrder(BoundAfter(lines, chain.ref.generation, chain.ref), EventAt(lines[chain.ref.generation].record.body), inp.now)
    requires Records(lines).Some?
    requires Interactions(Post(sc, lines, chain.ref.generation), chain.ref, EventAt(lines[chain.ref.generation].record.body), inp.now).Ok?
    ensures var post := Post(sc, lines, chain.ref.generation);
            var got := Interactions(post, chain.ref, EventAt(lines[chain.ref.generation].record.body), inp.now).value;
            Describes(o, sc, lines, chain, inp, b) <==>
              AssembledFrom(o, sc, chain, inp, lines[chain.ref.generation].record, post, got,
                            HashText(sc, lines[|lines| - 1].record), Drifts(post), b)
  {
    hide Intact;
    hide StartShown;
    hide NothingBad;
    hide InOrder;
    hide BoundAfter;
    hide Interactions;
    hide Post;
    hide Records;
    hide PartsShown;
    hide EffectShown;
    hide EnvelopeShown;
    hide ObservedAs;
    hide DueStatus;
    hide Tags;
    hide LimitationsShown;
    hide TerrainOf;
    hide CoverageOf;
    hide Missing;
    hide Anchor;
    hide Fold;
    StartIsThere(sc, lines, chain.ref);
    PartsIff(o, sc, lines, chain, inp, b);
    EffectIff(o, sc, lines, chain, inp, b);
    EnvelopeIff(o, chain, inp, b);
  }

  lemma CoverageEvaluated(obj: Option<Objective>, items: seq<Observation>, d: Declared)
    ensures CoverageOf(obj, items, d).evaluated <==> obj.Some?
  {
  }

  lemma NoInteractionShown(b: Bundle, c: ChainRef, inp: Inputs)
    requires LimitationsShown(b, c, inp)
    ensures b.limitations.noInteractionIsNotSafety <==> b.interactions == []
  {
  }

  lemma LatestIff(at: int, start: int, items: seq<Observation>)
    ensures IsLatest(at, start, items) <==> at == Anchor(start, items)
  {
    AnchorIsNewest(start, items);
  }

  lemma DerivedDescribes(o: Outside, sc: Scheme<Event>, lines: Lines, chain: ReferenceChain, inp: Inputs, b: Bundle)
    requires Intact(sc, lines) && Derive(o, sc, lines, chain, inp, None) == Ok(b)
    ensures Describes(o, sc, lines, chain, inp, b)
  {
    hide *;
    var start := Derived(o, sc, lines, chain, inp, b);
    SessionAtIsStartShown(sc, lines, chain.ref);
    StartIsThere(sc, lines, chain.ref);
    LastIsThere(sc, lines);
    CollectsIff(sc, lines, chain.ref.generation, chain.ref, start, inp.now);
    DeriveAssembles(o, sc, lines, chain, inp);
    var post := Post(sc, lines, chain.ref.generation);
    var got := Interactions(post, chain.ref, start, inp.now).value;
    AssembledIsFrom(o, sc, chain, inp, lines[chain.ref.generation].record, post, got,
                    HashText(sc, lines[|lines| - 1].record), Drifts(post), b);
    DescribesIffFrom(o, sc, lines, chain, inp, b);
  }

  lemma StartIsThere(sc: Scheme<Event>, lines: Lines, c: ChainRef)
    requires StartShown(sc, lines, c)
    ensures c.generation < |lines| && lines[c.generation].Dict?
  {
  }

  lemma LastIsThere(sc: Scheme<Event>, lines: Lines)
    requires Intact(sc, lines)
    ensures Records(lines).Some? && (lines != [] ==> lines[|lines| - 1].Dict?)
  {
    IntactIsNumbered(sc, lines);
    RecordsAreLines(lines);
  }

  lemma DescribedDerives(o: Outside, sc: Scheme<Event>, lines: Lines, chain: ReferenceChain, inp: Inputs, b: Bundle)
    requires Intact(sc, lines) && Describes(o, sc, lines, chain, inp, b)
    ensures Derive(o, sc, lines, chain, inp, None) == Ok(b)
  {
    hide Intact;
    hide Derive;
    hide Post;
    hide Interactions;
    hide AssembledFrom;
    hide Assemble;
    hide StartShown;
    hide NothingBad;
    hide InOrder;
    hide StateShown;
    hide IsolationShown;
    hide InteractionsShown;
    hide IsLatest;
    hide HeaderShown;
    hide LimitationsShown;
    hide TerrainShown;
    hide EnvelopeShown;
    hide BoundAfter;
    hide KeptAfter;
    hide StatusShown;
    hide Records;
    StartIsThere(sc, lines, chain.ref);
    var start := EventAt(lines[chain.ref.generation].record.body);
    SessionAtIsStartShown(sc, lines, chain.ref);
    LastIsThere(sc, lines);
    CollectsIff(sc, lines, chain.ref.generation, chain.ref, start, inp.now);
    DeriveAssembles(o, sc, lines, chain, inp);
    DescribesIffFrom(o, sc, lines, chain, inp, b);
    var post := Post(sc, lines, chain.ref.generation);
    FromIsAssembled(o, sc, chain, inp, lines[chain.ref.generation].record, post,
                    Interactions(post, chain.ref, start, inp.now).value,
                    HashText(sc, lines[|lines| - 1].record), Drifts(post), b);
  }
}
