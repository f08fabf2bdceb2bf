/** What a bundle says, read against the log by position: each statement of `_derive` holds exactly
    when the records after the session's activation make it true. */
module BundleFacts {
  import opened Common
  import opened Events
  import opened EvidenceChain
  import opened Feedback
  import opened FeedbackBundle

  type Lines = seq<Line<Event>>

  /** Some record after position `g` is of this kind. */
  ghost predicate Later(lines: Lines, g: int, k: Kind)
  {
    exists j :: 0 <= j < |lines| && g < j && lines[j].Dict? && IsKind(lines[j].record.body, k)
  }

  ghost function DriftsAfter(lines: Lines, g: int): set<int>
  {
    set j | 0 <= j < |lines| && g < j && lines[j].Dict? && lines[j].record.body.Drift?
  }

  /** The observations after `g` that carry the chain's references, in log order. */
  ghost function BoundAfter(lines: Lines, g: int, c: ChainRef): seq<Observation>
  {
    if lines == [] then []
    else
      var last := |lines| - 1;
      BoundAfter(lines[..last], g, c) +
      if g < last && lines[last].Dict? && lines[last].record.body.Interaction? && CarriesRefs(c, lines[last].record.body.obs)
      then [lines[last].record.body.obs] else []
  }

  ghost function UnboundAfter(lines: Lines, g: int, c: ChainRef): set<int>
  {
    set j | 0 <= j < |lines| && g < j && lines[j].Dict? && lines[j].record.body.Interaction?
            && !CarriesRefs(c, lines[j].record.body.obs)
  }

  // ----- the later records of an intact log, by position

  /** What `_derive` selects: the records from position `g + 1` on. */
  ghost function Post(sc: Scheme<Event>, lines: Lines, g: int): seq<Record<Event>>
    requires Records(lines).Some?
  {
    Between(sc, Records(lines).value, Some(g), None)
  }

  lemma PostStep(sc: Scheme<Event>, lines: Lines, g: int)
    requires Intact(sc, lines) && lines != []
    ensures var last := |lines| - 1;
            && Intact(sc, lines[..last]) && Records(lines).Some? && Records(lines[..last]).Some? && lines[last].Dict?
            && Post(sc, lines, g) == if g < last then Post(sc, lines[..last], g) + [lines[last].record] else Post(sc, lines[..last], g)
  {
    var last := |lines| - 1;
    PrefixIntact(sc, lines, last);
    IntactIsNumbered(sc, lines);
    RecordsAreLines(lines);
    assert LinkIntact(sc, lines, last);
  }

  lemma {:induction false} HasIffLater(sc: Scheme<Event>, lines: Lines, g: int, k: Kind)
    requires Intact(sc, lines)
    ensures Records(lines).Some? && (Has(Post(sc, lines, g), k) <==> Later(lines, g, k))
  {
    if lines != [] {
      var last := |lines| - 1;
      PostStep(sc, lines, g);
      HasIffLater(sc, lines[..last], g, k);
      LaterStep(lines, g, k);
      HasOneMore(Post(sc, lines[..last], g), lines[last].record, k);
    }
  }

  lemma LaterStep(lines: Lines, g: int, k: Kind)
    requires lines != []
    ensures var last := |lines| - 1;
            Later(lines, g, k) <==>
              Later(lines[..last], g, k) || (g < last && lines[last].Dict? && IsKind(lines[last].record.body, k))
  {
    var last := |lines| - 1;
    if j :| 0 <= j < last && g < j && lines[j].Dict? && IsKind(lines[j].record.body, k) {
      assert lines[..last][j] == lines[j];
    }
  }

  lemma {:induction false} DriftsAreCounted(sc: Scheme<Event>, lines: Lines, g: int)
    requires Intact(sc, lines)
    ensures Records(lines).Some? && Drifts(Post(sc, lines, g)) == |DriftsAfter(lines, g)|
  {
    if lines == [] {
      assert DriftsAfter(lines, g) == {};
    } else {
      var last := |lines| - 1;
      PostStep(sc, lines, g);
      DriftsAreCounted(sc, lines[..last], g);
      var before := Post(sc, lines[..last], g);
      if g < last {
        assert (before + [lines[last].record])[..|before|] == before;
      }
      assert DriftsAfter(lines, g) ==
             DriftsAfter(lines[..last], g) + if g < last && lines[last].record.body.Drift? then {last} else {};
    }
  }

  /** One more record in the interaction loop. */
  lemma LoopStep(post: seq<Record<Event>>, r: Record<Event>, c: ChainRef, start: int, now: int)
    requires Interactions(post + [r], c, start, now).Ok?
    ensures Interactions(post, c, start, now).Ok?
    ensures var before, after := Interactions(post, c, start, now).value, Interactions(post + [r], c, start, now).value;
            && after.items == (if r.body.Interaction? && CarriesRefs(c, r.body.obs) then before.items + [r.body.obs] else before.items)
            && after.unbound == before.unbound + if r.body.Interaction? && !CarriesRefs(c, r.body.obs) then 1 else 0
  {
    hide CarriesRefs;
    assert (post + [r])[..|post|] == post;
  }

  /** The interaction loop keeps every bound observation, in order, and counts every other one. */
  lemma {:induction false} NothingIsLost(sc: Scheme<Event>, lines: Lines, g: int, c: ChainRef, start: int, now: int)
    requires Intact(sc, lines) && Records(lines).Some?
    requires Interactions(Post(sc, lines, g), c, start, now).Ok?
    ensures var got := Interactions(Post(sc, lines, g), c, start, now).value;
            got.items == BoundAfter(lines, g, c) && got.unbound == |UnboundAfter(lines, g, c)|
  {
    hide Post;
    hide Interactions;
    hide UnboundAfter;
    hide CarriesRefs;
    if lines == [] {
      NothingYet(sc, g, c, start, now);
    } else {
      var last := |lines| - 1;
      PostStep(sc, lines, g);
      if g < last {
        LoopStep(Post(sc, lines[..last], g), lines[last].record, c, start, now);
      }
      NothingIsLost(sc, lines[..last], g, c, start, now);
      UnboundStep(lines, g, c);
      assert BoundAfter(lines[..last], g, c) + [] == BoundAfter(lines[..last], g, c);
    }
  }

  lemma NothingYet(sc: Scheme<Event>, g: int, c: ChainRef, start: int, now: int)
    ensures Interactions(Post(sc, [], g), c, start, now) == Ok(Collected([], 0)) && UnboundAfter([], g, c) == {}
  {
  }

  lemma UnboundStep(lines: Lines, g: int, c: ChainRef)
    requires lines != [] && lines[|lines| - 1].Dict?
    ensures var last := |lines| - 1;
            var e := lines[last].record.body;
            |UnboundAfter(lines, g, c)| == |UnboundAfter(lines[..last], g, c)| +
              if g < last && e.Interaction? && !CarriesRefs(c, e.obs) then 1 else 0
  {
    hide CarriesRefs;
    var last := |lines| - 1;
    var e := lines[last].record.body;
    assert forall j :: 0 <= j < last ==> lines[..last][j] == lines[j];
    assert UnboundAfter(lines, g, c) ==
           UnboundAfter(lines[..last], g, c) + if g < last && e.Interaction? && !CarriesRefs(c, e.obs) then {last} else {};
  }

  lemma {:induction false} AnchorIsNewest(start: int, items: seq<Observation>)
    ensures IsLatest(Anchor(start, items), start, items)
  {
    if items != [] {
      var front := items[..|items| - 1];
      AnchorIsNewest(start, front);
      assert forall i :: 0 <= i < |front| ==> items[i] == front[i];
      if i :| 0 <= i < |front| && front[i].at == Anchor(start, front) {
        assert items[i].at == Anchor(start, front);
      }
    }
  }

  lemma {:induction false} MissingIff(expected: seq<string>, observed: seq<string>, name: string)
    ensures name in Missing(expected, observed) <==> name in expected && name !in observed
  {
    if expected != [] {
      MissingIff(expected[1..], observed, name);
    }
  }

  // ----- the bundle's statements

  /** The environment's state is what the records after the activation show. */
  ghost predicate StateShown(lines: Lines, g: int, state: EnvState)
  {
    && (state == Reset <==> Later(lines, g, ResetCompleted))
    && (state == Terminated <==> Later(lines, g, WasTerminated) && !Later(lines, g, ResetCompleted))
    && (state == Active <==> !Later(lines, g, ResetCompleted) && !Later(lines, g, WasTerminated)
                             && !Later(lines, g, Failure(ActivationStage)) && !Later(lines, g, Failure(TerminationStage)))
    && state != KillSwitchFailed
  }

  ghost predicate IsolationShown(lines: Lines, g: int, b: Bundle)
  {
    && b.driftCount == |DriftsAfter(lines, g)|
    && (b.isolation == DriftSeen <==> DriftsAfter(lines, g) != {})
    && (b.isolation == Asserted <==> DriftsAfter(lines, g) == {} && b.declared.assertions != [])
  }

  /** The first 256 bound observations: what a bundle keeps. */
  ghost function KeptAfter(lines: Lines, g: int, c: ChainRef): seq<Observation>
  {
    var all := BoundAfter(lines, g, c);
    if |all| > MAX_INTERACTIONS then all[..MAX_INTERACTIONS] else all
  }

  /** The bound observations that are kept, none changed, and a count of the unbound ones. */
  ghost predicate InteractionsShown(lines: Lines, g: int, c: ChainRef, b: Bundle)
  {
    var all := BoundAfter(lines, g, c);
    && b.interactions == KeptAfter(lines, g, c)
    && (b.truncated <==> |all| > MAX_INTERACTIONS) && b.limitations.truncated == b.truncated
    && b.limitations.unboundExcluded == |UnboundAfter(lines, g, c)|
    && (b.limitations.noInteractionIsNotSafety <==> all == [])
  }

  /** `at` is the latest of the session's start and these observations. */
  ghost predicate IsLatest(at: int, start: int, items: seq<Observation>)
  {
    && start <= at && (forall i :: 0 <= i < |items| ==> items[i].at <= at)
    && (at == start || exists i :: 0 <= i < |items| && items[i].at == at)
  }

  /** Times, gaps and the effect: an effect is only ever reported as failed or terminated, and nothing
      is reported about one that is, as far as the records show, still running inside its lease. */
  ghost predicate LimitsShown(b: Bundle, c: ChainRef, now: int, maxAge: int)
  {
    && b.outcome.observedAt == now
    && (b.limitations.leaseExpired <==> now >= c.leaseEnd)
    && (b.limitations.activeAfterLease <==> now >= c.leaseEnd && b.envState == Active)
    && (b.limitations.stale <==> !b.freshness.isFresh)
    && (b.freshness.isFresh <==> now - b.freshness.anchor <= maxAge && 0 <= maxAge)
    && (b.effectObservation.None? <==> b.envState == Active && b.isolation != DriftSeen && now < c.leaseEnd)
    && (b.limitations.effectWithheld <==> b.effectObservation.None?)
    && b.limitations.gaps == b.outcome.gaps
    && (forall n :: n in b.outcome.gaps <==> n in b.declared.expected && n !in b.declared.observed)
  }

  ghost predicate SessionAt(sc: Scheme<Event>, lines: Lines, c: ChainRef)
  {
    && c.generation < |lines| && lines[c.generation].Dict?
    && IsSessionStart(sc, c, lines[c.generation].record) && !Later(lines, c.generation, WasActivated)
  }

  lemma {:induction false} WithSeqIsAt(sc: Scheme<Event>, rs: seq<Record<Event>>, from: nat, n: int)
    requires forall i :: 0 <= i < |rs| ==> SeqNo(sc, rs[i]) == from + i
    ensures WithSeq(sc, rs, n) == if from <= n < from + |rs| then Some(rs[n - from]) else None
  {
    if rs != [] {
      assert forall i :: 0 <= i < |rs[1..]| ==> rs[1..][i] == rs[i + 1];
      WithSeqIsAt(sc, rs[1..], from + 1, n);
    }
  }

  /** Where a bundle derived from the whole log comes from, step by step. */
  lemma Derived(o: Outside, sc: Scheme<Event>, lines: Lines, chain: ReferenceChain, inp: Inputs, b: Bundle) returns (start: int)
    requires Intact(sc, lines) && Derive(o, sc, lines, chain, inp, None) == Ok(b)
    ensures SessionAt(sc, lines, chain.ref) && start == EventAt(lines[chain.ref.generation].record.body)
    ensures Records(lines).Some?
    ensures var post := Post(sc, lines, chain.ref.generation);
            && !Has(post, WasActivated) && Interactions(post, chain.ref, start, inp.now).Ok? && chain.effect.Some?
            && Assemble(o, sc, chain, inp, lines[chain.ref.generation].record, post,
                        Interactions(post, chain.ref, start, inp.now).value, b.head, Drifts(post)) == Ok(b)
  {
    hide Assemble;
    hide Interactions;
    IntactIsNumbered(sc, lines);
    RecordsAreLines(lines);
    var all := Records(lines).value;
    NoBounds(sc, all);
    WithSeqIsAt(sc, all, 0, chain.ref.generation);
    HasIffLater(sc, lines, chain.ref.generation, WasActivated);
    start := EventAt(lines[chain.ref.generation].record.body);
    HeadOfAssembled(o, sc, chain, inp, lines[chain.ref.generation].record, Post(sc, lines, chain.ref.generation),
                    Interactions(Post(sc, lines, chain.ref.generation), chain.ref, start, inp.now).value,
                    HashText(sc, all[|all| - 1]), Drifts(Post(sc, lines, chain.ref.generation)));
  }

  /** The other way round: where the session is in an intact log and its interactions are in order,
      `_derive` comes down to assembling them. */
  lemma DeriveAssembles(o: Outside, sc: Scheme<Event>, lines: Lines, chain: ReferenceChain, inp: Inputs)
    requires Intact(sc, lines) && SessionAt(sc, lines, chain.ref) && chain.effect.Some?
    requires Records(lines).Some?
    requires Interactions(Post(sc, lines, chain.ref.generation), chain.ref, EventAt(lines[chain.ref.generation].record.body), inp.now).Ok?
    ensures lines[|lines| - 1].Dict?
    ensures var post := Post(sc, lines, chain.ref.generation);
            Derive(o, sc, lines, chain, inp, None) ==
            Assemble(o, sc, chain, inp, lines[chain.ref.generation].record, post,
                     Interactions(post, chain.ref, EventAt(lines[chain.ref.generation].record.body), inp.now).value,
                     HashText(sc, lines[|lines| - 1].record), Drifts(post))
  {
    hide Assemble;
    hide Interactions;
    IntactIsNumbered(sc, lines);
    RecordsAreLines(lines);
    var all := Records(lines).value;
    NoBounds(sc, all);
    WithSeqIsAt(sc, all, 0, chain.ref.generation);
    HasIffLater(sc, lines, chain.ref.generation, WasActivated);
  }

  lemma HeadOfAssembled(o: Outside, sc: Scheme<Event>, chain: ReferenceChain, inp: Inputs, activated: Record<Event>,
                        post: seq<Record<Event>>, got: Collected, head: string, drifts: nat)
    requires chain.effect.Some?
    ensures var r := Assemble(o, sc, chain, inp, activated, post, got, head, drifts);
            r.Ok? ==> r.value.head == head
  {
  }

  lemma AssembledStates(o: Outside, sc: Scheme<Event>, chain: ReferenceChain, inp: Inputs, activated: Record<Event>,
                        post: seq<Record<Event>>, got: Collected, head: string, drifts: nat)
    requires chain.effect.Some? && Assemble(o, sc, chain, inp, activated, post, got, head, drifts).Ok?
    ensures var b := Assemble(o, sc, chain, inp, activated, post, got, head, drifts).value;
            && b.envState == Fold(post) && b.driftCount == drifts && b.declared == inp.declared
            && b.isolation == (if drifts > 0 then DriftSeen else if inp.declared.assertions != [] then Asserted else Unknown)
            && b.interactions == (if |got.items| > MAX_INTERACTIONS then got.items[..MAX_INTERACTIONS] else got.items)
            && (b.truncated <==> |got.items| > MAX_INTERACTIONS) && b.limitations.truncated == b.truncated
            && b.limitations.unboundExcluded == got.unbound
            && (b.limitations.noInteractionIsNotSafety <==> b.interactions == [])
            && b.freshness.anchor == Anchor(EventAt(activated.body), b.interactions)
  {
    hide Fold;
    hide Anchor;
    hide CoverageOf;
    hide Missing;
  }

  lemma AssembledLimits(o: Outside, sc: Scheme<Event>, chain: ReferenceChain, inp: Inputs, activated: Record<Event>,
                        post: seq<Record<Event>>, got: Collected, head: string, drifts: nat)
    requires chain.effect.Some? && Assemble(o, sc, chain, inp, activated, post, got, head, drifts).Ok?
    ensures LimitsShown(Assemble(o, sc, chain, inp, activated, post, got, head, drifts).value, chain.ref, inp.now, inp.maxAge)
  {
    hide Fold;
    hide Anchor;
    hide CoverageOf;
    hide Missing;
    forall n
      ensures n in Missing(inp.declared.expected, inp.declared.observed) <==>
              n in inp.declared.expected && n !in inp.declared.observed
    {
      MissingIff(inp.declared.expected, inp.declared.observed, n);
    }
  }

  /** A derived bundle tells the log, both ways: its session state, its isolation status and drift
      count, its interactions and what was left out of them, its newest evidence and its limits are
      each exactly what the records after the session's activation show, the newest evidence among the
      observations it keeps. */
  lemma BundleTellsTheLog(o: Outside, sc: Scheme<Event>, lines: Lines, chain: ReferenceChain, inp: Inputs, b: Bundle)
    requires Intact(sc, lines) && Derive(o, sc, lines, chain, inp, None) == Ok(b)
    ensures SessionAt(sc, lines, chain.ref)
    ensures StateShown(lines, chain.ref.generation, b.envState)
    ensures IsolationShown(lines, chain.ref.generation, b)
    ensures InteractionsShown(lines, chain.ref.generation, chain.ref, b)
    ensures IsLatest(b.freshness.anchor, EventAt(lines[chain.ref.generation].record.body),
                     KeptAfter(lines, chain.ref.generation, chain.ref))
    ensures LimitsShown(b, chain.ref, inp.now, inp.maxAge)
  {
    hide Derive;
    hide Assemble;
    hide Interactions;
    hide LimitsShown;
    hide Later;
    hide Has;
    hide Post;
    hide DriftsAfter;
    hide UnboundAfter;
    hide BoundAfter;
    hide Anchor;
    var g := chain.ref.generation;
    var start := Derived(o, sc, lines, chain, inp, b);
    var post := Post(sc, lines, g);
    var got := Interactions(post, chain.ref, start, inp.now).value;
    AssembledStates(o, sc, chain, inp, lines[g].record, post, got, b.head, Drifts(post));
    AssembledLimits(o, sc, chain, inp, lines[g].record, post, got, b.head, Drifts(post));
    HasIffLater(sc, lines, g, ResetCompleted);
    HasIffLater(sc, lines, g, WasTerminated);
    HasIffLater(sc, lines, g, Failure(ActivationStage));
    HasIffLater(sc, lines, g, Failure(TerminationStage));
    DriftsAreCounted(sc, lines, g);
    NothingIsLost(sc, lines, g, chain.ref, start, inp.now);
    AnchorIsNewest(start, b.interactions);
  }

  ghost predicate TellsTheLog(sc: Scheme<Event>, lines: Lines, c: ChainRef, b: Bundle)
  {
    && SessionAt(sc, lines, c) && StateShown(lines, c.generation, b.envState) && IsolationShown(lines, c.generation, b)
    && InteractionsShown(lines, c.generation, c, b)
    && IsLatest(b.freshness.anchor, EventAt(lines[c.generation].record.body), KeptAfter(lines, c.generation, c))
    && LimitsShown(b, c, b.outcome.observedAt, b.freshness.maxAge)
  }

  /** So does every bundle accepted as current, and every accepted one that claims a live session, of
      the whole log as it stands. */
  lemma AcceptedTellsTheLog(o: Outside, sc: Scheme<Event>, store: Store, b: Bundle, chain: ReferenceChain,
                            now: int, maxAge: int, mechanism: Supplied, historical: bool)
    requires EvidenceChain.Lawful(sc) && (!historical || ClaimsLive(b))
    requires Verify(o, sc, Derivation(o, sc), store, b, chain, now, maxAge, mechanism, historical, Intact(sc, store.lines)) == Accepted
    ensures Intact(sc, store.lines) && TellsTheLog(sc, store.lines, chain.ref, b)
  {
    hide Derive;
    hide Verify;
    hide StateShown;
    hide IsolationShown;
    hide InteractionsShown;
    hide IsLatest;
    hide LimitsShown;
    hide SessionAt;
    DerivationIsSound(o, sc);
    AcceptedIsCurrent(o, sc, Derivation(o, sc), store, b, chain, now, maxAge, mechanism, historical);
    var k := AcceptedIsDerived(o, sc, Derivation(o, sc), store, b, chain, now, maxAge, mechanism, historical);
    BundleTellsTheLog(o, sc, store.lines, chain, AcceptedInputs(o, b, chain, mechanism), b);
  }

  // ----- objective coverage, entry by entry

  predicate Fits(o: Observation, cls: string, surface: string, clean: bool, inLease: bool)
  {
    && o.cls == cls && o.surface == surface
    && (clean ==> o.confounders == [] && !o.outsideLease) && (inLease ==> !o.outsideLease)
  }

  ghost predicate SomeWanted(items: seq<Observation>, cls: string, surface: string, clean: bool, inLease: bool)
  {
    exists i :: 0 <= i < |items| && Fits(items[i], cls, surface, clean, inLease)
  }

  ghost function WantedAt(items: seq<Observation>, cls: string, surface: string): set<int>
  {
    set i | 0 <= i < |items| && items[i].cls == cls && items[i].surface == surface
  }

  ghost function ConfoundedAt(items: seq<Observation>, cls: string, surface: string): set<int>
  {
    set i | 0 <= i < |items| && items[i].cls == cls && items[i].surface == surface && items[i].confounders != []
  }

  ghost function LateAt(items: seq<Observation>, cls: string, surface: string): set<int>
  {
    set i | 0 <= i < |items| && items[i].cls == cls && items[i].surface == surface && items[i].outsideLease
  }

  /** The ids of the contacts of this class and surface, in order. */
  ghost function WantedIds(items: seq<Observation>, cls: string, surface: string): seq<string>
  {
    if items == [] then []
    else
      var last := items[|items| - 1];
      WantedIds(items[..|items| - 1], cls, surface) + if last.cls == cls && last.surface == surface then [last.id] else []
  }

  /** What an entry says of the contacts of its class and surface. */
  ghost predicate EntryShown(e: Entry, items: seq<Observation>, d: Declared)
  {
    var any := SomeWanted(items, e.cls, e.surface, false, false);
    var clean := SomeWanted(items, e.cls, e.surface, true, false);
    var inLease := SomeWanted(items, e.cls, e.surface, false, true);
    && e.observed == |WantedAt(items, e.cls, e.surface)|
    && (e.status == Observed <==> clean)
    && (e.status == ConfoundedOnly <==> inLease && !clean)
    && (e.status == OutsideLeaseOnly <==> any && !inLease)
    && (e.status == NotObservedWithCoverage <==>
          !any && e.surface in d.surfaceTelemetry && d.surfaceTelemetry[e.surface] in d.observed)
    && (e.status == UnmappedSurface(e.surface) <==> !any && e.surface !in d.surfaceTelemetry)
    && (e.surface in d.surfaceTelemetry ==>
          (e.status == UndeterminableGap(d.surfaceTelemetry[e.surface]) <==> !any && d.surfaceTelemetry[e.surface] !in d.observed))
    && e.confounded == |ConfoundedAt(items, e.cls, e.surface)| && e.outside == |LateAt(items, e.cls, e.surface)|
    && (e.truncated <==> e.observed > 8)
    && var ids := WantedIds(items, e.cls, e.surface);
       e.ids == if |ids| > 8 then ids[..8] else ids
  }

  lemma {:induction false} MatchingTells(items: seq<Observation>, cls: string, surface: string)
    ensures var m := Matching(items, cls, surface);
            && |m| == |WantedAt(items, cls, surface)|
            && (m != [] <==> SomeWanted(items, cls, surface, false, false))
            && (CleanCount(m) > 0 <==> SomeWanted(items, cls, surface, true, false))
            && OutsideCount(m) <= |m| && (OutsideCount(m) < |m| <==> SomeWanted(items, cls, surface, false, true))
  {
    if items == [] {
      assert WantedAt(items, cls, surface) == {};
    } else {
      var front, last := items[..|items| - 1], items[|items| - 1];
      MatchingTells(front, cls, surface);
      WantedStep(items, cls, surface);
      var before := Matching(front, cls, surface);
      if Wanted(last, cls, surface) {
        CountsAppended(before, last);
      } else {
        assert Matching(items, cls, surface) == before;
      }
    }
  }

  lemma {:induction false} MatchingCounts(items: seq<Observation>, cls: string, surface: string)
    ensures var m := Matching(items, cls, surface);
            && Confounded(m) == |ConfoundedAt(items, cls, surface)| && OutsideCount(m) == |LateAt(items, cls, surface)|
            && Ids(m) == WantedIds(items, cls, surface)
  {
    if items == [] {
      assert ConfoundedAt(items, cls, surface) == {} && LateAt(items, cls, surface) == {};
    } else {
      var last := |items| - 1;
      MatchingCounts(items[..last], cls, surface);
      FailingContactsStep(items, cls, surface);
      var before := Matching(items[..last], cls, surface);
      if Wanted(items[last], cls, surface) {
        CountsAppended(before, items[last]);
        assert Ids(before + [items[last]]) == Ids(before) + [items[last].id];
      } else {
        assert Matching(items, cls, surface) == before;
      }
    }
  }

  lemma FailingContactsStep(items: seq<Observation>, cls: string, surface: string)
    requires items != []
    ensures var front, o := items[..|items| - 1], items[|items| - 1];
            var wanted := o.cls == cls && o.surface == surface;
            && |ConfoundedAt(items, cls, surface)| == |ConfoundedAt(front, cls, surface)| + (if wanted && o.confounders != [] then 1 else 0)
            && |LateAt(items, cls, surface)| == |LateAt(front, cls, surface)| + (if wanted && o.outsideLease then 1 else 0)
  {
    ConfoundedStep(items, cls, surface);
    LateStep(items, cls, surface);
  }

  lemma ConfoundedStep(items: seq<Observation>, cls: string, surface: string)
    requires items != []
    ensures var front, o := items[..|items| - 1], items[|items| - 1];
            |ConfoundedAt(items, cls, surface)| == |ConfoundedAt(front, cls, surface)| +
              if o.cls == cls && o.surface == surface && o.confounders != [] then 1 else 0
  {
    var last := |items| - 1;
    var o := items[last];
    var before := ConfoundedAt(items[..last], cls, surface);
    forall i
      ensures i in ConfoundedAt(items, cls, surface) <==>
              i in before || (i == last && o.cls == cls && o.surface == surface && o.confounders != [])
    {
      assert 0 <= i < last ==> items[..last][i] == items[i];
    }
    hide ConfoundedAt;
    assert ConfoundedAt(items, cls, surface) == before + if o.cls == cls && o.surface == surface && o.confounders != [] then {last} else {};
  }

  lemma LateStep(items: seq<Observation>, cls: string, surface: string)
    requires items != []
    ensures var front, o := items[..|items| - 1], items[|items| - 1];
            |LateAt(items, cls, surface)| == |LateAt(front, cls, surface)| +
              if o.cls == cls && o.surface == surface && o.outsideLease then 1 else 0
  {
    var last := |items| - 1;
    var o := items[last];
    var before := LateAt(items[..last], cls, surface);
    forall i
      ensures i in LateAt(items, cls, surface) <==> i in before || (i == last && o.cls == cls && o.surface == surface && o.outsideLease)
    {
      assert 0 <= i < last ==> items[..last][i] == items[i];
    }
    hide LateAt;
    assert LateAt(items, cls, surface) == before + if o.cls == cls && o.surface == surface && o.outsideLease then {last} else {};
  }

  lemma CountsAppended(m: seq<Observation>, o: Observation)
    ensures CleanCount(m + [o]) == CleanCount(m) + if Clean(o) then 1 else 0
    ensures OutsideCount(m + [o]) == OutsideCount(m) + if o.outsideLease then 1 else 0
    ensures Confounded(m + [o]) == Confounded(m) + if o.confounders != [] then 1 else 0
  {
    assert (m + [o])[..|m|] == m;
  }

  lemma WantedStep(items: seq<Observation>, cls: string, surface: string)
    requires items != []
    ensures var front, last := items[..|items| - 1], items[|items| - 1];
            && |WantedAt(items, cls, surface)| == |WantedAt(front, cls, surface)| + (if Wanted(last, cls, surface) then 1 else 0)
            && forall clean, inLease :: SomeWanted(items, cls, surface, clean, inLease) <==>
                 SomeWanted(front, cls, surface, clean, inLease) || Fits(last, cls, surface, clean, inLease)
  {
    WantedCountStep(items, cls, surface);
    hide SomeWanted;
    hide WantedAt;
    forall clean, inLease
      ensures SomeWanted(items, cls, surface, clean, inLease) <==>
              SomeWanted(items[..|items| - 1], cls, surface, clean, inLease) || Fits(items[|items| - 1], cls, surface, clean, inLease)
    {
      SomeWantedStep(items, cls, surface, clean, inLease);
    }
  }

  lemma WantedCountStep(items: seq<Observation>, cls: string, surface: string)
    requires items != []
    ensures var front, last := items[..|items| - 1], items[|items| - 1];
            |WantedAt(items, cls, surface)| == |WantedAt(front, cls, surface)| + if Wanted(last, cls, surface) then 1 else 0
  {
    var front, last := items[..|items| - 1], items[|items| - 1];
    assert WantedAt(items, cls, surface) ==
           WantedAt(front, cls, surface) + if Wanted(last, cls, surface) then {|items| - 1} else {};
  }

  lemma SomeWantedStep(items: seq<Observation>, cls: string, surface: string, clean: bool, inLease: bool)
    requires items != []
    ensures SomeWanted(items, cls, surface, clean, inLease) <==>
            SomeWanted(items[..|items| - 1], cls, surface, clean, inLease) || Fits(items[|items| - 1], cls, surface, clean, inLease)
  {
    hide Fits;
    var front := items[..|items| - 1];
    if i :| 0 <= i < |front| && Fits(front[i], cls, surface, clean, inLease) {
      assert items[i] == front[i];
    }
  }

  lemma EntryTells(h: string, want: (string, string), items: seq<Observation>, d: Declared)
    ensures EntryShown(EntryFor(h, want, items, d), items, d)
  {
    hide SomeWanted;
    hide WantedIds;
    MatchingTells(items, want.0, want.1);
    MatchingCounts(items, want.0, want.1);
    SomeImplied(items, want.0, want.1);
  }

  lemma SomeImplied(items: seq<Observation>, cls: string, surface: string)
    ensures SomeWanted(items, cls, surface, true, false) ==> SomeWanted(items, cls, surface, false, true)
    ensures SomeWanted(items, cls, surface, false, true) ==> SomeWanted(items, cls, surface, false, false)
  {
  }

  lemma {:induction false} EntryTotal(hs: seq<string>, desired: seq<(string, string)>, items: seq<Observation>, d: Declared)
    ensures |Entries(hs, desired, items, d)| == |hs| * |desired|
  {
    hide EntriesFor;
    hide EntryShown;
    if hs != [] {
      var front := hs[..|hs| - 1];
      EntryTotal(front, desired, items, d);
      RowTotal(hs[|hs| - 1], desired, items, d);
      assert |Entries(hs, desired, items, d)| == |Entries(front, desired, items, d)| + |desired|;
      OneRowMore(|front|, |desired|);
    }
  }

  lemma OneRowMore(n: int, width: int)
    ensures (n + 1) * width == n * width + width
  {
  }

  lemma {:induction false} RowTotal(h: string, desired: seq<(string, string)>, items: seq<Observation>, d: Declared)
    ensures |EntriesFor(h, desired, items, d)| == |desired|
  {
    if desired != [] {
      RowTotal(h, desired[..|desired| - 1], items, d);
    }
  }

  lemma {:induction false} RowTells(h: string, desired: seq<(string, string)>, items: seq<Observation>, d: Declared)
    ensures |EntriesFor(h, desired, items, d)| == |desired|
    ensures forall i :: 0 <= i < |desired| ==>
              && EntriesFor(h, desired, items, d)[i].hypothesis == h
              && (EntriesFor(h, desired, items, d)[i].cls, EntriesFor(h, desired, items, d)[i].surface) == desired[i]
              && EntryShown(EntriesFor(h, desired, items, d)[i], items, d)
  {
    hide EntryShown;
    if desired != [] {
      RowTells(h, desired[..|desired| - 1], items, d);
      EntryTells(h, desired[|desired| - 1], items, d);
    }
  }

  /** Hypothesis by hypothesis, one entry for each desired pair, each telling the contacts of its pair. */
  lemma {:induction false} CoverageTellsContacts(hs: seq<string>, desired: seq<(string, string)>,
                                                 items: seq<Observation>, d: Declared, h: nat, w: nat)
    requires h < |hs| && w < |desired|
    ensures |Entries(hs, desired, items, d)| == |hs| * |desired| && h * |desired| + w < |hs| * |desired|
    ensures var e := Entries(hs, desired, items, d)[h * |desired| + w];
            e.hypothesis == hs[h] && (e.cls, e.surface) == desired[w] && EntryShown(e, items, d)
  {
    hide EntryShown;
    var front := hs[..|hs| - 1];
    EntryTotal(hs, desired, items, d);
    EntryTotal(front, desired, items, d);
    RowTells(hs[|hs| - 1], desired, items, d);
    OneRowMore(|front|, |desired|);
    if h < |front| {
      CoverageTellsContacts(front, desired, items, d, h, w);
    }
  }

  /** What it takes to carry a chain's references. */
  lemma CarriesRefsIff(c: ChainRef, o: Observation)
    ensures CarriesRefs(c, o) <==>
            && c.objectiveRef in o.refs && (forall h :: h in c.hypothesisRefs ==> h in o.refs) && c.frameRef in o.refs
            && "decision:" + c.decisionId in o.refs && c.sessionRef in o.refs && "environment:" + c.env in o.refs
  {
    var refs := EvidenceRefs(c);
    var h := |c.hypothesisRefs|;
    assert refs[0] == c.objectiveRef && refs[h + 1] == c.frameRef && refs[h + 2] == "decision:" + c.decisionId;
    assert refs[h + 3] == c.sessionRef && refs[h + 4] == "environment:" + c.env;
    assert forall i :: 0 <= i < h ==> refs[i + 1] == c.hypothesisRefs[i];
  }

  // ----- what the counters count

  function KeyOf(o: Observation): string
  {
    o.cls + ":" + o.surface
  }

  ghost function ContactsOf(items: seq<Observation>, key: string): set<int>
  {
    set i | 0 <= i < |items| && KeyOf(items[i]) == key
  }

  /** A counter entry for each class and surface that occurs, and no other, with its number of contacts. */
  lemma {:induction false} ContactsAreCounted(items: seq<Observation>, key: string)
    ensures key in Counts(items) <==> ContactsOf(items, key) != {}
    ensures key in Counts(items) ==> Counts(items)[key] == |ContactsOf(items, key)|
  {
    if items == [] {
      assert ContactsOf(items, key) == {};
    } else {
      var last := |items| - 1;
      ContactsAreCounted(items[..last], key);
      assert ContactsOf(items, key) == ContactsOf(items[..last], key) + if KeyOf(items[last]) == key then {last} else {};
    }
  }

  /** The places where contacts carry this tag, a tag given twice being at two places. */
  ghost function TaggedAt(items: seq<Observation>, tag: string): set<(int, int)>
  {
    set i, j | 0 <= i < |items| && 0 <= j < |items[i].confounders| && items[i].confounders[j] == tag :: (i, j)
  }

  ghost function PlacesOf(keys: seq<string>, row: int, tag: string): set<(int, int)>
  {
    set j | 0 <= j < |keys| && keys[j] == tag :: (row, j)
  }

  lemma {:induction false} BumpsAreCounted(m: map<string, nat>, keys: seq<string>, row: int, tag: string)
    ensures tag in BumpAll(m, keys) <==> tag in m || PlacesOf(keys, row, tag) != {}
    ensures tag in BumpAll(m, keys) ==> BumpAll(m, keys)[tag] == (if tag in m then m[tag] else 0) + |PlacesOf(keys, row, tag)|
  {
    if keys == [] {
      assert PlacesOf(keys, row, tag) == {};
    } else {
      var last := |keys| - 1;
      BumpsAreCounted(m, keys[..last], row, tag);
      assert PlacesOf(keys, row, tag) == PlacesOf(keys[..last], row, tag) + if keys[last] == tag then {(row, last)} else {};
    }
  }

  /** A counter entry for each confounder tag that occurs, and no other, with its number of occurrences. */
  lemma {:induction false} TagsAreCounted(items: seq<Observation>, tag: string)
    ensures tag in TagCounts(items) <==> TaggedAt(items, tag) != {}
    ensures tag in TagCounts(items) ==> TagCounts(items)[tag] == |TaggedAt(items, tag)|
  {
    if items == [] {
      assert TaggedAt(items, tag) == {};
    } else {
      var last := |items| - 1;
      TagsAreCounted(items[..last], tag);
      BumpsAreCounted(TagCounts(items[..last]), items[last].confounders, last, tag);
      TaggedRow(items, tag);
    }
  }

  lemma TaggedRow(items: seq<Observation>, tag: string)
    requires items != []
    ensures var last := |items| - 1;
            var row := PlacesOf(items[last].confounders, last, tag);
            && TaggedAt(items, tag) == TaggedAt(items[..last], tag) + row
            && |TaggedAt(items, tag)| == |TaggedAt(items[..last], tag)| + |row|
  {
    var last := |items| - 1;
    var row := PlacesOf(items[last].confounders, last, tag);
    assert TaggedAt(items[..last], tag) !! row;
  }

  /** The coverage section, with or without an objective: its counters are those of the contacts, by class and
      surface and by tag; what it echoes and evaluates comes from the objective, and without one there is none. */
  lemma CoverageTells(obj: Option<Objective>, items: seq<Observation>, d: Declared, key: string)
    ensures var r := CoverageOf(obj, items, d);
            && (key in r.counts <==> ContactsOf(items, key) != {})
            && (key in r.counts ==> r.counts[key] == |ContactsOf(items, key)|)
            && (key in r.confounders <==> TaggedAt(items, key) != {})
            && (key in r.confounders ==> r.confounders[key] == |TaggedAt(items, key)|)
            && (r.evaluated <==> obj.Some?)
            && (obj.Some? ==> r.objectiveRef == obj.value.objectiveRef && r.frameRef == obj.value.frameRef
                              && r.desired == obj.value.desired
                              && r.entries == Entries(obj.value.hypothesisRefs, obj.value.desired, items, d))
            && (obj.None? ==> r.objectiveRef == "" && r.frameRef == "" && r.desired == [] && r.entries == [])
  {
    ContactsAreCounted(items, key);
    TagsAreCounted(items, key);
  }
}
