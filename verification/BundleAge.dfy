/** How old a bundle's evidence is taken to be: the first 256 bound contacts count, later ones do not. */
module BundleAge {
  import opened Common
  import opened Events
  import opened Text
  import opened EvidenceChain
  import opened Feedback
  import opened FeedbackBundle
  import opened BoundObserver
  import opened BundleFacts
  import opened Sessions

  ghost function StartOf(lines: Lines, c: ChainRef): int
    requires c.generation < |lines| && lines[c.generation].Dict?
  {
    EventAt(lines[c.generation].record.body)
  }

  /** The newest evidence of a session: its start or its latest bound contact. */
  ghost function Newest(lines: Lines, c: ChainRef): int
    requires c.generation < |lines| && lines[c.generation].Dict?
  {
    Anchor(StartOf(lines, c), BoundAfter(lines, c.generation, c))
  }

  /** The newest evidence a bundle takes into account. */
  ghost function NewestKept(lines: Lines, c: ChainRef): int
    requires c.generation < |lines| && lines[c.generation].Dict?
  {
    Anchor(StartOf(lines, c), KeptAfter(lines, c.generation, c))
  }

  lemma {:induction false} AnchorOfPrefix(start: int, items: seq<Observation>, n: nat)
    requires n <= |items|
    ensures Anchor(start, items[..n]) <= Anchor(start, items)
    ensures Anchor(start, items[..n]) == Anchor(start, items) <==> forall i :: n <= i < |items| ==> items[i].at <= Anchor(start, items[..n])
    decreases |items|
  {
    if n == |items| {
      assert items[..n] == items;
    } else {
      var front := items[..|items| - 1];
      assert front[..n] == items[..n];
      AnchorOfPrefix(start, front, n);
      assert forall i :: n <= i < |front| ==> front[i] == items[i];
    }
  }

  /** They are the same exactly when no contact past the 256th is newer than all before it. */
  lemma NewestKeptIsNewestIff(lines: Lines, c: ChainRef)
    requires c.generation < |lines| && lines[c.generation].Dict?
    ensures NewestKept(lines, c) <= Newest(lines, c)
    ensures var all := BoundAfter(lines, c.generation, c);
            NewestKept(lines, c) == Newest(lines, c) <==>
              forall i :: MAX_INTERACTIONS <= i < |all| ==> all[i].at <= NewestKept(lines, c)
  {
    hide Anchor;
    var all := BoundAfter(lines, c.generation, c);
    if |all| > MAX_INTERACTIONS {
      AnchorOfPrefix(StartOf(lines, c), all, MAX_INTERACTIONS);
    }
  }

  /** The round trip, read off the log. At the same instant on the unchanged store and with the same
      mechanism, a built bundle is accepted exactly when the newest evidence it takes into account is
      within `maxAge` and the contacts it keeps name the chain's environment, node and package. */
  lemma BuiltIsAcceptedIffKeptIsFresh(o: Outside, sc: Scheme<Event>, store: Store, q: Request, b: Bundle, maxAge: int,
                                      historical: bool)
    requires Feedback.Lawful(o) && EvidenceChain.Lawful(sc) && forall e, s, p :: sc.hash(e, s, p) != ""
    requires Admitted(o, q.chain.ref)
    requires Build(o, sc, Derivation(o, sc), store, q, Intact(sc, store.lines)) == Ok(b)
    ensures SessionAt(sc, store.lines, q.chain.ref)
    ensures b.freshness.anchor == NewestKept(store.lines, q.chain.ref)
    ensures Verify(o, sc, Derivation(o, sc), store.(hasKey := true), b, q.chain, q.now, maxAge, q.mechanism, historical,
                   Intact(sc, store.lines)) == Accepted
            <==> q.now - NewestKept(store.lines, q.chain.ref) <= maxAge
                 && forall i :: 0 <= i < |KeptAfter(store.lines, q.chain.ref.generation, q.chain.ref)| ==>
                      Own(KeptAfter(store.lines, q.chain.ref.generation, q.chain.ref)[i], q.chain.ref)
  {
    hide Derive;
    hide Verify;
    hide Intact;
    hide StateShown;
    hide IsolationShown;
    hide LimitsShown;
    hide SessionAt;
    hide KeptAfter;
    hide Anchor;
    DerivationIsSound(o, sc);
    BuiltIsAcceptedIff(o, sc, Derivation(o, sc), store, q, b, maxAge, historical);
    var inp := Inputs(q.now, q.maxAge, Normalized(o, q.raw).value, q.objective, RuntimeMechanism(q.mechanism, q.chain).value);
    BundleTellsTheLog(o, sc, store.lines, q.chain, inp, b);
    SessionIsThere(sc, store.lines, q.chain.ref);
    LatestIsOne(b.freshness.anchor, StartOf(store.lines, q.chain.ref),
                KeptAfter(store.lines, q.chain.ref.generation, q.chain.ref));
  }

  /** For contacts a bound observer recorded, only the age is left to decide. */
  lemma BoundBundleIsAcceptedIff(o: Outside, sc: Scheme<Event>, store: Store, q: Request, b: Bundle, maxAge: int,
                                 historical: bool)
    requires Feedback.Lawful(o) && EvidenceChain.Lawful(sc) && forall e, s, p :: sc.hash(e, s, p) != ""
    requires Admitted(o, q.chain.ref)
    requires Build(o, sc, Derivation(o, sc), store, q, Intact(sc, store.lines)) == Ok(b)
    requires forall i :: 0 <= i < |BoundAfter(store.lines, q.chain.ref.generation, q.chain.ref)| ==>
               RecordedBound(q.chain.ref, BoundAfter(store.lines, q.chain.ref.generation, q.chain.ref)[i])
    ensures SessionAt(sc, store.lines, q.chain.ref)
    ensures Verify(o, sc, Derivation(o, sc), store.(hasKey := true), b, q.chain, q.now, maxAge, q.mechanism, historical,
                   Intact(sc, store.lines)) == Accepted
            <==> q.now - NewestKept(store.lines, q.chain.ref) <= maxAge
  {
    hide Build;
    hide Verify;
    hide Derive;
    hide RecordedBound;
    hide NewestKept;
    BuiltIsAcceptedIffKeptIsFresh(o, sc, store, q, b, maxAge, historical);
    var kept := KeptAfter(store.lines, q.chain.ref.generation, q.chain.ref);
    forall i | 0 <= i < |kept|
      ensures Own(kept[i], q.chain.ref)
    {
      BoundRecordIsMarked(q.chain.ref, kept[i]);
    }
  }

  lemma SessionIsThere(sc: Scheme<Event>, lines: Lines, c: ChainRef)
    requires SessionAt(sc, lines, c)
    ensures c.generation < |lines| && lines[c.generation].Dict?
  {
  }

  lemma LatestIsOne(at: int, start: int, items: seq<Observation>)
    requires IsLatest(at, start, items)
    ensures at == Anchor(start, items)
  {
    AnchorIsNewest(start, items);
  }

  // ----- after the 256th contact

  lemma {:induction false} BoundGrows(lines: Lines, more: Lines, g: int, c: ChainRef)
    ensures BoundAfter(lines, g, c) <= BoundAfter(lines + more, g, c)
    decreases |more|
  {
    if more == [] {
      assert lines + more == lines;
    } else {
      BoundGrows(lines, more[..|more| - 1], g, c);
      assert (lines + more)[..|lines + more| - 1] == lines + more[..|more| - 1];
    }
  }

  /** Once a session has 256 bound contacts its bundles do not get younger, whatever is recorded. */
  lemma KeptIsSettled(lines: Lines, more: Lines, c: ChainRef)
    requires c.generation < |lines| && lines[c.generation].Dict? && |BoundAfter(lines, c.generation, c)| >= MAX_INTERACTIONS
    ensures NewestKept(lines + more, c) == NewestKept(lines, c)
  {
    BoundGrows(lines, more, c.generation, c);
    var all, later := BoundAfter(lines, c.generation, c), BoundAfter(lines + more, c.generation, c);
    assert later[..MAX_INTERACTIONS] == all[..MAX_INTERACTIONS];
    assert all[..|all|] == all && later[..|later|] == later;
    assert KeptAfter(lines + more, c.generation, c) == KeptAfter(lines, c.generation, c);
  }

  /** So from the moment those contacts are older than `maxAge`, every bundle built from any longer log
      is refused as stale, however new the contacts that came after them. */
  lemma StaleForGood(o: Outside, sc: Scheme<Event>, store: Store, more: Lines, q: Request, b: Bundle, maxAge: int, historical: bool)
    requires Feedback.Lawful(o) && EvidenceChain.Lawful(sc) && forall e, s, p :: sc.hash(e, s, p) != ""
    requires Admitted(o, q.chain.ref)
    requires q.chain.ref.generation < |store.lines| && store.lines[q.chain.ref.generation].Dict?
    requires |BoundAfter(store.lines, q.chain.ref.generation, q.chain.ref)| >= MAX_INTERACTIONS
    requires q.now - NewestKept(store.lines, q.chain.ref) > maxAge
    requires var later := store.(lines := store.lines + more);
             Build(o, sc, Derivation(o, sc), later, q, Intact(sc, later.lines)) == Ok(b)
    ensures var later := store.(lines := store.lines + more);
            Verify(o, sc, Derivation(o, sc), later.(hasKey := true), b, q.chain, q.now, maxAge, q.mechanism, historical,
                   Intact(sc, later.lines)) != Accepted
  {
    hide Build;
    hide Verify;
    hide NewestKept;
    hide Derive;
    hide Intact;
    hide BoundAfter;
    KeptIsSettled(store.lines, more, q.chain.ref);
    BuiltIsAcceptedIffKeptIsFresh(o, sc, store.(lines := store.lines + more), q, b, maxAge, historical);
  }

  // ----- a noisy visitor

  /** The `i`-th contact of a visitor who came 256 times at time 0 and once more at time 100. */
  function Visit(sc: Scheme<Event>, env: string, i: nat): Observation
  {
    Observation(Digits(i), env, "p", "n", "class", "surface", [], EvidenceRefs(ChainOf(sc, env).ref),
                if i < MAX_INTERACTIONS then 0 else 100, false, 0)
  }

  function Visits(sc: Scheme<Event>, env: string, n: nat): (obs: seq<Observation>)
    ensures |obs| == n && forall i :: 0 <= i < n ==> obs[i] == Visit(sc, env, i)
  {
    if n == 0 then [] else Visits(sc, env, n - 1) + [Visit(sc, env, n - 1)]
  }

  function VisitLog(sc: Scheme<Event>, env: string, n: nat): seq<Event>
  {
    if n == 0 then [Started(env)] else VisitLog(sc, env, n - 1) + [Interaction(Visit(sc, env, n - 1))]
  }

  lemma {:induction false} VisitLogIs(sc: Scheme<Event>, env: string, n: nat)
    ensures |VisitLog(sc, env, n)| == n + 1 && VisitLog(sc, env, n)[0] == Started(env)
    ensures forall i :: 0 <= i < n ==> VisitLog(sc, env, n)[i + 1] == Interaction(Visit(sc, env, i))
  {
    if n > 0 {
      VisitLogIs(sc, env, n - 1);
    }
  }

  lemma {:induction false} IdUsedIs(items: seq<Observation>, id: string)
    requires IdUsed(items, id)
    ensures exists i :: 0 <= i < |items| && items[i].id == id
  {
    var last := |items| - 1;
    if items[last].id != id {
      IdUsedIs(items[..last], id);
      var i :| 0 <= i < |items[..last]| && items[..last][i].id == id;
      assert items[i].id == id;
    }
  }

  lemma NewVisitor(sc: Scheme<Event>, env: string, n: nat)
    ensures !IdUsed(Visits(sc, env, n), Visit(sc, env, n).id)
  {
    if IdUsed(Visits(sc, env, n), Digits(n)) {
      IdUsedIs(Visits(sc, env, n), Digits(n));
      var i :| 0 <= i < n && Visits(sc, env, n)[i].id == Digits(n);
      SameDigits(i, n);
    }
  }

  lemma SameDigits(i: nat, n: nat)
    requires Digits(i) == Digits(n)
    ensures i == n
  {
    PaddedInjective(i, n, 0);
  }

  /** The interaction loop keeps them all, and so does the log. */
  lemma {:induction false} VisitsAreKept(sc: Scheme<Event>, env: string, n: nat)
    requires forall t :: sc.str(Text(t)) == t
    ensures var lines := Log(sc, VisitLog(sc, env, n));
            var c := ChainOf(sc, env).ref;
            && Intact(sc, lines) && Records(lines).Some? && |lines| == n + 1 && lines[0].Dict? && lines[0].record.body == Started(env)
            && Interactions(Post(sc, lines, 0), c, 0, 100) == Ok(Collected(Visits(sc, env, n), 0))
            && BoundAfter(lines, 0, c) == Visits(sc, env, n)
            && Fold(Post(sc, lines, 0)) == Active && !Later(lines, 0, WasActivated)
  {
    hide Log;
    hide Post;
    hide EvidenceRefs;
    var bodies := VisitLog(sc, env, n);
    VisitLogIs(sc, env, n);
    LogIsIntact(sc, bodies);
    var lines := Log(sc, bodies);
    IntactIsNumbered(sc, lines);
    NothingEnds(sc, env, n, lines);
    if n == 0 {
      NothingAfterStart(sc, lines, ChainOf(sc, env).ref);
    } else {
      VisitsAreKept(sc, env, n - 1);
      OneVisitMore(sc, env, n - 1);
    }
  }

  lemma NothingEnds(sc: Scheme<Event>, env: string, n: nat, lines: Lines)
    requires Intact(sc, lines) && |lines| == |VisitLog(sc, env, n)| == n + 1
    requires forall i :: 0 <= i < n + 1 ==> lines[i].Dict? && lines[i].record.body == VisitLog(sc, env, n)[i]
    requires forall i :: 0 <= i < n ==> VisitLog(sc, env, n)[i + 1] == Interaction(Visit(sc, env, i))
    ensures Records(lines).Some? && Fold(Post(sc, lines, 0)) == Active && !Later(lines, 0, WasActivated)
  {
    hide Post;
    hide Has;
    assert forall j :: 0 < j < n + 1 ==> lines[j].record.body == Interaction(Visit(sc, env, j - 1));
    HasIffLater(sc, lines, 0, WasActivated);
    HasIffLater(sc, lines, 0, ResetCompleted);
    HasIffLater(sc, lines, 0, WasTerminated);
    HasIffLater(sc, lines, 0, Failure(ActivationStage));
    HasIffLater(sc, lines, 0, Failure(TerminationStage));
  }

  lemma NothingAfterStart(sc: Scheme<Event>, lines: Lines, c: ChainRef)
    requires Intact(sc, lines) && |lines| == 1 && Records(lines).Some?
    ensures Interactions(Post(sc, lines, 0), c, 0, 100) == Ok(Collected([], 0)) && BoundAfter(lines, 0, c) == []
  {
    PostStep(sc, lines, 0);
    assert lines[..0] == [] && Post(sc, lines, 0) == Post(sc, lines[..0], 0);
    assert BoundAfter(lines[..0], 0, c) == [];
  }

  lemma OneVisitMore(sc: Scheme<Event>, env: string, n: nat)
    requires forall t :: sc.str(Text(t)) == t
    requires var lines := Log(sc, VisitLog(sc, env, n));
             var c := ChainOf(sc, env).ref;
             && Intact(sc, lines) && Records(lines).Some?
             && Interactions(Post(sc, lines, 0), c, 0, 100) == Ok(Collected(Visits(sc, env, n), 0))
             && BoundAfter(lines, 0, c) == Visits(sc, env, n)
    ensures var lines := Log(sc, VisitLog(sc, env, n + 1));
            var c := ChainOf(sc, env).ref;
            && Records(lines).Some? && Interactions(Post(sc, lines, 0), c, 0, 100) == Ok(Collected(Visits(sc, env, n + 1), 0))
            && BoundAfter(lines, 0, c) == Visits(sc, env, n + 1)
  {
    hide EvidenceRefs;
    hide Intact;
    hide IdUsed;
    var c := ChainOf(sc, env).ref;
    var o := Visit(sc, env, n);
    var before := Log(sc, VisitLog(sc, env, n));
    VisitLogIs(sc, env, n);
    LogIsIntact(sc, VisitLog(sc, env, n + 1));
    LogStep(sc, VisitLog(sc, env, n), Interaction(o));
    var lines := Log(sc, VisitLog(sc, env, n + 1));
    var r := NextRecord(sc, before, Interaction(o)).value;
    assert lines == before + [Dict(r)] && r.body == Interaction(o);
    hide Log;
    hide NextRecord;
    assert lines[..|lines| - 1] == before;
    PostStep(sc, lines, 0);
    hide Post;
    NewVisitor(sc, env, n);
    LoopAccepts(Post(sc, before, 0), r, c, 100, Visits(sc, env, n));
  }

  lemma LoopAccepts(post: seq<Record<Event>>, r: Record<Event>, c: ChainRef, now: int, items: seq<Observation>)
    requires r.body.Interaction? && CarriesRefs(c, r.body.obs) && r.body.obs.size == 0 && !IdUsed(items, r.body.obs.id)
    requires 0 <= r.body.obs.at <= now
    requires Interactions(post, c, 0, now) == Ok(Collected(items, 0))
    ensures Interactions(post + [r], c, 0, now) == Ok(Collected(items + [r.body.obs], 0))
  {
    hide CarriesRefs;
    hide IdUsed;
    assert (post + [r])[..|post|] == post;
  }

  /** The 257 visits. With helpers that accept the bundle is built at time 100, when the newest evidence
      is the last visit, 0 seconds old; by the 256 it keeps it is 100 seconds old, and any `maxAge`
      below 100 refuses it. */
  lemma NoisyVisitorIsStale(o: Outside, sc: Scheme<Event>, env: string, maxAge: int) returns (store: Store, b: Bundle)
    requires Feedback.Lawful(o) && EvidenceChain.Lawful(sc) && forall e, s, p :: sc.hash(e, s, p) != ""
    requires Admitted(Accepting(o), ChainOf(sc, env).ref) && maxAge < 100
    ensures var a, q := Accepting(o), RequestAt(sc, env, 100);
            && Intact(sc, store.lines) && store.lines != [] && store.lines[0].Dict?
            && Build(a, sc, Derivation(a, sc), store, q, true) == Ok(b)
            && q.now - Newest(store.lines, q.chain.ref) == 0
            && Verify(a, sc, Derivation(a, sc), store, b, q.chain, q.now, maxAge, q.mechanism, false, true) != Accepted
  {
    hide Build;
    hide Verify;
    hide Derive;
    hide Log;
    hide Intact;
    hide Interactions;
    hide Post;
    hide Fold;
    hide Later;
    var a, q := Accepting(o), RequestAt(sc, env, 100);
    var n := MAX_INTERACTIONS + 1;
    var bodies := VisitLog(sc, env, n);
    VisitLogIs(sc, env, n);
    VisitsAreKept(sc, env, n);
    SessionIsBuilt(o, sc, bodies, env, 100);
    store := Store(Log(sc, bodies), Some(RecordOf(env, Active)), true);
    b := Build(a, sc, Derivation(a, sc), store, q, true).value;
    BuiltIsAcceptedIffKeptIsFresh(a, sc, store, q, b, maxAge, false);
    VisitTimes(sc, env);
    assert store.(hasKey := true) == store;
  }

  lemma VisitTimes(sc: Scheme<Event>, env: string)
    ensures Anchor(0, Visits(sc, env, MAX_INTERACTIONS + 1)) == 100
    ensures Anchor(0, Visits(sc, env, MAX_INTERACTIONS + 1)[..MAX_INTERACTIONS]) == 0
  {
    var all := Visits(sc, env, MAX_INTERACTIONS + 1);
    AnchorIsNewest(0, all);
    AnchorIsNewest(0, all[..MAX_INTERACTIONS]);
    assert all[MAX_INTERACTIONS].at == 100;
  }
}
