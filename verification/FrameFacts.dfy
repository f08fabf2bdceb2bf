/** `mio_frame_inputs` (`runtime/mio_feedback.py`): which facts a verified bundle lets MIO state as
    known, and what in the log stands behind each of them. */
module FrameFacts {
  import opened Common
  import opened Events
  import opened EvidenceChain
  import opened Feedback
  import opened FeedbackBundle
  import opened BoundObserver

  /** Markers, without the `DECEPTION_` prefix; `_marker` folds names to upper-case tokens. */
  datatype Unknown =
    | TelemetryGap(marker: string) | UnmappedSurfaceMarker(marker: string) | NotObservedDeclared(suffix: string)
    | OnlyConfounded(suffix: string) | OnlyOutsideLease(suffix: string) | EvidenceStale | IsolationNotAsserted
    | IsolationDriftObserved | NoInteractionNotSafety | LeaseExpiredMarker | ObjectiveContentUnbound

  function Suffix(marker: string -> string, cls: string, surface: string): string
  {
    marker(cls) + "_" + marker(surface)
  }

  /** The marker an entry contributes to the unknowns, if any. */
  function UnknownOf(marker: string -> string, e: Feedback.Entry): Option<Unknown>
  {
    match e.status
    case Observed => None
    case UndeterminableGap(name) => Some(TelemetryGap(marker(name)))
    case UnmappedSurface(surface) => Some(UnmappedSurfaceMarker(marker(surface)))
    case NotObservedWithCoverage => Some(NotObservedDeclared(Suffix(marker, e.cls, e.surface)))
    case ConfoundedOnly => Some(OnlyConfounded(Suffix(marker, e.cls, e.surface)))
    case OutsideLeaseOnly => Some(OnlyOutsideLease(Suffix(marker, e.cls, e.surface)))
  }

  ghost predicate KnownDue(marker: string -> string, b: Bundle, fact: string)
  {
    exists i :: 0 <= i < |b.coverage.entries| && b.coverage.entries[i].status == Observed &&
      fact == Suffix(marker, b.coverage.entries[i].cls, b.coverage.entries[i].surface)
  }

  ghost predicate EntryUnknownDue(marker: string -> string, b: Bundle, u: Unknown)
  {
    exists i :: 0 <= i < |b.coverage.entries| && UnknownOf(marker, b.coverage.entries[i]) == Some(u)
  }

  ghost predicate GapDue(marker: string -> string, b: Bundle, u: Unknown)
  {
    exists i :: 0 <= i < |b.outcome.gaps| && u == TelemetryGap(marker(b.outcome.gaps[i]))
  }

  /** The unknown if it is due. */
  function When(due: bool, u: Unknown): (us: seq<Unknown>)
    ensures forall v :: v in us <==> due && v == u
  {
    if due then [u] else []
  }

  function Flags(b: Bundle): seq<Unknown>
  {
    When(b.limitations.stale, EvidenceStale)
    + When(b.isolation == Feedback.Unknown, IsolationNotAsserted)
    + When(b.isolation == DriftSeen, IsolationDriftObserved)
    + When(b.limitations.noInteractionIsNotSafety, NoInteractionNotSafety)
    + When(b.limitations.leaseExpired, LeaseExpiredMarker)
    + When(b.limitations.contentNotBound, ObjectiveContentUnbound)
  }

  ghost predicate NoRepeats<T>(s: seq<T>)
  {
    forall i, j :: 0 <= i < j < |s| ==> s[i] != s[j]
  }

  function AddNew<T(==,!new)>(s: seq<T>, x: T): (r: seq<T>)
    ensures forall y :: y in r <==> y in s || y == x
    ensures NoRepeats(s) ==> NoRepeats(r)
  {
    if x in s then s else s + [x]
  }

  /** The loop over the coverage entries. */
  method EntryMarkers(marker: string -> string, es: seq<Feedback.Entry>, gaps: seq<Unknown>)
    returns (known: seq<string>, unknowns: seq<Unknown>)
    requires NoRepeats(gaps)
    ensures forall f :: f in known <==>
              exists i :: 0 <= i < |es| && es[i].status == Observed && f == Suffix(marker, es[i].cls, es[i].surface)
    ensures forall u :: u in unknowns <==> u in gaps || exists i :: 0 <= i < |es| && UnknownOf(marker, es[i]) == Some(u)
    ensures NoRepeats(known) && NoRepeats(unknowns)
  {
    hide AddNew;
    hide NoRepeats;
    hide Suffix;
    NothingRepeats<string>();
    known, unknowns := [], gaps;
    for k := 0 to |es|
      invariant forall f :: f in known <==>
                  exists i :: 0 <= i < k && es[i].status == Observed && f == Suffix(marker, es[i].cls, es[i].surface)
      invariant forall u :: u in unknowns <==>
                  u in gaps || exists i :: 0 <= i < k && UnknownOf(marker, es[i]) == Some(u)
      invariant NoRepeats(known) && NoRepeats(unknowns)
    {
      var u := UnknownOf(marker, es[k]);
      if u.None? {
        known := AddNew(known, Suffix(marker, es[k].cls, es[k].surface));
      } else {
        unknowns := AddNew(unknowns, u.value);
      }
    }
  }

  /** `mio_frame_inputs` after verification: the known facts are the entries observed clean, once
      each; everything less is an unknown, and nothing is both dropped and unreported. */
  method FrameInputs(marker: string -> string, b: Bundle) returns (known: seq<string>, unknowns: seq<Unknown>)
    ensures forall f :: f in known <==> KnownDue(marker, b, f)
    ensures forall u :: u in unknowns <==> GapDue(marker, b, u) || EntryUnknownDue(marker, b, u) || u in Flags(b)
    ensures NoRepeats(known) && NoRepeats(unknowns)
  {
    hide AddNew;
    hide NoRepeats;
    known, unknowns := [], [];
    NothingRepeats<Unknown>();
    for k := 0 to |b.outcome.gaps|
      invariant forall u :: u in unknowns <==> exists i :: 0 <= i < k && u == TelemetryGap(marker(b.outcome.gaps[i]))
      invariant NoRepeats(unknowns)
    {
      unknowns := AddNew(unknowns, TelemetryGap(marker(b.outcome.gaps[k])));
    }
    known, unknowns := EntryMarkers(marker, b.coverage.entries, unknowns);
    ghost var fromEntries := unknowns;
    var flags := Flags(b);
    for k := 0 to |flags|
      invariant forall u :: u in unknowns <==> u in fromEntries || exists i :: 0 <= i < k && flags[i] == u
      invariant NoRepeats(unknowns)
    {
      unknowns := AddNew(unknowns, flags[k]);
    }
  }

  lemma NothingRepeats<T>()
    ensures NoRepeats<T>([])
  {
  }

  // ----- what stands behind a known fact

  /** Record `j` of the log is a bound, clean contact of this class and surface, after activation. */
  ghost predicate Backs(sc: Scheme<Event>, lines: seq<Line<Event>>, j: nat, c: ChainRef, cls: string, surface: string)
    requires j < |lines|
  {
    && lines[j].Dict? && c.generation < SeqNo(sc, lines[j].record)
    && lines[j].record.body.Interaction?
    && var o := lines[j].record.body.obs;
    && o.cls == cls && o.surface == surface && CarriesRefs(c, o) && o.confounders == [] && !o.outsideLease
  }

  /** Every entry with status "observed" has such a record. */
  ghost predicate Grounded(sc: Scheme<Event>, lines: seq<Line<Event>>, c: ChainRef, b: Bundle)
  {
    forall i :: 0 <= i < |b.coverage.entries| && b.coverage.entries[i].status == Observed ==>
      exists j :: 0 <= j < |lines| && Backs(sc, lines, j, c, b.coverage.entries[i].cls, b.coverage.entries[i].surface)
  }

  lemma {:induction false} CleanContactExists(items: seq<Observation>, cls: string, surface: string) returns (k: nat)
    requires CleanCount(Matching(items, cls, surface)) > 0
    ensures k < |items| && Wanted(items[k], cls, surface) && Clean(items[k])
  {
    var last := |items| - 1;
    if Wanted(items[last], cls, surface) && Clean(items[last]) {
      k := last;
    } else {
      var before := Matching(items[..last], cls, surface);
      var m := Matching(items, cls, surface);
      if Wanted(items[last], cls, surface) {
        assert m == before + [items[last]];
        assert m[..|m| - 1] == before;
      } else {
        assert m == before;
      }
      k := CleanContactExists(items[..last], cls, surface);
    }
  }

  lemma {:induction false} ObservedEntryHasContact(hs: seq<string>, desired: seq<(string, string)>,
                                                   items: seq<Observation>, d: Declared, i: nat) returns (k: nat)
    requires i < |Entries(hs, desired, items, d)| && Entries(hs, desired, items, d)[i].status == Observed
    ensures k < |items| && Clean(items[k])
    ensures Wanted(items[k], Entries(hs, desired, items, d)[i].cls, Entries(hs, desired, items, d)[i].surface)
  {
    var before := Entries(hs[..|hs| - 1], desired, items, d);
    if i < |before| {
      k := ObservedEntryHasContact(hs[..|hs| - 1], desired, items, d, i);
    } else {
      k := ObservedInRow(hs[|hs| - 1], desired, items, d, i - |before|);
    }
  }

  lemma {:induction false} ObservedInRow(h: string, desired: seq<(string, string)>, items: seq<Observation>,
                                         d: Declared, i: nat) returns (k: nat)
    requires i < |EntriesFor(h, desired, items, d)| && EntriesFor(h, desired, items, d)[i].status == Observed
    ensures k < |items| && Clean(items[k])
    ensures Wanted(items[k], EntriesFor(h, desired, items, d)[i].cls, EntriesFor(h, desired, items, d)[i].surface)
  {
    var before := EntriesFor(h, desired[..|desired| - 1], items, d);
    if i < |before| {
      k := ObservedInRow(h, desired[..|desired| - 1], items, d, i);
    } else {
      var want := desired[|desired| - 1];
      assert EntriesFor(h, desired, items, d)[i] == EntryFor(h, want, items, d);
      k := CleanContactExists(items, want.0, want.1);
    }
  }

  lemma {:induction false} CollectedComesFrom(post: seq<Record<Event>>, c: ChainRef, start: int, now: int, k: nat)
    returns (i: nat)
    requires Interactions(post, c, start, now).Ok? && k < |Interactions(post, c, start, now).value.items|
    ensures i < |post| && post[i].body == Interaction(Interactions(post, c, start, now).value.items[k])
    ensures CarriesRefs(c, Interactions(post, c, start, now).value.items[k])
  {
    var before := Interactions(post[..|post| - 1], c, start, now).value;
    if k < |before.items| {
      i := CollectedComesFrom(post[..|post| - 1], c, start, now, k);
    } else {
      i := |post| - 1;
    }
  }

  lemma {:induction false} BetweenComesFrom(sc: Scheme<Event>, rs: seq<Record<Event>>, lo: int, k: nat) returns (i: nat)
    requires k < |Between(sc, rs, Some(lo), None)|
    ensures i < |rs| && rs[i] == Between(sc, rs, Some(lo), None)[k] && lo < SeqNo(sc, rs[i])
  {
    var before := Between(sc, rs[..|rs| - 1], Some(lo), None);
    if k < |before| {
      i := BetweenComesFrom(sc, rs[..|rs| - 1], lo, k);
    } else {
      i := |rs| - 1;
    }
  }

  /** What a derived bundle's interactions and coverage are made of. */
  lemma DerivedCoverage(o: Outside, sc: Scheme<Event>, lines: seq<Line<Event>>, chain: ReferenceChain, inp: Inputs)
    returns (start: int)
    requires Intact(sc, lines) && Derive(o, sc, lines, chain, inp, None).Ok?
    ensures Records(lines).Some?
    ensures var b := Derive(o, sc, lines, chain, inp, None).value;
            var post := Between(sc, Records(lines).value, Some(chain.ref.generation), None);
            && Interactions(post, chain.ref, start, inp.now).Ok?
            && b.interactions <= Interactions(post, chain.ref, start, inp.now).value.items
            && b.coverage == CoverageOf(inp.objective, b.interactions, inp.declared)
  {
    hide Interactions;
    hide CoverageOf;
    hide Between;
    IntactIsNumbered(sc, lines);
    var all := Records(lines).value;
    NoBounds(sc, all);
    start := EventAt(WithSeq(sc, all, chain.ref.generation).value.body);
  }

  lemma DeriveIsGrounded(o: Outside, sc: Scheme<Event>, lines: seq<Line<Event>>, chain: ReferenceChain, inp: Inputs)
    requires Intact(sc, lines) && Derive(o, sc, lines, chain, inp, None).Ok?
    ensures Grounded(sc, lines, chain.ref, Derive(o, sc, lines, chain, inp, None).value)
  {
    hide Derive;
    var b := Derive(o, sc, lines, chain, inp, None).value;
    var start := DerivedCoverage(o, sc, lines, chain, inp);
    var all := Records(lines).value;
    RecordsAreLines(lines);
    var post := Between(sc, all, Some(chain.ref.generation), None);
    var es := b.coverage.entries;
    forall i | 0 <= i < |es| && es[i].status == Observed
      ensures exists j :: 0 <= j < |lines| && Backs(sc, lines, j, chain.ref, es[i].cls, es[i].surface)
    {
      var obj := inp.objective.value;
      var k := ObservedEntryHasContact(obj.hypothesisRefs, obj.desired, b.interactions, inp.declared, i);
      var p := CollectedComesFrom(post, chain.ref, start, inp.now, k);
      var j := BetweenComesFrom(sc, all, chain.ref.generation, p);
      assert Backs(sc, lines, j, chain.ref, es[i].cls, es[i].surface);
    }
  }

  ghost predicate DerivesGrounded(sc: Scheme<Event>, d: Deriver)
  {
    forall lines, chain, inp :: Intact(sc, lines) && d(lines, chain, inp, None).Ok? ==>
      Grounded(sc, lines, chain.ref, d(lines, chain, inp, None).value)
  }

  lemma DerivationIsGrounded(o: Outside, sc: Scheme<Event>)
    ensures PrefixStable(sc, Derivation(o, sc)) && DerivesGrounded(sc, Derivation(o, sc))
  {
    hide Derive;
    hide Grounded;
    DerivationIsSound(o, sc);
    forall lines, chain, inp | Intact(sc, lines) && Derivation(o, sc)(lines, chain, inp, None).Ok?
      ensures Grounded(sc, lines, chain.ref, Derivation(o, sc)(lines, chain, inp, None).value)
    {
      DeriveIsGrounded(o, sc, lines, chain, inp);
    }
  }

  /** Known facts are grounded: each one a verified bundle yields is backed by a record of the intact
      log after the session's activation that carries all chain references and no confounder tag;
      recorded by a bound observer, it was observed inside the lease. */
  lemma KnownFactsAreGrounded(o: Outside, sc: Scheme<Event>, d: Deriver, store: Store, b: Bundle, chain: ReferenceChain,
                              now: int, maxAge: int, mechanism: Supplied, marker: string -> string, fact: string)
    requires PrefixStable(sc, d) && DerivesGrounded(sc, d)
    requires Verify(o, sc, d, store, b, chain, now, maxAge, mechanism, false, Intact(sc, store.lines)) == Accepted
    requires KnownDue(marker, b, fact)
    ensures Intact(sc, store.lines)
    ensures exists j, cls, surface :: 0 <= j < |store.lines| && fact == Suffix(marker, cls, surface)
              && Backs(sc, store.lines, j, chain.ref, cls, surface)
              && (RecordedBound(chain.ref, store.lines[j].record.body.obs) ==>
                    chain.ref.leaseStart <= store.lines[j].record.body.obs.at < chain.ref.leaseEnd)
  {
    hide Verify;
    var k := AcceptedIsDerived(o, sc, d, store, b, chain, now, maxAge, mechanism, false);
    var lines := store.lines[..k];
    PrefixIntact(sc, store.lines, k);
    assert Grounded(sc, lines, chain.ref, b);
    var i :| 0 <= i < |b.coverage.entries| && b.coverage.entries[i].status == Observed &&
             fact == Suffix(marker, b.coverage.entries[i].cls, b.coverage.entries[i].surface);
    var e := b.coverage.entries[i];
    var j :| 0 <= j < |lines| && Backs(sc, lines, j, chain.ref, e.cls, e.surface);
    assert lines[j] == store.lines[j];
    assert Backs(sc, store.lines, j, chain.ref, e.cls, e.surface);
    if RecordedBound(chain.ref, store.lines[j].record.body.obs) {
      BoundRecordIsMarked(chain.ref, store.lines[j].record.body.obs);
    }
  }

  /** The same for `_derive` itself. */
  lemma DerivedFactsAreGrounded(o: Outside, sc: Scheme<Event>, store: Store, b: Bundle, chain: ReferenceChain,
                                now: int, maxAge: int, mechanism: Supplied, marker: string -> string, fact: string)
    requires Verify(o, sc, Derivation(o, sc), store, b, chain, now, maxAge, mechanism, false, Intact(sc, store.lines)) == Accepted
    requires KnownDue(marker, b, fact)
    ensures exists j, cls, surface :: 0 <= j < |store.lines| && fact == Suffix(marker, cls, surface)
              && Backs(sc, store.lines, j, chain.ref, cls, surface)
              && (RecordedBound(chain.ref, store.lines[j].record.body.obs) ==>
                    chain.ref.leaseStart <= store.lines[j].record.body.obs.at < chain.ref.leaseEnd)
  {
    hide Verify;
    hide Derive;
    hide KnownDue;
    hide Suffix;
    DerivationIsGrounded(o, sc);
    KnownFactsAreGrounded(o, sc, Derivation(o, sc), store, b, chain, now, maxAge, mechanism, marker, fact);
  }

  /** Each kind of unknown is stated exactly when it is due: read off the bundle, kind by kind. */
  lemma UnknownsTell(marker: string -> string, b: Bundle, known: seq<string>, unknowns: seq<Unknown>)
    requires forall f :: f in known <==> KnownDue(marker, b, f)
    requires forall u :: u in unknowns <==> GapDue(marker, b, u) || EntryUnknownDue(marker, b, u) || u in Flags(b)
    ensures EvidenceStale in unknowns <==> b.limitations.stale
    ensures IsolationNotAsserted in unknowns <==> b.isolation == Feedback.Unknown
    ensures IsolationDriftObserved in unknowns <==> b.isolation == DriftSeen
    ensures NoInteractionNotSafety in unknowns <==> b.limitations.noInteractionIsNotSafety
    ensures LeaseExpiredMarker in unknowns <==> b.limitations.leaseExpired
    ensures ObjectiveContentUnbound in unknowns <==> b.limitations.contentNotBound
    ensures forall m :: TelemetryGap(m) in unknowns <==>
              (exists g :: g in b.outcome.gaps && m == marker(g))
              || (exists e, name :: e in b.coverage.entries && e.status == UndeterminableGap(name) && m == marker(name))
    ensures forall m :: UnmappedSurfaceMarker(m) in unknowns <==>
              exists e, surface :: e in b.coverage.entries && e.status == UnmappedSurface(surface) && m == marker(surface)
    ensures forall f :: f in known <==> StatedOf(marker, b, Observed, f)
    ensures forall f :: NotObservedDeclared(f) in unknowns <==> StatedOf(marker, b, NotObservedWithCoverage, f)
    ensures forall f :: OnlyConfounded(f) in unknowns <==> StatedOf(marker, b, ConfoundedOnly, f)
    ensures forall f :: OnlyOutsideLease(f) in unknowns <==> StatedOf(marker, b, OutsideLeaseOnly, f)
  {
    FlagsTell(b);
    EntriesTell(marker, b);
    hide Flags;
    hide EntryUnknownDue;
    GapsTell(marker, b);
    hide GapDue;
  }

  /** The suffix is that of an entry with this status. */
  ghost predicate StatedOf(marker: string -> string, b: Bundle, status: EntryStatus, suffix: string)
  {
    exists e :: e in b.coverage.entries && e.status == status && suffix == marker(e.cls) + "_" + marker(e.surface)
  }

  lemma FlagsTell(b: Bundle)
    ensures EvidenceStale in Flags(b) <==> b.limitations.stale
    ensures IsolationNotAsserted in Flags(b) <==> b.isolation == Feedback.Unknown
    ensures IsolationDriftObserved in Flags(b) <==> b.isolation == DriftSeen
    ensures NoInteractionNotSafety in Flags(b) <==> b.limitations.noInteractionIsNotSafety
    ensures LeaseExpiredMarker in Flags(b) <==> b.limitations.leaseExpired
    ensures ObjectiveContentUnbound in Flags(b) <==> b.limitations.contentNotBound
    ensures forall u :: u in Flags(b) ==>
              || u.EvidenceStale? || u.IsolationNotAsserted? || u.IsolationDriftObserved? || u.NoInteractionNotSafety?
              || u.LeaseExpiredMarker? || u.ObjectiveContentUnbound?
  {
    hide When;
    var l := b.limitations;
    var stale, quiet, drifted := When(l.stale, EvidenceStale), When(b.isolation == Feedback.Unknown, IsolationNotAsserted),
                                 When(b.isolation == DriftSeen, IsolationDriftObserved);
    var silent, expired, unbound := When(l.noInteractionIsNotSafety, NoInteractionNotSafety),
                                    When(l.leaseExpired, LeaseExpiredMarker), When(l.contentNotBound, ObjectiveContentUnbound);
    forall u: Unknown
      ensures u in Flags(b) <==> u in stale || u in quiet || u in drifted || u in silent || u in expired || u in unbound
    {
    }
    hide Flags;
  }

  lemma GapsTell(marker: string -> string, b: Bundle)
    ensures forall u :: GapDue(marker, b, u) <==> u.TelemetryGap? && exists g :: g in b.outcome.gaps && u.marker == marker(g)
  {
  }

  lemma EntriesTell(marker: string -> string, b: Bundle)
    ensures forall m :: EntryUnknownDue(marker, b, TelemetryGap(m)) <==>
              exists e, name :: e in b.coverage.entries && e.status == UndeterminableGap(name) && m == marker(name)
    ensures forall m :: EntryUnknownDue(marker, b, UnmappedSurfaceMarker(m)) <==>
              exists e, surface :: e in b.coverage.entries && e.status == UnmappedSurface(surface) && m == marker(surface)
    ensures forall f :: KnownDue(marker, b, f) <==> StatedOf(marker, b, Observed, f)
    ensures forall f :: EntryUnknownDue(marker, b, NotObservedDeclared(f)) <==> StatedOf(marker, b, NotObservedWithCoverage, f)
    ensures forall f :: EntryUnknownDue(marker, b, OnlyConfounded(f)) <==> StatedOf(marker, b, ConfoundedOnly, f)
    ensures forall f :: EntryUnknownDue(marker, b, OnlyOutsideLease(f)) <==> StatedOf(marker, b, OutsideLeaseOnly, f)
    ensures forall u :: EntryUnknownDue(marker, b, u) ==>
              u.TelemetryGap? || u.UnmappedSurfaceMarker? || u.NotObservedDeclared? || u.OnlyConfounded? || u.OnlyOutsideLease?
  {
    var es := b.coverage.entries;
    forall e | e in es
      ensures exists i :: 0 <= i < |es| && es[i] == e
    {
    }
    forall u
      ensures EntryUnknownDue(marker, b, u) <==> exists e :: e in es && UnknownOf(marker, e) == Some(u)
    {
      if i :| 0 <= i < |es| && UnknownOf(marker, es[i]) == Some(u) {
        assert es[i] in es;
      }
    }
    hide EntryUnknownDue;
    forall f
      ensures KnownDue(marker, b, f) <==> StatedOf(marker, b, Observed, f)
    {
    }
  }
}
