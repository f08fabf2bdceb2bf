/** `BoundObserver` (`runtime/mio_feedback.py`): what a recorded interaction carries, and how ids
    are drawn from the log while other writers append. */
module BoundObserver {
  import opened Common
  import opened Events
  import opened EvidenceChain
  import opened Feedback
  import opened FeedbackBundle
  import opened Text

  // ----- one record

  /** The last activation record of the log. */
  function LastActivated(rs: seq<Record<Event>>): Option<Record<Event>>
  {
    LastOf(rs, WasActivated)
  }

  /** `_check_live_session`: the activation record, while the chain's session is the live one. */
  function LiveSession(sc: Scheme<Event>, store: Store, c: ChainRef, intact: bool): Result<Record<Event>, Code>
  {
    if !intact || Records(store.lines).None? then Err(EvidenceTampered)
    else
      var all := Records(store.lines).value;
      var activated := LastActivated(all);
      if Has(Between(sc, all, Some(c.generation), None), ResetCompleted) then Err(SessionReset)
      else if activated.None? || SeqNo(sc, activated.value) != c.generation
              || "session:" + HashText(sc, activated.value) != c.sessionRef then Err(SessionMismatch)
      else if store.state.None? then Err(SessionMismatch)
      else if IdentityProblem(store.state.value, c).Some? then Err(IdentityProblem(store.state.value, c).value)
      else if store.state.value.state != Active then Err(SessionMismatch)
      else Ok(activated.value)
  }

  /** What the caller of `record` supplies; `argsOk` is its metadata, lure and reference checks. */
  datatype Contact = Contact(cls: string, surface: string, confounders: seq<string>, extraRefs: seq<string>,
                             observedAt: Option<int>, argsOk: bool, size: nat)

  /** The observation `record` makes of a contact at clock time `now` in a live session. */
  function Stamped(c: ChainRef, activatedAt: int, now: int, contact: Contact, id: string): Result<Observation, Code>
  {
    var when := if contact.observedAt.Some? then contact.observedAt.value else now;
    if when > now + CLOCK_SKEW then Err(Stale)
    else if when < activatedAt - CLOCK_SKEW then Err(SessionMismatch)
    else if !contact.argsOk then Err(BadArgument)
    else
      Ok(Observation(id, c.env, c.packageId, c.nodeId, contact.cls, contact.surface, contact.confounders,
                     contact.extraRefs + EvidenceRefs(c), when,
                     when < c.leaseStart || Max(now, when) >= c.leaseEnd, contact.size))
  }

  /** Recorded by a bound observer of this chain, at some time, from some contact. */
  ghost predicate RecordedBound(c: ChainRef, o: Observation)
  {
    exists activatedAt, now, contact, id :: Stamped(c, activatedAt, now, contact, id) == Ok(o)
  }

  /** A bound record carries every chain reference and names the chain's environment, node and
      package; its lease mark is absent exactly when both its time and the recording time fit the
      lease, so an unmarked one was observed inside it. */
  lemma BoundRecordIsMarked(c: ChainRef, o: Observation)
    requires RecordedBound(c, o)
    ensures CarriesRefs(c, o) && Own(o, c)
    ensures !o.outsideLease ==> c.leaseStart <= o.at < c.leaseEnd
  {
    var activatedAt, now, contact, id :| Stamped(c, activatedAt, now, contact, id) == Ok(o);
    assert o.refs == contact.extraRefs + EvidenceRefs(c);
  }

  /** The number `_next_id` draws: one past the last record's sequence number. */
  function NextNumber(sc: Scheme<Event>, rs: seq<Record<Event>>): int
  {
    if rs == [] then 0 else SeqNo(sc, rs[|rs| - 1]) + 1
  }

  /** In an intact log that is the number of records, which no record has used yet. */
  lemma NextNumberIsLength(sc: Scheme<Event>, lines: seq<Line<Event>>)
    requires Intact(sc, lines)
    ensures Records(lines).Some? && |Records(lines).value| == |lines|
    ensures NextNumber(sc, Records(lines).value) == |lines|
    ensures forall i :: 0 <= i < |lines| ==> SeqNo(sc, Records(lines).value[i]) < |lines|
  {
    IntactIsNumbered(sc, lines);
  }

  /** What `record` returns on a store, and the record it appends. */
  function Recording(sc: Scheme<Event>, store: Store, c: ChainRef, now: int, contact: Contact, intact: bool)
    : Result<Observation, Code>
  {
    match LiveSession(sc, store, c, intact)
    case Err(code) => Err(code)
    case Ok(activated) =>
      var n := NextNumber(sc, Records(store.lines).value);
      if n < 0 then Err(EvidenceTampered)
      else Stamped(c, EventAt(activated.body), now, contact, IdText(c.env, Bound(c.generation, n)))
  }

  class StoreCell {
    var store: Store

    constructor (store: Store)
      ensures this.store == store
    {
      this.store := store;
    }
  }

  class BoundObserver {
    const chain: ChainRef
    const cell: StoreCell

    constructor (chain: ChainRef, cell: StoreCell)
      ensures this.chain == chain && this.cell == cell
    {
      this.chain, this.cell := chain, cell;
    }

    /** `record`, its append succeeding: exactly one record is appended, and the chain stays intact. */
    method Record(sc: Scheme<Event>, now: int, contact: Contact) returns (r: Result<Observation, Code>)
      requires forall t :: sc.str(Text(t)) == t
      modifies cell
      ensures r == Recording(sc, old(cell.store), chain, now, contact, Intact(sc, old(cell.store.lines)))
      ensures r.Err? ==> cell.store == old(cell.store)
      ensures r.Ok? ==>
                && NextRecord(sc, old(cell.store.lines), Interaction(r.value)).Some?
                && cell.store == old(cell.store).(lines := old(cell.store.lines) +
                     [Dict(NextRecord(sc, old(cell.store.lines), Interaction(r.value)).value)])
                && Intact(sc, cell.store.lines)
    {
      var intact := VerifyEvidenceChain(sc, cell.store.lines);
      r := Recording(sc, cell.store, chain, now, contact, intact);
      if r.Ok? {
        NextExists(sc, cell.store.lines, Interaction(r.value));
        AppendVerifiesIffLogDid(sc, cell.store.lines, Interaction(r.value));
        var next := NextRecord(sc, cell.store.lines, Interaction(r.value));
        cell.store := cell.store.(lines := cell.store.lines + [Dict(next.value)]);
      }
    }
  }

  lemma NextExists(sc: Scheme<Event>, lines: seq<Line<Event>>, e: Event)
    requires Intact(sc, lines)
    ensures NextRecord(sc, lines, e).Some?
  {
    if lines != [] { assert LinkIntact(sc, lines, |lines| - 1); }
  }

  // ----- when a contact is taken

  /** The chain's session is the live one: its activation is at its place and the last one, nothing
      later reset it, and the state file is its own and says active. */
  ghost predicate IsLive(sc: Scheme<Event>, store: Store, c: ChainRef)
  {
    && c.generation < |store.lines| && store.lines[c.generation].Dict?
    && var first := store.lines[c.generation].record;
    && first.body.Lifecycle? && first.body.kind == WasActivated && c.sessionRef == "session:" + sc.str(first.hashField)
    && (forall j :: c.generation < j < |store.lines| && store.lines[j].Dict? && store.lines[j].record.body.Lifecycle? ==>
          store.lines[j].record.body.kind != WasActivated && store.lines[j].record.body.kind != ResetCompleted)
    && store.state.Some?
    && var s := store.state.value;
    && s.state == Active && s.env == c.env && s.decisionId == c.decisionId && s.packageId == c.packageId
    && s.packageDigest == c.packageDigest && s.nodeId == c.nodeId
  }

  lemma {:induction false} LastActivatedIs(sc: Scheme<Event>, rs: seq<Record<Event>>) returns (i: nat)
    ensures LastActivated(rs).Some? ==>
              && i < |rs| && LastActivated(rs) == Some(rs[i]) && IsKind(rs[i].body, WasActivated)
              && forall j :: i < j < |rs| ==> !IsKind(rs[j].body, WasActivated)
    ensures LastActivated(rs).None? ==> forall j :: 0 <= j < |rs| ==> !IsKind(rs[j].body, WasActivated)
  {
    i := 0;
    if rs != [] {
      var last := |rs| - 1;
      i := LastActivatedIs(sc, rs[..last]);
      if IsKind(rs[last].body, WasActivated) {
        i := last;
      }
      assert forall j :: 0 <= j < last ==> rs[..last][j] == rs[j];
    }
  }

  lemma {:induction false} HasBetween(sc: Scheme<Event>, rs: seq<Record<Event>>, g: int, k: Kind)
    ensures Has(Between(sc, rs, Some(g), None), k) <==>
            exists j :: 0 <= j < |rs| && g < SeqNo(sc, rs[j]) && IsKind(rs[j].body, k)
  {
    hide IsKind;
    if rs != [] {
      var front, last := rs[..|rs| - 1], rs[|rs| - 1];
      HasBetween(sc, front, g, k);
      var before := Between(sc, front, Some(g), None);
      assert before + [] == before;
      HasOneMore(before, last, k);
      assert forall j :: 0 <= j < |front| ==> front[j] == rs[j];
      if j :| 0 <= j < |rs| && g < SeqNo(sc, rs[j]) && IsKind(rs[j].body, k) {
        assert j < |front| ==> front[j] == rs[j];
      }
    }
  }

  /** The live check passes, on an intact log, exactly for the live session, and then it gives that
      session's activation; on any other log it refuses. */
  lemma LiveCheckIff(sc: Scheme<Event>, store: Store, c: ChainRef)
    ensures LiveSession(sc, store, c, false) == Err(EvidenceTampered)
    ensures Intact(sc, store.lines) ==>
              && (LiveSession(sc, store, c, true).Ok? <==> IsLive(sc, store, c))
              && (IsLive(sc, store, c) ==> LiveSession(sc, store, c, true) == Ok(store.lines[c.generation].record))
  {
    hide Between;
    hide Has;
    hide Intact;
    hide LastOf;
    if Intact(sc, store.lines) {
      IntactIsNumbered(sc, store.lines);
      RecordsAreLines(store.lines);
      var all := Records(store.lines).value;
      HasBetween(sc, all, c.generation, ResetCompleted);
      var i := LastActivatedIs(sc, all);
      assert forall j :: 0 <= j < |all| ==> store.lines[j] == Dict(all[j]) && SeqNo(sc, all[j]) == j;
    }
  }

  ghost predicate ResetOnRecord(store: Store, c: ChainRef)
  {
    exists j :: c.generation < j < |store.lines| && store.lines[j].Dict? && store.lines[j].record.body.Lifecycle?
                && store.lines[j].record.body.kind == ResetCompleted
  }

  /** The chain's activation is at its place and no later one is on record. */
  ghost predicate StartIsCurrent(sc: Scheme<Event>, store: Store, c: ChainRef)
  {
    && c.generation < |store.lines| && store.lines[c.generation].Dict?
    && var first := store.lines[c.generation].record;
    && first.body.Lifecycle? && first.body.kind == WasActivated && c.sessionRef == "session:" + sc.str(first.hashField)
    && forall j :: c.generation < j < |store.lines| && store.lines[j].Dict? && store.lines[j].record.body.Lifecycle? ==>
         store.lines[j].record.body.kind != WasActivated
  }

  /** Which refusal a session that is not live gets: a reset first, then another session, then a state file
      that is missing, not its own, or not active. */
  lemma LiveRefusals(sc: Scheme<Event>, store: Store, c: ChainRef)
    requires Intact(sc, store.lines)
    ensures var code, s := LiveSession(sc, store, c, true), store.state;
            var current := !ResetOnRecord(store, c) && StartIsCurrent(sc, store, c);
            var named := current && s.Some? && s.value.env == c.env;
            var decided := named && s.value.decisionId == c.decisionId;
            var packaged := decided && s.value.packageId == c.packageId && s.value.packageDigest == c.packageDigest;
            && (code == Err(SessionReset) <==> ResetOnRecord(store, c))
            && (!ResetOnRecord(store, c) && (!current || s.None?) ==> code == Err(SessionMismatch))
            && (current && s.Some? && !named ==> code == Err(EnvironmentMismatch))
            && (named && !decided ==> code == Err(DecisionMismatch))
            && (decided && !packaged ==> code == Err(PackageMismatch))
            && (packaged && s.value.nodeId != c.nodeId ==> code == Err(NodeMismatch))
            && (packaged && s.value.nodeId == c.nodeId && s.value.state != Active ==> code == Err(SessionMismatch))
  {
    hide Between;
    hide Has;
    hide Intact;
    hide LastOf;
    IntactIsNumbered(sc, store.lines);
    RecordsAreLines(store.lines);
    var all := Records(store.lines).value;
    HasBetween(sc, all, c.generation, ResetCompleted);
    var i := LastActivatedIs(sc, all);
    assert forall j :: 0 <= j < |all| ==> store.lines[j] == Dict(all[j]) && SeqNo(sc, all[j]) == j;
  }

  /** From which times a contact is taken, and what a taken one carries: neither from more than the
      clock skew ahead nor from that long before the session, marked unless it was both observed and
      recorded within the lease. */
  lemma StampedIff(c: ChainRef, activatedAt: int, now: int, contact: Contact, id: string)
    ensures var when := if contact.observedAt.Some? then contact.observedAt.value else now;
            var r := Stamped(c, activatedAt, now, contact, id);
            && (r == Err(Stale) <==> when > now + CLOCK_SKEW)
            && (r == Err(SessionMismatch) <==> when <= now + CLOCK_SKEW && when < activatedAt - CLOCK_SKEW)
            && (r == Err(BadArgument) <==> activatedAt - CLOCK_SKEW <= when <= now + CLOCK_SKEW && !contact.argsOk)
            && (r.Ok? <==> activatedAt - CLOCK_SKEW <= when <= now + CLOCK_SKEW && contact.argsOk)
            && (r.Ok? ==>
                  && r.value.id == id && r.value.at == when && r.value.cls == contact.cls && r.value.surface == contact.surface
                  && r.value.confounders == contact.confounders && r.value.size == contact.size
                  && r.value.env == c.env && r.value.packageId == c.packageId && r.value.nodeId == c.nodeId
                  && (forall ref :: ref in r.value.refs <==> ref in contact.extraRefs || ref in EvidenceRefs(c))
                  && (r.value.outsideLease <==> when < c.leaseStart || when >= c.leaseEnd || now >= c.leaseEnd))
  {
  }

  /** So a contact is recorded exactly in a live session of an intact log, from a time that belongs to
      it, with arguments in order; another gets the live check's refusal or else the stamp's. */
  lemma RecordedIff(sc: Scheme<Event>, store: Store, c: ChainRef, now: int, contact: Contact)
    ensures Recording(sc, store, c, now, contact, Intact(sc, store.lines)).Ok? <==>
            Intact(sc, store.lines) && IsLive(sc, store, c) && contact.argsOk
            && var when := if contact.observedAt.Some? then contact.observedAt.value else now;
               EventAt(store.lines[c.generation].record.body) - CLOCK_SKEW <= when <= now + CLOCK_SKEW
    ensures !Intact(sc, store.lines) ==> Recording(sc, store, c, now, contact, false) == Err(EvidenceTampered)
    ensures Intact(sc, store.lines) && !IsLive(sc, store, c) ==>
              LiveSession(sc, store, c, true).Err?
              && Recording(sc, store, c, now, contact, true) == Err(LiveSession(sc, store, c, true).error)
    ensures Intact(sc, store.lines) && IsLive(sc, store, c) ==>
              Recording(sc, store, c, now, contact, true) ==
              Stamped(c, EventAt(store.lines[c.generation].record.body), now, contact, IdText(c.env, Bound(c.generation, |store.lines|)))
  {
    hide LiveSession;
    hide Stamped;
    hide Intact;
    LiveCheckIff(sc, store, c);
    if Intact(sc, store.lines) {
      NextNumberIsLength(sc, store.lines);
      if IsLive(sc, store, c) {
        StampedIff(c, EventAt(store.lines[c.generation].record.body), now, contact,
                   IdText(c.env, Bound(c.generation, |store.lines|)));
      }
    }
  }

  // ----- numbering

  /** An environment's log as the numbering sees it: bound observations and everything else. */
  datatype Entry = Bound(generation: nat, n: nat) | Foreign

  /** `live` is the live session's generation; `checked` the calls whose live check passed, by the
      session it passed for; the per-environment lock is held from the id read to the append. */
  datatype State = State(log: seq<Entry>, live: Option<nat>, checked: map<nat, nat>, holder: Option<Entry>)

  datatype Step =
    | Check(call: nat)        // _check_live_session, before the lock is taken
    | Draw(call: nat)         // _next_id: the number is the log's next sequence number
    | AppendDrawn             // the record reaches the log and the lock is released
    | Abandon                 // building or appending the record raised; the lock is released
    | StartSession            // an activation record, whose sequence number is the generation
    | EndSession              // a termination or reset
    | ForeignAppend           // any other writer: drift, failures, an unbound observer

  predicate Enabled(s: State, step: Step)
  {
    match step
    case Check(call) => s.live.Some? && call !in s.checked
    case Draw(call) => s.holder.None? && call in s.checked
    case AppendDrawn => s.holder.Some?
    case Abandon => s.holder.Some?
    case StartSession => s.live.None?
    case EndSession => true
    case ForeignAppend => true
  }

  function Apply(s: State, step: Step): State
    requires Enabled(s, step)
  {
    match step
    case Check(call) => s.(checked := s.checked[call := s.live.value])
    case Draw(call) => s.(holder := Some(Bound(s.checked[call], |s.log|)), checked := s.checked - {call})
    case AppendDrawn => s.(log := s.log + [s.holder.value], holder := None)
    case Abandon => s.(holder := None)
    case StartSession => s.(log := s.log + [Foreign], live := Some(|s.log|))
    case EndSession => s.(log := s.log + [Foreign], live := None)
    case ForeignAppend => s.(log := s.log + [Foreign])
  }

  ghost predicate Runs(s: State, steps: seq<Step>, t: State)
    decreases |steps|
  {
    if steps == [] then s == t
    else Enabled(s, steps[0]) && Runs(Apply(s, steps[0]), steps[1..], t)
  }

  const START := State([], None, map[], None)

  /** A bound entry's number is at most its own index and above every earlier bound number, and its
      session started before it was drawn. */
  ghost predicate Inv(s: State)
  {
    && (forall i :: 0 <= i < |s.log| && s.log[i].Bound? ==> s.log[i].generation < s.log[i].n <= i)
    && (forall i, j :: 0 <= i < j < |s.log| && s.log[i].Bound? && s.log[j].Bound? ==> s.log[i].n < s.log[j].n)
    && (s.live.Some? ==> s.live.value < |s.log|)
    && (forall call :: call in s.checked ==> s.checked[call] < |s.log|)
    && (s.holder.Some? ==>
          && s.holder.value.Bound? && s.holder.value.generation < s.holder.value.n <= |s.log|
          && forall i :: 0 <= i < |s.log| && s.log[i].Bound? ==> s.log[i].n < s.holder.value.n)
  }

  lemma {:induction false} RunKeepsInv(s: State, steps: seq<Step>, t: State)
    requires Inv(s) && Runs(s, steps, t)
    ensures Inv(t) && s.log <= t.log
    decreases |steps|
  {
    if steps != [] {
      RunKeepsInv(Apply(s, steps[0]), steps[1..], t);
    }
  }

  /** `{env}-s{generation}-obs-{n:06d}`. */
  function IdText(env: string, e: Entry): string
    requires e.Bound?
  {
    env + ("-s" + (Digits(e.generation) + ("-obs-" + Padded(e.n, 6))))
  }

  lemma IdTextInjective(env: string, a: Entry, b: Entry)
    requires a.Bound? && b.Bound? && IdText(env, a) == IdText(env, b)
    ensures a.n == b.n
  {
    SamePrefix(env, "-s" + (Digits(a.generation) + ("-obs-" + Padded(a.n, 6))),
               "-s" + (Digits(b.generation) + ("-obs-" + Padded(b.n, 6))));
    SamePrefix("-s", Digits(a.generation) + ("-obs-" + Padded(a.n, 6)), Digits(b.generation) + ("-obs-" + Padded(b.n, 6)));
    assert ("-obs-" + Padded(a.n, 6))[0] == '-' && ("-obs-" + Padded(b.n, 6))[0] == '-';
    DigitRunUnique(Digits(a.generation), "-obs-" + Padded(a.n, 6), Digits(b.generation), "-obs-" + Padded(b.n, 6));
    SamePrefix("-obs-", Padded(a.n, 6), Padded(b.n, 6));
    PaddedInjective(a.n, b.n, 6);
  }

  /** Bound observation ids strictly increase in log order and never repeat, over any number of
      observers, re-creations and sessions of one process, whatever else is appended in between. */
  lemma IdsIncreaseAndNeverRepeat(env: string, steps: seq<Step>, s: State, i: nat, j: nat)
    requires Runs(START, steps, s) && i < j < |s.log| && s.log[i].Bound? && s.log[j].Bound?
    ensures s.log[i].n < s.log[j].n
    ensures IdText(env, s.log[i]) != IdText(env, s.log[j])
  {
    RunKeepsInv(START, steps, s);
    if IdText(env, s.log[i]) == IdText(env, s.log[j]) {
      IdTextInjective(env, s.log[i], s.log[j]);
    }
  }

  /** What ties the machine to the class: on an intact log with one entry per record, `Record` stamps
      the id of the entry `Draw` holds, and appends it where `AppendDrawn` puts that entry. */
  lemma RecordIsDrawAndAppend(sc: Scheme<Event>, store: Store, c: ChainRef, now: int, contact: Contact, s: State, call: nat)
    requires Intact(sc, store.lines) && |s.log| == |store.lines| && s.holder.None?
    requires call in s.checked && s.checked[call] == c.generation
    requires Recording(sc, store, c, now, contact, true).Ok?
    ensures var drawn := Apply(s, Draw(call));
            var appended := Apply(drawn, AppendDrawn);
            && Recording(sc, store, c, now, contact, true).value.id == IdText(c.env, drawn.holder.value)
            && appended.log[|store.lines|] == drawn.holder.value && appended.holder.None?
  {
    NextNumberIsLength(sc, store.lines);
  }

  // ----- records after the session's end

  ghost predicate NoStart(steps: seq<Step>)
  {
    forall i :: 0 <= i < |steps| ==> !steps[i].StartSession?
  }

  /** With no session, no call checked and none holding the lock, nothing bound is ever appended. */
  lemma {:induction false} NothingBoundComes(s: State, steps: seq<Step>, t: State)
    requires Runs(s, steps, t) && NoStart(steps)
    requires s.live.None? && s.checked == map[] && s.holder.None?
    ensures s.log <= t.log && forall i :: |s.log| <= i < |t.log| ==> t.log[i].Foreign?
    decreases |steps|
  {
    if steps != [] {
      var s' := Apply(s, steps[0]);
      assert !steps[0].StartSession? && forall i :: 0 <= i < |steps[1..]| ==> steps[1..][i] == steps[i + 1];
      NothingBoundComes(s', steps[1..], t);
      assert forall i :: |s.log| <= i < |s'.log| ==> t.log[i] == s'.log[i];
    }
  }

  /** The live check comes before the lock: when a session has ended, a bound record can still follow if
      and only if some call had passed its check by then, or holds its number. */
  lemma LateRecordPossibleIff(before: seq<Step>, s: State)
    requires Runs(START, before, s) && s.live.None?
    ensures (exists steps, t :: Runs(s, steps, t) && NoStart(steps) && LateBound(s, t)) <==> s.checked != map[] || s.holder.Some?
  {
    hide Inv;
    RunKeepsInv(START, before, s);
    if s.holder.Some? {
      HeldLands(s);
    } else if s.checked != map[] {
      var call :| call in s.checked;
      CheckedLands(s, call);
    } else {
      forall steps, t | Runs(s, steps, t) && NoStart(steps)
        ensures !LateBound(s, t)
      {
        NothingBoundComes(s, steps, t);
      }
    }
  }

  /** Something bound stands in the log beyond where it ended. */
  ghost predicate LateBound(s: State, t: State)
  {
    exists i :: |s.log| <= i < |t.log| && t.log[i].Bound?
  }

  lemma HeldLands(s: State)
    requires Inv(s) && s.holder.Some?
    ensures exists t :: Runs(s, [AppendDrawn], t) && LateBound(s, t)
    ensures NoStart([AppendDrawn])
  {
    var t := Apply(s, AppendDrawn);
    assert [AppendDrawn][1..] == [] && Runs(t, [], t);
    assert Runs(s, [AppendDrawn], t);
    assert t.log[|s.log|] == s.holder.value;
  }

  lemma CheckedLands(s: State, call: nat)
    requires s.holder.None? && call in s.checked
    ensures exists t :: Runs(s, [Draw(call), AppendDrawn], t) && LateBound(s, t)
    ensures NoStart([Draw(call), AppendDrawn])
  {
    var drawn := Apply(s, Draw(call));
    var t := Apply(drawn, AppendDrawn);
    assert [AppendDrawn][1..] == [] && [Draw(call), AppendDrawn][1..] == [AppendDrawn];
    assert Runs(t, [], t);
    assert Runs(drawn, [AppendDrawn], t);
    assert Runs(s, [Draw(call), AppendDrawn], t);
    assert t.log[|s.log|] == drawn.holder.value;
  }

  /** The lock: a drawn number stays its call's until that call appends or gives up, whoever else steps. */
  lemma DrawnIsKept(s: State, step: Step)
    requires s.holder.Some? && Enabled(s, step)
    ensures !step.Draw?
    ensures if step.AppendDrawn? || step.Abandon? then Apply(s, step).holder.None? else Apply(s, step).holder == s.holder
    ensures step.AppendDrawn? ==> Apply(s, step).log == s.log + [s.holder.value]
    ensures step.Abandon? ==> Apply(s, step).log == s.log
  {
  }

  /** A run in which that happens: the check, the end of the session, and the record after it. */
  const LATE_RUN: seq<Step> := [StartSession, Check(0), EndSession, ForeignAppend, Draw(0), AppendDrawn]

  lemma LateRecordHappens()
    ensures Runs(START, LATE_RUN, State([Foreign, Foreign, Foreign, Bound(0, 3)], None, map[], None))
  {
    var s1 := State([Foreign], Some(0), map[], None);
    var s2 := State([Foreign], Some(0), map[0 := 0], None);
    var s3 := State([Foreign, Foreign], None, map[0 := 0], None);
    var s4 := State([Foreign, Foreign, Foreign], None, map[0 := 0], None);
    var s5 := State([Foreign, Foreign, Foreign], None, map[], Some(Bound(0, 3)));
    var s6 := State([Foreign, Foreign, Foreign, Bound(0, 3)], None, map[], None);
    assert Runs(s6, [], s6);
    assert LATE_RUN[5..][1..] == [];
    assert Runs(s5, LATE_RUN[5..], s6);
    assert LATE_RUN[4..][1..] == LATE_RUN[5..] && Apply(s4, Draw(0)) == s5;
    assert Runs(s4, LATE_RUN[4..], s6);
    assert LATE_RUN[3..][1..] == LATE_RUN[4..] && Apply(s3, ForeignAppend) == s4;
    assert Runs(s3, LATE_RUN[3..], s6);
    assert LATE_RUN[2..][1..] == LATE_RUN[3..] && Apply(s2, EndSession) == s3;
    assert Runs(s2, LATE_RUN[2..], s6);
    assert LATE_RUN[1..][1..] == LATE_RUN[2..] && Apply(s1, Check(0)) == s2;
    assert Runs(s1, LATE_RUN[1..], s6);
    assert Apply(START, StartSession) == s1;
  }

  /** What ties the machine's check to the class: where the log's live session is the machine's, the
      live check passes for a chain of that session exactly when `Check` is enabled for it. */
  lemma CheckIsLiveCheck(sc: Scheme<Event>, store: Store, c: ChainRef, s: State, call: nat)
    requires Intact(sc, store.lines) && call !in s.checked
    requires s.live == Some(c.generation) <==> IsLive(sc, store, c)
    ensures LiveSession(sc, store, c, true).Ok? <==> Enabled(s, Check(call)) && Apply(s, Check(call)).checked[call] == c.generation
  {
    hide LiveSession;
    hide IsLive;
    LiveCheckIff(sc, store, c);
  }
}
