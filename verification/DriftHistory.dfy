/** Whole histories of isolation-drift observation: looks, failing appends, restarts and other writers'
    records. */
module DriftHistory {
  import opened Common
  import opened Events
  import opened Text
  import opened DriftObserver

  /** Kind order first, then finding order. */
  ghost predicate InOrder(a: Edge, b: Edge)
  {
    Rank(a.0) < Rank(b.0) || (a.0 == b.0 && Before(a.1, b.1))
  }

  lemma {:induction false} EdgesUpToMeaning(active: Findings, snap: Findings, n: nat)
    requires Covers(active) && Covers(snap) && n <= 3
    ensures forall e :: e in EdgesUpTo(active, snap, n) <==> Rank(e.0) < n && e.1 in snap[e.0] - active[e.0]
    ensures forall i, j :: 0 <= i < j < |EdgesUpTo(active, snap, n)| ==>
              InOrder(EdgesUpTo(active, snap, n)[i], EdgesUpTo(active, snap, n)[j])
  {
    if n > 0 {
      EdgesUpToMeaning(active, snap, n - 1);
      var k := KINDS[n - 1];
      var fs := Sorted(snap[k] - active[k]);
      SortedLists(snap[k] - active[k]);
      var before, last := EdgesUpTo(active, snap, n - 1), Tagged(k, fs);
      assert Rank(k) == n - 1;
      forall e: Edge
        ensures e in last <==> e.0 == k && e.1 in snap[k] - active[k]
      {
        if e.0 == k && e.1 in fs {
          var i :| 0 <= i < |fs| && fs[i] == e.1;
          assert last[i] == e;
        }
      }
      forall i, j | 0 <= i < j < |before + last|
        ensures InOrder((before + last)[i], (before + last)[j])
      {
        if i < |before| <= j {
          assert before[i] in before && last[j - |before|] in last;
        }
      }
    }
  }

  /** One look records exactly the findings that are in the snapshot and were not active, in kind
      order and then in finding order; that determines what is recorded. */
  lemma EdgesAreRisingInOrder(active: Findings, snap: Findings)
    requires Covers(active) && Covers(snap)
    ensures forall k, f :: k in KINDS ==> ((k, f) in Edges(active, snap) <==> f in snap[k] && f !in active[k])
    ensures forall i, j :: 0 <= i < j < |Edges(active, snap)| ==> InOrder(Edges(active, snap)[i], Edges(active, snap)[j])
  {
    EdgesUpToMeaning(active, snap, 3);
  }

  /** The snapshots a look accepts: the three kinds by name, none missing and none besides, each with
      findings that are neither empty nor begin or end in white space. */
  lemma WellFormedIff(raw: RawSnapshot)
    ensures WellFormed(raw) <==>
            && raw.Keys == {"route_to_protected", "published_port", "capability_regranted"}
            && forall name :: name in raw ==> raw[name].Some? && AllTrimmed(raw[name].value)
  {
    hide Trimmed;
    hide AllTrimmed;
    assert KindName(RouteToProtected) == "route_to_protected";
    assert KindName(PublishedPort) == "published_port";
    assert KindName(CapabilityRegranted) == "capability_regranted";
    hide KindName;
    forall fs: set<string>
      ensures AllTrimmed(fs) <==> forall f :: f in fs ==> Trimmed(f)
    {
      TrimmedAll(fs);
    }
  }

  lemma TrimmedAll(fs: set<string>)
    ensures AllTrimmed(fs) <==> forall f :: f in fs ==> Trimmed(f)
  {
    forall f: string
      ensures Trimmed(f) <==> f != "" && !White(f[0]) && !White(f[|f| - 1])
    {
      TrimmedIs(f);
    }
    hide Trimmed;
  }

  lemma TrimmedIs(f: string)
    ensures Trimmed(f) <==> f != "" && !White(f[0]) && !White(f[|f| - 1])
  {
  }

  /** The code points of white space. */
  ghost predicate White(c: char)
  {
    var n := c as int;
    || 9 <= n <= 13 || 28 <= n <= 32 || n == 133 || n == 160 || n == 5760 || 8192 <= n <= 8202 || n == 8232 || n == 8233
    || n == 8239 || n == 8287 || n == 12288
  }

  ghost predicate AllTrimmed(findings: set<string>)
  {
    forall f :: f in findings ==> f != "" && !White(f[0]) && !White(f[|f| - 1])
  }

  lemma {:induction false} DriftCountIs(log: seq<Event>)
    ensures DriftCount(log) == |set i | 0 <= i < |log| && log[i].Drift?|
  {
    if log == [] {
      assert |log| == 0;
    } else {
      var k := |log| - 1;
      DriftCountIs(log[..k]);
      assert (set i | 0 <= i < |log| && log[i].Drift?) ==
             (set i | 0 <= i < |log[..k]| && log[..k][i].Drift?) + if log[k].Drift? then {k} else {};
    }
  }

  /** A finding of a kind no later than `k` that is in the snapshot and was not active. */
  ghost predicate RisesUpTo(e: Edge, k: DriftKind, active: Findings, snap: Findings)
    requires Covers(active) && Covers(snap)
  {
    Rank(e.0) <= Rank(k) && e.1 in snap[e.0] && e.1 !in active[e.0]
  }

  /** What a look does when only so many of its appends succeed: it records the first so many of the rising
      findings, each once, with its number, kind, finding and the environment's state; it spends one number
      more than it records when it breaks off; and it brings a kind up to date exactly when every rising
      finding of that kind and the kinds before it was recorded. */
  lemma LookTells(env: string, s: State, snap: Findings, envState: string, appends: nat)
    requires Covers(s.active) && Covers(snap)
    ensures var t, noted := Apply(env, s, Look(snap, envState, appends)), Noted(s.active, snap, appends);
            && noted <= Edges(s.active, snap) && |noted| == Min(appends, |Edges(s.active, snap)|)
            && |t.log| == |s.log| + |noted| && s.log <= t.log
            && (forall i :: 0 <= i < |noted| ==>
                  t.log[|s.log| + i] == Drift(env + "-isolation-drift-" + Padded(s.n + i + 1, 4), noted[i].0, noted[i].1, envState))
            && t.n == s.n + |noted| + (if noted == Edges(s.active, snap) then 0 else 1)
            && forall k :: k in t.active && t.active[k] == if AllNoted(noted, k, s.active, snap) then snap[k] else s.active[k]
  {
    hide Edges;
    hide EdgesUpTo;
    hide AllNoted;
    hide ActiveAfter;
    hide EventId;
    BroughtUpToDate(s.active, snap, appends);
    forall n: nat
      ensures env + "-isolation-drift-" + Padded(n, 4) == EventId(env, n)
    {
      EventIdIs(env, n);
    }
  }

  lemma EventIdIs(env: string, n: nat)
    ensures env + "-isolation-drift-" + Padded(n, 4) == EventId(env, n)
  {
    assert env + "-isolation-drift-" + Padded(n, 4) == env + ("-isolation-drift-" + Padded(n, 4));
  }

  lemma BroughtUpToDate(active: Findings, snap: Findings, appends: nat)
    requires Covers(active) && Covers(snap)
    ensures forall k :: k in ActiveAfter(active, snap, appends) &&
              ActiveAfter(active, snap, appends)[k] ==
              if AllNoted(Noted(active, snap, appends), k, active, snap) then snap[k] else active[k]
  {
    hide Edges;
    hide EdgesUpTo;
    hide AllNoted;
    hide Noted;
    forall k: DriftKind
      ensures AllNoted(Noted(active, snap, appends), k, active, snap) <==> |EdgesUpTo(active, snap, Rank(k) + 1)| <= appends
      ensures k in KINDS
    {
      AllNotedIff(k, active, snap, appends);
      assert KINDS[Rank(k)] == k;
    }
  }

  ghost predicate AllNoted(noted: seq<Edge>, k: DriftKind, active: Findings, snap: Findings)
    requires Covers(active) && Covers(snap)
  {
    forall e :: RisesUpTo(e, k, active, snap) ==> e in noted
  }

  lemma AllNotedIff(k: DriftKind, active: Findings, snap: Findings, appends: nat)
    requires Covers(active) && Covers(snap)
    ensures AllNoted(Noted(active, snap, appends), k, active, snap) <==> |EdgesUpTo(active, snap, Rank(k) + 1)| <= appends
  {
    hide EdgesUpTo;
    var upTo, all := EdgesUpTo(active, snap, Rank(k) + 1), Edges(active, snap);
    EdgesGrow(active, snap, Rank(k) + 1, 3);
    assert upTo <= all && all == EdgesUpTo(active, snap, 3);
    EdgesUpToMeaning(active, snap, Rank(k) + 1);
    EdgesUpToMeaning(active, snap, 3);
    var noted := Noted(active, snap, appends);
    if |upTo| <= appends {
      forall e | RisesUpTo(e, k, active, snap)
        ensures e in noted
      {
        assert e in upTo;
        var i :| 0 <= i < |upTo| && upTo[i] == e;
        assert noted[i] == all[i] == e;
      }
    } else {
      var e := all[appends];
      assert upTo[appends] == e && e in upTo;
      assert RisesUpTo(e, k, active, snap);
      if e in noted {
        var i :| 0 <= i < |noted| && noted[i] == e;
        assert InOrder(all[i], all[appends]);
        assert false by { NotBeforeItself(e.1); }
      }
    }
  }

  lemma {:induction false} NotBeforeItself(s: string)
    ensures !Before(s, s)
  {
    if s != [] {
      NotBeforeItself(s[1..]);
    }
  }

  // ----- histories

  /** A look by the current observer, `appends` of whose appends succeed before one raises; a new
      observer replacing it; or another writer's record. */
  datatype Step = Look(snap: Findings, envState: string, appends: nat) | Restart | Other(e: Event)

  datatype State = State(log: seq<Event>, active: Findings, n: nat)

  ghost predicate ProperStep(step: Step)
  {
    (step.Look? ==> Covers(step.snap)) && (step.Other? ==> !step.e.Drift?)
  }

  ghost predicate Proper(steps: seq<Step>)
  {
    forall i :: 0 <= i < |steps| ==> ProperStep(steps[i])
  }

  /** One step, as the observer's constructor and `Observe` do it. */
  ghost function Apply(env: string, s: State, step: Step): (t: State)
    requires Covers(s.active) && ProperStep(step)
    ensures Covers(t.active)
  {
    match step
    case Look(snap, envState, appends) =>
      State(s.log + Records(env, envState, Noted(s.active, snap, appends), s.n), ActiveAfter(s.active, snap, appends),
            s.n + Spent(s.active, snap, appends))
    case Restart => State(s.log, NOTHING, DriftCount(s.log))
    case Other(e) => s.(log := s.log + [e])
  }

  ghost function From(env: string, s: State, steps: seq<Step>): (t: State)
    requires Covers(s.active) && Proper(steps)
    ensures Covers(t.active)
  {
    if steps == [] then s else Apply(env, From(env, s, steps[..|steps| - 1]), steps[|steps| - 1])
  }

  const START := State([], NOTHING, 0)

  ghost function After(env: string, steps: seq<Step>): (s: State)
    requires Proper(steps)
    ensures Covers(s.active)
  {
    From(env, START, steps)
  }

  // ----- histories in which every append succeeds

  ghost predicate AllAppended(env: string, steps: seq<Step>)
    requires Proper(steps)
  {
    forall k :: 0 <= k < |steps| && steps[k].Look? ==>
      |Edges(After(env, steps[..k]).active, steps[k].snap)| <= steps[k].appends
  }

  lemma AppendedBefore(env: string, steps: seq<Step>)
    requires Proper(steps) && AllAppended(env, steps) && steps != []
    ensures AllAppended(env, steps[..|steps| - 1])
  {
    var before := steps[..|steps| - 1];
    forall k | 0 <= k < |before| && before[k].Look?
      ensures |Edges(After(env, before[..k]).active, before[k].snap)| <= before[k].appends
    {
      assert before[..k] == steps[..k];
    }
  }

  lemma WholeLook(active: Findings, snap: Findings, appends: nat)
    requires Covers(active) && Covers(snap) && |Edges(active, snap)| <= appends
    ensures Noted(active, snap, appends) == Edges(active, snap) && Spent(active, snap, appends) == |Edges(active, snap)|
    ensures ActiveAfter(active, snap, appends) == snap
  {
    hide EdgesUpTo;
    forall k: DriftKind
      ensures k in ActiveAfter(active, snap, appends) && k in snap && ActiveAfter(active, snap, appends)[k] == snap[k]
    {
      assert KINDS[Rank(k)] == k;
      EdgesGrow(active, snap, Rank(k) + 1, 3);
    }
  }

  /** The current observer's previous snapshot: nothing right after a restart. */
  ghost function Previous(steps: seq<Step>): (f: Findings)
    requires Proper(steps)
    ensures Covers(f)
  {
    if steps == [] then NOTHING
    else
      match steps[|steps| - 1]
      case Look(snap, _, _) => snap
      case Restart => NOTHING
      case Other(_) => Previous(steps[..|steps| - 1])
  }

  /** The rising edges of the whole history. */
  ghost function Rising(steps: seq<Step>): seq<Edge>
    requires Proper(steps)
  {
    if steps == [] then []
    else
      var before := steps[..|steps| - 1];
      Rising(before) +
      if steps[|steps| - 1].Look? then Edges(Previous(before), steps[|steps| - 1].snap) else []
  }

  /** The drift records of a log, in order. */
  function Drifts(log: seq<Event>): (ds: seq<Event>)
    ensures |ds| == DriftCount(log) && forall i :: 0 <= i < |ds| ==> ds[i].Drift?
  {
    if log == [] then []
    else Drifts(log[..|log| - 1]) + if log[|log| - 1].Drift? then [log[|log| - 1]] else []
  }

  lemma DriftAppended(log: seq<Event>, e: Event)
    requires e.Drift?
    ensures Drifts(log + [e]) == Drifts(log) + [e]
  {
    assert (log + [e])[..|log|] == log;
  }

  lemma {:induction false} DriftsOfRecords(log: seq<Event>, env: string, envState: string, es: seq<Edge>, after: nat)
    ensures Drifts(log + Records(env, envState, es, after)) == Drifts(log) + Records(env, envState, es, after)
  {
    hide EventId;
    hide Drifts;
    var rs := Records(env, envState, es, after);
    if es == [] {
      assert log + rs == log;
      assert Drifts(log) + rs == Drifts(log);
    } else {
      var k := |es| - 1;
      DriftsOfRecords(log, env, envState, es[..k], after);
      var front := Records(env, envState, es[..k], after);
      assert rs == front + [rs[k]] && rs[k].Drift?;
      DriftAppended(log + front, rs[k]);
      assert log + rs == log + front + [rs[k]];
      assert Drifts(log) + front + [rs[k]] == Drifts(log) + rs;
    }
  }

  ghost predicate NumberedEdge(env: string, d: Event, e: Edge, n: nat)
  {
    d.Drift? && d.drift == e.0 && d.finding == e.1 && d.eventId == EventId(env, n)
  }

  /** The drift log is the rising edges. Over any history of looks, restarts and foreign records in
      which the appends succeed, the i-th drift record is the i-th finding absent from its
      observer's previous snapshot, numbered i + 1. */
  lemma {:induction false} DriftLogIsRisingEdges(env: string, steps: seq<Step>)
    requires Proper(steps) && AllAppended(env, steps)
    ensures After(env, steps).active == Previous(steps)
    ensures After(env, steps).n == DriftCount(After(env, steps).log)
    ensures Matches(env, Drifts(After(env, steps).log), Rising(steps))
  {
    hide EventId;
    hide Edges;
    hide Drifts;
    hide Records;
    if steps == [] {
      assert Drifts([]) == [];
    } else {
      var before := steps[..|steps| - 1];
      AppendedBefore(env, steps);
      DriftLogIsRisingEdges(env, before);
      var s := After(env, before);
      match steps[|steps| - 1]
      case Look(snap, envState, appends) =>
        WholeLook(s.active, snap, appends);
        LookExtends(env, s, snap, envState, Rising(before));
      case Restart =>
      case Other(e) => OtherKeepsDrifts(s.log, e);
    }
  }

  ghost predicate Matches(env: string, ds: seq<Event>, es: seq<Edge>)
  {
    |ds| == |es| && forall i :: 0 <= i < |es| ==> NumberedEdge(env, ds[i], es[i], i + 1)
  }

  lemma LookExtends(env: string, s: State, snap: Findings, envState: string, rising: seq<Edge>)
    requires Covers(s.active) && Covers(snap) && s.n == |rising| && Matches(env, Drifts(s.log), rising)
    ensures var es := Edges(s.active, snap);
            Matches(env, Drifts(s.log + Records(env, envState, es, s.n)), rising + es)
  {
    hide EventId;
    hide Edges;
    var es := Edges(s.active, snap);
    DriftsOfRecords(s.log, env, envState, es, s.n);
  }

  lemma OtherKeepsDrifts(log: seq<Event>, e: Event)
    requires !e.Drift?
    ensures Drifts(log + [e]) == Drifts(log)
  {
    assert (log + [e])[..|log|] == log;
  }

  lemma EventIdInjective(env: string, a: nat, b: nat)
    requires EventId(env, a) == EventId(env, b)
    ensures a == b
  {
    SamePrefix(env, "-isolation-drift-" + Padded(a, 4), "-isolation-drift-" + Padded(b, 4));
    SamePrefix("-isolation-drift-", Padded(a, 4), Padded(b, 4));
    PaddedInjective(a, b, 4);
  }

  // ----- event ids, over every history

  /** Some drift record of the log has the id of this number. */
  ghost predicate Used(env: string, log: seq<Event>, u: nat)
  {
    exists i :: 0 <= i < |log| && log[i].Drift? && log[i].eventId == EventId(env, u)
  }

  ghost predicate DistinctIds(log: seq<Event>)
  {
    forall i, j :: 0 <= i < j < |log| && log[i].Drift? && log[j].Drift? ==> log[i].eventId != log[j].eventId
  }

  /** The look at step `k` records a number some earlier record has. */
  ghost predicate ReachesUsed(env: string, s: State, steps: seq<Step>, k: nat)
    requires Covers(s.active) && Proper(steps) && k < |steps|
  {
    steps[k].Look? &&
    var t := From(env, s, steps[..k]);
    exists u: nat :: t.n < u <= t.n + |Noted(t.active, steps[k].snap, steps[k].appends)| && Used(env, t.log, u)
  }

  lemma RecordsUse(env: string, log: seq<Event>, envState: string, es: seq<Edge>, n: nat, u: nat)
    ensures Used(env, log + Records(env, envState, es, n), u) <==> Used(env, log, u) || n < u <= n + |es|
  {
    hide EventId;
    var rs := Records(env, envState, es, n);
    var all := log + rs;
    if i :| 0 <= i < |all| && all[i].Drift? && all[i].eventId == EventId(env, u) {
      if i >= |log| {
        assert all[i] == rs[i - |log|];
        EventIdInjective(env, n + 1 + (i - |log|), u);
      } else {
        assert log[i] == all[i];
      }
    }
    if i :| 0 <= i < |log| && log[i].Drift? && log[i].eventId == EventId(env, u) {
      assert all[i] == log[i];
    }
    if n < u <= n + |es| {
      assert all[|log| + (u - n - 1)] == rs[u - n - 1];
    }
  }

  lemma RecordsDistinct(env: string, log: seq<Event>, envState: string, es: seq<Edge>, n: nat)
    ensures DistinctIds(log + Records(env, envState, es, n)) <==>
            DistinctIds(log) && forall u: nat :: n < u <= n + |es| ==> !Used(env, log, u)
  {
    hide EventId;
    var rs := Records(env, envState, es, n);
    var all := log + rs;
    if DistinctIds(all) {
      assert forall i :: 0 <= i < |log| ==> all[i] == log[i];
      forall u | n < u <= n + |es|
        ensures !Used(env, log, u)
      {
        var j := |log| + (u - n - 1);
        assert all[j] == rs[u - n - 1];
      }
    }
    if DistinctIds(log) && forall u: nat :: n < u <= n + |es| ==> !Used(env, log, u) {
      forall i, j | 0 <= i < j < |all| && all[i].Drift? && all[j].Drift?
        ensures all[i].eventId != all[j].eventId
      {
        if j >= |log| {
          var u := n + 1 + (j - |log|);
          assert all[j] == rs[j - |log|] && all[j].eventId == EventId(env, u);
          if i < |log| {
            assert all[i] == log[i] && !Used(env, log, u);
          } else if all[i].eventId == all[j].eventId {
            assert all[i] == rs[i - |log|];
            EventIdInjective(env, n + 1 + (i - |log|), u);
          }
        }
      }
    }
  }

  lemma ForeignKeepsIds(env: string, log: seq<Event>, e: Event, u: nat)
    requires !e.Drift?
    ensures Used(env, log + [e], u) <==> Used(env, log, u)
    ensures DistinctIds(log + [e]) <==> DistinctIds(log)
  {
    hide EventId;
    assert forall i :: 0 <= i < |log| ==> (log + [e])[i] == log[i];
  }

  /** Ids repeat exactly when some look reaches a number that is in use. */
  lemma {:induction false} RepeatIffReached(env: string, s: State, steps: seq<Step>)
    requires Covers(s.active) && Proper(steps) && DistinctIds(s.log)
    ensures DistinctIds(From(env, s, steps).log) <==> forall k :: 0 <= k < |steps| ==> !ReachesUsed(env, s, steps, k)
  {
    hide DistinctIds;
    hide Used;
    hide ReachesUsed;
    hide Apply;
    if steps != [] {
      var last := |steps| - 1;
      var before := steps[..last];
      RepeatIffReached(env, s, before);
      forall k | 0 <= k < last
        ensures ReachesUsed(env, s, before, k) <==> ReachesUsed(env, s, steps, k)
      {
        ReachesBefore(env, s, steps, k);
      }
      StepReaches(env, s, steps);
    }
  }

  lemma ReachesBefore(env: string, s: State, steps: seq<Step>, k: nat)
    requires Covers(s.active) && Proper(steps) && k < |steps| - 1
    ensures ReachesUsed(env, s, steps[..|steps| - 1], k) <==> ReachesUsed(env, s, steps, k)
  {
    hide From;
    assert steps[..|steps| - 1][..k] == steps[..k];
  }

  /** The last step repeats an id exactly when it is a look that reaches one in use. */
  lemma StepReaches(env: string, s: State, steps: seq<Step>)
    requires Covers(s.active) && Proper(steps) && steps != []
    ensures var last := |steps| - 1;
            var t := From(env, s, steps[..last]);
            DistinctIds(Apply(env, t, steps[last]).log) <==> DistinctIds(t.log) && !ReachesUsed(env, s, steps, last)
  {
    hide DistinctIds;
    hide Used;
    hide Noted;
    hide Records;
    hide From;
    var last := |steps| - 1;
    var t := From(env, s, steps[..last]);
    match steps[last]
    case Look(snap, envState, appends) =>
      var es := Noted(t.active, snap, appends);
      RecordsDistinct(env, t.log, envState, es, t.n);
    case Restart =>
    case Other(e) => ForeignKeepsIds(env, t.log, e, 0);
  }

  /** A number in use that is above the observer's was left by a predecessor: at some restart it was in
      use, the observer replaced had passed it, and the log held fewer drift records than that. */
  lemma {:induction false} BehindComesFromRestart(env: string, steps: seq<Step>, u: nat) returns (r: nat)
    requires Proper(steps) && Used(env, After(env, steps).log, u) && u > After(env, steps).n
    ensures r < |steps| && steps[r].Restart?
    ensures var t := After(env, steps[..r]);
            Used(env, t.log, u) && DriftCount(t.log) < u <= t.n
  {
    hide Used;
    hide Records;
    hide Noted;
    if steps == [] {
      assert false by { NothingUsed(env, u); }
    }
    var last := |steps| - 1;
    var before := steps[..last];
    var t := After(env, before);
    match steps[last]
    case Look(snap, envState, appends) =>
      RecordsUse(env, t.log, envState, Noted(t.active, snap, appends), t.n, u);
      NotedAreSpent(t.active, snap, appends);
      r := BehindComesFromRestart(env, before, u);
      assert before[..r] == steps[..r];
    case Restart =>
      if u <= t.n {
        r := last;
      } else {
        r := BehindComesFromRestart(env, before, u);
        assert before[..r] == steps[..r];
      }
    case Other(e) =>
      ForeignKeepsIds(env, t.log, e, u);
      r := BehindComesFromRestart(env, before, u);
      assert before[..r] == steps[..r];
  }

  lemma NothingUsed(env: string, u: nat)
    ensures !Used(env, START.log, u)
  {
  }

  lemma NotedAreSpent(active: Findings, snap: Findings, appends: nat)
    requires Covers(active) && Covers(snap)
    ensures |Noted(active, snap, appends)| <= Spent(active, snap, appends)
  {
  }

  lemma {:induction false} UsedStays(env: string, s: State, steps: seq<Step>, u: nat)
    requires Covers(s.active) && Proper(steps) && Used(env, s.log, u)
    ensures Used(env, From(env, s, steps).log, u)
  {
    hide Used;
    hide Records;
    if steps != [] {
      var last := |steps| - 1;
      UsedStays(env, s, steps[..last], u);
      var t := From(env, s, steps[..last]);
      match steps[last]
      case Look(snap, envState, appends) => RecordsUse(env, t.log, envState, Noted(t.active, snap, appends), t.n, u);
      case Restart =>
      case Other(e) => ForeignKeepsIds(env, t.log, e, u);
    }
  }

  /** The restart at step `r` left number `u` behind, in use but above the count it starts from, and the
      look at step `k` after it comes to it. */
  ghost predicate Overtakes(env: string, steps: seq<Step>, r: nat, k: nat, u: nat)
    requires Proper(steps) && r < k < |steps|
  {
    && steps[r].Restart? && steps[k].Look?
    && (var t := After(env, steps[..r]); Used(env, t.log, u) && DriftCount(t.log) < u <= t.n)
    && var t := After(env, steps[..k]);
       t.n < u <= t.n + |Noted(t.active, steps[k].snap, steps[k].appends)|
  }

  /** Exactly when two drift records share an event id, over every history of looks, failing appends,
      restarts and foreign records: an observer was replaced after spending more numbers than the log
      holds records, and a successor recorded its way to a number in use above that count. */
  lemma EventIdsRepeatIff(env: string, steps: seq<Step>)
    requires Proper(steps)
    ensures !DistinctIds(After(env, steps).log) <==> exists r, k, u :: 0 <= r < k < |steps| && Overtakes(env, steps, r, k, u)
  {
    hide DistinctIds;
    hide Used;
    hide Noted;
    hide From;
    assert DistinctIds(START.log) by { NoneYet(); }
    RepeatIffReached(env, START, steps);
    if k :| 0 <= k < |steps| && ReachesUsed(env, START, steps, k) {
      var t := After(env, steps[..k]);
      var u :| t.n < u <= t.n + |Noted(t.active, steps[k].snap, steps[k].appends)| && Used(env, t.log, u);
      var r := BehindComesFromRestart(env, steps[..k], u);
      assert steps[..k][..r] == steps[..r];
      assert Overtakes(env, steps, r, k, u);
    }
    if r, k, u :| 0 <= r < k < |steps| && Overtakes(env, steps, r, k, u) {
      UsedLater(env, steps, r, k, u);
      assert ReachesUsed(env, START, steps, k);
    }
  }

  lemma NoneYet()
    ensures DistinctIds(START.log)
  {
  }

  lemma UsedLater(env: string, steps: seq<Step>, r: nat, k: nat, u: nat)
    requires Proper(steps) && r <= k <= |steps| && Used(env, After(env, steps[..r]).log, u)
    ensures Used(env, After(env, steps[..k]).log, u)
  {
    hide Used;
    hide From;
    FromInTwo(env, START, steps[..k], r);
    assert steps[..k][..r] == steps[..r];
    UsedStays(env, After(env, steps[..r]), steps[..k][r..], u);
  }

  lemma {:induction false} FromInTwo(env: string, s: State, steps: seq<Step>, r: nat)
    requires Covers(s.active) && Proper(steps) && r <= |steps|
    ensures From(env, s, steps) == From(env, From(env, s, steps[..r]), steps[r..])
    decreases |steps|
  {
    hide Apply;
    if r == |steps| {
      assert steps[..r] == steps && steps[r..] == [];
    } else {
      var last := |steps| - 1;
      FromInTwo(env, s, steps[..last], r);
      assert steps[..last][..r] == steps[..r];
      assert steps[r..][..|steps[r..]| - 1] == steps[..last][r..];
    }
  }

  ghost predicate NoRestart(steps: seq<Step>)
  {
    forall i :: 0 <= i < |steps| ==> !steps[i].Restart?
  }

  /** No number in use is above the observer's. */
  ghost predicate Ahead(env: string, s: State)
  {
    forall u: nat :: Used(env, s.log, u) ==> u <= s.n
  }

  lemma {:induction false} OneObserverStaysAhead(env: string, s: State, steps: seq<Step>)
    requires Covers(s.active) && Proper(steps) && NoRestart(steps) && Ahead(env, s)
    ensures Ahead(env, From(env, s, steps))
  {
    hide Used;
    hide Records;
    hide Noted;
    hide Spent;
    if steps != [] {
      var last := |steps| - 1;
      OneObserverStaysAhead(env, s, steps[..last]);
      var t := From(env, s, steps[..last]);
      forall u: nat | Used(env, From(env, s, steps).log, u)
        ensures u <= From(env, s, steps).n
      {
        match steps[last]
        case Look(snap, envState, appends) =>
          RecordsUse(env, t.log, envState, Noted(t.active, snap, appends), t.n, u);
          NotedAreSpent(t.active, snap, appends);
        case Other(e) => ForeignKeepsIds(env, t.log, e, u);
      }
    }
  }

  // ----- how far a successor can go wrong

  const BLINK: Findings := map[RouteToProtected := {"f"}, PublishedPort := {}, CapabilityRegranted := {}]

  /** A finding that goes and comes back, so many times. */
  function Blinks(m: nat): seq<Step>
  {
    if m == 0 then [] else Blinks(m - 1) + [Look(NOTHING, "", 0), Look(BLINK, "", 1)]
  }

  lemma {:induction false} BlinksAreLooks(m: nat)
    ensures Proper(Blinks(m)) && NoRestart(Blinks(m))
  {
    if m > 0 {
      BlinksAreLooks(m - 1);
    }
  }

  lemma {:induction false} NothingUpTo(active: Findings, n: nat)
    requires Covers(active) && n <= 3
    ensures EdgesUpTo(active, NOTHING, n) == []
  {
    if n > 0 {
      NothingUpTo(active, n - 1);
      assert NOTHING[KINDS[n - 1]] - active[KINDS[n - 1]] == {};
      assert Sorted({}) == [];
    }
  }

  lemma BlinkIsNew()
    ensures Edges(NOTHING, BLINK) == [(RouteToProtected, "f")]
  {
    hide Edges;
    EdgesAreRisingInOrder(NOTHING, BLINK);
    var es := Edges(NOTHING, BLINK);
    assert KINDS[0] == RouteToProtected;
    forall i | 0 <= i < |es|
      ensures es[i] == (RouteToProtected, "f")
    {
      assert (es[i].0, es[i].1) in es && KINDS[Rank(es[i].0)] == es[i].0;
    }
    BeforeIrreflexive("f");
    assert |es| > 1 ==> InOrder(es[0], es[1]);
  }

  lemma {:induction false} BeforeIrreflexive(s: string)
    ensures !Before(s, s)
  {
    if s != [] {
      BeforeIrreflexive(s[1..]);
    }
  }

  /** Nothing is new in an empty snapshot; one finding is new in `BLINK` after it. */
  lemma BlinkEdges(active: Findings)
    requires Covers(active)
    ensures Edges(active, NOTHING) == [] && Edges(NOTHING, BLINK) == [(RouteToProtected, "f")]
  {
    NothingUpTo(active, 3);
    BlinkIsNew();
  }

  lemma OneBlink(env: string, s: State)
    requires Covers(s.active)
    ensures var t := Apply(env, s, Look(NOTHING, "", 0));
            && t.active == NOTHING && t.n == s.n && t.log == s.log
            && Apply(env, t, Look(BLINK, "", 1)).n == s.n + 1 && |Noted(NOTHING, BLINK, 1)| == 1
  {
    hide Edges;
    BlinkEdges(s.active);
    WholeLook(s.active, NOTHING, 0);
    WholeLook(NOTHING, BLINK, 1);
  }

  lemma FromOneMore(env: string, s: State, steps: seq<Step>, step: Step)
    requires Covers(s.active) && Proper(steps) && ProperStep(step)
    ensures From(env, s, steps + [step]) == Apply(env, From(env, s, steps), step)
  {
    hide Apply;
    assert (steps + [step])[..|steps|] == steps;
  }

  /** The last of `m` blinks: one more number, recorded from the state before it. */
  lemma BlinkMore(env: string, s: State, m: nat)
    requires Covers(s.active) && m > 0 && Proper(Blinks(m)) && Proper(Blinks(m - 1))
    ensures var t := From(env, s, Blinks(m - 1) + [Look(NOTHING, "", 0)]);
            && t.n == From(env, s, Blinks(m - 1)).n && t.log == From(env, s, Blinks(m - 1)).log && t.active == NOTHING
    ensures From(env, s, Blinks(m)).n == From(env, s, Blinks(m - 1)).n + 1
  {
    hide Apply;
    hide From;
    hide Noted;
    var b := Blinks(m - 1);
    OneBlink(env, From(env, s, b));
    FromOneMore(env, s, b, Look(NOTHING, "", 0));
    FromOneMore(env, s, b + [Look(NOTHING, "", 0)], Look(BLINK, "", 1));
    assert Blinks(m) == b + [Look(NOTHING, "", 0)] + [Look(BLINK, "", 1)];
  }

  lemma {:induction false} AfterBlinks(env: string, s: State, m: nat)
    requires Covers(s.active) && Proper(Blinks(m))
    ensures From(env, s, Blinks(m)).n == s.n + m
  {
    hide Apply;
    if m == 0 {
      assert Blinks(0) == [];
    } else {
      BlinksAreLooks(m - 1);
      AfterBlinks(env, s, m - 1);
      BlinkMore(env, s, m);
    }
  }

  /** Whether an observer's future is safe, exactly: whatever it looks at and whichever of its appends
      fail, no id is ever repeated if and only if no number in use is above its own. Right after a
      restart its own number is the count of drift records. */
  lemma FutureIsSafeIff(env: string, s: State)
    requires Covers(s.active) && DistinctIds(s.log)
    ensures (forall more :: Proper(more) && NoRestart(more) ==> DistinctIds(From(env, s, more).log)) <==> Ahead(env, s)
    ensures Ahead(env, Apply(env, s, Restart)) <==> forall u: nat :: Used(env, s.log, u) ==> u <= DriftCount(s.log)
  {
    hide DistinctIds;
    hide Used;
    hide From;
    hide Noted;
    if Ahead(env, s) {
      forall more | Proper(more) && NoRestart(more)
        ensures DistinctIds(From(env, s, more).log)
      {
        AheadIsSafe(env, s, more);
      }
    } else {
      var u: nat :| Used(env, s.log, u) && u > s.n;
      BlinksReach(env, s, u);
    }
  }

  lemma AheadIsSafe(env: string, s: State, more: seq<Step>)
    requires Covers(s.active) && DistinctIds(s.log) && Proper(more) && NoRestart(more) && Ahead(env, s)
    ensures DistinctIds(From(env, s, more).log)
  {
    hide DistinctIds;
    hide Used;
    hide From;
    hide Noted;
    RepeatIffReached(env, s, more);
    forall k | 0 <= k < |more|
      ensures !ReachesUsed(env, s, more, k)
    {
      OneObserverStaysAhead(env, s, more[..k]);
    }
  }

  lemma BlinksReach(env: string, s: State, u: nat)
    requires Covers(s.active) && DistinctIds(s.log) && Used(env, s.log, u) && u > s.n
    ensures Proper(Blinks(u - s.n)) && NoRestart(Blinks(u - s.n)) && !DistinctIds(From(env, s, Blinks(u - s.n)).log)
  {
    hide DistinctIds;
    hide Used;
    hide Noted;
    hide Apply;
    hide From;
    var m := u - s.n;
    BlinksAreLooks(m);
    BlinksAreLooks(m - 1);
    AfterBlinks(env, s, m - 1);
    BlinkMore(env, s, m);
    OneBlink(env, s);
    var b := Blinks(m - 1);
    var k := |b| + 1;
    assert Blinks(m)[..k] == b + [Look(NOTHING, "", 0)] && Blinks(m)[k] == Look(BLINK, "", 1);
    UsedStays(env, s, b, u);
    assert ReachesUsed(env, s, Blinks(m), k);
    RepeatIffReached(env, s, Blinks(m));
  }

  /** So ids never repeat where every append succeeds, however often the observer is replaced. */
  lemma EventIdsNeverRepeat(env: string, steps: seq<Step>)
    requires Proper(steps) && AllAppended(env, steps)
    ensures DistinctIds(After(env, steps).log)
  {
    hide DistinctIds;
    hide Used;
    hide Noted;
    hide From;
    EventIdsRepeatIff(env, steps);
    forall r, k, u | 0 <= r < k < |steps|
      ensures !Overtakes(env, steps, r, k, u)
    {
      AppendedUpTo(env, steps, r);
      DriftLogIsRisingEdges(env, steps[..r]);
    }
  }

  lemma AppendedUpTo(env: string, steps: seq<Step>, r: nat)
    requires Proper(steps) && AllAppended(env, steps) && r <= |steps|
    ensures AllAppended(env, steps[..r])
  {
    forall k | 0 <= k < r && steps[..r][k].Look?
      ensures |Edges(After(env, steps[..r][..k]).active, steps[..r][k].snap)| <= steps[..r][k].appends
    {
      assert steps[..r][..k] == steps[..k];
    }
  }

  const REPEATING: seq<Step> := [Look(BLINK, "", 0), Look(BLINK, "", 1), Restart, Look(BLINK, "", 1)]

  /** The two looks of that history: one whose only append fails, one that goes through. */
  lemma BlinkLooks()
    ensures Noted(NOTHING, BLINK, 0) == [] && Spent(NOTHING, BLINK, 0) == 1 && ActiveAfter(NOTHING, BLINK, 0) == NOTHING
    ensures Noted(NOTHING, BLINK, 1) == [(RouteToProtected, "f")] && Spent(NOTHING, BLINK, 1) == 1
  {
    hide EdgesUpTo;
    BlinkEdges(NOTHING);
    WholeLook(NOTHING, BLINK, 1);
    FirstKindHasAll();
    forall k: DriftKind
      ensures k in ActiveAfter(NOTHING, BLINK, 0) && ActiveAfter(NOTHING, BLINK, 0)[k] == NOTHING[k]
    {
      assert KINDS[Rank(k)] == k;
      EdgesGrow(NOTHING, BLINK, 1, Rank(k) + 1);
    }
  }

  lemma FirstKindHasAll()
    ensures EdgesUpTo(NOTHING, BLINK, 1) != []
  {
    assert EdgesUpTo(NOTHING, BLINK, 0) == [];
    assert KINDS[0] == RouteToProtected;
    SortedLists(BLINK[RouteToProtected] - NOTHING[RouteToProtected]);
    assert "f" in Sorted(BLINK[RouteToProtected] - NOTHING[RouteToProtected]);
  }

  lemma AfterOneMore(env: string, steps: seq<Step>, step: Step)
    requires Proper(steps) && ProperStep(step)
    ensures After(env, steps + [step]) == Apply(env, After(env, steps), step)
  {
    assert (steps + [step])[..|steps|] == steps;
  }

  /** The shortest such history: a failed append spends number 1, the retry records number 2, and the
      next observer, counting one record, records number 2 again. */
  lemma RepeatingHistory(env: string)
    ensures Proper(REPEATING)
    ensures var again := Drift(EventId(env, 2), RouteToProtected, "f", "");
            After(env, REPEATING).log == [again, again]
  {
    hide EventId;
    hide Noted;
    hide Spent;
    hide ActiveAfter;
    hide After;
    BlinkLooks();
    var failed, whole := Look(BLINK, "", 0), Look(BLINK, "", 1);
    var d := Drift(EventId(env, 2), RouteToProtected, "f", "");
    assert REPEATING == [] + [failed] + [whole] + [Restart] + [whole];
    StartsEmpty(env);
    AfterOneMore(env, [], failed);
    assert After(env, [] + [failed]) == State([], NOTHING, 1);
    AfterOneMore(env, [] + [failed], whole);
    AfterOneMore(env, [] + [failed] + [whole], Restart);
    OneDrift(d);
    AfterOneMore(env, [] + [failed] + [whole] + [Restart], whole);
  }

  lemma StartsEmpty(env: string)
    ensures After(env, []) == START
  {
  }

  lemma OneDrift(d: Event)
    requires d.Drift?
    ensures DriftCount([d]) == 1
  {
    assert [d][..0] == [];
  }
}
