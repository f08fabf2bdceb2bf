/** `runtime/isolation_drift.py`: turning sampler snapshots into isolation-drift evidence, one record
    per finding that was not in the observer's previous snapshot. */
module DriftObserver {
  import opened Common
  import opened Events
  import opened Text

  const KINDS: seq<DriftKind> := [RouteToProtected, PublishedPort, CapabilityRegranted]

  type Findings = map<DriftKind, set<string>>

  const NOTHING: Findings := map[RouteToProtected := {}, PublishedPort := {}, CapabilityRegranted := {}]

  predicate Covers(f: Findings)
  {
    RouteToProtected in f && PublishedPort in f && CapabilityRegranted in f
  }

  // ----- snapshots

  function KindName(k: DriftKind): string
  {
    match k
    case RouteToProtected => "route_to_protected"
    case PublishedPort => "published_port"
    case CapabilityRegranted => "capability_regranted"
  }

  /** The white space `strip` removes. */
  predicate IsSpace(c: char)
  {
    || '\t' <= c <= '\r' || '\U{001C}' <= c <= ' ' || c == '\U{0085}' || c == '\U{00A0}' || c == '\U{1680}'
    || '\U{2000}' <= c <= '\U{200A}' || '\U{2028}' <= c <= '\U{2029}' || c == '\U{202F}' || c == '\U{205F}'
    || c == '\U{3000}'
  }

  /** A non-empty string that `strip` leaves alone. */
  predicate Trimmed(s: string)
  {
    s != [] && !IsSpace(s[0]) && !IsSpace(s[|s| - 1])
  }

  /** What a sampler hands in: per name, a collection of findings, or None for a bare string. */
  type RawSnapshot = map<string, Option<set<string>>>

  ghost predicate WellFormed(raw: RawSnapshot)
  {
    && raw.Keys == {KindName(RouteToProtected), KindName(PublishedPort), KindName(CapabilityRegranted)}
    && forall name :: name in raw ==> raw[name].Some? && forall f :: f in raw[name].value ==> Trimmed(f)
  }

  /** `_require_snapshot`: refuses unknown names, missing kinds and malformed findings; a kind nothing
      was said about is never read as "no drift". */
  method RequireSnapshot(raw: RawSnapshot) returns (r: Option<Findings>)
    ensures r.Some? <==> WellFormed(raw)
    ensures r.Some? ==> Covers(r.value) && forall k :: k in KINDS ==> k in r.value && r.value[k] == raw[KindName(k)].value
    ensures r.Some? ==> r.value.Keys == NOTHING.Keys
  {
    var names := {KindName(RouteToProtected), KindName(PublishedPort), KindName(CapabilityRegranted)};
    if raw.Keys - names != {} || names - raw.Keys != {} {
      return None;
    }
    var result: Findings := map[];
    for i := 0 to 3
      invariant forall j :: 0 <= j < i ==>
                  && raw[KindName(KINDS[j])].Some? && (forall f :: f in raw[KindName(KINDS[j])].value ==> Trimmed(f))
                  && KINDS[j] in result && result[KINDS[j]] == raw[KindName(KINDS[j])].value
      invariant result.Keys == set j | 0 <= j < i :: KINDS[j]
    {
      var given := raw[KindName(KINDS[i])];
      if given.None? || exists f :: f in given.value && !Trimmed(f) {
        return None;
      }
      result := result[KINDS[i] := given.value];
    }
    assert KINDS[0] == RouteToProtected && KINDS[1] == PublishedPort && KINDS[2] == CapabilityRegranted;
    return Some(result);
  }

  // ----- one observation

  type Edge = (DriftKind, string)

  function Tagged(k: DriftKind, fs: seq<string>): (es: seq<Edge>)
    ensures |es| == |fs|
  {
    seq(|fs|, i requires 0 <= i < |fs| => (k, fs[i]))
  }

  /** The findings of the first `n` kinds that were not active, in kind order and then in order. */
  ghost function EdgesUpTo(active: Findings, snap: Findings, n: nat): seq<Edge>
    requires Covers(active) && Covers(snap) && n <= 3
  {
    if n == 0 then []
    else EdgesUpTo(active, snap, n - 1) + Tagged(KINDS[n - 1], Sorted(snap[KINDS[n - 1]] - active[KINDS[n - 1]]))
  }

  ghost function Edges(active: Findings, snap: Findings): seq<Edge>
    requires Covers(active) && Covers(snap)
  {
    EdgesUpTo(active, snap, 3)
  }

  // ----- one look, `appends` of whose evidence appends succeed before one raises

  ghost function Noted(active: Findings, snap: Findings, appends: nat): seq<Edge>
    requires Covers(active) && Covers(snap)
  {
    var edges := Edges(active, snap);
    if |edges| <= appends then edges else edges[..appends]
  }

  /** The numbers used up: the failing append has spent its own. */
  ghost function Spent(active: Findings, snap: Findings, appends: nat): nat
    requires Covers(active) && Covers(snap)
  {
    var edges := Edges(active, snap);
    if |edges| <= appends then |edges| else appends + 1
  }

  /** Only the kinds all of whose findings went through are brought up to date. */
  ghost function ActiveAfter(active: Findings, snap: Findings, appends: nat): (f: Findings)
    requires Covers(active) && Covers(snap)
    ensures Covers(f)
  {
    map k | k in KINDS :: if |EdgesUpTo(active, snap, Rank(k) + 1)| <= appends then snap[k] else active[k]
  }

  /** `{env}-isolation-drift-{n:04d}`. */
  function EventId(env: string, n: nat): string
  {
    env + ("-isolation-drift-" + Padded(n, 4))
  }

  function Records(env: string, envState: string, edges: seq<Edge>, after: nat): (es: seq<Event>)
    ensures |es| == |edges|
  {
    seq(|edges|, i requires 0 <= i < |edges| => Drift(EventId(env, after + 1 + i), edges[i].0, edges[i].1, envState))
  }

  /** `recorded_drift`: how many drift records a log holds. */
  function DriftCount(log: seq<Event>): nat
  {
    if log == [] then 0 else DriftCount(log[..|log| - 1]) + if log[|log| - 1].Drift? then 1 else 0
  }

  method RecordedDrift(log: seq<Event>) returns (n: nat)
    ensures n == DriftCount(log)
  {
    n := 0;
    for k := 0 to |log|
      invariant n == DriftCount(log[..k])
    {
      assert log[..k + 1][..k] == log[..k];
      if log[k].Drift? {
        n := n + 1;
      }
    }
    assert log[..|log|] == log;
  }

  class EvidenceLog {
    var events: seq<Event>

    constructor (events: seq<Event>)
      ensures this.events == events
    {
      this.events := events;
    }
  }

  class IsolationDriftObserver {
    const env: string
    const log: EvidenceLog
    var active: Findings
    var seqNo: nat

    constructor (env: string, log: EvidenceLog)
      ensures this.env == env && this.log == log && active == NOTHING && seqNo == DriftCount(log.events)
    {
      this.env, this.log := env, log;
      active, seqNo := NOTHING, 0;
      new;
      seqNo := RecordedDrift(log.events);
    }

    /** The inner loop of `observe` for one kind; `appends` is how many evidence appends succeed
        before one raises, with its number already spent and the kind's active set not updated. */
    method ObserveKind(kind: DriftKind, snap: Findings, envState: string, appends: nat) returns (ok: bool)
      requires kind in active && kind in snap
      modifies this, log
      ensures var found := Sorted(snap[kind] - old(active)[kind]);
              && ok == (|found| <= appends)
              && log.events == old(log.events) +
                 Records(env, envState, Tagged(kind, if ok then found else found[..appends]), old(seqNo))
              && seqNo == old(seqNo) + (if ok then |found| else appends + 1)
              && active == if ok then old(active)[kind := snap[kind]] else old(active)
    {
      var found := SortSet(snap[kind] - active[kind]);
      for i := 0 to |found|
        invariant i <= appends && seqNo == old(seqNo) + i && active == old(active)
        invariant log.events == old(log.events) + Records(env, envState, Tagged(kind, found[..i]), old(seqNo))
      {
        seqNo := seqNo + 1;
        if i == appends {
          return false;
        }
        var event := Drift(EventId(env, seqNo), kind, found[i], envState);
        assert Records(env, envState, Tagged(kind, found[..i + 1]), old(seqNo)) ==
               Records(env, envState, Tagged(kind, found[..i]), old(seqNo)) + [event];
        log.events := log.events + [event];
      }
      assert found[..|found|] == found;
      active := active[kind := snap[kind]];
      return true;
    }

    /** `observe`: every finding not active, recorded in kind order and then in finding order. */
    method Observe(snap: Findings, envState: string, appends: nat) returns (ok: bool)
      requires Covers(active) && Covers(snap)
      modifies this, log
      ensures ok == (|Edges(old(active), snap)| <= appends)
      ensures log.events == old(log.events) + Records(env, envState, Noted(old(active), snap, appends), old(seqNo))
      ensures seqNo == old(seqNo) + Spent(old(active), snap, appends)
      ensures active == ActiveAfter(old(active), snap, appends)
    {
      hide Records;
      hide Tagged;
      hide Sorted;
      ghost var was := active;
      var start := seqNo;
      for n := 0 to 3
        invariant Covers(active)
        invariant seqNo == start + |EdgesUpTo(was, snap, n)| <= start + appends
        invariant log.events == old(log.events) + Records(env, envState, EdgesUpTo(was, snap, n), start)
        invariant forall j :: 0 <= j < 3 ==> active[KINDS[j]] == if j < n then snap[KINDS[j]] else was[KINDS[j]]
      {
        ghost var written := EdgesUpTo(was, snap, n);
        ghost var found := Sorted(snap[KINDS[n]] - active[KINDS[n]]);
        var left := appends - (seqNo - start);
        var done := ObserveKind(KINDS[n], snap, envState, left);
        if !done {
          PartOfEdges(was, snap, n, found, left);
          RecordsConcat(env, envState, written, Tagged(KINDS[n], found[..left]), start);
          KindsDone(was, snap, active, n, appends);
          return false;
        }
        RecordsConcat(env, envState, written, Tagged(KINDS[n], found), start);
      }
      KindsDone(was, snap, active, 3, appends);
      return true;
    }
  }

  lemma RecordsConcat(env: string, envState: string, a: seq<Edge>, b: seq<Edge>, after: nat)
    ensures Records(env, envState, [], after) == []
    ensures Records(env, envState, a + b, after) == Records(env, envState, a, after) + Records(env, envState, b, after + |a|)
  {
  }

  lemma {:induction false} EdgesGrow(active: Findings, snap: Findings, m: nat, n: nat)
    requires Covers(active) && Covers(snap) && m <= n <= 3
    ensures EdgesUpTo(active, snap, m) <= EdgesUpTo(active, snap, n)
  {
    if m < n {
      EdgesGrow(active, snap, m, n - 1);
    }
  }

  /** The kinds brought up to date by a look that broke off at kind `n`, or ended. */
  lemma KindsDone(was: Findings, snap: Findings, now: Findings, n: nat, appends: nat)
    requires Covers(was) && Covers(snap) && Covers(now) && n <= 3
    requires forall j :: 0 <= j < 3 ==> now[KINDS[j]] == if j < n then snap[KINDS[j]] else was[KINDS[j]]
    requires |EdgesUpTo(was, snap, n)| <= appends
    requires n < 3 ==> |EdgesUpTo(was, snap, n + 1)| > appends
    ensures now == ActiveAfter(was, snap, appends)
  {
    hide EdgesUpTo;
    forall k: DriftKind
      ensures k in now && k in ActiveAfter(was, snap, appends) && now[k] == ActiveAfter(was, snap, appends)[k]
    {
      var j := Rank(k);
      assert KINDS[j] == k;
      if j < n {
        EdgesGrow(was, snap, j + 1, n);
      } else {
        EdgesGrow(was, snap, n + 1, j + 1);
      }
    }
  }

  /** What was written when kind `n` broke off is the right part of all the edges. */
  lemma PartOfEdges(active: Findings, snap: Findings, n: nat, found: seq<string>, k: nat)
    requires Covers(active) && Covers(snap) && n < 3 && k < |found|
    requires found == Sorted(snap[KINDS[n]] - active[KINDS[n]])
    ensures var written := EdgesUpTo(active, snap, n) + Tagged(KINDS[n], found[..k]);
            |written| < |Edges(active, snap)| && Edges(active, snap)[..|written|] == written
  {
    var written := EdgesUpTo(active, snap, n) + Tagged(KINDS[n], found[..k]);
    assert EdgesUpTo(active, snap, n + 1) == EdgesUpTo(active, snap, n) + Tagged(KINDS[n], found);
    assert EdgesUpTo(active, snap, n + 1)[..|written|] == written;
    if n < 2 { assert EdgesUpTo(active, snap, n + 1) <= EdgesUpTo(active, snap, n + 2); }
    if n < 1 { assert EdgesUpTo(active, snap, n + 2) <= EdgesUpTo(active, snap, n + 3); }
    assert EdgesUpTo(active, snap, n + 1) <= Edges(active, snap);
  }
}
