/** What the SO-08 verdicts and the validator's rules come to, sample by sample and injection by injection. */
module So08Facts {
  import opened Common
  import opened Events
  import opened DriftObserver
  import opened So08Record
  import opened So08Lab

  /** A sample that ran from its injection to its end in no more than so many milliseconds. */
  ghost predicate InTime(s: Sample, boundMs: int)
  {
    s.Sample? && s.start.Some? && s.end.Some? && 0 <= s.end.value - s.start.value <= boundMs * 1_000_000
  }

  ghost predicate HasBlockingGap(p: Part)
  {
    exists i :: 0 <= i < |p.gaps| && p.gaps[i].Gap? && p.gaps[i].blocks == Some(true)
  }

  /** Fail before not measurable before pass; nothing measured is not measurable. */
  lemma OverallTells(parts: seq<Verdict>)
    ensures Overall(parts) == Fail <==> Fail in parts
    ensures Overall(parts) == NotMeasurable <==> Fail !in parts && (parts == [] || NotMeasurable in parts)
    ensures Overall(parts) == Pass <==> Fail !in parts && NotMeasurable !in parts && parts != []
  {
  }

  // ----- a valid record, spelled out

  ghost predicate FullCommit(c: string)
  {
    |c| == 40 && forall i :: 0 <= i < 40 ==> c[i] in "0123456789abcdef"
  }

  lemma FullCommitIff(c: string)
    ensures IsCommit(c) <==> FullCommit(c)
  {
    var hex := "0123456789abcdef";
    forall x: char
      ensures x in hex <==> '0' <= x <= '9' || 'a' <= x <= 'f'
    {
      if '0' <= x <= '9' {
        assert hex[x as int - '0' as int] == x;
      } else if 'a' <= x <= 'f' {
        assert hex[10 + x as int - 'a' as int] == x;
      }
    }
  }

  ghost predicate Ended(s: Sample)
  {
    s.Sample? && s.start.Some? && s.end.Some?
  }

  ghost function Length(s: Sample): int
    requires Ended(s)
  {
    s.end.value - s.start.value
  }

  /** The figures of these samples: how many there are, did not end, and were not in time; whether there are
      some and all were; and the longest and shortest of those that ended, if any did. */
  ghost predicate FiguresShown(e: Evaluation, ss: seq<Sample>, boundMs: int, round: int -> real)
  {
    && e.count == |ss|
    && e.unfinished == |set i | 0 <= i < |ss| && !Ended(ss[i])|
    && e.violations == |set i | 0 <= i < |ss| && !InTime(ss[i], boundMs)|
    && (e.holds <==> ss != [] && forall i :: 0 <= i < |ss| ==> InTime(ss[i], boundMs))
    && LongestShown(e.maxMs, ss, round) && ShortestShown(e.minMs, ss, round)
  }

  ghost predicate LongestShown(ms: Option<real>, ss: seq<Sample>, round: int -> real)
  {
    && (ms.None? <==> forall i :: 0 <= i < |ss| ==> !Ended(ss[i]))
    && forall i :: 0 <= i < |ss| && Longest(ss, i) ==> ms == Some(round(Length(ss[i])))
  }

  ghost predicate ShortestShown(ms: Option<real>, ss: seq<Sample>, round: int -> real)
  {
    && (ms.None? <==> forall i :: 0 <= i < |ss| ==> !Ended(ss[i]))
    && forall i :: 0 <= i < |ss| && Shortest(ss, i) ==> ms == Some(round(Length(ss[i])))
  }

  ghost predicate Longest(ss: seq<Sample>, i: nat)
    requires i < |ss|
  {
    Ended(ss[i]) && forall j :: 0 <= j < |ss| && Ended(ss[j]) ==> Length(ss[j]) <= Length(ss[i])
  }

  ghost predicate Shortest(ss: seq<Sample>, i: nat)
    requires i < |ss|
  {
    Ended(ss[i]) && forall j :: 0 <= j < |ss| && Ended(ss[j]) ==> Length(ss[i]) <= Length(ss[j])
  }

  lemma FiguresShownIff(e: Evaluation, ss: seq<Sample>, boundMs: int, round: int -> real)
    ensures FiguresShown(e, ss, boundMs, round) <==> e == Evaluated(ss, boundMs, round)
  {
    hide InTime;
    hide Ended;
    hide LongestShown;
    hide ShortestShown;
    CountsShown(ss, boundMs, round);
    LongestShownIff(e.maxMs, ss, round);
    ShortestShownIff(e.minMs, ss, round);
    hide Extremes;
    hide CountUnfinished;
    hide CountViolations;
  }

  lemma LongestShownIff(ms: Option<real>, ss: seq<Sample>, round: int -> real)
    ensures LongestShown(ms, ss, round) <==>
            ms == if Extremes(ss).None? then None else Some(round(Extremes(ss).value.0))
  {
    ExtremesShown(ss);
    hide Extremes;
    hide Longest;
    if Extremes(ss).Some? {
      var i :| 0 <= i < |ss| && Longest(ss, i);
      assert Length(ss[i]) == Extremes(ss).value.0;
      hide Ended;
    }
  }

  lemma ShortestShownIff(ms: Option<real>, ss: seq<Sample>, round: int -> real)
    ensures ShortestShown(ms, ss, round) <==>
            ms == if Extremes(ss).None? then None else Some(round(Extremes(ss).value.1))
  {
    ExtremesShown(ss);
    hide Extremes;
    hide Shortest;
    if Extremes(ss).Some? {
      var i :| 0 <= i < |ss| && Shortest(ss, i);
      assert Length(ss[i]) == Extremes(ss).value.1;
      hide Ended;
    }
  }

  lemma CountsShown(ss: seq<Sample>, boundMs: int, round: int -> real)
    ensures var e := Evaluated(ss, boundMs, round);
            && e.count == |ss|
            && e.unfinished == |set i | 0 <= i < |ss| && !Ended(ss[i])|
            && e.violations == |set i | 0 <= i < |ss| && !InTime(ss[i], boundMs)|
            && (e.holds <==> ss != [] && forall i :: 0 <= i < |ss| ==> InTime(ss[i], boundMs))
  {
    FiguresAreOfTheSamples(ss, boundMs);
    HoldsIffEveryWithin(ss, boundMs, round);
    hide CountUnfinished;
    hide CountViolations;
    hide Extremes;
    assert UnfinishedAt(ss) == set i | 0 <= i < |ss| && !Ended(ss[i]);
    assert ViolatingAt(ss, boundMs) == set i | 0 <= i < |ss| && !InTime(ss[i], boundMs);
    assert (forall i :: 0 <= i < |ss| ==> InTime(ss[i], boundMs)) <==> forall i :: 0 <= i < |ss| ==> Within(ss[i], boundMs);
  }

  lemma ExtremesShown(ss: seq<Sample>)
    ensures Extremes(ss).None? <==> forall i :: 0 <= i < |ss| ==> !Ended(ss[i])
    ensures Extremes(ss).None? ==> forall i :: 0 <= i < |ss| ==> !Longest(ss, i) && !Shortest(ss, i)
    ensures Extremes(ss).Some? ==>
              && (forall i :: 0 <= i < |ss| && Longest(ss, i) ==> Ended(ss[i]) && Length(ss[i]) == Extremes(ss).value.0)
              && (forall i :: 0 <= i < |ss| && Shortest(ss, i) ==> Ended(ss[i]) && Length(ss[i]) == Extremes(ss).value.1)
              && (exists i :: 0 <= i < |ss| && Longest(ss, i)) && (exists i :: 0 <= i < |ss| && Shortest(ss, i))
  {
    FiguresAreOfTheSamples(ss, 0);
    hide Extremes;
    if Extremes(ss).Some? {
      var i :| 0 <= i < |ss| && Finished(ss[i]) && Elapsed(ss[i]) == Extremes(ss).value.0;
      var j :| 0 <= j < |ss| && Finished(ss[j]) && Elapsed(ss[j]) == Extremes(ss).value.1;
      assert forall k :: 0 <= k < |ss| && Ended(ss[k]) ==> Finished(ss[k]) && Elapsed(ss[k]) == Length(ss[k]);
      assert Longest(ss, i) && Shortest(ss, j);
    } else {
      assert forall k :: 0 <= k < |ss| ==> (Finished(ss[k]) <==> Ended(ss[k]));
    }
  }

  ghost predicate AllNamed(ss: seq<Sample>)
  {
    forall i :: 0 <= i < |ss| ==> ss[i].Sample? && ss[i].kind.Some? && ss[i].id.Some? && ss[i].id.value != ""
  }

  ghost predicate OwnIds(ss: seq<Sample>)
    requires AllNamed(ss)
  {
    forall i, j :: 0 <= i < j < |ss| ==> ss[i].id != ss[j].id
  }

  ghost predicate TwentyOfEach(ss: seq<Sample>)
    requires AllNamed(ss)
  {
    forall k :: |OfKind(ss, k)| >= 20
  }

  lemma SamplesOkIff(ss: seq<Sample>, executed: bool)
    ensures SamplesOk(ss, executed) <==> AllNamed(ss) && OwnIds(ss) && (executed ==> TwentyOfEach(ss))
  {
    if AllNamed(ss) {
      forall k
        ensures |OfKind(ss, k)| == CountKind(ss, k)
      {
        CountKindIs(ss, k);
      }
      hide OfKind;
      assert forall i :: 0 <= i < |ss| ==> SampleShape(ss[i]);
    } else {
      var i :| 0 <= i < |ss| && !SampleShape(ss[i]);
    }
    hide CountKind;
  }

  ghost function OfKind(ss: seq<Sample>, k: DriftKind): set<int>
    requires AllNamed(ss)
  {
    set i | 0 <= i < |ss| && ss[i].kind == Some(k)
  }

  lemma OfKindStep(ss: seq<Sample>, k: DriftKind)
    requires ss != [] && AllNamed(ss)
    ensures AllNamed(ss[..|ss| - 1])
    ensures |OfKind(ss, k)| == |OfKind(ss[..|ss| - 1], k)| + if ss[|ss| - 1].kind == Some(k) then 1 else 0
  {
    var last := |ss| - 1;
    assert AllNamed(ss[..last]);
    var before := OfKind(ss[..last], k);
    forall i
      ensures i in OfKind(ss, k) <==> i in before || (i == last && ss[last].kind == Some(k))
    {
      assert 0 <= i < last ==> ss[..last][i] == ss[i];
    }
    assert last !in before;
    hide OfKind;
    assert OfKind(ss, k) == before + if ss[last].kind == Some(k) then {last} else {};
  }

  lemma {:induction false} CountKindIs(ss: seq<Sample>, k: DriftKind)
    requires AllNamed(ss)
    ensures |OfKind(ss, k)| == CountKind(ss, k)
  {
    if ss == [] {
      assert OfKind(ss, k) == {};
    } else {
      OfKindStep(ss, k);
      hide OfKind;
      CountKindIs(ss[..|ss| - 1], k);
    }
  }

  /** Only mappings are evaluated, and all of them. */
  lemma {:induction false} MappingsAre(ss: seq<Sample>)
    ensures forall s :: s in Mappings(ss) <==> s in ss && s.Sample?
  {
    if ss != [] {
      MappingsAre(ss[..|ss| - 1]);
      assert ss == ss[..|ss| - 1] + [ss[|ss| - 1]];
    }
  }

  /** The verdict of a half: not measurable exactly when the run did not execute or a gap blocks it; otherwise
      it passes or fails by whether there are samples and all are in time. */
  ghost predicate VerdictShown(p: Part, executed: bool, boundMs: int)
    requires p.samples.Some?
  {
    var ss := p.samples.value;
    && (p.verdict == NotMeasurable <==> !executed || HasBlockingGap(p))
    && (p.verdict == Pass <==>
          executed && !HasBlockingGap(p) && ss != [] && forall i :: 0 <= i < |ss| ==> InTime(ss[i], boundMs))
    && (p.verdict == Fail <==>
          executed && !HasBlockingGap(p) && (ss == [] || exists i :: 0 <= i < |ss| && !InTime(ss[i], boundMs)))
  }

  ghost predicate HalfSound(p: Part, executed: bool, boundMs: int, round: int -> real)
  {
    && p.rule.Rule? && p.rule.boundMs == boundMs && p.samples.Some?
    && AllNamed(p.samples.value) && OwnIds(p.samples.value) && (executed ==> TwentyOfEach(p.samples.value))
    && (forall i :: 0 <= i < |p.gaps| ==> p.gaps[i].Gap? && p.gaps[i].blocks.Some?)
    && (executed ==> p.rule.evaluated.Some? && FiguresShown(p.rule.evaluated.value, p.samples.value, boundMs, round))
    && VerdictShown(p, executed, boundMs)
  }

  lemma VerdictShownIff(p: Part, executed: bool, boundMs: int, round: int -> real)
    requires p.samples.Some? && AllNamed(p.samples.value)
    ensures Mappings(p.samples.value) == p.samples.value
    ensures VerdictShown(p, executed, boundMs) <==> p.verdict == Derived(p, executed, boundMs, round)
  {
    var ss := p.samples.value;
    AllMappings(ss);
    HoldsIffEveryWithin(ss, boundMs, round);
    assert forall i :: 0 <= i < |ss| ==> (Within(ss[i], boundMs) <==> InTime(ss[i], boundMs));
    hide Evaluated;
    hide InTime;
    hide Within;
    assert Blocked(p) <==> HasBlockingGap(p);
    hide HasBlockingGap;
    hide Blocked;
  }

  lemma HalfIff(p: Part, executed: bool, boundMs: int, round: int -> real)
    ensures PartOk(p, executed, boundMs, round) <==> HalfSound(p, executed, boundMs, round)
  {
    hide FiguresShown;
    hide Evaluated;
    hide VerdictShown;
    hide Derived;
    hide SamplesOk;
    hide AllNamed;
    hide OwnIds;
    hide TwentyOfEach;
    hide Mappings;
    if p.samples.Some? {
      var ss := p.samples.value;
      SamplesOkIff(ss, executed);
      if AllNamed(ss) {
        VerdictShownIff(p, executed, boundMs, round);
        if p.rule.Rule? && p.rule.evaluated.Some? {
          FiguresShownIff(p.rule.evaluated.value, ss, boundMs, round);
        }
      }
    }
  }

  /** The first gap that is about Edge blocks and names the open issue. */
  ghost predicate NamesTheEdgeGap(gaps: seq<Gap>)
  {
    exists i :: 0 <= i < |gaps| && gaps[i] == Gap(true, Some(true), true) && forall j :: 0 <= j < i ==> !AboutEdge(gaps[j])
  }

  predicate AboutEdge(g: Gap)
  {
    g.Gap? && g.isEdgeGap
  }

  lemma {:induction false} EdgeGapIff(gaps: seq<Gap>)
    ensures NamesTheEdgeGap(gaps) <==> FirstEdgeGap(gaps) == Some(Gap(true, Some(true), true))
  {
    if gaps != [] {
      var rest := gaps[1..];
      EdgeGapIff(rest);
      if NamesTheEdgeGap(rest) && !AboutEdge(gaps[0]) {
        var i :| 0 <= i < |rest| && rest[i] == Gap(true, Some(true), true) && forall j :: 0 <= j < i ==> !AboutEdge(rest[j]);
        assert gaps[i + 1] == rest[i];
        assert forall j :: 0 < j < i + 1 ==> gaps[j] == rest[j - 1];
      }
      if NamesTheEdgeGap(gaps) && !AboutEdge(gaps[0]) {
        var i :| 0 <= i < |gaps| && gaps[i] == Gap(true, Some(true), true) && forall j :: 0 <= j < i ==> !AboutEdge(gaps[j]);
        assert rest[i - 1] == gaps[i];
        assert forall j :: 0 <= j < i - 1 ==> rest[j] == gaps[j + 1];
      }
      if AboutEdge(gaps[0]) {
        assert NamesTheEdgeGap(gaps) <==> gaps[0] == Gap(true, Some(true), true);
      }
    }
  }

  ghost predicate Occurs(id: Option<string>, ss: seq<Sample>)
  {
    exists j :: 0 <= j < |ss| && ss[j].Sample? && ss[j].id == id
  }

  ghost predicate SameInjections(ds: seq<Sample>, ws: seq<Sample>)
    requires AllNamed(ds) && AllNamed(ws)
  {
    (forall i :: 0 <= i < |ds| ==> Occurs(ds[i].id, ws)) && (forall i :: 0 <= i < |ws| ==> Occurs(ws[i].id, ds))
  }

  lemma SameInjectionsIff(ds: seq<Sample>, ws: seq<Sample>)
    requires AllNamed(ds) && AllNamed(ws)
    ensures SameInjections(ds, ws) <==> Ids(ds) == Ids(ws)
  {
    forall id: Option<string>, ss: seq<Sample>
      ensures Occurs(id, ss) <==> id in Ids(ss)
    {
    }
    hide Occurs;
    if SameInjections(ds, ws) {
      assert forall id :: id in Ids(ds) ==> id in Ids(ws);
      assert forall id :: id in Ids(ws) ==> id in Ids(ds);
    } else if Ids(ds) == Ids(ws) {
      assert forall i :: 0 <= i < |ds| ==> ds[i].id in Ids(ds);
      assert forall i :: 0 <= i < |ws| ==> ws[i].id in Ids(ws);
    }
  }

  /** Every detection that ended was read from named evidence. */
  ghost predicate ReadFromEvidence(ds: seq<Sample>)
    requires AllNamed(ds)
  {
    forall i :: 0 <= i < |ds| && ds[i].end.Some? ==> ds[i].eventId != "" && ds[i].seqNo.Some?
  }

  /** What the class asks for: a lab run never gates nor passes and has no identity of its own; a field exercise
      gates, names a commissioned identity, and ends every withdrawal by a named Edge event. */
  ghost predicate ClassSound(r: Record, ws: seq<Sample>, rules: Rules)
    requires AllNamed(ws) && r.config.Some?
  {
    var c := r.config.value;
    || (r.class_ == VirtualLab && r.gate == Some(false) && r.verdict != Pass
        && c.identity == Some("virtual-lab, no commissioned identity") && c.backend == Some("linux-netns"))
    || (r.class_ == Hil && r.gate == Some(true)
        && c.identity.Some? && rules.identityOk(c.identity.value) && c.backend == Some("field-segment")
        && r.exercise.Some? && r.exercise.value.fieldsPresent
        && (r.exercise.value.edge.Some? ==> EdgeSound(r.exercise.value.edge.value, rules))
        && forall i :: 0 <= i < |ws| && ws[i].end.Some? ==> ws[i].edgeRef.Some? && rules.eventRefOk(ws[i].edgeRef.value))
  }

  ghost predicate EdgeSound(e: So08Record.Edge, rules: Rules)
  {
    e.repositoryOk && e.commit.Some? && FullCommit(e.commit.value) && e.pathRef.Some? && rules.edgeRefOk(e.pathRef.value)
  }

  lemma NamesIff(ds: seq<Sample>)
    requires AllNamed(ds)
    ensures ReadFromEvidence(ds) <==> forall i :: 0 <= i < |ds| ==> NamesEvidence(ds[i])
  {
  }

  lemma ClassSoundIff(r: Record, ws: seq<Sample>, rules: Rules)
    requires AllNamed(ws) && r.config.Some?
    ensures ClassSound(r, ws, rules) <==> ClassOk(r, ws, rules)
  {
    assert (forall i :: 0 <= i < |ws| && ws[i].end.Some? ==> ws[i].edgeRef.Some? && rules.eventRefOk(ws[i].edgeRef.value))
           <==> forall i :: 0 <= i < |ws| ==> NamesEdgeEvent(ws[i], rules);
    if r.exercise.Some? && r.exercise.value.edge.Some? && r.exercise.value.edge.value.commit.Some? {
      FullCommitIff(r.exercise.value.edge.value.commit.value);
    }
    hide IsCommit;
    hide FullCommit;
    hide NamesEdgeEvent;
  }

  /** Exactly which records the validator finds nothing wrong with. */
  ghost predicate SoundRecord(r: Record, rules: Rules)
  {
    && r.schemaOk && r.objectiveOk && r.class_ != OtherClass && r.verdict != OtherVerdict
    && r.owner.Some? && r.owner.value.repositoryOk && r.owner.value.commit.Some? && FullCommit(r.owner.value.commit.value)
    && r.config.Some? && r.config.value.kindsOk && r.executed.Some? && r.detection.Some? && r.withdrawal.Some?
    && var d, w := r.detection.value, r.withdrawal.value;
    && HalfSound(d, r.executed.value, 2000, rules.round) && HalfSound(w, r.executed.value, 5000, rules.round)
    && (!rules.edgeDeclared ==> NamesTheEdgeGap(w.gaps))
    && ReadFromEvidence(d.samples.value) && SameInjections(d.samples.value, w.samples.value)
    && ClassSound(r, w.samples.value, rules)
    && (r.verdict == Fail <==> d.verdict == Fail || w.verdict == Fail)
    && (r.verdict == Pass <==> d.verdict == Pass && w.verdict == Pass)
  }

  lemma ValidIff(r: Record, rules: Rules)
    ensures Valid(r, rules) <==> SoundRecord(r, rules)
  {
    hide IsCommit;
    hide FullCommit;
    hide PartOk;
    hide HalfSound;
    hide NamesTheEdgeGap;
    hide FirstEdgeGap;
    hide ReadFromEvidence;
    hide NamesEvidence;
    hide SameInjections;
    hide Ids;
    hide ClassSound;
    hide ClassOk;
    hide Derived;
    hide AllNamed;
    if HeaderOk(r) && r.detection.Some? && r.withdrawal.Some? {
      FullCommitIff(r.owner.value.commit.value);
      var d, w, executed := r.detection.value, r.withdrawal.value, r.executed.value;
      HalfIff(d, executed, 2000, rules.round);
      HalfIff(w, executed, 5000, rules.round);
      EdgeGapIff(w.gaps);
      if PartOk(d, executed, 2000, rules.round) && PartOk(w, executed, 5000, rules.round) {
        HalfVerdict(d, executed, 2000, rules.round);
        HalfVerdict(w, executed, 5000, rules.round);
        NamesIff(d.samples.value);
        SameInjectionsIff(d.samples.value, w.samples.value);
        ClassSoundIff(r, w.samples.value, rules);
        OverallTells([d.verdict, w.verdict]);
      }
    } else if r.owner.Some? && r.owner.value.commit.Some? {
      FullCommitIff(r.owner.value.commit.value);
    }
  }

  lemma HalfVerdict(p: Part, executed: bool, boundMs: int, round: int -> real)
    requires PartOk(p, executed, boundMs, round)
    ensures p.verdict == Derived(p, executed, boundMs, round) && p.verdict != OtherVerdict
    ensures p.samples.Some? && AllNamed(p.samples.value) && SamplesOf(p) == p.samples.value
  {
    SamplesOkIff(p.samples.value, executed);
    hide Evaluated;
    hide SamplesOk;
    hide AllNamed;
  }

  // ----- the lab

  /** A run counts as executed exactly when the lab came up isolated, every injection of every kind was
      made and cleared, the evidence chain verified, and every route injection exposed the protected side. */
  lemma ExecutesIff(lab: Lab, n: nat)
    ensures Executes(lab, n) <==>
            && lab.setUp && !lab.dirty && !lab.reachesAtBaseline && lab.chainOk
            && (forall k, i :: k in KINDS && 0 <= i < n ==> lab.script((k, i)).Attempt? && lab.script((k, i)).cleared)
            && forall i :: 0 <= i < n ==> lab.script((RouteToProtected, i)).Attempt? && lab.script((RouteToProtected, i)).reachable
  {
    AllClearedIff(lab.script, n);
  }

  lemma AllClearedIff(script: Script, n: nat)
    ensures AllCleared(Block(KINDS, n), script) <==>
            forall k, i :: k in KINDS && 0 <= i < n ==> script((k, i)).Attempt? && script((k, i)).cleared
  {
    PlanIs(n);
    var plan := Block(KINDS, n);
    if AllCleared(plan, script) {
      forall k, i | k in KINDS && 0 <= i < n
        ensures script((k, i)).Attempt? && script((k, i)).cleared
      {
        var j := Rank(k) * n + i;
        RankTimes(k, n);
        assert plan[j] == (k, i);
      }
    }
    if forall k, i :: k in KINDS && 0 <= i < n ==> script((k, i)).Attempt? && script((k, i)).cleared {
      forall j | 0 <= j < |plan|
        ensures script(plan[j]).Attempt? && script(plan[j]).cleared
      {
        assert plan[j].0 in KINDS && 0 <= plan[j].1 < n by {
          assert KINDS[0] == RouteToProtected && KINDS[1] == PublishedPort && KINDS[2] == CapabilityRegranted;
        }
        assert plan[j] == (plan[j].0, plan[j].1);
      }
    }
  }

  lemma RankTimes(k: DriftKind, n: nat)
    ensures Rank(k) * n == if k == RouteToProtected then 0 else if k == PublishedPort then n else 2 * n
  {
  }

  /** The lab's verdict: fail exactly when the run executed and some injection was not detected within two
      seconds, or none was made; never pass. */
  lemma LabVerdictTells(lab: Lab, n: nat, places: seq<Place>, commit: string, backend: string, round: int -> real)
    requires places <= Block(KINDS, n) && AllRecorded(places, lab.script)
    requires Executes(lab, n) ==> places == Block(KINDS, n)
    ensures var r := RecordOf(places, lab.script, Executes(lab, n), commit, backend, round);
            && r.executed == Some(Executes(lab, n)) && r.gate == Some(false) && r.class_ == VirtualLab
            && (r.verdict == Fail <==>
                  Executes(lab, n) && (n == 0 || exists j :: 0 <= j < |places| && LateOrMissing(lab.script(places[j]))))
            && (r.verdict == NotMeasurable <==> r.verdict != Fail)
            && (r.detection.value.verdict == Pass <==>
                  Executes(lab, n) && n > 0 && forall j :: 0 <= j < |places| ==> !LateOrMissing(lab.script(places[j])))
            && !HasBlockingGap(r.detection.value) && (forall g :: g in r.detection.value.gaps ==> !AboutEdge(g))
            && NamesTheEdgeGap(r.withdrawal.value.gaps)
  {
    hide Executes;
    hide Evaluated;
    hide Detections;
    hide Withdrawals;
    WithinBoundIff(places, lab.script, round);
    PlanIs(n);
    EdgeGapIff([Gap(true, Some(true), true)]);
    OverallTells([Fail, NotMeasurable]);
    OverallTells([Pass, NotMeasurable]);
    OverallTells([NotMeasurable, NotMeasurable]);
  }

  /** No record was read back, or not within two seconds of the injection. */
  predicate LateOrMissing(a: Attempt)
  {
    a.Raised? || a.read.None? || a.read.value.end < a.start || a.read.value.end - a.start > 2_000_000_000
  }
}
