/** `so08_record.py`: the every-sample rule, the record validator, and what a valid record
    may claim. Elapsed times are nanoseconds; `round` stands for the source's rounding to ms. */
module So08Record {
  import opened Common
  import opened Events
  import opened DriftObserver

  const DETECTION_BOUND_MS := 2000
  const WITHDRAWAL_BOUND_MS := 5000
  const SAMPLES_PER_KIND := 20
  const VIRTUAL_LAB_NO_IDENTITY := "virtual-lab, no commissioned identity"
  const VIRTUAL_LAB_BACKEND := "linux-netns"
  const HIL_BACKEND := "field-segment"

  datatype Verdict = Pass | Fail | NotMeasurable | OtherVerdict
  datatype Class = VirtualLab | Hil | OtherClass

  /** `Junk` is an entry that is not a mapping; None a value that is absent, of another type, or, for
      the kind, not a declared one. */
  datatype Sample = Junk | Sample(id: Option<string>, kind: Option<DriftKind>, start: Option<int>, end: Option<int>,
                                  eventId: string, seqNo: Option<int>, edgeRef: Option<string>)

  datatype Gap = JunkGap | Gap(isEdgeGap: bool, blocks: Option<bool>, namesEdge412: bool)

  datatype Evaluation = Evaluation(count: nat, unfinished: nat, violations: nat,
                                   maxMs: Option<real>, minMs: Option<real>, holds: bool)

  datatype Rule = NoRule | Rule(boundMs: int, evaluated: Option<Evaluation>)

  datatype Part = Part(rule: Rule, samples: Option<seq<Sample>>, gaps: seq<Gap>, verdict: Verdict)

  datatype Owner = Owner(repositoryOk: bool, commit: Option<string>)
  datatype Config = Config(identity: Option<string>, backend: Option<string>, kindsOk: bool)
  datatype Edge = Edge(repositoryOk: bool, commit: Option<string>, pathRef: Option<string>)
  /** `fieldsPresent`: every required field, `edge` included, is truthy; `edge` is None when that
      value is not a mapping. */
  datatype Exercise = Exercise(fieldsPresent: bool, edge: Option<Edge>)

  datatype Record = Record(schemaOk: bool, objectiveOk: bool, class_: Class, verdict: Verdict, owner: Option<Owner>,
                           config: Option<Config>, executed: Option<bool>, detection: Option<Part>,
                           withdrawal: Option<Part>, gate: Option<bool>, exercise: Option<Exercise>)

  /** The regular expressions, and whether Edge's withdrawal path is declared (False in the source). */
  datatype Rules = Rules(identityOk: string -> bool, edgeRefOk: string -> bool, eventRefOk: string -> bool,
                         edgeDeclared: bool, round: int -> real)

  predicate IsCommit(c: string)
  {
    |c| == 40 && forall i :: 0 <= i < 40 ==> '0' <= c[i] <= '9' || 'a' <= c[i] <= 'f'
  }

  // ----- the every-sample rule

  predicate Finished(s: Sample)
  {
    s.Sample? && s.start.Some? && s.end.Some?
  }

  function Elapsed(s: Sample): int
    requires Finished(s)
  {
    s.end.value - s.start.value
  }

  predicate Within(s: Sample, boundMs: int)
  {
    Finished(s) && 0 <= Elapsed(s) <= boundMs * 1_000_000
  }

  ghost function CountUnfinished(ss: seq<Sample>): nat
  {
    if ss == [] then 0 else CountUnfinished(ss[..|ss| - 1]) + if Finished(ss[|ss| - 1]) then 0 else 1
  }

  ghost function CountViolations(ss: seq<Sample>, boundMs: int): nat
  {
    if ss == [] then 0 else CountViolations(ss[..|ss| - 1], boundMs) + if Within(ss[|ss| - 1], boundMs) then 0 else 1
  }

  /** The largest and smallest elapsed time of the finished samples. */
  ghost function Extremes(ss: seq<Sample>): Option<(int, int)>
  {
    if ss == [] then None
    else
      var before := Extremes(ss[..|ss| - 1]);
      var s := ss[|ss| - 1];
      if !Finished(s) then before
      else if before.None? then Some((Elapsed(s), Elapsed(s)))
      else Some((if Elapsed(s) > before.value.0 then Elapsed(s) else before.value.0,
                 if Elapsed(s) < before.value.1 then Elapsed(s) else before.value.1))
  }

  ghost function Evaluated(ss: seq<Sample>, boundMs: int, round: int -> real): Evaluation
  {
    var e := Extremes(ss);
    Evaluation(|ss|, CountUnfinished(ss), CountViolations(ss, boundMs),
               if e.None? then None else Some(round(e.value.0)), if e.None? then None else Some(round(e.value.1)),
               ss != [] && CountViolations(ss, boundMs) == 0)
  }

  method EvaluateSamples(ss: seq<Sample>, boundMs: int, round: int -> real) returns (r: Evaluation)
    ensures r == Evaluated(ss, boundMs, round)
  {
    var unfinished, violations := 0, 0;
    var largest, smallest: Option<int> := None, None;
    for k := 0 to |ss|
      invariant unfinished == CountUnfinished(ss[..k]) && violations == CountViolations(ss[..k], boundMs)
      invariant largest == (if Extremes(ss[..k]).None? then None else Some(Extremes(ss[..k]).value.0))
      invariant smallest == (if Extremes(ss[..k]).None? then None else Some(Extremes(ss[..k]).value.1))
    {
      assert ss[..k + 1][..k] == ss[..k];
      if !Finished(ss[k]) {
        unfinished := unfinished + 1;
        violations := violations + 1;
        continue;
      }
      var ns := Elapsed(ss[k]);
      largest := Some(if largest.Some? && largest.value >= ns then largest.value else ns);
      smallest := Some(if smallest.Some? && smallest.value <= ns then smallest.value else ns);
      if ns < 0 || ns > boundMs * 1_000_000 {
        violations := violations + 1;
      }
    }
    assert ss[..|ss|] == ss;
    return Evaluation(|ss|, unfinished, violations, if largest.None? then None else Some(round(largest.value)),
                      if smallest.None? then None else Some(round(smallest.value)), ss != [] && violations == 0);
  }

  /** The rule is never vacuous: it holds exactly of a non-empty set all of whose samples finished
      within the bound. */
  lemma {:induction false} HoldsIffEveryWithin(ss: seq<Sample>, boundMs: int, round: int -> real)
    ensures CountViolations(ss, boundMs) == 0 <==> forall i :: 0 <= i < |ss| ==> Within(ss[i], boundMs)
    ensures Evaluated(ss, boundMs, round).holds <==> ss != [] && forall i :: 0 <= i < |ss| ==> Within(ss[i], boundMs)
  {
    if ss != [] {
      var k := |ss| - 1;
      HoldsIffEveryWithin(ss[..k], boundMs, round);
      if forall i :: 0 <= i < |ss| ==> Within(ss[i], boundMs) {
        assert Within(ss[k], boundMs);
        assert forall i :: 0 <= i < k ==> ss[..k][i] == ss[i];
      }
      if CountViolations(ss, boundMs) == 0 {
        assert forall i :: 0 <= i < k ==> Within(ss[..k][i], boundMs) && ss[..k][i] == ss[i];
      }
    }
  }

  ghost function UnfinishedAt(ss: seq<Sample>): set<int>
  {
    set i | 0 <= i < |ss| && !Finished(ss[i])
  }

  ghost function ViolatingAt(ss: seq<Sample>, boundMs: int): set<int>
  {
    set i | 0 <= i < |ss| && !Within(ss[i], boundMs)
  }

  /** What the figures of an evaluation are: the numbers of samples that did not finish and that broke
      the bound, and the largest and smallest elapsed time of those that finished. */
  lemma {:induction false} FiguresAreOfTheSamples(ss: seq<Sample>, boundMs: int)
    ensures CountUnfinished(ss) == |UnfinishedAt(ss)| && CountViolations(ss, boundMs) == |ViolatingAt(ss, boundMs)|
    ensures Extremes(ss).None? <==> forall i :: 0 <= i < |ss| ==> !Finished(ss[i])
    ensures Extremes(ss).Some? ==>
              && (forall i :: 0 <= i < |ss| && Finished(ss[i]) ==> Extremes(ss).value.1 <= Elapsed(ss[i]) <= Extremes(ss).value.0)
              && (exists i :: 0 <= i < |ss| && Finished(ss[i]) && Elapsed(ss[i]) == Extremes(ss).value.0)
              && (exists i :: 0 <= i < |ss| && Finished(ss[i]) && Elapsed(ss[i]) == Extremes(ss).value.1)
  {
    hide Within;
    hide Elapsed;
    if ss == [] {
      assert UnfinishedAt(ss) == {} && ViolatingAt(ss, boundMs) == {};
    } else {
      var k := |ss| - 1;
      FiguresAreOfTheSamples(ss[..k], boundMs);
      FailingAppended(ss, boundMs);
    }
  }

  lemma FailingAppended(ss: seq<Sample>, boundMs: int)
    requires ss != []
    ensures var front, s := ss[..|ss| - 1], ss[|ss| - 1];
            && |UnfinishedAt(ss)| == |UnfinishedAt(front)| + (if Finished(s) then 0 else 1)
            && |ViolatingAt(ss, boundMs)| == |ViolatingAt(front, boundMs)| + (if Within(s, boundMs) then 0 else 1)
  {
    hide Within;
    hide Finished;
    var k := |ss| - 1;
    assert UnfinishedAt(ss) == UnfinishedAt(ss[..k]) + if Finished(ss[k]) then {} else {k};
    assert ViolatingAt(ss, boundMs) == ViolatingAt(ss[..k], boundMs) + if Within(ss[k], boundMs) then {} else {k};
  }

  // ----- sample lists

  function CountKind(ss: seq<Sample>, kind: DriftKind): nat
  {
    if ss == [] then 0
    else CountKind(ss[..|ss| - 1], kind) + if ss[|ss| - 1].Sample? && ss[|ss| - 1].kind == Some(kind) then 1 else 0
  }

  ghost predicate SampleShape(s: Sample)
  {
    s.Sample? && s.kind.Some? && s.id.Some? && s.id.value != ""
  }

  ghost predicate DistinctIds(ss: seq<Sample>)
  {
    forall i, j :: 0 <= i < j < |ss| && ss[i].Sample? && ss[j].Sample? ==> ss[i].id != ss[j].id
  }

  ghost predicate EnoughOfEach(ss: seq<Sample>)
  {
    forall k :: CountKind(ss, k) >= SAMPLES_PER_KIND
  }

  ghost predicate SamplesOk(ss: seq<Sample>, executed: bool)
  {
    (forall i :: 0 <= i < |ss| ==> SampleShape(ss[i])) && DistinctIds(ss) && (executed ==> EnoughOfEach(ss))
  }

  /** The loop of `_check_samples`: per-kind counts, the ids, and how many entries were malformed. */
  method TallySamples(ss: seq<Sample>) returns (counts: map<DriftKind, nat>, ids: seq<Option<string>>, bad: nat)
    ensures forall k :: k in counts && counts[k] == CountKind(ss, k)
    ensures bad == 0 <==> forall i :: 0 <= i < |ss| ==> ss[i].Sample? && ss[i].kind.Some?
    ensures bad == 0 ==> |ids| == |ss| && forall i :: 0 <= i < |ss| ==> ids[i] == ss[i].id
  {
    counts := map[RouteToProtected := 0, PublishedPort := 0, CapabilityRegranted := 0];
    ids, bad := [], 0;
    forall k: DriftKind
      ensures k in counts && counts[k] == CountKind(ss[..0], k)
    {
      assert k == RouteToProtected || k == PublishedPort || k == CapabilityRegranted;
    }
    for n := 0 to |ss|
      invariant forall k :: k in counts && counts[k] == CountKind(ss[..n], k)
      invariant bad == 0 <==> forall i :: 0 <= i < n ==> ss[i].Sample? && ss[i].kind.Some?
      invariant bad == 0 ==> |ids| == n && forall i :: 0 <= i < n ==> ids[i] == ss[i].id
    {
      assert ss[..n + 1][..n] == ss[..n];
      if ss[n].Junk? {
        bad := bad + 1;
        continue;
      }
      if ss[n].kind.None? {
        bad := bad + 1;
      } else {
        counts := counts[ss[n].kind.value := counts[ss[n].kind.value] + 1];
      }
      ids := ids + [ss[n].id];
    }
    assert ss[..|ss|] == ss;
  }

  /** `_check_samples`, as the number of problems it reports. */
  method CheckSamples(ss: seq<Sample>, executed: bool) returns (problems: nat)
    ensures problems == 0 <==> SamplesOk(ss, executed)
  {
    var counts, ids, bad := TallySamples(ss);
    problems := bad;
    if exists i :: 0 <= i < |ids| && (ids[i].None? || ids[i].value == "") {
      problems := problems + 1;
    }
    if exists i, j :: 0 <= i < j < |ids| && ids[i] == ids[j] {
      problems := problems + 1;
    }
    assert problems == 0 <==> SamplesOk(ss, false);
    if executed {
      for n := 0 to 3
        invariant problems == 0 <==> (SamplesOk(ss, false) && forall m :: 0 <= m < n ==> CountKind(ss, KINDS[m]) >= SAMPLES_PER_KIND)
      {
        if counts[KINDS[n]] < SAMPLES_PER_KIND {
          problems := problems + 1;
        }
      }
      if forall m :: 0 <= m < 3 ==> CountKind(ss, KINDS[m]) >= SAMPLES_PER_KIND {
        forall k: DriftKind
          ensures CountKind(ss, k) >= SAMPLES_PER_KIND
        {
          assert k == KINDS[0] || k == KINDS[1] || k == KINDS[2];
        }
      }
    }
  }

  // ----- the record

  /** `_edge_gap_problems`: the first Edge gap blocks and names Azazel-Edge#412. */
  function FirstEdgeGap(gaps: seq<Gap>): (r: Option<Gap>)
    ensures r.Some? ==> r.value in gaps && r.value.Gap? && r.value.isEdgeGap
    ensures r.None? ==> forall i :: 0 <= i < |gaps| && gaps[i].Gap? ==> !gaps[i].isEdgeGap
  {
    if gaps == [] then None
    else if gaps[0].Gap? && gaps[0].isEdgeGap then Some(gaps[0])
    else FirstEdgeGap(gaps[1..])
  }

  predicate EdgeGapOk(p: Part)
  {
    FirstEdgeGap(p.gaps).Some? && FirstEdgeGap(p.gaps).value.blocks == Some(true) && FirstEdgeGap(p.gaps).value.namesEdge412
  }

  predicate Blocked(p: Part)
  {
    exists i :: 0 <= i < |p.gaps| && p.gaps[i].Gap? && p.gaps[i].blocks == Some(true)
  }

  /** `overall_verdict`. */
  function Overall(parts: seq<Verdict>): Verdict
  {
    if parts == [] then NotMeasurable
    else if Fail in parts then Fail
    else if NotMeasurable in parts then NotMeasurable
    else Pass
  }

  function SamplesOf(p: Part): seq<Sample>
  {
    if p.samples.Some? then p.samples.value else []
  }

  /** The mappings among the samples: only those are evaluated. */
  function Mappings(ss: seq<Sample>): seq<Sample>
  {
    if ss == [] then [] else Mappings(ss[..|ss| - 1]) + if ss[|ss| - 1].Sample? then [ss[|ss| - 1]] else []
  }

  /** The verdict a part's samples and gaps give. */
  ghost function Derived(p: Part, executed: bool, boundMs: int, round: int -> real): Verdict
  {
    if !executed || Blocked(p) then NotMeasurable
    else if Evaluated(Mappings(SamplesOf(p)), boundMs, round).holds then Pass
    else Fail
  }

  ghost predicate PartOk(p: Part, executed: bool, boundMs: int, round: int -> real)
  {
    && p.rule.Rule? && p.rule.boundMs == boundMs && p.samples.Some?
    && SamplesOk(p.samples.value, executed)
    && (forall i :: 0 <= i < |p.gaps| ==> p.gaps[i].Gap? && p.gaps[i].blocks.Some?)
    && (executed ==> p.rule.evaluated == Some(Evaluated(Mappings(p.samples.value), boundMs, round)))
    && p.verdict == Derived(p, executed, boundMs, round)
  }

  method CheckPart(p: Part, executed: bool, boundMs: int, round: int -> real)
    returns (problems: nat, derived: Verdict)
    ensures problems == 0 <==> PartOk(p, executed, boundMs, round)
    ensures derived == Derived(p, executed, boundMs, round)
  {
    problems := if p.rule.Rule? && p.rule.boundMs == boundMs then 0 else 1;
    if p.samples.None? {
      problems := problems + 1;
    }
    var ss := SamplesOf(p);
    var shape := CheckSamples(ss, executed);
    problems := problems + shape;
    if exists i :: 0 <= i < |p.gaps| && (p.gaps[i].JunkGap? || p.gaps[i].blocks.None?) {
      problems := problems + 1;
    }
    var evaluated := EvaluateSamples(Mappings(ss), boundMs, round);
    derived := if !executed || Blocked(p) then NotMeasurable else if evaluated.holds then Pass else Fail;
    if executed && p.rule.Rule? && p.rule.evaluated != Some(evaluated) {
      problems := problems + 1;
    }
    if p.verdict != derived {
      problems := problems + 1;
    }
  }

  function Ids(ss: seq<Sample>): set<Option<string>>
  {
    set i | 0 <= i < |ss| && ss[i].Sample? :: ss[i].id
  }

  /** A finished detection sample points at the evidence record it read. */
  predicate NamesEvidence(s: Sample)
  {
    s.Sample? && s.end.Some? ==> s.eventId != "" && s.seqNo.Some?
  }

  /** A finished withdrawal sample names the Edge event that ended the exposure. */
  predicate NamesEdgeEvent(s: Sample, rules: Rules)
  {
    s.Sample? && s.end.Some? ==> s.edgeRef.Some? && rules.eventRefOk(s.edgeRef.value)
  }

  predicate EdgeOk(e: Edge, rules: Rules)
  {
    e.repositoryOk && e.commit.Some? && IsCommit(e.commit.value) && e.pathRef.Some? && rules.edgeRefOk(e.pathRef.value)
  }

  /** Edge's details are looked at only where they are a mapping. */
  predicate ExerciseOk(e: Exercise, rules: Rules)
  {
    e.fieldsPresent && (e.edge.Some? ==> EdgeOk(e.edge.value, rules))
  }

  predicate ClassOk(r: Record, withdrawal: seq<Sample>, rules: Rules)
  {
    var identity := if r.config.Some? then r.config.value.identity else None;
    var backend := if r.config.Some? then r.config.value.backend else None;
    match r.class_
    case VirtualLab =>
      r.gate == Some(false) && r.verdict != Pass && identity == Some(VIRTUAL_LAB_NO_IDENTITY)
      && backend == Some(VIRTUAL_LAB_BACKEND)
    case Hil =>
      && r.gate == Some(true) && identity.Some? && rules.identityOk(identity.value) && backend == Some(HIL_BACKEND)
      && r.exercise.Some? && ExerciseOk(r.exercise.value, rules)
      && forall i :: 0 <= i < |withdrawal| ==> NamesEdgeEvent(withdrawal[i], rules)
    case OtherClass => false
  }

  predicate HeaderOk(r: Record)
  {
    && r.schemaOk && r.objectiveOk && r.class_ != OtherClass && r.verdict != OtherVerdict
    && r.owner.Some? && r.owner.value.repositoryOk
    && r.owner.value.commit.Some? && IsCommit(r.owner.value.commit.value)
    && r.config.Some? && r.config.value.kindsOk && r.executed.Some?
  }

  /** A record `validate_record` finds nothing wrong with. */
  ghost predicate Valid(r: Record, rules: Rules)
  {
    && HeaderOk(r) && r.detection.Some? && r.withdrawal.Some?
    && var executed := r.executed.value;
    && var d := r.detection.value;
    && var w := r.withdrawal.value;
    && (!rules.edgeDeclared ==> EdgeGapOk(w))
    && PartOk(d, executed, DETECTION_BOUND_MS, rules.round) && PartOk(w, executed, WITHDRAWAL_BOUND_MS, rules.round)
    && (forall i :: 0 <= i < |SamplesOf(d)| ==> NamesEvidence(SamplesOf(d)[i]))
    && Ids(SamplesOf(d)) == Ids(SamplesOf(w))
    && r.verdict == Overall([Derived(d, executed, DETECTION_BOUND_MS, rules.round),
                             Derived(w, executed, WITHDRAWAL_BOUND_MS, rules.round)])
    && ClassOk(r, SamplesOf(w), rules)
  }

  /** `validate_record`, as the number of problems it reports: the verdicts are recomputed. */
  method ValidateRecord(r: Record, rules: Rules) returns (problems: nat)
    ensures problems == 0 <==> Valid(r, rules)
  {
    problems := if HeaderOk(r) then 0 else 1;
    if r.detection.None? || r.withdrawal.None? {
      problems := problems + 1;
      return;
    }
    var d, w := r.detection.value, r.withdrawal.value;
    if !rules.edgeDeclared && !EdgeGapOk(w) {
      problems := problems + 1;
    }
    var executed := r.executed == Some(true);
    var dProblems, dVerdict := CheckPart(d, executed, DETECTION_BOUND_MS, rules.round);
    var wProblems, wVerdict := CheckPart(w, executed, WITHDRAWAL_BOUND_MS, rules.round);
    problems := problems + dProblems + wProblems;
    var ds := SamplesOf(d);
    ghost var before := problems;
    for k := 0 to |ds|
      invariant problems == 0 <==> (before == 0 && forall i :: 0 <= i < k ==> NamesEvidence(ds[i]))
    {
      if !NamesEvidence(ds[k]) {
        problems := problems + 1;
      }
    }
    if Ids(ds) != Ids(SamplesOf(w)) {
      problems := problems + 1;
    }
    if r.verdict != Overall([dVerdict, wVerdict]) {
      problems := problems + 1;
    }
    if !ClassOk(r, SamplesOf(w), rules) {
      problems := problems + 1;
    }
  }

  // ----- what a valid record may claim

  /** No record passes while Edge's withdrawal path is undeclared. */
  lemma NothingPassesUndeclared(r: Record, rules: Rules)
    requires Valid(r, rules) && !rules.edgeDeclared
    ensures r.verdict != Pass && r.withdrawal.value.verdict == NotMeasurable
  {
    var w := r.withdrawal.value;
    var i :| 0 <= i < |w.gaps| && w.gaps[i] == FirstEdgeGap(w.gaps).value;
    assert Blocked(w);
  }

  ghost function IdsOfKind(ss: seq<Sample>, kind: DriftKind): set<Option<string>>
  {
    set i | 0 <= i < |ss| && ss[i].Sample? && ss[i].kind == Some(kind) :: ss[i].id
  }

  lemma IdsAppended(ss: seq<Sample>, s: Sample, kind: DriftKind)
    ensures IdsOfKind(ss + [s], kind) == IdsOfKind(ss, kind) + if s.Sample? && s.kind == Some(kind) then {s.id} else {}
  {
    var all := ss + [s];
    assert forall i :: 0 <= i < |ss| ==> all[i] == ss[i];
    assert all[|ss|] == s;
  }

  lemma NoIds(kind: DriftKind)
    ensures IdsOfKind([], kind) == {}
  {
  }

  lemma NewId(ss: seq<Sample>, kind: DriftKind)
    requires ss != [] && DistinctIds(ss)
    ensures ss[|ss| - 1].Sample? ==> ss[|ss| - 1].id !in IdsOfKind(ss[..|ss| - 1], kind)
  {
  }

  /** With distinct ids, counting samples counts ids. */
  lemma {:induction false} CountIsDistinctIds(ss: seq<Sample>, kind: DriftKind)
    requires DistinctIds(ss)
    ensures |IdsOfKind(ss, kind)| == CountKind(ss, kind)
  {
    hide IdsOfKind;
    if ss == [] {
      NoIds(kind);
    } else {
      var k := |ss| - 1;
      CountIsDistinctIds(ss[..k], kind);
      IdsAppended(ss[..k], ss[k], kind);
      NewId(ss, kind);
      assert ss == ss[..k] + [ss[k]];
    }
  }

  lemma {:induction false} AllMappings(ss: seq<Sample>)
    requires forall i :: 0 <= i < |ss| ==> ss[i].Sample?
    ensures Mappings(ss) == ss
  {
    if ss != [] {
      AllMappings(ss[..|ss| - 1]);
    }
  }

  /** One half of a passing record: every sample within the bound, 20 distinct ones of every kind. */
  ghost predicate HalfMeasured(p: Part, boundMs: int)
  {
    && (forall i :: 0 <= i < |SamplesOf(p)| ==> Within(SamplesOf(p)[i], boundMs))
    && (forall kind :: |IdsOfKind(SamplesOf(p), kind)| >= SAMPLES_PER_KIND)
  }

  lemma PassingPartIsMeasured(p: Part, executed: bool, boundMs: int, round: int -> real)
    requires PartOk(p, executed, boundMs, round) && p.verdict == Pass
    ensures executed && !Blocked(p) && HalfMeasured(p, boundMs)
  {
    var ss := SamplesOf(p);
    AllMappings(ss);
    HoldsIffEveryWithin(ss, boundMs, round);
    forall kind
      ensures |IdsOfKind(ss, kind)| >= SAMPLES_PER_KIND
    {
      CountIsDistinctIds(ss, kind);
    }
  }

  /** The validator never certifies more than the samples show: a valid pass is an executed field
      exercise of a commissioned identity, both halves measured on the same injections, with at
      least 20 distinct samples of every kind, every elapsed time within its bound, every
      detection pointing at its evidence record and every withdrawal at its Edge event. */
  lemma ValidPassIsMeasured(r: Record, rules: Rules)
    requires Valid(r, rules) && r.verdict == Pass
    ensures rules.edgeDeclared && r.class_ == Hil && r.executed == Some(true) && r.gate == Some(true)
    ensures rules.identityOk(r.config.value.identity.value)
    ensures HalfMeasured(r.detection.value, DETECTION_BOUND_MS) && HalfMeasured(r.withdrawal.value, WITHDRAWAL_BOUND_MS)
    ensures Ids(SamplesOf(r.detection.value)) == Ids(SamplesOf(r.withdrawal.value))
    ensures forall i :: 0 <= i < |SamplesOf(r.detection.value)| ==>
              SamplesOf(r.detection.value)[i].eventId != "" && SamplesOf(r.detection.value)[i].seqNo.Some?
    ensures forall i :: 0 <= i < |SamplesOf(r.withdrawal.value)| ==>
              SamplesOf(r.withdrawal.value)[i].edgeRef.Some? && rules.eventRefOk(SamplesOf(r.withdrawal.value)[i].edgeRef.value)
  {
    if !rules.edgeDeclared {
      NothingPassesUndeclared(r, rules);
    }
    var executed := r.executed.value;
    PassingPartIsMeasured(r.detection.value, executed, DETECTION_BOUND_MS, rules.round);
    PassingPartIsMeasured(r.withdrawal.value, executed, WITHDRAWAL_BOUND_MS, rules.round);
    var ds, ws := SamplesOf(r.detection.value), SamplesOf(r.withdrawal.value);
    assert forall i :: 0 <= i < |ds| ==> Within(ds[i], DETECTION_BOUND_MS) && NamesEvidence(ds[i]);
    assert forall i :: 0 <= i < |ws| ==> Within(ws[i], WITHDRAWAL_BOUND_MS) && NamesEdgeEvent(ws[i], rules);
  }

  /** What the validator says of the Edge details of a field exercise: they are right whenever they
      are a mapping, and putting any other non-empty value in their place is still valid. */
  lemma EdgeDetailsHoldIffMapping(r: Record, rules: Rules)
    requires Valid(r, rules) && r.class_ == Hil
    ensures r.exercise.value.edge.Some? ==> EdgeOk(r.exercise.value.edge.value, rules)
    ensures Valid(r.(exercise := Some(r.exercise.value.(edge := None))), rules)
    ensures forall e :: Valid(r.(exercise := Some(r.exercise.value.(edge := Some(e)))), rules) <==> EdgeOk(e, rules)
  {
  }

  const EDGE_GAP := Gap(true, Some(true), true)

  /** A field exercise that did not execute, and says of Edge nothing that can be read. */
  function UnreadEdge(identity: string, commit: string): Record
  {
    Record(true, true, Hil, NotMeasurable, Some(Owner(true, Some(commit))),
           Some(Config(Some(identity), Some(HIL_BACKEND), true)), Some(false),
           Some(Part(Rule(DETECTION_BOUND_MS, None), Some([]), [], NotMeasurable)),
           Some(Part(Rule(WITHDRAWAL_BOUND_MS, None), Some([]), [EDGE_GAP], NotMeasurable)),
           Some(true), Some(Exercise(true, None)))
  }

  /** For every commissioned identity and full commit there is a valid field exercise like that. */
  lemma UnreadEdgeIsValid(identity: string, commit: string, rules: Rules)
    requires rules.identityOk(identity) && IsCommit(commit)
    ensures Valid(UnreadEdge(identity, commit), rules)
    ensures UnreadEdge(identity, commit).class_ == Hil && UnreadEdge(identity, commit).exercise.value.edge.None?
  {
    hide IsCommit;
    var r := UnreadEdge(identity, commit);
    assert FirstEdgeGap([EDGE_GAP]) == Some(EDGE_GAP);
    assert Ids([]) == {};
  }
}
