/** The SO-08 virtual lab's run (`scripts/dev/so08_drift_lab.py`): the injection loop, what makes a run
    count as executed, and the record assembled from it. */
module So08Lab {
  import opened Common
  import opened Events
  import opened Text
  import opened DriftObserver
  import opened So08Record

  const ENVIRONMENT := "so08-virtual-lab"

  /** What `_wait_detected` read back: when, the record's number among drift records, its sequence number. */
  datatype Readback = Readback(end: int, number: nat, seqNo: int)

  /** One pass of the injection loop. `Raised`: the lab raised, or the detector stopped, before the
      samples were appended. */
  datatype Attempt = Raised | Attempt(start: int, read: Option<Readback>, reachable: bool, cleared: bool)

  type Place = (DriftKind, nat)
  type Script = Place -> Attempt

  /** Everything of a run the lab decides. */
  datatype Lab = Lab(setUp: bool, dirty: bool, reachesAtBaseline: bool, script: Script, chainOk: bool)

  function SampleId(p: Place): string
  {
    "so08-" + KindName(p.0) + ("-" + Padded(p.1, 2))
  }

  function DetectionSample(p: Place, a: Attempt): Sample
    requires a.Attempt?
  {
    Sample(Some(SampleId(p)), Some(p.0), Some(a.start),
           if a.read.Some? then Some(a.read.value.end) else None,
           if a.read.Some? then EventId(ENVIRONMENT, a.read.value.number) else "",
           if a.read.Some? then Some(a.read.value.seqNo) else None, None)
  }

  function WithdrawalSample(p: Place, a: Attempt): Sample
    requires a.Attempt?
  {
    Sample(Some(SampleId(p)), Some(p.0), Some(a.start), None, "", None, None)
  }

  // ----- the order of injections

  ghost function OfKind(k: DriftKind, n: nat): seq<Place>
  {
    if n == 0 then [] else OfKind(k, n - 1) + [(k, n - 1)]
  }

  ghost function Block(ks: seq<DriftKind>, n: nat): seq<Place>
  {
    if ks == [] then [] else Block(ks[..|ks| - 1], n) + OfKind(ks[|ks| - 1], n)
  }

  ghost predicate AllRecorded(ps: seq<Place>, script: Script)
  {
    forall j :: 0 <= j < |ps| ==> script(ps[j]).Attempt?
  }

  ghost predicate AllCleared(ps: seq<Place>, script: Script)
  {
    forall j :: 0 <= j < |ps| ==> script(ps[j]).Attempt? && script(ps[j]).cleared
  }

  ghost function Detections(ps: seq<Place>, script: Script): (r: seq<Sample>)
    requires AllRecorded(ps, script)
  {
    seq(|ps|, j requires 0 <= j < |ps| => DetectionSample(ps[j], script(ps[j])))
  }

  ghost function Withdrawals(ps: seq<Place>, script: Script): (r: seq<Sample>)
    requires AllRecorded(ps, script)
  {
    seq(|ps|, j requires 0 <= j < |ps| => WithdrawalSample(ps[j], script(ps[j])))
  }

  ghost predicate Mirrored(p: Place, a: Attempt, d: Sample, w: Sample, reached: bool)
  {
    a.Attempt? && d == DetectionSample(p, a) && w == WithdrawalSample(p, a) && reached == a.reachable
  }

  /** The lists hold what the passes at these places produced, in order. */
  ghost predicate Mirrors(ps: seq<Place>, script: Script, ds: seq<Sample>, ws: seq<Sample>, reached: seq<bool>)
  {
    && AllRecorded(ps, script) && |ds| == |ws| == |reached| == |ps|
    && forall j :: 0 <= j < |ps| ==> Mirrored(ps[j], script(ps[j]), ds[j], ws[j], reached[j])
  }

  lemma MirrorsConcat(ps: seq<Place>, qs: seq<Place>, script: Script, ds: seq<Sample>, ws: seq<Sample>, rs: seq<bool>,
                      ds': seq<Sample>, ws': seq<Sample>, rs': seq<bool>)
    requires Mirrors(ps, script, ds, ws, rs) && Mirrors(qs, script, ds', ws', rs')
    ensures Mirrors(ps + qs, script, ds + ds', ws + ws', rs + rs')
  {
    hide Mirrored;
    forall j | 0 <= j < |ps + qs|
      ensures script((ps + qs)[j]).Attempt?
      ensures Mirrored((ps + qs)[j], script((ps + qs)[j]), (ds + ds')[j], (ws + ws')[j], (rs + rs')[j])
    {
      if j >= |ps| {
        assert Mirrored(qs[j - |ps|], script(qs[j - |ps|]), ds'[j - |ps|], ws'[j - |ps|], rs'[j - |ps|]);
      } else {
        assert Mirrored(ps[j], script(ps[j]), ds[j], ws[j], rs[j]);
      }
    }
  }

  lemma ClearedPart(ps: seq<Place>, qs: seq<Place>, all: seq<Place>, script: Script)
    requires ps + qs <= all && AllCleared(all, script)
    ensures AllCleared(qs, script)
  {
    assert forall j :: 0 <= j < |qs| ==> all[|ps| + j] == qs[j];
  }

  /** The passes of one kind, up to the first that raises or does not clear. */
  method InjectKind(kind: DriftKind, n: nat, script: Script)
    returns (ds: seq<Sample>, ws: seq<Sample>, reached: seq<bool>, ok: bool, ghost places: seq<Place>)
    ensures places <= OfKind(kind, n) && Mirrors(places, script, ds, ws, reached)
    ensures ok <==> AllCleared(OfKind(kind, n), script)
    ensures ok ==> places == OfKind(kind, n)
  {
    hide DetectionSample;
    hide WithdrawalSample;
    ds, ws, reached, places := [], [], [], [];
    OfKindAt(kind, n);
    for i := 0 to n
      invariant places == OfKind(kind, n)[..i] && AllCleared(places, script)
      invariant Mirrors(places, script, ds, ws, reached)
    {
      assert OfKind(kind, n)[i] == (kind, i);
      var a := script((kind, i));
      if a.Raised? {
        return ds, ws, reached, false, places;
      }
      var d, w := DetectionSample((kind, i), a), WithdrawalSample((kind, i), a);
      OneMore(places, (kind, i), script, ds, ws, reached, d, w);
      ds, ws, reached, places := ds + [d], ws + [w], reached + [a.reachable], places + [(kind, i)];
      if !a.cleared {
        return ds, ws, reached, false, places;
      }
    }
    ok := true;
  }

  lemma OneMore(ps: seq<Place>, p: Place, script: Script, ds: seq<Sample>, ws: seq<Sample>, rs: seq<bool>, d: Sample, w: Sample)
    requires Mirrors(ps, script, ds, ws, rs) && script(p).Attempt?
    requires d == DetectionSample(p, script(p)) && w == WithdrawalSample(p, script(p))
    ensures Mirrors(ps + [p], script, ds + [d], ws + [w], rs + [script(p).reachable])
  {
    hide DetectionSample;
    hide WithdrawalSample;
    assert Mirrors([p], script, [d], [w], [script(p).reachable]);
    MirrorsConcat(ps, [p], script, ds, ws, rs, [d], [w], [script(p).reachable]);
  }

  /** The injection loop: kind by kind, up to the first pass that raises or does not clear. */
  method InjectAll(n: nat, script: Script)
    returns (detection: seq<Sample>, withdrawal: seq<Sample>, reached: seq<bool>, ok: bool, ghost places: seq<Place>)
    ensures places <= Block(KINDS, n) && Mirrors(places, script, detection, withdrawal, reached)
    ensures ok <==> AllCleared(Block(KINDS, n), script)
    ensures ok ==> places == Block(KINDS, n)
  {
    hide DetectionSample;
    hide WithdrawalSample;
    hide Mirrored;
    detection, withdrawal, reached, places := [], [], [], [];
    for k := 0 to |KINDS|
      invariant places == Block(KINDS[..k], n) && AllCleared(places, script)
      invariant Mirrors(places, script, detection, withdrawal, reached)
    {
      BlockStep(KINDS, k, n);
      var ds, ws, rs, cleared, ps := InjectKind(KINDS[k], n, script);
      MirrorsConcat(places, ps, script, detection, withdrawal, reached, ds, ws, rs);
      if !cleared && AllCleared(Block(KINDS, n), script) {
        ClearedPart(places, OfKind(KINDS[k], n), Block(KINDS, n), script);
      }
      ghost var was := places;
      detection, withdrawal, reached, places := detection + ds, withdrawal + ws, reached + rs, places + ps;
      if !cleared {
        assert was + ps <= was + OfKind(KINDS[k], n);
        return detection, withdrawal, reached, false, places;
      }
    }
    assert KINDS[..|KINDS|] == KINDS;
    ok := true;
  }

  lemma BlockStep(ks: seq<DriftKind>, k: nat, n: nat)
    requires k < |ks|
    ensures Block(ks[..k + 1], n) == Block(ks[..k], n) + OfKind(ks[k], n)
    ensures Block(ks[..k + 1], n) <= Block(ks, n)
  {
    assert ks[..k + 1][..k] == ks[..k];
    BlockPrefix(ks, k + 1, n);
  }

  lemma {:induction false} BlockPrefix(ks: seq<DriftKind>, k: nat, n: nat)
    requires k <= |ks|
    ensures Block(ks[..k], n) <= Block(ks, n)
    decreases |ks|
  {
    if k < |ks| {
      var front := ks[..|ks| - 1];
      BlockPrefix(front, k, n);
      assert front[..k] == ks[..k];
    } else {
      assert ks[..k] == ks;
    }
  }

  lemma {:induction false} OfKindPrefix(k: DriftKind, i: nat, n: nat)
    requires i <= n
    ensures OfKind(k, i) <= OfKind(k, n)
  {
    if i < n {
      OfKindPrefix(k, i, n - 1);
    }
  }

  lemma {:induction false} OfKindAt(k: DriftKind, n: nat)
    ensures |OfKind(k, n)| == n && forall j :: 0 <= j < n ==> OfKind(k, n)[j] == (k, j)
  {
    if n > 0 {
      OfKindAt(k, n - 1);
    }
  }

  lemma PlanIsThreeKinds(n: nat)
    ensures Block(KINDS, n) == OfKind(RouteToProtected, n) + OfKind(PublishedPort, n) + OfKind(CapabilityRegranted, n)
  {
    hide OfKind;
    assert KINDS[..0] == [] && KINDS[..3] == KINDS;
    BlockStep(KINDS, 0, n);
    BlockStep(KINDS, 1, n);
    BlockStep(KINDS, 2, n);
    assert Block([], n) == [];
  }

  /** Every place of the plan, once, in order. */
  lemma PlanIs(n: nat)
    ensures |Block(KINDS, n)| == 3 * n
    ensures forall j :: 0 <= j < n ==> Block(KINDS, n)[j] == (RouteToProtected, j)
    ensures forall j :: n <= j < 2 * n ==> Block(KINDS, n)[j] == (PublishedPort, j - n)
    ensures forall j :: 2 * n <= j < 3 * n ==> Block(KINDS, n)[j] == (CapabilityRegranted, j - 2 * n)
  {
    hide OfKind;
    hide Block;
    PlanIsThreeKinds(n);
    OfKindAt(RouteToProtected, n);
    OfKindAt(PublishedPort, n);
    OfKindAt(CapabilityRegranted, n);
  }

  lemma SampleIdInjective(p: Place, q: Place)
    requires SampleId(p) == SampleId(q)
    ensures p == q
  {
    assert SampleId(p)[5] == KindName(p.0)[0] && SampleId(q)[5] == KindName(q.0)[0];
    var front := "so08-" + KindName(p.0) + "-";
    assert SampleId(p) == front + Padded(p.1, 2) && SampleId(q) == front + Padded(q.1, 2);
    assert SampleId(p)[|front|..] == Padded(p.1, 2);
    PaddedInjective(p.1, q.1, 2);
  }

  // ----- the record

  /** The run: samples and whether it executed, from the prerequisites on. */
  ghost predicate Executes(lab: Lab, n: nat)
  {
    && lab.setUp && !lab.dirty && !lab.reachesAtBaseline
    && AllCleared(Block(KINDS, n), lab.script)
    && lab.chainOk
    && RouteExposed(n, lab.script)
  }

  function Assemble(detection: seq<Sample>, withdrawal: seq<Sample>, dEval: Evaluation, wEval: Evaluation,
                    executed: bool, commit: string, backend: string): Record
  {
    var verdict := if !executed then NotMeasurable else if dEval.holds then Pass else Fail;
    Record(true, true, VirtualLab, Overall([verdict, NotMeasurable]), Some(Owner(true, Some(commit))),
           Some(Config(Some(VIRTUAL_LAB_NO_IDENTITY), Some(backend), true)), Some(executed),
           Some(Part(Rule(DETECTION_BOUND_MS, Some(dEval)), Some(detection), [Gap(false, Some(false), false)], verdict)),
           Some(Part(Rule(WITHDRAWAL_BOUND_MS, Some(wEval)), Some(withdrawal), [Gap(true, Some(true), true)], NotMeasurable)),
           Some(false), None)
  }

  datatype Exit = DetectionWithinBound | DetectionRegression | NotExecuted

  /** The record of a run whose samples are those of `places`. */
  ghost function RecordOf(places: seq<Place>, script: Script, executed: bool, commit: string, backend: string,
                          round: int -> real): Record
    requires AllRecorded(places, script)
  {
    var ds, ws := Detections(places, script), Withdrawals(places, script);
    Assemble(ds, ws, Evaluated(ds, DETECTION_BOUND_MS, round), Evaluated(ws, WITHDRAWAL_BOUND_MS, round),
             executed, commit, backend)
  }

  /** Whether the decoy reached the protected side after every route injection. */
  method ExposedEveryTime(detection: seq<Sample>, reached: seq<bool>) returns (r: bool)
    requires |detection| == |reached| && forall j :: 0 <= j < |detection| ==> detection[j].Sample?
    ensures r <==> forall j :: 0 <= j < |detection| && detection[j].kind == Some(RouteToProtected) ==> reached[j]
  {
    r := true;
    for j := 0 to |detection|
      invariant r <==> forall i :: 0 <= i < j && detection[i].kind == Some(RouteToProtected) ==> reached[i]
    {
      if detection[j].kind == Some(RouteToProtected) && !reached[j] {
        r := false;
      }
    }
  }

  predicate DetectedInTime(a: Attempt)
  {
    a.Attempt? && a.read.Some? && 0 <= a.read.value.end - a.start <= DETECTION_BOUND_MS * 1_000_000
  }

  ghost predicate RouteExposed(n: nat, script: Script)
  {
    forall i :: 0 <= i < n ==> script((RouteToProtected, i)).Attempt? && script((RouteToProtected, i)).reachable
  }

  lemma ExposedIff(n: nat, script: Script, ds: seq<Sample>, ws: seq<Sample>, reached: seq<bool>)
    requires Mirrors(Block(KINDS, n), script, ds, ws, reached)
    ensures RouteExposed(n, script) <==> forall j :: 0 <= j < |ds| && ds[j].kind == Some(RouteToProtected) ==> reached[j]
  {
    PlanIs(n);
    var plan := Block(KINDS, n);
    assert forall j :: 0 <= j < |ds| ==> ds[j].kind == Some(plan[j].0) && (ds[j].kind == Some(RouteToProtected) <==> j < n);
    assert forall j :: 0 <= j < n ==> reached[j] == script(plan[j]).reachable && plan[j] == (RouteToProtected, j);
  }

  lemma MirrorsAreLists(ps: seq<Place>, script: Script, ds: seq<Sample>, ws: seq<Sample>, reached: seq<bool>)
    requires Mirrors(ps, script, ds, ws, reached)
    ensures ds == Detections(ps, script) && ws == Withdrawals(ps, script)
  {
  }

  /** `run_lab`. */
  method RunLab(lab: Lab, n: nat, commit: string, backend: string, round: int -> real)
    returns (record: Record, exit: Exit, ghost places: seq<Place>)
    ensures places <= Block(KINDS, n) && AllRecorded(places, lab.script)
    ensures Executes(lab, n) ==> places == Block(KINDS, n)
    ensures record == RecordOf(places, lab.script, Executes(lab, n), commit, backend, round)
    ensures exit.NotExecuted? <==> !Executes(lab, n)
    ensures exit.DetectionWithinBound? <==>
            Executes(lab, n) && n > 0 && forall j :: 0 <= j < |places| ==> DetectedInTime(lab.script(places[j]))
  {
    hide SampleId;
    hide EventId;
    hide Block;
    var detection, withdrawal, reached: seq<bool> := [], [], [];
    var executed := false;
    places := [];
    if lab.setUp && !lab.dirty && !lab.reachesAtBaseline {
      detection, withdrawal, reached, executed, places := InjectAll(n, lab.script);
      if executed {
        ExposedIff(n, lab.script, detection, withdrawal, reached);
        var exposed := ExposedEveryTime(detection, reached);
        executed := lab.chainOk && exposed;
      }
    }
    assert executed <==> Executes(lab, n);
    MirrorsAreLists(places, lab.script, detection, withdrawal, reached);
    var dEval := EvaluateSamples(detection, DETECTION_BOUND_MS, round);
    var wEval := EvaluateSamples(withdrawal, WITHDRAWAL_BOUND_MS, round);
    record := Assemble(detection, withdrawal, dEval, wEval, executed, commit, backend);
    exit := if !executed then NotExecuted else if dEval.holds then DetectionWithinBound else DetectionRegression;
    WithinBoundIff(places, lab.script, round);
    PlanIs(n);
  }

  lemma DetectedIffWithin(p: Place, a: Attempt)
    requires a.Attempt?
    ensures Within(DetectionSample(p, a), DETECTION_BOUND_MS) <==> DetectedInTime(a)
  {
  }

  lemma WithinBoundIff(ps: seq<Place>, script: Script, round: int -> real)
    requires AllRecorded(ps, script)
    ensures Evaluated(Detections(ps, script), DETECTION_BOUND_MS, round).holds <==>
            ps != [] && forall j :: 0 <= j < |ps| ==> DetectedInTime(script(ps[j]))
  {
    hide Within;
    hide DetectedInTime;
    hide DetectionSample;
    hide Evaluated;
    var ds := Detections(ps, script);
    HoldsIffEveryWithin(ds, DETECTION_BOUND_MS, round);
    forall j | 0 <= j < |ps|
      ensures Within(ds[j], DETECTION_BOUND_MS) <==> DetectedInTime(script(ps[j]))
    {
      DetectedIffWithin(ps[j], script(ps[j]));
    }
  }

  // ----- the record is one the validator accepts

  lemma {:induction false} CountConcat(a: seq<Sample>, b: seq<Sample>, k: DriftKind)
    ensures CountKind(a + b, k) == CountKind(a, k) + CountKind(b, k)
  {
    if b == [] {
      assert a + b == a;
    } else {
      assert (a + b)[..|a + b| - 1] == a + b[..|b| - 1];
      CountConcat(a, b[..|b| - 1], k);
    }
  }

  lemma {:induction false} CountUniform(ss: seq<Sample>, all: DriftKind, k: DriftKind)
    requires forall j :: 0 <= j < |ss| ==> ss[j].Sample? && ss[j].kind == Some(all)
    ensures CountKind(ss, k) == if k == all then |ss| else 0
  {
    if ss != [] {
      CountUniform(ss[..|ss| - 1], all, k);
    }
  }

  lemma PlanCounts(ss: seq<Sample>, n: nat, k: DriftKind)
    requires |ss| == 3 * n && forall j :: 0 <= j < |ss| ==> ss[j].Sample?
    requires forall j :: 0 <= j < n ==> ss[j].kind == Some(RouteToProtected)
    requires forall j :: n <= j < 2 * n ==> ss[j].kind == Some(PublishedPort)
    requires forall j :: 2 * n <= j < 3 * n ==> ss[j].kind == Some(CapabilityRegranted)
    ensures CountKind(ss, k) == n
  {
    hide CountKind;
    var a, b, c := ss[..n], ss[n..2 * n], ss[2 * n..];
    CountUniform(a, RouteToProtected, k);
    CountUniform(b, PublishedPort, k);
    CountUniform(c, CapabilityRegranted, k);
    CountConcat(a, b, k);
    CountConcat(a + b, c, k);
    assert ss == a + b + c;
  }

  /** A sample list with the ids and kinds of an initial part of the plan. */
  ghost predicate Follows(ss: seq<Sample>, ps: seq<Place>)
  {
    |ss| == |ps| && forall j :: 0 <= j < |ps| ==> ss[j].Sample? && ss[j].id == Some(SampleId(ps[j])) && ss[j].kind == Some(ps[j].0)
  }

  lemma PlanOrder(ps: seq<Place>, n: nat)
    requires ps <= Block(KINDS, n)
    ensures forall i, j :: 0 <= i < j < |ps| ==> ps[i] != ps[j]
  {
    PlanIs(n);
    assert forall i :: 0 <= i < |ps| ==> ps[i] == Block(KINDS, n)[i];
  }

  lemma FollowingSamplesOk(ss: seq<Sample>, ps: seq<Place>, n: nat, executed: bool)
    requires ps <= Block(KINDS, n) && Follows(ss, ps) && (executed ==> ps == Block(KINDS, n))
    ensures SamplesOk(ss, executed) <==> (executed ==> n >= SAMPLES_PER_KIND)
  {
    forall j | 0 <= j < |ss|
      ensures SampleShape(ss[j])
    {
      assert ss[j].id == Some(SampleId(ps[j]));
    }
    PlanOrder(ps, n);
    forall i, j | 0 <= i < j < |ss|
      ensures ss[i].id != ss[j].id
    {
      if SampleId(ps[i]) == SampleId(ps[j]) {
        SampleIdInjective(ps[i], ps[j]);
      }
    }
    if executed {
      PlanIs(n);
      forall k
        ensures CountKind(ss, k) == n
      {
        assert forall j :: 0 <= j < 3 * n ==> ss[j].kind == Some(Block(KINDS, n)[j].0);
        PlanCounts(ss, n, k);
      }
      assert EnoughOfEach(ss) <==> n >= SAMPLES_PER_KIND by {
        if EnoughOfEach(ss) {
          assert CountKind(ss, RouteToProtected) >= SAMPLES_PER_KIND;
        }
      }
    }
  }

  lemma DetectionsFollow(ps: seq<Place>, script: Script)
    requires AllRecorded(ps, script)
    ensures Follows(Detections(ps, script), ps)
    ensures forall j :: 0 <= j < |ps| ==> NamesEvidence(Detections(ps, script)[j])
  {
    hide SampleId;
    assert forall n :: EventId(ENVIRONMENT, n) != "";
    assert forall j :: 0 <= j < |ps| ==> Detections(ps, script)[j] == DetectionSample(ps[j], script(ps[j]));
  }

  lemma WithdrawalsFollow(ps: seq<Place>, script: Script)
    requires AllRecorded(ps, script)
    ensures Follows(Withdrawals(ps, script), ps)
  {
    hide SampleId;
    assert forall j :: 0 <= j < |ps| ==> Withdrawals(ps, script)[j] == WithdrawalSample(ps[j], script(ps[j]));
  }

  lemma RunFollows(ps: seq<Place>, script: Script)
    requires AllRecorded(ps, script)
    ensures var ds, ws := Detections(ps, script), Withdrawals(ps, script);
            && Follows(ds, ps) && Follows(ws, ps) && Mappings(ds) == ds && Mappings(ws) == ws && Ids(ds) == Ids(ws)
            && forall j :: 0 <= j < |ds| ==> NamesEvidence(ds[j])
  {
    hide SampleId;
    var ds, ws := Detections(ps, script), Withdrawals(ps, script);
    DetectionsFollow(ps, script);
    WithdrawalsFollow(ps, script);
    AllMappings(ds);
    AllMappings(ws);
    assert Ids(ds) == Ids(ws) by {
      assert forall j :: 0 <= j < |ps| ==> ds[j].id == ws[j].id;
    }
  }

  /** Whatever the lab did, the record of its run is valid exactly when the commit is a full one, the
      backend is the namespace lab, and, if it executed, every kind was injected at least 20 times:
      whether or not Edge's withdrawal path is declared. */
  lemma LabRecordIsValidIff(lab: Lab, n: nat, places: seq<Place>, commit: string, backend: string, rules: Rules)
    requires places <= Block(KINDS, n) && AllRecorded(places, lab.script)
    requires Executes(lab, n) ==> places == Block(KINDS, n)
    ensures var r := RecordOf(places, lab.script, Executes(lab, n), commit, backend, rules.round);
            && r.verdict != Pass
            && (Valid(r, rules) <==>
                  IsCommit(commit) && backend == VIRTUAL_LAB_BACKEND && (Executes(lab, n) ==> n >= SAMPLES_PER_KIND))
  {
    hide Block;
    hide Detections;
    hide Withdrawals;
    hide Evaluated;
    hide SampleId;
    hide Follows;
    hide SamplesOk;
    hide NamesEvidence;
    hide IsCommit;
    hide Executes;
    var executed := Executes(lab, n);
    var ds, ws := Detections(places, lab.script), Withdrawals(places, lab.script);
    RunFollows(places, lab.script);
    FollowingSamplesOk(ds, places, n, executed);
    FollowingSamplesOk(ws, places, n, executed);
    var r := RecordOf(places, lab.script, executed, commit, backend, rules.round);
    assert Blocked(r.withdrawal.value) by { assert r.withdrawal.value.gaps[0].blocks == Some(true); }
    assert !Blocked(r.detection.value);
  }
}
