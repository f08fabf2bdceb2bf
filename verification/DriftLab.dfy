/** The SO-08 lab's two threads (`scripts/dev/so08_drift_lab.py`): a detector that samples and observes
    in cycles, and a harness that injects, reads records back, reverts and waits, step by step. */
module DriftLab {
  import opened Events

  /** One value per declared drift kind. */
  datatype PerKind<T> = PerKind(route: T, port: T, cap: T)

  function Get<T>(p: PerKind<T>, k: DriftKind): T
  {
    match k
    case RouteToProtected => p.route
    case PublishedPort => p.port
    case CapabilityRegranted => p.cap
  }

  function Put<T>(p: PerKind<T>, k: DriftKind, v: T): PerKind<T>
  {
    match k
    case RouteToProtected => p.(route := v)
    case PublishedPort => p.(port := v)
    case CapabilityRegranted => p.(cap := v)
  }

  function KindAt(i: nat): DriftKind
    requires i < 3
  {
    if i == 0 then RouteToProtected else if i == 1 then PublishedPort else CapabilityRegranted
  }

  /** A kind's part of the snapshot under way, with the injection count when it was sampled. */
  datatype Sample = NotYet | Seen(findings: set<string>, stamp: nat)

  /** The detector: between cycles; in `lab.sample()`; in `observe`, at the i-th kind with the
      findings still to append; stopped by an error. */
  datatype Detector = Waiting | Sampling | Observing(i: nat, todo: set<string>) | Stopped

  /** The harness: about to take the log position; position taken; injection called; drift there;
      revert called; polling `_wait_cleared`, `stage` tests of the current round already passed. */
  datatype Harness =
    | Ready | Marked(kind: DriftKind) | Armed(kind: DriftKind) | Exposed(kind: DriftKind)
    | Reverted(kind: DriftKind) | Polling(kind: DriftKind, floor: nat, stage: nat) | Aborted

  /** A drift record; `stamp` is the injection count at the sample it came from. */
  datatype Record = Record(kind: DriftKind, finding: string, stamp: nat)

  datatype State = State(world: PerKind<set<string>>, snap: PerKind<Sample>, active: PerKind<set<string>>,
                         log: seq<Record>, det: Detector, cycles: nat,
                         harness: Harness, injections: nat, after: nat)

  /** How `_wait_cleared` waits: completed cycles beyond the current count, whether it samples the
      lab itself, and whether it looks at the observer's active set. The source uses 2, true, true. */
  datatype Wait = Wait(cycles: nat, checksSample: bool, checksActive: bool)

  datatype Step =
    | BeginCycle | SampleKind(k: DriftKind) | StartObserve | AppendOne(f: string) | FinishKind | EndCycle | DetectorError
    | ReadLastSeq(k: DriftKind) | CallInject | Manifest(fs: set<string>) | Revert | Fade(left: set<string>)
    | ReadFloor | CheckCycles | CheckSample | CheckActive | Abort

  predicate AllSeen(s: State)
  {
    s.snap.route.Seen? && s.snap.port.Seen? && s.snap.cap.Seen?
  }

  predicate Enabled(s: State, step: Step, w: Wait)
  {
    match step
    case BeginCycle => s.det.Waiting?
    case SampleKind(k) => s.det.Sampling? && Get(s.snap, k).NotYet?
    case StartObserve => s.det.Sampling? && AllSeen(s)
    case AppendOne(f) => s.det.Observing? && s.det.i < 3 && f in s.det.todo
    case FinishKind => s.det.Observing? && s.det.i < 3 && s.det.todo == {} && AllSeen(s)
    case EndCycle => s.det.Observing? && s.det.i == 3
    case DetectorError => !s.det.Stopped?
    case ReadLastSeq(_) => s.harness.Ready?
    case CallInject => s.harness.Marked?
    case Manifest(_) => s.harness.Armed? || s.harness.Exposed?
    case Revert => s.harness.Armed? || s.harness.Exposed?
    case Fade(left) => (s.harness.Reverted? || s.harness.Polling?) && left < Get(s.world, s.harness.kind)
    case ReadFloor => s.harness.Reverted?
    case CheckCycles => s.harness.Polling? && s.harness.stage == 0 && s.cycles >= s.harness.floor
    case CheckSample => s.harness.Polling? && s.harness.stage == 1
    case CheckActive => s.harness.Polling? && s.harness.stage == 2
    case Abort => true
  }

  const NONE_YET := PerKind(NotYet, NotYet, NotYet)

  /** The findings of the i-th kind that `observe` is about to append. */
  function Todo(s: State, i: nat): set<string>
  {
    if i >= 3 || Get(s.snap, KindAt(i)).NotYet? then {} else Get(s.snap, KindAt(i)).findings - Get(s.active, KindAt(i))
  }

  function Apply(s: State, step: Step, w: Wait): State
    requires Enabled(s, step, w)
  {
    match step
    case BeginCycle => s.(det := Sampling, snap := NONE_YET)
    case SampleKind(k) => s.(snap := Put(s.snap, k, Seen(Get(s.world, k), s.injections)))
    case StartObserve => s.(det := Observing(0, Todo(s, 0)))
    case AppendOne(f) =>
      var k := KindAt(s.det.i);
      var stamp := if Get(s.snap, k).Seen? then Get(s.snap, k).stamp else 0;
      s.(log := s.log + [Record(k, f, stamp)], det := Observing(s.det.i, s.det.todo - {f}))
    case FinishKind =>
      var k := KindAt(s.det.i);
      s.(active := Put(s.active, k, Get(s.snap, k).findings), det := Observing(s.det.i + 1, Todo(s, s.det.i + 1)))
    case EndCycle => s.(det := Waiting, snap := NONE_YET, cycles := s.cycles + 1)
    case DetectorError => s.(det := Stopped, snap := NONE_YET)
    case ReadLastSeq(k) => s.(harness := Marked(k), after := |s.log|)
    case CallInject => s.(harness := Armed(s.harness.kind), injections := s.injections + 1)
    case Manifest(fs) => s.(harness := Exposed(s.harness.kind), world := Put(s.world, s.harness.kind, fs))
    case Revert => s.(harness := Reverted(s.harness.kind))
    case Fade(left) => s.(world := Put(s.world, s.harness.kind, left))
    case ReadFloor => s.(harness := Polling(s.harness.kind, s.cycles + w.cycles, 0))
    case CheckCycles => s.(harness := s.harness.(stage := 1))
    case CheckSample =>
      s.(harness := s.harness.(stage := if w.checksSample && Get(s.world, s.harness.kind) != {} then 0 else 2))
    case CheckActive =>
      if w.checksActive && Get(s.active, s.harness.kind) != {} then s.(harness := s.harness.(stage := 0))
      else s.(harness := Ready)
    case Abort => s.(harness := Aborted)
  }

  /** A revert takes effect in its own time: afterwards findings only fade. The lab is isolated at
      baseline and the detector starts with nothing active. */
  const START := State(PerKind({}, {}, {}), NONE_YET, PerKind({}, {}, {}), [], Waiting, 0, Ready, 0, 0)

  ghost predicate Runs(s: State, steps: seq<Step>, t: State, w: Wait)
    decreases |steps|
  {
    if steps == [] then s == t
    else Enabled(s, steps[0], w) && Runs(Apply(s, steps[0], w), steps[1..], t, w)
  }

  ghost predicate Reachable(s: State, w: Wait)
  {
    exists steps :: Runs(START, steps, s, w)
  }

  /** One round of the wait with nothing in between: over exactly when the cycles have passed, the harness'
      own sample, if it takes one, shows nothing, and the active set, if it looks, is empty; nothing else
      changes, and a round that is not over is tried again. */
  lemma PollRoundIff(s: State, w: Wait)
    requires s.harness.Polling? && s.harness.stage == 0
    ensures Enabled(s, CheckCycles, w) <==> s.cycles >= s.harness.floor
    ensures s.cycles >= s.harness.floor ==>
              var looked := Apply(Apply(s, CheckCycles, w), CheckSample, w);
              && (w.checksSample && Get(s.world, s.harness.kind) != {} ==> looked == s)
              && (!(w.checksSample && Get(s.world, s.harness.kind) != {}) ==>
                    && Enabled(looked, CheckActive, w)
                    && Apply(looked, CheckActive, w) ==
                       if w.checksActive && Get(s.active, s.harness.kind) != {} then s else s.(harness := Ready))
  {
  }

  // ----- what the wait is for

  predicate Injecting(s: State)
  {
    s.harness.Armed? || s.harness.Exposed?
  }

  /** The finding has a record for the current injection, past the position taken before it. */
  ghost predicate Recorded(s: State, k: DriftKind, f: string)
  {
    exists j :: s.after <= j < |s.log| && s.log[j] == Record(k, f, s.injections)
  }

  /** `observe` is past the injected kind in a cycle that sampled the injected drift, yet some
      finding of that sample has no record. */
  ghost predicate Missed(s: State)
  {
    Injecting(s) && s.det.Observing? && s.det.i > Rank(s.harness.kind) &&
    var seen := Get(s.snap, s.harness.kind);
    seen.Seen? && seen.stamp == s.injections && exists f :: f in seen.findings && !Recorded(s, s.harness.kind, f)
  }

  /** A record the harness would take for this injection came from an earlier sample. */
  ghost predicate StaleRead(s: State)
  {
    Injecting(s) && exists j :: s.after <= j < |s.log| && s.log[j].kind == s.harness.kind && s.log[j].stamp != s.injections
  }

  ghost predicate Sound(s: State)
  {
    !Missed(s) && !StaleRead(s)
  }

  // ----- the invariant

  /** Nothing of kind `k` is in the cycle under way. */
  ghost predicate Flushed(s: State, k: DriftKind)
  {
    && (Get(s.snap, k).Seen? ==> Get(s.snap, k).findings == {})
    && (s.det.Observing? && s.det.i == Rank(k) ==> s.det.todo == {})
  }

  ghost predicate Quiet(s: State, k: DriftKind)
  {
    Get(s.world, k) == {} && Get(s.active, k) == {} && Flushed(s, k)
  }

  ghost predicate Shape(s: State)
  {
    && (s.det.Waiting? || s.det.Stopped? ==> s.snap == NONE_YET)
    && (s.det.Observing? ==>
          && s.det.i <= 3 && AllSeen(s)
          && (s.det.i == 3 ==> s.det.todo == {})
          && (s.det.i < 3 ==> s.det.todo <= Get(s.snap, KindAt(s.det.i)).findings))
  }

  ghost predicate InjectedSoFar(s: State, k: DriftKind)
  {
    && s.after <= |s.log|
    && (forall j :: s.after <= j < |s.log| ==> s.log[j].kind == k && s.log[j].stamp == s.injections)
    && (forall f :: f in Get(s.active, k) ==> Recorded(s, k, f))
    && (Get(s.snap, k).Seen? && Get(s.snap, k).findings != {} ==> Get(s.snap, k).stamp == s.injections)
    && (s.det.Observing? && s.det.i >= Rank(k) && Get(s.snap, k).Seen? ==>
          forall f :: f in Get(s.snap, k).findings && !(s.det.i == Rank(k) && f in s.det.todo) ==> Recorded(s, k, f))
  }

  /** What is left of the drift is in the cycle's sample of it, once there is one. */
  ghost predicate SampleCovers(s: State, k: DriftKind)
  {
    Get(s.snap, k).Seen? ==> Get(s.world, k) <= Get(s.snap, k).findings
  }

  /** What is left of the drift, and of what the cycle saw of it, is active already: nothing to append. */
  ghost predicate ActiveCovers(s: State, k: DriftKind)
  {
    && Get(s.world, k) <= Get(s.active, k)
    && (Get(s.snap, k).Seen? ==> Get(s.snap, k).findings <= Get(s.active, k))
    && (s.det.Observing? && s.det.i == Rank(k) ==> s.det.todo == {})
  }

  /** Cycles completed since the floor was read: the first of them may have sampled before the revert,
      every later one sampled after it. */
  ghost predicate Clearing(s: State, k: DriftKind, floor: nat, stage: nat, w: Wait)
  {
    && w.cycles <= floor <= s.cycles + w.cycles
    && (s.cycles + w.cycles > floor ==> SampleCovers(s, k))
    && (s.cycles + w.cycles == floor + 1 && s.det.Observing? && s.det.i > Rank(k) ==> ActiveCovers(s, k))
    && (s.cycles + w.cycles > floor + 1 ==> ActiveCovers(s, k))
    && (stage > 0 ==> s.cycles >= floor)
  }

  ghost predicate OthersQuiet(s: State, k: DriftKind)
  {
    forall k' :: k' != k ==> Quiet(s, k')
  }

  ghost predicate HarnessInv(s: State, w: Wait)
  {
    match s.harness
    case Ready => forall k :: Quiet(s, k)
    case Marked(_) => (forall k :: Quiet(s, k)) && s.after == |s.log|
    case Armed(k) => OthersQuiet(s, k) && InjectedSoFar(s, k)
    case Exposed(k) => OthersQuiet(s, k) && InjectedSoFar(s, k)
    case Reverted(k) => OthersQuiet(s, k)
    case Polling(k, floor, stage) => OthersQuiet(s, k) && Clearing(s, k, floor, stage, w)
    case Aborted => true
  }

  ghost predicate Inv(s: State, w: Wait)
  {
    Shape(s) && HarnessInv(s, w)
  }

  predicate WaitsEnough(w: Wait)
  {
    w.cycles >= 2 && w.checksActive
  }

  lemma GetPut<T>(p: PerKind<T>, k: DriftKind, v: T, other: DriftKind)
    ensures Get(Put(p, k, v), other) == if other == k then v else Get(p, other)
  {
  }

  lemma StepKeepsShape(s: State, step: Step, w: Wait)
    requires Shape(s) && Enabled(s, step, w)
    ensures Shape(Apply(s, step, w))
  {
    if step.SampleKind? { GetPut(s.snap, step.k, Seen(Get(s.world, step.k), s.injections), step.k); }
  }

  predicate Manifests(s: State, step: Step, k: DriftKind)
  {
    step.Manifest? && (s.harness.Armed? || s.harness.Exposed?) && s.harness.kind == k
  }

  lemma StepKeepsQuiet(s: State, step: Step, w: Wait, k: DriftKind)
    requires Shape(s) && Quiet(s, k) && Enabled(s, step, w) && !Manifests(s, step, k)
    ensures Quiet(Apply(s, step, w), k)
  {
    StepKeepsFlushed(s, step, w, k);
    match step
    case Manifest(fs) => GetPut(s.world, s.harness.kind, fs, k);
    case Fade(left) => GetPut(s.world, s.harness.kind, left, k);
    case FinishKind => GetPut(s.active, KindAt(s.det.i), Get(s.snap, KindAt(s.det.i)).findings, k);
    case _ =>
  }

  /** With the world clean of `k`, a cycle that holds nothing of `k` goes on holding nothing. */
  lemma StepKeepsFlushed(s: State, step: Step, w: Wait, k: DriftKind)
    requires Shape(s) && Flushed(s, k) && Get(s.world, k) == {} && Enabled(s, step, w) && !Manifests(s, step, k)
    ensures Flushed(Apply(s, step, w), k)
  {
    match step
    case SampleKind(k') => GetPut(s.snap, k', Seen(Get(s.world, k'), s.injections), k);
    case _ =>
  }

  lemma RecordedStays(s: State, t: State, k: DriftKind, f: string)
    requires Recorded(s, k, f) && s.log <= t.log && s.after == t.after && s.injections == t.injections
    ensures Recorded(t, k, f)
  {
    var j :| s.after <= j < |s.log| && s.log[j] == Record(k, f, s.injections);
    assert t.log[j] == s.log[j];
  }

  /** A detector step, or the drift showing, during an injection of `k`. */
  lemma StepKeepsInjected(s: State, step: Step, w: Wait, k: DriftKind)
    requires Shape(s) && Enabled(s, step, w) && InjectedSoFar(s, k)
    requires Injecting(s) && s.harness.kind == k && Injecting(Apply(s, step, w))
    requires forall k' :: k' != k ==> Quiet(s, k')
    ensures InjectedSoFar(Apply(s, step, w), k)
  {
    var t := Apply(s, step, w);
    forall f | Recorded(s, k, f)
      ensures Recorded(t, k, f)
    {
      RecordedStays(s, t, k, f);
    }
    match step
    case SampleKind(k') => GetPut(s.snap, k', Seen(Get(s.world, k'), s.injections), k);
    case AppendOne(f) =>
      var i := KindAt(s.det.i);
      assert i == k || Quiet(s, i);
      assert i == k;
      assert t.log[|s.log|] == Record(k, f, s.injections);
      assert Recorded(t, k, f);
    case FinishKind => GetPut(s.active, KindAt(s.det.i), Get(s.snap, KindAt(s.det.i)).findings, k);
    case _ =>
  }

  lemma StepKeepsCovers(s: State, step: Step, w: Wait, k: DriftKind)
    requires Shape(s) && Enabled(s, step, w) && s.harness.Polling? && s.harness.kind == k
    requires SampleCovers(s, k)
    ensures SampleCovers(Apply(s, step, w), k)
    ensures ActiveCovers(s, k) ==> ActiveCovers(Apply(s, step, w), k)
    ensures step.FinishKind? && KindAt(s.det.i) == k ==> ActiveCovers(Apply(s, step, w), k)
  {
    match step
    case SampleKind(k') => GetPut(s.snap, k', Seen(Get(s.world, k'), s.injections), k);
    case Fade(left) => GetPut(s.world, k, left, k);
    case FinishKind => GetPut(s.active, KindAt(s.det.i), Get(s.snap, KindAt(s.det.i)).findings, k);
    case _ =>
  }

  lemma StepKeepsClearing(s: State, step: Step, w: Wait, k: DriftKind)
    requires Shape(s) && Enabled(s, step, w) && s.harness.Polling? && s.harness.kind == k
    requires Clearing(s, k, s.harness.floor, s.harness.stage, w)
    requires Apply(s, step, w).harness.Polling?
    ensures var h := Apply(s, step, w).harness;
            h.kind == k && Clearing(Apply(s, step, w), k, h.floor, h.stage, w)
  {
    if s.cycles + w.cycles > s.harness.floor {
      StepKeepsCovers(s, step, w, k);
      hide ActiveCovers;
    } else if step.EndCycle? {
      assert Apply(s, step, w).snap == NONE_YET;
    }
  }

  lemma StepKeepsOthers(s: State, step: Step, w: Wait, k: DriftKind)
    requires Injecting(s) || s.harness.Reverted? || s.harness.Polling?
    requires Shape(s) && Enabled(s, step, w) && OthersQuiet(s, k) && s.harness.kind == k
    ensures OthersQuiet(Apply(s, step, w), k)
  {
    forall k' | k' != k
      ensures Quiet(Apply(s, step, w), k')
    {
      assert Quiet(s, k');
      StepKeepsQuiet(s, step, w, k');
    }
  }

  /** While an injection is under way or being undone. */
  lemma StepKeepsBusy(s: State, step: Step, w: Wait)
    requires Inv(s, w) && Enabled(s, step, w) && WaitsEnough(w)
    requires Injecting(s) || s.harness.Reverted? || s.harness.Polling?
    ensures HarnessInv(Apply(s, step, w), w)
  {
    hide Quiet;
    hide InjectedSoFar;
    hide Clearing;
    var t := Apply(s, step, w);
    var k := s.harness.kind;
    StepKeepsOthers(s, step, w, k);
    if Injecting(s) && Injecting(t) {
      StepKeepsInjected(s, step, w, k);
    } else if step.ReadFloor? {
      FloorIsClearing(s, w);
    } else if s.harness.Polling? && t.harness.Polling? {
      StepKeepsClearing(s, step, w, k);
    } else if step.CheckActive? && t.harness.Ready? {
      ClearedIsQuiet(s, w);
    }
  }

  lemma FloorIsClearing(s: State, w: Wait)
    requires s.harness.Reverted?
    ensures Clearing(s, s.harness.kind, s.cycles + w.cycles, 0, w)
    ensures Clearing(Apply(s, ReadFloor, w), s.harness.kind, s.cycles + w.cycles, 0, w)
  {
  }

  /** Two cycles on and with nothing active, nothing of the drift is left anywhere. */
  lemma ClearedIsQuiet(s: State, w: Wait)
    requires s.harness.Polling? && s.harness.stage == 2 && WaitsEnough(w) && Apply(s, CheckActive, w).harness.Ready?
    requires OthersQuiet(s, s.harness.kind) && Clearing(s, s.harness.kind, s.harness.floor, s.harness.stage, w)
    ensures forall k :: Quiet(Apply(s, CheckActive, w), k)
  {
    var t := Apply(s, CheckActive, w);
    forall k
      ensures Quiet(t, k)
    {
      assert k != s.harness.kind ==> Quiet(s, k);
    }
  }

  lemma StepKeepsIdle(s: State, step: Step, w: Wait)
    requires Inv(s, w) && Enabled(s, step, w)
    requires s.harness.Ready? || s.harness.Marked?
    ensures HarnessInv(Apply(s, step, w), w)
  {
    forall k
      ensures Quiet(Apply(s, step, w), k)
    {
      StepKeepsQuiet(s, step, w, k);
    }
    if step.AppendOne? {
      assert Quiet(s, KindAt(s.det.i));
    }
    if step.CallInject? {
      assert Quiet(s, s.harness.kind) && Quiet(Apply(s, step, w), s.harness.kind);
    }
  }

  lemma StepKeepsInv(s: State, step: Step, w: Wait)
    requires Inv(s, w) && Enabled(s, step, w) && WaitsEnough(w)
    ensures Inv(Apply(s, step, w), w)
  {
    hide Shape;
    hide Quiet;
    hide OthersQuiet;
    hide InjectedSoFar;
    hide Clearing;
    StepKeepsShape(s, step, w);
    if s.harness.Ready? || s.harness.Marked? {
      StepKeepsIdle(s, step, w);
    } else if !s.harness.Aborted? {
      StepKeepsBusy(s, step, w);
    }
  }

  lemma {:induction false} RunKeepsInv(s: State, steps: seq<Step>, t: State, w: Wait)
    requires Inv(s, w) && Runs(s, steps, t, w) && WaitsEnough(w)
    ensures Inv(t, w)
    decreases |steps|
  {
    if steps != [] {
      StepKeepsInv(s, steps[0], w);
      RunKeepsInv(Apply(s, steps[0], w), steps[1..], t, w);
    }
  }

  /** In every interleaving of the two threads, with a sufficient wait the first cycle that samples
      an injected drift records it, and every record past the position taken before an injection
      came from a sample taken after that injection. */
  lemma SufficientWaitIsSound(s: State, w: Wait)
    requires Reachable(s, w) && WaitsEnough(w)
    ensures Sound(s)
  {
    var steps :| Runs(START, steps, s, w);
    assert Inv(START, w);
    RunKeepsInv(START, steps, s, w);
  }

  // ----- shorter waits

  lemma {:induction false} RunsThenStep(s: State, steps: seq<Step>, t: State, step: Step, w: Wait)
    requires Runs(s, steps, t, w) && Enabled(t, step, w)
    ensures Runs(s, steps + [step], Apply(t, step, w), w)
    decreases |steps|
  {
    if steps == [] {
      assert [step][1..] == [];
      assert Runs(Apply(t, step, w), [], Apply(t, step, w), w);
    } else {
      RunsThenStep(Apply(s, steps[0], w), steps[1..], t, step, w);
      assert (steps + [step])[1..] == steps[1..] + [step];
    }
  }

  lemma Then(s: State, step: Step, w: Wait) returns (t: State)
    requires Reachable(s, w) && Enabled(s, step, w)
    ensures t == Apply(s, step, w) && Reachable(t, w)
  {
    t := Apply(s, step, w);
    var steps :| Runs(START, steps, s, w);
    RunsThenStep(START, steps, s, step, w);
  }

  /** The detector samples every kind, at once. */
  lemma Sampled(s: State, w: Wait) returns (t: State)
    requires Reachable(s, w) && s.det.Waiting?
    ensures Reachable(t, w)
    ensures var at := (fs: set<string>) => Seen(fs, s.injections);
            t == s.(det := Observing(0, s.world.route - s.active.route),
                    snap := PerKind(at(s.world.route), at(s.world.port), at(s.world.cap)))
  {
    t := Then(s, BeginCycle, w);
    t := Then(t, SampleKind(RouteToProtected), w);
    t := Then(t, SampleKind(PublishedPort), w);
    t := Then(t, SampleKind(CapabilityRegranted), w);
    t := Then(t, StartObserve, w);
  }

  /** The rest of a cycle that is past the route kind, nothing else being there. */
  lemma CycleEnds(s: State, w: Wait) returns (t: State)
    requires Reachable(s, w) && s.det == Observing(1, {}) && AllSeen(s)
    requires s.snap.port.findings == {} && s.snap.cap.findings == {} && s.active.port == {} && s.active.cap == {}
    ensures Reachable(t, w) && t == s.(det := Waiting, snap := NONE_YET, cycles := s.cycles + 1)
  {
    t := Then(s, FinishKind, w);
    t := Then(t, FinishKind, w);
    t := Then(t, EndCycle, w);
  }

  /** The harness injects a route drift. */
  lemma Injected(s: State, w: Wait, f: string) returns (t: State)
    requires Reachable(s, w) && s.harness.Ready?
    ensures Reachable(t, w)
    ensures t == s.(harness := Exposed(RouteToProtected), injections := s.injections + 1, after := |s.log|,
                    world := s.world.(route := {f}))
  {
    t := Then(s, ReadLastSeq(RouteToProtected), w);
    t := Then(t, CallInject, w);
    t := Then(t, Manifest({f}), w);
  }

  /** What is left of the drift goes, and the harness' remaining tests pass. */
  lemma Cleared(s: State, w: Wait) returns (t: State)
    requires Reachable(s, w) && s.harness.Polling? && s.harness.kind == RouteToProtected && s.harness.stage == 0
    requires s.cycles >= s.harness.floor && s.world.route != {} && (w.checksActive ==> s.active.route == {})
    ensures Reachable(t, w) && t == s.(world := s.world.(route := {}), harness := Ready)
  {
    t := Then(s, Fade({}), w);
    t := Then(t, CheckCycles, w);
    t := Then(t, CheckSample, w);
    t := Then(t, CheckActive, w);
  }

  lemma Undone(s: State, w: Wait) returns (t: State)
    requires Reachable(s, w) && s.harness == Exposed(RouteToProtected)
    ensures Reachable(t, w) && t == s.(harness := Polling(RouteToProtected, s.cycles + w.cycles, 0))
  {
    t := Then(s, Revert, w);
    t := Then(t, ReadFloor, w);
  }

  /** A later injection of the same drift is sampled with the stale finding still active. */
  lemma SampledWhileActive(s: State, w: Wait, f: string) returns (t: State)
    requires Reachable(s, w) && s.det.Waiting? && s.harness == Exposed(RouteToProtected)
    requires s.world == PerKind({f}, {}, {}) && s.active == PerKind({f}, {}, {}) && s.after == |s.log|
    ensures Reachable(t, w) && Missed(t)
  {
    t := Sampled(s, w);
    t := Then(t, FinishKind, w);
    assert f in t.snap.route.findings && !Recorded(t, RouteToProtected, f);
  }

  /** One drift is injected, sampled and recorded. */
  lemma Detected(w: Wait, f: string) returns (s: State)
    ensures Reachable(s, w)
    ensures s == State(PerKind({f}, {}, {}), PerKind(Seen({f}, 1), Seen({}, 1), Seen({}, 1)), PerKind({}, {}, {}),
                       [Record(RouteToProtected, f, 1)], Observing(0, {}), 0, Exposed(RouteToProtected), 1, 0)
  {
    assert Runs(START, [], START, w);
    s := Injected(START, w, f);
    s := Sampled(s, w);
    assert s.det.todo == {f};
    s := Then(s, AppendOne(f), w);
    assert s.det.todo == {};
    assert s.log == [Record(RouteToProtected, f, 1)];
  }

  /** Without a cycle the active set of the cycle that saw the drift is yet to come. */
  lemma NoCycleWaitMisses(w: Wait, f: string) returns (s: State)
    requires w.cycles == 0
    ensures Reachable(s, w) && Missed(s)
  {
    s := Detected(w, f);
    s := Undone(s, w);
    s := Cleared(s, w);
    s := Injected(s, w, f);
    s := Then(s, FinishKind, w);
    s := CycleEnds(s, w);
    s := SampledWhileActive(s, w, f);
  }

  /** With one cycle, the next may have sampled what was left of the drift; its record lands after the
      next injection and is taken for that one's. */
  lemma OneCycleWaitReadsStale(w: Wait, f: string) returns (s: State)
    requires w.cycles == 1
    ensures Reachable(s, w) && StaleRead(s)
  {
    assert Runs(START, [], START, w);
    s := Sampled(START, w);
    s := Injected(s, w, f);
    s := Undone(s, w);
    s := Then(s, FinishKind, w);
    s := CycleEnds(s, w);
    s := Sampled(s, w);
    assert s.det.todo == {f};
    s := Cleared(s, w);
    s := Then(s, ReadLastSeq(RouteToProtected), w);
    s := Then(s, CallInject, w);
    s := Then(s, AppendOne(f), w);
    assert s.log == [Record(RouteToProtected, f, 1)] && s.injections == 2;
    assert s.log[0].kind == s.harness.kind && s.log[0].stamp != s.injections;
  }

  /** A whole cycle that finds the drift unchanged. */
  lemma SameAgain(s: State, w: Wait, f: string) returns (t: State)
    requires Reachable(s, w) && s.det.Waiting? && s.snap == NONE_YET
    requires s.world == PerKind({f}, {}, {}) && s.active == PerKind({f}, {}, {})
    ensures Reachable(t, w) && t == s.(cycles := s.cycles + 1)
  {
    t := Sampled(s, w);
    assert t.det.todo == {};
    t := Then(t, FinishKind, w);
    t := CycleEnds(t, w);
  }

  lemma {:induction false} SameForCycles(s: State, w: Wait, f: string, n: nat) returns (t: State)
    requires Reachable(s, w) && s.det.Waiting? && s.snap == NONE_YET
    requires s.world == PerKind({f}, {}, {}) && s.active == PerKind({f}, {}, {})
    ensures Reachable(t, w) && t == s.(cycles := s.cycles + n)
    decreases n
  {
    t := s;
    if n > 0 {
      t := SameAgain(s, w, f);
      t := SameForCycles(t, w, f, n - 1);
    }
  }

  /** However many cycles it waits, without the look at the active set a drift that lasts until then is
      still active at the next injection. */
  lemma UncheckedWaitMisses(w: Wait, f: string) returns (s: State)
    requires !w.checksActive
    ensures Reachable(s, w) && Missed(s)
  {
    s := Detected(w, f);
    s := Then(s, FinishKind, w);
    s := CycleEnds(s, w);
    s := Undone(s, w);
    s := SameForCycles(s, w, f, w.cycles);
    s := Cleared(s, w);
    s := Injected(s, w, f);
    s := SampledWhileActive(s, w, f);
  }

  /** How the harness must wait, exactly: at least two completed cycles, and until the observer's active
      set is empty. The source's wait is the shortest that will do; its own look at the lab adds nothing. */
  lemma SoundIffWaitsEnough(w: Wait)
    ensures (forall s :: Reachable(s, w) ==> Sound(s)) <==> WaitsEnough(w)
  {
    if WaitsEnough(w) {
      forall s | Reachable(s, w)
        ensures Sound(s)
      {
        SufficientWaitIsSound(s, w);
      }
    } else if !w.checksActive {
      var s := UncheckedWaitMisses(w, "f");
    } else if w.cycles == 0 {
      var s := NoCycleWaitMisses(w, "f");
    } else {
      var s := OneCycleWaitReadsStale(w, "f");
    }
  }
}
