/** `consume_decision` for one decision id (`runtime/state.py`): any number of concurrent calls,
    failing writes that unlink the marker, killed processes and power crashes.

    Different ids use different marker files, so one id is the whole story. A directory entry has
    a live value, which programs see, and a durable one, which a crash falls back to. */
module DecisionLedger {
  import opened Common

  /** Where one call stands. `Created` holds the new empty marker, `Written` has fsynced its data,
      `Failing` is in the except block; the rest have ended. */
  datatype Pc = Created | Written | Failing | Won | Lost | Raised | Dead

  datatype State = State(live: bool, durable: bool, calls: map<nat, Pc>)

  datatype Step =
    | Open(call: nat)                        // os.open with O_CREAT | O_EXCL
    | OpenError(call: nat)                   // any other OSError
    | WriteAndSync(call: nat)                // write, flush, fsync of the marker's data
    | WriteError(call: nat)
    | SyncDirAndReturn(call: nat, works: bool) // _fsync_dir swallows its own failure; return True
    | UnlinkAndRaise(call: nat, works: bool)
    | Kill(call: nat)
    | Writeback                              // the kernel persists the directory on its own
    | Crash                                  // power loss: only durable entries remain

  predicate InFlight(pc: Pc)
  {
    pc.Created? || pc.Written? || pc.Failing?
  }

  predicate At(s: State, call: nat, pc: Pc)
  {
    call in s.calls && s.calls[call] == pc
  }

  predicate Enabled(s: State, step: Step)
  {
    match step
    case Open(c) => c !in s.calls
    case OpenError(c) => c !in s.calls
    case WriteAndSync(c) => At(s, c, Created)
    case WriteError(c) => At(s, c, Created)
    case SyncDirAndReturn(c, _) => At(s, c, Written)
    case UnlinkAndRaise(c, _) => At(s, c, Failing)
    case Kill(c) => c in s.calls && InFlight(s.calls[c])
    case Writeback => true
    case Crash => true
  }

  function Apply(s: State, step: Step): State
    requires Enabled(s, step)
  {
    match step
    case Open(c) => if s.live then s.(calls := s.calls[c := Lost]) else s.(live := true, calls := s.calls[c := Created])
    case OpenError(c) => s.(calls := s.calls[c := Raised])
    case WriteAndSync(c) => s.(calls := s.calls[c := Written])
    case WriteError(c) => s.(calls := s.calls[c := Failing])
    case SyncDirAndReturn(c, works) => s.(durable := if works then s.live else s.durable, calls := s.calls[c := Won])
    case UnlinkAndRaise(c, works) => s.(live := s.live && !works, calls := s.calls[c := Raised])
    case Kill(c) => s.(calls := s.calls[c := Dead])
    case Writeback => s.(durable := s.live)
    case Crash => State(s.durable, s.durable, map c | c in s.calls :: if InFlight(s.calls[c]) then Dead else s.calls[c])
  }

  const START := State(false, false, map[])

  /** `t` is what some run of `steps` from `s` ends in. */
  ghost predicate Runs(s: State, steps: seq<Step>, t: State)
    decreases |steps|
  {
    if steps == [] then s == t
    else Enabled(s, steps[0]) && Runs(Apply(s, steps[0]), steps[1..], t)
  }

  ghost predicate DirectorySyncWorks(steps: seq<Step>)
  {
    forall i :: 0 <= i < |steps| && steps[i].SyncDirAndReturn? ==> steps[i].works
  }

  /** At most one call is in flight past `open`, and then the marker is its own. */
  ghost predicate OneHolder(s: State)
  {
    && (forall c :: c in s.calls && InFlight(s.calls[c]) ==> s.live)
    && (forall c, d :: c in s.calls && d in s.calls && InFlight(s.calls[c]) && InFlight(s.calls[d]) ==> c == d)
  }

  /** A winner's marker is durable and nobody is left who could remove it. */
  ghost predicate Settled(s: State)
  {
    s.live && s.durable && forall c :: c in s.calls ==> !InFlight(s.calls[c])
  }

  ghost predicate Inv(s: State)
  {
    && OneHolder(s)
    && (forall c :: At(s, c, Won) ==> Settled(s))
    && (forall c, d :: At(s, c, Won) && At(s, d, Won) ==> c == d)
  }

  lemma StepKeepsInv(s: State, step: Step)
    requires Inv(s) && Enabled(s, step)
    requires step.SyncDirAndReturn? ==> step.works
    ensures Inv(Apply(s, step))
    ensures forall c :: At(s, c, Won) ==> At(Apply(s, step), c, Won)
  {
    var t := Apply(s, step);
    forall c | At(t, c, Won)
      ensures Settled(t) && forall d :: At(t, d, Won) ==> c == d
    {
      if At(s, c, Won) {
        assert Settled(s);
        assert forall d :: At(t, d, Won) ==> At(s, d, Won);
      } else {
        assert step == SyncDirAndReturn(c, true);
        assert InFlight(s.calls[c]);
        assert forall d :: At(t, d, Won) && d != c ==> At(s, d, Won);
      }
    }
  }

  lemma {:induction false} RunKeepsInv(s: State, steps: seq<Step>, t: State)
    requires Inv(s) && Runs(s, steps, t) && DirectorySyncWorks(steps)
    ensures Inv(t)
    ensures forall c :: At(s, c, Won) ==> At(t, c, Won)
    decreases |steps|
  {
    if steps != [] {
      StepKeepsInv(s, steps[0]);
      assert forall i :: 0 <= i < |steps[1..]| ==> steps[1..][i] == steps[i + 1];
      RunKeepsInv(Apply(s, steps[0]), steps[1..], t);
    }
  }

  /** One-shot authority. Where directory fsync works, over every interleaving of calls, write
      failures, kills and crashes at most one call returns True, and from then on the marker
      is there, before and after any further crash. */
  lemma OneShotAuthority(steps: seq<Step>, s: State, more: seq<Step>, t: State)
    requires Runs(START, steps, s) && Runs(s, more, t)
    requires DirectorySyncWorks(steps) && DirectorySyncWorks(more)
    ensures forall c, d :: At(t, c, Won) && At(t, d, Won) ==> c == d
    ensures forall c :: At(s, c, Won) ==> At(t, c, Won) && t.live && t.durable
  {
    RunKeepsInv(START, steps, s);
    RunKeepsInv(s, more, t);
    if c :| At(s, c, Won) {
      assert At(t, c, Won);
      assert Settled(t);
    }
  }

  // ----- when directory fsync may silently fail

  lemma {:induction false} HolderInvariant(s: State, steps: seq<Step>, t: State)
    requires OneHolder(s) && Runs(s, steps, t)
    ensures OneHolder(t)
    decreases |steps|
  {
    if steps != [] {
      HolderInvariant(Apply(s, steps[0]), steps[1..], t);
    }
  }

  lemma HolderFromStart(before: seq<Step>, s: State)
    requires Runs(START, before, s)
    ensures OneHolder(s)
  {
    HolderInvariant(START, before, s);
  }

  lemma {:induction false} SettledForever(s: State, steps: seq<Step>, t: State)
    requires Settled(s) && Runs(s, steps, t)
    ensures Settled(t)
    ensures forall c :: At(t, c, Won) ==> At(s, c, Won)
    decreases |steps|
  {
    if steps != [] {
      assert Settled(Apply(s, steps[0]));
      SettledForever(Apply(s, steps[0]), steps[1..], t);
    }
  }

  /** The call that consumes the decision again after a crash lost the marker. */
  function SecondConsumer(s: State, call: nat): seq<Step>
  {
    [Crash, Open(call), WriteAndSync(call), SyncDirAndReturn(call, true)]
  }

  /** The best-effort directory fsync is what one-shot authority rests on. Whatever happened
      before, a call that has just returned True can be followed by another call returning
      True exactly when the marker's directory entry is not yet durable. */
  lemma SecondWinPossibleIffNotDurable(before: seq<Step>, s: State, call: nat, works: bool)
    requires Runs(START, before, s) && Enabled(s, SyncDirAndReturn(call, works))
    ensures var won := Apply(s, SyncDirAndReturn(call, works));
            && won.live
            && ((exists steps, t, d :: Runs(won, steps, t) && At(t, d, Won) && !At(won, d, Won)) <==> !won.durable)
  {
    hide Runs;
    HolderFromStart(before, s);
    var won := Apply(s, SyncDirAndReturn(call, works));
    if won.durable {
      assert Settled(won);
      forall steps, t | Runs(won, steps, t)
        ensures forall d :: At(t, d, Won) ==> At(won, d, Won)
      {
        SettledForever(won, steps, t);
      }
    } else {
      var d := Unused(won.calls.Keys);
      SecondConsumerWins(won, d);
    }
  }

  lemma SecondConsumerWins(won: State, d: nat)
    requires !won.durable && d !in won.calls
    ensures exists t :: Runs(won, SecondConsumer(won, d), t) && At(t, d, Won)
  {
    var s1 := Apply(won, Crash);
    var s2 := Apply(s1, Open(d));
    var s3 := Apply(s2, WriteAndSync(d));
    var s4 := Apply(s3, SyncDirAndReturn(d, true));
    assert Runs(s4, [], s4);
    assert [SyncDirAndReturn(d, true)][1..] == [];
    assert Runs(s3, [SyncDirAndReturn(d, true)], s4);
    assert [WriteAndSync(d), SyncDirAndReturn(d, true)][1..] == [SyncDirAndReturn(d, true)];
    assert Runs(s2, [WriteAndSync(d), SyncDirAndReturn(d, true)], s4);
    assert SecondConsumer(won, d)[1..][1..] == [WriteAndSync(d), SyncDirAndReturn(d, true)];
    assert Runs(s1, SecondConsumer(won, d)[1..], s4);
    assert Runs(won, SecondConsumer(won, d), s4);
  }

  // ----- when a decision is free, and when it is spent

  ghost predicate Holds(s: State, call: nat)
  {
    call in s.calls && (InFlight(s.calls[call]) || s.calls[call].Won?)
  }

  /** A step after which the program is still running and whose unlink, if it is one, works. */
  predicate Orderly(step: Step)
  {
    !step.Kill? && !step.Crash? && (step.UnlinkAndRaise? ==> step.works)
  }

  ghost predicate LiveIffHeld(s: State)
  {
    && (s.live <==> exists c :: Holds(s, c))
    && forall c, d :: Holds(s, c) && Holds(s, d) ==> c == d
  }

  lemma StepKeepsHeld(s: State, step: Step)
    requires LiveIffHeld(s) && Enabled(s, step) && Orderly(step)
    ensures LiveIffHeld(Apply(s, step))
  {
    var t := Apply(s, step);
    if step.Open? || step.WriteAndSync? || step.WriteError? || step.SyncDirAndReturn? || step.UnlinkAndRaise? || step.OpenError? {
      assert forall c :: c != step.call ==> (Holds(t, c) <==> Holds(s, c));
    } else {
      assert forall c :: Holds(t, c) <==> Holds(s, c);
    }
    if step.WriteAndSync? || step.WriteError? || step.SyncDirAndReturn? {
      assert Holds(s, step.call) && Holds(t, step.call);
    }
    if step.UnlinkAndRaise? {
      assert Holds(s, step.call) && !Holds(t, step.call);
    }
    if step.Open? && !s.live {
      assert Holds(t, step.call);
    }
  }

  lemma {:induction false} RunKeepsHeld(s: State, steps: seq<Step>, t: State)
    requires LiveIffHeld(s) && Runs(s, steps, t) && forall i :: 0 <= i < |steps| ==> Orderly(steps[i])
    ensures LiveIffHeld(t)
    decreases |steps|
  {
    hide LiveIffHeld;
    if steps != [] {
      StepKeepsHeld(s, steps[0]);
      assert forall i :: 0 <= i < |steps[1..]| ==> steps[1..][i] == steps[i + 1];
      RunKeepsHeld(Apply(s, steps[0]), steps[1..], t);
    }
  }

  /** Over every interleaving without kills, crashes or failing unlinks the decision is taken exactly while
      some call is working on it or has won it: a call that opens then loses, any other goes ahead, and
      a call whose write failed leaves the decision free. */
  lemma TakenIffHeld(steps: seq<Step>, s: State, call: nat)
    requires Runs(START, steps, s) && forall i :: 0 <= i < |steps| ==> Orderly(steps[i])
    requires call !in s.calls
    ensures var t := Apply(s, Open(call));
            && (t.calls[call] == Lost <==> exists c :: Holds(s, c))
            && (t.calls[call] == Created <==> forall c :: !Holds(s, c))
            && forall c :: c in s.calls ==> t.calls[c] == s.calls[c]
  {
    RunKeepsHeld(START, steps, s);
  }

  ghost predicate Spent(s: State)
  {
    s.live && forall c :: c in s.calls ==> !InFlight(s.calls[c])
  }

  lemma {:induction false} SpentStays(s: State, steps: seq<Step>, t: State)
    requires Spent(s) && Runs(s, steps, t) && Crash !in steps
    ensures Spent(t) && forall c :: At(t, c, Won) ==> At(s, c, Won)
    decreases |steps|
  {
    if steps != [] {
      assert Spent(Apply(s, steps[0]));
      SpentStays(Apply(s, steps[0]), steps[1..], t);
    }
  }

  /** Without a crash some call can still win exactly when the marker is gone or a call is still at work
      on it. So a killed call, or one that could not remove its marker, spends the decision for good. */
  lemma StillWinnableIff(s: State)
    ensures (exists steps, t, d :: Crash !in steps && Runs(s, steps, t) && At(t, d, Won) && !At(s, d, Won))
            <==> !s.live || exists c :: c in s.calls && InFlight(s.calls[c])
  {
    hide Runs;
    if Spent(s) {
      forall steps, t | Crash !in steps && Runs(s, steps, t)
        ensures forall d :: At(t, d, Won) ==> At(s, d, Won)
      {
        SpentStays(s, steps, t);
      }
    } else if !s.live {
      NewCallWins(s, Unused(s.calls.Keys));
    } else {
      var c :| c in s.calls && InFlight(s.calls[c]);
      HolderOrNextWins(s, c);
    }
  }

  function NewCall(d: nat): seq<Step>
  {
    [Open(d), WriteAndSync(d), SyncDirAndReturn(d, true)]
  }

  lemma NewCallWins(s: State, d: nat)
    requires !s.live && d !in s.calls
    ensures exists t :: Runs(s, NewCall(d), t) && At(t, d, Won) && !At(s, d, Won)
  {
    var s1 := Apply(s, Open(d));
    var s2 := Apply(s1, WriteAndSync(d));
    var s3 := Apply(s2, SyncDirAndReturn(d, true));
    assert NewCall(d)[1..][1..] == [SyncDirAndReturn(d, true)];
    assert Runs(s3, [], s3);
    assert Runs(s2, [SyncDirAndReturn(d, true)], s3);
    assert Runs(s1, NewCall(d)[1..], s3);
    assert Runs(s, NewCall(d), s3);
  }

  lemma HolderOrNextWins(s: State, c: nat)
    requires s.live && c in s.calls && InFlight(s.calls[c])
    ensures exists steps, t, d :: Crash !in steps && Runs(s, steps, t) && At(t, d, Won) && !At(s, d, Won)
  {
    hide Runs;
    var sync := [SyncDirAndReturn(c, true)];
    match s.calls[c]
    case Written =>
      var won := Apply(s, SyncDirAndReturn(c, true));
      NoSteps(won);
      OneStep(s, SyncDirAndReturn(c, true), [], won);
      assert [SyncDirAndReturn(c, true)] + [] == sync;
      assert Runs(s, sync, won) && At(won, c, Won);
    case Created =>
      var s1 := Apply(s, WriteAndSync(c));
      var s2 := Apply(s1, SyncDirAndReturn(c, true));
      NoSteps(s2);
      OneStep(s1, SyncDirAndReturn(c, true), [], s2);
      assert [SyncDirAndReturn(c, true)] + [] == sync;
      OneStep(s, WriteAndSync(c), sync, s2);
      assert Runs(s, [WriteAndSync(c)] + sync, s2) && At(s2, c, Won);
    case Failing =>
      var d := Unused(s.calls.Keys);
      var s1 := Apply(s, UnlinkAndRaise(c, true));
      NewCallWins(s1, d);
      var t :| Runs(s1, NewCall(d), t) && At(t, d, Won) && !At(s1, d, Won);
      OneStep(s, UnlinkAndRaise(c, true), NewCall(d), t);
      assert Runs(s, [UnlinkAndRaise(c, true)] + NewCall(d), t);
  }

  lemma NoSteps(s: State)
    ensures Runs(s, [], s)
  {
  }

  lemma OneStep(s: State, step: Step, rest: seq<Step>, t: State)
    requires Enabled(s, step) && Runs(Apply(s, step), rest, t)
    ensures Runs(s, [step] + rest, t)
  {
    assert ([step] + rest)[1..] == rest;
  }

  /** How a call ends: winning comes only after its marker was written, raising only from an error of its
      own, losing only to a marker that was there; only an opening call, an unlink and a crash change the
      marker, and only a working directory fsync and the kernel what of it is durable. */
  lemma EndTells(s: State, step: Step, c: nat)
    requires Enabled(s, step)
    ensures var t := Apply(s, step);
            && (At(t, c, Won) && !At(s, c, Won) ==> At(s, c, Written))
            && (At(t, c, Raised) && !At(s, c, Raised) ==> step == OpenError(c) || At(s, c, Failing))
            && (At(t, c, Failing) && !At(s, c, Failing) ==> step == WriteError(c))
            && (At(t, c, Lost) && !At(s, c, Lost) ==> s.live && c !in s.calls)
            && (At(t, c, Dead) && !At(s, c, Dead) ==> step == Kill(c) || step == Crash)
            && (c in s.calls && !InFlight(s.calls[c]) ==> At(t, c, s.calls[c]))
            && (t.live != s.live ==> step.Open? || step.UnlinkAndRaise? || step.Crash?)
            && (t.durable != s.durable ==> step.Writeback? || (step.SyncDirAndReturn? && step.works))
            && (step.SyncDirAndReturn? && step.works ==> t.durable == t.live)
  {
  }
}
