/** Numbering and cursor polling together: what a relay receives that polls with the last delivered id,
    over logs that bound observers, plain observers and other writers append to. */
module ObservationRelay {
  import opened Common
  import opened Events
  import opened Text
  import opened BoundObserver
  import opened ObservationExport

  // ----- when polling delivers every observation exactly once

  /** The cursor a relay holds after poll `k` stands for one place: its id occurs nowhere earlier. */
  ghost predicate CursorUnique(log: seq<Event>)
    requires Export(log).Ok?
  {
    var seen := Export(log).value;
    forall j :: 0 <= j < |seen| - 1 ==> seen[j].id != seen[|seen| - 1].id
  }

  /** What is delivered after the first of several places: too much, unless it is the only one. */
  lemma CutAfterFirst(seen: seq<Observation>, all: seq<Observation>)
    requires seen != [] && seen <= all
    ensures var last := |seen| - 1;
            var i := FirstAt(all, seen[last].id);
            i <= last && (i == last <==> forall j :: 0 <= j < last ==> seen[j].id != seen[last].id)
  {
    var last := |seen| - 1;
    assert all[last] == seen[last] && forall j :: 0 <= j < |seen| ==> seen[j] == all[j];
    var i := FirstAt(all, seen[last].id);
    assert i <= last;
    assert seen[i] == all[i];
  }

  /** One poll, by a relay whose last delivered observation is the last of the log polled before. */
  lemma PollFrom(log: seq<Event>, longer: seq<Event>, before: seq<Observation>)
    requires log <= longer && Export(log).Ok? && Export(longer).Ok?
    requires Cursor(before) == Cursor(Export(log).value)
    ensures Export(log).value <= Export(longer).value
    ensures Since(longer, Cursor(before)).Ok?
    ensures var seen, all, unseen := Export(log).value, Export(longer).value, Since(longer, Cursor(before)).value;
            && Cursor(before + unseen) == Cursor(all)
            && |unseen| >= |all| - |seen| && (|unseen| == |all| - |seen| <==> CursorUnique(log))
            && (CursorUnique(log) ==> unseen == all[|seen|..])
  {
    hide Export;
    hide FirstAt;
    hide Since;
    assert log + longer[|log|..] == longer;
    ExportGrows(log, longer[|log|..]);
    var seen, all := Export(log).value, Export(longer).value;
    if seen == [] {
      SinceNothing(longer);
      assert all[|seen|..] == all;
      assert before == [] && before + all == all;
    } else {
      CutAfterFirst(seen, all);
      var i := FirstAt(all, seen[|seen| - 1].id);
      SinceAt(longer, all, seen[|seen| - 1].id, i);
      CursorOfConcat(before, all, i);
    }
  }

  lemma SinceNothing(log: seq<Event>)
    ensures Since(log, None) == Export(log)
  {
  }

  lemma SinceAt(log: seq<Event>, all: seq<Observation>, id: string, i: nat)
    requires Export(log) == Ok(all) && FirstAt(all, id) == i && i < |all|
    ensures Since(log, Some(id)) == Ok(all[i + 1..])
  {
  }

  lemma CursorOfConcat(before: seq<Observation>, all: seq<Observation>, i: nat)
    requires i < |all| && before != [] && before[|before| - 1].id == all[i].id
    ensures Cursor(before + all[i + 1..]) == Cursor(all)
  {
    if i + 1 == |all| {
      assert before + all[i + 1..] == before;
    }
  }

  lemma {:induction false} PollsKeepUp(logs: seq<seq<Event>>)
    requires logs != [] && Growing(logs) && forall k :: 0 <= k < |logs| ==> Export(logs[k]).Ok?
    ensures Delivered(logs).Ok?
    ensures var got, all := Delivered(logs).value, Export(logs[|logs| - 1]).value;
            && Cursor(got) == Cursor(all) && |got| >= |all|
            && (|got| == |all| <==> forall k :: 0 <= k < |logs| - 1 ==> CursorUnique(logs[k]))
            && (|got| == |all| ==> got == all)
  {
    hide Export;
    hide Since;
    hide CursorUnique;
    var k := |logs| - 1;
    if k == 0 {
      assert Delivered(logs[..k]) == Ok([]);
      FirstPoll(logs[0]);
    } else {
      assert logs[k - 1] <= logs[k];
      var front := logs[..k];
      PollsKeepUp(front);
      assert front[|front| - 1] == logs[k - 1];
      PollFrom(logs[k - 1], logs[k], Delivered(front).value);
      assert (forall j :: 0 <= j < k ==> CursorUnique(logs[j])) <==>
             (forall j :: 0 <= j < k - 1 ==> CursorUnique(front[j])) && CursorUnique(logs[k - 1]);
      var seen, all := Export(logs[k - 1]).value, Export(logs[k]).value;
      assert seen + all[|seen|..] == all;
    }
  }

  /** Polling delivers every observation exactly once and in order if and only if no cursor used has an
      id that occurs earlier in the log it was taken from. */
  lemma DeliveryIsExactIff(logs: seq<seq<Event>>)
    requires logs != [] && Growing(logs) && forall k :: 0 <= k < |logs| ==> Export(logs[k]).Ok?
    ensures Delivered(logs) == Export(logs[|logs| - 1]) <==> forall k :: 0 <= k < |logs| - 1 ==> CursorUnique(logs[k])
  {
    hide Export;
    hide Delivered;
    hide CursorUnique;
    PollsKeepUp(logs);
  }

  // ----- the ids of bound and of plain observers

  /** `{env}-obs-{n:04d}`: the id of a plain `InteractionObserver`, whose count starts at 1 in every
      instance. */
  function PlainId(env: string, n: nat): string
  {
    env + ("-obs-" + Padded(n, 4))
  }

  /** `log` is the events behind a numbering run's entries: bound entries are observations with the
      drawn ids; foreign entries are lifecycle or drift events, or a plain observer's observations. */
  ghost predicate Realizes(env: string, entries: seq<Entry>, log: seq<Event>)
  {
    && |log| == |entries|
    && forall i :: 0 <= i < |log| ==>
         if entries[i].Bound? then log[i].Interaction? && log[i].obs.id == IdText(env, entries[i])
         else log[i].Lifecycle? || log[i].Drift? || (log[i].Interaction? && exists n :: log[i].obs.id == PlainId(env, n))
  }

  /** A bound id is never a plain one. */
  lemma BoundIsNotPlain(env: string, e: Entry, n: nat)
    requires e.Bound?
    ensures IdText(env, e) != PlainId(env, n)
  {
    var a, b := "-s" + (Digits(e.generation) + ("-obs-" + Padded(e.n, 6))), "-obs-" + Padded(n, 4);
    assert a[1] != b[1];
    if env + a == env + b {
      SamePrefix(env, a, b);
    }
  }

  /** Every exported observation is a record of the log, and different ones are different records. */
  lemma {:induction false} ExportedComesFrom(log: seq<Event>, k: nat) returns (i: nat)
    requires Export(log).Ok? && k < |Export(log).value|
    ensures i < |log| && log[i] == Interaction(Export(log).value[k])
    ensures Export(log[..i]).Ok? && |Export(log[..i]).value| == k
  {
    var last := |log| - 1;
    var before := log[..last];
    if k < |Export(before).value| {
      i := ExportedComesFrom(before, k);
      assert before[..i] == log[..i];
    } else {
      i := last;
    }
  }

  /** A log some bound observers and other writers made, and its polls. */
  ghost predicate IsRun(env: string, steps: seq<Step>, s: State, logs: seq<seq<Event>>)
  {
    && Runs(START, steps, s) && logs != [] && Growing(logs)
    && Realizes(env, s.log, logs[|logs| - 1])
  }

  lemma {:induction false} RealizedExports(env: string, entries: seq<Entry>, log: seq<Event>)
    requires Realizes(env, entries, log)
    ensures Export(log).Ok?
  {
    if log != [] {
      RealizedExports(env, entries[..|entries| - 1], log[..|log| - 1]);
    }
  }

  lemma {:induction false} EarlierLogs(logs: seq<seq<Event>>, k: nat)
    requires Growing(logs) && k < |logs|
    ensures logs[k] <= logs[|logs| - 1]
    decreases |logs| - k
  {
    if k < |logs| - 1 {
      EarlierLogs(logs[..|logs| - 1], k);
      assert logs[|logs| - 2] <= logs[|logs| - 1];
    }
  }

  /** The last observation of this log is a plain one whose id occurs earlier. */
  ghost predicate RepeatsPlainId(env: string, log: seq<Event>)
    requires Export(log).Ok?
  {
    var seen := Export(log).value;
    exists j, n :: 0 <= j < |seen| - 1 && seen[j].id == seen[|seen| - 1].id == PlainId(env, n)
  }

  /** A cursor that stands for two places is a plain observer's id: a bound one never is. */
  lemma CursorUniqueIffNotPlainRepeat(env: string, steps: seq<Step>, s: State, log: seq<Event>)
    requires Runs(START, steps, s) && |log| <= |s.log| && Realizes(env, s.log[..|log|], log)
    ensures Export(log).Ok? && (CursorUnique(log) <==> !RepeatsPlainId(env, log))
  {
    hide IdText;
    hide PlainId;
    RealizedExports(env, s.log[..|log|], log);
    var seen := Export(log).value;
    var last := |seen| - 1;
    if j :| 0 <= j < last && seen[j].id == seen[last].id {
      var i := ExportedComesFrom(log, j);
      var i' := ExportedComesFrom(log, last);
      if s.log[i].Bound? && s.log[i'].Bound? {
        assert i != i';
        if i < i' {
          IdsIncreaseAndNeverRepeat(env, steps, s, i, i');
        } else {
          IdsIncreaseAndNeverRepeat(env, steps, s, i', i);
        }
      } else if s.log[i].Bound? {
        var n :| log[i'].obs.id == PlainId(env, n);
        BoundIsNotPlain(env, s.log[i], n);
      } else if s.log[i'].Bound? {
        var n :| log[i].obs.id == PlainId(env, n);
        BoundIsNotPlain(env, s.log[i'], n);
      } else {
        var n :| log[i'].obs.id == PlainId(env, n);
        assert seen[j].id == seen[last].id == PlainId(env, n);
      }
    }
  }

  /** Exactly when a relay receives every observation once and in order: no poll ended on a plain
      observer's observation whose id occurs earlier. Bound observations never disturb it. */
  lemma RelayReceivesEachOnceIff(env: string, steps: seq<Step>, s: State, logs: seq<seq<Event>>)
    requires IsRun(env, steps, s, logs)
    ensures forall k :: 0 <= k < |logs| ==> Export(logs[k]).Ok?
    ensures Delivered(logs) == Export(logs[|logs| - 1]) <==> forall k :: 0 <= k < |logs| - 1 ==> !RepeatsPlainId(env, logs[k])
  {
    hide CursorUnique;
    hide RepeatsPlainId;
    forall k | 0 <= k < |logs|
      ensures Export(logs[k]).Ok? && (CursorUnique(logs[k]) <==> !RepeatsPlainId(env, logs[k]))
    {
      EarlierLogs(logs, k);
      PartRealizes(env, s.log, logs[|logs| - 1], |logs[k]|);
      assert logs[|logs| - 1][..|logs[k]|] == logs[k];
      CursorUniqueIffNotPlainRepeat(env, steps, s, logs[k]);
    }
    DeliveryIsExactIff(logs);
  }

  lemma PartRealizes(env: string, entries: seq<Entry>, log: seq<Event>, n: nat)
    requires Realizes(env, entries, log) && n <= |log|
    ensures Realizes(env, entries[..n], log[..n])
  {
  }

  ghost predicate PlainIdsDiffer(env: string, log: seq<Event>)
  {
    forall i, j, n :: 0 <= i < j < |log| && log[i].Interaction? && log[j].Interaction? && log[i].obs.id == PlainId(env, n) ==>
      log[j].obs.id != PlainId(env, n)
  }

  /** Without plain observers, or with a single one, that is always so. */
  lemma RelayReceivesEachOnce(env: string, steps: seq<Step>, s: State, logs: seq<seq<Event>>)
    requires IsRun(env, steps, s, logs)
    requires PlainIdsDiffer(env, logs[|logs| - 1])
    ensures Delivered(logs) == Export(logs[|logs| - 1])
  {
    hide PlainId;
    RelayReceivesEachOnceIff(env, steps, s, logs);
    forall k | 0 <= k < |logs|
      ensures !RepeatsPlainId(env, logs[k])
    {
      EarlierLogs(logs, k);
      NoPlainRepeat(env, logs[k], logs[|logs| - 1]);
    }
  }

  lemma NoPlainRepeat(env: string, log: seq<Event>, all: seq<Event>)
    requires log <= all && Export(log).Ok?
    requires PlainIdsDiffer(env, all)
    ensures !RepeatsPlainId(env, log)
  {
    hide PlainId;
    var seen := Export(log).value;
    var last := |seen| - 1;
    forall j | 0 <= j < last
      ensures forall n :: !(seen[j].id == seen[last].id == PlainId(env, n))
    {
      var i := ExportedComesFrom(log, j);
      var i' := ExportedComesFrom(log, last);
      assert log[i] == all[i] && log[i'] == all[i'] && i != i';
    }
  }

  // ----- two plain observers

  /** The first observation of an instance. */
  function FirstOf(env: string): Observation
  {
    Observation(PlainId(env, 1), env, "", "", "", "", [], [], 0, false, 0)
  }

  lemma ExportOneMore(log: seq<Event>, o: Observation)
    requires Export(log).Ok?
    ensures Export(log + [Interaction(o)]) == Ok(Export(log).value + [o])
  {
    assert (log + [Interaction(o)])[..|log|] == log;
  }

  lemma DeliveredOneMore(logs: seq<seq<Event>>, log: seq<Event>)
    requires Delivered(logs).Ok? && Since(log, Cursor(Delivered(logs).value)).Ok?
    ensures Delivered(logs + [log]) == Ok(Delivered(logs).value + Since(log, Cursor(Delivered(logs).value)).value)
  {
    hide Since;
    assert (logs + [log])[..|logs|] == logs;
  }

  lemma SinceFirst(log: seq<Event>, all: seq<Observation>)
    requires Export(log) == Ok(all) && all != []
    ensures Since(log, Some(all[0].id)) == Ok(all[1..]) && Since(log, None) == Ok(all)
  {
    hide Export;
    assert FirstAt(all, all[0].id) == 0;
  }

  lemma ThreeExported(env: string, bound: Observation)
    ensures Export([Interaction(FirstOf(env))]) == Ok([FirstOf(env)])
    ensures Export([Interaction(FirstOf(env)), Interaction(bound), Interaction(FirstOf(env))]) == Ok([FirstOf(env), bound, FirstOf(env)])
  {
    hide FirstOf;
    var first, one := FirstOf(env), [Interaction(FirstOf(env))];
    ExportOneMore([], first);
    ExportOneMore(one, bound);
    ExportOneMore(one + [Interaction(bound)], first);
    assert [Interaction(FirstOf(env)), Interaction(bound), Interaction(FirstOf(env))] == one + [Interaction(bound)] + [Interaction(FirstOf(env))];
    assert one == [] + [Interaction(first)] && [] + [first] == [first];
    assert [first] + [bound] + [first] == [first, bound, first];
  }

  /** Two plain observers of one environment each number their first observation 1. Polled once before
      the second observes and twice after, a bound observation recorded in between is delivered twice. */
  lemma SecondPlainObserverRepeats(env: string, bound: Observation)
    ensures var log := [Interaction(FirstOf(env)), Interaction(bound), Interaction(FirstOf(env))];
            var logs := [[Interaction(FirstOf(env))], log, log];
            && Growing(logs) && Export(log).Ok?
            && Delivered(logs) == Ok(Export(log).value + [bound, FirstOf(env)])
  {
    hide FirstOf;
    hide Export;
    hide Since;
    hide Delivered;
    var first := FirstOf(env);
    var one, log := [Interaction(FirstOf(env))], [Interaction(FirstOf(env)), Interaction(bound), Interaction(FirstOf(env))];
    var all := [first, bound, first];
    ThreeExported(env, bound);
    SinceFirst(one, [first]);
    SinceFirst(log, all);
    NoPolls();
    DeliveredOneMore([], one);
    assert [] + [first] == [first] && all[1..] == [bound, first];
    DeliveredOneMore([] + [one], log);
    DeliveredOneMore([] + [one] + [log], log);
    assert [one, log, log] == [] + [one] + [log] + [log];
    assert [first] + [bound, first] == all;
  }

  lemma NoPolls()
    ensures Delivered([]) == Ok([])
  {
  }
}
