/** What a schedule's events are, told by the draws, the vocabulary and the hours of the day alone. */
module PersonaFacts {
  import opened Common
  import opened Persona
  import opened PersonaSchedule

  // ----- one step

  /** How many of these are something else. */
  ghost function Others(activities: seq<Activity>, x: Activity): int
  {
    |activities| - multiset(activities)[x]
  }

  /** The activity a roll picks: outside a session a login where there is one; else, in declared order and
      counting around, one of those that are not a logout outside or a login inside. */
  ghost predicate IsChoice(a: Activity, inSession: bool, roll: nat, activities: seq<Activity>)
  {
    if !inSession && Login in activities then a == Login
    else
      var barred := if inSession then Login else Logout;
      if Only(activities, barred) then a == barred
      else Others(activities, barred) > 0 && IsNthOther(a, roll % Others(activities, barred), activities, barred)
  }

  /** The `k`-th of the activities other than `x`, counted from 0. */
  ghost predicate IsNthOther(a: Activity, k: int, activities: seq<Activity>, x: Activity)
  {
    a != x && exists i :: 0 <= i < |activities| && activities[i] == a && Others(activities[..i], x) == k
  }

  lemma OthersAfter(first: Activity, rest: seq<Activity>, x: Activity)
    ensures Others([first] + rest, x) == Others(rest, x) + if first == x then 0 else 1
  {
  }

  lemma NthAfter(a: Activity, k: int, first: Activity, rest: seq<Activity>, x: Activity)
    requires IsNthOther(a, k, rest, x)
    ensures IsNthOther(a, if first == x then k else k + 1, [first] + rest, x)
  {
    hide Others;
    var i :| 0 <= i < |rest| && rest[i] == a && Others(rest[..i], x) == k;
    var all := [first] + rest;
    assert all[..i + 1] == [first] + rest[..i];
    OthersAfter(first, rest[..i], x);
    assert all[i + 1] == a;
  }

  lemma NoOthersBefore(first: Activity, rest: seq<Activity>, x: Activity)
    requires first != x
    ensures IsNthOther(first, 0, [first] + rest, x)
  {
    var all := [first] + rest;
    assert all[..0] == [] && all[0] == first;
  }

  lemma {:induction false} WithoutIs(activities: seq<Activity>, x: Activity)
    ensures |Without(activities, x)| == Others(activities, x)
    ensures forall k :: 0 <= k < |Without(activities, x)| ==> IsNthOther(Without(activities, x)[k], k, activities, x)
  {
    hide Others;
    hide IsNthOther;
    if activities == [] {
      assert Others([], x) == 0 by { NoOthers(x); }
    } else {
      var first, rest := activities[0], activities[1..];
      WithoutIs(rest, x);
      assert activities == [first] + rest;
      OthersAfter(first, rest, x);
      if first != x {
        NoOthersBefore(first, rest, x);
      }
      forall k | 0 <= k < |Without(activities, x)|
        ensures IsNthOther(Without(activities, x)[k], k, activities, x)
      {
        var j := if first == x then k else k - 1;
        if j >= 0 {
          NthAfter(Without(rest, x)[j], j, first, rest, x);
        }
      }
    }
  }

  lemma NoOthers(x: Activity)
    ensures Others([], x) == 0
  {
  }

  lemma NoneToBar(roll: nat, activities: seq<Activity>, x: Activity)
    requires activities != [] && x !in activities
    ensures IsNthOther(activities[roll % |activities|], roll % |activities|, activities, x) && Others(activities, x) == |activities|
  {
    var i := roll % |activities|;
    assert multiset(activities)[x] == 0 && multiset(activities[..i])[x] == 0;
  }

  /** Every step makes that choice, and only a login or a logout changes the session. */
  lemma StepTells(state: Session, roll: nat, activities: seq<Activity>)
    requires activities != []
    ensures var (a, next) := Step(state, roll, activities);
            && IsChoice(a, state == LoggedIn, roll, activities)
            && next == (if a == Login then LoggedIn else if a == Logout then LoggedOut else state)
  {
    WithoutBoth(activities);
    WithoutIs(activities, Login);
    WithoutIs(activities, Logout);
    if Login !in activities && Logout !in activities {
      NoneToBar(roll, activities, Login);
      NoneToBar(roll, activities, Logout);
      assert activities[0] in activities;
    }
  }

  /** So which activities can come next: outside a session nothing but a login where there is one, and
      otherwise every declared one but the barred. */
  lemma ChoosableIff(state: Session, activities: seq<Activity>, a: Activity)
    requires activities != []
    ensures (exists roll: nat :: Step(state, roll, activities).0 == a) <==>
            && a in activities
            && (state == LoggedOut && Login in activities ==> a == Login)
            && (state == LoggedOut && a == Logout ==> Only(activities, Logout))
            && (state == LoggedIn && a == Login ==> Only(activities, Login))
  {
    hide Only;
    if exists roll: nat :: Step(state, roll, activities).0 == a {
      var roll: nat :| Step(state, roll, activities).0 == a;
      StepAllows(state, roll, activities);
    }
    if && a in activities
       && (state == LoggedOut && Login in activities ==> a == Login)
       && (state == LoggedOut && a == Logout ==> Only(activities, Logout))
       && (state == LoggedIn && a == Login ==> Only(activities, Login)) {
      var roll := RollFor(state, activities, a);
    }
  }

  lemma StepAllows(state: Session, roll: nat, activities: seq<Activity>)
    requires activities != []
    ensures var a := Step(state, roll, activities).0;
            && a in activities
            && (state == LoggedOut && Login in activities ==> a == Login)
            && (state == LoggedOut && a == Logout ==> Only(activities, Logout))
            && (state == LoggedIn && a == Login ==> Only(activities, Login))
  {
    hide Only;
    hide Without;
    WithoutBoth(activities);
  }

  lemma RollFor(state: Session, activities: seq<Activity>, a: Activity) returns (roll: nat)
    requires a in activities
    requires state == LoggedOut && Login in activities ==> a == Login
    requires state == LoggedOut && a == Logout ==> Only(activities, Logout)
    requires state == LoggedIn && a == Login ==> Only(activities, Login)
    ensures Step(state, roll, activities).0 == a
  {
    hide Only;
    hide Without;
    hide Step;
    WithoutBoth(activities);
    roll := 0;
    if state == LoggedOut && Login in activities {
      StepAllows(state, 0, activities);
    } else {
      var from := Candidates(state, activities);
      assert a in from;
      roll :| 0 <= roll < |from| && from[roll] == a;
      SmallMod(roll, |from|);
      StepPicks(state, roll, activities);
    }
  }

  lemma SmallMod(k: nat, n: nat)
    requires k < n
    ensures k % n == k
  {
  }

  function Candidates(state: Session, activities: seq<Activity>): (from: seq<Activity>)
    requires activities != []
    ensures from != []
  {
    var barred := if state == LoggedIn then Login else Logout;
    if (Login !in activities && Logout !in activities) || Without(activities, barred) == [] then activities
    else Without(activities, barred)
  }

  lemma StepPicks(state: Session, roll: nat, activities: seq<Activity>)
    requires activities != [] && (state == LoggedOut ==> Login !in activities)
    ensures Step(state, roll, activities).0 == Candidates(state, activities)[roll % |Candidates(state, activities)|]
  {
    hide Without;
  }

  // ----- a whole schedule

  lemma {:induction false} SessionIsShown(rolls: seq<nat>, activities: seq<Activity>)
    requires activities != []
    ensures StateAfter(rolls, activities) == LoggedIn <==> InSession(Performed(rolls, activities))
  {
    hide Step;
    hide IsChoice;
    if rolls != [] {
      var front := rolls[..|rolls| - 1];
      SessionIsShown(front, activities);
      StepTells(StateAfter(front, activities), rolls[|rolls| - 1], activities);
      OneActivityMore(Performed(front, activities), Step(StateAfter(front, activities), rolls[|rolls| - 1], activities).0);
    }
  }

  lemma {:induction false} PerformedTells(rolls: seq<nat>, activities: seq<Activity>, k: nat)
    requires activities != [] && k < |rolls|
    ensures IsChoice(Performed(rolls, activities)[k], InSession(Performed(rolls, activities)[..k]), rolls[k], activities)
  {
    hide Step;
    hide IsChoice;
    var front := rolls[..|rolls| - 1];
    var before := Performed(front, activities);
    if k == |rolls| - 1 {
      SessionIsShown(front, activities);
      StepTells(StateAfter(front, activities), rolls[k], activities);
      assert Performed(rolls, activities)[..k] == before;
    } else {
      PerformedTells(front, activities, k);
      assert Performed(rolls, activities)[..k] == before[..k];
    }
  }

  ghost function Firsts(ds: seq<Drawn>): (s: seq<int>)
    ensures |s| == |ds|
  {
    seq(|ds|, i requires 0 <= i < |ds| => ds[i].0)
  }

  lemma FirstsOf(ds: seq<Drawn>, d: Drawn)
    ensures Firsts(ds + [d]) == Firsts(ds) + [d.0]
  {
  }

  lemma {:induction false} InsertAddsFirst(ds: seq<Drawn>, d: Drawn)
    ensures multiset(Firsts(Insert(ds, d))) == multiset(Firsts(ds)) + multiset{d.0}
  {
    FirstsOf(ds, d);
    if ds != [] && !AtMost(ds[|ds| - 1], d) {
      var front, last := ds[..|ds| - 1], ds[|ds| - 1];
      InsertAddsFirst(front, d);
      FirstsOf(front, last);
      FirstsOf(Insert(front, d), last);
      assert ds == front + [last];
    }
  }

  lemma {:induction false} SortKeepsFirsts(ds: seq<Drawn>)
    ensures multiset(Firsts(SortDrawn(ds))) == multiset(Firsts(ds))
  {
    if ds != [] {
      var front, last := ds[..|ds| - 1], ds[|ds| - 1];
      SortKeepsFirsts(front);
      InsertAddsFirst(SortDrawn(front), last);
      FirstsOf(front, last);
      assert ds == front + [last];
    }
  }

  /** Every schedule is what its draws say: so many events as the count gives; at the drawn offsets into the
      working seconds, each as often as it was drawn; numbered from one; and the k-th activity the k-th roll's
      choice, given the session the activities before it show. */
  lemma ScheduleIsDrawn(es: seq<Event>, segments: seq<Span>, draws: Draws, window: Span, p: Spec)
    requires ValidSpec(p) && IsSchedule(es, segments, draws, window, p)
    ensures |es| == if Total(segments) == 0 then 0 else 1 + draws.count % p.maxEvents
    ensures Total(segments) > 0 ==> multiset(seq<int>(|es|, i requires 0 <= i < |es| => es[i].offset))
                                    == multiset(seq<int>(|es|, i requires 0 <= i < |es| => draws.offset(i) % Total(segments)))
    ensures forall k :: 0 <= k < |es| ==>
              && es[k].number == k + 1
              && IsChoice(es[k].activity, InSession(Activities(es)[..k]), draws.roll(k), p.activities)
  {
    hide IsCut;
    hide IsAt;
    hide Performed;
    hide SortDrawn;
    hide IsChoice;
    hide Total;
    assert Total(segments) >= 0 by { CutIsOrdered(segments, window, p); NoWholeSecond(segments); }
    var rolls := Rolls(draws, |es|);
    assert Activities(es) == Performed(rolls, p.activities);
    forall k | 0 <= k < |es|
      ensures IsChoice(es[k].activity, InSession(Activities(es)[..k]), draws.roll(k), p.activities)
    {
      PerformedTells(rolls, p.activities, k);
    }
    var total := Total(segments);
    if total > 0 {
      var all := AllDrawn(draws, total, |es|);
      SortKeepsFirsts(all);
      assert Firsts(SortDrawn(all)) == seq<int>(|es|, i requires 0 <= i < |es| => es[i].offset);
      assert Firsts(all) == seq<int>(|es|, i requires 0 <= i < |es| => draws.offset(i) % total);
    }
  }

  lemma CutIsOrdered(segments: seq<Span>, window: Span, p: Spec)
    requires IsCut(segments, window, p)
    ensures Ordered(segments)
  {
  }

  /** An instant is in working hours exactly when its hour of the day is. */
  lemma InHoursIff(t: int, window: Span, p: Spec)
    requires ValidSpec(p)
    ensures InHours(t, window, p) <==>
            window.start <= t < window.end && p.startHour <= t / 3_600_000_000 % 24 < p.endHour
  {
    var hour := t / 3_600_000_000;
    var day := hour / 24;
    var inDay := hour % 24;
    var rest := t % 3_600_000_000;
    assert t == day * 86_400_000_000 + (inDay * 3_600_000_000 + rest);
    assert t % DAY == inDay * HOUR + rest;
  }
}
