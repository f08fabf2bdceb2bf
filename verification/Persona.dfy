/** `persona/runtime.py`: working-hour segments of a window, offsets mapped into them, the session state
    machine and the schedule. Instants are microseconds on the window start's own clock, counted from a
    midnight; the hashes are parameters. */
module Persona {
  import opened Common

  const SECOND := 1_000_000
  const HOUR := 3_600_000_000
  const DAY := 86_400_000_000
  const MAX_WINDOW_SPAN := 3650 * DAY
  const MAX_EVENTS_CEILING := 100_000

  datatype Activity = Login | ReadFile | EditDocument | SendMessage | Idle | Logout

  /** A validated persona. */
  datatype Spec = Spec(activities: seq<Activity>, startHour: int, endHour: int, maxEvents: int)

  predicate ValidSpec(p: Spec)
  {
    && p.activities != [] && 0 <= p.startHour <= 23 && 1 <= p.endHour <= 24 && p.startHour < p.endHour
    && 0 < p.maxEvents <= MAX_EVENTS_CEILING
  }

  datatype Span = Span(start: int, end: int)

  // ----- segments

  /** The instant is in the window and, on its own day, within working hours. */
  predicate InHours(t: int, window: Span, p: Spec)
  {
    window.start <= t < window.end && p.startHour * HOUR <= t % DAY < p.endHour * HOUR
  }

  ghost predicate Covered(t: int, segments: seq<Span>)
  {
    exists i :: 0 <= i < |segments| && segments[i].start <= t < segments[i].end
  }

  ghost predicate Ordered(segments: seq<Span>)
  {
    && (forall i :: 0 <= i < |segments| ==> segments[i].start < segments[i].end)
    && (forall i, j :: 0 <= i < j < |segments| ==> segments[i].end <= segments[j].start)
  }

  /** What one day contributes. */
  function Piece(day: int, window: Span, p: Spec): Span
  {
    Span(Max(day + p.startHour * HOUR, window.start), Min(day + p.endHour * HOUR, window.end))
  }

  lemma TimeOfDay(day: int, t: int)
    requires day % DAY == 0 && day <= t < day + DAY
    ensures t % DAY == t - day
  {
  }

  ghost predicate FromItsDay(s: Span, window: Span, p: Spec)
  {
    s == Piece(s.start - s.start % DAY, window, p)
  }

  lemma PieceOfDay(day: int, window: Span, p: Spec)
    requires ValidSpec(p) && day % DAY == 0
    ensures var piece := Piece(day, window, p);
            piece.start < piece.end ==> day <= piece.start && piece.end <= day + DAY && FromItsDay(piece, window, p)
  {
    var piece := Piece(day, window, p);
    if piece.start < piece.end {
      TimeOfDay(day, piece.start);
    }
  }

  /** Every calendar day starts `DAY` after the one before. */
  lemma Midnights(t: int)
    ensures (t - t % DAY) % DAY == 0 && t - t % DAY <= t < t - t % DAY + DAY
  {
  }

  lemma NextMidnight(day: int)
    requires day % DAY == 0
    ensures (day + DAY) % DAY == 0
  {
  }

  /** `_working_hour_segments`: day by day, exactly the instants of the window in working hours. */
  method WorkingHourSegments(window: Span, p: Spec) returns (segments: seq<Span>)
    requires ValidSpec(p)
    ensures forall t :: Covered(t, segments) <==> InHours(t, window, p)
    ensures Ordered(segments) && forall i :: 0 <= i < |segments| ==> FromItsDay(segments[i], window, p)
  {
    hide Piece;
    hide FromItsDay;
    hide InHours;
    hide ValidSpec;
    segments := [];
    Midnights(window.start);
    var day := window.start - window.start % DAY;
    assert forall t :: InHours(t, window, p) ==> window.start <= t < window.end by { HoursInWindow(window, p); }
    while day <= window.end
      invariant day % DAY == 0 && Ordered(segments)
      invariant forall i :: 0 <= i < |segments| ==> segments[i].end <= day && FromItsDay(segments[i], window, p)
      invariant forall t :: Covered(t, segments) <==> InHours(t, window, p) && t < day
      decreases window.end - day
    {
      var piece := Piece(day, window, p);
      ghost var was := segments;
      PieceOfDay(day, window, p);
      if piece.start < piece.end {
        segments := segments + [piece];
      }
      forall t
        ensures Covered(t, segments) <==> InHours(t, window, p) && t < day + DAY
      {
        CoveredStep(t, was, segments, day, window, p);
      }
      NextMidnight(day);
      day := day + DAY;
    }
  }

  lemma HoursInWindow(window: Span, p: Spec)
    ensures forall t :: InHours(t, window, p) ==> window.start <= t < window.end
  {
  }

  lemma CoveredStep(t: int, was: seq<Span>, now: seq<Span>, day: int, window: Span, p: Spec)
    requires ValidSpec(p) && day % DAY == 0
    requires now == was + if Piece(day, window, p).start < Piece(day, window, p).end then [Piece(day, window, p)] else []
    requires Covered(t, was) <==> InHours(t, window, p) && t < day
    ensures Covered(t, now) <==> InHours(t, window, p) && t < day + DAY
  {
    var piece := Piece(day, window, p);
    if day <= t < day + DAY {
      TimeOfDay(day, t);
    }
    assert Covered(t, now) <==> Covered(t, was) || piece.start <= t < piece.end by {
      if i :| 0 <= i < |was| && was[i].start <= t < was[i].end {
        assert now[i] == was[i];
      }
      if piece.start <= t < piece.end {
        assert now[|was|] == piece;
      }
    }
  }

  // ----- offsets

  /** Whole seconds. */
  function Seconds(s: Span): int
  {
    if s.end >= s.start then (s.end - s.start) / SECOND else -((s.start - s.end) / SECOND)
  }

  function Total(segments: seq<Span>): int
  {
    if segments == [] then 0 else Total(segments[..|segments| - 1]) + Seconds(segments[|segments| - 1])
  }

  /** The instant at an offset into the segments laid end to end. */
  ghost predicate IsAt(segments: seq<Span>, offset: int, t: int)
  {
    exists i :: 0 <= i < |segments| && Total(segments[..i]) <= offset < Total(segments[..i]) + Seconds(segments[i])
                && t == segments[i].start + (offset - Total(segments[..i])) * SECOND
  }

  /** `_offset_to_datetime`; past the segments' total it answers the last segment's end. */
  method OffsetToInstant(segments: seq<Span>, offset: nat) returns (t: int)
    requires segments != [] && Ordered(segments)
    ensures offset < Total(segments) ==> IsAt(segments, offset, t)
    ensures offset >= Total(segments) ==> t == segments[|segments| - 1].end
  {
    var remaining: int := offset;
    for i := 0 to |segments|
      invariant remaining == offset - Total(segments[..i]) && remaining >= 0
    {
      assert segments[..i + 1][..i] == segments[..i];
      var length := Seconds(segments[i]);
      if remaining < length {
        TotalGrows(segments, i + 1);
        return segments[i].start + remaining * SECOND;
      }
      remaining := remaining - length;
    }
    assert segments[..|segments|] == segments;
    return segments[|segments| - 1].end;
  }

  lemma {:induction false} TotalGrows(segments: seq<Span>, i: nat)
    requires i <= |segments| && Ordered(segments)
    ensures 0 <= Total(segments[..i]) <= Total(segments)
    decreases |segments|
  {
    if i < |segments| {
      var front := segments[..|segments| - 1];
      TotalGrows(front, i);
      assert front[..i] == segments[..i];
    } else if segments != [] {
      TotalGrows(segments[..i - 1], i - 1);
      assert segments[..i] == segments && segments[..i - 1][..i - 1] == segments[..i - 1];
    }
  }

  lemma AtIsInside(segments: seq<Span>, offset: int, t: int)
    requires IsAt(segments, offset, t)
    ensures Covered(t, segments)
  {
    var i :| 0 <= i < |segments| && Total(segments[..i]) <= offset < Total(segments[..i]) + Seconds(segments[i])
             && t == segments[i].start + (offset - Total(segments[..i])) * SECOND;
    assert segments[i].start <= t < segments[i].end;
  }

  lemma SumThrough(segments: seq<Span>, i: nat, j: nat)
    requires i < j <= |segments| && Ordered(segments)
    ensures Total(segments[..i]) + Seconds(segments[i]) <= Total(segments[..j])
  {
    assert segments[..i + 1][..i] == segments[..i];
    TotalGrows(segments[..j], i + 1);
    assert segments[..j][..i + 1] == segments[..i + 1];
  }

  /** Offset to instant is strictly increasing, so no two offsets share an instant. */
  lemma AtIncreases(segments: seq<Span>, a: int, b: int, t: int, u: int)
    requires Ordered(segments) && IsAt(segments, a, t) && IsAt(segments, b, u)
    ensures a < b <==> t < u
    ensures a == b <==> t == u
  {
    var i :| 0 <= i < |segments| && Total(segments[..i]) <= a < Total(segments[..i]) + Seconds(segments[i])
             && t == segments[i].start + (a - Total(segments[..i])) * SECOND;
    var j :| 0 <= j < |segments| && Total(segments[..j]) <= b < Total(segments[..j]) + Seconds(segments[j])
             && u == segments[j].start + (b - Total(segments[..j])) * SECOND;
    assert segments[i].start <= t < segments[i].end && segments[j].start <= u < segments[j].end;
    if i < j {
      SumThrough(segments, i, j);
    } else if j < i {
      SumThrough(segments, j, i);
    }
  }

  // ----- the session machine

  datatype Session = LoggedOut | LoggedIn

  function Without(activities: seq<Activity>, a: Activity): (r: seq<Activity>)
    ensures forall x :: x in r <==> x in activities && x != a
  {
    if activities == [] then []
    else (if activities[0] != a then [activities[0]] else []) + Without(activities[1..], a)
  }

  /** `PersonaRuntime.step`. */
  function Step(state: Session, roll: nat, activities: seq<Activity>): (r: (Activity, Session))
    requires activities != []
    ensures r.0 in activities
  {
    if Login !in activities && Logout !in activities then (activities[roll % |activities|], state)
    else if state == LoggedOut then
      if Login in activities then (Login, LoggedIn)
      else
        var others := if Without(activities, Logout) != [] then Without(activities, Logout) else activities;
        (others[roll % |others|], state)
    else
      var candidates := if Without(activities, Login) != [] then Without(activities, Login) else activities;
      var chosen := candidates[roll % |candidates|];
      (chosen, if chosen == Logout then LoggedOut else LoggedIn)
  }

  ghost function StateAfter(rolls: seq<nat>, activities: seq<Activity>): Session
    requires activities != []
  {
    if rolls == [] then LoggedOut
    else Step(StateAfter(rolls[..|rolls| - 1], activities), rolls[|rolls| - 1], activities).1
  }

  ghost function Performed(rolls: seq<nat>, activities: seq<Activity>): (r: seq<Activity>)
    requires activities != []
    ensures |r| == |rolls|
  {
    if rolls == [] then []
    else
      var front := rolls[..|rolls| - 1];
      Performed(front, activities) + [Step(StateAfter(front, activities), rolls[|rolls| - 1], activities).0]
  }

  /** Whether the last login or logout among these, if any, is a login. */
  ghost function InSession(done: seq<Activity>): bool
  {
    done != [] &&
    match done[|done| - 1]
    case Login => true
    case Logout => false
    case _ => InSession(done[..|done| - 1])
  }

  /** Logins happen only out of a session and logouts only in one: they alternate, login first. */
  ghost predicate Alternates(done: seq<Activity>)
  {
    forall i :: 0 <= i < |done| ==>
                  && (done[i] == Login ==> !InSession(done[..i]))
                  && (done[i] == Logout ==> InSession(done[..i]))
  }

  lemma {:induction false} Alternation(done: seq<Activity>, i: nat, j: nat)
    requires Alternates(done) && i < j < |done| && done[i] == Login && done[j] == Login
    ensures exists k :: i < k < j && done[k] == Logout
  {
    LastIsLogin(done[..j], i);
    if k :| i < k < |done[..j]| && done[..j][k] == Logout {
      assert done[k] == Logout;
    }
  }

  lemma {:induction false} LastIsLogin(done: seq<Activity>, i: nat)
    requires i < |done| && done[i] == Login
    ensures InSession(done) || exists k :: i < k < |done| && done[k] == Logout
  {
    if i < |done| - 1 && done[|done| - 1] != Login && done[|done| - 1] != Logout {
      var front := done[..|done| - 1];
      LastIsLogin(front, i);
      if k :| i < k < |front| && front[k] == Logout {
        assert done[k] == Logout;
      }
    }
  }

  ghost predicate Only(activities: seq<Activity>, a: Activity)
  {
    forall x :: x in activities ==> x == a
  }

  /** One step, told by its activity: log in only from outside, log out only from inside. */
  lemma StepKeepsSession(state: Session, roll: nat, activities: seq<Activity>)
    requires activities != [] && !Only(activities, Login) && !Only(activities, Logout)
    ensures var (a, next) := Step(state, roll, activities);
            && (a == Login ==> state == LoggedOut && next == LoggedIn)
            && (a == Logout ==> state == LoggedIn && next == LoggedOut)
            && (a != Login && a != Logout ==> next == state)
            && (Login in activities && state == LoggedOut ==> a == Login)
  {
    WithoutBoth(activities);
  }

  /** One activity more: what it does to the session shown. */
  lemma OneActivityMore(done: seq<Activity>, a: Activity)
    ensures InSession(done + [a]) == if a == Login then true else if a == Logout then false else InSession(done)
    ensures Alternates(done) && (a == Login ==> !InSession(done)) && (a == Logout ==> InSession(done)) ==> Alternates(done + [a])
  {
    var more := done + [a];
    assert more[..|done|] == done;
    assert forall i :: 0 <= i < |done| ==> more[..i] == done[..i] && more[i] == done[i];
  }

  /** With `login` in the vocabulary, whatever happens outside a session is a login. */
  ghost predicate OnlyLoginOutside(done: seq<Activity>)
  {
    forall i :: 0 <= i < |done| && !InSession(done[..i]) ==> done[i] == Login
  }

  lemma OneMoreOutside(done: seq<Activity>, a: Activity)
    requires OnlyLoginOutside(done) && (!InSession(done) ==> a == Login)
    ensures OnlyLoginOutside(done + [a])
  {
    var more := done + [a];
    assert more[..|done|] == done;
    assert forall i :: 0 <= i < |done| ==> more[..i] == done[..i] && more[i] == done[i];
  }

  /** What the machine keeps about the activities it performed. */
  lemma {:induction false} StateTellsSession(rolls: seq<nat>, activities: seq<Activity>)
    requires activities != [] && !Only(activities, Login) && !Only(activities, Logout)
    ensures StateAfter(rolls, activities) == LoggedIn <==> InSession(Performed(rolls, activities))
    ensures Alternates(Performed(rolls, activities))
    ensures Login in activities ==> OnlyLoginOutside(Performed(rolls, activities))
  {
    hide Step;
    hide Only;
    hide Alternates;
    hide OnlyLoginOutside;
    if rolls == [] {
      NothingPerformed();
    } else {
      var front := rolls[..|rolls| - 1];
      StateTellsSession(front, activities);
      StepKeepsSession(StateAfter(front, activities), rolls[|rolls| - 1], activities);
      var before := Performed(front, activities);
      var a := Step(StateAfter(front, activities), rolls[|rolls| - 1], activities).0;
      OneActivityMore(before, a);
      if Login in activities {
        OneMoreOutside(before, a);
      }
    }
  }

  lemma NothingPerformed()
    ensures !InSession([]) && Alternates([]) && OnlyLoginOutside([])
  {
  }

  lemma WithoutBoth(activities: seq<Activity>)
    requires activities != []
    ensures Without(activities, Login) == [] <==> Only(activities, Login)
    ensures Without(activities, Logout) == [] <==> Only(activities, Logout)
  {
    if Without(activities, Login) != [] { assert Without(activities, Login)[0] in Without(activities, Login); }
    if Without(activities, Logout) != [] { assert Without(activities, Logout)[0] in Without(activities, Logout); }
    if x :| x in activities && x != Login { assert x in Without(activities, Login); }
    if x :| x in activities && x != Logout { assert x in Without(activities, Logout); }
  }

  /** Exactly when the logins and logouts of a run alternate: always, but for a vocabulary of nothing
      but `login` (from its second event on) or nothing but `logout` (from its first). */
  lemma AlternatesIff(rolls: seq<nat>, activities: seq<Activity>)
    requires activities != []
    ensures Alternates(Performed(rolls, activities)) <==>
            !(Only(activities, Login) && |rolls| >= 2) && !(Only(activities, Logout) && |rolls| >= 1)
  {
    var done := Performed(rolls, activities);
    if !Only(activities, Login) && !Only(activities, Logout) {
      StateTellsSession(rolls, activities);
    } else {
      PerformedAreDeclared(rolls, activities);
      if Only(activities, Login) && |rolls| >= 2 {
        assert done[0] == Login && done[1] == Login;
        assert done[..1] == [Login] && InSession(done[..1]);
      } else if Only(activities, Logout) && |rolls| >= 1 {
        assert done[0] == Logout && !InSession(done[..0]);
      } else if |rolls| == 1 {
        assert done[..0] == [] && !InSession(done[..0]) && done[0] != Logout;
      }
    }
  }

  lemma {:induction false} PerformedAreDeclared(rolls: seq<nat>, activities: seq<Activity>)
    requires activities != []
    ensures forall i :: 0 <= i < |rolls| ==> Performed(rolls, activities)[i] in activities
  {
    if rolls != [] {
      PerformedAreDeclared(rolls[..|rolls| - 1], activities);
    }
  }

  // ----- the schedule

  datatype Event = Event(number: nat, at: int, activity: Activity, offset: nat)

  /** The numbers the hashes of the schedule's inputs give. */
  datatype Draws = Draws(count: nat, offset: nat -> nat, roll: nat -> nat)

  datatype WindowError = InvertedWindow | WindowTooLong

  type Drawn = (nat, nat)

  predicate AtMost(a: Drawn, b: Drawn)
  {
    a.0 < b.0 || (a.0 == b.0 && a.1 <= b.1)
  }

  predicate InOrder(ds: seq<Drawn>)
  {
    forall i, j :: 0 <= i < j < |ds| ==> AtMost(ds[i], ds[j])
  }

  function Insert(ds: seq<Drawn>, d: Drawn): seq<Drawn>
  {
    if ds == [] || AtMost(ds[|ds| - 1], d) then ds + [d]
    else Insert(ds[..|ds| - 1], d) + [ds[|ds| - 1]]
  }

  lemma {:induction false} InsertAddsOne(ds: seq<Drawn>, d: Drawn)
    ensures multiset(Insert(ds, d)) == multiset(ds) + multiset{d}
  {
    if ds != [] && !AtMost(ds[|ds| - 1], d) {
      InsertAddsOne(ds[..|ds| - 1], d);
      assert ds == ds[..|ds| - 1] + [ds[|ds| - 1]];
    }
  }

  lemma {:induction false} InsertKeepsOrder(ds: seq<Drawn>, d: Drawn)
    requires InOrder(ds)
    ensures InOrder(Insert(ds, d))
  {
    if ds != [] && !AtMost(ds[|ds| - 1], d) {
      var front, last := ds[..|ds| - 1], ds[|ds| - 1];
      InsertKeepsOrder(front, d);
      InsertAddsOne(front, d);
      var r := Insert(front, d);
      forall i | 0 <= i < |r|
        ensures AtMost(r[i], last)
      {
        assert r[i] in multiset(r);
        assert r[i] == d || r[i] in front;
      }
    }
  }

  function SortDrawn(ds: seq<Drawn>): seq<Drawn>
  {
    if ds == [] then [] else Insert(SortDrawn(ds[..|ds| - 1]), ds[|ds| - 1])
  }

  lemma {:induction false} SortDrawnSorts(ds: seq<Drawn>)
    ensures InOrder(SortDrawn(ds)) && multiset(SortDrawn(ds)) == multiset(ds)
  {
    if ds != [] {
      var front, last := ds[..|ds| - 1], ds[|ds| - 1];
      SortDrawnSorts(front);
      InsertKeepsOrder(SortDrawn(front), last);
      InsertAddsOne(SortDrawn(front), last);
      assert ds == front + [last];
    }
  }

  ghost function AllDrawn(draws: Draws, total: int, n: nat): (r: seq<Drawn>)
    requires total > 0
    ensures |r| == n
  {
    seq(n, i requires 0 <= i < n => (draws.offset(i) % total, i))
  }

  ghost function Rolls(draws: Draws, n: nat): seq<nat>
  {
    seq<nat>(n, i requires 0 <= i < n => draws.roll(i))
  }

  /** The segments are those of the window. */
  ghost predicate IsCut(segments: seq<Span>, window: Span, p: Spec)
  {
    && (forall t :: Covered(t, segments) <==> InHours(t, window, p))
    && Ordered(segments) && forall i :: 0 <= i < |segments| ==> FromItsDay(segments[i], window, p)
  }

  function Size(draws: Draws, p: Spec, total: int): nat
    requires ValidSpec(p)
  {
    if total <= 0 then 0 else 1 + draws.count % p.maxEvents
  }

  ghost predicate IsSchedule(es: seq<Event>, segments: seq<Span>, draws: Draws, window: Span, p: Spec)
    requires ValidSpec(p)
  {
    var total := Total(segments);
    && IsCut(segments, window, p) && |es| == Size(draws, p, total)
    && (total > 0 ==>
          && |SortDrawn(AllDrawn(draws, total, |es|))| == |es|
          && forall i :: 0 <= i < |es| ==> es[i].offset == SortDrawn(AllDrawn(draws, total, |es|))[i].0)
    && (forall i :: 0 <= i < |es| ==> es[i].number == i + 1 && IsAt(segments, es[i].offset, es[i].at))
    && (forall i :: 0 <= i < |es| ==> es[i].activity == Performed(Rolls(draws, |es|), p.activities)[i])
  }

  method DrawOffsets(draws: Draws, total: int, n: nat) returns (offsets: seq<Drawn>)
    requires total > 0
    ensures offsets == AllDrawn(draws, total, n)
  {
    offsets := [];
    for i := 0 to n
      invariant offsets == AllDrawn(draws, total, i)
    {
      offsets := offsets + [(draws.offset(i) % total, i)];
    }
  }

  lemma OneMoreRoll(draws: Draws, k: nat, activities: seq<Activity>)
    requires activities != []
    ensures var step := Step(StateAfter(Rolls(draws, k), activities), draws.roll(k), activities);
            && StateAfter(Rolls(draws, k + 1), activities) == step.1
            && Performed(Rolls(draws, k + 1), activities) == Performed(Rolls(draws, k), activities) + [step.0]
  {
    hide Step;
    assert Rolls(draws, k + 1)[..k] == Rolls(draws, k) && Rolls(draws, k + 1)[k] == draws.roll(k);
  }

  /** The events, in the order of their offsets. */
  method Emit(cut: seq<Span>, order: seq<Drawn>, draws: Draws, activities: seq<Activity>) returns (es: seq<Event>)
    requires Ordered(cut) && cut != [] && activities != []
    requires forall i :: 0 <= i < |order| ==> order[i].0 < Total(cut)
    ensures |es| == |order|
    ensures forall i :: 0 <= i < |es| ==> es[i].offset == order[i].0 && es[i].number == i + 1 && IsAt(cut, es[i].offset, es[i].at)
    ensures forall i :: 0 <= i < |es| ==> es[i].activity == Performed(Rolls(draws, |es|), activities)[i]
  {
    hide Step;
    hide IsAt;
    hide Rolls;
    hide Total;
    hide Performed;
    hide StateAfter;
    es := [];
    var state := LoggedOut;
    StartsLoggedOut(draws, activities);
    for k := 0 to |order|
      invariant |es| == k && state == StateAfter(Rolls(draws, k), activities)
      invariant forall i :: 0 <= i < k ==> es[i].offset == order[i].0 && es[i].number == i + 1 && IsAt(cut, es[i].offset, es[i].at)
      invariant forall i :: 0 <= i < k ==> es[i].activity == Performed(Rolls(draws, k), activities)[i]
    {
      OneMoreRoll(draws, k, activities);
      var step := Step(state, draws.roll(k), activities);
      state := step.1;
      var at := OffsetToInstant(cut, order[k].0);
      es := es + [Event(k + 1, at, step.0, order[k].0)];
    }
  }

  lemma StartsLoggedOut(draws: Draws, activities: seq<Activity>)
    requires activities != []
    ensures StateAfter(Rolls(draws, 0), activities) == LoggedOut
    ensures forall n :: |Performed(Rolls(draws, n), activities)| == n
  {
  }

  /** `PersonaRuntime.schedule`. */
  method Schedule(p: Spec, window: Span, draws: Draws) returns (r: Result<seq<Event>, WindowError>, ghost segments: seq<Span>)
    requires ValidSpec(p)
    ensures r == Err(InvertedWindow) <==> window.end <= window.start
    ensures r == Err(WindowTooLong) <==> window.end - window.start > MAX_WINDOW_SPAN
    ensures r.Ok? ==> IsSchedule(r.value, segments, draws, window, p)
  {
    hide InHours;
    hide FromItsDay;
    hide IsAt;
    hide Performed;
    hide Rolls;
    segments := [];
    if window.end <= window.start {
      return Err(InvertedWindow), segments;
    }
    if window.end - window.start > MAX_WINDOW_SPAN {
      return Err(WindowTooLong), segments;
    }
    var cut := WorkingHourSegments(window, p);
    segments := cut;
    var total := Total(cut);
    if total <= 0 {
      return Ok([]), segments;
    }
    var n := 1 + draws.count % p.maxEvents;
    if n > p.maxEvents {
      n := p.maxEvents;
    }
    var offsets := DrawOffsets(draws, total, n);
    var order := SortDrawn(offsets);
    SortDrawnSorts(offsets);
    SortKeeps(order, offsets, draws, total, n);
    var es := Emit(cut, order, draws, p.activities);
    return Ok(es), segments;
  }

  lemma SortKeeps(order: seq<Drawn>, offsets: seq<Drawn>, draws: Draws, total: int, n: nat)
    requires total > 0 && offsets == AllDrawn(draws, total, n) && multiset(order) == multiset(offsets)
    ensures |order| == n && forall i :: 0 <= i < |order| ==> order[i].0 < total
  {
    assert |multiset(order)| == |order| && |multiset(offsets)| == |offsets|;
    forall i | 0 <= i < |order|
      ensures order[i].0 < total
    {
      assert order[i] in multiset(order);
      assert order[i] in offsets;
    }
  }
}
