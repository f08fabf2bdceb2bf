/** What every schedule promises, and that a schedule is fixed by its inputs. */
module PersonaSchedule {
  import opened Common
  import opened Persona

  ghost function Activities(es: seq<Event>): (r: seq<Activity>)
    ensures |r| == |es|
  {
    seq(|es|, i requires 0 <= i < |es| => es[i].activity)
  }

  lemma OffsetsAscend(es: seq<Event>, segments: seq<Span>, draws: Draws, window: Span, p: Spec)
    requires ValidSpec(p) && IsSchedule(es, segments, draws, window, p)
    ensures forall i, j :: 0 <= i < j < |es| ==> es[i].offset <= es[j].offset
  {
    hide IsCut;
    hide IsAt;
    hide Performed;
    hide SortDrawn;
    var total := Total(segments);
    if total > 0 {
      var order := SortDrawn(AllDrawn(draws, total, |es|));
      SortDrawnSorts(AllDrawn(draws, total, |es|));
      assert forall i, j :: 0 <= i < j < |es| ==> AtMost(order[i], order[j]);
    }
  }

  /** Every schedule stays within its bound, the window and the persona's working hours, runs forward in
      time with two events at one instant only where their offsets agree, keeps to the vocabulary, and
      its logins and logouts alternate for every vocabulary but the two degenerate ones. */
  lemma SchedulesArePlausible(es: seq<Event>, segments: seq<Span>, draws: Draws, window: Span, p: Spec)
    requires ValidSpec(p) && IsSchedule(es, segments, draws, window, p)
    ensures |es| <= p.maxEvents
    ensures forall i :: 0 <= i < |es| ==> InHours(es[i].at, window, p) && es[i].activity in p.activities
    ensures forall i, j :: 0 <= i < j < |es| ==> es[i].at <= es[j].at && (es[i].at == es[j].at <==> es[i].offset == es[j].offset)
    ensures Alternates(Activities(es)) <==>
            !(Only(p.activities, Login) && |es| >= 2) && !(Only(p.activities, Logout) && |es| >= 1)
  {
    hide InHours;
    hide Performed;
    hide Alternates;
    hide IsAt;
    hide Only;
    OffsetsAscend(es, segments, draws, window, p);
    var rolls := Rolls(draws, |es|);
    forall i | 0 <= i < |es|
      ensures InHours(es[i].at, window, p)
    {
      AtIsInside(segments, es[i].offset, es[i].at);
    }
    forall i, j | 0 <= i < j < |es|
      ensures es[i].at <= es[j].at && (es[i].at == es[j].at <==> es[i].offset == es[j].offset)
    {
      AtIncreases(segments, es[i].offset, es[j].offset, es[i].at, es[j].at);
    }
    PerformedAreDeclared(rolls, p.activities);
    assert Activities(es) == Performed(rolls, p.activities);
    AlternatesIff(rolls, p.activities);
  }

  /** A schedule is empty exactly when no segment of the window holds a whole second. */
  lemma EmptyIffNoWholeSecond(es: seq<Event>, segments: seq<Span>, draws: Draws, window: Span, p: Spec)
    requires ValidSpec(p) && IsSchedule(es, segments, draws, window, p)
    ensures es == [] <==> forall i :: 0 <= i < |segments| ==> segments[i].end - segments[i].start < SECOND
  {
    hide IsAt;
    hide Performed;
    NoWholeSecond(segments);
  }

  lemma {:induction false} NoWholeSecond(segments: seq<Span>)
    requires Ordered(segments)
    ensures Total(segments) >= 0
    ensures Total(segments) == 0 <==> forall i :: 0 <= i < |segments| ==> segments[i].end - segments[i].start < SECOND
  {
    if segments != [] {
      var front := segments[..|segments| - 1];
      NoWholeSecond(front);
      assert forall i :: 0 <= i < |front| ==> front[i] == segments[i];
    }
  }

  // ----- determined by its inputs

  lemma FirstCovers(segments: seq<Span>, t: int)
    requires Ordered(segments) && segments != []
    ensures Covered(segments[0].start, segments)
    ensures Covered(t, segments) ==> segments[0].start <= t
    ensures Covered(t, segments[1..]) <==> Covered(t, segments) && t >= segments[0].end
  {
    if i :| 0 <= i < |segments| && segments[i].start <= t < segments[i].end {
      if t >= segments[0].end {
        assert segments[1..][i - 1] == segments[i];
      }
    }
    if i :| 0 <= i < |segments[1..]| && segments[1..][i].start <= t < segments[1..][i].end {
      assert segments[i + 1] == segments[1..][i];
    }
  }

  lemma SameStart(s: Span, t: Span, window: Span, p: Spec)
    requires FromItsDay(s, window, p) && FromItsDay(t, window, p) && s.start == t.start
    ensures s == t
  {
  }

  /** There is one way to cut a window: the same instants covered, in order, day by day. */
  lemma {:induction false} CutsAreEqual(a: seq<Span>, b: seq<Span>, window: Span, p: Spec)
    requires Ordered(a) && Ordered(b) && forall t :: Covered(t, a) <==> Covered(t, b)
    requires forall i :: 0 <= i < |a| ==> FromItsDay(a[i], window, p)
    requires forall i :: 0 <= i < |b| ==> FromItsDay(b[i], window, p)
    ensures a == b
  {
    hide FromItsDay;
    if a == [] {
      if b != [] {
        FirstCovers(b, 0);
      }
    } else {
      FirstCovers(a, a[0].start);
      var i :| 0 <= i < |b| && b[i].start <= a[0].start < b[i].end;
      FirstCovers(b, a[0].start);
      FirstCovers(a, b[0].start);
      assert a[0].start == b[0].start;
      assert FromItsDay(a[0], window, p) && FromItsDay(b[0], window, p);
      SameStart(a[0], b[0], window, p);
      forall t
        ensures Covered(t, a[1..]) <==> Covered(t, b[1..])
      {
        FirstCovers(a, t);
        FirstCovers(b, t);
      }
      CutsAreEqual(a[1..], b[1..], window, p);
    }
  }

  /** The same persona, window and hashes give the same schedule, event for event. */
  lemma SchedulesAreReplayable(es: seq<Event>, segments: seq<Span>, es': seq<Event>, segments': seq<Span>,
                               draws: Draws, window: Span, p: Spec)
    requires ValidSpec(p)
    requires IsSchedule(es, segments, draws, window, p) && IsSchedule(es', segments', draws, window, p)
    ensures segments == segments' && es == es'
  {
    hide FromItsDay;
    hide InHours;
    hide IsAt;
    hide Performed;
    CutsAreEqual(segments, segments', window, p);
    assert |es| == |es'|;
    forall i | 0 <= i < |es|
      ensures es[i] == es'[i]
    {
      AtIncreases(segments, es[i].offset, es'[i].offset, es[i].at, es'[i].at);
    }
  }
}
