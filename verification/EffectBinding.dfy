/** `_create_once` and `_bind_effect_once` (`runtime/mio_feedback.py`): racing binders of one decision
    agree on one effect id through a temporary file, a hard link and a read-back. */
module EffectBinding {
  import opened Common

  /** Where one `_bind_effect_once` call stands. `tmp` is the content of its own temporary file. */
  datatype Pc =
    | Filling(id: string, tmp: string)
    | Flushed(id: string, tmp: string)
    | Contended(id: string)               // the link already existed: read it back
    | Bound(id: string)                   // returned
    | Refused(id: string)                 // bound to another effect
    | Failed(id: string)                  // an I/O error was raised
    | Dead(id: string)

  /** The binding file under its final name, and whether its directory entry survives a crash. */
  datatype State = State(link: Option<string>, durable: bool, calls: map<nat, Pc>)

  datatype Step =
    | Begin(call: nat, id: string)        // O_EXCL on a fresh random temporary name
    | WriteSome(call: nat, n: nat)
    | Flush(call: nat)                    // flush and fsync of the whole content
    | Link(call: nat)                     // os.link: all or nothing
    | ReadBack(call: nat)
    | Error(call: nat)                    // any step may raise; the temporary file is unlinked
    | Writeback
    | Crash

  predicate Enabled(s: State, step: Step)
  {
    match step
    case Begin(c, _) => c !in s.calls
    case WriteSome(c, n) => c in s.calls && var p := s.calls[c]; p.Filling? && |p.tmp| + n <= |p.id|
    case Flush(c) => c in s.calls && var p := s.calls[c]; p.Filling? && p.tmp == p.id
    case Link(c) => c in s.calls && var p := s.calls[c]; p.Flushed?
    case ReadBack(c) => c in s.calls && var p := s.calls[c]; p.Contended? && s.link.Some?
    case Error(c) => c in s.calls && var p := s.calls[c]; p.Filling? || p.Flushed? || p.Contended?
    case Writeback => true
    case Crash => true
  }

  function Ended(p: Pc): Pc
  {
    if p.Filling? || p.Flushed? || p.Contended? then Dead(p.id) else p
  }

  function Apply(s: State, step: Step): State
    requires Enabled(s, step)
  {
    match step
    case Begin(c, id) => s.(calls := s.calls[c := Filling(id, "")])
    case WriteSome(c, n) =>
      var p := s.calls[c];
      s.(calls := s.calls[c := Filling(p.id, p.tmp + p.id[|p.tmp|..|p.tmp| + n])])
    case Flush(c) => s.(calls := s.calls[c := Flushed(s.calls[c].id, s.calls[c].tmp)])
    case Link(c) =>
      var p := s.calls[c];
      if s.link.Some? then s.(calls := s.calls[c := Contended(p.id)])
      else State(Some(p.tmp), false, s.calls[c := Bound(p.id)])
    case ReadBack(c) =>
      var p := s.calls[c];
      s.(calls := s.calls[c := if s.link.value == p.id then Bound(p.id) else Refused(p.id)])
    case Error(c) => s.(calls := s.calls[c := Failed(s.calls[c].id)])
    case Writeback => s.(durable := s.link.Some?)
    case Crash =>
      State(if s.durable then s.link else None, s.durable, map c | c in s.calls :: Ended(s.calls[c]))
  }

  const START := State(None, false, map[])

  ghost predicate Runs(s: State, steps: seq<Step>, t: State)
    decreases |steps|
  {
    if steps == [] then s == t
    else Enabled(s, steps[0]) && Runs(Apply(s, steps[0]), steps[1..], t)
  }

  /** Some binder of the run proposed this id. */
  ghost predicate Proposed(s: State, id: string)
  {
    exists c :: c in s.calls && s.calls[c].id == id
  }

  /** A linked file is complete and proposed; a flushed temporary file is complete. */
  ghost predicate Whole(s: State)
  {
    && (forall c :: c in s.calls && s.calls[c].Filling? ==> s.calls[c].tmp <= s.calls[c].id)
    && (forall c :: c in s.calls && s.calls[c].Flushed? ==> s.calls[c].tmp == s.calls[c].id)
    && (s.link.Some? ==> Proposed(s, s.link.value))
    && (s.durable ==> s.link.Some?)
  }

  /** Every successful bind agrees with the link. */
  ghost predicate Agreed(s: State)
  {
    forall c :: c in s.calls && s.calls[c].Bound? ==> s.link == Some(s.calls[c].id)
  }

  lemma StepKeepsProposed(s: State, step: Step, id: string)
    requires Enabled(s, step) && Proposed(s, id)
    ensures Proposed(Apply(s, step), id)
  {
    var c :| c in s.calls && s.calls[c].id == id;
    assert c in Apply(s, step).calls && Apply(s, step).calls[c].id == id;
  }

  lemma StepKeepsWhole(s: State, step: Step)
    requires Whole(s) && Enabled(s, step)
    ensures Whole(Apply(s, step))
  {
    var t := Apply(s, step);
    if step.WriteSome? {
      var p := s.calls[step.call];
      assert p.tmp + p.id[|p.tmp|..|p.tmp| + step.n] == p.id[..|p.tmp| + step.n];
    }
    if t.link.Some? {
      if s.link.Some? {
        StepKeepsProposed(s, step, s.link.value);
      } else {
        assert step.Link? && step.call in t.calls && t.calls[step.call].id == t.link.value;
      }
    }
  }

  lemma {:induction false} RunKeepsWhole(s: State, steps: seq<Step>, t: State)
    requires Whole(s) && Runs(s, steps, t)
    ensures Whole(t)
    ensures Agreed(s) && (s.durable || Crash !in steps) ==> Agreed(t)
    ensures s.durable ==> t.durable && t.link == s.link
    decreases |steps|
  {
    if steps != [] {
      StepKeepsWhole(s, steps[0]);
      RunKeepsWhole(Apply(s, steps[0]), steps[1..], t);
    }
  }

  /** Agreement. In every interleaving of racing binders and I/O errors, all binds that succeed for
      the decision carry the one linked effect id, which some binder proposed, and whatever a
      reader finds under the final name is such a whole id. */
  lemma BindersAgree(steps: seq<Step>, s: State)
    requires Runs(START, steps, s) && Crash !in steps
    ensures forall c, d :: c in s.calls && d in s.calls && s.calls[c].Bound? && s.calls[d].Bound? ==>
              s.calls[c].id == s.calls[d].id
    ensures s.link.Some? ==> Proposed(s, s.link.value)
    ensures forall c :: c in s.calls && s.calls[c].Bound? ==> s.link == Some(s.calls[c].id)
  {
    RunKeepsWhole(START, steps, s);
  }

  // ----- power loss: unlike the decision ledger, nothing syncs the directory after the link

  /** The crash and the second binder that takes another effect. */
  function Rebind(call: nat, id: string): seq<Step>
  {
    [Crash, Begin(call, id), WriteSome(call, |id|), Flush(call), Link(call)]
  }

  /** After crash-free racing in which some bind succeeded, a later bind of another effect id can
      succeed, crashes allowed, exactly when the link's directory entry is not yet durable. */
  lemma AnotherEffectPossibleIffNotDurable(before: seq<Step>, s: State, c: nat)
    requires Runs(START, before, s) && Crash !in before
    requires c in s.calls && s.calls[c].Bound?
    ensures (exists steps, t, d :: Runs(s, steps, t) && d in t.calls && t.calls[d].Bound? && t.calls[d].id != s.calls[c].id)
            <==> !s.durable
  {
    RunKeepsWhole(START, before, s);
    var id := s.calls[c].id;
    if s.durable {
      forall steps, t, d | Runs(s, steps, t) && d in t.calls && t.calls[d].Bound?
        ensures t.calls[d].id == id
      {
        RunKeepsWhole(s, steps, t);
      }
    } else {
      var other := id + "x";
      var call := Unused(s.calls.Keys);
      RebindSucceeds(s, call, other);
      var t :| Runs(s, Rebind(call, other), t) && call in t.calls && t.calls[call] == Bound(other);
      assert |other| == |id| + 1;
    }
  }

  lemma RebindSucceeds(s: State, call: nat, id: string)
    requires !s.durable && call !in s.calls
    ensures exists t :: Runs(s, Rebind(call, id), t) && call in t.calls && t.calls[call] == Bound(id)
  {
    var s1 := Apply(s, Crash);
    var s2 := Apply(s1, Begin(call, id));
    var s3 := Apply(s2, WriteSome(call, |id|));
    assert "" + id[0..|id|] == id;
    var s4 := Apply(s3, Flush(call));
    var s5 := Apply(s4, Link(call));
    assert Runs(s5, [], s5);
    assert [Link(call)][1..] == [];
    assert Runs(s4, [Link(call)], s5);
    assert [Flush(call), Link(call)][1..] == [Link(call)];
    assert Runs(s3, [Flush(call), Link(call)], s5);
    var r := Rebind(call, id);
    assert r[1..][1..][1..] == [Flush(call), Link(call)];
    assert Runs(s2, r[1..][1..], s5);
    assert Runs(s1, r[1..], s5);
    assert Runs(s, r, s5);
  }

  // ----- what one bind returns

  /** The rest of a call that has prepared its file, with nobody else in between: it links, and reads back
      what it finds when it may not. */
  function Conclude(s: State, call: nat): State
    requires Enabled(s, Link(call))
  {
    var t := Apply(s, Link(call));
    if Enabled(t, ReadBack(call)) then Apply(t, ReadBack(call)) else t
  }

  /** A prepared bind returns exactly when nothing is bound yet or the same effect already is; else it
      is refused. Then its effect is the bound one, and whoever bound before keeps theirs. */
  lemma BindsIff(before: seq<Step>, s: State, call: nat)
    requires Runs(START, before, s) && Enabled(s, Link(call))
    ensures var t, id := Conclude(s, call), s.calls[call].id;
            && (t.calls[call] == Bound(id) <==> s.link.None? || s.link == Some(id))
            && (t.calls[call] == Refused(id) <==> s.link.Some? && s.link != Some(id))
            && t.link == (if s.link.None? then Some(id) else s.link)
            && forall c :: c in s.calls && c != call ==> t.calls[c] == s.calls[c]
  {
    RunKeepsWhole(START, before, s);
  }

  /** Over every interleaving a refused bind found another effect linked, and one that returned bound its own;
      an error or a crash leaves the link as it was or gone with the directory entry. */
  lemma ReturnTells(before: seq<Step>, s: State, step: Step)
    requires Runs(START, before, s) && Enabled(s, step)
    ensures var t := Apply(s, step);
            && (forall c :: c in t.calls && t.calls[c].Refused? && !(c in s.calls && s.calls[c].Refused?) ==>
                  s.link.Some? && s.link.value != t.calls[c].id)
            && (forall c :: c in t.calls && t.calls[c].Bound? && !(c in s.calls && s.calls[c].Bound?) ==>
                  t.link == Some(t.calls[c].id))
            && (t.link != s.link ==> (step.Link? && s.link.None?) || (step.Crash? && !s.durable && t.link.None?))
  {
    RunKeepsWhole(START, before, s);
  }

  /** A call that has ended stays as it ended, each keeps its effect, and a new link lasts through a crash only
      once the directory was written back. */
  lemma EndedStays(s: State, step: Step)
    requires Enabled(s, step)
    ensures var t := Apply(s, step);
            && (forall c :: c in s.calls ==> c in t.calls && t.calls[c].id == s.calls[c].id)
            && (forall c :: c in s.calls && (s.calls[c].Bound? || s.calls[c].Refused? || s.calls[c].Failed?) ==>
                  t.calls[c] == s.calls[c])
            && (t.durable != s.durable ==> step.Writeback? || step.Link?)
            && (step.Link? && s.link.None? ==> !t.durable)
            && (step.Writeback? ==> t.link == s.link && (t.durable <==> t.link.Some?))
  {
  }

  /** A crash ends every call that had not ended, and keeps what the others returned. */
  lemma CrashEnds(s: State, c: nat)
    requires c in s.calls
    ensures var p, q := s.calls[c], Apply(s, Crash).calls[c];
            if p.Bound? || p.Refused? || p.Failed? || p.Dead? then q == p else q == Dead(p.id)
  {
  }
}
