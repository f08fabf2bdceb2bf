/** The record the lab assembles and the two threads that produced it, together: which evidence each
    sample was read from. */
module So08Evidence {
  import opened Common
  import opened Events
  import opened So08Lab
  import DriftLab

  /** At this state of the two threads the harness took the pass's record: of its kind and past the
      position noted before the injection. */
  ghost predicate TakenAt(s: DriftLab.State, p: Place, read: Readback)
  {
    && DriftLab.Injecting(s) && s.harness.kind == p.0
    && s.after <= read.seqNo < |s.log| && s.log[read.seqNo].kind == p.0
  }

  /** The passes at these places were made during one run of the threads, the `j`-th of them being its
      injection number `j + 1`. */
  ghost predicate MadeDuring(w: DriftLab.Wait, places: seq<Place>, script: Script, states: seq<DriftLab.State>)
  {
    && AllRecorded(places, script) && |states| == |places|
    && (forall j :: 0 <= j < |places| ==> DriftLab.Reachable(states[j], w) && states[j].injections == j + 1)
    && (forall i, j :: 0 <= i < j < |places| ==> states[i].log <= states[j].log)
    && forall j :: 0 <= j < |places| && script(places[j]).read.Some? ==> TakenAt(states[j], places[j], script(places[j]).read.value)
  }

  /** With a sufficient wait every sample of the lab's record was read from a drift record whose detector
      sample was taken after that sample's own injection and before the next, so no two samples share
      a record. */
  lemma SamplesHaveTheirOwnEvidence(w: DriftLab.Wait, places: seq<Place>, script: Script, states: seq<DriftLab.State>)
    requires DriftLab.WaitsEnough(w) && MadeDuring(w, places, script, states)
    ensures forall j :: 0 <= j < |places| && script(places[j]).read.Some? ==>
              states[j].log[script(places[j]).read.value.seqNo].stamp == j + 1
    ensures forall i, j :: 0 <= i < j < |places| && script(places[i]).read.Some? && script(places[j]).read.Some? ==>
              script(places[i]).read.value.seqNo != script(places[j]).read.value.seqNo
  {
    forall j | 0 <= j < |places| && script(places[j]).read.Some?
      ensures states[j].log[script(places[j]).read.value.seqNo].stamp == j + 1
    {
      DriftLab.SufficientWaitIsSound(states[j], w);
    }
    forall i, j | 0 <= i < j < |places| && script(places[i]).read.Some? && script(places[j]).read.Some?
      ensures script(places[i]).read.value.seqNo != script(places[j]).read.value.seqNo
    {
      var n := script(places[i]).read.value.seqNo;
      assert states[i].log <= states[j].log && TakenAt(states[i], places[i], script(places[i]).read.value);
      assert states[j].log[n] == states[i].log[n];
    }
  }
}
