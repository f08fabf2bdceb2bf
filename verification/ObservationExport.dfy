/** `runtime/observation_export.py`: the observations of a log in append order, and the
    incremental cursor over them. */
module ObservationExport {
  import opened Common
  import opened Events

  /** Invalid is Fabric's model refusing a stored record; NoSuchCursor the stale-cursor ValueError. */
  datatype ExportError = Invalid | NoSuchCursor

  function Export(log: seq<Event>): Result<seq<Observation>, ExportError>
  {
    if log == [] then Ok([])
    else
      match Export(log[..|log| - 1])
      case Err(e) => Err(e)
      case Ok(before) =>
        match log[|log| - 1]
        case Interaction(o) => Ok(before + [o])
        case BadInteraction => Err(Invalid)
        case Lifecycle(_, _, _, _, _) => Ok(before)
        case Drift(_, _, _, _) => Ok(before)
  }

  /** `export_observations`: one pass over the log, skipping every other schema. */
  method ExportObservations(log: seq<Event>) returns (r: Result<seq<Observation>, ExportError>)
    ensures r == Export(log)
  {
    var observations: seq<Observation> := [];
    for k := 0 to |log|
      invariant Export(log[..k]) == Ok(observations)
    {
      assert log[..k + 1][..k] == log[..k];
      if log[k].BadInteraction? {
        InvalidStays(log, k + 1);
        return Err(Invalid);
      }
      if log[k].Interaction? {
        observations := observations + [log[k].obs];
      }
    }
    assert log[..|log|] == log;
    return Ok(observations);
  }

  lemma {:induction false} InvalidStays(log: seq<Event>, k: nat)
    requires k <= |log| && Export(log[..k]) == Err(Invalid)
    ensures Export(log) == Err(Invalid)
    decreases |log|
  {
    if k < |log| {
      assert log[..|log| - 1][..k] == log[..k];
      InvalidStays(log[..|log| - 1], k);
    } else {
      assert log[..k] == log;
    }
  }

  /** Where the cursor id stands first; its position is one past that. */
  function FirstAt(obs: seq<Observation>, id: string): (i: nat)
    ensures i <= |obs|
    ensures i < |obs| ==> obs[i].id == id
    ensures forall j :: 0 <= j < i ==> obs[j].id != id
  {
    if obs == [] then 0
    else if obs[0].id == id then 0
    else
      assert forall j :: 0 < j < |obs| ==> obs[j] == obs[1..][j - 1];
      1 + FirstAt(obs[1..], id)
  }

  /** `observations_since`: a positional cut after the first record with the cursor's id. */
  method ObservationsSince(log: seq<Event>, after: Option<string>) returns (r: Result<seq<Observation>, ExportError>)
    ensures r == Since(log, after)
  {
    var exported := ExportObservations(log);
    if exported.Err? {
      return Err(exported.error);
    }
    var observations := exported.value;
    if after.None? {
      return Ok(observations);
    }
    for index := 0 to |observations|
      invariant forall j :: 0 <= j < index ==> observations[j].id != after.value
    {
      if observations[index].id == after.value {
        return Ok(observations[index + 1..]);
      }
    }
    return Err(NoSuchCursor);
  }

  function Since(log: seq<Event>, after: Option<string>): Result<seq<Observation>, ExportError>
  {
    match Export(log)
    case Err(e) => Err(e)
    case Ok(obs) =>
      if after.None? then Ok(obs)
      else
        var i := FirstAt(obs, after.value);
        if i < |obs| then Ok(obs[i + 1..]) else Err(NoSuchCursor)
  }

  // ----- polling

  ghost predicate DistinctIds(obs: seq<Observation>)
  {
    forall i, j :: 0 <= i < j < |obs| ==> obs[i].id != obs[j].id
  }

  lemma {:induction false} ExportGrows(log: seq<Event>, more: seq<Event>)
    requires Export(log + more).Ok?
    ensures Export(log).Ok? && Export(log).value <= Export(log + more).value
    decreases |more|
  {
    if more == [] {
      assert log + more == log;
    } else {
      assert (log + more)[..|log + more| - 1] == log + more[..|more| - 1];
      ExportGrows(log, more[..|more| - 1]);
    }
  }

  /** Polling a grown log with the id of the last observation already delivered returns exactly
      what was not delivered yet if and only if that id did not occur before its own record. */
  lemma NextPollIsTheRestIff(log: seq<Event>, more: seq<Event>)
    requires Export(log + more).Ok? && Export(log).Ok? && Export(log).value != []
    ensures var seen := Export(log).value;
            var last := seen[|seen| - 1].id;
            && Export(log).value <= Export(log + more).value
            && (Since(log + more, Some(last)) == Ok(Export(log + more).value[|seen|..])
                <==> forall j :: 0 <= j < |seen| - 1 ==> seen[j].id != last)
  {
    ExportGrows(log, more);
    var seen := Export(log).value;
    var all := Export(log + more).value;
    var last := seen[|seen| - 1].id;
    assert all[|seen| - 1] == seen[|seen| - 1];
    var i := FirstAt(all, last);
    assert i <= |seen| - 1;
    assert all[i] == seen[i];
    if i < |seen| - 1 {
      assert |all[i + 1..]| > |all[|seen|..]|;
    }
  }

  /** The log at each poll extends the log at the poll before. */
  ghost predicate Growing(logs: seq<seq<Event>>)
  {
    forall i :: 0 < i < |logs| ==> logs[i - 1] <= logs[i]
  }

  function Cursor(delivered: seq<Observation>): Option<string>
  {
    if delivered == [] then None else Some(delivered[|delivered| - 1].id)
  }

  /** What a relay that polls with the last delivered id has received after all the polls. */
  function Delivered(logs: seq<seq<Event>>): Result<seq<Observation>, ExportError>
  {
    if logs == [] then Ok([])
    else
      match Delivered(logs[..|logs| - 1])
      case Err(e) => Err(e)
      case Ok(before) =>
        match Since(logs[|logs| - 1], Cursor(before))
        case Err(e) => Err(e)
        case Ok(unseen) => Ok(before + unseen)
  }

  lemma PollStep(log: seq<Event>, longer: seq<Event>)
    requires log <= longer && Export(longer).Ok? && DistinctIds(Export(longer).value)
    ensures Export(log).Ok? && Export(log).value <= Export(longer).value
    ensures DistinctIds(Export(log).value)
    ensures Since(longer, Cursor(Export(log).value)) == Ok(Export(longer).value[|Export(log).value|..])
  {
    hide Export;
    var more := longer[|log|..];
    assert log + more == longer;
    ExportGrows(log, more);
    var seen, all := Export(log).value, Export(longer).value;
    assert forall j :: 0 <= j < |seen| ==> seen[j] == all[j];
    if seen == [] {
      assert all[|seen|..] == all;
    } else {
      NextPollIsTheRestIff(log, more);
    }
  }

  /** Polling delivers every observation exactly once and in order, however the polls fall. */
  lemma {:induction false} PollingDeliversOnceInOrder(logs: seq<seq<Event>>)
    requires logs != [] && Growing(logs)
    requires Export(logs[|logs| - 1]).Ok? && DistinctIds(Export(logs[|logs| - 1]).value)
    ensures Delivered(logs) == Export(logs[|logs| - 1])
  {
    hide Export;
    hide Since;
    var k := |logs| - 1;
    if k == 0 {
      assert Delivered(logs[..k]) == Ok([]);
      FirstPoll(logs[0]);
    } else {
      assert logs[k - 1] <= logs[k];
      PollStep(logs[k - 1], logs[k]);
      assert logs[..k][|logs[..k]| - 1] == logs[k - 1];
      PollingDeliversOnceInOrder(logs[..k]);
      var seen, all := Export(logs[k - 1]).value, Export(logs[k]).value;
      assert seen + all[|seen|..] == all;
    }
  }

  lemma FirstPoll(log: seq<Event>)
    requires Export(log).Ok?
    ensures Since(log, Cursor([])) == Export(log)
    ensures [] + Export(log).value == Export(log).value
  {
  }
}
