/** What the evidence log and the state file hold, as the runtime modules write them.
    An absent string field is "" (every reader takes `get(...) or ""`); times are integers. */
module Events {

  datatype EnvState = Active | Failed | KillSwitchFailed | Terminated | Reset

  datatype StateRecord = StateRecord(env: string, state: EnvState, packageId: string,
                                     packageDigest: string, nodeId: string, decisionId: string)

  /** `metadata.stage` of a failure event. */
  datatype Stage = ActivationStage | TerminationStage | DriftStage | NoStage

  datatype DriftKind = RouteToProtected | PublishedPort | CapabilityRegranted

  /** Where a kind stands among the declared ones. */
  function Rank(k: DriftKind): nat
  {
    match k
    case RouteToProtected => 0
    case PublishedPort => 1
    case CapabilityRegranted => 2
  }

  datatype Kind = WasActivated | WasTerminated | ResetCompleted | Failure(stage: Stage)

  datatype Observation = Observation(id: string, env: string, packageId: string, nodeId: string,
                                     cls: string, surface: string, confounders: seq<string>,
                                     refs: seq<string>, at: int, outsideLease: bool, size: nat)

  /** `BadInteraction` has the observation schema but Fabric's model refuses it. */
  datatype Event =
    | Lifecycle(kind: Kind, env: string, decision: string, reason: string, at: int)
    | Drift(eventId: string, drift: DriftKind, finding: string, envState: string)
    | Interaction(obs: Observation)
    | BadInteraction

  /** `event_type` and `metadata.stage`, for the events that have them. */
  predicate IsKind(e: Event, k: Kind)
  {
    match e
    case Lifecycle(kind, _, _, _, _) => kind == k
    case Drift(_, _, _, _) => k == Failure(DriftStage)
    case Interaction(_) => false
    case BadInteraction => false
  }
}
