/** The collaborative signal record, its vocabularies and the inbound validator of the email wire format. */
module Signals {

  datatype Hazard = Wildfire | Earthquake | Flood | Landslide

  datatype DomainKind =
    | SpatialCell | ObservationArea | CameraSector | RiverReach | Catchment | Slope | MonitoredSite | UnknownDomain

  datatype ClockBand = Low | Medium | High | UnknownClock

  datatype SourceMode = Live | Fixture | Simulated | Replayed

  datatype Trust = FixtureQualified | EmailUnverified | AuthenticatedPeer | RejectedTrust | UnknownTrust

  datatype Domain = Domain(kind: DomainKind, id: string)

  datatype Signal = Signal(
    id: string,
    schemaVersion: string,
    pseudonym: string,
    hazard: Hazard,
    observation: string,
    domain: Domain,
    eventTime: int,
    clockBand: ClockBand,
    sourceMode: SourceMode,
    expiresAt: int)

  function AllowedDomainKinds(h: Hazard): set<DomainKind> {
    match h
    case Earthquake => {SpatialCell}
    case Wildfire => {ObservationArea, CameraSector}
    case Flood => {RiverReach, Catchment}
    case Landslide => {Slope, MonitoredSite}
  }

  function Observations(h: Hazard): set<string> {
    match h
    case Wildfire => {"possible_smoke", "persistent_smoke", "review_required", "smoke_observation_resolved"}
    case Earthquake => {"local_trigger", "earthquake_like_signal", "shaking_ended"}
    case Flood => {"rainfall_elevated", "water_rising", "threshold_approaching", "threshold_exceeded", "flooding_observed", "falling"}
    case Landslide => {"saturation_rising", "movement_anomaly", "review_required", "movement_observation_resolved"}
  }

  datatype Reason =
    | NoReason | SignalDuplicate | SchemaVersionUnsupported | SignalExpired | SourceModeReplayed | ObservationUnsupported
    | DomainUnknown | HazardDomainMismatch | PeerUntrusted | ClockUnsafe | SourceModeSimulated

  datatype Verdict = Verdict(accepted: bool, reason: Reason)

  /** `CollaborativeInboundValidator.validate`. */
  function Validate(s: Signal, receivedAt: int, trust: Trust, seen: set<string>): Verdict {
    if s.id in seen then Verdict(false, SignalDuplicate)
    else if s.schemaVersion != "1.0" then Verdict(false, SchemaVersionUnsupported)
    else if s.expiresAt <= receivedAt then Verdict(false, SignalExpired)
    else if s.sourceMode.Replayed? then Verdict(false, SourceModeReplayed)
    else if s.observation !in Observations(s.hazard) then Verdict(false, ObservationUnsupported)
    else if s.domain.kind.UnknownDomain? then Verdict(true, DomainUnknown)
    else if s.domain.kind !in AllowedDomainKinds(s.hazard) then Verdict(false, HazardDomainMismatch)
    else if trust.UnknownTrust? || trust.RejectedTrust? then Verdict(false, PeerUntrusted)
    else if s.hazard.Earthquake? && (s.clockBand.High? || s.clockBand.UnknownClock?) then Verdict(true, ClockUnsafe)
    else if s.sourceMode.Simulated? then Verdict(true, SourceModeSimulated)
    else Verdict(true, NoReason)
  }

  /** The observations a hazard may carry. */
  ghost predicate Observable(h: Hazard, observation: string) {
    match h
    case Wildfire =>
      || observation == "possible_smoke" || observation == "persistent_smoke" || observation == "review_required"
      || observation == "smoke_observation_resolved"
    case Earthquake =>
      observation == "local_trigger" || observation == "earthquake_like_signal" || observation == "shaking_ended"
    case Flood =>
      || observation == "rainfall_elevated" || observation == "water_rising" || observation == "threshold_approaching"
      || observation == "threshold_exceeded" || observation == "flooding_observed" || observation == "falling"
    case Landslide =>
      || observation == "saturation_rising" || observation == "movement_anomaly" || observation == "review_required"
      || observation == "movement_observation_resolved"
  }

  /** The place a hazard is observed at. */
  ghost predicate FitsDomain(h: Hazard, kind: DomainKind) {
    match kind
    case SpatialCell => h.Earthquake?
    case ObservationArea => h.Wildfire?
    case CameraSector => h.Wildfire?
    case RiverReach => h.Flood?
    case Catchment => h.Flood?
    case Slope => h.Landslide?
    case MonitoredSite => h.Landslide?
    case UnknownDomain => false
  }

  /** What a signal not seen before must be to be accepted. */
  ghost predicate Acceptable(s: Signal, receivedAt: int, trust: Trust) {
    && s.schemaVersion == "1.0"
    && receivedAt < s.expiresAt
    && s.sourceMode != Replayed
    && Observable(s.hazard, s.observation)
    && (s.domain.kind == UnknownDomain || (FitsDomain(s.hazard, s.domain.kind) && trust != UnknownTrust && trust != RejectedTrust))
  }

  lemma ObservableIff(h: Hazard, observation: string)
    ensures observation in Observations(h) <==> Observable(h, observation)
  {
  }

  lemma DomainIff(h: Hazard, kind: DomainKind)
    ensures kind in AllowedDomainKinds(h) <==> FitsDomain(h, kind)
  {
  }

  /** A signal is accepted exactly when it is unseen and acceptable; an accepted one carries the first caveat that applies. */
  lemma AcceptedIff(s: Signal, receivedAt: int, trust: Trust, seen: set<string>)
    ensures var v := Validate(s, receivedAt, trust, seen);
            && (v.accepted <==> s.id !in seen && Acceptable(s, receivedAt, trust))
            && (v.accepted ==>
                  v.reason ==
                  if s.domain.kind == UnknownDomain then DomainUnknown
                  else if s.hazard == Earthquake && (s.clockBand == High || s.clockBand == UnknownClock) then ClockUnsafe
                  else if s.sourceMode == Simulated then SourceModeSimulated
                  else NoReason)
  {
    ObservableIff(s.hazard, s.observation);
    DomainIff(s.hazard, s.domain.kind);
  }

  /** A refusal names the first requirement that fails. */
  lemma RefusedBecause(s: Signal, receivedAt: int, trust: Trust, seen: set<string>)
    requires !Validate(s, receivedAt, trust, seen).accepted
    ensures Validate(s, receivedAt, trust, seen).reason ==
            if s.id in seen then SignalDuplicate
            else if s.schemaVersion != "1.0" then SchemaVersionUnsupported
            else if receivedAt >= s.expiresAt then SignalExpired
            else if s.sourceMode == Replayed then SourceModeReplayed
            else if !Observable(s.hazard, s.observation) then ObservationUnsupported
            else if !FitsDomain(s.hazard, s.domain.kind) then HazardDomainMismatch
            else PeerUntrusted
  {
    ObservableIff(s.hazard, s.observation);
    DomainIff(s.hazard, s.domain.kind);
  }
}
