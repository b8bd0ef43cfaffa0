/** The hazard correlation policy: which signals count, how many independent peers there are, and which action follows. */
module Correlation {
  import opened Basics
  import opened Signals

  datatype Action = NoAction | ContextOnly | CreateReviewIncident | UpdateIncident | MultiNodeTrigger

  datatype HazardPolicy = HazardPolicy(
    domainKinds: set<DomainKind>,
    windowSeconds: int,
    minPeers: int,
    allowedObservations: set<string>,
    emailAction: Action,
    fixtureAction: Action,
    clockLimit: Option<ClockBand>)

  /** A loaded policy covers exactly the four hazards. */
  type Policy = Hazard -> HazardPolicy

  datatype Why =
    | Expired | WasReplayed | UnknownKind | KindMismatch | ObservationIneligible | UnsafeClock | KeyMismatch | OutsideWindow
    | PeersMissing | AuthenticatedUnqualified | Untrusted | ContextInput
    | PeersMet | DomainMatch | WindowMatch | EmailReviewOnly | FixtureSimulation

  /** The incident a decision names: derived from the correlation key, or whatever the incident writer answered. */
  datatype IncidentId = ForKey(hazard: Hazard, domain: Domain) | FromWriter(id: string)

  datatype Decision = Decision(
    hazard: Hazard,
    domain: Domain,
    windowStart: int,
    windowEnd: int,
    candidates: seq<string>,
    accepted: seq<string>,
    rejected: seq<string>,
    peerCount: nat,
    action: Action,
    positive: seq<Why>,
    blocking: seq<Why>,
    incident: Option<IncidentId>)

  datatype Evaluation = Evaluated(decision: Decision) | RequiresSignal

  function ClockRank(b: ClockBand): int {
    match b
    case Low => 0
    case Medium => 1
    case High => 2
    case UnknownClock => 3
  }

  predicate ClockSafe(s: Signal, policy: Policy) {
    var limit := policy(s.hazard).clockLimit;
    limit.Some? ==> ClockRank(s.clockBand) <= ClockRank(limit.value)
  }

  predicate SameKey(a: Signal, b: Signal) {
    a.hazard == b.hazard && a.domain == b.domain
  }

  predicate InWindow(s: Signal, anchor: Signal, policy: Policy) {
    var w := policy(anchor.hazard).windowSeconds;
    anchor.eventTime - w <= s.eventTime <= anchor.eventTime + w
  }

  predicate Strong(a: Action) {
    a.CreateReviewIncident? || a.UpdateIncident? || a.MultiNodeTrigger?
  }

  // ---- Reasons, step by step as the policy lists them ----

  function When(c: bool, w: Why): seq<Why> {
    if c then [w] else []
  }

  function TimeReasons(s: Signal, now: int): seq<Why> {
    When(s.expiresAt <= now, Expired) + When(s.sourceMode.Replayed?, WasReplayed)
  }

  function DomainReasons(s: Signal, policy: Policy): seq<Why> {
    if s.domain.kind.UnknownDomain? then [UnknownKind]
    else When(s.domain.kind !in policy(s.hazard).domainKinds, KindMismatch)
  }

  function QualityReasons(s: Signal, policy: Policy): seq<Why> {
    When(s.observation !in policy(s.hazard).allowedObservations, ObservationIneligible) + When(!ClockSafe(s, policy), UnsafeClock)
  }

  function SignalReasons(s: Signal, now: int, policy: Policy): seq<Why> {
    TimeReasons(s, now) + DomainReasons(s, policy) + QualityReasons(s, policy)
  }

  function Reasons(s: Signal, anchor: Signal, now: int, policy: Policy): seq<Why> {
    SignalReasons(s, now, policy)
    + When(!SameKey(s, anchor), KeyMismatch)
    + When(!InWindow(s, anchor, policy), OutsideWindow)
  }

  /** `validate_signal`. */
  method ValidateSignal(s: Signal, now: int, policy: Policy) returns (reasons: seq<Why>)
    ensures reasons == SignalReasons(s, now, policy)
  {
    reasons := [];
    var hp := policy(s.hazard);
    if s.expiresAt <= now {
      reasons := reasons + [Expired];
    }
    if s.sourceMode.Replayed? {
      reasons := reasons + [WasReplayed];
    }
    assert reasons == TimeReasons(s, now);
    if s.domain.kind.UnknownDomain? {
      reasons := reasons + [UnknownKind];
    } else if s.domain.kind !in hp.domainKinds {
      reasons := reasons + [KindMismatch];
    }
    ghost var soFar := TimeReasons(s, now) + DomainReasons(s, policy);
    assert reasons == soFar;
    if s.observation !in hp.allowedObservations {
      reasons := reasons + [ObservationIneligible];
    }
    if hp.clockLimit.Some? {
      if ClockRank(s.clockBand) > ClockRank(hp.clockLimit.value) {
        reasons := reasons + [UnsafeClock];
      }
    }
    assert reasons == soFar + QualityReasons(s, policy);
  }

  // ---- What the signals amount to ----

  /** Everything the policy asks of a peer except clock quality. */
  predicate Relevant(s: Signal, anchor: Signal, now: int, policy: Policy) {
    && SameKey(s, anchor) && InWindow(s, anchor, policy)
    && s.expiresAt > now && !s.sourceMode.Replayed?
    && !s.domain.kind.UnknownDomain? && s.domain.kind in policy(s.hazard).domainKinds
    && s.observation in policy(s.hazard).allowedObservations
  }

  predicate Eligible(s: Signal, anchor: Signal, now: int, policy: Policy) {
    Relevant(s, anchor, now, policy) && ClockSafe(s, policy)
  }

  /** When the policy lists a reason against a signal. */
  ghost predicate Applies(w: Why, s: Signal, anchor: Signal, now: int, policy: Policy) {
    match w
    case Expired => s.expiresAt <= now
    case WasReplayed => s.sourceMode.Replayed?
    case UnknownKind => s.domain.kind.UnknownDomain?
    case KindMismatch => !s.domain.kind.UnknownDomain? && s.domain.kind !in policy(s.hazard).domainKinds
    case ObservationIneligible => s.observation !in policy(s.hazard).allowedObservations
    case UnsafeClock => !ClockSafe(s, policy)
    case KeyMismatch => !SameKey(s, anchor)
    case OutsideWindow => !InWindow(s, anchor, policy)
    case _ => false
  }

  lemma SignalReasonMembers(s: Signal, anchor: Signal, now: int, policy: Policy, w: Why)
    ensures w in SignalReasons(s, now, policy) <==> !w.KeyMismatch? && !w.OutsideWindow? && Applies(w, s, anchor, now, policy)
  {
    var time, domain, quality := TimeReasons(s, now), DomainReasons(s, policy), QualityReasons(s, policy);
    GroupMembers(s, anchor, now, policy, w);
    assert w in time + domain + quality <==> w in time || w in domain || w in quality;
  }

  lemma GroupMembers(s: Signal, anchor: Signal, now: int, policy: Policy, w: Why)
    ensures w in TimeReasons(s, now) <==> (w.Expired? || w.WasReplayed?) && Applies(w, s, anchor, now, policy)
    ensures w in DomainReasons(s, policy) <==> (w.UnknownKind? || w.KindMismatch?) && Applies(w, s, anchor, now, policy)
    ensures w in QualityReasons(s, policy) <==>
            (w.ObservationIneligible? || w.UnsafeClock?) && Applies(w, s, anchor, now, policy)
  {
  }

  lemma ReasonMembers(s: Signal, anchor: Signal, now: int, policy: Policy, w: Why)
    ensures w in Reasons(s, anchor, now, policy) <==> Applies(w, s, anchor, now, policy)
  {
    SignalReasonMembers(s, anchor, now, policy, w);
    var key, window := When(!SameKey(s, anchor), KeyMismatch), When(!InWindow(s, anchor, policy), OutsideWindow);
    var own := SignalReasons(s, now, policy);
    assert Reasons(s, anchor, now, policy) == own + key + window;
    assert w in own + key + window <==> w in own || w in key || w in window;
  }

  /** A signal has no reason against it exactly when it is eligible, and none but its clock exactly when it is relevant. */
  lemma ReasonsMeaning(s: Signal, anchor: Signal, now: int, policy: Policy)
    ensures Reasons(s, anchor, now, policy) == [] <==> Eligible(s, anchor, now, policy)
    ensures UnsafeClock in Reasons(s, anchor, now, policy) <==> !ClockSafe(s, policy)
    ensures (forall w :: w in Reasons(s, anchor, now, policy) ==> w == UnsafeClock) <==> Relevant(s, anchor, now, policy)
  {
    AppliesMeaning(s, anchor, now, policy);
    var r := Reasons(s, anchor, now, policy);
    forall w ensures w in r <==> Applies(w, s, anchor, now, policy) {
      ReasonMembers(s, anchor, now, policy, w);
    }
    if r != [] {
      assert Applies(r[0], s, anchor, now, policy) by {
        assert r[0] in r;
      }
    }
  }

  lemma AppliesMeaning(s: Signal, anchor: Signal, now: int, policy: Policy)
    ensures (forall w :: !Applies(w, s, anchor, now, policy)) <==> Eligible(s, anchor, now, policy)
    ensures (forall w :: Applies(w, s, anchor, now, policy) ==> w == UnsafeClock) <==> Relevant(s, anchor, now, policy)
  {
    var p := w => Applies(w, s, anchor, now, policy);
    assert p(Expired) == (s.expiresAt <= now);
    assert p(WasReplayed) == s.sourceMode.Replayed?;
    assert p(UnknownKind) == s.domain.kind.UnknownDomain?;
    assert p(KindMismatch) == (!s.domain.kind.UnknownDomain? && s.domain.kind !in policy(s.hazard).domainKinds);
    assert p(ObservationIneligible) == (s.observation !in policy(s.hazard).allowedObservations);
    assert p(UnsafeClock) == !ClockSafe(s, policy);
    assert p(KeyMismatch) == !SameKey(s, anchor);
    assert p(OutsideWindow) == !InWindow(s, anchor, policy);
  }

  // ---- The evaluation ----

  function Keep(signals: seq<Signal>, p: Signal -> bool): (r: seq<Signal>)
    ensures |r| <= |signals|
    ensures forall s :: s in r <==> s in signals && p(s)
  {
    if signals == [] then []
    else
      var front := Keep(signals[..|signals| - 1], p);
      if p(signals[|signals| - 1]) then front + [signals[|signals| - 1]] else front
  }

  function Ids(signals: seq<Signal>): (r: seq<string>)
    ensures |r| == |signals| && forall i :: 0 <= i < |r| ==> r[i] == signals[i].id
  {
    seq(|signals|, i requires 0 <= i < |signals| => signals[i].id)
  }

  /** What `f` says about the signals, one after another. */
  function Listed(signals: seq<Signal>, f: Signal -> seq<Why>): (r: seq<Why>)
    ensures forall w :: w in r <==> exists s :: s in signals && w in f(s)
  {
    if signals == [] then []
    else
      var front, last := signals[..|signals| - 1], signals[|signals| - 1];
      assert forall s :: s in signals <==> s in front || s == last;
      Listed(front, f) + f(last)
  }

  function AllReasons(signals: seq<Signal>, anchor: Signal, now: int, policy: Policy): seq<Why> {
    Listed(signals, (s: Signal) => Reasons(s, anchor, now, policy))
  }

  /** `list(dict.fromkeys(..))`: first occurrences, in order. */
  function Dedup(s: seq<Why>): (r: seq<Why>)
    ensures forall w :: w in r <==> w in s
    ensures forall i, j :: 0 <= i < j < |r| ==> r[i] != r[j]
  {
    if s == [] then []
    else
      var front := Dedup(s[..|s| - 1]);
      if s[|s| - 1] in front then front else front + [s[|s| - 1]]
  }

  /** The pseudonyms that count towards independence; one peer counts once. */
  function Peers(signals: seq<Signal>, anchor: Signal, now: int, policy: Policy): set<string> {
    set s | s in signals && Relevant(s, anchor, now, policy) :: s.pseudonym
  }

  /** What a qualified correlation leads to at each level of transport trust. */
  function Granted(trust: Trust, hp: HazardPolicy): Action {
    match trust
    case EmailUnverified => hp.emailAction
    case FixtureQualified => hp.fixtureAction
    case AuthenticatedPeer => CreateReviewIncident
    case _ => NoAction
  }

  function GrantPositive(trust: Trust): seq<Why> {
    When(trust.EmailUnverified?, EmailReviewOnly) + When(trust.FixtureQualified?, FixtureSimulation)
  }

  function GrantBlocking(trust: Trust): seq<Why> {
    When(trust.AuthenticatedPeer?, AuthenticatedUnqualified) + When(trust.RejectedTrust? || trust.UnknownTrust?, Untrusted)
  }

  predicate Enough(signals: seq<Signal>, now: int, policy: Policy)
    requires signals != []
  {
    |Peers(signals, signals[0], now, policy)| >= policy(signals[0].hazard).minPeers
  }

  predicate Qualified(signals: seq<Signal>, now: int, policy: Policy)
    requires signals != []
  {
    && !signals[0].domain.kind.UnknownDomain?
    && Enough(signals, now, policy)
    && forall s :: s in signals ==> ClockSafe(s, policy)
  }

  function ActionOf(signals: seq<Signal>, now: int, trust: Trust, policy: Policy): Action
    requires signals != []
  {
    if signals[0].domain.kind.UnknownDomain? then ContextOnly
    else if Qualified(signals, now, policy) then Granted(trust, policy(signals[0].hazard))
    else NoAction
  }

  /** The decision in terms of what the signals are; `EvaluateCorrelation` is how it is computed. */
  function Evaluate(signals: seq<Signal>, now: int, trust: Trust, policy: Policy): Evaluation {
    if signals == [] then RequiresSignal
    else
      var anchor := signals[0];
      var unknown, qualified := anchor.domain.kind.UnknownDomain?, Qualified(signals, now, policy);
      Evaluated(Assemble(
        signals,
        policy(anchor.hazard).windowSeconds,
        Ids(Keep(signals, (s: Signal) => Eligible(s, anchor, now, policy))),
        Ids(Keep(signals, (s: Signal) => !Eligible(s, anchor, now, policy))),
        |Peers(signals, anchor, now, policy)|,
        ActionOf(signals, now, trust, policy),
        (if Enough(signals, now, policy) then [PeersMet, DomainMatch, WindowMatch] else [])
        + (if qualified then GrantPositive(trust) else []),
        AllReasons(signals, anchor, now, policy)
        + When(!Enough(signals, now, policy), PeersMissing)
        + (if unknown then [UnknownKind] else if qualified then GrantBlocking(trust) else [])))
  }

  lemma ClockInReasons(signals: seq<Signal>, anchor: Signal, now: int, policy: Policy)
    ensures UnsafeClock in AllReasons(signals, anchor, now, policy) <==> exists s :: s in signals && !ClockSafe(s, policy)
  {
    forall s ensures UnsafeClock in Reasons(s, anchor, now, policy) <==> !ClockSafe(s, policy) {
      ReasonMembers(s, anchor, now, policy, UnsafeClock);
    }
    var f := (s: Signal) => Reasons(s, anchor, now, policy);
    assert forall s :: UnsafeClock in f(s) <==> !ClockSafe(s, policy);
  }

  lemma KeepAppend(signals: seq<Signal>, s: Signal, p: Signal -> bool)
    ensures Keep(signals + [s], p) == Keep(signals, p) + (if p(s) then [s] else [])
  {
    assert (signals + [s])[..|signals|] == signals;
  }

  lemma ListedAppend(signals: seq<Signal>, s: Signal, f: Signal -> seq<Why>)
    ensures Listed(signals + [s], f) == Listed(signals, f) + f(s)
  {
    assert (signals + [s])[..|signals|] == signals;
  }

  /** The tests of the loop as values, so that it can be reasoned about without their definitions. */
  datatype Tests = Tests(eligible: Signal -> bool, ineligible: Signal -> bool, relevant: Signal -> bool,
                         reasons: Signal -> seq<Why>)

  ghost predicate AreTests(t: Tests, anchor: Signal, now: int, policy: Policy) {
    && (forall s {:trigger Eligible(s, anchor, now, policy)} ::
          t.eligible(s) == Eligible(s, anchor, now, policy) && t.ineligible(s) == !Eligible(s, anchor, now, policy))
    && (forall s {:trigger Relevant(s, anchor, now, policy)} :: t.relevant(s) == Relevant(s, anchor, now, policy))
    && (forall s {:trigger Reasons(s, anchor, now, policy)} :: t.reasons(s) == Reasons(s, anchor, now, policy))
  }

  /** The reasons against one signal, and whether any is not about its clock. */
  method Classify(s: Signal, anchor: Signal, now: int, policy: Policy, ghost t: Tests)
    returns (reasons: seq<Why>, nonClock: bool)
    requires AreTests(t, anchor, now, policy)
    ensures reasons == t.reasons(s)
    ensures (reasons == []) == t.eligible(s) == !t.ineligible(s)
    ensures !nonClock == t.relevant(s)
  {
    reasons := ReasonsFor(s, anchor, now, policy);
    nonClock := OtherThanClock(reasons);
    ReasonsMeaning(s, anchor, now, policy);
  }

  /** The loop of `evaluate_correlation`. */
  method SiftLoop(signals: seq<Signal>, anchor: Signal, now: int, policy: Policy, ghost t: Tests)
    returns (accepted: seq<Signal>, rejected: seq<Signal>, peerCandidates: seq<Signal>, blocking: seq<Why>)
    requires AreTests(t, anchor, now, policy)
    ensures accepted == Keep(signals, t.eligible)
    ensures rejected == Keep(signals, t.ineligible)
    ensures peerCandidates == Keep(signals, t.relevant)
    ensures blocking == Listed(signals, t.reasons)
  {
    accepted, rejected, peerCandidates, blocking := [], [], [], [];
    for i := 0 to |signals|
      invariant accepted == Keep(signals[..i], t.eligible)
      invariant rejected == Keep(signals[..i], t.ineligible)
      invariant peerCandidates == Keep(signals[..i], t.relevant)
      invariant blocking == Listed(signals[..i], t.reasons)
    {
      var s := signals[i];
      var reasons, nonClock := Classify(s, anchor, now, policy, t);
      assert signals[..i + 1] == signals[..i] + [s];
      KeepAppend(signals[..i], s, t.eligible);
      KeepAppend(signals[..i], s, t.ineligible);
      KeepAppend(signals[..i], s, t.relevant);
      ListedAppend(signals[..i], s, t.reasons);
      if !nonClock {
        peerCandidates := peerCandidates + [s];
      }
      if reasons != [] {
        rejected := rejected + [s];
        blocking := blocking + reasons;
      } else {
        accepted := accepted + [s];
      }
    }
    assert signals[..|signals|] == signals;
  }

  /** What the loop leaves: the eligible, the ineligible and the relevant signals in order, and every reason. */
  method Sift(signals: seq<Signal>, anchor: Signal, now: int, policy: Policy)
    returns (accepted: seq<Signal>, rejected: seq<Signal>, peerCandidates: seq<Signal>, blocking: seq<Why>)
    ensures accepted == Keep(signals, (s: Signal) => Eligible(s, anchor, now, policy))
    ensures rejected == Keep(signals, (s: Signal) => !Eligible(s, anchor, now, policy))
    ensures peerCandidates == Keep(signals, (s: Signal) => Relevant(s, anchor, now, policy))
    ensures blocking == AllReasons(signals, anchor, now, policy)
  {
    ghost var t := Tests((s: Signal) => Eligible(s, anchor, now, policy), (s: Signal) => !Eligible(s, anchor, now, policy),
                         (s: Signal) => Relevant(s, anchor, now, policy), (s: Signal) => Reasons(s, anchor, now, policy));
    accepted, rejected, peerCandidates, blocking := SiftLoop(signals, anchor, now, policy, t);
  }

  method ReasonsFor(s: Signal, anchor: Signal, now: int, policy: Policy) returns (reasons: seq<Why>)
    ensures reasons == Reasons(s, anchor, now, policy)
  {
    reasons := ValidateSignal(s, now, policy);
    ghost var own := reasons;
    if s.hazard != anchor.hazard || s.domain.kind != anchor.domain.kind || s.domain.id != anchor.domain.id {
      reasons := reasons + [KeyMismatch];
    }
    assert reasons == own + When(!SameKey(s, anchor), KeyMismatch);
    var window := policy(anchor.hazard).windowSeconds;
    if !(anchor.eventTime - window <= s.eventTime <= anchor.eventTime + window) {
      reasons := reasons + [OutsideWindow];
    }
  }

  predicate OtherThanClock(reasons: seq<Why>) {
    exists w :: w in reasons && w != UnsafeClock
  }

  /** The action chain, extending the two reason lists. */
  method SelectAction(unknown: bool, enough: bool, trust: Trust, hp: HazardPolicy, positive: seq<Why>, blocking: seq<Why>)
    returns (action: Action, positive': seq<Why>, blocking': seq<Why>)
    ensures var qualified := !unknown && enough && UnsafeClock !in blocking;
            && action == (if unknown then ContextOnly else if qualified then Granted(trust, hp) else NoAction)
            && positive' == positive + (if qualified then GrantPositive(trust) else [])
            && blocking' == blocking + (if unknown then [UnknownKind] else if qualified then GrantBlocking(trust) else [])
  {
    action, positive', blocking' := NoAction, positive, blocking;
    if unknown {
      action := ContextOnly;
      blocking' := blocking' + [UnknownKind];
    } else if enough && UnsafeClock !in blocking' {
      match trust {
        case EmailUnverified =>
          action := hp.emailAction;
          positive' := positive' + [EmailReviewOnly];
        case FixtureQualified =>
          action := hp.fixtureAction;
          positive' := positive' + [FixtureSimulation];
        case AuthenticatedPeer =>
          action := CreateReviewIncident;
          blocking' := blocking' + [AuthenticatedUnqualified];
        case _ =>
          blocking' := blocking' + [Untrusted];
      }
    }
  }

  /** The sifted signals, the independent peers among them, and the reason lists before an action is chosen. */
  method Weigh(signals: seq<Signal>, now: int, policy: Policy)
    returns (accepted: seq<string>, rejected: seq<string>, peerCount: nat, positive: seq<Why>, blocking: seq<Why>)
    requires signals != []
    ensures accepted == Ids(Keep(signals, (s: Signal) => Eligible(s, signals[0], now, policy)))
    ensures rejected == Ids(Keep(signals, (s: Signal) => !Eligible(s, signals[0], now, policy)))
    ensures peerCount == |Peers(signals, signals[0], now, policy)|
    ensures positive == if Enough(signals, now, policy) then [PeersMet, DomainMatch, WindowMatch] else []
    ensures blocking == AllReasons(signals, signals[0], now, policy) + When(!Enough(signals, now, policy), PeersMissing)
    ensures Qualified(signals, now, policy) <==>
            !signals[0].domain.kind.UnknownDomain? && Enough(signals, now, policy) && UnsafeClock !in blocking
  {
    var acceptedSignals, rejectedSignals, peerCandidates, sifted := Sift(signals, signals[0], now, policy);
    accepted, rejected := Ids(acceptedSignals), Ids(rejectedSignals);
    var peers := set s | s in peerCandidates :: s.pseudonym;
    assert peers == Peers(signals, signals[0], now, policy);
    ClockInReasons(signals, signals[0], now, policy);
    peerCount := |peers|;
    if peerCount >= policy(signals[0].hazard).minPeers {
      positive, blocking := [PeersMet, DomainMatch, WindowMatch], sifted;
    } else {
      positive, blocking := [], sifted + [PeersMissing];
    }
  }

  /** The decision from its parts. */
  function Assemble(signals: seq<Signal>, window: int, accepted: seq<string>, rejected: seq<string>, peerCount: nat,
                    action: Action, positive: seq<Why>, blocking: seq<Why>): Decision
    requires signals != []
  {
    var anchor := signals[0];
    Decision(anchor.hazard, anchor.domain, anchor.eventTime - window, anchor.eventTime + window, Ids(signals), accepted, rejected,
             peerCount, action, Dedup(positive), Dedup(blocking),
             if Strong(action) then Some(ForKey(anchor.hazard, anchor.domain)) else None)
  }

  /** The sifting, the action and the record. */
  method Compute(signals: seq<Signal>, now: int, trust: Trust, policy: Policy) returns (d: Decision)
    requires signals != []
    ensures Evaluated(d) == Evaluate(signals, now, trust, policy)
  {
    var anchor := signals[0];
    var hp := policy(anchor.hazard);
    var accepted, rejected, peerCount, positive, blocking := Weigh(signals, now, policy);
    var action;
    action, positive, blocking :=
      SelectAction(anchor.domain.kind.UnknownDomain?, peerCount >= hp.minPeers, trust, hp, positive, blocking);
    d := Assemble(signals, hp.windowSeconds, accepted, rejected, peerCount, action, positive, blocking);
  }

  /** `evaluate_correlation`. */
  method EvaluateCorrelation(signals: seq<Signal>, now: int, trust: Trust, policy: Policy) returns (r: Evaluation)
    ensures r == Evaluate(signals, now, trust, policy)
    ensures r == RequiresSignal <==> signals == []
    ensures signals != [] ==> Decides(signals, now, trust, policy, r.decision)
  {
    if signals == [] {
      return RequiresSignal;
    }
    var d := Compute(signals, now, trust, policy);
    DecisionMeans(signals, now, trust, policy);
    r := Evaluated(d);
  }

  // ---- What a decision means ----

  /** The decision goes beyond context exactly when the signals qualify and the policy grants that much to the transport. */
  lemma StrongIff(signals: seq<Signal>, now: int, trust: Trust, policy: Policy)
    requires signals != []
    ensures Strong(Evaluate(signals, now, trust, policy).decision.action)
       <==> Qualified(signals, now, policy) && Strong(Granted(trust, policy(signals[0].hazard)))
  {
  }

  function Pseudonyms(signals: seq<Signal>): set<string> {
    set s | s in signals :: s.pseudonym
  }

  lemma AcceptedArePeers(signals: seq<Signal>, anchor: Signal, now: int, policy: Policy)
    requires forall s :: s in signals ==> ClockSafe(s, policy)
    ensures Pseudonyms(Keep(signals, (s: Signal) => Eligible(s, anchor, now, policy))) == Peers(signals, anchor, now, policy)
  {
    var accepted := Keep(signals, (s: Signal) => Eligible(s, anchor, now, policy));
    forall s | s in signals ensures s in accepted <==> Relevant(s, anchor, now, policy) {
      assert ClockSafe(s, policy);
    }
  }

  /**
   Behind every action beyond context stand accepted signals from at least the minimum number of different peers, all of
   them on the anchor's key, in window, unexpired, not replayed and clock-safe; and the counted peers are exactly theirs.
   */
  lemma StrongActionIsBacked(signals: seq<Signal>, now: int, trust: Trust, policy: Policy)
    requires signals != [] && Strong(Evaluate(signals, now, trust, policy).decision.action)
    ensures var d := Evaluate(signals, now, trust, policy).decision;
            var accepted := Keep(signals, (s: Signal) => Eligible(s, signals[0], now, policy));
            && d.accepted == Ids(accepted)
            && d.peerCount == |Pseudonyms(accepted)| >= policy(signals[0].hazard).minPeers
            && forall s :: s in accepted ==> s in signals && Eligible(s, signals[0], now, policy)
  {
    assert Strong(ActionOf(signals, now, trust, policy));
    AcceptedArePeers(signals, signals[0], now, policy);
  }

  /** The order of the signals behind the anchor decides neither the action nor the peer count. */
  lemma OrderDoesNotDecide(a: seq<Signal>, b: seq<Signal>, now: int, trust: Trust, policy: Policy)
    requires a != [] && b != [] && a[0] == b[0] && multiset(a[1..]) == multiset(b[1..])
    ensures var d, e := Evaluate(a, now, trust, policy).decision, Evaluate(b, now, trust, policy).decision;
            d.action == e.action && d.peerCount == e.peerCount && d.incident == e.incident
  {
    forall s ensures s in a <==> s in b {
      assert s in a[1..] <==> s in multiset(a[1..]);
      assert s in b[1..] <==> s in multiset(b[1..]);
      assert a == [a[0]] + a[1..] && b == [b[0]] + b[1..];
    }
    assert Peers(a, a[0], now, policy) == Peers(b, a[0], now, policy);
  }

  lemma QualifiedWithOneMore(signals: seq<Signal>, s: Signal, now: int, policy: Policy)
    requires signals != []
    ensures (signals + [s])[0] == signals[0]
    ensures |Peers(signals, signals[0], now, policy)| <= |Peers(signals + [s], signals[0], now, policy)|
    ensures Qualified(signals, now, policy) && ClockSafe(s, policy) ==> Qualified(signals + [s], now, policy)
    ensures !ClockSafe(s, policy) ==> !Qualified(signals + [s], now, policy)
  {
    var more := signals + [s];
    SubsetSize(Peers(signals, signals[0], now, policy), Peers(more, signals[0], now, policy));
    assert more[|signals|] == s;
  }

  lemma DecisionFields(signals: seq<Signal>, now: int, trust: Trust, policy: Policy)
    requires signals != []
    ensures var d := Evaluate(signals, now, trust, policy).decision;
            d.action == ActionOf(signals, now, trust, policy) && d.peerCount == |Peers(signals, signals[0], now, policy)|
  {
  }

  lemma EmailAction(signals: seq<Signal>, now: int, policy: Policy)
    requires signals != []
    ensures var a := ActionOf(signals, now, EmailUnverified, policy);
            a == NoAction || a == ContextOnly || a == policy(signals[0].hazard).emailAction
  {
  }

  lemma OneMoreAction(signals: seq<Signal>, s: Signal, now: int, trust: Trust, policy: Policy)
    requires signals != []
    ensures (signals + [s])[0] == signals[0]
    ensures |Peers(signals, signals[0], now, policy)| <= |Peers(signals + [s], signals[0], now, policy)|
    ensures var before, after := ActionOf(signals, now, trust, policy), ActionOf(signals + [s], now, trust, policy);
            && (Strong(before) ==> (after == before <==> ClockSafe(s, policy)))
            && (!ClockSafe(s, policy) ==> !Strong(after))
  {
    QualifiedWithOneMore(signals, s, now, policy);
  }

  /** A further signal never weakens a decision unless its clock is unsafe, in which case it vetoes every strong action. */
  lemma OneMoreSignal(signals: seq<Signal>, s: Signal, now: int, trust: Trust, policy: Policy)
    requires signals != []
    ensures var before, after := Evaluate(signals, now, trust, policy).decision, Evaluate(signals + [s], now, trust, policy).decision;
            && before.peerCount <= after.peerCount
            && (Strong(before.action) ==> (after.action == before.action <==> ClockSafe(s, policy)))
            && (!ClockSafe(s, policy) ==> !Strong(after.action))
  {
    var more := signals + [s];
    OneMoreAction(signals, s, now, trust, policy);
    DecisionFields(signals, now, trust, policy);
    DecisionFields(more, now, trust, policy);
  }

  lemma TwoQualify(s: Signal, t: Signal, now: int, policy: Policy)
    requires Relevant(s, s, now, policy) && Relevant(t, s, now, policy) && ClockSafe(s, policy) && ClockSafe(t, policy)
    requires s.pseudonym != t.pseudonym && policy(s.hazard).minPeers == 2
    ensures Qualified([s, t], now, policy)
  {
    assert Peers([s, t], s, now, policy) == {s.pseudonym, t.pseudonym};
  }

  /** The released earthquake policy. */
  const Earthquakes := HazardPolicy({SpatialCell}, 10, 2, {"local_trigger", "earthquake_like_signal"}, CreateReviewIncident,
                                    MultiNodeTrigger, Some(Medium))
  const Released: Policy := (h: Hazard) => Earthquakes

  function Trigger(id: string, peer: string, at: int, band: ClockBand, expires: int): Signal {
    Signal(id, "1.0", peer, Earthquake, "local_trigger", Domain(SpatialCell, "cell"), at, band, Live, expires)
  }

  const First := Trigger("1", "a", 1000, Low, 2000)
  const Second := Trigger("2", "b", 1001, Low, 2000)
  const OldStranger := Trigger("3", "c", 0, UnknownClock, 60)

  lemma TriggerRelevant(s: Signal)
    requires s == First || s == Second
    ensures Relevant(s, First, 1002, Released) && ClockSafe(s, Released)
  {
  }

  lemma GoodPair()
    ensures Qualified([First, Second], 1002, Released)
  {
    TriggerRelevant(First);
    TriggerRelevant(Second);
    assert "a"[0] != "b"[0];
    TwoQualify(First, Second, 1002, Released);
  }

  lemma StrangerIsUnsafe()
    ensures OldStranger.expiresAt <= 1002 && !InWindow(OldStranger, First, Released) && !ClockSafe(OldStranger, Released)
  {
  }

  /** Two good signals trigger; a third that is expired and far out of window undoes it through its unsafe clock alone. */
  lemma {:induction false} StaleSignalVetoes()
    ensures OldStranger.expiresAt <= 1002 && !InWindow(OldStranger, First, Released)
    ensures Evaluate([First, Second], 1002, FixtureQualified, Released).decision.action == MultiNodeTrigger
    ensures Evaluate([First, Second] + [OldStranger], 1002, FixtureQualified, Released).decision.action == NoAction
  {
    var good := [First, Second];
    GoodPair();
    StrangerIsUnsafe();
    DecisionFields(good, 1002, FixtureQualified, Released);
    QualifiedWithOneMore(good, OldStranger, 1002, Released);
    DecisionFields(good + [OldStranger], 1002, FixtureQualified, Released);
  }

  /** No strong action is missing without a blocking reason that says why. */
  lemma QuietIsExplained(signals: seq<Signal>, now: int, trust: Trust, policy: Policy)
    requires signals != []
    ensures var d := Evaluate(signals, now, trust, policy).decision;
            && (PeersMissing in d.blocking <==> !Enough(signals, now, policy))
            && (UnsafeClock in d.blocking <==> exists s :: s in signals && !ClockSafe(s, policy))
            && (d.action == NoAction ==>
                  || PeersMissing in d.blocking || UnsafeClock in d.blocking || Untrusted in d.blocking
                  || Granted(trust, policy(d.hazard)) == NoAction)
  {
    var d := Evaluate(signals, now, trust, policy).decision;
    BlockingMembers(signals, now, trust, policy, PeersMissing);
    BlockingMembers(signals, now, trust, policy, UnsafeClock);
    BlockingMembers(signals, now, trust, policy, Untrusted);
    ClockInReasons(signals, signals[0], now, policy);
    NotAboutSignals(signals, signals[0], now, policy, PeersMissing);
    assert d.action == ActionOf(signals, now, trust, policy);
  }

  /** Which of the reasons that are not about single signals a decision carries. */
  lemma BlockingMembers(signals: seq<Signal>, now: int, trust: Trust, policy: Policy, w: Why)
    requires signals != [] && w in {PeersMissing, UnsafeClock, Untrusted, AuthenticatedUnqualified}
    ensures var listed := w in Evaluate(signals, now, trust, policy).decision.blocking;
            listed <==>
              || w in AllReasons(signals, signals[0], now, policy)
              || (w == PeersMissing && !Enough(signals, now, policy))
              || (w == Untrusted && Qualified(signals, now, policy) && (trust.RejectedTrust? || trust.UnknownTrust?))
              || (w == AuthenticatedUnqualified && Qualified(signals, now, policy) && trust.AuthenticatedPeer?)
  {
    var blocking := BlockingOf(AllReasons(signals, signals[0], now, policy), Enough(signals, now, policy),
                               signals[0].domain.kind.UnknownDomain?, Qualified(signals, now, policy), trust);
    assert Evaluate(signals, now, trust, policy).decision.blocking == Dedup(blocking);
    GrantMembers(trust, w);
  }

  function BlockingOf(reasons: seq<Why>, enough: bool, unknown: bool, qualified: bool, trust: Trust): (r: seq<Why>)
    ensures forall w :: w in r <==>
                        || w in reasons || (!enough && w == PeersMissing)
                        || (if unknown then w == UnknownKind else qualified && w in GrantBlocking(trust))
  {
    reasons + When(!enough, PeersMissing) + (if unknown then [UnknownKind] else if qualified then GrantBlocking(trust) else [])
  }

  lemma GrantMembers(trust: Trust, w: Why)
    ensures w in GrantBlocking(trust) <==>
            || (w.AuthenticatedUnqualified? && trust.AuthenticatedPeer?)
            || (w.Untrusted? && (trust.RejectedTrust? || trust.UnknownTrust?))
  {
  }

  /** These reasons are about the correlation as a whole. */
  lemma NotAboutSignals(signals: seq<Signal>, anchor: Signal, now: int, policy: Policy, w: Why)
    requires w in {PeersMissing, Untrusted, AuthenticatedUnqualified}
    ensures w !in AllReasons(signals, anchor, now, policy)
  {
    forall s ensures w !in Reasons(s, anchor, now, policy) {
      ReasonMembers(s, anchor, now, policy, w);
    }
  }

  // ---- The decision, spelled out ----

  /** On the anchor's hazard and domain, in its window, current, and of a kind and observation the policy admits. */
  ghost predicate Contributes(s: Signal, anchor: Signal, now: int, policy: Policy) {
    var hp := policy(anchor.hazard);
    && s.hazard == anchor.hazard && s.domain.kind == anchor.domain.kind && s.domain.id == anchor.domain.id
    && -hp.windowSeconds <= s.eventTime - anchor.eventTime <= hp.windowSeconds
    && now < s.expiresAt && s.sourceMode != Replayed
    && s.domain.kind != UnknownDomain && s.domain.kind in hp.domainKinds && s.observation in hp.allowedObservations
  }

  /** Its clock is at least as certain as the policy of its hazard asks. */
  ghost predicate Punctual(s: Signal, policy: Policy) {
    match policy(s.hazard).clockLimit
    case None => true
    case Some(limit) =>
      match limit
      case Low => s.clockBand == Low
      case Medium => s.clockBand == Low || s.clockBand == Medium
      case High => s.clockBand != UnknownClock
      case UnknownClock => true
  }

  ghost function Contributors(signals: seq<Signal>, anchor: Signal, now: int, policy: Policy): set<string> {
    set s | s in signals && Contributes(s, anchor, now, policy) :: s.pseudonym
  }

  /** Enough different peers contribute, and no clock is in doubt. */
  ghost predicate Agreed(signals: seq<Signal>, now: int, policy: Policy)
    requires signals != []
  {
    && signals[0].domain.kind != UnknownDomain
    && |Contributors(signals, signals[0], now, policy)| >= policy(signals[0].hazard).minPeers
    && forall s :: s in signals ==> Punctual(s, policy)
  }

  /** What the transport is granted when the signals agree, as the reasons say. */
  ghost predicate ActsAs(trust: Trust, hp: HazardPolicy, d: Decision) {
    && (trust == EmailUnverified ==> d.action == hp.emailAction && EmailReviewOnly in d.positive)
    && (trust == FixtureQualified ==> d.action == hp.fixtureAction && FixtureSimulation in d.positive)
    && (trust == AuthenticatedPeer ==> d.action == CreateReviewIncident && AuthenticatedUnqualified in d.blocking)
    && (trust == RejectedTrust || trust == UnknownTrust ==> d.action == NoAction && Untrusted in d.blocking)
  }

  /** What a decision about `signals` must be. */
  ghost predicate Decides(signals: seq<Signal>, now: int, trust: Trust, policy: Policy, d: Decision)
    requires signals != []
  {
    var anchor, hp := signals[0], policy(signals[0].hazard);
    && d.hazard == anchor.hazard && d.domain == anchor.domain
    && d.windowStart == anchor.eventTime - hp.windowSeconds && d.windowEnd == anchor.eventTime + hp.windowSeconds
    && |d.candidates| == |signals| && (forall i :: 0 <= i < |signals| ==> d.candidates[i] == signals[i].id)
    && d.peerCount == |Contributors(signals, anchor, now, policy)|
    && (PeersMet in d.positive <==> d.peerCount >= hp.minPeers)
    && (PeersMissing in d.blocking <==> d.peerCount < hp.minPeers)
    && (anchor.domain.kind == UnknownDomain ==> d.action == ContextOnly && UnknownKind in d.blocking)
    && (anchor.domain.kind != UnknownDomain && !Agreed(signals, now, policy) ==> d.action == NoAction)
    && (Agreed(signals, now, policy) ==> ActsAs(trust, hp, d))
    && d.incident == if d.action == CreateReviewIncident || d.action == UpdateIncident || d.action == MultiNodeTrigger
                     then Some(ForKey(anchor.hazard, anchor.domain)) else None
  }

  lemma RelevantIff(s: Signal, anchor: Signal, now: int, policy: Policy)
    ensures Relevant(s, anchor, now, policy) <==> Contributes(s, anchor, now, policy)
    ensures ClockSafe(s, policy) <==> Punctual(s, policy)
  {
    if s.domain.kind == anchor.domain.kind && s.domain.id == anchor.domain.id {
      assert s.domain == anchor.domain;
    }
  }

  lemma QualifiedIff(signals: seq<Signal>, now: int, policy: Policy)
    requires signals != []
    ensures Peers(signals, signals[0], now, policy) == Contributors(signals, signals[0], now, policy)
    ensures Qualified(signals, now, policy) <==> Agreed(signals, now, policy)
  {
    forall s ensures Relevant(s, signals[0], now, policy) <==> Contributes(s, signals[0], now, policy)
      ensures ClockSafe(s, policy) <==> Punctual(s, policy)
    {
      RelevantIff(s, signals[0], now, policy);
    }
  }

  lemma PositiveMember(signals: seq<Signal>, now: int, trust: Trust, policy: Policy, w: Why)
    requires signals != []
    ensures w in Evaluate(signals, now, trust, policy).decision.positive <==>
            || (Enough(signals, now, policy) && (w == PeersMet || w == DomainMatch || w == WindowMatch))
            || (Qualified(signals, now, policy) && w in GrantPositive(trust))
  {
    var positive := PositiveOf(Enough(signals, now, policy), Qualified(signals, now, policy), trust);
    assert Evaluate(signals, now, trust, policy).decision.positive == Dedup(positive);
  }

  function PositiveOf(enough: bool, qualified: bool, trust: Trust): (r: seq<Why>)
    ensures forall w :: w in r <==>
                        || (enough && (w == PeersMet || w == DomainMatch || w == WindowMatch))
                        || (qualified && w in GrantPositive(trust))
  {
    (if enough then [PeersMet, DomainMatch, WindowMatch] else []) + (if qualified then GrantPositive(trust) else [])
  }

  lemma PositiveMembers(signals: seq<Signal>, now: int, trust: Trust, policy: Policy)
    requires signals != []
    ensures var d := Evaluate(signals, now, trust, policy).decision;
            && (PeersMet in d.positive <==> Enough(signals, now, policy))
            && (EmailReviewOnly in d.positive <==> Qualified(signals, now, policy) && trust == EmailUnverified)
            && (FixtureSimulation in d.positive <==> Qualified(signals, now, policy) && trust == FixtureQualified)
  {
    PositiveMember(signals, now, trust, policy, PeersMet);
    PositiveMember(signals, now, trust, policy, EmailReviewOnly);
    PositiveMember(signals, now, trust, policy, FixtureSimulation);
    GrantPositiveMembers(trust);
  }

  lemma GrantPositiveMembers(trust: Trust)
    ensures PeersMet !in GrantPositive(trust)
    ensures EmailReviewOnly in GrantPositive(trust) <==> trust == EmailUnverified
    ensures FixtureSimulation in GrantPositive(trust) <==> trust == FixtureQualified
  {
  }

  lemma UnknownIsBlocked(signals: seq<Signal>, now: int, trust: Trust, policy: Policy)
    requires signals != [] && signals[0].domain.kind == UnknownDomain
    ensures UnknownKind in Evaluate(signals, now, trust, policy).decision.blocking
  {
    var front := AllReasons(signals, signals[0], now, policy) + When(!Enough(signals, now, policy), PeersMissing);
    assert (front + [UnknownKind])[|front|] == UnknownKind;
    assert UnknownKind in front + [UnknownKind];
  }

  lemma BlockingByTransport(signals: seq<Signal>, now: int, trust: Trust, policy: Policy)
    requires signals != []
    ensures var d := Evaluate(signals, now, trust, policy).decision;
            && (PeersMissing in d.blocking <==> !Enough(signals, now, policy))
            && (Untrusted in d.blocking <==> Qualified(signals, now, policy) && (trust == RejectedTrust || trust == UnknownTrust))
            && (AuthenticatedUnqualified in d.blocking <==> Qualified(signals, now, policy) && trust == AuthenticatedPeer)
  {
    BlockingMembers(signals, now, trust, policy, PeersMissing);
    BlockingMembers(signals, now, trust, policy, Untrusted);
    BlockingMembers(signals, now, trust, policy, AuthenticatedUnqualified);
    NotAboutSignals(signals, signals[0], now, policy, PeersMissing);
    NotAboutSignals(signals, signals[0], now, policy, Untrusted);
    NotAboutSignals(signals, signals[0], now, policy, AuthenticatedUnqualified);
  }

  /** Every decision is what the fields of the signals, the policy and the transport call for. */
  lemma DecisionMeans(signals: seq<Signal>, now: int, trust: Trust, policy: Policy)
    requires signals != []
    ensures Decides(signals, now, trust, policy, Evaluate(signals, now, trust, policy).decision)
  {
    QualifiedIff(signals, now, policy);
    DecisionFields(signals, now, trust, policy);
    PositiveMembers(signals, now, trust, policy);
    BlockingByTransport(signals, now, trust, policy);
    if signals[0].domain.kind == UnknownDomain {
      UnknownIsBlocked(signals, now, trust, policy);
    }
  }

  /** The simulated trigger fires only when the signals agree, behind a fixture or email transport whose own action it is. */
  lemma TriggerIsGranted(signals: seq<Signal>, now: int, trust: Trust, policy: Policy)
    requires signals != [] && Evaluate(signals, now, trust, policy).decision.action == MultiNodeTrigger
    ensures Agreed(signals, now, policy)
    ensures || (trust == FixtureQualified && policy(signals[0].hazard).fixtureAction == MultiNodeTrigger)
            || (trust == EmailUnverified && policy(signals[0].hazard).emailAction == MultiNodeTrigger)
  {
    DecisionMeans(signals, now, trust, policy);
  }
}
