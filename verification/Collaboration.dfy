/** The bounded deduplicating envelope store and the service that turns each new envelope into a correlation decision. */
module Collaboration {
  import opened Basics
  import opened Signals
  import opened Correlation

  datatype Validation = Admitted | ContextOnlyInput | RejectedInput

  datatype Envelope = Envelope(signal: Signal, trust: Trust, validation: Validation, reasons: seq<Why>)

  function IdsOf(es: seq<Envelope>): set<string> {
    set e | e in es :: e.signal.id
  }

  ghost predicate DistinctIds(es: seq<Envelope>) {
    forall i, j :: 0 <= i < j < |es| ==> es[i].signal.id != es[j].signal.id
  }

  /** The last `n` elements. */
  function Newest<T>(es: seq<T>, n: nat): (r: seq<T>)
    ensures |r| <= n
  {
    if |es| <= n then es else es[|es| - n..]
  }

  function Unexpired(es: seq<Envelope>, now: int): (r: seq<Envelope>)
    ensures |r| <= |es|
    ensures forall e :: e in r <==> e in es && e.signal.expiresAt > now
  {
    if es == [] then []
    else
      var front, last := Unexpired(es[..|es| - 1], now), es[|es| - 1];
      if last.signal.expiresAt > now then front + [last] else front
  }

  // ---- The store, as a class ----

  datatype Added = Stored | AlreadyKnown | PopFromEmpty

  class Repository {
    const maxEnvelopes: int
    const maxDecisions: int
    var envelopes: seq<Envelope>
    var decisions: seq<Decision>
    var ids: set<string>

    /** The id set is the ids of the queue, which holds no id twice and never exceeds its bound. */
    ghost predicate Valid()
      reads this
    {
      && ids == IdsOf(envelopes)
      && DistinctIds(envelopes)
      && |envelopes| <= Max(0, maxEnvelopes)
      && |decisions| <= Max(0, maxDecisions)
    }

    constructor (maxEnvelopes: int, maxDecisions: int)
      ensures Valid() && envelopes == [] && decisions == []
      ensures this.maxEnvelopes == maxEnvelopes && this.maxDecisions == maxDecisions
    {
      this.maxEnvelopes := maxEnvelopes;
      this.maxDecisions := maxDecisions;
      envelopes, decisions, ids := [], [], {};
    }

    /** With a bound below one the eviction loop pops an empty queue. */
    method AddEnvelope(e: Envelope) returns (r: Added)
      requires Valid()
      modifies this`envelopes, this`ids
      ensures Valid()
      ensures r.AlreadyKnown? <==> e.signal.id in old(IdsOf(envelopes))
      ensures r.PopFromEmpty? <==> e.signal.id !in old(IdsOf(envelopes)) && maxEnvelopes <= 0
      ensures r.Stored? ==> envelopes == Newest(old(envelopes), maxEnvelopes - 1) + [e]
      ensures !r.Stored? ==> envelopes == old(envelopes)
    {
      if e.signal.id in ids {
        return AlreadyKnown;
      }
      ghost var dropped := 0;
      while |envelopes| >= maxEnvelopes
        invariant dropped <= |old(envelopes)| && envelopes == old(envelopes)[dropped..]
        invariant dropped > 0 ==> |envelopes| >= maxEnvelopes - 1
        invariant ids == IdsOf(envelopes) && DistinctIds(envelopes)
        decreases |envelopes|
      {
        if |envelopes| == 0 {
          return PopFromEmpty;
        }
        var evicted := envelopes[0];
        OldestLeaves(envelopes);
        ids := ids - {evicted.signal.id};
        envelopes := envelopes[1..];
        dropped := dropped + 1;
      }
      NewestEnters(envelopes, e);
      envelopes := envelopes + [e];
      ids := ids + {e.signal.id};
      return Stored;
    }

    method AddDecision(d: Decision) returns (popFromEmpty: bool)
      requires Valid()
      modifies this`decisions
      ensures Valid()
      ensures popFromEmpty == (maxDecisions <= 0)
      ensures decisions == if popFromEmpty then old(decisions) else Newest(old(decisions), maxDecisions - 1) + [d]
    {
      ghost var dropped := 0;
      while |decisions| >= maxDecisions
        invariant dropped <= |old(decisions)| && decisions == old(decisions)[dropped..]
        invariant dropped > 0 ==> |decisions| >= maxDecisions - 1
        decreases |decisions|
      {
        if |decisions| == 0 {
          return true;
        }
        decisions := decisions[1..];
        dropped := dropped + 1;
      }
      decisions := decisions + [d];
      return false;
    }

    method PurgeExpired(now: int) returns (removed: nat)
      requires Valid()
      modifies this`envelopes, this`ids
      ensures Valid()
      ensures envelopes == Unexpired(old(envelopes), now)
      ensures removed == |old(envelopes)| - |envelopes|
    {
      var kept := Unexpired(envelopes, now);
      UnexpiredDistinct(envelopes, now);
      removed := |envelopes| - |kept|;
      envelopes := kept;
      ids := set e | e in kept :: e.signal.id;
    }
  }

  lemma OldestLeaves(es: seq<Envelope>)
    requires DistinctIds(es) && es != []
    ensures DistinctIds(es[1..]) && IdsOf(es[1..]) == IdsOf(es) - {es[0].signal.id}
  {
    var rest := es[1..];
    assert es == [es[0]] + rest;
    forall x | x in rest ensures x.signal.id != es[0].signal.id {
      var i :| 0 <= i < |rest| && rest[i] == x;
      assert es[i + 1] == x;
    }
  }

  lemma NewestEnters(es: seq<Envelope>, e: Envelope)
    requires DistinctIds(es) && e.signal.id !in IdsOf(es)
    ensures DistinctIds(es + [e]) && IdsOf(es + [e]) == IdsOf(es) + {e.signal.id}
  {
    assert forall x :: x in es + [e] <==> x in es || x == e;
    forall i | 0 <= i < |es| ensures es[i].signal.id != e.signal.id {
      assert es[i] in es;
    }
  }

  lemma {:induction false} UnexpiredDistinct(es: seq<Envelope>, now: int)
    requires DistinctIds(es)
    ensures DistinctIds(Unexpired(es, now))
  {
    if es != [] {
      var front := es[..|es| - 1];
      UnexpiredDistinct(front, now);
      var kept := Unexpired(front, now);
      forall i | 0 <= i < |kept| ensures kept[i].signal.id != es[|es| - 1].signal.id {
        assert kept[i] in front;
      }
    }
  }

  // ---- From a stored envelope to a decision ----

  function Episode(es: seq<Envelope>, s: Signal): (r: seq<Envelope>)
    ensures forall e :: e in r <==> e in es && SameKey(e.signal, s)
  {
    if es == [] then []
    else
      var front, last := Episode(es[..|es| - 1], s), es[|es| - 1];
      if SameKey(last.signal, s) then front + [last] else front
  }

  function AdmittedSignals(es: seq<Envelope>): (r: seq<Signal>)
    ensures forall s :: s in r <==> exists e :: e in es && e.validation.Admitted? && e.signal == s
  {
    if es == [] then []
    else
      var front, last := AdmittedSignals(es[..|es| - 1]), es[|es| - 1];
      if last.validation.Admitted? then front + [last.signal] else front
  }

  /** The signals put before the policy; an episode without admitted signals is represented by the new one alone. */
  function Considered(es: seq<Envelope>, e: Envelope): (r: seq<Signal>)
    ensures r != []
  {
    var admitted := AdmittedSignals(Episode(es, e.signal));
    if admitted == [] then [e.signal] else admitted
  }

  predicate HasEmail(es: seq<Envelope>) {
    exists e :: e in es && e.trust.EmailUnverified?
  }

  function EpisodeTrust(es: seq<Envelope>, e: Envelope): Trust {
    if HasEmail(Episode(es, e.signal)) then EmailUnverified else e.trust
  }

  /** The decision for `e`, once `es` holds it. */
  function Decide(es: seq<Envelope>, e: Envelope, now: int, policy: Policy): Decision {
    var d := Evaluate(Considered(es, e), now, EpisodeTrust(es, e), policy).decision;
    if e.validation.ContextOnlyInput? then
      d.(action := ContextOnly, positive := [], blocking := Dedup(d.blocking + e.reasons + [ContextInput]), incident := None)
    else d
  }

  /** The writer's answer replaces the incident id unless it is empty. */
  function Answered(d: Decision, answer: Option<string>): Decision {
    if answer.Some? && answer.value != "" then d.(incident := Some(FromWriter(answer.value))) else d
  }

  lemma ConsideredShareKey(es: seq<Envelope>, e: Envelope)
    ensures forall s :: s in Considered(es, e) ==> SameKey(s, e.signal)
  {
  }

  /** While the episode holds an email envelope, nothing but inaction, context or the policy's email action results. */
  lemma EmailCapsAction(es: seq<Envelope>, e: Envelope, now: int, policy: Policy)
    requires HasEmail(Episode(es, e.signal))
    ensures Decide(es, e, now, policy).action in {NoAction, ContextOnly, policy(e.signal.hazard).emailAction}
  {
    var signals := Considered(es, e);
    ConsideredShareKey(es, e);
    assert signals[0] in signals;
    DecisionFields(signals, now, EmailUnverified, policy);
    EmailAction(signals, now, policy);
  }

  /**
   Transports by what the policy grants them: nothing, a lead for review, a review incident whose path is not qualified,
   the simulated trigger.
   */
  function Rank(t: Trust): int {
    match t
    case RejectedTrust => 0
    case UnknownTrust => 0
    case EmailUnverified => 1
    case AuthenticatedPeer => 2
    case FixtureQualified => 3
  }

  ghost predicate InheritsWeakest(es: seq<Envelope>, e: Envelope) {
    forall x :: x in Episode(es, e.signal) && x.validation.Admitted? ==> Rank(EpisodeTrust(es, e)) <= Rank(x.trust)
  }

  ghost predicate AdmittedWith(es: seq<Envelope>, s: Signal, p: Trust -> bool) {
    exists x :: x in Episode(es, s) && x.validation.Admitted? && p(x.trust)
  }

  /**
   Only email is inherited. With an email envelope in the episode the trust put before the policy is the weakest admitted one
   exactly when no admitted envelope has a rejected transport; without one, exactly when no admitted envelope has a weaker
   transport than the new one: none for a rejected one, rejected for an authenticated one, both for a fixture.
   */
  lemma InheritsWeakestIff(es: seq<Envelope>, e: Envelope)
    ensures var rejected := AdmittedWith(es, e.signal, (t: Trust) => t.RejectedTrust? || t.UnknownTrust?);
            var authenticated := AdmittedWith(es, e.signal, (t: Trust) => t.AuthenticatedPeer?);
            InheritsWeakest(es, e) <==>
              if HasEmail(Episode(es, e.signal)) then !rejected
              else if e.trust.RejectedTrust? || e.trust.UnknownTrust? then true
              else if e.trust.FixtureQualified? then !rejected && !authenticated
              else !rejected
  {
    var episode := Episode(es, e.signal);
    var weak := (t: Trust) => t.RejectedTrust? || t.UnknownTrust?;
    var peer := (t: Trust) => t.AuthenticatedPeer?;
    assert forall t :: weak(t) <==> Rank(t) == 0;
    assert forall t :: peer(t) <==> Rank(t) == 2;
    assert forall x :: x in episode ==> !HasEmail(episode) ==> Rank(x.trust) != 1;
    if InheritsWeakest(es, e) {
      assert forall x :: x in episode && x.validation.Admitted? ==> Rank(EpisodeTrust(es, e)) <= Rank(x.trust);
    }
  }

  /** Nothing about the transports of an episode reaches the decision except the presence of email and the newest transport. */
  lemma OnlyEmailIsInherited(es: seq<Envelope>, fs: seq<Envelope>, e: Envelope, now: int, policy: Policy)
    requires |es| == |fs|
    requires forall i :: 0 <= i < |es| ==> es[i].signal == fs[i].signal && es[i].validation == fs[i].validation
    requires HasEmail(Episode(es, e.signal)) == HasEmail(Episode(fs, e.signal))
    ensures Decide(es, e, now, policy) == Decide(fs, e, now, policy)
  {
    EpisodeAlike(es, fs, e.signal);
    AdmittedAlike(Episode(es, e.signal), Episode(fs, e.signal));
  }

  ghost predicate Alike(es: seq<Envelope>, fs: seq<Envelope>) {
    |es| == |fs| && forall i :: 0 <= i < |es| ==> es[i].signal == fs[i].signal && es[i].validation == fs[i].validation
  }

  lemma {:induction false} EpisodeAlike(es: seq<Envelope>, fs: seq<Envelope>, s: Signal)
    requires Alike(es, fs)
    ensures Alike(Episode(es, s), Episode(fs, s))
  {
    if es != [] {
      EpisodeAlike(es[..|es| - 1], fs[..|fs| - 1], s);
    }
  }

  lemma {:induction false} AdmittedAlike(es: seq<Envelope>, fs: seq<Envelope>)
    requires Alike(es, fs)
    ensures AdmittedSignals(es) == AdmittedSignals(fs)
  {
    if es != [] {
      AdmittedAlike(es[..|es| - 1], fs[..|fs| - 1]);
    }
  }

  /**
   A signal behind any transport but email, a rejected or an unqualified authenticated one included, can complete a
   fixture-qualified episode.
   */
  lemma WeakerTransportCounts(a: Envelope, e: Envelope, now: int, policy: Policy)
    requires !a.trust.EmailUnverified? && e.trust == FixtureQualified && a.validation.Admitted? && e.validation.Admitted?
    requires Relevant(a.signal, a.signal, now, policy) && Relevant(e.signal, a.signal, now, policy)
    requires ClockSafe(a.signal, policy) && ClockSafe(e.signal, policy) && a.signal.pseudonym != e.signal.pseudonym
    requires policy(e.signal.hazard).minPeers == 2 && Strong(policy(e.signal.hazard).fixtureAction)
    ensures Decide([a, e], e, now, policy).action == policy(e.signal.hazard).fixtureAction
    ensures Rank(a.trust) < Rank(FixtureQualified) ==> !InheritsWeakest([a, e], e)
  {
    var es := [a, e];
    TwoEnvelopes(a, e);
    assert Considered(es, e) == [a.signal, e.signal];
    TwoQualify(a.signal, e.signal, now, policy);
    assert EpisodeTrust(es, e) == FixtureQualified;
    DecisionFields(Considered(es, e), now, FixtureQualified, policy);
    assert a in Episode(es, e.signal);
  }

  lemma TwoEnvelopes(a: Envelope, e: Envelope)
    requires a.validation.Admitted? && e.validation.Admitted? && SameKey(a.signal, e.signal)
    ensures Episode([a, e], e.signal) == [a, e] && AdmittedSignals([a, e]) == [a.signal, e.signal]
  {
    assert [a, e][..1] == [a] && [a][..0] == [];
    assert Episode([a], e.signal) == [a];
    assert AdmittedSignals([a]) == [a.signal];
  }

  /** The store holds an email envelope on the hazard and domain of `s`. */
  ghost predicate EmailOnKey(es: seq<Envelope>, s: Signal) {
    exists x :: x in es && x.trust == EmailUnverified && x.signal.hazard == s.hazard && x.signal.domain == s.domain
  }

  /** What a decision handed to the incident writer rests on, and what the transports allow it to be. */
  ghost predicate Backed(es: seq<Envelope>, e: Envelope, now: int, policy: Policy, d: Decision) {
    var hp := policy(e.signal.hazard);
    && e.validation == Admitted && e in es
    && (d.action == CreateReviewIncident || d.action == UpdateIncident || d.action == MultiNodeTrigger)
    && d.peerCount == |Voters(es, e, now, policy)| >= hp.minPeers
    && (if EmailOnKey(es, e.signal) then d.action == hp.emailAction
        else
          || (e.trust == FixtureQualified && d.action == hp.fixtureAction)
          || (e.trust == AuthenticatedPeer && d.action == CreateReviewIncident))
  }

  /** The oldest admitted signal in the store on the hazard and domain of `s`. */
  ghost predicate IsAnchor(es: seq<Envelope>, s: Signal, anchor: Signal) {
    exists i: nat :: FirstToSpeak(es, s, i) && es[i].signal == anchor
  }

  ghost predicate FirstToSpeak(es: seq<Envelope>, s: Signal, i: nat) {
    i < |es| && Speaks(es[i], s) && forall j :: 0 <= j < i ==> !Speaks(es[j], s)
  }

  ghost predicate SpokenFor(es: seq<Envelope>, s: Signal) {
    exists x :: x in es && Speaks(x, s)
  }

  ghost predicate Speaks(x: Envelope, s: Signal) {
    x.validation == Admitted && x.signal.hazard == s.hazard && x.signal.domain == s.domain
  }

  /** The peers with an admitted, current, punctual envelope on the key of `e`, within the window of the oldest admitted one. */
  ghost function Voters(es: seq<Envelope>, e: Envelope, now: int, policy: Policy): set<string> {
    set x, a | x in es && a in es && IsAnchor(es, e.signal, a.signal)
               && x.validation == Admitted && Contributes(x.signal, a.signal, now, policy) && Punctual(x.signal, policy)
            :: x.signal.pseudonym
  }

  lemma {:induction false} AnchorIs(es: seq<Envelope>, e: Envelope, a: Signal)
    requires SpokenFor(es, e.signal)
    ensures AdmittedSignals(Episode(es, e.signal)) != []
    ensures IsAnchor(es, e.signal, a) <==> a == AdmittedSignals(Episode(es, e.signal))[0]
  {
    var first := FirstAdmitted(es, e.signal);
    if IsAnchor(es, e.signal, a) {
      var i: nat :| FirstToSpeak(es, e.signal, i) && es[i].signal == a;
      OneFirst(es, e.signal, i, first);
    }
  }

  lemma OneFirst(es: seq<Envelope>, s: Signal, i: nat, j: nat)
    requires FirstToSpeak(es, s, i) && FirstToSpeak(es, s, j)
    ensures i == j
  {
  }

  /** The first envelope that speaks for `s` gives the first admitted signal of the episode. */
  lemma {:induction false} FirstAdmitted(es: seq<Envelope>, s: Signal) returns (i: nat)
    requires SpokenFor(es, s)
    ensures FirstToSpeak(es, s, i)
    ensures AdmittedSignals(Episode(es, s)) != [] && AdmittedSignals(Episode(es, s))[0] == es[i].signal
  {
    var n := |es| - 1;
    var front, last := es[..n], es[n];
    assert es == front + [last];
    EpisodeAppend(front, last, s);
    if SpokenFor(front, s) {
      i := FirstAdmitted(front, s);
      FirstStays(front, last, s, i);
    } else {
      i := n;
      LastIsFirst(front, last, s);
    }
  }

  lemma FirstStays(es: seq<Envelope>, e: Envelope, s: Signal, i: nat)
    requires FirstToSpeak(es, s, i)
    ensures FirstToSpeak(es + [e], s, i)
  {
  }

  lemma LastIsFirst(es: seq<Envelope>, e: Envelope, s: Signal)
    requires !SpokenFor(es, s) && SpokenFor(es + [e], s)
    ensures Speaks(e, s) && FirstToSpeak(es + [e], s, |es|)
    ensures AdmittedSignals(Episode(es, s)) == []
  {
    forall x | x in es ensures !Speaks(x, s) {
    }
    var y :| y in es + [e] && Speaks(y, s);
    assert y == e;
    forall j | 0 <= j < |es| ensures !Speaks((es + [e])[j], s) {
      assert es[j] in es;
    }
    if AdmittedSignals(Episode(es, s)) != [] {
      AdmittedSpeak(es, s);
    }
  }

  lemma AdmittedSpeak(es: seq<Envelope>, s: Signal)
    requires AdmittedSignals(Episode(es, s)) != []
    ensures SpokenFor(es, s)
  {
    var admitted := AdmittedSignals(Episode(es, s));
    assert admitted[0] in admitted;
    var x :| x in Episode(es, s) && x.validation.Admitted? && x.signal == admitted[0];
    assert x in es && Speaks(x, s);
  }

  lemma EpisodeAppend(es: seq<Envelope>, e: Envelope, s: Signal)
    ensures AdmittedSignals(Episode(es + [e], s)) == AdmittedSignals(Episode(es, s)) + (if Speaks(e, s) then [e.signal] else [])
  {
    assert (es + [e])[..|es|] == es;
    var episode := Episode(es, s);
    assert (episode + [e])[..|episode|] == episode;
  }

  lemma VotersAreAccepted(es: seq<Envelope>, e: Envelope, now: int, policy: Policy)
    requires e in es && e.validation.Admitted?
    ensures var signals := Considered(es, e);
            Voters(es, e, now, policy) == Pseudonyms(Keep(signals, (s: Signal) => Eligible(s, signals[0], now, policy)))
  {
    assert e in Episode(es, e.signal);
    assert Speaks(e, e.signal);
    var signals := Considered(es, e);
    assert e.signal in AdmittedSignals(Episode(es, e.signal));
    ConsideredShareKey(es, e);
    assert signals[0] in signals;
    var accepted := Keep(signals, (s: Signal) => Eligible(s, signals[0], now, policy));
    AnchorIs(es, e, signals[0]);
    forall p | p in Voters(es, e, now, policy) ensures p in Pseudonyms(accepted) {
      var x, a :| x in es && a in es && IsAnchor(es, e.signal, a.signal) && x.validation == Admitted
                  && Contributes(x.signal, a.signal, now, policy) && Punctual(x.signal, policy) && x.signal.pseudonym == p;
      AnchorIs(es, e, a.signal);
      RelevantIff(x.signal, signals[0], now, policy);
      assert x in Episode(es, e.signal);
      assert x.signal in signals;
    }
    var first := FirstAdmitted(es, e.signal);
    forall p | p in Pseudonyms(accepted) ensures p in Voters(es, e, now, policy) {
      var s :| s in accepted && s.pseudonym == p;
      RelevantIff(s, signals[0], now, policy);
      var x :| x in Episode(es, e.signal) && x.validation.Admitted? && x.signal == s;
      assert es[first] in es && IsAnchor(es, e.signal, es[first].signal);
      assert x in es && Contributes(x.signal, es[first].signal, now, policy) && Punctual(x.signal, policy);
    }
  }

  /** Whatever reaches the incident writer is backed; in particular context-only input never does. */
  lemma StrongDecisionIsBacked(es: seq<Envelope>, e: Envelope, now: int, policy: Policy)
    requires e in es && !e.validation.RejectedInput? && Strong(Decide(es, e, now, policy).action)
    ensures Backed(es, e, now, policy, Decide(es, e, now, policy))
  {
    var signals, trust := Considered(es, e), EpisodeTrust(es, e);
    assert Decide(es, e, now, policy) == Evaluate(signals, now, trust, policy).decision;
    StrongActionIsBacked(signals, now, trust, policy);
    VotersAreAccepted(es, e, now, policy);
    assert signals[0].hazard == e.signal.hazard by {
      ConsideredShareKey(es, e);
      assert signals[0] in signals;
    }
    EmailIff(es, e.signal);
    DecisionMeans(signals, now, trust, policy);
  }

  lemma EmailIff(es: seq<Envelope>, s: Signal)
    ensures HasEmail(Episode(es, s)) <==> EmailOnKey(es, s)
  {
    if HasEmail(Episode(es, s)) {
      var x :| x in Episode(es, s) && x.trust.EmailUnverified?;
      assert x in es;
    }
    if EmailOnKey(es, s) {
      var x :| x in es && x.trust == EmailUnverified && x.signal.hazard == s.hazard && x.signal.domain == s.domain;
      assert x in Episode(es, s);
    }
  }

  /**
   Context-only input never goes beyond context and keeps its reasons. Any other decision is the one called for by the
   admitted signals on the hazard and domain of `e` (by `e` alone when there are none), behind email as soon as the store
   holds one there and behind the transport of `e` otherwise.
   */
  lemma DecideMeans(es: seq<Envelope>, e: Envelope, now: int, policy: Policy)
    ensures var d, signals := Decide(es, e, now, policy), Considered(es, e);
            if e.validation == ContextOnlyInput then
              && d.action == ContextOnly && d.positive == [] && d.incident == None && ContextInput in d.blocking
              && (forall w :: w in e.reasons ==> w in d.blocking)
            else
              Decides(signals, now, if EmailOnKey(es, e.signal) then EmailUnverified else e.trust, policy, d)
    ensures var signals := Considered(es, e);
            if SpokenFor(es, e.signal) then forall s :: s in signals <==> exists x :: x in es && Speaks(x, e.signal) && x.signal == s
            else signals == [e.signal]
  {
    EmailIff(es, e.signal);
    DecisionMeans(Considered(es, e), now, EpisodeTrust(es, e), policy);
    ConsideredMeans(es, e);
    if e.validation == ContextOnlyInput {
      ContextMembers(Evaluate(Considered(es, e), now, EpisodeTrust(es, e), policy).decision.blocking, e.reasons);
    }
  }

  lemma ContextMembers(blocking: seq<Why>, reasons: seq<Why>)
    ensures ContextInput in Dedup(blocking + reasons + [ContextInput])
    ensures forall w :: w in reasons ==> w in Dedup(blocking + reasons + [ContextInput])
  {
    var all := blocking + reasons + [ContextInput];
    assert all[|all| - 1] == ContextInput;
    forall w | w in reasons ensures w in all {
      var i :| 0 <= i < |reasons| && reasons[i] == w;
      assert all[|blocking| + i] == w;
    }
  }

  lemma ConsideredMeans(es: seq<Envelope>, e: Envelope)
    ensures var signals := Considered(es, e);
            if SpokenFor(es, e.signal) then forall s :: s in signals <==> exists x :: x in es && Speaks(x, e.signal) && x.signal == s
            else signals == [e.signal]
  {
    var admitted := AdmittedSignals(Episode(es, e.signal));
    if admitted != [] {
      AdmittedSpeak(es, e.signal);
    }
    forall x | x in es && Speaks(x, e.signal) ensures x.signal in admitted {
      assert x in Episode(es, e.signal);
    }
    forall s | s in admitted ensures exists x :: x in es && Speaks(x, e.signal) && x.signal == s {
      var x :| x in Episode(es, e.signal) && x.validation.Admitted? && x.signal == s;
      assert x in es && Speaks(x, e.signal);
    }
  }

  // ---- The service ----

  datatype IngestResult =
    | Decided(decision: Decision) | RefusedEnvelope | SignalDuplicateError | StoreError | WriterError

  /** What the incident writer does when it is called. */
  datatype WriterAnswer = Answers(id: Option<string>) | Raises

  /** From the stored envelopes to the decision, before the incident writer sees it. */
  method Judge(es: seq<Envelope>, e: Envelope, now: int, policy: Policy) returns (d: Decision)
    ensures d == Decide(es, e, now, policy)
  {
    var episode := Episode(es, e.signal);
    var signals := AdmittedSignals(episode);
    if signals == [] {
      signals := [e.signal];
    }
    var trust := e.trust;
    if HasEmail(episode) {
      trust := EmailUnverified;
    }
    var evaluation := EvaluateCorrelation(signals, now, trust, policy);
    d := evaluation.decision;
    if e.validation.ContextOnlyInput? {
      d := d.(action := ContextOnly, positive := [], blocking := Dedup(d.blocking + e.reasons + [ContextInput]), incident := None);
    }
  }

  /** `decide` stands for `Decide` without exposing it. */
  ghost predicate IsDecide(decide: seq<Envelope> -> Decision, e: Envelope, now: int, policy: Policy) {
    forall es {:trigger Decide(es, e, now, policy)} :: decide(es) == Decide(es, e, now, policy)
  }

  class Service {
    const repository: Repository
    const policy: Policy
    const hasWriter: bool
    /** The decisions handed to the incident writer, in order. */
    var applied: seq<Decision>

    constructor (repository: Repository, policy: Policy, hasWriter: bool)
      ensures this.repository == repository && this.policy == policy && this.hasWriter == hasWriter && applied == []
    {
      this.repository, this.policy, this.hasWriter, this.applied := repository, policy, hasWriter, [];
    }

    /** What the service does with a decision: the writer if the action calls for it, then the decision log. */
    method Conclude(d: Decision, answer: WriterAnswer) returns (r: IngestResult)
      requires repository.Valid()
      modifies this`applied, repository`decisions
      ensures repository.Valid()
      ensures r.WriterError? <==> Writes(d) && answer.Raises?
      ensures r.StoreError? <==> !r.WriterError? && repository.maxDecisions <= 0
      ensures !r.WriterError? && !r.StoreError? ==> r.Decided?
      ensures Handed(d, old(applied), applied)
      ensures applied ==
              if hasWriter && (d.action == CreateReviewIncident || d.action == UpdateIncident || d.action == MultiNodeTrigger)
              then old(applied) + [d] else old(applied)
      ensures r.Decided? ==>
                r.decision ==
                if applied != old(applied) && answer.Answers? && answer.id.Some? && answer.id.value != ""
                then d.(incident := Some(FromWriter(answer.id.value))) else d
      ensures !r.Decided? ==> repository.decisions == old(repository.decisions)
      ensures r.Decided? ==> Logged(d, answer, old(repository.decisions), repository.decisions, r.decision)
    {
      var decision := d;
      if hasWriter && Strong(decision.action) {
        applied := applied + [decision];
        if answer.Raises? {
          return WriterError;
        }
        if answer.id.Some? && answer.id.value != "" {
          decision := decision.(incident := Some(FromWriter(answer.id.value)));
        }
      }
      var failed := repository.AddDecision(decision);
      r := if failed then StoreError else Decided(decision);
    }

    predicate Writes(d: Decision) {
      hasWriter && Strong(d.action)
    }

    ghost predicate Handed(d: Decision, applied0: seq<Decision>, applied1: seq<Decision>) {
      applied1 == applied0 + (if Writes(d) then [d] else [])
    }

    /** The decision log gained `d`, with the writer's answer if there was one. */
    ghost predicate Logged(d: Decision, answer: WriterAnswer, decisions0: seq<Decision>, decisions1: seq<Decision>,
                           final: Decision) {
      && (Writes(d) ==> answer.Answers?)
      && final == (if Writes(d) then Answered(d, answer.id) else d)
      && repository.maxDecisions > 0
      && decisions1 == Newest(decisions0, repository.maxDecisions - 1) + [final]
    }

    /** What became of decision `d`. */
    ghost predicate Concluded(d: Decision, r: IngestResult, answer: WriterAnswer, applied0: seq<Decision>,
                              decisions0: seq<Decision>)
      reads this, repository
    {
      && Handed(d, applied0, applied)
      && (r.WriterError? <==> Writes(d) && answer.Raises?)
      && (r.Decided? ==> Logged(d, answer, decisions0, repository.decisions, r.decision))
    }

    /** The decision for an envelope just stored, and what follows from it; `decide` is `Decide` for this call. */
    method Settle(e: Envelope, now: int, answer: WriterAnswer, ghost decide: seq<Envelope> -> Decision)
      returns (r: IngestResult)
      requires repository.Valid() && IsDecide(decide, e, now, policy)
      modifies this`applied, repository`decisions
      ensures repository.Valid()
      ensures Concluded(decide(repository.envelopes), r, answer, old(applied), old(repository.decisions))
      ensures r.StoreError? <==> !r.WriterError? && repository.maxDecisions <= 0
      ensures !r.WriterError? && !r.StoreError? ==> r.Decided?
      ensures !r.Decided? ==> repository.decisions == old(repository.decisions)
    {
      var d := Judge(repository.envelopes, e, now, policy);
      r := Conclude(d, answer);
    }

    method Receive(e: Envelope, now: int, answer: WriterAnswer, ghost decide: seq<Envelope> -> Decision)
      returns (r: IngestResult)
      requires repository.Valid() && IsDecide(decide, e, now, policy)
      modifies this`applied, repository
      ensures repository.Valid()
      ensures r.RefusedEnvelope? <==> e.validation.RejectedInput?
      ensures r.SignalDuplicateError? <==> !e.validation.RejectedInput? && e.signal.id in old(IdsOf(repository.envelopes))
      ensures !r.Decided? ==> repository.decisions == old(repository.decisions)
      ensures r.Decided? || r.WriterError? ==> repository.maxEnvelopes > 0
      ensures r.StoreError? ==> repository.maxEnvelopes <= 0 || repository.maxDecisions <= 0
      ensures r.RefusedEnvelope? || r.SignalDuplicateError? || repository.maxEnvelopes <= 0 ==>
                repository.envelopes == old(repository.envelopes) && applied == old(applied)
      ensures !(r.RefusedEnvelope? || r.SignalDuplicateError? || repository.maxEnvelopes <= 0) ==>
                && repository.envelopes == Newest(old(repository.envelopes), repository.maxEnvelopes - 1) + [e]
                && Concluded(decide(repository.envelopes), r, answer, old(applied), old(repository.decisions))
    {
      if e.validation.RejectedInput? {
        return RefusedEnvelope;
      }
      var added := repository.AddEnvelope(e);
      if added.AlreadyKnown? {
        return SignalDuplicateError;
      }
      if added.PopFromEmpty? {
        return StoreError;
      }
      r := Settle(e, now, answer, decide);
    }

    /**
     `ingest`, with `answer` what the incident writer would do. An error from the writer or from the decision log comes after
     the envelope was stored and the writer called.
     */
    method Ingest(e: Envelope, now: int, answer: WriterAnswer) returns (r: IngestResult)
      requires repository.Valid()
      modifies this`applied, repository
      ensures repository.Valid()
      ensures r.RefusedEnvelope? <==> e.validation.RejectedInput?
      ensures r.SignalDuplicateError? <==> !e.validation.RejectedInput? && e.signal.id in old(IdsOf(repository.envelopes))
      ensures !r.Decided? ==> repository.decisions == old(repository.decisions)
      ensures r.Decided? || r.WriterError? ==> repository.maxEnvelopes > 0
      ensures r.StoreError? ==> repository.maxEnvelopes <= 0 || repository.maxDecisions <= 0
      ensures r.RefusedEnvelope? || r.SignalDuplicateError? || repository.maxEnvelopes <= 0 ==>
                repository.envelopes == old(repository.envelopes) && applied == old(applied)
      ensures !(r.RefusedEnvelope? || r.SignalDuplicateError? || repository.maxEnvelopes <= 0) ==>
                && repository.envelopes == Newest(old(repository.envelopes), repository.maxEnvelopes - 1) + [e]
                && Concluded(Decide(repository.envelopes, e, now, policy), r, answer, old(applied), old(repository.decisions))
    {
      ghost var decide := (es: seq<Envelope>) => Decide(es, e, now, policy);
      r := Receive(e, now, answer, decide);
    }

    /** The object's state is that of a run. */
    ghost predicate Follows(life: Life)
      reads this, repository
    {
      repository.envelopes == life.store && applied == DecisionsOf(life.writes)
    }

    /** With a writer and room for envelopes, `Ingest` is the step `Arrive` of a run. */
    method IngestInRun(e: Envelope, now: int, answer: WriterAnswer, ghost life: Life) returns (r: IngestResult)
      requires repository.Valid() && hasWriter && repository.maxEnvelopes > 0 && Follows(life)
      modifies this`applied, repository
      ensures repository.Valid()
      ensures Follows(After(life, Arrive(e, now), repository.maxEnvelopes, policy))
    {
      ghost var before := repository.envelopes;
      r := Ingest(e, now, answer);
      if !e.validation.RejectedInput? && e.signal.id !in IdsOf(before) {
        ArrivalWrites(life, repository.envelopes, e, now, policy);
      }
    }

    /** Likewise purging. */
    method PurgeInRun(now: int, ghost life: Life) returns (removed: nat)
      requires repository.Valid() && repository.maxEnvelopes > 0 && Follows(life)
      modifies repository
      ensures repository.Valid()
      ensures Follows(After(life, Purge(now), repository.maxEnvelopes, policy))
    {
      removed := repository.PurgeExpired(now);
    }
  }

  function DecisionsOf(writes: seq<Written>): (ds: seq<Decision>)
    ensures |ds| == |writes|
  {
    seq(|writes|, i requires 0 <= i < |writes| => writes[i].d)
  }

  /** What an arrival adds to the writes, as decisions. */
  lemma ArrivalWrites(life: Life, store: seq<Envelope>, e: Envelope, now: int, policy: Policy)
    ensures var d := Decide(store, e, now, policy);
            DecisionsOf(life.writes + Gained(store, e, now, policy)) == DecisionsOf(life.writes) + if Strong(d.action) then [d] else []
  {
  }

  // ---- Whole runs of ingests and purges ----

  datatype Op = Arrive(e: Envelope, now: int) | Purge(now: int)

  /** A decision handed to the writer, with the store and the envelope it came from. */
  datatype Written = Written(store: seq<Envelope>, e: Envelope, now: int, d: Decision)

  /** The store, everything ever stored, and everything handed to the writer. */
  datatype Life = Life(store: seq<Envelope>, history: seq<Envelope>, writes: seq<Written>)

  /** What a stored envelope adds to the writes. */
  function Gained(store: seq<Envelope>, e: Envelope, now: int, policy: Policy): seq<Written> {
    var d := Decide(store, e, now, policy);
    if Strong(d.action) then [Written(store, e, now, d)] else []
  }

  /** What `Service.Ingest` and `Repository.PurgeExpired` do, with a writer and a positive bound on envelopes. */
  function After(life: Life, op: Op, capacity: nat, policy: Policy): Life
    requires capacity > 0
  {
    match op
    case Purge(now) => life.(store := Unexpired(life.store, now))
    case Arrive(e, now) =>
      if e.validation.RejectedInput? || e.signal.id in IdsOf(life.store) then life
      else
        var store := Newest(life.store, capacity - 1) + [e];
        Life(store, life.history + [e], life.writes + Gained(store, e, now, policy))
  }

  function LifeOf(ops: seq<Op>, capacity: nat, policy: Policy): Life
    requires capacity > 0
  {
    if ops == [] then Life([], [], []) else After(LifeOf(ops[..|ops| - 1], capacity, policy), ops[|ops| - 1], capacity, policy)
  }

  ghost predicate Sound(life: Life, capacity: nat, policy: Policy) {
    && DistinctIds(life.store)
    && |life.store| <= capacity
    && AllBacked(life.writes, policy)
  }

  lemma NewestDistinct(es: seq<Envelope>, e: Envelope, n: nat)
    requires DistinctIds(es) && e.signal.id !in IdsOf(es)
    ensures DistinctIds(Newest(es, n) + [e])
  {
    var kept := Newest(es, n);
    forall i | 0 <= i < |kept| ensures kept[i].signal.id != e.signal.id {
      assert kept[i] in es;
    }
  }

  ghost predicate AllBacked(writes: seq<Written>, policy: Policy) {
    forall i :: 0 <= i < |writes| ==> Backed(writes[i].store, writes[i].e, writes[i].now, policy, writes[i].d)
  }

  lemma BackedAppend(writes: seq<Written>, w: Written, policy: Policy)
    requires AllBacked(writes, policy) && Backed(w.store, w.e, w.now, policy, w.d)
    ensures AllBacked(writes + [w], policy)
  {
  }

  lemma {:induction false} AfterDistinct(life: Life, op: Op, capacity: nat, policy: Policy)
    requires capacity > 0 && DistinctIds(life.store) && |life.store| <= capacity
    ensures DistinctIds(After(life, op, capacity, policy).store) && |After(life, op, capacity, policy).store| <= capacity
  {
    if op.Purge? {
      UnexpiredDistinct(life.store, op.now);
    } else if op.e.signal.id !in IdsOf(life.store) {
      NewestDistinct(life.store, op.e, capacity - 1);
    }
  }

  lemma {:induction false} AfterBacked(life: Life, op: Op, capacity: nat, policy: Policy)
    requires capacity > 0 && AllBacked(life.writes, policy)
    ensures AllBacked(After(life, op, capacity, policy).writes, policy)
  {
    if op.Arrive? && !op.e.validation.RejectedInput? && op.e.signal.id !in IdsOf(life.store) {
      var store := Newest(life.store, capacity - 1) + [op.e];
      var d := Decide(store, op.e, op.now, policy);
      if Strong(d.action) {
        StrongDecisionIsBacked(store, op.e, op.now, policy);
        BackedAppend(life.writes, Written(store, op.e, op.now, d), policy);
      }
    }
  }

  /**
   Over any run of ingests and purges the store holds no id twice and stays within its bound, and every decision that ever
   reached the incident writer was backed by the store of that moment.
   */
  lemma {:induction false} EveryWriteIsBacked(ops: seq<Op>, capacity: nat, policy: Policy)
    requires capacity > 0
    ensures Sound(LifeOf(ops, capacity, policy), capacity, policy)
  {
    if ops != [] {
      EveryWriteIsBacked(ops[..|ops| - 1], capacity, policy);
      AfterDistinct(LifeOf(ops[..|ops| - 1], capacity, policy), ops[|ops| - 1], capacity, policy);
      AfterBacked(LifeOf(ops[..|ops| - 1], capacity, policy), ops[|ops| - 1], capacity, policy);
    }
  }

  /**
   Without purges the store is the newest `capacity` of everything stored, so an id is refused exactly while it is among
   those and may be stored again afterwards.
   */
  lemma {:induction false} StoreIsNewest(ops: seq<Op>, capacity: nat, policy: Policy)
    requires capacity > 0 && forall i :: 0 <= i < |ops| ==> ops[i].Arrive?
    ensures var life := LifeOf(ops, capacity, policy);
            life.store == Newest(life.history, capacity)
  {
    if ops != [] {
      StoreIsNewest(ops[..|ops| - 1], capacity, policy);
      var life, e := LifeOf(ops[..|ops| - 1], capacity, policy), ops[|ops| - 1].e;
      NewestAppend(life.history, e, capacity);
    }
  }

  lemma NewestAppend(es: seq<Envelope>, e: Envelope, n: nat)
    requires n > 0
    ensures Newest(Newest(es, n), n - 1) + [e] == Newest(es + [e], n)
  {
  }
}
