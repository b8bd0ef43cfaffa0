/**
 The SMTP publisher: a bounded first-in first-out queue with suppression of unchanged updates at publish time and
 bounded retry at its head. Times are seconds; the sender's outcome, the jitter draw and the MIME encoding of a signal
 are inputs of each call.
 */
module Smtp {
  import opened Basics
  import opened Sorting

  /** `fingerprint` stands for the digest of the fields that make two signals semantically different. */
  datatype Signal = Signal(id: string, episode: string, fingerprint: string, expiresAt: real)

  datatype Config = Config(maxItems: int, maxAge: real, initialBackoff: real, maxBackoff: real, maxAttempts: int,
                           minInterval: real)

  datatype Queued = Queued(signal: Signal, raw: string, enqueuedAt: real, nextAttemptAt: real, attempts: nat)

  datatype Sent = Sent(fingerprint: string, at: real)

  /** The publisher's fields as a value. */
  datatype View = View(queue: seq<Queued>, sent: map<string, Sent>)

  datatype PublishResult = ExpiredSignal | Suppressed | QueueFull | Accepted | EncodingRaised

  datatype DrainResult = Empty | NotDue | ExpiredItem | DeadLetter | RetryScheduled | Delivered

  // ---- Specification of the two operations ----

  predicate SameUpdate(a: Signal, b: Signal) {
    a.episode == b.episode && a.fingerprint == b.fingerprint
  }

  predicate Pending(queue: seq<Queued>, signal: Signal) {
    exists i :: 0 <= i < |queue| && SameUpdate(queue[i].signal, signal)
  }

  predicate Recent(c: Config, v: View, signal: Signal, now: real) {
    signal.episode in v.sent && v.sent[signal.episode].fingerprint == signal.fingerprint &&
    now - v.sent[signal.episode].at < c.minInterval
  }

  function PublishOutcome(c: Config, v: View, signal: Signal, encoded: Option<string>, now: real): PublishResult {
    if signal.expiresAt <= now then ExpiredSignal
    else if Recent(c, v, signal, now) || Pending(v.queue, signal) then Suppressed
    else if encoded.None? then EncodingRaised
    else if |v.queue| >= c.maxItems then QueueFull
    else Accepted
  }

  function PublishView(c: Config, v: View, signal: Signal, encoded: Option<string>, now: real): View {
    if PublishOutcome(c, v, signal, encoded, now) == Accepted
    then v.(queue := v.queue + [Queued(signal, encoded.value, now, now, 0)])
    else v
  }

  function Pow2(n: nat): (r: nat)
    ensures r >= 1
  {
    if n == 0 then 1 else 2 * Pow2(n - 1)
  }

  /** Delay after the `attempts`-th failure. */
  function Backoff(c: Config, attempts: nat): real
    requires attempts >= 1
  {
    var grown := c.initialBackoff * Pow2(attempts - 1) as real;
    if c.maxBackoff <= grown then c.maxBackoff else grown
  }

  /** The next attempt after the `attempts`-th failure: the backoff plus up to a tenth of it. */
  function RetryAt(c: Config, attempts: nat, random: real, now: real): real
    requires attempts >= 1
  {
    var delay := Backoff(c, attempts);
    now + (delay + delay * 0.1 * random)
  }

  predicate Stale(c: Config, item: Queued, now: real) {
    item.signal.expiresAt <= now || now - item.enqueuedAt > c.maxAge
  }

  function DrainOutcome(c: Config, v: View, delivered: bool, now: real): DrainResult {
    if v.queue == [] then Empty
    else if now < v.queue[0].nextAttemptAt then NotDue
    else if Stale(c, v.queue[0], now) then ExpiredItem
    else if delivered then Delivered
    else if v.queue[0].attempts + 1 >= c.maxAttempts then DeadLetter
    else RetryScheduled
  }

  function DrainView(c: Config, v: View, delivered: bool, random: real, now: real): View {
    match DrainOutcome(c, v, delivered, now)
    case Empty => v
    case NotDue => v
    case ExpiredItem => v.(queue := v.queue[1..])
    case DeadLetter => v.(queue := v.queue[1..])
    case RetryScheduled =>
      var item := v.queue[0];
      var retryAt := RetryAt(c, item.attempts + 1, random, now);
      v.(queue := v.queue[0 := item.(attempts := item.attempts + 1, nextAttemptAt := retryAt)])
    case Delivered =>
      var s := v.queue[0].signal;
      View(v.queue[1..], v.sent[s.episode := Sent(s.fingerprint, now)])
  }

  /** Whether this drain calls the sender. */
  predicate CallsSender(r: DrainResult) {
    r.Delivered? || r.DeadLetter? || r.RetryScheduled?
  }

  // ---- The publisher ----

  class Publisher {
    const config: Config
    var queue: seq<Queued>
    var sentByEpisode: map<string, Sent>

    ghost function Value(): View
      reads this
    {
      View(queue, sentByEpisode)
    }

    constructor (config: Config)
      ensures this.config == config && Value() == View([], map[])
    {
      this.config := config;
      queue, sentByEpisode := [], map[];
    }

    method Publish(signal: Signal, encoded: Option<string>, now: real) returns (r: PublishResult)
      modifies this`queue
      ensures r == PublishOutcome(config, old(Value()), signal, encoded, now)
      ensures Value() == PublishView(config, old(Value()), signal, encoded, now)
      ensures var repeated := exists i :: 0 <= i < |old(queue)| && old(queue)[i].signal.episode == signal.episode
                                          && old(queue)[i].signal.fingerprint == signal.fingerprint;
              var recent := signal.episode in sentByEpisode && sentByEpisode[signal.episode].fingerprint == signal.fingerprint
                            && now - sentByEpisode[signal.episode].at < config.minInterval;
              && (r == ExpiredSignal <==> signal.expiresAt <= now)
              && (r == Suppressed <==> now < signal.expiresAt && (repeated || recent))
              && (r == EncodingRaised <==> now < signal.expiresAt && !repeated && !recent && encoded == None)
              && (r == QueueFull <==>
                    now < signal.expiresAt && !repeated && !recent && encoded != None && |old(queue)| >= config.maxItems)
              && queue == if r == Accepted then old(queue) + [Queued(signal, encoded.value, now, now, 0)] else old(queue)
    {
      if signal.expiresAt <= now {
        return ExpiredSignal;
      }
      if signal.episode in sentByEpisode {
        var previous := sentByEpisode[signal.episode];
        if previous.fingerprint == signal.fingerprint && now - previous.at < config.minInterval {
          return Suppressed;
        }
      }
      for i := 0 to |queue|
        invariant forall j :: 0 <= j < i ==> !SameUpdate(queue[j].signal, signal)
      {
        if queue[i].signal.episode == signal.episode && queue[i].signal.fingerprint == signal.fingerprint {
          assert SameUpdate(queue[i].signal, signal);
          return Suppressed;
        }
      }
      if encoded.None? {
        return EncodingRaised;
      }
      if |queue| >= config.maxItems {
        return QueueFull;
      }
      queue := queue + [Queued(signal, encoded.value, now, now, 0)];
      r := Accepted;
    }

    method DrainOnce(delivered: bool, random: real, now: real) returns (r: DrainResult)
      modifies this
      ensures r == DrainOutcome(config, old(Value()), delivered, now)
      ensures Value() == DrainView(config, old(Value()), delivered, random, now)
      ensures r == Empty <==> old(queue) == []
      ensures r != Empty ==>
                var item := old(queue[0]);
                var live := now < item.signal.expiresAt && now - item.enqueuedAt <= config.maxAge;
                && (r == NotDue <==> now < item.nextAttemptAt)
                && (r == ExpiredItem <==> item.nextAttemptAt <= now && !live)
                && (r == Delivered <==> item.nextAttemptAt <= now && live && delivered)
                && (r == DeadLetter <==> item.nextAttemptAt <= now && live && !delivered && item.attempts + 1 >= config.maxAttempts)
      ensures r == Empty || r == NotDue ==> queue == old(queue)
      ensures r == ExpiredItem || r == Delivered || r == DeadLetter ==> queue == old(queue)[1..]
      ensures sentByEpisode ==
              if r == Delivered then
                var s := old(queue[0]).signal; old(sentByEpisode)[s.episode := Sent(s.fingerprint, now)]
              else old(sentByEpisode)
    {
      if queue == [] {
        return Empty;
      }
      var item := queue[0];
      if now < item.nextAttemptAt {
        return NotDue;
      }
      if item.signal.expiresAt <= now || now - item.enqueuedAt > config.maxAge {
        queue := queue[1..];
        return ExpiredItem;
      }
      if !delivered {
        item := item.(attempts := item.attempts + 1);
        if item.attempts >= config.maxAttempts {
          queue := queue[1..];
          return DeadLetter;
        }
        item := item.(nextAttemptAt := RetryAt(config, item.attempts, random, now));
        queue := queue[0 := item];
        return RetryScheduled;
      }
      queue := queue[1..];
      sentByEpisode := sentByEpisode[item.signal.episode := Sent(item.signal.fingerprint, now)];
      r := Delivered;
    }
  }

  // ---- Runs ----

  datatype Op =
    | DoPublish(signal: Signal, encoded: Option<string>, now: real)
    | DoDrain(delivered: bool, random: real, now: real)

  datatype Fate = WasSent | WasExpired | WasDead

  datatype Send = Send(signal: Signal, at: real)

  /** A call of the sender for the accepted signal number `item`. */
  datatype Call = Call(item: nat, at: real, delivered: bool)

  /** What happened: the signals accepted in order, the fate of those removed, sender calls per accepted signal and in order. */
  datatype History = History(accepted: seq<Signal>, fates: seq<Fate>, calls: seq<nat>, sends: seq<Send>, log: seq<Call>)

  datatype World = World(v: View, h: History)

  function Note(c: Config, v: View, h: History, op: Op): History {
    match op
    case DoPublish(signal, encoded, now) =>
      if PublishOutcome(c, v, signal, encoded, now) == Accepted
      then h.(accepted := h.accepted + [signal], calls := h.calls + [0])
      else h
    case DoDrain(delivered, random, now) =>
      var r := DrainOutcome(c, v, delivered, now);
      var k := |h.fates|;
      var calls := if CallsSender(r) && k < |h.calls| then h.calls[k := h.calls[k] + 1] else h.calls;
      match r
      case Empty => h
      case NotDue => h
      case ExpiredItem => h.(fates := h.fates + [WasExpired])
      case DeadLetter => h.(fates := h.fates + [WasDead], calls := calls, log := h.log + [Call(k, now, false)])
      case RetryScheduled => h.(calls := calls, log := h.log + [Call(k, now, false)])
      case Delivered =>
        h.(fates := h.fates + [WasSent], calls := calls, sends := h.sends + [Send(v.queue[0].signal, now)],
           log := h.log + [Call(k, now, true)])
  }

  function Next(c: Config, w: World, op: Op): World {
    var v := match op
      case DoPublish(signal, encoded, now) => PublishView(c, w.v, signal, encoded, now)
      case DoDrain(delivered, random, now) => DrainView(c, w.v, delivered, random, now);
    World(v, Note(c, w.v, w.h, op))
  }

  /** `w'` follows from `w` by `ops`. */
  ghost predicate Reaches(c: Config, w: World, ops: seq<Op>, w': World)
    decreases |ops|
  {
    if ops == [] then w' == w else Reaches(c, Next(c, w, ops[0]), ops[1..], w')
  }

  const Init := World(View([], map[]), History([], [], [], [], []))

  // ---- Conservation, order and attempts ----

  function AttemptLimit(c: Config): (n: nat)
    ensures n >= 1
  {
    if c.maxAttempts <= 1 then 1 else c.maxAttempts
  }

  /** The queue is the tail of the accepted signals, in order, and each item's failures are its sender calls. */
  ghost predicate QueueInv(c: Config, w: World) {
    var h, q := w.h, w.v.queue;
    && |h.accepted| == |h.fates| + |q|
    && |h.calls| == |h.accepted|
    && (forall i :: 0 <= i < |q| ==> q[i].signal == h.accepted[|h.fates| + i])
    && (forall i :: 0 <= i < |q| ==> q[i].attempts == h.calls[|h.fates| + i] && q[i].attempts < AttemptLimit(c))
    && (forall i :: 0 <= i < |h.calls| ==> h.calls[i] <= AttemptLimit(c))
  }

  ghost predicate Distinct(q: seq<Queued>) {
    forall i, j :: 0 <= i < j < |q| ==> !SameUpdate(q[i].signal, q[j].signal)
  }

  /** The accepted signals whose fate was `fate`, in acceptance order. */
  function WithFate(accepted: seq<Signal>, fates: seq<Fate>, fate: Fate): seq<Signal>
    requires |fates| <= |accepted|
  {
    if fates == [] then []
    else
      var n := |fates| - 1;
      var front := WithFate(accepted, fates[..n], fate);
      if fates[n] == fate then front + [accepted[n]] else front
  }

  function SendSignals(sends: seq<Send>): seq<Signal> {
    seq(|sends|, i requires 0 <= i < |sends| => sends[i].signal)
  }

  /** Exactly the signals with fate "sent" were sent, in acceptance order and before they expired. */
  ghost predicate SendInv(h: History) {
    && |h.fates| <= |h.accepted|
    && SendSignals(h.sends) == WithFate(h.accepted, h.fates, WasSent)
    && (forall i :: 0 <= i < |h.sends| ==> h.sends[i].at < h.sends[i].signal.expiresAt)
  }

  lemma QueuePublish(c: Config, w: World, op: Op)
    requires QueueInv(c, w) && op.DoPublish?
    ensures QueueInv(c, Next(c, w, op))
  {
  }

  /** Removing the head moves the boundary between decided and queued signals by one. */
  lemma QueuePop(c: Config, w: World, w': World, fate: Fate, calls: seq<nat>)
    requires QueueInv(c, w) && w.v.queue != []
    requires w'.v.queue == w.v.queue[1..] && w'.h.fates == w.h.fates + [fate]
    requires w'.h.accepted == w.h.accepted && w'.h.calls == calls && |calls| == |w.h.calls|
    requires forall i :: 0 <= i < |calls| && i != |w.h.fates| ==> calls[i] == w.h.calls[i]
    requires calls[|w.h.fates|] <= AttemptLimit(c)
    ensures QueueInv(c, w')
  {
    var q, q', n := w.v.queue, w'.v.queue, |w.h.fates|;
    forall i | 0 <= i < |q'|
      ensures q'[i].signal == w'.h.accepted[|w'.h.fates| + i] && q'[i].attempts == calls[|w'.h.fates| + i]
    {
      assert q'[i] == q[i + 1];
      assert q[i + 1].attempts == w.h.calls[n + (i + 1)];
    }
  }

  lemma QueueRetry(c: Config, w: World, op: Op)
    requires QueueInv(c, w)
    requires op.DoDrain? && DrainOutcome(c, w.v, op.delivered, op.now).RetryScheduled?
    ensures QueueInv(c, Next(c, w, op))
  {
    var q, q', n := w.v.queue, Next(c, w, op).v.queue, |w.h.fates|;
    assert q[0].attempts == w.h.calls[n + 0];
    forall i | 0 < i < |q'| ensures q'[i] == q[i] {
    }
  }

  lemma QueueStep(c: Config, w: World, op: Op)
    requires QueueInv(c, w)
    ensures QueueInv(c, Next(c, w, op))
  {
    if op.DoPublish? {
      QueuePublish(c, w, op);
    } else {
      var r := DrainOutcome(c, w.v, op.delivered, op.now);
      var w' := Next(c, w, op);
      if r.RetryScheduled? {
        QueueRetry(c, w, op);
      } else if r.ExpiredItem? || r.DeadLetter? || r.Delivered? {
        assert w.v.queue[0].attempts == w.h.calls[|w.h.fates| + 0];
        QueuePop(c, w, w', w'.h.fates[|w.h.fates|], w'.h.calls);
      }
    }
  }

  lemma DistinctStep(c: Config, w: World, op: Op)
    requires Distinct(w.v.queue)
    ensures Distinct(Next(c, w, op).v.queue)
  {
  }

  lemma {:induction false} WithFatePrefix(accepted: seq<Signal>, more: seq<Signal>, fates: seq<Fate>, fate: Fate)
    requires |fates| <= |accepted|
    ensures WithFate(accepted + more, fates, fate) == WithFate(accepted, fates, fate)
  {
    if fates != [] {
      WithFatePrefix(accepted, more, fates[..|fates| - 1], fate);
    }
  }

  lemma WithFateAppend(accepted: seq<Signal>, fates: seq<Fate>, last: Fate, fate: Fate)
    requires |fates| < |accepted|
    ensures WithFate(accepted, fates + [last], fate) ==
            WithFate(accepted, fates, fate) + (if last == fate then [accepted[|fates|]] else [])
  {
    assert (fates + [last])[..|fates|] == fates;
  }

  lemma SendStep(c: Config, w: World, op: Op)
    requires QueueInv(c, w) && SendInv(w.h)
    ensures SendInv(Next(c, w, op).h)
  {
    var h, h' := w.h, Next(c, w, op).h;
    match op
    case DoPublish(signal, _, _) =>
      WithFatePrefix(h.accepted, [signal], h.fates, WasSent);
    case DoDrain(_, _, _) =>
      if |h'.fates| > |h.fates| {
        WithFateAppend(h.accepted, h.fates, h'.fates[|h.fates|], WasSent);
        if |h'.sends| > |h.sends| {
          assert SendSignals(h'.sends) == SendSignals(h.sends) + [w.v.queue[0].signal];
        }
      }
  }

  // ---- Spacing of repeated updates ----

  /** No send between `i` and `j` belongs to the episode of `j`. */
  ghost predicate Consecutive(sends: seq<Send>, i: nat, j: nat)
    requires i < j < |sends|
  {
    && sends[i].signal.episode == sends[j].signal.episode
    && forall k :: i < k < j ==> sends[k].signal.episode != sends[j].signal.episode
  }

  /** The latest send of an episode. */
  function LastSend(sends: seq<Send>, episode: string): Option<Sent> {
    if sends == [] then None
    else
      var s := sends[|sends| - 1];
      if s.signal.episode == episode then Some(Sent(s.signal.fingerprint, s.at))
      else LastSend(sends[..|sends| - 1], episode)
  }

  /** Every send that repeats the previous one of its episode is at least the minimum interval after it. */
  ghost predicate Spaced(c: Config, sends: seq<Send>) {
    sends == [] ||
    var front, s := sends[..|sends| - 1], sends[|sends| - 1];
    && Spaced(c, front)
    && var previous := LastSend(front, s.signal.episode);
       previous.Some? && previous.value.fingerprint == s.signal.fingerprint ==> s.at - previous.value.at >= c.minInterval
  }

  /** `sent` records the last send of each episode. */
  ghost predicate LastSends(sent: map<string, Sent>, sends: seq<Send>) {
    forall e :: LastSend(sends, e) == if e in sent then Some(sent[e]) else None
  }

  /** A queued repeat of its episode's last send was enqueued at least the minimum interval after that send. */
  ghost predicate RepeatsWaited(c: Config, v: View) {
    forall i :: 0 <= i < |v.queue| ==>
      var s := v.queue[i].signal;
      s.episode in v.sent && v.sent[s.episode].fingerprint == s.fingerprint ==>
        v.queue[i].enqueuedAt - v.sent[s.episode].at >= c.minInterval
  }

  lemma RepeatsStep(c: Config, w: World, op: Op)
    requires Distinct(w.v.queue) && RepeatsWaited(c, w.v)
    ensures RepeatsWaited(c, Next(c, w, op).v)
  {
  }

  lemma SpacedStep(c: Config, w: World, op: Op)
    requires EnqueuedBy(w.v.queue, op.now)
    requires RepeatsWaited(c, w.v) && LastSends(w.v.sent, w.h.sends) && Spaced(c, w.h.sends)
    ensures LastSends(Next(c, w, op).v.sent, Next(c, w, op).h.sends)
    ensures Spaced(c, Next(c, w, op).h.sends)
  {
    if op.DoDrain? && DrainOutcome(c, w.v, op.delivered, op.now).Delivered? {
      SendSpaced(c, w.v, w.h.sends, Send(w.v.queue[0].signal, op.now));
      LastSendsExtended(w.v.sent, w.h.sends, Send(w.v.queue[0].signal, op.now));
    }
  }

  lemma LastSendsExtended(sent: map<string, Sent>, sends: seq<Send>, s: Send)
    requires LastSends(sent, sends)
    ensures LastSends(sent[s.signal.episode := Sent(s.signal.fingerprint, s.at)], sends + [s])
  {
    assert (sends + [s])[..|sends|] == sends;
  }

  lemma SendSpaced(c: Config, v: View, sends: seq<Send>, s: Send)
    requires v.queue != [] && s.signal == v.queue[0].signal && v.queue[0].enqueuedAt <= s.at
    requires RepeatsWaited(c, v) && LastSends(v.sent, sends) && Spaced(c, sends)
    ensures Spaced(c, sends + [s])
  {
    assert (sends + [s])[..|sends|] == sends;
  }

  lemma {:induction false} LastSendFound(sends: seq<Send>, i: nat)
    requires i < |sends| && forall k :: i < k < |sends| ==> sends[k].signal.episode != sends[i].signal.episode
    ensures LastSend(sends, sends[i].signal.episode) == Some(Sent(sends[i].signal.fingerprint, sends[i].at))
  {
    if i < |sends| - 1 {
      LastSendFound(sends[..|sends| - 1], i);
    }
  }

  /** Spacing, read off the log of sends. */
  lemma {:induction false} SpacedApart(c: Config, sends: seq<Send>, i: nat, j: nat)
    requires Spaced(c, sends) && i < j < |sends| && Consecutive(sends, i, j)
    requires SameUpdate(sends[i].signal, sends[j].signal)
    ensures sends[j].at - sends[i].at >= c.minInterval
  {
    var front := sends[..|sends| - 1];
    if j < |sends| - 1 {
      assert Consecutive(front, i, j) by {
        assert forall k :: i < k < j ==> front[k] == sends[k];
      }
      SpacedApart(c, front, i, j);
    } else {
      forall k | i < k < |front| ensures front[k].signal.episode != front[i].signal.episode {
        assert front[k] == sends[k];
      }
      LastSendFound(front, i);
    }
  }

  // ---- Every run ----

  ghost predicate Inv(c: Config, w: World) {
    QueueInv(c, w) && Distinct(w.v.queue) && SendInv(w.h)
  }

  lemma {:induction false} InvRun(c: Config, w: World, ops: seq<Op>, w': World)
    requires Reaches(c, w, ops, w') && Inv(c, w)
    ensures Inv(c, w')
    decreases |ops|
  {
    if ops != [] {
      QueueStep(c, w, ops[0]);
      DistinctStep(c, w, ops[0]);
      SendStep(c, w, ops[0]);
      InvRun(c, Next(c, w, ops[0]), ops[1..], w');
    }
  }

  /** The clock readings never go back. */
  ghost predicate NonDecreasing(ops: seq<Op>) {
    forall i, j :: 0 <= i < j < |ops| ==> ops[i].now <= ops[j].now
  }

  ghost predicate EnqueuedBy(q: seq<Queued>, now: real) {
    forall i :: 0 <= i < |q| ==> q[i].enqueuedAt <= now
  }

  ghost predicate SpacingInv(c: Config, w: World) {
    && Distinct(w.v.queue)
    && RepeatsWaited(c, w.v) && LastSends(w.v.sent, w.h.sends) && Spaced(c, w.h.sends)
  }

  lemma EnqueuedStep(c: Config, w: World, op: Op)
    requires EnqueuedBy(w.v.queue, op.now)
    ensures EnqueuedBy(Next(c, w, op).v.queue, op.now)
  {
  }

  lemma {:induction false} SpacingRun(c: Config, w: World, ops: seq<Op>, w': World)
    requires Reaches(c, w, ops, w') && NonDecreasing(ops) && SpacingInv(c, w)
    requires ops != [] ==> EnqueuedBy(w.v.queue, ops[0].now)
    ensures SpacingInv(c, w')
    decreases |ops|
  {
    if ops != [] {
      DistinctStep(c, w, ops[0]);
      RepeatsStep(c, w, ops[0]);
      SpacedStep(c, w, ops[0]);
      EnqueuedStep(c, w, ops[0]);
      if |ops| > 1 {
        assert ops[0].now <= ops[1].now;
      }
      SpacingRun(c, Next(c, w, ops[0]), ops[1..], w');
    }
  }

  /** How many accepted signals met `fate`. */
  function Count(fates: seq<Fate>, fate: Fate): nat {
    if fates == [] then 0 else Count(fates[..|fates| - 1], fate) + (if fates[|fates| - 1] == fate then 1 else 0)
  }

  lemma {:induction false} FatesAddUp(fates: seq<Fate>)
    ensures |fates| == Count(fates, WasSent) + Count(fates, WasExpired) + Count(fates, WasDead)
  {
    if fates != [] {
      FatesAddUp(fates[..|fates| - 1]);
    }
  }

  /**
   Over every run, whatever the clock does: accepted = sent + expired + dead-lettered + pending; what is pending is the tail
   of what was accepted;
   sends happen in acceptance order and before expiry; the sender is called at most the attempt limit per signal; and no
   two queued signals are the same update of the same episode.
   */
  lemma QueueConserves(c: Config, ops: seq<Op>, w: World)
    requires Reaches(c, Init, ops, w)
    ensures |w.h.accepted| == |w.h.fates| + |w.v.queue|
    ensures |w.h.accepted| ==
            Count(w.h.fates, WasSent) + Count(w.h.fates, WasExpired) + Count(w.h.fates, WasDead) + |w.v.queue|
    ensures forall i :: 0 <= i < |w.v.queue| ==> w.v.queue[i].signal == w.h.accepted[|w.h.fates| + i]
    ensures SendSignals(w.h.sends) == WithFate(w.h.accepted, w.h.fates, WasSent)
    ensures forall i :: 0 <= i < |w.h.sends| ==> w.h.sends[i].at < w.h.sends[i].signal.expiresAt
    ensures |w.h.calls| == |w.h.accepted| && forall i :: 0 <= i < |w.h.calls| ==> w.h.calls[i] <= AttemptLimit(c)
    ensures Distinct(w.v.queue)
  {
    InvRun(c, Init, ops, w);
    FatesAddUp(w.h.fates);
  }

  /**
   Over every run with a clock that never goes back, two consecutive sends of one episode with the same fingerprint are
   at least the minimum update interval apart, although the interval is only checked when publishing.
   */
  lemma RepeatedSendsAreSpaced(c: Config, ops: seq<Op>, w: World, i: nat, j: nat)
    requires Reaches(c, Init, ops, w) && NonDecreasing(ops)
    requires i < j < |w.h.sends| && Consecutive(w.h.sends, i, j)
    requires SameUpdate(w.h.sends[i].signal, w.h.sends[j].signal)
    ensures w.h.sends[j].at - w.h.sends[i].at >= c.minInterval
  {
    SpacingRun(c, Init, ops, w);
    SpacedApart(c, w.h.sends, i, j);
  }

  // ---- Retry ----

  function Left(c: Config): Queued -> int {
    (item: Queued) => AttemptLimit(c) - item.attempts
  }

  /** Attempts the queued signals still have. */
  function Potential(c: Config, q: seq<Queued>): int {
    SumBy(q, Left(c))
  }

  /** A drain of a due head uses up an attempt or removes the head; any other drain changes nothing. */
  lemma DueDrainLowersPotential(c: Config, v: View, delivered: bool, random: real, now: real)
    requires forall i :: 0 <= i < |v.queue| ==> v.queue[i].attempts < AttemptLimit(c)
    ensures var q' := DrainView(c, v, delivered, random, now).queue;
            if v.queue != [] && v.queue[0].nextAttemptAt <= now then 0 <= Potential(c, q') < Potential(c, v.queue)
            else q' == v.queue
  {
    if v.queue != [] && v.queue[0].nextAttemptAt <= now {
      var item := v.queue[0];
      PotentialOfTail(c, v.queue);
      if DrainOutcome(c, v, delivered, now).RetryScheduled? {
        PotentialOfRetry(c, v.queue, item.(attempts := item.attempts + 1,
                                           nextAttemptAt := RetryAt(c, item.attempts + 1, random, now)));
      }
    }
  }

  lemma PotentialOfTail(c: Config, q: seq<Queued>)
    requires q != [] && forall i :: 0 <= i < |q| ==> q[i].attempts < AttemptLimit(c)
    ensures 0 <= Potential(c, q[1..]) < Potential(c, q)
  {
    SumWithout(q, Left(c), 0);
    assert Without(q, 0) == q[1..];
    SumNonNegative(q[1..], Left(c));
  }

  lemma PotentialOfRetry(c: Config, q: seq<Queued>, item: Queued)
    requires q != [] && item.attempts == q[0].attempts + 1 && item.attempts <= AttemptLimit(c)
    requires forall i :: 0 <= i < |q| ==> q[i].attempts < AttemptLimit(c)
    ensures 0 <= Potential(c, q[0 := item]) < Potential(c, q)
  {
    SumUpdate(q, Left(c), 0, item);
    SumNonNegative(q[0 := item], Left(c));
  }

  /** Backoff never exceeds its cap and never shrinks as failures accumulate. */
  lemma BackoffGrows(c: Config, attempts: nat)
    requires attempts >= 1 && 0.0 <= c.initialBackoff && 0.0 <= c.maxBackoff
    ensures 0.0 <= Backoff(c, attempts) <= Backoff(c, attempts + 1) <= c.maxBackoff
  {
    var p := Pow2(attempts - 1);
    assert Pow2(attempts) == 2 * p;
    assert c.initialBackoff * (2 * p) as real == 2.0 * (c.initialBackoff * p as real);
  }

  // ---- What can be sent at one instant ----

  function SendsAt(updates: seq<Signal>, now: real): (r: seq<Send>)
    ensures |r| == |updates| && forall i :: 0 <= i < |r| ==> r[i] == Send(updates[i], now)
  {
    seq(|updates|, i requires 0 <= i < |updates| => Send(updates[i], now))
  }

  /** Some run whose clock never goes back sends exactly these updates, in this order, all at `now`. */
  ghost predicate SendableAtOnce(c: Config, updates: seq<Signal>, now: real) {
    exists ops, w :: Reaches(c, Init, ops, w) && NonDecreasing(ops) && w.h.sends == SendsAt(updates, now)
  }

  /** No update repeats the one before it of the same episode. */
  ghost predicate NoImmediateRepeat(updates: seq<Signal>, now: real) {
    var sends := SendsAt(updates, now);
    forall i, j :: 0 <= i < j < |sends| && Consecutive(sends, i, j) ==> !SameUpdate(sends[i].signal, sends[j].signal)
  }

  lemma {:induction false} Append(c: Config, w: World, ops: seq<Op>, w': World, op: Op)
    requires Reaches(c, w, ops, w')
    ensures Reaches(c, w, ops + [op], Next(c, w', op))
    decreases |ops|
  {
    if ops == [] {
      assert [op][1..] == [] && ops + [op] == [op];
    } else {
      Append(c, Next(c, w, ops[0]), ops[1..], w', op);
      assert (ops + [op])[1..] == ops[1..] + [op];
    }
  }

  /** Publishing an update on an empty queue and draining at once sends it. */
  lemma PublishAndSend(c: Config, w: World, s: Signal, now: real)
    requires c.maxItems >= 1 && c.maxAge >= 0.0
    requires w.v.queue == [] && s.expiresAt > now && !Recent(c, w.v, s, now)
    ensures var w' := Next(c, Next(c, w, DoPublish(s, Some(""), now)), DoDrain(true, 0.0, now));
            w'.v.queue == [] && w'.h.sends == w.h.sends + [Send(s, now)]
  {
    var w1 := Next(c, w, DoPublish(s, Some(""), now));
    assert w1.v.queue == [Queued(s, "", now, now, 0)];
  }

  lemma {:induction false} LastSendIndex(sends: seq<Send>, episode: string) returns (i: nat)
    requires LastSend(sends, episode).Some?
    ensures i < |sends| && sends[i].signal.episode == episode
    ensures LastSend(sends, episode) == Some(Sent(sends[i].signal.fingerprint, sends[i].at))
    ensures forall k :: i < k < |sends| ==> sends[k].signal.episode != episode
  {
    if sends[|sends| - 1].signal.episode == episode {
      i := |sends| - 1;
    } else {
      i := LastSendIndex(sends[..|sends| - 1], episode);
    }
  }

  /** A varied list is not held up by the suppression of recent updates. */
  lemma NotRecent(c: Config, v: View, updates: seq<Signal>, now: real)
    requires updates != [] && NoImmediateRepeat(updates, now)
    requires LastSends(v.sent, SendsAt(updates[..|updates| - 1], now))
    ensures !Recent(c, v, updates[|updates| - 1], now)
  {
    var n := |updates| - 1;
    var s, front, sends := updates[n], SendsAt(updates[..n], now), SendsAt(updates, now);
    assert LastSend(front, s.episode) == if s.episode in v.sent then Some(v.sent[s.episode]) else None;
    if s.episode in v.sent {
      var i := LastSendIndex(front, s.episode);
      assert forall k :: 0 <= k < n ==> front[k] == sends[k];
      assert Consecutive(sends, i, n);
    }
  }

  lemma VariedPrefix(updates: seq<Signal>, now: real)
    requires updates != [] && NoImmediateRepeat(updates, now)
    ensures NoImmediateRepeat(updates[..|updates| - 1], now)
  {
    var front, sends := SendsAt(updates[..|updates| - 1], now), SendsAt(updates, now);
    assert forall k :: 0 <= k < |front| ==> front[k] == sends[k];
    forall i, j | 0 <= i < j < |front| && Consecutive(front, i, j) ensures !SameUpdate(front[i].signal, front[j].signal) {
      assert Consecutive(sends, i, j);
    }
  }

  lemma {:induction false} SendAll(c: Config, updates: seq<Signal>, now: real) returns (ops: seq<Op>, w: World)
    requires c.maxItems >= 1 && c.maxAge >= 0.0
    requires NoImmediateRepeat(updates, now) && forall i :: 0 <= i < |updates| ==> updates[i].expiresAt > now
    ensures Reaches(c, Init, ops, w) && (forall i :: 0 <= i < |ops| ==> ops[i].now == now)
    ensures w.v.queue == [] && w.h.sends == SendsAt(updates, now)
  {
    if updates == [] {
      ops, w := [], Init;
    } else {
      var n := |updates| - 1;
      VariedPrefix(updates, now);
      var ops0, w0 := SendAll(c, updates[..n], now);
      SpacingRun(c, Init, ops0, w0);
      NotRecent(c, w0.v, updates, now);
      PublishAndSend(c, w0, updates[n], now);
      var publish, drain := DoPublish(updates[n], Some(""), now), DoDrain(true, 0.0, now);
      Append(c, Init, ops0, w0, publish);
      Append(c, Init, ops0 + [publish], Next(c, w0, publish), drain);
      ops, w := ops0 + [publish] + [drain], Next(c, Next(c, w0, publish), drain);
    }
  }

  /**
   The interval limits nothing but immediate repeats: any number of updates can be sent at one instant if and only if none
   has expired and none repeats the previous one of its episode.
   */
  lemma SendableAtOnceIff(c: Config, updates: seq<Signal>, now: real)
    requires c.minInterval > 0.0 && c.maxItems >= 1 && c.maxAge >= 0.0
    ensures SendableAtOnce(c, updates, now) <==>
            NoImmediateRepeat(updates, now) && forall i :: 0 <= i < |updates| ==> updates[i].expiresAt > now
  {
    if SendableAtOnce(c, updates, now) {
      var ops, w :| Reaches(c, Init, ops, w) && NonDecreasing(ops) && w.h.sends == SendsAt(updates, now);
      QueueConserves(c, ops, w);
      assert forall i :: 0 <= i < |updates| ==> w.h.sends[i].at < w.h.sends[i].signal.expiresAt;
      var sends := SendsAt(updates, now);
      forall i, j | 0 <= i < j < |sends| && Consecutive(sends, i, j) ensures !SameUpdate(sends[i].signal, sends[j].signal) {
        if SameUpdate(sends[i].signal, sends[j].signal) {
          RepeatedSendsAreSpaced(c, ops, w, i, j);
        }
      }
    }
    if NoImmediateRepeat(updates, now) && forall i :: 0 <= i < |updates| ==> updates[i].expiresAt > now {
      var ops, w := SendAll(c, updates, now);
      assert NonDecreasing(ops);
    }
  }

  /** Two contents in turn, `n` updates in all. */
  function Alternating(n: nat): (r: seq<Signal>)
    ensures |r| == n
  {
    var f, g := Signal("1", "e", "f", 1.0), Signal("2", "e", "g", 1.0);
    seq(n, i requires 0 <= i < n => if i % 2 == 0 then f else g)
  }

  /** In particular one episode can be updated any number of times at one instant. */
  lemma AlternatingUpdatesEscape(c: Config, n: nat)
    requires c.minInterval > 0.0 && c.maxItems >= 1 && c.maxAge >= 0.0
    ensures SendableAtOnce(c, Alternating(n), 0.0)
  {
    var sends := SendsAt(Alternating(n), 0.0);
    forall i, j | 0 <= i < j < n && SameUpdate(sends[i].signal, sends[j].signal) ensures !Consecutive(sends, i, j) {
      assert i + 1 < j;
      assert sends[i + 1].signal.episode == sends[j].signal.episode;
    }
    SendableAtOnceIff(c, Alternating(n), 0.0);
  }
}
