/**
 When the mail queue tries again: every failure of a signal is followed by a wait that doubles up to a cap, stretched by at
 most a tenth. The waits are read off the log of sender calls, over every run.
 */
module Retry {
  import opened Basics
  import opened Smtp

  ghost function TwoTo(n: nat): (r: real)
    ensures r >= 1.0
  {
    if n == 0 then 1.0 else 2.0 * TwoTo(n - 1)
  }

  /** The wait after the k-th failure. */
  ghost function Wait(c: Config, k: nat): real
    requires k >= 1
  {
    var doubled := c.initialBackoff * TwoTo(k - 1);
    if doubled < c.maxBackoff then doubled else c.maxBackoff
  }

  /** Sender calls for one accepted signal. */
  ghost function Calls(log: seq<Call>, item: nat): nat {
    if log == [] then 0 else Calls(log[..|log| - 1], item) + (if log[|log| - 1].item == item then 1 else 0)
  }

  lemma CallsAppend(log: seq<Call>, call: Call, item: nat)
    ensures Calls(log + [call], item) == Calls(log, item) + (if call.item == item then 1 else 0)
  {
    assert (log + [call])[..|log|] == log;
  }

  /** The jitter draws lie between 0 and 1, and no configured backoff is negative. */
  ghost predicate Jittered(c: Config, ops: seq<Op>) {
    && 0.0 <= c.initialBackoff && 0.0 <= c.maxBackoff
    && forall i :: 0 <= i < |ops| && ops[i].DoDrain? ==> 0.0 <= ops[i].random <= 1.0
  }

  // ---- The scheduled instant ----

  lemma {:induction false} DoublesAlike(n: nat)
    ensures Pow2(n) as real == TwoTo(n)
  {
    if n > 0 {
      DoublesAlike(n - 1);
    }
  }

  lemma BackoffIsWait(c: Config, k: nat)
    requires k >= 1
    ensures Backoff(c, k) == Wait(c, k)
  {
    DoublesAlike(k - 1);
  }

  lemma WaitNonNegative(c: Config, k: nat)
    requires k >= 1 && 0.0 <= c.initialBackoff && 0.0 <= c.maxBackoff
    ensures 0.0 <= Wait(c, k)
  {
    Scaled(c.initialBackoff, TwoTo(k - 1));
  }

  lemma Scaled(x: real, y: real)
    requires 0.0 <= x && 0.0 <= y
    ensures 0.0 <= x * y
  {
  }

  lemma Stretch(d: real, random: real)
    requires 0.0 <= d && 0.0 <= random <= 1.0
    ensures 0.0 <= d * 0.1 * random <= d * 0.1
  {
  }

  ghost predicate Within(low: real, x: real, high: real) {
    low <= x <= high
  }

  lemma RetryWithin(c: Config, k: nat, random: real, now: real)
    requires k >= 1 && 0.0 <= c.initialBackoff && 0.0 <= c.maxBackoff && 0.0 <= random <= 1.0
    ensures Within(now + Wait(c, k), RetryAt(c, k, random, now), now + Wait(c, k) * 1.1)
  {
    BackoffIsWait(c, k);
    WaitNonNegative(c, k);
    Stretch(Wait(c, k), random);
  }

  // ---- The invariant ----

  ghost predicate ItemsInOrder(log: seq<Call>) {
    forall i, j :: 0 <= i < j < |log| ==> log[i].item <= log[j].item
  }

  /** The calls concern the signals in order, none beyond the head; those for the head have failed. */
  ghost predicate CallsInOrder(w: World) {
    var log, head := w.h.log, |w.h.fates|;
    && (forall i :: 0 <= i < |log| ==> log[i].item <= head && (log[i].item == head ==> !log[i].delivered))
    && ItemsInOrder(log)
  }

  ghost predicate CallsCounted(w: World) {
    forall n: nat :: Calls(w.h.log, n) == if n < |w.h.calls| then w.h.calls[n] else 0
  }

  /** Only the head has been tried; it is due again after the wait that follows its last call. */
  ghost predicate HeadWaits(c: Config, w: World) {
    var q, log := w.v.queue, w.h.log;
    && (forall i :: 0 <= i < |q| && q[i].attempts == 0 ==> q[i].nextAttemptAt == q[i].enqueuedAt)
    && (forall i :: 0 < i < |q| ==> q[i].attempts == 0)
    && (q != [] && q[0].attempts > 0 ==>
          && log != [] && log[|log| - 1].item == |w.h.fates|
          && Within(log[|log| - 1].at + Wait(c, q[0].attempts), q[0].nextAttemptAt,
                    log[|log| - 1].at + Wait(c, q[0].attempts) * 1.1))
  }

  /** A call follows a failed call of the same signal only after the wait. */
  ghost predicate WaitedOut(c: Config, log: seq<Call>) {
    log == [] ||
    var front, last := log[..|log| - 1], log[|log| - 1];
    && WaitedOut(c, front)
    && (front != [] && front[|front| - 1].item == last.item ==>
          && Calls(front, last.item) >= 1
          && !front[|front| - 1].delivered
          && last.at >= front[|front| - 1].at + Wait(c, Calls(front, last.item)))
  }

  /** What a fate says about the number of calls. */
  ghost predicate FateFits(c: Config, fate: Fate, calls: nat) {
    match fate
    case WasDead => calls == if c.maxAttempts <= 1 then 1 else c.maxAttempts
    case WasExpired => calls == 0 || calls < c.maxAttempts
    case WasSent => calls == 1 || 1 < calls <= c.maxAttempts
  }

  ghost predicate FatesFit(c: Config, h: History) {
    |h.fates| <= |h.calls| && forall n :: 0 <= n < |h.fates| ==> FateFits(c, h.fates[n], h.calls[n])
  }

  ghost predicate RetryInv(c: Config, w: World) {
    QueueInv(c, w) && CallsInOrder(w) && CallsCounted(w) && HeadWaits(c, w) && WaitedOut(c, w.h.log)
  }

  // ---- Its preservation ----

  lemma FatesStep(c: Config, w: World, op: Op)
    requires QueueInv(c, w) && FatesFit(c, w.h)
    ensures FatesFit(c, Next(c, w, op).h)
  {
    if w.v.queue != [] {
      assert w.v.queue[0].attempts == w.h.calls[|w.h.fates| + 0];
    }
  }

  lemma OrderStep(c: Config, w: World, op: Op)
    requires CallsInOrder(w)
    ensures CallsInOrder(Next(c, w, op))
  {
  }

  lemma CountStep(c: Config, w: World, op: Op)
    requires QueueInv(c, w) && CallsCounted(w)
    ensures CallsCounted(Next(c, w, op))
  {
    if op.DoDrain? && CallsSender(DrainOutcome(c, w.v, op.delivered, op.now)) {
      var w', call := Next(c, w, op), Call(|w.h.fates|, op.now, DrainOutcome(c, w.v, op.delivered, op.now).Delivered?);
      assert w'.h.log == w.h.log + [call] && w'.h.calls == w.h.calls[call.item := w.h.calls[call.item] + 1];
      OneMoreCall(w.h.log, w.h.calls, call);
    }
  }

  lemma OneMoreCall(log: seq<Call>, calls: seq<nat>, call: Call)
    requires call.item < |calls|
    requires forall n: nat :: Calls(log, n) == if n < |calls| then calls[n] else 0
    ensures var calls' := calls[call.item := calls[call.item] + 1];
            forall n: nat :: Calls(log + [call], n) == if n < |calls'| then calls'[n] else 0
  {
    forall n: nat ensures Calls(log + [call], n) == Calls(log, n) + (if call.item == n then 1 else 0) {
      CallsAppend(log, call, n);
    }
  }

  lemma HeadStep(c: Config, w: World, op: Op)
    requires QueueInv(c, w) && HeadWaits(c, w) && Jittered(c, [op])
    ensures HeadWaits(c, Next(c, w, op))
  {
    assert op == [op][0];
    if op.DoDrain? && DrainOutcome(c, w.v, op.delivered, op.now).RetryScheduled? {
      RetryWithin(c, w.v.queue[0].attempts + 1, op.random, op.now);
    }
  }

  lemma WaitedStep(c: Config, w: World, op: Op)
    requires RetryInv(c, w)
    ensures WaitedOut(c, Next(c, w, op).h.log)
  {
    if op.DoDrain? && CallsSender(DrainOutcome(c, w.v, op.delivered, op.now)) {
      var log, last := w.h.log, Call(|w.h.fates|, op.now, DrainOutcome(c, w.v, op.delivered, op.now).Delivered?);
      assert Next(c, w, op).h.log == log + [last];
      assert w.v.queue[0].attempts == w.h.calls[|w.h.fates| + 0] == Calls(log, last.item);
      OneMoreWait(c, log, last, w.v.queue[0]);
    }
  }

  /** A call of a due head respects the wait after the call before it. */
  lemma OneMoreWait(c: Config, log: seq<Call>, last: Call, head: Queued)
    requires WaitedOut(c, log) && head.attempts == Calls(log, last.item) && head.nextAttemptAt <= last.at
    requires log != [] && log[|log| - 1].item == last.item ==>
               !log[|log| - 1].delivered && (head.attempts > 0 ==> log[|log| - 1].at + Wait(c, head.attempts) <= head.nextAttemptAt)
    ensures WaitedOut(c, log + [last])
  {
    assert (log + [last])[..|log|] == log;
    if log != [] {
      CallsAppend(log[..|log| - 1], log[|log| - 1], last.item);
      assert log == log[..|log| - 1] + [log[|log| - 1]];
    }
  }

  lemma {:induction false} RetryRun(c: Config, w: World, ops: seq<Op>, w': World)
    requires Reaches(c, w, ops, w') && Jittered(c, ops) && RetryInv(c, w)
    ensures RetryInv(c, w')
    decreases |ops|
  {
    if ops != [] {
      assert Jittered(c, [ops[0]]);
      QueueStep(c, w, ops[0]);
      OrderStep(c, w, ops[0]);
      CountStep(c, w, ops[0]);
      HeadStep(c, w, ops[0]);
      WaitedStep(c, w, ops[0]);
      RetryRun(c, Next(c, w, ops[0]), ops[1..], w');
    }
  }

  lemma {:induction false} CountRun(c: Config, w: World, ops: seq<Op>, w': World)
    requires Reaches(c, w, ops, w') && QueueInv(c, w) && FatesFit(c, w.h) && CallsCounted(w)
    ensures QueueInv(c, w') && FatesFit(c, w'.h) && CallsCounted(w')
    decreases |ops|
  {
    if ops != [] {
      QueueStep(c, w, ops[0]);
      FatesStep(c, w, ops[0]);
      CountStep(c, w, ops[0]);
      CountRun(c, Next(c, w, ops[0]), ops[1..], w');
    }
  }

  // ---- What every run guarantees ----

  /** Between two calls for one signal lies at least the wait after the first of them. */
  lemma {:induction false} WaitedBetween(c: Config, log: seq<Call>, i: nat, j: nat)
    requires WaitedOut(c, log) && i < j < |log| && log[i].item == log[j].item
    requires ItemsInOrder(log)
    requires 0.0 <= c.initialBackoff && 0.0 <= c.maxBackoff
    ensures Calls(log[..i + 1], log[i].item) >= 1 && !log[i].delivered
    ensures log[j].at >= log[i].at + Wait(c, Calls(log[..i + 1], log[i].item))
    decreases |log|
  {
    var front := log[..|log| - 1];
    if j < |log| - 1 {
      WaitedBetween(c, front, i, j);
      assert front[..i + 1] == log[..i + 1];
    } else if i < j - 1 {
      assert log[i].item <= log[j - 1].item <= log[j].item;
      WaitedBetween(c, front, i, j - 1);
      assert front[..i + 1] == log[..i + 1];
      WaitNonNegative(c, Calls(front, log[j].item));
    } else {
      assert front == log[..i + 1];
    }
  }

  /**
   Over every run: after the k-th call for a signal, if another one follows, the k-th failed and the next one comes at least
   the smaller of the cap and the initial backoff doubled k - 1 times later.
   */
  lemma RetriesWait(c: Config, ops: seq<Op>, w: World, i: nat, j: nat)
    requires Reaches(c, Init, ops, w) && Jittered(c, ops)
    requires i < j < |w.h.log| && w.h.log[i].item == w.h.log[j].item
    ensures var k := Calls(w.h.log[..i + 1], w.h.log[i].item);
            && k >= 1 && !w.h.log[i].delivered
            && (w.h.log[j].at >= w.h.log[i].at + c.initialBackoff * TwoTo(k - 1) || w.h.log[j].at >= w.h.log[i].at + c.maxBackoff)
  {
    RunWaits(c, ops, w);
    WaitedBetween(c, w.h.log, i, j);
    WaitBounds(c, Calls(w.h.log[..i + 1], w.h.log[i].item));
  }

  lemma RunWaits(c: Config, ops: seq<Op>, w: World)
    requires Reaches(c, Init, ops, w) && Jittered(c, ops)
    ensures ItemsInOrder(w.h.log) && WaitedOut(c, w.h.log)
    ensures 0.0 <= c.initialBackoff && 0.0 <= c.maxBackoff
  {
    RetryRun(c, Init, ops, w);
  }

  /**
   A head that failed k times is not due before the wait is over and is due once a tenth more than the wait has passed; a head
   not tried yet is due from the moment it was queued.
   */
  ghost predicate DueInTime(c: Config, head: Queued, log: seq<Call>, k: nat, due: bool, now: real) {
    if k == 0 then due <==> head.enqueuedAt <= now
    else
      && log != []
      && var last, doubled := log[|log| - 1].at, c.initialBackoff * TwoTo(k - 1);
      && (due ==> now >= last + doubled || now >= last + c.maxBackoff)
      && (now >= last + doubled * 1.1 || now >= last + c.maxBackoff * 1.1 ==> due)
  }

  /** Over every run the head is due in time, k being the number of its calls and the last call of the log the latest of them. */
  lemma HeadIsDue(c: Config, ops: seq<Op>, w: World, delivered: bool, now: real)
    requires Reaches(c, Init, ops, w) && Jittered(c, ops) && w.v.queue != []
    ensures var k, head := Calls(w.h.log, |w.h.fates|), w.v.queue[0];
            && (k > 0 ==> w.h.log != [] && w.h.log[|w.h.log| - 1].item == |w.h.fates|)
            && DueInTime(c, head, w.h.log, k, DrainOutcome(c, w.v, delivered, now) != NotDue, now)
  {
    HeadSchedule(c, ops, w);
    ScheduledInTime(c, w.v.queue[0], w.h.log, Calls(w.h.log, |w.h.fates|), now);
    assert DrainOutcome(c, w.v, delivered, now) != NotDue <==> w.v.queue[0].nextAttemptAt <= now;
  }

  ghost predicate Scheduled(c: Config, head: Queued, log: seq<Call>, k: nat) {
    if k == 0 then head.nextAttemptAt == head.enqueuedAt
    else
      log != [] && Within(log[|log| - 1].at + Wait(c, k), head.nextAttemptAt, log[|log| - 1].at + Wait(c, k) * 1.1)
  }

  lemma ScheduledInTime(c: Config, head: Queued, log: seq<Call>, k: nat, now: real)
    requires Scheduled(c, head, log, k)
    ensures DueInTime(c, head, log, k, head.nextAttemptAt <= now, now)
  {
    if k > 0 {
      DueAfter(head.nextAttemptAt, log[|log| - 1].at, c.initialBackoff * TwoTo(k - 1), c.maxBackoff, Wait(c, k), now);
    }
  }

  lemma HeadSchedule(c: Config, ops: seq<Op>, w: World)
    requires Reaches(c, Init, ops, w) && Jittered(c, ops) && w.v.queue != []
    ensures var k := Calls(w.h.log, |w.h.fates|);
            && Scheduled(c, w.v.queue[0], w.h.log, k)
            && (k > 0 ==> w.h.log != [] && w.h.log[|w.h.log| - 1].item == |w.h.fates|)
  {
    RetryRun(c, Init, ops, w);
    assert w.v.queue[0].attempts == w.h.calls[|w.h.fates| + 0] == Calls(w.h.log, |w.h.fates|);
  }

  lemma DueAfter(due: real, last: real, doubled: real, cap: real, wait: real, now: real)
    requires Within(last + wait, due, last + wait * 1.1)
    requires wait == if doubled < cap then doubled else cap
    ensures due <= now ==> now >= last + doubled || now >= last + cap
    ensures now >= last + doubled * 1.1 || now >= last + cap * 1.1 ==> due <= now
  {
  }

  lemma WaitBounds(c: Config, k: nat)
    requires k >= 1
    ensures var doubled := c.initialBackoff * TwoTo(k - 1);
            && Wait(c, k) <= doubled && Wait(c, k) <= c.maxBackoff
            && (Wait(c, k) == doubled || Wait(c, k) == c.maxBackoff)
            && Wait(c, k) * 1.1 <= doubled * 1.1 && Wait(c, k) * 1.1 <= c.maxBackoff * 1.1
  {
  }

  /**
   Over every run: a dead letter was tried exactly as often as allowed (at least once), an expired signal less often than
   allowed or never, a sent one at most as often as allowed; and the calls of the log add up to those counts.
   */
  lemma AttemptsByFate(c: Config, ops: seq<Op>, w: World, n: nat)
    requires Reaches(c, Init, ops, w) && n < |w.h.fates|
    ensures |w.h.fates| <= |w.h.calls| && Calls(w.h.log, n) == w.h.calls[n]
    ensures w.h.fates[n] == WasDead ==> Calls(w.h.log, n) == if c.maxAttempts <= 1 then 1 else c.maxAttempts
    ensures w.h.fates[n] == WasExpired ==> Calls(w.h.log, n) == 0 || Calls(w.h.log, n) < c.maxAttempts
    ensures w.h.fates[n] == WasSent ==> Calls(w.h.log, n) == 1 || 1 < Calls(w.h.log, n) <= c.maxAttempts
  {
    CountRun(c, Init, ops, w);
  }
}
