/**
 The bounded background connector: any number of producers and drainers and one worker share a bounded queue, a stop
 flag, a lifecycle state and three counters. Each thread's program is a program counter; every access to shared state
 is one step, and the steps of different threads interleave freely. Deadlines and timeouts may fire at any time.
 */
module Connector {
  import opened Sorting

  /** Queue items are opaque to the connector. */
  type Item = string

  datatype Lifecycle = Created | Running | Draining | Stopped | Failed

  /** Inside `submit`: past the state check, normalised, enqueued, and with the accepted counter read. */
  datatype Producer = Outside | Checked(item: Item) | Normalized(item: Item) | Enqueued | Loaded(count: nat)

  /** Inside `_run`. */
  datatype Worker =
    | Unstarted | AtTop | SawStop | Getting | Handling(item: Item) | Returned | Raising | Finally | Leaving | Exited

  datatype Reason = QueueDrained | ItemsCancelled | AlreadyStopped

  datatype Receipt = Receipt(reason: Reason, state: Lifecycle, accepted: nat, processed: nat, cancelled: nat, alive: bool)

  /** Inside `drain_and_stop`. */
  datatype Drainer =
    | Idle | Waiting | Deciding | Emptying | Took | Counting(count: nat) | Flagging(reason: Reason)
    | Joining(reason: Reason) | Joined(reason: Reason, alive: bool) | ReadState(reason: Reason, alive: bool)
    | ReadAccepted(reason: Reason, alive: bool, state: Lifecycle)
    | ReadProcessed(reason: Reason, alive: bool, state: Lifecycle, accepted: nat)
    | ReadCancelled(reason: Reason, alive: bool, state: Lifecycle, accepted: nat, processed: nat)
    | Done(receipt: Receipt)

  datatype State = State(
    limit: nat, life: Lifecycle, queue: seq<Item>, stop: bool, accepted: nat, processed: nat, cancelled: nat,
    producers: seq<Producer>, worker: Worker, drainers: seq<Drainer>)

  datatype Who = ByWorker | ByDrainer

  datatype Removal = Removal(item: Item, who: Who)

  /** What happened so far. No step reads it. */
  datatype History = History(
    enqueued: seq<Item>,       // in the order of the `put` calls
    removed: seq<Removal>,     // in the order of the `get` calls
    done: seq<Item>,           // handler calls that returned
    raised: seq<Item>,         // handler calls that raised
    stores: nat,               // completed increments of the accepted counter
    cancelStores: nat,         // completed increments of the cancelled counter
    flipped: bool,             // a drain has left the running state
    quiet: bool)               // ...and no producer was inside `submit` when it did

  datatype World = World(s: State, h: History)

  datatype Action =
    | Start
    | Check(p: nat, item: Item) | Normalize(p: nat, result: Item) | RejectNormal(p: nat)
    | Put(p: nat) | PutTimeout(p: nat) | LoadAccepted(p: nat) | StoreAccepted(p: nat)
    | WorkerTop | WorkerEmptyCheck | Get | GetTimeout | HandlerReturns | HandlerRaises | CountProcessed | MarkFailed
    | WorkerFinally | WorkerExits
    | DrainBegin(d: nat) | WaitOver(d: nat) | Decide(d: nat) | CancelOne(d: nat) | LoadCancelled(d: nat)
    | StoreCancelled(d: nat) | SetStop(d: nat) | JoinReturns(d: nat) | SetFinal(d: nat) | Read(d: nat)

  function Init(limit: nat, producers: nat, drainers: nat): World {
    World(State(limit, Created, [], false, 0, 0, 0, seq(producers, i => Outside), Unstarted, seq(drainers, i => Idle)),
          History([], [], [], [], 0, 0, false, false))
  }

  predicate Enabled(s: State, a: Action) {
    match a
    case Start => s.life == Created
    case Check(p, _) => p < |s.producers| && s.producers[p].Outside? && s.life == Running
    case Normalize(p, _) => p < |s.producers| && s.producers[p].Checked?
    case RejectNormal(p) => p < |s.producers| && s.producers[p].Checked?
    case Put(p) => p < |s.producers| && s.producers[p].Normalized? && |s.queue| < s.limit
    case PutTimeout(p) => p < |s.producers| && s.producers[p].Normalized?
    case LoadAccepted(p) => p < |s.producers| && s.producers[p].Enqueued?
    case StoreAccepted(p) => p < |s.producers| && s.producers[p].Loaded?
    case WorkerTop => s.worker == AtTop
    case WorkerEmptyCheck => s.worker == SawStop
    case Get => s.worker == Getting && s.queue != []
    case GetTimeout => s.worker == Getting
    case HandlerReturns => s.worker.Handling?
    case HandlerRaises => s.worker.Handling?
    case CountProcessed => s.worker == Returned
    case MarkFailed => s.worker == Raising
    case WorkerFinally => s.worker == Finally
    case WorkerExits => s.worker == Leaving
    case DrainBegin(d) => d < |s.drainers| && (s.drainers[d].Idle? || s.drainers[d].Done?) &&
                          (s.life == Running || s.life == Draining || s.life == Stopped)
    case WaitOver(d) => d < |s.drainers| && s.drainers[d].Waiting?
    case Decide(d) => d < |s.drainers| && s.drainers[d].Deciding?
    case CancelOne(d) => d < |s.drainers| && s.drainers[d].Emptying?
    case LoadCancelled(d) => d < |s.drainers| && s.drainers[d].Took?
    case StoreCancelled(d) => d < |s.drainers| && s.drainers[d].Counting?
    case SetStop(d) => d < |s.drainers| && s.drainers[d].Flagging?
    case JoinReturns(d) => d < |s.drainers| && s.drainers[d].Joining?
    case SetFinal(d) => d < |s.drainers| && s.drainers[d].Joined?
    case Read(d) => d < |s.drainers| && (s.drainers[d].ReadState? || s.drainers[d].ReadAccepted? ||
                                         s.drainers[d].ReadProcessed? || s.drainers[d].ReadCancelled?)
  }

  function SetProducer(s: State, p: nat, pc: Producer): State
    requires p < |s.producers|
  {
    s.(producers := s.producers[p := pc])
  }

  function SetDrainer(s: State, d: nat, pc: Drainer): State
    requires d < |s.drainers|
  {
    s.(drainers := s.drainers[d := pc])
  }

  /** The receipt's fields are read one after another. */
  function ReadStep(s: State, pc: Drainer): Drainer {
    match pc
    case ReadState(r, alive) => ReadAccepted(r, alive, s.life)
    case ReadAccepted(r, alive, st) => ReadProcessed(r, alive, st, s.accepted)
    case ReadProcessed(r, alive, st, acc) => ReadCancelled(r, alive, st, acc, s.processed)
    case ReadCancelled(r, alive, st, acc, proc) => Done(Receipt(r, st, acc, proc, s.cancelled, alive))
    case _ => pc
  }

  function Step(s: State, a: Action): State
    requires Enabled(s, a)
  {
    match a
    case Start => s.(life := Running, worker := AtTop)
    case Check(p, item) => SetProducer(s, p, Checked(item))
    case Normalize(p, result) => SetProducer(s, p, Normalized(result))
    case RejectNormal(p) => SetProducer(s, p, Outside)
    case Put(p) => SetProducer(s, p, Enqueued).(queue := s.queue + [s.producers[p].item])
    case PutTimeout(p) => SetProducer(s, p, Outside)
    case LoadAccepted(p) => SetProducer(s, p, Loaded(s.accepted))
    case StoreAccepted(p) => SetProducer(s, p, Outside).(accepted := s.producers[p].count + 1)
    case WorkerTop => s.(worker := if s.stop then SawStop else Getting)
    case WorkerEmptyCheck => s.(worker := if s.queue == [] then Finally else Getting)
    case Get => s.(worker := Handling(s.queue[0]), queue := s.queue[1..])
    case GetTimeout => s.(worker := AtTop)
    case HandlerReturns => s.(worker := Returned)
    case HandlerRaises => s.(worker := Raising)
    case CountProcessed => s.(worker := AtTop, processed := s.processed + 1)
    case MarkFailed => s.(worker := Finally, life := Failed)
    case WorkerFinally => s.(worker := Leaving, life := if s.life == Failed then Failed else Stopped)
    case WorkerExits => s.(worker := Exited)
    case DrainBegin(d) =>
      if s.life == Stopped then SetDrainer(s, d, ReadAccepted(AlreadyStopped, s.worker != Exited, Stopped))
      else SetDrainer(s, d, Waiting).(life := Draining)
    case WaitOver(d) => SetDrainer(s, d, Deciding)
    case Decide(d) => SetDrainer(s, d, if s.queue != [] then Emptying else Flagging(QueueDrained))
    case CancelOne(d) =>
      if s.queue == [] then SetDrainer(s, d, Flagging(ItemsCancelled)) else SetDrainer(s, d, Took).(queue := s.queue[1..])
    case LoadCancelled(d) => SetDrainer(s, d, Counting(s.cancelled))
    case StoreCancelled(d) => SetDrainer(s, d, Emptying).(cancelled := s.drainers[d].count + 1)
    case SetStop(d) => SetDrainer(s, d, Joining(s.drainers[d].reason)).(stop := true)
    case JoinReturns(d) => SetDrainer(s, d, Joined(s.drainers[d].reason, s.worker != Exited))
    case SetFinal(d) =>
      SetDrainer(s, d, ReadState(s.drainers[d].reason, s.drainers[d].alive))
        .(life := if s.drainers[d].alive then Failed else Stopped)
    case Read(d) => SetDrainer(s, d, ReadStep(s, s.drainers[d]))
  }

  function Note(s: State, h: History, a: Action): History
    requires Enabled(s, a)
  {
    match a
    case Put(p) => h.(enqueued := h.enqueued + [s.producers[p].item])
    case StoreAccepted(_) => h.(stores := h.stores + 1)
    case Get => h.(removed := h.removed + [Removal(s.queue[0], ByWorker)])
    case HandlerReturns => h.(done := h.done + [s.worker.item])
    case HandlerRaises => h.(raised := h.raised + [s.worker.item])
    case CancelOne(_) => if s.queue == [] then h else h.(removed := h.removed + [Removal(s.queue[0], ByDrainer)])
    case StoreCancelled(_) => h.(cancelStores := h.cancelStores + 1)
    case DrainBegin(_) =>
      if s.life == Running then h.(flipped := true, quiet := AllOutside(s.producers)) else h
    case _ => h
  }

  predicate AllOutside(producers: seq<Producer>) {
    forall p :: 0 <= p < |producers| ==> producers[p].Outside?
  }

  function Next(w: World, a: Action): World
    requires Enabled(w.s, a)
  {
    World(Step(w.s, a), Note(w.s, w.h, a))
  }

  /** `w'` is reached from `w` by the interleaving `run`. */
  ghost predicate Reaches(w: World, run: seq<Action>, w': World)
    decreases |run|
  {
    if run == [] then w' == w
    else Enabled(w.s, run[0]) && Reaches(Next(w, run[0]), run[1..], w')
  }

  /** `p` survives every step of every thread. */
  ghost predicate Inductive(p: World -> bool) {
    forall w: World, a: Action {:trigger Next(w, a)} :: Enabled(w.s, a) && p(w) ==> p(Next(w, a))
  }

  /** What survives every step holds after every run. */
  lemma {:induction false} RunInduction(p: World -> bool, w: World, run: seq<Action>, w': World)
    requires Inductive(p) && Reaches(w, run, w') && p(w)
    ensures p(w')
    decreases |run|
  {
    if run != [] {
      RunInduction(p, Next(w, run[0]), run[1..], w');
    }
  }

  // ---- Every item has exactly one fate ----

  function Items(removed: seq<Removal>): (r: seq<Item>)
    ensures |r| == |removed|
  {
    seq(|removed|, i requires 0 <= i < |removed| => removed[i].item)
  }

  /** The removed items that `who` took, in order. */
  function TakenBy(removed: seq<Removal>, who: Who): seq<Item> {
    if removed == [] then []
    else
      var front, last := TakenBy(removed[..|removed| - 1], who), removed[|removed| - 1];
      if last.who == who then front + [last.item] else front
  }

  function InHandler(worker: Worker): seq<Item> {
    if worker.Handling? then [worker.item] else []
  }

  /** The worker has left its loop. */
  predicate Gone(worker: Worker) {
    worker.Finally? || worker.Leaving? || worker.Exited?
  }

  /** What the worker took is what it finished, what it is handling and what it lost, in that order. */
  ghost predicate HandlerInv(s: State, h: History) {
    && TakenBy(h.removed, ByWorker) == h.done + InHandler(s.worker) + h.raised
    && (!s.worker.Raising? && !Gone(s.worker) ==> h.raised == [])
    && (s.life == Created ==> s.worker == Unstarted)
  }

  /** The handler runs one call at a time, and a call that raises is the last. */
  ghost predicate WorkerInv(s: State, h: History) {
    && HandlerInv(s, h)
    && (if s.worker.Raising? then |h.raised| == 1
        else if Gone(s.worker) then |h.raised| <= 1
        else h.raised == [])
    && s.processed + (if s.worker.Returned? then 1 else 0) == |h.done|
    && (s.life == Created ==> s.worker == Unstarted)
  }

  ghost predicate QueueInv(s: State, h: History) {
    h.enqueued == Items(h.removed) + s.queue && |s.queue| <= s.limit
  }

  ghost predicate FateInv(w: World) {
    QueueInv(w.s, w.h) && WorkerInv(w.s, w.h)
  }

  predicate WorkerAction(a: Action) {
    a.WorkerTop? || a.WorkerEmptyCheck? || a.Get? || a.GetTimeout? || a.HandlerReturns? || a.HandlerRaises? ||
    a.CountProcessed? || a.MarkFailed? || a.WorkerFinally? || a.WorkerExits?
  }

  predicate DrainerAction(a: Action) {
    a.DrainBegin? || a.WaitOver? || a.Decide? || a.CancelOne? || a.LoadCancelled? || a.StoreCancelled? || a.SetStop? ||
    a.JoinReturns? || a.SetFinal? || a.Read?
  }

  predicate ProducerAction(a: Action) {
    a.Check? || a.Normalize? || a.RejectNormal? || a.Put? || a.PutTimeout? || a.LoadAccepted? || a.StoreAccepted?
  }

  /** A producer's step leaves the worker, the drainers and the state alone. */
  lemma ProducerFrame(w: World, a: Action)
    requires Enabled(w.s, a) && ProducerAction(a)
    ensures var s, h := Next(w, a).s, Next(w, a).h;
            && s.life == w.s.life && s.worker == w.s.worker && s.drainers == w.s.drainers && s.stop == w.s.stop
            && s.processed == w.s.processed && s.cancelled == w.s.cancelled
            && h.(enqueued := w.h.enqueued, stores := w.h.stores) == w.h
  {
  }

  /** A worker's step leaves the producers, the drainers and the stop flag alone. */
  lemma WorkerFrame(w: World, a: Action)
    requires Enabled(w.s, a) && WorkerAction(a)
    ensures var s, h := Next(w, a).s, Next(w, a).h;
            && s.producers == w.s.producers && s.drainers == w.s.drainers && s.stop == w.s.stop
            && s.accepted == w.s.accepted && s.cancelled == w.s.cancelled
            && h.(removed := w.h.removed, done := w.h.done, raised := w.h.raised) == w.h
  {
  }

  /** A drainer's step leaves the producers, the worker and what the handler did alone. */
  lemma DrainerFrame(w: World, a: Action)
    requires Enabled(w.s, a) && DrainerAction(a)
    ensures var s, h := Next(w, a).s, Next(w, a).h;
            && s.producers == w.s.producers && s.worker == w.s.worker
            && s.accepted == w.s.accepted && s.processed == w.s.processed
            && |s.drainers| == |w.s.drainers|
            && (forall d :: 0 <= d < |s.drainers| && d != a.d ==> s.drainers[d] == w.s.drainers[d])
            && h.enqueued == w.h.enqueued && h.done == w.h.done && h.raised == w.h.raised && h.stores == w.h.stores
  {
  }

  lemma TakenByAppend(removed: seq<Removal>, item: Item, taker: Who, who: Who)
    ensures TakenBy(removed + [Removal(item, taker)], who) == TakenBy(removed, who) + (if taker == who then [item] else [])
  {
    assert (removed + [Removal(item, taker)])[..|removed|] == removed;
  }

  lemma QueueTakes(s: State, h: History, who: Who)
    requires QueueInv(s, h) && s.queue != []
    ensures h.enqueued == Items(h.removed + [Removal(s.queue[0], who)]) + s.queue[1..]
  {
    var r := Removal(s.queue[0], who);
    assert Items(h.removed + [r]) == Items(h.removed) + [s.queue[0]];
    assert s.queue == [s.queue[0]] + s.queue[1..];
  }

  lemma QueueStep(w: World, a: Action)
    requires Enabled(w.s, a) && QueueInv(w.s, w.h)
    ensures QueueInv(Next(w, a).s, Next(w, a).h)
  {
    var s, h := Next(w, a).s, Next(w, a).h;
    if a.Get? || (a.CancelOne? && w.s.queue != []) {
      QueueTakes(w.s, w.h, if a.Get? then ByWorker else ByDrainer);
    } else if a.Put? {
      assert h.removed == w.h.removed;
    } else {
      assert s.queue == w.s.queue && s.limit == w.s.limit && h.enqueued == w.h.enqueued && h.removed == w.h.removed;
    }
  }

  lemma HandlerWorkerStep(w: World, a: Action)
    requires Enabled(w.s, a) && WorkerAction(a) && HandlerInv(w.s, w.h)
    ensures HandlerInv(Next(w, a).s, Next(w, a).h)
  {
    if a.Get? {
      TakenByAppend(w.h.removed, w.s.queue[0], ByWorker, ByWorker);
      assert w.h.done + [] + w.h.raised + [w.s.queue[0]] == w.h.done + [w.s.queue[0]] + w.h.raised;
    } else if a.HandlerReturns? || a.HandlerRaises? {
      assert w.h.done + [w.s.worker.item] + [] == w.h.done + [] + [w.s.worker.item];
    }
  }

  lemma HandlerDrainerStep(w: World, a: Action)
    requires Enabled(w.s, a) && DrainerAction(a) && HandlerInv(w.s, w.h)
    ensures HandlerInv(Next(w, a).s, Next(w, a).h)
  {
    DrainerFrame(w, a);
    if a.CancelOne? && w.s.queue != [] {
      TakenByAppend(w.h.removed, w.s.queue[0], ByDrainer, ByWorker);
    }
  }

  lemma HandlerStep(w: World, a: Action)
    requires Enabled(w.s, a) && HandlerInv(w.s, w.h)
    ensures HandlerInv(Next(w, a).s, Next(w, a).h)
  {
    if WorkerAction(a) {
      HandlerWorkerStep(w, a);
    } else if DrainerAction(a) {
      HandlerDrainerStep(w, a);
    } else if ProducerAction(a) {
      ProducerFrame(w, a);
    }
  }

  lemma WorkerStep(w: World, a: Action)
    requires Enabled(w.s, a) && WorkerInv(w.s, w.h)
    ensures WorkerInv(Next(w, a).s, Next(w, a).h)
  {
    HandlerStep(w, a);
  }

  lemma {:induction false} FatePreserved(w: World, run: seq<Action>, w': World)
    requires Reaches(w, run, w') && FateInv(w)
    ensures FateInv(w')
    decreases |run|
  {
    if run != [] {
      QueueStep(w, run[0]);
      WorkerStep(w, run[0]);
      FatePreserved(Next(w, run[0]), run[1..], w');
    }
  }

  /** `a` is obtained from `b` by deleting elements. */
  ghost predicate Subsequence<T>(a: seq<T>, b: seq<T>) {
    if a == [] then true
    else if b == [] then false
    else if a[|a| - 1] == b[|b| - 1] then Subsequence(a[..|a| - 1], b[..|b| - 1])
    else Subsequence(a, b[..|b| - 1])
  }

  lemma {:induction false} SubsequenceExtend<T>(a: seq<T>, b: seq<T>, x: T)
    requires Subsequence(a, b)
    ensures Subsequence(a, b + [x])
    decreases |b|, 1
  {
    assert (b + [x])[..|b|] == b;
    if a != [] && a[|a| - 1] == x {
      SubsequenceDropLast(a, b);
    }
  }

  lemma {:induction false} SubsequenceDropLast<T>(a: seq<T>, b: seq<T>)
    requires a != [] && Subsequence(a, b)
    ensures Subsequence(a[..|a| - 1], b)
    decreases |b|, 0
  {
    if a[|a| - 1] == b[|b| - 1] {
      assert b[..|b| - 1] + [b[|b| - 1]] == b;
      SubsequenceExtend(a[..|a| - 1], b[..|b| - 1], b[|b| - 1]);
    } else {
      SubsequenceDropLast(a, b[..|b| - 1]);
      assert b[..|b| - 1] + [b[|b| - 1]] == b;
      SubsequenceExtend(a[..|a| - 1], b[..|b| - 1], b[|b| - 1]);
    }
  }

  lemma {:induction false} SubsequencePrefix<T>(a: seq<T>, b: seq<T>, c: seq<T>)
    requires Subsequence(a, b)
    ensures Subsequence(a, b + c)
    decreases |c|
  {
    if c == [] {
      assert b + c == b;
    } else {
      SubsequencePrefix(a, b, c[..|c| - 1]);
      SubsequenceExtend(a, b + c[..|c| - 1], c[|c| - 1]);
      assert b + c[..|c| - 1] + [c[|c| - 1]] == b + c;
    }
  }

  lemma {:induction false} SubsequenceOfPrefix<T>(a: seq<T>, c: seq<T>, b: seq<T>)
    requires Subsequence(a + c, b)
    ensures Subsequence(a, b)
    decreases |c|
  {
    if c == [] {
      assert a + c == a;
    } else {
      SubsequenceDropLast(a + c, b);
      assert (a + c)[..|a + c| - 1] == a + c[..|c| - 1];
      SubsequenceOfPrefix(a, c[..|c| - 1], b);
    }
  }

  lemma {:induction false} TakenIsSubsequence(removed: seq<Removal>, who: Who)
    ensures Subsequence(TakenBy(removed, who), Items(removed))
  {
    if removed != [] {
      var front, last := removed[..|removed| - 1], removed[|removed| - 1];
      TakenIsSubsequence(front, who);
      assert Items(removed) == Items(front) + [last.item];
      if last.who == who {
        SubsequenceBoth(TakenBy(front, who), Items(front), last.item);
      } else {
        SubsequenceExtend(TakenBy(front, who), Items(front), last.item);
      }
    }
  }

  lemma SubsequenceBoth<T>(a: seq<T>, b: seq<T>, x: T)
    requires Subsequence(a, b)
    ensures Subsequence(a + [x], b + [x])
  {
    assert (a + [x])[..|a|] == a && (b + [x])[..|b|] == b;
  }

  lemma {:induction false} TakenSplits(removed: seq<Removal>)
    ensures multiset(Items(removed)) == multiset(TakenBy(removed, ByWorker)) + multiset(TakenBy(removed, ByDrainer))
    ensures |removed| == |TakenBy(removed, ByWorker)| + |TakenBy(removed, ByDrainer)|
  {
    if removed != [] {
      var front, last := removed[..|removed| - 1], removed[|removed| - 1];
      TakenSplits(front);
      assert Items(removed) == Items(front) + [last.item];
    }
  }

  ghost predicate OneFateEach(w: World) {
    var cancelled := TakenBy(w.h.removed, ByDrainer);
    && multiset(w.h.enqueued) ==
         multiset(w.s.queue) + multiset(InHandler(w.s.worker)) + multiset(w.h.done) + multiset(cancelled) + multiset(w.h.raised)
    && |w.h.enqueued| == |w.s.queue| + |InHandler(w.s.worker)| + |w.h.done| + |cancelled| + |w.h.raised|
    && |w.h.raised| <= 1
    && Subsequence(w.h.done, w.h.enqueued)
    && Subsequence(cancelled, w.h.enqueued)
  }

  lemma FatesInOrder(w: World)
    requires FateInv(w)
    ensures Subsequence(w.h.done, w.h.enqueued) && Subsequence(TakenBy(w.h.removed, ByDrainer), w.h.enqueued)
  {
    var h := w.h;
    TakenIsSubsequence(h.removed, ByWorker);
    TakenIsSubsequence(h.removed, ByDrainer);
    SubsequencePrefix(TakenBy(h.removed, ByWorker), Items(h.removed), w.s.queue);
    SubsequencePrefix(TakenBy(h.removed, ByDrainer), Items(h.removed), w.s.queue);
    assert TakenBy(h.removed, ByWorker) == h.done + (InHandler(w.s.worker) + h.raised);
    SubsequenceOfPrefix(h.done, InHandler(w.s.worker) + h.raised, h.enqueued);
  }

  lemma FatesOf(w: World)
    requires FateInv(w)
    ensures OneFateEach(w)
  {
    FatesInOrder(w);
    TakenSplits(w.h.removed);
    assert multiset(TakenBy(w.h.removed, ByWorker)) ==
           multiset(w.h.done) + multiset(InHandler(w.s.worker)) + multiset(w.h.raised);
  }

  /**
   In every interleaving each enqueued item is queued, in the handler, processed, cancelled, or lost in the one handler
   call that raised, and both processed and cancelled items keep the order in which they were enqueued.
   */
  lemma EveryItemHasOneFate(limit: nat, producers: nat, drainers: nat, run: seq<Action>, w: World)
    requires Reaches(Init(limit, producers, drainers), run, w)
    ensures OneFateEach(w)
    ensures |w.s.queue| <= limit
  {
    var w0 := Init(limit, producers, drainers);
    assert FateInv(w0);
    FatePreserved(w0, run, w);
    FatesOf(w);
    LimitFixed(w0, run, w);
  }

  lemma {:induction false} LimitFixed(w: World, run: seq<Action>, w': World)
    requires Reaches(w, run, w')
    ensures w'.s.limit == w.s.limit && |w'.s.producers| == |w.s.producers| && |w'.s.drainers| == |w.s.drainers|
    decreases |run|
  {
    if run != [] {
      LimitFixed(Next(w, run[0]), run[1..], w');
    }
  }

  // ---- The counters ----

  /** 1 between a producer's `put` and the end of its increment of the accepted counter. */
  function Uncounted(pc: Producer): int {
    if pc.Enqueued? || pc.Loaded? then 1 else 0
  }

  /** 1 between a drainer's `get_nowait` and the end of its increment of the cancelled counter. */
  function Uncancelled(pc: Drainer): int {
    if pc.Took? || pc.Counting? then 1 else 0
  }

  /**
   Increments are a read and a later write, so concurrent ones can be lost: each counter is at most the number of
   completed increments, and equals it when only one thread ever increments it.
   */
  ghost predicate AcceptedInv(s: State, h: History) {
    && |h.enqueued| == h.stores + SumBy(s.producers, Uncounted)
    && s.accepted <= h.stores
    && (forall p :: 0 <= p < |s.producers| && s.producers[p].Loaded? ==> s.producers[p].count <= h.stores)
    && (|s.producers| <= 1 ==> s.accepted == h.stores)
    && (|s.producers| == 1 && s.producers[0].Loaded? ==> s.producers[0].count == s.accepted)
  }

  ghost predicate CancelledInv(s: State, h: History) {
    && |TakenBy(h.removed, ByDrainer)| == h.cancelStores + SumBy(s.drainers, Uncancelled)
    && s.cancelled <= h.cancelStores
    && (forall d :: 0 <= d < |s.drainers| && s.drainers[d].Counting? ==> s.drainers[d].count <= h.cancelStores)
    && (|s.drainers| <= 1 ==> s.cancelled == h.cancelStores)
    && (|s.drainers| == 1 && s.drainers[0].Counting? ==> s.drainers[0].count == s.cancelled)
  }

  lemma AcceptedStep(w: World, a: Action)
    requires Enabled(w.s, a) && AcceptedInv(w.s, w.h)
    ensures AcceptedInv(Next(w, a).s, Next(w, a).h)
  {
    var s, s' := w.s, Next(w, a).s;
    if ProducerAction(a) {
      SumUpdate(s.producers, Uncounted, a.p, s'.producers[a.p]);
    } else {
      assert s'.producers == s.producers;
    }
  }

  lemma CancelledTaken(w: World, a: Action)
    requires Enabled(w.s, a)
    ensures |TakenBy(Next(w, a).h.removed, ByDrainer)| ==
            |TakenBy(w.h.removed, ByDrainer)| + (if a.CancelOne? && w.s.queue != [] then 1 else 0)
  {
    if a.Get? {
      TakenByAppend(w.h.removed, w.s.queue[0], ByWorker, ByDrainer);
    } else if a.CancelOne? && w.s.queue != [] {
      TakenByAppend(w.h.removed, w.s.queue[0], ByDrainer, ByDrainer);
    }
  }

  predicate Cancelling(a: Action) {
    a.CancelOne? || a.LoadCancelled? || a.StoreCancelled?
  }

  lemma CancelledStep(w: World, a: Action)
    requires Enabled(w.s, a) && CancelledInv(w.s, w.h)
    ensures CancelledInv(Next(w, a).s, Next(w, a).h)
  {
    CancelledTaken(w, a);
    if Cancelling(a) {
      CancellingStep(w, a);
    } else {
      OtherDrainersStep(w, a);
    }
  }

  lemma CancellingStep(w: World, a: Action)
    requires Enabled(w.s, a) && Cancelling(a) && CancelledInv(w.s, w.h)
    requires |TakenBy(Next(w, a).h.removed, ByDrainer)| ==
             |TakenBy(w.h.removed, ByDrainer)| + (if a.CancelOne? && w.s.queue != [] then 1 else 0)
    ensures CancelledInv(Next(w, a).s, Next(w, a).h)
  {
    SumUpdate(w.s.drainers, Uncancelled, a.d, Next(w, a).s.drainers[a.d]);
  }

  lemma OtherDrainersStep(w: World, a: Action)
    requires Enabled(w.s, a) && !Cancelling(a)
    ensures var s, s' := w.s, Next(w, a).s;
            && SumBy(s'.drainers, Uncancelled) == SumBy(s.drainers, Uncancelled)
            && |s'.drainers| == |s.drainers| && s'.cancelled == s.cancelled
            && Next(w, a).h.cancelStores == w.h.cancelStores
            && forall d :: 0 <= d < |s.drainers| && s'.drainers[d].Counting? ==> s'.drainers[d] == s.drainers[d]
  {
    if DrainerAction(a) {
      DrainerFrame(w, a);
      var pc := Next(w, a).s.drainers[a.d];
      assert Next(w, a).s.drainers == w.s.drainers[a.d := pc];
      SumUpdate(w.s.drainers, Uncancelled, a.d, pc);
    } else {
      assert Next(w, a).s.drainers == w.s.drainers;
    }
  }

  ghost predicate CountersInv(w: World) {
    AcceptedInv(w.s, w.h) && CancelledInv(w.s, w.h)
  }

  lemma {:induction false} CountersPreserved(w: World, run: seq<Action>, w': World)
    requires Reaches(w, run, w') && CountersInv(w)
    ensures CountersInv(w')
    decreases |run|
  {
    if run != [] {
      AcceptedStep(w, run[0]);
      CancelledStep(w, run[0]);
      CountersPreserved(Next(w, run[0]), run[1..], w');
    }
  }

  lemma {:induction false} SumZero<T>(s: seq<T>, weight: T -> int)
    requires forall i :: 0 <= i < |s| ==> weight(s[i]) == 0
    ensures SumBy(s, weight) == 0
  {
    if s != [] {
      SumZero(s[..|s| - 1], weight);
    }
  }

  lemma CountersInit(limit: nat, producers: nat, drainers: nat)
    ensures CountersInv(Init(limit, producers, drainers))
  {
    var s := Init(limit, producers, drainers).s;
    SumZero(s.producers, Uncounted);
    SumZero(s.drainers, Uncancelled);
  }

  /** Everything enqueued is counted, or about to be. */
  ghost predicate Balanced(w: World) {
    w.s.accepted + SumBy(w.s.producers, Uncounted) ==
    w.s.processed + (if w.s.worker.Returned? then 1 else 0) + w.s.cancelled + SumBy(w.s.drainers, Uncancelled) +
    |InHandler(w.s.worker)| + |w.h.raised| + |w.s.queue|
  }

  lemma BalanceOf(w: World)
    requires FateInv(w) && CountersInv(w) && |w.s.producers| <= 1 && |w.s.drainers| <= 1
    ensures Balanced(w)
  {
    FatesOf(w);
  }

  /**
   With any number of producers and drainers the counters never overcount. With one of each they balance exactly: what
   was accepted, plus the put whose increment is still in progress, is what was processed, cancelled (counted or about
   to be), is in the handler, was lost in the raising call, or is still queued.
   */
  lemma CountersBalance(limit: nat, producers: nat, drainers: nat, run: seq<Action>, w: World)
    requires Reaches(Init(limit, producers, drainers), run, w)
    ensures w.s.accepted <= |w.h.enqueued|
    ensures w.s.processed <= |w.h.done|
    ensures w.s.cancelled <= |TakenBy(w.h.removed, ByDrainer)|
    ensures producers <= 1 && drainers <= 1 ==> Balanced(w)
  {
    var w0 := Init(limit, producers, drainers);
    assert FateInv(w0);
    FatePreserved(w0, run, w);
    CountersInit(limit, producers, drainers);
    CountersPreserved(w0, run, w);
    LimitFixed(w0, run, w);
    SumNonNegative(w.s.producers, Uncounted);
    SumNonNegative(w.s.drainers, Uncancelled);
    if producers <= 1 && drainers <= 1 {
      BalanceOf(w);
    }
  }

  // ---- Draining ----

  /** Leaving the running state, setting the stop flag and leaving the worker loop each need a drain or a raise. */
  ghost predicate PhaseInv(s: State, h: History) {
    && (h.flipped ==> s.life != Created && s.life != Running)
    && (!h.flipped && h.raised == [] ==> s.life == Created || s.life == Running)
    && (s.life == Draining || s.stop || s.worker == SawStop ==> h.flipped)
    && (Gone(s.worker) ==> h.flipped || h.raised != [])
    && PastFlipped(s, h)
  }

  ghost predicate Past(pc: Drainer) {
    !pc.Idle? && !pc.ReadAccepted? && !pc.ReadProcessed? && !pc.ReadCancelled? && !pc.Done?
  }

  ghost predicate PastFlipped(s: State, h: History) {
    forall d :: 0 <= d < |s.drainers| && Past(s.drainers[d]) ==> h.flipped
  }

  lemma PastFlippedStep(w: World, a: Action)
    requires Enabled(w.s, a) && PhaseInv(w.s, w.h)
    ensures PastFlipped(Next(w, a).s, Next(w, a).h)
  {
    if DrainerAction(a) {
      PastFlippedDrainer(w, a);
    } else {
      assert Next(w, a).s.drainers == w.s.drainers && Next(w, a).h.flipped == w.h.flipped;
    }
  }

  lemma PastFlippedDrainer(w: World, a: Action)
    requires Enabled(w.s, a) && DrainerAction(a) && PhaseInv(w.s, w.h)
    ensures PastFlipped(Next(w, a).s, Next(w, a).h)
  {
    DrainerFrame(w, a);
  }

  lemma PhaseStep(w: World, a: Action)
    requires Enabled(w.s, a) && PhaseInv(w.s, w.h)
    requires w.s.worker.Raising? ==> w.h.raised != []
    ensures PhaseInv(Next(w, a).s, Next(w, a).h)
  {
    PastFlippedStep(w, a);
  }

  /** The drainer has seen the worker thread dead. */
  ghost predicate SawDead(pc: Drainer) {
    match pc
    case Joined(_, alive) => !alive
    case ReadState(_, alive) => !alive
    case ReadAccepted(_, alive, _) => !alive
    case ReadProcessed(_, alive, _, _) => !alive
    case ReadCancelled(_, alive, _, _, _) => !alive
    case Done(r) => !r.alive
    case _ => false
  }

  /** A dead thread stays dead, and the stopped state means that the worker has left its loop. */
  ghost predicate DeathInv(s: State) {
    && (forall d :: 0 <= d < |s.drainers| && SawDead(s.drainers[d]) ==> s.worker == Exited)
    && (forall d :: 0 <= d < |s.drainers| && s.drainers[d].Joining? ==> s.stop)
    && (s.life == Stopped ==> Gone(s.worker))
    && (s.life == Created ==> s.worker == Unstarted)
  }

  lemma DeathDrainerStep(w: World, a: Action)
    requires Enabled(w.s, a) && DrainerAction(a) && DeathInv(w.s)
    ensures DeathInv(Next(w, a).s)
  {
    DrainerFrame(w, a);
  }

  lemma DeathStep(w: World, a: Action)
    requires Enabled(w.s, a) && DeathInv(w.s)
    ensures DeathInv(Next(w, a).s)
  {
    if DrainerAction(a) {
      DeathDrainerStep(w, a);
    } else if ProducerAction(a) {
      ProducerFrame(w, a);
    } else if WorkerAction(a) {
      WorkerFrame(w, a);
    }
  }

  /** The drain has begun and its join has not returned. */
  predicate Undecided(pc: Drainer) {
    pc.Waiting? || pc.Deciding? || pc.Emptying? || pc.Took? || pc.Counting? || pc.Flagging? || pc.Joining?
  }

  /** A join that returned on a living thread marks the connector failed, which no later drain gets past. */
  ghost predicate GaveUp(s: State, pc: Drainer) {
    !Undecided(pc) && !pc.Idle? && !SawDead(pc) && (pc.Joined? || s.life == Failed)
  }

  ghost predicate OneDrainerInv(s: State, h: History) {
    |s.drainers| == 1 && !Gone(s.worker) && h.flipped ==> Undecided(s.drainers[0]) || GaveUp(s, s.drainers[0])
  }

  lemma OneDrainerStep(w: World, a: Action)
    requires Enabled(w.s, a) && PhaseInv(w.s, w.h) && DeathInv(w.s) && OneDrainerInv(w.s, w.h)
    ensures OneDrainerInv(Next(w, a).s, Next(w, a).h)
  {
  }

  /** What holds in every reachable world. */
  ghost predicate Base(w: World) {
    && FateInv(w) && CountersInv(w)
    && PhaseInv(w.s, w.h) && DeathInv(w.s) && OneDrainerInv(w.s, w.h)
  }

  lemma BaseInit(limit: nat, producers: nat, drainers: nat)
    ensures Base(Init(limit, producers, drainers))
  {
    CountersInit(limit, producers, drainers);
  }

  lemma BaseStep(w: World, a: Action)
    requires Enabled(w.s, a) && Base(w)
    ensures Base(Next(w, a))
  {
    QueueStep(w, a);
    WorkerStep(w, a);
    AcceptedStep(w, a);
    CancelledStep(w, a);
    PhaseStep(w, a);
    DeathStep(w, a);
    OneDrainerStep(w, a);
  }

  lemma BaseInductive() returns (p: World -> bool)
    ensures p == (w => Base(w)) && Inductive(p)
  {
    p := w => Base(w);
    forall w: World, a: Action | Enabled(w.s, a) && p(w) ensures p(Next(w, a)) {
      BaseStep(w, a);
    }
  }

  lemma BasePreserved(w: World, run: seq<Action>, w': World)
    requires Reaches(w, run, w') && Base(w)
    ensures Base(w')
  {
    var p := BaseInductive();
    RunInduction(p, w, run, w');
  }

  /** What a drainer that saw the worker dead has read is still so. */
  ghost predicate Settled(s: State, pc: Drainer) {
    SawDead(pc) ==>
      match pc
      case ReadState(_, _) => s.life == Stopped
      case ReadAccepted(_, _, st) => st == Stopped
      case ReadProcessed(_, _, st, acc) => st == Stopped && acc == s.accepted
      case ReadCancelled(_, _, st, acc, proc) => st == Stopped && acc == s.accepted && proc == s.processed
      case Done(r) =>
        && r.state == Stopped
        && r.accepted == s.accepted && r.processed == s.processed && r.cancelled == s.cancelled
      case _ => true
  }

  /** A drain has begun, no producer is inside `submit`, and unless a call raised nothing is left behind. */
  ghost predicate Sealed(w: World) {
    && w.h.flipped && AllOutside(w.s.producers) && |w.s.drainers| <= 1
    && (w.h.raised == [] ==>
          && (Gone(w.s.worker) ==> w.s.queue == [])
          && forall d :: 0 <= d < |w.s.drainers| ==> Settled(w.s, w.s.drainers[d]))
  }

  lemma SealedStep(w: World, a: Action)
    requires Enabled(w.s, a) && Base(w) && Sealed(w)
    ensures Sealed(Next(w, a))
  {
    if WorkerAction(a) {
      SealedWorkerStep(w, a);
    } else {
      assert DrainerAction(a);
      SealedDrainerStep(w, a);
    }
  }

  lemma SealedWorkerStep(w: World, a: Action)
    requires Enabled(w.s, a) && WorkerAction(a) && DeathInv(w.s) && Sealed(w)
    requires w.s.worker.Raising? ==> w.h.raised != []
    ensures Sealed(Next(w, a))
  {
    WorkerFrame(w, a);
  }

  lemma SealedDrainerStep(w: World, a: Action)
    requires Enabled(w.s, a) && DrainerAction(a) && DeathInv(w.s) && PhaseInv(w.s, w.h) && Sealed(w)
    ensures Sealed(Next(w, a))
  {
    DrainerFrame(w, a);
  }

  lemma {:induction false} SealedPreserved(w: World, run: seq<Action>, w': World)
    requires Reaches(w, run, w') && Base(w) && Sealed(w)
    ensures Sealed(w')
    decreases |run|
  {
    if run != [] {
      BaseStep(w, run[0]);
      SealedStep(w, run[0]);
      SealedPreserved(Next(w, run[0]), run[1..], w');
    }
  }

  /** A receipt of a sealed connector whose thread is dead accounts for everything. */
  lemma SealedReceipt(w: World, d: nat)
    requires Base(w) && Sealed(w) && w.h.raised == [] && |w.s.producers| <= 1
    requires d < |w.s.drainers| && w.s.drainers[d].Done? && !w.s.drainers[d].receipt.alive
    ensures Closed(w.s)
    ensures var r := w.s.drainers[d].receipt;
            && r.state == Stopped
            && r.accepted == r.processed + r.cancelled
            && r.accepted == |w.h.enqueued| && r.processed == |w.h.done|
            && r.cancelled == |TakenBy(w.h.removed, ByDrainer)|
  {
    assert Settled(w.s, w.s.drainers[d]);
    SumZero(w.s.producers, Uncounted);
    SumZero(w.s.drainers, Uncancelled);
    BalanceOf(w);
  }

  /** Nothing can be enqueued or handled any more: no producer is inside, none can enter, and the worker is gone. */
  ghost predicate Closed(s: State) {
    && s.life != Created && s.life != Running
    && AllOutside(s.producers)
    && s.worker == Exited
    && s.queue == []
  }

  lemma ClosedStep(w: World, a: Action)
    requires Enabled(w.s, a) && Closed(w.s)
    ensures Closed(Next(w, a).s)
    ensures Next(w, a).h.(cancelStores := w.h.cancelStores) == w.h
  {
    assert Next(w, a).s.producers == w.s.producers;
  }

  lemma {:induction false} ClosedForever(w: World, run: seq<Action>, w': World)
    requires Reaches(w, run, w') && Closed(w.s)
    ensures Closed(w'.s)
    ensures w'.h.enqueued == w.h.enqueued && w'.h.removed == w.h.removed && w'.h.done == w.h.done
    decreases |run|
  {
    if run != [] {
      ClosedStep(w, run[0]);
      ClosedForever(Next(w, run[0]), run[1..], w');
    }
  }

  lemma QuietFlip(w: World, d: nat)
    requires Enabled(w.s, DrainBegin(d)) && Base(w) && |w.s.drainers| <= 1 && w.s.life == Running
    ensures AllOutside(w.s.producers) ==> Sealed(Next(w, DrainBegin(d)))
  {
    var w' := Next(w, DrainBegin(d));
    assert w'.s.drainers[0] == Waiting;
    assert w'.h.raised == [] ==> !Gone(w'.s.worker);
  }

  lemma QuietStep(w: World, a: Action)
    requires Enabled(w.s, a) && Base(w) && |w.s.drainers| <= 1 && (w.h.quiet ==> Sealed(w))
    ensures |Next(w, a).s.drainers| <= 1
    ensures Next(w, a).h.quiet ==> Sealed(Next(w, a))
  {
    if a.DrainBegin? && w.s.life == Running {
      QuietFlip(w, a.d);
    } else {
      assert Next(w, a).h.quiet == w.h.quiet;
      if w.h.quiet {
        SealedStep(w, a);
      }
    }
  }

  /** With one drainer, a quiet flip seals the connector. */
  lemma {:induction false} QuietSeals(w: World, run: seq<Action>, w': World)
    requires Reaches(w, run, w') && Base(w) && |w.s.drainers| <= 1 && (w.h.quiet ==> Sealed(w))
    ensures w'.h.quiet ==> Sealed(w')
    decreases |run|
  {
    if run != [] {
      BaseStep(w, run[0]);
      QuietStep(w, run[0]);
      QuietSeals(Next(w, run[0]), run[1..], w');
    }
  }

  /**
   One producer, one drainer, no handler call that raises, no producer inside `submit` when the drain flipped the state:
   then a receipt whose worker thread is dead reports a stopped connector that accounts for every enqueued item as
   processed or cancelled, and in every continuation nothing more is enqueued, removed or handled.
   */
  lemma CleanDrainLosesNothing(limit: nat, producers: nat, drainers: nat, run: seq<Action>, w: World, d: nat,
                               more: seq<Action>, w': World)
    requires producers <= 1 && drainers <= 1
    requires Reaches(Init(limit, producers, drainers), run, w)
    requires d < |w.s.drainers| && w.s.drainers[d].Done? && !w.s.drainers[d].receipt.alive
    requires w.h.raised == [] && w.h.quiet
    requires Reaches(w, more, w')
    ensures var r := w.s.drainers[d].receipt;
            && r.state == Stopped
            && r.accepted == r.processed + r.cancelled
            && r.accepted == |w.h.enqueued| && r.processed == |w.h.done|
            && r.cancelled == |TakenBy(w.h.removed, ByDrainer)|
    ensures w'.h.enqueued == w.h.enqueued && w'.h.removed == w.h.removed && w'.h.done == w.h.done
  {
    var w0 := Init(limit, producers, drainers);
    BaseInit(limit, producers, drainers);
    LimitFixed(w0, run, w);
    BasePreserved(w0, run, w);
    QuietSeals(w0, run, w);
    SealedReceipt(w, d);
    ClosedForever(w, more, w');
  }

  // ---- Each hypothesis is needed ----

  lemma {:induction false} Extend(w0: World, run: seq<Action>, w: World, a: Action)
    requires Reaches(w0, run, w) && Enabled(w.s, a)
    ensures Reaches(w0, run + [a], Next(w, a))
    decreases |run|
  {
    if run == [] {
      assert [a][1..] == [];
      assert run + [a] == [a];
    } else {
      Extend(Next(w0, run[0]), run[1..], w, a);
      assert (run + [a])[1..] == run[1..] + [a];
    }
  }

  ghost predicate Reachable(w0: World, w: World) {
    exists run :: Reaches(w0, run, w)
  }

  lemma Advance(w0: World, w: World, a: Action) returns (w': World)
    requires Reachable(w0, w) && Enabled(w.s, a)
    ensures w' == Next(w, a) && Reachable(w0, w')
  {
    var run :| Reaches(w0, run, w);
    Extend(w0, run, w, a);
    w' := Next(w, a);
  }

  lemma Begin(limit: nat, producers: nat, drainers: nat) returns (w: World)
    ensures w == Init(limit, producers, drainers) && Reachable(w, w)
  {
    w := Init(limit, producers, drainers);
    assert Reaches(w, [], w);
  }

  /** Joining a dead worker and reading the receipt. */
  lemma Report(w0: World, v: World) returns (w: World)
    requires Reachable(w0, v)
    requires |v.s.drainers| == 1 && v.s.drainers[0].Joining? && v.s.worker == Exited
    ensures Reachable(w0, w) && w.h == v.h
    ensures w.s == v.s.(life := Stopped, drainers := [
      Done(Receipt(v.s.drainers[0].reason, Stopped, v.s.accepted, v.s.processed, v.s.cancelled, false))])
  {
    w := Advance(w0, v, JoinReturns(0));
    w := Advance(w0, w, SetFinal(0));
    w := ReadReceipt(w0, w, v.s.drainers[0].reason);
  }

  lemma ReadReceipt(w0: World, v: World, reason: Reason) returns (w: World)
    requires Reachable(w0, v) && v.s.drainers == [ReadState(reason, false)]
    ensures Reachable(w0, w) && w.h == v.h
    ensures w.s == v.s.(drainers := [
      Done(Receipt(reason, v.s.life, v.s.accepted, v.s.processed, v.s.cancelled, false))])
  {
    w := ReadOnce(w0, v, []);
    w := ReadOnce(w0, w, []);
    w := ReadOnce(w0, w, []);
    w := ReadOnce(w0, w, []);
  }

  lemma ReadOnce(w0: World, v: World, others: seq<Drainer>) returns (w: World)
    requires Reachable(w0, v) && v.s.drainers != [] && v.s.drainers[1..] == others && Enabled(v.s, Read(0))
    ensures Reachable(w0, w) && w.h == v.h && w.s == v.s.(drainers := [ReadStep(v.s, v.s.drainers[0])] + others)
  {
    w := Advance(w0, v, Read(0));
    assert w.s.drainers == [ReadStep(v.s, v.s.drainers[0])] + others;
  }

  /** The worker sees the stop flag and an empty queue and leaves. */
  lemma WorkerLeaves(w0: World, v: World) returns (w: World)
    requires Reachable(w0, v) && v.s.worker == AtTop && v.s.stop && v.s.queue == [] && v.s.life == Draining
    ensures Reachable(w0, w) && w.h == v.h && w.s == v.s.(worker := Exited, life := Stopped)
  {
    w := Advance(w0, v, WorkerTop);
    w := Advance(w0, w, WorkerEmptyCheck);
    w := Advance(w0, w, WorkerFinally);
    w := Advance(w0, w, WorkerExits);
  }

  lemma WorkerTakes(w0: World, v: World) returns (w: World)
    requires Reachable(w0, v) && v.s.worker == AtTop && !v.s.stop && |v.s.queue| == 1
    ensures Reachable(w0, w) && w.s == v.s.(worker := Handling(v.s.queue[0]), queue := [])
    ensures w.h == v.h.(removed := v.h.removed + [Removal(v.s.queue[0], ByWorker)])
  {
    w := Advance(w0, v, WorkerTop);
    w := Advance(w0, w, Get);
  }

  lemma WorkerRaises(w0: World, v: World) returns (w: World)
    requires Reachable(w0, v) && v.s.worker.Handling?
    ensures Reachable(w0, w) && w.s == v.s.(worker := Exited, life := Failed)
    ensures w.h == v.h.(raised := v.h.raised + [v.s.worker.item])
  {
    w := Advance(w0, v, HandlerRaises);
    w := Advance(w0, w, MarkFailed);
    w := Advance(w0, w, WorkerFinally);
    w := Advance(w0, w, WorkerExits);
  }

  /** From an idle drainer and an empty queue to the join. */
  lemma DrainEmpty(w0: World, v: World) returns (w: World)
    requires Reachable(w0, v) && v.s.life == Running && v.s.drainers == [Idle] && v.s.queue == []
    ensures Reachable(w0, w)
    ensures w.s == v.s.(life := Draining, drainers := [Joining(QueueDrained)], stop := true)
    ensures w.h == v.h.(flipped := true, quiet := AllOutside(v.s.producers))
  {
    w := Advance(w0, v, DrainBegin(0));
    assert w.s == v.s.(life := Draining, drainers := [Waiting]);
    w := WaitEnds(w0, w);
  }

  lemma WaitEnds(w0: World, v: World) returns (w: World)
    requires Reachable(w0, v) && v.s.drainers == [Waiting] && v.s.queue == []
    ensures Reachable(w0, w) && w.s == v.s.(drainers := [Joining(QueueDrained)], stop := true) && w.h == v.h
  {
    w := Advance(w0, v, WaitOver(0));
    w := Advance(w0, w, Decide(0));
    w := Advance(w0, w, SetStop(0));
  }

  /** A whole `submit` of `item` by producer 0. */
  lemma SubmitOne(w0: World, v: World, item: Item) returns (w: World)
    requires Reachable(w0, v) && |v.s.producers| > 0 && v.s.producers[0] == Checked(item) && |v.s.queue| < v.s.limit
    ensures Reachable(w0, w)
    ensures w.s == v.s.(producers := v.s.producers[0 := Outside], queue := v.s.queue + [item], accepted := v.s.accepted + 1)
    ensures w.h == v.h.(enqueued := v.h.enqueued + [item], stores := v.h.stores + 1)
  {
    w := Advance(w0, v, Normalize(0, item));
    w := Advance(w0, w, Put(0));
    w := Advance(w0, w, LoadAccepted(0));
    w := Advance(w0, w, StoreAccepted(0));
    assert w.s.producers == v.s.producers[0 := Outside];
  }

  lemma Opened(limit: nat) returns (w0: World, w: World)
    ensures w0 == Init(limit, 1, 1) && Reachable(w0, w)
    ensures w.s == w0.s.(life := Running, worker := AtTop, producers := [Checked("x")]) && w.h == w0.h
    ensures w.s.drainers == [Idle] && w.s.queue == [] && w.s.limit == limit
  {
    w0 := Begin(limit, 1, 1);
    w := Advance(w0, w0, Start);
    w := Advance(w0, w, Check(0, "x"));
    assert w0.s.producers == [Outside];
  }

  /**
   A producer that passed the state check before the drain flipped it can still enqueue after the worker has left: the
   receipt says stopped, drained and dead, but the item it counts as accepted is neither processed nor cancelled.
   */
  lemma LateProducerIsStranded() returns (w: World)
    ensures Reachable(Init(1, 1, 1), w) && w.h.raised == [] && w.h.flipped && !w.h.quiet
    ensures w.s.drainers == [Done(Receipt(QueueDrained, Stopped, 1, 0, 0, false))]
    ensures w.s.queue == ["x"]
  {
    var w0;
    w0, w := Opened(1);
    assert !w.s.producers[0].Outside?;
    w := DrainEmpty(w0, w);
    w := WorkerLeaves(w0, w);
    w := SubmitOne(w0, w, "x");
    w := Report(w0, w);
  }

  /** A handler call that raises during a drain loses its item, and the receipt still says stopped. */
  lemma RaiseDuringDrainReportsStopped() returns (w: World)
    ensures Reachable(Init(1, 1, 1), w) && w.h.flipped && w.h.quiet && w.h.raised == ["x"]
    ensures w.s.drainers == [Done(Receipt(QueueDrained, Stopped, 1, 0, 0, false))]
  {
    var w0;
    w0, w := Opened(1);
    w := SubmitOne(w0, w, "x");
    w := WorkerTakes(w0, w);
    w := DrainEmpty(w0, w);
    w := WorkerRaises(w0, w);
    w := Report(w0, w);
  }

  /** What a drainer that saw the worker dead reads or has read as the state. */
  ghost predicate ReadsStopped(s: State, pc: Drainer) {
    SawDead(pc) ==>
      match pc
      case ReadState(_, _) => s.life == Stopped
      case ReadAccepted(_, _, st) => st == Stopped
      case ReadProcessed(_, _, st, _) => st == Stopped
      case ReadCancelled(_, _, st, _, _) => st == Stopped
      case Done(r) => r.state == Stopped
      case _ => true
  }

  lemma ReadsStoppedStep(w: World, a: Action)
    requires Enabled(w.s, a) && DeathInv(w.s) && |w.s.drainers| == 1 && ReadsStopped(w.s, w.s.drainers[0])
    ensures |Next(w, a).s.drainers| == 1 && ReadsStopped(Next(w, a).s, Next(w, a).s.drainers[0])
  {
    if DrainerAction(a) {
      ReadsStoppedDrainer(w, a);
    } else if ProducerAction(a) {
      ProducerFrame(w, a);
    } else if WorkerAction(a) {
      WorkerFrame(w, a);
      assert w.s.worker != Exited;
    }
  }

  lemma ReadsStoppedDrainer(w: World, a: Action)
    requires Enabled(w.s, a) && DrainerAction(a) && |w.s.drainers| == 1 && ReadsStopped(w.s, w.s.drainers[0])
    ensures |Next(w, a).s.drainers| == 1 && ReadsStopped(Next(w, a).s, Next(w, a).s.drainers[0])
  {
    assert a.d == 0;
  }

  lemma {:induction false} ReadsStoppedRun(w: World, run: seq<Action>, w': World)
    requires Reaches(w, run, w') && Base(w) && |w.s.drainers| == 1 && ReadsStopped(w.s, w.s.drainers[0])
    ensures |w'.s.drainers| == 1 && ReadsStopped(w'.s, w'.s.drainers[0])
    decreases |run|
  {
    if run != [] {
      BaseStep(w, run[0]);
      ReadsStoppedStep(w, run[0]);
      ReadsStoppedRun(Next(w, run[0]), run[1..], w');
    }
  }

  /** In general: with one drainer every receipt of a dead thread says stopped, whatever the handler raised. */
  lemma DeadReceiptsSayStopped(limit: nat, producers: nat, run: seq<Action>, w: World)
    requires Reaches(Init(limit, producers, 1), run, w)
    ensures ReceiptOfDead(w) ==> w.s.drainers[0].receipt.state == Stopped
  {
    BaseInit(limit, producers, 1);
    ReadsStoppedRun(Init(limit, producers, 1), run, w);
  }

  /** Two producers can overwrite each other's increment: two items enqueued, one counted. */
  lemma TwoProducersUndercount() returns (w: World)
    ensures Reachable(Init(2, 2, 1), w)
    ensures |w.h.enqueued| == 2 && AllOutside(w.s.producers) && w.s.accepted == 1
  {
    var w0 := Begin(2, 2, 1);
    w := Advance(w0, w0, Start);
    w := BothEnqueued(w0, w);
    w := Advance(w0, w, LoadAccepted(0));
    w := Advance(w0, w, LoadAccepted(1));
    w := Advance(w0, w, StoreAccepted(0));
    w := Advance(w0, w, StoreAccepted(1));
  }

  lemma BothEnqueued(w0: World, v: World) returns (w: World)
    requires Reachable(w0, v) && v.s.life == Running && v.s.producers == [Outside, Outside] && v.s.queue == [] && v.s.limit == 2
    ensures Reachable(w0, w) && w.s.producers == [Enqueued, Enqueued]
    ensures w.s.accepted == v.s.accepted && |w.h.enqueued| == |v.h.enqueued| + 2
  {
    w := Advance(w0, v, Check(0, "x"));
    w := Advance(w0, w, Normalize(0, "x"));
    w := Advance(w0, w, Check(1, "y"));
    w := Advance(w0, w, Normalize(1, "y"));
    w := Advance(w0, w, Put(0));
    w := Advance(w0, w, Put(1));
  }

  /** Two drainers can overwrite each other's increment too: two items cancelled, one counted, and the receipt says so. */
  lemma TwoDrainersUndercount() returns (w: World)
    ensures Reachable(Init(2, 1, 2), w) && w.h.quiet && w.h.raised == []
    ensures w.s.drainers == [Done(Receipt(ItemsCancelled, Stopped, 2, 0, 1, false)), Emptying]
  {
    var w0;
    w0, w := TwoQueued();
    w := BothDraining(w0, w);
    w := BothTake(w0, w);
    w := BothCount(w0, w);
    w := FirstStops(w0, w);
    w := WorkerLeaves(w0, w);
    w := FirstJoins(w0, w);
    w := FirstReports(w0, w);
  }

  lemma TwoQueued() returns (w0: World, w: World)
    ensures w0 == Init(2, 1, 2) && Reachable(w0, w) && w.h.raised == []
    ensures w.s.producers == [Outside] && w.s.drainers == [Idle, Idle] && w.s.life == Running && w.s.worker == AtTop
    ensures |w.s.queue| == 2 && w.s.accepted == 2 && w.s.processed == w.s.cancelled == 0
  {
    w0 := Begin(2, 1, 2);
    w := Advance(w0, w0, Start);
    w := Advance(w0, w, Check(0, "x"));
    w := SubmitOne(w0, w, "x");
    w := Advance(w0, w, Check(0, "y"));
    w := SubmitOne(w0, w, "y");
  }

  lemma BothDraining(w0: World, v: World) returns (w: World)
    requires Reachable(w0, v) && v.s.life == Running && v.s.drainers == [Idle, Idle] && v.s.queue != []
    ensures Reachable(w0, w) && w.s == v.s.(life := Draining, drainers := [Emptying, Emptying])
    ensures w.h == v.h.(flipped := true, quiet := AllOutside(v.s.producers))
  {
    w := Advance(w0, v, DrainBegin(0));
    assert w.s == v.s.(life := Draining, drainers := [Waiting, Idle]);
    w := Advance(w0, w, DrainBegin(1));
    assert w.s == v.s.(life := Draining, drainers := [Waiting, Waiting]);
    w := BothDecide(w0, w);
  }

  lemma BothDecide(w0: World, v: World) returns (w: World)
    requires Reachable(w0, v) && v.s.drainers == [Waiting, Waiting] && v.s.queue != []
    ensures Reachable(w0, w) && w.s == v.s.(drainers := [Emptying, Emptying]) && w.h == v.h
  {
    w := Advance(w0, v, WaitOver(0));
    assert w.s == v.s.(drainers := [Deciding, Waiting]);
    w := Advance(w0, w, WaitOver(1));
    assert w.s == v.s.(drainers := [Deciding, Deciding]);
    w := Advance(w0, w, Decide(0));
    assert w.s == v.s.(drainers := [Emptying, Deciding]);
    w := Advance(w0, w, Decide(1));
    assert w.s.drainers == [Emptying, Emptying];
  }

  lemma BothTake(w0: World, v: World) returns (w: World)
    requires Reachable(w0, v) && v.s.drainers == [Emptying, Emptying] && |v.s.queue| == 2
    ensures Reachable(w0, w) && w.s == v.s.(queue := [], drainers := [Took, Took])
    ensures w.h.quiet == v.h.quiet && w.h.raised == v.h.raised
  {
    w := Advance(w0, v, CancelOne(0));
    assert w.s == v.s.(queue := v.s.queue[1..], drainers := [Took, Emptying]);
    w := Advance(w0, w, CancelOne(1));
    assert w.s.drainers == [Took, Took] && w.s.queue == [];
  }

  lemma BothCount(w0: World, v: World) returns (w: World)
    requires Reachable(w0, v) && v.s.drainers == [Took, Took]
    ensures Reachable(w0, w) && w.s == v.s.(cancelled := v.s.cancelled + 1, drainers := [Emptying, Emptying])
    ensures w.h.quiet == v.h.quiet && w.h.raised == v.h.raised
  {
    var n := v.s.cancelled;
    w := Advance(w0, v, LoadCancelled(0));
    assert w.s == v.s.(drainers := [Counting(n), Took]);
    w := Advance(w0, w, LoadCancelled(1));
    assert w.s == v.s.(drainers := [Counting(n), Counting(n)]);
    w := Advance(w0, w, StoreCancelled(0));
    assert w.s == v.s.(cancelled := n + 1, drainers := [Emptying, Counting(n)]);
    w := Advance(w0, w, StoreCancelled(1));
    assert w.s.drainers == [Emptying, Emptying];
  }

  lemma FirstStops(w0: World, v: World) returns (w: World)
    requires Reachable(w0, v) && v.s.drainers == [Emptying, Emptying] && v.s.queue == []
    ensures Reachable(w0, w) && w.s == v.s.(stop := true, drainers := [Joining(ItemsCancelled), Emptying]) && w.h == v.h
  {
    w := Advance(w0, v, CancelOne(0));
    assert w.s == v.s.(drainers := [Flagging(ItemsCancelled), Emptying]);
    w := Advance(w0, w, SetStop(0));
    assert w.s.drainers == [Joining(ItemsCancelled), Emptying];
  }

  lemma FirstJoins(w0: World, v: World) returns (w: World)
    requires Reachable(w0, v) && v.s.drainers == [Joining(ItemsCancelled), Emptying] && v.s.worker == Exited
    ensures Reachable(w0, w) && w.s == v.s.(life := Stopped, drainers := [ReadState(ItemsCancelled, false), Emptying])
    ensures w.h == v.h
  {
    w := Advance(w0, v, JoinReturns(0));
    assert w.s == v.s.(drainers := [Joined(ItemsCancelled, false), Emptying]);
    w := Advance(w0, w, SetFinal(0));
    assert w.s.drainers == [ReadState(ItemsCancelled, false), Emptying];
  }

  lemma FirstReports(w0: World, v: World) returns (w: World)
    requires Reachable(w0, v) && v.s.drainers == [ReadState(ItemsCancelled, false), Emptying]
    ensures Reachable(w0, w) && w.h == v.h
    ensures w.s.drainers ==
            [Done(Receipt(ItemsCancelled, v.s.life, v.s.accepted, v.s.processed, v.s.cancelled, false)), Emptying]
  {
    w := ReadOnce(w0, v, [Emptying]);
    w := ReadOnce(w0, w, [Emptying]);
    w := ReadOnce(w0, w, [Emptying]);
    w := ReadOnce(w0, w, [Emptying]);
  }

  // ---- Exactly when a drain cannot lose anything ----

  /** No continuation without a raise ends in a receipt of a dead thread that fails to account for what was accepted. */
  ghost predicate LosesNothing(w: World) {
    forall w' {:trigger Reachable(w, w')} :: Reachable(w, w') && w'.h.raised == [] && ReceiptOfDead(w') ==> Accounts(w')
  }

  ghost predicate ReceiptOfDead(w: World) {
    |w.s.drainers| == 1 && w.s.drainers[0].Done? && !w.s.drainers[0].receipt.alive
  }

  ghost predicate Accounts(w: World)
    requires ReceiptOfDead(w)
  {
    var r := w.s.drainers[0].receipt;
    r.accepted == r.processed + r.cancelled
  }

  /** The worker is in its loop. */
  predicate Looping(worker: Worker) {
    worker.AtTop? || worker.SawStop? || worker.Getting? || worker.Handling? || worker.Returned?
  }

  /** The steps between `v` and `w` leave the producers alone and raise nothing. */
  ghost predicate Aside(v: World, w: World) {
    w.s.producers == v.s.producers && w.s.limit == v.s.limit && w.h.raised == v.h.raised
  }

  function DrainRank(pc: Drainer): nat {
    match pc
    case Waiting => 7
    case Deciding => 6
    case Took => 5
    case Counting(_) => 4
    case Emptying => 3
    case Flagging(_) => 2
    case _ => 0
  }

  function DrainNext(pc: Drainer): Action {
    match pc
    case Waiting => WaitOver(0)
    case Deciding => Decide(0)
    case Took => LoadCancelled(0)
    case Counting(_) => StoreCancelled(0)
    case Emptying => CancelOne(0)
    case _ => SetStop(0)
  }

  lemma DrainerMoves(w0: World, v: World) returns (w: World)
    requires Reachable(w0, v) && |v.s.drainers| == 1 && Undecided(v.s.drainers[0]) && !v.s.drainers[0].Joining?
    ensures Reachable(w0, w) && Aside(v, w) && w.s.worker == v.s.worker && |w.s.drainers| == 1 && Undecided(w.s.drainers[0])
    ensures w.s.drainers[0].Joining? ==> w.s.stop
    ensures |w.s.queue| < |v.s.queue| || (w.s.queue == v.s.queue && DrainRank(w.s.drainers[0]) < DrainRank(v.s.drainers[0]))
  {
    w := Advance(w0, v, DrainNext(v.s.drainers[0]));
  }

  /** An undecided drain can go on to its join while everybody else stands still. */
  lemma {:induction false} DrainerToJoin(w0: World, v: World) returns (w: World)
    requires Reachable(w0, v) && |v.s.drainers| == 1 && Undecided(v.s.drainers[0]) && (v.s.drainers[0].Joining? ==> v.s.stop)
    ensures Reachable(w0, w) && Aside(v, w) && w.s.worker == v.s.worker && |w.s.drainers| == 1 && w.s.drainers[0].Joining?
    ensures w.s.stop
    decreases |v.s.queue|, DrainRank(v.s.drainers[0])
  {
    if v.s.drainers[0].Joining? {
      w := v;
    } else {
      w := DrainerMoves(w0, v);
      w := DrainerToJoin(w0, w);
    }
  }

  function WorkerRank(s: State): nat {
    match s.worker
    case Handling(_) => 6
    case Returned => 5
    case AtTop => 4
    case SawStop => 3
    case Getting => if s.queue == [] then 7 else 2
    case _ => 0
  }

  function WorkerNext(s: State): Action {
    match s.worker
    case Handling(_) => HandlerReturns
    case Returned => CountProcessed
    case AtTop => WorkerTop
    case Getting => if s.queue == [] then GetTimeout else Get
    case _ => WorkerEmptyCheck
  }

  lemma WorkerMoves(w0: World, v: World) returns (w: World)
    requires Reachable(w0, v) && v.s.stop && Looping(v.s.worker)
    ensures Reachable(w0, w) && Aside(v, w) && w.s.drainers == v.s.drainers && w.s.stop
    ensures Looping(w.s.worker) || (w.s.worker == Finally && w.s.queue == [])
    ensures |w.s.queue| < |v.s.queue| || (w.s.queue == v.s.queue && WorkerRank(w.s) < WorkerRank(v.s))
  {
    w := Advance(w0, v, WorkerNext(v.s));
  }

  /** Once the stop flag is set the worker can empty the queue and leave while everybody else stands still. */
  lemma {:induction false} WorkerToExit(w0: World, v: World) returns (w: World)
    requires Reachable(w0, v) && v.s.stop && (Looping(v.s.worker) || (v.s.worker == Finally && v.s.queue == []))
    ensures Reachable(w0, w) && Aside(v, w) && w.s.drainers == v.s.drainers && w.s.worker == Exited && w.s.queue == []
    decreases |v.s.queue|, WorkerRank(v.s)
  {
    if v.s.worker == Finally {
      w := Advance(w0, v, WorkerFinally);
      w := Advance(w0, w, WorkerExits);
    } else {
      w := WorkerMoves(w0, v);
      w := WorkerToExit(w0, w);
    }
  }

  /** A producer past the state check enqueues and counts its item behind the departed worker. */
  lemma ProducerStrands(w0: World, v: World) returns (w: World)
    requires Reachable(w0, v) && |v.s.producers| == 1 && (v.s.producers[0].Checked? || v.s.producers[0].Normalized?)
    requires v.s.queue == [] && v.s.limit >= 1
    ensures Reachable(w0, w) && w.s.producers == [Outside] && |w.s.queue| == 1
    ensures w.s.drainers == v.s.drainers && w.s.worker == v.s.worker && w.h.raised == v.h.raised
  {
    w := v;
    if w.s.producers[0].Checked? {
      w := Advance(w0, w, Normalize(0, w.s.producers[0].item));
    }
    w := Advance(w0, w, Put(0));
    w := Advance(w0, w, LoadAccepted(0));
    w := Advance(w0, w, StoreAccepted(0));
  }

  /** From any world after the flip whose producer is inside `submit`, a bad receipt can be reached. */
  lemma BadReceipt(w0: World) returns (w: World)
    requires Base(w0) && w0.h.raised == [] && Looping(w0.s.worker) && w0.s.limit >= 1
    requires |w0.s.producers| == 1 && !w0.s.producers[0].Outside?
    requires |w0.s.drainers| == 1 && Undecided(w0.s.drainers[0])
    ensures Reachable(w0, w) && w.h.raised == [] && ReceiptOfDead(w) && !Accounts(w)
  {
    assert Reaches(w0, [], w0);
    w := DrainerToJoin(w0, w0);
    w := WorkerToExit(w0, w);
    if w.s.producers[0].Checked? || w.s.producers[0].Normalized? {
      w := ProducerStrands(w0, w);
    }
    ghost var v := w;
    w := Report(w0, v);
    Unbalanced(w0, w);
  }

  /** At the end either the queue still holds an item or an increment is outstanding. */
  lemma Unbalanced(w0: World, w: World)
    requires Base(w0) && Reachable(w0, w) && w.h.raised == [] && |w.s.producers| == 1
    requires w.s.worker == Exited && |w.s.drainers| == 1 && w.s.drainers[0].Done?
    requires |w.s.queue| + Uncounted(w.s.producers[0]) == 1 || |w.s.queue| != Uncounted(w.s.producers[0])
    ensures w.s.accepted != w.s.processed + w.s.cancelled
  {
    var run :| Reaches(w0, run, w);
    BasePreserved(w0, run, w);
    BalanceOf(w);
    SumOne(w.s.producers, Uncounted);
    SumOne(w.s.drainers, Uncancelled);
  }

  lemma SumOne<T>(s: seq<T>, weight: T -> int)
    requires |s| == 1
    ensures SumBy(s, weight) == weight(s[0])
  {
    assert SumBy(s[..0], weight) == 0;
  }

  /** A drain whose join returned on a living thread never reports a dead one. */
  lemma {:induction false} GaveUpForever(w: World, run: seq<Action>, w': World)
    requires Reaches(w, run, w') && |w.s.drainers| == 1 && GaveUp(w.s, w.s.drainers[0])
    ensures |w'.s.drainers| == 1 && GaveUp(w'.s, w'.s.drainers[0])
    decreases |run|
  {
    if run != [] {
      GaveUpStep(w, run[0]);
      GaveUpForever(Next(w, run[0]), run[1..], w');
    }
  }

  lemma GaveUpStep(w: World, a: Action)
    requires Enabled(w.s, a) && |w.s.drainers| == 1 && GaveUp(w.s, w.s.drainers[0])
    ensures |Next(w, a).s.drainers| == 1 && GaveUp(Next(w, a).s, Next(w, a).s.drainers[0])
  {
    if DrainerAction(a) {
      GaveUpDrainer(w, a);
    } else {
      assert Next(w, a).s.drainers == w.s.drainers && (w.s.life == Failed ==> Next(w, a).s.life == Failed);
    }
  }

  lemma GaveUpDrainer(w: World, a: Action)
    requires Enabled(w.s, a) && DrainerAction(a) && |w.s.drainers| == 1 && GaveUp(w.s, w.s.drainers[0])
    ensures |Next(w, a).s.drainers| == 1 && GaveUp(Next(w, a).s, Next(w, a).s.drainers[0])
  {
    assert a.d == 0;
  }

  /**
   One producer, one drainer, nothing raised so far, a drain begun and the worker still in its loop: then no continuation
   can lose anything if and only if the producer is outside `submit`, or the join has already returned on a living thread
   (after which no receipt of a dead one follows).
   */
  lemma LosesNothingIff(limit: nat, run: seq<Action>, w: World)
    requires limit >= 1 && Reaches(Init(limit, 1, 1), run, w)
    requires w.h.flipped && w.h.raised == [] && Looping(w.s.worker)
    ensures |w.s.drainers| == 1
    ensures LosesNothing(w) <==> AllOutside(w.s.producers) || !Undecided(w.s.drainers[0])
  {
    var w0 := Init(limit, 1, 1);
    BaseInit(limit, 1, 1);
    BasePreserved(w0, run, w);
    LimitFixed(w0, run, w);
    if !AllOutside(w.s.producers) && Undecided(w.s.drainers[0]) {
      var bad := BadReceipt(w);
      assert Reachable(w, bad) && !Accounts(bad);
    } else {
      NothingLost(w);
    }
  }

  lemma NothingLost(w: World)
    requires Base(w) && w.h.flipped && Looping(w.s.worker) && |w.s.producers| == 1 && |w.s.drainers| == 1
    requires AllOutside(w.s.producers) || !Undecided(w.s.drainers[0])
    ensures LosesNothing(w)
  {
    forall w' | Reachable(w, w') && w'.h.raised == [] && ReceiptOfDead(w') ensures Accounts(w') {
      var more :| Reaches(w, more, w');
      LimitFixed(w, more, w');
      if AllOutside(w.s.producers) {
        SealedFrom(w, more, w');
      } else {
        GaveUpForever(w, more, w');
      }
    }
  }

  lemma SealedFrom(w: World, run: seq<Action>, w': World)
    requires Base(w) && w.h.flipped && Looping(w.s.worker) && AllOutside(w.s.producers)
    requires |w.s.producers| <= 1 && |w.s.drainers| == 1
    requires Reaches(w, run, w') && w'.h.raised == [] && ReceiptOfDead(w') && |w'.s.producers| <= 1
    ensures Accounts(w')
  {
    assert Sealed(w);
    BasePreserved(w, run, w');
    SealedPreserved(w, run, w');
    SealedReceipt(w', 0);
  }

  // ---- Exactly when the counters always balance ----

  /** Every reachable world accounts for what was enqueued. */
  ghost predicate AlwaysBalanced(limit: nat, producers: nat, drainers: nat) {
    forall w {:trigger Reachable(Init(limit, producers, drainers), w)} ::
      Reachable(Init(limit, producers, drainers), w) ==> Balanced(w)
  }

  /** The state that the two races have in common. */
  ghost predicate Fresh(w: World, limit: nat, producers: nat, drainers: nat) {
    && w.s.limit == limit && |w.s.producers| == producers && |w.s.drainers| == drainers
    && AllOutside(w.s.producers) && (forall d :: 0 <= d < drainers ==> w.s.drainers[d].Idle?)
    && w.s.life == Running && w.s.worker == AtTop && !w.s.stop && w.s.queue == []
    && w.s.accepted == w.s.processed == w.s.cancelled == 0 && w.h.raised == []
  }

  lemma Started(limit: nat, producers: nat, drainers: nat) returns (w0: World, w: World)
    ensures w0 == Init(limit, producers, drainers) && Reachable(w0, w) && Fresh(w, limit, producers, drainers)
  {
    w0 := Begin(limit, producers, drainers);
    w := Advance(w0, w0, Start);
  }

  /** Two producers past the state check. */
  lemma TwoChecked(w0: World, v: World) returns (w: World)
    requires Reachable(w0, v) && v.s.life == Running && |v.s.producers| >= 2 && AllOutside(v.s.producers)
    ensures Reachable(w0, w) && w.h == v.h
    ensures w.s == v.s.(producers := v.s.producers[0 := Normalized("x")][1 := Normalized("y")])
  {
    w := Advance(w0, v, Check(0, "x"));
    w := Advance(w0, w, Normalize(0, "x"));
    assert w.s == v.s.(producers := v.s.producers[0 := Normalized("x")]);
    w := Advance(w0, w, Check(1, "y"));
    w := Advance(w0, w, Normalize(1, "y"));
    assert w.s.producers == v.s.producers[0 := Normalized("x")][1 := Normalized("y")];
  }

  /** The first puts and reads the counter, and the worker makes room. */
  lemma FirstPuts(w0: World, v: World) returns (w: World)
    requires Reachable(w0, v) && |v.s.producers| >= 2 && v.s.producers[0] == Normalized("x") && v.s.queue == []
    requires v.s.limit >= 1 && v.s.worker == AtTop && !v.s.stop
    ensures Reachable(w0, w) && w.h.raised == v.h.raised
    ensures w.s == v.s.(producers := v.s.producers[0 := Loaded(v.s.accepted)], worker := Handling("x"))
  {
    w := Advance(w0, v, Put(0));
    w := Advance(w0, w, LoadAccepted(0));
    assert w.s == v.s.(producers := v.s.producers[0 := Loaded(v.s.accepted)], queue := ["x"]);
    w := WorkerTakes(w0, w);
  }

  /** The second does the same, and both store. */
  lemma BothStore(w0: World, v: World) returns (w: World)
    requires Reachable(w0, v) && |v.s.producers| >= 2 && v.s.limit >= 1 && v.s.queue == []
    requires v.s.producers[0] == Loaded(0) && v.s.producers[1] == Normalized("y") && v.s.accepted == 0
    ensures Reachable(w0, w) && w.h.raised == v.h.raised
    ensures w.s == v.s.(producers := v.s.producers[0 := Outside][1 := Outside], queue := ["y"], accepted := 1)
  {
    w := Advance(w0, v, Put(1));
    w := Advance(w0, w, LoadAccepted(1));
    assert w.s == v.s.(producers := v.s.producers[1 := Loaded(0)], queue := ["y"]);
    w := Advance(w0, w, StoreAccepted(0));
    w := Advance(w0, w, StoreAccepted(1));
    assert w.s.producers == v.s.producers[0 := Outside][1 := Outside];
  }

  /** With two or more producers, one increment can be lost, whatever the limit and the number of drainers. */
  lemma ProducersRace(limit: nat, producers: nat, drainers: nat) returns (w: World)
    requires limit >= 1 && producers >= 2
    ensures Reachable(Init(limit, producers, drainers), w) && !Balanced(w)
  {
    var w0, v := Started(limit, producers, drainers);
    w := TwoChecked(w0, v);
    w := FirstPuts(w0, w);
    w := BothStore(w0, w);
    assert AllOutside(w.s.producers);
    SumZero(w.s.producers, Uncounted);
    SumZero(w.s.drainers, Uncancelled);
  }

  /** One item queued and another past the state check when two drains begin. */
  lemma OneQueued(w0: World, v: World) returns (w: World)
    requires Reachable(w0, v) && v.s.life == Running && |v.s.producers| >= 1 && AllOutside(v.s.producers)
    requires v.s.limit >= 1 && v.s.queue == []
    ensures Reachable(w0, w) && w.h.raised == v.h.raised
    ensures w.s == v.s.(producers := v.s.producers[0 := Normalized("y")], queue := ["x"], accepted := v.s.accepted + 1)
  {
    w := Advance(w0, v, Check(0, "x"));
    w := SubmitOne(w0, w, "x");
    assert w.s == v.s.(queue := ["x"], accepted := v.s.accepted + 1);
    w := Advance(w0, w, Check(0, "y"));
    w := Advance(w0, w, Normalize(0, "y"));
    assert w.s.producers == v.s.producers[0 := Normalized("y")];
  }

  lemma TwoBegin(w0: World, v: World) returns (w: World)
    requires Reachable(w0, v) && v.s.life == Running && |v.s.drainers| >= 2 && v.s.drainers[0].Idle? && v.s.drainers[1].Idle?
    ensures Reachable(w0, w) && w.h.raised == v.h.raised
    ensures w.s == v.s.(life := Draining, drainers := v.s.drainers[0 := Waiting][1 := Waiting])
  {
    w := Advance(w0, v, DrainBegin(0));
    assert w.s == v.s.(life := Draining, drainers := v.s.drainers[0 := Waiting]);
    w := Advance(w0, w, DrainBegin(1));
  }

  lemma TwoEmpty(w0: World, v: World, d: nat) returns (w: World)
    requires Reachable(w0, v) && d < |v.s.drainers| && v.s.drainers[d].Waiting? && v.s.queue != []
    ensures Reachable(w0, w) && w.h == v.h && w.s == v.s.(drainers := v.s.drainers[d := Emptying])
  {
    w := Advance(w0, v, WaitOver(d));
    w := Advance(w0, w, Decide(d));
    assert w.s.drainers == v.s.drainers[d := Emptying];
  }

  /** The first drainer takes the queued item, the producer puts and counts another, the second drainer takes that. */
  lemma TwoTake(w0: World, v: World) returns (w: World)
    requires Reachable(w0, v) && |v.s.drainers| >= 2 && v.s.drainers[0].Emptying? && v.s.drainers[1].Emptying?
    requires |v.s.producers| >= 1 && v.s.producers[0] == Normalized("y") && v.s.queue == ["x"] && v.s.limit >= 1
    ensures Reachable(w0, w) && w.h.raised == v.h.raised
    ensures w.s == v.s.(producers := v.s.producers[0 := Outside], queue := [], accepted := v.s.accepted + 1,
                        drainers := v.s.drainers[0 := Took][1 := Took])
  {
    w := Advance(w0, v, CancelOne(0));
    assert w.s == v.s.(queue := [], drainers := v.s.drainers[0 := Took]);
    w := PutAndCount(w0, w);
    w := Advance(w0, w, CancelOne(1));
    assert w.s.queue == [];
  }

  lemma PutAndCount(w0: World, v: World) returns (w: World)
    requires Reachable(w0, v) && |v.s.producers| >= 1 && v.s.producers[0] == Normalized("y")
    requires v.s.queue == [] && v.s.limit >= 1
    ensures Reachable(w0, w) && w.h.raised == v.h.raised
    ensures w.s == v.s.(producers := v.s.producers[0 := Outside], queue := ["y"], accepted := v.s.accepted + 1)
  {
    w := Advance(w0, v, Put(0));
    w := Advance(w0, w, LoadAccepted(0));
    w := Advance(w0, w, StoreAccepted(0));
    assert w.s.producers == v.s.producers[0 := Outside] && w.s.queue == ["y"];
  }

  /** Both read the cancelled counter before either writes it. */
  lemma TwoCount(w0: World, v: World) returns (w: World)
    requires Reachable(w0, v) && |v.s.drainers| >= 2 && v.s.drainers[0].Took? && v.s.drainers[1].Took?
    ensures Reachable(w0, w) && w.h.raised == v.h.raised
    ensures w.s == v.s.(cancelled := v.s.cancelled + 1, drainers := v.s.drainers[0 := Emptying][1 := Emptying])
  {
    var n := v.s.cancelled;
    w := Advance(w0, v, LoadCancelled(0));
    assert w.s == v.s.(drainers := v.s.drainers[0 := Counting(n)]);
    w := Advance(w0, w, LoadCancelled(1));
    assert w.s == v.s.(drainers := v.s.drainers[0 := Counting(n)][1 := Counting(n)]);
    w := TwoStore(w0, w, n);
    assert w.s.drainers == v.s.drainers[0 := Emptying][1 := Emptying];
  }

  lemma TwoStore(w0: World, v: World, n: nat) returns (w: World)
    requires Reachable(w0, v) && |v.s.drainers| >= 2 && v.s.drainers[0] == v.s.drainers[1] == Counting(n)
    ensures Reachable(w0, w) && w.h.raised == v.h.raised
    ensures w.s == v.s.(cancelled := n + 1, drainers := v.s.drainers[0 := Emptying][1 := Emptying])
  {
    w := Advance(w0, v, StoreCancelled(0));
    assert w.s == v.s.(cancelled := n + 1, drainers := v.s.drainers[0 := Emptying]);
    w := Advance(w0, w, StoreCancelled(1));
  }

  /** With a producer and two or more drainers, one cancellation can go uncounted, whatever the limit. */
  lemma DrainersRace(limit: nat, producers: nat, drainers: nat) returns (w: World)
    requires limit >= 1 && producers >= 1 && drainers >= 2
    ensures Reachable(Init(limit, producers, drainers), w) && !Balanced(w)
  {
    var w0, v := Started(limit, producers, drainers);
    w := OneQueued(w0, v);
    w := TwoBegin(w0, w);
    w := TwoEmpty(w0, w, 0);
    w := TwoEmpty(w0, w, 1);
    w := TwoTake(w0, w);
    w := TwoCount(w0, w);
    assert AllOutside(w.s.producers);
    SumZero(w.s.producers, Uncounted);
    SumZero(w.s.drainers, Uncancelled);
  }

  lemma {:induction false} NothingEnqueued(w: World, run: seq<Action>, w': World)
    requires Reaches(w, run, w') && |w.s.producers| == 0 && w.h.enqueued == []
    ensures w'.h.enqueued == []
    decreases |run|
  {
    if run != [] {
      assert Next(w, run[0]).h.enqueued == [] && |Next(w, run[0]).s.producers| == 0;
      NothingEnqueued(Next(w, run[0]), run[1..], w');
    }
  }

  /** Without producers every counter stays at zero, however many drainers there are. */
  lemma IdleBalances(w: World)
    requires Base(w) && w.s.producers == [] && w.h.enqueued == []
    ensures Balanced(w)
  {
    FatesOf(w);
    SumNonNegative(w.s.drainers, Uncancelled);
  }

  /**
   With room for at least one item, the counters balance in every reachable world if and only if there is no producer at all,
   or at most one producer and at most one drainer.
   */
  lemma AlwaysBalancedIff(limit: nat, producers: nat, drainers: nat)
    requires limit >= 1
    ensures AlwaysBalanced(limit, producers, drainers) <==> producers == 0 || (producers <= 1 && drainers <= 1)
  {
    var w0 := Init(limit, producers, drainers);
    if producers >= 2 {
      var bad := ProducersRace(limit, producers, drainers);
    } else if producers == 1 && drainers >= 2 {
      var bad := DrainersRace(limit, producers, drainers);
    } else {
      forall w | Reachable(w0, w) ensures Balanced(w) {
        var run :| Reaches(w0, run, w);
        if producers == 0 {
          BaseInit(limit, producers, drainers);
          BasePreserved(w0, run, w);
          LimitFixed(w0, run, w);
          NothingEnqueued(w0, run, w);
          IdleBalances(w);
        } else {
          CountersBalance(limit, producers, drainers, run, w);
        }
      }
    }
  }
}
