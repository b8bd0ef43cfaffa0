/**
 The Gmail receiver: fetch, emit, record, label, with a receipt store whose file survives crashes while the process memory
 does not.

 `Step` is the protocol as a transition system. Each input is one answer of the environment (what was listed, what a
 message decodes to, whether the sink, the file write and the label call succeed) or a crash, which may fall anywhere.
 `Connector.PollOnce` is the poll loop over the connector's fields and is shown to be a run of that system.
 */
module Gmail {
  import opened Basics
  import opened Signals
  import Sorting

  /** Message ids enter only through equality and their sort order. */
  type Mid = int
  type Sid = string

  datatype Receipts = Receipts(messages: set<Mid>, signals: set<Sid>)

  const Empty := Receipts({}, {})

  ghost predicate Within(a: Receipts, b: Receipts) {
    a.messages <= b.messages && a.signals <= b.signals
  }

  function Add(r: Receipts, m: Mid, sig: Option<Sid>): Receipts {
    Receipts(r.messages + {m}, r.signals + (if sig.Some? then {sig.value} else {}))
  }

  /** How a call into the environment ends. */
  datatype Answer = Returns | RaisesValueError | RaisesOther

  /** `Malformed` is any `ValueError` before the signal is validated, or a failing envelope. */
  datatype Fetched = Decoded(signal: Signal) | Malformed | FetchFails

  datatype Input =
    | List(receivedAt: int, ids: seq<Mid>)
    | Fetch(fetched: Fetched)
    | Sink(sink: Answer)
    | Write(ok: bool)
    | Label(answer: Answer)
    | Crash

  /** What an observer outside the process sees; `Saved` is the new content of the receipt file. */
  datatype Event =
    | Emitted(mid: Mid, sid: Sid)
    | SinkRaised(sid: Sid)
    | Saved(receipts: Receipts)
    | Crashed
    | Completed(tally: Tally)

  datatype Tally = Tally(examined: nat, accepted: nat, rejected: nat, duplicate: nat)

  /** Where the poll is within the message at the head of its list. */
  datatype Stage =
    | AtFetch
    | AtSink(sid: Sid)
    | AtWrite(sid: Sid)
    | AtLabel
    | AtRejectWrite
    | AtRejectLabel
    | AtDuplicateLabel

  datatype Poll = Idle | Working(receivedAt: int, todo: seq<Mid>, tally: Tally, stage: Stage)

  datatype State = State(file: Receipts, memory: Receipts, poll: Poll, log: seq<Event>)

  /** Whether a receipt path is configured, and how many messages one poll examines. */
  datatype Config = Config(durable: bool, maxInflight: nat)

  const Fresh := State(Empty, Empty, Idle, [])

  function Pending(c: Config, ids: seq<Mid>): seq<Mid> {
    var ordered := Sorting.SortInts(ids);
    if |ordered| <= c.maxInflight then ordered else ordered[..c.maxInflight]
  }

  /** Goes to the next message, or completes the poll. */
  function Next(s: State, receivedAt: int, todo: seq<Mid>, tally: Tally): State {
    if todo == [] then s.(poll := Idle, log := s.log + [Completed(tally)])
    else if todo[0] in s.memory.messages then s.(poll := Working(receivedAt, todo, tally, AtDuplicateLabel))
    else s.(poll := Working(receivedAt, todo, tally, AtFetch))
  }

  /** `record` updates memory, then replaces the file; a failing write ends the poll with memory ahead of the file. */
  function Record(c: Config, s: State, sig: Option<Sid>, ok: bool, after: Stage): State
    requires s.poll.Working? && s.poll.todo != []
  {
    var memory := Add(s.memory, s.poll.todo[0], sig);
    if !c.durable then s.(memory := memory, poll := s.poll.(stage := after))
    else if !ok then s.(memory := memory, poll := Idle)
    else s.(file := memory, memory := memory, poll := s.poll.(stage := after), log := s.log + [Saved(memory)])
  }

  function AfterFetch(s: State, fetched: Fetched): State
    requires s.poll.Working?
  {
    if fetched.FetchFails? then s.(poll := Idle)
    else if fetched.Malformed? then s.(poll := s.poll.(stage := AtRejectWrite))
    else if Validate(fetched.signal, s.poll.receivedAt, EmailUnverified, s.memory.signals).accepted then
      s.(poll := s.poll.(stage := AtSink(fetched.signal.id)))
    else s.(poll := s.poll.(stage := AtRejectWrite))
  }

  function AfterSink(s: State, sink: Answer): State
    requires s.poll.Working? && s.poll.stage.AtSink? && s.poll.todo != []
  {
    var sid := s.poll.stage.sid;
    var called := s.log + [Emitted(s.poll.todo[0], sid)];
    if sink.Returns? then s.(poll := s.poll.(stage := AtWrite(sid)), log := called)
    else if sink.RaisesValueError? then s.(poll := s.poll.(stage := AtRejectWrite), log := called + [SinkRaised(sid)])
    else s.(poll := Idle, log := called + [SinkRaised(sid)])
  }

  function Credit(t: Tally, stage: Stage): Tally {
    if stage.AtLabel? then t.(accepted := t.accepted + 1)
    else if stage.AtRejectLabel? then t.(rejected := t.rejected + 1)
    else t.(duplicate := t.duplicate + 1)
  }

  function AfterLabel(s: State, answer: Answer): State
    requires s.poll.Working? && s.poll.todo != []
  {
    var p := s.poll;
    if !(p.stage.AtLabel? || p.stage.AtRejectLabel? || p.stage.AtDuplicateLabel?) then s
    else if answer.Returns? then Next(s, p.receivedAt, p.todo[1..], Credit(p.tally, p.stage))
    else if answer.RaisesValueError? && p.stage.AtLabel? then s.(poll := p.(stage := AtRejectWrite))
    else s.(poll := Idle)
  }

  /** One answer of the environment; inputs the process is not waiting for change nothing. */
  function Step(c: Config, s: State, x: Input): State {
    if x.Crash? then State(s.file, s.file, Idle, s.log + [Crashed])
    else if s.poll.Idle? then
      if x.List? then
        var pending := Pending(c, x.ids);
        Next(s, x.receivedAt, pending, Tally(|pending|, 0, 0, 0))
      else s
    else if s.poll.todo == [] then s
    else if x.Fetch? && s.poll.stage.AtFetch? then AfterFetch(s, x.fetched)
    else if x.Sink? && s.poll.stage.AtSink? then AfterSink(s, x.sink)
    else if x.Write? && s.poll.stage.AtWrite? then Record(c, s, Some(s.poll.stage.sid), x.ok, AtLabel)
    else if x.Write? && s.poll.stage.AtRejectWrite? then Record(c, s, None, x.ok, AtRejectLabel)
    else if x.Label? then AfterLabel(s, x.answer)
    else s
  }

  function Run(c: Config, s: State, xs: seq<Input>): State {
    if xs == [] then s else Step(c, Run(c, s, xs[..|xs| - 1]), xs[|xs| - 1])
  }

  // ---- The history of one signal, read off the log alone ----

  /** Not delivered, delivered without a receipt in the file yet, or delivered and on file. */
  datatype Status = Unsent | Open | OnFile

  function Advance(st: Status, e: Event, sid: Sid): Status {
    match e
    case Emitted(_, x) => if x == sid then Open else st
    case Saved(f) => if sid in f.signals && st.Open? then OnFile else st
    case SinkRaised(x) => if x == sid && st.Open? then Unsent else st
    case Crashed => if st.Open? then Unsent else st
    case Completed(_) => st
  }

  function StatusOf(log: seq<Event>, sid: Sid): Status {
    if log == [] then Unsent else Advance(StatusOf(log[..|log| - 1], sid), log[|log| - 1], sid)
  }

  function Emissions(log: seq<Event>, sid: Sid): nat {
    if log == [] then 0
    else
      var e := log[|log| - 1];
      Emissions(log[..|log| - 1], sid) + (if e.Emitted? && e.sid == sid then 1 else 0)
  }

  /** Crashes, and exceptions out of the sink, that fell between an emission of `sid` and its receipt reaching the file. */
  function Lapses(log: seq<Event>, sid: Sid): nat {
    if log == [] then 0
    else
      var front := log[..|log| - 1];
      Lapses(front, sid) + (if StatusOf(front, sid).Open? && StatusOf(log, sid).Unsent? then 1 else 0)
  }

  lemma LogAppend(log: seq<Event>, e: Event, sid: Sid)
    ensures StatusOf(log + [e], sid) == Advance(StatusOf(log, sid), e, sid)
    ensures Emissions(log + [e], sid) == Emissions(log, sid) + (if e.Emitted? && e.sid == sid then 1 else 0)
    ensures Lapses(log + [e], sid)
         == Lapses(log, sid) + (if StatusOf(log, sid).Open? && StatusOf(log + [e], sid).Unsent? then 1 else 0)
  {
    assert (log + [e])[..|log|] == log;
  }

  // ---- The invariant ----

  predicate InFlight(p: Poll, sid: Sid) {
    p.Working? && p.stage == AtWrite(sid)
  }

  /** What the process knows about a signal. */
  function Expected(s: State, sid: Sid): Status {
    if sid in s.file.signals then OnFile
    else if sid in s.memory.signals || InFlight(s.poll, sid) then Open
    else Unsent
  }

  ghost predicate TallyAdds(p: Poll) {
    p.Working? ==> p.todo != [] && p.tally.accepted + p.tally.rejected + p.tally.duplicate + |p.todo| == p.tally.examined
  }

  /** A message that may still be emitted has no receipt, and neither has its signal. */
  ghost predicate EmitGuarded(s: State) {
    s.poll.Working? ==>
      && (s.poll.stage.AtFetch? || s.poll.stage.AtSink? ==> s.poll.todo != [] && s.poll.todo[0] !in s.memory.messages)
      && (s.poll.stage.AtSink? || s.poll.stage.AtWrite? ==> s.poll.stage.sid !in s.memory.signals)
  }

  ghost predicate Shape(s: State) {
    Within(s.file, s.memory) && TallyAdds(s.poll) && EmitGuarded(s)
  }

  lemma ShapeStep(c: Config, s: State, x: Input)
    requires Shape(s)
    ensures Shape(Step(c, s, x))
    ensures Within(s.file, Step(c, s, x).file)
  {
    if !x.Crash? && s.poll.Working? && x.Label? {
      var p := s.poll;
      assert |p.todo[1..]| == |p.todo| - 1;
    }
  }

  ghost predicate Counted(log: seq<Event>, sid: Sid) {
    Emissions(log, sid) == Lapses(log, sid) + (if StatusOf(log, sid).Unsent? then 0 else 1)
  }

  /** The history of `sid` agrees with the store, and no emission is unaccounted for. */
  ghost predicate Tracked(s: State, sid: Sid) {
    StatusOf(s.log, sid) == Expected(s, sid) && Counted(s.log, sid)
  }

  lemma {:induction false} CountedAppend(log: seq<Event>, e: Event, sid: Sid)
    requires Counted(log, sid)
    requires e.Emitted? && e.sid == sid ==> StatusOf(log, sid).Unsent?
    ensures Counted(log + [e], sid) && StatusOf(log + [e], sid) == Advance(StatusOf(log, sid), e, sid)
  {
    LogAppend(log, e, sid);
  }

  lemma {:induction false} TrackedSink(s: State, a: Answer, sid: Sid)
    requires Shape(s) && Tracked(s, sid) && s.poll.Working? && s.poll.stage.AtSink?
    ensures Tracked(AfterSink(s, a), sid)
  {
    var called := Emitted(s.poll.todo[0], s.poll.stage.sid);
    CountedAppend(s.log, called, sid);
    CountedAppend(s.log + [called], SinkRaised(s.poll.stage.sid), sid);
  }

  lemma {:induction false} TrackedNext(s: State, sid: Sid, receivedAt: int, todo: seq<Mid>, tally: Tally)
    requires Tracked(s, sid) && !InFlight(s.poll, sid)
    ensures Tracked(Next(s, receivedAt, todo, tally), sid)
  {
    CountedAppend(s.log, Completed(tally), sid);
  }

  /** Recording makes exactly the memory's signals and the one in flight open. */
  lemma RecordExpected(c: Config, s: State, sig: Option<Sid>, ok: bool, after: Stage, sid: Sid)
    requires Within(s.file, s.memory) && s.poll.Working? && s.poll.todo != [] && !after.AtWrite?
    requires if s.poll.stage.AtWrite? then sig == Some(s.poll.stage.sid) else sig == None
    ensures var t, known := Record(c, s, sig, ok, after), Add(s.memory, s.poll.todo[0], sig).signals;
            && (c.durable && ok ==> Expected(t, sid) == if sid in known then OnFile else Unsent)
            && (!(c.durable && ok) ==> Expected(t, sid) == Expected(s, sid))
            && (sid in known <==> Expected(s, sid) != Unsent)
  {
  }

  lemma {:induction false} TrackedRecord(c: Config, s: State, sig: Option<Sid>, ok: bool, after: Stage, sid: Sid)
    requires Shape(s) && Tracked(s, sid) && s.poll.Working? && !after.AtWrite?
    requires if s.poll.stage.AtWrite? then sig == Some(s.poll.stage.sid) else sig == None
    ensures Tracked(Record(c, s, sig, ok, after), sid)
  {
    RecordExpected(c, s, sig, ok, after, sid);
    var saved := Saved(Add(s.memory, s.poll.todo[0], sig));
    CountedAppend(s.log, saved, sid);
    if c.durable && ok {
      assert Record(c, s, sig, ok, after).log == s.log + [saved];
    } else {
      assert Record(c, s, sig, ok, after).log == s.log;
    }
  }

  lemma {:induction false} TrackedLabel(s: State, a: Answer, sid: Sid)
    requires Shape(s) && Tracked(s, sid) && s.poll.Working?
    ensures Tracked(AfterLabel(s, a), sid)
  {
    var p := s.poll;
    if a.Returns? && (p.stage.AtLabel? || p.stage.AtRejectLabel? || p.stage.AtDuplicateLabel?) {
      TrackedNext(s, sid, p.receivedAt, p.todo[1..], Credit(p.tally, p.stage));
    }
  }

  lemma {:induction false} TrackedStep(c: Config, s: State, x: Input, sid: Sid)
    requires Shape(s) && Tracked(s, sid)
    ensures Tracked(Step(c, s, x), sid)
  {
    if x.Crash? {
      CountedAppend(s.log, Crashed, sid);
    } else if s.poll.Idle? {
      if x.List? {
        var pending := Pending(c, x.ids);
        TrackedNext(s, sid, x.receivedAt, pending, Tally(|pending|, 0, 0, 0));
      }
    } else if x.Sink? && s.poll.stage.AtSink? {
      TrackedSink(s, x.sink, sid);
    } else if x.Write? && s.poll.stage.AtWrite? {
      TrackedRecord(c, s, Some(s.poll.stage.sid), x.ok, AtLabel, sid);
    } else if x.Write? && s.poll.stage.AtRejectWrite? {
      TrackedRecord(c, s, None, x.ok, AtRejectLabel, sid);
    } else if x.Label? {
      TrackedLabel(s, x.answer, sid);
    }
  }

  // ---- Whole runs ----

  /** Nothing recorded in the file is emitted later, and every completed poll accounts for what it examined. */
  ghost predicate LogSound(log: seq<Event>) {
    && (forall i, j :: 0 <= i < j < |log| && log[i].Saved? && log[j].Emitted? ==>
          log[j].mid !in log[i].receipts.messages && log[j].sid !in log[i].receipts.signals)
    && (forall i :: 0 <= i < |log| && log[i].Completed? ==> Balanced(log[i].tally))
  }

  ghost predicate Balanced(t: Tally) {
    t.accepted + t.rejected + t.duplicate == t.examined
  }

  ghost predicate SavedWithin(s: State) {
    forall i :: 0 <= i < |s.log| && s.log[i].Saved? ==> Within(s.log[i].receipts, s.file)
  }

  ghost predicate Safe(s: State) {
    Shape(s) && LogSound(s.log) && SavedWithin(s)
  }

  /** An event appended to a sound log keeps it sound when it emits only what the file lacks. */
  lemma {:induction false} SoundAppend(s: State, e: Event, file: Receipts)
    requires LogSound(s.log) && SavedWithin(s) && Within(s.file, file)
    requires e.Emitted? ==> e.mid !in s.file.messages && e.sid !in s.file.signals
    requires e.Saved? ==> Within(e.receipts, file)
    requires e.Completed? ==> Balanced(e.tally)
    ensures LogSound(s.log + [e])
    ensures SavedWithin(State(file, s.memory, s.poll, s.log + [e]))
  {
  }

  lemma {:induction false} SafeStep(c: Config, s: State, x: Input)
    requires Safe(s)
    ensures Safe(Step(c, s, x))
  {
    ShapeStep(c, s, x);
    var t := Step(c, s, x);
    if !x.Crash? && s.poll.Working? && x.Sink? && s.poll.stage.AtSink? {
      var called := Emitted(s.poll.todo[0], s.poll.stage.sid);
      SoundAppend(s, called, s.file);
      SoundAppend(s.(log := s.log + [called]), SinkRaised(s.poll.stage.sid), s.file);
    } else {
      StepAppendsOne(c, s, x);
      if t.log != s.log {
        SoundAppend(s, t.log[|s.log|], t.file);
      }
    }
  }

  /** Outside the sink call a step adds at most one event. */
  lemma {:induction false} StepAppendsOne(c: Config, s: State, x: Input)
    requires Shape(s) && !(x.Sink? && s.poll.Working? && s.poll.stage.AtSink?)
    ensures var t := Step(c, s, x);
            || (t.log == s.log && t.file == s.file)
            || exists e :: t.log == s.log + [e] && !e.Emitted? && (e.Saved? ==> e.receipts == t.file)
                           && (e.Completed? ==> Balanced(e.tally))
  {
  }

  lemma {:induction false} RunSafe(c: Config, xs: seq<Input>)
    ensures Safe(Run(c, Fresh, xs))
  {
    if xs != [] {
      RunSafe(c, xs[..|xs| - 1]);
      SafeStep(c, Run(c, Fresh, xs[..|xs| - 1]), xs[|xs| - 1]);
    }
  }

  lemma {:induction false} RunTracked(c: Config, xs: seq<Input>, sid: Sid)
    ensures Tracked(Run(c, Fresh, xs), sid)
  {
    if xs != [] {
      RunTracked(c, xs[..|xs| - 1], sid);
      RunSafe(c, xs[..|xs| - 1]);
      TrackedStep(c, Run(c, Fresh, xs[..|xs| - 1]), xs[|xs| - 1], sid);
    }
  }

  /**
   In every run with crashes anywhere, no message or signal that a saved file names is emitted later, and every completed
   poll has accepted + rejected + duplicate equal to the messages examined.
   */
  lemma RecordedNeverEmittedAgain(c: Config, xs: seq<Input>)
    ensures LogSound(Run(c, Fresh, xs).log)
  {
    RunSafe(c, xs);
  }

  /**
   A signal is emitted exactly once more than the crashes and sink exceptions that fell between its emission and its
   receipt, or exactly as often as those if its last emission was lost that way.
   */
  lemma EmissionsExactly(c: Config, xs: seq<Input>, sid: Sid)
    ensures var log := Run(c, Fresh, xs).log;
            Emissions(log, sid) == Lapses(log, sid) + (if StatusOf(log, sid).Unsent? then 0 else 1)
  {
    RunTracked(c, xs, sid);
  }

  // ---- Only acceptable signals are emitted ----

  /** The inputs hold a listing and, after it, a message with an acceptable signal `sid`. */
  ghost predicate Warranted(xs: seq<Input>, sid: Sid) {
    exists i, j :: 0 <= i < j < |xs| && Brings(xs[i], xs[j], sid)
  }

  ghost predicate Brings(listing: Input, message: Input, sid: Sid) {
    && listing.List? && message.Fetch? && message.fetched.Decoded?
    && message.fetched.signal.id == sid
    && Acceptable(message.fetched.signal, listing.receivedAt, EmailUnverified)
  }

  ghost predicate ListedAt(xs: seq<Input>, receivedAt: int) {
    exists i :: 0 <= i < |xs| && xs[i].List? && xs[i].receivedAt == receivedAt
  }

  ghost predicate Warranting(xs: seq<Input>, s: State) {
    && (s.poll.Working? ==> ListedAt(xs, s.poll.receivedAt))
    && (s.poll.Working? && s.poll.stage.AtSink? ==> Warranted(xs, s.poll.stage.sid))
    && (forall e :: e in s.log && e.Emitted? ==> Warranted(xs, e.sid))
  }

  lemma WarrantedLonger(xs: seq<Input>, x: Input)
    ensures forall sid :: Warranted(xs, sid) ==> Warranted(xs + [x], sid)
    ensures forall t :: ListedAt(xs, t) ==> ListedAt(xs + [x], t)
  {
    var ys := xs + [x];
    forall sid | Warranted(xs, sid) ensures Warranted(ys, sid) {
      var i, j :| 0 <= i < j < |xs| && Brings(xs[i], xs[j], sid);
      assert Brings(ys[i], ys[j], sid);
    }
    forall t | ListedAt(xs, t) ensures ListedAt(ys, t) {
      var i :| 0 <= i < |xs| && xs[i].List? && xs[i].receivedAt == t;
      assert ys[i] == xs[i];
    }
  }

  lemma WarrantedFetch(xs: seq<Input>, s: State, x: Input)
    requires Warranting(xs, s) && s.poll.Working? && x.Fetch?
    requires AfterFetch(s, x.fetched).poll.Working? && AfterFetch(s, x.fetched).poll.stage.AtSink? && !s.poll.stage.AtSink?
    ensures Warranted(xs + [x], AfterFetch(s, x.fetched).poll.stage.sid)
  {
    var ys := xs + [x];
    AcceptedIff(x.fetched.signal, s.poll.receivedAt, EmailUnverified, s.memory.signals);
    var i :| 0 <= i < |xs| && xs[i].List? && xs[i].receivedAt == s.poll.receivedAt;
    assert ys[i] == xs[i] && ys[|xs|] == x;
    assert Brings(ys[i], ys[|xs|], x.fetched.signal.id);
  }

  lemma {:induction false} WarrantedStep(c: Config, xs: seq<Input>, s: State, x: Input)
    requires Shape(s) && Warranting(xs, s)
    ensures Warranting(xs + [x], Step(c, s, x))
  {
    WarrantedLonger(xs, x);
    assert (xs + [x])[|xs|] == x;
    if x.Fetch? && s.poll.Working? && s.poll.todo != [] && s.poll.stage.AtFetch? {
      if AfterFetch(s, x.fetched).poll.Working? && AfterFetch(s, x.fetched).poll.stage.AtSink? {
        WarrantedFetch(xs, s, x);
      }
    } else if x.Sink? && s.poll.Working? && s.poll.stage.AtSink? {
    } else {
      StepAppendsOne(c, s, x);
    }
  }

  /**
   Whatever crashes and fails, every signal emitted came with a message fetched after a listing, and was acceptable at the
   time of that listing.
   */
  lemma {:induction false} EmittedIsAcceptable(c: Config, xs: seq<Input>)
    ensures forall e :: e in Run(c, Fresh, xs).log && e.Emitted? ==> Warranted(xs, e.sid)
  {
    RunWarrants(c, xs);
  }

  lemma {:induction false} RunWarrants(c: Config, xs: seq<Input>)
    ensures Warranting(xs, Run(c, Fresh, xs))
  {
    if xs != [] {
      var front := xs[..|xs| - 1];
      RunWarrants(c, front);
      RunSafe(c, front);
      WarrantedStep(c, front, Run(c, Fresh, front), xs[|xs| - 1]);
      assert front + [xs[|xs| - 1]] == xs;
    }
  }

  // ---- The poll loop ----

  /** What the environment answers while one message is handled: the second pair serves the rejecting branch. */
  datatype Answers = Answers(fetched: Fetched, sink: Answer, write: bool, acceptLabel: Answer, rejectWrite: bool, rejectLabel: Answer)

  datatype Outcome = Accepted(sid: Sid) | Rejected | Duplicate | Aborted

  datatype PollResult =
    | Disabled
    | Raised
    | Done(tally: Tally, envelopes: seq<Sid>, bounded: bool, cursor: Option<Mid>)

  /** Every call into the environment returns. */
  ghost predicate Calm(a: Answers) {
    && !a.fetched.FetchFails? && a.sink == Returns && a.write && a.acceptLabel == Returns
    && a.rejectWrite && a.rejectLabel == Returns
  }

  /** What was emitted, in order. */
  ghost function Deliveries(log: seq<Event>): seq<(Mid, Sid)> {
    if log == [] then []
    else
      var e := log[|log| - 1];
      if e.Emitted? then Deliveries(log[..|log| - 1]) + [(e.mid, e.sid)] else Deliveries(log[..|log| - 1])
  }

  lemma DeliveriesAppend(log: seq<Event>, e: Event)
    ensures Deliveries(log + [e]) == if e.Emitted? then Deliveries(log) + [(e.mid, e.sid)] else Deliveries(log)
  {
    assert (log + [e])[..|log|] == log;
  }

  /** The signal a message is to be delivered with: it decodes to one that is acceptable and not in the store. */
  ghost predicate Delivers(fetched: Fetched, receivedAt: int, signals: set<Sid>) {
    && fetched.Decoded? && fetched.signal.id !in signals
    && Acceptable(fetched.signal, receivedAt, EmailUnverified)
  }

  /** The signal a message without a receipt is to be delivered with. */
  ghost function Delivery(fetched: Fetched, receivedAt: int, signals: set<Sid>): Option<Sid> {
    if Delivers(fetched, receivedAt, signals) then Some(fetched.signal.id) else None
  }

  type Judge = (Fetched, int, set<Sid>) -> Option<Sid>

  /** `judge` stands for `Delivery` without exposing what is acceptable. */
  ghost predicate IsJudge(judge: Judge) {
    forall fetched, receivedAt, signals {:trigger Delivery(fetched, receivedAt, signals)} ::
      judge(fetched, receivedAt, signals) == Delivery(fetched, receivedAt, signals)
  }

  ghost function Sent(sent: seq<(Mid, Sid)>, m: Mid, delivery: Option<Sid>): seq<(Mid, Sid)> {
    if delivery.Some? then sent + [(m, delivery.value)] else sent
  }

  /** What handling message `m` does when every call returns, `delivery` being its signal. */
  ghost predicate HandledCalmly(m: Mid, delivery: Option<Sid>, before: Receipts, after: Receipts, outcome: Outcome,
                                sent: seq<(Mid, Sid)>, sent': seq<(Mid, Sid)>)
  {
    && after.messages == before.messages + {m}
    && (if m !in before.messages && delivery.Some? then
          && outcome == Accepted(delivery.value)
          && after.signals == before.signals + {delivery.value}
          && sent' == sent + [(m, delivery.value)]
        else
          && outcome == (if m in before.messages then Duplicate else Rejected)
          && after.signals == before.signals
          && sent' == sent)
  }

  ghost predicate AllCalm(env: nat -> Answers, n: nat) {
    forall k: nat :: k < n ==> Calm(env(k))
  }

  /** The envelopes a poll returns. */
  ghost function Collect(envelopes: seq<Sid>, outcome: Outcome): seq<Sid> {
    if outcome.Accepted? then envelopes + [outcome.sid] else envelopes
  }

  /** A property of the messages handled so far, the store, what was emitted and the envelopes. */
  type Tracker = (nat, Receipts, seq<(Mid, Sid)>, seq<Sid>) -> bool

  /** `kept` survives the handling of every message when all calls return. */
  ghost predicate Survives(kept: Tracker, receivedAt: int, pending: seq<Mid>, env: nat -> Answers, judge: Judge) {
    forall k: nat, r, r', sent, sent', envelopes, outcome
      {:trigger kept(k, r, sent, envelopes),
                HandledCalmly(pending[k], judge(env(k).fetched, receivedAt, r.signals), r, r', outcome, sent, sent')} ::
      && k < |pending| && kept(k, r, sent, envelopes)
      && HandledCalmly(pending[k], judge(env(k).fetched, receivedAt, r.signals), r, r', outcome, sent, sent')
      ==> kept(k + 1, r', sent', Collect(envelopes, outcome))
  }

  // ---- Which messages a poll accepts ----

  /** What a poll has to work on: the messages to examine, what the environment answers for each, and the store it starts from. */
  datatype Inbox = Inbox(receivedAt: int, pending: seq<Mid>, env: nat -> Answers, start: Receipts)

  /** The k-th message has no receipt and is not a repetition. */
  ghost predicate IsNew(box: Inbox, k: nat)
    requires k < |box.pending|
  {
    box.pending[k] !in box.start.messages && forall j :: 0 <= j < k ==> box.pending[j] != box.pending[k]
  }

  /** It also decodes to an acceptable signal. */
  ghost predicate IsCandidate(box: Inbox, k: nat)
    requires k < |box.pending|
  {
    && IsNew(box, k)
    && box.env(k).fetched.Decoded?
    && Acceptable(box.env(k).fetched.signal, box.receivedAt, EmailUnverified)
  }

  /** And nothing with that signal was recorded before or comes earlier in the poll. */
  ghost predicate IsFirst(box: Inbox, k: nat)
    requires k < |box.pending|
  {
    && IsCandidate(box, k)
    && box.env(k).fetched.signal.id !in box.start.signals
    && forall j: nat :: j < k && IsCandidate(box, j) ==> box.env(j).fetched.signal.id != box.env(k).fetched.signal.id
  }

  /** The first `n` messages that are to be accepted, with their signals. */
  ghost function FirstSeen(box: Inbox, n: nat): seq<(Mid, Sid)>
    requires n <= |box.pending|
  {
    if n == 0 then []
    else
      var front := FirstSeen(box, n - 1);
      if IsFirst(box, n - 1) then front + [(box.pending[n - 1], box.env(n - 1).fetched.signal.id)] else front
  }

  ghost function SidsOf(pairs: seq<(Mid, Sid)>): (r: seq<Sid>)
    ensures |r| == |pairs|
  {
    seq(|pairs|, i requires 0 <= i < |pairs| => pairs[i].1)
  }

  /** Of the first `n` messages exactly the first-seen acceptable ones were emitted and returned. */
  ghost predicate Sifted(box: Inbox, n: nat, r: Receipts, before: seq<(Mid, Sid)>, sent: seq<(Mid, Sid)>, envelopes: seq<Sid>) {
    && n <= |box.pending|
    && (forall m :: m in r.messages <==> m in box.start.messages || m in box.pending[..n])
    && (forall x :: x in r.signals <==>
          x in box.start.signals || exists j: nat :: j < n && IsCandidate(box, j) && box.env(j).fetched.signal.id == x)
    && sent == before + FirstSeen(box, n)
    && envelopes == SidsOf(FirstSeen(box, n))
  }

  function Stamp(o: Outcome, t: Tally): Tally {
    match o
    case Accepted(_) => t.(accepted := t.accepted + 1)
    case Rejected => t.(rejected := t.rejected + 1)
    case _ => t.(duplicate := t.duplicate + 1)
  }

  lemma RunAppend(c: Config, s: State, xs: seq<Input>, x: Input)
    ensures Run(c, s, xs + [x]) == Step(c, Run(c, s, xs), x)
  {
    assert (xs + [x])[..|xs|] == xs;
  }

  lemma {:induction false} RunConcat(c: Config, s: State, xs: seq<Input>, ys: seq<Input>)
    ensures Run(c, s, xs + ys) == Run(c, Run(c, s, xs), ys)
  {
    if ys == [] {
      assert xs + ys == xs;
    } else {
      var front := ys[..|ys| - 1];
      RunConcat(c, s, xs, front);
      assert xs + ys == xs + front + [ys[|ys| - 1]];
      RunAppend(c, s, xs + front, ys[|ys| - 1]);
    }
  }

  /** `run` stands for `Run(c, ..)` without exposing its steps. */
  ghost predicate IsRun(c: Config, run: (State, seq<Input>) -> State) {
    && (forall s, xs {:trigger Run(c, s, xs)} :: run(s, xs) == Run(c, s, xs))
    && (forall s :: run(s, []) == s)
    && (forall s, xs, ys {:trigger run(run(s, xs), ys)} :: run(s, xs + ys) == run(run(s, xs), ys))
  }

  lemma RunLaws(c: Config, run: (State, seq<Input>) -> State)
    requires forall s, xs :: run(s, xs) == Run(c, s, xs)
    ensures IsRun(c, run)
  {
    forall s, xs, ys ensures run(s, xs + ys) == run(run(s, xs), ys) {
      RunConcat(c, s, xs, ys);
    }
  }

  class Connector {
    const config: Config
    var file: Receipts
    var memory: Receipts
    var cursor: Option<Mid>

    /** A process starting up: memory is what the file holds. */
    constructor (config: Config, file: Receipts)
      ensures this.config == config && this.file == file && memory == file && cursor == None
    {
      this.config := config;
      this.file := file;
      this.memory := file;
      this.cursor := None;
    }

    method Record(m: Mid, sig: Option<Sid>, ok: bool) returns (raised: bool)
      modifies this`memory, this`file
      ensures memory == Add(old(memory), m, sig)
      ensures raised == (config.durable && !ok)
      ensures file == if config.durable && ok then memory else old(file)
    {
      memory := Receipts(memory.messages + {m}, memory.signals);
      if sig.Some? {
        memory := Receipts(memory.messages, memory.signals + {sig.value});
      }
      raised := config.durable && !ok;
      if config.durable && ok {
        file := memory;
      }
    }

    /** The branch taken on a `ValueError`: record the message, then label it rejected. */
    method Reject(m: Mid, answers: Answers, ghost s: State) returns (outcome: Outcome, ghost xs: seq<Input>, ghost t: State)
      requires s.file == file && s.memory == memory
      requires s.poll.Working? && s.poll.todo != [] && s.poll.todo[0] == m && s.poll.stage == AtRejectWrite
      modifies this`memory, this`file
      ensures t.file == file && t.memory == memory
      ensures memory == Add(old(memory), m, None)
      ensures outcome == Aborted || outcome == Rejected
      ensures answers.rejectWrite && answers.rejectLabel == Returns ==> outcome == Rejected
      ensures Deliveries(t.log) == Deliveries(s.log)
      ensures outcome == Aborted ==> Run(config, s, xs) == t && t.poll.Idle?
      ensures outcome == Rejected ==>
                Run(config, s, xs) == Next(t, s.poll.receivedAt, s.poll.todo[1..], Stamp(Rejected, s.poll.tally))
    {
      var write, labelled := Write(answers.rejectWrite), Label(answers.rejectLabel);
      var raised := Record(m, None, answers.rejectWrite);
      DeliveriesAppend(s.log, Saved(memory));
      RunAppend(config, s, [], write);
      xs, t := [write], Step(config, s, write);
      if raised {
        return Aborted, xs, t;
      }
      RunAppend(config, s, xs, labelled);
      xs := xs + [labelled];
      if !answers.rejectLabel.Returns? {
        t := Step(config, t, labelled);
        return Aborted, xs, t;
      }
      return Rejected, xs, t;
    }

    /** The accepting branch after the sink returned: record message and signal, then label the message processed. */
    method Accept(m: Mid, sid: Sid, answers: Answers, ghost s: State)
      returns (r: Answer, ghost xs: seq<Input>, ghost t: State)
      requires s.file == file && s.memory == memory
      requires s.poll.Working? && s.poll.todo != [] && s.poll.todo[0] == m && s.poll.stage == AtWrite(sid)
      modifies this`memory, this`file
      ensures t.file == file && t.memory == memory
      ensures memory == Add(old(memory), m, Some(sid))
      ensures answers.write ==> r == answers.acceptLabel
      ensures Deliveries(t.log) == Deliveries(s.log)
      ensures r.RaisesOther? ==> Run(config, s, xs) == t && t.poll.Idle?
      ensures r.RaisesValueError? ==> Run(config, s, xs) == t && t.poll == s.poll.(stage := AtRejectWrite)
      ensures r.Returns? ==>
                Run(config, s, xs) == Next(t, s.poll.receivedAt, s.poll.todo[1..], Stamp(Accepted(sid), s.poll.tally))
    {
      var write, labelled := Write(answers.write), Label(answers.acceptLabel);
      var raised := Record(m, Some(sid), answers.write);
      DeliveriesAppend(s.log, Saved(memory));
      RunAppend(config, s, [], write);
      xs, t := [write], Step(config, s, write);
      if raised {
        return RaisesOther, xs, t;
      }
      RunAppend(config, s, xs, labelled);
      xs := xs + [labelled];
      if !answers.acceptLabel.Returns? {
        t := Step(config, t, labelled);
      }
      return answers.acceptLabel, xs, t;
    }

    /** Fetching, decoding, validating and emitting: where the body is when the sink has answered or was not called. */
    method Deliver(receivedAt: int, m: Mid, answers: Answers, envelopes: seq<Sid>, ghost judge: Judge, ghost s: State)
      returns (delivered: Option<Sid>, failed: bool, ghost xs: seq<Input>, ghost t: State)
      requires s.file == file && s.memory == memory
      requires s.poll.Working? && s.poll.todo != [] && s.poll.todo[0] == m && s.poll.receivedAt == receivedAt
      requires s.poll.stage == AtFetch
      requires forall e :: e in envelopes ==> e in memory.signals
      requires IsJudge(judge)
      ensures Run(config, s, xs) == t && t.file == file && t.memory == memory
      ensures failed ==> t.poll.Idle?
      ensures !failed ==>
                t.poll == s.poll.(stage := if delivered.Some? then AtWrite(delivered.value) else AtRejectWrite)
      ensures delivered.Some? ==> delivered.value !in memory.signals
      ensures !answers.fetched.FetchFails? && answers.sink == Returns ==>
                !failed && delivered == judge(answers.fetched, receivedAt, memory.signals)
      ensures Deliveries(t.log) == Sent(Deliveries(s.log), m, judge(answers.fetched, receivedAt, memory.signals))
    {
      ghost var delivery := Delivery(answers.fetched, receivedAt, memory.signals);
      xs, t := [Fetch(answers.fetched)], Step(config, s, Fetch(answers.fetched));
      RunAppend(config, s, [], Fetch(answers.fetched));
      if answers.fetched.FetchFails? {
        return None, true, xs, t;
      }
      if answers.fetched.Malformed? {
        return None, false, xs, t;
      }
      var signal := answers.fetched.signal;
      var seen := set e | e in envelopes;
      if signal.id in memory.signals {
        seen := seen + {signal.id};
      }
      assert signal.id in seen <==> signal.id in memory.signals;
      var verdict := Validate(signal, receivedAt, EmailUnverified, seen);
      AcceptedIff(signal, receivedAt, EmailUnverified, seen);
      if !verdict.accepted {
        return None, false, xs, t;
      }
      RunAppend(config, s, xs, Sink(answers.sink));
      DeliveriesAppend(s.log, Emitted(m, signal.id));
      DeliveriesAppend(s.log + [Emitted(m, signal.id)], SinkRaised(signal.id));
      xs, t := xs + [Sink(answers.sink)], Step(config, t, Sink(answers.sink));
      return if answers.sink.Returns? then Some(signal.id) else None, answers.sink.RaisesOther?, xs, t;
    }

    /**
     One pass of the loop body for a message without a receipt. `s` is the transition system before it, `t` the system
     when the body is left, `xs` the inputs in between.
     */
    method HandleNew(receivedAt: int, m: Mid, answers: Answers, envelopes: seq<Sid>, ghost judge: Judge, ghost s: State,
                     ghost run: (State, seq<Input>) -> State)
      returns (outcome: Outcome, ghost xs: seq<Input>, ghost t: State)
      requires IsRun(config, run)
      requires s.file == file && s.memory == memory
      requires s.poll.Working? && s.poll.todo != [] && s.poll.todo[0] == m && s.poll.receivedAt == receivedAt
      requires s.poll.stage == AtFetch && m !in memory.messages
      requires forall e :: e in envelopes ==> e in memory.signals
      requires IsJudge(judge)
      modifies this`memory, this`file
      ensures t.file == file && t.memory == memory
      ensures outcome.Aborted? ==> run(s, xs) == t && t.poll.Idle?
      ensures !outcome.Aborted? ==>
                run(s, xs) == Next(t, receivedAt, s.poll.todo[1..], Stamp(outcome, s.poll.tally))
      ensures !outcome.Duplicate?
      ensures !outcome.Aborted? ==> memory.messages == old(memory.messages) + {m}
      ensures old(memory.signals) <= memory.signals
      ensures outcome.Accepted? ==> outcome.sid in memory.signals && outcome.sid !in old(memory.signals)
      ensures Calm(answers) ==>
                HandledCalmly(m, judge(answers.fetched, receivedAt, old(memory.signals)), old(memory), memory, outcome,
                              Deliveries(s.log), Deliveries(t.log))
    {
      var delivered, failed;
      delivered, failed, xs, t := Deliver(receivedAt, m, answers, envelopes, judge, s);
      if failed {
        return Aborted, xs, t;
      }
      ghost var ys;
      if delivered.Some? {
        var r;
        r, ys, t := Accept(m, delivered.value, answers, t);
        assert run(run(s, xs), ys) == run(s, xs + ys);
        xs := xs + ys;
        if r.Returns? {
          return Accepted(delivered.value), xs, t;
        }
        if r.RaisesOther? {
          return Aborted, xs, t;
        }
      }
      outcome, ys, t := Reject(m, answers, t);
      assert memory.signals == old(memory.signals) || delivered.Some?;
      assert run(run(s, xs), ys) == run(s, xs + ys);
      xs := xs + ys;
    }

    /** One pass of the loop body; a message with a receipt is only relabelled. */
    method Handle(receivedAt: int, m: Mid, answers: Answers, envelopes: seq<Sid>, ghost judge: Judge, ghost s: State,
                  ghost run: (State, seq<Input>) -> State)
      returns (outcome: Outcome, ghost xs: seq<Input>, ghost t: State)
      requires IsRun(config, run)
      requires s.file == file && s.memory == memory
      requires s.poll.Working? && s.poll.todo != [] && s.poll.todo[0] == m && s.poll.receivedAt == receivedAt
      requires s.poll.stage == if m in memory.messages then AtDuplicateLabel else AtFetch
      requires forall e :: e in envelopes ==> e in memory.signals
      requires IsJudge(judge)
      modifies this`memory, this`file
      ensures t.file == file && t.memory == memory
      ensures outcome.Aborted? ==> run(s, xs) == t && t.poll.Idle?
      ensures !outcome.Aborted? ==>
                run(s, xs) == Next(t, receivedAt, s.poll.todo[1..], Stamp(outcome, s.poll.tally))
      ensures !outcome.Aborted? ==> (outcome.Duplicate? <==> m in old(memory.messages))
      ensures !outcome.Aborted? ==> memory.messages == old(memory.messages) + {m}
      ensures old(memory.signals) <= memory.signals
      ensures outcome.Accepted? ==> outcome.sid in memory.signals && outcome.sid !in old(memory.signals)
      ensures Calm(answers) ==>
                HandledCalmly(m, judge(answers.fetched, receivedAt, old(memory.signals)), old(memory), memory, outcome,
                              Deliveries(s.log), Deliveries(t.log))
    {
      if m in memory.messages {
        xs, t := [Label(answers.acceptLabel)], s;
        RunAppend(config, s, [], Label(answers.acceptLabel));
        if !answers.acceptLabel.Returns? {
          t := Step(config, s, Label(answers.acceptLabel));
          return Aborted, xs, t;
        }
        return Duplicate, xs, t;
      }
      outcome, xs, t := HandleNew(receivedAt, m, answers, envelopes, judge, s, run);
    }

    /** One iteration of the loop with its counters and the cursor, `handled` being the messages before it. */
    method PollStep(receivedAt: int, todo: seq<Mid>, answers: Answers, tally: Tally, envelopes: seq<Sid>,
                    ghost handled: seq<Mid>, ghost start: Receipts, ghost was: Option<Mid>, ghost judge: Judge, ghost s: State,
                    ghost run: (State, seq<Input>) -> State)
      returns (aborted: bool, tally': Tally, envelopes': seq<Sid>, ghost outcome: Outcome, ghost xs: seq<Input>, ghost t: State)
      requires IsRun(config, run) && IsJudge(judge)
      requires s.file == file && s.memory == memory && todo != [] && AtMost(handled, todo[0])
      requires Progress(handled, start, memory, tally, envelopes)
      requires CursorMoves(was, cursor, start, memory)
      modifies this
      ensures t.file == file && t.memory == memory
      ensures aborted ==> run(Next(s, receivedAt, todo, tally), xs) == t && t.poll.Idle?
      ensures !aborted ==> run(Next(s, receivedAt, todo, tally), xs) == Next(t, receivedAt, todo[1..], tally')
      ensures !aborted ==> Progress(handled + [todo[0]], start, memory, tally', envelopes')
      ensures !aborted ==> CursorMoves(was, cursor, start, memory)
      ensures envelopes' == Collect(envelopes, outcome)
      ensures Calm(answers) ==>
                && !aborted
                && HandledCalmly(todo[0], judge(answers.fetched, receivedAt, old(memory.signals)), old(memory), memory, outcome,
                                 Deliveries(s.log), Deliveries(t.log))
    {
      ghost var before := memory;
      var m := todo[0];
      var result;
      result, xs, t := Handle(receivedAt, m, answers, envelopes, judge, Next(s, receivedAt, todo, tally), run);
      outcome := result;
      aborted, tally', envelopes' := result.Aborted?, tally, envelopes;
      if !aborted {
        ProgressStep(handled, m, start, before, memory, tally, envelopes, outcome);
        CursorStep(handled, m, start, before, memory, was, cursor);
        tally' := Stamp(result, tally);
        if result.Accepted? {
          envelopes' := envelopes + [result.sid];
        }
        if !result.Duplicate? {
          cursor := Some(m);
        }
      }
    }

    /** The loop over the messages to examine, from the transition system `s` that has just listed them. */
    method PollLoop(receivedAt: int, pending: seq<Mid>, env: nat -> Answers, ghost judge: Judge, ghost kept: Tracker, ghost s: State,
                    ghost run: (State, seq<Input>) -> State)
      returns (aborted: bool, tally: Tally, envelopes: seq<Sid>, ghost xs: seq<Input>)
      requires IsRun(config, run) && IsJudge(judge)
      requires Survives(kept, receivedAt, pending, env, judge)
      requires s.file == file && s.memory == memory
      requires kept(0, memory, Deliveries(s.log), [])
      requires forall k :: 0 <= k < |pending| ==> AtMost(pending[..k], pending[k])
      modifies this
      ensures var t := run(Next(s, receivedAt, pending, Tally(|pending|, 0, 0, 0)), xs);
              t.file == file && t.memory == memory && t.poll.Idle?
      ensures !aborted ==> Progress(pending, old(memory), memory, tally, envelopes)
      ensures !aborted ==> CursorMoves(old(cursor), cursor, old(memory), memory)
      ensures AllCalm(env, |pending|) ==>
                && !aborted
                && kept(|pending|, memory, Deliveries(run(Next(s, receivedAt, pending, Tally(|pending|, 0, 0, 0)), xs).log), envelopes)
    {
      aborted, tally, envelopes, xs := false, Tally(|pending|, 0, 0, 0), [], [];
      ghost var listed, t := Next(s, receivedAt, pending, tally), s;
      assert pending[0..] == pending;
      for k := 0 to |pending|
        invariant t.file == file && t.memory == memory && !aborted
        invariant run(listed, xs) == Next(t, receivedAt, pending[k..], tally)
        invariant Progress(pending[..k], old(memory), memory, tally, envelopes)
        invariant CursorMoves(old(cursor), cursor, old(memory), memory)
        invariant AllCalm(env, |pending|) ==> kept(k, memory, Deliveries(t.log), envelopes)
      {
        SliceNext(pending, k);
        ghost var ys, outcome;
        aborted, tally, envelopes, outcome, ys, t := PollStep(receivedAt, pending[k..], env(k), tally, envelopes, pending[..k],
                                                              old(memory), old(cursor), judge, t, run);
        assert run(run(listed, xs), ys) == run(listed, xs + ys);
        xs := xs + ys;
        if aborted {
          return;
        }
      }
      assert pending[|pending|..] == [] && pending[..|pending|] == pending;
      DeliveriesAppend(t.log, Completed(tally));
      assert run(listed, xs) == Next(t, receivedAt, [], tally);
    }

    /**
     `poll_once`, with `env(k)` the answers for the k-th message examined. It is a run of the transition system; when it
     completes, every examined message has a receipt, each message new to the store was either accepted or rejected, and
     nothing else was.
     */
    method PollOnce(enabled: bool, receivedAt: int, ids: seq<Mid>, env: nat -> Answers, ghost log: seq<Event>)
      returns (r: PollResult, ghost xs: seq<Input>)
      modifies this
      ensures r.Disabled? <==> !enabled
      ensures var t := Run(config, State(old(file), old(memory), Idle, log), xs);
              t.file == file && t.memory == memory && t.poll.Idle?
      ensures r.Done? ==> r.cursor == cursor && r.bounded == (|ids| > config.maxInflight)
      ensures r.Done? ==> Progress(Pending(config, ids), old(memory), memory, r.tally, r.envelopes)
      ensures r.Done? ==> CursorMoves(old(cursor), cursor, old(memory), memory)
      ensures r.Done? ==>
                (r.tally.accepted + r.tally.rejected > 0 <==>
                 exists m :: m in Pending(config, ids) && m !in old(memory.messages))
      ensures enabled && AllCalm(env, |Pending(config, ids)|) ==>
                && r.Done?
                && Sifted(Inbox(receivedAt, Pending(config, ids), env, old(memory)), |Pending(config, ids)|, memory, Deliveries(log),
                          Deliveries(Run(config, State(old(file), old(memory), Idle, log), xs).log), r.envelopes)
    {
      xs := [];
      if !enabled {
        return Disabled, xs;
      }
      var pending := Pending(config, ids);
      PendingSorted(config, ids);
      ghost var s := State(file, memory, Idle, log);
      var aborted, tally, envelopes;
      ghost var run := (s: State, xs: seq<Input>) => Run(config, s, xs);
      RunLaws(config, run);
      ghost var box := Inbox(receivedAt, pending, env, memory);
      ghost var judge := (fetched: Fetched, at: int, signals: set<Sid>) => Delivery(fetched, at, signals);
      ghost var kept := SiftedSurvives(box, Deliveries(log), judge);
      ghost var ys;
      aborted, tally, envelopes, ys := PollLoop(receivedAt, pending, env, judge, kept, s, run);
      RunAppend(config, s, [], List(receivedAt, ids));
      RunConcat(config, s, [List(receivedAt, ids)], ys);
      xs := [List(receivedAt, ids)] + ys;
      if !aborted {
        PollGainsIff(pending, s.memory, memory, tally, envelopes);
      }
      r := if aborted then Raised else Done(tally, envelopes, |ids| > config.maxInflight, cursor);
    }
  }

  /**
   Having handled `handled`, starting from receipts `start`: every one of them has a receipt, the accepted and rejected
   together are the messages that had none, and each envelope carries its own signal, new to the store.
   */
  ghost predicate Progress(handled: seq<Mid>, start: Receipts, now: Receipts, t: Tally, envelopes: seq<Sid>) {
    && now.messages == start.messages + Members(handled)
    && t.accepted + t.rejected == |now.messages - start.messages|
    && t.accepted + t.rejected + t.duplicate == |handled|
    && |envelopes| == t.accepted
    && Distinct(envelopes)
    && (forall e :: e in envelopes ==> e in now.signals && e !in start.signals)
    && start.signals <= now.signals
  }

  lemma SiftedSurvives(box: Inbox, before: seq<(Mid, Sid)>, judge: Judge) returns (kept: Tracker)
    requires judge == ((fetched, at, signals) => Delivery(fetched, at, signals))
    ensures kept == ((n, r, sent, envelopes) => Sifted(box, n, r, before, sent, envelopes))
    ensures kept(0, box.start, before, [])
    ensures Survives(kept, box.receivedAt, box.pending, box.env, judge)
  {
    kept := (n: nat, r: Receipts, sent: seq<(Mid, Sid)>, envelopes: seq<Sid>) => Sifted(box, n, r, before, sent, envelopes);
    forall k: nat, r, r', sent, sent', envelopes, outcome
      | && k < |box.pending| && kept(k, r, sent, envelopes)
        && HandledCalmly(box.pending[k], judge(box.env(k).fetched, box.receivedAt, r.signals), r, r', outcome, sent, sent')
      ensures kept(k + 1, r', sent', Collect(envelopes, outcome))
    {
      SiftedStep(box, k, r, r', before, sent, sent', envelopes, outcome);
    }
  }

  lemma NewIff(box: Inbox, k: nat, r: Receipts)
    requires k < |box.pending|
    requires forall m :: m in r.messages <==> m in box.start.messages || m in box.pending[..k]
    ensures IsNew(box, k) <==> box.pending[k] !in r.messages
  {
    var m, front := box.pending[k], box.pending[..k];
    assert m in r.messages <==> m in box.start.messages || m in front;
    assert forall j :: 0 <= j < k ==> front[j] == box.pending[j];
  }

  lemma FirstIff(box: Inbox, k: nat, r: Receipts)
    requires k < |box.pending|
    requires forall m :: m in r.messages <==> m in box.start.messages || m in box.pending[..k]
    requires forall x :: x in r.signals <==>
                         x in box.start.signals || exists j: nat :: j < k && IsCandidate(box, j) && box.env(j).fetched.signal.id == x
    ensures IsFirst(box, k) <==>
            box.pending[k] !in r.messages && Delivers(box.env(k).fetched, box.receivedAt, r.signals)
  {
    NewIff(box, k, r);
  }

  lemma {:induction false} SiftedStep(box: Inbox, k: nat, r: Receipts, r': Receipts, before: seq<(Mid, Sid)>,
                                      sent: seq<(Mid, Sid)>, sent': seq<(Mid, Sid)>, envelopes: seq<Sid>, outcome: Outcome)
    requires k < |box.pending| && Sifted(box, k, r, before, sent, envelopes)
    requires HandledCalmly(box.pending[k], Delivery(box.env(k).fetched, box.receivedAt, r.signals), r, r', outcome, sent, sent')
    ensures Sifted(box, k + 1, r', before, sent', Collect(envelopes, outcome))
  {
    NewIff(box, k, r);
    FirstIff(box, k, r);
    assert box.pending[..k + 1] == box.pending[..k] + [box.pending[k]];
  }

  /** The cursor stays, or is the largest message id that gained a receipt. */
  ghost predicate CursorMoves(was: Option<Mid>, cursor: Option<Mid>, start: Receipts, now: Receipts) {
    if now.messages <= start.messages then cursor == was
    else cursor.Some? && cursor.value in now.messages - start.messages
         && forall m :: m in now.messages - start.messages ==> m <= cursor.value
  }

  lemma ProgressStep(handled: seq<Mid>, m: Mid, start: Receipts, before: Receipts, now: Receipts, t: Tally,
                     envelopes: seq<Sid>, outcome: Outcome)
    requires Progress(handled, start, before, t, envelopes)
    requires !outcome.Aborted? && (outcome.Duplicate? <==> m in before.messages)
    requires now.messages == before.messages + {m} && before.signals <= now.signals
    requires outcome.Accepted? ==> outcome.sid in now.signals && outcome.sid !in before.signals
    ensures Progress(handled + [m], start, now, Stamp(outcome, t),
                     if outcome.Accepted? then envelopes + [outcome.sid] else envelopes)
  {
    MembersAppend(handled, m);
    var gained := before.messages - start.messages;
    if outcome.Duplicate? {
      assert now.messages == before.messages;
    } else {
      assert now.messages - start.messages == gained + {m};
    }
  }

  lemma CursorStep(handled: seq<Mid>, m: Mid, start: Receipts, before: Receipts, now: Receipts, was: Option<Mid>,
                   cursor: Option<Mid>)
    requires before.messages == start.messages + Members(handled) && now.messages == before.messages + {m}
    requires AtMost(handled, m)
    requires CursorMoves(was, cursor, start, before)
    ensures CursorMoves(was, if m in before.messages then cursor else Some(m), start, now)
  {
    if m in before.messages {
      assert now.messages == before.messages;
    }
  }

  ghost predicate AtMost(s: seq<Mid>, m: Mid) {
    forall k :: 0 <= k < |s| ==> s[k] <= m
  }

  lemma SliceNext(s: seq<Mid>, k: nat)
    requires k < |s|
    ensures s[..k + 1] == s[..k] + [s[k]] && s[k..][0] == s[k] && s[k..][1..] == s[k + 1..]
  {
  }

  ghost function Members(s: seq<Mid>): set<Mid> {
    set m | m in s
  }

  ghost predicate Distinct<T>(s: seq<T>) {
    forall i, j :: 0 <= i < j < |s| ==> s[i] != s[j]
  }

  lemma MembersAppend(s: seq<Mid>, m: Mid)
    ensures Members(s + [m]) == Members(s) + {m}
  {
  }

  /** The messages examined come in order. */
  lemma PendingSorted(c: Config, ids: seq<Mid>)
    ensures var pending := Pending(c, ids); forall k :: 0 <= k < |pending| ==> AtMost(pending[..k], pending[k])
  {
    Sorting.SortIntsSorted(ids);
  }

  /** They are as many of the listed ids as the allowance permits, and none left out is smaller. */
  lemma PendingSmallest(c: Config, ids: seq<Mid>, m: Mid)
    ensures var pending := Pending(c, ids);
            && |pending| == (if c.maxInflight < |ids| then c.maxInflight else |ids|)
            && multiset(pending)[m] <= multiset(ids)[m]
            && (multiset(pending)[m] < multiset(ids)[m] ==> AtMost(pending, m))
  {
    var ordered, pending := Sorting.SortInts(ids), Pending(c, ids);
    var rest := ordered[|pending|..];
    assert ordered == pending + rest;
    if m in rest {
      var j :| 0 <= j < |rest| && rest[j] == m;
      Sorting.SortIntsSorted(ids);
      assert ordered[|pending| + j] == m;
    }
  }

  /** Only completions and crashes were logged between `before` and `after`. */
  ghost predicate Quiet(before: seq<Event>, after: seq<Event>) {
    && |before| <= |after| && after[..|before|] == before
    && forall i :: |before| <= i < |after| ==> after[i].Completed? || after[i].Crashed?
  }

  /** Since `s` only messages with receipts have been met. */
  ghost predicate Coasting(s: State, t: State) {
    && t.file == s.file && t.memory == s.memory && Quiet(s.log, t.log)
    && (t.poll.Working? ==> t.poll.stage == AtDuplicateLabel && Members(t.poll.todo) <= s.memory.messages)
  }

  lemma NextCoasts(s: State, t: State, receivedAt: int, todo: seq<Mid>, tally: Tally)
    requires t.file == s.file && t.memory == s.memory && Quiet(s.log, t.log) && Members(todo) <= s.memory.messages
    ensures Coasting(s, Next(t, receivedAt, todo, tally))
  {
    if todo != [] {
      assert todo[0] in Members(todo);
    } else {
      QuietAppend(s.log, t.log, Completed(tally));
    }
  }

  lemma QuietAppend(before: seq<Event>, after: seq<Event>, e: Event)
    requires Quiet(before, after) && (e.Completed? || e.Crashed?)
    ensures Quiet(before, after + [e])
  {
  }

  /** An input that brings no message without a receipt into a poll. */
  ghost predicate Stale(c: Config, s: State, x: Input) {
    && (x.List? ==> Members(Pending(c, x.ids)) <= s.memory.messages)
    && (x.Crash? ==> s.file == s.memory)
  }

  lemma CoastingStep(c: Config, s: State, t: State, x: Input)
    requires Coasting(s, t) && Stale(c, s, x)
    ensures Coasting(s, Step(c, t, x))
  {
    if x.Crash? {
      QuietAppend(s.log, t.log, Crashed);
    } else if t.poll.Idle? {
      if x.List? {
        var pending := Pending(c, x.ids);
        NextCoasts(s, t, x.receivedAt, pending, Tally(|pending|, 0, 0, 0));
      }
    } else if t.poll.todo != [] && x.Label? && x.answer.Returns? {
      var p := t.poll;
      assert Members(p.todo[1..]) <= Members(p.todo);
      NextCoasts(s, t, p.receivedAt, p.todo[1..], Credit(p.tally, p.stage));
    }
  }

  /**
   Messages that already have a receipt still take up the poll's allowance: as long as the first `maxInflight` ids of every
   listing are all recorded, any number of polls, whatever the environment answers and even across crashes, emits nothing and
   changes no receipt. A new message with a larger id waits for ever.
   */
  lemma {:induction false} AllowanceExhausted(c: Config, s: State, xs: seq<Input>)
    requires s.poll.Idle? && forall i :: 0 <= i < |xs| ==> Stale(c, s, xs[i])
    ensures Coasting(s, Run(c, s, xs))
  {
    if xs != [] {
      var n := |xs| - 1;
      var front := xs[..n];
      assert forall i :: 0 <= i < n ==> front[i] == xs[i];
      AllowanceExhausted(c, s, front);
      CoastingStep(c, s, Run(c, s, front), xs[n]);
    }
  }

  /** A completed poll accepts or rejects something if and only if some id it examined had no receipt. */
  lemma PollGainsIff(handled: seq<Mid>, start: Receipts, now: Receipts, t: Tally, envelopes: seq<Sid>)
    requires Progress(handled, start, now, t, envelopes)
    ensures t.accepted + t.rejected > 0 <==> exists m :: m in handled && m !in start.messages
  {
    var gained := now.messages - start.messages;
    if m :| m in handled && m !in start.messages {
      assert m in Members(handled) && m in gained;
    } else {
      assert forall m :: m in Members(handled) ==> m in start.messages;
      assert now.messages == start.messages;
      assert gained == {};
    }
  }
}
