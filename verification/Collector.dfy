/**
 The streaming source collector: sequence and lateness checks against a per-source cursor, an event-time watermark, a
 bounded ring buffer per source, and a durable cursor store that a restart reloads. Times and lateness bounds are in one
 integer unit; the measurement registry's verdict is an input.
 */
module Collector {
  import opened Basics

  datatype Health = Healthy | Degraded | Stale | Failed

  datatype Observation = Observation(source: string, replayed: bool, boot: string, epoch: nat, sequence: nat, observedAt: int,
                                     captureAgeMs: real, implausible: bool)

  /** The measurement registry's report. */
  datatype Report = Report(valid: bool, flagged: bool, reasons: set<string>)

  /** In-memory source health; cursors are always complete once a source is known. */
  datatype Cursor = Cursor(state: Health, boot: string, epoch: nat, lastSequence: nat, lastObserved: int, watermark: int,
                           reasons: set<string>)

  /** The stored cursor: the table has no watermark column. */
  datatype Row = Row(state: Health, boot: string, epoch: nat, lastSequence: nat, lastObserved: int, reasons: set<string>)

  function Persist(c: Cursor): Row {
    Row(c.state, c.boot, c.epoch, c.lastSequence, c.lastObserved, c.reasons)
  }

  /** `load_all`: the watermark is reset to the last observed time. */
  function Load(r: Row): Cursor {
    Cursor(r.state, r.boot, r.epoch, r.lastSequence, r.lastObserved, r.lastObserved, r.reasons)
  }

  // ---- Ring buffer ----

  datatype Ring = Ring(items: seq<Observation>, dropped: nat)

  function Append(r: Ring, capacity: nat, o: Observation): Ring
    requires capacity > 0
  {
    if |r.items| == capacity then Ring(r.items[1..] + [o], r.dropped + 1) else Ring(r.items + [o], r.dropped)
  }

  /** The buffer holds the latest `capacity` of the `appended` observations and counts the others. */
  ghost predicate Holds(r: Ring, capacity: nat, appended: seq<Observation>) {
    && r.dropped <= |appended|
    && r.items == appended[r.dropped..]
    && |r.items| <= capacity
    && (r.dropped > 0 ==> |r.items| == capacity)
  }

  lemma AppendHolds(r: Ring, capacity: nat, appended: seq<Observation>, o: Observation)
    requires capacity > 0 && Holds(r, capacity, appended)
    ensures Holds(Append(r, capacity, o), capacity, appended + [o])
  {
  }

  // ---- Ingest ----

  datatype View = View(health: map<string, Cursor>, store: map<string, Row>, buffers: map<string, Ring>, bounds: map<string, int>)

  datatype Outcome = Accepted | Replayed | MeasurementRejected | SequenceRejected | TooLate | Implausible | BadCapacity

  predicate SameEpoch(c: Cursor, o: Observation) {
    c.boot == o.boot && c.epoch == o.epoch
  }

  function Bound(v: View, source: string): int {
    if source in v.bounds then v.bounds[source] else 0
  }

  predicate IsTooLate(v: View, o: Observation) {
    o.source in v.health && o.observedAt < v.health[o.source].lastObserved &&
    v.health[o.source].lastObserved - o.observedAt > Bound(v, o.source)
  }

  function IngestOutcome(capacity: int, v: View, o: Observation, m: Report): Outcome {
    if o.replayed then Replayed
    else if !m.valid then MeasurementRejected
    else if o.source in v.health && SameEpoch(v.health[o.source], o) && o.sequence <= v.health[o.source].lastSequence then SequenceRejected
    else if IsTooLate(v, o) then TooLate
    else if o.implausible then Implausible
    else if capacity <= 0 then BadCapacity
    else Accepted
  }

  function RingOf(v: View, source: string): Ring {
    if source in v.buffers then v.buffers[source] else Ring([], 0)
  }

  function CursorReasons(v: View, o: Observation): set<string> {
    if o.source !in v.health then {}
    else
      var c := v.health[o.source];
      (if o.observedAt < c.lastObserved then {"late_event"} else {}) +
      (if SameEpoch(c, o) && o.sequence > c.lastSequence + 1 then {"sequence_gap"} else {}) +
      (if !SameEpoch(c, o) then {"source_epoch_transition"} else {})
  }

  predicate WasDown(v: View, source: string) {
    source in v.health && (v.health[source].state == Stale || v.health[source].state == Failed)
  }

  function NewReasons(v: View, o: Observation, m: Report, ring: Ring): set<string> {
    m.reasons + CursorReasons(v, o) +
    (if o.captureAgeMs > 5000.0 then {"stale_capture"} else if WasDown(v, o.source) then {"source_recovered"} else {}) +
    (if ring.dropped > 0 then {"ring_buffer_overwrite"} else {})
  }

  function NewState(v: View, o: Observation, m: Report, ring: Ring): Health {
    var judged :=
      if o.captureAgeMs > 5000.0 then Stale
      else if WasDown(v, o.source) then Healthy
      else if m.flagged || (CursorReasons(v, o) - {"source_epoch_transition"}) != {} then Degraded
      else Healthy;
    if ring.dropped > 0 && judged == Healthy then Degraded else judged
  }

  function NewWatermark(v: View, o: Observation): int {
    if o.source in v.health && o.observedAt < v.health[o.source].watermark then v.health[o.source].watermark
    else o.observedAt
  }

  function AcceptedView(capacity: int, v: View, o: Observation, m: Report): View
    requires capacity > 0
  {
    var ring := Append(RingOf(v, o.source), capacity, o);
    var c := Cursor(NewState(v, o, m, ring), o.boot, o.epoch, o.sequence, o.observedAt, NewWatermark(v, o),
                    NewReasons(v, o, m, ring));
    View(v.health[o.source := c], v.store[o.source := Persist(c)], v.buffers[o.source := ring], v.bounds)
  }

  function IngestView(capacity: int, v: View, o: Observation, m: Report): View {
    match IngestOutcome(capacity, v, o, m)
    case Accepted => AcceptedView(capacity, v, o, m)
    case TooLate =>
      var c := v.health[o.source];
      var rejected := c.(state := Degraded, reasons := c.reasons + {"late_event_exceeded"});
      v.(health := v.health[o.source := rejected], store := v.store[o.source := Persist(rejected)])
    case _ => v
  }

  // ---- Ingest, spelled out ----

  /** The source is new, or the event is later in its epoch or of another one. */
  ghost predicate Advances(v: View, o: Observation) {
    o.source in v.health ==>
      var c := v.health[o.source];
      c.boot == o.boot && c.epoch == o.epoch ==> c.lastSequence < o.sequence
  }

  /** The source is new, or the event is not older than the last one by more than the configured bound (none means 0). */
  ghost predicate Timely(v: View, o: Observation) {
    o.source in v.health ==>
      var last := v.health[o.source].lastObserved;
      last <= o.observedAt || last - o.observedAt <= if o.source in v.bounds then v.bounds[o.source] else 0
  }

  ghost predicate Late(v: View, o: Observation) {
    o.source in v.health && o.observedAt < v.health[o.source].lastObserved
  }

  ghost predicate Gap(v: View, o: Observation) {
    && o.source in v.health
    && v.health[o.source].boot == o.boot && v.health[o.source].epoch == o.epoch
    && v.health[o.source].lastSequence + 1 < o.sequence
  }

  ghost predicate Transition(v: View, o: Observation) {
    o.source in v.health && (v.health[o.source].boot != o.boot || v.health[o.source].epoch != o.epoch)
  }

  ghost predicate Recovering(v: View, o: Observation) {
    o.source in v.health && (v.health[o.source].state == Stale || v.health[o.source].state == Failed)
  }

  /** Each refusal comes from the first check that fails; what passes them all is accepted. */
  lemma OutcomeMeans(capacity: int, v: View, o: Observation, m: Report)
    ensures IngestOutcome(capacity, v, o, m) ==
            if o.replayed then Replayed
            else if !m.valid then MeasurementRejected
            else if !Advances(v, o) then SequenceRejected
            else if !Timely(v, o) then TooLate
            else if o.implausible then Implausible
            else if capacity < 1 then BadCapacity
            else Accepted
  {
  }

  /** What accepting an event changes: the cursor of its source and its stored row, and the newest item of its buffer. */
  ghost predicate TakesIn(capacity: int, v: View, o: Observation, m: Report, w: View) {
    && 1 <= capacity
    && o.source in w.health && o.source in w.store && o.source in w.buffers
    && w.health == v.health[o.source := w.health[o.source]]
    && w.store == v.store[o.source := w.store[o.source]]
    && w.buffers == v.buffers[o.source := w.buffers[o.source]]
    && w.bounds == v.bounds
    && var c, row, ring := w.health[o.source], w.store[o.source], w.buffers[o.source];
    && var before := if o.source in v.buffers then v.buffers[o.source] else Ring([], 0);
    && c.boot == o.boot && c.epoch == o.epoch && c.lastSequence == o.sequence && c.lastObserved == o.observedAt
    && c.watermark == (if o.source in v.health && o.observedAt < v.health[o.source].watermark then v.health[o.source].watermark
                       else o.observedAt)
    && ring == (if |before.items| == capacity then Ring(before.items[1..] + [o], before.dropped + 1)
                else Ring(before.items + [o], before.dropped))
    && c.state == (if o.captureAgeMs > 5000.0 then Stale
                   else if ring.dropped > 0 || (!Recovering(v, o) && (m.flagged || Late(v, o) || Gap(v, o))) then Degraded
                   else Healthy)
    && (forall r :: r in c.reasons <==>
                    || r in m.reasons
                    || (Late(v, o) && r == "late_event") || (Gap(v, o) && r == "sequence_gap")
                    || (Transition(v, o) && r == "source_epoch_transition")
                    || (o.captureAgeMs > 5000.0 && r == "stale_capture")
                    || (o.captureAgeMs <= 5000.0 && Recovering(v, o) && r == "source_recovered")
                    || (ring.dropped > 0 && r == "ring_buffer_overwrite"))
    && row == Row(c.state, c.boot, c.epoch, c.lastSequence, c.lastObserved, c.reasons)
  }

  /** What refusing a late event changes: its source is degraded, in memory and in the store. */
  ghost predicate Degrades(v: View, source: string, w: View) {
    && source in v.health
    && var c := v.health[source];
    && var reasons := c.reasons + {"late_event_exceeded"};
    && w == View(v.health[source := c.(state := Degraded, reasons := reasons)],
                 v.store[source := Row(Degraded, c.boot, c.epoch, c.lastSequence, c.lastObserved, reasons)],
                 v.buffers, v.bounds)
  }

  lemma ReasonsAre(v: View, o: Observation, m: Report, ring: Ring, r: string)
    ensures r in NewReasons(v, o, m, ring) <==>
            || r in m.reasons
            || (Late(v, o) && r == "late_event") || (Gap(v, o) && r == "sequence_gap")
            || (Transition(v, o) && r == "source_epoch_transition")
            || (o.captureAgeMs > 5000.0 && r == "stale_capture")
            || (o.captureAgeMs <= 5000.0 && Recovering(v, o) && r == "source_recovered")
            || (ring.dropped > 0 && r == "ring_buffer_overwrite")
  {
  }

  lemma StateIs(v: View, o: Observation, m: Report, ring: Ring)
    ensures NewState(v, o, m, ring) ==
            if o.captureAgeMs > 5000.0 then Stale
            else if ring.dropped > 0 || (!Recovering(v, o) && (m.flagged || Late(v, o) || Gap(v, o))) then Degraded
            else Healthy
  {
    var serious := CursorReasons(v, o) - {"source_epoch_transition"};
    assert Late(v, o) ==> "late_event" in serious by {
      assert "late_event"[0] != "source_epoch_transition"[0];
    }
    assert Gap(v, o) ==> "sequence_gap" in serious by {
      assert "sequence_gap"[1] != "source_epoch_transition"[1];
    }
    assert !Late(v, o) && !Gap(v, o) ==> serious == {};
  }

  /** An ingest changes what its outcome says and nothing else. */
  lemma IngestMeans(capacity: int, v: View, o: Observation, m: Report)
    ensures var w := IngestView(capacity, v, o, m);
            match IngestOutcome(capacity, v, o, m)
            case Accepted => TakesIn(capacity, v, o, m, w)
            case TooLate => Degrades(v, o.source, w)
            case _ => w == v
  {
    if IngestOutcome(capacity, v, o, m) == Accepted {
      var ring := Append(RingOf(v, o.source), capacity, o);
      StateIs(v, o, m, ring);
      forall r ensures r in NewReasons(v, o, m, ring) <==>
          || r in m.reasons
          || (Late(v, o) && r == "late_event") || (Gap(v, o) && r == "sequence_gap")
          || (Transition(v, o) && r == "source_epoch_transition")
          || (o.captureAgeMs > 5000.0 && r == "stale_capture")
          || (o.captureAgeMs <= 5000.0 && Recovering(v, o) && r == "source_recovered")
          || (ring.dropped > 0 && r == "ring_buffer_overwrite")
      {
        ReasonsAre(v, o, m, ring, r);
      }
    }
  }

  // ---- Ageing, failing, restarting ----

  predicate TimedOut(c: Cursor, now: int, threshold: int) {
    now - c.lastObserved > threshold
  }

  function Aged(c: Cursor, now: int, threshold: int): Cursor {
    if TimedOut(c, now, threshold) then c.(state := Stale, reasons := c.reasons + {"timeout"}) else c
  }

  function StaleStep(v: View, s: string, now: int, threshold: int): View {
    if s in v.health && TimedOut(v.health[s], now, threshold) then
      var c := Aged(v.health[s], now, threshold);
      v.(health := v.health[s := c], store := v.store[s := Persist(c)])
    else v
  }

  /** `mark_stale` over a list of sources. */
  function StaleView(v: View, sources: seq<string>, now: int, threshold: int): View {
    if sources == [] then v
    else StaleStep(StaleView(v, sources[..|sources| - 1], now, threshold), sources[|sources| - 1], now, threshold)
  }

  /** Whatever the order, exactly the listed sources that timed out are stale afterwards and no cursor moves. */
  lemma {:induction false} StaleMeans(v: View, sources: seq<string>, now: int, threshold: int)
    ensures var w := StaleView(v, sources, now, threshold);
            && w.health.Keys == v.health.Keys && w.buffers == v.buffers && w.bounds == v.bounds
            && (forall s :: s in v.health ==> w.health[s] == if s in sources then Aged(v.health[s], now, threshold) else v.health[s])
            && forall s :: s in v.health ==>
                 var c := v.health[s];
                 w.health[s] == if s in sources && c.lastObserved + threshold < now
                                then c.(state := Stale, reasons := c.reasons + {"timeout"}) else c
  {
    if sources != [] {
      var front := sources[..|sources| - 1];
      StaleMeans(v, front, now, threshold);
      assert sources == front + [sources[|sources| - 1]];
    }
  }

  /** The stored rows follow: a timed-out source is stored as stale with its cursor, every other row stays. */
  lemma {:induction false} StaleStored(v: View, sources: seq<string>, now: int, threshold: int, s: string)
    ensures var w := StaleView(v, sources, now, threshold);
            if s in sources && s in v.health && v.health[s].lastObserved + threshold < now then
              var c := v.health[s];
              s in w.store && w.store[s] == Row(Stale, c.boot, c.epoch, c.lastSequence, c.lastObserved, c.reasons + {"timeout"})
            else
              (s in w.store <==> s in v.store) && (s in v.store ==> w.store[s] == v.store[s])
  {
    if sources != [] {
      var front := sources[..|sources| - 1];
      StaleStored(v, front, now, threshold, s);
      StaleMeans(v, front, now, threshold);
      assert sources == front + [sources[|sources| - 1]];
    }
  }

  function FailedView(v: View, source: string, reason: string): View
    requires source in v.health
  {
    var c := v.health[source].(state := Failed, reasons := v.health[source].reasons + {reason});
    v.(health := v.health[source := c], store := v.store[source := Persist(c)])
  }

  /** A new process: configuration and buffers are gone, health comes from the store. */
  function RestartView(v: View): View {
    View(map s | s in v.store :: Load(v.store[s]), v.store, map[], map[])
  }

  predicate MayConfigure(v: View, source: string, bound: int) {
    bound >= 0 && (source in v.bounds ==> v.bounds[source] == bound)
  }

  // ---- The collector ----

  class StreamingSourceCollector {
    const capacity: int
    var health: map<string, Cursor>
    var store: map<string, Row>
    var buffers: map<string, Ring>
    var bounds: map<string, int>

    ghost function Value(): View
      reads this
    {
      View(health, store, buffers, bounds)
    }

    /** Starts from whatever the durable store holds. */
    constructor (capacity: int, store: map<string, Row>)
      ensures this.capacity == capacity
      ensures Value() == RestartView(View(map[], store, map[], map[]))
      ensures this.store == store && buffers == map[] && bounds == map[] && health.Keys == store.Keys
      ensures forall s :: s in store ==>
                var r := store[s];
                health[s] == Cursor(r.state, r.boot, r.epoch, r.lastSequence, r.lastObserved, r.lastObserved, r.reasons)
    {
      this.capacity := capacity;
      this.store := store;
      health := map s | s in store :: Load(store[s]);
      buffers, bounds := map[], map[];
    }

    method ConfigureSource(source: string, bound: int) returns (ok: bool)
      modifies this`bounds
      ensures ok == MayConfigure(old(Value()), source, bound)
      ensures ok <==> bound >= 0 && (source in old(bounds) ==> bound == old(bounds)[source])
      ensures Value() == if ok then old(Value()).(bounds := old(bounds)[source := bound]) else old(Value())
    {
      if bound < 0 || (source in bounds && bounds[source] != bound) {
        return false;
      }
      bounds := bounds[source := bound];
      ok := true;
    }

    /** The state that the checks before buffering arrive at, with the reasons collected so far. */
    method Judge(o: Observation, m: Report) returns (state: Health, reasons: set<string>)
      ensures reasons == NewReasons(Value(), o, m, Ring([], 0))
      ensures state == NewState(Value(), o, m, Ring([], 0))
    {
      reasons := m.reasons;
      state := if m.flagged then Degraded else Healthy;
      if o.source in health {
        var previous := health[o.source];
        if o.observedAt < previous.lastObserved {
          reasons := reasons + {"late_event"};
          state := Degraded;
          assert "late_event" in CursorReasons(Value(), o) - {"source_epoch_transition"};
        }
        if SameEpoch(previous, o) && o.sequence > previous.lastSequence + 1 {
          reasons := reasons + {"sequence_gap"};
          state := Degraded;
          assert "sequence_gap" in CursorReasons(Value(), o) - {"source_epoch_transition"};
        }
        if !SameEpoch(previous, o) {
          reasons := reasons + {"source_epoch_transition"};
        }
      }
      if o.captureAgeMs > 5000.0 {
        reasons := reasons + {"stale_capture"};
        state := Stale;
      } else if o.source in health && (health[o.source].state == Stale || health[o.source].state == Failed) {
        reasons := reasons + {"source_recovered"};
        state := Healthy;
      }
    }

    /** The part of `ingest` that commits an event found acceptable. */
    method Accept(o: Observation, m: Report, judged: Health, listed: set<string>)
      requires capacity > 0
      requires listed == NewReasons(Value(), o, m, Ring([], 0)) && judged == NewState(Value(), o, m, Ring([], 0))
      modifies this`health, this`store, this`buffers
      ensures Value() == AcceptedView(capacity, old(Value()), o, m)
    {
      ghost var v0 := Value();
      var state, reasons := judged, listed;
      var ring := if o.source in buffers then buffers[o.source] else Ring([], 0);
      ring := Append(ring, capacity, o);
      if ring.dropped > 0 {
        reasons := reasons + {"ring_buffer_overwrite"};
        if state == Healthy {
          state := Degraded;
        }
      }
      var watermark := if o.source in health && o.observedAt < health[o.source].watermark
      then health[o.source].watermark else o.observedAt;
      assert reasons == NewReasons(v0, o, m, ring);
      var cursor := Cursor(state, o.boot, o.epoch, o.sequence, o.observedAt, watermark, reasons);
      buffers := buffers[o.source := ring];
      store := store[o.source := Persist(cursor)];
      health := health[o.source := cursor];
    }

    method Ingest(o: Observation, m: Report) returns (r: Outcome)
      modifies this`health, this`store, this`buffers
      ensures r == IngestOutcome(capacity, old(Value()), o, m)
      ensures Value() == IngestView(capacity, old(Value()), o, m)
      ensures r == Accepted <==>
              && !o.replayed && m.valid && Advances(old(Value()), o) && Timely(old(Value()), o)
              && !o.implausible && capacity >= 1
      ensures match r
              case Accepted => TakesIn(capacity, old(Value()), o, m, Value())
              case TooLate => Degrades(old(Value()), o.source, Value())
              case _ => Value() == old(Value())
    {
      OutcomeMeans(capacity, Value(), o, m);
      IngestMeans(capacity, Value(), o, m);
      if o.replayed {
        return Replayed;
      }
      if !m.valid {
        return MeasurementRejected;
      }
      if o.source in health {
        var previous := health[o.source];
        if SameEpoch(previous, o) && o.sequence <= previous.lastSequence {
          return SequenceRejected;
        }
        var bound := if o.source in bounds then bounds[o.source] else 0;
        if o.observedAt < previous.lastObserved && previous.lastObserved - o.observedAt > bound {
          var rejected := previous.(state := Degraded, reasons := previous.reasons + {"late_event_exceeded"});
          store := store[o.source := Persist(rejected)];
          health := health[o.source := rejected];
          return TooLate;
        }
      }
      var state, reasons := Judge(o, m);
      if o.implausible {
        return Implausible;
      }
      if capacity <= 0 {
        return BadCapacity;
      }
      Accept(o, m, state, reasons);
      r := Accepted;
    }

    method MarkFailed(source: string, reason: string) returns (known: bool)
      modifies this`health, this`store
      ensures known <==> source in old(health)
      ensures Value() == if known then FailedView(old(Value()), source, reason) else old(Value())
      ensures known ==>
                var c := old(health)[source];
                var reasons := c.reasons + {reason};
                && health == old(health)[source := c.(state := Failed, reasons := reasons)]
                && store == old(store)[source := Row(Failed, c.boot, c.epoch, c.lastSequence, c.lastObserved, reasons)]
    {
      if source !in health {
        return false;
      }
      var updated := health[source].(state := Failed, reasons := health[source].reasons + {reason});
      health := health[source := updated];
      store := store[source := Persist(updated)];
      known := true;
    }

    method MarkStale(now: int, threshold: int) returns (ghost sources: seq<string>)
      modifies this`health, this`store
      ensures forall s :: s in sources <==> s in old(health)
      ensures Value() == StaleView(old(Value()), sources, now, threshold)
    {
      var pending := health.Keys;
      ghost var v0 := Value();
      sources := [];
      while pending != {}
        invariant forall s :: s in v0.health <==> s in pending || s in sources
        invariant Value() == StaleView(v0, sources, now, threshold)
        decreases |pending|
      {
        var s :| s in pending;
        StaleMeans(v0, sources, now, threshold);
        var current := health[s];
        if TimedOut(current, now, threshold) {
          var updated := current.(state := Stale, reasons := current.reasons + {"timeout"});
          health := health[s := updated];
          store := store[s := Persist(updated)];
        }
        pending := pending - {s};
        assert (sources + [s])[..|sources|] == sources;
        sources := sources + [s];
      }
    }
  }

  // ---- Runs, seen from one source ----

  datatype Op =
    | DoIngest(o: Observation, m: Report)
    | DoStale(sources: seq<string>, now: int, threshold: int)
    | DoFail(source: string, reason: string)
    | DoConfigure(source: string, bound: int)
    | DoRestart

  /**
   The observations of the source accepted so far, the position of the last one accepted before the latest restart (from
   which the watermark counts), and how many were accepted before that restart.
   */
  datatype History = History(accepted: seq<Observation>, base: nat, before: nat)

  datatype World = World(v: View, h: History)

  function NextView(capacity: int, v: View, op: Op): View {
    match op
    case DoIngest(o, m) => IngestView(capacity, v, o, m)
    case DoStale(sources, now, threshold) => StaleView(v, sources, now, threshold)
    case DoFail(source, reason) => if source in v.health then FailedView(v, source, reason) else v
    case DoConfigure(source, bound) => if MayConfigure(v, source, bound) then v.(bounds := v.bounds[source := bound]) else v
    case DoRestart => RestartView(v)
  }

  function Note(capacity: int, source: string, v: View, h: History, op: Op): History {
    match op
    case DoIngest(o, m) =>
      if o.source == source && IngestOutcome(capacity, v, o, m) == Accepted then h.(accepted := h.accepted + [o]) else h
    case DoRestart => h.(base := if h.accepted == [] then 0 else |h.accepted| - 1, before := |h.accepted|)
    case _ => h
  }

  function Next(capacity: int, source: string, w: World, op: Op): World {
    World(NextView(capacity, w.v, op), Note(capacity, source, w.v, w.h, op))
  }

  /** `w'` follows from `w` by `ops`, in which `source` is only ever configured with a lateness bound of at most `b`. */
  ghost predicate Reaches(capacity: int, source: string, b: int, w: World, ops: seq<Op>, w': World)
    decreases |ops|
  {
    if ops == [] then w' == w
    else
      && (ops[0].DoConfigure? && ops[0].source == source ==> ops[0].bound <= b)
      && Reaches(capacity, source, b, Next(capacity, source, w, ops[0]), ops[1..], w')
  }

  function Init(): World {
    World(View(map[], map[], map[], map[]), History([], 0, 0))
  }

  function Latest(s: seq<Observation>): int
    requires s != []
  {
    var last := s[|s| - 1].observedAt;
    if |s| == 1 then last
    else
      var front := Latest(s[..|s| - 1]);
      if last < front then front else last
  }

  lemma {:induction false} LatestIsMaximum(s: seq<Observation>)
    requires s != []
    ensures forall i :: 0 <= i < |s| ==> s[i].observedAt <= Latest(s)
    ensures exists i :: 0 <= i < |s| && s[i].observedAt == Latest(s)
  {
    if |s| > 1 {
      var front := s[..|s| - 1];
      LatestIsMaximum(front);
      var i :| 0 <= i < |front| && front[i].observedAt == Latest(front);
      assert s[i] == front[i];
      forall j | 0 <= j < |s| ensures s[j].observedAt <= Latest(s) {
        assert j == |s| - 1 || s[j] == front[j];
      }
    } else {
      assert s[0].observedAt == Latest(s);
    }
  }

  /** The store always holds what a restart would need of the in-memory cursors. */
  ghost predicate Durable(v: View) {
    && v.store.Keys == v.health.Keys
    && forall s :: s in v.store ==> v.store[s] == Persist(v.health[s])
  }

  /** The cursor is that of the last accepted observation; the watermark is the latest event time since `base`. */
  ghost predicate Tracks(v: View, source: string, h: History) {
    && (source in v.health <==> h.accepted != [])
    && (h.accepted != [] ==>
          var last, c := h.accepted[|h.accepted| - 1], v.health[source];
          && c.boot == last.boot && c.epoch == last.epoch && c.lastSequence == last.sequence && c.lastObserved == last.observedAt
          && h.base < |h.accepted|
          && c.watermark == Latest(h.accepted[h.base..]))
  }

  /** Consecutive accepted observations go back by at most `b`, and within one boot and epoch their sequence rises. */
  ghost predicate Steps(accepted: seq<Observation>, b: int) {
    forall i :: 0 <= i < |accepted| - 1 ==>
      && accepted[i].observedAt - b <= accepted[i + 1].observedAt
      && (accepted[i].boot == accepted[i + 1].boot && accepted[i].epoch == accepted[i + 1].epoch ==>
            accepted[i].sequence < accepted[i + 1].sequence)
  }

  ghost predicate Buffered(capacity: int, v: View, source: string, h: History) {
    && h.before <= |h.accepted|
    && (capacity > 0 ==> Holds(RingOf(v, source), capacity, h.accepted[h.before..]))
  }

  lemma DurableStep(capacity: int, v: View, op: Op)
    requires Durable(v)
    ensures Durable(NextView(capacity, v, op))
  {
    if op.DoStale? {
      DurableStale(v, op.sources, op.now, op.threshold);
    }
  }

  lemma {:induction false} DurableStale(v: View, sources: seq<string>, now: int, threshold: int)
    requires Durable(v)
    ensures Durable(StaleView(v, sources, now, threshold))
  {
    if sources != [] {
      DurableStale(v, sources[..|sources| - 1], now, threshold);
    }
  }

  lemma LatestExtends(s: seq<Observation>, base: nat, o: Observation)
    requires base < |s|
    ensures Latest((s + [o])[base..]) == if o.observedAt < Latest(s[base..]) then Latest(s[base..]) else o.observedAt
  {
    var all := (s + [o])[base..];
    assert all == s[base..] + [o];
    assert all[..|all| - 1] == s[base..];
  }

  lemma TracksIngest(capacity: int, source: string, w: World, op: Op)
    requires Tracks(w.v, source, w.h) && w.h.base <= |w.h.accepted| && op.DoIngest? && (w.h.accepted == [] ==> w.h.base == 0)
    ensures Tracks(NextView(capacity, w.v, op), source, Note(capacity, source, w.v, w.h, op))
  {
    if op.o.source == source && IngestOutcome(capacity, w.v, op.o, op.m) == Accepted {
      if w.h.accepted != [] {
        LatestExtends(w.h.accepted, w.h.base, op.o);
      } else {
        assert ([] + [op.o])[0..] == [op.o];
      }
    }
  }

  lemma TracksRestart(source: string, w: World)
    requires Durable(w.v) && Tracks(w.v, source, w.h)
    ensures Tracks(RestartView(w.v), source, Note(0, source, w.v, w.h, DoRestart))
  {
    if w.h.accepted != [] {
      var n := |w.h.accepted| - 1;
      assert w.h.accepted[n..] == [w.h.accepted[n]];
      assert source in w.v.store;
    }
  }

  lemma TracksStep(capacity: int, source: string, w: World, op: Op)
    requires Durable(w.v) && Tracks(w.v, source, w.h) && (w.h.accepted == [] ==> w.h.base == 0)
    ensures Tracks(Next(capacity, source, w, op).v, source, Next(capacity, source, w, op).h)
  {
    match op
    case DoIngest(_, _) => TracksIngest(capacity, source, w, op);
    case DoStale(sources, now, threshold) => StaleMeans(w.v, sources, now, threshold);
    case DoFail(_, _) =>
    case DoConfigure(_, _) =>
    case DoRestart => TracksRestart(source, w);
  }

  lemma StepsStep(capacity: int, source: string, b: int, w: World, op: Op)
    requires Tracks(w.v, source, w.h) && Steps(w.h.accepted, b) && 0 <= b && Bound(w.v, source) <= b
    ensures Steps(Next(capacity, source, w, op).h.accepted, b)
  {
    if op.DoIngest? && op.o.source == source && IngestOutcome(capacity, w.v, op.o, op.m) == Accepted {
      StepsAppend(w.h.accepted, op.o, b);
    }
  }

  lemma StepsAppend(accepted: seq<Observation>, o: Observation, b: int)
    requires Steps(accepted, b)
    requires accepted != [] ==>
               var last := accepted[|accepted| - 1];
               && last.observedAt - b <= o.observedAt
               && (last.boot == o.boot && last.epoch == o.epoch ==> last.sequence < o.sequence)
    ensures Steps(accepted + [o], b)
  {
    var all := accepted + [o];
    forall i | 0 <= i < |all| - 1
      ensures all[i].observedAt - b <= all[i + 1].observedAt
      ensures all[i].boot == all[i + 1].boot && all[i].epoch == all[i + 1].epoch ==> all[i].sequence < all[i + 1].sequence
    {
      if i + 1 < |accepted| {
        assert accepted[i].observedAt - b <= accepted[i + 1].observedAt;
      }
    }
  }

  lemma BoundStep(capacity: int, source: string, b: int, v: View, op: Op)
    requires 0 <= b && Bound(v, source) <= b
    requires op.DoConfigure? && op.source == source ==> op.bound <= b
    ensures Bound(NextView(capacity, v, op), source) <= b
  {
    if op.DoStale? {
      StaleFrame(v, op.sources, op.now, op.threshold);
    }
  }

  lemma {:induction false} StaleFrame(v: View, sources: seq<string>, now: int, threshold: int)
    ensures StaleView(v, sources, now, threshold).bounds == v.bounds
    ensures StaleView(v, sources, now, threshold).buffers == v.buffers
  {
    if sources != [] {
      StaleFrame(v, sources[..|sources| - 1], now, threshold);
    }
  }

  lemma BufferedStep(capacity: int, source: string, w: World, op: Op)
    requires Buffered(capacity, w.v, source, w.h)
    ensures Buffered(capacity, Next(capacity, source, w, op).v, source, Next(capacity, source, w, op).h)
  {
    match op
    case DoIngest(o, m) =>
      if o.source == source && IngestOutcome(capacity, w.v, o, m) == Accepted {
        AppendHolds(RingOf(w.v, source), capacity, w.h.accepted[w.h.before..], o);
        assert (w.h.accepted + [o])[w.h.before..] == w.h.accepted[w.h.before..] + [o];
      }
    case DoStale(sources, now, threshold) => StaleFrame(w.v, sources, now, threshold);
    case DoFail(_, _) =>
    case DoConfigure(_, _) =>
    case DoRestart =>
  }

  ghost predicate Inv(capacity: int, source: string, b: int, w: World) {
    && Durable(w.v) && Tracks(w.v, source, w.h) && (w.h.accepted == [] ==> w.h.base == 0)
    && Steps(w.h.accepted, b) && Bound(w.v, source) <= b
    && Buffered(capacity, w.v, source, w.h)
  }

  lemma {:induction false} InvRun(capacity: int, source: string, b: int, w: World, ops: seq<Op>, w': World)
    requires 0 <= b && Reaches(capacity, source, b, w, ops, w') && Inv(capacity, source, b, w)
    ensures Inv(capacity, source, b, w')
    decreases |ops|
  {
    if ops != [] {
      DurableStep(capacity, w.v, ops[0]);
      TracksStep(capacity, source, w, ops[0]);
      StepsStep(capacity, source, b, w, ops[0]);
      BoundStep(capacity, source, b, w.v, ops[0]);
      BufferedStep(capacity, source, w, ops[0]);
      InvRun(capacity, source, b, Next(capacity, source, w, ops[0]), ops[1..], w');
    }
  }

  lemma {:induction false} DriftFromSteps(accepted: seq<Observation>, b: int, i: nat, j: nat)
    requires Steps(accepted, b) && i <= j < |accepted|
    ensures accepted[i].observedAt - (j - i) * b <= accepted[j].observedAt
  {
    if i < j {
      DriftFromSteps(accepted, b, i, j - 1);
      assert accepted[j - 1].observedAt - b <= accepted[(j - 1) + 1].observedAt;
      assert (j - i) * b == (j - 1 - i) * b + b;
    }
  }

  /** From `i` to `j` the source kept one boot and one clock epoch. */
  ghost predicate Unbroken(accepted: seq<Observation>, i: nat, j: nat)
    requires i <= j < |accepted|
  {
    forall k :: i <= k <= j ==> accepted[k].boot == accepted[i].boot && accepted[k].epoch == accepted[i].epoch
  }

  lemma {:induction false} SequencesFromSteps(accepted: seq<Observation>, b: int, i: nat, j: nat)
    requires Steps(accepted, b) && i < j < |accepted| && Unbroken(accepted, i, j)
    ensures accepted[i].sequence < accepted[j].sequence
  {
    assert accepted[j - 1].boot == accepted[i].boot && accepted[j].boot == accepted[i].boot;
    assert accepted[j - 1].epoch == accepted[i].epoch && accepted[j].epoch == accepted[i].epoch;
    assert accepted[j - 1].sequence < accepted[(j - 1) + 1].sequence;
    if i < j - 1 {
      SequencesFromSteps(accepted, b, i, j - 1);
    }
  }

  /**
   Over every run, restarts included, in which the source's lateness bound is at most `b`: an event accepted k steps after
   another is at most k times `b` earlier (never earlier when `b` is zero), and sequences strictly increase along every
   unbroken boot and epoch stretch.
   */
  lemma AcceptedEventsDriftAtMost(capacity: int, source: string, b: int, ops: seq<Op>, w: World, i: nat, j: nat)
    requires 0 <= b && Reaches(capacity, source, b, Init(), ops, w) && i < j < |w.h.accepted|
    ensures w.h.accepted[i].observedAt - (j - i) * b <= w.h.accepted[j].observedAt
    ensures Unbroken(w.h.accepted, i, j) ==> w.h.accepted[i].sequence < w.h.accepted[j].sequence
  {
    InvRun(capacity, source, b, Init(), ops, w);
    DriftFromSteps(w.h.accepted, b, i, j);
    if Unbroken(w.h.accepted, i, j) {
      SequencesFromSteps(w.h.accepted, b, i, j);
    }
  }

  // ---- The drift bound is attained ----

  lemma {:induction false} ReachesNext(capacity: int, source: string, b: int, w: World, ops: seq<Op>, w': World, op: Op)
    requires Reaches(capacity, source, b, w, ops, w') && (op.DoConfigure? && op.source == source ==> op.bound <= b)
    ensures Reaches(capacity, source, b, w, ops + [op], Next(capacity, source, w', op))
    decreases |ops|
  {
    if ops == [] {
      assert [op][1..] == [] && ops + [op] == [op];
    } else {
      ReachesNext(capacity, source, b, Next(capacity, source, w, ops[0]), ops[1..], w', op);
      assert (ops + [op])[1..] == ops[1..] + [op];
    }
  }

  function At(source: string, n: nat, time: int): Observation {
    Observation(source, false, "boot", 0, n, time, 0.0, false)
  }

  const Clean := Report(true, false, {})

  /** The source has accepted `n + 1` events, the first at `t` and the last at `time`. */
  ghost predicate Receded(w: World, source: string, b: int, n: nat, t: int, time: int) {
    && Bound(w.v, source) == b && |w.h.accepted| == n + 1
    && w.h.accepted[0].observedAt == t && w.h.accepted[n] == At(source, n, time)
  }

  /** An event as late as the bound allows is accepted. */
  lemma NextReceding(capacity: int, source: string, b: int, t: int, time: int, w: World, n: nat)
    requires capacity > 0 && 0 <= b && Receded(w, source, b, n, t, time) && Tracks(w.v, source, w.h)
    ensures Receded(Next(capacity, source, w, DoIngest(At(source, n + 1, time - b), Clean)), source, b, n + 1, t, time - b)
  {
    assert IngestOutcome(capacity, w.v, At(source, n + 1, time - b), Clean) == Accepted;
  }

  lemma FirstEvent(capacity: int, source: string, b: int, t: int) returns (ops: seq<Op>, w: World)
    requires capacity > 0 && 0 <= b
    ensures Reaches(capacity, source, b, Init(), ops, w) && Receded(w, source, b, 0, t, t)
  {
    var configure, first := DoConfigure(source, b), DoIngest(At(source, 0, t), Clean);
    assert Reaches(capacity, source, b, Init(), [], Init());
    ReachesNext(capacity, source, b, Init(), [], Init(), configure);
    var w1 := Next(capacity, source, Init(), configure);
    ReachesNext(capacity, source, b, Init(), [] + [configure], w1, first);
    ops, w := [] + [configure] + [first], Next(capacity, source, w1, first);
  }

  lemma Multiple(n: nat, b: int)
    ensures (n + 1) * b == n * b + b && 0 * b == 0
  {
  }

  lemma {:induction false} RecedingRun(capacity: int, source: string, b: int, t: int, n: nat) returns (ops: seq<Op>, w: World)
    requires capacity > 0 && 0 <= b
    ensures Reaches(capacity, source, b, Init(), ops, w) && Receded(w, source, b, n, t, t - n * b)
    decreases n
  {
    if n == 0 {
      Multiple(0, b);
      ops, w := FirstEvent(capacity, source, b, t);
    } else {
      ops, w := RecedingRun(capacity, source, b, t, n - 1);
      InvRun(capacity, source, b, Init(), ops, w);
      var time := t - (n - 1) * b;
      NextReceding(capacity, source, b, t, time, w, n - 1);
      Multiple(n - 1, b);
      var op := DoIngest(At(source, n, time - b), Clean);
      ReachesNext(capacity, source, b, Init(), ops, w, op);
      ops, w := ops + [op], Next(capacity, source, w, op);
    }
  }

  /** For every bound and every k some run accepts, k steps after an event, one that is exactly k times the bound earlier. */
  lemma DriftIsAttained(capacity: int, source: string, b: int, t: int, k: nat)
    requires capacity > 0 && 0 <= b
    ensures exists ops, w ::
              && Reaches(capacity, source, b, Init(), ops, w) && |w.h.accepted| == k + 1
              && w.h.accepted[0].observedAt == t && w.h.accepted[k].observedAt == t - k * b
  {
    var ops, w := RecedingRun(capacity, source, b, t, k);
  }

  ghost predicate NoRestart(ops: seq<Op>) {
    forall i :: 0 <= i < |ops| ==> !ops[i].DoRestart?
  }

  lemma {:induction false} BaseStays(capacity: int, source: string, b: int, w: World, ops: seq<Op>, w': World)
    requires Reaches(capacity, source, b, w, ops, w') && NoRestart(ops)
    ensures w'.h.base == w.h.base && w'.h.before == w.h.before
    decreases |ops|
  {
    if ops != [] {
      BaseStays(capacity, source, b, Next(capacity, source, w, ops[0]), ops[1..], w');
    }
  }

  /** Without restarts the watermark is the latest event time ever accepted, and the buffer holds the newest observations. */
  lemma WatermarkIsMaximum(capacity: int, source: string, b: int, ops: seq<Op>, w: World)
    requires 0 <= b && Reaches(capacity, source, b, Init(), ops, w) && NoRestart(ops) && w.h.accepted != []
    ensures source in w.v.health && w.v.health[source].watermark == Latest(w.h.accepted)
    ensures forall i :: 0 <= i < |w.h.accepted| ==> w.h.accepted[i].observedAt <= w.v.health[source].watermark
    ensures capacity > 0 ==> Holds(RingOf(w.v, source), capacity, w.h.accepted)
  {
    InvRun(capacity, source, b, Init(), ops, w);
    BaseStays(capacity, source, b, Init(), ops, w);
    assert w.h.accepted[0..] == w.h.accepted;
    LatestIsMaximum(w.h.accepted);
  }

  /**
   A restart keeps the cursor but not the watermark, which falls back to the last accepted event time: it survives exactly
   when that event was at the watermark.
   */
  lemma RestartKeepsWatermarkIff(capacity: int, source: string, b: int, ops: seq<Op>, w: World)
    requires 0 <= b && Reaches(capacity, source, b, Init(), ops, w) && w.h.accepted != []
    ensures source in w.v.health && source in RestartView(w.v).health && w.h.base < |w.h.accepted|
    ensures var c, r := w.v.health[source], RestartView(w.v).health[source];
            && r.boot == c.boot && r.epoch == c.epoch && r.lastSequence == c.lastSequence && r.lastObserved == c.lastObserved
            && (r.watermark == c.watermark <==> w.h.accepted[|w.h.accepted| - 1].observedAt == Latest(w.h.accepted[w.h.base..]))
  {
    InvRun(capacity, source, b, Init(), ops, w);
  }

  /** Two events, the second late but within its bound, then a restart: the watermark moves back. */
  lemma RestartCanLowerWatermark()
    ensures exists ops, w ::
              && Reaches(1, "s", 5, Init(), ops, w) && "s" in w.v.health && "s" in w.v.store
              && w.v.health["s"].watermark == 10 && RestartView(w.v).health["s"].watermark == 8
  {
    var a := Observation("s", false, "b", 0, 1, 10, 0.0, false);
    var c := Observation("s", false, "b", 0, 2, 8, 0.0, false);
    var m := Report(true, false, {});
    var w0 := Init();
    var w1 := Next(1, "s", w0, DoConfigure("s", 5));
    var w2 := Next(1, "s", w1, DoIngest(a, m));
    var w3 := Next(1, "s", w2, DoIngest(c, m));
    var ops := [DoConfigure("s", 5), DoIngest(a, m), DoIngest(c, m)];
    assert w3.v.health["s"].watermark == 10 && w3.v.health["s"].lastObserved == 8;
    assert Reaches(1, "s", 5, w3, [], w3);
    assert ops[2..][1..] == [] && ops[1..][1..] == ops[2..] && ops[2..][0] == DoIngest(c, m);
    assert Reaches(1, "s", 5, w2, ops[2..], w3);
    assert Reaches(1, "s", 5, w1, ops[1..], w3);
    assert Reaches(1, "s", 5, w0, ops, w3);
    assert w3.v.store["s"].lastObserved == 8;
  }

  /** Every rejected ingest leaves cursor, watermark, buffers and configuration of every source as they were. */
  lemma RejectedIngestKeepsCursor(capacity: int, v: View, o: Observation, m: Report, s: string)
    requires IngestOutcome(capacity, v, o, m) != Accepted && s in v.health
    ensures var w := IngestView(capacity, v, o, m);
            && w.health.Keys == v.health.Keys && w.buffers == v.buffers && w.bounds == v.bounds
            && var c, d := v.health[s], w.health[s];
            && d.boot == c.boot && d.epoch == c.epoch && d.lastSequence == c.lastSequence
            && d.lastObserved == c.lastObserved && d.watermark == c.watermark
  {
  }
}
