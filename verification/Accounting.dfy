/** The admission gates and the counters of one log record (go/logger.go:77-152, go/consent.go:67-92,
    go/sampling.go:47-143, go/backpressure.go:101-139), first for a record handled alone, then for any number
    of records in flight while consent, sampling and queue policies change. */
module Accounting {
  import opened Common
  import Queues

  type Id = nat

  // ---- the gates ----------------------------------------------------------------------------------

  datatype Consent = Full | Functional | Minimal | NoConsent
  datatype Level = Trace | Debug | Info | Warn | Error | Critical

  function Order(l: Level): nat {
    match l
    case Trace => 0
    case Debug => 1
    case Info => 2
    case Warn => 3
    case Error => 4
    case Critical => 5
  }

  /** ShouldAllow for the logs signal. */
  predicate AllowsLog(c: Consent, l: Level) {
    match c
    case Full => true
    case NoConsent => false
    case Functional => Order(l) >= Order(Warn)
    case Minimal => Order(l) >= Order(Error)
  }

  function Strictness(c: Consent): nat {
    match c
    case Full => 0
    case Functional => 1
    case Minimal => 2
    case NoConsent => 3
  }

  /** A stricter consent admits strictly fewer levels, and every consent that admits a level admits all more
      severe ones. */
  lemma ConsentNarrows(c: Consent, d: Consent, l: Level, m: Level)
    ensures Strictness(c) <= Strictness(d) && AllowsLog(d, l) ==> AllowsLog(c, l)
    ensures Strictness(c) < Strictness(d) ==> exists x :: AllowsLog(c, x) && !AllowsLog(d, x)
    ensures Order(l) <= Order(m) && AllowsLog(c, l) ==> AllowsLog(c, m)
  {
    if Strictness(c) < Strictness(d) {
      var x := if d == NoConsent then Critical else if d == Minimal then Warn else Info;
      assert AllowsLog(c, x) && !AllowsLog(d, x);
    }
  }

  datatype Rates = Rates(byDefault: real, overrides: map<string, real>)

  /** The decision for a key; roll is the random number in [0, 1). */
  predicate Sampled(p: Rates, key: string, roll: real) {
    var rate := if key in p.overrides then p.overrides[key] else p.byDefault;
    if rate == 0.0 then false else if rate == 1.0 then true else roll < rate
  }

  // ---- one record ---------------------------------------------------------------------------------

  class LogPipeline {
    var consent: Consent
    var rates: Rates
    var emitted: nat
    var exportErrors: nat
    const queues: Queues.Backpressure

    constructor (q: Queues.Backpressure)
      ensures queues == q && emitted == 0 && exportErrors == 0 && consent == Full && rates == Rates(1.0, map[])
    {
      queues := q;
      consent, rates, emitted, exportErrors := Full, Rates(1.0, map[]), 0, 0;
    }

    function DroppedLogs(): nat
      reads queues
    {
      Queues.Dropped(queues.View(), Queues.LOGS)
    }

    /** A record passes when consent, sampling and the queue all let it. */
    predicate Admits(level: Level, message: string, roll: real)
      reads this, queues
    {
      AllowsLog(consent, level) && Sampled(rates, message, roll) &&
        Queues.TryAcquire(queues.View(), Queues.LOGS).ticket.Some?
    }

    /** Exactly one of emitted and dropped moves, by one; the slot taken is back when Handle returns. */
    method Handle(level: Level, message: string, roll: real, sinkFails: bool) returns (failed: bool)
      modifies this`emitted, this`exportErrors, queues
      ensures queues.current == old(queues.current) && queues.chans == old(queues.chans)
      ensures old(Admits(level, message, roll)) ==> emitted == old(emitted) + 1 && DroppedLogs() == old(DroppedLogs())
      ensures !old(Admits(level, message, roll)) ==> emitted == old(emitted) && DroppedLogs() == old(DroppedLogs()) + 1
      ensures failed == (old(Admits(level, message, roll)) && sinkFails)
      ensures exportErrors == old(exportErrors) + if failed then 1 else 0
    {
      if !AllowsLog(consent, level) {
        queues.IncLogsDropped();
        return false;
      }
      if !Sampled(rates, message, roll) {
        queues.IncLogsDropped();
        return false;
      }
      var ticket := queues.TryAcquireSlot(Queues.LOGS);
      if ticket == None { return false; }
      emitted := emitted + 1;
      if sinkFails { exportErrors := exportErrors + 1; }
      queues.ReleaseSlot(ticket);
      assert queues.chans == old(queues.chans);
      return sinkFails;
    }
  }

  // ---- many records -------------------------------------------------------------------------------

  datatype Phase =
    | AtConsent
    | AtSampling
    | AtQueue
    | Writing   // ticket taken; in the base handler
    | Counted   // counted as emitted; the deferred release is pending
    | Turned    // counted as dropped; Handle is about to return

  datatype Call = Call(level: Level, message: string, phase: Phase)

  /** sunk: records the base handler returned for; refused: records a gate turned away; finished: records
      whose Handle has returned. */
  datatype System = System(
    consent: Consent, rates: Rates, queues: Queues.System, calls: map<Id, Call>,
    emitted: nat, exportErrors: nat, sunk: set<Id>, refused: set<Id>, finished: set<Id>)

  const Init := System(Full, Rates(1.0, map[]), Queues.Init, map[], 0, 0, {}, {}, {})

  function DroppedLogs(s: System): nat { Queues.Dropped(s.queues.q, Queues.LOGS) }

  datatype Step =
    | SetConsent(consent: Consent)
    | SetRates(rates: Rates)
    | OtherQueueUse(step: Queues.Step)
    | Start(id: Id, level: Level, message: string)
    | Gate(id: Id)
    | Sample(id: Id, roll: real)
    | Take(id: Id)
    | Sink(id: Id, fails: bool)
    | Finish(id: Id)

  predicate Known(s: System, id: Id) { id in s.calls || id in s.finished || id in s.queues.held }

  predicate InPhase(s: System, id: Id, p: Phase) { id in s.calls && s.calls[id].phase == p }

  /** Traces and metrics take and return tickets of their own; policies are swapped; setups begin and fail. */
  predicate OtherUse(s: System, step: Queues.Step) {
    && Queues.Enabled(s.queues, step)
    && (step.Acquire? ==> step.signal != Queues.LOGS && !Known(s, step.id))
    && (step.Return? ==> step.id !in s.calls)
  }

  predicate Enabled(s: System, step: Step) {
    match step
    case SetConsent(_) => true
    case SetRates(_) => true
    case OtherQueueUse(q) => OtherUse(s, q)
    case Start(id, _, _) => !Known(s, id)
    case Gate(id) => InPhase(s, id, AtConsent)
    case Sample(id, _) => InPhase(s, id, AtSampling)
    case Take(id) => InPhase(s, id, AtQueue)
    case Sink(id, _) => InPhase(s, id, Writing)
    case Finish(id) => InPhase(s, id, Counted) || InPhase(s, id, Turned)
  }

  function At(s: System, id: Id, p: Phase): System
    requires id in s.calls
  {
    s.(calls := s.calls[id := s.calls[id].(phase := p)])
  }

  /** A gate turns the record away and counts it. */
  function Refuse(s: System, id: Id, queues: Queues.System): System
    requires id in s.calls
  {
    At(s, id, Turned).(queues := queues, refused := s.refused + {id})
  }

  function CountDrop(q: Queues.System): Queues.System { q.(q := Queues.IncDropped(q.q, Queues.LOGS)) }

  function Apply(s: System, step: Step): System
    requires Enabled(s, step)
  {
    match step
    case SetConsent(c) => s.(consent := c)
    case SetRates(r) => s.(rates := r)
    case OtherQueueUse(q) => s.(queues := Queues.Apply(s.queues, q))
    case Start(id, level, message) => s.(calls := s.calls[id := Call(level, message, AtConsent)])
    case Gate(id) => if AllowsLog(s.consent, s.calls[id].level) then At(s, id, AtSampling)
      else Refuse(s, id, CountDrop(s.queues))
    case Sample(id, roll) =>
      if Sampled(s.rates, s.calls[id].message, roll) then At(s, id, AtQueue) else Refuse(s, id, CountDrop(s.queues))
    case Take(id) => Taken(s, id)
    case Sink(id, fails) =>
      At(s, id, Counted).(emitted := s.emitted + 1, exportErrors := s.exportErrors + (if fails then 1 else 0),
        sunk := s.sunk + {id})
    case Finish(id) =>
      var q := if id in s.queues.held then Queues.Apply(s.queues, Queues.Return(id)) else s.queues;
      s.(queues := q, calls := s.calls - {id}, finished := s.finished + {id})
  }

  function Taken(s: System, id: Id): System
    requires InPhase(s, id, AtQueue)
  {
    if id in s.queues.held then s
    else
      var q := Queues.Apply(s.queues, Queues.Acquire(id, Queues.LOGS));
      if id in q.held then At(s, id, Writing).(queues := q) else Refuse(s, id, q)
  }

  ghost predicate Runs(s: System, steps: seq<Step>, t: System)
    decreases |steps|
  {
    if steps == [] then s == t else Enabled(s, steps[0]) && Runs(Apply(s, steps[0]), steps[1..], t)
  }

  // ---- the invariant ------------------------------------------------------------------------------

  /** What the system knows of one record: where it is in Handle, what became of it, and the signal of the
      ticket it holds. */
  datatype Record = Record(phase: Option<Phase>, sunk: bool, refused: bool, finished: bool, ticket: Option<string>)

  function RecordOf(s: System, id: Id): Record {
    Record(
      if id in s.calls then Some(s.calls[id].phase) else None,
      id in s.sunk, id in s.refused, id in s.finished,
      if id in s.queues.held then Some(s.queues.held[id].signal) else None)
  }

  /** In flight: counted only in the last phases, holding a log ticket only past the queue gate. Otherwise:
      finished if and only if sunk or refused, never both, and then without a ticket. */
  predicate RecordOk(r: Record) {
    match r.phase
    case Some(p) =>
      && !r.finished && (r.refused <==> p == Turned) && (r.sunk <==> p == Counted)
      && r.ticket == (if p == Writing || p == Counted then Some(Queues.LOGS) else None)
    case None =>
      && (r.finished <==> r.sunk || r.refused) && !(r.sunk && r.refused)
      && (r.ticket.Some? ==> !r.finished && r.ticket.value != Queues.LOGS)
  }

  ghost predicate Sound(s: System) {
    && s.emitted == |s.sunk| && DroppedLogs(s) == |s.refused|
    && (forall id :: RecordOk(RecordOf(s, id)))
    && Queues.Sound(s.queues)
  }

  lemma InitSound()
    ensures Sound(Init)
  {
    Queues.InitSound();
    hide Queues.Sound;
  }

  /** What a step concerning record id must show. */
  lemma RecordStepKeepsSound(s: System, t: System, id: Id)
    requires Sound(s) && Queues.Sound(t.queues) && RecordOk(RecordOf(t, id))
    requires forall x :: x != id ==> RecordOf(t, x) == RecordOf(s, x)
    requires t.emitted == |t.sunk| && DroppedLogs(t) == |t.refused|
    ensures Sound(t)
  {
    hide Queues.Sound, RecordOf, RecordOk, DroppedLogs;
    forall x ensures RecordOk(RecordOf(t, x)) {
      assert RecordOk(RecordOf(s, x));
    }
  }

  // ---- the steps ----------------------------------------------------------------------------------

  predicate RefusedLog(s: Queues.System, t: Queues.System, step: Queues.Step) {
    step.Acquire? && step.signal == Queues.LOGS && t.held == s.held
  }

  /** What a queue step does to the log counter and to the tickets. */
  lemma QueueStep(s: Queues.System, step: Queues.Step)
    requires Queues.Sound(s) && Queues.Enabled(s, step)
    ensures var t := Queues.Apply(s, step);
      Queues.Sound(t) &&
      Queues.Dropped(t.q, Queues.LOGS) == Queues.Dropped(s.q, Queues.LOGS) + if RefusedLog(s, t, step) then 1 else 0
    ensures var t := Queues.Apply(s, step);
      if step.Acquire? then t.held == s.held || exists ch :: t.held == s.held[step.id := Queues.Ticket(step.signal, ch)]
      else if step.Return? then t.held == s.held - {step.id}
      else t.held == s.held
  {
    Queues.StepKeepsSound(s, step);
    hide Queues.Sound, Queues.BuildQueue;
    if step.Acquire? {
      var a := Queues.TryAcquire(s.q, step.signal);
      assert a.ticket.Some? ==>
        a.ticket.value == Queues.Ticket(step.signal, a.ticket.value.ch) && step.id in Queues.Apply(s, step).held;
    }
  }

  lemma CountDropKeeps(q: Queues.System)
    requires Queues.Sound(q)
    ensures Queues.Sound(CountDrop(q)) && CountDrop(q).held == q.held
    ensures Queues.Dropped(CountDrop(q).q, Queues.LOGS) == Queues.Dropped(q.q, Queues.LOGS) + 1
  {
    hide Queues.Conserved;
  }

  lemma RefuseKeepsSound(s: System, id: Id, q: Queues.System)
    requires Sound(s) && id in s.calls && s.calls[id].phase in {AtConsent, AtSampling, AtQueue}
    requires Queues.Sound(q) && q.held == s.queues.held && Queues.Dropped(q.q, Queues.LOGS) == DroppedLogs(s) + 1
    ensures Sound(Refuse(s, id, q))
  {
    hide Queues.Sound, Queues.Dropped;
    assert RecordOk(RecordOf(s, id));
    var t := Refuse(s, id, q);
    RefusedRecord(s, id, q);
    assert DroppedLogs(t) == |t.refused|;
    hide Sound, RecordOf, RecordOk, DroppedLogs, Refuse;
    RecordStepKeepsSound(s, t, id);
  }

  /** What a refusal does to the records. */
  lemma RefusedRecord(s: System, id: Id, q: Queues.System)
    requires id in s.calls && q.held == s.queues.held
    ensures var t := Refuse(s, id, q);
      t.emitted == s.emitted && t.sunk == s.sunk && t.queues == q && t.refused == s.refused + {id} &&
      RecordOf(t, id) == RecordOf(s, id).(phase := Some(Turned), refused := true) &&
      forall x :: x != id ==> RecordOf(t, x) == RecordOf(s, x)
  {}

  lemma GateKeepsSound(s: System, id: Id, p: Phase)
    requires Sound(s) && id in s.calls && s.calls[id].phase in {AtConsent, AtSampling, AtQueue} &&
      p in {AtSampling, AtQueue}
    ensures Sound(At(s, id, p)) && Sound(Refuse(s, id, CountDrop(s.queues)))
  {
    CountDropKeeps(s.queues);
    hide Queues.Sound, Queues.Dropped, CountDrop;
    assert RecordOk(RecordOf(s, id));
    RefuseKeepsSound(s, id, CountDrop(s.queues));
    RecordStepKeepsSound(s, At(s, id, p), id);
  }

  lemma TakeKeepsSound(s: System, id: Id)
    requires Sound(s) && InPhase(s, id, AtQueue)
    ensures Sound(Taken(s, id))
  {
    hide Queues.Sound, Queues.Dropped, Queues.Apply;
    var step := Queues.Acquire(id, Queues.LOGS);
    assert RecordOk(RecordOf(s, id));
    QueueStep(s.queues, step);
    var q := Queues.Apply(s.queues, step);
    hide Sound;
    if id in q.held {
      RecordStepKeepsSound(s, Taken(s, id), id);
    } else {
      RefuseKeepsSound(s, id, q);
    }
  }

  lemma SinkKeepsSound(s: System, id: Id, fails: bool)
    requires Sound(s) && Enabled(s, Sink(id, fails))
    ensures Sound(Apply(s, Sink(id, fails)))
  {
    hide Queues.Sound, Queues.Dropped;
    assert RecordOk(RecordOf(s, id));
    RecordStepKeepsSound(s, Apply(s, Sink(id, fails)), id);
  }

  lemma FinishKeepsSound(s: System, id: Id)
    requires Sound(s) && Enabled(s, Finish(id))
    ensures Sound(Apply(s, Finish(id)))
  {
    hide Queues.Sound, Queues.Dropped, Queues.Apply;
    assert RecordOk(RecordOf(s, id));
    if id in s.queues.held { QueueStep(s.queues, Queues.Return(id)); }
    RecordStepKeepsSound(s, Apply(s, Finish(id)), id);
  }

  lemma OtherUseKeepsSound(s: System, step: Queues.Step)
    requires Sound(s) && OtherUse(s, step)
    ensures Sound(Apply(s, OtherQueueUse(step)))
  {
    hide Queues.Sound, Queues.Dropped, Queues.Apply;
    QueueStep(s.queues, step);
    var id := if step.Acquire? || step.Return? then step.id else 0;
    assert RecordOk(RecordOf(s, id));
    RecordStepKeepsSound(s, Apply(s, OtherQueueUse(step)), id);
  }

  lemma StartKeepsSound(s: System, id: Id, level: Level, message: string)
    requires Sound(s) && !Known(s, id)
    ensures Sound(Apply(s, Start(id, level, message)))
  {
    hide Queues.Sound, Queues.Dropped;
    assert RecordOk(RecordOf(s, id));
    RecordStepKeepsSound(s, Apply(s, Start(id, level, message)), id);
  }

  /** Every step keeps the books and the tickets. */
  lemma StepKeepsSound(s: System, step: Step)
    requires Sound(s) && Enabled(s, step)
    ensures Sound(Apply(s, step))
  {
    hide Sound, CountDrop;
    match step
    case SetConsent(_) => PolicyKeepsSound(s, Apply(s, step));
    case SetRates(_) => PolicyKeepsSound(s, Apply(s, step));
    case OtherQueueUse(q) => OtherUseKeepsSound(s, q);
    case Start(id, level, message) => StartKeepsSound(s, id, level, message);
    case Gate(id) => GateKeepsSound(s, id, AtSampling);
    case Sample(id, _) => GateKeepsSound(s, id, AtQueue);
    case Take(id) => TakeKeepsSound(s, id);
    case Sink(id, fails) => SinkKeepsSound(s, id, fails);
    case Finish(id) => FinishKeepsSound(s, id);
  }

  lemma PolicyKeepsSound(s: System, t: System)
    requires Sound(s) && t == s.(consent := t.consent, rates := t.rates)
    ensures Sound(t)
  {
    hide Queues.Sound, RecordOk, DroppedLogs;
    forall id ensures RecordOk(RecordOf(t, id)) { assert RecordOk(RecordOf(s, id)); }
    assert DroppedLogs(t) == DroppedLogs(s) by { SameDrops(s, t); }
  }

  lemma SameDrops(s: System, t: System)
    requires t.queues == s.queues
    ensures DroppedLogs(t) == DroppedLogs(s)
  {}

  lemma {:induction false} RunsSound(s: System, steps: seq<Step>, t: System)
    requires Sound(s) && Runs(s, steps, t)
    ensures Sound(t)
    decreases |steps|
  {
    hide Sound, Apply, Enabled;
    if steps != [] {
      StepKeepsSound(s, steps[0]);
      RunsSound(Apply(s, steps[0]), steps[1..], t);
    }
  }

  // ---- what every run satisfies -------------------------------------------------------------------

  /** Records already counted whose Handle has yet to return. */
  function Returning(s: System): set<Id> {
    set id | id in s.calls && (s.calls[id].phase == Counted || s.calls[id].phase == Turned)
  }

  lemma RecordFields(s: System, id: Id)
    ensures var r := RecordOf(s, id);
      r.sunk == (id in s.sunk) && r.refused == (id in s.refused) && r.finished == (id in s.finished) &&
      (r.phase in {Some(Counted), Some(Turned)} <==> id in Returning(s))
  {}

  lemma DisjointSizes(a: set<Id>, b: set<Id>)
    requires a !! b
    ensures |a + b| == |a| + |b|
  {}

  /** Emitted plus dropped is the number of finished records, plus those counted and on their way out; no
      record counts as both. */
  lemma EmittedPlusDropped(steps: seq<Step>, t: System)
    requires Runs(Init, steps, t)
    ensures t.emitted + DroppedLogs(t) == |t.finished| + |Returning(t)|
    ensures t.emitted == |t.sunk| && DroppedLogs(t) == |t.refused| && t.sunk !! t.refused
    ensures t.calls == map[] ==> t.emitted + DroppedLogs(t) == |t.finished| && t.finished == t.sunk + t.refused
  {
    InitSound();
    hide Runs, Queues.Sound, DroppedLogs, RecordOf;
    RunsSound(Init, steps, t);
    forall id ensures RecordOf(t, id).sunk == (id in t.sunk) && RecordOf(t, id).refused == (id in t.refused) &&
      RecordOf(t, id).finished == (id in t.finished) &&
      (RecordOf(t, id).phase in {Some(Counted), Some(Turned)} <==> id in Returning(t))
    {
      RecordFields(t, id);
    }
    forall id
      ensures id in t.sunk + t.refused <==> id in t.finished + Returning(t)
    {
      assert RecordOk(RecordOf(t, id));
    }
    forall id
      ensures !(id in t.sunk && id in t.refused) && !(id in t.finished && id in Returning(t))
    {
      assert RecordOk(RecordOf(t, id));
    }
    assert t.sunk + t.refused == t.finished + Returning(t);
    DisjointSizes(t.sunk, t.refused);
    DisjointSizes(t.finished, Returning(t));
  }

  /** A record holds a ticket exactly while it is past the queue gate, so with no record in flight every log
      ticket is back, and what is left in any channel belongs to other signals. */
  lemma TicketsReturned(steps: seq<Step>, t: System, id: Id)
    requires Runs(Init, steps, t)
    ensures id in t.finished ==> id !in t.queues.held
    ensures t.calls == map[] && id in t.queues.held ==> t.queues.held[id].signal != Queues.LOGS
    ensures t.calls == map[] && t.queues.held == map[] ==>
      forall c :: 0 <= c < |t.queues.q.chans| ==> t.queues.q.chans[c].used == 0
  {
    InitSound();
    hide Runs;
    RunsSound(Init, steps, t);
    assert RecordOk(RecordOf(t, id));
    if t.queues.held == map[] {
      forall c | 0 <= c < |t.queues.q.chans| ensures t.queues.q.chans[c].used == 0 {
        assert Queues.Bound(t.queues.held, c) == {};
      }
    }
  }
}
