/** Every interleaving of exporter calls on every signal (go/resilience.go:83-222). One step is one critical
    section of _resilienceMu, so steps of different calls mix freely; policies may change at any time, and a
    call keeps the policy it read on entry. */
module ResilienceRuns {
  import opened Common
  import opened Resilience

  type Id = nat

  datatype Phase =
    | Entered                                   // policy read, breaker not yet consulted
    | Attempting(claimed: bool, attempt: nat)   // in the exporter; claimed: set the probe flag, recorded nothing

  datatype Call = Call(signal: Signal, policy: Policy, phase: Phase)

  datatype System = System(policies: map<Signal, Policy>, circuits: map<Signal, Circuit>, calls: map<Id, Call>)

  const Init := System(map[], map[], map[])

  function At(s: System, signal: Signal): Circuit { if signal in s.circuits then s.circuits[signal] else Untouched }

  function PolicyOf(s: System, signal: Signal): Policy {
    if signal in s.policies then s.policies[signal] else DefaultPolicy
  }

  datatype Step =
    | SetPolicy(signal: Signal, policy: Policy)
    | Enter(id: Id, on: Signal)
    | Consult(id: Id, now: int)
    | Return(id: Id, outcome: Outcome, now: int)

  predicate Enabled(s: System, step: Step) {
    match step
    case SetPolicy(_, _) => true
    case Enter(id, _) => id !in s.calls
    case Consult(id, _) => id in s.calls && s.calls[id].phase == Entered
    case Return(id, _, _) => id in s.calls && s.calls[id].phase.Attempting?
  }

  function Consulted(s: System, id: Id, now: int): System
    requires Enabled(s, Consult(id, now))
  {
    var c := s.calls[id];
    if !c.policy.timeoutEnabled then s.(calls := s.calls[id := c.(phase := Attempting(false, 0))])
    else
      var v := Check(At(s, c.signal), now);
      if v.reject then s.(calls := s.calls - {id})
      else System(s.policies, s.circuits[c.signal := v.circuit],
        s.calls[id := c.(phase := Attempting(v.circuit.probing, 0))])
  }

  function Returned(s: System, id: Id, outcome: Outcome, now: int): System
    requires Enabled(s, Return(id, outcome, now))
  {
    var c := s.calls[id];
    var circuits := s.circuits[c.signal := Record(At(s, c.signal), outcome, now)];
    var next := c.phase.attempt + 1;
    if outcome == Succeeded || next >= Attempts(c.policy) then System(s.policies, circuits, s.calls - {id})
    else System(s.policies, circuits, s.calls[id := c.(phase := Attempting(false, next))])
  }

  function Apply(s: System, step: Step): System
    requires Enabled(s, step)
  {
    match step
    case SetPolicy(signal, policy) => s.(policies := s.policies[signal := policy])
    case Enter(id, on) => s.(calls := s.calls[id := Call(on, PolicyOf(s, on), Entered)])
    case Consult(id, now) => Consulted(s, id, now)
    case Return(id, outcome, now) => Returned(s, id, outcome, now)
  }

  ghost predicate Runs(s: System, steps: seq<Step>, t: System)
    decreases |steps|
  {
    if steps == [] then s == t else Enabled(s, steps[0]) && Runs(Apply(s, steps[0]), steps[1..], t)
  }

  // ---- the invariant ------------------------------------------------------------------------------

  predicate Claims(c: Call, signal: Signal) { c.signal == signal && c.phase == Attempting(true, 0) }

  /** Some call in flight set the probe flag and has not recorded its first attempt. */
  predicate HasProber(calls: map<Id, Call>, signal: Signal) { exists id :: id in calls && Claims(calls[id], signal) }

  predicate CallOk(c: Call) {
    c.phase.Attempting? ==>
      c.phase.attempt < Attempts(c.policy) && (c.phase.claimed ==> c.phase.attempt == 0 && c.policy.timeoutEnabled)
  }

  ghost predicate Sound(s: System) {
    && (forall signal :: CircuitOk(At(s, signal)))
    && (forall signal :: At(s, signal).probing ==> HasProber(s.calls, signal))
    && (forall id :: id in s.calls ==> CallOk(s.calls[id]))
  }

  /** What a step of call id on signal must show. */
  lemma SignalStepKeepsSound(s: System, t: System, id: Id, signal: Signal)
    requires Sound(s) && (id in s.calls ==> s.calls[id].signal == signal) && CircuitOk(At(t, signal))
    requires t.circuits == s.circuits || t.circuits == s.circuits[signal := At(t, signal)]
    requires forall x :: x in t.calls && x != id ==> x in s.calls && t.calls[x] == s.calls[x]
    requires forall x :: x in s.calls && x != id ==> x in t.calls
    requires id in t.calls ==> CallOk(t.calls[id]) && t.calls[id].signal == signal
    requires At(t, signal).probing ==> HasProber(t.calls, signal)
    ensures Sound(t)
  {
    hide CircuitOk, CallOk;
    forall x ensures CircuitOk(At(t, x)) && (At(t, x).probing ==> HasProber(t.calls, x)) {
      assert CircuitOk(At(s, x));
      if x != signal && At(t, x).probing {
        assert HasProber(s.calls, x);
        var y :| y in s.calls && Claims(s.calls[y], x);
        assert y in t.calls && Claims(t.calls[y], x);
      }
    }
  }

  lemma ConsultKeepsSound(s: System, id: Id, now: int)
    requires Sound(s) && Enabled(s, Consult(id, now))
    ensures Sound(Consulted(s, id, now))
  {
    hide Check;
    var c, t := s.calls[id], Consulted(s, id, now);
    var was := At(s, c.signal);
    assert CircuitOk(was) && CallOk(c);
    StepsKeepOk(was, now, false);
    ProbingRejects(was, now);
    if was.probing {
      assert HasProber(s.calls, c.signal);
      var y :| y in s.calls && Claims(s.calls[y], c.signal);
      assert y != id;
      assert c.policy.timeoutEnabled ==> t.calls == s.calls - {id};
      assert y in t.calls && Claims(t.calls[y], c.signal);
    } else if At(t, c.signal).probing {
      assert Claims(t.calls[id], c.signal);
    }
    hide Sound;
    SignalStepKeepsSound(s, t, id, c.signal);
  }

  /** While the flag is set the breaker rejects, and a check that sets the flag admits. */
  lemma ProbingRejects(c: Circuit, now: int)
    requires CircuitOk(c)
    ensures c.probing ==> Check(c, now) == Verdict(true, c)
    ensures Check(c, now).reject ==> Check(c, now).circuit == c
  {}

  lemma ReturnKeepsSound(s: System, id: Id, outcome: Outcome, now: int)
    requires Sound(s) && Enabled(s, Return(id, outcome, now))
    ensures Sound(Returned(s, id, outcome, now))
  {
    var c, t := s.calls[id], Returned(s, id, outcome, now);
    assert CircuitOk(At(s, c.signal)) && CallOk(c);
    hide Sound;
    StepsKeepOk(At(s, c.signal), now, outcome.Failed? && outcome.isTimeout);
    SignalStepKeepsSound(s, t, id, c.signal);
  }

  /** Every step of every call keeps the breaker sound. */
  lemma StepKeepsSound(s: System, step: Step)
    requires Sound(s) && Enabled(s, step)
    ensures Sound(Apply(s, step))
  {
    match step
    case SetPolicy(_, _) =>
      assert forall x :: At(Apply(s, step), x) == At(s, x);
    case Enter(id, on) =>
      var t := Apply(s, step);
      assert CircuitOk(At(s, on));
      if At(s, on).probing {
        assert HasProber(s.calls, on);
        var y :| y in s.calls && Claims(s.calls[y], on);
        assert y in t.calls && Claims(t.calls[y], on);
      }
      hide Sound;
      SignalStepKeepsSound(s, t, id, on);
    case Consult(id, now) => ConsultKeepsSound(s, id, now);
    case Return(id, outcome, now) => ReturnKeepsSound(s, id, outcome, now);
  }

  lemma {:induction false} RunsSound(s: System, steps: seq<Step>, t: System)
    requires Sound(s) && Runs(s, steps, t)
    ensures Sound(t)
    decreases |steps|
  {
    hide Sound, Enabled, Apply;
    if steps != [] {
      StepKeepsSound(s, steps[0]);
      RunsSound(Apply(s, steps[0]), steps[1..], t);
    }
  }

  lemma ReachedSound(steps: seq<Step>, t: System)
    requires Runs(Init, steps, t)
    ensures Sound(t)
  {
    assert Sound(Init);
    hide Runs, Sound;
    RunsSound(Init, steps, t);
  }

  // ---- what every run satisfies -------------------------------------------------------------------

  /** Probing implies three timeouts in a row implies an opened circuit; the clamp at zero never acts; and an
      open circuit's cooldown is 60 to 1024 seconds as long as the open count is at most 28. */
  lemma BreakerBounds(steps: seq<Step>, t: System, signal: Signal)
    requires Runs(Init, steps, t)
    ensures var c := At(t, signal);
      && (c.probing ==> c.timeouts >= 3)
      && (c.timeouts >= 3 ==> c.openCount >= 1)
      && RecordSuccess(c).openCount == c.openCount - (if c.probing then 1 else 0)
      && (c.timeouts >= 3 && c.openCount <= 28 ==>
           Cooldown(c.openCount) == IntendedCooldown(c.openCount) &&
             60_000_000_000 <= Cooldown(c.openCount) <= 1024_000_000_000)
  {
    hide Runs, Cooldown, IntendedCooldown;
    ReachedSound(steps, t);
    var c := At(t, signal);
    StepsKeepOk(c, 0, false);
    CooldownExact(c.openCount);
  }

  /** A set probe flag has an owner in flight that has recorded nothing; no call in flight means no flag. */
  lemma ProbeHasOwner(steps: seq<Step>, t: System, signal: Signal)
    requires Runs(Init, steps, t)
    ensures At(t, signal).probing ==>
      exists id :: id in t.calls && t.calls[id].signal == signal && t.calls[id].phase == Attempting(true, 0)
    ensures t.calls == map[] ==> !At(t, signal).probing
  {
    hide Runs, CircuitOk, CallOk;
    ReachedSound(steps, t);
    if At(t, signal).probing {
      var id :| id in t.calls && Claims(t.calls[id], signal);
    }
  }

  /** While the flag is set every timeout-enabled call of that signal is turned away, and changes nothing. */
  lemma NoneAdmittedWhileProbing(steps: seq<Step>, t: System, id: Id, now: int)
    requires Runs(Init, steps, t) && Enabled(t, Consult(id, now))
    requires t.calls[id].policy.timeoutEnabled && At(t, t.calls[id].signal).probing
    ensures Consulted(t, id, now) == t.(calls := t.calls - {id})
  {
    hide Runs, Check;
    ReachedSound(steps, t);
    ProbingRejects(At(t, t.calls[id].signal), now);
  }

  /** The check and the report agree in every reachable state whose open count is at most 28. */
  lemma ReportMatchesNextCheck(steps: seq<Step>, t: System, signal: Signal, now: int)
    requires Runs(Init, steps, t) && At(t, signal).openCount <= 28 && now >= At(t, signal).trippedAt
    ensures Agrees(At(t, signal), now)
  {
    hide Runs, Agrees;
    ReachedSound(steps, t);
    ReportAgrees(At(t, signal), now);
  }

  // ---- who settles a probe ------------------------------------------------------------------------

  /** A call of that signal records an attempt. */
  predicate RecordsOn(s: System, step: Step, signal: Signal) {
    step.Return? && step.id in s.calls && s.calls[step.id].signal == signal
  }

  /** No call of that signal records along the run. */
  ghost predicate Quiet(s: System, steps: seq<Step>, signal: Signal)
    decreases |steps|
  {
    steps == [] || (Enabled(s, steps[0]) && !RecordsOn(s, steps[0], signal) &&
      Quiet(Apply(s, steps[0]), steps[1..], signal))
  }

  predicate ProbedBy(s: System, id: Id, signal: Signal) {
    At(s, signal).probing && id in s.calls && Claims(s.calls[id], signal)
  }

  lemma QuietStepKeepsProbe(s: System, step: Step, id: Id, signal: Signal)
    requires Sound(s) && Enabled(s, step) && !RecordsOn(s, step, signal) && ProbedBy(s, id, signal)
    ensures ProbedBy(Apply(s, step), id, signal)
  {
    hide Check, Record;
    if step.Consult? {
      var was := At(s, s.calls[step.id].signal);
      assert CircuitOk(was);
      ProbingRejects(was, step.now);
    }
  }

  /** While no call of the signal records, the flag stays set and its owner stays in flight. */
  lemma {:induction false} QuietKeepsProbe(s: System, steps: seq<Step>, t: System, id: Id, signal: Signal)
    requires Sound(s) && Runs(s, steps, t) && Quiet(s, steps, signal) && ProbedBy(s, id, signal)
    ensures Sound(t) && ProbedBy(t, id, signal)
    decreases |steps|
  {
    hide Sound, Apply, Enabled, ProbedBy, RecordsOn;
    if steps != [] {
      StepKeepsSound(s, steps[0]);
      QuietStepKeepsProbe(s, steps[0], id, signal);
      QuietKeepsProbe(Apply(s, steps[0]), steps[1..], t, id, signal);
    }
  }

  /** The first record of the signal after a claim clears the flag, whoever makes it; so the probe is settled by
      the call that claimed it exactly if no other call of the signal records first. A call admitted before the
      circuit opened is such a call, and the owner of the flag goes on unrecorded. */
  lemma FirstRecordSettles(s: System, steps: seq<Step>, t: System, id: Id, signal: Signal, step: Step)
    requires Sound(s) && ProbedBy(s, id, signal) && Runs(s, steps, t) && Quiet(s, steps, signal)
    requires Enabled(t, step) && RecordsOn(t, step, signal)
    ensures ProbedBy(t, id, signal) && !At(Apply(t, step), signal).probing
    ensures step.id == id <==> !(id in Apply(t, step).calls && Claims(Apply(t, step).calls[id], signal))
  {
    hide Sound, Runs, Quiet;
    QuietKeepsProbe(s, steps, t, id, signal);
  }

  // ---- exporters that return ----------------------------------------------------------------------

  function CallWork(c: Call): nat {
    match c.phase
    case Entered => MAX_ATTEMPTS + 1
    case Attempting(_, n) => if n < MAX_ATTEMPTS then MAX_ATTEMPTS - n else 0
  }

  ghost function WorkTable(calls: map<Id, Call>): map<Id, nat> { map id | id in calls :: CallWork(calls[id]) }

  /** Steps the calls in flight can still take between them. */
  ghost function Work(calls: map<Id, Call>): nat { MapSum(WorkTable(calls)) }

  /** The steps by which calls in flight get on: consulting the breaker, and an exporter returning. */
  predicate Advances(step: Step) { step.Consult? || step.Return? }

  /** A step of call id uses up at least one of the steps it has left, and leaves the other calls alone. */
  lemma StepSpends(s: System, step: Step)
    requires Sound(s) && Enabled(s, step) && Advances(step)
    ensures var t := Apply(s, step); var id := step.id;
      id in s.calls && t.calls - {id} == s.calls - {id} &&
      (if id in t.calls then CallWork(t.calls[id]) else 0) < CallWork(s.calls[id])
  {
    hide Check, Record;
    assert CallOk(s.calls[step.id]);
  }

  lemma WorkPull(calls: map<Id, Call>, id: Id)
    ensures Work(calls) == (if id in calls then CallWork(calls[id]) else 0) + Work(calls - {id})
  {
    hide CallWork, MapSum;
    if id in calls {
      MapSumPull(WorkTable(calls), id);
      assert WorkTable(calls) - {id} == WorkTable(calls - {id});
    } else {
      assert calls - {id} == calls;
    }
  }

  lemma StepSpendsWork(s: System, step: Step)
    requires Sound(s) && Enabled(s, step) && Advances(step)
    ensures Work(Apply(s, step).calls) < Work(s.calls)
  {
    hide Sound, Apply, Enabled, CallWork, Work;
    StepSpends(s, step);
    WorkPull(s.calls, step.id);
    WorkPull(Apply(s, step).calls, step.id);
  }

  predicate AllAdvance(steps: seq<Step>) { forall i :: 0 <= i < |steps| ==> Advances(steps[i]) }

  /** Whatever the schedule and whatever the exporters return, the calls in flight take no more steps than
      they have left. */
  lemma {:induction false} ScheduleBounded(s: System, steps: seq<Step>, t: System)
    requires Sound(s) && Runs(s, steps, t) && AllAdvance(steps)
    ensures Sound(t) && |steps| + Work(t.calls) <= Work(s.calls)
    decreases |steps|
  {
    hide Sound, Apply, Enabled, Work, Advances;
    if steps != [] {
      assert Advances(steps[0]);
      StepKeepsSound(s, steps[0]);
      StepSpendsWork(s, steps[0]);
      ScheduleBounded(Apply(s, steps[0]), steps[1..], t);
    }
  }

  ghost predicate Stuck(s: System) { forall step :: Advances(step) ==> !Enabled(s, step) }

  /** A call in flight can always get on, so only a system without calls is stuck. */
  lemma StuckIff(s: System)
    ensures Stuck(s) <==> s.calls == map[]
  {
    if s.calls != map[] {
      var id :| id in s.calls;
      assert Advances(Consult(id, 0)) && Advances(Return(id, Succeeded, 0));
      assert Enabled(s, Consult(id, 0)) || Enabled(s, Return(id, Succeeded, 0));
    }
  }

  /** If exporters return, then in every schedule, with every outcome, the calls in flight end within a bounded
      number of steps: a schedule that goes on until nothing can get on leaves no call and no probing signal. */
  lemma AllFinish(s: System, steps: seq<Step>, t: System)
    requires Sound(s) && Runs(s, steps, t) && AllAdvance(steps)
    ensures |steps| <= Work(s.calls)
    ensures Stuck(t) <==> t.calls == map[]
    ensures Stuck(t) ==> forall signal :: !At(t, signal).probing
  {
    hide Runs, CircuitOk, CallOk, Work, Stuck;
    ScheduleBounded(s, steps, t);
    StuckIff(t);
    if t.calls == map[] {
      forall signal ensures !At(t, signal).probing { assert !HasProber(t.calls, signal); }
    }
  }

  // ---- one call among others ----------------------------------------------------------------------

  function StepsOf(steps: seq<Step>, id: Id): nat {
    if steps == [] then 0 else (if Advances(steps[0]) && steps[0].id == id then 1 else 0) + StepsOf(steps[1..], id)
  }

  function LeftFor(s: System, id: Id): nat { if id in s.calls then CallWork(s.calls[id]) else 0 }

  /** However many other calls enter, record and end meanwhile, and however policies change, one call takes at
      most the steps it has left: one to consult the breaker and one for each of its at most 101 attempts. */
  lemma {:induction false} CallBounded(s: System, steps: seq<Step>, t: System, id: Id)
    requires Sound(s) && Runs(s, steps, t) && forall i :: 0 <= i < |steps| ==> !(steps[i].Enter? && steps[i].id == id)
    ensures StepsOf(steps, id) + LeftFor(t, id) <= LeftFor(s, id)
    decreases |steps|
  {
    hide Sound, Apply, Enabled, LeftFor, Advances;
    if steps != [] {
      var step := steps[0];
      assert !(step.Enter? && step.id == id);
      StepKeepsSound(s, step);
      OthersLeaveItAlone(s, step, id);
      CallBounded(Apply(s, step), steps[1..], t, id);
    }
  }

  lemma OthersLeaveItAlone(s: System, step: Step, id: Id)
    requires Sound(s) && Enabled(s, step) && !(step.Enter? && step.id == id)
    ensures (if Advances(step) && step.id == id then 1 else 0) + LeftFor(Apply(s, step), id) <= LeftFor(s, id)
  {
    if Advances(step) {
      StepSpends(s, step);
      hide Sound, Apply, Enabled, CallWork;
      var t := Apply(s, step);
      assert id != step.id ==>
        (id in t.calls <==> id in t.calls - {step.id}) && (id in s.calls <==> id in s.calls - {step.id});
      if id != step.id && id in t.calls {
        assert t.calls[id] == (t.calls - {step.id})[id] == (s.calls - {step.id})[id] == s.calls[id];
      }
    }
  }
}
