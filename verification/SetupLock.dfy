/** The setup mutex beside the sink locks (go/setup.go:102-106): setup, shutdown and reconfigure hold it while
    they write to or flush a sink, and GetLogger asks for it from wherever it is called, a host writer included
    (go/logger.go:633, go/runtime.go:72-76). */
module SetupLock {
  import opened Common
  import SinkLock

  type Gid = SinkLock.Gid

  /** The goroutine that holds the mutex, and how many sink calls it was in when it asked. */
  datatype Owner = Owner(g: Gid, depth: nat)

  /** asking: the goroutines blocked in, or about to enter, the mutex's Lock. */
  datatype State = State(sinks: SinkLock.State, asking: set<Gid>, owner: Option<Owner>)

  const Init := State(SinkLock.Init, {}, None)

  function Calls(s: State, g: Gid): seq<SinkLock.Call> { SinkLock.Stack(s.sinks, g) }

  predicate Owns(s: State, g: Gid) { s.owner.Some? && s.owner.value.g == g }

  /** The call that holds the mutex is g's innermost: no sink call has been made from it that is still running. */
  predicate SetupOnTop(s: State, g: Gid) { Owns(s, g) && |Calls(s, g)| == s.owner.value.depth }

  /** g runs the host's code, outside the SDK or inside a writer. */
  predicate InHostCode(s: State, g: Gid) { Calls(s, g) == [] || SinkLock.TopIs(s.sinks, g, SinkLock.Writing) }

  datatype Step = Sink(step: SinkLock.Step) | Ask(g: Gid) | Enter(g: Gid) | Leave(g: Gid)

  predicate Enabled(s: State, step: Step) {
    match step
    case Sink(k) =>
      && SinkLock.Enabled(s.sinks, k)
      && (k.Evict? || (k.g !in s.asking && (SetupOnTop(s, k.g) ==> k.Begin?)))
    case Ask(g) => g !in s.asking && InHostCode(s, g) && !SetupOnTop(s, g)
    case Enter(g) => g in s.asking && s.owner == None
    case Leave(g) => g !in s.asking && SetupOnTop(s, g)
  }

  function Apply(s: State, step: Step): State
    requires Enabled(s, step)
  {
    match step
    case Sink(k) => s.(sinks := SinkLock.Apply(s.sinks, k))
    case Ask(g) => s.(asking := s.asking + {g})
    case Enter(g) => s.(asking := s.asking - {g}, owner := Some(Owner(g, |Calls(s, g)|)))
    case Leave(g) => s.(owner := None)
  }

  ghost predicate Runs(s: State, steps: seq<Step>, t: State)
    decreases |steps|
  {
    if steps == [] then s == t else Enabled(s, steps[0]) && Runs(Apply(s, steps[0]), steps[1..], t)
  }

  // ---- the invariant ------------------------------------------------------------------------------

  /** Whoever asks does so from host code, and the owner's calls from below its own are all in their writers. */
  ghost predicate Sound(s: State) {
    && SinkLock.Sound(s.sinks)
    && (forall g :: g in s.asking ==> InHostCode(s, g) && !SetupOnTop(s, g))
    && (s.owner.Some? ==>
      var o := s.owner.value; o.depth <= |Calls(s, o.g)| && (|Calls(s, o.g)| == o.depth ==> InHostCode(s, o.g)))
  }

  /** A sink step leaves every other goroutine's calls alone, and its own calls change at the top only. */
  lemma SinkStepFrame(s: SinkLock.State, k: SinkLock.Step, g: Gid)
    requires SinkLock.Enabled(s, k) && SinkLock.Sound(s)
    ensures k.Evict? || g != k.g ==> SinkLock.Stack(SinkLock.Apply(s, k), g) == SinkLock.Stack(s, g)
    ensures !k.Evict? && !k.Begin? ==>
      var was, now := SinkLock.Stack(s, k.g), SinkLock.Stack(SinkLock.Apply(s, k), k.g);
      was != [] && if k.Return? then now == was[..|was| - 1] else |now| == |was| && now[..|was| - 1] == was[..|was| - 1]
  {
    hide SinkLock.Sound, SinkLock.InsideHostWriter;
  }

  /** After a Return the goroutine is back in host code. */
  lemma ReturnsToHost(s: SinkLock.State, k: SinkLock.Step)
    requires SinkLock.Enabled(s, k) && SinkLock.Sound(s) && k.Return?
    ensures var t := SinkLock.Apply(s, k); SinkLock.Stack(t, k.g) == [] || SinkLock.TopIs(t, k.g, SinkLock.Writing)
  {
    hide SinkLock.Sound, SinkLock.Apply;
    SinkLock.SoundAt(s, k.g);
    SinkStepFrame(s, k, k.g);
  }

  lemma StepKeepsSound(s: State, step: Step)
    requires Sound(s) && Enabled(s, step)
    ensures Sound(Apply(s, step))
  {
    var t := Apply(s, step);
    match step
    case Sink(k) =>
      SinkLock.StepKeepsSound(s.sinks, k);
      hide SinkLock.Sound, SinkLock.Apply, SinkLock.Enabled;
      forall g | g in s.asking ensures InHostCode(t, g) && !SetupOnTop(t, g) { SinkStepFrame(s.sinks, k, g); }
      if s.owner.Some? {
        SinkStepFrame(s.sinks, k, s.owner.value.g);
        OwnerStepSound(s, k);
      }
    case Ask(g) => hide SinkLock.Sound;
    case Enter(g) => hide SinkLock.Sound;
    case Leave(g) => hide SinkLock.Sound;
  }

  lemma OwnerStepSound(s: State, k: SinkLock.Step)
    requires Sound(s) && Enabled(s, Sink(k)) && s.owner.Some?
    ensures var t, o := Apply(s, Sink(k)), s.owner.value;
      o.depth <= |Calls(t, o.g)| && (|Calls(t, o.g)| == o.depth ==> InHostCode(t, o.g))
  {
    hide SinkLock.Sound;
    var o := s.owner.value;
    SinkStepFrame(s.sinks, k, o.g);
    if k.Return? { ReturnsToHost(s.sinks, k); }
  }

  lemma {:induction false} RunsSound(s: State, steps: seq<Step>, t: State)
    requires Sound(s) && Runs(s, steps, t)
    ensures Sound(t)
    decreases |steps|
  {
    hide Sound, Apply, Enabled;
    if steps != [] {
      StepKeepsSound(s, steps[0]);
      RunsSound(Apply(s, steps[0]), steps[1..], t);
    }
  }

  lemma InitSound()
    ensures Sound(Init) && !Doomed(Init)
  {
    SinkLock.InitSound();
  }

  // ---- deadlock -----------------------------------------------------------------------------------

  /** m, which holds no sink lock, needs one that x holds. */
  predicate Needs(s: State, m: Gid, x: Gid) {
    && |Calls(s, m)| == 1
    && Calls(s, m)[0].phase in {SinkLock.Trying, SinkLock.Contended, SinkLock.Waiting}
    && SinkLock.IsHolder(s.sinks.holder, Calls(s, m)[0].sink, x)
  }

  /** Somebody asks for the mutex whose owner is itself, or needs a sink lock that the asking goroutine holds. */
  predicate Doomed(s: State) {
    s.owner.Some? && exists x :: x in s.asking && (Owns(s, x) || Needs(s, s.owner.value.g, x))
  }

  /** A call made from inside a writer by the mutex's owner or by the holder of a lock the owner needs; or a
      write or flush by the owner, outside any writer, on a sink whose holder asks for the mutex. */
  predicate Dooms(s: State, step: Step) {
    match step
    case Ask(g) => s.owner.Some? && (Owns(s, g) || Needs(s, s.owner.value.g, g))
    case Sink(Begin(g, sink, _, _, _)) =>
      Owns(s, g) && Calls(s, g) == [] && sink in s.sinks.holder && s.sinks.holder[sink] in s.asking
    case _ => false
  }

  /** Only its holder frees a lock. */
  lemma OnlyHolderFrees(s: SinkLock.State, k: SinkLock.Step, sink: SinkLock.Sink, x: Gid)
    requires SinkLock.Sound(s) && SinkLock.Enabled(s, k) && (k.Evict? || k.g != x)
    ensures SinkLock.IsHolder(SinkLock.Apply(s, k).holder, sink, x) <==> SinkLock.IsHolder(s.holder, sink, x)
  {
    hide SinkLock.InsideHostWriter, SinkLock.Sound;
    if k.Unlock? {
      SinkLock.SoundAt(s, k.g);
      SinkLock.TopHolds(SinkLock.Stack(s, k.g));
    }
  }

  /** k is a call of m's, which is in none, on a sink that x holds. */
  predicate NewNeed(s: State, k: SinkLock.Step, m: Gid, x: Gid) {
    k.Begin? && k.g == m && Calls(s, m) == [] && SinkLock.IsHolder(s.sinks.holder, k.sink, x)
  }

  /** A sink step neither ends what the owner needs of an asking goroutine nor adds to it, but for a new call. */
  lemma NeedStep(s: State, k: SinkLock.Step, m: Gid, x: Gid)
    requires Sound(s) && Enabled(s, Sink(k)) && x in s.asking && Owns(s, m)
    ensures Needs(Apply(s, Sink(k)), m, x) <==> Needs(s, m, x) || NewNeed(s, k, m, x)
  {
    SinkStepFrame(s.sinks, k, m);
    if k.Evict? || k.g != m {
      if |Calls(s, m)| == 1 { OnlyHolderFrees(s.sinks, k, Calls(s, m)[0].sink, x); }
    } else {
      hide SinkLock.Sound;
      SinkLock.SoundAt(s.sinks, m);
      if k.Return? { ReturnsToHost(s.sinks, k); }
    }
  }

  /** Whether a step of any kind dooms the calls in flight is decided before it: they are doomed after it if and
      only if they were before, or the step is one that dooms. In particular doom is for good. */
  lemma DoomedAfterIff(s: State, step: Step)
    requires Sound(s) && Enabled(s, step)
    ensures Doomed(Apply(s, step)) <==> Doomed(s) || Dooms(s, step)
  {
    hide SinkLock.Sound, SinkLock.Apply, SinkLock.Enabled;
    var t := Apply(s, step);
    match step
    case Sink(k) =>
      if s.owner.Some? {
        var m := s.owner.value.g;
        forall x | x in s.asking ensures Needs(t, m, x) <==> Needs(s, m, x) || NewNeed(s, k, m, x) {
          NeedStep(s, k, m, x);
        }
        hide Sound, Enabled, Needs;
        if Dooms(s, step) { assert NewNeed(s, k, m, s.sinks.holder[k.sink]); }
      }
    case Ask(g) =>
      assert forall m, x :: Needs(t, m, x) == Needs(s, m, x);
    case Enter(g) =>
      assert InHostCode(s, g);
    case Leave(g) =>
      assert g !in s.asking;
      SetupNeedsNothing(s, g);
  }

  /** An owner with no call above its own needs no lock. */
  lemma SetupNeedsNothing(s: State, g: Gid)
    requires Sound(s) && SetupOnTop(s, g)
    ensures forall x :: !Needs(s, g, x)
  {}

  /** A step of the run from s is one that dooms. */
  ghost predicate SomeDooms(s: State, steps: seq<Step>)
    decreases |steps|
  {
    steps != [] && Enabled(s, steps[0]) && (Dooms(s, steps[0]) || SomeDooms(Apply(s, steps[0]), steps[1..]))
  }

  lemma {:induction false} DoomedIff(s: State, steps: seq<Step>, t: State)
    requires Sound(s) && Runs(s, steps, t)
    ensures Doomed(t) <==> Doomed(s) || SomeDooms(s, steps)
    decreases |steps|
  {
    hide Sound, Apply, Enabled, Doomed, Dooms;
    if steps != [] {
      StepKeepsSound(s, steps[0]);
      DoomedAfterIff(s, steps[0]);
      DoomedIff(Apply(s, steps[0]), steps[1..], t);
    }
  }

  // ---- progress -----------------------------------------------------------------------------------

  /** The steps of calls already made. */
  predicate Unwinds(step: Step) {
    match step
    case Sink(k) => SinkLock.Unwinds(k)
    case Ask(_) => false
    case _ => true
  }

  predicate AllUnwind(steps: seq<Step>) { forall i :: 0 <= i < |steps| ==> Unwinds(steps[i]) }

  ghost predicate Stuck(s: State) { forall step :: Unwinds(step) ==> !Enabled(s, step) }

  ghost predicate Idle(s: State) { s.asking == {} && s.owner == None && forall g :: Calls(s, g) == [] }

  ghost function Work(s: State): nat {
    SinkLock.Work(s.sinks.stacks) + 2 * |s.asking| + if s.owner.Some? then 1 else 0
  }

  lemma StepSpends(s: State, step: Step)
    requires Enabled(s, step) && Unwinds(step)
    ensures Work(Apply(s, step)) < Work(s)
    ensures Dooms(s, step) == false
  {
    hide SinkLock.Work, SinkLock.Enabled, SinkLock.Apply;
    if step.Sink? { SinkLock.StepSpendsWork(s.sinks, step.step); }
  }

  /** Whatever the schedule, calls already made take a bounded number of steps, and none of these dooms. */
  lemma {:induction false} ScheduleBounded(s: State, steps: seq<Step>, t: State)
    requires Runs(s, steps, t) && AllUnwind(steps)
    ensures |steps| + Work(t) <= Work(s) && !SomeDooms(s, steps)
    decreases |steps|
  {
    hide Enabled, Apply, Work, Unwinds, Dooms;
    if steps != [] {
      assert Unwinds(steps[0]);
      StepSpends(s, steps[0]);
      ScheduleBounded(Apply(s, steps[0]), steps[1..], t);
    }
  }

  lemma StuckAt(s: State, step: Step)
    requires Stuck(s) && Unwinds(step)
    ensures !Enabled(s, step)
  {}

  /** In a stuck state a goroutine that is in a sink call and does not ask for the mutex waits for a holder. */
  lemma StuckWaits(s: State, g: Gid)
    requires Stuck(s) && Calls(s, g) != [] && g !in s.asking && !SetupOnTop(s, g)
    ensures SinkLock.TopIs(s.sinks, g, SinkLock.Waiting) && SinkLock.Top(s.sinks, g).sink in s.sinks.holder
  {
    hide SinkLock.Enabled, Stuck;
    StuckAt(s, Sink(SinkLock.NextStep(s.sinks, g)));
  }

  /** That holder asks for the mutex. */
  lemma HolderAsks(s: State, g: Gid) returns (x: Gid)
    requires Sound(s) && Stuck(s) && Calls(s, g) != [] && g !in s.asking && !SetupOnTop(s, g)
    ensures |Calls(s, g)| == 1 && Calls(s, g)[0].phase == SinkLock.Waiting
    ensures SinkLock.IsHolder(s.sinks.holder, Calls(s, g)[0].sink, x)
    ensures x in s.asking || SetupOnTop(s, x)
  {
    hide SinkLock.Sound, Stuck;
    StuckWaits(s, g);
    SinkLock.SoundAt(s.sinks, g);
    x := s.sinks.holder[Calls(s, g)[0].sink];
    SinkLock.SoundAt(s.sinks, x);
    assert SinkLock.IsHolder(s.sinks.holder, Calls(s, g)[0].sink, x);
    assert SinkLock.Holds(Calls(s, x), Calls(s, g)[0].sink);
    if x !in s.asking && !SetupOnTop(s, x) {
      StuckWaits(s, x);
      SinkLock.WaiterHoldsNothing(s.sinks, x);
      assert false;
    }
  }

  /** Calls that can go no further have all returned, or they are doomed. */
  lemma StuckIdleOrDoomed(s: State)
    requires Sound(s) && Stuck(s)
    ensures Idle(s) <==> !Doomed(s)
  {
    hide Sound, Stuck, SinkLock.Enabled;
    if !Idle(s) && !Doomed(s) {
      if s.owner.Some? {
        var m := s.owner.value.g;
        assert m !in s.asking;
        if SetupOnTop(s, m) { StuckAt(s, Leave(m)); }
        OwnerIsIn(s);
        var x := HolderAsks(s, m);
        assert false;
      } else {
        forall g ensures g !in s.asking { StuckAt(s, Enter(g)); }
        var g :| Calls(s, g) != [];
        var x := HolderAsks(s, g);
        assert false;
      }
    }
  }

  lemma OwnerIsIn(s: State)
    requires Sound(s) && s.owner.Some? && !SetupOnTop(s, s.owner.value.g)
    ensures Calls(s, s.owner.value.g) != []
  {}

  /** The documented promise, that logging from inside a writer does not deadlock, holds exactly so far: after any
      run and in every schedule, the calls in flight take at most Work steps, and they have then all returned if and
      only if no step of the run was one that dooms. */
  lemma FinishIff(before: seq<Step>, s: State, steps: seq<Step>, t: State)
    requires Runs(Init, before, s) && Runs(s, steps, t) && AllUnwind(steps)
    ensures |steps| <= Work(s)
    ensures Stuck(t) ==> (Idle(t) <==> !SomeDooms(Init, before))
  {
    hide Runs, Sound, Work, Stuck, Doomed, SomeDooms, Idle;
    InitSound();
    RunsSound(Init, before, s);
    DoomedIff(Init, before, s);
    ScheduleBounded(s, steps, t);
    RunsSound(s, steps, t);
    DoomedIff(s, steps, t);
    if Stuck(t) { StuckIdleOrDoomed(t); }
  }

  /** No writer asks for the mutex, so GetLogger among others is called outside writers only. */
  ghost predicate WritersDontAsk(s: State, steps: seq<Step>)
    decreases |steps|
  {
    steps != [] && Enabled(s, steps[0]) ==>
      (steps[0].Ask? ==> Calls(s, steps[0].g) == []) && WritersDontAsk(Apply(s, steps[0]), steps[1..])
  }

  ghost predicate AskersAreOutside(s: State) { forall g :: g in s.asking ==> Calls(s, g) == [] && !Owns(s, g) }

  lemma OutsideStep(s: State, step: Step)
    requires Sound(s) && AskersAreOutside(s) && Enabled(s, step) && (step.Ask? ==> Calls(s, step.g) == [])
    ensures AskersAreOutside(Apply(s, step)) && !Dooms(s, step)
  {
    hide SinkLock.Sound, SinkLock.Apply, SinkLock.Enabled;
    if step.Sink? {
      forall g | g in s.asking ensures Calls(Apply(s, step), g) == [] && !Owns(s, g) {
        SinkStepFrame(s.sinks, step.step, g);
      }
    }
    forall g | Calls(s, g) == [] ensures HoldsNone(s, g) { OutsideHoldsNone(s, g); }
    if step.Sink? && step.step.Begin? && step.step.sink in s.sinks.holder {
      assert SinkLock.IsHolder(s.sinks.holder, step.step.sink, s.sinks.holder[step.step.sink]);
    }
  }

  ghost predicate HoldsNone(s: State, g: Gid) { forall k :: !SinkLock.IsHolder(s.sinks.holder, k, g) }

  lemma OutsideHoldsNone(s: State, g: Gid)
    requires Sound(s) && Calls(s, g) == []
    ensures HoldsNone(s, g)
  {
    hide SinkLock.Sound;
    SinkLock.SoundAt(s.sinks, g);
    assert forall k :: !SinkLock.Holds(Calls(s, g), k);
  }

  /** A host that keeps the rule has the promise whole. */
  lemma {:induction false} QuietWritersNeverDoom(s: State, steps: seq<Step>, t: State)
    requires Sound(s) && AskersAreOutside(s) && Runs(s, steps, t) && WritersDontAsk(s, steps)
    ensures !SomeDooms(s, steps)
    decreases |steps|
  {
    hide Sound, AskersAreOutside, Apply, Enabled, Dooms;
    if steps != [] {
      OutsideStep(s, steps[0]);
      StepKeepsSound(s, steps[0]);
      QuietWritersNeverDoom(Apply(s, steps[0]), steps[1..], t);
    }
  }

  lemma QuietWritersFinish(before: seq<Step>, s: State, steps: seq<Step>, t: State)
    requires Runs(Init, before, s) && WritersDontAsk(Init, before) && Runs(s, steps, t) && AllUnwind(steps)
    ensures Stuck(t) ==> Idle(t)
  {
    hide Runs, WritersDontAsk, Sound, Stuck, Idle;
    InitSound();
    QuietWritersNeverDoom(Init, before, s);
    FinishIff(before, s, steps, t);
  }

  // ---- the sinks alone ----------------------------------------------------------------------------

  function SinkSteps(steps: seq<Step>): seq<SinkLock.Step> {
    if steps == [] then [] else (if steps[0].Sink? then [steps[0].step] else []) + SinkSteps(steps[1..])
  }

  /** With the mutex left out a run is a run of the sinks, so whatever holds of every such run holds here. */
  lemma {:induction false} SinksRun(s: State, steps: seq<Step>, t: State)
    requires Runs(s, steps, t)
    ensures SinkLock.Runs(s.sinks, SinkSteps(steps), t.sinks)
    decreases |steps|
  {
    hide SinkLock.Apply, SinkLock.Enabled;
    if steps != [] {
      SinksRun(Apply(s, steps[0]), steps[1..], t);
      if steps[0].Sink? {
        SinkLock.RunsCons(s.sinks, steps[0].step, SinkSteps(steps[1..]), t.sinks);
      } else {
        assert SinkSteps(steps) == SinkSteps(steps[1..]);
      }
    }
  }

  // ---- the promise broken -------------------------------------------------------------------------

  lemma RunsCons(s: State, step: Step, rest: seq<Step>, t: State)
    requires Enabled(s, step) && Runs(Apply(s, step), rest, t)
    ensures Runs(s, [step] + rest, t)
  {
    assert ([step] + rest)[1..] == rest;
  }

  /** ShutdownTelemetry flushes a writer whose Flush calls GetLogger: one goroutine, deadlocked with itself. */
  lemma FlushThatGetsALogger(line: SinkLock.Line)
    ensures exists steps, t :: Runs(Init, steps, t) && Doomed(t) && Owns(t, 0) && t.asking == {0}
  {
    var flush := Sink(SinkLock.Begin(0, 0, SinkLock.Flush, 0, line));
    var lock := Sink(SinkLock.Try(0, false));
    var s1 := Apply(Init, Ask(0));
    var s2 := Apply(s1, Enter(0));
    var s3 := Apply(s2, flush);
    var s4 := Apply(s3, lock);
    var t := Apply(s4, Ask(0));
    hide Apply, Enabled;
    assert Runs(t, [], t) && Runs(s4, [Ask(0)], t);
    RunsCons(s3, lock, [Ask(0)], t);
    RunsCons(s2, flush, [lock] + [Ask(0)], t);
    RunsCons(s1, Enter(0), [flush] + ([lock] + [Ask(0)]), t);
    RunsCons(Init, Ask(0), [Enter(0)] + ([flush] + ([lock] + [Ask(0)])), t);
  }

  /** A writer that calls GetLogger while another goroutine's shutdown comes to flush it: each waits for the other. */
  lemma WriterBesideAShutdown(line: SinkLock.Line)
    ensures exists steps, t ::
      Runs(Init, steps, t) && Doomed(t) && Owns(t, 1) && t.asking == {0} && Needs(t, 1, 0)
  {
    var write := Sink(SinkLock.Begin(0, 0, SinkLock.Write, 0, line));
    var lock := Sink(SinkLock.Try(0, false));
    var flush := Sink(SinkLock.Begin(1, 0, SinkLock.Flush, 0, line));
    var s1 := Apply(Init, write);
    var s2 := Apply(s1, lock);
    var s3 := Apply(s2, Ask(1));
    var s4 := Apply(s3, Enter(1));
    var s5 := Apply(s4, Ask(0));
    var t := Apply(s5, flush);
    assert Needs(t, 1, 0);
    hide Apply, Enabled;
    assert Runs(t, [], t) && Runs(s5, [flush], t);
    RunsCons(s4, Ask(0), [flush], t);
    RunsCons(s3, Enter(1), [Ask(0)] + [flush], t);
    RunsCons(s2, Ask(1), [Enter(1)] + ([Ask(0)] + [flush]), t);
    RunsCons(s1, lock, [Ask(1)] + ([Enter(1)] + ([Ask(0)] + [flush])), t);
    RunsCons(Init, write, [lock] + ([Ask(1)] + ([Enter(1)] + ([Ask(0)] + [flush]))), t);
  }
}
