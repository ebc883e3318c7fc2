/** The log sink's lock protocol (go/logger_sink.go, go/logger_sink_handler.go): any number of goroutines
    and sinks, and host writers that log again from inside Write or Flush.

    One step is one atomic action of one goroutine. A goroutine's stack holds the sink calls it is in;
    a nested call can only be made from host code, that is while the frame below is in its writer. */
module SinkLock {
  import opened Common

  type Gid = nat
  type Sink = nat
  type Buf = nat
  type Line = string

  datatype Op = Write | Flush

  datatype Phase =
    | Trying      // about to TryLock
    | Contended   // TryLock failed; about to look at its own stack
    | Waiting     // blocked in Lock
    | Writing     // lock held, inside writeLocked or flushLocked: the host's code runs
    | Unlocking   // the host returned or panicked; the deferred Unlock is pending
    | Done        // lock released; the call is returning
    | Refused     // returning errLogWriterReentered without the lock

  /** A write carries the pooled buffer its line was rendered into. */
  datatype Call = Call(sink: Sink, op: Op, phase: Phase, buf: Buf, line: Line)

  datatype State = State(
    stacks: map<Gid, seq<Call>>,
    holder: map<Sink, Gid>,
    pool: set<Buf>,
    content: map<Buf, Line>,
    nextBuf: Buf)

  const Init := State(map[], map[], {}, map[], 0)

  function Stack(s: State, g: Gid): seq<Call> { if g in s.stacks then s.stacks[g] else [] }

  function Top(s: State, g: Gid): Call
    requires Stack(s, g) != []
  {
    Stack(s, g)[|Stack(s, g)| - 1]
  }

  /** Whether one of the frames that call into the host is on the stack. */
  predicate InsideHostWriter(stack: seq<Call>) { exists i :: 0 <= i < |stack| && stack[i].phase == Writing }

  predicate Holding(c: Call) { c.phase == Writing || c.phase == Unlocking }

  function SetStack(s: State, g: Gid, stack: seq<Call>): State { s.(stacks := s.stacks[g := stack]) }

  function SetPhase(s: State, g: Gid, p: Phase): State
    requires Stack(s, g) != []
  {
    var st := Stack(s, g);
    SetStack(s, g, st[|st| - 1 := st[|st| - 1].(phase := p)])
  }

  // ---- steps --------------------------------------------------------------------------------------

  /** An unlucky TryLock fails though nobody holds the lock: Go hands it to a starving waiter first. */
  datatype Step =
    | Begin(g: Gid, sink: Sink, op: Op, buf: Buf, line: Line)
    | Try(g: Gid, unlucky: bool)
    | Scan(g: Gid)
    | Acquire(g: Gid)
    | HostReturns(g: Gid)
    | Unlock(g: Gid)
    | Return(g: Gid, keep: bool)
    | Evict(buf: Buf)

  predicate TopIs(s: State, g: Gid, p: Phase) { Stack(s, g) != [] && Top(s, g).phase == p }

  predicate Enabled(s: State, step: Step) {
    match step
    case Begin(g, _, op, buf, _) =>
      (Stack(s, g) == [] || TopIs(s, g, Writing)) && (op == Write ==> buf in s.pool || buf == s.nextBuf)
    case Try(g, _) => TopIs(s, g, Trying)
    case Scan(g) => TopIs(s, g, Contended)
    case Acquire(g) => TopIs(s, g, Waiting) && Top(s, g).sink !in s.holder
    case HostReturns(g) => TopIs(s, g, Writing)
    case Unlock(g) => TopIs(s, g, Unlocking)
    case Return(g, _) => TopIs(s, g, Done) || TopIs(s, g, Refused)
    case Evict(buf) => buf in s.pool
  }

  /** sync.Pool hands out a pooled buffer or a new one; Handle resets it and renders the record into it. */
  function Rendered(s: State, op: Op, buf: Buf, line: Line): State {
    if op == Flush then s
    else s.(pool := s.pool - {buf}, content := s.content[buf := line], nextBuf := if buf == s.nextBuf then s.nextBuf + 1
      else s.nextBuf)
  }

  function Lock(s: State, g: Gid): State
    requires Stack(s, g) != []
  {
    SetPhase(s, g, Writing).(holder := s.holder[Top(s, g).sink := g])
  }

  function Apply(s: State, step: Step): State
    requires Enabled(s, step)
  {
    match step
    case Begin(g, sink, op, buf, line) =>
      SetStack(Rendered(s, op, buf, line), g, Stack(s, g) + [Call(sink, op, Trying, buf, line)])
    case Try(g, unlucky) => if Top(s, g).sink !in s.holder && !unlucky then Lock(s, g) else SetPhase(s, g, Contended)
    case Scan(g) => SetPhase(s, g, if InsideHostWriter(Stack(s, g)) then Refused else Waiting)
    case Acquire(g) => Lock(s, g)
    case HostReturns(g) => SetPhase(s, g, Unlocking)
    case Unlock(g) => SetPhase(s, g, Done).(holder := s.holder - {Top(s, g).sink})
    case Return(g, keep) =>
      var c := Top(s, g);
      var popped := SetStack(s, g, Stack(s, g)[..|Stack(s, g)| - 1]);
      if c.op == Write && keep then popped.(pool := popped.pool + {c.buf}) else popped
    case Evict(buf) => s.(pool := s.pool - {buf})
  }

  /** steps lead from s to t. */
  ghost predicate Runs(s: State, steps: seq<Step>, t: State)
    decreases |steps|
  {
    if steps == [] then s == t
    else Enabled(s, steps[0]) && Runs(Apply(s, steps[0]), steps[1..], t)
  }

  // ---- the invariant ------------------------------------------------------------------------------

  /** One goroutine's calls: below the top frame every call is in its writer, no lock is taken twice, only a
      goroutine in no other sink call waits, and only one inside a host writer is refused. */
  ghost predicate StackOk(stack: seq<Call>) {
    && (forall i :: 0 <= i < |stack| - 1 ==> stack[i].phase == Writing)
    && (forall i, j :: 0 <= i < j < |stack| && Holding(stack[i]) && Holding(stack[j]) ==>
      stack[i].sink != stack[j].sink)
    && (stack != [] && stack[|stack| - 1].phase == Waiting ==> |stack| == 1)
    && (stack != [] && stack[|stack| - 1].phase == Refused ==> |stack| >= 2)
  }

  /** stack has a frame that holds k's lock. */
  ghost predicate Holds(stack: seq<Call>, k: Sink) {
    exists i :: 0 <= i < |stack| && Holding(stack[i]) && stack[i].sink == k
  }

  predicate IsHolder(holder: map<Sink, Gid>, k: Sink, g: Gid) { k in holder && holder[k] == g }

  /** Every stack is well formed, and the holder of a lock is exactly the goroutine with a frame holding it. */
  ghost predicate Sound(s: State) {
    && (forall g :: StackOk(Stack(s, g)))
    && (forall g, k :: Holds(Stack(s, g), k) <==> IsHolder(s.holder, k, g))
  }

  lemma InitSound()
    ensures Sound(Init)
  {
    assert forall g :: Stack(Init, g) == [];
  }

  /** What a step of g must show: its own new stack and holdings, and that it left the others' alone. */
  lemma StackChangeKeepsSound(s: State, t: State, g: Gid, st: seq<Call>)
    requires Sound(s) && t.stacks == s.stacks[g := st] && StackOk(st)
    requires forall k :: Holds(st, k) <==> IsHolder(t.holder, k, g)
    requires forall k, x :: x != g ==> (IsHolder(t.holder, k, x) <==> IsHolder(s.holder, k, x))
    ensures Sound(t)
  {
    hide StackOk, Holds, IsHolder;
    assert forall x :: Stack(t, x) == if x == g then st else Stack(s, x);
  }

  lemma SoundAt(s: State, g: Gid)
    requires Sound(s)
    ensures StackOk(Stack(s, g))
    ensures forall k :: Holds(Stack(s, g), k) <==> IsHolder(s.holder, k, g)
  {}

  /** stack with its top frame in phase p. */
  function Rephased(stack: seq<Call>, p: Phase): seq<Call>
    requires stack != []
  {
    stack[|stack| - 1 := stack[|stack| - 1].(phase := p)]
  }

  lemma RephasedOk(stack: seq<Call>, p: Phase)
    requires stack != [] && StackOk(stack) && (p == Waiting ==> |stack| == 1) && (p == Refused ==> |stack| >= 2)
    requires var c := stack[|stack| - 1]; Holding(c) || !Holding(c.(phase := p)) || !Holds(stack, c.sink)
    ensures StackOk(Rephased(stack, p))
  {
    var n, st := |stack| - 1, Rephased(stack, p);
    forall i, j | 0 <= i < j < |st| && Holding(st[i]) && Holding(st[j]) ensures st[i].sink != st[j].sink {
      assert st[i] == stack[i] && Holding(stack[i]);
    }
  }

  /** Changing the top frame's phase moves that frame's lock and no other. */
  lemma RephasedHolds(stack: seq<Call>, p: Phase, k: Sink)
    requires stack != [] && StackOk(stack)
    ensures var c := stack[|stack| - 1];
      Holds(Rephased(stack, p), k) <==>
        if c.sink == k && Holding(c) then Holding(c.(phase := p))
        else if c.sink == k && Holding(c.(phase := p)) then true
        else Holds(stack, k)
  {
    var n, st := |stack| - 1, Rephased(stack, p);
    assert st[n].sink == stack[n].sink && forall i :: 0 <= i < n ==> st[i] == stack[i];
  }

  lemma RephaseKeepsSound(s: State, t: State, g: Gid, p: Phase)
    requires Sound(s) && Stack(s, g) != [] && t.stacks == s.stacks[g := Rephased(Stack(s, g), p)]
    requires (p == Waiting ==> |Stack(s, g)| == 1) && (p == Refused ==> |Stack(s, g)| >= 2)
    requires var c := Top(s, g);
      if Holding(c) == Holding(c.(phase := p)) then t.holder == s.holder
      else if Holding(c) then t.holder == s.holder - {c.sink}
      else c.sink !in s.holder && t.holder == s.holder[c.sink := g]
    ensures Sound(t)
  {
    hide Sound, StackOk, Holds, Rephased;
    SoundAt(s, g);
    var c := Top(s, g);
    if Holding(c) { TopHolds(Stack(s, g)); }
    RephasedOk(Stack(s, g), p);
    forall k ensures Holds(Rephased(Stack(s, g), p), k) <==> IsHolder(t.holder, k, g) {
      RephasedHolds(Stack(s, g), p, k);
    }
    StackChangeKeepsSound(s, t, g, Rephased(Stack(s, g), p));
  }

  lemma TopHolds(stack: seq<Call>)
    requires stack != [] && Holding(stack[|stack| - 1])
    ensures Holds(stack, stack[|stack| - 1].sink)
  {}

  lemma PushKeepsSound(s: State, t: State, g: Gid, c: Call)
    requires Sound(s) && (Stack(s, g) == [] || TopIs(s, g, Writing)) && c.phase == Trying
    requires t.holder == s.holder && t.stacks == s.stacks[g := Stack(s, g) + [c]]
    ensures Sound(t)
  {
    hide Sound;
    SoundAt(s, g);
    var was := Stack(s, g);
    assert forall i :: 0 <= i < |was| ==> (was + [c])[i] == was[i];
    assert forall k :: Holds(was + [c], k) <==> Holds(was, k);
    StackChangeKeepsSound(s, t, g, was + [c]);
  }

  lemma PopKeepsSound(s: State, t: State, g: Gid)
    requires Sound(s) && (TopIs(s, g, Done) || TopIs(s, g, Refused))
    requires t.holder == s.holder && t.stacks == s.stacks[g := Stack(s, g)[..|Stack(s, g)| - 1]]
    ensures Sound(t)
  {
    hide Sound;
    SoundAt(s, g);
    var was := Stack(s, g);
    var st := was[..|was| - 1];
    assert forall i :: 0 <= i < |st| ==> st[i] == was[i];
    assert forall k :: Holds(st, k) <==> Holds(was, k);
    assert StackOk(st);
    StackChangeKeepsSound(s, t, g, st);
  }

  /** Sound depends on stacks and holders only. */
  lemma SoundFrame(s: State, t: State)
    requires Sound(s) && s.stacks == t.stacks && s.holder == t.holder
    ensures Sound(t)
  {
    hide StackOk, Holds;
    assert forall g :: Stack(t, g) == Stack(s, g);
  }

  lemma InsideMeansNested(stack: seq<Call>)
    requires StackOk(stack) && stack != [] && stack[|stack| - 1].phase == Contended
    ensures InsideHostWriter(stack) <==> |stack| >= 2
  {
    if |stack| >= 2 { assert stack[0].phase == Writing; }
  }

  /** Every step keeps the protocol sound. */
  lemma StepKeepsSound(s: State, step: Step)
    requires Sound(s) && Enabled(s, step)
    ensures Sound(Apply(s, step))
  {
    hide Sound, StackOk, InsideHostWriter;
    var t := Apply(s, step);
    match step
    case Begin(g, sink, op, buf, line) => PushKeepsSound(s, t, g, Call(sink, op, Trying, buf, line));
    case Try(g, _) => RephaseKeepsSound(s, t, g, Top(t, g).phase);
    case Scan(g) =>
      SoundAt(s, g);
      InsideMeansNested(Stack(s, g));
      RephaseKeepsSound(s, t, g, Top(t, g).phase);
    case Acquire(g) => RephaseKeepsSound(s, t, g, Writing);
    case HostReturns(g) => RephaseKeepsSound(s, t, g, Unlocking);
    case Unlock(g) => RephaseKeepsSound(s, t, g, Done);
    case Return(g, keep) => PopKeepsSound(s, t, g);
    case Evict(buf) => SoundFrame(s, t);
  }

  lemma {:induction false} RunsSound(s: State, steps: seq<Step>, t: State)
    requires Sound(s) && Runs(s, steps, t)
    ensures Sound(t)
    decreases |steps|
  {
    hide Sound, Apply, Enabled;
    if steps != [] {
      StepKeepsSound(s, steps[0]);
      RunsSound(Apply(s, steps[0]), steps[1..], t);
    }
  }

  lemma ReachedSound(steps: seq<Step>, t: State, g: Gid)
    requires Runs(Init, steps, t)
    ensures Sound(t) && StackOk(Stack(t, g))
    ensures forall k :: Holds(Stack(t, g), k) <==> IsHolder(t.holder, k, g)
  {
    hide Runs, StackOk, Holds;
    InitSound();
    RunsSound(Init, steps, t);
  }

  // ---- what every run satisfies -------------------------------------------------------------------

  /** At most one goroutine, in one frame, is inside a given sink's writer. */
  lemma OneWriterPerSink(steps: seq<Step>, t: State, g: Gid, i: nat, g': Gid, i': nat)
    requires Runs(Init, steps, t) && i < |Stack(t, g)| && i' < |Stack(t, g')|
    requires Stack(t, g)[i].phase == Writing && Stack(t, g')[i'].phase == Writing
    requires Stack(t, g)[i].sink == Stack(t, g')[i'].sink
    ensures g == g' && i == i'
  {
    hide Runs, Sound;
    ReachedSound(steps, t, g);
    ReachedSound(steps, t, g');
    var k := Stack(t, g)[i].sink;
    assert Holding(Stack(t, g)[i]) && Holding(Stack(t, g')[i']);
    assert Holds(Stack(t, g), k) && Holds(Stack(t, g'), k);
    assert IsHolder(t.holder, k, g) && IsHolder(t.holder, k, g');
  }

  ghost predicate HoldsSomeLock(t: State, g: Gid) { exists k :: IsHolder(t.holder, k, g) }

  predicate WaitsFor(t: State, g: Gid, g': Gid) {
    TopIs(t, g, Waiting) && IsHolder(t.holder, Top(t, g).sink, g')
  }

  lemma WaiterHoldsNothing(t: State, g: Gid)
    requires Sound(t) && TopIs(t, g, Waiting)
    ensures !HoldsSomeLock(t, g)
  {
    hide Sound;
    SoundAt(t, g);
    assert |Stack(t, g)| == 1 && !Holding(Stack(t, g)[0]);
    assert forall k :: !Holds(Stack(t, g), k);
  }

  /** In every run a goroutine waiting on a sink lock holds no sink lock, so whoever it waits for is not
      itself waiting: a chain of waits has one link, and no chain closes into a cycle. */
  lemma NoWaitCycle(steps: seq<Step>, t: State, chain: seq<Gid>)
    requires Runs(Init, steps, t) && |chain| >= 2
    requires forall i :: 0 <= i < |chain| - 1 ==> WaitsFor(t, chain[i], chain[i + 1])
    ensures !HoldsSomeLock(t, chain[0]) && |chain| == 2 && chain[0] != chain[1]
  {
    hide Runs, Sound;
    ReachedSound(steps, t, 0);
    assert WaitsFor(t, chain[0], chain[0 + 1]);
    WaiterHoldsNothing(t, chain[0]);
    assert HoldsSomeLock(t, chain[1]);
    assert |chain| > 2 ==> WaitsFor(t, chain[1], chain[1 + 1]);
    if TopIs(t, chain[1], Waiting) {
      WaiterHoldsNothing(t, chain[1]);
      assert false;
    }
  }

  /** In every run a write or flush is refused only to a caller already inside a host writer. */
  lemma RefusedOnlyInsideWriter(steps: seq<Step>, t: State, g: Gid)
    requires Runs(Init, steps, t) && TopIs(t, g, Refused)
    ensures |Stack(t, g)| >= 2 && Stack(t, g)[|Stack(t, g)| - 2].phase == Writing && HoldsSomeLock(t, g)
  {
    hide Runs, Sound;
    ReachedSound(steps, t, g);
    var below := Stack(t, g)[|Stack(t, g)| - 2];
    assert Holding(below);
    assert Holds(Stack(t, g), below.sink);
  }

  /** A caller that finds the lock taken waits for it if and only if it is in no host writer; in particular a
      writer that logs into the sink it is called by is refused, never left waiting for itself. */
  lemma ScanDecides(steps: seq<Step>, t: State, g: Gid)
    requires Runs(Init, steps, t) && TopIs(t, g, Contended)
    ensures TopIs(Apply(t, Scan(g)), g, Waiting) <==> !HoldsSomeLock(t, g)
    ensures TopIs(Apply(t, Scan(g)), g, Refused) <==> HoldsSomeLock(t, g)
    ensures IsHolder(t.holder, Top(t, g).sink, g) ==> TopIs(Apply(t, Scan(g)), g, Refused)
  {
    hide Runs, Sound;
    ReachedSound(steps, t, g);
    var st := Stack(t, g);
    InsideMeansNested(st);
    if |st| >= 2 {
      assert Holding(st[0]);
      assert Holds(st, st[0].sink);
    } else {
      assert forall k :: !Holds(st, k);
    }
  }

  /** The stack cannot tell which sink a writer frame belongs to: a goroutine inside one sink's writer is
      refused by another sink, whoever holds that one. */
  lemma OtherSinkRefusesToo(line: Line)
    ensures exists steps, t ::
      Runs(Init, steps, t) && TopIs(t, 0, Refused) && Top(t, 0).sink == 1 && IsHolder(t.holder, 1, 1) &&
        IsHolder(t.holder, 0, 0)
  {
    var s1 := Apply(Init, Begin(0, 0, Flush, 0, line));
    var s2 := Apply(s1, Try(0, false));
    var s3 := Apply(s2, Begin(1, 1, Flush, 0, line));
    var s4 := Apply(s3, Try(1, false));
    var s5 := Apply(s4, Begin(0, 1, Flush, 0, line));
    var s6 := Apply(s5, Try(0, false));
    assert Stack(s6, 0)[0].phase == Writing;
    var t := Apply(s6, Scan(0));
    hide Apply, Enabled;
    assert Runs(t, [], t);
    assert Runs(s6, [Scan(0)], t);
    assert Runs(s5, [Try(0, false), Scan(0)], t) by { assert [Try(0, false), Scan(0)][1..] == [Scan(0)]; }
    RunsCons(s4, Begin(0, 1, Flush, 0, line), [Try(0, false), Scan(0)], t);
    RunsCons(s3, Try(1, false), [Begin(0, 1, Flush, 0, line)] + [Try(0, false), Scan(0)], t);
    var r3 := [Try(1, false)] + ([Begin(0, 1, Flush, 0, line)] + [Try(0, false), Scan(0)]);
    RunsCons(s2, Begin(1, 1, Flush, 0, line), r3, t);
    var r2 := [Begin(1, 1, Flush, 0, line)] + r3;
    RunsCons(s1, Try(0, false), r2, t);
    RunsCons(Init, Begin(0, 0, Flush, 0, line), [Try(0, false)] + r2, t);
  }

  lemma RunsCons(s: State, step: Step, rest: seq<Step>, t: State)
    requires Enabled(s, step) && Runs(Apply(s, step), rest, t)
    ensures Runs(s, [step] + rest, t)
  {
    assert ([step] + rest)[1..] == rest;
  }

  // ---- progress -----------------------------------------------------------------------------------

  function Rank(p: Phase): nat {
    match p
    case Trying => 6
    case Contended => 5
    case Waiting => 4
    case Writing => 3
    case Unlocking => 2
    case Done => 1
    case Refused => 1
  }

  /** Steps a stack is from being unwound when its host code makes no further calls; no more than this. */
  function StackWork(stack: seq<Call>): nat {
    if stack == [] then 0 else 8 * |stack| + Rank(stack[|stack| - 1].phase)
  }

  ghost function WorkTable(stacks: map<Gid, seq<Call>>): map<Gid, nat> { map g | g in stacks :: StackWork(stacks[g]) }

  ghost function Work(stacks: map<Gid, seq<Call>>): nat { MapSum(WorkTable(stacks)) }

  /** The steps of calls already begun; Begin and Evict are the others. */
  predicate Unwinds(step: Step) { !step.Begin? && !step.Evict? }

  /** Each step brings its goroutine closer to the end and leaves the other stacks alone. */
  lemma StepSpends(s: State, step: Step)
    requires Enabled(s, step) && Unwinds(step)
    ensures step.g in s.stacks && StackWork(Stack(Apply(s, step), step.g)) < StackWork(s.stacks[step.g])
    ensures Apply(s, step).stacks == s.stacks[step.g := Stack(Apply(s, step), step.g)]
  {
    hide InsideHostWriter;
  }

  lemma StepSpendsWork(s: State, step: Step)
    requires Enabled(s, step) && Unwinds(step)
    ensures Work(Apply(s, step).stacks) < Work(s.stacks)
  {
    hide Enabled, Apply, StackWork;
    StepSpends(s, step);
    var g, st := step.g, Stack(Apply(s, step), step.g);
    MapSumStore(WorkTable(s.stacks), g, StackWork(st));
    assert WorkTable(s.stacks[g := st]) == WorkTable(s.stacks)[g := StackWork(st)];
  }

  predicate AllUnwind(steps: seq<Step>) { forall i :: 0 <= i < |steps| ==> Unwinds(steps[i]) }

  /** Whatever the schedule, calls already begun take a bounded number of steps. */
  lemma {:induction false} ScheduleBounded(s: State, steps: seq<Step>, t: State)
    requires Runs(s, steps, t) && AllUnwind(steps)
    ensures |steps| + Work(t.stacks) <= Work(s.stacks)
    decreases |steps|
  {
    hide Enabled, Apply, Work, Unwinds;
    if steps != [] {
      assert Unwinds(steps[0]);
      StepSpendsWork(s, steps[0]);
      ScheduleBounded(Apply(s, steps[0]), steps[1..], t);
    }
  }

  ghost predicate Stuck(s: State) { forall step :: Unwinds(step) ==> !Enabled(s, step) }

  /** The step a goroutine takes next; only a waiter may have to wait for it. */
  function NextStep(s: State, g: Gid): (step: Step)
    requires Stack(s, g) != []
    ensures Unwinds(step) && (Enabled(s, step) <==> !TopIs(s, g, Waiting) || Top(s, g).sink !in s.holder)
  {
    match Top(s, g).phase
    case Trying => Try(g, false)
    case Contended => Scan(g)
    case Waiting => Acquire(g)
    case Writing => HostReturns(g)
    case Unlocking => Unlock(g)
    case Done => Return(g, true)
    case Refused => Return(g, true)
  }

  /** As long as any call is in flight some goroutine can go on: either it can itself, or it waits for a
      holder, who does not wait. */
  lemma StuckMeansIdle(s: State, g: Gid)
    requires Sound(s) && Stuck(s)
    ensures Stack(s, g) == []
  {
    hide Sound, Enabled, Stuck;
    if Stack(s, g) != [] {
      assert !Enabled(s, NextStep(s, g)) by { StuckAt(s, NextStep(s, g)); }
      var holder := s.holder[Top(s, g).sink];
      SoundAt(s, holder);
      assert IsHolder(s.holder, Top(s, g).sink, holder);
      assert Holds(Stack(s, holder), Top(s, g).sink) && Stack(s, holder) != [];
      StuckAt(s, NextStep(s, holder));
      WaiterHoldsNothing(s, holder);
      assert false;
    }
  }

  lemma StuckAt(s: State, step: Step)
    requires Stuck(s) && Unwinds(step)
    ensures !Enabled(s, step)
  {}

  /** Sink locks never deadlock: from every reachable state, in every schedule in which host writers return
      and begin no further calls, at most Work steps are possible; and when no more is, every call has
      returned and every lock is free. */
  lemma NeverDeadlocked(before: seq<Step>, s: State, steps: seq<Step>, t: State)
    requires Runs(Init, before, s) && Runs(s, steps, t) && AllUnwind(steps)
    ensures |steps| <= Work(s.stacks)
    ensures Stuck(t) <==> forall g :: Stack(t, g) == []
    ensures Stuck(t) ==> t.holder == map[]
  {
    hide Runs, Sound, Work, Enabled;
    ReachedSound(before, s, 0);
    ScheduleBounded(s, steps, t);
    RunsSound(s, steps, t);
    if Stuck(t) {
      hide Stuck;
      forall g ensures Stack(t, g) == [] { StuckMeansIdle(t, g); }
      IdleHoldsNothing(t);
    } else {
      var step :| Unwinds(step) && Enabled(t, step);
      EnabledIsBusy(t, step);
    }
  }

  lemma IdleHoldsNothing(s: State)
    requires Sound(s) && forall g :: Stack(s, g) == []
    ensures s.holder == map[]
  {
    HoldersAreHolders(s.holder);
    assert forall g, k :: !Holds(Stack(s, g), k);
  }

  lemma HoldersAreHolders(holder: map<Sink, Gid>)
    ensures forall k :: k in holder ==> exists g :: IsHolder(holder, k, g)
  {
    forall k | k in holder ensures exists g :: IsHolder(holder, k, g) {
      assert IsHolder(holder, k, holder[k]);
    }
  }

  lemma EnabledIsBusy(s: State, step: Step)
    requires Unwinds(step) && Enabled(s, step)
    ensures Stack(s, step.g) != []
  {}

  // ---- pooled buffers -----------------------------------------------------------------------------

  /** A write's buffer is out of the pool and holds the line rendered for it. */
  predicate OwnsLine(c: Call, pool: set<Buf>, content: map<Buf, Line>, nextBuf: Buf) {
    c.op == Write ==> c.buf !in pool && c.buf < nextBuf && c.buf in content && content[c.buf] == c.line
  }

  predicate Apart(c: Call, d: Call) { c.op == Write && d.op == Write ==> c.buf != d.buf }

  /** Every write in flight has a buffer of its own, still holding the line rendered for it. */
  ghost predicate BuffersPrivate(s: State) {
    && (forall b :: b in s.pool ==> b < s.nextBuf)
    && (forall g, i :: 0 <= i < |Stack(s, g)| ==> OwnsLine(Stack(s, g)[i], s.pool, s.content, s.nextBuf))
    && (forall g, i, g', i' ::
         0 <= i < |Stack(s, g)| && 0 <= i' < |Stack(s, g')| && (g != g' || i != i') ==>
           Apart(Stack(s, g)[i], Stack(s, g')[i']))
  }

  lemma StackOfSet(s: State, g: Gid, st: seq<Call>, x: Gid)
    ensures Stack(SetStack(s, g, st), x) == if x == g then st else Stack(s, x)
  {}

  ghost predicate SameCalls(st: seq<Call>, was: seq<Call>) {
    |st| == |was| && forall i :: 0 <= i < |was| ==> st[i].(phase := was[i].phase) == was[i]
  }

  lemma BuffersFrame(s: State, t: State)
    requires BuffersPrivate(s) && t.pool <= s.pool && t.content == s.content && t.nextBuf == s.nextBuf
    requires forall g :: SameCalls(Stack(t, g), Stack(s, g))
    ensures BuffersPrivate(t)
  {
    hide Stack;
    forall g, i | 0 <= i < |Stack(t, g)| ensures OwnsLine(Stack(t, g)[i], t.pool, t.content, t.nextBuf) {
      assert SameCalls(Stack(t, g), Stack(s, g));
      assert OwnsLine(Stack(s, g)[i], s.pool, s.content, s.nextBuf);
    }
    forall g, i, g', i' | 0 <= i < |Stack(t, g)| && 0 <= i' < |Stack(t, g')| && (g != g' || i != i')
      ensures Apart(Stack(t, g)[i], Stack(t, g')[i'])
    {
      assert SameCalls(Stack(t, g), Stack(s, g)) && SameCalls(Stack(t, g'), Stack(s, g'));
      assert Apart(Stack(s, g)[i], Stack(s, g')[i']);
    }
  }

  lemma BeginKeepsBuffers(s: State, g: Gid, c: Call)
    requires BuffersPrivate(s) && (c.op == Write ==> c.buf in s.pool || c.buf == s.nextBuf)
    ensures BuffersPrivate(SetStack(Rendered(s, c.op, c.buf, c.line), g, Stack(s, g) + [c]))
  {
    var st := Stack(s, g) + [c];
    var r := Rendered(s, c.op, c.buf, c.line);
    var t := SetStack(r, g, st);
    assert forall x :: Stack(t, x) == if x == g then st else Stack(s, x) by {
      forall x ensures Stack(t, x) == if x == g then st else Stack(s, x) { StackOfSet(r, g, st, x); }
    }
    hide Stack, SetStack;
    forall x, i | 0 <= i < |Stack(t, x)| ensures OwnsLine(Stack(t, x)[i], t.pool, t.content, t.nextBuf) {
      if x != g || i < |Stack(s, g)| { FreshBufferKeepsLine(s, x, i, c); }
    }
    forall x, i, x', i' | 0 <= i < |Stack(t, x)| && 0 <= i' < |Stack(t, x')| && (x != x' || i != i')
      ensures Apart(Stack(t, x)[i], Stack(t, x')[i'])
    {
      if x == g && i == |Stack(s, g)| {
        FreshBufferKeepsLine(s, x', i', c);
      } else if x' == g && i' == |Stack(s, g)| {
        FreshBufferKeepsLine(s, x, i, c);
      } else {
        assert Apart(Stack(s, x)[i], Stack(s, x')[i']);
      }
    }
  }

  /** Rendering c leaves the call at (g, i) its buffer and its line. */
  lemma FreshBufferKeepsLine(s: State, g: Gid, i: nat, c: Call)
    requires BuffersPrivate(s) && (c.op == Write ==> c.buf in s.pool || c.buf == s.nextBuf) && i < |Stack(s, g)|
    ensures Apart(Stack(s, g)[i], c) && Apart(c, Stack(s, g)[i])
    ensures var r := Rendered(s, c.op, c.buf, c.line); OwnsLine(Stack(s, g)[i], r.pool, r.content, r.nextBuf)
  {
    assert OwnsLine(Stack(s, g)[i], s.pool, s.content, s.nextBuf);
  }

  lemma ReturnKeepsBuffers(s: State, g: Gid, keep: bool)
    requires BuffersPrivate(s) && Enabled(s, Return(g, keep))
    ensures BuffersPrivate(Apply(s, Return(g, keep)))
  {
    var t, was := Apply(s, Return(g, keep)), Stack(s, g);
    var n := |was| - 1;
    var c := was[n];
    assert t.pool <= s.pool + (if c.op == Write then {c.buf} else {}) && t.content == s.content &&
      t.nextBuf == s.nextBuf;
    forall x ensures Stack(t, x) == if x == g then was[..n] else Stack(s, x) { StackOfSet(s, g, was[..n], x); }
    hide Stack, Apply, Enabled;
    assert OwnsLine(c, s.pool, s.content, s.nextBuf);
    forall x, i | 0 <= i < |Stack(t, x)| ensures OwnsLine(Stack(t, x)[i], t.pool, t.content, t.nextBuf) {
      assert Stack(t, x)[i] == Stack(s, x)[i];
      assert OwnsLine(Stack(s, x)[i], s.pool, s.content, s.nextBuf) && Apart(Stack(s, x)[i], Stack(s, g)[n]);
    }
    forall x, i, x', i' | 0 <= i < |Stack(t, x)| && 0 <= i' < |Stack(t, x')| && (x != x' || i != i')
      ensures Apart(Stack(t, x)[i], Stack(t, x')[i'])
    {
      assert Stack(t, x)[i] == Stack(s, x)[i] && Stack(t, x')[i'] == Stack(s, x')[i'];
      assert Apart(Stack(s, x)[i], Stack(s, x')[i']);
    }
  }

  lemma OthersKeepCalls(s: State, step: Step)
    requires Enabled(s, step) && !step.Begin? && !step.Return?
    ensures var t := Apply(s, step); t.pool <= s.pool && t.content == s.content && t.nextBuf == s.nextBuf
    ensures forall g :: SameCalls(Stack(Apply(s, step), g), Stack(s, g))
  {
    hide InsideHostWriter;
  }

  lemma StepKeepsBuffers(s: State, step: Step)
    requires BuffersPrivate(s) && Enabled(s, step)
    ensures BuffersPrivate(Apply(s, step))
  {
    hide BuffersPrivate, InsideHostWriter, SameCalls;
    match step
    case Begin(g, sink, op, buf, line) => BeginKeepsBuffers(s, g, Call(sink, op, Trying, buf, line));
    case Return(g, keep) => ReturnKeepsBuffers(s, g, keep);
    case _ =>
      OthersKeepCalls(s, step);
      BuffersFrame(s, Apply(s, step));
  }

  lemma {:induction false} RunsKeepBuffers(s: State, steps: seq<Step>, t: State)
    requires BuffersPrivate(s) && Runs(s, steps, t)
    ensures BuffersPrivate(t)
    decreases |steps|
  {
    hide BuffersPrivate, Apply, Enabled;
    if steps != [] {
      StepKeepsBuffers(s, steps[0]);
      RunsKeepBuffers(Apply(s, steps[0]), steps[1..], t);
    }
  }

  /** In every run the bytes the host's writer is handed are the line rendered for that very record, in a
      buffer no other call uses, whatever nested and concurrent records were rendered meanwhile. */
  lemma WriterSeesItsOwnLine(steps: seq<Step>, t: State, g: Gid, i: nat)
    requires Runs(Init, steps, t) && i < |Stack(t, g)| && Stack(t, g)[i].op == Write
    ensures Stack(t, g)[i].buf in t.content && t.content[Stack(t, g)[i].buf] == Stack(t, g)[i].line
    ensures forall g', i' ::
      0 <= i' < |Stack(t, g')| && (g' != g || i' != i) ==> Apart(Stack(t, g)[i], Stack(t, g')[i'])
  {
    hide Runs;
    assert forall x :: Stack(Init, x) == [];
    RunsKeepBuffers(Init, steps, t);
    assert OwnsLine(Stack(t, g)[i], t.pool, t.content, t.nextBuf);
  }

  // ---- finding the writer frame -------------------------------------------------------------------

  const WRITE_FRAME := "writeLocked"
  const FLUSH_FRAME := "flushLocked"
  const HOST_WRITER_STACK_DEPTH := 64

  /** _insideHostWriter: reads the caller's stack into a buffer that doubles until it holds all of it. */
  method InsideHostWriterScan(stack: seq<string>) returns (inside: bool)
    ensures inside <==> exists i :: 0 <= i < |stack| && (stack[i] == WRITE_FRAME || stack[i] == FLUSH_FRAME)
  {
    var size := HOST_WRITER_STACK_DEPTH;
    while true
      invariant size >= HOST_WRITER_STACK_DEPTH
      decreases if size <= |stack| then |stack| + 1 - size else 0
    {
      var n := if size <= |stack| then size else |stack|;
      var i := 0;
      while i < n
        invariant 0 <= i <= n
        invariant forall j :: 0 <= j < i ==> stack[j] != WRITE_FRAME && stack[j] != FLUSH_FRAME
      {
        if stack[i] == WRITE_FRAME || stack[i] == FLUSH_FRAME { return true; }
        i := i + 1;
      }
      if n < size { return false; }
      size := 2 * size;
    }
  }
}
