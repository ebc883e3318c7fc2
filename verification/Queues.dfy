/** Backpressure tickets (go/backpressure.go) and what a setup rollback does to the queues
    (go/setup_rollback.go): every channel ever made stays in `chans`, and a queue or a ticket refers to one
    by its index. A critical section of _queueMu, or one channel operation of Release, is one step. */
module Queues {
  import opened Common

  type Ref = nat
  type Id = nat

  const LOGS := "logs"
  const TRACES := "traces"
  const METRICS := "metrics"

  datatype Policy = Policy(logs: int, traces: int, metrics: int)
  datatype Channel = Channel(capacity: nat, used: nat)
  datatype Ticket = Ticket(signal: string, ch: Option<Ref>)

  /** The policy and the three channels in force. */
  datatype Current = Current(policy: Policy, logs: Option<Ref>, traces: Option<Ref>, metrics: Option<Ref>)

  datatype State = State(current: Current, chans: seq<Channel>, dropped: map<string, nat>)

  const Unlimited := Current(Policy(0, 0, 0), None, None, None)
  const Start := State(Unlimited, [], map[])

  datatype Queue = Queue(maxSize: int, ch: Option<Ref>)

  function QueueForSignal(c: Current, signal: string): Option<Queue> {
    if signal == LOGS then Some(Queue(c.policy.logs, c.logs))
    else if signal == TRACES then Some(Queue(c.policy.traces, c.traces))
    else if signal == METRICS then Some(Queue(c.policy.metrics, c.metrics))
    else None
  }

  function BuildQueue(chans: seq<Channel>, size: int): (seq<Channel>, Option<Ref>) {
    if size <= 0 then (chans, None) else (chans + [Channel(size, 0)], Some(|chans|))
  }

  /** _drainAndRebuild: the old channels are abandoned, not drained. */
  function Rebuilt(s: State, policy: Policy): State {
    var (c1, logs) := BuildQueue(s.chans, policy.logs);
    var (c2, traces) := BuildQueue(c1, policy.traces);
    var (c3, metrics) := BuildQueue(c2, policy.metrics);
    State(Current(policy, logs, traces, metrics), c3, s.dropped)
  }

  function IncDropped(s: State, signal: string): State {
    s.(dropped := s.dropped[signal := Dropped(s, signal) + 1])
  }

  function Dropped(s: State, signal: string): nat { if signal in s.dropped then s.dropped[signal] else 0 }

  datatype Acquired = Acquired(state: State, ticket: Option<Ticket>)

  /** A send on a nil channel never succeeds, so a limited queue without a channel refuses. */
  function TryAcquire(s: State, signal: string): Acquired {
    match QueueForSignal(s.current, signal)
    case None => Acquired(s, None)
    case Some(Queue(maxSize, ch)) =>
      if maxSize <= 0 then Acquired(s, Some(Ticket(signal, None)))
      else if ch.Some? && ch.value < |s.chans| && s.chans[ch.value].used < s.chans[ch.value].capacity then
        Acquired(s.(chans := Sent(s.chans, ch.value)), Some(Ticket(signal, ch)))
      else Acquired(IncDropped(s, signal), None)
  }

  function Sent(chans: seq<Channel>, c: Ref): seq<Channel>
    requires c < |chans|
  {
    chans[c := chans[c].(used := chans[c].used + 1)]
  }

  /** A receive from an empty channel takes the default branch. */
  function Received(chans: seq<Channel>, c: Ref): seq<Channel>
    requires c < |chans|
  {
    if chans[c].used == 0 then chans else chans[c := chans[c].(used := chans[c].used - 1)]
  }

  function Release(s: State, ticket: Option<Ticket>): State {
    if ticket == None || ticket.value.ch == None || ticket.value.ch.value >= |s.chans| then s
    else s.(chans := Received(s.chans, ticket.value.ch.value))
  }

  // ---- the package's state ------------------------------------------------------------------------

  class Backpressure {
    var current: Current
    var chans: seq<Channel>
    var dropped: map<string, nat>

    function View(): State
      reads this
    {
      State(current, chans, dropped)
    }

    constructor ()
      ensures View() == Start
    {
      current, chans, dropped := Unlimited, [], map[];
    }

    method Build(size: int) returns (ch: Option<Ref>)
      modifies this`chans
      ensures (chans, ch) == BuildQueue(old(chans), size)
    {
      if size <= 0 { return None; }
      ch := Some(|chans|);
      chans := chans + [Channel(size, 0)];
    }

    method SetQueuePolicy(policy: Policy)
      modifies this
      ensures View() == old(Rebuilt(View(), policy))
    {
      var logs := Build(policy.logs);
      var traces := Build(policy.traces);
      var metrics := Build(policy.metrics);
      current := Current(policy, logs, traces, metrics);
    }

    method TryAcquireSlot(signal: string) returns (ticket: Option<Ticket>)
      modifies this`chans, this`dropped
      ensures Acquired(View(), ticket) == old(TryAcquire(View(), signal))
    {
      var q := QueueForSignal(current, signal);
      if q == None { return None; }
      if q.value.maxSize <= 0 { return Some(Ticket(signal, None)); }
      var ch := q.value.ch;
      if ch.Some? && ch.value < |chans| && chans[ch.value].used < chans[ch.value].capacity {
        chans := Sent(chans, ch.value);
        return Some(Ticket(signal, ch));
      }
      dropped := dropped[signal := Dropped(View(), signal) + 1];
      return None;
    }

    method IncLogsDropped()
      modifies this`dropped
      ensures View() == old(IncDropped(View(), LOGS))
    {
      dropped := dropped[LOGS := Dropped(View(), LOGS) + 1];
    }

    method ReleaseSlot(ticket: Option<Ticket>)
      modifies this`chans
      ensures View() == old(Release(View(), ticket))
    {
      if ticket == None || ticket.value.ch == None || ticket.value.ch.value >= |chans| { return; }
      chans := Received(chans, ticket.value.ch.value);
    }

    /** What _captureProcessState keeps of the queues, and what _restoreProcessState writes back. */
    method Capture() returns (snap: Current)
      ensures snap == View().current
    {
      snap := current;
    }

    method Restore(snap: Current)
      modifies this`current
      ensures View() == old(View()).(current := snap)
    {
      current := snap;
    }
  }

  // ---- runs ---------------------------------------------------------------------------------------

  /** The queues, the tickets handed out and not yet released, and the snapshot of a setup in progress. */
  datatype System = System(q: State, held: map<Id, Ticket>, snap: Option<Current>)

  const Init := System(Start, map[], None)

  datatype Step =
    | Acquire(id: Id, signal: string)
    | Return(id: Id)
    | Swap(policy: Policy)
    | BeginSetup
    | FailSetup
    | CommitSetup

  predicate Enabled(s: System, step: Step) {
    match step
    case Acquire(id, _) => id !in s.held
    case Return(id) => id in s.held
    case Swap(_) => true
    case BeginSetup => s.snap == None
    case FailSetup => s.snap.Some?
    case CommitSetup => s.snap.Some?
  }

  function Apply(s: System, step: Step): System
    requires Enabled(s, step)
  {
    match step
    case Acquire(id, signal) =>
      var a := TryAcquire(s.q, signal);
      System(a.state, if a.ticket.Some? then s.held[id := a.ticket.value] else s.held, s.snap)
    case Return(id) => System(Release(s.q, Some(s.held[id])), s.held - {id}, s.snap)
    case Swap(policy) => s.(q := Rebuilt(s.q, policy))
    case BeginSetup => s.(snap := Some(s.q.current))
    case FailSetup => s.(q := s.q.(current := s.snap.value), snap := None)
    case CommitSetup => s.(snap := None)
  }

  ghost predicate Runs(s: System, steps: seq<Step>, t: System)
    decreases |steps|
  {
    if steps == [] then s == t else Enabled(s, steps[0]) && Runs(Apply(s, steps[0]), steps[1..], t)
  }

  // ---- the invariant ------------------------------------------------------------------------------

  /** The unreleased tickets bound to channel c. */
  function Bound(held: map<Id, Ticket>, c: Ref): set<Id> { set id | id in held && held[id].ch == Some(c) }

  /** A queue has a channel exactly when it is limited, of exactly that capacity. */
  predicate Backed(size: int, ch: Option<Ref>, chans: seq<Channel>) {
    if size <= 0 then ch == None else ch.Some? && ch.value < |chans| && chans[ch.value].capacity == size
  }

  predicate CurrentOk(c: Current, chans: seq<Channel>) {
    Backed(c.policy.logs, c.logs, chans) && Backed(c.policy.traces, c.traces, chans) &&
      Backed(c.policy.metrics, c.metrics, chans)
  }

  ghost predicate Conserved(chans: seq<Channel>, held: map<Id, Ticket>) {
    && (forall c :: 0 <= c < |chans| ==> chans[c].used == |Bound(held, c)| <= chans[c].capacity)
    && (forall id :: id in held && held[id].ch.Some? ==> held[id].ch.value < |chans|)
  }

  ghost predicate Sound(s: System) {
    Conserved(s.q.chans, s.held) && CurrentOk(s.q.current, s.q.chans) &&
      (s.snap.Some? ==> CurrentOk(s.snap.value, s.q.chans))
  }

  lemma BoundAfterAcquire(held: map<Id, Ticket>, id: Id, t: Ticket, c: Ref)
    requires id !in held
    ensures |Bound(held[id := t], c)| == |Bound(held, c)| + if t.ch == Some(c) then 1 else 0
  {
    var bound := Bound(held[id := t], c);
    assert bound == Bound(held, c) + if t.ch == Some(c) then {id} else {};
  }

  lemma BoundAfterRelease(held: map<Id, Ticket>, id: Id, c: Ref)
    requires id in held
    ensures |Bound(held - {id}, c)| == |Bound(held, c)| - if held[id].ch == Some(c) then 1 else 0
  {
    assert Bound(held - {id}, c) == Bound(held, c) - {id};
  }

  lemma AcquireConserves(s: System, id: Id, signal: string)
    requires Sound(s) && id !in s.held
    ensures var t := Apply(s, Acquire(id, signal)); Conserved(t.q.chans, t.held)
    ensures var t := Apply(s, Acquire(id, signal)); |t.q.chans| == |s.q.chans| && t.q.current == s.q.current
    ensures var t := Apply(s, Acquire(id, signal));
      forall c :: 0 <= c < |s.q.chans| ==> t.q.chans[c].capacity == s.q.chans[c].capacity
  {
    hide Bound;
    var a := TryAcquire(s.q, signal);
    if a.ticket.Some? {
      forall c: Ref
        ensures |Bound(s.held[id := a.ticket.value], c)| == |Bound(s.held, c)| + if a.ticket.value.ch == Some(c) then 1
          else 0
      {
        BoundAfterAcquire(s.held, id, a.ticket.value, c);
      }
    }
  }

  lemma ReleaseConserves(s: System, id: Id)
    requires Sound(s) && id in s.held
    ensures var t := Apply(s, Return(id)); Conserved(t.q.chans, t.held)
    ensures var t := Apply(s, Return(id)); |t.q.chans| == |s.q.chans| && t.q.current == s.q.current
    ensures var t := Apply(s, Return(id));
      forall c :: 0 <= c < |s.q.chans| ==> t.q.chans[c].capacity == s.q.chans[c].capacity
  {
    hide Bound;
    forall c: Ref ensures |Bound(s.held - {id}, c)| == |Bound(s.held, c)| - if s.held[id].ch == Some(c) then 1 else 0 {
      BoundAfterRelease(s.held, id, c);
    }
  }

  lemma RebuildAppends(s: State, policy: Policy)
    ensures var t := Rebuilt(s, policy);
      && |s.chans| <= |t.chans| && t.chans[..|s.chans|] == s.chans
      && CurrentOk(t.current, t.chans) && t.current.policy == policy
      && (forall c :: |s.chans| <= c < |t.chans| ==> t.chans[c].used == 0)
      && (forall ch :: ch in {t.current.logs, t.current.traces, t.current.metrics} && ch.Some? ==>
        ch.value >= |s.chans|)
  {}

  lemma SwapKeepsSound(s: System, policy: Policy)
    requires Sound(s)
    ensures Sound(Apply(s, Swap(policy)))
  {
    var t := Apply(s, Swap(policy));
    RebuildAppends(s.q, policy);
    hide Rebuilt;
    forall c | 0 <= c < |t.q.chans| ensures t.q.chans[c].used == |Bound(t.held, c)| <= t.q.chans[c].capacity {
      if c < |s.q.chans| {
        assert t.q.chans[c] == t.q.chans[..|s.q.chans|][c] == s.q.chans[c];
      } else {
        assert Bound(t.held, c) == {};
      }
    }
    assert forall c :: 0 <= c < |s.q.chans| ==> t.q.chans[..|s.q.chans|][c] == t.q.chans[c];
  }

  /** Every step keeps occupancy equal to the unreleased tickets, and within capacity. */
  lemma StepKeepsSound(s: System, step: Step)
    requires Sound(s) && Enabled(s, step)
    ensures Sound(Apply(s, step))
  {
    match step
    case Acquire(id, signal) =>
      AcquireConserves(s, id, signal);
      hide Conserved, TryAcquire;
    case Return(id) =>
      ReleaseConserves(s, id);
      hide Conserved, Release;
    case Swap(policy) => SwapKeepsSound(s, policy);
    case BeginSetup =>
    case FailSetup =>
    case CommitSetup =>
  }

  lemma {:induction false} RunsSound(s: System, steps: seq<Step>, t: System)
    requires Sound(s) && Runs(s, steps, t)
    ensures Sound(t)
    decreases |steps|
  {
    hide Sound, Apply, Enabled;
    if steps != [] {
      StepKeepsSound(s, steps[0]);
      RunsSound(Apply(s, steps[0]), steps[1..], t);
    }
  }

  lemma InitSound()
    ensures Sound(Init)
  {}

  // ---- what every run satisfies -------------------------------------------------------------------

  /** For every channel ever created: occupancy is the number of unreleased tickets bound to it, and never
      exceeds capacity. */
  lemma OccupancyIsHeldTickets(steps: seq<Step>, t: System, c: Ref)
    requires Runs(Init, steps, t) && c < |t.q.chans|
    ensures t.q.chans[c].used == |Bound(t.held, c)| <= t.q.chans[c].capacity
  {
    hide Runs;
    RunsSound(Init, steps, t);
  }

  lemma RefusesWhenFull(t: System, signal: string)
    requires Sound(t) && signal in {LOGS, TRACES, METRICS}
    ensures var q := QueueForSignal(t.q.current, signal).value;
      TryAcquire(t.q, signal).ticket == None <==>
        q.maxSize > 0 && q.ch.Some? && |Bound(t.held, q.ch.value)| == q.maxSize
    ensures Dropped(TryAcquire(t.q, signal).state, signal) ==
      Dropped(t.q, signal) + if TryAcquire(t.q, signal).ticket == None then 1 else 0
  {
    hide Bound;
  }

  /** A known signal is refused exactly when it is limited and that many tickets of its present channel are
      out; the refusal is counted. */
  lemma RefusedExactlyWhenFull(steps: seq<Step>, t: System, signal: string)
    requires Runs(Init, steps, t) && signal in {LOGS, TRACES, METRICS}
    ensures var q := QueueForSignal(t.q.current, signal).value;
      TryAcquire(t.q, signal).ticket == None <==>
        q.maxSize > 0 && q.ch.Some? && |Bound(t.held, q.ch.value)| == q.maxSize
    ensures Dropped(TryAcquire(t.q, signal).state, signal) ==
      Dropped(t.q, signal) + if TryAcquire(t.q, signal).ticket == None then 1 else 0
  {
    InitSound();
    hide Runs, Sound, Bound;
    RunsSound(Init, steps, t);
    RefusesWhenFull(t, signal);
  }

  /** Releasing a held ticket frees one slot of the channel it came from, and touches no other channel,
      whether or not that channel is still in force. */
  lemma ReleaseFreesItsOwnSlot(steps: seq<Step>, t: System, id: Id)
    requires Runs(Init, steps, t) && id in t.held
    ensures var u := Release(t.q, Some(t.held[id]));
      |u.chans| == |t.q.chans| && u.current == t.q.current &&
      forall c :: 0 <= c < |u.chans| ==> u.chans[c].used == t.q.chans[c].used - if t.held[id].ch == Some(c) then 1
        else 0
  {
    hide Runs;
    RunsSound(Init, steps, t);
    if t.held[id].ch.Some? {
      assert id in Bound(t.held, t.held[id].ch.value);
    }
  }

  /** After a swap every ticket still out is stale: releasing it frees no slot of the queues in force. */
  lemma StaleReleaseFreesNothingNew(steps: seq<Step>, t: System, policy: Policy, id: Id, signal: string)
    requires Runs(Init, steps, t) && id in t.held && signal in {LOGS, TRACES, METRICS}
    ensures var u := Rebuilt(t.q, policy); var v := Release(u, Some(t.held[id]));
      var q := QueueForSignal(u.current, signal).value;
      q.ch.Some? ==>
        q.ch.value < |u.chans| && |v.chans| == |u.chans| &&
        v.chans[q.ch.value] == u.chans[q.ch.value] == Channel(q.maxSize, 0)
  {
    hide Runs;
    RunsSound(Init, steps, t);
    RebuildAppends(t.q, policy);
    hide Rebuilt;
  }

  /** While a setup runs, other goroutines acquire and release, and its own policies are applied. */
  predicate DuringSetup(steps: seq<Step>) {
    forall i :: 0 <= i < |steps| ==> steps[i].Acquire? || steps[i].Return? || steps[i].Swap?
  }

  lemma {:induction false} SnapshotStays(s: System, steps: seq<Step>, t: System)
    requires Runs(s, steps, t) && DuringSetup(steps)
    ensures t.snap == s.snap
    decreases |steps|
  {
    hide TryAcquire, Release, Rebuilt;
    if steps != [] {
      assert steps[0].Acquire? || steps[0].Return? || steps[0].Swap?;
      SnapshotStays(Apply(s, steps[0]), steps[1..], t);
    }
  }

  /** A failed setup puts back the policy and the very channels it found. Tickets taken from them before or
      during the setup and still out keep their slots: the next acquire is refused exactly when they fill the
      queue, so the rollback hands out no fresh budget. */
  lemma RollbackKeepsBudget(before: seq<Step>, s: System, during: seq<Step>, t: System, signal: string)
    requires Runs(Init, before, s) && Enabled(s, BeginSetup) && DuringSetup(during)
    requires Runs(Apply(s, BeginSetup), during, t) && signal in {LOGS, TRACES, METRICS}
    ensures Enabled(t, FailSetup) && Apply(t, FailSetup) == System(t.q.(current := s.q.current), t.held, None)
    ensures var u := Apply(t, FailSetup); var q := QueueForSignal(s.q.current, signal).value;
      q.ch.Some? ==> q.ch.value < |u.q.chans| && u.q.chans[q.ch.value].capacity == q.maxSize
    ensures var u := Apply(t, FailSetup); var q := QueueForSignal(s.q.current, signal).value;
      q.ch.Some? ==> u.q.chans[q.ch.value].used == |Bound(t.held, q.ch.value)|
    ensures var u := Apply(t, FailSetup); var q := QueueForSignal(s.q.current, signal).value;
      TryAcquire(u.q, signal).ticket == None <==>
        q.maxSize > 0 && q.ch.Some? && |Bound(t.held, q.ch.value)| == q.maxSize
  {
    InitSound();
    hide Runs, Bound, Sound, TryAcquire;
    RunsSound(Init, before, s);
    StepKeepsSound(s, BeginSetup);
    RunsSound(Apply(s, BeginSetup), during, t);
    SnapshotStays(Apply(s, BeginSetup), during, t);
    StepKeepsSound(t, FailSetup);
    RefusesWhenFull(Apply(t, FailSetup), signal);
    ChannelOf(Apply(t, FailSetup), signal);
  }

  lemma ChannelOf(t: System, signal: string)
    requires Sound(t) && signal in {LOGS, TRACES, METRICS}
    ensures var q := QueueForSignal(t.q.current, signal).value;
      q.ch.Some? ==>
        q.ch.value < |t.q.chans| && t.q.chans[q.ch.value].capacity == q.maxSize &&
        t.q.chans[q.ch.value].used == |Bound(t.held, q.ch.value)|
  {}

  /** Releasing a ticket a second time breaks the account exactly when another ticket is out on its channel. */
  lemma SecondReleaseSteals(steps: seq<Step>, t: System, stale: Ticket)
    requires Runs(Init, steps, t) && stale.ch.Some? && stale.ch.value < |t.q.chans|
    ensures Conserved(Release(t.q, Some(stale)).chans, t.held) <==> Bound(t.held, stale.ch.value) == {}
  {
    hide Runs;
    RunsSound(Init, steps, t);
    var c, u := stale.ch.value, Release(t.q, Some(stale));
    assert t.q.chans[c].used == |Bound(t.held, c)|;
    hide Bound;
    if Bound(t.held, c) == {} {
      assert u == t.q;
    } else {
      assert |Bound(t.held, c)| > 0;
      assert u.chans[c].used != |Bound(t.held, c)|;
    }
  }

  /** So a ticket released twice lets a queue of one hand out two. */
  lemma DoubleReleaseOversubscribes()
    ensures var t := Rebuilt(Start, Policy(1, 0, 0));
      var a := TryAcquire(t, LOGS);
      var b := TryAcquire(Release(a.state, a.ticket), LOGS);
      var c := TryAcquire(Release(b.state, a.ticket), LOGS);
      a.ticket.Some? && b.ticket.Some? && c.ticket.Some? && TryAcquire(b.state, LOGS).ticket == None
  {
    var t := Rebuilt(Start, Policy(1, 0, 0));
    assert t.current.logs == Some(0) && t.chans == [Channel(1, 0)];
    hide Rebuilt;
    var a := TryAcquire(t, LOGS);
    assert a.ticket == Some(Ticket(LOGS, Some(0))) && a.state.chans == [Channel(1, 1)];
    var r := Release(a.state, a.ticket);
    assert r.chans == [Channel(1, 0)] && r.current == t.current;
  }
}
