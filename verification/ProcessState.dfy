/** The process-wide state a setup overwrites before it knows whether the backend can be wired
    (go/setup.go:128-166, go/setup_rollback.go, go/sampling.go:55-74, go/logger.go:600-621). Loggers and sinks
    are handles. */
module ProcessState {
  import opened Common
  import opened Config
  import Accounting
  import Queues

  type Handle = nat

  /** A logger writes to the sink that was in force when it was built; None is os.Stderr. */
  datatype Logger = Logger(id: Handle, sink: Option<Handle>)

  /** A sampling policy's Overrides map: shared by every copy of the policy. */
  class RateTable {
    var rates: map<string, real>

    constructor (r: map<string, real>)
      ensures rates == r
    {
      rates := r;
    }
  }

  datatype SamplingPolicy = SamplingPolicy(rate: real, overrides: RateTable?)

  function ClampRate(r: real): (c: real)
    ensures 0.0 <= c <= 1.0 && (0.0 <= r <= 1.0 ==> c == r)
  {
    if r < 0.0 then 0.0 else if r > 1.0 then 1.0 else r
  }

  function MinRate(a: real, b: real): real { if a <= b then a else b }

  /** Everything _captureProcessState keeps; policy maps are copied, the RateTables in them are not. */
  datatype Snapshot = Snapshot(
    sampling: map<string, SamplingPolicy>, queues: Queues.Current, exporters: map<string, ExporterPolicy>,
    strictSchema: bool, consent: Accounting.Consent,
    logger: Option<Logger>, slogDefault: Logger, preTelemetry: Option<Logger>, sink: Option<Handle>,
    consolePrepared: bool)

  datatype Setter =
    | SetConsent(consent: Accounting.Consent)
    | SetExporter(signal: string, policy: ExporterPolicy)
    | SetSampling(signal: string, rate: real, overrides: Option<map<string, real>>)
    | SetStrict(strict: bool)
    | SetQueues(queuePolicy: Queues.Policy)

  /** What the setters set. */
  datatype Settings = Settings(
    rates: map<string, real>, queues: Queues.Policy, exporters: map<string, ExporterPolicy>, strict: bool,
    consent: Accounting.Consent)

  function Assigned(v: Settings, setter: Setter): Settings {
    match setter
    case SetConsent(c) => v.(consent := c)
    case SetExporter(signal, policy) => v.(exporters := v.exporters[signal := policy])
    case SetSampling(signal, rate, _) =>
      if signal in {Queues.LOGS, Queues.TRACES, Queues.METRICS} then v.(rates := v.rates[signal := ClampRate(rate)])
        else v
    case SetStrict(strict) => v.(strict := strict)
    case SetQueues(policy) => v.(queues := policy)
  }

  function AllAssigned(v: Settings, setters: seq<Setter>): Settings {
    if setters == [] then v else Assigned(AllAssigned(v, setters[..|setters| - 1]), setters[|setters| - 1])
  }

  lemma {:induction false} AssignedInTurn(v: Settings, a: seq<Setter>, b: seq<Setter>)
    ensures AllAssigned(v, a + b) == AllAssigned(AllAssigned(v, a), b)
    decreases |b|
  {
    hide Assigned;
    if b == [] {
      assert a + b == a;
    } else {
      var n := |b| - 1;
      assert (a + b)[..|a + b| - 1] == a + b[..n];
      AssignedInTurn(v, a, b[..n]);
    }
  }

  /** Wherever v agrees with w, x agrees with y. */
  predicate AgreeAlike(v: Settings, w: Settings, x: Settings, y: Settings) {
    && (v.rates == w.rates ==> x.rates == y.rates)
    && (v.queues == w.queues ==> x.queues == y.queues)
    && (v.exporters == w.exporters ==> x.exporters == y.exporters)
    && (v.strict == w.strict ==> x.strict == y.strict)
    && (v.consent == w.consent ==> x.consent == y.consent)
  }

  lemma OneAssignedApart(v: Settings, w: Settings, setter: Setter)
    ensures AgreeAlike(v, w, Assigned(v, setter), Assigned(w, setter))
  {}

  /** Each setter reads no field and writes one. */
  lemma {:induction false} AssignedApart(v: Settings, w: Settings, setters: seq<Setter>)
    ensures AgreeAlike(v, w, AllAssigned(v, setters), AllAssigned(w, setters))
    decreases |setters|
  {
    hide Assigned;
    if setters != [] {
      var n := |setters| - 1;
      AssignedApart(v, w, setters[..n]);
      OneAssignedApart(AllAssigned(v, setters[..n]), AllAssigned(w, setters[..n]), setters[n]);
    }
  }

  /** A field that is as if a had been assigned to v is, after b, as if a + b had. */
  lemma AssignedOn(v: Settings, w: Settings, a: seq<Setter>, b: seq<Setter>)
    ensures AgreeAlike(w, AllAssigned(v, a), AllAssigned(w, b), AllAssigned(v, a + b))
  {
    AssignedInTurn(v, a, b);
    AssignedApart(w, AllAssigned(v, a), b);
  }

  /** The setters that other goroutines call after each critical section of a restore. */
  datatype Late = Late(
    sampling: seq<Setter>, queues: seq<Setter>, exporters: seq<Setter>, strict: seq<Setter>, consent: seq<Setter>)

  /** v put back field by field into x, with those setters in between. */
  function PutBack(v: Settings, x: Settings, late: Late): Settings {
    var x1 := AllAssigned(x.(rates := v.rates), late.sampling);
    var x2 := AllAssigned(x1.(queues := v.queues), late.queues);
    var x3 := AllAssigned(x2.(exporters := v.exporters), late.exporters);
    var x4 := AllAssigned(x3.(strict := v.strict), late.strict);
    AllAssigned(x4.(consent := v.consent), late.consent)
  }

  function SettingsOf(snap: Snapshot): Settings {
    Settings(map k | k in snap.sampling ::
      snap.sampling[k].rate, snap.queues.policy, snap.exporters, snap.strictSchema, snap.consent)
  }

  predicate NoQueues(setters: seq<Setter>) { forall i :: 0 <= i < |setters| ==> !setters[i].SetQueues? }

  lemma NoQueuesIn(a: seq<Setter>, b: seq<Setter>)
    ensures NoQueues(a + b) ==> NoQueues(a) && NoQueues(b)
  {
    assert forall i :: 0 <= i < |a| ==> (a + b)[i] == a[i];
    assert forall i :: 0 <= i < |b| ==> (a + b)[|a| + i] == b[i];
  }

  /** Each setting is v's own, but for what was set after that very setting was put back. */
  function OnlyLate(v: Settings, late: Late): Settings {
    var Late(a, b, c, d, e) := late;
    Settings(AllAssigned(v, a + b + c + d + e).rates, AllAssigned(v, b + c + d + e).queues,
             AllAssigned(v, c + d + e).exporters, AllAssigned(v, d + e).strict, AllAssigned(v, e).consent)
  }

  lemma PutBackOnlyLate(v: Settings, x: Settings, late: Late)
    ensures PutBack(v, x, late) == OnlyLate(v, late)
  {
    var Late(a, b, c, d, e) := late;
    var x1 := AllAssigned(x.(rates := v.rates), a);
    AssignedApart(v, x.(rates := v.rates), a);
    var x2 := AllAssigned(x1.(queues := v.queues), b);
    AssignedApart(v, x1.(queues := v.queues), b);
    AssignedOn(v, x1.(queues := v.queues), a, b);
    var x3 := AllAssigned(x2.(exporters := v.exporters), c);
    AssignedApart(v, x2.(exporters := v.exporters), c);
    AssignedOn(v, x2.(exporters := v.exporters), a + b, c);
    AssignedOn(v, x2.(exporters := v.exporters), b, c);
    var x4 := AllAssigned(x3.(strict := v.strict), d);
    AssignedApart(v, x3.(strict := v.strict), d);
    AssignedOn(v, x3.(strict := v.strict), a + b + c, d);
    AssignedOn(v, x3.(strict := v.strict), b + c, d);
    AssignedOn(v, x3.(strict := v.strict), c, d);
    var w := x4.(consent := v.consent);
    AssignedApart(v, w, e);
    AssignedOn(v, w, a + b + c + d, e);
    AssignedOn(v, w, b + c + d, e);
    AssignedOn(v, w, c + d, e);
    AssignedOn(v, w, d, e);
  }

  /** What the policies of a config are, with no overrides. */
  function SamplingFrom(was: map<string, SamplingPolicy>, f: Fields): map<string, SamplingPolicy> {
    was[Queues.LOGS := SamplingPolicy(ClampRate(f.hot.sampling.logs), null)]
       [Queues.TRACES := SamplingPolicy(ClampRate(MinRate(f.hot.sampling.traces, f.tracing.sampleRate)), null)]
       [Queues.METRICS := SamplingPolicy(ClampRate(f.hot.sampling.metrics), null)]
  }

  function ExportersFrom(was: map<string, ExporterPolicy>, f: Fields): map<string, ExporterPolicy> {
    was[Queues.LOGS := f.hot.exporter.logs]
       [Queues.TRACES := f.hot.exporter.traces]
       [Queues.METRICS := f.hot.exporter.metrics]
  }

  function QueuePolicyOf(f: Fields): Queues.Policy {
    Queues.Policy(f.hot.backpressure.logs, f.hot.backpressure.traces, f.hot.backpressure.metrics)
  }

  const WARNING_SEPARATOR := "; "

  function Joined(names: Names): string {
    if names == [] then "" else if |names| == 1 then names[0] else names[0] + WARNING_SEPARATOR + Joined(names[1..])
  }

  class Process {
    var sampling: map<string, SamplingPolicy>
    var exporters: map<string, ExporterPolicy>
    var strictSchema: bool
    var consent: Accounting.Consent
    var logger: Option<Logger>
    var slogDefault: Logger
    var preTelemetry: Option<Logger>
    var sink: Option<Handle>
    var consolePrepared: bool
    var nextHandle: Handle
    var setupError: string
    const queues: Queues.Backpressure

    constructor (q: Queues.Backpressure, standard: Handle)
      ensures queues == q && fresh(this)
    {
      queues := q;
      sampling, exporters, strictSchema, consent := map[], map[], false, Accounting.Full;
      logger, slogDefault, preTelemetry, sink := None, Logger(standard, None), None, None;
      consolePrepared, nextHandle, setupError := false, standard + 1, "";
    }

    function View(): Snapshot
      reads this, queues
    {
      Snapshot(sampling, queues.current, exporters, strictSchema, consent, logger, slogDefault, preTelemetry, sink,
               consolePrepared)
    }

    function Values(): Settings
      reads this, queues
    {
      SettingsOf(View())
    }

    /** Rates are clamped into a table of the policy's own; an unknown signal is refused. */
    method SetSamplingPolicy(signal: string, rate: real, overrides: Option<map<string, real>>) returns (ok: bool)
      modifies this`sampling
      ensures ok <==> signal in {Queues.LOGS, Queues.TRACES, Queues.METRICS}
      ensures !ok ==> sampling == old(sampling)
      ensures ok ==> signal in sampling && sampling == old(sampling)[signal := sampling[signal]]
      ensures ok ==>
        sampling[signal].rate == ClampRate(rate) &&
        (sampling[signal].overrides == null <==> overrides == None)
      ensures ok && overrides.Some? ==>
        fresh(sampling[signal].overrides) &&
        sampling[signal].overrides.rates == map k | k in overrides.value :: ClampRate(overrides.value[k])
    {
      if signal !in {Queues.LOGS, Queues.TRACES, Queues.METRICS} { return false; }
      var clamped: RateTable? := null;
      if overrides.Some? { clamped := new RateTable(map k | k in overrides.value :: ClampRate(overrides.value[k])); }
      sampling := sampling[signal := SamplingPolicy(ClampRate(rate), clamped)];
      return true;
    }

    /** _configureLogger: a new logger becomes slog's default; the default before the first one is kept. */
    method ConfigureLogger()
      modifies this`logger, this`slogDefault, this`preTelemetry, this`nextHandle
      ensures logger == Some(slogDefault) && slogDefault == Logger(old(nextHandle), sink)
      ensures nextHandle == old(nextHandle) + 1
      ensures preTelemetry == if old(logger) == None then Some(old(slogDefault)) else old(preTelemetry)
    {
      if logger == None { preTelemetry := Some(slogDefault); }
      slogDefault := Logger(nextHandle, sink);
      logger := Some(slogDefault);
      nextHandle := nextHandle + 1;
    }

    /** _applyRuntimePolicies. Queues are rebuilt even when their sizes did not change. */
    method ApplyRuntimePolicies(f: Fields)
      modifies this`sampling, this`exporters, this`strictSchema, this`logger, this`slogDefault, this`preTelemetry,
        this`nextHandle, queues
      ensures sampling == SamplingFrom(old(sampling), f) && exporters == ExportersFrom(old(exporters), f)
      ensures strictSchema == (f.strictSchema || f.strictEventName)
      ensures queues.View() == Queues.Rebuilt(old(queues.View()), QueuePolicyOf(f))
      ensures logger == Some(slogDefault) && slogDefault == Logger(old(nextHandle), sink) &&
        nextHandle == old(nextHandle) + 1
      ensures preTelemetry == if old(logger) == None then Some(old(slogDefault)) else old(preTelemetry)
    {
      hide Queues.Rebuilt;
      var ok := SetSamplingPolicy(Queues.LOGS, f.hot.sampling.logs, None);
      ok := SetSamplingPolicy(Queues.TRACES, MinRate(f.hot.sampling.traces, f.tracing.sampleRate), None);
      ok := SetSamplingPolicy(Queues.METRICS, f.hot.sampling.metrics, None);
      assert sampling == SamplingFrom(old(sampling), f);
      queues.SetQueuePolicy(QueuePolicyOf(f));
      exporters := exporters[Queues.LOGS := f.hot.exporter.logs];
      exporters := exporters[Queues.TRACES := f.hot.exporter.traces];
      exporters := exporters[Queues.METRICS := f.hot.exporter.metrics];
      ConfigureLogger();
      strictSchema := f.strictSchema || f.strictEventName;
    }

    /** _prepareLogConsole: one preparation at a time, and only of a console. */
    method PrepareConsole(console: bool)
      modifies this`consolePrepared
      ensures consolePrepared == (old(consolePrepared) || console)
    {
      if !consolePrepared { consolePrepared := console; }
    }

    method InstallLogSink()
      modifies this`sink, this`nextHandle
      ensures sink == Some(old(nextHandle)) && nextHandle == old(nextHandle) + 1
    {
      sink, nextHandle := Some(nextHandle), nextHandle + 1;
    }

    /** A backend's bridge wraps the logger; its records still go where they went. */
    method WrapLogger()
      modifies this`logger, this`slogDefault, this`nextHandle
      ensures logger == Some(slogDefault) && nextHandle == old(nextHandle) + 1
      ensures slogDefault == Logger(old(nextHandle), if old(logger).Some? then old(logger).value.sink else None)
    {
      slogDefault := Logger(nextHandle, if logger.Some? then logger.value.sink else None);
      logger := Some(slogDefault);
      nextHandle := nextHandle + 1;
    }

    /** Handles are handed out once. */
    predicate HandlesOk()
      reads this
    {
      sink.Some? ==> sink.value < nextHandle
    }

    /** Console, sink and consent come first (go/setup.go:221-235). */
    method InstallDestination(sinkWanted: bool, console: bool, consentEnv: Option<Accounting.Consent>)
      modifies this`consolePrepared, this`sink, this`nextHandle, this`consent
      ensures consolePrepared == (old(consolePrepared) || console) && consent == Or(consentEnv, old(consent))
      ensures nextHandle >= old(nextHandle)
      ensures if sinkWanted then sink == Some(old(nextHandle)) && HandlesOk() else sink == old(sink)
    {
      PrepareConsole(console);
      if sinkWanted { InstallLogSink(); }
      if consentEnv.Some? { consent := consentEnv.value; }
    }

    /** What setup writes before and while the backend is wired, and what was there before
        (go/setup.go:219-255). */
    method CaptureAndInstall(
      f: Fields, warnings: Names, sinkWanted: bool, console: bool, consentEnv: Option<Accounting.Consent>, wraps: bool)
      returns (prior: Snapshot)
      modifies this, queues
      ensures prior == old(View())
      ensures setupError == Joined(warnings) && consent == Or(consentEnv, old(consent))
      ensures sampling == SamplingFrom(old(sampling), f) && exporters == ExportersFrom(old(exporters), f)
      ensures strictSchema == (f.strictSchema || f.strictEventName) && (!sinkWanted ==> sink == old(sink))
      ensures queues.View() == Queues.Rebuilt(old(queues.View()), QueuePolicyOf(f))
      ensures old(queues.chans) <= queues.chans && consolePrepared == (old(consolePrepared) || console)
      ensures logger.Some? && logger.value.sink == sink && nextHandle >= old(nextHandle)
      ensures sinkWanted ==> HandlesOk()
    {
      hide Queues.Rebuilt, SamplingFrom, ExportersFrom, Joined;
      Queues.RebuildAppends(queues.View(), QueuePolicyOf(f));
      prior := CaptureProcessState();
      InstallDestination(sinkWanted, console, consentEnv);
      ApplyRuntimePolicies(f);
      setupError := Joined(warnings);
      if wraps { WrapLogger(); }
    }

    /** Reconfigure's part: the destination moves only when the caller asks (go/runtime.go:313-314). */
    method ApplyAndMove(f: Fields, moveSink: bool, console: bool)
      modifies this, queues
      ensures sampling == SamplingFrom(old(sampling), f) && exporters == ExportersFrom(old(exporters), f)
      ensures strictSchema == (f.strictSchema || f.strictEventName) && consent == old(consent) &&
        setupError == old(setupError)
      ensures queues.View() == Queues.Rebuilt(old(queues.View()), QueuePolicyOf(f))
      ensures logger.Some? && logger.value.sink == old(sink) && nextHandle >= old(nextHandle)
      ensures if moveSink then sink == Some(old(nextHandle) + 1) && HandlesOk() else sink == old(sink)
    {
      hide Queues.Rebuilt, SamplingFrom, ExportersFrom;
      ApplyRuntimePolicies(f);
      if moveSink {
        PrepareConsole(console);
        InstallLogSink();
      }
    }

    method CaptureProcessState() returns (snap: Snapshot)
      ensures snap == View()
    {
      var current := queues.Capture();
      snap := Snapshot(sampling, current, exporters, strictSchema, consent, logger, slogDefault, preTelemetry, sink,
               consolePrepared);
    }

    /** A console someone else had prepared stays as it is. */
    method RestoreProcessState(snap: Snapshot)
      modifies this`sampling, this`exporters, this`strictSchema, this`consent
      modifies this`logger, this`slogDefault, this`preTelemetry, this`sink, this`consolePrepared, queues
      ensures View() == snap.(consolePrepared := snap.consolePrepared && old(consolePrepared))
      ensures queues.chans == old(queues.chans) && queues.dropped == old(queues.dropped)
    {
      sampling, exporters, strictSchema, consent := snap.sampling, snap.exporters, snap.strictSchema, snap.consent;
      queues.Restore(snap.queues);
      RestoreLogging(snap);
    }

    /** The public setters other goroutines may call at any time: none of them takes the setup lock. */
    method Set(setter: Setter)
      modifies this`sampling, this`exporters, this`strictSchema, this`consent, queues
      ensures Values() == old(Assigned(Values(), setter))
      ensures !setter.SetQueues? ==> queues.View() == old(queues.View())
    {
      match setter {
        case SetConsent(c) => consent := c;
        case SetExporter(signal, policy) => exporters := exporters[signal := policy];
        case SetSampling(signal, rate, overrides) =>
          var ok := SetSamplingPolicy(signal, rate, overrides);
        case SetStrict(strict) => strictSchema := strict;
        case SetQueues(policy) => queues.SetQueuePolicy(policy);
      }
    }

    method SetAll(setters: seq<Setter>)
      modifies this`sampling, this`exporters, this`strictSchema, this`consent, queues
      ensures Values() == AllAssigned(old(Values()), setters)
      ensures NoQueues(setters) ==> queues.current == old(queues.current)
    {
      hide Assigned;
      for i := 0 to |setters|
        invariant Values() == AllAssigned(old(Values()), setters[..i])
        invariant (forall j :: 0 <= j < i ==> !setters[j].SetQueues?) ==> queues.current == old(queues.current)
      {
        assert setters[..i + 1][..i] == setters[..i];
        Set(setters[i]);
      }
      assert setters[..|setters|] == setters;
    }

    /** The rest of a restore: loggers, sink and console. */
    method RestoreLogging(snap: Snapshot)
      modifies this`logger, this`slogDefault, this`preTelemetry, this`sink, this`consolePrepared
      ensures logger == snap.logger && slogDefault == snap.slogDefault && preTelemetry == snap.preTelemetry
      ensures sink == snap.sink && consolePrepared == (snap.consolePrepared && old(consolePrepared))
    {
      logger, slogDefault, preTelemetry, sink := snap.logger, snap.slogDefault, snap.preTelemetry, snap.sink;
      if !snap.consolePrepared { consolePrepared := false; }
    }

    method PutSamplingAndQueues(snap: Snapshot, late: Late)
      modifies this`sampling, this`exporters, this`strictSchema, this`consent, queues
      ensures var x := AllAssigned(old(Values()).(rates := SettingsOf(snap).rates), late.sampling);
        Values() == AllAssigned(x.(queues := snap.queues.policy), late.queues)
      ensures NoQueues(late.queues) ==> queues.current == snap.queues
    {
      hide AllAssigned, NoQueues;
      sampling := snap.sampling;
      SetAll(late.sampling);
      queues.Restore(snap.queues);
      SetAll(late.queues);
    }

    /** RestoreProcessState, one critical section at a time. */
    method RestoreAmongOthers(snap: Snapshot, late: Late)
      modifies this`sampling, this`exporters, this`strictSchema, this`consent
      modifies this`logger, this`slogDefault, this`preTelemetry, this`sink, this`consolePrepared, queues
      ensures Values() == OnlyLate(SettingsOf(snap), late)
      ensures logger == snap.logger && slogDefault == snap.slogDefault && preTelemetry == snap.preTelemetry
      ensures sink == snap.sink && consolePrepared == (snap.consolePrepared && old(consolePrepared))
      ensures NoQueues(late.queues + late.exporters + late.strict + late.consent) ==> queues.current == snap.queues
    {
      hide AllAssigned, OnlyLate, NoQueues;
      PutBackOnlyLate(SettingsOf(snap), Values(), late);
      NoQueuesIn(late.queues + late.exporters + late.strict, late.consent);
      NoQueuesIn(late.queues + late.exporters, late.strict);
      NoQueuesIn(late.queues, late.exporters);
      PutSamplingAndQueues(snap, late);
      exporters := snap.exporters;
      SetAll(late.exporters);
      strictSchema := snap.strictSchema;
      SetAll(late.strict);
      consent := snap.consent;
      SetAll(late.consent);
      RestoreLogging(snap);
    }

    /** A setup that fails while other goroutines call setters before and during its rollback. The rollback undoes
        their changes along with its own, an opt-out included, but for what is set after it has put that very
        setting back. */
    method FailedSetupAmongOthers(
      f: Fields, warnings: Names, sinkWanted: bool, console: bool, consentEnv: Option<Accounting.Consent>, wraps: bool,
      others: seq<Setter>, late: Late)
      modifies this, queues
      ensures Values() == OnlyLate(old(Values()), late)
      ensures logger == old(logger) && slogDefault == old(slogDefault) && preTelemetry == old(preTelemetry)
      ensures sink == old(sink) && consolePrepared == old(consolePrepared)
      ensures NoQueues(late.queues + late.exporters + late.strict + late.consent) ==>
        queues.current == old(queues.current)
    {
      hide Queues.Rebuilt, SamplingFrom, ExportersFrom, Joined, OnlyLate;
      var prior := CaptureAndInstall(f, warnings, sinkWanted, console, consentEnv, wraps);
      assert SettingsOf(prior) == old(Values());
      SetAll(others);
      RestoreAmongOthers(prior, late);
    }

    /** ShutdownTelemetry's part: the logger and the sink go, the default from before setup returns. */
    method ResetLogger()
      modifies this`logger, this`slogDefault, this`preTelemetry, this`sink, this`consolePrepared, this`nextHandle
      ensures logger == None && preTelemetry == None && sink == None && !consolePrepared &&
        nextHandle >= old(nextHandle)
      ensures old(preTelemetry).Some? ==> slogDefault == old(preTelemetry).value
    {
      logger := None;
      if preTelemetry.Some? {
        slogDefault, preTelemetry := preTelemetry.value, None;
      } else {
        slogDefault, nextHandle := Logger(nextHandle, None), nextHandle + 1;
      }
      sink := None;
      consolePrepared := false;
    }
  }
}
