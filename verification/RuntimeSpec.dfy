/** The runtime as values: what each entry point publishes (go/runtime_generation.go:78-95,
    go/runtime.go:81-136, go/runtime.go:275-317, go/setup.go:177-268, go/setup.go:395-431). Every entry point
    runs under _setupMu, so one call is one step. Environment, validators and backends are arguments. */
module RuntimeSpec {
  import opened Common
  import opened Config

  datatype Generation = Generation(number: nat, config: Config)

  datatype Runtime = Runtime(setupDone: bool, config: Option<Config>, generation: Option<Generation>, counter: nat)

  const Init := Runtime(false, None, None, 0)

  datatype Call =
    | Setup(target: Option<Config>, wired: bool)          // target: None when nothing valid to set up from
    | Update(overrides: Overrides, valid: bool)
    | Reload(env: Option<Config>, live: Live)
    | Reconfigure(wanted: Option<Config>, live: Live)
    | Shutdown

  function Publish(r: Runtime, c: Config): Runtime {
    Runtime(r.setupDone, Some(c), Some(Generation(r.counter + 1, c)), r.counter + 1)
  }

  /** Whether the call publishes a generation. */
  predicate Accepted(r: Runtime, call: Call) {
    match call
    case Setup(target, wired) => !r.setupDone && target.Some? && wired
    case Update(_, valid) => r.setupDone && r.config.Some? && valid
    case Reload(env, live) =>
      r.setupDone && r.config.Some? && env.Some? && !(live.logs && LoggerFieldsChanged(r.config.value, env.value))
    case Reconfigure(wanted, live) =>
      r.setupDone && r.config.Some? && wanted.Some? && !ProviderConfigChanged(r.config.value, wanted.value, live)
    case Shutdown => false
  }

  /** The config an accepted call publishes. */
  function Published(r: Runtime, call: Call): Config
    requires Accepted(r, call)
  {
    match call
    case Setup(target, _) => target.value
    case Update(overrides, _) => ApplyOverrides(r.config.value, overrides)
    case Reload(env, _) => ApplyOverrides(r.config.value, OverridesFrom(env.value))
    case Reconfigure(wanted, _) => ApplyHotFields(r.config.value, wanted.value)
  }

  function Cleared(r: Runtime): Runtime { Runtime(false, None, None, r.counter) }

  function Step(r: Runtime, call: Call): Runtime {
    if Accepted(r, call) then Publish(r, Published(r, call)).(setupDone := true)
    else
      match call
      case Shutdown => if r.setupDone then Cleared(r) else r
      case Setup(target, _) => if !r.setupDone && target.Some? then Cleared(r) else r
      case _ => r
  }

  /** A config is in force exactly between setup and shutdown, and it is the published generation's. */
  predicate Consistent(r: Runtime) {
    && (r.setupDone <==> r.config.Some?) && (r.setupDone <==> r.generation.Some?)
    && (r.setupDone ==> r.generation == Some(Generation(r.counter, r.config.value)))
  }

  function Run(r: Runtime, calls: seq<Call>): Runtime
    decreases |calls|
  {
    if calls == [] then r else Step(Run(r, calls[..|calls| - 1]), calls[|calls| - 1])
  }

  lemma StepConsistent(r: Runtime, call: Call)
    requires Consistent(r)
    ensures Consistent(Step(r, call))
  {}

  lemma {:induction false} RunConsistent(r: Runtime, calls: seq<Call>)
    requires Consistent(r)
    ensures Consistent(Run(r, calls))
    decreases |calls|
  {
    hide Step, Consistent;
    if calls != [] {
      RunConsistent(r, calls[..|calls| - 1]);
      StepConsistent(Run(r, calls[..|calls| - 1]), calls[|calls| - 1]);
    }
  }

  /** A rejected call publishes nothing and leaves the runtime as it was, a setup that fails in backend
      wiring included. */
  lemma RejectedChangesNothing(calls: seq<Call>, call: Call)
    ensures var r := Run(Init, calls); !Accepted(r, call) && !(call.Shutdown? && r.setupDone) ==> Step(r, call) == r
  {
    RunConsistent(Init, calls);
    hide Run;
  }

  predicate NoShutdown(calls: seq<Call>) { Shutdown !in calls }

  lemma StepKeepsCold(r: Runtime, call: Call)
    requires Consistent(r) && r.setupDone && !call.Shutdown?
    ensures var t := Step(r, call); t.setupDone && SameCold(t.config.value, r.config.value)
  {}

  /** Between a successful setup and shutdown no run of setup, update, reload and reconfigure calls changes
      identity, Tracing or Metrics. */
  lemma {:induction false} ColdFieldsFrozen(r: Runtime, calls: seq<Call>)
    requires Consistent(r) && r.setupDone && NoShutdown(calls)
    ensures var t := Run(r, calls); Consistent(t) && t.setupDone && SameCold(t.config.value, r.config.value)
    decreases |calls|
  {
    if calls != [] {
      var front, call := calls[..|calls| - 1], calls[|calls| - 1];
      assert call in calls && forall x :: x in front ==> x in calls;
      ColdFieldsFrozen(r, front);
      StepConsistent(Run(r, front), call);
      StepKeepsCold(Run(r, front), call);
    }
  }

  /** The caller contract of UpdateRuntimeConfig: overrides leave the log exporter's fields as they are. */
  predicate KeepsLogExport(c: Config, o: Overrides) {
    o.logging.Some? ==>
      o.logging.value.logging.otlpEndpoint == c.fields.logging.otlpEndpoint &&
      o.logging.value.logging.otlpEnabled == c.fields.logging.otlpEnabled && o.logging.value.otlpHeaders == c.logHeaders
  }

  /** An accepted update keeps the log exporter's fields exactly when its overrides do. */
  lemma UpdateKeepsLogExportIff(r: Runtime, o: Overrides)
    requires Accepted(r, Update(o, true))
    ensures !LoggerFieldsChanged(Step(r, Update(o, true)).config.value, r.config.value) <==>
      KeepsLogExport(r.config.value, o)
  {}

  /** Without a live log provider a reload may change them; with one, neither reload nor reconfigure can. */
  predicate GuardsLogExport(r: Runtime, call: Call) {
    match call
    case Update(o, _) => r.config.Some? ==> KeepsLogExport(r.config.value, o)
    case Reload(_, live) => live.logs
    case _ => true
  }

  predicate AllGuard(r: Runtime, calls: seq<Call>) {
    forall i :: 0 <= i < |calls| ==> GuardsLogExport(Run(r, calls[..i]), calls[i])
  }

  lemma StepKeepsLogExport(r: Runtime, call: Call)
    requires Consistent(r) && r.setupDone && !call.Shutdown? && GuardsLogExport(r, call)
    ensures var t := Step(r, call); t.setupDone && !LoggerFieldsChanged(t.config.value, r.config.value)
  {}

  /** With a live log provider, no run of reloads, reconfigures and updates within their contract changes what
      the installed log exporter was built from. */
  lemma {:induction false} LogExportFrozen(r: Runtime, calls: seq<Call>)
    requires Consistent(r) && r.setupDone && NoShutdown(calls) && AllGuard(r, calls)
    ensures var t := Run(r, calls);
      t.setupDone && t.config.Some? && !LoggerFieldsChanged(t.config.value, r.config.value)
    decreases |calls|
  {
    if calls != [] {
      var n := |calls| - 1;
      var front, call := calls[..n], calls[n];
      assert call in calls && forall x :: x in front ==> x in calls;
      forall i | 0 <= i < n ensures GuardsLogExport(Run(r, front[..i]), front[i]) { assert front[..i] == calls[..i]; }
      LogExportFrozen(r, front);
      RunConsistent(r, front);
      assert GuardsLogExport(Run(r, calls[..n]), calls[n]);
      hide Run;
      StepKeepsLogExport(Run(r, front), call);
    }
    LastStep(r, calls);
  }

  lemma LastStep(r: Runtime, calls: seq<Call>)
    ensures Run(r, calls) == if calls == [] then r else Step(Run(r, calls[..|calls| - 1]), calls[|calls| - 1])
  {}

  /** Reload and reconfigure of the same environment, both accepted, publish the same config exactly when the
      log exporter's fields have not drifted; with a live log provider they always do. */
  lemma ReloadAgreesWithReconfigure(r: Runtime, env: Config, live: Live)
    requires Accepted(r, Reload(Some(env), live)) && Accepted(r, Reconfigure(Some(env), live))
    ensures Published(r, Reload(Some(env), live)) == Published(r, Reconfigure(Some(env), live)) <==>
      !LoggerFieldsChanged(r.config.value, env)
    ensures live.logs ==> Published(r, Reload(Some(env), live)) == Published(r, Reconfigure(Some(env), live))
  {
  }

  /** Generation numbers only grow, and a number names one config for good: along any run, shutdowns
      included, a generation with an earlier one's number is that generation. */
  lemma {:induction false} NumbersIncrease(r: Runtime, calls: seq<Call>)
    requires Consistent(r)
    ensures Run(r, calls).counter >= r.counter
    ensures var t := Run(r, calls); t.generation.Some? ==> t.generation.value.number == t.counter
    ensures var t := Run(r, calls); t.counter == r.counter ==> t.generation == None || t.generation == r.generation
    decreases |calls|
  {
    if calls != [] {
      var front := calls[..|calls| - 1];
      NumbersIncrease(r, front);
      RunConsistent(r, front);
      var m, call := Run(r, front), calls[|calls| - 1];
      StepConsistent(m, call);
      assert Run(r, calls) == Step(m, call);
      hide Run;
    }
  }

  /** Every accepted call publishes under a number above every one used before. */
  lemma PublishingIncreases(calls: seq<Call>, call: Call)
    ensures var r := Run(Init, calls); Accepted(r, call) ==>
      var t := Step(r, call);
      t.generation == Some(Generation(r.counter + 1, Published(r, call))) &&
        (r.generation.Some? ==> r.generation.value.number < t.generation.value.number)
  {
    RunConsistent(Init, calls);
    hide Run;
  }

  /** The gates the emit paths read: on unless a config in force switches the signal off. */
  predicate TracingEnabled(r: Runtime) { r.config.Some? ==> r.config.value.fields.tracing.enabled }
  predicate MetricsEnabled(r: Runtime) { r.config.Some? ==> r.config.value.fields.metrics.enabled }

  lemma GatesFrozen(r: Runtime, calls: seq<Call>)
    requires Consistent(r) && r.setupDone && NoShutdown(calls)
    ensures TracingEnabled(Run(r, calls)) == TracingEnabled(r) && MetricsEnabled(Run(r, calls)) == MetricsEnabled(r)
  {
    ColdFieldsFrozen(r, calls);
    hide Run;
  }
}
