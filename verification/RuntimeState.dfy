/** The published runtime in memory (go/runtime_generation.go, go/runtime.go, go/setup.go): generations hold
    configs by reference, every entry point runs under _setupMu, and a host keeps, and may overwrite, every
    config object it passed in or was handed. */
module RuntimeState {
  import opened Common
  import opened Config
  import opened ConfigHeap
  import opened ProcessState
  import Accounting
  import Queues
  import Spec = RuntimeSpec

  datatype Generation = Generation(number: nat, config: ConfigObject, logger: Option<Logger>)

  /** The writer WithLogOutput was given, if it was passed at all. */
  datatype Writer = NilWriter | HostWriter

  /** What a backend does while it is wired: it may wrap the logger, and may fail. */
  datatype Wiring = Wiring(ok: bool, wraps: bool)

  /** What setup or reconfigure aims at: the caller's config if it passes validation, else the environment. */
  ghost function Target(config: ConfigObject?, valid: bool, env: Option<Config>, output: Option<Writer>): Option<Config>
    reads config, if config == null then {} else config.Refs()
  {
    if output == Some(NilWriter) then None
    else if config != null then (if valid then Some(config.View()) else None)
    else env
  }

  class Package {
    var setupDone: bool
    var runtimeCfg: ConfigObject?
    var generation: Option<Generation>
    var counter: nat
    var tracingOff: bool
    var metricsOff: bool
    const process: Process

    /** Every config ever published with its contents at publication, and all their objects. */
    ghost var history: map<ConfigObject, Config>
    ghost var owned: set<object>

    /** Nothing published has been written since, and nothing it refers to lies outside owned. */
    ghost predicate Frozen()
      reads this`history, this`owned, owned
    {
      && this !in owned && process !in owned && process.queues !in owned
      && (forall c :: c in history ==> c in owned && c.Refs() <= owned && c.View() == history[c])
    }

    ghost predicate Valid()
      reads this, owned
    {
      && Frozen()
      && (setupDone <==> runtimeCfg != null) && (setupDone <==> generation.Some?)
      && (runtimeCfg != null ==>
           runtimeCfg in history && generation.value.config == runtimeCfg && generation.value.number == counter)
      && (tracingOff <==> runtimeCfg != null && !history[runtimeCfg].fields.tracing.enabled)
      && (metricsOff <==> runtimeCfg != null && !history[runtimeCfg].fields.metrics.enabled)
    }

    /** The runtime as values. */
    ghost function Abs(): Spec.Runtime
      requires Valid()
      reads this, owned
    {
      if runtimeCfg == null then Spec.Runtime(setupDone, None, None, counter)
      else Spec.Runtime(setupDone, Some(history[runtimeCfg]), Some(Spec.Generation(counter, history[runtimeCfg])),
        counter)
    }

    constructor (p: Process)
      ensures Valid() && Abs() == Spec.Init && process == p && history == map[] && owned == {}
    {
      process := p;
      setupDone, runtimeCfg, generation, counter, tracingOff, metricsOff := false, null, None, 0, false, false;
      history, owned := map[], {};
    }

    /** What every entry point keeps: earlier publications stay as they were, new ones are new objects. */
    twostate predicate Grew()
      reads this
    {
      && (forall c :: c in old(history) ==> c in history && history[c] == old(history[c]))
      && old(owned) <= owned && fresh(owned - old(owned))
    }

    lemma FrozenApart()
      requires Frozen()
      ensures this !in owned && process !in owned && process.queues !in owned
    {}

    lemma FrozenAt(c: ConfigObject)
      requires Frozen() && c in history
      ensures c in owned && c.Refs() <= owned && c.View() == history[c]
    {}

    /** Publishing adds one object to the books and writes none of the earlier ones. */
    twostate lemma StaysFrozen(cfg: ConfigObject)
      requires old(Frozen()) && unchanged(old(owned)) && cfg !in old(history) &&
        {this, process, process.queues} !! {cfg} + cfg.Refs()
      requires history == old(history)[cfg := cfg.View()] && owned == old(owned) + {cfg} + cfg.Refs()
      ensures Frozen()
    {
      hide ConfigObject.View, ConfigObject.Refs;
      forall c | c in history ensures c in owned && c.Refs() <= owned && c.View() == history[c] {
        if c != cfg {
          assert c in old(owned) && old(c.Refs()) <= old(owned);
        }
      }
    }

    /** _publishGenerationLocked. */
    method PublishGeneration(cfg: ConfigObject)
      requires Frozen() && cfg !in history && {this, process, process.queues} !! {cfg} + cfg.Refs()
      modifies this`runtimeCfg, this`generation, this`counter, this`tracingOff, this`metricsOff, this`history,
        this`owned
      ensures Frozen() && runtimeCfg == cfg && counter == old(counter) + 1
      ensures generation == Some(Generation(counter, cfg, process.logger))
      ensures tracingOff == !cfg.fields.tracing.enabled && metricsOff == !cfg.fields.metrics.enabled
      ensures history == old(history)[cfg := cfg.View()] && owned == old(owned) + {cfg} + cfg.Refs()
    {
      hide ConfigObject.View, ConfigObject.Refs, Frozen;
      FrozenApart();
      runtimeCfg := cfg;
      tracingOff, metricsOff := !cfg.fields.tracing.enabled, !cfg.fields.metrics.enabled;
      counter := counter + 1;
      generation := Some(Generation(counter, cfg, process.logger));
      history := history[cfg := cfg.View()];
      owned := owned + {cfg} + cfg.Refs();
      StaysFrozen(cfg);
    }

    /** _clearGenerationLocked. */
    method ClearGeneration()
      modifies this`runtimeCfg, this`generation, this`tracingOff, this`metricsOff
      ensures runtimeCfg == null && generation == None && !tracingOff && !metricsOff
    {
      runtimeCfg, generation, tracingOff, metricsOff := null, None, false, false;
    }

    /** The published logger is the one just built, and it is bound to the sink from before; the sink in force
        is a new one exactly if it moved. */
    twostate predicate LoggerBound(moved: bool)
      reads this, process
    {
      && generation.Some? && generation.value.logger == process.logger && process.logger.Some?
      && process.logger.value.sink == old(process.sink)
      && (if moved then process.sink.Some? && process.sink.value >= old(process.nextHandle)
        else process.sink == old(process.sink))
    }

    /** So the published logger writes to the sink in force exactly if the reconfigure did not move it. */
    twostate lemma LoggerFollowsSinkIff(moved: bool)
      requires old(process.HandlesOk()) && LoggerBound(moved)
      ensures generation.value.logger.value.sink == process.sink <==> !moved
    {}

    /** The tail of update, reload and reconfigure: apply next's policies and publish it. */
    method Commit(next: ConfigObject, moveSink: bool, console: bool)
      requires Valid() && setupDone && next !in history && {this, process, process.queues} !! {next} + next.Refs()
      modifies this, process, process.queues
      ensures Valid() && Abs() == Spec.Publish(old(Abs()), old(next.View()))
      ensures history == old(history)[next := old(next.View())] && owned == old(owned) + {next} + old(next.Refs())
      ensures LoggerBound(moveSink)
    {
      hide ConfigObject.View, ConfigObject.Refs, Frozen, Queues.Rebuilt, SamplingFrom, ExportersFrom;
      FrozenApart();
      process.ApplyAndMove(next.fields, moveSink, console);
      next.Stays();
      assert Frozen();
      PublishGeneration(next);
      next.Stays();
    }

    /** A config cloned from the published one: the same contents in objects of its own. */
    method CloneRuntimeConfig() returns (next: ConfigObject)
      requires Valid() && runtimeCfg != null
      ensures fresh(next) && fresh(next.Refs()) && next.View() == history[runtimeCfg]
    {
      FrozenAt(runtimeCfg);
      hide ConfigObject.View, ConfigObject.Refs, Frozen;
      next := runtimeCfg.Clone();
      FrozenAt(runtimeCfg);
    }

    /** Clone the published config, apply the overrides to the clone, publish it. */
    method CommitOverrides(o: OverrideStructs)
      requires Valid() && setupDone
      modifies this, process, process.queues
      ensures Valid() && Grew()
      ensures Abs() == Spec.Publish(old(Abs()), ApplyOverrides(old(history[runtimeCfg]), old(Contents(o))))
    {
      hide ConfigObject.View, ConfigObject.Refs, ApplyOverrides, Frozen;
      var next := CloneRuntimeConfig();
      assert Contents(o) == old(Contents(o));
      next.ApplyRuntimeOverrides(o);
      assert next.View() == ApplyOverrides(history[runtimeCfg], old(Contents(o)));
      Commit(next, false, false);
    }

    /** UpdateRuntimeConfig. */
    method UpdateRuntimeConfig(o: OverrideStructs, valid: bool) returns (ok: bool)
      requires Valid()
      modifies this, process, process.queues
      ensures Valid() && Grew()
      ensures ok == Spec.Accepted(old(Abs()), Spec.Update(old(Contents(o)), valid))
      ensures Abs() == Spec.Step(old(Abs()), Spec.Update(old(Contents(o)), valid))
    {
      hide ConfigObject.View, ConfigObject.Refs, ApplyOverrides, Frozen, Contents;
      if !setupDone || runtimeCfg == null || !valid { return false; }
      CommitOverrides(o);
      return true;
    }

    /** ConfigFromEnv, or WithConfig's clone once it passes validation; no target with a nil writer. */
    method ResolveTarget(
      config: ConfigObject?, valid: bool, env: Option<Config>, output: Option<Writer>)
      returns (cfg: ConfigObject?)
      ensures cfg == null <==> old(Target(config, valid, env, output)) == None
      ensures cfg != null ==>
        fresh(cfg) && fresh(cfg.Refs()) && Some(cfg.View()) == old(Target(config, valid, env, output))
    {
      if output == Some(NilWriter) { return null; }
      if config != null {
        var own := config.Clone();
        return if valid then own else null;
      }
      if env == None { return null; }
      cfg := Parsed(env.value);
    }

    /** ReloadRuntimeFromEnv. */
    method ReloadRuntimeFromEnv(env: Option<Config>, live: Live) returns (ok: bool)
      requires Valid()
      modifies this, process, process.queues
      ensures Valid() && Grew()
      ensures ok == Spec.Accepted(old(Abs()), Spec.Reload(env, live))
      ensures Abs() == Spec.Step(old(Abs()), Spec.Reload(env, live))
    {
      hide ConfigObject.View, ConfigObject.Refs, ApplyOverrides, Frozen, Contents, OverridesFrom, LoggerFieldsChanged;
      if !setupDone || env == None { return false; }
      FrozenAt(runtimeCfg);
      var cfg := Parsed(env.value);
      if live.logs && LoggerFieldsChanged(runtimeCfg.View(), cfg.View()) { return false; }
      cfg.AsOverridesContents();
      CommitOverrides(cfg.AsOverrides());
      return true;
    }

    /** A config handed out shares nothing with the runtime, now or later. */
    ghost predicate Apart(c: ConfigObject)
      reads this, c
    {
      {c} + c.Refs() !! owned + {this, process, process.queues}
    }

    /** GetRuntimeConfig, and the config of loadRuntimeGeneration. */
    method GetRuntimeConfig() returns (c: ConfigObject?)
      requires Valid()
      ensures c == null <==> runtimeCfg == null
      ensures c != null ==> fresh(c) && fresh(c.Refs()) && Apart(c) && Some(c.View()) == Abs().config
    {
      hide ConfigObject.View, ConfigObject.Refs, Frozen;
      if runtimeCfg == null { return null; }
      c := CloneRuntimeConfig();
    }

    method LoadRuntimeGeneration() returns (number: nat, c: ConfigObject?, logger: Option<Logger>)
      requires Valid()
      ensures c == null <==> generation == None
      ensures c == null ==> number == 0 && logger == None
      ensures c != null ==>
        fresh(c) && fresh(c.Refs()) && Apart(c) && Some(Spec.Generation(number, c.View())) == Abs().generation
      ensures c != null ==> logger == generation.value.logger
    {
      hide ConfigObject.View, ConfigObject.Refs, Frozen;
      if generation == None { return 0, null, None; }
      c := CloneRuntimeConfig();
      number, logger := generation.value.number, generation.value.logger;
    }

    /** Clone the published config, apply target's hot fields to the clone, publish it. */
    method CommitHotFields(target: ConfigObject, moveSink: bool, console: bool)
      requires Valid() && setupDone
      modifies this, process, process.queues
      ensures Valid() && Grew()
      ensures Abs() == Spec.Publish(old(Abs()), ApplyHotFields(old(history[runtimeCfg]), old(target.View())))
      ensures LoggerBound(moveSink)
    {
      hide ConfigObject.View, ConfigObject.Refs, ApplyHotFields, Frozen;
      var next := CloneRuntimeConfig();
      target.Stays();
      next.ApplyHotFieldsOf(target);
      assert next.View() == ApplyHotFields(history[runtimeCfg], old(target.View()));
      Commit(next, moveSink, console);
    }

    /** ReconfigureTelemetry. The published config never leaves: the caller gets a clone. */
    method ReconfigureTelemetry(
      config: ConfigObject?, valid: bool, env: Option<Config>, output: Option<Writer>, console: bool, live: Live)
      returns (result: ConfigObject?)
      requires Valid()
      modifies this, process, process.queues
      ensures Valid() && Grew()
      ensures result != null <==>
        Spec.Accepted(old(Abs()), Spec.Reconfigure(old(Target(config, valid, env, output)), live))
      ensures Abs() == Spec.Step(old(Abs()), Spec.Reconfigure(old(Target(config, valid, env, output)), live))
      ensures result != null ==>
        fresh(result) && fresh(result.Refs()) && Apart(result) && Some(result.View()) == Abs().config
      ensures result == null ==> process.View() == old(process.View())
      ensures result != null ==> LoggerBound(output.Some?)
    {
      hide ConfigObject.View, ConfigObject.Refs, Frozen, Target, Apart, Spec.Published;
      if !setupDone || runtimeCfg == null { return null; }
      var target := ResolveTarget(config, valid, env, output);
      if target == null { return null; }
      var ok := ReconfigureTo(target, output.Some?, console, live);
      if ok { result := GetRuntimeConfig(); }
      else { result := null; }
    }

    /** The target is applied unless it would change what a live provider was built from. */
    method ReconfigureTo(target: ConfigObject, moveSink: bool, console: bool, live: Live) returns (ok: bool)
      requires Valid() && setupDone
      modifies this, process, process.queues
      ensures Valid() && Grew()
      ensures ok == Spec.Accepted(old(Abs()), Spec.Reconfigure(Some(old(target.View())), live))
      ensures Abs() == Spec.Step(old(Abs()), Spec.Reconfigure(Some(old(target.View())), live))
      ensures !ok ==> process.View() == old(process.View())
      ensures ok ==> LoggerBound(moveSink)
    {
      hide ConfigObject.View, ConfigObject.Refs, ApplyHotFields, ProviderConfigChanged, Frozen;
      FrozenAt(runtimeCfg);
      if ProviderConfigChanged(runtimeCfg.View(), target.View(), live) { return false; }
      CommitHotFields(target, moveSink, console);
      return true;
    }

    /** ShutdownTelemetry. */
    method ShutdownTelemetry()
      requires Valid()
      modifies this, process
      ensures Valid() && Grew() && Abs() == Spec.Step(old(Abs()), Spec.Shutdown)
    {
      hide ConfigObject.View, ConfigObject.Refs, Frozen;
      if !setupDone { return; }
      FrozenApart();
      setupDone := false;
      ClearGeneration();
      process.ResetLogger();
    }

    /** SetupTelemetry. A setup that fails in backend wiring leaves policies, queues with their channels,
        consent, loggers, sink, gates and generation as before the call; only the health report's setup error
        keeps what the failed setup wrote. */
    method SetupTelemetry(
      config: ConfigObject?, valid: bool, env: Option<Config>, output: Option<Writer>, console: bool,
      consentEnv: Option<Accounting.Consent>, wiring: Wiring)
      returns (result: ConfigObject?)
      requires Valid()
      modifies this, process, process.queues
      ensures Valid() && Grew()
      ensures Abs() == Spec.Step(old(Abs()), Spec.Setup(old(Target(config, valid, env, output)), wiring.ok))
      ensures result != null <==> setupDone
      ensures result != null ==>
        fresh(result) && fresh(result.Refs()) && Apart(result) && Some(result.View()) == Abs().config
      ensures result == null ==> RolledBack()
      ensures var target := old(Target(config, valid, env, output));
        !old(setupDone) && target.Some? && !wiring.ok ==> process.setupError == Joined(target.value.exporterWarnings)
    {
      hide ConfigObject.View, ConfigObject.Refs, Frozen, Target, Apart, Spec.Published, Joined;
      if setupDone {
        result := GetRuntimeConfig();
        return;
      }
      var cfg := ResolveTarget(config, valid, env, output);
      if cfg == null { return null; }
      FreshIsApart(cfg);
      var ok := Install(cfg, output.Some?, console, consentEnv, wiring);
      if ok { result := GetRuntimeConfig(); }
      else { result := null; }
    }

    lemma FreshIsApart(c: ConfigObject)
      requires {c} + c.Refs() !! owned + {this, process, process.queues}
      ensures Apart(c)
    {}

    /** Everything the rest of the program reads is as before the call. */
    twostate predicate RolledBack()
      reads this, process, process.queues
    {
      && process.View() == old(process.View())
      && runtimeCfg == old(runtimeCfg) && generation == old(generation) && setupDone == old(setupDone) &&
        counter == old(counter)
      && tracingOff == old(tracingOff) && metricsOff == old(metricsOff)
      && old(process.queues.chans) <= process.queues.chans
    }

    /** The part of setup that writes: cfg is the resolved config, which no caller can reach. */
    method Install(
      cfg: ConfigObject, sinkWanted: bool, console: bool, consentEnv: Option<Accounting.Consent>, wiring: Wiring)
      returns (ok: bool)
      requires Valid() && !setupDone && cfg !in history && Apart(cfg)
      modifies this, process, process.queues
      ensures Valid() && ok == wiring.ok
      ensures Abs() == Spec.Step(old(Abs()), Spec.Setup(Some(old(cfg.View())), wiring.ok))
      ensures ok ==> history == old(history)[cfg := old(cfg.View())] && owned == old(owned) + {cfg} + old(cfg.Refs())
      ensures !ok ==> history == old(history) && owned == old(owned) && RolledBack()
      ensures process.setupError == Joined(old(cfg.View()).exporterWarnings)
    {
      hide ConfigObject.View, ConfigObject.Refs, Frozen, Joined;
      FrozenApart();
      var prior := Prepare(cfg, sinkWanted, console, consentEnv, wiring);
      if !wiring.ok {
        setupDone := false;
        ClearGeneration();
        process.RestoreProcessState(prior);
        return false;
      }
      PublishGeneration(cfg);
      cfg.Stays();
      return true;
    }

    /** Everything up to and including backend wiring: policies, gates and config are in place, and no
        generation is visible yet. */
    method Prepare(
      cfg: ConfigObject, sinkWanted: bool, console: bool, consentEnv: Option<Accounting.Consent>, wiring: Wiring)
      returns (prior: Snapshot)
      requires Frozen() && Apart(cfg)
      modifies this`runtimeCfg, this`setupDone, this`tracingOff, this`metricsOff, process, process.queues
      ensures Frozen() && setupDone && runtimeCfg == cfg && prior == old(process.View())
      ensures cfg.View() == old(cfg.View()) && cfg.Refs() == old(cfg.Refs()) && cfg.fields == old(cfg.fields)
      ensures tracingOff == !cfg.fields.tracing.enabled && metricsOff == !cfg.fields.metrics.enabled
      ensures old(process.queues.chans) <= process.queues.chans && (prior.consolePrepared ==> process.consolePrepared)
      ensures process.setupError == Joined(old(cfg.View()).exporterWarnings)
    {
      hide ConfigObject.View, ConfigObject.Refs, Frozen, Queues.Rebuilt, SamplingFrom, ExportersFrom, Joined,
        QueuePolicyOf;
      FrozenApart();
      prior := process.CaptureAndInstall(cfg.fields, cfg.exporterWarnings.items, sinkWanted, console, consentEnv,
        wiring.wraps);
      runtimeCfg, setupDone := cfg, true;
      tracingOff, metricsOff := !cfg.fields.tracing.enabled, !cfg.fields.metrics.enabled;
      cfg.Stays();
    }
  }
}
