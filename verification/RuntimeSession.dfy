/** Whole runs: a host calls the runtime's entry points in any order, with configs of its own and with configs
    it was handed, and between calls overwrites whatever it can reach. */
module RuntimeSession {
  import opened Common
  import opened Config
  import opened ConfigHeap
  import opened RuntimeState
  import Accounting

  datatype Command =
    | Setup(use: Option<nat>, valid: bool, env: Option<Config>, output: Option<Writer>, console: bool,
            consentEnv: Option<Accounting.Consent>, wiring: Wiring)
    | Update(plain: PlainOverrides, schemaOf: Option<nat>, loggingOf: Option<nat>, valid: bool)
    | Reload(env: Option<Config>, live: Live)
    | Reconfigure(use: Option<nat>, valid: bool, env: Option<Config>, output: Option<Writer>, console: bool, live: Live)
    | Read
    | Load
    | Shutdown
    | Scribble(at: nat, junk: Config)
    | Share(at: nat, from: nat)

  /** The host's configs and everything they refer to. */
  ghost predicate Hosted(pool: seq<ConfigObject>, foot: set<object>)
    reads foot
  {
    forall c :: c in pool ==> c in foot && c.Refs() <= foot
  }

  ghost predicate Outside(pkg: Package, foot: set<object>)
    reads pkg
  {
    foot !! pkg.owned + {pkg, pkg.process, pkg.process.queues}
  }

  function Pick(pool: seq<ConfigObject>, use: Option<nat>): ConfigObject? {
    if use.Some? && use.value < |pool| then pool[use.value] else null
  }

  /** Any overrides the host can put together: plain values of its own, and pointers into configs it holds. */
  function Overriding(
    pool: seq<ConfigObject>, plain: PlainOverrides, schemaOf: Option<nat>, loggingOf: Option<nat>): OverrideStructs
    reads set c | c in pool
  {
    var s, l := Pick(pool, schemaOf), Pick(pool, loggingOf);
    OverrideStructs(plain, if s == null then None else s.AsOverrides().schema, if l == null then None
      else l.AsOverrides().logging)
  }

  /** The host keeps a config it was handed. */
  ghost predicate Handed(pkg: Package, c: ConfigObject?)
    reads pkg, c
  {
    c != null ==> pkg.Apart(c)
  }

  /** The host overwrites a config it holds, and the maps and slices in it, with anything. */
  method Overwrite(c: ConfigObject, junk: Config)
    modifies c, c.Refs()
    ensures c.Refs() == old(c.Refs())
  {
    c.fields := junk.fields;
    c.logHeaders.entries := junk.logHeaders;
    c.moduleLevels.entries := junk.moduleLevels;
    c.prettyFields.items := junk.prettyFields;
    c.traceHeaders.entries := junk.traceHeaders;
    c.metricHeaders.entries := junk.metricHeaders;
    c.exporters.items := junk.exporters;
    c.exporterWarnings.items := junk.exporterWarnings;
    c.requiredKeys.items := junk.requiredKeys;
  }

  /** The host makes one of its configs share another's maps and slices. */
  method Alias(c: ConfigObject, d: ConfigObject)
    modifies c
    ensures c.Refs() <= old(c.Refs()) + old(d.Refs())
  {
    c.logHeaders, c.moduleLevels, c.prettyFields := d.logHeaders, d.moduleLevels, d.prettyFields;
    c.traceHeaders, c.metricHeaders, c.requiredKeys := d.traceHeaders, d.metricHeaders, d.requiredKeys;
    c.exporters, c.exporterWarnings := d.exporters, d.exporterWarnings;
  }

  /** One call into the runtime. */
  method Call(
    pkg: Package, pool: seq<ConfigObject>, ghost foot: set<object>, command: Command)
    returns (got: ConfigObject?)
    requires pkg.Valid() && Hosted(pool, foot) && Outside(pkg, foot)
    modifies pkg, pkg.process, pkg.process.queues
    ensures pkg.Valid() && pkg.Grew() && Handed(pkg, got)
    ensures got != null ==> fresh(got) && fresh(got.Refs())
  {
    hide ConfigObject.View, ConfigObject.Refs, Package.Frozen, Package.Apart, Contents, Target, Hosted;
    got := null;
    match command {
      case Setup(use, valid, env, output, console, consentEnv, wiring) =>
        got := pkg.SetupTelemetry(Pick(pool, use), valid, env, output, console, consentEnv, wiring);
      case Update(plain, schemaOf, loggingOf, valid) =>
        var ok := pkg.UpdateRuntimeConfig(Overriding(pool, plain, schemaOf, loggingOf), valid);
      case Reload(env, live) =>
        var ok := pkg.ReloadRuntimeFromEnv(env, live);
      case Reconfigure(use, valid, env, output, console, live) =>
        got := pkg.ReconfigureTelemetry(Pick(pool, use), valid, env, output, console, live);
      case Read => got := pkg.GetRuntimeConfig();
      case Load =>
        var number, c, logger := pkg.LoadRuntimeGeneration();
        got := c;
      case Shutdown => pkg.ShutdownTelemetry();
      case _ =>
    }
  }

  /** What the host does on its own side. */
  method Meddle(pkg: Package, pool: seq<ConfigObject>, ghost foot: set<object>, command: Command)
    requires pkg.Valid() && Hosted(pool, foot) && Outside(pkg, foot)
    modifies foot
    ensures pkg.Valid() && Hosted(pool, foot)
    ensures pkg.history == old(pkg.history) && pkg.owned == old(pkg.owned)
  {
    hide ConfigObject.View, ConfigObject.Refs, Package.Frozen;
    match command {
      case Scribble(at, junk) =>
        if at < |pool| {
          forall c | c in pool ensures c !in pool[at].Refs() { NotARef(c, pool[at]); }
          Overwrite(pool[at], junk);
          forall c | c in pool ensures c in foot && c.Refs() <= foot { assert c.Refs() == old(c.Refs()); }
        }
      case Share(at, from) =>
        if at < |pool| && from < |pool| {
          Alias(pool[at], pool[from]);
          forall c | c in pool
            ensures c in foot && c.Refs() <= foot
          {
            assert c != pool[at] ==> c.Refs() == old(c.Refs());
          }
        }
      case _ =>
    }
  }

  lemma NotARef(c: ConfigObject, d: ConfigObject)
    ensures c !in d.Refs()
  {}

  /** Over every run: each config ever published still has the contents it was published with, and nothing the
      host passed in or was handed shares an object with one. */
  method Session(pkg: Package, mine: seq<ConfigObject>, ghost foot: set<object>, commands: seq<Command>)
    returns (pool: seq<ConfigObject>, ghost reach: set<object>)
    requires pkg.Valid() && Hosted(mine, foot) && Outside(pkg, foot)
    modifies pkg, pkg.process, pkg.process.queues, foot
    ensures pkg.Valid()
    ensures forall c :: c in pkg.history ==> c.View() == pkg.history[c]
    ensures forall c :: c in old(pkg.history) ==> c in pkg.history && pkg.history[c] == old(pkg.history[c])
    ensures Hosted(pool, reach) && Outside(pkg, reach) && mine <= pool
  {
    hide ConfigObject.View, ConfigObject.Refs, Hosted;
    pool, reach := mine, foot;
    for i := 0 to |commands|
      invariant pkg.Valid() && Hosted(pool, reach) && Outside(pkg, reach) && mine <= pool
      invariant foot <= reach && fresh(reach - foot)
      invariant forall c :: c in old(pkg.history) ==> c in pkg.history && pkg.history[c] == old(pkg.history[c])
    {
      pool, reach := Turn(pkg, pool, reach, commands[i]);
    }
  }

  method Turn(pkg: Package, pool: seq<ConfigObject>, ghost foot: set<object>, command: Command)
    returns (after: seq<ConfigObject>, ghost reach: set<object>)
    requires pkg.Valid() && Hosted(pool, foot) && Outside(pkg, foot)
    modifies pkg, pkg.process, pkg.process.queues, foot
    ensures pkg.Valid() && pkg.Grew() && Hosted(after, reach) && Outside(pkg, reach)
    ensures pool <= after && foot <= reach && fresh(reach - foot)
  {
    hide ConfigObject.View, ConfigObject.Refs, Package.Frozen;
    Meddle(pkg, pool, foot, command);
    var got := Call(pkg, pool, foot, command);
    after, reach := pool, foot;
    if got != null {
      after, reach := pool + [got], foot + {got} + got.Refs();
    }
  }
}
