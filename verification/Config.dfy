/** The telemetry config (go/config.go:38-244) as contents, and the pure part of changing it at run time
    (go/runtime.go:180-235, go/runtime.go:373-446). */
module Config {
  import opened Common

  type Headers = map<string, string>
  type Names = seq<string>

  datatype Identity = Identity(serviceName: string, environment: string, version: string)

  /** The logging fields no code here treats apart. */
  datatype Rendering = Rendering(
    level: string, format: string, includeTimestamp: bool, includeCaller: bool, sanitize: bool,
    logCodeAttributes: bool, prettyKeyColor: string, prettyValueColor: string)

  datatype Prometheus = Prometheus(
    listen: string, host: string, port: int, path: string, translation: string, scopeLabels: bool, targetInfo: bool,
    webConfig: string)

  datatype Logging = Logging(rendering: Rendering, piiMaxDepth: int, otlpEndpoint: string, otlpEnabled: bool)
  datatype Tracing = Tracing(enabled: bool, sampleRate: real, otlpEndpoint: string)
  datatype Metrics = Metrics(enabled: bool, otlpEndpoint: string, healthOtlp: bool, prometheus: Prometheus)
  datatype Sampling = Sampling(logs: real, traces: real, metrics: real)
  datatype Backpressure = Backpressure(logs: int, traces: int, metrics: int)
  datatype ExporterPolicy = ExporterPolicy(retries: int, backoff: real, timeout: real, failOpen: bool,
    allowBlocking: bool)
  datatype Exporter = Exporter(logs: ExporterPolicy, traces: ExporterPolicy, metrics: ExporterPolicy,
    logsShutdownTimeout: real)
  datatype Slo = Slo(red: bool, use: bool, taxonomy: bool)
  datatype Security = Security(maxValueLength: int, maxAttrCount: int, maxDepth: int)

  /** The blocks that hold no map or slice and are reloaded whole. */
  datatype Hot = Hot(sampling: Sampling, backpressure: Backpressure, exporter: Exporter, slo: Slo, security: Security)

  /** What no map or slice field holds. */
  datatype Fields = Fields(
    identity: Identity, strictConfig: bool, tracing: Tracing, metrics: Metrics,
    logging: Logging, strictSchema: bool, strictEventName: bool, hot: Hot)

  /** A whole config: its fields and the contents of its maps and slices. */
  datatype Config = Config(
    fields: Fields,
    logHeaders: Headers, moduleLevels: Headers, prettyFields: Names,
    traceHeaders: Headers,
    metricHeaders: Headers, exporters: Names, exporterWarnings: Names,
    requiredKeys: Names)

  datatype LoggingBlock = LoggingBlock(logging: Logging, otlpHeaders: Headers, moduleLevels: Headers,
    prettyFields: Names)
  datatype SchemaBlock = SchemaBlock(strictEventName: bool, requiredKeys: Names)

  /** The overrides that hold no map or slice. Nil pointers are None: keep the current value. */
  datatype PlainOverrides = PlainOverrides(
    sampling: Option<Sampling>, backpressure: Option<Backpressure>, exporter: Option<Exporter>,
    security: Option<Security>,
    slo: Option<Slo>, piiMaxDepth: Option<int>, strictSchema: Option<bool>)

  datatype Overrides = Overrides(plain: PlainOverrides, schema: Option<SchemaBlock>, logging: Option<LoggingBlock>)

  function Or<T>(o: Option<T>, otherwise: T): T { if o.Some? then o.value else otherwise }

  function HotAfter(h: Hot, o: PlainOverrides): Hot {
    Hot(Or(o.sampling, h.sampling), Or(o.backpressure, h.backpressure), Or(o.exporter, h.exporter), Or(o.slo, h.slo),
      Or(o.security, h.security))
  }

  /** applyRuntimeOverrides: PIIMaxDepth wins over the one inside Logging. */
  function ApplyOverrides(c: Config, o: Overrides): Config {
    var log := Or(o.logging, LoggingBlock(c.fields.logging, c.logHeaders, c.moduleLevels, c.prettyFields));
    var schema := Or(o.schema, SchemaBlock(c.fields.strictEventName, c.requiredKeys));
    c.(fields := c.fields.(
         logging := log.logging.(piiMaxDepth := Or(o.plain.piiMaxDepth, log.logging.piiMaxDepth)),
         strictSchema := Or(o.plain.strictSchema, c.fields.strictSchema),
         strictEventName := schema.strictEventName,
         hot := HotAfter(c.fields.hot, o.plain)),
       logHeaders := log.otlpHeaders, moduleLevels := log.moduleLevels, prettyFields := log.prettyFields,
       requiredKeys := schema.requiredKeys)
  }

  function PlainFrom(f: Fields): PlainOverrides {
    PlainOverrides(Some(f.hot.sampling), Some(f.hot.backpressure), Some(f.hot.exporter), Some(f.hot.security),
      Some(f.hot.slo),
                   Some(f.logging.piiMaxDepth), Some(f.strictSchema))
  }

  /** runtimeOverridesFromConfig. */
  function OverridesFrom(c: Config): Overrides {
    Overrides(PlainFrom(c.fields), Some(SchemaBlock(c.fields.strictEventName, c.requiredKeys)),
              Some(LoggingBlock(c.fields.logging, c.logHeaders, c.moduleLevels, c.prettyFields)))
  }

  /** _applyHotFields: the OTLP fields of Logging keep their live values. */
  function HotFields(f: Fields, target: Fields): Fields {
    f.(hot := target.hot, strictSchema := target.strictSchema, strictEventName := target.strictEventName,
       logging := target.logging.(otlpEndpoint := f.logging.otlpEndpoint, otlpEnabled := f.logging.otlpEnabled))
  }

  function ApplyHotFields(c: Config, target: Config): Config {
    c.(fields := HotFields(c.fields, target.fields),
       moduleLevels := target.moduleLevels, prettyFields := target.prettyFields, requiredKeys := target.requiredKeys)
  }

  /** Which signals have a provider installed. */
  datatype Live = Live(traces: bool, metrics: bool, logs: bool)

  predicate TracerFieldsChanged(a: Config, b: Config) {
    || a.fields.tracing.enabled != b.fields.tracing.enabled ||
      a.fields.tracing.otlpEndpoint != b.fields.tracing.otlpEndpoint
    || a.traceHeaders != b.traceHeaders
  }

  predicate MeterFieldsChanged(a: Config, b: Config) {
    a.fields.metrics != b.fields.metrics || a.metricHeaders != b.metricHeaders || a.exporters != b.exporters
  }

  predicate LoggerFieldsChanged(a: Config, b: Config) {
    || a.fields.logging.otlpEndpoint != b.fields.logging.otlpEndpoint ||
      a.fields.logging.otlpEnabled != b.fields.logging.otlpEnabled
    || a.logHeaders != b.logHeaders
  }

  predicate ProviderConfigChanged(a: Config, b: Config, live: Live) {
    (live.traces || live.metrics || live.logs) &&
    (a.fields.identity != b.fields.identity || (live.traces && TracerFieldsChanged(a, b)) ||
      (live.metrics && MeterFieldsChanged(a, b)) ||
     (live.logs && LoggerFieldsChanged(a, b)))
  }

  /** Identity, Tracing and Metrics agree, maps and slices included. */
  predicate SameCold(a: Config, b: Config) {
    && a.fields.identity == b.fields.identity && a.fields.strictConfig == b.fields.strictConfig
    && a.fields.tracing == b.fields.tracing && a.traceHeaders == b.traceHeaders
    && a.fields.metrics == b.fields.metrics && a.metricHeaders == b.metricHeaders
    && a.exporters == b.exporters && a.exporterWarnings == b.exporterWarnings
  }
}
