/** What the two ways of changing a config take and what they leave. */
module ConfigLaws {
  import opened Common
  import opened Config

  const NoOverrides := Overrides(PlainOverrides(None, None, None, None, None, None, None), None, None)

  /** The cold part of c in t: everything else is t's. */
  function WithColdOf(t: Config, c: Config): Config {
    t.(fields := t.fields.(identity := c.fields.identity, strictConfig := c.fields.strictConfig,
      tracing := c.fields.tracing, metrics := c.fields.metrics),
       traceHeaders := c.traceHeaders, metricHeaders := c.metricHeaders, exporters := c.exporters, exporterWarnings :=
         c.exporterWarnings)
  }

  /** And the fields a log exporter was built from. */
  function WithLogExportOf(t: Config, c: Config): Config {
    t.(fields := t.fields.(logging := t.fields.logging.(otlpEndpoint := c.fields.logging.otlpEndpoint,
      otlpEnabled := c.fields.logging.otlpEnabled)),
       logHeaders := c.logHeaders)
  }

  /** Empty overrides change nothing; a whole config as overrides takes over everything but the cold part; and
      overriding twice with the same is overriding once. */
  lemma OverridesLaws(c: Config, t: Config, o: Overrides)
    ensures ApplyOverrides(c, NoOverrides) == c
    ensures ApplyOverrides(c, OverridesFrom(t)) == WithColdOf(t, c)
    ensures ApplyOverrides(ApplyOverrides(c, o), o) == ApplyOverrides(c, o)
    ensures ApplyOverrides(ApplyOverrides(c, OverridesFrom(t)), OverridesFrom(c)) == c
  {}

  /** Reconfiguring takes over everything but the cold part and the log exporter's fields, and reconfiguring
      back undoes it. */
  lemma HotFieldsLaws(c: Config, t: Config)
    ensures ApplyHotFields(c, t) == WithLogExportOf(WithColdOf(t, c), c)
    ensures SameCold(ApplyHotFields(c, t), c) && !LoggerFieldsChanged(ApplyHotFields(c, t), c)
    ensures ApplyHotFields(ApplyHotFields(c, t), c) == c
    ensures forall live :: !ProviderConfigChanged(c, ApplyHotFields(c, t), live)
  {}
}
