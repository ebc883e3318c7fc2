/** Configs in memory: a config is a struct updated in place, whose map and slice fields refer to objects that
    a caller may hold too (go/setup.go:34-48, go/setup.go:108-126, go/runtime.go:194-235,
    go/runtime.go:419-446). */
module ConfigHeap {
  import opened Common
  import opened Config

  /** A Go map, and the array behind a Go slice. */
  class MapObject {
    var entries: Headers

    constructor (m: Headers)
      ensures entries == m
    {
      entries := m;
    }
  }

  class ListObject {
    var items: Names

    constructor (a: Names)
      ensures items == a
    {
      items := a;
    }
  }

  /** maps.Clone. */
  method CloneMap(m: MapObject) returns (c: MapObject)
    ensures fresh(c) && c.entries == m.entries
  {
    c := new MapObject(m.entries);
  }

  /** append([]string(nil), s...). */
  method CloneList(l: ListObject) returns (c: ListObject)
    ensures fresh(c) && c.items == l.items
  {
    c := new ListObject(l.items);
  }

  method NewMaps(
    a: Headers, b: Headers, c: Headers, d: Headers)
    returns (w: MapObject, x: MapObject, y: MapObject, z: MapObject)
    ensures fresh({w, x, y, z}) && w.entries == a && x.entries == b && y.entries == c && z.entries == d
  {
    w := new MapObject(a);
    x := new MapObject(b);
    y := new MapObject(c);
    z := new MapObject(d);
  }

  method NewLists(
    a: Names, b: Names, c: Names, d: Names)
    returns (w: ListObject, x: ListObject, y: ListObject, z: ListObject)
    ensures fresh({w, x, y, z}) && w.items == a && x.items == b && y.items == c && z.items == d
  {
    w := new ListObject(a);
    x := new ListObject(b);
    y := new ListObject(c);
    z := new ListObject(d);
  }

  // ---- overrides ----------------------------------------------------------------------------------

  datatype LoggingStruct = LoggingStruct(logging: Logging, otlpHeaders: MapObject, moduleLevels: MapObject,
    prettyFields: ListObject)
  datatype SchemaStruct = SchemaStruct(strictEventName: bool, requiredKeys: ListObject)
  datatype OverrideStructs = OverrideStructs(plain: PlainOverrides, schema: Option<SchemaStruct>,
    logging: Option<LoggingStruct>)

  ghost function LoggingContents(l: LoggingStruct): LoggingBlock
    reads l.otlpHeaders, l.moduleLevels, l.prettyFields
  {
    LoggingBlock(l.logging, l.otlpHeaders.entries, l.moduleLevels.entries, l.prettyFields.items)
  }

  ghost function OverrideRefs(o: OverrideStructs): set<object> {
    (if o.logging.Some? then {o.logging.value.otlpHeaders} + {o.logging.value.moduleLevels} +
      {o.logging.value.prettyFields} else {}) +
    (if o.schema.Some? then {o.schema.value.requiredKeys} else {})
  }

  /** What the caller's overrides say. */
  ghost function Contents(o: OverrideStructs): Overrides
    reads OverrideRefs(o)
  {
    var schema := if o.schema.None? then None
                  else Some(SchemaBlock(o.schema.value.strictEventName, o.schema.value.requiredKeys.items));
    Overrides(o.plain, schema, if o.logging.Some? then Some(LoggingContents(o.logging.value)) else None)
  }

  // ---- configs ------------------------------------------------------------------------------------

  class ConfigObject {
    var fields: Fields
    var logHeaders: MapObject
    var moduleLevels: MapObject
    var prettyFields: ListObject
    var traceHeaders: MapObject
    var metricHeaders: MapObject
    var exporters: ListObject
    var exporterWarnings: ListObject
    var requiredKeys: ListObject

    /** The maps and slices it refers to. */
    ghost function Refs(): set<object>
      reads this
    {
      {logHeaders} + {moduleLevels} + {prettyFields} + {traceHeaders} +
      {metricHeaders} + {exporters} + {exporterWarnings} + {requiredKeys}
    }

    /** Its contents. */
    function View(): (v: Config)
      reads this, Refs()
      ensures v.fields == fields && v.exporterWarnings == exporterWarnings.items
    {
      Config(fields, logHeaders.entries, moduleLevels.entries, prettyFields.items, traceHeaders.entries,
             metricHeaders.entries, exporters.items, exporterWarnings.items, requiredKeys.items)
    }

    /** runtimeOverridesFromConfig: pointers into the config, so its own maps and slices. */
    function AsOverrides(): OverrideStructs
      reads this
    {
      OverrideStructs(PlainFrom(fields), Some(SchemaStruct(fields.strictEventName, requiredKeys)),
                      Some(LoggingStruct(fields.logging, logHeaders, moduleLevels, prettyFields)))
    }

    lemma AsOverridesContents()
      ensures Contents(AsOverrides()) == OverridesFrom(View())
    {}

    /** Writing other objects changes neither. */
    twostate lemma Stays()
      requires unchanged(this) && unchanged(logHeaders, moduleLevels, prettyFields, traceHeaders)
      requires unchanged(metricHeaders, exporters, exporterWarnings, requiredKeys)
      ensures Refs() == old(Refs()) && View() == old(View())
    {}

    constructor (
      f: Fields, lh: MapObject, ml: MapObject, pf: ListObject, th: MapObject, mh: MapObject, ex: ListObject,
      ew: ListObject, rk: ListObject)
      ensures fields == f && logHeaders == lh && moduleLevels == ml && prettyFields == pf && traceHeaders == th
      ensures metricHeaders == mh && exporters == ex && exporterWarnings == ew && requiredKeys == rk
    {
      fields, logHeaders, moduleLevels, prettyFields, traceHeaders := f, lh, ml, pf, th;
      metricHeaders, exporters, exporterWarnings, requiredKeys := mh, ex, ew, rk;
    }

    /** cloneTelemetryConfig: same contents, nothing shared. */
    method Clone() returns (c: ConfigObject)
      ensures fresh(c) && fresh(c.Refs()) && c.View() == View()
    {
      var lh, ml, th, mh :=
        NewMaps(logHeaders.entries, moduleLevels.entries, traceHeaders.entries, metricHeaders.entries);
      var pf, ex, ew, rk := NewLists(prettyFields.items, exporters.items, exporterWarnings.items, requiredKeys.items);
      c := new ConfigObject(fields, lh, ml, pf, th, mh, ex, ew, rk);
    }

    /** cfg.Logging = *overrides.Logging copies the caller's references; clones then replace them. */
    method ReplaceLogging(l: LoggingStruct)
      modifies this`fields, this`logHeaders, this`moduleLevels, this`prettyFields
      ensures fields == old(fields).(logging := l.logging) && fresh(logHeaders) && fresh(moduleLevels) &&
        fresh(prettyFields)
      ensures LoggingBlock(l.logging, logHeaders.entries, moduleLevels.entries, prettyFields.items) ==
        old(LoggingContents(l))
    {
      fields, logHeaders, moduleLevels, prettyFields :=
        fields.(logging := l.logging), l.otlpHeaders, l.moduleLevels, l.prettyFields;
      logHeaders := CloneMap(l.otlpHeaders);
      moduleLevels := CloneMap(l.moduleLevels);
      prettyFields := CloneList(l.prettyFields);
    }

    method ReplaceSchema(s: SchemaStruct)
      modifies this`fields, this`requiredKeys
      ensures fields == old(fields).(strictEventName := s.strictEventName) && fresh(requiredKeys) &&
        requiredKeys.items == old(s.requiredKeys.items)
    {
      fields, requiredKeys := fields.(strictEventName := s.strictEventName), s.requiredKeys;
      requiredKeys := CloneList(s.requiredKeys);
    }

    /** The blocks without a map or slice; PIIMaxDepth last. */
    method ReplacePlain(o: PlainOverrides)
      modifies this`fields
      ensures fields == old(fields).(
        hot := HotAfter(old(fields.hot), o), strictSchema := Or(o.strictSchema, old(fields.strictSchema)),
        logging := old(fields.logging).(piiMaxDepth := Or(o.piiMaxDepth, old(fields.logging.piiMaxDepth))))
    {
      fields := fields.(hot := HotAfter(fields.hot, o));
      if o.piiMaxDepth.Some? { fields := fields.(logging := fields.logging.(piiMaxDepth := o.piiMaxDepth.value)); }
      if o.strictSchema.Some? { fields := fields.(strictSchema := o.strictSchema.value); }
    }

    /** applyRuntimeOverrides: takes the overrides' contents and none of the caller's maps or slices. */
    method ApplyRuntimeOverrides(o: OverrideStructs)
      modifies this
      ensures View() == ApplyOverrides(old(View()), old(Contents(o)))
      ensures fresh(Refs() - old(Refs()))
    {
      if o.logging.Some? { ReplaceLogging(o.logging.value); }
      if o.schema.Some? { ReplaceSchema(o.schema.value); }
      ReplacePlain(o.plain);
    }

    method CloneHotRefs() returns (keys: ListObject, modules: MapObject, pretty: ListObject)
      ensures fresh(keys) && fresh(modules) && fresh(pretty)
      ensures keys.items == requiredKeys.items && modules.entries == moduleLevels.entries &&
        pretty.items == prettyFields.items
    {
      keys := CloneList(requiredKeys);
      modules := CloneMap(moduleLevels);
      pretty := CloneList(prettyFields);
    }

    /** _applyHotFields: everything but identity, Tracing, Metrics and the log exporter's fields. */
    method ApplyHotFieldsOf(target: ConfigObject)
      requires target != this
      modifies this
      ensures View() == ApplyHotFields(old(View()), old(target.View()))
      ensures fresh(Refs() - old(Refs()))
    {
      hide HotFields;
      fields := HotFields(fields, target.fields);
      var keys, modules, pretty := target.CloneHotRefs();
      requiredKeys, moduleLevels, prettyFields := keys, modules, pretty;
    }
  }

  /** A config ConfigFromEnv parsed: an object of its own with the given contents. */
  method Parsed(v: Config) returns (c: ConfigObject)
    ensures fresh(c) && fresh(c.Refs()) && c.View() == v
  {
    var lh, ml, th, mh := NewMaps(v.logHeaders, v.moduleLevels, v.traceHeaders, v.metricHeaders);
    var pf, ex, ew, rk := NewLists(v.prettyFields, v.exporters, v.exporterWarnings, v.requiredKeys);
    c := new ConfigObject(v.fields, lh, ml, pf, th, mh, ex, ew, rk);
  }
}
