/** The agent's handling of external commands (agent/external.py): default-filling of
    link and IDS records, routing of a command's output, and the interval/timeout clamp. */
module AgentExternal {
  import opened Common
  import opened Dict
  import opened Json

  /** The schema of a table: its columns in order, each with the value used when a record
      lacks it. */
  type Schema = seq<(string, Json)>

  function LinkSchema(): Schema {
    [("status", Str("")), ("src_ip", Str("")), ("src_mac", Str("")), ("dst_ip", Str("")),
     ("dst_mac", Str("")), ("timestamp", Str("")), ("attributes", Obj(Empty()))]
  }

  function IdsSchema(): Schema {
    [("ip", Str("")), ("blocked", Str("")), ("blocked_on", Num(0.0)), ("danger_level", Num(0.0)),
     ("attributes", Obj(Empty())), ("last_update", Num(0.0))]
  }

  function Columns(schema: Schema): (r: seq<string>)
    ensures |r| == |schema| && forall i :: 0 <= i < |schema| ==> r[i] == schema[i].0
  {
    if schema == [] then [] else [schema[0].0] + Columns(schema[1..])
  }

  /** `{k: record.get(k, v) for k, v in schema.items()}`. */
  function WithDefaults(schema: Schema, rec: Dict<Json>): (r: Dict<Json>)
    decreases |schema|
    ensures r.keys == Columns(schema)
    ensures forall i :: 0 <= i < |schema| ==> schema[i].0 in r.vals
    ensures forall k :: k in r.vals <==> k in Columns(schema)
  {
    if schema == [] then Dict([], map[])
    else
      var (k, dflt) := schema[0];
      var rest := WithDefaults(schema[1..], rec);
      Dict([k] + rest.keys, rest.vals[k := rec.Get(k).GetOr(dflt)])
  }

  /** The default a schema gives a column: that of its first occurrence. */
  function DefaultOf(schema: Schema, k: string): Option<Json> {
    if schema == [] then None
    else if schema[0].0 == k then Some(schema[0].1)
    else DefaultOf(schema[1..], k)
  }

  /** A column holds the record's own value when it has one, and the schema's default
      otherwise. */
  lemma {:induction false} WithDefaultsValue(schema: Schema, rec: Dict<Json>, k: string)
    decreases |schema|
    requires k in Columns(schema)
    ensures DefaultOf(schema, k).Some?
    ensures WithDefaults(schema, rec).vals[k] == (if k in rec.vals then rec.vals[k] else DefaultOf(schema, k).value)
  {
    if schema[0].0 != k {
      assert k in Columns(schema[1..]) by {
        var i :| 0 <= i < |schema| && Columns(schema)[i] == k;
        assert Columns(schema[1..])[i - 1] == k;
      }
      WithDefaultsValue(schema[1..], rec, k);
    }
  }

  /** In a normalised link record a missing timestamp is '' and missing attributes are {}. */
  lemma LinkRecordDefaults(rec: Dict<Json>)
    ensures WithDefaults(LinkSchema(), rec).vals["timestamp"] == rec.Get("timestamp").GetOr(Str(""))
    ensures WithDefaults(LinkSchema(), rec).vals["attributes"] == rec.Get("attributes").GetOr(Obj(Empty()))
  {
    assert Columns(LinkSchema())[5] == "timestamp" && Columns(LinkSchema())[6] == "attributes";
    WithDefaultsValue(LinkSchema(), rec, "timestamp");
    WithDefaultsValue(LinkSchema(), rec, "attributes");
  }

  /** In an IDS record a missing `blocked` is '' and a missing `last_update` is 0. */
  lemma IdsRecordDefaults(rec: Dict<Json>)
    ensures WithDefaults(IdsSchema(), rec).vals["blocked"] == rec.Get("blocked").GetOr(Str(""))
    ensures WithDefaults(IdsSchema(), rec).vals["last_update"] == rec.Get("last_update").GetOr(Num(0.0))
  {
    assert Columns(IdsSchema())[1] == "blocked" && Columns(IdsSchema())[5] == "last_update";
    WithDefaultsValue(IdsSchema(), rec, "blocked");
    WithDefaultsValue(IdsSchema(), rec, "last_update");
  }

  /** `parse_link_data` / `parse_ids_data`: one normalised record per input record, in
      order. A record that is not an object has no `.get`; the source raises, which is
      `None` here. */
  function ParseRecords(schema: Schema, data: seq<Json>): (r: Option<seq<Dict<Json>>>)
    ensures r.Some? <==> forall i :: 0 <= i < |data| ==> data[i].Obj?
    ensures r.Some? ==> |r.value| == |data|
    ensures r.Some? ==> forall i :: 0 <= i < |data| ==> r.value[i] == WithDefaults(schema, data[i].fields)
  {
    if data == [] then Some([])
    else if !data[0].Obj? then None
    else
      match ParseRecords(schema, data[1..])
      case None => None
      case Some(rest) => Some([WithDefaults(schema, data[0].fields)] + rest)
  }

  /** The agent's two tables fed by external commands. */
  datatype Table = LinkTable | IdsTable

  function SchemaOf(t: Table): Schema {
    match t
    case LinkTable => LinkSchema()
    case IdsTable => IdsSchema()
  }

  /** Where `process_external_data` puts one line of output. */
  datatype Routed = Stored(table: Table, rows: seq<Dict<Json>>) | Nowhere

  /** The `type` of the first record, when the output is a non-empty list whose first
      element is an object that has one (any other shape raises inside the `try`). */
  function FirstType(data: Json): Option<Json> {
    if data.Arr? && data.items != [] && data.items[0].Obj? then data.items[0].fields.Get("type")
    else None
  }

  /** The table a `type` selects: `link` and `device`; any other value, truthy or not,
      selects none (both selecting values are truthy, so the truthiness test adds nothing). */
  function TableOf(data: Json): (r: Option<Table>)
    ensures r == Some(LinkTable) <==> FirstType(data) == Some(Str("link"))
    ensures r == Some(IdsTable) <==> FirstType(data) == Some(Str("device"))
  {
    match FirstType(data)
    case Some(t) =>
      if PyTruthy(t) && t == Str("link") then Some(LinkTable)
      else if PyTruthy(t) && t == Str("device") then Some(IdsTable)
      else None
    case None => None
  }

  /** `process_external_data` for one output line; `parsed` is `json.loads` of it, `None`
      when malformed. The rows are stored only when every record is an object. */
  function Route(parsed: Option<Json>): (r: Routed)
    ensures r.Stored? <==> (parsed.Some? && TableOf(parsed.value).Some?
      && ParseRecords(SchemaOf(TableOf(parsed.value).value), parsed.value.items).Some?)
    ensures r.Stored? ==> (r.table == TableOf(parsed.value).value
      && Some(r.rows) == ParseRecords(SchemaOf(r.table), parsed.value.items))
  {
    match parsed
    case None => Nowhere
    case Some(data) =>
      match TableOf(data)
      case None => Nowhere
      case Some(t) =>
        match ParseRecords(SchemaOf(t), data.items)
        case Some(rows) => Stored(t, rows)
        case None => Nowhere
  }

  /** The start-up check of `invoke_external_command`. */
  function CheckTimings(interval: real, timeout: real): (r: Result<()>)
    ensures r.Err? <==> timeout > interval
    ensures r.Err? ==> r.msg == "Timeout longer than interval"
  {
    if timeout > interval then Err("Timeout longer than interval") else Ok(())
  }

  /** The pause after each run: what is left of the interval, clamped to [0, interval]. */
  function SleepDuration(interval: real, elapsed: real): (r: real)
    ensures r >= 0.0
    ensures interval >= 0.0 ==> r <= interval
    ensures 0.0 <= elapsed <= interval ==> r == interval - elapsed
    ensures elapsed >= interval ==> r == 0.0
  {
    var remaining := if interval - elapsed < interval then interval - elapsed else interval;
    if remaining > 0.0 then remaining else 0.0
  }
}
