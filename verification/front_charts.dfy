/** The traffic charts (frontend/src/components/ChartsWorker.js): the rx/tx line series and
    last-day figures built from the traffic documents, and the day filter that blanks the
    days outside a chosen range. */
module FrontCharts {
  import opened Common
  import opened Dict
  import opened Schemas
  import opened ChartDate

  /** A traffic entry as the charts read it: the host name when the document has one, the
      vlan, the day labels and the daily points (`undefined` where a node has none). */
  datatype TrafficEntry = TrafficEntry(hostname: Option<string>, vlan: string, labels: seq<string>, values: seq<Option<RxTx>>)

  /** Ids longer than this are looked up in the filter by their display name. */
  const LongIdLength := 20

  /** The chart's display name: `hostname (vlan)` for a node, the id otherwise. */
  function ChartName(id: string, e: TrafficEntry): (r: string)
    ensures e.hostname.None? ==> r == id
    ensures e.hostname.Some? ==> r == e.hostname.value + " (" + e.vlan + ")"
  {
    if e.hostname.Some? then e.hostname.value + " (" + e.vlan + ")" else id
  }

  /** The key under which the filter lists a chart's blanked days. */
  function FilterKey(id: string, e: TrafficEntry): (r: string)
    ensures |id| > LongIdLength ==> r == ChartName(id, e)
    ensures |id| <= LongIdLength ==> r == id
  {
    if |id| > LongIdLength then ChartName(id, e) else id
  }

  /** Whether point `i` is blanked: its label is in the list. */
  predicate Blanked(labels: seq<string>, i: int, skip: seq<string>) {
    0 <= i < |labels| && labels[i] in skip
  }

  /** The loop over a chart's points: blanked points become `null`; any other point must
      exist, since its `rx` is read (`TypeError` otherwise). */
  function Points(values: seq<Option<RxTx>>, labels: seq<string>, skip: seq<string>): (r: Result<seq<Option<RxTx>>>)
    decreases |values|
    ensures r.Ok? <==> forall i :: 0 <= i < |values| && !Blanked(labels, i, skip) ==> values[i].Some?
    ensures r.Ok? ==> |r.value| == |values|
    ensures r.Ok? ==> forall i :: 0 <= i < |values| ==> r.value[i] == (if Blanked(labels, i, skip) then None else values[i])
  {
    if values == [] then Ok([])
    else
      var rest := Points(values[1..], if labels == [] then [] else labels[1..], skip);
      assert forall i :: 1 <= i < |values| ==> values[1..][i - 1] == values[i];
      assert forall i :: 1 <= i < |values| ==> (Blanked(labels, i, skip) <==> Blanked(if labels == [] then [] else labels[1..], i - 1, skip));
      var head := if Blanked(labels, 0, skip) then None else values[0];
      if !Blanked(labels, 0, skip) && values[0].None? then Err("TypeError")
      else match rest
        case Err(m) => Err(m)
        case Ok(ps) => Ok([head] + ps)
  }

  /** A line chart: id, name, host name, labels, and the points of its two datasets (RX is
      each point's `rx`, TX its `tx`, `null` where the point is blanked). */
  datatype LineChart = LineChart(id: string, name: string, hostname: Option<string>, labels: seq<string>, points: seq<Option<RxTx>>)

  /** A last-day pie chart: the last point's rx and tx, 1 each when there are no points. */
  datatype PieChart = PieChart(name: string, rx: int, tx: int)

  /** The last point, read as `values[values.length - 1] ? ... : 1`. */
  function LastDay(values: seq<Option<RxTx>>): (r: RxTx)
    ensures values == [] || values[|values| - 1].None? ==> r == RxTx(1, 1)
    ensures values != [] && values[|values| - 1].Some? ==> r == values[|values| - 1].value
  {
    if values != [] && values[|values| - 1].Some? then values[|values| - 1].value else RxTx(1, 1)
  }

  /** The charts of one entry. With a filter, the entry's key must be in it as soon as
      there is a point to look at. */
  function EntryCharts(id: string, e: TrafficEntry, filter: Option<Dict<seq<string>>>): (r: Result<(LineChart, PieChart)>)
    ensures r.Ok? ==> r.value.0.id == id && r.value.0.name == ChartName(id, e) && r.value.0.hostname == e.hostname
    ensures r.Ok? ==> r.value.0.labels == e.labels && |r.value.0.points| == |e.values|
    ensures r.Ok? ==> r.value.1 == PieChart(id, LastDay(e.values).rx, LastDay(e.values).tx)
    ensures filter.None? ==> (r.Ok? <==> forall i :: 0 <= i < |e.values| ==> e.values[i].Some?)
    ensures filter.None? && r.Ok? ==> r.value.0.points == e.values
    ensures filter.Some? && e.values != [] && FilterKey(id, e) !in filter.value.vals ==> r.Err?
    ensures filter.Some? && FilterKey(id, e) in filter.value.vals ==>
      r == (match Points(e.values, e.labels, filter.value.vals[FilterKey(id, e)])
            case Ok(ps) => Ok((LineChart(id, ChartName(id, e), e.hostname, e.labels, ps), PieChart(id, LastDay(e.values).rx, LastDay(e.values).tx)))
            case Err(m) => Err(m))
  {
    var key := FilterKey(id, e);
    if filter.Some? && e.values != [] && key !in filter.value.vals then Err("TypeError")
    else
      var skip := if filter.Some? && key in filter.value.vals then filter.value.vals[key] else [];
      match Points(e.values, e.labels, skip)
      case Err(m) => Err(m)
      case Ok(ps) =>
        assert filter.None? ==> ps == e.values;
        Ok((LineChart(id, ChartName(id, e), e.hostname, e.labels, ps), PieChart(id, LastDay(e.values).rx, LastDay(e.values).tx)))
  }

  datatype Charts = Charts(lines: seq<LineChart>, pies: seq<PieChart>)

  function ChartsOf(ids: seq<string>, traffic: map<string, TrafficEntry>, filter: Option<Dict<seq<string>>>): (r: Result<Charts>)
    requires forall i :: 0 <= i < |ids| ==> ids[i] in traffic
    ensures r.Ok? <==> forall i :: 0 <= i < |ids| ==> EntryCharts(ids[i], traffic[ids[i]], filter).Ok?
    ensures r.Ok? ==> |r.value.lines| == |ids| && |r.value.pies| == |ids|
    ensures r.Ok? ==> forall i :: 0 <= i < |ids| ==>
      (r.value.lines[i], r.value.pies[i]) == EntryCharts(ids[i], traffic[ids[i]], filter).value
  {
    if ids == [] then Ok(Charts([], []))
    else
      assert forall i :: 1 <= i < |ids| ==> ids[1..][i - 1] == ids[i];
      match EntryCharts(ids[0], traffic[ids[0]], filter)
      case Err(m) => Err(m)
      case Ok(c) =>
        match ChartsOf(ids[1..], traffic, filter)
        case Err(m) => Err(m)
        case Ok(rest) => Ok(Charts([c.0] + rest.lines, [c.1] + rest.pies))
  }

  /** `generateDataSets(exceptedDates)`: `false` (None) for no traffic, otherwise one line
      chart and one pie chart per entry, in key order. */
  function GenerateDataSets(traffic: Dict<TrafficEntry>, filter: Option<Dict<seq<string>>>): (r: Result<Option<Charts>>)
    requires traffic.Valid()
    ensures traffic.keys == [] <==> r == Ok(None)
    ensures traffic.keys != [] ==> (r.Ok? <==> forall i :: 0 <= i < |traffic.keys| ==> EntryCharts(traffic.keys[i], traffic.vals[traffic.keys[i]], filter).Ok?)
    ensures r.Ok? && r.value.Some? ==> |r.value.value.lines| == |traffic.keys|
    ensures r.Ok? && r.value.Some? ==> forall i :: 0 <= i < |traffic.keys| ==> r.value.value.lines[i].id == traffic.keys[i]
  {
    if traffic.keys == [] then Ok(None)
    else
      match ChartsOf(traffic.keys, traffic.vals, filter)
      case Err(m) => Err(m)
      case Ok(c) => Ok(Some(c))
  }

  // ---- generateFilteredDaysArray ----

  /** moment's day comparisons; any comparison with an invalid date is false. */
  predicate IsBefore(a: Option<Day>, b: Option<Day>) {
    a.Some? && b.Some? && Before(a.value, b.value)
  }

  predicate IsSame(a: Option<Day>, b: Option<Day>) {
    a.Some? && b.Some? && a.value == b.value
  }

  /** The filter's test: after the start and neither before nor on the end, or before the
      start. */
  predicate Outside(d: Option<Day>, start: Option<Day>, end: Option<Day>) {
    (IsBefore(start, d) && !IsBefore(d, end) && !IsSame(d, end)) || IsBefore(d, start)
  }

  /** For valid days and a range whose start is not after its end, a day is filtered
      exactly when it is before the start or after the end. */
  lemma OutsideRange(d: Day, start: Day, end: Day)
    requires !Before(end, start)
    ensures Outside(Some(d), Some(start), Some(end)) <==> Before(d, start) || Before(end, d)
  {
  }

  function FilterLabels(labels: seq<string>, start: Option<Day>, end: Option<Day>): (r: seq<string>)
    ensures IsSubsequence(r, labels)
    ensures forall l :: l in r <==> l in labels && Outside(ParseMoment(l), start, end)
  {
    if labels == [] then []
    else
      var rest := FilterLabels(labels[1..], start, end);
      assert labels == [labels[0]] + labels[1..];
      SubsequenceCons(labels[0], rest, labels[1..]);
      if Outside(ParseMoment(labels[0]), start, end) then [labels[0]] + rest else rest
  }

  function FilterFold(lines: seq<LineChart>, start: Option<Day>, end: Option<Day>): (r: Dict<seq<string>>)
    decreases |lines|
    ensures r.Valid()
    ensures forall k :: k in r.vals <==> exists i :: 0 <= i < |lines| && lines[i].name == k
  {
    if lines == [] then Empty()
    else
      var init := lines[..|lines| - 1];
      var last := lines[|lines| - 1];
      assert forall i :: 0 <= i < |init| ==> init[i] == lines[i];
      FilterFold(init, start, end).Put(last.name, FilterLabels(last.labels, start, end))
  }

  /** Each chart's filter entry holds the days of the last chart with its name that lie
      outside the range. */
  lemma {:induction false} FilterFoldEntry(lines: seq<LineChart>, start: Option<Day>, end: Option<Day>, i: int)
    decreases |lines|
    requires 0 <= i < |lines|
    requires forall j :: i < j < |lines| ==> lines[j].name != lines[i].name
    ensures lines[i].name in FilterFold(lines, start, end).vals
    ensures FilterFold(lines, start, end).vals[lines[i].name] == FilterLabels(lines[i].labels, start, end)
  {
    if i < |lines| - 1 {
      var init := lines[..|lines| - 1];
      assert forall j :: 0 <= j < |init| ==> init[j] == lines[j];
      FilterFoldEntry(init, start, end, i);
    }
  }

  /** `generateFilteredDaysArray({start, end})`: `false` (None) without both ends,
      otherwise, for each chart name, the labels outside the range. */
  function FilteredDays(lines: seq<LineChart>, start: Option<string>, end: Option<string>): (r: Option<Dict<seq<string>>>)
    ensures r.None? <==> start.None? || start.value == "" || end.None? || end.value == ""
    ensures r.Some? ==> r.value.Valid()
    ensures r.Some? ==> forall k :: k in r.value.vals <==> exists i :: 0 <= i < |lines| && lines[i].name == k
  {
    if start.None? || start.value == "" || end.None? || end.value == "" then None
    else Some(FilterFold(lines, ParseMoment(start.value), ParseMoment(end.value)))
  }

  /** Redrawing a chart with the filter computed from the drawn charts blanks exactly its
      days outside the range, when the chart is looked up by its name (a long id, or no
      host name) and no later chart shares its name. */
  lemma FilterRoundTrip(lines: seq<LineChart>, i: int, e: TrafficEntry, start: string, end: string)
    requires 0 <= i < |lines| && start != "" && end != ""
    requires forall j :: i < j < |lines| ==> lines[j].name != lines[i].name
    requires lines[i].name == ChartName(lines[i].id, e) && lines[i].labels == e.labels
    requires |lines[i].id| > LongIdLength || e.hostname.None?
    requires forall j :: 0 <= j < |e.values| ==> e.values[j].Some?
    ensures var r := EntryCharts(lines[i].id, e, FilteredDays(lines, Some(start), Some(end)));
      && r.Ok?
      && forall j :: 0 <= j < |e.values| ==>
           (r.value.0.points[j].None? <==> j < |e.labels| && Outside(ParseMoment(e.labels[j]), ParseMoment(start), ParseMoment(end)))
  {
    var s := ParseMoment(start);
    var t := ParseMoment(end);
    FilterFoldEntry(lines, s, t, i);
    var skip := FilterLabels(e.labels, s, t);
    assert FilterKey(lines[i].id, e) == lines[i].name;
    var p := Points(e.values, e.labels, skip);
    forall j | 0 <= j < |e.values| && j < |e.labels|
      ensures Blanked(e.labels, j, skip) <==> Outside(ParseMoment(e.labels[j]), s, t)
    {
    }
  }
}
