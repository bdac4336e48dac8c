/** The psad report reader that feeds the agent's IDS table (agent/external/ids.py):
    top-attacker lines become events, auto-blocked lines mark or add blocked events. */
module AgentIds {
  import opened Common
  import opened Dict
  import opened Json
  import opened Text
  import opened Decimal
  import opened AgentExternal

  /** The `type` every event carries, which routes it to the IDS table. */
  const EventType := "device"

  datatype IdsEvent = IdsEvent(
    ip: string, kind: string, blocked: bool, blockedOn: int, dangerLevel: int,
    totalPackets: int, uniqSigs: int, sigMatches: int, isLocal: int, lastUpdate: int)

  /** `int()` of each field in turn: None as soon as one is rejected. */
  function PyInts(fields: seq<string>): (r: Option<seq<int>>)
    ensures r.Some? <==> forall i :: 0 <= i < |fields| ==> PyInt(fields[i]).Some?
    ensures r.Some? ==> |r.value| == |fields| && forall i :: 0 <= i < |fields| ==> PyInt(fields[i]) == Some(r.value[i])
  {
    if fields == [] then Some([])
    else
      assert forall i :: 1 <= i < |fields| ==> fields[1..][i - 1] == fields[i];
      match PyInt(fields[0])
      case None => None
      case Some(n) =>
        match PyInts(fields[1..])
        case None => None
        case Some(ns) => Some([n] + ns)
  }

  /** One line of `top_attackers`: `ip,danger_level,total_packets,uniq_sigs,sig_matches,is_local`.
      Lines with another field count are skipped (`Ok(None)`); a field `int()` rejects
      raises, which ends the whole run (`Err`). */
  function TopAttackerLine(line: string, now: int): (r: Result<Option<IdsEvent>>)
    ensures |Split(line, ',')| != 6 ==> r == Ok(None)
    ensures r.Ok? && r.value.Some? ==> |Split(line, ',')| == 6
    ensures r.Ok? && r.value.Some? ==> var e := r.value.value; var f := Split(line, ',');
      && e.ip == f[0] && e.kind == EventType && !e.blocked && e.blockedOn == 0
      && PyInt(f[1]) == Some(e.dangerLevel) && PyInt(f[2]) == Some(e.totalPackets)
      && PyInt(f[3]) == Some(e.uniqSigs) && PyInt(f[4]) == Some(e.sigMatches)
      && PyInt(f[5]) == Some(e.isLocal) && e.lastUpdate == now
    ensures r.Err? <==> |Split(line, ',')| == 6 && exists i :: 1 <= i < 6 && PyInt(Split(line, ',')[i]).None?
  {
    var f := Split(line, ',');
    if |f| != 6 then Ok(None)
    else
      match PyInts(f[1..])
      case None =>
        assert forall i :: 1 <= i < 6 ==> f[1..][i - 1] == f[i];
        Err("ValueError")
      case Some(n) =>
        assert forall i :: 1 <= i < 6 ==> f[1..][i - 1] == f[i];
        Ok(Some(IdsEvent(f[0], EventType, false, 0, n[0], n[1], n[2], n[3], n[4], now)))
  }

  /** `read_top_attacker`: it fails exactly when one of the lines is rejected, and otherwise
      appends the events of the well-formed lines in file order. */
  function ReadTopAttacker(lines: seq<string>, events: seq<IdsEvent>, now: int): (r: Result<seq<IdsEvent>>)
    decreases |lines|
    ensures r.Err? <==> exists i :: 0 <= i < |lines| && RejectedTopLine(lines[i], now)
    ensures r.Ok? ==> r.value == events + Parsed(lines, now)
    ensures r.Ok? ==> forall i :: |events| <= i < |r.value| ==> r.value[i].kind == EventType && !r.value[i].blocked
  {
    if lines == [] then Ok(events)
    else
      var rest := lines[1..];
      RejectedTopShift(lines, now);
      match TopAttackerLine(lines[0], now)
      case Err(e) => Err(e)
      case Ok(None) =>
        assert Parsed(lines, now) == Parsed(rest, now);
        ReadTopAttacker(rest, events, now)
      case Ok(Some(e)) =>
        var r := ReadTopAttacker(rest, events + [e], now);
        assert Parsed(lines, now) == [e] + Parsed(rest, now);
        AppendAssoc(events, [e], Parsed(rest, now));
        assert r.Ok? ==> r.value[|events|] == e;
        r
  }

  /** A line of the top-attackers file that makes `int()` raise. */
  predicate RejectedTopLine(line: string, now: int) {
    TopAttackerLine(line, now).Err?
  }

  /** The event a top-attackers line yields, if it yields one. */
  function LineEvent(line: string, now: int): seq<IdsEvent> {
    match TopAttackerLine(line, now)
    case Ok(Some(e)) => [e]
    case _ => []
  }

  /** The events of the well-formed lines of a top-attackers file, in file order. */
  function Parsed(lines: seq<string>, now: int): (r: seq<IdsEvent>)
    ensures |r| <= |lines|
  {
    if lines == [] then [] else LineEvent(lines[0], now) + Parsed(lines[1..], now)
  }

  /** A file has a rejected line when its first line is rejected or the rest has one. */
  lemma RejectedTopShift(lines: seq<string>, now: int)
    requires lines != []
    ensures (exists i :: 0 <= i < |lines| && RejectedTopLine(lines[i], now)) <==>
      RejectedTopLine(lines[0], now) || exists i :: 0 <= i < |lines[1..]| && RejectedTopLine(lines[1..][i], now)
  {
    assert forall i :: 1 <= i < |lines| ==> lines[1..][i - 1] == lines[i];
  }

  /** Index of the first event for `ip`. */
  function FirstFor(events: seq<IdsEvent>, ip: string): (r: Option<nat>)
    ensures r.Some? ==> r.value < |events| && events[r.value].ip == ip
    ensures r.Some? ==> forall j :: 0 <= j < r.value ==> events[j].ip != ip
    ensures r.None? ==> forall j :: 0 <= j < |events| ==> events[j].ip != ip
  {
    if events == [] then None
    else if events[0].ip == ip then Some(0)
    else match FirstFor(events[1..], ip)
      case Some(i) => Some(i + 1)
      case None => None
  }

  /** `update_auto_blocked`: the first event for `ip` is marked blocked at `blocked_on`;
      with none, a blocked event with zero counters is appended. */
  function UpdateAutoBlocked(events: seq<IdsEvent>, ip: string, blockedOn: int, now: int): (r: seq<IdsEvent>)
    ensures FirstFor(events, ip).Some? ==> var i := FirstFor(events, ip).value;
      && |r| == |events|
      && r[i] == events[i].(blocked := true, blockedOn := blockedOn)
      && forall j :: 0 <= j < |events| && j != i ==> r[j] == events[j]
    ensures FirstFor(events, ip).None? ==>
      r == events + [IdsEvent(ip, EventType, true, blockedOn, 0, 0, 0, 0, 0, now)]
  {
    match FirstFor(events, ip)
    case Some(i) => events[i := events[i].(blocked := true, blockedOn := blockedOn)]
    case None => events + [IdsEvent(ip, EventType, true, blockedOn, 0, 0, 0, 0, 0, now)]
  }

  /** Blocking the same address twice with the same time is blocking it once. */
  lemma UpdateAutoBlockedIdempotent(events: seq<IdsEvent>, ip: string, blockedOn: int, now: int)
    ensures var once := UpdateAutoBlocked(events, ip, blockedOn, now);
      UpdateAutoBlocked(once, ip, blockedOn, now) == once
  {
    var once := UpdateAutoBlocked(events, ip, blockedOn, now);
    match FirstFor(events, ip)
    case Some(i) =>
      assert FirstFor(once, ip) == Some(i) by {
        assert forall j :: 0 <= j < i ==> once[j] == events[j];
        FirstForIs(once, ip, i);
      }
      assert once[i := once[i].(blocked := true, blockedOn := blockedOn)] == once;
    case None =>
      FirstForIs(once, ip, |events|);
  }

  /** `FirstFor` is characterised by its contract. */
  lemma FirstForIs(events: seq<IdsEvent>, ip: string, i: nat)
    requires i < |events| && events[i].ip == ip && forall j :: 0 <= j < i ==> events[j].ip != ip
    ensures FirstFor(events, ip) == Some(i)
  {
  }

  /** `read_auto_blocked`: each `ip,blocked_on` line is applied in file order; other lines
      are skipped and a `blocked_on` that `int()` rejects ends the run. */
  function ReadAutoBlocked(lines: seq<string>, events: seq<IdsEvent>, now: int): (r: Result<seq<IdsEvent>>)
    decreases |lines|
    ensures r.Err? <==> Blocks(lines).Err?
    ensures r.Ok? ==> r.value == ApplyBlocks(events, Blocks(lines).value, now)
    ensures r.Ok? ==> |events| <= |r.value|
    ensures (forall i :: 0 <= i < |events| ==> events[i].kind == EventType) && r.Ok? ==>
      forall i :: 0 <= i < |r.value| ==> r.value[i].kind == EventType
  {
    if lines == [] then Ok(events)
    else
      var f := Split(lines[0], ',');
      if |f| != 2 then ReadAutoBlocked(lines[1..], events, now)
      else
        match PyInt(f[1])
        case None => Err("ValueError")
        case Some(at) =>
          var rest := Blocks(lines[1..]);
          assert rest.Ok? ==> ([(f[0], at)] + rest.value)[1..] == rest.value;
          ReadAutoBlocked(lines[1..], UpdateAutoBlocked(events, f[0], at, now), now)
  }

  /** A two-field line of the auto-blocked file whose time `int()` rejects. */
  predicate RejectedBlockLine(line: string) {
    |Split(line, ',')| == 2 && PyInt(Split(line, ',')[1]).None?
  }

  /** The `(ip, blocked_on)` pairs of the two-field lines of an auto-blocked file, in file
      order; Err at the first rejected time. */
  function Blocks(lines: seq<string>): (r: Result<seq<(string, int)>>)
    ensures r.Ok? ==> |r.value| <= |lines|
  {
    if lines == [] then Ok([])
    else
      var f := Split(lines[0], ',');
      if |f| != 2 then Blocks(lines[1..])
      else
        match PyInt(f[1])
        case None => Err("ValueError")
        case Some(at) =>
          match Blocks(lines[1..])
          case Err(e) => Err(e)
          case Ok(bs) => Ok([(f[0], at)] + bs)
  }

  /** Every pair read comes from a two-field line of the file: its IP field, and the time
      `int()` reads from its second field. */
  lemma {:induction false} BlocksFromLines(lines: seq<string>)
    decreases |lines|
    requires Blocks(lines).Ok?
    ensures forall k :: 0 <= k < |Blocks(lines).value| ==> BlockLineIn(lines, Blocks(lines).value[k])
  {
    if lines != [] {
      BlocksFromLines(lines[1..]);
      forall p | BlockLineIn(lines[1..], p) ensures BlockLineIn(lines, p) {
        var j :| 0 <= j < |lines[1..]| && BlockLine(lines[1..][j], p);
        assert lines[j + 1] == lines[1..][j];
      }
      var f := Split(lines[0], ',');
      if |f| == 2 {
        var at := PyInt(f[1]).value;
        assert BlockLine(lines[0], (f[0], at));
        assert Blocks(lines).value == [(f[0], at)] + Blocks(lines[1..]).value;
      }
    }
  }

  /** A two-field line naming this IP, whose time `int()` reads as this number. */
  predicate BlockLine(line: string, p: (string, int)) {
    |Split(line, ',')| == 2 && Split(line, ',')[0] == p.0 && PyInt(Split(line, ',')[1]) == Some(p.1)
  }

  /** Some line of the file gives this pair. */
  predicate BlockLineIn(lines: seq<string>, p: (string, int)) {
    exists j :: 0 <= j < |lines| && BlockLine(lines[j], p)
  }

  /** `update_auto_blocked` applied for each pair in turn. */
  function ApplyBlocks(events: seq<IdsEvent>, bs: seq<(string, int)>, now: int): seq<IdsEvent>
    decreases |bs|
  {
    if bs == [] then events else ApplyBlocks(UpdateAutoBlocked(events, bs[0].0, bs[0].1, now), bs[1..], now)
  }

  /** `Blocks` fails exactly when some line is rejected. */
  lemma {:induction false} BlocksRejects(lines: seq<string>)
    decreases |lines|
    ensures Blocks(lines).Err? <==> exists i :: 0 <= i < |lines| && RejectedBlockLine(lines[i])
  {
    if lines != [] {
      var rest := lines[1..];
      assert forall i :: 1 <= i < |lines| ==> rest[i - 1] == lines[i];
      BlocksRejects(rest);
      if RejectedBlockLine(lines[0]) {
      } else {
        assert (exists i :: 0 <= i < |lines| && RejectedBlockLine(lines[i])) ==>
          exists i :: 0 <= i < |rest| && RejectedBlockLine(rest[i]);
      }
    }
  }

  /** The event with its block mark cleared: what blocking leaves unchanged. */
  function Unmarked(e: IdsEvent): IdsEvent {
    e.(blocked := false, blockedOn := 0)
  }

  /** After blocking `ip`, its first event is blocked at the given time. */
  lemma UpdateAutoBlockedMarks(events: seq<IdsEvent>, ip: string, blockedOn: int, now: int)
    ensures var once := UpdateAutoBlocked(events, ip, blockedOn, now);
      FirstFor(once, ip).Some? && once[FirstFor(once, ip).value].blocked
      && once[FirstFor(once, ip).value].blockedOn == blockedOn
  {
    var once := UpdateAutoBlocked(events, ip, blockedOn, now);
    match FirstFor(events, ip)
    case Some(i) =>
      assert forall j :: 0 <= j < i ==> once[j] == events[j];
      FirstForIs(once, ip, i);
    case None =>
      FirstForIs(once, ip, |events|);
  }

  /** Blocking only marks: events keep their place, address and counters, marks are never
      removed, and appended events are blocked with zero counters. */
  lemma {:induction false} ApplyBlocksKeeps(events: seq<IdsEvent>, bs: seq<(string, int)>, now: int)
    decreases |bs|
    ensures var r := ApplyBlocks(events, bs, now);
      && |events| <= |r|
      && (forall i :: 0 <= i < |events| ==> Unmarked(r[i]) == Unmarked(events[i]))
      && (forall i :: 0 <= i < |events| && events[i].blocked ==> r[i].blocked)
      && (forall i :: |events| <= i < |r| ==>
            r[i].blocked && Unmarked(r[i]) == IdsEvent(r[i].ip, EventType, false, 0, 0, 0, 0, 0, 0, now))
  {
    if bs != [] {
      var once := UpdateAutoBlocked(events, bs[0].0, bs[0].1, now);
      ApplyBlocksKeeps(once, bs[1..], now);
      assert forall i :: 0 <= i < |events| ==> Unmarked(once[i]) == Unmarked(events[i]);
      assert forall i :: |events| <= i < |once| ==>
        once[i].blocked && Unmarked(once[i]) == IdsEvent(once[i].ip, EventType, false, 0, 0, 0, 0, 0, 0, now);
    }
  }

  /** An event whose address is never blocked is left as it was. */
  lemma {:induction false} ApplyBlocksUntouched(events: seq<IdsEvent>, bs: seq<(string, int)>, now: int, i: nat)
    decreases |bs|
    requires i < |events| && forall k :: 0 <= k < |bs| ==> bs[k].0 != events[i].ip
    ensures var r := ApplyBlocks(events, bs, now); i < |r| && r[i] == events[i]
  {
    if bs != [] {
      var once := UpdateAutoBlocked(events, bs[0].0, bs[0].1, now);
      assert bs[0].0 != events[i].ip;
      assert once[i] == events[i];
      var rest := bs[1..];
      assert forall k :: 0 <= k < |rest| ==> rest[k] == bs[k + 1];
      ApplyBlocksUntouched(once, rest, now, i);
    }
  }

  /** Every blocked address ends up with a blocked first event. */
  lemma {:induction false} ApplyBlocksBlocks(events: seq<IdsEvent>, bs: seq<(string, int)>, now: int, k: nat)
    decreases |bs|
    requires k < |bs|
    ensures var r := ApplyBlocks(events, bs, now);
      FirstFor(r, bs[k].0).Some? && r[FirstFor(r, bs[k].0).value].blocked
  {
    var ip := bs[0].0;
    var once := UpdateAutoBlocked(events, ip, bs[0].1, now);
    var rest := bs[1..];
    var r := ApplyBlocks(once, rest, now);
    if k == 0 {
      UpdateAutoBlockedMarks(events, ip, bs[0].1, now);
      var j := FirstFor(once, ip).value;
      ApplyBlocksKeeps(once, rest, now);
      assert forall i :: 0 <= i < |once| ==> r[i].ip == Unmarked(r[i]).ip;
      assert forall i :: 0 <= i < |once| ==> r[i].ip == once[i].ip;
      FirstForIs(r, ip, j);
    } else {
      assert rest[k - 1] == bs[k];
      ApplyBlocksBlocks(once, rest, now, k - 1);
    }
  }

  /** The `main` of the reader over the files' lines (`None` for a missing file): nothing
      when there is no top-attackers file or it equals the saved copy, otherwise its events
      with the auto-blocked file applied. */
  function CollectEvents(top: Option<seq<string>>, saved: Option<seq<string>>, autoBlocked: Option<seq<string>>, now: int)
    : (r: Result<seq<IdsEvent>>)
    ensures top.None? ==> r == Ok([])
    ensures top.Some? && saved == top ==> r == Ok([])
    ensures r.Ok? ==> forall i :: 0 <= i < |r.value| ==> r.value[i].kind == EventType
  {
    if top.None? || saved == top then Ok([])
    else
      match ReadTopAttacker(top.value, [], now)
      case Err(e) => Err(e)
      case Ok(events) =>
        if autoBlocked.None? then Ok(events) else ReadAutoBlocked(autoBlocked.value, events, now)
  }

  /** The reader's output in terms of the files: nothing for a missing or unchanged
      top-attackers file; otherwise it fails exactly when a line of either file is rejected,
      and yields the top-attacker events with the auto-blocked pairs applied. */
  lemma CollectEventsFromFiles(top: Option<seq<string>>, saved: Option<seq<string>>,
                               autoBlocked: Option<seq<string>>, now: int)
    requires top.Some? && saved != top
    ensures var r := CollectEvents(top, saved, autoBlocked, now);
      var bs := if autoBlocked.Some? then Blocks(autoBlocked.value) else Ok([]);
      && (r.Err? <==> (exists i :: 0 <= i < |top.value| && RejectedTopLine(top.value[i], now)) || bs.Err?)
      && (r.Ok? ==> r.value == ApplyBlocks(Parsed(top.value, now), bs.value, now))
  {
    assert [] + Parsed(top.value, now) == Parsed(top.value, now);
  }

  /** `int` of a JSON number with an integral value. */
  function IntOf(j: Option<Json>): Option<int> {
    if j.Some? && j.value.Num? && j.value.r == j.value.r.Floor as real then Some(j.value.r.Floor) else None
  }

  /** Reads an event back from its JSON record. */
  function EventOf(j: Json): Option<IdsEvent> {
    if !j.Obj? then None
    else
      var f := j.fields;
      match (f.Get("ip"), f.Get("type"), f.Get("blocked"), f.Get("attributes"))
      case (Some(Str(ip)), Some(Str(kind)), Some(Bool(blocked)), Some(Obj(a))) =>
        var ns := [IntOf(f.Get("blocked_on")), IntOf(f.Get("danger_level")), IntOf(a.Get("total_packets")),
                   IntOf(a.Get("uniq_sigs")), IntOf(a.Get("sig_matches")), IntOf(a.Get("is_local")),
                   IntOf(f.Get("last_update"))];
        if forall i :: 0 <= i < |ns| ==> ns[i].Some? then
          Some(IdsEvent(ip, kind, blocked, ns[0].value, ns[1].value, ns[2].value, ns[3].value,
                        ns[4].value, ns[5].value, ns[6].value))
        else None
      case _ => None
  }

  /** The record carries every field of the event: reading it back gives the event. */
  lemma EventJsonRoundTrip(e: IdsEvent)
    ensures EventOf(EventJson(e)) == Some(e)
  {
    var f := EventJson(e).fields;
    var a := f.vals["attributes"].fields;
    assert f.Get("ip") == Some(Str(e.ip));
    assert f.Get("type") == Some(Str(e.kind));
    assert f.Get("blocked") == Some(Bool(e.blocked));
    assert f.Get("attributes") == Some(Obj(a));
    assert IntOf(f.Get("blocked_on")) == Some(e.blockedOn);
    assert IntOf(f.Get("danger_level")) == Some(e.dangerLevel);
    assert IntOf(f.Get("last_update")) == Some(e.lastUpdate);
    assert IntOf(a.Get("total_packets")) == Some(e.totalPackets);
    assert IntOf(a.Get("uniq_sigs")) == Some(e.uniqSigs);
    assert IntOf(a.Get("sig_matches")) == Some(e.sigMatches);
    assert IntOf(a.Get("is_local")) == Some(e.isLocal);
  }

  /** The JSON record `json.dumps` writes for an event (the key order of a top-attacker
      event). */
  function EventJson(e: IdsEvent): (r: Json)
    ensures r.Obj? && r.fields.Get("type") == Some(Str(e.kind))
    ensures r.fields.keys == ["ip", "type", "blocked", "blocked_on", "danger_level", "attributes", "last_update"]
    ensures "attributes" in r.fields.vals && r.fields.vals["attributes"].Obj?
      && r.fields.vals["attributes"].fields.keys == ["total_packets", "uniq_sigs", "sig_matches", "is_local"]
  {
    var attributes := Dict(["total_packets", "uniq_sigs", "sig_matches", "is_local"],
      map["total_packets" := Num(e.totalPackets as real), "uniq_sigs" := Num(e.uniqSigs as real),
          "sig_matches" := Num(e.sigMatches as real), "is_local" := Num(e.isLocal as real)]);
    Obj(Dict(["ip", "type", "blocked", "blocked_on", "danger_level", "attributes", "last_update"],
      map["ip" := Str(e.ip), "type" := Str(e.kind), "blocked" := Bool(e.blocked),
          "blocked_on" := Num(e.blockedOn as real), "danger_level" := Num(e.dangerLevel as real),
          "attributes" := Obj(attributes), "last_update" := Num(e.lastUpdate as real)]))
  }

  function EventsJson(events: seq<IdsEvent>): (r: seq<Json>)
    ensures |r| == |events| && forall i :: 0 <= i < |events| ==> r[i] == EventJson(events[i])
  {
    if events == [] then [] else [EventJson(events[0])] + EventsJson(events[1..])
  }

  /** What the reader prints, read back by the agent, lands in the IDS table with one row
      per event. */
  lemma ReportGoesToIdsTable(events: seq<IdsEvent>)
    requires events != [] && forall i :: 0 <= i < |events| ==> events[i].kind == EventType
    ensures var r := Route(Some(Arr(EventsJson(events))));
      r.Stored? && r.table == IdsTable && |r.rows| == |events|
  {
    var items := EventsJson(events);
    assert FirstType(Arr(items)) == Some(Str("device"));
    assert TableOf(Arr(items)) == Some(IdsTable);
    assert forall i :: 0 <= i < |items| ==> items[i].Obj?;
    var rows := ParseRecords(SchemaOf(IdsTable), items);
    assert rows.Some? && |rows.value| == |events|;
  }
}
