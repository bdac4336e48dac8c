/** Link ingestion: per-pair deduplication, endpoint resolution, batch-unique ids and
    quality-based status (`ProcessLinkData` in
    backend/websocket_servers/agent_socket/process_data.js, with `ConvertAgentsArrayToDic`
    and `getDeviceID` from backend/utils/utils.js). */
module Links {
  import opened Common
  import opened Dict
  import opened Json
  import opened Decimal
  import opened Schemas

  type Pair = (string, string)

  function PairOf(l: LinkReport): Pair {
    (l.srcIp, l.dstIp)
  }

  /** JavaScript `a > b` on two `getTime()` results, either of which may be NaN (None). */
  predicate Later(a: Option<int>, b: Option<int>) {
    a.Some? && b.Some? && a.value > b.value
  }

  /** `HasTheSameSrcAndDstIP(arr, src_ip, dst_ip)`: the first index holding the pair, or -1. */
  function PairIndex(r: seq<LinkReport>, p: Pair): (i: int)
    ensures -1 <= i < |r|
    ensures i == -1 <==> forall k :: 0 <= k < |r| ==> PairOf(r[k]) != p
    ensures i >= 0 ==> PairOf(r[i]) == p && forall k :: 0 <= k < i ==> PairOf(r[k]) != p
  {
    if r == [] then -1
    else if PairOf(r[0]) == p then 0
    else
      var i := PairIndex(r[1..], p);
      if i == -1 then -1 else i + 1
  }

  /** One iteration of the dedup loop: a new pair is appended; a known pair is replaced
      only by a strictly later timestamp. */
  function DedupStep(r: seq<LinkReport>, x: LinkReport): seq<LinkReport> {
    var i := PairIndex(r, PairOf(x));
    if i >= 0 then
      if Later(x.time, r[i].time) then r[i := x] else r
    else r + [x]
  }

  /** The dedup loop over `link_data_list`, written over prefixes. */
  function Dedup(s: seq<LinkReport>): seq<LinkReport>
    decreases |s|
  {
    if s == [] then [] else DedupStep(Dedup(s[..|s| - 1]), s[|s| - 1])
  }

  /** Reference order: the distinct pairs of `s` in order of first appearance. */
  function UniquePairs(s: seq<LinkReport>): seq<Pair>
    decreases |s|
  {
    if s == [] then []
    else
      var u := UniquePairs(s[..|s| - 1]);
      if PairOf(s[|s| - 1]) in u then u else u + [PairOf(s[|s| - 1])]
  }

  lemma {:induction false} UniquePairsFacts(s: seq<LinkReport>)
    decreases |s|
    ensures forall i, j :: 0 <= i < j < |UniquePairs(s)| ==> UniquePairs(s)[i] != UniquePairs(s)[j]
    ensures forall p :: p in UniquePairs(s) <==> exists k :: 0 <= k < |s| && PairOf(s[k]) == p
  {
    if s != [] {
      var t := s[..|s| - 1];
      UniquePairsFacts(t);
      forall p | p in UniquePairs(s) ensures exists k :: 0 <= k < |s| && PairOf(s[k]) == p {
        if p in UniquePairs(t) {
          var k :| 0 <= k < |t| && PairOf(t[k]) == p;
          assert s[k] == t[k];
        } else {
          assert PairOf(s[|s| - 1]) == p;
        }
      }
      forall p | exists k :: 0 <= k < |s| && PairOf(s[k]) == p ensures p in UniquePairs(s) {
        var k :| 0 <= k < |s| && PairOf(s[k]) == p;
        if k < |s| - 1 {
          assert t[k] == s[k];
        }
      }
    }
  }

  /** The kept links line up with the reference order of pairs. */
  lemma {:induction false} DedupAligned(s: seq<LinkReport>)
    decreases |s|
    ensures |Dedup(s)| == |UniquePairs(s)|
    ensures forall i :: 0 <= i < |Dedup(s)| ==> PairOf(Dedup(s)[i]) == UniquePairs(s)[i]
  {
    if s != [] {
      var t := s[..|s| - 1];
      var x := s[|s| - 1];
      DedupAligned(t);
      var r0 := Dedup(t);
      var i := PairIndex(r0, PairOf(x));
      if i < 0 {
        assert PairOf(x) !in UniquePairs(t);
      } else {
        assert PairOf(x) in UniquePairs(t) by { assert UniquePairs(t)[i] == PairOf(x); }
      }
    }
  }

  /** Every kept link is one of the input links. */
  lemma {:induction false} DedupMembers(s: seq<LinkReport>)
    decreases |s|
    ensures forall i :: 0 <= i < |Dedup(s)| ==> Dedup(s)[i] in s
  {
    if s != [] {
      var t := s[..|s| - 1];
      var x := s[|s| - 1];
      DedupMembers(t);
      var r0 := Dedup(t);
      assert s == t + [x];
      forall j | 0 <= j < |Dedup(s)| ensures Dedup(s)[j] in s {
        var i := PairIndex(r0, PairOf(x));
        if !(i >= 0 && Later(x.time, r0[i].time) && j == i) && !(i < 0 && j == |r0|) {
          assert Dedup(s)[j] == r0[j] && r0[j] in t;
        }
      }
    }
  }

  lemma PairsDistinct(s: seq<LinkReport>, i: nat, j: nat)
    requires i < |Dedup(s)| && j < |Dedup(s)| && i != j
    ensures PairOf(Dedup(s)[i]) != PairOf(Dedup(s)[j])
  {
    DedupAligned(s);
    UniquePairsFacts(s);
  }

  /** Every input pair is kept. */
  lemma DedupCovers(s: seq<LinkReport>, k: nat)
    requires k < |s|
    ensures PairIndex(Dedup(s), PairOf(s[k])) >= 0
  {
    var p := PairOf(s[k]);
    var u := UniquePairs(s);
    assert p in u by { UniquePairsFacts(s); }
    var m :| 0 <= m < |u| && u[m] == p;
    DedupAligned(s);
    assert PairOf(Dedup(s)[m]) == p;
  }

  /** No input link of a kept link's pair has a strictly later timestamp. */
  lemma {:induction false} DedupNoLater(s: seq<LinkReport>)
    decreases |s|
    ensures forall i, k :: 0 <= i < |Dedup(s)| && 0 <= k < |s| && PairOf(s[k]) == PairOf(Dedup(s)[i]) ==>
      !Later(s[k].time, Dedup(s)[i].time)
  {
    if s != [] {
      var t := s[..|s| - 1];
      var x := s[|s| - 1];
      var n := |s| - 1;
      DedupNoLater(t);
      var r0 := Dedup(t);
      var r := Dedup(s);
      var i := PairIndex(r0, PairOf(x));
      forall j, k | 0 <= j < |r| && 0 <= k < |s| && PairOf(s[k]) == PairOf(r[j])
        ensures !Later(s[k].time, r[j].time)
      {
        if k < n {
          assert s[k] == t[k];
          if i >= 0 && Later(x.time, r0[i].time) && j == i {
            assert !Later(t[k].time, r0[i].time);
          } else if i < 0 && j == |r0| {
            DedupCovers(t, k);
            assert false;
          } else {
            assert r[j] == r0[j];
          }
        } else if i >= 0 && j != i {
          assert r[j] == r0[j] && r[i] == (if Later(x.time, r0[i].time) then x else r0[i]);
          PairsDistinct(t, i, j);
          assert false;
        }
      }
    }
  }

  /** Of two links of a pair with the same numeric timestamp, the kept one comes first. */
  lemma {:induction false} DedupTie(s: seq<LinkReport>)
    decreases |s|
    ensures forall i, k :: 0 <= i < |Dedup(s)| && 0 <= k < |s| && PairOf(s[k]) == PairOf(Dedup(s)[i]) ==>
      (Dedup(s)[i].time.Some? && s[k].time == Dedup(s)[i].time ==> Dedup(s)[i] in s[..k + 1])
  {
    if s != [] {
      var t := s[..|s| - 1];
      var x := s[|s| - 1];
      var n := |s| - 1;
      DedupTie(t);
      DedupNoLater(t);
      DedupMembers(t);
      var r0 := Dedup(t);
      var r := Dedup(s);
      var i := PairIndex(r0, PairOf(x));
      forall j, k | 0 <= j < |r| && 0 <= k < |s| && PairOf(s[k]) == PairOf(r[j])
          && r[j].time.Some? && s[k].time == r[j].time
        ensures r[j] in s[..k + 1]
      {
        assert s[..k + 1][k] == s[k];
        if k < n {
          assert s[k] == t[k];
          PrefixOfPrefix(s, n, k + 1);
          if i >= 0 && Later(x.time, r0[i].time) && j == i {
            assert false;
          } else if i < 0 && j == |r0| {
            DedupCovers(t, k);
            assert false;
          } else {
            assert r[j] == r0[j];
          }
        } else {
          assert s[..k + 1] == s;
          if j < |r0| {
            assert r[j] == r0[j] || r[j] == x;
            assert r0[j] in t;
          }
        }
      }
    }
  }

  /** The deduplicated batch holds one link per (src_ip, dst_ip) pair, in order of first
      appearance, each taken from the input. */
  lemma DedupPairs(s: seq<LinkReport>)
    ensures forall i, j :: 0 <= i < j < |Dedup(s)| ==> PairOf(Dedup(s)[i]) != PairOf(Dedup(s)[j])
    ensures forall k :: 0 <= k < |s| ==> exists i :: 0 <= i < |Dedup(s)| && PairOf(Dedup(s)[i]) == PairOf(s[k])
    ensures forall i :: 0 <= i < |Dedup(s)| ==> Dedup(s)[i] in s
  {
    DedupAligned(s);
    DedupMembers(s);
    UniquePairsFacts(s);
    forall i, j | 0 <= i < j < |Dedup(s)| ensures PairOf(Dedup(s)[i]) != PairOf(Dedup(s)[j]) {
      PairsDistinct(s, i, j);
    }
    forall k | 0 <= k < |s| ensures exists i :: 0 <= i < |Dedup(s)| && PairOf(Dedup(s)[i]) == PairOf(s[k]) {
      var p := PairOf(s[k]);
      assert p in UniquePairs(s);
      var i :| 0 <= i < |UniquePairs(s)| && UniquePairs(s)[i] == p;
      assert PairOf(Dedup(s)[i]) == p;
    }
  }

  /** A kept link is never older than another link of its pair, and of two links of a pair
      with the same numeric timestamp the first one is kept. */
  lemma DedupKeepsLatestFirst(s: seq<LinkReport>, i: nat, k: nat)
    requires i < |Dedup(s)| && k < |s| && PairOf(s[k]) == PairOf(Dedup(s)[i])
    ensures !Later(s[k].time, Dedup(s)[i].time)
    ensures Dedup(s)[i].time.Some? && s[k].time == Dedup(s)[i].time ==> Dedup(s)[i] in s[..k + 1]
  {
    DedupNoLater(s);
    DedupTie(s);
  }

  /** Two links of the same pair and the same timestamp: the first one is kept. */
  lemma DedupTieKeepsFirst(a: LinkReport, b: LinkReport)
    requires PairOf(a) == PairOf(b) && a.time == b.time
    ensures Dedup([a, b]) == [a]
  {
    assert [a, b][..1] == [a];
    assert [a][..0] == [];
    assert Dedup([a]) == [a];
    assert PairIndex([a], PairOf(b)) == 0;
  }

  /** `ConvertAgentsArrayToDic(agent_list)`: each agent id maps to itself. */
  function ConvertAgentsArrayToDic(agents: seq<Agent>): (r: Dict<string>)
    decreases |agents|
    ensures r.Valid()
    ensures forall k :: k in r.vals <==> exists i :: 0 <= i < |agents| && agents[i].device.id == k
    ensures forall k :: k in r.vals ==> r.vals[k] == k
  {
    if agents == [] then Empty()
    else
      var d := ConvertAgentsArrayToDic(agents[..|agents| - 1]);
      assert forall i :: 0 <= i < |agents| - 1 ==> agents[..|agents| - 1][i] == agents[i];
      d.Put(agents[|agents| - 1].device.id, agents[|agents| - 1].device.id)
  }

  /** Some interface of the document lists `ip` among its addresses. */
  predicate DocHasIp(doc: IfacesDoc, ip: string) {
    exists j :: 0 <= j < |doc.ifaces| && doc.ifaces[j].ip.Some? && ip in doc.ifaces[j].ip.value
  }

  /** `getDeviceID(agents_data, ifaces_data, link_ip)`: the agent id owning the first
      interface document that lists the IP (None when that agent is not in `agents_data`,
      i.e. `undefined`), or the IP itself when no document lists it. */
  function GetDeviceId(agents: Dict<string>, docs: seq<IfacesDoc>, ip: string): Option<string> {
    if docs == [] then Some(ip)
    else if DocHasIp(docs[0], ip) then agents.Get(docs[0].agentId)
    else GetDeviceId(agents, docs[1..], ip)
  }

  /** With no document listing the IP, the IP stands for itself. */
  lemma {:induction false} GetDeviceIdUnlisted(agents: Dict<string>, docs: seq<IfacesDoc>, ip: string)
    requires forall i :: 0 <= i < |docs| ==> !DocHasIp(docs[i], ip)
    ensures GetDeviceId(agents, docs, ip) == Some(ip)
  {
    if docs != [] {
      assert !DocHasIp(docs[0], ip);
      assert forall i :: 0 <= i < |docs[1..]| ==> docs[1..][i] == docs[i + 1];
      GetDeviceIdUnlisted(agents, docs[1..], ip);
    }
  }

  /** The first document listing the IP decides: its agent's id, None when unknown. */
  lemma {:induction false} GetDeviceIdFirstListing(agents: Dict<string>, docs: seq<IfacesDoc>, ip: string, i: nat)
    requires i < |docs| && DocHasIp(docs[i], ip)
    requires forall k :: 0 <= k < i ==> !DocHasIp(docs[k], ip)
    ensures GetDeviceId(agents, docs, ip) == agents.Get(docs[i].agentId)
  {
    if i > 0 {
      assert !DocHasIp(docs[0], ip);
      assert docs[1..][i - 1] == docs[i];
      assert forall k :: 0 <= k < i - 1 ==> docs[1..][k] == docs[k + 1];
      GetDeviceIdFirstListing(agents, docs[1..], ip, i - 1);
    }
  }

  /** The ids of `taken` at least as long as `id`; shrinks as the candidate grows. */
  function LongerIds(taken: set<string>, id: string): set<string> {
    set x | x in taken && |x| >= |id|
  }

  lemma LongerIdsShrink(taken: set<string>, id: string, id': string)
    requires id in taken && |id'| > |id|
    ensures |LongerIds(taken, id')| < |LongerIds(taken, id)|
  {
    var a := LongerIds(taken, id');
    var b := LongerIds(taken, id);
    assert id in b && id !in a;
    assert a <= b;
    assert b == a + (b - a);
    assert |b| == |a| + |b - a|;
  }

  /** The suffixing loop of `getUniqueIDOfLink`: `_number` is appended to the current
      candidate (so suffixes accumulate) until the candidate is free. */
  function NextFreeId(taken: set<string>, id: string, number: nat): (r: string)
    decreases |LongerIds(taken, id)|
    ensures r !in taken
    ensures |id| <= |r| && r[..|id|] == id
    ensures id !in taken ==> r == id
  {
    if id in taken then
      var next := id + "_" + NatToString(number);
      LongerIdsShrink(taken, id, next);
      var r := NextFreeId(taken, next, number + 1);
      assert r[..|id|] == next[..|id|];
      r
    else id
  }

  /** `getUniqueIDOfLink(link_ids, src_id, dst_id)`: MD5 of the concatenated endpoint ids
      (a single unresolved endpoint renders as "undefined"), suffixed until unused. With
      both endpoints unresolved, `undefined + undefined` is NaN, which the hash's `update`
      rejects by throwing: None. */
  function UniqueLinkId(taken: set<string>, src: Option<string>, dst: Option<string>, md5: string -> string)
    : (r: Option<string>)
    ensures r.None? <==> src.None? && dst.None?
    ensures r.Some? ==> r.value !in taken
    ensures r.Some? ==> var h := md5(JsText(src) + JsText(dst));
      |h| <= |r.value| && r.value[..|h|] == h && (h !in taken ==> r.value == h)
  {
    if src.None? && dst.None? then None
    else Some(NextFreeId(taken, md5(JsText(src) + JsText(dst)), 1))
  }

  /** The first collision appends `_1`, the second `_1_2`. */
  lemma SuffixesAccumulate(taken: set<string>, h: string)
    requires h in taken && h + "_1" in taken && h + "_1_2" !in taken
    ensures NextFreeId(taken, h, 1) == h + "_1_2"
  {
    assert NatToString(1) == "1" && NatToString(2) == "2";
    assert h + "_" + NatToString(1) == h + "_1";
    assert h + "_1" + "_" + NatToString(2) == h + "_1_2";
  }

  /** The status rule: quality in [0.5, 0.75] is `low`, below 0.5 is `down`, anything else
      (above 0.75 or NaN) keeps the status the agent sent. */
  function LinkStatus(sent: string, quality: Option<real>): (r: string)
    ensures quality.Some? && 0.5 <= quality.value <= 0.75 ==> r == "low"
    ensures quality.Some? && quality.value < 0.5 ==> r == "down"
    ensures quality.None? || quality.value > 0.75 ==> r == sent
  {
    if quality.Some? && quality.value <= 0.75 && quality.value >= 0.5 then "low"
    else if quality.Some? && quality.value < 0.5 then "down"
    else sent
  }

  /** The parsed `attributes` supports the `linkQuality` lookup: `JSON.parse` did not throw
      and did not yield null. */
  predicate AttributesUsable(l: LinkReport) {
    l.attributes.Some? && !l.attributes.value.Null?
  }

  /** Annotating the report throws: its `attributes` lookup fails, or neither endpoint
      resolves and the id hash throws. */
  predicate Aborts(l: LinkReport, agents: Dict<string>, docs: seq<IfacesDoc>) {
    || !AttributesUsable(l)
    || (GetDeviceId(agents, docs, l.srcIp).None? && GetDeviceId(agents, docs, l.dstIp).None?)
  }

  /** Some report of the batch makes the annotation loop throw. */
  predicate AnyAborts(latest: seq<LinkReport>, agents: Dict<string>, docs: seq<IfacesDoc>) {
    exists i :: 0 <= i < |latest| && Aborts(latest[i], agents, docs)
  }

  /** The loop that annotates the deduplicated links; `taken` is `link_ids` so far. None when
      an annotation throws, which abandons the whole update. */
  function ResolveLinks(latest: seq<LinkReport>, agents: Dict<string>, docs: seq<IfacesDoc>,
                        md5: string -> string, taken: set<string>): (r: Option<seq<Link>>)
    decreases |latest|
    ensures r.None? <==> AnyAborts(latest, agents, docs)
    ensures r.Some? ==> |r.value| == |latest|
  {
    if latest == [] then Some([])
    else
      var l := latest[0];
      var src := GetDeviceId(agents, docs, l.srcIp);
      var dst := GetDeviceId(agents, docs, l.dstIp);
      var id := UniqueLinkId(taken, src, dst, md5);
      if !AttributesUsable(l) || id.None? then None
      else
        var rest := ResolveLinks(latest[1..], agents, docs, md5, taken + {id.value});
        assert forall i :: 1 <= i < |latest| ==> latest[1..][i - 1] == latest[i];
        if rest.None? then None
        else Some([Link(l, src, dst, id.value, LinkStatus(l.status, l.quality))] + rest.value)
  }

  /** A link is the resolution of a report: it carries the report, both resolved end ids,
      the derived status and an id not taken before. */
  predicate Resolves(k: Link, l: LinkReport, agents: Dict<string>, docs: seq<IfacesDoc>, taken: set<string>) {
    && k.report == l
    && k.srcId == GetDeviceId(agents, docs, l.srcIp)
    && k.dstId == GetDeviceId(agents, docs, l.dstIp)
    && k.status == LinkStatus(l.status, l.quality)
    && k.id !in taken
  }

  /** Each resolved link is the resolution of the report at its position. */
  lemma {:induction false} ResolveLinksEntries(latest: seq<LinkReport>, agents: Dict<string>, docs: seq<IfacesDoc>,
                                               md5: string -> string, taken: set<string>)
    decreases |latest|
    ensures var r := ResolveLinks(latest, agents, docs, md5, taken);
      r.Some? ==> forall i :: 0 <= i < |latest| ==> Resolves(r.value[i], latest[i], agents, docs, taken)
  {
    var r := ResolveLinks(latest, agents, docs, md5, taken);
    if latest != [] && r.Some? {
      var l := latest[0];
      var src := GetDeviceId(agents, docs, l.srcIp);
      var dst := GetDeviceId(agents, docs, l.dstIp);
      var id := UniqueLinkId(taken, src, dst, md5).value;
      var rest := ResolveLinks(latest[1..], agents, docs, md5, taken + {id});
      ResolveLinksEntries(latest[1..], agents, docs, md5, taken + {id});
      assert r == Some([Link(l, src, dst, id, LinkStatus(l.status, l.quality))] + rest.value);
      forall i | 0 <= i < |latest|
        ensures Resolves(r.value[i], latest[i], agents, docs, taken)
      {
        if i > 0 {
          assert r.value[i] == rest.value[i - 1] && latest[i] == latest[1..][i - 1];
          assert Resolves(rest.value[i - 1], latest[1..][i - 1], agents, docs, taken + {id});
        }
      }
    }
  }

  /** The resolved links' ids are pairwise distinct. */
  lemma {:induction false} ResolveLinksDistinct(latest: seq<LinkReport>, agents: Dict<string>, docs: seq<IfacesDoc>,
                                                md5: string -> string, taken: set<string>)
    decreases |latest|
    ensures var r := ResolveLinks(latest, agents, docs, md5, taken);
      r.Some? ==> forall i, j :: 0 <= i < j < |latest| ==> r.value[i].id != r.value[j].id
  {
    var r := ResolveLinks(latest, agents, docs, md5, taken);
    if latest != [] && r.Some? {
      var l := latest[0];
      var id := UniqueLinkId(taken, GetDeviceId(agents, docs, l.srcIp), GetDeviceId(agents, docs, l.dstIp), md5).value;
      var rest := ResolveLinks(latest[1..], agents, docs, md5, taken + {id});
      ResolveLinksEntries(latest[1..], agents, docs, md5, taken + {id});
      ResolveLinksDistinct(latest[1..], agents, docs, md5, taken + {id});
      assert r == Some([Link(l, GetDeviceId(agents, docs, l.srcIp), GetDeviceId(agents, docs, l.dstIp), id,
                            LinkStatus(l.status, l.quality))] + rest.value);
      forall i, j | 0 <= i < j < |latest|
        ensures r.value[i].id != r.value[j].id
      {
        assert r.value[j] == rest.value[j - 1];
        assert Resolves(rest.value[j - 1], latest[1..][j - 1], agents, docs, taken + {id});
        if i > 0 {
          assert r.value[i] == rest.value[i - 1];
        }
      }
    }
  }

  /** The agents registered in a VLAN (`find({vlan})`), in store order. */
  function AgentsInVlan(agents: seq<Agent>, vlan: string): (r: seq<Agent>)
    ensures forall a :: a in r <==> a in agents && a.device.vlan == vlan
  {
    if agents == [] then []
    else (if agents[0].device.vlan == vlan then [agents[0]] else []) + AgentsInVlan(agents[1..], vlan)
  }

  /** The interface documents of a VLAN, in store order. */
  function IfacesInVlan(docs: seq<IfacesDoc>, vlan: string): (r: seq<IfacesDoc>)
    ensures forall d :: d in r <==> d in docs && d.vlan == vlan
  {
    if docs == [] then []
    else (if docs[0].vlan == vlan then [docs[0]] else []) + IfacesInVlan(docs[1..], vlan)
  }

  /** The batch `ProcessLinkData` writes, from the VLAN's agents and interface documents:
      the deduplicated reports, annotated. None when nothing is written, because there are
      no agents or no interface documents, or because an annotation throws. */
  function LinkBatch(agents: seq<Agent>, docs: seq<IfacesDoc>, reports: seq<LinkReport>, md5: string -> string)
    : (r: Option<seq<Link>>)
    ensures var latest := Dedup(reports); var dic := ConvertAgentsArrayToDic(agents);
      (r.Some? <==> (|agents| > 0 && |docs| > 0 && !AnyAborts(latest, dic, docs)))
    ensures var latest := Dedup(reports); var dic := ConvertAgentsArrayToDic(agents);
      r.Some? ==>
        && |r.value| == |latest|
        && (forall i :: 0 <= i < |r.value| ==> Resolves(r.value[i], latest[i], dic, docs, {}))
        && (forall i, j :: 0 <= i < j < |r.value| ==> r.value[i].id != r.value[j].id)
  {
    var latest := Dedup(reports);
    var dic := ConvertAgentsArrayToDic(agents);
    if |agents| == 0 || |docs| == 0 then None
    else
      var r := ResolveLinks(latest, dic, docs, md5, {});
      ResolveLinksEntries(latest, dic, docs, md5, {});
      ResolveLinksDistinct(latest, dic, docs, md5, {});
      assert r.Some? ==> |r.value| == |latest|;
      assert r.Some? ==> forall i :: 0 <= i < |r.value| ==> Resolves(r.value[i], latest[i], dic, docs, {});
      assert r.Some? ==> forall i, j :: 0 <= i < j < |r.value| ==> r.value[i].id != r.value[j].id;
      r
  }

  /** The VLAN's slices of the store that `ProcessLinkData` reads. */
  function VlanBatch(db: Db, reports: seq<LinkReport>, vlan: string, md5: string -> string): Option<seq<Link>> {
    LinkBatch(AgentsInVlan(db.agents.Values(), vlan), IfacesInVlan(db.ifaces.Values(), vlan), reports, md5)
  }

  /** `ProcessLinkData(db, ws_data, vlan_name)`: when a batch is produced and the sender is
      registered, the sender's `link_data` becomes that batch and its refresh time is set;
      otherwise nothing is written. No other record changes. */
  function ProcessLinkData(db: Db, agentId: string, reports: seq<LinkReport>, vlan: string,
                           md5: string -> string, now: int): (r: Db)
    ensures r.notifications == db.notifications && r.ifaces == db.ifaces && r.ids == db.ids
      && r.vlanTraffic == db.vlanTraffic && r.nodeTraffic == db.nodeTraffic
    ensures r.agents.keys == db.agents.keys && r.agents.vals.Keys == db.agents.vals.Keys
    ensures forall k :: k in db.agents.vals && k != agentId ==> r.agents.vals[k] == db.agents.vals[k]
    ensures agentId !in db.agents.vals || VlanBatch(db, reports, vlan, md5).None? ==> r == db
    ensures agentId in db.agents.vals && VlanBatch(db, reports, vlan, md5).Some? ==>
      var before := db.agents.vals[agentId];
      && r.agents.vals[agentId].linkData == VlanBatch(db, reports, vlan, md5).value
      && r.agents.vals[agentId].device == before.device.(lastUpdate := now)
      && r.agents.vals[agentId].visibleDevices == before.visibleDevices
      && r.agents.vals[agentId].substationName == before.substationName
  {
    var batch := VlanBatch(db, reports, vlan, md5);
    if batch.None? || agentId !in db.agents.vals then db
    else
      var before := db.agents.vals[agentId];
      db.(agents := db.agents.Put(agentId, before.(linkData := batch.value,
                                                   device := before.device.(lastUpdate := now))))
  }
}
