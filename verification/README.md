# netmon in Dafny

netmon is a network monitor for a site of "Phoenix Box" agents. Each agent discovers the
devices on its VLAN, reports interface counters, routing links and intrusion-detection
(IDS) events, and sends them over a websocket to a Node.js backend. The backend merges the
reports into a document store, and a web frontend draws the topology, traffic charts and
notifications.

This project models the pure logic of that pipeline as immutable Dafny datatypes and total
functions, and proves properties about it:

- **Backend ingestion** (`Registry`, `Ingest`, `Merge`, `Links`, `Rollup`, `Schemas`):
  - message validation and dispatch;
  - agent registration, connection and disconnection;
  - the upsert-by-MAC merge of visible devices;
  - per-pair link deduplication, batch-unique link ids and quality-derived link status;
  - append-only IDS bundles;
  - the daily traffic series;
  - the canonical record builders.
- **Backend views** (`Inventory`, `Topology`, `TrafficView`, `EventsView`, `Verify`):
  - the flattened device inventory;
  - the per-VLAN topology fold with its one-minute staleness rule;
  - series totals and the per-node-within-VLAN chart;
  - 30-day IDS retention;
  - the notifications view;
  - request checks and response objects.
- **Agent transforms** (`AgentClient`, `AgentExternal`, `AgentIds`):
  - the change filter that decides what is re-sent;
  - default-filling of external link and IDS records and their routing;
  - the interval/timeout clamp;
  - psad CSV parsing into IDS events.
- **Frontend view models** (`FrontGraph`, `FrontTopology`, `FrontDiff`, `FrontStore`,
  `FrontCharts`, `FrontUtils`):
  - node and edge classification;
  - merging of bidirectional edges with their minimum quality;
  - grouping of a box's devices into one node;
  - the vis.js dataset built by `generateData`;
  - incremental node and edge diffs;
  - the Vuex store's notification buffer and getters;
  - chart series and date filtering;
  - the small utilities in `frontend/src/utils.js`.

### Shared modules

- `Dict` is a JavaScript object with insertion-ordered keys.
- `Json` is a decoded JSON value, with JavaScript and Python truthiness.
- `Common` holds `Option`/`Result` and subsequences.
- `Text` holds splitting, substring search and string order.
- `Decimal` holds decimal digits, as used by Python `int()` and by the chart dates.
- `ChartDate` holds the `M/D/YYYY` chart dates.

### What becomes a parameter

- The document store is a value of type `Schemas.Db`: maps from keys to records, passed in and returned.
- The clock is a parameter: `now`/`nowMs` in milliseconds, and the UTC calendar date.
- MD5, MongoDB ObjectIDs, `JSON.parse` and `JSON.stringify` are function parameters.
- A JavaScript `NaN` (an unparseable number or an invalid date) is `None`.

## Model

| member | source | states |
|---|---|---|
| Rollup.FindInArray | backend/utils/utils.js:58-66 | the least index holding the element, and -1 exactly when it is absent |
| Links.ConvertAgentsArrayToDic | backend/utils/utils.js:70-78 | the keys are exactly the agents' ids, each mapped to itself |
| Links.GetDeviceIdUnlisted | backend/utils/utils.js:83-96 | when no interface document lists the IP, the IP itself is returned |
| Links.GetDeviceIdFirstListing | backend/utils/utils.js:83-96 | when document i is the first to list the IP, the result is the agent map's entry for that document's agent (None when the agent is unknown) |
| ChartDate.TodayLabel | backend/utils/utils.js:100-108 | the label parses back to the given year, the 1-based month and the day, and has no leading zero |
| ChartDate.ParseFormat | backend/utils/utils.js:100-108 | parsing a formatted chart date gives the date back |
| ChartDate.FormatInjective | backend/utils/utils.js:100-108 | two dates with the same label are equal |
| Rollup.Delta | backend/utils/utils.js:140-145 | the new point is the absolute difference of rx and tx between the totals and the previous point |
| Rollup.SetOrPush | backend/utils/utils.js:124-156 | writing at an index replaces that element or appends one, and leaves every other element alone |
| Rollup.UpdateChart | backend/utils/utils.js:124-156 | a paired series stays paired; an absent today appends one date and one delta; today at index 0 takes the raw totals; today at k > 0 takes the delta from value[k-1], with dates unchanged |
| Rollup.UpdateChartSameDayIdempotent | backend/utils/utils.js:137-148 | a second update on the same day with the same totals changes nothing |
| Rollup.SumFromSome | backend/utils/utils.js:169-192 | the running counter sum equals the start plus the per-field sums |
| Rollup.SumIfacesFieldSums | backend/utils/utils.js:169-192 | the sum over interfaces is absent for no interfaces and is otherwise the per-field sums |
| Rollup.AllIfaces | backend/utils/utils.js:162-192 | the flattened interface list is empty exactly when every document has no interfaces |
| Rollup.UpdateVlanTraffic | backend/utils/utils.js:162-228 | succeeds when the VLAN has interfaces and a paired series; the stored total is the per-field sum over the VLAN's interfaces; an existing document gets that total, today's chart update of its series and the time, a new one the seeded VLAN schema; only the VLAN's entry is put, so every other VLAN document and the key order stay as they were; other collections are unchanged |
| Rollup.UpdateNodeTraffic | backend/utils/utils.js:270-333 | succeeds when the node has interfaces and a paired series; the total is their per-field sum; an existing document gets that total, today's chart update of its series and the time, a new node the node traffic seed; no other node document changes |
| Rollup.UpdateInterfaceData | backend/websocket_servers/agent_socket/process_data.js:168-198 | the agent's interface document holds the new interfaces and time, keeps its first VLAN, and no other document changes |
| Rollup.ProcessInterfaceData | backend/websocket_servers/agent_socket/process_data.js:202-228 | the interfaces are stored; the VLAN rollup runs over the stored documents, and when it applies the VLAN document holds the new total and the updated (or seeded) series; a registered agent gets its node rollup under its hostname with the new total and series; an agent that is not registered leaves the node documents as they were; a failing rollup leaves its collection unchanged |
| Rollup.NodeTrafficIgnoresVlans | backend/utils/utils.js:270-333 | the node rollup's outcome does not depend on the VLAN documents |
| Registry.ProcessWebsocketConnection | backend/websocket_servers/agent_socket/process_data.js:29-71 | accepted exactly when the ifaces header is a JSON object or array and id, mac, ip and hostname are truthy, with the header-error message otherwise; the accepted agent is stored and `up` |
| Registry.SetAgentStatus | backend/websocket_servers/agent_socket/process_data.js:50-63 | only the named agent's status and refresh time change; an unknown id changes nothing |
| Registry.ProcessDisconnection | backend/websocket_servers/agent_socket/process_data.js:75-95 | appends one red "<hostname> disconnected. It may connect again!" notification and marks a known agent `down`; no other agent changes |
| Registry.AddressChangeMessage | backend/utils/db_utils.js:346-360 | no message exactly when mac and ip agree; the IP text when the IP differs, else the MAC text |
| Registry.RegisterAgent | backend/utils/db_utils.js:335-375 | an unknown id inserts the agent schema with no notification; a known id answers `exists` and adds a yellow notification exactly when an address changed |
| Registry.ReconnectSameAddressesIsQuiet | backend/utils/db_utils.js:335-375 | reconnecting with the same addresses adds no notification and no agent |
| Registry.ReconnectNewIpNotifies | backend/utils/db_utils.js:346-360 | reconnecting from a new IP adds exactly the IP-change notification |
| Merge.UpdateDeviceCurrentData | backend/websocket_servers/agent_socket/process_data.js:100-121 | hostname falls back to ip; the bandwidth is `Number` of the reported one, and 0 when that is 0 or NaN; id, status, type, mac, vlan and registration time are kept |
| Merge.UpdateDeviceCurrentDataIdempotent | backend/websocket_servers/agent_socket/process_data.js:100-121 | applying the same device report twice equals applying it once |
| Merge.UpsertOne | backend/websocket_servers/agent_socket/process_data.js:124-131 | one loop step maps the MAC to the merged or the new device record |
| Merge.UpdateDevicesData | backend/websocket_servers/agent_socket/process_data.js:99-134 | the keys are the old keys plus the reported MACs; unreported entries are unchanged; reported ones are merged or created |
| Merge.UpsertAllFacts | backend/websocket_servers/agent_socket/process_data.js:124-131 | the upsert loop over distinct MACs yields exactly the keyed merge, and keeps key order when all MACs are known |
| Merge.UpdateDevicesDataIdempotent | backend/websocket_servers/agent_socket/process_data.js:99-134 | when every reported bandwidth is falsy or numeric, applying the same report twice gives the same map as applying it once |
| Merge.NaNBandwidthZeroedOnRefresh | backend/websocket_servers/agent_socket/process_data.js:108-111 | a truthy non-numeric bandwidth is stored as NaN for a new device and as 0 when the same report refreshes it |
| Merge.ProcessDevicesData | backend/websocket_servers/agent_socket/process_data.js:138-164 | an unknown agent changes nothing; a known one gets the merged devices, the new time and `agent_bandwidth` as sent when truthy, else 0, and nothing else changes |
| Links.PairIndex | backend/websocket_servers/agent_socket/process_data.js:255-266 | the first index holding the (src_ip, dst_ip) pair, or -1 exactly when none does |
| Links.DedupPairs | backend/websocket_servers/agent_socket/process_data.js:269-290 | one entry per (src_ip, dst_ip) pair, every input pair is present, and every entry comes from the input |
| Links.DedupKeepsLatestFirst | backend/websocket_servers/agent_socket/process_data.js:269-290 | no input with the same pair is strictly later than the kept entry; on a tie the kept entry appears no later than the other |
| Links.DedupTieKeepsFirst | backend/websocket_servers/agent_socket/process_data.js:284 | of two reports with equal time the first one is kept |
| Links.NextFreeId | backend/websocket_servers/agent_socket/process_data.js:240-252 | the result is not taken, extends the given id, and is the id itself when that is free |
| Links.UniqueLinkId | backend/websocket_servers/agent_socket/process_data.js:240-252 | fails exactly when both ids are undefined (the hash input is then not a string); otherwise the id is not yet in `link_ids`, starts with the MD5 of the two ids, and is that MD5 when it is free |
| Links.SuffixesAccumulate | backend/websocket_servers/agent_socket/process_data.js:245-248 | with `h` and `h_1` taken the next id is `h_1_2` |
| Links.LinkStatus | backend/websocket_servers/agent_socket/process_data.js:316-322 | quality in [0.5, 0.75] gives `low`, below 0.5 gives `down`, NaN or above 0.75 keeps the status sent |
| Links.ResolveLinks | backend/websocket_servers/agent_socket/process_data.js:306-325 | fails exactly when some report has no usable attributes or resolves neither endpoint; otherwise one link per report |
| Links.ResolveLinksEntries | backend/websocket_servers/agent_socket/process_data.js:306-325 | each resolved link keeps its report, has the resolved source and destination device ids, the status derived from the report, and an id not already taken |
| Links.ResolveLinksDistinct | backend/websocket_servers/agent_socket/process_data.js:306-325 | the resolved links' ids are pairwise distinct |
| Links.AgentsInVlan | backend/websocket_servers/agent_socket/process_data.js:299-305 | exactly the agents of the VLAN |
| Links.IfacesInVlan | backend/websocket_servers/agent_socket/process_data.js:299-305 | exactly the interface documents of the VLAN |
| Links.LinkBatch | backend/websocket_servers/agent_socket/process_data.js:299-325 | a batch is written exactly when the VLAN has agents and interface documents and no report makes annotation throw; it then has one resolved link per deduplicated report, with distinct ids |
| Links.ProcessLinkData | backend/websocket_servers/agent_socket/process_data.js:232-344 | an unknown agent or an unwritten batch changes nothing; otherwise the agent's links become the batch and its time is set, and nothing else changes |
| Ingest.AnnotateEvent | backend/websocket_servers/agent_socket/process_data.js:391-398 | the event gets vlan and phx_box; an integer blocked_on is kept and any other becomes 0; the other fields are kept |
| Ingest.AnnotateAll | backend/websocket_servers/agent_socket/process_data.js:391-398 | every event of the batch is annotated, in order |
| Ingest.ProcessIdsData | backend/websocket_servers/agent_socket/process_data.js:348-409 | an unknown agent changes nothing; otherwise the bundle is the old events followed by the annotated new ones, and no other bundle changes |
| Ingest.IdsAppendOnly | backend/websocket_servers/agent_socket/process_data.js:359-360 | two batches leave the first batch's events followed by the second's |
| Json.IsValidJson | backend/utils/verify.js:40-59 | the value is returned for an object or array (a string is parsed first); null for null, primitives, `undefined` and unparseable text |
| Json.IsValidJsonIdempotent | backend/utils/verify.js:40-59 | checking an accepted value again returns it unchanged |
| Ingest.ProcessWebsocketData | backend/websocket_servers/agent_socket/process_data.js:418-459 | invalid JSON, a missing msg_type/data/agent_id, a falsy data or agent_id, and an unknown msg_type leave the store unchanged; each of the four message types goes to its handler with the message's agent id and payload; notifications never change |
| Ingest.EmptyPayloadDropped | backend/websocket_servers/agent_socket/process_data.js:418-459 | a message whose data is falsy is dropped |
| Schemas.BandwidthOrZero | backend/utils/schemas.js:24-26 | a falsy number becomes 0, any other is kept |
| Schemas.OrZero | backend/websocket_servers/agent_socket/process_data.js:150 | `x \|\| 0`: a truthy value is kept as it is, anything else is 0 |
| Schemas.NumberOf | backend/utils/schemas.js:40 | `Number(x)` stored: NaN exactly when the text is not numeric |
| Schemas.DeviceSchema | backend/utils/schemas.js:16-50 | hostname defaults to ip; a falsy bandwidth is stored as 0, a truthy numeric one as its number and a truthy non-numeric one as NaN; status `up`, type `Device`, and the reported fields copied |
| Schemas.AgentSchema | backend/utils/schemas.js:54-81 | type `Phoenix Box`, id of the agent, iface stringified, empty devices and links, cleared port fields, and last_update equal to registration_ts |
| Schemas.NotificationSchema | backend/utils/schemas.js:85-99 | ts defaults to now when falsy; type and message as given |
| Schemas.IfacesDataSchema | backend/utils/schemas.js:103-120 | the document is keyed by agent id and holds the interfaces, VLAN and time |
| Schemas.SeedSeries | backend/utils/schemas.js:124-174 | a seed series has one date (today) and one value equal to the raw rx/tx totals |
| Schemas.VlanTrafficSchema | backend/utils/schemas.js:124-146 | a VLAN traffic seed with no hostname, the totals and one raw point for today |
| Schemas.NodeTrafficSchema | backend/utils/schemas.js:150-174 | a node traffic seed with its hostname, the totals and one raw point for today |
| Schemas.IdsEventsSchema | backend/utils/schemas.js:178-187 | the IDS document is keyed by agent id and holds the events, VLAN and time |
| Inventory.Stripped | backend/utils/db_utils.js:21-37 | an agent entry keeps device and substation and has empty visible devices and links |
| Inventory.AddDevices | backend/utils/db_utils.js:21-37 | adding devices adds exactly their MACs and leaves other entries alone |
| Inventory.AllDevices | backend/utils/db_utils.js:21-37 | every agent entry in the device map has empty visible devices and links |
| Inventory.AllDevicesKeys | backend/utils/db_utils.js:21-37 | the map's keys are all agent ids plus all visible-device MACs |
| Inventory.DevicesData | backend/utils/db_utils.js:19-51 | no agents gives the "No registered devices found" error, and otherwise the device map |
| Inventory.DeviceEntries | backend/utils/utils.ts:33-44 | one entry per device, in order |
| Inventory.StripAll | backend/utils/utils.ts:37-39 | every agent stripped, in order |
| Inventory.AllDevicesListAgents | backend/utils/utils.ts:33-44 | the agents in the list are the stripped agents in their original order |
| Inventory.AllDevicesListLength | backend/utils/utils.ts:33-44 | the list has one entry per agent plus one per visible device |
| Topology.TopologyNode | backend/utils/db_utils.js:57-75 | status is `down` exactly when more than a minute passed at whole-second granularity; a substation name only for a box with a non-empty one; other fields copied |
| Topology.StoredStatusIgnored | backend/utils/db_utils.js:57-70 | the stored status does not affect the topology node |
| Topology.StaleBoundary | backend/utils/db_utils.js:57-70 | 60 whole seconds is not stale, 61 is, and staleness persists as time passes |
| Topology.AddVisible | backend/utils/db_utils.js:98-136 | the nodes gain exactly the devices' ids, listed in order |
| Topology.AddAgentTopology | backend/utils/db_utils.js:98-136 | the VLAN keys are kept plus the agent's VLAN; every other VLAN is unchanged and the agent's VLAN becomes its old entry extended by the agent |
| Topology.AgentEntry | backend/utils/db_utils.js:98-136 | the agent's links are appended; the nodes keep the old ones and gain the agent and its devices; the visible-device list under the agent's device id becomes the devices' ids, other lists unchanged |
| Topology.TopologyVlans | backend/utils/db_utils.js:98-136 | the fold has exactly the VLANs of the agents |
| Topology.TopologyLinks | backend/utils/db_utils.js:98-136 | every VLAN some agent is on has a topology entry, whose links are the concatenation of its agents' link data in agent order |
| Topology.TopologyNodes | backend/utils/db_utils.js:98-136 | every agent id and its devices' ids are nodes of its VLAN |
| Topology.TopologyVisibleDevs | backend/utils/db_utils.js:98-136 | with distinct agent ids, visible_devs of an agent lists exactly its device ids |
| Topology.NetworkTopology | backend/utils/db_utils.js:55-145 | no agents gives an error; otherwise the fold |
| TrafficView.SumAppend | backend/utils/db_utils.js:149-164 | appending a point adds its counters to the sums |
| TrafficView.SeriesTotals | backend/utils/db_utils.js:149-164 | the loop computes the rx and tx sums of the series |
| TrafficView.WithTotals | backend/utils/db_utils.js:149-164 | total rx/tx are the sums of the series values and nothing else changes |
| TrafficView.CalculateTotalTraffic | backend/utils/db_utils.js:149-164 | every document gets its totals recomputed, with the same keys |
| TrafficView.CalculateTotalTrafficIdempotent | backend/utils/db_utils.js:149-164 | recomputing totals twice is the same as once |
| TrafficView.LabelStripsDomain | backend/utils/db_utils.js:184 | a one-label host under `.phxnet.org` is labelled by that label |
| TrafficView.LastPoint | backend/utils/db_utils.js:168-201 | the last series value, absent for an empty series |
| TrafficView.AddNodePoints | backend/utils/db_utils.js:168-201 | fails exactly when some node has no host name or no VLAN document; keeps the keys otherwise |
| TrafficView.PlaceNode | backend/utils/db_utils.js:178-188 | only the node's VLAN entry changes, gaining one label and one point |
| TrafficView.AddNodePointsLabels | backend/utils/db_utils.js:168-201 | each VLAN's labels gain the names of its nodes, in order |
| TrafficView.AddNodePointsPoints | backend/utils/db_utils.js:168-201 | each VLAN's points gain one point per node in it, in order |
| TrafficView.AddNodePointsKeepsFields | backend/utils/db_utils.js:168-201 | placing nodes leaves each VLAN's name, totals and update time as they were |
| TrafficView.UpdateNodeTrafficData | backend/utils/db_utils.js:168-201 | fails exactly when a node has no hostname or names an unknown VLAN; otherwise both collections' totals are recomputed and per_node_vlan has exactly the VLANs' keys |
| TrafficView.UpdateNodeTrafficDataPerNode | backend/utils/db_utils.js:168-201 | per_node_vlan[v] carries v's totals and one label and point per node of v, in order |
| TrafficView.TrafficData | backend/utils/db_utils.js:205-242 | no node documents is an error; otherwise the per-node view |
| EventsView.SortByTs | backend/utils/db_utils.js:246-257 | a permutation sorted by ts |
| EventsView.NotificationsData | backend/utils/db_utils.js:246-257 | no notifications gives the error message; otherwise min(50, n) notifications in ascending ts |
| EventsView.NotificationsDataOldest | backend/utils/db_utils.js:246-257 | the notifications returned are drawn from the input, and none left out is older than one returned |
| EventsView.Trunc | backend/utils/db_utils.js:262-279 | truncation toward zero |
| EventsView.RemoveOldData | backend/utils/db_utils.js:262-279 | a subsequence holding exactly the events at most 720 hours old |
| EventsView.RemoveOldDataIdempotent | backend/utils/db_utils.js:262-279 | filtering twice is the same as once |
| EventsView.RecentWindow | backend/utils/db_utils.js:262-279 | an event with a numeric last_update is kept exactly when it is within the retention window |
| EventsView.NumericTextStamp | backend/utils/db_utils.js:262-279 | a `last_update` holding the decimal text of a number of seconds is coerced to that number: the event is kept exactly when it would be with the number itself, i.e. when it is within the retention window |
| EventsView.MergeAgentsIdsEvents | backend/utils/db_utils.js:282-294 | exactly the recent events of all bundles; none for no bundles |
| EventsView.RemoveOldDataAppend | backend/utils/db_utils.js:262-279 | filtering a concatenation filters each part, in order |
| EventsView.MergeIsRecentOfAll | backend/utils/db_utils.js:282-294 | the merged feed is the recent part of all agents' events concatenated in store order |
| Verify.RequestedData | backend/utils/verify.js:20-30 | body, else query, else params, else null, each only when truthy |
| Verify.KeyCount | backend/utils/verify.js:74-101 | the key count of an object, array or string, 0 for other values |
| Verify.BasicVerificationOfRequest | backend/utils/verify.js:74-101 | an error when there is no data or the key count differs from the expected keys; otherwise the data |
| Verify.BodyWins | backend/utils/verify.js:20-30 | a body with the right key count is accepted as is |
| Verify.IsEmptyObjOfObject | backend/utils/verify.js:106-108 | an object is empty exactly when it has no keys |
| Verify.ResponseObj | backend/utils/messages.js:11-19 | status and message as given, data as given or null |
| AgentClient.FilterChanged | agent/socket_client.py:194-219 | the loop over the query's keys collects into a well-formed ordered dictionary: distinct keys, each with an entry |
| AgentClient.FilterChangedRows | agent/socket_client.py:194-219 | a row is collected exactly when it is unseen or its stamp changed, and it is collected unmodified |
| AgentClient.FilterChangedTracker | agent/socket_client.py:194-219 | afterwards the tracker holds every visited row's current stamp and its other entries unchanged |
| AgentClient.Sift | agent/socket_client.py:194-245 | the kept rows are exactly the changed ones, the tracker records every row's stamp, and nothing is kept exactly when nothing changed |
| AgentClient.FilterUnchanged | agent/socket_client.py:194-219 | rows whose stamps are already tracked are dropped and the tracker is unchanged |
| AgentClient.SiftSettles | agent/socket_client.py:221-225 | sifting the same rows again keeps nothing |
| AgentClient.FilterQueryData | agent/socket_client.py:150-251 | an empty query gives nothing; link and IDS data are wrapped unchanged; devices and interfaces are filtered; an unknown type fails |
| AgentClient.DevicesSecondCallQuiet | agent/socket_client.py:221-225 | an identical second devices call sends nothing |
| AgentClient.IfacesSecondCallQuiet | agent/socket_client.py:244-245 | an identical second interfaces call sends nothing |
| AgentExternal.Columns | agent/external.py:91-109 | the schema's column names, in order |
| AgentExternal.WithDefaults | agent/external.py:91-109 | the record has exactly the schema's keys, in schema order |
| AgentExternal.WithDefaultsValue | agent/external.py:106 | each key takes the record's value when present, and the schema default otherwise |
| AgentExternal.LinkRecordDefaults | agent/external.py:91-109 | a link row without timestamp or attributes gets '' and {} |
| AgentExternal.IdsRecordDefaults | agent/external.py:139-156 | an IDS row without blocked or last_update gets '' and 0 |
| AgentExternal.ParseRecords | agent/external.py:91-109 | same length and order as the input, each record default-filled; fails unless every item is an object |
| AgentExternal.TableOf | agent/external.py:45-49 | `link` goes to the link table, `device` to the IDS table |
| AgentExternal.Route | agent/external.py:37-49 | malformed JSON and unknown types are not stored; known types are stored in their table |
| AgentExternal.CheckTimings | agent/external.py:63-64 | a timeout larger than the interval is the "Timeout longer than interval" error |
| AgentExternal.SleepDuration | agent/external.py:85 | the sleep is within [0, interval] and is the remaining time when some remains |
| AgentIds.PyInts | agent/external/ids.py:30-34 | `int()` of each field: succeeds exactly when every field is accepted, with one number per field, each the field's value |
| Decimal.JsIntText | backend/utils/db_utils.js:266 | `Number` of a string that is empty or all white space is 0 |
| Decimal.JsIntTextOfNatToString | backend/utils/db_utils.js:266 | `Number` reads the decimal text of a non-negative integer back as that integer, whatever white space surrounds it |
| Decimal.JsIntTextOfNegated | backend/utils/db_utils.js:266 | `Number` reads a minus sign followed by the decimal text of n back as -n, whatever white space surrounds it |
| Json.JsNumber | frontend/src/utils.js:133 | `Number` of a number is itself and of an object is NaN |
| Json.JsNumberOfText | frontend/src/utils.js:133 | `Number(String(n))` is n |
| AgentIds.TopAttackerLine | agent/external/ids.py:21-37 | only six-field lines yield an event; a non-integer numeric field is an error |
| AgentIds.ReadTopAttacker | agent/external/ids.py:18-39 | fails exactly when some six-field line is rejected by `int()`; otherwise the existing events followed by the events of the six-field lines in file order, all unblocked IDS events |
| AgentIds.FirstFor | agent/external/ids.py:45-50 | the first event with the IP, or none |
| AgentIds.FirstForIs | agent/external/ids.py:45-50 | the first index with the IP is what `FirstFor` finds |
| AgentIds.UpdateAutoBlocked | agent/external/ids.py:43-68 | a known IP's first event is blocked with the given time and the length is unchanged; an unknown IP appends one blocked event with zeroed fields |
| AgentIds.UpdateAutoBlockedIdempotent | agent/external/ids.py:43-68 | blocking the same IP twice equals blocking it once |
| AgentIds.ReadAutoBlocked | agent/external/ids.py:71-81 | the `ip,blocked_on` pairs of the two-field lines are applied in file order by `update_auto_blocked` and other lines change nothing; fails exactly when reading the pairs fails; the list never shrinks and stays made of IDS events |
| AgentIds.Blocks | agent/external/ids.py:72-80 | the pairs are at most as many as the lines |
| AgentIds.BlocksFromLines | agent/external/ids.py:72-80 | every pair read comes from a two-field line of the file: its IP field and the time `int()` reads from its second field |
| AgentIds.BlocksRejects | agent/external/ids.py:71-81 | reading the `ip,blocked_on` pairs fails exactly when a two-field line's time is rejected by `int()` |
| AgentIds.UpdateAutoBlockedMarks | agent/external/ids.py:43-68 | after blocking an IP, its first event is blocked with the given time |
| AgentIds.ApplyBlocksKeeps | agent/external/ids.py:43-81 | blocking keeps every event's place, IP and counters, never unblocks, and appends only blocked events with zero counters |
| AgentIds.ApplyBlocksUntouched | agent/external/ids.py:43-81 | an event whose IP is never blocked is unchanged |
| AgentIds.ApplyBlocksBlocks | agent/external/ids.py:43-81 | every blocked IP ends up with a blocked first event |
| AgentIds.CollectEvents | agent/external/ids.py:97-138 | no top-attacker file or an unchanged one gives no events; events are all IDS events |
| AgentIds.CollectEventsFromFiles | agent/external/ids.py:130-138 | for a new top-attackers file the run fails exactly when a line of either file is rejected, and otherwise yields the parsed events with the auto-blocked pairs applied |
| AgentIds.EventJson | agent/external/ids.py:24-37 | the printed object has the keys ip, type, blocked, blocked_on, danger_level, attributes, last_update in that order, and the attributes total_packets, uniq_sigs, sig_matches, is_local |
| AgentIds.EventJsonRoundTrip | agent/external/ids.py:24-37 | reading the printed object back gives the event: every field is written |
| AgentIds.EventsJson | agent/external/ids.py:145 | one object per event, in order |
| AgentIds.ReportGoesToIdsTable | agent/external.py:48-49 | a printed non-empty batch of IDS events is routed to the IDS table |
| FrontGraph.ProcessNode | frontend/src/utils/ProcessNodeAndEdgeData.js:34-66 | a stale node is `down`; a box's group is `node_up`/`node_down` and a device's `device_up`/`device_down` |
| FrontGraph.ProcessEdge | frontend/src/utils/ProcessNodeAndEdgeData.js:70-119 | no group when an endpoint is missing; `visible_devs` without a link; otherwise prefix plus status suffix |
| FrontGraph.EdgePrefix | frontend/src/utils/ProcessNodeAndEdgeData.js:77-84 | from a box, the prefix is `link` exactly when the other end is a box too |
| FrontGraph.EdgeStatus | frontend/src/utils/ProcessNodeAndEdgeData.js:86-103 | a link older than a minute is `down`; otherwise the quality-derived status |
| FrontGraph.BoxLinkGroups | frontend/src/utils/ProcessNodeAndEdgeData.js:86-92 | between two boxes a fresh link's group is `link_low`, `link_down` or `link_up` by the 0.5/0.75 thresholds |
| FrontGraph.UniqueIdSymmetric | frontend/src/utils/ProcessNodeAndEdgeData.js:177-183 | the edge key of (a, b) equals that of (b, a) |
| Text.LessAsymmetric | frontend/src/utils/ProcessNodeAndEdgeData.js:177-183 | string order is asymmetric |
| Text.LessTotal | frontend/src/utils/ProcessNodeAndEdgeData.js:177-183 | two different strings are ordered one way or the other |
| FrontGraph.MinQuality | frontend/src/utils/ProcessNodeAndEdgeData.js:188-197 | the recorded quality becomes the smaller of old and new; other ids are unchanged |
| FrontGraph.FirstStep | frontend/src/utils/ProcessNodeAndEdgeData.js:245-263 | a `lan` edge is set aside; any other edge is filed under its key |
| FrontGraph.FirstPass | frontend/src/utils/ProcessNodeAndEdgeData.js:245-263 | the first pass files edges without merging any |
| FrontGraph.FirstPassLans | frontend/src/utils/ProcessNodeAndEdgeData.js:245-263 | the `lan` edges pass through, in order, after those already collected |
| FrontGraph.FirstPassKeys | frontend/src/utils/ProcessNodeAndEdgeData.js:245-263 | every non-`lan` edge's key is filed and no key is lost |
| FrontGraph.SecondStep | frontend/src/utils/ProcessNodeAndEdgeData.js:265-282 | keys are kept and no entry is revived; a link whose two directions are both present takes the reverse entry's titles, the reverse entry is emptied and the pair's id is marked `both`; otherwise entries and marks are unchanged |
| FrontGraph.SecondPass | frontend/src/utils/ProcessNodeAndEdgeData.js:265-282 | keys and `lan` edges are kept and no entry is revived |
| FrontGraph.SecondPassSeparates | frontend/src/utils/ProcessNodeAndEdgeData.js:265-282 | for every link, its key and its reverse key are not both kept afterwards |
| FrontGraph.ModifyEdge | frontend/src/utils/ProcessNodeAndEdgeData.js:201-237 | only colour and arrow change; a stale edge is red; a merged edge loses its arrow |
| FrontGraph.Emit | frontend/src/utils/ProcessNodeAndEdgeData.js:285-290 | nulled entries are skipped |
| FrontGraph.CombinedLinks | frontend/src/utils/ProcessNodeAndEdgeData.js:170-293 | empty input gives []; the `lan` edges come first, unchanged |
| FrontGraph.OppositeDirectionsMerged | frontend/src/utils/ProcessNodeAndEdgeData.js:228-234 | a link's key is filed, and it and its reverse are never both kept, so one edge is emitted for both directions |
| FrontGraph.SelfLinkDropped | frontend/src/utils/ProcessNodeAndEdgeData.js:265-282 | a link from a node to itself is its own reverse, so its entry is emptied and it is not drawn |
| FrontGraph.SecondStepKeepsPair | frontend/src/utils/ProcessNodeAndEdgeData.js:265-282 | with equal-length ids, a step empties an entry of a pair only by merging that pair, which keeps the other entry and marks the pair |
| FrontGraph.OppositeDirectionsCombined | frontend/src/utils/ProcessNodeAndEdgeData.js:265-290 | a link reported in both directions between distinct nodes with equal-length ids: exactly one direction survives, it joins the two nodes with their direction-free id, the id is marked `both`, and it is drawn without a middle arrow |
| FrontGraph.CombinedLinksDrawsPair | frontend/src/utils/ProcessNodeAndEdgeData.js:170-293 | the output of `getCombinedLinks` holds an edge between the two nodes of such a link, with their id and no middle arrow |
| FrontGraph.MinimumQualityBound | frontend/src/utils/ProcessNodeAndEdgeData.js:188-197 | the quality recorded per edge key is at most that of every edge with that key |
| FrontGraph.MinimumQualityAttained | frontend/src/utils/ProcessNodeAndEdgeData.js:188-197 | every recorded quality is that of some edge with that key |
| FrontGraph.DeviceIndex | frontend/src/utils/ProcessNodeAndEdgeData.js:304-310 | exactly the device nodes, by id |
| FrontGraph.Gather | frontend/src/utils/ProcessNodeAndEdgeData.js:318-349 | fails exactly when a listed device is unknown; collects their titles and is `down` exactly when one of them is |
| FrontGraph.DevicesNode | frontend/src/utils/ProcessNodeAndEdgeData.js:318-349 | the node `id_dev` is `down` exactly when some listed device is down, with their titles and saved coordinates |
| FrontGraph.CombineStep | frontend/src/utils/ProcessNodeAndEdgeData.js:312-356 | one node's contribution is appended and its devices are regrouped |
| FrontGraph.CombineFold | frontend/src/utils/ProcessNodeAndEdgeData.js:312-356 | succeeds exactly when every node is groupable |
| FrontGraph.CombinedVisibleDevs | frontend/src/utils/ProcessNodeAndEdgeData.js:358-360 | the regrouped device lists are keyed by exactly the boxes' ids |
| FrontGraph.CombinedVisMembers | frontend/src/utils/ProcessNodeAndEdgeData.js:312-356 | every drawn node is a box or a device-group node, and every box is drawn |
| FrontGraph.CombinedVisFollows | frontend/src/utils/ProcessNodeAndEdgeData.js:312-356 | every box with devices is directly followed by its `_dev` node |
| FrontGraph.IndexOfKeys | frontend/src/utils/ProcessNodeAndEdgeData.js:363-368 | nodes_idx has exactly the drawn nodes' ids |
| FrontGraph.IndexOfAt | frontend/src/utils/ProcessNodeAndEdgeData.js:363-368 | each id is filed with a position holding a node with that id |
| FrontGraph.IndexOfLatest | frontend/src/utils/ProcessNodeAndEdgeData.js:363-368 | each id is filed with the last position holding it |
| FrontGraph.IndexExact | frontend/src/utils/ProcessNodeAndEdgeData.js:363-369 | with distinct ids, each node's index is its position |
| FrontGraph.CombinedDevices | frontend/src/utils/ProcessNodeAndEdgeData.js:297-377 | succeeds exactly when every node is groupable; the index maps ids to positions in the drawn nodes |
| FrontTopology.StyleOf | frontend/src/components/style.js:14-78 | exactly the four drawn groups have a style, all but `visible_devs` with a middle arrow |
| FrontTopology.ParseHostname | frontend/src/components/NetworkTopology.js:172-177 | the prefix before the first '.', the whole name without one |
| FrontTopology.NodeLabel | frontend/src/components/NetworkTopology.js:151-156 | a box's non-empty substation name, otherwise the parsed hostname |
| FrontTopology.NodeTitleEntries | frontend/src/utils/ProcessNodeAndEdgeData.js:123-153 | a Phoenix Box's title always has a substation entry, its name or null when it has none, and no other node's title has one |
| FrontTopology.MakeNode | frontend/src/components/NetworkTopology.js:151-169 | id, type, label, status and group of the node, and its saved coordinates when there are any |
| FrontTopology.MakeNodes | frontend/src/components/NetworkTopology.js:47-61 | one drawn node per topology node, in order |
| FrontTopology.Endpoint | frontend/src/components/NetworkTopology.js:77-110 | a drawn node with the given non-empty id exactly when one exists |
| FrontTopology.LinkEdge | frontend/src/components/NetworkTopology.js:77-110 | an edge exactly when both ends are drawn and distinct and its group is styled, running from src_id to dst_id with the link's id and colour; the empty group is skipped with no edge, and any other unstyled group fails |
| FrontTopology.LinkEdges | frontend/src/components/NetworkTopology.js:77-110 | succeeds exactly when every link does, so a skipped empty-group link does not stop the loop |
| FrontTopology.CollectMembers | frontend/src/components/NetworkTopology.js:77-110 | the edges collected are exactly the ones some link produced |
| FrontTopology.LinkEdgesMembers | frontend/src/components/NetworkTopology.js:77-110 | each edge drawn is the edge of some link whose ends are both drawn |
| FrontTopology.BoxLinkColour | frontend/src/components/style.js:14-78 | a fresh `up` link between boxes is yellow for quality in [0.5, 0.75], red below and green above |
| FrontTopology.NonBoxDestinationFails | frontend/src/components/NetworkTopology.js:77-110 | a link whose destination is not a box is never drawn: it fails exactly when the destination is a device or the status suffix is non-empty, and is skipped otherwise (empty group) |
| FrontTopology.BoxAttachments | frontend/src/components/NetworkTopology.js:112-131 | one `lan` edge per listed device, when both are indexed |
| FrontTopology.Attachments | frontend/src/components/NetworkTopology.js:112-131 | exactly the `lan` edges of every box's indexed devices |
| FrontTopology.AttachmentsJoinIndexed | frontend/src/components/NetworkTopology.js:112-131 | each `lan` edge runs from an indexed device to an indexed box |
| FrontTopology.Grouped | frontend/src/components/NetworkTopology.js:40-72 | without grouping, the nodes and lists as drawn; with it, the combined devices; the index maps ids to positions |
| FrontTopology.GenerateData | frontend/src/components/NetworkTopology.js:40-149 | succeeds exactly when grouping and every link edge succeed (an empty-group link is skipped, not failed), with the grouped nodes; the edges are the link edges followed by the attachments (none with `onlyLinks`), merged by `getCombinedLinks` when `nestEdges` is set |
| FrontTopology.GeneratedEdgesExact | frontend/src/components/NetworkTopology.js:76-131 | without merging, an edge is drawn exactly when some link draws it or, without `onlyLinks`, it attaches an indexed visible device to its indexed box; the link edges come first |
| FrontTopology.LinkEdgesJoinDrawnNodes | frontend/src/components/NetworkTopology.js:77-110 | each link edge joins drawn nodes, from a link's source to its destination |
| FrontTopology.EdgesJoinDrawnNodes | frontend/src/components/NetworkTopology.js:40-149 | each edge of the dataset joins two drawn nodes |
| FrontTopology.OnlyLinksDrawsLinks | frontend/src/components/NetworkTopology.js:112-131 | with only_links set, every edge is a link edge |
| FrontDiff.CurrentColors | frontend/src/utils/utils.js:8-13 | keys are exactly the link edges' keys |
| FrontDiff.CurrentColorsLast | frontend/src/utils/utils.js:8-13 | the colour filed under a key is that of the last link edge with it |
| FrontDiff.FilterEdges | frontend/src/utils/utils.js:14-34 | a subsequence holding exactly the changed edges |
| FrontDiff.EdgesToBeUpdated | frontend/src/utils/utils.js:7-35 | a subsequence of the fresh edges holding exactly those that changed |
| FrontDiff.LinkEdgePushed | frontend/src/utils/utils.js:17-26 | a link edge is pushed exactly when its key is new or the last drawn edge with it has another colour |
| FrontDiff.CurrentColorOfLink | frontend/src/utils/utils.js:8-13 | with distinct keys each link edge's own colour is filed |
| FrontDiff.RedrawPushesNoLinks | frontend/src/utils/utils.js:17-31 | redrawing the drawn edges pushes no link edge |
| FrontDiff.CurrentStatuses | frontend/src/utils/utils.js:39-44 | keys are exactly the drawn ids |
| FrontDiff.CurrentStatusesLast | frontend/src/utils/utils.js:39-44 | the status filed under an id is that of the last node with it |
| FrontDiff.FilterNodes | frontend/src/utils/utils.js:45-58 | a subsequence holding exactly the changed nodes |
| FrontDiff.NodesToBeUpdated | frontend/src/utils/utils.js:39-59 | a subsequence of the fresh nodes holding exactly the new or changed ones |
| FrontDiff.NodePushed | frontend/src/utils/utils.js:45-58 | with distinct ids, a node is pushed exactly when no drawn node has its id and status |
| FrontDiff.RedrawPushesNoNodes | frontend/src/utils/utils.js:39-59 | redrawing the drawn nodes pushes nothing |
| FrontStore.Initial | frontend/src/store/index.js:11-23 | the initial state holds no notifications or traffic, no active tab and the limit |
| FrontStore.AddNotifications | frontend/src/store/mutations.js:18-26 | old plus new when they fit; the oldest dropped to keep the length on overflow with old longer; nothing otherwise |
| FrontStore.NotificationsBounded | frontend/src/store/mutations.js:18-26 | the buffer never exceeds the limit and holds only old or new notifications |
| FrontStore.SpliceStart | frontend/src/store/mutations.js:40-46 | `splice`'s start index for a possibly negative index |
| FrontStore.RemoveAt | frontend/src/store/mutations.js:40-46 | removes exactly one element when the index is in range, nothing otherwise |
| FrontStore.RemoveAtRemovesOne | frontend/src/store/mutations.js:40-46 | the element at the index is removed and the others are kept in order |
| FrontStore.RemoveAtPositions | frontend/src/store/mutations.js:40-46 | the removed element for non-negative, negative and out-of-range indexes |
| FrontStore.Commit | frontend/src/store/mutations.js:1-59 | every field other than the one the mutation writes is unchanged; plain setters store their payload, `setNotifications` replaces the list, `setNotification` buffers within the limit, and the two removals splice one entry out |
| FrontStore.CommitsCommute | frontend/src/store/mutations.js:1-59 | two mutations that write different fields give the same state in either order |
| FrontStore.NotificationsStayBounded | frontend/src/store/mutations.js:18-26 | any sequence of mutations keeps the buffer within the limit |
| FrontStore.Reverse | frontend/src/store/getters.js:33-35 | the reversed copy |
| FrontStore.ReverseReverse | frontend/src/store/getters.js:33-35 | reversing twice gives the original back |
| FrontStore.ActiveTabOf | frontend/src/store/getters.js:14-19 | false for a falsy or `'null'` tab, the tab otherwise |
| FrontStore.Read | frontend/src/store/getters.js:1-40 | notifications read newest first; the active tab as `getActiveTab` |
| FrontStore.SetThenGet | frontend/src/store/getters.js:1-40 | a setter's value is read back by its getter and other getters are unaffected |
| FrontStore.NotificationsReadBack | frontend/src/store/getters.js:33-35 | the getter reverses a copy, so reversing it gives the stored list |
| FrontStore.ActiveTabReadBack | frontend/src/store/getters.js:14-19 | setting a tab reads back as the tab, or false when falsy or `'null'` |
| FrontCharts.ChartName | frontend/src/components/ChartsWorker.js:54-59 | "hostname (vlan)" with a hostname, the id otherwise |
| FrontCharts.FilterKey | frontend/src/components/ChartsWorker.js:70-75 | the display name for ids over 20 characters, the id otherwise |
| FrontCharts.Points | frontend/src/components/ChartsWorker.js:76-86 | one entry per value; entry i is null exactly when label i is excluded, and the value otherwise |
| FrontCharts.LastDay | frontend/src/components/ChartsWorker.js:63-65 | the last value's rx/tx, or 1 and 1 when there is none |
| FrontCharts.EntryCharts | frontend/src/components/ChartsWorker.js:43-113 | the line chart's id, name, labels and points and the pie chart of the last day |
| FrontCharts.ChartsOf | frontend/src/components/ChartsWorker.js:43-113 | one line and one pie chart per entry, in order |
| FrontCharts.GenerateDataSets | frontend/src/components/ChartsWorker.js:37-122 | false for empty traffic; otherwise one line chart per entry in key order |
| ChartDate.ParseMoment | frontend/src/components/ChartsWorker.js:145-146 | only valid calendar dates parse |
| FrontCharts.OutsideRange | frontend/src/components/ChartsWorker.js:153-156 | a date is filtered exactly when it is before start or after end |
| FrontCharts.FilterLabels | frontend/src/components/ChartsWorker.js:148-160 | a subsequence of exactly the labels outside the range |
| FrontCharts.FilterFold | frontend/src/components/ChartsWorker.js:148-160 | one entry per chart name |
| FrontCharts.FilterFoldEntry | frontend/src/components/ChartsWorker.js:148-160 | a chart's entry holds its labels outside the range |
| FrontCharts.FilteredDays | frontend/src/components/ChartsWorker.js:140-162 | false without both a start and an end, otherwise one entry per chart name |
| FrontCharts.FilterRoundTrip | frontend/src/components/ChartsWorker.js:70-86 | feeding the filter back blanks exactly the points outside the range |
| FrontUtils.FindIndex | frontend/src/utils.js:4-10 | the first index with the id, -1 exactly when absent |
| FrontUtils.UrlParamChanged | frontend/src/utils.js:4-10 | the index of the portfolio with a non-empty id that is not selected, -1 otherwise |
| FrontUtils.SelectedIsUnchanged | frontend/src/utils.js:4-10 | an already selected id gives -1 |
| FrontUtils.MatchesRule | frontend/src/utils.js:23 | the pattern matches exactly the passwords of 6–20 non-space characters with a digit, a lower-case, an upper-case and a special character |
| FrontUtils.VerifyPlainPassword | frontend/src/utils.js:13-25 | a match exactly for a string meeting the rule; null for anything else |
| FrontUtils.UpperChar | frontend/src/utils.js:78-80 | lower-case letters become upper-case, others are kept |
| FrontUtils.Capitalize | frontend/src/utils.js:78-80 | the first character upper-cased and the rest unchanged |
| FrontUtils.CapitalizeIdempotent | frontend/src/utils.js:78-80 | capitalizing twice equals once |
| FrontUtils.ListTabText | frontend/src/utils.js:83-105 | a non-empty text exactly for the five tab keys |
| FrontUtils.ListTabTextInjective | frontend/src/utils.js:83-105 | different tabs have different texts |
| FrontUtils.ExchangeDataFirst | frontend/src/utils.js:108-114 | the first exchange with the name, an empty object when none |
| FrontUtils.ExchangeData | frontend/src/utils.js:108-114 | the coins returned form a proper object whenever every exchange's coins do |
| FrontUtils.TickerRowsSound | frontend/src/utils.js:126-139 | one exchange's rows are built from unseen, priced tickers, each at most once |
| FrontUtils.TickerRowsComplete | frontend/src/utils.js:126-139 | every unseen priced ticker gets a row |
| FrontUtils.FirstOffer | frontend/src/utils.js:123-128 | the first exchange in priority order that prices the ticker, none exactly when no exchange does |
| FrontUtils.ExchangeRowsSound | frontend/src/utils.js:117-144 | every row comes from the first exchange in priority order that prices its ticker |
| FrontUtils.ExchangeRowsDistinct | frontend/src/utils.js:117-144 | no ticker appears twice |
| FrontUtils.ExchangeRowsComplete | frontend/src/utils.js:117-144 | every ticker some exchange prices gets a row |
| FrontUtils.ExchangesCoins | frontend/src/utils.js:117-144 | each ticker at most once, taken from the first of coinbase, kraken, bitstamp, bittrex that prices it, and exactly the priced tickers appear |
| FrontUtils.MarketCapOfTextPrice | frontend/src/utils.js:133 | a price given as an integer text yields a market cap, the same one the number itself yields |

## Left out

- Store I/O, sockets, timers and concurrency. MongoDB calls are values of `Schemas.Db` passed in and out. The websocket servers, the broadcast loop and the agent run loop are not part of this model.
- Agent probes, CLI parsing, startup code, Express routes and the SQLite wrapper. These are host and library plumbing.
- UI rendering and styling:
  - React and Vue components;
  - the chart and topology style tables beyond colour and arrow;
  - background colours.
- Formatted text:
  - moment's `humanize` and formatting;
  - `filesize`;
  - `getBandwidthValue` (logarithms);
  - `isNumber` (NaN and Infinity semantics);
  - the bandwidth and age lines of node and link titles.

  These need floating point or locale formatting.
- JavaScript orders integer-like object keys numerically. `Dict` keeps plain insertion order.
- Ties in MongoDB sorts are not modelled: `EventsView.SortByTs` orders by ts only.
- `ifaces_data` shape:
  - the insert path stores it as a JSON string (backend/utils/schemas.js:115);
  - the update path stores an object (backend/websocket_servers/agent_socket/process_data.js:176);
  - both are modelled as the decoded interface list.
- A non-string `agent_id` is dropped before dispatch, because store keys are strings. The source still upserts the interface document and the VLAN rollup for an `iface_data` message with such an id (backend/websocket_servers/agent_socket/process_data.js:168-213), and its other handlers find no agent.
- A bandwidth's `Number` coercion is a decoder parameter: a report carries `Number(bandwidth)` (None for NaN) and whether the field was truthy.
- Merge.UpdateDevicesDataIdempotent: holds only when every reported bandwidth is falsy or numeric. A truthy non-numeric bandwidth is stored as NaN on first sight and as 0 on the next identical report, which `Merge.NaNBandwidthZeroedOnRefresh` states.
- AgentIds.EventJson: a blocked event that `update_auto_blocked` creates is printed with `type` before `ip` in the source; the model prints every event in the top-attacker key order.
- FrontGraph.OppositeDirectionsCombined: "exactly one direction survives" is proved for ids of equal length (store object ids are). With ids of varying length, `from + to` keys of different pairs can coincide; at most one direction survives in every case, as `FrontGraph.OppositeDirectionsMerged` states.
- FrontGraph.CombinedLinks: its own contract states only the `lan` prefix. The drawn edge of a link reported in both directions is stated by `FrontGraph.CombinedLinksDrawsPair`. "At most one edge per pair" is stated on the merge entries by `FrontGraph.OppositeDirectionsMerged`, not counted in the output list.
- FrontGraph.OppositeDirectionsCombined: the titles of the drawn edge are not stated. `FrontGraph.SecondStep` states how one merge joins them.
- IDS payloads are kept as JSON objects without further shape checks.
- Ingest.ProcessWebsocketData: an `ids_data` payload that is not a list of objects leaves the store unchanged. The source stores it anyway: an existing IDS document gets the value appended as one element by `concat`, and a new one stores the value itself as `ids_events` (backend/websocket_servers/agent_socket/process_data.js:352-409). IDS events are a list of objects in the model, so neither shape is representable.
- JavaScript `Number` of a string is modelled for integer texts only: surrounding white space, an optional sign and ASCII digits, with white space alone giving 0. Fractions, exponents, hexadecimal, `Infinity` and arrays count as NaN.
- EventsView.RemoveOldData: a `last_update` string such as `"1.7e9"` or an array is treated as NaN, so the model drops that event where the source coerces it and may keep it.
- FrontUtils.ExchangesCoins: a price string that is not an integer text, such as `"2.5"`, or an array gives no market cap where the source computes one.
- Times are compared as true UTC differences. The source formats UTC wall-clock times and parses them back as local time (backend/utils/db_utils.js:57-60, 266-269; frontend/src/utils/ProcessNodeAndEdgeData.js:44-47). On a host whose zone observes daylight saving, a difference that spans a change is off by an hour there. The model assumes a host with a fixed UTC offset, UTC in the usual deployment; this concerns Topology.TopologyNode, EventsView.RemoveOldData and FrontGraph.EdgeStatus.
- Python `int()` is modelled for decimal digits with an optional sign and surrounding white space, without `_` separators.
- `filecmp` and `os.rename` in the IDS script are modelled as comparing and replacing the saved line list.
- `processEdge` overwrites `link.status` in place. The model returns the derived status instead of mutating the link.
- Floating-point rounding of the market cap is modelled as `floor(x + 0.5)` on reals.
- The thrown `TypeError`s in `getTrafficData`, `UpdateVlanChart` and `generateData`'s style lookup are modelled as `Err` or `None` results.
- Rollup.ProcessInterfaceData: for an agent id with no agent document, the source throws a `TypeError` reading `hostname` from the null lookup result inside a store callback, after the interfaces are stored and the VLAN rollup is issued. The model does not signal that throw. It returns the store state reached, in which the node rollup never ran.
- MD5, ObjectID, `JSON.parse` and `JSON.stringify` are uninterpreted function parameters.
- FrontUtils.MatchesRule: lengths are counted in code points, not UTF-16 code units.
- FrontUtils.Capitalize: only ASCII letters are upper-cased, because Unicode case mapping is not modelled.
- FrontUtils.ExchangesCoins: requires the exchange objects to be well-formed key/value maps. This is a representation invariant of `Dict`, not a demand of the source.
- FrontDiff.RedrawPushesNoLinks: assumes the drawn link edges have distinct keys. With repeated keys only the last colour per key counts, which `FrontDiff.LinkEdgePushed` states in general.
- FrontCharts.FilterRoundTrip: covers charts whose filter key is their name, i.e. long ids or entries without a hostname.
