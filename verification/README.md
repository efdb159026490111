# Agent-Based-Simulation core in Dafny

This project models the deterministic core of kmirinski/Agent-Based-Simulation, a freight transport simulator. It has a Python server and a JavaScript map frontend. Each part is a pure function over immutable datatypes, and the lemmas prove what the code promises.

- **Simulation environment** (`Environment`, `Matrix`). A clock, a queue of SPAWN, DISPATCH and DELIVER events, and an n x n truck location matrix. Each request row becomes a SPAWN event one unit before its window opens and a DISPATCH event when it opens. SPAWN stands a truck at the origin. DISPATCH moves it onto the origin-to-destination cell. DELIVER moves it to the destination. A conservation law ties it together: trucks on the matrix plus SPAWN events still queued stay constant.
- **Agents** (`Agents`). Carriers quote `distance / 50 * 100`. An LSP (logistics service provider) and a shipper each keep the first cheapest quote, as Python's `min` does. Carriers accumulate container and distance totals. `generate_and_assign_agents` wires the agents in a fixed way.
- **Events and the global queue** (`MiscEvents`, `GlobalQueue`, `Trucks`). The agent-side event order, the `(priority, event)` priority queue with its request dictionary, and a truck's ceiling travel time with the DELIVERED event it schedules.
- **Vehicles** (`Vehicles`). Container loading bounded by capacity, and services ordered by departure time.
- **Network** (`Network`). Routes are cut into segments, and the segments are deduplicated into links. Each origin-destination pair gets its path of link ids. The `__post_init__` defaults are modelled too.
- **Instance generation** (`Instances`). The connectivity table of all ordered node pairs, request rows built from the drawn values, and the distance matrix.
- **Frontend helpers** (`Colors`, `CssColor`, `Decimal`, `EdgeIndex`, `HtmlTable`, `JsMap`, `Query`, `Route`). Colour interpolation, the edge-to-paths index, the HTML table builder, URL parameters, the visible-layer filter, `Node` and `Link` validation, and `combinePaths`.

Python and JavaScript exceptions become `Err` values of `Base.Result`: IndexError, KeyError, `min` of an empty sequence, and JavaScript `throw`. The inputs the code gets from outside are parameters:

- the routing service (`getRoute`);
- the random draws;
- the shipper's delivery-time answer (`contact`);
- the URL serializer of section 5.2 of the WHATWG URL Standard (`encode`), applied to the JSON text of each value.

## Model

| member | source | states |
|---|---|---|
| Base.PyIndex | Server/environment.py:87 | a Python subscript succeeds exactly for `-n <= i < n`, lands inside the list, and is the index itself when non-negative |
| Base.FirstMin | Server/agents.py:61 | `min` by key fails exactly on an empty list; otherwise it picks a least key, and the earliest of equal least keys |
| Matrix.Zeros | Server/environment.py:192-194 | the fresh matrix is n x n with every cell 0 |
| Matrix.SumZeros | Server/environment.py:193 | a fresh matrix accounts for no truck |
| Matrix.Add | Server/environment.py:97 | `m[i][j] += delta` changes only cell (i, j), by delta, and changes the total by delta |
| Environment.Peek | Server/environment.py:17-21 | None exactly on an empty queue; otherwise an event of the queue that no queued event precedes |
| Environment.Pop | Server/environment.py:55 | `get` returns the event `peek` shows and removes exactly one copy of it |
| Environment.Put | Server/environment.py:95 | `put` adds exactly the one event, after all others |
| Environment.SpawnVehicle | Server/environment.py:85-98 | succeeds exactly when the request, its shipper and its origin can be subscripted; then cell (o, o) gains one truck and every other cell is unchanged, and exactly one DELIVER for the request is queued at `time + delivery + 1` |
| Environment.DispatchVehicle | Server/environment.py:100-108 | moves one truck from (o, o) to (o, d); every other cell and the total are unchanged; an unknown request or node id raises |
| Environment.Deliver | Server/environment.py:110-118 | moves one truck from (o, d) to (d, d); every other cell and the total are unchanged; an unknown request or node id raises |
| Environment.ProcessEvent | Server/environment.py:72-83 | SPAWN puts a truck on (o, o), DISPATCH moves one from (o, o) to (o, d), DELIVER moves one from (o, d) to (d, d), and every other cell is unchanged; each kind fails exactly when its handler's subscripts fail; an unknown kind changes nothing; only SPAWN raises the total (by 1) and only SPAWN adds an event, a DELIVER later than now |
| Environment.HandleTop | Server/environment.py:55-56 | handling the least event removes one copy of it, moves the trucks as that event's handler does, keeps every other event, adds at most a DELIVER, and keeps trucks-plus-pending-spawns |
| Environment.Step | Server/environment.py:48-61 | on an empty queue nothing changes; otherwise the clock rises by 1, the queue is untouched unless its least event is stamped with the new time, in which case the trucks move as that event's handler moves them; at most one event leaves, and trucks-plus-pending-spawns is kept |
| Environment.StepKeepsOthers | Server/environment.py:53-56 | a step keeps every event not stamped with the new time, and removes exactly one copy of the least event when it is due |
| Environment.StaleEventBlocksForever | Server/environment.py:50-56 | once the least event is stamped at or before the clock, every later step only advances the clock |
| Environment.SharedWindowStart | Server/environment.py:178-199 | two requests opening at time 2 build a clock at 0, an empty 2 x 2 matrix and two SPAWN events at time 1 |
| Environment.SharedWindowFirstStep | Server/environment.py:48-56 | the first step on those requests handles the SPAWN of request 0 only |
| Environment.SharedWindowStrandsEvents | Server/environment.py:48-61 | from then on the SPAWN of request 1 and the DISPATCH of request 0 stay queued for ever, with one truck on the matrix |
| Environment.Drain | Server/environment.py:48-61 | handling due events until none is due leaves only events later than the clock, and keeps trucks-plus-pending-spawns |
| Environment.DrainKeepsLater | Server/environment.py:48-61 | draining keeps every event not yet due, with its multiplicity |
| Environment.StepDrain | Server/environment.py:48-61 | the corrected step raises the clock by 1 and leaves no event due, keeping trucks-plus-pending-spawns |
| Environment.Run | Server/environment.py:48-61 | any number of corrected steps keeps the matrix square and trucks-plus-pending-spawns |
| Environment.SharedWindowDrained | Server/environment.py:48-61 | on the same two requests the corrected step succeeds and handles both SPAWN events, so two trucks stand on the matrix |
| Environment.DueSpawnsAllHandled | Server/environment.py:48-61 | from clock 0, when the corrected step succeeds, it handles every SPAWN stamped 1 and adds one truck per SPAWN; it fails when a SPAWN's request or node id cannot be subscripted |
| Environment.MakeRequest | Server/environment.py:160-174 | a row reads exactly when `dist[orig][dest]` can be subscripted; the request keeps the row's fields, has window `(lw, uw)`, shipper `selected - 1` and distance `dist[orig][dest]` |
| Environment.MakeRequests | Server/environment.py:158-176 | one request per row, in row order; any unreadable row makes the whole call fail |
| Environment.RowEvents | Server/environment.py:178-181 | two events per row, in row order: SPAWN at `lw - 1`, then DISPATCH at `lw`, one SPAWN per row |
| Environment.CreateRequestsAndEvents | Server/environment.py:153-184 | one request per row and two events per row, SPAWN at `lw - 1` and DISPATCH at `lw` |
| Environment.BuildEnvironment | Server/environment.py:186-199 | clock 0, the fixed agent wiring, an all-zero square matrix, and trucks-plus-pending-spawns equal to the number of rows |
| Environment.TrucksEqualSpawnsHandled | Server/environment.py:85-118 | after any run of corrected steps that succeeds, the trucks on the matrix are exactly the SPAWN events handled so far |
| Agents.Quota | Server/agents.py:83-87 | the quote times the speed is the distance times the hourly price 100, which is twice the distance at speed 50 |
| Agents.QuotaMonotone | Server/agents.py:86-87 | with a positive speed and non-negative distances, a quote is non-negative and grows with the distance |
| Agents.MinQuote | Server/Agents/LSP.py:15 | `min` by price fails on no quotes; otherwise it returns a quote priced at most every other, the earliest of equal prices |
| Agents.CarrierQuotes | Server/Agents/LSP.py:14 | one quote per carrier of the LSP, in list order, each the carrier's id and its own quote |
| Agents.ProcessRequest | Server/agents.py:57-66 | an LSP with carriers answers the first cheapest carrier with its quote; with none it raises |
| Agents.CollectQuotes | Server/Agents/Shipper.py:12-16 | exactly one answer per LSP in list order, each what that LSP answers; it fails exactly when some LSP has no carrier |
| Agents.ProcessDispatchRequest | Server/Agents/Shipper.py:8-25 | it succeeds exactly when there are LSPs, each has carriers and the window has not opened; the selection is the first cheapest answer's carrier, not the LSP's index; the wait is `window start - now` |
| Agents.AssignContainer | Server/Agents/Carrier.py:18-21 | the container is appended, the totals grow by exactly the arguments, and nothing else changes |
| Agents.AssignAllTotals | Server/Agents/Carrier.py:18-21 | after any sequence of assignments, the list is the containers in call order and the totals are the sums of the arguments |
| Agents.NewCarrierAfterAssignments | Server/agents.py:73-79 | a new carrier, after any assignments, holds exactly those containers, one per call, with the summed totals (the carrier of Server/agents.py, given the `assign_container` of Server/Agents/Carrier.py:18-21) |
| Agents.FreshCarriers | Server/agents.py:73-79 | fresh carriers have ids 0..n-1, empty lists, zero totals and speed 50 |
| Agents.WiredLsps | Server/environment.py:144-145 | LSP 0 gets carriers [0, 1], LSP 1 gets [2, 3], and the rest get none |
| Agents.WiredShippers | Server/environment.py:143 | shipper 0 gets LSPs [0, 1] and the others get none |
| Agents.GenerateAndAssignAgents | Server/environment.py:122-150 | with at least 1 shipper, 2 LSPs and 4 carriers, it builds fresh agents with ids 0..n-1 and the fixed wiring; with fewer it raises IndexError |
| Agents.StandardCarriersTie | Server/agents.py:57-66 | when all carriers use speed 50, an LSP picks its first carrier at twice the distance |
| Agents.FixedWiringSelectsCarrierZero | Server/Agents/Shipper.py:14-18 | with the fixed wiring the shipper always selects carrier 0, because LSP 0 wins the tie between LSPs and carrier 0 wins inside it |
| MiscEvents.LessIsLexicographic | Server/Agents/Misc.py:53-56 | `Event.__lt__` is exactly the lexicographic order on (timestamp, type value) |
| MiscEvents.EarlierIsLess | Server/Agents/Misc.py:56 | an earlier timestamp always wins, in one direction only |
| MiscEvents.SameInstantOrder | Server/Agents/Misc.py:32-35 | within one instant, DISPATCHED (1) precedes DELIVERED (3) and nothing else is ordered |
| MiscEvents.LessIsStrictOrder | Server/Agents/Misc.py:53-56 | the order is irreflexive, asymmetric and transitive |
| MiscEvents.IncomparableIffSameKey | Server/Agents/Misc.py:54-55 | two events are incomparable exactly when their timestamp and type agree, and incomparability is transitive |
| GlobalQueue.EntryLessIsStrictOrder | Server/Simulation/Global.py:12-13 | the `(priority, event)` tuple order is a strict order |
| GlobalQueue.Enqueue | Server/Simulation/Global.py:12-13 | the queue gains exactly the tuple `(priority, event)` |
| GlobalQueue.LeastIndex | Server/Simulation/Global.py:22-23 | a non-empty queue has an entry that no entry is strictly below |
| GlobalQueue.GetEvent | Server/Simulation/Global.py:22-23 | `get_event` returns an entry that no queued entry is strictly below, and removes exactly that one entry |
| GlobalQueue.PeekEvent | Server/Simulation/Global.py:25-26 | `peek_event` returns the entry `get_event` would return, and raises IndexError on an empty queue |
| GlobalQueue.DrainAll | Server/Simulation/Global.py:19-23 | repeated `get_event` until `pq_queue_is_empty` returns every entry once, each no later than the rest |
| GlobalQueue.AddRequest | Server/Simulation/Global.py:30-31 | the dictionary's keys gain exactly the key |
| GlobalQueue.GetRequest | Server/Simulation/Global.py:33-34 | a stored key gives its value; a missing key raises KeyError |
| GlobalQueue.GetAfterAdd | Server/Simulation/Global.py:30-34 | after `add_request(k, v)`, `get_request(k)` gives v and every other key answers as before |
| Trucks.Ceil | Server/Agents/Misc.py:24 | `math.ceil` gives the least integer at or above its argument |
| Trucks.NewTruck | Server/Agents/Misc.py:18-24 | the truck keeps its carrier, request id and distance; the speed is the base plus the jitter; with a positive speed, the travel time covers the distance and one unit less does not |
| Trucks.TravelTimeIsLeast | Server/Agents/Misc.py:24 | with a positive speed, the travel time is at most any integer whose product with the speed covers the distance |
| Trucks.EstimateTime | Server/Agents/Misc.py:26-29 | exactly one entry is enqueued, priority `now + travel time + 1`, holding a DELIVERED event for the request at `now + travel time`; the travel time is returned |
| Vehicles.NewService | Server/vehicles.py:19-30 | a new service has no requests and keeps its times |
| Vehicles.ServiceLessIsStrictWeakOrder | Server/vehicles.py:32-33 | services are strictly ordered by departure, and two are incomparable exactly when they depart together |
| Vehicles.PutService | Server/vehicles.py:36 | `put` adds exactly the one service |
| Vehicles.PeekService | Server/vehicles.py:36-40 | None exactly on an empty queue; otherwise a queued service that departs no later than any other |
| Vehicles.PeekAfterEarlierPut | Server/vehicles.py:32-40 | a service departing before all queued ones is what the next peek shows |
| Vehicles.NewVehicle | Server/vehicles.py:62-74 | a new vehicle has 0 containers, an empty container map, no services, and status IDLE |
| Vehicles.LoadVehicle | Server/vehicles.py:77-86 | the load succeeds exactly when a slot is free; then the count rises by 1 and the request's quantity by the amount, with other requests unchanged; a refused load leaves the vehicle as it was; the capacity bound is kept |
| Vehicles.FullRefusesAll | Server/vehicles.py:78-86 | a full vehicle refuses every load and stays as it is |
| Vehicles.LoadAllCount | Server/vehicles.py:77-86 | a run of loads takes exactly `min(loads, free slots)` of them and never exceeds the capacity |
| Vehicles.LoadAllKeys | Server/vehicles.py:79-83 | afterwards the vehicle holds the requests it held and those named by the loads it took |
| Vehicles.LoadAllAmounts | Server/vehicles.py:79-82 | each request's quantity grows by the amounts of the taken loads naming it |
| Network.WfLinksDistinct | Server/network.py:106-112 | no two links share their four coordinates |
| Network.Intern | Server/network.py:104-115 | a segment seen before reuses its id and leaves the table as it is; a new one is appended and gets the next id; earlier ids keep their links |
| Network.PathIds | Server/network.py:98-115 | the path has one id per segment, and id k names the link of segment k; the links appended are the route's segments not linked before, each once, in route order, and each is on the path |
| Network.UnseenMembers | Server/network.py:106-112 | the links appended are the segments not yet linked, and none twice |
| Network.UnseenConcat | Server/network.py:83-115 | appending the new segments of one route, then those of the next, is appending the new segments of both routes together |
| Network.InternAppendsUnseen | Server/network.py:106-112 | the first segment is appended exactly when no link has its coordinates |
| Network.PathIsDetermined | Server/network.py:106-115 | over a deduplicated table a route has exactly one path of ids |
| Network.BuildFrom | Server/network.py:83-118 | an out-of-range node id raises IndexError; otherwise every row's pair maps to the path of its route, other pairs keep their paths, and every id is a link; the links appended are the segments of the rows' routes not linked before, each once, in the order the rows first reach them, and each is on the path of some row |
| Network.EnumLookupLast | Server/network.py:53-56 | the lookup built from `enumerate(links)` keeps the last index of a repeated key |
| Network.PostInit | Server/network.py:50-60 | a given lookup is kept; a missing one maps each link's key to a link with that key; there is one empty list per link and per node |
| Network.BuiltLookupIsEnumeration | Server/network.py:52-56 | the dictionary `build_network` hands over is the one `__post_init__` would compute from the links |
| Network.BuildNetwork | Server/network.py:63-121 | one node per input row in order; the links are the segments of all routes, each once, in the order the rows first reach them, and each is on some pair's path; the lookup points each key at its own link; every connectivity pair gets the path of its route |
| Instances.OffDiagonal | Server/instance_generator.py:68-72 | one origin's row lists every other node once, ascending |
| Instances.ConnectivityFrom | Server/instance_generator.py:68-72 | the rows of origins i..N-1 are `(N - i)(N - 1)` off-diagonal pairs covering all of them, strictly ordered |
| Instances.CreateConnectivity | Server/instance_generator.py:66-75 | exactly `N(N - 1)` rows, none on the diagonal, every ordered pair present, ordered by origin then destination |
| Instances.ConnectivityHasNoRepeats | Server/instance_generator.py:68-72 | no pair appears twice |
| Instances.GenerateRequests | Server/instance_generator.py:50-59 | row i has id i, selected 1 and the drawn values, with `lw` the lesser and `uw` the greater bound |
| Instances.Distances | Server/instance_generator.py:22-38 | the diagonal stays 0 and every off-diagonal entry is the route distance |
| Instances.GeneratedInstanceBuilds | Server/instance_generator.py:50-63 | in-range draws always build an environment, with every SPAWN stamped at 0 or later |
| Colors.Red | Frontend/route.js:28-31 | red is 255 exactly when the ratio reaches 1; below that it is the floor of `255 * intensity / M`; for a positive `M` it is never negative for a non-negative intensity; with `M = 0` a positive intensity gives 255, and any other intensity gives no number |
| Colors.ColorOf | Frontend/route.js:31-34 | the text `rgb(r, 255 - r, 0)` reads back as the red channel and its complement |
| Colors.InterpolateColor | Frontend/route.js:26-35 | the colour reads back as the red channel and green `255 - red`; when the channel is no number, the text is the NaN or Infinity text JavaScript prints |
| Colors.NonFiniteUnreadable | Frontend/route.js:31-33 | the NaN and Infinity colour texts hold no integer channels |
| Colors.DefaultMaxima | Frontend/route.js:26 | a link is fully red from intensity 2 with route.js's `M = 2`, and from 200 with utils.js's `M = 200` |
| Colors.ColorCarriesChannels | Frontend/route.js:31-33 | the colour text reads back as the red channel and its complement, which sum to 255 |
| CssColor.RgbRoundTrip | Frontend/utils.js:57 | the text `rgb(r, g, 0)` reads back as exactly (r, g) |
| Decimal.IntRoundTrip | Frontend/route.js:33 | an integer's decimal text, followed by a non-digit, reads back as the integer and the rest |
| EdgeIndex.EdgeToPaths | Frontend/route.js:37-54 | the map lists each key once, and answers for every key exactly the paths through that segment in visiting order, and nothing for a key never visited |
| EdgeIndex.VisitsCover | Frontend/route.js:41-44 | the loops visit every segment of every path, with that path's indices |
| EdgeIndex.IndexIsPathsOn | Frontend/route.js:44-48 | the map holds, for every segment key, exactly the paths through it in visiting order, and no key that was never visited |
| EdgeIndex.EveryPathListed | Frontend/route.js:37-54 | every path `[i, j]` is listed under the key of each of its segments |
| EdgeIndex.EdgeListsOrdered | Frontend/route.js:41-49 | each list has its `[i, j]` entries in i, j order |
| EdgeIndex.EntriesCountSegments | Frontend/route.js:41-49 | the number of entries is the sum of `max(len - 1, 0)` over all paths |
| HtmlTable.AppendCells | Frontend/route.js:59-61 | each argument adds one `<td>` cell, in order |
| HtmlTable.New | Frontend/route.js:57-63 | the constructor opens the table and writes the header row |
| HtmlTable.AddRow | Frontend/utils.js:69-75 | `addRow` appends exactly one `<tr>` row of the arguments |
| HtmlTable.ToHtml | Frontend/route.js:71-73 | `toHtml` is the markup followed by `</table>`, and the builder is unchanged |
| HtmlTable.Build | Frontend/route.js:56-75 | a table built from a header and rows renders as the header row, then the rows in the order added, inside `<table>` |
| JsMap.GetAfterSet | Frontend/route.js:151-153 | after `set(k, v)`, `get(k)` answers v and every other key answers as before |
| JsMap.GetFindsEntry | Frontend/route.js:151 | in a map that lists each key once, `get` finds exactly the stored entry |
| JsMap.SetKeepsWf | Frontend/route.js:153 | `set` never lists a key twice |
| Query.Separator | Frontend/utils.js:44 | `?` exactly when the URL has none, else `&` |
| Query.AddParameter | Frontend/utils.js:40-46 | the URL is kept as a prefix, followed by the separator and the serialised pair |
| Query.QueryAfterAdd | Frontend/utils.js:40-46 | the query read back is the pair alone for a URL without a query, and otherwise the old query, `&` and the pair |
| Query.TwoParameters | Frontend/utils.js:8-11 | two added parameters give the query holding both pairs, joined by `&` |
| Query.VisiblePositions | Frontend/utils.js:37 | the positions listed are ascending, and a position is listed exactly when its flag is on |
| Query.FilterVisibleLayers | Frontend/utils.js:36-38 | the keys at the switched-on positions, in key order |
| Query.VisibleIffOn | Frontend/utils.js:37 | a name is listed exactly when some entry with that name is switched on |
| Route.NewNode | Frontend/route.js:77-84 | a node is made exactly when there are two coordinates, and otherwise it throws |
| Route.GetResource | Frontend/route.js:95-97 | a name never set gives 0; otherwise its stored amount |
| Route.AddResource | Frontend/route.js:87-92 | a fractional amount throws; otherwise the coordinates are kept and the name reads back the amount |
| Route.ResourceAfterAdd | Frontend/route.js:87-97 | after `addResource` the name reads back the amount and every other name reads as before |
| Route.NewLink | Frontend/route.js:101-108 | a link is made exactly when both ends have two coordinates, with polyline `[origin, destination]` and the intensity given |
| Route.CombinePaths | Frontend/route.js:141-167 | one new link per entry of the sums map, each with its own fresh polyline, no two alike |
| Route.CombineSums | Frontend/route.js:146-157 | the map holds, for each polyline a link lies on, the sum of their intensities, and nothing else |
| Route.MaxBoundsSums | Frontend/route.js:155-156 | the running maximum is non-negative and at least every sum |
| Route.MaxIsAttained | Frontend/route.js:143-156 | with no negative intensity, the maximum is 0 or one of the sums |
| Route.CombinedLinkSums | Frontend/route.js:160-164 | each new link stands for one input polyline: same points, summed intensity |
| Route.EveryPolylineCombined | Frontend/route.js:144-164 | there is one new link per distinct polyline object of the input |
| Route.CombinedMaxBounds | Frontend/route.js:141-167 | `intensity_max` is non-negative and at least every new link's intensity |
| Route.CombinedMaxAttained | Frontend/route.js:141-167 | with no negative intensity, `intensity_max` is 0 or some new link's intensity |

## Left out

- Printing, HTTP fetches, the DOM, file reading and the Tornado server are not modelled; none of them affects the state.
- The random draws are parameters: the truck speed jitter, the instance sampling and `Math.random` in `routeToPath`.
- Arithmetic is exact: `quota`, `interpolateColor`, distances and speeds use unbounded reals, with no IEEE rounding. The one place the code can reach a non-number is `interpolateColor` with `M = 0`, which `combinePaths` returns next to real links when no running sum rises above 0, for instance when every intensity is 0 (Frontend/route.js:143,156); there `Colors.Red` and `Colors.InterpolateColor` follow JavaScript's Infinity, NaN and -Infinity.
- `Link.intensityColor` (HSL to hex) and `routeToPath` are not modelled, because they are pure floating-point formatting and random sampling.
- The number formatting of JavaScript template literals is modelled for integers only (`Decimal`); JavaScript prints integers in this form only below 1e21 in magnitude, and the model prints every integer so.
- `Object.keys` lists integer-like keys first in JavaScript. `Query.FilterVisibleLayers` takes the keys in whatever order `Object.keys` gives them, and models only boolean flags, not other truthy values.
- `combinePaths` and `edgeToPaths` assign to implicit globals (`edgeMap`, `j`, `origin`, `destination`, `intensity`). The model keeps only their return values. The identity of each new polyline array is a parameter (`next`).
- `Shipper.process_dispatch_request` then calls `lsps[selected_lsp].initiate_truck`, but Server/Agents/Shipper.py imports only `Request`, so `lsps` at line 20 (and `print_all_ids` at line 22) is an undefined name and raises NameError. The model stops at the selection and the wait.
- `LSP.process_request` in Server/Agents/LSP.py:17 calls a method on an integer id, and `Carrier.initiate_truck` multiplies a truck by 100. These broken paths are left out.
- `agents.Shipper.generate_vehicle`, `agents.LSP.initiate_truck`, `Shipper.delivered_request` and `Vehicle.unload_container` are left out, because each refers to a field or class that does not exist.
- `Environment.step_to_next_event` refers to a missing `event_queue` attribute and passes `self` twice, so it is left out.
- `Shipper.contact_lsps` does not exist. The delivery time it would give is the parameter `contact`, taken as non-negative (`Request -> nat`): that `ProcessEvent` queues its DELIVER later than now, and that `Drain` ends, depend on it.
- Server/environment.py:11 imports `Request`, `Event`, `Event_Type` and `Agent_Type` from Server/common.py, which defines none of them (only `Node`, `Link` and `Vehicle`), so that import fails as written. The model takes the request and event shapes from their use in Server/environment.py and orders environment events by timestamp alone.
- Python's heap picks among equally ranked entries by its layout. The model's queues hand out the earliest inserted of them. The general contracts state only that no queued entry ranks below the one handed out. Only the lemmas about the two shared-window requests depend on which tied event comes first.
- Python's `PriorityQueue.get` blocks forever on an empty queue. `GlobalQueue.GetEvent` requires a non-empty queue instead.
- The `Vehicle` default `services = ServiceQueue()` is shared by every vehicle made without one (Server/vehicles.py:72). Each modelled vehicle has its own queue, so that aliasing is not modelled.
- `Truck.speed_per_timestep` (Server/vehicles.py:120) is a random draw made once at class definition, and it is not modelled.
- A JavaScript `Map` compares object keys by identity. `JsMap` compares keys by value, and every polyline carries an explicit identity.
- Agents are held in one registry and refer to each other by index, instead of by object reference.
- The agent classes exist twice. Server/agents.py has a `Carrier` with `estimated_average_speed` and `quota` (Server/agents.py:73-87) and an `LSP.process_request` that returns the quote (Server/agents.py:57-66). Server/Agents/Carrier.py has `assign_container` but no `quota`. `Agents.Carrier` joins the two: `Agents.Quota` and `Agents.ProcessRequest` follow Server/agents.py, and `Agents.AssignContainer` follows Server/Agents/Carrier.py. `Agents.CollectQuotes` follows the loop of Server/Agents/Shipper.py:12-16 but asks each LSP through `process_request` of Server/agents.py. With the carriers Server/Simulation/Simulation.py:5,36,49-52 builds from Server/Agents/Carrier.py, `carrier.quota` at Server/Agents/LSP.py:14 raises AttributeError; that failure is not modelled.

## Findings

| source | as written | input that shows it | evidently intended | confidence | as-written member | corrected member |
|---|---|---|---|---|---|---|
| Server/environment.py:48-61 | `step` raises the clock by 1 and removes at most one event, and only if its timestamp equals the new time, so an event stamped before the clock is never removed | two request rows from node 0 to node 1 with `lw = 2` put two SPAWN events at time 1; after the first step the second SPAWN is stamped before the clock, and it and everything behind it stay queued for ever (Environment.SharedWindowStrandsEvents; the corrected step handles both, Environment.SharedWindowDrained) | every event due by the new time is handled, so each SPAWN adds its truck | not executed | Environment.StaleEventBlocksForever | Environment.StepDrain |
