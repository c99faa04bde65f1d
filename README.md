# Airport layout construction (ASOS `Layout`), modelled in Dafny

The `Layout` object of ASOS reads an airport drawing and builds the taxi
graph that the rest of the system routes on. Its constructor works in fixed
phases, and this project models each phase:

- **Airport id.** The airport code (and an optional version) comes from the
  drawing's file name.
- **`import_nodes`.** Intersection and termination nodes get their integer
  ids, with termination ids shifted by the intersection count. Parking and
  holding-point markers then retype and name nodes:
  - remote holdings, tug bases, decoupling and all-clear points, and ramps
    (at most one of them a buffer stand);
  - stop bars, transfer, deicing and taxibot points.
- **`import_edges`.** Every edge path becomes a directed key and its mirror.
  A later path with a key already taken is skipped. The embedded name string
  is decoded into:
  - maxspan and edge type;
  - remote-holding access;
  - push and pull fragments filed per gate and per aircraft category;
  - entry buckets.
- **`enhance_imports`.** Builds the adjacency sets and the ramps' stand
  edges. Taxiway intersections with only service-road exits become
  service-road intersections. Each edge gets its continuations, with their
  slow-turn flags, by the modular turn-angle rule, and its direction-switch
  set.
- **`create_runway_data`.** Each strip's two directions are walked from
  their thresholds:
  - edges leaving the walk are followed to their stop bars and become exits
    of one direction and entries of the other;
  - crossing and go-around edges are followed to their stop bars;
  - every stop bar of the strip must be accounted for;
  - walked edges become runway edges.
- **`create_pushpull_data`.** Each gate's pools of bidirectional push and
  pull fragments are chained into directed paths. A category without a push
  path of its own borrows the Standard one. The ICAO categories are grouped
  behind representatives whose paths they share.
- **Angle helpers.** The bearing/heading conversions and the scaled
  distance of the utility module.

Modules:

| module | file | models |
|---|---|---|
| `Layouts` | layout.dfy | the `Layout` class: its tables as fields; one method per phase, updating them in place |
| `AirportId` | airport_id.dfy | file-name parsing of the constructor |
| `NodeIds`, `Nodes` | node_ids.dfy, nodes.dfy | `import_nodes` |
| `EdgeNames`, `Edges`, `EdgeProperties` | edge_names.dfy, edges.dfy | `import_edges` |
| `Enhance` | enhance.dfy | `enhance_imports` |
| `Runways`, `RunwayStrips`, `StripAssembly`, `RunwayData` | runway.dfy, runway_strip.dfy, runway_data.dfy | `create_runway_data` |
| `Pushback` | pushback.dfy | `create_pushpull_data` |
| `Angles` | angles.dfy | `_Layout_utilFuncs.py` |
| `Wrappers`, `Strings`, `Graph` | wrappers.dfy, strings.dfy, graph.dfy | Option/Result, Python string operations, node ids and edge keys |

Each loop the source runs is a method with loop invariants. The method is
proved equal to a specification function: a fold over the input, or a map
comprehension. The properties the source relies on are lemmas about those
functions. A failed `assert` or lookup of the source is an error variant of
a `Result`, except for the inputs listed under "Undefined inputs" below,
which are preconditions.

Two behaviours of the code worth knowing, both modelled as written:

- **Pushback grouping.** The grouping loop (src/Layout/Layout.py:1127-1164)
  puts each run of categories without a path of their own behind the last
  category before the run that has one. A group's `pb_type` comes from the
  pull group whose member tuple is the same.
- **Name collisions.** `name2node_dict` entries are overwritten without a
  check (src/Layout/Layout.py:175-305), and so does the model.

## Model

| member | source | states |
|---|---|---|
| AirportId.ParseAirportNameAsWritten | src/Layout/Layout.py:69-76 | the constructor's parse as written: every accepted airport code has exactly four characters |
| AirportId.FiveCharacterStemAccepted | src/Layout/Layout.py:72-76 | as written, the stem `ABCDE` has no `-`, so `rfind` gives -1 and the code becomes `ABCD` with version `ABCDE`; the stem is accepted instead of refused |
| AirportId.ParseAirportName | src/Layout/Layout.py:69-76 | corrected parse: an accepted name has a four-character code; the stem is the code, or code `-` version; the version differs from the code |
| AirportId.CorrectedAgreesWithSource | src/Layout/Layout.py:72-76 | the corrected parse gives the same result as the source whenever the stem has at most four characters or contains a `-` |
| AirportId.FiveCharacterStemRefused | src/Layout/Layout.py:72-76 | the corrected parse refuses `ABCDE.svg` |
| AirportId.StemOfPath | src/Layout/Layout.py:69-70 | the stem of `dir/name.svg` is `name` when the name has no slash |
| AirportId.ParseUnversioned | src/Layout/Layout.py:69-76 | `dir/CODE.svg` with a four-character code parses to that code without a version, in both parsers |
| AirportId.ParseVersioned | src/Layout/Layout.py:72-76 | `dir/CODE-VER.svg` parses to the code and the version, in both parsers |
| AirportId.Checked | src/Layout/Layout.py:75-76 | the two assertions: the result is accepted only with a four-character code that differs from the version |
| Angles.BearingToHeading | src/Layout/_Layout_utilFuncs.py:72-94 | the default mode's heading lies in [0,360); the signed mode's lies in (-180,180] |
| Angles.HeadingToBearing | src/Layout/_Layout_utilFuncs.py:97-118 | the bearing lies in [0,360) |
| Angles.BearingToHeadingTable | src/Layout/_Layout_utilFuncs.py:75-80 | the documented table holds: 0→90, 90→0, 180→270, 270→180 |
| Angles.HeadingToBearingTable | src/Layout/_Layout_utilFuncs.py:101-106 | the documented table holds: 0→90, 90→0, 180→270, 270→180 |
| Angles.SignedHeadingAgreesWithDefault | src/Layout/_Layout_utilFuncs.py:91-94 | the signed heading is the default heading moved into (-180,180]: the same angle mod 360 |
| Angles.HeadingToBearingInverse | src/Layout/_Layout_utilFuncs.py:92-118 | heading-to-bearing undoes bearing-to-heading on [0,360) |
| Angles.BearingToHeadingInverse | src/Layout/_Layout_utilFuncs.py:92-118 | bearing-to-heading undoes heading-to-bearing on [0,360) |
| Angles.ScaledDistanceProperties | src/Layout/_Layout_utilFuncs.py:26-42 | the squared scaled distance is symmetric, non-negative and zero between a point and itself |
| NodeIds.BoundNode | src/Layout/Layout.py:409-429 | a boundary resolves to a node exactly when it names an intersection or a termination; an intersection resolves to its own number; a termination resolves to a number at least the intersection count |
| NodeIds.IntersectionRefRoundTrip | src/Layout/Layout.py:409-412 | `intersection_node_<k>` resolves to `k` |
| NodeIds.TerminationRefRoundTrip | src/Layout/Layout.py:413-415 | `termination_node_<k>` resolves to `k` plus the intersection count |
| NodeIds.ClassifyParking | src/Layout/Layout.py:166-209 | a marker id is refused exactly when none of the special markers occurs and it contains `TUD`; decoupling names end in `_dcp` and all-clear names in `_acp`; a ramp keeps its id as its name |
| NodeIds.DecouplingAndAllClearNamesDiffer | src/Layout/Layout.py:189-202 | a decoupling point and an all-clear point never get the same name |
| NodeIds.RemoteHoldingName | src/Layout/Layout.py:166-168 | `remhold_<name>_TUD` is a remote holding named `<name>` |
| Nodes.Resolve | src/Layout/Layout.py:160-165 | a node reference resolves to the node its boundary names |
| Nodes.Intersections | src/Layout/Layout.py:119-130 | every intersection group is registered under its own number as a nameless taxiway intersection whose svg id is one of the input ids resolving to it; nothing else is registered |
| Nodes.IntersectionsLastWins | src/Layout/Layout.py:119-130 | a later intersection id with the same number overwrites an earlier one: an id no later intersection id resolves like is the svg id its node keeps |
| Nodes.Terminations | src/Layout/Layout.py:132-144 | every termination group is registered under its number plus the intersection count, with an input id as its svg id; entries already present stay unless a termination lands on them |
| Nodes.RegisterNodes | src/Layout/Layout.py:118-144 | the two registration loops compute the registered node table, the intersection count, and the `node_id` they leave behind: the last termination's node if any, else the last intersection's |
| Nodes.LastIntersectionKnown | src/Layout/Layout.py:119-122 | the intersection loop leaves `node_id` unset exactly when no id starts with `intersection_`, and otherwise on a node it registered |
| Nodes.LastTerminationKnown | src/Layout/Layout.py:132-136 | the termination loop sets `node_id` exactly when some id starts with `termination_`, and then to a node it registered |
| Nodes.RegisteredLastKnown | src/Layout/Layout.py:118-144 | after both loops `node_id` is unset exactly when no id names a node, and otherwise names a registered node |
| Nodes.FirstMarkerTakesRegisteredNode | src/Layout/Layout.py:158-165 | a first parking marker whose `node` names neither kind is filed on the node the registration loops left in `node_id`, which is unset only when no id names a node |
| Nodes.RegisteredRefsResolve | src/Layout/Layout.py:119-146 | every registered node's svg id resolves back to the node's own id |
| Nodes.ContiguousNumberingKeepsIntersections | src/Layout/Layout.py:132-144 | when the intersections are numbered 0..n-1, terminations never overwrite an intersection and all lie at or above n |
| Nodes.ImportParkings | src/Layout/Layout.py:158-220 | the parking loop computes the parking fold |
| Nodes.PrefixErrorPersists | src/Layout/Layout.py:204-211 | once a parking marker fails, the whole parking loop fails with that error |
| Nodes.BufferSetExactly | src/Layout/Layout.py:210-212 | after a successful parking loop, a buffer stand is recorded exactly when some ramp id contains `BUFFER` |
| Nodes.AtMostOneBuffer | src/Layout/Layout.py:210-212 | a successful parking loop saw at most one buffer ramp |
| Nodes.ImportHoldings | src/Layout/Layout.py:225-305 | each holding-point loop computes its fold |
| Nodes.HoldingErrorPersists | src/Layout/Layout.py:268-299 | once a holding marker fails, its loop fails with that error |
| Nodes.ParkingFoldConsistent | src/Layout/Layout.py:158-220 | the parking loop keeps every name map pointing at registered nodes and keeps the node set and the intersection count |
| Nodes.HoldingFoldConsistent | src/Layout/Layout.py:225-305 | the holding loops keep the same invariants |
| Nodes.ImportNodes | src/Layout/Layout.py:114-305 | `import_nodes` is the registration followed by the parking loop, which starts from the `node_id` the registration left, and the five holding loops, stopping at the first error |
| Nodes.ImportNodesConsistent | src/Layout/Layout.py:114-305 | a successful import leaves consistent tables over exactly the registered nodes |
| Nodes.TugBaseTakesPreviousType | src/Layout/Layout.py:294-302 | a taxibot base marker after an untyped deicing point becomes a tug base of type Deicing: it takes the loop variable's previous type |
| EdgeNames.StripMaxspanAsWritten | src/Layout/Layout.py:439-446 | as written: a name without `maxspan` keeps no limit; otherwise the limit is the token after `maxspan_` |
| EdgeNames.LeadingZeroKeepsMarker | src/Layout/Layout.py:444-446 | as written, `A_maxspan_07_TUD` gets the limit 7 but keeps the marker: the rebuilt `_maxspan_7` does not occur |
| EdgeNames.StripMaxspanAsWrittenCanonical | src/Layout/Layout.py:439-446 | as written, a marker with a canonical numeral is removed and its value becomes the limit |
| EdgeNames.StripMaxspan | src/Layout/Layout.py:439-446 | corrected: the same limit, and the name never grows |
| EdgeNames.StripMaxspanRemovesMarker | src/Layout/Layout.py:439-446 | corrected: `a_maxspan_<tok>b` becomes `ab` with limit `tok` |
| EdgeNames.LeadingZeroMarkerRemoved | src/Layout/Layout.py:444-446 | corrected: `A_maxspan_07_TUD` becomes `A_TUD` with limit 7 |
| EdgeNames.DecodeName | src/Layout/Layout.py:439-533 | the decoded name is the maxspan-stripped name; a name that is not decoded gives a plain nameless taxiway edge with no access, filings or entry |
| EdgeNames.DecodeFollowsPrecedence | src/Layout/Layout.py:447-464 | type and name follow the precedence: service road, then center service road, stand, push/pull placeholder, entry |
| EdgeNames.PushFilingsMembership | src/Layout/Layout.py:479-500 | a push filing exists exactly for each gate of each push variant, with category ICAO-D for `pb@d` and Standard otherwise |
| EdgeNames.PullFilingsMembership | src/Layout/Layout.py:501-520 | a pull filing exists exactly for each gate of each pull variant, the gates taken from the second token |
| EdgeNames.TwyVariantsNotFiled | src/Layout/Layout.py:479-520 | a variant containing `TWY` files nothing |
| Edges.PathKey | src/Layout/Layout.py:409-431 | a key's end is open exactly when its boundary names no node |
| Edges.Mirrored | src/Layout/Layout.py:431-671 | an accepted path adds its key and the reversed key |
| Edges.GrantAccess | src/Layout/Layout.py:466-471 | the access loop computes the access fold |
| Edges.PoolAll | src/Layout/Layout.py:473-520 | the filing loop computes the pooled filings |
| Edges.ImportPath | src/Layout/Layout.py:406-671 | one iteration of the path loop computes the path step: a taken key is skipped before the name is read; a fresh path whose maxspan token is no numeral, whose type is unknown, whose pull variant has no gates or whose `pb@`/`pull@` marker is not `@d` fails; any other is registered |
| Edges.ImportPaths | src/Layout/Layout.py:406-671 | the path loop computes the path fold, over any path records whose ids have readable bounds |
| Edges.PathErrorPersists | src/Layout/Layout.py:406-671 | once a path fails, the import fails with that error |
| Edges.ImportEdges | src/Layout/Layout.py:395-685 | `import_edges` is the path fold followed by the sort, which fails on a key open at both ends |
| EdgeProperties.ForwardMirrorsBackward | src/Layout/Layout.py:605-671 | the forward and backward records mirror each other: same type, name, length and maxspan; negated slope; reversed segments; inverse flags |
| EdgeProperties.MirroredClosed | src/Layout/Layout.py:628-671 | adding a fresh key with its mirror keeps the edge map closed under mirroring and leaves earlier records alone |
| EdgeProperties.PooledAllFiles | src/Layout/Layout.py:473-520 | every filing puts the key and its reverse in its gate's category bucket |
| EdgeProperties.PooledAllLeavesOthers | src/Layout/Layout.py:473-520 | gates no filing names keep their pools |
| EdgeProperties.AccessFoldGrants | src/Layout/Layout.py:466-471 | every access name is a remote holding's name, and that holding gets the key and its reverse |
| EdgeProperties.PathStepSound | src/Layout/Layout.py:406-671 | one accepted path keeps the tables sound (mirror-closed; pools, access and ids within the edges) and keeps earlier records |
| EdgeProperties.PathFoldSound | src/Layout/Layout.py:406-671 | the whole loop keeps the tables sound and keeps every earlier record |
| EdgeProperties.ImportEdgesSound | src/Layout/Layout.py:395-685 | a successful import is sound and has no key open at both ends |
| EdgeProperties.PathStepSkipsTakenKey | src/Layout/Layout.py:433-435 | a path whose key is taken changes nothing |
| EdgeProperties.DuplicateKeySkipped | src/Layout/Layout.py:433-435 | a later path with the same key as an earlier one leaves the import as it was: the first path wins |
| EdgeProperties.RegisteredPath | src/Layout/Layout.py:431-671 | a fresh path maps its svg id to its key and stores the forward and backward records, typed by precedence and maxspan-stripped |
| Enhance.BuildAdjacency | src/Layout/Layout.py:766-777 | the adjacency loop succeeds exactly when every key's ends are nodes, and gives each node the links of the key set |
| Enhance.AdjacencyAgrees | src/Layout/Layout.py:774-777 | a key (a,b) is among a's outgoing and b's incoming edges, and b is a's neighbour |
| Enhance.OpenStartOnlyIncoming | src/Layout/Layout.py:769-770 | a key with an open start is no node's outgoing edge and only its end node's incoming edge |
| Enhance.FilterStand | src/Layout/Layout.py:784-791 | keeps exactly the Stand edges |
| Enhance.RampOf | src/Layout/Layout.py:781-791 | a ramp's outgoing and incoming stand edges |
| Enhance.RampEdges | src/Layout/Layout.py:779-791 | the ramp loop gives every ramp its stand edges and collects their union |
| Enhance.AllServiceRoad | src/Layout/Layout.py:797-802 | true exactly when every outgoing edge is a service road |
| Enhance.Reclassified | src/Layout/Layout.py:793-805 | only a taxiway intersection changes type; it becomes a service-road intersection exactly when all its outgoing edges are service roads |
| Enhance.DeadEndBecomesServiceRoad | src/Layout/Layout.py:797-805 | a taxiway intersection without outgoing edges becomes a service-road intersection |
| Enhance.ReclassifyAll | src/Layout/Layout.py:793-805 | the reclassification loop retypes every node by that rule |
| Enhance.TurnAngle | src/Layout/Layout.py:820 | the turn angle lies in [0,180] |
| Enhance.TurnAngleSymmetric | src/Layout/Layout.py:820 | the turn angle does not depend on which heading comes first |
| Enhance.TurnAcrossNorth | src/Layout/Layout.py:820 | a turn from 350 to 10 degrees is 20 degrees |
| Enhance.FindContinuations | src/Layout/Layout.py:809-826 | computes the next edges (departing at the end, not the reverse, turn under 135) and their slow-turn flags (over 30) |
| Enhance.AllContinuations | src/Layout/Layout.py:807-830 | the continuation loop gives every edge its next edges and flags |
| Enhance.DirSwitchMembers | src/Layout/Layout.py:832-838 | an edge is in the direction-switch set exactly when it departs at the end and is the reverse or turns by more than 30 degrees |
| Enhance.DirSwitchHasReverse | src/Layout/Layout.py:832-838 | the direction-switch set contains the reverse edge when it exists |
| Enhance.AllDirSwitches | src/Layout/Layout.py:832-838 | the direction-switch loop succeeds exactly when no edge ends open, and gives every edge its set |
| Enhance.EnhanceAll | src/Layout/Layout.py:762-838 | `enhance_imports` succeeds exactly when every key's ends are nodes and no edge ends open; it then gives the specified adjacency, ramp, type and continuation tables |
| Runways.SearchExit | src/Layout/Layout.py:917-941 | fails exactly when the single-successor chain behind the edge outlasts the graph; otherwise it lists stop bars exactly when the search finds some, and then its path starts with the chain it followed, its stop bars are exactly the stop-bar ends of the deciding round's edges, and its path holds exactly that chain and the edges ending at them |
| Runways.CheckAhead | src/Layout/Layout.py:925-936 | one pass over the candidate edges appends, in their order, the stop bar at the end of every candidate that ends at one, and the candidate itself to the path, and nothing else; the search state stays well formed |
| Runways.StopbarEndsListed | src/Layout/Layout.py:925-928 | a node is among the stop bars one pass lists exactly when some candidate edge ends at it and it is a stop bar; the pass lists none exactly when no candidate ends at a stop bar |
| Runways.StopbarEdgesListed | src/Layout/Layout.py:925-936 | an edge is among the edges one pass appends to the path exactly when it is a candidate ending at a stop bar |
| Runways.ExitRound | src/Layout/Layout.py:921-941 | one pass of the search loop: the search stays on the single-successor chain the whole search follows, moves on exactly when one edge lies ahead, and once it stops holds exactly the stop bars and edges the search collects |
| Runways.Visit | src/Layout/Layout.py:909-951 | a next edge joins the chain exactly when it keeps the heading, and then extends the nodes and edges; any other next edge is searched, fails exactly when its search is endless, and otherwise is recorded as an exit at the length walked so far exactly when its search finds stop bars, with exactly the stop bars it collects, which join the exit stop-bar record with its path; no other exit changes |
| Runways.SearchAndRecord | src/Layout/Layout.py:917-951 | fails exactly when the search behind the edge is endless; otherwise the edge becomes an exit at the current length exactly when its search finds stop bars, carrying exactly the stop bars it collects, which join the exit stop-bar record with the search's path; its entry is recorded for the opposite direction, and the chain, length, other exits and, without stop bars, the record stay |
| Runways.Round | src/Layout/Layout.py:905-951 | one round over the last chain edge's next edges: the walk goes on from the last heading-keeping one, and there is none exactly when no next edge keeps the heading; the chain only grows; when no re-typed node was a stop bar, the exits are exactly the visited non-heading-keeping edges with stop bars behind them, each at the length walked when last visited and with exactly the stop bars its search collects, and the exit stop-bar record is exactly those stop bars and search paths; an error is an endless search behind a next edge |
| Runways.WalkDirection | src/Layout/Layout.py:888-960 | fails with the edge count exactly when the threshold has not exactly one outgoing edge; a walk reported endless has a heading-keeping run longer than the graph; a success starts with the threshold edge, ends with an edge no next edge of which keeps the heading, has the sum of its rounds' edge lengths as its length, and, when no re-typed node was a stop bar, exactly the exits the source records, with their lengths and stop bars, and the exact exit stop-bar record |
| Runways.Rounds | src/Layout/Layout.py:905-951 | the round loop: an error is an endless walk (with a heading-keeping run longer than the graph) or an endless exit search; a success is a finished walk as for WalkDirection |
| Runways.Advance | src/Layout/Layout.py:905-916 | a round adds the edge it starts from to the rounds, and so its length to the walk's; the walk stays one from the threshold edge with the round-loop invariant |
| Runways.MirroredExit | src/Layout/Layout.py:948-951 | each exit (u,v) has entry (v,u) with the same length and stop bars |
| Runways.ExitMirror | src/Layout/Layout.py:948-951 | recording an exit and its entry together keeps exits and entries mirrored |
| Runways.ExitsOfStopbars | src/Layout/Layout.py:917-936 | the search behind an edge finds stop bars on one node table exactly when it does on another that agrees on which nodes are stop bars, and collects the same stop bars and edges |
| Runways.ExitOfStopbars | src/Layout/Layout.py:917-936 | the same for one edge: its verdict, chain, stop bars and edges agree on two tables with the same stop bars |
| Runways.ExactOfStopbars | src/Layout/Layout.py:917-951 | exits, lengths and exit stop-bar record that are exact on one table are exact on another with the same stop bars |
| Runways.RecordStopbars | src/Layout/Layout.py:944-951 | recording an exit with the stop bars its search collected keeps the exit stop-bar record exact over the exits |
| Runways.CollectedOn | src/Layout/Layout.py:944-951 | the stop bars and paths of one more exit join those of the exits before |
| RunwayStrips.FirstContained | src/Layout/Layout.py:855-868 | the first listed name occurring in the edge's name, or none when no listed name occurs |
| RunwayStrips.FilingOf | src/Layout/Layout.py:847-870 | a special edge is a crossing of the first strip its name contains, or an ahead edge of the first runway its name contains |
| RunwayStrips.SpecialEdges | src/Layout/Layout.py:847-870 | succeeds exactly when every special edge names a strip or runway, and then files each one by that rule |
| RunwayStrips.Search | src/Layout/Layout.py:979-988 | the worklist search examines exactly the edges reachable from the seeds through non-stop-bar ends, each reached from a seed or from an edge examined before it, and collects exactly the stop bars at the ends of examined edges |
| RunwayStrips.SoundIsRooted | src/Layout/Layout.py:979-988 | every examined edge ends a trail from a seed whose earlier edges were examined and do not end at a stop bar |
| RunwayStrips.NothingWithoutSeeds | src/Layout/Layout.py:976-988 | a search from no seeds examines nothing and finds no stop bar |
| RunwayStrips.AroundStopbars | src/Layout/Layout.py:976-1030 | the stop bars found, and the examined edges, their reverses and the seeds, minus the exit and entry edges |
| RunwayStrips.Surroundings | src/Layout/Layout.py:971-1030 | the crossing, ahead and behind sets of a strip, none of them containing an exit edge |
| RunwayStrips.WalkBoth | src/Layout/Layout.py:888-960 | both directions are walked as by WalkDirection, the second on the node table the first left; an error is a threshold without exactly one edge, a heading-keeping circle, or an endless search, of either direction |
| StripAssembly.ProcessStrip | src/Layout/Layout.py:873-1033 | a strip name that is not two directions, and a missing threshold, are errors; any other error is a failed walk, or comes after both walks and the searches around them succeeded and names exactly the strip's stop bars none of them found; a success is a record meeting the strip's specification, with finished walks in both directions |
| StripAssembly.WalkStrip | src/Layout/Layout.py:884-1033 | walking, searching and assembling a strip give a record meeting the strip's specification, or a failed walk, or, after successful walks and searches, exactly the strip's stop bars they left unfound |
| StripAssembly.Surround | src/Layout/Layout.py:971-1030 | the surroundings are searched only after both walks succeed |
| StripAssembly.Assemble | src/Layout/Layout.py:1031-1033 | after successful walks, the strip succeeds exactly when every stop bar of the strip was found by the walks or the searches around it; otherwise it fails with exactly the stop bars left over; a failed walk is passed on; both directions get the crossings, and ahead and behind are swapped for the second |
| StripAssembly.WalksBuilt | src/Layout/Layout.py:953-960 | the assembled record holds both walks, each direction's entries being the other's exits |
| StripAssembly.SurroundingsBuilt | src/Layout/Layout.py:1031-1033 | with no stop bar remaining, the record's surroundings meet their specification |
| StripAssembly.FirstDirection | src/Layout/Layout.py:888-960 | the first direction's record is a maximal heading-keeping chain from its threshold edge, with exits recorded from its rounds and mirrored as the second direction's entries |
| StripAssembly.SecondDirection | src/Layout/Layout.py:888-960 | the same for the second direction, although it was walked on the table the first left |
| StripAssembly.SecondExact | src/Layout/Layout.py:888-960 | when neither walk re-types a stop bar, the second walk's exits, their lengths and stop bars, and its exit stop-bar record are exact as seen from the table before both walks |
| RunwayData.RunwayEdges | src/Layout/Layout.py:1036-1040 | the runway edges are exactly the union of every strip's runway edges |
| RunwayData.MarkRunwayEdges | src/Layout/Layout.py:1041-1042 | exactly the runway edges and the edges already typed RWY are RWY edges afterwards; nothing else changes |
| RunwayData.CreateRunwayData | src/Layout/Layout.py:843-1044 | an unfiled special edge is an error; every error either names an edge of the graph whose special name files under no strip or runway, as a crossing error exactly when the name contains `crossing`, or is the failure of one strip after the strips before it were processed to their specification, a remaining-stop-bar error naming exactly the stop bars that strip's walks and searches left unfound; a success has a record per strip meeting its specification (maximal walks, exact exits when no stop bar is re-typed) and marks exactly the walked edges as runway edges |
| RunwayData.ProcessNext | src/Layout/Layout.py:873-1033 | one iteration of the strip loop: on success the next strip's record is appended and the tables chain on; on failure the error is that strip's own failure on the table the strips before it left |
| RunwayData.MarkWalked | src/Layout/Layout.py:1035-1042 | after every strip, marking the runway edges gives one of the results the source can produce, with the records and tables of the loop |
| RunwayData.ExitsAreOppositeEntries | src/Layout/Layout.py:948-960 | every exit of one direction is the reversed entry of the other, with the same length and stop bars; the same holds for the stop-bar node and edge sets |
| RunwayData.TwoDirections | src/Layout/Layout.py:888-897 | a processed strip has two directions, each threshold has exactly one outgoing edge, and the walk starts with it |
| RunwayData.StopbarsAccounted | src/Layout/Layout.py:971-1033 | every stop bar of the strip is an exit, entry, crossing, ahead or behind stop bar; the second direction has the same crossings and the swapped ahead and behind sets |
| RunwayData.ChainEdgesMarked | src/Layout/Layout.py:1035-1042 | every edge of both walks is an RWY edge afterwards |
| RunwayData.RunwayEdgesInGraph | src/Layout/Layout.py:962-969 | the runway edges are edges of the graph |
| Pushback.FindStart | src/Layout/Layout.py:1075-1079 | the first pool fragment starting at the chain's last node |
| Pushback.IndexOfKey | src/Layout/Layout.py:1083-1085 | `list.index`: the first position holding the key, none exactly when the key is absent |
| Pushback.RemoveAtCounts | src/Layout/Layout.py:1084-1086 | `pop` removes exactly one copy of the fragment |
| Pushback.Chain | src/Layout/Layout.py:1071-1086 | the chaining loop computes the chain specification |
| Pushback.ChainIsPath | src/Layout/Layout.py:1071-1086 | a chain starts at the given node and consecutive edges share their meeting node |
| Pushback.ChainFromPool | src/Layout/Layout.py:1071-1086 | a chain uses each pool fragment at most once |
| Pushback.ChainBound | src/Layout/Layout.py:1071-1086 | a chain has at most half as many edges as the pool |
| Pushback.ChainStart | src/Layout/Layout.py:1075-1079 | the chain stops at once only when no fragment starts at its node; otherwise it begins with the first that does |
| Pushback.PairedBalanced | src/Layout/Layout.py:473-520 | pools filed in pairs are balanced: each key is as frequent as its reverse |
| Pushback.BalancedChainSucceeds | src/Layout/Layout.py:1083-1086 | on a balanced pool the reverse is always found, so chaining never fails |
| Pushback.TwoFragmentChain | src/Layout/Layout.py:1071-1086 | an example: two fragment pairs chain into a two-edge path |
| Pushback.PushChainShape | src/Layout/Layout.py:1065-1088 | a push path starts with the stand edge, is linked, and has at most 1 + half the pool edges |
| Pushback.GatePushPaths | src/Layout/Layout.py:1064-1088 | the category loop computes the push paths of one gate |
| Pushback.PushChainsValues | src/Layout/Layout.py:1064-1088 | each category's push path is that category's chain |
| Pushback.PushAll | src/Layout/Layout.py:1057-1088 | the gate loop succeeds exactly when every gate's push step succeeds, and stores each gate's paths |
| Pushback.PairedPushChainsSucceed | src/Layout/Layout.py:1064-1088 | with paired pools, the push paths of every category succeed |
| Pushback.PullStepInherits | src/Layout/Layout.py:1097-1124 | a category without its own push path takes the Standard one; a stored pull path starts at the push path's last node and is linked |
| Pushback.PullChainLinked | src/Layout/Layout.py:1100-1124 | a stored pull path continues from the push path's end |
| Pushback.GatePullPaths | src/Layout/Layout.py:1096-1124 | the category loop computes the pull step of one gate |
| Pushback.PullGate | src/Layout/Layout.py:1092-1124 | one gate of the pull step |
| Pushback.PullAll | src/Layout/Layout.py:1092-1124 | the pull loop succeeds exactly when every gate's pull step succeeds, and stores each result |
| Pushback.PushAfterPull | src/Layout/Layout.py:1098-1099 | the push table keeps its gates; gates without pull paths keep their push paths |
| Pushback.BuildPaths | src/Layout/Layout.py:1056-1124 | the push and pull loops succeed exactly when every gate succeeds, and give the specified push and pull tables |
| Pushback.GroupChains | src/Layout/Layout.py:1147-1162 | the grouping loop computes the groups of a gate |
| Pushback.GroupsCover | src/Layout/Layout.py:1147-1162 | the groups' members, in order, are exactly ICAO-A to ICAO-F |
| Pushback.GroupsWellFormed | src/Layout/Layout.py:1147-1162 | the leading run has no paths of its own; every later run is led by its representative, which has a path, followed by categories without one |
| Pushback.GroupMap | src/Layout/Layout.py:1138-1161 | the groups dictionary holds exactly the member tuples that some group lists, each mapped to that group's representative |
| Pushback.Kept | src/Layout/Layout.py:1152-1154 | only the categories with a non-empty path are kept |
| Pushback.EntryOf | src/Layout/Layout.py:1170-1177 | a group's record has its representative's push path; it is push-pull exactly when the matching pull group has a non-empty path; a dropped representative is an error |
| Pushback.EntriesLoop | src/Layout/Layout.py:1170-1177 | the group loop of one gate computes its records |
| Pushback.AssembleGate | src/Layout/Layout.py:1147-1177 | one gate's records |
| Pushback.GateEntriesOk | src/Layout/Layout.py:1147-1177 | a gate's records can be built exactly when its Standard push path is non-empty |
| Pushback.EntryPaths | src/Layout/Layout.py:1166-1177 | every record's push path is its leading category's path, or the Standard path when that category has none; it is never empty |
| Pushback.EveryCategoryServed | src/Layout/Layout.py:1147-1177 | every ICAO category belongs to some record of the gate |
| Pushback.Assemble | src/Layout/Layout.py:1166-1177 | the ramp loop succeeds exactly when every gate's records can be built, and gives the specified records |
| Layouts.EnhancedTopology | src/Layout/Layout.py:762-838 | the enhanced graph is closed: every key has both ends among the nodes, and the adjacency and continuations name only known keys |
| Layouts.Layout.constructor | src/Layout/Layout.py:60-71 | a layout of the parsed airport with empty tables |
| Layouts.Layout.ImportNodes | src/Layout/Layout.py:114-305 | the node tables become the result of `import_nodes`, which is consistent, or the phase fails with its error; the edges are untouched |
| Layouts.Layout.ImportEdges | src/Layout/Layout.py:395-685 | the edge tables become the result of `import_edges`, which is sound, or the phase fails; the nodes are untouched |
| Layouts.Layout.EnhanceImports | src/Layout/Layout.py:762-838 | the enhancement tables and the node types become the enhanced ones exactly when enhancement succeeds; the resulting graph is closed |
| Layouts.Layout.CreateRunwayData | src/Layout/Layout.py:843-1044 | the runway records become one possible result of `create_runway_data`, and the node table the one its strips leave; or the phase fails with a runway error that is an unfiled special edge of the graph or the failure of one strip, as for RunwayData.CreateRunwayData |
| Layouts.Layout.CreatePushPullData | src/Layout/Layout.py:1049-1185 | push, pull and pushback records become the specified ones exactly when every gate succeeds; the other tables are untouched |
| Layouts.Open | src/Layout/Layout.py:60-102 | a bad file name or a failed node import fails the construction; a built layout carries the parsed airport name |

## Left out

- **Drawing and workbook input.** The XML traversal and attribute lookup of
  the drawing are not modelled. The phases receive the extracted markers,
  paths and strip records as inputs. Where the source reads the workbook
  (`info_dict`), only the names matter to the model: remote-holding spans,
  hold-to-pass and inbound flags, and the WTC table are left out.
- **Runway-threshold import.** The runway-threshold part of `import_nodes`
  (src/Layout/Layout.py:307-390) is not modelled. It locates threshold nodes
  by `np.isclose` on coordinates and gathers per-strip stop-bar sets. The
  threshold node, the strip's stop bars and its RET stop bars are inputs of
  `create_runway_data` instead.
- **Geometry and floating point.**
  - Path parsing, segment lengths, curvature and tangent headings are not
    modelled (src/Layout/Layout.py:535-626). Each edge's end headings and
    length are inputs.
  - The direction-heading test of the runway walk (`np.allclose`, line 910)
    is a given set of heading-keeping edges per direction.
  - The strip headings and bearings (lines 872-882) and
    `calc_heading_btw_coords` are not modelled.
  - Angles are exact reals: the `round` branch of
    `convert_heading_to_bearing` and the `round(rwy_length, 1)` of exits and
    entries are not modelled.
  - `calc_euclidean_dist` is modelled as its squared value, so the square
    root is not modelled.
- **Calibration and the rest of the class.** The calibration curves and
  transforms, `check_imports` (plots, prompts), `create_nx_graph`, timing,
  `print` warnings, the plotting module and the command-line driver are not
  part of this model.
- **Dictionary and set order.**
  - Tables are Dafny maps and sets, so the insertion order of `edges_dict`,
    including the final sort, is not modelled. The sort is kept only for the
    way it fails: a path open at both ends.
  - `edges_from_ramp` is a set, so a stand edge listed twice for one node is
    counted once.
  - Where the outcome depends on set iteration order, the model states what
    every order gives, or it takes the order as an input:
    - the `is_RET` flag of an exit keeps the last stop bar visited;
    - when two next edges of a round keep the heading, the walk goes on from
      the one listed last, and the order of the list is not fixed.
- **Termination.**
  - The runway walk and the exit search keep no visited set in the source,
    and can loop forever on a cycle. The model bounds each by the number of
    edges and reports `EndlessWalk` or `EndlessExitSearch` where the source
    would not return.
  - The crossing and go-around searches use a visited set. This gives the
    same result as the source's worklist whenever the source terminates.
- **Undefined inputs.** The following are preconditions (`…Readable`), not
  error paths:
  - a path without an `edgeNameFromXPlane` attribute: the name is a field of
    every path record (src/Layout/Layout.py:440-441);
  - a node number after `intersection_node_` or `termination_node_` is read
    only when it is all digits (`WellFormedRef`, `HoldingReadable`); the
    source's `int()` also accepts forms such as `+3`, `-3` or ` 3`, and
    raises on other text (src/Layout/Layout.py:119-136, 160-165, 409-415).
- **Temporary attributes.** The deletion of the temporary dictionaries at
  the end of `create_pushpull_data` is not modelled.
- Runways.SearchExit: it fixes the set of stop bars a search lists, not
  their order, which follows the order `list` gives the next edges; the
  `is_RET` flag is that of the stop bar listed last.
- RunwayData.CreateRunwayData: a success is a member of `Results`, the set
  of every result whose strips meet their specification, not a single
  result, because the source's result depends on the order of `set`
  iteration. The specification pins each walk down (it starts at the
  threshold edge, keeps the heading, ends where no next edge keeps it, and
  its length is the sum of its rounds' edges), but the exits are exact, with
  their lengths those walked, their stop bars those their searches collect and
  the exit stop-bar record exactly theirs, only under the hypothesis that
  neither walk of the strip re-types a node that was a stop bar (`Clear`). Without it the
  contract only says every recorded exit is a valid one. The contract also
  does not say that inputs without any cause of failure succeed.
- Runways.Round, Runways.WalkDirection, Runways.Rounds, RunwayStrips.WalkBoth:
  the exits, their stop bars and the exit stop-bar record are stated exactly
  only under the `Clear` hypothesis above; the walk itself is
  stated in full.
- RunwayStrips.WalkBoth: its `EndlessExitSearch` error is tied to an edge of
  the graph that does not keep the heading; that the search behind it is
  endless is stated by Runways.Visit and Runways.SearchAndRecord, one level
  down.
- EdgeNames.DecodeName: it removes the maxspan marker the corrected way
  (EdgeNames.StripMaxspan, see "## Findings"), not as the source writes it
  (EdgeNames.StripMaxspanAsWritten). For a token with a leading zero, such
  as `A_maxspan_07_TUD`, the model stores `A_TUD` and the edge name `A`,
  where the source keeps `A_maxspan_07_TUD` and `A_maxspan_07`.
- Edges.ImportPath, Edges.ImportPaths, Edges.ImportEdges: they decode names
  with EdgeNames.DecodeName, and so share its corrected maxspan handling.
- Edges.ImportPath, Edges.ImportPaths, Edges.ImportEdges: a `pb@`/`pull@`
  variant without `@d` is an `UnqualifiedVariant` error. The source raises
  `NameError` only when no earlier variant set `gates` and `sType`, and
  otherwise files the variant with those stale values
  (src/Layout/Layout.py:487-492, 505-511).
- Edges.ImportPath, Edges.ImportPaths, Edges.ImportEdges: a maxspan token is
  read only when it is all digits, and is otherwise an `UnreadableMaxspan`
  error. The source's `int()` also accepts forms such as `-7`, `+7` or ` 7`
  (src/Layout/Layout.py:444-445).
- EdgeProperties.RegisteredPath: the stored svg name and edge name are those
  of the corrected maxspan handling.
- Layouts.Layout.ImportEdges: it inherits the corrected maxspan handling of
  Edges.ImportEdges.
- Layouts.Open: it parses the file name with the corrected
  AirportId.ParseAirportName, so `ABCDE.svg` fails the construction, where
  the source accepts it as airport `ABCD` with version `ABCDE`
  (AirportId.ParseAirportNameAsWritten).
- RunwayStrips.FilingOf, RunwayStrips.FirstContained: an empty strip or
  runway name is contained in every edge name, so the model files a special
  edge under `""`. The source's `assert rwy_strip` and `assert rwy`
  (src/Layout/Layout.py:859, 868) fail on the empty name instead.
- Strings.Lower: it lowers ASCII letters only, where Python's `lower()`
  lowers every Unicode letter that has a lower case.
- Layouts.Open: it states only the airport-name and node-import outcomes
  directly. The later phases' outcomes are stated by the phase methods it
  calls.

## Findings

| source | as written | input that shows it | evidently intended | confidence | as-written member | corrected member |
|---|---|---|---|---|---|---|
| src/Layout/Layout.py:72-76 | a stem longer than four characters without `-` is split at `rfind('-') == -1`: the code becomes the stem minus its last character and the version the whole stem, and both assertions pass | `ABCDE.svg` gives airport `ABCD`, version `ABCDE` | refuse a stem over four characters that has no `-` separator | not executed | AirportId.FiveCharacterStemAccepted | AirportId.FiveCharacterStemRefused |
| src/Layout/Layout.py:444-446 | the maxspan marker is removed by rebuilding `_maxspan_` + `str(int(token))`, which differs from the written token when that has a leading zero, so the marker stays in the name | `A_maxspan_07_TUD` keeps its name, with limit 7 | remove the written marker: `A_TUD` with limit 7 | not executed | EdgeNames.LeadingZeroKeepsMarker | EdgeNames.LeadingZeroMarkerRemoved |
