# pathway-report: a Dafny model of the interactive core

pathway-report is a single-page report on AI exposure and career mobility.
Each job role sits in one of four quadrants of Personal Transition Risk (PTR)
and Network Flexibility Constraint (NFC): HH, HL, LH and LL. Most of the page
is narrative and animation. Under it sits a small amount of logic, and this
project models that logic and proves properties of it:

- `utils.dfy` (module `Utils`): `slugify` and the quadrant colour and label
  lookups, with their tables.
- `network_graph.dfy` (module `NetworkGraph`): the node-opacity filter, and
  edge resolution against the node set. Also the label truncation, stroke
  and height clamps, the node views the graph draws, the initial placement
  of simulation nodes, and the pinning of nodes while they are dragged.
- `network_data.dfy` (module `NetworkData`): the page-wide network cache.
  Also `useNetworkData`, `preloadNetworks`, the sector loader and its sort by
  HH share, and the stats, cascade and roles loaders with their fallbacks.
- `sector_deep_dive.dfy` (module `SectorDeepDive`): the sortable sector
  table, which has a sort key and direction, a sorted copy, a toggle for the
  one expanded row, the top-three cards, and the HH-share bars.
- `network_explorer.dfy` (module `NetworkExplorer`): the explorer's
  selection state. Also the choice of the initial sector with its preload,
  the tooltip and view precedence, and the counts under the graph.
- `quadrant_legend.dfy` (module `QuadrantLegend`): the four legend buttons
  and the quadrant toggle.
- `types.dfy` (module `Types`): the record types of the JSON data files.

Modelling choices:
- JavaScript numbers are `real`.
- Strings are sequences of characters, and lowercasing is ASCII only.
- `localeCompare` is lexicographic order on code points.
- A `fetch` is an abstract outcome: a payload, a response that is not ok, or
  a thrown value. Network loaders receive a function from request path to
  outcome.
- React state that a component or hook updates is a class whose methods
  update its fields. Each effect or handler is one atomic method call.

## Model

| member | source | states |
|---|---|---|
| Utils.Lower | src/lib/utils.ts:74 | Lowercasing keeps the length and maps each character on its own; only `A`-`Z` change |
| Utils.SkipRun | src/lib/utils.ts:75 | Skipping the rest of a separator run leaves nothing or a string that starts with `a-z` or `0-9` |
| Utils.SkipRunAlnums | src/lib/utils.ts:75 | Skipping a separator run drops no alphanumeric |
| Utils.CollapseRunsShape | src/lib/utils.ts:75 | After runs are collapsed, only `a-z`, `0-9` and `-` occur and no two hyphens are adjacent. The result is empty exactly when the input is, and it starts with `-` exactly when the input starts with a character outside `a-z0-9` |
| Utils.CollapseRunsAlnums | src/lib/utils.ts:75 | Collapsing keeps the alphanumerics of the input, in order |
| Utils.CollapseRunsSpec | src/lib/utils.ts:75 | Collapsing gives the maximal `a-z0-9` runs joined by single hyphens, with one more hyphen in front when the input starts outside `a-z0-9` and one at the end when it ends outside them after a run |
| Utils.CollapseRunPrefix | src/lib/utils.ts:75 | A leading run of `a-z0-9` is copied unchanged, and collapsing goes on after it |
| Utils.TrimHyphensSpec | src/lib/utils.ts:76 | The trim drops at most one leading hyphen and one trailing hyphen, and leaves an input with no edge hyphen unchanged |
| Utils.TrimmedIsSlug | src/lib/utils.ts:76 | Trimming one leading and one trailing hyphen from a collapsed string leaves no edge hyphen and keeps every alphanumeric |
| Utils.Slugify | src/lib/utils.ts:72-77 | The output is a slug: its characters are only `a-z`, `0-9` and `-`, with no doubled hyphen and no hyphen at either end. Deleting its hyphens gives exactly the alphanumerics of the lowercased input, in order |
| Utils.RunLength | src/lib/utils.ts:75 | The length of the leading `a-z0-9` run: every character before it is in `a-z0-9`, and the one after it is not |
| Utils.Runs | src/lib/utils.ts:75 | The maximal `a-z0-9` runs of a string, each non-empty and made only of `a-z0-9` |
| Utils.JoinHyphenEnds | src/lib/utils.ts:75-76 | Words joined by hyphens give the empty string exactly when there are no words; otherwise the result starts and ends with `a-z0-9` |
| Utils.TrimCollapseIsJoinedRuns | src/lib/utils.ts:75-76 | Collapsing and then trimming gives exactly the maximal `a-z0-9` runs joined by single hyphens |
| Utils.SlugifyIsJoinedRuns | src/lib/utils.ts:72-77 | `slugify(s)` equals the reference slug: the maximal `a-z0-9` runs of the lowercased text, joined by single hyphens |
| Utils.SlugifyIgnoresCase | src/lib/utils.ts:74 | `slugify(lower(s)) == slugify(s)` |
| Utils.LowerIdempotent | src/lib/utils.ts:74 | Lowercasing twice is lowercasing once |
| Utils.CollapseRunsFixpoint | src/lib/utils.ts:75 | A string of slug characters with no doubled hyphen is unchanged by collapsing |
| Utils.SlugIsFixpoint | src/lib/utils.ts:72-77 | A slug is its own slug |
| Utils.SlugifyIdempotent | src/lib/utils.ts:72-77 | `slugify(slugify(s)) == slugify(s)` |
| Utils.SlugifyEmptyIff | src/lib/utils.ts:72-77 | The slug is empty exactly when the lowercased text has no ASCII letter or digit |
| Utils.AlnumsAppendHyphen | src/lib/utils.ts:75 | A hyphen added by the rewrite adds no alphanumeric |
| Utils.QuadrantColor | src/lib/utils.ts:8-13 | No quadrant's colour is the fallback grey `#6B7280` |
| Utils.QuadrantColorsDistinct | src/lib/utils.ts:8-13 | No two quadrants share a colour |
| Utils.ParseCode | src/lib/utils.ts:8-13 | A string names a quadrant exactly when it is that quadrant's two-letter code |
| Utils.GetQuadrantColor | src/lib/utils.ts:64-66 | The colour table (lines 8-13) gives the colour for HH, HL, LH and LL; `#6B7280` for every other string |
| Utils.GetQuadrantLabel | src/lib/utils.ts:68-70 | The label table (lines 38-43) gives the label for the four codes; the input string itself for every other string |
| Utils.JsOr | src/lib/utils.ts:65 | The JavaScript or-operator yields its left operand when that is truthy and its right one otherwise |
| Utils.PropertyOf | src/lib/utils.ts:65 | Indexing an object literal gives its own property. Otherwise it gives `undefined`, unless the key names an `Object.prototype` member: then it gives that member, which is not a string |
| Utils.OwnKeyNotInherited | src/lib/utils.ts:8-13 | No key of the colour or label table names an `Object.prototype` member |
| Utils.GetQuadrantColorAsWritten | src/lib/utils.ts:64-66 | The lookup as written always gives a truthy value. It gives a string exactly when the key is not an `Object.prototype` member |
| Utils.GetQuadrantLabelAsWritten | src/lib/utils.ts:68-70 | The lookup as written gives a string exactly when the key is not an `Object.prototype` member |
| Utils.ColorAsWrittenAgreesOffPrototype | src/lib/utils.ts:64-66 | For every key that is not an `Object.prototype` member, the lookup as written returns the colour of the corrected lookup |
| Utils.LabelAsWrittenAgreesOffPrototype | src/lib/utils.ts:68-70 | The same for the label lookup |
| Utils.ColorLookupLeaksPrototype | src/lib/utils.ts:64-66 | For `"toString"` the lookup as written returns a function, where the default colour is intended |
| Utils.LabelLookupLeaksPrototype | src/lib/utils.ts:68-70 | For `"constructor"` the lookup as written returns a function, where the input string is intended |
| NetworkGraph.NodeOpacity | src/components/NetworkGraph.tsx:63-83 | The opacity is always 1, 0.15 or 0.1, so it is positive. It is 1 exactly when the node matches both the quadrant filter and the search filter |
| NetworkGraph.ContainsSpec | src/components/NetworkGraph.tsx:68-69 | `includes` holds exactly when the term occurs in the string at some position |
| NetworkGraph.OpacityTable | src/components/NetworkGraph.tsx:63-80 | With no filter every node has opacity 1. With only a quadrant, 1 for its nodes and 0.15 otherwise. With only a search term, 1 when the lowercased label contains the lowercased term or `soc` contains the term as typed, and 0.15 otherwise. With both, 1 when both match and 0.1 otherwise |
| NetworkGraph.FiltersComposeWithAnd | src/components/NetworkGraph.tsx:71-73 | Under both filters a node is fully visible exactly when it is fully visible under each filter alone |
| NetworkGraph.NodeIndexSpec | src/components/NetworkGraph.tsx:113 | The id map holds exactly the node ids. Each id maps to a node with that id, and a repeated id maps to its last node |
| NetworkGraph.IdsOfSnoc | src/components/NetworkGraph.tsx:113 | Appending a node adds exactly its id to the set of ids |
| NetworkGraph.ResolveEdges | src/components/NetworkGraph.tsx:115-124 | At most as many edges come out as go in, and every endpoint is a node of the map |
| NetworkGraph.SimEdges | src/components/NetworkGraph.tsx:113-124 | Every resolved edge has both endpoints among the nodes |
| NetworkGraph.ResolveEdgesMatchKnown | src/components/NetworkGraph.tsx:115-124 | Resolution against any correct id map keeps exactly the edges whose two endpoint ids are known, in input order and with their weights |
| NetworkGraph.ResolvedLength | src/components/NetworkGraph.tsx:115-124 | Resolution keeps exactly one edge per input edge whose two endpoint ids are known |
| NetworkGraph.ResolvedAt | src/components/NetworkGraph.tsx:115-124 | The k-th resolved edge has the weight of the k-th known input edge, and its endpoints are nodes carrying that edge's ids |
| NetworkGraph.ResolvedEdgesMatchKnown | src/components/NetworkGraph.tsx:113-124 | The resolved edges are exactly the input edges with both endpoints known, in order. Each keeps its weight, and its endpoints are nodes carrying those ids |
| NetworkGraph.KnownEdgesAllIff | src/components/NetworkGraph.tsx:119-124 | No edge is dropped exactly when every edge has both endpoints known |
| NetworkGraph.SimEdgesDropUnknown | src/components/NetworkGraph.tsx:113-124 | The edge count is kept exactly when no edge has an unknown endpoint |
| NetworkGraph.LabelText | src/components/NetworkGraph.tsx:200 | A label of at most 20 characters is unchanged. A longer one becomes its first 18 characters and `...`, so no label is longer than 21 |
| NetworkGraph.LabelTextIdempotent | src/components/NetworkGraph.tsx:200 | Truncating a truncated label changes nothing |
| NetworkGraph.StrokeWidth | src/components/NetworkGraph.tsx:151 | The width is the larger of 1 and twice the weight |
| NetworkGraph.StrokeWidthMonotone | src/components/NetworkGraph.tsx:151 | A heavier edge is never drawn thinner |
| NetworkGraph.GraphHeight | src/components/NetworkGraph.tsx:52 | The height is the smaller of 700 and three quarters of the width |
| NetworkGraph.Links | src/components/NetworkGraph.tsx:140-151 | One line per resolved edge, in order, each `StrokeWidth` of its edge's weight wide, so at least 1 |
| NetworkGraph.RenderScene | src/components/NetworkGraph.tsx:87-200 | With an empty node list the effect returns before clearing, and the canvas keeps what it showed. Otherwise one circle per node: radius the node's size, fill its quadrant's colour, opacity `NodeOpacity`, always positive, so filtering dims and never removes. A caption exactly when `size > 12`, reading `LabelText` of the label, at most 21 characters. The lines are `Links` of the resolved edges, and each joins two drawn nodes |
| NetworkGraph.SceneLinksAreKnownEdges | src/components/NetworkGraph.tsx:113-151 | The lines drawn are exactly the input edges with both endpoint ids known, in order. Each joins nodes carrying those ids and is as wide as its edge's weight says |
| NetworkGraph.Simulation.constructor | src/components/NetworkGraph.tsx:128 | A new simulation has alpha target 0 |
| NetworkGraph.SimNode.constructor | src/components/NetworkGraph.tsx:107-111 | A simulation node carries its role and its position and is not pinned |
| NetworkGraph.CreateSimNodes | src/components/NetworkGraph.tsx:107-111 | One fresh simulation node per role, in order, unpinned, within 50 of the centre on each axis |
| NetworkGraph.DragStarted | src/components/NetworkGraph.tsx:156-160 | The node is pinned where it is. The simulation is reheated to 0.3 only when no other drag is active |
| NetworkGraph.Dragged | src/components/NetworkGraph.tsx:161-164 | The pin follows the cursor; the position is left to the simulation |
| NetworkGraph.DragEnded | src/components/NetworkGraph.tsx:165-169 | Both pins are released, and the simulation cools to 0 only when no other drag is active |
| NetworkData.Caught | src/hooks/useNetworkData.ts:40-41 | An `Error` keeps its message; any other thrown value becomes `Unknown error` |
| NetworkData.FailureOf | src/hooks/useNetworkData.ts:33-41 | A response that is not ok gives the loader's own message; a thrown value is caught as above |
| NetworkData.NetworkPath | src/hooks/useNetworkData.ts:27-32 | The requested file is `data/networks/<slugify(sector)>.json`, and its name part is a slug |
| NetworkData.Preloaded | src/hooks/useNetworkData.ts:165-183 | A preload adds no key other than the listed sectors |
| NetworkData.PendingSectors | src/hooks/useNetworkData.ts:165-175 | A preload issues at most one request per listed sector |
| NetworkData.PendingSectorsSpec | src/hooks/useNetworkData.ts:165-175 | A sector is requested exactly when it is listed and was absent from the cache when the preload started |
| NetworkData.PreloadStep | src/hooks/useNetworkData.ts:165-183 | One more listed sector adds its entry exactly when it was absent and its request succeeded, and adds one request exactly when it was absent |
| NetworkData.PreloadedExtends | src/hooks/useNetworkData.ts:165-183 | A preload never removes or rewrites an entry |
| NetworkData.PreloadedAddsOnlyFetched | src/hooks/useNetworkData.ts:176-182 | Every entry a preload adds is a listed sector whose request succeeded, mapped to the fetched network |
| NetworkData.PreloadedAddsAllFetched | src/hooks/useNetworkData.ts:176-182 | Every listed sector that was absent and whose request succeeded ends in the cache |
| NetworkData.PreloadedSpec | src/hooks/useNetworkData.ts:165-183 | A preload never removes or rewrites an entry. Every entry it adds is a listed sector that was absent and whose request succeeded, mapped to the fetched network. Every such sector is added |
| NetworkData.PreloadAllFailing | src/hooks/useNetworkData.ts:180-182 | When every request fails the cache is unchanged: failures are swallowed |
| NetworkData.NetworkCache.constructor | src/hooks/useNetworkData.ts:5 | The cache starts empty |
| NetworkData.NetworkCache.Preload | src/hooks/useNetworkData.ts:165-183 | The sectors requested are the absent ones in list order, checked against the cache as it was at the call, and each is requested at its slug file. The new cache is the preload specification above, so it only grows |
| NetworkData.NetworkState.constructor | src/hooks/useNetworkData.ts:8-10 | No data, loading, no error |
| NetworkData.NetworkState.Load | src/hooks/useNetworkData.ts:12-50 | An empty sector does nothing. A cached sector is shown at once, with no request and with the error left as it was. Otherwise the slug file is requested and loading ends false. On success the network is cached and shown and the error is cleared. On failure the error is set, and the cache and data are unchanged |
| NetworkData.NetworkState.LoadResettingError | src/hooks/useNetworkData.ts:15-23 | As `Load`, except that a cache hit also clears the error |
| NetworkData.Ties | src/hooks/useNetworkData.ts:68 | The summaries with one given share, in list order: never more than the list holds, each with that share |
| NetworkData.TiesConcat | src/hooks/useNetworkData.ts:68 | The ties of a concatenation are the ties of each part, in order |
| NetworkData.SwapKeepsTies | src/hooks/useNetworkData.ts:68 | Exchanging two neighbours with different shares changes no list of ties |
| NetworkData.StableOrderIsUnique | src/hooks/useNetworkData.ts:68 | Two lists that are both ordered by share, are permutations of each other and have the same ties for every share are equal. So the sort's three ensures fix its result: the order a stable sort gives |
| NetworkData.SortByHhShareDesc | src/hooks/useNetworkData.ts:68 | In place, the array ends ordered by HH share, non-increasing, and is a permutation of what it held. Summaries with equal shares keep their relative order: the sort is stable |
| NetworkData.SiftLeft | src/hooks/useNetworkData.ts:68 | One insertion step: given an ordered prefix, the prefix one longer ends ordered. The array stays a permutation and keeps the order of equal shares |
| NetworkData.SiftStep | src/hooks/useNetworkData.ts:68 | Moving the summary one place left past a smaller share keeps the insertion step's invariant |
| NetworkData.SiftedPrefixSorted | src/hooks/useNetworkData.ts:68 | Where the insertion step stops, the whole prefix is in order |
| NetworkData.SwapAdjacent | src/hooks/useNetworkData.ts:68 | Two neighbours change places and nothing else moves. The array stays a permutation, and when the two shares differ every list of ties is unchanged |
| NetworkData.SectorsState.constructor | src/hooks/useNetworkData.ts:56-58 | No sectors, loading, no error |
| NetworkData.SectorsState.Load | src/hooks/useNetworkData.ts:60-78 | On success the sectors are the payload stably reordered by HH share, non-increasing, and the previous error is kept. On failure the error is set and the sectors are kept. Loading ends false |
| NetworkData.StatsState.constructor | src/hooks/useNetworkData.ts:84-85 | No stats, loading |
| NetworkData.StatsState.Load | src/hooks/useNetworkData.ts:87-110 | Stats are always present afterwards. They are the payload on success; on failure they are the fallback: 15759 roles, 20 sectors, correlation 0.10, 6398 HH roles, share 0.406, no distribution |
| NetworkData.CascadeState.constructor | src/hooks/useNetworkData.ts:116-117 | No results, loading |
| NetworkData.CascadeState.Load | src/hooks/useNetworkData.ts:119-134 | The payload on success and the empty list on failure; loading ends false |
| NetworkData.RolesState.constructor | src/hooks/useNetworkData.ts:140-142 | No roles, loading, no error |
| NetworkData.RolesState.Load | src/hooks/useNetworkData.ts:144-159 | On success the roles are the payload. On failure the error is `Failed to load roles` or the caught error, and the roles are kept. Loading ends false |
| SectorDeepDive.StrLeTotal | src/sections/SectorDeepDive.tsx:24-28 | Any two sector names are comparable |
| SectorDeepDive.StrLeAntisymmetric | src/sections/SectorDeepDive.tsx:24-28 | Two names each at most the other are equal |
| SectorDeepDive.StrLeTransitive | src/sections/SectorDeepDive.tsx:24-28 | The string order is transitive |
| SectorDeepDive.MayPrecedeTotal | src/sections/SectorDeepDive.tsx:20-33 | For every key and direction, the comparator orders any two sectors one way or the other |
| SectorDeepDive.MayPrecedeTransitive | src/sections/SectorDeepDive.tsx:20-33 | The comparator is transitive for every key and direction |
| SectorDeepDive.Insert | src/sections/SectorDeepDive.tsx:20 | Inserting adds exactly the one element |
| SectorDeepDive.InsertKeepsSorted | src/sections/SectorDeepDive.tsx:20-33 | Inserting into a sorted list keeps it sorted |
| SectorDeepDive.SortSectors | src/sections/SectorDeepDive.tsx:19-34 | The sorted copy is a permutation of the sectors, ordered by the comparator; the input list is a value and is left as it was |
| SectorDeepDive.SortedSectorsOrder | src/sections/SectorDeepDive.tsx:24-32 | Numeric columns come out non-decreasing for `asc` and non-increasing for `desc`. Sector names come out in string order, reversed for `desc` |
| SectorDeepDive.NextSort | src/sections/SectorDeepDive.tsx:36-43 | After a click the sort key is the clicked column. The same column flips the direction; a different column starts `desc`, whatever the direction was |
| SectorDeepDive.SortTwiceRestores | src/sections/SectorDeepDive.tsx:36-39 | Clicking the current column twice returns to the direction before |
| SectorDeepDive.AtMostOneExpanded | src/sections/SectorDeepDive.tsx:172 | With distinct sector names at most one row is expanded |
| SectorDeepDive.Highlights | src/sections/SectorDeepDive.tsx:120-126 | The cards are the first `min(3, n)` sorted rows, ranked 1, 2, 3 |
| SectorDeepDive.HighlightsLeadTheTable | src/sections/SectorDeepDive.tsx:120-126 | Every card sector may precede every row below it in the table order |
| SectorDeepDive.MaxHhShare | src/sections/SectorDeepDive.tsx:178 | The maximum is at least every share and is one of them |
| SectorDeepDive.BarWithinFull | src/sections/SectorDeepDive.tsx:279 | A share between 0 and the maximum gives a bar between 0 and 100 percent |
| SectorDeepDive.FullBar | src/sections/SectorDeepDive.tsx:279 | The maximum share fills its bar |
| SectorDeepDive.BarWidthsWithinFull | src/sections/SectorDeepDive.tsx:279 | With non-negative shares and a positive maximum, every bar is between 0 and 100 percent and one bar is full |
| SectorDeepDive.TableState.constructor | src/sections/SectorDeepDive.tsx:15-17 | Initial sort by HH share, descending, no row expanded |
| SectorDeepDive.TableState.Rows | src/sections/SectorDeepDive.tsx:19-34 | The rows are a permutation of the sectors, sorted by the current key and direction |
| SectorDeepDive.TableState.HandleSort | src/sections/SectorDeepDive.tsx:36-43 | Key and direction move as `NextSort` says; the expanded row is kept |
| SectorDeepDive.TableState.ToggleRow | src/sections/SectorDeepDive.tsx:173-177 | The expanded row is toggled at the clicked row: clicking the expanded row collapses it, any other row is expanded in its place. The sort is kept |
| NetworkExplorer.PreloadList | src/sections/NetworkExplorer.tsx:26 | The names of the first `min(5, n)` sectors, in order |
| NetworkExplorer.InitialSectorIsPreloaded | src/sections/NetworkExplorer.tsx:24-26 | The first chosen sector is among those preloaded, so it is cached once its request succeeds |
| NetworkExplorer.Tooltip | src/sections/NetworkExplorer.tsx:185 | The tooltip shows the hovered node when there is one, otherwise the selected node. It is empty only when both are |
| NetworkExplorer.ViewOf | src/sections/NetworkExplorer.tsx:164-192 | Loading wins over an error, an error over the data, and the data over nothing. Each view holds exactly under its condition, and the graph shows the loaded network |
| NetworkExplorer.NodesIn | src/sections/NetworkExplorer.tsx:239 | The filter keeps exactly the nodes of the quadrant |
| NetworkExplorer.NodesInCounts | src/sections/NetworkExplorer.tsx:239 | The filter keeps each node of the quadrant as many times as the list holds it, and no other node |
| NetworkExplorer.NodesInKeepsOrder | src/sections/NetworkExplorer.tsx:239 | The filter keeps list order: filtering a concatenation filters each part |
| NetworkExplorer.QuadrantCountsPartition | src/sections/NetworkExplorer.tsx:239 | The four quadrant counts add up to the node count |
| NetworkExplorer.SummaryOf | src/sections/NetworkExplorer.tsx:232-242 | The Total Roles card is the node count. The HH card is the HH-node count, never above it |
| NetworkExplorer.AllHighHighIff | src/sections/NetworkExplorer.tsx:234-239 | The two cards are equal exactly when every role is HH |
| NetworkExplorer.Explorer.constructor | src/sections/NetworkExplorer.tsx:15-19 | No sector, no quadrant, empty search, no hovered or selected node |
| NetworkExplorer.Explorer.InitialSector | src/sections/NetworkExplorer.tsx:22-28 | When sectors exist and none is chosen, the first one is chosen and the first five are preloaded. Otherwise nothing changes: an existing choice is never overwritten |
| NetworkExplorer.Explorer.HandleNodeClickAsWritten | src/sections/NetworkExplorer.tsx:32-34 | Clicking the selected object clears the selection; any other object becomes the selection |
| NetworkExplorer.Explorer.HandleNodeClick | src/sections/NetworkExplorer.tsx:32-34 | Clicking the selected role, compared by id, clears the selection; any other role becomes the selection |
| NetworkExplorer.Explorer.HandleNodeHover | src/sections/NetworkExplorer.tsx:181 | The hovered node is the one the graph reports; nothing else changes |
| NetworkExplorer.Explorer.HandleSectorChange | src/sections/NetworkExplorer.tsx:36-40 | The new sector is chosen and both the hovered and the selected node are cleared, so no tooltip remains |
| NetworkExplorer.SecondClickAsWritten | src/sections/NetworkExplorer.tsx:32-34 | After the graph rebuilds its nodes, a second click on the same role leaves it selected |
| NetworkExplorer.SecondClick | src/sections/NetworkExplorer.tsx:32-34 | With roles compared by id, the second click clears the selection |
| NetworkExplorer.ReturnToCachedSectorAsWritten | src/hooks/useNetworkData.ts:15-23 | Showing cached sector `b` after a failed load of `a` shows the error view |
| NetworkExplorer.ReturnToCachedSector | src/hooks/useNetworkData.ts:15-23 | With the error cleared on a cache hit, the same steps show `b`'s graph |
| Types.Toggle | src/components/QuadrantLegend.tsx:36 | Clicking the current choice clears it; clicking anything else chooses that. The legend's quadrant filter and the table's expanded row (src/sections/SectorDeepDive.tsx:173-177) both use it |
| QuadrantLegend.Click | src/components/QuadrantLegend.tsx:36 | A value is sent exactly when there is a handler, and it is the selection toggled at the clicked quadrant |
| Types.ToggleTwice | src/components/QuadrantLegend.tsx:36 | Two clicks on one choice restore it exactly when nothing or that choice was chosen; from another choice they end with nothing chosen |
| QuadrantLegend.Legend | src/components/QuadrantLegend.tsx:31-57 | Four buttons in the order HH, HL, LH, LL. They are disabled exactly when there is no handler, and each has its quadrant's colour. Each shows the description when descriptions are on, otherwise the label |
| QuadrantLegend.LegendListsEachQuadrantOnce | src/components/QuadrantLegend.tsx:12-31 | Every quadrant has exactly one button |
| QuadrantLegend.RingAndDimming | src/components/QuadrantLegend.tsx:42-43 | Only the selected quadrant has the ring. With a selection every other button is dimmed; without one, none is. No button is both |
| QuadrantLegend.AtMostOneRing | src/components/QuadrantLegend.tsx:42 | At most one button has the ring |
| QuadrantLegend.ClickMovesRing | src/components/QuadrantLegend.tsx:36-42 | After a click on a quadrant, it has the ring exactly when it was not selected before |

## Left out

- The d3 force simulation, zoom and pan, the initial zoom, and per-tick redrawing are not modelled. They are a foreign library running floating-point physics. The random jitter of the initial positions is a parameter of `CreateSimNodes`.
- `simulation.restart()` on drag start is not modelled; only the alpha target is.
- `fetch`, `response.json()` and the `BASE_URL` prefix are not modelled. A request is an abstract outcome keyed by its path, which starts at `data/`.
- Asynchronous interleaving is not modelled. Each effect or handler runs to completion as one method, and in-flight loads for different sectors do not race. The source has no staleness guard and the model adds none.
- A preload's requests may complete in any order. The model applies them in list order, which gives the same cache, because each request writes a different key or writes the same payload again.
- A network file whose JSON is `null` is not modelled. It would be cached as a falsy value and fetched again; the model caches any successful payload.
- Number formatting with `Intl`, `toLocaleString` and `toFixed` is not modelled. Neither are the average PTR and NFC cards, which divide by the node count and give `NaN` for an empty graph.
- JavaScript doubles are modelled as exact reals: no rounding, no `NaN`, no infinities.
- Unicode lowercasing is not modelled. Only `A`-`Z` are lowercased, and lengths count characters, not UTF-16 code units.
- `localeCompare` is modelled as code-point order. The browser's collation may order accented or mixed-case names differently.
- SectorDeepDive.SortSectors: stability is not stated. Rows that compare equal are ordered by the insertion sort's placement, and the contract does not promise that input order is kept.
- SectorDeepDive.BarWidthsWithinFull: the bar widths are proved only for a positive maximum share. When every share is 0, `0 / 0` gives `NaN` in the source.
- The search box and the legend's `onSelect` are plain setters of the explorer's `searchTerm` and `selectedQuadrant`; they have no methods of their own.
- `cn` and the CSS class strings are not modelled, beyond the ring, dimming and disabled conditions of the legend.
- Not modelled: scroll-triggered animation, the navigation bar, the methodology accordion, and the static narrative sections.

## Findings

| source | as written | input that shows it | evidently intended | confidence | as-written member | corrected member |
|---|---|---|---|---|---|---|
| src/lib/utils.ts:64-70 | The colour and label tables are object literals indexed by any string, so a key naming an `Object.prototype` member finds that member. The member is truthy, so the fallback never applies | `getQuadrantColor("toString")` returns a function; `getQuadrantLabel("constructor")` returns a function | The default colour, and the input string, for every key outside the four codes | high, not executed | Utils.ColorLookupLeaksPrototype, Utils.LabelLookupLeaksPrototype | Utils.GetQuadrantColor, Utils.GetQuadrantLabel |
| src/sections/NetworkExplorer.tsx:32-34 | The handler compares the clicked node with the selected one by identity. It is a new function on every render and a dependency of the graph effect (src/components/NetworkGraph.tsx:238). The click's re-render therefore rebuilds every node object (src/components/NetworkGraph.tsx:107-111) | Click a node, then click the same role again | The second click clears the selection | medium, not executed | NetworkExplorer.SecondClickAsWritten | NetworkExplorer.SecondClick |
| src/hooks/useNetworkData.ts:15-20 | A cache hit sets data and loading but not `error`, so an error from the previous sector stays | Open sector `b`, switch to `a`, whose file fails, then switch back to the cached `b` | `b`'s graph is shown, since the error belongs to `a` | high, not executed | NetworkExplorer.ReturnToCachedSectorAsWritten | NetworkExplorer.ReturnToCachedSector |
