# Production-engineering process graph, modelled in Dafny

The system is a browser tool with a tiny backend. It lets production engineers
browse a library of processes (main and partial processes), building blocks,
storage locations and notes, as a flowchart or as a mind map. The library
comes from a JSON "solution library" export, or from a pasted dependency table
(a main process and its sub-processes). A backend endpoint stores the library
and repeats the dependency upsert on its side.

The model covers the core of the tool:

- **Types** (`types.dfy`): the record shapes of `src/utils/types.ts`, with the
  node, edge and process kinds as datatypes. `EdgeKey`, the
  `from->to:type` string the store uses to de-duplicate edges, is kept as
  written, string collisions included.
- **Text** (`text.dfy`): the JavaScript string built-ins the core relies on:
  `trim` with ECMAScript's white-space set, `toLowerCase`, `split` on a
  character class, `padStart` and the decimal form of a number.
- **I18n** (`i18n.dfy`): `translateLabel` and `toCanonicalKeyword`.
- **Grouping** (`grouping.dfy`): the insertion-ordered `Map<number, T[]>` both
  canvases fill, and `Math.max` and `Math.min` over its keys.
- **FlowchartLayout** (`flowchart_layout.dfy`): `computeDepths`, with its
  seeding, its relaxation loop capped at 1000 passes and its per-type
  defaults, plus the column layout memo and the node label of
  `FlowchartCanvas.tsx`.
- **MindMapLayout** (`mindmap_layout.dfy`): the breadth-first levels of
  `MindMapCanvas.tsx`, proved to be shortest path lengths from the first node,
  and the ring layout.
- **Parsers** (`parsers.dfy`): `parseArrayField`, `parseRangeOrList` and the
  solution-library JSON import. **LibraryMindMap** (`library_mindmap.dfy`):
  `buildMindMapFromLibrary`, proved to build a tree rooted at the catalogue
  node. The tree is over the pushed positions: each node after the root gets
  exactly one `contains` edge, from a node pushed before it. Node ids need not
  be distinct, since duplicate process or block ids in the library give
  duplicate `proc:` or `bb:` ids, as they do in the source. The statement about
  ids (`TreeIncoming`) holds for a chart whose ids are distinct, and the model
  does not prove when the library's mind map has distinct ids.
- **StoreSpec** (`store_spec.dfy`) and **FlowchartStore** (`store.dfy`):
  - StoreSpec holds the store's actions as functions over the library and the
    display: expand, collapse/toggle, start from a process, set a problem,
    automate, and search.
  - FlowchartStore holds the store as a class whose methods are proved
    against those functions. It also holds the loops of `toggleNode` and
    `importDependencies`.
- **Merge** (`merge.dfy`): `mergeById` and `mergeEdges`.
- **Upsert** (`upsert.dfy`) and **Server** (`server.dfy`): the `ensureProcess`
  upsert shared by the store and `backend/server.js`, and the two POST
  handlers.
- **Assistant** (`assistant.dfy`): the scoring and ranking of
  `suggestProcesses`, with the built-in stable sort as an insertion sort.
- **DependencyParser** (`dependency_parser.dfy`): `parseCell` and
  `parseDependencyTable`.

Three modelling notes:

- JavaScript `Map`s and `Set`s iterate in insertion order, so the model keeps
  them as sequences, or as a map paired with a key order.
- The canvases' layout numbers are reals.
- The model follows the code where its comments say otherwise:
  - In `toggleNode`, the comment says the clicked node is excluded from the
    descendants. On a cycle it is not (`StoreSpec.CollapseReachesRootOnCycle`).
  - The store keeps an empty id (`id ?? …`), while the server replaces it
    (`id || …`) (`Server.EmptyIdDiverges`).

## Model

| member | source | states |
|---|---|---|
| Types.EdgeTypeName | src/utils/types.ts:55 | an edge type is one of the three spellings `contains`, `uses`, `solved-by` |
| Types.ParseEdgeType | src/utils/types.ts:55 | a string denotes an edge type exactly when it is one of the three spellings |
| Types.EdgeTypeNameRoundTrip | src/utils/types.ts:52-56 | reading back the spelling of an edge type gives that type |
| Types.ProcessKindName | src/utils/types.ts:12 | a process kind is spelled `Hauptprozess` or `Teilprozess` |
| Types.NodeTypeName | src/utils/types.ts:1-7 | a node type is one of the six spellings of `NodeType` |
| Types.NodeIds | src/store/useFlowchartStore.ts:99 | the set of displayed ids holds exactly the ids of the given nodes |
| Types.EdgeKeys | src/store/useFlowchartStore.ts:100 | the edge-key set holds exactly the `from->to:type` keys of the given edges |
| Text.Lower | src/utils/i18n.ts:38 | lower-casing keeps the length and maps every character on its own |
| Text.LowerChar | src/utils/i18n.ts:38 | lower-casing a character keeps it white space, or a digit, exactly when it was one |
| Text.LowerIdempotent | src/utils/i18n.ts:38 | lower-casing twice is lower-casing once |
| Text.Trim | src/utils/i18n.ts:38 | the trimmed text is a slice of the input with only white space cut on both sides, has no white space at its ends, and is empty exactly when the input is all white space |
| Text.TrimIdempotent | src/utils/dependencyParser.ts:9 | trimming twice is trimming once |
| Text.TrimOfTrimmed | src/utils/dependencyParser.ts:13 | trimming text with no white space at its ends changes nothing |
| Text.LowerKeepsTrimmed | src/utils/i18n.ts:38 | lower-casing trimmed text leaves it trimmed |
| Text.SplitOn | src/utils/parsers.ts:77 | splitting yields at least one piece, and no piece holds a separator |
| Text.SplitJoin | src/utils/parsers.ts:76-79 | splitting pieces joined by a separator gives the pieces back |
| Text.PadZeros | src/utils/parsers.ts:234 | `padStart(w, '0')` ends with the input, reaches the width and pads only with zeros |
| Text.NatToString | src/utils/parsers.ts:234 | `String(i)` is a non-empty run of digits without a leading zero |
| Text.NatToStringValue | src/utils/parsers.ts:234 | the decimal form of a number denotes that number |
| Text.PadZerosValue | src/utils/parsers.ts:234 | zero-padding the decimal form keeps the number it denotes |
| I18n.TranslateLabel | src/utils/i18n.ts:32-35 | empty text stays empty, a dictionary key becomes its English entry, and any other text is kept |
| I18n.TranslationsThatAreKeys | src/utils/i18n.ts:1-30 | the only translations that are keys themselves are `Vision` and `Software`, which translate to themselves |
| I18n.DictionaryEntriesListed | src/utils/i18n.ts:1-30 | every translation is one of the dictionary's listed English entries |
| I18n.TranslateIdempotent | src/utils/i18n.ts:32-35 | translating an already translated label changes nothing |
| I18n.ToCanonicalKeyword | src/utils/i18n.ts:37-56 | the keyword is trimmed and lower-cased, then mapped to its canonical English form when it has one and kept otherwise; the result is trimmed and lower case |
| I18n.CanonicalValuesAreKeys | src/utils/i18n.ts:39-54 | every canonical form maps to itself |
| I18n.CanonicalValuesInKeys | src/utils/i18n.ts:39-54 | every canonical form is itself a key of the keyword map |
| I18n.CanonicalKeysAreLowerWords | src/utils/i18n.ts:39-54 | every key of the keyword map is trimmed, lower-case text |
| I18n.CanonicalIdempotent | src/utils/i18n.ts:37-56 | canonicalising twice is canonicalising once |
| I18n.BilingualSpellingsAgree | src/utils/i18n.ts:42-43 | the German `Drucken` and the English `printing` have the same canonical form |
| I18n.CanonicalOfTrimmed | src/utils/i18n.ts:38 | trimmed input is looked up by its lower-case form alone |
| Grouping.Grouped | src/components/FlowchartCanvas.tsx:66-71 | grouping lists each key once, gives each key a list, and lists exactly the keys that have one |
| Grouping.Distinct | src/components/FlowchartCanvas.tsx:66-71 | the keys in order of first appearance hold each key of the input once |
| Grouping.GroupedContents | src/components/FlowchartCanvas.tsx:66-71 | the groups come in order of the keys' first appearance, and each group holds exactly the elements of its key, in input order |
| Grouping.SelectHas | src/components/FlowchartCanvas.tsx:70 | every element lands in the group of its own key |
| Grouping.SelectKeys | src/components/FlowchartCanvas.tsx:70 | a group holds only elements of its key |
| Grouping.GroupedSize | src/components/FlowchartCanvas.tsx:66-71 | the group sizes add up to the number of elements |
| Grouping.MaxKey | src/components/FlowchartCanvas.tsx:74 | `Math.max(...keys, 0)` is at least 0 and every key, and is 0 or one of the keys |
| Grouping.MinKey | src/components/FlowchartCanvas.tsx:75 | `Math.min(...keys, 0)` is at most 0 and every key, and is 0 or one of the keys |
| FlowchartLayout.FirstMain | src/components/FlowchartCanvas.tsx:14 | the first main-process node is found when there is one, and none before it is a main process |
| FlowchartLayout.ProblemSeeds | src/components/FlowchartCanvas.tsx:19-24 | the problem seeding gives depth 0 to exactly the problem nodes |
| FlowchartLayout.SeedingRule | src/components/FlowchartCanvas.tsx:13-24 | with a main process, only the first one is seeded at 0; otherwise exactly the problem nodes are |
| FlowchartLayout.Relaxation | src/components/FlowchartCanvas.tsx:26-42 | the loop stops after a pass that changed nothing, or after 1000 passes |
| FlowchartLayout.PassRaises | src/components/FlowchartCanvas.tsx:31-41 | one pass never lowers a depth and never makes one negative |
| FlowchartLayout.RelaxationRaises | src/components/FlowchartCanvas.tsx:26-42 | the whole relaxation never lowers a depth and never makes one negative |
| FlowchartLayout.PassUnchanged | src/components/FlowchartCanvas.tsx:28-41 | a pass reports no change exactly when every edge from a node with a depth already reaches one level deeper, and then it leaves the depths as they were |
| FlowchartLayout.RelaxationSettled | src/components/FlowchartCanvas.tsx:26-42 | when the loop stops on an unchanged pass, every edge from a node with a depth leads at least one level deeper |
| FlowchartLayout.RelaxationRerun | src/components/FlowchartCanvas.tsx:26-42 | relaxing settled depths again takes one pass and changes nothing |
| FlowchartLayout.WithDefaults | src/components/FlowchartCanvas.tsx:44-52 | the defaults keep every depth already set, give every displayed node one, and add no other key |
| FlowchartLayout.DefaultsNonNegative | src/components/FlowchartCanvas.tsx:44-52 | the defaults are never negative |
| FlowchartLayout.DefaultsFirst | src/components/FlowchartCanvas.tsx:44-52 | a node the relaxation missed gets the default of its type: 0 for a main process, 1 for a partial process, 2 for a building block, 0 otherwise; the first node with an id decides |
| FlowchartLayout.DepthsRule | src/components/FlowchartCanvas.tsx:10-54 | `computeDepths` gives every displayed node a depth, none negative, keeps what the relaxation found, and gives every other node its type's default |
| FlowchartLayout.SeedDepths | src/components/FlowchartCanvas.tsx:11-24 | the seeding code computes the seeding rule above |
| FlowchartLayout.RunPass | src/components/FlowchartCanvas.tsx:31-41 | the `for (const e of edges)` loop computes one pass: each edge from a node with a depth raises its target to `max(toDepth, fromDepth + 1)` |
| FlowchartLayout.Relax1000 | src/components/FlowchartCanvas.tsx:26-42 | the `while (changed && guard < 1000)` loop computes the relaxation |
| FlowchartLayout.FillDefaults | src/components/FlowchartCanvas.tsx:45-52 | the defaults loop computes the defaults above |
| FlowchartLayout.ComputeDepths | src/components/FlowchartCanvas.tsx:10-54 | `computeDepths` seeds, relaxes and fills in defaults as stated above |
| FlowchartLayout.DepthKeys | src/components/FlowchartCanvas.tsx:68 | each node's column key is its depth, or 0 when it has none |
| FlowchartLayout.GroupByDepth | src/components/FlowchartCanvas.tsx:66-71 | the grouping loop builds the columns: the nodes grouped by depth in node order |
| FlowchartLayout.NodeInItsColumn | src/components/FlowchartCanvas.tsx:66-71 | every displayed node is in the column of its depth |
| FlowchartLayout.ColumnHoldsItsDepth | src/components/FlowchartCanvas.tsx:66-71 | a column holds only displayed nodes of its depth |
| FlowchartLayout.ColumnsSize | src/components/FlowchartCanvas.tsx:66-71 | together the columns hold every node once |
| FlowchartLayout.PlaceColumn | src/components/FlowchartCanvas.tsx:91-105 | the `group.forEach` loop places one column's nodes at the column's x and their row's y |
| FlowchartLayout.PlaceAll | src/components/FlowchartCanvas.tsx:87-106 | the loop over `depthToNodes.entries()` places the columns in key order |
| FlowchartLayout.Arrange | src/components/FlowchartCanvas.tsx:73-108 | the drawing is at least as wide as the container and as high as it |
| FlowchartLayout.ArrangeColumns | src/components/FlowchartCanvas.tsx:73-108 | the coordinates code computes the arrangement above |
| FlowchartLayout.ComputeLayout | src/components/FlowchartCanvas.tsx:64-109 | the `layout` memo: depths, then columns, then positions, with a 1200 by 800 container when none is measured |
| FlowchartLayout.PlaceGroupSound | src/components/FlowchartCanvas.tsx:91-105 | placing a column puts each of its nodes on that column and keeps earlier placements on theirs |
| FlowchartLayout.PlaceColumnsSound | src/components/FlowchartCanvas.tsx:87-106 | placing the columns puts every grouped node on the column of its depth |
| FlowchartLayout.LayoutPositions | src/components/FlowchartCanvas.tsx:64-109 | every displayed node gets a position: the x of the column of its depth and the y of one of that column's rows |
| FlowchartLayout.ArrangePositions | src/components/FlowchartCanvas.tsx:87-106 | the same holds for any depth map and container size |
| FlowchartLayout.ColumnsOrdered | src/components/FlowchartCanvas.tsx:93-94 | one column lies left of another exactly when its depth is smaller, and columns share an x exactly when their depths agree |
| FlowchartLayout.WidthFits | src/components/FlowchartCanvas.tsx:81-85 | the width is at least the container's, and every column from the smallest to the largest depth lies 100 clear of both sides |
| FlowchartLayout.ArrangeFits | src/components/FlowchartCanvas.tsx:81-106 | every displayed node lies inside the drawing, 100 clear of both sides |
| FlowchartLayout.MinDepthZero | src/components/FlowchartCanvas.tsx:75 | depths are never negative, so the leftmost column has depth 0 |
| FlowchartLayout.RowsInside | src/components/FlowchartCanvas.tsx:88-102 | a lone node is centred vertically; the rows of a larger column lie strictly between 40 and 40 plus the usable height |
| FlowchartLayout.Label | src/components/FlowchartCanvas.tsx:205-208 | a label of up to 28 characters is shown whole; a longer one is cut to 27 characters plus an ellipsis, so no label exceeds 28 |
| MindMapLayout.TargetsSpec | src/components/MindMapCanvas.tsx:27-31 | a node's target list holds exactly the targets of its outgoing edges |
| MindMapLayout.Adjacency | src/components/MindMapCanvas.tsx:27-31 | the adjacency lists each node's edge targets in edge order, and a node without edges gets `[]` |
| MindMapLayout.AdjacencyFollowsEdges | src/components/MindMapCanvas.tsx:27-31 | `v` follows `u` in the adjacency exactly when there is an edge `u → v` |
| MindMapLayout.BuildAdjacency | src/components/MindMapCanvas.tsx:27-31 | the adjacency loop computes that adjacency |
| MindMapLayout.EnqueueTargets | src/components/MindMapCanvas.tsx:41-46 | the `for (const n of nexts)` loop levels and enqueues exactly the targets not levelled before, one level below the current node, keeps all other levels, and leaves every target levelled |
| MindMapLayout.Visit | src/components/MindMapCanvas.tsx:39-46 | one iteration dequeues the head and enqueues its new targets as above |
| MindMapLayout.StepKeepsQueue | src/components/MindMapCanvas.tsx:38-47 | after a step the queue is still sorted by level and spans at most one level, and no dequeued node lies below its head |
| MindMapLayout.StepKeepsClosed | src/components/MindMapCanvas.tsx:38-47 | after a step every dequeued node has all its targets levelled at most one below it |
| MindMapLayout.StepKeepsInv | src/components/MindMapCanvas.tsx:38-47 | one iteration preserves the breadth-first invariant |
| MindMapLayout.StepProgress | src/components/MindMapCanvas.tsx:38-47 | each iteration levels a new reachable node or shortens the queue, so the loop ends |
| MindMapLayout.InitInv | src/components/MindMapCanvas.tsx:36-37 | the start alone at level 0 in the queue satisfies the invariant |
| MindMapLayout.DoneClosed | src/components/MindMapCanvas.tsx:38 | once the queue is empty, the levels are the shortest path lengths from the start |
| MindMapLayout.ClosedShortest | src/components/MindMapCanvas.tsx:38-47 | levels of reached nodes that are closed under edges, with the start at 0, are shortest path lengths |
| MindMapLayout.Search | src/components/MindMapCanvas.tsx:36-47 | the breadth-first loop computes the shortest path length from the start to every reachable node |
| MindMapLayout.Levels | src/components/MindMapCanvas.tsx:33-48 | without nodes no node is levelled; otherwise the levels are the shortest path lengths from the first node |
| MindMapLayout.ShortestUnique | src/components/MindMapCanvas.tsx:33-48 | there is only one such level map |
| MindMapLayout.LevelledIffReachable | src/components/MindMapCanvas.tsx:33-48 | a node is levelled exactly when a path leads to it from the start |
| MindMapLayout.LevelsFromStart | src/components/MindMapCanvas.tsx:37 | levels are not negative, and only the start is at level 0 |
| MindMapLayout.IdList | src/components/MindMapCanvas.tsx:51 | the ids of the displayed nodes, in node order |
| MindMapLayout.RingKeys | src/components/MindMapCanvas.tsx:52 | each id's ring is its level, or 1 when it has none |
| MindMapLayout.UnreachedInRingOne | src/components/MindMapCanvas.tsx:52 | a node no path reaches is drawn on ring 1 |
| MindMapLayout.GroupByRing | src/components/MindMapCanvas.tsx:50-55 | the grouping loop builds the rings: the ids grouped by ring in node order |
| MindMapLayout.IdInItsRing | src/components/MindMapCanvas.tsx:50-55 | every displayed id is in the ring of its level |
| MindMapLayout.RingHoldsItsIds | src/components/MindMapCanvas.tsx:50-55 | a ring holds only displayed ids of that ring |
| MindMapLayout.RingsKeyed | src/components/MindMapCanvas.tsx:50-55 | every id in a ring has that ring's level |
| MindMapLayout.RingsSize | src/components/MindMapCanvas.tsx:50-55 | together the rings hold every displayed id once |
| MindMapLayout.PlaceRingIds | src/components/MindMapCanvas.tsx:67-71 | the `ids.forEach` loop places one ring's ids on its circle |
| MindMapLayout.PlaceAllRings | src/components/MindMapCanvas.tsx:64-72 | the loop over the rings places every ring but ring 0, in key order |
| MindMapLayout.ArrangeRings | src/components/MindMapCanvas.tsx:57-72 | the placement code puts the start at the centre, then places the rings |
| MindMapLayout.ComputeMindMap | src/components/MindMapCanvas.tsx:19-75 | the layout memo computes the shortest-path levels from the first node and the ring placement of every node |
| MindMapLayout.PlaceRingSound | src/components/MindMapCanvas.tsx:64-71 | placing a ring puts each of its ids on the circle of its own ring and keeps earlier placements |
| MindMapLayout.PlaceRingsSound | src/components/MindMapCanvas.tsx:64-72 | placing the rings puts every id of a ring other than 0 on its circle |
| MindMapLayout.RingTurns | src/components/MindMapCanvas.tsx:66-68 | the `i`-th of `n` distinct ids of a ring sits `i/n` of a full turn round, from the top |
| MindMapLayout.MindMapPositions | src/components/MindMapCanvas.tsx:19-75 | every displayed node is placed: the first node at the centre, every other node on the circle of its ring, at a fraction of a turn in `[0, 1)` |
| MindMapLayout.RadiusGrows | src/components/MindMapCanvas.tsx:69 | deeper rings have larger radii |
| MindMapLayout.RingsInside | src/components/MindMapCanvas.tsx:59-69 | every ring up to the deepest lies strictly inside half the width and half the height |
| Parsers.TrimmedItems | src/utils/parsers.ts:73 | the kept items are non-empty trimmed strings, no more than were given |
| Parsers.ParseArrayField | src/utils/parsers.ts:72-80 | every item of an array field is non-empty and trimmed |
| Parsers.ArrayFieldNoSeparators | src/utils/parsers.ts:76-79 | no item parsed from text holds a `,`, `;` or newline |
| Parsers.ArrayFieldRoundTrip | src/utils/parsers.ts:72-80 | trimmed non-empty items come back unchanged, passed as an array or joined by a separator |
| Parsers.LeadingDigits | src/utils/parsers.ts:227 | the leading digit run is all digits and ends at a non-digit or at the end |
| Parsers.MatchRange | src/utils/parsers.ts:227 | a range match yields two tokens of at least three digits |
| Parsers.MatchRangeSound | src/utils/parsers.ts:227 | a match means the text is spelled as digits, optional white space, a dash, optional white space, digits |
| Parsers.MatchRangeComplete | src/utils/parsers.ts:227 | every text spelled that way matches, with its two digit runs |
| Parsers.RangeIdsValues | src/utils/parsers.ts:229-235 | the expanded range lists every number from low to high once, in order, each zero-padded to at least the width of the first token |
| Parsers.PaddedRange | src/utils/parsers.ts:231-234 | the range loop computes that list |
| Parsers.IdTokens | src/utils/parsers.ts:238-240 | only tokens of at least three digits are kept |
| Parsers.ParseRangeOrList | src/utils/parsers.ts:223-241 | `parseRangeOrList` expands a range or splits a list as stated in the next rows |
| Parsers.RangeOrListTokens | src/utils/parsers.ts:237-240 | every id it returns is at least three digits |
| Parsers.RangeOrListRange | src/utils/parsers.ts:227-235 | a range in either order yields every number between its ends, low to high, padded to the first token's width |
| Parsers.RangeOrListRoundTrip | src/utils/parsers.ts:237-240 | ids joined by any list separator are read back unchanged |
| Parsers.JoinedIdsNoRange | src/utils/parsers.ts:227 | ids joined by a list separator are never taken for a range |
| Parsers.NoDashNoRange | src/utils/parsers.ts:227 | text without a dash is never a range |
| Parsers.TranslatedLabel | src/utils/parsers.ts:257-259 | translating a name leaves it empty exactly when it was empty, so the skip test is unaffected |
| Parsers.Classes | src/utils/parsers.ts:261-264 | the feature classes of a row are non-empty and never `-` |
| Parsers.RowProcess | src/utils/parsers.ts:256-259 | a row is skipped exactly when its trimmed number or trimmed name is empty |
| Parsers.RowProcessShape | src/utils/parsers.ts:256-274 | a kept row's process has a trimmed id and a name; it is a partial process exactly when its kind text contains `teil` in any case; it has at most three feature classes (none empty or `-`) and at most two trimmed constraints |
| Parsers.RowLinks | src/utils/parsers.ts:276-285 | each listed id gives one `contains` link, from the row to it for a main process and from it to the row otherwise |
| Parsers.RowResult | src/utils/parsers.ts:255-286 | a row gives a process and links exactly when it is not skipped |
| Parsers.CollectedContents | src/utils/parsers.ts:255-286 | the collected processes and links are exactly those of the rows not skipped |
| Parsers.Keys | src/utils/parsers.ts:289-295 | the key set holds exactly the keys of the given elements |
| Parsers.DeduplicatedKeys | src/utils/parsers.ts:288-295 | de-duplication leaves every key once and loses none |
| Parsers.DeduplicatedFirst | src/utils/parsers.ts:288-295 | de-duplication keeps the first element of each key, in input order |
| Parsers.Deduplicate | src/utils/parsers.ts:288-295 | the `seen` filter computes that de-duplication |
| Parsers.PushRowLinks | src/utils/parsers.ts:277-285 | the `for (const other of deps)` loop appends the row's links |
| Parsers.AddRow | src/utils/parsers.ts:255-286 | one pass of the row loop: a row without id or name adds nothing, any other row adds its process once and its links in order |
| Parsers.ParseSolutionLibrary | src/utils/parsers.ts:243-298 | the import returns the library stated in the next rows, and an empty library when the JSON does not parse |
| Parsers.SolutionProcesses | src/utils/parsers.ts:252-297 | the imported processes are exactly the processes of the kept rows; there are no building blocks and no notes |
| Parsers.SolutionLinks | src/utils/parsers.ts:288-297 | the imported links have distinct keys, cover every row link's key, and are the first link of each key in order |
| Parsers.SolutionLinksContain | src/utils/parsers.ts:276-285 | every imported link is a `contains` link |
| Parsers.RowLinksContain | src/utils/parsers.ts:280-284 | every link a row gives is a `contains` link |
| Parsers.RowLinksKept | src/utils/parsers.ts:276-295 | every dependency listed by a kept row ends up, by key, among the imported links |
| LibraryMindMap.AttachTree | src/utils/parsers.ts:122-202 | attaching a node under one already present keeps the chart a tree |
| LibraryMindMap.TreeIncoming | src/utils/parsers.ts:122-202 | in a tree with distinct ids nothing enters the root, and exactly one edge enters every other node |
| LibraryMindMap.SkeletonTree | src/utils/parsers.ts:126-144 | the root, the five categories and the main and sub-process nodes form a tree |
| LibraryMindMap.SkeletonParents | src/utils/parsers.ts:126-144 | that tree holds every category node the later stages attach to |
| LibraryMindMap.SkeletonSize | src/utils/parsers.ts:126-144 | the skeleton has 8 nodes and 7 edges |
| LibraryMindMap.ProcessesPart | src/utils/parsers.ts:146-154 | every process adds two nodes and two edges, after the ones before |
| LibraryMindMap.ProcessesTree | src/utils/parsers.ts:146-154 | adding the processes keeps the chart a tree |
| LibraryMindMap.ProcessesAt | src/utils/parsers.ts:146-154 | the `i`-th process adds its node and its tail node, linked from its kind's category and to its tail |
| LibraryMindMap.CategoryKeys | src/utils/parsers.ts:159 | each building block's key is its category |
| LibraryMindMap.BlockGroups | src/utils/parsers.ts:157-161 | the blocks are grouped by category, each category listed once |
| LibraryMindMap.BlockGrouped | src/utils/parsers.ts:157-161 | every block is in the group of its category, and categories come in order of first appearance |
| LibraryMindMap.BlockLeaves | src/utils/parsers.ts:166-170 | adding one category's blocks keeps what came before |
| LibraryMindMap.BlocksPart | src/utils/parsers.ts:162-171 | adding the categories keeps what came before |
| LibraryMindMap.BlockLeavesTree | src/utils/parsers.ts:166-170 | adding one category's blocks keeps the chart a tree |
| LibraryMindMap.BlocksTree | src/utils/parsers.ts:162-171 | adding all categories and their blocks keeps the chart a tree |
| LibraryMindMap.BlockLeavesHave | src/utils/parsers.ts:166-170 | every block of a category gets its node and a link from its category |
| LibraryMindMap.BlocksPartHave | src/utils/parsers.ts:162-171 | every category gets its node, linked from the modular-system node, and every block of it its node, linked from the category |
| LibraryMindMap.LeavesPart | src/utils/parsers.ts:176-180 | one leaf per name is added after what came before |
| LibraryMindMap.LeavesTree | src/utils/parsers.ts:176-180 | adding leaves under a present node keeps the chart a tree |
| LibraryMindMap.LeavesAt | src/utils/parsers.ts:176-180 | the `k`-th name gives the `k`-th new node, with the prefixed id, linked from the parent |
| LibraryMindMap.LocationKeys | src/utils/parsers.ts:185 | a keyed storage location gives its keys in order; a text location or none gives no keys |
| LibraryMindMap.StorageChildrenChoice | src/utils/parsers.ts:183-187 | without storage keys the four default locations are listed; otherwise exactly the keys found, each once |
| LibraryMindMap.NoteName | src/utils/parsers.ts:196 | a note of up to 80 characters is its own name; a longer one is cut to 80 characters plus an ellipsis |
| LibraryMindMap.NotesPart | src/utils/parsers.ts:195-199 | one node per note is added after what came before |
| LibraryMindMap.NotesTree | src/utils/parsers.ts:195-199 | adding the notes keeps the chart a tree |
| LibraryMindMap.NotesAt | src/utils/parsers.ts:195-199 | the `i`-th note gives the `i`-th new node, with id `note:i` |
| LibraryMindMap.StagesExtend | src/utils/parsers.ts:122-202 | each stage only appends to the nodes and edges of the stage before |
| LibraryMindMap.ProcessesStageTree | src/utils/parsers.ts:146-154 | after the processes the chart is a tree that still holds the later stages' parents |
| LibraryMindMap.BlocksStageTree | src/utils/parsers.ts:156-171 | after the building blocks the chart is a tree that still holds the later stages' parents |
| LibraryMindMap.StorageStageTree | src/utils/parsers.ts:182-192 | after the storage locations the chart is a tree that still holds the notes node |
| LibraryMindMap.LibraryMindMapTree | src/utils/parsers.ts:122-202 | the mind map is a tree: one edge fewer than nodes, every edge `contains`, each leading to a new node from one before it |
| LibraryMindMap.SkeletonKept | src/utils/parsers.ts:126-144 | the mind map starts with the skeleton's nodes and edges |
| LibraryMindMap.ProcessesKept | src/utils/parsers.ts:146-154 | the mind map starts with the processes stage |
| LibraryMindMap.BlocksKept | src/utils/parsers.ts:156-171 | the mind map starts with the building-blocks stage |
| LibraryMindMap.TypesKept | src/utils/parsers.ts:173-180 | the mind map starts with the process-types stage |
| LibraryMindMap.SkeletonFirst | src/utils/parsers.ts:126-142 | the first eight nodes are the skeleton's |
| LibraryMindMap.ProcessPlacement | src/utils/parsers.ts:146-154 | the `i`-th process sits at nodes `8+2i` and `9+2i`, linked from its kind's category at edge `7+2i` and to its tail at edge `8+2i` |
| LibraryMindMap.BlockPlacement | src/utils/parsers.ts:156-171 | every building block appears under its category node, which appears under the modular-system node |
| LibraryMindMap.ClassPlacement | src/utils/parsers.ts:173-180 | every feature class of a process appears as a `type:` node under the process-types node |
| LibraryMindMap.StoragePlacement | src/utils/parsers.ts:182-192 | every storage child appears as a `stor:` node under the storage node |
| LibraryMindMap.NotePlacement | src/utils/parsers.ts:194-199 | the notes are the last nodes, in order, each with id `note:i` |
| LibraryMindMap.PushSkeleton | src/utils/parsers.ts:123-144 | the opening pushes build the skeleton |
| LibraryMindMap.PushProcesses | src/utils/parsers.ts:146-154 | the processes loop builds the processes stage |
| LibraryMindMap.GroupBlocks | src/utils/parsers.ts:157-161 | the `byCat` loop groups the blocks by category |
| LibraryMindMap.PushBlockLeaves | src/utils/parsers.ts:166-170 | the inner blocks loop adds one category's blocks |
| LibraryMindMap.PushBlocks | src/utils/parsers.ts:162-171 | the categories loop adds every category and its blocks |
| LibraryMindMap.AddAll | src/utils/parsers.ts:175 | adding to an insertion-ordered set keeps the distinct elements in order of first appearance |
| LibraryMindMap.CollectClasses | src/utils/parsers.ts:174-175 | the class set holds each feature class once, in order of first appearance |
| LibraryMindMap.CollectStorageKeys | src/utils/parsers.ts:183-186 | the key set holds each storage key once, in order of first appearance |
| LibraryMindMap.PushLeaves | src/utils/parsers.ts:176-180 | the leaf loops add one leaf per name |
| LibraryMindMap.PushNotes | src/utils/parsers.ts:195-199 | the notes loop adds one node per note |
| LibraryMindMap.BuildMindMapFromLibrary | src/utils/parsers.ts:122-202 | `buildMindMapFromLibrary` builds the mind map whose shape the rows above state |
| StoreSpec.First | src/store/useFlowchartStore.ts:96 | `find` returns the first element that passes, or nothing when none does |
| StoreSpec.ResolveTarget | src/store/useFlowchartStore.ts:109-117 | a link target resolves to a node with the target's id, a process taking priority over a block, and to nothing when neither exists; a process without feature classes is shown as a block |
| StoreSpec.OutgoingLinks | src/store/useFlowchartStore.ts:106 | the outgoing links are exactly the library links from the node |
| StoreSpec.LinkReveals | src/store/useFlowchartStore.ts:108-123 | every link reveal starts at the node and follows a library link of the same target and type |
| StoreSpec.ChildReveals | src/store/useFlowchartStore.ts:127-139 | every fallback reveal of a main process is a `contains` edge to a listed partial process |
| StoreSpec.BlockReveals | src/store/useFlowchartStore.ts:140-152 | every fallback reveal of a partial process is a `uses` edge to a listed block |
| StoreSpec.Reveals | src/store/useFlowchartStore.ts:105-154 | everything revealed starts at the node |
| StoreSpec.RevealsAt | src/store/useFlowchartStore.ts:93-97 | reveals of the display start at the node, and nothing is revealed without a library or an unknown node |
| StoreSpec.NewNodes | src/store/useFlowchartStore.ts:119 | the new nodes are exactly the revealed nodes not already displayed |
| StoreSpec.NewEdges | src/store/useFlowchartStore.ts:120-122 | the new edges are exactly the revealed edges whose key is not already displayed |
| StoreSpec.ExpandAppendOnly | src/store/useFlowchartStore.ts:156-158 | expanding only appends: new nodes have ids not displayed before, and new edges start at the node with keys not displayed before |
| StoreSpec.ExpandUnknownIsNoOp | src/store/useFlowchartStore.ts:95-97 | without a library, or for an id not displayed, expanding changes nothing |
| StoreSpec.LinksWinOverFallback | src/store/useFlowchartStore.ts:126 | when the node has library links, only those links are followed |
| StoreSpec.DanglingLinksRevealNothing | src/store/useFlowchartStore.ts:109-110 | links to unknown targets reveal nothing |
| StoreSpec.FallbackResolution | src/store/useFlowchartStore.ts:125-154 | without links, a main process reveals `contains` edges to processes, a partial process `uses` edges to blocks, and any other node nothing |
| StoreSpec.RevealedIdsShown | src/store/useFlowchartStore.ts:119 | after an expansion every revealed node's id is displayed |
| StoreSpec.NewEdgesFromReveals | src/store/useFlowchartStore.ts:120-122 | every new edge is a revealed edge |
| StoreSpec.ExpandKeepsEdgesWithinNodes | src/store/useFlowchartStore.ts:93-159 | if every displayed edge joins displayed nodes, it still does after an expansion |
| StoreSpec.Succ | src/store/useFlowchartStore.ts:184-185 | the successors of a set are exactly the targets of the edges leaving it |
| StoreSpec.Closure | src/store/useFlowchartStore.ts:176-186 | the closure contains its seeds and is closed under edges |
| StoreSpec.ClosureLeast | src/store/useFlowchartStore.ts:176-186 | the closure is the least such set |
| StoreSpec.CollapseReachesRootOnCycle | src/store/useFlowchartStore.ts:170-186 | on a two-node cycle the clicked node is among its own descendants |
| StoreSpec.KeepNodes | src/store/useFlowchartStore.ts:189 | the kept nodes are exactly the nodes not removed |
| StoreSpec.KeepEdges | src/store/useFlowchartStore.ts:190 | the kept edges are exactly those not leaving the node and not touching a removed node |
| StoreSpec.RemovalIsTargets | src/store/useFlowchartStore.ts:176-186 | right after an expansion, the descendants are exactly the revealed targets |
| StoreSpec.CollapseUndoesExpansion | src/store/useFlowchartStore.ts:161-192 | collapsing right after an expansion brings back the display from before it |
| StoreSpec.ToggleTwiceRestores | src/store/useFlowchartStore.ts:162-192 | toggling a leaf twice restores the display, when nothing it reveals is displayed or keyed already |
| StoreSpec.ToggleCollapses | src/store/useFlowchartStore.ts:162-192 | toggling a node with outgoing edges removes its descendants, which are never empty, and the edges touching them or leaving it, and keeps the rest |
| StoreSpec.StartFromProcessShape | src/store/useFlowchartStore.ts:323-340 | starting from a process shows that process first, and every edge leaves it |
| StoreSpec.ProcessNodes | src/store/useFlowchartStore.ts:88 | one process node per suggestion, in order |
| StoreSpec.SolvedByEdges | src/store/useFlowchartStore.ts:89 | one `solved-by` edge from the problem per suggestion, in order |
| StoreSpec.ProblemDisplay | src/store/useFlowchartStore.ts:83-91 | the problem node comes first, followed by the process nodes of the assistant's suggestions (at most six, in ranked order), each linked to it by a `solved-by` edge |
| StoreSpec.AutomateAppendOnly | src/store/useFlowchartStore.ts:194-208 | automating keeps the display in front and only appends nodes not shown before, each paired with one `solved-by` edge from a displayed problem node |
| StoreSpec.Matching | src/store/useFlowchartStore.ts:304-309 | the matches are exactly the processes whose name, id or a feature class contains the query |
| StoreSpec.MatchingAppend | src/store/useFlowchartStore.ts:304-309 | the matches of two lists one after the other are the matches of each, in that order |
| StoreSpec.MatchingAround | src/store/useFlowchartStore.ts:304-309 | a matching process splits the matches into those before it, itself, and those after it |
| StoreSpec.MatchingEmpty | src/store/useFlowchartStore.ts:304-311 | a list in which nothing matches has no matches |
| StoreSpec.FirstAfter | src/store/useFlowchartStore.ts:317 | `find` passes over elements that fail the test and returns the first that passes |
| StoreSpec.SearchChoiceOrder | src/store/useFlowchartStore.ts:291-321 | a blank query or no library, and only those, do nothing; process `100000` as a main process wins; otherwise the first matching main process in library order is started, else the first match, and the query becomes a problem exactly when nothing matches |
| StoreSpec.SearchPrefersMain | src/store/useFlowchartStore.ts:295-300 | an existing main process `100000` is started whatever the query |
| StoreSpec.NoPreferredMain | src/store/useFlowchartStore.ts:296 | without main process `100000` the lookup finds nothing |
| StoreSpec.FirstMatchingMainAt | src/store/useFlowchartStore.ts:317 | a matching main process at an index means a first one at that index or before |
| StoreSpec.FirstMatchAt | src/store/useFlowchartStore.ts:318 | a match at an index means a first match at that index or before |
| StoreSpec.SearchAsksIff | src/store/useFlowchartStore.ts:311-315 | the query becomes a problem description exactly when no process matches |
| StoreSpec.SearchStartsFirstMain | src/store/useFlowchartStore.ts:316-319 | with matching main processes, the first of them in library order is started |
| StoreSpec.SearchStartsFirstMatch | src/store/useFlowchartStore.ts:316-319 | with matches but no matching main process, the first match is started |
| StoreSpec.SearchStartsKnown | src/store/useFlowchartStore.ts:296-319 | a started process is always a library process, so `startFromProcess` finds it |
| FlowchartStore.ComputeExpansion | src/store/useFlowchartStore.ts:102-123 | the reveal loop computes the new nodes and the new edges |
| FlowchartStore.ChildrenOf | src/store/useFlowchartStore.ts:171-175 | a node's children are exactly its successors |
| FlowchartStore.ChildrenMap | src/store/useFlowchartStore.ts:171-175 | the `childrenByFrom` loop lists each node's children |
| FlowchartStore.BfsVisit | src/store/useFlowchartStore.ts:180-186 | visiting a new node keeps the search inside the descendants and moves it one node closer to all of them |
| FlowchartStore.VisitHead | src/store/useFlowchartStore.ts:181-185 | one iteration of the queue loop keeps the search invariant and makes progress |
| FlowchartStore.CollectDescendants | src/store/useFlowchartStore.ts:176-186 | the queue loop collects exactly the nodes reachable from the clicked node's children |
| FlowchartStore.Lookup | src/store/useFlowchartStore.ts:285 | the process found has the id looked up |
| FlowchartStore.UpsertedFound | src/store/useFlowchartStore.ts:285-286 | after the upsert the main and every sub id are in the library, so the `!` lookups succeed |
| FlowchartStore.SubNodes | src/store/useFlowchartStore.ts:286 | one process node per sub id, in order |
| FlowchartStore.ContainsEdges | src/store/useFlowchartStore.ts:287 | one `contains` edge from the main id per sub id, in order |
| FlowchartStore.ViewOf | src/store/useFlowchartStore.ts:284-288 | the imported view shows the main process first, then one node per sub id |
| FlowchartStore.ViewOfShape | src/store/useFlowchartStore.ts:284-288 | the `i`-th sub node has the `i`-th sub id and is linked from the main process by a `contains` edge |
| FlowchartStore.ViewOfShowsLibrary | src/store/useFlowchartStore.ts:285-286 | every node of the view shows a process of the new library |
| FlowchartStore.ViewOfConsistent | src/store/useFlowchartStore.ts:284-288 | every edge of the view joins nodes of the view |
| FlowchartStore.ImportView | src/store/useFlowchartStore.ts:284-288 | the import view has one node per sub row after the main process's node |
| FlowchartStore.ImportTable | src/store/useFlowchartStore.ts:249-288 | importing a parsed table computes the upsert and its view |
| FlowchartStore.Store.constructor | src/store/useFlowchartStore.ts:58-63 | the store starts without a library, with nothing displayed or selected, an empty query and the flowchart view |
| FlowchartStore.Store.Show | src/store/useFlowchartStore.ts:157 | `set({ nodes, edges })` replaces the display and nothing else |
| FlowchartStore.Store.Install | src/store/useFlowchartStore.ts:278-288 | the import sets the library, the display, the flowchart view and the selection, and keeps the query |
| FlowchartStore.Store.LoadLibrary | src/store/useFlowchartStore.ts:65 | `loadLibrary` replaces the library and nothing else |
| FlowchartStore.Store.Reset | src/store/useFlowchartStore.ts:77 | `reset` clears the display and the selection and keeps the rest |
| FlowchartStore.Store.SetSearchQuery | src/store/useFlowchartStore.ts:79 | `setSearchQuery` replaces the query and nothing else |
| FlowchartStore.Store.SelectNode | src/store/useFlowchartStore.ts:81 | `selectNode` replaces the selection and nothing else |
| FlowchartStore.Store.SetViewMode | src/store/useFlowchartStore.ts:210 | `setViewMode` replaces the view mode and nothing else |
| FlowchartStore.Store.SetProblem | src/store/useFlowchartStore.ts:83-91 | without a library nothing changes; otherwise the problem display is shown and the problem node selected |
| FlowchartStore.Store.ExpandNode | src/store/useFlowchartStore.ts:93-159 | the display becomes its expansion at the node; nothing else changes |
| FlowchartStore.Store.ToggleNode | src/store/useFlowchartStore.ts:162-192 | the display becomes its toggle at the node: expanded when nothing leaves it, collapsed otherwise |
| FlowchartStore.Store.Automate | src/store/useFlowchartStore.ts:194-208 | the display becomes its automation |
| FlowchartStore.Store.StartFromProcess | src/store/useFlowchartStore.ts:323-340 | with a library holding the process, the display restarts from it, selects it and shows the flowchart; otherwise nothing changes |
| FlowchartStore.Store.SearchAndStartProcess | src/store/useFlowchartStore.ts:291-339 | the search decision is carried out: nothing changes; or the chosen process is started, selected and shown in the flowchart view; or the query becomes a problem with the default classes and its problem node is selected, the view kept |
| FlowchartStore.Store.ImportParsed | src/store/useFlowchartStore.ts:249-288 | the library becomes the upserted one, and the import view is shown with the main process selected in the flowchart view |
| FlowchartStore.Store.ImportDependencies | src/store/useFlowchartStore.ts:244-289 | text without a row changes nothing; otherwise the parsed table is imported as above |
| Merge.PutAll | src/store/useFlowchartStore.ts:347-348 | setting entries keeps the map well formed and every value under its own key |
| Merge.LastWithKey | src/store/useFlowchartStore.ts:348 | the last element with a key, or nothing when no element has it |
| Merge.LastWithKeyAppend | src/store/useFlowchartStore.ts:348 | the last element of a key in `a + b` comes from `b` when `b` has the key, and from `a` otherwise |
| Merge.InsertedContents | src/store/useFlowchartStore.ts:347-349 | the map built from a list holds exactly its keys, each with the last element of that key |
| Merge.InsertedOrder | src/store/useFlowchartStore.ts:347-349 | the map's keys come in order of first appearance |
| Merge.MergedEntries | src/store/useFlowchartStore.ts:346-350 | the merge lists the map's values in key order, each under its own key |
| Merge.MergedKeys | src/store/useFlowchartStore.ts:346-350 | the merge has one element per key, and every key of either input is kept |
| Merge.MergedValues | src/store/useFlowchartStore.ts:346-350 | every merged element comes from the inputs: the last of its key in `b` when there is one, and in `a` otherwise |
| Merge.MergedOrder | src/store/useFlowchartStore.ts:346-350 | merged elements come in order of their keys' first appearance in `a + b` |
| Merge.MergeSelf | src/store/useFlowchartStore.ts:346-350 | merging a list with distinct keys with itself gives it back |
| Merge.UniqueInserted | src/store/useFlowchartStore.ts:347 | a list with distinct keys becomes a map of the same length and order |
| Merge.PutAllAppend | src/store/useFlowchartStore.ts:348 | setting `a + b` is setting `a` then `b` |
| Merge.PutAllPresent | src/store/useFlowchartStore.ts:348 | setting entries a map already holds changes nothing |
| Merge.MergeById | src/store/useFlowchartStore.ts:346-350 | `mergeById` computes the merge stated above |
| Merge.SetEach | src/store/useFlowchartStore.ts:347-348 | setting every element in turn under its id gives the stated map, so a later element with the same id replaces the earlier one |
| Merge.MergeEdges | src/store/useFlowchartStore.ts:352-357 | `mergeEdges` is the same merge keyed by `from->to:type` |
| Upsert.Slug | src/store/useFlowchartStore.ts:254 | the slug has no white space |
| Upsert.SlugOfPlain | src/store/useFlowchartStore.ts:254 | text without white space is its own slug |
| Upsert.GenId | src/store/useFlowchartStore.ts:254 | a generated id starts with `gen:` and holds no white space after it |
| Upsert.ResolveRulesAgree | src/store/useFlowchartStore.ts:254 | the store's `??` and the server's `||` resolve an id alike exactly when the id is not the empty string |
| Upsert.IndexOfId | src/store/useFlowchartStore.ts:255 | the first process with the id, or none when no process has it |
| Upsert.IndexOfIdAt | src/store/useFlowchartStore.ts:255 | the first process with the id is found at its index |
| Upsert.SettledPersists | src/store/useFlowchartStore.ts:261 | once a process has the id and a name, later upserts keep it so |
| Upsert.EnsureProcess | src/store/useFlowchartStore.ts:253-265 | `ensureProcess` appends a new process only when the id is absent, otherwise only fills in an empty name, and afterwards the id is present with a name; a settled process is left alone |
| Upsert.EnsureAll | src/store/useFlowchartStore.ts:267-268 | one resolved id per row, every row's process present and named afterwards, and no process lost |
| Upsert.EnsureAllSettled | src/store/useFlowchartStore.ts:253-268 | rows whose processes are all present already change nothing |
| Upsert.AppendIfAbsent | src/store/useFlowchartStore.ts:271-274 | a link is appended only when its key is absent, and afterwards its key is present |
| Upsert.AddContains | src/store/useFlowchartStore.ts:270-275 | the link loop only appends, each new link is a `contains` link from the main id to a sub id with a key absent before, new keys are distinct, and every sub's link key is present afterwards |
| Upsert.AddContainsPresent | src/store/useFlowchartStore.ts:270-275 | when every sub's link is present already, nothing is appended |
| Upsert.Upserted | src/store/useFlowchartStore.ts:249-277 | the main id and every sub id are resolved from the table |
| Upsert.UpsertedProperties | src/store/useFlowchartStore.ts:249-277 | the upsert loses no process, leaves every row's process named, only appends links, links the main process to every sub, and keeps the blocks and notes |
| Upsert.UpsertIdempotent | src/store/useFlowchartStore.ts:244-277 | importing the same table twice is importing it once |
| Upsert.UpsertSettled | src/store/useFlowchartStore.ts:244-277 | when every process of the table is already present under its resolved id and name, and every `contains` link is present, the upsert changes nothing and returns the same ids |
| Upsert.StoreAndServerAgree | backend/server.js:60-78 | with no empty ids, the store's upsert and the server's agree |
| Upsert.EnsureAllRulesAgree | src/store/useFlowchartStore.ts:267-268 | rows every rule resolves alike are upserted alike |
| Upsert.EnsureRows | src/store/useFlowchartStore.ts:267-268 | the `ensureProcess` calls over the rows compute that upsert |
| Upsert.AddLinks | src/store/useFlowchartStore.ts:270-275 | the link loop computes that link list |
| Upsert.UpsertDependencies | src/store/useFlowchartStore.ts:249-277 | the upsert code computes the upsert stated above |
| Server.HandleLibraryPost | backend/server.js:44-50 | a body that is not an object is rejected; a stored object answers ok; a failed write answers 500 |
| Server.HandleDependencies | backend/server.js:52-83 | a missing `main` or non-array `subs` is rejected; a failed write is reported; a save returns the main id and the sub ids in request order, each resolved by the `||` rule (the id when it is a non-empty string, otherwise the generated `gen:` id), leaves the main process and every sub process named, links the main process to every sub, keeps every stored process, keeps the stored links as a prefix, and leaves blocks and notes alone |
| Server.ResendIsNoOp | backend/server.js:52-83 | posting the same dependencies again to the saved library gives the same reply and library |
| Server.ServerRepeatsStore | backend/server.js:60-78 | with no empty ids, the server stores what the client computed |
| Server.EmptyIdDiverges | backend/server.js:61 | a row with an empty id keeps `""` in the store but gets a generated id on the server |
| Assistant.ClassMatches | src/utils/assistant.ts:23-27 | a process matches at most as many requested classes as it lists |
| Assistant.ClassMatchesCount | src/utils/assistant.ts:23-27 | the count is exactly the number of positions whose class has a requested canonical key, so a class listed twice counts twice |
| Assistant.ScoredPositive | src/utils/assistant.ts:18-31 | exactly the processes of the library with a positive score are kept, each with its score |
| Assistant.ScoredPositiveInOrder | src/utils/assistant.ts:18-31 | the processes kept with one score are those of the library with that score, in library order |
| Assistant.InsertPermutes | src/utils/assistant.ts:33 | inserting adds exactly one element |
| Assistant.InsertSorted | src/utils/assistant.ts:33 | inserting into a list sorted by descending score keeps it sorted |
| Assistant.SortPermutes | src/utils/assistant.ts:33 | the sort is a permutation |
| Assistant.SortedFromInput | src/utils/assistant.ts:33 | every sorted element comes from the input |
| Assistant.SortSorted | src/utils/assistant.ts:33 | the result is sorted by descending score |
| Assistant.InsertWithScore | src/utils/assistant.ts:33 | inserting into a sorted list puts an element after those of its score |
| Assistant.SortIsStable | src/utils/assistant.ts:33 | the sort keeps the input order of equal scores |
| Assistant.SuggestionsAtMost | src/utils/assistant.ts:34 | there are at most six suggestions |
| Assistant.SuggestionsShape | src/utils/assistant.ts:33-34 | the suggestions are the first six of the ranking, each a library process with a positive score, and none left out outranks one kept |
| Assistant.RankedIsStable | src/utils/assistant.ts:33 | processes of equal score keep library order in the ranking |
| Assistant.RankedInLibraryOrder | src/utils/assistant.ts:18-33 | the ranked processes of one score are exactly the library processes of that positive score, in library order |
| Assistant.LeftOutScoresNoHigher | src/utils/assistant.ts:18-34 | a process with a positive score is left out only when there are six suggestions, each scoring at least as much |
| Assistant.MainProcessScoresPositive | src/utils/assistant.ts:29 | a main process always scores at least 1 |
| Assistant.NoSignalNoSuggestion | src/utils/assistant.ts:19-30 | a partial process that neither matches the text nor any class is never suggested |
| Assistant.CountClassMatches | src/utils/assistant.ts:23-27 | the class loop adds 4 per matching class |
| Assistant.ScoreProcess | src/utils/assistant.ts:19-29 | the scoring code computes 3 for a text match, 4 per class match and 1 for a main process |
| Assistant.SuggestProcesses | src/utils/assistant.ts:8-35 | `suggestProcesses` computes the suggestions stated above |
| DependencyParser.LastIndexBelow | src/utils/dependencyParser.ts:11 | the last position of a character below a bound, or none when it does not occur there |
| DependencyParser.BracketSplit | src/utils/dependencyParser.ts:11 | `/^(.*)\[(.+)\]$/` matches exactly a one-line text ending in `]` with an earlier `[` leaving a non-empty id; the split is at the last such `[` |
| DependencyParser.BracketSplitAt | src/utils/dependencyParser.ts:11 | `name[id]` with no `[` in the id splits just before the id |
| DependencyParser.StripTrailingMarks | src/utils/dependencyParser.ts:13 | `replace(/[-:\s]+$/, '')` cuts exactly the trailing run of dashes, colons and white space |
| DependencyParser.Pieces | src/utils/dependencyParser.ts:17 | splitting at `;`, `,` and tabs yields at least one piece, none holding a separator |
| DependencyParser.PiecesSplitIff | src/utils/dependencyParser.ts:17-18 | there are two pieces or more exactly when the text holds a separator |
| DependencyParser.PiecesOfPlain | src/utils/dependencyParser.ts:17 | text without separators is one piece |
| DependencyParser.PiecesAfterToken | src/utils/dependencyParser.ts:17 | text without separators that does not end in white space, then `,` or `;` and white space, splits off as the first piece |
| DependencyParser.TokenThenSeparator | src/utils/dependencyParser.ts:17 | white space inside text without separators, before a `,` or `;`, separates nothing |
| DependencyParser.BracketRow | src/utils/dependencyParser.ts:12-15 | the bracket form gives a trimmed id and a trimmed name that ends in neither `-` nor `:` |
| DependencyParser.CsvRow | src/utils/dependencyParser.ts:17-26 | an id found is at least three digits; without one the whole cell is the name |
| DependencyParser.CsvRowSingle | src/utils/dependencyParser.ts:24-26 | a single token that is an id gives it as both id and name; otherwise it is the name |
| DependencyParser.CsvRowCases | src/utils/dependencyParser.ts:17-23 | with separators, a leading id token wins, else a trailing one, the rest joined by spaces being the name; with neither, and only then, no id and the whole cell as the name |
| DependencyParser.ParseCell | src/utils/dependencyParser.ts:8-27 | a cell without an id keeps its whole trimmed text as the name; an id has no white space at its ends |
| DependencyParser.TrimKeepsStripped | src/utils/dependencyParser.ts:13 | trimming after the strip keeps the name free of trailing `-` and `:` |
| DependencyParser.ParseCellBracket | src/utils/dependencyParser.ts:8-15 | a trimmed cell in bracket form gives the trimmed id inside the brackets and the stripped name before them |
| DependencyParser.BracketForm | src/utils/dependencyParser.ts:8-15 | `name[id]` parses to the trimmed id and the stripped name |
| DependencyParser.NameThenBracketId | src/utils/dependencyParser.ts:10-15 | `Name [12345]` parses to that id and name |
| DependencyParser.IdThenName | src/utils/dependencyParser.ts:17-20 | `12345, Name` parses to that id and name |
| DependencyParser.NameThenId | src/utils/dependencyParser.ts:17-21 | `Name, 12345` parses to that id and name, spaces inside the name kept |
| DependencyParser.DropCarriageReturn | src/utils/dependencyParser.ts:31 | a line loses at most one trailing carriage return |
| DependencyParser.CleanLine | src/utils/dependencyParser.ts:31-32 | every line is trimmed |
| DependencyParser.Lines | src/utils/dependencyParser.ts:30-32 | the split gives at least one line, each trimmed |
| DependencyParser.KeptLines | src/utils/dependencyParser.ts:33 | the kept lines are exactly the non-empty lines not starting with `#` |
| DependencyParser.NamedRows | src/utils/dependencyParser.ts:36 | the kept rows are exactly the rows with a name |
| DependencyParser.KeptLinesAppend | src/utils/dependencyParser.ts:33 | keeping lines of two texts one after the other keeps each in order |
| DependencyParser.KeptLinesNone | src/utils/dependencyParser.ts:33 | blank and comment lines only keep nothing |
| DependencyParser.KeptFromFirst | src/utils/dependencyParser.ts:33-35 | the kept lines begin with the first kept line, followed by the kept lines after it |
| DependencyParser.NamedRowsAppend | src/utils/dependencyParser.ts:36 | keeping named rows of two lists one after the other keeps each in order |
| DependencyParser.SubRowsFiltered | src/utils/dependencyParser.ts:33-36 | keeping lines, parsing them and keeping the named rows gives the named rows of the kept lines in line order |
| DependencyParser.ParseDependencyTable | src/utils/dependencyParser.ts:29-38 | every sub row has a name, and there are fewer sub rows than kept lines |
| DependencyParser.ParseDependencyTableEmpty | src/utils/dependencyParser.ts:29-34 | no table exactly when no line is kept |
| DependencyParser.ParseDependencyTableRows | src/utils/dependencyParser.ts:29-38 | the main row is the first kept line parsed; the sub rows are exactly the named rows parsed from the later kept lines |
| DependencyParser.ParseDependencyTableInOrder | src/utils/dependencyParser.ts:29-38 | the table is the first kept line's row followed by the named rows of the lines after it, in line order |
| DependencyExamples.PasteDialogExample | src/components/Toolbar.tsx:64 | `Etikett applizieren [100000]` parses to id `100000` and that name |

## Left out

- Persistence and I/O are not modelled: the zustand `persist` middleware,
  `loadFromBackend`, `saveToBackend`, `src/utils/api.ts`, `readJsonSafe` and
  `writeJsonSafe`, and the express plumbing. The server's file is a stored
  library option, and whether writing succeeded is a boolean parameter.
- `importFiles` (store lines 212-242) is left out as a whole, because it
  dispatches on uploaded files:
  - the XLSX and PDF readers (`parseXlsxToLibrary`, `parseAblage`,
    `collectProperties` and `parsePdfToNotes`) are not part of this model;
  - the merges it calls, `mergeById` and `mergeEdges`, are modelled;
  - so is the mind map it shows, `buildMindMapFromLibrary`;
  - the note concatenation itself is not.
- The solution-library import's `JSON.parse` is a parameter: an array of
  rows, or nothing when the text does not parse. JSON that parses to a
  non-array, and cells that are not strings (numbers passed through
  `String`), are not modelled. Reading the file text is I/O.
- The d3 rendering, zooming and clicks of both canvases are not modelled.
  Neither are the trigonometry of `polarToCartesian` and the curved edges. A
  mind-map position is the centre, or a ring radius and a fraction of a turn.
  Layout numbers are exact reals rather than floating point.
- `Text.LowerChar` lower-cases only Basic Latin and Latin-1 capitals, not
  the whole Unicode case mapping of `toLowerCase`.
- `Assistant.Normalize` leaves out the NFKD decomposition of `normalize`,
  because Dafny has no Unicode tables.
- The model counts string lengths in code points. JavaScript's `length` and
  `slice` count UTF-16 units, so `LibraryMindMap.NoteName` and
  `FlowchartLayout.Label` differ from the source for text outside the Basic
  Multilingual Plane.
- Text.NatToString: `parseInt` and `String` on numbers beyond 2^53 lose
  precision in JavaScript. The model's numbers are exact, so
  `Parsers.RangeOrListRange` holds only for ids below that bound.
- `Object.keys` lists integer-like keys first. The model lists a keyed
  storage location's entries in their stored order
  (`LibraryMindMap.LocationKeys`).
- `ensureProcess` mutates the found process in place, through aliases of the
  same object. This is modelled as replacing that element. Its `p.type ||
  type` has no effect, because a process kind is never empty in the model.
- MindMapLayout.Levels: `levels.get(cur) ?? 0` is modelled as `levels[cur]`.
  The current node always has a level, as the invariant proves.
- MindMapLayout.ComputeMindMap and FlowchartLayout.ComputeLayout take the
  measured container size as an optional parameter. It is not read from the
  DOM.
- StoreSpec.ToggleTwiceRestores: edge keys are strings and can collide
  (`a->b:c` can arise from different ids). The lemma therefore assumes that no
  displayed edge shares a key with a revealed one, and holds under that
  assumption.
- I18n.TranslateLabel: `dictionary[text] ?? text` reads a plain object, so
  a text that names a member inherited from `Object.prototype` (`toString`,
  `constructor`, `__proto__` and the like) yields that inherited function or
  object instead of the text. Such keys are out of scope: the model's
  dictionary is a map, and a text that is not one of its keys comes back
  unchanged. The process titles and classes built from translated cells
  inherit the same gap.
- I18n.ToCanonicalKeyword: `map[k] ?? k` has the same inherited-member
  lookup, so `constructor` or `__proto__` yields the `Object` function or the
  prototype object rather than `k`. Such keys are out of scope here too; the
  model returns `k` for every word that is not in its map.
- Server.HandleDependencies: the request rows are assumed well-typed, each
  with a string `name` and an optional string `id`. The route checks only
  that `main` is truthy and `subs` is an array. A row with a falsy id and no
  string name, or a `null` sub, makes it throw a TypeError, which Express
  answers with status 500; that path is not modelled. Neither are ids that
  are numbers or other non-strings, which `id ||` passes through.
- Parsers.RowProcessShape is proved without a written-out proof. It adds
  nothing beyond its contract.
- Parsers.RangeOrListRange: the concrete example `100001-100006` (six ids) is
  covered only by this general lemma.
