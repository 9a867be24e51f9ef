# L.LayerTreeControl — a Dafny model of the layer tree core

L.LayerTreeControl is a Leaflet control. It shows the layers registered with it as a tree of
checkboxes and switches the map layers behind them on and off. This project models its core, all
of it in `src/L.LayerTreeControl.js`, and proves properties of that model.

- **Normalised tree** (`LayerTree`). Every provider turns its input into the same tree of groups
  (`Node`) and leaves (`Leaf`). Each item has an id, a title, a parent id, an initial enabled
  flag, and either children or a legend.
- **Esri provider** (`EsriProvider`). Given the sub-layer list and the legends fetched from an
  ArcGIS map service, it builds the tree:
  - filtering by the registration's `subLayersList`;
  - seeding the enabled flags from `visibleLayers` / `allVisible`;
  - collapsing to a single leaf when fewer than two sub-layers are reported.
  The fetch itself is a parameter. `DynamicMapLayer.layers` is the dynamic layer's visible-layer
  list, which `updateActiveLayersDynamic` rewrites through `utils.addIfNotExists` and its removal
  loop. Feature layers fail with `NotImplemented`, as the source throws.
- **Leaflet provider** (`LeafletProvider`). A static description (children, legends, layers)
  becomes a tree with positional child ids (`createId`). The legend of a leaf is classified into
  three forms, with a WMS `GetLegendGraphic` fallback. `GetTree` also returns the description with
  the ids the source writes back into the caller's objects. Activation looks layers up by checkbox
  id (`getLayersFromTree`, with its pruning) and records the calls made on the host map.
- **Utilities** (`Utils`): `convertToKeyValue` and `addIfNotExists`, with the sequence algebra
  behind them.
- **Rendered state** (`TreeLeafUI`). The document is abstracted to the checkboxes `navigateTree`
  creates, as a preorder array of records. Each record holds the item id, the parent id the
  checkbox was seeded with (`addCheckBox`), whether it sits in a leaf header, its depth, and its
  checked state. A group's children container is the following run of deeper records.
- **Cascade engine** (`LayerManager`). It models:
  - the `turnNodeOn` scan with its `checkState` map;
  - the `turnNodeOff` collection;
  - the recursive `turnParentsOn` walk, which on a rendered tree with unique ids checks the
    checkboxes of exactly the groups that enclose the item (`ParentWalkRendered`);
  - the type dispatch and the four entry points, over a `Registration` that holds the
    registration's type, its Leaflet options, its dynamic layer, the host map and its rendered
    checkboxes.

Every operation the source runs as a loop is a method proved equal to a specification function.
The properties are proved about those functions. Examples:

- on a rendered tree, switching a group on collects the enabled leaves whose group is checked and
  switches off the leaves under unchecked groups; switching a group off removes its id and every
  enabled leaf below it. This is proved for the registration's own checkbox (`NodeOnScanRendered`,
  `NodeOffIdsRendered`) and for any nested group of a tree with unique ids (`NodeOnScanNested`, `NodeOffIdsNested`);
- the Leaflet normaliser produces trees that meet the hypotheses of those lemmas
  (`LeafletTreeShape`), and so does the Esri normaliser for a service whose layers form a forest,
  which then always builds (`EsriTreeShape`, `MultipleLayerBuilds`);
- `getLayersFromTree`'s pruning loses nothing while matches are no more than ids
  (`LayersFromComplete`);
- the visible-layer list after an Esri activation has no removed id, each added id once, and every
  other id as often as before.

Where the code and its documented intent differ, the model follows the code:

- An Esri entry whose `subLayerIds` is present but empty becomes a group with no children. The
  code tests the property for truthiness, not for non-emptiness.
- The 1000-way child ids are `7000, 7001, …` for registration 7 (`createId(7, i) = 7000 + i`).
  Ids of deeper levels collide once a group has more than 1000 children (`CreateIdInjective`
  needs `index < 1000`).
- A single Leaflet layer is added whenever `add` is non-empty and removed otherwise, whatever
  `del` holds.
- Switching off a Leaflet group that itself has an id (any nested group) looks up that group's own
  `layer`, which is absent, and stops there. It therefore calls `removeLayer(undefined)` and
  leaves the layers below it on the map (`NestedGroupExample`). The model keeps this behaviour as
  written.

## Model

| member | source | states |
|---|---|---|
| Utils.WithoutCounts | src/L.LayerTreeControl.js:808-813 | filtering a set of values out keeps every other value with its multiplicity and drops those values entirely |
| Utils.WithoutAppend | src/L.LayerTreeControl.js:808-813 | filtering distributes over concatenation, so the loop may filter the accumulated array piecewise |
| Utils.WithoutWithout | src/L.LayerTreeControl.js:561-565 | filtering one value after another is filtering their union |
| Utils.WithoutNothing | src/L.LayerTreeControl.js:808-813 | filtering values that do not occur changes nothing |
| Utils.Without | src/L.LayerTreeControl.js:808-813 | definition: the array with the given values filtered out; characterised by `WithoutCounts` |
| Utils.KeepLast | src/L.LayerTreeControl.js:807-816 | definition: each item once, at its last occurrence; characterised by `KeepLastCounts` and `KeepLastOfDistinct` |
| Utils.AddedIfNotExists | src/L.LayerTreeControl.js:807-816 | definition: the result of `addIfNotExists`; computed by `AddIfNotExists` |
| Utils.KeepLastCounts | src/L.LayerTreeControl.js:807-816 | of the appended items each distinct item ends up exactly once |
| Utils.KeepLastSnoc | src/L.LayerTreeControl.js:809-813 | appending one more item drops its earlier copy and puts it last |
| Utils.KeepLastOfDistinct | src/L.LayerTreeControl.js:807-816 | items without repetitions are appended unchanged and in order |
| Utils.AddIfNotExists | src/L.LayerTreeControl.js:807-816 | the loop returns the array without any item, followed by each item once, at the position of its last occurrence |
| Utils.ConvertToKeyValue | src/L.LayerTreeControl.js:796-805 | the keys are exactly the keys of the values; a value whose key no later value repeats is the one stored under it (last wins) |
| EsriProvider.LayerInfoLegends | src/L.LayerTreeControl.js:546-551 | the legends a leaf is built from are the `/legend` layers keyed by `layerId`: a leaf has no legend exactly when no layer reports its id, and otherwise the lines of the last layer that does |
| EsriProvider.KeptMembers | src/L.LayerTreeControl.js:599-605 | the sub-layers that survive the splice are exactly those the allow-list admits |
| EsriProvider.KeptStep | src/L.LayerTreeControl.js:599-605 | one backward step keeps or splices out entry `i` and leaves the rest |
| EsriProvider.KeptNone | src/L.LayerTreeControl.js:585-591 | without a `subLayersList` nothing is spliced out |
| EsriProvider.Kept | src/L.LayerTreeControl.js:599-605 | definition: the entries the allow-list admits, in order; characterised by `KeptMembers` and computed by `FilterSubLayers` |
| EsriProvider.Index | src/L.LayerTreeControl.js:596-606 | definition: the lookup table, earliest entry winning; characterised by `IndexSpec` |
| EsriProvider.InitialIds | src/L.LayerTreeControl.js:579-591 | definition: the ids that start enabled; characterised by `InitialIdsSpec` |
| EsriProvider.BuildLeaf | src/L.LayerTreeControl.js:486-496 | definition: `buildLeaf`; what it produces inside the tree is stated by `Expand` |
| EsriProvider.BuildNode | src/L.LayerTreeControl.js:474-484 | definition: `buildNode` with its pushed children; what it produces inside the tree is stated by `Expand` |
| EsriProvider.IdsOfMembers | src/L.LayerTreeControl.js:606-609 | the recorded ids are those of the kept entries |
| EsriProvider.IndexSpec | src/L.LayerTreeControl.js:596-606 | `subLayersAsObject` has a key per kept id, each mapping to a kept entry with that id, and for duplicate ids the earliest entry wins, since the loop runs backward |
| EsriProvider.InitialIdsSpec | src/L.LayerTreeControl.js:579-584 | an id starts enabled iff it is listed in `visibleLayers`, or `allVisible` is set and it names a kept sub-layer |
| EsriProvider.Expand | src/L.LayerTreeControl.js:474-512 | an entry with `subLayerIds` becomes a group whose children carry those ids in order, and one without becomes a leaf with its legend; id, name, parent and enabled flag are copied; every id below is a known sub-layer id; a failure is `MissingSubLayer` exactly when the id it names is not a kept id |
| EsriProvider.ExpandChildren | src/L.LayerTreeControl.js:502-509 | the built children carry the looked-up ids in order, all known and all enabled by the initial ids; a failure is `MissingSubLayer` exactly when the id it names is not a kept id |
| EsriProvider.Lookup | src/L.LayerTreeControl.js:505-506 | an id missing from the lookup table fails with `MissingSubLayer` (the source's `TypeError`), and no other failure is `MissingSubLayer` of a kept id; a found id gives a tree rooted at that id |
| EsriProvider.TopLevel | src/L.LayerTreeControl.js:514-527 | definition: the trees of the top-level entries; characterised by `TopLevelSpec` and `TopLevelBuilds`, computed by `BuildMultipleTree` |
| EsriProvider.BuildMultiple | src/L.LayerTreeControl.js:514-527 | definition: `buildMultiple`; characterised by `MultipleLayerTree` and `MultipleLayerBuilds` |
| EsriProvider.BuildSingle | src/L.LayerTreeControl.js:529-535 | definition: `buildSingle`; characterised by `SingleLayerCollapse` |
| EsriProvider.Normalize | src/L.LayerTreeControl.js:595-616 | definition: the tree `getTree` resolves with; characterised by `SingleLayerCollapse`, `MultipleLayerTree`, `MultipleLayerBuilds` and `EsriTreeShape`, computed by `GetTree` |
| EsriProvider.ContextOf | src/L.LayerTreeControl.js:596-611 | every key of the lookup table names an entry with that id |
| EsriProvider.SingleLayerCollapse | src/L.LayerTreeControl.js:529-535 | exactly when at most one sub-layer is reported (or none), the result is one leaf carrying the registration's id and name, enabled iff listed visible, with the legend for that id |
| EsriProvider.TopLevelSpec | src/L.LayerTreeControl.js:514-527 | the root's children are the entries with `parentLayerId == -1`, in list order, each with parent -1 and enabled by the initial ids |
| EsriProvider.KeptIdsAllowed | src/L.LayerTreeControl.js:600-604 | every kept id is in the allow-list |
| EsriProvider.IdsOfAppend | src/L.LayerTreeControl.js:599-610 | the ids of two lists joined are the union of their ids |
| EsriProvider.MultipleLayerTree | src/L.LayerTreeControl.js:595-611 | with several sub-layers a successful build is an unchecked root with the registration's id and name, whose children are the top-level kept entries, with initial flags from the initial ids and, given a `subLayersList`, only allowed ids anywhere below |
| EsriProvider.TopLevelIdsKept | src/L.LayerTreeControl.js:520-525 | every top-level child is a kept sub-layer |
| EsriProvider.ExpandBuilds | src/L.LayerTreeControl.js:498-512 | in a service whose entries are well formed (every listed child is a kept entry that records the lister as its parent and ranks lower), expanding an entry below the entries being expanded succeeds, and every child in the result records its group as parent and ranks lower |
| EsriProvider.ExpandChildrenBuild | src/L.LayerTreeControl.js:502-509 | the same for a list of well-formed child ids: every child is built, with the given parent id |
| EsriProvider.LookupBuilds | src/L.LayerTreeControl.js:505-506 | looking up a kept id that ranks below every entry being expanded succeeds, with the entry's parent id |
| EsriProvider.TopLevelBuilds | src/L.LayerTreeControl.js:514-527 | with every kept entry well formed, every top-level entry builds |
| EsriProvider.MultipleLayerBuilds | src/L.LayerTreeControl.js:595-616 | a multi-layer service whose kept entries form a forest normalises without error, and below the top level every child records its group as parent |
| EsriProvider.NestedDistinct | src/L.LayerTreeControl.js:474-512 | in such a tree no group's id recurs below it |
| EsriProvider.ServiceExample | src/L.LayerTreeControl.js:474-527 | a three-entry service with layer 2 visible gives group 1 holding leaf 2 enabled and leaf 3 not |
| EsriProvider.BuildSubTree | src/L.LayerTreeControl.js:498-512 | the recursive builder with its push loop computes `Expand`, including the failures |
| EsriProvider.BuildMultipleTree | src/L.LayerTreeControl.js:514-527 | the root-building loop computes `BuildMultiple` |
| EsriProvider.IdSet | src/L.LayerTreeControl.js:580-590 | the `obj[id] = true` loops record exactly the listed ids |
| EsriProvider.FilterSubLayers | src/L.LayerTreeControl.js:599-610 | the backward splice loop leaves the allowed entries in order, builds the lookup table of those, and adds their ids to the initial ids when `allVisible` is set |
| EsriProvider.GetTree | src/L.LayerTreeControl.js:575-615 | the post-fetch step of `getTree` computes `Normalize` |
| EsriProvider.DynamicMapLayer.constructor | src/L.LayerTreeControl.js:556-557 | the dynamic layer starts with the given visible-layer list |
| EsriProvider.NextLayersShape | src/L.LayerTreeControl.js:555-568 | the new list is the old list without any added or removed id, followed by the added ids (each once, at its last occurrence) that are not removed |
| EsriProvider.NextLayersCounts | src/L.LayerTreeControl.js:555-568 | a removed id is absent, an added id that is not removed occurs once, and every other id keeps its multiplicity |
| EsriProvider.NextLayersDistinctAdd | src/L.LayerTreeControl.js:555-568 | with distinct added ids the added ids are appended in their own order |
| EsriProvider.RemovalIdempotent | src/L.LayerTreeControl.js:561-565 | removing the same ids twice is removing them once |
| EsriProvider.NextLayers | src/L.LayerTreeControl.js:555-568 | definition: the new visible-layer list; characterised by `NextLayersShape`, `NextLayersCounts` and `NextLayersDistinctAdd`, computed by `UpdateActiveLayersDynamic` |
| EsriProvider.UpdateActiveLayersDynamic | src/L.LayerTreeControl.js:555-568 | `setLayers` receives `NextLayers` of the list `getLayers` returned |
| EsriProvider.UpdateActiveLayers | src/L.LayerTreeControl.js:618-624 | the dispatch on the layer type: a dynamic layer is updated (lines 555-568) and passes; any other Esri type goes to the feature-layer stub (lines 570-572), which throws `Not implemented` and leaves the layer as it was |
| LeafletProvider.CreateId | src/L.LayerTreeControl.js:715-717 | for an index below 1000 the parent id and the index are recovered from the child id |
| LeafletProvider.CreateIdInjective | src/L.LayerTreeControl.js:715-717 | below 1000 children per group, distinct (parent, index) pairs give distinct ids |
| LeafletProvider.LegendUrl | src/L.LayerTreeControl.js:695-709 | the legend URL extends the layer's `_url` with the query |
| LeafletProvider.GetLegend | src/L.LayerTreeControl.js:694-713 | a layer gets a WMS legend iff it has a `_url`, and that legend is a large-image legend |
| LeafletProvider.ClassifyLegend | src/L.LayerTreeControl.js:643-657 | defined for any legend but `null`, which throws at line 650; no legend stays none; an array or a large-image legend is kept as it is; any other value becomes a one-entry array whose `imageUrl` is that value |
| LeafletProvider.ClassifyLegendIdempotent | src/L.LayerTreeControl.js:643-657 | a classified legend is classified again unchanged |
| LeafletProvider.SubTree | src/L.LayerTreeControl.js:671-692 | an entry becomes a group iff it has `children`, with the id and parent id it was given, its name, and unchecked |
| LeafletProvider.Stamped | src/L.LayerTreeControl.js:677-679 | the entry gets its id and parent id written back; name, children flag, layer and legend are kept |
| LeafletProvider.Normalize | src/L.LayerTreeControl.js:746-776 | the root carries the registration's id and name, no parent, unchecked, and is a group iff the options have `children` |
| LeafletProvider.WrittenBack | src/L.LayerTreeControl.js:746-767 | with `children`, each child gets the id `createId(layerId, position)` and the parent id `layerId`, keeping its name, layer and legend; without, the options keep a truthy legend and otherwise get `getLegend` of their layer; name, id, parent id and layer are kept |
| LeafletProvider.SubTreeProperties | src/L.LayerTreeControl.js:671-692 | every child id below is `createId(parent, position)`, every leaf legend is classified, and the tree mirrors the written-back description |
| LeafletProvider.NormalizeProperties | src/L.LayerTreeControl.js:746-776 | positional ids and classified legends throughout, children count, order and names kept, and each child mirroring the written-back entry |
| LeafletProvider.NullLegend | src/L.LayerTreeControl.js:684-690 | a `null` legend on a nested leaf entry is not renderable (the `undefined` test lets it through and `buildLeaf` reads `null.largeImageUrl` at line 650); at line 765, a `null` legend of a top-level single layer is falsy, so the call is accepted exactly when there is a layer, and the leaf shows that layer's WMS legend |
| LeafletProvider.NestedLeafFallsBackToWms | src/L.LayerTreeControl.js:684-690 | a nested leaf without a legend shows its layer's WMS legend |
| LeafletProvider.TwoChildrenExample | src/L.LayerTreeControl.js:746-758 | registration 7 with two children gives ids 7000 and 7001 under parent 7, and a plain legend string becomes a one-entry array |
| LeafletProvider.BuildSubTree | src/L.LayerTreeControl.js:671-692 | the recursive loop computes the subtree and the written-back entry |
| LeafletProvider.GetTree | src/L.LayerTreeControl.js:746-776 | the public `getTree` computes `Normalize` and `WrittenBack` |
| LeafletProvider.LayersFromComplete | src/L.LayerTreeControl.js:719-731 | as long as the topmost matches are no more than the ids, the pruned search finds exactly them, in preorder |
| LeafletProvider.LayersFromChildrenComplete | src/L.LayerTreeControl.js:724-729 | the pruned loop over the children appends the children's matches |
| LeafletProvider.LayersFromSound | src/L.LayerTreeControl.js:719-731 | whatever the pruning, every layer found belongs to a matching entry |
| LeafletProvider.LayersFromChildrenSound | src/L.LayerTreeControl.js:724-729 | the loop over the children only adds matches of the children |
| LeafletProvider.LayersFrom | src/L.LayerTreeControl.js:719-731 | definition: the layers the pruned search finds; characterised by `LayersFromComplete` and `LayersFromSound`, computed by `GetLayersFromTree` |
| LeafletProvider.GetLayersFromTree | src/L.LayerTreeControl.js:719-731 | the recursive loop computes `LayersFrom` |
| LeafletProvider.NestedGroupExample | src/L.LayerTreeControl.js:720-722 | unchecking a nested group yields the group's absent layer, not the layer of the leaf below it |
| LeafletProvider.HostMap.constructor | src/L.LayerTreeControl.js:631 | the host map starts without calls recorded |
| LeafletProvider.Adds | src/L.LayerTreeControl.js:733-737 | definition: one `addLayer` call per layer, in order; its effect on the map is `ShownAdds` |
| LeafletProvider.Removes | src/L.LayerTreeControl.js:739-743 | definition: one `removeLayer` call per layer, in order; its effect on the map is `ShownRemoves` |
| LeafletProvider.Named | src/L.LayerTreeControl.js:733-743 | the layers named by the calls; `undefined` names none |
| LeafletProvider.ShownAdds | src/L.LayerTreeControl.js:733-737 | after the add calls the map shows what it showed plus the named layers |
| LeafletProvider.ShownRemoves | src/L.LayerTreeControl.js:739-743 | after the remove calls the map shows what it showed minus the named layers |
| LeafletProvider.Shown | src/L.LayerTreeControl.js:733-743 | definition: the layers present in the map after a run of calls; characterised by `ShownAdds` and `ShownRemoves` |
| LeafletProvider.ActivationCalls | src/L.LayerTreeControl.js:778-791 | definition: the calls `updateActiveLayers` makes; characterised by `ActivationEffect` and made by `UpdateActiveLayers` |
| LeafletProvider.AddLayers | src/L.LayerTreeControl.js:733-737 | the loop makes exactly the add calls, in order |
| LeafletProvider.RemoveLayers | src/L.LayerTreeControl.js:739-743 | the loop makes exactly the remove calls, in order |
| LeafletProvider.ActivationEffect | src/L.LayerTreeControl.js:778-791 | for a grouped registration the map afterwards shows what it showed, minus the layers found for `del`, plus those found for `add` (adding wins); a single layer is shown iff `add` is non-empty |
| LeafletProvider.UpdateActiveLayers | src/L.LayerTreeControl.js:778-791 | the calls made are the removals then the additions of the layers found, or one call for a single layer |
| TreeLeafUI.CheckBoxParent | src/L.LayerTreeControl.js:228 | definition: a top-level parent id -1 becomes the registration's id; that every rendered child then points at its group is `Linked`, established by `LeafletTreeShape` and `EsriTreeShape` and used by `FoundRow` |
| TreeLeafUI.Seed | src/L.LayerTreeControl.js:221-229 | definition of one checkbox; that checkboxes start checked exactly for enabled items is `RenderCheckedLeaves`, and what their parent ids lead to is `FoundRow` |
| TreeLeafUI.Render | src/L.LayerTreeControl.js:339-352 | the item's own checkbox comes first, and everything rendered after it is deeper |
| TreeLeafUI.RenderFrom | src/L.LayerTreeControl.js:345-349 | the children's checkboxes are at least as deep as the children |
| TreeLeafUI.Navigate | src/L.LayerTreeControl.js:339-352 | the recursive loop renders exactly `Render` |
| TreeLeafUI.CheckedLeavesAppend | src/L.LayerTreeControl.js:179-187 | the checked leaves of joined runs are the checked leaves of each, in order |
| TreeLeafUI.RenderCheckedLeaves | src/L.LayerTreeControl.js:227-229 | the checked leaf checkboxes of a rendered tree are its enabled leaves in document order |
| TreeLeafUI.RenderFromCheckedLeaves | src/L.LayerTreeControl.js:345-349 | the same for the children from a position on |
| TreeLeafUI.Find | src/L.LayerTreeControl.js:116 | the query gives the first checkbox after the registration's own with that id, or none when there is none |
| TreeLeafUI.FindFrom | src/L.LayerTreeControl.js:116 | the same search from a position on |
| TreeLeafUI.SubtreeEnd | src/L.LayerTreeControl.js:139-141 | the children container of a checkbox is the longest run of deeper checkboxes after it |
| TreeLeafUI.SubtreeEndFrom | src/L.LayerTreeControl.js:139-141 | the same run from a position on |
| TreeLeafUI.RenderSubtreeEnd | src/L.LayerTreeControl.js:135-142 | in a rendered tree the registration's children container holds every other checkbox |
| TreeLeafUI.SubtreeEndAt | src/L.LayerTreeControl.js:139-141 | the children container of a block's first checkbox ends where the block of deeper checkboxes does |
| TreeLeafUI.RenderDistinct | src/L.LayerTreeControl.js:339-352 | a tree with unique ids renders checkboxes with distinct ids |
| TreeLeafUI.RowOf | src/L.LayerTreeControl.js:221-229 | every item below the root of a linked tree has a checkbox seeded with the id of its innermost enclosing group |
| TreeLeafUI.FoundRow | src/L.LayerTreeControl.js:114-119 | with unique ids, the id query for an item lands on its checkbox, whose parent id is the item's innermost enclosing group |
| TreeLeafUI.SubBlock | src/L.LayerTreeControl.js:339-352 | the checkboxes of any item form one contiguous block of the rendering, no shallower than the tree, followed by nothing deeper |
| TreeLeafUI.FoundBlock | src/L.LayerTreeControl.js:135-142 | with unique ids, the id query for an item lands on the first checkbox of its block, and that checkbox's children container ends with the block |
| TreeLeafUI.AncestryShorter | src/L.LayerTreeControl.js:109-132 | an item has fewer enclosing groups than its tree has checkboxes, so that many walk steps suffice |
| TreeLeafUI.Skeleton | src/L.LayerTreeControl.js:114-119 | definition: what the document queries read, everything but the check states; used by `CheckKeepsSkeleton` and `ParentWalkIgnoresChecks` |
| TreeLeafUI.CheckBoxes.constructor | src/L.LayerTreeControl.js:361-364 | `render` creates the checkboxes of the tree, rooted at the tree's own id, at depth 1 |
| LayerManager.ScanAppend | src/L.LayerTreeControl.js:147-163 | scanning two runs is scanning the first and continuing with the second |
| LayerManager.Visit | src/L.LayerTreeControl.js:147-163 | definition: one step of the `turnNodeOn` scan; what the scan collects is `NodeOnScanRendered` and `NodeOnScanNested` |
| LayerManager.ScanRows | src/L.LayerTreeControl.js:147-163 | definition: the scan over a run of checkboxes; composed by `ScanAppend` |
| LayerManager.NodeOnScan | src/L.LayerTreeControl.js:134-166 | definition: the lists `turnNodeOn` collects; characterised by `NodeOnScanRendered` and `NodeOnScanNested`, computed by `CollectNodeOn` |
| LayerManager.NodeOffIds | src/L.LayerTreeControl.js:168-189 | definition: the ids `turnNodeOff` removes; characterised by `NodeOffIdsRendered` and `NodeOffIdsNested`, computed by `CollectNodeOff` |
| LayerManager.NodeRange | src/L.LayerTreeControl.js:135-141 | the scanned checkboxes lie after the registration's own; for a nested group of a rendered tree with unique ids they are exactly the group's children (`NestedRange`) |
| LayerManager.NodeOnScanRendered | src/L.LayerTreeControl.js:134-166 | on a rendered tree the scan switches on every leaf that is checked and whose group is checked, and off every leaf whose group is unchecked, with the registration counted as checked |
| LayerManager.NodeOffIdsRendered | src/L.LayerTreeControl.js:168-189 | switching a rendered registration off removes its own id and then every enabled leaf in document order |
| LayerManager.NestedRange | src/L.LayerTreeControl.js:135-141 | for a nested group of a rendered tree with unique ids, the lookup finds the group's checkbox and the scanned run is exactly the checkboxes of its children |
| LayerManager.NodeOnScanNested | src/L.LayerTreeControl.js:134-166 | on the checkbox of a nested group of such a tree, the scan collects the group's checked leaves under checked groups and switches off the leaves under unchecked ones |
| LayerManager.NodeOffIdsNested | src/L.LayerTreeControl.js:168-189 | switching off a nested group of such a tree removes the group's id and every enabled leaf below it, in document order |
| LayerManager.AllIdsFromBound | src/L.LayerTreeControl.js:671-692 | a lower bound on every id below holds for all the children together |
| LayerManager.LeafletSubTreeShape | src/L.LayerTreeControl.js:671-692 | with a positive id a Leaflet subtree is seeded with each group's id as its children's parent, no group's id recurs below it, and ids grow downwards |
| LayerManager.LeafletTreeShape | src/L.LayerTreeControl.js:746-776 | a Leaflet registration with a positive id renders to checkboxes that satisfy `NodeOnScanRendered`'s hypotheses |
| LayerManager.EsriSubTreeLinked | src/L.LayerTreeControl.js:221-229 | an Esri subtree whose children record their group as parent, with no id -1, is seeded with each group's id as its children's parent |
| LayerManager.EsriTreeShape | src/L.LayerTreeControl.js:514-527 | a multi-layer service whose kept entries form a forest, with no id -1 and none equal to the registration's, builds a group that satisfies `NodeOnScanRendered`'s hypotheses |
| LayerManager.ParentWalk | src/L.LayerTreeControl.js:109-132 | the walk visits checkboxes in range, ends at the registration's own, and is empty when started there |
| LayerManager.ParentWalkAlong | src/L.LayerTreeControl.js:109-132 | on a rendered tree with unique ids, with fuel at least the item's depth, the walk succeeds and visits the checkboxes of the item's enclosing groups, innermost first, ending at the registration's own |
| LayerManager.ParentWalkRendered | src/L.LayerTreeControl.js:109-132 | the same for every item with the fuel the entry points pass, the number of checkboxes; so the walk `TurnLayersOn` and `TurnNodeOn` require exists for every item |
| LayerManager.ParentWalkIgnoresChecks | src/L.LayerTreeControl.js:114-119 | the walk depends only on ids and parent ids, not on check states |
| LayerManager.FindIgnoresChecks | src/L.LayerTreeControl.js:116 | the id query does not depend on check states |
| LayerManager.CheckKeepsSkeleton | src/L.LayerTreeControl.js:127 | checking a checkbox changes nothing the queries read |
| LayerManager.CheckedAt | src/L.LayerTreeControl.js:127 | definition: the checkboxes on the walk become checked, the others are kept; `CheckedAtCons`, `TurnParentsOnIdempotent` and `TurnParentsOn` are stated with it |
| LayerManager.TurnParentsOnIdempotent | src/L.LayerTreeControl.js:109-132 | turning the parents on a second time takes the same walk and checks nothing new |
| LayerManager.CheckedAtCons | src/L.LayerTreeControl.js:127-131 | checking one checkbox and then those of the rest of the walk is checking those of the whole walk |
| LayerManager.CollectNodeOn | src/L.LayerTreeControl.js:134-164 | the `turnNodeOn` loop collects exactly the scan's on and off lists and changes no checkbox |
| LayerManager.CollectNodeOff | src/L.LayerTreeControl.js:168-187 | the `turnNodeOff` loop collects the group's id and then the checked leaves below it |
| LayerManager.TurnParentsOn | src/L.LayerTreeControl.js:109-132 | the recursion checks exactly the checkboxes of the parent walk and changes nothing else; on a rendered tree with unique ids those are the item's enclosing groups (`ParentWalkRendered`) |
| LayerManager.Registration.constructor | src/L.LayerTreeControl.js:14-58 | a registration holds its type, options, dynamic layer, host map and checkboxes |
| LayerManager.UpdateActiveLayers | src/L.LayerTreeControl.js:191-197 | activation fails, with `NotImplemented`, exactly for an Esri feature layer; Esri types go to the Esri provider, Leaflet to the Leaflet provider, any other type changes nothing |
| LayerManager.TurnLayersOn | src/L.LayerTreeControl.js:200-203 | the ids are activated; on success the parents of the first id get checked, and on the feature layer's throw no checkbox changes; the walk it requires exists for every item of a rendered tree with unique ids (`ParentWalkRendered`) |
| LayerManager.TurnLayersOff | src/L.LayerTreeControl.js:204-206 | the ids are deactivated and no checkbox changes |
| LayerManager.TurnNodeOn | src/L.LayerTreeControl.js:207-210 | the scan's on and off lists are applied; on success the group's parents get checked; on a rendered tree with unique ids those lists are the group's on and off leaves (`NodeOnScanNested`) |
| LayerManager.TurnNodeOff | src/L.LayerTreeControl.js:211-213 | the group's id and every checked leaf below it are deactivated and no checkbox changes |

## Left out

- Network I/O: the `/` and `/legend` requests of the Esri service, with their tokens and credentials, are not modelled (`getService`, `getLegend`, `getInfo`, `getLayerInfo`). Their results are parameters of `EsriProvider.Normalize`; only the keying of the legend response by `layerId` is modelled (`LayerInfoLegends`).
- Promises: each `getTree` is modelled as the function its promise resolves with.
- The control's lifecycle is not modelled (`initialize`, `addLayer`, `onAdd`, `L.control.layerTreeControl`). A `Registration` is built directly from its parts.
- The DOM is abstracted to the checkbox records. Labels, legend rendering (`addLegend`), expand and collapse, level spacing and click handlers are left out, because they draw and do not decide.
- `getLayerById`: the registration is passed to the entry points directly. The lookup by `'layertree-' + L.stamp(...)` is not modelled.
- Ids are integers. The live registration id is the string `'layertree-N'`, so `createId` on it does not give a number in practice. This is not reproduced. Because that string never equals a numeric sub-layer id, the model takes the registration id to be distinct from every sub-layer id, as `EsriTreeShape` assumes; an integer registration id equal to a sub-layer id is not excluded by the types, and there the model diverges from the source. With such a collision the collapsed Esri leaf of `SingleLayerCollapse`/`BuildSingle` would start enabled from a `visibleLayers` entry (src/L.LayerTreeControl.js:493, 533) and find a legend (line 491), and `NextLayers` (lines 559-565) would add or filter a sub-layer entry when given the registration id, as `turnNodeOff` does with `[nodeId]` (line 177) and a collapsed leaf's `turnLayersOn` does; in the source none of these match.
- `parseInt` on collected ids is the identity, since ids are integers.
- Only one registration's checkboxes are modelled, the first being its own. Queries that would match checkboxes of other registrations are not modelled.
- LeafletProvider.LegendUrl: the URL is a plain concatenation. The `URL` API's parsing, normalisation and exception on a malformed `_url` are not modelled.
- `null` legends: a caller's `null` Leaflet legend is `NullValue`. The Esri leaf without a legend entry, whose legend is `null` in the source, is `None` in the model instead, the same value as the absent Leaflet legend. The two differ when rendered (see the next line).
- TreeLeafUI.CheckBoxes.constructor: an Esri leaf with a `null` legend stops rendering. `addLegend` returns only on `undefined` (src/L.LayerTreeControl.js:260). With `renderLegends` on, the default, it reads `null.largeImageUrl` (line 277) and throws, so no later checkbox is created. The constructor renders the whole tree.
- TreeLeafUI.CheckBoxes.constructor: a leaf whose legend is an empty array also stops rendering. This is an Esri `/legend` layer with `legend: []` (`Some(ArrayValue([]))` from `LeafLegend`), or a Leaflet `legend: []`, which `ClassifyLegend` keeps and which is truthy at line 765. `addLegend` passes the `undefined` and `largeImageUrl` tests (src/L.LayerTreeControl.js:260, 277) and fails `length > 1` (line 288). It then takes the single-line branch and calls `createLegend(legends[0], …)` with `undefined` (lines 296-301). Line 267 reads `undefined.imageData` and throws, so no later checkbox is created. The constructor renders the whole tree.
- TreeLeafUI.CheckBoxes.constructor: `getChildrenContainer` (src/L.LayerTreeControl.js:315-316) finds a child's container by the first `[data-id]` match. A group id that occurs twice, as the Esri normaliser emits for a sub-layer listed by two groups, gets its children appended under its first header. `Render` nests them under their own header. The id-based lemmas assume unique ids (`UniqueIds`) for this reason.
- LeafletProvider.CreateId: `createId` is double arithmetic. Past 2^53, a few levels below a small registration id, its results are rounded, and the exact inverse and injectivity stated here stop holding. The model uses unbounded integers.
- LayerManager.ParentWalkRendered: that the Leaflet and Esri normalisers produce trees with unique ids is not proved. For Leaflet it needs at most 1000 children per group; for Esri it needs distinct kept ids and no sub-layer listed twice. The lemma, `NodeOnScanNested` and `NodeOffIdsNested` take `UniqueIds` as a hypothesis.
- EsriProvider.MultipleLayerBuilds: only the direction "a forest builds" is proved. A service that is not a forest can still build, for example when a cycle is unreachable from the top level, and no lemma says which failing inputs fail. What is stated about failures is their kind: `MissingSubLayer` names exactly an id that is not kept.
- LayerManager.Registration.constructor: the registration's fields are not tied together. In the source the options object has no `id` of its own, because the root's id exists only in the built tree (src/L.LayerTreeControl.js:750), so `getLayersFromTree` never matches the root at line 720. The model accepts any `options`, including one with `id == Some(layerId)`, for which `TurnNodeOff` on the registration's own checkbox removes only `options.layer`. Nor are `ui`'s checkboxes required to be the rendering of the options' tree; the lemmas about the rendering (`NodeOnScanRendered`, `ParentWalkRendered` and the rest) state the facts for `Render` of a normalised tree instead.
- Aliasing: the ids the Leaflet provider writes into the caller's child objects are modelled on values. `WrittenBack` returns the rewritten description. The registration's `options` `Description` stands for the registration object that `updateActiveLayers` reads (src/L.LayerTreeControl.js:780, 788). Its children are the objects the normaliser rewrote, so they carry the written-back ids, and its `layer` is the registration's layer (lines 35-42). No shared objects are modelled.
- LeafletProvider.UpdateActiveLayers: `map.addLayer(undefined)` and `map.removeLayer(undefined)` are recorded as calls that name no layer. Whatever Leaflet does with them is not modelled.
- LayerManager.ParentWalk: the walk carries a fuel bound. The entry points pass the number of checkboxes, which suffices on a rendered tree with unique ids (`ParentWalkRendered`). A cyclic chain of parent ids, which would recurse without end in the source, is `None`.
- LeafletProvider.SubTree: a nested leaf with neither a legend nor a layer, or with a `null` legend, makes the source throw synchronously. A `null` legend passes the `=== undefined` test (src/L.LayerTreeControl.js:687), and `buildLeaf` then reads `null.largeImageUrl` (line 650). Both are a precondition (`Renderable`, `Accepts`), not an error result. At the top level, `null` is falsy (line 765) and falls back to `getLegend` (`NullLegend`).
- Esri build failures happen inside the promise, so they become rejections. A missing sub-layer lookup and a cycle in `subLayerIds` (unbounded recursion) are therefore `Err` results.
- LayerManager.TurnLayersOn: the source's `TypeError`s when an id is not found are preconditions, as in `TurnNodeOn`.
- Concurrency is not modelled: the interleaving of fetches and clicks.
