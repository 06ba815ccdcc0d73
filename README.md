# SketchUp importer: scene import core, in Dafny

This project models the core of the SketchUp importer's `SceneImporter`, the
object that turns a SketchUp model into Blender objects. Five parts are
modelled:

- **The mesh builder** (`write_mesh_data`). It turns the faces of one entity
  list into an indexed mesh: distinct vertices in first-seen order, three
  loop indices per triangle, one material slot per distinct material, a
  smooth flag per triangle and an optional per-loop UV layer. The result is
  cached under its (name, default material) key.
- **The analysis walk** (`analyze_entities`). It records, for every
  component placement reachable from the model root, the composed transform
  under its (definition, material) pair.
- **The deduplication pass** (`write_duplicateable_groups`, with the skip
  bookkeeping of `component_def_as_group`). Level by level over the
  component depths, it promotes each pair with at least `max_instance`
  placements to a shared group. It never promotes a definition at depth 1.
- **The write pass** (`write_entities`). It walks the entity tree and
  creates one object per node, a hidden empty plus a loose-mesh object for
  nodes with children. It is meant to record the placements of promoted
  pairs instead of writing them. As written, it looks them up under their
  object names and so records none (see Findings).
- **Point instancing** (`get_orientations` and the loop of
  `instance_group_dupli_vert`). It groups one pair's placements by
  orientation and turns each cluster into a point cloud of offsets from the
  cluster's first location.

Also modelled are the warehouse-browser helpers: version extraction, entity
list parsing, slugs, thumbnail choice and page offsets.

Modules:

| module | file | what it holds |
|---|---|---|
| `Common` | common.dfy | `FirstSeen` (order of first occurrence), `IndexOf`, `Flatten` |
| `Scene` | scene.dfy | entities, groups, instances, faces, the session `Config` |
| `Multimap` | multimap.dfy | `defaultdict(list)` as keys in insertion order plus per-key lists |
| `MeshBuilder` | mesh.dfy | the mesh builder, its specification `MeshFor` and its loops |
| `Analysis` | analysis.dfy | the analysis walk, specified by `Visits`, and its recursive method |
| `Dedup` | dedup.dfy | eligibility, the level sweep and the promotion bookkeeping |
| `Writer` | writer.dfy | the write pass as a function returning the objects it links |
| `Clusters` | clusters.dfy | orientation buckets and point clouds |
| `Session` | session.dfy | the `Importer` class, whose fields the passes update |
| `Warehouse` | warehouse.dfy | the warehouse-browser helpers |

Transforms are an uninterpreted product (`Compose`). A component definition
is held inside each of its instances, so the entity tree is a finite value
and every walk recurses structurally. Four helpers whose source is not part
of this model are parameters of `Config`: `inherent_default_mat`,
`group_safe_name`, `group_name` and the layer test. The mesh cache of the
class keeps, as a ghost field, the faces each entry was built from, so its
invariant can say what every entry is.

## Model

| member | source | states |
|---|---|---|
| MeshBuilder.MeshFor | sketchup_importer/__init__.py:490-632 | There is no mesh, `(None, False)`, exactly when the faces have no vertex at all. Otherwise the mesh's vertices are the faces' vertices in first-seen order. |
| MeshBuilder.BuildMesh | sketchup_importer/__init__.py:498-632 | The imperative builder (face loop, slot binding, loop starts, UV fill) returns exactly `MeshFor` of its inputs. |
| MeshBuilder.CollectFaces | sketchup_importer/__init__.py:508-561 | After the face loop: the vertex list is the first-seen order of all face vertices, and the offset table numbers it. The loop indices, UV tuples, smooth flags and slot numbers are those of all triangles in order. |
| MeshBuilder.Intern | sketchup_importer/__init__.py:525-528 | Get-or-insert on an offset table: a new key gets the table's size. It keeps the table a numbering of the first-seen order, returns the key's index in that order, and grows the table exactly when the key is new. |
| MeshBuilder.InternVertices | sketchup_importer/__init__.py:523-529 | The per-face vertex loop extends the first-seen order by the face's vertices. The mapping sends each face vertex to its index in the mesh's vertex list. |
| MeshBuilder.FindSmoothEdge | sketchup_importer/__init__.py:531-536 | The smooth flag is true exactly when some edge of the face is smooth. |
| MeshBuilder.OrientTriangle | sketchup_importer/__init__.py:539-558 | A triangle is emitted as (f2, f0, f1) exactly when f2's vertex has mesh index 0, otherwise as (f0, f1, f2). Its UV sextuple follows the same order. |
| MeshBuilder.EmitTriangles | sketchup_importer/__init__.py:538-561 | The triangle loop appends, per triangle, the oriented loop indices, the UV sextuple, the face's smooth flag and its slot number, in triangle order. |
| MeshBuilder.KeysByOffset | sketchup_importer/__init__.py:569-570 | Sorting the slot table by offset gives back the slots in first-seen order. |
| MeshBuilder.BindMaterials | sketchup_importer/__init__.py:568-588 | Each slot is bound to its session material, or to "Material" when unknown. The UV flag follows the slots' texture state, including the reset on a material without a node tree. |
| MeshBuilder.LoopStarts | sketchup_importer/__init__.py:595-599 | Polygon `i` starts at loop `3*i`. |
| MeshBuilder.FillUvLayer | sketchup_importer/__init__.py:615-626 | Loop `p` of the layer takes coordinates `2*(p%3)` and `2*(p%3)+1` of its triangle's sextuple. |
| MeshBuilder.UvLayerAgrees | sketchup_importer/__init__.py:615-626 | The filled layer is exactly the UV of every loop, in emitted corner order. |
| MeshBuilder.NoVertices | sketchup_importer/__init__.py:563-564 | An empty vertex list after the face loop means the faces have no vertex. |
| MeshBuilder.MeshShape | sketchup_importer/__init__.py:592-613 | A built mesh has distinct vertices, exactly the faces' vertices. It has one polygon, smooth flag and slot per triangle, three loops per polygon, each loop naming an existing vertex, and loop starts and totals per polygon. |
| MeshBuilder.TrianglePolygon | sketchup_importer/__init__.py:538-561 | Triangle `k` of face `j` becomes a polygon. Its smooth flag says whether the face has a smooth edge. Its slot is the first-seen slot of the face's material key, bound to that key's session material. |
| MeshBuilder.TriangleCorners | sketchup_importer/__init__.py:538-558 | Each corner of every triangle is a loop naming the mesh vertex equal to the emitted face vertex, and carries that vertex's UV. |
| MeshBuilder.LoopsInRange | sketchup_importer/__init__.py:603-607 | Every loop index names one of the mesh's vertices. |
| Analysis.AnalyzeEntities | sketchup_importer/__init__.py:378-419 | The recursive walk appends to the statistics exactly the visits `Visits` lists, in order: a component's own placement, then its groups, then its instances. |
| Analysis.AnalyzeGroups | sketchup_importer/__init__.py:390-402 | The group loop appends the walks of the groups not on a skipped layer, in order. |
| Analysis.AnalyzeInstances | sketchup_importer/__init__.py:403-418 | The instance loop appends the walks of the instances that are neither on a skipped layer nor in the skip list, in order. |
| Analysis.GroupIncluded | sketchup_importer/__init__.py:390-402 | Every group's visits are among the group loop's visits. |
| Analysis.InstanceRecorded | sketchup_importer/__init__.py:403-418 | A shown, unskipped instance records its (definition, inherited material) pair with the composed transform. |
| Analysis.SkippedGroupsIgnored | sketchup_importer/__init__.py:391-392 | Groups on a skipped layer contribute nothing: walking all groups is walking the shown ones. |
| Analysis.SkippedInstancesIgnored | sketchup_importer/__init__.py:404-405 | Instances on a skipped layer contribute nothing. |
| Analysis.VisitKeysAreDefinitions | sketchup_importer/__init__.py:388-418 | Every recorded pair names a component definition reachable from the walked entities, or the component being visited. |
| Dedup.EligibleIff | sketchup_importer/__init__.py:347-350 | A pair is kept exactly when it was analysed and has at least `max_instance` placements. The kept pairs keep the analysis order and are distinct. |
| Dedup.Promote | sketchup_importer/__init__.py:359-376 | Promoting a pair skips it, records its group under the `group_name` name and leaves that group among the file's collections. The group is reused exactly when reuse is on and the name is already a collection. No other pair's group changes. |
| Dedup.LevelIff | sketchup_importer/__init__.py:352-359 | Level `i` holds exactly the kept pairs of depth `i`, and none of depth 1. |
| Dedup.SweepIff | sketchup_importer/__init__.py:351-359 | Sweeping `n` levels promotes exactly the kept pairs whose depth is below `n` and is not 1. |
| Dedup.SweepAll | sketchup_importer/__init__.py:342-359 | Sweeping up to the largest depth promotes exactly the kept pairs not at depth 1. |
| Dedup.SweepDistinct | sketchup_importer/__init__.py:351-359 | No pair is promoted twice. |
| Dedup.PromoteAllSkip | sketchup_importer/__init__.py:363-375 | Promotion adds every promoted pair to `component_skip` and nothing else, and keeps every existing collection. |
| Dedup.PromoteAllWritten | sketchup_importer/__init__.py:364-376 | Promotion records a group for each promoted pair and leaves every other pair's group alone. |
| Dedup.PromoteAllNames | sketchup_importer/__init__.py:360-376 | Each promoted pair's group has the `group_name` of the pair. It is always created when reuse is off. |
| Dedup.PromoteAllCollections | sketchup_importer/__init__.py:361-376 | Every promoted pair's group is a collection of the file afterwards. A reused group implies reuse is on. |
| Session.Candidates | sketchup_importer/__init__.py:336-350 | The kept pairs are distinct, each has a known depth, and they are exactly the analysed pairs with at least `max_instance` placements. |
| Session.PromotionsExactly | sketchup_importer/__init__.py:341-376 | The pass promotes each pair at most once, and promotes exactly the frequent pairs whose definition is not at depth 1. |
| Session.DedupOutcome | sketchup_importer/__init__.py:351-376 | After the pass, a pair is skipped exactly when it was skipped before or is promotable. Every promoted pair has its `group_name` group recorded. |
| Session.MaxDepthUnique | sketchup_importer/__init__.py:342 | The largest depth is unique. |
| Session.MaxDepth | sketchup_importer/__init__.py:342 | `max(component_depth.values(), default=0)`: bounds every depth, is one of them, and is 0 for an empty table. |
| Session.FilterEligible | sketchup_importer/__init__.py:347-350 | The filter keeps, in analysis order, the pairs with at least `max_instance` placements. |
| Session.PromoteLevels | sketchup_importer/__init__.py:351-376 | The level loop over `0 .. max_depth` promotes, in order, each level's pairs. |
| Session.PromoteLevel | sketchup_importer/__init__.py:352-376 | One level promotes, in order, the kept pairs of that depth, and passes over depth 1. |
| Session.DedupPass | sketchup_importer/__init__.py:335-376 | The whole pass on the books: the analysis, the largest depth, the filter and the sweep give `PromoteAll` of the promotions. |
| Session.CacheIdempotent | sketchup_importer/__init__.py:495-497 | Asking the cache twice gives the first answer and leaves the cache as the first call left it. |
| Session.CacheOutcome | sketchup_importer/__init__.py:495-630 | A cached key answers its entry and changes nothing. Otherwise the answer is the built mesh with alpha off, cached exactly when the faces have a vertex, and `(None, False)` when they have none. No other key changes. |
| Session.Importer.constructor | sketchup_importer/__init__.py:135-172 | A new session has an empty mesh cache, statistics, skip set and group table, and a faithful cache. |
| Session.Importer.WriteMeshData | sketchup_importer/__init__.py:490-632 | The method's answer and new cache are `CachedBuild` of the old cache. A hit is the mesh built from the faces first cached under that key. The cache stays faithful and the other fields are unchanged. |
| Session.Importer.WriteDuplicateableGroups | sketchup_importer/__init__.py:335-376 | The books become `PromoteAll` of the promotions. A pair is skipped afterwards exactly when it was skipped before or is promotable. Every cached mesh entry is kept as it was, and the statistics are unchanged. |
| Session.Importer.WriteModel | sketchup_importer/__init__.py:313-315 | The write pass from the root, under the given keying, links the objects `Write` lists and appends its recorded placements to `component_stats`. Under the object-name keying the program uses, with plain definition names in the skip set, `component_stats` is left as it was. |
| Session.Importer.InstancePairs | sketchup_importer/__init__.py:316-321 | One list of point clouds per recorded pair, in recording order. Each list is the clustering of that pair's placements. |
| Writer.Write | sketchup_importer/__init__.py:640-750 | A visit links no object exactly when it is a component visit whose key is in the skip set. It then records only its parent transform under that key. Otherwise its first object is the node itself or its loose-mesh child, at the node's transform. |
| Writer.HitsAreSkipped | sketchup_importer/__init__.py:652-656 | Every recorded placement is under a skipped key. |
| Writer.PassedGroupsIgnored | sketchup_importer/__init__.py:712-716 | Hidden groups and groups on a skipped layer write nothing. |
| Writer.PassedInstancesIgnored | sketchup_importer/__init__.py:730-734 | Hidden instances and instances on a skipped layer write nothing. |
| Writer.SkippedInstanceRecorded | sketchup_importer/__init__.py:730-750 | Looked up by definition name, a shown placement of a skipped pair is recorded with its composed transform and links no object. |
| Writer.NodeNameNeverSkips | sketchup_importer/__init__.py:652-656 | Looked up by object name, as written, no placement is ever short-circuited while the skip set holds plain definition names. |
| Writer.ChairCounterexample | sketchup_importer/__init__.py:652-656 | One promoted chair, which itself places a leg, under the root. The object-name lookup writes it in full (three objects) and records nothing. The definition-name lookup records its placement and links only the root. |
| Writer.OwnNodes | sketchup_importer/__init__.py:666-710 | A node without children, or the loose-entity root, gets one object showing its mesh. Any other node gets a hidden empty, preceded by a loose-mesh child when it has a mesh. Parents follow `parent_name`. |
| Writer.ComponentNodeName | sketchup_importer/__init__.py:738-741 | An unnamed placement is "C-" + its definition name. A named one is its name followed by " (C-" + its definition name + ")". |
| Clusters.GetOrientations | sketchup_importer/__init__.py:847-856 | The buckets are the placements grouped by orientation, in first-seen order of orientations, each holding its locations in order. |
| Clusters.Offsets | sketchup_importer/__init__.py:863-866 | Each point is its location minus the first. The first point is the origin. |
| Clusters.PointClouds | sketchup_importer/__init__.py:861-873 | One cloud per bucket, in bucket order. Each cloud carries the bucket's orientation, is placed at its first location and holds its locations' offsets. |
| Clusters.BucketContents | sketchup_importer/__init__.py:848-853 | An orientation's bucket holds exactly the locations of the placements with that orientation, in order. |
| Clusters.PlacementInBucket | sketchup_importer/__init__.py:849-853 | Every placement lands in its orientation's bucket. |
| Clusters.BucketOnlyOwn | sketchup_importer/__init__.py:849-853 | A bucket holds only placements of its own orientation. |
| Clusters.BucketsPartition | sketchup_importer/__init__.py:848-856 | The bucket sizes add up to the number of placements. The buckets come in first-seen order of orientations. |
| Clusters.BucketsNonEmpty | sketchup_importer/__init__.py:854-866 | Every bucket is non-empty, so every cloud has a first location. |
| Warehouse.ExtractVersions | sketchup_importer/__init__.py:1152-1164 | The versions are sorted newest first and are, as a multiset, the versions named by the keys. |
| Warehouse.VersionOf | sketchup_importer/__init__.py:1157-1160 | A key names a version exactly when it is "s" followed by one or two digits. The version is below 100. |
| Warehouse.VersionsIff | sketchup_importer/__init__.py:1156-1160 | A version is listed exactly when some key names it. |
| Warehouse.SortDesc | sketchup_importer/__init__.py:1163 | The result is descending and a permutation of the input. |
| Warehouse.ParseEntities | sketchup_importer/__init__.py:1431-1440 | The method returns `EntityList` of the data. |
| Warehouse.FirstListIs | sketchup_importer/__init__.py:1434-1437 | No list is found exactly when no key holds a non-empty list. A found list is the one held under such a key. |
| Warehouse.EntityListEmpty | sketchup_importer/__init__.py:1431-1440 | The result is empty exactly when the data is neither a non-empty list nor a record with a non-empty list under one of the four keys. |
| Warehouse.Slugify | sketchup_importer/__init__.py:1442-1445 | The slug is non-empty, at most 60 characters, and made only of letters, digits, '-' and '_'. |
| Warehouse.Cut | sketchup_importer/__init__.py:1445 | An empty clean-up gives "Model". Any other gives its first 60 characters (all of it when shorter). |
| Warehouse.KeepAllowedConcat | sketchup_importer/__init__.py:1444 | The pattern deletion works character by character: the deletion of a concatenation is the concatenation of the deletions. |
| Warehouse.KeepAllowedChar | sketchup_importer/__init__.py:1444 | A single character is kept exactly when it is a letter, digit, '-', '_' or space. |
| Warehouse.SlugifyNone | sketchup_importer/__init__.py:1444-1445 | A missing title gives the slug "Model". |
| Warehouse.NoSlugCharIsModel | sketchup_importer/__init__.py:1444-1445 | A title with no letter, digit, '-' or '_' leaves nothing after the clean-up, so its slug is "Model". |
| Warehouse.SlugExample | sketchup_importer/__init__.py:1444-1445 | "My Chair!" gives "My-Chair": the '!' is deleted, the letters are kept and the space becomes a dash. |
| Warehouse.CleanTitleKept | sketchup_importer/__init__.py:1442-1445 | A name that is already a short slug is kept as is. |
| Warehouse.SlugifyIdempotent | sketchup_importer/__init__.py:1442-1445 | Slugifying a slug gives it back. |
| Warehouse.PickThumbnail | sketchup_importer/__init__.py:1447-1465 | The method returns `Thumbnail` of the binaries. |
| Warehouse.FromKeysFirst | sketchup_importer/__init__.py:1449-1456 | No preferred entry is found exactly when none of the keys has a usable entry. A found URL is that of a usable entry under one of the keys. |
| Warehouse.FromAnyIff | sketchup_importer/__init__.py:1458-1464 | The fallback finds nothing exactly when no entry is a usable image. A found URL is non-empty. |
| Warehouse.ThumbnailEmpty | sketchup_importer/__init__.py:1447-1465 | The answer is `('', '')` exactly when no preferred key has a usable entry and no entry is a usable image. |
| Warehouse.PageOffset | sketchup_importer/__init__.py:1473-1478 | Paging keeps the offset non-negative. Without paging, a new query resets the offset to 0 and the same query keeps it. |
| Warehouse.PageRoundTrip | sketchup_importer/__init__.py:1477-1478 | Paging forward then back by the same step, without clamping, returns to the starting offset. |

## Findings

| source | as written | input that shows it | evidently intended | confidence | as-written member | corrected member |
|---|---|---|---|---|---|---|
| sketchup_importer/__init__.py:652-656 | The write pass looks a component visit up in `component_skip` under its object name. That name is "C-" + the definition name, or "name (C-definition)". The deduplication pass (lines 363 and 375) stores definition names. | The root holds one unnamed placement of a definition "Chair", which itself places a "Leg", and the pair ("Chair", "Material") is promoted (its depth is not 1). The lookup asks for ("C-Chair", "Material"), misses, writes the chair and its leg in full and records no placement, so no point instancing follows. | Look up the placement's definition name, so that a promoted pair is recorded in `component_stats` and drawn from its shared group. | not executed | Writer.ChairCounterexample | Writer.SkippedInstanceRecorded |

`Writer.NodeNameNeverSkips` proves the general form: with the lookup as
written, no placement is ever recorded. `Writer.Write` and the session's
write pass, `Session.Importer.WriteModel`, take the keying as a parameter:
`ByNodeName` is the lookup as written, `ByDefinitionName` the corrected one.

## Left out

- Blender itself: object, mesh, collection and material creation, the camera and scene import, viewport visibility and linking. Objects are modelled as records of name, mesh key, transform, parent and hidden flag.
- `instance_group_dupli_face` and `instance_object_or_group`: the face-based instancing variant and object creation from a group or cached mesh. Both create Blender data only.
- `component_def_as_group`: only its skip bookkeeping is modelled. An outermost call on an unskipped pair adds it to `component_skip` (`Dedup.MarkAsGroup`). The objects it writes into the group, and the meshes it caches on the way, are not modelled.
- `component_skip` is modelled as a set of pairs. The source stores the definition's entities or `True` as values, which are only tested for membership.
- `keep_offset`, `inherent_default_mat`, `group_safe_name`, `group_name` and `SKP_util.component_deps` are not part of this model. `keep_offset` is modelled from its use, as a get-or-insert offset table. The other helpers are functions in `Config`, and the component depths are an input map.
- Blender's renaming of a new collection or object whose name is taken (`.001`): group names are taken as given.
- Session.Importer.WriteDuplicateableGroups: the mesh entries built by the promotion's `component_def_as_group` are not modelled. The source caches the definition's mesh under (definition, material), and the meshes of nested groups and components under their own keys ("G-" + group name, or the definition name). The model leaves the cache as it was, so the contract promises only that existing entries are kept and every entry stays faithful.
- Session.Importer.WriteModel: does not route the write pass through the mesh cache. A node has a mesh exactly when its own faces have a vertex, so a cache entry built earlier for another node with the same name and default material is not reused.
- MeshBuilder.MeshFor: requires every face to have at least as many UVs as vertices (`WellFormedFace`). With fewer, the source's vertex loop reads back the UVs it appends to the same list, or crashes on an empty UV list.
- MeshBuilder.MeshFor: the `st_scale` assignment for faces without a material, `me.update`, `me.validate` and edge calculation are Blender-side and not modelled. The alpha flag is always `False`, as in the source.
- Clusters.GetOrientations: the decomposition of a transform into orientation and location is a parameter. Scale and rotation are one orientation key of any type with equality.
- Floating point: coordinates and UVs are `real`.
- Warehouse.VersionOf: `\d` and `.lower()` are modelled for ASCII only.
- Warehouse.EntityList: JSON numbers are integers. The entity list only tells records and lists apart from other values, so nothing else depends on this.
- The warehouse search's HTTP requests, cookie and preferences, and the cancel on an empty query, are not modelled. The page offset rule is a function of the query, the last query, the offset and the step.
