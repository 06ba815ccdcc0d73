/** One import session: the importer object whose fields (the mesh cache,
    the placement statistics and the deduplication books) are filled in by
    the deduplication pass, the write pass and the mesh builder. */
module Session {
  import opened Common
  import opened Scene
  import opened Multimap
  import opened MeshBuilder
  import opened Analysis
  import opened Dedup
  import opened Writer
  import opened Clusters

  // ---------------------------------------------------------------------
  // The mesh cache

  /** `write_mesh_data` seen through its cache, as (result, new cache): a
      cached key answers with its entry; otherwise the mesh is built, and
      cached only when it is not empty. */
  function CachedBuild(cache: map<NameMat, MeshEntry>, faces: seq<Face>, name: string, dm: string,
                       table: map<string, MaterialNodes>): (MeshEntry, map<NameMat, MeshEntry>)
    requires WellFormed(faces) && DefaultMaterial in table
  {
    var key := (name, dm);
    if key in cache then (cache[key], cache)
    else
      var m := MeshFor(faces, name, dm, table);
      if m.None? then (MeshEntry(None, false), cache)
      else (MeshEntry(m, false), cache[key := MeshEntry(m, false)])
  }

  /** Asking twice is asking once: the second call answers the first call's
      result and leaves the cache as the first call left it. */
  lemma CacheIdempotent(cache: map<NameMat, MeshEntry>, faces: seq<Face>, name: string, dm: string,
                        table: map<string, MaterialNodes>)
    requires WellFormed(faces) && DefaultMaterial in table
    ensures var (r, cache') := CachedBuild(cache, faces, name, dm, table);
      CachedBuild(cache', faces, name, dm, table) == (r, cache')
  {
  }

  /** What the cache answers: the entry already held under the key; else the
      freshly built mesh, with alpha off, cached exactly when it is not
      empty, and an empty result `(None, False)` otherwise. No other key is
      touched. */
  lemma CacheOutcome(cache: map<NameMat, MeshEntry>, faces: seq<Face>, name: string, dm: string,
                     table: map<string, MaterialNodes>)
    requires WellFormed(faces) && DefaultMaterial in table
    ensures var (r, cache') := CachedBuild(cache, faces, name, dm, table);
      && ((name, dm) in cache ==> r == cache[(name, dm)] && cache' == cache)
      && ((name, dm) !in cache ==> r == MeshEntry(MeshFor(faces, name, dm, table), false))
      && ((name, dm) !in cache ==> ((name, dm) in cache' <==> AllVertices(faces) != []))
      && ((name, dm) !in cache && r.mesh.None? ==> r == MeshEntry(None, false) && cache' == cache)
      && (forall k :: k != (name, dm) ==> (k in cache' <==> k in cache) && (k in cache ==> cache'[k] == cache[k]))
  {
    var m := MeshFor(faces, name, dm, table);
  }

  /** Every cached entry is the mesh built from the faces it was built
      from, under its own (name, default material) key, and is not empty. */
  ghost predicate Caches(meshes: map<NameMat, MeshEntry>, sources: map<NameMat, seq<Face>>,
                         table: map<string, MaterialNodes>) {
    && meshes.Keys == sources.Keys
    && forall k :: k in meshes ==> CachedEntry(meshes[k], sources[k], k, table)
  }

  ghost predicate CachedEntry(r: MeshEntry, faces: seq<Face>, k: NameMat, table: map<string, MaterialNodes>) {
    && WellFormed(faces)
    && DefaultMaterial in table
    && AllVertices(faces) != []
    && r == MeshEntry(MeshFor(faces, k.0, k.1, table), false)
  }

  // ---------------------------------------------------------------------
  // The deduplication pass, specified

  /** The statistics of the analysis walk from the model root. */
  function Analysed(cfg: Config, root: Entities): Multi<NameMat, Transform> {
    AppendAll(Empty(), Visits(cfg, root, "Sketchup", Identity, DefaultMaterial, NoType, []))
  }

  /** A pair met by the analysis with at least `max_instance` placements. */
  predicate Frequent(cfg: Config, root: Entities, k: NameMat) {
    k in Analysed(cfg, root).order && |Get(Analysed(cfg, root), k)| >= cfg.maxInstance
  }

  /** A frequent pair whose definition is not at depth 1: what the pass
      promotes. */
  predicate Promotable(cfg: Config, root: Entities, k: NameMat) {
    Frequent(cfg, root, k) && k.0 in cfg.componentDepth && cfg.componentDepth[k.0] != 1
  }

  /** The analysed pairs, in analysis order, that reach the threshold. */
  function Candidates(cfg: Config, root: Entities): (r: seq<NameMat>)
    requires DefinitionNames(root) <= cfg.componentDepth.Keys
    ensures forall j :: 0 <= j < |r| ==> r[j].0 in cfg.componentDepth
    ensures forall k :: k in r ==> k.0 in cfg.componentDepth
    ensures Distinct(r)
    ensures forall k :: k in r <==> Frequent(cfg, root, k)
  {
    var a := Analysed(cfg, root);
    CandidateFacts(cfg, root);
    Eligible(a.order, a, cfg.maxInstance)
  }

  lemma CandidateFacts(cfg: Config, root: Entities)
    requires DefinitionNames(root) <= cfg.componentDepth.Keys
    ensures var a := Analysed(cfg, root);
      && Distinct(Eligible(a.order, a, cfg.maxInstance))
      && (forall k :: k in Eligible(a.order, a, cfg.maxInstance) <==> k in a.order && |Get(a, k)| >= cfg.maxInstance)
      && (forall k :: k in a.order ==> k.0 in cfg.componentDepth)
  {
    var vs := Visits(cfg, root, "Sketchup", Identity, DefaultMaterial, NoType, []);
    var a := Analysed(cfg, root);
    AppendAllOrder(Empty(), vs);
    assert [] + KeysOf(vs) == KeysOf(vs);
    FirstSeenFacts(KeysOf(vs));
    KeysOfMembers(vs);
    VisitKeysAreDefinitions(cfg, root, "Sketchup", Identity, DefaultMaterial, NoType, []);
    EligibleIff(a.order, a, cfg.maxInstance);
  }

  lemma {:induction false} KeysOfMembers<K, V>(ps: seq<(K, V)>)
    ensures forall k :: k in KeysOf(ps) ==> exists v :: (k, v) in ps
    decreases |ps|
  {
    if ps != [] {
      var init := ps[..|ps| - 1];
      KeysOfMembers(init);
      assert ps == init + [ps[|ps| - 1]];
    }
  }

  /** The promotions the pass makes, in order, when `maxDepth` is the
      largest component depth. */
  function Promotions(cfg: Config, root: Entities, maxDepth: nat): seq<NameMat>
    requires DefinitionNames(root) <= cfg.componentDepth.Keys
  {
    Sweep(Candidates(cfg, root), cfg.componentDepth, maxDepth + 1)
  }

  /** The pass promotes, once each, exactly the analysed pairs that reach the
      threshold and whose definition is not at depth 1. */
  lemma PromotionsExactly(cfg: Config, root: Entities, maxDepth: nat)
    requires DefinitionNames(root) <= cfg.componentDepth.Keys
    requires IsMaxDepth(cfg.componentDepth, maxDepth)
    ensures Distinct(Promotions(cfg, root, maxDepth))
    ensures forall k :: k in Promotions(cfg, root, maxDepth) <==> Promotable(cfg, root, k)
  {
    SweepDistinct(Candidates(cfg, root), cfg.componentDepth, maxDepth + 1);
    forall k ensures k in Promotions(cfg, root, maxDepth) <==> Promotable(cfg, root, k) {
      PromotedIff(cfg, root, maxDepth, k);
    }
  }

  lemma PromotedIff(cfg: Config, root: Entities, maxDepth: nat, k: NameMat)
    requires DefinitionNames(root) <= cfg.componentDepth.Keys
    requires IsMaxDepth(cfg.componentDepth, maxDepth)
    ensures k in Promotions(cfg, root, maxDepth) <==> Promotable(cfg, root, k)
  {
    var c := Candidates(cfg, root);
    SweepAll(c, cfg.componentDepth, maxDepth);
    assert k in c <==> Frequent(cfg, root, k);
  }

  /** After the pass, a pair is skipped by the write pass exactly when it
      was skipped before or is promoted by the pass, and every promoted pair
      has its group recorded. */
  lemma DedupOutcome(cfg: Config, root: Entities, maxDepth: nat, b: Books)
    requires DefinitionNames(root) <= cfg.componentDepth.Keys
    requires IsMaxDepth(cfg.componentDepth, maxDepth)
    ensures var b' := PromoteAll(cfg, b, Promotions(cfg, root, maxDepth));
      forall k :: k in b'.skip <==> k in b.skip || Promotable(cfg, root, k)
    ensures var b' := PromoteAll(cfg, b, Promotions(cfg, root, maxDepth));
      forall k :: k in Promotions(cfg, root, maxDepth) ==> k in b'.written && b'.written[k].name == cfg.groupName(k.0, k.1)
  {
    PromotionsExactly(cfg, root, maxDepth);
    PromoteAllSkip(cfg, b, Promotions(cfg, root, maxDepth));
    PromoteAllNames(cfg, b, Promotions(cfg, root, maxDepth));
  }

  /** The largest depth is unique. */
  lemma MaxDepthUnique(depths: map<string, nat>, r: nat, r': nat)
    requires IsMaxDepth(depths, r) && IsMaxDepth(depths, r')
    ensures r == r'
  {
    if depths != map[] {
      var n :| n in depths && depths[n] == r;
      var n' :| n' in depths && depths[n'] == r';
      assert r <= r' && r' <= r;
    }
  }

  // ---------------------------------------------------------------------
  // Loops of the deduplication pass

  /** `max(component_depth.values(), default=0)`. */
  method MaxDepth(depths: map<string, nat>) returns (r: nat)
    ensures IsMaxDepth(depths, r)
  {
    r := 0;
    var rest := depths.Keys;
    while rest != {}
      invariant rest <= depths.Keys
      invariant forall n :: n in depths && n !in rest ==> depths[n] <= r
      invariant r == 0 || exists n :: n in depths && depths[n] == r
      invariant rest == depths.Keys ==> r == 0
      decreases rest
    {
      var n :| n in rest;
      if depths[n] > r {
        r := depths[n];
      }
      rest := rest - {n};
    }
    if depths != map[] {
      var n :| n in depths;
      if r == 0 {
        assert depths[n] == 0;
      }
    }
  }

  /** The body of `write_duplicateable_groups` on the books alone: analyse
      from the model root, keep the frequent pairs, and promote them level by
      level up to the largest depth. */
  method DedupPass(cfg: Config, root: Entities, b: Books) returns (b': Books, top: nat)
    requires DefinitionNames(root) <= cfg.componentDepth.Keys
    ensures IsMaxDepth(cfg.componentDepth, top)
    ensures b' == PromoteAll(cfg, b, Promotions(cfg, root, top))
  {
    var stats := AnalyzeEntities(cfg, root, "Sketchup", Identity, DefaultMaterial, NoType, [], Empty());
    var maxDepth := MaxDepth(cfg.componentDepth);
    top := maxDepth;
    var kept := FilterEligible(stats, cfg.maxInstance);
    assert kept == Candidates(cfg, root);
    b' := PromoteLevels(cfg, b, kept, maxDepth);
  }

  /** The dict comprehension keeping the pairs with enough placements. */
  method FilterEligible(stats: Multi<NameMat, Transform>, maxInstance: int) returns (kept: seq<NameMat>)
    ensures kept == Eligible(stats.order, stats, maxInstance)
  {
    kept := [];
    var j := 0;
    while j < |stats.order|
      invariant j <= |stats.order|
      invariant kept == Eligible(stats.order[..j], stats, maxInstance)
    {
      var k := stats.order[j];
      assert stats.order[..j + 1][..j] == stats.order[..j];
      if |Get(stats, k)| >= maxInstance {
        kept := kept + [k];
      }
      j := j + 1;
    }
    TakeAll(stats.order);
  }

  lemma PromoteAllSnoc(cfg: Config, b: Books, ks: seq<NameMat>, k: NameMat)
    ensures PromoteAll(cfg, b, ks + [k]) == Promote(cfg, PromoteAll(cfg, b, ks), k)
  {
    assert (ks + [k])[..|ks|] == ks;
  }

  lemma {:induction false} PromoteAllConcat(cfg: Config, b: Books, ks: seq<NameMat>, ls: seq<NameMat>)
    ensures PromoteAll(cfg, b, ks + ls) == PromoteAll(cfg, PromoteAll(cfg, b, ks), ls)
    decreases |ls|
  {
    if ls == [] {
      assert ks + ls == ks;
    } else {
      var init := ls[..|ls| - 1];
      PromoteAllConcat(cfg, b, ks, init);
      ConcatInit(ks, ls);
    }
  }

  lemma LevelSnoc(keys: seq<NameMat>, depths: map<string, nat>, i: nat, j: nat)
    requires forall l :: 0 <= l < |keys| ==> keys[l].0 in depths
    requires j < |keys|
    ensures Level(keys[..j + 1], depths, i)
            == Level(keys[..j], depths, i) + (if depths[keys[j].0] != 1 && depths[keys[j].0] == i then [keys[j]] else [])
  {
    assert keys[..j + 1][..j] == keys[..j];
  }

  /** The level loop: for `i` in `0 .. top`, promote in order the kept
      pairs whose definition has depth `i`. */
  method PromoteLevels(cfg: Config, b: Books, kept: seq<NameMat>, top: nat) returns (b': Books)
    requires forall l :: 0 <= l < |kept| ==> kept[l].0 in cfg.componentDepth
    ensures b' == PromoteAll(cfg, b, Sweep(kept, cfg.componentDepth, top + 1))
  {
    b' := b;
    var i := 0;
    while i <= top
      invariant i <= top + 1
      invariant b' == PromoteAll(cfg, b, Sweep(kept, cfg.componentDepth, i))
    {
      ghost var before := b';
      b' := PromoteLevel(cfg, b', kept, i);
      LevelsLoopStep(cfg, b, kept, i, before, b');
      i := i + 1;
    }
  }

  lemma LevelsLoopStep(cfg: Config, b: Books, kept: seq<NameMat>, i: nat, before: Books, after: Books)
    requires forall l :: 0 <= l < |kept| ==> kept[l].0 in cfg.componentDepth
    requires before == PromoteAll(cfg, b, Sweep(kept, cfg.componentDepth, i))
    requires after == PromoteAll(cfg, before, Level(kept, cfg.componentDepth, i))
    ensures after == PromoteAll(cfg, b, Sweep(kept, cfg.componentDepth, i + 1))
  {
    PromoteAllConcat(cfg, b, Sweep(kept, cfg.componentDepth, i), Level(kept, cfg.componentDepth, i));
  }

  /** One pass of the level loop: promote, in order, the kept pairs whose
      definition has depth `i`, passing over those at depth 1. */
  method PromoteLevel(cfg: Config, b: Books, kept: seq<NameMat>, i: nat) returns (b': Books)
    requires forall l :: 0 <= l < |kept| ==> kept[l].0 in cfg.componentDepth
    ensures b' == PromoteAll(cfg, b, Level(kept, cfg.componentDepth, i))
  {
    b' := b;
    var j := 0;
    while j < |kept|
      invariant j <= |kept|
      invariant b' == PromoteAll(cfg, b, Level(kept[..j], cfg.componentDepth, i))
    {
      var k := kept[j];
      var depth := cfg.componentDepth[k.0];
      ghost var before := b';
      if depth != 1 && depth == i {
        b' := Promote(cfg, b', k);
      }
      LevelLoopStep(cfg, b, kept, i, j, before, b');
      j := j + 1;
    }
    TakeAll(kept);
  }

  lemma LevelLoopStep(cfg: Config, b: Books, kept: seq<NameMat>, i: nat, j: nat, before: Books, after: Books)
    requires forall l :: 0 <= l < |kept| ==> kept[l].0 in cfg.componentDepth
    requires j < |kept|
    requires before == PromoteAll(cfg, b, Level(kept[..j], cfg.componentDepth, i))
    requires after == if cfg.componentDepth[kept[j].0] != 1 && cfg.componentDepth[kept[j].0] == i
                      then Promote(cfg, before, kept[j]) else before
    ensures after == PromoteAll(cfg, b, Level(kept[..j + 1], cfg.componentDepth, i))
  {
    var done := Level(kept[..j], cfg.componentDepth, i);
    LevelSnoc(kept, cfg.componentDepth, i, j);
    if cfg.componentDepth[kept[j].0] != 1 && cfg.componentDepth[kept[j].0] == i {
      PromoteAllSnoc(cfg, b, done, kept[j]);
    } else {
      assert done + [] == done;
    }
  }

  // ---------------------------------------------------------------------
  // The importer

  class Importer {
    /** The session's settings and inputs. */
    const cfg: Config
    /** `component_meshes`: the (mesh, alpha) entries built so far, by
        (name, default material). */
    var componentMeshes: map<NameMat, MeshEntry>
    /** The faces each cached entry was built from. */
    ghost var meshSources: map<NameMat, seq<Face>>
    /** `component_stats`: the placements recorded by the write pass. */
    var componentStats: Multi<NameMat, Transform>
    /** `component_skip`, `group_written` and the file's collection names. */
    var books: Books

    /** Every cached entry is the non-empty mesh built from its faces under
        its own key, with alpha off. */
    ghost predicate Valid()
      reads this
    {
      && ValidConfig(cfg)
      && Multimap.Valid(componentStats)
      && Caches(componentMeshes, meshSources, cfg.materials)
    }

    constructor (cfg: Config, collections: set<string>)
      requires ValidConfig(cfg)
      ensures Valid()
      ensures this.cfg == cfg
      ensures componentMeshes == map[] && componentStats == Empty()
      ensures books == Books({}, map[], collections)
    {
      this.cfg := cfg;
      componentMeshes := map[];
      meshSources := map[];
      componentStats := Empty();
      books := Books({}, map[], collections);
    }

    /** `write_mesh_data`: the cached entry for (name, default material), or
        the mesh built from `faces`, cached when it is not empty. */
    method WriteMeshData(faces: seq<Face>, name: string, dm: string) returns (r: MeshEntry)
      requires Valid() && WellFormed(faces)
      modifies this
      ensures Valid()
      ensures (r, componentMeshes) == CachedBuild(old(componentMeshes), faces, name, dm, cfg.materials)
      ensures (name, dm) in old(componentMeshes) ==>
                r.mesh == MeshFor(old(meshSources)[(name, dm)], name, dm, cfg.materials)
      ensures componentStats == old(componentStats) && books == old(books)
    {
      var key := (name, dm);
      if key in componentMeshes {
        return componentMeshes[key];
      }
      var m := BuildMesh(faces, name, dm, cfg.materials);
      r := MeshEntry(m, false);
      if m.Some? {
        componentMeshes := componentMeshes[key := r];
        meshSources := meshSources[key := faces];
      }
    }

    /** `write_duplicateable_groups`: analyse the model, then promote, level
        by level over the component depths, each pair with enough
        placements whose definition is not at depth 1. */
    method WriteDuplicateableGroups(root: Entities) returns (ghost maxDepth: nat)
      requires Valid() && DefinitionNames(root) <= cfg.componentDepth.Keys
      modifies this
      ensures Valid()
      ensures IsMaxDepth(cfg.componentDepth, maxDepth)
      ensures books == PromoteAll(cfg, old(books), Promotions(cfg, root, maxDepth))
      ensures forall k :: k in books.skip <==> k in old(books.skip) || Promotable(cfg, root, k)
      ensures forall k :: k in old(componentMeshes) ==>
                k in componentMeshes && componentMeshes[k] == old(componentMeshes)[k]
      ensures componentStats == old(componentStats)
    {
      var b;
      b, maxDepth := DedupPass(cfg, root, books);
      DedupOutcome(cfg, root, maxDepth, books);
      books := b;
    }

    /** The write pass from the model root: the objects it links, with the
        placements of skipped pairs appended to `component_stats`. The
        keying says under which name a component visit is looked up in the
        skip set: `ByNodeName` as the pass is written, `ByDefinitionName`
        as the deduplication pass stores it. As written, with plain
        definition names in the skip set, nothing is recorded. */
    method WriteModel(keying: Keying, root: Entities) returns (nodes: seq<Node>)
      requires Valid()
      modifies this
      ensures Valid()
      ensures var w := Write(cfg, keying, books.skip, root, LooseEntity, LooseEntity, Identity,
                             DefaultMaterial, NoType, None);
        && nodes == w.nodes
        && componentStats == AppendAll(old(componentStats), w.hits)
      ensures keying == ByNodeName && (forall k :: k in books.skip ==> PlainKey(k)) ==>
                componentStats == old(componentStats)
      ensures componentMeshes == old(componentMeshes) && books == old(books)
    {
      var w := Write(cfg, keying, books.skip, root, LooseEntity, LooseEntity, Identity,
                     DefaultMaterial, NoType, None);
      if keying == ByNodeName && (forall k :: k in books.skip ==> PlainKey(k)) {
        NodeNameNeverSkips(cfg, books.skip, root, LooseEntity, LooseEntity, Identity, DefaultMaterial, NoType, None);
      }
      AppendAllValid(componentStats, w.hits);
      componentStats := AppendAll(componentStats, w.hits);
      nodes := w.nodes;
    }

    /** The point-instancing loop over `component_stats`: one list of point
        clouds per recorded pair, in the order the pairs were recorded.
        `decompose` splits a transform into its orientation and location. */
    method InstancePairs<K(==,!new)>(decompose: Transform -> (K, Vec3))
      returns (out: seq<(NameMat, seq<Cloud<K>>)>)
      requires Valid()
      ensures |out| == |componentStats.order|
      ensures forall j :: 0 <= j < |out| ==> out[j].0 == componentStats.order[j]
      ensures forall j :: 0 <= j < |out| ==> ClustersOf(out[j].1, Get(componentStats, out[j].0), decompose)
    {
      out := [];
      var j := 0;
      while j < |componentStats.order|
        invariant j <= |componentStats.order| && |out| == j
        invariant forall l :: 0 <= l < j ==> out[l].0 == componentStats.order[l]
        invariant forall l :: 0 <= l < j ==> ClustersOf(out[l].1, Get(componentStats, out[l].0), decompose)
      {
        var k := componentStats.order[j];
        var clouds := PointClouds(Get(componentStats, k), decompose);
        out := out + [(k, clouds)];
        j := j + 1;
      }
    }
  }

  /** The clouds of a pair's placements `ts`: one per orientation bucket,
      in bucket order. */
  ghost predicate ClustersOf<K(!new)>(clouds: seq<Cloud<K>>, ts: seq<Transform>, decompose: Transform -> (K, Vec3)) {
    var buckets := AppendAll(Empty(), Decomposed(ts, decompose));
    && |clouds| == |buckets.order|
    && forall j :: 0 <= j < |clouds| ==> CloudOf(clouds[j], buckets.order[j], Get(buckets, buckets.order[j]))
  }
}
