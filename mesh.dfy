/** Building one indexed mesh from the faces of an entity list: distinct
    vertices in first-seen order, three loop indices per triangle, one
    material slot per distinct material, per-triangle smooth flags and an
    optional per-loop UV layer; plus the session's (name, material) mesh cache. */
module MeshBuilder {
  import opened Common
  import opened Scene

  datatype Corner = Corner(position: Vertex, uv: UV)

  /** One triangle as the builder sees it: its corners in tessellation order,
      the material key of its face and whether its face has a smooth edge. */
  datatype Tri = Tri(c0: Corner, c1: Corner, c2: Corner, material: string, smooth: bool)

  /** The data handed to the host application's mesh: vertex positions, the
      vertex index of each loop, per-polygon loop start and loop count,
      material slot and smooth flag, the material bound to each slot, and the
      UV of each loop when a UV layer is made. */
  datatype Mesh = Mesh(
    name: string,
    vertices: seq<Vertex>,
    loops: seq<nat>,
    loopStart: seq<nat>,
    loopTotal: seq<nat>,
    materialIndex: seq<nat>,
    smooth: seq<bool>,
    materials: seq<string>,
    uvLayer: Option<seq<UV>>)

  /** The (mesh, alpha) pair the builder returns; `None` stands for Python's `None`. */
  datatype MeshEntry = MeshEntry(mesh: Option<Mesh>, alpha: bool)

  /** What the tessellation provides: a UV for every vertex and triangle
      indices inside the vertex list. */
  predicate WellFormedFace(f: Face) {
    |f.vertices| <= |f.uvs| &&
    forall k :: 0 <= k < |f.triangles| ==>
      f.triangles[k].i0 < |f.vertices| && f.triangles[k].i1 < |f.vertices| && f.triangles[k].i2 < |f.vertices|
  }

  predicate WellFormed(faces: seq<Face>) {
    forall j :: 0 <= j < |faces| ==> WellFormedFace(faces[j])
  }

  /** The key of a face's material slot: its own material, else the default. */
  function MaterialKey(f: Face, defaultMaterial: string): string {
    if f.material.Some? then f.material.value else defaultMaterial
  }

  function TriOf(f: Face, t: Triangle, defaultMaterial: string): Tri
    requires t.i0 < |f.vertices| && t.i1 < |f.vertices| && t.i2 < |f.vertices| && |f.vertices| <= |f.uvs|
  {
    Tri(Corner(f.vertices[t.i0], f.uvs[t.i0]),
        Corner(f.vertices[t.i1], f.uvs[t.i1]),
        Corner(f.vertices[t.i2], f.uvs[t.i2]),
        MaterialKey(f, defaultMaterial),
        true in f.smoothEdges)
  }

  function FaceTris(f: Face, defaultMaterial: string): seq<Tri>
    requires WellFormedFace(f)
  {
    seq(|f.triangles|, k requires 0 <= k < |f.triangles| => TriOf(f, f.triangles[k], defaultMaterial))
  }

  function AllVertices(faces: seq<Face>): seq<Vertex> {
    if faces == [] then [] else AllVertices(faces[..|faces| - 1]) + faces[|faces| - 1].vertices
  }

  function MaterialKeys(faces: seq<Face>, defaultMaterial: string): seq<string> {
    if faces == [] then []
    else MaterialKeys(faces[..|faces| - 1], defaultMaterial) + [MaterialKey(faces[|faces| - 1], defaultMaterial)]
  }

  predicate CornersIn(t: Tri, verts: seq<Vertex>) {
    t.c0.position in verts && t.c1.position in verts && t.c2.position in verts
  }

  predicate Covers(verts: seq<Vertex>, tris: seq<Tri>) {
    forall k :: 0 <= k < |tris| ==> CornersIn(tris[k], verts)
  }

  /** All triangles of all faces, face by face. */
  function Tris(faces: seq<Face>, defaultMaterial: string): seq<Tri>
    requires WellFormed(faces)
  {
    if faces == [] then []
    else Tris(faces[..|faces| - 1], defaultMaterial) + FaceTris(faces[|faces| - 1], defaultMaterial)
  }

  /** The corners in emitted order: rotated to (c2, c0, c1) exactly when c2's
      vertex holds offset 0, that is, when it is the first vertex seen. */
  function Oriented(t: Tri, verts: seq<Vertex>): seq<Corner> {
    if IndexOf(verts, t.c2.position) == 0 then [t.c2, t.c0, t.c1] else [t.c0, t.c1, t.c2]
  }

  /** The three loop vertex indices of a triangle. */
  function TriLoops(t: Tri, verts: seq<Vertex>): (r: seq<nat>)
    ensures |r| == 3
  {
    var o := Oriented(t, verts);
    [IndexOf(verts, o[0].position), IndexOf(verts, o[1].position), IndexOf(verts, o[2].position)]
  }

  /** The flat (u, v, u, v, u, v) tuple of three UVs. */
  function Sextuple(a: UV, b: UV, c: UV): (r: seq<real>)
    ensures |r| == 6
  {
    [a.u, a.v, b.u, b.v, c.u, c.v]
  }

  /** The six UV coordinates of a triangle, in emitted corner order. */
  function TriUvs(t: Tri, verts: seq<Vertex>): (r: seq<real>)
    ensures |r| == 6
  {
    var o := Oriented(t, verts);
    Sextuple(o[0].uv, o[1].uv, o[2].uv)
  }

  function CornerUvs(t: Tri, verts: seq<Vertex>): (r: seq<UV>)
    ensures |r| == 3
  {
    var o := Oriented(t, verts);
    [o[0].uv, o[1].uv, o[2].uv]
  }

  function LoopTriples(tris: seq<Tri>, verts: seq<Vertex>): seq<seq<nat>> {
    seq(|tris|, i requires 0 <= i < |tris| => TriLoops(tris[i], verts))
  }

  /** The loop vertex indices of all triangles, three per triangle. */
  function Loops(tris: seq<Tri>, verts: seq<Vertex>): seq<nat> {
    Flatten(LoopTriples(tris, verts))
  }

  /** The per-triangle UV sextuples the builder collects before the UV fill. */
  function UvList(tris: seq<Tri>, verts: seq<Vertex>): seq<seq<real>> {
    seq(|tris|, i requires 0 <= i < |tris| => TriUvs(tris[i], verts))
  }

  function UvTriples(tris: seq<Tri>, verts: seq<Vertex>): seq<seq<UV>> {
    seq(|tris|, i requires 0 <= i < |tris| => CornerUvs(tris[i], verts))
  }

  /** The UV of every loop, in emitted corner order. */
  function LoopUvs(tris: seq<Tri>, verts: seq<Vertex>): seq<UV> {
    Flatten(UvTriples(tris, verts))
  }

  function SmoothFlags(tris: seq<Tri>): seq<bool> {
    seq(|tris|, k requires 0 <= k < |tris| => tris[k].smooth)
  }

  function MatIndices(tris: seq<Tri>, slots: seq<string>): seq<nat> {
    seq(|tris|, k requires 0 <= k < |tris| => IndexOf(slots, tris[k].material))
  }

  /** The session material a slot key binds to; unknown keys fall back to
      the default material. */
  function Resolve(table: map<string, MaterialNodes>, key: string): string {
    if key in table then key else DefaultMaterial
  }

  function BoundMaterials(slots: seq<string>, table: map<string, MaterialNodes>): seq<string> {
    seq(|slots|, k requires 0 <= k < |slots| => Resolve(table, slots[k]))
  }

  /** Whether a UV layer is made, as the slot loop decides it: a material with
      an image texture node sets the flag, one without a node tree clears it,
      any other leaves it as it was. */
  function UvsUsed(slots: seq<string>, table: map<string, MaterialNodes>): bool
    requires DefaultMaterial in table
  {
    if slots == [] then false
    else
      var before := UvsUsed(slots[..|slots| - 1], table);
      match table[Resolve(table, slots[|slots| - 1])]
      case ImageTexture => true
      case NoImageTexture => before
      case NoNodeTree => false
  }

  /** The loop start of each of `n` three-loop polygons: 0, 3, 6, ... */
  function Starts(n: nat): (r: seq<nat>)
    ensures |r| == n && forall i :: 0 <= i < n ==> r[i] == 3 * i
  {
    seq(n, i => 3 * i)
  }

  /** The mesh built from `faces`, or `None` when they hold no vertex. */
  function MeshFor(faces: seq<Face>, name: string, defaultMaterial: string,
                   table: map<string, MaterialNodes>): (r: Option<Mesh>)
    requires WellFormed(faces) && DefaultMaterial in table
    ensures r.None? <==> AllVertices(faces) == []
    ensures r.Some? ==> r.value.name == name && r.value.vertices == FirstSeen(AllVertices(faces))
  {
    if AllVertices(faces) == [] then None
    else
      var verts := FirstSeen(AllVertices(faces));
      var tris := Tris(faces, defaultMaterial);
      var slots := FirstSeen(MaterialKeys(faces, defaultMaterial));
      Some(Mesh(name, verts, Loops(tris, verts),
                Starts(|tris|), Repeat(3, |tris|),
                MatIndices(tris, slots), SmoothFlags(tris), BoundMaterials(slots, table),
                if UvsUsed(slots, table) then Some(LoopUvs(tris, verts)) else None))
  }

  // ---------------------------------------------------------------------
  // Facts about the flattened triangle data

  lemma {:induction false} TrisFacts(faces: seq<Face>, dm: string)
    requires WellFormed(faces)
    ensures Covers(AllVertices(faces), Tris(faces, dm))
    ensures forall k :: 0 <= k < |Tris(faces, dm)| ==> Tris(faces, dm)[k].material in MaterialKeys(faces, dm)
    decreases |faces|
  {
    if faces != [] {
      var init := faces[..|faces| - 1];
      var f := faces[|faces| - 1];
      assert WellFormed(init) by {
        forall j | 0 <= j < |init| ensures WellFormedFace(init[j]) {
          assert init[j] == faces[j];
        }
      }
      TrisFacts(init, dm);
      var a := Tris(init, dm);
      var b := FaceTris(f, dm);
      assert Tris(faces, dm) == a + b;
      var all := AllVertices(faces);
      assert all == AllVertices(init) + f.vertices;
      assert MaterialKeys(faces, dm) == MaterialKeys(init, dm) + [MaterialKey(f, dm)];
      forall k | 0 <= k < |a + b|
        ensures CornersIn((a + b)[k], all) && (a + b)[k].material in MaterialKeys(faces, dm)
      {
        if k < |a| {
          assert (a + b)[k] == a[k];
        } else {
          var t := f.triangles[k - |a|];
          assert (a + b)[k] == TriOf(f, t, dm);
          assert f.vertices[t.i0] in all && f.vertices[t.i1] in all && f.vertices[t.i2] in all;
        }
      }
    }
  }

  /** The vertex and material tables see every corner and material key. */
  lemma TrisCovered(faces: seq<Face>, dm: string)
    requires WellFormed(faces)
    ensures Covers(FirstSeen(AllVertices(faces)), Tris(faces, dm))
    ensures forall k :: 0 <= k < |Tris(faces, dm)| ==> Tris(faces, dm)[k].material in FirstSeen(MaterialKeys(faces, dm))
  {
    TrisFacts(faces, dm);
    FirstSeenFacts(AllVertices(faces));
    FirstSeenFacts(MaterialKeys(faces, dm));
  }

  lemma LoopsAt(tris: seq<Tri>, verts: seq<Vertex>, k: nat, c: nat)
    requires k < |tris| && c < 3
    ensures |Loops(tris, verts)| == 3 * |tris|
    ensures Loops(tris, verts)[3 * k + c] == TriLoops(tris[k], verts)[c]
  {
    FlattenTriples(LoopTriples(tris, verts), k, c);
  }

  lemma LoopsLength(tris: seq<Tri>, verts: seq<Vertex>)
    ensures |Loops(tris, verts)| == 3 * |tris|
    ensures |LoopUvs(tris, verts)| == 3 * |tris|
  {
    FlattenTriplesLength(LoopTriples(tris, verts));
    FlattenTriplesLength(UvTriples(tris, verts));
  }

  lemma LoopUvsAt(tris: seq<Tri>, verts: seq<Vertex>, k: nat, c: nat)
    requires k < |tris| && c < 3
    ensures |LoopUvs(tris, verts)| == 3 * |tris|
    ensures LoopUvs(tris, verts)[3 * k + c] == Oriented(tris[k], verts)[c].uv
  {
    FlattenTriples(UvTriples(tris, verts), k, c);
  }

  lemma TriLoopsInRange(t: Tri, verts: seq<Vertex>)
    requires CornersIn(t, verts)
    ensures forall c :: 0 <= c < 3 ==> TriLoops(t, verts)[c] < |verts|
  {
  }

  /** Every loop names one of the mesh's vertices. */
  lemma LoopsInRange(tris: seq<Tri>, verts: seq<Vertex>)
    requires Covers(verts, tris)
    ensures forall j :: 0 <= j < |Loops(tris, verts)| ==> Loops(tris, verts)[j] < |verts|
  {
    LoopsLength(tris, verts);
    forall j | 0 <= j < |Loops(tris, verts)|
      ensures Loops(tris, verts)[j] < |verts|
    {
      LoopsAt(tris, verts, j / 3, j % 3);
      TriLoopsInRange(tris[j / 3], verts);
    }
  }

  /** The per-triangle data of a concatenation is the concatenation. */
  lemma LoopsConcat(a: seq<Tri>, b: seq<Tri>, verts: seq<Vertex>)
    ensures Loops(a + b, verts) == Loops(a, verts) + Loops(b, verts)
  {
    var l, la, lb := LoopTriples(a + b, verts), LoopTriples(a, verts), LoopTriples(b, verts);
    forall i | 0 <= i < |l| ensures l[i] == (la + lb)[i] {
      if i < |a| {
        assert (a + b)[i] == a[i];
      } else {
        assert (a + b)[i] == b[i - |a|];
      }
    }
    assert l == la + lb;
    FlattenConcat(LoopTriples(a, verts), LoopTriples(b, verts));
  }

  lemma UvListConcat(a: seq<Tri>, b: seq<Tri>, verts: seq<Vertex>)
    ensures UvList(a + b, verts) == UvList(a, verts) + UvList(b, verts)
  {
  }

  lemma SmoothConcat(a: seq<Tri>, b: seq<Tri>)
    ensures SmoothFlags(a + b) == SmoothFlags(a) + SmoothFlags(b)
  {
  }

  lemma LoopTriplesSnoc(a: seq<Tri>, x: Tri, verts: seq<Vertex>)
    ensures LoopTriples(a + [x], verts) == LoopTriples(a, verts) + [TriLoops(x, verts)]
  {
  }

  lemma UvListSnoc(a: seq<Tri>, x: Tri, verts: seq<Vertex>)
    ensures UvList(a + [x], verts) == UvList(a, verts) + [TriUvs(x, verts)]
  {
  }

  /** One more triangle adds its three loops and its UV sextuple. */
  lemma LoopsStep(tris: seq<Tri>, t: nat, verts: seq<Vertex>)
    requires t < |tris|
    ensures Loops(tris[..t + 1], verts) == Loops(tris[..t], verts) + TriLoops(tris[t], verts)
    ensures UvList(tris[..t + 1], verts) == UvList(tris[..t], verts) + [TriUvs(tris[t], verts)]
  {
    SnocPrefix([], tris, t);
    assert tris[..t + 1] == tris[..t] + [tris[t]];
    LoopTriplesSnoc(tris[..t], tris[t], verts);
    UvListSnoc(tris[..t], tris[t], verts);
    FlattenSnoc(LoopTriples(tris[..t], verts), TriLoops(tris[t], verts));
  }

  /** A triangle's loops and UVs read through the face's vertex-offset
      mapping: rotated exactly when the last corner's offset is 0. */
  lemma TriThroughMapping(f: Face, tr: Triangle, dm: string, mapping: seq<nat>, verts: seq<Vertex>)
    requires tr.i0 < |f.vertices| && tr.i1 < |f.vertices| && tr.i2 < |f.vertices| && |f.vertices| <= |f.uvs|
    requires |mapping| == |f.vertices|
    requires forall i :: 0 <= i < |f.vertices| ==> mapping[i] == IndexOf(verts, f.vertices[i])
    ensures var e := EmittedCorners(tr, mapping[tr.i2] == 0);
      && TriLoops(TriOf(f, tr, dm), verts) == [mapping[e[0]], mapping[e[1]], mapping[e[2]]]
      && TriUvs(TriOf(f, tr, dm), verts) == Sextuple(f.uvs[e[0]], f.uvs[e[1]], f.uvs[e[2]])
  {
  }

  /** What the triangle loop emits for triangle `tr` of face `f`: the
      offsets of its corners, rotated to (i2, i0, i1) when the offset of
      corner i2 is 0, and the six UV coordinates in the same order. */
  function EmittedOffsets(tr: Triangle, mapping: seq<nat>): seq<nat>
    requires tr.i0 < |mapping| && tr.i1 < |mapping| && tr.i2 < |mapping|
  {
    var e := EmittedCorners(tr, mapping[tr.i2] == 0);
    [mapping[e[0]], mapping[e[1]], mapping[e[2]]]
  }

  function EmittedUvs(f: Face, tr: Triangle, mapping: seq<nat>): seq<real>
    requires tr.i0 < |mapping| && tr.i1 < |mapping| && tr.i2 < |mapping|
    requires tr.i0 < |f.uvs| && tr.i1 < |f.uvs| && tr.i2 < |f.uvs|
  {
    var e := EmittedCorners(tr, mapping[tr.i2] == 0);
    Sextuple(f.uvs[e[0]], f.uvs[e[1]], f.uvs[e[2]])
  }

  /** One step of the triangle loop extends the face's loops and UV list by
      what it emits for triangle `t`. */
  lemma EmitStep(f: Face, dm: string, mapping: seq<nat>, verts: seq<Vertex>, t: nat)
    requires WellFormedFace(f) && t < |f.triangles| && Mapped(f.vertices, |f.vertices|, mapping, verts)
    ensures Loops(FaceTris(f, dm)[..t + 1], verts)
            == Loops(FaceTris(f, dm)[..t], verts) + EmittedOffsets(f.triangles[t], mapping)
    ensures UvList(FaceTris(f, dm)[..t + 1], verts)
            == UvList(FaceTris(f, dm)[..t], verts) + [EmittedUvs(f, f.triangles[t], mapping)]
  {
    var tr := f.triangles[t];
    TriThroughMapping(f, tr, dm, mapping, verts);
    LoopsStep(FaceTris(f, dm), t, verts);
  }

  /** The four lists the triangle loop of face `f` has built after `t`
      triangles. */
  ghost predicate EmittedUpTo(f: Face, dm: string, verts: seq<Vertex>, matNumber: nat, smoothEdge: bool, t: nat,
                              loops: seq<nat>, uvList: seq<seq<real>>, smooth: seq<bool>, matIndex: seq<nat>) {
    && WellFormedFace(f)
    && t <= |f.triangles|
    && loops == Loops(FaceTris(f, dm)[..t], verts)
    && uvList == UvList(FaceTris(f, dm)[..t], verts)
    && smooth == Repeat(smoothEdge, t)
    && matIndex == Repeat(matNumber, t)
  }

  /** Triangle `t` of a well-formed face indexes inside its mapping and UVs. */
  lemma TriangleFits(f: Face, mapping: seq<nat>, verts: seq<Vertex>, t: nat)
    requires WellFormedFace(f) && t < |f.triangles| && Mapped(f.vertices, |f.vertices|, mapping, verts)
    ensures f.triangles[t].i0 < |mapping| && f.triangles[t].i1 < |mapping| && f.triangles[t].i2 < |mapping|
    ensures f.triangles[t].i0 < |f.uvs| && f.triangles[t].i1 < |f.uvs| && f.triangles[t].i2 < |f.uvs|
  {
  }

  lemma EmitLoopStep(f: Face, dm: string, mapping: seq<nat>, verts: seq<Vertex>, matNumber: nat, smoothEdge: bool,
                     t: nat, loops: seq<nat>, uvList: seq<seq<real>>, smooth: seq<bool>, matIndex: seq<nat>,
                     corners: seq<nat>, uvs: seq<real>)
    requires WellFormedFace(f) && t < |f.triangles| && Mapped(f.vertices, |f.vertices|, mapping, verts)
    requires EmittedUpTo(f, dm, verts, matNumber, smoothEdge, t, loops, uvList, smooth, matIndex)
    requires corners == EmittedOffsets(f.triangles[t], mapping)
    requires uvs == EmittedUvs(f, f.triangles[t], mapping)
    ensures EmittedUpTo(f, dm, verts, matNumber, smoothEdge, t + 1, loops + corners, uvList + [uvs],
                        smooth + [smoothEdge], matIndex + [matNumber])
  {
    EmitStep(f, dm, mapping, verts, t);
  }

  lemma EmittedAll(f: Face, dm: string, verts: seq<Vertex>, matNumber: nat, smoothEdge: bool,
                   loops: seq<nat>, uvList: seq<seq<real>>, smooth: seq<bool>, matIndex: seq<nat>)
    requires EmittedUpTo(f, dm, verts, matNumber, smoothEdge, |f.triangles|, loops, uvList, smooth, matIndex)
    ensures WellFormedFace(f)
    ensures loops == Loops(FaceTris(f, dm), verts)
    ensures uvList == UvList(FaceTris(f, dm), verts)
    ensures smooth == Repeat(smoothEdge, |f.triangles|)
    ensures matIndex == Repeat(matNumber, |f.triangles|)
  {
    var ft := FaceTris(f, dm);
    assert ft[..|f.triangles|] == ft;
  }

  lemma MatIndicesConcat(a: seq<Tri>, b: seq<Tri>, slots: seq<string>)
    ensures MatIndices(a + b, slots) == MatIndices(a, slots) + MatIndices(b, slots)
  {
  }

  /** Growing the vertex table does not move the offsets already handed out. */
  lemma GrowthStable(tris: seq<Tri>, v0: seq<Vertex>, v1: seq<Vertex>)
    requires Covers(v0, tris) && v0 <= v1
    ensures Loops(tris, v1) == Loops(tris, v0)
    ensures UvList(tris, v1) == UvList(tris, v0)
  {
    forall i | 0 <= i < |tris|
      ensures TriLoops(tris[i], v1) == TriLoops(tris[i], v0)
      ensures TriUvs(tris[i], v1) == TriUvs(tris[i], v0)
    {
      var t := tris[i];
      assert CornersIn(t, v0);
      IndexOfStable(v0, v1, t.c0.position);
      IndexOfStable(v0, v1, t.c1.position);
      IndexOfStable(v0, v1, t.c2.position);
    }
    assert LoopTriples(tris, v1) == LoopTriples(tris, v0);
  }

  lemma MatIndicesStable(tris: seq<Tri>, s0: seq<string>, s1: seq<string>)
    requires s0 <= s1 && forall k :: 0 <= k < |tris| ==> tris[k].material in s0
    ensures MatIndices(tris, s1) == MatIndices(tris, s0)
  {
    forall i | 0 <= i < |tris|
      ensures IndexOf(s1, tris[i].material) == IndexOf(s0, tris[i].material)
    {
      IndexOfStable(s0, s1, tris[i].material);
    }
  }

  /** The shape of a built mesh: distinct vertices that are exactly the
      faces' vertices, one polygon of three loops per triangle with loop
      starts 0, 3, 6, ..., every loop and material index in range, every
      slot bound to a session material, and one UV per loop. */
  lemma MeshShape(faces: seq<Face>, name: string, dm: string, table: map<string, MaterialNodes>)
    requires WellFormed(faces) && DefaultMaterial in table
    ensures var r := MeshFor(faces, name, dm, table);
      r.Some? ==>
      && Distinct(r.value.vertices)
      && (forall v :: v in r.value.vertices <==> v in AllVertices(faces))
      && |r.value.smooth| == |r.value.materialIndex| == |Tris(faces, dm)|
      && |r.value.loops| == 3 * |r.value.smooth|
      && (forall j :: 0 <= j < |r.value.loops| ==> r.value.loops[j] < |r.value.vertices|)
      && |r.value.loopStart| == |r.value.loopTotal| == |r.value.smooth|
      && (forall i :: 0 <= i < |r.value.loopStart| ==> r.value.loopStart[i] == 3 * i && r.value.loopTotal[i] == 3)
      && (forall i :: 0 <= i < |r.value.materialIndex| ==> r.value.materialIndex[i] < |r.value.materials|)
      && (forall s :: s in r.value.materials ==> s in table)
      && (r.value.uvLayer.Some? ==> |r.value.uvLayer.value| == |r.value.loops|)
  {
    var r := MeshFor(faces, name, dm, table);
    if r.Some? {
      var tris := Tris(faces, dm);
      TrisCovered(faces, dm);
      FirstSeenFacts(AllVertices(faces));
      FirstSeenFacts(MaterialKeys(faces, dm));
      LoopsLength(tris, r.value.vertices);
      LoopsInRange(tris, r.value.vertices);
    }
  }

  lemma {:induction false} TrisOfFace(faces: seq<Face>, dm: string, j: nat, k: nat)
    requires WellFormed(faces) && j < |faces| && k < |faces[j].triangles|
    ensures |Tris(faces[..j], dm)| + k < |Tris(faces, dm)|
    ensures Tris(faces, dm)[|Tris(faces[..j], dm)| + k] == TriOf(faces[j], faces[j].triangles[k], dm)
    decreases |faces|
  {
    var init := faces[..|faces| - 1];
    if j == |faces| - 1 {
      assert faces[..j] == init;
    } else {
      TrisOfFace(init, dm, j, k);
      assert init[..j] == faces[..j];
    }
  }

  /** Where triangle `k` of face `j` lands among all triangles of the mesh. */
  function TrianglePosition(faces: seq<Face>, dm: string, j: nat, k: nat): nat
    requires WellFormed(faces) && j <= |faces|
  {
    |Tris(faces[..j], dm)| + k
  }

  /** Triangle `k` of face `j` is the triangle at its position. */
  lemma TriangleAt(faces: seq<Face>, dm: string, j: nat, k: nat)
    requires WellFormed(faces) && j < |faces| && k < |faces[j].triangles|
    ensures TrianglePosition(faces, dm, j, k) < |Tris(faces, dm)|
    ensures Tris(faces, dm)[TrianglePosition(faces, dm, j, k)] == TriOf(faces[j], faces[j].triangles[k], dm)
  {
    assert WellFormed(faces[..j]);
    TrisOfFace(faces, dm, j, k);
    assert TrianglePosition(faces, dm, j, k) == |Tris(faces[..j], dm)| + k;
  }

  lemma {:induction false} FaceInAll(faces: seq<Face>, dm: string, j: nat)
    requires j < |faces|
    ensures forall i :: 0 <= i < |faces[j].vertices| ==> faces[j].vertices[i] in AllVertices(faces)
    ensures MaterialKey(faces[j], dm) in MaterialKeys(faces, dm)
    decreases |faces|
  {
    if j < |faces| - 1 {
      FaceInAll(faces[..|faces| - 1], dm, j);
    }
  }

  lemma MeshExists(faces: seq<Face>, name: string, dm: string,
                        table: map<string, MaterialNodes>, j: nat, k: nat)
    requires WellFormed(faces) && DefaultMaterial in table
    requires j < |faces| && k < |faces[j].triangles|
    ensures MeshFor(faces, name, dm, table).Some?
    ensures MaterialKey(faces[j], dm) in FirstSeen(MaterialKeys(faces, dm))
  {
    FaceInAll(faces, dm, j);
    FirstSeenFacts(MaterialKeys(faces, dm));
    var t := faces[j].triangles[k];
    assert faces[j].vertices[t.i0] in AllVertices(faces);
  }

  /** The fields of a built mesh, in terms of the faces' triangles and the
      two first-seen tables. */
  lemma MeshFields(faces: seq<Face>, name: string, dm: string, table: map<string, MaterialNodes>, m: Mesh)
    requires WellFormed(faces) && DefaultMaterial in table
    requires MeshFor(faces, name, dm, table) == Some(m)
    ensures m.vertices == FirstSeen(AllVertices(faces))
    ensures m.loops == Loops(Tris(faces, dm), m.vertices)
    ensures m.smooth == SmoothFlags(Tris(faces, dm))
    ensures m.materialIndex == MatIndices(Tris(faces, dm), FirstSeen(MaterialKeys(faces, dm)))
    ensures m.materials == BoundMaterials(FirstSeen(MaterialKeys(faces, dm)), table)
    ensures m.uvLayer.Some? ==> m.uvLayer.value == LoopUvs(Tris(faces, dm), m.vertices)
  {
  }

  /** The polygon of one triangle takes its face's smooth flag and the slot
      of its face's material key. */
  lemma PolygonOf(tris: seq<Tri>, slots: seq<string>, table: map<string, MaterialNodes>,
                  p: nat, f: Face, t: Triangle, dm: string)
    requires p < |tris| && MaterialKey(f, dm) in slots
    requires t.i0 < |f.vertices| && t.i1 < |f.vertices| && t.i2 < |f.vertices| && |f.vertices| <= |f.uvs|
    requires tris[p] == TriOf(f, t, dm)
    ensures p < |SmoothFlags(tris)| && SmoothFlags(tris)[p] == (true in f.smoothEdges)
    ensures p < |MatIndices(tris, slots)| && MatIndices(tris, slots)[p] == IndexOf(slots, MaterialKey(f, dm))
    ensures IndexOf(slots, MaterialKey(f, dm)) < |BoundMaterials(slots, table)|
    ensures BoundMaterials(slots, table)[IndexOf(slots, MaterialKey(f, dm))] == Resolve(table, MaterialKey(f, dm))
  {
  }

  /** Polygon `p` of mesh `m` has the smooth flag `smooth` and the material
      slot `slot`, and that slot is bound to the session material `material`. */
  predicate PolygonIs(m: Mesh, p: nat, smooth: bool, slot: nat, material: string) {
    && p < |m.smooth| && m.smooth[p] == smooth
    && p < |m.materialIndex| && m.materialIndex[p] == slot
    && slot < |m.materials| && m.materials[slot] == material
  }

  /** Every triangle becomes one polygon whose smooth flag is its face's
      "some edge is smooth" and whose material slot is the first-seen slot
      of its face's material key, bound to that key's session material. */
  lemma TrianglePolygon(faces: seq<Face>, name: string, dm: string,
                        table: map<string, MaterialNodes>, j: nat, k: nat, m: Mesh)
    requires WellFormed(faces) && DefaultMaterial in table
    requires j < |faces| && k < |faces[j].triangles|
    requires MeshFor(faces, name, dm, table) == Some(m)
    ensures PolygonIs(m, TrianglePosition(faces, dm, j, k), true in faces[j].smoothEdges,
                      IndexOf(FirstSeen(MaterialKeys(faces, dm)), MaterialKey(faces[j], dm)),
                      Resolve(table, MaterialKey(faces[j], dm)))
  {
    MeshFields(faces, name, dm, table, m);
    TriangleAt(faces, dm, j, k);
    FaceInAll(faces, dm, j);
    FirstSeenFacts(MaterialKeys(faces, dm));
    var f := faces[j];
    assert WellFormedFace(f);
    var p := TrianglePosition(faces, dm, j, k);
    PolygonOf(Tris(faces, dm), FirstSeen(MaterialKeys(faces, dm)), table, p, f, f.triangles[k], dm);
  }

  /** The face-local indices of a triangle's corners in emitted order: the
      rotation (i2, i0, i1) when `rotate`, else (i0, i1, i2); either way the
      same corners with the same cyclic winding. */
  function EmittedCorners(t: Triangle, rotate: bool): (r: seq<nat>)
    ensures |r| == 3 && forall c :: 0 <= c < 3 ==> r[c] == t.i0 || r[c] == t.i1 || r[c] == t.i2
  {
    if rotate then [t.i2, t.i0, t.i1] else [t.i0, t.i1, t.i2]
  }

  /** Loop `q` of mesh `m` points at vertex `v` and, when the mesh has a UV
      layer, carries the UV `uv`. */
  predicate LoopIs(m: Mesh, q: nat, v: Vertex, uv: UV) {
    && q < |m.loops|
    && m.loops[q] < |m.vertices|
    && m.vertices[m.loops[q]] == v
    && (m.uvLayer.Some? ==> q < |m.uvLayer.value| && m.uvLayer.value[q] == uv)
  }

  lemma CornerOf(tris: seq<Tri>, verts: seq<Vertex>, p: nat, f: Face, t: Triangle, dm: string, c: nat)
    requires p < |tris| && c < 3 && CornersIn(tris[p], verts)
    requires t.i0 < |f.vertices| && t.i1 < |f.vertices| && t.i2 < |f.vertices| && |f.vertices| <= |f.uvs|
    requires tris[p] == TriOf(f, t, dm)
    ensures |Loops(tris, verts)| == 3 * |tris| && |LoopUvs(tris, verts)| == 3 * |tris|
    ensures var e := EmittedCorners(t, IndexOf(verts, f.vertices[t.i2]) == 0);
      && Loops(tris, verts)[3 * p + c] == IndexOf(verts, f.vertices[e[c]])
      && f.vertices[e[c]] in verts
      && LoopUvs(tris, verts)[3 * p + c] == f.uvs[e[c]]
  {
    LoopsAt(tris, verts, p, c);
    LoopUvsAt(tris, verts, p, c);
    var e := EmittedCorners(t, IndexOf(verts, f.vertices[t.i2]) == 0);
    var o := Oriented(tris[p], verts);
    assert o[c].position == f.vertices[e[c]] && o[c].uv == f.uvs[e[c]];
  }

  /** Loop `3p + c` of mesh `m` is corner `c` of triangle `t` of face `f` in
      emitted order: it points at that corner's vertex and, when a UV layer
      is made, carries that corner's UV. */
  predicate EmitsCorner(m: Mesh, f: Face, t: Triangle, p: nat, c: nat) {
    && t.i0 < |f.vertices| && t.i1 < |f.vertices| && t.i2 < |f.vertices| && |f.vertices| <= |f.uvs| && c < 3
    && var e := EmittedCorners(t, IndexOf(m.vertices, f.vertices[t.i2]) == 0);
       LoopIs(m, 3 * p + c, f.vertices[e[c]], f.uvs[e[c]])
  }

  /** Corner `c` of triangle `k` of face `j`: its loop points at the mesh
      vertex equal to the face vertex emitted in that position, and its UV
      is that vertex's UV. */
  lemma TriangleCorner(faces: seq<Face>, name: string, dm: string,
                       table: map<string, MaterialNodes>, j: nat, k: nat, c: nat, m: Mesh)
    requires WellFormed(faces) && DefaultMaterial in table
    requires j < |faces| && k < |faces[j].triangles| && c < 3
    requires MeshFor(faces, name, dm, table) == Some(m)
    ensures EmitsCorner(m, faces[j], faces[j].triangles[k], TrianglePosition(faces, dm, j, k), c)
  {
    MeshFields(faces, name, dm, table, m);
    TriangleAt(faces, dm, j, k);
    var p := TrianglePosition(faces, dm, j, k);
    TriCovered(faces, dm, p);
    assert WellFormedFace(faces[j]);
    CornerInMesh(m, Tris(faces, dm), p, faces[j], faces[j].triangles[k], dm, c);
  }

  /** Corner `c` of the triangle at position `p` of the spec lists is that
      corner of the mesh built from them. */
  lemma CornerInMesh(m: Mesh, tris: seq<Tri>, p: nat, f: Face, t: Triangle, dm: string, c: nat)
    requires m.loops == Loops(tris, m.vertices)
    requires m.uvLayer.Some? ==> m.uvLayer.value == LoopUvs(tris, m.vertices)
    requires p < |tris| && c < 3 && CornersIn(tris[p], m.vertices)
    requires t.i0 < |f.vertices| && t.i1 < |f.vertices| && t.i2 < |f.vertices| && |f.vertices| <= |f.uvs|
    requires tris[p] == TriOf(f, t, dm)
    ensures EmitsCorner(m, f, t, p, c)
  {
    CornerOf(tris, m.vertices, p, f, t, dm, c);
    var e := EmittedCorners(t, IndexOf(m.vertices, f.vertices[t.i2]) == 0);
    LoopInMesh(m, tris, 3 * p + c, f.vertices[e[c]], f.uvs[e[c]]);
  }

  /** One triangle's corners are among the mesh's vertices. */
  lemma TriCovered(faces: seq<Face>, dm: string, p: nat)
    requires WellFormed(faces) && p < |Tris(faces, dm)|
    ensures CornersIn(Tris(faces, dm)[p], FirstSeen(AllVertices(faces)))
  {
    TrisCovered(faces, dm);
  }

  /** A loop of the spec lists is the same loop of the mesh built from them. */
  lemma LoopInMesh(m: Mesh, tris: seq<Tri>, q: nat, v: Vertex, uv: UV)
    requires m.loops == Loops(tris, m.vertices)
    requires m.uvLayer.Some? ==> m.uvLayer.value == LoopUvs(tris, m.vertices)
    requires q < |Loops(tris, m.vertices)| && q < |LoopUvs(tris, m.vertices)|
    requires Loops(tris, m.vertices)[q] == IndexOf(m.vertices, v) && v in m.vertices
    requires LoopUvs(tris, m.vertices)[q] == uv
    ensures LoopIs(m, q, v, uv)
  {
  }

  /** The three loops of every triangle point at its corners' vertices,
      rotated to (f2, f0, f1) exactly when f2's vertex is the first vertex of
      the mesh (offset 0), and when a UV layer is made its three loop UVs
      follow the same rotation. */
  lemma TriangleCorners(faces: seq<Face>, name: string, dm: string,
                        table: map<string, MaterialNodes>, j: nat, k: nat, m: Mesh)
    requires WellFormed(faces) && DefaultMaterial in table
    requires j < |faces| && k < |faces[j].triangles|
    requires MeshFor(faces, name, dm, table) == Some(m)
    ensures forall c :: 0 <= c < 3 ==> EmitsCorner(m, faces[j], faces[j].triangles[k], TrianglePosition(faces, dm, j, k), c)
  {
    forall c | 0 <= c < 3
      ensures EmitsCorner(m, faces[j], faces[j].triangles[k], TrianglePosition(faces, dm, j, k), c)
    {
      TriangleCorner(faces, name, dm, table, j, k, c, m);
    }
  }

  // ---------------------------------------------------------------------
  // The builder, step by step

  /** A get-or-insert offset table together with the keys in offset order. */
  ghost predicate OffsetTable<T(!new)>(order: seq<T>, table: map<T, nat>) {
    && Distinct(order)
    && |table| == |order|
    && (forall x :: x in table <==> x in order)
    && (forall i :: 0 <= i < |order| ==> table[order[i]] == i)
  }

  /** `table[x]` on a get-or-insert offset table: the offset of `x`, where a
      key not yet present receives the table's current size. */
  method Intern<T(!new)>(table: map<T, nat>, x: T, ghost order: seq<T>)
    returns (table': map<T, nat>, off: nat, ghost order': seq<T>)
    requires OffsetTable(order, table)
    ensures OffsetTable(order', table')
    ensures order' == if x in order then order else order + [x]
    ensures |table'| > |table| <==> x !in order
    ensures off == IndexOf(order', x)
  {
    if x in table {
      table', off, order' := table, table[x], order;
      IndexOfDistinct(order, off);
    } else {
      off := |table|;
      table' := table[x := off];
      order' := order + [x];
      IndexOfDistinct(order', off);
    }
  }

  /** The first `n` vertices of `vs` are in `verts` and `mapping` holds their offsets. */
  ghost predicate Mapped(vs: seq<Vertex>, n: nat, mapping: seq<nat>, verts: seq<Vertex>) {
    n <= |vs| && |mapping| == n && forall j :: 0 <= j < n ==> vs[j] in verts && mapping[j] == IndexOf(verts, vs[j])
  }

  /** One step of the vertex loop: interning `vs[i]` extends the first-seen
      order and keeps every earlier offset. */
  lemma InternStep(before: seq<Vertex>, vs: seq<Vertex>, i: nat, was: seq<Vertex>, now: seq<Vertex>, mapping: seq<nat>)
    requires i < |vs| && was == FirstSeen(before + vs[..i]) && Mapped(vs, i, mapping, was)
    requires now == if vs[i] in was then was else was + [vs[i]]
    ensures now == FirstSeen(before + vs[..i + 1])
    ensures Mapped(vs, i + 1, mapping + [IndexOf(now, vs[i])], now)
  {
    SnocPrefix(before, vs, i);
    FirstSeenSnoc(before + vs[..i], vs[i]);
    var m := mapping + [IndexOf(now, vs[i])];
    forall j | 0 <= j <= i
      ensures vs[j] in now && m[j] == IndexOf(now, vs[j])
    {
      if j < i {
        IndexOfStable(was, now, vs[j]);
      }
    }
  }

  /** The vertex loop of one face: interns every vertex, appending the new
      ones to `verts`, and records each vertex's offset in `mapping`. */
  method InternVertices(verts: seq<Vertex>, seen: map<Vertex, nat>, vs: seq<Vertex>, ghost before: seq<Vertex>)
    returns (verts': seq<Vertex>, seen': map<Vertex, nat>, mapping: seq<nat>)
    requires verts == FirstSeen(before) && OffsetTable(verts, seen)
    ensures verts' == FirstSeen(before + vs) && OffsetTable(verts', seen')
    ensures Mapped(vs, |vs|, mapping, verts')
  {
    verts', seen', mapping := verts, seen, [];
    var i := 0;
    assert before + vs[..0] == before;
    while i < |vs|
      invariant i <= |vs|
      invariant verts' == FirstSeen(before + vs[..i]) && OffsetTable(verts', seen')
      invariant Mapped(vs, i, mapping, verts')
    {
      var v := vs[i];
      var l := |seen'|;
      ghost var was := verts';
      var off;
      ghost var order;
      seen', off, order := Intern(seen', v, verts');
      if |seen'| > l {
        verts' := verts' + [v];
      }
      assert verts' == order;
      InternStep(before, vs, i, was, verts', mapping);
      mapping := mapping + [off];
      i := i + 1;
    }
    TakeAll(vs);
  }

  /** Whether some edge of the face is smooth (the loop stops at the first). */
  method FindSmoothEdge(edges: seq<bool>) returns (smooth: bool)
    ensures smooth == (true in edges)
  {
    smooth := false;
    var i := 0;
    while i < |edges|
      invariant 0 <= i <= |edges|
      invariant forall j :: 0 <= j < i ==> !edges[j]
    {
      if edges[i] {
        smooth := true;
        break;
      }
      i := i + 1;
    }
  }

  /** The body of the triangle loop for one triangle: the three corner
      offsets and six UV coordinates, rotated when the last corner's offset is 0. */
  method OrientTriangle(f: Face, tr: Triangle, mapping: seq<nat>) returns (corners: seq<nat>, uvs: seq<real>)
    requires tr.i0 < |mapping| && tr.i1 < |mapping| && tr.i2 < |mapping|
    requires tr.i0 < |f.uvs| && tr.i1 < |f.uvs| && tr.i2 < |f.uvs|
    ensures corners == EmittedOffsets(tr, mapping) && uvs == EmittedUvs(f, tr, mapping)
  {
    if mapping[tr.i2] == 0 {
      corners := [mapping[tr.i2], mapping[tr.i0], mapping[tr.i1]];
      uvs := [f.uvs[tr.i2].u, f.uvs[tr.i2].v, f.uvs[tr.i0].u, f.uvs[tr.i0].v, f.uvs[tr.i1].u, f.uvs[tr.i1].v];
    } else {
      corners := [mapping[tr.i0], mapping[tr.i1], mapping[tr.i2]];
      uvs := [f.uvs[tr.i0].u, f.uvs[tr.i0].v, f.uvs[tr.i1].u, f.uvs[tr.i1].v, f.uvs[tr.i2].u, f.uvs[tr.i2].v];
    }
  }

  /** The triangle loop of one face: three loop indices per triangle, rotated
      when the last corner maps to offset 0, the six UV coordinates in the
      same order, and the face's smooth flag and material slot per triangle.
      Returns what the face appends to the builder's four lists. */
  method EmitTriangles(f: Face, dm: string, mapping: seq<nat>, ghost verts: seq<Vertex>,
                       matNumber: nat, smoothEdge: bool)
    returns (loops: seq<nat>, uvList: seq<seq<real>>, smooth: seq<bool>, matIndex: seq<nat>)
    requires WellFormedFace(f) && Mapped(f.vertices, |f.vertices|, mapping, verts)
    ensures loops == Loops(FaceTris(f, dm), verts)
    ensures uvList == UvList(FaceTris(f, dm), verts)
    ensures smooth == Repeat(smoothEdge, |f.triangles|)
    ensures matIndex == Repeat(matNumber, |f.triangles|)
  {
    loops, uvList, smooth, matIndex := [], [], [], [];
    var t := 0;
    while t < |f.triangles|
      invariant EmittedUpTo(f, dm, verts, matNumber, smoothEdge, t, loops, uvList, smooth, matIndex)
    {
      TriangleFits(f, mapping, verts, t);
      var corners, uvs := OrientTriangle(f, f.triangles[t], mapping);
      EmitLoopStep(f, dm, mapping, verts, matNumber, smoothEdge, t, loops, uvList, smooth, matIndex, corners, uvs);
      loops := loops + corners;
      uvList := uvList + [uvs];
      smooth := smooth + [smoothEdge];
      matIndex := matIndex + [matNumber];
      t := t + 1;
    }
    EmittedAll(f, dm, verts, matNumber, smoothEdge, loops, uvList, smooth, matIndex);
  }

  /** The keys of an offset table listed by offset (sorting its items by value). */
  method KeysByOffset<T(!new)>(table: map<T, nat>, ghost order: seq<T>) returns (keys: seq<T>)
    requires OffsetTable(order, table)
    ensures keys == order
  {
    keys := [];
    while |keys| < |table|
      invariant |keys| <= |order| && keys == order[..|keys|]
    {
      assert order[|keys|] in table;
      var x :| x in table && table[x] == |keys|;
      assert x == order[|keys|];
      keys := keys + [x];
    }
  }

  /** The slot loop: binds each slot key to its session material and decides
      whether a UV layer is needed. */
  method BindMaterials(slots: seq<string>, table: map<string, MaterialNodes>)
    returns (bound: seq<string>, uvsUsed: bool)
    requires DefaultMaterial in table
    ensures bound == BoundMaterials(slots, table) && uvsUsed == UvsUsed(slots, table)
  {
    bound, uvsUsed := [], false;
    var i := 0;
    while i < |slots|
      invariant 0 <= i <= |slots|
      invariant bound == BoundMaterials(slots[..i], table) && uvsUsed == UvsUsed(slots[..i], table)
    {
      var b := Resolve(table, slots[i]);
      bound := bound + [b];
      match table[b] {
        case ImageTexture => uvsUsed := true;
        case NoImageTexture =>
        case NoNodeTree => uvsUsed := false;
      }
      assert slots[..i + 1][..i] == slots[..i];
      i := i + 1;
    }
    assert slots[..i] == slots;
  }

  /** The start of each polygon's loops: 0, 3, 6, ... */
  method LoopStarts(count: nat) returns (starts: seq<nat>)
    ensures |starts| == count && forall i :: 0 <= i < count ==> starts[i] == 3 * i
  {
    starts := [];
    var i := 0;
    while |starts| < count
      invariant i == 3 * |starts| && |starts| <= count
      invariant forall k :: 0 <= k < |starts| ==> starts[k] == 3 * k
    {
      starts := starts + [i];
      i := i + 3;
    }
  }

  /** Loop `p` of `layer` holds coordinates `2 (p mod 3)` and `2 (p mod 3) + 1`
      of the sextuple of triangle `p / 3`. */
  predicate FilledFrom(layer: seq<UV>, uvList: seq<seq<real>>) {
    && |layer| == 3 * |uvList|
    && (forall i :: 0 <= i < |uvList| ==> |uvList[i]| == 6)
    && forall p :: 0 <= p < |layer| ==> layer[p] == UV(uvList[p / 3][2 * (p % 3)], uvList[p / 3][2 * (p % 3) + 1])
  }

  /** The UV layer fill: loop `k` takes coordinates `l` and `l + 1` of its
      triangle's six, with `l` stepping 0, 2, 4 and back to 0. */
  method FillUvLayer(uvList: seq<seq<real>>) returns (layer: seq<UV>)
    requires forall i :: 0 <= i < |uvList| ==> |uvList[i]| == 6
    ensures FilledFrom(layer, uvList)
  {
    var data := new UV[3 * |uvList|];
    var k, l := 0, 0;
    var i := 0;
    while i < |uvList|
      invariant 0 <= i <= |uvList| && k == 3 * i && l == 0
      invariant forall p :: 0 <= p < k ==> data[p] == UV(uvList[p / 3][2 * (p % 3)], uvList[p / 3][2 * (p % 3) + 1])
    {
      var j := 0;
      while j < 3
        invariant 0 <= j <= 3 && k == 3 * i + j && l == 2 * (j % 3)
        invariant forall p :: 0 <= p < k ==> data[p] == UV(uvList[p / 3][2 * (p % 3)], uvList[p / 3][2 * (p % 3) + 1])
      {
        assert k / 3 == i && k % 3 == j;
        data[k] := UV(uvList[i][l], uvList[i][l + 1]);
        k := k + 1;
        if j != 2 {
          l := l + 2;
        } else {
          l := 0;
        }
        j := j + 1;
      }
      i := i + 1;
    }
    layer := data[..];
  }
  // ---------------------------------------------------------------------
  // The whole builder

  lemma PrefixStep(faces: seq<Face>, dm: string, k: nat)
    requires WellFormed(faces) && k < |faces|
    ensures AllVertices(faces[..k + 1]) == AllVertices(faces[..k]) + faces[k].vertices
    ensures MaterialKeys(faces[..k + 1], dm) == MaterialKeys(faces[..k], dm) + [MaterialKey(faces[k], dm)]
    ensures Tris(faces[..k + 1], dm) == Tris(faces[..k], dm) + FaceTris(faces[k], dm)
  {
    assert faces[..k + 1][..k] == faces[..k];
  }

  /** The builder's state after the first `k` faces: the two offset tables
      hold the first-seen vertices and material keys of those faces, and the
      four lists hold their triangles' loops, UVs, smooth flags and slots. */
  ghost predicate Built(faces: seq<Face>, dm: string, k: nat,
                        verts: seq<Vertex>, seen: map<Vertex, nat>, slots: seq<string>, mats: map<string, nat>,
                        loops: seq<nat>, uvList: seq<seq<real>>, smooth: seq<bool>, matIndex: seq<nat>)
    requires WellFormed(faces) && k <= |faces|
  {
    && verts == FirstSeen(AllVertices(faces[..k])) && OffsetTable(verts, seen)
    && slots == FirstSeen(MaterialKeys(faces[..k], dm)) && OffsetTable(slots, mats)
    && loops == Loops(Tris(faces[..k], dm), verts)
    && uvList == UvList(Tris(faces[..k], dm), verts)
    && smooth == SmoothFlags(Tris(faces[..k], dm))
    && matIndex == MatIndices(Tris(faces[..k], dm), slots)
  }

  /** A face's triangles all carry its smooth flag and its material slot. */
  lemma FaceConstants(f: Face, dm: string, slots: seq<string>)
    requires WellFormedFace(f)
    ensures SmoothFlags(FaceTris(f, dm)) == Repeat(true in f.smoothEdges, |f.triangles|)
    ensures MatIndices(FaceTris(f, dm), slots) == Repeat(IndexOf(slots, MaterialKey(f, dm)), |f.triangles|)
  {
  }

  /** Face `k` appends its own loops and UVs to those of the earlier faces,
      whose offsets do not move when the vertex table grows. */
  lemma StepLoops(faces: seq<Face>, dm: string, k: nat, verts': seq<Vertex>)
    requires WellFormed(faces) && k < |faces|
    requires verts' == FirstSeen(AllVertices(faces[..k]) + faces[k].vertices)
    ensures var verts := FirstSeen(AllVertices(faces[..k]));
      && Loops(Tris(faces[..k + 1], dm), verts')
         == Loops(Tris(faces[..k], dm), verts) + Loops(FaceTris(faces[k], dm), verts')
      && UvList(Tris(faces[..k + 1], dm), verts')
         == UvList(Tris(faces[..k], dm), verts) + UvList(FaceTris(faces[k], dm), verts')
  {
    var done := faces[..k];
    var t := Tris(done, dm);
    var ft := FaceTris(faces[k], dm);
    PrefixStep(faces, dm, k);
    TrisCovered(done, dm);
    FirstSeenGrows(AllVertices(done), faces[k].vertices);
    var verts := FirstSeen(AllVertices(done));
    GrowthStable(t, verts, verts');
    LoopsConcat(t, ft, verts');
    UvListConcat(t, ft, verts');
  }

  /** Face `k` appends one smooth flag and one material slot per triangle to
      those of the earlier faces, whose slots do not move. */
  lemma StepPolygons(faces: seq<Face>, dm: string, k: nat, slots': seq<string>)
    requires WellFormed(faces) && k < |faces|
    requires slots' == FirstSeen(MaterialKeys(faces[..k], dm) + [MaterialKey(faces[k], dm)])
    ensures var slots := FirstSeen(MaterialKeys(faces[..k], dm));
      var n := |faces[k].triangles|;
      && SmoothFlags(Tris(faces[..k + 1], dm))
         == SmoothFlags(Tris(faces[..k], dm)) + Repeat(true in faces[k].smoothEdges, n)
      && MatIndices(Tris(faces[..k + 1], dm), slots')
         == MatIndices(Tris(faces[..k], dm), slots) + Repeat(IndexOf(slots', MaterialKey(faces[k], dm)), n)
  {
    var done := faces[..k];
    var t := Tris(done, dm);
    var ft := FaceTris(faces[k], dm);
    PrefixStep(faces, dm, k);
    TrisCovered(done, dm);
    FirstSeenGrows(MaterialKeys(done, dm), [MaterialKey(faces[k], dm)]);
    var slots := FirstSeen(MaterialKeys(done, dm));
    MatIndicesStable(t, slots, slots');
    SmoothConcat(t, ft);
    MatIndicesConcat(t, ft, slots');
    FaceConstants(faces[k], dm, slots');
  }

  /** One face of the builder's loop takes `Built` from `k` to `k + 1` faces. */
  lemma FaceStep(faces: seq<Face>, dm: string, k: nat,
                 verts: seq<Vertex>, seen: map<Vertex, nat>, slots: seq<string>, mats: map<string, nat>,
                 loops: seq<nat>, uvList: seq<seq<real>>, smooth: seq<bool>, matIndex: seq<nat>,
                 verts': seq<Vertex>, seen': map<Vertex, nat>, slots': seq<string>, mats': map<string, nat>,
                 faceLoops: seq<nat>, faceUvs: seq<seq<real>>, faceSmooth: seq<bool>, faceMats: seq<nat>)
    requires WellFormed(faces) && k < |faces|
    requires Built(faces, dm, k, verts, seen, slots, mats, loops, uvList, smooth, matIndex)
    requires slots' == (if MaterialKey(faces[k], dm) in slots then slots else slots + [MaterialKey(faces[k], dm)])
    requires OffsetTable(slots', mats')
    requires verts' == FirstSeen(AllVertices(faces[..k]) + faces[k].vertices) && OffsetTable(verts', seen')
    requires faceLoops == Loops(FaceTris(faces[k], dm), verts')
    requires faceUvs == UvList(FaceTris(faces[k], dm), verts')
    requires faceSmooth == Repeat(true in faces[k].smoothEdges, |faces[k].triangles|)
    requires faceMats == Repeat(IndexOf(slots', MaterialKey(faces[k], dm)), |faces[k].triangles|)
    ensures Built(faces, dm, k + 1, verts', seen', slots', mats', loops + faceLoops, uvList + faceUvs,
                  smooth + faceSmooth, matIndex + faceMats)
  {
    PrefixStep(faces, dm, k);
    FirstSeenSnoc(MaterialKeys(faces[..k], dm), MaterialKey(faces[k], dm));
    StepLoops(faces, dm, k, verts');
    StepPolygons(faces, dm, k, slots');
  }

  /** The UV fill reads the per-triangle sextuples as one UV per loop. */
  lemma UvLayerAgrees(tris: seq<Tri>, verts: seq<Vertex>, layer: seq<UV>)
    requires FilledFrom(layer, UvList(tris, verts))
    ensures layer == LoopUvs(tris, verts)
  {
    LoopsLength(tris, verts);
    forall p | 0 <= p < |layer|
      ensures layer[p] == LoopUvs(tris, verts)[p]
    {
      UvLayerAt(tris, verts, layer, p);
    }
  }

  lemma UvLayerAt(tris: seq<Tri>, verts: seq<Vertex>, layer: seq<UV>, p: nat)
    requires FilledFrom(layer, UvList(tris, verts)) && p < |layer|
    ensures p < |LoopUvs(tris, verts)| && layer[p] == LoopUvs(tris, verts)[p]
  {
    var k, c := p / 3, p % 3;
    assert 3 * k + c == p;
    LoopUvsAt(tris, verts, k, c);
  }

  /** After all faces, `Built` speaks of the whole face list. */
  lemma BuiltAll(faces: seq<Face>, dm: string, verts: seq<Vertex>, seen: map<Vertex, nat>,
                 slots: seq<string>, mats: map<string, nat>,
                 loops: seq<nat>, uvList: seq<seq<real>>, smooth: seq<bool>, matIndex: seq<nat>)
    requires WellFormed(faces)
    requires Built(faces, dm, |faces|, verts, seen, slots, mats, loops, uvList, smooth, matIndex)
    ensures verts == FirstSeen(AllVertices(faces)) && slots == FirstSeen(MaterialKeys(faces, dm))
    ensures loops == Loops(Tris(faces, dm), verts) && uvList == UvList(Tris(faces, dm), verts)
    ensures smooth == SmoothFlags(Tris(faces, dm)) && matIndex == MatIndices(Tris(faces, dm), slots)
  {
    TakeAll(faces);
  }

  /** A mesh whose fields are those of `MeshFor` is `MeshFor`'s result. */
  lemma MeshForIs(faces: seq<Face>, name: string, dm: string, table: map<string, MaterialNodes>, m: Mesh)
    requires WellFormed(faces) && DefaultMaterial in table
    requires m.vertices == FirstSeen(AllVertices(faces)) && m.vertices != [] && m.name == name
    requires m.loops == Loops(Tris(faces, dm), m.vertices)
    requires m.loopStart == Starts(|Tris(faces, dm)|)
    requires m.loopTotal == Repeat(3, |Tris(faces, dm)|)
    requires m.smooth == SmoothFlags(Tris(faces, dm))
    requires m.materialIndex == MatIndices(Tris(faces, dm), FirstSeen(MaterialKeys(faces, dm)))
    requires m.materials == BoundMaterials(FirstSeen(MaterialKeys(faces, dm)), table)
    requires m.uvLayer == if UvsUsed(FirstSeen(MaterialKeys(faces, dm)), table)
                          then Some(LoopUvs(Tris(faces, dm), m.vertices)) else None
    ensures MeshFor(faces, name, dm, table) == Some(m)
  {
    assert AllVertices(faces) != [];
    var tris := Tris(faces, dm);
    var slots := FirstSeen(MaterialKeys(faces, dm));
    assert m == Mesh(name, m.vertices, Loops(tris, m.vertices), Starts(|tris|), Repeat(3, |tris|),
                     MatIndices(tris, slots), SmoothFlags(tris), BoundMaterials(slots, table),
                     if UvsUsed(slots, table) then Some(LoopUvs(tris, m.vertices)) else None);
  }

  lemma StartsAre(starts: seq<nat>, n: nat)
    requires |starts| == n && forall i :: 0 <= i < n ==> starts[i] == 3 * i
    ensures starts == Starts(n)
  {
  }

  /** The builder's tables and lists after all faces, assembled as `BuildMesh`
      does, are `MeshFor`'s mesh. */
  lemma Assembled(faces: seq<Face>, name: string, dm: string, table: map<string, MaterialNodes>,
                  seen: map<Vertex, nat>, slots: seq<string>, mats: map<string, nat>,
                  uvList: seq<seq<real>>, m: Mesh)
    requires WellFormed(faces) && DefaultMaterial in table
    requires Built(faces, dm, |faces|, m.vertices, seen, slots, mats, m.loops, uvList, m.smooth, m.materialIndex)
    requires m.vertices != [] && m.name == name && m.materials == BoundMaterials(slots, table)
    requires |m.loopStart| == |m.loops| / 3 && forall i :: 0 <= i < |m.loopStart| ==> m.loopStart[i] == 3 * i
    requires m.loopTotal == Repeat(3, |m.loops| / 3)
    requires m.uvLayer.Some? <==> UvsUsed(slots, table)
    requires m.uvLayer.Some? ==> FilledFrom(m.uvLayer.value, uvList)
    ensures MeshFor(faces, name, dm, table) == Some(m)
  {
    BuiltAll(faces, dm, m.vertices, seen, slots, mats, m.loops, uvList, m.smooth, m.materialIndex);
    var tris := Tris(faces, dm);
    LoopsLength(tris, m.vertices);
    StartsAre(m.loopStart, |tris|);
    if m.uvLayer.Some? {
      UvLayerAgrees(tris, m.vertices, m.uvLayer.value);
    }
    MeshForIs(faces, name, dm, table, m);
  }

  /** The face loop of `write_mesh_data`: interns each face's material key
      and vertices and emits its triangles. */
  method CollectFaces(faces: seq<Face>, dm: string)
    returns (verts: seq<Vertex>, seen: map<Vertex, nat>, mats: map<string, nat>, loops: seq<nat>,
             uvList: seq<seq<real>>, smooth: seq<bool>, matIndex: seq<nat>, ghost slots: seq<string>)
    requires WellFormed(faces)
    ensures Built(faces, dm, |faces|, verts, seen, slots, mats, loops, uvList, smooth, matIndex)
  {
    verts, seen, mats, loops, uvList, smooth, matIndex, slots := [], map[], map[], [], [], [], [], [];
    var k := 0;
    while k < |faces|
      invariant k <= |faces|
      invariant Built(faces, dm, k, verts, seen, slots, mats, loops, uvList, smooth, matIndex)
    {
      var f := faces[k];
      var matNumber;
      ghost var slots0, mats0 := slots, mats;
      mats, matNumber, slots := Intern(mats, MaterialKey(f, dm), slots);
      var verts', seen', mapping := InternVertices(verts, seen, f.vertices, AllVertices(faces[..k]));
      var smoothEdge := FindSmoothEdge(f.smoothEdges);
      var faceLoops, faceUvs, faceSmooth, faceMats := EmitTriangles(f, dm, mapping, verts', matNumber, smoothEdge);
      FaceStep(faces, dm, k, verts, seen, slots0, mats0, loops, uvList, smooth, matIndex,
               verts', seen', slots, mats, faceLoops, faceUvs, faceSmooth, faceMats);
      verts, seen := verts', seen';
      loops, uvList, smooth, matIndex := loops + faceLoops, uvList + faceUvs, smooth + faceSmooth, matIndex + faceMats;
      k := k + 1;
    }
  }

  /** `write_mesh_data` without its cache: the faces' mesh, or `None` when
      they hold no vertex. */
  method BuildMesh(faces: seq<Face>, name: string, dm: string, table: map<string, MaterialNodes>)
    returns (r: Option<Mesh>)
    requires WellFormed(faces) && DefaultMaterial in table
    ensures r == MeshFor(faces, name, dm, table)
  {
    var verts, seen, mats, loops, uvList, smooth, matIndex, slots := CollectFaces(faces, dm);
    if |verts| == 0 {
      NoVertices(faces, dm, seen, slots, mats, loops, uvList, smooth, matIndex);
      return None;
    }
    var keys := KeysByOffset(mats, slots);
    var bound, uvsUsed := BindMaterials(keys, table);
    var count := |loops| / 3;
    var starts := LoopStarts(count);
    var uvLayer: Option<seq<UV>> := None;
    if uvsUsed {
      var layer := FillUvLayer(uvList);
      uvLayer := Some(layer);
    }
    r := Some(Mesh(name, verts, loops, starts, Repeat(3, count), matIndex, smooth, bound, uvLayer));
    Assembled(faces, name, dm, table, seen, slots, mats, uvList, r.value);
  }

  lemma NoVertices(faces: seq<Face>, dm: string, seen: map<Vertex, nat>, slots: seq<string>, mats: map<string, nat>,
                   loops: seq<nat>, uvList: seq<seq<real>>, smooth: seq<bool>, matIndex: seq<nat>)
    requires WellFormed(faces)
    requires Built(faces, dm, |faces|, [], seen, slots, mats, loops, uvList, smooth, matIndex)
    ensures AllVertices(faces) == []
  {
    TakeAll(faces);
    FirstSeenFacts(AllVertices(faces));
  }
}
