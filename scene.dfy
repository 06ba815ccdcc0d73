/** The scene tree the importer reads from a SketchUp model, and the
    settings one import session runs with. */
module Scene {
  import opened Common

  /** A 4x4 transform, kept symbolic. `Given` is a matrix read from the
      model, `Product(a, b)` is the matrix product `a @ b`; no law of matrix
      algebra is assumed, so composition is uninterpreted. */
  datatype Transform = Identity | Given(tag: nat) | Product(outer: Transform, inner: Transform)

  /** `parent @ local`: the child's world transform. */
  function Compose(parent: Transform, local: Transform): Transform {
    Product(parent, local)
  }

  datatype Vertex = Vertex(x: real, y: real, z: real)

  datatype UV = UV(u: real, v: real)

  /** Indices into a face's vertex list, as given by its tessellation. */
  datatype Triangle = Triangle(i0: nat, i1: nat, i2: nat)

  /** A face: its own material (if any), its tessellated mesh (vertices,
      one UV per vertex, triangles) and the smooth flag of each bounding edge. */
  datatype Face = Face(
    material: Option<string>,
    vertices: seq<Vertex>,
    uvs: seq<UV>,
    triangles: seq<Triangle>,
    smoothEdges: seq<bool>)

  type LayerId = nat

  /** The contents of a model, group or component definition. */
  datatype Entities = Entities(groups: seq<Group>, instances: seq<Instance>, faces: seq<Face>)

  datatype Group = Group(
    name: string,
    transform: Transform,
    material: Option<string>,
    hidden: bool,
    layer: LayerId,
    entities: Entities)

  /** A placement of a component definition. The definition is the one the
      session's component table holds under the definition's name; it is
      carried here by value, so the tree is the (finite) unfolding of the
      acyclic definition graph. */
  datatype Instance = Instance(
    name: string,
    definition: Definition,
    transform: Transform,
    material: Option<string>,
    hidden: bool,
    layer: LayerId)

  datatype Definition = Definition(name: string, entities: Entities)

  /** What kind of node a traversal step is visiting. */
  datatype EntityType = NoType | GroupType | ComponentType

  /** Whether a material of the session's material table has an
      'Image Texture' node, a node tree without one, or no node tree at all. */
  datatype MaterialNodes = ImageTexture | NoImageTexture | NoNodeTree

  /** (component or mesh name, material name) */
  type NameMat = (string, string)

  const DefaultMaterial: string := "Material"

  const LooseEntity: string := "_(Loose Entity)"

  /** Settings and inputs fixed for one import session. The three functions
      stand for helpers of the importer's utility module, which is not part
      of this model: the effective material of a node given its own material
      and the inherited one, the name sanitiser applied to group names, and
      the name given to a component's shared group. */
  datatype Config = Config(
    layersSkip: set<LayerId>,
    maxInstance: int,
    reuseGroup: bool,
    componentDepth: map<string, nat>,
    materials: map<string, MaterialNodes>,
    inherit: (Option<string>, string) -> string,
    safeName: string -> string,
    groupName: (string, string) -> string)

  /** The session's material table always holds the fallback material. */
  predicate ValidConfig(cfg: Config) {
    DefaultMaterial in cfg.materials
  }
}
