/** The write pass: the recursive walk that turns the entity tree into
    scene objects. Objects are modelled as records; the pass returns the
    records it links, in order, together with the placements it records
    for pairs that are drawn from a shared group instead. */
module Writer {
  import opened Common
  import opened Scene
  import opened MeshBuilder
  import opened Analysis

  /** The name the write pass looks up in the skip set for a component
      visit: the object name it gives the placement (as the pass does), or
      the definition name (the key the deduplication pass stores). */
  datatype Keying = ByNodeName | ByDefinitionName

  /** A linked object: its name, the (name, material) key of the cached mesh
      it shows (`None` for an empty), its world transform, its parent object
      and whether it is hidden in the viewport. */
  datatype Node = Node(name: string, mesh: Option<NameMat>, transform: Transform, parent: Option<string>, hidden: bool)

  /** The objects linked by a walk and the placements it records. */
  datatype Written = Written(nodes: seq<Node>, hits: seq<Visit>)

  function Join(a: Written, b: Written): Written {
    Written(a.nodes + b.nodes, a.hits + b.hits)
  }

  /** The object name of a component placement: "C-" + the definition name
      for an unnamed instance, else the instance name followed by
      " (C-" + the definition name + ")". */
  function ComponentNodeName(instName: string, defName: string): (r: string)
    ensures instName == "" ==> |r| >= 2 && r[..2] == "C-" && r[2..] == defName
    ensures instName != "" ==> |r| > |instName| && r[..|instName|] == instName && r[|r| - 1] == ')'
    ensures instName != "" ==> r[|instName|..] == " (C-" + defName + ")"
  {
    if instName == "" then "C-" + defName else instName + " (C-" + defName + ")"
  }

  /** The object a child is parented to: none at the top, and none under
      the loose-entity root. */
  function ParentOf(parentName: Option<string>): Option<string> {
    if parentName.Some? && parentName.value != LooseEntity then parentName else None
  }

  /** The objects made for one visited node: a single object showing the
      mesh when the node has no children or is the loose-entity root;
      otherwise a hidden empty, preceded by a child object showing the loose
      mesh when there is one. */
  function OwnNodes(name: string, dm: string, hasMesh: bool, t: Transform, parentName: Option<string>,
                    nested: nat): (r: seq<Node>)
    ensures 1 <= |r| <= 2
    ensures r[|r| - 1].name == name && r[|r| - 1].parent == ParentOf(parentName) && r[|r| - 1].transform == t
    ensures r[|r| - 1].hidden <==> nested > 0 && name != LooseEntity
    ensures |r| == 2 <==> hasMesh && nested > 0 && name != LooseEntity
    ensures |r| == 2 ==> r[0].parent == Some(name) && r[0].mesh == Some((name, dm)) && !r[0].hidden
    ensures |r| == 2 ==> r[0].name == "_" + name + " (Loose Mesh)" && r[0].transform == t
    ensures r[|r| - 1].mesh.Some? <==> hasMesh && (nested == 0 || name == LooseEntity)
    ensures forall i :: 0 <= i < |r| && r[i].mesh.Some? ==> r[i].mesh == Some((name, dm))
  {
    if nested == 0 || name == LooseEntity then
      [Node(name, if hasMesh then Some((name, dm)) else None, t, ParentOf(parentName), false)]
    else
      (if hasMesh then [Node("_" + name + " (Loose Mesh)", Some((name, dm)), t, Some(name), false)] else [])
      + [Node(name, None, t, ParentOf(parentName), true)]
  }

  /** The key a component visit is looked up under. */
  function SkipKey(keying: Keying, name: string, defName: string, dm: string): NameMat {
    if keying == ByNodeName then (name, dm) else (defName, dm)
  }

  /** `write_entities` for the node `name` holding `e`. A component visit
      whose key is skipped records its parent transform and stops;
      otherwise the node's own objects come first, then those of its shown
      groups, then those of its shown instances. */
  function Write(cfg: Config, keying: Keying, skip: set<NameMat>, e: Entities, name: string, defName: string,
                 t: Transform, dm: string, etype: EntityType, parentName: Option<string>): (r: Written)
    ensures r.nodes == [] <==> etype == ComponentType && SkipKey(keying, name, defName, dm) in skip
    ensures r.nodes == [] ==> r.hits == [(SkipKey(keying, name, defName, dm), t)]
    ensures r.nodes != [] ==> r.nodes[0].transform == t
                              && (r.nodes[0].name == name || r.nodes[0].name == "_" + name + " (Loose Mesh)")
    decreases e, 1
  {
    var key := SkipKey(keying, name, defName, dm);
    if etype == ComponentType && key in skip then Written([], [(key, t)])
    else
      var own := OwnNodes(name, dm, AllVertices(e.faces) != [], t, parentName, |e.groups| + |e.instances|);
      Join(Join(Written(own, []), GroupWrites(cfg, keying, skip, e.groups, t, dm, name)),
           InstanceWrites(cfg, keying, skip, e.instances, t, dm, name))
  }

  /** Whether the walk passes over a child: hidden, or on a skipped layer. */
  predicate Passed(cfg: Config, hidden: bool, layer: LayerId) {
    hidden || OnSkippedLayer(cfg, layer)
  }

  function GroupWrites(cfg: Config, keying: Keying, skip: set<NameMat>, gs: seq<Group>, t: Transform, dm: string,
                       parent: string): Written
    decreases gs, 0
  {
    if gs == [] then Written([], [])
    else Join(GroupWrites(cfg, keying, skip, gs[..|gs| - 1], t, dm, parent),
              GroupWrite(cfg, keying, skip, gs[|gs| - 1], t, dm, parent))
  }

  /** A shown group is written as "G-" + its sanitised name. */
  function GroupWrite(cfg: Config, keying: Keying, skip: set<NameMat>, g: Group, t: Transform, dm: string,
                      parent: string): Written
    decreases g, 0
  {
    if Passed(cfg, g.hidden, g.layer) then Written([], [])
    else
      var gname := "G-" + cfg.safeName(g.name);
      Write(cfg, keying, skip, g.entities, gname, gname, Compose(t, g.transform), cfg.inherit(g.material, dm),
            GroupType, Some(parent))
  }

  function InstanceWrites(cfg: Config, keying: Keying, skip: set<NameMat>, insts: seq<Instance>, t: Transform,
                          dm: string, parent: string): Written
    decreases insts, 0
  {
    if insts == [] then Written([], [])
    else Join(InstanceWrites(cfg, keying, skip, insts[..|insts| - 1], t, dm, parent),
              InstanceWrite(cfg, keying, skip, insts[|insts| - 1], t, dm, parent))
  }

  /** A shown instance is written as its definition's contents under the
      placement's object name. */
  function InstanceWrite(cfg: Config, keying: Keying, skip: set<NameMat>, inst: Instance, t: Transform, dm: string,
                         parent: string): Written
    decreases inst, 0
  {
    if Passed(cfg, inst.hidden, inst.layer) then Written([], [])
    else
      var d := inst.definition;
      Write(cfg, keying, skip, d.entities, ComponentNodeName(inst.name, d.name), d.name,
            Compose(t, inst.transform), cfg.inherit(inst.material, dm), ComponentType, Some(parent))
  }

  // ---------------------------------------------------------------------
  // Short-circuit and filtering

  /** Every recorded placement is under a skipped key. */
  lemma {:induction false} HitsAreSkipped(cfg: Config, keying: Keying, skip: set<NameMat>, e: Entities, name: string,
                                          defName: string, t: Transform, dm: string, etype: EntityType,
                                          parentName: Option<string>)
    ensures forall h :: h in Write(cfg, keying, skip, e, name, defName, t, dm, etype, parentName).hits ==> h.0 in skip
    decreases e, 1
  {
    var key := SkipKey(keying, name, defName, dm);
    if !(etype == ComponentType && key in skip) {
      GroupHitsAreSkipped(cfg, keying, skip, e.groups, t, dm, name);
      InstanceHitsAreSkipped(cfg, keying, skip, e.instances, t, dm, name);
    }
  }

  lemma {:induction false} GroupHitsAreSkipped(cfg: Config, keying: Keying, skip: set<NameMat>, gs: seq<Group>,
                                               t: Transform, dm: string, parent: string)
    ensures forall h :: h in GroupWrites(cfg, keying, skip, gs, t, dm, parent).hits ==> h.0 in skip
    decreases gs, 0
  {
    if gs != [] {
      var g := gs[|gs| - 1];
      GroupHitsAreSkipped(cfg, keying, skip, gs[..|gs| - 1], t, dm, parent);
      if !Passed(cfg, g.hidden, g.layer) {
        var gname := "G-" + cfg.safeName(g.name);
        HitsAreSkipped(cfg, keying, skip, g.entities, gname, gname, Compose(t, g.transform),
                       cfg.inherit(g.material, dm), GroupType, Some(parent));
      }
    }
  }

  lemma {:induction false} InstanceHitsAreSkipped(cfg: Config, keying: Keying, skip: set<NameMat>,
                                                  insts: seq<Instance>, t: Transform, dm: string, parent: string)
    ensures forall h :: h in InstanceWrites(cfg, keying, skip, insts, t, dm, parent).hits ==> h.0 in skip
    decreases insts, 0
  {
    if insts != [] {
      var inst := insts[|insts| - 1];
      InstanceHitsAreSkipped(cfg, keying, skip, insts[..|insts| - 1], t, dm, parent);
      if !Passed(cfg, inst.hidden, inst.layer) {
        var d := inst.definition;
        HitsAreSkipped(cfg, keying, skip, d.entities, ComponentNodeName(inst.name, d.name), d.name,
                       Compose(t, inst.transform), cfg.inherit(inst.material, dm), ComponentType, Some(parent));
      }
    }
  }

  /** The groups the walk visits: neither hidden nor on a skipped layer. */
  function VisitedGroups(cfg: Config, gs: seq<Group>): seq<Group> {
    if gs == [] then []
    else
      var g := gs[|gs| - 1];
      VisitedGroups(cfg, gs[..|gs| - 1]) + (if Passed(cfg, g.hidden, g.layer) then [] else [g])
  }

  /** The instances the walk visits: neither hidden nor on a skipped layer. */
  function VisitedInstances(cfg: Config, insts: seq<Instance>): seq<Instance> {
    if insts == [] then []
    else
      var inst := insts[|insts| - 1];
      VisitedInstances(cfg, insts[..|insts| - 1]) + (if Passed(cfg, inst.hidden, inst.layer) then [] else [inst])
  }

  lemma JoinEmpty(a: Written)
    ensures Join(a, Written([], [])) == a
  {
    assert a.nodes + [] == a.nodes && a.hits + [] == a.hits;
  }

  /** Hidden groups and groups on a skipped layer are never visited: the
      groups write exactly what the visited ones write. */
  lemma {:induction false} PassedGroupsIgnored(cfg: Config, keying: Keying, skip: set<NameMat>, gs: seq<Group>,
                                               t: Transform, dm: string, parent: string)
    ensures GroupWrites(cfg, keying, skip, gs, t, dm, parent)
            == GroupWrites(cfg, keying, skip, VisitedGroups(cfg, gs), t, dm, parent)
    decreases |gs|
  {
    if gs != [] {
      var init, g := gs[..|gs| - 1], gs[|gs| - 1];
      PassedGroupsIgnored(cfg, keying, skip, init, t, dm, parent);
      if Passed(cfg, g.hidden, g.layer) {
        assert VisitedGroups(cfg, gs) == VisitedGroups(cfg, init) + [] == VisitedGroups(cfg, init);
        JoinEmpty(GroupWrites(cfg, keying, skip, init, t, dm, parent));
      } else {
        var s := VisitedGroups(cfg, init) + [g];
        assert s[..|s| - 1] == VisitedGroups(cfg, init);
      }
    }
  }

  /** Hidden instances and instances on a skipped layer are never visited. */
  lemma {:induction false} PassedInstancesIgnored(cfg: Config, keying: Keying, skip: set<NameMat>,
                                                  insts: seq<Instance>, t: Transform, dm: string, parent: string)
    ensures InstanceWrites(cfg, keying, skip, insts, t, dm, parent)
            == InstanceWrites(cfg, keying, skip, VisitedInstances(cfg, insts), t, dm, parent)
    decreases |insts|
  {
    if insts != [] {
      var init, inst := insts[..|insts| - 1], insts[|insts| - 1];
      PassedInstancesIgnored(cfg, keying, skip, init, t, dm, parent);
      if Passed(cfg, inst.hidden, inst.layer) {
        assert VisitedInstances(cfg, insts) == VisitedInstances(cfg, init) + [] == VisitedInstances(cfg, init);
        JoinEmpty(InstanceWrites(cfg, keying, skip, init, t, dm, parent));
      } else {
        var s := VisitedInstances(cfg, init) + [inst];
        assert s[..|s| - 1] == VisitedInstances(cfg, init);
      }
    }
  }

  /** A visited instance whose (definition, material) pair is skipped is,
      under definition-name keying, recorded with its composed transform
      and contributes no object. */
  lemma SkippedInstanceRecorded(cfg: Config, skip: set<NameMat>, inst: Instance, t: Transform, dm: string,
                                parent: string)
    requires !Passed(cfg, inst.hidden, inst.layer)
    requires (inst.definition.name, cfg.inherit(inst.material, dm)) in skip
    ensures InstanceWrite(cfg, ByDefinitionName, skip, inst, t, dm, parent)
            == Written([], [((inst.definition.name, cfg.inherit(inst.material, dm)), Compose(t, inst.transform))])
  {
  }

  // ---------------------------------------------------------------------
  // The lookup under the object name

  /** A key the object-name lookup can never meet: its name neither starts
      with "C-" nor ends with ")", as every definition name that does not
      itself look like a placement's object name. */
  predicate PlainKey(k: NameMat) {
    !(|k.0| >= 2 && k.0[..2] == "C-") && !(|k.0| > 0 && k.0[|k.0| - 1] == ')')
  }

  /** As written, the pass looks a component up under its object name,
      while the skip set holds definition names: with plain definition
      names no placement is ever short-circuited, so nothing is recorded. */
  lemma {:induction false} NodeNameNeverSkips(cfg: Config, skip: set<NameMat>, e: Entities, name: string,
                                              defName: string, t: Transform, dm: string, etype: EntityType,
                                              parentName: Option<string>)
    requires forall k :: k in skip ==> PlainKey(k)
    requires etype != ComponentType
    ensures Write(cfg, ByNodeName, skip, e, name, defName, t, dm, etype, parentName).hits == []
    decreases e, 1
  {
    GroupsNeverSkip(cfg, skip, e.groups, t, dm, name);
    InstancesNeverSkip(cfg, skip, e.instances, t, dm, name);
  }

  lemma {:induction false} GroupsNeverSkip(cfg: Config, skip: set<NameMat>, gs: seq<Group>, t: Transform, dm: string,
                                           parent: string)
    requires forall k :: k in skip ==> PlainKey(k)
    ensures GroupWrites(cfg, ByNodeName, skip, gs, t, dm, parent).hits == []
    decreases gs, 0
  {
    if gs != [] {
      var g := gs[|gs| - 1];
      GroupsNeverSkip(cfg, skip, gs[..|gs| - 1], t, dm, parent);
      if !Passed(cfg, g.hidden, g.layer) {
        var gname := "G-" + cfg.safeName(g.name);
        NodeNameNeverSkips(cfg, skip, g.entities, gname, gname, Compose(t, g.transform),
                           cfg.inherit(g.material, dm), GroupType, Some(parent));
      }
    }
  }

  lemma {:induction false} InstancesNeverSkip(cfg: Config, skip: set<NameMat>, insts: seq<Instance>, t: Transform,
                                              dm: string, parent: string)
    requires forall k :: k in skip ==> PlainKey(k)
    ensures InstanceWrites(cfg, ByNodeName, skip, insts, t, dm, parent).hits == []
    decreases insts, 0
  {
    if insts != [] {
      var inst := insts[|insts| - 1];
      InstancesNeverSkip(cfg, skip, insts[..|insts| - 1], t, dm, parent);
      if !Passed(cfg, inst.hidden, inst.layer) {
        var d := inst.definition;
        var cname := ComponentNodeName(inst.name, d.name);
        var mat := cfg.inherit(inst.material, dm);
        assert !PlainKey((cname, mat));
        assert (cname, mat) !in skip;
        InstanceBodyNeverSkips(cfg, skip, d.entities, cname, d.name, Compose(t, inst.transform), mat, parent);
      }
    }
  }

  /** The contents of a placement that is not short-circuited. */
  lemma {:induction false} InstanceBodyNeverSkips(cfg: Config, skip: set<NameMat>, e: Entities, name: string,
                                                  defName: string, t: Transform, dm: string, parent: string)
    requires forall k :: k in skip ==> PlainKey(k)
    requires (name, dm) !in skip
    ensures Write(cfg, ByNodeName, skip, e, name, defName, t, dm, ComponentType, Some(parent)).hits == []
    decreases e, 0
  {
    GroupsNeverSkip(cfg, skip, e.groups, t, dm, name);
    InstancesNeverSkip(cfg, skip, e.instances, t, dm, name);
  }

  /** The chair of the counterexample: a definition that itself places a
      leg, so that it is not a leaf of the component graph. */
  function Chair(leg: Transform): Definition {
    Definition("Chair", Entities([], [Instance("", Definition("Leg", Entities([], [], [])), leg, None, false, 0)], []))
  }

  /** A chair placed once at the top level, its pair marked for
      duplication: the object-name lookup misses it and writes it out in
      full (the chair's empty and its leg), recording nothing; the
      definition-name lookup records the placement and links no object for
      it. */
  lemma ChairCounterexample(cfg: Config, t: Transform, leg: Transform)
    requires cfg.inherit(None, DefaultMaterial) == DefaultMaterial
    requires cfg.layersSkip == {}
    ensures var root := Entities([], [Instance("", Chair(leg), t, None, false, 0)], []);
      var skip := {("Chair", DefaultMaterial)};
      && Write(cfg, ByNodeName, skip, root, LooseEntity, LooseEntity, Identity, DefaultMaterial, NoType, None).hits == []
      && |Write(cfg, ByNodeName, skip, root, LooseEntity, LooseEntity, Identity, DefaultMaterial, NoType, None).nodes| == 3
      && Write(cfg, ByDefinitionName, skip, root, LooseEntity, LooseEntity, Identity, DefaultMaterial, NoType, None)
         == Written([Node(LooseEntity, None, Identity, None, false)],
                    [(("Chair", DefaultMaterial), Compose(Identity, t))])
  {
    ChairByNodeName(cfg, t, leg);
    ChairByDefinitionName(cfg, t, leg);
  }

  /** The chair under the object-name lookup: written out, not recorded. */
  lemma ChairByNodeName(cfg: Config, t: Transform, leg: Transform)
    requires cfg.inherit(None, DefaultMaterial) == DefaultMaterial
    requires cfg.layersSkip == {}
    ensures var root := Entities([], [Instance("", Chair(leg), t, None, false, 0)], []);
      var w := Write(cfg, ByNodeName, {("Chair", DefaultMaterial)}, root, LooseEntity, LooseEntity, Identity,
                     DefaultMaterial, NoType, None);
      w.hits == [] && |w.nodes| == 3
  {
    var inst := Instance("", Chair(leg), t, None, false, 0);
    var skip := {("Chair", DefaultMaterial)};
    SingleInstanceRoot(cfg, ByNodeName, skip, inst, DefaultMaterial);
    assert ComponentNodeName("", "Chair") == "C-Chair";
    ChairBodyByNodeName(cfg, Compose(Identity, t), leg);
  }

  /** The chair's own visit under the object-name lookup: its hidden empty
      and its leg. */
  lemma ChairBodyByNodeName(cfg: Config, ct: Transform, leg: Transform)
    requires cfg.inherit(None, DefaultMaterial) == DefaultMaterial
    requires cfg.layersSkip == {}
    ensures var w := Write(cfg, ByNodeName, {("Chair", DefaultMaterial)}, Chair(leg).entities, "C-Chair", "Chair", ct,
                           DefaultMaterial, ComponentType, Some(LooseEntity));
      w.hits == [] && |w.nodes| == 2
  {
    var legInst := Chair(leg).entities.instances[0];
    var skip := {("Chair", DefaultMaterial)};
    assert ("C-Chair", DefaultMaterial) != ("Chair", DefaultMaterial) by {
      assert |"C-Chair"| != |"Chair"|;
    }
    assert ("C-Leg", DefaultMaterial) != ("Chair", DefaultMaterial) by {
      assert "C-Leg"[1] != "Chair"[1];
    }
    assert ComponentNodeName("", "Leg") == "C-Leg";
    assert [legInst][..0] == [];
    assert AllVertices([]) == [];
    assert InstanceWrites(cfg, ByNodeName, skip, [legInst], ct, DefaultMaterial, "C-Chair")
        == Join(Written([], []), InstanceWrite(cfg, ByNodeName, skip, legInst, ct, DefaultMaterial, "C-Chair"));
    LeafWrite(cfg, ByNodeName, skip, "C-Leg", "Leg", Compose(ct, leg), DefaultMaterial, ComponentType,
              Some("C-Chair"));
    assert GroupWrites(cfg, ByNodeName, skip, [], ct, DefaultMaterial, "C-Chair") == Written([], []);
    assert |OwnNodes("C-Chair", DefaultMaterial, false, ct, Some(LooseEntity), 1)| == 1;
  }

  /** The chair under the definition-name lookup: recorded, not written. */
  lemma ChairByDefinitionName(cfg: Config, t: Transform, leg: Transform)
    requires cfg.inherit(None, DefaultMaterial) == DefaultMaterial
    requires cfg.layersSkip == {}
    ensures var root := Entities([], [Instance("", Chair(leg), t, None, false, 0)], []);
      Write(cfg, ByDefinitionName, {("Chair", DefaultMaterial)}, root, LooseEntity, LooseEntity, Identity,
            DefaultMaterial, NoType, None)
      == Written([Node(LooseEntity, None, Identity, None, false)], [(("Chair", DefaultMaterial), Compose(Identity, t))])
  {
    var inst := Instance("", Chair(leg), t, None, false, 0);
    var skip := {("Chair", DefaultMaterial)};
    SingleInstanceRoot(cfg, ByDefinitionName, skip, inst, DefaultMaterial);
  }

  /** A model root holding nothing but one shown placement: the root object,
      then whatever the placement writes. */
  lemma SingleInstanceRoot(cfg: Config, keying: Keying, skip: set<NameMat>, inst: Instance, dm: string)
    ensures Write(cfg, keying, skip, Entities([], [inst], []), LooseEntity, LooseEntity, Identity, dm, NoType, None)
            == Join(Written([Node(LooseEntity, None, Identity, None, false)], []),
                    InstanceWrite(cfg, keying, skip, inst, Identity, dm, LooseEntity))
  {
    var empty := Written([], []);
    assert [inst][..0] == [];
    assert AllVertices([]) == [];
    assert GroupWrites(cfg, keying, skip, [], Identity, dm, LooseEntity) == empty;
    assert InstanceWrites(cfg, keying, skip, [inst], Identity, dm, LooseEntity)
        == Join(empty, InstanceWrite(cfg, keying, skip, inst, Identity, dm, LooseEntity));
  }

  /** A visit of a node with no faces and no children that is not skipped
      links one object without a mesh and records nothing. */
  lemma LeafWrite(cfg: Config, keying: Keying, skip: set<NameMat>, name: string, defName: string, t: Transform,
                  dm: string, etype: EntityType, parentName: Option<string>)
    requires etype == ComponentType ==> SkipKey(keying, name, defName, dm) !in skip
    ensures Write(cfg, keying, skip, Entities([], [], []), name, defName, t, dm, etype, parentName)
            == Written([Node(name, None, t, ParentOf(parentName), false)], [])
  {
    assert AllVertices([]) == [];
  }
}
