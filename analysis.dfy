/** The usage analysis that precedes deduplication: a walk over the entity
    tree that records, for every component placement it reaches, the
    placement's world transform under the key (definition name, effective
    material). */
module Analysis {
  import opened Common
  import opened Scene
  import opened Multimap

  /** One append to the usage statistics: the key and the world transform. */
  type Visit = (NameMat, Transform)

  /** Whether a group or instance on `layer` is left out of the walk. */
  predicate OnSkippedLayer(cfg: Config, layer: LayerId) {
    layer in cfg.layersSkip
  }

  /** The appends made by the walk of `e`, in order. A component visit
      first records its own transform; then come the groups, then the
      instances. The `skip` list only prunes the instances of the top
      level: the recursive visits are made without it. */
  function Visits(cfg: Config, e: Entities, name: string, t: Transform, dm: string,
                  etype: EntityType, skip: seq<NameMat>): seq<Visit>
    decreases e, 1
  {
    (if etype == ComponentType then [((name, dm), t)] else [])
    + GroupVisits(cfg, e.groups, t, dm)
    + InstanceVisits(cfg, e.instances, t, dm, skip)
  }

  function GroupVisits(cfg: Config, gs: seq<Group>, t: Transform, dm: string): seq<Visit>
    decreases gs, 0
  {
    if gs == [] then []
    else GroupVisits(cfg, gs[..|gs| - 1], t, dm) + GroupVisit(cfg, gs[|gs| - 1], t, dm)
  }

  /** A group is walked as "G-" + its name, under its composed transform
      and its inherited material. */
  function GroupVisit(cfg: Config, g: Group, t: Transform, dm: string): seq<Visit>
    decreases g, 0
  {
    if OnSkippedLayer(cfg, g.layer) then []
    else Visits(cfg, g.entities, "G-" + g.name, Compose(t, g.transform), cfg.inherit(g.material, dm), GroupType, [])
  }

  function InstanceVisits(cfg: Config, insts: seq<Instance>, t: Transform, dm: string, skip: seq<NameMat>): seq<Visit>
    decreases insts, 0
  {
    if insts == [] then []
    else InstanceVisits(cfg, insts[..|insts| - 1], t, dm, skip) + InstanceVisit(cfg, insts[|insts| - 1], t, dm, skip)
  }

  /** An instance is walked as its definition, a component visit, under
      its composed transform and its effective material. */
  function InstanceVisit(cfg: Config, inst: Instance, t: Transform, dm: string, skip: seq<NameMat>): seq<Visit>
    decreases inst, 0
  {
    if Pruned(cfg, inst, dm, skip) then []
    else Visits(cfg, inst.definition.entities, inst.definition.name, Compose(t, inst.transform),
                cfg.inherit(inst.material, dm), ComponentType, [])
  }

  /** An instance on a skipped layer, or whose (definition, effective
      material) pair is in `skip`, is not walked. */
  predicate Pruned(cfg: Config, inst: Instance, dm: string, skip: seq<NameMat>) {
    OnSkippedLayer(cfg, inst.layer) || (inst.definition.name, cfg.inherit(inst.material, dm)) in skip
  }

  // ---------------------------------------------------------------------
  // The walk

  /** One more group extends the appends by that group's walk: nothing
      when its layer is skipped, its own walk otherwise. */
  lemma GroupStep(cfg: Config, gs: seq<Group>, i: nat, t: Transform, dm: string,
                  start: Multi<NameMat, Transform>, before: Multi<NameMat, Transform>, after: Multi<NameMat, Transform>)
    requires i < |gs|
    requires before == AppendAll(start, GroupVisits(cfg, gs[..i], t, dm))
    requires after == if OnSkippedLayer(cfg, gs[i].layer) then before
                      else AppendAll(before, Visits(cfg, gs[i].entities, "G-" + gs[i].name, Compose(t, gs[i].transform),
                                                    cfg.inherit(gs[i].material, dm), GroupType, []))
    ensures after == AppendAll(start, GroupVisits(cfg, gs[..i + 1], t, dm))
  {
    assert gs[..i + 1][..i] == gs[..i];
    assert after == AppendAll(before, GroupVisit(cfg, gs[i], t, dm));
    AppendAllConcat(start, GroupVisits(cfg, gs[..i], t, dm), GroupVisit(cfg, gs[i], t, dm));
  }

  /** One more instance extends the appends by that instance's walk:
      nothing when its layer is skipped or its pair is in `skip`, its
      definition's walk otherwise. */
  lemma InstanceStep(cfg: Config, insts: seq<Instance>, i: nat, t: Transform, dm: string, skip: seq<NameMat>,
                     start: Multi<NameMat, Transform>, before: Multi<NameMat, Transform>, after: Multi<NameMat, Transform>)
    requires i < |insts|
    requires before == AppendAll(start, InstanceVisits(cfg, insts[..i], t, dm, skip))
    requires after == if Pruned(cfg, insts[i], dm, skip) then before
                      else AppendAll(before, Visits(cfg, insts[i].definition.entities, insts[i].definition.name,
                                                    Compose(t, insts[i].transform), cfg.inherit(insts[i].material, dm),
                                                    ComponentType, []))
    ensures after == AppendAll(start, InstanceVisits(cfg, insts[..i + 1], t, dm, skip))
  {
    assert insts[..i + 1][..i] == insts[..i];
    assert after == AppendAll(before, InstanceVisit(cfg, insts[i], t, dm, skip));
    AppendAllConcat(start, InstanceVisits(cfg, insts[..i], t, dm, skip), InstanceVisit(cfg, insts[i], t, dm, skip));
  }

  /** The head, the groups and the instances, appended in turn, are the walk. */
  lemma WalkAssembled(cfg: Config, e: Entities, name: string, t: Transform, dm: string, etype: EntityType,
                      skip: seq<NameMat>, stats: Multi<NameMat, Transform>, afterHead: Multi<NameMat, Transform>,
                      afterGroups: Multi<NameMat, Transform>, out: Multi<NameMat, Transform>)
    requires afterHead == if etype == ComponentType then Append(stats, (name, dm), t) else stats
    requires afterGroups == AppendAll(afterHead, GroupVisits(cfg, e.groups[..|e.groups|], t, dm))
    requires out == AppendAll(afterGroups, InstanceVisits(cfg, e.instances[..|e.instances|], t, dm, skip))
    ensures out == AppendAll(stats, Visits(cfg, e, name, t, dm, etype, skip))
  {
    var head: seq<Visit> := if etype == ComponentType then [((name, dm), t)] else [];
    assert afterHead == AppendAll(stats, head) by {
      assert head != [] ==> head[..|head| - 1] == [];
    }
    TakeAll(e.groups);
    TakeAll(e.instances);
    AppendAllConcat(stats, head, GroupVisits(cfg, e.groups, t, dm));
    AppendAllConcat(stats, head + GroupVisits(cfg, e.groups, t, dm), InstanceVisits(cfg, e.instances, t, dm, skip));
  }

  /** `analyze_entities`: walks `e` and appends every visit to `stats`. */
  method AnalyzeEntities(cfg: Config, e: Entities, name: string, t: Transform, dm: string,
                         etype: EntityType, skip: seq<NameMat>, stats: Multi<NameMat, Transform>)
    returns (out: Multi<NameMat, Transform>)
    ensures out == AppendAll(stats, Visits(cfg, e, name, t, dm, etype, skip))
    decreases e, 1
  {
    out := stats;
    if etype == ComponentType {
      out := Append(out, (name, dm), t);
    }
    ghost var afterHead := out;
    out := AnalyzeGroups(cfg, e, t, dm, out);
    ghost var afterGroups := out;
    out := AnalyzeInstances(cfg, e, t, dm, skip, out);
    TakeAll(e.groups);
    TakeAll(e.instances);
    WalkAssembled(cfg, e, name, t, dm, etype, skip, stats, afterHead, afterGroups, out);
  }

  /** The loop of `analyze_entities` over the child groups: each group on a
      shown layer is walked with its composed transform and its effective
      material. */
  method AnalyzeGroups(cfg: Config, e: Entities, t: Transform, dm: string, stats: Multi<NameMat, Transform>)
    returns (out: Multi<NameMat, Transform>)
    ensures out == AppendAll(stats, GroupVisits(cfg, e.groups, t, dm))
    decreases e, 0
  {
    var gs := e.groups;
    out := stats;
    var i := 0;
    while i < |gs|
      invariant i <= |gs|
      invariant out == AppendAll(stats, GroupVisits(cfg, gs[..i], t, dm))
    {
      var g := gs[i];
      ghost var before := out;
      if !OnSkippedLayer(cfg, g.layer) {
        out := AnalyzeEntities(cfg, g.entities, "G-" + g.name, Compose(t, g.transform),
                               cfg.inherit(g.material, dm), GroupType, [], out);
      }
      GroupStep(cfg, gs, i, t, dm, stats, before, out);
      i := i + 1;
    }
    TakeAll(gs);
  }

  /** The loop of `analyze_entities` over the component instances: each
      instance on a shown layer whose (definition, material) pair is not in
      `skip` is walked as a component. */
  method AnalyzeInstances(cfg: Config, e: Entities, t: Transform, dm: string, skip: seq<NameMat>,
                          stats: Multi<NameMat, Transform>)
    returns (out: Multi<NameMat, Transform>)
    ensures out == AppendAll(stats, InstanceVisits(cfg, e.instances, t, dm, skip))
    decreases e, 0
  {
    var insts := e.instances;
    out := stats;
    var j := 0;
    while j < |insts|
      invariant j <= |insts|
      invariant out == AppendAll(stats, InstanceVisits(cfg, insts[..j], t, dm, skip))
    {
      var inst := insts[j];
      ghost var before := out;
      if !Pruned(cfg, inst, dm, skip) {
        out := AnalyzeEntities(cfg, inst.definition.entities, inst.definition.name,
                               Compose(t, inst.transform), cfg.inherit(inst.material, dm), ComponentType, [], out);
      }
      InstanceStep(cfg, insts, j, t, dm, skip, stats, before, out);
      j := j + 1;
    }
    TakeAll(insts);
  }

  // ---------------------------------------------------------------------
  // What the walk records

  /** Every shown group's walk is part of its parent's walk. */
  lemma {:induction false} GroupIncluded(cfg: Config, gs: seq<Group>, i: nat, t: Transform, dm: string)
    requires i < |gs|
    ensures multiset(GroupVisit(cfg, gs[i], t, dm)) <= multiset(GroupVisits(cfg, gs, t, dm))
    decreases |gs|
  {
    var n := |gs| - 1;
    var whole := GroupVisits(cfg, gs, t, dm);
    assert whole == GroupVisits(cfg, gs[..n], t, dm) + GroupVisit(cfg, gs[n], t, dm);
    assert multiset(whole) == multiset(GroupVisits(cfg, gs[..n], t, dm)) + multiset(GroupVisit(cfg, gs[n], t, dm));
    if i < n {
      GroupIncluded(cfg, gs[..n], i, t, dm);
      assert gs[..n][i] == gs[i];
    }
  }

  /** Every instance that is shown and not pruned records its definition
      name, its effective material and its composed transform. */
  lemma {:induction false} InstanceRecorded(cfg: Config, insts: seq<Instance>, i: nat, t: Transform, dm: string,
                                            skip: seq<NameMat>)
    requires i < |insts|
    requires !OnSkippedLayer(cfg, insts[i].layer)
    requires (insts[i].definition.name, cfg.inherit(insts[i].material, dm)) !in skip
    ensures ((insts[i].definition.name, cfg.inherit(insts[i].material, dm)), Compose(t, insts[i].transform))
            in InstanceVisits(cfg, insts, t, dm, skip)
    decreases |insts|
  {
    var n := |insts| - 1;
    if i < n {
      InstanceRecorded(cfg, insts[..n], i, t, dm, skip);
    } else {
      var d, mat := insts[i].definition, cfg.inherit(insts[i].material, dm);
      var w := Visits(cfg, d.entities, d.name, Compose(t, insts[i].transform), mat, ComponentType, []);
      assert w[0] == ((d.name, mat), Compose(t, insts[i].transform));
      assert InstanceVisit(cfg, insts[i], t, dm, skip) == w;
      assert InstanceVisits(cfg, insts, t, dm, skip) == InstanceVisits(cfg, insts[..n], t, dm, skip) + w;
    }
  }

  /** The groups that are not on a skipped layer, in order. */
  function ShownGroups(cfg: Config, gs: seq<Group>): seq<Group> {
    if gs == [] then []
    else ShownGroups(cfg, gs[..|gs| - 1])
         + (if OnSkippedLayer(cfg, gs[|gs| - 1].layer) then [] else [gs[|gs| - 1]])
  }

  /** The instances that are not on a skipped layer, in order. */
  function ShownInstances(cfg: Config, insts: seq<Instance>): seq<Instance> {
    if insts == [] then []
    else ShownInstances(cfg, insts[..|insts| - 1])
         + (if OnSkippedLayer(cfg, insts[|insts| - 1].layer) then [] else [insts[|insts| - 1]])
  }

  /** Groups on a skipped layer contribute nothing: the walk of the groups
      is the walk of the shown ones. */
  lemma {:induction false} SkippedGroupsIgnored(cfg: Config, gs: seq<Group>, t: Transform, dm: string)
    ensures GroupVisits(cfg, gs, t, dm) == GroupVisits(cfg, ShownGroups(cfg, gs), t, dm)
    decreases |gs|
  {
    if gs != [] {
      var init, last := gs[..|gs| - 1], gs[|gs| - 1];
      SkippedGroupsIgnored(cfg, init, t, dm);
      if !OnSkippedLayer(cfg, last.layer) {
        var s := ShownGroups(cfg, init) + [last];
        assert s[..|s| - 1] == ShownGroups(cfg, init);
      } else {
        assert ShownGroups(cfg, gs) == ShownGroups(cfg, init) + [] == ShownGroups(cfg, init);
        assert GroupVisits(cfg, gs, t, dm) == GroupVisits(cfg, init, t, dm) + [] == GroupVisits(cfg, init, t, dm);
      }
    }
  }

  /** Instances on a skipped layer contribute nothing. */
  lemma {:induction false} SkippedInstancesIgnored(cfg: Config, insts: seq<Instance>, t: Transform, dm: string,
                                                   skip: seq<NameMat>)
    ensures InstanceVisits(cfg, insts, t, dm, skip) == InstanceVisits(cfg, ShownInstances(cfg, insts), t, dm, skip)
    decreases |insts|
  {
    if insts != [] {
      var init, last := insts[..|insts| - 1], insts[|insts| - 1];
      SkippedInstancesIgnored(cfg, init, t, dm, skip);
      if !OnSkippedLayer(cfg, last.layer) {
        var s := ShownInstances(cfg, init) + [last];
        assert s[..|s| - 1] == ShownInstances(cfg, init);
      } else {
        assert ShownInstances(cfg, insts) == ShownInstances(cfg, init) + [] == ShownInstances(cfg, init);
        assert InstanceVisits(cfg, insts, t, dm, skip) == InstanceVisits(cfg, init, t, dm, skip) + []
               == InstanceVisits(cfg, init, t, dm, skip);
      }
    }
  }

  /** Every visit is keyed by a component definition reached through shown
      nodes: the first component of each key is a definition name of `e`'s
      tree. */
  lemma {:induction false} VisitKeysAreDefinitions(cfg: Config, e: Entities, name: string, t: Transform,
                                                   dm: string, etype: EntityType, skip: seq<NameMat>)
    ensures forall v :: v in Visits(cfg, e, name, t, dm, etype, skip) ==>
              (etype == ComponentType && v.0.0 == name) || v.0.0 in DefinitionNames(e)
    decreases e, 1
  {
    GroupKeys(cfg, e.groups, t, dm);
    InstanceKeys(cfg, e.instances, t, dm, skip);
    DefinitionNamesSplit(e);
  }

  lemma {:induction false} GroupKeys(cfg: Config, gs: seq<Group>, t: Transform, dm: string)
    ensures forall v :: v in GroupVisits(cfg, gs, t, dm) ==> v.0.0 in GroupDefinitionNames(gs)
    decreases gs, 0
  {
    if gs != [] {
      var init, last := gs[..|gs| - 1], gs[|gs| - 1];
      GroupKeys(cfg, init, t, dm);
      if !OnSkippedLayer(cfg, last.layer) {
        VisitKeysAreDefinitions(cfg, last.entities, "G-" + last.name, Compose(t, last.transform),
                                cfg.inherit(last.material, dm), GroupType, []);
      }
    }
  }

  lemma {:induction false} InstanceKeys(cfg: Config, insts: seq<Instance>, t: Transform, dm: string, skip: seq<NameMat>)
    ensures forall v :: v in InstanceVisits(cfg, insts, t, dm, skip) ==> v.0.0 in InstanceDefinitionNames(insts)
    decreases insts, 0
  {
    if insts != [] {
      var init, last := insts[..|insts| - 1], insts[|insts| - 1];
      InstanceKeys(cfg, init, t, dm, skip);
      var mat := cfg.inherit(last.material, dm);
      if !OnSkippedLayer(cfg, last.layer) && (last.definition.name, mat) !in skip {
        VisitKeysAreDefinitions(cfg, last.definition.entities, last.definition.name,
                                Compose(t, last.transform), mat, ComponentType, []);
      }
    }
  }

  /** The names of the component definitions placed anywhere in `e`. */
  function DefinitionNames(e: Entities): set<string>
    decreases e, 1
  {
    GroupDefinitionNames(e.groups) + InstanceDefinitionNames(e.instances)
  }

  function GroupDefinitionNames(gs: seq<Group>): set<string>
    decreases gs, 0
  {
    if gs == [] then {} else GroupDefinitionNames(gs[..|gs| - 1]) + DefinitionNames(gs[|gs| - 1].entities)
  }

  function InstanceDefinitionNames(insts: seq<Instance>): set<string>
    decreases insts, 0
  {
    if insts == [] then {}
    else
      var d := insts[|insts| - 1].definition;
      InstanceDefinitionNames(insts[..|insts| - 1]) + {d.name} + DefinitionNames(d.entities)
  }

  lemma DefinitionNamesSplit(e: Entities)
    ensures DefinitionNames(e) == GroupDefinitionNames(e.groups) + InstanceDefinitionNames(e.instances)
  {
  }
}
