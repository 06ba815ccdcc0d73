/** The deduplication decision: which analysed (definition, material) pairs
    are written once as a shared group, swept level by level over the
    component depths, and the bookkeeping this leaves behind. */
module Dedup {
  import opened Common
  import opened Scene
  import opened Multimap

  /** The group a promoted pair is duplicated from: a same-named group
      already in the file, or one created for it. */
  datatype GroupRef = Reused(name: string) | Created(name: string)

  /** The session's deduplication state: the pairs whose placements are
      skipped by the write pass, the group written for each, and the names
      of the groups (collections) present in the file. */
  datatype Books = Books(skip: set<NameMat>, written: map<NameMat, GroupRef>, collections: set<string>)

  /** The keys, in order, whose placement count reaches `maxInstance`. */
  function Eligible(order: seq<NameMat>, stats: Multi<NameMat, Transform>, maxInstance: int): seq<NameMat> {
    if order == [] then []
    else
      var k := order[|order| - 1];
      Eligible(order[..|order| - 1], stats, maxInstance) + (if |Get(stats, k)| >= maxInstance then [k] else [])
  }

  /** The pairs of `keys` whose definition has depth `i`, except depth 1,
      which is never promoted. */
  function Level(keys: seq<NameMat>, depths: map<string, nat>, i: nat): seq<NameMat>
    requires forall j :: 0 <= j < |keys| ==> keys[j].0 in depths
  {
    if keys == [] then []
    else
      var k := keys[|keys| - 1];
      Level(keys[..|keys| - 1], depths, i) + (if depths[k.0] != 1 && depths[k.0] == i then [k] else [])
  }

  /** The promotions of levels `0 .. n-1`, in the order they are made. */
  function Sweep(keys: seq<NameMat>, depths: map<string, nat>, n: nat): seq<NameMat>
    requires forall j :: 0 <= j < |keys| ==> keys[j].0 in depths
  {
    if n == 0 then [] else Sweep(keys, depths, n - 1) + Level(keys, depths, n - 1)
  }

  /** The bookkeeping of `component_def_as_group` for an outermost call:
      a pair already skipped is left alone, any other is added. */
  function MarkAsGroup(skip: set<NameMat>, k: NameMat): set<NameMat> {
    if k in skip then skip else skip + {k}
  }

  /** Promoting one pair: reuse the same-named group when allowed and
      present, otherwise create it and write the definition into it.
      Either way the pair is skipped afterwards, its group is recorded
      under the group-name rule's name, that group is in the file, and no
      other pair's group changes. */
  function Promote(cfg: Config, b: Books, k: NameMat): (r: Books)
    ensures r.skip == b.skip + {k}
    ensures k in r.written && r.written == b.written[k := r.written[k]]
    ensures r.written[k].name == cfg.groupName(k.0, k.1)
    ensures r.written[k].Reused? <==> cfg.reuseGroup && cfg.groupName(k.0, k.1) in b.collections
    ensures r.collections == b.collections + {cfg.groupName(k.0, k.1)}
  {
    var gname := cfg.groupName(k.0, k.1);
    if cfg.reuseGroup && gname in b.collections then
      Books(b.skip + {k}, b.written[k := Reused(gname)], b.collections)
    else
      Books(MarkAsGroup(b.skip, k) + {k}, b.written[k := Created(gname)], b.collections + {gname})
  }

  function PromoteAll(cfg: Config, b: Books, ks: seq<NameMat>): Books {
    if ks == [] then b else Promote(cfg, PromoteAll(cfg, b, ks[..|ks| - 1]), ks[|ks| - 1])
  }

  // ---------------------------------------------------------------------
  // Which pairs are promoted, and when

  /** A pair is eligible exactly when it was analysed and its placement
      count reaches the threshold; eligibility keeps the analysis order. */
  lemma {:induction false} EligibleIff(order: seq<NameMat>, stats: Multi<NameMat, Transform>, maxInstance: int)
    ensures forall k :: k in Eligible(order, stats, maxInstance) <==> k in order && |Get(stats, k)| >= maxInstance
    ensures Distinct(order) ==> Distinct(Eligible(order, stats, maxInstance))
    decreases |order|
  {
    if order != [] {
      var init := order[..|order| - 1];
      EligibleIff(init, stats, maxInstance);
      assert order == init + [order[|order| - 1]];
    }
  }

  /** Level `i` holds exactly the keys of depth `i`, and none of depth 1. */
  lemma {:induction false} LevelIff(keys: seq<NameMat>, depths: map<string, nat>, i: nat)
    requires forall j :: 0 <= j < |keys| ==> keys[j].0 in depths
    ensures forall k :: k in Level(keys, depths, i) <==> k in keys && depths[k.0] == i && i != 1
    ensures Distinct(keys) ==> Distinct(Level(keys, depths, i))
    decreases |keys|
  {
    if keys != [] {
      var init := keys[..|keys| - 1];
      LevelIff(init, depths, i);
      assert keys == init + [keys[|keys| - 1]];
    }
  }

  /** The sweep over `n` levels promotes exactly the keys whose depth is
      below `n` and is not 1, each at the level equal to its depth. */
  lemma {:induction false} SweepIff(keys: seq<NameMat>, depths: map<string, nat>, n: nat)
    requires forall j :: 0 <= j < |keys| ==> keys[j].0 in depths
    ensures forall k :: k in Sweep(keys, depths, n) <==> k in keys && depths[k.0] < n && depths[k.0] != 1
    decreases n
  {
    if n > 0 {
      var a, b := Sweep(keys, depths, n - 1), Level(keys, depths, n - 1);
      SweepIff(keys, depths, n - 1);
      LevelIff(keys, depths, n - 1);
      forall k ensures k in a + b <==> k in keys && depths[k.0] < n && depths[k.0] != 1 {
        assert k in a + b <==> k in a || k in b;
      }
    }
  }

  /** A sweep over every level up to the largest depth promotes exactly the
      keys whose depth is not 1. */
  lemma SweepAll(keys: seq<NameMat>, depths: map<string, nat>, maxDepth: nat)
    requires forall j :: 0 <= j < |keys| ==> keys[j].0 in depths
    requires forall n :: n in depths ==> depths[n] <= maxDepth
    ensures forall k :: k in Sweep(keys, depths, maxDepth + 1) <==> k in keys && depths[k.0] != 1
  {
    SweepIff(keys, depths, maxDepth + 1);
  }

  /** No pair is promoted twice: the levels are disjoint and each is
      duplicate-free. */
  lemma {:induction false} SweepDistinct(keys: seq<NameMat>, depths: map<string, nat>, n: nat)
    requires forall j :: 0 <= j < |keys| ==> keys[j].0 in depths
    requires Distinct(keys)
    ensures Distinct(Sweep(keys, depths, n))
    decreases n
  {
    if n > 0 {
      var a, b := Sweep(keys, depths, n - 1), Level(keys, depths, n - 1);
      SweepDistinct(keys, depths, n - 1);
      SweepIff(keys, depths, n - 1);
      LevelIff(keys, depths, n - 1);
      forall x, y | 0 <= x < y < |a + b| ensures (a + b)[x] != (a + b)[y] {
        if y < |a| {
        } else if x >= |a| {
          assert (a + b)[x] == b[x - |a|] && (a + b)[y] == b[y - |a|];
        } else {
          assert (a + b)[x] == a[x] && (a + b)[y] == b[y - |a|];
          assert a[x] in a && b[y - |a|] in b;
        }
      }
    }
  }

  /** `max(depths.values(), default=0)`, specified: an upper bound of every
      depth that is itself a depth, or 0 for an empty table. */
  predicate IsMaxDepth(depths: map<string, nat>, r: nat) {
    && (forall n :: n in depths ==> depths[n] <= r)
    && (depths == map[] ==> r == 0)
    && (depths != map[] ==> exists n :: n in depths && depths[n] == r)
  }

  // ---------------------------------------------------------------------
  // What the promotions leave behind

  /** Promoting a batch of pairs adds each of them to the skip set and
      keeps the groups already present. */
  lemma {:induction false} PromoteAllSkip(cfg: Config, b: Books, ks: seq<NameMat>)
    ensures PromoteAll(cfg, b, ks).skip == b.skip + set k | k in ks
    ensures b.collections <= PromoteAll(cfg, b, ks).collections
    decreases |ks|
  {
    if ks != [] {
      var init := ks[..|ks| - 1];
      PromoteAllSkip(cfg, b, init);
      assert ks == init + [ks[|ks| - 1]];
    }
  }

  /** Promoting a batch of pairs records a group for each of them and
      leaves every other pair's group alone. */
  lemma {:induction false} PromoteAllWritten(cfg: Config, b: Books, ks: seq<NameMat>)
    ensures PromoteAll(cfg, b, ks).written.Keys == b.written.Keys + set k | k in ks
    ensures forall k :: k in b.written && k !in ks ==> PromoteAll(cfg, b, ks).written[k] == b.written[k]
    decreases |ks|
  {
    if ks != [] {
      var init := ks[..|ks| - 1];
      PromoteAllWritten(cfg, b, init);
      assert ks == init + [ks[|ks| - 1]];
    }
  }

  /** Each promoted pair's group carries the group-name rule's name, and is
      created, never reused, when reuse is disabled. */
  lemma {:induction false} PromoteAllNames(cfg: Config, b: Books, ks: seq<NameMat>)
    ensures forall k :: k in ks ==> k in PromoteAll(cfg, b, ks).written
    ensures forall k :: k in ks ==> PromoteAll(cfg, b, ks).written[k].name == cfg.groupName(k.0, k.1)
    ensures !cfg.reuseGroup ==> forall k :: k in ks ==> PromoteAll(cfg, b, ks).written[k].Created?
    decreases |ks|
  {
    if ks != [] {
      var init := ks[..|ks| - 1];
      PromoteAllNames(cfg, b, init);
      assert ks == init + [ks[|ks| - 1]];
    }
  }

  /** A reused group is one that was already present when its pair was
      promoted; every created group is present afterwards. */
  lemma {:induction false} PromoteAllCollections(cfg: Config, b: Books, ks: seq<NameMat>)
    ensures forall k :: k in ks && k in PromoteAll(cfg, b, ks).written ==>
              PromoteAll(cfg, b, ks).written[k].name in PromoteAll(cfg, b, ks).collections
    ensures forall k :: k in ks && k in PromoteAll(cfg, b, ks).written && PromoteAll(cfg, b, ks).written[k].Reused? ==>
              cfg.reuseGroup
    decreases |ks|
  {
    if ks != [] {
      var init := ks[..|ks| - 1];
      PromoteAllCollections(cfg, b, init);
      PromoteAllNames(cfg, b, init);
      PromoteAllSkip(cfg, b, init);
      assert ks == init + [ks[|ks| - 1]];
    }
  }
}
