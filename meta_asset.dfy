/**
 * UCreatureMetaAsset: the metadata document's tables and chain list, rebuilt by
 * BuildMetaData, and CreateBendPhysicsChain, which builds the active chains of
 * one clip into a fresh physics-chain instance.
 */
module MetaAsset {
  import opened Wrappers
  import opened Geometry
  import opened Json
  import opened MetaTables
  import opened PhysicsScene
  import opened PhysicsChain
  import opened ConstraintProfile

  /** The object entries under a top-level field of the document (none when it is absent). */
  function Section(doc: seq<(string, Json)>, name: string): seq<(string, Json)>
  {
    GetObjectField(doc, name)
  }

  /** The tables decoded from a document that parsed. */
  function MetaOf(doc: seq<(string, Json)>): MetaData
  {
    MetaData(
      Tabulate(Section(doc, "meshes"), MeshEntry),
      Tabulate(Section(doc, "regionOrders"), OrderEntry),
      Tabulate(Section(doc, "eventTriggers"), EventsEntry),
      Tabulate(Section(doc, "skinSwapList"), SwapEntry))
  }

  /** A chain CreateBendPhysicsChain builds for `clip`. */
  predicate Builds(c: BendPhysicsChain, clip: string)
  {
    c.animClipName == clip && c.tuning.active
  }

  /** Every bone name is in the bones map. */
  predicate Resolves(names: seq<string>, poses: map<string, Pose>)
  {
    forall j :: 0 <= j < |names| ==> names[j] in poses
  }

  /** The bones the skeleton holds under the given names. */
  function BonesOf(names: seq<string>, poses: map<string, Pose>): (bones: seq<Bone>)
    requires Resolves(names, poses)
    ensures |bones| == |names|
    ensures forall j :: 0 <= j < |names| ==> bones[j].key == names[j]
  {
    seq(|names|, j requires 0 <= j < |names| => Bone(names[j], poses[names[j]].startPt, poses[names[j]].endPt))
  }

  /** What a chain to build needs: bones, all distinct (createPhysicsChain keys bodies by bone). */
  predicate Buildable(names: seq<string>)
  {
    |names| > 0 && forall j, k :: 0 <= j < k < |names| ==> names[j] != names[k]
  }

  /** Every chain among the first n that is built has all its bone names in the bones map. */
  predicate ResolvedUpTo(cs: seq<BendPhysicsChain>, clip: string, poses: map<string, Pose>, n: nat)
    requires n <= |cs|
  {
    n == 0 ||
    (ResolvedUpTo(cs, clip, poses, n - 1) && (Builds(cs[n - 1], clip) ==> Resolves(cs[n - 1].boneNames, poses)))
  }

  lemma {:induction false} ResolvedUpToIff(cs: seq<BendPhysicsChain>, clip: string, poses: map<string, Pose>, n: nat)
    requires n <= |cs|
    ensures ResolvedUpTo(cs, clip, poses, n) <==>
      forall k :: 0 <= k < n && Builds(cs[k], clip) ==> Resolves(cs[k].boneNames, poses)
  {
    if n > 0 {
      ResolvedUpToIff(cs, clip, poses, n - 1);
    }
  }

  /**
   * What CreateBendPhysicsChain needs of the first n chains: each built chain that
   * the loop reaches and that resolves is Buildable (the loop stops at the first
   * chain that does not resolve).
   */
  predicate BuildableWhereReached(cs: seq<BendPhysicsChain>, clip: string, poses: map<string, Pose>, n: nat)
    requires n <= |cs|
  {
    n == 0 ||
    (BuildableWhereReached(cs, clip, poses, n - 1) &&
     (Builds(cs[n - 1], clip) && ResolvedUpTo(cs, clip, poses, n) ==> Buildable(cs[n - 1].boneNames)))
  }

  lemma {:induction false} BuildableAt(cs: seq<BendPhysicsChain>, clip: string, poses: map<string, Pose>, n: nat, i: nat)
    requires i < n <= |cs| && BuildableWhereReached(cs, clip, poses, n)
    requires Builds(cs[i], clip) && ResolvedUpTo(cs, clip, poses, i + 1)
    ensures Buildable(cs[i].boneNames)
  {
    if i < n - 1 {
      BuildableAt(cs, clip, poses, n - 1, i);
    }
  }

  /**
   * The state after the chain loop has built the first n chains from w: each
   * built chain runs createPhysicsChain on its resolved bones with its own
   * stiffness and damping.
   */
  function BuildAll(w: Build, pairKey: (string, string) -> string, xf: Xform, cs: seq<BendPhysicsChain>,
                    clip: string, poses: map<string, Pose>, n: nat): Build
    requires n <= |cs| && ResolvedUpTo(cs, clip, poses, n)
  {
    if n == 0 then w
    else
      var prev := BuildAll(w, pairKey, xf, cs, clip, poses, n - 1);
      var c := cs[n - 1];
      if Builds(c, clip) then
        AddChain(prev, pairKey, xf, BonesOf(c.boneNames, poses), c.tuning.stiffness, c.tuning.damping, clip)
      else prev
  }

  /** The loop only hands out new handles, so every joint stays issued. */
  lemma {:induction false} BuildAllIssued(w: Build, pairKey: (string, string) -> string, xf: Xform,
                                          cs: seq<BendPhysicsChain>, clip: string, poses: map<string, Pose>, n: nat)
    requires n <= |cs| && ResolvedUpTo(cs, clip, poses, n) && JointsIssued(w)
    ensures JointsIssued(BuildAll(w, pairKey, xf, cs, clip, poses, n))
    ensures w.nextHandle <= BuildAll(w, pairKey, xf, cs, clip, poses, n).nextHandle
  {
    if n > 0 {
      BuildAllIssued(w, pairKey, xf, cs, clip, poses, n - 1);
      var prev := BuildAll(w, pairKey, xf, cs, clip, poses, n - 1);
      var c := cs[n - 1];
      if Builds(c, clip) {
        AddChainJoints(prev, pairKey, xf, BonesOf(c.boneNames, poses), c.tuning.stiffness, c.tuning.damping, clip);
      }
    }
  }

  /** Every joint the loop adds carries the profile of some built chain's own stiffness and damping. */
  lemma {:induction false} BuildAllJointsSound(w: Build, pairKey: (string, string) -> string, xf: Xform,
                                               cs: seq<BendPhysicsChain>, clip: string, poses: map<string, Pose>,
                                               n: nat, h: Handle)
    requires n <= |cs| && ResolvedUpTo(cs, clip, poses, n)
    requires h in BuildAll(w, pairKey, xf, cs, clip, poses, n).joints && h !in w.joints
    ensures exists k :: (0 <= k < n && Builds(cs[k], clip) &&
      BuildAll(w, pairKey, xf, cs, clip, poses, n).joints[h].profile ==
        ChainProfile(DefaultInstance, cs[k].tuning.stiffness, cs[k].tuning.damping))
  {
    var prev := BuildAll(w, pairKey, xf, cs, clip, poses, n - 1);
    var c := cs[n - 1];
    if Builds(c, clip) && 2 <= |c.boneNames| {
      var m := |c.boneNames|;
      var profile := ChainProfile(DefaultInstance, c.tuning.stiffness, c.tuning.damping);
      ChainJointsAt(prev.joints, m, prev.nextHandle, prev.nextHandle + m + 1, profile, h);
      if !(prev.nextHandle + m + 1 <= h < prev.nextHandle + 2 * m + 1) {
        BuildAllJointsSound(w, pairKey, xf, cs, clip, poses, n - 1, h);
      }
    } else {
      BuildAllJointsSound(w, pairKey, xf, cs, clip, poses, n - 1, h);
    }
  }

  /** Every built chain with two bones or more leaves a joint carrying its own stiffness and damping. */
  lemma {:induction false} BuildAllJointsComplete(w: Build, pairKey: (string, string) -> string, xf: Xform,
                                                  cs: seq<BendPhysicsChain>, clip: string, poses: map<string, Pose>,
                                                  n: nat, k: nat)
    requires n <= |cs| && ResolvedUpTo(cs, clip, poses, n) && JointsIssued(w)
    requires k < n && Builds(cs[k], clip) && 2 <= |cs[k].boneNames|
    ensures exists h :: (h in BuildAll(w, pairKey, xf, cs, clip, poses, n).joints && h !in w.joints &&
      BuildAll(w, pairKey, xf, cs, clip, poses, n).joints[h].profile ==
        ChainProfile(DefaultInstance, cs[k].tuning.stiffness, cs[k].tuning.damping))
  {
    var prev := BuildAll(w, pairKey, xf, cs, clip, poses, n - 1);
    var c := cs[n - 1];
    BuildAllIssued(w, pairKey, xf, cs, clip, poses, n - 1);
    if Builds(c, clip) {
      AddChainJoints(prev, pairKey, xf, BonesOf(c.boneNames, poses), c.tuning.stiffness, c.tuning.damping, clip);
    }
    if k < n - 1 {
      BuildAllJointsComplete(w, pairKey, xf, cs, clip, poses, n - 1, k);
    } else {
      var h := prev.nextHandle + |c.boneNames| + 1;
      assert h !in w.joints;
    }
  }

  /** kinematic_bones after the loop: the first bone of each chain built, in list order. */
  function KinematicKeys(cs: seq<BendPhysicsChain>, clip: string): seq<string>
  {
    if cs == [] then []
    else
      var c := cs[|cs| - 1];
      KinematicKeys(cs[..|cs| - 1], clip) + (if Builds(c, clip) && |c.boneNames| > 0 then [c.boneNames[0]] else [])
  }

  /** A bone is kinematic exactly when it starts a chain that is built. */
  lemma {:induction false} KinematicKeysIff(cs: seq<BendPhysicsChain>, clip: string, x: string)
    ensures x in KinematicKeys(cs, clip) <==>
      exists i :: 0 <= i < |cs| && Builds(cs[i], clip) && |cs[i].boneNames| > 0 && cs[i].boneNames[0] == x
  {
    if cs != [] {
      var front := cs[..|cs| - 1];
      KinematicKeysIff(front, clip, x);
      if exists i :: 0 <= i < |front| && Builds(front[i], clip) && |front[i].boneNames| > 0 && front[i].boneNames[0] == x {
        var i :| 0 <= i < |front| && Builds(front[i], clip) && |front[i].boneNames| > 0 && front[i].boneNames[0] == x;
        assert cs[i] == front[i];
      }
      if exists i :: 0 <= i < |cs| && Builds(cs[i], clip) && |cs[i].boneNames| > 0 && cs[i].boneNames[0] == x {
        var i :| 0 <= i < |cs| && Builds(cs[i], clip) && |cs[i].boneNames| > 0 && cs[i].boneNames[0] == x;
        if i < |front| {
          assert front[i] == cs[i];
        }
      }
    }
  }

  /** The bones that get bodies: those of every chain built with at least two bones. */
  function BoundKeys(cs: seq<BendPhysicsChain>, clip: string): set<string>
  {
    if cs == [] then {}
    else
      var c := cs[|cs| - 1];
      BoundKeys(cs[..|cs| - 1], clip) + (if Builds(c, clip) && |c.boneNames| >= 2 then Listed(c.boneNames) else {})
  }

  /** Some chain built has at least two bones, so anim_clip_name was set. */
  predicate AnyBound(cs: seq<BendPhysicsChain>, clip: string)
  {
    exists i :: 0 <= i < |cs| && Builds(cs[i], clip) && |cs[i].boneNames| >= 2
  }

  /** Resolving a chain's bones: the bones map lookup of each name, failing on the first missing one. */
  method ResolveBones(names: seq<string>, skel: Skeleton) returns (bones: seq<Bone>, ok: bool)
    ensures ok <==> Resolves(names, skel.poses)
    ensures ok ==> bones == BonesOf(names, skel.poses)
  {
    bones := [];
    for j := 0 to |names|
      invariant Resolves(names[..j], skel.poses)
      invariant bones == BonesOf(names[..j], skel.poses)
    {
      if names[j] !in skel.poses {
        return [], false;
      }
      var pose := skel.poses[names[j]];
      bones := bones + [Bone(names[j], pose.startPt, pose.endPt)];
    }
    assert names[..|names|] == names;
    ok := true;
  }

  /** One more chain of the list: what it adds to the kinematic bones, the bound bones and the clip flag. */
  lemma PrefixStep(cs: seq<BendPhysicsChain>, clip: string, i: nat)
    requires i < |cs|
    ensures KinematicKeys(cs[..i + 1], clip) == KinematicKeys(cs[..i], clip)
      + (if Builds(cs[i], clip) && |cs[i].boneNames| > 0 then [cs[i].boneNames[0]] else [])
    ensures BoundKeys(cs[..i + 1], clip) == BoundKeys(cs[..i], clip)
      + (if Builds(cs[i], clip) && |cs[i].boneNames| >= 2 then Listed(cs[i].boneNames) else {})
    ensures AnyBound(cs[..i + 1], clip) <==> AnyBound(cs[..i], clip) || (Builds(cs[i], clip) && |cs[i].boneNames| >= 2)
  {
    var next := cs[..i + 1];
    assert next[..i] == cs[..i];
    if AnyBound(next, clip) {
      var k :| 0 <= k < i + 1 && Builds(next[k], clip) && |next[k].boneNames| >= 2;
      if k < i {
        assert cs[..i][k] == next[k];
      }
    }
    if AnyBound(cs[..i], clip) {
      var k :| 0 <= k < i && Builds(cs[..i][k], clip) && |cs[..i][k].boneNames| >= 2;
      assert next[k] == cs[..i][k];
    }
  }

  // Each top-level section is read only when the document has it (HasField);
  // an absent section leaves its table empty.

  method ReadMeshes(doc: seq<(string, Json)>) returns (meshes: map<int, (int, int)>)
    requires WellFormed(JObject(doc))
    ensures meshes == Tabulate(Section(doc, "meshes"), MeshEntry)
  {
    meshes := map[];
    if Field(doc, "meshes").Some? {
      meshes := FillTable(GetObjectField(doc, "meshes"), MeshEntry);
    }
  }

  method ReadOrders(doc: seq<(string, Json)>) returns (orders: map<string, map<int, seq<int>>>)
    requires WellFormed(JObject(doc))
    ensures orders == Tabulate(Section(doc, "regionOrders"), OrderEntry)
  {
    orders := map[];
    if Field(doc, "regionOrders").Some? {
      ObjectFieldWellFormed(doc, "regionOrders");
      orders := FillOrders(GetObjectField(doc, "regionOrders"));
    }
  }

  method ReadEventTriggers(doc: seq<(string, Json)>) returns (events: map<string, map<int, string>>, names: seq<string>)
    requires WellFormed(JObject(doc))
    ensures events == Tabulate(Section(doc, "eventTriggers"), EventsEntry)
    ensures Listed(names) == ClipLabels(Section(doc, "eventTriggers"), EventsEntry)
    ensures |names| == ClipEventCount(Section(doc, "eventTriggers"), EventsEntry)
    ensures forall x :: multiset(names)[x] == ClipLabelCount(Section(doc, "eventTriggers"), EventsEntry, x)
  {
    events, names := map[], [];
    if Field(doc, "eventTriggers").Some? {
      ObjectFieldWellFormed(doc, "eventTriggers");
      events, names := FillEventTriggers(GetObjectField(doc, "eventTriggers"));
    }
  }

  method ReadSkinSwaps(doc: seq<(string, Json)>) returns (swaps: map<string, set<string>>, names: seq<string>)
    requires WellFormed(JObject(doc))
    ensures swaps == Tabulate(Section(doc, "skinSwapList"), SwapEntry)
    ensures names == EntryNames(Section(doc, "skinSwapList"))
  {
    swaps, names := map[], [];
    if Field(doc, "skinSwapList").Some? {
      ObjectFieldWellFormed(doc, "skinSwapList");
      swaps, names := FillSkinSwaps(GetObjectField(doc, "skinSwapList"));
    }
  }

  method ReadChains(doc: seq<(string, Json)>, olds: seq<BendPhysicsChain>, untuned: Tuning)
    returns (chains: seq<BendPhysicsChain>)
    requires WellFormed(JObject(doc))
    ensures chains == ChainsOf(Section(doc, "physicsData"), olds, untuned)
  {
    chains := [];
    if Field(doc, "physicsData").Some? {
      ObjectFieldWellFormed(doc, "physicsData");
      chains := FillChains(GetObjectField(doc, "physicsData"), olds, untuned);
    }
  }

  class CreatureMetaAsset {
    var metaData: MetaData
    var eventNames: seq<string>
    var skinSwapNames: seq<string>
    var chains: seq<BendPhysicsChain>
    /** The tuning of a chain the previous list does not know (FBendPhysicsChain's defaults). */
    const untuned: Tuning

    constructor (untuned: Tuning)
      ensures this.untuned == untuned
      ensures metaData == EmptyMetaData && eventNames == [] && skinSwapNames == [] && chains == []
    {
      this.untuned := untuned;
      metaData := EmptyMetaData;
      eventNames := [];
      skinSwapNames := [];
      chains := [];
    }

    /**
     * BuildMetaData over the deserializer's result: the tables are cleared and the
     * chain list emptied first, so a document that does not parse leaves both empty
     * (and keeps the event and skin-swap name lists); a parsed document fills every
     * table and rebuilds the chain list, carrying each (clip, motor)'s tuning over.
     */
    method BuildMetaData(parsed: Option<seq<(string, Json)>>)
      requires parsed.Some? ==> WellFormed(JObject(parsed.value))
      modifies this`metaData, this`eventNames, this`skinSwapNames, this`chains
      ensures parsed.None? ==>
        && metaData == EmptyMetaData && chains == []
        && eventNames == old(eventNames) && skinSwapNames == old(skinSwapNames)
      ensures parsed.Some? ==>
        && metaData == MetaOf(parsed.value)
        && chains == ChainsOf(Section(parsed.value, "physicsData"), old(chains), untuned)
        && Listed(eventNames) == ClipLabels(Section(parsed.value, "eventTriggers"), EventsEntry)
        && |eventNames| == ClipEventCount(Section(parsed.value, "eventTriggers"), EventsEntry)
        && (forall x :: multiset(eventNames)[x] == ClipLabelCount(Section(parsed.value, "eventTriggers"), EventsEntry, x))
        && skinSwapNames == EntryNames(Section(parsed.value, "skinSwapList"))
    {
      metaData := EmptyMetaData;
      var oldChains := chains;
      chains := [];
      if parsed.None? {
        return;
      }
      var doc := parsed.value;
      var meshes := ReadMeshes(doc);
      var orders := ReadOrders(doc);
      var events, names := ReadEventTriggers(doc);
      eventNames := names;
      var swaps, swapNames := ReadSkinSwaps(doc);
      skinSwapNames := swapNames;
      metaData := MetaData(meshes, orders, events, swaps);
      chains := ReadChains(doc, oldChains, untuned);
    }

    /**
     * CreateBendPhysicsChain: a fresh instance into which every active chain of
     * `clip` is built, in list order, each adding its first bone to the kinematic
     * bones. A bone name missing from the bones map gives null; the chains built
     * before it stay in the scene, as the state of building only those chains.
     */
    method CreateBendPhysicsChain(xf: Xform, skel: Skeleton, clip: string, scene: Scene,
                                  pairKey: (string, string) -> string)
      returns (r: PhysicsChain?)
      requires scene.Valid()
      requires BuildableWhereReached(chains, clip, skel.poses, |chains|)
      modifies scene
      ensures scene.Valid() && scene.destroyed == old(scene.destroyed)
      ensures r == null <==>
        exists i :: 0 <= i < |chains| && Builds(chains[i], clip) && !Resolves(chains[i].boneNames, skel.poses)
      ensures r != null ==>
        && fresh(r) && r.Valid(scene) && r.pairKey == pairKey
        && r.kinematicBones == KinematicKeys(chains, clip)
        && r.bodies.Keys == BoundKeys(chains, clip)
        && r.animClipName == (if AnyBound(chains, clip) then clip else "")
      ensures r != null ==>
        && ResolvedUpTo(chains, clip, skel.poses, |chains|)
        && r.Snapshot(scene) == BuildAll(
             Build(map[], map[], "", old(scene.nextHandle), old(scene.position), old(scene.simulating), old(scene.joints)),
             pairKey, xf, chains, clip, skel.poses, |chains|)
      ensures r == null ==>
        exists k :: (
          && 0 <= k < |chains| && ResolvedUpTo(chains, clip, skel.poses, k)
          && Builds(chains[k], clip) && !Resolves(chains[k].boneNames, skel.poses)
          && var b := BuildAll(
               Build(map[], map[], "", old(scene.nextHandle), old(scene.position), old(scene.simulating), old(scene.joints)),
               pairKey, xf, chains, clip, skel.poses, k);
             scene.nextHandle == b.nextHandle && scene.position == b.position
             && scene.simulating == b.simulating && scene.joints == b.joints)
    {
      ghost var init := Build(map[], map[], "", scene.nextHandle, scene.position, scene.simulating, scene.joints);
      var physicsData := new PhysicsChain(pairKey);
      physicsData.ClearPhysicsChain(scene);
      var cs := chains;
      ghost var poses := skel.poses;
      ghost var start := physicsData.Snapshot(scene);
      assert start == init;

      for i := 0 to |cs|
        invariant fresh(physicsData) && physicsData.Valid(scene) && physicsData.pairKey == pairKey
        invariant scene.destroyed == old(scene.destroyed)
        invariant ResolvedUpTo(cs, clip, poses, i)
        invariant physicsData.kinematicBones == KinematicKeys(cs[..i], clip)
        invariant physicsData.bodies.Keys == BoundKeys(cs[..i], clip)
        invariant physicsData.animClipName == (if AnyBound(cs[..i], clip) then clip else "")
        invariant physicsData.Snapshot(scene) == BuildAll(start, pairKey, xf, cs, clip, poses, i)
      {
        var ok := BuildChainAt(physicsData, xf, skel, cs, clip, scene, i, start);
        if !ok {
          ghost var b := BuildAll(init, pairKey, xf, cs, clip, poses, i);
          assert scene.nextHandle == b.nextHandle && scene.position == b.position;
          assert scene.simulating == b.simulating && scene.joints == b.joints;
          return null;
        }
      }
      assert cs[..|cs|] == cs;
      ResolvedUpToIff(cs, clip, poses, |cs|);
      r := physicsData;
    }

    /** Pass i of the chain loop, stated over the chains before and after it. */
    method BuildChainAt(physicsData: PhysicsChain, xf: Xform, skel: Skeleton, cs: seq<BendPhysicsChain>,
                        clip: string, scene: Scene, i: nat, ghost start: Build) returns (ok: bool)
      requires i < |cs| && physicsData.Valid(scene)
      requires BuildableWhereReached(cs, clip, skel.poses, |cs|) && ResolvedUpTo(cs, clip, skel.poses, i)
      requires physicsData.kinematicBones == KinematicKeys(cs[..i], clip)
      requires physicsData.bodies.Keys == BoundKeys(cs[..i], clip)
      requires physicsData.animClipName == (if AnyBound(cs[..i], clip) then clip else "")
      requires physicsData.Snapshot(scene) == BuildAll(start, physicsData.pairKey, xf, cs, clip, skel.poses, i)
      modifies physicsData, scene
      ensures physicsData.Valid(scene) && scene.destroyed == old(scene.destroyed)
      ensures ok <==> ResolvedUpTo(cs, clip, skel.poses, i + 1)
      ensures !ok ==> Builds(cs[i], clip) && !Resolves(cs[i].boneNames, skel.poses)
      ensures ok ==>
        && physicsData.kinematicBones == KinematicKeys(cs[..i + 1], clip)
        && physicsData.bodies.Keys == BoundKeys(cs[..i + 1], clip)
        && physicsData.animClipName == (if AnyBound(cs[..i + 1], clip) then clip else "")
      ensures !ok ==> unchanged(physicsData) && unchanged(scene)
      ensures ok ==> physicsData.Snapshot(scene) == BuildAll(start, physicsData.pairKey, xf, cs, clip, skel.poses, i + 1)
    {
      PrefixStep(cs, clip, i);
      if Builds(cs[i], clip) && Resolves(cs[i].boneNames, skel.poses) {
        BuildableAt(cs, clip, skel.poses, |cs|, i);
      }
      ok := BuildSelected(physicsData, xf, skel, cs[i], clip, scene);
    }

    /**
     * One pass of the chain loop: a chain that is not built changes nothing; one that
     * is built has its bones resolved (false on a missing name), createPhysicsChain
     * run on them and its first bone made kinematic.
     */
    method BuildSelected(physicsData: PhysicsChain, xf: Xform, skel: Skeleton, chainData: BendPhysicsChain,
                         clip: string, scene: Scene) returns (ok: bool)
      requires physicsData.Valid(scene)
      requires Builds(chainData, clip) && Resolves(chainData.boneNames, skel.poses) ==> Buildable(chainData.boneNames)
      modifies physicsData, scene
      ensures physicsData.Valid(scene) && scene.destroyed == old(scene.destroyed)
      ensures ok <==> !Builds(chainData, clip) || Resolves(chainData.boneNames, skel.poses)
      ensures ok ==>
        && physicsData.kinematicBones == old(physicsData.kinematicBones)
             + (if Builds(chainData, clip) && |chainData.boneNames| > 0 then [chainData.boneNames[0]] else [])
        && physicsData.bodies.Keys == old(physicsData.bodies.Keys)
             + (if Builds(chainData, clip) && |chainData.boneNames| >= 2 then Listed(chainData.boneNames) else {})
        && physicsData.animClipName ==
             (if Builds(chainData, clip) && |chainData.boneNames| >= 2 then clip else old(physicsData.animClipName))
      ensures !ok || !Builds(chainData, clip) ==> unchanged(physicsData) && unchanged(scene)
      ensures ok && Builds(chainData, clip) ==>
        physicsData.Snapshot(scene) == AddChain(old(physicsData.Snapshot(scene)), physicsData.pairKey, xf,
          BonesOf(chainData.boneNames, skel.poses), chainData.tuning.stiffness, chainData.tuning.damping, clip)
    {
      if !Builds(chainData, clip) {
        return true;
      }
      var chainBones;
      chainBones, ok := ResolveBones(chainData.boneNames, skel);
      if !ok {
        return;
      }
      ghost var before := physicsData.bodies;
      ghost var w := physicsData.Snapshot(scene);
      ghost var first := physicsData.CreatePhysicsChain(xf, chainBones, chainData.tuning.stiffness,
                                                        chainData.tuning.damping, clip, scene);
      AddChainFields(w, physicsData.Snapshot(scene), physicsData.pairKey, xf, chainBones,
                     chainData.tuning.stiffness, chainData.tuning.damping, clip);
      if |chainBones| >= 2 {
        BindingsKeySet(before, chainBones, first);
        assert (set j | 0 <= j < |chainBones| :: chainBones[j].key) == Listed(chainData.boneNames);
      }
      physicsData.kinematicBones := physicsData.kinematicBones + [chainBones[0].key];
    }
  }
}
