/**
 * CreaturePhysicsData: the rigid bodies and constraints approximating one or
 * more bone chains, the kinematic drive of the anchor bones and the read-back
 * of simulated body positions into the bones.
 */
module PhysicsChain {
  import opened Wrappers
  import opened Geometry
  import opened ConstraintProfile
  import opened PhysicsScene

  /** A bone handed to the builder: its key and its world start and end points. */
  datatype Bone = Bone(key: string, startPt: Vec3, endPt: Vec3)

  /** The world start and end points of a bone, as the animation system holds them. */
  datatype Pose = Pose(startPt: Vec3, endPt: Vec3)

  /** The bones of the bone composition, keyed by bone key; read-back writes into them. */
  class Skeleton {
    var poses: map<string, Pose>

    constructor (poses: map<string, Pose>)
      ensures this.poses == poses
    {
      this.poses := poses;
    }
  }

  /**
   * The per-bone bend basis recorded at build time. The source reduces these
   * three points to a 2D (u, v) pair with float geometry that read-back never
   * uses, so the model keeps the points it is computed from.
   */
  datatype Basis = ZeroBasis | BendBasis(curEnd: Vec3, nextStart: Vec3, nextEnd: Vec3)

  /** boxAndBone: the bone's body, the tip body of a last bone, the next bone's key and the basis. */
  datatype BodyBinding = BodyBinding(box: Handle, endBox: Option<Handle>, nextBone: Option<string>, basis: Basis)

  predicate DistinctKeys(bones: seq<Bone>)
  {
    forall i, j :: 0 <= i < j < |bones| ==> bones[i].key != bones[j].key
  }

  /** Every next-bone link of a binding names a bound bone. */
  ghost predicate Linked(bodies: map<string, BodyBinding>)
  {
    forall k :: k in bodies && bodies[k].nextBone.Some? ==> bodies[k].nextBone.value in bodies
  }

  /** Every body of a binding has a position in the scene. */
  ghost predicate Placed(bodies: map<string, BodyBinding>, position: map<Handle, Vec3>)
  {
    forall k :: k in bodies ==>
      && bodies[k].box in position
      && (bodies[k].endBox.Some? ==> bodies[k].endBox.value in position)
  }

  /** No two bones share a body. */
  ghost predicate BoxesDistinct(bodies: map<string, BodyBinding>)
  {
    forall k1, k2 :: k1 in bodies && k2 in bodies && k1 != k2 ==> bodies[k1].box != bodies[k2].box
  }

  // ---------------------------------------------------------------------------
  // Build: bindings and constraint lists

  /**
   * The binding createPhysicsChain records for bone i when the chain's bodies are
   * handed out from h0: bone i's body is h0 + i and the last bone's tip is h0 + |bones|.
   */
  function BindingAt(bones: seq<Bone>, i: nat, h0: Handle): BodyBinding
    requires i < |bones|
  {
    if i == |bones| - 1 then
      BodyBinding(h0 + i, Some(h0 + |bones|), None, ZeroBasis)
    else
      BodyBinding(h0 + i, None, Some(bones[i + 1].key),
                  BendBasis(bones[i].endPt, bones[i + 1].startPt, bones[i + 1].endPt))
  }

  /** The bindings after binding the first n bones, in order, over `bodies`. */
  function Bindings(bodies: map<string, BodyBinding>, bones: seq<Bone>, n: nat, h0: Handle): map<string, BodyBinding>
    requires n <= |bones|
  {
    if n == 0 then bodies
    else Bindings(bodies, bones, n - 1, h0)[bones[n - 1].key := BindingAt(bones, n - 1, h0)]
  }

  /** Binding adds the keys of the first n bones and keeps every other binding. */
  lemma {:induction false} BindingsKeys(bodies: map<string, BodyBinding>, bones: seq<Bone>, n: nat, h0: Handle, k: string)
    requires n <= |bones|
    ensures k in Bindings(bodies, bones, n, h0) <==> k in bodies || exists j :: 0 <= j < n && bones[j].key == k
    ensures k in bodies && (forall j :: 0 <= j < n ==> bones[j].key != k) ==> Bindings(bodies, bones, n, h0)[k] == bodies[k]
  {
    if n > 0 {
      BindingsKeys(bodies, bones, n - 1, h0, k);
    }
  }

  /** Binding a whole chain adds exactly its bone keys. */
  lemma BindingsKeySet(bodies: map<string, BodyBinding>, bones: seq<Bone>, h0: Handle)
    ensures Bindings(bodies, bones, |bones|, h0).Keys == bodies.Keys + set j | 0 <= j < |bones| :: bones[j].key
  {
    forall k | k in Bindings(bodies, bones, |bones|, h0)
      ensures k in bodies.Keys + set j | 0 <= j < |bones| :: bones[j].key
    {
      BindingsKeys(bodies, bones, |bones|, h0, k);
    }
    forall k | k in bodies.Keys + set j | 0 <= j < |bones| :: bones[j].key
      ensures k in Bindings(bodies, bones, |bones|, h0)
    {
      BindingsKeys(bodies, bones, |bones|, h0, k);
    }
  }

  /** Bone i's binding is BindingAt, whatever was bound under its key before. */
  lemma {:induction false} BindingsAt(bodies: map<string, BodyBinding>, bones: seq<Bone>, n: nat, h0: Handle, i: nat)
    requires DistinctKeys(bones) && i < n <= |bones|
    ensures bones[i].key in Bindings(bodies, bones, n, h0)
    ensures Bindings(bodies, bones, n, h0)[bones[i].key] == BindingAt(bones, i, h0)
  {
    if i < n - 1 {
      BindingsAt(bodies, bones, n - 1, h0, i);
    }
  }

  /** With distinct keys none of which is bound yet, a chain of n bones adds exactly n bindings. */
  lemma {:induction false} BindingsSize(bodies: map<string, BodyBinding>, bones: seq<Bone>, n: nat, h0: Handle)
    requires DistinctKeys(bones) && n <= |bones|
    requires forall j :: 0 <= j < n ==> bones[j].key !in bodies
    ensures |Bindings(bodies, bones, n, h0)| == |bodies| + n
  {
    if n > 0 {
      BindingsSize(bodies, bones, n - 1, h0);
      BindingsKeys(bodies, bones, n - 1, h0, bones[n - 1].key);
      assert bones[n - 1].key !in Bindings(bodies, bones, n - 1, h0);
    }
  }

  /**
   * The chain's shape: bone i is bound to body h0 + i and links to bone i + 1;
   * the last bone has no next bone and is the only one owning a tip body, h0 + |bones|.
   */
  lemma ChainShape(bodies: map<string, BodyBinding>, bones: seq<Bone>, h0: Handle, i: nat)
    requires DistinctKeys(bones) && 2 <= |bones| && i < |bones|
    ensures bones[i].key in Bindings(bodies, bones, |bones|, h0)
    ensures var b := Bindings(bodies, bones, |bones|, h0)[bones[i].key];
      && b.box == h0 + i
      && b.nextBone == (if i < |bones| - 1 then Some(bones[i + 1].key) else None)
      && (b.endBox.Some? <==> i == |bones| - 1)
      && (i == |bones| - 1 ==> b.endBox == Some(h0 + |bones|))
  {
    BindingsAt(bodies, bones, |bones|, h0, i);
  }

  /** The point body m of a chain is placed at: bone m's start point, or for the tip the last bone's end point. */
  function BodyPoint(bones: seq<Bone>, m: nat): Vec3
    requires 0 < |bones| && m <= |bones|
  {
    if m < |bones| then bones[m].startPt else bones[|bones| - 1].endPt
  }

  /** The positions after placing the first n bodies of a chain whose bodies are handed out from h0. */
  function Placements(position: map<Handle, Vec3>, xf: Xform, bones: seq<Bone>, n: nat, h0: Handle): map<Handle, Vec3>
    requires 0 < |bones| && n <= |bones| + 1
  {
    if n == 0 then position
    else Placements(position, xf, bones, n - 1, h0)[h0 + n - 1 := ToPhysics(xf, BodyPoint(bones, n - 1))]
  }

  /** One more body: Placements unfolded once, with the new entry written out. */
  lemma PlacementsStep(position: map<Handle, Vec3>, xf: Xform, bones: seq<Bone>, n: nat, h0: Handle)
    requires 0 < |bones| && n <= |bones|
    ensures Placements(position, xf, bones, n + 1, h0)
         == Placements(position, xf, bones, n, h0)
              [h0 + n := ToPhysics(xf, if n < |bones| then bones[n].startPt else bones[|bones| - 1].endPt)]
  {
  }

  /** Body h0 + m, m < n, sits at the physics image of its point; every other handle keeps its entry. */
  lemma {:induction false} PlacementsAt(position: map<Handle, Vec3>, xf: Xform, bones: seq<Bone>, n: nat, h0: Handle, h: Handle)
    requires 0 < |bones| && n <= |bones| + 1
    ensures h in Placements(position, xf, bones, n, h0) <==> h in position || h0 <= h < h0 + n
    ensures h0 <= h < h0 + n ==> Placements(position, xf, bones, n, h0)[h] == ToPhysics(xf, BodyPoint(bones, h - h0))
    ensures h in position && !(h0 <= h < h0 + n) ==> Placements(position, xf, bones, n, h0)[h] == position[h]
  {
    if n > 0 {
      PlacementsAt(position, xf, bones, n - 1, h0, h);
    }
  }

  /** The joints after adding n chain constraints from hc: constraint hc + j couples body b0 + j and body b0 + j + 1. */
  function ChainJoints(joints: map<Handle, Joint>, n: nat, b0: Handle, hc: Handle, profile: ConstraintInstance): map<Handle, Joint>
  {
    if n == 0 then joints
    else ChainJoints(joints, n - 1, b0, hc, profile)[hc + n - 1 := Joint(b0 + n - 1, b0 + n, profile)]
  }

  /** One more chain constraint: ChainJoints unfolded once, with the new entry written out. */
  lemma ChainJointsStep(joints: map<Handle, Joint>, n: nat, b0: Handle, hc: Handle, profile: ConstraintInstance)
    ensures ChainJoints(joints, n + 1, b0, hc, profile)
         == ChainJoints(joints, n, b0, hc, profile)[hc + n := Joint(b0 + n, b0 + n + 1, profile)]
  {
  }

  lemma {:induction false} ChainJointsAt(joints: map<Handle, Joint>, n: nat, b0: Handle, hc: Handle,
                                         profile: ConstraintInstance, h: Handle)
    ensures h in ChainJoints(joints, n, b0, hc, profile) <==> h in joints || hc <= h < hc + n
    ensures hc <= h < hc + n ==>
      ChainJoints(joints, n, b0, hc, profile)[h] == Joint(b0 + (h - hc), b0 + (h - hc) + 1, profile)
    ensures h in joints && !(hc <= h < hc + n) ==> ChainJoints(joints, n, b0, hc, profile)[h] == joints[h]
  {
    if n > 0 {
      ChainJointsAt(joints, n - 1, b0, hc, profile, h);
    }
  }

  /** The handles h with lo <= h < hi. */
  function HandleRange(lo: Handle, hi: Handle): set<Handle>
    decreases hi - lo
  {
    if hi <= lo then {} else HandleRange(lo, hi - 1) + {hi - 1}
  }

  lemma {:induction false} HandleRangeIff(lo: Handle, hi: Handle, h: Handle)
    decreases hi - lo
    ensures h in HandleRange(lo, hi) <==> lo <= h < hi
  {
    if lo < hi {
      HandleRangeIff(lo, hi - 1, h);
    }
  }

  /** The constraint list stored under a key, or the empty list if there is none. */
  function Lookup(cs: map<string, seq<Handle>>, k: string): seq<Handle>
  {
    if k in cs then cs[k] else []
  }

  /** Adds a list under k if absent, then appends h to it (getConstraint / constraints.Add / Add). */
  function AppendConstraint(cs: map<string, seq<Handle>>, k: string, h: Handle): map<string, seq<Handle>>
  {
    cs[k := Lookup(cs, k) + [h]]
  }

  /** getConstraintsKey of pair j: bone j and bone j + 1. */
  function PairKey(pairKey: (string, string) -> string, bones: seq<Bone>, j: nat): string
    requires j + 1 < |bones|
  {
    pairKey(bones[j].key, bones[j + 1].key)
  }

  /** The constraint lists after appending handle hc + j under pair j's key, for each j < n in order. */
  function Links(cs: map<string, seq<Handle>>, pairKey: (string, string) -> string, bones: seq<Bone>,
                 n: nat, hc: Handle): map<string, seq<Handle>>
    requires n < |bones| || n == 0
  {
    if n == 0 then cs
    else AppendConstraint(Links(cs, pairKey, bones, n - 1, hc), PairKey(pairKey, bones, n - 1), hc + n - 1)
  }

  /** One more pair: Links unfolded once, with the new handle written out. */
  lemma LinksStep(cs: map<string, seq<Handle>>, pairKey: (string, string) -> string, bones: seq<Bone>, n: nat, hc: Handle)
    requires n + 1 < |bones|
    ensures Links(cs, pairKey, bones, n + 1, hc) == AppendConstraint(Links(cs, pairKey, bones, n, hc), PairKey(pairKey, bones, n), hc + n)
  {
  }

  /** The handles hc + j, j < n, of the pairs keyed k, in order. */
  function Under(pairKey: (string, string) -> string, bones: seq<Bone>, n: nat, k: string, hc: Handle): seq<Handle>
    requires n < |bones| || n == 0
  {
    if n == 0 then []
    else Under(pairKey, bones, n - 1, k, hc) + (if PairKey(pairKey, bones, n - 1) == k then [hc + n - 1] else [])
  }

  /** Linking keeps every existing list and adds a list for each pair key. */
  lemma {:induction false} LinksKeys(cs: map<string, seq<Handle>>, pairKey: (string, string) -> string,
                                     bones: seq<Bone>, n: nat, hc: Handle, k: string)
    requires n < |bones| || n == 0
    ensures k in Links(cs, pairKey, bones, n, hc) <==> k in cs || exists j :: 0 <= j < n && PairKey(pairKey, bones, j) == k
  {
    if n > 0 {
      LinksKeys(cs, pairKey, bones, n - 1, hc, k);
      if k in cs || PairKey(pairKey, bones, n - 1) == k {
      } else if exists j :: 0 <= j < n && PairKey(pairKey, bones, j) == k {
        var j :| 0 <= j < n && PairKey(pairKey, bones, j) == k;
        assert j < n - 1;
      }
    }
  }

  /**
   * Linking only appends: the list under k is the old one (or a new empty one)
   * followed by the handles of the pairs keyed k.
   */
  lemma {:induction false} LinksAt(cs: map<string, seq<Handle>>, pairKey: (string, string) -> string,
                                   bones: seq<Bone>, n: nat, hc: Handle, k: string)
    requires n < |bones| || n == 0
    ensures Lookup(Links(cs, pairKey, bones, n, hc), k) == Lookup(cs, k) + Under(pairKey, bones, n, k, hc)
  {
    if n > 0 {
      LinksAt(cs, pairKey, bones, n - 1, hc, k);
      var prev := Links(cs, pairKey, bones, n - 1, hc);
      var key := PairKey(pairKey, bones, n - 1);
      var before := Under(pairKey, bones, n - 1, k, hc);
      assert Links(cs, pairKey, bones, n, hc) == prev[key := Lookup(prev, key) + [hc + n - 1]];
      if key == k {
        assert Under(pairKey, bones, n, k, hc) == before + [hc + n - 1];
        assert Lookup(cs, k) + before + [hc + n - 1] == Lookup(cs, k) + (before + [hc + n - 1]);
      } else {
        assert Under(pairKey, bones, n, k, hc) == before;
      }
    }
  }

  /** When the pair keys are distinct, pair j contributes exactly one handle, hc + j, to its list. */
  lemma {:induction false} UnderDistinct(pairKey: (string, string) -> string, bones: seq<Bone>, n: nat, hc: Handle, j: nat)
    requires j < n < |bones|
    requires forall a, b :: 0 <= a < b < n ==> PairKey(pairKey, bones, a) != PairKey(pairKey, bones, b)
    ensures Under(pairKey, bones, n, PairKey(pairKey, bones, j), hc) == [hc + j]
  {
    if j < n - 1 {
      UnderDistinct(pairKey, bones, n - 1, hc, j);
    } else {
      UnderAbsent(pairKey, bones, n - 1, PairKey(pairKey, bones, j), hc);
    }
  }

  /** A key no pair below n has collects no handle. */
  lemma {:induction false} UnderAbsent(pairKey: (string, string) -> string, bones: seq<Bone>, n: nat, k: string, hc: Handle)
    requires n < |bones| || n == 0
    requires forall j :: 0 <= j < n ==> PairKey(pairKey, bones, j) != k
    ensures Under(pairKey, bones, n, k, hc) == []
  {
    if n > 0 {
      UnderAbsent(pairKey, bones, n - 1, k, hc);
    }
  }

  // ---------------------------------------------------------------------------
  // Teardown

  /** The constraint handles stored under the keys in ks. */
  function HandlesUnderKeys(cs: map<string, seq<Handle>>, ks: set<string>): set<Handle>
  {
    set k, h | k in ks && k in cs && h in cs[k] :: h
  }

  /** Every constraint handle of the instance. */
  function ConstraintHandles(cs: map<string, seq<Handle>>): set<Handle>
  {
    HandlesUnderKeys(cs, cs.Keys)
  }

  /** The bodies and tip bodies of the bindings of the keys in ks. */
  function BodiesOfKeys(bodies: map<string, BodyBinding>, ks: set<string>): set<Handle>
  {
    (set k | k in ks && k in bodies :: bodies[k].box)
    + (set k | k in ks && k in bodies && bodies[k].endBox.Some? :: bodies[k].endBox.value)
  }

  /** Every body and tip body of the instance. */
  function BodyHandles(bodies: map<string, BodyBinding>): set<Handle>
  {
    BodiesOfKeys(bodies, bodies.Keys)
  }

  /** The handles in a list, as a set. */
  function Elements(hs: seq<Handle>): set<Handle>
  {
    set h | h in hs
  }

  lemma HandlesUnderKeysAdd(cs: map<string, seq<Handle>>, ks: set<string>, k: string)
    requires k in cs
    ensures HandlesUnderKeys(cs, ks + {k}) == HandlesUnderKeys(cs, ks) + Elements(cs[k])
  {
  }

  /** The bodies of one more binding. */
  lemma BodiesOfKeysAdd(bodies: map<string, BodyBinding>, ks: set<string>, k: string)
    requires k in bodies
    ensures BodiesOfKeys(bodies, ks + {k}) ==
      BodiesOfKeys(bodies, ks) + {bodies[k].box} + (if bodies[k].endBox.Some? then {bodies[k].endBox.value} else {})
  {
  }

  /** The handles collected under k are those hc + j of the pairs j keyed k. */
  lemma {:induction false} UnderHas(pairKey: (string, string) -> string, bones: seq<Bone>, n: nat, k: string,
                                    hc: Handle, h: Handle)
    requires n < |bones| || n == 0
    ensures h in Under(pairKey, bones, n, k, hc) <==> exists j :: 0 <= j < n && PairKey(pairKey, bones, j) == k && h == hc + j
  {
    if n > 0 {
      UnderHas(pairKey, bones, n - 1, k, hc, h);
    }
  }

  /**
   * The constraint lists of a chain linked into an empty instance: pair j's
   * constraint hc + j under the pair's key, then the tip constraint alone under
   * the last bone's self-pair key.
   */
  function ChainLinks(pairKey: (string, string) -> string, bones: seq<Bone>, hc: Handle, tip: Handle)
    : map<string, seq<Handle>>
    requires 2 <= |bones|
  {
    Links(map[], pairKey, bones, |bones| - 1, hc)[pairKey(bones[|bones| - 1].key, bones[|bones| - 1].key) := [tip]]
  }

  /** The self-pair key of the last bone is not the key of a bone pair (otherwise that pair's list is dropped). */
  predicate SelfKeyApart(pairKey: (string, string) -> string, bones: seq<Bone>)
    requires 2 <= |bones|
  {
    forall j :: 0 <= j < |bones| - 1 ==>
      PairKey(pairKey, bones, j) != pairKey(bones[|bones| - 1].key, bones[|bones| - 1].key)
  }

  /** Every constraint stored is one of the chain's, hc .. tip. */
  lemma ChainLinksSound(pairKey: (string, string) -> string, bones: seq<Bone>, hc: Handle, tip: Handle, h: Handle)
    requires 2 <= |bones| && tip == hc + |bones| - 1
    requires h in ConstraintHandles(ChainLinks(pairKey, bones, hc, tip))
    ensures hc <= h <= tip
  {
    var n := |bones|;
    var cs := ChainLinks(pairKey, bones, hc, tip);
    var k :| k in cs && h in cs[k];
    if k != pairKey(bones[n - 1].key, bones[n - 1].key) {
      LinksAt(map[], pairKey, bones, n - 1, hc, k);
      UnderHas(pairKey, bones, n - 1, k, hc, h);
    }
  }

  /** Every constraint of the chain, hc .. tip, is stored, when the self-pair key is apart. */
  lemma ChainLinksComplete(pairKey: (string, string) -> string, bones: seq<Bone>, hc: Handle, tip: Handle, h: Handle)
    requires 2 <= |bones| && tip == hc + |bones| - 1 && SelfKeyApart(pairKey, bones)
    requires hc <= h <= tip
    ensures h in ConstraintHandles(ChainLinks(pairKey, bones, hc, tip))
  {
    var n := |bones|;
    var cs := ChainLinks(pairKey, bones, hc, tip);
    if h == tip {
      var selfKey := pairKey(bones[n - 1].key, bones[n - 1].key);
      assert selfKey in cs && h in cs[selfKey];
    } else {
      var k := PairKey(pairKey, bones, h - hc);
      LinksKeys(map[], pairKey, bones, n - 1, hc, k);
      LinksAt(map[], pairKey, bones, n - 1, hc, k);
      UnderHas(pairKey, bones, n - 1, k, hc, h);
      assert k in cs && h in cs[k];
    }
  }

  /** The bindings of a chain bound into an empty instance hold exactly its bodies h0 .. h0 + N (the last is the tip). */
  lemma ChainBodyHandles(bones: seq<Bone>, h0: Handle, h: Handle)
    requires DistinctKeys(bones) && 1 <= |bones|
    ensures h in BodyHandles(Bindings(map[], bones, |bones|, h0)) <==> h0 <= h <= h0 + |bones|
  {
    var n := |bones|;
    var bodies := Bindings(map[], bones, n, h0);
    if h in BodyHandles(bodies) {
      var k :| k in bodies && (h == bodies[k].box || (bodies[k].endBox.Some? && h == bodies[k].endBox.value));
      var i := BindingOrigin(map[], bones, n, h0, k);
    }
    if h0 <= h < h0 + n {
      BindingsAt(map[], bones, n, h0, h - h0);
      assert bones[h - h0].key in bodies && bodies[bones[h - h0].key].box == h;
    } else if h == h0 + n {
      BindingsAt(map[], bones, n, h0, n - 1);
      var k := bones[n - 1].key;
      assert k in bodies && bodies[k].endBox.Some? && bodies[k].endBox.value == h;
    }
  }

  /**
   * Building a chain of N bones into an empty instance (createPhysicsChain hands out
   * N + 1 bodies from `first`, then N constraints) and clearing it destroys exactly
   * the 2N + 1 components the build created: nothing leaks, nothing else is touched.
   */
  lemma BuildThenClear(pairKey: (string, string) -> string, bones: seq<Bone>, first: Handle, h: Handle)
    requires DistinctKeys(bones) && 2 <= |bones| && SelfKeyApart(pairKey, bones)
    ensures h in BodyHandles(Bindings(map[], bones, |bones|, first))
                 + ConstraintHandles(ChainLinks(pairKey, bones, first + |bones| + 1, first + 2 * |bones|))
        <==> first <= h <= first + 2 * |bones|
  {
    var n := |bones|;
    ChainBodyHandles(bones, first, h);
    if h in ConstraintHandles(ChainLinks(pairKey, bones, first + n + 1, first + 2 * n)) {
      ChainLinksSound(pairKey, bones, first + n + 1, first + 2 * n, h);
    }
    if first + n + 1 <= h <= first + 2 * n {
      ChainLinksComplete(pairKey, bones, first + n + 1, first + 2 * n, h);
    }
  }

  // ---------------------------------------------------------------------------
  // Kinematic drive

  /** updateKinematicPos on a position map: pins a bound bone's body at its mapped start point. */
  function Drive(xf: Xform, bodies: map<string, BodyBinding>, poses: map<string, Pose>,
                 position: map<Handle, Vec3>, k: string): map<Handle, Vec3>
    requires k in bodies ==> k in poses
  {
    if k in bodies then position[bodies[k].box := ToPhysics(xf, poses[k].startPt)] else position
  }

  /** updateAllKinematicBones: Drive applied to each kinematic bone in turn. */
  function DriveAll(xf: Xform, bodies: map<string, BodyBinding>, poses: map<string, Pose>,
                    position: map<Handle, Vec3>, ks: seq<string>): map<Handle, Vec3>
    requires forall i :: 0 <= i < |ks| ==> ks[i] in poses
  {
    if ks == [] then position
    else Drive(xf, bodies, poses, DriveAll(xf, bodies, poses, position, ks[..|ks| - 1]), ks[|ks| - 1])
  }

  /** The body of some bound bone among ks. */
  ghost predicate DrivenBy(bodies: map<string, BodyBinding>, ks: seq<string>, h: Handle)
  {
    exists i :: 0 <= i < |ks| && ks[i] in bodies && bodies[ks[i]].box == h
  }

  /** The drive moves only the bodies of bound kinematic bones and adds no body. */
  lemma {:induction false} DriveAllFrame(xf: Xform, bodies: map<string, BodyBinding>, poses: map<string, Pose>,
                                         position: map<Handle, Vec3>, ks: seq<string>, h: Handle)
    requires forall i :: 0 <= i < |ks| ==> ks[i] in poses
    requires Placed(bodies, position)
    ensures h in DriveAll(xf, bodies, poses, position, ks) <==> h in position
    ensures h in position && !DrivenBy(bodies, ks, h) ==> DriveAll(xf, bodies, poses, position, ks)[h] == position[h]
  {
    if ks != [] {
      var front := ks[..|ks| - 1];
      DriveAllFrame(xf, bodies, poses, position, front, h);
    }
  }

  /** After the drive, each bound kinematic bone's body sits at its mapped start point. */
  lemma {:induction false} DriveAllPins(xf: Xform, bodies: map<string, BodyBinding>, poses: map<string, Pose>,
                                        position: map<Handle, Vec3>, ks: seq<string>, i: nat)
    requires forall j :: 0 <= j < |ks| ==> ks[j] in poses
    requires BoxesDistinct(bodies)
    requires i < |ks| && ks[i] in bodies
    ensures bodies[ks[i]].box in DriveAll(xf, bodies, poses, position, ks)
    ensures DriveAll(xf, bodies, poses, position, ks)[bodies[ks[i]].box] == ToPhysics(xf, poses[ks[i]].startPt)
  {
    var front := ks[..|ks| - 1];
    var last := ks[|ks| - 1];
    if i < |ks| - 1 {
      DriveAllPins(xf, bodies, poses, position, front, i);
      assert front[i] == ks[i];
      if last in bodies && last != ks[i] {
        assert bodies[last].box != bodies[ks[i]].box;
      }
    }
  }

  // ---------------------------------------------------------------------------
  // Read-back

  /**
   * The (next_base_body, next_end_body) pair updateBonePositions looks up for a
   * bound bone, when both exist.
   */
  function EndRefs(bodies: map<string, BodyBinding>, position: map<Handle, Vec3>, k: string): (r: Option<(Handle, Handle)>)
    requires Linked(bodies) && Placed(bodies, position) && k in bodies
    ensures r.Some? ==> r.value.0 in position && r.value.1 in position
  {
    var b := bodies[k];
    match b.nextBone
    case Some(n) =>
      var nd := bodies[n];
      (match nd.nextBone
       case Some(m) => Some((nd.box, bodies[m].box))
       case None => if nd.endBox.Some? then Some((nd.box, nd.endBox.value)) else None)
    case None =>
      if b.endBox.Some? then Some((b.box, b.endBox.value)) else None
  }

  /** The pose read back for bound bone k, whose pose was `pose`. */
  function ReadBackPose(xf: Xform, bodies: map<string, BodyBinding>, position: map<Handle, Vec3>,
                        k: string, pose: Pose): Pose
    requires Linked(bodies) && Placed(bodies, position) && k in bodies
  {
    var b := bodies[k];
    var startPt := ToAnim(xf, position[b.box]);
    match EndRefs(bodies, position, k)
    case None => Pose(startPt, pose.endPt)
    case Some(refs) =>
      Pose(startPt, if b.endBox.None? then Planar(xf.inv(position[refs.0]))
                    else Planar(xf.inv(position[refs.1])))
  }

  /**
   * What read-back writes into a bound bone: the start point from its own body; the
   * end point only when both next bodies are found, and then on the bend plane
   * (third coordinate 0), from the next bone's body for a bone without a tip and
   * from the tip for a last bone.
   */
  lemma ReadBackShape(xf: Xform, bodies: map<string, BodyBinding>, position: map<Handle, Vec3>, k: string, pose: Pose)
    requires Linked(bodies) && Placed(bodies, position) && k in bodies
    ensures ReadBackPose(xf, bodies, position, k, pose).startPt == ToAnim(xf, position[bodies[k].box])
    ensures EndRefs(bodies, position, k).None? ==> ReadBackPose(xf, bodies, position, k, pose).endPt == pose.endPt
    ensures EndRefs(bodies, position, k).Some? ==> ReadBackPose(xf, bodies, position, k, pose).endPt.z == 0.0
    ensures bodies[k].nextBone.Some? && bodies[k].endBox.None? && EndRefs(bodies, position, k).Some? ==>
      ReadBackPose(xf, bodies, position, k, pose).endPt == Planar(xf.inv(position[bodies[bodies[k].nextBone.value].box]))
    ensures bodies[k].nextBone.None? && bodies[k].endBox.Some? ==>
      && EndRefs(bodies, position, k).Some?
      && ReadBackPose(xf, bodies, position, k, pose).endPt == Planar(xf.inv(position[bodies[k].endBox.value]))
  {
  }

  /** updateBonePositions on the whole bone map: bound bones are read back, others kept. */
  function ReadBackAll(xf: Xform, bodies: map<string, BodyBinding>, position: map<Handle, Vec3>,
                       poses: map<string, Pose>): map<string, Pose>
    requires Linked(bodies) && Placed(bodies, position)
  {
    ReadBackKeys(xf, bodies, position, poses, bodies.Keys)
  }

  /** Reading back one more bone updates that bone's pose and no other. */
  lemma ReadBackKeysStep(xf: Xform, bodies: map<string, BodyBinding>, position: map<Handle, Vec3>,
                         poses: map<string, Pose>, ks: set<string>, k: string)
    requires Linked(bodies) && Placed(bodies, position)
    requires k in bodies && k in poses && k !in ks
    ensures ReadBackKeys(xf, bodies, position, poses, ks)[k] == poses[k]
    ensures ReadBackKeys(xf, bodies, position, poses, ks + {k})
         == ReadBackKeys(xf, bodies, position, poses, ks)[k := ReadBackPose(xf, bodies, position, k, poses[k])]
  {
  }

  /** Read-back of the bound bones among ks only; every other bone keeps its pose. */
  function ReadBackKeys(xf: Xform, bodies: map<string, BodyBinding>, position: map<Handle, Vec3>,
                        poses: map<string, Pose>, ks: set<string>): map<string, Pose>
    requires Linked(bodies) && Placed(bodies, position)
  {
    map k | k in poses :: if k in ks && k in bodies then ReadBackPose(xf, bodies, position, k, poses[k]) else poses[k]
  }

  /** Reading back right after a build returns each bone's start point as it was. */
  lemma BuildThenReadBackStart(xf: Xform, bones: seq<Bone>, h0: Handle, before: map<string, BodyBinding>,
                               oldPosition: map<Handle, Vec3>, bodies: map<string, BodyBinding>,
                               position: map<Handle, Vec3>, i: nat, pose: Pose)
    requires Inverts(xf) && DistinctKeys(bones) && 2 <= |bones| && i < |bones|
    requires bodies == Bindings(before, bones, |bones|, h0)
    requires position == Placements(oldPosition, xf, bones, |bones| + 1, h0)
    requires Linked(bodies) && Placed(bodies, position)
    ensures bones[i].key in bodies
    ensures ReadBackPose(xf, bodies, position, bones[i].key, pose).startPt == bones[i].startPt
  {
    BindingsAt(before, bones, |bones|, h0, i);
    PlacementsAt(oldPosition, xf, bones, |bones| + 1, h0, h0 + i);
    AnimPhysicsRoundTrip(xf, bones[i].startPt);
  }

  /**
   * Reading back right after a build sets each bone's end point to the next
   * bone's start point (for the last bone, its own end point) flattened onto
   * the bend plane.
   */
  lemma BuildThenReadBackEnd(xf: Xform, bones: seq<Bone>, h0: Handle, before: map<string, BodyBinding>,
                             oldPosition: map<Handle, Vec3>, bodies: map<string, BodyBinding>,
                             position: map<Handle, Vec3>, i: nat, pose: Pose)
    requires Inverts(xf) && DistinctKeys(bones) && 2 <= |bones| && i < |bones|
    requires bodies == Bindings(before, bones, |bones|, h0)
    requires position == Placements(oldPosition, xf, bones, |bones| + 1, h0)
    requires Linked(bodies) && Placed(bodies, position)
    ensures bones[i].key in bodies
    ensures ReadBackPose(xf, bodies, position, bones[i].key, pose).endPt ==
      if i < |bones| - 1 then Vec3(bones[i + 1].startPt.x, bones[i + 1].startPt.y, 0.0)
      else Vec3(bones[i].endPt.x, bones[i].endPt.y, 0.0)
  {
    var n := |bones|;
    BindingsAt(before, bones, n, h0, i);
    ChainEndRefs(bones, h0, before, bodies, position, i);
    var endBody := if i < n - 1 then h0 + i + 1 else h0 + n;
    PlacementsAt(oldPosition, xf, bones, n + 1, h0, endBody);
    ReadBackOfRefs(xf, bodies, position, bones[i].key, pose, endBody);
    PlanarOfPlaced(xf, BodyPoint(bones, endBody - h0));
  }

  /**
   * Read-back of one bone once its lookups are known: the start point comes from
   * the bone's own body and the end point from `endBody`, the next bone's body
   * (or the tip, for a bone owning one).
   */
  lemma ReadBackOfRefs(xf: Xform, bodies: map<string, BodyBinding>, position: map<Handle, Vec3>,
                       k: string, pose: Pose, endBody: Handle)
    requires Linked(bodies) && Placed(bodies, position) && k in bodies
    requires EndRefs(bodies, position, k).Some?
    requires endBody == if bodies[k].endBox.None? then EndRefs(bodies, position, k).value.0
                        else EndRefs(bodies, position, k).value.1
    ensures ReadBackPose(xf, bodies, position, k, pose)
         == Pose(ToAnim(xf, position[bodies[k].box]), Planar(xf.inv(position[endBody])))
  {
  }

  /**
   * The bodies read-back looks up for bone i of a freshly built chain: the next
   * bone's body and the body after it (the tip, past the last bone).
   */
  lemma ChainEndRefs(bones: seq<Bone>, h0: Handle, before: map<string, BodyBinding>,
                     bodies: map<string, BodyBinding>, position: map<Handle, Vec3>, i: nat)
    requires DistinctKeys(bones) && 2 <= |bones| && i < |bones|
    requires bodies == Bindings(before, bones, |bones|, h0)
    requires Linked(bodies) && Placed(bodies, position)
    ensures bones[i].key in bodies
    ensures EndRefs(bodies, position, bones[i].key) ==
      if i == |bones| - 1 then Some((h0 + i, h0 + |bones|))
      else if i == |bones| - 2 then Some((h0 + i + 1, h0 + |bones|))
      else Some((h0 + i + 1, h0 + i + 2))
  {
    var n := |bones|;
    BindingsAt(before, bones, n, h0, i);
    if i < n - 1 {
      BindingsAt(before, bones, n, h0, i + 1);
      if i < n - 2 {
        BindingsAt(before, bones, n, h0, i + 2);
      }
    }
  }

  /** Driving the anchors then reading back returns each bound kinematic bone's start point. */
  lemma DriveThenReadBack(xf: Xform, bodies: map<string, BodyBinding>, poses: map<string, Pose>,
                          position: map<Handle, Vec3>, ks: seq<string>, i: nat, pose: Pose)
    requires Inverts(xf) && Linked(bodies) && Placed(bodies, position) && BoxesDistinct(bodies)
    requires forall j :: 0 <= j < |ks| ==> ks[j] in poses
    requires i < |ks| && ks[i] in bodies
    ensures Placed(bodies, DriveAll(xf, bodies, poses, position, ks))
    ensures ReadBackPose(xf, bodies, DriveAll(xf, bodies, poses, position, ks), ks[i], pose).startPt
         == poses[ks[i]].startPt
  {
    var driven := DriveAll(xf, bodies, poses, position, ks);
    forall k | k in bodies
      ensures bodies[k].box in driven && (bodies[k].endBox.Some? ==> bodies[k].endBox.value in driven)
    {
      DriveAllFrame(xf, bodies, poses, position, ks, bodies[k].box);
      if bodies[k].endBox.Some? {
        DriveAllFrame(xf, bodies, poses, position, ks, bodies[k].endBox.value);
      }
    }
    DriveAllPins(xf, bodies, poses, position, ks, i);
    AnimPhysicsRoundTrip(xf, poses[ks[i]].startPt);
  }

  /**
   * Where binding k comes from after binding n bones: i >= 0 is the last bone of
   * the first n keyed k; i == -1 means k is an untouched old binding.
   */
  lemma {:induction false} BindingOrigin(bodies: map<string, BodyBinding>, bones: seq<Bone>, n: nat, h0: Handle, k: string)
    returns (i: int)
    requires n <= |bones| && k in Bindings(bodies, bones, n, h0)
    ensures -1 <= i < n
    ensures 0 <= i ==> bones[i].key == k && Bindings(bodies, bones, n, h0)[k] == BindingAt(bones, i, h0)
    ensures i == -1 ==> k in bodies && Bindings(bodies, bones, n, h0)[k] == bodies[k]
  {
    if n == 0 {
      i := -1;
    } else if bones[n - 1].key == k {
      i := n - 1;
    } else {
      i := BindingOrigin(bodies, bones, n - 1, h0, k);
    }
  }

  /** Binding a new chain keeps every next-bone link resolvable. */
  lemma AddChainKeepsLinked(bodies: map<string, BodyBinding>, bones: seq<Bone>, h0: Handle)
    requires Linked(bodies) && DistinctKeys(bones) && 1 <= |bones|
    ensures Linked(Bindings(bodies, bones, |bones|, h0))
  {
    var all := Bindings(bodies, bones, |bones|, h0);
    forall k | k in all && all[k].nextBone.Some?
      ensures all[k].nextBone.value in all
    {
      var i := BindingOrigin(bodies, bones, |bones|, h0, k);
      if 0 <= i {
        BindingsAt(bodies, bones, |bones|, h0, i + 1);
      } else {
        BindingsKeys(bodies, bones, |bones|, h0, all[k].nextBone.value);
      }
    }
  }

  /** Binding a new chain, whose bodies are all fresh and placed, keeps the instance well formed. */
  lemma AddChainKeepsValid(bodies: map<string, BodyBinding>, bones: seq<Bone>, h0: Handle,
                           oldPosition: map<Handle, Vec3>, xf: Xform)
    requires Linked(bodies) && Placed(bodies, oldPosition) && BoxesDistinct(bodies)
    requires forall h :: h in oldPosition ==> h < h0
    requires DistinctKeys(bones) && 1 <= |bones|
    ensures Linked(Bindings(bodies, bones, |bones|, h0))
    ensures Placed(Bindings(bodies, bones, |bones|, h0), Placements(oldPosition, xf, bones, |bones| + 1, h0))
    ensures BoxesDistinct(Bindings(bodies, bones, |bones|, h0))
  {
    AddChainKeepsLinked(bodies, bones, h0);
    var all := Bindings(bodies, bones, |bones|, h0);
    var position := Placements(oldPosition, xf, bones, |bones| + 1, h0);
    forall k | k in all
      ensures all[k].box in position && (all[k].endBox.Some? ==> all[k].endBox.value in position)
    {
      var i := BindingOrigin(bodies, bones, |bones|, h0, k);
      if 0 <= i {
        PlacementsAt(oldPosition, xf, bones, |bones| + 1, h0, h0 + i);
        PlacementsAt(oldPosition, xf, bones, |bones| + 1, h0, h0 + |bones|);
      } else {
        PlacementsAt(oldPosition, xf, bones, |bones| + 1, h0, all[k].box);
        if all[k].endBox.Some? {
          PlacementsAt(oldPosition, xf, bones, |bones| + 1, h0, all[k].endBox.value);
        }
      }
    }
    forall k1, k2 | k1 in all && k2 in all && k1 != k2
      ensures all[k1].box != all[k2].box
    {
      var i1 := BindingOrigin(bodies, bones, |bones|, h0, k1);
      var i2 := BindingOrigin(bodies, bones, |bones|, h0, k2);
    }
  }

  // ---------------------------------------------------------------------------
  // The instance

  /**
   * What building chains changes, gathered in one value: the instance's bindings,
   * constraint lists and clip name, and the scene's handle counter, positions,
   * simulate set and joints.
   */
  datatype Build = Build(
    bodies: map<string, BodyBinding>, constraints: map<string, seq<Handle>>, animClipName: string,
    nextHandle: Handle, position: map<Handle, Vec3>, simulating: set<Handle>, joints: map<Handle, Joint>)

  /** createPhysicsChain as a function of that state. */
  function AddChain(w: Build, pairKey: (string, string) -> string, xf: Xform, bones: seq<Bone>,
                    stiffness: real, damping: real, clip: string): Build
  {
    if |bones| < 2 then w
    else
      var n := |bones|;
      var first := w.nextHandle;
      Build(
        Bindings(w.bodies, bones, n, first),
        Links(w.constraints, pairKey, bones, n - 1, first + n + 1)[pairKey(bones[n - 1].key, bones[n - 1].key) := [first + 2 * n]],
        clip,
        first + 2 * n + 1,
        Placements(w.position, xf, bones, n + 1, first),
        w.simulating + HandleRange(first + 1, first + n + 1),
        ChainJoints(w.joints, n, first, first + n + 1, ChainProfile(DefaultInstance, stiffness, damping)))
  }

  /** The state createPhysicsChain leaves, read field by field, is AddChain of the state before. */
  lemma AddChainFields(w: Build, v: Build, pairKey: (string, string) -> string, xf: Xform, bones: seq<Bone>,
                       stiffness: real, damping: real, clip: string)
    requires |bones| < 2 ==> v == w
    requires 2 <= |bones| ==>
      var n := |bones|;
      var first := w.nextHandle;
      && v.animClipName == clip
      && v.bodies == Bindings(w.bodies, bones, n, first)
      && v.constraints == Links(w.constraints, pairKey, bones, n - 1, first + n + 1)
                            [pairKey(bones[n - 1].key, bones[n - 1].key) := [first + 2 * n]]
      && v.nextHandle == first + 2 * n + 1
      && v.position == Placements(w.position, xf, bones, n + 1, first)
      && v.simulating == w.simulating + HandleRange(first + 1, first + n + 1)
      && v.joints == ChainJoints(w.joints, n, first, first + n + 1, ChainProfile(DefaultInstance, stiffness, damping))
    ensures v == AddChain(w, pairKey, xf, bones, stiffness, damping, clip)
  {
  }

  /** Every joint's handle has been handed out. */
  predicate JointsIssued(w: Build)
  {
    forall h :: h in w.joints ==> h < w.nextHandle
  }

  /**
   * A build keeps every joint's handle issued. The chain's own joints, which carry
   * the profile of its stiffness and damping, get handles the state had not issued.
   */
  lemma AddChainJoints(w: Build, pairKey: (string, string) -> string, xf: Xform, bones: seq<Bone>,
                       stiffness: real, damping: real, clip: string)
    requires JointsIssued(w)
    ensures JointsIssued(AddChain(w, pairKey, xf, bones, stiffness, damping, clip))
    ensures w.nextHandle <= AddChain(w, pairKey, xf, bones, stiffness, damping, clip).nextHandle
    ensures 2 <= |bones| ==>
      var h := w.nextHandle + |bones| + 1;
      var joints := AddChain(w, pairKey, xf, bones, stiffness, damping, clip).joints;
      h !in w.joints && h in joints && joints[h].profile == ChainProfile(DefaultInstance, stiffness, damping)
    ensures forall h :: h in w.joints ==>
      (h in AddChain(w, pairKey, xf, bones, stiffness, damping, clip).joints &&
       AddChain(w, pairKey, xf, bones, stiffness, damping, clip).joints[h] == w.joints[h])
  {
    if 2 <= |bones| {
      var n := |bones|;
      var first := w.nextHandle;
      var profile := ChainProfile(DefaultInstance, stiffness, damping);
      var joints := ChainJoints(w.joints, n, first, first + n + 1, profile);
      forall h | h in joints
        ensures h < first + 2 * n + 1
      {
        ChainJointsAt(w.joints, n, first, first + n + 1, profile, h);
      }
      ChainJointsAt(w.joints, n, first, first + n + 1, profile, first + n + 1);
      forall h | h in w.joints
        ensures h in joints && joints[h] == w.joints[h]
      {
        ChainJointsAt(w.joints, n, first, first + n + 1, profile, h);
      }
    }
  }

  /** Every joint a build adds carries the profile of the build's stiffness and damping. */
  lemma AddChainNewJoints(w: Build, pairKey: (string, string) -> string, xf: Xform, bones: seq<Bone>,
                          stiffness: real, damping: real, clip: string, h: Handle)
    requires h in AddChain(w, pairKey, xf, bones, stiffness, damping, clip).joints && h !in w.joints
    ensures AddChain(w, pairKey, xf, bones, stiffness, damping, clip).joints[h].profile ==
      ChainProfile(DefaultInstance, stiffness, damping)
  {
    var n := |bones|;
    ChainJointsAt(w.joints, n, w.nextHandle, w.nextHandle + n + 1, ChainProfile(DefaultInstance, stiffness, damping), h);
  }

  class PhysicsChain {
    /** getConstraintsKey: the key of the constraint list of a bone pair (left uninterpreted). */
    const pairKey: (string, string) -> string
    var bodies: map<string, BodyBinding>
    var constraints: map<string, seq<Handle>>
    var kinematicBones: seq<string>
    var animClipName: string

    ghost predicate Valid(scene: Scene)
      reads this, scene
    {
      scene.Valid() && Linked(bodies) && Placed(bodies, scene.position) && BoxesDistinct(bodies)
    }

    /** The part of this instance and its scene that building chains changes. */
    ghost function Snapshot(scene: Scene): Build
      reads this, scene
    {
      Build(bodies, constraints, animClipName, scene.nextHandle, scene.position, scene.simulating, scene.joints)
    }

    constructor (pairKey: (string, string) -> string)
      ensures this.pairKey == pairKey
      ensures bodies == map[] && constraints == map[] && kinematicBones == [] && animClipName == ""
    {
      this.pairKey := pairKey;
      bodies := map[];
      constraints := map[];
      kinematicBones := [];
      animClipName := "";
    }

    /**
     * createPhysicsChain. With fewer than two bones nothing changes. Otherwise the
     * bodies are handed out from `first`: bone i's body is first + i and the tip is
     * first + N; the N constraints follow, constraint first + N + 1 + j coupling
     * body first + j and body first + j + 1 (the last one couples the last body and
     * the tip).
     */
    method CreatePhysicsChain(xf: Xform, bonesIn: seq<Bone>, stiffness: real, damping: real,
                              clip: string, scene: Scene)
      returns (ghost first: Handle)
      requires Valid(scene) && DistinctKeys(bonesIn)
      modifies this, scene
      ensures Valid(scene)
      ensures first == old(scene.nextHandle)
      ensures kinematicBones == old(kinematicBones) && scene.destroyed == old(scene.destroyed)
      ensures |bonesIn| < 2 ==> unchanged(this) && unchanged(scene)
      ensures 2 <= |bonesIn| ==>
        && animClipName == clip
        && bodies == Bindings(old(bodies), bonesIn, |bonesIn|, first)
        && constraints == Links(old(constraints), pairKey, bonesIn, |bonesIn| - 1, first + |bonesIn| + 1)
                            [pairKey(bonesIn[|bonesIn| - 1].key, bonesIn[|bonesIn| - 1].key) := [first + 2 * |bonesIn|]]
        && scene.nextHandle == first + 2 * |bonesIn| + 1
      ensures 2 <= |bonesIn| ==>
        && scene.position == Placements(old(scene.position), xf, bonesIn, |bonesIn| + 1, first)
        && scene.simulating == old(scene.simulating) + HandleRange(first + 1, first + |bonesIn| + 1)
        && scene.joints == ChainJoints(old(scene.joints), |bonesIn|, first, first + |bonesIn| + 1,
                                       ChainProfile(DefaultInstance, stiffness, damping))
    {
      first := scene.nextHandle;
      if |bonesIn| < 2 {
        return;
      }
      animClipName := clip;
      var created := CreateBodies(xf, bonesIn, scene);
      CreateConstraints(bonesIn, ChainProfile(DefaultInstance, stiffness, damping), scene, first, old(bodies));
      SetSimulateFlags(created, scene, first);
    }

    /** The body loop of createPhysicsChain: one body per bone at its start point, and the tip. */
    method CreateBodies(xf: Xform, bonesIn: seq<Bone>, scene: Scene) returns (created: seq<Handle>)
      requires Valid(scene) && DistinctKeys(bonesIn) && 2 <= |bonesIn|
      modifies this`bodies, scene
      ensures Valid(scene)
      ensures |created| == |bonesIn| + 1
      ensures forall m :: 0 <= m < |created| ==> created[m] == old(scene.nextHandle) + m
      ensures scene.nextHandle == old(scene.nextHandle) + |bonesIn| + 1
      ensures bodies == Bindings(old(bodies), bonesIn, |bonesIn|, old(scene.nextHandle))
      ensures scene.position == Placements(old(scene.position), xf, bonesIn, |bonesIn| + 1, old(scene.nextHandle))
      ensures scene.simulating == old(scene.simulating) && scene.destroyed == old(scene.destroyed)
      ensures scene.joints == old(scene.joints)
    {
      ghost var first := scene.nextHandle;
      var n := |bonesIn|;
      created := [];
      var i := 0;
      while i < n
        invariant 0 <= i <= n
        invariant scene.Valid()
        invariant |created| == if i == n then n + 1 else i
        invariant forall m :: 0 <= m < |created| ==> created[m] == first + m
        invariant scene.nextHandle == first + |created|
        invariant bodies == Bindings(old(bodies), bonesIn, i, first)
        invariant scene.position == Placements(old(scene.position), xf, bonesIn, |created|, first)
        invariant scene.simulating == old(scene.simulating) && scene.destroyed == old(scene.destroyed)
        invariant scene.joints == old(scene.joints)
      {
        ghost var placed := Placements(old(scene.position), xf, bonesIn, i, first);
        var added := BindBone(xf, bonesIn, i, scene, first);
        PlacementsStep(old(scene.position), xf, bonesIn, i, first);
        if i == n - 1 {
          PlacementsStep(old(scene.position), xf, bonesIn, n, first);
          ghost var withBody := placed[first + i := ToPhysics(xf, bonesIn[i].startPt)];
          assert scene.position == withBody[first + n := ToPhysics(xf, bonesIn[n - 1].endPt)];
        } else {
          assert scene.position == placed[first + i := ToPhysics(xf, bonesIn[i].startPt)];
        }
        created := created + added;
        i := i + 1;
      }
      AddChainKeepsValid(old(bodies), bonesIn, first, old(scene.position), xf);
    }

    /**
     * One pass of the body loop: bone i's body at its start point and, for the last
     * bone, the tip body at its end point; then bone i's binding.
     */
    method BindBone(xf: Xform, bonesIn: seq<Bone>, i: nat, scene: Scene, ghost first: Handle)
      returns (added: seq<Handle>)
      requires scene.Valid() && i < |bonesIn| && scene.nextHandle == first + i
      modifies this`bodies, scene
      ensures scene.Valid()
      ensures added == if i == |bonesIn| - 1 then [first + i, first + i + 1] else [first + i]
      ensures scene.nextHandle == first + i + |added|
      ensures bodies == old(bodies)[bonesIn[i].key := BindingAt(bonesIn, i, first)]
      ensures scene.position == if i == |bonesIn| - 1
        then old(scene.position)[first + i := ToPhysics(xf, bonesIn[i].startPt)][first + i + 1 := ToPhysics(xf, bonesIn[i].endPt)]
        else old(scene.position)[first + i := ToPhysics(xf, bonesIn[i].startPt)]
      ensures scene.simulating == old(scene.simulating) && scene.destroyed == old(scene.destroyed)
      ensures scene.joints == old(scene.joints)
    {
      var n := |bonesIn|;
      var curBone := bonesIn[i];
      var nextBone: Option<string> := None;
      var basis := ZeroBasis;
      if i < n - 1 {
        nextBone := Some(bonesIn[i + 1].key);
        basis := BendBasis(curBone.endPt, bonesIn[i + 1].startPt, bonesIn[i + 1].endPt);
      }
      var newBody := scene.CreateBody(ToPhysics(xf, curBone.startPt));
      added := [newBody];
      var binding := BodyBinding(newBody, None, nextBone, basis);

      // Last bone, add the tip
      if i == n - 1 {
        var tip := scene.CreateBody(ToPhysics(xf, curBone.endPt));
        binding := binding.(endBox := Some(tip));
        added := added + [tip];
      }
      bodies := bodies[curBone.key := binding];
    }

    /** The constraint loops of createPhysicsChain, over bodies already bound from `first`. */
    method CreateConstraints(bonesIn: seq<Bone>, profile: ConstraintInstance, scene: Scene,
                             ghost first: Handle, ghost before: map<string, BodyBinding>)
      requires scene.Valid() && DistinctKeys(bonesIn) && 2 <= |bonesIn|
      requires scene.nextHandle == first + |bonesIn| + 1
      requires bodies == Bindings(before, bonesIn, |bonesIn|, first)
      modifies this`constraints, scene
      ensures scene.Valid()
      ensures constraints == Links(old(constraints), pairKey, bonesIn, |bonesIn| - 1, first + |bonesIn| + 1)
                               [pairKey(bonesIn[|bonesIn| - 1].key, bonesIn[|bonesIn| - 1].key) := [first + 2 * |bonesIn|]]
      ensures scene.nextHandle == first + 2 * |bonesIn| + 1
      ensures scene.joints == ChainJoints(old(scene.joints), |bonesIn|, first, first + |bonesIn| + 1, profile)
      ensures scene.position == old(scene.position) && scene.simulating == old(scene.simulating)
      ensures scene.destroyed == old(scene.destroyed)
    {
      LinkPairs(bonesIn, profile, scene, first, before);
      BindingsAt(before, bonesIn, |bonesIn|, first, |bonesIn| - 1);
      LinkTip(bonesIn, profile, scene, first);
    }

    /** The loop over consecutive bone pairs: constraint hc + i couples body first + i and body first + i + 1. */
    method LinkPairs(bonesIn: seq<Bone>, profile: ConstraintInstance, scene: Scene,
                     ghost first: Handle, ghost before: map<string, BodyBinding>)
      requires scene.Valid() && DistinctKeys(bonesIn) && 2 <= |bonesIn|
      requires scene.nextHandle == first + |bonesIn| + 1
      requires bodies == Bindings(before, bonesIn, |bonesIn|, first)
      modifies this`constraints, scene
      ensures scene.Valid()
      ensures constraints == Links(old(constraints), pairKey, bonesIn, |bonesIn| - 1, first + |bonesIn| + 1)
      ensures scene.nextHandle == first + 2 * |bonesIn|
      ensures scene.joints == ChainJoints(old(scene.joints), |bonesIn| - 1, first, first + |bonesIn| + 1, profile)
      ensures scene.position == old(scene.position) && scene.simulating == old(scene.simulating)
      ensures scene.destroyed == old(scene.destroyed)
    {
      var n := |bonesIn|;
      ghost var hc := scene.nextHandle;
      var i := 0;
      while i < n - 1
        invariant 0 <= i <= n - 1
        invariant scene.Valid()
        invariant scene.nextHandle == hc + i
        invariant constraints == Links(old(constraints), pairKey, bonesIn, i, hc)
        invariant scene.joints == ChainJoints(old(scene.joints), i, first, hc, profile)
        invariant scene.position == old(scene.position) && scene.simulating == old(scene.simulating)
        invariant scene.destroyed == old(scene.destroyed)
      {
        BindingsAt(before, bonesIn, |bonesIn|, first, i);
        BindingsAt(before, bonesIn, |bonesIn|, first, i + 1);
        LinkPair(bonesIn, i, profile, scene, first);
        ChainJointsStep(old(scene.joints), i, first, hc, profile);
        LinksStep(old(constraints), pairKey, bonesIn, i, hc);
        i := i + 1;
      }
    }

    /** One pass of the pair loop: couples bone i's body to bone i + 1's and files the constraint under their pair key. */
    method LinkPair(bonesIn: seq<Bone>, i: nat, profile: ConstraintInstance, scene: Scene, ghost first: Handle)
      requires scene.Valid() && i + 1 < |bonesIn|
      requires bonesIn[i].key in bodies && bodies[bonesIn[i].key].box == first + i
      requires bonesIn[i + 1].key in bodies && bodies[bonesIn[i + 1].key].box == first + i + 1
      modifies this`constraints, scene
      ensures scene.Valid()
      ensures constraints == AppendConstraint(old(constraints), PairKey(pairKey, bonesIn, i), old(scene.nextHandle))
      ensures scene.nextHandle == old(scene.nextHandle) + 1
      ensures scene.joints == old(scene.joints)[old(scene.nextHandle) := Joint(first + i, first + i + 1, profile)]
      ensures scene.position == old(scene.position) && scene.simulating == old(scene.simulating)
      ensures scene.destroyed == old(scene.destroyed)
    {
      var boneName1 := bonesIn[i].key;
      var boneName2 := bonesIn[i + 1].key;
      var body1 := bodies[boneName1].box;
      var body2 := bodies[boneName2].box;
      var mainConstraint := scene.CreateJoint(body1, body2, profile);
      var k := pairKey(boneName1, boneName2);
      if k !in constraints {
        constraints := constraints[k := []];
      }
      constraints := constraints[k := constraints[k] + [mainConstraint]];
    }

    /** The tip constraint, coupling the last bone's body and its tip, under the last bone's self-pair key. */
    method LinkTip(bonesIn: seq<Bone>, profile: ConstraintInstance, scene: Scene, ghost first: Handle)
      requires scene.Valid() && 2 <= |bonesIn|
      requires scene.nextHandle == first + 2 * |bonesIn|
      requires bonesIn[|bonesIn| - 1].key in bodies
      requires bodies[bonesIn[|bonesIn| - 1].key].box == first + |bonesIn| - 1
      requires bodies[bonesIn[|bonesIn| - 1].key].endBox == Some(first + |bonesIn|)
      modifies this`constraints, scene
      ensures scene.Valid()
      ensures constraints == old(constraints)[pairKey(bonesIn[|bonesIn| - 1].key, bonesIn[|bonesIn| - 1].key) := [first + 2 * |bonesIn|]]
      ensures scene.nextHandle == first + 2 * |bonesIn| + 1
      ensures scene.joints == old(scene.joints)[first + 2 * |bonesIn| := Joint(first + |bonesIn| - 1, first + |bonesIn|, profile)]
      ensures scene.position == old(scene.position) && scene.simulating == old(scene.simulating)
      ensures scene.destroyed == old(scene.destroyed)
    {
      var lastBoneName := bonesIn[|bonesIn| - 1].key;
      var lastBaseBody := bodies[lastBoneName].box;
      var lastEndBody := bodies[lastBoneName].endBox.value;
      var lastConstraint := scene.CreateJoint(lastBaseBody, lastEndBody, profile);
      var selfKey := pairKey(lastBoneName, lastBoneName);
      constraints := constraints[selfKey := []];
      var curList := constraints[selfKey];
      assert curList + [lastConstraint] == [lastConstraint];
      constraints := constraints[selfKey := curList + [lastConstraint]];
    }

    /** The final loop of createPhysicsChain: only the first created body stays kinematic. */
    method SetSimulateFlags(created: seq<Handle>, scene: Scene, ghost first: Handle)
      requires scene.Valid()
      requires forall m :: 0 <= m < |created| ==> created[m] == first + m < scene.nextHandle
      requires first !in scene.simulating
      modifies scene
      ensures scene.Valid()
      ensures scene.simulating == old(scene.simulating) + HandleRange(first + 1, first + |created|)
      ensures scene.nextHandle == old(scene.nextHandle) && scene.position == old(scene.position)
      ensures scene.joints == old(scene.joints) && scene.destroyed == old(scene.destroyed)
    {
      for m := 0 to |created|
        invariant scene.Valid()
        invariant scene.simulating == old(scene.simulating) + HandleRange(first + 1, first + m)
        invariant scene.nextHandle == old(scene.nextHandle) && scene.position == old(scene.position)
        invariant scene.joints == old(scene.joints) && scene.destroyed == old(scene.destroyed)
      {
        scene.SetSimulate(created[m], m != 0);
      }
    }

    /**
     * clearPhysicsChain: destroys every constraint and every body (and tip) of the
     * instance, then empties both maps.
     */
    method ClearPhysicsChain(scene: Scene)
      requires Valid(scene)
      modifies this`constraints, this`bodies, scene
      ensures Valid(scene)
      ensures constraints == map[] && bodies == map[]
      ensures kinematicBones == old(kinematicBones) && animClipName == old(animClipName)
      ensures scene.destroyed == old(scene.destroyed) + ConstraintHandles(old(constraints)) + BodyHandles(old(bodies))
      ensures scene.nextHandle == old(scene.nextHandle) && scene.position == old(scene.position)
      ensures scene.simulating == old(scene.simulating) && scene.joints == old(scene.joints)
    {
      DestroyConstraints(scene);
      DestroyBodies(scene);
      constraints := map[];
      bodies := map[];
    }

    /**
     * clearPhysicsChain is idempotent: clearing twice destroys exactly what one
     * clear destroys and leaves the same state.
     */
    method ClearTwice(scene: Scene)
      requires Valid(scene)
      modifies this`constraints, this`bodies, scene
      ensures Valid(scene)
      ensures constraints == map[] && bodies == map[]
      ensures kinematicBones == old(kinematicBones) && animClipName == old(animClipName)
      ensures scene.destroyed == old(scene.destroyed) + ConstraintHandles(old(constraints)) + BodyHandles(old(bodies))
      ensures scene.nextHandle == old(scene.nextHandle) && scene.position == old(scene.position)
      ensures scene.simulating == old(scene.simulating) && scene.joints == old(scene.joints)
    {
      ClearPhysicsChain(scene);
      ghost var once := scene.destroyed;
      ClearPhysicsChain(scene);
      assert ConstraintHandles(map[]) == {} && BodyHandles(map[]) == {};
      assert scene.destroyed == once;
    }

    /** The first pass of clearPhysicsChain: every component of every constraint list. */
    method DestroyConstraints(scene: Scene)
      requires scene.Valid()
      modifies scene
      ensures scene.Valid()
      ensures scene.destroyed == old(scene.destroyed) + ConstraintHandles(constraints)
      ensures scene.nextHandle == old(scene.nextHandle) && scene.position == old(scene.position)
      ensures scene.simulating == old(scene.simulating) && scene.joints == old(scene.joints)
    {
      var pending := constraints.Keys;
      while pending != {}
        invariant pending <= constraints.Keys
        invariant scene.Valid()
        invariant scene.destroyed == old(scene.destroyed) + HandlesUnderKeys(constraints, constraints.Keys - pending)
        invariant scene.nextHandle == old(scene.nextHandle) && scene.position == old(scene.position)
        invariant scene.simulating == old(scene.simulating) && scene.joints == old(scene.joints)
        decreases pending
      {
        var k :| k in pending;
        HandlesUnderKeysAdd(constraints, constraints.Keys - pending, k);
        assert constraints.Keys - (pending - {k}) == (constraints.Keys - pending) + {k};
        DestroyAll(constraints[k], scene);
        pending := pending - {k};
      }
      assert constraints.Keys - pending == constraints.Keys;
    }

    /** The second pass of clearPhysicsChain: every body, and the tip body where there is one. */
    method DestroyBodies(scene: Scene)
      requires scene.Valid()
      modifies scene
      ensures scene.Valid()
      ensures scene.destroyed == old(scene.destroyed) + BodyHandles(bodies)
      ensures scene.nextHandle == old(scene.nextHandle) && scene.position == old(scene.position)
      ensures scene.simulating == old(scene.simulating) && scene.joints == old(scene.joints)
    {
      var pending := bodies.Keys;
      while pending != {}
        invariant pending <= bodies.Keys
        invariant scene.Valid()
        invariant scene.destroyed == old(scene.destroyed) + BodiesOfKeys(bodies, bodies.Keys - pending)
        invariant scene.nextHandle == old(scene.nextHandle) && scene.position == old(scene.position)
        invariant scene.simulating == old(scene.simulating) && scene.joints == old(scene.joints)
        decreases pending
      {
        var k :| k in pending;
        BodiesOfKeysAdd(bodies, bodies.Keys - pending, k);
        assert bodies.Keys - (pending - {k}) == (bodies.Keys - pending) + {k};
        var boxData := bodies[k];
        scene.Destroy(boxData.box);
        if boxData.endBox.Some? {
          scene.Destroy(boxData.endBox.value);
        }
        pending := pending - {k};
      }
      assert bodies.Keys - pending == bodies.Keys;
    }

    /** Destroys every component in a constraint list. */
    method DestroyAll(hs: seq<Handle>, scene: Scene)
      requires scene.Valid()
      modifies scene
      ensures scene.Valid()
      ensures scene.destroyed == old(scene.destroyed) + Elements(hs)
      ensures scene.nextHandle == old(scene.nextHandle) && scene.position == old(scene.position)
      ensures scene.simulating == old(scene.simulating) && scene.joints == old(scene.joints)
    {
      for j := 0 to |hs|
        invariant scene.Valid()
        invariant scene.destroyed == old(scene.destroyed) + Elements(hs[..j])
        invariant scene.nextHandle == old(scene.nextHandle) && scene.position == old(scene.position)
        invariant scene.simulating == old(scene.simulating) && scene.joints == old(scene.joints)
      {
        scene.Destroy(hs[j]);
        assert hs[..j + 1] == hs[..j] + [hs[j]];
      }
      assert hs[..|hs|] == hs;
    }

    /** updateKinematicPos: pins a bound bone's body at its mapped start point; an unbound bone is ignored. */
    method UpdateKinematicPos(xf: Xform, skel: Skeleton, key: string, scene: Scene)
      requires Valid(scene) && key in skel.poses
      modifies scene
      ensures Valid(scene)
      ensures scene.position == Drive(xf, bodies, skel.poses, old(scene.position), key)
      ensures scene.nextHandle == old(scene.nextHandle) && scene.simulating == old(scene.simulating)
      ensures scene.destroyed == old(scene.destroyed) && scene.joints == old(scene.joints)
    {
      if key !in bodies {
        return;
      }
      var setBody := bodies[key].box;
      var newPos := ToPhysics(xf, skel.poses[key].startPt);
      scene.SetPosition(setBody, newPos);
    }

    /** updateAllKinematicBones: updateKinematicPos for each kinematic bone, in order. */
    method UpdateAllKinematicBones(xf: Xform, skel: Skeleton, scene: Scene)
      requires Valid(scene)
      requires forall i :: 0 <= i < |kinematicBones| ==> kinematicBones[i] in skel.poses
      modifies scene
      ensures Valid(scene)
      ensures scene.position == DriveAll(xf, bodies, skel.poses, old(scene.position), kinematicBones)
      ensures scene.nextHandle == old(scene.nextHandle) && scene.simulating == old(scene.simulating)
      ensures scene.destroyed == old(scene.destroyed) && scene.joints == old(scene.joints)
    {
      for i := 0 to |kinematicBones|
        invariant Valid(scene)
        invariant scene.position == DriveAll(xf, bodies, skel.poses, old(scene.position), kinematicBones[..i])
        invariant scene.nextHandle == old(scene.nextHandle) && scene.simulating == old(scene.simulating)
        invariant scene.destroyed == old(scene.destroyed) && scene.joints == old(scene.joints)
      {
        assert kinematicBones[..i + 1][..i] == kinematicBones[..i];
        UpdateKinematicPos(xf, skel, kinematicBones[i], scene);
      }
      assert kinematicBones[..|kinematicBones|] == kinematicBones;
    }

    /**
     * updateBonePositions: every bound bone takes its start point from its body and,
     * when the next bodies can be looked up, its end point from the next bone's body
     * (or from its tip), flattened onto the bend plane.
     */
    method UpdateBonePositions(xf: Xform, skel: Skeleton, scene: Scene)
      requires Valid(scene)
      requires forall k :: k in bodies ==> k in skel.poses
      modifies skel
      ensures skel.poses == ReadBackAll(xf, bodies, scene.position, old(skel.poses))
    {
      var pending := bodies.Keys;
      while pending != {}
        invariant pending <= bodies.Keys
        invariant skel.poses == ReadBackKeys(xf, bodies, scene.position, old(skel.poses), bodies.Keys - pending)
        decreases pending
      {
        var k :| k in pending;
        ReadBackKeysStep(xf, bodies, scene.position, old(skel.poses), bodies.Keys - pending, k);
        assert bodies.Keys - (pending - {k}) == (bodies.Keys - pending) + {k};
        var pose := ReadBackBone(xf, k, skel.poses[k], scene);
        skel.poses := skel.poses[k := pose];
        pending := pending - {k};
      }
      assert bodies.Keys - pending == bodies.Keys;
    }

    /** One pass of updateBonePositions: the pose read back for bound bone k. */
    method ReadBackBone(xf: Xform, k: string, cur: Pose, scene: Scene) returns (pose: Pose)
      requires Valid(scene) && k in bodies
      ensures pose == ReadBackPose(xf, bodies, scene.position, k, cur)
    {
      var bodyData := bodies[k];
      var curBox := bodyData.box;
      pose := cur.(startPt := ToAnim(xf, scene.position[curBox]));

      var nextBaseBody: Option<Handle> := None;
      var nextEndBody: Option<Handle> := None;
      if bodyData.nextBone.Some? {
        var nextData := bodies[bodyData.nextBone.value];
        nextBaseBody := Some(nextData.box);
        if nextData.nextBone.Some? {
          nextEndBody := Some(bodies[nextData.nextBone.value].box);
        } else if nextData.endBox.Some? {
          nextEndBody := nextData.endBox;
        }
      } else if bodyData.endBox.Some? {
        nextBaseBody := Some(curBox);
        nextEndBody := bodyData.endBox;
      }

      if nextBaseBody.Some? && nextEndBody.Some? {
        var nextBasePos := xf.inv(scene.position[nextBaseBody.value]);
        var nextEndPos := xf.inv(scene.position[nextEndBody.value]);
        if bodyData.endBox.None? {
          pose := pose.(endPt := Planar(nextBasePos));
        } else {
          pose := pose.(endPt := Planar(nextEndPos));
        }
      }
    }
  }
}
