/**
 * The scene/physics collaborator as this core sees it: engine components are
 * natural-number handles handed out in sequence; a body has a position; a
 * constraint couples two bodies with a limit profile; components can be put
 * into simulation and destroyed.
 */
module PhysicsScene {
  import opened Geometry
  import opened ConstraintProfile

  type Handle = nat

  /** A constraint component: the two bodies it couples and its limit profile. */
  datatype Joint = Joint(body1: Handle, body2: Handle, profile: ConstraintInstance)

  class Scene {
    /** The next handle to hand out; every handle below it has been created. */
    var nextHandle: Handle
    /** GetComponentLocation of every body created so far. */
    var position: map<Handle, Vec3>
    ghost var simulating: set<Handle>
    ghost var destroyed: set<Handle>
    ghost var joints: map<Handle, Joint>

    ghost predicate Valid()
      reads this
    {
      && (forall h :: h in position ==> h < nextHandle)
      && (forall h :: h in simulating ==> h < nextHandle)
      && (forall h :: h in joints ==> h < nextHandle)
    }

    constructor ()
      ensures Valid()
      ensures nextHandle == 0 && position == map[] && joints == map[]
      ensures simulating == {} && destroyed == {}
    {
      nextHandle := 0;
      position := map[];
      simulating := {};
      destroyed := {};
      joints := map[];
    }

    /** A new box body placed at `p`, not simulating (NewObject plus setupBoxSettings). */
    method CreateBody(p: Vec3) returns (h: Handle)
      requires Valid()
      modifies this
      ensures Valid()
      ensures h == old(nextHandle) && nextHandle == h + 1
      ensures position == old(position)[h := p]
      ensures h !in old(position) && h !in simulating
      ensures simulating == old(simulating) && destroyed == old(destroyed) && joints == old(joints)
    {
      h := nextHandle;
      nextHandle := nextHandle + 1;
      position := position[h := p];
    }

    /** A new constraint component coupling `b1` and `b2` under `profile`. */
    method CreateJoint(b1: Handle, b2: Handle, profile: ConstraintInstance) returns (h: Handle)
      requires Valid()
      modifies this
      ensures Valid()
      ensures h == old(nextHandle) && nextHandle == h + 1
      ensures joints == old(joints)[h := Joint(b1, b2, profile)]
      ensures position == old(position) && simulating == old(simulating) && destroyed == old(destroyed)
    {
      h := nextHandle;
      nextHandle := nextHandle + 1;
      joints := joints[h := Joint(b1, b2, profile)];
    }

    /** SetSimulatePhysics. */
    method SetSimulate(h: Handle, on: bool)
      requires Valid() && h < nextHandle
      modifies this
      ensures Valid()
      ensures simulating == if on then old(simulating) + {h} else old(simulating) - {h}
      ensures nextHandle == old(nextHandle) && position == old(position)
      ensures destroyed == old(destroyed) && joints == old(joints)
    {
      simulating := if on then simulating + {h} else simulating - {h};
    }

    /** SetAllPhysicsPosition: pins a body at `p`. */
    method SetPosition(h: Handle, p: Vec3)
      requires Valid() && h in position
      modifies this
      ensures Valid()
      ensures position == old(position)[h := p]
      ensures nextHandle == old(nextHandle) && simulating == old(simulating)
      ensures destroyed == old(destroyed) && joints == old(joints)
    {
      position := position[h := p];
    }

    /** DestroyComponent. */
    method Destroy(h: Handle)
      requires Valid()
      modifies this
      ensures Valid()
      ensures destroyed == old(destroyed) + {h}
      ensures nextHandle == old(nextHandle) && position == old(position)
      ensures simulating == old(simulating) && joints == old(joints)
    {
      destroyed := destroyed + {h};
    }
  }
}
