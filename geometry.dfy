/**
 * Points and the coordinate conventions crossed between animation space and
 * physics space. Floating point is modelled by `real`; the base transform is
 * an abstract pair of mappings T and T^-1.
 */
module Geometry {

  datatype Vec3 = Vec3(x: real, y: real, z: real)

  /** The "flip y and z" applied at every crossing between the two spaces. */
  function SwapYZ(v: Vec3): Vec3
  {
    Vec3(v.x, v.z, v.y)
  }

  /** An end point rebuilt in the 2D bend plane: (x, z) of a physics point, third coordinate 0. */
  function Planar(v: Vec3): Vec3
  {
    Vec3(v.x, v.z, 0.0)
  }

  /** A base transform: `fwd` is TransformPosition, `inv` is Inverse().TransformPosition. */
  datatype Xform = Xform(fwd: Vec3 -> Vec3, inv: Vec3 -> Vec3)

  /** The one property of a transform the model relies on: its inverse undoes it. */
  ghost predicate Inverts(xf: Xform)
  {
    forall p :: xf.inv(xf.fwd(p)) == p
  }

  /** Animation-space point to physics-space body position (build and kinematic drive). */
  function ToPhysics(xf: Xform, p: Vec3): Vec3
  {
    xf.fwd(SwapYZ(p))
  }

  /** Physics-space body position back to an animation-space start point (read-back). */
  function ToAnim(xf: Xform, q: Vec3): Vec3
  {
    SwapYZ(xf.inv(q))
  }

  lemma SwapYZInvolution(v: Vec3)
    ensures SwapYZ(SwapYZ(v)) == v
  {
  }

  /** Mapping a point into physics space and reading it back yields the point again. */
  lemma AnimPhysicsRoundTrip(xf: Xform, p: Vec3)
    requires Inverts(xf)
    ensures ToAnim(xf, ToPhysics(xf, p)) == p
  {
    SwapYZInvolution(p);
  }

  /** Reading back a body placed at a point gives that point flattened onto its bend plane. */
  lemma PlanarOfPlaced(xf: Xform, p: Vec3)
    requires Inverts(xf)
    ensures Planar(xf.inv(ToPhysics(xf, p))) == Vec3(p.x, p.y, 0.0)
  {
  }
}
