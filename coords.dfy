// Axis permutation between the host's (x, y, z) frame and the engine's
// (X, Y, Z) frame: `aaron_vec`/`aaron_quat` in io_aaron/save.py and
// `blender_vec`/`blender_quat` in io_aaron/load.py. Components are integers in
// engine units; the /1000, /32767 scale factors and the rounding are not modelled.
module Coords {

  datatype HostVec = HostVec(x: int, y: int, z: int)
  datatype EngineVec = EngineVec(X: int, Y: int, Z: int)
  datatype HostQuat = HostQuat(w: int, x: int, y: int, z: int)
  datatype EngineQuat = EngineQuat(X: int, Y: int, Z: int, W: int)

  const HostZero := HostVec(0, 0, 0)

  function Add(a: HostVec, b: HostVec): HostVec
  {
    HostVec(a.x + b.x, a.y + b.y, a.z + b.z)
  }

  function Sub(a: HostVec, b: HostVec): HostVec
  {
    HostVec(a.x - b.x, a.y - b.y, a.z - b.z)
  }

  /** `aaron_vec`: host (x, y, z) becomes engine {X: y, Y: z, Z: x}. */
  function AaronVec(v: HostVec): EngineVec
  {
    EngineVec(v.y, v.z, v.x)
  }

  /** `aaron_quat`: the same permutation of the vector part, W taken from w. */
  function AaronQuat(q: HostQuat): EngineQuat
  {
    EngineQuat(q.y, q.z, q.x, q.w)
  }

  /** `blender_vec`: engine (X, Y, Z) becomes host (Z, X, Y). */
  function BlenderVec(e: EngineVec): HostVec
  {
    HostVec(e.Z, e.X, e.Y)
  }

  /** `blender_quat`: host (w, x, y, z) = engine (W, Z, X, Y). */
  function BlenderQuat(e: EngineQuat): HostQuat
  {
    HostQuat(e.W, e.Z, e.X, e.Y)
  }

  lemma VecRoundTrip(v: HostVec, e: EngineVec)
    ensures BlenderVec(AaronVec(v)) == v
    ensures AaronVec(BlenderVec(e)) == e
  {
  }

  lemma QuatRoundTrip(q: HostQuat, e: EngineQuat)
    ensures BlenderQuat(AaronQuat(q)) == q
    ensures AaronQuat(BlenderQuat(e)) == e
  {
  }

  /** Reading back a child's saved offset from its parent's saved pivot gives the
      child's own position: parent + (child - parent) == child, through both
      permutations. */
  lemma OffsetRoundTrip(parent: HostVec, child: HostVec)
    ensures Add(BlenderVec(AaronVec(parent)), BlenderVec(AaronVec(Sub(child, parent)))) == child
  {
  }
}
