/** src/core/Hit.h: what an intersection reports, the ray parameter `t`, the point
  * `p` and the surface normal there. The `element` back-pointer is never set by
  * the shapes and is not modelled. */
module CoreHit {
  import opened CoreVector3

  datatype Hit = Hit(t: real, p: Vector3, normal: Vector3)
}
