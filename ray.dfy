/** src/core/Ray.h: a ray is an origin and a direction. The callers (Sphere.cc and
  * Matrix4.h) also read a parametric window `minT`/`maxT`, which Ray.h itself does
  * not declare; the model gives the ray those two fields. */
module CoreRay {
  import opened CoreVector3

  datatype Ray = Ray(origin: Vector3, direction: Vector3, minT: real, maxT: real)

  /** The point at parameter `t` along the ray. */
  function PointAt(r: Ray, t: real): Vector3 {
    Add(r.origin, Scale(r.direction, t))
  }
}
