/** The camera controller of the studio viewer: a fixed camera position set once
    on mount, and a look-at target re-aimed every frame from the pointer to give
    a parallax "looking around" effect. Arithmetic is over the reals. */
module CameraControl {

  datatype Vec3 = Vec3(x: real, y: real, z: real)

  /** The fixed camera position. */
  const FixedPosition: Vec3 := Vec3(30.0, 2.0, -10.0)

  /** The target the camera faces when the pointer is centred. */
  const BaseLookAt: Vec3 := Vec3(38.0, 1.6, -20.0)

  /** How far the target moves per unit of normalised pointer coordinate. */
  const HorizontalSensitivity: real := 15.0
  const VerticalSensitivity: real := 5.0

  /** Normalised pointer coordinates, as the renderer reports them. */
  predicate InViewport(mx: real, my: real) {
    -1.0 <= mx <= 1.0 && -1.0 <= my <= 1.0
  }

  /** The look-at target of one frame: the base target moved by the scaled
      pointer offset, horizontally and vertically, at the studio's depth. */
  function ParallaxTarget(mx: real, my: real): (t: Vec3)
    ensures t.z == BaseLookAt.z
    ensures InViewport(mx, my) ==> 23.0 <= t.x <= 53.0 && -3.4 <= t.y <= 6.6
    ensures mx == 0.0 && my == 0.0 <==> t == BaseLookAt
  {
    Vec3(BaseLookAt.x + mx * HorizontalSensitivity,
         BaseLookAt.y + my * VerticalSensitivity,
         BaseLookAt.z)
  }

  /** The pointer position that aims the camera at `t`: the inverse of the parallax map. */
  function PointerFor(t: Vec3): (real, real) {
    ((t.x - BaseLookAt.x) / HorizontalSensitivity, (t.y - BaseLookAt.y) / VerticalSensitivity)
  }

  /** The target, with the constants written out. */
  lemma ParallaxTargetExplicit(mx: real, my: real)
    ensures ParallaxTarget(mx, my) == Vec3(38.0 + 15.0 * mx, 1.6 + 5.0 * my, -20.0)
  {
  }

  /** The target determines the pointer it came from ... */
  lemma PointerForTarget(mx: real, my: real)
    ensures PointerFor(ParallaxTarget(mx, my)) == (mx, my)
  {
  }

  /** ... and every target at the studio's depth is reached by some pointer. */
  lemma TargetForPointer(t: Vec3)
    requires t.z == BaseLookAt.z
    ensures ParallaxTarget(PointerFor(t).0, PointerFor(t).1) == t
  {
  }

  /** The corner of the viewport at right-bottom, pointer (1, -1). */
  lemma CornerTarget()
    ensures ParallaxTarget(1.0, -1.0) == Vec3(53.0, -3.4, -20.0)
  {
  }

  /** The extremes of the bounds are reached: in the viewport, the target sweeps
      exactly the box [23, 53] x [-3.4, 6.6] at depth -20. */
  lemma TargetBoxExact(t: Vec3)
    requires t.z == BaseLookAt.z && 23.0 <= t.x <= 53.0 && -3.4 <= t.y <= 6.6
    ensures InViewport(PointerFor(t).0, PointerFor(t).1)
    ensures ParallaxTarget(PointerFor(t).0, PointerFor(t).1) == t
  {
    TargetForPointer(t);
  }

  /** The three.js camera, as far as the controller uses it: its position and the
      point it was last aimed at with `lookAt`. */
  class Camera {
    var position: Vec3
    var target: Vec3

    constructor (position: Vec3, target: Vec3)
      ensures this.position == position && this.target == target
    {
      this.position := position;
      this.target := target;
    }

    /** `camera.lookAt(v)`: turns the camera towards `v` and leaves it where it is. */
    method LookAt(v: Vec3)
      modifies this`target
      ensures target == v
      ensures position == old(position)
    {
      target := v;
    }
  }

  /** `CameraController`: owns the camera's position and aim. `vec` is the scratch
      vector it reuses every frame; `position` and `baseLookAt` are its two
      constant vectors. */
  class Controller {
    const camera: Camera
    const position: Vec3 := FixedPosition
    const baseLookAt: Vec3 := BaseLookAt
    var vec: Vec3

    constructor (camera: Camera)
      ensures this.camera == camera
      ensures vec == Vec3(0.0, 0.0, 0.0)
    {
      this.camera := camera;
      vec := Vec3(0.0, 0.0, 0.0);
    }

    /** The mount effect: put the camera at the fixed position and aim it at the base target. */
    method Mount()
      modifies camera
      ensures camera.position == FixedPosition
      ensures camera.target == BaseLookAt
    {
      camera.position := position;
      camera.LookAt(baseLookAt);
    }

    /** The per-frame callback: aim the camera at the target for the current pointer
        `(mx, my)`. The result depends on the pointer alone: neither the previous
        aim nor the scratch vector's previous value enters it. */
    method Tick(mx: real, my: real)
      modifies this`vec, camera`target
      ensures camera.target == ParallaxTarget(mx, my)
      ensures vec == camera.target
      ensures camera.position == old(camera.position)
    {
      var mouseX := mx * HorizontalSensitivity;
      var mouseY := my * VerticalSensitivity;
      var targetX := baseLookAt.x + mouseX;
      var targetY := baseLookAt.y + mouseY;
      vec := Vec3(targetX, targetY, baseLookAt.z);
      camera.LookAt(vec);
    }

    /** The render loop calling `Tick` once per frame, with one pointer reading per
        frame: the position never moves, and after the last frame the camera faces
        that frame's target. */
    method RunFrames(pointer: seq<(real, real)>)
      modifies this`vec, camera`target
      ensures camera.position == old(camera.position)
      ensures pointer == [] ==> camera.target == old(camera.target)
      ensures pointer != [] ==>
        camera.target == ParallaxTarget(pointer[|pointer| - 1].0, pointer[|pointer| - 1].1)
    {
      var k := 0;
      while k < |pointer|
        invariant 0 <= k <= |pointer|
        invariant camera.position == old(camera.position)
        invariant k == 0 ==> camera.target == old(camera.target)
        invariant k > 0 ==> camera.target == ParallaxTarget(pointer[k - 1].0, pointer[k - 1].1)
      {
        Tick(pointer[k].0, pointer[k].1);
        k := k + 1;
      }
    }
  }

  /** Mounting and then rendering any sequence of frames leaves the camera at the
      fixed position. */
  method MountThenRender(camera: Camera, pointer: seq<(real, real)>) returns (c: Controller)
    modifies camera
    ensures c.camera == camera
    ensures camera.position == FixedPosition
    ensures pointer == [] ==> camera.target == BaseLookAt
    ensures pointer != [] ==>
      camera.target == ParallaxTarget(pointer[|pointer| - 1].0, pointer[|pointer| - 1].1)
  {
    c := new Controller(camera);
    c.Mount();
    c.RunFrames(pointer);
  }
}
