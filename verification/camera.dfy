/**
 * `gl::Camera`: an orbit camera whose controller reacts to mouse events.
 * The transform is an opaque matrix `M`; the matrix operations it needs
 * come in as a `MatrixOps<M>` record, so only the controller logic and the
 * look-at bookkeeping are modelled.
 */
module Camera {
  import opened Events

  /** `internal::CameraControllerState`. */
  datatype ControllerState = Idle | Translating | Rotating

  /** `GLFW_MOUSE_BUTTON_LEFT`. */
  const MouseButtonLeft: int := 0

  /** Whether the `GLFW_MOD_SHIFT` bit (bit 0) is set in a modifier mask; for a two's-complement `int` this is its parity. */
  predicate ShiftHeld(mods: int) {
    mods % 2 == 1
  }

  /** The matrix operations from glm the camera uses, left abstract. */
  datatype MatrixOps<!M> = MatrixOps(
    inverse: M -> M,
    lookAt: (Vec3, Vec3, Vec3) -> M,  // `lookAt(eye, target, up)`
    translated: (Vec3, M) -> M,       // `translate(mat4{1}, d) * m`
    rotated: (real, Vec3, M) -> M,    // `rotate(mat4{1}, angle, axis) * m`
    column: (M, nat) -> Vec3,
    normalize: Vec3 -> Vec3,
    power: (real, real) -> real)      // `std::pow`

  datatype Camera<M> = Camera(
    transform: M,
    lookedAt: Vec3,
    state: ControllerState,
    currentButton: int,
    previousMousePos: Vec2)

  /** The controller fields, which only the mouse handlers touch. */
  predicate SameController<M>(a: Camera<M>, b: Camera<M>) {
    a.state == b.state && a.currentButton == b.currentButton && a.previousMousePos == b.previousMousePos
  }

  /** The default eye position, `vec3{5, 1, 2} * 0.2`. */
  const DefaultPosition: Vec3 := Vec3(1.0, 0.2, 0.4)

  /**
   * The constructor: the transform looks from `position` at `lookAt` with
   * +Z up; the controller starts idle with button 0 and last position 0.
   */
  function New<M>(ops: MatrixOps<M>, position: Vec3 := DefaultPosition, lookAt: Vec3 := Vec3(0.0, 0.0, 0.0)): (c: Camera<M>)
    ensures c.lookedAt == lookAt
    ensures c.state == Idle && c.currentButton == 0 && c.previousMousePos == Vec2(0.0, 0.0)
  {
    Camera(ops.inverse(ops.lookAt(position, lookAt, Vec3(0.0, 0.0, 1.0))), lookAt, Idle, 0, Vec2(0.0, 0.0))
  }

  function TransformMatrix<M>(c: Camera<M>): M {
    c.transform
  }

  function ViewMatrix<M>(ops: MatrixOps<M>, c: Camera<M>): M {
    ops.inverse(c.transform)
  }

  /** `set_transform_matrix`: replaces the transform and nothing else. */
  function SetTransformMatrix<M>(c: Camera<M>, m: M): (r: Camera<M>)
    ensures TransformMatrix(r) == m
    ensures r.lookedAt == c.lookedAt && SameController(r, c)
  {
    c.(transform := m)
  }

  /** `set_view_matrix`: the transform becomes the inverse of the view. */
  function SetViewMatrix<M>(ops: MatrixOps<M>, c: Camera<M>, view: M): (r: Camera<M>)
    ensures TransformMatrix(r) == ops.inverse(view)
    ensures r.lookedAt == c.lookedAt && SameController(r, c)
  {
    c.(transform := ops.inverse(view))
  }

  function RightAxis<M>(ops: MatrixOps<M>, c: Camera<M>): Vec3 {
    ops.normalize(ops.column(c.transform, 0))
  }

  function UpAxis<M>(ops: MatrixOps<M>, c: Camera<M>): Vec3 {
    ops.normalize(ops.column(c.transform, 1))
  }

  function FrontAxis<M>(ops: MatrixOps<M>, c: Camera<M>): Vec3 {
    Neg3(ops.normalize(ops.column(c.transform, 2)))
  }

  function Position<M>(ops: MatrixOps<M>, c: Camera<M>): Vec3 {
    ops.column(c.transform, 3)
  }

  /**
   * `translate`: moves the camera by `delta` in world space and, unless told
   * otherwise, the looked-at point with it.
   */
  function Translate<M>(ops: MatrixOps<M>, c: Camera<M>, delta: Vec3, alsoTranslateLookedAtPoint: bool := true): (r: Camera<M>)
    ensures r.transform == ops.translated(delta, c.transform)
    ensures alsoTranslateLookedAtPoint ==> r.lookedAt == Add3(c.lookedAt, delta)
    ensures !alsoTranslateLookedAtPoint ==> r.lookedAt == c.lookedAt
    ensures SameController(r, c)
  {
    var moved := c.(transform := ops.translated(delta, c.transform));
    if alsoTranslateLookedAtPoint then moved.(lookedAt := Add3(c.lookedAt, delta)) else moved
  }

  /** `rotate`: rotates the camera about an axis through the origin. */
  function Rotate<M>(ops: MatrixOps<M>, c: Camera<M>, angle: real, axis: Vec3): (r: Camera<M>)
    ensures r.transform == ops.rotated(angle, axis, c.transform)
    ensures r.lookedAt == c.lookedAt && SameController(r, c)
  {
    c.(transform := ops.rotated(angle, axis, c.transform))
  }

  /**
   * `rotate_around`: translate by `-center`, rotate, translate back, both
   * translations leaving the looked-at point where it is.
   */
  function RotateAround<M>(ops: MatrixOps<M>, c: Camera<M>, center: Vec3, angle: real, axis: Vec3): (r: Camera<M>)
    ensures r.transform == ops.translated(center, ops.rotated(angle, axis, ops.translated(Neg3(center), c.transform)))
    ensures r.lookedAt == c.lookedAt && SameController(r, c)
  {
    var c1 := Translate(ops, c, Neg3(center), false);
    var c2 := Rotate(ops, c1, angle, axis);
    Translate(ops, c2, center, false)
  }

  /** `glm::sign`. */
  function Sign(x: real): real {
    if x > 0.0 then 1.0 else if x < 0.0 then -1.0 else 0.0
  }

  /** The rotation and translation speed per pixel of mouse motion. */
  const Sensitivity: real := 0.003

  /** The world-space move a translating drag of `delta` pixels makes. */
  function DragTranslation<M>(ops: MatrixOps<M>, c: Camera<M>, delta: Vec2): Vec3 {
    Scale3(Sub3(Scale3(RightAxis(ops, c), delta.x), Scale3(UpAxis(ops, c), delta.y)), Sensitivity)
  }

  /**
   * `on_mouse_moved`: always records the new position; rotating orbits
   * around the looked-at point (about +Z, then about the right axis),
   * translating drags camera and looked-at point together, idle does
   * nothing else.
   */
  function OnMouseMoved<M>(ops: MatrixOps<M>, c: Camera<M>, e: MouseMoveEvent): (r: Camera<M>)
    ensures r.previousMousePos == e.position
    ensures r.state == c.state && r.currentButton == c.currentButton
    ensures c.state == Idle ==> r.transform == c.transform && r.lookedAt == c.lookedAt
    ensures c.state == Rotating ==> r.lookedAt == c.lookedAt
    ensures c.state == Translating ==>
              r.lookedAt == Add3(c.lookedAt, DragTranslation(ops, c, Sub2(c.previousMousePos, e.position)))
  {
    var delta := Sub2(c.previousMousePos, e.position);
    var c1 := c.(previousMousePos := e.position);
    match c.state
    case Rotating =>
      var c2 := RotateAround(ops, c1, c1.lookedAt, delta.x * Sensitivity * Sign(UpAxis(ops, c1).z), Vec3(0.0, 0.0, 1.0));
      RotateAround(ops, c2, c2.lookedAt, delta.y * Sensitivity, RightAxis(ops, c2))
    case Translating =>
      Translate(ops, c1, DragTranslation(ops, c1, delta))
    case Idle => c1
  }

  /**
   * `on_mouse_pressed`: ignored unless idle; otherwise records button and
   * position and starts rotating for a plain left click, translating for
   * anything else.
   */
  function OnMousePressed<M>(c: Camera<M>, e: MousePressedEvent): (r: Camera<M>)
    ensures c.state != Idle ==> r == c
    ensures c.state == Idle ==>
              && r.currentButton == e.button && r.previousMousePos == e.position
              && (r.state == Rotating <==> e.button == MouseButtonLeft && !ShiftHeld(e.mods))
              && (r.state == Translating <==> !(e.button == MouseButtonLeft && !ShiftHeld(e.mods)))
    ensures r.transform == c.transform && r.lookedAt == c.lookedAt
  {
    if c.state != Idle then c
    else
      var recorded := c.(currentButton := e.button, previousMousePos := e.position);
      if e.button == MouseButtonLeft && !ShiftHeld(e.mods) then recorded.(state := Rotating)
      else recorded.(state := Translating)
  }

  /** `on_mouse_released`: releasing the recorded button makes the controller idle; any other release is ignored. */
  function OnMouseReleased<M>(c: Camera<M>, e: MouseReleasedEvent): (r: Camera<M>)
    ensures e.button == c.currentButton ==> r == c.(state := Idle)
    ensures e.button != c.currentButton ==> r == c
  {
    if e.button == c.currentButton then c.(state := Idle) else c
  }

  /** The dolly factor of one scroll step. */
  const ScrollBase: real := 0.93

  /**
   * `on_scroll`: ignored unless idle; otherwise moves the camera along the
   * line to the looked-at point, scaling its distance by `0.93^scroll`,
   * and leaves the looked-at point where it is.
   */
  function OnScroll<M>(ops: MatrixOps<M>, c: Camera<M>, e: ScrollEvent): (r: Camera<M>)
    ensures c.state != Idle ==> r == c
    ensures r.lookedAt == c.lookedAt && SameController(r, c)
    ensures c.state == Idle ==>
              var previousDirection := Sub3(Position(ops, c), c.lookedAt);
              var newDirection := Scale3(previousDirection, ops.power(ScrollBase, e.scroll));
              r.transform == ops.translated(Sub3(newDirection, previousDirection), c.transform)
  {
    if c.state != Idle then c
    else
      var previousDirection := Sub3(Position(ops, c), c.lookedAt);
      var newDirection := Scale3(previousDirection, ops.power(ScrollBase, e.scroll));
      Translate(ops, c, Sub3(newDirection, previousDirection), false)
  }

  /** `events_callbacks()`: the bundle that drives this camera; resize events are not handled. */
  function CameraCallbacks<M(!new)>(ops: MatrixOps<M>): (cb: EventsCallbacks<Camera<M>>)
    ensures forall c: Camera<M>, e: FramebufferResizedEvent :: cb.onFramebufferResized(c, e) == c
    ensures forall c: Camera<M>, e: WindowResizedEvent :: cb.onWindowResized(c, e) == c
  {
    EventsCallbacks(
      (c, e) => OnMouseMoved(ops, c, e),
      (c, e) => OnMousePressed(c, e),
      (c, e) => OnMouseReleased(c, e),
      (c, e) => OnScroll(ops, c, e),
      (c, _) => c,
      (c, _) => c)
  }

  /**
   * Across every event: the controller leaves Idle only on a press, and
   * becomes Idle only on a release of the recorded button (or stays Idle);
   * the looked-at point moves only on a translating drag.
   */
  lemma ControllerTransitions<M(!new)>(ops: MatrixOps<M>, c: Camera<M>, e: Event)
    ensures var r := Handle(CameraCallbacks(ops), c, e);
            && (c.state == Idle && r.state != Idle ==> e.MousePressed?)
            && (c.state != Idle && r.state == Idle ==> e.MouseReleased? && e.released.button == c.currentButton)
            && (r.lookedAt != c.lookedAt ==> e.MouseMoved? && c.state == Translating)
            && (r.currentButton != c.currentButton ==> e.MousePressed? && c.state == Idle)
  {
  }

  /**
   * A press followed by the release of the same button, from Idle, returns
   * the controller to Idle with that button recorded and the transform and
   * looked-at point untouched.
   */
  lemma PressReleaseCycle<M>(c: Camera<M>, p: MousePressedEvent, rel: MouseReleasedEvent)
    requires c.state == Idle && rel.button == p.button
    ensures var r := OnMouseReleased(OnMousePressed(c, p), rel);
            && r.state == Idle && r.currentButton == p.button && r.previousMousePos == p.position
            && r.transform == c.transform && r.lookedAt == c.lookedAt
  {
  }
}
