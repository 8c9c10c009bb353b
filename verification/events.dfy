/**
 * The framework's input events and the callback bundle applications
 * register (`EventsCallbacks`). A bundle is a record of handlers that
 * thread the application's state `S`; a handler the application leaves out
 * does nothing.
 */
module Events {

  /** `glm::vec2`, with floats carried as reals. */
  datatype Vec2 = Vec2(x: real, y: real)

  /** `glm::vec3`, with floats carried as reals. */
  datatype Vec3 = Vec3(x: real, y: real, z: real)

  function Sub2(a: Vec2, b: Vec2): Vec2 {
    Vec2(a.x - b.x, a.y - b.y)
  }

  function Add3(a: Vec3, b: Vec3): Vec3 {
    Vec3(a.x + b.x, a.y + b.y, a.z + b.z)
  }

  function Sub3(a: Vec3, b: Vec3): Vec3 {
    Vec3(a.x - b.x, a.y - b.y, a.z - b.z)
  }

  function Scale3(v: Vec3, k: real): Vec3 {
    Vec3(v.x * k, v.y * k, v.z * k)
  }

  function Neg3(v: Vec3): Vec3 {
    Vec3(-v.x, -v.y, -v.z)
  }

  datatype MouseMoveEvent = MouseMoveEvent(position: Vec2)
  datatype MousePressedEvent = MousePressedEvent(position: Vec2, button: int, mods: int)
  datatype MouseReleasedEvent = MouseReleasedEvent(position: Vec2, button: int, mods: int)
  datatype ScrollEvent = ScrollEvent(scroll: real, horizontalScroll: real)
  datatype FramebufferResizedEvent = FramebufferResizedEvent(widthInPixels: int, heightInPixels: int)
  datatype WindowResizedEvent = WindowResizedEvent(widthInScreenCoordinates: int, heightInScreenCoordinates: int)

  /** Any one event, tagged with the handler it is meant for. */
  datatype Event =
    | MouseMoved(moved: MouseMoveEvent)
    | MousePressed(pressed: MousePressedEvent)
    | MouseReleased(released: MouseReleasedEvent)
    | Scrolled(scrolled: ScrollEvent)
    | FramebufferResized(framebuffer: FramebufferResizedEvent)
    | WindowResized(window: WindowResizedEvent)

  /** `EventsCallbacks`: one handler per event kind. */
  datatype EventsCallbacks<!S> = EventsCallbacks(
    onMouseMoved: (S, MouseMoveEvent) -> S,
    onMousePressed: (S, MousePressedEvent) -> S,
    onMouseReleased: (S, MouseReleasedEvent) -> S,
    onScroll: (S, ScrollEvent) -> S,
    onFramebufferResized: (S, FramebufferResizedEvent) -> S,
    onWindowResized: (S, WindowResizedEvent) -> S)

  /** The handler of `cb` that `e` reaches, applied to `s`. */
  function Handle<S>(cb: EventsCallbacks<S>, s: S, e: Event): S {
    match e
    case MouseMoved(m) => cb.onMouseMoved(s, m)
    case MousePressed(p) => cb.onMousePressed(s, p)
    case MouseReleased(r) => cb.onMouseReleased(s, r)
    case Scrolled(sc) => cb.onScroll(s, sc)
    case FramebufferResized(f) => cb.onFramebufferResized(s, f)
    case WindowResized(w) => cb.onWindowResized(s, w)
  }

  /** A default-constructed bundle: every handler is a no-op. */
  function NoOpCallbacks<S(!new)>(): (cb: EventsCallbacks<S>)
    ensures forall s: S, e: Event :: Handle(cb, s, e) == s
  {
    EventsCallbacks((s, _) => s, (s, _) => s, (s, _) => s, (s, _) => s, (s, _) => s, (s, _) => s)
  }

  /**
   * A bundle over `S` run beside a second state `G` that its handlers leave
   * untouched: each lifted handler applies the original to the `S` part.
   */
  function Beside<G(!new), S(!new)>(cb: EventsCallbacks<S>): (r: EventsCallbacks<(G, S)>)
    ensures forall g: G, s: S, e: Event :: Handle(r, (g, s), e) == (g, Handle(cb, s, e))
  {
    EventsCallbacks(
      (gs: (G, S), m) => (gs.0, cb.onMouseMoved(gs.1, m)),
      (gs: (G, S), p) => (gs.0, cb.onMousePressed(gs.1, p)),
      (gs: (G, S), r) => (gs.0, cb.onMouseReleased(gs.1, r)),
      (gs: (G, S), sc) => (gs.0, cb.onScroll(gs.1, sc)),
      (gs: (G, S), f) => (gs.0, cb.onFramebufferResized(gs.1, f)),
      (gs: (G, S), w) => (gs.0, cb.onWindowResized(gs.1, w)))
  }
}
