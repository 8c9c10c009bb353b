/**
 * The process-wide context of `opengl-framework.cpp`: the registered
 * callback bundles, frame timing, the native-event fan-out, the OpenGL
 * debug-message callback, and `init`. GLFW itself is outside the model:
 * what it reports (success of initialisation, the clock, polled events,
 * the close flag) comes in as parameters.
 */
module Context {
  import opened Wrappers
  import opened HandleError
  import opened GlState
  import opened Events

  /* ---------------------------------------------------------------- */
  /* Frame timing and callback registration                           */
  /* ---------------------------------------------------------------- */

  /**
   * The registered bundles thread the GL state beside the application's
   * state `S`: a handler may issue GL calls of its own. A bundle that does
   * not is `Beside(cb)` for some `cb: EventsCallbacks<S>`.
   */
  datatype Context<!S> = Context(
    hasWindow: bool,
    eventsCallbacks: seq<EventsCallbacks<(Gl, S)>>,
    lastTime: real,
    deltaTime: real,
    isFirstFrame: bool)

  /** The context before `init`: no window, no bundle, times 0, first frame ahead. */
  function Initial<S>(): (ctx: Context<S>)
    ensures !ctx.hasWindow && ctx.eventsCallbacks == [] && ctx.deltaTime == 0.0 && ctx.isFirstFrame
  {
    Context(false, [], 0.0, 0.0, true)
  }

  /** `set_events_callbacks`: the new list replaces the old one as a whole. */
  function SetEventsCallbacks<S>(ctx: Context<S>, callbacks: seq<EventsCallbacks<(Gl, S)>>): (r: Context<S>)
    ensures r.eventsCallbacks == callbacks
    ensures r == ctx.(eventsCallbacks := r.eventsCallbacks)
  {
    ctx.(eventsCallbacks := callbacks)
  }

  /* ---------------------------------------------------------------- */
  /* Native events                                                    */
  /* ---------------------------------------------------------------- */

  /** `GLFW_RELEASE` and `GLFW_PRESS`. */
  const Release: int := 0
  const Press: int := 1

  /**
   * What GLFW hands the native callbacks. A mouse-button event also carries
   * the cursor position `glfwGetCursorPos` reports while it is handled.
   */
  datatype NativeEvent =
    | CursorPos(xPos: real, yPos: real)
    | MouseButton(button: int, action: int, mods: int, cursor: Vec2)
    | ScrollOffset(xOffset: real, yOffset: real)
    | FramebufferSize(widthInPixels: int, heightInPixels: int)
    | WindowSize(widthInScreenCoordinates: int, heightInScreenCoordinates: int)

  /** The mouse-button callback asserts that a non-press action is a release. */
  predicate WellFormedNative(n: NativeEvent) {
    n.MouseButton? ==> n.action == Press || n.action == Release
  }

  /**
   * The framework event a native callback builds: a press goes to
   * `on_mouse_pressed` and a release to `on_mouse_released`; scrolling
   * passes the vertical offset as `scroll` and the horizontal one as
   * `horizontal_scroll`.
   */
  function ToEvent(n: NativeEvent): (e: Event)
    requires WellFormedNative(n)
    ensures n.CursorPos? <==> e.MouseMoved?
    ensures n.MouseButton? && n.action == Press <==> e.MousePressed?
    ensures n.MouseButton? && n.action == Release <==> e.MouseReleased?
    ensures n.ScrollOffset? <==> e.Scrolled?
    ensures n.FramebufferSize? <==> e.FramebufferResized?
    ensures n.WindowSize? <==> e.WindowResized?
    ensures n.MouseButton? && e.MousePressed? ==> e.pressed == MousePressedEvent(n.cursor, n.button, n.mods)
    ensures n.MouseButton? && e.MouseReleased? ==> e.released == MouseReleasedEvent(n.cursor, n.button, n.mods)
    ensures n.ScrollOffset? ==> e.scrolled.scroll == n.yOffset && e.scrolled.horizontalScroll == n.xOffset
    ensures n.CursorPos? ==> e.moved.position == Vec2(n.xPos, n.yPos)
  {
    match n
    case CursorPos(x, y) => MouseMoved(MouseMoveEvent(Vec2(x, y)))
    case MouseButton(button, action, mods, cursor) =>
      if action == Press then MousePressed(MousePressedEvent(cursor, button, mods))
      else MouseReleased(MouseReleasedEvent(cursor, button, mods))
    case ScrollOffset(x, y) => Scrolled(ScrollEvent(y, x))
    case FramebufferSize(w, h) => FramebufferResized(FramebufferResizedEvent(w, h))
    case WindowSize(w, h) => WindowResized(WindowResizedEvent(w, h))
  }

  /** Every bundle, in list order, handles the event; each sees the state the previous one left. */
  function FanOut<S>(bundles: seq<EventsCallbacks<S>>, s: S, e: Event): S
    decreases |bundles|
  {
    if |bundles| == 0 then s else FanOut(bundles[1..], Handle(bundles[0], s, e), e)
  }

  /** Fan-out over a concatenation is fan-out over the first list, then over the second. */
  lemma {:induction false} FanOutInOrder<S>(a: seq<EventsCallbacks<S>>, b: seq<EventsCallbacks<S>>, s: S, e: Event)
    ensures FanOut(a + b, s, e) == FanOut(b, FanOut(a, s, e), e)
    decreases |a|
  {
    if |a| > 0 {
      assert (a + b)[0] == a[0] && (a + b)[1..] == a[1..] + b;
      FanOutInOrder(a[1..], b, Handle(a[0], s, e), e);
    } else {
      assert a + b == b;
    }
  }

  /** Each bundle's handler runs exactly once: a list of one is that bundle's handler. */
  lemma FanOutSingle<S>(cb: EventsCallbacks<S>, s: S, e: Event)
    ensures FanOut([cb], s, e) == Handle(cb, s, e)
  {
    assert [cb][1..] == [];
  }

  /** Bundles that ignore every event leave the state unchanged. */
  lemma {:induction false} FanOutNoOp<S(!new)>(n: nat, s: S, e: Event)
    ensures FanOut(seq(n, _ => NoOpCallbacks<S>()), s, e) == s
  {
    if n > 0 {
      var bs := seq(n, _ => NoOpCallbacks<S>());
      assert bs[1..] == seq(n - 1, _ => NoOpCallbacks<S>());
      FanOutNoOp(n - 1, s, e);
    }
  }

  /** A bundle whose handlers issue no GL call: every handler hands the GL state back as it got it. */
  ghost predicate GlFree<S(!new)>(cb: EventsCallbacks<(Gl, S)>) {
    forall g: Gl, s: S, e: Event :: Handle(cb, (g, s), e).0 == g
  }

  ghost predicate AllGlFree<S(!new)>(bundles: seq<EventsCallbacks<(Gl, S)>>) {
    forall i :: 0 <= i < |bundles| ==> GlFree(bundles[i])
  }

  /** A bundle lifted with `Beside` issues no GL call. */
  lemma BesideIsGlFree<S(!new)>(cb: EventsCallbacks<S>)
    ensures GlFree(Beside<Gl, S>(cb))
  {
  }

  /**
   * Fan-out through bundles that issue no GL call hands back the GL state
   * it got, and runs the bundles' own handlers on the application state.
   */
  lemma {:induction false} FanOutKeepsGl<S(!new)>(bundles: seq<EventsCallbacks<(Gl, S)>>, g: Gl, s: S, e: Event)
    ensures AllGlFree(bundles) ==> FanOut(bundles, (g, s), e).0 == g
    decreases |bundles|
  {
    if |bundles| > 0 && AllGlFree(bundles) {
      var gs := Handle(bundles[0], (g, s), e);
      assert GlFree(bundles[0]);
      assert gs.0 == g;
      assert AllGlFree(bundles[1..]) by {
        forall i | 0 <= i < |bundles[1..]| ensures GlFree(bundles[1..][i]) {
          assert bundles[1..][i] == bundles[i + 1];
        }
      }
      FanOutKeepsGl(bundles[1..], g, gs.1, e);
    }
  }

  /**
   * A native callback: the framebuffer-size callback first sets the
   * viewport to the new size; then the event goes to every bundle, which
   * sees that viewport. The framework itself changes nothing else: when
   * no bundle issues a GL call, a resize changes only the viewport and any
   * other event leaves the GL state as it was.
   */
  function Dispatch<S(!new)>(bundles: seq<EventsCallbacks<(Gl, S)>>, gl: Gl, s: S, n: NativeEvent): (r: (Gl, S))
    requires WellFormedNative(n)
    ensures n.FramebufferSize? ==>
              r == FanOut(bundles, (gl.(viewport := Viewport(0, 0, n.widthInPixels, n.heightInPixels)), s), ToEvent(n))
    ensures !n.FramebufferSize? ==> r == FanOut(bundles, (gl, s), ToEvent(n))
    ensures AllGlFree(bundles) && n.FramebufferSize? ==>
              r.0 == gl.(viewport := Viewport(0, 0, n.widthInPixels, n.heightInPixels))
    ensures AllGlFree(bundles) && !n.FramebufferSize? ==> r.0 == gl
  {
    var gl' := if n.FramebufferSize? then gl.(viewport := Viewport(0, 0, n.widthInPixels, n.heightInPixels)) else gl;
    FanOutKeepsGl(bundles, gl', s, ToEvent(n));
    FanOut(bundles, (gl', s), ToEvent(n))
  }

  /**
   * The events `glfwPollEvents` delivers, one after the other. When no
   * bundle issues a GL call, only the viewport changes: not at all without
   * a resize, and to the last size when the last event is a resize.
   */
  function DispatchAll<S(!new)>(bundles: seq<EventsCallbacks<(Gl, S)>>, gl: Gl, s: S, events: seq<NativeEvent>): (r: (Gl, S))
    requires forall i :: 0 <= i < |events| ==> WellFormedNative(events[i])
    ensures AllGlFree(bundles) ==> r.0 == gl.(viewport := r.0.viewport)
    ensures AllGlFree(bundles) && (forall i :: 0 <= i < |events| ==> !events[i].FramebufferSize?) ==> r.0 == gl
    ensures AllGlFree(bundles) && |events| > 0 && events[|events| - 1].FramebufferSize? ==>
              r.0.viewport == Viewport(0, 0, events[|events| - 1].widthInPixels, events[|events| - 1].heightInPixels)
    decreases |events|
  {
    if |events| == 0 then (gl, s)
    else
      var (gl1, s1) := Dispatch(bundles, gl, s, events[0]);
      DispatchAll(bundles, gl1, s1, events[1..])
  }

  /**
   * `window_is_open`: requires `init`. The delta is the time since the
   * previous call, except on the first call, which leaves it as it was; the
   * last time is always updated. Buffers are swapped and events polled (and
   * delivered), then the first frame is over; the loop goes on while the
   * window is not asked to close.
   */
  function WindowIsOpen<S(!new)>(ctx: Context<S>, gl: Gl, s: S, time: real, polled: seq<NativeEvent>, shouldClose: bool)
    : (r: (Context<S>, Gl, S, bool))
    requires ctx.hasWindow
    requires forall i :: 0 <= i < |polled| ==> WellFormedNative(polled[i])
    ensures ctx.isFirstFrame ==> r.0.deltaTime == ctx.deltaTime
    ensures !ctx.isFirstFrame ==> r.0.deltaTime == time - ctx.lastTime
    ensures r.0.lastTime == time && !r.0.isFirstFrame
    ensures r.0.hasWindow && r.0.eventsCallbacks == ctx.eventsCallbacks
    ensures (r.1, r.2) == DispatchAll(ctx.eventsCallbacks, gl, s, polled)
    ensures r.3 <==> !shouldClose
  {
    var ctx1 := if !ctx.isFirstFrame then ctx.(deltaTime := time - ctx.lastTime) else ctx;
    var ctx2 := ctx1.(lastTime := time);
    var (gl', s') := DispatchAll(ctx2.eventsCallbacks, gl, s, polled);
    (ctx2.(isFirstFrame := false), gl', s', !shouldClose)
  }

  /** The context after one `window_is_open` per time in `times`, with no events. */
  function Frames<S(!new)>(ctx: Context<S>, gl: Gl, s: S, times: seq<real>): (r: Context<S>)
    requires ctx.hasWindow
    ensures r.hasWindow
    decreases |times|
  {
    if |times| == 0 then ctx
    else Frames(WindowIsOpen(ctx, gl, s, times[0], [], false).0, gl, s, times[1..])
  }

  /**
   * From a fresh context, after frames at times t0, …, tn the delta time is
   * tn - t(n-1), or 0 after only one frame, and the last time is tn.
   */
  lemma {:induction false} DeltaTimeIsFrameInterval<S(!new)>(ctx: Context<S>, gl: Gl, s: S, times: seq<real>)
    requires ctx.hasWindow && ctx.isFirstFrame && ctx.deltaTime == 0.0 && |times| >= 1
    ensures var r := Frames(ctx, gl, s, times);
            && r.lastTime == times[|times| - 1] && !r.isFirstFrame
            && r.deltaTime == (if |times| == 1 then 0.0 else times[|times| - 1] - times[|times| - 2])
  {
    FramesLater(WindowIsOpen(ctx, gl, s, times[0], [], false).0, gl, s, times[0], times[1..]);
  }

  lemma {:induction false} FramesLater<S(!new)>(ctx: Context<S>, gl: Gl, s: S, previous: real, times: seq<real>)
    requires ctx.hasWindow && !ctx.isFirstFrame && ctx.lastTime == previous
    requires |times| == 0 ==> ctx.deltaTime == 0.0
    ensures var r := Frames(ctx, gl, s, times);
            var all := [previous] + times;
            && r.lastTime == all[|all| - 1] && !r.isFirstFrame
            && (|times| == 0 ==> r.deltaTime == 0.0)
            && (|times| >= 1 ==> r.deltaTime == all[|all| - 1] - all[|all| - 2])
    decreases |times|
  {
    if |times| > 0 {
      var next := WindowIsOpen(ctx, gl, s, times[0], [], false).0;
      if |times| == 1 {
        assert Frames(next, gl, s, times[1..]) == next;
      } else {
        FramesLater(next, gl, s, times[0], times[1..]);
        assert ([times[0]] + times[1..]) == times;
      }
    }
  }

  /* ---------------------------------------------------------------- */
  /* init                                                             */
  /* ---------------------------------------------------------------- */

  /** What GLFW and glad report during `init`. */
  datatype Platform = Platform(glfwInitialises: bool, windowCreated: bool, gladLoads: bool)

  /**
   * `init`: must be called once, before anything else. Each platform
   * failure, in order, is fatal; on success the window exists and nothing
   * else changes.
   */
  function Init<S>(ctx: Context<S>, platform: Platform): (r: Result<Context<S>>)
    requires !ctx.hasWindow
    ensures r.Success? <==> platform.glfwInitialises && platform.windowCreated && platform.gladLoads
    ensures !platform.glfwInitialises ==> r == Failure(GlfwInitFailed)
    ensures platform.glfwInitialises && !platform.windowCreated ==> r == Failure(WindowCreationFailed)
    ensures platform.glfwInitialises && platform.windowCreated && !platform.gladLoads ==> r == Failure(GladInitFailed)
    ensures r.Success? ==> r.value == ctx.(hasWindow := true)
  {
    if !platform.glfwInitialises then Failure(GlfwInitFailed)
    else if !platform.windowCreated then Failure(WindowCreationFailed)
    else if !platform.gladLoads then Failure(GladInitFailed)
    else Success(ctx.(hasWindow := true))
  }

  /* ---------------------------------------------------------------- */
  /* The OpenGL debug-message callback                                */
  /* ---------------------------------------------------------------- */

  datatype DebugSource = Api | WindowSystem | ShaderCompiler | ThirdParty | Application | OtherSource | UnknownSource(code: nat)

  datatype DebugType =
    | ErrorType | DeprecatedBehavior | UndefinedBehavior | Portability | Performance
    | Marker | PushGroup | PopGroup | OtherType | UnknownType(code: nat)

  datatype DebugSeverity = High | Medium | Low | Notification | UnknownSeverity(code: nat)

  datatype DebugMessage = DebugMessage(source: DebugSource, messageType: DebugType, id: nat, severity: DebugSeverity, text: string)

  /** Driver message ids that are never reported. */
  const IgnoredIds: set<nat> := {131169, 131185, 131218, 131204}

  /** Messages of these kinds are fatal; all others are printed. */
  predicate IsFatal(m: DebugMessage) {
    m.messageType == ErrorType || m.messageType == UndefinedBehavior || m.severity == High
  }

  function SourceLine(s: DebugSource): string {
    match s
    case Api => "\n\nSource: API"
    case WindowSystem => "\n\nSource: Window System"
    case ShaderCompiler => "\n\nSource: Shader Compiler"
    case ThirdParty => "\n\nSource: Third Party"
    case Application => "\n\nSource: Application"
    case OtherSource => "\n\nSource: Other"
    case UnknownSource(_) => "\n\nSource: Unknown"
  }

  function TypeLine(t: DebugType): string {
    match t
    case ErrorType => "\nType: Error"
    case DeprecatedBehavior => "\nType: Deprecated Behaviour"
    case UndefinedBehavior => "\nType: Undefined Behaviour"
    case Portability => "\nType: Portability"
    case Performance => "\nType: Performance"
    case Marker => "\nType: Marker"
    case PushGroup => "\nType: Push Group"
    case PopGroup => "\nType: Pop Group"
    case OtherType => "\nType: Other"
    case UnknownType(_) => "\nType: Unknown"
  }

  function SeverityLine(s: DebugSeverity): string {
    match s
    case High => "\nSeverity: High"
    case Medium => "\nSeverity: Medium"
    case Low => "\nSeverity: Low"
    case Notification => "\nSeverity: Notification"
    case UnknownSeverity(_) => "\nSeverity: Unknown"
  }

  /** The decimal digit for 0 … 9. */
  function DigitChar(d: nat): char
    requires d < 10
  {
    "0123456789"[d]
  }

  /** `std::format("{}", n)` for an unsigned id: its decimal digits, most significant first. */
  function DecimalString(n: nat): (r: string)
    ensures |r| >= 1 && forall i :: 0 <= i < |r| ==> '0' <= r[i] <= '9'
    decreases n
  {
    if n < 10 then [DigitChar(n)] else DecimalString(n / 10) + [DigitChar(n % 10)]
  }

  /** Reads decimal digits back. */
  function ParseDecimal(s: string): nat
    requires forall i :: 0 <= i < |s| ==> '0' <= s[i] <= '9'
    decreases |s|
  {
    if |s| == 0 then 0 else 10 * ParseDecimal(s[..|s| - 1]) + (s[|s| - 1] as int - '0' as int)
  }

  /** The decimal rendering of an id loses nothing. */
  lemma {:induction false} DecimalRoundTrip(n: nat)
    ensures ParseDecimal(DecimalString(n)) == n
    decreases n
  {
    var s := DecimalString(n);
    if n < 10 {
      assert s[..|s| - 1] == [];
    } else {
      DecimalRoundTrip(n / 10);
      assert s[..|s| - 1] == DecimalString(n / 10);
    }
  }

  /** The text of a reported message. */
  function DebugText(m: DebugMessage): string {
    "[OpenGL] Debug message (id=" + DecimalString(m.id) + ")\n" + m.text
      + SourceLine(m.source) + TypeLine(m.messageType) + SeverityLine(m.severity)
  }

  /** What the callback does with a message it does not fail on. */
  datatype Report = Silent | Printed(message: string)

  /**
   * `opengl_debug_callback`, with its process-wide list of seen ids:
   * ignored ids and ids already seen are dropped; any other id is recorded,
   * and its message is fatal or printed according to type and severity.
   */
  function DebugCallback(seen: seq<nat>, m: DebugMessage): (r: Result<(seq<nat>, Report)>)
    ensures m.id in IgnoredIds || m.id in seen ==> r == Success((seen, Silent))
    ensures m.id !in IgnoredIds && m.id !in seen ==>
              && (r.Failure? <==> IsFatal(m))
              && (r.Failure? ==> r.error == OpenGlDebugMessage(DebugText(m)))
              && (r.Success? ==> r.value == (seen + [m.id], Printed(DebugText(m))))
  {
    if m.id in IgnoredIds then Success((seen, Silent))
    else if m.id in seen then Success((seen, Silent))
    else
      var seen' := seen + [m.id];
      var message := DebugText(m);
      if IsFatal(m) then Failure(OpenGlDebugMessage(message))
      else Success((seen', Printed(message)))
  }

  /**
   * A stream of debug messages: the final seen list, the ids whose message
   * was printed, in order, and the fatal error that ended the stream, if
   * any. The source records a fatal message's id before it throws; since a
   * `Failure` carries no state, the list returned after a fatal message is
   * the one from before it.
   */
  function DebugStream(seen: seq<nat>, ms: seq<DebugMessage>): (r: (seq<nat>, seq<nat>, Option<Error>))
    decreases |ms|
  {
    if |ms| == 0 then (seen, [], None)
    else
      match DebugCallback(seen, ms[0])
      case Failure(e) => (seen, [], Some(e))
      case Success((seen1, report)) =>
        var (seen2, printed, fatal) := DebugStream(seen1, ms[1..]);
        (seen2, (if report.Printed? then [ms[0].id] else []) + printed, fatal)
  }

  /**
   * Each id is reported at most once: over any stream, the printed ids are
   * pairwise distinct, none is an ignored id, none had been seen before,
   * and all of them are in the final seen list.
   */
  lemma {:induction false} ReportedAtMostOnce(seen: seq<nat>, ms: seq<DebugMessage>)
    ensures var (seen', printed, _) := DebugStream(seen, ms);
            && Distinct(printed)
            && (forall i :: 0 <= i < |printed| ==> printed[i] !in IgnoredIds && printed[i] !in seen && printed[i] in seen')
    decreases |ms|
  {
    if |ms| > 0 {
      match DebugCallback(seen, ms[0])
      case Failure(_) =>
      case Success((seen1, report)) =>
        ReportedAtMostOnce(seen1, ms[1..]);
        StreamSeenGrows(seen1, ms[1..]);
    }
  }

  /** The seen list only grows. */
  lemma {:induction false} StreamSeenGrows(seen: seq<nat>, ms: seq<DebugMessage>)
    ensures forall x :: x in seen ==> x in DebugStream(seen, ms).0
    decreases |ms|
  {
    if |ms| > 0 {
      match DebugCallback(seen, ms[0])
      case Failure(_) =>
      case Success((seen1, report)) =>
        StreamSeenGrows(seen1, ms[1..]);
    }
  }
}
