# opengl-framework, modelled in Dafny

The framework is a thin C++ layer over OpenGL and GLFW. It provides:

- meshes built from vertex-buffer descriptors;
- move-only RAII wrappers around OpenGL object names (textures, programs, shader modules, framebuffers);
- shaders with a uniform-location memo and typed uniform setters;
- render targets (a framebuffer with colour and depth/stencil textures);
- an orbit camera driven by mouse events;
- a process-wide context that fans native events out to registered callback bundles, keeps frame timing and filters OpenGL debug messages.

The model replaces the driver by an abstract state record. It has two parts:

- `Names.Store`: the set of live object names, the next fresh name, and a count of deletes of non-live names;
- `GlState.Gl`: the store plus current program, attachments, linked modules, active texture unit, bound textures, uniform writes, framebuffer bindings, viewport and framebuffer attachments.

Every framework operation becomes a pure function or method on that record. The framework's error paths are modelled as follows:

- An `assert` becomes a `requires`.
- `handle_error`, which prints and throws, becomes a `Failure(Error)` result (module `HandleError`).
- A bounds-checked `.at` becomes an `Option`.

Application callbacks (the handlers of an event bundle and `render`'s callback) receive the GL state and hand it back, since they may issue GL calls of their own.

The driver's own judgements are parameters:

- whether a module compiles or two modules link, and their logs;
- what a shader file contains;
- the framebuffer completeness status;
- the clock, the events a poll delivers, and whether the window should close;
- whether GLFW and glad initialise.

Files, one module each:

| file | module | what it holds |
|---|---|---|
| `wrappers.dfy` | `Wrappers`, `HandleError` | `Option`, `Distinct`, `Elements`; the fatal-error outcome `Result` |
| `names.dfy` | `Names` | the name store, generate/delete, the exclusive-ownership invariant |
| `unique_handle.dfy` | `UniqueHandle` | `UniqueTexture`/`UniqueShader`/`UniqueFramebuffer`/shader-module ownership |
| `vertex_layout.dfy` | `VertexLayout` | attribute kinds, sizes, stride and offsets |
| `mesh.dfy` | `Mesh` | mesh construction, draw, destructor and moves |
| `gl_state.dfy` | `GlState` | the abstract OpenGL context state |
| `texture.dfy` | `Texture` | format enums, options and sources, empty-texture creation |
| `shader.dfy` | `Shader` | compile/link flow, uniform memo, setters, texture-unit allocator |
| `render_target.dfy` | `RenderTarget` | attachment points, status names, `render`, `create_attachments`, `resize` |
| `events.dfy` | `Events` | event structs and the callback bundle |
| `camera.dfy` | `Camera` | the camera controller state machine |
| `context.dfy` | `Context` | context, native-event fan-out, frame timing, `init`, debug callback |

## Model

| member | source | states |
|---|---|---|
| Names.Generate | opengl-framework/src/Texture.hpp:304-307 | a generated name is non-zero and was not live; the live set grows by exactly that name; no delete is recorded |
| Names.GenerateMany | opengl-framework/src/Mesh.cpp:41-42 | `glGenBuffers(n, …)` yields n pairwise distinct, non-zero, previously non-live names, and the live set grows by exactly them |
| Names.Delete | opengl-framework/src/Texture.hpp:308-311 | deleting 0 changes nothing; deleting a live name removes exactly it; deleting any other name is counted as a stale (double) delete |
| Names.DeleteMany | opengl-framework/src/Mesh.cpp:91-92 | deleting distinct live names removes exactly them and records no stale delete; the stale count never decreases |
| UniqueHandle.Construct | opengl-framework/src/Shader.hpp:16-18 | a new wrapper owns one fresh non-zero name; the live set grows by exactly it; ownership stays exclusive |
| UniqueHandle.MoveConstruct | opengl-framework/src/Texture.hpp:314-318 | the new wrapper takes the source's name, the source holds 0, no other wrapper and no name changes |
| UniqueHandle.MoveAssign | opengl-framework/src/Texture.hpp:319-328 | a self-move changes nothing; otherwise the destination's old name is deleted (and is no longer live), it takes the source's name, the source holds 0, and no stale delete happens |
| UniqueHandle.Destroy | opengl-framework/src/Shader.hpp:19-22 | the destructor releases exactly the owned name; a moved-from wrapper deletes nothing |
| UniqueHandle.Run | opengl-framework/src/RenderTarget.hpp:9-42 | any program of constructions, moves and destructions keeps ownership exclusive and records no stale delete |
| UniqueHandle.NoDoubleDeleteNoLeak | opengl-framework/src/Shader.cpp:42-75 | from an empty heap no name is ever deleted twice, and once every wrapper is gone no name is left live |
| UniqueHandle.MovedFromOwnsNothing | opengl-framework/src/Shader.hpp:30-39 | after a move-assign the source owns no name and destroying it leaves the store unchanged |
| VertexLayout.ComponentCount | opengl-framework/src/Mesh.hpp:23-70 | every attribute kind has 1 to 4 components |
| VertexLayout.KindIsSizeAndType | opengl-framework/src/Mesh.hpp:80-88 | the eight kinds are exactly the pairs (GL_FLOAT or GL_INT, 1..4 components): size and type identify the kind, and every pair has one |
| VertexLayout.SizeInBytes | opengl-framework/src/Mesh.cpp:20-23 | an attribute takes 4 to 16 bytes, a multiple of 4 |
| VertexLayout.StrideIsFourBytesPerComponent | opengl-framework/src/Mesh.cpp:48-50 | the accumulated stride is 4 bytes per component of a vertex |
| VertexLayout.StridePositive | opengl-framework/src/Mesh.cpp:48-53 | the stride is 0 exactly for an empty layout (the division hazard), otherwise at least 4, and always a multiple of 4 |
| VertexLayout.OffsetStep | opengl-framework/src/Mesh.cpp:59-65 | each attribute's offset is the previous offset plus the previous attribute's size |
| VertexLayout.OffsetsTileTheStride | opengl-framework/src/Mesh.cpp:59-65 | offsets are prefix sums: every attribute lies inside the stride, two attributes never overlap, and the offset past the end is the stride |
| VertexLayout.AttribPointers | opengl-framework/src/Mesh.cpp:48-65 | one `glVertexAttribPointer` per attribute in order, each with the attribute's index, size and type, not normalised, the buffer's stride and its prefix-sum offset; the running pointer ends at the stride |
| VertexLayout.DemoLayout | src/main.cpp:32 | the layout [Position3D, UV] has stride 20 and puts UV at byte 12 |
| Mesh.Layouts | opengl-framework/src/Mesh.cpp:25-67 | the triangle count is the index count over 3, or without indices every buffer's inferred count; each buffer gets its stride and prefix-sum offsets |
| Mesh.DefaultMesh | opengl-framework/src/Mesh.hpp:112-116 | a default mesh has zero handles, no vertex buffers and no triangles |
| Mesh.Draw | opengl-framework/src/Mesh.cpp:79-86 | draw binds the mesh's vertex array and draws `3 * triangles_count` vertices; the call is indexed exactly when the index-buffer handle is non-zero, and otherwise starts at 0 |
| Mesh.Create | opengl-framework/src/Mesh.cpp:25-77 | the mesh gets a fresh vertex array, one fresh buffer per vertex buffer, and an index buffer exactly when indices are given; its triangle count comes from the descriptor; the live set grows by exactly its names |
| Mesh.Release | opengl-framework/src/Mesh.cpp:88-94 | the destructor's deletions remove exactly the mesh's names, with no stale delete |
| Mesh.MovedFrom | opengl-framework/src/Mesh.cpp:102-104 | a moved-from mesh owns no name |
| Mesh.MoveConstruct | opengl-framework/src/Mesh.cpp:96-105 | all handles and the count transfer; the source owns nothing afterwards and keeps its count; the store is unchanged |
| Mesh.MoveAssign | opengl-framework/src/Mesh.cpp:107-128 | a self-move changes nothing; otherwise the destination's old names are deleted first and are no longer live, then everything transfers and the source is zeroed; no stale delete |
| Mesh.Replace | opengl-framework/src/Mesh.cpp:111-125 | the body of a non-self move-assign releases exactly the destination's names and transfers the source's handles |
| Mesh.Destroy | opengl-framework/src/Mesh.cpp:88-94 | destroying a mesh removes it and exactly its names from the live set, with no stale delete |
| Mesh.DestroyMovedFrom | opengl-framework/src/Mesh.cpp:88-128 | destroying a moved-from mesh deletes nothing |
| Mesh.DrawCoversDescriptor | opengl-framework/src/Mesh.cpp:29-86 | a constructed mesh draws exactly its index buffer, or without indices the whole triangles of every vertex buffer (fewer than three vertices dropped) |
| Mesh.TestCubeHasTwelveTriangles | opengl-framework/tests/main.cpp:17-54 | eight Position3D vertices with 36 indices make a valid descriptor of 12 triangles |
| GlState.SetUniform | opengl-framework/src/Shader.cpp:140-144 | a write to location -1 is ignored; any other write appends exactly one write for the current program; nothing else changes |
| Texture.DefaultOptions | opengl-framework/src/Texture.hpp:363-369 | default options are linear filtering, clamp-to-edge on both axes and a zero border colour |
| Texture.FileSource | opengl-framework/src/Texture.hpp:338-342 | a file source defaults to flipped Y and RGBA storage |
| Texture.PixelsSource | opengl-framework/src/Texture.hpp:343-350 | a pixels source defaults to size 0x0, unsigned bytes, RGBA source format and RGBA storage |
| Texture.EmptyImageSource | opengl-framework/src/Texture.hpp:351-355 | an empty-image source defaults to size 0x0 and RGBA8 storage |
| Texture.ColorToSized | opengl-framework/src/RenderTarget.cpp:40 | the cast keeps the colour enumerator |
| Texture.DepthStencilToSized | opengl-framework/src/RenderTarget.cpp:52 | the cast keeps the depth/stencil enumerator |
| Texture.AttachmentFormatsPartitionSized | opengl-framework/src/Texture.hpp:98-243 | both attachment enums embed in the sized enum and the casts invert; every sized format is exactly one of a colour or a depth/stencil format |
| Texture.CreateEmptyTexture | opengl-framework/src/Texture.cpp:25-28 | a texture gets a fresh non-zero name bound on the active unit, with the requested size, format and options; nothing else changes |
| Shader.CompileModule | opengl-framework/src/Shader.cpp:11-48 | a module succeeds exactly when it compiles; a failure carries the compiler log and the code; success adds one fresh name |
| Shader.Construct | opengl-framework/src/Shader.cpp:96-106 | the shader succeeds exactly when both modules compile and link; each failure (vertex, fragment, link, in that order) gives its own fatal error; on success the program is fresh, was linked with two modules that are detached and deleted again, and the memo is empty |
| Shader.Bind | opengl-framework/src/Shader.cpp:119-122 | bind makes the program current and changes nothing else |
| Shader.UniformLocation | opengl-framework/src/Shader.cpp:124-138 | a memoised name is answered from the memo without asking the driver; any other name is asked once and memoised |
| Shader.UniformLocationMemo | opengl-framework/src/Shader.cpp:124-138 | a memo that agrees with the driver keeps agreeing; existing entries never change; a lookup answers what the driver would; a repeated lookup is a memo hit with the same location |
| Shader.SetUniform | opengl-framework/src/Shader.cpp:153-202 | a typed setter requires the shader to be bound and writes the value to the driver's location for the name, or nowhere when there is no such uniform; no other GL state changes |
| Shader.SetUniformInt | opengl-framework/src/Shader.cpp:140-144 | the int setter writes the int to the name's location |
| Shader.UnsignedToInt | opengl-framework/src/Shader.cpp:147 | the cast gives an int32 congruent to the value modulo 2^32 |
| Shader.SetUniformUnsigned | opengl-framework/src/Shader.cpp:145-148 | the unsigned setter writes the value reinterpreted as a 32-bit int through the int setter |
| Shader.SetUniformBool | opengl-framework/src/Shader.cpp:149-152 | the bool setter writes 1 or 0 through the int setter |
| Shader.NextTextureSlot | opengl-framework/src/Shader.cpp:211-220 | every unit handed out is in [1, max_slots - 1], never 0 |
| Shader.NextSlotStep | opengl-framework/src/Shader.cpp:216-218 | the allocator steps up by one below the last unit and wraps to 1 from it |
| Shader.SlotsCountUp | opengl-framework/src/Shader.cpp:211-220 | from a fresh allocator, call k hands out unit k for k below max_slots |
| Shader.SlotsCycle | opengl-framework/src/Shader.cpp:211-220 | afterwards the units cycle 1, …, max_slots - 1 with period max_slots - 1 |
| Shader.SetUniformTexture | opengl-framework/src/Shader.cpp:222-229 | the texture is bound on the next (non-zero) unit, the uniform receives that unit through the unsigned setter, and unit 0 is active afterwards; nothing else in the GL state changes (names, current program, framebuffers, viewport, attachments) |
| RenderTarget.AttachmentType | opengl-framework/src/RenderTarget.cpp:8-22 | total over the six formats: depth-only formats go to DEPTH, Stencil8 to STENCIL, combined formats to DEPTH_STENCIL |
| RenderTarget.StatusName | opengl-framework/src/RenderTarget.cpp:61-83 | every named incomplete status gets a "FRAMEBUFFER_" name; exactly the others get "UNKNOWN_ERROR" |
| RenderTarget.StatusNamesDistinct | opengl-framework/src/RenderTarget.cpp:61-83 | distinct named statuses have distinct names |
| RenderTarget.DefaultDescriptor | opengl-framework/src/RenderTarget.hpp:54-59 | the default descriptor is 0x0 with no colour and no depth/stencil texture |
| RenderTarget.Render | opengl-framework/src/RenderTarget.cpp:98-119 | the callback runs with the framebuffer bound for draw and read and the viewport at (0, 0, width, height); on normal return the previous bindings and viewport are restored and everything else is as the callback left it; a failure passes through |
| RenderTarget.CreateColors | opengl-framework/src/RenderTarget.cpp:33-45 | the colour loop creates one texture per descriptor entry and touches only names, texture bindings and attachments |
| RenderTarget.CreateColorsTextures | opengl-framework/src/RenderTarget.cpp:35-43 | colour texture k has the requested size, its descriptor's format and options, and a fresh non-zero name |
| RenderTarget.CreateColorsNames | opengl-framework/src/RenderTarget.cpp:36-43 | the loop's names are pairwise distinct and fresh, the live set grows by exactly them, and nothing is deleted |
| RenderTarget.CreateColorsKeeps | opengl-framework/src/RenderTarget.cpp:33-45 | attachments the loop does not reach keep their textures |
| RenderTarget.CreateColorsAttaches | opengl-framework/src/RenderTarget.cpp:44 | texture k is attached at COLOR_ATTACHMENT0 + k of the bound framebuffer |
| RenderTarget.CreateColorsFacts | opengl-framework/src/RenderTarget.cpp:33-45 | the per-texture facts for every index at once |
| RenderTarget.EmplaceDepthStencil | opengl-framework/src/RenderTarget.cpp:46-57 | the old depth/stencil texture is deleted, a fresh one of the given size, format and options is created and attached at its format's point |
| RenderTarget.AttachmentsBody | opengl-framework/src/RenderTarget.cpp:27-88 | the callback fails exactly when the status is not complete, with that status's name |
| RenderTarget.BodyBuilds | opengl-framework/src/RenderTarget.cpp:28-57 | the callback builds one colour texture per entry at COLOR_ATTACHMENT0 + k, the requested depth/stencil texture at its point, all at the descriptor's size; draw/read buffers are off exactly when there are no colour textures |
| RenderTarget.BodyNames | opengl-framework/src/RenderTarget.cpp:33-57 | the callback's new names are fresh and distinct; a replaced depth/stencil texture is deleted once |
| RenderTarget.CreateAttachments | opengl-framework/src/RenderTarget.cpp:24-89 | fails exactly on an incomplete status; on success the framebuffer and descriptor are kept, the colour count matches the descriptor, and the previous bindings and viewport are restored |
| RenderTarget.CreateAttachmentsMatchesDescriptor | opengl-framework/src/RenderTarget.cpp:24-89 | afterwards the textures match the descriptor: count, size, format, attachment index, depth/stencil point, and draw/read buffers off with no colour texture |
| RenderTarget.CreateAttachmentsOwnership | opengl-framework/src/RenderTarget.cpp:24-57 | the old colour textures and a replaced depth/stencil texture are deleted once each; new names are fresh; the live set changes by exactly that; no stale delete |
| RenderTarget.Construct | opengl-framework/src/RenderTarget.cpp:91-96 | requires a colour or depth/stencil texture; fails exactly on an incomplete status, with that status's name; on success the target matches its descriptor (one texture per colour entry at the descriptor's size and format, texture k at COLOR_ATTACHMENT0 + k, the depth/stencil texture at its format's point), owns a fresh framebuffer and fresh textures, and the live set grows by exactly them |
| RenderTarget.Resize | opengl-framework/src/RenderTarget.cpp:121-126 | only the descriptor's width and height change, and every texture is rebuilt at the new size, each at its attachment point |
| RenderTarget.ColorTexture | opengl-framework/src/RenderTarget.hpp:68 | an index past the end is the out-of-range error; otherwise the texture at that index |
| RenderTarget.DepthStencilTexture | opengl-framework/src/RenderTarget.hpp:69-73 | requires a depth/stencil texture, and returns it |
| Events.NoOpCallbacks | opengl-framework/src/EventsCallbacks.hpp:34-47 | a default bundle ignores every event |
| Events.Beside | opengl-framework/src/EventsCallbacks.hpp:34-47 | a bundle whose handlers touch only the application's state, run beside the GL state: each handler passes the GL state through and applies the original handler to the rest |
| Camera.New | opengl-framework/src/Camera.cpp:10-18 | a new camera looks at the given point and starts Idle, with button 0 and last position 0 |
| Camera.SetTransformMatrix | opengl-framework/src/Camera.hpp:36 | the transform getter then returns the matrix; the look-at point and controller are unchanged |
| Camera.SetViewMatrix | opengl-framework/src/Camera.hpp:37 | the transform becomes the inverse of the view; nothing else changes |
| Camera.Translate | opengl-framework/src/Camera.cpp:37-42 | the look-at point moves by the delta exactly when asked to (the default); the controller is unchanged |
| Camera.Rotate | opengl-framework/src/Camera.cpp:51-54 | rotation leaves the look-at point and controller unchanged |
| Camera.RotateAround | opengl-framework/src/Camera.cpp:44-49 | translate, rotate, translate back; the look-at point is unchanged |
| Camera.OnMouseMoved | opengl-framework/src/Camera.cpp:59-72 | the last position becomes the event's; the state and button are kept; Idle changes nothing else; Rotating keeps the look-at point; Translating moves the camera and look-at point by the drag |
| Camera.OnMousePressed | opengl-framework/src/Camera.cpp:73-83 | a press outside Idle changes nothing; from Idle it records button and position, and starts Rotating exactly for a left press without Shift, otherwise Translating |
| Camera.OnMouseReleased | opengl-framework/src/Camera.cpp:84-88 | a release of the recorded button makes the controller Idle; any other release changes nothing |
| Camera.OnScroll | opengl-framework/src/Camera.cpp:89-96 | a scroll outside Idle changes nothing; the look-at point never moves |
| Camera.CameraCallbacks | opengl-framework/src/Camera.cpp:56-98 | the camera's bundle ignores resize events |
| Camera.ControllerTransitions | opengl-framework/src/Camera.cpp:56-98 | across all events the controller leaves Idle only on a press, becomes Idle only on a matching release, and the look-at point moves only on a translating drag |
| Camera.PressReleaseCycle | opengl-framework/src/Camera.cpp:73-88 | press then release of the same button from Idle returns to Idle with transform and look-at point untouched |
| Context.Initial | opengl-framework/src/opengl-framework.cpp:15-26 | the context starts without a window or bundles, with delta 0 and the first frame ahead |
| Context.SetEventsCallbacks | opengl-framework/src/opengl-framework.cpp:202-205 | the bundle list is replaced wholesale |
| Context.ToEvent | opengl-framework/src/opengl-framework.cpp:105-141 | each native event reaches exactly its handler; a press goes only to the pressed handler and a release only to the released one; scroll y becomes `scroll` and x `horizontal_scroll` |
| Context.FanOutInOrder | opengl-framework/src/opengl-framework.cpp:105-141 | fan-out over a concatenation is fan-out over the first list, then the second |
| Context.FanOutSingle | opengl-framework/src/opengl-framework.cpp:107-108 | a single bundle's handler runs exactly once |
| Context.FanOutNoOp | opengl-framework/src/EventsCallbacks.hpp:34-47 | default bundles leave the state unchanged |
| Context.Dispatch | opengl-framework/src/opengl-framework.cpp:131-136 | every bundle handles the event in order, with the GL state threaded through its handlers; a framebuffer resize sets the viewport to the new size before any handler runs; when no bundle issues a GL call, a resize changes only the viewport and other events change no GL state |
| Context.DispatchAll | opengl-framework/src/opengl-framework.cpp:105-141 | when no bundle issues a GL call, delivering polled events changes only the viewport: not at all without resizes, and to the last size when the last event is a resize |
| Context.FanOutKeepsGl | opengl-framework/src/opengl-framework.cpp:105-141 | fan-out through bundles that issue no GL call hands back the GL state it was given |
| Context.BesideIsGlFree | opengl-framework/src/EventsCallbacks.hpp:35-46 | a bundle lifted with `Events.Beside` issues no GL call |
| Context.WindowIsOpen | opengl-framework/src/opengl-framework.cpp:207-220 | requires init; delta is unchanged on the first frame and the interval since the last call afterwards; the last time is updated; polled events are delivered; the result is "not asked to close" |
| Context.DeltaTimeIsFrameInterval | opengl-framework/src/opengl-framework.cpp:211-218 | after frames at t0 … tn the delta is tn − t(n−1), or 0 after one frame, and the last time is tn |
| Context.FramesLater | opengl-framework/src/opengl-framework.cpp:211-218 | after the first frame, each frame's delta is the interval to the previous frame |
| Context.Init | opengl-framework/src/opengl-framework.cpp:147-194 | requires no window yet; GLFW, window and glad failures are fatal, in that order; success creates the window and changes nothing else |
| Context.DecimalRoundTrip | opengl-framework/src/opengl-framework.cpp:57 | the decimal id in a debug message reads back to the id |
| Context.DebugCallback | opengl-framework/src/opengl-framework.cpp:34-98 | ignored and already-seen ids are dropped silently; any other id's message is fatal exactly when it is an error, undefined behaviour or high severity, otherwise printed and the id recorded |
| Context.ReportedAtMostOnce | opengl-framework/src/opengl-framework.cpp:44-53 | over any stream of messages the reported ids are distinct, never ignored ids, not seen before, and recorded |
| Context.StreamSeenGrows | opengl-framework/src/opengl-framework.cpp:48-53 | the seen list only grows |

## Left out

- GLFW itself is not modelled: window creation, hints, the context, buffer swapping, polling, maximising, size and aspect-ratio queries, the clock and the GLFW error callback. The clock, polled events, the close flag and initialisation outcomes are parameters.
- `opengl-framework/src/make_absolute_path.cpp` and shader-file reading are not part of this model; a file's contents come from `Driver.readFile`.
- Image decoding (`lib/img`) is not modelled. Neither are the uploads of `Pixels` and `File` sources or the `glTexParameter*` calls: the driver state does not include texel storage or sampler parameters.
- Camera matrix math (`lookAt`, `inverse`, `rotate`, `translate`, `normalize`, `pow`, axis extraction) stays opaque behind `MatrixOps`, because it is floating-point linear algebra.
- Camera.New: the default position `vec3{5, 1, 2} * 0.2f` is the real (1.0, 0.2, 0.4); float rounding is not modelled. The same applies to every float, which is modelled as a real.
- Numeric values of GL enum constants are not modelled; each enumerator is a constructor. `InternalFormatSized` is written as the disjoint union of the colour and depth/stencil enums. It has exactly those 67 enumerators, with the same names.
- All object kinds share one name space, whereas OpenGL keeps one per kind. This is stricter than the driver, not weaker.
- GL state after a fatal error is not modelled: a `Failure` carries only the error, as `handle_error` throws. As a consequence, two things are not modelled:
  - the shader-module name that leaks when a module constructor throws;
  - the framebuffer bindings that `render` leaves behind when its callback throws (it has no guard).
- `glClearColor`/`glClear` in `create_attachments`, `glDrawBuffer`/`glReadBuffer` beyond the "no colour buffers" flag, and vertex-array and buffer bindings in mesh construction are not modelled: they affect pixels and binding points the model does not track.
- Names.Generate: 32-bit name exhaustion is not modelled; names are unbounded.
- Mesh.Draw: the `GLsizei` truncation of `3 * triangles_count` is not modelled.
- RenderTarget.Construct: `GL_MAX_COLOR_ATTACHMENTS` is not checked; the model attaches any number of colour textures.
- The debug-context set-up in `init` (querying the context flags, enabling synchronous debug output) is not modelled; only the callback's behaviour is.
- The float, vector and matrix setters share one model, `Shader.SetUniform`; their values are carried as reals.
- The window size and aspect-ratio getters and `maximize_window` are GLFW queries and commands and are not modelled.
