/** Failure-compatible wrappers shared by every module of the model. */
module Wrappers {

  /** An optional value: `std::optional`, or the result of a lookup that can miss. */
  datatype Option<+T> = None | Some(value: T)

  /** Every element of `s` differs from every other one. */
  predicate Distinct<T(==)>(s: seq<T>) {
    forall i, j :: 0 <= i < j < |s| ==> s[i] != s[j]
  }

  /** The set of elements of a sequence. */
  function Elements<T>(s: seq<T>): set<T> {
    set x | x in s
  }
}

/**
 * The single error funnel of the framework (`handle_error`): it logs a
 * message and throws, and nothing in the framework catches it. Every fatal
 * outcome of the model is a `Failure` carrying one of these errors.
 */
module HandleError {

  datatype Error =
    | ShaderCompilationFailed(log: string, code: string)
    | ShaderLinkingFailed(log: string)
    | InvalidFramebuffer(status: string)
    | OpenGlDebugMessage(message: string)
    | GlfwInitFailed
    | WindowCreationFailed
    | GladInitFailed

  /** The text `handle_error` is called with for each error. */
  function Message(e: Error): string {
    match e
    case ShaderCompilationFailed(log, code) =>
      "Shader Compilation failed:\n" + log + "\n\nThe code we tried to compile was:\n" + code
    case ShaderLinkingFailed(log) => "Shader Linking failed:\n" + log
    case InvalidFramebuffer(status) => "Invalid framebuffer: " + status
    case OpenGlDebugMessage(message) => message
    case GlfwInitFailed => "[opengl_framework] Failed to initialize glfw"
    case WindowCreationFailed => "[opengl_framework] Failed to create the window"
    case GladInitFailed => "[opengl_framework] Failed to initialize glad"
  }

  /** Either the operation completed, or the process reached `handle_error`. */
  datatype Result<+T> = Success(value: T) | Failure(error: Error)
}
