/** Option and a Python-style result: a value, or the exception the code raises. */
module Wrappers {

  datatype Option<+T> = None | Some(value: T) {
    function GetOr(default: T): T {
      match this
      case Some(v) => v
      case None => default
    }
  }

  /** The built-in exceptions the modelled code can raise on its own paths. */
  datatype PyError =
    | KeyError           // a missing dict key
    | ValueError         // unpacking `zip(*{}.values())`, or a disabled feature
    | ZeroDivisionError  // `x / 0`
    | AttributeError     // an attribute name that was never assigned
    | IndexError         // `list.pop(i)` out of range
    | TypeError          // ordering a `datetime` against `None`, or `int(None)` / `float(None)`

  /** What a call returns, or the exception it propagates. */
  datatype Result<+T> = Ok(value: T) | Crash(error: PyError)
}

/** Opaque edX keys, reduced to the parts the core reads. */
module Keys {

  /** A course key; `str(course_key)` is its `id`. */
  datatype CourseKey = CourseKey(id: string)

  /** A usage key: the block's course, its category ("vertical", "sequential", ...) and its name. */
  datatype UsageKey = UsageKey(courseKey: CourseKey, category: string, name: string)

  const VerticalCategory := "vertical"
}
