/** Optional values: the model of TypeScript's optional properties (`field?: T`). */
module Wrappers {

  /** `Absent` is a property that is missing (or `undefined`); `Present(v)` carries its value. */
  datatype Optional<+T> = Absent | Present(value: T) {

    /** The value, or `default` when absent. */
    function GetOr(default: T): T {
      match this
      case Present(v) => v
      case Absent => default
    }
  }
}
