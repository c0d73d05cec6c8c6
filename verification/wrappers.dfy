/** Optional values: the model's stand-in for C# `null` and `Nullable<T>`. */
module Wrappers {
  datatype Option<+T> = None | Some(value: T) {
    /** The `??` operator: this value when present, otherwise the fallback. */
    function OrElse(fallback: Option<T>): Option<T> {
      if Some? then this else fallback
    }
  }
}
