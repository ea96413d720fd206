/** Optional values and the outcome of reading a JSON document from disk. */
module Wrappers {

  datatype Option<+T> = None | Some(value: T) {
    function GetOr(default: T): T {
      match this
      case Some(v) => v
      case None => default
    }
  }

  /** What reading a settings or index file can give: the file is absent,
      it exists but does not parse, or it parses to a value. */
  datatype Stored<+T> = Missing | Unreadable | Loaded(value: T)

  /** What a loader keeps: the parsed document, or `fallback` when the file
      is missing or does not parse (the loaders log the error and go on). */
  function LoadOr<T>(stored: Stored<T>, fallback: T): (v: T)
    ensures stored.Loaded? ==> v == stored.value
    ensures !stored.Loaded? ==> v == fallback
  {
    if stored.Loaded? then stored.value else fallback
  }
}
