/** Optional record fields, as in a TypeScript `Partial<...>` options object. */
module Optional {

  /** `None` is a key that is absent from the options object. */
  datatype Option<T> = None | Some(value: T)

  /** One key of the object spread `{ ...defaults, ...options }`: a key present in
      `options` wins, an absent key falls back to the default. */
  function Spread<T>(fallback: T, supplied: Option<T>): T
  {
    match supplied
    case Some(v) => v
    case None => fallback
  }
}
