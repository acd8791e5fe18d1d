/** How the model represents the JavaScript and MongoDB values the handlers work on. */
module Values {
  import opened Wrappers

  /** A MongoDB ObjectId. */
  type ObjectId = nat

  /** A UTC instant, in milliseconds since the epoch. */
  type Instant = int

  /** An amount of money; exact, where JavaScript uses floating point. */
  type Money = real

  /** A Stripe metadata value: always a string when present. */
  type MetaString = Option<string>

  /** JavaScript truthiness of a possibly absent string: only `undefined` and `""` are falsy. */
  predicate Truthy(v: MetaString)
  {
    v.Some? && v.value != ""
  }
}
