/** Failure-carrying values shared by every module: an optional value (the
    source's `undefined` / `null` / absent property) and a result that is
    either a value or the message of the error the source throws. */
module Results {

  datatype Option<+T> = None | Some(value: T)

  datatype Result<+T> = Ok(value: T) | Err(message: string)

  /** JavaScript truthiness of an optional number: present and non-zero
      (NaN does not exist among the reals). */
  predicate Truthy(o: Option<real>) {
    o.Some? && o.value != 0.0
  }
}
