/** What a resolver field hands back to the GraphQL executor. */
module GraphQL {

  /** `Ok` and `Err` are the two arms of the resolver's `Result`; `Panicked`
      is a resolver that never returned because an `unwrap()` on a BSON field
      accessor failed. */
  datatype FieldResult<+T> = Ok(value: T) | Err(message: string) | Panicked
}
