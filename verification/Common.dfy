/** Optional values and results that stand for the source's null and thrown errors. */
module Common {
  datatype Option<+T> = None | Some(value: T)

  datatype Result<+T> = Ok(value: T) | Thrown(error: Error)

  datatype Error =
    | NotFound
    | Conflict
    | UniqueViolation
    | PlanInactive
    | NotEligible
    | ExceedsAmount
    | ProviderError
    | DatabaseError
    | SyntaxError
    | Unauthorized
    | ProvidersUnavailable
}
