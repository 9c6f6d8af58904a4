/** The errors the router raises, and results that may carry one. */
module Results {
  datatype Error =
    | EmptyFqdn
    | StarFqdn
    | WildcardInFqdn
    | EmptyLabel
    | TooManyLabels
    | PortOutOfRange
    | BucketCountOutOfRange
    | DrawCapReached
    | BucketCountMismatch
    | UnreadableBucketCount

  datatype Result<+T> = Success(value: T) | Failure(error: Error)
}
