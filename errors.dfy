/**
 * The error values of package beacon. Go compares them by identity (`err == ErrX`);
 * here each is one constructor, and an error produced by a transport that is not
 * part of this model is `Transport(description)`.
 */
module Errors {

  datatype Error =
    // topic.go
    | EmptySingleLevelWildcard
    | DuplicatedSingleLevelWildcard
    | InvalidMultiLevelWildcardPosition
    // broker.go
    | NoSubscriber
    | NoPublisher
    // router.go
    | CannotAddSubscription
    | DuplicateSubscription
    // returned only by the graceful shutdown of a running router, which is not
    // part of this model; kept so that the list matches router.go:10-14
    | ShutdownTimeoutExceeded
    // any error returned by a Subscriber or Publisher implementation
    | Transport(description: string)
}
