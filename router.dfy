/**
 * The router (router.go): a registry from parsed topics to handlers, started by
 * connecting the broker. Two facts of the Go code are kept and proved here:
 *  - the registry is keyed by `*Topic` and every `NewTopic` call allocates a new
 *    topic, so the duplicate-subscription check can never fire;
 *  - nothing assigns `isRunning`, so it stays false and the add-after-start guard
 *    can never fire either.
 */
module Routers {
  import opened Wrappers
  import opened Errors
  import opened Topics
  import opened Messages
  import opened Brokers

  /** Stands for a `*slog.Logger`; log output itself is not modelled. */
  datatype Logger = DefaultLogger | Logger(name: string)

  /** The options `NewRouter` accepts; the only one is `WithLogger`. */
  datatype RouterOption = WithLogger(logger: Logger)

  /** Stands for a `HandlerFunc`; handlers are only stored here, never run. */
  datatype Handler = Handler(name: string)

  /** The logger after applying `options` in order to a router whose logger is `initial`. */
  function LoggerAfter(options: seq<RouterOption>, initial: Logger): (l: Logger)
    ensures options == [] ==> l == initial
    ensures options != [] ==> l == options[|options| - 1].logger
    decreases |options|
  {
    if options == [] then initial else LoggerAfter(options[1..], options[0].logger)
  }

  class Router {
    const broker: Broker
    var logger: Logger
    var subscriptions: map<Topic, Handler>
    var isRunning: bool

    /** Every registered topic was produced by `NewTopic`, and the router never counts as running. */
    ghost predicate Valid()
      reads this
    {
      && !isRunning
      && forall t :: t in subscriptions ==> t.Valid()
    }

    /** `NewRouter`: empty registry, default logger, then each option in order (the last `WithLogger` wins). */
    constructor (broker: Broker, options: seq<RouterOption>)
      ensures Valid()
      ensures this.broker == broker && subscriptions == map[]
      ensures logger == LoggerAfter(options, DefaultLogger)
    {
      this.broker := broker;
      logger := DefaultLogger;
      subscriptions := map[];
      isRunning := false;
      new;
      for i := 0 to |options|
        invariant logger == LoggerAfter(options[..i], DefaultLogger)
        invariant subscriptions == map[] && !isRunning
      {
        assert options[..i + 1][i] == options[i];
        logger := options[i].logger;
      }
      assert options[..|options|] == options;
    }

    /**
     * `Start`: connects the broker and returns its error at once when that fails,
     * without subscribing anything.
     */
    method Start() returns (err: Option<Error>)
      requires Valid()
      modifies broker.subscriber, broker.publisher
      ensures Valid()
      ensures err == broker.ConnectError()
      ensures err.Some? && broker.subscriber != null ==>
        broker.subscriber.calls == old(broker.subscriber.calls) + [ConnectCall]
      ensures err.Some? && broker.publisher != null ==>
        broker.publisher.calls == old(broker.publisher.calls) + (if broker.SubscriberConnectFails() then [] else [ConnectCall])
    {
      err := broker.Connect();
      if err.Some? {
        return;
      }
      // On success Go goes on to subscribe every registered topic and start one
      // listener per subscription; that part is not modelled.
    }

    /**
     * `AddSubscription`: parses `rawTopic` and registers the new topic with `handler`.
     * The result is exactly the parse error, if any; on success the registry gains one
     * new key, the freshly parsed topic, and every other entry stays as it was.
     */
    method AddSubscription(rawTopic: string, handler: Handler) returns (err: Option<Error>)
      requires Valid()
      modifies this`subscriptions
      ensures Valid()
      ensures err == ParseError(rawTopic)
      ensures err.Some? ==> subscriptions == old(subscriptions)
      ensures err.None? ==>
        exists t: Topic :: fresh(t) && t.raw == rawTopic && t !in old(subscriptions) &&
          subscriptions == old(subscriptions)[t := handler]
      ensures err.None? ==> |subscriptions| == |old(subscriptions)| + 1
    {
      if isRunning {
        // Never taken: no method of the router assigns `isRunning`.
        assert false;
        return Some(CannotAddSubscription);
      }
      var topic, parseErr := NewTopic(rawTopic);
      if parseErr.Some? {
        return parseErr;
      }
      if topic in subscriptions {
        // Never taken: keys are topic references and `topic` was just allocated.
        assert false;
        return Some(DuplicateSubscription);
      }
      subscriptions := subscriptions[topic := handler];
      err := None;
    }

    /**
     * `Publish`: a pattern that does not parse is reported without reaching the broker;
     * otherwise the freshly parsed topic and the message go to the broker's publisher.
     */
    method Publish(rawTopic: string, message: Message) returns (err: Option<Error>)
      modifies broker.publisher
      ensures ParseError(rawTopic).Some? ==> err == ParseError(rawTopic)
      ensures ParseError(rawTopic).Some? && broker.publisher != null ==>
        broker.publisher.calls == old(broker.publisher.calls)
      ensures ParseError(rawTopic).None? && broker.publisher == null ==> err == Some(NoPublisher)
      ensures ParseError(rawTopic).None? && broker.publisher != null ==>
        err == broker.publisher.publishResult &&
        exists t: Topic :: fresh(t) && t.Valid() && t.raw == rawTopic &&
          broker.publisher.calls == old(broker.publisher.calls) + [PublishCall(t, message)]
    {
      var topic, parseErr := NewTopic(rawTopic);
      if parseErr.Some? {
        return parseErr;
      }
      err := broker.Publish(topic, message);
    }
  }

  /**
   * Two subscriptions to the same valid pattern both succeed and the registry grows by
   * two: each call parses a new topic, so the duplicate check compares distinct keys.
   */
  method AddSameTopicTwice(r: Router, rawTopic: string, first: Handler, second: Handler)
    returns (err1: Option<Error>, err2: Option<Error>)
    requires r.Valid() && ParseError(rawTopic).None?
    modifies r
    ensures r.Valid()
    ensures err1.None? && err2.None?
    ensures |r.subscriptions| == |old(r.subscriptions)| + 2
  {
    err1 := r.AddSubscription(rawTopic, first);
    err2 := r.AddSubscription(rawTopic, second);
  }
}
