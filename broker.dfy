/**
 * The composite broker (broker.go): an optional subscriber and an optional publisher.
 * Connect and Disconnect go to the subscriber first, then to the publisher, and stop
 * at the first error; Subscribe and Publish delegate to the matching role or fail
 * with `NoSubscriber` / `NoPublisher` when it is absent.
 *
 * The `Subscriber` and `Publisher` interfaces are implemented by transports outside
 * this model. Each is stood in for by a class whose answers are fixed when it is built
 * and which records, in `calls`, every call the broker makes to it, in order.
 */
module Brokers {
  import opened Wrappers
  import opened Errors
  import opened Topics
  import opened Messages

  /** Stands for the `<-chan RoutedMessage` a subscription yields; the transport fills it. */
  datatype Channel = Channel(id: nat)

  /** A call made to a transport. */
  datatype Call =
    | ConnectCall
    | DisconnectCall
    | SubscribeCall(topic: Topic)
    | PublishCall(topic: Topic, message: Message)

  class Subscriber {
    const connectResult: Option<Error>
    const disconnectResult: Option<Error>
    const subscribeResult: Result<Channel, Error>
    var calls: seq<Call>

    constructor (connectResult: Option<Error>, disconnectResult: Option<Error>, subscribeResult: Result<Channel, Error>)
      ensures this.connectResult == connectResult && this.disconnectResult == disconnectResult
      ensures this.subscribeResult == subscribeResult && calls == []
    {
      this.connectResult := connectResult;
      this.disconnectResult := disconnectResult;
      this.subscribeResult := subscribeResult;
      calls := [];
    }

    method Connect() returns (err: Option<Error>)
      modifies this
      ensures err == connectResult && calls == old(calls) + [ConnectCall]
    {
      calls := calls + [ConnectCall];
      err := connectResult;
    }

    method Disconnect() returns (err: Option<Error>)
      modifies this
      ensures err == disconnectResult && calls == old(calls) + [DisconnectCall]
    {
      calls := calls + [DisconnectCall];
      err := disconnectResult;
    }

    method Subscribe(topic: Topic) returns (r: Result<Channel, Error>)
      modifies this
      ensures r == subscribeResult && calls == old(calls) + [SubscribeCall(topic)]
    {
      calls := calls + [SubscribeCall(topic)];
      r := subscribeResult;
    }
  }

  class Publisher {
    const connectResult: Option<Error>
    const disconnectResult: Option<Error>
    const publishResult: Option<Error>
    var calls: seq<Call>

    constructor (connectResult: Option<Error>, disconnectResult: Option<Error>, publishResult: Option<Error>)
      ensures this.connectResult == connectResult && this.disconnectResult == disconnectResult
      ensures this.publishResult == publishResult && calls == []
    {
      this.connectResult := connectResult;
      this.disconnectResult := disconnectResult;
      this.publishResult := publishResult;
      calls := [];
    }

    method Connect() returns (err: Option<Error>)
      modifies this
      ensures err == connectResult && calls == old(calls) + [ConnectCall]
    {
      calls := calls + [ConnectCall];
      err := connectResult;
    }

    method Disconnect() returns (err: Option<Error>)
      modifies this
      ensures err == disconnectResult && calls == old(calls) + [DisconnectCall]
    {
      calls := calls + [DisconnectCall];
      err := disconnectResult;
    }

    method Publish(topic: Topic, message: Message) returns (err: Option<Error>)
      modifies this
      ensures err == publishResult && calls == old(calls) + [PublishCall(topic, message)]
    {
      calls := calls + [PublishCall(topic, message)];
      err := publishResult;
    }
  }

  class Broker {
    const subscriber: Subscriber?
    const publisher: Publisher?

    /** `NewBroker`: keeps the two roles as given; either may be absent. */
    constructor (subscriber: Subscriber?, publisher: Publisher?)
      ensures this.subscriber == subscriber && this.publisher == publisher
    {
      this.subscriber := subscriber;
      this.publisher := publisher;
    }

    /** The subscriber is present and refuses to connect, so the publisher is never asked. */
    predicate SubscriberConnectFails()
    {
      subscriber != null && subscriber.connectResult.Some?
    }

    /** The first error of the roles' `Connect`, subscriber first. */
    function ConnectError(): Option<Error>
    {
      if SubscriberConnectFails() then subscriber.connectResult
      else if publisher != null then publisher.connectResult
      else None
    }

    predicate SubscriberDisconnectFails()
    {
      subscriber != null && subscriber.disconnectResult.Some?
    }

    function DisconnectError(): Option<Error>
    {
      if SubscriberDisconnectFails() then subscriber.disconnectResult
      else if publisher != null then publisher.disconnectResult
      else None
    }

    /** `Connect`: subscriber, then publisher; an absent role is skipped, the first error is returned. */
    method Connect() returns (err: Option<Error>)
      modifies subscriber, publisher
      ensures err == ConnectError()
      ensures subscriber != null ==> subscriber.calls == old(subscriber.calls) + [ConnectCall]
      ensures publisher != null ==>
        publisher.calls == old(publisher.calls) + (if SubscriberConnectFails() then [] else [ConnectCall])
    {
      if subscriber != null {
        err := subscriber.Connect();
        if err.Some? {
          return;
        }
      }
      if publisher != null {
        err := publisher.Connect();
        if err.Some? {
          return;
        }
      }
      err := None;
    }

    /** `Disconnect`: the same order and the same stop at the first error as `Connect`. */
    method Disconnect() returns (err: Option<Error>)
      modifies subscriber, publisher
      ensures err == DisconnectError()
      ensures subscriber != null ==> subscriber.calls == old(subscriber.calls) + [DisconnectCall]
      ensures publisher != null ==>
        publisher.calls == old(publisher.calls) + (if SubscriberDisconnectFails() then [] else [DisconnectCall])
    {
      if subscriber != null {
        err := subscriber.Disconnect();
        if err.Some? {
          return;
        }
      }
      if publisher != null {
        err := publisher.Disconnect();
        if err.Some? {
          return;
        }
      }
      err := None;
    }

    /** `Subscribe`: `NoSubscriber` without a subscriber, otherwise the subscriber's own answer. */
    method Subscribe(topic: Topic) returns (r: Result<Channel, Error>)
      modifies subscriber
      ensures subscriber == null ==> r == Failure(NoSubscriber)
      ensures subscriber != null ==>
        r == subscriber.subscribeResult && subscriber.calls == old(subscriber.calls) + [SubscribeCall(topic)]
    {
      if subscriber == null {
        return Failure(NoSubscriber);
      }
      r := subscriber.Subscribe(topic);
    }

    /** `Publish`: `NoPublisher` without a publisher, otherwise the publisher's own answer. */
    method Publish(topic: Topic, message: Message) returns (err: Option<Error>)
      modifies publisher
      ensures publisher == null ==> err == Some(NoPublisher)
      ensures publisher != null ==>
        err == publisher.publishResult && publisher.calls == old(publisher.calls) + [PublishCall(topic, message)]
    {
      if publisher == null {
        return Some(NoPublisher);
      }
      err := publisher.Publish(topic, message);
    }
  }

  /** `Connect` succeeds exactly when every present role connects. */
  lemma ConnectSucceedsIff(b: Broker)
    ensures b.ConnectError().None? <==>
      (b.subscriber == null || b.subscriber.connectResult.None?) &&
      (b.publisher == null || b.publisher.connectResult.None?)
  {
  }

  /** `Disconnect` succeeds exactly when every present role disconnects. */
  lemma DisconnectSucceedsIff(b: Broker)
    ensures b.DisconnectError().None? <==>
      (b.subscriber == null || b.subscriber.disconnectResult.None?) &&
      (b.publisher == null || b.publisher.disconnectResult.None?)
  {
  }
}
