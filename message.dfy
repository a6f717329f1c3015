/** Message carriers (message.go). Payload bytes are opaque: nothing depends on them. */
module Messages {
  import opened Wrappers
  import opened Topics

  datatype Message = Message(payload: seq<bv8>)

  /**
   * A message together with the match of its topic. Go holds the match through a
   * pointer that may be nil; `None` stands for nil.
   */
  datatype RoutedMessage = RoutedMessage(message: Message, topic: Option<TopicMatch>)

  /**
   * `GetTopicParam`: the value captured for `param`, or the empty string when the
   * match has no such parameter (a Go map lookup of a missing key, not an error).
   * A nil match makes Go panic, hence the precondition.
   */
  function GetTopicParam(m: RoutedMessage, param: string): (value: string)
    requires m.topic.Some?
    ensures param in m.topic.value.params ==> value == m.topic.value.params[param]
    ensures param !in m.topic.value.params ==> value == ""
  {
    var params := m.topic.value.params;
    if param in params then params[param] else ""
  }
}
