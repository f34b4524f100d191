/** The Joystick adapter's protocol logic (ActionCable over WebSocket): the
    subscribe command and the classification of one inbound frame. */
module JoystickCable {
  import opened JsText
  import opened Broadcast

  /** The message author; a missing flag is false. */
  datatype Author = Author(
    username: Option<string>,
    usernameColor: Option<string>,
    isStreamer: bool,
    isModerator: bool,
    isSubscriber: bool)

  /** The nested `message` payload; every field may be missing. */
  datatype Payload = Payload(
    event: Option<string>,
    payloadType: Option<string>,
    author: Option<Author>,
    text: Option<string>)

  /** An ActionCable frame: its `type` and its `message` (`None` when falsy). */
  datatype Frame = Frame(frameType: Option<string>, message: Option<Payload>)

  const SubscribeCommand := "{\"command\":\"subscribe\",\"identifier\":\"{\\\"channel\\\":\\\"GatewayChannel\\\"}\"}"
  const UnknownUser := "Unknown"

  /** The badges of an author, always in the order streamer, moderator, subscriber. */
  function AuthorBadges(author: Option<Author>): (r: seq<string>)
    ensures author.None? ==> r == []
    ensures author.Some? ==>
      r == (if author.value.isStreamer then ["streamer"] else [])
         + (if author.value.isModerator then ["moderator"] else [])
         + (if author.value.isSubscriber then ["subscriber"] else [])
  {
    if author.None? then []
    else
      var a := author.value;
      var b0: seq<string> := [];
      var b1 := if a.isStreamer then b0 + ["streamer"] else b0;
      var b2 := if a.isModerator then b1 + ["moderator"] else b1;
      if a.isSubscriber then b2 + ["subscriber"] else b2
  }

  /** Whether the payload is a new chat message. */
  predicate IsChatMessage(p: Payload) {
    p.event == Some("ChatMessage") && p.payloadType == Some("new_message")
  }

  /** `author?.username || 'Unknown'`. */
  function AuthorName(author: Option<Author>): (r: string)
    ensures r != ""
    ensures author.Some? && Truthy(author.value.username) ==> r == author.value.username.value
    ensures author.None? || !Truthy(author.value.username) ==> r == UnknownUser
  {
    if author.Some? then OrElse(author.value.username, UnknownUser) else UnknownUser
  }

  /** `author?.usernameColor`, before the `|| null` default. */
  function AuthorColor(author: Option<Author>): (r: Option<string>)
    ensures author.None? ==> r == None
    ensures author.Some? ==> r == author.value.usernameColor
  {
    if author.Some? then author.value.usernameColor else None
  }

  /** The `message` handler; `None` is a frame whose JSON decode threw. Pings
      and the subscription confirmation are consumed; nothing is ever sent back. */
  function HandleFrame(frame: Option<Frame>): (r: Reaction)
    ensures r.sends == [] && !r.close
    ensures r.event.Some? ==>
      && frame.Some? && frame.value.message.Some?
      && frame.value.frameType != Some("ping")
      && frame.value.frameType != Some("confirm_subscription")
      && IsChatMessage(frame.value.message.value)
      && r.event.value.platform == Joystick
      && r.event.value.message != ""
      && r.event.value.username != ""
  {
    match frame
    case None => Quiet
    case Some(f) =>
      if f.frameType == Some("ping") || f.frameType == Some("confirm_subscription") then Quiet
      else match f.message
        case None => Quiet
        case Some(p) =>
          if IsChatMessage(p) then
            var text := OrElse(p.text, "");
            if text != "" then
              Publish(Normalize(Joystick, AuthorName(p.author), text, AuthorColor(p.author), Some(AuthorBadges(p.author))))
            else Quiet
          else Quiet
  }

  /** A chat message publishes exactly when its text is non-empty, with the
      author's username or "Unknown", the author's colour or null, and the
      author's badges. */
  lemma ChatMessageFields(frameType: Option<string>, p: Payload)
    requires frameType != Some("ping") && frameType != Some("confirm_subscription")
    requires IsChatMessage(p)
    ensures
      var r := HandleFrame(Some(Frame(frameType, Some(p))));
      && (r.event.Some? <==> Truthy(p.text))
      && (r.event.Some? ==>
            var e := r.event.value;
            && e.message == p.text.value
            && (p.author.Some? && Truthy(p.author.value.username) ==> e.username == p.author.value.username.value)
            && (p.author.None? || !Truthy(p.author.value.username) ==> e.username == UnknownUser)
            && (e.color.Some? <==> p.author.Some? && Truthy(p.author.value.usernameColor))
            && (e.color.Some? ==> e.color == p.author.value.usernameColor)
            && e.badges == AuthorBadges(p.author))
  {
  }

  /** A streamer who is also a subscriber is listed streamer first. */
  lemma BadgeOrderExample()
    ensures AuthorBadges(Some(Author(None, None, true, false, true))) == ["streamer", "subscriber"]
  {
  }
}
