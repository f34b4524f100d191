/** The Kick adapter's protocol logic (Pusher over WebSocket): choosing the
    chatroom, the subscribe frame, and the classification of one inbound frame. */
module KickPusher {
  import opened JsText
  import opened Broadcast

  datatype Badge = Badge(badgeType: string)

  datatype Identity = Identity(color: Option<string>, badges: Option<seq<Badge>>)

  datatype Sender = Sender(username: Option<string>, slug: Option<string>, identity: Option<Identity>)

  /** The chat payload; every field may be missing. */
  datatype ChatData = ChatData(sender: Option<Sender>, content: Option<string>)

  /** The result of a JSON decode that may throw. */
  datatype Decoded<T> = ParseError | Value(value: T)

  /** The `data` member of a frame: an object (or something without the
      expected members: `None`), or a string holding JSON that must be decoded
      again. */
  datatype FrameData =
    | Structured(body: Option<ChatData>)
    | Encoded(decoded: Decoded<Option<ChatData>>)

  datatype Frame = Frame(event: Option<string>, data: FrameData)

  const PingEvent := "pusher:ping"
  const ChatMessageEvent := "App\\Events\\ChatMessageEvent"
  const PongFrame := "{\"event\":\"pusher:pong\",\"data\":{}}"
  const UnknownUser := "Unknown"

  // ---------------------------------------------------------------------------
  // Starting

  datatype Start = KickDisabled | JoinRoom(room: string) | NoRoom

  /** `connectKick`: the configured chatroom, or else the looked-up one
      (`lookup` is what the channel lookup returned); without either nothing
      connects and nothing is retried. */
  function StartKick(enabled: bool, configured: Option<string>, lookup: Option<string>): (s: Start)
    ensures s == KickDisabled <==> !enabled
    ensures s.JoinRoom? ==> s.room != ""
    ensures enabled && Truthy(configured) ==> s == JoinRoom(configured.value)
    ensures s == NoRoom <==> enabled && !Truthy(configured) && !Truthy(lookup)
    ensures enabled && !Truthy(configured) && Truthy(lookup) ==> s == JoinRoom(lookup.value)
  {
    if !enabled then KickDisabled
    else if Truthy(configured) then JoinRoom(configured.value)
    else if Truthy(lookup) then JoinRoom(lookup.value)
    else NoRoom
  }

  /** The subscribe frame sent when the socket opens. */
  function SubscribeFrame(room: string): string {
    "{\"event\":\"pusher:subscribe\",\"data\":{\"auth\":\"\",\"channel\":\"chatrooms." + room + ".v2\"}}"
  }

  // ---------------------------------------------------------------------------
  // Inbound frames

  /** The payload after the second decode; `None` when that decode throws. */
  function Unwrap(d: FrameData): Option<Option<ChatData>> {
    match d
    case Structured(body) => Some(body)
    case Encoded(ParseError) => None
    case Encoded(Value(body)) => Some(body)
  }

  function SenderName(sender: Option<Sender>): string {
    if sender.None? then UnknownUser
    else OrElse(Or(sender.value.username, sender.value.slug), UnknownUser)
  }

  function SenderColor(sender: Option<Sender>): Option<string> {
    if sender.Some? && sender.value.identity.Some? then sender.value.identity.value.color else None
  }

  /** `(identity.badges || []).map(b => b.type)`. */
  function BadgeTypes(badges: seq<Badge>): (r: seq<string>)
    ensures |r| == |badges|
    ensures forall i :: 0 <= i < |badges| ==> r[i] == badges[i].badgeType
  {
    seq(|badges|, i requires 0 <= i < |badges| => badges[i].badgeType)
  }

  function SenderBadges(sender: Option<Sender>): seq<string> {
    if sender.Some? && sender.value.identity.Some? && sender.value.identity.value.badges.Some?
    then BadgeTypes(sender.value.identity.value.badges.value)
    else []
  }

  /** The chat message handler body: publish when the content is non-empty. */
  function ChatReaction(body: Option<ChatData>): (r: Reaction)
    ensures r.sends == [] && !r.close
    ensures r.event.Some? <==> body.Some? && Truthy(body.value.content)
    ensures r.event.Some? ==>
      && r.event.value.platform == Kick
      && r.event.value.message == body.value.content.value
      && r.event.value.username != ""
  {
    var sender := if body.Some? then body.value.sender else None;
    var text := if body.Some? then OrElse(body.value.content, "") else "";
    if text != "" then Publish(Normalize(Kick, SenderName(sender), text, SenderColor(sender), Some(SenderBadges(sender))))
    else Quiet
  }

  /** The `message` handler; `None` is a frame whose JSON decode threw. */
  function HandleFrame(frame: Option<Frame>): (r: Reaction)
    ensures !r.close
    ensures r.sends == [] || r.sends == [PongFrame]
    ensures r.sends != [] <==> frame.Some? && frame.value.event == Some(PingEvent)
    ensures r.event.Some? ==>
      && frame.Some? && frame.value.event == Some(ChatMessageEvent)
      && Unwrap(frame.value.data).Some?
      && r.event.value.platform == Kick
      && r.event.value.message != ""
      && r.event.value.username != ""
  {
    match frame
    case None => Quiet
    case Some(f) =>
      if f.event == Some(PingEvent) then Reaction([PongFrame], false, None)
      else if f.event == Some(ChatMessageEvent) then
        match Unwrap(f.data)
        case None => Quiet
        case Some(body) => ChatReaction(body)
      else Quiet
  }

  /** A chat message frame publishes exactly when its content is non-empty;
      the username is the sender's username, else its slug, else "Unknown";
      the colour is the identity's colour when truthy, else null; the badges
      are the badge types in their order. A payload without a sender
      publishes as "Unknown" with no colour and no badges. */
  lemma ChatFrameFields(data: FrameData, sender: Option<Sender>, content: Option<string>)
    requires Unwrap(data) == Some(Some(ChatData(sender, content)))
    ensures
      var r := HandleFrame(Some(Frame(Some(ChatMessageEvent), data)));
      && (r.event.Some? <==> Truthy(content))
      && (r.event.Some? ==>
            var e := r.event.value;
            && e.message == content.value
            && (sender.None? ==> e.username == UnknownUser && e.color == None && e.badges == [])
            && (sender.Some? ==>
                  var s := sender.value;
                  && (Truthy(s.username) ==> e.username == s.username.value)
                  && (!Truthy(s.username) && Truthy(s.slug) ==> e.username == s.slug.value)
                  && (!Truthy(s.username) && !Truthy(s.slug) ==> e.username == UnknownUser)
                  && (e.color.Some? <==> s.identity.Some? && Truthy(s.identity.value.color))
                  && (e.color.Some? ==> e.color == s.identity.value.color)
                  && (s.identity.Some? && s.identity.value.badges.Some? ==>
                        var bs := s.identity.value.badges.value;
                        |e.badges| == |bs| && forall i :: 0 <= i < |bs| ==> e.badges[i] == bs[i].badgeType)
                  && (s.identity.None? || s.identity.value.badges.None? ==> e.badges == [])))
  {
  }

  /** A chat message frame whose payload is empty publishes nothing. */
  lemma EmptyPayloadIgnored(data: FrameData)
    requires Unwrap(data) == Some(None)
    ensures HandleFrame(Some(Frame(Some(ChatMessageEvent), data))) == Quiet
  {
  }

  /** A sender with the moderator and then the subscriber badge. */
  lemma BadgeOrderExample()
    ensures BadgeTypes([Badge("moderator"), Badge("subscriber")]) == ["moderator", "subscriber"]
  {
  }

  /** A payload that is a string holding invalid JSON is dropped silently. */
  lemma EncodedParseErrorIgnored(event: Option<string>)
    requires event != Some(PingEvent)
    ensures HandleFrame(Some(Frame(event, Encoded(ParseError)))) == Quiet
  {
  }
}
