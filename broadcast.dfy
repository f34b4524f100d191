/** The common event shape every adapter publishes, the payload defaults
    applied at publication, and what handling one inbound frame does to the
    transport (frames sent back, whether the socket is closed) and to the hub. */
module Broadcast {
  import opened JsText

  datatype Platform = Twitch | YouTube | Kick | Joystick {
    /** The platform tag carried on the wire. */
    function Name(): string {
      match this
      case Twitch => "twitch"
      case YouTube => "youtube"
      case Kick => "kick"
      case Joystick => "joystick"
    }
  }

  /** A normalised chat message; `color == None` is the wire's `null`.
      The timestamp is assigned by the clock and is not part of this model. */
  datatype ChatEvent = ChatEvent(
    platform: Platform,
    username: string,
    message: string,
    color: Option<string>,
    badges: seq<string>)

  /** An event is already in normal form: its colour is null or a non-empty string. */
  predicate IsNormal(e: ChatEvent) {
    e.color.None? || e.color.value != ""
  }

  /** The payload `broadcast` builds: `color || null` and `badges || []`;
      the other fields pass through unchanged. */
  function Normalize(platform: Platform, username: string, message: string,
                     color: Option<string>, badges: Option<seq<string>>): (e: ChatEvent)
    ensures e.platform == platform && e.username == username && e.message == message
    ensures e.color.Some? <==> Truthy(color)
    ensures e.color.Some? ==> e.color == color
    ensures badges.Some? ==> e.badges == badges.value
    ensures badges.None? ==> e.badges == []
    ensures IsNormal(e)
  {
    ChatEvent(platform, username, message,
              if Truthy(color) then color else None,
              if badges.Some? then badges.value else [])
  }

  /** What one inbound frame does: frames sent back on the same socket, in
      order; whether the socket is closed; the event handed to the hub, if any. */
  datatype Reaction = Reaction(sends: seq<string>, close: bool, event: Option<ChatEvent>)

  /** A frame that is consumed without any effect. */
  const Quiet := Reaction([], false, None)

  /** A frame that publishes one event and has no other effect. */
  function Publish(e: ChatEvent): Reaction {
    Reaction([], false, Some(e))
  }
}
