/** The OAuth credential store shared by the Twitch and Joystick adapters:
    token rotation by the refresh exchange, the gate that decides whether an
    adapter connects, the Twitch bot identity resolved when the socket opens,
    and the fixed reconnect delays. */
module Credentials {
  import opened JsText
  import TwitchIrc

  /** The decoded answer of the token endpoint, or an exception on the way
      (network failure, a body that is not JSON). */
  datatype TokenReply =
    | Threw
    | Replied(accessToken: Option<string>, refreshToken: Option<string>)

  /** The token pair a store holds; `None` is a token not yet known. */
  datatype Tokens = Tokens(accessToken: Option<string>, refreshToken: Option<string>)

  /** The outcome of one refresh: the new pair and whether it succeeded. */
  datatype Rotation = Rotation(tokens: Tokens, refreshed: bool)

  /** The refresh exchange: success exactly when the reply carries a truthy
      access token; then both tokens are the reply's (the refresh token even
      when the reply has none), otherwise both are kept as they were. */
  function Rotate(current: Tokens, reply: TokenReply): (r: Rotation)
    ensures r.refreshed <==> reply.Replied? && Truthy(reply.accessToken)
    ensures r.refreshed ==> r.tokens == Tokens(reply.accessToken, reply.refreshToken)
    ensures !r.refreshed ==> r.tokens == current
  {
    match reply
    case Threw => Rotation(current, false)
    case Replied(access, refresh) =>
      if Truthy(access) then Rotation(Tokens(access, refresh), true)
      else Rotation(current, false)
  }

  /** Once a store holds an access token it always holds one: no refresh,
      failed or not, takes it away. */
  lemma RotateKeepsAuthorized(current: Tokens, reply: TokenReply)
    requires Truthy(current.accessToken)
    ensures Truthy(Rotate(current, reply).tokens.accessToken)
  {
  }

  /** Whether an adapter connects. */
  datatype Gate = Disabled | AwaitingAuthorization | Connect

  /** Reconnect delay of an OAuth adapter after the socket closed. */
  function ReconnectDelay(refreshed: bool): (ms: nat)
    ensures refreshed ==> ms == 1000
    ensures !refreshed ==> ms == 10000
  {
    if refreshed then 1000 else 10000
  }

  /** Kick reconnects after a fixed delay; it has no credentials to refresh. */
  const KickReconnectDelay: nat := 5000

  /** The token variables of one OAuth platform, updated in place. `username`
      is the bot identity (Twitch only; Joystick's store leaves it unset). */
  class TokenStore {
    var accessToken: Option<string>
    var refreshToken: Option<string>
    var username: Option<string>

    function Current(): Tokens
      reads this
    {
      Tokens(accessToken, refreshToken)
    }

    /** The store as configured at start-up. */
    constructor (accessToken: Option<string>, refreshToken: Option<string>, username: Option<string>)
      ensures this.accessToken == accessToken && this.refreshToken == refreshToken
      ensures this.username == username
    {
      this.accessToken := accessToken;
      this.refreshToken := refreshToken;
      this.username := username;
    }

    /** `refreshTwitchToken` / `refreshJoystickToken`. */
    method Refresh(reply: TokenReply) returns (refreshed: bool)
      modifies this
      ensures Rotate(old(Current()), reply) == Rotation(Current(), refreshed)
      ensures username == old(username)
    {
      refreshed := false;
      match reply {
        case Threw =>
        case Replied(access, refresh) =>
          if Truthy(access) {
            accessToken := access;
            refreshToken := refresh;
            refreshed := true;
          }
      }
    }

    /** The connect gate (`connectTwitch`, `connectJoystick`): a disabled
        platform does nothing, and an enabled one without an access token
        waits for the authorisation flow instead of connecting. */
    method Gate(enabled: bool) returns (g: Gate)
      ensures g == Disabled <==> !enabled
      ensures g == Connect <==> enabled && Truthy(accessToken)
      ensures g == AwaitingAuthorization <==> enabled && !Truthy(accessToken)
    {
      if !enabled {
        g := Disabled;
      } else if !Truthy(accessToken) {
        g := AwaitingAuthorization;
      } else {
        g := Connect;
      }
    }

    /** The Twitch `open` handler: resolve the bot username when none is known
        yet (`fetched` is what the user lookup returned), then send the
        handshake for `channel`. */
    method OpenTwitch(fetched: Option<string>, channel: string) returns (lines: seq<string>)
      requires Truthy(accessToken)
      modifies this`username
      ensures username == if Truthy(old(username)) then old(username) else fetched
      ensures lines == TwitchIrc.Handshake(accessToken.value, username, channel)
    {
      if !Truthy(username) {
        username := fetched;
      }
      lines := TwitchIrc.Handshake(accessToken.value, username, channel);
    }

    /** The `close` handler of an OAuth adapter: refresh, then choose the
        reconnect delay by the outcome. */
    method OnClose(reply: TokenReply) returns (delay: nat)
      modifies this
      ensures Rotate(old(Current()), reply).tokens == Current()
      ensures delay == ReconnectDelay(Rotate(old(Current()), reply).refreshed)
      ensures username == old(username)
    {
      var refreshed := Refresh(reply);
      delay := ReconnectDelay(refreshed);
    }
  }

  /** After a close the delay is the short one exactly when the refresh
      succeeded, and never leaves the 1 to 10 second range. */
  lemma CloseDelay(current: Tokens, reply: TokenReply)
    ensures var d := ReconnectDelay(Rotate(current, reply).refreshed);
      && 1000 <= d <= 10000
      && (d == 1000 <==> reply.Replied? && Truthy(reply.accessToken))
  {
  }
}
