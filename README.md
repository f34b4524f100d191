# multichat-overlay ingestion core in Dafny

multichat-overlay is a small Node.js server. It connects to the chat of Twitch,
YouTube, Kick and Joystick.tv, turns every chat message into one common
event, and pushes the events to browser overlays. This project models the
decision logic of that server (`src/server.js`) and proves properties of it.
The model covers:

- **Broadcast** (`broadcast.dfy`). The common chat event and the defaults
  applied when an event is published: a falsy colour becomes null and missing
  badges become an empty list.
- **Twitch IRC** (`twitch_irc.dfy`). One inbound WebSocket frame is handled
  as one string:
  - a `PING` frame is answered with a `PONG`;
  - a frame holding the login-failure notice closes the socket;
  - a frame matching the anchored PRIVMSG pattern is published;
  - anything else is ignored.

  The pattern `^@([^ ]+) :([^!]+)![^ ]+ PRIVMSG #\S+ :(.+)$` is modelled as
  a scanner (`MatchPrivmsg`). Its exact inverse is proved: `Render` assembles
  a frame from its parts. The module also covers the tag block (split on `;`,
  then on `=`), the username, text, colour and badges of a chat line, the
  channel name, and the handshake lines.
- **Credentials** (`credentials.dfy`). The token variables of the Twitch and
  Joystick adapters form a class, `TokenStore`. Its members are the refresh
  exchange, the connect gate, the bot identity resolved on open, and the
  reconnect delay after a close.
- **YouTube polling** (`youtube_poll.dfy`). `Poller` holds the live-chat id,
  the page cursor and the window of seen message ids: at most 500 ids, with
  the oldest evicted first. `Poller.Poll` runs one poll with the replies of
  the two HTTP calls given as inputs. Its item loop, `Poller.ConsumeItems`,
  is proved equal to the function `Run`, and `Poller.Poll` to the function
  `Step`.
- **Kick** (`kick_pusher.dfy`) and **Joystick** (`joystick_cable.dfy`). The
  frame handlers classify decoded frames into a pong, nothing, or a chat event.
- **JavaScript text semantics** (`js_text.dfy`). These are the string
  operations the handlers rely on:
  - truthiness and `||`;
  - `split` on one character, with its inverse `Join`;
  - `trim` and the `\s` class;
  - line terminators as `.` sees them;
  - `startsWith` and `includes`;
  - ASCII lower-casing and `replace` of the first occurrence.

Network replies and parsed JSON are inputs to the model. They are algebraic
datatypes with optional fields. `None` stands for `undefined`/`null`, and a
parse failure is a constructor of its own. Sends and closes are outputs: the
frames sent back, a close flag, and the event handed to the hub.

The model follows the code in three places where one might expect otherwise:

- Twitch frames are not split into lines. A frame is matched as a whole.
- A Twitch chat line whose text is only whitespace is still published, with
  empty text (`TwitchIrc.BlankChatTextPublished`). The Kick, Joystick and
  YouTube handlers never publish empty text (`KickPusher.HandleFrame`,
  `JoystickCable.HandleFrame`, `YouTubePoll.RunPublishesYouTubeMessages`);
  the Twitch handler has no such check.
- A YouTube item with text but without author details throws inside the item
  loop, rather than being dropped on its own. The rest of the page is
  abandoned and the poll retries after 10 s. The cursor has already moved to
  the new page by then, so the remaining items of that page are never seen
  (`YouTubePoll.AuthorlessItemEndsPoll`).

## Model

| member | source | states |
|---|---|---|
| JsText.Split | src/server.js:133 | `split` on one character always gives at least one piece, no piece holds the separator, and joining the pieces with the separator gives the input back |
| JsText.SplitJoin | src/server.js:133 | splitting a join of separator-free pieces gives exactly those pieces back, so `Split` and `Join` are inverse |
| JsText.Before | src/server.js:137 | the first piece of a split is the longest separator-free prefix; it is the whole string exactly when the separator is absent |
| JsText.Trim | src/server.js:135 | `trim` returns the input with only JavaScript whitespace removed around it, and the result neither starts nor ends with whitespace |
| JsText.TrimUnique | src/server.js:135 | any string that is the input with only whitespace around it, and no whitespace at its ends, is the trim of the input |
| JsText.Or | src/server.js:315 | `a \|\| b` is `a` when `a` is truthy and `b` otherwise; it is truthy iff either operand is |
| JsText.OrElse | src/server.js:134 | `a \|\| fallback` is `a` when truthy and the fallback otherwise |
| JsText.ContainsIff | src/server.js:125 | `includes` holds exactly when the pattern occurs at some position of the string |
| JsText.ToLowerAscii | src/server.js:110 | lower-casing keeps the length, maps each ASCII capital to its small letter and leaves every other character unchanged |
| JsText.RemoveFirst | src/server.js:110 | `replace` of a one-character pattern removes only its first occurrence, and changes nothing when it is absent |
| Broadcast.Normalize | src/server.js:49-53 | platform, username and message pass through; the colour is kept iff truthy, else null; badges default to the empty list; the result is in normal form |
| TwitchIrc.EntryShape | src/server.js:133 | a tag entry's key is the text before the first `=`; its value runs to the second `=` or the end, and is undefined when there is no `=` |
| TwitchIrc.CollectOnlyEntryKeys | src/server.js:133 | every key of the parsed tags is the key of some entry |
| TwitchIrc.CollectLastWins | src/server.js:133 | a key's value is that of its last entry: a later duplicate key overwrites an earlier one |
| TwitchIrc.ParseTagsLastEntry | src/server.js:133 | `tags[k]` after parsing a tag block is the value of the last entry with key `k` |
| TwitchIrc.ParseTagsMissingKey | src/server.js:133 | `tags[k]` is undefined when no entry of the tag block has key `k` |
| TwitchIrc.MatchPrivmsg | src/server.js:130-131 | when the pattern matches, the captured parts are well-formed runs of their classes, and together with the literals they make up the whole frame |
| TwitchIrc.MatchRender | src/server.js:130 | every frame assembled from well-formed parts is matched, with those same parts; with `MatchPrivmsg` this is an iff |
| TwitchIrc.TerminatedFrameNeverMatches | src/server.js:130 | a frame ending in a line terminator never matches, because `.` excludes it and `$` is the end of the frame |
| TwitchIrc.BadgeTypes | src/server.js:137 | one badge type per comma-separated entry, in order, each the part of its entry before the first `/` |
| TwitchIrc.HandleFrame | src/server.js:122-139 | the only send is one `PONG :tmi.twitch.tv`, made iff the frame starts with `PING`; the socket closes iff the frame is not a ping and holds the login-failure notice; an event is published only for a matching frame, with nothing sent and no close |
| TwitchIrc.ChatLinePublished | src/server.js:130-138 | a well-formed chat line without the notice publishes exactly the event built from its parts |
| TwitchIrc.PrivmsgEvent | src/server.js:134-137 | username is the display-name tag when truthy, else the nick; text is the trim of the trailing text; colour is the colour tag when truthy, else null; badges are the badge types of the badges tag in order, or none |
| TwitchIrc.BlankChatTextPublished | src/server.js:135-138 | a chat line whose text is only whitespace publishes an event with empty text |
| TwitchIrc.NoticeInChatTextCloses | src/server.js:125-129 | a chat line whose text is the login-failure notice closes the socket and publishes nothing |
| TwitchExample.BobExample | src/server.js:130-138 | the example line with tags display-name, color and badges publishes Bob's "hello world" with colour `#FF0000` and the single badge `moderator` |
| TwitchIrc.TerminatedChatLineIgnored | src/server.js:130-131 | a well-formed chat line followed by CR LF, as the server sends it, publishes nothing |
| TwitchExample.BobTerminatedLineIgnored | src/server.js:130-131 | the example line followed by CR LF publishes nothing |
| TwitchIrc.StripLineEnding | src/server.js:123 | corrected behaviour, which the source does not have: the frame loses its final CR LF when it has one, and nothing else |
| TwitchIrc.TerminatedChatLinePublished | src/server.js:130-138 | corrected behaviour, which the source does not have: once the line ending is removed, a chat line sent with CR LF publishes the same event as the bare line |
| TwitchIrc.HandleLine | src/server.js:122-139 | the corrected handler, which the source does not have: it agrees with the handler as written on every frame without a final CR LF, and handles a frame with one as the frame without it |
| TwitchIrc.ChannelName | src/server.js:110 | the channel has no upper-case ASCII letter; it is the lower-cased name with only the first `#` removed, and unchanged apart from case when there is no `#` |
| TwitchIrc.Handshake | src/server.js:115-118 | four lines in order: the oauth password, the nick or `justinfan12345` when no username is known, the capability request, and the join of the channel |
| Credentials.Rotate | src/server.js:73-84 | a refresh succeeds iff the reply has a truthy access token; then both tokens are the reply's, otherwise (also on an exception) both are kept |
| Credentials.RotateKeepsAuthorized | src/server.js:73-84 | a store that holds an access token still holds one after any refresh |
| Credentials.ReconnectDelay | src/server.js:144 | 1000 ms after a successful refresh, 10000 ms otherwise |
| Credentials.CloseDelay | src/server.js:403-407 | the delay after a close is 1000 ms exactly when the refresh reply carried a truthy access token, and is always between 1000 and 10000 ms |
| Credentials.TokenStore.constructor | src/server.js:56-58 | the store starts with the configured tokens and bot username |
| Credentials.TokenStore.Refresh | src/server.js:60-85 | the new token pair and the result are those of `Rotate` on the old pair; the username is untouched |
| Credentials.TokenStore.Gate | src/server.js:103-108 | disabled iff the platform is not enabled; connect iff enabled and an access token is present; otherwise wait for authorisation |
| Credentials.TokenStore.OpenTwitch | src/server.js:113-120 | a known username is kept, else the fetched one is adopted; the lines sent are the handshake for that username |
| Credentials.TokenStore.OnClose | src/server.js:141-145 | the tokens are rotated by the reply, and the delay is the reconnect delay for that refresh outcome |
| KickPusher.StartKick | src/server.js:267-282 | disabled iff not enabled; a configured chatroom is joined as is, else the looked-up one; without either nothing is joined |
| KickPusher.BadgeTypes | src/server.js:318 | one badge per sender badge, in source order, each the badge's type |
| KickPusher.HandleFrame | src/server.js:309-322 | never closes; sends one pong iff the event is `pusher:ping`; an event is published only for a chat-message event whose payload decoded, and then has platform kick, non-empty text and a non-empty username |
| KickPusher.ChatReaction | src/server.js:313-319 | a decoded chat payload publishes iff its content is truthy, with platform kick, that content as text and a non-empty username; nothing is sent or closed |
| KickPusher.ChatFrameFields | src/server.js:313-319 | a chat message publishes iff its content is truthy; username is the sender's username, else its slug, else `Unknown`; the colour is the identity colour when truthy, else null; badges are the badge types in order; a payload without a sender publishes as `Unknown` with no colour and no badges |
| KickPusher.EmptyPayloadIgnored | src/server.js:313-319 | a chat message frame whose payload is empty publishes nothing |
| KickPusher.BadgeOrderExample | src/server.js:318 | badges moderator then subscriber map to `["moderator", "subscriber"]` |
| KickPusher.EncodedParseErrorIgnored | src/server.js:310-321 | a chat payload that is a string of invalid JSON is dropped without effect |
| JoystickCable.AuthorBadges | src/server.js:394-397 | the badges are streamer, moderator, subscriber, in that order, each present iff its flag is set |
| JoystickCable.HandleFrame | src/server.js:383-401 | nothing is ever sent or closed; an event is published only for a non-ping, non-confirmation frame whose payload is a new chat message, and then has platform joystick, non-empty text and a non-empty username |
| JoystickCable.AuthorName | src/server.js:391 | the author's username when truthy, else `Unknown`; never empty |
| JoystickCable.AuthorColor | src/server.js:393 | the author's colour, absent without an author |
| JoystickCable.ChatMessageFields | src/server.js:390-398 | a new chat message publishes iff its text is truthy, with the author's username or `Unknown`, the author's colour when truthy (else null), and the author's badges |
| JoystickCable.BadgeOrderExample | src/server.js:394-397 | a streamer who is a subscriber gets `["streamer", "subscriber"]` |
| YouTubePoll.Admit | src/server.js:242-244 | the admitted id becomes the newest entry and is the only id added |
| YouTubePoll.AdmitKeepsWindow | src/server.js:242-244 | admitting a new id keeps the window at most 500 ids without duplicates; it appends the id and, when the window was full, evicts exactly the oldest id |
| YouTubePoll.AdmitIsRecent | src/server.js:242-244 | admitting a new id to the window of a history gives the window of the history extended by that id |
| YouTubePoll.AdmitAllKeepsNewest | src/server.js:241-244 | offering distinct ids one by one leaves exactly the 500 most recent of them, in order |
| YouTubePoll.AuthorBadges | src/server.js:248-251 | the badges are owner, moderator, member, in that order, each present iff its flag is set |
| YouTubePoll.ItemEvent | src/server.js:248-252 | an item publishes on platform youtube with the author's display name, the item text, no colour and the author's badges |
| YouTubePoll.ConsumeWindow | src/server.js:241-253 | a seen id is skipped with nothing changed, its eviction position included; a new id is appended, evicting only the oldest on overflow; its item is then dropped for empty text, publishes its event and records its id when it has text and an author, or throws when it has text and no author |
| YouTubePoll.RunKeepsWindow | src/server.js:241-253 | processing a page keeps the window at most 500 ids without duplicates |
| YouTubePoll.RunStopsAtThrow | src/server.js:245-248 | once an item throws, the later items of the page change nothing |
| YouTubePoll.RunDeliversOnce | src/server.js:241-253 | within a page of at most 500 items no message id is published twice |
| YouTubePoll.RunWindowIsAdmitAll | src/server.js:241-244 | the window after the loop is the window offered each item id of the page in turn |
| YouTubePoll.FreshPageKeepsNewest | src/server.js:241-244 | on a page of distinct ids from an empty window the loop keeps exactly the newest 500 ids, oldest first |
| YouTubePoll.RunWindowSource | src/server.js:241-244 | the window only holds ids it held before or ids of the page |
| YouTubePoll.RunDeliversFresh | src/server.js:241-253 | a loop that did not throw publishes every item with text and author details whose id is new to the window and to the earlier items: its id, and at the same position the event built from its author and text |
| YouTubePoll.RunEventsMatchDelivered | src/server.js:241-253 | the loop publishes as many events as ids, and each event is the event of an item with text and author details whose id is published at the same position, so the distinct ids of `RunDeliversOnce` mean no message reaches the hub twice |
| YouTubePoll.RunPublishesYouTubeMessages | src/server.js:247-252 | every event the loop publishes is a YouTube event with non-empty text |
| YouTubePoll.RunAfterThrow | src/server.js:239-259 | once the loop has thrown, no further item has any effect |
| YouTubePoll.NextDelay | src/server.js:255 | the delay is the suggested interval when present and non-zero, else the configured one, floored at 2000 ms |
| YouTubePoll.Step | src/server.js:215-260 | every delay is at least 2000 ms; the window stays bounded and duplicate-free; the cursor and the window change only on a page the API accepted; events are published only from such a page, each is a YouTube event with non-empty text and the event of a page item whose id is published at the same position; a known chat id is kept |
| YouTubePoll.NoChatRetries | src/server.js:217-223 | without a chat id and with a lookup that finds none: retry after 30000 ms, no messages request, no events, cursor and window unchanged |
| YouTubePoll.ApiErrorRetries | src/server.js:217-237 | an API error, also on the poll that first finds the chat id: retry after 30000 ms, no events, cursor and window unchanged, the chat id kept; with a known chat id the state is unchanged |
| YouTubePoll.ThrownRetries | src/server.js:216-259 | an exception from the lookup or the fetch: retry after 10000 ms, no events, cursor and window unchanged; a throwing lookup leaves the whole state unchanged and requests no messages; a throwing fetch keeps the chat id the poll resolved |
| YouTubePoll.PageMovesCursor | src/server.js:217-239 | the request carries the known chat id, or the one the lookup just found, and the old cursor when truthy; an accepted page overwrites the cursor with its token |
| YouTubePoll.ThrowingPageRetries | src/server.js:239-259 | a page whose loop threw: retry after 10000 ms, the cursor moved to the page's token, the window and the events those of the items handled before the throw |
| YouTubePoll.AuthorlessItemThrows | src/server.js:245-249 | an item with text and no author throws: the earlier items keep their effect, its id is recorded, and later items are not handled |
| YouTubePoll.AuthorlessItemEndsPoll | src/server.js:239-259 | an item with text and no author details, anywhere in a page, makes the poll retry after 10000 ms with only the events of the items before it, but the cursor has moved and its id is recorded |
| YouTubePoll.PageDelay | src/server.js:255-256 | after a page handled without an exception, also on the first poll, the delay is `max(suggested or configured, 2000)` |
| YouTubePoll.TwoPollsDeliverOnce | src/server.js:241-259 | across two consecutive polls with at most 500 items between them, no message id is published twice, and each published event is the event of an item of the two pages whose id sits at the same position, so no message reaches the hub twice, even when the pages overlap and even when the first page throws |
| YouTubePoll.TwoPollsDeliverAll | src/server.js:241-253 | across two consecutive polls that did not throw, every message with text and author details new to the window is published at its first occurrence: its id, and at the same position its event; with `TwoPollsDeliverOnce`, exactly once |
| YouTubePoll.Poller.constructor | src/server.js:203-206 | a poller starts with no chat id, no cursor and an empty window |
| YouTubePoll.Poller.ConsumeItems | src/server.js:241-253 | the loop over a page leaves the window, and returns the events and the exception flag, that `Run` gives from the old window |
| YouTubePoll.Poller.Poll | src/server.js:215-260 | the new chat id, cursor and window, the events, the delay and the request made are exactly those of `Step`; the window invariant is kept |

## Left out

- The Express routes, the OAuth authorisation and callback pages and the status endpoint are web plumbing. They are not modelled, except that the token store's constructor takes the tokens the callback would install.
- Socket.io emission, the `ws` WebSocket lifecycle and the `error` handlers are transport. Sends are an output sequence, a close is a flag, and the event handed to the hub is an output.
- `fetch`, `JSON.parse` and `JSON.stringify` are foreign calls. Replies and frames are decoded datatypes, and a parse failure is a constructor. Only the JSON shapes the handlers read are modelled; a value of an unexpected JSON type (a number where a string is expected) is not.
- `setTimeout`, the concurrency between adapters and the recursion of the reconnect and poll loops are left out. Delays are returned as naturals and one call models one event-loop turn.
- `Date.now()` timestamps and console logging are left out. The timestamp is the clock's and carries no logic.
- `getJoystickBasicKey` is a base64 encoding (section 4 of RFC 4648). The Joystick socket URL built from it is not modelled.
- Reading the environment into `config` is left out; enable flags, the channel and the poll interval are parameters.
- `raw.toString()` decodes bytes as UTF-8. The model starts from the decoded string.
- JsText.ToLowerAscii: lower-cases ASCII capitals only. `toLowerCase` also maps other cased letters (`É` to `é`), and Unicode case mapping is not modelled.
- TwitchIrc.ChannelName: lower-cases ASCII letters only. `toLowerCase` also maps non-ASCII letters, and Unicode case mapping is not modelled.
- YouTubePoll.NextDelay: the configured interval is an integer. `parseInt` yielding NaN, and with it a NaN delay, is not modelled.
- YouTubePoll.Poller.Poll: an item whose author details lack a display name publishes `undefined` as the username in the source. The model takes the display name as a string.
- KickPusher.BadgeTypes: a badge without a `type` maps to `undefined` in the source. The model takes the type as a string.
- The subscribe frames sent when the Kick and Joystick sockets open are constants (`KickPusher.SubscribeFrame`, `JoystickCable.SubscribeCommand`). No property is stated about them.
- The YouTube adapter's enabled check only decides whether a poller is created. It is a single `if` with nothing to prove.
- The Kick reconnect delay is the constant `Credentials.KickReconnectDelay` (5000 ms).
- YouTubePoll.TwoPollsDeliverOnce: stated for at most 500 items over the two pages. With more, an id evicted from the window can be published again; that is the bound the window is built with.
- TwitchIrc.CollectLastWins: the tag object is a plain `{}`. Keys inherited from `Object.prototype` are not modelled: assigning `__proto__` a string or undefined has no effect in the source. The handler reads only `display-name`, `color` and `badges`, so no published event depends on this.
- TwitchIrc.ParseTagsLastEntry: as for `CollectLastWins`, stated for keys that are not inherited from `Object.prototype`; the key `__proto__` is not modelled.
- TwitchIrc.ParseTagsMissingKey: `tags[k]` for an inherited key such as `constructor` is the `Object.prototype` member in the source, not undefined. The handler reads none of these keys.

## Findings

| source | as written | input that shows it | evidently intended | confidence | as-written member | corrected member |
|---|---|---|---|---|---|---|
| src/server.js:130 | The PRIVMSG pattern has no multi-line flag and is applied to the whole frame. `(.+)$` must reach the end of the frame, and `.` does not match CR or LF. | Any chat line as Twitch sends it, with its CR LF ending (section 2.3 of RFC 1459), e.g. the `@display-name=Bob;…;badges=moderator/1 :bob!bob@bob.tmi.twitch.tv PRIVMSG #chan :hello world` line followed by `\r\n`: no event is published. | The line ending is not part of the text matched, so the line publishes Bob's message. | high, not executed | TwitchIrc.TerminatedChatLineIgnored, TwitchExample.BobTerminatedLineIgnored | TwitchIrc.TerminatedChatLinePublished (on `TwitchIrc.HandleLine`) |
