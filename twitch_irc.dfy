/** The Twitch adapter's protocol logic (IRC over WebSocket): the tag block,
    the anchored PRIVMSG pattern, dispatch of one inbound frame, the channel
    name and the handshake sent when the socket opens. An inbound frame is
    handled as one string: it is not split into lines. */
module TwitchIrc {
  import opened JsText
  import opened Broadcast

  // ---------------------------------------------------------------------------
  // Tag block: `split(';')`, then each entry `split('=')` into key and value

  /** Tag values by key; `None` is a key present with an `undefined` value. */
  type Tags = map<string, Option<string>>

  /** `entry.split('=')[0]`. */
  function EntryKey(entry: string): string {
    Split(entry, '=')[0]
  }

  /** `entry.split('=')[1]`: undefined when there is no `=`. */
  function EntryValue(entry: string): Option<string> {
    var parts := Split(entry, '=');
    if |parts| > 1 then Some(parts[1]) else None
  }

  /** The key is the text before the first `=`; the value runs from just after
      it to the second `=` (or the end), and is absent without any `=`. */
  lemma EntryShape(entry: string)
    ensures '=' !in entry ==> EntryKey(entry) == entry && EntryValue(entry) == None
    ensures '=' in entry ==>
      var i := IndexOf(entry, '=');
      EntryKey(entry) == entry[..i] && EntryValue(entry) == Some(Before(entry[i + 1..], '='))
  {
    if '=' in entry {
      var i := IndexOf(entry, '=');
      var parts := Split(entry, '=');
      assert parts == [entry[..i]] + Split(entry[i + 1..], '=');
    }
  }

  /** The object the `forEach` builds: each entry assigns its key, in order. */
  function Collect(entries: seq<string>): Tags
  {
    if entries == [] then map[]
    else
      var n := |entries| - 1;
      Collect(entries[..n])[EntryKey(entries[n]) := EntryValue(entries[n])]
  }

  /** Every key of the parsed tags is the key of some entry. */
  lemma {:induction false} CollectOnlyEntryKeys(entries: seq<string>, k: string)
    requires k in Collect(entries)
    ensures exists i :: 0 <= i < |entries| && EntryKey(entries[i]) == k
  {
    var n := |entries| - 1;
    var prefix := entries[..n];
    assert Collect(entries) == Collect(prefix)[EntryKey(entries[n]) := EntryValue(entries[n])];
    if k != EntryKey(entries[n]) {
      CollectOnlyEntryKeys(prefix, k);
      var i :| 0 <= i < n && EntryKey(prefix[i]) == k;
      assert prefix[i] == entries[i];
    }
  }

  function ParseTags(block: string): Tags {
    Collect(Split(block, ';'))
  }

  /** A later entry with the same key overwrites an earlier one: a key's value
      is the value of its last entry. */
  lemma {:induction false} CollectLastWins(entries: seq<string>, i: nat)
    requires i < |entries|
    requires forall j :: i < j < |entries| ==> EntryKey(entries[j]) != EntryKey(entries[i])
    ensures EntryKey(entries[i]) in Collect(entries)
    ensures Collect(entries)[EntryKey(entries[i])] == EntryValue(entries[i])
  {
    var n := |entries| - 1;
    var prefix := entries[..n];
    var key := EntryKey(entries[i]);
    var lastKey := EntryKey(entries[n]);
    var before := Collect(prefix);
    assert Collect(entries) == before[lastKey := EntryValue(entries[n])];
    if i < n {
      assert prefix[i] == entries[i];
      assert lastKey != key;
      forall j | i < j < n ensures EntryKey(prefix[j]) != EntryKey(prefix[i]) {
        assert prefix[j] == entries[j];
      }
      CollectLastWins(prefix, i);
      assert key in before && before[key] == EntryValue(entries[i]);
    }
  }

  /** The value a tag lookup `tags[k]` gives for a key the entries may set;
      absent and undefined alike are `None`. Keys inherited from
      `Object.prototype`, such as `constructor`, are not modelled. */
  function Lookup(tags: Tags, k: string): Option<string> {
    if k in tags then tags[k] else None
  }

  /** `tags[k]` after parsing a tag block is the value of the last entry with key `k`. */
  lemma ParseTagsLastEntry(block: string, i: nat)
    requires i < |Split(block, ';')|
    requires forall j :: i < j < |Split(block, ';')| ==>
      EntryKey(Split(block, ';')[j]) != EntryKey(Split(block, ';')[i])
    ensures var entry := Split(block, ';')[i];
      Lookup(ParseTags(block), EntryKey(entry)) == EntryValue(entry)
  {
    CollectLastWins(Split(block, ';'), i);
  }

  /** `tags[k]` is undefined when no entry of the tag block has key `k`. */
  lemma ParseTagsMissingKey(block: string, k: string)
    requires forall i :: 0 <= i < |Split(block, ';')| ==> EntryKey(Split(block, ';')[i]) != k
    ensures Lookup(ParseTags(block), k) == None
  {
    if k in Collect(Split(block, ';')) {
      CollectOnlyEntryKeys(Split(block, ';'), k);
    }
  }

  // ---------------------------------------------------------------------------
  // The pattern /^@([^ ]+) :([^!]+)![^ ]+ PRIVMSG #\S+ :(.+)$/
  //
  // No flags: `^` and `$` anchor the whole frame, `.` excludes line
  // terminators and `\S` excludes JavaScript whitespace. Every repeated class
  // is followed by a character the class excludes, so the match is unique and
  // is found by scanning each run to its end.

  /** The parts of a matching frame: the three captures and the two runs the
      pattern matches without capturing. */
  datatype Privmsg = Privmsg(tagBlock: string, nick: string, host: string, channel: string, text: string)

  datatype CharClass = NoSpace | NoBang | NoWhiteSpace | NoLineTerminator

  predicate Accepts(k: CharClass, c: char) {
    match k
    case NoSpace => c != ' '
    case NoBang => c != '!'
    case NoWhiteSpace => !IsJsSpace(c)
    case NoLineTerminator => !IsLineTerminator(c)
  }

  /** One or more characters of the class, as `k+` demands. */
  predicate IsRun(s: string, k: CharClass) {
    |s| > 0 && forall i :: 0 <= i < |s| ==> Accepts(k, s[i])
  }

  /** A run is recognised by the characters it contains. */
  lemma RunOfChars(s: string, k: CharClass)
    requires |s| > 0 && forall c :: c in s ==> Accepts(k, c)
    ensures IsRun(s, k)
  {
    assert forall i :: 0 <= i < |s| ==> s[i] in s;
  }

  /** The parts a frame is made of when the pattern matches it. */
  predicate WellFormed(m: Privmsg) {
    && IsRun(m.tagBlock, NoSpace)
    && IsRun(m.nick, NoBang)
    && IsRun(m.host, NoSpace)
    && IsRun(m.channel, NoWhiteSpace)
    && IsRun(m.text, NoLineTerminator)
  }

  /** The frame the pattern describes, assembled from its parts. */
  function Render(m: Privmsg): string {
    "@" + (m.tagBlock + (" :" + (m.nick + ("!" + (m.host + (" PRIVMSG #" + (m.channel + (" :" + m.text))))))))
  }

  /** End of the longest run of class `k` starting at `i`. */
  function Span(s: string, i: nat, k: CharClass): (j: nat)
    requires i <= |s|
    ensures i <= j <= |s|
    ensures forall p :: i <= p < j ==> Accepts(k, s[p])
    ensures j == |s| || !Accepts(k, s[j])
    decreases |s| - i
  {
    if i == |s| || !Accepts(k, s[i]) then i else Span(s, i + 1, k)
  }

  /** A run of class `k` at the start of `s`, then the literal `lit`: the run
      and what follows the literal. Since the run is scanned to its end, this
      is the only way `s` can be a run followed by `lit` when `lit` starts
      with a character outside the class. */
  function RunThen(s: string, k: CharClass, lit: string): (r: Option<(string, string)>)
    ensures r.Some? ==> IsRun(r.value.0, k) && s == r.value.0 + (lit + r.value.1)
  {
    var j := Span(s, 0, k);
    if j == 0 || j + |lit| > |s| || s[j..j + |lit|] != lit then None
    else
      assert IsRun(s[..j], k) by {
        forall p | 0 <= p < j ensures Accepts(k, s[..j][p]) {
          assert s[..j][p] == s[p];
        }
      }
      assert s == s[..j] + (s[j..j + |lit|] + s[j + |lit|..]);
      Some((s[..j], s[j + |lit|..]))
  }

  /** `data.match(...)`: the parts of the frame when the pattern matches it. */
  function MatchPrivmsg(s: string): (r: Option<Privmsg>)
    ensures r.Some? ==> WellFormed(r.value) && Render(r.value) == s
  {
    if |s| == 0 || s[0] != '@' then None
    else
      assert s == "@" + s[1..];
      match RunThen(s[1..], NoSpace, " :")
      case None => None
      case Some((tagBlock, afterTags)) =>
        match RunThen(afterTags, NoBang, "!")
        case None => None
        case Some((nick, afterNick)) =>
          match RunThen(afterNick, NoSpace, " PRIVMSG #")
          case None => None
          case Some((host, afterHost)) =>
            match RunThen(afterHost, NoWhiteSpace, " :")
            case None => None
            case Some((channel, text)) =>
              if IsRun(text, NoLineTerminator) then Some(Privmsg(tagBlock, nick, host, channel, text))
              else None
  }

  /** Scanning stops at the first character outside the class. */
  lemma {:induction false} SpanAt(s: string, i: nat, j: nat, k: CharClass)
    requires i <= j <= |s|
    requires forall p :: i <= p < j ==> Accepts(k, s[p])
    requires j == |s| || !Accepts(k, s[j])
    ensures Span(s, i, k) == j
    decreases j - i
  {
    if i < j {
      SpanAt(s, i + 1, j, k);
    }
  }

  /** A run followed by a literal that starts outside the run's class is
      split back into that run and what follows the literal. */
  lemma RunThenOver(run: string, lit: string, rest: string, k: CharClass)
    requires IsRun(run, k)
    requires lit != [] && !Accepts(k, lit[0])
    ensures RunThen(run + (lit + rest), k, lit) == Some((run, rest))
  {
    var s := run + (lit + rest);
    forall p | 0 <= p < |run| ensures Accepts(k, s[p]) {
      assert s[p] == run[p];
    }
    assert s[|run|] == lit[0];
    SpanAt(s, 0, |run|, k);
    assert s[|run|..|run| + |lit|] == lit;
    assert s[..|run|] == run;
    assert s[|run| + |lit|..] == rest;
  }

  /** Every frame assembled from well-formed parts is matched, with those very
      parts: together with the contract of `MatchPrivmsg` the pattern accepts
      exactly the renderings of well-formed parts. */
  lemma MatchRender(m: Privmsg)
    requires WellFormed(m)
    ensures MatchPrivmsg(Render(m)) == Some(m)
  {
    var s := Render(m);
    var tail3 := " :" + m.text;
    var tail2 := " PRIVMSG #" + (m.channel + tail3);
    var tail1 := "!" + (m.host + tail2);
    var tail0 := " :" + (m.nick + tail1);
    assert s[1..] == m.tagBlock + tail0;
    RunThenOver(m.tagBlock, " :", m.nick + tail1, NoSpace);
    RunThenOver(m.nick, "!", m.host + tail2, NoBang);
    RunThenOver(m.host, " PRIVMSG #", m.channel + tail3, NoSpace);
    RunThenOver(m.channel, " :", m.text, NoWhiteSpace);
  }

  // ---------------------------------------------------------------------------
  // Normalising a matched line

  /** `tags['display-name'] || nick`. */
  function DisplayName(tags: Tags, nick: string): string {
    OrElse(Lookup(tags, "display-name"), nick)
  }

  /** `tags['color'] || null`. */
  function TagColor(tags: Tags): Option<string> {
    if Truthy(Lookup(tags, "color")) then Lookup(tags, "color") else None
  }

  /** The type of each comma-separated badge entry: the part before its `/`. */
  function BadgeTypes(list: string): (r: seq<string>)
    ensures |r| == |Split(list, ',')|
    ensures forall i :: 0 <= i < |r| ==> r[i] == Before(Split(list, ',')[i], '/')
  {
    var entries := Split(list, ',');
    seq(|entries|, i requires 0 <= i < |entries| => Before(entries[i], '/'))
  }

  /** The badges tag mapped to types, or no badges when it is empty or absent. */
  function TagBadges(tags: Tags): seq<string> {
    if Truthy(Lookup(tags, "badges")) then BadgeTypes(Lookup(tags, "badges").value) else []
  }

  /** The event a matched PRIVMSG line publishes: the display name or else
      the sender nick, the trimmed text, the colour or null, and the badge
      types in the order of the badges tag. */
  function PrivmsgEvent(m: Privmsg): (e: ChatEvent)
    ensures
      var tags := ParseTags(m.tagBlock);
      && e.platform == Twitch
      && (Truthy(Lookup(tags, "display-name")) ==> e.username == Lookup(tags, "display-name").value)
      && (!Truthy(Lookup(tags, "display-name")) ==> e.username == m.nick)
      && IsTrimOf(e.message, m.text)
      && (e.color.Some? <==> Truthy(Lookup(tags, "color")))
      && (e.color.Some? ==> e.color == Lookup(tags, "color"))
      && (!Truthy(Lookup(tags, "badges")) ==> e.badges == [])
      && (Truthy(Lookup(tags, "badges")) ==>
            var entries := Split(Lookup(tags, "badges").value, ',');
            |e.badges| == |entries| && forall i :: 0 <= i < |entries| ==> e.badges[i] == Before(entries[i], '/'))
  {
    var tags := ParseTags(m.tagBlock);
    Normalize(Twitch, DisplayName(tags, m.nick), Trim(m.text), TagColor(tags), Some(TagBadges(tags)))
  }

  // ---------------------------------------------------------------------------
  // Frame dispatch

  const PingPrefix := "PING"
  const PongLine := "PONG :tmi.twitch.tv"
  const LoginFailedNotice := "NOTICE * :Login authentication failed"

  /** The `message` handler: answer a heartbeat, close on a failed login,
      publish a matching chat line, and ignore anything else. */
  function HandleFrame(data: string): (r: Reaction)
    ensures r.sends == [] || r.sends == [PongLine]
    ensures r.sends != [] <==> StartsWith(data, PingPrefix)
    ensures r.close <==> !StartsWith(data, PingPrefix) && Contains(data, LoginFailedNotice)
    ensures r.event.Some? ==> r.sends == [] && !r.close && MatchPrivmsg(data).Some?
    ensures r.event.Some? ==> r.event.value.platform == Twitch
  {
    if StartsWith(data, PingPrefix) then Reaction([PongLine], false, None)
    else if Contains(data, LoginFailedNotice) then Reaction([], true, None)
    else match MatchPrivmsg(data)
      case None => Quiet
      case Some(m) => Publish(PrivmsgEvent(m))
  }

  /** A well-formed chat line that does not carry the login-failure notice
      publishes exactly the event built from its parts. */
  lemma ChatLinePublished(m: Privmsg)
    requires WellFormed(m)
    requires !Contains(Render(m), LoginFailedNotice)
    ensures HandleFrame(Render(m)) == Publish(PrivmsgEvent(m))
  {
    MatchRender(m);
    RenderedNotPing(m, []);
    assert Render(m) + [] == Render(m);
  }

  /** A rendered frame, with anything after it, starts with `@` and so is not a ping. */
  lemma RenderedNotPing(m: Privmsg, tail: string)
    ensures !StartsWith(Render(m) + tail, PingPrefix)
  {
    var s := Render(m) + tail;
    assert s[0] == '@';
    if |PingPrefix| <= |s| {
      assert s[..|PingPrefix|][0] == s[0];
    }
  }

  /** The notice check looks at the whole frame, chat text included: a chat
      line whose text carries the notice closes the connection and publishes
      nothing. */
  lemma NoticeInChatTextCloses(m: Privmsg)
    requires WellFormed(m)
    requires m.text == LoginFailedNotice
    ensures HandleFrame(Render(m)) == Reaction([], true, None)
  {
    var t3 := " :" + m.text;
    var t2 := " PRIVMSG #" + (m.channel + t3);
    var t1 := "!" + (m.host + t2);
    var t0 := " :" + (m.nick + t1);
    assert StartsWith(m.text, LoginFailedNotice);
    ContainsInSuffix(" :", m.text, LoginFailedNotice);
    ContainsInSuffix(m.channel, t3, LoginFailedNotice);
    ContainsInSuffix(" PRIVMSG #", m.channel + t3, LoginFailedNotice);
    ContainsInSuffix(m.host, t2, LoginFailedNotice);
    ContainsInSuffix("!", m.host + t2, LoginFailedNotice);
    ContainsInSuffix(m.nick, t1, LoginFailedNotice);
    ContainsInSuffix(" :", m.nick + t1, LoginFailedNotice);
    ContainsInSuffix(m.tagBlock, t0, LoginFailedNotice);
    ContainsInSuffix("@", m.tagBlock + t0, LoginFailedNotice);
    RenderedNotPing(m, []);
    assert Render(m) + [] == Render(m);
  }

  /** A chat line whose text is only whitespace is still published, with
      empty text: the handler has no empty-text check of its own. */
  lemma BlankChatTextPublished(m: Privmsg)
    requires WellFormed(m) && AllSpace(m.text)
    requires !Contains(Render(m), LoginFailedNotice)
    ensures HandleFrame(Render(m)).event.Some?
    ensures HandleFrame(Render(m)).event.value.message == ""
  {
    ChatLinePublished(m);
    assert IsCoreAt([], m.text, 0) by {
      assert m.text[0..] == m.text;
    }
    TrimUnique([], m.text);
  }

  /** A frame that ends with a line terminator never matches: `.` does not
      match it and `$` is the end of the whole frame. */
  lemma TerminatedFrameNeverMatches(s: string)
    requires |s| > 0 && IsLineTerminator(s[|s| - 1])
    ensures MatchPrivmsg(s) == None
  {
  }

  // ---------------------------------------------------------------------------
  // Line endings
  //
  // Twitch ends every IRC line it sends with CR LF. The pattern above has no
  // multi-line flag, so `(.+)$` cannot match across that ending: a chat line
  // exactly as the server sends it never matches and is never published.

  const LineEnding := "\r\n"

  /** A chat line as the server sends it, with its CR LF ending, publishes nothing. */
  lemma TerminatedChatLineIgnored(m: Privmsg)
    requires WellFormed(m)
    requires !Contains(Render(m) + LineEnding, LoginFailedNotice)
    ensures HandleFrame(Render(m) + LineEnding) == Quiet
  {
    var s := Render(m) + LineEnding;
    TerminatedFrameNeverMatches(s);
    RenderedNotPing(m, LineEnding);
  }

  /** The frame without its final CR LF, if it has one. */
  function StripLineEnding(data: string): (r: string)
    ensures r + LineEnding == data || r == data
    ensures |r| < |data| <==> |data| >= 2 && data[|data| - 2..] == LineEnding
  {
    if |data| >= 2 && data[|data| - 2..] == LineEnding then data[..|data| - 2] else data
  }

  /** The handler as evidently intended: the line ending is not part of the
      text the pattern must match. */
  function HandleLine(data: string): (r: Reaction)
    ensures !(|data| >= 2 && data[|data| - 2..] == LineEnding) ==> r == HandleFrame(data)
    ensures |data| >= 2 && data[|data| - 2..] == LineEnding ==> r == HandleFrame(data[..|data| - 2])
  {
    HandleFrame(StripLineEnding(data))
  }

  /** With the ending removed, a chat line sent as the server sends it is
      published exactly as the bare line would be. */
  lemma TerminatedChatLinePublished(m: Privmsg)
    requires WellFormed(m)
    requires !Contains(Render(m), LoginFailedNotice)
    ensures HandleLine(Render(m) + LineEnding) == Publish(PrivmsgEvent(m))
  {
    var s := Render(m) + LineEnding;
    assert s[|s| - 2..] == LineEnding;
    assert StripLineEnding(s) == Render(m);
    ChatLinePublished(m);
  }

  // ---------------------------------------------------------------------------
  // Connecting

  /** Lower-casing commutes with taking a slice. */
  lemma LowerSlice(s: string, i: nat, j: nat)
    requires i <= j <= |s|
    ensures ToLowerAscii(s)[i..j] == ToLowerAscii(s[i..j])
  {
    assert forall p :: 0 <= p < j - i ==> s[i..j][p] == s[i + p];
  }

  /** Lower-casing leaves `#` where it was and adds no other `#`. */
  lemma LowerKeepsHash(s: string)
    ensures '#' in ToLowerAscii(s) <==> '#' in s
    ensures '#' in s ==> IndexOf(ToLowerAscii(s), '#') == IndexOf(s, '#')
  {
    var lower := ToLowerAscii(s);
    assert forall p :: 0 <= p < |s| ==> (lower[p] == '#' <==> s[p] == '#');
    if '#' in s {
      var i := IndexOf(s, '#');
      assert lower[i] == '#';
      assert forall p :: 0 <= p < i ==> s[..i][p] == s[p] && lower[..i][p] == lower[p];
    }
  }

  /** `channel.toLowerCase().replace('#', '')`, with lower-casing of ASCII letters. */
  function ChannelName(configured: string): (r: string)
    ensures forall i :: 0 <= i < |r| ==> !IsAsciiUpper(r[i])
    ensures '#' !in configured ==> r == ToLowerAscii(configured)
    ensures '#' in configured ==>
      var i := IndexOf(configured, '#');
      |r| == |configured| - 1 && r == ToLowerAscii(configured[..i]) + ToLowerAscii(configured[i + 1..])
  {
    var lower := ToLowerAscii(configured);
    LowerKeepsHash(configured);
    if '#' in configured then
      var i := IndexOf(configured, '#');
      LowerSlice(configured, 0, i);
      LowerSlice(configured, i + 1, |configured|);
      assert configured[0..i] == configured[..i] && lower[0..i] == lower[..i];
      assert configured[i + 1..|configured|] == configured[i + 1..] && lower[i + 1..|lower|] == lower[i + 1..];
      RemoveFirst(lower, '#')
    else
      RemoveFirst(lower, '#')
  }

  const AnonymousNick := "justinfan12345"
  const CapabilityRequest := "CAP REQ :twitch.tv/tags twitch.tv/commands"

  /** The lines sent when the socket opens, in order: the password, the nick
      (the anonymous nick when no username is known), the capability request
      and the join. */
  function Handshake(accessToken: string, username: Option<string>, channel: string): (lines: seq<string>)
    ensures |lines| == 4
    ensures lines[0] == "PASS oauth:" + accessToken
    ensures Truthy(username) ==> lines[1] == "NICK " + username.value
    ensures !Truthy(username) ==> lines[1] == "NICK " + AnonymousNick
    ensures lines[2] == CapabilityRequest
    ensures lines[3] == "JOIN #" + channel
  {
    ["PASS oauth:" + accessToken, "NICK " + OrElse(username, AnonymousNick), CapabilityRequest, "JOIN #" + channel]
  }
}
