/** A typical tagged chat line,
    `@display-name=Bob;color=#FF0000;badges=moderator/1 :bob!bob@bob.tmi.twitch.tv PRIVMSG #chan :hello world`,
    from its tag block through to the published event, and the same line as
    the server sends it, with its CR LF ending. The line is assembled from
    short pieces, and general facts about concatenations take it apart. */
module TwitchExample {
  import opened JsText
  import opened Broadcast
  import opened TwitchIrc

  // ---------------------------------------------------------------------------
  // Facts about assembled strings

  /** A rendered frame is the concatenation of its parts and literals, read left to right. */
  lemma RenderFlat(m: Privmsg)
    ensures Render(m) == "@" + m.tagBlock + " :" + m.nick + "!" + m.host + " PRIVMSG #" + m.channel + " :" + m.text
  {
  }

  lemma JoinTwo(a: string, b: string, sep: char)
    ensures Join([a, b], sep) == a + [sep] + b
  {
    assert [a, b][1..] == [b];
  }

  lemma JoinThree(a: string, b: string, c: string, sep: char)
    ensures Join([a, b, c], sep) == a + [sep] + b + [sep] + c
  {
    assert [a, b, c][1..] == [b, c];
    JoinTwo(b, c, sep);
  }

  /** Three tag entries are assigned in order. */
  lemma CollectThree(a: string, b: string, c: string)
    ensures Collect([a, b, c])
         == map[EntryKey(a) := EntryValue(a)][EntryKey(b) := EntryValue(b)][EntryKey(c) := EntryValue(c)]
  {
    assert [a, b, c][..2] == [a, b];
    assert [a, b][..1] == [a];
    assert [a][..0] == [];
    assert Collect([a]) == map[EntryKey(a) := EntryValue(a)];
    assert Collect([a, b]) == Collect([a])[EntryKey(b) := EntryValue(b)];
  }

  /** An entry `key=value` without a second `=` has that key and that value. */
  lemma EntryOf(key: string, value: string)
    requires '=' !in key && '=' !in value
    ensures EntryKey(key + "=" + value) == key && EntryValue(key + "=" + value) == Some(value)
  {
    JoinTwo(key, value, '=');
    SplitJoin([key, value], '=');
  }

  // ---------------------------------------------------------------------------
  // The example

  const BadgeList := "moderator" + "/" + "1"
  const DisplayNameEntry := "display-name" + "=" + "Bob"
  const ColorEntry := "color" + "=" + "#FF0000"
  const BadgesEntry := "badges" + "=" + BadgeList
  const BobTagBlock := DisplayNameEntry + ";" + ColorEntry + ";" + BadgesEntry
  const BobHost := "bob@bob" + ".tmi" + ".twitch.tv"
  const BobText := "hello" + " " + "world"
  const BobLine := Privmsg(BobTagBlock, "bob", BobHost, "chan", BobText)
  const BobFrame := "@" + BobTagBlock + " :" + "bob" + "!" + BobHost + " PRIVMSG #" + "chan" + " :" + BobText

  lemma BobFrameRendered()
    ensures Render(BobLine) == BobFrame
  {
    RenderFlat(BobLine);
  }

  /** Two runs of a class make a run of that class. */
  lemma RunAppend(a: string, b: string, k: CharClass)
    requires IsRun(a, k) && IsRun(b, k)
    ensures IsRun(a + b, k)
  {
    forall i | 0 <= i < |a + b| ensures Accepts(k, (a + b)[i]) {
      if i < |a| { assert (a + b)[i] == a[i]; } else { assert (a + b)[i] == b[i - |a|]; }
    }
  }

  lemma BobTagBlockIsRun()
    ensures IsRun(BobTagBlock, NoSpace)
  {
    RunOfChars("display-name", NoSpace);
    RunOfChars("=", NoSpace);
    RunOfChars("Bob", NoSpace);
    RunOfChars(";", NoSpace);
    RunOfChars("color", NoSpace);
    RunOfChars("#FF0000", NoSpace);
    RunOfChars("badges", NoSpace);
    RunOfChars("moderator", NoSpace);
    RunOfChars("/", NoSpace);
    RunOfChars("1", NoSpace);
    RunAppend("display-name", "=", NoSpace);
    RunAppend("display-name" + "=", "Bob", NoSpace);
    RunAppend(DisplayNameEntry, ";", NoSpace);
    RunAppend("color", "=", NoSpace);
    RunAppend("color" + "=", "#FF0000", NoSpace);
    RunAppend(DisplayNameEntry + ";", ColorEntry, NoSpace);
    RunAppend(DisplayNameEntry + ";" + ColorEntry, ";", NoSpace);
    RunAppend("moderator", "/", NoSpace);
    RunAppend("moderator" + "/", "1", NoSpace);
    RunAppend("badges", "=", NoSpace);
    RunAppend("badges" + "=", BadgeList, NoSpace);
    RunAppend(DisplayNameEntry + ";" + ColorEntry + ";", BadgesEntry, NoSpace);
  }

  lemma BobHostIsRun()
    ensures IsRun(BobHost, NoSpace)
  {
    RunOfChars("bob@bob", NoSpace);
    RunOfChars(".tmi", NoSpace);
    RunOfChars(".twitch.tv", NoSpace);
    RunAppend("bob@bob", ".tmi", NoSpace);
    RunAppend("bob@bob" + ".tmi", ".twitch.tv", NoSpace);
  }

  lemma BobTextIsRun()
    ensures IsRun(BobText, NoLineTerminator)
  {
    RunOfChars("hello", NoLineTerminator);
    RunOfChars(" ", NoLineTerminator);
    RunOfChars("world", NoLineTerminator);
    RunAppend("hello", " ", NoLineTerminator);
    RunAppend("hello" + " ", "world", NoLineTerminator);
  }

  lemma BobLineWellFormed()
    ensures WellFormed(BobLine)
  {
    BobTagBlockIsRun();
    RunOfChars("bob", NoBang);
    BobHostIsRun();
    RunOfChars("chan", NoWhiteSpace);
    BobTextIsRun();
  }

  lemma BobTagBlockWithoutStar()
    ensures '*' !in BobTagBlock
  {
    assert '*' !in DisplayNameEntry;
    assert '*' !in ColorEntry;
    assert '*' !in BadgesEntry;
  }

  lemma BobPartsWithoutStar()
    ensures '*' !in BobTagBlock && '*' !in BobHost && '*' !in BobText
  {
    BobTagBlockWithoutStar();
    assert '*' !in BobHost;
  }

  lemma BobFrameWithoutNotice()
    ensures !Contains(BobFrame, LoginFailedNotice)
    ensures !Contains(BobFrame + LineEnding, LoginFailedNotice)
  {
    assert LoginFailedNotice[7] == '*';
    BobPartsWithoutStar();
    assert '*' !in BobFrame;
    NotContainsByChar(BobFrame, LoginFailedNotice, 7);
    NotContainsByChar(BobFrame + LineEnding, LoginFailedNotice, 7);
  }

  lemma BobTagSplit()
    ensures Split(BobTagBlock, ';') == [DisplayNameEntry, ColorEntry, BadgesEntry]
  {
    assert ';' !in DisplayNameEntry && ';' !in ColorEntry && ';' !in BadgesEntry;
    JoinThree(DisplayNameEntry, ColorEntry, BadgesEntry, ';');
    SplitJoin([DisplayNameEntry, ColorEntry, BadgesEntry], ';');
  }

  lemma BobEntries()
    ensures EntryKey(DisplayNameEntry) == "display-name" && EntryValue(DisplayNameEntry) == Some("Bob")
    ensures EntryKey(ColorEntry) == "color" && EntryValue(ColorEntry) == Some("#FF0000")
    ensures EntryKey(BadgesEntry) == "badges" && EntryValue(BadgesEntry) == Some(BadgeList)
  {
    EntryOf("display-name", "Bob");
    EntryOf("color", "#FF0000");
    EntryOf("badges", BadgeList);
  }

  lemma BobTags()
    ensures ParseTags(BobTagBlock)
         == map["display-name" := Some("Bob")]["color" := Some("#FF0000")]["badges" := Some(BadgeList)]
  {
    BobTagSplit();
    BobEntries();
    CollectThree(DisplayNameEntry, ColorEntry, BadgesEntry);
  }

  lemma BobBadgeTypes()
    ensures BadgeTypes(BadgeList) == ["moderator"]
  {
    assert ',' !in BadgeList;
    JoinTwo("moderator", "1", '/');
    SplitJoin(["moderator", "1"], '/');
  }

  lemma BobTextTrimmed()
    ensures Trim(BobText) == BobText
  {
    var s := BobText;
    assert IsCoreAt(s, s, 0);
    TrimUnique(s, s);
  }

  lemma BobDisplayName()
    ensures DisplayName(ParseTags(BobTagBlock), "bob") == "Bob"
  {
    BobTags();
  }

  lemma BobColor()
    ensures TagColor(ParseTags(BobTagBlock)) == Some("#FF0000")
  {
    BobTags();
  }

  lemma BobBadges()
    ensures TagBadges(ParseTags(BobTagBlock)) == ["moderator"]
  {
    BobTags();
    BobBadgeTypes();
  }

  lemma BobEvent()
    ensures PrivmsgEvent(BobLine) == ChatEvent(Twitch, "Bob", BobText, Some("#FF0000"), ["moderator"])
  {
    BobDisplayName();
    BobColor();
    BobBadges();
    BobTextTrimmed();
  }

  /** The example text, assembled from its pieces, is the literal text. */
  lemma BobTextLiteral()
    ensures BobText == "hello world"
  {
    assert BobText[5] == ' ';
  }

  lemma BobPublished()
    ensures HandleFrame(BobFrame) == Publish(ChatEvent(Twitch, "Bob", BobText, Some("#FF0000"), ["moderator"]))
  {
    BobFrameRendered();
    BobLineWellFormed();
    BobFrameWithoutNotice();
    ChatLinePublished(BobLine);
    BobEvent();
  }

  /** The example line publishes Bob's message with his colour and his moderator badge. */
  lemma BobExample()
    ensures HandleFrame(BobFrame) == Publish(ChatEvent(Twitch, "Bob", "hello world", Some("#FF0000"), ["moderator"]))
  {
    BobPublished();
    BobTextLiteral();
  }

  /** The example line, sent with its line ending, is dropped. */
  lemma BobTerminatedLineIgnored()
    ensures HandleFrame(BobFrame + LineEnding) == Quiet
  {
    BobFrameRendered();
    BobLineWellFormed();
    BobFrameWithoutNotice();
    TerminatedChatLineIgnored(BobLine);
  }
}
