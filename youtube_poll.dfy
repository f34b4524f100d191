/** The YouTube adapter's poll loop: the live-chat lookup, the continuation
    cursor, the bounded dedup window of seen message ids with first-in
    first-out eviction, the per-item filter and badges, and the delay before
    the next poll. */
module YouTubePoll {
  import opened JsText
  import opened Broadcast

  /** Most ids the dedup window holds. */
  const Capacity: nat := 500
  /** Floor of the delay after a successful page. */
  const MinDelay: nat := 2000
  /** Retry delay when no live chat is active. */
  const NoChatDelay: nat := 30000
  /** Retry delay when the API reports an error. */
  const ApiErrorDelay: nat := 30000
  /** Retry delay after an exception. */
  const FailureDelay: nat := 10000

  datatype Author = Author(displayName: string, isChatOwner: bool, isChatModerator: bool, isChatSponsor: bool)

  /** A chat item: its id, its `authorDetails` and its `snippet.displayMessage`. */
  datatype Item = Item(id: string, author: Option<Author>, displayMessage: Option<string>)

  // ---------------------------------------------------------------------------
  // The dedup window: ids in insertion order, oldest first

  predicate Distinct(s: seq<string>) {
    forall i, j :: 0 <= i < j < |s| ==> s[i] != s[j]
  }

  /** What the window always is: no more than `Capacity` ids, none twice. */
  predicate WindowOk(w: seq<string>) {
    |w| <= Capacity && Distinct(w)
  }

  /** `seenIds.add(id)`, then the eviction of the oldest id on overflow. The
      caller admits only ids the window does not hold. */
  function Admit(w: seq<string>, id: string): (r: seq<string>)
    requires id !in w
    ensures r != [] && r[|r| - 1] == id
    ensures forall x :: x in r ==> x == id || x in w
  {
    var grown := w + [id];
    if |grown| > Capacity then grown[1..] else grown
  }

  /** Admitting keeps the window bounded and duplicate-free; the new id is the
      newest entry and only the oldest entry is ever evicted. */
  lemma AdmitKeepsWindow(w: seq<string>, id: string)
    requires WindowOk(w) && id !in w
    ensures WindowOk(Admit(w, id))
    ensures |w| < Capacity ==> Admit(w, id) == w + [id]
    ensures |w| == Capacity ==> Admit(w, id) == w[1..] + [id]
  {
  }

  /** The last `n` entries of `h`. */
  function Last(h: seq<string>, n: nat): (r: seq<string>)
    ensures |r| <= n && |r| <= |h|
  {
    if |h| <= n then h else h[|h| - n..]
  }

  /** The window is the most recent `Capacity` admissions: admitting an id the
      window lacks extends the history by that id. */
  lemma AdmitIsRecent(h: seq<string>, id: string)
    requires id !in Last(h, Capacity)
    ensures Admit(Last(h, Capacity), id) == Last(h + [id], Capacity)
  {
    var w := Last(h, Capacity);
    if |h| + 1 > Capacity {
      if |h| <= Capacity {
        assert (w + [id])[1..] == (h + [id])[|h| + 1 - Capacity..];
      } else {
        assert (w + [id])[1..] == (h + [id])[|h| + 1 - Capacity..];
      }
    }
  }

  /** Offering a sequence of ids to the window in turn; ids it holds are skipped. */
  function AdmitAll(w: seq<string>, ids: seq<string>): seq<string>
    decreases |ids|
  {
    if ids == [] then w
    else
      var v := AdmitAll(w, ids[..|ids| - 1]);
      var id := ids[|ids| - 1];
      if id in v then v else Admit(v, id)
  }

  /** The newest entry of duplicate-free ids is not among the recent earlier ones. */
  lemma LastLacksNewest(ids: seq<string>)
    requires Distinct(ids) && ids != []
    ensures ids[|ids| - 1] !in Last(ids[..|ids| - 1], Capacity)
  {
    var n := |ids| - 1;
    var v := Last(ids[..n], Capacity);
    forall k | 0 <= k < |v| ensures v[k] != ids[n] {
      assert v[k] == ids[n - |v| + k];
    }
  }

  /** Offering distinct ids to an empty window keeps exactly the most
      recently admitted `Capacity` of them, in admission order. */
  lemma {:induction false} AdmitAllKeepsNewest(ids: seq<string>)
    requires Distinct(ids)
    ensures AdmitAll([], ids) == Last(ids, Capacity)
    decreases |ids|
  {
    if ids != [] {
      var n := |ids| - 1;
      assert Distinct(ids[..n]);
      AdmitAllKeepsNewest(ids[..n]);
      LastLacksNewest(ids);
      AdmitIsRecent(ids[..n], ids[n]);
      assert ids[..n] + [ids[n]] == ids;
    }
  }

  // ---------------------------------------------------------------------------
  // Processing the items of one page

  /** The badges of an author, always in the order owner, moderator, member. */
  function AuthorBadges(a: Author): (r: seq<string>)
    ensures r == (if a.isChatOwner then ["owner"] else [])
               + (if a.isChatModerator then ["moderator"] else [])
               + (if a.isChatSponsor then ["member"] else [])
  {
    var b0: seq<string> := [];
    var b1 := if a.isChatOwner then b0 + ["owner"] else b0;
    var b2 := if a.isChatModerator then b1 + ["moderator"] else b1;
    if a.isChatSponsor then b2 + ["member"] else b2
  }

  /** The event an item publishes: YouTube carries no colour. */
  function ItemEvent(a: Author, text: string): (e: ChatEvent)
    ensures e.platform == YouTube && e.username == a.displayName && e.message == text
    ensures e.color == None && e.badges == AuthorBadges(a)
  {
    Normalize(YouTube, a.displayName, text, None, Some(AuthorBadges(a)))
  }

  /** The state of the loop over one page: the window, the events published,
      the ids admitted and the ids published, in order, and whether an item
      threw (an item with text and no author), which ends the loop. */
  datatype Batch = Batch(
    window: seq<string>,
    events: seq<ChatEvent>,
    admitted: seq<string>,
    delivered: seq<string>,
    threw: bool)

  function Start(w: seq<string>): Batch {
    Batch(w, [], [], [], false)
  }

  /** One iteration of the loop body. An id already in the window is skipped;
      a new id is recorded before its text is looked at, so an item dropped
      for empty text is still remembered. */
  function Consume(b: Batch, item: Item): Batch {
    if item.id in b.window then b
    else
      var b' := b.(window := Admit(b.window, item.id), admitted := b.admitted + [item.id]);
      if !Truthy(item.displayMessage) then b'
      else if item.author.None? then b'.(threw := true)
      else b'.(events := b.events + [ItemEvent(item.author.value, item.displayMessage.value)],
               delivered := b.delivered + [item.id])
  }

  /** Per item: an id the window holds is skipped, leaving the window and that
      id's place in the eviction order as they were; a new id becomes the
      newest entry, evicting exactly the oldest one on overflow, even when its
      item is then dropped for empty text. */
  lemma ConsumeWindow(b: Batch, item: Item)
    requires WindowOk(b.window)
    ensures item.id in b.window ==> Consume(b, item) == b
    ensures item.id !in b.window && |b.window| < Capacity ==> Consume(b, item).window == b.window + [item.id]
    ensures item.id !in b.window && |b.window| == Capacity ==> Consume(b, item).window == b.window[1..] + [item.id]
    ensures item.id !in b.window && !Truthy(item.displayMessage) ==>
      Consume(b, item) == b.(window := Consume(b, item).window, admitted := b.admitted + [item.id])
    ensures item.id !in b.window && Truthy(item.displayMessage) && item.author.Some? ==>
      Consume(b, item) == b.(window := Consume(b, item).window, admitted := b.admitted + [item.id],
                             events := b.events + [ItemEvent(item.author.value, item.displayMessage.value)],
                             delivered := b.delivered + [item.id])
    ensures item.id !in b.window && Truthy(item.displayMessage) && item.author.None? ==>
      Consume(b, item) == b.(window := Consume(b, item).window, admitted := b.admitted + [item.id], threw := true)
  {
    if item.id !in b.window {
      AdmitKeepsWindow(b.window, item.id);
    }
  }

  /** The loop over `items`, starting from `b`, stopping at the first throw. */
  function Run(b: Batch, items: seq<Item>): Batch
    decreases |items|
  {
    if items == [] then b
    else
      var p := Run(b, items[..|items| - 1]);
      if p.threw then p else Consume(p, items[|items| - 1])
  }

  /** The loop keeps the window bounded and duplicate-free. */
  lemma {:induction false} RunKeepsWindow(b: Batch, items: seq<Item>)
    ensures WindowOk(b.window) ==> WindowOk(Run(b, items).window)
    decreases |items|
  {
    if items != [] {
      var n := |items| - 1;
      RunKeepsWindow(b, items[..n]);
      var p := Run(b, items[..n]);
      if WindowOk(b.window) && !p.threw && items[n].id !in p.window {
        AdmitKeepsWindow(p.window, items[n].id);
      }
    }
  }

  /** Once an item throws, later items change nothing. */
  lemma {:induction false} RunStopsAtThrow(b: Batch, items: seq<Item>, i: nat)
    requires i <= |items| && Run(b, items[..i]).threw
    ensures Run(b, items) == Run(b, items[..i])
    decreases |items| - i
  {
    if i < |items| {
      assert items[..i + 1][..i] == items[..i];
      RunStopsAtThrow(b, items, i + 1);
    } else {
      assert items[..i] == items;
    }
  }

  /** A run that has thrown stays as it is. */
  lemma {:induction false} RunAfterThrow(b: Batch, items: seq<Item>)
    ensures b.threw ==> Run(b, items) == b
    decreases |items|
  {
    if items != [] {
      RunAfterThrow(b, items[..|items| - 1]);
    }
  }

  /** The ids of the items, in order. */
  function Ids(items: seq<Item>): (ids: seq<string>)
    ensures |ids| == |items| && forall i :: 0 <= i < |items| ==> ids[i] == items[i].id
  {
    seq(|items|, i requires 0 <= i < |items| => items[i].id)
  }

  /** The window after a run is the window offered each id of the page in
      turn: the loop is `AdmitAll` on the item ids. */
  lemma {:induction false} RunWindowIsAdmitAll(b: Batch, items: seq<Item>)
    requires !Run(b, items).threw
    ensures Run(b, items).window == AdmitAll(b.window, Ids(items))
    decreases |items|
  {
    if items != [] {
      var n := |items| - 1;
      RunWindowIsAdmitAll(b, items[..n]);
      assert Ids(items)[..n] == Ids(items[..n]);
    }
  }

  /** On a page of distinct ids seen from an empty window, the loop keeps
      exactly the newest `Capacity` ids, oldest first. */
  lemma FreshPageKeepsNewest(items: seq<Item>)
    requires Distinct(Ids(items)) && !Run(Start([]), items).threw
    ensures Run(Start([]), items).window == Last(Ids(items), Capacity)
  {
    RunWindowIsAdmitAll(Start([]), items);
    AdmitAllKeepsNewest(Ids(items));
  }

  /** The window only ever holds ids it held before or ids of the page. */
  lemma {:induction false} RunWindowSource(b: Batch, items: seq<Item>, id: string)
    requires id in Run(b, items).window
    ensures id in b.window || id in Ids(items)
    decreases |items|
  {
    if items != [] {
      var n := |items| - 1;
      assert Ids(items) == Ids(items[..n]) + [items[n].id];
      if id in Run(b, items[..n]).window {
        RunWindowSource(b, items[..n], id);
      }
    }
  }

  /** `e` is the event `item` publishes, and `id` is the item's id: the item
      has text and author details, and `e` is built from them. */
  predicate IsEventOf(item: Item, id: string, e: ChatEvent) {
    && item.id == id && Truthy(item.displayMessage) && item.author.Some?
    && e == ItemEvent(item.author.value, item.displayMessage.value)
  }

  /** Position `j` of the published ids and events is `item`'s id and event. */
  predicate DeliveredAt(ids: seq<string>, events: seq<ChatEvent>, j: int, item: Item) {
    0 <= j < |ids| && j < |events| && IsEventOf(item, ids[j], events[j])
  }

  /** Some item of `items` with id `id` publishes `e`. */
  ghost predicate PublishedBy(items: seq<Item>, id: string, e: ChatEvent) {
    exists k :: 0 <= k < |items| && IsEventOf(items[k], id, e)
  }

  /** The events are, position by position, the events of items of `items`
      whose ids are the published ids. */
  ghost predicate EventsMatch(items: seq<Item>, ids: seq<string>, events: seq<ChatEvent>) {
    |ids| == |events| && forall j :: 0 <= j < |ids| ==> PublishedBy(items, ids[j], events[j])
  }

  /** An iteration extends the events and the published ids, and by as many entries. */
  lemma ConsumeExtends(b: Batch, item: Item)
    ensures var c := Consume(b, item);
      && b.events <= c.events && b.delivered <= c.delivered
      && |c.events| - |b.events| == |c.delivered| - |b.delivered|
  {
  }

  /** A run publishes as many events as ids. */
  lemma {:induction false} RunLengths(b: Batch, items: seq<Item>)
    ensures |Run(b, items).events| - |b.events| == |Run(b, items).delivered| - |b.delivered|
    decreases |items|
  {
    if items != [] {
      var n := |items| - 1;
      RunLengths(b, items[..n]);
      ConsumeExtends(Run(b, items[..n]), items[n]);
    }
  }

  /** A run that did not throw publishes every item with text and author
      details whose id is new to the window and to the earlier items: its id
      is published, and at the same position its event. */
  lemma {:induction false} RunDeliversFresh(b: Batch, items: seq<Item>, k: nat)
    requires !Run(b, items).threw
    requires k < |items| && items[k].id !in b.window && items[k].id !in Ids(items[..k])
    requires Truthy(items[k].displayMessage) && items[k].author.Some?
    ensures items[k].id in Run(b, items).delivered
    ensures |b.events| == |b.delivered| ==>
      exists j :: DeliveredAt(Run(b, items).delivered, Run(b, items).events, j, items[k])
    decreases |items|
  {
    var n := |items| - 1;
    var p := Run(b, items[..n]);
    if k < n {
      assert items[..n][..k] == items[..k];
      assert items[..n][k] == items[k];
      RunDeliversFresh(b, items[..n], k);
      if |b.events| == |b.delivered| {
        var j :| DeliveredAt(p.delivered, p.events, j, items[k]);
        ConsumeKeepsDeliveredAt(p, items[n], j, items[k]);
      }
    } else {
      assert items[..k] == items[..n];
      if items[k].id in p.window {
        RunWindowSource(b, items[..n], items[k].id);
      }
      RunLengths(b, items[..n]);
      ConsumeDeliversAt(p, items[k]);
    }
  }

  /** An iteration keeps what earlier ones published in place. */
  lemma ConsumeKeepsDeliveredAt(b: Batch, item: Item, j: int, x: Item)
    requires DeliveredAt(b.delivered, b.events, j, x)
    ensures DeliveredAt(Consume(b, item).delivered, Consume(b, item).events, j, x)
  {
    ConsumeExtends(b, item);
  }

  /** A new item with text and author details is published at the next position. */
  lemma ConsumeDeliversAt(b: Batch, item: Item)
    requires item.id !in b.window && Truthy(item.displayMessage) && item.author.Some?
    ensures |b.events| == |b.delivered| ==>
      DeliveredAt(Consume(b, item).delivered, Consume(b, item).events, |b.delivered|, item)
  {
  }

  /** Every event a page publishes is a YouTube event with non-empty text. */
  predicate IsYouTubeMessage(e: ChatEvent) {
    e.platform == YouTube && e.message != ""
  }

  lemma {:induction false} RunPublishesYouTubeMessages(b: Batch, items: seq<Item>)
    requires forall e :: e in b.events ==> IsYouTubeMessage(e)
    ensures forall e :: e in Run(b, items).events ==> IsYouTubeMessage(e)
    decreases |items|
  {
    if items != [] {
      RunPublishesYouTubeMessages(b, items[..|items| - 1]);
    }
  }

  predicate IsSuffix(a: seq<string>, w: seq<string>) {
    |a| <= |w| && w[|w| - |a|..] == a
  }

  /** While no more than `Capacity` ids were admitted, the admitted ids are the
      newest entries of the window, and the published ids are admitted ids,
      none of them twice. */
  ghost predicate RunInvariant(b: Batch) {
    && WindowOk(b.window)
    && IsSuffix(b.admitted, b.window)
    && (forall x :: x in b.delivered ==> x in b.admitted)
    && Distinct(b.delivered)
  }

  /** The admitted ids stay the newest entries when one more is admitted. */
  lemma AdmitKeepsSuffix(w: seq<string>, a: seq<string>, id: string)
    requires IsSuffix(a, w) && id !in w && |a| < Capacity
    ensures IsSuffix(a + [id], Admit(w, id))
  {
    var grown := w + [id];
    var a' := a + [id];
    assert grown[|grown| - |a'|..] == a';
    if |grown| > Capacity {
      assert Admit(w, id)[|grown| - 1 - |a'|..] == grown[|grown| - |a'|..];
    }
  }

  /** Publishing an id that is in no earlier position keeps the published ids distinct. */
  lemma DistinctAppend(d: seq<string>, id: string)
    requires Distinct(d) && id !in d
    ensures Distinct(d + [id])
  {
  }

  lemma ConsumeKeepsRunInvariant(b: Batch, item: Item)
    requires RunInvariant(b) && |b.admitted| < Capacity
    ensures RunInvariant(Consume(b, item))
    ensures |Consume(b, item).admitted| <= |b.admitted| + 1
  {
    if item.id !in b.window {
      var w := Admit(b.window, item.id);
      var a := b.admitted + [item.id];
      AdmitKeepsWindow(b.window, item.id);
      AdmitKeepsSuffix(b.window, b.admitted, item.id);
      assert item.id !in b.admitted by {
        assert forall x :: x in b.admitted ==> x in b.window;
      }
      assert item.id !in b.delivered;
      var c := Consume(b, item);
      assert c.window == w && c.admitted == a;
      if c.delivered != b.delivered {
        assert c.delivered == b.delivered + [item.id];
        DistinctAppend(b.delivered, item.id);
      }
      assert forall x :: x in c.delivered ==> x in a;
    }
  }

  lemma {:induction false} RunKeepsRunInvariant(b: Batch, items: seq<Item>)
    requires RunInvariant(b) && |b.admitted| + |items| <= Capacity
    ensures RunInvariant(Run(b, items))
    ensures |Run(b, items).admitted| <= |b.admitted| + |items|
    decreases |items|
  {
    if items != [] {
      var n := |items| - 1;
      RunKeepsRunInvariant(b, items[..n]);
      var p := Run(b, items[..n]);
      if !p.threw {
        ConsumeKeepsRunInvariant(p, items[n]);
      }
    }
  }

  /** Within a page of no more than `Capacity` items no message is published twice. */
  lemma RunDeliversOnce(w: seq<string>, items: seq<Item>)
    requires WindowOk(w) && |items| <= Capacity
    ensures Distinct(Run(Start(w), items).delivered)
  {
    RunKeepsRunInvariant(Start(w), items);
  }

  /** Each published event is the event of an item whose id is published at
      the same position: with `RunDeliversOnce`, no message reaches the hub twice. */
  lemma {:induction false} RunEventsMatchDelivered(w: seq<string>, items: seq<Item>)
    ensures EventsMatch(items, Run(Start(w), items).delivered, Run(Start(w), items).events)
    decreases |items|
  {
    if items != [] {
      var n := |items| - 1;
      var p := Run(Start(w), items[..n]);
      var r := Run(Start(w), items);
      RunEventsMatchDelivered(w, items[..n]);
      ConsumeExtends(p, items[n]);
      forall j | 0 <= j < |r.delivered|
        ensures PublishedBy(items, r.delivered[j], r.events[j])
      {
        if j < |p.delivered| {
          var k :| 0 <= k < n && IsEventOf(items[..n][k], p.delivered[j], p.events[j]);
          assert items[..n][k] == items[k];
          assert IsEventOf(items[k], r.delivered[j], r.events[j]);
        } else {
          assert IsEventOf(items[n], r.delivered[j], r.events[j]);
        }
      }
    }
  }

  /** Matching events of two pages match on the two pages together. */
  lemma EventsMatchConcat(xs: seq<Item>, ys: seq<Item>, d1: seq<string>, e1: seq<ChatEvent>,
                          d2: seq<string>, e2: seq<ChatEvent>)
    requires EventsMatch(xs, d1, e1) && EventsMatch(ys, d2, e2)
    ensures EventsMatch(xs + ys, d1 + d2, e1 + e2)
  {
    var d := d1 + d2;
    var e := e1 + e2;
    forall j | 0 <= j < |d|
      ensures PublishedBy(xs + ys, d[j], e[j])
    {
      if j < |d1| {
        var k :| 0 <= k < |xs| && IsEventOf(xs[k], d1[j], e1[j]);
        assert (xs + ys)[k] == xs[k];
        assert IsEventOf((xs + ys)[k], d[j], e[j]);
      } else {
        var k :| 0 <= k < |ys| && IsEventOf(ys[k], d2[j - |d1|], e2[j - |d1|]);
        assert (xs + ys)[|xs| + k] == ys[k];
        assert IsEventOf((xs + ys)[|xs| + k], d[j], e[j]);
      }
    }
  }

  /** Running two lists is running their concatenation. */
  lemma {:induction false} RunConcat(b: Batch, xs: seq<Item>, ys: seq<Item>)
    ensures Run(b, xs + ys) == Run(Run(b, xs), ys)
    decreases |ys|
  {
    if ys == [] {
      assert xs + ys == xs;
    } else {
      var n := |ys| - 1;
      assert (xs + ys)[..|xs + ys| - 1] == xs + ys[..n];
      RunConcat(b, xs, ys[..n]);
    }
  }

  /** `b` followed by what a fresh run `r` produced. */
  function Append(b: Batch, r: Batch): Batch {
    Batch(r.window, b.events + r.events, b.admitted + r.admitted, b.delivered + r.delivered, r.threw)
  }

  /** One iteration after `b` adds to `b` what it adds to a fresh run. */
  lemma ConsumeAfter(b: Batch, r: Batch, item: Item)
    ensures Consume(Append(b, r), item) == Append(b, Consume(r, item))
  {
    if item.id !in r.window {
      assert (b.admitted + r.admitted) + [item.id] == b.admitted + (r.admitted + [item.id]);
      if Truthy(item.displayMessage) && item.author.Some? {
        var e := ItemEvent(item.author.value, item.displayMessage.value);
        assert (b.events + r.events) + [e] == b.events + (r.events + [e]);
        assert (b.delivered + r.delivered) + [item.id] == b.delivered + (r.delivered + [item.id]);
      }
    }
  }

  /** A run continuing from `b` adds to `b` exactly what a fresh run from
      `b`'s window produces. */
  lemma {:induction false} RunFrom(b: Batch, items: seq<Item>)
    requires !b.threw
    ensures Run(b, items) == Append(b, Run(Start(b.window), items))
    decreases |items|
  {
    if items == [] {
      assert b.events + [] == b.events && b.admitted + [] == b.admitted && b.delivered + [] == b.delivered;
    } else {
      var n := |items| - 1;
      RunFrom(b, items[..n]);
      var p := Run(Start(b.window), items[..n]);
      if !p.threw {
        ConsumeAfter(b, p, items[n]);
      }
    }
  }

  // ---------------------------------------------------------------------------
  // One poll

  /** The poll state kept between polls. */
  datatype PollState = PollState(liveChatId: Option<string>, nextPageToken: Option<string>, seen: seq<string>)

  /** The live-chat lookup: its result, or an exception. It is consulted only
      while no chat id is known. */
  datatype LookupReply = LookupThrew | LookupDone(chatId: Option<string>)

  /** The decoded messages response, or an exception while fetching or decoding it. */
  datatype PageReply =
    | PageThrew
    | ApiError
    | Page(nextPageToken: Option<string>, items: Option<seq<Item>>, pollingIntervalMillis: Option<int>)

  /** The messages request a poll makes, if any: the chat id and the page
      token, which is sent only when truthy. */
  datatype Fetch = NoFetch | FetchPage(chatId: string, pageToken: Option<string>)

  /** What one poll produces: the next state, the events published, the ids
      of the published items, the delay before the next poll and the request made. */
  datatype PollOutcome = PollOutcome(
    state: PollState,
    events: seq<ChatEvent>,
    delivered: seq<string>,
    delay: nat,
    fetch: Fetch)

  function Max(a: int, b: int): int {
    if a >= b then a else b
  }

  /** `Math.max(pollingIntervalMillis || configured, 2000)`. */
  function NextDelay(suggested: Option<int>, configured: int): (ms: nat)
    ensures ms >= MinDelay
    ensures suggested.Some? && suggested.value != 0 ==> ms == Max(suggested.value, MinDelay)
    ensures suggested.None? || suggested.value == 0 ==> ms == Max(configured, MinDelay)
  {
    var interval := if suggested.Some? && suggested.value != 0 then suggested.value else configured;
    Max(interval, MinDelay)
  }

  function ItemsOf(items: Option<seq<Item>>): seq<Item> {
    if items.Some? then items.value else []
  }

  /** The poll has a chat id to fetch with: one already known, or one the
      lookup made during this poll found. */
  predicate Resolves(st: PollState, lookup: LookupReply) {
    Truthy(st.liveChatId) || (lookup.LookupDone? && Truthy(lookup.chatId))
  }

  function ResolvedId(st: PollState, lookup: LookupReply): string
    requires Resolves(st, lookup)
  {
    if Truthy(st.liveChatId) then st.liveChatId.value else lookup.chatId.value
  }

  /** One run of `pollMessages`. */
  function Step(st: PollState, configured: int, lookup: LookupReply, page: PageReply): (o: PollOutcome)
    ensures o.delay >= MinDelay
    ensures WindowOk(st.seen) ==> WindowOk(o.state.seen)
    ensures o.state.nextPageToken != st.nextPageToken || o.state.seen != st.seen ==> page.Page?
    ensures o.events != [] ==> page.Page? && o.fetch.FetchPage?
    ensures forall e :: e in o.events ==> IsYouTubeMessage(e)
    ensures page.Page? ==> EventsMatch(ItemsOf(page.items), o.delivered, o.events)
    ensures Truthy(st.liveChatId) ==> o.state.liveChatId == st.liveChatId
  {
    if !Truthy(st.liveChatId) && lookup.LookupThrew? then
      PollOutcome(st, [], [], FailureDelay, NoFetch)
    else
      var chatId := if Truthy(st.liveChatId) then st.liveChatId else lookup.chatId;
      var st1 := st.(liveChatId := chatId);
      if !Truthy(chatId) then PollOutcome(st1, [], [], NoChatDelay, NoFetch)
      else
        var fetch := FetchPage(chatId.value, if Truthy(st.nextPageToken) then st.nextPageToken else None);
        match page
        case PageThrew => PollOutcome(st1, [], [], FailureDelay, fetch)
        case ApiError => PollOutcome(st1, [], [], ApiErrorDelay, fetch)
        case Page(token, items, suggested) =>
          var b := Run(Start(st.seen), ItemsOf(items));
          RunKeepsWindow(Start(st.seen), ItemsOf(items));
          RunPublishesYouTubeMessages(Start(st.seen), ItemsOf(items));
          RunEventsMatchDelivered(st.seen, ItemsOf(items));
          PollOutcome(st1.(nextPageToken := token, seen := b.window), b.events, b.delivered,
                      if b.threw then FailureDelay else NextDelay(suggested, configured), fetch)
  }

  /** Without a chat id and with a lookup that finds none, a poll retries after
      30 s and requests no messages. */
  lemma NoChatRetries(st: PollState, configured: int, chatId: Option<string>, page: PageReply)
    requires !Truthy(st.liveChatId) && !Truthy(chatId)
    ensures var o := Step(st, configured, LookupDone(chatId), page);
      && o.delay == NoChatDelay && o.fetch == NoFetch && o.events == []
      && o.state.nextPageToken == st.nextPageToken && o.state.seen == st.seen
  {
  }

  /** An error the API reports makes the poll retry after 30 s with the
      cursor and the window as they were; a chat id the lookup found in the
      same poll is kept. */
  lemma ApiErrorRetries(st: PollState, configured: int, lookup: LookupReply)
    requires Resolves(st, lookup)
    ensures var o := Step(st, configured, lookup, ApiError);
      && o.delay == ApiErrorDelay && o.events == [] && o.fetch.FetchPage?
      && o.state.liveChatId == Some(ResolvedId(st, lookup))
      && o.state.nextPageToken == st.nextPageToken && o.state.seen == st.seen
      && (Truthy(st.liveChatId) ==> o.state == st)
  {
  }

  /** An exception during the lookup or the fetch makes the poll retry after
      10 s with the cursor and the window as they were. A throwing lookup
      leaves the state untouched and requests no messages; a throwing fetch
      keeps the chat id the poll resolved. */
  lemma ThrownRetries(st: PollState, configured: int, lookup: LookupReply, page: PageReply)
    requires (!Truthy(st.liveChatId) && lookup.LookupThrew?) || page.PageThrew?
    requires Truthy(st.liveChatId) || lookup.LookupThrew? || Truthy(lookup.chatId)
    ensures var o := Step(st, configured, lookup, page);
      && o.delay == FailureDelay && o.events == []
      && o.state.nextPageToken == st.nextPageToken && o.state.seen == st.seen
      && (!Truthy(st.liveChatId) && lookup.LookupThrew? ==> o.state == st && o.fetch == NoFetch)
      && (page.PageThrew? && Resolves(st, lookup) ==>
            o.state.liveChatId == Some(ResolvedId(st, lookup)) && o.fetch.FetchPage?)
  {
  }

  /** The request carries the chat id (the one the lookup just found, on the
      first poll) and the previous cursor when it was truthy; a page the API
      accepted overwrites the cursor. */
  lemma PageMovesCursor(st: PollState, configured: int, lookup: LookupReply,
                        token: Option<string>, items: Option<seq<Item>>, suggested: Option<int>)
    requires Resolves(st, lookup)
    ensures var o := Step(st, configured, lookup, Page(token, items, suggested));
      && o.state.nextPageToken == token
      && o.state.liveChatId == Some(ResolvedId(st, lookup))
      && o.fetch == FetchPage(ResolvedId(st, lookup), if Truthy(st.nextPageToken) then st.nextPageToken else None)
  {
  }

  /** A page whose loop threw makes the poll retry after 10 s, yet the cursor
      has moved to the page's token, and the window and the events are those
      of the items handled before the throw. */
  lemma ThrowingPageRetries(st: PollState, configured: int, lookup: LookupReply,
                            token: Option<string>, items: Option<seq<Item>>, suggested: Option<int>)
    requires Resolves(st, lookup)
    requires Run(Start(st.seen), ItemsOf(items)).threw
    ensures var o := Step(st, configured, lookup, Page(token, items, suggested));
      var b := Run(Start(st.seen), ItemsOf(items));
      && o.delay == FailureDelay && o.state.nextPageToken == token
      && o.state.seen == b.window && o.events == b.events
  {
  }

  /** An item with text and no author details throws: the items before it
      keep their effect, the item's id is recorded, and the items after it
      are never handled. */
  lemma AuthorlessItemThrows(w: seq<string>, before: seq<Item>, item: Item, after: seq<Item>)
    requires !Run(Start(w), before).threw && item.id !in Run(Start(w), before).window
    requires Truthy(item.displayMessage) && item.author.None?
    ensures var p := Run(Start(w), before);
      var r := Run(Start(w), before + [item] + after);
      && r.threw && r.events == p.events && r.delivered == p.delivered && item.id in r.window
  {
    var b := Start(w);
    var withItem := before + [item];
    assert withItem[..|withItem| - 1] == before;
    RunConcat(b, withItem, after);
    RunAfterThrow(Run(b, withItem), after);
  }

  /** An item with text and no author details ends the poll: it retries after
      10 s with only the events of the items before it, but the cursor has
      already moved to the page's token and the item's id stays recorded, so
      the rest of the page is never seen again. */
  lemma AuthorlessItemEndsPoll(st: PollState, configured: int, lookup: LookupReply,
                               token: Option<string>, suggested: Option<int>,
                               before: seq<Item>, item: Item, after: seq<Item>)
    requires Resolves(st, lookup)
    requires !Run(Start(st.seen), before).threw && item.id !in Run(Start(st.seen), before).window
    requires Truthy(item.displayMessage) && item.author.None?
    ensures var o := Step(st, configured, lookup, Page(token, Some(before + [item] + after), suggested));
      && o.delay == FailureDelay && o.events == Run(Start(st.seen), before).events
      && o.state.nextPageToken == token && item.id in o.state.seen
  {
    AuthorlessItemThrows(st.seen, before, item, after);
  }

  /** After a page whose items were all handled, the delay is the suggested
      interval (or the configured one when none is suggested), floored at 2 s. */
  lemma PageDelay(st: PollState, configured: int, lookup: LookupReply,
                  token: Option<string>, items: Option<seq<Item>>, suggested: Option<int>)
    requires Resolves(st, lookup)
    requires !Run(Start(st.seen), ItemsOf(items)).threw
    ensures var o := Step(st, configured, lookup, Page(token, items, suggested));
      && o.delay == NextDelay(suggested, configured)
      && o.delay == Max(if suggested.Some? && suggested.value != 0 then suggested.value else configured, MinDelay)
  {
  }

  /** Two consecutive polls whose pages overlap publish every message at most
      once, as long as the two pages hold no more than `Capacity` items: the
      published ids are distinct, and each published event is the event of an
      item whose id sits at the same position. This holds also when the first
      page throws: its window keeps every id admitted before the throw, and
      the second poll starts from it. */
  lemma TwoPollsDeliverOnce(st: PollState, configured: int,
                            lookup1: LookupReply, token1: Option<string>, items1: seq<Item>, suggested1: Option<int>,
                            lookup2: LookupReply, token2: Option<string>, items2: seq<Item>, suggested2: Option<int>)
    requires Resolves(st, lookup1) && WindowOk(st.seen)
    requires |items1| + |items2| <= Capacity
    ensures
      var o1 := Step(st, configured, lookup1, Page(token1, Some(items1), suggested1));
      var o2 := Step(o1.state, configured, lookup2, Page(token2, Some(items2), suggested2));
      && Distinct(o1.delivered + o2.delivered)
      && EventsMatch(items1 + items2, o1.delivered + o2.delivered, o1.events + o2.events)
  {
    var o1 := Step(st, configured, lookup1, Page(token1, Some(items1), suggested1));
    var o2 := Step(o1.state, configured, lookup2, Page(token2, Some(items2), suggested2));
    EventsMatchConcat(items1, items2, o1.delivered, o1.events, o2.delivered, o2.events);
    RunsPublishDistinct(st.seen, items1, items2);
  }

  /** The loops of two consecutive pages, the second starting from the window
      the first left, publish distinct ids. */
  lemma RunsPublishDistinct(w: seq<string>, items1: seq<Item>, items2: seq<Item>)
    requires WindowOk(w) && |items1| + |items2| <= Capacity
    ensures var b1 := Run(Start(w), items1);
      Distinct(b1.delivered + Run(Start(b1.window), items2).delivered)
  {
    var b1 := Run(Start(w), items1);
    if b1.threw {
      RunKeepsRunInvariant(Start(w), items1);
      var c := b1.(threw := false);
      RunKeepsRunInvariant(c, items2);
      RunFrom(c, items2);
    } else {
      RunConcat(Start(w), items1, items2);
      RunFrom(b1, items2);
      RunDeliversOnce(w, items1 + items2);
    }
  }

  /** Two consecutive polls whose items all are handled publish every message
      with text and author details that is new to the window, at its first
      occurrence in the two pages: its id, and at the same position the event
      built from it. With `TwoPollsDeliverOnce` each such message is
      published exactly once. */
  lemma TwoPollsDeliverAll(st: PollState, configured: int,
                           lookup1: LookupReply, token1: Option<string>, items1: seq<Item>, suggested1: Option<int>,
                           lookup2: LookupReply, token2: Option<string>, items2: seq<Item>, suggested2: Option<int>,
                           k: nat)
    requires Resolves(st, lookup1)
    requires !Run(Start(st.seen), items1 + items2).threw
    requires k < |items1 + items2|
    requires (items1 + items2)[k].id !in st.seen && (items1 + items2)[k].id !in Ids((items1 + items2)[..k])
    requires Truthy((items1 + items2)[k].displayMessage) && (items1 + items2)[k].author.Some?
    ensures
      var o1 := Step(st, configured, lookup1, Page(token1, Some(items1), suggested1));
      var o2 := Step(o1.state, configured, lookup2, Page(token2, Some(items2), suggested2));
      && (items1 + items2)[k].id in o1.delivered + o2.delivered
      && exists j :: DeliveredAt(o1.delivered + o2.delivered, o1.events + o2.events, j, (items1 + items2)[k])
  {
    var b0 := Start(st.seen);
    var b1 := Run(b0, items1);
    RunConcat(b0, items1, items2);
    RunAfterThrow(b1, items2);
    RunFrom(b1, items2);
    RunDeliversFresh(b0, items1 + items2, k);
    var r := Run(b0, items1 + items2);
    var j :| DeliveredAt(r.delivered, r.events, j, (items1 + items2)[k]);
    var o1 := Step(st, configured, lookup1, Page(token1, Some(items1), suggested1));
    var o2 := Step(o1.state, configured, lookup2, Page(token2, Some(items2), suggested2));
    assert r.delivered == o1.delivered + o2.delivered && r.events == o1.events + o2.events;
    assert DeliveredAt(o1.delivered + o2.delivered, o1.events + o2.events, j, (items1 + items2)[k]);
  }

  // ---------------------------------------------------------------------------
  // The poller

  /** The closure state of `connectYoutube`, updated in place by each poll. */
  class Poller {
    const pollInterval: int
    var liveChatId: Option<string>
    var nextPageToken: Option<string>
    var seenIds: seq<string>

    ghost predicate Valid()
      reads this
    {
      WindowOk(seenIds)
    }

    function State(): PollState
      reads this
    {
      PollState(liveChatId, nextPageToken, seenIds)
    }

    constructor (pollInterval: int)
      ensures Valid()
      ensures this.pollInterval == pollInterval
      ensures State() == PollState(None, None, [])
    {
      this.pollInterval := pollInterval;
      liveChatId := None;
      nextPageToken := None;
      seenIds := [];
    }

    /** The loop over the items of one page: it updates the window in place
        and stops at the first item that throws. */
    method ConsumeItems(list: seq<Item>) returns (events: seq<ChatEvent>, threw: bool)
      modifies this`seenIds
      ensures var b := Run(Start(old(seenIds)), list);
        seenIds == b.window && events == b.events && threw == b.threw
    {
      ghost var w0 := seenIds;
      ghost var admitted: seq<string> := [];
      ghost var delivered: seq<string> := [];
      events := [];
      threw := false;
      var i := 0;
      while i < |list| && !threw
        invariant 0 <= i <= |list|
        invariant Run(Start(w0), list[..i]) == Batch(seenIds, events, admitted, delivered, threw)
      {
        var item := list[i];
        assert list[..i + 1][..i] == list[..i];
        if item.id !in seenIds {
          seenIds := seenIds + [item.id];
          if |seenIds| > Capacity {
            seenIds := seenIds[1..];
          }
          admitted := admitted + [item.id];
          if Truthy(item.displayMessage) {
            if item.author.None? {
              threw := true;
            } else {
              events := events + [ItemEvent(item.author.value, item.displayMessage.value)];
              delivered := delivered + [item.id];
            }
          }
        }
        i := i + 1;
      }
      if i == |list| {
        assert list[..i] == list;
      } else {
        RunStopsAtThrow(Start(w0), list, i);
      }
    }

    /** `pollMessages`: one poll, with the lookup and page replies given. */
    method Poll(lookup: LookupReply, page: PageReply) returns (events: seq<ChatEvent>, delay: nat, fetch: Fetch)
      requires Valid()
      modifies this
      ensures Valid()
      ensures var o := Step(old(State()), pollInterval, lookup, page);
        State() == o.state && events == o.events && delay == o.delay && fetch == o.fetch
    {
      events := [];
      if !Truthy(liveChatId) {
        match lookup {
          case LookupThrew =>
            delay, fetch := FailureDelay, NoFetch;
            return;
          case LookupDone(chatId) =>
            liveChatId := chatId;
        }
        if !Truthy(liveChatId) {
          delay, fetch := NoChatDelay, NoFetch;
          return;
        }
      }
      fetch := FetchPage(liveChatId.value, if Truthy(nextPageToken) then nextPageToken else None);
      match page {
        case PageThrew =>
          delay := FailureDelay;
        case ApiError =>
          delay := ApiErrorDelay;
        case Page(token, items, suggested) =>
          nextPageToken := token;
          ghost var w0 := seenIds;
          var threw;
          events, threw := ConsumeItems(ItemsOf(items));
          RunKeepsWindow(Start(w0), ItemsOf(items));
          delay := if threw then FailureDelay else NextDelay(suggested, pollInterval);
      }
    }
  }
}
