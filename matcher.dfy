/** The history scan of `fetchhistory` as a specification: which messages are
    looked at, which keywords match, what is appended to the message log, and
    which direct messages the coalescing notifier sends or edits. The scan is
    a left fold over target channels, their messages, the invoking user's
    keywords and each keyword's subscribers; `Bot.Tracker.FetchHistory` runs
    the same loops imperatively and is proved equal to `Fetch`. */
module Matcher {
  import opened Wrappers
  import opened Lists
  import opened Text
  import opened Dates
  import opened WatchList
  import opened MessageLog
  import opened OrderedMaps

  /** `bot.command_prefix`: messages starting with it are commands. */
  const CommandPrefix: string := ".."

  /** Author name logged when the author is not a cached guild member. */
  const UnknownAuthor: string := "Unknown"

  datatype StickerFormat = Png | Apng | Lottie | Gif

  /** A message of a channel's history, as the scan sees it. */
  datatype Message = Message(author: Snowflake, content: string, stickers: seq<StickerFormat>, createdAt: Instant)

  /** A direct-message side effect: a first notice, or an edit of that notice
      to the running mention count. */
  datatype Event =
    | Send(sub: Snowflake, keyword: string, channel: Snowflake)
    | Edit(sub: Snowflake, keyword: string, count: nat)

  /** Everything the scan reads besides the messages: the bot's own id, the
      guild's member display names (`get_member`), the ids `get_user`
      resolves, the invoking user's watch list for the guild (`None` when
      there is none) and the inclusive date window. */
  datatype Scan = Scan(
    botId: Snowflake,
    members: map<Snowflake, string>,
    users: set<Snowflake>,
    watched: Option<seq<(string, Entry)>>,
    start: Date,
    end: Date)

  /** The scan's state: the message log, `fetched_messages`, the mention
      count of each `(subscriber, keyword)` notice (`notification_messages`;
      a key is present once its notice was sent) and the side effects so far. */
  datatype Batch = Batch(log: Log, fetched: nat, counters: map<(Snowflake, string), nat>, trace: seq<Event>)

  /** `member.display_name`, or `"Unknown"` when `get_member` finds nobody. */
  function DisplayName(members: map<Snowflake, string>, author: Snowflake): string {
    if author in members then members[author] else UnknownAuthor
  }

  predicate StickerAllowed(f: StickerFormat) {
    f == Png || f == Apng || f == Lottie
  }

  predicate StickersAllowed(stickers: seq<StickerFormat>) {
    forall i | 0 <= i < |stickers| :: StickerAllowed(stickers[i])
  }

  /** A message is looked at only if it is not the bot's, is not a command,
      carries only allowed sticker formats, the invoking user watches words in
      the guild, and its date lies in the window. */
  predicate Accepted(sc: Scan, m: Message) {
    && m.author != sc.botId
    && !StartsWith(m.content, CommandPrefix)
    && StickersAllowed(m.stickers)
    && sc.watched.Some?
    && InWindow(m.createdAt.date, sc.start, sc.end)
  }

  function CountFor(counters: map<(Snowflake, string), nat>, sub: Snowflake, kw: string): nat {
    if (sub, kw) in counters then counters[(sub, kw)] else 0
  }

  /** One subscriber of a matched keyword: nothing if `get_user` does not
      resolve it; otherwise the count goes up by one and the first hit sends a
      notice while later hits edit it to the new count. */
  function NotifyOne(b: Batch, users: set<Snowflake>, sub: Snowflake, kw: string, channel: Snowflake): Batch {
    if sub !in users then b
    else
      var n := CountFor(b.counters, sub, kw) + 1;
      var ev := if (sub, kw) in b.counters then Edit(sub, kw, n) else Send(sub, kw, channel);
      b.(counters := b.counters[(sub, kw) := n], trace := b.trace + [ev])
  }

  function NotifyAll(b: Batch, users: set<Snowflake>, subs: seq<Snowflake>, kw: string, channel: Snowflake): Batch {
    if subs == [] then b
    else NotifyOne(NotifyAll(b, users, subs[..|subs| - 1], kw, channel), users, subs[|subs| - 1], kw, channel)
  }

  /** The record logged for a message. */
  function RecordFor(sc: Scan, m: Message): Record {
    Record(DisplayName(sc.members, m.author), m.content, m.createdAt)
  }

  /** One keyword of the watch list against an accepted message: on a match,
      append the record under the message's date and `str(channel.id)`,
      notify the subscribers and count the hit. */
  function KeywordStep(b: Batch, sc: Scan, channel: Snowflake, m: Message, item: (string, Entry)): Batch {
    var (kw, entry) := item;
    if !Matches(kw, m.content) then b
    else
      var b1 := b.(log := AppendRecord(b.log, m.createdAt.date, DecimalString(channel), RecordFor(sc, m)));
      var b2 := NotifyAll(b1, sc.users, entry.notifyUsers, kw, channel);
      b2.(fetched := b2.fetched + 1)
  }

  function Keywords(b: Batch, sc: Scan, channel: Snowflake, m: Message, items: seq<(string, Entry)>): Batch {
    if items == [] then b
    else KeywordStep(Keywords(b, sc, channel, m, items[..|items| - 1]), sc, channel, m, items[|items| - 1])
  }

  function MessageStep(b: Batch, sc: Scan, channel: Snowflake, m: Message): Batch {
    if Accepted(sc, m) then Keywords(b, sc, channel, m, sc.watched.value) else b
  }

  function Messages(b: Batch, sc: Scan, channel: Snowflake, msgs: seq<Message>): Batch {
    if msgs == [] then b
    else MessageStep(Messages(b, sc, channel, msgs[..|msgs| - 1]), sc, channel, msgs[|msgs| - 1])
  }

  function Channels(b: Batch, sc: Scan, channels: seq<Snowflake>, history: Snowflake -> seq<Message>): Batch {
    if channels == [] then b
    else
      var c := channels[|channels| - 1];
      Messages(Channels(b, sc, channels[..|channels| - 1], history), sc, c, history(c))
  }

  /** The channels scanned: those named in the command, or every text channel
      of the guild when none is named. */
  function Targets(requested: seq<Snowflake>, textChannels: seq<Snowflake>): seq<Snowflake> {
    if requested != [] then requested else textChannels
  }

  /** One `fetchhistory` run: the counters and the side effects start empty. */
  function Fetch(log: Log, sc: Scan, targets: seq<Snowflake>, history: Snowflake -> seq<Message>): Batch {
    Channels(Batch(log, 0, map[], []), sc, targets, history)
  }

  // ---------------------------------------------------------------------------
  // Coalescing of notifications

  /** The side effects concerning one `(subscriber, keyword)` notice. */
  function EventsFor(trace: seq<Event>, sub: Snowflake, kw: string): seq<Event> {
    if trace == [] then []
    else
      var e := trace[|trace| - 1];
      EventsFor(trace[..|trace| - 1], sub, kw) + (if e.sub == sub && e.keyword == kw then [e] else [])
  }

  /** One send, then edits carrying the counts 2, 3, ... */
  predicate CoalescedRun(evs: seq<Event>) {
    forall k | 0 <= k < |evs| :: if k == 0 then evs[k].Send? else evs[k].Edit? && evs[k].count == k + 1
  }

  /** For every notice: its side effects form a coalesced run whose length is
      the stored count, and a subscriber that does not resolve has none. */
  ghost predicate Coalescing(b: Batch, users: set<Snowflake>) {
    forall sub: Snowflake, kw: string ::
      && CoalescedRun(EventsFor(b.trace, sub, kw))
      && |EventsFor(b.trace, sub, kw)| == CountFor(b.counters, sub, kw)
      && ((sub, kw) in b.counters ==> CountFor(b.counters, sub, kw) > 0)
      && (sub !in users ==> CountFor(b.counters, sub, kw) == 0)
  }

  /** Notifying one subscriber keeps notices coalesced: a resolvable
      subscriber's notice gets exactly one more event and its count goes up
      by one; nothing else changes. */
  lemma NotifyOneCoalescing(b: Batch, users: set<Snowflake>, sub: Snowflake, kw: string, channel: Snowflake)
    requires Coalescing(b, users)
    ensures Coalescing(NotifyOne(b, users, sub, kw, channel), users)
    ensures var b' := NotifyOne(b, users, sub, kw, channel);
      forall s: Snowflake, k: string ::
        && CountFor(b'.counters, s, k) == CountFor(b.counters, s, k) + (if s == sub && k == kw && sub in users then 1 else 0)
        && |EventsFor(b'.trace, s, k)| == |EventsFor(b.trace, s, k)| + (if s == sub && k == kw && sub in users then 1 else 0)
  {
    var b' := NotifyOne(b, users, sub, kw, channel);
    if sub in users {
      forall s: Snowflake, k: string ensures
        && CoalescedRun(EventsFor(b'.trace, s, k))
        && |EventsFor(b'.trace, s, k)| == CountFor(b'.counters, s, k)
        && ((s, k) in b'.counters ==> CountFor(b'.counters, s, k) > 0)
        && (s !in users ==> CountFor(b'.counters, s, k) == 0)
        && CountFor(b'.counters, s, k) == CountFor(b.counters, s, k) + (if s == sub && k == kw then 1 else 0)
        && |EventsFor(b'.trace, s, k)| == |EventsFor(b.trace, s, k)| + (if s == sub && k == kw then 1 else 0)
      {
        NotifyOneAt(b, users, sub, kw, channel, s, k);
      }
    }
  }

  /** What one subscriber step does to the notice of `(s, k)`. */
  lemma NotifyOneAt(b: Batch, users: set<Snowflake>, sub: Snowflake, kw: string, channel: Snowflake, s: Snowflake, k: string)
    requires sub in users
    ensures var b' := NotifyOne(b, users, sub, kw, channel);
      && CountFor(b'.counters, s, k) == CountFor(b.counters, s, k) + (if s == sub && k == kw then 1 else 0)
      && EventsFor(b'.trace, s, k) == EventsFor(b.trace, s, k) + (if s == sub && k == kw then [b'.trace[|b'.trace| - 1]] else [])
      && (s == sub && k == kw ==> b'.trace[|b'.trace| - 1] == if (sub, kw) in b.counters then Edit(sub, kw, CountFor(b.counters, sub, kw) + 1) else Send(sub, kw, channel))
  {
    var b' := NotifyOne(b, users, sub, kw, channel);
    assert b'.trace[..|b'.trace| - 1] == b.trace;
  }

  /** Notifying keeps the log and the hit count, only extends the side
      effects, and keeps notices coalesced. */
  lemma {:induction false} NotifyAllFacts(b: Batch, users: set<Snowflake>, subs: seq<Snowflake>, kw: string, channel: Snowflake)
    ensures var b' := NotifyAll(b, users, subs, kw, channel);
      && b'.log == b.log && b'.fetched == b.fetched && b.trace <= b'.trace
      && (Coalescing(b, users) ==> Coalescing(b', users))
      && forall sub: Snowflake, k: string :: CountFor(b'.counters, sub, k)
           == CountFor(b.counters, sub, k) + (if k == kw && sub in users then Count(subs, sub) else 0)
  {
    forall sub: Snowflake, k: string
      ensures CountFor(NotifyAll(b, users, subs, kw, channel).counters, sub, k)
           == CountFor(b.counters, sub, k) + (if k == kw && sub in users then Count(subs, sub) else 0)
    {
      NotifyAllCount(b, users, subs, kw, channel, sub, k);
    }
    if subs != [] {
      var init := subs[..|subs| - 1];
      NotifyAllFacts(b, users, init, kw, channel);
      var p := NotifyAll(b, users, init, kw, channel);
      if Coalescing(b, users) {
        NotifyOneCoalescing(p, users, subs[|subs| - 1], kw, channel);
      }
    }
  }

  // ---------------------------------------------------------------------------
  // What one scan step may change

  /** `b'` follows `b` in a scan: the log only grows at the ends of its lists,
      by one record per counted hit; side effects are only appended; notices
      stay coalesced. */
  ghost predicate Grows(b: Batch, b': Batch, users: set<Snowflake>) {
    && (LogValid(b.log) ==>
          && LogValid(b'.log) && Extends(b.log, b'.log)
          && Total(b'.log) + b.fetched == Total(b.log) + b'.fetched)
    && b.fetched <= b'.fetched
    && b.trace <= b'.trace
    && (Coalescing(b, users) ==> Coalescing(b', users))
  }

  lemma GrowsReflexive(b: Batch, users: set<Snowflake>)
    ensures Grows(b, b, users)
  {
    if LogValid(b.log) {
      assert Extends(b.log, b.log);
    }
  }

  lemma GrowsTransitive(a: Batch, b: Batch, c: Batch, users: set<Snowflake>)
    requires Grows(a, b, users) && Grows(b, c, users)
    ensures Grows(a, c, users)
  {
    if LogValid(a.log) {
      ExtendsTransitive(a.log, b.log, c.log);
    }
  }

  lemma KeywordStepGrows(b: Batch, sc: Scan, channel: Snowflake, m: Message, item: (string, Entry))
    ensures Grows(b, KeywordStep(b, sc, channel, m, item), sc.users)
    ensures Matches(item.0, m.content) ==>
      && KeywordStep(b, sc, channel, m, item).fetched == b.fetched + 1
      && ListAt(KeywordStep(b, sc, channel, m, item).log, m.createdAt.date, DecimalString(channel))
         == ListAt(b.log, m.createdAt.date, DecimalString(channel)) + [RecordFor(sc, m)]
    ensures !Matches(item.0, m.content) ==> KeywordStep(b, sc, channel, m, item) == b
  {
    var (kw, entry) := item;
    if Matches(kw, m.content) {
      var d, ch, r := m.createdAt.date, DecimalString(channel), RecordFor(sc, m);
      var b1 := b.(log := AppendRecord(b.log, d, ch, r));
      NotifyAllFacts(b1, sc.users, entry.notifyUsers, kw, channel);
      if LogValid(b.log) {
        AppendRecordTotal(b.log, d, ch, r);
        AppendRecordExtends(b.log, d, ch, r);
      }
      assert Coalescing(b, sc.users) ==> Coalescing(b1, sc.users);
    } else {
      GrowsReflexive(b, sc.users);
    }
  }

  lemma {:induction false} KeywordsGrows(b: Batch, sc: Scan, channel: Snowflake, m: Message, items: seq<(string, Entry)>)
    ensures Grows(b, Keywords(b, sc, channel, m, items), sc.users)
  {
    if items == [] {
      GrowsReflexive(b, sc.users);
    } else {
      var init := items[..|items| - 1];
      KeywordsGrows(b, sc, channel, m, init);
      var p := Keywords(b, sc, channel, m, init);
      KeywordStepGrows(p, sc, channel, m, items[|items| - 1]);
      GrowsTransitive(b, p, Keywords(b, sc, channel, m, items), sc.users);
    }
  }

  lemma {:induction false} MessagesGrows(b: Batch, sc: Scan, channel: Snowflake, msgs: seq<Message>)
    ensures Grows(b, Messages(b, sc, channel, msgs), sc.users)
  {
    if msgs == [] {
      GrowsReflexive(b, sc.users);
    } else {
      var init, m := msgs[..|msgs| - 1], msgs[|msgs| - 1];
      MessagesGrows(b, sc, channel, init);
      var p := Messages(b, sc, channel, init);
      if Accepted(sc, m) {
        KeywordsGrows(p, sc, channel, m, sc.watched.value);
      } else {
        GrowsReflexive(p, sc.users);
      }
      GrowsTransitive(b, p, Messages(b, sc, channel, msgs), sc.users);
    }
  }

  lemma {:induction false} ChannelsGrows(b: Batch, sc: Scan, channels: seq<Snowflake>, history: Snowflake -> seq<Message>)
    ensures Grows(b, Channels(b, sc, channels, history), sc.users)
  {
    if channels == [] {
      GrowsReflexive(b, sc.users);
    } else {
      var init, c := channels[..|channels| - 1], channels[|channels| - 1];
      ChannelsGrows(b, sc, init, history);
      var p := Channels(b, sc, init, history);
      MessagesGrows(p, sc, c, history(c));
      GrowsTransitive(b, p, Channels(b, sc, channels, history), sc.users);
    }
  }

  /** A `fetchhistory` run keeps every earlier record in place, adds exactly
      `fetched` records, and for each `(subscriber, keyword)` sends one notice
      on the first hit and edits it with the running count on every later
      hit, so that after n hits the stored count is n; a subscriber `get_user`
      does not resolve gets nothing. */
  lemma FetchGuarantees(log: Log, sc: Scan, targets: seq<Snowflake>, history: Snowflake -> seq<Message>)
    requires LogValid(log)
    ensures var r := Fetch(log, sc, targets, history);
      && LogValid(r.log) && Extends(log, r.log)
      && Total(r.log) == Total(log) + r.fetched
      && forall sub: Snowflake, kw: string ::
           && CoalescedRun(EventsFor(r.trace, sub, kw))
           && |EventsFor(r.trace, sub, kw)| == CountFor(r.counters, sub, kw)
           && CountFor(r.counters, sub, kw) == SubHits(sc, targets, history, sub, kw)
           && (sub !in sc.users ==> EventsFor(r.trace, sub, kw) == [])
  {
    var b0 := Batch(log, 0, map[], []);
    assert Coalescing(b0, sc.users);
    ChannelsGrows(b0, sc, targets, history);
    forall sub: Snowflake, kw: string
      ensures CountFor(Fetch(log, sc, targets, history).counters, sub, kw) == SubHits(sc, targets, history, sub, kw)
    {
      FetchHitCount(log, sc, targets, history, sub, kw);
    }
  }

  // ---------------------------------------------------------------------------
  // How many notices each subscriber gets

  /** How far one accepted message raises the `(sub, kw)` notice: once for
      each listing of `sub` under a keyword `kw` that the content matches. */
  function KeywordHits(items: seq<(string, Entry)>, content: string, sub: Snowflake, kw: string): nat {
    if items == [] then 0
    else
      var item := items[|items| - 1];
      KeywordHits(items[..|items| - 1], content, sub, kw)
        + (if item.0 == kw && Matches(kw, content) then Count(item.1.notifyUsers, sub) else 0)
  }

  function MessageHits(sc: Scan, msgs: seq<Message>, sub: Snowflake, kw: string): nat {
    if msgs == [] then 0
    else
      var m := msgs[|msgs| - 1];
      MessageHits(sc, msgs[..|msgs| - 1], sub, kw)
        + (if Accepted(sc, m) then KeywordHits(sc.watched.value, m.content, sub, kw) else 0)
  }

  function ChannelHits(sc: Scan, channels: seq<Snowflake>, history: Snowflake -> seq<Message>, sub: Snowflake, kw: string): nat {
    if channels == [] then 0
    else
      var c := channels[|channels| - 1];
      ChannelHits(sc, channels[..|channels| - 1], history, sub, kw) + MessageHits(sc, history(c), sub, kw)
  }

  /** The hits of a whole scan that concern the `(sub, kw)` notice; none for
      a subscriber `get_user` does not resolve. */
  function SubHits(sc: Scan, targets: seq<Snowflake>, history: Snowflake -> seq<Message>, sub: Snowflake, kw: string): nat {
    if sub in sc.users then ChannelHits(sc, targets, history, sub, kw) else 0
  }

  lemma NotifyOneCount(b: Batch, users: set<Snowflake>, s: Snowflake, kw: string, channel: Snowflake, sub: Snowflake, k: string)
    ensures CountFor(NotifyOne(b, users, s, kw, channel).counters, sub, k)
         == CountFor(b.counters, sub, k) + (if s == sub && k == kw && s in users then 1 else 0)
  {
  }

  /** The subscriber loop raises the count of each resolvable listed
      subscriber by one per listing and leaves every other count alone. */
  lemma {:induction false} NotifyAllCount(b: Batch, users: set<Snowflake>, subs: seq<Snowflake>, kw: string, channel: Snowflake,
                                          sub: Snowflake, k: string)
    ensures CountFor(NotifyAll(b, users, subs, kw, channel).counters, sub, k)
         == CountFor(b.counters, sub, k) + (if k == kw && sub in users then Count(subs, sub) else 0)
  {
    if subs != [] {
      var init := subs[..|subs| - 1];
      NotifyAllCount(b, users, init, kw, channel, sub, k);
      NotifyOneCount(NotifyAll(b, users, init, kw, channel), users, subs[|subs| - 1], kw, channel, sub, k);
    }
  }

  lemma {:induction false} KeywordsHitCount(b: Batch, sc: Scan, channel: Snowflake, m: Message, items: seq<(string, Entry)>,
                                            sub: Snowflake, kw: string)
    ensures CountFor(Keywords(b, sc, channel, m, items).counters, sub, kw)
         == CountFor(b.counters, sub, kw) + (if sub in sc.users then KeywordHits(items, m.content, sub, kw) else 0)
  {
    if items != [] {
      var init := items[..|items| - 1];
      KeywordsHitCount(b, sc, channel, m, init, sub, kw);
      var p := Keywords(b, sc, channel, m, init);
      var (k, entry) := items[|items| - 1];
      if Matches(k, m.content) {
        var b1 := p.(log := AppendRecord(p.log, m.createdAt.date, DecimalString(channel), RecordFor(sc, m)));
        NotifyAllCount(b1, sc.users, entry.notifyUsers, k, channel, sub, kw);
      }
    }
  }

  lemma {:induction false} MessagesHitCount(b: Batch, sc: Scan, channel: Snowflake, msgs: seq<Message>, sub: Snowflake, kw: string)
    ensures CountFor(Messages(b, sc, channel, msgs).counters, sub, kw)
         == CountFor(b.counters, sub, kw) + (if sub in sc.users then MessageHits(sc, msgs, sub, kw) else 0)
  {
    if msgs != [] {
      var init, m := msgs[..|msgs| - 1], msgs[|msgs| - 1];
      MessagesHitCount(b, sc, channel, init, sub, kw);
      if Accepted(sc, m) {
        KeywordsHitCount(Messages(b, sc, channel, init), sc, channel, m, sc.watched.value, sub, kw);
      }
    }
  }

  lemma {:induction false} ChannelsHitCount(b: Batch, sc: Scan, channels: seq<Snowflake>, history: Snowflake -> seq<Message>,
                                            sub: Snowflake, kw: string)
    ensures CountFor(Channels(b, sc, channels, history).counters, sub, kw)
         == CountFor(b.counters, sub, kw) + (if sub in sc.users then ChannelHits(sc, channels, history, sub, kw) else 0)
  {
    if channels != [] {
      var init, c := channels[..|channels| - 1], channels[|channels| - 1];
      ChannelsHitCount(b, sc, init, history, sub, kw);
      MessagesHitCount(Channels(b, sc, init, history), sc, c, history(c), sub, kw);
    }
  }

  /** After a fetch the stored count of every notice is its number of hits. */
  lemma FetchHitCount(log: Log, sc: Scan, targets: seq<Snowflake>, history: Snowflake -> seq<Message>, sub: Snowflake, kw: string)
    ensures CountFor(Fetch(log, sc, targets, history).counters, sub, kw) == SubHits(sc, targets, history, sub, kw)
  {
    ChannelsHitCount(Batch(log, 0, map[], []), sc, targets, history, sub, kw);
  }

  /** `sub` is among the subscribers of keyword `kw` in the watch list. */
  predicate Listed(items: seq<(string, Entry)>, sub: Snowflake, kw: string) {
    exists i | 0 <= i < |items| :: items[i].0 == kw && sub in items[i].1.notifyUsers
  }

  /** On a watch list with no keyword twice and no subscriber listed twice,
      a matching message raises a listed subscriber's notice exactly once. */
  lemma {:induction false} KeywordHitsOnce(items: seq<(string, Entry)>, content: string, sub: Snowflake, kw: string)
    requires ItemsValid(items)
    ensures KeywordHits(items, content, sub, kw) == if Matches(kw, content) && Listed(items, sub, kw) then 1 else 0
  {
    if items != [] {
      var n := |items| - 1;
      var init, item := items[..n], items[n];
      assert ItemsValid(init) by {
        forall i, j | 0 <= i < j < |init| ensures init[i].0 != init[j].0 { assert items[i].0 != items[j].0; }
        forall i | 0 <= i < |init| ensures Distinct(init[i].1.notifyUsers) { assert init[i] == items[i]; }
      }
      KeywordHitsOnce(init, content, sub, kw);
      assert Distinct(item.1.notifyUsers);
      CountDistinct(item.1.notifyUsers, sub);
      if item.0 == kw {
        assert !Listed(init, sub, kw) by {
          forall i | 0 <= i < |init| ensures init[i].0 != kw { assert items[i].0 != items[n].0; }
        }
        assert Listed(items, sub, kw) <==> sub in item.1.notifyUsers by {
          if Listed(items, sub, kw) {
            var i :| 0 <= i < |items| && items[i].0 == kw && sub in items[i].1.notifyUsers;
          }
        }
      } else {
        assert Listed(items, sub, kw) <==> Listed(init, sub, kw) by {
          if Listed(items, sub, kw) {
            var i :| 0 <= i < |items| && items[i].0 == kw && sub in items[i].1.notifyUsers;
            assert i < n && init[i] == items[i];
          }
          if Listed(init, sub, kw) {
            var i :| 0 <= i < |init| && init[i].0 == kw && sub in init[i].1.notifyUsers;
            assert items[i] == init[i];
          }
        }
      }
    }
  }

  /** The accepted messages that match `kw`. */
  function MessageMentions(sc: Scan, msgs: seq<Message>, kw: string): nat {
    if msgs == [] then 0
    else
      var m := msgs[|msgs| - 1];
      MessageMentions(sc, msgs[..|msgs| - 1], kw) + (if Accepted(sc, m) && Matches(kw, m.content) then 1 else 0)
  }

  function Mentions(sc: Scan, channels: seq<Snowflake>, history: Snowflake -> seq<Message>, kw: string): nat {
    if channels == [] then 0
    else
      var c := channels[|channels| - 1];
      Mentions(sc, channels[..|channels| - 1], history, kw) + MessageMentions(sc, history(c), kw)
  }

  /** The scan notifies `sub` about `kw` only if `sub` is listed under it. */
  predicate ListedIn(sc: Scan, sub: Snowflake, kw: string) {
    sc.watched.Some? && Listed(sc.watched.value, sub, kw)
  }

  lemma {:induction false} MessageHitsMentions(sc: Scan, msgs: seq<Message>, sub: Snowflake, kw: string)
    requires sc.watched.Some? ==> ItemsValid(sc.watched.value)
    ensures MessageHits(sc, msgs, sub, kw) == if ListedIn(sc, sub, kw) then MessageMentions(sc, msgs, kw) else 0
  {
    if msgs != [] {
      var m := msgs[|msgs| - 1];
      MessageHitsMentions(sc, msgs[..|msgs| - 1], sub, kw);
      if Accepted(sc, m) {
        KeywordHitsOnce(sc.watched.value, m.content, sub, kw);
      }
    }
  }

  lemma {:induction false} ChannelHitsMentions(sc: Scan, channels: seq<Snowflake>, history: Snowflake -> seq<Message>, sub: Snowflake, kw: string)
    requires sc.watched.Some? ==> ItemsValid(sc.watched.value)
    ensures ChannelHits(sc, channels, history, sub, kw) == if ListedIn(sc, sub, kw) then Mentions(sc, channels, history, kw) else 0
  {
    if channels != [] {
      var c := channels[|channels| - 1];
      ChannelHitsMentions(sc, channels[..|channels| - 1], history, sub, kw);
      MessageHitsMentions(sc, history(c), sub, kw);
    }
  }

  /** The coalescing promise of `fetchhistory`: on a watch list as the store
      keeps it, each subscriber `get_user` resolves that is listed under `kw`
      gets one notice, sent on the first matching message and edited on each
      later one, and its stored count is the number of accepted messages
      matching `kw`; anybody else gets nothing. */
  lemma FetchNotices(log: Log, sc: Scan, targets: seq<Snowflake>, history: Snowflake -> seq<Message>, sub: Snowflake, kw: string)
    requires sc.watched.Some? ==> ItemsValid(sc.watched.value)
    ensures var r := Fetch(log, sc, targets, history);
      var n := if sub in sc.users && ListedIn(sc, sub, kw) then Mentions(sc, targets, history, kw) else 0;
      && CountFor(r.counters, sub, kw) == n
      && |EventsFor(r.trace, sub, kw)| == n
      && CoalescedRun(EventsFor(r.trace, sub, kw))
  {
    var b0 := Batch(log, 0, map[], []);
    assert Coalescing(b0, sc.users);
    ChannelsGrows(b0, sc, targets, history);
    FetchHitCount(log, sc, targets, history, sub, kw);
    ChannelHitsMentions(sc, targets, history, sub, kw);
  }

  /** Every side effect filed under a notice belongs to it. */
  lemma {:induction false} EventsForConcern(trace: seq<Event>, sub: Snowflake, kw: string)
    ensures forall i | 0 <= i < |EventsFor(trace, sub, kw)| ::
      EventsFor(trace, sub, kw)[i].sub == sub && EventsFor(trace, sub, kw)[i].keyword == kw
  {
    if trace != [] {
      EventsForConcern(trace[..|trace| - 1], sub, kw);
    }
  }

  /** Three matching messages in one channel, one keyword with one
      resolvable subscriber: the subscriber gets one notice, sent once and
      edited to 2 and then to 3, and the stored count is 3. */
  lemma ThreeMentions(log: Log, sc: Scan, channel: Snowflake, history: Snowflake -> seq<Message>,
                      kw: string, e: Entry, sub: Snowflake, m1: Message, m2: Message, m3: Message)
    requires sc.watched == Some([(kw, e)]) && e.notifyUsers == [sub] && sub in sc.users
    requires history(channel) == [m1, m2, m3]
    requires Accepted(sc, m1) && Matches(kw, m1.content)
    requires Accepted(sc, m2) && Matches(kw, m2.content)
    requires Accepted(sc, m3) && Matches(kw, m3.content)
    ensures var r := Fetch(log, sc, [channel], history);
      var evs := EventsFor(r.trace, sub, kw);
      && CountFor(r.counters, sub, kw) == 3
      && |evs| == 3
      && evs[0].Send? && evs[0].sub == sub && evs[0].keyword == kw
      && evs[1] == Edit(sub, kw, 2)
      && evs[2] == Edit(sub, kw, 3)
  {
    var items := [(kw, e)];
    assert Listed(items, sub, kw) by {
      assert items[0].0 == kw && sub in items[0].1.notifyUsers;
    }
    var msgs := [m1, m2, m3];
    assert msgs[..2] == [m1, m2] && [m1, m2][..1] == [m1] && [m1][..0] == [];
    assert MessageMentions(sc, [m1], kw) == 1;
    assert MessageMentions(sc, [m1, m2], kw) == 2;
    assert MessageMentions(sc, msgs, kw) == 3;
    assert [channel][..0] == [];
    assert Mentions(sc, [channel], history, kw) == 3;
    FetchNotices(log, sc, [channel], history, sub, kw);
    EventsForConcern(Fetch(log, sc, [channel], history).trace, sub, kw);
  }

  // ---------------------------------------------------------------------------
  // Hit counting

  /** Number of keywords of the list that match the content. */
  function CountMatches(items: seq<(string, Entry)>, content: string): nat {
    if items == [] then 0
    else CountMatches(items[..|items| - 1], content) + (if Matches(items[|items| - 1].0, content) then 1 else 0)
  }

  lemma {:induction false} KeywordsCount(b: Batch, sc: Scan, channel: Snowflake, m: Message, items: seq<(string, Entry)>)
    ensures Keywords(b, sc, channel, m, items).fetched == b.fetched + CountMatches(items, m.content)
  {
    if items != [] {
      var init := items[..|items| - 1];
      KeywordsCount(b, sc, channel, m, init);
      var p := Keywords(b, sc, channel, m, init);
      var (kw, entry) := items[|items| - 1];
      if Matches(kw, m.content) {
        var b1 := p.(log := AppendRecord(p.log, m.createdAt.date, DecimalString(channel), RecordFor(sc, m)));
        NotifyAllFacts(b1, sc.users, entry.notifyUsers, kw, channel);
      }
    }
  }

  /** A message that is skipped changes nothing; an accepted one counts one
      hit (and so one logged record) per matching keyword. */
  lemma MessageStepCount(b: Batch, sc: Scan, channel: Snowflake, m: Message)
    ensures !Accepted(sc, m) ==> MessageStep(b, sc, channel, m) == b
    ensures Accepted(sc, m) ==>
      MessageStep(b, sc, channel, m).fetched == b.fetched + CountMatches(sc.watched.value, m.content)
  {
    if Accepted(sc, m) {
      KeywordsCount(b, sc, channel, m, sc.watched.value);
    }
  }

  // ---------------------------------------------------------------------------
  // Re-running a fetch

  /** Two batches that differ at most in their logs. */
  predicate SameButLog(a: Batch, b: Batch) {
    a.fetched == b.fetched && a.counters == b.counters && a.trace == b.trace
  }

  lemma {:induction false} NotifyAllSameButLog(a: Batch, b: Batch, users: set<Snowflake>, subs: seq<Snowflake>, kw: string, channel: Snowflake)
    requires SameButLog(a, b)
    ensures SameButLog(NotifyAll(a, users, subs, kw, channel), NotifyAll(b, users, subs, kw, channel))
  {
    if subs != [] {
      NotifyAllSameButLog(a, b, users, subs[..|subs| - 1], kw, channel);
    }
  }

  lemma {:induction false} KeywordsSameButLog(a: Batch, b: Batch, sc: Scan, channel: Snowflake, m: Message, items: seq<(string, Entry)>)
    requires SameButLog(a, b)
    ensures SameButLog(Keywords(a, sc, channel, m, items), Keywords(b, sc, channel, m, items))
  {
    if items != [] {
      var init := items[..|items| - 1];
      KeywordsSameButLog(a, b, sc, channel, m, init);
      var pa, pb := Keywords(a, sc, channel, m, init), Keywords(b, sc, channel, m, init);
      var (kw, entry) := items[|items| - 1];
      if Matches(kw, m.content) {
        var r := RecordFor(sc, m);
        var d, ch := m.createdAt.date, DecimalString(channel);
        NotifyAllSameButLog(pa.(log := AppendRecord(pa.log, d, ch, r)), pb.(log := AppendRecord(pb.log, d, ch, r)),
                            sc.users, entry.notifyUsers, kw, channel);
      }
    }
  }

  lemma {:induction false} MessagesSameButLog(a: Batch, b: Batch, sc: Scan, channel: Snowflake, msgs: seq<Message>)
    requires SameButLog(a, b)
    ensures SameButLog(Messages(a, sc, channel, msgs), Messages(b, sc, channel, msgs))
  {
    if msgs != [] {
      var init, m := msgs[..|msgs| - 1], msgs[|msgs| - 1];
      MessagesSameButLog(a, b, sc, channel, init);
      if Accepted(sc, m) {
        KeywordsSameButLog(Messages(a, sc, channel, init), Messages(b, sc, channel, init), sc, channel, m, sc.watched.value);
      }
    }
  }

  lemma {:induction false} ChannelsSameButLog(a: Batch, b: Batch, sc: Scan, channels: seq<Snowflake>, history: Snowflake -> seq<Message>)
    requires SameButLog(a, b)
    ensures SameButLog(Channels(a, sc, channels, history), Channels(b, sc, channels, history))
  {
    if channels != [] {
      var init, c := channels[..|channels| - 1], channels[|channels| - 1];
      ChannelsSameButLog(a, b, sc, init, history);
      MessagesSameButLog(Channels(a, sc, init, history), Channels(b, sc, init, history), sc, c, history(c));
    }
  }

  /** The hit count and the side effects of a fetch do not depend on what the
      log already holds. */
  lemma FetchIgnoresLog(log1: Log, log2: Log, sc: Scan, targets: seq<Snowflake>, history: Snowflake -> seq<Message>)
    ensures SameButLog(Fetch(log1, sc, targets, history), Fetch(log2, sc, targets, history))
  {
    ChannelsSameButLog(Batch(log1, 0, map[], []), Batch(log2, 0, map[], []), sc, targets, history);
  }

  /** The records the keyword loop of one accepted message appends to the
      list of date `d` and channel key `ch`: one per matching keyword when the
      message belongs to that list, none otherwise. */
  function KeywordsAdded(sc: Scan, channel: Snowflake, m: Message, items: seq<(string, Entry)>, d: Date, ch: string): seq<Record> {
    if items == [] then []
    else
      KeywordsAdded(sc, channel, m, items[..|items| - 1], d, ch)
        + (if Matches(items[|items| - 1].0, m.content) && m.createdAt.date == d && DecimalString(channel) == ch
           then [RecordFor(sc, m)] else [])
  }

  function MessagesAdded(sc: Scan, channel: Snowflake, msgs: seq<Message>, d: Date, ch: string): seq<Record> {
    if msgs == [] then []
    else
      var m := msgs[|msgs| - 1];
      MessagesAdded(sc, channel, msgs[..|msgs| - 1], d, ch)
        + (if Accepted(sc, m) then KeywordsAdded(sc, channel, m, sc.watched.value, d, ch) else [])
  }

  /** The records a whole scan appends to the list `(d, ch)`. */
  function ChannelsAdded(sc: Scan, channels: seq<Snowflake>, history: Snowflake -> seq<Message>, d: Date, ch: string): seq<Record> {
    if channels == [] then []
    else
      var c := channels[|channels| - 1];
      ChannelsAdded(sc, channels[..|channels| - 1], history, d, ch) + MessagesAdded(sc, c, history(c), d, ch)
  }

  /** One keyword appends at most the message's record, and only to the
      list of the message's date and channel. */
  lemma KeywordStepAppend(b: Batch, sc: Scan, channel: Snowflake, m: Message, item: (string, Entry), d: Date, ch: string)
    ensures ListAt(KeywordStep(b, sc, channel, m, item).log, d, ch) == ListAt(b.log, d, ch)
      + (if Matches(item.0, m.content) && m.createdAt.date == d && DecimalString(channel) == ch then [RecordFor(sc, m)] else [])
  {
    if Matches(item.0, m.content) {
      var b1 := b.(log := AppendRecord(b.log, m.createdAt.date, DecimalString(channel), RecordFor(sc, m)));
      NotifyAllFacts(b1, sc.users, item.1.notifyUsers, item.0, channel);
    } else {
      assert ListAt(b.log, d, ch) + [] == ListAt(b.log, d, ch);
    }
  }

  lemma {:induction false} KeywordsAppend(b: Batch, sc: Scan, channel: Snowflake, m: Message, items: seq<(string, Entry)>, d: Date, ch: string)
    ensures ListAt(Keywords(b, sc, channel, m, items).log, d, ch) == ListAt(b.log, d, ch) + KeywordsAdded(sc, channel, m, items, d, ch)
  {
    if items == [] {
      assert ListAt(b.log, d, ch) + [] == ListAt(b.log, d, ch);
    } else {
      var init, item := items[..|items| - 1], items[|items| - 1];
      KeywordsAppend(b, sc, channel, m, init, d, ch);
      KeywordStepAppend(Keywords(b, sc, channel, m, init), sc, channel, m, item, d, ch);
      var extra := if Matches(item.0, m.content) && m.createdAt.date == d && DecimalString(channel) == ch then [RecordFor(sc, m)] else [];
      assert KeywordsAdded(sc, channel, m, items, d, ch) == KeywordsAdded(sc, channel, m, init, d, ch) + extra;
      assert ListAt(b.log, d, ch) + KeywordsAdded(sc, channel, m, init, d, ch) + extra
          == ListAt(b.log, d, ch) + (KeywordsAdded(sc, channel, m, init, d, ch) + extra);
    }
  }

  /** One message appends what its keywords append, and nothing when it is
      rejected. */
  lemma MessageStepAppend(b: Batch, sc: Scan, channel: Snowflake, m: Message, d: Date, ch: string)
    ensures ListAt(MessageStep(b, sc, channel, m).log, d, ch) == ListAt(b.log, d, ch)
      + (if Accepted(sc, m) then KeywordsAdded(sc, channel, m, sc.watched.value, d, ch) else [])
  {
    if Accepted(sc, m) {
      KeywordsAppend(b, sc, channel, m, sc.watched.value, d, ch);
    } else {
      assert ListAt(b.log, d, ch) + [] == ListAt(b.log, d, ch);
    }
  }

  lemma {:induction false} MessagesAppend(b: Batch, sc: Scan, channel: Snowflake, msgs: seq<Message>, d: Date, ch: string)
    ensures ListAt(Messages(b, sc, channel, msgs).log, d, ch) == ListAt(b.log, d, ch) + MessagesAdded(sc, channel, msgs, d, ch)
  {
    if msgs == [] {
      assert ListAt(b.log, d, ch) + [] == ListAt(b.log, d, ch);
    } else {
      var init, m := msgs[..|msgs| - 1], msgs[|msgs| - 1];
      MessagesAppend(b, sc, channel, init, d, ch);
      MessageStepAppend(Messages(b, sc, channel, init), sc, channel, m, d, ch);
      var extra := if Accepted(sc, m) then KeywordsAdded(sc, channel, m, sc.watched.value, d, ch) else [];
      assert MessagesAdded(sc, channel, msgs, d, ch) == MessagesAdded(sc, channel, init, d, ch) + extra;
      assert ListAt(b.log, d, ch) + MessagesAdded(sc, channel, init, d, ch) + extra
          == ListAt(b.log, d, ch) + (MessagesAdded(sc, channel, init, d, ch) + extra);
    }
  }

  lemma {:induction false} ChannelsAppend(b: Batch, sc: Scan, channels: seq<Snowflake>, history: Snowflake -> seq<Message>, d: Date, ch: string)
    ensures ListAt(Channels(b, sc, channels, history).log, d, ch) == ListAt(b.log, d, ch) + ChannelsAdded(sc, channels, history, d, ch)
  {
    if channels == [] {
      assert ListAt(b.log, d, ch) + [] == ListAt(b.log, d, ch);
    } else {
      var init, c := channels[..|channels| - 1], channels[|channels| - 1];
      ChannelsAppend(b, sc, init, history, d, ch);
      MessagesAppend(Channels(b, sc, init, history), sc, c, history(c), d, ch);
    }
  }

  /** What a fetch appends to each list of the log depends only on the scan,
      not on what the log already holds. */
  lemma FetchAppends(log: Log, sc: Scan, targets: seq<Snowflake>, history: Snowflake -> seq<Message>, d: Date, ch: string)
    ensures ListAt(Fetch(log, sc, targets, history).log, d, ch) == ListAt(log, d, ch) + ChannelsAdded(sc, targets, history, d, ch)
  {
    ChannelsAppend(Batch(log, 0, map[], []), sc, targets, history, d, ch);
  }

  /** Fetching the same window twice is not idempotent: the second run
      reports the same hits, sends the same fresh notices, and appends the
      same records to the same lists a second time. */
  lemma RefetchDuplicates(log: Log, sc: Scan, targets: seq<Snowflake>, history: Snowflake -> seq<Message>)
    requires LogValid(log)
    ensures var r1 := Fetch(log, sc, targets, history);
      var r2 := Fetch(r1.log, sc, targets, history);
      && r2.fetched == r1.fetched && r2.trace == r1.trace
      && Extends(r1.log, r2.log)
      && Total(r2.log) == Total(log) + 2 * r1.fetched
      && forall d, ch :: ListAt(r2.log, d, ch)
           == ListAt(log, d, ch) + ChannelsAdded(sc, targets, history, d, ch) + ChannelsAdded(sc, targets, history, d, ch)
  {
    var r1 := Fetch(log, sc, targets, history);
    FetchGuarantees(log, sc, targets, history);
    FetchGuarantees(r1.log, sc, targets, history);
    FetchIgnoresLog(log, r1.log, sc, targets, history);
    forall d, ch ensures ListAt(Fetch(r1.log, sc, targets, history).log, d, ch)
           == ListAt(log, d, ch) + ChannelsAdded(sc, targets, history, d, ch) + ChannelsAdded(sc, targets, history, d, ch)
    {
      FetchAppends(log, sc, targets, history, d, ch);
      FetchAppends(r1.log, sc, targets, history, d, ch);
    }
  }

  // ---------------------------------------------------------------------------
  // Channel filters are never consulted

  /** Two watch lists with the same keywords, in the same order, and the same
      subscribers; their channel filters and alert times may differ. */
  predicate SameButFilters(a: seq<(string, Entry)>, b: seq<(string, Entry)>) {
    && |a| == |b|
    && forall i | 0 <= i < |a| :: a[i].0 == b[i].0 && a[i].1.notifyUsers == b[i].1.notifyUsers
  }

  /** Two scans that differ at most in the filters of the watch list. */
  predicate ScanSameButFilters(s1: Scan, s2: Scan) {
    && s1 == s2.(watched := s1.watched)
    && s1.watched.Some? == s2.watched.Some?
    && (s1.watched.Some? ==> SameButFilters(s1.watched.value, s2.watched.value))
  }

  lemma {:induction false} KeywordsIgnoreFilters(b: Batch, sc: Scan, channel: Snowflake, m: Message,
                                                 items1: seq<(string, Entry)>, items2: seq<(string, Entry)>)
    requires SameButFilters(items1, items2)
    ensures Keywords(b, sc, channel, m, items1) == Keywords(b, sc, channel, m, items2)
  {
    if items1 != [] {
      var n := |items1| - 1;
      assert SameButFilters(items1[..n], items2[..n]);
      KeywordsIgnoreFilters(b, sc, channel, m, items1[..n], items2[..n]);
    }
  }

  lemma {:induction false} MessagesIgnoreFilters(b: Batch, s1: Scan, s2: Scan, channel: Snowflake, msgs: seq<Message>)
    requires ScanSameButFilters(s1, s2)
    ensures Messages(b, s1, channel, msgs) == Messages(b, s2, channel, msgs)
  {
    if msgs != [] {
      var init, m := msgs[..|msgs| - 1], msgs[|msgs| - 1];
      MessagesIgnoreFilters(b, s1, s2, channel, init);
      var p := Messages(b, s1, channel, init);
      assert Accepted(s1, m) == Accepted(s2, m);
      assert RecordFor(s1, m) == RecordFor(s2, m);
      if Accepted(s1, m) {
        KeywordsFilterFree(p, s1, s2, channel, m, s1.watched.value);
        KeywordsIgnoreFilters(p, s2, channel, m, s1.watched.value, s2.watched.value);
      }
    }
  }

  /** The keyword fold reads of the scan only the display names and the
      resolvable users, which two such scans share. */
  lemma {:induction false} KeywordsFilterFree(b: Batch, s1: Scan, s2: Scan, channel: Snowflake, m: Message, items: seq<(string, Entry)>)
    requires s1.members == s2.members && s1.users == s2.users
    ensures Keywords(b, s1, channel, m, items) == Keywords(b, s2, channel, m, items)
  {
    if items != [] {
      KeywordsFilterFree(b, s1, s2, channel, m, items[..|items| - 1]);
    }
  }

  lemma {:induction false} ChannelsIgnoreFilters(b: Batch, s1: Scan, s2: Scan, channels: seq<Snowflake>, history: Snowflake -> seq<Message>)
    requires ScanSameButFilters(s1, s2)
    ensures Channels(b, s1, channels, history) == Channels(b, s2, channels, history)
  {
    if channels != [] {
      var init, c := channels[..|channels| - 1], channels[|channels| - 1];
      ChannelsIgnoreFilters(b, s1, s2, init, history);
      MessagesIgnoreFilters(Channels(b, s1, init, history), s1, s2, c, history(c));
    }
  }

  /** A fetch gives the same log, count and side effects whatever channel
      filters the keywords carry: the scan matches every keyword in every
      target channel. */
  lemma FetchIgnoresFilters(log: Log, s1: Scan, s2: Scan, targets: seq<Snowflake>, history: Snowflake -> seq<Message>)
    requires ScanSameButFilters(s1, s2)
    ensures Fetch(log, s1, targets, history) == Fetch(log, s2, targets, history)
  {
    ChannelsIgnoreFilters(Batch(log, 0, map[], []), s1, s2, targets, history);
  }

  /** Editing a keyword's filters (`addfilter`, `deletefilter`) leaves the
      watch list the same but for filters. */
  lemma ItemsIgnoreFilters(t: KeywordTable, kw: string, f: map<Snowflake, int>)
    requires Valid(t) && kw in t.items
    ensures SameButFilters(Items(t), Items(Put(t, kw, t.items[kw].(channels := f))))
  {
    var t2 := Put(t, kw, t.items[kw].(channels := f));
    assert t2.keys == t.keys;
    var a, b := Items(t), Items(t2);
    forall i | 0 <= i < |a| ensures a[i].0 == b[i].0 && a[i].1.notifyUsers == b[i].1.notifyUsers {
      var k := t.keys[i];
      assert a[i].1 == t.items[k] && b[i].1 == t2.items[k];
    }
  }
}
