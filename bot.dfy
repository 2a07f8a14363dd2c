/** The bot object: its settings, the watch-list store, the cooldown table and
    the message log, with the commands that change them as methods. Each
    method states the complete new state in terms of the model functions of
    `WatchList`, `MessageLog` and `Matcher`, whose properties are proved
    there. */
module Bot {
  import opened Wrappers
  import opened Lists
  import opened Text
  import opened Dates
  import opened OrderedMaps
  import opened WatchList
  import opened MessageLog
  import opened Matcher
  import opened Settings

  /** The outcome of the `clearlogs` confirmation prompt. */
  datatype Reply = Confirmed | Cancelled | TimedOut

  /** The `deleteword` purge of one date: every channel list is replaced by
      its filtered copy, in key order. */
  method PurgeChannels(day: Day, w: string) returns (r: Day)
    requires Valid(day)
    ensures r == PurgeDay(day, w)
  {
    var lists := day.items;
    var k := 0;
    while k < |day.keys|
      invariant 0 <= k <= |day.keys|
      invariant lists.Keys == day.items.Keys
      invariant forall ch | ch in lists :: lists[ch] == if ch in day.keys[..k] then KeepUnmatched(day.items[ch], w) else day.items[ch]
    {
      var ch := day.keys[k];
      assert day.keys[..k + 1] == day.keys[..k] + [ch];
      assert ch !in day.keys[..k] by {
        forall j | 0 <= j < k ensures day.keys[..k][j] != ch { assert day.keys[j] != day.keys[k]; }
      }
      lists := lists[ch := KeepUnmatched(lists[ch], w)];
      k := k + 1;
    }
    assert day.keys[..k] == day.keys;
    r := OrderedMap(day.keys, lists);
  }

  /** The `addnotify` loop over the members: each one not yet in the list
      is appended and reported. */
  method AppendSubscribers(l: seq<Snowflake>, members: seq<Snowflake>) returns (notify: seq<Snowflake>, added: seq<Snowflake>)
    requires Distinct(l)
    ensures notify == AppendNew(l, members)
    ensures notify == l + added
    ensures Distinct(added)
    ensures forall x :: x in added <==> x in members && x !in l
  {
    notify := l;
    added := [];
    var i := 0;
    while i < |members|
      invariant 0 <= i <= |members|
      invariant notify == AppendNew(l, members[..i])
      invariant notify == l + added
    {
      TakeSnoc(members, i);
      assert members[..i + 1][..i] == members[..i];
      if members[i] !in notify {
        notify := notify + [members[i]];
        added := added + [members[i]];
      }
      i := i + 1;
    }
    assert members[..i] == members;
    AppendNewAdded(l, members, added);
  }

  /** The `removenotify` loop over the members: each one in the list is
      removed (`list.remove`) and reported. */
  method RemoveSubscribers(l: seq<Snowflake>, members: seq<Snowflake>) returns (notify: seq<Snowflake>, removed: seq<Snowflake>)
    requires Distinct(l)
    ensures notify == RemoveMembers(l, members)
    ensures notify == Keep(l, members)
    ensures Distinct(removed)
    ensures forall x :: x in removed <==> x in members && x in l
  {
    notify := l;
    removed := [];
    KeepNone(l, []);
    var i := 0;
    while i < |members|
      invariant 0 <= i <= |members|
      invariant notify == Keep(l, members[..i])
      invariant Distinct(removed)
      invariant forall x :: x in removed <==> x in members[..i] && x in l
    {
      var m := members[i];
      RemoveStep(l, members[..i], m);
      assert members[..i + 1] == members[..i] + [m];
      if m in notify {
        assert m !in removed;
        notify := RemoveFirst(notify, m);
        removed := removed + [m];
      }
      i := i + 1;
    }
    assert members[..i] == members;
    RemoveMembersKeeps(l, members);
  }

  /** The subscriber loop of `fetchhistory` for one matched keyword: each
      subscriber `get_user` resolves gets its count raised, with a first
      notice sent or the existing one edited to the new count. Only the
      notice table and the side effects change. */
  method NotifySubscribers(ghost log: Log, ghost fetched: nat,
                           notifications0: map<(Snowflake, string), nat>, trace0: seq<Event>,
                           users: set<Snowflake>, subs: seq<Snowflake>, keyword: string, channel: Snowflake)
    returns (notifications: map<(Snowflake, string), nat>, trace: seq<Event>)
    ensures NotifyAll(Batch(log, fetched, notifications0, trace0), users, subs, keyword, channel)
         == Batch(log, fetched, notifications, trace)
  {
    ghost var b := Batch(log, fetched, notifications0, trace0);
    notifications, trace := notifications0, trace0;
    var s := 0;
    while s < |subs|
      invariant 0 <= s <= |subs|
      invariant NotifyAll(b, users, subs[..s], keyword, channel) == b.(counters := notifications, trace := trace)
    {
      var sub := subs[s];
      if sub in users {
        var key := (sub, keyword);
        var count := if key in notifications then notifications[key] else 0;
        count := count + 1;
        if key in notifications {
          trace := trace + [Edit(sub, keyword, count)];
        } else {
          trace := trace + [Send(sub, keyword, channel)];
        }
        notifications := notifications[key := count];
      }
      assert subs[..s + 1][..s] == subs[..s];
      s := s + 1;
    }
    assert subs[..s] == subs;
  }

  /** The export's loop over the messages of one channel list. */
  method CollectMessages(rows0: seq<Row>, d: Date, ch: string, records: seq<Record>) returns (rows: seq<Row>)
    ensures rows == rows0 + MessageRows(d, ch, records)
  {
    rows := rows0;
    var m := 0;
    while m < |records|
      invariant 0 <= m <= |records|
      invariant rows == rows0 + MessageRows(d, ch, records[..m])
    {
      rows := rows + [RowOf(d, ch, records[m])];
      assert records[..m + 1][..m] == records[..m];
      m := m + 1;
    }
    assert records[..m] == records;
  }

  /** The export's loop over the channels of one date. */
  method CollectChannels(rows0: seq<Row>, d: Date, day: Day) returns (rows: seq<Row>)
    requires Valid(day)
    ensures rows == rows0 + ChannelRows(d, day, |day.keys|)
  {
    rows := rows0;
    var k := 0;
    while k < |day.keys|
      invariant 0 <= k <= |day.keys|
      invariant rows == rows0 + ChannelRows(d, day, k)
    {
      var ch := day.keys[k];
      rows := CollectMessages(rows, d, ch, day.items[ch]);
      k := k + 1;
    }
  }

  class Tracker {
    var verbosity: Level
    var scanFrequency: int
    var saveFrequency: int
    /** `user_words`: user id -> guild id -> keyword table. */
    var userWords: Store
    /** `user_cds`: user id -> cooldown in seconds (stored, never consulted). */
    var userCds: map<string, int>
    var messageLog: Log

    ghost predicate Valid()
      reads this
    {
      StoreValid(userWords) && LogValid(messageLog)
    }

    /** The start-up state, before any data file is loaded. */
    constructor ()
      ensures Valid()
      ensures verbosity == DefaultVerbosity
      ensures scanFrequency == DefaultScanFrequency && saveFrequency == DefaultSaveFrequency
      ensures userWords == map[] && userCds == map[] && messageLog == Empty()
    {
      verbosity := DefaultVerbosity;
      scanFrequency := DefaultScanFrequency;
      saveFrequency := DefaultSaveFrequency;
      userWords := map[];
      userCds := map[];
      messageLog := Empty();
    }

    /** `setverbosity`: only one of the four level names changes the level. */
    method SetVerbosity(level: string) returns (ok: bool)
      modifies this`verbosity
      ensures ok <==> ParseLevel(level).Some?
      ensures verbosity == if ok then ParseLevel(level).value else old(verbosity)
      ensures ok ==> LevelName(verbosity) == level
    {
      var parsed := ParseLevel(level);
      if parsed.Some? {
        verbosity := parsed.value;
        ok := true;
      } else {
        ok := false;
      }
    }

    /** `cd`: the cooldown is stored in seconds, for any integer given; with
        no argument it is 15 minutes. */
    method SetCooldown(user: string, minutes: int := DefaultCooldownMinutes)
      modifies this`userCds
      ensures userCds == old(userCds)[user := minutes * SecondsPerMinute]
    {
      userCds := userCds[user := minutes * SecondsPerMinute];
    }

    /** `setscan`: values below one second are refused. */
    method SetScan(seconds: int) returns (ok: bool)
      modifies this`scanFrequency
      ensures ok <==> seconds >= 1
      ensures scanFrequency == if ok then seconds else old(scanFrequency)
    {
      if seconds < 1 {
        return false;
      }
      scanFrequency := seconds;
      ok := true;
    }

    /** `setsave`: values below one minute are refused; the frequency is
        stored in seconds. */
    method SetSave(minutes: int) returns (ok: bool)
      modifies this`saveFrequency
      ensures ok <==> minutes >= 1
      ensures saveFrequency == if ok then minutes * SecondsPerMinute else old(saveFrequency)
      ensures ok ==> saveFrequency >= SecondsPerMinute
    {
      if minutes < 1 {
        return false;
      }
      saveFrequency := minutes * SecondsPerMinute;
      ok := true;
    }

    /** Create `user_words[user]` and `user_words[user][guild]` when missing. */
    method EnsureTable(user: string, guild: string)
      requires Valid()
      modifies this`userWords
      ensures Valid()
      ensures userWords == SetTable(old(userWords), user, guild, TableOf(old(userWords), user, guild))
    {
      if user !in userWords {
        userWords := userWords[user := map[]];
      }
      if guild !in userWords[user] {
        userWords := userWords[user := userWords[user][guild := Empty()]];
      } else {
        assert userWords[user][guild := userWords[user][guild]] == userWords[user];
        assert userWords[user := userWords[user]] == userWords;
      }
    }

    /** `watchword`: the containers are created in any case; the keyword,
        lower-cased, gets a fresh entry unless it is already watched, in
        which case its entry stays as it was. */
    method WatchWord(user: string, guild: string, word: string, channels: seq<Snowflake>) returns (added: bool)
      requires Valid()
      modifies this`userWords
      ensures Valid()
      ensures added <==> Lower(word) !in TableOf(old(userWords), user, guild).items
      ensures var t := TableOf(old(userWords), user, guild);
        userWords == SetTable(old(userWords), user, guild, if added then Put(t, Lower(word), NewEntry(channels)) else t)
    {
      EnsureTable(user, guild);
      var kw := Lower(word);
      var t := userWords[user][guild];
      if kw in t.items {
        return false;
      }
      LowerIdempotent(word);
      PutKeepsTableValid(t, kw, NewEntry(channels));
      SetTableTwice(old(userWords), user, guild, t, Put(t, kw, NewEntry(channels)));
      userWords := SetTable(userWords, user, guild, Put(t, kw, NewEntry(channels)));
      added := true;
    }

    /** `deleteword`: when the keyword is watched it is removed from this
        user's table and every list of the whole log loses the records whose
        lower-cased content contains it; otherwise nothing changes. */
    method DeleteWord(user: string, guild: string, word: string) returns (found: bool)
      requires Valid()
      modifies this`userWords, this`messageLog
      ensures Valid()
      ensures found <==> Lower(word) in TableOf(old(userWords), user, guild).items
      ensures !found ==> userWords == old(userWords) && messageLog == old(messageLog)
      ensures found ==> userWords == SetTable(old(userWords), user, guild, Remove(TableOf(old(userWords), user, guild), Lower(word)))
      ensures found ==> messageLog == PurgeLog(old(messageLog), Lower(word))
    {
      var kw := Lower(word);
      if !(user in userWords && guild in userWords[user] && kw in userWords[user][guild].items) {
        return false;
      }
      userWords := SetTable(userWords, user, guild, Remove(userWords[user][guild], kw));
      PurgeMessageLog(kw);
      found := true;
    }

    /** The cascade of `deleteword`: each date of the log, in key order, is
        replaced by its purged copy. */
    method PurgeMessageLog(w: string)
      requires LogValid(messageLog)
      modifies this`messageLog
      ensures messageLog == PurgeLog(old(messageLog), w)
    {
      ghost var log0 := messageLog;
      var i := 0;
      while i < |messageLog.keys|
        invariant 0 <= i <= |log0.keys|
        invariant LogValid(log0)
        invariant messageLog.keys == log0.keys
        invariant messageLog.items.Keys == log0.items.Keys
        invariant forall j | 0 <= j < i :: messageLog.items[log0.keys[j]] == PurgeDay(log0.items[log0.keys[j]], w)
        invariant forall j | i <= j < |log0.keys| :: messageLog.items[log0.keys[j]] == log0.items[log0.keys[j]]
      {
        var d := messageLog.keys[i];
        assert d in log0.items && messageLog.items[d] == log0.items[d];
        assert forall j | 0 <= j < |log0.keys| && j != i :: log0.keys[j] != d;
        var purged := PurgeChannels(messageLog.items[d], w);
        messageLog := OrderedMap(messageLog.keys, messageLog.items[d := purged]);
        i := i + 1;
      }
      forall d | d in log0.items
        ensures messageLog.items[d] == PurgeDay(log0.items[d], w)
      {
        var j :| 0 <= j < |log0.keys| && log0.keys[j] == d;
      }
    }

    /** `watchclear`: an existing watch list for the guild becomes empty;
        the message log is not touched. */
    method WatchClear(user: string, guild: string) returns (cleared: bool)
      requires Valid()
      modifies this`userWords
      ensures Valid()
      ensures cleared <==> HasTable(old(userWords), user, guild)
      ensures userWords == if cleared then SetTable(old(userWords), user, guild, Empty()) else old(userWords)
    {
      if user in userWords && guild in userWords[user] {
        userWords := SetTable(userWords, user, guild, Empty());
        return true;
      }
      cleared := false;
    }

    /** `addfilter`: the containers are created in any case; a watched
        keyword gets each given channel mapped to the sentinel. */
    method AddFilter(user: string, guild: string, word: string, channels: seq<Snowflake>) returns (found: bool)
      requires Valid()
      modifies this`userWords
      ensures Valid()
      ensures found <==> Lower(word) in TableOf(old(userWords), user, guild).items
      ensures var t := TableOf(old(userWords), user, guild);
        userWords == SetTable(old(userWords), user, guild,
          if found then Put(t, Lower(word), t.items[Lower(word)].(channels := AddChannels(t.items[Lower(word)].channels, channels)))
          else t)
    {
      EnsureTable(user, guild);
      var kw := Lower(word);
      var t := userWords[user][guild];
      if kw !in t.items {
        return false;
      }
      var entry := t.items[kw];
      var filters := entry.channels;
      var i := 0;
      while i < |channels|
        invariant 0 <= i <= |channels|
        invariant filters == AddChannels(entry.channels, channels[..i])
      {
        filters := filters[channels[i] := Static];
        assert channels[..i + 1][..i] == channels[..i];
        i := i + 1;
      }
      assert channels[..i] == channels;
      PutKeepsTableValid(t, kw, entry.(channels := filters));
      SetTableTwice(old(userWords), user, guild, t, Put(t, kw, entry.(channels := filters)));
      userWords := SetTable(userWords, user, guild, Put(t, kw, entry.(channels := filters)));
      found := true;
    }

    /** `deletefilter`: creates nothing; a watched keyword loses the listed
        channels that it has. */
    method DeleteFilter(user: string, guild: string, word: string, channels: seq<Snowflake>) returns (found: bool)
      requires Valid()
      modifies this`userWords
      ensures Valid()
      ensures found <==> Lower(word) in TableOf(old(userWords), user, guild).items
      ensures !found ==> userWords == old(userWords)
      ensures found ==> var t := TableOf(old(userWords), user, guild);
        userWords == SetTable(old(userWords), user, guild,
          Put(t, Lower(word), t.items[Lower(word)].(channels := RemoveChannels(t.items[Lower(word)].channels, channels))))
    {
      var kw := Lower(word);
      if !(user in userWords && guild in userWords[user] && kw in userWords[user][guild].items) {
        return false;
      }
      var t := userWords[user][guild];
      var entry := t.items[kw];
      var filters := entry.channels;
      var i := 0;
      while i < |channels|
        invariant 0 <= i <= |channels|
        invariant filters == RemoveChannels(entry.channels, channels[..i])
      {
        if channels[i] in filters {
          filters := filters - {channels[i]};
        }
        assert channels[..i + 1][..i] == channels[..i];
        i := i + 1;
      }
      assert channels[..i] == channels;
      PutKeepsTableValid(t, kw, entry.(channels := filters));
      userWords := SetTable(userWords, user, guild, Put(t, kw, entry.(channels := filters)));
      found := true;
    }

    /** `addnotify`: for a watched keyword, each member not yet subscribed is
        appended, in argument order; `added` lists exactly those members. */
    method AddNotify(user: string, guild: string, word: string, members: seq<Snowflake>)
      returns (found: bool, added: seq<Snowflake>)
      requires Valid()
      modifies this`userWords
      ensures Valid()
      ensures found <==> Lower(word) in TableOf(old(userWords), user, guild).items
      ensures !found ==> userWords == old(userWords) && added == []
      ensures found ==> var t := TableOf(old(userWords), user, guild); var e := t.items[Lower(word)];
        && userWords == SetTable(old(userWords), user, guild,
             Put(t, Lower(word), e.(notifyUsers := AppendNew(e.notifyUsers, members))))
        && added == AppendNew(e.notifyUsers, members)[|e.notifyUsers|..]
        && Distinct(added)
        && forall x :: x in added <==> x in members && x !in e.notifyUsers
    {
      var kw := Lower(word);
      if !(user in userWords && guild in userWords[user] && kw in userWords[user][guild].items) {
        return false, [];
      }
      var t := userWords[user][guild];
      var entry := t.items[kw];
      var notify;
      notify, added := AppendSubscribers(entry.notifyUsers, members);
      PutKeepsTableValid(t, kw, entry.(notifyUsers := notify));
      userWords := SetTable(userWords, user, guild, Put(t, kw, entry.(notifyUsers := notify)));
      found := true;
    }

    /** `removenotify`: for a watched keyword, each listed member that is
        subscribed is removed; `removed` lists exactly those members. */
    method RemoveNotify(user: string, guild: string, word: string, members: seq<Snowflake>)
      returns (found: bool, removed: seq<Snowflake>)
      requires Valid()
      modifies this`userWords
      ensures Valid()
      ensures found <==> Lower(word) in TableOf(old(userWords), user, guild).items
      ensures !found ==> userWords == old(userWords) && removed == []
      ensures found ==> var t := TableOf(old(userWords), user, guild); var e := t.items[Lower(word)];
        && userWords == SetTable(old(userWords), user, guild,
             Put(t, Lower(word), e.(notifyUsers := RemoveMembers(e.notifyUsers, members))))
        && RemoveMembers(e.notifyUsers, members) == Keep(e.notifyUsers, members)
        && Distinct(removed)
        && forall x :: x in removed <==> x in members && x in e.notifyUsers
    {
      var kw := Lower(word);
      if !(user in userWords && guild in userWords[user] && kw in userWords[user][guild].items) {
        return false, [];
      }
      var t := userWords[user][guild];
      var entry := t.items[kw];
      var notify;
      notify, removed := RemoveSubscribers(entry.notifyUsers, members);
      PutKeepsTableValid(t, kw, entry.(notifyUsers := notify));
      userWords := SetTable(userWords, user, guild, Put(t, kw, entry.(notifyUsers := notify)));
      found := true;
    }

    /** `fetchhistory`: scan the requested channels (every text channel of
        the guild when none is named), message by message, logging each
        keyword match and notifying its subscribers through a per-call table
        of notices. The outcome is the `Matcher.Fetch` fold, whose guarantees
        `Matcher.FetchGuarantees` states. The channel histories, the member
        display names and the ids `get_user` resolves are parameters. */
    method FetchHistory(user: string, guild: string, start: Date, end: Date,
                        requested: seq<Snowflake>, textChannels: seq<Snowflake>,
                        history: Snowflake -> seq<Message>, botId: Snowflake,
                        members: map<Snowflake, string>, users: set<Snowflake>)
      returns (fetched: nat, trace: seq<Event>)
      requires Valid()
      modifies this`messageLog
      ensures Valid()
      ensures var sc := Scan(botId, members, users, Watched(userWords, user, guild), start, end);
        var r := Fetch(old(messageLog), sc, Targets(requested, textChannels), history);
        messageLog == r.log && fetched == r.fetched && trace == r.trace
      ensures var sc := Scan(botId, members, users, Watched(userWords, user, guild), start, end);
        forall sub: Snowflake, kw: string ::
          && CoalescedRun(EventsFor(trace, sub, kw))
          && |EventsFor(trace, sub, kw)|
             == if sub in users && ListedIn(sc, sub, kw) then Mentions(sc, Targets(requested, textChannels), history, kw) else 0
    {
      var sc := Scan(botId, members, users, Watched(userWords, user, guild), start, end);
      var notifications: map<(Snowflake, string), nat> := map[];
      fetched, trace := 0, [];
      var targets := Targets(requested, textChannels);
      ghost var b0 := Batch(messageLog, 0, map[], []);
      var c := 0;
      while c < |targets|
        invariant 0 <= c <= |targets|
        invariant LogValid(messageLog)
        invariant Batch(messageLog, fetched, notifications, trace) == Channels(b0, sc, targets[..c], history)
      {
        var channel := targets[c];
        var msgs := history(channel);
        ghost var bc := Batch(messageLog, fetched, notifications, trace);
        var j := 0;
        while j < |msgs|
          invariant 0 <= j <= |msgs|
          invariant LogValid(messageLog)
          invariant Batch(messageLog, fetched, notifications, trace) == Messages(bc, sc, channel, msgs[..j])
        {
          var message := msgs[j];
          if && message.author != botId
             && !StartsWith(message.content, CommandPrefix)
             && StickersAllowed(message.stickers)
             && user in userWords && guild in userWords[user]
             && InWindow(message.createdAt.date, start, end)
          {
            fetched, notifications, trace :=
              ScanKeywords(sc, channel, message, Items(userWords[user][guild]), fetched, notifications, trace);
          }
          assert msgs[..j + 1][..j] == msgs[..j];
          j := j + 1;
        }
        assert msgs[..j] == msgs;
        assert targets[..c + 1][..c] == targets[..c];
        c := c + 1;
      }
      assert targets[..c] == targets;
      forall sub: Snowflake, kw: string
        ensures && CoalescedRun(EventsFor(trace, sub, kw))
                && |EventsFor(trace, sub, kw)|
                   == if sub in users && ListedIn(sc, sub, kw) then Mentions(sc, targets, history, kw) else 0
      {
        FetchNotices(old(messageLog), sc, targets, history, sub, kw);
      }
    }

    /** The keyword loop of `fetchhistory` for one accepted message. */
    method ScanKeywords(sc: Scan, channel: Snowflake, message: Message, items: seq<(string, Entry)>,
                        fetched0: nat, notifications0: map<(Snowflake, string), nat>, trace0: seq<Event>)
      returns (fetched: nat, notifications: map<(Snowflake, string), nat>, trace: seq<Event>)
      requires LogValid(messageLog)
      modifies this`messageLog
      ensures LogValid(messageLog)
      ensures Batch(messageLog, fetched, notifications, trace)
           == Keywords(Batch(old(messageLog), fetched0, notifications0, trace0), sc, channel, message, items)
    {
      fetched, notifications, trace := fetched0, notifications0, trace0;
      ghost var bm := Batch(messageLog, fetched, notifications, trace);
      var k := 0;
      while k < |items|
        invariant 0 <= k <= |items|
        invariant LogValid(messageLog)
        invariant Batch(messageLog, fetched, notifications, trace) == Keywords(bm, sc, channel, message, items[..k])
      {
        var keyword, data := items[k].0, items[k].1;
        if Matches(keyword, message.content) {
          LogMessage(message.createdAt.date, DecimalString(channel), RecordFor(sc, message));
          notifications, trace := NotifySubscribers(messageLog, fetched, notifications, trace, sc.users, data.notifyUsers, keyword, channel);
          fetched := fetched + 1;
        }
        assert items[..k + 1][..k] == items[..k];
        k := k + 1;
      }
      assert items[..k] == items;
    }

    /** Ensure `message_log[d][ch]` exists, then append the record to it. */
    method LogMessage(d: Date, ch: string, r: Record)
      requires LogValid(messageLog)
      modifies this`messageLog
      ensures messageLog == AppendRecord(old(messageLog), d, ch, r)
      ensures LogValid(messageLog)
    {
      if d !in messageLog.items {
        messageLog := Put(messageLog, d, Empty());
      }
      if ch !in messageLog.items[d].items {
        messageLog := Put(messageLog, d, Put(messageLog.items[d], ch, []));
      }
      var day := messageLog.items[d];
      messageLog := Put(messageLog, d, Put(day, ch, day.items[ch] + [r]));
      AppendInSteps(old(messageLog), d, ch, r);
    }

    /** `export_logs_to_excel`: the rows of the dates inside the inclusive
        window, date by date, channel by channel, message by message, in the
        log's key order. Which rows these are is `MessageLog.ExportRowsExact`. */
    method ExportLogs(start: Date, end: Date) returns (rows: seq<Row>)
      requires Valid()
      ensures rows == ExportRows(messageLog, start, end)
    {
      rows := [];
      var i := 0;
      while i < |messageLog.keys|
        invariant 0 <= i <= |messageLog.keys|
        invariant rows == DateRows(messageLog, start, end, i)
      {
        var d := messageLog.keys[i];
        if InWindow(d, start, end) {
          rows := CollectChannels(rows, d, messageLog.items[d]);
        }
        i := i + 1;
      }
    }

    /** `clearlogs`: only a confirmed prompt empties the message log. */
    method ClearLogs(reply: Reply) returns (cleared: bool)
      requires Valid()
      modifies this`messageLog
      ensures Valid()
      ensures cleared <==> reply == Confirmed
      ensures messageLog == if cleared then Empty() else old(messageLog)
    {
      if reply == Confirmed {
        messageLog := Empty();
        return true;
      }
      cleared := false;
    }
  }
}
