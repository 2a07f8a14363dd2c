# Keyword tracker bot — a verified model of its in-memory core

The bot lets each user of a chat guild watch keywords. `fetchhistory` scans
channel histories for whole-word, case-insensitive hits of the invoking
user's keywords. Each hit is appended to a message log (date → channel →
records) and the keyword's subscribers get a direct-message notice. The
first hit sends that notice; later hits edit it to show the running count.
Further commands edit the watch list (keywords, channel filters,
subscribers), purge and export the log, and change a few settings.

This project models that core in Dafny. It is organised like this:

- `Bot.Tracker` is a class whose fields are the bot's state: `user_words`,
  `user_cds`, `message_log`, the verbosity, and the scan and save
  frequencies. Its methods are the commands.
- Each method states its whole new state through the specification
  functions of the other modules:
  - `WatchList`: the watch-list store and the per-entry list and filter
    operations.
  - `MessageLog`: logging, purging and exporting.
  - `Matcher`: the history scan as a fold, with acceptance, matching,
    logging and notification.
  - `Text`: the `\b…\b` regex test, substrings, lower-casing and `str(int)`.
  - `Settings`: verbosity and the frequency rules.
  - `Permissions`: the role-permission map edit.
- The properties are proved about those functions.
- Python dictionaries whose iteration order can be observed are
  `OrderedMaps.OrderedMap`: a key sequence in insertion order plus a map.
  This covers a keyword table (it orders matching and notices) and both
  levels of the log (they order an export).

The concepts used throughout:

- **Dates** are `(year, month, day)` triples, compared lexicographically.
  A timestamp is a date plus a second of the day.
- **Identifiers** are natural numbers. The user and guild keys of the store
  are strings, because the source keys them by `str(id)`. The channel key of
  the log is `Text.DecimalString`, which is proved injective.
- **External inputs are parameters.**
  - Channel histories are a function from channel to message sequence, in
    the order the platform yields them.
  - `get_member` is a map from ids to display names.
  - `get_user` is the set of ids it resolves.
  - The bot's own id, the guild's text channels and the reply to the
    `clearlogs` prompt are also parameters.
- **Events.** The direct messages the scan sends or edits are an event
  trace of `Send(subscriber, keyword, channel)` and
  `Edit(subscriber, keyword, count)`.

The model follows the code, also where the code does not do what the
bot's own help text says:

- **Channel filters** are stored and edited, but the scan never reads them,
  although help_str.py:19 says `addfilter` makes the bot monitor the word
  only in the selected channels. Every keyword is matched in every target
  channel, and `Matcher.FetchIgnoresFilters` proves this of the model.
- **Cooldowns.** help_str.py:17 describes `cd` as a cooldown period for
  alerts, but `user_cds` is only written: nothing consults it.
- **`watchclear`** resets the guild's keyword table but leaves the message
  log alone, although help_str.py:16 says it clears all logs.
- **`last_alerted`** is set to 0 when a keyword is added and never updated.
- **Exceptions.** One `try` wraps the whole scan, so an exception would
  abort the remaining messages. It is not caught per message. Exceptions
  are outside the model.

## Model

| member | source | states |
|---|---|---|
| Lists.RemoveFirst | main.py:624 | `list.remove(x)`: the list is unchanged when x is absent, and one shorter when x is present |
| Lists.RemoveFirstCut | main.py:624 | `list.remove(x)` drops exactly the element at the first occurrence of x; the elements before and after it stay, in order |
| Lists.RemoveFirstDistinct | main.py:623-624 | on a list without repeats, the removed value is gone afterwards and the list still has no repeats |
| Lists.Keep | main.py:622-624 | reference filter: the result holds exactly the elements not listed, in their order, and has no repeats when the input has none |
| Lists.KeepConcat | main.py:245 | the filter distributes over concatenation, so what remains keeps its relative order |
| Lists.KeepKeep | main.py:622-624 | filtering by one list and then another equals filtering by both |
| Lists.KeepAt | main.py:245 | on a list without repeats, filtering out the element at position i leaves exactly the elements before and after position i, in order |
| Lists.KeepCut | main.py:245 | on a list without repeats, filtering out a present x cuts out its first (and only) occurrence |
| Lists.IndexOf | main.py:624 | the position of the first occurrence: it holds x and nothing before it does |
| Lists.RemoveFirstOfDistinct | main.py:623-624 | on a list without repeats, `list.remove(x)` equals filtering out x |
| Lists.CountDistinct | main.py:426 | on a list without repeats an element occurs once or not at all |
| Lists.RemoveFirstAppended | main.py:583 | removing a value just appended to a list that lacked it gives back the list |
| Text.Lower | main.py:215 | lower-casing keeps the length |
| Text.LowerIdempotent | main.py:215 | lower-casing twice equals lower-casing once, so stored keywords are in lower case |
| Text.SearchWholeWord | main.py:403 | the scan from a position succeeds exactly when some later position holds a case-insensitive occurrence with a word boundary at both ends |
| Text.Matches | main.py:403 | `re.search(r'\bkw\b', s, re.IGNORECASE)` with the escaped keyword: true exactly when a whole-word occurrence exists |
| Text.IsWordChar | main.py:403 | definition of the regex class `\w` on ASCII characters (letters, digits, `_`), which decides the `\b` boundaries of `Text.Matches` |
| Text.Contains | main.py:251 | true exactly when the word occurs as a substring |
| Text.WholeWordImpliesContains | main.py:251 | every whole-word hit is also a substring hit of the lower-cased content |
| Text.DecimalString | main.py:408 | `str(channel.id)` is a non-empty string of digits |
| Text.DecimalStringInjective | main.py:408 | different channel ids give different log keys |
| Text.StartsWith | main.py:386 | definition of `str.startswith`, the command-prefix guard of `Matcher.Accepted` |
| Text.CatSatMatches | main.py:403 | "cat" matches "the cat sat" and "The CAT sat" |
| Text.ConcatenateDoesNotMatch | main.py:403 | "cat" does not match "concatenate" |
| Dates.NotAfterIsTotalOrder | main.py:400 | the date comparison of the window is a total order |
| OrderedMaps.Empty | main.py:57-59 | a fresh dictionary is valid and has no keys |
| OrderedMaps.Put | main.py:220 | assigning a key keeps the key order free of repeats and in step with the map |
| OrderedMaps.Remove | main.py:245 | `del d[k]`: k is gone, every other key keeps its value, the key order is the old one with k's position cut out, and the dictionary stays valid |
| OrderedMaps.RemoveAfterPut | main.py:220-245 | inserting a new key and deleting it restores the dictionary, key order included |
| OrderedMaps.PutTwice | main.py:419 | assigning a key twice keeps only the second value, in the key's place |
| OrderedMaps.SizeOfPut | main.py:419 | replacing one value changes a dictionary's total by exactly the difference of the two values' sizes |
| WatchList.SetTable | main.py:210-213 | writing one user/guild table leaves every other table as it was and keeps the store valid |
| WatchList.SetTableTwice | main.py:210-224 | writing the same table twice keeps only the second write |
| WatchList.PutKeepsTableValid | main.py:220 | a lower-case keyword with a valid entry keeps the table valid |
| WatchList.Items | main.py:401 | `table.items()`: every key of the table appears, paired with its own entry, in insertion order, and no keyword appears twice |
| WatchList.Watched | main.py:395-401 | the scan finds no watch list exactly when the user or guild is missing; otherwise it sees the table's items, with no keyword twice and no subscriber listed twice |
| WatchList.NewEntry | main.py:220-224 | a new entry: exactly the given channels, all mapped to -1; `last_alerted` 0; no subscribers |
| WatchList.AddChannels | main.py:330-331 | the filters afterwards are the old ones plus the given channels; given channels map to -1 and the others keep their value |
| WatchList.RemoveChannels | main.py:352-354 | the filters afterwards are exactly the old ones minus the listed channels, with their values unchanged |
| WatchList.AddChannelsIdempotent | main.py:330-331 | adding the same channels again changes nothing |
| WatchList.RemoveAfterAddChannels | main.py:330-354 | deleting the channels just added leaves the other filters unchanged |
| WatchList.AppendNew | main.py:647-649 | appending new members extends the list; its members are the old ones plus the given ones; no repeats arise |
| WatchList.AppendNewFresh | main.py:647-649 | members that are distinct and not yet subscribed are appended exactly in argument order |
| WatchList.AppendNewConcat | main.py:647-649 | `addnotify` with `a + b` equals `addnotify` with `a` and then with `b`: members are taken in argument order |
| WatchList.AppendNewIdempotent | main.py:647-649 | a second `addnotify` with the same members changes nothing |
| WatchList.AppendNewPresent | main.py:648 | members already subscribed are not appended |
| WatchList.AppendNewAdded | main.py:647-650 | whatever `addnotify` appends has no repeats and holds exactly the given members not yet subscribed |
| WatchList.RemoveStep | main.py:623-624 | on a list without repeats, one `list.remove` step extends the filtered-out members by one |
| WatchList.RemoveMembers | main.py:622-624 | definition of the `removenotify` loop (`list.remove` per listed member); what it keeps is `WatchList.RemoveMembersKeeps` |
| WatchList.RemoveMembersKeeps | main.py:622-624 | on a list without repeats, the `removenotify` loop keeps exactly the unlisted members, in their original order |
| WatchList.RemoveAfterAppend | main.py:622-649 | `removenotify` after `addnotify` with the same members leaves the original list without those members |
| MessageLog.AppendRecord | main.py:405-423 | the record goes at the end of `log[date][channel]` and every other list is unchanged; the date is added to the key order only when new; the log stays valid |
| MessageLog.AppendInSteps | main.py:406-419 | creating the date, creating the channel list, then appending equals `AppendRecord` |
| MessageLog.AppendRecordTotal | main.py:419 | each append adds exactly one record to the log |
| MessageLog.AppendRecordExtends | main.py:419 | an append keeps every earlier record in place: key orders and lists only grow at the end |
| MessageLog.ExtendsTransitive | main.py:419 | growth of the log composes across appends |
| MessageLog.KeepUnmatched | main.py:251 | the purge keeps exactly the records whose lower-cased content does not contain the word, and never more records |
| MessageLog.KeepUnmatchedConcat | main.py:251 | the filter works record by record, so it keeps the original order |
| MessageLog.KeepUnmatchedIdempotent | main.py:251 | purging twice with one word removes nothing more |
| MessageLog.PurgeLog | main.py:248-251 | the purged log is valid |
| MessageLog.PurgeLogExact | main.py:248-251 | the purge keeps every date and channel key, in order, even when a list becomes empty; each list becomes its filtered copy |
| MessageLog.PurgeDay | main.py:249-251 | definition of the purge of one date; see `MessageLog.PurgeLogExact` |
| MessageLog.PurgeRemovesMatched | main.py:248-251 | a record logged as a whole-word hit of a keyword does not survive deleting that keyword |
| MessageLog.PurgeIsBySubstring | main.py:251 | deleting "cat" also drops a logged "concatenate", which was never a hit of "cat" |
| MessageLog.MessageRows | main.py:107-108 | one row per record of a list |
| MessageLog.ChannelRows | main.py:106-108 | definition of the rows of one date's first n channels; see `MessageLog.ChannelRowsMember` |
| MessageLog.DateRows | main.py:103-108 | definition of the rows of the first n dates; see `MessageLog.DateRowsMember` |
| MessageLog.ExportRows | main.py:103-108 | definition of the export's rows; see `MessageLog.ExportRowsExact` |
| MessageLog.MessageRowsMember | main.py:107-108 | a row comes from a list exactly when its date, channel and record match |
| MessageLog.ChannelRowsMember | main.py:106-108 | a row comes from a date exactly when its channel is a key of that date and its record is in that channel's list |
| MessageLog.DateRowsMember | main.py:103-108 | a row is collected exactly when its date is a log key inside the window and its record is logged there |
| MessageLog.ChannelRowsCount | main.py:106-108 | the rows of a date number exactly its records |
| MessageLog.DateRowsCount | main.py:103-108 | the rows collected so far number at most the records of the dates seen, and exactly that when every date lies in the window |
| MessageLog.ExportRowsExact | main.py:103-108 | a row is exported exactly when its date lies in the inclusive window and its record is logged under that date and channel |
| MessageLog.ExportRowsCount | main.py:103-108 | an export holds at most every record, and every record when the window covers all logged dates |
| Matcher.NotifyOneCoalescing | main.py:428-437 | one subscriber step keeps each notice's events as one send followed by edits with counts 2, 3, 4 and so on; a resolvable subscriber's notice gets exactly one more event and its count rises by one; every other notice is unchanged; unresolved subscribers get nothing |
| Matcher.NotifyOneAt | main.py:428-437 | for a resolvable subscriber, the step adds one to that notice's count and appends one event to it: an edit to the new count if the notice exists, else a send; every other notice is unchanged |
| Matcher.NotifyAllFacts | main.py:426-437 | the subscriber loop leaves the log and the hit count alone, only extends the trace, keeps the coalescing invariant, and raises each resolvable subscriber's count by the number of times it is listed, leaving every other count alone |
| Matcher.KeywordStepGrows | main.py:403-439 | a keyword step keeps every earlier record, adds as many records as hits and keeps the coalescing invariant; a matching keyword adds exactly one hit and appends its record to the list of the message's date and channel; a keyword that does not match changes nothing |
| Matcher.KeywordsGrows | main.py:401-439 | the keyword loop keeps the log growing, adds as many records as hits, and keeps coalescing |
| Matcher.MessagesGrows | main.py:381-439 | so does the message loop of one channel |
| Matcher.ChannelsGrows | main.py:380-439 | so does the channel loop |
| Matcher.FetchGuarantees | main.py:363-444 | a fetch keeps earlier records and adds exactly `fetched` records; per (subscriber, keyword), one send then edits with the running count; the stored count equals both the number of events and the number of hits (`SubHits`); unresolved subscribers get none |
| Matcher.NotifyOneCount | main.py:428-437 | one subscriber step raises that subscriber's count for the keyword by one when `get_user` resolves it, and no other count |
| Matcher.NotifyAllCount | main.py:426-437 | the subscriber loop raises a resolvable subscriber's count by the number of times it is listed, and no other count |
| Matcher.KeywordsHitCount | main.py:401-437 | the keyword loop raises each notice by its keyword hits for the message |
| Matcher.MessagesHitCount | main.py:381-437 | the message loop raises each notice by its hits over the channel |
| Matcher.ChannelsHitCount | main.py:380-437 | the channel loop raises each notice by its hits over all channels |
| Matcher.FetchHitCount | main.py:367-437 | after a fetch the stored count of every notice equals its number of hits |
| Matcher.KeywordHitsOnce | main.py:401-437 | on a watch list with no keyword twice and no subscriber twice, a matching message raises a listed subscriber's notice exactly once, and an unlisted one's not at all |
| Matcher.MessageHitsMentions | main.py:381-437 | on such a watch list, a listed subscriber's hits over a channel are the accepted messages matching the keyword |
| Matcher.ChannelHitsMentions | main.py:380-437 | the same over all target channels |
| Matcher.FetchNotices | main.py:367-437 | the coalescing promise: a resolvable subscriber listed under a keyword gets one notice, sent on the first matching message and edited on each later one, with stored count and number of events both equal to the number of accepted messages matching the keyword; anybody else gets nothing |
| Matcher.EventsForConcern | main.py:428 | every event filed under a notice belongs to that subscriber and keyword |
| Matcher.ThreeMentions | main.py:426-437 | three matching messages with one listed subscriber give one send, then an edit to 2 and an edit to 3, and a stored count of 3 |
| Matcher.StickersAllowed | main.py:390-392 | definition: every sticker is PNG, APNG or Lottie (true for no stickers) |
| Matcher.Accepted | main.py:386-400 | definition of the guards of the message loop; `Matcher.MessageStepCount` states that a rejected message changes nothing |
| Matcher.DisplayName | main.py:412-416 | definition: the member's display name, or "Unknown" |
| Matcher.RecordFor | main.py:419-423 | definition of the logged record |
| Matcher.NotifyOne | main.py:428-437 | definition of one subscriber step; its meaning is `Matcher.NotifyOneCoalescing` and `Matcher.NotifyOneCount` |
| Matcher.NotifyAll | main.py:426-437 | definition of the subscriber loop; its meaning is `Matcher.NotifyAllFacts` |
| Matcher.KeywordStep | main.py:403-439 | definition of one keyword against an accepted message; see `Matcher.KeywordStepGrows` |
| Matcher.Keywords | main.py:401-439 | definition of the keyword loop; see `Matcher.KeywordsGrows` and `Matcher.KeywordsCount` |
| Matcher.MessageStep | main.py:382-439 | definition of one message; see `Matcher.MessageStepCount` |
| Matcher.Messages | main.py:381-439 | definition of the message loop of one channel; see `Matcher.MessagesGrows` |
| Matcher.Channels | main.py:380-439 | definition of the channel loop; see `Matcher.ChannelsGrows` |
| Matcher.Targets | main.py:377 | definition: the named channels, or every text channel of the guild when none is named |
| Matcher.Fetch | main.py:367-439 | definition of one run, starting with no notices; its guarantees are `Matcher.FetchGuarantees` and `Matcher.FetchNotices` |
| Matcher.SubHits | main.py:401-437 | definition of the hits of one notice over a fetch; see `Matcher.FetchHitCount` |
| Matcher.Mentions | main.py:386-403 | definition: the accepted messages of the target channels that match a keyword; see `Matcher.FetchNotices` |
| Matcher.ChannelsAdded | main.py:380-423 | definition of the records a fetch appends to one list; see `Matcher.FetchAppends` |
| Matcher.KeywordsAdded | main.py:403-423 | definition of the records the keyword loop appends to one list; see `Matcher.KeywordsAppend` |
| Matcher.MessagesAdded | main.py:381-423 | definition of the records the message loop appends to one list; see `Matcher.MessagesAppend` |
| Matcher.KeywordsCount | main.py:401-439 | the keyword loop adds one hit per matching keyword |
| Matcher.MessageStepCount | main.py:386-439 | a rejected message changes nothing; an accepted one adds one hit per keyword it matches |
| Matcher.FetchIgnoresLog | main.py:368-439 | hits, notice counts and side effects do not depend on what the log already holds |
| Matcher.KeywordsAppend | main.py:405-423 | the keyword loop appends to each list exactly the records `KeywordsAdded` names, whatever the list held |
| Matcher.KeywordStepAppend | main.py:403-423 | one matching keyword appends the message's record to the list of its date and channel only; a keyword that does not match appends nothing |
| Matcher.MessageStepAppend | main.py:382-423 | one message appends what its keywords append, and nothing when a guard rejects it |
| Matcher.MessagesAppend | main.py:381-423 | the message loop appends to each list exactly `MessagesAdded` |
| Matcher.ChannelsAppend | main.py:380-423 | the channel loop appends to each list exactly `ChannelsAdded` |
| Matcher.FetchAppends | main.py:367-423 | what a fetch appends to each list depends only on the scan, not on what the log already holds |
| Matcher.RefetchDuplicates | main.py:363-444 | fetching the same window again reports the same hits and sends the same notices, and every list of the log gets the same records appended a second time |
| Matcher.KeywordsIgnoreFilters | main.py:401-403 | the keyword loop reads only keywords and subscribers |
| Matcher.KeywordsFilterFree | main.py:412-428 | the keyword loop reads the scan's users only through display names and `get_user` |
| Matcher.MessagesIgnoreFilters | main.py:381-403 | the message loop does not depend on channel filters |
| Matcher.ChannelsIgnoreFilters | main.py:380-403 | the channel loop does not depend on channel filters |
| Matcher.FetchIgnoresFilters | main.py:401-403 | a fetch gives the same log, count and side effects whatever channel filters the keywords carry |
| Matcher.ItemsIgnoreFilters | main.py:329-354 | editing a keyword's filters leaves its watch list the same except for filters |
| Settings.ParseLevel | main.py:133-134 | a name is accepted exactly when it names one of the four levels, and is read back as that level |
| Settings.ParseLevelName | main.py:133-135 | every level name is accepted as its own level |
| Settings.ShownThreshold | main.py:26-37 | errors always print; debug prints everything; a message printed at one verbosity prints at every lower one |
| Settings.Rank | main.py:26-31 | definition of the `verbosity` table: debug 0, info 1, warning 2, error 3 |
| Settings.Shown | main.py:37 | definition of the print decision; see `Settings.ShownThreshold` |
| Permissions.AddRole | main.py:553-563 | appends the role to an existing list unless it is already there, creates a one-role list for a new command, and reports whether anything changed |
| Permissions.RemoveRole | main.py:582-583 | when both the command and the role exist, the command's list becomes `list.remove(role)`, which keeps every other role in order; otherwise nothing changes; other commands are untouched |
| Permissions.AddRoleKeepsDistinct | main.py:553-555 | granting never lists a role twice |
| Permissions.RemoveRoleRevokes | main.py:582-583 | on a list without repeats, revoking removes the role completely and keeps the other roles in order |
| Permissions.RemoveAfterAdd | main.py:553-583 | revoking a role just granted restores the map; a command granted for the first time keeps an empty list |
| Bot.PurgeChannels | main.py:249-251 | the per-date purge loop computes `PurgeDay` |
| Bot.AppendSubscribers | main.py:647-650 | the `addnotify` loop computes `AppendNew`; the reported members are exactly the new ones, each once |
| Bot.RemoveSubscribers | main.py:622-625 | the `removenotify` loop computes the reference filter; the reported members are exactly those that were subscribed, each once |
| Bot.NotifySubscribers | main.py:426-437 | the subscriber loop computes `NotifyAll`, changing only the notice table and the trace |
| Bot.Tracker.constructor | main.py:46-59 | start-up state: verbosity info, scan every 5 s, save every 900 s, empty store, cooldowns and log |
| Bot.Tracker.SetVerbosity | main.py:133-138 | only the four level names change the verbosity |
| Bot.Tracker.SetCooldown | main.py:278-284 | stores `minutes * 60` for the user; minutes defaults to 15 |
| Bot.Tracker.SetScan | main.py:524-527 | refuses values below 1, otherwise stores the seconds |
| Bot.Tracker.SetSave | main.py:535-538 | refuses values below 1, otherwise stores `minutes * 60` |
| Bot.Tracker.EnsureTable | main.py:210-213 | creates the user and guild maps when missing, changing nothing else |
| Bot.Tracker.WatchWord | main.py:203-228 | containers are created in any case; a new lower-cased keyword gets `NewEntry(channels)`; an existing one keeps its entry |
| Bot.Tracker.DeleteWord | main.py:232-256 | a missing user, guild or keyword changes nothing; otherwise exactly that keyword is removed and the whole log is purged |
| Bot.Tracker.PurgeMessageLog | main.py:248-251 | the loop over dates computes `PurgeLog` |
| Bot.Tracker.WatchClear | main.py:260-274 | an existing guild table becomes empty; otherwise nothing changes; the log is untouched |
| Bot.Tracker.AddFilter | main.py:313-336 | containers are created in any case; a watched keyword gets `AddChannels`; otherwise found is false and only the containers are new |
| Bot.Tracker.DeleteFilter | main.py:340-359 | creates nothing; a watched keyword gets `RemoveChannels`; otherwise nothing changes |
| Bot.Tracker.AddNotify | main.py:635-660 | an unwatched word changes nothing; otherwise the list becomes `AppendNew`, and the added members are exactly the new ones |
| Bot.Tracker.RemoveNotify | main.py:613-631 | an unwatched word changes nothing; otherwise the listed subscribers are removed, order kept, and the removed members are exactly those |
| Bot.Tracker.FetchHistory | main.py:363-444 | log, hit count and side effects equal the `Fetch` fold over the target channels; each resolvable listed subscriber gets one coalesced notice per keyword, with as many events as accepted messages matching the keyword |
| Bot.Tracker.ScanKeywords | main.py:401-439 | the keyword loop for one accepted message computes `Keywords` |
| Bot.Tracker.LogMessage | main.py:405-423 | creating the containers and appending equals `AppendRecord` |
| Bot.CollectMessages | main.py:107-108 | the loop over one channel list appends exactly `MessageRows` to the rows so far |
| Bot.CollectChannels | main.py:106-108 | the loop over one date's channels appends exactly `ChannelRows` to the rows so far |
| Bot.Tracker.ExportLogs | main.py:99-108 | the collected rows equal `ExportRows`: in-window dates, then channels, then messages, in key order |
| Bot.Tracker.ClearLogs | main.py:696-698 | only a confirmed prompt empties the log; otherwise nothing changes |

## Left out

- **Chat-platform I/O.** Sending and editing messages, reactions, history
  pagination, and the 60-second wait for a reaction are all out. Each
  becomes an input parameter or an event of the trace.
- **Persistence.** Loading and saving the three JSON files, the save loop,
  `forcesave`, `botstop` and `test_save` are out, because they are file and
  event-loop I/O. So is JSON's conversion of integer keys to strings on a
  round trip.
- **Permission file handling.** Creating, reading and rewriting the
  permission file, and its decode error, are out. Only the map update of
  `addrole` and `removerole` is modelled.
- **Excel export.** Writing the spreadsheet file and its name, and deleting
  `.xlsx` files in `clearlogs`, are out. The model ends at the collected
  rows.
- **Date parsing and formatting.** Parsing the command's date strings and
  formatting log keys and timestamps are out. The model takes dates as
  values, so the errors that invalid date strings raise are also out.
- **Exceptions.** The commands' `try`/`except` error replies are out,
  including an exception in the middle of `fetchhistory`. The model has no
  operation that fails.
- **Unicode.** Python's Unicode `\w` and `str.lower()` are out. Word
  characters and lower-casing cover ASCII letters, digits and `_` only.
- **Printing.** `safe_print`'s printing and its ASCII fallback are out. Only
  its threshold is modelled, as `Settings.Shown`, with the current level
  taken from the bot.
- **Commands outside the core.** `watched`, `worddetail`, `listwatched`,
  `help`, `test`, `checkname`, `admindashboard` and `cleardm` read state or
  talk to the platform only. `clearfilter` exists only as help text.
- **Unused fields.** `scan_frequency` and `last_checked` are never used for
  scanning; `scan_frequency` is only stored.
- Bot.Tracker.AddNotify and Bot.Tracker.RemoveNotify report the ids of the
  added or removed members, not their display names. Display names are
  platform lookups.
- **`notify_users` fallback.** The `.get('notify_users', [])` fallback for
  entries without a subscriber list is out. Every entry the model creates
  has that list, and such entries could come only from a file.
- **Interleaving at awaits.** `fetchhistory` suspends at `channel.history`
  (main.py:381), at `notif_msg.edit` (main.py:434) and at `user.send`
  (main.py:436), and other commands can run there. A `watchword`
  of a new keyword (main.py:220) or a `deleteword` (main.py:245) on the same
  table changes the size of the dictionary the keyword loop at main.py:401 iterates, so the loop
  raises; the `except` at main.py:442 catches it and the fetch ends early. A
  `watchclear` (main.py:267) empties the table for the messages still to
  scan, because main.py:395 and main.py:401 read it again for each message.
  The model treats each command as atomic: `Bot.Tracker.FetchHistory` reads
  the watch list once, before the scan starts.
