/** The message log `message_log`: date -> channel key (`str(channel.id)`) ->
    the matched messages in the order they were logged. Both dictionary
    levels keep insertion order, which is the row order of an export. */
module MessageLog {
  import opened OrderedMaps
  import opened Text
  import opened Dates

  /** One logged message: `{"author", "content", "timestamp"}`. */
  datatype Record = Record(author: string, content: string, timestamp: Instant)

  /** channel key -> records. */
  type Day = OrderedMap<string, seq<Record>>

  /** date -> channel key -> records. */
  type Log = OrderedMap<Date, Day>

  predicate LogValid(log: Log) {
    Valid(log) && forall d | d in log.items :: Valid(log.items[d])
  }

  /** The records logged under a date and channel; no list reads as empty. */
  function ListAt(log: Log, d: Date, ch: string): seq<Record> {
    if d in log.items && ch in log.items[d].items then log.items[d].items[ch] else []
  }

  function DayOf(log: Log, d: Date): Day {
    if d in log.items then log.items[d] else Empty()
  }

  function ListOf(day: Day, ch: string): seq<Record> {
    if ch in day.items then day.items[ch] else []
  }

  /** Create `log[d]` and `log[d][ch]` when missing, then append `r` to
      `log[d][ch]`: the record goes at the end of that one list and every
      other list stays as it was. */
  function AppendRecord(log: Log, d: Date, ch: string, r: Record): (log': Log)
    ensures LogValid(log) ==> LogValid(log')
    ensures ListAt(log', d, ch) == ListAt(log, d, ch) + [r]
    ensures forall d2, ch2 | d2 != d || ch2 != ch :: ListAt(log', d2, ch2) == ListAt(log, d2, ch2)
    ensures forall d2 :: d2 in log'.items <==> d2 in log.items || d2 == d
    ensures log'.keys == if d in log.items then log.keys else log.keys + [d]
  {
    var day := DayOf(log, d);
    Put(log, d, Put(day, ch, ListOf(day, ch) + [r]))
  }

  /** The three steps of the history scan (create the date, create the
      channel list, append to it) amount to `AppendRecord`. */
  lemma AppendInSteps(log: Log, d: Date, ch: string, r: Record)
    ensures var l1 := if d in log.items then log else Put(log, d, Empty());
      var l2 := if ch in l1.items[d].items then l1 else Put(l1, d, Put(l1.items[d], ch, []));
      Put(l2, d, Put(l2.items[d], ch, l2.items[d].items[ch] + [r])) == AppendRecord(log, d, ch, r)
  {
    var l1 := if d in log.items then log else Put(log, d, Empty());
    var day := DayOf(log, d);
    assert l1.items[d] == day;
    if ch !in day.items {
      PutTwice(l1, d, Put(day, ch, []), Put(Put(day, ch, []), ch, [r]));
      PutTwice(day, ch, [], [r]);
      assert [] + [r] == [r];
    }
    if d !in log.items {
      var l2 := if ch in day.items then l1 else Put(l1, d, Put(day, ch, []));
      PutTwice(log, d, Empty(), l2.items[d]);
      PutTwice(log, d, Empty(), Put(l2.items[d], ch, l2.items[d].items[ch] + [r]));
    }
  }

  function RecordCount(records: seq<Record>): nat {
    |records|
  }

  /** Number of records of one date. */
  function DayTotal(day: Day): nat {
    Size(day, RecordCount)
  }

  /** Number of records in the whole log. */
  function Total(log: Log): nat {
    Size(log, DayTotal)
  }

  /** Each append adds exactly one record to the log. */
  lemma AppendRecordTotal(log: Log, d: Date, ch: string, r: Record)
    requires LogValid(log)
    ensures Total(AppendRecord(log, d, ch, r)) == Total(log) + 1
  {
    var day := DayOf(log, d);
    var l := ListOf(day, ch);
    assert Valid(day);
    SizeOfPut(day, RecordCount, ch, l + [r]);
    var day' := Put(day, ch, l + [r]);
    assert DayTotal(day') == DayTotal(day) + 1;
    SizeOfPut(log, DayTotal, d, day');
    if d !in log.items {
      assert DayTotal(day) == 0;
    }
  }

  /** `b` is `a` with records appended at the end of lists and, possibly, new
      dates and channels appended at the end of the key orders. */
  ghost predicate Extends(a: Log, b: Log) {
    && a.keys <= b.keys
    && (forall d | d in a.items :: d in b.items && a.items[d].keys <= b.items[d].keys)
    && (forall d, ch :: ListAt(a, d, ch) <= ListAt(b, d, ch))
  }

  lemma ExtendsTransitive(a: Log, b: Log, c: Log)
    requires Extends(a, b) && Extends(b, c)
    ensures Extends(a, c)
  {
    forall d, ch ensures ListAt(a, d, ch) <= ListAt(c, d, ch) {
      assert ListAt(a, d, ch) <= ListAt(b, d, ch);
    }
  }

  lemma AppendRecordExtends(log: Log, d: Date, ch: string, r: Record)
    requires LogValid(log)
    ensures Extends(log, AppendRecord(log, d, ch, r))
  {
    var log' := AppendRecord(log, d, ch, r);
    forall d2, ch2 ensures ListAt(log, d2, ch2) <= ListAt(log', d2, ch2) {
      if d2 == d && ch2 == ch {
        assert ListAt(log', d, ch) == ListAt(log, d, ch) + [r];
      }
    }
  }

  /** `[msg for msg in messages if w not in msg["content"].lower()]`. */
  function KeepUnmatched(records: seq<Record>, w: string): (r: seq<Record>)
    ensures forall x :: x in r <==> x in records && !Contains(Lower(x.content), w)
    ensures |r| <= |records|
  {
    if records == [] then []
    else
      var rest := KeepUnmatched(records[1..], w);
      if Contains(Lower(records[0].content), w) then rest else [records[0]] + rest
  }

  /** The filter works element by element, so it keeps the original order. */
  lemma {:induction false} KeepUnmatchedConcat(a: seq<Record>, b: seq<Record>, w: string)
    ensures KeepUnmatched(a + b, w) == KeepUnmatched(a, w) + KeepUnmatched(b, w)
  {
    if a == [] {
      assert a + b == b;
    } else {
      assert (a + b)[1..] == a[1..] + b;
      KeepUnmatchedConcat(a[1..], b, w);
    }
  }

  /** Purging twice with the same word removes nothing more. */
  lemma {:induction false} KeepUnmatchedIdempotent(records: seq<Record>, w: string)
    ensures KeepUnmatched(KeepUnmatched(records, w), w) == KeepUnmatched(records, w)
  {
    if records != [] {
      KeepUnmatchedIdempotent(records[1..], w);
    }
  }

  function PurgeDay(day: Day, w: string): Day {
    OrderedMap(day.keys, map ch | ch in day.items :: KeepUnmatched(day.items[ch], w))
  }

  /** The cascading purge of `deleteword`: every list of every date is
      replaced by its filtered copy; no date or channel key is dropped. */
  function PurgeLog(log: Log, w: string): (r: Log)
    ensures LogValid(log) ==> LogValid(r)
  {
    OrderedMap(log.keys, map d | d in log.items :: PurgeDay(log.items[d], w))
  }

  /** The purge keeps both key orders and, in every list, exactly the records
      whose lower-cased content does not contain `w`. */
  lemma PurgeLogExact(log: Log, w: string)
    ensures PurgeLog(log, w).keys == log.keys
    ensures forall d :: d in PurgeLog(log, w).items <==> d in log.items
    ensures forall d | d in log.items :: PurgeLog(log, w).items[d].keys == log.items[d].keys
    ensures forall d | d in log.items :: PurgeLog(log, w).items[d].items.Keys == log.items[d].items.Keys
    ensures forall d, ch :: ListAt(PurgeLog(log, w), d, ch) == KeepUnmatched(ListAt(log, d, ch), w)
  {
  }

  /** A record logged because its content matched keyword `kw` as a whole
      word does not survive `deleteword(kw)`. */
  lemma PurgeRemovesMatched(log: Log, kw: string, d: Date, ch: string, x: Record)
    requires WholeWordMatch(kw, x.content)
    ensures x !in ListAt(PurgeLog(log, Lower(kw)), d, ch)
  {
    WholeWordImpliesContains(kw, x.content);
    PurgeLogExact(log, Lower(kw));
  }

  /** The purge tests substrings, not whole words: deleting `"cat"` also
      drops a logged `"concatenate"`, which the matcher never counts as a
      hit of `"cat"`. */
  lemma PurgeIsBySubstring(author: string, at: Instant)
    ensures !Matches("cat", "concatenate")
    ensures KeepUnmatched([Record(author, "concatenate", at)], "cat") == []
  {
    ConcatenateDoesNotMatch();
    assert OccursAt("cat", Lower("concatenate"), 3);
  }

  /** One spreadsheet row of an export. */
  datatype Row = Row(date: Date, channel: string, author: string, content: string, timestamp: Instant)

  function RowOf(d: Date, ch: string, x: Record): Row {
    Row(d, ch, x.author, x.content, x.timestamp)
  }

  function RecordOf(row: Row): Record {
    Record(row.author, row.content, row.timestamp)
  }

  function MessageRows(d: Date, ch: string, records: seq<Record>): (rows: seq<Row>)
    ensures |rows| == |records|
  {
    if records == [] then []
    else MessageRows(d, ch, records[..|records| - 1]) + [RowOf(d, ch, records[|records| - 1])]
  }

  /** Rows of the first `n` channels of a date. */
  function ChannelRows(d: Date, day: Day, n: nat): seq<Row>
    requires Valid(day) && n <= |day.keys|
  {
    if n == 0 then []
    else
      var ch := day.keys[n - 1];
      ChannelRows(d, day, n - 1) + MessageRows(d, ch, day.items[ch])
  }

  /** Rows of the first `n` dates, skipping those outside the window. */
  function DateRows(log: Log, start: Date, end: Date, n: nat): seq<Row>
    requires LogValid(log) && n <= |log.keys|
  {
    if n == 0 then []
    else
      var d := log.keys[n - 1];
      DateRows(log, start, end, n - 1)
        + (if InWindow(d, start, end) then ChannelRows(d, log.items[d], |log.items[d].keys|) else [])
  }

  /** The rows `export_logs_to_excel` collects, date by date, channel by
      channel, message by message. */
  function ExportRows(log: Log, start: Date, end: Date): seq<Row>
    requires LogValid(log)
  {
    DateRows(log, start, end, |log.keys|)
  }

  lemma {:induction false} MessageRowsMember(d: Date, ch: string, records: seq<Record>, row: Row)
    ensures row in MessageRows(d, ch, records) <==> row.date == d && row.channel == ch && RecordOf(row) in records
  {
    if records != [] {
      var init := records[..|records| - 1];
      MessageRowsMember(d, ch, init, row);
      assert records == init + [records[|records| - 1]];
    }
  }

  lemma {:induction false} ChannelRowsMember(d: Date, day: Day, n: nat, row: Row)
    requires Valid(day) && n <= |day.keys|
    ensures row in ChannelRows(d, day, n) <==>
      row.date == d && row.channel in day.keys[..n] && RecordOf(row) in day.items[row.channel]
  {
    if n > 0 {
      var ch := day.keys[n - 1];
      ChannelRowsMember(d, day, n - 1, row);
      MessageRowsMember(d, ch, day.items[ch], row);
      assert day.keys[..n] == day.keys[..n - 1] + [ch];
    }
  }

  lemma {:induction false} DateRowsMember(log: Log, start: Date, end: Date, n: nat, row: Row)
    requires LogValid(log) && n <= |log.keys|
    ensures row in DateRows(log, start, end, n) <==>
      && row.date in log.keys[..n] && InWindow(row.date, start, end)
      && RecordOf(row) in ListAt(log, row.date, row.channel)
  {
    if n > 0 {
      var d := log.keys[n - 1];
      DateRowsMember(log, start, end, n - 1, row);
      ChannelRowsMember(d, log.items[d], |log.items[d].keys|, row);
      assert log.keys[..n] == log.keys[..n - 1] + [d];
      assert log.items[d].keys[..|log.items[d].keys|] == log.items[d].keys;
    }
  }

  /** A row is exported exactly when its date lies in the inclusive window and
      its record is logged under that date and channel. */
  lemma ExportRowsExact(log: Log, start: Date, end: Date, row: Row)
    requires LogValid(log)
    ensures row in ExportRows(log, start, end) <==>
      InWindow(row.date, start, end) && RecordOf(row) in ListAt(log, row.date, row.channel)
  {
    DateRowsMember(log, start, end, |log.keys|, row);
    assert log.keys[..|log.keys|] == log.keys;
  }

  lemma {:induction false} ChannelRowsCount(d: Date, day: Day, n: nat)
    requires Valid(day) && n <= |day.keys|
    ensures |ChannelRows(d, day, n)| == SumOver(day.keys[..n], day.items, RecordCount)
  {
    if n > 0 {
      ChannelRowsCount(d, day, n - 1);
      assert day.keys[..n][..n - 1] == day.keys[..n - 1];
    }
  }

  lemma {:induction false} DateRowsCount(log: Log, start: Date, end: Date, n: nat)
    requires LogValid(log) && n <= |log.keys|
    ensures |DateRows(log, start, end, n)| <= SumOver(log.keys[..n], log.items, DayTotal)
    ensures (forall d | d in log.items :: InWindow(d, start, end)) ==>
      |DateRows(log, start, end, n)| == SumOver(log.keys[..n], log.items, DayTotal)
  {
    if n > 0 {
      var d := log.keys[n - 1];
      DateRowsCount(log, start, end, n - 1);
      ChannelRowsCount(d, log.items[d], |log.items[d].keys|);
      assert log.items[d].keys[..|log.items[d].keys|] == log.items[d].keys;
      assert log.keys[..n][..n - 1] == log.keys[..n - 1];
    }
  }

  /** An export holds at most every logged record, and all of them when the
      window covers every logged date. */
  lemma ExportRowsCount(log: Log, start: Date, end: Date)
    requires LogValid(log)
    ensures |ExportRows(log, start, end)| <= Total(log)
    ensures (forall d | d in log.items :: InWindow(d, start, end)) ==> |ExportRows(log, start, end)| == Total(log)
  {
    DateRowsCount(log, start, end, |log.keys|);
    assert log.keys[..|log.keys|] == log.keys;
  }
}
