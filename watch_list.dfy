/** The watch-list store `user_words`: user id -> guild id -> lower-cased
    keyword -> entry. An entry holds its channel filter (channel id -> the
    sentinel -1), the `last_alerted` time and the ordered `notify_users` list.
    The pure list and map edits behind the filter and subscriber commands live
    here; the commands themselves are methods of `Bot.Tracker`. */
module WatchList {
  import opened Wrappers
  import opened Lists
  import opened OrderedMaps
  import opened Text

  /** A platform id (user, member, channel). */
  type Snowflake = nat

  /** `bot.static`: the value stored for every filtered channel. */
  const Static: int := -1

  datatype Entry = Entry(channels: map<Snowflake, int>, lastAlerted: int, notifyUsers: seq<Snowflake>)

  /** keyword -> entry, in insertion order. */
  type KeywordTable = OrderedMap<string, Entry>

  /** user id -> guild id -> keyword table (ids as decimal strings). */
  type Store = map<string, map<string, KeywordTable>>

  /** Every channel of the filter maps to the sentinel and no subscriber is
      listed twice. */
  predicate EntryValid(e: Entry) {
    && Distinct(e.notifyUsers)
    && forall c | c in e.channels :: e.channels[c] == Static
  }

  /** Keys are lower case; entries are valid. */
  predicate TableValid(t: KeywordTable) {
    && Valid(t)
    && forall k | k in t.items :: Lower(k) == k && EntryValid(t.items[k])
  }

  predicate StoreValid(s: Store) {
    forall u, g | u in s && g in s[u] :: TableValid(s[u][g])
  }

  /** The guild map of a user, empty when the user has none yet. */
  function GuildsOf(s: Store, user: string): map<string, KeywordTable> {
    if user in s then s[user] else map[]
  }

  /** The keyword table of a user in a guild, empty when there is none yet. */
  function TableOf(s: Store, user: string, guild: string): KeywordTable {
    if user in s && guild in s[user] then s[user][guild] else Empty()
  }

  /** The watch list exists: the guard shared by deleteword, deletefilter,
      addnotify, removenotify and the history scan. */
  predicate HasTable(s: Store, user: string, guild: string) {
    user in s && guild in s[user]
  }

  /** `user_words[user][guild] = t`, creating the user's guild map when
      missing: that one table is replaced and every other stays. */
  function SetTable(s: Store, user: string, guild: string, t: KeywordTable): (r: Store)
    ensures StoreValid(s) && TableValid(t) ==> StoreValid(r)
    ensures HasTable(r, user, guild) && r[user][guild] == t
    ensures forall u, g | u != user || g != guild :: HasTable(r, u, g) == HasTable(s, u, g)
    ensures forall u, g | (u != user || g != guild) && HasTable(s, u, g) :: HasTable(r, u, g) && r[u][g] == s[u][g]
  {
    s[user := GuildsOf(s, user)[guild := t]]
  }

  /** Setting the same table twice keeps only the second. */
  lemma SetTableTwice(s: Store, user: string, guild: string, t1: KeywordTable, t2: KeywordTable)
    ensures SetTable(SetTable(s, user, guild, t1), user, guild, t2) == SetTable(s, user, guild, t2)
  {
    assert GuildsOf(s, user)[guild := t1][guild := t2] == GuildsOf(s, user)[guild := t2];
  }

  /** `table[kw] = e` keeps the table valid for a lower-case keyword and a
      valid entry. */
  lemma PutKeepsTableValid(t: KeywordTable, kw: string, e: Entry)
    requires TableValid(t) && Lower(kw) == kw && EntryValid(e)
    ensures TableValid(Put(t, kw, e))
  {
  }

  /** `table.items()`: one (keyword, entry) pair per key of the table, in
      the table's insertion order, no keyword twice. */
  function Items(t: KeywordTable): (r: seq<(string, Entry)>)
    requires Valid(t)
    ensures |r| == |t.keys|
    ensures forall i | 0 <= i < |r| :: r[i].0 == t.keys[i]
    ensures forall i | 0 <= i < |r| :: r[i].0 in t.items && r[i].1 == t.items[r[i].0]
    ensures forall k | k in t.items :: exists i | 0 <= i < |r| :: r[i].0 == k
    ensures forall i, j | 0 <= i < j < |r| :: r[i].0 != r[j].0
  {
    var r := seq(|t.keys|, i requires 0 <= i < |t.keys| => (t.keys[i], t.items[t.keys[i]]));
    assert forall k | k in t.items :: exists i | 0 <= i < |r| :: r[i].0 == k by {
      forall k | k in t.items ensures exists i | 0 <= i < |r| :: r[i].0 == k {
        assert k in t.keys;
        var i :| 0 <= i < |t.keys| && t.keys[i] == k;
        assert r[i].0 == k;
      }
    }
    r
  }

  /** A watch list as the scan iterates it: no keyword twice and no
      subscriber listed twice for a keyword. */
  predicate ItemsValid(items: seq<(string, Entry)>) {
    && (forall i, j | 0 <= i < j < |items| :: items[i].0 != items[j].0)
    && (forall i | 0 <= i < |items| :: Distinct(items[i].1.notifyUsers))
  }

  /** The invoking user's watch list for the guild, if any, as the history
      scan iterates it. */
  function Watched(s: Store, user: string, guild: string): (r: Option<seq<(string, Entry)>>)
    requires StoreValid(s)
    ensures r.Some? <==> HasTable(s, user, guild)
    ensures r.Some? ==> ItemsValid(r.value) && |r.value| == |s[user][guild].keys|
  {
    if HasTable(s, user, guild) then Some(Items(s[user][guild])) else None
  }

  /** The entry `watchword` creates: the given channels, all mapped to the
      sentinel (no channels: an empty filter), never alerted, nobody to notify. */
  function NewEntry(channels: seq<Snowflake>): (e: Entry)
    ensures EntryValid(e)
    ensures forall c :: c in e.channels <==> c in channels
    ensures e.lastAlerted == 0 && e.notifyUsers == []
  {
    Entry(map c | c in channels :: Static, 0, [])
  }

  /** `word_data["channels"][c] = bot.static` for each `c` of `cs`, in order. */
  function AddChannels(f: map<Snowflake, int>, cs: seq<Snowflake>): (r: map<Snowflake, int>)
    ensures forall c :: c in r <==> c in f || c in cs
    ensures forall c | c in r :: r[c] == if c in cs then Static else f[c]
  {
    if cs == [] then f
    else AddChannels(f, cs[..|cs| - 1])[cs[|cs| - 1] := Static]
  }

  /** `del word_data["channels"][c]` for each listed `c` that is present. */
  function RemoveChannels(f: map<Snowflake, int>, cs: seq<Snowflake>): (r: map<Snowflake, int>)
    ensures forall c :: c in r <==> c in f && c !in cs
    ensures forall c | c in r :: r[c] == f[c]
  {
    if cs == [] then f
    else
      var p := RemoveChannels(f, cs[..|cs| - 1]);
      var c := cs[|cs| - 1];
      if c in p then p - {c} else p
  }

  /** Adding the same channels twice is the same as adding them once. */
  lemma AddChannelsIdempotent(f: map<Snowflake, int>, cs: seq<Snowflake>)
    ensures AddChannels(AddChannels(f, cs), cs) == AddChannels(f, cs)
  {
  }

  /** Removing the channels just added leaves the other filters as they were. */
  lemma RemoveAfterAddChannels(f: map<Snowflake, int>, cs: seq<Snowflake>)
    ensures RemoveChannels(AddChannels(f, cs), cs) == map c | c in f && c !in cs :: f[c]
  {
  }

  /** The `addnotify` loop: append each member not yet in the list, so that
      a member repeated in one call is appended once. */
  function AppendNew(l: seq<Snowflake>, ms: seq<Snowflake>): (r: seq<Snowflake>)
    ensures l <= r
    ensures forall x :: x in r <==> x in l || x in ms
    ensures Distinct(l) ==> Distinct(r)
  {
    if ms == [] then l
    else
      var p := AppendNew(l, ms[..|ms| - 1]);
      var m := ms[|ms| - 1];
      assert Distinct(p) && m !in p ==> Distinct(p + [m]);
      if m in p then p else p + [m]
  }

  /** Members that are distinct and not yet subscribed are appended exactly
      in argument order. */
  lemma {:induction false} AppendNewFresh(l: seq<Snowflake>, ms: seq<Snowflake>)
    requires Distinct(ms) && forall m | m in ms :: m !in l
    ensures AppendNew(l, ms) == l + ms
  {
    if ms != [] {
      var init, m := ms[..|ms| - 1], ms[|ms| - 1];
      DistinctInit(ms);
      AppendNewFresh(l, init);
      var p := AppendNew(l, init);
      assert m !in p by {
        assert p == l + init && m !in l && m !in init;
      }
      assert ms == init + [m];
      calc {
        AppendNew(l, ms);
        p + [m];
        l + ms;
      }
    }
  }

  /** `addnotify` with `a + b` is `addnotify` with `a`, then with `b`: the
      members are taken in argument order. */
  lemma {:induction false} AppendNewConcat(l: seq<Snowflake>, a: seq<Snowflake>, b: seq<Snowflake>)
    ensures AppendNew(l, a + b) == AppendNew(AppendNew(l, a), b)
  {
    if b == [] {
      assert a + b == a;
    } else {
      assert (a + b)[..|a + b| - 1] == a + b[..|b| - 1];
      AppendNewConcat(l, a, b[..|b| - 1]);
    }
  }

  /** A second `addnotify` with the same members adds nobody. */
  lemma {:induction false} AppendNewIdempotent(l: seq<Snowflake>, ms: seq<Snowflake>)
    ensures AppendNew(AppendNew(l, ms), ms) == AppendNew(l, ms)
  {
    AppendNewPresent(AppendNew(l, ms), ms);
  }

  /** The members `addnotify` reports as added: exactly the listed members
      that were not yet subscribed, each once. */
  lemma AppendNewAdded(l: seq<Snowflake>, ms: seq<Snowflake>, added: seq<Snowflake>)
    requires Distinct(l) && AppendNew(l, ms) == l + added
    ensures Distinct(added)
    ensures forall x :: x in added <==> x in ms && x !in l
  {
    var r := AppendNew(l, ms);
    assert added == r[|l|..];
    forall i, j | 0 <= i < j < |added| ensures added[i] != added[j] {
      assert added[i] == r[|l| + i] && added[j] == r[|l| + j];
    }
    forall x ensures x in added <==> x in ms && x !in l {
      if x in added {
        var i :| 0 <= i < |added| && added[i] == x;
        assert r[|l| + i] == x;
        forall j | 0 <= j < |l| ensures l[j] != x { assert r[j] == l[j]; }
      }
    }
  }

  lemma {:induction false} AppendNewPresent(l: seq<Snowflake>, ms: seq<Snowflake>)
    requires forall m | m in ms :: m in l
    ensures AppendNew(l, ms) == l
  {
    if ms != [] {
      AppendNewPresent(l, ms[..|ms| - 1]);
    }
  }

  /** The `removenotify` loop: `list.remove(m)` for each listed `m` present. */
  function RemoveMembers(l: seq<Snowflake>, ms: seq<Snowflake>): seq<Snowflake> {
    if ms == [] then l
    else RemoveFirst(RemoveMembers(l, ms[..|ms| - 1]), ms[|ms| - 1])
  }

  /** One step of the `removenotify` loop on a list without repeats. */
  lemma RemoveStep(l: seq<Snowflake>, ms: seq<Snowflake>, m: Snowflake)
    requires Distinct(l)
    ensures RemoveFirst(Keep(l, ms), m) == Keep(l, ms + [m])
  {
    RemoveFirstOfDistinct(Keep(l, ms), m);
    KeepKeep(l, ms, [m]);
  }

  /** On a list without repeats (the `notify_users` invariant), `removenotify`
      keeps exactly the members not listed, in their original order. */
  lemma {:induction false} RemoveMembersKeeps(l: seq<Snowflake>, ms: seq<Snowflake>)
    requires Distinct(l)
    ensures RemoveMembers(l, ms) == Keep(l, ms)
  {
    if ms == [] {
      KeepNone(l, ms);
    } else {
      var init, m := ms[..|ms| - 1], ms[|ms| - 1];
      RemoveMembersKeeps(l, init);
      RemoveStep(l, init, m);
      assert init + [m] == ms;
    }
  }

  /** Removing the members just added leaves the original list without them:
      `addnotify` followed by `removenotify` with the same members. */
  lemma RemoveAfterAppend(l: seq<Snowflake>, ms: seq<Snowflake>)
    requires Distinct(l)
    ensures RemoveMembers(AppendNew(l, ms), ms) == Keep(l, ms)
  {
    var a := AppendNew(l, ms);
    RemoveMembersKeeps(a, ms);
    assert a == l + a[|l|..];
    KeepConcat(l, a[|l|..], ms);
    KeepNone(l, []);
    assert Keep(a[|l|..], ms) == [] by {
      KeepAllListed(a[|l|..], ms);
    }
  }
}
