/** Small settings of the tracker: the verbosity levels and the threshold of
    `safe_print`, and the defaults and units of the scan, save and cooldown
    settings. */
module Settings {
  import opened Wrappers

  datatype Level = Debug | Info | Warning | Error

  /** The level the bot starts with. */
  const DefaultVerbosity: Level := Info

  /** `bot.scan_frequency`, in seconds, at start-up. */
  const DefaultScanFrequency: int := 5

  /** `bot.save_frequency`, in seconds, at start-up. */
  const DefaultSaveFrequency: int := 900

  /** `cd`'s default argument, in minutes. */
  const DefaultCooldownMinutes: int := 15

  const SecondsPerMinute: int := 60

  /** The `verbosity` table of `safe_print`. */
  function Rank(l: Level): nat {
    match l
    case Debug => 0
    case Info => 1
    case Warning => 2
    case Error => 3
  }

  function LevelName(l: Level): string {
    match l
    case Debug => "debug"
    case Info => "info"
    case Warning => "warning"
    case Error => "error"
  }

  /** The check of `setverbosity`: only the four level names are accepted. */
  function ParseLevel(s: string): (r: Option<Level>)
    ensures r.Some? ==> LevelName(r.value) == s
    ensures r.None? ==> forall l: Level :: LevelName(l) != s
  {
    if s == "debug" then Some(Debug)
    else if s == "info" then Some(Info)
    else if s == "warning" then Some(Warning)
    else if s == "error" then Some(Error)
    else None
  }

  /** Every level name is accepted and read back as that level. */
  lemma ParseLevelName(l: Level)
    ensures ParseLevel(LevelName(l)) == Some(l)
  {
  }

  /** `safe_print` prints a message of level `level` when the current
      verbosity is `current` exactly when the level ranks at least as high. */
  predicate Shown(level: Level, current: Level) {
    Rank(level) >= Rank(current)
  }

  /** The threshold: errors always print, `debug` prints everything, and a
      message shown at some verbosity is shown at every lower one. */
  lemma ShownThreshold(level: Level, current: Level, lower: Level)
    ensures Shown(Error, current)
    ensures Shown(level, Debug)
    ensures Shown(level, current) && Rank(lower) <= Rank(current) ==> Shown(level, lower)
    ensures Shown(level, level)
  {
  }
}
