/** Severity levels (log.go:21-31). A level is a plain Go `int`: smaller means
    more severe, and values outside the five named ones are representable. */
module Levels {

  type Level = int

  const LevelFatal: Level := 0
  const LevelError: Level := 1
  const LevelWarning: Level := 2
  const LevelInfo: Level := 3
  const LevelDebug: Level := 4

  /** The gate both revisions apply: a record at `lv` is dropped exactly when
      the threshold is numerically below `lv` (logger_entry.go:135, log.go:144). */
  predicate Emits(threshold: Level, lv: Level) {
    !(threshold < lv)
  }

  /** The five severity-specific entry points (`Fatal`, `Error`, ...). */
  datatype Severity = Fatal | Error | Warn | Info | Debug

  /** The level constant each entry point passes to the emission step. */
  function LevelOf(s: Severity): (lv: Level)
    ensures LevelFatal <= lv <= LevelDebug
    ensures (lv == LevelFatal) == s.Fatal?
  {
    match s
    case Fatal => LevelFatal
    case Error => LevelError
    case Warn => LevelWarning
    case Info => LevelInfo
    case Debug => LevelDebug
  }

  /** The named levels are strictly ordered by severity and distinct. */
  lemma LevelOrder()
    ensures LevelFatal < LevelError < LevelWarning < LevelInfo < LevelDebug
  {
  }

  /** A threshold that lets a level through lets every more severe level
      through, and a higher threshold lets through at least as much. */
  lemma GateMonotone(threshold: Level, threshold': Level, lv: Level, lv': Level)
    requires Emits(threshold, lv)
    requires lv' <= lv && threshold <= threshold'
    ensures Emits(threshold', lv')
  {
  }
}
