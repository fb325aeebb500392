/**
 * The level gate and line prefix of `internal/logging/logging.go`. Message
 * formatting (`fmt.Sprintf`) is done by the caller; here a message is text.
 */
module Logging {
  import opened Wrappers

  const DEBUG := 0
  const INFO := 1
  const WARN := 2
  const ERROR := 3
  const FATAL := 4

  /** `levelText`, indexed by level. */
  const LevelText: seq<string> := ["DEBUG", "INFO", "WARN", "ERROR", "FATAL"]

  predicate IsLevel(level: int)
  {
    DEBUG <= level <= FATAL
  }

  /** The gate of `Debug`, `Info`, `Warn`, `Error` and `Fatal`: a message at
      `level` is written iff the configured `logLevel` is at most `level`. */
  predicate Emits(logLevel: int, level: int)
  {
    logLevel <= level
  }

  /** `logMessage`: the line printed to the log file and the console. */
  function Line(level: int, message: string): (r: string)
    requires IsLevel(level)
    ensures |r| == |LevelText[level]| + 3 + |message|
    ensures r[..|LevelText[level]| + 3] == "[" + LevelText[level] + "] "
    ensures r[|LevelText[level]| + 3..] == message
  {
    var prefix := "[" + LevelText[level] + "] ";
    assert (prefix + message)[..|prefix|] == prefix;
    prefix + message
  }

  /** `Debug`/`Info`/`Warn`/`Error`: the line written, if any. */
  function Log(logLevel: int, level: int, message: string): (r: Option<string>)
    requires IsLevel(level) && level != FATAL
    ensures r.Some? <==> logLevel <= level
    ensures r.Some? ==> r.value == Line(level, message)
  {
    if Emits(logLevel, level) then Some(Line(level, message)) else None
  }

  /** `Fatal`: the line written and whether the process exits with status 1. */
  function Fatal(logLevel: int, message: string): (r: (Option<string>, bool))
    ensures r.1 <==> logLevel <= FATAL
    ensures r.0.Some? <==> r.1
    ensures r.0.Some? ==> r.0.value == Line(FATAL, message)
  {
    if Emits(logLevel, FATAL) then (Some(Line(FATAL, message)), true) else (None, false)
  }

  /** Raising the severity never silences a message. */
  lemma EmitsMonotone(logLevel: int, level: int, higher: int)
    requires IsLevel(level) && IsLevel(higher) && level <= higher
    requires Emits(logLevel, level)
    ensures Emits(logLevel, higher)
  {
  }

  /** The level names are told apart by their first letter, so a written
      line determines both its level and its message. */
  lemma {:induction false} LineDeterminesLevel(l1: int, m1: string, l2: int, m2: string)
    requires IsLevel(l1) && IsLevel(l2)
    requires Line(l1, m1) == Line(l2, m2)
    ensures l1 == l2 && m1 == m2
  {
    assert Line(l1, m1)[1] == LevelText[l1][0];
    assert Line(l2, m2)[1] == LevelText[l2][0];
    assert l1 == l2;
    var p := |"[" + LevelText[l1] + "] "|;
    assert Line(l1, m1)[p..] == m1;
    assert Line(l2, m2)[p..] == m2;
  }
}
