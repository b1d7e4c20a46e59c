/** mapLogLevel (src/console.ts): the console sink a level is routed to. */
module Dispatch {
  import opened Wrappers
  import opened Levels
  import Format

  /** console.error, console.warn, console.info, console.debug, console.log. */
  datatype Sink = Error | Warn | Info | Debug | Log

  /** The seven levels the switch names. */
  predicate Known(level: Level)
  {
    level in [SEVERE, WARNING, INFO, CONFIG, FINE, FINER, FINEST]
  }

  /** The message the default branch passes to console.warn. */
  function UnknownLevelWarning(level: Level): string
  {
    "Unknown log level for FramJetLogger: " + level.name + " with level: " + Format.Decimal(level.value)
  }

  /** mapLogLevel: the sink for a level, and the one warning the default
      branch emits through console.warn before falling back to console.log
      (None when no warning is emitted). */
  function MapLogLevel(level: Level): (r: (Sink, Option<string>))
    ensures r.1.Some? <==> !Known(level)
    ensures r.1.Some? ==> r.0 == Log && r.1.value == UnknownLevelWarning(level)
    ensures Known(level) ==> r.0 != Log
  {
    if level == SEVERE then (Error, None)
    else if level == WARNING then (Warn, None)
    else if level == INFO then (Info, None)
    else if level == CONFIG then (Debug, None)
    else if level == FINE then (Debug, None)
    else if level == FINER then (Debug, None)
    else if level == FINEST then (Debug, None)
    else (Log, Some(UnknownLevelWarning(level)))
  }

  /** SEVERE, WARNING and INFO have sinks of their own. */
  lemma SevereWarningInfoSinks()
    ensures MapLogLevel(SEVERE) == (Error, None)
    ensures MapLogLevel(WARNING) == (Warn, None)
    ensures MapLogLevel(INFO) == (Info, None)
  {
  }

  /** Exactly the four levels below INFO and above ALL share the debug sink. */
  lemma DebugSinkLevels(level: Level)
    requires level in Values
    ensures MapLogLevel(level).0 == Debug <==> level.value < INFO.value && level != ALL
  {
  }

  /** Both sentinels reach the default branch: a logger at ALL (atTrace) or
      at OFF logs through console.log after one warning. */
  lemma SentinelsFallBack()
    ensures MapLogLevel(OFF) == (Log, Some(UnknownLevelWarning(OFF)))
    ensures MapLogLevel(ALL) == (Log, Some(UnknownLevelWarning(ALL)))
  {
    assert !Known(OFF) && !Known(ALL);
  }

  /** How severe a sink is: error > warn > info > debug. */
  function SinkRank(s: Sink): nat
  {
    match s case Error => 4 case Warn => 3 case Info => 2 case Debug => 1 case Log => 0
  }

  /** Among the known levels the routing follows the rank order: a more
      severe level never goes to a less severe sink. */
  lemma RoutingFollowsRank(a: Level, b: Level)
    requires Known(a) && Known(b)
    requires a.value >= b.value
    ensures SinkRank(MapLogLevel(a).0) >= SinkRank(MapLogLevel(b).0)
  {
  }
}
