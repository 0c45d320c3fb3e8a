/** The logger of src/blitz/common/debug/logger.py.

    The `LogLevel` ordering is pure. The module globals (`PREFIX`,
    `LOG_LEVEL`, `autobahn_instance`, `STATS_PUBLISH_TOPIC`) are the fields
    of one `Logger` object; what `log` prints is appended to `printed`, and
    each publish task it creates is appended to `published` as the topic and
    the message it carries. The Autobahn client is represented only by
    whether one is set. */
module DebugLogger {
  import opened Wrappers

  datatype LogLevel = DEBUG | INFO | WARNING | ERROR

  /** `get_importance`. */
  function Importance(l: LogLevel): nat
  {
    match l
    case DEBUG => 0
    case INFO => 1
    case WARNING => 2
    case ERROR => 3
  }

  /** `__lt__` and `__le__`: comparison of importances. */
  predicate Lt(a: LogLevel, b: LogLevel)
  {
    Importance(a) < Importance(b)
  }

  predicate Le(a: LogLevel, b: LogLevel)
  {
    Importance(a) <= Importance(b)
  }

  /** `<=` is a total order on the four levels, with DEBUG least and ERROR
      greatest, and `<` is its strict part. */
  lemma LevelOrder(a: LogLevel, b: LogLevel, c: LogLevel)
    ensures Le(a, a)
    ensures Le(a, b) && Le(b, a) ==> a == b
    ensures Le(a, b) && Le(b, c) ==> Le(a, c)
    ensures Le(a, b) || Le(b, a)
    ensures Lt(a, b) <==> Le(a, b) && a != b
    ensures Le(DEBUG, a) && Le(a, ERROR)
  {
  }

  /** The six logging calls. */
  datatype Call = Message | Error | Warning | Info | Debug | Success

  datatype Color = RESET | RED | YELLOW | CYAN | BLUE | GREEN

  /** The level each call compares the threshold against, and its colour. */
  function GateLevel(c: Call): LogLevel
  {
    match c
    case Message => INFO
    case Error => ERROR
    case Warning => WARNING
    case Info => INFO
    case Debug => DEBUG
    case Success => INFO
  }

  function ColorOf(c: Call): Color
  {
    match c
    case Message => RESET
    case Error => RED
    case Warning => YELLOW
    case Info => CYAN
    case Debug => BLUE
    case Success => GREEN
  }

  /** A call logs when `LOG_LEVEL <= ` its gate level. */
  predicate Shows(threshold: LogLevel, c: Call)
  {
    Le(threshold, GateLevel(c))
  }

  /** `error` logs under every threshold, `debug` only at DEBUG, `message`,
      `info` and `success` at DEBUG or INFO, `warning` at any threshold but
      ERROR. */
  lemma Gates(threshold: LogLevel)
    ensures Shows(threshold, Error)
    ensures Shows(threshold, Debug) <==> threshold == DEBUG
    ensures Shows(threshold, Message) <==> threshold == DEBUG || threshold == INFO
    ensures Shows(threshold, Info) <==> threshold == DEBUG || threshold == INFO
    ensures Shows(threshold, Success) <==> threshold == DEBUG || threshold == INFO
    ensures Shows(threshold, Warning) <==> threshold != ERROR
  {
  }

  /** Raising the threshold never makes a call log that did not. */
  lemma GatesMonotone(low: LogLevel, high: LogLevel, c: Call)
    requires Le(low, high)
    ensures Shows(high, c) ==> Shows(low, c)
  {
  }

  /** The `LogMessage` a log line carries: prefix, message and colour. */
  datatype Line = Line(prefix: string, message: string, color: Color)

  datatype InitError = ValueError

  /** `asyncio.create_task` outside a running event loop. */
  datatype LogError = RuntimeError

  class Logger {
    var prefix: string
    var logLevel: LogLevel
    var hasAutobahn: bool
    var statsPublishTopic: string
    var printed: seq<Line>
    var published: seq<(string, Line)>

    /** The module's initial globals. */
    constructor()
      ensures prefix == "" && logLevel == DEBUG && !hasAutobahn && statsPublishTopic == ""
      ensures printed == [] && published == []
    {
      prefix := "";
      logLevel := DEBUG;
      hasAutobahn := false;
      statsPublishTopic := "";
      printed := [];
      published := [];
    }

    /** `init_logging`: the instance, prefix and level are set first; with an
        Autobahn instance a non-empty topic is then required (ValueError
        otherwise, the other globals already set), and it becomes the
        publish topic. */
    method InitLogging(newPrefix: string, level: LogLevel, systemPubTopic: Option<string>, autobahn: bool)
      returns (r: Result<(), InitError>)
      modifies this
      ensures prefix == newPrefix && logLevel == level && hasAutobahn == autobahn
      ensures r.Err? <==> autobahn && (systemPubTopic.None? || systemPubTopic.value == "")
      ensures statsPublishTopic == if autobahn && r.Ok? then systemPubTopic.value else old(statsPublishTopic)
      ensures printed == old(printed) && published == old(published)
    {
      hasAutobahn := autobahn;
      prefix := newPrefix;
      logLevel := level;
      r := Ok(());
      if hasAutobahn {
        if systemPubTopic.Some? && systemPubTopic.value != "" {
          statsPublishTopic := systemPubTopic.value;
        } else {
          r := Err(ValueError);
        }
      }
    }

    /** `set_log_level`: only the threshold changes. */
    method SetLogLevel(level: LogLevel)
      modifies this
      ensures logLevel == level
      ensures prefix == old(prefix) && hasAutobahn == old(hasAutobahn) && statsPublishTopic == old(statsPublishTopic)
      ensures printed == old(printed) && published == old(published)
    {
      logLevel := level;
    }

    /** `message`, `error`, `warning`, `info`, `debug` and `success`: when the
        gate passes, `log` prints the line and, with an Autobahn instance,
        schedules its publication on the stats topic; otherwise nothing
        happens. `loopRunning` says whether an asyncio event loop is running
        in the calling thread: with an Autobahn instance and none running,
        `create_task` raises RuntimeError before anything is printed. */
    method Log(c: Call, message: string, loopRunning: bool) returns (r: Result<(), LogError>)
      modifies this
      ensures r.Err? <==> Shows(logLevel, c) && hasAutobahn && !loopRunning
      ensures var line := Line(prefix, message, ColorOf(c));
        printed == old(printed) + (if Shows(logLevel, c) && r.Ok? then [line] else [])
        && published == old(published) + (if Shows(logLevel, c) && hasAutobahn && r.Ok? then [(statsPublishTopic, line)] else [])
      ensures prefix == old(prefix) && logLevel == old(logLevel) && hasAutobahn == old(hasAutobahn)
      ensures statsPublishTopic == old(statsPublishTopic)
    {
      r := Ok(());
      if Le(logLevel, GateLevel(c)) {
        var line := Line(prefix, message, ColorOf(c));
        if hasAutobahn {
          if !loopRunning {
            return Err(RuntimeError);
          }
          published := published + [(statsPublishTopic, line)];
        }
        printed := printed + [line];
      }
    }
  }
}
