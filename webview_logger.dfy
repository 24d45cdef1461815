/**
 * The webview's logger: a mutable minimum level and console output whose
 * first argument always carries the `[Nota]` prefix.
 */
module WebviewLogger {
  import opened Wrappers
  import opened LogLevels

  const Prefix: string := "[Nota]"

  /**
   * The optional `data` argument. `JSON.stringify` and `String` are outside
   * the model: a structured value carries the text each would give, with
   * `json == None` when serialisation throws.
   */
  datatype LogData = Undefined | Text(s: string) | Structured(json: Option<string>, fallback: string)

  /** `formatData`: empty for undefined, the string itself for a string, otherwise the JSON text or, failing that, `String(data)`. */
  function FormatData(data: LogData): (r: string)
    ensures data.Undefined? ==> r == ""
    ensures data.Text? ==> r == data.s
    ensures data.Structured? && data.json.Some? ==> r == data.json.value
    ensures data.Structured? && data.json.None? ==> r == data.fallback
  {
    match data
    case Undefined => ""
    case Text(s) => s
    case Structured(json, fallback) =>
      match json
      case Some(j) => j
      case None => fallback
  }

  /** One `console.debug/info/warn/error` call: the method used and its two arguments. */
  datatype ConsoleCall = ConsoleCall(level: Level, text: string, detail: string)

  /** The call a logging method makes for `message` and `data`. */
  function Entry(level: Level, message: string, data: LogData): (e: ConsoleCall)
    ensures e.level == level
    ensures |e.text| == |Prefix| + 1 + |message|
    ensures e.text[..|Prefix| + 1] == "[Nota] " && e.text[|Prefix| + 1..] == message
    ensures data.Undefined? ==> e.detail == ""
    ensures data.Text? ==> e.detail == data.s
  {
    ConsoleCall(level, Prefix + " " + message, if data != Undefined then FormatData(data) else "")
  }

  /** Every call made so far carries the prefix. */
  ghost predicate AllPrefixed(calls: seq<ConsoleCall>)
  {
    forall i :: 0 <= i < |calls| ==> |calls[i].text| >= 7 && calls[i].text[..7] == "[Nota] "
  }

  /** The module-level state of `webview-ui/src/lib/logger.ts`, with the console as a list of calls. */
  class Logger {
    var currentLevel: Level
    var console: seq<ConsoleCall>

    ghost predicate Valid()
      reads this
    {
      AllPrefixed(console)
    }

    /** The state at module load: level `debug`, nothing logged. */
    constructor ()
      ensures Valid() && currentLevel == Debug && console == []
    {
      currentLevel := Debug;
      console := [];
    }

    predicate ShouldLog(level: Level): (b: bool)
      reads this
      ensures level == currentLevel || level == Error || currentLevel == Debug ==> b
      ensures level == Debug && currentLevel != Debug ==> !b
    {
      Passes(level, currentLevel)
    }

    /** `log.debug` / `log.info` / `log.warn` / `log.error`: one console call when the level passes, none otherwise. */
    method Log(level: Level, message: string, data: LogData)
      requires Valid()
      modifies this`console
      ensures Valid()
      ensures console == old(console) + (if ShouldLog(level) then [Entry(level, message, data)] else [])
    {
      if ShouldLog(level) {
        console := console + [Entry(level, message, data)];
      }
    }

    /** `setLogLevel`: replace the threshold and nothing else. */
    method SetLogLevel(level: Level)
      modifies this`currentLevel
      ensures currentLevel == level
    {
      currentLevel := level;
    }
  }
}
