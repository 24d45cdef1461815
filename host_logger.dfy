/**
 * The extension host's logger: an output channel that exists only after
 * `initLogger`, a mutable minimum level, and the line format
 * `[<timestamp>] [<LEVEL>] <message>< data>`.
 * The timestamp and the JSON text of the data are supplied by the caller,
 * since they come from the clock and from `JSON.stringify`.
 */
module HostLogger {
  import opened Wrappers
  import opened LogLevels

  /** ASCII upper-casing of one character; the level names are ASCII. */
  function UpperChar(c: char): (u: char)
    ensures 'a' <= c <= 'z' ==> 'A' <= u <= 'Z' && u as int == c as int - 32
    ensures !('a' <= c <= 'z') ==> u == c
  {
    if 'a' <= c <= 'z' then (c as int - 32) as char else c
  }

  /** `toUpperCase`, restricted to ASCII. */
  function ToUpper(s: string): (r: string)
    ensures |r| == |s|
    ensures forall i :: 0 <= i < |s| ==> r[i] == UpperChar(s[i])
  {
    if s == [] then [] else [UpperChar(s[0])] + ToUpper(s[1..])
  }

  /** `padEnd(width)`: spaces appended until the string is `width` long; longer strings are unchanged. */
  function PadEnd(s: string, width: nat): (r: string)
    ensures |r| == if |s| < width then width else |s|
    ensures r[..|s|] == s
    ensures forall i :: |s| <= i < |r| ==> r[i] == ' '
    decreases width - |s|
  {
    if |s| < width then PadEnd(s + " ", width) else s
  }

  /** The level field of a formatted line: the upper-cased level name padded to width 5. */
  function LevelField(level: Level): string
  {
    PadEnd(ToUpper(Name(level)), 5)
  }

  /** Every level field is exactly five characters: the upper-cased name followed by padding. */
  lemma LevelFieldIsUpperNamePadded(level: Level)
    ensures |LevelField(level)| == 5
    ensures LevelField(level)[..|Name(level)|] == ToUpper(Name(level))
    ensures LevelField(level) == match level
      case Debug => "DEBUG"
      case Info => "INFO "
      case Warn => "WARN "
      case Error => "ERROR"
  {
    var f := LevelField(level);
    var u := ToUpper(Name(level));
    assert f[..|u|] == u;
    match level
    case Debug =>
      assert u == "DEBUG";
    case Info =>
      assert u == "INFO";
      assert f == u + [f[4]];
    case Warn =>
      assert u == "WARN";
      assert f == u + [f[4]];
    case Error =>
      assert u == "ERROR";
  }

  /** The data suffix: a space and the JSON text when data was given, nothing otherwise. */
  function DataSuffix(dataJson: Option<string>): (r: string)
    ensures dataJson.None? <==> r == ""
    ensures dataJson.Some? ==> r[0] == ' ' && r[1..] == dataJson.value
  {
    match dataJson
    case None => ""
    case Some(json) => " " + json
  }

  /** Where each part of a four-part concatenation lies. */
  lemma ConcatParts(a: string, b: string, c: string, d: string)
    ensures var s := a + b + c + d;
      && |s| == |a| + |b| + |c| + |d|
      && s[..|a|] == a
      && s[|a|..|a| + |b|] == b
      && s[|a| + |b|..|a| + |b| + |c|] == c
      && s[|a| + |b| + |c|..] == d
  {
    var s := a + b + c + d;
    assert s[..|a|] == a by {
      forall i | 0 <= i < |a| ensures s[i] == a[i] { }
    }
    assert s[|a|..|a| + |b|] == b by {
      forall i | 0 <= i < |b| ensures s[|a| + i] == b[i] { }
    }
    assert s[|a| + |b|..|a| + |b| + |c|] == c by {
      forall i | 0 <= i < |c| ensures s[|a| + |b| + i] == c[i] { }
    }
    assert s[|a| + |b| + |c|..] == d by {
      forall i | 0 <= i < |d| ensures s[|a| + |b| + |c| + i] == d[i] { }
    }
  }

  /** `formatMessage`: `[timestamp] [LEVEL] message` followed by the data suffix. */
  function FormatMessage(timestamp: string, level: Level, message: string, dataJson: Option<string>): (line: string)
    ensures |line| == |timestamp| + 11 + |message| + |DataSuffix(dataJson)|
    ensures line[..|timestamp| + 4] == "[" + timestamp + "] ["
    ensures line[|timestamp| + 4 .. |timestamp| + 9] == LevelField(level)
    ensures line[|timestamp| + 9 .. |timestamp| + 11 + |message|] == "] " + message
    ensures line[|timestamp| + 11 + |message| ..] == DataSuffix(dataJson)
  {
    LevelFieldIsUpperNamePadded(level);
    var head, field, body, tail := "[" + timestamp + "] [", LevelField(level), "] " + message, DataSuffix(dataJson);
    ConcatParts(head, field, body, tail);
    head + field + body + tail
  }

  /** A VS Code output channel: its name and the lines appended to it. */
  datatype Channel = Channel(name: string, lines: seq<string>)

  /** The module-level state of `src/utils/logger.ts`. */
  class Logger {
    var channel: Option<Channel>
    var currentLevel: Level

    /** The state at module load: no channel, level `debug`. */
    constructor ()
      ensures channel == None && currentLevel == Debug
    {
      channel := None;
      currentLevel := Debug;
    }

    predicate ShouldLog(level: Level): (b: bool)
      reads this
      ensures level == currentLevel || level == Error || currentLevel == Debug ==> b
      ensures level == Debug && currentLevel != Debug ==> !b
    {
      Passes(level, currentLevel)
    }

    /** `log.debug` / `log.info` / `log.warn` / `log.error`: append one formatted line, only when the level passes and the channel exists. */
    method Log(level: Level, timestamp: string, message: string, dataJson: Option<string>)
      modifies this`channel
      ensures old(channel).None? || !ShouldLog(level) ==> channel == old(channel)
      ensures old(channel).Some? && ShouldLog(level) ==>
        channel == Some(old(channel).value.(lines := old(channel).value.lines + [FormatMessage(timestamp, level, message, dataJson)]))
    {
      if ShouldLog(level) && channel.Some? {
        channel := Some(channel.value.(lines := channel.value.lines + [FormatMessage(timestamp, level, message, dataJson)]));
      }
    }

    /** `initLogger`: create a fresh channel with the given name and log `Logger initialized` at `info`. */
    method InitLogger(name: string, timestamp: string)
      modifies this`channel
      ensures currentLevel == old(currentLevel)
      ensures channel == Some(Channel(name,
        if Passes(Info, currentLevel) then [FormatMessage(timestamp, Info, "Logger initialized", None)] else []))
    {
      channel := Some(Channel(name, []));
      Log(Info, timestamp, "Logger initialized", None);
      assert [] + [FormatMessage(timestamp, Info, "Logger initialized", None)] == [FormatMessage(timestamp, Info, "Logger initialized", None)];
    }

    /** `setLogLevel`: replace the threshold and nothing else. */
    method SetLogLevel(level: Level)
      modifies this`currentLevel
      ensures currentLevel == level
    {
      currentLevel := level;
    }
  }
}
