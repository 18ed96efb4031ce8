/** The six console log levels, each with its name, icon and colour. */
module LogLevels {
  import Wrappers

  datatype LogLevel = Info | Success | Warning | Error | Debug | Progress
  {
    /** `getName`, which is also the Java constant's identifier. */
    function Name(): string {
      match this
      case Info => "INFO"
      case Success => "SUCCESS"
      case Warning => "WARNING"
      case Error => "ERROR"
      case Debug => "DEBUG"
      case Progress => "PROGRESS"
    }

    /** `getIcon`: an emoji, with a variation selector where the source has one. */
    function Icon(): string {
      match this
      case Info => "\U{2139}\U{FE0F}"
      case Success => "\U{2705}"
      case Warning => "\U{26A0}\U{FE0F}"
      case Error => "\U{274C}"
      case Debug => "\U{1F50D}"
      case Progress => "\U{23F3}"
    }

    /** `getColor`: a CSS hex colour. */
    function Color(): string {
      match this
      case Info => "#2196F3"
      case Success => "#4CAF50"
      case Warning => "#FF9800"
      case Error => "#F44336"
      case Debug => "#9C27B0"
      case Progress => "#607D8B"
    }

    /** `toString` gives the name. */
    function ToString(): (r: string)
      ensures r == Name()
    {
      Name()
    }
  }

  /** `values()`: the declaration order. */
  const Levels: seq<LogLevel> := [Info, Success, Warning, Error, Debug, Progress]

  /** `LogLevel.valueOf`: the constant whose identifier is `identifier`, or none (Java throws). */
  function ValueOf(identifier: string): (r: Wrappers.Option<LogLevel>)
    ensures r.Some? ==> r.value in Levels && r.value.Name() == identifier
    ensures r.None? <==> forall l: LogLevel :: l.Name() != identifier
  {
    if identifier == "INFO" then Wrappers.Some(Info)
    else if identifier == "SUCCESS" then Wrappers.Some(Success)
    else if identifier == "WARNING" then Wrappers.Some(Warning)
    else if identifier == "ERROR" then Wrappers.Some(Error)
    else if identifier == "DEBUG" then Wrappers.Some(Debug)
    else if identifier == "PROGRESS" then Wrappers.Some(Progress)
    else Wrappers.None
  }

  /** Exactly six levels, each listed once, in declaration order. */
  lemma LevelsAreEnumerated(l: LogLevel)
    ensures |Levels| == 6 && l in Levels
    ensures forall i, j :: 0 <= i < j < |Levels| ==> Levels[i] != Levels[j]
  {
  }

  /** Each level's name is its own identifier: `valueOf(l.getName()) == l`. */
  lemma NameIsIdentifier(l: LogLevel)
    ensures ValueOf(l.Name()) == Wrappers.Some(l)
  {
  }

  /** Names, icons and colours are pairwise distinct across levels. */
  lemma LevelAttributesDistinct(a: LogLevel, b: LogLevel)
    requires a != b
    ensures a.Name() != b.Name() && a.Icon() != b.Icon() && a.Color() != b.Color()
  {
  }

  /** The longest name is eight chars, the width the console pads names to. */
  lemma NamesFitWidth(l: LogLevel)
    ensures 1 <= |l.Name()| <= 8
  {
  }
}
