/**
 * The console logger: every log call appends one line to the console text area
 * (when one is attached) and one entry to the history kept for export. The clock
 * is read by the caller: `time` is the instant formatted as HH:mm:ss and
 * `fullTime` the same instant as yyyy-MM-dd HH:mm:ss.
 */
module ConsoleLoggerServices {
  import opened Wrappers
  import opened JavaStrings
  import opened LogLevels

  /** The category the operation helpers log under. */
  const OperationCategory := "OPERATION"

  /** The width the level name is left-justified to on the console. */
  const NameWidth: nat := 8

  /** `" [" + CATEGORY + "] "` for a category with text, a single space otherwise. */
  function CategoryTag(category: Option<string>): (r: string)
    ensures r == " " <==> category.None? || IsBlank(category.value)
  {
    if category.Some? && !IsBlank(category.value) then " [" + Upper(category.value) + "] " else " "
  }

  /** The line shown on the console: time, icon, padded name, category tag, message. */
  function DisplayLine(level: LogLevel, category: Option<string>, message: string, time: string): string {
    "[" + time + "] " + level.Icon() + " " + PadRight(level.Name(), NameWidth) + CategoryTag(category) + message
  }

  /** The history entry: full time, name, the category verbatim (blank or not) unless null, message. */
  function HistoryEntry(level: LogLevel, category: Option<string>, message: string, fullTime: string): string {
    "[" + fullTime + "] " + level.Name() + (if category.Some? then " [" + category.value + "]" else "") + " " + message
  }

  /** `"─".repeat(80)`. */
  const Rule: string := seq(80, _ => '─')

  /**
   * On the console the message starts in one column for every level without a
   * category: the name is padded to eight chars, and every name fits.
   */
  lemma DisplayLineColumns(level: LogLevel, message: string, time: string)
    ensures var line := DisplayLine(level, None, message, time);
      var head := "[" + time + "] " + level.Icon() + " ";
      && |line| == |head| + NameWidth + 1 + |message|
      && line[..|head|] == head
      && line[|head|..|head| + NameWidth] == PadRight(level.Name(), NameWidth)
      && line[|line| - |message|..] == message
  {
    NamesFitWidth(level);
    var head := "[" + time + "] " + level.Icon() + " ";
    var line := DisplayLine(level, None, message, time);
    assert line == head + PadRight(level.Name(), NameWidth) + " " + message;
  }

  /** A history entry names its level: the char after the time tells the levels apart. */
  lemma HistoryEntryNamesLevel(a: LogLevel, ca: Option<string>, ma: string,
                               b: LogLevel, cb: Option<string>, mb: string, fullTime: string)
    requires HistoryEntry(a, ca, ma, fullTime) == HistoryEntry(b, cb, mb, fullTime)
    ensures a == b
  {
    var k := |fullTime| + 3;
    assert HistoryEntry(a, ca, ma, fullTime)[k] == a.Name()[0];
    assert HistoryEntry(b, cb, mb, fullTime)[k] == b.Name()[0];
  }

  /** A history entry of a known level, category and time gives its message back. */
  lemma HistoryEntryKeepsMessage(level: LogLevel, category: Option<string>, ma: string, mb: string, fullTime: string)
    requires HistoryEntry(level, category, ma, fullTime) == HistoryEntry(level, category, mb, fullTime)
    ensures ma == mb
  {
    var head := "[" + fullTime + "] " + level.Name() + (if category.Some? then " [" + category.value + "]" else "") + " ";
    assert HistoryEntry(level, category, ma, fullTime)[|head|..] == ma;
    assert HistoryEntry(level, category, mb, fullTime)[|head|..] == mb;
  }

  /** The operation helpers' lines carry the tag " [OPERATION] " on the console. */
  lemma OperationTag()
    ensures CategoryTag(Some(OperationCategory)) == " [OPERATION] "
  {
    var c := OperationCategory;
    assert !IsTrimmable(c[0]);
    forall i | 0 <= i < |c| ensures UpperChar(c[i]) == c[i] {
    }
    assert Upper(c) == c;
  }

  /** The text `Completed: X (took Nms)` of `completeOperation`. */
  function CompletedMessage(operation: string, duration: int): string {
    "Completed: " + operation + " (took " + IntToString(duration) + "ms)"
  }

  /**
   * `ConsoleLoggerService`: the attached console text area (None for null) and the
   * history. Console updates, queued to the UI thread in the source, happen at once.
   */
  class ConsoleLoggerService {
    var console: Option<string>
    var history: seq<string>

    constructor()
      ensures console == None && history == []
    {
      console := None;
      history := [];
    }

    /** `setConsoleArea`: the area later lines are appended to. */
    method SetConsoleArea(area: Option<string>)
      modifies this`console
      ensures console == area
    {
      console := area;
    }

    /** Appends `text` to the attached console, if any. */
    method Show(text: string)
      modifies this`console
      ensures console == if old(console).Some? then Some(old(console).value + text) else None
    {
      if console.Some? {
        console := Some(console.value + text);
      }
    }

    /** `log(level, category, message)`: one console line and exactly one history entry. */
    method Log(level: LogLevel, category: Option<string>, message: string, time: string, fullTime: string)
      modifies this`console, this`history
      ensures history == old(history) + [HistoryEntry(level, category, message, fullTime)]
      ensures console == if old(console).Some? then Some(old(console).value + DisplayLine(level, category, message, time) + "\n") else None
    {
      var formatted := "[" + time + "] ";
      formatted := formatted + level.Icon() + " ";
      formatted := formatted + PadRight(level.Name(), NameWidth);
      if category.Some? && !IsBlank(category.value) {
        formatted := formatted + " [" + Upper(category.value) + "] ";
      } else {
        formatted := formatted + " ";
      }
      formatted := formatted + message;
      assert formatted == DisplayLine(level, category, message, time);
      var entry := "[" + fullTime + "] " + level.Name() + (if category.Some? then " [" + category.value + "]" else "") + " " + message;
      Show(formatted + "\n");
      assert old(console).Some? ==> old(console).value + (formatted + "\n") == old(console).value + formatted + "\n";
      history := history + [entry];
    }

    /** `info(...)`; `category` is None for the one-argument overload. */
    method Info(category: Option<string>, message: string, time: string, fullTime: string)
      modifies this`console, this`history
      ensures history == old(history) + [HistoryEntry(LogLevel.Info, category, message, fullTime)]
      ensures console == if old(console).Some? then Some(old(console).value + DisplayLine(LogLevel.Info, category, message, time) + "\n") else None
    {
      Log(LogLevel.Info, category, message, time, fullTime);
    }

    method Success(category: Option<string>, message: string, time: string, fullTime: string)
      modifies this`console, this`history
      ensures history == old(history) + [HistoryEntry(LogLevel.Success, category, message, fullTime)]
      ensures console == if old(console).Some? then Some(old(console).value + DisplayLine(LogLevel.Success, category, message, time) + "\n") else None
    {
      Log(LogLevel.Success, category, message, time, fullTime);
    }

    method Warning(category: Option<string>, message: string, time: string, fullTime: string)
      modifies this`console, this`history
      ensures history == old(history) + [HistoryEntry(LogLevel.Warning, category, message, fullTime)]
      ensures console == if old(console).Some? then Some(old(console).value + DisplayLine(LogLevel.Warning, category, message, time) + "\n") else None
    {
      Log(LogLevel.Warning, category, message, time, fullTime);
    }

    method Error(category: Option<string>, message: string, time: string, fullTime: string)
      modifies this`console, this`history
      ensures history == old(history) + [HistoryEntry(LogLevel.Error, category, message, fullTime)]
      ensures console == if old(console).Some? then Some(old(console).value + DisplayLine(LogLevel.Error, category, message, time) + "\n") else None
    {
      Log(LogLevel.Error, category, message, time, fullTime);
    }

    method Debug(category: Option<string>, message: string, time: string, fullTime: string)
      modifies this`console, this`history
      ensures history == old(history) + [HistoryEntry(LogLevel.Debug, category, message, fullTime)]
      ensures console == if old(console).Some? then Some(old(console).value + DisplayLine(LogLevel.Debug, category, message, time) + "\n") else None
    {
      Log(LogLevel.Debug, category, message, time, fullTime);
    }

    method Progress(category: Option<string>, message: string, time: string, fullTime: string)
      modifies this`console, this`history
      ensures history == old(history) + [HistoryEntry(LogLevel.Progress, category, message, fullTime)]
      ensures console == if old(console).Some? then Some(old(console).value + DisplayLine(LogLevel.Progress, category, message, time) + "\n") else None
    {
      Log(LogLevel.Progress, category, message, time, fullTime);
    }

    /** `startOperation`: an INFO entry "Starting: X" under OPERATION. */
    method StartOperation(operation: string, time: string, fullTime: string)
      modifies this`console, this`history
      ensures history == old(history) + [HistoryEntry(LogLevel.Info, Some(OperationCategory), "Starting: " + operation, fullTime)]
      ensures console == if old(console).Some? then
        Some(old(console).value + DisplayLine(LogLevel.Info, Some(OperationCategory), "Starting: " + operation, time) + "\n") else None
    {
      Log(LogLevel.Info, Some(OperationCategory), "Starting: " + operation, time, fullTime);
    }

    /** `completeOperation`: a SUCCESS entry "Completed: X (took Nms)" under OPERATION. */
    method CompleteOperation(operation: string, duration: int, time: string, fullTime: string)
      modifies this`console, this`history
      ensures history == old(history) + [HistoryEntry(LogLevel.Success, Some(OperationCategory), CompletedMessage(operation, duration), fullTime)]
      ensures console == if old(console).Some? then
        Some(old(console).value + DisplayLine(LogLevel.Success, Some(OperationCategory), CompletedMessage(operation, duration), time) + "\n") else None
    {
      Log(LogLevel.Success, Some(OperationCategory), "Completed: " + operation + " (took " + IntToString(duration) + "ms)", time, fullTime);
    }

    /** `failOperation`: an ERROR entry "Failed: X - reason" under OPERATION. */
    method FailOperation(operation: string, reason: string, time: string, fullTime: string)
      modifies this`console, this`history
      ensures history == old(history) + [HistoryEntry(LogLevel.Error, Some(OperationCategory), "Failed: " + operation + " - " + reason, fullTime)]
      ensures console == if old(console).Some? then
        Some(old(console).value + DisplayLine(LogLevel.Error, Some(OperationCategory), "Failed: " + operation + " - " + reason, time) + "\n") else None
    {
      Log(LogLevel.Error, Some(OperationCategory), "Failed: " + operation + " - " + reason, time, fullTime);
    }

    /** `clear`: empties the console and the history. */
    method Clear()
      modifies this`console, this`history
      ensures history == []
      ensures console == if old(console).Some? then Some("") else None
    {
      if console.Some? {
        console := Some("");
      }
      history := [];
    }

    /** `getLogHistory`: the entries so far, as a value later calls cannot change. */
    method GetLogHistory() returns (entries: seq<string>)
      ensures entries == history
    {
      entries := history;
    }

    /** `separator`: a rule of 80 box-drawing chars on the console; the history is untouched. */
    method Separator()
      modifies this`console
      ensures console == if old(console).Some? then Some(old(console).value + Rule + "\n") else None
    {
      Show(Rule + "\n");
      assert old(console).Some? ==> old(console).value + (Rule + "\n") == old(console).value + Rule + "\n";
    }

    /** `section`: the title upper-cased between two rules; the history is untouched. */
    method Section(title: string)
      modifies this`console
      ensures console == if old(console).Some? then
        Some(old(console).value + "\n" + Rule + "\n" + "  " + Upper(title) + "\n" + Rule + "\n") else None
    {
      Show("\n" + Rule + "\n");
      Show("  " + Upper(title) + "\n");
      Show(Rule + "\n");
      if old(console).Some? {
        var c := old(console).value;
        assert c + ("\n" + Rule + "\n") + ("  " + Upper(title) + "\n") + (Rule + "\n")
            == c + "\n" + Rule + "\n" + "  " + Upper(title) + "\n" + Rule + "\n";
      }
    }
  }

  /** Each log call adds one entry; clearing drops them all; separators and sections add none. */
  method HistoryScenario(time: string, fullTime: string) returns (before: seq<string>, after: seq<string>)
    ensures |before| == 2 && before[1] == HistoryEntry(LogLevel.Error, None, "b", fullTime)
    ensures after == [HistoryEntry(LogLevel.Info, Some(OperationCategory), "Starting: c", fullTime)]
  {
    var logger := new ConsoleLoggerService();
    logger.Info(None, "a", time, fullTime);
    logger.Error(None, "b", time, fullTime);
    logger.Separator();
    logger.Section("s");
    assert |logger.history| == 2;
    before := logger.GetLogHistory();
    logger.Clear();
    logger.StartOperation("c", time, fullTime);
    after := logger.GetLogHistory();
    assert "Starting: " + "c" == "Starting: c";
  }
}
