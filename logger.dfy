/**
 * The logger's level filter: seven ranked levels, a global level, per-area
 * overrides, and the gates in front of writing a message and running a
 * closure. Formatting and writing are reduced to appending a record to the
 * `written` trace; a closure run is counted.
 */
module Logging {
  import Wrappers

  /** The log levels, ordered by their raw values; `None` switches every message level off. */
  datatype LogLevel = Trace | Debug | Info | Warn | Error | Fatal | None

  /** The integer raw value of each level. */
  function RawValue(level: LogLevel): (r: int)
    ensures level == None <==> r == 0xffff
    ensures 1 <= r <= 0xffff
  {
    match level
    case Trace => 1
    case Debug => 2
    case Info => 4
    case Warn => 8
    case Error => 16
    case Fatal => 32
    case None => 0xffff
  }

  /** The printed name of each level: its name in upper case, `NONE` for `None`. */
  function Description(level: LogLevel): (r: string)
    ensures 4 <= |r| <= 5
    ensures forall i :: 0 <= i < |r| ==> 'A' <= r[i] <= 'Z'
    ensures r == "NONE" <==> level == None
  {
    match level
    case Trace => "TRACE"
    case Debug => "DEBUG"
    case Info => "INFO"
    case Warn => "WARN"
    case Error => "ERROR"
    case Fatal => "FATAL"
    case None => "NONE"
  }

  /** Distinct levels have distinct raw values, so the raw value orders the levels strictly. */
  lemma RawValueInjective(a: LogLevel, b: LogLevel)
    requires a != b
    ensures RawValue(a) != RawValue(b)
    ensures RawValue(a) < RawValue(b) || RawValue(b) < RawValue(a)
  {
    match a
    case Trace =>
    case Debug =>
    case Info =>
    case Warn =>
    case Error =>
    case Fatal =>
    case None =>
  }

  /** Distinct levels print distinct names. */
  lemma DescriptionInjective(a: LogLevel, b: LogLevel)
    requires a != b
    ensures Description(a) != Description(b)
  {
    match a
    case Trace => assert Description(a)[0] == 'T';
    case Debug => assert Description(a)[0] == 'D';
    case Info => assert Description(a)[0] == 'I';
    case Warn => assert Description(a)[0] == 'W';
    case Error => assert Description(a)[0] == 'E';
    case Fatal => assert Description(a)[0] == 'F';
    case None => assert Description(a)[0] == 'N';
  }

  /** A message at `level` passes a filter set to `configured` when its raw value is at least the filter's. */
  predicate Enabled(configured: LogLevel, level: LogLevel): (r: bool)
    ensures configured == level ==> r
    ensures configured == Trace ==> r
    ensures level == None ==> r
  {
    RawValue(configured) <= RawValue(level)
  }

  /** Enabling is monotone: a level above an enabled one is enabled too. */
  lemma EnabledMonotone(configured: LogLevel, level: LogLevel, higher: LogLevel)
    requires Enabled(configured, level) && RawValue(level) <= RawValue(higher)
    ensures Enabled(configured, higher)
  {
  }

  /**
   * A filter set to `None` lets no message from `Trace` to `Fatal` pass; a
   * message logged at `None` itself still passes.
   */
  lemma NoneDisablesAllLevels(level: LogLevel)
    ensures Enabled(None, level) <==> level == None
  {
  }

  /** With the default `Info` filter, `Trace` and `Debug` are off and `Info` to `Fatal` are on. */
  lemma DefaultFilter(level: LogLevel)
    ensures Enabled(Info, level) <==> level != Trace && level != Debug
  {
  }

  /**
   * The filter a check applies: the override of the area when an area is
   * given and has one, the global level otherwise.
   */
  function EffectiveLevel(global: LogLevel, overrides: map<string, LogLevel>, area: Wrappers.Option<string>): (r: LogLevel)
    ensures area.Some? && area.value in overrides ==> r == overrides[area.value]
    ensures area.None? || area.value !in overrides ==> r == global
  {
    if area.Some? && area.value in overrides then overrides[area.value] else global
  }

  /** Setting the override of one area changes the filter of that area alone. */
  lemma OverrideIsLocal(global: LogLevel, overrides: map<string, LogLevel>, a: string, level: LogLevel,
                        area: Wrappers.Option<string>)
    ensures EffectiveLevel(global, overrides[a := level], Wrappers.Some(a)) == level
    ensures area != Wrappers.Some(a) ==>
              EffectiveLevel(global, overrides[a := level], area) == EffectiveLevel(global, overrides, area)
  {
  }

  /** One written message: its level, area and text. */
  datatype LogRecord = LogRecord(level: LogLevel, area: string, message: string)

  class Logger {
    /** The global filter. */
    var logLevel: LogLevel
    /** The per-area filters. */
    var areaLogLevel: map<string, LogLevel>
    /** Every message written so far, in order. */
    var written: seq<LogRecord>

    constructor ()
      ensures logLevel == Info && areaLogLevel == map[] && written == []
    {
      logLevel := Info;
      areaLogLevel := map[];
      written := [];
    }

    /** Sets the filter of `area`. */
    method SetAreaLogLevel(area: string, level: LogLevel)
      modifies this`areaLogLevel
      ensures areaLogLevel == old(areaLogLevel)[area := level]
      ensures forall l :: IsLogLevelEnabled(l, Wrappers.Some(area)) == Enabled(level, l)
    {
      areaLogLevel := areaLogLevel[area := level];
    }

    /** Whether a message at `level` for `area` passes the filter that applies to it. */
    function IsLogLevelEnabled(level: LogLevel, area: Wrappers.Option<string> := Wrappers.None): (r: bool)
      reads this`logLevel, this`areaLogLevel
      ensures r <==> Enabled(EffectiveLevel(logLevel, areaLogLevel, area), level)
    {
      var configured :=
        if area.Some? && area.value in areaLogLevel then areaLogLevel[area.value] else logLevel;
      RawValue(configured) <= RawValue(level)
    }

    /**
     * Writes `message` when its level passes the global filter. The area is
     * recorded with the message but not handed to the filter, so area
     * overrides do not affect what is written.
     */
    method Log(level: LogLevel, area: string, message: string)
      modifies this`written
      ensures IsLogLevelEnabled(level) ==> written == old(written) + [LogRecord(level, area, message)]
      ensures !IsLogLevelEnabled(level) ==> written == old(written)
    {
      if IsLogLevelEnabled(level) {
        written := written + [LogRecord(level, area, message)];
      }
    }

    /** Runs the closure once when `level` passes the global filter, and never otherwise. */
    method Execute(level: LogLevel) returns (runs: nat)
      ensures runs == 1 <==> Enabled(logLevel, level)
      ensures runs == 0 <==> !Enabled(logLevel, level)
    {
      runs := 0;
      if IsLogLevelEnabled(level) {
        runs := runs + 1;
      }
    }

    /** `Execute` at `Trace`. */
    method TraceExec() returns (runs: nat)
      ensures runs == 1 <==> Enabled(logLevel, Trace)
      ensures runs <= 1
    {
      runs := Execute(Trace);
    }

    /** `Execute` at `Debug`. */
    method DebugExec() returns (runs: nat)
      ensures runs == 1 <==> Enabled(logLevel, Debug)
      ensures runs <= 1
    {
      runs := Execute(Debug);
    }

    /** `Execute` at `Info`. */
    method InfoExec() returns (runs: nat)
      ensures runs == 1 <==> Enabled(logLevel, Info)
      ensures runs <= 1
    {
      runs := Execute(Info);
    }

    /** `Execute` at `Warn`. */
    method WarnExec() returns (runs: nat)
      ensures runs == 1 <==> Enabled(logLevel, Warn)
      ensures runs <= 1
    {
      runs := Execute(Warn);
    }

    /** `Execute` at `Error`. */
    method ErrorExec() returns (runs: nat)
      ensures runs == 1 <==> Enabled(logLevel, Error)
      ensures runs <= 1
    {
      runs := Execute(Error);
    }

    /** `Execute` at `Fatal`. */
    method FatalExec() returns (runs: nat)
      ensures runs == 1 <==> Enabled(logLevel, Fatal)
      ensures runs <= 1
    {
      runs := Execute(Fatal);
    }
  }

  /**
   * An example run: with the default filter and the area "net" set to
   * `Trace`, a `Trace` check for "net" passes, yet a `Trace` message logged
   * for "net" is not written, because the write gate consults the global
   * filter only; a `Warn` message is written.
   */
  method AreaOverrideRun() returns (checked: bool, records: seq<LogRecord>)
    ensures checked
    ensures records == [LogRecord(Warn, "net", "up")]
  {
    var logger := new Logger();
    logger.SetAreaLogLevel("net", Trace);
    checked := logger.IsLogLevelEnabled(Trace, Wrappers.Some("net"));
    logger.Log(Trace, "net", "probe");
    logger.Log(Warn, "net", "up");
    records := logger.written;
  }
}
