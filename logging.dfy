/**
 * The logger: a level table, one field holding the current level, and the gate every
 * message passes. Only the decision to emit is modelled, not the console output.
 *
 * JavaScript `undefined` is `None`. Comparing with `undefined` is false either way.
 */
module Logging {
  import opened Results

  /** `LEVELS`: there is no level 3. */
  function LevelOf(name: string): (r: Option<int>)
  {
    if name == "error" then Some(0)
    else if name == "warn" then Some(1)
    else if name == "info" then Some(2)
    else if name == "verbose" then Some(4)
    else if name == "debug" then Some(5)
    else None
  }

  /** The five names, their values, and nothing else in the table. */
  lemma LevelTable(name: string)
    ensures LevelOf("error") == Some(0) && LevelOf("warn") == Some(1) && LevelOf("info") == Some(2)
    ensures LevelOf("verbose") == Some(4) && LevelOf("debug") == Some(5)
    ensures LevelOf(name).Some? <==> name in {"error", "warn", "info", "verbose", "debug"}
    ensures forall n :: LevelOf(n) != Some(3)
  {
  }

  /** What the setter and `levelToInt` take: a level name, or any other value as it is. */
  datatype LevelArg = Name(name: string) | Number(n: int) | Undefined

  /** `levelToInt`: a name is looked up in the table; anything else is returned unchanged. */
  function LevelToInt(level: LevelArg): (r: Option<int>)
  {
    match level
    case Name(name) => LevelOf(name)
    case Number(n) => Some(n)
    case Undefined => None
  }

  /** `useLevel`: the current level is at least the asked one; false when either is undefined. */
  predicate Gate(current: Option<int>, level: LevelArg)
  {
    var asked := LevelToInt(level);
    current.Some? && asked.Some? && current.value >= asked.value
  }

  /** The five emitting methods and the level each asks for. */
  datatype Severity = Error | Warn | Info | Verbose | Debug

  function SeverityLevel(s: Severity): (r: int)
    ensures Some(r) == LevelOf(match s
      case Error => "error" case Warn => "warn" case Info => "info" case Verbose => "verbose" case Debug => "debug")
  {
    match s
    case Error => 0
    case Warn => 1
    case Info => 2
    case Verbose => 4
    case Debug => 5
  }

  /** Emission is monotone: whatever emits at one severity, every more severe message emits too. */
  lemma GateMonotone(current: Option<int>, s1: Severity, s2: Severity)
    requires SeverityLevel(s1) <= SeverityLevel(s2)
    ensures Gate(current, Number(SeverityLevel(s2))) ==> Gate(current, Number(SeverityLevel(s1)))
  {
  }

  /** With the level undefined (an unknown name was set) nothing is emitted. */
  lemma UndefinedLevelSilences(level: LevelArg)
    ensures !Gate(None, level)
  {
  }

  /** `validateLevel` as written: the table value is tested for truth, and 0 is false. */
  function ValidateLevelAsWritten(name: string): (r: bool)
    ensures r ==> LevelOf(name).Some?
  {
    LevelOf(name).Some? && LevelOf(name).value != 0
  }

  /** `validateLevel` as evidently meant: the name is in the table. */
  function ValidateLevel(name: string): (r: bool)
    ensures r <==> name in {"error", "warn", "info", "verbose", "debug"}
  {
    LevelOf(name).Some?
  }

  /** The two differ on exactly one name: "error", the most severe level, is rejected as written. */
  lemma ValidateLevelDiscrepancy(name: string)
    ensures !ValidateLevelAsWritten("error") && ValidateLevel("error")
    ensures name != "error" ==> ValidateLevelAsWritten(name) == ValidateLevel(name)
  {
  }

  /** `intToLeve`: not implemented, always throws. */
  function IntToLevel(level: int): (r: Result<string>)
    ensures r == Err(NotImplemented)
  {
    Err(NotImplemented)
  }

  class Logger {
    /** `_level`. */
    var level: Option<int>

    /**
     * The default argument "error" overrides the field's initial value, info; an argument
     * that is `undefined`, passed or left out, takes the default.
     */
    constructor (level: LevelArg)
      ensures this.level == LevelToInt(if level.Undefined? then Name("error") else level)
    {
      this.level := Some(2);
      new;
      SetLevel(if level.Undefined? then Name("error") else level);
    }

    /** The `level` setter: the same rule as `levelToInt`. */
    method SetLevel(value: LevelArg)
      modifies this
      ensures level == LevelToInt(value)
    {
      match value
      case Name(name) => level := LevelOf(name);
      case Number(n) => level := Some(n);
      case Undefined => level := None;
    }

    /** `error`, `warn`, `info`, `verbose` and `debug`: whether the message is written. */
    method Emit(severity: Severity) returns (emitted: bool)
      ensures emitted == Gate(level, Number(SeverityLevel(severity)))
    {
      emitted := level.Some? && level.value >= SeverityLevel(severity);
    }
  }

  /** A logger built without an argument writes errors and nothing else. */
  lemma DefaultLoggerWritesErrorsOnly(s: Severity)
    ensures Gate(LevelToInt(Name("error")), Number(SeverityLevel(s))) <==> s == Error
  {
  }
}
