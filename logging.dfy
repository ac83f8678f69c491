/** internal/logging/logger.go: the levelled logger. A level name from the
    configuration picks a threshold; a message is written, tagged with its
    level, exactly when its level is at least the threshold. */
module Logging {
  import opened Common
  import opened Text
  import opened World
  import opened Settings

  const LevelDebug: nat := 0
  const LevelInfo: nat := 1
  const LevelWarn: nat := 2
  const LevelError: nat := 3

  /** The accepted spellings, after trimming and lower-casing. */
  predicate KnownLevelName(name: string) {
    name == "debug" || name == "info" || name == "" || name == "warn" || name == "warning" || name == "error"
  }

  /** `parseLevel`: the threshold a configured level name selects. */
  function ParseLevel(value: string): (r: Result<nat>)
    ensures r.Success? <==> KnownLevelName(ToLower(TrimSpace(value)))
    ensures r.Success? ==> r.value <= LevelError
    ensures r.Failure? ==> r.msg == "invalid log level: " + value
  {
    var name := ToLower(TrimSpace(value));
    if name == "debug" then Success(LevelDebug)
    else if name == "info" || name == "" then Success(LevelInfo)
    else if name == "warn" || name == "warning" then Success(LevelWarn)
    else if name == "error" then Success(LevelError)
    else Failure("invalid log level: " + value)
  }

  /** The level each accepted name selects: an empty name means info, and
      "warning" is a synonym of "warn". */
  lemma ParseLevelNames(value: string)
    requires KnownLevelName(ToLower(TrimSpace(value)))
    ensures var name := ToLower(TrimSpace(value));
      && (ParseLevel(value).value == LevelDebug <==> name == "debug")
      && (ParseLevel(value).value == LevelInfo <==> name == "info" || name == "")
      && (ParseLevel(value).value == LevelWarn <==> name == "warn" || name == "warning")
      && (ParseLevel(value).value == LevelError <==> name == "error")
  {
  }

  /** Parsing does not depend on case or surrounding white space: a value
      and its normalised form select the same level. */
  lemma {:induction false} ParseLevelNormalized(value: string)
    ensures ParseLevel(ToLower(TrimSpace(value))).Success? == ParseLevel(value).Success?
    ensures ParseLevel(value).Success? ==> ParseLevel(ToLower(TrimSpace(value))) == ParseLevel(value)
  {
    var t := TrimSpace(value);
    var name := ToLower(t);
    TrimSpaceEnds(value);
    LowerKeepsTrimmed(t);
    TrimSpaceKeeps(name);
    ToLowerIdempotent(t);
    assert ToLower(TrimSpace(name)) == name;
  }

  /** A message at `level` is written under threshold `threshold`. */
  predicate Emits(level: nat, threshold: nat) {
    level >= threshold
  }

  /** Errors are written whatever the configured level; debug messages only
      when the configuration names "debug"; every level is written at the
      debug threshold. */
  lemma ThresholdFacts(value: string)
    requires ParseLevel(value).Success?
    ensures Emits(LevelError, ParseLevel(value).value)
    ensures Emits(LevelDebug, ParseLevel(value).value) <==> ToLower(TrimSpace(value)) == "debug"
    ensures ToLower(TrimSpace(value)) == "debug" ==>
      forall level: nat :: Emits(level, ParseLevel(value).value)
  {
  }

  /** One written line, without the date and time prefix. */
  function Line(tag: string, msg: string): (r: string)
    ensures HasPrefix(r, "[" + tag + "] ")
    ensures |r| == |tag| + |msg| + 3
  {
    "[" + tag + "] " + msg
  }

  /** Effect of `logging.New` on the machine: the threshold, or the error.
      Without a log file nothing is touched; with one, its directory is
      created and the file opened for appending. */
  function NewSpec(o: Oracle, s: State, cfg: Config): (State, Result<nat>) {
    var level := ParseLevel(cfg.logLevel);
    if level.Failure? then (s, level)
    else if cfg.logFile == "" then (s, level)
    else
      var (s1, made) := Step(o, s, MadeDir(Dir(cfg.logFile)));
      if made.Fail? then (s1, Failure("create log dir: " + made.msg))
      else
        var (s2, file) := Step(o, s1, Wrote(cfg.logFile));
        if file.Fail? then (s2, Failure("open log file: " + file.msg))
        else (s2, level)
  }

  /** An invalid level is reported before any directory is created, and a
      logger without a file touches nothing. */
  lemma NewWithoutFile(o: Oracle, s: State, cfg: Config)
    requires ParseLevel(cfg.logLevel).Failure? || cfg.logFile == ""
    ensures NewSpec(o, s, cfg) == (s, ParseLevel(cfg.logLevel))
  {
  }

  /** A logger with a file succeeds only after creating the file's directory
      and opening the file, in that order, and then has the configured level. */
  lemma NewWithFile(o: Oracle, s: State, cfg: Config)
    requires cfg.logFile != ""
    ensures var (s', r) := NewSpec(o, s, cfg);
      && s.trace <= s'.trace
      && (r.Success? ==>
            && r == ParseLevel(cfg.logLevel)
            && Since(s, s') == [MadeDir(Dir(cfg.logFile)), Wrote(cfg.logFile)]
            && cfg.logFile in s'.files)
  {
    var level := ParseLevel(cfg.logLevel);
    if level.Success? {
      var (s1, made) := Step(o, s, MadeDir(Dir(cfg.logFile)));
      if made.Ok? {
        var (s2, file) := Step(o, s1, Wrote(cfg.logFile));
        assert NewSpec(o, s, cfg) == (s2, if file.Ok? then level else Failure("open log file: " + file.msg));
        if file.Ok? {
          assert cfg.logFile in Touch(s1.files, Wrote(cfg.logFile));
          assert Since(s, s2) == [MadeDir(Dir(cfg.logFile)), Wrote(cfg.logFile)];
        }
      }
    }
  }

  class Logger {
    const level: nat
    const hasFile: bool
    /** The lines written so far, oldest first. */
    var output: seq<string>

    constructor (level: nat, hasFile: bool)
      ensures this.level == level && this.hasFile == hasFile && output == []
    {
      this.level := level;
      this.hasFile := hasFile;
      output := [];
    }

    /** `logf`: write one tagged line when the level passes the threshold. */
    method Logf(lv: nat, tag: string, msg: string)
      modifies this`output
      ensures Emits(lv, level) ==> output == old(output) + [Line(tag, msg)]
      ensures !Emits(lv, level) ==> output == old(output)
    {
      if lv < level {
        return;
      }
      output := output + ["[" + tag + "] " + msg];
    }

    method Debug(msg: string)
      modifies this`output
      ensures output == old(output) + (if Emits(LevelDebug, level) then [Line("DEBUG", msg)] else [])
    {
      Logf(LevelDebug, "DEBUG", msg);
    }

    method Info(msg: string)
      modifies this`output
      ensures output == old(output) + (if Emits(LevelInfo, level) then [Line("INFO", msg)] else [])
    {
      Logf(LevelInfo, "INFO", msg);
    }

    method Warn(msg: string)
      modifies this`output
      ensures output == old(output) + (if Emits(LevelWarn, level) then [Line("WARN", msg)] else [])
    {
      Logf(LevelWarn, "WARN", msg);
    }

    method Error(msg: string)
      modifies this`output
      ensures level <= LevelError ==> output == old(output) + [Line("ERROR", msg)]
    {
      Logf(LevelError, "ERROR", msg);
    }

    /** `Close`: a logger without a file closes cleanly; otherwise the result
        of closing the file (`fileClose`) is returned. */
    method Close(fileClose: Status) returns (st: Status)
      ensures !hasFile ==> st == Ok
      ensures hasFile ==> st == fileClose
    {
      if !hasFile {
        return Ok;
      }
      return fileClose;
    }
  }

  /** `logging.New`. */
  method New(h: Host, cfg: Config) returns (logger: Logger?, err: Status)
    modifies h
    ensures var (s', r) := NewSpec(h.oracle, old(h.state), cfg);
      && h.state == s'
      && (r.Success? <==> logger != null)
      && (r.Success? ==> err == Ok && fresh(logger) && logger.level == r.value
                         && logger.hasFile == (cfg.logFile != "") && logger.output == [])
      && (r.Failure? ==> err == Fail(r.msg))
  {
    var level := ParseLevel(cfg.logLevel);
    if level.Failure? {
      return null, Fail(level.msg);
    }
    if cfg.logFile != "" {
      var made := h.Do(MadeDir(Dir(cfg.logFile)));
      if made.Fail? {
        return null, Fail("create log dir: " + made.msg);
      }
      var file := h.Do(Wrote(cfg.logFile));
      if file.Fail? {
        return null, Fail("open log file: " + file.msg);
      }
    }
    logger := new Logger(level.value, cfg.logFile != "");
    err := Ok;
  }
}
