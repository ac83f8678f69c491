/** internal/cli/runner.go: the command dispatcher. The first argument
    names the command; anything it does not recognise is taken as the start
    of a game command line and handed to `launch` whole. */
module Cli {
  import opened Common
  import opened Text
  import opened World
  import opened Settings
  import Doctor
  import Launch
  import Setup
  import PrefixBuild
  import PrefixDownload

  /** `ErrUsage`, returned after a usage text is printed. */
  const ErrUsage := "usage"

  /** What the commands read from outside the configuration: the operating
      system's name, the process environment, and the lines typed at the
      launch prompt and at the setup prompt (or the read errors). */
  datatype Input = Input(goos: string, env: map<string, string>,
                         launchAnswer: Result<string>, setupAnswer: Result<string>)

  /** Effect of `Runner.Run` on argument list `args`. */
  function RunSpec(o: Oracle, s: State, cfg: Config, input: Input, args: seq<string>): (State, Status) {
    if |args| == 0 then (s, Fail("no command provided"))
    else if args[0] == "launch" then Launch.RunSpec(o, s, cfg, input.launchAnswer, input.env, args[1..])
    else if args[0] == "setup" then
      var (s1, checked) := Doctor.DoctorSpec(o, s, input.goos, cfg, true);
      if checked.Fail? then (s1, checked)
      else Setup.RunSetupSpec(o, s1, cfg, input.setupAnswer)
    else if args[0] == "doctor" then Doctor.DoctorSpec(o, s, input.goos, cfg, false)
    else if args[0] == "prefix" then
      if |args| < 2 then (s, Fail(ErrUsage))
      else if args[1] == "download" then PrefixDownload.DownloadSpec(o, s, cfg)
      else if args[1] == "build" then PrefixBuild.BuildSpec(o, s, cfg.prefixDir)
      else (s, Fail(ErrUsage))
    else if args[0] == "config" then
      (s, if |args| < 2 || args[1] != "init" then Fail(ErrUsage) else Ok)
    else if args[0] == "help" then (s, Ok)
    else Launch.RunSpec(o, s, cfg, input.launchAnswer, input.env, args)
  }

  method Run(h: Host, cfg: Config, input: Input, args: seq<string>) returns (err: Status)
    modifies h
    ensures (h.state, err) == RunSpec(h.oracle, old(h.state), cfg, input, args)
  {
    if |args| == 0 {
      return Fail("no command provided");
    }
    match args[0]
    case "launch" =>
      err := Launch.Run(h, cfg, input.launchAnswer, input.env, args[1..]);
    case "setup" =>
      err := Doctor.Run(h, input.goos, cfg, true);
      if err.Ok? {
        err := Setup.RunSetup(h, cfg, input.setupAnswer);
      }
    case "doctor" =>
      err := Doctor.Run(h, input.goos, cfg, false);
    case "prefix" =>
      if |args| < 2 {
        return Fail(ErrUsage);
      }
      match args[1] {
        case "download" =>
          err := PrefixDownload.Download(h, cfg);
        case "build" =>
          err := PrefixBuild.Build(h, cfg.prefixDir);
        case _ =>
          return Fail(ErrUsage);
      }
    case "config" =>
      if |args| < 2 || args[1] != "init" {
        return Fail(ErrUsage);
      }
      err := Ok;
    case "help" =>
      err := Ok;
    case _ =>
      err := Launch.Run(h, cfg, input.launchAnswer, input.env, args);
  }

  /** The command words `Run` recognises. */
  predicate IsCommandWord(w: string) {
    w in {"launch", "setup", "doctor", "prefix", "config", "help"}
  }

  /** A first argument that is not a command word starts a game command
      line: the whole list goes to `launch`, exactly as `launch <args>`
      would pass it. */
  lemma BareGameCommand(o: Oracle, s: State, cfg: Config, input: Input, args: seq<string>)
    requires |args| > 0 && !IsCommandWord(args[0])
    ensures RunSpec(o, s, cfg, input, args) == RunSpec(o, s, cfg, input, ["launch"] + args)
  {
    assert (["launch"] + args)[1..] == args;
  }

  /** The commands that only answer (usage errors, `config`, `help`) touch
      nothing. */
  lemma UsageTouchesNothing(o: Oracle, s: State, cfg: Config, input: Input, args: seq<string>)
    requires |args| == 0 || args[0] in {"config", "help"}
             || (args[0] == "prefix" && (|args| < 2 || args[1] !in {"download", "build"}))
    ensures RunSpec(o, s, cfg, input, args).0 == s
    ensures var st := RunSpec(o, s, cfg, input, args).1;
      && (|args| == 0 ==> st == Fail("no command provided"))
      && (|args| > 0 && args[0] == "prefix" ==> st == Fail(ErrUsage))
      && (|args| > 0 && args[0] == "config" ==> (st.Ok? <==> |args| >= 2 && args[1] == "init"))
      && (|args| > 0 && args[0] == "help" ==> st == Ok)
  {
  }

  /** `setup` is gated by the strict doctor: when it fails, its error is the
      result and nothing of setup happens; when it passes, setup starts from
      the state doctor left. `doctor` itself never fails on missing
      binaries. */
  lemma SetupGate(o: Oracle, s: State, cfg: Config, input: Input, args: seq<string>)
    requires |args| > 0 && args[0] == "setup"
    ensures var (s1, checked) := Doctor.DoctorSpec(o, s, input.goos, cfg, true);
      && (checked.Fail? ==> RunSpec(o, s, cfg, input, args) == (s1, checked))
      && (checked.Ok? ==> RunSpec(o, s, cfg, input, args) == Setup.RunSetupSpec(o, s1, cfg, input.setupAnswer))
      && (checked.Fail? && HasPrefix(checked.msg, "missing required dependencies: ") ==>
            RunSpec(o, s, cfg, input, ["doctor"]).1 == Ok)
  {
    var (s1, checked) := Doctor.DoctorSpec(o, s, input.goos, cfg, true);
    if checked.Fail? && HasPrefix(checked.msg, "missing required dependencies: ") {
      Doctor.DoctorModes(o, s, input.goos, cfg);
    }
  }
}
