/** internal/bootstrap/setup.go: the `setup` command after doctor has
    passed. WeMod is installed if missing; then the prefix is downloaded,
    built or left alone, as the user answers (or downloaded without asking
    when the configuration is not interactive). */
module Setup {
  import opened Common
  import opened Text
  import opened World
  import opened Settings
  import opened WeModInstall
  import opened PrefixBuild
  import opened PrefixDownload

  datatype Strategy = DownloadPrefix | BuildPrefix | SkipPrefix

  /** The answer after trimming and (ASCII) lower-casing. */
  function Normalize(line: string): string {
    ToLower(TrimSpace(line))
  }

  /** The answer's meaning in `askSetupStrategy`: "b"/"build" and "s"/"skip"
      pick those strategies; every other answer, the empty one included,
      means download. */
  function StrategyFor(line: string): (r: Strategy)
    ensures r == BuildPrefix <==> Normalize(line) in {"b", "build"}
    ensures r == SkipPrefix <==> Normalize(line) in {"s", "skip"}
    ensures r == DownloadPrefix <==> Normalize(line) !in {"b", "build", "s", "skip"}
  {
    var normalized := ToLower(TrimSpace(line));
    if normalized == "" || normalized == "d" || normalized == "download" then DownloadPrefix
    else if normalized == "b" || normalized == "build" then BuildPrefix
    else if normalized == "s" || normalized == "skip" then SkipPrefix
    else DownloadPrefix
  }

  /** `askSetupStrategy`: `line` is what reading standard input gave, a line
      or the read error. */
  function AskSetupStrategy(line: Result<string>): (r: Result<Strategy>)
    ensures line.Failure? ==> r == Failure("read setup choice: " + line.msg)
    ensures line.Success? ==> r == Success(StrategyFor(line.value))
  {
    match line
    case Failure(e) => Failure("read setup choice: " + e)
    case Success(l) => Success(StrategyFor(l))
  }

  /** Case and surrounding white space do not matter: an answer and its
      normalised form pick the same strategy. */
  lemma {:induction false} StrategyNormalized(line: string)
    ensures StrategyFor(Normalize(line)) == StrategyFor(line)
  {
    var t := TrimSpace(line);
    var name := ToLower(t);
    TrimSpaceEnds(line);
    LowerKeepsTrimmed(t);
    TrimSpaceKeeps(name);
    ToLowerIdempotent(t);
    assert Normalize(name) == name;
  }

  /** The strategy `RunSetup` follows: asked for when interactive, download
      otherwise. */
  function ChooseStrategy(cfg: Config, line: Result<string>): (r: Result<Strategy>)
    ensures !cfg.interactive ==> r == Success(DownloadPrefix)
    ensures cfg.interactive ==> r == AskSetupStrategy(line)
  {
    if cfg.interactive then AskSetupStrategy(line) else Success(DownloadPrefix)
  }

  /** Effect of `RunSetup`; `line` is the answer to the prompt, read only when
      the configuration is interactive. */
  function RunSetupSpec(o: Oracle, s: State, cfg: Config, line: Result<string>): (State, Status) {
    var (s1, ensured) := EnsureSpec(o, s, cfg, false);
    if ensured.Fail? then (s1, ensured)
    else
      match ChooseStrategy(cfg, line)
      case Failure(e) => (s1, Fail(e))
      case Success(strategy) =>
        match strategy
        case BuildPrefix => BuildSpec(o, s1, cfg.prefixDir)
        case SkipPrefix => (s1, Ok)
        case DownloadPrefix => DownloadSpec(o, s1, cfg)
  }

  method RunSetup(h: Host, cfg: Config, line: Result<string>) returns (st: Status)
    modifies h
    ensures (h.state, st) == RunSetupSpec(h.oracle, old(h.state), cfg, line)
  {
    st := EnsureWeMod(h, cfg, false);
    if st.Fail? {
      return st;
    }
    var strategy := DownloadPrefix;
    if cfg.interactive {
      var choice := AskSetupStrategy(line);
      if choice.Failure? {
        return Fail(choice.msg);
      }
      strategy := choice.value;
    }
    match strategy
    case BuildPrefix =>
      st := Build(h, cfg.prefixDir);
    case SkipPrefix =>
      st := Ok;
    case DownloadPrefix =>
      st := Download(h, cfg);
  }

  /** A failed WeMod install ends setup with that error, before any strategy
      is asked for or followed. */
  lemma SetupNeedsWeMod(o: Oracle, s: State, cfg: Config, line: Result<string>)
    requires EnsureSpec(o, s, cfg, false).1.Fail?
    ensures RunSetupSpec(o, s, cfg, line) == EnsureSpec(o, s, cfg, false)
  {
  }

  /** Once WeMod is in place: without interaction the prefix is always
      downloaded; with it, "b"/"build" builds, "s"/"skip" does nothing more,
      any other answer downloads, and a read error is returned wrapped. */
  lemma SetupDispatch(o: Oracle, s: State, cfg: Config, line: Result<string>)
    requires EnsureSpec(o, s, cfg, false).1.Ok?
    ensures var s1 := EnsureSpec(o, s, cfg, false).0;
      var r := RunSetupSpec(o, s, cfg, line);
      && (!cfg.interactive ==> r == DownloadSpec(o, s1, cfg))
      && (cfg.interactive && line.Failure? ==> r == (s1, Fail("read setup choice: " + line.msg)))
      && (cfg.interactive && line.Success? ==>
            && (Normalize(line.value) in {"b", "build"} ==> r == BuildSpec(o, s1, cfg.prefixDir))
            && (Normalize(line.value) in {"s", "skip"} ==> r == (s1, Ok))
            && (Normalize(line.value) !in {"b", "build", "s", "skip"} ==> r == DownloadSpec(o, s1, cfg)))
  {
  }
}
