/** The orchestration of internal/launch/launch.go: checking that WeMod is
    installed, preparing the game's prefix in Proton mode, starting the game
    and WeMod (with one wineboot-assisted retry), and waiting for the game. */
module Launch {
  import opened Common
  import opened Text
  import opened World
  import opened Winetricks
  import opened LaunchCommand
  import opened Settings

  const RuntimeReadyMarker := ".wemod_launcher_runtime_ready"
  const RequiredVerbs := ["corefonts", "dotnet48"]

  // ----- validateCommand -----

  /** The game program must be non-blank; a path (it has a '/') must exist
      and be executable; a bare name must be found on PATH. */
  function ValidateCommand(o: Oracle, s: State, command: string): (r: Status)
    ensures r.Ok? <==> && !Blank(command)
                       && ('/' in command ==> IsExecutable(o, s, command))
                       && ('/' !in command ==> command in o.onPath)
    ensures Blank(command) ==> r == Fail("game command is empty")
    ensures !Blank(command) && '/' in command && !Exists(o, s, command) ==> r == Fail("game command path not found: " + command)
    ensures !Blank(command) && '/' in command && Exists(o, s, command) && command !in o.executable
            ==> r == Fail("game command is not executable: " + command)
    ensures !Blank(command) && '/' !in command && r.Fail? ==> r == Fail("game command not found in PATH: " + command)
  {
    if TrimSpace(command) == "" then Fail("game command is empty")
    else if '/' in command then
      if !Exists(o, s, command) then Fail("game command path not found: " + command)
      else if command !in o.executable then Fail("game command is not executable: " + command)
      else Ok
    else if command !in o.onPath then Fail("game command not found in PATH: " + command)
    else Ok
  }

  // ----- askYesNo -----

  /** The answer to the setup prompt: the line read, or the read error. An
      empty answer, "y" and "yes" (any case, any surrounding space) mean yes. */
  function AskYesNo(answer: Result<string>): Result<bool> {
    match answer
    case Failure(e) => Failure("read prompt input: " + e)
    case Success(line) =>
      var l := TrimSpace(ToLower(line));
      Success(l == "" || l == "y" || l == "yes")
  }

  /** Yes is the default, "y" and "yes" mean yes and every other answer
      means no, letter case does not matter, and a read error is reported as
      such. */
  lemma AskYesNoProperties(line: string, e: string)
    ensures AskYesNo(Success(line)).Success?
    ensures AskYesNo(Success(line)).value <==> Blank(line) || TrimSpace(ToLower(line)) in {"y", "yes"}
    ensures Blank(line) ==> AskYesNo(Success(line)) == Success(true)
    ensures AskYesNo(Success(ToLower(line))) == AskYesNo(Success(line))
    ensures AskYesNo(Success("no")) == Success(false)
    ensures AskYesNo(Failure(e)) == Failure("read prompt input: " + e)
  {
    ToLowerIdempotent(line);
    if Blank(line) {
      assert Blank(ToLower(line)) by {
        forall i | 0 <= i < |line| ensures IsSpace(ToLower(line)[i]) {
          assert IsSpace(line[i]);
        }
      }
    }
    assert ToLower("no") == "no";
    TrimSpaceKeeps("no");
  }

  /** What `Run` returns when WeMod.exe is missing. */
  function MissingWeModError(cfg: Config, answer: Result<string>): (r: Status)
    ensures r.Fail?
    ensures !cfg.interactive ==> r == Fail("WeMod executable missing at " + cfg.weModExePath)
    ensures cfg.interactive && answer.Failure? ==> r == Fail("read prompt input: " + answer.msg)
    ensures cfg.interactive && answer.Success? && (Blank(answer.value) || TrimSpace(ToLower(answer.value)) in {"y", "yes"})
            ==> r == Fail("WeMod executable missing at " + cfg.weModExePath + "; run: wemod-launcher setup")
    ensures cfg.interactive && answer.Success? && !Blank(answer.value) && TrimSpace(ToLower(answer.value)) !in {"y", "yes"}
            ==> r == Fail("WeMod executable missing at " + cfg.weModExePath)
  {
    var missing := "WeMod executable missing at " + cfg.weModExePath;
    if cfg.interactive then
      match AskYesNo(answer)
      case Failure(m) => Fail(m)
      case Success(yes) =>
        AskYesNoProperties(if answer.Success? then answer.value else "", "");
        if yes then Fail(missing + "; run: wemod-launcher setup") else Fail(missing)
    else Fail(missing)
  }

  // ----- startWeModProcess and startWeModProcessWithRecovery -----

  /** How WeMod is started: the wine that runs WeMod.exe, the wineboot used
      for recovery, the path of WeMod.exe and the environment. */
  datatype WeModCommand = WeModCommand(wine: string, boot: string, exe: string, env: map<string, string>)

  /** The binaries `startWeModProcess` and `resolveWineBootBinary` choose. */
  function WeModCommandFor(o: Oracle, s: State, exe: string, gameCmd: seq<string>, env: map<string, string>,
                           protonMode: bool): (c: WeModCommand)
    requires protonMode ==> |gameCmd| > 0
    ensures !protonMode ==> c.wine == "wine" && c.boot == "wineboot"
    ensures c.boot != "winetricks"
    ensures c.exe == exe && c.env == env
  {
    var boot := WineBootBinary(gameCmd, protonMode, Executables(o, s));
    assert "winetricks"[2..] != "wineboot";
    WeModCommand(WeModWine(gameCmd, protonMode, Executables(o, s)), boot, exe, env)
  }

  function WeModStart(c: WeModCommand): Effect {
    Started(c.wine, [c.exe], c.env)
  }

  function WineBootRun(c: WeModCommand): Effect {
    Ran(c.boot, ["-u"], c.env)
  }

  /** Effect of `startWeModProcess`. */
  function StartWeModSpec(o: Oracle, s: State, c: WeModCommand): (State, Result<nat>) {
    Spawn(o, s, c.wine, [c.exe], c.env)
  }

  method StartWeModProcess(h: Host, exe: string, gameCmd: seq<string>, env: map<string, string>,
                           protonMode: bool) returns (r: Result<nat>)
    requires protonMode ==> |gameCmd| > 0
    modifies h
    ensures (h.state, r) == StartWeModSpec(h.oracle, old(h.state), WeModCommandFor(h.oracle, old(h.state), exe, gameCmd, env, protonMode))
  {
    if protonMode {
      var protonWine := ResolveProtonWineBinary(gameCmd[0], Executables(h.oracle, h.state));
      if protonWine != "" {
        r := h.Start(protonWine, [exe], env);
        return;
      }
      r := h.Start("wine", [exe], env);
      return;
    }
    r := h.Start("wine", [exe], env);
  }

  /** Effect of `startWeModProcessWithRecovery`: one start; after a failure,
      `wineboot -u` (its error is only logged), a two-second pause and a
      second start; when both starts fail, both errors are reported. */
  function RecoverySpec(o: Oracle, s: State, c: WeModCommand): (r: (State, Result<nat>)) {
    var (s1, first) := StartWeModSpec(o, s, c);
    if first.Success? then (s1, first)
    else
      var s2 := RunProc(o, s1, c.boot, ["-u"], c.env).0;
      var s3 := Step(o, s2, Slept(2)).0;
      var (s4, second) := StartWeModSpec(o, s3, c);
      if second.Success? then (s4, second)
      else (s4, Failure("initial error: " + first.msg + "; retry error: " + second.msg))
  }

  method StartWeModProcessWithRecovery(h: Host, exe: string, gameCmd: seq<string>,
                                       env: map<string, string>, protonMode: bool) returns (r: Result<nat>)
    requires protonMode ==> |gameCmd| > 0
    modifies h
    ensures (h.state, r) == RecoverySpec(h.oracle, old(h.state), WeModCommandFor(h.oracle, old(h.state), exe, gameCmd, env, protonMode))
  {
    ghost var s0 := h.state;
    ghost var c := WeModCommandFor(h.oracle, s0, exe, gameCmd, env, protonMode);
    var first := StartWeModProcess(h, exe, gameCmd, env, protonMode);
    if first.Success? {
      return first;
    }
    ghost var s1 := h.state;
    assert (s1, first) == StartWeModSpec(h.oracle, s0, c);
    SameFilesSameCommand(h.oracle, s0, s1, exe, gameCmd, env, protonMode);
    var winebootBinary := WineBootBinary(gameCmd, protonMode, Executables(h.oracle, h.state));
    assert winebootBinary == c.boot;
    var _ := h.Run(winebootBinary, ["-u"], env);
    ghost var s2 := h.state;
    var _ := h.Do(Slept(2));
    ghost var s3 := h.state;
    assert s3 == Step(h.oracle, s2, Slept(2)).0;
    assert s3.files == s0.files;
    SameFilesSameCommand(h.oracle, s0, s3, exe, gameCmd, env, protonMode);
    var second := StartWeModProcess(h, exe, gameCmd, env, protonMode);
    assert (h.state, second) == StartWeModSpec(h.oracle, s3, c);
    if second.Success? {
      return second;
    }
    return Failure("initial error: " + first.msg + "; retry error: " + second.msg);
  }

  /** Starting, running and pausing change no path, so the binaries chosen
      for WeMod stay the same. */
  lemma SameFilesSameCommand(o: Oracle, s: State, t: State, exe: string, gameCmd: seq<string>,
                             env: map<string, string>, protonMode: bool)
    requires protonMode ==> |gameCmd| > 0
    requires s.files == t.files
    ensures Executables(o, s) == Executables(o, t)
    ensures WeModCommandFor(o, s, exe, gameCmd, env, protonMode) == WeModCommandFor(o, t, exe, gameCmd, env, protonMode)
  {
  }

  /** The recovery performs either one start that succeeded, or a start that
      failed, `wineboot -u`, a pause and a second start: never more than two
      starts, and wineboot only after a failed one. It succeeds exactly when
      one of the starts did, with the handle of that start; otherwise the
      error carries both start errors. No path changes. */
  lemma RecoveryShape(o: Oracle, s: State, c: WeModCommand)
    ensures var (s', r) := RecoverySpec(o, s, c);
      var w := WeModStart(c);
      var retry := s.trace + [w, WineBootRun(c), Slept(2)];
      && s.trace <= s'.trace && s'.files == s.files
      && (forall e :: e in Since(s, s') ==> e == w || e == WineBootRun(c) || e == Slept(2))
      && (o.outcome(s.trace, w).Ok? ==> Since(s, s') == [w] && r == Success(|s.trace|))
      && (o.outcome(s.trace, w).Fail? ==> Since(s, s') == [w, WineBootRun(c), Slept(2), w])
      && (o.outcome(s.trace, w).Fail? && o.outcome(retry, w).Ok? ==> r == Success(|s.trace| + 3))
      && (o.outcome(s.trace, w).Fail? && o.outcome(retry, w).Fail? ==>
            r == Failure("initial error: " + StartError(c.wine, o.outcome(s.trace, w).msg)
                         + "; retry error: " + StartError(c.wine, o.outcome(retry, w).msg)))
  {
    var w := WeModStart(c);
    var (s1, first) := StartWeModSpec(o, s, c);
    if first.Failure? {
      var s2 := RunProc(o, s1, c.boot, ["-u"], c.env).0;
      var s3 := Step(o, s2, Slept(2)).0;
      assert s3.trace == s.trace + [w, WineBootRun(c), Slept(2)];
      var s4 := StartWeModSpec(o, s3, c).0;
      assert s4.trace == s.trace + [w, WineBootRun(c), Slept(2), w];
      assert Touch(s2.files, Slept(2)) == s2.files;
    }
  }

  // ----- listInstalledVerbs -----

  /** A line of `winetricks list-installed` as a verb: trimmed and lower-cased. */
  function VerbOf(line: string): string {
    ToLower(TrimSpace(line))
  }

  /** Blank lines and winetricks warnings are not verbs. */
  predicate IsVerb(verb: string) {
    verb != "" && !Contains(verb, "warning")
  }

  /** The verbs `listInstalledVerbs` records for the output lines. */
  function VerbSet(lines: seq<string>): (r: set<string>)
    ensures forall v :: v in r ==> IsVerb(v) && ToLower(v) == v
    ensures forall i :: 0 <= i < |lines| && IsVerb(VerbOf(lines[i])) ==> VerbOf(lines[i]) in r
    ensures forall v :: v in r ==> exists i :: 0 <= i < |lines| && IsVerb(VerbOf(lines[i])) && v == VerbOf(lines[i])
  {
    set l | l in lines && IsVerb(VerbOf(l)) :: VerbOf(l)
  }

  lemma VerbSetAppend(lines: seq<string>, line: string)
    ensures VerbSet(lines + [line]) == VerbSet(lines) + (if IsVerb(VerbOf(line)) then {VerbOf(line)} else {})
  {
    var both := lines + [line];
    forall v | v in VerbSet(both) ensures v in VerbSet(lines) + (if IsVerb(VerbOf(line)) then {VerbOf(line)} else {}) {
      var l :| l in both && IsVerb(VerbOf(l)) && VerbOf(l) == v;
      if l != line {
        assert l in lines;
      }
    }
    assert forall l :: l in lines ==> l in both;
  }

  /** Go's `listInstalledVerbs`: run `winetricks list-installed` with the
      prefix environment and record every verb line of its output. */
  method ListInstalledVerbs(h: Host, env: map<string, string>) returns (installed: set<string>, st: Status)
    modifies h
    ensures h.state == Step(h.oracle, old(h.state), Queried("winetricks", ["list-installed"], env)).0
    ensures st.Ok? <==> h.oracle.outcome(old(h.state).trace, Queried("winetricks", ["list-installed"], env)).Ok?
    ensures installed == VerbSet(Split(h.oracle.output(old(h.state).trace), '\n'))
  {
    var listed, output := h.Query(Queried("winetricks", ["list-installed"], env));
    var lines := Split(output, '\n');
    installed := {};
    var i := 0;
    ghost var listedState := h.state;
    while i < |lines|
      invariant 0 <= i <= |lines|
      invariant h.state == listedState
      invariant installed == VerbSet(lines[..i])
    {
      var verb := ToLower(TrimSpace(lines[i]));
      assert lines[..i + 1] == lines[..i] + [lines[i]];
      VerbSetAppend(lines[..i], lines[i]);
      if verb == "" || Contains(verb, "warning") {
        i := i + 1;
        continue;
      }
      installed := installed + {verb};
      i := i + 1;
    }
    assert lines[..i] == lines;
    st := if listed.Ok? then Ok else Fail("winetricks list-installed: " + listed.msg);
  }

  /** Reading back a listing that prints each installed verb on a line of its
      own gives exactly those verbs. */
  lemma VerbListingRoundTrip(verbs: seq<string>)
    requires |verbs| >= 1
    requires forall i :: 0 <= i < |verbs| ==> '\n' !in verbs[i] && IsVerb(verbs[i]) && VerbOf(verbs[i]) == verbs[i]
    ensures VerbSet(Split(JoinWith(verbs, '\n'), '\n')) == set v | v in verbs
  {
    JoinSplit(verbs, '\n');
  }

  // ----- ensurePrefixRuntime -----

  function MarkerPath(prefixPath: string): string {
    Join(prefixPath, RuntimeReadyMarker)
  }

  function ListingEffect(env: map<string, string>): Effect {
    Queried("winetricks", ["list-installed"], env)
  }

  /** The environment winetricks runs with during the preparation. */
  function PrepEnv(o: Oracle, s: State, prefixPath: string, gameCmd: seq<string>, protonMode: bool): map<string, string> {
    BuildPrefixRuntimeEnv(prefixPath, gameCmd, protonMode, Executables(o, s))
  }

  /** The verbs a listing performed at state `s` reports. */
  function ListedVerbs(o: Oracle, s: State): set<string> {
    VerbSet(Split(o.output(s.trace), '\n'))
  }

  /** The listing followed by the install loop over the required verbs. */
  function PrepInstall(o: Oracle, s: State, prefixPath: string, gameCmd: seq<string>,
                       protonMode: bool): (State, Option<(string, string)>)
  {
    var env := PrepEnv(o, s, prefixPath, gameCmd, protonMode);
    InstallPass(o, Step(o, s, ListingEffect(env)).0, RequiredVerbs, ListedVerbs(o, s), env)
  }

  /** Effect of `ensurePrefixRuntime`. A marker file in the prefix skips
      everything; a listing that fails skips the installs for this run; the
      required verbs that are not listed are installed in order, the first
      failure is returned, and after all of them succeeded the marker is
      written (a failed write is only logged). */
  function PrepSpec(o: Oracle, s: State, prefixPath: string, gameCmd: seq<string>,
                    protonMode: bool): (r: (State, Status))
  {
    var marker := MarkerPath(prefixPath);
    if Exists(o, s, marker) then (s, Ok)
    else
      var env := PrepEnv(o, s, prefixPath, gameCmd, protonMode);
      if o.outcome(s.trace, ListingEffect(env)).Fail? then (Step(o, s, ListingEffect(env)).0, Ok)
      else
        var (s2, failed) := PrepInstall(o, s, prefixPath, gameCmd, protonMode);
        if failed.Some? then (s2, Fail("install " + failed.value.0 + ": " + failed.value.1))
        else (Step(o, s2, Wrote(marker)).0, Ok)
  }

  method EnsurePrefixRuntime(h: Host, prefixPath: string, gameCmd: seq<string>, protonMode: bool)
    returns (st: Status)
    modifies h
    ensures (h.state, st) == PrepSpec(h.oracle, old(h.state), prefixPath, gameCmd, protonMode)
  {
    var markerPath := Join(prefixPath, RuntimeReadyMarker);
    var found := h.Stat(markerPath);
    if found {
      return Ok;
    }
    var env := BuildPrefixRuntimeEnv(prefixPath, gameCmd, protonMode, Executables(h.oracle, h.state));
    var installed, listed := ListInstalledVerbs(h, env);
    if listed.Fail? {
      return Ok;
    }
    ghost var s1 := h.state;
    var required := RequiredVerbs;
    var i := 0;
    while i < |required|
      invariant 0 <= i <= |required|
      invariant InstallPass(h.oracle, h.state, required[i..], installed, env)
             == InstallPass(h.oracle, s1, required, installed, env)
    {
      var verb := required[i];
      assert required[i..][1..] == required[i + 1..];
      if verb in installed {
        i := i + 1;
        continue;
      }
      var err := h.Run("winetricks", ["-q", verb], env);
      if err.Fail? {
        return Fail("install " + verb + ": " + err.msg);
      }
      i := i + 1;
    }
    var _ := h.Do(Wrote(markerPath));
    return Ok;
  }

  /** Effects the preparation can perform. */
  predicate IsPrepEffect(e: Effect, marker: string) {
    || (e.Queried? && e.program == "winetricks")
    || (e.Ran? && e.program == "winetricks")
    || e == Wrote(marker)
  }

  /** The listing and the install loop: the listing comes first, then the
      installs of a prefix of the missing verbs; only winetricks runs and no
      path changes. */
  lemma ListThenInstall(o: Oracle, s: State, env: map<string, string>, installed: set<string>)
    ensures var s1 := Step(o, s, ListingEffect(env)).0;
      var s2 := InstallPass(o, s1, RequiredVerbs, installed, env).0;
      && |s2.trace| >= |s.trace| + 1 && s.trace <= s2.trace
      && Since(s, s2) == [ListingEffect(env)]
           + Installs(Missing(RequiredVerbs, installed)[..|s2.trace| - |s.trace| - 1], env)
      && s2.files == s.files
      && (forall e :: e in Since(s, s2) ==> (e.Queried? || e.Ran?) && e.program == "winetricks")
  {
    var s1 := Step(o, s, ListingEffect(env)).0;
    assert s1.files == s.files by {
      assert Touch(s.files, ListingEffect(env)) == s.files;
    }
    InstallPassTrace(o, s1, RequiredVerbs, installed, env);
    var s2 := InstallPass(o, s1, RequiredVerbs, installed, env).0;
    var ins := Since(s1, s2);
    InstallsAreWinetricks(Missing(RequiredVerbs, installed)[..|s2.trace| - |s1.trace|], env);
    ListingFirst(s, s1, s2, ListingEffect(env));
  }

  lemma ListingFirst(s: State, s1: State, s2: State, e: Effect)
    requires s1.trace == s.trace + [e] && s1.trace <= s2.trace
    requires e.Queried? && e.program == "winetricks"
    requires forall x :: x in Since(s1, s2) ==> x.Ran? && x.program == "winetricks"
    ensures |s2.trace| >= |s.trace| + 1 && s.trace <= s2.trace
    ensures |s2.trace| - |s.trace| - 1 == |s2.trace| - |s1.trace|
    ensures Since(s, s2) == [e] + Since(s1, s2)
    ensures forall x :: x in Since(s, s2) ==> (x.Queried? || x.Ran?) && x.program == "winetricks"
  {
    assert s2.trace == s1.trace + Since(s1, s2);
  }

  lemma PrepInstallTrace(o: Oracle, s: State, prefixPath: string, gameCmd: seq<string>, protonMode: bool)
    ensures var env := PrepEnv(o, s, prefixPath, gameCmd, protonMode);
      var s2 := PrepInstall(o, s, prefixPath, gameCmd, protonMode).0;
      && |s2.trace| >= |s.trace| + 1 && s.trace <= s2.trace
      && Since(s, s2) == [ListingEffect(env)]
           + Installs(Missing(RequiredVerbs, ListedVerbs(o, s))[..|s2.trace| - |s.trace| - 1], env)
      && s2.files == s.files
      && (forall e :: e in Since(s, s2) ==> IsPrepEffect(e, MarkerPath(prefixPath)) && !e.Wrote?)
  {
    ListThenInstall(o, s, PrepEnv(o, s, prefixPath, gameCmd, protonMode), ListedVerbs(o, s));
  }

  /** What the preparation does: nothing when the marker exists; otherwise it
      first lists the installed verbs, and a failed listing ends it there
      without error; it only ever runs winetricks and writes the marker, and no
      other path changes. */
  lemma PrepEffects(o: Oracle, s: State, prefixPath: string, gameCmd: seq<string>, protonMode: bool)
    ensures var (s', st) := PrepSpec(o, s, prefixPath, gameCmd, protonMode);
      var marker := MarkerPath(prefixPath);
      var env := PrepEnv(o, s, prefixPath, gameCmd, protonMode);
      && s.trace <= s'.trace
      && s'.files <= s.files + {marker}
      && (Exists(o, s, marker) ==> s' == s && st == Ok)
      && (!Exists(o, s, marker) ==> |Since(s, s')| >= 1 && Since(s, s')[0] == ListingEffect(env))
      && (!Exists(o, s, marker) && o.outcome(s.trace, ListingEffect(env)).Fail? ==>
            Since(s, s') == [ListingEffect(env)] && st == Ok)
      && (forall e :: e in Since(s, s') ==> IsPrepEffect(e, marker))
  {
    var marker := MarkerPath(prefixPath);
    var env := PrepEnv(o, s, prefixPath, gameCmd, protonMode);
    if !Exists(o, s, marker) {
      if o.outcome(s.trace, ListingEffect(env)).Ok? {
        PrepInstalled(o, s, prefixPath, gameCmd, protonMode);
      } else {
        var s1 := Step(o, s, ListingEffect(env)).0;
        assert Since(s, s1) == [ListingEffect(env)];
        assert Touch(s.files, ListingEffect(env)) == s.files;
      }
    }
  }

  /** The preparation once the listing worked. */
  lemma PrepInstalled(o: Oracle, s: State, prefixPath: string, gameCmd: seq<string>, protonMode: bool)
    requires !Exists(o, s, MarkerPath(prefixPath))
    requires o.outcome(s.trace, ListingEffect(PrepEnv(o, s, prefixPath, gameCmd, protonMode))).Ok?
    ensures var (s', st) := PrepSpec(o, s, prefixPath, gameCmd, protonMode);
      var marker := MarkerPath(prefixPath);
      var env := PrepEnv(o, s, prefixPath, gameCmd, protonMode);
      && s.trace <= s'.trace
      && s'.files <= s.files + {marker}
      && |Since(s, s')| >= 1 && Since(s, s')[0] == ListingEffect(env)
      && (forall e :: e in Since(s, s') ==> IsPrepEffect(e, marker))
  {
    var marker := MarkerPath(prefixPath);
    PrepInstallTrace(o, s, prefixPath, gameCmd, protonMode);
    var (s2, failed) := PrepInstall(o, s, prefixPath, gameCmd, protonMode);
    var s' := PrepSpec(o, s, prefixPath, gameCmd, protonMode).0;
    assert s' == if failed.None? then Step(o, s2, Wrote(marker)).0 else s2;
    CreatingGrows(o, s2, Wrote(marker));
    AppendedLast(s.trace, s2.trace, s'.trace, Wrote(marker), failed.None?);
  }

  /** Appending `e` or not keeps what came before it. */
  lemma AppendedLast(t: seq<Effect>, t2: seq<Effect>, t': seq<Effect>, e: Effect, appended: bool)
    requires t <= t2 && |t2| > |t|
    requires t' == if appended then t2 + [e] else t2
    ensures t <= t' && |t'| > |t| && t'[|t|..][0] == t2[|t|..][0]
    ensures forall x :: x in t'[|t|..] ==> x in t2[|t|..] || x == e
  {
    if appended {
      assert t'[|t|..] == t2[|t|..] + [e];
    }
  }

  /** The marker is written exactly when the listing worked and no install
      failed, and it is the last thing done; an error is always an install
      error naming the verb. */
  lemma PrepWritesMarkerLast(o: Oracle, s: State, prefixPath: string, gameCmd: seq<string>, protonMode: bool)
    ensures var (s', st) := PrepSpec(o, s, prefixPath, gameCmd, protonMode);
      var marker := MarkerPath(prefixPath);
      var env := PrepEnv(o, s, prefixPath, gameCmd, protonMode);
      && s.trace <= s'.trace
      && (Wrote(marker) in Since(s, s') <==>
            && !Exists(o, s, marker)
            && o.outcome(s.trace, ListingEffect(env)).Ok?
            && PrepInstall(o, s, prefixPath, gameCmd, protonMode).1.None?)
      && (Wrote(marker) in Since(s, s') ==> s'.trace[|s'.trace| - 1] == Wrote(marker))
      && (st.Fail? ==> var failed := PrepInstall(o, s, prefixPath, gameCmd, protonMode).1;
            failed.Some? && st.msg == "install " + failed.value.0 + ": " + failed.value.1)
  {
    PrepMarker(o, s, prefixPath, gameCmd, protonMode);
  }

  lemma PrepMarker(o: Oracle, s: State, prefixPath: string, gameCmd: seq<string>, protonMode: bool)
    ensures var s' := PrepSpec(o, s, prefixPath, gameCmd, protonMode).0;
      var marker := MarkerPath(prefixPath);
      var env := PrepEnv(o, s, prefixPath, gameCmd, protonMode);
      && s.trace <= s'.trace
      && (Wrote(marker) in Since(s, s') <==>
            && !Exists(o, s, marker)
            && o.outcome(s.trace, ListingEffect(env)).Ok?
            && PrepInstall(o, s, prefixPath, gameCmd, protonMode).1.None?)
      && (Wrote(marker) in Since(s, s') ==> s'.trace[|s'.trace| - 1] == Wrote(marker))
  {
    var marker := MarkerPath(prefixPath);
    var env := PrepEnv(o, s, prefixPath, gameCmd, protonMode);
    if Exists(o, s, marker) {
      assert Since(s, s) == [];
    } else if o.outcome(s.trace, ListingEffect(env)).Fail? {
      var s1 := Step(o, s, ListingEffect(env)).0;
      assert PrepSpec(o, s, prefixPath, gameCmd, protonMode).0 == s1;
      assert Since(s, s1) == [ListingEffect(env)];
    } else {
      PrepInstallTrace(o, s, prefixPath, gameCmd, protonMode);
      var (s2, failed) := PrepInstall(o, s, prefixPath, gameCmd, protonMode);
      var s' := PrepSpec(o, s, prefixPath, gameCmd, protonMode).0;
      assert s' == if failed.Some? then s2 else Step(o, s2, Wrote(marker)).0;
      MarkerAfterInstalls(s.trace, s2.trace, s'.trace, marker, failed.None?);
    }
  }

  /** The installs write nothing; the marker, when written, is appended
      after them. */
  lemma MarkerAfterInstalls(t: seq<Effect>, t2: seq<Effect>, t': seq<Effect>, marker: string, written: bool)
    requires t <= t2 && forall e :: e in t2[|t|..] ==> !e.Wrote?
    requires t' == if written then t2 + [Wrote(marker)] else t2
    ensures t <= t' && (Wrote(marker) in t'[|t|..] <==> written)
    ensures written ==> t'[|t'| - 1] == Wrote(marker)
  {
    if written {
      assert t'[|t|..] == t2[|t|..] + [Wrote(marker)];
    }
  }

  /** Preparing twice is preparing once: after a run whose marker write
      succeeded, a second run finds the marker and does nothing. */
  lemma PrepIdempotent(o: Oracle, s: State, prefixPath: string, gameCmd: seq<string>, protonMode: bool)
    requires var s' := PrepSpec(o, s, prefixPath, gameCmd, protonMode).0;
      s.trace <= s'.trace
      && Wrote(MarkerPath(prefixPath)) in Since(s, s')
      && o.outcome(s'.trace[..|s'.trace| - 1], Wrote(MarkerPath(prefixPath))).Ok?
    ensures var s' := PrepSpec(o, s, prefixPath, gameCmd, protonMode).0;
      PrepSpec(o, s', prefixPath, gameCmd, protonMode) == (s', Ok)
  {
    PrepWritesMarkerLast(o, s, prefixPath, gameCmd, protonMode);
    var marker := MarkerPath(prefixPath);
    var s2 := PrepInstall(o, s, prefixPath, gameCmd, protonMode).0;
    var s' := Step(o, s2, Wrote(marker)).0;
    assert PrepSpec(o, s, prefixPath, gameCmd, protonMode).0 == s';
    assert s'.trace[..|s'.trace| - 1] == s2.trace;
    assert marker in s'.files;
  }

  // ----- Run -----

  /** What `Run` does once WeMod.exe is known to exist and the prefix is
      chosen. */
  function LaunchSpec(o: Oracle, s: State, exe: string, gameCmd: seq<string>, prefix: string,
                      protonMode: bool): (r: (State, Status))
    requires protonMode ==> |gameCmd| > 0
  {
    var s1 := if protonMode then PrepSpec(o, s, prefix, gameCmd, protonMode).0 else s;
    var c := WeModCommandFor(o, s1, exe, gameCmd, map["WINEPREFIX" := prefix], protonMode);
    StartSpec(o, s1, gameCmd, c, protonMode)
  }

  /** What `Run` does after preparing the prefix: WeMod alone, or the game
      with WeMod. */
  function StartSpec(o: Oracle, s: State, gameCmd: seq<string>, c: WeModCommand, protonMode: bool): (r: (State, Status))
  {
    if gameCmd == [] then
      var (s1, w) := StartWeModSpec(o, s, c);
      (s1, if w.Failure? then Fail("start wemod: " + w.msg) else Ok)
    else GameSpec(o, s, gameCmd, c, protonMode)
  }

  /** The game part of `Run`: validate and start the game, then start WeMod
      (after a pause in Proton mode), then wait for the game. In direct mode
      a WeMod failure kills the game and is returned; in Proton mode it is
      only logged. The game's own exit status is never returned. */
  function GameSpec(o: Oracle, s: State, gameCmd: seq<string>, c: WeModCommand, protonMode: bool): (r: (State, Status))
    requires |gameCmd| > 0
  {
    var v := ValidateCommand(o, s, gameCmd[0]);
    if v.Fail? then (s, v) else StartGameSpec(o, s, gameCmd, c, protonMode)
  }

  /** The game part after validation. */
  function StartGameSpec(o: Oracle, s: State, gameCmd: seq<string>, c: WeModCommand, protonMode: bool): (r: (State, Status))
    requires |gameCmd| > 0
  {
    var (s1, game) := Spawn(o, s, gameCmd[0], gameCmd[1..], map[]);
    if game.Failure? then (s1, Fail("start game: " + game.msg))
    else if protonMode then
      var s2 := Step(o, s1, Slept(2)).0;
      var s3 := RecoverySpec(o, s2, c).0;
      (Step(o, s3, Waited(game.value)).0, Ok)
    else
      var (s2, w) := RecoverySpec(o, s1, c);
      if w.Failure? then (Step(o, s2, Killed(game.value)).0, Fail("start wemod: " + w.msg))
      else (Step(o, s2, Waited(game.value)).0, Ok)
  }

  /** Effect of `Run`: `answer` is the line typed at the setup prompt and
      `env` the process environment. */
  function RunSpec(o: Oracle, s: State, cfg: Config, answer: Result<string>,
                   env: map<string, string>, args: seq<string>): (r: (State, Status))
  {
    match Classify(args)
    case Failure(m) => (s, Fail(m))
    case Success(c) =>
      if !Exists(o, s, cfg.weModExePath) then (s, MissingWeModError(cfg, answer))
      else
        var (prefix, protonMode) := ResolveWeModPrefix(cfg.prefixDir, env, c.command);
        LaunchSpec(o, s, cfg.weModExePath, c.command, prefix, protonMode)
  }

  method Run(h: Host, cfg: Config, answer: Result<string>, env: map<string, string>,
             args: seq<string>) returns (st: Status)
    modifies h
    ensures (h.state, st) == RunSpec(h.oracle, old(h.state), cfg, answer, env, args)
  {
    var parsed := ParseGameCommandArgs(args);
    if parsed.Failure? {
      return Fail(parsed.msg);
    }
    var gameCmd := parsed.value.command;
    var found := h.Stat(cfg.weModExePath);
    if !found {
      if cfg.interactive {
        var ok := AskYesNo(answer);
        if ok.Failure? {
          return Fail(ok.msg);
        }
        if ok.value {
          return Fail("WeMod executable missing at " + cfg.weModExePath + "; run: wemod-launcher setup");
        }
      }
      return Fail("WeMod executable missing at " + cfg.weModExePath);
    }

    var (wemodPrefix, protonMode) := ResolveWeModPrefix(cfg.prefixDir, env, gameCmd);
    var wenv := map["WINEPREFIX" := wemodPrefix];
    if protonMode {
      var _ := EnsurePrefixRuntime(h, wemodPrefix, gameCmd, protonMode);
    }

    if |gameCmd| == 0 {
      var w := StartWeModProcess(h, cfg.weModExePath, gameCmd, wenv, protonMode);
      if w.Failure? {
        return Fail("start wemod: " + w.msg);
      }
      return Ok;
    }

    st := RunGame(h, cfg.weModExePath, gameCmd, wenv, protonMode);
  }

  /** The game part of `Run`, once the prefix is prepared. */
  method RunGame(h: Host, exe: string, gameCmd: seq<string>, wenv: map<string, string>,
                 protonMode: bool) returns (st: Status)
    requires |gameCmd| > 0
    modifies h
    ensures (h.state, st) == GameSpec(h.oracle, old(h.state), gameCmd,
                                      WeModCommandFor(h.oracle, old(h.state), exe, gameCmd, wenv, protonMode), protonMode)
  {
    var valid := ValidateCommand(h.oracle, h.state, gameCmd[0]);
    if valid.Fail? {
      return valid;
    }
    ghost var s1 := h.state;
    var game := h.Start(gameCmd[0], gameCmd[1..], map[]);
    if game.Failure? {
      return Fail("start game: " + game.msg);
    }
    if protonMode {
      var _ := h.Do(Slept(2));
      assert Touch(h.state.files, Slept(2)) == h.state.files;
      SameFilesSameCommand(h.oracle, s1, h.state, exe, gameCmd, wenv, protonMode);
      var _ := StartWeModProcessWithRecovery(h, exe, gameCmd, wenv, protonMode);
    } else {
      SameFilesSameCommand(h.oracle, s1, h.state, exe, gameCmd, wenv, protonMode);
      var w := StartWeModProcessWithRecovery(h, exe, gameCmd, wenv, protonMode);
      if w.Failure? {
        var _ := h.Do(Killed(game.value));
        return Fail("start wemod: " + w.msg);
      }
    }
    var _ := h.Do(Waited(game.value));
    return Ok;
  }

  /** The game part: a command that fails validation does nothing; otherwise
      the game is started first; a failed game start is returned. Once the
      game runs, Proton mode pauses, starts WeMod and waits for the game
      whatever WeMod did; direct mode waits for the game only when WeMod
      started, and otherwise kills the game and returns the WeMod error. The
      game's exit status is never returned, and nothing is installed here. */
  lemma GameShape(o: Oracle, s: State, gameCmd: seq<string>, c: WeModCommand, protonMode: bool)
    requires |gameCmd| > 0 && c.boot != "winetricks"
    ensures var (s', st) := GameSpec(o, s, gameCmd, c, protonMode);
      var v := ValidateCommand(o, s, gameCmd[0]);
      var g := Started(gameCmd[0], gameCmd[1..], map[]);
      var pid := |s.trace|;
      && s.trace <= s'.trace
      && (v.Fail? ==> s' == s && st == v)
      && (v.Ok? ==> |Since(s, s')| >= 1 && Since(s, s')[0] == g)
      && (v.Ok? && o.outcome(s.trace, g).Fail? ==>
            Since(s, s') == [g] && st == Fail("start game: " + StartError(gameCmd[0], o.outcome(s.trace, g).msg)))
      && (v.Ok? && o.outcome(s.trace, g).Ok? ==>
            && |Since(s, s')| >= 2
            && (protonMode ==> st == Ok && Since(s, s')[1] == Slept(2) && s'.trace[|s'.trace| - 1] == Waited(pid))
            && (!protonMode ==> ((st.Ok? <==> s'.trace[|s'.trace| - 1] == Waited(pid))
                                 && (st.Fail? <==> s'.trace[|s'.trace| - 1] == Killed(pid)))))
  {
    var (s', st) := GameSpec(o, s, gameCmd, c, protonMode);
    var v := ValidateCommand(o, s, gameCmd[0]);
    var g := Started(gameCmd[0], gameCmd[1..], map[]);
    if v.Ok? {
      assert (s', st) == StartGameSpec(o, s, gameCmd, c, protonMode);
      if o.outcome(s.trace, g).Fail? {
        assert Since(s, s') == [g];
      } else if protonMode {
        GameProton(o, s, gameCmd, c);
      } else {
        GameDirect(o, s, gameCmd, c);
      }
    }
  }

  /** Which effects the game part may perform: no dependency query and no
      winetricks; a kill only in direct mode, of the game, when WeMod could
      not be started; a wait only for the game, in a launch that succeeds.
      A failure is a validation error or a start error. */
  lemma GameEffects(o: Oracle, s: State, gameCmd: seq<string>, c: WeModCommand, protonMode: bool)
    requires |gameCmd| > 0 && c.boot != "winetricks"
    ensures var (s', st) := GameSpec(o, s, gameCmd, c, protonMode);
      var pid := |s.trace|;
      && s.trace <= s'.trace
      && (forall e :: e in Since(s, s') ==> !e.Queried? && !(e.Ran? && e.program == "winetricks"))
      && (forall e :: e in Since(s, s') && e.Killed? ==> !protonMode && st.Fail? && HasPrefix(st.msg, "start wemod: ") && e.pid == pid)
      && (forall e :: e in Since(s, s') && e.Waited? ==> st.Ok? && e.pid == pid)
      && (st.Fail? ==> HasPrefix(st.msg, "game command ") || HasPrefix(st.msg, "start game: ") || HasPrefix(st.msg, "start wemod: "))
  {
    var v := ValidateCommand(o, s, gameCmd[0]);
    if v.Ok? {
      assert GameSpec(o, s, gameCmd, c, protonMode) == StartGameSpec(o, s, gameCmd, c, protonMode);
      StartGameEffects(o, s, gameCmd, c, protonMode);
    } else {
      assert GameSpec(o, s, gameCmd, c, protonMode) == (s, v);
      assert HasPrefix(v.msg, "game command ");
    }
  }

  lemma StartGameEffects(o: Oracle, s: State, gameCmd: seq<string>, c: WeModCommand, protonMode: bool)
    requires |gameCmd| > 0 && c.boot != "winetricks"
    ensures var (s', st) := StartGameSpec(o, s, gameCmd, c, protonMode);
      var pid := |s.trace|;
      && s.trace <= s'.trace
      && (forall e :: e in Since(s, s') ==> !e.Queried? && !(e.Ran? && e.program == "winetricks"))
      && (forall e :: e in Since(s, s') && e.Killed? ==> !protonMode && st.Fail? && HasPrefix(st.msg, "start wemod: ") && e.pid == pid)
      && (forall e :: e in Since(s, s') && e.Waited? ==> st.Ok? && e.pid == pid)
      && (st.Fail? ==> HasPrefix(st.msg, "start game: ") || HasPrefix(st.msg, "start wemod: "))
  {
    var g := Started(gameCmd[0], gameCmd[1..], map[]);
    if o.outcome(s.trace, g).Fail? {
      var s' := StartGameSpec(o, s, gameCmd, c, protonMode).0;
      assert Since(s, s') == [g];
    } else if protonMode {
      GameProton(o, s, gameCmd, c);
    } else {
      GameDirect(o, s, gameCmd, c);
    }
  }

  lemma GameProton(o: Oracle, s: State, gameCmd: seq<string>, c: WeModCommand)
    requires |gameCmd| > 0 && c.boot != "winetricks"
    requires o.outcome(s.trace, Started(gameCmd[0], gameCmd[1..], map[])).Ok?
    ensures var (s', st) := StartGameSpec(o, s, gameCmd, c, true);
      var g := Started(gameCmd[0], gameCmd[1..], map[]);
      var pid := |s.trace|;
      && s.trace <= s'.trace && |Since(s, s')| >= 2
      && st == Ok && Since(s, s')[0] == g && Since(s, s')[1] == Slept(2)
      && s'.trace[|s'.trace| - 1] == Waited(pid)
      && (forall e :: e in Since(s, s') ==>
            !e.Queried? && !(e.Ran? && e.program == "winetricks") && !e.Killed? && (e.Waited? ==> e.pid == pid))
  {
    var g := Started(gameCmd[0], gameCmd[1..], map[]);
    var pid := |s.trace|;
    var mid := ProtonRun(o, s, gameCmd, c);
    var all := [g, Slept(2)] + mid + [Waited(pid)];
    assert all[0] == g && all[1] == Slept(2) && all[|all| - 1] == Waited(pid);
    ProtonEffectsClean(g, mid, pid, c);
  }

  /** The Proton game part as a trace: the game, the pause, the recovery
      effects, the wait. */
  lemma ProtonRun(o: Oracle, s: State, gameCmd: seq<string>, c: WeModCommand) returns (mid: seq<Effect>)
    requires |gameCmd| > 0
    requires o.outcome(s.trace, Started(gameCmd[0], gameCmd[1..], map[])).Ok?
    ensures var (s', st) := StartGameSpec(o, s, gameCmd, c, true);
      && st == Ok && s.trace <= s'.trace
      && Since(s, s') == [Started(gameCmd[0], gameCmd[1..], map[]), Slept(2)] + mid + [Waited(|s.trace|)]
      && forall e :: e in mid ==> e == WeModStart(c) || e == WineBootRun(c) || e == Slept(2)
  {
    var g := Started(gameCmd[0], gameCmd[1..], map[]);
    var pid := |s.trace|;
    var s1 := Spawn(o, s, gameCmd[0], gameCmd[1..], map[]).0;
    var s2 := Step(o, s1, Slept(2)).0;
    RecoveryShape(o, s2, c);
    var s3 := RecoverySpec(o, s2, c).0;
    var s4 := Step(o, s3, Waited(pid)).0;
    assert StartGameSpec(o, s, gameCmd, c, true) == (s4, Ok);
    mid := Since(s2, s3);
    assert s4.trace == s.trace + ([g, Slept(2)] + mid + [Waited(pid)]);
  }

  lemma ProtonEffectsClean(g: Effect, mid: seq<Effect>, pid: nat, c: WeModCommand)
    requires g.Started? && c.boot != "winetricks"
    requires forall e :: e in mid ==> e == WeModStart(c) || e == WineBootRun(c) || e == Slept(2)
    ensures forall e :: e in [g, Slept(2)] + mid + [Waited(pid)] ==>
              !e.Queried? && !(e.Ran? && e.program == "winetricks") && !e.Killed? && (e.Waited? ==> e.pid == pid)
  {
  }

  lemma GameDirect(o: Oracle, s: State, gameCmd: seq<string>, c: WeModCommand)
    requires |gameCmd| > 0 && c.boot != "winetricks"
    requires o.outcome(s.trace, Started(gameCmd[0], gameCmd[1..], map[])).Ok?
    ensures var (s', st) := StartGameSpec(o, s, gameCmd, c, false);
      var g := Started(gameCmd[0], gameCmd[1..], map[]);
      var pid := |s.trace|;
      && s.trace <= s'.trace && |Since(s, s')| >= 2 && Since(s, s')[0] == g
      && (st.Ok? <==> s'.trace[|s'.trace| - 1] == Waited(pid))
      && (st.Fail? <==> s'.trace[|s'.trace| - 1] == Killed(pid))
      && (st.Fail? ==> HasPrefix(st.msg, "start wemod: "))
      && (forall e :: e in Since(s, s') ==> !e.Queried? && !(e.Ran? && e.program == "winetricks"))
      && (forall e :: e in Since(s, s') && e.Killed? ==> st.Fail? && e.pid == pid)
      && (forall e :: e in Since(s, s') && e.Waited? ==> st.Ok? && e.pid == pid)
  {
    var g := Started(gameCmd[0], gameCmd[1..], map[]);
    var pid := |s.trace|;
    var s1 := Spawn(o, s, gameCmd[0], gameCmd[1..], map[]).0;
    RecoveryShape(o, s1, c);
    var (s2, w) := RecoverySpec(o, s1, c);
    var last := if w.Failure? then Killed(pid) else Waited(pid);
    var s3 := Step(o, s2, last).0;
    assert StartGameSpec(o, s, gameCmd, c, false) == (s3, if w.Failure? then Fail("start wemod: " + w.msg) else Ok);
    var mid := Since(s1, s2);
    assert s3.trace == s.trace + [g] + mid + [last];
    var all := Since(s, s3);
    assert all == [g] + mid + [last];
    forall e | e in all
      ensures (!e.Queried? && !(e.Ran? && e.program == "winetricks") && !e.Killed? && !e.Waited?)
              || e == last
    {
      if e in mid {
        assert e == WeModStart(c) || e == WineBootRun(c) || e == Slept(2);
      }
    }
  }

  /** A launch with no game command starts WeMod under the system wine in the
      configured prefix, once, and does nothing else. */
  lemma RunStandalone(o: Oracle, s: State, cfg: Config, answer: Result<string>,
                      env: map<string, string>, args: seq<string>)
    requires Normalized(args) == [] && Exists(o, s, cfg.weModExePath)
    ensures var (s', st) := RunSpec(o, s, cfg, answer, env, args);
      var w := Started("wine", [cfg.weModExePath], map["WINEPREFIX" := cfg.prefixDir]);
      && s.trace <= s'.trace && Since(s, s') == [w]
      && (st.Ok? <==> o.outcome(s.trace, w).Ok?)
      && (st.Fail? ==> st.msg == "start wemod: " + StartError("wine", o.outcome(s.trace, w).msg))
  {
    assert ProtonVerbIndex([]) == -1;
  }

  /** `Run` gives up before doing anything on a refused command line and on a
      missing WeMod.exe. */
  lemma RunRejectsWithoutEffects(o: Oracle, s: State, cfg: Config, answer: Result<string>,
                                 env: map<string, string>, args: seq<string>)
    ensures var (s', st) := RunSpec(o, s, cfg, answer, env, args);
      && (Classify(args).Failure? ==> s' == s && st == Fail(WindowsExeError))
      && (Classify(args).Success? && !Exists(o, s, cfg.weModExePath) ==>
            (s' == s && st.Fail?
             && (HasPrefix(st.msg, "WeMod executable missing at " + cfg.weModExePath)
                 || (cfg.interactive && answer.Failure? && st.msg == "read prompt input: " + answer.msg))))
  {
    ClassifyDecision(args);
  }

  /** The mode `Run` takes for a command line. */
  predicate ProtonModeFor(cfg: Config, env: map<string, string>, args: seq<string>) {
    Classify(args).Success? && ResolveWeModPrefix(cfg.prefixDir, env, Classify(args).value.command).1
  }

  /** Across a whole launch: winetricks runs only in Proton mode; the game is
      killed only in direct mode and only to report a WeMod start failure;
      and a launch that waited for the game reports success. */
  lemma RunModes(o: Oracle, s: State, cfg: Config, answer: Result<string>,
                 env: map<string, string>, args: seq<string>)
    ensures var (s', st) := RunSpec(o, s, cfg, answer, env, args);
      && s.trace <= s'.trace
      && (forall e :: e in Since(s, s') && (e.Queried? || (e.Ran? && e.program == "winetricks")) ==> ProtonModeFor(cfg, env, args))
      && (forall e :: e in Since(s, s') && e.Killed? ==> !ProtonModeFor(cfg, env, args) && st.Fail? && HasPrefix(st.msg, "start wemod: "))
      && (forall e :: e in Since(s, s') && e.Waited? ==> st == Ok)
  {
    if Classify(args).Success? && Exists(o, s, cfg.weModExePath) {
      var c := Classify(args).value.command;
      var (prefix, protonMode) := ResolveWeModPrefix(cfg.prefixDir, env, c);
      LaunchModes(o, s, cfg.weModExePath, c, prefix, protonMode);
    }
  }

  lemma LaunchModes(o: Oracle, s: State, exe: string, gameCmd: seq<string>, prefix: string, protonMode: bool)
    requires protonMode ==> |gameCmd| > 0
    ensures var (s', st) := LaunchSpec(o, s, exe, gameCmd, prefix, protonMode);
      && s.trace <= s'.trace
      && (forall e :: e in Since(s, s') && (e.Queried? || (e.Ran? && e.program == "winetricks")) ==> protonMode)
      && (forall e :: e in Since(s, s') && e.Killed? ==> !protonMode && st.Fail? && HasPrefix(st.msg, "start wemod: "))
      && (forall e :: e in Since(s, s') && e.Waited? ==> st == Ok)
  {
    var s1 := if protonMode then PrepSpec(o, s, prefix, gameCmd, protonMode).0 else s;
    var c := WeModCommandFor(o, s1, exe, gameCmd, map["WINEPREFIX" := prefix], protonMode);
    var marker := MarkerPath(prefix);
    if protonMode {
      PrepEffects(o, s, prefix, gameCmd, protonMode);
    }
    StartModes(o, s1, gameCmd, c, protonMode);
    var (s2, st) := StartSpec(o, s1, gameCmd, c, protonMode);
    CombineModes(s, s1, s2, st, protonMode, marker);
  }

  lemma CombineModes(s: State, s1: State, s2: State, st: Status, protonMode: bool, marker: string)
    requires s.trace <= s1.trace && s1.trace <= s2.trace
    requires forall e :: e in Since(s, s1) ==> protonMode && IsPrepEffect(e, marker)
    requires forall e :: e in Since(s1, s2) ==> !e.Queried? && !(e.Ran? && e.program == "winetricks")
    requires forall e :: e in Since(s1, s2) && e.Killed? ==> !protonMode && st.Fail? && HasPrefix(st.msg, "start wemod: ")
    requires forall e :: e in Since(s1, s2) && e.Waited? ==> st == Ok
    ensures s.trace <= s2.trace
    ensures forall e :: e in Since(s, s2) && (e.Queried? || (e.Ran? && e.program == "winetricks")) ==> protonMode
    ensures forall e :: e in Since(s, s2) && e.Killed? ==> !protonMode && st.Fail? && HasPrefix(st.msg, "start wemod: ")
    ensures forall e :: e in Since(s, s2) && e.Waited? ==> st == Ok
  {
    assert Since(s, s2) == Since(s, s1) + Since(s1, s2);
  }

  lemma StartModes(o: Oracle, s: State, gameCmd: seq<string>, c: WeModCommand, protonMode: bool)
    requires c.boot != "winetricks"
    ensures var (s', st) := StartSpec(o, s, gameCmd, c, protonMode);
      && s.trace <= s'.trace
      && (forall e :: e in Since(s, s') ==> !e.Queried? && !(e.Ran? && e.program == "winetricks"))
      && (forall e :: e in Since(s, s') && e.Killed? ==> !protonMode && st.Fail? && HasPrefix(st.msg, "start wemod: "))
      && (forall e :: e in Since(s, s') && e.Waited? ==> st == Ok)
  {
    if gameCmd == [] {
      var s1 := StartWeModSpec(o, s, c).0;
      assert Since(s, s1) == [WeModStart(c)];
    } else {
      GameEffects(o, s, gameCmd, c, protonMode);
    }
  }
}
