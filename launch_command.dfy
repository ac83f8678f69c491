/** The pure decisions of internal/launch/launch.go: how the incoming argument
    list is classified (direct game command, Proton-wrapped command, or a bare
    Windows executable that is refused), which wine prefix WeMod shares with
    the game, which wine binaries are used, and the environment given to
    winetricks. */
module LaunchCommand {
  import opened Common
  import opened Text

  const WaitVerb := "waitforexitandrun"
  const RunVerb := "run"
  const ProtonNote := "detected Proton launch command"
  const DirectNote := "using direct game command"
  const WindowsExeError := "invalid game command: got a Windows executable without Proton/Wine wrapper; use Steam %command% unchanged or pass a Linux/Proton command"

  /** A successful classification: the game command (empty when WeMod is to
      run on its own) and the note that is logged. */
  datatype Classification = Classification(command: seq<string>, note: string)

  // ----- indexOf and protonVerbIndex -----

  /** The index of the first `needle` in `items`, or -1. */
  function FirstIndex(items: seq<string>, needle: string): (r: int)
    ensures -1 <= r < |items|
    ensures r == -1 <==> needle !in items
    ensures r >= 0 ==> items[r] == needle && needle !in items[..r]
    decreases |items|
  {
    if items == [] then -1
    else if items[0] == needle then 0
    else
      var k := FirstIndex(items[1..], needle);
      assert k >= 0 ==> items[..k + 1] == [items[0]] + items[1..][..k];
      if k == -1 then -1 else k + 1
  }

  /** An index holding `needle` with no `needle` before it is the first index. */
  lemma FirstIndexUnique(items: seq<string>, needle: string, i: int)
    requires 0 <= i < |items| && items[i] == needle && needle !in items[..i]
    ensures FirstIndex(items, needle) == i
  {
  }

  /** Go's `indexOf`: a linear scan. */
  method IndexOf(items: seq<string>, needle: string) returns (r: int)
    ensures r == FirstIndex(items, needle)
  {
    var i := 0;
    while i < |items|
      invariant 0 <= i <= |items|
      invariant needle !in items[..i]
    {
      if items[i] == needle {
        FirstIndexUnique(items, needle, i);
        return i;
      }
      assert items[..i + 1] == items[..i] + [items[i]];
      i := i + 1;
    }
    assert items[..i] == items;
    return -1;
  }

  /** The position of the Proton verb: the first "waitforexitandrun" wins,
      even over an earlier "run"; otherwise the first "run"; otherwise -1. */
  function ProtonVerbIndex(args: seq<string>): (r: int)
    ensures -1 <= r < |args|
    ensures r == -1 <==> WaitVerb !in args && RunVerb !in args
    ensures WaitVerb in args ==> args[r] == WaitVerb && WaitVerb !in args[..r]
    ensures WaitVerb !in args && r >= 0 ==> args[r] == RunVerb && RunVerb !in args[..r]
  {
    var w := FirstIndex(args, WaitVerb);
    if w >= 0 then w else FirstIndex(args, RunVerb)
  }

  /** The token just before the verb names a Proton wrapper (its lower-cased
      base name contains "proton"). */
  predicate IsProtonCommand(cmd: seq<string>) {
    var i := ProtonVerbIndex(cmd);
    i > 0 && Contains(ToLower(Base(cmd[i - 1])), "proton")
  }

  /** The checks of `looksLikeWindowsExecutable`; the drive marker is a colon
      followed by two backslashes, exactly as the Go raw string `:\\` reads. */
  predicate LooksLikeWindowsExecutable(value: string) {
    var lower := ToLower(TrimSpace(value));
    HasSuffix(lower, ".exe") || Contains(lower, ":\\\\") || Contains(lower, ":/")
  }

  // ----- parseGameCommandArgs -----

  /** How many "launch" tokens the argument list starts with. */
  function LeadingLaunchCount(args: seq<string>): (n: nat)
    ensures n <= |args|
    ensures forall k :: 0 <= k < n ==> args[k] == "launch"
    ensures n < |args| ==> args[n] != "launch"
    decreases |args|
  {
    if args != [] && args[0] == "launch" then 1 + LeadingLaunchCount(args[1..]) else 0
  }

  /** The argument list after the leading "launch" tokens and then one "--"
      are dropped. */
  function Normalized(args: seq<string>): (r: seq<string>)
    ensures |r| <= |args|
  {
    var rest := args[LeadingLaunchCount(args)..];
    if |rest| > 0 && rest[0] == "--" then rest[1..] else rest
  }

  /** Normalizing only drops leading tokens. */
  lemma NormalizedIsSuffix(args: seq<string>)
    ensures var n := Normalized(args); n == args[|args| - |n|..]
  {
    var k := LeadingLaunchCount(args);
    var rest := args[k..];
    if |rest| > 0 && rest[0] == "--" {
      assert rest[1..] == args[k + 1..];
    }
  }

  /** The decision `parseGameCommandArgs` takes on the normalized list. */
  function Decide(n: seq<string>): Result<Classification> {
    if n == [] then Success(Classification([], ""))
    else
      var i := ProtonVerbIndex(n);
      if i > 0 && Contains(ToLower(Base(n[i - 1])), "proton") then
        Success(Classification(n[i - 1..], ProtonNote))
      else if LooksLikeWindowsExecutable(n[0]) then Failure(WindowsExeError)
      else Success(Classification(n, DirectNote))
  }

  /** The classification `parseGameCommandArgs` computes. */
  function Classify(args: seq<string>): Result<Classification> {
    Decide(Normalized(args))
  }

  /** Go's `parseGameCommandArgs`: the stripping loop, then the decision. */
  method ParseGameCommandArgs(args: seq<string>) returns (r: Result<Classification>)
    ensures r == Classify(args)
  {
    if |args| == 0 {
      return Success(Classification([], ""));
    }
    ghost var lead := LeadingLaunchCount(args);
    var normalized: seq<string> := [];
    var i := 0;
    while i < |args|
      invariant 0 <= i <= |args|
      invariant i <= lead ==> normalized == []
      invariant i > lead ==> normalized == args[lead..i]
    {
      if args[i] == "launch" && |normalized| == 0 {
        i := i + 1;
        continue;
      }
      normalized := normalized + [args[i]];
      i := i + 1;
    }
    assert normalized == args[lead..];
    if |normalized| > 0 && normalized[0] == "--" {
      normalized := normalized[1..];
    }
    return Decide(normalized);
  }

  // ----- properties of the classification -----

  /** Dropping the prefix up to a first occurrence shifts the index. */
  lemma FirstIndexSuffix(s: seq<string>, needle: string, j: nat)
    requires j <= |s| && needle !in s[..j]
    ensures FirstIndex(s[j..], needle) == if FirstIndex(s, needle) == -1 then -1 else FirstIndex(s, needle) - j
  {
    var p := FirstIndex(s, needle);
    if p == -1 {
      assert forall x :: x in s[j..] ==> x in s;
    } else {
      assert s[j..][p - j] == needle;
      assert s[j..][..p - j] == s[j..p];
      assert forall x :: x in s[j..p] ==> x in s[..p];
      FirstIndexUnique(s[j..], needle, p - j);
    }
  }

  /** The command a Proton classification returns starts with the wrapper,
      and the verb is right behind it. */
  lemma ProtonSuffixIsProton(n: seq<string>)
    requires IsProtonCommand(n)
    ensures var c := n[ProtonVerbIndex(n) - 1..]; ProtonVerbIndex(c) == 1 && IsProtonCommand(c)
  {
    var i := ProtonVerbIndex(n);
    var c := n[i - 1..];
    if WaitVerb in n {
      assert n[i - 1] != WaitVerb by { assert n[..i][i - 1] == n[i - 1]; }
      assert WaitVerb !in n[..i - 1] by { assert forall x :: x in n[..i - 1] ==> x in n[..i]; }
      FirstIndexSuffix(n, WaitVerb, i - 1);
    } else {
      assert WaitVerb !in c by { assert forall x :: x in c ==> x in n; }
      assert n[i - 1] != RunVerb by { assert n[..i][i - 1] == n[i - 1]; }
      assert RunVerb !in n[..i - 1] by { assert forall x :: x in n[..i - 1] ==> x in n[..i]; }
      FirstIndexSuffix(n, RunVerb, i - 1);
      FirstIndexSuffix(n, WaitVerb, i - 1);
    }
    assert c[0] == n[i - 1];
  }

  /** What each note promises about the returned command: the empty note
      comes with the empty command, the Proton note with a command that
      `isProtonCommand` accepts (its verb at index 1) and the direct note with
      one it rejects and whose program is not a bare Windows executable. */
  lemma ClassificationLabels(args: seq<string>)
    requires Classify(args).Success?
    ensures var c := Classify(args).value;
      && (c.note == "" <==> c.command == [])
      && (c.note == ProtonNote ==> IsProtonCommand(c.command) && ProtonVerbIndex(c.command) == 1)
      && (c.note == DirectNote ==> !IsProtonCommand(c.command) && !LooksLikeWindowsExecutable(c.command[0]))
      && (c.note == "" || c.note == ProtonNote || c.note == DirectNote)
  {
    var n := Normalized(args);
    if n != [] && IsProtonCommand(n) {
      ProtonSuffixIsProton(n);
    }
  }

  /** Classification only drops leading tokens: the command is always a
      suffix of the argument list. */
  lemma ClassifiedCommandIsSuffix(args: seq<string>)
    requires Classify(args).Success?
    ensures var c := Classify(args).value.command; |c| <= |args| && c == args[|args| - |c|..]
  {
    var n := Normalized(args);
    var d := Decide(n);
    NormalizedIsSuffix(args);
    DecideKeepsSuffix(n);
    SuffixOfSuffix(args, n, d.value.command);
    assert Classify(args) == d;
  }

  lemma DecideKeepsSuffix(n: seq<string>)
    requires Decide(n).Success?
    ensures var c := Decide(n).value.command; |c| <= |n| && c == n[|n| - |c|..]
  {
    var c := Decide(n).value.command;
    if n != [] {
      var i := ProtonVerbIndex(n);
      if i > 0 && Contains(ToLower(Base(n[i - 1])), "proton") {
        assert c == n[i - 1..];
        assert |n| - |c| == i - 1;
      } else {
        assert c == n;
        assert n[0..] == n;
      }
    }
  }

  /** A suffix of a suffix is a suffix. */
  lemma SuffixOfSuffix(a: seq<string>, n: seq<string>, c: seq<string>)
    requires |n| <= |a| && n == a[|a| - |n|..]
    requires |c| <= |n| && c == n[|n| - |c|..]
    ensures c == a[|a| - |c|..]
  {
    assert n[|n| - |c|..] == a[|a| - |c|..];
  }

  /** The Proton note is given exactly when the normalized list is a Proton
      command, and a refusal happens exactly when it is not one and its first
      token looks like a Windows executable. */
  lemma ClassifyDecision(args: seq<string>)
    ensures var n := Normalized(args);
      && ((Classify(args).Success? && Classify(args).value.note == ProtonNote) <==> (n != [] && IsProtonCommand(n)))
      && (Classify(args).Failure? <==> (n != [] && !IsProtonCommand(n) && LooksLikeWindowsExecutable(n[0])))
      && (Classify(args).Failure? ==> Classify(args).msg == WindowsExeError)
  {
  }

  /** Leading "launch" tokens are all ignored, however many there are. */
  lemma {:induction false} LaunchTokensIgnored(args: seq<string>)
    ensures Normalized(["launch"] + args) == Normalized(args)
  {
    assert (["launch"] + args)[1..] == args;
    assert LeadingLaunchCount(["launch"] + args) == 1 + LeadingLaunchCount(args);
    assert (["launch"] + args)[1 + LeadingLaunchCount(args)..] == args[LeadingLaunchCount(args)..];
  }

  /** Only one "--" separator is dropped, and only when no token other than
      "launch" precedes it. */
  lemma OneSeparatorDropped(rest: seq<string>)
    ensures Normalized(["launch", "--", "--"] + rest) == ["--"] + rest
    ensures Normalized(["x", "--"] + rest) == ["x", "--"] + rest
  {
    assert (["launch", "--", "--"] + rest)[1..] == ["--", "--"] + rest;
    assert (["--", "--"] + rest)[1..] == ["--"] + rest;
    assert LeadingLaunchCount(["launch", "--", "--"] + rest) == 1;
  }

  /** A Steam launch through Proton keeps the wrapper, the verb and the game. */
  lemma ProtonScenario()
    ensures Classify(["launch", "--", "/home/u/game/proton", "waitforexitandrun", "/home/u/game/game.exe"])
         == Success(Classification(["/home/u/game/proton", "waitforexitandrun", "/home/u/game/game.exe"], ProtonNote))
  {
    var n := ["/home/u/game/proton", "waitforexitandrun", "/home/u/game/game.exe"];
    ProtonScenarioNormalized();
    assert n[..1] == ["/home/u/game/proton"];
    FirstIndexUnique(n, WaitVerb, 1);
    assert ProtonVerbIndex(n) == 1;
    ProtonWrapperName();
    assert n[0..] == n;
  }

  lemma ProtonScenarioNormalized()
    ensures Normalized(["launch", "--", "/home/u/game/proton", "waitforexitandrun", "/home/u/game/game.exe"])
         == ["/home/u/game/proton", "waitforexitandrun", "/home/u/game/game.exe"]
  {
    var args := ["launch", "--", "/home/u/game/proton", "waitforexitandrun", "/home/u/game/game.exe"];
    assert args[1..] == ["--", "/home/u/game/proton", "waitforexitandrun", "/home/u/game/game.exe"];
    assert LeadingLaunchCount(args[1..]) == 0;
    assert LeadingLaunchCount(args) == 1;
    assert args[2..] == ["/home/u/game/proton", "waitforexitandrun", "/home/u/game/game.exe"];
  }

  lemma ProtonWrapperName()
    ensures Contains(ToLower(Base("/home/u/game/proton")), "proton")
  {
    assert "/home/u/game/proton" == "/home/u/game" + "/" + "proton";
    BaseOf("/home/u/game", "proton");
    var l := ToLower("proton");
    forall i | 0 <= i < 6 ensures l[i] == "proton"[i] {
      assert !('A' <= "proton"[i] <= 'Z');
    }
    assert l[0..6] == l == "proton";
    assert At(l, "proton", 0);
  }

  /** A bare Windows path is refused. */
  lemma WindowsExeScenario()
    ensures Classify(["C:\\Games\\game.exe"]) == Failure(WindowsExeError)
  {
    var v := "C:\\Games\\game.exe";
    SingleTokenNormalized(v);
    assert ProtonVerbIndex([v]) == -1 by {
      assert WaitVerb !in [v] && RunVerb !in [v];
    }
    WindowsExeLooksLike();
    assert Decide([v]) == Failure(WindowsExeError);
  }

  /** A single token other than "launch" and "--" is kept as it is. */
  lemma SingleTokenNormalized(v: string)
    requires v != "launch" && v != "--"
    ensures Normalized([v]) == [v]
  {
    assert LeadingLaunchCount([v]) == 0;
    assert [v][0..] == [v];
  }

  lemma WindowsExeLooksLike()
    ensures LooksLikeWindowsExecutable("C:\\Games\\game.exe")
  {
    var v := "C:\\Games\\game.exe";
    assert TrimSpace(v) == v by { TrimSpaceKeeps(v); }
    LowerExeSuffix();
  }

  lemma LowerExeSuffix()
    ensures HasSuffix(ToLower("C:\\Games\\game.exe"), ".exe")
  {
    var v := "C:\\Games\\game.exe";
    var l := ToLower(v);
    forall i | |v| - 4 <= i < |v| ensures l[i] == v[i] {
      assert !('A' <= v[i] <= 'Z');
    }
    assert l[|l| - 4..] == v[|v| - 4..] == ".exe";
  }

  /** A Windows-style path without ".exe" and with a single backslash after the
      drive letter is taken as a direct command: the drive marker that is looked
      for is a colon and two backslashes. */
  lemma SingleBackslashDrivePathIsDirect()
    ensures Classify(["C:\\game"]) == Success(Classification(["C:\\game"], DirectNote))
  {
    var v := "C:\\game";
    assert Normalized([v]) == [v];
    assert !IsProtonCommand([v]) by {
      assert WaitVerb !in [v] && RunVerb !in [v];
    }
    SingleBackslashDrivePathAccepted();
  }

  lemma SingleBackslashDrivePathAccepted()
    ensures !LooksLikeWindowsExecutable("C:\\game")
  {
    var v := "C:\\game";
    assert TrimSpace(v) == v by { TrimSpaceKeeps(v); }
    LowerDrivePath();
    NoDriveMarker();
  }

  lemma LowerDrivePath()
    ensures ToLower("C:\\game") == "c:\\game"
  {
    var v := "C:\\game";
    var w := "c:\\game";
    assert LowerChar(v[0]) == w[0];
    forall i | 1 <= i < |v| ensures ToLower(v)[i] == w[i] {
      assert !('A' <= v[i] <= 'Z');
    }
  }

  lemma NoDriveMarker()
    ensures var lower := "c:\\game";
      !HasSuffix(lower, ".exe") && !Contains(lower, ":\\\\") && !Contains(lower, ":/")
  {
    var lower := "c:\\game";
    forall i | 0 <= i <= |lower| - 3 ensures !At(lower, ":\\\\", i) {
      if i == 1 { assert lower[i..i + 3][2] == 'g'; } else { assert lower[i..i + 3][0] == lower[i] != ':'; }
    }
    forall i | 0 <= i <= |lower| - 2 ensures !At(lower, ":/", i) {
      if i == 1 { assert lower[i..i + 2][1] == '\\'; } else { assert lower[i..i + 2][0] == lower[i] != ':'; }
    }
    assert lower[|lower| - 4..][0] == 'g';
  }

  // ----- resolveWeModPrefix -----

  /** `os.Getenv`: the empty string for an unset variable. */
  function Getenv(env: map<string, string>, key: string): string {
    if key in env then env[key] else ""
  }

  /** The prefix WeMod uses and whether Proton mode applies. In Proton mode
      the game's prefix from WINEPREFIX, else STEAM_COMPAT_DATA_PATH/pfx, is
      shared; blank values count as unset and lead back to the configured
      prefix. */
  function ResolveWeModPrefix(prefixDir: string, env: map<string, string>, gameCmd: seq<string>): (r: (string, bool))
    ensures !IsProtonCommand(gameCmd) ==> r == (prefixDir, false)
    ensures r.1 <==> IsProtonCommand(gameCmd)
                     && (!Blank(Getenv(env, "WINEPREFIX")) || !Blank(Getenv(env, "STEAM_COMPAT_DATA_PATH")))
    ensures !r.1 ==> r.0 == prefixDir
    ensures r.1 ==> r.0 != "" && TrimSpace(r.0) == r.0
    ensures r.1 && !Blank(Getenv(env, "WINEPREFIX")) ==> r.0 == TrimSpace(Getenv(env, "WINEPREFIX"))
    ensures r.1 && Blank(Getenv(env, "WINEPREFIX")) ==>
      r.0 == Join(TrimSpace(Getenv(env, "STEAM_COMPAT_DATA_PATH")), "pfx") && HasSuffix(r.0, "pfx")
  {
    if IsProtonCommand(gameCmd) then
      var w := TrimSpace(Getenv(env, "WINEPREFIX"));
      if w != "" then
        TrimSpaceIdempotent(Getenv(env, "WINEPREFIX"));
        (w, true)
      else
        var compat := TrimSpace(Getenv(env, "STEAM_COMPAT_DATA_PATH"));
        if compat != "" then
          var p := Join(compat, "pfx");
          TrimSpaceEnds(Getenv(env, "STEAM_COMPAT_DATA_PATH"));
          JoinPfxTrimmed(compat);
          (p, true)
        else (prefixDir, false)
    else (prefixDir, false)
  }

  /** The Proton prefix under a trimmed compatibility directory is trimmed. */
  lemma JoinPfxTrimmed(compat: string)
    requires compat != "" && !IsSpace(compat[0])
    ensures var p := Join(compat, "pfx"); p != "" && HasSuffix(p, "pfx") && TrimSpace(p) == p
  {
    var p := Join(compat, "pfx");
    var tail := if compat == "." then "" else if HasSuffix(compat, "/") then compat else compat + "/";
    assert p == tail + "pfx";
    assert p[|p| - 3..] == "pfx";
    assert tail != "" ==> tail[0] == compat[0];
    assert p[0] == compat[0] || p[0] == 'p';
    assert p[|p| - 1] == 'x';
    TrimSpaceKeeps(p);
  }

  // ----- wine binaries -----

  /** The first candidate that is an executable file, or "". */
  function FirstExecutable(candidates: seq<string>, executable: set<string>): (r: string)
    ensures r != "" ==> r in candidates && r in executable
    ensures r != "" ==> forall c :: c in candidates[..FirstIndex(candidates, r)] ==> c !in executable
    ensures (forall c :: c in candidates ==> c != "") ==> (r == "" <==> forall c :: c in candidates ==> c !in executable)
    decreases |candidates|
  {
    if candidates == [] then ""
    else if candidates[0] in executable then
      assert candidates[0] in candidates;
      candidates[0]
    else
      var r := FirstExecutable(candidates[1..], executable);
      assert candidates == [candidates[0]] + candidates[1..];
      assert forall c :: c in candidates[1..] ==> c in candidates;
      assert r != "" ==> candidates[..FirstIndex(candidates, r)] == [candidates[0]] + candidates[1..][..FirstIndex(candidates[1..], r)] by {
        if r != "" {
          FirstIndexSuffix(candidates, r, 1);
        }
      }
      r
  }

  /** `files/bin/wine` and `files/bin/wine64` next to the Proton script. */
  function ProtonWineCandidates(protonPath: string): seq<string> {
    var bin := Join(Join(Dir(protonPath), "files"), "bin");
    [Join(bin, "wine"), Join(bin, "wine64")]
  }

  /** What `resolveProtonWineBinary` returns. */
  function ProtonWine(protonPath: string, executable: set<string>): string {
    FirstExecutable(ProtonWineCandidates(protonPath), executable)
  }

  /** Go's `resolveProtonWineBinary`: the loop over the two candidates. */
  method ResolveProtonWineBinary(protonPath: string, executable: set<string>) returns (r: string)
    ensures r == ProtonWine(protonPath, executable)
  {
    var candidates := ProtonWineCandidates(protonPath);
    var i := 0;
    while i < |candidates|
      invariant 0 <= i <= |candidates|
      invariant FirstExecutable(candidates[i..], executable) == FirstExecutable(candidates, executable)
    {
      if candidates[i] in executable {
        return candidates[i];
      }
      assert candidates[i..][1..] == candidates[i + 1..];
      i := i + 1;
    }
    return "";
  }

  /** Go's `resolveProtonWineServerBinary`: the bundled `wineserver` beside the
      bundled wine when it is executable, else the system one. */
  function ProtonWineServer(protonWine: string, executable: set<string>): (r: string)
    ensures r == "wineserver" || (r == Join(Dir(protonWine), "wineserver") && r in executable)
    ensures Join(Dir(protonWine), "wineserver") in executable ==> r == Join(Dir(protonWine), "wineserver")
  {
    var candidate := Join(Dir(protonWine), "wineserver");
    if candidate in executable then candidate else "wineserver"
  }

  /** Go's `resolveWineBootBinary`: the bundled `wineboot` only in Proton mode,
      with a bundled wine whose directory holds an executable `wineboot`. */
  function WineBootBinary(gameCmd: seq<string>, protonMode: bool, executable: set<string>): (r: string)
    ensures !protonMode || gameCmd == [] ==> r == "wineboot"
    ensures r == "wineboot" || r in executable
    ensures HasSuffix(r, "wineboot")
  {
    if protonMode && |gameCmd| > 0 then
      var protonWine := ProtonWine(gameCmd[0], executable);
      if protonWine != "" then
        var candidate := Join(Dir(protonWine), "wineboot");
        JoinEndsWith(Dir(protonWine), "wineboot");
        if candidate in executable then candidate else "wineboot"
      else "wineboot"
    else "wineboot"
  }

  /** The program `startWeModProcess` runs WeMod with: Proton's bundled wine
      when in Proton mode and present, else the system `wine`. */
  function WeModWine(gameCmd: seq<string>, protonMode: bool, executable: set<string>): (r: string)
    requires protonMode ==> |gameCmd| > 0
    ensures !protonMode ==> r == "wine"
    ensures r == "wine" || (protonMode && r in executable && r in ProtonWineCandidates(gameCmd[0]))
    ensures protonMode && (exists c :: c in ProtonWineCandidates(gameCmd[0]) && c in executable) ==> r != "wine"
  {
    if protonMode then
      var protonWine := ProtonWine(gameCmd[0], executable);
      if protonWine != "" then protonWine else "wine"
    else "wine"
  }

  /** The three variable names are different strings. */
  lemma EnvKeysDistinct()
    ensures "WINEPREFIX" != "WINE" && "WINEPREFIX" != "WINESERVER" && "WINE" != "WINESERVER"
  {
    assert |"WINE"| == 4 && |"WINEPREFIX"| == 10;
    assert "WINEPREFIX"[4] == 'P' && "WINESERVER"[4] == 'S';
  }

  /** Go's `buildPrefixRuntimeEnv`: WINEPREFIX always; WINE and WINESERVER
      only in Proton mode with a bundled wine. */
  function BuildPrefixRuntimeEnv(prefixPath: string, gameCmd: seq<string>, protonMode: bool,
                                 executable: set<string>): (env: map<string, string>)
    ensures "WINEPREFIX" in env && env["WINEPREFIX"] == prefixPath
    ensures env.Keys == {"WINEPREFIX"} || env.Keys == {"WINEPREFIX", "WINE", "WINESERVER"}
  {
    var protonWine := if protonMode && |gameCmd| > 0 then ProtonWine(gameCmd[0], executable) else "";
    EnvKeysDistinct();
    if protonWine != "" then
      map["WINEPREFIX" := prefixPath, "WINE" := protonWine,
          "WINESERVER" := ProtonWineServer(protonWine, executable)]
    else map["WINEPREFIX" := prefixPath]
  }

  /** WINE is set exactly when Proton mode finds a bundled wine; it is then
      that executable, and WINESERVER is the server resolved beside it. */
  lemma RuntimeEnvWine(prefixPath: string, gameCmd: seq<string>, protonMode: bool, executable: set<string>)
    ensures var env := BuildPrefixRuntimeEnv(prefixPath, gameCmd, protonMode, executable);
      && ("WINE" in env <==> protonMode && |gameCmd| > 0 && ProtonWine(gameCmd[0], executable) != "")
      && ("WINE" in env ==> env["WINE"] in executable
                            && env["WINESERVER"] == ProtonWineServer(env["WINE"], executable))
  {
    var env := BuildPrefixRuntimeEnv(prefixPath, gameCmd, protonMode, executable);
    if protonMode && |gameCmd| > 0 && ProtonWine(gameCmd[0], executable) != "" {
      var w := ProtonWine(gameCmd[0], executable);
      assert env["WINE"] == w;
      assert w in executable;
    } else {
      EnvKeysDistinct();
      assert env == map["WINEPREFIX" := prefixPath];
    }
  }
}
