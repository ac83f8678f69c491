/** internal/doctor/doctor.go: the dependency check run by `doctor` and
    before `setup`. It looks up wine, wineserver and winetricks on PATH,
    creates the launcher's directories and, when asked to, fails on missing
    dependencies. */
module Doctor {
  import opened Common
  import opened Text
  import opened World
  import opened Winetricks
  import opened Settings

  const RequiredBinaries := ["wine", "wineserver", "winetricks"]

  /** `%v` of a list of strings: the items separated by spaces, in brackets. */
  function FormatList(xs: seq<string>): string {
    "[" + (if xs == [] then "" else JoinWith(xs, ' ')) + "]"
  }

  /** The loop over the required binaries (`RequiredBinaries` in `Run`):
      those that `exec.LookPath` does not find, in the order they are
      required. */
  method MissingDependencies(required: seq<string>, onPath: set<string>) returns (missing: seq<string>)
    ensures missing == Missing(required, onPath)
    ensures forall b :: b in missing <==> b in required && b !in onPath
  {
    missing := [];
    var i := 0;
    while i < |required|
      invariant 0 <= i <= |required|
      invariant missing + Missing(required[i..], onPath) == Missing(required, onPath)
    {
      MissingStep(required, i, onPath);
      if required[i] !in onPath {
        missing := missing + [required[i]];
      }
      i := i + 1;
    }
    assert required[i..] == [];
  }

  /** One step of the loop: the binary at `i` is missing or not, and the
      rest follow. */
  lemma MissingStep(required: seq<string>, i: nat, onPath: set<string>)
    requires i < |required|
    ensures Missing(required[i..], onPath)
         == (if required[i] in onPath then [] else [required[i]]) + Missing(required[i + 1..], onPath)
  {
    assert required[i..][1..] == required[i + 1..];
  }

  /** The verdict after the directories exist. */
  function Verdict(missing: seq<string>, failOnMissing: bool): (r: Status)
    ensures r.Fail? <==> failOnMissing && missing != []
  {
    if |missing| > 0 && failOnMissing then Fail("missing required dependencies: " + FormatList(missing))
    else Ok
  }

  /** Effect of `doctor.Run` on operating system `goos`. */
  function DoctorSpec(o: Oracle, s: State, goos: string, cfg: Config, failOnMissing: bool): (State, Status) {
    if goos != "linux" then (s, Fail("unsupported OS " + goos + ": Linux only"))
    else
      var missing := Missing(RequiredBinaries, o.onPath);
      var (s1, work) := Step(o, s, MadeDir(cfg.workDir));
      if work.Fail? then (s1, Fail("create work dir: " + work.msg))
      else
        var (s2, pfx) := Step(o, s1, MadeDir(cfg.prefixDir));
        if pfx.Fail? then (s2, Fail("create prefix dir: " + pfx.msg))
        else
          var (s3, dl) := Step(o, s2, MadeDir(cfg.downloadDir));
          if dl.Fail? then (s3, Fail("create download dir: " + dl.msg))
          else (s3, Verdict(missing, failOnMissing))
  }

  method Run(h: Host, goos: string, cfg: Config, failOnMissing: bool) returns (st: Status)
    modifies h
    ensures (h.state, st) == DoctorSpec(h.oracle, old(h.state), goos, cfg, failOnMissing)
  {
    if goos != "linux" {
      return Fail("unsupported OS " + goos + ": Linux only");
    }
    var missing := MissingDependencies(RequiredBinaries, h.oracle.onPath);
    var made := h.Do(MadeDir(cfg.workDir));
    if made.Fail? {
      return Fail("create work dir: " + made.msg);
    }
    made := h.Do(MadeDir(cfg.prefixDir));
    if made.Fail? {
      return Fail("create prefix dir: " + made.msg);
    }
    made := h.Do(MadeDir(cfg.downloadDir));
    if made.Fail? {
      return Fail("create download dir: " + made.msg);
    }
    if |missing| > 0 && failOnMissing {
      return Fail("missing required dependencies: " + FormatList(missing));
    }
    return Ok;
  }

  /** The three directories, in the order doctor creates them. */
  function DoctorDirs(cfg: Config): seq<Effect> {
    [MadeDir(cfg.workDir), MadeDir(cfg.prefixDir), MadeDir(cfg.downloadDir)]
  }

  /** What doctor does: off Linux it fails before anything else; on Linux it
      only creates the work, prefix and download directories, in that order,
      stopping at the first that fails with that error; once all three exist
      it fails exactly when asked to fail on missing dependencies and some of
      wine, wineserver and winetricks are not on PATH, naming them in order. */
  lemma DoctorShape(o: Oracle, s: State, goos: string, cfg: Config, failOnMissing: bool)
    ensures var (s', st) := DoctorSpec(o, s, goos, cfg, failOnMissing);
      var missing := Missing(RequiredBinaries, o.onPath);
      var k := |s'.trace| - |s.trace|;
      && s.trace <= s'.trace && 0 <= k <= 3
      && Since(s, s') == DoctorDirs(cfg)[..k]
      && (goos != "linux" ==> k == 0 && st == Fail("unsupported OS " + goos + ": Linux only"))
      && (goos == "linux" && k < 3 ==> st.Fail? && o.outcome(s'.trace[..|s'.trace| - 1], s'.trace[|s'.trace| - 1]).Fail?)
      && (goos == "linux" && k == 3 && AllDirsMade(o, s, s') ==>
            && (st.Fail? <==> failOnMissing && missing != [])
            && (st.Fail? ==> st.msg == "missing required dependencies: " + FormatList(missing)))
      && (st.Ok? ==> goos == "linux" && k == 3 && AllDirsMade(o, s, s'))
  {
    DoctorTrace(o, s, goos, cfg, failOnMissing);
    DoctorVerdict(o, s, goos, cfg, failOnMissing);
  }

  lemma DoctorTrace(o: Oracle, s: State, goos: string, cfg: Config, failOnMissing: bool)
    ensures var (s', st) := DoctorSpec(o, s, goos, cfg, failOnMissing);
      var k := |s'.trace| - |s.trace|;
      && s.trace <= s'.trace && 0 <= k <= 3
      && Since(s, s') == DoctorDirs(cfg)[..k]
      && (goos != "linux" ==> k == 0 && st == Fail("unsupported OS " + goos + ": Linux only"))
      && (goos == "linux" && k < 3 ==> st.Fail? && o.outcome(s'.trace[..|s'.trace| - 1], s'.trace[|s'.trace| - 1]).Fail?)
  {
    if goos == "linux" {
      var (s1, work) := Step(o, s, MadeDir(cfg.workDir));
      var (s2, pfx) := Step(o, s1, MadeDir(cfg.prefixDir));
      var (s3, dl) := Step(o, s2, MadeDir(cfg.downloadDir));
      if work.Fail? {
        assert DoctorSpec(o, s, goos, cfg, failOnMissing).0 == s1;
        assert Since(s, s1) == DoctorDirs(cfg)[..1];
        assert s1.trace[..|s1.trace| - 1] == s.trace;
      } else if pfx.Fail? {
        assert DoctorSpec(o, s, goos, cfg, failOnMissing).0 == s2;
        assert Since(s, s2) == DoctorDirs(cfg)[..2];
        assert s2.trace[..|s2.trace| - 1] == s1.trace;
      } else {
        assert DoctorSpec(o, s, goos, cfg, failOnMissing).0 == s3;
        assert Since(s, s3) == DoctorDirs(cfg)[..3];
        assert s3.trace[..|s3.trace| - 1] == s2.trace;
      }
    }
  }

  lemma DoctorVerdict(o: Oracle, s: State, goos: string, cfg: Config, failOnMissing: bool)
    ensures var (s', st) := DoctorSpec(o, s, goos, cfg, failOnMissing);
      var missing := Missing(RequiredBinaries, o.onPath);
      var k := |s'.trace| - |s.trace|;
      && s.trace <= s'.trace
      && (goos == "linux" && k == 3 && AllDirsMade(o, s, s') ==>
            && (st.Fail? <==> failOnMissing && missing != [])
            && (st.Fail? ==> st.msg == "missing required dependencies: " + FormatList(missing)))
      && (st.Ok? ==> goos == "linux" && k == 3 && AllDirsMade(o, s, s'))
  {
    if goos == "linux" {
      var (s1, work) := Step(o, s, MadeDir(cfg.workDir));
      var (s2, pfx) := Step(o, s1, MadeDir(cfg.prefixDir));
      var (s3, dl) := Step(o, s2, MadeDir(cfg.downloadDir));
      var n := |s.trace|;
      assert s3.trace[..n] == s.trace && s3.trace[n] == MadeDir(cfg.workDir);
      assert s3.trace[..n + 1] == s1.trace && s3.trace[n + 1] == MadeDir(cfg.prefixDir);
      assert s3.trace[..n + 2] == s2.trace && s3.trace[n + 2] == MadeDir(cfg.downloadDir);
      if work.Ok? && pfx.Ok? && dl.Ok? {
        var missing := Missing(RequiredBinaries, o.onPath);
        assert DoctorSpec(o, s, goos, cfg, failOnMissing) == (s3, Verdict(missing, failOnMissing));
        assert AllDirsMade(o, s, s3);
      } else {
        assert !AllDirsMade(o, s, s3);
      }
    }
  }

  /** All three directory creations between `s` and `s'` succeeded. */
  ghost predicate AllDirsMade(o: Oracle, s: State, s': State)
    requires s.trace <= s'.trace
  {
    forall j :: |s.trace| <= j < |s'.trace| ==> o.outcome(s'.trace[..j], s'.trace[j]).Ok?
  }

  /** A missing binary is reported only when failing on it was asked for:
      `doctor` (which does not ask) succeeds whenever `setup`'s doctor run
      fails only for missing binaries. */
  lemma DoctorModes(o: Oracle, s: State, goos: string, cfg: Config)
    requires DoctorSpec(o, s, goos, cfg, true).1.Fail?
    requires HasPrefix(DoctorSpec(o, s, goos, cfg, true).1.msg, "missing required dependencies: ")
    ensures DoctorSpec(o, s, goos, cfg, false).1 == Ok
    ensures Missing(RequiredBinaries, o.onPath) != []
  {
    if goos == "linux" {
      var (s1, work) := Step(o, s, MadeDir(cfg.workDir));
      var (s2, pfx) := Step(o, s1, MadeDir(cfg.prefixDir));
      var (s3, dl) := Step(o, s2, MadeDir(cfg.downloadDir));
      if work.Ok? && pfx.Ok? && dl.Ok? {
        var missing := Missing(RequiredBinaries, o.onPath);
        assert DoctorSpec(o, s, goos, cfg, true) == (s3, Verdict(missing, true));
        assert DoctorSpec(o, s, goos, cfg, false) == (s3, Verdict(missing, false));
      } else {
        DiffersAt(DoctorSpec(o, s, goos, cfg, true).1.msg, "missing required dependencies: ", 1);
        assert false;
      }
    } else {
      DiffersAt(DoctorSpec(o, s, goos, cfg, true).1.msg, "missing required dependencies: ", 0);
      assert false;
    }
  }

  lemma DiffersAt(m: string, p: string, i: nat)
    requires i < |p| && i < |m| && m[i] != p[i]
    ensures !HasPrefix(m, p)
  {
  }
}
