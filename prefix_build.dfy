/** internal/prefix/build.go: building WeMod's private prefix from scratch
    with winetricks, `corefonts` first and `dotnet48` second. */
module PrefixBuild {
  import opened Common
  import opened World
  import opened Winetricks

  const BuildVerbs := ["corefonts", "dotnet48"]

  /** The environment every install runs with. */
  function BuildEnv(prefixDir: string): map<string, string> {
    map["WINEPREFIX" := prefixDir]
  }

  /** Effect of `prefix.Build`: create the prefix directory, then install
      each verb; the first failing install's error is returned as it is. */
  function BuildSpec(o: Oracle, s: State, prefixDir: string): (State, Status) {
    var (s1, made) := Step(o, s, MadeDir(prefixDir));
    if made.Fail? then (s1, Fail("create prefix dir: " + made.msg))
    else
      var (s2, failed) := InstallPass(o, s1, BuildVerbs, {}, BuildEnv(prefixDir));
      (s2, if failed.Some? then Fail(failed.value.1) else Ok)
  }

  method Build(h: Host, prefixDir: string) returns (st: Status)
    modifies h
    ensures (h.state, st) == BuildSpec(h.oracle, old(h.state), prefixDir)
  {
    var made := h.Do(MadeDir(prefixDir));
    if made.Fail? {
      return Fail("create prefix dir: " + made.msg);
    }
    var env := map["WINEPREFIX" := prefixDir];
    var verbs := BuildVerbs;
    ghost var s1 := h.state;
    var i := 0;
    while i < |verbs|
      invariant 0 <= i <= |verbs|
      invariant InstallPass(h.oracle, h.state, verbs[i..], {}, env) == InstallPass(h.oracle, s1, verbs, {}, env)
    {
      assert verbs[i..][1..] == verbs[i + 1..];
      var err := h.Run("winetricks", ["-q", verbs[i]], env);
      if err.Fail? {
        return err;
      }
      i := i + 1;
    }
    return Ok;
  }

  lemma NoneMissing(verbs: seq<string>)
    ensures Missing(verbs, {}) == verbs
  {
    if verbs != [] {
      NoneMissing(verbs[1..]);
    }
  }

  /** What a build does: the prefix directory is created first, and a failure
      there ends the build before any install. Otherwise it runs
      `winetricks -q corefonts` and then `winetricks -q dotnet48`, both with
      exactly WINEPREFIX set, stopping at the first failure, whose error is
      returned unchanged. It succeeds exactly when both installs did. */
  lemma BuildShape(o: Oracle, s: State, prefixDir: string)
    ensures var (s', st) := BuildSpec(o, s, prefixDir);
      var made := o.outcome(s.trace, MadeDir(prefixDir));
      var env := map["WINEPREFIX" := prefixDir];
      var k := |s'.trace| - |s.trace| - 1;
      && s.trace <= s'.trace && 0 <= k <= 2
      && Since(s, s') == [MadeDir(prefixDir)] + Installs(BuildVerbs[..k], env)
      && (made.Fail? ==> k == 0 && st == Fail("create prefix dir: " + made.msg))
      && (st.Ok? <==> made.Ok? && k == 2 && AllSucceeded(o, s'.trace, |s.trace| + 1, 2))
      && (made.Ok? && st.Fail? ==>
            && k >= 1
            && AllSucceeded(o, s'.trace, |s.trace| + 1, k - 1)
            && o.outcome(s'.trace[..|s'.trace| - 1], s'.trace[|s'.trace| - 1]).Fail?
            && st.msg == RunError("winetricks", o.outcome(s'.trace[..|s'.trace| - 1], s'.trace[|s'.trace| - 1]).msg))
  {
    BuildTrace(o, s, prefixDir);
    BuildResult(o, s, prefixDir);
  }

  lemma BuildTrace(o: Oracle, s: State, prefixDir: string)
    ensures var (s', st) := BuildSpec(o, s, prefixDir);
      var made := o.outcome(s.trace, MadeDir(prefixDir));
      var env := map["WINEPREFIX" := prefixDir];
      var k := |s'.trace| - |s.trace| - 1;
      && s.trace <= s'.trace && 0 <= k <= 2
      && Since(s, s') == [MadeDir(prefixDir)] + Installs(BuildVerbs[..k], env)
      && (made.Fail? ==> k == 0 && st == Fail("create prefix dir: " + made.msg))
  {
    var env := map["WINEPREFIX" := prefixDir];
    var (s1, made) := Step(o, s, MadeDir(prefixDir));
    if made.Ok? {
      NoneMissing(BuildVerbs);
      InstallPassTrace(o, s1, BuildVerbs, {}, env);
      var s2 := InstallPass(o, s1, BuildVerbs, {}, env).0;
      assert s2.trace == s1.trace + Since(s1, s2);
      assert Since(s, s2) == [MadeDir(prefixDir)] + Since(s1, s2);
    } else {
      assert Since(s, s1) == [MadeDir(prefixDir)];
      assert BuildVerbs[..0] == [];
    }
  }

  lemma BuildResult(o: Oracle, s: State, prefixDir: string)
    ensures var (s', st) := BuildSpec(o, s, prefixDir);
      var made := o.outcome(s.trace, MadeDir(prefixDir));
      var k := |s'.trace| - |s.trace| - 1;
      && s.trace <= s'.trace && 0 <= k <= 2
      && (st.Ok? <==> made.Ok? && k == 2 && AllSucceeded(o, s'.trace, |s.trace| + 1, 2))
      && (made.Ok? && st.Fail? ==>
            && k >= 1
            && AllSucceeded(o, s'.trace, |s.trace| + 1, k - 1)
            && o.outcome(s'.trace[..|s'.trace| - 1], s'.trace[|s'.trace| - 1]).Fail?
            && st.msg == RunError("winetricks", o.outcome(s'.trace[..|s'.trace| - 1], s'.trace[|s'.trace| - 1]).msg))
  {
    BuildTrace(o, s, prefixDir);
    var (s1, made) := Step(o, s, MadeDir(prefixDir));
    if made.Ok? {
      BuildInstalls(o, s, s1, prefixDir);
    }
  }

  lemma BuildInstalls(o: Oracle, s: State, s1: State, prefixDir: string)
    requires s1 == Step(o, s, MadeDir(prefixDir)).0 && o.outcome(s.trace, MadeDir(prefixDir)).Ok?
    ensures var (s2, failed) := InstallPass(o, s1, BuildVerbs, {}, BuildEnv(prefixDir));
      var k := |s2.trace| - |s1.trace|;
      && s1.trace <= s2.trace && 0 <= k <= 2
      && (failed.None? <==> k == 2 && AllSucceeded(o, s2.trace, |s1.trace|, 2))
      && (failed.Some? ==>
            && k >= 1
            && AllSucceeded(o, s2.trace, |s1.trace|, k - 1)
            && o.outcome(s2.trace[..|s2.trace| - 1], s2.trace[|s2.trace| - 1]).Fail?
            && failed.value.1 == RunError("winetricks", o.outcome(s2.trace[..|s2.trace| - 1], s2.trace[|s2.trace| - 1]).msg))
  {
    var env := BuildEnv(prefixDir);
    NoneMissing(BuildVerbs);
    InstallPassTrace(o, s1, BuildVerbs, {}, env);
    InstallPassResult(o, s1, BuildVerbs, {}, env);
    InstallPassSucceeded(o, s1, BuildVerbs, {}, env);
    var (s2, failed) := InstallPass(o, s1, BuildVerbs, {}, env);
    if failed.Some? {
      LastFailedNotAll(o, s2.trace, |s1.trace|, |s2.trace| - |s1.trace|);
    }
  }

  lemma LastFailedNotAll(o: Oracle, t: seq<Effect>, base: nat, count: nat)
    requires count >= 1 && base + count == |t|
    requires o.outcome(t[..|t| - 1], t[|t| - 1]).Fail?
    ensures !AllSucceeded(o, t, base, count)
  {
    var j := |t| - 1;
    assert base <= j < base + count;
  }

  /** corefonts is always attempted before dotnet48, and dotnet48 only once
      corefonts has been installed. */
  lemma CorefontsBeforeDotnet(o: Oracle, s: State, prefixDir: string)
    ensures var s' := BuildSpec(o, s, prefixDir).0;
      var env := map["WINEPREFIX" := prefixDir];
      var base := |s.trace|;
      && s.trace <= s'.trace
      && (InstallEffect("dotnet48", env) in Since(s, s') ==>
            && |s'.trace| == base + 3
            && s'.trace[base + 1] == InstallEffect("corefonts", env)
            && s'.trace[base + 2] == InstallEffect("dotnet48", env)
            && o.outcome(s'.trace[..base + 1], s'.trace[base + 1]).Ok?)
  {
    BuildShape(o, s, prefixDir);
    var env := map["WINEPREFIX" := prefixDir];
    var s' := BuildSpec(o, s, prefixDir).0;
    var k := |s'.trace| - |s.trace| - 1;
    if InstallEffect("dotnet48", env) in Since(s, s') {
      var (s1, made) := Step(o, s, MadeDir(prefixDir));
      assert made.Ok?;
      InstallPassSucceeded(o, s1, BuildVerbs, {}, env);
      assert s'.trace[|s.trace| + 1..][..1] == Installs(BuildVerbs, env)[..1];
    }
  }
}
