/** The ordered `winetricks -q <verb>` loop that both the launch-time
    dependency check (internal/launch/launch.go) and the prefix builder
    (internal/prefix/build.go) run: verbs are installed one at a time in list
    order, verbs already present are skipped, and the first failing install
    stops the loop. */
module Winetricks {
  import opened Common
  import opened World

  /** The verbs of `verbs` that are not yet installed, in list order. */
  function Missing(verbs: seq<string>, installed: set<string>): (r: seq<string>)
    ensures |r| <= |verbs|
    ensures forall v :: v in r <==> v in verbs && v !in installed
    decreases |verbs|
  {
    if verbs == [] then []
    else if verbs[0] in installed then Missing(verbs[1..], installed)
    else [verbs[0]] + Missing(verbs[1..], installed)
  }

  function InstallEffect(verb: string, env: map<string, string>): Effect {
    Ran("winetricks", ["-q", verb], env)
  }

  function Installs(verbs: seq<string>, env: map<string, string>): (r: seq<Effect>)
    ensures |r| == |verbs|
    ensures forall i :: 0 <= i < |verbs| ==> r[i] == InstallEffect(verbs[i], env)
    decreases |verbs|
  {
    if verbs == [] then [] else [InstallEffect(verbs[0], env)] + Installs(verbs[1..], env)
  }

  /** Every install runs winetricks. */
  lemma InstallsAreWinetricks(verbs: seq<string>, env: map<string, string>)
    ensures forall e :: e in Installs(verbs, env) ==> e.Ran? && e.program == "winetricks"
  {
    var r := Installs(verbs, env);
    forall e | e in r ensures e.Ran? && e.program == "winetricks" {
      var i :| 0 <= i < |r| && r[i] == e;
      assert e == InstallEffect(verbs[i], env);
    }
  }

  /** The install loop: the new state and, when an install failed, the verb
      and the error it failed with. */
  function InstallPass(o: Oracle, s: State, verbs: seq<string>, installed: set<string>,
                       env: map<string, string>): (r: (State, Option<(string, string)>))
    decreases |verbs|
  {
    if verbs == [] then (s, None)
    else if verbs[0] in installed then InstallPass(o, s, verbs[1..], installed, env)
    else
      var (s1, st) := RunProc(o, s, "winetricks", ["-q", verbs[0]], env);
      if st.Fail? then (s1, Some((verbs[0], st.msg)))
      else InstallPass(o, s1, verbs[1..], installed, env)
  }

  /** Every install in `effects` (which start at trace position `base`)
      succeeded. */
  ghost predicate AllSucceeded(o: Oracle, t: seq<Effect>, base: nat, count: nat)
    requires base + count <= |t|
  {
    forall j :: base <= j < base + count ==> o.outcome(t[..j], t[j]).Ok?
  }

  /** What the loop appends, whatever the machine answers: the installs of a
      prefix of the missing verbs, in order, and nothing else; no existing path
      changes. */
  lemma {:induction false} InstallPassTrace(o: Oracle, s: State, verbs: seq<string>,
                                            installed: set<string>, env: map<string, string>)
    ensures var s' := InstallPass(o, s, verbs, installed, env).0;
      && s.trace <= s'.trace
      && s'.files == s.files
      && |s'.trace| - |s.trace| <= |Missing(verbs, installed)|
      && Since(s, s') == Installs(Missing(verbs, installed)[..|s'.trace| - |s.trace|], env)
    decreases |verbs|
  {
    if verbs == [] {
    } else if verbs[0] in installed {
      InstallPassTrace(o, s, verbs[1..], installed, env);
    } else {
      var e := InstallEffect(verbs[0], env);
      var (s1, st) := Step(o, s, e);
      if st.Fail? {
        FirstInstallFailed(o, s, verbs, installed, env);
      } else {
        InstallPassTrace(o, s1, verbs[1..], installed, env);
        FirstInstallSucceeded(o, s, verbs, installed, env);
      }
    }
  }

  lemma FirstInstallFailed(o: Oracle, s: State, verbs: seq<string>,
                           installed: set<string>, env: map<string, string>)
    requires verbs != [] && verbs[0] !in installed
    requires Step(o, s, InstallEffect(verbs[0], env)).1.Fail?
    ensures var s' := InstallPass(o, s, verbs, installed, env).0;
      && s.trace <= s'.trace
      && s'.files == s.files
      && |s'.trace| - |s.trace| <= |Missing(verbs, installed)|
      && Since(s, s') == Installs(Missing(verbs, installed)[..|s'.trace| - |s.trace|], env)
  {
    var m := Missing(verbs, installed);
    assert m == [verbs[0]] + Missing(verbs[1..], installed);
    assert m[..1] == [verbs[0]];
  }

  lemma FirstInstallSucceeded(o: Oracle, s: State, verbs: seq<string>,
                              installed: set<string>, env: map<string, string>)
    requires verbs != [] && verbs[0] !in installed
    requires Step(o, s, InstallEffect(verbs[0], env)).1.Ok?
    requires var s1 := Step(o, s, InstallEffect(verbs[0], env)).0;
      var s' := InstallPass(o, s1, verbs[1..], installed, env).0;
      && s1.trace <= s'.trace
      && s'.files == s1.files
      && |s'.trace| - |s1.trace| <= |Missing(verbs[1..], installed)|
      && Since(s1, s') == Installs(Missing(verbs[1..], installed)[..|s'.trace| - |s1.trace|], env)
    ensures var s' := InstallPass(o, s, verbs, installed, env).0;
      && s.trace <= s'.trace
      && s'.files == s.files
      && |s'.trace| - |s.trace| <= |Missing(verbs, installed)|
      && Since(s, s') == Installs(Missing(verbs, installed)[..|s'.trace| - |s.trace|], env)
  {
    var e := InstallEffect(verbs[0], env);
    var s1 := Step(o, s, e).0;
    var s' := InstallPass(o, s1, verbs[1..], installed, env).0;
    assert InstallPass(o, s, verbs, installed, env).0 == s';
    var m1 := Missing(verbs[1..], installed);
    assert Missing(verbs, installed) == [verbs[0]] + m1;
    SinceCons(s, s1, s', e);
    InstallsCons(verbs[0], m1, |s'.trace| - |s1.trace|, env);
  }

  lemma SinceCons(s: State, s1: State, s2: State, e: Effect)
    requires s1.trace == s.trace + [e] && s1.trace <= s2.trace
    ensures s.trace <= s2.trace && Since(s, s2) == [e] + Since(s1, s2)
  {
    assert s2.trace == s1.trace + Since(s1, s2);
  }

  lemma InstallsCons(v: string, m1: seq<string>, k1: nat, env: map<string, string>)
    requires k1 <= |m1|
    ensures Installs(([v] + m1)[..k1 + 1], env) == [InstallEffect(v, env)] + Installs(m1[..k1], env)
  {
    var t := ([v] + m1)[..k1 + 1];
    assert t == [v] + m1[..k1];
    assert t[1..] == m1[..k1];
  }

  /** The loop stops early only at a failed install: without a failure it
      attempted every missing verb; with one, the failing verb is the last
      attempted and the error is the wrapped error of that install. */
  ghost predicate StopsAtFailure(o: Oracle, s: State, verbs: seq<string>, installed: set<string>,
                                 env: map<string, string>)
  {
    var (s', failed) := InstallPass(o, s, verbs, installed, env);
    var k := |s'.trace| - |s.trace|;
    && (failed.None? ==> k == |Missing(verbs, installed)|)
    && (failed.Some? ==>
          && 1 <= k <= |Missing(verbs, installed)|
          && failed.value.0 == Missing(verbs, installed)[k - 1]
          && o.outcome(s'.trace[..|s'.trace| - 1], s'.trace[|s'.trace| - 1]).Fail?
          && failed.value.1 == RunError("winetricks", o.outcome(s'.trace[..|s'.trace| - 1], s'.trace[|s'.trace| - 1]).msg))
  }

  lemma {:induction false} InstallPassResult(o: Oracle, s: State, verbs: seq<string>,
                                             installed: set<string>, env: map<string, string>)
    ensures StopsAtFailure(o, s, verbs, installed, env)
    decreases |verbs|
  {
    if verbs == [] {
    } else if verbs[0] in installed {
      InstallPassResult(o, s, verbs[1..], installed, env);
      assert Missing(verbs, installed) == Missing(verbs[1..], installed);
    } else if Step(o, s, InstallEffect(verbs[0], env)).1.Ok? {
      var s1 := Step(o, s, InstallEffect(verbs[0], env)).0;
      InstallPassResult(o, s1, verbs[1..], installed, env);
      InstallPassTrace(o, s1, verbs[1..], installed, env);
      StopsAfterFirstSuccess(o, s, verbs, installed, env);
    } else {
      StopsAtFirstFailure(o, s, verbs, installed, env);
    }
  }

  lemma StopsAtFirstFailure(o: Oracle, s: State, verbs: seq<string>, installed: set<string>,
                            env: map<string, string>)
    requires verbs != [] && verbs[0] !in installed
    requires Step(o, s, InstallEffect(verbs[0], env)).1.Fail?
    ensures StopsAtFailure(o, s, verbs, installed, env)
  {
    var (s1, st) := Step(o, s, InstallEffect(verbs[0], env));
    assert InstallPass(o, s, verbs, installed, env) == (s1, Some((verbs[0], RunError("winetricks", st.msg))));
    assert s1.trace[..|s1.trace| - 1] == s.trace;
    assert Missing(verbs, installed) == [verbs[0]] + Missing(verbs[1..], installed);
  }

  lemma StopsAfterFirstSuccess(o: Oracle, s: State, verbs: seq<string>, installed: set<string>,
                               env: map<string, string>)
    requires verbs != [] && verbs[0] !in installed
    requires Step(o, s, InstallEffect(verbs[0], env)).1.Ok?
    requires var s1 := Step(o, s, InstallEffect(verbs[0], env)).0;
      && StopsAtFailure(o, s1, verbs[1..], installed, env)
      && s1.trace <= InstallPass(o, s1, verbs[1..], installed, env).0.trace
    ensures StopsAtFailure(o, s, verbs, installed, env)
  {
    var s1 := Step(o, s, InstallEffect(verbs[0], env)).0;
    assert InstallPass(o, s, verbs, installed, env) == InstallPass(o, s1, verbs[1..], installed, env);
    var m := Missing(verbs, installed);
    var m1 := Missing(verbs[1..], installed);
    assert m == [verbs[0]] + m1;
    var k1 := |InstallPass(o, s1, verbs[1..], installed, env).0.trace| - |s1.trace|;
    assert k1 >= 1 ==> m[k1] == m1[k1 - 1];
  }

  /** Every install the loop attempted before the last one succeeded, and so
      did the last one when the loop reports no failure. */
  lemma {:induction false} InstallPassSucceeded(o: Oracle, s: State, verbs: seq<string>,
                                                installed: set<string>, env: map<string, string>)
    ensures var (s', failed) := InstallPass(o, s, verbs, installed, env);
      var k := |s'.trace| - |s.trace|;
      k >= 0 && s.trace <= s'.trace &&
      AllSucceeded(o, s'.trace, |s.trace|, if failed.None? || k == 0 then k else k - 1)
    decreases |verbs|
  {
    InstallPassTrace(o, s, verbs, installed, env);
    if verbs == [] {
    } else if verbs[0] in installed {
      InstallPassSucceeded(o, s, verbs[1..], installed, env);
    } else {
      var e := InstallEffect(verbs[0], env);
      var (s1, st) := Step(o, s, e);
      if st.Ok? {
        InstallPassSucceeded(o, s1, verbs[1..], installed, env);
        var (s', failed) := InstallPass(o, s1, verbs[1..], installed, env);
        assert InstallPass(o, s, verbs, installed, env) == (s', failed);
        InstallPassTrace(o, s1, verbs[1..], installed, env);
        var k1 := |s'.trace| - |s1.trace|;
        assert s'.trace[..|s.trace|] == s.trace;
        assert s'.trace[|s.trace|] == e;
        ExtendSucceeded(o, s'.trace, |s.trace|, if failed.None? || k1 == 0 then k1 else k1 - 1);
      }
    }
  }

  lemma ExtendSucceeded(o: Oracle, t: seq<Effect>, base: nat, count: nat)
    requires base + 1 + count <= |t|
    requires AllSucceeded(o, t, base + 1, count)
    requires o.outcome(t[..base], t[base]).Ok?
    ensures AllSucceeded(o, t, base, count + 1)
  {
  }

  /** With every verb already present the loop does nothing. */
  lemma NothingMissingNoInstalls(o: Oracle, s: State, verbs: seq<string>,
                                 installed: set<string>, env: map<string, string>)
    requires forall v :: v in verbs ==> v in installed
    ensures InstallPass(o, s, verbs, installed, env) == (s, None)
  {
    InstallPassTrace(o, s, verbs, installed, env);
    InstallPassResult(o, s, verbs, installed, env);
    assert Missing(verbs, installed) == [];
  }
}
