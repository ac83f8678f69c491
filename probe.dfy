/** scripts/wand_probe.py: the probe that downloads WeMod and Wand release
    packages and watches the processes they start. Modelled here: the
    `kind:version` entries it accepts, where a release is fetched from and
    cached, the cache rule of `download_if_needed`, and the classification and
    counting of running WeMod/Wand processes by `inspect_state`. */
module Probe {
  import opened Common
  import opened Text
  import opened World

  // ----- Python's str.strip() and str.lower() -----

  /** Python's `str.isspace` for one character: Go's white space plus the
      four information separators U+001C..U+001F. */
  predicate PySpace(c: char) {
    IsSpace(c) || ('\U{001C}' <= c <= '\U{001F}')
  }

  function StripLeft(s: string): (r: string)
    ensures |r| <= |s| && r == s[|s| - |r|..]
    ensures forall i :: 0 <= i < |s| - |r| ==> PySpace(s[i])
    ensures r != "" ==> !PySpace(r[0])
    decreases |s|
  {
    if |s| > 0 && PySpace(s[0]) then StripLeft(s[1..]) else s
  }

  function StripRight(s: string): (r: string)
    ensures |r| <= |s| && r == s[..|r|]
    ensures forall i :: |r| <= i < |s| ==> PySpace(s[i])
    ensures r != "" ==> !PySpace(r[|r| - 1])
    decreases |s|
  {
    if |s| > 0 && PySpace(s[|s| - 1]) then StripRight(s[..|s| - 1]) else s
  }

  /** `str.strip()` with no argument. */
  function Strip(s: string): (r: string)
    ensures |r| <= |s|
    ensures r != "" ==> !PySpace(r[0]) && !PySpace(r[|r| - 1])
  {
    StripRight(StripLeft(s))
  }

  /** A string without white space at either end is its own strip. */
  lemma StripKeeps(t: string)
    requires t == "" || (!PySpace(t[0]) && !PySpace(t[|t| - 1]))
    ensures Strip(t) == t
  {
    assert StripLeft(t) == t;
  }

  // ----- version entries -----

  /** Position of the first ':' of `s`. */
  function FirstColon(s: string): (r: nat)
    requires ':' in s
    ensures r < |s| && s[r] == ':' && ':' !in s[..r]
    decreases |s|
  {
    if s[0] == ':' then 0
    else
      var k := FirstColon(s[1..]);
      assert s[..k + 1] == [s[0]] + s[1..][..k];
      k + 1
  }

  datatype Release = Release(kind: string, version: string)

  predicate KnownKind(kind: string) {
    kind == "wand" || kind == "wemod"
  }

  /** `parse_version_entry`: split at the first ':' only, so the version may
      hold further colons; the kind is stripped and lower-cased, the version
      stripped. */
  function ParseVersionEntry(entry: string): (r: Result<Release>)
    ensures ':' !in entry ==> r == Failure("invalid version entry '" + entry + "', expected kind:version")
    ensures r.Success? ==>
      && KnownKind(r.value.kind)
      && r.value.version != ""
      && Strip(r.value.version) == r.value.version
  {
    if ':' !in entry then Failure("invalid version entry '" + entry + "', expected kind:version")
    else
      var i := FirstColon(entry);
      var kind := ToLower(Strip(entry[..i]));
      var version := Strip(entry[i + 1..]);
      if !KnownKind(kind) then Failure("invalid kind '" + kind + "' in '" + entry + "', expected wand or wemod")
      else if version == "" then Failure("missing version in '" + entry + "'")
      else
        StripKeeps(version);
        Success(Release(kind, version))
  }

  /** An entry with a colon is rejected for an unknown kind before the
      version is looked at, and then for an empty version. */
  lemma ParseVersionEntryErrors(entry: string)
    requires ':' in entry
    ensures var i := FirstColon(entry);
      var kind := ToLower(Strip(entry[..i]));
      var version := Strip(entry[i + 1..]);
      && (!KnownKind(kind) ==> ParseVersionEntry(entry) == Failure("invalid kind '" + kind + "' in '" + entry + "', expected wand or wemod"))
      && (KnownKind(kind) && version == "" ==> ParseVersionEntry(entry) == Failure("missing version in '" + entry + "'"))
      && (KnownKind(kind) && version != "" ==> ParseVersionEntry(entry) == Success(Release(kind, version)))
  {
    var i := FirstColon(entry);
    var kind := ToLower(Strip(entry[..i]));
    var version := Strip(entry[i + 1..]);
    var r := ParseVersionEntry(entry);
    if !KnownKind(kind) {
      assert r == Failure("invalid kind '" + kind + "' in '" + entry + "', expected wand or wemod");
    } else if version == "" {
      assert r == Failure("missing version in '" + entry + "'");
    }
  }

  /** Writing a release as `kind:version` and parsing it back gives the same
      release, also when the version itself holds colons. */
  lemma ParseVersionEntryRoundTrip(r: Release)
    requires KnownKind(r.kind)
    requires r.version != "" && !PySpace(r.version[0]) && !PySpace(r.version[|r.version| - 1])
    ensures ParseVersionEntry(r.kind + ":" + r.version) == Success(r)
  {
    var entry := r.kind + ":" + r.version;
    KindHasNoColon(r.kind);
    FirstColonAfter(r.kind, r.version);
    assert entry[..|r.kind|] == r.kind;
    assert entry[|r.kind| + 1..] == r.version;
    KindNormal(r.kind);
    StripKeeps(r.version);
  }

  lemma KindHasNoColon(kind: string)
    requires KnownKind(kind)
    ensures ':' !in kind
  {
  }

  /** The first colon of `k:v` is the one after `k` when `k` has none. */
  lemma {:induction false} FirstColonAfter(k: string, v: string)
    requires ':' !in k
    ensures ':' in k + ":" + v && FirstColon(k + ":" + v) == |k|
    decreases |k|
  {
    var entry := k + ":" + v;
    assert entry[|k|] == ':';
    if k != [] {
      assert entry[1..] == k[1..] + ":" + v;
      assert ':' !in k[1..] by {
        assert forall c :: c in k[1..] ==> c in k;
      }
      FirstColonAfter(k[1..], v);
    }
  }

  /** A known kind is already stripped and lower-case. */
  lemma KindNormal(kind: string)
    requires KnownKind(kind)
    ensures ToLower(Strip(kind)) == kind
  {
    StripKeeps(kind);
    LowerKeepsLower(kind);
  }

  lemma LowerKeepsLower(t: string)
    requires forall i :: 0 <= i < |t| ==> 'a' <= t[i] <= 'z'
    ensures ToLower(t) == t
  {
  }

  // ----- where a release comes from -----

  const CdnBase := "https://storage-cdn.wemod.com/app/releases/stable/"

  /** The package file name of a release: `Wand-<v>-full.nupkg` for wand,
      `WeMod-<v>-full.nupkg` for anything else. */
  function NupkgName(kind: string, version: string): (r: string)
    ensures HasSuffix(r, "-full.nupkg")
    ensures kind == "wand" ==> HasPrefix(r, "Wand-")
    ensures kind != "wand" ==> HasPrefix(r, "WeMod-")
  {
    if kind == "wand" then "Wand-" + version + "-full.nupkg" else "WeMod-" + version + "-full.nupkg"
  }

  /** `url_for`. */
  function UrlFor(kind: string, version: string): (r: string)
    ensures HasPrefix(r, CdnBase)
  {
    if kind == "wand" then CdnBase + ("Wand-" + version + "-full.nupkg")
    else CdnBase + ("WeMod-" + version + "-full.nupkg")
  }

  /** `cached_nupkg_path`. */
  function CachedNupkgPath(cacheDir: string, kind: string, version: string): string {
    Join(cacheDir, NupkgName(kind, version))
  }

  /** The cached file carries the name of the file the URL points to. */
  lemma CacheMatchesUrl(cacheDir: string, kind: string, version: string)
    requires '/' !in version
    ensures UrlFor(kind, version) == CdnBase + NupkgName(kind, version)
    ensures var name := NupkgName(kind, version);
      Base(CachedNupkgPath(cacheDir, kind, version)) == name
  {
    var name := NupkgName(kind, version);
    NupkgNamePlain(kind, version);
    if cacheDir == "" || cacheDir == "." {
      BasePlain(name);
    } else if HasSuffix(cacheDir, "/") {
      var a := cacheDir[..|cacheDir| - 1];
      assert cacheDir + name == a + "/" + name;
      BaseOf(a, name);
    } else {
      BaseOf(cacheDir, name);
    }
  }

  lemma NupkgNamePlain(kind: string, version: string)
    requires '/' !in version
    ensures NupkgName(kind, version) != "" && '/' !in NupkgName(kind, version)
  {
    var k := if kind == "wand" then "Wand-" else "WeMod-";
    var tail := "-full.nupkg";
    assert '/' !in k && '/' !in tail;
    assert forall c :: c in k + version + tail ==> c in k || c in version || c in tail;
  }

  /** The user agent curl presents to the CDN. */
  const BrowserAgent := "Mozilla/5.0 (X11; Linux x86_64) AppleWebKit/537.36 (KHTML, like Gecko) Chrome/133.0.0.0 Safari/537.36"

  function CurlEffect(url: string, target: string): Effect {
    Ran("curl", ["-fsSL", "-A", BrowserAgent, url, "-o", target], map[])
  }

  /** Effect of `download_if_needed`: the cached package path, or the error
      of creating the cache directory or of curl. */
  function DownloadSpec(o: Oracle, s: State, cacheDir: string, kind: string, version: string): (State, Result<string>) {
    var (s1, made) := Step(o, s, MadeDir(cacheDir));
    if made.Fail? then (s1, Failure(made.msg))
    else
      var target := CachedNupkgPath(cacheDir, kind, version);
      if Exists(o, s1, target) && target in o.nonEmpty then (s1, Success(target))
      else
        var (s2, fetched) := Step(o, s1, CurlEffect(UrlFor(kind, version), target));
        if fetched.Fail? then (s2, Failure(fetched.msg)) else (s2, Success(target))
  }

  method DownloadIfNeeded(h: Host, cacheDir: string, kind: string, version: string) returns (r: Result<string>)
    modifies h
    ensures (h.state, r) == DownloadSpec(h.oracle, old(h.state), cacheDir, kind, version)
  {
    var made := h.Do(MadeDir(cacheDir));
    if made.Fail? {
      return Failure(made.msg);
    }
    var target := CachedNupkgPath(cacheDir, kind, version);
    var present := h.Stat(target);
    if present && target in h.oracle.nonEmpty {
      return Success(target);
    }
    var fetched := h.Do(Ran("curl", ["-fsSL", "-A", BrowserAgent, UrlFor(kind, version), "-o", target], map[]));
    if fetched.Fail? {
      return Failure(fetched.msg);
    }
    return Success(target);
  }

  /** The cache rule: once the cache directory exists, a non-empty cached
      package is returned without running curl; otherwise curl fetches the
      release's URL into the cached path, exactly once. Any success names the
      cached path. */
  lemma DownloadShape(o: Oracle, s: State, cacheDir: string, kind: string, version: string)
    ensures var (s', r) := DownloadSpec(o, s, cacheDir, kind, version);
      var s1 := Step(o, s, MadeDir(cacheDir)).0;
      var target := CachedNupkgPath(cacheDir, kind, version);
      && s.trace <= s'.trace
      && (r.Success? ==> r.value == target)
      && (o.outcome(s.trace, MadeDir(cacheDir)).Fail? ==> Since(s, s') == [MadeDir(cacheDir)] && r.Failure?)
      && (o.outcome(s.trace, MadeDir(cacheDir)).Ok? && Exists(o, s1, target) && target in o.nonEmpty ==>
            Since(s, s') == [MadeDir(cacheDir)] && r == Success(target))
      && (o.outcome(s.trace, MadeDir(cacheDir)).Ok? && !(Exists(o, s1, target) && target in o.nonEmpty) ==>
            && Since(s, s') == [MadeDir(cacheDir), CurlEffect(UrlFor(kind, version), target)]
            && (r.Success? <==> o.outcome(s1.trace, CurlEffect(UrlFor(kind, version), target)).Ok?))
  {
  }

  // ----- inspect_state -----

  /** One entry of `/proc`: its name, whether it is a directory, and the
      contents of its `cmdline` file (None when reading it failed). The
      contents are decoded characters, NUL-separated. */
  datatype ProcEntry = ProcEntry(name: string, isDir: bool, cmdline: Option<string>)

  /** Python's `str.isdigit`, for ASCII digits. */
  predicate IsDigits(s: string) {
    s != "" && forall i :: 0 <= i < |s| ==> '0' <= s[i] <= '9'
  }

  /** The lower-cased command line, with NULs turned into spaces, of a
      process directory whose `cmdline` could be read and is not empty. */
  function CmdlineText(e: ProcEntry): Option<string> {
    if !e.isDir || !IsDigits(e.name) then None
    else match e.cmdline
      case None => None
      case Some(raw) => if raw == "" then None else Some(ToLower(ReplaceChar(raw, '\0', ' ')))
  }

  predicate IsWeModText(text: string) {
    Contains(text, "wand.exe") || Contains(text, "wemod.exe")
  }

  datatype ProcessKind = MainProcess | Renderer | Gpu | Utility

  /** The kind of a WeMod/Wand process: renderer before gpu-process before
      utility; anything else is the main process. */
  function KindOf(text: string): (k: ProcessKind)
    ensures k == Renderer <==> Contains(text, "--type=renderer")
    ensures k == Gpu <==> !Contains(text, "--type=renderer") && Contains(text, "--type=gpu-process")
    ensures k == Utility <==>
      !Contains(text, "--type=renderer") && !Contains(text, "--type=gpu-process") && Contains(text, "--type=utility")
    ensures k == MainProcess <==>
      !Contains(text, "--type=renderer") && !Contains(text, "--type=gpu-process") && !Contains(text, "--type=utility")
  {
    if Contains(text, "--type=renderer") then Renderer
    else if Contains(text, "--type=gpu-process") then Gpu
    else if Contains(text, "--type=utility") then Utility
    else MainProcess
  }

  /** The texts of the WeMod/Wand processes among `entries`, in order. */
  function Matching(entries: seq<ProcEntry>): (r: seq<string>)
    ensures |r| <= |entries|
    ensures forall t :: t in r ==> IsWeModText(t)
    decreases |entries|
  {
    if entries == [] then []
    else
      var init := Matching(entries[..|entries| - 1]);
      var t := CmdlineText(entries[|entries| - 1]);
      if t.Some? && IsWeModText(t.value) then init + [t.value] else init
  }

  datatype Counters = Counters(main: nat, renderer: nat, gpu: nat, utility: nat)

  function Total(c: Counters): nat {
    c.main + c.renderer + c.gpu + c.utility
  }

  /** Count one more process of kind `k`. */
  function Bump(c: Counters, k: ProcessKind): (r: Counters)
    ensures Total(r) == Total(c) + 1
  {
    match k
    case MainProcess => c.(main := c.main + 1)
    case Renderer => c.(renderer := c.renderer + 1)
    case Gpu => c.(gpu := c.gpu + 1)
    case Utility => c.(utility := c.utility + 1)
  }

  /** The counters after scanning `entries`, starting from zero. */
  function Tally(entries: seq<ProcEntry>): Counters
    decreases |entries|
  {
    if entries == [] then Counters(0, 0, 0, 0)
    else
      var before := Tally(entries[..|entries| - 1]);
      var t := CmdlineText(entries[|entries| - 1]);
      if t.Some? && IsWeModText(t.value) then Bump(before, KindOf(t.value)) else before
  }

  /** `inspect_state`. */
  method InspectState(entries: seq<ProcEntry>) returns (c: Counters)
    ensures c == Tally(entries)
  {
    var main, renderer, gpu, utility := 0, 0, 0, 0;
    var i := 0;
    while i < |entries|
      invariant 0 <= i <= |entries|
      invariant Counters(main, renderer, gpu, utility) == Tally(entries[..i])
    {
      assert entries[..i + 1][..i] == entries[..i];
      var e := entries[i];
      if !e.isDir || !IsDigits(e.name) {
        i := i + 1;
        continue;
      }
      if e.cmdline.None? || e.cmdline.value == "" {
        i := i + 1;
        continue;
      }
      var text := ToLower(ReplaceChar(e.cmdline.value, '\0', ' '));
      if !Contains(text, "wand.exe") && !Contains(text, "wemod.exe") {
        i := i + 1;
        continue;
      }
      if Contains(text, "--type=renderer") {
        renderer := renderer + 1;
      } else if Contains(text, "--type=gpu-process") {
        gpu := gpu + 1;
      } else if Contains(text, "--type=utility") {
        utility := utility + 1;
      } else {
        main := main + 1;
      }
      i := i + 1;
    }
    assert entries[..|entries|] == entries;
    c := Counters(main, renderer, gpu, utility);
  }

  /** Every WeMod/Wand process is counted exactly once: the four counters add
      up to the number of matching processes. */
  lemma {:induction false} TallyTotal(entries: seq<ProcEntry>)
    ensures Total(Tally(entries)) == |Matching(entries)|
    decreases |entries|
  {
    if entries != [] {
      TallyTotal(entries[..|entries| - 1]);
    }
  }

  /** How many of `texts` are of kind `k`. */
  function CountKind(texts: seq<string>, k: ProcessKind): (n: nat)
    ensures n <= |texts|
    decreases |texts|
  {
    if texts == [] then 0
    else CountKind(texts[..|texts| - 1], k) + (if KindOf(texts[|texts| - 1]) == k then 1 else 0)
  }

  /** Each counter is the number of matching processes of its kind. */
  lemma {:induction false} TallyByKind(entries: seq<ProcEntry>)
    ensures var m := Matching(entries);
      Tally(entries) == Counters(CountKind(m, MainProcess), CountKind(m, Renderer), CountKind(m, Gpu), CountKind(m, Utility))
    decreases |entries|
  {
    if entries != [] {
      var init := entries[..|entries| - 1];
      TallyByKind(init);
      var m := Matching(entries);
      var t := CmdlineText(entries[|entries| - 1]);
      if t.Some? && IsWeModText(t.value) {
        assert m[..|m| - 1] == Matching(init);
      }
    }
  }
}
