/** internal/bootstrap/wemod.go: installing WeMod. The 64-bit installer URL
    is read from the Scoop bucket's metadata, the installer (a NuGet/zip
    archive) is downloaded, its `lib/net*` payload is unpacked into the
    directory of the WeMod executable and flattened to that directory's top
    level. */
module WeModInstall {
  import opened Common
  import opened Text
  import opened World
  import opened Settings

  const ScoopMetadataUrl := "https://raw.githubusercontent.com/Calinou/scoop-games/refs/heads/master/bucket/wemod.json"

  // ----- fetchWeModDownloadURL -----

  /** What the launcher makes of the metadata reply: the trimmed 64-bit URL. */
  function InstallerUrl(reply: Reply): (r: Result<string>)
    ensures r.Success? <==>
      reply.Reply? && IsSuccessCode(reply.code) && reply.body.Json? && !Blank(reply.body.url64)
    ensures r.Success? ==> r.value == TrimSpace(reply.body.url64) && r.value != ""
    ensures reply.Reply? && !IsSuccessCode(reply.code) ==>
      r == Failure("scoop metadata request failed with status " + IntToString(reply.code))
    ensures reply.Reply? && IsSuccessCode(reply.code) && reply.body.Json? && Blank(reply.body.url64) ==>
      r == Failure("scoop metadata does not contain a 64bit WeMod URL")
  {
    match reply
    case NoReply(reason) => Failure("fetch scoop metadata: " + reason)
    case Reply(code, body) =>
      if !IsSuccessCode(code) then Failure("scoop metadata request failed with status " + IntToString(code))
      else match body
        case NotJson(reason) => Failure("decode scoop metadata: " + reason)
        case Json(_, url64) =>
          var url := TrimSpace(url64);
          if url == "" then Failure("scoop metadata does not contain a 64bit WeMod URL")
          else Success(url)
  }

  /** Effect of `fetchWeModDownloadURL`: one GET of the metadata. */
  function FetchUrlSpec(o: Oracle, s: State): (r: (State, Result<string>))
    ensures r.0 == Step(o, s, Fetched(ScoopMetadataUrl)).0
    ensures r.1 == InstallerUrl(o.reply(s.trace, ScoopMetadataUrl))
  {
    (Step(o, s, Fetched(ScoopMetadataUrl)).0, InstallerUrl(o.reply(s.trace, ScoopMetadataUrl)))
  }

  method FetchWeModDownloadUrl(h: Host) returns (r: Result<string>)
    modifies h
    ensures (h.state, r) == FetchUrlSpec(h.oracle, old(h.state))
  {
    var reply := h.Fetch(ScoopMetadataUrl);
    if reply.NoReply? {
      return Failure("fetch scoop metadata: " + reply.reason);
    }
    if reply.code < 200 || reply.code > 299 {
      return Failure("scoop metadata request failed with status " + IntToString(reply.code));
    }
    if reply.body.NotJson? {
      return Failure("decode scoop metadata: " + reply.body.reason);
    }
    var url := TrimSpace(reply.body.url64);
    if url == "" {
      return Failure("scoop metadata does not contain a 64bit WeMod URL");
    }
    return Success(url);
  }

  // ----- downloadFile -----

  /** Effect of `downloadFile(url, destination)`: the GET, then, for a 2xx
      answer, the creation of the destination file. */
  function DownloadFileSpec(o: Oracle, s: State, url: string, destination: string): (State, Status) {
    var reply := o.reply(s.trace, url);
    var s1 := Step(o, s, Downloaded(url)).0;
    match reply
    case NoReply(reason) => (s1, Fail("download file: " + reason))
    case Reply(code, _) =>
      if !IsSuccessCode(code) then (s1, Fail("download failed with status " + IntToString(code)))
      else
        var (s2, file) := Step(o, s1, Wrote(destination));
        (s2, if file.Fail? then Fail("create destination file: " + file.msg) else Ok)
  }

  method DownloadFile(h: Host, url: string, destination: string) returns (st: Status)
    modifies h
    ensures (h.state, st) == DownloadFileSpec(h.oracle, old(h.state), url, destination)
  {
    var reply := h.Download(url);
    if reply.NoReply? {
      return Fail("download file: " + reply.reason);
    }
    if reply.code < 200 || reply.code > 299 {
      return Fail("download failed with status " + IntToString(reply.code));
    }
    var file := h.Do(Wrote(destination));
    if file.Fail? {
      return Fail("create destination file: " + file.msg);
    }
    return Ok;
  }

  /** A download either saves the file, after exactly one GET of `url`, or
      fails without creating it anew. */
  lemma DownloadFileShape(o: Oracle, s: State, url: string, destination: string)
    ensures var (s', st) := DownloadFileSpec(o, s, url, destination);
      && s.trace <= s'.trace
      && 1 <= |Since(s, s')| <= 2 && Since(s, s')[0] == Downloaded(url)
      && (st.Ok? <==> Since(s, s') == [Downloaded(url), Wrote(destination)] && o.outcome(s'.trace[..|s'.trace| - 1], Wrote(destination)).Ok?)
      && (st.Ok? ==> destination in s'.files)
  {
    var reply := o.reply(s.trace, url);
    var s1 := Step(o, s, Downloaded(url)).0;
    assert Since(s, s1) == [Downloaded(url)];
    if reply.Reply? && IsSuccessCode(reply.code) {
      var (s2, file) := Step(o, s1, Wrote(destination));
      SinceChain(s, s1, s2);
      assert s2.trace[..|s2.trace| - 1] == s1.trace;
      assert Since(s, s2) == [Downloaded(url), Wrote(destination)];
    }
  }

  // ----- extractNetPayload: the entry loop -----

  /** An entry name with Windows separators turned into '/'. */
  function ArchiveName(name: string): (r: string)
    ensures |r| == |name| && '\\' !in r
  {
    ReplaceCharRemoves(name, '\\', '/');
    ReplaceChar(name, '\\', '/')
  }

  /** Only the `lib/net...` part of the installer is unpacked. */
  predicate InPayload(e: ZipEntry) {
    HasPrefix(ArchiveName(e.name), "lib/net")
  }

  /** Where an entry is unpacked. */
  function Target(destination: string, archiveName: string): string {
    Clean(Join(destination, archiveName))
  }

  /** The zip-slip guard: the cleaned target lies strictly inside the
      cleaned destination. */
  predicate Safe(destination: string, archiveName: string) {
    HasPrefix(Target(destination, archiveName), Clean(destination) + "/")
  }

  /** The loop over the archive's entries; `extracted` is the loop's flag,
      and the result is its final value. */
  function NetPass(o: Oracle, s: State, entries: seq<ZipEntry>, destination: string, extracted: bool): (State, Result<bool>)
    decreases |entries|
  {
    if entries == [] then (s, Success(extracted))
    else if !InPayload(entries[0]) then NetPass(o, s, entries[1..], destination, extracted)
    else
      var name := ArchiveName(entries[0].name);
      var target := Target(destination, name);
      if !Safe(destination, name) then (s, Failure("unsafe archive path: " + name))
      else if entries[0].isDir then
        var (s1, made) := Step(o, s, MadeDir(target));
        if made.Fail? then (s1, Failure("create extracted directory: " + made.msg))
        else NetPass(o, s1, entries[1..], destination, true)
      else
        var (s1, made) := Step(o, s, MadeDir(Dir(target)));
        if made.Fail? then (s1, Failure("create extracted parent dir: " + made.msg))
        else
          var (s2, file) := Step(o, s1, Wrote(target));
          if file.Fail? then (s2, Failure("create extracted file: " + file.msg))
          else NetPass(o, s2, entries[1..], destination, true)
  }

  method UnpackEntries(h: Host, entries: seq<ZipEntry>, destination: string) returns (r: Result<bool>)
    modifies h
    ensures (h.state, r) == NetPass(h.oracle, old(h.state), entries, destination, false)
  {
    ghost var s0 := h.state;
    var extracted := false;
    var i := 0;
    while i < |entries|
      invariant 0 <= i <= |entries|
      invariant NetPass(h.oracle, h.state, entries[i..], destination, extracted) == NetPass(h.oracle, s0, entries, destination, false)
    {
      assert entries[i..][1..] == entries[i + 1..];
      var archiveName := ReplaceChar(entries[i].name, '\\', '/');
      if !HasPrefix(archiveName, "lib/net") {
        i := i + 1;
        continue;
      }
      var cleanTarget := Clean(Join(destination, archiveName));
      if !HasPrefix(cleanTarget, Clean(destination) + "/") {
        return Failure("unsafe archive path: " + archiveName);
      }
      if entries[i].isDir {
        var made := h.Do(MadeDir(cleanTarget));
        if made.Fail? {
          return Failure("create extracted directory: " + made.msg);
        }
        extracted := true;
        i := i + 1;
        continue;
      }
      var made := h.Do(MadeDir(Dir(cleanTarget)));
      if made.Fail? {
        return Failure("create extracted parent dir: " + made.msg);
      }
      var file := h.Do(Wrote(cleanTarget));
      if file.Fail? {
        return Failure("create extracted file: " + file.msg);
      }
      extracted := true;
      i := i + 1;
    }
    return Success(extracted);
  }

  /** Every effect in `t` creates a path at or below `root`. */
  predicate CreatesOnlyBelow(t: seq<Effect>, root: string) {
    forall i :: 0 <= i < |t| ==> (t[i].MadeDir? || t[i].Wrote?) && Under(t[i].path, root)
  }

  /** The zip-slip guard holds: unpacking creates directories and files at
      or below the cleaned destination and nowhere else. */
  lemma {:induction false} NetPassContained(o: Oracle, s: State, entries: seq<ZipEntry>, destination: string, extracted: bool)
    requires Clean(destination) != "/"
    ensures var s' := NetPass(o, s, entries, destination, extracted).0;
      s.trace <= s'.trace && CreatesOnlyBelow(Since(s, s'), Clean(destination))
    decreases |entries|
  {
    var root := Clean(destination);
    if entries != [] {
      if !InPayload(entries[0]) {
        NetPassContained(o, s, entries[1..], destination, extracted);
      } else {
        var name := ArchiveName(entries[0].name);
        var target := Target(destination, name);
        if Safe(destination, name) {
          if entries[0].isDir {
            var (s1, made) := Step(o, s, MadeDir(target));
            assert Since(s, s1) == [MadeDir(target)];
            if made.Ok? {
              NetPassContained(o, s1, entries[1..], destination, true);
              var s' := NetPass(o, s1, entries[1..], destination, true).0;
              ContainedChain(s, s1, s', root);
            }
          } else {
            SafeParentBelow(destination, name);
            var (s1, made) := Step(o, s, MadeDir(Dir(target)));
            assert Since(s, s1) == [MadeDir(Dir(target))];
            if made.Ok? {
              var (s2, file) := Step(o, s1, Wrote(target));
              assert Since(s1, s2) == [Wrote(target)];
              ContainedChain(s, s1, s2, root);
              if file.Ok? {
                NetPassContained(o, s2, entries[1..], destination, true);
                var s' := NetPass(o, s2, entries[1..], destination, true).0;
                ContainedChain(s, s2, s', root);
              }
            }
          }
        }
      }
    }
  }

  /** Two stretches of effects that each create only below `root` make one. */
  lemma ContainedChain(s: State, s1: State, s2: State, root: string)
    requires s.trace <= s1.trace <= s2.trace
    requires CreatesOnlyBelow(Since(s, s1), root) && CreatesOnlyBelow(Since(s1, s2), root)
    ensures s.trace <= s2.trace && CreatesOnlyBelow(Since(s, s2), root)
  {
    SinceChain(s, s1, s2);
  }

  /** A file that passes the guard has its parent directory at or below the
      cleaned destination. */
  lemma SafeParentBelow(destination: string, name: string)
    requires Clean(destination) != "/" && Safe(destination, name)
    ensures Under(Dir(Target(destination, name)), Clean(destination))
  {
    CleanShape(destination);
    DirBelow(Target(destination, name), Clean(destination));
  }

  /** Unpacking removes no path. */
  lemma {:induction false} NetPassGrows(o: Oracle, s: State, entries: seq<ZipEntry>, destination: string, extracted: bool)
    ensures s.files <= NetPass(o, s, entries, destination, extracted).0.files
    decreases |entries|
  {
    if entries != [] {
      if !InPayload(entries[0]) {
        NetPassGrows(o, s, entries[1..], destination, extracted);
      } else {
        var name := ArchiveName(entries[0].name);
        var target := Target(destination, name);
        if Safe(destination, name) && entries[0].isDir {
          var (s1, made) := Step(o, s, MadeDir(target));
          CreatingGrows(o, s, MadeDir(target));
          if made.Ok? {
            NetPassGrows(o, s1, entries[1..], destination, true);
            assert NetPass(o, s, entries, destination, extracted) == NetPass(o, s1, entries[1..], destination, true);
          }
        } else if Safe(destination, name) {
          var (s1, made) := Step(o, s, MadeDir(Dir(target)));
          var (s2, file) := Step(o, s1, Wrote(target));
          CreatingGrows(o, s, MadeDir(Dir(target)));
          CreatingGrows(o, s1, Wrote(target));
          if made.Ok? && file.Ok? {
            NetPassGrows(o, s2, entries[1..], destination, true);
            assert NetPass(o, s, entries, destination, extracted) == NetPass(o, s2, entries[1..], destination, true);
          }
        }
      }
    }
  }

  /** The flag a successful pass returns says whether the archive had any
      payload entry at all. */
  lemma {:induction false} NetPassFlag(o: Oracle, s: State, entries: seq<ZipEntry>, destination: string, extracted: bool)
    ensures var r := NetPass(o, s, entries, destination, extracted).1;
      r.Success? ==> (r.value <==> extracted || exists i :: 0 <= i < |entries| && InPayload(entries[i]))
    decreases |entries|
  {
    if entries != [] {
      var rest := entries[1..];
      assert forall i :: 1 <= i < |entries| ==> entries[i] == rest[i - 1];
      if !InPayload(entries[0]) {
        NetPassFlag(o, s, rest, destination, extracted);
      } else {
        var target := Target(destination, ArchiveName(entries[0].name));
        var s1 := Step(o, s, if entries[0].isDir then MadeDir(target) else MadeDir(Dir(target))).0;
        var next := if entries[0].isDir then s1 else Step(o, s1, Wrote(target)).0;
        NetPassFlag(o, next, rest, destination, true);
      }
    }
  }

  /** A pass that succeeds passed every payload entry through the guard and
      left each one's target in place. */
  lemma {:induction false} NetPassTargets(o: Oracle, s: State, entries: seq<ZipEntry>, destination: string, extracted: bool)
    ensures var (s', r) := NetPass(o, s, entries, destination, extracted);
      r.Success? ==>
        forall i :: 0 <= i < |entries| && InPayload(entries[i]) ==>
          && Safe(destination, ArchiveName(entries[i].name))
          && Target(destination, ArchiveName(entries[i].name)) in s'.files
    decreases |entries|
  {
    if entries != [] {
      var rest := entries[1..];
      var r := NetPass(o, s, entries, destination, extracted);
      if !InPayload(entries[0]) {
        NetPassTargets(o, s, rest, destination, extracted);
        assert forall i :: 1 <= i < |entries| ==> entries[i] == rest[i - 1];
      } else if r.1.Success? {
        var next := NetPassHead(o, s, entries, destination, extracted);
        NetPassTargets(o, next, rest, destination, true);
        NetPassGrows(o, next, rest, destination, true);
        assert forall i :: 1 <= i < |entries| ==> entries[i] == rest[i - 1];
      }
    }
  }

  /** A successful pass over a payload entry first unpacks that entry, whose
      target passed the guard and is then in place, and goes on from there. */
  lemma NetPassHead(o: Oracle, s: State, entries: seq<ZipEntry>, destination: string, extracted: bool)
    returns (next: State)
    requires entries != [] && InPayload(entries[0])
    requires NetPass(o, s, entries, destination, extracted).1.Success?
    ensures var name := ArchiveName(entries[0].name);
      && Safe(destination, name)
      && Target(destination, name) in next.files
      && NetPass(o, s, entries, destination, extracted) == NetPass(o, next, entries[1..], destination, true)
  {
    var name := ArchiveName(entries[0].name);
    var target := Target(destination, name);
    var s1 := Step(o, s, if entries[0].isDir then MadeDir(target) else MadeDir(Dir(target))).0;
    next := if entries[0].isDir then s1 else Step(o, s1, Wrote(target)).0;
  }

  /** A payload name made of plain elements passes the guard for a clean,
      absolute destination other than "/". */
  lemma SafeWhenPlain(destination: string, name: string)
    requires Clean(destination) == destination && |destination| > 1 && destination[0] == '/'
    requires CleanElements(Split(name, '/'), true)
    ensures Safe(destination, name)
  {
    CleanPlainJoin(destination, name);
  }

  // ----- findNetPayloadRoot -----

  /** A `lib` entry that may hold the payload: a directory named `net...` in
      any (ASCII) case. */
  predicate IsNetDir(e: DirEntry) {
    e.isDir && HasPrefix(ToLower(e.name), "net")
  }

  /** The candidate list built by the loop, in listing order. */
  function NetCandidates(libDir: string, entries: seq<DirEntry>): (r: seq<string>)
    ensures |r| <= |entries|
    decreases |entries|
  {
    if entries == [] then []
    else
      var last := entries[|entries| - 1];
      NetCandidates(libDir, entries[..|entries| - 1]) + (if IsNetDir(last) then [Join(libDir, last.name)] else [])
  }

  /** The candidates are exactly the `net...` directories, joined to `lib`. */
  lemma {:induction false} NetCandidatesAre(libDir: string, entries: seq<DirEntry>)
    ensures forall c :: c in NetCandidates(libDir, entries) <==>
      exists e :: e in entries && IsNetDir(e) && c == Join(libDir, e.name)
    decreases |entries|
  {
    if entries != [] {
      var init := entries[..|entries| - 1];
      NetCandidatesAre(libDir, init);
      assert entries == init + [entries[|entries| - 1]];
    }
  }

  /** `candidate` holds the WeMod executable. */
  predicate HoldsExe(o: Oracle, s: State, candidate: string) {
    Exists(o, s, Join(candidate, "WeMod.exe"))
  }

  /** The first candidate, in order, that holds the executable. */
  function FirstWithExe(o: Oracle, s: State, cs: seq<string>): (r: Option<nat>)
    ensures r.Some? ==> r.value < |cs| && HoldsExe(o, s, cs[r.value])
    ensures r.Some? ==> forall j :: 0 <= j < r.value ==> !HoldsExe(o, s, cs[j])
    ensures r.None? <==> forall j :: 0 <= j < |cs| ==> !HoldsExe(o, s, cs[j])
    decreases |cs|
  {
    if cs == [] then None
    else if HoldsExe(o, s, cs[0]) then Some(0)
    else
      var k := FirstWithExe(o, s, cs[1..]);
      assert forall j :: 1 <= j < |cs| ==> cs[j] == cs[1..][j - 1];
      if k.None? then None else Some(k.value + 1)
  }

  /** The choice among the sorted candidates. */
  function PickRoot(o: Oracle, s: State, sorted: seq<string>): string
    requires sorted != []
  {
    var k := FirstWithExe(o, s, sorted);
    if k.Some? then sorted[k.value] else sorted[0]
  }

  /** Effect of `findNetPayloadRoot(libDir)`. */
  function PayloadRootSpec(o: Oracle, s: State, libDir: string): (State, Result<string>) {
    var listing := o.listing(s.trace, libDir);
    var s1 := Step(o, s, Listed(libDir)).0;
    if listing.Failure? then (s1, Failure("read lib directory: " + listing.msg))
    else
      var cs := NetCandidates(libDir, listing.value);
      if cs == [] then (s1, Failure("read net payload directory: no lib/net* payload found in installer"))
      else (s1, Success(PickRoot(o, s1, SortStrings(cs))))
  }

  method FindNetPayloadRoot(h: Host, libDir: string) returns (r: Result<string>)
    modifies h
    ensures (h.state, r) == PayloadRootSpec(h.oracle, old(h.state), libDir)
  {
    var listing := h.ReadDir(libDir);
    if listing.Failure? {
      return Failure("read lib directory: " + listing.msg);
    }
    var candidates := CollectCandidates(libDir, listing.value);
    if |candidates| == 0 {
      return Failure("read net payload directory: no lib/net* payload found in installer");
    }
    var sorted := SortStrings(candidates);
    assert |sorted| == |candidates| by {
      assert |multiset(sorted)| == |multiset(candidates)|;
    }
    var root := ScanCandidates(h, sorted);
    return Success(root);
  }

  /** The first loop of `findNetPayloadRoot`. */
  method CollectCandidates(libDir: string, entries: seq<DirEntry>) returns (candidates: seq<string>)
    ensures candidates == NetCandidates(libDir, entries)
  {
    candidates := [];
    var i := 0;
    while i < |entries|
      invariant 0 <= i <= |entries|
      invariant candidates == NetCandidates(libDir, entries[..i])
    {
      assert entries[..i + 1][..i] == entries[..i];
      if entries[i].isDir && HasPrefix(ToLower(entries[i].name), "net") {
        candidates := candidates + [Join(libDir, entries[i].name)];
      }
      i := i + 1;
    }
    assert entries[..i] == entries;
  }

  /** The second loop of `findNetPayloadRoot`: `os.Stat` on each sorted
      candidate's `WeMod.exe`. */
  method ScanCandidates(h: Host, sorted: seq<string>) returns (root: string)
    requires sorted != []
    ensures root == PickRoot(h.oracle, h.state, sorted)
  {
    var j := 0;
    while j < |sorted|
      invariant 0 <= j <= |sorted|
      invariant forall k :: 0 <= k < j ==> !HoldsExe(h.oracle, h.state, sorted[k])
    {
      var found := h.Stat(Join(sorted[j], "WeMod.exe"));
      if found {
        FirstWithExeAt(h.oracle, h.state, sorted, j);
        return sorted[j];
      }
      j := j + 1;
    }
    return sorted[0];
  }

  /** A candidate holding the executable with none before it is the first. */
  lemma FirstWithExeAt(o: Oracle, s: State, cs: seq<string>, j: nat)
    requires j < |cs| && HoldsExe(o, s, cs[j])
    requires forall k :: 0 <= k < j ==> !HoldsExe(o, s, cs[k])
    ensures FirstWithExe(o, s, cs) == Some(j)
  {
    var r := FirstWithExe(o, s, cs);
    assert r.Some?;
    assert !(r.value < j);
    assert !(j < r.value);
  }

  lemma AtMostReflexive(a: string)
    ensures AtMost(a, a)
  {
  }

  /** The chosen payload root is a `net...` directory of `lib`; it holds the
      executable whenever some candidate does, and is then the least such
      candidate in byte order; otherwise it is the least candidate. The
      lookup fails only when `lib` cannot be read or has no candidate. */
  lemma PayloadRootChoice(o: Oracle, s: State, libDir: string)
    ensures var (s1, r) := PayloadRootSpec(o, s, libDir);
      var listing := o.listing(s.trace, libDir);
      && s1 == Step(o, s, Listed(libDir)).0
      && (r.Failure? <==> listing.Failure? || NetCandidates(libDir, listing.value) == [])
      && (r.Success? ==>
            var cs := NetCandidates(libDir, listing.value);
            && r.value in cs
            && (exists e :: e in listing.value && IsNetDir(e) && r.value == Join(libDir, e.name))
            && ((exists c :: c in cs && HoldsExe(o, s1, c)) ==>
                  HoldsExe(o, s1, r.value) && forall c :: c in cs && HoldsExe(o, s1, c) ==> AtMost(r.value, c))
            && ((forall c :: c in cs ==> !HoldsExe(o, s1, c)) ==>
                  forall c :: c in cs ==> AtMost(r.value, c)))
  {
    var listing := o.listing(s.trace, libDir);
    var s1 := Step(o, s, Listed(libDir)).0;
    if listing.Success? {
      var cs := NetCandidates(libDir, listing.value);
      NetCandidatesAre(libDir, listing.value);
      if cs != [] {
        var sorted := SortStrings(cs);
        assert |sorted| == |cs| by {
          assert |multiset(sorted)| == |multiset(cs)|;
        }
        assert forall c :: c in cs <==> c in sorted by {
          forall c ensures c in cs <==> c in sorted {
            assert c in cs <==> c in multiset(cs);
            assert c in sorted <==> c in multiset(sorted);
          }
        }
        var root := PickRoot(o, s1, sorted);
        var k := FirstWithExe(o, s1, sorted);
        var at: nat := if k.Some? then k.value else 0;
        assert root == sorted[at];
        forall c | c in cs && (k.None? || HoldsExe(o, s1, c))
          ensures AtMost(root, c)
        {
          var j :| 0 <= j < |sorted| && sorted[j] == c;
          if j == at {
            AtMostReflexive(c);
          } else {
            assert at < j;
          }
        }
        assert root in sorted;
      }
    }
  }

  // ----- extractNetPayload: flattening -----

  /** The loop that moves every entry of the payload root to the top of the
      destination. */
  function MovePass(o: Oracle, s: State, entries: seq<DirEntry>, payloadRoot: string, destination: string): (State, Status)
    decreases |entries|
  {
    if entries == [] then (s, Ok)
    else
      var name := entries[0].name;
      var (s1, moved) := Step(o, s, Renamed(Join(payloadRoot, name), Join(destination, name)));
      if moved.Fail? then (s1, Fail("move extracted payload: " + moved.msg))
      else MovePass(o, s1, entries[1..], payloadRoot, destination)
  }

  /** The moves, one per entry of the payload root, in listing order. */
  function Moves(entries: seq<DirEntry>, payloadRoot: string, destination: string): (r: seq<Effect>)
    ensures |r| == |entries|
    ensures forall i :: 0 <= i < |entries| ==>
      r[i] == Renamed(Join(payloadRoot, entries[i].name), Join(destination, entries[i].name))
  {
    seq(|entries|, i requires 0 <= i < |entries| =>
      Renamed(Join(payloadRoot, entries[i].name), Join(destination, entries[i].name)))
  }

  method MoveEntries(h: Host, entries: seq<DirEntry>, payloadRoot: string, destination: string) returns (st: Status)
    modifies h
    ensures (h.state, st) == MovePass(h.oracle, old(h.state), entries, payloadRoot, destination)
  {
    ghost var s0 := h.state;
    var i := 0;
    while i < |entries|
      invariant 0 <= i <= |entries|
      invariant MovePass(h.oracle, h.state, entries[i..], payloadRoot, destination) == MovePass(h.oracle, s0, entries, payloadRoot, destination)
    {
      assert entries[i..][1..] == entries[i + 1..];
      var moved := h.Do(Renamed(Join(payloadRoot, entries[i].name), Join(destination, entries[i].name)));
      if moved.Fail? {
        return Fail("move extracted payload: " + moved.msg);
      }
      i := i + 1;
    }
    return Ok;
  }

  /** Flattening performs the moves in order, stopping at the first that
      fails; it succeeds only when every entry was moved. */
  lemma {:induction false} MovePassShape(o: Oracle, s: State, entries: seq<DirEntry>, payloadRoot: string, destination: string)
    ensures var (s', st) := MovePass(o, s, entries, payloadRoot, destination);
      && s.trace <= s'.trace
      && Since(s, s') <= Moves(entries, payloadRoot, destination)
      && (st.Ok? <==> Since(s, s') == Moves(entries, payloadRoot, destination)
                      && forall j :: |s.trace| <= j < |s'.trace| ==> o.outcome(s'.trace[..j], s'.trace[j]).Ok?)
    decreases |entries|
  {
    if entries != [] {
      var name := entries[0].name;
      var e := Renamed(Join(payloadRoot, name), Join(destination, name));
      var (s1, moved) := Step(o, s, e);
      var ms := Moves(entries, payloadRoot, destination);
      var rest := Moves(entries[1..], payloadRoot, destination);
      assert ms == [e] + rest;
      assert Since(s, s1) == [e];
      assert s1.trace[..|s.trace|] == s.trace;
      if moved.Ok? {
        MovePassShape(o, s1, entries[1..], payloadRoot, destination);
        var s' := MovePass(o, s1, entries[1..], payloadRoot, destination).0;
        SinceChain(s, s1, s');
        var n := |s.trace|;
        assert s'.trace[..n] == s.trace && s'.trace[n] == e;
        assert o.outcome(s'.trace[..n], s'.trace[n]).Ok?;
        assert Since(s, s') == [e] + Since(s1, s');
      } else {
        assert |Since(s, s1)| == 1 && |ms| >= 1;
      }
    }
  }

  // ----- extractNetPayload -----

  /** Effect of `extractNetPayload(installerPath, destination)`. */
  function ExtractNetSpec(o: Oracle, s: State, installer: string, destination: string): (State, Status) {
    var archive := o.archive(s.trace, installer);
    var s1 := Step(o, s, Opened(installer)).0;
    if archive.Failure? then (s1, Fail("open installer archive: " + archive.msg))
    else
      var (s2, pass) := NetPass(o, s1, archive.value, destination, false);
      if pass.Failure? then (s2, Fail(pass.msg))
      else if !pass.value then (s2, Fail("installer archive did not contain lib/net payload"))
      else
        var lib := Join(destination, "lib");
        var (s3, root) := PayloadRootSpec(o, s2, lib);
        if root.Failure? then (s3, Fail(root.msg))
        else
          var listing := o.listing(s3.trace, root.value);
          var s4 := Step(o, s3, Listed(root.value)).0;
          if listing.Failure? then (s4, Fail("read net payload directory: " + listing.msg))
          else
            var (s5, moved) := MovePass(o, s4, listing.value, root.value, destination);
            if moved.Fail? then (s5, moved)
            else Step(o, s5, Removed(lib))
  }

  method ExtractNetPayload(h: Host, installer: string, destination: string) returns (st: Status)
    modifies h
    ensures (h.state, st) == ExtractNetSpec(h.oracle, old(h.state), installer, destination)
  {
    var archive := h.OpenZip(installer);
    if archive.Failure? {
      return Fail("open installer archive: " + archive.msg);
    }
    var extracted := UnpackEntries(h, archive.value, destination);
    if extracted.Failure? {
      return Fail(extracted.msg);
    }
    if !extracted.value {
      return Fail("installer archive did not contain lib/net payload");
    }
    var lib := Join(destination, "lib");
    var root := FindNetPayloadRoot(h, lib);
    if root.Failure? {
      return Fail(root.msg);
    }
    var listing := h.ReadDir(root.value);
    if listing.Failure? {
      return Fail("read net payload directory: " + listing.msg);
    }
    st := MoveEntries(h, listing.value, root.value, destination);
    if st.Fail? {
      return st;
    }
    st := h.Do(Removed(lib));
  }

  /** An archive without any `lib/net...` entry is rejected after the pass,
      without anything having been created. */
  lemma NoPayloadRejected(o: Oracle, s: State, installer: string, destination: string)
    requires o.archive(s.trace, installer).Success?
    requires forall e :: e in o.archive(s.trace, installer).value ==> !InPayload(e)
    ensures var (s', st) := ExtractNetSpec(o, s, installer, destination);
      && s'.trace == s.trace + [Opened(installer)]
      && st == Fail("installer archive did not contain lib/net payload")
  {
    var s1 := Step(o, s, Opened(installer)).0;
    var entries := o.archive(s.trace, installer).value;
    NoPayloadPass(o, s1, entries, destination);
  }

  lemma {:induction false} NoPayloadPass(o: Oracle, s: State, entries: seq<ZipEntry>, destination: string)
    requires forall e :: e in entries ==> !InPayload(e)
    ensures NetPass(o, s, entries, destination, false) == (s, Success(false))
    decreases |entries|
  {
    if entries != [] {
      assert entries[0] in entries;
      assert forall e :: e in entries[1..] ==> e in entries;
      NoPayloadPass(o, s, entries[1..], destination);
    }
  }

  /** A successful extraction unpacked the whole payload through the guard,
      then listed the chosen payload root, moved each of its entries to the
      destination in listing order and removed `lib`, in that order. */
  lemma ExtractNetOk(o: Oracle, s: State, installer: string, destination: string)
    requires ExtractNetSpec(o, s, installer, destination).1.Ok?
    ensures var archive := o.archive(s.trace, installer);
      var s1 := Step(o, s, Opened(installer)).0;
      var lib := Join(destination, "lib");
      && archive.Success?
      && var (s2, pass) := NetPass(o, s1, archive.value, destination, false);
      && pass == Success(true)
      && (forall e :: e in archive.value && InPayload(e) ==>
            Safe(destination, ArchiveName(e.name)) && Target(destination, ArchiveName(e.name)) in s2.files)
      && var (s3, root) := PayloadRootSpec(o, s2, lib);
      && root.Success?
      && var listing := o.listing(s3.trace, root.value);
      && listing.Success?
      && var s' := ExtractNetSpec(o, s, installer, destination).0;
      && s3.trace <= s'.trace
      && Since(s3, s') == [Listed(root.value)] + Moves(listing.value, root.value, destination) + [Removed(lib)]
  {
    var archive := o.archive(s.trace, installer);
    var s1 := Step(o, s, Opened(installer)).0;
    var lib := Join(destination, "lib");
    var (s2, pass) := NetPass(o, s1, archive.value, destination, false);
    NetPassTargets(o, s1, archive.value, destination, false);
    forall e | e in archive.value && InPayload(e)
      ensures Safe(destination, ArchiveName(e.name)) && Target(destination, ArchiveName(e.name)) in s2.files
    {
      var i :| 0 <= i < |archive.value| && archive.value[i] == e;
    }
    var (s3, root) := PayloadRootSpec(o, s2, lib);
    var listing := o.listing(s3.trace, root.value);
    var s4 := Step(o, s3, Listed(root.value)).0;
    var (s5, moved) := MovePass(o, s4, listing.value, root.value, destination);
    MovePassShape(o, s4, listing.value, root.value, destination);
    var s' := Step(o, s5, Removed(lib)).0;
    assert ExtractNetSpec(o, s, installer, destination).0 == s';
    SinceChain(s3, s4, s5);
    SinceChain(s3, s5, s');
    assert Since(s3, s4) == [Listed(root.value)];
    assert Since(s5, s') == [Removed(lib)];
  }

  // ----- EnsureWeMod -----

  function InstallerPath(cfg: Config): string {
    Join(cfg.downloadDir, "wemod-setup.exe")
  }

  /** Effect of `EnsureWeMod(cfg, force)`. */
  function EnsureSpec(o: Oracle, s: State, cfg: Config, force: bool): (State, Status) {
    if !force && Exists(o, s, cfg.weModExePath) then (s, Ok)
    else
      var (s1, saved) := PrepareSpec(o, s, cfg);
      if saved.Fail? then (s1, saved)
      else InstallSpec(o, s1, cfg)
  }

  /** The part of `EnsureWeMod` up to the saved installer: the two
      directories, the metadata lookup and the download. */
  function PrepareSpec(o: Oracle, s: State, cfg: Config): (State, Status) {
    var (s1, dl) := Step(o, s, MadeDir(cfg.downloadDir));
    if dl.Fail? then (s1, Fail("create download dir: " + dl.msg))
    else
      var (s2, bin) := Step(o, s1, MadeDir(Dir(cfg.weModExePath)));
      if bin.Fail? then (s2, Fail("create wemod bin dir: " + bin.msg))
      else
        var (s3, url) := FetchUrlSpec(o, s2);
        if url.Failure? then (s3, Fail(url.msg))
        else DownloadFileSpec(o, s3, url.value, InstallerPath(cfg))
  }

  /** The part of `EnsureWeMod` after the installer is saved: the old
      install is replaced by the unpacked payload. */
  function InstallSpec(o: Oracle, s: State, cfg: Config): (State, Status) {
    var root := Dir(cfg.weModExePath);
    var (s1, removed) := Step(o, s, Removed(root));
    if removed.Fail? then (s1, Fail("cleanup old wemod install: " + removed.msg))
    else
      var (s2, made) := Step(o, s1, MadeDir(root));
      if made.Fail? then (s2, Fail("create install root: " + made.msg))
      else
        var (s3, extracted) := ExtractNetSpec(o, s2, InstallerPath(cfg), root);
        if extracted.Fail? then (s3, extracted)
        else if !Exists(o, s3, cfg.weModExePath) then
          (s3, Fail("wemod extracted but executable missing at " + cfg.weModExePath))
        else (s3, Ok)
  }

  method EnsureWeMod(h: Host, cfg: Config, force: bool) returns (st: Status)
    modifies h
    ensures (h.state, st) == EnsureSpec(h.oracle, old(h.state), cfg, force)
  {
    if !force {
      var present := h.Stat(cfg.weModExePath);
      if present {
        return Ok;
      }
    }
    var made := h.Do(MadeDir(cfg.downloadDir));
    if made.Fail? {
      return Fail("create download dir: " + made.msg);
    }
    made := h.Do(MadeDir(Dir(cfg.weModExePath)));
    if made.Fail? {
      return Fail("create wemod bin dir: " + made.msg);
    }
    var url := FetchWeModDownloadUrl(h);
    if url.Failure? {
      return Fail(url.msg);
    }
    var installerPath := InstallerPath(cfg);
    st := DownloadFile(h, url.value, installerPath);
    if st.Fail? {
      return st;
    }
    var installRoot := Dir(cfg.weModExePath);
    var removed := h.Do(Removed(installRoot));
    if removed.Fail? {
      return Fail("cleanup old wemod install: " + removed.msg);
    }
    made := h.Do(MadeDir(installRoot));
    if made.Fail? {
      return Fail("create install root: " + made.msg);
    }
    st := ExtractNetPayload(h, installerPath, installRoot);
    if st.Fail? {
      return st;
    }
    var present := h.Stat(cfg.weModExePath);
    if !present {
      return Fail("wemod extracted but executable missing at " + cfg.weModExePath);
    }
    return Ok;
  }

  /** Success means the executable exists, whether it was already there or
      has just been installed. */
  lemma EnsureOkHasExe(o: Oracle, s: State, cfg: Config, force: bool)
    ensures var (s', st) := EnsureSpec(o, s, cfg, force);
      st.Ok? ==> Exists(o, s', cfg.weModExePath)
  {
    if force || !Exists(o, s, cfg.weModExePath) {
      var (s1, saved) := PrepareSpec(o, s, cfg);
      if saved.Ok? {
        assert EnsureSpec(o, s, cfg, force) == InstallSpec(o, s1, cfg);
        InstallOkHasExe(o, s1, cfg);
      }
    }
  }

  lemma InstallOkHasExe(o: Oracle, s: State, cfg: Config)
    ensures var (s', st) := InstallSpec(o, s, cfg);
      st.Ok? ==> Exists(o, s', cfg.weModExePath)
  {
  }

  /** The install root after the old install was removed and the root made
      again. */
  function Cleaned(o: Oracle, s: State, cfg: Config): State {
    var root := Dir(cfg.weModExePath);
    Step(o, Step(o, s, Removed(root)).0, MadeDir(root)).0
  }

  /** After a successful install WeMod.exe exists because the extraction put
      it there: the cleanup removed everything below the install root, an old
      executable included, and making the root again does not bring it back.
      The extraction ran on that cleaned root and succeeded. */
  lemma InstallProducesExe(o: Oracle, s: State, cfg: Config)
    ensures var (s', st) := InstallSpec(o, s, cfg);
      var exe := cfg.weModExePath;
      var root := Dir(exe);
      var extracted := ExtractNetSpec(o, Cleaned(o, s, cfg), InstallerPath(cfg), root);
      st.Ok? ==>
        && extracted.1.Ok? && s' == extracted.0
        && exe in s'.files
        && (Under(exe, root) && exe != root ==> exe !in Cleaned(o, s, cfg).files)
  {
    var root := Dir(cfg.weModExePath);
    var (s1, removed) := Step(o, s, Removed(root));
    if removed.Ok? {
      assert s1.files == set f | f in s.files && !Under(f, root);
      var (s2, made) := Step(o, s1, MadeDir(root));
      assert s2.files <= s1.files + {root};
    }
  }

  /** A configured executable `d/name` lies strictly below its directory, so
      the cleanup of that directory removes it. */
  lemma ExeBelowInstallRoot(d: string, name: string)
    requires d != "" && d[|d| - 1] != '/' && name != "" && '/' !in name
    ensures var exe := d + "/" + name;
      Dir(exe) == d && Under(exe, Dir(exe)) && exe != Dir(exe)
  {
    DirOf(d, name);
  }

  /** Without `force`, an existing executable is kept: nothing is fetched,
      downloaded or removed. */
  lemma EnsureSkips(o: Oracle, s: State, cfg: Config)
    requires Exists(o, s, cfg.weModExePath)
    ensures EnsureSpec(o, s, cfg, false) == (s, Ok)
  {
  }

  /** The preparation performs at most five effects; when it succeeds they
      are the two directories, the metadata GET, the GET of the URL the
      metadata names and the saving of the installer, which succeeded. */
  lemma PrepareShape(o: Oracle, s: State, cfg: Config)
    ensures var (s', st) := PrepareSpec(o, s, cfg);
      var n := |s.trace|;
      && s.trace <= s'.trace && |Since(s, s')| <= 5
      && (st.Ok? ==>
            && Since(s, s')[..3] == [MadeDir(cfg.downloadDir), MadeDir(Dir(cfg.weModExePath)), Fetched(ScoopMetadataUrl)]
            && InstallerUrl(o.reply(s'.trace[..n + 2], ScoopMetadataUrl)).Success?
            && Since(s, s')[3..] == [Downloaded(InstallerUrl(o.reply(s'.trace[..n + 2], ScoopMetadataUrl)).value), Wrote(InstallerPath(cfg))]
            && o.outcome(s'.trace[..n + 4], Wrote(InstallerPath(cfg))).Ok?)
  {
    PrepareBound(o, s, cfg);
    if PrepareSpec(o, s, cfg).1.Ok? {
      PrepareOk(o, s, cfg);
    }
  }

  lemma PrepareBound(o: Oracle, s: State, cfg: Config)
    ensures var s' := PrepareSpec(o, s, cfg).0;
      s.trace <= s'.trace && |s'.trace| <= |s.trace| + 5
  {
    var (s1, dl) := Step(o, s, MadeDir(cfg.downloadDir));
    var (s2, bin) := Step(o, s1, MadeDir(Dir(cfg.weModExePath)));
    var (s3, url) := FetchUrlSpec(o, s2);
    assert s.trace <= s3.trace;
    if dl.Ok? && bin.Ok? && url.Success? {
      DownloadFileShape(o, s3, url.value, InstallerPath(cfg));
    }
  }

  lemma PrepareOk(o: Oracle, s: State, cfg: Config)
    requires PrepareSpec(o, s, cfg).1.Ok?
    ensures var s' := PrepareSpec(o, s, cfg).0;
      var n := |s.trace|;
      && s.trace <= s'.trace && |s'.trace| == n + 5
      && Since(s, s')[..3] == [MadeDir(cfg.downloadDir), MadeDir(Dir(cfg.weModExePath)), Fetched(ScoopMetadataUrl)]
      && InstallerUrl(o.reply(s'.trace[..n + 2], ScoopMetadataUrl)).Success?
      && Since(s, s')[3..] == [Downloaded(InstallerUrl(o.reply(s'.trace[..n + 2], ScoopMetadataUrl)).value), Wrote(InstallerPath(cfg))]
      && o.outcome(s'.trace[..n + 4], Wrote(InstallerPath(cfg))).Ok?
  {
    var (s1, dl) := Step(o, s, MadeDir(cfg.downloadDir));
    var (s2, bin) := Step(o, s1, MadeDir(Dir(cfg.weModExePath)));
    var (s3, url) := FetchUrlSpec(o, s2);
    var head := [MadeDir(cfg.downloadDir), MadeDir(Dir(cfg.weModExePath)), Fetched(ScoopMetadataUrl)];
    assert s3.trace == s.trace + head;
    var (s4, saved) := DownloadFileSpec(o, s3, url.value, InstallerPath(cfg));
    assert PrepareSpec(o, s, cfg) == (s4, saved);
    DownloadFileShape(o, s3, url.value, InstallerPath(cfg));
    PrepareTrace(s, s3, s4, head);
    assert s2.trace == s.trace + head[..2];
    assert s4.trace[..|s.trace| + 2] == s2.trace;
    assert url == InstallerUrl(o.reply(s4.trace[..|s.trace| + 2], ScoopMetadataUrl));
    assert Since(s3, s4) == [Downloaded(url.value), Wrote(InstallerPath(cfg))];
    assert s4.trace[..|s.trace| + 4] == s4.trace[..|s4.trace| - 1];
  }

  lemma PrepareTrace(s: State, s3: State, s4: State, head: seq<Effect>)
    requires |head| == 3 && s3.trace == s.trace + head && s3.trace <= s4.trace
    requires 1 <= |Since(s3, s4)| <= 2
    ensures s.trace <= s4.trace && |Since(s, s4)| <= 5
    ensures Since(s, s4)[..3] == head && Since(s, s4)[3..] == Since(s3, s4)
    ensures s4.trace[..|s.trace| + 2] == s.trace + head[..2]
  {
    assert s4.trace == s.trace + head + Since(s3, s4);
  }

  /** The install order: the download directory, the executable's directory,
      the metadata GET, the GET of the URL it names and the saving of the
      installer all come before the old install is removed, and the removal
      happens only once the installer was saved. A successful install gets at
      least that far. */
  lemma EnsureInstallOrder(o: Oracle, s: State, cfg: Config, force: bool)
    requires force || !Exists(o, s, cfg.weModExePath)
    ensures var (s', st) := EnsureSpec(o, s, cfg, force);
      var n := |s.trace|;
      && s.trace <= s'.trace
      && (st.Ok? ==> |Since(s, s')| >= 6)
      && (|Since(s, s')| >= 6 ==>
            && Since(s, s')[..3] == [MadeDir(cfg.downloadDir), MadeDir(Dir(cfg.weModExePath)), Fetched(ScoopMetadataUrl)]
            && InstallerUrl(o.reply(s'.trace[..n + 2], ScoopMetadataUrl)).Success?
            && Since(s, s')[3] == Downloaded(InstallerUrl(o.reply(s'.trace[..n + 2], ScoopMetadataUrl)).value)
            && Since(s, s')[4] == Wrote(InstallerPath(cfg))
            && o.outcome(s'.trace[..n + 4], Wrote(InstallerPath(cfg))).Ok?
            && Since(s, s')[5] == Removed(Dir(cfg.weModExePath)))
  {
    var (s4, saved) := PrepareSpec(o, s, cfg);
    PrepareShape(o, s, cfg);
    if saved.Ok? {
      InstallGrows(o, s4, cfg);
      var s' := InstallSpec(o, s4, cfg).0;
      assert EnsureSpec(o, s, cfg, force).0 == s';
      var head := Since(s, s4);
      assert |head| == 5 by {
        assert |head[3..]| == 2;
      }
      AfterFive(s.trace, s4.trace, s'.trace, head, Removed(Dir(cfg.weModExePath)));
    }
  }

  /** A trace `t'` that extends `t + head`, with five effects in `head`, by
      `e` first. */
  lemma AfterFive(t: seq<Effect>, t4: seq<Effect>, t': seq<Effect>, head: seq<Effect>, e: Effect)
    requires |head| == 5 && t4 == t + head && t4 <= t'
    requires |t'| - |t4| >= 1 && t'[|t4|..][0] == e
    ensures t <= t' && |t'| - |t| >= 6
    ensures var c := t'[|t|..];
      && c[..3] == head[..3] && c[3] == head[3] && c[4] == head[4] && c[5] == e
    ensures t'[..|t| + 4] == t4[..|t| + 4] && t'[..|t| + 2] == t4[..|t| + 2]
  {
    assert t' == t + head + t'[|t4|..];
  }

  /** The install step starts by removing the install root. */
  lemma InstallGrows(o: Oracle, s: State, cfg: Config)
    ensures var s' := InstallSpec(o, s, cfg).0;
      s.trace <= s'.trace && |Since(s, s')| >= 1 && Since(s, s')[0] == Removed(Dir(cfg.weModExePath))
  {
    var root := Dir(cfg.weModExePath);
    var (s1, removed) := Step(o, s, Removed(root));
    var (s2, made) := Step(o, s1, MadeDir(root));
    var s3 := ExtractNetSpec(o, s2, InstallerPath(cfg), root).0;
    var s' := InstallSpec(o, s, cfg).0;
    assert s' == s1 || s' == s2 || s' == s3;
    ExtractNetGrows(o, s2, InstallerPath(cfg), root);
    FirstAfter(s.trace, Removed(root), s'.trace, s1.trace, s2.trace);
  }

  /** A trace that extends `t + [e]` (through `t1` and `t2`) has `e` right
      after `t`. */
  lemma FirstAfter(t: seq<Effect>, e: Effect, t': seq<Effect>, t1: seq<Effect>, t2: seq<Effect>)
    requires t1 == t + [e] && t1 <= t2
    requires t' == t1 || t' == t2 || t2 <= t'
    ensures t <= t' && |t'| > |t| && t'[|t|..][0] == e
  {
    assert t1 <= t';
    assert t'[|t|] == t1[|t|];
  }

  lemma ExtractNetGrows(o: Oracle, s: State, installer: string, destination: string)
    ensures s.trace <= ExtractNetSpec(o, s, installer, destination).0.trace
  {
    var archive := o.archive(s.trace, installer);
    var s1 := Step(o, s, Opened(installer)).0;
    if archive.Success? {
      NetPassTrace(o, s1, archive.value, destination, false);
      var (s2, pass) := NetPass(o, s1, archive.value, destination, false);
      var lib := Join(destination, "lib");
      if pass.Success? && pass.value {
        PayloadRootTrace(o, s2, lib);
        var (s3, root) := PayloadRootSpec(o, s2, lib);
        if root.Success? {
          var listing := o.listing(s3.trace, root.value);
          var s4 := Step(o, s3, Listed(root.value)).0;
          if listing.Success? {
            MovePassShape(o, s4, listing.value, root.value, destination);
            var (s5, moved) := MovePass(o, s4, listing.value, root.value, destination);
            assert s.trace <= s2.trace by { assert s.trace <= s1.trace; }
            PrefixChain(s.trace, s2.trace, s3.trace, s4.trace, s5.trace);
            if moved.Ok? {
              var s6 := Step(o, s5, Removed(lib)).0;
              assert s5.trace <= s6.trace;
            }
          }
        }
      }
    }
  }

  /** Looking up the payload root only lists `lib`. */
  lemma PayloadRootTrace(o: Oracle, s: State, libDir: string)
    ensures PayloadRootSpec(o, s, libDir).0.trace == s.trace + [Listed(libDir)]
  {
  }

  lemma PrefixChain(t0: seq<Effect>, t1: seq<Effect>, t2: seq<Effect>, t3: seq<Effect>, t4: seq<Effect>)
    requires t0 <= t1 <= t2 <= t3 <= t4
    ensures t0 <= t4
  {
  }

  lemma {:induction false} NetPassTrace(o: Oracle, s: State, entries: seq<ZipEntry>, destination: string, extracted: bool)
    ensures s.trace <= NetPass(o, s, entries, destination, extracted).0.trace
    decreases |entries|
  {
    if entries != [] {
      if !InPayload(entries[0]) {
        NetPassTrace(o, s, entries[1..], destination, extracted);
      } else {
        var name := ArchiveName(entries[0].name);
        var target := Target(destination, name);
        if Safe(destination, name) && entries[0].isDir {
          var (s1, made) := Step(o, s, MadeDir(target));
          if made.Ok? {
            NetPassTrace(o, s1, entries[1..], destination, true);
            assert NetPass(o, s, entries, destination, extracted) == NetPass(o, s1, entries[1..], destination, true);
          }
        } else if Safe(destination, name) {
          var (s1, made) := Step(o, s, MadeDir(Dir(target)));
          var (s2, file) := Step(o, s1, Wrote(target));
          if made.Ok? && file.Ok? {
            NetPassTrace(o, s2, entries[1..], destination, true);
            assert NetPass(o, s, entries, destination, extracted) == NetPass(o, s2, entries[1..], destination, true);
            assert s.trace <= s2.trace;
          }
        }
      }
    }
  }
}
