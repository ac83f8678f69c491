/** internal/prefix/download.go: downloading a prebuilt WeMod prefix. The
    archive comes from the configured URL or, when none is configured, from
    the first `.zip` asset of the latest release of the prebuilt-prefix
    repository; a primary download that answers with a non-2xx status is
    retried once with that release asset. The archive is then unpacked into
    the prefix directory. */
module PrefixDownload {
  import opened Common
  import opened Text
  import opened World
  import opened Settings

  const PrefixReleaseApi := "https://api.github.com/repos/DeckCheatz/BuiltPrefixes-dev/releases/latest"

  // ----- the latest release's .zip asset -----

  /** An asset the launcher accepts: its trimmed, lower-cased name ends in
      ".zip" and its trimmed URL is not empty. */
  predicate IsZipAsset(a: Asset) {
    HasSuffix(ToLower(TrimSpace(a.name)), ".zip") && TrimSpace(a.url) != ""
  }

  /** The asset scan of `resolveLatestPrefixAssetURL`: the trimmed URL of the
      first acceptable asset. */
  function SelectZipAsset(assets: seq<Asset>): (r: Result<string>)
    decreases |assets|
  {
    if assets == [] then Failure("latest prefix release does not contain a .zip asset")
    else if IsZipAsset(assets[0]) then Success(TrimSpace(assets[0].url))
    else SelectZipAsset(assets[1..])
  }

  /** The scan picks the first acceptable asset, in release order, and
      fails exactly when there is none. */
  lemma SelectZipAssetFirst(assets: seq<Asset>)
    ensures var r := SelectZipAsset(assets);
      && (r.Failure? <==> forall i :: 0 <= i < |assets| ==> !IsZipAsset(assets[i]))
      && (r.Failure? ==> r.msg == "latest prefix release does not contain a .zip asset")
      && (r.Success? ==> exists i :: FirstZipAt(assets, i) && r.value == TrimSpace(assets[i].url))
  {
    SelectZipAssetNone(assets);
    SelectZipAssetFound(assets);
    var r := SelectZipAsset(assets);
    if r.Success? {
      var i :| FirstZipAt(assets, i) && r.value == TrimSpace(assets[i].url);
      assert IsZipAsset(assets[i]);
    }
  }

  lemma {:induction false} SelectZipAssetNone(assets: seq<Asset>)
    ensures var r := SelectZipAsset(assets);
      r.Failure? ==> && (forall i :: 0 <= i < |assets| ==> !IsZipAsset(assets[i]))
                     && r.msg == "latest prefix release does not contain a .zip asset"
    decreases |assets|
  {
    if assets != [] && !IsZipAsset(assets[0]) {
      var rest := assets[1..];
      assert SelectZipAsset(assets) == SelectZipAsset(rest);
      SelectZipAssetNone(rest);
      if SelectZipAsset(rest).Failure? {
        forall i | 0 <= i < |assets| ensures !IsZipAsset(assets[i]) {
          if i > 0 { assert assets[i] == rest[i - 1]; }
        }
      }
    }
  }

  lemma {:induction false} SelectZipAssetFound(assets: seq<Asset>)
    ensures var r := SelectZipAsset(assets);
      r.Success? ==> exists i :: FirstZipAt(assets, i) && r.value == TrimSpace(assets[i].url)
    decreases |assets|
  {
    if assets != [] && !IsZipAsset(assets[0]) {
      var rest := assets[1..];
      assert SelectZipAsset(assets) == SelectZipAsset(rest);
      SelectZipAssetFound(rest);
      if SelectZipAsset(rest).Success? {
        var i :| FirstZipAt(rest, i) && SelectZipAsset(rest).value == TrimSpace(rest[i].url);
        forall j | 0 <= j < i + 1 ensures !IsZipAsset(assets[j]) {
          if j > 0 { assert assets[j] == rest[j - 1]; }
        }
        assert FirstZipAt(assets, i + 1);
      }
    } else if assets != [] {
      assert SelectZipAsset(assets) == Success(TrimSpace(assets[0].url));
      assert FirstZipAt(assets, 0);
    }
  }

  /** Asset `i` is acceptable and none before it is. */
  predicate FirstZipAt(assets: seq<Asset>, i: int) {
    0 <= i < |assets| && IsZipAsset(assets[i]) && forall j :: 0 <= j < i ==> !IsZipAsset(assets[j])
  }

  /** What a lookup of the latest release makes of the reply. */
  function ReleaseAssetUrl(reply: Reply): (r: Result<string>)
    ensures reply.NoReply? ==> r == Failure("fetch latest prefix release: " + reply.reason)
    ensures reply.Reply? && IsSuccessCode(reply.code) && reply.body.NotJson? ==>
      r == Failure("decode latest prefix release: " + reply.body.reason)
    ensures reply.Reply? && !IsSuccessCode(reply.code) ==>
      r == Failure("latest prefix release lookup failed with status " + IntToString(reply.code))
    ensures r.Success? ==>
      && reply.Reply? && IsSuccessCode(reply.code) && reply.body.Json?
      && r == SelectZipAsset(reply.body.assets)
  {
    match reply
    case NoReply(reason) => Failure("fetch latest prefix release: " + reason)
    case Reply(code, body) =>
      if !IsSuccessCode(code) then Failure("latest prefix release lookup failed with status " + IntToString(code))
      else match body
        case NotJson(reason) => Failure("decode latest prefix release: " + reason)
        case Json(assets, _) => SelectZipAsset(assets)
  }

  /** Effect of `resolveLatestPrefixAssetURL`: one GET of the release API. */
  function ResolveSpec(o: Oracle, s: State): (r: (State, Result<string>))
    ensures r.0 == Step(o, s, Fetched(PrefixReleaseApi)).0
    ensures r.1 == ReleaseAssetUrl(o.reply(s.trace, PrefixReleaseApi))
  {
    (Step(o, s, Fetched(PrefixReleaseApi)).0, ReleaseAssetUrl(o.reply(s.trace, PrefixReleaseApi)))
  }

  method ResolveLatestPrefixAssetUrl(h: Host) returns (r: Result<string>)
    modifies h
    ensures (h.state, r) == ResolveSpec(h.oracle, old(h.state))
  {
    var reply := h.Fetch(PrefixReleaseApi);
    if reply.NoReply? {
      return Failure("fetch latest prefix release: " + reply.reason);
    }
    if reply.code < 200 || reply.code > 299 {
      return Failure("latest prefix release lookup failed with status " + IntToString(reply.code));
    }
    if reply.body.NotJson? {
      return Failure("decode latest prefix release: " + reply.body.reason);
    }
    var assets := reply.body.assets;
    var i := 0;
    while i < |assets|
      invariant 0 <= i <= |assets|
      invariant SelectZipAsset(assets[i..]) == SelectZipAsset(assets)
    {
      var name := ToLower(TrimSpace(assets[i].name));
      var url := TrimSpace(assets[i].url);
      assert assets[i..][1..] == assets[i + 1..];
      if HasSuffix(name, ".zip") && url != "" {
        return Success(url);
      }
      i := i + 1;
    }
    return Failure("latest prefix release does not contain a .zip asset");
  }

  // ----- the primary download and its single fallback -----

  function StatusError(code: int): string {
    "download prefix failed with status " + IntToString(code)
  }

  /** Effect of the GET of `url` and of the fallback that a non-2xx answer
      triggers: Ok once some response was 2xx. */
  function FetchArchiveSpec(o: Oracle, s: State, url: string): (State, Status) {
    var reply := o.reply(s.trace, url);
    var s1 := Step(o, s, Downloaded(url)).0;
    match reply
    case NoReply(reason) => (s1, Fail("download prefix: " + reason))
    case Reply(code, _) =>
      if IsSuccessCode(code) then (s1, Ok)
      else
        var (s2, fallback) := ResolveSpec(o, s1);
        if fallback.Failure? || fallback.value == url then (s2, Fail(StatusError(code)))
        else
          var retry := o.reply(s2.trace, fallback.value);
          var s3 := Step(o, s2, Downloaded(fallback.value)).0;
          match retry
          case NoReply(reason) => (s3, Fail("download fallback prefix: " + reason))
          case Reply(code2, _) => (s3, if IsSuccessCode(code2) then Ok else Fail(StatusError(code2)))
  }

  /** The fallback policy, first half: a primary GET without an answer or
      with a 2xx answer is the only request. */
  lemma FetchArchivePrimary(o: Oracle, s: State, url: string)
    requires o.reply(s.trace, url).NoReply? || IsSuccessCode(o.reply(s.trace, url).code)
    ensures var (s', st) := FetchArchiveSpec(o, s, url);
      var reply := o.reply(s.trace, url);
      && s.trace <= s'.trace
      && Since(s, s') == [Downloaded(url)]
      && (reply.NoReply? ==> st == Fail("download prefix: " + reply.reason))
      && (reply.Reply? ==> st == Ok)
  {
    var s1 := Step(o, s, Downloaded(url)).0;
    assert Since(s, s1) == [Downloaded(url)];
  }

  /** The fallback policy, second half: a non-2xx primary answer leads to
      one release lookup, and to a second download only when the lookup finds
      an asset URL other than the primary one; otherwise the primary status
      is reported. */
  lemma FetchArchiveFallback(o: Oracle, s: State, url: string)
    requires o.reply(s.trace, url).Reply? && !IsSuccessCode(o.reply(s.trace, url).code)
    ensures var (s', st) := FetchArchiveSpec(o, s, url);
      var s1 := Step(o, s, Downloaded(url)).0;
      var (s2, fallback) := ResolveSpec(o, s1);
      && s.trace <= s'.trace
      && ((fallback.Failure? || fallback.value == url) ==>
            && Since(s, s') == [Downloaded(url), Fetched(PrefixReleaseApi)]
            && st == Fail(StatusError(o.reply(s.trace, url).code)))
      && (fallback.Success? && fallback.value != url ==>
            && Since(s, s') == [Downloaded(url), Fetched(PrefixReleaseApi), Downloaded(fallback.value)]
            && (st.Ok? <==> o.reply(s2.trace, fallback.value).Reply? && IsSuccessCode(o.reply(s2.trace, fallback.value).code)))
  {
    var s1 := Step(o, s, Downloaded(url)).0;
    var (s2, fallback) := ResolveSpec(o, s1);
    assert Since(s, s2) == [Downloaded(url), Fetched(PrefixReleaseApi)];
    if fallback.Success? && fallback.value != url {
      var s3 := Step(o, s2, Downloaded(fallback.value)).0;
      assert FetchArchiveSpec(o, s, url).0 == s3;
      assert Since(s, s3) == [Downloaded(url), Fetched(PrefixReleaseApi), Downloaded(fallback.value)];
    } else {
      assert FetchArchiveSpec(o, s, url) == (s2, Fail(StatusError(o.reply(s.trace, url).code)));
    }
  }

  /** How many downloads a trace holds. */
  function Downloads(t: seq<Effect>): (n: nat)
    ensures n <= |t|
    decreases |t|
  {
    if t == [] then 0 else (if t[0].Downloaded? then 1 else 0) + Downloads(t[1..])
  }

  lemma {:induction false} DownloadsConcat(a: seq<Effect>, b: seq<Effect>)
    ensures Downloads(a + b) == Downloads(a) + Downloads(b)
    decreases |a|
  {
    if a == [] {
      assert a + b == b;
    } else {
      assert (a + b)[1..] == a[1..] + b;
      DownloadsConcat(a[1..], b);
    }
  }

  lemma DownloadsSingle(e: Effect)
    ensures Downloads([e]) == if e.Downloaded? then 1 else 0
  {
    assert [e][1..] == [];
  }

  /** At most two downloads happen. */
  lemma FetchArchiveDownloads(o: Oracle, s: State, url: string)
    ensures var s' := FetchArchiveSpec(o, s, url).0;
      s.trace <= s'.trace && 1 <= Downloads(Since(s, s')) <= 2
  {
    var reply := o.reply(s.trace, url);
    var s' := FetchArchiveSpec(o, s, url).0;
    if reply.NoReply? || IsSuccessCode(reply.code) {
      FetchArchivePrimary(o, s, url);
      assert Since(s, s')[1..] == [];
    } else {
      FetchArchiveFallback(o, s, url);
      var t := Since(s, s');
      assert t[1..][1..] == [] || t[1..][1..] == [t[2]];
    }
  }

  // ----- unpacking -----

  /** Where an archive entry is written: `filepath.Join(dest, name)`. */
  function EntryTarget(dest: string, name: string): string {
    Clean(Join(dest, name))
  }

  /** The entry loop of `extractZip`: directory entries create their
      directory, file entries their parent directory and then the file; the
      first failing step ends the loop with its error. */
  function ExtractPass(o: Oracle, s: State, entries: seq<ZipEntry>, dest: string): (State, Status)
    decreases |entries|
  {
    if entries == [] then (s, Ok)
    else
      var target := EntryTarget(dest, entries[0].name);
      if entries[0].isDir then
        var (s1, made) := Step(o, s, MadeDir(target));
        if made.Fail? then (s1, Fail("create dir " + target + ": " + made.msg))
        else ExtractPass(o, s1, entries[1..], dest)
      else
        var (s1, made) := Step(o, s, MadeDir(Dir(target)));
        if made.Fail? then (s1, Fail("create parent dir " + target + ": " + made.msg))
        else
          var (s2, file) := Step(o, s1, Wrote(target));
          if file.Fail? then (s2, Fail("create extracted file " + target + ": " + file.msg))
          else ExtractPass(o, s2, entries[1..], dest)
  }

  /** Effect of `extractZip(src, dest)`. */
  function ExtractSpec(o: Oracle, s: State, src: string, dest: string): (State, Status) {
    var archive := o.archive(s.trace, src);
    var s1 := Step(o, s, Opened(src)).0;
    if archive.Failure? then (s1, Fail("open zip: " + archive.msg))
    else ExtractPass(o, s1, archive.value, dest)
  }

  method ExtractZip(h: Host, src: string, dest: string) returns (st: Status)
    modifies h
    ensures (h.state, st) == ExtractSpec(h.oracle, old(h.state), src, dest)
  {
    var archive := h.OpenZip(src);
    if archive.Failure? {
      return Fail("open zip: " + archive.msg);
    }
    var entries := archive.value;
    ghost var s1 := h.state;
    var i := 0;
    while i < |entries|
      invariant 0 <= i <= |entries|
      invariant ExtractPass(h.oracle, h.state, entries[i..], dest) == ExtractPass(h.oracle, s1, entries, dest)
    {
      assert entries[i..][1..] == entries[i + 1..];
      var target := Clean(Join(dest, entries[i].name));
      if entries[i].isDir {
        var made := h.Do(MadeDir(target));
        if made.Fail? {
          return Fail("create dir " + target + ": " + made.msg);
        }
        i := i + 1;
        continue;
      }
      var made := h.Do(MadeDir(Dir(target)));
      if made.Fail? {
        return Fail("create parent dir " + target + ": " + made.msg);
      }
      var file := h.Do(Wrote(target));
      if file.Fail? {
        return Fail("create extracted file " + target + ": " + file.msg);
      }
      i := i + 1;
    }
    return Ok;
  }

  /** Extraction only creates paths: the trace grows, no file disappears
      and no download is performed. */
  lemma {:induction false} ExtractPassGrows(o: Oracle, s: State, entries: seq<ZipEntry>, dest: string)
    ensures var s' := ExtractPass(o, s, entries, dest).0;
      && s.trace <= s'.trace
      && s.files <= s'.files
      && Downloads(Since(s, s')) == 0
    decreases |entries|
  {
    if entries != [] {
      var target := EntryTarget(dest, entries[0].name);
      if entries[0].isDir {
        var (s1, made) := Step(o, s, MadeDir(target));
        assert Since(s, s1) == [MadeDir(target)];
        if made.Ok? {
          ExtractPassGrows(o, s1, entries[1..], dest);
          var s' := ExtractPass(o, s1, entries[1..], dest).0;
          SinceChain(s, s1, s');
          DownloadsConcat(Since(s, s1), Since(s1, s'));
        }
      } else {
        var (s1, made) := Step(o, s, MadeDir(Dir(target)));
        assert Since(s, s1) == [MadeDir(Dir(target))];
        if made.Ok? {
          var (s2, file) := Step(o, s1, Wrote(target));
          SinceChain(s, s1, s2);
          assert Since(s, s2) == [MadeDir(Dir(target)), Wrote(target)];
          if file.Ok? {
            ExtractPassGrows(o, s2, entries[1..], dest);
            var s' := ExtractPass(o, s2, entries[1..], dest).0;
            SinceChain(s, s2, s');
            DownloadsConcat(Since(s, s2), Since(s2, s'));
          }
        }
      }
    }
  }

  /** When extraction succeeds, every entry's target exists. */
  lemma {:induction false} ExtractPassTargets(o: Oracle, s: State, entries: seq<ZipEntry>, dest: string)
    ensures var (s', st) := ExtractPass(o, s, entries, dest);
      st.Ok? ==> forall e :: e in entries ==> EntryTarget(dest, e.name) in s'.files
    decreases |entries|
  {
    if entries != [] {
      var target := EntryTarget(dest, entries[0].name);
      var s1 := Step(o, s, if entries[0].isDir then MadeDir(target) else MadeDir(Dir(target))).0;
      var next := if entries[0].isDir then s1 else Step(o, s1, Wrote(target)).0;
      if ExtractPass(o, s, entries, dest).1.Ok? {
        assert ExtractPass(o, s, entries, dest) == ExtractPass(o, next, entries[1..], dest);
        assert target in next.files;
        ExtractPassTargets(o, next, entries[1..], dest);
        ExtractPassGrows(o, next, entries[1..], dest);
        assert forall e :: e in entries ==> e == entries[0] || e in entries[1..];
      }
    }
  }

  /** When extraction fails, the step it performed last is the one that
      failed. */
  lemma {:induction false} ExtractPassFailure(o: Oracle, s: State, entries: seq<ZipEntry>, dest: string)
    ensures var (s', st) := ExtractPass(o, s, entries, dest);
      st.Fail? ==> |s'.trace| > 0 && o.outcome(s'.trace[..|s'.trace| - 1], s'.trace[|s'.trace| - 1]).Fail?
    decreases |entries|
  {
    if entries != [] {
      var target := EntryTarget(dest, entries[0].name);
      var (s1, made) := Step(o, s, if entries[0].isDir then MadeDir(target) else MadeDir(Dir(target)));
      assert s1.trace[..|s1.trace| - 1] == s.trace;
      if made.Ok? {
        if entries[0].isDir {
          assert ExtractPass(o, s, entries, dest) == ExtractPass(o, s1, entries[1..], dest);
          ExtractPassFailure(o, s1, entries[1..], dest);
        } else {
          var (s2, file) := Step(o, s1, Wrote(target));
          assert s2.trace[..|s2.trace| - 1] == s1.trace;
          if file.Ok? {
            assert ExtractPass(o, s, entries, dest) == ExtractPass(o, s2, entries[1..], dest);
            ExtractPassFailure(o, s2, entries[1..], dest);
          }
        }
      }
    }
  }

  // ----- prefix.Download -----

  /** The configured URL asks for the latest release: it is empty after
      trimming or "auto" in any (ASCII) case. */
  predicate WantsLatest(url: string) {
    var u := TrimSpace(url);
    u == "" || ToLower(u) == "auto"
  }

  /** The archive is saved as prefix.zip in the download directory. */
  function ArchivePath(cfg: Config): string {
    Join(cfg.downloadDir, "prefix.zip")
  }

  /** From the chosen URL on: download with fallback, save, unpack. */
  function FetchAndUnpackSpec(o: Oracle, s: State, cfg: Config, url: string): (State, Status) {
    var (s1, fetched) := FetchArchiveSpec(o, s, url);
    if fetched.Fail? then (s1, fetched)
    else
      var (s2, saved) := Step(o, s1, Wrote(ArchivePath(cfg)));
      if saved.Fail? then (s2, Fail("create archive file: " + saved.msg))
      else ExtractSpec(o, s2, ArchivePath(cfg), cfg.prefixDir)
  }

  /** Effect of `prefix.Download`. */
  function DownloadSpec(o: Oracle, s: State, cfg: Config): (State, Status) {
    var (s1, dl) := Step(o, s, MadeDir(cfg.downloadDir));
    if dl.Fail? then (s1, Fail("create download dir: " + dl.msg))
    else
      var (s2, pfx) := Step(o, s1, MadeDir(cfg.prefixDir));
      if pfx.Fail? then (s2, Fail("create prefix dir: " + pfx.msg))
      else if WantsLatest(cfg.downloadUrl) then
        var (s3, resolved) := ResolveSpec(o, s2);
        if resolved.Failure? then (s3, Fail(resolved.msg))
        else FetchAndUnpackSpec(o, s3, cfg, resolved.value)
      else FetchAndUnpackSpec(o, s2, cfg, TrimSpace(cfg.downloadUrl))
  }

  method Download(h: Host, cfg: Config) returns (st: Status)
    modifies h
    ensures (h.state, st) == DownloadSpec(h.oracle, old(h.state), cfg)
  {
    var made := h.Do(MadeDir(cfg.downloadDir));
    if made.Fail? {
      return Fail("create download dir: " + made.msg);
    }
    made := h.Do(MadeDir(cfg.prefixDir));
    if made.Fail? {
      return Fail("create prefix dir: " + made.msg);
    }
    var archivePath := Join(cfg.downloadDir, "prefix.zip");
    var url := TrimSpace(cfg.downloadUrl);
    if url == "" || ToLower(url) == "auto" {
      var resolved := ResolveLatestPrefixAssetUrl(h);
      if resolved.Failure? {
        return Fail(resolved.msg);
      }
      url := resolved.value;
    }
    var reply := h.Download(url);
    if reply.NoReply? {
      return Fail("download prefix: " + reply.reason);
    }
    if reply.code < 200 || reply.code > 299 {
      var fallback := ResolveLatestPrefixAssetUrl(h);
      if fallback.Failure? {
        return Fail(StatusError(reply.code));
      }
      if fallback.value != url {
        var retry := h.Download(fallback.value);
        if retry.NoReply? {
          return Fail("download fallback prefix: " + retry.reason);
        }
        if retry.code < 200 || retry.code > 299 {
          return Fail(StatusError(retry.code));
        }
      } else {
        return Fail(StatusError(reply.code));
      }
    }
    var saved := h.Do(Wrote(archivePath));
    if saved.Fail? {
      return Fail("create archive file: " + saved.msg);
    }
    st := ExtractZip(h, archivePath, cfg.prefixDir);
  }

  /** The URL choice: with a configured URL the first download is of that
      URL, trimmed, right after the two directories; with none (or "auto")
      the latest release is looked up first and a failed lookup is returned
      unchanged. Either way at most two downloads happen in all. */
  lemma DownloadUrlChoice(o: Oracle, s: State, cfg: Config)
    ensures var (s', st) := DownloadSpec(o, s, cfg);
      && s.trace <= s'.trace
      && Downloads(Since(s, s')) <= 2
      && (|Since(s, s')| >= 3 && !WantsLatest(cfg.downloadUrl) ==>
            Since(s, s')[..3] == [MadeDir(cfg.downloadDir), MadeDir(cfg.prefixDir), Downloaded(TrimSpace(cfg.downloadUrl))])
      && (|Since(s, s')| >= 3 && WantsLatest(cfg.downloadUrl) ==>
            Since(s, s')[..3] == [MadeDir(cfg.downloadDir), MadeDir(cfg.prefixDir), Fetched(PrefixReleaseApi)])
  {
    var (s1, dl) := Step(o, s, MadeDir(cfg.downloadDir));
    var (s2, pfx) := Step(o, s1, MadeDir(cfg.prefixDir));
    SinceChain(s, s1, s2);
    assert Since(s, s1) == [MadeDir(cfg.downloadDir)];
    if dl.Ok? && pfx.Ok? {
      var dirs := Since(s, s2);
      assert dirs == [MadeDir(cfg.downloadDir), MadeDir(cfg.prefixDir)];
      assert Downloads(dirs) == 0 by {
        assert dirs[1..] == [MadeDir(cfg.prefixDir)];
      }
      var s' := DownloadSpec(o, s, cfg).0;
      if WantsLatest(cfg.downloadUrl) {
        LatestTail(o, s2, cfg);
      } else {
        FetchAndUnpackShape(o, s2, cfg, TrimSpace(cfg.downloadUrl));
      }
      SinceChain(s, s2, s');
      DownloadsConcat(dirs, Since(s2, s'));
      if Since(s2, s') != [] {
        FirstThree(dirs, Since(s2, s'));
      }
    }
  }

  /** Two effects followed by a non-empty stretch: the first three. */
  lemma FirstThree(a: seq<Effect>, b: seq<Effect>)
    requires |a| == 2 && b != []
    ensures (a + b)[..3] == [a[0], a[1], b[0]]
  {
  }

  /** After the directories, looking up the latest release comes first, then
      (when it succeeds) the fetch of the URL it gave. */
  lemma LatestTail(o: Oracle, s: State, cfg: Config)
    ensures var (s1, resolved) := ResolveSpec(o, s);
      var s' := if resolved.Failure? then s1 else FetchAndUnpackSpec(o, s1, cfg, resolved.value).0;
      && s.trace <= s'.trace && Downloads(Since(s, s')) <= 2
      && |Since(s, s')| >= 1 && Since(s, s')[0] == Fetched(PrefixReleaseApi)
  {
    var (s1, resolved) := ResolveSpec(o, s);
    assert Since(s, s1) == [Fetched(PrefixReleaseApi)];
    DownloadsSingle(Fetched(PrefixReleaseApi));
    if resolved.Success? {
      FetchAndUnpackShape(o, s1, cfg, resolved.value);
      var s' := FetchAndUnpackSpec(o, s1, cfg, resolved.value).0;
      SinceChain(s, s1, s');
      DownloadsConcat(Since(s, s1), Since(s1, s'));
    }
  }

  lemma FetchAndUnpackShape(o: Oracle, s: State, cfg: Config, url: string)
    ensures var s' := FetchAndUnpackSpec(o, s, cfg, url).0;
      && s.trace <= s'.trace
      && |Since(s, s')| >= 1 && Since(s, s')[0] == Downloaded(url)
      && Downloads(Since(s, s')) <= 2
  {
    FetchArchiveDownloads(o, s, url);
    FetchArchiveFirst(o, s, url);
    var (s1, fetched) := FetchArchiveSpec(o, s, url);
    if fetched.Ok? {
      SaveAndExtractShape(o, s1, cfg);
      var s' := FetchAndUnpackSpec(o, s, cfg, url).0;
      SinceChain(s, s1, s');
      DownloadsConcat(Since(s, s1), Since(s1, s'));
      assert Since(s, s')[0] == Since(s, s1)[0];
    }
  }

  /** The fetch starts with the download of the URL. */
  lemma FetchArchiveFirst(o: Oracle, s: State, url: string)
    ensures var s' := FetchArchiveSpec(o, s, url).0;
      s.trace <= s'.trace && |Since(s, s')| >= 1 && Since(s, s')[0] == Downloaded(url)
  {
    var reply := o.reply(s.trace, url);
    if reply.NoReply? || IsSuccessCode(reply.code) {
      FetchArchivePrimary(o, s, url);
    } else {
      FetchArchiveFallback(o, s, url);
    }
  }

  /** Saving and unpacking the archive downloads nothing. */
  lemma SaveAndExtractShape(o: Oracle, s: State, cfg: Config)
    ensures var (s2, saved) := Step(o, s, Wrote(ArchivePath(cfg)));
      var s' := if saved.Fail? then s2 else ExtractSpec(o, s2, ArchivePath(cfg), cfg.prefixDir).0;
      s.trace <= s'.trace && Downloads(Since(s, s')) == 0
  {
    var (s2, saved) := Step(o, s, Wrote(ArchivePath(cfg)));
    assert Since(s, s2) == [Wrote(ArchivePath(cfg))];
    DownloadsSingle(Wrote(ArchivePath(cfg)));
    if saved.Ok? {
      ExtractNoDownloads(o, s2, ArchivePath(cfg), cfg.prefixDir);
      var s' := ExtractSpec(o, s2, ArchivePath(cfg), cfg.prefixDir).0;
      SinceChain(s, s2, s');
      DownloadsConcat(Since(s, s2), Since(s2, s'));
    }
  }

  /** Unpacking downloads nothing. */
  lemma ExtractNoDownloads(o: Oracle, s: State, src: string, dest: string)
    ensures var s' := ExtractSpec(o, s, src, dest).0;
      s.trace <= s'.trace && Downloads(Since(s, s')) == 0
  {
    var archive := o.archive(s.trace, src);
    var s1 := Step(o, s, Opened(src)).0;
    assert Since(s, s1) == [Opened(src)];
    DownloadsSingle(Opened(src));
    if archive.Success? {
      ExtractPassGrows(o, s1, archive.value, dest);
      var s' := ExtractPass(o, s1, archive.value, dest).0;
      SinceChain(s, s1, s');
      DownloadsConcat(Since(s, s1), Since(s1, s'));
    }
  }

  /** A successful download leaves every entry of the unpacked archive in
      place under the prefix directory, and the archive saved. */
  lemma DownloadUnpacks(o: Oracle, s: State, cfg: Config, url: string)
    requires FetchAndUnpackSpec(o, s, cfg, url).1.Ok?
    ensures var s' := FetchAndUnpackSpec(o, s, cfg, url).0;
      var s1 := FetchArchiveSpec(o, s, url).0;
      var s2 := Step(o, s1, Wrote(ArchivePath(cfg))).0;
      && ArchivePath(cfg) in s'.files
      && o.archive(s2.trace, ArchivePath(cfg)).Success?
      && forall e :: e in o.archive(s2.trace, ArchivePath(cfg)).value ==> EntryTarget(cfg.prefixDir, e.name) in s'.files
  {
    var s1 := FetchArchiveSpec(o, s, url).0;
    var s2 := Step(o, s1, Wrote(ArchivePath(cfg))).0;
    var s3 := Step(o, s2, Opened(ArchivePath(cfg))).0;
    ExtractPassTargets(o, s3, o.archive(s2.trace, ArchivePath(cfg)).value, cfg.prefixDir);
    ExtractPassGrows(o, s3, o.archive(s2.trace, ArchivePath(cfg)).value, cfg.prefixDir);
  }
}
