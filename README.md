# wemod-launcher, modelled in Dafny

This project models the Go launcher `wemod-launcher`, which runs the WeMod
trainer next to a Steam game on Linux, together with its Python probe script
`scripts/wand_probe.py`. The launcher's commands are:

- `launch [--] <game command>`: classify the command line (a Proton wrapper,
  a direct Linux command, or a refused bare Windows executable). Pick the
  prefix WeMod runs in. In Proton mode, install `corefonts` and `dotnet48`
  into the game's prefix once, and leave a marker file. Start the game and
  WeMod, with one `wineboot -u` retry, then wait for the game.
- `setup`: a strict dependency check. Then install WeMod from the Scoop
  bucket's installer, unpacking its `lib/net*` payload with a zip-slip
  guard. Then download, build or skip WeMod's own prefix.
- `doctor`, `prefix download`, `prefix build`, `config init`, `help`.

Everything the Go code asks of the machine is one `World.Effect`. This covers
starting and running programs, HTTP requests, creating, writing, renaming and
removing paths, opening archives and listing directories. An `Oracle` value
decides each effect's outcome from the history of effects so far. It also
answers queries:

- what a program printed;
- the HTTP reply to a URL;
- the entries of an archive or a directory;
- which paths are executable, non-empty or on `PATH`.

A `State` holds the set of existing paths and the trace of effects performed.

Every Go function that changes things step by step is a `method` on the
`World.Host` class, with `modifies h`. Each such method is proved equal to a
specification function `XxxSpec(oracle, state, …)`, and the properties are
lemmas about those functions. The pure decisions are functions with
contracts. These include argument classification, the Proton verb search,
prefix and wine binary selection, level parsing, strategy answers, asset
selection and version-entry parsing.

Go's raw string `:\\` in `looksLikeWindowsExecutable` is a colon followed by
two backslashes, and the model keeps it so. As a result, a path like
`C:\game` (one backslash, no `.exe`) is not refused. It is classified as a
direct command (`LaunchCommand.SingleBackslashDrivePathIsDirect`).

## Model

| member | source | states |
|---|---|---|
| World.Step | internal/bootstrap/wemod.go:39-44 | performing an effect appends it to the trace, its status is the oracle's answer, and a failed effect changes no path |
| World.Touch | internal/bootstrap/wemod.go:59-64 | only directory creation, writes, removals and renames change the set of existing paths |
| World.Spawn | internal/runtime/process.go:31-47 | a start is one `Started` effect; its handle is the trace position of that effect; a failure is reported as `start <name>: <reason>` |
| World.RunProc | internal/runtime/process.go:13-29 | a run is one `Ran` effect that succeeds exactly when the oracle says so; a failure is reported as `run <name>: <reason>` |
| World.Host.Start | internal/runtime/process.go:31-47 | the host's state and result move exactly as `Spawn` says |
| World.Host.Run | internal/runtime/process.go:13-29 | the host's state and result move exactly as `RunProc` says |
| World.Host.Query | internal/launch/launch.go:383-389 | running a command and collecting its output is one step; the text is the oracle's output for that history |
| World.Host.Fetch | internal/bootstrap/wemod.go:78-86 | one `Fetched` GET whose reply is the oracle's reply for the URL |
| World.Host.Download | internal/bootstrap/wemod.go:104-112 | one `Downloaded` GET whose reply is the oracle's reply for the URL |
| World.Host.OpenZip | internal/prefix/download.go:134-138 | opening an archive is one step that yields the oracle's entry list or error |
| World.Host.ReadDir | internal/bootstrap/wemod.go:209-212 | listing a directory is one step that yields the oracle's listing or error |
| World.Host.Stat | internal/launch/launch.go:270 | `os.Stat` succeeds exactly for the paths in the current path set, and changes nothing |
| World.Executables | internal/launch/launch.go:220 | a path counts as executable exactly when it exists in the current state and carries an execute bit |
| World.Host.Do | internal/bootstrap/wemod.go:39-41 | any other effect moves the host exactly as `Step` says |
| LaunchCommand.FirstIndex | internal/launch/launch.go:415-422 | -1 exactly when the needle is absent; otherwise the needle is at the result and nowhere before it |
| LaunchCommand.FirstIndexUnique | internal/launch/launch.go:415-422 | an index holding the needle with no earlier occurrence is the index `indexOf` returns |
| LaunchCommand.IndexOf | internal/launch/launch.go:415-422 | the linear scan returns the first index of the needle, or -1 |
| LaunchCommand.ProtonVerbIndex | internal/launch/launch.go:424-430 | the first `waitforexitandrun` wins even over an earlier `run`; otherwise the first `run`; -1 when neither occurs |
| LaunchCommand.LeadingLaunchCount | internal/launch/launch.go:114-120 | counts exactly the `launch` tokens at the head of the list |
| LaunchCommand.Normalized | internal/launch/launch.go:114-123 | the result is no longer than the arguments |
| LaunchCommand.NormalizedIsSuffix | internal/launch/launch.go:114-123 | normalisation only drops leading tokens: the result is a suffix of the arguments |
| LaunchCommand.ParseGameCommandArgs | internal/launch/launch.go:109-138 | the stripping loop and the decision compute the classification `Classify` defines |
| LaunchCommand.LaunchTokensIgnored | internal/launch/launch.go:115-120 | any number of leading `launch` tokens are ignored |
| LaunchCommand.OneSeparatorDropped | internal/launch/launch.go:121-123 | only one `--` is dropped, and only when nothing but `launch` tokens precede it |
| LaunchCommand.ProtonSuffixIsProton | internal/launch/launch.go:128-130 | the Proton command returned starts at the wrapper, keeps the verb at index 1 and is still a Proton command |
| LaunchCommand.ClassificationLabels | internal/launch/launch.go:109-138 | the empty note comes exactly with the empty command; the Proton note with a Proton command; the direct note with a non-Proton command whose program is not a Windows executable |
| LaunchCommand.ClassifiedCommandIsSuffix | internal/launch/launch.go:109-138 | the command returned is always a suffix of the argument list |
| LaunchCommand.ClassifyDecision | internal/launch/launch.go:128-135 | the Proton note is given iff the normalised list is a Proton command; the refusal happens iff it is not one and its first token looks like a Windows executable, with the fixed error text |
| LaunchCommand.ProtonScenario | internal/launch/launch.go:109-138 | a Steam `launch -- …/proton waitforexitandrun game.exe` line keeps the wrapper, the verb and the game |
| LaunchCommand.WindowsExeScenario | internal/launch/launch.go:133-135 | a bare `C:\Games\game.exe` is refused |
| LaunchCommand.SingleBackslashDrivePathIsDirect | internal/launch/launch.go:404-413 | `C:\game` is accepted as a direct command, because the drive marker checked is a colon and two backslashes |
| LaunchCommand.SingleBackslashDrivePathAccepted | internal/launch/launch.go:404-413 | `looksLikeWindowsExecutable("C:\game")` is false |
| LaunchCommand.ResolveWeModPrefix | internal/launch/launch.go:247-257 | Proton mode iff the command is a Proton command and WINEPREFIX or STEAM_COMPAT_DATA_PATH is non-blank; then the trimmed WINEPREFIX when non-blank, else the trimmed compat path joined with `pfx`; otherwise the configured prefix |
| LaunchCommand.FirstExecutable | internal/launch/launch.go:219-224 | the result is "" or the first candidate that is executable; "" exactly when none is |
| LaunchCommand.ResolveProtonWineBinary | internal/launch/launch.go:213-225 | the candidate loop returns the first executable of `files/bin/wine`, `files/bin/wine64` beside the Proton script, or "" |
| LaunchCommand.ProtonWineServer | internal/launch/launch.go:227-233 | the bundled `wineserver` when it is executable, otherwise the system `wineserver` |
| LaunchCommand.WineBootBinary | internal/launch/launch.go:235-245 | the system `wineboot` outside Proton mode; otherwise an executable bundled `wineboot` or the system one |
| LaunchCommand.WeModWine | internal/launch/launch.go:162-186 | the system `wine` outside Proton mode; in Proton mode the bundled wine whenever one of the candidates is executable |
| LaunchCommand.BuildPrefixRuntimeEnv | internal/launch/launch.go:372-381 | WINEPREFIX is always set; the keys are WINEPREFIX alone or WINEPREFIX, WINE and WINESERVER together; no other key |
| LaunchCommand.RuntimeEnvWine | internal/launch/launch.go:372-381 | WINE is set exactly in Proton mode when a bundled wine is found; it is then an executable file and WINESERVER is the server resolved beside it |
| Launch.ValidateCommand | internal/launch/launch.go:140-160 | ok iff the command is non-blank and either a path that exists now and is executable, or a name on PATH; empty, path not found, not executable and not in PATH each carry their own message |
| Launch.AskYesNoProperties | internal/launch/launch.go:432-444 | a line read is always an answer: yes iff it is blank or trims and lower-cases to `y` or `yes`, no otherwise; case does not matter; a read error is wrapped as `read prompt input: …` |
| Launch.MissingWeModError | internal/launch/launch.go:34-45 | a missing WeMod.exe always fails: with the plain message when not interactive or after a no, with the read error, or with the hint to run setup after a blank, `y` or `yes` answer |
| Launch.WeModCommandFor | internal/launch/launch.go:162-186 | outside Proton mode WeMod runs under `wine` and recovers with `wineboot`; it never uses winetricks; the exe and environment are passed unchanged |
| Launch.StartWeModProcess | internal/launch/launch.go:162-186 | one start of WeMod.exe under the chosen wine |
| Launch.StartWeModProcessWithRecovery | internal/launch/launch.go:188-211 | the host moves as the recovery specification says |
| Launch.RecoveryShape | internal/launch/launch.go:188-211 | either one successful start, or start, `wineboot -u`, pause and a second start; the result is the handle of the start that worked, or both errors; no path changes |
| Launch.VerbSet | internal/launch/launch.go:390-397 | the recorded set is exactly the trimmed, lower-cased output lines that are non-empty and not warnings: each such line is recorded and each recorded verb comes from such a line |
| Launch.ListInstalledVerbs | internal/launch/launch.go:383-402 | one `winetricks list-installed` query; the verbs are read from its output even when the command failed; the status reports the failure |
| Launch.VerbListingRoundTrip | internal/launch/launch.go:391-397 | reading back a listing with one verb per line gives exactly those verbs |
| Launch.EnsurePrefixRuntime | internal/launch/launch.go:268-321 | the host moves as the preparation specification says |
| Launch.ListThenInstall | internal/launch/launch.go:285-314 | the listing comes first, then only winetricks installs, and no path changes |
| Launch.PrepInstallTrace | internal/launch/launch.go:295-314 | after the listing, only the installs of missing verbs are run, in the order corefonts, dotnet48 |
| Launch.PrepEffects | internal/launch/launch.go:268-321 | an existing marker skips everything; otherwise the listing is first; a failed listing ends the preparation without error; only winetricks and the marker write happen; the marker is the only path that may appear |
| Launch.PrepInstalled | internal/launch/launch.go:295-320 | after a successful listing the effects are the listing, installs and the marker write only |
| Launch.PrepWritesMarkerLast | internal/launch/launch.go:295-318 | the marker is written iff the listing worked and no install failed, and it is the last effect; an error names the failed verb |
| Launch.PrepIdempotent | internal/launch/launch.go:269-274 | after a run whose marker write succeeded, a second preparation does nothing and succeeds |
| Launch.Run | internal/launch/launch.go:25-107 | the host moves as the launch specification says |
| Launch.RunGame | internal/launch/launch.go:70-107 | the game part moves the host as `GameSpec` says, with WeMod's binaries chosen from the executables present when it starts |
| Launch.GameShape | internal/launch/launch.go:71-106 | a command that fails validation does nothing; the game starts first; Proton mode pauses, starts WeMod and waits whatever WeMod did; direct mode kills the game when WeMod fails to start; the game's exit status is never returned |
| Launch.GameEffects | internal/launch/launch.go:71-106 | the game part never queries or runs winetricks; a kill happens only in direct mode, of the game, with a `start wemod:` error |
| Launch.GameProton | internal/launch/launch.go:82-90 | in Proton mode a started game is always waited for and the launch succeeds |
| Launch.GameDirect | internal/launch/launch.go:91-98 | in direct mode the game is waited for iff WeMod started, otherwise killed |
| Launch.RunStandalone | internal/launch/launch.go:61-69 | with no game command, WeMod is started once under the system wine in the configured prefix and nothing else happens |
| Launch.RunRejectsWithoutEffects | internal/launch/launch.go:26-45 | a refused command line or a missing WeMod.exe fails before any effect |
| Launch.RunModes | internal/launch/launch.go:25-107 | winetricks runs only in Proton mode; the game is killed only in direct mode to report a WeMod start failure; a launch that waited for the game succeeds |
| Launch.LaunchModes | internal/launch/launch.go:47-107 | the same three facts for the part after WeMod.exe was found |
| Launch.StartModes | internal/launch/launch.go:61-106 | the same three facts for the start part |
| Winetricks.Missing | internal/launch/launch.go:295-300 | exactly the verbs of the list not yet installed, in order |
| Winetricks.Installs | internal/prefix/build.go:21-28 | one `winetricks -q <verb>` run per verb, in order |
| Winetricks.InstallPassTrace | internal/launch/launch.go:296-314 | the loop appends a prefix of the installs of the missing verbs; every install before the last succeeded |
| Winetricks.InstallPassResult | internal/launch/launch.go:303-312 | the loop stops early only at a failed install, whose verb and error it reports |
| Winetricks.InstallPassSucceeded | internal/launch/launch.go:296-314 | a loop that reports no failure ran every missing verb's install successfully |
| Winetricks.NothingMissingNoInstalls | internal/launch/launch.go:297-300 | with every verb installed the loop does nothing |
| PrefixBuild.Build | internal/prefix/build.go:13-30 | the host moves as the build specification says |
| PrefixBuild.BuildShape | internal/prefix/build.go:13-30 | the prefix directory is created first; a failure there is wrapped and nothing else runs; otherwise corefonts then dotnet48, stopping at the first failed install |
| PrefixBuild.CorefontsBeforeDotnet | internal/prefix/build.go:21-28 | corefonts is always attempted before dotnet48, and dotnet48 only after corefonts succeeded |
| PrefixDownload.SelectZipAssetFirst | internal/prefix/download.go:123-130 | the first asset whose trimmed, lower-cased name ends in `.zip` and whose trimmed URL is non-empty is chosen; none gives the fixed error |
| PrefixDownload.ReleaseAssetUrl | internal/prefix/download.go:108-130 | a transport error (`fetch latest prefix release: …`), a non-2xx status and an undecodable body (`decode latest prefix release: …`) each give their own error; a success comes from a 2xx JSON reply and is the asset `SelectZipAsset` picks |
| PrefixDownload.ResolveSpec | internal/prefix/download.go:103-131 | one GET of the release API, whose reply decides the result |
| PrefixDownload.ResolveLatestPrefixAssetUrl | internal/prefix/download.go:103-131 | the host moves as the lookup specification says |
| PrefixDownload.FetchArchivePrimary | internal/prefix/download.go:52-58 | a primary GET without an answer or with a 2xx answer is the only request |
| PrefixDownload.FetchArchiveFallback | internal/prefix/download.go:58-80 | a non-2xx answer leads to one release lookup, and to a second download only for a different asset URL; otherwise the primary status is reported |
| PrefixDownload.FetchArchiveDownloads | internal/prefix/download.go:48-80 | at least one and at most two downloads happen |
| PrefixDownload.ExtractZip | internal/prefix/download.go:133-175 | the host moves as the extraction specification says |
| PrefixDownload.ExtractPassGrows | internal/prefix/download.go:140-172 | extraction removes no path and downloads nothing |
| PrefixDownload.ExtractPassTargets | internal/prefix/download.go:140-172 | after a successful extraction every entry's target exists |
| PrefixDownload.ExtractPassFailure | internal/prefix/download.go:140-172 | a failed extraction stops at the effect that failed |
| PrefixDownload.Download | internal/prefix/download.go:27-101 | the host moves as the download specification says |
| PrefixDownload.DownloadUrlChoice | internal/prefix/download.go:37-44 | a configured URL is downloaded, trimmed, right after the two directories; an empty or `auto` URL looks up the latest release first; at most two downloads in all |
| PrefixDownload.FetchAndUnpackShape | internal/prefix/download.go:48-97 | the first effect is the download of the chosen URL, and at most two downloads happen |
| PrefixDownload.DownloadUnpacks | internal/prefix/download.go:82-97 | a successful download leaves the saved archive and every entry's target in place |
| WeModInstall.InstallerUrl | internal/bootstrap/wemod.go:88-100 | success iff a 2xx JSON reply has a non-blank 64-bit URL, whose trimmed form is the result; a non-2xx status and a missing URL give their messages |
| WeModInstall.FetchUrlSpec | internal/bootstrap/wemod.go:77-101 | one GET of the Scoop metadata URL, whose reply decides the result |
| WeModInstall.FetchWeModDownloadUrl | internal/bootstrap/wemod.go:77-101 | the host moves as the URL lookup specification says |
| WeModInstall.DownloadFile | internal/bootstrap/wemod.go:103-128 | the host moves as the file download specification says |
| WeModInstall.DownloadFileShape | internal/bootstrap/wemod.go:103-128 | one GET of the URL; the file is written only after a 2xx answer; success iff that write worked |
| WeModInstall.ArchiveName | internal/bootstrap/wemod.go:139 | the same name with every backslash turned into `/` |
| WeModInstall.UnpackEntries | internal/bootstrap/wemod.go:137-182 | the entry loop moves the host as the unpacking pass says |
| WeModInstall.NetPassContained | internal/bootstrap/wemod.go:143-147 | zip-slip guard: unpacking creates paths only at or below the cleaned destination |
| WeModInstall.NetPassGrows | internal/bootstrap/wemod.go:137-182 | unpacking removes no path |
| WeModInstall.NetPassFlag | internal/bootstrap/wemod.go:137-182 | the `extracted` flag of a successful pass is true iff the archive held a `lib/net…` entry |
| WeModInstall.NetPassTargets | internal/bootstrap/wemod.go:143-181 | a successful pass passed every payload entry through the guard and left its target in place |
| WeModInstall.SafeWhenPlain | internal/bootstrap/wemod.go:143-147 | a name of plain elements under a clean absolute destination passes the guard |
| WeModInstall.NetCandidates | internal/bootstrap/wemod.go:214-222 | there are no more candidates than listing entries |
| WeModInstall.NetCandidatesAre | internal/bootstrap/wemod.go:214-222 | the candidates are exactly the directories whose lower-cased name starts with `net`, joined to `lib` |
| WeModInstall.FirstWithExe | internal/bootstrap/wemod.go:229-233 | the first candidate holding `WeMod.exe`, or none when no candidate holds it |
| WeModInstall.FindNetPayloadRoot | internal/bootstrap/wemod.go:208-236 | the host moves as the payload root specification says |
| WeModInstall.CollectCandidates | internal/bootstrap/wemod.go:214-222 | the collecting loop builds the candidate list |
| WeModInstall.ScanCandidates | internal/bootstrap/wemod.go:229-235 | the stat loop returns the first sorted candidate holding the executable, else the first candidate |
| WeModInstall.PayloadRootChoice | internal/bootstrap/wemod.go:208-236 | the root is a `net…` directory of `lib`; it holds the executable whenever some candidate does, and is then the least such in byte order; failure iff `lib` is unreadable or has no candidate |
| WeModInstall.Moves | internal/bootstrap/wemod.go:197-203 | one rename per payload entry, from the payload root to the destination, in listing order |
| WeModInstall.MoveEntries | internal/bootstrap/wemod.go:197-203 | the host moves as the flattening pass says |
| WeModInstall.MovePassShape | internal/bootstrap/wemod.go:197-203 | the renames happen in order, stopping at the first that fails; success iff every entry was moved |
| WeModInstall.ExtractNetPayload | internal/bootstrap/wemod.go:130-206 | the host moves as the payload extraction specification says |
| WeModInstall.NoPayloadRejected | internal/bootstrap/wemod.go:184-186 | an archive without `lib/net…` entries is rejected with the fixed message |
| WeModInstall.NoPayloadPass | internal/bootstrap/wemod.go:137-142 | a pass over entries none of which is payload does nothing and reports nothing extracted |
| WeModInstall.ExtractNetOk | internal/bootstrap/wemod.go:130-206 | a success unpacked every payload entry through the guard, found the root, moved its entries in order and removed `lib` |
| WeModInstall.EnsureWeMod | internal/bootstrap/wemod.go:31-75 | the host moves as the install specification says |
| WeModInstall.EnsureOkHasExe | internal/bootstrap/wemod.go:31-75 | success means the WeMod executable is in the final path set |
| WeModInstall.InstallProducesExe | internal/bootstrap/wemod.go:58-71 | a successful install extracted into the cleaned root and ends with WeMod.exe present, although the cleanup had removed any old WeMod.exe below the root |
| WeModInstall.ExeBelowInstallRoot | internal/bootstrap/wemod.go:58 | the install root of a configured `d/name` is `d`, and the executable lies strictly below it |
| WeModInstall.EnsureSkips | internal/bootstrap/wemod.go:32-37 | without `force`, an existing executable is kept and nothing happens |
| WeModInstall.PrepareShape | internal/bootstrap/wemod.go:39-55 | at most five effects; on success: the two directories, the metadata GET, the download of the URL found and the saved installer |
| WeModInstall.EnsureInstallOrder | internal/bootstrap/wemod.go:39-71 | a success performed the directories, metadata GET, download and save, then removed the old install root, in that order |
| WeModInstall.InstallGrows | internal/bootstrap/wemod.go:58-64 | the install step begins by removing the install root |
| WeModInstall.ExtractNetGrows | internal/bootstrap/wemod.go:130-206 | extraction only appends to the trace |
| Setup.StrategyFor | internal/bootstrap/setup.go:47-57 | build iff the normalised answer is `b`/`build`; skip iff `s`/`skip`; download for every other answer |
| Setup.AskSetupStrategy | internal/bootstrap/setup.go:40-58 | a read error is wrapped as `read setup choice: …`; a line gives its strategy |
| Setup.StrategyNormalized | internal/bootstrap/setup.go:47 | case and surrounding white space do not change the strategy |
| Setup.ChooseStrategy | internal/bootstrap/setup.go:20-27 | download without interaction; the answer's strategy with it |
| Setup.RunSetup | internal/bootstrap/setup.go:15-38 | the host moves as the setup specification says |
| Setup.SetupNeedsWeMod | internal/bootstrap/setup.go:16-18 | a failed WeMod install ends setup with that error and nothing else |
| Setup.SetupDispatch | internal/bootstrap/setup.go:20-37 | after WeMod is in place: download without interaction; otherwise build, skip or download as answered, or the wrapped read error |
| Doctor.MissingDependencies | internal/doctor/doctor.go:23-32 | exactly the required binaries not on PATH, in order |
| Doctor.Verdict | internal/doctor/doctor.go:44-50 | fails iff failing on missing binaries was asked for and some are missing |
| Doctor.Run | internal/doctor/doctor.go:18-50 | the host moves as the doctor specification says |
| Doctor.DoctorShape | internal/doctor/doctor.go:18-50 | off Linux it fails before anything; on Linux it creates the three directories in order, stopping at a failure, and only then reports missing binaries |
| Doctor.DoctorModes | internal/doctor/doctor.go:44-47 | when the strict check fails for missing binaries, the lenient check succeeds |
| Cli.Run | internal/cli/runner.go:26-77 | the host moves as the dispatch specification says |
| Cli.BareGameCommand | internal/cli/runner.go:67-68 | an unknown first word is a game command: the same as `launch` followed by all arguments |
| Cli.UsageTouchesNothing | internal/cli/runner.go:27-66 | no arguments, usage errors, `config` and `help` change nothing; `config` succeeds iff followed by `init` |
| Cli.SetupGate | internal/cli/runner.go:37-41 | setup runs only after the strict doctor passed; a missing-binaries failure there would pass `doctor` |
| Logging.ParseLevel | internal/logging/logger.go:57-70 | success iff the trimmed, lower-cased value is a known name; a threshold at most error; otherwise `invalid log level: <value>` |
| Logging.ParseLevelNames | internal/logging/logger.go:58-67 | debug, info or empty, warn or warning, and error select their levels |
| Logging.ParseLevelNormalized | internal/logging/logger.go:58 | parsing ignores case and surrounding white space |
| Logging.ThresholdFacts | internal/logging/logger.go:72-75 | errors are always written; debug lines only at the debug level |
| Logging.Line | internal/logging/logger.go:78 | a written line is the tag in brackets, a space and the message |
| Logging.NewWithoutFile | internal/logging/logger.go:29-48 | an invalid level or no log file touches nothing |
| Logging.NewWithFile | internal/logging/logger.go:37-54 | with a log file, a success created the file's directory and opened the file, in that order, and carries the configured level |
| Logging.Logger.Logf | internal/logging/logger.go:72-79 | a line is appended iff its level passes the threshold |
| Logging.Logger.Debug | internal/logging/logger.go:81 | logs at the debug level with tag DEBUG |
| Logging.Logger.Info | internal/logging/logger.go:82 | logs at the info level with tag INFO |
| Logging.Logger.Warn | internal/logging/logger.go:83 | logs at the warn level with tag WARN |
| Logging.Logger.Error | internal/logging/logger.go:84 | appends the ERROR line under every threshold `parseLevel` can return |
| Logging.Logger.constructor | internal/logging/logger.go:50-54 | a new logger has the given threshold and file, and has written nothing |
| Logging.Logger.Close | internal/logging/logger.go:86-91 | a logger without a file closes cleanly; otherwise the file's close result |
| Logging.New | internal/logging/logger.go:29-55 | the host and the returned logger follow the construction specification |
| Probe.Strip | scripts/wand_probe.py:48-49 | `str.strip()`: no white space is left at either end |
| Probe.ParseVersionEntry | scripts/wand_probe.py:44-54 | no colon is an error; a success has a known kind and a non-empty stripped version |
| Probe.ParseVersionEntryErrors | scripts/wand_probe.py:47-53 | the split is at the first colon; an unknown kind is reported before an empty version |
| Probe.ParseVersionEntryRoundTrip | scripts/wand_probe.py:44-54 | parsing `kind:version` gives back that release |
| Probe.KindNormal | scripts/wand_probe.py:48-50 | a known kind is already stripped and lower-case |
| Probe.NupkgName | scripts/wand_probe.py:60-65 | `Wand-…-full.nupkg` for wand, `WeMod-…-full.nupkg` otherwise |
| Probe.UrlFor | scripts/wand_probe.py:57-61 | every URL lies under the CDN release directory |
| Probe.CacheMatchesUrl | scripts/wand_probe.py:57-66 | the cached file is named after the file the URL points to |
| Probe.DownloadIfNeeded | scripts/wand_probe.py:69-89 | the host moves as the cache specification says |
| Probe.DownloadShape | scripts/wand_probe.py:69-89 | a non-empty cached package is returned without curl; otherwise curl fetches the URL into the cache path exactly once |
| Probe.KindOf | scripts/wand_probe.py:151-158 | renderer before gpu-process before utility; anything else is a main process |
| Probe.Matching | scripts/wand_probe.py:136-149 | only WeMod/Wand processes are kept |
| Probe.Bump | scripts/wand_probe.py:151-158 | each process adds exactly one to the counters |
| Probe.InspectState | scripts/wand_probe.py:134-160 | the scan computes the tally of the `/proc` entries |
| Probe.TallyTotal | scripts/wand_probe.py:134-160 | every WeMod/Wand process is counted exactly once |
| Probe.TallyByKind | scripts/wand_probe.py:151-158 | each counter is the number of matching processes of its kind |
| Text.TrimSpace | internal/launch/launch.go:141 | the result is "" iff the string is all white space |
| Text.TrimSpaceSlice | internal/launch/launch.go:141 | the result is a slice of the input with only white space before and after it |
| Text.TrimSpaceEnds | internal/launch/launch.go:249 | a trimmed string neither starts nor ends with white space |
| Text.TrimSpaceIdempotent | internal/launch/launch.go:392 | trimming twice is trimming once |
| Text.ToLower | internal/launch/launch.go:392 | same length, each character lower-cased |
| Text.ToLowerIdempotent | internal/launch/launch.go:405 | lower-casing twice is lower-casing once |
| Text.Split | internal/launch/launch.go:391 | at least one piece, none holding the separator |
| Text.SplitJoin | internal/launch/launch.go:391 | joining the pieces with the separator gives the input |
| Text.JoinSplit | internal/launch/launch.go:391 | splitting joined separator-free pieces gives them back |
| Text.Base | internal/launch/launch.go:129 | never empty, and holds no `/` unless it is `/` |
| Text.BaseOf | internal/launch/launch.go:264 | the base of `a/b` is the plain name `b` |
| Text.Join | internal/launch/launch.go:216 | the joined path starts with one of its parts |
| Text.JoinShape | internal/launch/launch.go:216 | an empty or "." first part gives the second; an empty second part gives the first; otherwise the first part, one `/` unless it ends in one, and the second part |
| Text.DirBelow | internal/bootstrap/wemod.go:157 | the directory of a path below `d` is `d` or below it |
| Text.CleanShape | internal/bootstrap/wemod.go:144-145 | a cleaned path is non-empty, rooted iff the input was, and has no trailing slash unless it is `/` |
| Text.CleanIdempotent | internal/bootstrap/wemod.go:144-145 | cleaning twice is cleaning once |
| Text.CleanPlainJoin | internal/bootstrap/wemod.go:143-145 | a clean absolute directory joined with a plain relative name cleans to their concatenation |
| Text.ReplaceChar | internal/bootstrap/wemod.go:139 | same length; every `from` becomes `to` and nothing else changes |
| Text.ReplaceCharRemoves | internal/bootstrap/wemod.go:139 | no `from` is left |
| Text.NatToString | internal/bootstrap/wemod.go:89 | a non-empty string of decimal digits |
| Text.NatToStringValue | internal/bootstrap/wemod.go:89 | reading the digits back gives the number |
| Text.AtMostTotal | internal/bootstrap/wemod.go:228 | the string order is total |
| Text.AtMostTransitive | internal/bootstrap/wemod.go:228 | the string order is transitive |
| Text.AtMostAntisymmetric | internal/bootstrap/wemod.go:228 | the string order is antisymmetric |
| Text.SortStrings | internal/bootstrap/wemod.go:228 | `sort.Strings`: sorted, and a permutation of the input |

## Left out

- Real I/O is not modelled: processes, HTTP, JSON decoding, zip byte copying, the file system and `/proc`. Each is one effect or one oracle answer. `process.go`'s environment overlay is the effect's environment map.
- JSON decoding: an undecodable body is one `NotJson(reason)` reply. Only the fields the launcher reads are modelled: the assets' name and URL, and the 64-bit URL.
- Failures to build an HTTP request (`http.NewRequestWithContext`) are not modelled. The URL is taken as always well formed.
- Each entry's file write collapses into one `Wrote` effect. That covers opening the archive entry, creating the file, copying, and both closes. Their separate error messages (`open archive entry`, `extract archive entry`, `close extracted file`, `close archive entry`, and the `extractZip` equivalents) become the `create extracted file` error of that one step. The same holds for `io.Copy` and `Close` in `downloadFile` and in the prefix archive save.
- File modes (`file.Mode()`, `0o755`, `0o644`) are not modelled beyond the execute bit. A path exists when it is in the state's path set. The oracle's `executable` set says which paths carry an execute bit, and a path is executable only while it exists (`World.Executables`).
- The log lines written by the commands, `Runner`, `userNotice` and the progress dialog are not modelled. `withProgressDialog` is modelled as running its operation and returning its result. The logger's timestamp prefix, mutex and writers are left out too: `Logging.Logger` records the lines as a sequence.
- The usage texts `printMainUsage`, `printPrefixUsage` and `printConfigUsage` are not modelled. Their callers return `usage` (or nothing, for `help`) without any effect.
- The prompts are not modelled. The answer line, or the read error, is an input: `Cli.Input`, `Launch.AskYesNo` and `Setup.AskSetupStrategy`.
- `time.Sleep` is one `Slept(seconds)` effect, which orders the trace and never fails. Timeouts and the request context are not modelled.
- `runtime.GOOS` and the process environment are inputs.
- `quick_probe`, `kill_wemod_processes`, `install_nupkg` and `main` of the probe script are not modelled. These are wall-clock polling, signals and `shutil` copying.
- `internal/config/config.go` is not part of this model beyond the fields the commands read (`Settings.Config`). Nor are `internal/app/app.go` and `cmd/wemod-launcher/main.go`.
- `Text.ToLower` maps ASCII letters only. Go's `strings.ToLower` also maps other Unicode letters.
- `Text.Join` and `Text.Dir` omit `filepath.Clean`'s simplification of inner `.`, `..` and repeated slashes. The zip-slip guard uses `Text.Clean` itself, which is modelled in full.
- `sort.Strings` sorts `candidates` in place. The model uses the function `Text.SortStrings` on the candidate sequence instead.
- `Probe.DownloadIfNeeded`: `check=True` turns curl's exit status into a failure; the command's output is not kept. The oracle's `nonEmpty` paths stand for `st_size > 0`.
- WeModInstall.NetPassContained: proved for destinations whose cleaned form is not `/`. With `/` the guard's `"/" + "/"` prefix rejects every entry, so nothing is created anyway.
- `Launch.ListInstalledVerbs` returns the verbs as a set rather than a `map[string]bool`. Only the true entries are ever written, so the two agree.
