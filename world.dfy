/** The launcher's view of the machine it runs on. Everything the Go code
    asks of the operating system (spawning, waiting, killing, file writes,
    directory creation, HTTP requests, zip and directory reads) is an
    `Effect`; the `Oracle` says how the machine answers each one, possibly
    depending on everything that happened before; the `State` is the set of
    existing paths plus the trace of effects performed so far. */
module World {
  import opened Common
  import opened Text

  /** One entry of a zip archive (`zip.File`): its name and whether it is a
      directory entry. */
  datatype ZipEntry = ZipEntry(name: string, isDir: bool)

  /** One entry of `os.ReadDir`. */
  datatype DirEntry = DirEntry(name: string, isDir: bool)

  /** One asset of a GitHub release (`name`, `browser_download_url`). */
  datatype Asset = Asset(name: string, url: string)

  /** An HTTP body as `encoding/json` decodes it: a JSON document carrying the
      two shapes the launcher reads (a missing field decodes as empty), or a
      body that is not JSON. */
  datatype Body =
    | Json(assets: seq<Asset>, url64: string)
    | NotJson(reason: string)

  /** The result of `http.Client.Do`: a transport error, or a response. */
  datatype Reply = NoReply(reason: string) | Reply(code: int, body: Body)

  predicate IsSuccessCode(code: int) {
    200 <= code <= 299
  }

  datatype Effect =
    | Started(program: string, args: seq<string>, env: map<string, string>)  // process.Start: spawn, do not wait
    | Ran(program: string, args: seq<string>, env: map<string, string>)      // process.Run: spawn and wait
    | Queried(program: string, args: seq<string>, env: map<string, string>)  // exec.Cmd.CombinedOutput
    | Killed(pid: nat)
    | Waited(pid: nat)
    | Slept(seconds: nat)
    | MadeDir(path: string)       // os.MkdirAll
    | Wrote(path: string)         // os.WriteFile, os.Create / os.OpenFile and copy
    | Removed(path: string)       // os.RemoveAll
    | Renamed(src: string, dst: string)
    | Fetched(url: string)        // an HTTP GET of metadata (JSON)
    | Downloaded(url: string)     // an HTTP GET of a file to be saved
    | Opened(path: string)        // zip.OpenReader
    | Listed(path: string)        // os.ReadDir

  /** How the machine answers. Each function gets the trace of effects that
      came before the one being answered. */
  datatype Oracle = Oracle(
    outcome: (seq<Effect>, Effect) -> Status,
    output: seq<Effect> -> string,
    reply: (seq<Effect>, string) -> Reply,
    archive: (seq<Effect>, string) -> Result<seq<ZipEntry>>,
    listing: (seq<Effect>, string) -> Result<seq<DirEntry>>,
    executable: set<string>,  // paths whose mode carries an execute bit while they exist
    nonEmpty: set<string>,    // paths whose size is positive
    onPath: set<string>)      // bare program names that PATH lookup finds

  datatype State = State(files: set<string>, trace: seq<Effect>)

  /** `os.Stat(path)` succeeds: the path is one of the existing paths. */
  predicate Exists(o: Oracle, s: State, path: string) {
    path in s.files
  }

  /** `os.Stat(path)` succeeds and the mode has an execute bit. */
  predicate IsExecutable(o: Oracle, s: State, path: string) {
    Exists(o, s, path) && path in o.executable
  }

  /** The paths that are executable files in state `s`. */
  function Executables(o: Oracle, s: State): (r: set<string>)
    ensures forall p :: p in r <==> IsExecutable(o, s, p)
  {
    o.executable * s.files
  }

  /** `path` is `root` or lies below it. */
  predicate Under(path: string, root: string) {
    path == root || HasPrefix(path, root + "/")
  }

  /** The existing paths after a successful effect. */
  function Touch(files: set<string>, e: Effect): (r: set<string>)
    ensures !(e.MadeDir? || e.Wrote? || e.Removed? || e.Renamed?) ==> r == files
  {
    match e
    case MadeDir(p) => files + {p}
    case Wrote(p) => files + {p}
    case Removed(p) => set f | f in files && !Under(f, p)
    case Renamed(a, b) =>
      (set f | f in files && !Under(f, a)) + (set f | f in files && Under(f, a) :: b + f[|a|..])
    case _ => files
  }

  /** Perform one effect: it is appended to the trace, the oracle decides
      its outcome, and only a successful effect changes the file set. */
  function Step(o: Oracle, s: State, e: Effect): (r: (State, Status))
    ensures r.0.trace == s.trace + [e]
    ensures r.1 == o.outcome(s.trace, e)
    ensures r.1.Fail? ==> r.0.files == s.files
  {
    var st := o.outcome(s.trace, e);
    (State(if st.Ok? then Touch(s.files, e) else s.files, s.trace + [e]), st)
  }

  /** internal/runtime/process.go's wrapping of a failed spawn and of a
      failed run. */
  function StartError(name: string, reason: string): string {
    "start " + name + ": " + reason
  }

  function RunError(name: string, reason: string): string {
    "run " + name + ": " + reason
  }

  /** `process.Start`: spawn without waiting. The handle of the new process
      is the trace position of its `Started` effect. */
  function Spawn(o: Oracle, s: State, name: string, args: seq<string>, env: map<string, string>): (r: (State, Result<nat>))
    ensures r.0 == Step(o, s, Started(name, args, env)).0 && r.0.files == s.files
    ensures r.1.Success? <==> o.outcome(s.trace, Started(name, args, env)).Ok?
    ensures r.1.Success? ==> r.1.value == |s.trace| && r.0.trace[r.1.value] == Started(name, args, env)
    ensures r.1.Failure? ==> r.1.msg == StartError(name, o.outcome(s.trace, Started(name, args, env)).msg)
  {
    var (s1, st) := Step(o, s, Started(name, args, env));
    var handle: Result<nat> := if st.Ok? then Success(|s.trace|) else Failure(StartError(name, st.msg));
    (s1, handle)
  }

  /** `process.Run`: spawn and wait for the exit. */
  function RunProc(o: Oracle, s: State, name: string, args: seq<string>, env: map<string, string>): (r: (State, Status))
    ensures r.0 == Step(o, s, Ran(name, args, env)).0 && r.0.files == s.files
    ensures r.1.Ok? <==> o.outcome(s.trace, Ran(name, args, env)).Ok?
    ensures r.1.Fail? ==> r.1.msg == RunError(name, o.outcome(s.trace, Ran(name, args, env)).msg)
  {
    var (s1, st) := Step(o, s, Ran(name, args, env));
    (s1, if st.Ok? then Ok else Fail(RunError(name, st.msg)))
  }

  /** Creating a directory or writing a file adds that path and nothing
      else. */
  lemma CreatingGrows(o: Oracle, s: State, e: Effect)
    requires e.MadeDir? || e.Wrote?
    ensures s.files <= Step(o, s, e).0.files <= s.files + {e.path}
  {
  }

  /** The effects performed since state `s`. */
  function Since(s: State, s': State): seq<Effect>
    requires s.trace <= s'.trace
  {
    s'.trace[|s.trace|..]
  }

  /** The effects since `s` are those up to `s1` followed by those after. */
  lemma SinceChain(s: State, s1: State, s2: State)
    requires s.trace <= s1.trace <= s2.trace
    ensures Since(s, s2) == Since(s, s1) + Since(s1, s2)
  {
    assert s2.trace[..|s1.trace|] == s1.trace;
  }

  /** The machine the launcher runs on: the oracle is fixed, the state moves. */
  class Host {
    const oracle: Oracle
    var state: State

    constructor (oracle: Oracle, files: set<string>)
      ensures this.oracle == oracle && state == State(files, [])
    {
      this.oracle := oracle;
      state := State(files, []);
    }

    method Do(e: Effect) returns (st: Status)
      modifies this`state
      ensures (state, st) == Step(oracle, old(state), e)
    {
      var r := Step(oracle, state, e);
      state, st := r.0, r.1;
    }

    /** Run a command and collect what it prints. */
    method Query(e: Effect) returns (st: Status, text: string)
      modifies this`state
      ensures (state, st) == Step(oracle, old(state), e)
      ensures text == oracle.output(old(state).trace)
    {
      text := oracle.output(state.trace);
      st := Do(e);
    }

    method Start(name: string, args: seq<string>, env: map<string, string>) returns (r: Result<nat>)
      modifies this`state
      ensures (state, r) == Spawn(oracle, old(state), name, args, env)
    {
      var pid: nat := |state.trace|;
      var st := Do(Started(name, args, env));
      r := if st.Ok? then Success(pid) else Failure(StartError(name, st.msg));
    }

    method Run(name: string, args: seq<string>, env: map<string, string>) returns (st: Status)
      modifies this`state
      ensures (state, st) == RunProc(oracle, old(state), name, args, env)
    {
      var r := Do(Ran(name, args, env));
      st := if r.Ok? then Ok else Fail(RunError(name, r.msg));
    }

    method Fetch(url: string) returns (r: Reply)
      modifies this`state
      ensures state == Step(oracle, old(state), Fetched(url)).0
      ensures r == oracle.reply(old(state).trace, url)
    {
      r := oracle.reply(state.trace, url);
      var _ := Do(Fetched(url));
    }

    method Download(url: string) returns (r: Reply)
      modifies this`state
      ensures state == Step(oracle, old(state), Downloaded(url)).0
      ensures r == oracle.reply(old(state).trace, url)
    {
      r := oracle.reply(state.trace, url);
      var _ := Do(Downloaded(url));
    }

    method OpenZip(path: string) returns (r: Result<seq<ZipEntry>>)
      modifies this`state
      ensures state == Step(oracle, old(state), Opened(path)).0
      ensures r == oracle.archive(old(state).trace, path)
    {
      r := oracle.archive(state.trace, path);
      var _ := Do(Opened(path));
    }

    method ReadDir(path: string) returns (r: Result<seq<DirEntry>>)
      modifies this`state
      ensures state == Step(oracle, old(state), Listed(path)).0
      ensures r == oracle.listing(old(state).trace, path)
    {
      r := oracle.listing(state.trace, path);
      var _ := Do(Listed(path));
    }

    method Stat(path: string) returns (b: bool)
      ensures b == Exists(oracle, state, path)
    {
      b := path in state.files;
    }
  }
}
