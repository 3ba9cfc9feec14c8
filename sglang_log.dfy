/** The profiling logger of the SGLang multi-turn rollout: the process-wide step/rank context,
    the lazily created manager singleton, and the manager's cache of append-mode file handles. */
module SGLangLog {
  import opened Wrappers
  import opened LogPaths
  import opened LogRecords

  /** One line of a JSON Lines file: `json.dumps(record) + "\n"`. Serialisation is modelled
      as this injective constructor; escaping and spacing are not modelled. */
  datatype Line = JsonLine(record: Record)

  /** A file object from `open(path, "a", buffering=1)`; `id` tells separate `open` calls apart. */
  datatype Handle = Handle(id: nat, path: string, isOpen: bool)

  /** The result of a `log` call: the line was written, or the cached handle had already been
      closed by `close_all` and the write raised. */
  datatype Outcome = Written | ClosedFile

  type Files = map<string, seq<Line>>

  /** The lines of the file at `path`; a file that does not exist yet reads as empty. */
  function Existing(files: Files, path: string): seq<Line> {
    if path in files then files[path] else []
  }

  /** The state one manager works on: its handle cache, the next handle id, and the files on disk. */
  datatype Store = Store(handles: map<string, Handle>, nextId: nat, files: Files)

  /** The cache invariant: every entry holds the handle opened for that very path, and no two
      entries share a handle. */
  predicate CacheOk(handles: map<string, Handle>, nextId: nat) {
    && (forall p :: p in handles ==> handles[p].path == p && handles[p].id < nextId)
    && (forall p, q :: p in handles && q in handles && p != q ==> handles[p].id != handles[q].id)
  }

  /** Whether a `log` on `path` can write: the path is new (it will be opened) or its handle is open. */
  predicate Writable(handles: map<string, Handle>, path: string) {
    path !in handles || handles[path].isOpen
  }

  /** `get_handle(path)`: a cached path is returned as it is; a new path is opened once, which
      creates the file when absent and keeps its content when present, and is cached. */
  function AfterGetHandle(s: Store, path: string): (t: Store)
    ensures path in s.handles ==> t == s
    ensures t.handles.Keys == s.handles.Keys + {path}
    ensures forall p :: p in s.handles ==> t.handles[p] == s.handles[p]
    ensures path !in s.handles ==> t.handles[path] == Handle(s.nextId, path, true) && path in t.files && t.files[path] == Existing(s.files, path)
    ensures forall p :: p != path ==> (p in t.files <==> p in s.files)
    ensures forall p :: p != path && p in s.files ==> t.files[p] == s.files[p]
    ensures CacheOk(s.handles, s.nextId) ==> CacheOk(t.handles, t.nextId)
  {
    if path in s.handles then s
    else Store(s.handles[path := Handle(s.nextId, path, true)], s.nextId + 1, s.files[path := Existing(s.files, path)])
  }

  /** One `log` call: fetch the handle, then append exactly one line to the file if the handle is open. */
  function AfterLog(s: Store, path: string, line: Line): (t: Store)
    ensures t.handles == AfterGetHandle(s, path).handles && t.nextId == AfterGetHandle(s, path).nextId
    ensures Writable(s.handles, path) ==> path in t.files && t.files[path] == Existing(s.files, path) + [line]
    ensures !Writable(s.handles, path) ==> t == s
    ensures forall p :: p != path ==> (p in t.files <==> p in s.files)
    ensures forall p :: p != path && p in s.files ==> t.files[p] == s.files[p]
  {
    var g := AfterGetHandle(s, path);
    if g.handles[path].isOpen then g.(files := g.files[path := Existing(g.files, path) + [line]]) else g
  }

  /** Successive `log` calls on one path, writing `lines` in order. */
  function AfterLogs(s: Store, path: string, lines: seq<Line>): Store
    decreases |lines|
  {
    if lines == [] then s else AfterLog(AfterLogs(s, path, lines[..|lines| - 1]), path, lines[|lines| - 1])
  }

  /** N calls on one path leave N more lines in call order, open at most one handle for it, and
      touch no other file and no other cache entry. */
  lemma {:induction false} AfterLogsAppends(s: Store, path: string, lines: seq<Line>)
    requires Writable(s.handles, path)
    ensures var t := AfterLogs(s, path, lines);
      && Existing(t.files, path) == Existing(s.files, path) + lines
      && t.handles.Keys <= s.handles.Keys + {path}
      && (lines != [] ==> t.handles == AfterGetHandle(s, path).handles)
      && (forall p :: p != path ==> (p in t.files <==> p in s.files))
      && (forall p :: p != path && p in s.files ==> t.files[p] == s.files[p])
    decreases |lines|
  {
    if lines != [] {
      var front := lines[..|lines| - 1];
      AfterLogsAppends(s, path, front);
      var m := AfterLogs(s, path, front);
      assert Writable(m.handles, path);
      assert Existing(m.files, path) == Existing(s.files, path) + front;
      assert lines == front + [lines[|lines| - 1]];
    }
  }

  /** `close_all` on the cache: every handle is closed and stays cached. */
  function ClosedAll(handles: map<string, Handle>): (r: map<string, Handle>)
    ensures r.Keys == handles.Keys
    ensures forall p :: p in r ==> !r[p].isOpen && r[p] == handles[p].(isOpen := false)
  {
    map p | p in handles :: handles[p].(isOpen := false)
  }

  lemma ClosedAllKeepsCacheOk(handles: map<string, Handle>, nextId: nat)
    requires CacheOk(handles, nextId)
    ensures CacheOk(ClosedAll(handles), nextId)
  {
  }

  /** Closing twice is the same as closing once. */
  lemma ClosedAllIdempotent(handles: map<string, Handle>)
    ensures ClosedAll(ClosedAll(handles)) == ClosedAll(handles)
  {
  }

  /** After `close_all`, a `log` on a cached path raises instead of writing, and changes nothing. */
  lemma LogAfterCloseAll(s: Store, path: string, line: Line)
    requires path in s.handles
    ensures AfterLog(s.(handles := ClosedAll(s.handles)), path, line) == s.(handles := ClosedAll(s.handles))
  {
  }

  /** The record of one `log` call, built as `log` builds it: the fixed fields with step and worker
      defaulted from the process context, the optional duration and extra, the caller's keyword
      arguments merged one by one, and then the reserved keys moved to the front. */
  method BuildRecord(ctx: ProcessContext, timestamp: string, event: string,
                     duration: Option<Value>, extra: Option<Value>, workid: Option<int>, step: Option<int>,
                     extraKeys: Record)
    returns (ordered: Record)
    ensures ordered == EmittedRecord(timestamp, event, duration, extra, workid, step, extraKeys,
                                     ctx.currentStep, ctx.currentRank)
  {
    var stepVal := if step.Some? then step.value else ctx.currentStep;
    var workerVal := if workid.Some? then workid.value else ctx.currentRank;
    var logEntry: Record :=
      [("timestamp", Str(timestamp)), ("step", Int(stepVal)), ("worker", Int(workerVal)), ("event", Str(event))];
    // Neither key is present yet, so assigning it appends it.
    if duration.Some? {
      logEntry := logEntry + [("duration_sec", duration.value)];
    }
    if extra.Some? {
      logEntry := logEntry + [("extra", extra.value)];
    }
    ghost var base := logEntry;
    assert base == BaseEntry(timestamp, stepVal, workerVal, event, duration, extra);
    var i := 0;
    while i < |extraKeys|
      invariant 0 <= i <= |extraKeys|
      invariant logEntry == MergeAll(base, extraKeys[..i])
    {
      MergeAllStep(base, extraKeys, i);
      logEntry := Assign(logEntry, extraKeys[i].0, extraKeys[i].1);
      i := i + 1;
    }
    assert extraKeys[..i] == extraKeys;
    ordered := Reorder(logEntry);
  }

  class SGLangLogManager {
    var fileHandles: map<string, Handle>
    var nextId: nat

    ghost predicate Valid()
      reads this
    {
      CacheOk(fileHandles, nextId)
    }

    constructor ()
      ensures Valid() && fileHandles == map[]
    {
      fileHandles := map[];
      nextId := 0;
    }

    /** Return the handle for `path`, opening and caching it on first use. */
    method GetHandle(fs: FileSystem, path: string) returns (h: Handle)
      requires Valid()
      modifies this, fs
      ensures Valid()
      ensures Store(fileHandles, nextId, fs.files) == AfterGetHandle(Store(old(fileHandles), old(nextId), old(fs.files)), path)
      ensures path in fileHandles && h == fileHandles[path] && h.path == path
      ensures path in old(fileHandles) ==> h == old(fileHandles)[path]
    {
      if path !in fileHandles {
        // The parent directories are created first; directories are not modelled.
        fs.files := fs.files[path := Existing(fs.files, path)];
        fileHandles := fileHandles[path := Handle(nextId, path, true)];
        nextId := nextId + 1;
      }
      h := fileHandles[path];
    }

    /** Append one profiling record, as one line, to the file at `logPath`.
        The clock reading `timestamp` is a parameter. */
    method Log(ctx: ProcessContext, fs: FileSystem, timestamp: string, logPath: string, event: string,
               duration: Option<Value>, extra: Option<Value>, workid: Option<int>, step: Option<int>,
               extraKeys: Record)
      returns (outcome: Outcome)
      requires Valid() && KwargsOk(extraKeys)
      modifies this, fs
      ensures Valid()
      ensures outcome == Written <==> Writable(old(fileHandles), logPath)
      ensures var line := JsonLine(EmittedRecord(timestamp, event, duration, extra, workid, step, extraKeys,
                                                 ctx.currentStep, ctx.currentRank));
        Store(fileHandles, nextId, fs.files) == AfterLog(Store(old(fileHandles), old(nextId), old(fs.files)), logPath, line)
    {
      var handle := GetHandle(fs, logPath);
      var ordered := BuildRecord(ctx, timestamp, event, duration, extra, workid, step, extraKeys);
      if handle.isOpen {
        fs.files := fs.files[logPath := Existing(fs.files, logPath) + [JsonLine(ordered)]];
        outcome := Written;
      } else {
        outcome := ClosedFile;
      }
    }

    /** Close every cached handle; the entries stay in the cache. */
    method CloseAll()
      requires Valid()
      modifies this
      ensures Valid() && nextId == old(nextId)
      ensures fileHandles == ClosedAll(old(fileHandles))
    {
      ghost var before := fileHandles;
      var remaining := fileHandles.Keys;
      while remaining != {}
        invariant remaining <= before.Keys && fileHandles.Keys == before.Keys
        invariant forall p :: p in before ==>
          fileHandles[p] == if p in remaining then before[p] else before[p].(isOpen := false)
        invariant nextId == old(nextId)
        decreases remaining
      {
        var p :| p in remaining;
        fileHandles := fileHandles[p := fileHandles[p].(isOpen := false)];
        remaining := remaining - {p};
      }
      ClosedAllKeepsCacheOk(before, nextId);
    }
  }

  /** The files on disk. */
  class FileSystem {
    var files: Files

    constructor (files: Files)
      ensures this.files == files
    {
      this.files := files;
    }
  }

  /** The module-level state of the logging module: the current step and rank, and the manager singleton. */
  class ProcessContext {
    var currentStep: int
    var currentRank: int
    var logManager: SGLangLogManager?

    ghost predicate Valid()
      reads this, logManager
    {
      logManager != null ==> logManager.Valid()
    }

    /** The state right after the module is imported. */
    constructor ()
      ensures Valid()
      ensures currentStep == 0 && currentRank == 0 && logManager == null
    {
      currentStep := 0;
      currentRank := 0;
      logManager := null;
    }

    function GetStep(): int
      reads this
    {
      currentStep
    }

    function GetRank(): int
      reads this
    {
      currentRank
    }

    method SetRolloutStep(step: int)
      modifies this`currentStep
      ensures GetStep() == step && GetRank() == old(GetRank())
    {
      currentStep := step;
    }

    method SetRolloutRank(rank: int)
      modifies this`currentRank
      ensures GetRank() == rank && GetStep() == old(GetStep())
    {
      currentRank := rank;
    }

    /** `get_sglang_log_path`: an explicit step, rank or directory wins; an omitted one comes from
        the process context or, for the directory, from the environment. */
    function GetLogPath(env: Env, step: Option<int>, rank: Option<int>, logDir: Option<string>): (r: string)
      reads this
      ensures var base := if logDir.Some? then logDir.value else LogDir(env);
        ParseProfileLogPath(base, r) ==
             Some((if step.Some? then step.value else currentStep, if rank.Some? then rank.value else currentRank))
      ensures r == BuildProfileLogPath(if logDir.Some? then logDir.value else LogDir(env),
                                       if step.Some? then step.value else currentStep,
                                       if rank.Some? then rank.value else currentRank)
    {
      var base := if logDir.Some? then logDir.value else LogDir(env);
      var stepVal := if step.Some? then step.value else currentStep;
      var rankVal := if rank.Some? then rank.value else currentRank;
      ParseBuildRoundTrip(base, stepVal, rankVal);
      BuildProfileLogPath(base, stepVal, rankVal)
    }

    /** `get_sglang_log_manager`: the first call creates the manager, every later call returns it. */
    method GetLogManager() returns (m: SGLangLogManager)
      requires Valid()
      modifies this`logManager
      ensures Valid() && logManager == m
      ensures old(logManager) != null ==> m == old(logManager)
      ensures old(logManager) == null ==> fresh(m) && m.fileHandles == map[]
    {
      if logManager == null {
        logManager := new SGLangLogManager();
      }
      m := logManager;
    }
  }
}
