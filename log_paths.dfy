/** Where the profiling JSON Lines files live: the base directory chosen from the
    environment, and the per-step, per-worker file name under it. */
module LogPaths {
  import opened Wrappers
  import opened Decimal

  /** The process environment: a variable that is unset is absent from the map. */
  type Env = map<string, string>

  const RootVar: string := "SGLANG_PROFILE_LOG_ROOT"
  const NameVar: string := "EXPERIMENT_NAME"
  const DefaultName: string := "multiturn_log_dir"
  const BaseDir: string := "logs"

  /** `os.getenv(key, default)`: the default only when the variable is unset;
      a variable set to the empty string yields the empty string. */
  function GetEnv(env: Env, key: string, default: string): string {
    if key in env then env[key] else default
  }

  predicate IsAbsolute(p: string) {
    |p| > 0 && p[0] == '/'
  }

  /** The directory part that POSIX path joining puts in front of a relative component:
      nothing for an empty path, the path itself when it already ends in a slash. */
  function DirPrefix(a: string): (r: string)
    ensures a <= r && |r| <= |a| + 1
    ensures r != [] ==> r[|r| - 1] == '/'
  {
    if a == [] || a[|a| - 1] == '/' then a else a + "/"
  }

  /** `os.path.join(a, b)` on POSIX: an absolute component discards what precedes it;
      otherwise a single separator is inserted where one is missing. */
  function Join(a: string, b: string): (r: string)
    ensures IsAbsolute(b) ==> r == b
    ensures !IsAbsolute(b) ==> r == DirPrefix(a) + b
  {
    if IsAbsolute(b) then b
    else if a == [] || a[|a| - 1] == '/' then a + b
    else a + "/" + b
  }

  /** `get_sglang_log_dir()`: `root/name` when the root variable is non-empty,
      else `logs/name`, where the name defaults to `multiturn_log_dir`. */
  function LogDir(env: Env): (r: string)
    ensures RootVar !in env && NameVar !in env ==> r == "logs/multiturn_log_dir"
    ensures var name := GetEnv(env, NameVar, DefaultName);
            |r| >= |name| && r[|r| - |name|..] == name
    ensures var root := GetEnv(env, RootVar, "");
            var name := GetEnv(env, NameVar, DefaultName);
            !IsAbsolute(name) ==> r == (if root != "" then DirPrefix(root) else "logs/") + name
    ensures IsAbsolute(GetEnv(env, NameVar, DefaultName)) ==> r == GetEnv(env, NameVar, DefaultName)
  {
    var root := GetEnv(env, RootVar, "");
    var name := GetEnv(env, NameVar, DefaultName);
    if root != "" then Join(root, name) else Join(BaseDir, name)
  }

  const StepPrefix: string := "step_"
  const WorkerPrefix: string := "worker_"
  const Suffix: string := ".jsonl"

  /** `build_profile_log_path(log_dir, step, rank)`: the file
      `log_dir/step_<step>/worker_<rank>.jsonl`, with step and rank in plain decimal. */
  function BuildProfileLogPath(logDir: string, step: int, rank: int): (r: string)
    ensures r == DirPrefix(logDir) + "step_" + IntToString(step) + "/worker_" + IntToString(rank) + ".jsonl"
  {
    var s, k := IntToString(step), IntToString(rank);
    var stepDir, file := StepPrefix + s, WorkerPrefix + k + Suffix;
    assert stepDir[0] == 's' && stepDir[|stepDir| - 1] == s[|s| - 1] && file[0] == 'w';
    JoinRelativeTwice(logDir, stepDir, file);
    PathTemplate(DirPrefix(logDir), s, k);
    Join(Join(logDir, stepDir), file)
  }

  /** Joining two relative components that do not start with a slash puts one separator between them. */
  lemma JoinRelativeTwice(a: string, b: string, c: string)
    requires b != [] && b[0] != '/' && b[|b| - 1] != '/'
    requires c != [] && c[0] != '/'
    ensures Join(Join(a, b), c) == DirPrefix(a) + b + "/" + c
  {
    var ab := Join(a, b);
    assert ab == DirPrefix(a) + b;
    assert ab[|ab| - 1] == b[|b| - 1];
  }

  lemma RegroupPath(d: string, sp: string, s: string, wp: string, k: string, x: string)
    ensures d + (sp + s) + "/" + (wp + k + x) == d + sp + s + ("/" + wp) + k + x
  {
  }

  lemma PathTemplate(d: string, s: string, k: string)
    ensures d + (StepPrefix + s) + "/" + (WorkerPrefix + k + Suffix) == d + "step_" + s + "/worker_" + k + ".jsonl"
  {
    RegroupPath(d, StepPrefix, s, WorkerPrefix, k, Suffix);
    assert "/" + WorkerPrefix == "/worker_";
  }

  /** The position of the first `c` in `s`, if any. */
  function IndexOf(s: string, c: char): (r: Option<nat>)
    ensures r.Some? ==> r.value < |s| && s[r.value] == c && c !in s[..r.value]
    ensures r.None? ==> c !in s
  {
    if s == [] then None
    else if s[0] == c then Some(0)
    else match IndexOf(s[1..], c)
      case None => None
      case Some(i) => Some(i + 1)
  }

  /** The (step, rank) named by `<step>/worker_<rank>`. */
  function ParseStepWorker(mid: string): Option<(int, int)> {
    match IndexOf(mid, '/')
    case None => None
    case Some(i) =>
      var rest := mid[i + 1..];
      if |rest| < |WorkerPrefix| || rest[..|WorkerPrefix|] != WorkerPrefix then None
      else match (ParseInt(mid[..i]), ParseInt(rest[|WorkerPrefix|..]))
        case (Some(s), Some(k)) => Some((s, k))
        case _ => None
  }

  /** The inverse of the path template for a fixed directory: the (step, rank) a path names. */
  function ParseProfileLogPath(logDir: string, p: string): Option<(int, int)> {
    var pre := DirPrefix(logDir) + StepPrefix;
    if |p| < |pre| + |Suffix| || p[..|pre|] != pre || p[|p| - |Suffix|..] != Suffix then None
    else ParseStepWorker(p[|pre|..|p| - |Suffix|])
  }

  lemma {:induction false} IndexOfFirstSlash(s: string, t: string)
    requires '/' !in s
    ensures IndexOf(s + "/" + t, '/') == Some(|s|)
  {
    if s != [] {
      assert (s + "/" + t)[1..] == s[1..] + "/" + t;
      IndexOfFirstSlash(s[1..], t);
    }
  }

  lemma ParseStepWorkerRoundTrip(step: int, rank: int)
    ensures ParseStepWorker(IntToString(step) + "/" + (WorkerPrefix + IntToString(rank))) == Some((step, rank))
  {
    var s, k := IntToString(step), IntToString(rank);
    var mid := s + "/" + (WorkerPrefix + k);
    assert '/' !in s by {
      forall j | 0 <= j < |s| ensures s[j] != '/' { }
    }
    IndexOfFirstSlash(s, WorkerPrefix + k);
    assert mid[..|s|] == s;
    var rest := mid[|s| + 1..];
    assert rest == WorkerPrefix + k;
    assert rest[..|WorkerPrefix|] == WorkerPrefix;
    assert rest[|WorkerPrefix|..] == k;
    IntToStringRoundTrip(step);
    IntToStringRoundTrip(rank);
  }

  lemma ParseOfParts(logDir: string, p: string, mid: string)
    requires p == DirPrefix(logDir) + StepPrefix + mid + Suffix
    ensures ParseProfileLogPath(logDir, p) == ParseStepWorker(mid)
  {
    var pre := DirPrefix(logDir) + StepPrefix;
    assert p[..|pre|] == pre && p[|p| - |Suffix|..] == Suffix && p[|pre|..|p| - |Suffix|] == mid;
  }

  lemma Regroup(pre: string, s: string, k: string)
    ensures pre + s + "/worker_" + k + Suffix == pre + (s + "/" + (WorkerPrefix + k)) + Suffix
  {
    assert "/worker_" == "/" + WorkerPrefix;
  }

  /** Reading the step and rank back from a built path gives the ones it was built from. */
  lemma ParseBuildRoundTrip(logDir: string, step: int, rank: int)
    ensures ParseProfileLogPath(logDir, BuildProfileLogPath(logDir, step, rank)) == Some((step, rank))
  {
    var p := BuildProfileLogPath(logDir, step, rank);
    var s, k := IntToString(step), IntToString(rank);
    var mid := s + "/" + (WorkerPrefix + k);
    Regroup(DirPrefix(logDir) + StepPrefix, s, k);
    ParseOfParts(logDir, p, mid);
    ParseStepWorkerRoundTrip(step, rank);
  }

  /** Step 3 on rank 1 under `logs/exp` is `logs/exp/step_3/worker_1.jsonl`. */
  lemma BuildProfileLogPathExample()
    ensures BuildProfileLogPath("logs/exp", 3, 1) == "logs/exp/step_3/worker_1.jsonl"
  {
    assert IntToString(3) == "3" && IntToString(1) == "1";
    assert DirPrefix("logs/exp") == "logs/exp/";
    var stepDir: string := "logs/exp/" + "step_" + "3";
    assert stepDir == "logs/exp/step_3";
    var withWorker: string := stepDir + "/worker_" + "1";
    assert withWorker == "logs/exp/step_3/worker_1";
    assert withWorker + ".jsonl" == "logs/exp/step_3/worker_1.jsonl";
  }

  /** For a fixed directory, distinct (step, rank) pairs never share a file. */
  lemma ProfileLogPathInjective(logDir: string, s1: int, r1: int, s2: int, r2: int)
    requires BuildProfileLogPath(logDir, s1, r1) == BuildProfileLogPath(logDir, s2, r2)
    ensures s1 == s2 && r1 == r2
  {
    ParseBuildRoundTrip(logDir, s1, r1);
    ParseBuildRoundTrip(logDir, s2, r2);
  }
}
