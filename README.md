# SGLang multi-turn rollout profiling log, in Dafny

This project models the profiling logger of the SGLang multi-turn rollout in verl
(`verl/workers/rollout/sglang_rollout/log_manager.py`). It covers these parts:

- the base log directory taken from the environment (`SGLANG_PROFILE_LOG_ROOT`, `EXPERIMENT_NAME`,
  default `logs/multiturn_log_dir`);
- the path template `<log_dir>/step_<step>/worker_<rank>.jsonl` and the step/rank getters and setters;
- the manager's cache of append-mode file handles (`get_handle`);
- the JSON record one `log` call writes, with its key order;
- `close_all`, and the process-wide manager singleton.

Modules:

- `Wrappers` (`wrappers.dfy`): `Option`.
- `Decimal` (`decimal.dfy`): Python's decimal rendering of an `int` (`str(n)`, `f"{n}"`) and a parser
  that inverts it. Python's limit on the number of digits is not modelled (see "## Left out").
- `LogPaths` (`log_paths.dfy`): POSIX `os.path.join`, `get_sglang_log_dir`, `build_profile_log_path`, and
  `ParseProfileLogPath`. That last one reads the step and rank back from a path. It is used to prove
  that the template is injective, and to state the contract of `ProcessContext.GetLogPath`.
- `LogRecords` (`log_records.dfy`): a Python `dict` as a sequence of key/value pairs in insertion order.
  It also holds `d[k] = v`, the merge of `**extra_keys`, the reordering comprehension, and
  `EmittedRecord`, the record one `log` call serialises.
- `SGLangLog` (`sglang_log.dfy`):
  - `ProcessContext` is a class holding the module-level globals `_current_step`, `_current_rank`
    and `_log_manager`;
  - `FileSystem` is a class holding the files on disk as sequences of lines;
  - `SGLangLogManager` is a class holding the handle cache;
  - `AfterGetHandle`, `AfterLog` and `ClosedAll` are the pure state transitions that the methods
    `GetHandle`, `Log` and `CloseAll` are proved against;
  - `AfterLogs` chains `AfterLog` over several calls on one path. No method uses it; the lemma
    `AfterLogsAppends` states what it does.

## Model

| member | source | states |
|---|---|---|
| Decimal.IntToString | verl/workers/rollout/sglang_rollout/log_manager.py:63 | the text is non-empty, ends in a digit and holds only digits and `-`; it starts with `-` exactly for a negative int; there is no `-0` and no leading zero except in `0` itself |
| Decimal.IntToStringCanonical | verl/workers/rollout/sglang_rollout/log_manager.py:63 | the text is in Python's form, and it is the only text in that form that parses to the int, so `step_3` and never `step_03` |
| Decimal.IntToStringRoundTrip | verl/workers/rollout/sglang_rollout/log_manager.py:63 | the decimal text of any int (negative included) parses back to that int |
| Decimal.IntToStringInjective | verl/workers/rollout/sglang_rollout/log_manager.py:63 | two ints with the same decimal text are equal |
| LogPaths.Join | verl/workers/rollout/sglang_rollout/log_manager.py:35-36 | `os.path.join(a, b)`: an absolute `b` is the result; otherwise `b` follows `a` with exactly one separator (none added after an empty `a` or a trailing slash) |
| LogPaths.LogDir | verl/workers/rollout/sglang_rollout/log_manager.py:30-36 | with neither variable set the directory is `logs/multiturn_log_dir`; it always ends in the experiment name; a relative name goes under the root when the root is non-empty, else under `logs/`; an absolute name is the directory itself |
| LogPaths.BuildProfileLogPath | verl/workers/rollout/sglang_rollout/log_manager.py:61-63 | the path is the directory, one separator, `step_<step>`, `/worker_<rank>`, `.jsonl`, with step and rank in Python's decimal form |
| LogPaths.BuildProfileLogPathExample | verl/workers/rollout/sglang_rollout/log_manager.py:61-63 | step 3, rank 1 under `logs/exp` is `logs/exp/step_3/worker_1.jsonl` |
| LogPaths.ParseBuildRoundTrip | verl/workers/rollout/sglang_rollout/log_manager.py:61-63 | the step and rank read back from a built path are the ones it was built from, for every directory and every pair of ints |
| LogPaths.ProfileLogPathInjective | verl/workers/rollout/sglang_rollout/log_manager.py:61-63 | under one directory, different (step, rank) pairs never get the same file |
| SGLangLog.ProcessContext.constructor | verl/workers/rollout/sglang_rollout/log_manager.py:26-27 | at import, step and rank are 0 and there is no manager yet |
| SGLangLog.ProcessContext.SetRolloutStep | verl/workers/rollout/sglang_rollout/log_manager.py:39-52 | after the call `get_sglang_step()` returns the new step; the rank is unchanged |
| SGLangLog.ProcessContext.SetRolloutRank | verl/workers/rollout/sglang_rollout/log_manager.py:39-58 | after the call `get_sglang_rank()` returns the new rank; the step is unchanged |
| SGLangLog.ProcessContext.GetStep | verl/workers/rollout/sglang_rollout/log_manager.py:39-41 | no contract of its own; `SGLangLog.ProcessContext.SetRolloutStep` and `SGLangLog.ProcessContext.SetRolloutRank` state what it returns |
| SGLangLog.ProcessContext.GetRank | verl/workers/rollout/sglang_rollout/log_manager.py:44-46 | no contract of its own; `SGLangLog.ProcessContext.SetRolloutRank` and `SGLangLog.ProcessContext.SetRolloutStep` state what it returns |
| SGLangLog.ProcessContext.GetLogPath | verl/workers/rollout/sglang_rollout/log_manager.py:66-75 | the path is `BuildProfileLogPath` of the explicit step, rank and directory when given, else of the current step and rank and of `get_sglang_log_dir()`; parsing it gives back that step and rank |
| LogRecords.Get | verl/workers/rollout/sglang_rollout/log_manager.py:121 | a lookup succeeds exactly when the key is in the dict, and returns a pair of the dict |
| LogRecords.Assign | verl/workers/rollout/sglang_rollout/log_manager.py:117 | no contract of its own; `LogRecords.AssignKeys` and `LogRecords.AssignGet` state it |
| LogRecords.AssignKeys | verl/workers/rollout/sglang_rollout/log_manager.py:115-117 | `d[k] = v` keeps the key order when `k` is present and appends `k` otherwise |
| LogRecords.AssignGet | verl/workers/rollout/sglang_rollout/log_manager.py:115-117 | after `d[k] = v`, `k` maps to `v` and every other key keeps its value |
| LogRecords.MergeAll | verl/workers/rollout/sglang_rollout/log_manager.py:115-117 | no contract of its own; `LogRecords.MergeAllKeys`, `LogRecords.MergeAllGet` and `LogRecords.MergeAllDistinct` state it, and `SGLangLog.BuildRecord` proves the loop equal to it |
| LogRecords.MergeAllKeys | verl/workers/rollout/sglang_rollout/log_manager.py:115-117 | merging the keyword arguments keeps the entry's keys in place and appends the new ones in call order |
| LogRecords.MergeAllGet | verl/workers/rollout/sglang_rollout/log_manager.py:115-117 | after merging, a key the caller passed holds the caller's value; every other key holds the entry's |
| LogRecords.MergeAllDistinct | verl/workers/rollout/sglang_rollout/log_manager.py:115-117 | merging never produces a repeated key |
| LogRecords.Project | verl/workers/rollout/sglang_rollout/log_manager.py:121 | no contract of its own; `LogRecords.ProjectKeys` and `LogRecords.ProjectGet` state it |
| LogRecords.ProjectKeys | verl/workers/rollout/sglang_rollout/log_manager.py:121 | the comprehension keeps exactly the listed keys the dict has, in list order |
| LogRecords.ProjectGet | verl/workers/rollout/sglang_rollout/log_manager.py:121 | the comprehension copies the value of every listed key and has no other key |
| LogRecords.Reorder | verl/workers/rollout/sglang_rollout/log_manager.py:118-121 | no contract of its own; `LogRecords.ReorderKeys`, `LogRecords.ReorderGet` and `LogRecords.ReorderPermutation` state it |
| LogRecords.ReorderKeys | verl/workers/rollout/sglang_rollout/log_manager.py:118-121 | the reserved keys present come first in reserved order, then the others in insertion order |
| LogRecords.ReorderGet | verl/workers/rollout/sglang_rollout/log_manager.py:118-121 | reordering changes no value and adds or drops no key |
| LogRecords.ReorderPermutation | verl/workers/rollout/sglang_rollout/log_manager.py:118-121 | the reordered dict holds exactly the same key/value pairs (as a multiset), each key once |
| LogRecords.BaseEntry | verl/workers/rollout/sglang_rollout/log_manager.py:105-114 | no contract of its own; its keys and values are stated by `LogRecords.EmittedRecordKeys` and `LogRecords.EmittedRecordValues` |
| LogRecords.EmittedRecord | verl/workers/rollout/sglang_rollout/log_manager.py:103-121 | no contract of its own; `LogRecords.EmittedRecordKeys`, `LogRecords.EmittedRecordValues` and `LogRecords.EmittedRecordPermutation` state it |
| LogRecords.EmittedRecordKeys | verl/workers/rollout/sglang_rollout/log_manager.py:103-121 | key order written: timestamp, step, worker, event; then duration_sec when passed as `duration` or as a keyword; then extra when given; then the other keywords in call order. A keyword named `timestamp`, `worker` or `duration_sec` takes that field's slot |
| LogRecords.EmittedRecordValues | verl/workers/rollout/sglang_rollout/log_manager.py:103-121 | step is the explicit step or the current one; worker is the explicit workid or the current rank unless a `worker` keyword overrides it; event and extra are as passed; a `timestamp` or `duration_sec` keyword overrides that field; every keyword's value is written as passed |
| LogRecords.EmittedRecordPermutation | verl/workers/rollout/sglang_rollout/log_manager.py:105-121 | the written record is a permutation of `log_entry`, each key once |
| SGLangLog.BuildRecord | verl/workers/rollout/sglang_rollout/log_manager.py:103-121 | the record the building code produces, including the keyword loop, is `EmittedRecord` of the call and the process context |
| SGLangLog.AfterGetHandle | verl/workers/rollout/sglang_rollout/log_manager.py:85-89 | a cached path changes nothing; a new path gets one new open handle, and its file is created or kept as it was; other entries and files are unchanged; the cache invariant is kept |
| SGLangLog.SGLangLogManager.constructor | verl/workers/rollout/sglang_rollout/log_manager.py:81-83 | a new manager has an empty cache |
| SGLangLog.SGLangLogManager.GetHandle | verl/workers/rollout/sglang_rollout/log_manager.py:85-89 | the new state is `AfterGetHandle` of the old one; the returned handle is the cache entry for that path; a later call returns a handle with the same `id`, which is how the model tells file objects apart |
| SGLangLog.AfterLog | verl/workers/rollout/sglang_rollout/log_manager.py:101-123 | one call caches the path as `get_handle` does and appends exactly one line to its file when the handle is open; on a closed handle nothing changes; no other file changes |
| SGLangLog.SGLangLogManager.Log | verl/workers/rollout/sglang_rollout/log_manager.py:91-123 | the new state is `AfterLog` with the line of `EmittedRecord` for the call and the current step and rank; it reports a write exactly when the path is new or its handle is open |
| SGLangLog.AfterLogs | verl/workers/rollout/sglang_rollout/log_manager.py:101-123 | no contract of its own; `SGLangLog.AfterLogsAppends` states it |
| SGLangLog.AfterLogsAppends | verl/workers/rollout/sglang_rollout/log_manager.py:101-123 | when the path is new or its cached handle is open, N calls on it add N lines in call order; they leave the cache as one `get_handle` would (one entry); they touch no other file |
| SGLangLog.ClosedAll | verl/workers/rollout/sglang_rollout/log_manager.py:125-127 | every cached handle is closed and the cache keeps the same paths |
| SGLangLog.SGLangLogManager.CloseAll | verl/workers/rollout/sglang_rollout/log_manager.py:125-127 | the loop leaves the cache equal to `ClosedAll` of the old cache |
| SGLangLog.ClosedAllKeepsCacheOk | verl/workers/rollout/sglang_rollout/log_manager.py:125-127 | closing keeps the cache invariant |
| SGLangLog.ClosedAllIdempotent | verl/workers/rollout/sglang_rollout/log_manager.py:125-127 | closing twice is closing once |
| SGLangLog.LogAfterCloseAll | verl/workers/rollout/sglang_rollout/log_manager.py:101-127 | after `close_all`, a `log` on a cached path writes nothing and changes nothing |
| SGLangLog.ProcessContext.GetLogManager | verl/workers/rollout/sglang_rollout/log_manager.py:131-139 | the first call creates an empty manager; every later call returns that same instance |

## Left out

- `atexit.register(self.close_all)` is not modelled. Process exit is not part of the model, and `CloseAll`
  is the operation it would run.
- `os.makedirs` is not modelled: directories do not exist in the model. Files are a map from path to lines.
  The map is keyed by the path string, so two spellings of one file (`logs/x.jsonl`, `logs//x.jsonl`,
  `./logs/x.jsonl`) are two files in the model. In Python they get two handles that append to one file.
  `AfterLog`'s "no other file changes" holds per path string only.
  So the model does not capture the failure when the path has no directory part (such as `run.jsonl`).
  There `os.makedirs("")` raises `FileNotFoundError` on every call, before anything is cached or written.
  The model caches that path and writes to it.
- `json.dumps` is the injective constructor `JsonLine`. Escaping, spacing and float formatting are not modelled.
  Its failure is not modelled either. A value it cannot serialise (a set, a numpy `float32`) makes line 122
  raise `TypeError`. In Python, `get_handle` has by then created the file and cached the handle, and no
  line is written. `Value` holds only serialisable values, so the model's `AfterLog` always appends.
- `datetime.now().isoformat()` is the `timestamp` parameter of `Log`. The clock is not modelled.
- `os.getenv` reads the `Env` map. A variable absent from the map is unset. A variable set to the empty
  string yields the empty string, so `EXPERIMENT_NAME=""` gives `logs/` when
  `SGLANG_PROFILE_LOG_ROOT` is unset or empty, and `<root>/` otherwise (`/r/` for the root `/r`).
- Float durations and `extra` dicts are opaque `Value`s, passed through unchanged.
- Python binds a keyword named after a parameter of `log` to that parameter, and raises `TypeError` if
  that parameter is also given otherwise. So `**extra_keys` never holds one of those names, and
  `KwargsOk` states this. A call such as `log(p, "e", step=3)` is modelled through the `step` parameter.
- `Handle` is a value, not a shared file object. So the handle `GetHandle` returns is a snapshot of the
  cache entry: after `CloseAll` a handle obtained earlier still reads `isOpen`, while Python's file object
  is closed. No modelled operation writes through a kept handle, because `Log` fetches it again.
- Threads, buffering and `flush`, I/O errors, and files changed by other processes are not modelled.
- `close_all` closes every handle and keeps the entries in the cache. So a later `log` on a cached path
  raises `ValueError`. The model reports `ClosedFile` there and writes nothing.
  A path never cached before is still opened and written.
- Decimal.IntToString: Python's limit on the digits of an int-to-text conversion is not modelled
  (`sys.get_int_max_str_digits()`, 4300 by default since Python 3.11 and 3.10.7). Past that limit the
  conversion raises `ValueError`. So `build_profile_log_path` raises for a step or rank of more than 4300
  digits, and `log` raises at `json.dumps` for such a step or worker after it has already cached the
  handle. The model's `IntToString` is total. `BuildProfileLogPath` returns a path and `AfterLog`
  appends the line for every int.
