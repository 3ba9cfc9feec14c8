/** The profiling record: a Python dict whose key order is part of the wire format.
    A record is a sequence of key/value pairs in insertion order. */
module LogRecords {
  import opened Wrappers

  /** A value the logger passes through unchanged: text, an integer, or anything else
      `json.dumps` accepts (a float duration, a nested `extra` dict), kept opaque. */
  datatype Value = Str(s: string) | Int(i: int) | Opaque(id: nat)

  type Field = (string, Value)
  type Record = seq<Field>

  function KeysOf(d: Record): (ks: seq<string>)
    ensures |ks| == |d|
    ensures forall i :: 0 <= i < |d| ==> ks[i] == d[i].0
  {
    seq(|d|, i requires 0 <= i < |d| => d[i].0)
  }

  predicate Distinct(ks: seq<string>) {
    forall i, j :: 0 <= i < j < |ks| ==> ks[i] != ks[j]
  }

  /** What every Python dict satisfies: no key occurs twice. */
  predicate DistinctKeys(d: Record) {
    Distinct(KeysOf(d))
  }

  /** `d.get(k)`: the value stored under `k`, if any. */
  function Get(d: Record, k: string): (r: Option<Value>)
    ensures r.Some? <==> k in KeysOf(d)
    ensures r.Some? ==> (k, r.value) in d
  {
    if d == [] then None else if d[0].0 == k then Some(d[0].1) else Get(d[1..], k)
  }

  /** `d[k] = v`: a present key keeps its position and takes the new value;
      a new key goes at the end (`AssignKeys`, `AssignGet`). */
  function Assign(d: Record, k: string, v: Value): Record {
    if d == [] then [(k, v)]
    else if d[0].0 == k then [(k, v)] + d[1..]
    else [d[0]] + Assign(d[1..], k, v)
  }

  /** `[k for k in ks if k not in excl]` */
  function Without(ks: seq<string>, excl: seq<string>): (r: seq<string>)
    ensures forall k :: k in r <==> k in ks && k !in excl
  {
    if ks == [] then [] else (if ks[0] in excl then [] else [ks[0]]) + Without(ks[1..], excl)
  }

  /** `[k for k in ks if k in incl]` */
  function Within(ks: seq<string>, incl: seq<string>): (r: seq<string>)
    ensures forall k :: k in r <==> k in ks && k in incl
  {
    if ks == [] then [] else (if ks[0] in incl then [ks[0]] else []) + Within(ks[1..], incl)
  }

  /** `[(k, d[k]) for k in ks if k in d]`, the body of a dict comprehension over `ks`. */
  function Project(d: Record, ks: seq<string>): Record {
    if ks == [] then []
    else (match Get(d, ks[0]) case Some(v) => [(ks[0], v)] case None => []) + Project(d, ks[1..])
  }

  // ---- Facts about the list and dict helpers ----

  lemma KeysOfAppend(a: Record, b: Record)
    ensures KeysOf(a + b) == KeysOf(a) + KeysOf(b)
  {
    assert forall i :: 0 <= i < |a + b| ==> KeysOf(a + b)[i] == (KeysOf(a) + KeysOf(b))[i];
  }

  /** Assigning to a present key leaves the key order alone; a new key is appended. */
  lemma {:induction false} AssignKeys(d: Record, k: string, v: Value)
    ensures KeysOf(Assign(d, k, v)) == if k in KeysOf(d) then KeysOf(d) else KeysOf(d) + [k]
  {
    if d != [] {
      assert d == [d[0]] + d[1..];
      KeysOfAppend([d[0]], d[1..]);
      if d[0].0 == k {
        KeysOfAppend([(k, v)], d[1..]);
      } else {
        AssignKeys(d[1..], k, v);
        KeysOfAppend([d[0]], Assign(d[1..], k, v));
      }
    }
  }

  /** After `d[k] = v` the key `k` holds `v` and every other key holds what it held before. */
  lemma {:induction false} AssignGet(d: Record, k: string, v: Value, k': string)
    ensures Get(Assign(d, k, v), k') == if k' == k then Some(v) else Get(d, k')
  {
    if d != [] && d[0].0 != k {
      AssignGet(d[1..], k, v, k');
      assert ([d[0]] + Assign(d[1..], k, v))[1..] == Assign(d[1..], k, v);
    } else if d != [] {
      assert ([(k, v)] + d[1..])[1..] == d[1..];
    }
  }

  lemma {:induction false} GetAppend(a: Record, b: Record, k: string)
    ensures Get(a + b, k) == if k in KeysOf(a) then Get(a, k) else Get(b, k)
  {
    if a != [] {
      assert (a + b)[1..] == a[1..] + b;
      GetAppend(a[1..], b, k);
    } else {
      assert a + b == b;
    }
  }

  /** In a record without repeated keys a pair occurs exactly when the lookup finds it. */
  lemma {:induction false} InRecordIffGet(d: Record, p: Field)
    requires DistinctKeys(d)
    ensures p in d <==> Get(d, p.0) == Some(p.1)
  {
    if d != [] {
      assert DistinctKeys(d[1..]) by {
        assert forall i :: 0 <= i < |d| - 1 ==> KeysOf(d[1..])[i] == KeysOf(d)[i + 1];
      }
      InRecordIffGet(d[1..], p);
    }
  }

  /** In a record without repeated keys every pair occurs at most once. */
  lemma {:induction false} DistinctKeysCount(d: Record, p: Field)
    requires DistinctKeys(d)
    ensures multiset(d)[p] == if p in d then 1 else 0
  {
    if d != [] {
      assert d == [d[0]] + d[1..];
      assert DistinctKeys(d[1..]) by {
        assert forall i :: 0 <= i < |d| - 1 ==> KeysOf(d[1..])[i] == KeysOf(d)[i + 1];
      }
      DistinctKeysCount(d[1..], p);
      if d[0] == p {
        assert d[0].0 !in KeysOf(d[1..]);
        assert p !in d[1..];
      }
    }
  }

  lemma {:induction false} WithoutAppend(a: seq<string>, b: seq<string>, excl: seq<string>)
    ensures Without(a + b, excl) == Without(a, excl) + Without(b, excl)
  {
    if a != [] {
      var h: seq<string> := if a[0] in excl then [] else [a[0]];
      assert (a + b)[1..] == a[1..] + b;
      WithoutAppend(a[1..], b, excl);
      calc {
        Without(a + b, excl);
        h + Without(a[1..] + b, excl);
        h + (Without(a[1..], excl) + Without(b, excl));
        { ConcatAssoc(h, Without(a[1..], excl), Without(b, excl)); }
        Without(a, excl) + Without(b, excl);
      }
    } else {
      assert a + b == b;
    }
  }

  lemma {:induction false} WithinAppend(a: seq<string>, b: seq<string>, incl: seq<string>)
    ensures Within(a + b, incl) == Within(a, incl) + Within(b, incl)
  {
    if a != [] {
      var h: seq<string> := if a[0] in incl then [a[0]] else [];
      assert (a + b)[1..] == a[1..] + b;
      WithinAppend(a[1..], b, incl);
      calc {
        Within(a + b, incl);
        h + Within(a[1..] + b, incl);
        h + (Within(a[1..], incl) + Within(b, incl));
        { ConcatAssoc(h, Within(a[1..], incl), Within(b, incl)); }
        Within(a, incl) + Within(b, incl);
      }
    } else {
      assert a + b == b;
    }
  }

  lemma {:induction false} WithinAll(ks: seq<string>, incl: seq<string>)
    requires forall k :: k in ks ==> k in incl
    ensures Within(ks, incl) == ks
  {
    if ks != [] {
      WithinAll(ks[1..], incl);
    }
  }

  lemma {:induction false} WithoutTwice(s: seq<string>, a: seq<string>, b: seq<string>)
    requires forall k :: k in s && k in a ==> k in b
    ensures Without(Without(s, a), b) == Without(s, b)
  {
    if s != [] {
      WithoutTwice(s[1..], a, b);
      if s[0] in a {
        assert Without(s, a) == Without(s[1..], a);
      } else {
        assert Without(s, a) == [s[0]] + Without(s[1..], a);
      }
    }
  }

  lemma {:induction false} WithoutDistinct(ks: seq<string>, excl: seq<string>)
    requires Distinct(ks)
    ensures Distinct(Without(ks, excl))
  {
    if ks != [] {
      WithoutDistinct(ks[1..], excl);
    }
  }

  lemma {:induction false} WithinDistinct(ks: seq<string>, incl: seq<string>)
    requires Distinct(ks)
    ensures Distinct(Within(ks, incl))
  {
    if ks != [] {
      WithinDistinct(ks[1..], incl);
    }
  }

  lemma DistinctAppend(a: seq<string>, b: seq<string>)
    requires Distinct(a) && Distinct(b)
    requires forall k :: k in a ==> k !in b
    ensures Distinct(a + b)
  {
    forall i, j | 0 <= i < j < |a + b| ensures (a + b)[i] != (a + b)[j] {
      if i < |a| && j >= |a| {
        assert (a + b)[i] in a && (a + b)[j] in b;
      }
    }
  }

  lemma {:induction false} ProjectAppend(d: Record, a: seq<string>, b: seq<string>)
    ensures Project(d, a + b) == Project(d, a) + Project(d, b)
  {
    if a != [] {
      var h: Record := match Get(d, a[0]) case Some(v) => [(a[0], v)] case None => [];
      assert (a + b)[1..] == a[1..] + b;
      ProjectAppend(d, a[1..], b);
      calc {
        Project(d, a + b);
        h + Project(d, a[1..] + b);
        h + (Project(d, a[1..]) + Project(d, b));
        h + Project(d, a[1..]) + Project(d, b);
        Project(d, a) + Project(d, b);
      }
    } else {
      assert a + b == b;
    }
  }

  /** The comprehension keeps exactly the listed keys that the record has, in list order. */
  lemma {:induction false} ProjectKeys(d: Record, ks: seq<string>)
    ensures KeysOf(Project(d, ks)) == Within(ks, KeysOf(d))
  {
    if ks != [] {
      ProjectKeys(d, ks[1..]);
      var head := match Get(d, ks[0]) case Some(v) => [(ks[0], v)] case None => [];
      KeysOfAppend(head, Project(d, ks[1..]));
    }
  }

  /** The comprehension copies every value it keeps. */
  lemma {:induction false} ProjectGet(d: Record, ks: seq<string>, k: string)
    ensures Get(Project(d, ks), k) == if k in ks then Get(d, k) else None
  {
    if ks != [] {
      ProjectGet(d, ks[1..], k);
      var head := match Get(d, ks[0]) case Some(v) => [(ks[0], v)] case None => [];
      GetAppend(head, Project(d, ks[1..]), k);
    }
  }

  // ---- Merging the caller's keyword arguments ----

  /** The state of the entry after `for key in kvs: d[key] = kvs[key]`. */
  function MergeAll(d: Record, kvs: Record): Record {
    if kvs == [] then d
    else
      var last := kvs[|kvs| - 1];
      Assign(MergeAll(d, kvs[..|kvs| - 1]), last.0, last.1)
  }

  lemma DropLast(kvs: Record)
    requires DistinctKeys(kvs) && kvs != []
    ensures kvs == kvs[..|kvs| - 1] + [kvs[|kvs| - 1]]
    ensures KeysOf(kvs) == KeysOf(kvs[..|kvs| - 1]) + [kvs[|kvs| - 1].0]
    ensures DistinctKeys(kvs[..|kvs| - 1])
    ensures kvs[|kvs| - 1].0 !in KeysOf(kvs[..|kvs| - 1])
  {
    var front := kvs[..|kvs| - 1];
    assert kvs == front + [kvs[|kvs| - 1]];
    KeysOfAppend(front, [kvs[|kvs| - 1]]);
  }

  /** One more round of the merge loop. */
  lemma MergeAllStep(d: Record, kvs: Record, i: nat)
    requires i < |kvs|
    ensures MergeAll(d, kvs[..i + 1]) == Assign(MergeAll(d, kvs[..i]), kvs[i].0, kvs[i].1)
  {
    assert kvs[..i + 1][..i] == kvs[..i];
  }

  /** Merging keeps the entry's keys in place and appends the new ones in argument order. */
  lemma {:induction false} MergeAllKeys(d: Record, kvs: Record)
    requires DistinctKeys(kvs)
    ensures KeysOf(MergeAll(d, kvs)) == KeysOf(d) + Without(KeysOf(kvs), KeysOf(d))
  {
    if kvs != [] {
      var front, last := kvs[..|kvs| - 1], kvs[|kvs| - 1];
      DropLast(kvs);
      MergeAllKeys(d, front);
      var km := KeysOf(MergeAll(d, front));
      AssignKeys(MergeAll(d, front), last.0, last.1);
      AppendNewKey(KeysOf(d), KeysOf(front), last.0);
    }
  }

  lemma AppendNewKey(kd: seq<string>, kf: seq<string>, l: string)
    requires l !in kf
    ensures var km := kd + Without(kf, kd);
      (if l in km then km else km + [l]) == kd + Without(kf + [l], kd)
  {
    WithoutAppend(kf, [l], kd);
    if l in kd {
      assert Without([l], kd) == [];
    } else {
      assert Without([l], kd) == [l];
    }
  }

  lemma MergeAllLast(d: Record, kvs: Record, k: string)
    requires kvs != []
    ensures Get(MergeAll(d, kvs), k) ==
      if k == kvs[|kvs| - 1].0 then Some(kvs[|kvs| - 1].1) else Get(MergeAll(d, kvs[..|kvs| - 1]), k)
  {
    AssignGet(MergeAll(d, kvs[..|kvs| - 1]), kvs[|kvs| - 1].0, kvs[|kvs| - 1].1, k);
  }

  /** After merging, a key the caller passed holds the caller's value; any other key holds the entry's. */
  lemma {:induction false} MergeAllGet(d: Record, kvs: Record, k: string)
    requires DistinctKeys(kvs)
    ensures Get(MergeAll(d, kvs), k) == if k in KeysOf(kvs) then Get(kvs, k) else Get(d, k)
  {
    if kvs != [] {
      var front, last := kvs[..|kvs| - 1], kvs[|kvs| - 1];
      DropLast(kvs);
      MergeAllGet(d, front, k);
      MergeAllLast(d, kvs, k);
      GetAppend(front, [last], k);
      if k == last.0 {
        assert k in KeysOf(kvs);
        assert Get(kvs, k) == Some(last.1);
      } else if k in KeysOf(front) {
        assert k in KeysOf(kvs);
      } else {
        assert k !in KeysOf(kvs);
      }
    }
  }

  lemma {:induction false} MergeAllDistinct(d: Record, kvs: Record)
    requires DistinctKeys(d) && DistinctKeys(kvs)
    ensures DistinctKeys(MergeAll(d, kvs))
  {
    MergeAllKeys(d, kvs);
    WithoutDistinct(KeysOf(kvs), KeysOf(d));
    DistinctAppend(KeysOf(d), Without(KeysOf(kvs), KeysOf(d)));
  }

  // ---- Reordering ----

  /** The keys that lead every record, in this order, when present. */
  const Reserved: seq<string> := ["timestamp", "step", "worker", "event", "duration_sec"]

  /** `ordered_keys = Reserved + [k for k in entry if k not in Reserved]`, then
      `{k: entry[k] for k in ordered_keys if k in entry}`. */
  function Reorder(d: Record): Record {
    Project(d, Reserved + Without(KeysOf(d), Reserved))
  }

  /** The reserved keys the record has come first, in reserved order; the rest keep insertion order. */
  lemma ReorderKeys(d: Record)
    ensures KeysOf(Reorder(d)) == Within(Reserved, KeysOf(d)) + Without(KeysOf(d), Reserved)
  {
    var rest := Without(KeysOf(d), Reserved);
    ProjectKeys(d, Reserved + rest);
    WithinAppend(Reserved, rest, KeysOf(d));
    WithinAll(rest, KeysOf(d));
  }

  /** Reordering changes no value and invents or drops no key. */
  lemma ReorderGet(d: Record, k: string)
    ensures Get(Reorder(d), k) == Get(d, k)
  {
    ProjectGet(d, Reserved + Without(KeysOf(d), Reserved), k);
  }

  /** Reordering a dict is a permutation of its key/value pairs. */
  lemma ReorderPermutation(d: Record)
    requires DistinctKeys(d)
    ensures DistinctKeys(Reorder(d))
    ensures multiset(Reorder(d)) == multiset(d)
  {
    var r := Reorder(d);
    ReorderKeys(d);
    assert Distinct(Reserved);
    WithinDistinct(Reserved, KeysOf(d));
    WithoutDistinct(KeysOf(d), Reserved);
    DistinctAppend(Within(Reserved, KeysOf(d)), Without(KeysOf(d), Reserved));
    forall p: Field ensures multiset(r)[p] == multiset(d)[p] {
      ReorderGet(d, p.0);
      InRecordIffGet(r, p);
      InRecordIffGet(d, p);
      DistinctKeysCount(r, p);
      DistinctKeysCount(d, p);
    }
  }

  // ---- The record `log` emits ----

  /** The parameter names of `log`: Python never lets a keyword argument in `**extra_keys` carry one. */
  const NamedParameters: seq<string> := ["self", "log_path", "event", "duration", "extra", "workid", "step"]

  /** What Python guarantees of `extra_keys`: a dict, so no repeated key, and none of the named parameters. */
  predicate KwargsOk(kws: Record) {
    DistinctKeys(kws) && forall i :: 0 <= i < |kws| ==> kws[i].0 !in NamedParameters
  }

  /** `log_entry` before the caller's keyword arguments are merged in: the four fixed
      fields, then `duration_sec` and `extra` when given. */
  function BaseEntry(timestamp: string, stepVal: int, workerVal: int, event: string,
                     duration: Option<Value>, extra: Option<Value>): Record
  {
    [("timestamp", Str(timestamp)), ("step", Int(stepVal)), ("worker", Int(workerVal)), ("event", Str(event))]
    + (if duration.Some? then [("duration_sec", duration.value)] else [])
    + (if extra.Some? then [("extra", extra.value)] else [])
  }

  /** The record one `log` call serialises: step and worker default to the process context,
      the caller's keyword arguments are merged, and the reserved keys are moved to the front. */
  function EmittedRecord(timestamp: string, event: string, duration: Option<Value>, extra: Option<Value>,
                         workid: Option<int>, step: Option<int>, kws: Record,
                         currentStep: int, currentRank: int): Record
  {
    var base := BaseEntry(timestamp, step.GetOr(currentStep), workid.GetOr(currentRank), event, duration, extra);
    Reorder(MergeAll(base, kws))
  }

  lemma BaseEntryKeys(timestamp: string, stepVal: int, workerVal: int, event: string,
                      duration: Option<Value>, extra: Option<Value>)
    ensures KeysOf(BaseEntry(timestamp, stepVal, workerVal, event, duration, extra)) ==
      ["timestamp", "step", "worker", "event"]
      + (if duration.Some? then ["duration_sec"] else [])
      + (if extra.Some? then ["extra"] else [])
    ensures DistinctKeys(BaseEntry(timestamp, stepVal, workerVal, event, duration, extra))
  {
  }

  lemma WithinAllButLast(fixed: seq<string>, last: string, ks: seq<string>)
    requires forall k :: k in fixed ==> k in ks
    ensures Within(fixed + [last], ks) == fixed + (if last in ks then [last] else [])
  {
    WithinAppend(fixed, [last], ks);
    WithinAll(fixed, ks);
    assert [last][1..] == [];
  }

  /** The reserved keys a record has, in reserved order. */
  lemma WithinReserved(ks: seq<string>)
    requires "timestamp" in ks && "step" in ks && "worker" in ks && "event" in ks
    ensures Within(Reserved, ks) ==
      ["timestamp", "step", "worker", "event"] + (if "duration_sec" in ks then ["duration_sec"] else [])
  {
    var fixed: seq<string> := ["timestamp", "step", "worker", "event"];
    assert Reserved == fixed + ["duration_sec"];
    WithinAllButLast(fixed, "duration_sec", ks);
  }

  lemma {:induction false} WithoutNone(ks: seq<string>, excl: seq<string>)
    requires forall k :: k in ks ==> k in excl
    ensures Without(ks, excl) == []
  {
    if ks != [] {
      WithoutNone(ks[1..], excl);
    }
  }

  lemma {:induction false} WithoutKeepsAll(ks: seq<string>, excl: seq<string>)
    requires forall k :: k in ks ==> k !in excl
    ensures Without(ks, excl) == ks
  {
    if ks != [] {
      WithoutKeepsAll(ks[1..], excl);
    }
  }

  lemma NonReservedOfBase(duration: Option<Value>, extra: Option<Value>)
    ensures Without(["timestamp", "step", "worker", "event"]
                    + (if duration.Some? then ["duration_sec"] else [])
                    + (if extra.Some? then ["extra"] else []), Reserved)
            == (if extra.Some? then ["extra"] else [])
  {
    var fd: seq<string> := ["timestamp", "step", "worker", "event"]
                           + (if duration.Some? then ["duration_sec"] else []);
    var ext: seq<string> := if extra.Some? then ["extra"] else [];
    WithoutAppend(fd, ext, Reserved);
    assert Without(fd, Reserved) == [] by {
      WithoutNone(fd, Reserved);
    }
    assert Without(ext, Reserved) == ext by {
      WithoutKeepsAll(ext, Reserved);
    }
  }

  /** The key-order computation of `log` on key lists alone. */
  lemma LayoutOfKeys(kk: seq<string>, hasDuration: bool, hasExtra: bool)
    requires "extra" !in kk
    ensures var kb := ["timestamp", "step", "worker", "event"]
                      + (if hasDuration then ["duration_sec"] else [])
                      + (if hasExtra then ["extra"] else []);
      var ke := kb + Without(kk, kb);
      Within(Reserved, ke) + Without(ke, Reserved) ==
        ["timestamp", "step", "worker", "event"]
        + (if hasDuration || "duration_sec" in kk then ["duration_sec"] else [])
        + (if hasExtra then ["extra"] else [])
        + Without(kk, Reserved)
  {
    var kb := ["timestamp", "step", "worker", "event"]
              + (if hasDuration then ["duration_sec"] else [])
              + (if hasExtra then ["extra"] else []);
    var ke := kb + Without(kk, kb);
    var fixed: seq<string> := ["timestamp", "step", "worker", "event"];
    var dur: seq<string> := if hasDuration || "duration_sec" in kk then ["duration_sec"] else [];
    var ext: seq<string> := if hasExtra then ["extra"] else [];
    assert "duration_sec" in ke <==> hasDuration || "duration_sec" in kk;
    WithinReserved(ke);
    assert Within(Reserved, ke) == fixed + dur;
    WithoutAppend(kb, Without(kk, kb), Reserved);
    NonReservedOfBase(if hasDuration then Some(Int(0)) else None, if hasExtra then Some(Int(0)) else None);
    WithoutTwice(kk, kb, Reserved);
    assert Without(ke, Reserved) == ext + Without(kk, Reserved);
    ConcatAssoc(fixed + dur, ext, Without(kk, Reserved));
  }

  lemma ConcatAssoc(a: seq<string>, b: seq<string>, c: seq<string>)
    ensures a + (b + c) == a + b + c
  {
  }

  /** The key order on the wire: `timestamp, step, worker, event`, then `duration_sec` when the
      call supplied one (as `duration` or as a keyword), then `extra` when given, then the caller's
      other keywords in call order. A keyword named like a reserved field takes that field's slot. */
  lemma EmittedRecordKeys(timestamp: string, event: string, duration: Option<Value>, extra: Option<Value>,
                          workid: Option<int>, step: Option<int>, kws: Record,
                          currentStep: int, currentRank: int)
    requires KwargsOk(kws)
    ensures KeysOf(EmittedRecord(timestamp, event, duration, extra, workid, step, kws, currentStep, currentRank)) ==
      ["timestamp", "step", "worker", "event"]
      + (if duration.Some? || "duration_sec" in KeysOf(kws) then ["duration_sec"] else [])
      + (if extra.Some? then ["extra"] else [])
      + Without(KeysOf(kws), Reserved)
  {
    var base := BaseEntry(timestamp, step.GetOr(currentStep), workid.GetOr(currentRank), event, duration, extra);
    var entry := MergeAll(base, kws);
    BaseEntryKeys(timestamp, step.GetOr(currentStep), workid.GetOr(currentRank), event, duration, extra);
    MergeAllKeys(base, kws);
    ReorderKeys(entry);
    KwargsNotNamed(kws);
    LayoutOfKeys(KeysOf(kws), duration.Some?, extra.Some?);
  }

  lemma KwargsNotNamed(kws: Record)
    requires KwargsOk(kws)
    ensures forall k :: k in NamedParameters ==> k !in KeysOf(kws)
  {
  }

  lemma BaseEntryGetFixed(timestamp: string, stepVal: int, workerVal: int, event: string,
                          duration: Option<Value>, extra: Option<Value>)
    ensures var b := BaseEntry(timestamp, stepVal, workerVal, event, duration, extra);
      && Get(b, "timestamp") == Some(Str(timestamp))
      && Get(b, "step") == Some(Int(stepVal))
      && Get(b, "worker") == Some(Int(workerVal))
      && Get(b, "event") == Some(Str(event))
  {
    var fixed := [("timestamp", Str(timestamp)), ("step", Int(stepVal)), ("worker", Int(workerVal)), ("event", Str(event))];
    var dur := if duration.Some? then [("duration_sec", duration.value)] else [];
    var ext := if extra.Some? then [("extra", extra.value)] else [];
    assert KeysOf(fixed) == ["timestamp", "step", "worker", "event"];
    assert DistinctKeys(fixed);
    InRecordIffGet(fixed, ("timestamp", Str(timestamp)));
    GetAppend3(fixed, dur, ext, "timestamp");
    InRecordIffGet(fixed, ("step", Int(stepVal)));
    GetAppend3(fixed, dur, ext, "step");
    InRecordIffGet(fixed, ("worker", Int(workerVal)));
    GetAppend3(fixed, dur, ext, "worker");
    InRecordIffGet(fixed, ("event", Str(event)));
    GetAppend3(fixed, dur, ext, "event");
  }

  lemma BaseEntryGetOptional(timestamp: string, stepVal: int, workerVal: int, event: string,
                             duration: Option<Value>, extra: Option<Value>)
    ensures var b := BaseEntry(timestamp, stepVal, workerVal, event, duration, extra);
      && Get(b, "duration_sec") == duration
      && Get(b, "extra") == extra
  {
    var fixed := [("timestamp", Str(timestamp)), ("step", Int(stepVal)), ("worker", Int(workerVal)), ("event", Str(event))];
    var dur := if duration.Some? then [("duration_sec", duration.value)] else [];
    var ext := if extra.Some? then [("extra", extra.value)] else [];
    assert KeysOf(fixed) == ["timestamp", "step", "worker", "event"];
    GetAppend3(fixed, dur, ext, "duration_sec");
    assert "duration_sec" !in KeysOf(fixed);
    assert Get(dur, "duration_sec") == duration;
    GetAppend3(fixed, dur, ext, "extra");
    assert "extra" !in KeysOf(fixed);
    assert "extra" !in KeysOf(dur);
    assert Get(ext, "extra") == extra;
  }

  lemma GetAppend3(a: Record, b: Record, c: Record, k: string)
    ensures Get(a + b + c, k) ==
      if k in KeysOf(a) then Get(a, k) else if k in KeysOf(b) then Get(b, k) else Get(c, k)
  {
    GetAppend(a + b, c, k);
    GetAppend(a, b, k);
    KeysOfAppend(a, b);
  }

  /** A lookup in the emitted record: the caller's keyword if one has that name, else the base entry's field. */
  lemma EmittedRecordGet(base: Record, kws: Record, k: string)
    requires DistinctKeys(kws)
    ensures Get(Reorder(MergeAll(base, kws)), k) == if k in KeysOf(kws) then Get(kws, k) else Get(base, k)
  {
    ReorderGet(MergeAll(base, kws), k);
    MergeAllGet(base, kws, k);
  }

  /** Every value of the emitted record: the caller's keyword wins over a fixed field of the same
      name; step and worker are the explicit arguments when given, else the process context. */
  lemma EmittedRecordValues(timestamp: string, event: string, duration: Option<Value>, extra: Option<Value>,
                            workid: Option<int>, step: Option<int>, kws: Record,
                            currentStep: int, currentRank: int)
    requires KwargsOk(kws)
    ensures var r := EmittedRecord(timestamp, event, duration, extra, workid, step, kws, currentStep, currentRank);
      && Get(r, "timestamp") == (if "timestamp" in KeysOf(kws) then Get(kws, "timestamp") else Some(Str(timestamp)))
      && Get(r, "step") == Some(Int(if step.Some? then step.value else currentStep))
      && Get(r, "worker") ==
           (if "worker" in KeysOf(kws) then Get(kws, "worker")
            else Some(Int(if workid.Some? then workid.value else currentRank)))
      && Get(r, "event") == Some(Str(event))
      && Get(r, "duration_sec") == (if "duration_sec" in KeysOf(kws) then Get(kws, "duration_sec") else duration)
      && Get(r, "extra") == extra
      && (forall k :: k in KeysOf(kws) ==> Get(r, k) == Get(kws, k))
  {
    var stepVal, workerVal := step.GetOr(currentStep), workid.GetOr(currentRank);
    var base := BaseEntry(timestamp, stepVal, workerVal, event, duration, extra);
    var r := EmittedRecord(timestamp, event, duration, extra, workid, step, kws, currentStep, currentRank);
    assert r == Reorder(MergeAll(base, kws));
    BaseEntryGetFixed(timestamp, stepVal, workerVal, event, duration, extra);
    BaseEntryGetOptional(timestamp, stepVal, workerVal, event, duration, extra);
    KwargsNotNamed(kws);
    EmittedRecordGet(base, kws, "timestamp");
    EmittedRecordGet(base, kws, "step");
    EmittedRecordGet(base, kws, "worker");
    EmittedRecordGet(base, kws, "event");
    EmittedRecordGet(base, kws, "duration_sec");
    EmittedRecordGet(base, kws, "extra");
    forall k | k in KeysOf(kws) ensures Get(r, k) == Get(kws, k) {
      EmittedRecordGet(base, kws, k);
    }
  }

  /** The emitted record holds the same key/value pairs as `log_entry`, each key once. */
  lemma EmittedRecordPermutation(timestamp: string, event: string, duration: Option<Value>, extra: Option<Value>,
                                 workid: Option<int>, step: Option<int>, kws: Record,
                                 currentStep: int, currentRank: int)
    requires KwargsOk(kws)
    ensures var base := BaseEntry(timestamp, step.GetOr(currentStep), workid.GetOr(currentRank), event, duration, extra);
      var r := EmittedRecord(timestamp, event, duration, extra, workid, step, kws, currentStep, currentRank);
      DistinctKeys(r) && multiset(r) == multiset(MergeAll(base, kws))
  {
    var base := BaseEntry(timestamp, step.GetOr(currentStep), workid.GetOr(currentRank), event, duration, extra);
    BaseEntryKeys(timestamp, step.GetOr(currentStep), workid.GetOr(currentRank), event, duration, extra);
    MergeAllDistinct(base, kws);
    ReorderPermutation(MergeAll(base, kws));
  }
}
