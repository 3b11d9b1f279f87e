/**
 * The recorder around the merge routines: saving a snapshot to its history
 * file and to the global index, archiving a call's output under the run id,
 * the asynchrony heuristic, and the wrapper `mock` installs on a target
 * object together with what one wrapped call does to the files.
 *
 * The file system is a value: the snapshot lists kept in JSON files, the
 * archived outputs, and a set of paths whose writes fail.
 */
module Recorder {
  import opened Wrappers
  import opened Text
  import opened Snapshots

  const MAIN_PATH := "data/main.json"
  const DEFAULT_RUN_ID := "default"
  /** The shortest run of `[0-9a-z]` the run-id pattern accepts. */
  const MIN_RUN: nat := 9
  const BABEL_HEAD := "return _ref"

  /** Snapshot lists by path, and archived outputs (their file text) by path. */
  datatype Disk = Disk(files: map<string, seq<Snapshot>>, artifacts: map<string, string>)

  /** `process.argv`, and the paths where writing throws. */
  datatype Environment = Environment(argv: seq<string>, readOnly: set<string>)

  /** The list a merge starts from: the file's contents, or empty when there is no file. */
  function Stored(disk: Disk, path: string): seq<Snapshot> {
    if path in disk.files then disk.files[path] else []
  }

  /** `tryOutputFileSync` of a snapshot list: a failing write is swallowed and leaves the disk as it was. */
  function Write(disk: Disk, path: string, entries: seq<Snapshot>, env: Environment): (r: Disk)
    ensures path !in env.readOnly ==> Stored(r, path) == entries
    ensures path in env.readOnly ==> r == disk
    ensures r.artifacts == disk.artifacts
    ensures forall p :: p != path ==> Stored(r, p) == Stored(disk, p)
  {
    if path in env.readOnly then disk else disk.(files := disk.files[path := entries])
  }

  /** `init`: the global index file is removed (a missing file is not an error). */
  function Init(disk: Disk): (r: Disk)
    ensures Stored(r, MAIN_PATH) == []
    ensures forall p :: p != MAIN_PATH ==> Stored(r, p) == Stored(disk, p)
    ensures r.artifacts == disk.artifacts
  {
    disk.(files := disk.files - {MAIN_PATH})
  }

  /** `data/<targetName>/<functionName>.json`. */
  function HistoryPath(s: Snapshot): string {
    "data/" + s.targetName + "/" + s.functionName + ".json"
  }

  /**
   * As a string no history path is the index path: a history path has a `/`
   * where `main` stands. The file system may still resolve the two to one
   * file (`data//main.json`, `data/x/../main.json`); `HistoryPathSegments`
   * says how both paths split into `/`-separated names.
   */
  lemma HistoryPathIsNotMain(s: Snapshot)
    ensures HistoryPath(s) != MAIN_PATH
  {
    var p := HistoryPath(s);
    assert p[5 + |s.targetName|] == '/';
    if |p| == |MAIN_PATH| {
      assert |s.targetName| <= 3;
      assert MAIN_PATH[5 + |s.targetName|] != '/';
    }
  }

  /**
   * Split at `/`, a history path whose names hold no `/` is `data`, the
   * target name and the function's file name, and the index path is `data`
   * and `main.json`. This is a statement about the strings only: an empty
   * target name or `.` still makes the history path resolve to the index
   * file on disk.
   */
  lemma HistoryPathSegments(s: Snapshot)
    requires '/' !in s.targetName && '/' !in s.functionName
    ensures Split(HistoryPath(s), '/') == ["data", s.targetName, s.functionName + ".json"]
    ensures Split(MAIN_PATH, '/') == ["data", "main.json"]
  {
    var file := s.functionName + ".json";
    assert '/' !in file;
    JoinThreeSegments("data", s.targetName, file);
    assert HistoryPath(s) == "data" + "/" + (s.targetName + "/" + file);
    MainPathSegments();
  }

  lemma JoinThreeSegments(a: string, b: string, c: string)
    requires '/' !in a && '/' !in b && '/' !in c
    ensures Split(a + "/" + (b + "/" + c), '/') == [a, b, c]
  {
    var parts := [a, b, c];
    assert parts[1..] == [b, c] && parts[1..][1..] == [c];
    assert Join([c], "/") == c;
    assert Join([b, c], "/") == b + "/" + c;
    assert Join(parts, "/") == a + "/" + (b + "/" + c);
    SplitJoin(parts, '/');
  }

  lemma MainPathSegments()
    ensures Split(MAIN_PATH, '/') == ["data", "main.json"]
  {
    var parts := ["data", "main.json"];
    assert parts[1..] == ["main.json"];
    assert Join(parts, "/") == MAIN_PATH;
    SplitJoin(parts, '/');
  }

  // ---------------------------------------------------------------------------
  // saveSnapshot

  /**
   * `saveSnapshot`: the snapshot is timed, merged into its history file and
   * then into the index; the snapshot the caller holds afterwards carries the
   * index's aggregation.
   */
  function Saved(disk: Disk, snapshot: Snapshot, now: Clock, env: Environment): (Snapshot, Disk) {
    var timed := UpdateProperties(snapshot, now);
    var path := HistoryPath(timed);
    var afterHistory := Write(disk, path, HistoryMerged(timed, Stored(disk, path)), env);
    var (merged, index) := MainMerged(timed, Stored(afterHistory, MAIN_PATH));
    (merged, Write(afterHistory, MAIN_PATH, index, env))
  }

  method SaveSnapshot(disk: Disk, snapshot: Snapshot, now: Clock, env: Environment) returns (updated: Snapshot, disk': Disk)
    ensures (updated, disk') == Saved(disk, snapshot, now, env)
  {
    updated := UpdateProperties(snapshot, now);
    var functionPath := HistoryPath(updated);
    var history := MergeSnapshot(updated, Stored(disk, functionPath));
    disk' := Write(disk, functionPath, history, env);
    var index;
    updated, index := MergeMainSnapshot(updated, Stored(disk', MAIN_PATH));
    disk' := Write(disk', MAIN_PATH, index, env);
  }

  /**
   * What a save does to the files: the history file of the snapshot's
   * function holds the history merge and the index file the index merge
   * (each unless its write fails); no other file and no archived output
   * changes; the caller's snapshot is the timed one with the index's
   * aggregation, whether or not the index write succeeds. Files are told
   * apart by their path strings.
   */
  lemma SavedFiles(disk: Disk, snapshot: Snapshot, now: Clock, env: Environment)
    ensures var timed := UpdateProperties(snapshot, now);
      var path := HistoryPath(timed);
      var (updated, disk') := Saved(disk, snapshot, now, env);
      && updated == MainMerged(timed, Stored(disk, MAIN_PATH)).0
      && SameRecord(updated, snapshot)
      && Stored(disk', path) == (if path in env.readOnly then Stored(disk, path) else HistoryMerged(timed, Stored(disk, path)))
      && Stored(disk', MAIN_PATH) == (if MAIN_PATH in env.readOnly then Stored(disk, MAIN_PATH) else MainMerged(timed, Stored(disk, MAIN_PATH)).1)
      && disk'.artifacts == disk.artifacts
      && forall p :: p != path && p != MAIN_PATH ==> Stored(disk', p) == Stored(disk, p)
  {
    HistoryPathIsNotMain(UpdateProperties(snapshot, now));
  }

  /** Saving keeps every history file within the cap when it was within it. */
  lemma SavedHistoriesCapped(disk: Disk, snapshot: Snapshot, now: Clock, env: Environment)
    requires forall p :: p != MAIN_PATH ==> |Stored(disk, p)| <= HISTORY_CAP
    ensures forall p :: p != MAIN_PATH ==> |Stored(Saved(disk, snapshot, now, env).1, p)| <= HISTORY_CAP
  {
    SavedFiles(disk, snapshot, now, env);
    var timed := UpdateProperties(snapshot, now);
    HistoryPathIsNotMain(timed);
    HistoryCapped(timed, Stored(disk, HistoryPath(timed)));
  }

  // ---------------------------------------------------------------------------
  // saveOutput: the run id and the output file

  predicate IsIdChar(c: char) {
    '0' <= c <= '9' || 'a' <= c <= 'z'
  }

  /** The number of `[0-9a-z]` characters starting at `i`. */
  function RunLength(t: string, i: nat): (n: nat)
    requires i <= |t|
    ensures i + n <= |t|
    ensures forall j :: i <= j < i + n ==> IsIdChar(t[j])
    ensures i + n < |t| ==> !IsIdChar(t[i + n])
    decreases |t| - i
  {
    if i < |t| && IsIdChar(t[i]) then 1 + RunLength(t, i + 1) else 0
  }

  /** The leftmost position at or after `from` where at least nine id characters begin: where the pattern's first match starts. */
  function LongRunFrom(t: string, from: nat): (r: Option<nat>)
    requires from <= |t|
    ensures r.Some? ==> from <= r.value < |t| && RunLength(t, r.value) >= MIN_RUN
    ensures r.Some? ==> forall j :: from <= j < r.value ==> RunLength(t, j) < MIN_RUN
    ensures r.None? ==> forall j :: from <= j <= |t| ==> RunLength(t, j) < MIN_RUN
    decreases |t| - from
  {
    if from == |t| then None
    else if RunLength(t, from) >= MIN_RUN then Some(from)
    else LongRunFrom(t, from + 1)
  }

  /** The first match of `/[0-9a-z]{9,}/` in `t`, else `default`. */
  function RunIdOf(t: string): string {
    match LongRunFrom(t, 0)
    case None => DEFAULT_RUN_ID
    case Some(i) => t[i..i + RunLength(t, i)]
  }

  /** The run id: the first match in the comma-joined argv. */
  function RunId(argv: seq<string>): string {
    RunIdOf(Join(argv, ","))
  }

  /** `t[i..i+n]` is a maximal run of id characters: it cannot be extended on either side. */
  predicate MaximalRunAt(t: string, i: nat, n: nat) {
    i + n <= |t|
    && (forall j :: i <= j < i + n ==> IsIdChar(t[j]))
    && (i == 0 || !IsIdChar(t[i - 1]))
    && (i + n == |t| || !IsIdChar(t[i + n]))
  }

  /** `id` is the maximal run at `i`, at least nine long, and no such run starts earlier. */
  ghost predicate FirstLongRunAt(t: string, i: nat, id: string) {
    && MaximalRunAt(t, i, |id|) && |id| >= MIN_RUN && t[i..i + |id|] == id
    && forall j: nat, m: nat :: MaximalRunAt(t, j, m) && m >= MIN_RUN ==> i <= j
  }

  lemma RunLengthStep(t: string, j: nat)
    requires j < |t|
    ensures IsIdChar(t[j]) ==> RunLength(t, j) == 1 + RunLength(t, j + 1)
  {
  }

  lemma {:induction false} RunLengthCovers(t: string, j: nat, m: nat)
    requires j + m <= |t| && forall k :: j <= k < j + m ==> IsIdChar(t[k])
    ensures RunLength(t, j) >= m
    decreases m
  {
    if m > 0 {
      RunLengthCovers(t, j + 1, m - 1);
    }
  }

  /**
   * The run id is the first maximal run of at least nine `[0-9a-z]`
   * characters in the comma-joined argv, and `default` exactly when there is
   * none. It never holds a comma, so it never spans two arguments.
   */
  lemma RunIdIsFirstLongRun(argv: seq<string>)
    ensures RunId(argv) == DEFAULT_RUN_ID ==>
      forall i: nat, n: nat :: MaximalRunAt(Join(argv, ","), i, n) ==> n < MIN_RUN
    ensures (forall i: nat, n: nat :: MaximalRunAt(Join(argv, ","), i, n) ==> n < MIN_RUN) ==>
      RunId(argv) == DEFAULT_RUN_ID
    ensures RunId(argv) != DEFAULT_RUN_ID ==>
      exists i: nat :: FirstLongRunAt(Join(argv, ","), i, RunId(argv))
    ensures ',' !in RunId(argv)
  {
    var t := Join(argv, ",");
    match LongRunFrom(t, 0)
    case None =>
      NoLongRun(t);
    case Some(i) =>
      FoundLongRun(t, i);
      assert FirstLongRunAt(t, i, RunId(argv));
      assert MaximalRunAt(t, i, |RunId(argv)|);
  }

  lemma NoLongRun(t: string)
    requires LongRunFrom(t, 0).None?
    ensures RunIdOf(t) == DEFAULT_RUN_ID
    ensures forall i: nat, n: nat :: MaximalRunAt(t, i, n) ==> n < MIN_RUN
  {
    forall i: nat, n: nat | MaximalRunAt(t, i, n) ensures n < MIN_RUN {
      RunLengthCovers(t, i, n);
    }
  }

  lemma FoundLongRun(t: string, i: nat)
    requires LongRunFrom(t, 0) == Some(i)
    ensures RunIdOf(t) != DEFAULT_RUN_ID
    ensures FirstLongRunAt(t, i, RunIdOf(t))
    ensures ',' !in RunIdOf(t)
  {
    var n := RunLength(t, i);
    FoundRunIsMaximal(t, i);
    FoundRunIsFirst(t, i);
    var id := RunIdOf(t);
    assert id == t[i..i + n] && |id| == n;
    assert |DEFAULT_RUN_ID| < MIN_RUN;
    RunHasNoComma(t, i, n);
  }

  lemma FoundRunIsMaximal(t: string, i: nat)
    requires LongRunFrom(t, 0) == Some(i)
    ensures MaximalRunAt(t, i, RunLength(t, i))
  {
    if i > 0 {
      RunLengthStep(t, i - 1);
    }
  }

  lemma FoundRunIsFirst(t: string, i: nat)
    requires LongRunFrom(t, 0) == Some(i)
    ensures forall j: nat, m: nat :: MaximalRunAt(t, j, m) && m >= MIN_RUN ==> i <= j
  {
    forall j: nat, m: nat | MaximalRunAt(t, j, m) && m >= MIN_RUN ensures i <= j {
      RunLengthCovers(t, j, m);
    }
  }

  lemma RunHasNoComma(t: string, i: nat, n: nat)
    requires i + n <= |t| && forall j :: i <= j < i + n ==> IsIdChar(t[j])
    ensures ',' !in t[i..i + n]
  {
    var id := t[i..i + n];
    forall k | 0 <= k < |id| ensures id[k] != ',' {
      assert id[k] == t[i + k];
    }
  }

  /** `output/<targetName>/<functionName>/<run id>`. */
  function OutputPath(s: Snapshot, env: Environment): string {
    "output/" + s.targetName + "/" + s.functionName + "/" + RunId(env.argv)
  }

  /**
   * `saveOutput`: a string output is written as the `.html` file, unguarded,
   * so a failing write throws (the flag is false); a serialisable output is
   * written as the `.json` file and a failure is swallowed; an output JSON
   * cannot serialise writes nothing.
   */
  function Archived(disk: Disk, s: Snapshot, env: Environment): (Disk, bool) {
    match s.output
    case Str(text) =>
      var path := OutputPath(s, env) + ".html";
      if path in env.readOnly then (disk, false) else (disk.(artifacts := disk.artifacts[path := text]), true)
    case Json(text) =>
      var path := OutputPath(s, env) + ".json";
      if path in env.readOnly then (disk, true) else (disk.(artifacts := disk.artifacts[path := text]), true)
    case Unserializable => (disk, true)
  }

  /**
   * Where an output goes: strings to `<path>.html`, everything else to
   * `<path>.json`; only the string case can throw; no snapshot list and no
   * other archived output changes.
   */
  lemma ArchivedFormat(disk: Disk, s: Snapshot, env: Environment)
    ensures var (disk', ok) := Archived(disk, s, env);
      var path := OutputPath(s, env);
      && disk'.files == disk.files
      && (!ok <==> s.output.Str? && path + ".html" in env.readOnly)
      && (s.output.Str? && ok ==> disk'.artifacts == disk.artifacts[path + ".html" := s.output.text])
      && (s.output.Json? && path + ".json" !in env.readOnly ==> disk'.artifacts == disk.artifacts[path + ".json" := s.output.text])
      && (s.output.Json? && path + ".json" in env.readOnly ==> disk' == disk)
      && (s.output.Unserializable? ==> disk' == disk)
  {
  }

  // ---------------------------------------------------------------------------
  // checkIsAsync

  /** `/return _ref[^.]*.apply/` matches at `i`: the head, then no `.` up to a character that is not a line terminator, then `apply`. */
  predicate BabelAt(s: string, i: nat) {
    OccursAt(BABEL_HEAD, s, i)
    && exists k | i + |BABEL_HEAD| <= k < |s| ::
         (forall j | i + |BABEL_HEAD| <= j < k :: s[j] != '.')
         && !IsLineTerminator(s[k]) && OccursAt("apply", s, k + 1)
  }

  predicate BabelMatches(s: string) {
    exists i: nat | i <= |s| :: BabelAt(s, i)
  }

  /** `checkIsAsync` on the function's source text. */
  function CheckIsAsync(source: string): bool {
    var t := Trim(ToLower(source));
    Contains(t, "await") || Contains(t, "async") || Contains(t, "__generator")
    || StartsWith(t, "async ") || BabelMatches(t)
  }

  /**
   * The heuristic is exactly: the lower-cased source contains `await`,
   * `async` or `__generator` (trimming cannot matter for these), or the
   * trimmed text matches the transpiler pattern. The `^async ` test never
   * decides anything on its own.
   */
  lemma CheckIsAsyncReduced(source: string)
    ensures var lower := ToLower(source);
      CheckIsAsync(source) <==>
        Contains(lower, "await") || Contains(lower, "async") || Contains(lower, "__generator")
        || BabelMatches(Trim(lower))
  {
    var lower := ToLower(source);
    var t := Trim(lower);
    ContainsSurvivesTrim(lower, "await");
    ContainsSurvivesTrim(lower, "async");
    ContainsSurvivesTrim(lower, "__generator");
    if StartsWith(t, "async ") {
      AsyncPrefixContainsAsync(t);
    }
  }

  lemma AsyncPrefixContainsAsync(t: string)
    requires StartsWith(t, "async ")
    ensures Contains(t, "async")
  {
    assert t[..|"async"|] == t[..|"async "|][..|"async"|];
    StartsWithContains(t, "async");
  }

  /** Whatever the source's case or surrounding white space, `await`, `async` or `__generator` in it makes the function async. */
  lemma KeywordMakesAsync(source: string, keyword: string)
    requires keyword == "await" || keyword == "async" || keyword == "__generator"
    requires Contains(ToLower(source), keyword)
    ensures CheckIsAsync(source)
  {
    CheckIsAsyncReduced(source);
  }

  // ---------------------------------------------------------------------------
  // The wrapper and one wrapped call

  /** What the original function did: returned a value, or threw (or rejected). */
  datatype Outcome = Returned(value: Value) | Threw

  /**
   * A wrapper installed by `mock`: whether it is the async one, the snapshot
   * `mock` was given (its per-call copy source), and the snapshot the
   * closure currently holds (shared between calls by the sync wrapper).
   */
  datatype Wrapper = Wrapper(isAsync: bool, template: Snapshot, current: Snapshot)

  /** One call: its arguments, the fresh random id, the clock at each save, and what the original did. */
  datatype Invocation = Invocation(args: seq<Value>, id: string, start: Clock, outcome: Outcome, finish: Clock)

  /** After a call: the snapshot the closure holds, the disk, and what the caller sees. */
  datatype Run = Run(snapshot: Snapshot, disk: Disk, outcome: Outcome)

  /**
   * One call through a wrapper: the async wrapper starts from a copy of the
   * template, the sync wrapper from the shared snapshot; inputs and id are
   * set and the snapshot saved; if the original throws nothing more happens;
   * otherwise the output is stored and archived and, unless archiving
   * throws, the snapshot is saved again.
   */
  function Invoke(w: Wrapper, call: Invocation, disk: Disk, env: Environment): Run {
    var base := if w.isAsync then w.template else w.current;
    var (started, d1) := Saved(disk, base.(input := call.args, id := call.id), call.start, env);
    match call.outcome
    case Threw => Run(started, d1, Threw)
    case Returned(v) =>
      var finished := started.(output := v);
      var (d2, ok) := Archived(d1, finished, env);
      if !ok then Run(finished, d2, Threw)
      else
        var (saved, d3) := Saved(d2, finished, call.finish, env);
        Run(saved, d3, Returned(v))
  }

  /** The number of calls a snapshot counts once timed: one for a snapshot never timed, else its own count. */
  function CallWeight(s: Snapshot): int {
    if s.creationTime.None? then 1 else s.numberOfCall
  }

  lemma {:induction false} SumsOfSameFunction(entries: seq<Snapshot>, a: Snapshot, b: Snapshot)
    requires SameFunction(a, b)
    ensures CallsOf(entries, a) == CallsOf(entries, b)
    decreases |entries|
  {
    if entries != [] {
      SumsOfSameFunction(entries[..|entries| - 1], a, b);
    }
  }

  /** Replacing the front entry by one of the same function with the same count leaves the function's total alone. */
  lemma ReplaceFrontKeepsCalls(entries: seq<Snapshot>, x: Snapshot, snap: Snapshot)
    requires |entries| > 0 && SameFunction(x, entries[0]) && x.numberOfCall == entries[0].numberOfCall
    ensures CallsOf(entries[0 := x], snap) == CallsOf(entries, snap)
  {
    SumsAround(entries, 0, snap);
    SumsAround(entries[0 := x], 0, snap);
    assert RemoveAt(entries, 0) == RemoveAt(entries[0 := x], 0);
  }

  /**
   * One call through a wrapper, with a fresh id, a writable index file and
   * one index entry per function: the index total of the function grows by
   * the call weight of the snapshot the call starts from, whatever the
   * original does, and the closure's snapshot ends up carrying the new total.
   */
  lemma CallAddsWeight(w: Wrapper, call: Invocation, disk: Disk, env: Environment)
    requires OnePerFunction(Stored(disk, MAIN_PATH)) && !HasId(Stored(disk, MAIN_PATH), call.id)
    requires MAIN_PATH !in env.readOnly
    ensures var base := if w.isAsync then w.template else w.current;
      var run := Invoke(w, call, disk, env);
      && CallsOf(Stored(run.disk, MAIN_PATH), base) == CallsOf(Stored(disk, MAIN_PATH), base) + CallWeight(base)
      && run.snapshot.numberOfCall == CallsOf(Stored(run.disk, MAIN_PATH), base)
      && SameFunction(run.snapshot, base)
  {
    var base := if w.isAsync then w.template else w.current;
    var s0 := base.(input := call.args, id := call.id);
    var timed := UpdateProperties(s0, call.start);
    var main0 := Stored(disk, MAIN_PATH);
    SavedFiles(disk, s0, call.start, env);
    var (started, d1) := Saved(disk, s0, call.start, env);
    var main1 := MainMerged(timed, main0).1;
    assert Stored(d1, MAIN_PATH) == main1;
    MainTotalsOfFunction(timed, main0);
    MainAggregatesFunction(timed, main0);
    SumsOfSameFunction(main0, timed, base);
    SumsOfSameFunction(main1, timed, base);
    assert started.numberOfCall == CallsOf(main1, base);
    match call.outcome
    case Threw =>
    case Returned(v) =>
      var finished := started.(output := v);
      ArchivedFormat(d1, finished, env);
      var (d2, ok) := Archived(d1, finished, env);
      if ok {
        assert Stored(d2, MAIN_PATH) == main1;
        var timed2 := UpdateProperties(finished, call.finish);
        SavedFiles(d2, finished, call.finish, env);
        assert main1[0] == started && main1[0].id == call.id;
        assert FirstWithId(main1, call.id) == Some(0);
        ReplaceFrontKeepsCalls(main1, timed2, base);
      }
  }

  /** Each call through the async wrapper of a never-timed snapshot adds exactly one to its function's index total. */
  lemma AsyncCallCountsOnce(w: Wrapper, call: Invocation, disk: Disk, env: Environment)
    requires w.isAsync && w.template.creationTime.None?
    requires OnePerFunction(Stored(disk, MAIN_PATH)) && !HasId(Stored(disk, MAIN_PATH), call.id)
    requires MAIN_PATH !in env.readOnly
    ensures CallsOf(Stored(Invoke(w, call, disk, env).disk, MAIN_PATH), w.template)
            == CallsOf(Stored(disk, MAIN_PATH), w.template) + 1
  {
    CallAddsWeight(w, call, disk, env);
  }

  /**
   * The sync wrapper shares its snapshot between calls, so a call adds the
   * shared snapshot's count (which is the whole previous total when no one
   * else writes the function): the total doubles, and so does the shared count.
   */
  lemma SyncCallDoubles(w: Wrapper, call: Invocation, disk: Disk, env: Environment)
    requires !w.isAsync && w.current.creationTime.Some?
    requires w.current.numberOfCall == CallsOf(Stored(disk, MAIN_PATH), w.current)
    requires OnePerFunction(Stored(disk, MAIN_PATH)) && !HasId(Stored(disk, MAIN_PATH), call.id)
    requires MAIN_PATH !in env.readOnly
    ensures var run := Invoke(w, call, disk, env);
      && CallsOf(Stored(run.disk, MAIN_PATH), w.current) == 2 * w.current.numberOfCall
      && run.snapshot.numberOfCall == 2 * w.current.numberOfCall
  {
    CallAddsWeight(w, call, disk, env);
  }

  /** The body of a wrapper, statement by statement. */
  method RunWrapper(w: Wrapper, call: Invocation, disk: Disk, env: Environment) returns (run: Run)
    ensures run == Invoke(w, call, disk, env)
  {
    var snapshot := if w.isAsync then w.template else w.current;
    snapshot := snapshot.(input := call.args, id := call.id);
    var disk' := disk;
    snapshot, disk' := SaveSnapshot(disk', snapshot, call.start, env);
    match call.outcome
    case Threw =>
      run := Run(snapshot, disk', Threw);
    case Returned(v) =>
      snapshot := snapshot.(output := v);
      var (archived, ok) := Archived(disk', snapshot, env);
      disk' := archived;
      if !ok {
        run := Run(snapshot, disk', Threw);
      } else {
        snapshot, disk' := SaveSnapshot(disk', snapshot, call.finish, env);
        run := Run(snapshot, disk', Returned(v));
      }
  }

  /** A call never changes which function the closure's snapshot records. */
  lemma InvokeKeepsFunction(w: Wrapper, call: Invocation, disk: Disk, env: Environment)
    ensures SameFunction(Invoke(w, call, disk, env).snapshot, if w.isAsync then w.template else w.current)
  {
    var base := if w.isAsync then w.template else w.current;
    var s0 := base.(input := call.args, id := call.id);
    SavedFiles(disk, s0, call.start, env);
    var (started, d1) := Saved(disk, s0, call.start, env);
    match call.outcome
    case Threw =>
    case Returned(v) =>
      var finished := started.(output := v);
      var (d2, ok) := Archived(d1, finished, env);
      SavedFiles(d2, finished, call.finish, env);
  }

  /** What the slot `object[functionName]` held when `mock` ran. */
  datatype MethodSlot = Missing | NonFunction | Function(source: string)

  /**
   * An object whose methods `mock` instruments. `Missing` stands for a slot
   * that is empty or holds a falsy value: marking it leaves the marker falsy
   * and reading its source throws. A truthy non-function gets its marker but
   * cannot be spied on.
   */
  class Target {
    const slots: map<string, MethodSlot>
    /** The names whose `<name>__mocked` marker is truthy. */
    var markers: set<string>
    /** The names whose calls go through a wrapper. */
    var wrappers: map<string, Wrapper>

    ghost predicate Valid()
      reads this
    {
      && wrappers.Keys <= markers
      && forall name :: name in wrappers ==>
           && Slot(name).Function?
           && wrappers[name].template.functionName == name
           && SameFunction(wrappers[name].current, wrappers[name].template)
    }

    function Slot(name: string): MethodSlot {
      if name in slots then slots[name] else Missing
    }

    /** An object as it is before any wrapper is installed; `markers` are the names already marked truthy. */
    constructor (slots: map<string, MethodSlot>, markers: set<string>)
      ensures this.slots == slots && this.markers == markers && wrappers == map[]
      ensures Valid()
    {
      this.slots := slots;
      this.markers := markers;
      wrappers := map[];
    }

    /**
     * `mock`: a name already marked is left alone, so a second `mock` of the
     * same name changes nothing; otherwise a function gets its marker and a
     * wrapper of the kind `checkIsAsync` picks, a truthy non-function only
     * its marker, and an empty slot nothing.
     */
    method Mock(template: Snapshot)
      requires Valid()
      modifies this
      ensures Valid()
      ensures var name := template.functionName;
        if name in old(markers) then markers == old(markers) && wrappers == old(wrappers)
        else match Slot(name)
          case Missing => markers == old(markers) && wrappers == old(wrappers)
          case NonFunction => markers == old(markers) + {name} && wrappers == old(wrappers)
          case Function(source) =>
            && markers == old(markers) + {name}
            && wrappers == old(wrappers)[name := Wrapper(CheckIsAsync(source), template, template)]
      ensures !Slot(template.functionName).Missing? ==> template.functionName in markers
    {
      var name := template.functionName;
      if name in markers {
        return;
      }
      match Slot(name)
      case Missing =>
      case NonFunction =>
        markers := markers + {name};
      case Function(source) =>
        markers := markers + {name};
        var isAsync := CheckIsAsync(source);
        wrappers := wrappers[name := Wrapper(isAsync, template, template)];
    }

    /**
     * A call of `name` on the object: an instrumented name runs the
     * wrapper's lifecycle and keeps the closure's snapshot for the next
     * call; any other name is the original call, touching no file.
     */
    method Call(name: string, call: Invocation, disk: Disk, env: Environment) returns (outcome: Outcome, disk': Disk)
      requires Valid()
      modifies this
      ensures Valid() && markers == old(markers) && wrappers.Keys == old(wrappers).Keys
      ensures name !in old(wrappers) ==> outcome == call.outcome && disk' == disk && wrappers == old(wrappers)
      ensures name in old(wrappers) ==>
        var run := Invoke(old(wrappers)[name], call, disk, env);
        && outcome == run.outcome && disk' == run.disk
        && wrappers == old(wrappers)[name := old(wrappers)[name].(current := run.snapshot)]
    {
      if name !in wrappers {
        return call.outcome, disk;
      }
      var w := wrappers[name];
      var run := RunWrapper(w, call, disk, env);
      InvokeKeepsFunction(w, call, disk, env);
      var w' := w.(current := run.snapshot);
      assert SameFunction(w'.current, w'.template);
      wrappers := wrappers[name := w'];
      outcome, disk' := run.outcome, run.disk;
    }
  }
}
