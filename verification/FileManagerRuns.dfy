/** What every run of the file manager keeps, and when. */
module FileManagerRuns {
  import opened Words
  import opened ErrorCodes
  import opened FileManagerModel
  import LogCleanup

  // ---------- Names ----------

  predicate EndsInG(path: string) {
    path != [] && path[|path| - 1] == 'g'
  }

  lemma HistoryNames(cfg: Config, stamp: string, n: nat)
    requires n < MAX_SEQ_RETRY_COUNT
    ensures cfg.HistoryPath(stamp, n) != cfg.CurrentPath()
    ensures EndsInG(cfg.HistoryPath(stamp, n)) && EndsInG(cfg.CurrentPath())
  {
    var stem := cfg.HistoryStem(stamp, n);
    assert cfg.HistoryPath(stamp, n) == (cfg.dir + "/" + stem) + ".log";
    assert cfg.CurrentPath() == (cfg.dir + "/" + cfg.base) + ".log";
    assert |stem| > |cfg.base|;
  }

  lemma GzipNames(path: string)
    ensures !EndsInG(path + ".gz")
  {
  }

  /** The current file is not a history file, so cleanup never unlinks it. */
  lemma CleanUpSparesCurrent(s: State, e: Rotation)
    ensures s.Path() !in Unlinked(s, e)
  {
    if e.scan.Some? {
      var found := LogCleanup.Candidates(s.cfg.dir, s.cfg.base, e.scan.value);
      var queued := LogCleanup.FirstOf(found, LogCleanup.MAX_LOG_FILE_COUNT);
      CurrentNotFound(s.cfg, e.scan.value);
      VictimsScanned(queued, s.cfg.maxFileCount, s.Path());
    }
  }

  lemma VictimsScanned(queued: seq<LogCleanup.FileInfo>, keep: nat, path: string)
    requires forall i :: 0 <= i < |queued| ==> queued[i].path != path
    ensures path !in LogCleanup.Paths(LogCleanup.Victims(
      LogCleanup.PQueue.PushAll(LogCleanup.OldestFileCompare, [], queued), keep))
  {
    var heap := LogCleanup.PQueue.PushAll(LogCleanup.OldestFileCompare, [], queued);
    LogCleanup.PQueue.PushAllConserves(LogCleanup.OldestFileCompare, [], queued);
    LogCleanup.VictimsAreSurplus(heap, keep);
    var victims := LogCleanup.Victims(heap, keep);
    forall i | 0 <= i < |victims|
      ensures victims[i].path != path
    {
      assert victims[i] in multiset(victims);
      assert victims[i] in multiset(queued);
    }
  }

  lemma {:induction false} CurrentNotFound(cfg: Config, entries: seq<LogCleanup.Entry>)
    ensures forall i :: 0 <= i < |LogCleanup.Candidates(cfg.dir, cfg.base, entries)| ==>
      LogCleanup.Candidates(cfg.dir, cfg.base, entries)[i].path != cfg.CurrentPath()
  {
    if entries != [] {
      var n := |entries| - 1;
      CurrentNotFound(cfg, entries[..n]);
      if LogCleanup.IsHistory(cfg.base, entries[n].name) {
        HistoryIsNotCurrent(cfg, entries[n].name);
      }
    }
  }

  lemma HistoryIsNotCurrent(cfg: Config, name: string)
    requires LogCleanup.IsHistory(cfg.base, name)
    ensures cfg.dir + "/" + name != cfg.CurrentPath()
  {
    var k := |cfg.base|;
    assert name[k] == (cfg.base + "_")[k] == '_';
    assert (cfg.base + ".log")[k] == '.';
    LogCleanup.SamePrefix(cfg.dir + "/", name, cfg.base + ".log");
  }

  // ---------- What always holds ----------

  ghost predicate TasksSafe(s: State) {
    forall i :: 0 <= i < |s.tasks| ==> s.tasks[i] != s.Path()
  }

  ghost predicate Sound(s: State) {
    && (s.open ==> s.initialized && s.Path() in s.files)
    && (!s.open ==> s.unflushed == 0)
    && TasksSafe(s)
    && s.cfg.Valid() && s.size < WORD && s.buffered < WORD && s.lastFlush < WORD64
  }

  /** Only files other than the current one, and the task queue, may differ. */
  ghost predicate SameLog(s: State, t: State) {
    && t == s.(files := t.files, tasks := t.tasks)
    && (s.Path() in t.files <==> s.Path() in s.files)
    && t.Current() == s.Current()
  }

  /** No file with a log's name appears or changes. */
  ghost predicate NoNewNames(s: State, t: State) {
    forall p :: EndsInG(p) && p in t.files ==> p in s.files && t.files[p] == s.files[p]
  }

  lemma CompressKeeps(s: State, path: string, g: Gzip)
    requires path != s.Path()
    ensures SameLog(s, DoCompress(s, path, g)) && DoCompress(s, path, g).tasks == s.tasks
    ensures NoNewNames(s, DoCompress(s, path, g))
  {
    GzipNames(path);
    HistoryNames(s.cfg, "", 0);
  }

  lemma {:induction false} BackgroundKeeps(s: State, runs: seq<Gzip>)
    requires TasksSafe(s)
    ensures SameLog(s, Background(s, runs)) && TasksSafe(Background(s, runs)) && NoNewNames(s, Background(s, runs))
    decreases |runs|
  {
    if runs != [] && s.tasks != [] {
      var popped := s.(tasks := s.tasks[1..]);
      assert s.tasks[0] != s.Path();
      CompressKeeps(popped, s.tasks[0], runs[0]);
      BackgroundKeeps(DoCompress(popped, s.tasks[0], runs[0]), runs[1..]);
    }
  }

  /** The renames either move the current file to the archive, once, or leave the log alone. */
  lemma {:induction false} TryRenameShape(s: State, to: string, attempts: seq<Attempt>, left: nat)
    requires TasksSafe(s) && to != s.Path()
    ensures var (t, renamed) := TryRename(s, to, attempts, left);
      && TasksSafe(t)
      && t == s.(files := t.files, tasks := t.tasks, archive := t.archive, overwrote := t.overwrote)
      && (renamed ==> s.Path() in s.files && s.Path() !in t.files && t.archive == s.archive + [s.Current()])
      && (renamed ==> to in t.files && t.files[to] == s.Current())
      && (!renamed ==> SameLog(s, t))
    ensures EndsInG(to) && to !in s.files ==> TryRename(s, to, attempts, left).0.overwrote == s.overwrote
    decreases left
  {
    if left > 0 && attempts != [] {
      var t := Background(s, attempts[0].meanwhile);
      BackgroundKeeps(s, attempts[0].meanwhile);
      if !(attempts[0].ok && t.Path() in t.files) {
        TryRenameShape(t, to, attempts[1..], left - 1);
      }
    }
  }

  lemma CleanUpKeeps(s: State, e: Rotation)
    requires TasksSafe(s)
    ensures SameLog(s, CleanUp(s, e)) && TasksSafe(CleanUp(s, e)) && NoNewNames(s, CleanUp(s, e))
  {
    CleanUpSparesCurrent(s, e);
  }

  lemma CompressFileKeeps(s: State, path: string, e: Rotation)
    requires TasksSafe(s) && path != s.Path()
    ensures SameLog(s, CompressFile(s, path, e)) && TasksSafe(CompressFile(s, path, e))
    ensures NoNewNames(s, CompressFile(s, path, e))
  {
    CompressKeeps(s, path, e.gzip);
  }

  lemma BeginFileKeeps(s: State, to: string, e: Rotation)
    requires TasksSafe(s) && to != s.Path()
    ensures var u, t := OpenTruncate(s).(size := 0, buffered := 0), BeginFile(s, to, e);
      SameLog(u, t) && TasksSafe(t) && NoNewNames(u, t)
  {
    var u := OpenTruncate(s).(size := 0, buffered := 0);
    var v := CompressFile(u, to, e);
    CompressFileKeeps(u, to, e);
    BackgroundKeeps(v, e.afterwards);
    CleanUpKeeps(Background(v, e.afterwards), e);
  }

  predicate Renames(s: State, e: Rotation) {
    TryRename(Close(s), Target(s, e), e.attempts, s.cfg.rotateRetryCount).1
  }

  /** Rotation: what is archived, what the current file holds, and when it succeeds. */
  lemma RotationShape(s: State, e: Rotation)
    requires Sound(s) && s.initialized
    ensures var (t, rc) := RotateInternal(s, e);
      && Sound(t)
      && t == s.(open := e.reopens, size := t.size, buffered := t.buffered, files := t.files, tasks := t.tasks,
                 archive := t.archive, unflushed := 0, overwrote := t.overwrote)
      && t.archive == s.archive + (if Renames(s, e) then [s.Current()] else [])
      && t.Current() == (if Renames(s, e) then [] else s.Current())
      && rc == (if !e.reopens then FileOpen else if Renames(s, e) then Ok else FileWrite)
      && (rc == Ok ==> t.size == 0 && t.buffered == 0)
      && (rc != Ok ==> t.size == s.size && t.buffered == s.buffered)
      && (t.overwrote != s.overwrote ==> Renames(s, e) && AllTaken(s, e.stamp))
  {
    var to := Target(s, e);
    HistoryNames(s.cfg, e.stamp, Probe(s.cfg, s.files, e.stamp, 0));
    TryRenameShape(Close(s), to, e.attempts, s.cfg.rotateRetryCount);
    var t := TryRename(Close(s), to, e.attempts, s.cfg.rotateRetryCount).0;
    if Renames(s, e) && e.reopens {
      BeginFileKeeps(t, to, e);
    }
  }

  ghost predicate SomeAttemptWorks(attempts: seq<Attempt>, count: nat) {
    exists i :: 0 <= i < |attempts| && i < count && attempts[i].ok
  }

  lemma AttemptsCons(attempts: seq<Attempt>, count: nat)
    requires attempts != [] && count > 0
    ensures SomeAttemptWorks(attempts, count) <==> attempts[0].ok || SomeAttemptWorks(attempts[1..], count - 1)
  {
    if i :| 0 <= i < |attempts| && i < count && attempts[i].ok {
      assert i > 0 ==> attempts[1..][i - 1].ok;
    }
    if i :| 0 <= i < |attempts[1..]| && i < count - 1 && attempts[1..][i].ok {
      assert attempts[i + 1].ok;
    }
  }

  lemma {:induction false} TryRenameIff(s: State, to: string, attempts: seq<Attempt>, left: nat)
    requires TasksSafe(s)
    ensures TryRename(s, to, attempts, left).1 <==> s.Path() in s.files && SomeAttemptWorks(attempts, left)
    decreases left
  {
    if left > 0 && attempts != [] {
      AttemptsCons(attempts, left);
      BackgroundKeeps(s, attempts[0].meanwhile);
      TryRenameIff(Background(s, attempts[0].meanwhile), to, attempts[1..], left - 1);
    }
  }

  /** A file is rotated out exactly when it exists and one of the allowed attempts works. */
  lemma RenamesIff(s: State, e: Rotation)
    requires Sound(s)
    ensures Renames(s, e) <==> s.Path() in s.files && SomeAttemptWorks(e.attempts, s.cfg.rotateRetryCount)
  {
    TryRenameIff(Close(s), Target(s, e), e.attempts, s.cfg.rotateRetryCount);
  }

  /** What the history name holds is what the current file held; and it is there unless it was taken. */
  lemma HistoryHoldsContent(s: State, e: Rotation)
    requires Sound(s) && s.initialized && Renames(s, e)
    ensures var t, to := RotateInternal(s, e).0, Target(s, e);
      && (to in t.files ==> t.files[to] == s.Current())
      && (to !in t.files ==> CompressionRuns(s, e) || to in Unlinked(s, e))
  {
    var to := Target(s, e);
    HistoryNames(s.cfg, e.stamp, Probe(s.cfg, s.files, e.stamp, 0));
    TryRenameShape(Close(s), to, e.attempts, s.cfg.rotateRetryCount);
    var t := TryRename(Close(s), to, e.attempts, s.cfg.rotateRetryCount).0;
    if e.reopens {
      BeginFileKeeps(t, to, e);
      if !CompressionRuns(s, e) {
        BeginFileSpares(t, to, e);
      }
      assert Unlinked(t, e) == Unlinked(s, e);
    }
  }

  /** A gzip that works may run on some file before the rotation returns. */
  predicate CompressionRuns(s: State, e: Rotation) {
    (s.cfg.enableCompression && s.cfg.compressMode.CompressSync? && e.gzip.ok) || e.afterwards != []
  }

  lemma BeginFileSpares(s: State, to: string, e: Rotation)
    requires to in s.files && to != s.Path() && !CompressionRuns(s, e)
    ensures to in BeginFile(s, to, e).files || to in Unlinked(s, e)
  {
    var u := CompressFile(OpenTruncate(s).(size := 0, buffered := 0), to, e);
    assert to in u.files && Background(u, e.afterwards) == u;
    assert Unlinked(u, e) == Unlinked(s, e);
  }

  /** The last candidate name, which rotation uses when all are taken. */
  function LastName(s: State, stamp: string): string {
    s.cfg.HistoryPath(stamp, MAX_SEQ_RETRY_COUNT - 1)
  }

  /** Compression leaves files alone that are not queued for it. */
  lemma {:induction false} BackgroundSpares(s: State, runs: seq<Gzip>, path: string)
    requires path in s.files && path !in s.tasks
    ensures path in Background(s, runs).files && path !in Background(s, runs).tasks
    decreases |runs|
  {
    if runs != [] && s.tasks != [] {
      assert s.tasks[0] != path;
      BackgroundSpares(DoCompress(s.(tasks := s.tasks[1..]), s.tasks[0], runs[0]), runs[1..], path);
    }
  }

  lemma {:induction false} BackgroundAppend(s: State, a: seq<Gzip>, b: seq<Gzip>)
    ensures Background(s, a + b) == Background(Background(s, a), b)
    decreases |a|
  {
    if a == [] {
      assert a + b == b;
    } else if s.tasks != [] {
      assert (a + b)[1..] == a[1..] + b;
      BackgroundAppend(DoCompress(s.(tasks := s.tasks[1..]), s.tasks[0], a[0]), a[1..], b);
    }
  }

  /** The compressions that run before the first rename that works. */
  function RunsBefore(attempts: seq<Attempt>, left: nat): seq<Gzip>
    decreases left
  {
    if left == 0 || attempts == [] then []
    else attempts[0].meanwhile + if attempts[0].ok then [] else RunsBefore(attempts[1..], left - 1)
  }

  lemma {:induction false} TryRenameReplacesIff(s: State, to: string, attempts: seq<Attempt>, left: nat)
    requires TasksSafe(s) && !s.overwrote && TryRename(s, to, attempts, left).1
    ensures TryRename(s, to, attempts, left).0.overwrote <==> to in Background(s, RunsBefore(attempts, left)).files
    decreases left
  {
    TryRenameIff(s, to, attempts, left);
    var first := attempts[0].meanwhile;
    var t := Background(s, first);
    BackgroundKeeps(s, first);
    if attempts[0].ok {
      assert first + [] == first;
    } else {
      BackgroundAppend(s, first, RunsBefore(attempts[1..], left - 1));
      TryRenameReplacesIff(t, to, attempts[1..], left - 1);
    }
  }

  lemma {:induction false} BackgroundRecord(s: State, runs: seq<Gzip>)
    ensures var t := Background(s, runs);
      t == s.(files := t.files, tasks := t.tasks)
    decreases |runs|
  {
    if runs != [] && s.tasks != [] {
      BackgroundRecord(DoCompress(s.(tasks := s.tasks[1..]), s.tasks[0], runs[0]), runs[1..]);
    }
  }

  /** Past the renames nothing touches the record of replaced files. */
  lemma RotationReplaces(s: State, e: Rotation)
    ensures RotateInternal(s, e).0.overwrote ==
      TryRename(Close(s), Target(s, e), e.attempts, s.cfg.rotateRetryCount).0.overwrote
  {
    var to := Target(s, e);
    var t := TryRename(Close(s), to, e.attempts, s.cfg.rotateRetryCount).0;
    BackgroundRecord(CompressFile(OpenTruncate(t).(size := 0, buffered := 0), to, e), e.afterwards);
  }

  lemma TargetTakenIff(s: State, e: Rotation)
    ensures Target(s, e) in s.files <==> AllTaken(s, e.stamp)
    ensures AllTaken(s, e.stamp) ==> Target(s, e) == LastName(s, e.stamp)
  {
    var r := Probe(s.cfg, s.files, e.stamp, 0);
    if AllTaken(s, e.stamp) {
      assert s.cfg.HistoryPath(e.stamp, r) in s.files;
    }
  }

  /** The last name is still there when the first rename works. */
  predicate LastNameStays(s: State, e: Rotation) {
    LastName(s, e.stamp) in Background(Close(s), RunsBefore(e.attempts, s.cfg.rotateRetryCount)).files
  }

  /**
   A rotation replaces a file exactly when it renames, all ten names were taken when it probed, and no
   compression in between removed the last of them.
   */
  lemma RotationOverwritesIff(s: State, e: Rotation)
    requires Sound(s) && s.initialized && !s.overwrote
    ensures RotateInternal(s, e).0.overwrote <==> Renames(s, e) && AllTaken(s, e.stamp) && LastNameStays(s, e)
  {
    RotationShape(s, e);
    RotationReplaces(s, e);
    TargetTakenIff(s, e);
    if Renames(s, e) && AllTaken(s, e.stamp) {
      TryRenameReplacesIff(Close(s), Target(s, e), e.attempts, s.cfg.rotateRetryCount);
    }
  }

  /** It does stay unless it was itself waiting to be compressed. */
  lemma LastNameStaysIfSettled(s: State, e: Rotation)
    requires AllTaken(s, e.stamp) && LastName(s, e.stamp) !in s.tasks
    ensures LastNameStays(s, e)
  {
    BackgroundSpares(Close(s), RunsBefore(e.attempts, s.cfg.rotateRetryCount), LastName(s, e.stamp));
  }

  /** With every candidate taken and compression out of the way, the rename replaces a file. */
  lemma CrowdedRenameOverwrites(s: State, e: Rotation)
    requires Sound(s) && s.initialized && !s.overwrote && Renames(s, e) && AllTaken(s, e.stamp)
    requires LastName(s, e.stamp) !in s.tasks || RunsBefore(e.attempts, s.cfg.rotateRetryCount) == []
    ensures RotateInternal(s, e).0.overwrote
  {
    RotationOverwritesIff(s, e);
    if LastName(s, e.stamp) !in s.tasks {
      LastNameStaysIfSettled(s, e);
    }
  }

  // ---------- One operation ----------

  /** The operation's rotation is reached. */
  predicate Rotates(s: State, op: Op) {
    match op
    case OpWrite(data, _, _, _) => data != [] && s.initialized && s.open && MustRotate(s, data)
    case OpRotate(_) => s.initialized
    case _ => false
  }

  /** The operation renames the current file. */
  predicate Moves(s: State, op: Op) {
    Rotates(s, op) && Renames(s, op.rotation)
  }

  /** A write that gets as far as fwrite. */
  predicate Reaches(s: State, op: Op) {
    && op.OpWrite? && op.data != [] && s.initialized && s.open
    && (Rotates(s, op) ==> Renames(s, op.rotation) && op.rotation.reopens)
  }

  ghost predicate SizeExact(s: State) {
    s.initialized ==> s.size == |s.Current()| % WORD
  }

  /** A file was rotated out but the new one could not be opened. */
  predicate Stranded(s: State, op: Op) {
    Moves(s, op) && !op.rotation.reopens
  }

  function AcceptedBy(s: State, op: Op): seq<bytes> {
    if op.OpWrite? && Step(s, op).1 == Ok then [op.data] else []
  }

  /** The bytes of a write that fwrite took only in part. */
  function TornBy(s: State, op: Op): bytes {
    if Reaches(s, op) && op.taken < |op.data| then op.data[..op.taken] else []
  }

  function Flat(records: seq<bytes>): bytes {
    if records == [] then [] else Flat(records[..|records| - 1]) + records[|records| - 1]
  }

  lemma FlatOne(record: bytes)
    ensures Flat([record]) == record && Flat([]) == []
  {
  }

  lemma StoredCurrent(s: State, some: bytes)
    ensures Stored(s, some).Current() == s.Current() + some
  {
  }

  lemma SettledCurrent(s: State, len: nat, now: nat)
    ensures var t := Settled(s, len, now);
      t.files == s.files && t.cfg == s.cfg && t.Current() == s.Current()
  {
  }

  lemma AppendCurrent(s: State, data: bytes, taken: nat, now: nat)
    ensures var (t, rc) := Append(s, data, taken, now);
      t.Current() == s.Current() + (if rc == Ok then data else data[..taken])
  {
    if taken < |data| {
      StoredCurrent(s, data[..taken]);
    } else {
      StoredCurrent(s, data);
      SettledCurrent(Stored(s, data), |data|, now);
    }
  }

  lemma AppendShape(s: State, data: bytes, taken: nat, now: nat)
    requires Sound(s) && s.open && |data| < WORD && now < WORD64
    ensures var (t, rc) := Append(s, data, taken, now);
      && Sound(t)
      && t == s.(files := t.files, size := t.size, buffered := t.buffered, lastFlush := t.lastFlush,
                 unflushed := t.unflushed)
      && (rc == Ok <==> taken >= |data|)
      && t.Current() == s.Current() + (if rc == Ok then data else data[..taken])
  {
    assert data[..|data|] == data;
  }

  /** What a write does, in terms of what it moves, accepts and tears. */
  lemma WriteShape(s: State, op: Op)
    requires Sound(s) && op.OpWrite? && Allowed(op, s.cfg)
    ensures var (t, rc) := Step(s, op);
      && Sound(t) && t.cfg == s.cfg
      && (rc == Ok <==> Reaches(s, op) && op.taken >= |op.data|)
      && t.archive == s.archive + (if Moves(s, op) then [s.Current()] else [])
      && t.Current() == (if Moves(s, op) then [] else s.Current()) + (if rc == Ok then op.data else TornBy(s, op))
  {
    if op.data != [] && s.initialized && s.open {
      if MustRotate(s, op.data) {
        RotationShape(s, op.rotation);
        var (t, rc) := RotateInternal(s, op.rotation);
        if rc == Ok {
          AppendShape(t, op.data, op.taken, op.now);
        }
      } else {
        AppendShape(s, op.data, op.taken, op.now);
      }
    }
  }

  /** What a caller of WriteRaw sees. */
  lemma WriteEffects(s: State, data: bytes, e: Rotation, taken: nat, now: nat)
    requires Sound(s) && |data| < WORD && now < WORD64
    ensures var (t, rc) := WriteRaw(s, data, e, taken, now);
      && Sound(t)
      && (rc == Ok ==> t.Current() == (if t.archive == s.archive then s.Current() else []) + data)
  {
    WriteShape(s, OpWrite(data, e, taken, now));
  }

  lemma DeinitShape(s: State, runs: seq<Gzip>)
    requires Sound(s)
    ensures var t := Deinit(s, runs);
      && Sound(t) && t.cfg == s.cfg && t.archive == s.archive && t.Current() == s.Current()
      && t.overwrote == s.overwrote && !t.initialized
  {
    BackgroundKeeps(Close(s).(initialized := false), runs);
  }

  lemma InitShape(s: State, cfg: Config, dirOk: bool, opens: bool, worker: Code, now: nat)
    requires Sound(s) && Allowed(OpInit(cfg, dirOk, opens, worker, now), s.cfg)
    ensures var t := Init(s, cfg, dirOk, opens, worker, now).0;
      && Sound(t) && t.Path() == s.Path() && t.archive == s.archive && t.Current() == s.Current()
      && (s.initialized ==> t == s)
      && (t.initialized && !s.initialized ==> t.size == |s.Current()| % WORD)
  {
  }

  /** What a caller of Init sees. */
  lemma InitEffects(s: State, cfg: Config, dirOk: bool, opens: bool, worker: Code, now: nat)
    requires Sound(s) && Allowed(OpInit(cfg, dirOk, opens, worker, now), s.cfg)
    ensures var (t, rc) := Init(s, cfg, dirOk, opens, worker, now);
      && (rc == Ok && !s.initialized ==>
            && t.initialized && t.open && t.size == |t.Current()| % WORD && t.cfg == cfg
            && t.buffered == 0 && t.unflushed == 0 && t.lastFlush == now && t.tasks == [])
      && (rc != Ok ==> !t.initialized && !t.open)
      && rc == if s.initialized then Ok else if !dirOk || !opens then FileOpen else worker
  {
  }

  lemma RotateShape(s: State, op: Op)
    requires Sound(s) && op.OpRotate?
    ensures var t := Step(s, op).0;
      && Sound(t) && t.cfg == s.cfg
      && t.archive == s.archive + (if Moves(s, op) then [s.Current()] else [])
      && t.Current() == (if Moves(s, op) then [] else s.Current())
      && (SizeExact(s) && !Stranded(s, op) ==> SizeExact(t))
  {
    if s.initialized {
      RotationShape(s, op.rotation);
    }
  }

  lemma OtherShape(s: State, op: Op)
    requires Sound(s) && Allowed(op, s.cfg) && !op.OpWrite? && !op.OpRotate?
    ensures var t := Step(s, op).0;
      && Sound(t) && t.Path() == s.Path() && t.archive == s.archive && t.Current() == s.Current()
      && (SizeExact(s) ==> SizeExact(t))
  {
    match op
    case OpBackground(runs) => BackgroundKeeps(s, runs);
    case OpDeinit(runs) => DeinitShape(s, runs);
    case OpInit(cfg, dirOk, opens, worker, now) => InitShape(s, cfg, dirOk, opens, worker, now);
    case _ =>
  }

  lemma WriteShaped(s: State, op: Op)
    requires Sound(s) && Allowed(op, s.cfg) && op.OpWrite?
    ensures var t := Step(s, op).0;
      t.Current() == (if Moves(s, op) then [] else s.Current()) + Flat(AcceptedBy(s, op)) + TornBy(s, op)
  {
    WriteShape(s, op);
    FlatOne(op.data);
    Pad(if Moves(s, op) then [] else s.Current(), op.data);
    Pad(if Moves(s, op) then [] else s.Current(), TornBy(s, op));
  }

  lemma Pad(a: bytes, b: bytes)
    ensures a + [] + b == a + b && a + b + [] == a + b
  {
  }

  /** What one operation adds to the archive and leaves in the current file. */
  lemma {:induction false} StepShape(s: State, op: Op)
    requires Sound(s) && Allowed(op, s.cfg)
    ensures var t := Step(s, op).0;
      && Sound(t) && t.Path() == s.Path()
      && t.archive == s.archive + (if Moves(s, op) then [s.Current()] else [])
      && t.Current() == (if Moves(s, op) then [] else s.Current()) + Flat(AcceptedBy(s, op)) + TornBy(s, op)
  {
    if op.OpWrite? {
      WriteShape(s, op);
      WriteShaped(s, op);
    } else {
      Pad(if Moves(s, op) then [] else s.Current(), []);
      if op.OpRotate? {
        RotateShape(s, op);
      } else {
        OtherShape(s, op);
      }
    }
  }

  // ---------- Whole runs ----------

  function Accepted(s: State, ops: seq<Op>): seq<bytes>
    decreases |ops|
  {
    if ops == [] then [] else AcceptedBy(s, ops[0]) + Accepted(Step(s, ops[0]).0, ops[1..])
  }

  /** Bytes that reached a file although their write failed. */
  function TornTotal(s: State, ops: seq<Op>): nat
    decreases |ops|
  {
    if ops == [] then 0 else |TornBy(s, ops[0])| + TornTotal(Step(s, ops[0]).0, ops[1..])
  }

  /** Everything ever rotated out, in order, and then the current file. */
  function Log(s: State): bytes {
    Flat(s.archive) + s.Current()
  }

  lemma {:induction false} FlatAppend(a: seq<bytes>, b: seq<bytes>)
    ensures Flat(a + b) == Flat(a) + Flat(b)
    decreases |b|
  {
    if b == [] {
      assert a + b == a;
    } else {
      var n := |b| - 1;
      var init, last := b[..n], b[n];
      FlatAppend(a, init);
      FlatThen(a + init, last);
      FlatThen(init, last);
      assert b == init + [last];
      assert a + b == (a + init) + [last];
      assert (Flat(a) + Flat(init)) + last == Flat(a) + (Flat(init) + last);
    }
  }

  lemma FlatThen(archive: seq<bytes>, c: bytes)
    ensures Flat(archive + [c]) == Flat(archive) + c
  {
    assert (archive + [c])[..|archive|] == archive;
  }

  lemma Regroup(a: bytes, c: bytes, x: bytes, y: bytes)
    ensures a + (c + x + y) == a + c + x + y && (a + c) + ([] + x + y) == a + c + x + y
  {
  }

  lemma LogGrows(archive: seq<bytes>, c: bytes, moved: bool, x: bytes, y: bytes)
    ensures Flat(archive + (if moved then [c] else [])) + ((if moved then [] else c) + x + y) == Flat(archive) + c + x + y
  {
    Regroup(Flat(archive), c, x, y);
    if moved {
      FlatThen(archive, c);
    } else {
      assert archive + [] == archive;
    }
  }

  lemma StepLog(s: State, op: Op)
    requires Sound(s) && Allowed(op, s.cfg)
    ensures Log(Step(s, op).0) == Log(s) + Flat(AcceptedBy(s, op)) + TornBy(s, op)
  {
    StepShape(s, op);
    LogGrows(s.archive, s.Current(), Moves(s, op), Flat(AcceptedBy(s, op)), TornBy(s, op));
  }

  lemma SameNames(op: Op, a: Config, b: Config)
    requires Allowed(op, a) && a.dir == b.dir && a.base == b.base
    ensures Allowed(op, b)
  {
  }

  lemma StepNames(s: State, op: Op)
    requires Sound(s) && Allowed(op, s.cfg)
    ensures var cfg := Step(s, op).0.cfg;
      cfg.dir == s.cfg.dir && cfg.base == s.cfg.base
  {
    match op
    case OpWrite(_, _, _, _) => WriteShape(s, op);
    case OpRotate(e) =>
      if s.initialized {
        RotationShape(s, e);
      }
    case OpBackground(runs) => BackgroundKeeps(s, runs);
    case OpDeinit(runs) => DeinitShape(s, runs);
    case _ =>
  }

  lemma StepAllows(s: State, op: Op, ops: seq<Op>)
    requires Sound(s) && Allowed(op, s.cfg) && AllAllowed(ops, s.cfg)
    ensures AllAllowed(ops, Step(s, op).0.cfg)
  {
    StepNames(s, op);
    forall i | 0 <= i < |ops|
      ensures Allowed(ops[i], Step(s, op).0.cfg)
    {
      SameNames(ops[i], s.cfg, Step(s, op).0.cfg);
    }
  }

  lemma {:induction false} RunLength(s: State, ops: seq<Op>)
    requires Sound(s) && AllAllowed(ops, s.cfg)
    ensures |Log(Run(s, ops))| == |Log(s)| + |Flat(Accepted(s, ops))| + TornTotal(s, ops)
    decreases |ops|
  {
    if ops != [] {
      var t := Step(s, ops[0]).0;
      StepShape(s, ops[0]);
      StepLog(s, ops[0]);
      StepAllows(s, ops[0], ops[1..]);
      RunLength(t, ops[1..]);
      FlatAppend(AcceptedBy(s, ops[0]), Accepted(t, ops[1..]));
    }
  }

  lemma LogThen(log: bytes, first: seq<bytes>, next: bytes, rest: seq<bytes>)
    requires next == log + Flat(first) + []
    ensures next + Flat(rest) == log + Flat(first + rest)
  {
    FlatAppend(first, rest);
    assert (log + Flat(first) + []) + Flat(rest) == log + (Flat(first) + Flat(rest));
  }

  lemma {:induction false} RunLog(s: State, ops: seq<Op>)
    requires Sound(s) && AllAllowed(ops, s.cfg) && TornTotal(s, ops) == 0
    ensures Log(Run(s, ops)) == Log(s) + Flat(Accepted(s, ops))
    decreases |ops|
  {
    if ops != [] {
      var t := Step(s, ops[0]).0;
      StepShape(s, ops[0]);
      StepLog(s, ops[0]);
      StepAllows(s, ops[0], ops[1..]);
      RunLog(t, ops[1..]);
      LogThen(Log(s), AcceptedBy(s, ops[0]), Log(t), Accepted(t, ops[1..]));
    }
  }

  /**
   The rotated files in rotation order followed by the current file are what was there before plus
   every record whose write succeeded, if and only if no failed write left bytes behind. Failed
   renames, retries and failed reopens do not matter.
   */
  lemma ConservationIff(s: State, ops: seq<Op>)
    requires Sound(s) && AllAllowed(ops, s.cfg)
    ensures Log(Run(s, ops)) == Log(s) + Flat(Accepted(s, ops)) <==> TornTotal(s, ops) == 0
  {
    RunLength(s, ops);
    if TornTotal(s, ops) == 0 {
      RunLog(s, ops);
    }
  }

  // ---------- No record is split across files ----------

  /** The files in order: those rotated out, then the current one. */
  function Files(s: State): (r: seq<bytes>)
    ensures r != []
  {
    s.archive + [s.Current()]
  }

  /** Records went to the last of the files `before` and to newer ones, one group to each. */
  ghost predicate Grouped(before: seq<bytes>, after: seq<bytes>, groups: seq<seq<bytes>>) {
    && before != [] && |groups| == |after| - |before| + 1 > 0
    && before[..|before| - 1] <= after
    && after[|before| - 1] == before[|before| - 1] + Flat(groups[0])
    && (forall i :: 1 <= i < |groups| ==> after[|before| - 1 + i] == Flat(groups[i]))
  }

  function Concat(groups: seq<seq<bytes>>): seq<bytes> {
    if groups == [] then [] else Concat(groups[..|groups| - 1]) + groups[|groups| - 1]
  }

  /** A new file with one group. */
  lemma GroupNewFile(before: seq<bytes>, files: seq<bytes>, groups: seq<seq<bytes>>, added: seq<bytes>)
    requires Grouped(before, files, groups)
    ensures Grouped(before, files + [Flat(added)], groups + [added])
    ensures Concat(groups + [added]) == Concat(groups) + added
  {
    assert (groups + [added])[..|groups|] == groups;
  }

  lemma ConcatLast(groups: seq<seq<bytes>>, added: seq<bytes>)
    requires groups != []
    ensures var last := |groups| - 1;
      Concat(groups[last := groups[last] + added]) == Concat(groups) + added
  {
    var last := |groups| - 1;
    assert groups[last := groups[last] + added][..last] == groups[..last];
    assert Concat(groups[..last]) + (groups[last] + added) == (Concat(groups[..last]) + groups[last]) + added;
  }

  lemma GroupedLast(before: seq<bytes>, files: seq<bytes>, groups: seq<seq<bytes>>, file: bytes, group: seq<bytes>)
    requires Grouped(before, files, groups)
    requires file == (if |groups| == 1 then before[|before| - 1] else []) + Flat(group)
    ensures Grouped(before, files[|files| - 1 := file], groups[|groups| - 1 := group])
  {
  }

  /** More records in the last file. */
  lemma GroupSameFile(before: seq<bytes>, files: seq<bytes>, groups: seq<seq<bytes>>, added: seq<bytes>)
    requires Grouped(before, files, groups)
    ensures var last, file := |groups| - 1, |files| - 1;
      && Grouped(before, files[file := files[file] + Flat(added)], groups[last := groups[last] + added])
      && Concat(groups[last := groups[last] + added]) == Concat(groups) + added
  {
    var last, file := |groups| - 1, |files| - 1;
    var start: bytes := if last == 0 then before[|before| - 1] else [];
    assert files[file] == start + Flat(groups[last]);
    FlatAppend(groups[last], added);
    assert (start + Flat(groups[last])) + Flat(added) == start + (Flat(groups[last]) + Flat(added));
    GroupedLast(before, files, groups, files[file] + Flat(added), groups[last] + added);
    ConcatLast(groups, added);
  }

  lemma FilesGrow(archive: seq<bytes>, c: bytes, moved: bool, x: bytes)
    ensures var files := archive + [c];
      archive + (if moved then [c] else []) + [(if moved then [] else c) + x + []] ==
      if moved then files + [x] else files[|files| - 1 := files[|files| - 1] + x]
  {
    assert [] + x + [] == x && c + x + [] == c + x;
  }

  lemma StepFiles(s: State, op: Op)
    requires Sound(s) && Allowed(op, s.cfg) && TornBy(s, op) == []
    ensures var files, x := Files(s), Flat(AcceptedBy(s, op));
      Files(Step(s, op).0) ==
      if Moves(s, op) then files + [x] else files[|files| - 1 := files[|files| - 1] + x]
  {
    StepShape(s, op);
    FilesGrow(s.archive, s.Current(), Moves(s, op), Flat(AcceptedBy(s, op)));
  }

  lemma {:induction false} GroupStep(before: seq<bytes>, s: State, op: Op, groups: seq<seq<bytes>>)
    returns (after: seq<seq<bytes>>)
    requires Sound(s) && Allowed(op, s.cfg) && Grouped(before, Files(s), groups) && TornBy(s, op) == []
    ensures Grouped(before, Files(Step(s, op).0), after)
    ensures Concat(after) == Concat(groups) + AcceptedBy(s, op)
  {
    StepFiles(s, op);
    var files, added, last := Files(s), AcceptedBy(s, op), |groups| - 1;
    if Moves(s, op) {
      GroupNewFile(before, files, groups, added);
      after := groups + [added];
    } else {
      GroupSameFile(before, files, groups, added);
      after := groups[last := groups[last] + added];
    }
  }

  lemma Assoc(a: seq<bytes>, b: seq<bytes>, c: seq<bytes>)
    ensures (a + b) + c == a + (b + c)
  {
  }

  lemma {:induction false} RunGroups(before: seq<bytes>, s: State, ops: seq<Op>, groups: seq<seq<bytes>>)
    returns (after: seq<seq<bytes>>)
    requires Sound(s) && AllAllowed(ops, s.cfg) && Grouped(before, Files(s), groups) && TornTotal(s, ops) == 0
    ensures Grouped(before, Files(Run(s, ops)), after)
    ensures Concat(after) == Concat(groups) + Accepted(s, ops)
    decreases |ops|
  {
    if ops == [] {
      after := groups;
    } else {
      var next := GroupStep(before, s, ops[0], groups);
      StepShape(s, ops[0]);
      StepAllows(s, ops[0], ops[1..]);
      var t := Step(s, ops[0]).0;
      after := RunGroups(before, t, ops[1..], next);
      Assoc(Concat(groups), AcceptedBy(s, ops[0]), Accepted(t, ops[1..]));
    }
  }

  /**
   Each file holds whole records: the accepted records fall into consecutive groups, one for each
   file rotated out since and one for the current file.
   */
  lemma NoRecordSplit(s: State, ops: seq<Op>) returns (groups: seq<seq<bytes>>)
    requires Sound(s) && AllAllowed(ops, s.cfg) && TornTotal(s, ops) == 0
    ensures Concat(groups) == Accepted(s, ops)
    ensures Grouped(Files(s), Files(Run(s, ops)), groups)
  {
    assert Concat([[]]) == [];
    groups := RunGroups(Files(s), s, ops, [[]]);
  }

  // ---------- Renames that replace a file ----------

  lemma {:induction false} StepOverwrites(s: State, op: Op)
    requires Sound(s) && Allowed(op, s.cfg)
    ensures Step(s, op).0.overwrote && !s.overwrote ==> Moves(s, op) && AllTaken(s, op.rotation.stamp)
  {
    match op
    case OpWrite(data, e, taken, now) =>
      if Rotates(s, op) {
        RotationShape(s, e);
        AppendOverwrites(RotateInternal(s, e).0, data, taken, now);
      } else {
        AppendOverwrites(s, data, taken, now);
      }
    case OpRotate(e) =>
      if s.initialized {
        RotationShape(s, e);
      }
    case OpBackground(runs) => BackgroundKeeps(s, runs);
    case OpDeinit(runs) => DeinitShape(s, runs);
    case _ =>
  }

  lemma AppendOverwrites(s: State, data: bytes, taken: nat, now: nat)
    ensures Append(s, data, taken, now).0.overwrote == s.overwrote
  {
  }

  /** The operation renames the current file onto another one. */
  predicate Replaces(s: State, op: Op) {
    Moves(s, op) && AllTaken(s, op.rotation.stamp) && LastNameStays(s, op.rotation)
  }

  lemma StepOverwritesIff(s: State, op: Op)
    requires Sound(s) && Allowed(op, s.cfg) && !s.overwrote
    ensures Step(s, op).0.overwrote <==> Replaces(s, op)
  {
    StepOverwrites(s, op);
    if Rotates(s, op) {
      RotationOverwritesIff(s, op.rotation);
      if op.OpWrite? {
        AppendOverwrites(RotateInternal(s, op.rotation).0, op.data, op.taken, op.now);
      }
    }
  }

  /** A replaced file stays replaced. */
  lemma {:induction false} OverwroteStays(s: State, ops: seq<Op>)
    requires Sound(s) && AllAllowed(ops, s.cfg) && s.overwrote
    ensures Run(s, ops).overwrote
    decreases |ops|
  {
    if ops != [] {
      StepShape(s, ops[0]);
      StepStays(s, ops[0]);
      StepAllows(s, ops[0], ops[1..]);
      OverwroteStays(Step(s, ops[0]).0, ops[1..]);
    }
  }

  lemma {:induction false} TryRenameStays(s: State, to: string, attempts: seq<Attempt>, left: nat)
    requires s.overwrote && TasksSafe(s)
    ensures TryRename(s, to, attempts, left).0.overwrote
    decreases left
  {
    if left > 0 && attempts != [] {
      BackgroundKeeps(s, attempts[0].meanwhile);
      TryRenameStays(Background(s, attempts[0].meanwhile), to, attempts[1..], left - 1);
    }
  }

  lemma StepStays(s: State, op: Op)
    requires Sound(s) && Allowed(op, s.cfg) && s.overwrote
    ensures Step(s, op).0.overwrote
  {
    match op
    case OpWrite(data, e, taken, now) =>
      RotationReplaces(s, e);
      TryRenameStays(Close(s), Target(s, e), e.attempts, s.cfg.rotateRetryCount);
      AppendOverwrites(if Rotates(s, op) then RotateInternal(s, e).0 else s, data, taken, now);
    case OpRotate(e) =>
      RotationReplaces(s, e);
      TryRenameStays(Close(s), Target(s, e), e.attempts, s.cfg.rotateRetryCount);
    case OpBackground(runs) => BackgroundKeeps(s, runs);
    case OpDeinit(runs) => DeinitShape(s, runs);
    case _ =>
  }

  /** At some point of the run a file is rotated out while all ten names are taken. */
  predicate Crowded(s: State, ops: seq<Op>)
    decreases |ops|
  {
    ops != [] &&
    ((Moves(s, ops[0]) && AllTaken(s, ops[0].rotation.stamp)) || Crowded(Step(s, ops[0]).0, ops[1..]))
  }

  predicate EverReplaces(s: State, ops: seq<Op>)
    decreases |ops|
  {
    ops != [] && (Replaces(s, ops[0]) || EverReplaces(Step(s, ops[0]).0, ops[1..]))
  }

  /**
   Over every run, rename replaces a file if and only if some operation rotates the log out with all
   ten names taken, the last of them still so at the rename.
   */
  lemma {:induction false} OverwritesIff(s: State, ops: seq<Op>)
    requires Sound(s) && AllAllowed(ops, s.cfg) && !s.overwrote
    ensures Run(s, ops).overwrote <==> EverReplaces(s, ops)
    decreases |ops|
  {
    if ops != [] {
      var t := Step(s, ops[0]).0;
      StepShape(s, ops[0]);
      StepOverwritesIff(s, ops[0]);
      StepAllows(s, ops[0], ops[1..]);
      if t.overwrote {
        OverwroteStays(t, ops[1..]);
      } else {
        OverwritesIff(t, ops[1..]);
      }
    }
  }

  /** Unless all ten names are taken when a file is rotated out, rename never replaces a file. */
  lemma {:induction false} NeverOverwrites(s: State, ops: seq<Op>)
    requires Sound(s) && AllAllowed(ops, s.cfg) && !s.overwrote && !Crowded(s, ops)
    ensures !Run(s, ops).overwrote
    decreases |ops|
  {
    if ops != [] {
      StepShape(s, ops[0]);
      StepOverwrites(s, ops[0]);
      StepAllows(s, ops[0], ops[1..]);
      NeverOverwrites(Step(s, ops[0]).0, ops[1..]);
    }
  }

  // ---------- Sizes ----------

  lemma AppendSize(s: State, data: bytes, taken: nat, now: nat)
    requires s.size == |s.Current()| % WORD && (taken == 0 || taken >= |data|)
    ensures var t := Append(s, data, taken, now).0;
      t.size == |t.Current()| % WORD
  {
    AppendCurrent(s, data, taken, now);
    AddMod(|s.Current()|, |data|);
  }

  lemma WriteSize(s: State, op: Op)
    requires Sound(s) && op.OpWrite? && Allowed(op, s.cfg) && SizeExact(s) && TornBy(s, op) == [] && !Stranded(s, op)
    ensures SizeExact(Step(s, op).0)
  {
    if Rotates(s, op) {
      RotationShape(s, op.rotation);
    }
    if Reaches(s, op) {
      AppendSize(if Rotates(s, op) then RotateInternal(s, op.rotation).0 else s, op.data, op.taken, op.now);
    }
  }

  lemma StepSize(s: State, op: Op)
    requires Sound(s) && Allowed(op, s.cfg) && SizeExact(s) && TornBy(s, op) == [] && !Stranded(s, op)
    ensures SizeExact(Step(s, op).0)
  {
    if op.OpWrite? {
      WriteSize(s, op);
    } else if op.OpRotate? {
      RotateShape(s, op);
    } else {
      OtherShape(s, op);
    }
  }

  lemma BadWriteSize(s: State, op: Op)
    requires Sound(s) && Allowed(op, s.cfg) && SizeExact(s) && TornBy(s, op) != []
    ensures !SizeExact(Step(s, op).0)
  {
    var before := s;
    if Rotates(s, op) {
      RotationShape(s, op.rotation);
      before := RotateInternal(s, op.rotation).0;
    }
    var k, after := |TornBy(s, op)|, Step(s, op).0;
    assert after.initialized && after.size == before.size && |after.Current()| == |before.Current()| + k;
    ShiftMod(|before.Current()|, k);
  }

  lemma ShiftMod(a: nat, k: nat)
    requires 0 < k < WORD
    ensures (a + k) % WORD != a % WORD
  {
    AddMod(a, k);
  }

  lemma StrandedSize(s: State, op: Op)
    requires Sound(s) && Allowed(op, s.cfg) && Stranded(s, op)
    ensures SizeExact(Step(s, op).0) <==> s.size == 0
  {
    RotationShape(s, op.rotation);
  }

  /** Exactly which operations make currentSize wrong. */
  lemma StepSizeIff(s: State, op: Op)
    requires Sound(s) && Allowed(op, s.cfg) && SizeExact(s)
    ensures SizeExact(Step(s, op).0) <==> TornBy(s, op) == [] && (Stranded(s, op) ==> s.size == 0)
  {
    if TornBy(s, op) != [] {
      BadWriteSize(s, op);
    } else if Stranded(s, op) {
      StrandedSize(s, op);
    } else {
      StepSize(s, op);
    }
  }

  predicate EverStranded(s: State, ops: seq<Op>)
    decreases |ops|
  {
    ops != [] && (Stranded(s, ops[0]) || EverStranded(Step(s, ops[0]).0, ops[1..]))
  }

  /** Whenever a file is open, currentSize is its length modulo 2^32. */
  lemma {:induction false} SizeStaysExact(s: State, ops: seq<Op>)
    requires Sound(s) && SizeExact(s) && AllAllowed(ops, s.cfg) && TornTotal(s, ops) == 0 && !EverStranded(s, ops)
    ensures var t := Run(s, ops);
      t.open ==> t.Path() in t.files && t.size == |t.files[t.Path()]| % WORD
    decreases |ops|
  {
    if ops != [] {
      StepShape(s, ops[0]);
      StepSize(s, ops[0]);
      StepAllows(s, ops[0], ops[1..]);
      SizeStaysExact(Step(s, ops[0]).0, ops[1..]);
    }
  }

  lemma AppendBounded(s: State, data: bytes, taken: nat, now: nat)
    requires taken >= |data| && (!MustRotate(s, data) || s.Current() == [])
    ensures var t := Append(s, data, taken, now).0;
      && (t.size < s.cfg.maxFileSize || t.Current() == data)
      && (s.size == |s.Current()| % WORD && |s.Current()| + |data| < WORD ==>
            |t.Current()| < s.cfg.maxFileSize || t.Current() == data)
  {
    AppendCurrent(s, data, taken, now);
  }

  /** After a successful write the file is below the limit or is exactly that record. */
  lemma WriteBounded(s: State, op: Op)
    requires Sound(s) && op.OpWrite? && Allowed(op, s.cfg) && Step(s, op).1 == Ok
    ensures var t := Step(s, op).0;
      && (t.size < s.cfg.maxFileSize || t.Current() == op.data)
      && (SizeExact(s) && |s.Current()| + |op.data| < WORD ==>
            |t.Current()| < s.cfg.maxFileSize || t.Current() == op.data)
  {
    WriteShape(s, op);
    if Rotates(s, op) {
      RotationShape(s, op.rotation);
      AppendBounded(RotateInternal(s, op.rotation).0, op.data, op.taken, op.now);
    } else {
      AppendBounded(s, op.data, op.taken, op.now);
    }
  }

  // ---------- Flushing ----------

  ghost predicate FlushBounded(s: State) {
    s.unflushed <= s.buffered
  }

  lemma AppendFlush(s: State, data: bytes, taken: nat, now: nat)
    requires FlushBounded(s) && s.buffered < WORD && |data| < WORD && (taken == 0 || taken >= |data|)
    ensures FlushBounded(Append(s, data, taken, now).0)
  {
    if taken >= |data| {
      SettledFlush(Stored(s, data), |data|, now);
    }
  }

  lemma SettledFlush(s: State, len: nat, now: nat)
    requires s.unflushed <= s.buffered + len < WORD64
    ensures FlushBounded(Settled(s, len, now))
  {
  }

  lemma StepFlush(s: State, op: Op)
    requires Sound(s) && Allowed(op, s.cfg) && FlushBounded(s) && TornBy(s, op) == []
    ensures FlushBounded(Step(s, op).0)
  {
    match op
    case OpWrite(data, e, taken, now) =>
      if Rotates(s, op) {
        RotationShape(s, e);
      }
      if Reaches(s, op) {
        AppendFlush(if Rotates(s, op) then RotateInternal(s, e).0 else s, data, taken, now);
      }
    case OpRotate(e) =>
      if s.initialized {
        RotationShape(s, e);
      }
    case OpBackground(runs) => BackgroundKeeps(s, runs);
    case OpDeinit(runs) => BackgroundKeeps(Close(s).(initialized := false), runs);
    case _ =>
  }

  /** asyncBufferSize never understates what a crash of the process could lose. */
  lemma {:induction false} FlushStaysBounded(s: State, ops: seq<Op>)
    requires Sound(s) && FlushBounded(s) && AllAllowed(ops, s.cfg) && TornTotal(s, ops) == 0
    ensures Run(s, ops).unflushed <= Run(s, ops).buffered < WORD
    decreases |ops|
  {
    if ops != [] {
      StepShape(s, ops[0]);
      StepFlush(s, ops[0]);
      StepAllows(s, ops[0], ops[1..]);
      FlushStaysBounded(Step(s, ops[0]).0, ops[1..]);
    }
  }

  /** After a successful write in synchronous mode nothing is left unflushed. */
  lemma SyncWriteFlushed(s: State, op: Op)
    requires Sound(s) && op.OpWrite? && Allowed(op, s.cfg) && Step(s, op).1 == Ok && s.cfg.flushMode.FlushSync?
    ensures var t := Step(s, op).0;
      t.buffered == 0 && t.unflushed == 0
  {
    if Rotates(s, op) {
      RotationShape(s, op.rotation);
    }
  }

  lemma AppendAsync(s: State, data: bytes, taken: nat, now: nat)
    requires s.cfg.flushMode.FlushAsync? && taken >= |data|
    ensures var t := Append(s, data, taken, now).0;
      || (t.buffered == 0 && t.unflushed == 0)
      || (t.buffered < s.cfg.asyncFlushSize && (now - t.lastFlush) % WORD64 < s.cfg.asyncFlushIntervalMs)
  {
  }

  /** After a successful asynchronous write: flushed, or below the size limit and within the interval. */
  lemma AsyncWriteBounded(s: State, op: Op)
    requires Sound(s) && op.OpWrite? && Allowed(op, s.cfg) && Step(s, op).1 == Ok && s.cfg.flushMode.FlushAsync?
    ensures var t := Step(s, op).0;
      || (t.buffered == 0 && t.unflushed == 0)
      || (t.buffered < s.cfg.asyncFlushSize && (op.now - t.lastFlush) % WORD64 < s.cfg.asyncFlushIntervalMs)
  {
    WriteShape(s, op);
    if Rotates(s, op) {
      RotationShape(s, op.rotation);
    }
    AppendAsync(if Rotates(s, op) then RotateInternal(s, op.rotation).0 else s, op.data, op.taken, op.now);
  }

  // ---------- From the start ----------

  /**
   Every run from the start, over whatever log file it finds: the log is what it found plus the records
   accepted exactly when no write was torn; then the flush bound holds too, and currentSize is exact
   unless a reopen failed after a rename.
   */
  lemma RunFromStart(s: State, ops: seq<Op>)
    requires Initial(s) && AllAllowed(ops, s.cfg)
    ensures var t := Run(s, ops);
      && (Log(t) == s.Current() + Flat(Accepted(s, ops)) <==> TornTotal(s, ops) == 0)
      && (TornTotal(s, ops) == 0 ==> t.unflushed <= t.buffered < WORD)
      && (TornTotal(s, ops) == 0 && !EverStranded(s, ops) && t.open ==>
            t.Path() in t.files && t.size == |t.files[t.Path()]| % WORD)
      && (!Crowded(s, ops) ==> !t.overwrote)
  {
    ConservationIff(s, ops);
    assert Log(s) == s.Current();
    if TornTotal(s, ops) == 0 {
      FlushStaysBounded(s, ops);
      if !EverStranded(s, ops) {
        SizeStaysExact(s, ops);
      }
    }
    if !Crowded(s, ops) {
      NeverOverwrites(s, ops);
    }
  }
}
