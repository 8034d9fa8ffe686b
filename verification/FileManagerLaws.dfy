/** What one call of each operation of the file manager does, in terms of its inputs alone. */
module FileManagerLaws {
  import opened Words
  import opened ErrorCodes
  import opened Options
  import opened FileManagerModel
  import opened FileManagerRuns
  import LogCleanup

  // ---------- Writing ----------

  /** What fwrite takes of a record. */
  function Part(data: bytes, taken: nat): bytes {
    if taken < |data| then data[..taken] else data
  }

  function WriteCode(data: bytes, taken: nat): Code {
    if taken < |data| then FileWrite else Ok
  }

  /** The record would leave the file below the limit. */
  predicate Fits(s: State, data: bytes) {
    (s.size + |data|) % WORD < s.cfg.maxFileSize
  }

  /** A write to an open log: where the bytes go, whether the log is rotated out, and the code. */
  ghost predicate Written(s: State, data: bytes, e: Rotation, taken: nat, t: State, rc: Code) {
    if Fits(s, data) then
      t.archive == s.archive && t.Current() == s.Current() + Part(data, taken) && rc == WriteCode(data, taken)
    else if !SomeAttemptWorks(e.attempts, s.cfg.rotateRetryCount) then
      t.archive == s.archive && t.Current() == s.Current() && rc == if e.reopens then FileWrite else FileOpen
    else
      && t.archive == s.archive + [s.Current()]
      && t.Current() == (if e.reopens then Part(data, taken) else [])
      && rc == if e.reopens then WriteCode(data, taken) else FileOpen
  }

  lemma WriteLaw(s: State, data: bytes, e: Rotation, taken: nat, now: nat)
    requires Sound(s) && |data| < WORD && now < WORD64
    ensures var (t, rc) := WriteRaw(s, data, e, taken, now);
      if data == [] then t == s && rc == InvalidArg
      else if !(s.initialized && s.open) then t == s && rc == FileManagerNotInit
      else Written(s, data, e, taken, t, rc)
  {
    if data != [] && s.initialized && s.open {
      if Fits(s, data) {
        AppendCurrent(s, data, taken, now);
        AppendRest(s, data, taken, now);
      } else {
        RotationShape(s, e);
        RenamesIff(s, e);
        var t := RotateInternal(s, e).0;
        AppendCurrent(t, data, taken, now);
        AppendRest(t, data, taken, now);
        assert [] + Part(data, taken) == Part(data, taken);
      }
    }
  }

  lemma AppendRest(s: State, data: bytes, taken: nat, now: nat)
    ensures var (t, rc) := Append(s, data, taken, now);
      t.archive == s.archive && rc == WriteCode(data, taken)
  {
  }

  /** Size, buffered bytes and flush time after a record of `len` bytes in a file of the given state. */
  ghost predicate Counted(size: nat, buffered: nat, unflushed: nat, cfg: Config, last: nat, len: nat, now: nat, t: State) {
    var b := buffered + len;
    var due := b >= cfg.asyncFlushSize || (now - last) % WORD64 >= cfg.asyncFlushIntervalMs;
    && t.size == (size + len) % WORD
    && if cfg.flushMode.FlushSync? then t.buffered == 0 && t.unflushed == 0 && t.lastFlush == last
       else if due then t.buffered == 0 && t.unflushed == 0 && t.lastFlush == now
       else t.buffered == b && t.unflushed == unflushed + len && t.lastFlush == last
  }

  lemma AppendCounts(s: State, data: bytes, taken: nat, now: nat)
    requires taken >= |data| && s.buffered < WORD && |data| < WORD
    ensures Counted(s.size, s.buffered, s.unflushed, s.cfg, s.lastFlush, |data|, now, Append(s, data, taken, now).0)
  {
  }

  /** A successful write counts its record on top of the old file, or of an empty one after a rotation. */
  lemma CountLaw(s: State, data: bytes, e: Rotation, taken: nat, now: nat)
    requires Sound(s) && |data| < WORD && now < WORD64 && WriteRaw(s, data, e, taken, now).1 == Ok
    ensures var t := WriteRaw(s, data, e, taken, now).0;
      if Fits(s, data) then Counted(s.size, s.buffered, s.unflushed, s.cfg, s.lastFlush, |data|, now, t)
      else Counted(0, 0, 0, s.cfg, s.lastFlush, |data|, now, t)
  {
    WriteLaw(s, data, e, taken, now);
    if Fits(s, data) {
      AppendCounts(s, data, taken, now);
    } else {
      RotationShape(s, e);
      AppendCounts(RotateInternal(s, e).0, data, taken, now);
    }
  }

  // ---------- Rotating ----------

  /** A rotation of an initialized manager: what happens to the log, the counters and the code. */
  ghost predicate Rotated(s: State, e: Rotation, t: State, rc: Code) {
    var works := s.Path() in s.files && SomeAttemptWorks(e.attempts, s.cfg.rotateRetryCount);
    && t.archive == s.archive + (if works then [s.Current()] else [])
    && t.Current() == (if works then [] else s.Current())
    && t.open == e.reopens && t.unflushed == 0 && t.initialized && t.cfg == s.cfg && t.lastFlush == s.lastFlush
    && rc == (if !e.reopens then FileOpen else if works then Ok else FileWrite)
    && (if rc == Ok then t.size == 0 && t.buffered == 0 else t.size == s.size && t.buffered == s.buffered)
  }

  lemma RotateLaw(s: State, e: Rotation)
    requires Sound(s)
    ensures var (t, rc) := Rotate(s, e);
      if !s.initialized then t == s && rc == FileManagerNotInit else Rotated(s, e, t, rc)
  {
    if s.initialized {
      RotationShape(s, e);
      RenamesIff(s, e);
    }
  }

  /** Cleanup deletes what it may and leaves everything else. */
  lemma CleanUpLaw(s: State, e: Rotation, p: string)
    ensures var t := CleanUp(s, e);
      && (p in t.files <==> p in s.files && !(p in Unlinked(s, e) && p in e.unlinkable))
      && (p in t.files ==> t.files[p] == s.files[p])
  {
  }

  /** A rotation that succeeds deletes the surplus of the history files its scan finds. */
  lemma RotationDeletesSurplus(s: State, e: Rotation) returns (gone: seq<string>)
    requires Sound(s) && s.initialized && RotateInternal(s, e).1 == Ok && e.scan.Some?
    requires forall i, j :: 0 <= i < j < |e.scan.value| ==> e.scan.value[i].name != e.scan.value[j].name
    requires forall p :: p in LogCleanup.Paths(LogCleanup.Candidates(s.cfg.dir, s.cfg.base, e.scan.value)) ==> p in e.unlinkable
    ensures var found := LogCleanup.Candidates(s.cfg.dir, s.cfg.base, e.scan.value);
      var n := if |found| < 128 then |found| else 128;
      && |gone| == (if n > s.cfg.maxFileCount then n - s.cfg.maxFileCount else 0)
      && LogCleanup.Distinct(gone)
      && forall p :: p in gone ==> p in LogCleanup.Paths(found) && p !in RotateInternal(s, e).0.files
  {
    gone := Unlinked(s, e);
    LogCleanup.CleanupUnlinksSurplus(s.cfg.dir, s.cfg.base, e.scan.value, s.cfg.maxFileCount);
    RotationShape(s, e);
    RotationCleans(s, e);
  }

  lemma RotationCleans(s: State, e: Rotation)
    requires Sound(s) && s.initialized && RotateInternal(s, e).1 == Ok
    ensures forall p :: p in Unlinked(s, e) && p in e.unlinkable ==> p !in RotateInternal(s, e).0.files
  {
    var to := Target(s, e);
    HistoryNames(s.cfg, e.stamp, Probe(s.cfg, s.files, e.stamp, 0));
    TryRenameShape(Close(s), to, e.attempts, s.cfg.rotateRetryCount);
    var t := TryRename(Close(s), to, e.attempts, s.cfg.rotateRetryCount).0;
    BeginFileCleans(t, to, e);
    assert Unlinked(t, e) == Unlinked(s, e);
  }

  lemma BeginFileCleans(s: State, to: string, e: Rotation)
    ensures forall p :: p in Unlinked(s, e) && p in e.unlinkable ==> p !in BeginFile(s, to, e).files
  {
    var u := CompressFile(OpenTruncate(s).(size := 0, buffered := 0), to, e);
    var v := Background(u, e.afterwards);
    BackgroundRecord(u, e.afterwards);
    assert Unlinked(v, e) == Unlinked(s, e);
  }

  // ---------- Names ----------

  /** Two candidates of equally long time stamps are the same name only if stamp and number agree. */
  lemma NamesDiffer(cfg: Config, a: string, n: nat, b: string, m: nat)
    requires n < MAX_SEQ_RETRY_COUNT && m < MAX_SEQ_RETRY_COUNT && |a| == |b|
    ensures cfg.HistoryPath(a, n) == cfg.HistoryPath(b, m) <==> a == b && n == m
  {
    var x, y := cfg.HistoryPath(a, n), cfg.HistoryPath(b, m);
    var k := |cfg.dir| + 1 + |cfg.base| + 1;
    assert x[k..k + |a|] == a && y[k..k + |b|] == b;
    assert |x| == k + |a| + (if n == 0 then 0 else 2) + 4 && |y| == k + |b| + (if m == 0 then 0 else 2) + 4;
    if n > 0 && m > 0 {
      assert x[k + |a| + 1] == "0123456789"[n] && y[k + |b| + 1] == "0123456789"[m];
      DigitsDiffer(n, m);
    }
  }

  lemma DigitsDiffer(n: nat, m: nat)
    requires n < 10 && m < 10
    ensures "0123456789"[n] == "0123456789"[m] <==> n == m
  {
  }

  lemma StemStarts(cfg: Config, stamp: string, n: nat)
    requires n < MAX_SEQ_RETRY_COUNT
    ensures cfg.base + "_" <= cfg.HistoryStem(stamp, n)
  {
    var number := if n == 0 then "" else "_" + ["0123456789"[n]];
    LogCleanup.PrefixStays(cfg.base + "_", cfg.base + "_", stamp);
    LogCleanup.PrefixStays(cfg.base + "_", cfg.base + "_" + stamp, number);
  }

  /** Cleanup recognises every name that rotation gives, and what gzip makes of it. */
  lemma HistoryIsFound(cfg: Config, stamp: string, n: nat) returns (name: string)
    requires n < MAX_SEQ_RETRY_COUNT
    ensures cfg.HistoryPath(stamp, n) == cfg.dir + "/" + name
    ensures LogCleanup.IsHistory(cfg.base, name) && LogCleanup.IsHistory(cfg.base, name + ".gz")
  {
    StemStarts(cfg, stamp, n);
    LogCleanup.NamedHistory(cfg.base, cfg.HistoryStem(stamp, n));
    name := cfg.HistoryStem(stamp, n) + ".log";
  }

  // ---------- Compression ----------

  /** gzip replaces a file by its compressed form, unless it fails or that form exists. */
  lemma CompressLaw(s: State, path: string, g: Gzip, p: string)
    requires p != path && p != path + ".gz"
    ensures var t := DoCompress(s, path, g);
      && (p in t.files <==> p in s.files) && (p in t.files ==> t.files[p] == s.files[p])
      && (if g.ok && path in s.files && path + ".gz" !in s.files then
            path !in t.files && path + ".gz" in t.files && t.files[path + ".gz"] == g.packed
          else t == s)
  {
    assert |path + ".gz"| > |path|;
  }

  /** The thread takes one task for each run, in order. */
  lemma {:induction false} BackgroundTakes(s: State, runs: seq<Gzip>)
    ensures Background(s, runs).tasks == if |runs| < |s.tasks| then s.tasks[|runs|..] else []
    decreases |runs|
  {
    if runs != [] && s.tasks != [] {
      var t := DoCompress(s.(tasks := s.tasks[1..]), s.tasks[0], runs[0]);
      BackgroundTakes(t, runs[1..]);
      assert t.tasks == s.tasks[1..];
    }
  }

  /** All tasks name logs, and none but the i-th names that file. */
  ghost predicate TaskAlone(tasks: seq<string>, i: nat) {
    && i < |tasks| && (forall j :: 0 <= j < |tasks| ==> EndsInG(tasks[j]))
    && forall j :: 0 <= j < |tasks| && j != i ==> tasks[j] != tasks[i]
  }

  /** The file is there and its compressed form is not; or the other way round. */
  predicate Plain(s: State, p: string) {
    p in s.files && p + ".gz" !in s.files
  }

  predicate Packed(s: State, p: string, x: bytes) {
    p !in s.files && p + ".gz" in s.files && s.files[p + ".gz"] == x
  }

  lemma OtherTask(s: State, q: string, g: Gzip, p: string, x: bytes)
    requires q != p && EndsInG(q) && EndsInG(p)
    ensures Plain(s, p) ==> Plain(DoCompress(s, q, g), p)
    ensures Packed(s, p, x) ==> Packed(DoCompress(s, q, g), p, x)
  {
    GzipNames(q);
    GzipNames(p);
    assert (q + ".gz")[..|q|] == q && (p + ".gz")[..|p|] == p;
  }

  lemma {:induction false} StaysPacked(s: State, runs: seq<Gzip>, p: string, x: bytes)
    requires Packed(s, p, x) && EndsInG(p) && p !in s.tasks
    requires forall j :: 0 <= j < |s.tasks| ==> EndsInG(s.tasks[j])
    ensures Packed(Background(s, runs), p, x)
    decreases |runs|
  {
    if runs != [] && s.tasks != [] {
      var popped := s.(tasks := s.tasks[1..]);
      OtherTask(popped, s.tasks[0], runs[0], p, x);
      StaysPacked(DoCompress(popped, s.tasks[0], runs[0]), runs[1..], p, x);
    }
  }

  /** The i-th run compresses the i-th task's file. */
  lemma {:induction false} BackgroundCompresses(s: State, runs: seq<Gzip>, i: nat)
    requires TaskAlone(s.tasks, i) && i < |runs| && runs[i].ok && Plain(s, s.tasks[i])
    ensures Packed(Background(s, runs), s.tasks[i], runs[i].packed)
    decreases i
  {
    var p, popped := s.tasks[i], s.(tasks := s.tasks[1..]);
    var t := DoCompress(popped, s.tasks[0], runs[0]);
    if i == 0 {
      StaysPacked(t, runs[1..], p, runs[0].packed);
    } else {
      OtherTask(popped, s.tasks[0], runs[0], p, []);
      assert t.tasks[i - 1] == p;
      forall j | 0 <= j < |t.tasks|
        ensures EndsInG(t.tasks[j]) && (j != i - 1 ==> t.tasks[j] != p)
      {
        assert t.tasks[j] == s.tasks[j + 1];
      }
      BackgroundCompresses(t, runs[1..], i - 1);
    }
  }

  /** Deinit lets the thread finish: the i-th task left is compressed by the i-th run. */
  lemma DeinitCompresses(s: State, runs: seq<Gzip>, i: nat)
    requires TaskAlone(s.tasks, i) && i < |runs| && runs[i].ok && Plain(s, s.tasks[i])
    ensures Packed(Deinit(s, runs), s.tasks[i], runs[i].packed)
  {
    BackgroundCompresses(Close(s).(initialized := false), runs, i);
  }

  /** What a rotation submits: the file just rotated out comes last in the queue, or is compressed at once. */
  lemma RotationSubmits(s: State, e: Rotation)
    requires Sound(s) && s.initialized && RotateInternal(s, e).1 == Ok && e.afterwards == [] && s.cfg.enableCompression
    ensures var t, to := RotateInternal(s, e).0, Target(s, e);
      && (s.cfg.compressMode.CompressAsync? && e.queueHasRoom ==> t.tasks != [] && t.tasks[|t.tasks| - 1] == to)
      && (s.cfg.compressMode.CompressSync? && e.gzip.ok && to in t.files ==> to + ".gz" in t.files || to + ".gz" in Unlinked(s, e))
  {
    var to := Target(s, e);
    HistoryNames(s.cfg, e.stamp, Probe(s.cfg, s.files, e.stamp, 0));
    TryRenameShape(Close(s), to, e.attempts, s.cfg.rotateRetryCount);
    RotationShape(s, e);
    var r := TryRename(Close(s), to, e.attempts, s.cfg.rotateRetryCount).0;
    var u := OpenTruncate(r).(size := 0, buffered := 0);
    var v := CompressFile(u, to, e);
    assert RotateInternal(s, e).0 == CleanUp(v, e);
    assert Unlinked(v, e) == Unlinked(s, e);
    assert to in u.files;
  }
}
