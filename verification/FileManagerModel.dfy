/**
 The log file manager as a state machine: write, rotate, flush, compress and clean up over a file
 system, with every outcome of rename, fopen, fwrite and gzip left to the environment.
 */
module FileManagerModel {
  import opened Words
  import opened ErrorCodes
  import opened Options
  import LogCleanup

  type bytes = seq<byte>

  const WORD64: nat := 0x1_0000_0000_0000_0000
  const MAX_SEQ_RETRY_COUNT: nat := 10

  datatype FlushMode = FlushSync | FlushAsync
  datatype CompressMode = CompressSync | CompressAsync

  datatype Config = Config(
    dir: string, base: string, maxFileSize: nat, maxFileCount: nat, enableCompression: bool,
    compressMode: CompressMode, flushMode: FlushMode, asyncFlushIntervalMs: nat, asyncFlushSize: nat,
    rotateRetryCount: nat)
  {
    predicate Valid() {
      && maxFileSize < WORD && maxFileCount < WORD && rotateRetryCount < WORD
      && asyncFlushIntervalMs < WORD && asyncFlushSize < WORD
    }

    function CurrentPath(): string {
      dir + "/" + (base + ".log")
    }

    /** The n-th candidate name, without its extension, for the file rotated out at a given time. */
    function HistoryStem(stamp: string, n: nat): string
      requires n < MAX_SEQ_RETRY_COUNT
    {
      base + "_" + stamp + (if n == 0 then "" else "_" + ["0123456789"[n]])
    }

    function HistoryPath(stamp: string, n: nat): string
      requires n < MAX_SEQ_RETRY_COUNT
    {
      dir + "/" + (HistoryStem(stamp, n) + ".log")
    }
  }

  /**
   `open` tells whether currentFd is set, `size`, `buffered` and `lastFlush` are currentSize,
   asyncBufferSize and lastFlushTimeMs, `tasks` the compression queue. The last three fields observe:
   the contents renamed to history files so far, the bytes written since the stream was last flushed
   or closed, and whether a rename ever replaced a file.
   */
  datatype State = State(
    cfg: Config, initialized: bool, open: bool, size: nat, buffered: nat, lastFlush: nat,
    files: map<string, bytes>, tasks: seq<string>,
    archive: seq<bytes>, unflushed: nat, overwrote: bool)
  {
    function Path(): string {
      cfg.CurrentPath()
    }

    function Current(): bytes {
      if Path() in files then files[Path()] else []
    }
  }

  // ---------- Environment ----------

  /** One run of gzip: whether it succeeds and what it would write. */
  datatype Gzip = Gzip(ok: bool, packed: bytes)

  /** What the compression thread does before a rename, and whether the rename would work. */
  datatype Attempt = Attempt(meanwhile: seq<Gzip>, ok: bool)

  /** `afterwards`: what the compression thread does between the submission and the cleanup. */
  datatype Rotation = Rotation(
    stamp: string, attempts: seq<Attempt>, reopens: bool, queueHasRoom: bool, gzip: Gzip, afterwards: seq<Gzip>,
    scan: Option<seq<LogCleanup.Entry>>, unlinkable: set<string>)

  // ---------- Compression ----------

  function DoCompress(s: State, path: string, g: Gzip): State {
    if g.ok && path in s.files && path + ".gz" !in s.files then
      s.(files := (s.files - {path})[path + ".gz" := g.packed])
    else s
  }

  /** The compression thread takes tasks off the queue. */
  function Background(s: State, runs: seq<Gzip>): State
    decreases |runs|
  {
    if runs == [] || s.tasks == [] then s
    else Background(DoCompress(s.(tasks := s.tasks[1..]), s.tasks[0], runs[0]), runs[1..])
  }

  function CompressFile(s: State, path: string, e: Rotation): State {
    if !s.cfg.enableCompression then s
    else if s.cfg.compressMode.CompressAsync? then (if e.queueHasRoom then s.(tasks := s.tasks + [path]) else s)
    else DoCompress(s, path, e.gzip)
  }

  // ---------- Rotation ----------

  /** The index of the first free candidate name from n on, or the last index. */
  function Probe(cfg: Config, files: map<string, bytes>, stamp: string, n: nat): (r: nat)
    requires n < MAX_SEQ_RETRY_COUNT
    ensures n <= r < MAX_SEQ_RETRY_COUNT
    ensures forall i :: n <= i < r ==> cfg.HistoryPath(stamp, i) in files
    ensures cfg.HistoryPath(stamp, r) in files ==> r == MAX_SEQ_RETRY_COUNT - 1
    decreases MAX_SEQ_RETRY_COUNT - n
  {
    if cfg.HistoryPath(stamp, n) !in files || n == MAX_SEQ_RETRY_COUNT - 1 then n
    else Probe(cfg, files, stamp, n + 1)
  }

  function Target(s: State, e: Rotation): string {
    s.cfg.HistoryPath(e.stamp, Probe(s.cfg, s.files, e.stamp, 0))
  }

  predicate AllTaken(s: State, stamp: string) {
    forall i :: 0 <= i < MAX_SEQ_RETRY_COUNT ==> s.cfg.HistoryPath(stamp, i) in s.files
  }

  function Rename(s: State, to: string): State
    requires s.Path() in s.files
  {
    s.(files := (s.files - {s.Path()})[to := s.files[s.Path()]],
       archive := s.archive + [s.files[s.Path()]],
       overwrote := s.overwrote || to in s.files)
  }

  /** Up to `left` renames; without a current file none can work. */
  function TryRename(s: State, to: string, attempts: seq<Attempt>, left: nat): (State, bool)
    decreases left
  {
    if left == 0 || attempts == [] then (s, false)
    else
      var t := Background(s, attempts[0].meanwhile);
      if attempts[0].ok && t.Path() in t.files then (Rename(t, to), true)
      else TryRename(t, to, attempts[1..], left - 1)
  }

  function Close(s: State): State {
    s.(open := false, unflushed := 0)
  }

  function OpenAppend(s: State): State {
    s.(open := true, files := s.files[s.Path() := s.Current()])
  }

  function OpenTruncate(s: State): State {
    s.(open := true, files := s.files[s.Path() := []])
  }

  function Unlinked(s: State, e: Rotation): seq<string> {
    if e.scan.None? then []
    else
      var found := LogCleanup.Candidates(s.cfg.dir, s.cfg.base, e.scan.value);
      var queue := LogCleanup.PQueue.PushAll(LogCleanup.OldestFileCompare, [], LogCleanup.FirstOf(found, LogCleanup.MAX_LOG_FILE_COUNT));
      LogCleanup.Paths(LogCleanup.Victims(queue, s.cfg.maxFileCount))
  }

  /** The unlink calls that work. */
  function Removable(unlinked: seq<string>, unlinkable: set<string>): set<string> {
    set p | p in unlinkable && p in unlinked
  }

  function CleanUp(s: State, e: Rotation): State {
    s.(files := s.files - Removable(Unlinked(s, e), e.unlinkable))
  }

  /** After a rename: a new file, and the old one is compressed and the surplus deleted. */
  function BeginFile(s: State, to: string, e: Rotation): State {
    CleanUp(Background(CompressFile(OpenTruncate(s).(size := 0, buffered := 0), to, e), e.afterwards), e)
  }

  function RotateInternal(s: State, e: Rotation): (State, Code) {
    var to := Target(s, e);
    var (t, renamed) := TryRename(Close(s), to, e.attempts, s.cfg.rotateRetryCount);
    if !renamed then (if e.reopens then (OpenAppend(t), FileWrite) else (t, FileOpen))
    else if !e.reopens then (t, FileOpen)
    else (BeginFile(t, to, e), Ok)
  }

  // ---------- Public operations ----------

  function Stored(s: State, some: bytes): State {
    s.(files := s.files[s.Path() := s.Current() + some], unflushed := s.unflushed + |some|)
  }

  /** The counters after a record of `len` bytes, and the flush that may be due. */
  function Settled(s: State, len: nat, now: nat): State {
    var t := s.(size := (s.size + len) % WORD);
    if s.cfg.flushMode.FlushSync? then t.(unflushed := 0, buffered := 0)
    else
      var buffered := (s.buffered + len) % WORD64;
      if buffered >= s.cfg.asyncFlushSize || (now - s.lastFlush) % WORD64 >= s.cfg.asyncFlushIntervalMs
      then t.(unflushed := 0, buffered := 0, lastFlush := now)
      else t.(buffered := buffered)
  }

  /** `taken` bounds what fwrite takes. */
  function Append(s: State, data: bytes, taken: nat, now: nat): (State, Code) {
    if taken < |data| then (Stored(s, data[..taken]), FileWrite)
    else (Settled(Stored(s, data), |data|, now), Ok)
  }

  predicate MustRotate(s: State, data: bytes) {
    (s.size + |data|) % WORD >= s.cfg.maxFileSize
  }

  function WriteRaw(s: State, data: bytes, e: Rotation, taken: nat, now: nat): (State, Code) {
    if data == [] then (s, InvalidArg)
    else if !s.initialized || !s.open then (s, FileManagerNotInit)
    else if MustRotate(s, data) then
      var (t, rc) := RotateInternal(s, e);
      if rc != Ok then (t, rc) else Append(t, data, taken, now)
    else Append(s, data, taken, now)
  }

  function Rotate(s: State, e: Rotation): (State, Code) {
    if !s.initialized then (s, FileManagerNotInit) else RotateInternal(s, e)
  }

  function Flush(s: State, now: nat): State {
    if s.open then s.(unflushed := 0, buffered := 0, lastFlush := now) else s
  }

  /** The thread is joined after it drained the queue; a gzip run not listed fails. */
  function Deinit(s: State, runs: seq<Gzip>): State {
    Background(Close(s).(initialized := false), runs).(tasks := [])
  }

  /** The log opened, its size taken from the file, and an empty task queue. */
  function Measured(s: State): State {
    OpenAppend(s).(size := |s.Current()| % WORD, tasks := [])
  }

  /**
   `dirOk` is the outcome of making the directory, `worker` that of creating the compression queue and
   its thread, after the file was opened.
   */
  function Init(s: State, cfg: Config, dirOk: bool, opens: bool, worker: Code, now: nat): (State, Code) {
    if s.initialized then (s, Ok)
    else if !dirOk || !opens then (s.(cfg := cfg), FileOpen)
    else
      var t := Measured(s.(cfg := cfg));
      if worker != Ok then (Close(t), worker)
      else (t.(buffered := 0, lastFlush := now, initialized := true), Ok)
  }

  // ---------- Runs ----------

  datatype Op =
    | OpWrite(data: bytes, rotation: Rotation, taken: nat, now: nat)
    | OpRotate(rotation: Rotation)
    | OpFlush(now: nat)
    | OpConfigure(cfg: Config)
    | OpBackground(runs: seq<Gzip>)
    | OpDeinit(runs: seq<Gzip>)
    | OpInit(cfg: Config, dirOk: bool, opens: bool, worker: Code, now: nat)

  function Step(s: State, op: Op): (State, Code) {
    match op
    case OpWrite(data, e, taken, now) => WriteRaw(s, data, e, taken, now)
    case OpRotate(e) => Rotate(s, e)
    case OpFlush(now) => (Flush(s, now), Ok)
    case OpConfigure(cfg) => (s.(cfg := cfg), Ok)
    case OpBackground(runs) => (Background(s, runs), Ok)
    case OpDeinit(runs) => (Deinit(s, runs), Ok)
    case OpInit(cfg, dirOk, opens, worker, now) => Init(s, cfg, dirOk, opens, worker, now)
  }

  function Run(s: State, ops: seq<Op>): State
    decreases |ops|
  {
    if ops == [] then s else Run(Step(s, ops[0]).0, ops[1..])
  }

  /**
   What the program's types and its setters allow: 32-bit lengths and settings, 64-bit times, and,
   for a run about one log, the directory and base name kept.
   */
  predicate Allowed(op: Op, cfg: Config) {
    match op
    case OpWrite(data, _, _, now) => |data| < WORD && now < WORD64
    case OpFlush(now) => now < WORD64
    case OpConfigure(c) => c.Valid() && c.dir == cfg.dir && c.base == cfg.base
    case OpInit(c, _, _, _, now) => c.Valid() && c.dir == cfg.dir && c.base == cfg.base && now < WORD64
    case _ => true
  }

  predicate AllAllowed(ops: seq<Op>, cfg: Config) {
    forall i :: 0 <= i < |ops| ==> Allowed(ops[i], cfg)
  }

  /** The manager before its first Init, over any file system. */
  predicate Initial(s: State) {
    && !s.initialized && !s.open && s.tasks == [] && s.archive == [] && s.unflushed == 0 && !s.overwrote
    && s.buffered == 0 && s.size == 0 && s.lastFlush == 0 && s.cfg.Valid()
  }
}
