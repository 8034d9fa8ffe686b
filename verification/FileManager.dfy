/** The file manager's code over its global state, proved against the state machine. */
module FileManager {
  import opened Words
  import opened ErrorCodes
  import opened FileManagerModel
  import opened FileManagerRuns
  import opened FileManagerLaws
  import LogCleanup

  class Manager {
    var cfg: Config
    var initialized: bool
    var open: bool
    var size: nat
    var buffered: nat
    var lastFlush: nat
    var files: map<string, bytes>
    var tasks: seq<string>
    ghost var archive: seq<bytes>
    ghost var unflushed: nat
    ghost var overwrote: bool

    ghost function View(): State
      reads this
    {
      State(cfg, initialized, open, size, buffered, lastFlush, files, tasks, archive, unflushed, overwrote)
    }

    constructor (config: Config, disk: map<string, bytes>)
      requires config.Valid()
      ensures Initial(View()) && Sound(View()) && files == disk && cfg == config
    {
      cfg, initialized, open, size, buffered, lastFlush := config, false, false, 0, 0, 0;
      files, tasks, archive, unflushed, overwrote := disk, [], [], 0, false;
    }

    /** The probe for a free history name. */
    method FindHistoryPath(e: Rotation) returns (path: string)
      ensures path == Target(View(), e)
    {
      var n := 0;
      path := cfg.HistoryPath(e.stamp, 0);
      while n < MAX_SEQ_RETRY_COUNT
        invariant n <= MAX_SEQ_RETRY_COUNT
        invariant n < MAX_SEQ_RETRY_COUNT ==> Probe(cfg, files, e.stamp, n) == Probe(cfg, files, e.stamp, 0)
        invariant n == MAX_SEQ_RETRY_COUNT ==> path == Target(View(), e)
      {
        path := cfg.HistoryPath(e.stamp, n);
        if path !in files {
          break;
        }
        n := n + 1;
      }
    }

    method DoCompressFile(path: string, g: Gzip)
      modifies this`files
      ensures View() == DoCompress(old(View()), path, g)
      ensures files == old(files) || (path !in files && path + ".gz" in files && files[path + ".gz"] == g.packed)
    {
      if g.ok && path in files && path + ".gz" !in files {
        files := (files - {path})[path + ".gz" := g.packed];
      }
    }

    /** What the compression thread gets done in a while. */
    method RunTasks(runs: seq<Gzip>)
      modifies this`files, this`tasks
      ensures View() == Background(old(View()), runs)
    {
      var i := 0;
      while i < |runs| && tasks != []
        invariant i <= |runs|
        invariant Background(View(), runs[i..]) == Background(old(View()), runs)
      {
        var task := tasks[0];
        tasks := tasks[1..];
        DoCompressFile(task, runs[i]);
        i := i + 1;
      }
    }

    /** rename of the current log. */
    method MoveLog(to: string)
      requires cfg.CurrentPath() in files
      modifies this`files, this`archive, this`overwrote
      ensures View() == Rename(old(View()), to)
      ensures to in files && files[to] == old(files[cfg.CurrentPath()])
    {
      var content := files[cfg.CurrentPath()];
      archive, overwrote := archive + [content], overwrote || to in files;
      files := (files - {cfg.CurrentPath()})[to := content];
    }

    method RenameWithRetry(to: string, attempts: seq<Attempt>) returns (renamed: bool)
      modifies this`files, this`tasks, this`archive, this`overwrote
      ensures (View(), renamed) == TryRename(old(View()), to, attempts, cfg.rotateRetryCount)
    {
      var retry := 0;
      ghost var goal := TryRename(View(), to, attempts, cfg.rotateRetryCount);
      while retry < cfg.rotateRetryCount && retry < |attempts|
        invariant retry <= cfg.rotateRetryCount && retry <= |attempts|
        invariant TryRename(View(), to, attempts[retry..], cfg.rotateRetryCount - retry) == goal
      {
        var a := attempts[retry];
        assert attempts[retry..][0] == a && attempts[retry..][1..] == attempts[retry + 1..];
        RunTasks(a.meanwhile);
        if a.ok && cfg.CurrentPath() in files {
          MoveLog(to);
          return true;
        }
        retry := retry + 1;
      }
      return false;
    }

    method SubmitCompression(path: string, e: Rotation)
      modifies this`files, this`tasks
      ensures View() == CompressFile(old(View()), path, e)
      ensures files == old(files) || (tasks == old(tasks) && path !in files)
      ensures path !in tasks ==> tasks == old(tasks)
    {
      if !cfg.enableCompression {
        return;
      }
      if cfg.compressMode == CompressAsync {
        if e.queueHasRoom {
          tasks := tasks + [path];
        }
      } else {
        DoCompressFile(path, e.gzip);
      }
    }

    method CleanOldFiles(e: Rotation)
      modifies this`files
      ensures View() == CleanUp(old(View()), e)
    {
      var rc, unlinked := LogCleanup.CleanOldFiles(cfg.dir, cfg.base, e.scan, cfg.maxFileCount);
      files := files - Removable(unlinked, e.unlinkable);
    }

    /** fopen in append mode. */
    method OpenLog()
      modifies this`open, this`files
      ensures View() == OpenAppend(old(View()))
      ensures open && cfg.CurrentPath() in files && files[cfg.CurrentPath()] == old(View().Current())
    {
      var content := if cfg.CurrentPath() in files then files[cfg.CurrentPath()] else [];
      open, files := true, files[cfg.CurrentPath() := content];
    }

    method RotateFile(e: Rotation) returns (rc: Code)
      modifies this
      ensures (View(), rc) == RotateInternal(old(View()), e)
    {
      var path := FindHistoryPath(e);
      if open {
        open := false;
      }
      unflushed := 0;
      var renamed := RenameWithRetry(path, e.attempts);
      if !renamed {
        if !e.reopens {
          return FileOpen;
        }
        OpenLog();
        return FileWrite;
      }
      if !e.reopens {
        return FileOpen;
      }
      BeginFile(path, e);
      return Ok;
    }

    /** fopen in write mode, and the counters of an empty file. */
    method TruncateLog()
      modifies this`open, this`files, this`size, this`buffered
      ensures View() == OpenTruncate(old(View())).(size := 0, buffered := 0)
      ensures open && size == 0 && buffered == 0
    {
      open, files := true, files[cfg.CurrentPath() := []];
      size, buffered := 0, 0;
    }

    /** After a rename: a new file, and the old one is compressed and the surplus deleted. */
    method BeginFile(path: string, e: Rotation)
      modifies this
      ensures View() == FileManagerModel.BeginFile(old(View()), path, e)
      ensures open && size == 0 && buffered == 0 && archive == old(archive)
    {
      TruncateLog();
      SubmitCompression(path, e);
      RunTasks(e.afterwards);
      CleanOldFiles(e);
    }

    method Settle(len: nat, now: nat)
      modifies this
      ensures View() == Settled(old(View()), len, now)
      ensures unflushed == old(unflushed) || (unflushed == 0 && buffered == 0)
    {
      size := (size + len) % WORD;
      if cfg.flushMode == FlushSync {
        unflushed, buffered := 0, 0;
      } else {
        buffered := (buffered + len) % WORD64;
        if buffered >= cfg.asyncFlushSize || (now - lastFlush) % WORD64 >= cfg.asyncFlushIntervalMs {
          unflushed, buffered, lastFlush := 0, 0, now;
        }
      }
    }

    method StoreBytes(some: bytes)
      modifies this`files, this`unflushed
      ensures View() == Stored(old(View()), some)
    {
      var content := if cfg.CurrentPath() in files then files[cfg.CurrentPath()] else [];
      files := files[cfg.CurrentPath() := content + some];
      unflushed := unflushed + |some|;
    }

    /** fwrite and what follows it. */
    method Put(data: bytes, taken: nat, now: nat) returns (rc: Code)
      modifies this
      ensures (View(), rc) == Append(old(View()), data, taken, now)
      ensures rc == Ok <==> taken >= |data|
      ensures View().Current() == old(View().Current()) + (if rc == Ok then data else data[..taken])
    {
      AppendCurrent(View(), data, taken, now);
      var some := if taken < |data| then data[..taken] else data;
      StoreBytes(some);
      if |some| != |data| {
        return FileWrite;
      }
      Settle(|data|, now);
      return Ok;
    }

    method WriteLocked(data: bytes, e: Rotation, taken: nat, now: nat) returns (rc: Code)
      modifies this
      ensures (View(), rc) == WriteRaw(old(View()), data, e, taken, now)
    {
      if data == [] {
        return InvalidArg;
      }
      if !initialized || !open {
        return FileManagerNotInit;
      }
      assert MustRotate(View(), data) <==> (size + |data|) % WORD >= cfg.maxFileSize;
      if (size + |data|) % WORD >= cfg.maxFileSize {
        rc := RotateFile(e);
        if rc != Ok {
          return;
        }
        assert (View(), Ok) == RotateInternal(old(View()), e);
      }
      rc := Put(data, taken, now);
    }

    method Write(data: bytes, e: Rotation, taken: nat, now: nat) returns (rc: Code)
      requires Sound(View()) && |data| < WORD && now < WORD64
      modifies this
      ensures (View(), rc) == WriteRaw(old(View()), data, e, taken, now)
      ensures Sound(View())
      ensures data == [] ==> rc == InvalidArg && View() == old(View())
      ensures data != [] && !old(initialized && open) ==> rc == FileManagerNotInit && View() == old(View())
      ensures data != [] && old(initialized && open) ==> Written(old(View()), data, e, taken, View(), rc)
      ensures rc == Ok ==>
        View().Current() == (if archive == old(archive) then old(View().Current()) else []) + data
    {
      WriteEffects(View(), data, e, taken, now);
      WriteLaw(View(), data, e, taken, now);
      rc := WriteLocked(data, e, taken, now);
    }

    method RotateNow(e: Rotation) returns (rc: Code)
      requires Sound(View())
      modifies this
      ensures (View(), rc) == Rotate(old(View()), e) && Sound(View())
      ensures if old(initialized) then Rotated(old(View()), e, View(), rc) else rc == FileManagerNotInit && View() == old(View())
    {
      RotateShape(View(), OpRotate(e));
      RotateLaw(View(), e);
      if !initialized {
        return FileManagerNotInit;
      }
      rc := RotateFile(e);
    }

    method FlushNow(now: nat)
      requires Sound(View()) && now < WORD64
      modifies this
      ensures View() == Flush(old(View()), now) && Sound(View())
      ensures files == old(files) && archive == old(archive) && unflushed == 0
      ensures if open then buffered == 0 && lastFlush == now else View() == old(View())
    {
      if open {
        unflushed, buffered, lastFlush := 0, 0, now;
      }
    }

    method Shutdown(runs: seq<Gzip>)
      requires Sound(View())
      modifies this
      ensures View() == Deinit(old(View()), runs) && Sound(View())
      ensures !initialized && !open && tasks == [] && unflushed == 0
      ensures View().Current() == old(View().Current()) && archive == old(archive)
    {
      DeinitShape(View(), runs);
      if open {
        open := false;
      }
      unflushed, initialized := 0, false;
      RunTasks(runs);
      tasks := [];
    }

    method MeasureLog()
      modifies this`open, this`files, this`size, this`tasks
      ensures View() == Measured(old(View()))
    {
      OpenLog();
      size, tasks := |files[cfg.CurrentPath()]| % WORD, [];
    }

    /** The end of Init, once the file is open. */
    method StartWorker(worker: Code, now: nat) returns (rc: Code)
      modifies this`open, this`unflushed, this`buffered, this`lastFlush, this`initialized
      ensures rc == worker
      ensures View() == if worker != Ok then Close(old(View()))
                        else old(View()).(buffered := 0, lastFlush := now, initialized := true)
    {
      if worker != Ok {
        open, unflushed := false, 0;
        return worker;
      }
      buffered, lastFlush := 0, now;
      initialized := true;
      return Ok;
    }

    method StartLocked(config: Config, dirOk: bool, opens: bool, worker: Code, now: nat) returns (rc: Code)
      modifies this
      ensures (View(), rc) == Init(old(View()), config, dirOk, opens, worker, now)
    {
      if initialized {
        return Ok;
      }
      cfg := config;
      if !dirOk || !opens {
        return FileOpen;
      }
      MeasureLog();
      rc := StartWorker(worker, now);
    }

    /** Whatever fails, the log keeps its content; on success it is open and its size is known. */
    method Start(config: Config, dirOk: bool, opens: bool, worker: Code, now: nat) returns (rc: Code)
      requires Sound(View()) && Allowed(OpInit(config, dirOk, opens, worker, now), cfg)
      modifies this
      ensures (View(), rc) == Init(old(View()), config, dirOk, opens, worker, now) && Sound(View())
      ensures View().Current() == old(View().Current()) && archive == old(archive)
      ensures rc == if old(initialized) then Ok else if !dirOk || !opens then FileOpen else worker
      ensures rc == Ok && !old(initialized) ==>
        && initialized && open && size == |View().Current()| % WORD && cfg == config
        && buffered == 0 && unflushed == 0 && lastFlush == now && tasks == []
      ensures rc != Ok ==> !initialized && !open
    {
      InitShape(View(), config, dirOk, opens, worker, now);
      InitEffects(View(), config, dirOk, opens, worker, now);
      rc := StartLocked(config, dirOk, opens, worker, now);
    }
  }
}
