/**
  The copy executor of Application.java (sortFiles) and the guard in main that
  calls it only on a non-empty plan.

  The file system is a map from path to content plus the set of existing
  directories. What the operating system refuses is fixed by an environment:
  directory paths that cannot be created and destination paths that cannot be
  written. Files.createDirectories succeeds on a directory that already exists
  or can be created; Files.copy succeeds when its source exists and its
  destination can be written, and then replaces whatever the destination held.

  The counter is incremented after createDirectories and before Files.copy, so
  a copy that fails is still counted; only a directory that cannot be created
  leaves the counter unchanged. A progress record (copied, remaining) is
  emitted after a successful copy whose count is a multiple of ten; elapsed
  time is not kept.

  sortFiles is specified through RunOps, a fold over the plan flattened into
  one (folder, file name) operation per file, in traversal order.
 */
module Sorter {
  import opened Wrappers
  import opened Classifier

  newtype byte = x: int | 0 <= x < 256

  type Content = seq<byte>

  /** Paths.get(first, more): the two parts joined by the name separator. */
  function Join(first: string, more: string): string {
    first + "/" + more
  }

  /** What the operating system refuses. */
  datatype Env = Env(uncreatableDirs: set<string>, unwritableFiles: set<string>)

  /** The state of the file system: contents by path, and the existing directories. */
  datatype Store = Store(files: map<string, Content>, dirs: set<string>)

  /** One progress line: files copied so far and files remaining. */
  datatype Progress = Progress(copied: int, remaining: int)

  /** The state of a run: file system, counter and progress lines so far. */
  datatype Tally = Tally(store: Store, count: nat, progress: seq<Progress>)

  /** The arguments of sortFiles other than the plan. */
  datatype Job = Job(targetLocation: string, originalLocation: string, totalFiles: int)

  /** One file of the plan: its destination folder key and its name. */
  datatype Op = Op(folder: string, fileName: string)

  function SourcePath(job: Job, op: Op): string {
    Join(job.originalLocation, op.fileName)
  }

  function FolderPath(job: Job, op: Op): string {
    Join(job.targetLocation, op.folder)
  }

  function DestinationPath(job: Job, op: Op): string {
    Join(FolderPath(job, op), op.fileName)
  }

  /** Files.createDirectories does not throw: the folder exists or can be created. */
  predicate FolderReady(env: Env, dirs: set<string>, dir: string) {
    dir in dirs || dir !in env.uncreatableDirs
  }

  /** Files.copy does not throw: the source exists and the destination can be written. */
  predicate CopyWorks(env: Env, files: map<string, Content>, src: string, dst: string) {
    src in files && dst !in env.unwritableFiles
  }

  /** One iteration of the inner loop of sortFiles. */
  function CopyStep(env: Env, job: Job, t: Tally, op: Op): Tally {
    var dir := FolderPath(job, op);
    if !FolderReady(env, t.store.dirs, dir) then t
    else
      var dirs := t.store.dirs + {dir};
      var count := t.count + 1;
      var src, dst := SourcePath(job, op), DestinationPath(job, op);
      if !CopyWorks(env, t.store.files, src, dst) then Tally(Store(t.store.files, dirs), count, t.progress)
      else
        var files := t.store.files[dst := t.store.files[src]];
        var progress := if count % 10 == 0 then t.progress + [Progress(count, job.totalFiles - count)] else t.progress;
        Tally(Store(files, dirs), count, progress)
  }

  /** The run of the operations in order, from the given state. */
  function RunOps(env: Env, job: Job, t: Tally, ops: seq<Op>): Tally {
    if ops == [] then t
    else CopyStep(env, job, RunOps(env, job, t, ops[..|ops| - 1]), ops[|ops| - 1])
  }

  /** The operations of one folder: one per file, in list order. */
  function FolderOps(folder: string, fileList: seq<string>): (ops: seq<Op>)
    ensures |ops| == |fileList|
    ensures forall i :: 0 <= i < |fileList| ==> ops[i] == Op(folder, fileList[i])
  {
    seq(|fileList|, i requires 0 <= i < |fileList| => Op(folder, fileList[i]))
  }

  /** The plan flattened in traversal order: the folders of order, each with its whole list. */
  function Ops(plan: Plan, order: seq<string>): (ops: seq<Op>)
    requires forall f :: f in order ==> f in plan
  {
    if order == [] then []
    else
      var last := order[|order| - 1];
      Ops(plan, order[..|order| - 1]) + FolderOps(last, plan[last])
  }

  /** The file system as seen by sortFiles. */
  class FileSystem {
    var files: map<string, Content>
    var dirs: set<string>
    const env: Env

    constructor (files: map<string, Content>, dirs: set<string>, env: Env)
      ensures this.files == files && this.dirs == dirs && this.env == env
    {
      this.files := files;
      this.dirs := dirs;
      this.env := env;
    }

    function State(): Store
      reads this
    {
      Store(files, dirs)
    }

    /** Files.createDirectories: ok is false where the source throws IOException. */
    method CreateDirectories(dir: string) returns (ok: bool)
      modifies this
      ensures ok == FolderReady(env, old(dirs), dir)
      ensures files == old(files)
      ensures dirs == if ok then old(dirs) + {dir} else old(dirs)
    {
      ok := FolderReady(env, dirs, dir);
      if ok {
        dirs := dirs + {dir};
      }
    }

    /** Files.copy with REPLACE_EXISTING: ok is false where the source throws IOException. */
    method Copy(originalPath: string, copiedFilePath: string) returns (ok: bool)
      modifies this
      ensures ok == CopyWorks(env, old(files), originalPath, copiedFilePath)
      ensures dirs == old(dirs)
      ensures files == if ok then old(files)[copiedFilePath := old(files)[originalPath]] else old(files)
    {
      ok := CopyWorks(env, files, originalPath, copiedFilePath);
      if ok {
        files := files[copiedFilePath := files[originalPath]];
      }
    }
  }

  lemma RunOpsSnoc(env: Env, job: Job, t: Tally, ops: seq<Op>, op: Op)
    ensures RunOps(env, job, t, ops + [op]) == CopyStep(env, job, RunOps(env, job, t, ops), op)
  {
    assert (ops + [op])[..|ops|] == ops;
  }

  lemma {:induction false} RunOpsAppend(env: Env, job: Job, t: Tally, a: seq<Op>, b: seq<Op>)
    ensures RunOps(env, job, t, a + b) == RunOps(env, job, RunOps(env, job, t, a), b)
  {
    if b == [] {
      assert a + b == a;
    } else {
      var front := b[..|b| - 1];
      RunOpsAppend(env, job, t, a, front);
      assert (a + b)[..|a + b| - 1] == a + front;
    }
  }

  /**
    The inner lambda of sortFiles (fileList.forEach): each file of one folder
    in turn, continuing after a failure, with the counter and the progress
    lines threaded through.
   */
  method CopyFolder(fs: FileSystem, folderName: string, fileList: seq<string>, targetLocation: string,
                    originalLocation: string, totalFiles: int, count0: nat, progress0: seq<Progress>)
    returns (count: nat, progress: seq<Progress>)
    modifies fs
    ensures RunOps(fs.env, Job(targetLocation, originalLocation, totalFiles),
                   Tally(old(fs.State()), count0, progress0), FolderOps(folderName, fileList))
      == Tally(fs.State(), count, progress)
  {
    ghost var job := Job(targetLocation, originalLocation, totalFiles);
    ghost var start := Tally(fs.State(), count0, progress0);
    count, progress := count0, progress0;
    for j := 0 to |fileList|
      invariant RunOps(fs.env, job, start, FolderOps(folderName, fileList[..j])) == Tally(fs.State(), count, progress)
    {
      var fileName := fileList[j];
      ghost var before := Tally(fs.State(), count, progress);
      ghost var op := Op(folderName, fileName);
      var originalPath := Join(originalLocation, fileName);
      var copiedFolderPath := Join(targetLocation, folderName);
      var created := fs.CreateDirectories(copiedFolderPath);
      if created {
        var copiedFilePath := Join(copiedFolderPath, fileName);
        count := count + 1;
        var copied := fs.Copy(originalPath, copiedFilePath);
        if copied && count % 10 == 0 {
          progress := progress + [Progress(count, totalFiles - count)];
        }
      }
      assert Tally(fs.State(), count, progress) == CopyStep(fs.env, job, before, op);
      assert FolderOps(folderName, fileList[..j + 1]) == FolderOps(folderName, fileList[..j]) + [op];
      RunOpsSnoc(fs.env, job, start, FolderOps(folderName, fileList[..j]), op);
    }
    assert fileList[..|fileList|] == fileList;
  }

  /**
    sortFiles. The folders are visited in HashMap order, which is arbitrary:
    the ghost result order is the order used. count is the final value of the
    counter, progress the lines printed, in order.
   */
  method SortFiles(fs: FileSystem, newLocations: Plan, targetLocation: string,
                   originalLocation: string, totalFiles: int)
    returns (count: nat, progress: seq<Progress>, ghost order: seq<string>)
    modifies fs
    ensures Enumerates(order, newLocations.Keys)
    ensures var job := Job(targetLocation, originalLocation, totalFiles);
      RunOps(fs.env, job, Tally(old(fs.State()), 0, []), Ops(newLocations, order))
        == Tally(fs.State(), count, progress)
  {
    ghost var job := Job(targetLocation, originalLocation, totalFiles);
    ghost var start := Tally(fs.State(), 0, []);
    count, progress, order := 0, [], [];
    var remaining := newLocations.Keys;
    while remaining != {}
      invariant remaining <= newLocations.Keys
      invariant NoDuplicates(order)
      invariant forall f :: f in order ==> f in newLocations && f !in remaining
      invariant forall f :: f in newLocations && f !in remaining ==> f in order
      invariant RunOps(fs.env, job, start, Ops(newLocations, order)) == Tally(fs.State(), count, progress)
      decreases |remaining|
    {
      var folderName :| folderName in remaining;
      var fileList := newLocations[folderName];
      ghost var before := order;
      ghost var mid := Tally(fs.State(), count, progress);
      count, progress := CopyFolder(fs, folderName, fileList, targetLocation, originalLocation, totalFiles, count, progress);
      order := order + [folderName];
      remaining := remaining - {folderName};
      assert order[..|order| - 1] == before;
      RunOpsAppend(fs.env, job, start, Ops(newLocations, before), FolderOps(folderName, fileList));
      assert NoDuplicates(order) by {
        assert folderName !in before;
      }
    }
  }

  /**
    Application.main, lines 111-115: sortFiles is called only on a non-empty
    plan; on an empty one nothing is copied and the result is None.
   */
  method SortIfPlanned(fs: FileSystem, newLocations: Plan, targetLocation: string,
                       originalLocation: string, totalFiles: int)
    returns (result: Option<nat>, ghost order: seq<string>)
    modifies fs
    ensures newLocations == map[] ==> result == None && fs.State() == old(fs.State())
    ensures newLocations != map[] ==>
      && result.Some?
      && Enumerates(order, newLocations.Keys)
      && var run := RunOps(fs.env, Job(targetLocation, originalLocation, totalFiles),
                           Tally(old(fs.State()), 0, []), Ops(newLocations, order));
         run.count == result.value && run.store == fs.State()
  {
    if newLocations != map[] {
      var count, progress;
      count, progress, order := SortFiles(fs, newLocations, targetLocation, originalLocation, totalFiles);
      result := Some(count);
    } else {
      result, order := None, [];
    }
  }
}
