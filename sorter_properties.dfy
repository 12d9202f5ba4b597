/**
  What a run of sortFiles guarantees, stated about RunOps and hence about
  every traversal order of the plan: how the counter moves, when progress
  lines appear, which files land where, and that a second run of the same
  plan changes nothing.
 */
module SorterProperties {
  import opened Sorter

  // ----- Directories and the counter -----

  /** The folder paths of ops that createDirectories accepts, given the directories dirs. */
  function ReadyFolders(env: Env, job: Job, dirs: set<string>, ops: seq<Op>): set<string> {
    set op | op in ops && FolderReady(env, dirs, FolderPath(job, op)) :: FolderPath(job, op)
  }

  /** The number of operations of ops whose folder createDirectories accepts. */
  function CountReady(env: Env, job: Job, dirs: set<string>, ops: seq<Op>): (n: nat)
    ensures n <= |ops|
  {
    if ops == [] then 0
    else
      var last := ops[|ops| - 1];
      CountReady(env, job, dirs, ops[..|ops| - 1]) + (if FolderReady(env, dirs, FolderPath(job, last)) then 1 else 0)
  }

  lemma ReadyFoldersSnoc(env: Env, job: Job, dirs: set<string>, ops: seq<Op>, op: Op)
    ensures ReadyFolders(env, job, dirs, ops + [op]) ==
      ReadyFolders(env, job, dirs, ops) + (if FolderReady(env, dirs, FolderPath(job, op)) then {FolderPath(job, op)} else {})
  {
    assert forall x :: x in ops + [op] <==> x in ops || x == op;
  }

  /**
    A run creates exactly the folders createDirectories accepts at the start,
    so a folder's readiness never changes during a run.
   */
  lemma {:induction false} RunDirs(env: Env, job: Job, t: Tally, ops: seq<Op>)
    ensures RunOps(env, job, t, ops).store.dirs == t.store.dirs + ReadyFolders(env, job, t.store.dirs, ops)
  {
    if ops != [] {
      var front, last := ops[..|ops| - 1], ops[|ops| - 1];
      assert ops == front + [last];
      RunDirs(env, job, t, front);
      ReadyFoldersSnoc(env, job, t.store.dirs, front, last);
      ReadyStable(env, job, t.store.dirs, front, FolderPath(job, last));
    }
  }

  /** A path is ready after the folders of ops were created exactly when it was ready before. */
  lemma ReadyStable(env: Env, job: Job, dirs: set<string>, ops: seq<Op>, dir: string)
    ensures FolderReady(env, dirs + ReadyFolders(env, job, dirs, ops), dir) == FolderReady(env, dirs, dir)
  {
  }

  /**
    The counter rises by one for every file whose folder createDirectories
    accepts, whether or not the copy then succeeds. It depends neither on the
    files present nor on what the destinations held before.
   */
  lemma {:induction false} RunCount(env: Env, job: Job, t: Tally, ops: seq<Op>)
    ensures RunOps(env, job, t, ops).count == t.count + CountReady(env, job, t.store.dirs, ops)
  {
    if ops != [] {
      var front, last := ops[..|ops| - 1], ops[|ops| - 1];
      RunCount(env, job, t, front);
      RunDirs(env, job, t, front);
      ReadyStable(env, job, t.store.dirs, front, FolderPath(job, last));
    }
  }

  /** The counter never decreases and ends at most at the number of files in the plan. */
  lemma CountBounds(env: Env, job: Job, t: Tally, ops: seq<Op>)
    ensures t.count <= RunOps(env, job, t, ops).count <= t.count + |ops|
  {
    RunCount(env, job, t, ops);
  }

  /** When every folder can be created, every file is counted, even those whose copy fails. */
  lemma {:induction false} CountAllWhenFoldersReady(env: Env, job: Job, dirs: set<string>, ops: seq<Op>)
    requires forall op :: op in ops ==> FolderReady(env, dirs, FolderPath(job, op))
    ensures CountReady(env, job, dirs, ops) == |ops|
  {
    if ops != [] {
      CountAllWhenFoldersReady(env, job, dirs, ops[..|ops| - 1]);
    }
  }

  /** A file whose copy fails after its folder was created is counted and nothing else changes. */
  lemma FailedCopyIsCounted(env: Env, job: Job, t: Tally, op: Op)
    requires FolderReady(env, t.store.dirs, FolderPath(job, op))
    requires !CopyWorks(env, t.store.files, SourcePath(job, op), DestinationPath(job, op))
    ensures CopyStep(env, job, t, op) ==
      Tally(Store(t.store.files, t.store.dirs + {FolderPath(job, op)}), t.count + 1, t.progress)
    ensures RunOps(env, job, t, [op]) ==
      Tally(Store(t.store.files, t.store.dirs + {FolderPath(job, op)}), t.count + 1, t.progress)
  {
    assert [op][..0] == [];
  }

  /** A file whose folder cannot be created leaves the whole state as it was. */
  lemma FolderFailureChangesNothing(env: Env, job: Job, t: Tally, op: Op)
    requires !FolderReady(env, t.store.dirs, FolderPath(job, op))
    ensures CopyStep(env, job, t, op) == t
  {
  }

  // ----- Progress lines -----

  /**
    The progress lines so far are well formed: each names a multiple of ten
    not above the counter, with remaining = totalFiles - copied, in strictly
    increasing order.
   */
  ghost predicate ProgressLines(progress: seq<Progress>, count: nat, totalFiles: int) {
    && (forall i :: 0 <= i < |progress| ==>
          0 < progress[i].copied <= count && progress[i].copied % 10 == 0 &&
          progress[i].remaining == totalFiles - progress[i].copied)
    && (forall i, j :: 0 <= i < j < |progress| ==> progress[i].copied < progress[j].copied)
  }

  /**
    One step adds a progress line exactly when the copy succeeds and the new
    count is a multiple of ten, and that line carries the new count.
   */
  lemma StepProgress(env: Env, job: Job, t: Tally, op: Op)
    ensures var r := CopyStep(env, job, t, op);
      var emitted := FolderReady(env, t.store.dirs, FolderPath(job, op)) &&
        CopyWorks(env, t.store.files, SourcePath(job, op), DestinationPath(job, op)) &&
        (t.count + 1) % 10 == 0;
      r.progress == t.progress + (if emitted then [Progress(t.count + 1, job.totalFiles - (t.count + 1))] else [])
  {
  }

  /** Every run keeps the progress lines well formed. */
  lemma {:induction false} RunKeepsProgressLines(env: Env, job: Job, t: Tally, ops: seq<Op>)
    requires ProgressLines(t.progress, t.count, job.totalFiles)
    ensures var r := RunOps(env, job, t, ops); ProgressLines(r.progress, r.count, job.totalFiles)
  {
    if ops != [] {
      RunKeepsProgressLines(env, job, t, ops[..|ops| - 1]);
      StepKeepsProgressLines(env, job, RunOps(env, job, t, ops[..|ops| - 1]), ops[|ops| - 1]);
    }
  }

  /** One step keeps the progress lines well formed: a new line carries a larger count than all before it. */
  lemma StepKeepsProgressLines(env: Env, job: Job, m: Tally, op: Op)
    requires ProgressLines(m.progress, m.count, job.totalFiles)
    ensures var r := CopyStep(env, job, m, op); ProgressLines(r.progress, r.count, job.totalFiles)
  {
    var r := CopyStep(env, job, m, op);
    StepProgress(env, job, m, op);
    assert m.count <= r.count;
    if |r.progress| > |m.progress| {
      assert r.progress == m.progress + [Progress(m.count + 1, job.totalFiles - (m.count + 1))];
      assert r.count == m.count + 1;
    } else {
      assert r.progress == m.progress;
    }
  }

  /** The progress lines of a run of sortFiles, which starts from count 0 and no lines. */
  lemma SortFilesProgress(env: Env, job: Job, s: Store, ops: seq<Op>)
    ensures var r := RunOps(env, job, Tally(s, 0, []), ops); ProgressLines(r.progress, r.count, job.totalFiles)
  {
    RunKeepsProgressLines(env, job, Tally(s, 0, []), ops);
  }

  /** The lines expected when the counter moves from lo to hi by successful copies. */
  function Milestones(lo: nat, hi: nat, totalFiles: int): seq<Progress>
    decreases hi
  {
    if hi <= lo then []
    else Milestones(lo, hi - 1, totalFiles) + (if hi % 10 == 0 then [Progress(hi, totalFiles - hi)] else [])
  }

  /** Every file of ops would be copied from the state s. */
  ghost predicate AllSucceed(env: Env, job: Job, s: Store, ops: seq<Op>) {
    forall op :: op in ops ==> Succeeds(env, job, s, op)
  }

  /** A run only adds directories and file paths. */
  lemma {:induction false} RunGrows(env: Env, job: Job, t: Tally, ops: seq<Op>)
    ensures t.store.dirs <= RunOps(env, job, t, ops).store.dirs
    ensures t.store.files.Keys <= RunOps(env, job, t, ops).store.files.Keys
  {
    if ops != [] {
      RunGrows(env, job, t, ops[..|ops| - 1]);
    }
  }

  /** A successful step counts the file and prints a line when the new count is a multiple of ten. */
  lemma StepSucceeds(env: Env, job: Job, m: Tally, op: Op)
    requires Succeeds(env, job, m.store, op)
    ensures var r, hi := CopyStep(env, job, m, op), m.count + 1;
      r.count == hi && r.progress == m.progress + Milestones(hi - 1, hi, job.totalFiles)
  {
  }

  /** A copy that would succeed before a run still succeeds after it. */
  lemma SucceedsLater(env: Env, job: Job, t: Tally, ops: seq<Op>, op: Op)
    requires Succeeds(env, job, t.store, op)
    ensures Succeeds(env, job, RunOps(env, job, t, ops).store, op)
  {
    RunGrows(env, job, t, ops);
  }

  /** When every copy succeeds, each file is counted and a line appears at every tenth. */
  lemma {:induction false} RunAllSucceed(env: Env, job: Job, t: Tally, ops: seq<Op>)
    requires AllSucceed(env, job, t.store, ops)
    ensures RunOps(env, job, t, ops).count == t.count + |ops|
    ensures RunOps(env, job, t, ops).progress == t.progress + Milestones(t.count, t.count + |ops|, job.totalFiles)
  {
    if ops != [] {
      var front, last := ops[..|ops| - 1], ops[|ops| - 1];
      assert AllSucceed(env, job, t.store, front) by {
        assert forall op :: op in front ==> op in ops;
      }
      RunAllSucceed(env, job, t, front);
      var m := RunOps(env, job, t, front);
      var hi := t.count + |ops|;
      assert Succeeds(env, job, t.store, last) by {
        assert last in ops;
      }
      SucceedsLater(env, job, t, front, last);
      StepSucceeds(env, job, m, last);
      assert RunOps(env, job, t, ops) == CopyStep(env, job, m, last);
      var early, late := Milestones(t.count, hi - 1, job.totalFiles), Milestones(hi - 1, hi, job.totalFiles);
      calc {
        RunOps(env, job, t, ops).progress;
        m.progress + late;
        (t.progress + early) + late;
        t.progress + (early + late);
        { MilestonesSplit(t.count, hi - 1, hi, job.totalFiles); }
        t.progress + Milestones(t.count, hi, job.totalFiles);
      }
    }
  }

  lemma {:induction false} MilestonesSplit(lo: nat, mid: nat, hi: nat, totalFiles: int)
    requires lo <= mid <= hi
    ensures Milestones(lo, hi, totalFiles) == Milestones(lo, mid, totalFiles) + Milestones(mid, hi, totalFiles)
    decreases hi
  {
    if mid < hi {
      MilestonesSplit(lo, mid, hi - 1, totalFiles);
    }
  }

  /** No line is expected while the counter passes no multiple of ten. */
  lemma {:induction false} NoMilestone(lo: nat, hi: nat, totalFiles: int)
    requires forall k :: lo < k <= hi ==> k % 10 != 0
    ensures Milestones(lo, hi, totalFiles) == []
    decreases hi
  {
    if lo < hi {
      NoMilestone(lo, hi - 1, totalFiles);
    }
  }

  /** For 25 files the lines come at 10 and at 20 and nowhere else. */
  lemma TwentyFiveMilestones()
    ensures Milestones(0, 25, 25) == [Progress(10, 15), Progress(20, 5)]
  {
    assert forall k :: 10 < k <= 19 ==> k % 10 == k - 10;
    assert forall k :: 20 < k <= 25 ==> k % 10 == k - 20;
    NoMilestone(0, 9, 25);
    NoMilestone(10, 19, 25);
    NoMilestone(20, 25, 25);
    MilestonesSplit(0, 9, 10, 25);
    MilestonesSplit(0, 10, 19, 25);
    MilestonesSplit(0, 19, 20, 25);
    MilestonesSplit(0, 20, 25, 25);
    assert Milestones(9, 10, 25) == [Progress(10, 15)];
    assert Milestones(19, 20, 25) == [Progress(20, 5)];
  }

  /** A run of 25 files that all copy, with totalFiles 25, prints exactly two lines: at 10 and at 20. */
  lemma TwentyFiveFiles(env: Env, s: Store, job: Job, ops: seq<Op>)
    requires |ops| == 25 && job.totalFiles == 25
    requires AllSucceed(env, job, s, ops)
    ensures RunOps(env, job, Tally(s, 0, []), ops).progress == [Progress(10, 15), Progress(20, 5)]
  {
    RunAllSucceed(env, job, Tally(s, 0, []), ops);
    TwentyFiveMilestones();
  }

  // ----- Where the files land -----

  /** The copy of an operation succeeds from the state s. */
  predicate Succeeds(env: Env, job: Job, s: Store, op: Op) {
    FolderReady(env, s.dirs, FolderPath(job, op)) &&
    CopyWorks(env, s.files, SourcePath(job, op), DestinationPath(job, op))
  }

  /** The destination paths written by a run from s, with the contents they receive. */
  function Writes(env: Env, job: Job, s: Store, ops: seq<Op>): map<string, Content> {
    if ops == [] then map[]
    else
      var w, last := Writes(env, job, s, ops[..|ops| - 1]), ops[|ops| - 1];
      if Succeeds(env, job, s, last) then w[DestinationPath(job, last) := s.files[SourcePath(job, last)]] else w
  }

  function Destinations(job: Job, ops: seq<Op>): set<string> {
    set op | op in ops :: DestinationPath(job, op)
  }

  /** No destination of the plan is the source of one of its files. */
  ghost predicate Separated(job: Job, ops: seq<Op>) {
    forall x, y :: x in ops && y in ops ==> DestinationPath(job, x) != SourcePath(job, y)
  }

  /**
    A destination of the plan that is also the source of one of its files is
    the source of its own file: the only overlap is a file copied onto itself.
   */
  ghost predicate SelfCopiesOnly(job: Job, ops: seq<Op>) {
    forall x, y :: x in ops && y in ops && DestinationPath(job, x) == SourcePath(job, y) ==>
      SourcePath(job, x) == DestinationPath(job, x)
  }

  /** Two files of the plan with the same destination have the same source. */
  ghost predicate Consistent(job: Job, ops: seq<Op>) {
    forall x, y :: x in ops && y in ops && DestinationPath(job, x) == DestinationPath(job, y) ==>
      SourcePath(job, x) == SourcePath(job, y)
  }

  /** Only destinations are written. */
  lemma {:induction false} WritesKeys(env: Env, job: Job, s: Store, ops: seq<Op>)
    ensures Writes(env, job, s, ops).Keys <= Destinations(job, ops)
  {
    if ops != [] {
      var front := ops[..|ops| - 1];
      WritesKeys(env, job, s, front);
      assert forall op :: op in front ==> op in ops;
    }
  }

  /** A path written only by copies of itself keeps its initial content in the writes. */
  lemma {:induction false} WritesSelf(env: Env, job: Job, s: Store, ops: seq<Op>, q: string)
    requires forall x :: x in ops && DestinationPath(job, x) == q ==> SourcePath(job, x) == q
    ensures q in Writes(env, job, s, ops) ==> q in s.files && Writes(env, job, s, ops)[q] == s.files[q]
  {
    if ops != [] {
      var front, last := ops[..|ops| - 1], ops[|ops| - 1];
      assert forall op :: op in front ==> op in ops;
      assert last in ops;
      WritesSelf(env, job, s, front, q);
    }
  }

  /**
    When the only overlap of destinations and sources is a file copied onto
    itself, a run leaves the files it started with overridden by its writes,
    each write carrying its source's initial content.
   */
  lemma {:induction false} RunFiles(env: Env, job: Job, t: Tally, ops: seq<Op>)
    requires SelfCopiesOnly(job, ops)
    ensures RunOps(env, job, t, ops).store.files == t.store.files + Writes(env, job, t.store, ops)
  {
    if ops != [] {
      var front, last := ops[..|ops| - 1], ops[|ops| - 1];
      assert forall op :: op in front ==> op in ops;
      assert last in ops;
      RunFiles(env, job, t, front);
      RunDirs(env, job, t, front);
      ReadyStable(env, job, t.store.dirs, front, FolderPath(job, last));
      WritesSelf(env, job, t.store, front, SourcePath(job, last));
    }
  }

  /** Each file that can be copied at the start is written from its source. */
  lemma {:induction false} WritesDeliver(env: Env, job: Job, s: Store, ops: seq<Op>, x: Op)
    requires Consistent(job, ops)
    requires x in ops && Succeeds(env, job, s, x)
    ensures DestinationPath(job, x) in Writes(env, job, s, ops)
    ensures Writes(env, job, s, ops)[DestinationPath(job, x)] == s.files[SourcePath(job, x)]
  {
    var front, last := ops[..|ops| - 1], ops[|ops| - 1];
    assert ops == front + [last];
    assert forall op :: op in front ==> op in ops;
    if x in front {
      WritesDeliver(env, job, s, front, x);
    }
  }

  /**
    Copying continues past failures: every file that can be copied when the run
    starts ends with its source's content at its destination, whatever failed
    before or after it; every path that is no destination keeps its content.
   */
  lemma RunDelivers(env: Env, job: Job, t: Tally, ops: seq<Op>)
    requires SelfCopiesOnly(job, ops) && Consistent(job, ops)
    ensures var files := RunOps(env, job, t, ops).store.files;
      && (forall x :: x in ops && Succeeds(env, job, t.store, x) ==>
            DestinationPath(job, x) in files && files[DestinationPath(job, x)] == t.store.files[SourcePath(job, x)])
      && (forall p :: p !in Destinations(job, ops) ==>
            (p in files <==> p in t.store.files) && (p in files ==> files[p] == t.store.files[p]))
  {
    RunFiles(env, job, t, ops);
    WritesKeys(env, job, t.store, ops);
    forall x | x in ops && Succeeds(env, job, t.store, x)
      ensures var files := RunOps(env, job, t, ops).store.files;
        DestinationPath(job, x) in files && files[DestinationPath(job, x)] == t.store.files[SourcePath(job, x)]
    {
      WritesDeliver(env, job, t.store, ops, x);
    }
  }

  /** Writes depend on the state only through readiness and the sources of the plan. */
  lemma {:induction false} WritesAgree(env: Env, job: Job, s0: Store, s1: Store, ops: seq<Op>)
    requires forall op :: op in ops ==>
      && FolderReady(env, s0.dirs, FolderPath(job, op)) == FolderReady(env, s1.dirs, FolderPath(job, op))
      && (SourcePath(job, op) in s0.files <==> SourcePath(job, op) in s1.files)
      && (SourcePath(job, op) in s0.files ==> s0.files[SourcePath(job, op)] == s1.files[SourcePath(job, op)])
    ensures Writes(env, job, s0, ops) == Writes(env, job, s1, ops)
  {
    if ops != [] {
      var front := ops[..|ops| - 1];
      assert forall op :: op in front ==> op in ops;
      WritesAgree(env, job, s0, s1, front);
    }
  }

  /**
    Running the same operations a second time, from the state the first run
    left, leaves that state unchanged: every copy overwrites its destination
    with the same content and every folder already exists.
   */
  lemma RunTwice(env: Env, job: Job, t: Tally, ops: seq<Op>, count: nat, progress: seq<Progress>)
    requires SelfCopiesOnly(job, ops)
    ensures var s1 := RunOps(env, job, t, ops).store;
      RunOps(env, job, Tally(s1, count, progress), ops).store == s1
  {
    var s0 := t.store;
    var s1 := RunOps(env, job, t, ops).store;
    var t1 := Tally(s1, count, progress);
    RunFiles(env, job, t, ops);
    RunFiles(env, job, t1, ops);
    RunDirs(env, job, t, ops);
    RunDirs(env, job, t1, ops);
    forall op | op in ops
      ensures FolderReady(env, s0.dirs, FolderPath(job, op)) == FolderReady(env, s1.dirs, FolderPath(job, op))
      ensures var q := SourcePath(job, op); q in Writes(env, job, s0, ops) ==> q in s0.files && Writes(env, job, s0, ops)[q] == s0.files[q]
    {
      ReadyStable(env, job, s0.dirs, ops, FolderPath(job, op));
      WritesSelf(env, job, s0, ops, SourcePath(job, op));
    }
    WritesAgree(env, job, s0, s1, ops);
    var w := Writes(env, job, s0, ops);
    assert s1.files + w == s1.files;
    assert ReadyFolders(env, job, s1.dirs, ops) == ReadyFolders(env, job, s0.dirs, ops);
  }

  // ----- When the hypotheses hold -----

  /** Two joins with separator-free names that give the same path have the same directory and name. */
  lemma JoinNameDetermined(a: string, n: string, b: string, m: string)
    requires '/' !in n && '/' !in m
    requires Join(a, n) == Join(b, m)
    ensures a == b && n == m
  {
    var s := Join(a, n);
    forall i | |a| < i < |s|
      ensures s[i] != '/'
    {
      assert s[i] == n[i - |a| - 1];
    }
    forall i | |b| < i < |s|
      ensures s[i] != '/'
    {
      assert s[i] == m[i - |b| - 1];
    }
    assert s[|a|] == '/' && s[|b|] == '/';
    assert |a| == |b|;
    assert m == s[|b| + 1..];
    assert n == s[|a| + 1..];
    assert a == s[..|a|];
    assert b == s[..|b|];
  }

  /**
    File names as listFiles gives them hold no separator; then two files with
    the same destination have the same name, hence the same source.
   */
  lemma NoSeparatorConsistent(job: Job, ops: seq<Op>)
    requires forall op :: op in ops ==> '/' !in op.fileName
    ensures Consistent(job, ops)
  {
    forall x, y | x in ops && y in ops && DestinationPath(job, x) == DestinationPath(job, y)
      ensures SourcePath(job, x) == SourcePath(job, y)
    {
      JoinNameDetermined(FolderPath(job, x), x.fileName, FolderPath(job, y), y.fileName);
    }
  }

  /** A plan where no destination is a source has no overlap at all, so in particular only self-copies. */
  lemma SeparatedSelfCopiesOnly(job: Job, ops: seq<Op>)
    requires Separated(job, ops)
    ensures SelfCopiesOnly(job, ops)
  {
  }

  /**
    With names without a separator, a destination that is a source has the
    file's own name in the file's own folder, so it is that file's source: for
    every target, the only overlap is a file copied onto itself.
   */
  lemma NoSeparatorSelfCopiesOnly(job: Job, ops: seq<Op>)
    requires forall op :: op in ops ==> '/' !in op.fileName
    ensures SelfCopiesOnly(job, ops)
  {
    forall x, y | x in ops && y in ops && DestinationPath(job, x) == SourcePath(job, y)
      ensures SourcePath(job, x) == DestinationPath(job, x)
    {
      JoinNameDetermined(FolderPath(job, x), x.fileName, job.originalLocation, y.fileName);
    }
  }

  /**
    With the default target (the source directory itself) and names without a
    separator, no destination, which lies under a folder key, is a source.
   */
  lemma DefaultTargetSeparated(job: Job, ops: seq<Op>)
    requires job.targetLocation == job.originalLocation
    requires forall op :: op in ops ==> '/' !in op.fileName
    ensures Separated(job, ops)
  {
    forall x, y | x in ops && y in ops
      ensures DestinationPath(job, x) != SourcePath(job, y)
    {
      var root := job.targetLocation;
      var rest := x.folder + "/" + x.fileName;
      assert DestinationPath(job, x) == root + "/" + rest;
      assert rest[|x.folder|] == '/';
      assert DestinationPath(job, x)[|root| + 1..] == rest;
      assert SourcePath(job, y)[|root| + 1..] == y.fileName;
      assert rest != y.fileName;
    }
  }
}
