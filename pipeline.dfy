/**
  The path through Application.main from the directory scan to sortFiles,
  taking the answer "y" at the sorting prompt: the listing is partitioned, the
  dotted names are grouped into a plan, and the plan is copied when it is not
  empty, with totalFiles the number of dotted names.

  The plan holds each dotted name exactly once, so the counter never exceeds
  totalFiles and no progress record reports a negative number remaining.
 */
module Pipeline {
  import opened Wrappers
  import opened Classifier
  import opened Partition
  import opened Sorter
  import opened SorterProperties

  /** The file names listed under the folders of order. */
  function NamesOf(plan: Plan, order: seq<string>): (r: set<string>)
    requires forall f :: f in order ==> f in plan
    ensures forall n :: n in r <==> exists g :: g in order && n in plan[g]
  {
    if order == [] then {}
    else
      var last := order[|order| - 1];
      var front := order[..|order| - 1];
      assert forall g :: g in order <==> g in front || g == last;
      NamesOf(plan, front) + (set n | n in plan[last])
  }

  /** The flattened plan has one operation per listed name when no name is listed twice. */
  lemma {:induction false} OpsCard(plan: Plan, order: seq<string>)
    requires forall f :: f in order ==> f in plan
    requires NoDuplicates(order)
    requires forall f :: f in plan ==> NoDuplicates(plan[f])
    requires forall f, g, n :: f in plan && g in plan && n in plan[f] && n in plan[g] ==> f == g
    ensures |Ops(plan, order)| == |NamesOf(plan, order)|
  {
    if order != [] {
      var front, last := order[..|order| - 1], order[|order| - 1];
      OpsCard(plan, front);
      DistinctCard(plan[last]);
      assert last !in front;
      assert NamesOf(plan, front) !! (set n | n in plan[last]);
    }
  }

  /** In a plan that classifies fileMap, the folders of a traversal list exactly its file names. */
  lemma ClassifiedNames(plan: Plan, fileMap: map<string, string>, folders: seq<string>)
    requires Classifies(plan, fileMap, fileMap.Keys)
    requires Enumerates(folders, plan.Keys)
    ensures NamesOf(plan, folders) == fileMap.Keys
  {
    var names := NamesOf(plan, folders);
    forall n | n in fileMap
      ensures n in names
    {
      var g := FolderFor(fileMap[n]);
      assert g in plan && n in plan[g];
      assert g in folders;
    }
    forall n | n in names
      ensures n in fileMap
    {
      var g :| g in folders && n in plan[g];
      assert g in plan;
    }
  }

  /** A plan that classifies fileMap has one operation per file name of fileMap. */
  lemma ClassifiedSize(plan: Plan, fileMap: map<string, string>, folders: seq<string>)
    requires Classifies(plan, fileMap, fileMap.Keys)
    requires Enumerates(folders, plan.Keys)
    ensures |Ops(plan, folders)| == |fileMap|
  {
    assert forall f, g, n :: f in plan && g in plan && n in plan[f] && n in plan[g] ==> f == g by {
      forall f, g, n | f in plan && g in plan && n in plan[f] && n in plan[g]
        ensures f == g
      {
        assert FolderFor(fileMap[n]) == f && FolderFor(fileMap[n]) == g;
      }
    }
    OpsCard(plan, folders);
    ClassifiedNames(plan, fileMap, folders);
    assert |fileMap.Keys| == |fileMap|;
  }

  /**
    Whatever the two traversal orders, the plan built from fileMap holds one
    operation per file name of fileMap.
   */
  lemma PlanSize(order: seq<string>, fileMap: map<string, string>, folders: seq<string>)
    requires Enumerates(order, fileMap.Keys)
    requires Enumerates(folders, GroupAll(order, fileMap).Keys)
    ensures |Ops(GroupAll(order, fileMap), folders)| == |fileMap|
  {
    GroupAllClassifies(order, fileMap);
    ClassifiedSize(GroupAll(order, fileMap), fileMap, folders);
  }

  /**
    When sortFiles runs on the plan of fileMap with totalFiles the size of
    fileMap, the final count is at most totalFiles and every progress record
    has a remaining count between 0 and totalFiles.
   */
  lemma CountWithinTotal(env: Env, job: Job, s: Store, order: seq<string>, fileMap: map<string, string>,
                         folders: seq<string>)
    requires Enumerates(order, fileMap.Keys)
    requires Enumerates(folders, GroupAll(order, fileMap).Keys)
    requires job.totalFiles == |fileMap|
    ensures var r := RunOps(env, job, Tally(s, 0, []), Ops(GroupAll(order, fileMap), folders));
      && r.count <= job.totalFiles
      && forall i :: 0 <= i < |r.progress| ==> 0 <= r.progress[i].remaining < job.totalFiles
  {
    var ops := Ops(GroupAll(order, fileMap), folders);
    PlanSize(order, fileMap, folders);
    CountBounds(env, job, Tally(s, 0, []), ops);
    SortFilesProgress(env, job, s, ops);
  }

  /**
    main from the scan to the copy, answering "y": None when the listing has
    no dotted name (the "Something went wrong" branch), leaving the file system
    as it was; otherwise the final count of sortFiles run on the plan of the
    dotted names, in the orders order (names) and folders (plan keys) that the
    HashMaps happen to give, with the file system left as that run leaves it.
    The count covers every dotted name at most once.
   */
  method SortDirectory(fs: FileSystem, entries: seq<Entry>, sourceLocation: string, targetLocation: string)
    returns (result: Option<nat>, ghost order: seq<string>, ghost folders: seq<string>)
    modifies fs
    ensures Enumerates(order, Locations(entries).Keys)
    ensures result == None <==> Locations(entries) == map[]
    ensures result == None ==> fs.State() == old(fs.State())
    ensures result.Some? ==>
      && Enumerates(folders, GroupAll(order, Locations(entries)).Keys)
      && var run := RunOps(fs.env, Job(targetLocation, sourceLocation, |Locations(entries)|),
                           Tally(old(fs.State()), 0, []), Ops(GroupAll(order, Locations(entries)), folders));
         result.value == run.count && fs.State() == run.store
    ensures result.Some? ==> result.value <= |Locations(entries)|
  {
    var extensionsSet, directorySet, fileNameLocationMap, totalFileSize := PartitionEntries(entries);
    var newLocations;
    newLocations, order := GetSortedLocations(fileNameLocationMap, targetLocation);
    GroupAllEmpty(order, fileNameLocationMap);
    result, folders := SortIfPlanned(fs, newLocations, targetLocation, sourceLocation, |fileNameLocationMap|);
    if newLocations != map[] {
      CountWithinTotal(fs.env, Job(targetLocation, sourceLocation, |fileNameLocationMap|), old(fs.State()),
                       order, fileNameLocationMap, folders);
    }
  }
}
