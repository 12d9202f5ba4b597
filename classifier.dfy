/**
  The classifier of Application.java: the built-in extension table
  (fileFormatMap) and getSortedLocations, which groups file names under
  "Sorted/<category>" folder keys.

  A plan maps a folder key to the list of file names destined there, in the
  order they were added. getSortedLocations visits its input map in HashMap
  order, which nothing specifies; the method below chooses each next key
  arbitrarily and reports, as a ghost result, the order it used. Everything
  proved about the result holds for every such order.
 */
module Classifier {
  import opened Text

  type Plan = map<string, seq<string>>

  const Root := "Sorted/"
  const DefaultCategory := "Misc"

  /** fileFormatMap: lower-case extension without its dot to category folder. */
  const FileFormatTable: map<string, string> := map[
    "exe" := "Executables", "msi" := "Executables",
    "img" := "Images", "jpg" := "Images", "jpeg" := "Images", "png" := "Images",
    "gif" := "Images", "svg" := "Images", "tiff" := "Images", "raw" := "Images",
    "bmp" := "Images", "mp3" := "Music", "avi" := "Videos", "mp4" := "Videos",
    "webm" := "Videos", "mkv" := "Videos", "doc" := "Documents/Word Documents",
    "ppt" := "Documents/Presentations", "pptx" := "Documents/Presentations",
    "docx" := "Documents/Word Documents", "csv" := "Documents/Excel Documents",
    "xls" := "Documents/Excel Documents", "xlsx" := "Documents/Excel Documents",
    "pdf" := "Documents/Pdf Documents", "txt" := "Documents/Text Files", "zip" := "Zip Files",
    "gz" := "Zip Files", "tgz" := "Zip Files"
  ]

  /** An extension as the table is keyed: every dot removed, then lower-cased. */
  function Normalise(extension: string): string {
    ToLower(RemoveDots(extension))
  }

  /** The destination folder key for a file with the given extension. */
  function FolderFor(extension: string): string {
    var key := Normalise(extension);
    Root + (if key in FileFormatTable then FileFormatTable[key] else DefaultCategory)
  }

  /** A table key is already in normal form: lower case, without a dot. */
  predicate IsNormalKey(k: string) {
    '.' !in k && forall i :: 0 <= i < |k| ==> !IsUpper(k[i])
  }

  /** Every key of the table is a lower-case extension without a dot. */
  lemma TableKeysAreNormal()
    ensures forall k :: k in FileFormatTable ==> IsNormalKey(k)
  {
    TableKeysListed();
    KeysFrontNormal();
    KeysBackNormal();
  }

  lemma KeysFrontNormal()
    ensures forall k :: k in TableKeysFront ==> IsNormalKey(k)
  {
  }

  lemma KeysBackNormal()
    ensures forall k :: k in TableKeysBack ==> IsNormalKey(k)
  {
  }

  /** No category of the table is the default one. */
  lemma TableHasNoMisc()
    ensures DefaultCategory !in FileFormatTable.Values
  {
  }

  /** Normalising an extension already in normal form gives it back. */
  lemma NormaliseOfNormal(k: string)
    requires IsNormalKey(k)
    ensures Normalise(k) == k
  {
    ToLowerOfLower(k);
  }

  /**
    A file whose extension is ".k", for a table key k, goes to
    "Sorted/" + table[k], whatever the case in which k is written.
   */
  lemma FolderForTableKey(k: string)
    requires k in FileFormatTable
    ensures FolderFor("." + k) == Root + FileFormatTable[k]
    ensures FolderFor("." + ToUpper(k)) == Root + FileFormatTable[k]
  {
    TableKeysAreNormal();
    RemoveDotsFront('.', k);
    NormaliseOfNormal(k);
    FolderForIgnoresCase("." + k);
    assert ToUpper("." + k) == "." + ToUpper(k);
  }

  /** The lookup ignores case: upper- or lower-casing an extension keeps its folder. */
  lemma FolderForIgnoresCase(extension: string)
    ensures FolderFor(ToUpper(extension)) == FolderFor(extension)
    ensures FolderFor(ToLower(extension)) == FolderFor(extension)
  {
    RemoveDotsOfUpper(extension);
    ToLowerOfUpper(RemoveDots(extension));
    RemoveDotsOfLower(extension);
    ToLowerIdempotent(RemoveDots(extension));
  }

  /** A file lands in "Sorted/Misc" exactly when its normalised extension is not in the table. */
  lemma FolderForMisc(extension: string)
    ensures FolderFor(extension) == Root + DefaultCategory <==> Normalise(extension) !in FileFormatTable
  {
    var key := Normalise(extension);
    if key in FileFormatTable {
      TableHasNoMisc();
      assert FileFormatTable[key] in FileFormatTable.Values;
      assert FolderFor(extension)[|Root|..] == FileFormatTable[key];
    }
  }

  /** An extension that normalises to a table key goes to that key's folder. */
  lemma FolderForKey(extension: string, key: string)
    requires Normalise(extension) == key && key in FileFormatTable
    ensures FolderFor(extension) == Root + FileFormatTable[key]
  {
  }

  /** ".jpg" and ".JPG" both normalise to the key "jpg". */
  lemma NormaliseJpg()
    ensures Normalise(".jpg") == "jpg"
    ensures Normalise(".JPG") == "jpg"
  {
    JpgDropsDot();
    JpgUpper();
    calc {
      Normalise(".JPG");
      ToLower(RemoveDots(ToUpper(".jpg")));
      { RemoveDotsOfUpper(".jpg"); }
      ToLower(ToUpper("jpg"));
      { ToLowerOfUpper("jpg"); }
      ToLower("jpg");
      { ToLowerOfLower("jpg"); }
      "jpg";
    }
  }

  lemma JpgDropsDot()
    ensures RemoveDots(".jpg") == "jpg"
  {
    RemoveDotsFront('.', "jpg");
    assert ['.'] + "jpg" == ".jpg";
  }

  lemma JpgUpper()
    ensures ToUpper(".jpg") == ".JPG"
  {
  }

  /** The images folder, as the table names it for "jpg". */
  lemma TableJpg()
    ensures "jpg" in FileFormatTable && FileFormatTable["jpg"] == "Images"
    ensures Root + FileFormatTable["jpg"] == "Sorted/Images"
  {
  }

  lemma TableLacksUnknown()
    ensures "" !in FileFormatTable && "xyz" !in FileFormatTable
  {
  }

  lemma JpgKey(extension: string)
    requires extension == ".JPG" || extension == ".jpg"
    ensures FolderFor(extension) == Root + FileFormatTable["jpg"]
  {
    NormaliseJpg();
    TableJpg();
    FolderForKey(extension, "jpg");
  }

  /** ".JPG" and ".jpg" both go to the images folder. */
  lemma FolderForJpg()
    ensures FolderFor(".JPG") == "Sorted/Images"
    ensures FolderFor(".jpg") == "Sorted/Images"
  {
    JpgKey(".JPG");
    JpgKey(".jpg");
    TableJpg();
  }

  /** A lone dot normalises to the empty key, ".xyz" to "xyz". */
  lemma NormaliseUnknown()
    ensures Normalise(".") == ""
    ensures Normalise(".xyz") == "xyz"
  {
    RemoveDotsFront('.', "xyz");
    NormaliseOfNormal("xyz");
  }

  /** A lone dot and an unknown extension both go to "Sorted/Misc". */
  lemma FolderForUnknown()
    ensures FolderFor(".") == "Sorted/Misc"
    ensures FolderFor(".xyz") == "Sorted/Misc"
  {
    NormaliseUnknown();
    TableLacksUnknown();
    FolderForMisc(".");
    FolderForMisc(".xyz");
  }

  /**
    One step of getSortedLocations: the file name is appended to the list
    under its folder key, which is created empty when absent.
   */
  function Group(plan: Plan, fileName: string, fileExtension: string): (r: Plan)
    ensures r.Keys == plan.Keys + {FolderFor(fileExtension)}
    ensures var folder := FolderFor(fileExtension);
      r[folder] == (if folder in plan then plan[folder] else []) + [fileName]
    ensures forall f :: f in plan && f != FolderFor(fileExtension) ==> r[f] == plan[f]
  {
    var folderName := FolderFor(fileExtension);
    var files := if folderName in plan then plan[folderName] else [];
    plan[folderName := files + [fileName]]
  }

  /** Group is the getOrDefault, add and put of the source, for the folder key of the extension. */
  lemma GroupIsPut(plan: Plan, fileName: string, fileExtension: string, folderName: string)
    requires folderName == FolderFor(fileExtension)
    ensures Group(plan, fileName, fileExtension) ==
      plan[folderName := (if folderName in plan then plan[folderName] else []) + [fileName]]
  {
  }

  /** The plan built by visiting the file names of fileMap in the given order. */
  function GroupAll(order: seq<string>, fileMap: map<string, string>): Plan
    requires forall n :: n in order ==> n in fileMap
  {
    if order == [] then map[]
    else
      var last := order[|order| - 1];
      Group(GroupAll(order[..|order| - 1], fileMap), last, fileMap[last])
  }

  lemma GroupAllSnoc(order: seq<string>, fileMap: map<string, string>, fileName: string)
    requires forall n :: n in order ==> n in fileMap
    requires fileName in fileMap
    ensures GroupAll(order + [fileName], fileMap) == Group(GroupAll(order, fileMap), fileName, fileMap[fileName])
  {
    assert (order + [fileName])[..|order|] == order;
  }

  predicate NoDuplicates(s: seq<string>) {
    forall i, j :: 0 <= i < j < |s| ==> s[i] != s[j]
  }

  lemma NoDuplicatesSnoc(s: seq<string>, x: string)
    requires NoDuplicates(s) && x !in s
    ensures NoDuplicates(s + [x])
  {
  }

  /** A list without repetitions has as many elements as its set. */
  lemma {:induction false} DistinctCard(s: seq<string>)
    requires NoDuplicates(s)
    ensures |set n | n in s| == |s|
  {
    if s != [] {
      var front, last := s[..|s| - 1], s[|s| - 1];
      DistinctCard(front);
      assert (set n | n in s) == (set n | n in front) + {last};
      assert last !in front;
    }
  }

  /** order lists every key of keys exactly once: one HashMap traversal. */
  predicate Enumerates(order: seq<string>, keys: set<string>) {
    NoDuplicates(order) && (forall n :: n in order ==> n in keys) && (forall n :: n in keys ==> n in order)
  }

  /** The file names of order whose folder is folder, in the order visited. */
  function Filter(order: seq<string>, fileMap: map<string, string>, folder: string): (r: seq<string>)
    requires forall n :: n in order ==> n in fileMap
    ensures forall n :: n in r <==> n in order && FolderFor(fileMap[n]) == folder
    ensures NoDuplicates(order) ==> NoDuplicates(r)
    ensures |r| <= |order|
  {
    if order == [] then []
    else
      var last := order[|order| - 1];
      var front := Filter(order[..|order| - 1], fileMap, folder);
      assert forall n :: n in order <==> n in order[..|order| - 1] || n == last;
      if FolderFor(fileMap[last]) == folder then front + [last] else front
  }

  /** The keys of the table as written, in two halves so that each fact about them stays small. */
  ghost const TableKeysFront: seq<string> :=
    ["exe", "msi", "img", "jpg", "jpeg", "png", "gif", "svg", "tiff", "raw", "bmp", "mp3", "avi", "mp4"]
  ghost const TableKeysBack: seq<string> :=
    ["webm", "mkv", "doc", "ppt", "pptx", "docx", "csv", "xls", "xlsx", "pdf", "txt", "zip", "gz", "tgz"]

  lemma TableKeysListed()
    ensures FileFormatTable.Keys == (set n | n in TableKeysFront) + (set n | n in TableKeysBack)
  {
  }

  lemma TableKeysFrontDistinct()
    ensures NoDuplicates(TableKeysFront)
  {
  }

  lemma TableKeysBackDistinct()
    ensures NoDuplicates(TableKeysBack)
  {
  }

  lemma TableKeysApart()
    ensures (set n | n in TableKeysFront) !! (set n | n in TableKeysBack)
  {
  }

  /** The table has 28 entries: none of the 28 keys written out is repeated. */
  lemma TableSize()
    ensures |FileFormatTable| == 28
  {
    TableKeysListed();
    TableKeysFrontDistinct();
    TableKeysBackDistinct();
    TableKeysApart();
    DistinctCard(TableKeysFront);
    DistinctCard(TableKeysBack);
    assert |FileFormatTable| == |FileFormatTable.Keys|;
  }

  /**
    What getSortedLocations promises about its result when names is the set of
    file names visited: folder keys start with "Sorted/", name no empty or
    repeating group, and a name is in a group exactly when it was visited and
    its extension classifies to that group's key.
   */
  ghost predicate Classifies(plan: Plan, fileMap: map<string, string>, names: set<string>)
    requires names <= fileMap.Keys
  {
    && (forall f :: f in plan ==> StartsWith(f, Root) && plan[f] != [] && NoDuplicates(plan[f]))
    && (forall f, n :: f in plan ==> (n in plan[f] <==> n in names && FolderFor(fileMap[n]) == f))
    && (forall n :: n in names ==> FolderFor(fileMap[n]) in plan)
  }

  /**
    Each group holds exactly the visited names that classify to it, in visiting
    order, and a group exists exactly when that list is not empty.
   */
  lemma {:induction false} GroupAllIsFilter(order: seq<string>, fileMap: map<string, string>)
    requires forall n :: n in order ==> n in fileMap
    ensures var plan := GroupAll(order, fileMap);
      forall f :: (f in plan <==> Filter(order, fileMap, f) != []) &&
                  (f in plan ==> plan[f] == Filter(order, fileMap, f))
  {
    if order != [] {
      var front := order[..|order| - 1];
      GroupAllIsFilter(front, fileMap);
    }
  }

  /** Every folder key of a plan is some extension's folder, under "Sorted/". */
  lemma {:induction false} GroupAllKeys(order: seq<string>, fileMap: map<string, string>)
    requires forall n :: n in order ==> n in fileMap
    ensures forall f :: f in GroupAll(order, fileMap) ==> StartsWith(f, Root)
  {
    if order != [] {
      GroupAllKeys(order[..|order| - 1], fileMap);
    }
  }

  /**
    For a traversal visiting each name once, the plan classifies every file
    name of fileMap: it lands in exactly one group (the one its extension
    names), exactly once, and no name is invented.
   */
  lemma GroupAllClassifies(order: seq<string>, fileMap: map<string, string>)
    requires Enumerates(order, fileMap.Keys)
    ensures Classifies(GroupAll(order, fileMap), fileMap, fileMap.Keys)
  {
    var plan := GroupAll(order, fileMap);
    GroupAllIsFilter(order, fileMap);
    GroupAllKeys(order, fileMap);
    forall n | n in fileMap
      ensures FolderFor(fileMap[n]) in plan
    {
      assert n in Filter(order, fileMap, FolderFor(fileMap[n]));
    }
  }

  /** An empty map of file names gives an empty plan, and only then. */
  lemma GroupAllEmpty(order: seq<string>, fileMap: map<string, string>)
    requires Enumerates(order, fileMap.Keys)
    ensures GroupAll(order, fileMap) == map[] <==> fileMap == map[]
  {
    if fileMap != map[] {
      var n :| n in fileMap;
      GroupAllClassifies(order, fileMap);
      assert FolderFor(fileMap[n]) in GroupAll(order, fileMap);
    }
  }

  /** Visiting one more name appends it to the group of its extension's folder. */
  lemma GroupStep(order: seq<string>, fileMap: map<string, string>, fileName: string)
    requires forall n :: n in order ==> n in fileMap
    requires fileName in fileMap
    ensures var plan, folderName := GroupAll(order, fileMap), FolderFor(fileMap[fileName]);
      GroupAll(order + [fileName], fileMap) ==
        plan[folderName := (if folderName in plan then plan[folderName] else []) + [fileName]]
  {
    GroupAllSnoc(order, fileMap, fileName);
    GroupIsPut(GroupAll(order, fileMap), fileName, fileMap[fileName], FolderFor(fileMap[fileName]));
  }

  /** A traversal part way: order lists, once each, the keys not in remaining. */
  ghost predicate Visited(order: seq<string>, remaining: set<string>, keys: set<string>) {
    remaining <= keys && NoDuplicates(order) && forall n :: n in order <==> n in keys && n !in remaining
  }

  lemma VisitedStep(order: seq<string>, remaining: set<string>, keys: set<string>, n: string)
    requires Visited(order, remaining, keys) && n in remaining
    ensures Visited(order + [n], remaining - {n}, keys)
  {
    NoDuplicatesSnoc(order, n);
  }

  /** getSortedLocations. targetLocation is unused, as in the source. */
  method GetSortedLocations(fileNameLocationMap: map<string, string>, targetLocation: string)
    returns (newLocations: Plan, ghost order: seq<string>)
    ensures Enumerates(order, fileNameLocationMap.Keys)
    ensures newLocations == GroupAll(order, fileNameLocationMap)
    ensures Classifies(newLocations, fileNameLocationMap, fileNameLocationMap.Keys)
  {
    newLocations := map[];
    order := [];
    var remaining := fileNameLocationMap.Keys;
    while remaining != {}
      invariant Visited(order, remaining, fileNameLocationMap.Keys)
      invariant forall n :: n in order ==> n in fileNameLocationMap
      invariant newLocations == GroupAll(order, fileNameLocationMap)
      decreases |remaining|
    {
      var fileName :| fileName in remaining;
      var fileExtension := fileNameLocationMap[fileName];
      var folderName := FolderFor(fileExtension);
      var files := if folderName in newLocations then newLocations[folderName] else [];
      files := files + [fileName];
      newLocations := newLocations[folderName := files];
      GroupStep(order, fileNameLocationMap, fileName);
      VisitedStep(order, remaining, fileNameLocationMap.Keys, fileName);
      order := order + [fileName];
      remaining := remaining - {fileName};
    }
    GroupAllClassifies(order, fileNameLocationMap);
  }
}
