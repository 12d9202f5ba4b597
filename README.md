# File_Sorter in Dafny

File_Sorter is a console program in one Java class, `Application`. It reads a
source directory and splits its entries into files to sort, directories, and
names without an extension. It then groups the files by extension into folders
named `Sorted/<category>`, using a built-in table of 28 extensions. It can show
a tree preview of the plan, and it copies every file into its folder under a
target directory, printing a progress line every tenth file.

This project models that logic and proves its properties.

- **Text** (`text.dfy`): the string operations the program relies on.
  - `String.lastIndexOf` for one character.
  - `String.replace(".", "")`.
  - `toLowerCase`, plus `toUpperCase` to state case-insensitivity.
- **Partition** (`partition.dfy`): the loop of `main` over the directory listing. Each entry is reduced to its name, its directory flag and its length.
  - It is a method with a loop, proved equal to four reference functions of the listing.
  - Lemmas state where each entry ends up.
- **Classifier** (`classifier.dfy`):
  - the extension table `fileFormatMap`;
  - the normalisation and lookup of line 164;
  - `getSortedLocations`, as a method that fills a plan (folder key to list of file names), proved equal to a fold over the order in which it visited the names.
- **Sorter** (`sorter.dfy`): `sortFiles` and the guard in `main` that calls it.
  - The file system is a class with a path-to-content map and a set of directories.
  - `createDirectories` and `copy` are methods that fail where an environment (`Env`) says the operating system would refuse.
  - `sortFiles` is proved equal to `RunOps`, a fold of one copy step per file of the plan in traversal order. The results are the final counter and the progress lines `(copied, remaining)`.
- **SorterProperties** (`sorter_properties.dfy`): what a run guarantees about the counter, the progress lines, the delivered files and a second run.
- **Preview** (`preview.dfy`): `printPreview`, `printFile` and `getIndentString`, with a `StringBuilder` class. The preview is returned as text rather than printed. It is also described line by line.
- **Pipeline** (`pipeline.dfy`): `main` from the scan to the copy. This module proves that the plan holds each dotted name exactly once. As a result, the final count is at most `totalFiles` and no progress line reports a negative number remaining.

`HashMap` iteration order is unspecified. Each loop over a map therefore picks its next key arbitrarily and returns, as a ghost result, the order it used. Every property is proved for every such order.

Two behaviours of the code deserve a note:

- **A failed copy is still counted.** The counter is incremented between `Files.createDirectories` and `Files.copy` (Application.java:134-137), so a file whose copy throws is counted. Only a folder that cannot be created leaves the counter unchanged (`FailedCopyIsCounted`, `FolderFailureChangesNothing`). A description of the program as "counting copied files" does not match the code. The model follows the code.
- **`extensionsSet` also receives the extensions of dotted names** (line 72), besides dotless non-directory names. A dotted directory is treated as a file: in the dotted branch, `isDirectory` is never consulted.

## Model

| member | source | states |
|---|---|---|
| Text.LastIndexOf | Application.java:64 | the result is -1 exactly when the character is absent; otherwise it is a position holding the character, with no occurrence after it |
| Text.RemoveDots | Application.java:164 | the result has no dot, keeps every other character, is no longer than the input, and equals the input when there was no dot |
| Text.RemoveDotsChar | Application.java:164 | a lone dot is dropped and any other character is kept |
| Text.RemoveDotsAppend | Application.java:164 | removing the dots of a concatenation removes them from each part, so the other characters keep their order and their number |
| Text.ToLower | Application.java:164 | the result has the same length, is lower-cased character by character, and holds no upper-case letter |
| Classifier.FileFormatTable | Application.java:26-35 | defines the 28 extension-to-category entries as the source writes them |
| Classifier.Normalise | Application.java:164 | defines the lookup key of an extension: every dot removed, then lower-cased |
| Classifier.FolderFor | Application.java:163-164 | defines the folder key: "Sorted/" plus the table's category for the normalised extension, or "Misc" when it is no key |
| Classifier.TableKeysAreNormal | Application.java:26-35 | every key of fileFormatMap is a lower-case extension without a dot |
| Classifier.TableSize | Application.java:26-35 | the table has 28 entries, so none of its 28 keys is repeated |
| Classifier.TableHasNoMisc | Application.java:26-35 | no category of the table is the default "Misc", so a Misc folder only comes from a missing key |
| Classifier.NormaliseOfNormal | Application.java:164 | normalising an extension already in normal form gives it back |
| Classifier.FolderForTableKey | Application.java:163-164 | for every table key k, ".k" and ".K" (upper case) both go to "Sorted/" + table[k] |
| Classifier.FolderForIgnoresCase | Application.java:164 | upper- or lower-casing an extension does not change its destination folder |
| Classifier.FolderForMisc | Application.java:163-164 | a file goes to "Sorted/Misc" if and only if its normalised extension is not a table key |
| Classifier.NormaliseJpg | Application.java:164 | ".jpg" and ".JPG" both normalise to "jpg" |
| Classifier.FolderForJpg | Application.java:163-164 | ".jpg" and ".JPG" both go to "Sorted/Images" |
| Classifier.NormaliseUnknown | Application.java:164 | "." normalises to the empty key and ".xyz" to "xyz" |
| Classifier.FolderForUnknown | Application.java:163-164 | "." and ".xyz" both go to "Sorted/Misc" |
| Classifier.Group | Application.java:165-167 | adding a file appends it to the end of its folder's list (an empty list when the key is new), adds that key, and leaves every other group unchanged |
| Classifier.GroupAll | Application.java:161-169 | defines the plan as Group applied to each file name in visiting order, from an empty map |
| Classifier.Filter | Application.java:162-168 | a name is in the selection exactly when it was visited and classifies to the folder; distinct visits stay distinct |
| Classifier.GroupAllIsFilter | Application.java:162-168 | each group holds exactly the visited names that classify to it, in visiting order, and a group exists exactly when that list is not empty |
| Classifier.GroupAllKeys | Application.java:163-167 | every folder key of the plan starts with "Sorted/" |
| Classifier.GroupAllClassifies | Application.java:161-169 | when each name is visited once, every name lands in exactly one group (its extension's), exactly once; no name is invented; no group is empty |
| Classifier.GroupAllEmpty | Application.java:161-169 | the plan is empty if and only if the input map is empty |
| Classifier.GetSortedLocations | Application.java:159-170 | the method visits every file name once and builds the plan of its visiting order, which classifies every input name |
| Partition.Extension | Application.java:64-71 | defines the extension as the suffix of the name from its last dot; ExtensionShape states its shape |
| Partition.ExtensionShape | Application.java:64-71 | the extension is the suffix from the last dot: it starts with the dot, holds no other dot, and the name ends with it |
| Partition.PartitionEntries | Application.java:61-76 | the three collections and the total size equal their reference functions of the listing, in any order of the listing |
| Partition.EntryPlacement | Application.java:63-76 | in a listing with distinct names, a dotted name (directory or not) is mapped to its extension and is never in directorySet; a dotless directory is only in directorySet; a dotless file is only in extensionsSet |
| Partition.DottedSizeAppend | Application.java:74 | the total size of a listing split in two is the sum of the totals of the parts |
| Partition.DottedSizeOrderFree | Application.java:63-74 | two listings with the same entries, counted with multiplicity, have the same total size, whatever their order |
| Partition.DotlessSizeZero | Application.java:65-69 | dotless entries add nothing to the total size |
| Sorter.Join | Application.java:132-135 | defines `Paths.get(first, more)` as first + "/" + more |
| Sorter.CopyStep | Application.java:131-152 | defines one iteration of the inner loop: nothing changes when the folder cannot be created; otherwise the folder exists and the counter rises by one before the copy; a successful copy gives the destination the source's content and adds a progress line when the new count is a multiple of ten; a failed copy changes no file and adds no line |
| Sorter.RunOps | Application.java:129-130 | defines a run as CopyStep applied to each file of the plan in order |
| Sorter.FileSystem.CreateDirectories | Application.java:134 | succeeds exactly when the folder exists or can be created; then the folder exists; files are untouched |
| Sorter.FileSystem.Copy | Application.java:137 | succeeds exactly when the source exists and the destination is writable; then the destination holds the source's content, replacing any previous content; nothing else changes |
| Sorter.CopyFolder | Application.java:130-153 | the inner loop over one folder's files has the effect of the RunOps fold over that folder's copy steps, continuing after every failure |
| Sorter.SortFiles | Application.java:125-157 | the method visits each folder once, and its final file system, counter and progress lines are those of the RunOps fold over the plan in that order, starting from count 0 |
| Sorter.SortIfPlanned | Application.java:111-115 | an empty plan copies nothing and yields None; a non-empty plan is sorted, and the result is the count of that run |
| SorterProperties.CountReady | Application.java:134-136 | the number of counted files is at most the number of files |
| SorterProperties.RunDirs | Application.java:134 | after a run, the directories are the old ones plus every folder that could be created |
| SorterProperties.ReadyStable | Application.java:134 | creating folders never makes another folder uncreatable or creatable |
| SorterProperties.RunCount | Application.java:134-136 | the counter rises by exactly one for each file whose folder can be created, whether its copy succeeds or not |
| SorterProperties.CountBounds | Application.java:136 | the counter never decreases and rises by at most the number of files |
| SorterProperties.CountAllWhenFoldersReady | Application.java:134-136 | when every folder can be created, every file is counted |
| SorterProperties.FailedCopyIsCounted | Application.java:134-137 | from any state, a file whose folder can be created but whose copy fails is counted: its folder is created, the counter rises by one, and no file and no progress line changes |
| SorterProperties.FolderFailureChangesNothing | Application.java:134 | a file whose folder cannot be created changes neither the state, the counter nor the progress lines |
| SorterProperties.StepProgress | Application.java:137-149 | a step emits a line exactly when the copy succeeds and the new count is a multiple of ten, and the line carries (count, totalFiles - count) |
| SorterProperties.StepKeepsProgressLines | Application.java:139-147 | one step keeps the progress lines well formed |
| SorterProperties.RunKeepsProgressLines | Application.java:139-149 | every run keeps the progress lines well formed: each at a positive multiple of ten no larger than the count, with remaining = totalFiles - copied, in strictly increasing order |
| SorterProperties.SortFilesProgress | Application.java:127-149 | a run of sortFiles from zero produces well-formed progress lines |
| SorterProperties.RunGrows | Application.java:134-137 | a run only adds directories and file paths |
| SorterProperties.SucceedsLater | Application.java:134-137 | a copy that would succeed before a run still succeeds after it |
| SorterProperties.StepSucceeds | Application.java:136-149 | a successful step counts the file and emits exactly the expected line for the new count |
| SorterProperties.RunAllSucceed | Application.java:136-149 | when every copy succeeds, every file is counted and a line is emitted at every multiple of ten passed |
| SorterProperties.TwentyFiveMilestones | Application.java:139-147 | from 0 to 25 of 25 files, the expected lines are (10, 15) and (20, 5) |
| SorterProperties.TwentyFiveFiles | Application.java:129-149 | 25 files that all copy, with totalFiles 25, produce exactly the lines (10, 15) and (20, 5) |
| SorterProperties.WritesKeys | Application.java:137 | only destination paths are written |
| SorterProperties.RunFiles | Application.java:132-137 | when a destination is a source only for a file copied onto itself, the final files are the initial files overwritten by the writes of the successful copies |
| SorterProperties.WritesDeliver | Application.java:137 | when files with one destination share a source, every successful copy's destination is written with its source's content |
| SorterProperties.RunDelivers | Application.java:132-137 | when a destination is a source only for a file copied onto itself and files with one destination share a source (both hold for names without a separator), after a run every file whose copy succeeds sits at target/folder/name with its source's content, overwriting what was there; every path that is not a destination is unchanged |
| SorterProperties.WritesAgree | Application.java:132-137 | the writes depend only on which folders can be created and on the sources' contents |
| SorterProperties.RunTwice | Application.java:129-154 | when a destination is a source only for a file copied onto itself (true for names without a separator), running the same plan a second time leaves the file system as the first run left it |
| SorterProperties.JoinNameDetermined | Application.java:135 | joining a directory and a file name that holds no separator determines both the directory and the name |
| SorterProperties.NoSeparatorConsistent | Application.java:132-135 | with separator-free names, two files with the same destination have the same name and hence the same source |
| SorterProperties.NoSeparatorSelfCopiesOnly | Application.java:132-135 | with separator-free names and any target, a destination that is a source is the source of its own file: the only overlap is a file copied onto itself |
| SorterProperties.SeparatedSelfCopiesOnly | Application.java:132-135 | a plan where no destination is a source meets the self-copy condition of RunFiles, RunDelivers and RunTwice |
| SorterProperties.DefaultTargetSeparated | Application.java:84-87 | with the default target (the source directory) and separator-free names, no destination is a source |
| Preview.IndentationShape | Application.java:197-203 | getIndentString(n) has length 3n and repeats IndentUnit (a bar and two spaces) character by character |
| Preview.GetIndentString | Application.java:197-203 | the loop returns n copies of IndentUnit, and the empty string for n <= 0 |
| Preview.PrintFile | Application.java:190-195 | appends the indentation, "+--", the name and a newline |
| Preview.PrintFiles | Application.java:182-184 | appends the line of every file at depth 2, in list order |
| Preview.PrintFolder | Application.java:177-185 | appends the folder's key line and then its file lines |
| Preview.PrintPreview | Application.java:172-188 | an empty plan produces no output; otherwise the output is the target, a newline, and every folder's block once, in traversal order |
| Preview.FileLinesAsLines | Application.java:190-195 | the file lines of a folder are two indentation units, "+--" and the name, one per file, each ending in a newline |
| Preview.FolderBlockAsLines | Application.java:177-185 | a folder's block is one indentation unit, the folder key and "/", followed by its file lines, each ending in a newline |
| Preview.TreeAsLines | Application.java:177-185 | the folder blocks of the preview are exactly the lines of every folder in traversal order |
| Preview.PreviewAsLines | Application.java:172-186 | the whole preview is the target line followed by the folder lines |
| Pipeline.OpsCard | Application.java:129-130 | when no name is listed twice, the flattened plan has one copy step per listed name |
| Pipeline.ClassifiedNames | Application.java:161-169 | the folders of a plan that classifies the file map list exactly its file names |
| Pipeline.ClassifiedSize | Application.java:161-169 | a plan that classifies the file map has one copy step per file name |
| Pipeline.PlanSize | Application.java:113 | whatever the two traversal orders, sortFiles has exactly fileNameLocationMap.size() files to copy |
| Pipeline.CountWithinTotal | Application.java:113 | with totalFiles = fileNameLocationMap.size(), the final count is at most totalFiles and every progress line has a remaining count from 0 to totalFiles - 1 |
| Pipeline.SortDirectory | Application.java:61-115 | with no dotted name the result is None and nothing changes; otherwise the result is the count, and the file system the final state, of the RunOps fold over the plan of the dotted names in the traversal orders used, and the count is at most the number of dotted names |

## Left out

- The console dialogue is not modelled: prompts, `Scanner` input, the loop asking again for a directory, and the Y/N answers (Application.java:38-59, 78-123). `SortDirectory` takes the path where the answer is "y" and the target is given.
- SortDirectory: models only the branch where `Files.isWritable(target)` holds (Application.java:91). Its result omits the progress lines of the run, because `SortIfPlanned` returns only the count; `SortFiles` states them.
- `Thread.sleep` and the `Files.isWritable` / `Files.isDirectory` pre-flight checks (84-91) are operating-system queries. The target location is a parameter.
- `formatSize` (205-210) is left out: it formats a `double` with `String.format`.
- Elapsed time (`LocalTime`, lines 128 and 142) is not modelled. Progress lines keep only the copied and remaining counts.
- The final "Total files sorted" line (156) is not modelled as text. Its number is the `count` result of `SortFiles`.
- `AtomicInteger` is a plain counter, since execution is single-threaded.
- `e.printStackTrace` (151) is not modelled. A failed operation just moves on to the next file.
- `File.listFiles` is an input sequence of entries. Its `null` result for an unreadable directory is not modelled.
- PartitionEntries: `totalFileSize` is an unbounded `nat`, so Java `long` overflow is not modelled.
- Text.ToLower: only ASCII `A`-`Z` are lowered. Locale-dependent and non-ASCII case mappings of `String.toLowerCase` are not modelled.
- Sorter.Join: `Paths.get` is modelled as joining with "/". Path normalisation (repeated or trailing separators, `.` and `..`, absolute second parts) is not modelled.
- Sorter.FileSystem.CreateDirectories: whether a folder can be created is a fixed set in the environment. Creating missing ancestors, and the case where a regular file occupies the path, are not modelled separately.
- Sorter.FileSystem.Copy: whether a copy works is decided by the source's presence and a fixed set of unwritable destinations. Copying a directory and copying onto a non-empty directory are not modelled separately.
- RunDelivers, RunTwice, RunFiles: stated for plans where a destination is a source only for a file copied onto itself, which `NoSeparatorSelfCopiesOnly` proves for names without a separator, the names `File.getName` gives. `Entry` does not itself rule out a separator in a name, so that condition stays a hypothesis.
- Classifier.FileFormatTable: `Map.ofEntries` throws on a repeated key when the class is loaded, whereas a Dafny map display silently keeps the last binding of a repeated key. The 28 entries are written as in the source, and `TableSize` proves that the display has 28 entries, so no key repeats and the two agree.
- Preview.PrintPreview: `System.out.println` adds a trailing line separator after the text. The model returns the text without it.
