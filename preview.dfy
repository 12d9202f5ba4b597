/**
  The plan preview of Application.java: printPreview, printFile and
  getIndentString assemble the preview in a StringBuilder. Here the text is
  produced, not printed: an empty plan produces no text (None), otherwise the
  target location on a line of its own, then each folder key as "|  key/" on
  its own line followed by one "|  |  +--name" line per file, in list order.
  The folders come in HashMap order; the ghost result of PrintPreview is the
  order used.
 */
module Preview {
  import opened Wrappers
  import opened Classifier

  const IndentUnit := "|  "

  /** The string getIndentString(n) returns: n copies of "|  ". */
  function Indentation(n: nat): string {
    if n == 0 then "" else Indentation(n - 1) + IndentUnit
  }

  /** getIndentString(n) has length 3n and repeats "|  " character by character. */
  lemma {:induction false} IndentationShape(n: nat)
    ensures |Indentation(n)| == 3 * n
    ensures forall i :: 0 <= i < 3 * n ==> Indentation(n)[i] == IndentUnit[i % 3]
  {
    if n > 0 {
      IndentationShape(n - 1);
      var s := Indentation(n);
      forall i | 0 <= i < 3 * n
        ensures s[i] == IndentUnit[i % 3]
      {
        if i >= 3 * (n - 1) {
          assert i % 3 == i - 3 * (n - 1);
        }
      }
    }
  }

  /** getIndentString: a loop that appends "|  " indent times (none when indent <= 0). */
  method GetIndentString(indent: int) returns (s: string)
    ensures s == Indentation(if indent < 0 then 0 else indent)
  {
    s := "";
    var i := 0;
    while i < indent
      invariant 0 <= i && (indent >= 0 ==> i <= indent) && (indent < 0 ==> i == 0)
      invariant s == Indentation(i)
    {
      s := s + IndentUnit;
      i := i + 1;
    }
  }

  /** A java.lang.StringBuilder reduced to the text appended so far. */
  class Builder {
    var text: string

    constructor ()
      ensures text == ""
    {
      text := "";
    }

    method Append(s: string)
      modifies this
      ensures text == old(text) + s
    {
      text := text + s;
    }
  }

  /** The line printFile appends for one file. */
  function FileLine(fileName: string, indent: nat): string {
    Indentation(indent) + "+--" + fileName + "\n"
  }

  /** printFile: appends the file's line, indented, to sb. */
  method PrintFile(fileName: string, indent: int, sb: Builder)
    modifies sb
    ensures sb.text == old(sb.text) + FileLine(fileName, if indent < 0 then 0 else indent)
  {
    var indentString := GetIndentString(indent);
    sb.Append(indentString);
    sb.Append("+--");
    sb.Append(fileName);
    sb.Append("\n");
  }

  /** The file lines of one folder, at depth 2, in list order. */
  function FileLines(filesList: seq<string>): string {
    if filesList == [] then ""
    else FileLines(filesList[..|filesList| - 1]) + FileLine(filesList[|filesList| - 1], 2)
  }

  /** The text appended for one folder: its key line, then its files. */
  function FolderBlock(folderName: string, filesList: seq<string>): string {
    Indentation(1) + folderName + "/" + "\n" + FileLines(filesList)
  }

  /** The text appended for the folders of order, in that order. */
  function Tree(plan: Plan, order: seq<string>): string
    requires forall f :: f in order ==> f in plan
  {
    if order == [] then ""
    else
      var last := order[|order| - 1];
      Tree(plan, order[..|order| - 1]) + FolderBlock(last, plan[last])
  }

  lemma FileLinesSnoc(filesList: seq<string>, file: string)
    ensures FileLines(filesList + [file]) == FileLines(filesList) + FileLine(file, 2)
  {
    assert (filesList + [file])[..|filesList|] == filesList;
  }

  /** Concatenation regrouped: appending b then c appends b + c. */
  lemma AppendThenAppend(a: string, b: string, c: string)
    ensures (a + b) + c == a + (b + c)
  {
    assert forall i :: 0 <= i < |a| + |b| + |c| ==> ((a + b) + c)[i] == (a + (b + c))[i];
  }

  /** The for loop of the forEach lambda of printPreview: printFile at depth 2 for each file. */
  method PrintFiles(filesList: seq<string>, sb: Builder)
    modifies sb
    ensures sb.text == old(sb.text) + FileLines(filesList)
  {
    ghost var head := sb.text;
    for k := 0 to |filesList|
      invariant sb.text == head + FileLines(filesList[..k])
    {
      ghost var done := FileLines(filesList[..k]);
      PrintFile(filesList[k], 2, sb);
      AppendThenAppend(head, done, FileLine(filesList[k], 2));
      FileLinesSnoc(filesList[..k], filesList[k]);
      assert filesList[..k + 1] == filesList[..k] + [filesList[k]];
    }
    assert filesList[..|filesList|] == filesList;
  }

  /** The body of the forEach lambda of printPreview: one folder's block appended to sb. */
  method PrintFolder(folderName: string, filesList: seq<string>, sb: Builder)
    modifies sb
    ensures sb.text == old(sb.text) + FolderBlock(folderName, filesList)
  {
    ghost var start := sb.text;
    var indentString := GetIndentString(1);
    sb.Append(indentString);
    sb.Append(folderName);
    sb.Append("/");
    sb.Append("\n");
    ghost var header := Indentation(1) + folderName + "/" + "\n";
    assert sb.text == start + header by {
      AppendThenAppend(start, indentString, folderName);
      AppendThenAppend(start, indentString + folderName, "/");
      AppendThenAppend(start, indentString + folderName + "/", "\n");
    }
    PrintFiles(filesList, sb);
    AppendThenAppend(start, header, FileLines(filesList));
  }

  /**
    printPreview, returning the text it would print: None for an empty plan
    (nothing is printed), otherwise the target location, a newline and the
    blocks of all folders in traversal order.
   */
  method PrintPreview(newLocations: Plan, targetLocation: string)
    returns (output: Option<string>, ghost order: seq<string>)
    ensures newLocations == map[] ==> output == None
    ensures newLocations != map[] ==>
      Enumerates(order, newLocations.Keys) && output == Some(targetLocation + "\n" + Tree(newLocations, order))
  {
    order := [];
    if newLocations == map[] {
      output := None;
      return;
    }
    var sb := new Builder();
    sb.Append(targetLocation);
    sb.Append("\n");
    ghost var prefix := targetLocation + "\n";
    assert sb.text == prefix;
    var remaining := newLocations.Keys;
    while remaining != {}
      invariant remaining <= newLocations.Keys
      invariant NoDuplicates(order)
      invariant forall f :: f in order ==> f in newLocations && f !in remaining
      invariant forall f :: f in newLocations && f !in remaining ==> f in order
      invariant sb.text == prefix + Tree(newLocations, order)
      decreases |remaining|
    {
      var folderName :| folderName in remaining;
      var filesList := newLocations[folderName];
      ghost var before := order;
      ghost var done := Tree(newLocations, before);
      PrintFolder(folderName, filesList, sb);
      AppendThenAppend(prefix, done, FolderBlock(folderName, filesList));
      order := order + [folderName];
      remaining := remaining - {folderName};
      TreeSnoc(newLocations, before, folderName);
      assert NoDuplicates(order) by {
        assert folderName !in before;
      }
    }
    output := Some(sb.text);
  }

  lemma TreeSnoc(plan: Plan, order: seq<string>, folder: string)
    requires forall f :: f in order ==> f in plan
    requires folder in plan
    ensures Tree(plan, order + [folder]) == Tree(plan, order) + FolderBlock(folder, plan[folder])
  {
    assert (order + [folder])[..|order|] == order;
  }

  // ----- The preview as lines -----

  /** Each string followed by a newline, concatenated. */
  function Unlines(lines: seq<string>): string {
    if lines == [] then "" else Unlines(lines[..|lines| - 1]) + lines[|lines| - 1] + "\n"
  }

  /** The lines of one folder: "|  key/", then "|  |  +--name" per file. */
  function FolderLines(folderName: string, filesList: seq<string>): (lines: seq<string>)
    ensures |lines| == 1 + |filesList|
  {
    ["|  " + folderName + "/"] + seq(|filesList|, i requires 0 <= i < |filesList| => "|  |  +--" + filesList[i])
  }

  /** The lines of the preview below the target line. */
  function TreeLines(plan: Plan, order: seq<string>): seq<string>
    requires forall f :: f in order ==> f in plan
  {
    if order == [] then []
    else
      var last := order[|order| - 1];
      TreeLines(plan, order[..|order| - 1]) + FolderLines(last, plan[last])
  }

  lemma {:induction false} UnlinesAppend(a: seq<string>, b: seq<string>)
    ensures Unlines(a + b) == Unlines(a) + Unlines(b)
  {
    if b == [] {
      assert a + b == a;
    } else {
      var front, last := b[..|b| - 1], b[|b| - 1];
      UnlinesAppend(a, front);
      var ab := a + b;
      assert ab[..|ab| - 1] == a + front;
      assert ab[|ab| - 1] == last;
      calc {
        Unlines(ab);
        Unlines(a + front) + last + "\n";
        Unlines(a) + Unlines(front) + last + "\n";
        Unlines(a) + (Unlines(front) + last + "\n");
      }
    }
  }

  lemma {:induction false} FileLinesAsLines(filesList: seq<string>)
    ensures FileLines(filesList) == Unlines(FolderLines("", filesList)[1..])
  {
    var lines := FolderLines("", filesList)[1..];
    if filesList != [] {
      var front, last := filesList[..|filesList| - 1], filesList[|filesList| - 1];
      FileLinesAsLines(front);
      assert lines[..|lines| - 1] == FolderLines("", front)[1..];
      assert lines[|lines| - 1] == "|  |  +--" + last;
      assert Unlines(lines) == Unlines(FolderLines("", front)[1..]) + ("|  |  +--" + last) + "\n";
      assert Indentation(2) == "|  |  ";
      assert FileLine(last, 2) == "|  |  +--" + last + "\n";
    }
  }

  /** One folder's block is its key line followed by its file lines. */
  lemma FolderBlockAsLines(folderName: string, filesList: seq<string>)
    ensures FolderBlock(folderName, filesList) == Unlines(FolderLines(folderName, filesList))
  {
    var lines := FolderLines(folderName, filesList);
    FileLinesAsLines(filesList);
    assert lines == [lines[0]] + FolderLines("", filesList)[1..];
    UnlinesAppend([lines[0]], FolderLines("", filesList)[1..]);
    assert Unlines([lines[0]]) == lines[0] + "\n" by {
      assert [lines[0]][..0] == [];
    }
    assert Indentation(1) == "|  ";
  }

  /**
    The folder blocks of the preview are exactly its lines: for each folder in
    traversal order its key line and one line per file, each ending in a
    newline.
   */
  lemma {:induction false} TreeAsLines(plan: Plan, order: seq<string>)
    requires forall f :: f in order ==> f in plan
    ensures Tree(plan, order) == Unlines(TreeLines(plan, order))
  {
    if order != [] {
      var front, last := order[..|order| - 1], order[|order| - 1];
      TreeAsLines(plan, front);
      FolderBlockAsLines(last, plan[last]);
      UnlinesAppend(TreeLines(plan, front), FolderLines(last, plan[last]));
    }
  }

  /** The whole preview, target line included, as lines. */
  lemma PreviewAsLines(plan: Plan, targetLocation: string, order: seq<string>)
    requires forall f :: f in order ==> f in plan
    ensures targetLocation + "\n" + Tree(plan, order) == Unlines([targetLocation] + TreeLines(plan, order))
  {
    TreeAsLines(plan, order);
    UnlinesAppend([targetLocation], TreeLines(plan, order));
    assert Unlines([targetLocation]) == targetLocation + "\n" by {
      assert [targetLocation][..0] == [];
      assert Unlines([targetLocation]) == "" + targetLocation + "\n";
      assert "" + targetLocation == targetLocation;
    }
  }
}
