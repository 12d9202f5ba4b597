/**
  The directory scan of Application.main: each entry listed directly inside the
  source directory is sent to one of three places according to its name.

  - A name with a dot is a file to sort: fileNameLocationMap maps it to its
    extension (the suffix from its last dot, dot included), the extension is
    also added to extensionsSet, and its length counts towards the total size.
    This holds for directories too: isDirectory is consulted only for dotless
    names.
  - A dotless directory goes to directorySet.
  - A dotless non-directory goes to extensionsSet under its own name.

  The listing itself (File.listFiles) is an input: its order is arbitrary, so
  every property below is stated for every order of the entries.
 */
module Partition {
  import opened Text

  /** What the scan reads of a java.io.File: getName, isDirectory, length. */
  datatype Entry = Entry(name: string, isDirectory: bool, length: nat)

  /** name.substring(name.lastIndexOf(".")) for a name that has a dot. */
  function Extension(name: string): string
    requires '.' in name
  {
    name[LastIndexOf(name, '.')..]
  }

  /**
    The extension is the suffix of the name from its last dot: it starts with
    the dot and holds no other.
   */
  lemma ExtensionShape(name: string)
    requires '.' in name
    ensures var ext := Extension(name);
      && 0 < |ext| <= |name| && ext[0] == '.'
      && '.' !in ext[1..]
      && name == name[..|name| - |ext|] + ext
  {
    var index := LastIndexOf(name, '.');
    assert forall j :: index < j < |name| ==> name[j] != '.';
    assert name[index..][1..] == name[index + 1..];
  }

  /** The names of a listing found to have a dot: the files to sort. */
  function DottedNames(entries: seq<Entry>): set<string> {
    set e | e in entries && '.' in e.name :: e.name
  }

  /** Reference value of fileNameLocationMap: each dotted name to its extension. */
  function Locations(entries: seq<Entry>): map<string, string> {
    map n | n in DottedNames(entries) :: Extension(n)
  }

  /** Reference value of directorySet: the dotless directories. */
  function Directories(entries: seq<Entry>): set<string> {
    set e | e in entries && '.' !in e.name && e.isDirectory :: e.name
  }

  /**
    Reference value of extensionsSet: the names of dotless non-directories and
    the extensions of dotted names.
   */
  function Extensions(entries: seq<Entry>): set<string> {
    (set e | e in entries && '.' !in e.name && !e.isDirectory :: e.name) +
    (set e | e in entries && '.' in e.name :: Extension(e.name))
  }

  /** Reference value of totalFileSize: the lengths of dotted entries, summed. */
  function DottedSize(entries: seq<Entry>): nat {
    if entries == [] then 0
    else
      var last := entries[|entries| - 1];
      DottedSize(entries[..|entries| - 1]) + (if '.' in last.name then last.length else 0)
  }

  /** Names in a real directory listing are distinct. */
  predicate DistinctNames(entries: seq<Entry>) {
    forall i, j :: 0 <= i < j < |entries| ==> entries[i].name != entries[j].name
  }

  /** The loop of main over actual.listFiles(). */
  method PartitionEntries(entries: seq<Entry>)
    returns (extensionsSet: set<string>, directorySet: set<string>,
             fileNameLocationMap: map<string, string>, totalFileSize: nat)
    ensures extensionsSet == Extensions(entries)
    ensures directorySet == Directories(entries)
    ensures fileNameLocationMap == Locations(entries)
    ensures totalFileSize == DottedSize(entries)
  {
    extensionsSet, directorySet := {}, {};
    fileNameLocationMap, totalFileSize := map[], 0;
    for i := 0 to |entries|
      invariant extensionsSet == Extensions(entries[..i])
      invariant directorySet == Directories(entries[..i])
      invariant fileNameLocationMap == Locations(entries[..i])
      invariant totalFileSize == DottedSize(entries[..i])
    {
      var f := entries[i];
      SnocEntry(entries[..i], f);
      assert entries[..i + 1] == entries[..i] + [f];
      var index := LastIndexOf(f.name, '.');
      if index < 0 {
        assert '.' !in f.name;
        if !f.isDirectory {
          extensionsSet := extensionsSet + {f.name};
        } else {
          directorySet := directorySet + {f.name};
        }
      } else {
        var extension := f.name[index..];
        assert '.' in f.name && extension == Extension(f.name);
        extensionsSet := extensionsSet + {extension};
        fileNameLocationMap := fileNameLocationMap[f.name := extension];
        totalFileSize := totalFileSize + f.length;
      }
    }
    assert entries[..|entries|] == entries;
  }

  /** How each reference value changes when one more entry is listed. */
  lemma SnocEntry(entries: seq<Entry>, f: Entry)
    ensures var all := entries + [f];
      && Extensions(all) == Extensions(entries) +
           (if '.' in f.name then {Extension(f.name)} else if !f.isDirectory then {f.name} else {})
      && Directories(all) == Directories(entries) +
           (if '.' !in f.name && f.isDirectory then {f.name} else {})
      && Locations(all) == (if '.' in f.name then Locations(entries)[f.name := Extension(f.name)] else Locations(entries))
      && DottedSize(all) == DottedSize(entries) + (if '.' in f.name then f.length else 0)
  {
    var all := entries + [f];
    assert all[..|all| - 1] == entries;
    assert forall e :: e in all <==> e in entries || e == f;
    SnocExtensions(entries, f);
    SnocLocations(entries, f);
    SnocDirectories(entries, f);
  }

  lemma SnocDirectories(entries: seq<Entry>, f: Entry)
    requires forall e :: e in entries + [f] <==> e in entries || e == f
    ensures Directories(entries + [f]) == Directories(entries) + (if '.' !in f.name && f.isDirectory then {f.name} else {})
  {
  }

  lemma SnocExtensions(entries: seq<Entry>, f: Entry)
    requires forall e :: e in entries + [f] <==> e in entries || e == f
    ensures Extensions(entries + [f]) == Extensions(entries) +
      (if '.' in f.name then {Extension(f.name)} else if !f.isDirectory then {f.name} else {})
  {
  }

  lemma SnocDottedNames(entries: seq<Entry>, f: Entry)
    requires forall e :: e in entries + [f] <==> e in entries || e == f
    ensures DottedNames(entries + [f]) == DottedNames(entries) + (if '.' in f.name then {f.name} else {})
  {
  }

  lemma SnocLocations(entries: seq<Entry>, f: Entry)
    requires forall e :: e in entries + [f] <==> e in entries || e == f
    ensures Locations(entries + [f]) ==
      (if '.' in f.name then Locations(entries)[f.name := Extension(f.name)] else Locations(entries))
  {
    SnocDottedNames(entries, f);
    if '.' in f.name {
      LocationsAdd(entries, entries + [f], f.name);
    } else {
      assert DottedNames(entries + [f]) == DottedNames(entries);
    }
  }

  /** One more dotted name adds one key to the location map. */
  lemma LocationsAdd(entries: seq<Entry>, more: seq<Entry>, name: string)
    requires '.' in name
    requires DottedNames(more) == DottedNames(entries) + {name}
    ensures Locations(more) == Locations(entries)[name := Extension(name)]
  {
    var l, r := Locations(more), Locations(entries)[name := Extension(name)];
    assert l.Keys == DottedNames(more);
    assert r.Keys == DottedNames(entries) + {name};
    forall n | n in l.Keys
      ensures l[n] == r[n]
    {
      if n != name {
        assert r[n] == Locations(entries)[n];
      }
    }
  }

  /**
    In a listing with distinct names each entry goes to exactly one place: a
    dotted name (directory or not) to the location map under its extension and
    never to directorySet, a dotless directory only to directorySet, a dotless
    file only to extensionsSet.
   */
  lemma EntryPlacement(entries: seq<Entry>, e: Entry)
    requires DistinctNames(entries)
    requires e in entries
    ensures '.' in e.name ==>
      && e.name in Locations(entries) && Locations(entries)[e.name] == Extension(e.name)
      && Extension(e.name) in Extensions(entries)
      && e.name !in Directories(entries)
    ensures '.' !in e.name && e.isDirectory ==>
      && e.name in Directories(entries)
      && e.name !in Locations(entries)
      && e.name !in Extensions(entries)
    ensures '.' !in e.name && !e.isDirectory ==>
      && e.name in Extensions(entries)
      && e.name !in Directories(entries)
      && e.name !in Locations(entries)
  {
    assert e.name in DottedNames(entries) <==> '.' in e.name;
    if '.' !in e.name {
      forall d | d in entries && '.' in d.name
        ensures Extension(d.name) != e.name
      {
        ExtensionShape(d.name);
        assert '.' in Extension(d.name);
      }
      forall d | d in entries && d.name == e.name
        ensures d == e
      {
        var i :| 0 <= i < |entries| && entries[i] == d;
        var j :| 0 <= j < |entries| && entries[j] == e;
        assert i == j;
      }
    }
  }

  /** The total size of two listings run one after the other adds up. */
  lemma {:induction false} DottedSizeAppend(a: seq<Entry>, b: seq<Entry>)
    ensures DottedSize(a + b) == DottedSize(a) + DottedSize(b)
  {
    if b == [] {
      assert a + b == a;
    } else {
      var front := b[..|b| - 1];
      DottedSizeAppend(a, front);
      assert (a + b)[..|a + b| - 1] == a + front;
    }
  }

  /** The total size of a listing with one more entry in the middle. */
  lemma DottedSizeInsert(left: seq<Entry>, x: Entry, right: seq<Entry>)
    ensures DottedSize(left + [x] + right) == DottedSize(left + right) + DottedSize([x])
  {
    DottedSizeAppend(left + [x], right);
    DottedSizeAppend(left, [x]);
    DottedSizeAppend(left, right);
  }

  /** The total size of a listing whose entry at i is removed. */
  lemma DottedSizeRemove(b: seq<Entry>, i: nat)
    requires i < |b|
    ensures DottedSize(b) == DottedSize(b[..i] + b[i + 1..]) + DottedSize([b[i]])
  {
    SplitAt(b, i);
    DottedSizeInsert(b[..i], b[i], b[i + 1..]);
  }

  lemma SplitAt(b: seq<Entry>, i: nat)
    requires i < |b|
    ensures b == b[..i] + [b[i]] + b[i + 1..]
  {
  }

  /** Removing the entry at i removes one occurrence of it. */
  lemma MultisetRemove(b: seq<Entry>, i: nat)
    requires i < |b|
    ensures multiset(b[..i] + b[i + 1..]) == multiset(b) - multiset{b[i]}
  {
    SplitAt(b, i);
  }

  /** The total size does not depend on the order of the listing: any two orders of the same entries agree. */
  lemma {:induction false} DottedSizeOrderFree(a: seq<Entry>, b: seq<Entry>)
    requires multiset(a) == multiset(b)
    ensures DottedSize(a) == DottedSize(b)
    decreases |a|
  {
    if a == [] {
      assert |b| == |multiset(b)| == 0;
    } else {
      var front, last := a[..|a| - 1], a[|a| - 1];
      assert last in b by {
        assert last in multiset(a);
      }
      var i :| 0 <= i < |b| && b[i] == last;
      var rest := b[..i] + b[i + 1..];
      assert multiset(front) == multiset(rest) by {
        MultisetRemove(b, i);
        assert a == front + [last];
      }
      calc {
        DottedSize(a);
        { assert a == front + [last]; DottedSizeAppend(front, [last]); }
        DottedSize(front) + DottedSize([last]);
        { DottedSizeOrderFree(front, rest); }
        DottedSize(rest) + DottedSize([last]);
        { DottedSizeRemove(b, i); }
        DottedSize(b);
      }
    }
  }

  /** Entries without a dot, directories or not, add nothing to the total size. */
  lemma {:induction false} DotlessSizeZero(entries: seq<Entry>)
    requires forall e :: e in entries ==> '.' !in e.name
    ensures DottedSize(entries) == 0
  {
    if entries != [] {
      DotlessSizeZero(entries[..|entries| - 1]);
    }
  }
}
