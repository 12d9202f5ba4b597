/**
  The few java.lang.String operations the file sorter relies on, over Dafny
  strings (sequences of char): lastIndexOf, substring-from-index (Dafny's
  slice), toLowerCase and replace(".", "").
 */
module Text {

  /** String.lastIndexOf for a single character: -1 when it does not occur. */
  function LastIndexOf(s: string, c: char): (r: int)
    ensures -1 <= r < |s|
    ensures r == -1 <==> c !in s
    ensures 0 <= r ==> s[r] == c && forall j :: r < j < |s| ==> s[j] != c
  {
    if s == [] then -1
    else if s[|s| - 1] == c then |s| - 1
    else LastIndexOf(s[..|s| - 1], c)
  }

  predicate IsUpper(c: char) {
    'A' <= c <= 'Z'
  }

  /** Character.toLowerCase restricted to the ASCII letters. */
  function LowerChar(c: char): char {
    if IsUpper(c) then (c as int + 32) as char else c
  }

  /** Character.toUpperCase restricted to the ASCII letters. */
  function UpperChar(c: char): char {
    if 'a' <= c <= 'z' then (c as int - 32) as char else c
  }

  /** String.toLowerCase: each character is lowered, nothing else changes. */
  function ToLower(s: string): (r: string)
    ensures |r| == |s|
    ensures forall i :: 0 <= i < |s| ==> r[i] == LowerChar(s[i]) && !IsUpper(r[i])
  {
    if s == [] then [] else [LowerChar(s[0])] + ToLower(s[1..])
  }

  /** String.toUpperCase on ASCII letters; used to state case-insensitivity. */
  function ToUpper(s: string): (r: string)
    ensures |r| == |s|
    ensures forall i :: 0 <= i < |s| ==> r[i] == UpperChar(s[i])
  {
    if s == [] then [] else [UpperChar(s[0])] + ToUpper(s[1..])
  }

  /**
    String.replace(".", ""): every dot is dropped, every other character is
    kept, in order.
   */
  function RemoveDots(s: string): (r: string)
    ensures '.' !in r
    ensures |r| <= |s|
    ensures forall c :: c in r <==> c in s && c != '.'
    ensures '.' !in s ==> r == s
  {
    if s == [] then []
    else if s[0] == '.' then RemoveDots(s[1..])
    else [s[0]] + RemoveDots(s[1..])
  }

  predicate StartsWith(s: string, prefix: string) {
    |prefix| <= |s| && s[..|prefix|] == prefix
  }

  /** Lower-casing a string that has no upper-case letter changes nothing. */
  lemma ToLowerOfLower(s: string)
    requires forall i :: 0 <= i < |s| ==> !IsUpper(s[i])
    ensures ToLower(s) == s
  {
    assert forall i :: 0 <= i < |s| ==> ToLower(s)[i] == s[i];
  }

  /** Lower-casing is idempotent. */
  lemma ToLowerIdempotent(s: string)
    ensures ToLower(ToLower(s)) == ToLower(s)
  {
    ToLowerOfLower(ToLower(s));
  }

  /** Upper-casing first and then lower-casing is the same as lower-casing. */
  lemma ToLowerOfUpper(s: string)
    ensures ToLower(ToUpper(s)) == ToLower(s)
  {
    assert forall i :: 0 <= i < |s| ==> ToLower(ToUpper(s))[i] == ToLower(s)[i];
  }

  /** Dropping dots commutes with upper-casing, since a dot has no case. */
  lemma {:induction false} RemoveDotsOfUpper(s: string)
    ensures RemoveDots(ToUpper(s)) == ToUpper(RemoveDots(s))
  {
    if s != [] {
      RemoveDotsOfUpper(s[1..]);
      assert ToUpper(s)[1..] == ToUpper(s[1..]);
    }
  }

  /** Dropping dots commutes with lower-casing. */
  lemma {:induction false} RemoveDotsOfLower(s: string)
    ensures RemoveDots(ToLower(s)) == ToLower(RemoveDots(s))
  {
    if s != [] {
      RemoveDotsOfLower(s[1..]);
      assert ToLower(s)[1..] == ToLower(s[1..]);
    }
  }

  /** On one character: a dot is dropped, any other character is kept. */
  lemma RemoveDotsChar(c: char)
    ensures RemoveDots([c]) == if c == '.' then [] else [c]
  {
    assert [c][1..] == [];
  }

  /** Dropping dots from a string with a known first character. */
  lemma RemoveDotsFront(c: char, s: string)
    ensures RemoveDots([c] + s) == (if c == '.' then [] else [c]) + RemoveDots(s)
  {
    assert ([c] + s)[0] == c;
    assert ([c] + s)[1..] == s;
  }

  /**
    Dropping dots works piece by piece: with RemoveDotsChar this fixes the
    result as the characters other than '.', each once, in their order.
   */
  lemma {:induction false} RemoveDotsAppend(a: string, b: string)
    ensures RemoveDots(a + b) == RemoveDots(a) + RemoveDots(b)
  {
    if a == [] {
      assert a + b == b;
    } else {
      var c, rest := a[0], a[1..];
      var head: string := if c == '.' then [] else [c];
      calc {
        RemoveDots(a + b);
        { assert a + b == [c] + (rest + b); }
        RemoveDots([c] + (rest + b));
        { RemoveDotsFront(c, rest + b); }
        head + RemoveDots(rest + b);
        { RemoveDotsAppend(rest, b); }
        head + (RemoveDots(rest) + RemoveDots(b));
        (head + RemoveDots(rest)) + RemoveDots(b);
        { RemoveDotsFront(c, rest); assert a == [c] + rest; }
        RemoveDots(a) + RemoveDots(b);
      }
    }
  }
}
