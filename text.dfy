/**
 * The three pieces of Python string handling the resource handler relies on:
 * the substring test `sub in s`, `s.split(sep)` for a one-character
 * separator, and `s.lower()`.
 */
module Text {

  /** `sub in s`, as a specification: `sub` occurs at some position of `s`. */
  ghost predicate Occurs(sub: string, s: string) {
    exists i :: 0 <= i <= |s| - |sub| && OccursAt(sub, s, i)
  }

  /** `sub` is the slice of `s` that starts at position `i`. */
  ghost predicate OccursAt(sub: string, s: string, i: int)
    requires 0 <= i <= |s| - |sub|
  {
    s[i..i + |sub|] == sub
  }

  /** `sub in s`, computed by trying every start position from the left. */
  function Contains(s: string, sub: string): (b: bool)
    ensures b <==> Occurs(sub, s)
    decreases |s|
  {
    if |sub| > |s| then false
    else if s[..|sub|] == sub then (assert OccursAt(sub, s, 0); true)
    else (OccursShift(s, sub); Contains(s[1..], sub))
  }

  /** An occurrence not at position 0 is an occurrence in the tail, and back. */
  lemma OccursShift(s: string, sub: string)
    requires |sub| <= |s| && s[..|sub|] != sub
    ensures Occurs(sub, s) <==> Occurs(sub, s[1..])
  {
    if Occurs(sub, s) {
      var i :| 0 <= i <= |s| - |sub| && OccursAt(sub, s, i);
      assert i != 0;
      assert s[1..][i - 1..i - 1 + |sub|] == s[i..i + |sub|];
      assert OccursAt(sub, s[1..], i - 1);
    }
    if Occurs(sub, s[1..]) {
      var i :| 0 <= i <= |s[1..]| - |sub| && OccursAt(sub, s[1..], i);
      assert s[i + 1..i + 1 + |sub|] == s[1..][i..i + |sub|];
      assert OccursAt(sub, s, i + 1);
    }
  }

  /** `sep.join(parts)` with a one-character separator. */
  function Join(parts: seq<string>, sep: char): string
    requires |parts| >= 1
  {
    if |parts| == 1 then parts[0] else parts[0] + [sep] + Join(parts[1..], sep)
  }

  /**
   * `s.split(sep)`: the maximal runs of `s` between occurrences of `sep`,
   * one more than the number of separators, empty runs included.
   */
  function Split(s: string, sep: char): (parts: seq<string>)
    ensures |parts| >= 1
    ensures forall i :: 0 <= i < |parts| ==> sep !in parts[i]
    ensures |parts| >= 2 <==> sep in s
    decreases |s|
  {
    if |s| == 0 then [""]
    else if s[0] == sep then [""] + Split(s[1..], sep)
    else
      var rest := Split(s[1..], sep);
      [[s[0]] + rest[0]] + rest[1..]
  }

  /** Splitting and joining again gives back the original string. */
  lemma {:induction false} JoinSplit(s: string, sep: char)
    ensures Join(Split(s, sep), sep) == s
    decreases |s|
  {
    if |s| > 0 {
      JoinSplit(s[1..], sep);
      var rest := Split(s[1..], sep);
      if s[0] == sep {
        assert Split(s, sep) == [""] + rest;
        assert ([""] + rest)[1..] == rest;
      } else {
        assert Split(s, sep) == [[s[0]] + rest[0]] + rest[1..];
        JoinExtendFirst(s[0], rest, sep);
      }
      assert s == [s[0]] + s[1..];
    }
  }

  /** Prepending a character to the first part prepends it to the join. */
  lemma JoinExtendFirst(c: char, parts: seq<string>, sep: char)
    requires |parts| >= 1
    ensures Join([[c] + parts[0]] + parts[1..], sep) == [c] + Join(parts, sep)
  {
    var parts' := [[c] + parts[0]] + parts[1..];
    assert parts'[1..] == parts[1..];
  }

  /** Joining separator-free parts and splitting again gives back the parts. */
  lemma {:induction false} SplitJoin(parts: seq<string>, sep: char)
    requires |parts| >= 1
    requires forall i :: 0 <= i < |parts| ==> sep !in parts[i]
    ensures Split(Join(parts, sep), sep) == parts
    decreases |parts|, |parts[0]|
  {
    var p := parts[0];
    if |p| == 0 {
      if |parts| > 1 {
        SplitJoin(parts[1..], sep);
        SplitAfterEmptyHead(parts, sep);
      }
    } else {
      var parts' := [p[1..]] + parts[1..];
      assert parts'[1..] == parts[1..];
      SplitJoin(parts', sep);
      SplitAfterLetter(parts, sep);
    }
  }

  lemma SplitAfterEmptyHead(parts: seq<string>, sep: char)
    requires |parts| > 1 && parts[0] == ""
    requires Split(Join(parts[1..], sep), sep) == parts[1..]
    ensures Split(Join(parts, sep), sep) == parts
  {
    var j := Join(parts, sep);
    assert j == [sep] + Join(parts[1..], sep);
    assert j[1..] == Join(parts[1..], sep);
  }

  lemma SplitAfterLetter(parts: seq<string>, sep: char)
    requires |parts| >= 1 && |parts[0]| > 0 && parts[0][0] != sep
    requires Split(Join([parts[0][1..]] + parts[1..], sep), sep) == [parts[0][1..]] + parts[1..]
    ensures Split(Join(parts, sep), sep) == parts
  {
    var p := parts[0];
    var parts' := [p[1..]] + parts[1..];
    assert parts'[1..] == parts[1..];
    var j := Join(parts, sep);
    assert j == [p[0]] + Join(parts', sep);
    assert j[1..] == Join(parts', sep);
    assert [p[0]] + p[1..] == p;
  }

  /** Python's `str.lower()` on one character, for the ASCII letters. */
  function LowerChar(c: char): char {
    if 'A' <= c <= 'Z' then (c as int + 32) as char else c
  }

  /** `s.lower()`: every ASCII capital replaced by its small letter. */
  function Lower(s: string): (r: string)
    ensures |r| == |s|
    ensures forall i :: 0 <= i < |s| ==> r[i] == LowerChar(s[i])
  {
    if s == [] then [] else [LowerChar(s[0])] + Lower(s[1..])
  }

  /** Lower-casing works piecewise: `(a + b).lower() == a.lower() + b.lower()`. */
  lemma LowerAppend(a: string, b: string)
    ensures Lower(a + b) == Lower(a) + Lower(b)
  {
    assert forall i :: 0 <= i < |a + b| ==> Lower(a + b)[i] == (Lower(a) + Lower(b))[i];
  }
}
