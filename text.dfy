/** The string operations the views use: lower-casing, `includes`, and `split(sep).pop()`. */
module Text {

  predicate IsUpper(c: char) { 'A' <= c <= 'Z' }

  /** `toLowerCase` on one character, for the ASCII letters. */
  function Lower(c: char): char {
    if IsUpper(c) then (c as int + 32) as char else c
  }

  /** `s.toLowerCase()`, character by character. */
  function LowerStr(s: string): (r: string)
    ensures |r| == |s|
    ensures forall i :: 0 <= i < |s| ==> r[i] == Lower(s[i])
  {
    seq(|s|, i requires 0 <= i < |s| => Lower(s[i]))
  }

  /** Lower-casing twice is lower-casing once. */
  lemma LowerStrIdempotent(s: string)
    ensures LowerStr(LowerStr(s)) == LowerStr(s)
  {
  }

  /** `t` occurs in `s` starting at index `i`. */
  predicate OccursAt(s: string, t: string, i: int) {
    0 <= i && i + |t| <= |s| && s[i..i + |t|] == t
  }

  /** `s.includes(t)`: try each start position from the left. */
  function Includes(s: string, t: string): (b: bool)
    ensures b ==> |t| <= |s|
    ensures |t| <= |s| && s[..|t|] == t ==> b
    decreases |s|
  {
    if |t| > |s| then false
    else if s[..|t|] == t then true
    else Includes(s[1..], t)
  }

  /** `includes` finds an occurrence exactly when there is one. */
  lemma {:induction false} IncludesIffOccurs(s: string, t: string)
    ensures Includes(s, t) <==> exists i :: OccursAt(s, t, i)
    decreases |s|
  {
    if |t| > |s| {
    } else if s[..|t|] == t {
      assert OccursAt(s, t, 0);
    } else {
      IncludesIffOccurs(s[1..], t);
      if Includes(s[1..], t) {
        var j :| OccursAt(s[1..], t, j);
        assert s[1..][j..j + |t|] == s[j + 1..j + 1 + |t|];
        assert OccursAt(s, t, j + 1);
      }
      if exists i :: OccursAt(s, t, i) {
        var i :| OccursAt(s, t, i);
        assert i != 0;
        assert s[1..][i - 1..i - 1 + |t|] == s[i..i + |t|];
        assert OccursAt(s[1..], t, i - 1);
      }
    }
  }

  /** Every string includes the empty string. */
  lemma IncludesEmpty(s: string)
    ensures Includes(s, "")
  {
    assert s[..0] == "";
  }

  /** `s.lastIndexOf(sep)`: the position of the last `sep` in `s`, or -1 when there is none. */
  function LastIndexOf(s: string, sep: char): (i: int)
    ensures -1 <= i < |s|
    ensures i >= 0 ==> s[i] == sep
    ensures forall j :: i < j < |s| ==> s[j] != sep
  {
    if s == [] then -1
    else if s[|s| - 1] == sep then |s| - 1
    else LastIndexOf(s[..|s| - 1], sep)
  }

  /** `s.split(sep).pop()`: the text after the last `sep`, or all of `s` when there is none. */
  function AfterLast(s: string, sep: char): string {
    s[LastIndexOf(s, sep) + 1..]
  }

  /** A suffix that starts after the last `sep` holds no `sep`. */
  lemma NoSepInSuffix(s: string, sep: char, i: int)
    requires -1 <= i < |s|
    requires forall j :: i < j < |s| ==> s[j] != sep
    ensures sep !in s[i + 1..]
  {
  }

  /** `split(sep).pop()` is the longest suffix of `s` free of `sep`: it holds no `sep`, and it is
      either all of `s` or preceded by a `sep`. */
  lemma AfterLastIsLastSegment(s: string, sep: char)
    ensures var r := AfterLast(s, sep);
      |r| <= |s| && r == s[|s| - |r|..] && sep !in r &&
      (|r| < |s| ==> s[|s| - |r| - 1] == sep)
  {
    var i := LastIndexOf(s, sep);
    NoSepInSuffix(s, sep, i);
    assert |s| - |AfterLast(s, sep)| == i + 1;
  }

  /** With no `sep` in `s`, `split(sep).pop()` is `s` itself. */
  lemma AfterLastWithoutSep(s: string, sep: char)
    requires sep !in s
    ensures AfterLast(s, sep) == s
  {
    assert LastIndexOf(s, sep) == -1;
  }

  /** The last `sep` of `a + [sep] + b` is the one after `a`, when `b` holds no `sep`. */
  lemma {:induction false} LastIndexOfJoin(a: string, sep: char, b: string)
    requires sep !in b
    ensures LastIndexOf(a + [sep] + b, sep) == |a|
  {
    var s := a + [sep] + b;
    if b != [] {
      var b' := b[..|b| - 1];
      assert s[..|s| - 1] == a + [sep] + b';
      assert s[|s| - 1] == b[|b| - 1];
      LastIndexOfJoin(a, sep, b');
    }
  }

  /** The part after the last `sep` of `a + [sep] + b` is `b`, when `b` holds no `sep`. */
  lemma AfterLastOfJoin(a: string, sep: char, b: string)
    requires sep !in b
    ensures AfterLast(a + [sep] + b, sep) == b
  {
    LastIndexOfJoin(a, sep, b);
    assert (a + [sep] + b)[|a| + 1..] == b;
  }
}
