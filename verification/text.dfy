/** The few Python `str` operations the scripts rely on: strip, startswith, `in`, find, replace, lower. */
module Text {
  import opened Wrappers

  /** Python's `str.isspace` for one character (Unicode White_Space as CPython defines it). */
  predicate IsSpace(c: char) {
    || '\t' <= c <= '\r'
    || '\U{1c}' <= c <= '\U{1f}'
    || c == ' ' || c == '\U{85}' || c == '\U{a0}' || c == '\U{1680}'
    || '\U{2000}' <= c <= '\U{200a}'
    || c == '\U{2028}' || c == '\U{2029}' || c == '\U{202f}' || c == '\U{205f}' || c == '\U{3000}'
  }

  /** `s.lstrip()`: the longest suffix of `s` that does not start with white space. */
  function StripLeft(s: string): (r: string)
    ensures |r| <= |s| && r == s[|s| - |r|..]
    ensures forall i :: 0 <= i < |s| - |r| ==> IsSpace(s[i])
    ensures r == [] || !IsSpace(r[0])
  {
    if s == [] || !IsSpace(s[0]) then s else StripLeft(s[1..])
  }

  /** `s.rstrip()`: the longest prefix of `s` that does not end with white space. */
  function StripRight(s: string): (r: string)
    ensures |r| <= |s| && r == s[..|r|]
    ensures forall i :: |r| <= i < |s| ==> IsSpace(s[i])
    ensures r == [] || !IsSpace(r[|r| - 1])
  {
    if s == [] || !IsSpace(s[|s| - 1]) then s else StripRight(s[..|s| - 1])
  }

  /** `s.strip()`. */
  function Strip(s: string): string {
    StripRight(StripLeft(s))
  }

  /** Stripping keeps a contiguous part of the text: no character is invented, neither end is
      white space, and a text that starts with a non-space character keeps that character in front. */
  lemma StripIsSlice(s: string)
    ensures forall c :: c in Strip(s) ==> c in s
    ensures Strip(s) == [] || (!IsSpace(Strip(s)[0]) && !IsSpace(Strip(s)[|Strip(s)| - 1]))
    ensures |s| > 0 && !IsSpace(s[0]) ==> Strip(s) != [] && Strip(s)[0] == s[0]
  {
    StripKeepsChars(s);
    StripIsTrimmed(s);
    if |s| > 0 && !IsSpace(s[0]) {
      assert StripLeft(s) == s;
      assert StripRight(s)[0] == s[0];
    }
  }

  lemma StripKeepsChars(s: string)
    ensures forall c :: c in Strip(s) ==> c in s
  {
    var l := StripLeft(s);
    SliceChars(s, |s| - |l|, |s|);
    SliceChars(l, 0, |StripRight(l)|);
  }

  /** A slice holds only characters of the whole. */
  lemma SliceChars(s: string, i: nat, j: nat)
    requires i <= j <= |s|
    ensures forall c :: c in s[i..j] ==> c in s
  {
    forall c | c in s[i..j] ensures c in s {
      var k :| 0 <= k < j - i && s[i..j][k] == c;
      assert s[i + k] == c;
    }
  }

  /** No white space at either end. */
  predicate Trimmed(s: string) {
    s == [] || (!IsSpace(s[0]) && !IsSpace(s[|s| - 1]))
  }

  lemma StripIsTrimmed(s: string)
    ensures Trimmed(Strip(s))
  {
    var l := StripLeft(s);
    var r := StripRight(l);
    if r != [] {
      assert r[0] == l[0];
    }
  }

  /** A trimmed text is its own strip. */
  lemma StripTrimmed(s: string)
    requires Trimmed(s)
    ensures Strip(s) == s
  {
  }

  /** Trailing white space of `b` is all that `rstrip` takes from `a + b` when `a` ends in a
      non-space character. */
  lemma {:induction false} StripRightAppend(a: string, b: string)
    requires a != [] && !IsSpace(a[|a| - 1])
    ensures StripRight(a + b) == a + StripRight(b)
    decreases |b|
  {
    var s := a + b;
    if b == [] {
      assert s == a;
    } else if IsSpace(b[|b| - 1]) {
      assert s[..|s| - 1] == a + b[..|b| - 1];
      StripRightAppend(a, b[..|b| - 1]);
    }
  }

  /** `lstrip` of a text with one more character at the end. */
  lemma {:induction false} StripLeftSnoc(s: string, c: char)
    ensures StripLeft(s + [c]) == if StripLeft(s) == [] then StripLeft([c]) else StripLeft(s) + [c]
    decreases |s|
  {
    if s != [] && IsSpace(s[0]) {
      assert (s + [c])[1..] == s[1..] + [c];
      StripLeftSnoc(s[1..], c);
    } else if s == [] {
      assert s + [c] == [c];
    }
  }

  /** `lstrip` and `rstrip` commute. */
  lemma {:induction false} StripLeftRightCommute(s: string)
    ensures StripLeft(StripRight(s)) == StripRight(StripLeft(s))
    decreases |s|
  {
    if s != [] {
      if IsSpace(s[|s| - 1]) {
        StripLeftRightCommute(s[..|s| - 1]);
        TrailingSpaceIgnored(s);
      } else {
        NonSpaceEnd(s);
      }
    }
  }

  /** A text ending in a non-space character keeps it through `lstrip`. */
  lemma NonSpaceEnd(s: string)
    requires s != [] && !IsSpace(s[|s| - 1])
    ensures StripRight(s) == s && StripRight(StripLeft(s)) == StripLeft(s)
  {
    var l := StripLeft(s);
    assert l != [] && l[|l| - 1] == s[|s| - 1];
  }

  /** A trailing white-space character makes no difference to `rstrip` after `lstrip`. */
  lemma TrailingSpaceIgnored(s: string)
    requires s != [] && IsSpace(s[|s| - 1])
    ensures StripRight(StripLeft(s)) == StripRight(StripLeft(s[..|s| - 1]))
  {
    var init := s[..|s| - 1];
    assert s == init + [s[|s| - 1]];
    StripLeftSnoc(init, s[|s| - 1]);
    var l := StripLeft(init);
    if l != [] {
      assert (l + [s[|s| - 1]])[..|l|] == l;
    }
  }

  /** Stripping after `rstrip` is stripping. */
  lemma StripAfterStripRight(s: string)
    ensures Strip(StripRight(s)) == Strip(s)
  {
    StripLeftRightCommute(s);
    var r := StripLeft(s);
    assert StripRight(StripRight(r)) == StripRight(r);
  }

  /** The first occurrence of `c` is where `IndexOf` points. */
  lemma IndexOfFirst(s: string, c: char, k: nat)
    requires k < |s| && s[k] == c && c !in s[..k]
    ensures IndexOf(s, c) == Some(k)
  {
  }

  /** `s.startswith(p)`. */
  predicate StartsWith(s: string, p: string) {
    |p| <= |s| && s[..|p|] == p
  }

  /** `s.endswith(p)`. */
  predicate EndsWith(s: string, p: string) {
    |p| <= |s| && s[|s| - |p|..] == p
  }

  /** `p in s`, the substring test. */
  predicate Contains(s: string, p: string)
    decreases |s|
  {
    StartsWith(s, p) || (|s| > 0 && Contains(s[1..], p))
  }

  /** `p` occurs in `s` starting at index `i`. */
  predicate OccursAt(s: string, p: string, i: int) {
    0 <= i <= |s| - |p| && s[i..i + |p|] == p
  }

  /** `Contains` holds exactly when `p` occurs at some position of `s`. */
  lemma {:induction false} ContainsAt(s: string, p: string)
    ensures Contains(s, p) <==> exists i :: OccursAt(s, p, i)
    decreases |s|
  {
    if |s| > 0 {
      ContainsAt(s[1..], p);
      if Contains(s[1..], p) {
        var i :| OccursAt(s[1..], p, i);
        assert OccursAt(s, p, i + 1);
      }
      if StartsWith(s, p) {
        assert OccursAt(s, p, 0);
      }
      if i :| OccursAt(s, p, i) {
        if i > 0 {
          assert OccursAt(s[1..], p, i - 1);
        } else {
          assert s[..|p|] == s[i..i + |p|];
        }
      }
    } else {
      if i :| OccursAt(s, p, i) {
        assert s[..|p|] == s[i..i + |p|];
      }
      if Contains(s, p) {
        assert OccursAt(s, p, 0);
      }
    }
  }

  /** `s.find(c)` for one character, as an index or None for -1. */
  function IndexOf(s: string, c: char): (r: Option<nat>)
    ensures r.Some? ==> r.value < |s| && s[r.value] == c && c !in s[..r.value]
    ensures r.None? <==> c !in s
  {
    if s == [] then None
    else if s[0] == c then Some(0)
    else match IndexOf(s[1..], c)
      case None => None
      case Some(k) => assert s[..k + 1] == [s[0]] + s[1..][..k]; Some(k + 1)
  }

  /** `s.replace(c, rep)` for a one-character pattern: every `c` becomes `rep`. */
  function ReplaceChar(s: string, c: char, rep: string): (r: string)
    ensures c !in rep ==> c !in r
    ensures forall d :: d in r ==> d in s || d in rep
    ensures forall d :: d != c && d in s ==> d in r
  {
    if s == [] then []
    else (if s[0] == c then rep else [s[0]]) + ReplaceChar(s[1..], c, rep)
  }

  lemma ReplaceCharOne(x: char, c: char, rep: string)
    ensures ReplaceChar([x], c, rep) == if x == c then rep else [x]
  {
    assert [x][1..] == [];
  }

  lemma {:induction false} ReplaceCharAppend(a: string, b: string, c: char, rep: string)
    ensures ReplaceChar(a + b, c, rep) == ReplaceChar(a, c, rep) + ReplaceChar(b, c, rep)
  {
    if a == [] {
      assert a + b == b;
    } else {
      assert (a + b)[1..] == a[1..] + b;
      ReplaceCharAppend(a[1..], b, c, rep);
    }
  }

  lemma {:induction false} ReplaceCharAbsent(s: string, c: char, rep: string)
    requires c !in s
    ensures ReplaceChar(s, c, rep) == s
  {
    if s != [] {
      ReplaceCharAbsent(s[1..], c, rep);
    }
  }

  /** One character of `str.lower()`, for the ASCII letters. */
  function LowerChar(c: char): char {
    if 'A' <= c <= 'Z' then (c as int + 32) as char else c
  }

  /** `s.lower()` restricted to ASCII letters. */
  function Lower(s: string): (r: string)
    ensures |r| == |s|
    ensures forall i :: 0 <= i < |s| ==> r[i] == LowerChar(s[i])
  {
    if s == [] then [] else [LowerChar(s[0])] + Lower(s[1..])
  }

  /** Lowering twice is lowering once. */
  lemma LowerIdempotent(s: string)
    ensures Lower(Lower(s)) == Lower(s)
  {
    assert forall i :: 0 <= i < |s| ==> LowerChar(LowerChar(s[i])) == LowerChar(s[i]);
  }
}
