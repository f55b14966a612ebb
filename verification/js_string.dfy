/**
 The three JavaScript string operations the chat client relies on, over
 `seq<char>`: `String.prototype.indexOf` for one character,
 `String.prototype.substring` with its clamping and swapping of arguments,
 and `String.prototype.includes` for a substring.
 */
module JsString {

  /** `t` occurs in `s` as a contiguous run of characters. */
  ghost predicate IsFactor(t: string, s: string) {
    exists i, j :: 0 <= i <= j <= |s| && s[i..j] == t
  }

  /** `t` is a trailing part of `s`. */
  predicate IsSuffix(t: string, s: string) {
    |t| <= |s| && s[|s| - |t|..] == t
  }

  /** A suffix of a suffix of `s` is a suffix of `s`. */
  lemma SuffixOfSuffix(r: string, t: string, s: string)
    requires IsSuffix(r, t) && IsSuffix(t, s)
    ensures IsSuffix(r, s)
  {
    assert s[|s| - |r|..] == s[|s| - |t|..][|t| - |r|..];
  }

  /** `s.indexOf(c)`: the first position holding `c`, or -1 when there is none. */
  function IndexOf(s: string, c: char): (r: int)
    ensures -1 <= r < |s|
  {
    if |s| == 0 then -1
    else if s[0] == c then 0
    else
      var k := IndexOf(s[1..], c);
      if k == -1 then -1 else k + 1
  }

  /** `IndexOf` answers -1 exactly when `c` is absent, and otherwise a position
      holding `c` with no `c` before it. */
  lemma {:induction false} IndexOfSpec(s: string, c: char)
    ensures IndexOf(s, c) == -1 <==> c !in s
    ensures 0 <= IndexOf(s, c) ==> s[IndexOf(s, c)] == c && c !in s[..IndexOf(s, c)]
    decreases |s|
  {
    if |s| > 0 && s[0] != c {
      IndexOfSpec(s[1..], c);
      var k := IndexOf(s[1..], c);
      assert s == [s[0]] + s[1..];
      if 0 <= k {
        assert s[..k + 1] == [s[0]] + s[1..][..k];
      }
    }
  }

  /** How `substring` reads an argument: below 0 counts as 0, past the end as the length. */
  function Clamp(x: int, len: nat): (r: nat)
    ensures r <= len
  {
    if x < 0 then 0 else if x > len then len else x
  }

  /** `s.substring(a, b)`: both ends clamped into `[0, |s|]`, then swapped if out of order. */
  function Substring(s: string, a: int, b: int): string {
    var x, y := Clamp(a, |s|), Clamp(b, |s|);
    if x <= y then s[x..y] else s[y..x]
  }

  /** `substring` does not care about the order of its arguments. In range it is
      the slice between them; an argument below 0 reads as 0 and one past the end
      as the length; two arguments on the same side of the string give the
      empty string. */
  lemma SubstringSpec(s: string, a: int, b: int)
    ensures Substring(s, a, b) == Substring(s, b, a)
    ensures 0 <= a <= b <= |s| ==> Substring(s, a, b) == s[a..b]
    ensures 0 <= b <= a <= |s| ==> Substring(s, a, b) == s[b..a]
    ensures a <= 0 <= b <= |s| ==> Substring(s, a, b) == s[..b]
    ensures 0 <= a <= |s| <= b ==> Substring(s, a, b) == s[a..]
    ensures a <= 0 && |s| <= b ==> Substring(s, a, b) == s
    ensures a <= 0 && b <= 0 ==> Substring(s, a, b) == []
    ensures a >= |s| && b >= |s| ==> Substring(s, a, b) == []
    ensures IsFactor(Substring(s, a, b), s)
  {
    var x, y := Clamp(a, |s|), Clamp(b, |s|);
    if x <= y { assert s[x..y] == Substring(s, a, b); } else { assert s[y..x] == Substring(s, a, b); }
  }

  /** `s.substring(a)`: the end defaults to the length of `s`. */
  function SubstringFrom(s: string, a: int): string {
    Substring(s, a, |s|)
  }

  /** `substring(a)` is the whole string for `a <= 0`, empty past the end, and
      in between the tail from `a`; it is always a suffix. */
  lemma SubstringFromSpec(s: string, a: int)
    ensures a <= 0 ==> SubstringFrom(s, a) == s
    ensures |s| <= a ==> SubstringFrom(s, a) == []
    ensures 0 <= a <= |s| ==> SubstringFrom(s, a) == s[a..]
    ensures IsSuffix(SubstringFrom(s, a), s)
  {
    assert s[0..] == s;
  }

  /** `s.includes(t)`: whether `t` starts at some position of `s`. */
  predicate Includes(s: string, t: string)
    decreases |s|
  {
    t <= s || (|s| > 0 && Includes(s[1..], t))
  }

  /** `t` starts at position `i` of `s`. */
  predicate OccursAt(s: string, t: string, i: nat) {
    i + |t| <= |s| && s[i..i + |t|] == t
  }

  /** A string that includes `t` has a window spelling `t`. */
  lemma {:induction false} IncludesWitness(s: string, t: string) returns (i: nat)
    requires Includes(s, t)
    ensures OccursAt(s, t, i)
    decreases |s|
  {
    if t <= s {
      i := 0;
    } else {
      var j := IncludesWitness(s[1..], t);
      i := j + 1;
      assert s[1..][j..j + |t|] == s[i..i + |t|];
    }
  }

  /** A window of `s` that spells `t` makes `s` include `t`. */
  lemma {:induction false} IncludesWindow(s: string, t: string, i: nat)
    requires OccursAt(s, t, i)
    ensures Includes(s, t)
    decreases i
  {
    if i == 0 {
      assert s[..|t|] == t;
    } else {
      assert s[1..][i - 1..i - 1 + |t|] == s[i..i + |t|];
      IncludesWindow(s[1..], t, i - 1);
    }
  }

  /** `Includes` holds exactly when some window of `s` spells `t`. */
  lemma IncludesIff(s: string, t: string)
    ensures Includes(s, t) <==> exists i: nat :: OccursAt(s, t, i)
  {
    if Includes(s, t) {
      var i := IncludesWitness(s, t);
    } else if i: nat :| OccursAt(s, t, i) {
      IncludesWindow(s, t, i);
    }
  }
}
