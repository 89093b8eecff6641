/** ASCII models of the Python string operations the poster relies on:
    `str.strip()`, `str.lower()`, `str.find` / `str.rfind` and `str.join`. */
module Text {

  /** The ASCII characters for which Python's `str.isspace()` holds. */
  predicate IsSpace(c: char) {
    // space, tab, line feed, vertical tab, form feed, carriage return
    // (9 to 13) and the four separators 0x1C to 0x1F
    c == ' ' || 9 <= c as int <= 13 || 0x1C <= c as int <= 0x1F
  }

  predicate AllSpace(s: string) {
    forall k :: 0 <= k < |s| ==> IsSpace(s[k])
  }

  /** The length of the longest all-whitespace prefix of `s`. */
  function LeadingSpaces(s: string): (n: nat)
    ensures n <= |s| && AllSpace(s[..n])
    ensures n < |s| ==> !IsSpace(s[n])
    decreases |s|
  {
    if |s| > 0 && IsSpace(s[0]) then
      var m := LeadingSpaces(s[1..]);
      assert s[..m + 1] == [s[0]] + s[1..][..m];
      m + 1
    else 0
  }

  /** The length of the longest all-whitespace suffix of `s`. */
  function TrailingSpaces(s: string): (n: nat)
    ensures n <= |s| && AllSpace(s[|s| - n..])
    ensures n < |s| ==> !IsSpace(s[|s| - n - 1])
    decreases |s|
  {
    if |s| > 0 && IsSpace(s[|s| - 1]) then
      var m := TrailingSpaces(s[..|s| - 1]);
      SpaceSuffixGrows(s, m);
      m + 1
    else 0
  }

  /** A whitespace suffix of all but the last character grows by one when
      the last character is whitespace too. */
  lemma SpaceSuffixGrows(s: string, m: nat)
    requires |s| > 0 && IsSpace(s[|s| - 1])
    requires var init := s[..|s| - 1];
      m <= |init| && AllSpace(init[|init| - m..])
      && (m < |init| ==> !IsSpace(init[|init| - m - 1]))
    ensures AllSpace(s[|s| - m - 1..])
    ensures m + 1 < |s| ==> !IsSpace(s[|s| - m - 2])
  {
    var init := s[..|s| - 1];
    assert s[|s| - m - 1..] == init[|init| - m..] + [s[|s| - 1]];
  }

  /** `s.lstrip()`: drops the longest all-whitespace prefix. */
  function StripLeading(s: string): (r: string)
    ensures |r| <= |s| && r == s[|s| - |r|..]
    ensures AllSpace(s[..|s| - |r|])
    ensures |r| > 0 ==> !IsSpace(r[0])
  {
    s[LeadingSpaces(s)..]
  }

  /** `s.rstrip()`: drops the longest all-whitespace suffix. */
  function StripTrailing(s: string): (r: string)
    ensures |r| <= |s| && r == s[..|r|]
    ensures AllSpace(s[|r|..])
    ensures |r| > 0 ==> !IsSpace(r[|r| - 1])
  {
    s[..|s| - TrailingSpaces(s)]
  }

  /** `r` is `s` with the whitespace-only prefix `s[..i]` and a
      whitespace-only suffix cut off. */
  predicate CutAt(s: string, r: string, i: int) {
    0 <= i && i + |r| <= |s| && r == s[i..i + |r|]
    && AllSpace(s[..i]) && AllSpace(s[i + |r|..])
  }

  lemma SliceOfSlice(s: string, i: int, k: int)
    requires 0 <= i <= |s| && 0 <= k <= |s| - i
    ensures s[i..][..k] == s[i..i + k] && s[i..][k..] == s[i + k..]
  {
  }

  /** Stripping leading then trailing whitespace cuts the input at the
      length of its whitespace prefix. */
  lemma StripCut(s: string)
    ensures var t := StripLeading(s);
      CutAt(s, StripTrailing(t), |s| - |t|)
  {
    var t := StripLeading(s);
    var r := StripTrailing(t);
    var i := |s| - |t|;
    assert AllSpace(s[..i]);
    SliceOfSlice(s, i, |r|);
    assert t == s[i..];
    assert s[i + |r|..] == t[|r|..];
  }

  lemma NotAllSpaceAt(s: string, k: int)
    requires 0 <= k < |s| && !IsSpace(s[k])
    ensures !AllSpace(s)
  {
  }

  /** Nothing is left exactly when the input is all whitespace. */
  lemma StripEmpty(s: string)
    ensures StripTrailing(StripLeading(s)) == "" <==> AllSpace(s)
  {
    var t := StripLeading(s);
    var r := StripTrailing(t);
    if t == [] {
      assert s[..|s|] == s;
    } else {
      assert t[0] == s[|s| - |t|];
      NotAllSpaceAt(s, |s| - |t|);
      NotAllSpaceAt(t, 0);
      assert t[0..] == t;
    }
  }

  /** `s.strip()`: the input with a whitespace-only prefix and suffix cut
      off, leaving a result that neither starts nor ends with whitespace;
      it is empty exactly when the whole input was whitespace. */
  function Strip(s: string): (r: string)
    ensures exists i :: CutAt(s, r, i)
    ensures |r| > 0 ==> !IsSpace(r[0]) && !IsSpace(r[|r| - 1])
    ensures r == "" <==> AllSpace(s)
  {
    StripCut(s);
    StripEmpty(s);
    StripTrailing(StripLeading(s))
  }

  /** Stripping twice removes nothing more than stripping once. */
  lemma {:induction false} StripIdempotent(s: string)
    ensures Strip(Strip(s)) == Strip(s)
  {
    var r := Strip(s);
    if |r| > 0 {
      assert StripLeading(r) == r;
      assert StripTrailing(r) == r;
    } else {
      assert StripLeading(r) == r;
    }
  }

  /** `c.lower()` restricted to ASCII letters. */
  function LowerChar(c: char): (r: char)
    ensures 'A' <= c <= 'Z' ==> r as int == c as int + 32
    ensures !('A' <= c <= 'Z') ==> r == c
  {
    if 'A' <= c <= 'Z' then (c as int + 32) as char else c
  }

  /** `s.lower()` restricted to ASCII letters. */
  function Lower(s: string): (r: string)
    ensures |r| == |s|
    ensures forall k :: 0 <= k < |s| ==> r[k] == LowerChar(s[k])
  {
    seq(|s|, k requires 0 <= k < |s| => LowerChar(s[k]))
  }

  /** Lower-casing leaves no upper-case ASCII letter, so doing it twice is
      the same as doing it once. */
  lemma LowerIdempotent(s: string)
    ensures forall k :: 0 <= k < |s| ==> !('A' <= Lower(s)[k] <= 'Z')
    ensures Lower(Lower(s)) == Lower(s)
  {
  }

  /** `s.find(c)`: the first index of `c`, or -1 when `c` does not occur. */
  function Find(s: string, c: char): (r: int)
    ensures -1 <= r < |s|
    ensures r == -1 <==> c !in s
    ensures r >= 0 ==> s[r] == c && c !in s[..r]
  {
    if |s| == 0 then -1
    else if s[0] == c then 0
    else
      var k := Find(s[1..], c);
      if k == -1 then -1
      else
        assert s[1..][..k] == s[1..k + 1];
        assert s[..k + 1] == [s[0]] + s[1..k + 1];
        k + 1
  }

  /** `s.rfind(c)`: the last index of `c`, or -1 when `c` does not occur. */
  function RFind(s: string, c: char): (r: int)
    ensures -1 <= r < |s|
    ensures r == -1 <==> c !in s
    ensures r >= 0 ==> s[r] == c && c !in s[r + 1..]
  {
    if |s| == 0 then -1
    else if s[|s| - 1] == c then |s| - 1
    else
      var k := RFind(s[..|s| - 1], c);
      if k == -1 then
        assert s == s[..|s| - 1] + [s[|s| - 1]];
        -1
      else
        assert s[k + 1..] == s[..|s| - 1][k + 1..] + [s[|s| - 1]];
        k
  }

  /** The last `c` in `front + [c] + back` is the one shown, when `back`
      holds no other. */
  lemma {:induction false} RFindSeparator(front: string, c: char, back: string)
    requires c !in back
    ensures RFind(front + [c] + back, c) == |front|
    decreases |back|
  {
    var s := front + [c] + back;
    if |back| > 0 {
      var shorter := back[..|back| - 1];
      assert s[|s| - 1] == back[|back| - 1];
      assert s[..|s| - 1] == front + [c] + shorter;
      assert c !in shorter by {
        assert forall k :: 0 <= k < |shorter| ==> shorter[k] == back[k];
      }
      RFindSeparator(front, c, shorter);
    }
  }

  /** `sep.join(parts)`. */
  function Join(parts: seq<string>, sep: string): string
    decreases |parts|
  {
    if |parts| == 0 then ""
    else if |parts| == 1 then parts[0]
    else parts[0] + sep + Join(parts[1..], sep)
  }

  /** Joining a list of at least two parts puts the separator after the first. */
  lemma JoinCons(first: string, rest: seq<string>, sep: string)
    requires |rest| > 0
    ensures Join([first] + rest, sep) == first + sep + Join(rest, sep)
  {
    assert ([first] + rest)[1..] == rest;
  }
}
