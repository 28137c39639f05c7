/** The string primitives the backend leans on: Python's whitespace test, `str.strip`,
    `str.split(sep)`, `sep.join(parts)`, the `in` substring test and decimal rendering. */
module Strings {

  /** Python's `str.isspace`, which is also the set that `re`'s `\s` and `str.strip()` use. */
  predicate IsSpace(c: char)
  {
    ('\t' <= c <= '\r') || ('\U{1C}' <= c <= '\U{1F}') || c == ' ' || c == '\U{85}' || c == '\U{A0}'
    || c == '\U{1680}' || ('\U{2000}' <= c <= '\U{200A}') || c == '\U{2028}' || c == '\U{2029}'
    || c == '\U{202F}' || c == '\U{205F}' || c == '\U{3000}'
  }

  predicate IsAsciiLetter(c: char) { ('a' <= c <= 'z') || ('A' <= c <= 'Z') }

  predicate IsDigit(c: char) { '0' <= c <= '9' }

  /** The regular-expression class `\w`, restricted to ASCII. */
  predicate IsWordChar(c: char) { IsAsciiLetter(c) || IsDigit(c) || c == '_' }

  /** True when every character is whitespace: Python treats `s.strip()` of such a string as falsy. */
  predicate Blank(s: string) { forall i :: 0 <= i < |s| ==> IsSpace(s[i]) }

  /** No whitespace at either end. */
  predicate Stripped(s: string) { s == [] || (!IsSpace(s[0]) && !IsSpace(s[|s| - 1])) }

  /** The index of the first non-whitespace character in `[i, hi)`, or `hi`. */
  function SkipSpace(s: string, i: nat, hi: nat): (k: nat)
    requires i <= hi <= |s|
    ensures i <= k <= hi
    ensures k < hi ==> !IsSpace(s[k])
    decreases hi - i
  {
    if i < hi && IsSpace(s[i]) then SkipSpace(s, i + 1, hi) else i
  }

  /** Everything `SkipSpace` skips is whitespace. */
  lemma {:induction false} SkipSpaceSkipsSpace(s: string, i: nat, hi: nat)
    requires i <= hi <= |s|
    ensures forall j | i <= j < SkipSpace(s, i, hi) :: IsSpace(s[j])
    decreases hi - i
  {
    if i < hi && IsSpace(s[i]) {
      SkipSpaceSkipsSpace(s, i + 1, hi);
    }
  }

  /** Moving down from `j` towards `lo`: one past the last non-whitespace character, or `lo`. */
  function SkipSpaceBack(s: string, lo: nat, j: nat): (k: nat)
    requires lo <= j <= |s|
    ensures lo <= k <= j
    ensures k > lo ==> !IsSpace(s[k - 1])
    decreases j
  {
    if j > lo && IsSpace(s[j - 1]) then SkipSpaceBack(s, lo, j - 1) else j
  }

  /** Everything `SkipSpaceBack` skips is whitespace. */
  lemma {:induction false} SkipSpaceBackSkipsSpace(s: string, lo: nat, j: nat)
    requires lo <= j <= |s|
    ensures forall m | SkipSpaceBack(s, lo, j) <= m < j :: IsSpace(s[m])
    decreases j
  {
    if j > lo && IsSpace(s[j - 1]) {
      SkipSpaceBackSkipsSpace(s, lo, j - 1);
    }
  }

  /** Where the stripped text starts inside its source string. */
  function StripStart(s: string): nat
  {
    SkipSpace(s, 0, |s|)
  }

  /** Where the stripped text ends inside its source string. */
  function StripEnd(s: string): (k: nat)
    ensures StripStart(s) <= k <= |s|
  {
    SkipSpaceBack(s, StripStart(s), |s|)
  }

  /** `s.lstrip()`: the suffix left after dropping leading whitespace. */
  function TrimLeft(s: string): (r: string)
    ensures |r| <= |s|
    ensures s != [] && IsSpace(s[0]) ==> |r| < |s|
  {
    s[StripStart(s)..]
  }

  /** `s.strip()`: the slice of `s` that remains once whitespace is removed from both ends. */
  function Strip(s: string): (r: string)
    ensures Stripped(r) && |r| <= |s|
  {
    s[StripStart(s)..StripEnd(s)]
  }

  /** `s[a:b].strip()`, computed on `s` itself rather than on the slice. */
  function StripSlice(s: string, a: nat, b: nat): (r: string)
    requires a <= b <= |s|
    ensures Stripped(r)
  {
    var lo := SkipSpace(s, a, b);
    s[lo..SkipSpaceBack(s, lo, b)]
  }

  /** Both ways of stripping a slice agree. */
  lemma StripSliceIsStrip(s: string, a: nat, b: nat)
    requires a <= b <= |s|
    ensures StripSlice(s, a, b) == Strip(s[a..b])
  {
    var lo := SkipSpace(s, a, b);
    var hi := SkipSpaceBack(s, lo, b);
    StripBoundsOfSlice(s, a, b);
    SliceOfSlice(s, a, b, lo - a, hi - a);
  }

  lemma StripBoundsOfSlice(s: string, a: nat, b: nat)
    requires a <= b <= |s|
    ensures StripStart(s[a..b]) + a == SkipSpace(s, a, b)
    ensures StripEnd(s[a..b]) + a == SkipSpaceBack(s, SkipSpace(s, a, b), b)
  {
    SkipSpaceShift(s, a, b, a);
    SkipSpaceBackShift(s, a, SkipSpace(s, a, b), b, b);
  }

  lemma SliceOfSlice(s: string, a: nat, b: nat, i: nat, j: nat)
    requires a <= b <= |s| && i <= j <= b - a
    ensures s[a..b][i..j] == s[a + i..a + j]
  {
    assert forall k | 0 <= k < j - i :: s[a..b][i..j][k] == s[a + i + k];
  }

  lemma {:induction false} SkipSpaceShift(s: string, a: nat, b: nat, i: nat)
    requires a <= i <= b <= |s|
    ensures SkipSpace(s[a..b], i - a, b - a) + a == SkipSpace(s, i, b)
    decreases b - i
  {
    if i < b {
      assert s[a..b][i - a] == s[i];
      SkipSpaceShift(s, a, b, i + 1);
    }
  }

  lemma {:induction false} SkipSpaceBackShift(s: string, a: nat, lo: nat, b: nat, j: nat)
    requires a <= lo <= j <= b <= |s|
    ensures SkipSpaceBack(s[a..b], lo - a, j - a) + a == SkipSpaceBack(s, lo, j)
    decreases j
  {
    if j > lo {
      assert s[a..b][j - a - 1] == s[j - 1];
      SkipSpaceBackShift(s, a, lo, b, j - 1);
    }
  }

  /** Stripping yields nothing exactly when the input is all whitespace. */
  lemma StripEmptyIffBlank(s: string)
    ensures Strip(s) == [] <==> Blank(s)
  {
    SkipSpaceSkipsSpace(s, 0, |s|);
    SkipSpaceBackSkipsSpace(s, StripStart(s), |s|);
  }

  /** A string with no whitespace at its ends is its own strip. */
  lemma StripStripped(s: string)
    requires Stripped(s)
    ensures Strip(s) == s
  {
    assert StripStart(s) == 0;
  }

  /** `str.strip` is idempotent. */
  lemma StripIdempotent(s: string)
    ensures Strip(Strip(s)) == Strip(s)
  {
    StripStripped(Strip(s));
  }

  lemma ConcatAssoc<T>(a: seq<T>, b: seq<T>, c: seq<T>)
    ensures (a + b) + c == a + (b + c)
  {
  }

  lemma TailOfConcat<T>(x: seq<T>, z: seq<T>)
    requires x != []
    ensures (x + z)[0] == x[0] && (x + z)[1..] == x[1..] + z
  {
  }

  /** The non-whitespace characters of `s`, in order: the words of a text with the spacing
      between them forgotten. */
  function NonSpace(s: string): (r: string)
    ensures |r| <= |s|
  {
    if s == [] then [] else (if IsSpace(s[0]) then [] else [s[0]]) + NonSpace(s[1..])
  }

  lemma {:induction false} NonSpaceConcat(x: string, y: string)
    ensures NonSpace(x + y) == NonSpace(x) + NonSpace(y)
  {
    if x == [] {
      assert x + y == y;
    } else {
      TailOfConcat(x, y);
      NonSpaceConcat(x[1..], y);
      ConcatAssoc(if IsSpace(x[0]) then [] else [x[0]], NonSpace(x[1..]), NonSpace(y));
    }
  }

  lemma {:induction false} NonSpaceBlank(s: string)
    requires Blank(s)
    ensures NonSpace(s) == []
  {
    if s != [] {
      NonSpaceBlank(s[1..]);
    }
  }

  /** Swapping whitespace characters for other whitespace characters, position by position,
      keeps the words. */
  lemma {:induction false} NonSpaceSpacewise(r: string, s: string)
    requires |r| == |s|
    requires forall i | 0 <= i < |s| :: r[i] == s[i] || (IsSpace(r[i]) && IsSpace(s[i]))
    ensures NonSpace(r) == NonSpace(s)
  {
    if s != [] {
      NonSpaceSpacewise(r[1..], s[1..]);
    }
  }

  /** `strip` removes only whitespace, so it keeps every word. */
  lemma {:induction false} StripKeepsNonSpace(s: string)
    ensures NonSpace(Strip(s)) == NonSpace(s)
  {
    var a, b := StripStart(s), StripEnd(s);
    SkipSpaceSkipsSpace(s, 0, |s|);
    SkipSpaceBackSkipsSpace(s, a, |s|);
    var p, m, q := s[..a], s[a..b], s[b..];
    assert Blank(p) && Blank(q);
    assert s == p + m + q;
    NonSpaceFramed(p, m, q);
  }

  /** Whitespace on either side adds nothing to the words. */
  lemma {:induction false} NonSpaceFramed(p: string, m: string, q: string)
    requires Blank(p) && Blank(q)
    ensures NonSpace(p + m + q) == NonSpace(m)
  {
    NonSpaceConcat(p + m, q);
    NonSpaceConcat(p, m);
    NonSpaceBlank(p);
    NonSpaceBlank(q);
  }

  /** `lstrip` removes only whitespace, so it keeps every word. */
  lemma {:induction false} TrimLeftKeepsNonSpace(s: string)
    ensures NonSpace(TrimLeft(s)) == NonSpace(s)
  {
    var a := StripStart(s);
    SkipSpaceSkipsSpace(s, 0, |s|);
    assert s == s[..a] + s[a..];
    NonSpaceConcat(s[..a], s[a..]);
    NonSpaceBlank(s[..a]);
  }

  /** Whether `sub` occurs in `s` at index `i`. */
  predicate OccursAt(s: string, sub: string, i: int)
  {
    0 <= i && i + |sub| <= |s| && s[i..i + |sub|] == sub
  }

  /** Python's `sub in s`. */
  predicate Contains(s: string, sub: string)
  {
    exists i | 0 <= i <= |s| - |sub| :: OccursAt(s, sub, i)
  }

  /** `sep.join(parts)`. */
  function Join(parts: seq<string>, sep: string): string
  {
    if |parts| == 0 then ""
    else if |parts| == 1 then parts[0]
    else parts[0] + sep + Join(parts[1..], sep)
  }

  /** `s.split(sep)`: cut at every leftmost non-overlapping occurrence of `sep`. */
  function Split(s: string, sep: string): (r: seq<string>)
    requires |sep| > 0
    ensures |r| >= 1
  {
    SplitFrom(s, sep, "")
  }

  /** The scan behind `Split`: `cur` holds the piece read since the last separator. */
  function SplitFrom(s: string, sep: string, cur: string): (r: seq<string>)
    requires |sep| > 0
    ensures |r| >= 1
    decreases |s|
  {
    if |s| == 0 then [cur]
    else if |sep| <= |s| && s[..|sep|] == sep then [cur] + SplitFrom(s[|sep|..], sep, "")
    else SplitFrom(s[1..], sep, cur + [s[0]])
  }

  /** Joining the pieces of a split gives back the text. */
  lemma {:induction false} JoinSplitFrom(s: string, sep: string, cur: string)
    requires |sep| > 0
    ensures Join(SplitFrom(s, sep, cur), sep) == cur + s
    decreases |s|
  {
    if |s| == 0 {
    } else if |sep| <= |s| && s[..|sep|] == sep {
      JoinSplitFrom(s[|sep|..], sep, "");
      assert s == sep + s[|sep|..];
    } else {
      JoinSplitFrom(s[1..], sep, cur + [s[0]]);
      assert cur + [s[0]] + s[1..] == cur + s;
    }
  }

  lemma JoinSplit(s: string, sep: string)
    requires |sep| > 0
    ensures Join(Split(s, sep), sep) == s
  {
    JoinSplitFrom(s, sep, "");
  }

  /** No occurrence of `sep` starts inside `x`, even one that runs on into a following `sep`:
      the condition under which `x` survives a join followed by a split. */
  predicate SepFree(x: string, sep: string)
  {
    forall i :: 0 <= i < |x| ==> !OccursAt(x + sep, sep, i)
  }

  /** Scanning over a separator-free piece just accumulates it. */
  lemma {:induction false} SplitFromSkips(x: string, t: string, sep: string, cur: string)
    requires |sep| > 0 && SepFree(x, sep)
    requires t == [] || (|t| >= |sep| && t[..|sep|] == sep)
    ensures SplitFrom(x + t, sep, cur) == SplitFrom(t, sep, cur + x)
    decreases |x|
  {
    if x == [] {
      assert x + t == t && cur + x == cur;
    } else {
      var s := x + t;
      var y := x + sep;
      assert !OccursAt(y, sep, 0);
      if |sep| <= |s| {
        // the window at 0 reads the same text in x + t as in x + sep
        if |x| >= |sep| {
          assert s[..|sep|] == x[..|sep|] == y[..|sep|];
        } else {
          assert |t| >= |sep|;
          assert s[..|sep|] == x + t[..|sep| - |x|];
          assert t[..|sep| - |x|] == sep[..|sep| - |x|];
          assert y[..|sep|] == x + sep[..|sep| - |x|];
        }
      }
      assert y[1..] == x[1..] + sep;
      forall i | 0 <= i < |x[1..]| ensures !OccursAt(x[1..] + sep, sep, i) {
        assert !OccursAt(y, sep, i + 1);
        if i + |sep| <= |x[1..] + sep| {
          assert y[i + 1..i + 1 + |sep|] == y[1..][i..i + |sep|];
        }
      }
      assert s[1..] == x[1..] + t;
      SplitFromSkips(x[1..], t, sep, cur + [s[0]]);
      assert cur + [s[0]] + x[1..] == cur + x;
    }
  }

  /** Splitting a join of separator-free pieces gives back the pieces. */
  lemma {:induction false} SplitJoin(xs: seq<string>, sep: string)
    requires |sep| > 0 && |xs| >= 1
    requires forall x | x in xs :: SepFree(x, sep)
    ensures Split(Join(xs, sep), sep) == xs
    decreases |xs|
  {
    if |xs| == 1 {
      assert xs[0] + "" == xs[0] && "" + xs[0] == xs[0];
      assert Join(xs, sep) == xs[0] && xs == [xs[0]];
      SplitFromSkips(xs[0], "", sep, "");
    } else {
      var rest := Join(xs[1..], sep);
      assert Join(xs, sep) == xs[0] + (sep + rest);
      SplitFromSkips(xs[0], sep + rest, sep, "");
      assert (sep + rest)[..|sep|] == sep && (sep + rest)[|sep|..] == rest;
      assert "" + xs[0] == xs[0];
      assert SplitFrom(sep + rest, sep, xs[0]) == [xs[0]] + SplitFrom(rest, sep, "");
      SplitJoin(xs[1..], sep);
    }
  }

  /** A piece without the separator's first character is separator-free. */
  lemma SepFreeWithout(x: string, sep: string)
    requires |sep| > 0 && sep[0] !in x
    ensures SepFree(x, sep)
  {
    forall i | 0 <= i < |x| ensures !OccursAt(x + sep, sep, i) {
      assert (x + sep)[i] == x[i];
    }
  }

  /** The decimal digit for `d < 10`. */
  function DigitChar(d: nat): char
    requires d < 10
  {
    "0123456789"[d]
  }

  /** Python's `str(n)` for a natural number. */
  function NatToString(n: nat): (r: string)
    ensures |r| >= 1
    ensures forall i | 0 <= i < |r| :: IsDigit(r[i])
  {
    if n < 10 then [DigitChar(n)] else NatToString(n / 10) + [DigitChar(n % 10)]
  }

  /** Python's `str(i)` / JavaScript's template rendering of an integer. */
  function IntToString(i: int): string
  {
    if i < 0 then "-" + NatToString(-i) else NatToString(i)
  }

  /** The value of a string of decimal digits. */
  function DigitsValue(s: string): nat
    requires forall i | 0 <= i < |s| :: IsDigit(s[i])
  {
    if s == [] then 0
    else
      var d := s[|s| - 1];
      assert IsDigit(d);
      10 * DigitsValue(s[..|s| - 1]) + (d as int - '0' as int)
  }

  /** Reading back a rendered number gives the number. */
  lemma {:induction false} NatToStringRoundTrip(n: nat)
    ensures DigitsValue(NatToString(n)) == n
  {
    if n >= 10 {
      NatToStringRoundTrip(n / 10);
      var s := NatToString(n);
      assert s[..|s| - 1] == NatToString(n / 10);
    }
  }

  /** Distinct numbers render differently. */
  lemma NatToStringInjective(m: nat, n: nat)
    requires m != n
    ensures NatToString(m) != NatToString(n)
  {
    NatToStringRoundTrip(m);
    NatToStringRoundTrip(n);
  }

  /** Python's `str.lower()` on ASCII letters. */
  function ToLower(s: string): (r: string)
    ensures |r| == |s|
    ensures forall i | 0 <= i < |s| :: r[i] == (if 'A' <= s[i] <= 'Z' then (s[i] as int + 32) as char else s[i])
  {
    seq(|s|, i requires 0 <= i < |s| => if 'A' <= s[i] <= 'Z' then (s[i] as int + 32) as char else s[i])
  }

  /** `[p.strip() for p in pieces if p.strip()]`. */
  function NonBlankStripped(pieces: seq<string>): (r: seq<string>)
    ensures |r| <= |pieces|
    ensures forall i | 0 <= i < |r| :: Stripped(r[i]) && r[i] != ""
  {
    if pieces == [] then []
    else (if Strip(pieces[0]) != "" then [Strip(pieces[0])] else []) + NonBlankStripped(pieces[1..])
  }

  /** Pieces that are already stripped and non-empty pass through unchanged. */
  lemma {:induction false} NonBlankStrippedKeeps(pieces: seq<string>)
    requires forall i | 0 <= i < |pieces| :: Stripped(pieces[i]) && pieces[i] != ""
    ensures NonBlankStripped(pieces) == pieces
  {
    if pieces != [] {
      StripStripped(pieces[0]);
      NonBlankStrippedKeeps(pieces[1..]);
    }
  }

  /** Blank pieces all disappear. */
  lemma {:induction false} NonBlankStrippedOfBlanks(pieces: seq<string>)
    requires forall i | 0 <= i < |pieces| :: Blank(pieces[i])
    ensures NonBlankStripped(pieces) == []
  {
    if pieces != [] {
      StripEmptyIffBlank(pieces[0]);
      NonBlankStrippedOfBlanks(pieces[1..]);
    }
  }

  /** Splitting on a one-character separator leaves no separator in any piece. */
  lemma {:induction false} SplitFromOmitsSeparator(s: string, c: char, cur: string)
    requires c !in cur
    ensures forall i | 0 <= i < |SplitFrom(s, [c], cur)| :: c !in SplitFrom(s, [c], cur)[i]
    decreases |s|
  {
    if |s| == 0 {
    } else if s[..1] == [c] {
      SplitFromOmitsSeparator(s[1..], c, "");
    } else {
      assert s[0] != c by { assert s[..1] == [s[0]]; }
      SplitFromOmitsSeparator(s[1..], c, cur + [s[0]]);
    }
  }

  /** Splitting a blank text gives blank pieces. */
  lemma {:induction false} SplitFromOfBlank(s: string, sep: string, cur: string)
    requires |sep| > 0 && Blank(s) && Blank(cur)
    ensures forall i | 0 <= i < |SplitFrom(s, sep, cur)| :: Blank(SplitFrom(s, sep, cur)[i])
    decreases |s|
  {
    if |s| == 0 {
    } else if |sep| <= |s| && s[..|sep|] == sep {
      SplitFromOfBlank(s[|sep|..], sep, "");
    } else {
      SplitFromOfBlank(s[1..], sep, cur + [s[0]]);
    }
  }

  /** Python's `s[:n]`, including the negative `n` that counts from the end. */
  function PyPrefix<T>(s: seq<T>, n: int): (r: seq<T>)
    ensures r <= s
    ensures 0 <= n ==> |r| == if n < |s| then n else |s|
    ensures n < 0 ==> |r| == if |s| + n < 0 then 0 else |s| + n
  {
    if n >= 0 then s[..if n < |s| then n else |s|] else s[..if |s| + n < 0 then 0 else |s| + n]
  }
}
