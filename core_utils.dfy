/** The pure text helpers of the backend: the cleaner applied to every extracted page,
    the merge of pages into one document, the filename sanitiser shared by every save and
    load, and the parser that turns the model's reply into query paraphrases. */
module CoreUtils {
  import opened Wrappers
  import opened Strings

  // ---------------------------------------------------------------------------
  // preprocess_for_llm
  // ---------------------------------------------------------------------------

  /** Whether the text opens with a word character, a hyphen, a newline and a word character. */
  predicate BreakAtFront(u: string)
  {
    |u| >= 4 && IsWordChar(u[0]) && u[1] == '-' && u[2] == '\n' && IsWordChar(u[3])
  }

  /** `re.sub(r'(\w)-\n(\w)', r'\1\2', s)`: a word broken by a hyphen at a line end is
      rejoined; matches are found left to right and do not overlap. */
  function Dehyphenate(s: string): (r: string)
    ensures |r| <= |s|
  {
    if BreakAtFront(s) then [s[0], s[3]] + Dehyphenate(s[4..])
    else if s == [] then []
    else [s[0]] + Dehyphenate(s[1..])
  }

  /** Whether position `i` holds a newline with no newline on either side. */
  predicate LoneNewlineAt(s: string, i: int)
    requires 0 <= i < |s|
  {
    s[i] == '\n' && !(i > 0 && s[i - 1] == '\n') && !(i + 1 < |s| && s[i + 1] == '\n')
  }

  /** A newline at `i`, if there is one, has whitespace next to it. */
  predicate PairedAt(s: string, i: int)
    requires 0 <= i < |s|
  {
    s[i] == '\n' ==> (i > 0 && IsSpace(s[i - 1])) || (i + 1 < |s| && IsSpace(s[i + 1]))
  }

  /** Every newline has whitespace next to it. */
  predicate NewlinesPaired(s: string)
  {
    forall i | 0 <= i < |s| :: PairedAt(s, i)
  }

  /** `re.sub(r'(?<!\n)\n(?!\n)', ' ', s)`: a lone newline becomes a space; the look-arounds
      read the original text. */
  function JoinLoneNewlines(s: string): (r: string)
    ensures |r| == |s|
    ensures forall i | 0 <= i < |s| :: r[i] == (if LoneNewlineAt(s, i) then ' ' else s[i])
  {
    seq(|s|, i requires 0 <= i < |s| => if LoneNewlineAt(s, i) then ' ' else s[i])
  }

  /** After the lone newlines are gone, every remaining newline has a newline or a space beside it. */
  lemma JoinLoneNewlinesPairs(s: string)
    ensures NewlinesPaired(JoinLoneNewlines(s))
  {
    var r := JoinLoneNewlines(s);
    assert IsSpace('\n') && IsSpace(' ');
    forall i | 0 <= i < |r| ensures PairedAt(r, i) {
      if r[i] == '\n' {
        assert s[i] == '\n' && !LoneNewlineAt(s, i);
        if i > 0 && s[i - 1] == '\n' {
          assert r[i - 1] == '\n';
        } else {
          assert r[i + 1] == '\n';
        }
      }
    }
  }

  /** No two whitespace characters in a row. */
  predicate NoDoubleSpace(s: string)
  {
    forall i | 0 <= i < |s| - 1 :: !(IsSpace(s[i]) && IsSpace(s[i + 1]))
  }

  /** `re.sub(r'\s{2,}', ' ', s)`: each run of two or more whitespace characters becomes
      one space; a single whitespace character is left as it is. */
  function CollapseSpaces(s: string): (r: string)
    ensures (r == []) == (s == [])
    ensures s != [] ==> (IsSpace(r[0]) <==> IsSpace(s[0]))
    ensures NoDoubleSpace(r)
    decreases |s|
  {
    if s == [] then []
    else if |s| >= 2 && IsSpace(s[0]) && IsSpace(s[1]) then " " + CollapseSpaces(TrimLeft(s))
    else [s[0]] + CollapseSpaces(s[1..])
  }

  /** Turning lone newlines into spaces keeps every word. */
  lemma {:induction false} JoinLoneKeepsNonSpace(s: string)
    ensures NonSpace(JoinLoneNewlines(s)) == NonSpace(s)
  {
    assert IsSpace('\n') && IsSpace(' ');
    NonSpaceSpacewise(JoinLoneNewlines(s), s);
  }

  /** Collapsing whitespace runs keeps every word, in order. */
  lemma {:induction false} CollapseKeepsNonSpace(s: string)
    ensures NonSpace(CollapseSpaces(s)) == NonSpace(s)
    decreases |s|
  {
    if s == [] {
    } else if |s| >= 2 && IsSpace(s[0]) && IsSpace(s[1]) {
      var t := TrimLeft(s);
      CollapseKeepsNonSpace(t);
      TrimLeftKeepsNonSpace(s);
      NonSpaceConcat(" ", CollapseSpaces(t));
      assert NonSpace(" ") == [] by { assert IsSpace(' ') && " "[1..] == []; }
    } else {
      CollapseKeepsNonSpace(s[1..]);
      NonSpaceConcat([s[0]], CollapseSpaces(s[1..]));
      assert [s[0]][1..] == [];
    }
  }

  /** A text without two whitespace characters in a row is left as it is. */
  lemma {:induction false} CollapseKeepsSingle(s: string)
    requires NoDoubleSpace(s)
    ensures CollapseSpaces(s) == s
    decreases |s|
  {
    if s != [] {
      assert NoDoubleSpace(s[1..]) by {
        forall i | 0 <= i < |s[1..]| - 1 ensures !(IsSpace(s[1..][i]) && IsSpace(s[1..][i + 1])) {
          assert s[1..][i] == s[i + 1] && s[1..][i + 1] == s[i + 2];
        }
      }
      CollapseKeepsSingle(s[1..]);
    }
  }

  /** A run of two or more whitespace characters between two pieces of text becomes exactly
      one space, and the pieces are collapsed on their own. */
  lemma {:induction false} CollapseRunJoins(x: string, w: string, y: string)
    requires x == [] || !IsSpace(x[|x| - 1])
    requires |w| >= 2 && Blank(w)
    requires y == [] || !IsSpace(y[0])
    ensures CollapseSpaces(x + w + y) == CollapseSpaces(x) + " " + CollapseSpaces(y)
  {
    ConcatAssoc(x, w, y);
    CollapseSplit(x, w + y);
    CollapseRun(w, y);
    ConcatAssoc(CollapseSpaces(x), " ", CollapseSpaces(y));
  }

  /** Collapsing a blank run of two or more characters in front of a word gives one space. */
  lemma {:induction false} CollapseRun(w: string, y: string)
    requires |w| >= 2 && Blank(w)
    requires y == [] || !IsSpace(y[0])
    ensures CollapseSpaces(w + y) == " " + CollapseSpaces(y)
  {
    var s := w + y;
    assert IsSpace(s[0]) && IsSpace(s[1]);
    SkipSpaceOverBlank(w, y, 0);
    assert TrimLeft(s) == y;
  }

  lemma {:induction false} SkipSpaceOverBlank(w: string, y: string, i: nat)
    requires i <= |w| && Blank(w)
    requires y == [] || !IsSpace(y[0])
    ensures SkipSpace(w + y, i, |w + y|) == |w|
    decreases |w| - i
  {
    if i < |w| {
      assert (w + y)[i] == w[i];
      SkipSpaceOverBlank(w, y, i + 1);
    } else if y != [] {
      assert (w + y)[i] == y[0];
    }
  }

  /** Collapsing splits after a non-whitespace character, since no run crosses it. */
  lemma {:induction false} CollapseSplit(x: string, z: string)
    requires x == [] || !IsSpace(x[|x| - 1])
    ensures CollapseSpaces(x + z) == CollapseSpaces(x) + CollapseSpaces(z)
    decreases |x|
  {
    if x == [] {
      assert x + z == z;
    } else if |x| >= 2 && IsSpace(x[0]) && IsSpace(x[1]) {
      TrimLeftBeforeWord(x, z);
      CollapseSplit(TrimLeft(x), z);
      CollapseSplitRun(x, z);
    } else {
      if |x| >= 2 { assert x[1..][|x| - 2] == x[|x| - 1]; }
      CollapseSplit(x[1..], z);
      CollapseSplitPlain(x, z);
    }
  }

  /** One step of `CollapseSplit` when `x` opens with a run. */
  lemma {:induction false} CollapseSplitRun(x: string, z: string)
    requires |x| >= 2 && IsSpace(x[0]) && IsSpace(x[1])
    requires TrimLeft(x + z) == TrimLeft(x) + z
    requires CollapseSpaces(TrimLeft(x) + z) == CollapseSpaces(TrimLeft(x)) + CollapseSpaces(z)
    ensures CollapseSpaces(x + z) == CollapseSpaces(x) + CollapseSpaces(z)
  {
    assert (x + z)[0] == x[0] && (x + z)[1] == x[1];
  }

  /** One step of `CollapseSplit` when `x` does not open with a run. */
  lemma {:induction false} CollapseSplitPlain(x: string, z: string)
    requires x != [] && !IsSpace(x[|x| - 1]) && !(|x| >= 2 && IsSpace(x[0]) && IsSpace(x[1]))
    requires CollapseSpaces(x[1..] + z) == CollapseSpaces(x[1..]) + CollapseSpaces(z)
    ensures CollapseSpaces(x + z) == CollapseSpaces(x) + CollapseSpaces(z)
  {
    var s := x + z;
    TailOfConcat(x, z);
    assert !(|s| >= 2 && IsSpace(s[1])) || !IsSpace(s[0]) by {
      if |x| >= 2 { assert s[1] == x[1]; }
    }
    CollapseCopiesFirst(s);
    CollapseCopiesFirst(x);
    ConcatAssoc([x[0]], CollapseSpaces(x[1..]), CollapseSpaces(z));
  }

  /** Without a run at the front, collapsing copies the first character. */
  lemma CollapseCopiesFirst(s: string)
    requires s != [] && !(|s| >= 2 && IsSpace(s[0]) && IsSpace(s[1]))
    ensures CollapseSpaces(s) == [s[0]] + CollapseSpaces(s[1..])
  {
  }

  /** Leading whitespace of a text that ends in a word stops inside that text. */
  lemma {:induction false} TrimLeftBeforeWord(x: string, z: string)
    requires x != [] && IsSpace(x[0]) && !IsSpace(x[|x| - 1])
    ensures TrimLeft(x + z) == TrimLeft(x) + z && |TrimLeft(x)| < |x|
    ensures TrimLeft(x) != [] && !IsSpace(TrimLeft(x)[|TrimLeft(x)| - 1])
  {
    var k := SkipSpace(x, 0, |x|);
    SkipSpaceSkipsSpace(x, 0, |x|);
    assert k < |x|;
    SkipSpaceBeforeWord(x, z, 0);
    assert (x + z)[k..] == x[k..] + z;
    assert x[k..][|x| - k - 1] == x[|x| - 1];
  }

  lemma {:induction false} SkipSpaceBeforeWord(x: string, z: string, i: nat)
    requires i < |x| && !IsSpace(x[|x| - 1])
    ensures SkipSpace(x + z, i, |x + z|) == SkipSpace(x, i, |x|)
    decreases |x| - i
  {
    assert (x + z)[i] == x[i];
    if IsSpace(x[i]) {
      SkipSpaceBeforeWord(x, z, i + 1);
    }
  }

  /** Pairing survives cutting off a prefix that does not strand the first newline kept. */
  lemma NewlinesPairedSuffix(s: string, k: nat)
    requires NewlinesPaired(s) && k <= |s|
    requires k < |s| && s[k] == '\n' ==> k + 1 < |s| && IsSpace(s[k + 1])
    ensures NewlinesPaired(s[k..])
  {
    var t := s[k..];
    forall j | 0 <= j < |t| ensures PairedAt(t, j) {
      assert PairedAt(s, k + j);
      if j + 1 < |t| { assert t[j + 1] == s[k + j + 1]; }
      if j > 0 { assert t[j - 1] == s[k + j - 1]; }
    }
  }

  /** Once every newline has a whitespace neighbour, collapsing runs removes all newlines. */
  lemma {:induction false} CollapseRemovesNewlines(s: string)
    requires NewlinesPaired(s)
    ensures '\n' !in CollapseSpaces(s)
    decreases |s|
  {
    if s == [] {
    } else if |s| >= 2 && IsSpace(s[0]) && IsSpace(s[1]) {
      var t := TrimLeft(s);
      NewlinesPairedSuffix(s, |s| - |t|);
      CollapseRemovesNewlines(t);
    } else {
      assert IsSpace('\n') && PairedAt(s, 0);
      if |s| > 1 { assert PairedAt(s, 1); }
      NewlinesPairedSuffix(s, 1);
      CollapseRemovesNewlines(s[1..]);
    }
  }

  /** `preprocess_for_llm`: rejoin hyphenated words, turn lone newlines into spaces,
      squeeze whitespace runs, strip the ends. */
  function Preprocess(text: string): (r: string)
    ensures Stripped(r)
    ensures '\n' !in r
    ensures NoDoubleSpace(r)
    ensures NonSpace(r) == NonSpace(Dehyphenate(text))
  {
    var squeezed := CollapseSpaces(JoinLoneNewlines(Dehyphenate(text)));
    PreprocessShape(text);
    PreprocessKeepsWords(text);
    Strip(squeezed)
  }

  /** The stages after dehyphenation only rewrite whitespace, so the words survive them. */
  lemma {:induction false} PreprocessKeepsWords(text: string)
    ensures NonSpace(Strip(CollapseSpaces(JoinLoneNewlines(Dehyphenate(text)))))
      == NonSpace(Dehyphenate(text))
  {
    var d := Dehyphenate(text);
    JoinLoneKeepsNonSpace(d);
    CollapseKeepsNonSpace(JoinLoneNewlines(d));
    StripKeepsNonSpace(CollapseSpaces(JoinLoneNewlines(d)));
  }

  /** A hyphen break between two word characters reaches the cleaned text as the joined word:
      the two word characters stand side by side in the result, the words before them are
      those of the text before the break and the words after them those of the text after it. */
  lemma {:induction false} PreprocessJoins(u: string, a: char, b: char, v: string)
    requires IsWordChar(a) && IsWordChar(b) && !EndsInBreak(u)
    ensures NonSpace(Preprocess(u + [a, '-', '\n', b] + v))
      == NonSpace(Dehyphenate(u)) + [a, b] + NonSpace(Dehyphenate(v))
    ensures var r := Preprocess(u + [a, '-', '\n', b] + v);
      exists i | 0 <= i && i + 2 <= |r| ::
        r[i..i + 2] == [a, b]
        && NonSpace(r[..i]) == NonSpace(Dehyphenate(u))
        && NonSpace(r[i + 2..]) == NonSpace(Dehyphenate(v))
  {
    var du, dv := Dehyphenate(u), Dehyphenate(v);
    DehyphenateJoins(u, a, b, v);
    NonSpaceConcat(du + [a, b], dv);
    NonSpaceConcat(du, [a, b]);
    NonSpacePair(a, b);
    var joined := JoinLoneNewlines(du + [a, b] + dv);
    JoinAround(du, a, b, dv);
    var left, right := joined[..|du|], joined[|du| + 2..];
    CollapseAround(left, a, b, right);
    CollapseKeepsNonSpace(left);
    CollapseKeepsNonSpace(right);
    StripAround(CollapseSpaces(left), a, b, CollapseSpaces(right));
  }

  /** Lone newlines become spaces on either side of two word characters, which stay put. */
  lemma {:induction false} JoinAround(x: string, a: char, b: char, y: string)
    requires IsWordChar(a) && IsWordChar(b)
    ensures var j := JoinLoneNewlines(x + [a, b] + y);
      j == j[..|x|] + [a, b] + j[|x| + 2..]
      && NonSpace(j[..|x|]) == NonSpace(x) && NonSpace(j[|x| + 2..]) == NonSpace(y)
  {
    var d := x + [a, b] + y;
    var j := JoinLoneNewlines(d);
    assert IsSpace('\n') && IsSpace(' ');
    assert d[|x|] == a && d[|x| + 1] == b;
    assert j[|x|] == a && j[|x| + 1] == b;
    assert j == j[..|x|] + [a, b] + j[|x| + 2..];
    assert d[..|x|] == x && d[|x| + 2..] == y;
    JoinKeepsSlice(d, 0, |x|);
    JoinKeepsSlice(d, |x| + 2, |d|);
    assert d[|x| + 2..|d|] == d[|x| + 2..] && j[|x| + 2..|d|] == j[|x| + 2..];
  }

  /** Any slice of the joined text has the words of the same slice before joining. */
  lemma {:induction false} JoinKeepsSlice(d: string, lo: nat, hi: nat)
    requires lo <= hi <= |d|
    ensures NonSpace(JoinLoneNewlines(d)[lo..hi]) == NonSpace(d[lo..hi])
  {
    var j := JoinLoneNewlines(d);
    assert IsSpace('\n') && IsSpace(' ');
    forall i | 0 <= i < hi - lo ensures j[lo..hi][i] == d[lo..hi][i] || (IsSpace(j[lo..hi][i]) && IsSpace(d[lo..hi][i])) {
      assert j[lo..hi][i] == j[lo + i] && d[lo..hi][i] == d[lo + i];
    }
    NonSpaceSpacewise(j[lo..hi], d[lo..hi]);
  }

  /** No whitespace run crosses two adjacent word characters, so each side collapses on its own. */
  lemma {:induction false} CollapseAround(x: string, a: char, b: char, y: string)
    requires !IsSpace(a) && !IsSpace(b)
    ensures CollapseSpaces(x + [a, b] + y) == CollapseSpaces(x) + [a, b] + CollapseSpaces(y)
  {
    assert x + [a, b] + y == (x + [a]) + ([b] + y);
    CollapseSplit(x + [a], [b] + y);
    CollapseSnoc(x, a);
    TailOfConcat([b], y);
    CollapseCopiesFirst([b] + y);
    assert (CollapseSpaces(x) + [a]) + ([b] + CollapseSpaces(y))
      == CollapseSpaces(x) + [a, b] + CollapseSpaces(y);
  }

  /** A closing non-whitespace character is copied after the collapsed text. */
  lemma {:induction false} CollapseSnoc(s: string, c: char)
    requires !IsSpace(c)
    ensures CollapseSpaces(s + [c]) == CollapseSpaces(s) + [c]
    decreases |s|
  {
    var t := s + [c];
    if s == [] {
      assert t == [c];
    } else if |s| >= 2 && IsSpace(s[0]) && IsSpace(s[1]) {
      assert t[0] == s[0] && t[1] == s[1];
      TrimLeftSnoc(s, c);
      CollapseSnoc(TrimLeft(s), c);
      ConcatAssoc(" ", CollapseSpaces(TrimLeft(s)), [c]);
    } else {
      assert !(|t| >= 2 && IsSpace(t[0]) && IsSpace(t[1])) by {
        if |s| >= 2 { assert t[1] == s[1]; } else { assert t[1] == c; }
      }
      TailOfConcat(s, [c]);
      CollapseCopiesFirst(t);
      CollapseSnoc(s[1..], c);
      CollapseCopiesFirst(s);
      ConcatAssoc([s[0]], CollapseSpaces(s[1..]), [c]);
    }
  }

  lemma {:induction false} TrimLeftSnoc(s: string, c: char)
    requires !IsSpace(c)
    ensures TrimLeft(s + [c]) == TrimLeft(s) + [c]
  {
    SkipSpaceSnoc(s, c, 0);
    var k := SkipSpace(s, 0, |s|);
    assert (s + [c])[k..] == s[k..] + [c];
  }

  lemma {:induction false} SkipSpaceSnoc(s: string, c: char, i: nat)
    requires i <= |s| && !IsSpace(c)
    ensures SkipSpace(s + [c], i, |s| + 1) == SkipSpace(s, i, |s|)
    decreases |s| - i
  {
    var t := s + [c];
    if i < |s| {
      assert t[i] == s[i];
      if IsSpace(s[i]) {
        SkipSpaceSnoc(s, c, i + 1);
      }
    } else {
      assert t[i] == c;
    }
  }

  /** Stripping only trims whitespace at the ends, so two non-whitespace characters in the
      middle survive with the words on either side of them. */
  lemma {:induction false} StripAround(x: string, a: char, b: char, y: string)
    requires !IsSpace(a) && !IsSpace(b)
    ensures var r := Strip(x + [a, b] + y);
      exists i | 0 <= i && i + 2 <= |r| ::
        r[i..i + 2] == [a, b] && NonSpace(r[..i]) == NonSpace(x) && NonSpace(r[i + 2..]) == NonSpace(y)
  {
    var k := x + [a, b] + y;
    assert k[|x|] == a && k[|x| + 1] == b;
    StripAroundAt(k, |x|);
    assert k[..|x|] == x && k[|x|..|x| + 2] == [a, b] && k[|x| + 2..] == y;
  }

  /** `StripAround` for two non-whitespace characters at position `p` of any text. */
  lemma {:induction false} StripAroundAt(k: string, p: nat)
    requires p + 2 <= |k| && !IsSpace(k[p]) && !IsSpace(k[p + 1])
    ensures var r := Strip(k);
      exists i | 0 <= i && i + 2 <= |r| ::
        r[i..i + 2] == k[p..p + 2] && NonSpace(r[..i]) == NonSpace(k[..p])
        && NonSpace(r[i + 2..]) == NonSpace(k[p + 2..])
  {
    StripBounds(k, p);
    StripSlices(k, p);
    StripDropsBlank(k, p);
    var i := p - StripStart(k);
    assert 0 <= i && i + 2 <= |Strip(k)|;
  }

  /** Where the text around position `p` lands in the stripped text. */
  lemma {:induction false} StripSlices(k: string, p: nat)
    requires StripStart(k) <= p && p + 2 <= StripEnd(k)
    ensures var r, i := Strip(k), p - StripStart(k);
      r[i..i + 2] == k[p..p + 2] && r[..i] == k[StripStart(k)..p] && r[i + 2..] == k[p + 2..StripEnd(k)]
  {
    var st, en := StripStart(k), StripEnd(k);
    var i := p - st;
    SliceOfSlice(k, st, en, i, i + 2);
    SliceOfSlice(k, st, en, 0, i);
    SliceOfSlice(k, st, en, i + 2, en - st);
  }

  /** The whitespace stripping drops around position `p` holds no words. */
  lemma {:induction false} StripDropsBlank(k: string, p: nat)
    requires StripStart(k) <= p && p + 2 <= StripEnd(k)
    requires Blank(k[..StripStart(k)]) && Blank(k[StripEnd(k)..])
    ensures NonSpace(k[StripStart(k)..p]) == NonSpace(k[..p])
    ensures NonSpace(k[p + 2..StripEnd(k)]) == NonSpace(k[p + 2..])
  {
    DropBlankFront(k, StripStart(k), p);
    DropBlankBack(k, p + 2, StripEnd(k));
  }

  lemma {:induction false} DropBlankFront(k: string, st: nat, p: nat)
    requires st <= p <= |k| && Blank(k[..st])
    ensures NonSpace(k[st..p]) == NonSpace(k[..p])
  {
    var front := k[..p];
    SliceOfSlice(k, 0, p, 0, st);
    SliceOfSlice(k, 0, p, st, p);
    assert front[..st] == front[0..st];
    NonSpaceTrimmed(front, st, p);
  }

  lemma {:induction false} DropBlankBack(k: string, q: nat, en: nat)
    requires q <= en <= |k| && Blank(k[en..])
    ensures NonSpace(k[q..en]) == NonSpace(k[q..])
  {
    var back := k[q..];
    assert back == k[q..|k|] && k[en..] == k[en..|k|];
    SliceOfSlice(k, q, |k|, 0, en - q);
    SliceOfSlice(k, q, |k|, en - q, |k| - q);
    assert back[en - q..] == back[en - q..|back|];
    NonSpaceTrimmed(back, 0, en - q);
  }

  /** Stripping stops at the first and last non-whitespace characters, and what it drops is blank. */
  lemma {:induction false} StripBounds(k: string, p: nat)
    requires p + 2 <= |k| && !IsSpace(k[p]) && !IsSpace(k[p + 1])
    ensures StripStart(k) <= p && p + 2 <= StripEnd(k)
    ensures Blank(k[..StripStart(k)]) && Blank(k[StripEnd(k)..])
  {
    SkipSpaceSkipsSpace(k, 0, |k|);
    SkipSpaceBackSkipsSpace(k, StripStart(k), |k|);
  }

  /** Cutting blank text off both ends keeps the words. */
  lemma {:induction false} NonSpaceTrimmed(s: string, lo: nat, hi: nat)
    requires lo <= hi <= |s| && Blank(s[..lo]) && Blank(s[hi..])
    ensures NonSpace(s[lo..hi]) == NonSpace(s)
  {
    assert s == s[..lo] + s[lo..hi] + s[hi..];
    NonSpaceFramed(s[..lo], s[lo..hi], s[hi..]);
  }


  lemma NonSpacePair(a: char, b: char)
    requires IsWordChar(a) && IsWordChar(b)
    ensures NonSpace([a, b]) == [a, b]
  {
    assert [a, b][1..] == [b] && [b][1..] == [];
  }

  lemma PreprocessShape(text: string)
    ensures var squeezed := CollapseSpaces(JoinLoneNewlines(Dehyphenate(text)));
      '\n' !in Strip(squeezed) && NoDoubleSpace(Strip(squeezed))
  {
    var joined := JoinLoneNewlines(Dehyphenate(text));
    JoinLoneNewlinesPairs(Dehyphenate(text));
    var squeezed := CollapseSpaces(joined);
    CollapseRemovesNewlines(joined);
    StripKeepsShape(squeezed);
  }

  /** Stripping keeps "no newline" and "no double whitespace", being a slice. */
  lemma StripKeepsShape(s: string)
    ensures '\n' !in s ==> '\n' !in Strip(s)
    ensures NoDoubleSpace(s) ==> NoDoubleSpace(Strip(s))
  {
    var t := Strip(s);
    var k := StripStart(s);
    assert forall i | 0 <= i < |t| :: t[i] == s[k + i];
  }

  /** Whether the text ends in a word character, a hyphen and a newline, so that a word
      character after it would complete a break inside the text itself. */
  predicate EndsInBreak(u: string)
  {
    |u| >= 3 && IsWordChar(u[|u| - 3]) && u[|u| - 2] == '-' && u[|u| - 1] == '\n'
  }

  /** A hyphen-newline break between two word characters is rejoined wherever it occurs, and
      the text on either side is cleaned on its own, unless the text before it ends in a
      break of its own that the first word character would complete. */
  lemma DehyphenateJoins(u: string, a: char, b: char, v: string)
    requires IsWordChar(a) && IsWordChar(b) && !EndsInBreak(u)
    ensures Dehyphenate(u + [a, '-', '\n', b] + v) == Dehyphenate(u) + [a, b] + Dehyphenate(v)
  {
    var w := [a, '-', '\n', b] + v;
    assert u + [a, '-', '\n', b] + v == u + w;
    assert BreakAtFront(w) && w[4..] == v;
    DehyphenateSplit(u, w);
  }

  /** Cleaning distributes over a cut just before a break, when the text before the cut does
      not end in a break the cut would complete. */
  lemma {:induction false} DehyphenateSplit(u: string, w: string)
    requires BreakAtFront(w) && !EndsInBreak(u)
    ensures Dehyphenate(u + w) == Dehyphenate(u) + Dehyphenate(w)
    decreases |u|
  {
    if u == [] {
      assert u + w == w;
    } else if BreakAtFront(u) {
      var t := u[4..];
      NoBreakInSuffix(u, 4);
      DehyphenateFrontBreak(u, w);
      DehyphenateSplit(t, w);
      calc {
        Dehyphenate(u + w);
        [u[0], u[3]] + Dehyphenate(t + w);
        [u[0], u[3]] + (Dehyphenate(t) + Dehyphenate(w));
        ([u[0], u[3]] + Dehyphenate(t)) + Dehyphenate(w);
      }
    } else {
      var t := u[1..];
      NoBreakInSuffix(u, 1);
      DehyphenateFrontPlain(u, w);
      DehyphenateSplit(t, w);
      calc {
        Dehyphenate(u + w);
        [u[0]] + Dehyphenate(t + w);
        [u[0]] + (Dehyphenate(t) + Dehyphenate(w));
        ([u[0]] + Dehyphenate(t)) + Dehyphenate(w);
      }
    }
  }

  /** A text that does not end in a break has no suffix that does. */
  lemma NoBreakInSuffix(u: string, k: nat)
    requires k <= |u| && !EndsInBreak(u)
    ensures !EndsInBreak(u[k..])
  {
    var t := u[k..];
    if |t| >= 3 {
      assert t[|t| - 3] == u[|u| - 3] && t[|t| - 2] == u[|u| - 2] && t[|t| - 1] == u[|u| - 1];
    }
  }

  /** A break at the front of `u` is rejoined whatever follows `u`. */
  lemma DehyphenateFrontBreak(u: string, w: string)
    requires BreakAtFront(u)
    ensures Dehyphenate(u + w) == [u[0], u[3]] + Dehyphenate(u[4..] + w)
  {
    assert (u + w)[4..] == u[4..] + w;
  }

  /** Without a break at the front of `u`, and with a break right after a short `u` that `u`
      does not complete, the first character is copied whatever follows. */
  lemma DehyphenateFrontPlain(u: string, w: string)
    requires u != [] && !BreakAtFront(u) && !EndsInBreak(u) && BreakAtFront(w)
    ensures Dehyphenate(u + w) == [u[0]] + Dehyphenate(u[1..] + w)
  {
    var s := u + w;
    assert !BreakAtFront(s) by {
      if |u| >= 4 { assert s[..4] == u[..4]; }
      else if |u| == 3 { assert s[..3] == u; }
      else if |u| == 2 { assert s[2] == w[0]; }
      else { assert s[1] == w[0]; }
    }
    assert s[1..] == u[1..] + w;
  }

  // ---------------------------------------------------------------------------
  // build_combined_document
  // ---------------------------------------------------------------------------

  /** One extracted page; the label is the caller's "file (Page n)" string. */
  datatype Page = Page(pageNumber: string, pdfText: Option<string>)

  datatype CleanedPage = CleanedPage(pageNumber: string, cleanedText: string)

  datatype CombinedDocument = CombinedDocument(combinedText: string, perPage: seq<CleanedPage>)

  /** `p["pdf_text"] or ""`. */
  function PageText(p: Page): string
  {
    match p.pdfText
    case Some(t) => t
    case None => ""
  }

  /** The block a page contributes to the merged text. */
  function Section(p: CleanedPage): string
  {
    "--- PAGE " + p.pageNumber + " ---\n" + p.cleanedText
  }

  function Sections(ps: seq<CleanedPage>): (r: seq<string>)
    ensures |r| == |ps| && forall i | 0 <= i < |ps| :: r[i] == Section(ps[i])
  {
    seq(|ps|, i requires 0 <= i < |ps| => Section(ps[i]))
  }

  /** `build_combined_document`. */
  function BuildCombinedDocument(pages: seq<Page>): (d: CombinedDocument)
    ensures |d.perPage| == |pages|
    ensures forall i | 0 <= i < |pages| ::
      d.perPage[i].pageNumber == pages[i].pageNumber && d.perPage[i].cleanedText == Preprocess(PageText(pages[i]))
  {
    var perPage := seq(|pages|, i requires 0 <= i < |pages| => CleanedPage(pages[i].pageNumber, Preprocess(PageText(pages[i]))));
    CombinedDocument(Join(Sections(perPage), "\n\n"), perPage)
  }

  /** No blank line inside, and no newline at the end: the pieces a "\n\n" join can carry. */
  predicate NoParagraphBreak(x: string)
  {
    (forall i | 0 <= i < |x| - 1 :: !(x[i] == '\n' && x[i + 1] == '\n')) && (x == [] || x[|x| - 1] != '\n')
  }

  lemma ParagraphFreeIsSepFree(x: string)
    requires NoParagraphBreak(x)
    ensures SepFree(x, "\n\n")
  {
    var y := x + "\n\n";
    forall i | 0 <= i < |x| ensures !OccursAt(y, "\n\n", i) {
      assert y[i] == x[i];
      if i + 1 < |x| { assert y[i + 1] == x[i + 1]; } else { assert y[i + 1] == '\n'; }
      assert y[i..i + 2] == [y[i], y[i + 1]];
    }
  }

  /** The merged text splits back on blank lines into one section per page, in page order,
      when labels carry no newline and no page cleans to nothing. */
  lemma CombinedDocumentSplitsBack(pages: seq<Page>)
    requires |pages| >= 1
    requires forall i | 0 <= i < |pages| :: '\n' !in pages[i].pageNumber && Preprocess(PageText(pages[i])) != ""
    ensures var d := BuildCombinedDocument(pages); Split(d.combinedText, "\n\n") == Sections(d.perPage)
  {
    var d := BuildCombinedDocument(pages);
    var xs := Sections(d.perPage);
    forall i | 0 <= i < |xs| ensures SepFree(xs[i], "\n\n") {
      SectionParagraphFree(d.perPage[i]);
      ParagraphFreeIsSepFree(xs[i]);
    }
    SplitJoin(xs, "\n\n");
  }

  /** A section whose label has no newline and whose text is non-empty and single-line has
      no blank line and does not end in a newline. */
  lemma SectionParagraphFree(p: CleanedPage)
    requires '\n' !in p.pageNumber && p.cleanedText != "" && '\n' !in p.cleanedText
    ensures NoParagraphBreak(Section(p))
  {
    var pre := "--- PAGE " + p.pageNumber + " ---";
    var body := p.cleanedText;
    var x := Section(p);
    assert x == pre + "\n" + body;
    assert '\n' !in pre;
    forall j | 0 <= j < |x| - 1 ensures !(x[j] == '\n' && x[j + 1] == '\n') {
      if j < |pre| {
        assert x[j] == pre[j];
      } else if j == |pre| {
        assert x[j + 1] == body[0];
      } else {
        assert x[j] == body[j - |pre| - 1];
      }
    }
    assert x[|x| - 1] == body[|body| - 1];
  }

  // ---------------------------------------------------------------------------
  // Filename sanitiser of save_/load_summary_to_disk and save_/load_quiz_from_disk
  // ---------------------------------------------------------------------------

  /** `c.isalpha() or c.isdigit() or c in " ._-"` (letters and digits taken as ASCII). */
  predicate FilenameChar(c: char)
  {
    IsAsciiLetter(c) || IsDigit(c) || c == ' ' || c == '.' || c == '_' || c == '-'
  }

  /** The comprehension every save and load applies to the user's name. */
  function SanitizeFilename(name: string): (r: string)
    ensures |r| <= |name|
    ensures forall i | 0 <= i < |r| :: FilenameChar(r[i])
  {
    if name == [] then []
    else (if FilenameChar(name[0]) then [name[0]] else []) + SanitizeFilename(name[1..])
  }

  /** Sanitising distributes over concatenation: characters are judged one by one, in order. */
  lemma {:induction false} SanitizeConcat(a: string, b: string)
    ensures SanitizeFilename(a + b) == SanitizeFilename(a) + SanitizeFilename(b)
  {
    if a != [] {
      assert (a + b)[1..] == a[1..] + b;
      SanitizeConcat(a[1..], b);
    } else {
      assert a + b == b;
    }
  }

  /** A name made only of permitted characters is kept whole. */
  lemma {:induction false} SanitizeKeepsPermitted(name: string)
    requires forall i | 0 <= i < |name| :: FilenameChar(name[i])
    ensures SanitizeFilename(name) == name
  {
    if name != [] { SanitizeKeepsPermitted(name[1..]); }
  }

  /** A single character is kept exactly when it is permitted. */
  lemma SanitizeOneChar(c: char)
    ensures SanitizeFilename([c]) == if FilenameChar(c) then [c] else []
  {
    assert [c][1..] == [];
  }

  lemma SanitizeIdempotent(name: string)
    ensures SanitizeFilename(SanitizeFilename(name)) == SanitizeFilename(name)
  {
    SanitizeKeepsPermitted(SanitizeFilename(name));
  }

  const SummaryStorageDir := "saved_summaries"
  const QuizStorageDir := "saved_quizzes"

  /** The file a summary saved or loaded under `name` lives in. */
  function SummaryPath(name: string): string
  {
    SummaryStorageDir + "/" + SanitizeFilename(name) + ".txt"
  }

  function QuizPath(name: string): string
  {
    QuizStorageDir + "/" + SanitizeFilename(name) + ".json"
  }

  /** Saving returns the sanitised name; loading by that name reaches the file just written. */
  lemma LoadAfterSaveSameFile(name: string)
    ensures SummaryPath(SanitizeFilename(name)) == SummaryPath(name)
    ensures QuizPath(SanitizeFilename(name)) == QuizPath(name)
  {
    SanitizeIdempotent(name);
  }

  // ---------------------------------------------------------------------------
  // generate_multi_queries
  // ---------------------------------------------------------------------------

  /** The paraphrase request, character for character. */
  function MultiQueryPrompt(question: string, nVersions: int): string
  {
    "\n    You are an AI language model assistant. Your task is to generate " + IntToString(nVersions)
    + " different versions of the given user question to retrieve relevant documents from a vector database. \n"
    + "    By generating multiple perspectives on the user question, your goal is to help the user overcome some of the limitations of the distance-based similarity search. \n"
    + "    \n    Original question: " + question + "\n    \n"
    + "    Provide these alternative questions separated by newlines. Do not number them.\n    "
  }

  /** The original question followed by the stripped non-blank lines of the reply. */
  function MultiQueries(question: string, reply: string): (r: seq<string>)
    ensures |r| >= 1 && r[0] == question
    ensures forall i | 1 <= i < |r| :: Stripped(r[i]) && r[i] != "" && '\n' !in r[i]
  {
    var lines := Split(reply, "\n");
    SplitFromOmitsSeparator(reply, '\n', "");
    var vs := NonBlankStripped(lines);
    assert forall j | 0 <= j < |vs| :: '\n' !in vs[j] by {
      NonBlankStrippedFrom(lines, '\n');
    }
    [question] + vs
  }

  /** Every kept piece is the strip of a piece, so a character absent from all pieces stays absent. */
  lemma {:induction false} NonBlankStrippedFrom(pieces: seq<string>, c: char)
    requires forall i | 0 <= i < |pieces| :: c !in pieces[i]
    ensures forall j | 0 <= j < |NonBlankStripped(pieces)| :: c !in NonBlankStripped(pieces)[j]
  {
    if pieces != [] {
      var s := Strip(pieces[0]);
      var k := StripStart(pieces[0]);
      assert forall t | 0 <= t < |s| :: s[t] == pieces[0][k + t];
      NonBlankStrippedFrom(pieces[1..], c);
    }
  }

  /** For any reply made of lines, the paraphrases are its non-blank lines, stripped, in order. */
  lemma MultiQueriesOfLines(question: string, ls: seq<string>)
    requires forall i | 0 <= i < |ls| :: '\n' !in ls[i]
    ensures MultiQueries(question, Join(ls, "\n")) == [question] + NonBlankStripped(ls)
  {
    if ls == [] {
      assert Join(ls, "\n") == "" && Blank("");
      MultiQueriesOfBlankReply(question, "");
    } else {
      LinesOfJoin(ls);
    }
  }

  /** Paraphrases written one per line come back exactly, after the original question. */
  lemma MultiQueriesRoundTrip(question: string, qs: seq<string>)
    requires forall i | 0 <= i < |qs| :: Stripped(qs[i]) && qs[i] != "" && '\n' !in qs[i]
    ensures MultiQueries(question, Join(qs, "\n")) == [question] + qs
  {
    MultiQueriesOfLines(question, qs);
    NonBlankStrippedKeeps(qs);
  }

  /** Lines free of newlines, joined with newlines, split back into the same lines. */
  lemma LinesOfJoin(qs: seq<string>)
    requires |qs| >= 1 && forall i | 0 <= i < |qs| :: '\n' !in qs[i]
    ensures Split(Join(qs, "\n"), "\n") == qs
  {
    forall x | x in qs ensures SepFree(x, "\n") { SepFreeWithout(x, "\n"); }
    SplitJoin(qs, "\n");
  }

  /** A blank reply yields just the original question. */
  lemma MultiQueriesOfBlankReply(question: string, reply: string)
    requires Blank(reply)
    ensures MultiQueries(question, reply) == [question]
  {
    assert Blank("");
    SplitFromOfBlank(reply, "\n", "");
    NonBlankStrippedOfBlanks(Split(reply, "\n"));
  }

  /** `generate_multi_queries` as called with the chat's model callable: a None reply makes
      `response_text.split` raise, and a raising call propagates. */
  function GenerateMultiQueries(question: string, reply: Reply): (r: Result<seq<string>>)
    ensures r.Success? <==> reply.ReturnsText?
    ensures r.Success? ==> |r.value| >= 1 && r.value[0] == question
  {
    match reply
    case ReturnsText(t) => Success(MultiQueries(question, t))
    case ReturnsNone => Failure("'NoneType' object has no attribute 'split'")
    case Raises => Failure("language model call raised")
  }
}
