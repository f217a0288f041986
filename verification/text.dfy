/** The handful of Python `str` operations the scripts rely on: `strip()`,
    `startswith`/`endswith`, `in`, `find`, `split('\n')` and `sep.join(...)`,
    stated over `seq<char>`. */
module Text {
  import opened Outcomes

  /** The characters Python's `str.isspace()` accepts, which is the set
      `str.strip()` without arguments removes from both ends. */
  predicate IsSpace(c: char) {
    || c == ' '
    || ('\t' <= c <= '\r')
    || ('\U{1C}' <= c <= '\U{1F}')
    || c == '\U{85}' || c == '\U{A0}' || c == '\U{1680}'
    || ('\U{2000}' <= c <= '\U{200A}')
    || c == '\U{2028}' || c == '\U{2029}' || c == '\U{202F}' || c == '\U{205F}'
    || c == '\U{3000}'
  }

  predicate IsBlank(s: string) {
    forall i :: 0 <= i < |s| ==> IsSpace(s[i])
  }

  /** Neither end of `s` is whitespace: the shape of every `strip()` result. */
  predicate Trimmed(s: string) {
    |s| == 0 || (!IsSpace(s[0]) && !IsSpace(s[|s| - 1]))
  }

  function LStrip(s: string): (r: string)
    ensures |r| <= |s| && r == s[|s| - |r|..]
    ensures |r| > 0 ==> !IsSpace(r[0])
    decreases |s|
  {
    if |s| > 0 && IsSpace(s[0]) then
      var r := LStrip(s[1..]);
      assert s[1..][|s| - 1 - |r|..] == s[|s| - |r|..];
      r
    else s
  }

  /** What `lstrip` removes is whitespace. */
  lemma {:induction false} LStripBlank(s: string)
    ensures IsBlank(s[..|s| - |LStrip(s)|])
    decreases |s|
  {
    if |s| > 0 && IsSpace(s[0]) {
      LStripStep(s);
      LStripBlank(s[1..]);
      var k := |s| - |LStrip(s)|;
      assert s[..k] == [s[0]] + s[1..][..k - 1];
      BlankCons(s[0], s[1..][..k - 1]);
    } else {
      LStripStop(s);
    }
  }

  function RStrip(s: string): (r: string)
    ensures |r| <= |s| && r == s[..|r|]
    ensures |r| > 0 ==> !IsSpace(r[|r| - 1])
    decreases |s|
  {
    if |s| > 0 && IsSpace(s[|s| - 1]) then
      var r := RStrip(s[..|s| - 1]);
      assert s[..|s| - 1][..|r|] == s[..|r|];
      r
    else s
  }

  /** What `rstrip` removes is whitespace. */
  lemma {:induction false} RStripBlank(s: string)
    ensures IsBlank(s[|RStrip(s)|..])
    decreases |s|
  {
    if |s| > 0 && IsSpace(s[|s| - 1]) {
      RStripStep(s);
      RStripBlank(s[..|s| - 1]);
      var k := |RStrip(s)|;
      assert s[k..] == s[..|s| - 1][k..] + [s[|s| - 1]];
      BlankConcat(s[..|s| - 1][k..], [s[|s| - 1]]);
    } else {
      RStripStop(s);
    }
  }

  /** Python's `s.strip()`. */
  function Strip(s: string): (r: string)
    ensures Trimmed(r)
    ensures |r| <= |s|
  {
    var l := LStrip(s);
    var r := RStrip(l);
    assert |r| > 0 ==> r[0] == l[0];
    r
  }

  /** Every string is its stripped core padded with whitespace on both sides. */
  lemma LStripParts(s: string) returns (lw: string)
    ensures IsBlank(lw) && s == lw + LStrip(s)
  {
    var l := LStrip(s);
    LStripBlank(s);
    lw := s[..|s| - |l|];
    assert l == s[|s| - |l|..];
  }

  lemma RStripParts(s: string) returns (rw: string)
    ensures IsBlank(rw) && s == RStrip(s) + rw
  {
    var r := RStrip(s);
    RStripBlank(s);
    rw := s[|r|..];
    assert r == s[..|r|];
  }

  lemma StripParts(s: string) returns (lw: string, rw: string)
    ensures IsBlank(lw) && IsBlank(rw)
    ensures s == lw + Strip(s) + rw
  {
    var l := LStrip(s);
    lw := LStripParts(s);
    rw := RStripParts(l);
    StripIsBoth(s);
    ConcatParts(s, lw, l, Strip(s), rw);
  }

  lemma ConcatParts(s: string, lw: string, l: string, r: string, rw: string)
    requires s == lw + l && l == r + rw
    ensures s == lw + r + rw
  {
  }

  lemma StripIsBoth(s: string)
    ensures Strip(s) == RStrip(LStrip(s))
  {
  }

  lemma BlankCons(c: char, w: string)
    requires IsSpace(c) && IsBlank(w)
    ensures IsBlank([c] + w)
  {
    forall i | 0 < i < |[c] + w|
      ensures IsSpace(([c] + w)[i])
    {
      assert ([c] + w)[i] == w[i - 1];
    }
  }

  lemma BlankConcat(a: string, b: string)
    requires IsBlank(a) && IsBlank(b)
    ensures IsBlank(a + b)
  {
    forall i | |a| <= i < |a + b|
      ensures IsSpace((a + b)[i])
    {
      assert (a + b)[i] == b[i - |a|];
    }
  }

  lemma LStripStep(s: string)
    requires |s| > 0 && IsSpace(s[0])
    ensures LStrip(s) == LStrip(s[1..])
  {
  }

  lemma LStripStop(s: string)
    requires |s| == 0 || !IsSpace(s[0])
    ensures LStrip(s) == s
  {
  }

  lemma RStripStep(s: string)
    requires |s| > 0 && IsSpace(s[|s| - 1])
    ensures RStrip(s) == RStrip(s[..|s| - 1])
  {
  }

  lemma RStripStop(s: string)
    requires |s| == 0 || !IsSpace(s[|s| - 1])
    ensures RStrip(s) == s
  {
  }

  lemma BlankTail(w: string)
    requires IsBlank(w) && |w| > 0
    ensures IsSpace(w[0]) && IsBlank(w[1..])
  {
    forall i | 0 <= i < |w[1..]|
      ensures IsSpace(w[1..][i])
    {
      assert w[1..][i] == w[i + 1];
    }
  }

  lemma BlankInit(w: string)
    requires IsBlank(w) && |w| > 0
    ensures IsSpace(w[|w| - 1]) && IsBlank(w[..|w| - 1])
  {
    var init := w[..|w| - 1];
    forall i | 0 <= i < |init|
      ensures IsSpace(init[i])
    {
      assert init[i] == w[i];
    }
  }

  lemma LStripPast(w: string, t: string)
    requires IsBlank(w)
    requires |t| == 0 || !IsSpace(t[0])
    ensures LStrip(w + t) == t
    decreases |w|
  {
    if |w| > 0 {
      var s := w + t;
      assert s[0] == w[0];
      BlankTail(w);
      assert s[1..] == w[1..] + t;
      LStripPast(w[1..], t);
      LStripStep(s);
    } else {
      assert w + t == t;
      LStripStop(t);
    }
  }

  lemma RStripPast(t: string, w: string)
    requires IsBlank(w)
    requires |t| == 0 || !IsSpace(t[|t| - 1])
    ensures RStrip(t + w) == t
    decreases |w|
  {
    if |w| > 0 {
      var s := t + w;
      assert s[|s| - 1] == w[|w| - 1];
      BlankInit(w);
      assert s[..|s| - 1] == t + w[..|w| - 1];
      RStripPast(t, w[..|w| - 1]);
      RStripStep(s);
    } else {
      assert t + w == t;
      RStripStop(t);
    }
  }

  /** `strip()` removes exactly the whitespace padding around a trimmed core:
      the core is the only trimmed string that whitespace can pad to `s`. */
  lemma {:induction false} StripUnique(lw: string, t: string, rw: string)
    requires IsBlank(lw) && IsBlank(rw) && Trimmed(t)
    ensures Strip(lw + t + rw) == t
  {
    if |t| == 0 {
      assert lw + t + rw == (lw + rw) + "";
      LStripPast(lw + rw, "");
    } else {
      assert lw + t + rw == lw + (t + rw);
      LStripPast(lw, t + rw);
      RStripPast(t, rw);
    }
  }

  lemma StripTrimmed(t: string)
    requires Trimmed(t)
    ensures Strip(t) == t
  {
    assert "" + t + "" == t;
    StripUnique("", t, "");
  }

  lemma StripIdempotent(s: string)
    ensures Strip(Strip(s)) == Strip(s)
  {
    StripTrimmed(Strip(s));
  }

  /** Whitespace added around a string does not change what `strip()` keeps. */
  lemma StripPadded(lw: string, s: string, rw: string)
    requires IsBlank(lw) && IsBlank(rw)
    ensures Strip(lw + s + rw) == Strip(s)
  {
    var a, b := StripParts(s);
    var t := Strip(s);
    BlankConcat(lw, a);
    BlankConcat(b, rw);
    Regroup(lw, a, t, b, rw);
    StripUnique(lw + a, t, b + rw);
  }

  /** The one-sided forms of `StripPadded`. */
  lemma StripPadLeft(lw: string, s: string)
    requires IsBlank(lw)
    ensures Strip(lw + s) == Strip(s)
  {
    var a, b := StripParts(s);
    var t := Strip(s);
    BlankConcat(lw, a);
    Regroup(lw, a, t, b, "");
    assert lw + s + "" == lw + s;
    assert b + "" == b;
    StripUnique(lw + a, t, b);
  }

  lemma StripPadRight(s: string, rw: string)
    requires IsBlank(rw)
    ensures Strip(s + rw) == Strip(s)
  {
    var a, b := StripParts(s);
    var t := Strip(s);
    BlankConcat(b, rw);
    assert s + rw == a + t + (b + rw);
    StripUnique(a, t, b + rw);
  }

  lemma BlankPadLeft(lw: string, s: string)
    requires IsBlank(lw)
    ensures IsBlank(lw + s) <==> IsBlank(s)
  {
    if IsBlank(lw + s) {
      forall i | 0 <= i < |s|
        ensures IsSpace(s[i])
      {
        assert s[i] == (lw + s)[|lw| + i];
      }
    }
  }

  lemma BlankPadRight(s: string, rw: string)
    requires IsBlank(rw)
    ensures IsBlank(s + rw) <==> IsBlank(s)
  {
    if IsBlank(s + rw) {
      forall i | 0 <= i < |s|
        ensures IsSpace(s[i])
      {
        assert s[i] == (s + rw)[i];
      }
    }
  }

  lemma Regroup(p: string, a: string, t: string, b: string, q: string)
    ensures p + (a + t + b) + q == (p + a) + t + (b + q)
  {
  }

  /** Python's truthiness test `if s.strip():` fails exactly on blank text. */
  lemma StripEmptyIff(s: string)
    ensures Strip(s) == "" <==> IsBlank(s)
  {
    var a, b := StripParts(s);
    if Strip(s) == "" {
      assert s == a + b;
      BlankConcat(a, b);
    }
    if IsBlank(s) {
      assert s == s + "" + "";
      StripUnique(s, "", "");
    }
  }

  /** `strip()` only removes characters, so it cannot introduce one. */
  lemma StripKeepsOut(s: string, c: char)
    requires c !in s
    ensures c !in Strip(s)
  {
    var a, b := StripParts(s);
    forall k | 0 <= k < |Strip(s)|
      ensures Strip(s)[k] != c
    {
      assert Strip(s)[k] == s[|a| + k];
    }
  }

  /** The index of the first `c` in `s`, Python's `s.index(c)`. */
  function IndexOf(s: string, c: char): (r: nat)
    requires c in s
    ensures r < |s| && s[r] == c && c !in s[..r]
  {
    if s[0] == c then 0
    else
      var r := IndexOf(s[1..], c);
      assert s[..r + 1] == [s[0]] + s[1..][..r];
      r + 1
  }

  lemma IndexOfUnique(s: string, c: char, i: nat)
    requires i < |s| && s[i] == c && c !in s[..i]
    ensures IndexOf(s, c) == i
  {
  }

  predicate StartsWith(s: string, p: string) {
    |p| <= |s| && s[..|p|] == p
  }

  predicate EndsWith(s: string, p: string) {
    |p| <= |s| && s[|s| - |p|..] == p
  }

  predicate OccursAt(s: string, p: string, i: int) {
    0 <= i && i + |p| <= |s| && s[i..i + |p|] == p
  }

  /** Python's `p in s`. */
  predicate Contains(s: string, p: string) {
    exists i | 0 <= i <= |s| :: OccursAt(s, p, i)
  }

  function FindFrom(s: string, p: string, from: nat): (r: Option<nat>)
    requires from <= |s|
    ensures r.Some? ==> from <= r.value && OccursAt(s, p, r.value)
    ensures r.Some? ==> forall j :: from <= j < r.value ==> !OccursAt(s, p, j)
    ensures r.None? ==> forall j :: from <= j ==> !OccursAt(s, p, j)
    decreases |s| - from
  {
    if OccursAt(s, p, from) then Some(from)
    else if from == |s| then None
    else FindFrom(s, p, from + 1)
  }

  /** The index of the first occurrence of `p` in `s`: what `s.split(p, 1)`
      splits at. */
  function Find(s: string, p: string): (r: Option<nat>)
    ensures r.None? <==> !Contains(s, p)
    ensures r.Some? ==> OccursAt(s, p, r.value)
    ensures r.Some? ==> forall j :: 0 <= j < r.value ==> !OccursAt(s, p, j)
  {
    FindFrom(s, p, 0)
  }

  /** Text appended after an occurrence does not move the first occurrence. */
  lemma FindExtended(s: string, t: string, p: string)
    requires Find(s, p).Some?
    ensures Find(s + t, p) == Find(s, p)
  {
    var i := Find(s, p).value;
    assert (s + t)[i..i + |p|] == s[i..i + |p|];
    assert OccursAt(s + t, p, i);
    forall j | 0 <= j < i
      ensures !OccursAt(s + t, p, j)
    {
      assert !OccursAt(s, p, j);
      assert (s + t)[j..j + |p|] == s[j..j + |p|];
    }
    var k := Find(s + t, p);
    assert k.Some?;
    assert !(k.value < i);
    assert !(i < k.value);
  }

  /** Prefix character `c` to the first piece of a split result. */
  function PrependFirst(c: char, parts: seq<string>): (r: seq<string>)
    requires |parts| >= 1
    ensures |r| == |parts|
  {
    [[c] + parts[0]] + parts[1..]
  }

  /** The pieces of `x + y` when the boundary between `x` and `y` falls inside
      one piece: the last piece of `x` and the first of `y` run together. */
  function Fuse(xs: seq<string>, ys: seq<string>): (r: seq<string>)
    requires |xs| >= 1 && |ys| >= 1
    ensures |r| == |xs| + |ys| - 1
  {
    xs[..|xs| - 1] + [xs[|xs| - 1] + ys[0]] + ys[1..]
  }

  lemma FusePrependFirst(c: char, xs: seq<string>, ys: seq<string>)
    requires |xs| >= 1 && |ys| >= 1
    ensures Fuse(PrependFirst(c, xs), ys) == PrependFirst(c, Fuse(xs, ys))
  {
    if |xs| == 1 {
      assert [c] + xs[0] + ys[0] == [c] + (xs[0] + ys[0]);
      assert Fuse(PrependFirst(c, xs), ys) == [[c] + xs[0] + ys[0]] + ys[1..];
      assert Fuse(xs, ys) == [xs[0] + ys[0]] + ys[1..];
    } else {
      assert Fuse(PrependFirst(c, xs), ys)
          == [[c] + xs[0]] + xs[1..|xs| - 1] + [xs[|xs| - 1] + ys[0]] + ys[1..];
    }
  }

  lemma FuseConsFirst(p: string, xs: seq<string>, ys: seq<string>)
    requires |xs| >= 1 && |ys| >= 1
    ensures Fuse([p] + xs, ys) == [p] + Fuse(xs, ys)
  {
    assert ([p] + xs)[..|xs|] == [p] + xs[..|xs| - 1];
  }

  /** Python's `s.split(sep)` for a one-character separator: `k` separators
      give `k + 1` pieces, none of which holds the separator. */
  function Split(s: string, sep: char): (r: seq<string>)
    ensures |r| >= 1
    ensures forall i :: 0 <= i < |r| ==> sep !in r[i]
    decreases |s|
  {
    if |s| == 0 then [""]
    else
      var rest := Split(s[1..], sep);
      if s[0] == sep then [""] + rest
      else PrependFirst(s[0], rest)
  }

  /** Python's `sep.join(parts)`. */
  function Join(parts: seq<string>, sep: string): string
    decreases |parts|
  {
    if |parts| == 0 then ""
    else if |parts| == 1 then parts[0]
    else parts[0] + sep + Join(parts[1..], sep)
  }

  /** `'\n'.join(s.split('\n')) == s`. */
  lemma {:induction false} JoinSplit(s: string, sep: char)
    ensures Join(Split(s, sep), [sep]) == s
    decreases |s|
  {
    if |s| > 0 {
      var rest := Split(s[1..], sep);
      JoinSplit(s[1..], sep);
      if s[0] == sep {
        assert ([""] + rest)[1..] == rest;
        assert s == [sep] + s[1..];
      } else if |rest| == 1 {
        assert s == [s[0]] + s[1..];
      } else {
        assert PrependFirst(s[0], rest)[1..] == rest[1..];
        assert s == [s[0]] + s[1..];
      }
    }
  }

  lemma SplitNoSep(s: string, sep: char)
    requires sep !in s
    ensures Split(s, sep) == [s]
    decreases |s|
  {
    if |s| > 0 {
      SplitNoSep(s[1..], sep);
      assert s == [s[0]] + s[1..];
    }
  }

  /** A separator after a separator-free prefix closes exactly one piece. */
  lemma SplitAround(a: string, b: string, sep: char)
    requires sep !in a
    ensures Split(a + [sep] + b, sep) == [a] + Split(b, sep)
    decreases |a|
  {
    var s := a + [sep] + b;
    if |a| == 0 {
      assert s[1..] == b;
    } else {
      assert s[1..] == a[1..] + [sep] + b;
      SplitAround(a[1..], b, sep);
      assert a == [a[0]] + a[1..];
    }
  }

  /** `s.split('\n')` undoes `'\n'.join(lines)` when no line holds a newline. */
  lemma {:induction false} SplitJoin(lines: seq<string>, sep: char)
    requires |lines| >= 1
    requires forall i :: 0 <= i < |lines| ==> sep !in lines[i]
    ensures Split(Join(lines, [sep]), sep) == lines
    decreases |lines|
  {
    if |lines| == 1 {
      SplitNoSep(lines[0], sep);
    } else {
      SplitJoin(lines[1..], sep);
      SplitAround(lines[0], Join(lines[1..], [sep]), sep);
      assert lines == [lines[0]] + lines[1..];
    }
  }

  /** Splitting a concatenation fuses the last piece of the left part with the
      first piece of the right part. */
  lemma {:induction false} SplitConcat(x: string, y: string, sep: char)
    ensures Split(x + y, sep) == Fuse(Split(x, sep), Split(y, sep))
    decreases |x|
  {
    if |x| == 0 {
      assert x + y == y;
      var ys := Split(y, sep);
      assert "" + ys[0] == ys[0];
      assert [ys[0]] + ys[1..] == ys;
      assert Fuse([""], ys) == [] + [ys[0]] + ys[1..];
    } else {
      assert (x + y)[1..] == x[1..] + y;
      SplitConcat(x[1..], y, sep);
      if x[0] == sep {
        FuseConsFirst("", Split(x[1..], sep), Split(y, sep));
      } else {
        FusePrependFirst(x[0], Split(x[1..], sep), Split(y, sep));
      }
    }
  }

  /** Every piece of blank text is blank. */
  lemma {:induction false} SplitBlank(s: string, sep: char)
    requires IsBlank(s)
    ensures forall i :: 0 <= i < |Split(s, sep)| ==> IsBlank(Split(s, sep)[i])
    decreases |s|
  {
    if |s| > 0 {
      SplitBlank(s[1..], sep);
    }
  }

  lemma JoinSnoc(parts: seq<string>, last: string, sep: string)
    requires |parts| >= 1
    ensures Join(parts + [last], sep) == Join(parts, sep) + sep + last
    decreases |parts|
  {
    if |parts| > 1 {
      assert (parts + [last])[1..] == parts[1..] + [last];
      JoinSnoc(parts[1..], last, sep);
    }
  }

  /** The last joined element is the end of the joined text. */
  lemma JoinEndsWithLast(parts: seq<string>, sep: string)
    requires |parts| >= 1
    ensures EndsWith(Join(parts, sep), parts[|parts| - 1])
  {
    if |parts| > 1 {
      assert parts == parts[..|parts| - 1] + [parts[|parts| - 1]];
      JoinSnoc(parts[..|parts| - 1], parts[|parts| - 1], sep);
    }
  }

  function AsciiLower(c: char): char {
    if 'A' <= c <= 'Z' then (c as int + 32) as char else c
  }

  /** Python's `v.lower() == 'none'`. Only ASCII letters lower-case to the
      letters of `none`, so ASCII case folding decides the comparison. */
  predicate IsNoneWord(v: string) {
    |v| == 4 && AsciiLower(v[0]) == 'n' && AsciiLower(v[1]) == 'o'
    && AsciiLower(v[2]) == 'n' && AsciiLower(v[3]) == 'e'
  }
}
