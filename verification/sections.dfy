/** `parse_conversation_sections`: the conversation text is cut at every
    `---HUMAN---` / `---AI---` marker, blank pieces are dropped, and the
    remaining pieces are paired with the markers by position. */
module Sections {
  import opened Outcomes
  import opened Text

  datatype Kind = Human | Ai

  /** One parsed section: its lower-cased marker and its stripped text. */
  datatype Section = Section(kind: Kind, content: string)

  const HumanMarker: string := "---HUMAN---"
  const AiMarker: string := "---AI---"

  function MarkerOf(k: Kind): string {
    match k
    case Human => HumanMarker
    case Ai => AiMarker
  }

  /** The markers found left to right, and the text between them: what
      `re.findall` and `re.split` return for the marker pattern. There is
      always one more segment than there are markers. */
  datatype Lexed = Lexed(markers: seq<Kind>, segments: seq<string>)

  predicate WellFormed(lx: Lexed) {
    |lx.segments| == |lx.markers| + 1
  }

  /** A marker at the front of the remaining text: a new, empty segment
      begins after it. */
  function Push(k: Kind, lx: Lexed): (r: Lexed)
    requires WellFormed(lx)
    ensures WellFormed(r)
  {
    Lexed([k] + lx.markers, [""] + lx.segments)
  }

  /** An ordinary character at the front: it joins the first segment. */
  function Extend(c: char, lx: Lexed): (r: Lexed)
    requires WellFormed(lx)
    ensures WellFormed(r)
  {
    Lexed(lx.markers, PrependFirst(c, lx.segments))
  }

  /** The leftmost, non-overlapping scan for the two markers. */
  function Lex(s: string): (r: Lexed)
    ensures WellFormed(r)
    decreases |s|
  {
    if |s| == 0 then Lexed([], [""])
    else if StartsWith(s, HumanMarker) then Push(Human, Lex(s[|HumanMarker|..]))
    else if StartsWith(s, AiMarker) then Push(Ai, Lex(s[|AiMarker|..]))
    else Extend(s[0], Lex(s[1..]))
  }

  /** The scan of `a + b` when no marker straddles the boundary: the
      markers of both, with the last segment of `a` and the first of `b`
      run together. */
  function Glue(x: Lexed, y: Lexed): (r: Lexed)
    requires WellFormed(x) && WellFormed(y)
    ensures WellFormed(r)
  {
    Lexed(x.markers + y.markers, Fuse(x.segments, y.segments))
  }

  /** The characters the two markers are made of. */
  predicate IsMarkerChar(c: char) {
    c == '-' || c == 'H' || c == 'U' || c == 'M' || c == 'A' || c == 'N' || c == 'I'
  }

  /** No marker can straddle the boundary between `a` and `b`. */
  predicate Separated(a: string, b: string) {
    |a| == 0 || |b| == 0 || !IsMarkerChar(a[|a| - 1]) || !IsMarkerChar(b[0])
  }

  lemma MarkersAreMarkerChars(k: Kind)
    ensures forall i :: 0 <= i < |MarkerOf(k)| ==> IsMarkerChar(MarkerOf(k)[i])
  {
  }

  /** With `a` non-empty and separated from `b`, a marker at the front of
      `a + b` lies wholly inside `a`. */
  lemma StartsWithSeparated(a: string, b: string, k: Kind)
    requires |a| > 0 && Separated(a, b)
    ensures StartsWith(a + b, MarkerOf(k)) <==> StartsWith(a, MarkerOf(k))
  {
    var m := MarkerOf(k);
    MarkersAreMarkerChars(k);
    if |a| >= |m| {
      assert (a + b)[..|m|] == a[..|m|];
    } else {
      assert IsMarkerChar(m[|a| - 1]);
      assert (a + b)[|a| - 1] == a[|a| - 1];
      if |b| > 0 {
        assert IsMarkerChar(m[|a|]);
        assert (a + b)[|a|] == b[0];
      }
    }
  }

  lemma GlueEmpty(y: Lexed)
    requires WellFormed(y)
    ensures Glue(Lex(""), y) == y
  {
    var ys := y.segments;
    assert "" + ys[0] == ys[0];
    assert [ys[0]] + ys[1..] == ys;
  }

  lemma GluePush(k: Kind, x: Lexed, y: Lexed)
    requires WellFormed(x) && WellFormed(y)
    ensures Glue(Push(k, x), y) == Push(k, Glue(x, y))
  {
    FuseConsFirst("", x.segments, y.segments);
  }

  lemma GlueExtend(c: char, x: Lexed, y: Lexed)
    requires WellFormed(x) && WellFormed(y)
    ensures Glue(Extend(c, x), y) == Extend(c, Glue(x, y))
  {
    FusePrependFirst(c, x.segments, y.segments);
  }

  /** Scanning a concatenation scans the parts, provided no marker can
      straddle the boundary. */
  lemma {:induction false} LexAppend(a: string, b: string)
    requires Separated(a, b)
    ensures Lex(a + b) == Glue(Lex(a), Lex(b))
    decreases |a|
  {
    if |a| == 0 {
      assert a + b == b;
      GlueEmpty(Lex(b));
    } else {
      StartsWithSeparated(a, b, Human);
      StartsWithSeparated(a, b, Ai);
      if StartsWith(a, HumanMarker) {
        SkipMarker(a, b, Human);
      } else if StartsWith(a, AiMarker) {
        SkipMarker(a, b, Ai);
      } else {
        var a' := a[1..];
        assert (a + b)[1..] == a' + b;
        assert Separated(a', b);
        LexAppend(a', b);
        GlueExtend(a[0], Lex(a'), Lex(b));
      }
    }
  }

  lemma {:induction false} SkipMarker(a: string, b: string, k: Kind)
    requires |a| > 0 && Separated(a, b) && StartsWith(a, MarkerOf(k))
    ensures Lex(a + b) == Glue(Lex(a), Lex(b))
    decreases |a|, 0
  {
    var n := |MarkerOf(k)|;
    StartsWithSeparated(a, b, k);
    var a' := a[n..];
    assert (a + b)[n..] == a' + b;
    assert Separated(a', b);
    LexAppend(a', b);
    LexAtMarker(a, k);
    LexAtMarker(a + b, k);
    GluePush(k, Lex(a'), Lex(b));
  }

  /** At a marker the scan records it and carries on after it; the two
      markers differ in their fourth character, so only one can match. */
  lemma LexAtMarker(s: string, k: Kind)
    requires StartsWith(s, MarkerOf(k))
    ensures Lex(s) == Push(k, Lex(s[|MarkerOf(k)|..]))
  {
    if k == Ai {
      assert s[..|AiMarker|][3] == s[3];
      if |HumanMarker| <= |s| {
        assert s[..|HumanMarker|][3] == s[3];
      }
    }
  }

  /** Text the scan finds no marker in. */
  predicate Plain(s: string) {
    Lex(s) == Lexed([], [s])
  }

  /** Python's `'---HUMAN---' not in s and '---AI---' not in s`. */
  predicate MarkerFree(s: string) {
    !Contains(s, HumanMarker) && !Contains(s, AiMarker)
  }

  /** The scan finds no marker exactly when neither marker occurs. */
  lemma {:induction false} PlainIff(s: string)
    ensures Plain(s) <==> MarkerFree(s)
    decreases |s|
  {
    if |s| > 0 {
      PlainIff(s[1..]);
      assert OccursAt(s, HumanMarker, 0) <==> StartsWith(s, HumanMarker);
      assert OccursAt(s, AiMarker, 0) <==> StartsWith(s, AiMarker);
      ContainsShift(s, HumanMarker);
      ContainsShift(s, AiMarker);
      if !StartsWith(s, HumanMarker) && !StartsWith(s, AiMarker) {
        assert Plain(s) <==> Plain(s[1..]) by {
          var l := Lex(s[1..]);
          if Plain(s) {
            assert PrependFirst(s[0], l.segments) == [s];
            assert |l.segments| == 1;
            assert PrependFirst(s[0], l.segments)[0] == [s[0]] + l.segments[0];
            assert [s[0]] + l.segments[0] == s;
            assert l.segments[0] == ([s[0]] + l.segments[0])[1..];
          }
          if Plain(s[1..]) {
            assert [s[0]] + s[1..] == s;
          }
        }
      }
    } else {
      assert !OccursAt(s, HumanMarker, 0) && !OccursAt(s, AiMarker, 0);
    }
  }

  lemma ContainsShift(s: string, m: string)
    requires |s| > 0
    ensures Contains(s, m) <==> OccursAt(s, m, 0) || Contains(s[1..], m)
  {
    if Contains(s[1..], m) {
      var j :| 0 <= j <= |s[1..]| && OccursAt(s[1..], m, j);
      SliceOfTail(s, j + 1, j + 1 + |m|);
      assert OccursAt(s, m, j + 1);
    }
    if Contains(s, m) {
      var j :| 0 <= j <= |s| && OccursAt(s, m, j);
      if j > 0 {
        SliceOfTail(s, j, j + |m|);
        assert OccursAt(s[1..], m, j - 1);
      }
    }
  }

  lemma SliceOfTail(s: string, i: int, j: int)
    requires 1 <= i <= j <= |s|
    ensures s[1..][i - 1..j - 1] == s[i..j]
  {
    forall t | 0 <= t < j - i
      ensures s[1..][i - 1..j - 1][t] == s[i..j][t]
    {
      assert s[1..][i - 1..j - 1][t] == s[1..][i - 1 + t] == s[i + t];
    }
  }

  /** Text without a `-` holds no marker. */
  lemma {:induction false} PlainNoDash(s: string)
    requires '-' !in s
    ensures Plain(s)
    decreases |s|
  {
    if |s| > 0 {
      assert s[1..][..] == s[1..];
      assert '-' !in s[1..] by {
        forall i | 0 <= i < |s[1..]|
          ensures s[1..][i] != '-'
        {
          assert s[1..][i] == s[i + 1];
        }
      }
      PlainNoDash(s[1..]);
      assert s[0] != '-';
      assert [s[0]] + s[1..] == s;
    }
  }

  lemma PlainBlank(s: string)
    requires IsBlank(s)
    ensures Plain(s)
  {
    assert '-' !in s by {
      forall i | 0 <= i < |s|
        ensures s[i] != '-'
      {
        assert IsSpace(s[i]);
      }
    }
    PlainNoDash(s);
  }

  /** Two marker-free texts stay marker-free when joined at a boundary no
      marker can straddle. */
  lemma PlainConcat(a: string, b: string)
    requires Plain(a) && Plain(b) && Separated(a, b)
    ensures Plain(a + b)
  {
    LexAppend(a, b);
  }

  /** The stripped text of the non-blank segments, in order. */
  function NonBlank(segs: seq<string>): (r: seq<string>)
    ensures |r| <= |segs|
    decreases |segs|
  {
    if |segs| == 0 then []
    else if IsBlank(segs[0]) then NonBlank(segs[1..])
    else [Strip(segs[0])] + NonBlank(segs[1..])
  }

  /** Every kept segment is stripped and non-empty. */
  lemma {:induction false} NonBlankTrimmed(segs: seq<string>)
    ensures forall i :: 0 <= i < |NonBlank(segs)| ==>
      Trimmed(NonBlank(segs)[i]) && NonBlank(segs)[i] != ""
    decreases |segs|
  {
    if |segs| > 0 {
      NonBlankTrimmed(segs[1..]);
      StripEmptyIff(segs[0]);
    }
  }

  /** How many segments are blank. */
  function BlankCount(segs: seq<string>): nat
    decreases |segs|
  {
    if |segs| == 0 then 0
    else (if IsBlank(segs[0]) then 1 else 0) + BlankCount(segs[1..])
  }

  lemma {:induction false} NonBlankCount(segs: seq<string>)
    ensures |NonBlank(segs)| + BlankCount(segs) == |segs|
    decreases |segs|
  {
    if |segs| > 0 {
      NonBlankCount(segs[1..]);
    }
  }

  lemma {:induction false} NonBlankConcat(a: seq<string>, b: seq<string>)
    ensures NonBlank(a + b) == NonBlank(a) + NonBlank(b)
    ensures BlankCount(a + b) == BlankCount(a) + BlankCount(b)
    decreases |a|
  {
    if |a| > 0 {
      assert (a + b)[1..] == a[1..] + b;
      NonBlankConcat(a[1..], b);
    } else {
      assert a + b == b;
    }
  }

  lemma NonBlankSingle(x: string)
    ensures NonBlank([x]) == if IsBlank(x) then [] else [Strip(x)]
    ensures BlankCount([x]) == if IsBlank(x) then 1 else 0
  {
    assert [x][1..] == [];
  }

  /** Blank text in front of a segment changes neither whether it is blank
      nor what it strips to. */
  lemma PaddedLeft(lw: string, x: string)
    requires IsBlank(lw)
    ensures NonBlank([lw + x]) == NonBlank([x])
    ensures BlankCount([lw + x]) == BlankCount([x])
  {
    StripPadLeft(lw, x);
    BlankPadLeft(lw, x);
    NonBlankSingle(x);
    NonBlankSingle(lw + x);
  }

  /** Likewise for blank text after a segment. */
  lemma PaddedRight(x: string, rw: string)
    requires IsBlank(rw)
    ensures NonBlank([x + rw]) == NonBlank([x])
    ensures BlankCount([x + rw]) == BlankCount([x])
  {
    StripPadRight(x, rw);
    BlankPadRight(x, rw);
    NonBlankSingle(x);
    NonBlankSingle(x + rw);
  }

  /** Pairs marker `i` with non-blank segment `i`. */
  function Pair(markers: seq<Kind>, contents: seq<string>): (r: seq<Section>)
    requires |markers| == |contents|
    ensures |r| == |markers|
    ensures forall i :: 0 <= i < |r| ==> r[i] == Section(markers[i], contents[i])
  {
    seq(|markers|, i requires 0 <= i < |markers| => Section(markers[i], contents[i]))
  }

  /** `parse_conversation_sections`: fails with `MismatchedSections` when
      the number of markers differs from the number of non-blank segments. */
  function ParseSections(text: string): (r: Result<seq<Section>>)
    ensures r.Ok? ==> |r.value| == |Lex(text).markers|
    ensures r.Ok? ==> forall i :: 0 <= i < |r.value| ==>
      && r.value[i].kind == Lex(text).markers[i]
      && Trimmed(r.value[i].content) && r.value[i].content != ""
  {
    var lx := Lex(text);
    var contents := NonBlank(lx.segments);
    NonBlankTrimmed(lx.segments);
    if |lx.markers| != |contents| then Err(MismatchedSections)
    else Ok(Pair(lx.markers, contents))
  }

  /** Parsing succeeds exactly when one of the `k + 1` segments is blank;
      section `i` then holds the `i`-th non-blank segment, stripped. */
  lemma ParseSectionsOk(text: string)
    ensures ParseSections(text).Ok? <==> BlankCount(Lex(text).segments) == 1
    ensures ParseSections(text).Ok? ==>
      forall i :: 0 <= i < |ParseSections(text).value| ==>
        ParseSections(text).value[i].content == NonBlank(Lex(text).segments)[i]
  {
    NonBlankCount(Lex(text).segments);
  }

  /** Without markers, blank text gives no sections and any other text is
      rejected. */
  lemma NoMarkers(text: string)
    requires Plain(text)
    ensures IsBlank(text) ==> ParseSections(text) == Ok([])
    ensures !IsBlank(text) ==> ParseSections(text) == Err(MismatchedSections)
  {
    StripEmptyIff(text);
  }

  /** Blank text in front of the first segment changes nothing that
      survives the blank filter. */
  lemma {:induction false} PadFirst(lw: string, segs: seq<string>)
    requires IsBlank(lw) && |segs| >= 1
    ensures NonBlank(Fuse([lw], segs)) == NonBlank(segs)
    ensures BlankCount(Fuse([lw], segs)) == BlankCount(segs)
  {
    FuseOne(lw, segs);
    PadHead(lw, segs);
  }

  lemma FuseOne(lw: string, segs: seq<string>)
    requires |segs| >= 1
    ensures Fuse([lw], segs) == [lw + segs[0]] + segs[1..]
  {
  }

  lemma {:induction false} PadHead(lw: string, segs: seq<string>)
    requires IsBlank(lw) && |segs| >= 1
    ensures NonBlank([lw + segs[0]] + segs[1..]) == NonBlank(segs)
    ensures BlankCount([lw + segs[0]] + segs[1..]) == BlankCount(segs)
  {
    assert segs == [segs[0]] + segs[1..];
    PaddedLeft(lw, segs[0]);
    NonBlankConcat([lw + segs[0]], segs[1..]);
    NonBlankConcat([segs[0]], segs[1..]);
  }

  /** Likewise for blank text after the last segment. */
  lemma {:induction false} PadLast(segs: seq<string>, rw: string)
    requires IsBlank(rw) && |segs| >= 1
    ensures NonBlank(Fuse(segs, [rw])) == NonBlank(segs)
    ensures BlankCount(Fuse(segs, [rw])) == BlankCount(segs)
  {
    OneFuse(segs, rw);
    var n := |segs|;
    assert segs == segs[..n - 1] + [segs[n - 1]];
    PadTail(segs[..n - 1], segs[n - 1], rw);
  }

  lemma OneFuse(segs: seq<string>, rw: string)
    requires |segs| >= 1
    ensures Fuse(segs, [rw]) == segs[..|segs| - 1] + [segs[|segs| - 1] + rw]
  {
  }

  lemma {:induction false} PadTail(init: seq<string>, last: string, rw: string)
    requires IsBlank(rw)
    ensures NonBlank(init + [last + rw]) == NonBlank(init + [last])
    ensures BlankCount(init + [last + rw]) == BlankCount(init + [last])
  {
    PaddedRight(last, rw);
    NonBlankConcat(init, [last + rw]);
    NonBlankConcat(init, [last]);
  }

  /** The scan of padded text: the pads join the outer segments. */
  lemma BlankSeparated(lw: string, t: string, rw: string)
    requires IsBlank(lw) && IsBlank(rw)
    ensures Separated(lw, t) && Separated(lw + t, rw)
  {
    if |lw| > 0 {
      SpaceNotMarkerChar(lw[|lw| - 1]);
    }
    if |rw| > 0 {
      SpaceNotMarkerChar(rw[0]);
    }
  }

  lemma SpaceNotMarkerChar(c: char)
    requires IsSpace(c)
    ensures !IsMarkerChar(c)
  {
  }

  lemma LexPadded(lw: string, t: string, rw: string)
    requires IsBlank(lw) && IsBlank(rw)
    ensures Lex(lw + t + rw)
      == Lexed(Lex(t).markers, Fuse(Fuse([lw], Lex(t).segments), [rw]))
  {
    PlainBlank(lw);
    PlainBlank(rw);
    BlankSeparated(lw, t, rw);
    LexAppend(lw, t);
    LexAppend(lw + t, rw);
  }

  /** Whitespace around the conversation does not change its sections. */
  lemma ParseSectionsPadded(lw: string, t: string, rw: string)
    requires IsBlank(lw) && IsBlank(rw)
    ensures ParseSections(lw + t + rw) == ParseSections(t)
  {
    LexPadded(lw, t, rw);
    var segs := Lex(t).segments;
    PadFirst(lw, segs);
    PadLast(Fuse([lw], segs), rw);
  }

  /** Parsing the stripped conversation is parsing the raw one. */
  lemma ParseSectionsStrip(text: string)
    ensures ParseSections(Strip(text)) == ParseSections(text)
  {
    var lw, rw := StripParts(text);
    ParseSectionsPadded(lw, Strip(text), rw);
  }
}
