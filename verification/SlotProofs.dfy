/** The scan for signature dictionaries over a file that grew: old slots keep their place, one new slot appears. */
module SlotProofs {
  import opened Text
  import opened PdfObjects
  import opened IncrementalSigner
  import opened Stability
  import opened RevisionProofs

  // ---- Matches in the old part --------------------------------------------------------------------

  lemma RangeNumbersFence(w: string, t: string, p: nat, f: nat)
    requires p <= f && f < |w| && w[f] == ']'
    ensures RangeNumbers(w + t, p) == RangeNumbers(w, p)
  {
    hide SkipDigits, NumberAt, SpacedNumberAt;
    assert Fence(w, f);
    NumberPrefix(w, t, p, f);
    if NumberAt(w, p).Some? {
      var a := NumberAt(w, p).value;
      SpacedNumberPrefix(w, t, a.end, f);
      if SpacedNumberAt(w, a.end).Some? {
        var b := SpacedNumberAt(w, a.end).value;
        SpacedNumberPrefix(w, t, b.end, f);
        if SpacedNumberAt(w, b.end).Some? {
          var c := SpacedNumberAt(w, b.end).value;
          SpacedNumberPrefix(w, t, c.end, f);
          if SpacedNumberAt(w, c.end).Some? {
            SkipSpacesPrefix(w, t, SpacedNumberAt(w, c.end).value.end, f);
          }
        }
      }
    }
  }

  /** A closing bracket at `f` bounds the match, whatever follows. */
  lemma RangeBodyFence(w: string, t: string, p: nat, f: nat)
    requires p <= f && f < |w| && w[f] == ']'
    ensures RangeBody(w + t, p) == RangeBody(w, p)
  {
    hide RangeNumbers;
    SkipSpacesPrefix(w, t, p, f);
    var bracket := SkipSpaces(w, p);
    if w[bracket] == '[' {
      SkipSpacesPrefix(w, t, bracket + 1, f);
      RangeNumbersFence(w, t, SkipSpaces(w, bracket + 1), f);
    }
  }

  /** Text after which no match of the file before it can run on: it breaks the keyword, and a character foreign to a
      match comes before any closing bracket. */
  ghost predicate Guarded(t: string) {
    t != "" && Breaks(BYTE_RANGE, t[0]) &&
    exists f :: 0 <= f < |t| && !IsRangeChar(t[f]) && forall i :: 0 <= i < f ==> t[i] != ']'
  }

  lemma NoRunOn(w: string, t: string, p: nat)
    requires p <= |w| && Guarded(t) && RangeBody(w + t, p).Some?
    ensures RangeBody(w + t, p).value.end <= |w|
  {
    hide RangeBody;
    var f :| 0 <= f < |t| && !IsRangeChar(t[f]) && forall i :: 0 <= i < f ==> t[i] != ']';
    forall i | |w| <= i < |w| + f
      ensures (w + t)[i] != ']'
    {
      assert (w + t)[i] == t[i - |w|];
    }
    assert (w + t)[|w| + f] == t[f];
    RangeShape(w + t, p);
    var e := RangeBody(w + t, p).value.end;
  }

  lemma RangeBodyKept(w: string, t: string, p: nat)
    requires p <= |w| && Guarded(t)
    ensures RangeBody(w + t, p) == RangeBody(w, p)
  {
    hide RangeBody, Guarded;
    if RangeBody(w + t, p).Some? {
      NoRunOn(w, t, p);
      RangeShape(w + t, p);
      var e := RangeBody(w + t, p).value.end;
      RangeBodyFence(w, t, p, e - 1);
    } else if RangeBody(w, p).Some? {
      RangeShape(w, p);
      RangeBodyFence(w, t, p, RangeBody(w, p).value.end - 1);
    }
  }

  /** A match starts in the old part exactly where it did before. */
  lemma RangeKept(w: string, t: string, p: nat)
    requires p < |w| && Guarded(t)
    ensures RangeAt(w + t, p) == RangeAt(w, p)
  {
    hide RangeBody;
    if p + 10 <= |w| {
      AtPrefix(w, t, p, BYTE_RANGE);
      RangeBodyKept(w, t, p + 10);
    } else {
      NoStraddle(BYTE_RANGE, w, t, p);
    }
  }

  /** The match at `p` has its /Contents, `<` and `>` in the file. */
  predicate Enclosed(s: string, p: nat) {
    var tag := IndexOf(s, CONTENTS, p);
    tag != -1 &&
    var open := IndexOf(s, "<", tag);
    open != -1 && IndexOf(s, ">", open) != -1
  }

  /** Every /ByteRange of the file is followed by a complete /Contents string. */
  ghost predicate Closed(s: string) {
    forall p: nat :: p < |s| && RangeAt(s, p).Some? ==> Enclosed(s, p)
  }

  lemma SlotKept(w: string, t: string, p: nat, range: ByteRange)
    requires Enclosed(w, p)
    ensures SlotOf(w + t, p, range) == SlotOf(w, p, range)
  {
    hide IndexOf;
    var tag := IndexOf(w, CONTENTS, p);
    IndexOfPrefix(w, t, CONTENTS, p);
    var open := IndexOf(w, "<", tag);
    IndexOfPrefix(w, t, "<", tag);
    var close := IndexOf(w, ">", open);
    IndexOfPrefix(w, t, ">", open);
    GapOrder(w, open, close);
    assert (w + t)[open + 1..close] == w[open + 1..close];
  }

  lemma GapOrder(w: string, open: nat, close: nat)
    requires At(w, open, "<") && IndexOf(w, ">", open) == close
    ensures open < close < |w|
  {
    AtFirst(w, open, "<");
    AtFirst(w, close, ">");
  }

  /** An unclosed match reports another slot once a complete /Contents string follows. */
  lemma SlotChanged(w: string, t: string, p: nat, range: ByteRange)
    requires !Enclosed(w, p) && Enclosed(w + t, p)
    ensures SlotOf(w, p, range) != SlotOf(w + t, p, range)
  {
    hide IndexOf, JsSlice;
    if IndexOf(w, CONTENTS, p) != -1 {
      IndexOfPrefix(w, t, CONTENTS, p);
      var tag := IndexOf(w, CONTENTS, p);
      if IndexOf(w, "<", tag) != -1 {
        IndexOfPrefix(w, t, "<", tag);
      }
    }
  }

  // ---- Slots of a stretch -------------------------------------------------------------------------

  /** The slots of the positions `lo..hi`. */
  function SlotsIn(s: string, lo: nat, hi: nat): seq<Slot>
    decreases hi - lo
  {
    if lo >= hi then [] else SlotsAt(s, lo) + SlotsIn(s, lo + 1, hi)
  }

  lemma {:induction false} SlotsSplit(s: string, lo: nat, mid: nat)
    requires lo <= mid <= |s|
    ensures Slots(s, lo) == SlotsIn(s, lo, mid) + Slots(s, mid)
    decreases mid - lo
  {
    hide SlotsAt;
    if lo < mid {
      SlotsSplit(s, lo + 1, mid);
    }
  }

  lemma AllSlots(s: string, lo: nat)
    requires lo <= |s|
    ensures Slots(s, lo) == SlotsIn(s, lo, |s|)
  {
    SlotsSplit(s, lo, |s|);
  }

  lemma SlotsAtKept(w: string, t: string, p: nat)
    requires p < |w| && Guarded(t)
    requires RangeAt(w, p).Some? ==> Enclosed(w, p)
    ensures SlotsAt(w + t, p) == SlotsAt(w, p)
  {
    hide RangeAt, SlotOf, Guarded, Enclosed;
    RangeKept(w, t, p);
    if RangeAt(w, p).Some? {
      SlotKept(w, t, p, RangeAt(w, p).value.range);
    }
  }

  lemma {:induction false} OldSlotsKept(w: string, t: string, lo: nat)
    requires lo <= |w| && Guarded(t)
    requires forall p: nat :: lo <= p < |w| && RangeAt(w, p).Some? ==> Enclosed(w, p)
    ensures SlotsIn(w + t, lo, |w|) == SlotsIn(w, lo, |w|)
    decreases |w| - lo
  {
    hide SlotsAt, RangeAt, Guarded, Enclosed;
    if lo < |w| {
      SlotsAtKept(w, t, lo);
      OldSlotsKept(w, t, lo + 1);
    }
  }

  /** Appending never makes an old position report less. */
  lemma SlotsAtGrow(w: string, t: string, p: nat)
    requires p < |w| && Guarded(t)
    requires RangeAt(w, p).Some? ==> Enclosed(w + t, p)
    ensures |SlotsAt(w + t, p)| >= |SlotsAt(w, p)|
    ensures RangeAt(w, p).Some? && !Enclosed(w, p) ==> SlotsAt(w + t, p) != SlotsAt(w, p)
  {
    hide RangeAt, Guarded, IndexOf;
    RangeKept(w, t, p);
    if RangeAt(w, p).Some? {
      var range := RangeAt(w, p).value.range;
      if !Enclosed(w, p) {
        SlotChanged(w, t, p, range);
      }
    }
  }

  lemma {:induction false} SlotsGrow(w: string, t: string, lo: nat)
    requires lo <= |w| && Guarded(t)
    requires forall p: nat :: lo <= p < |w| && RangeAt(w, p).Some? ==> Enclosed(w + t, p)
    ensures |SlotsIn(w + t, lo, |w|)| >= |SlotsIn(w, lo, |w|)|
    ensures SlotsIn(w + t, lo, |w|) == SlotsIn(w, lo, |w|) ==>
      forall p: nat :: lo <= p < |w| && RangeAt(w, p).Some? ==> Enclosed(w, p)
    decreases |w| - lo
  {
    hide SlotsAt, RangeAt, Guarded, Enclosed;
    if lo < |w| {
      SlotsAtGrow(w, t, lo);
      SlotsGrow(w, t, lo + 1);
      Aligned(SlotsAt(w + t, lo), SlotsIn(w + t, lo + 1, |w|), SlotsAt(w, lo), SlotsIn(w, lo + 1, |w|));
    }
  }

  lemma Aligned(a: seq<Slot>, b: seq<Slot>, c: seq<Slot>, d: seq<Slot>)
    requires |a| >= |c| && |b| >= |d|
    ensures a + b == c + d ==> a == c && b == d
  {
    if a + b == c + d {
      assert |a| == |c|;
      assert a == (a + b)[..|a|] && c == (c + d)[..|a|];
      assert b == (a + b)[|a|..] && d == (c + d)[|a|..];
    }
  }

  // ---- The layout of a signed file ----------------------------------------------------------------

  /** A file around one signature dictionary: what precedes the range, the range, the gap and what follows. */
  function File(pre: string, range: string, hex: string, post: string): string {
    pre + (RangeKey(range) + (GapText(hex) + post))
  }

  /** The range as the writer renders it: three ten-digit numbers. */
  predicate Numerals(a: string, b: string, c: string) {
    |a| == 10 && AllDigits(a) && |b| == 10 && AllDigits(b) && |c| == 10 && AllDigits(c)
  }

  /** The position of the `<` that opens the gap. */
  function GapStart(pre: string): nat {
    |pre| + 58
  }

  lemma FileForm(pre: string, a: string, b: string, c: string, hex: string, post: string)
    ensures File(pre, RangeText(a, b, c), hex, post) ==
      pre + (BYTE_RANGE + (" [0 " + (a + (" " + (b + (" " + (c + ("] " + (CONTENTS + (" <" +
        (hex + ("> >>" + post))))))))))))
  {
    hide BYTE_RANGE, CONTENTS;
  }

  lemma Whole(s: string)
    ensures At(s, 0, s)
  {
    assert s[0..|s|] == s;
  }

  ghost predicate Numbered(s: string, p: nat, a: string, b: string, c: string) {
    && At(s, p + 10, " [0 ") && At(s, p + 14, a) && At(s, p + 24, " ")
    && At(s, p + 25, b) && At(s, p + 35, " ") && At(s, p + 36, c) && At(s, p + 46, "] ")
  }

  lemma FileParts(pre: string, a: string, b: string, c: string, hex: string, post: string)
    requires Numerals(a, b, c)
    ensures var s := File(pre, RangeText(a, b, c), hex, post); var p := |pre|;
      && |s| == p + 63 + |hex| + |post|
      && At(s, 0, pre) && At(s, p, BYTE_RANGE) && Numbered(s, p, a, b, c)
      && At(s, p + 48, CONTENTS) && At(s, p + 57, " <") && At(s, p + 59, hex) && At(s, p + 59 + |hex|, "> >>" + post)
  {
    hide At;
    var s := File(pre, RangeText(a, b, c), hex, post);
    var p := |pre|;
    FileForm(pre, a, b, c, hex, post);
    Whole(s);
    var t7 := "] " + (CONTENTS + (" <" + (hex + ("> >>" + post))));
    AtConcat(s, 0, pre, BYTE_RANGE + (" [0 " + (a + (" " + (b + (" " + (c + t7)))))));
    AtConcat(s, p, BYTE_RANGE, " [0 " + (a + (" " + (b + (" " + (c + t7))))));
    AtConcat(s, p + 10, " [0 ", a + (" " + (b + (" " + (c + t7)))));
    AtConcat(s, p + 14, a, " " + (b + (" " + (c + t7))));
    AtConcat(s, p + 24, " ", b + (" " + (c + t7)));
    AtConcat(s, p + 25, b, " " + (c + t7));
    AtConcat(s, p + 35, " ", c + t7);
    AtConcat(s, p + 36, c, t7);
    AtConcat(s, p + 46, "] ", CONTENTS + (" <" + (hex + ("> >>" + post))));
    AtConcat(s, p + 48, CONTENTS, " <" + (hex + ("> >>" + post)));
    AtConcat(s, p + 57, " <", hex + ("> >>" + post));
    AtConcat(s, p + 59, hex, "> >>" + post);
  }

  // ---- The new slot -------------------------------------------------------------------------------

  lemma NumbersRead(s: string, p: nat, a: string, b: string, c: string)
    requires Numerals(a, b, c) && Numbered(s, p, a, b, c)
    ensures RangeNumbers(s, p + 12) == Some(RangeMatch(ByteRange(0, ParseNat(a), ParseNat(b), ParseNat(c)), p + 47))
  {
    hide ParseNat, NumberAt, SpacedNumberAt, At;
    AtConcat(s, p + 10, " [", "0 ");
    AtConcat(s, p + 12, "0", " ");
    assert " [0 " == " [" + "0 " && "0 " == "0" + " ";
    AtFirst(s, p + 13, " ");
    AtFirst(s, p + 24, " ");
    AtFirst(s, p + 35, " ");
    AtFirst(s, p + 46, "] ");
    AtInside(s, p + 46, "] ");
    NumberReads(s, p + 12, "0");
    assert ParseNat("0") == 0 by { ZeroReads(); }
    SpacedReads(s, p + 13, a);
    SpacedReads(s, p + 24, b);
    SpacedReads(s, p + 35, c);
    assert SkipSpaces(s, p + 46) == p + 46;
  }

  lemma ZeroReads()
    ensures ParseNat("0") == 0
  {
  }

  lemma RangeReads(s: string, p: nat, a: string, b: string, c: string)
    requires Numerals(a, b, c) && At(s, p, BYTE_RANGE) && Numbered(s, p, a, b, c)
    ensures RangeAt(s, p) == Some(RangeMatch(ByteRange(0, ParseNat(a), ParseNat(b), ParseNat(c)), p + 47))
  {
    hide RangeNumbers, ParseNat;
    AtEach(s, p + 10, " [0 ");
    assert s[p + 10 + 0] == ' ' && s[p + 10 + 1] == '[' && s[p + 10 + 2] == '0';
    assert SkipSpaces(s, p + 10) == p + 11;
    assert SkipSpaces(s, p + 12) == p + 12;
    NumbersRead(s, p, a, b, c);
  }

  lemma NothingBetween(s: string, p: nat, a: string, b: string, c: string)
    requires Numerals(a, b, c) && At(s, p, BYTE_RANGE) && Numbered(s, p, a, b, c)
    ensures forall i: nat :: p <= i < p + 48 ==> !At(s, i, CONTENTS)
    ensures forall i: nat :: p < i < p + 48 ==> !At(s, i, BYTE_RANGE)
  {
    hide RangeBody;
    RangeReads(s, p, a, b, c);
    AtFirstTwo(s, p, BYTE_RANGE);
    AtFirstTwo(s, p, CONTENTS);
    forall i: nat | p < i < p + 48
      ensures !At(s, i, CONTENTS) && !At(s, i, BYTE_RANGE)
    {
      if i < p + 10 {
        KeywordOnce(s, p, i);
      } else if i < p + 47 {
        InsideBody(s, p + 10, i);
      } else {
        AtFirstTwo(s, p + 46, "] ");
      }
      AtFirst(s, i, CONTENTS);
      AtFirst(s, i, BYTE_RANGE);
    }
  }

  /** Where the searches of `findSignatures` land: on the gap. */
  lemma GapReads(s: string, p: nat, hex: string, rest: string)
    requires forall i: nat :: p <= i < p + 48 ==> !At(s, i, CONTENTS)
    requires At(s, p + 48, CONTENTS) && At(s, p + 57, " <") && At(s, p + 59, hex)
    requires At(s, p + 59 + |hex|, "> >>" + rest)
    requires Lacks(hex, '>')
    ensures IndexOf(s, CONTENTS, p) == p + 48
    ensures IndexOf(s, "<", p + 48) == p + 58
    ensures IndexOf(s, ">", p + 58) == p + 59 + |hex|
  {
    hide IndexOf;
    IndexOfIs(s, CONTENTS, p, p + 48);
    AtEach(s, p + 48, CONTENTS);
    AtFirstTwo(s, p + 57, " <");
    AtFirst(s, p + 59 + |hex|, "> >>" + rest);
    AtEach(s, p + 59, hex);
    forall i: nat | p + 48 <= i < p + 58
      ensures !At(s, i, "<")
    {
      if i < p + 57 {
        assert s[p + 48 + (i - p - 48)] == CONTENTS[i - p - 48];
      }
      AtFirst(s, i, "<");
    }
    assert s[p + 58..p + 59] == "<";
    IndexOfIs(s, "<", p + 48, p + 58);
    forall i: nat | p + 58 <= i < p + 59 + |hex|
      ensures !At(s, i, ">")
    {
      if i > p + 58 {
        assert s[p + 59 + (i - p - 59)] == hex[i - p - 59];
      }
      AtFirst(s, i, ">");
    }
    assert s[p + 59 + |hex|..p + 60 + |hex|] == ">";
    IndexOfIs(s, ">", p + 58, p + 59 + |hex|);
  }

  /** What `findSignatures` reports at the new dictionary. */
  lemma NewSlotReads(pre: string, a: string, b: string, c: string, hex: string, post: string)
    requires Numerals(a, b, c) && Lacks(hex, '>')
    ensures var s := File(pre, RangeText(a, b, c), hex, post); var g := GapStart(pre);
      && SlotsAt(s, |pre|) == [Slot(ByteRange(0, ParseNat(a), ParseNat(b), ParseNat(c)), g, g + |hex| + 2, hex)]
      && Enclosed(s, |pre|)
      && forall i: nat :: |pre| < i < |pre| + 48 ==> !At(s, i, BYTE_RANGE)
  {
    hide RangeAt, IndexOf, File, At, ParseNat, RangeText, Numbered, BYTE_RANGE, CONTENTS;
    var s := File(pre, RangeText(a, b, c), hex, post);
    var p := |pre|;
    FileParts(pre, a, b, c, hex, post);
    RangeReads(s, p, a, b, c);
    NothingBetween(s, p, a, b, c);
    GapReads(s, p, hex, post);
    assert JsSlice(s, p + 59, p + 59 + |hex|) == hex by { SliceOfAt(s, p + 59, hex); }
  }

  lemma SliceOfAt(s: string, p: nat, x: string)
    requires At(s, p, x)
    ensures JsSlice(s, p, p + |x|) == x
  {
  }
}
