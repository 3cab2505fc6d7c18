/** Where everything lies in a file with one more signing revision. */
module SigningLayout {
  import opened Text
  import opened PdfObjects
  import opened IncrementalSigner
  import opened Stability
  import opened RevisionProofs
  import opened AppendProofs
  import opened SlotProofs
  import opened SigningProofs
  import opened QuietProofs
  import opened FieldProofs

  /** The objects of a signing revision in file order: the widget, then the signature dictionary. */
  function Pair(field: Object, sigNum: nat, opts: Appearance, range: string, hex: string): seq<Revision> {
    [Revision(field.num, field.gen, Widget(field.body, sigNum)), Revision(sigNum, 0, SigDict(opts, range, hex))]
  }

  lemma PairSorted(field: Object, sigNum: nat, opts: Appearance, range: string, hex: string)
    requires field.num < sigNum
    ensures SortByNum(SigningObjects(field, Widget(field.body, sigNum), sigNum, opts, range, hex)) ==
      Pair(field, sigNum, opts, range, hex)
    ensures Ascending(Pair(field, sigNum, opts, range, hex))
  {
    hide SigDict, Widget;
    var objs := SigningObjects(field, Widget(field.body, sigNum), sigNum, opts, range, hex);
    assert objs[..1] == [objs[0]];
    assert SortByNum([objs[0]]) == [objs[0]] by {
      assert [objs[0]][..0] == [];
    }
  }

  function SigHeader(sigNum: nat): string {
    Dec(sigNum) + " " + Dec(0) + " obj\n"
  }

  /** From the end of the old file to the /ByteRange key. */
  function Mid(field: Object, sigNum: nat, opts: Appearance): string {
    "\n" + ObjectText(Revision(field.num, field.gen, Widget(field.body, sigNum))) + SigHeader(sigNum) + SigHead(opts)
  }

  /** From the end of the gap's dictionary to the end of the file. */
  function Post(buf: string, doc: Index, field: Object, opts: Appearance): string
    requires StartXref(buf).Ok?
  {
    "\nendobj\n" +
    SectionText(doc, Pair(field, doc.size, opts, PLACEHOLDER, Zeros(2 * opts.reserved)), |buf|, StartXref(buf).value)
  }

  lemma DictLength(opts: Appearance, range: string, hex: string)
    ensures |SigDict(opts, range, hex)| == |SigHead(opts)| + |range| + |hex| + 27
  {
    hide SigHead;
  }

  /** The section depends on numbers, generations and lengths only. */
  lemma SectionIgnoresText(doc: Index, a: Revision, b: Revision, c: Revision, start: nat, prev: nat)
    requires b.num == c.num && b.gen == c.gen && |b.content| == |c.content|
    ensures SectionText(doc, [a, b], start, prev) == SectionText(doc, [a, c], start, prev)
    ensures ObjectsText([a, b]) == ObjectText(a) + ObjectText(b)
  {
    hide Pad, Dec, TrailerDict, XrefLine, NewSize, TrailerText, ObjectText, XREF_HEAD;
    assert |ObjectText(b)| == |ObjectText(c)| by { SameLength(b, c); }
    PairText(a, b);
    PairText(a, c);
    PairOffsets(a, b, start + 1);
    PairOffsets(a, c, start + 1);
    PairLines(a, b, OffsetsOf([a, b], start + 1));
    PairLines(a, c, OffsetsOf([a, c], start + 1));
    assert NewSize(doc, [a, b]) == NewSize(doc, [a, c]) by { PairSize(doc, a, b, c); }
  }

  lemma SameLength(b: Revision, c: Revision)
    requires b.num == c.num && b.gen == c.gen && |b.content| == |c.content|
    ensures |ObjectText(b)| == |ObjectText(c)|
  {
    hide Dec;
  }

  lemma PairSize(doc: Index, a: Revision, b: Revision, c: Revision)
    requires b.num == c.num
    ensures NewSize(doc, [a, b]) == NewSize(doc, [a, c])
  {
  }

  lemma PairText(a: Revision, b: Revision)
    ensures ObjectsText([a, b]) == ObjectText(a) + ObjectText(b)
  {
    hide ObjectText;
    assert [a, b][1..] == [b] && [b][1..] == [];
    assert ObjectsText([b]) == ObjectText(b);
  }

  lemma PairOffsets(a: Revision, b: Revision, at: nat)
    ensures OffsetsOf([a, b], at) == map[a.num := at][b.num := at + |ObjectText(a)|]
  {
    hide ObjectText;
    assert [a, b][1..] == [b] && [b][1..] == [];
    var next := at + |ObjectText(a)|;
    assert OffsetsOf([b], next) == map[b.num := next];
    assert map[a.num := at] + map[b.num := next] == map[a.num := at][b.num := next];
  }

  lemma PairLines(a: Revision, b: Revision, offsets: map<nat, nat>)
    requires a.num in offsets && b.num in offsets
    ensures forall o :: o in [a, b] ==> o.num in offsets
    ensures XrefLines([a, b], offsets) ==
      XrefLine(a.num, offsets[a.num], a.gen) + XrefLine(b.num, offsets[b.num], b.gen)
  {
    hide XrefLine;
    assert [a, b][1..] == [b] && [b][1..] == [];
    assert XrefLines([b], offsets) == XrefLine(b.num, offsets[b.num], b.gen) + "";
  }

  /** The revised file in terms of what surrounds the range and the gap. */
  lemma Layout(buf: string, doc: Index, field: Object, opts: Appearance, range: string, hex: string)
    requires StartXref(buf).Ok? && |range| == 36 && |hex| == 2 * opts.reserved
    ensures Revised(buf, doc, Pair(field, doc.size, opts, range, hex)) ==
      File(buf + Mid(field, doc.size, opts), range, hex, Post(buf, doc, field, opts))
  {
    hide SectionText, ObjectText, SigHead, Widget, StartXref, Revised, ObjectsText, SigDict, Dec, RangeKey, GapText;
    var n := doc.size;
    var a := Revision(field.num, field.gen, Widget(field.body, n));
    var b := Revision(n, 0, SigDict(opts, range, hex));
    var c := Revision(n, 0, SigDict(opts, PLACEHOLDER, Zeros(2 * opts.reserved)));
    var prev := StartXref(buf).value;
    DictLength(opts, range, hex);
    DictLength(opts, PLACEHOLDER, Zeros(2 * opts.reserved));
    PlaceholderLength();
    SectionIgnoresText(doc, a, b, c, |buf|, prev);
    RevisedForm(buf, doc, [a, b]);
    SigObjectText(opts, n, range, hex);
    var section := SectionText(doc, [a, b], |buf|, prev);
    var head := SigHeader(n) + SigHead(opts);
    var body := RangeKey(range) + GapText(hex);
    assert ObjectText(b) == head + (body + "\nendobj\n");
    assert buf + ("\n" + (ObjectText(a) + (head + (body + "\nendobj\n")))) + section ==
      (buf + ("\n" + ObjectText(a) + SigHeader(n) + SigHead(opts))) +
      (RangeKey(range) + (GapText(hex) + ("\nendobj\n" + section)));
  }

  lemma PlaceholderLength()
    ensures |PLACEHOLDER| == 36
  {
  }

  lemma SigObjectText(opts: Appearance, n: nat, range: string, hex: string)
    ensures ObjectText(Revision(n, 0, SigDict(opts, range, hex))) ==
      (SigHeader(n) + SigHead(opts)) + ((RangeKey(range) + GapText(hex)) + "\nendobj\n")
  {
    hide SigHead, RangeKey, GapText, Dec;
  }

  // ---- The slots of the longer file ---------------------------------------------------------------

  /** The appended text cannot prolong a match of the old file. */
  lemma MidGuarded(field: Object, n: nat, opts: Appearance, rest: string)
    ensures Guarded(Mid(field, n, opts) + rest)
  {
    hide Dec, Widget, SigHead, IsRangeChar;
    var (d, g) := (Dec(field.num), Dec(field.gen));
    var t := Mid(field, n, opts) + rest;
    var more := "bj\n" + Widget(field.body, n) + "\nendobj\n" + SigHeader(n) + SigHead(opts) + rest;
    assert t == "\n" + (d + (" " + (g + (" o" + more))));
    var f := |d| + |g| + 3;
    assert t[0] == '\n' && t[f] == 'o';
    KeywordFacts();
    forall i | 0 <= i < f
      ensures t[i] != ']'
    {
      HeaderChar(d, g, more, i);
    }
    assert !IsRangeChar(t[f]) by { LetterO(); }
  }

  lemma LetterO()
    ensures !IsRangeChar('o')
  {
  }

  lemma HeaderChar(d: string, g: string, more: string, i: nat)
    requires AllDigits(d) && AllDigits(g) && i < |d| + |g| + 3
    ensures ("\n" + (d + (" " + (g + (" o" + more)))))[i] != ']'
  {
  }

  lemma {:induction false} IndexOfFound(s: string, pat: string, from: nat, q: nat)
    requires from <= q && At(s, q, pat)
    ensures from <= IndexOf(s, pat, from) <= q
  {
  }

  /** Every position up to the new dictionary finds a complete /Contents string. */
  lemma EnclosedBefore(pre: string, a: string, b: string, c: string, hex: string, post: string, p: nat)
    requires Numerals(a, b, c) && p <= |pre|
    ensures Enclosed(File(pre, RangeText(a, b, c), hex, post), p)
  {
    hide File, RangeText, Numbered, IndexOf, Numerals, BYTE_RANGE, CONTENTS;
    var s := File(pre, RangeText(a, b, c), hex, post);
    FileParts(pre, a, b, c, hex, post);
    AtConcat(s, |pre| + 57, " ", "<");
    assert " <" == " " + "<" && "> >>" + post == ">" + (" >>" + post);
    AtConcat(s, |pre| + 59 + |hex|, ">", " >>" + post);
    IndexOfFound(s, CONTENTS, p, |pre| + 48);
    var tag := IndexOf(s, CONTENTS, p);
    IndexOfFound(s, "<", tag, |pre| + 58);
    IndexOfFound(s, ">", IndexOf(s, "<", tag), |pre| + 59 + |hex|);
  }

  /** The keyword occurs after the old file exactly once. */
  lemma KeywordPlaces(buf: string, mid: string, a: string, b: string, c: string, hex: string, post: string)
    requires Numerals(a, b, c) && Lacks(hex, '>')
    requires Absent(BYTE_RANGE, mid) && Absent(BYTE_RANGE, GapText(hex) + post)
    ensures var s := File(buf + mid, RangeText(a, b, c), hex, post);
      forall i: nat :: |buf| <= i && i != |buf| + |mid| ==> !At(s, i, BYTE_RANGE)
  {
    hide *;
    var s := File(buf + mid, RangeText(a, b, c), hex, post);
    KeyLengthIs(a, b, c);
    KeywordInside(buf + mid, a, b, c, hex, post);
    forall i: nat | |buf| <= i && i != |buf| + |mid|
      ensures !At(s, i, BYTE_RANGE)
    {
      if i < |buf| + |mid| {
        KeywordBefore(buf, mid, RangeText(a, b, c), hex, post, i);
      } else if i >= |buf| + |mid| + 47 {
        KeywordAfter(buf, mid, RangeText(a, b, c), hex, post, i);
      }
    }
  }

  lemma KeywordInside(pre: string, a: string, b: string, c: string, hex: string, post: string)
    requires Numerals(a, b, c) && Lacks(hex, '>')
    ensures forall i: nat :: |pre| < i < |pre| + 48 ==> !At(File(pre, RangeText(a, b, c), hex, post), i, BYTE_RANGE)
  {
    hide File, At, BYTE_RANGE, RangeText, SlotsAt, Numerals, Enclosed;
    NewSlotReads(pre, a, b, c, hex, post);
  }

  lemma KeywordBefore(buf: string, mid: string, range: string, hex: string, post: string, i: nat)
    requires Absent(BYTE_RANGE, mid) && |buf| <= i < |buf| + |mid|
    ensures !At(File(buf + mid, range, hex, post), i, BYTE_RANGE)
  {
    hide File, Absent, At, GapText;
    var rest := RangeKey(range) + (GapText(hex) + post);
    FileSplits(buf, mid, range, hex, post);
    KeywordClear(mid, rest);
    AtSuffix(buf, mid + rest, i - |buf|, BYTE_RANGE);
  }

  lemma KeywordAfter(buf: string, mid: string, range: string, hex: string, post: string, i: nat)
    requires Absent(BYTE_RANGE, GapText(hex) + post) && |RangeKey(range)| == 47 && i >= |buf| + |mid| + 47
    ensures !At(File(buf + mid, range, hex, post), i, BYTE_RANGE)
  {
    hide File, Absent, At, GapText, RangeKey;
    FileSplits(buf, mid, range, hex, post);
    AtSuffix(buf + mid + RangeKey(range), GapText(hex) + post, i - |buf| - |mid| - 47, BYTE_RANGE);
    AbsentAt(GapText(hex) + post, i - |buf| - |mid| - 47);
  }

  lemma AbsentAt(s: string, i: nat)
    requires Absent(BYTE_RANGE, s)
    ensures !At(s, i, BYTE_RANGE)
  {
  }

  lemma FileSplits(buf: string, mid: string, range: string, hex: string, post: string)
    ensures File(buf + mid, range, hex, post) == buf + (mid + (RangeKey(range) + (GapText(hex) + post)))
    ensures File(buf + mid, range, hex, post) == (buf + mid + RangeKey(range)) + (GapText(hex) + post)
  {
    hide GapText, RangeKey;
  }

  lemma KeyLengthIs(a: string, b: string, c: string)
    requires Numerals(a, b, c)
    ensures |RangeKey(RangeText(a, b, c))| == 47 && |RangeText(a, b, c)| == 36
  {
  }

  /** The slot of the new dictionary. */
  function NewSlot(pre: string, a: string, b: string, c: string, hex: string): Slot
    requires Numerals(a, b, c)
  {
    Slot(ByteRange(0, ParseNat(a), ParseNat(b), ParseNat(c)), GapStart(pre), GapStart(pre) + |hex| + 2, hex)
  }

  lemma NewSlotIs(pre: string, a: string, b: string, c: string, hex: string, post: string)
    requires Numerals(a, b, c) && Lacks(hex, '>')
    ensures var s := File(pre, RangeText(a, b, c), hex, post);
      |pre| < |s| && SlotsAt(s, |pre|) == [NewSlot(pre, a, b, c, hex)]
  {
    hide File, At, BYTE_RANGE, RangeText, SlotsAt, Numerals, Enclosed, ParseNat, Numbered;
    NewSlotReads(pre, a, b, c, hex, post);
    FileParts(pre, a, b, c, hex, post);
  }

  lemma NewSlotLast(buf: string, mid: string, a: string, b: string, c: string, hex: string, post: string)
    requires Numerals(a, b, c) && Lacks(hex, '>')
    requires Absent(BYTE_RANGE, mid) && Absent(BYTE_RANGE, GapText(hex) + post)
    ensures var s := File(buf + mid, RangeText(a, b, c), hex, post);
      Slots(s, 0) == SlotsIn(s, 0, |buf|) + [NewSlot(buf + mid, a, b, c, hex)]
  {
    hide *;
    var pre := buf + mid;
    var s := File(pre, RangeText(a, b, c), hex, post);
    KeywordPlaces(buf, mid, a, b, c, hex, post);
    NewSlotIs(pre, a, b, c, hex, post);
    SlotsSplit(s, 0, |buf|);
    SkipUnmatched(s, |buf|, |pre|);
    SkipUnmatched(s, |pre| + 1, |s|);
    SlotsStep(s, |pre|);
    SlotsEnd(s);
  }

  lemma SlotsStep(s: string, p: nat)
    requires p < |s|
    ensures Slots(s, p) == SlotsAt(s, p) + Slots(s, p + 1)
  {
  }

  lemma SlotsEnd(s: string)
    ensures Slots(s, |s|) == []
  {
  }

  /** Signing leaves the old slots as they were, and adds one, exactly when every old match had its /Contents string. */
  lemma SlotsOfRevision(buf: string, mid: string, a: string, b: string, c: string, hex: string, post: string)
    requires Numerals(a, b, c) && Lacks(hex, '>')
    requires Absent(BYTE_RANGE, mid) && Absent(BYTE_RANGE, GapText(hex) + post)
    requires forall rest :: Guarded(mid + rest)
    ensures var s := File(buf + mid, RangeText(a, b, c), hex, post);
      && (Slots(s, 0) == Slots(buf, 0) + [NewSlot(buf + mid, a, b, c, hex)] <==> Closed(buf))
      && (Closed(buf) ==> Closed(s))
  {
    hide File, Absent, At, GapText, BYTE_RANGE, RangeText, IndexOf, SlotsAt, SlotsIn, Enclosed, Numerals, ParseNat,
      Guarded, RangeAt, Closed, RangeKey;
    var range := RangeText(a, b, c);
    var s := File(buf + mid, range, hex, post);
    var t := mid + (RangeKey(range) + (GapText(hex) + post));
    assert s == buf + t by { FileSplits(buf, mid, range, hex, post); }
    NewSlotLast(buf, mid, a, b, c, hex, post);
    AllSlots(buf, 0);
    var grown := [NewSlot(buf + mid, a, b, c, hex)];
    assert Guarded(t);
    forall p: nat | p <= |buf + mid|
      ensures Enclosed(s, p)
    {
      EnclosedBefore(buf + mid, a, b, c, hex, post, p);
    }
    if Closed(buf) {
      ClosedAt(buf);
      OldSlotsKept(buf, t, 0);
      KeywordPlaces(buf, mid, a, b, c, hex, post);
      ClosedAfter(s, |buf + mid|);
    } else {
      SlotsGrow(buf, t, 0);
      if Slots(s, 0) == Slots(buf, 0) + grown {
        assert SlotsIn(s, 0, |buf|) == SlotsIn(buf, 0, |buf|) by {
          Aligned(SlotsIn(s, 0, |buf|), grown, SlotsIn(buf, 0, |buf|), grown);
        }
        ClosedIf(buf);
        assert false;
      }
    }
  }

  lemma ClosedAt(s: string)
    requires Closed(s)
    ensures forall p: nat :: p < |s| && RangeAt(s, p).Some? ==> Enclosed(s, p)
  {
  }

  lemma ClosedIf(s: string)
    requires forall p: nat :: p < |s| && RangeAt(s, p).Some? ==> Enclosed(s, p)
    ensures Closed(s)
  {
  }

  lemma ClosedAfter(s: string, q: nat)
    requires forall p: nat :: p <= q ==> Enclosed(s, p)
    requires forall p: nat :: q < p ==> !At(s, p, BYTE_RANGE)
    ensures Closed(s)
  {
    hide Enclosed, IndexOf;
    forall p: nat | p < |s| && RangeAt(s, p).Some?
      ensures Enclosed(s, p)
    {
      assert At(s, p, BYTE_RANGE);
    }
  }
}
