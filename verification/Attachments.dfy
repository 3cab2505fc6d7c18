/** Documents with large objects: appending an object of any size that is no form field keeps a document signable and a
    prepared document a baseline. */
module Attachments {
  import opened Text
  import opened PdfObjects
  import opened IncrementalSigner
  import opened Stability
  import opened RevisionProofs
  import opened AppendProofs
  import opened SlotProofs
  import opened QuietProofs
  import opened FieldProofs
  import opened SigningLayout
  import opened SigningTheorems
  import opened Preservation
  import opened SignatureRuns
  import Protocol
  import opened Executions
  import opened SampleDocument

  /** No form field, and one object. */
  ghost predicate Bland(content: string) {
    Absent(TITLE, content) && Absent("endobj", content)
  }

  /** An image, a font or a page: no form field, no signature. */
  ghost predicate Inert(content: string) {
    Bland(content) && Absent(BYTE_RANGE, content)
  }

  function Attachment(doc: Index, content: string): Revision {
    Revision(doc.size, 0, content)
  }

  /** The document with one object more. */
  function Attached(buf: string, doc: Index, content: string): string
    requires StartXref(buf).Ok?
  {
    Revised(buf, doc, [Attachment(doc, content)])
  }

  function AttachedDoc(buf: string, doc: Index, content: string): Index
    requires StartXref(buf).Ok?
  {
    RevisedIndex(buf, doc, [Attachment(doc, content)])
  }

  ghost predicate Attachable(buf: string, doc: Index, content: string) {
    Signable(buf, doc) && Bland(content) && |buf| + |content| < 1000000000
  }

  // ---- The revision fits --------------------------------------------------------------------------

  lemma OneObject(o: Revision, at: nat)
    ensures ObjectsText([o]) == ObjectText(o) && OffsetsOf([o], at) == map[o.num := at] && Ascending([o])
    ensures ObjectsText([o][..0]) == ""
  {
    hide ObjectText;
    assert [o][1..] == [];
    assert map[o.num := at] + map[] == map[o.num := at];
  }

  lemma OneLine(o: Revision, offsets: map<nat, nat>)
    requires o.num in offsets
    ensures forall p :: p in [o] ==> p.num in offsets
    ensures XrefLines([o], offsets) == XrefLine(o.num, offsets[o.num], o.gen)
  {
    hide XrefLine;
    assert [o][1..] == [];
    assert XrefLines([], offsets) == "";
  }

  lemma SignableStart(buf: string, doc: Index)
    requires Signable(buf, doc)
    ensures StartXref(buf).Ok? && StartXref(buf).value < |buf| && WellFormed(buf, doc)
  {
    hide StartXref, Parse, Readable, FieldsExtendable, SmallHead, ProperChain;
    SignableParsed(buf, doc);
    ParsedOffsets(buf, doc);
    ChainStartBelow(buf, doc);
  }

  lemma ObjectWidth(doc: Index, content: string)
    requires doc.size < 1000000000
    ensures |ObjectText(Attachment(doc, content))| <= |content| + 26
  {
    hide ObjectText, Dec;
    TenBillion();
    NumeralWidths(doc.size);
    DecZero();
    ObjectTextLength(Attachment(doc, content));
  }

  lemma OneSectionWidth(buf: string, doc: Index, content: string, prev: nat)
    requires SmallHead(buf, doc) && |buf| + |content| < 1000000000 && prev < |buf|
    ensures |SectionText(doc, [Attachment(doc, content)], |buf|, prev)| <= SECTION_WINDOW
    ensures |Footer(|buf| + 1 + |ObjectsText([Attachment(doc, content)])|)| <= 28
  {
    hide ObjectText, Pow10, SmallHead, OffsetsOf, ObjectsText, XrefLine, XREF_HEAD, IdPart, Dec, Footer, TrailerDict;
    var o := Attachment(doc, content);
    var at := |buf| + 1;
    TenBillion();
    HeadParts(buf, doc);
    ObjectWidth(doc, content);
    OneObject(o, at);
    OneLine(o, OffsetsOf([o], at));
    XrefLineWidth(doc.size, at, 0) by { assert 0 < Pow10(5) by { PowPositive(5); } }
    NumeralWidths(doc.size);
    FooterWidth(at + |ObjectsText([o])|);
    TrailerWidth(doc, doc.size + 1, prev);
    HeadWidth();
    assert NewSize(doc, [o]) == doc.size + 1;
    SectionSum(doc, [o], |buf|, prev);
  }

  lemma SectionSum(doc: Index, sorted: seq<Revision>, start: nat, prev: nat)
    requires |sorted| > 0
    ensures |SectionText(doc, sorted, start, prev)| ==
      |XREF_HEAD| + |XrefLines(sorted, OffsetsOf(sorted, start + 1))| + 9 +
      |TrailerDict(NewSize(doc, sorted), doc.root, IdPart(doc.trailer), prev)| +
      |Footer(start + 1 + |ObjectsText(sorted)|)|
    ensures SECTION_WINDOW == 1048576
  {
    hide XREF_HEAD, XrefLines, OffsetsOf, TrailerDict, NewSize, IdPart, Footer, ObjectsText;
  }

  lemma PowPositive(k: nat)
    ensures Pow10(k) > 0
  {
  }

  lemma HeadParts(buf: string, doc: Index)
    requires SmallHead(buf, doc)
    ensures doc.size <= |buf| && doc.root.num < Pow10(10) && doc.root.gen < Pow10(10) && |IdPart(doc.trailer)| <= 1000
  {
  }

  lemma AttachmentAppendable(buf: string, doc: Index, content: string)
    requires Attachable(buf, doc, content)
    ensures StartXref(buf).Ok? && Appendable(buf, doc, [Attachment(doc, content)])
  {
    hide *;
    var o := Attachment(doc, content);
    AttachableParts(buf, doc, content);
    SignableStart(buf, doc);
    OneObject(o, |buf| + 1);
    OneSectionWidth(buf, doc, content, StartXref(buf).value);
    TenBillion();
    AppendableIs(buf, doc, o);
  }

  lemma AttachableParts(buf: string, doc: Index, content: string)
    requires Attachable(buf, doc, content)
    ensures Signable(buf, doc) && |buf| + |content| < 1000000000 && SmallHead(buf, doc)
    ensures Absent(TITLE, content) && Absent("endobj", content)
    ensures Attachment(doc, content) == Revision(doc.size, 0, content)
  {
    hide WellFormed, Readable, FieldsExtendable, SmallHead, Absent;
  }

  lemma AppendableIs(buf: string, doc: Index, o: Revision)
    requires StartXref(buf).Ok? && Ascending([o]) && OffsetsOf([o], |buf| + 1) == map[o.num := |buf| + 1] && o.gen == 0
    requires |buf| + 1 < Pow10(10) && |Footer(|buf| + 1 + |ObjectsText([o])|)| <= 28
    requires |SectionText(doc, [o], |buf|, StartXref(buf).value)| <= SECTION_WINDOW
    ensures Appendable(buf, doc, [o])
  {
    hide StartXref, SectionText, Footer, ObjectsText, OffsetsOf, Pow10;
    PowPositive(5);
  }

  // ---- The objects of the longer file -------------------------------------------------------------

  lemma AttachedIs(buf: string, doc: Index, content: string)
    requires StartXref(buf).Ok?
    ensures Attached(buf, doc, content) == Revised(buf, doc, [Attachment(doc, content)])
    ensures AttachedDoc(buf, doc, content) == RevisedIndex(buf, doc, [Attachment(doc, content)])
    ensures AttachedDoc(buf, doc, content).size == doc.size + 1 && AttachedDoc(buf, doc, content).root == doc.root
  {
    hide StartXref, NewSection, AddMissing, NewTrailer, RevisionText;
  }

  lemma OldKept(buf: string, doc: Index, content: string, num: nat)
    requires Attachable(buf, doc, content) && num != doc.size
    ensures StartXref(buf).Ok?
    ensures var (out, grown) := (Attached(buf, doc, content), AttachedDoc(buf, doc, content));
      && (Indexed(grown, num) <==> Indexed(doc, num))
      && (Indexed(doc, num) ==>
          ReadObject(out, grown.offsets, num) == ReadObject(buf, doc.offsets, num) && Steady(out, grown.offsets, num))
  {
    hide *;
    AttachableParts(buf, doc, content);
    SignableStart(buf, doc);
    AttachmentAppendable(buf, doc, content);
    AttachedIs(buf, doc, content);
    OldObjectReads(buf, doc, [Attachment(doc, content)], num);
    IndexedIs(doc, num);
    IndexedIs(AttachedDoc(buf, doc, content), num);
    SignableReads(buf, doc, num);
  }

  /** The new object lies where its entry says. */
  lemma AttachedAt(buf: string, doc: Index, content: string)
    requires Attachable(buf, doc, content)
    ensures StartXref(buf).Ok?
    ensures var (out, grown) := (Attached(buf, doc, content), AttachedDoc(buf, doc, content));
      && Lookup(grown.offsets, doc.size) == Some(|buf| + 1)
      && At(out, |buf| + 1, ObjectText(Attachment(doc, content)))
  {
    hide *;
    var o := Attachment(doc, content);
    AttachmentAppendable(buf, doc, content);
    AttachableParts(buf, doc, content);
    AttachedIs(buf, doc, content);
    OneObject(o, |buf| + 1);
    NewLookup(buf, doc, [o], 0);
    RevisedForm(buf, doc, [o]);
    TextAt(buf, ObjectText(o), SectionText(doc, [o], |buf|, StartXref(buf).value));
  }

  lemma TextAt(buf: string, text: string, rest: string)
    ensures At(buf + ("\n" + text) + rest, |buf| + 1, text)
  {
    var s := buf + ("\n" + text) + rest;
    assert s == (buf + "\n") + (text + rest);
    assert s[|buf| + 1..|buf| + 1 + |text|] == text;
  }

  /** An object's text mentions a marker that starts with a slash only if its content does. */
  lemma TextQuiet(pat: string, doc: Index, content: string)
    requires (pat == TITLE || pat == BYTE_RANGE) && Absent(pat, content)
    ensures Absent(pat, ObjectText(Attachment(doc, content)))
  {
    hide Absent, Dec, BYTE_RANGE, TITLE;
    var head := Dec(doc.size) + " " + Dec(0) + " obj\n";
    HeadPlain(doc.size);
    MarkerSeams();
    LacksAbsent(pat, head);
    LacksAbsent(pat, "\nendobj\n");
    AbsentAfter(pat, head, content);
    AbsentConcat(pat, head + content, "\nendobj\n");
    assert ObjectText(Attachment(doc, content)) == head + content + "\nendobj\n";
  }

  lemma InertParts(content: string)
    requires Inert(content)
    ensures Bland(content) && Absent(BYTE_RANGE, content)
  {
    hide Absent, Bland;
  }

  lemma HeadPlain(n: nat)
    ensures var head := Dec(n) + " " + Dec(0) + " obj\n"; Lacks(head, '/') && head != "" && head[|head| - 1] == '\n'
  {
    hide Dec;
    var (a, b) := (Dec(n), Dec(0));
    assert Lacks(a, '/') && Lacks(b, '/');
  }

  lemma MarkerSeams()
    ensures TITLE != "" && TITLE[0] == '/' && BYTE_RANGE != "" && BYTE_RANGE[0] == '/' && Lacks("\nendobj\n", '/')
    ensures Blocks(TITLE, '\n') && Blocks(BYTE_RANGE, '\n') && StartsClear(TITLE, "\nendobj\n")
    ensures StartsClear(BYTE_RANGE, "\nendobj\n")
    ensures StartsClear(BYTE_RANGE, "\n") && StartsClear(BYTE_RANGE, "xref")
  {
  }

  lemma BodyQuiet(pat: string, w: string, num: nat)
    requires Absent(pat, w) && ParseObject(w, num).Ok?
    ensures Absent(pat, ParseObject(w, num).value.body)
  {
    hide Absent, ObjectHeaderAt, Trim;
    var head := ObjectHeaderAt(w, num).value;
    var end := IndexOf(w, "endobj", head.end);
    AbsentPart(pat, w, head.end, end);
    TrimIsPart(w[head.end..end]);
    var lo, hi :| 0 <= lo <= hi <= |w[head.end..end]| && Trim(w[head.end..end]) == w[head.end..end][lo..hi];
    AbsentPart(pat, w[head.end..end], lo, hi);
  }

  /** The new object is steady, whatever its size, and no form field. */
  lemma NewKept(buf: string, doc: Index, content: string)
    requires Attachable(buf, doc, content)
    ensures StartXref(buf).Ok?
    ensures var (out, grown) := (Attached(buf, doc, content), AttachedDoc(buf, doc, content));
      && Indexed(grown, doc.size) && Steady(out, grown.offsets, doc.size)
      && !SigField(BodyOf(out, grown, doc.size))
  {
    hide *;
    var o := Attachment(doc, content);
    AttachableParts(buf, doc, content);
    AttachmentAppendable(buf, doc, content);
    AttachedAt(buf, doc, content);
    AttachedIs(buf, doc, content);
    IndexedIs(AttachedDoc(buf, doc, content), doc.size);
    var (out, grown) := (Attached(buf, doc, content), AttachedDoc(buf, doc, content));
    TextQuiet(TITLE, doc, content);
    if |ObjectText(o)| <= OBJECT_WINDOW {
      Lines("endobj", content);
      NewObjectReads(buf, doc, [o], 0);
      ReadIsSteady(out, grown.offsets, doc.size);
      SmallBody(content);
      BodyIs(out, grown, doc.size);
      NoField(BodyOf(out, grown, doc.size));
    } else {
      AtInside(out, |buf| + 1, ObjectText(o));
      LargeObject(out, grown.offsets, doc.size, |buf| + 1, ObjectText(o));
      BodyIs(out, grown, doc.size);
      if ReadObject(out, grown.offsets, doc.size).Ok? {
        NoField(BodyOf(out, grown, doc.size));
      } else {
        EmptyNoField();
      }
    }
  }

  lemma SmallBody(content: string)
    requires Absent(TITLE, content)
    ensures Absent(TITLE, Trim("\n" + content + "\n"))
  {
    hide Absent, TITLE, Trim;
    MarkerSeams();
    var s := "\n" + content + "\n";
    LacksAbsent(TITLE, "\n");
    AbsentAfter(TITLE, "\n", content);
    assert StartsClear(TITLE, "\n") by { TitleSeam(); }
    AbsentConcat(TITLE, "\n" + content, "\n");
    TrimIsPart(s);
    var lo, hi :| 0 <= lo <= hi <= |s| && Trim(s) == s[lo..hi];
    AbsentPart(TITLE, s, lo, hi);
  }

  lemma TitleSeam()
    ensures StartsClear(TITLE, "\n")
  {
  }

  lemma NoField(body: string)
    requires Absent(TITLE, body)
    ensures !SigField(body)
  {
    hide Absent, Includes;
    IncludesIff(body, TITLE);
  }

  lemma EmptyNoField()
    ensures !SigField("")
  {
    LacksAbsent(TITLE, "");
    NoField("");
  }

  lemma LargeObject(out: string, offsets: Table, num: nat, at: nat, text: string)
    requires Lookup(offsets, num) == Some(at) && At(out, at, text) && |text| > OBJECT_WINDOW && Absent(TITLE, text)
    ensures Steady(out, offsets, num)
    ensures ReadObject(out, offsets, num).Ok? ==> Absent(TITLE, ReadObject(out, offsets, num).value.body)
  {
    hide ParseObject, Absent, Lookup;
    var w := Window(out, at, OBJECT_WINDOW);
    assert w == text[0..OBJECT_WINDOW] by {
      assert out[at..at + |text|] == text;
      assert out[at..at + OBJECT_WINDOW] == out[at..at + |text|][..OBJECT_WINDOW];
    }
    AbsentPart(TITLE, text, 0, OBJECT_WINDOW);
    if ParseObject(w, num).Ok? {
      BodyQuiet(TITLE, w, num);
    }
  }

  // ---- The longer document ------------------------------------------------------------------------

  /** Appending an object of any size keeps a document signable. */
  lemma AttachingKeepsSignable(buf: string, doc: Index, content: string)
    requires Attachable(buf, doc, content)
    ensures StartXref(buf).Ok? && Signable(Attached(buf, doc, content), AttachedDoc(buf, doc, content))
  {
    hide *;
    AttachableParts(buf, doc, content);
    SignableStart(buf, doc);
    AttachmentAppendable(buf, doc, content);
    AttachedIs(buf, doc, content);
    var (out, grown) := (Attached(buf, doc, content), AttachedDoc(buf, doc, content));
    AppendThenParse(buf, doc, [Attachment(doc, content)]);
    forall num: nat
      ensures Indexed(grown, num) ==> num < grown.size && Steady(out, grown.offsets, num)
      ensures Indexed(grown, num) && ReadObject(out, grown.offsets, num).Ok? ==>
        var o := ReadObject(out, grown.offsets, num).value;
        SigField(o.body) && !AlreadySigned(o.body) ==> Extendable(o)
    {
      if num == doc.size {
        NewKept(buf, doc, content);
        BodyIs(out, grown, num);
      } else {
        OldKept(buf, doc, content, num);
        SignableReads(buf, doc, num);
        SignableExtends(buf, doc, num);
      }
    }
    ReadableIs(out, grown);
    ExtendableIs(out, grown);
    RevisedLonger(buf, doc, Attachment(doc, content));
    SmallKept(buf, doc, out, grown);
    SignableIs(out, grown);
  }

  lemma RevisedLonger(buf: string, doc: Index, o: Revision)
    requires StartXref(buf).Ok?
    ensures |Revised(buf, doc, [o])| > |buf|
  {
    hide SectionText, ObjectsText, StartXref, RevisionText;
    RevisedForm(buf, doc, [o]);
  }

  lemma AttachingKeepsSole(buf: string, doc: Index, content: string, name: string, num: nat)
    requires Attachable(buf, doc, content) && Sole(buf, doc, name, num)
    ensures StartXref(buf).Ok?
    ensures var (out, grown) := (Attached(buf, doc, content), AttachedDoc(buf, doc, content));
      Sole(out, grown, name, num) && BodyOf(out, grown, num) == BodyOf(buf, doc, num)
  {
    hide Attachable, Attached, AttachedDoc, IsField, Indexed, BodyOf, Lacks;
    NewKept(buf, doc, content);
    var (out, grown) := (Attached(buf, doc, content), AttachedDoc(buf, doc, content));
    SizeUnused(buf, doc, content);
    forall k: nat
      ensures k != doc.size ==> (Indexed(grown, k) <==> Indexed(doc, k))
      ensures k != doc.size && Indexed(doc, k) ==> BodyOf(out, grown, k) == BodyOf(buf, doc, k)
    {
      if k != doc.size {
        OldKept(buf, doc, content, k);
        if Indexed(doc, k) {
          BodyIs(out, grown, k);
          BodyIs(buf, doc, k);
        }
      }
    }
    if IsField(BodyOf(out, grown, doc.size), name) {
      FieldIsSigField(BodyOf(out, grown, doc.size), name);
      assert false;
    }
  }

  lemma SizeUnused(buf: string, doc: Index, content: string)
    requires Attachable(buf, doc, content)
    ensures !Indexed(doc, doc.size)
  {
    hide *;
    AttachableParts(buf, doc, content);
    SignableReads(buf, doc, doc.size);
  }

  // ---- Its slots ----------------------------------------------------------------------------------

  /** Text without /ByteRange that no match can run into leaves the slots as they are. */
  lemma QuietSlots(buf: string, t: string)
    requires Closed(buf) && Guarded(t) && Absent(BYTE_RANGE, t)
    ensures Slots(buf + t, 0) == Slots(buf, 0) && Closed(buf + t)
  {
    hide Guarded, RangeAt, Enclosed, SlotsAt, SlotsIn, BYTE_RANGE, Closed;
    var s := buf + t;
    ClosedAt(buf);
    OldSlotsKept(buf, t, 0);
    SlotsSplit(s, 0, |buf|);
    AllSlots(buf, 0);
    forall i: nat | |buf| <= i
      ensures !At(s, i, BYTE_RANGE)
    {
      AtSuffix(buf, t, i - |buf|, BYTE_RANGE);
      AbsentAt(t, i - |buf|);
    }
    SkipUnmatched(s, |buf|, |s|);
    SlotsEnd(s);
    forall p: nat | p < |s| && RangeAt(s, p).Some?
      ensures Enclosed(s, p)
    {
      RangeStarts(s, p);
      RangeKept(buf, t, p);
      EnclosedGrows(buf, t, p);
    }
    ClosedIf(s);
  }

  lemma RangeStarts(s: string, p: nat)
    requires p < |s| && RangeAt(s, p).Some?
    ensures At(s, p, BYTE_RANGE)
  {
    hide RangeBody;
  }

  lemma EnclosedGrows(w: string, t: string, p: nat)
    requires Enclosed(w, p)
    ensures Enclosed(w + t, p)
  {
    hide IndexOf;
    var tag := IndexOf(w, CONTENTS, p);
    IndexOfPrefix(w, t, CONTENTS, p);
    IndexOfPrefix(w, t, "<", tag);
    IndexOfPrefix(w, t, ">", IndexOf(w, "<", tag));
  }

  lemma HeaderGuards(n: nat, more: string)
    ensures Guarded("\n" + (Dec(n) + (" " + (Dec(0) + (" o" + more)))))
  {
    hide Dec, IsRangeChar;
    var (d, g) := (Dec(n), Dec(0));
    var t := "\n" + (d + (" " + (g + (" o" + more))));
    var f := |d| + |g| + 3;
    assert t[0] == '\n' && t[f] == 'o';
    KeywordFacts();
    forall i | 0 <= i < f
      ensures t[i] != ']'
    {
      HeaderChar(d, g, more, i);
    }
    assert !IsRangeChar(t[f]) by { LetterO(); }
  }

  lemma AttachmentQuiet(buf: string, doc: Index, content: string)
    requires Inert(content) && StartXref(buf).Ok?
    ensures var o := Attachment(doc, content);
      var t := ("\n" + ObjectText(o)) + SectionText(doc, [o], |buf|, StartXref(buf).value);
      Guarded(t) && Absent(BYTE_RANGE, t)
  {
    hide Inert, Absent, StartXref, SectionText, Dec, BYTE_RANGE, Guarded;
    var o := Attachment(doc, content);
    var section := SectionText(doc, [o], |buf|, StartXref(buf).value);
    var (d, g) := (Dec(doc.size), Dec(0));
    var more := "bj\n" + content + "\nendobj\n" + section;
    HeaderGuards(doc.size, more);
    assert ("\n" + ObjectText(o)) + section == "\n" + (d + (" " + (g + (" o" + more))));
    InertParts(content);
    TextQuiet(BYTE_RANGE, doc, content);
    MarkerSeams();
    LacksAbsent(BYTE_RANGE, "\n");
    AbsentAfter(BYTE_RANGE, "\n", ObjectText(o));
    SectionQuiet(doc, [o], |buf|, StartXref(buf).value);
    var front := "\n" + ObjectText(o);
    assert front[|front| - 1] == '\n';
    AbsentAfter(BYTE_RANGE, front, section);
  }

  lemma AttachedSlots(buf: string, doc: Index, content: string)
    requires Attachable(buf, doc, content) && Inert(content) && Closed(buf)
    ensures StartXref(buf).Ok?
    ensures Slots(Attached(buf, doc, content), 0) == Slots(buf, 0) && Closed(Attached(buf, doc, content))
    ensures buf < Attached(buf, doc, content)
  {
    hide *;
    var o := Attachment(doc, content);
    AttachableParts(buf, doc, content);
    SignableStart(buf, doc);
    AttachedIs(buf, doc, content);
    OneObject(o, 0);
    RevisedForm(buf, doc, [o]);
    AttachmentQuiet(buf, doc, content);
    var t := ("\n" + ObjectText(o)) + SectionText(doc, [o], |buf|, StartXref(buf).value);
    assert Attached(buf, doc, content) == buf + t;
    QuietSlots(buf, t);
    RevisedLonger(buf, doc, o);
    RevisedExtends(buf, doc, [o]);
  }

  // ---- Prepared documents -------------------------------------------------------------------------

  /** A prepared document may hold objects of any size: appending one keeps it a baseline. */
  lemma AttachingKeepsBaseline(base: string, doc: Index, nums: seq<nat>, content: string)
    requires BaselineWith(base, doc, nums) && Inert(content) && |base| + |content| < 1000000000
    ensures StartXref(base).Ok? && BaselineWith(Attached(base, doc, content), AttachedDoc(base, doc, content), nums)
  {
    hide Signable, Inert, Bland, Closed, Slots, Sole, AlreadySigned, BodyOf, Attached, AttachedDoc;
    InertParts(content);
    assert Attachable(base, doc, content);
    AttachingKeepsSignable(base, doc, content);
    AttachedSlots(base, doc, content);
    var (out, grown) := (Attached(base, doc, content), AttachedDoc(base, doc, content));
    forall i | 0 <= i < 3
      ensures Sole(out, grown, Protocol.FieldName(Protocol.ORDER[i]), nums[i])
      ensures BodyOf(Attached(base, doc, content), AttachedDoc(base, doc, content), nums[i]) ==
        BodyOf(base, doc, nums[i])
    {
      AttachingKeepsSole(base, doc, content, Protocol.FieldName(Protocol.ORDER[i]), nums[i]);
    }
  }

  // ---- Two prepared documents, and one with a large object ----------------------------------------

  lemma DigitsInert(content: string)
    requires AllDigits(content)
    ensures Inert(content) && Bland(content)
  {
    MarkerSeams();
    LacksAbsent(BYTE_RANGE, content);
    LacksAbsent(TITLE, content);
    LacksAbsent("endobj", content);
  }

  lemma OneDigit()
    ensures AllDigits("1") && AllDigits("2")
  {
  }

  lemma AttachableIf(buf: string, doc: Index, content: string)
    requires Signable(buf, doc) && Bland(content) && |buf| + |content| < 1000000000
    ensures Attachable(buf, doc, content)
  {
    hide Signable, Bland;
  }

  lemma SampleWith() returns (doc: Index, nums: seq<nat>)
    ensures BaselineWith(SAMPLE, doc, nums) && |SAMPLE| < 100000000
  {
    hide BaselineWith, SAMPLE;
    SampleIsBaseline();
    doc, nums :| BaselineWith(SAMPLE, doc, nums);
    SampleShort();
  }

  /** There are prepared documents neither of which begins with the other. */
  lemma TwoBaselines() returns (a: string, b: string)
    ensures Baseline(a) && Baseline(b) && !(a <= b) && !(b <= a) && |a| < 200000000 && |b| < 200000000
  {
    hide *;
    var doc, nums := SampleWith();
    BaselineParts(SAMPLE, doc, nums);
    OneDigit();
    DigitsInert("1");
    DigitsInert("2");
    AttachableIf(SAMPLE, doc, "1");
    AttachableIf(SAMPLE, doc, "2");
    AttachingKeepsBaseline(SAMPLE, doc, nums, "1");
    AttachingKeepsBaseline(SAMPLE, doc, nums, "2");
    a, b := Attached(SAMPLE, doc, "1"), Attached(SAMPLE, doc, "2");
    BaselineFrom(a, AttachedDoc(SAMPLE, doc, "1"), nums);
    BaselineFrom(b, AttachedDoc(SAMPLE, doc, "2"), nums);
    AttachedWidth(SAMPLE, doc, "1");
    AttachedWidth(SAMPLE, doc, "2");
    ContentAt(SAMPLE, doc, "1");
    ContentAt(SAMPLE, doc, "2");
    DigitsDiffer(a, b, |SAMPLE| + 1 + |Dec(doc.size)| + 7);
  }

  lemma BaselineParts(base: string, doc: Index, nums: seq<nat>)
    requires BaselineWith(base, doc, nums)
    ensures Signable(base, doc) && Closed(base)
  {
    hide Signable, Closed, Slots, Sole, AlreadySigned;
  }

  lemma BaselineFrom(base: string, doc: Index, nums: seq<nat>)
    requires BaselineWith(base, doc, nums)
    ensures Baseline(base)
  {
    hide BaselineWith;
  }

  lemma ContentAt(buf: string, doc: Index, content: string)
    requires Attachable(buf, doc, content)
    ensures StartXref(buf).Ok? && At(Attached(buf, doc, content), |buf| + 1 + |Dec(doc.size)| + 7, content)
  {
    hide *;
    AttachedAt(buf, doc, content);
    AttachableParts(buf, doc, content);
    var text := ObjectText(Attachment(doc, content));
    ContentInText(doc.size, content);
    var out := Attached(buf, doc, content);
    AtConcat(out, |buf| + 1, Dec(doc.size) + " 0 obj\n", content + "\nendobj\n");
    AtConcat(out, |buf| + 1 + |Dec(doc.size)| + 7, content, "\nendobj\n");
  }

  lemma ContentInText(n: nat, content: string)
    ensures ObjectText(Revision(n, 0, content)) == (Dec(n) + " 0 obj\n") + (content + "\nendobj\n")
    ensures |Dec(n) + " 0 obj\n"| == |Dec(n)| + 7
  {
    DecZero();
    hide Dec;
    assert Dec(0) == "0" by { ZeroText(); }
  }

  lemma ZeroText()
    ensures Dec(0) == "0"
  {
  }

  lemma DigitsDiffer(a: string, b: string, p: nat)
    requires At(a, p, "1") && At(b, p, "2")
    ensures !(a <= b) && !(b <= a)
  {
    AtFirst(a, p, "1");
    AtFirst(b, p, "2");
    AtInside(a, p, "1");
    AtInside(b, p, "2");
  }

  lemma AttachedWidth(buf: string, doc: Index, content: string)
    requires Attachable(buf, doc, content)
    ensures StartXref(buf).Ok? && |Attached(buf, doc, content)| <= |buf| + |content| + 1100000
  {
    hide *;
    var o := Attachment(doc, content);
    AttachableParts(buf, doc, content);
    SignableStart(buf, doc);
    AttachedIs(buf, doc, content);
    HeadParts(buf, doc);
    ObjectWidth(doc, content);
    OneObject(o, 0);
    OneSectionWidth(buf, doc, content, StartXref(buf).value);
    RevisedForm(buf, doc, [o]);
    SectionSum(doc, [o], |buf|, StartXref(buf).value);
  }

  /** A prepared document with an object too large to be read: the hypotheses do not ask that every object reads. */
  lemma LargeObjectBaseline() returns (base: string, doc: Index, nums: seq<nat>, num: nat)
    ensures BaselineWith(base, doc, nums) && Indexed(doc, num) && ReadObject(base, doc.offsets, num).Err?
  {
    hide *;
    var doc0, nums0 := SampleWith();
    BaselineParts(SAMPLE, doc0, nums0);
    var content := Zeros(1000000);
    ZerosWidth(1000000);
    DigitsInert(content);
    AttachableIf(SAMPLE, doc0, content);
    AttachingKeepsBaseline(SAMPLE, doc0, nums0, content);
    base, doc, nums, num := Attached(SAMPLE, doc0, content), AttachedDoc(SAMPLE, doc0, content), nums0, doc0.size;
    NewKept(SAMPLE, doc0, content);
    AttachedAt(SAMPLE, doc0, content);
    AttachableParts(SAMPLE, doc0, content);
    ContentInText(doc0.size, content);
    NoEnd(doc0.size, content);
    WindowIs();
    AtConcat(base, |SAMPLE| + 1, Dec(doc0.size) + " 0 obj\n" + content, "\nendobj\n");
    assert (Dec(doc0.size) + " 0 obj\n") + (content + "\nendobj\n") ==
      (Dec(doc0.size) + " 0 obj\n" + content) + "\nendobj\n";
    EndlessObject(base, doc.offsets, num, |SAMPLE| + 1, Dec(doc0.size) + " 0 obj\n" + content);
  }

  lemma ZerosWidth(k: nat)
    ensures |Zeros(k)| == k && AllDigits(Zeros(k))
  {
  }

  lemma NoEnd(n: nat, content: string)
    requires AllDigits(content)
    ensures Absent("endobj", Dec(n) + " 0 obj\n" + content)
  {
    hide Dec;
    var d := Dec(n);
    assert Lacks(d, 'e');
    LacksAbsent("endobj", d + " 0 obj\n" + content);
  }

  lemma EndlessObject(out: string, offsets: Table, num: nat, at: nat, text: string)
    requires Lookup(offsets, num) == Some(at) && At(out, at, text) && |text| > OBJECT_WINDOW && Absent("endobj", text)
    ensures ReadObject(out, offsets, num).Err?
  {
    hide ObjectHeaderAt, Absent, Lookup, Trim;
    var w := Window(out, at, OBJECT_WINDOW);
    assert w == text[0..OBJECT_WINDOW] by {
      assert out[at..at + |text|] == text;
      assert out[at..at + OBJECT_WINDOW] == out[at..at + |text|][..OBJECT_WINDOW];
    }
    AbsentPart("endobj", text, 0, OBJECT_WINDOW);
    NeverFound(w, "endobj");
  }

  lemma WindowIs()
    ensures OBJECT_WINDOW == 524288
  {
  }

  lemma NeverFound(w: string, pat: string)
    requires Absent(pat, w)
    ensures forall p: nat :: IndexOf(w, pat, p) == -1
  {
  }
}
