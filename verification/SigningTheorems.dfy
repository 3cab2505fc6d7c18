/** What one signing does to a document: which objects and slots the longer file has, and what it keeps. */
module SigningTheorems {
  import opened Text
  import opened PdfObjects
  import opened IncrementalSigner
  import opened Stability
  import opened RevisionProofs
  import opened AppendProofs
  import opened SlotProofs
  import opened SigningProofs
  import opened QuietProofs
  import opened FieldProofs
  import opened SigningLayout

  // ---- Documents that can be signed ---------------------------------------------------------------

  predicate Indexed(doc: Index, num: nat) {
    Lookup(doc.offsets, num).Some?
  }

  /** Every indexed object has a number below /Size and is complete in the file, so far as the reader looks at it. */
  ghost predicate Readable(buf: string, doc: Index) {
    forall num: nat :: Indexed(doc, num) ==> num < doc.size && Steady(buf, doc.offsets, num)
  }

  function BodyOf(buf: string, doc: Index, num: nat): string {
    match ReadObject(buf, doc.offsets, num)
    case Ok(o) => o.body
    case Err(_) => ""
  }

  predicate SigField(body: string) {
    Includes(body, TITLE) && Includes(body, SIG_FIELD)
  }

  const FIELD_LIMIT := 500000

  /** A field the writer can extend: a dictionary within the reader's window that mentions no /ByteRange. */
  ghost predicate Extendable(o: Object) {
    IsDict(o.body) && |o.body| <= FIELD_LIMIT && o.gen < Pow10(5) && Absent(BYTE_RANGE, o.body)
  }

  ghost predicate FieldsExtendable(buf: string, doc: Index) {
    forall num: nat :: Indexed(doc, num) && ReadObject(buf, doc.offsets, num).Ok? ==>
      var o := ReadObject(buf, doc.offsets, num).value;
      SigField(o.body) && !AlreadySigned(o.body) ==> Extendable(o)
  }

  ghost predicate SmallHead(buf: string, doc: Index) {
    doc.size <= |buf| && doc.root.num < Pow10(10) && doc.root.gen < Pow10(10) && |IdPart(doc.trailer)| <= 1000
  }

  ghost predicate Signable(buf: string, doc: Index) {
    WellFormed(buf, doc) && Readable(buf, doc) && FieldsExtendable(buf, doc) && SmallHead(buf, doc)
  }

  /** What the caller passes in: texts without markers, and a dictionary within the reader's window. */
  ghost predicate GoodOptions(opts: Appearance) {
    Quiet(opts) && |opts.name| + |opts.reason| + |opts.location| + |opts.date| + opts.reserved <= 100000
  }

  /** `field` is an unsigned signature field of the document. */
  ghost predicate Target(buf: string, doc: Index, field: Object) {
    && Indexed(doc, field.num) && ReadObject(buf, doc.offsets, field.num) == Ok(field)
    && SigField(field.body) && !AlreadySigned(field.body)
  }

  ghost predicate Ready(buf: string, doc: Index, field: Object, opts: Appearance) {
    Signable(buf, doc) && GoodOptions(opts) && Target(buf, doc, field)
  }

  lemma TargetExtendable(buf: string, doc: Index, field: Object)
    requires Signable(buf, doc) && Target(buf, doc, field)
    ensures Extendable(field) && field.num < doc.size && StartXref(buf).Ok?
  {
    hide AlreadySigned, SigField, ReadObject, Chain, StartXref, Extendable, SmallHead, IndexOfSections;
    ParsedOffsets(buf, doc);
  }

  // ---- The prepared and the signed file -----------------------------------------------------------

  function Before(buf: string, doc: Index, field: Object, opts: Appearance): string {
    buf + Mid(field, doc.size, opts)
  }

  function RangeOf(buf: string, doc: Index, field: Object, opts: Appearance): ByteRange
    requires StartXref(buf).Ok?
  {
    NewRange(Before(buf, doc, field, opts), 2 * opts.reserved, Post(buf, doc, field, opts))
  }

  function Signing(field: Object, doc: Index, opts: Appearance, r: ByteRange, hex: string): seq<Revision> {
    Pair(field, doc.size, opts, FilledRange(r), hex)
  }

  lemma MidQuiet(field: Object, n: nat, opts: Appearance)
    requires IsDict(field.body) && Absent(BYTE_RANGE, field.body) && Quiet(opts)
    ensures Absent(BYTE_RANGE, Mid(field, n, opts))
  {
    hide *;
    var w := Widget(field.body, n);
    WidgetLacks(field.body, n, BYTE_RANGE);
    WidgetStarts(field.body, n);
    HeadQuiet(BYTE_RANGE, opts) by { KeywordMarks(); }
    HeadStarts(opts);
    var front := "\n" + Dec(field.num) + " " + Dec(field.gen) + " obj\n";
    var between := "\nendobj\n" + SigHeader(n);
    NoSlash(field, n);
    KeywordFacts();
    LacksAbsent(BYTE_RANGE, front);
    LacksAbsent(BYTE_RANGE, between);
    SeamClear(front, w);
    AbsentConcat(BYTE_RANGE, front, w);
    SeamClear(front + w, between);
    AbsentConcat(BYTE_RANGE, front + w, between);
    SeamClear(front + w + between, SigHead(opts));
    AbsentConcat(BYTE_RANGE, front + w + between, SigHead(opts));
    MidForm(field, n, opts);
  }

  lemma KeywordMarks()
    ensures Marker(BYTE_RANGE)
  {
  }

  lemma SeamClear(a: string, b: string)
    requires b == "" || b[0] == '<' || b[0] == '\n'
    ensures StartsClear(BYTE_RANGE, b)
  {
  }

  lemma WidgetStarts(body: string, n: nat)
    requires IsDict(body)
    ensures Widget(body, n) != "" && Widget(body, n)[0] == '<'
  {
    hide Widget, Includes;
    WidgetShape(body, n);
    AtFirst(Widget(body, n), 0, "<<");
  }

  lemma HeadStarts(opts: Appearance)
    ensures SigHead(opts) != "" && SigHead(opts)[0] == '<'
  {
    hide Escape;
  }

  lemma NoSlash(field: Object, n: nat)
    ensures Lacks("\n" + Dec(field.num) + " " + Dec(field.gen) + " obj\n", '/')
    ensures Lacks("\nendobj\n" + SigHeader(n), '/') && "\nendobj\n" + SigHeader(n) != ""
    ensures ("\nendobj\n" + SigHeader(n))[0] == '\n'
  {
    var (a, b, c, d) := (Dec(field.num), Dec(field.gen), Dec(n), Dec(0));
    hide Dec;
    assert Lacks(a, '/') && Lacks(b, '/') && Lacks(c, '/') && Lacks(d, '/');
  }

  lemma MidForm(field: Object, n: nat, opts: Appearance)
    ensures Mid(field, n, opts) ==
      ("\n" + Dec(field.num) + " " + Dec(field.gen) + " obj\n") + Widget(field.body, n) +
      ("\nendobj\n" + SigHeader(n)) + SigHead(opts)
  {
    hide Dec, Widget, SigHeader, SigHead;
  }

  lemma ReadNumber(buf: string, offsets: Table, num: nat)
    requires ReadObject(buf, offsets, num).Ok?
    ensures ReadObject(buf, offsets, num).value.num == num && Lookup(offsets, num).Some?
  {
    hide ObjectHeaderAt, IndexOf, Trim;
  }

  lemma FieldIsSigField(body: string, name: string)
    requires IsField(body, name)
    ensures SigField(body)
  {
    hide IndexOf;
    IncludesIff(body, TITLE);
    var i := IndexOf(body, "/T (" + name + ")", 0);
    assert "/T (" + name + ")" == TITLE + (name + ")");
    AtConcat(body, i, TITLE, name + ")");
  }

  lemma ReserveReads(buf: string, doc: Index, field: Object, opts: Appearance)
    requires Ready(buf, doc, field, opts) && FieldFrom(buf, doc.offsets, 0, opts.fieldName) == Ok(field)
    ensures StartXref(buf).Ok?
    ensures Reserve(buf, doc, opts) ==
      Ok(Revised(buf, doc, Pair(field, doc.size, opts, PLACEHOLDER, Zeros(2 * opts.reserved))))
  {
    hide FieldFrom, StartXref, Signable, GoodOptions, SortByNum, RevisionText, AlreadySigned, SigDict, PLACEHOLDER,
      ReadObject, Indexed, IndexOf, LastIndexOf;
    TargetExtendable(buf, doc, field);
    PairSorted(field, doc.size, opts, PLACEHOLDER, Zeros(2 * opts.reserved));
    var a, gap, b := WidgetForm(field.body, doc.size);
  }

  /** Preparing a slot on an unsigned field succeeds exactly when the file stays below 10^10 bytes on either side of the
      gap. */
  lemma PrepareReads(buf: string, doc: Index, field: Object, opts: Appearance)
    requires Ready(buf, doc, field, opts) && FieldFrom(buf, doc.offsets, 0, opts.fieldName) == Ok(field)
    ensures StartXref(buf).Ok?
    ensures var (pre, post, r) := (Before(buf, doc, field, opts), Post(buf, doc, field, opts),
                                   RangeOf(buf, doc, field, opts));
      var file := PreparedFile(pre, 2 * opts.reserved, post);
      Prepare(buf, opts) ==
        if Writable(r) then Ok(PreparedSlot(file, r, GapStart(pre), 2 * opts.reserved, Covered(file, r), doc.size))
        else Err("ByteRange patch would change file length")
  {
    hide FieldFrom, StartXref, Mid, Post, Reserve, Patch, Revised, File, Covered, Pair, Writable, PreparedFile,
      NewRange, Chain, IndexOfSections, PLACEHOLDER, ReadObject, Absent, AlreadySigned, SigField, IsDict;
    TargetExtendable(buf, doc, field);
    ReserveReads(buf, doc, field, opts);
    PlaceholderLength();
    Layout(buf, doc, field, opts, PLACEHOLDER, Zeros(2 * opts.reserved));
    MidQuiet(field, doc.size, opts);
    PatchReads(buf, Mid(field, doc.size, opts), 2 * opts.reserved, Post(buf, doc, field, opts), doc.size);
    assert Parse(buf) == Ok(doc);
  }

  lemma FilledRangeLength(r: ByteRange)
    requires Writable(r)
    ensures Numerals(Pad(r.b1, 10), Pad(r.b2, 10), Pad(r.b3, 10))
    ensures |FilledRange(r)| == 36 && RangeChars(FilledRange(r))
    ensures ParseNat(Pad(r.b1, 10)) == r.b1 && ParseNat(Pad(r.b2, 10)) == r.b2 && ParseNat(Pad(r.b3, 10)) == r.b3
  {
    hide Pad, Pow10;
    FilledWidth(r);
    ParsePad(r.b1, 10);
    ParsePad(r.b2, 10);
    ParsePad(r.b3, 10);
  }

  /** The prepared file is a revision with an empty gap. */
  lemma PreparedIs(buf: string, doc: Index, field: Object, opts: Appearance)
    requires StartXref(buf).Ok? && Writable(RangeOf(buf, doc, field, opts))
    ensures PreparedFile(Before(buf, doc, field, opts), 2 * opts.reserved, Post(buf, doc, field, opts)) ==
      Revised(buf, doc, Signing(field, doc, opts, RangeOf(buf, doc, field, opts), Zeros(2 * opts.reserved)))
  {
    hide StartXref, Mid, Post, Revised, File, Pair, Writable, FilledRange, Pow10, Pad, NewRange;
    FilledRangeLength(RangeOf(buf, doc, field, opts));
    Layout(buf, doc, field, opts, FilledRange(RangeOf(buf, doc, field, opts)), Zeros(2 * opts.reserved));
  }

  /** Filling the gap gives the same revision with the signature in it; it succeeds exactly when the signature fits. */
  lemma EmbedIs(buf: string, doc: Index, field: Object, opts: Appearance, slot: PreparedSlot, der: seq<byte>)
    requires StartXref(buf).Ok? && Writable(RangeOf(buf, doc, field, opts))
    requires slot.buffer == PreparedFile(Before(buf, doc, field, opts), 2 * opts.reserved, Post(buf, doc, field, opts))
    requires slot.gapStart == GapStart(Before(buf, doc, field, opts)) && slot.hexLength == 2 * opts.reserved
    ensures Embed(slot, der) ==
      if |der| <= opts.reserved
      then Ok(Revised(buf, doc, Signing(field, doc, opts, RangeOf(buf, doc, field, opts),
                                        Filling(der, 2 * opts.reserved))))
      else Err("signature does not fit the reserved gap")
  {
    hide StartXref, Mid, Post, Revised, File, Pair, Writable, FilledRange, Pow10, Pad, NewRange, Embed, ToHex, GapStart,
      Before;
    var r := RangeOf(buf, doc, field, opts);
    var n := 2 * opts.reserved;
    FilledRangeLength(r);
    EmbedReads(Before(buf, doc, field, opts), FilledRange(r), n, Post(buf, doc, field, opts), slot, der);
    if |der| <= opts.reserved {
      FillingClear(der, n);
      Layout(buf, doc, field, opts, FilledRange(r), Filling(der, n));
      assert Before(buf, doc, field, opts) == buf + Mid(field, doc.size, opts) by { BeforeIs(buf, doc, field, opts); }
    }
  }

  lemma BeforeIs(buf: string, doc: Index, field: Object, opts: Appearance)
    ensures Before(buf, doc, field, opts) == buf + Mid(field, doc.size, opts)
  {
  }

  // ---- The longer file can be read and signed again -----------------------------------------------

  /** The signing revision with any range text and gap of the right widths. */
  ghost predicate Widths(opts: Appearance, range: string, hex: string) {
    |range| == 36 && RangeChars(range) && |hex| == 2 * opts.reserved && AllHex(hex)
  }

  lemma FileLength(buf: string, doc: Index, field: Object, opts: Appearance, range: string, hex: string)
    requires StartXref(buf).Ok? && |range| == 36 && |hex| == 2 * opts.reserved
    ensures var r := RangeOf(buf, doc, field, opts);
      && |Revised(buf, doc, Pair(field, doc.size, opts, range, hex))| == r.b2 + r.b3
      && |buf| < r.b1 && r.b1 < r.b2
  {
    hide StartXref, Mid, Post, Revised, Pair, RangeKey, GapText;
    Layout(buf, doc, field, opts, range, hex);
    var pre := Before(buf, doc, field, opts);
    FileAround(pre, range, hex, Post(buf, doc, field, opts));
  }

  lemma NumeralWidths(n: nat)
    requires n < 2 * Pow10(10)
    ensures |Dec(n)| <= 11 && (n < Pow10(10) ==> |Dec(n)| <= 10)
  {
    hide Dec;
    assert Pow10(11) == 10 * Pow10(10);
    DecWidth(n, 11);
    DecWidth(n, 10);
  }

  lemma PairBounds(buf: string, doc: Index, field: Object, opts: Appearance, range: string, hex: string)
    requires StartXref(buf).Ok? && |range| == 36 && |hex| == 2 * opts.reserved
    requires Writable(RangeOf(buf, doc, field, opts))
    requires field.num < doc.size
    ensures var objs := Pair(field, doc.size, opts, range, hex);
      && |buf| + 1 + |ObjectText(objs[0])| < Pow10(10)
      && |buf| + 1 + |ObjectsText(objs)| < 2 * Pow10(10)
      && |ObjectsText(objs)| == |ObjectText(objs[0])| + |ObjectText(objs[1])|
      && |buf| < Pow10(10)
  {
    hide StartXref, Revised, ObjectText, SectionText, Pow10, SigHead, Dec, Widget, SigDict, ObjectsText, Footer,
      RangeOf;
    var objs := Pair(field, doc.size, opts, range, hex);
    FileLength(buf, doc, field, opts, range, hex);
    PairText(objs[0], objs[1]);
    assert objs == [objs[0], objs[1]];
    RevisedForm(buf, doc, objs);
    GapAfter(buf, doc, field, opts);
  }

  lemma GapAfter(buf: string, doc: Index, field: Object, opts: Appearance)
    requires StartXref(buf).Ok?
    ensures var o := Revision(field.num, field.gen, Widget(field.body, doc.size));
      RangeOf(buf, doc, field, opts).b1 > |buf| + 1 + |ObjectText(o)|
  {
    hide ObjectText, Widget, SigHead, SigHeader;
  }

  /** When the range fits its columns, so does every entry, and the section fits the reader's window. */
  lemma RevisionAppendable(buf: string, doc: Index, field: Object, opts: Appearance, range: string, hex: string)
    requires Ready(buf, doc, field, opts) && |range| == 36 && |hex| == 2 * opts.reserved
    requires StartXref(buf).Ok? && Writable(RangeOf(buf, doc, field, opts))
    ensures Appendable(buf, doc, Pair(field, doc.size, opts, range, hex))
  {
    hide StartXref, ObjectText, SectionText, Pow10, SigDict, ObjectsText, Footer, RangeOf, Signable, GoodOptions,
      Target, Extendable, Widget, Writable;
    var objs := Pair(field, doc.size, opts, range, hex);
    TargetExtendable(buf, doc, field);
    assert Ready(buf, doc, field, opts);
    ReadyParts(buf, doc, field, opts);
    PairSorted(field, doc.size, opts, range, hex);
    PairBounds(buf, doc, field, opts, range, hex);
    PairFits(buf, field, doc.size, opts, range, hex);
    assert |Footer(XrefOffset(buf, objs))| <= TAIL by { FooterWidth(XrefOffset(buf, objs)); }
    assert SmallHead(buf, doc) by { SignableSmall(buf, doc); }
    ChainStartBelow(buf, doc);
    SectionWidth(buf, doc, field, opts, range, hex, StartXref(buf).value);
  }

  lemma SignableSmall(buf: string, doc: Index)
    requires Signable(buf, doc)
    ensures SmallHead(buf, doc)
  {
  }

  /** A document that parses starts its chain inside the file. */
  lemma ChainStartBelow(buf: string, doc: Index)
    requires Signable(buf, doc) && StartXref(buf).Ok?
    ensures StartXref(buf).value < |buf|
  {
    hide StartXref, SectionAt, IndexOfSections, FieldsExtendable, Readable, SmallHead, ProperChain;
    assert Chain(buf, StartXref(buf).value, {}).Ok?;
  }

  lemma PairFits(buf: string, field: Object, n: nat, opts: Appearance, range: string, hex: string)
    requires field.num < n && field.gen < Pow10(5)
    requires |buf| + 1 + |ObjectText(Pair(field, n, opts, range, hex)[0])| < Pow10(10) && |buf| + 1 < Pow10(10)
    ensures Fits(Pair(field, n, opts, range, hex), OffsetsOf(Pair(field, n, opts, range, hex), |buf| + 1))
  {
    hide ObjectText, Pow10, OffsetsOf, SigDict, Widget;
    var objs := Pair(field, n, opts, range, hex);
    PairOffsets(objs[0], objs[1], |buf| + 1);
    assert objs == [objs[0], objs[1]];
  }

  lemma FooterWidth(x: nat)
    requires x < 2 * Pow10(10)
    ensures |Footer(x)| <= 28
  {
    hide Pow10, Dec;
    NumeralWidths(x);
  }

  lemma SectionWidth(buf: string, doc: Index, field: Object, opts: Appearance, range: string, hex: string, prev: nat)
    requires SmallHead(buf, doc) && field.num < doc.size && |buf| < Pow10(10) && prev < |buf| && field.gen < Pow10(5)
    requires |buf| + 1 + |ObjectText(Pair(field, doc.size, opts, range, hex)[0])| < Pow10(10)
    requires |buf| + 1 + |ObjectsText(Pair(field, doc.size, opts, range, hex))| < 2 * Pow10(10)
    ensures |SectionText(doc, Pair(field, doc.size, opts, range, hex), |buf|, prev)| <= SECTION_WINDOW
  {
    hide ObjectText, Pow10, OffsetsOf, SigDict, Widget, ObjectsText, XrefLine, XREF_HEAD, IdPart, Dec, Footer,
      TrailerDict;
    var objs := Pair(field, doc.size, opts, range, hex);
    var at := |buf| + 1;
    PairOffsets(objs[0], objs[1], at);
    assert objs == [objs[0], objs[1]];
    PairLines(objs[0], objs[1], OffsetsOf(objs, at));
    XrefLineWidth(field.num, at, field.gen);
    XrefLineWidth(doc.size, at + |ObjectText(objs[0])|, 0);
    NumeralWidths(field.num);
    NumeralWidths(doc.size);
    FooterWidth(at + |ObjectsText(objs)|);
    TrailerWidth(doc, doc.size + 1, prev);
    assert |XREF_HEAD| == 29 by { HeadWidth(); }
    assert NewSize(doc, objs) == doc.size + 1;
  }

  lemma HeadWidth()
    ensures |XREF_HEAD| == 29
  {
  }

  lemma TrailerWidth(doc: Index, size: nat, prev: nat)
    requires size < 2 * Pow10(10) && prev < Pow10(10) && doc.root.num < Pow10(10) && doc.root.gen < Pow10(10)
    requires |IdPart(doc.trailer)| <= 1000
    ensures |TrailerDict(size, doc.root, IdPart(doc.trailer), prev)| <= 1100
  {
    hide Dec, Pow10, IdPart;
    NumeralWidths(size);
    NumeralWidths(prev);
    NumeralWidths(doc.root.num);
    NumeralWidths(doc.root.gen);
  }

  // ---- Its objects --------------------------------------------------------------------------------

  function NewDoc(buf: string, doc: Index, field: Object, opts: Appearance, range: string, hex: string): Index
    requires StartXref(buf).Ok?
  {
    RevisedIndex(buf, doc, Pair(field, doc.size, opts, range, hex))
  }

  /** The document with one signing revision more. */
  function NewFile(buf: string, doc: Index, field: Object, opts: Appearance, range: string, hex: string): string
    requires StartXref(buf).Ok?
  {
    Revised(buf, doc, Pair(field, doc.size, opts, range, hex))
  }

  ghost predicate Fresh(buf: string, doc: Index, field: Object, opts: Appearance, range: string, hex: string) {
    && Ready(buf, doc, field, opts) && Widths(opts, range, hex)
    && StartXref(buf).Ok? && Writable(RangeOf(buf, doc, field, opts))
  }

  lemma {:induction false} EscapeWidth(s: string)
    ensures |Escape(s)| <= 2 * |s|
  {
    if s != "" {
      EscapeWidth(s[..|s| - 1]);
    }
  }

  lemma DictWidth(opts: Appearance, range: string, hex: string)
    requires GoodOptions(opts) && Widths(opts, range, hex)
    ensures |SigDict(opts, range, hex)| <= 300000
  {
    hide Escape, Quiet;
    EscapeWidth(opts.name);
    EscapeWidth(opts.reason);
    EscapeWidth(opts.location);
    DictLength(opts, range, hex);
  }

  lemma DictTrimmed(opts: Appearance, range: string, hex: string)
    ensures Trimmed(SigDict(opts, range, hex))
  {
    hide Escape, SIG_FILTER, SIG_SUBFILTER;
    HeadStarts(opts);
  }

  /** The widget and the signature dictionary read back as written. */
  lemma NewObjects(buf: string, doc: Index, field: Object, opts: Appearance, range: string, hex: string)
    requires Fresh(buf, doc, field, opts, range, hex)
    ensures var (out, grown) := (NewFile(buf, doc, field, opts, range, hex), NewDoc(buf, doc, field, opts, range, hex));
      && ReadObject(out, grown.offsets, field.num) == Ok(Object(field.num, field.gen, Widget(field.body, doc.size)))
      && ReadObject(out, grown.offsets, doc.size) == Ok(Object(doc.size, 0, SigDict(opts, range, hex)))
  {
    hide *;
    FreshParts(buf, doc, field, opts, range, hex);
    var objs := Pair(field, doc.size, opts, range, hex);
    RevisionAppendable(buf, doc, field, opts, range, hex);
    ReadyParts(buf, doc, field, opts);
    PairParts(field, doc.size, opts, range, hex);
    NewFileIs(buf, doc, field, opts, range, hex);
    WidgetFits(buf, doc, field, opts);
    SizeBelow(buf, doc, field, opts);
    DictFits(buf, doc, opts, range, hex);
    WidgetLacks(field.body, doc.size, "endobj");
    WidgetShape(field.body, doc.size);
    TrimLines(Widget(field.body, doc.size));
    NewObjectReads(buf, doc, objs, 0);
    DictQuiet("endobj", opts, range, hex);
    Lines("endobj", SigDict(opts, range, hex));
    DictTrimmed(opts, range, hex);
    TrimLines(SigDict(opts, range, hex));
    NewObjectReads(buf, doc, objs, 1);
  }

  lemma FreshParts(buf: string, doc: Index, field: Object, opts: Appearance, range: string, hex: string)
    requires Fresh(buf, doc, field, opts, range, hex)
    ensures Ready(buf, doc, field, opts) && Widths(opts, range, hex) && StartXref(buf).Ok?
    ensures Writable(RangeOf(buf, doc, field, opts))
    ensures |range| == 36 && |hex| == 2 * opts.reserved && RangeChars(range) && AllHex(hex)
  {
    hide Ready, StartXref, RangeOf;
  }

  lemma PairParts(field: Object, n: nat, opts: Appearance, range: string, hex: string)
    ensures var objs := Pair(field, n, opts, range, hex);
      && |objs| == 2 && objs[0] == Revision(field.num, field.gen, Widget(field.body, n))
      && objs[1] == Revision(n, 0, SigDict(opts, range, hex))
  {
    hide Widget, SigDict;
  }

  lemma NewFileIs(buf: string, doc: Index, field: Object, opts: Appearance, range: string, hex: string)
    requires StartXref(buf).Ok?
    ensures |Pair(field, doc.size, opts, range, hex)| == 2
    ensures NewFile(buf, doc, field, opts, range, hex) == Revised(buf, doc, Pair(field, doc.size, opts, range, hex))
    ensures NewDoc(buf, doc, field, opts, range, hex) == RevisedIndex(buf, doc, Pair(field, doc.size, opts, range, hex))
    ensures NewDoc(buf, doc, field, opts, range, hex).size == doc.size + 1
    ensures NewDoc(buf, doc, field, opts, range, hex).root == doc.root
  {
    hide StartXref, Widget, SigDict, RevisedIndex, RevisionText;
    assert RevisedIndex(buf, doc, Pair(field, doc.size, opts, range, hex)).size == doc.size + 1
      && RevisedIndex(buf, doc, Pair(field, doc.size, opts, range, hex)).root == doc.root
    by { RevisedSize(buf, doc, field, opts, range, hex); }
  }

  lemma RevisedSize(buf: string, doc: Index, field: Object, opts: Appearance, range: string, hex: string)
    requires StartXref(buf).Ok?
    ensures |Pair(field, doc.size, opts, range, hex)| == 2
    ensures RevisedIndex(buf, doc, Pair(field, doc.size, opts, range, hex)).size == doc.size + 1
    ensures RevisedIndex(buf, doc, Pair(field, doc.size, opts, range, hex)).root == doc.root
  {
    hide StartXref, Widget, SigDict, NewSection, AddMissing, NewTrailer;
  }

  lemma ReadyParts(buf: string, doc: Index, field: Object, opts: Appearance)
    requires Ready(buf, doc, field, opts)
    ensures Quiet(opts) && GoodOptions(opts) && Signable(buf, doc) && WellFormed(buf, doc) && Target(buf, doc, field)
    ensures IsDict(field.body) && |field.body| <= FIELD_LIMIT && field.gen < Pow10(5) && Absent(BYTE_RANGE, field.body)
    ensures Absent("endobj", field.body) && field.num < doc.size
  {
    hide WellFormed, SmallHead, Readable, FieldsExtendable, IsDict, Absent, Quiet, Pow10, ParseObject, AlreadySigned,
      SigField;
    TargetExtendable(buf, doc, field);
    BodyShape(Window(buf, Lookup(doc.offsets, field.num).value, OBJECT_WINDOW), field.num);
  }

  lemma WidgetFits(buf: string, doc: Index, field: Object, opts: Appearance)
    requires Ready(buf, doc, field, opts) && StartXref(buf).Ok? && Writable(RangeOf(buf, doc, field, opts))
    ensures |ObjectText(Revision(field.num, field.gen, Widget(field.body, doc.size)))| <= OBJECT_WINDOW
  {
    hide *;
    ReadyParts(buf, doc, field, opts);
    SizeBelow(buf, doc, field, opts);
    WidgetShape(field.body, doc.size);
    NumeralWidths(doc.size);
    NumeralWidths(field.num);
    DecWidth(field.gen, 5);
    ObjectTextLength(Revision(field.num, field.gen, Widget(field.body, doc.size)));
    assert FIELD_LIMIT == 500000 && OBJECT_WINDOW == 524288 by { Limits(); }
  }

  lemma Limits()
    ensures FIELD_LIMIT == 500000 && OBJECT_WINDOW == 524288
  {
  }

  lemma ObjectTextLength(o: Revision)
    ensures |ObjectText(o)| == |Dec(o.num)| + |Dec(o.gen)| + |o.content| + 14
  {
    hide Dec;
  }

  lemma SizeBelow(buf: string, doc: Index, field: Object, opts: Appearance)
    requires Signable(buf, doc) && StartXref(buf).Ok? && Writable(RangeOf(buf, doc, field, opts))
    ensures doc.size <= |buf| < Pow10(10)
  {
    hide StartXref, Mid, Post, WellFormed, Readable, FieldsExtendable, Pow10;
  }

  lemma DictFits(buf: string, doc: Index, opts: Appearance, range: string, hex: string)
    requires GoodOptions(opts) && Widths(opts, range, hex) && doc.size < Pow10(10)
    ensures |ObjectText(Revision(doc.size, 0, SigDict(opts, range, hex)))| <= OBJECT_WINDOW
  {
    hide SigDict, GoodOptions, Widths, ObjectText, Pow10;
    DictWidth(opts, range, hex);
    NumeralWidths(doc.size);
    DecZero();
    ObjectTextLength(Revision(doc.size, 0, SigDict(opts, range, hex)));
  }

  /** Objects the revision does not replace stay as they were. */
  lemma OldObjects(buf: string, doc: Index, field: Object, opts: Appearance, range: string, hex: string, num: nat)
    requires Fresh(buf, doc, field, opts, range, hex) && num != field.num && num != doc.size
    ensures var (out, grown) := (NewFile(buf, doc, field, opts, range, hex), NewDoc(buf, doc, field, opts, range, hex));
      && (Indexed(grown, num) <==> Indexed(doc, num))
      && (Indexed(doc, num) ==>
          ReadObject(out, grown.offsets, num) == ReadObject(buf, doc.offsets, num) && Steady(out, grown.offsets, num))
  {
    hide *;
    FreshParts(buf, doc, field, opts, range, hex);
    ReadyParts(buf, doc, field, opts);
    RevisionAppendable(buf, doc, field, opts, range, hex);
    PairParts(field, doc.size, opts, range, hex);
    NewFileIs(buf, doc, field, opts, range, hex);
    OldObjectReads(buf, doc, Pair(field, doc.size, opts, range, hex), num);
    IndexedIs(doc, num);
    IndexedIs(NewDoc(buf, doc, field, opts, range, hex), num);
    SignableReads(buf, doc, num);
  }

  lemma IndexedIs(doc: Index, num: nat)
    ensures Indexed(doc, num) <==> Lookup(doc.offsets, num).Some?
  {
  }

  lemma SignableReads(buf: string, doc: Index, num: nat)
    requires Signable(buf, doc)
    ensures Indexed(doc, num) ==> num < doc.size && Steady(buf, doc.offsets, num)
  {
    hide WellFormed, FieldsExtendable, SmallHead, Steady, Indexed;
  }

  lemma NewKeys(buf: string, doc: Index, field: Object, opts: Appearance, range: string, hex: string)
    requires Fresh(buf, doc, field, opts, range, hex)
    ensures var grown := NewDoc(buf, doc, field, opts, range, hex);
      Indexed(grown, field.num) && Indexed(grown, doc.size)
  {
    hide *;
    FreshParts(buf, doc, field, opts, range, hex);
    NewObjects(buf, doc, field, opts, range, hex);
    ReadNumber(NewFile(buf, doc, field, opts, range, hex), NewDoc(buf, doc, field, opts, range, hex).offsets,
               field.num);
    ReadNumber(NewFile(buf, doc, field, opts, range, hex), NewDoc(buf, doc, field, opts, range, hex).offsets, doc.size);
    IndexedIs(NewDoc(buf, doc, field, opts, range, hex), field.num);
    IndexedIs(NewDoc(buf, doc, field, opts, range, hex), doc.size);
  }

  /** The body of the signature dictionary is not a field. */
  lemma DictNoField(opts: Appearance, range: string, hex: string)
    requires Quiet(opts) && RangeChars(range) && AllHex(hex)
    ensures !SigField(SigDict(opts, range, hex))
  {
    hide SigDict, Quiet, Absent, Includes;
    DictQuiet(TITLE, opts, range, hex);
    IncludesIff(SigDict(opts, range, hex), TITLE);
  }

  lemma ReadIsSteady(buf: string, offsets: Table, num: nat)
    requires ReadObject(buf, offsets, num).Ok?
    ensures Steady(buf, offsets, num)
  {
    hide ReadObject;
  }

  lemma NewReadable(buf: string, doc: Index, field: Object, opts: Appearance, range: string, hex: string, num: nat)
    requires Fresh(buf, doc, field, opts, range, hex)
    ensures var (out, grown) := (NewFile(buf, doc, field, opts, range, hex), NewDoc(buf, doc, field, opts, range, hex));
      Indexed(grown, num) ==> num < grown.size && Steady(out, grown.offsets, num)
  {
    hide *;
    FreshParts(buf, doc, field, opts, range, hex);
    ReadyParts(buf, doc, field, opts);
    NewFileIs(buf, doc, field, opts, range, hex);
    NewObjects(buf, doc, field, opts, range, hex);
    var (out, grown) := (NewFile(buf, doc, field, opts, range, hex), NewDoc(buf, doc, field, opts, range, hex));
    if num != field.num && num != doc.size {
      OldObjects(buf, doc, field, opts, range, hex, num);
      SignableReads(buf, doc, num);
    } else {
      ReadIsSteady(out, grown.offsets, num);
    }
  }

  lemma NewExtendable(buf: string, doc: Index, field: Object, opts: Appearance, range: string, hex: string, num: nat)
    requires Fresh(buf, doc, field, opts, range, hex)
    ensures var (out, grown) := (NewFile(buf, doc, field, opts, range, hex), NewDoc(buf, doc, field, opts, range, hex));
      Indexed(grown, num) && ReadObject(out, grown.offsets, num).Ok? ==>
        var o := ReadObject(out, grown.offsets, num).value;
        SigField(o.body) && !AlreadySigned(o.body) ==> Extendable(o)
  {
    hide *;
    FreshParts(buf, doc, field, opts, range, hex);
    ReadyParts(buf, doc, field, opts);
    NewObjects(buf, doc, field, opts, range, hex);
    if num == field.num {
      WidgetSigned(field.body, doc.size);
    } else if num == doc.size {
      DictNoField(opts, range, hex);
    } else {
      OldObjects(buf, doc, field, opts, range, hex, num);
      SignableExtends(buf, doc, num);
    }
  }

  lemma SignableExtends(buf: string, doc: Index, num: nat)
    requires Signable(buf, doc)
    ensures Indexed(doc, num) && ReadObject(buf, doc.offsets, num).Ok? ==>
      var o := ReadObject(buf, doc.offsets, num).value;
      SigField(o.body) && !AlreadySigned(o.body) ==> Extendable(o)
  {
    hide WellFormed, Readable, SmallHead, ReadObject, Indexed, SigField, AlreadySigned, Extendable;
  }

  /** One signing keeps a document signable. */
  lemma SigningKeepsSignable(buf: string, doc: Index, field: Object, opts: Appearance, range: string, hex: string)
    requires Fresh(buf, doc, field, opts, range, hex)
    ensures Signable(NewFile(buf, doc, field, opts, range, hex), NewDoc(buf, doc, field, opts, range, hex))
  {
    hide *;
    FreshParts(buf, doc, field, opts, range, hex);
    var (out, grown) := (NewFile(buf, doc, field, opts, range, hex), NewDoc(buf, doc, field, opts, range, hex));
    ReadyParts(buf, doc, field, opts);
    NewFileIs(buf, doc, field, opts, range, hex);
    RevisionAppendable(buf, doc, field, opts, range, hex);
    AppendThenParse(buf, doc, Pair(field, doc.size, opts, range, hex));
    forall num: nat
      ensures Indexed(grown, num) ==> num < grown.size && Steady(out, grown.offsets, num)
    {
      NewReadable(buf, doc, field, opts, range, hex, num);
    }
    ReadableIs(out, grown);
    forall num: nat
      ensures Indexed(grown, num) && ReadObject(out, grown.offsets, num).Ok? ==>
        var o := ReadObject(out, grown.offsets, num).value;
        SigField(o.body) && !AlreadySigned(o.body) ==> Extendable(o)
    {
      NewExtendable(buf, doc, field, opts, range, hex, num);
    }
    ExtendableIs(out, grown);
    FileLength(buf, doc, field, opts, range, hex);
    SmallKept(buf, doc, out, grown);
    SignableIs(out, grown);
  }

  lemma ReadableIs(buf: string, doc: Index)
    requires forall num: nat :: Indexed(doc, num) ==> num < doc.size && Steady(buf, doc.offsets, num)
    ensures Readable(buf, doc)
  {
  }

  lemma ExtendableIs(buf: string, doc: Index)
    requires forall num: nat :: Indexed(doc, num) && ReadObject(buf, doc.offsets, num).Ok? ==>
      var o := ReadObject(buf, doc.offsets, num).value;
      SigField(o.body) && !AlreadySigned(o.body) ==> Extendable(o)
    ensures FieldsExtendable(buf, doc)
  {
  }

  lemma SmallKept(buf: string, doc: Index, out: string, grown: Index)
    requires Signable(buf, doc) && |out| > |buf| && grown.size == doc.size + 1 && grown.root == doc.root
    requires IdPart(grown.trailer) == IdPart(doc.trailer)
    ensures SmallHead(out, grown)
  {
    hide WellFormed, Readable, FieldsExtendable, IdPart, Pow10;
  }

  lemma SignableIs(buf: string, doc: Index)
    requires WellFormed(buf, doc) && Readable(buf, doc) && FieldsExtendable(buf, doc) && SmallHead(buf, doc)
    ensures Signable(buf, doc)
  {
  }
}
