/** The hypotheses can be met: a small prepared document is a baseline, and every request on a file below 10^9 bytes
    gets its slot. */
module SampleDocument {
  import opened Text
  import opened PdfObjects
  import opened IncrementalSigner
  import opened Stability
  import opened RevisionProofs
  import opened AppendProofs
  import opened SlotProofs
  import opened SigningProofs
  import opened QuietProofs
  import opened FieldProofs
  import opened SigningLayout
  import opened SigningTheorems
  import opened Preservation
  import Protocol
  import opened Executions

  // ---- A document without a predecessor -----------------------------------------------------------

  function FieldBody(name: string): string {
    "<< " + (SIG_FIELD + (" " + (("/T (" + name + ")") + " >>")))
  }

  function FieldRevision(k: nat): Revision
    requires k < 3
  {
    Revision(k + 1, 0, FieldBody(Protocol.FieldName(Protocol.ORDER[k])))
  }

  const FIELDS: seq<Revision> := [FieldRevision(0), FieldRevision(1), FieldRevision(2)]

  const INSIDE := " /Size 4 /Root 1 0 R "
  const DICT := "<<" + (INSIDE + ">>")

  const XREF_AT: nat := 1 + |ObjectsText(FIELDS)|

  const LINES := XrefLines(FIELDS, OffsetsOf(FIELDS, 1))

  const SECTION := XREF_HEAD + LINES + (("trailer\n" + DICT) + ("\n" + Footer(XREF_AT)))

  /** Three signature fields, one cross-reference section, a trailer without /Prev. */
  const SAMPLE := "\n" + ObjectsText(FIELDS) + SECTION

  lemma {:induction false} NoKeyNumber(s: string, p: nat, key: string)
    requires p <= |s| && Absent(key, s)
    ensures FirstKeyNumber(s, p, key) == None
    decreases |s| - p
  {
    assert !At(s, p, key);
    if p < |s| {
      NoKeyNumber(s, p + 1, key);
    }
  }

  lemma {:induction false} NoKeyReference(s: string, p: nat, key: string)
    requires p <= |s| && Absent(key, s)
    ensures FirstKeyReference(s, p, key) == None
    decreases |s| - p
  {
    hide SpacedNumberAt;
    assert !At(s, p, key);
    if p < |s| {
      NoKeyReference(s, p + 1, key);
    }
  }

  lemma DictParts()
    ensures DICT == "<< " + ("/Size" + (" " + ("4" + " /Root 1 0 R >>")))
    ensures DICT == "<< /Size 4 " + ("/Root" + (" " + ("1" + (" " + ("0" + (" R" + " >>"))))))
    ensures Lacks(DICT, 'P') && Lacks(DICT, 'B') && Lacks(DICT, 'C') && Lacks(DICT, 'I') && At(DICT, 0, "<<")
    ensures |DICT| == 25
    ensures INSIDE != "" && NoPairs(INSIDE) && INSIDE[0] != '<' && INSIDE[|INSIDE| - 1] != '>'
    ensures Lacks("<< ", '/') && Lacks("<< /Size 4 ", 'R')
  {
    hide *;
    DictLiteral();
    DictFirst();
    DictSecond();
    DictLacks('P');
    DictLacks('B');
    DictLacks('C');
    DictLacks('I');
    DictOpens();
    InsideShape();
    FrontLacks();
  }

  lemma FrontLacks()
    ensures Lacks("<< ", '/') && Lacks("<< /Size 4 ", 'R')
  {
  }

  lemma DictLacks(c: char)
    requires c == 'P' || c == 'B' || c == 'C' || c == 'I'
    ensures Lacks("<< /Size 4 /Root 1 0 R >>", c)
  {
  }

  lemma DictOpens()
    ensures At("<< /Size 4 /Root 1 0 R >>", 0, "<<") && |"<< /Size 4 /Root 1 0 R >>"| == 25
  {
    assert "<< /Size 4 /Root 1 0 R >>"[0..2] == "<<";
  }

  lemma InsideShape()
    ensures INSIDE != "" && NoPairs(INSIDE) && INSIDE[0] != '<' && INSIDE[|INSIDE| - 1] != '>'
  {
  }

  lemma DictLiteral()
    ensures DICT == "<< /Size 4 /Root 1 0 R >>"
  {
  }

  lemma DictFirst()
    ensures "<< /Size 4 /Root 1 0 R >>" == "<< " + ("/Size" + (" " + ("4" + " /Root 1 0 R >>")))
  {
  }

  lemma DictSecond()
    ensures "<< /Size 4 /Root 1 0 R >>" == "<< /Size 4 " + ("/Root" + (" " + ("1" + (" " + ("0" + (" R" + " >>"))))))
  {
  }

  lemma Numerals4()
    ensures AllDigits("4") && AllDigits("1") && AllDigits("0") && ParseNat("4") == 4 && ParseNat("1") == 1
    ensures ParseNat("0") == 0
  {
    assert "4"[..0] == "" && "1"[..0] == "" && "0"[..0] == "";
  }

  /** What the parser takes from the trailer. */
  lemma DictReads4()
    ensures FirstKeyNumber(DICT, 0, "/Size").Some? && FirstKeyNumber(DICT, 0, "/Size").value.value == 4
    ensures FirstKeyReference(DICT, 0, "/Root").Some? && FirstKeyReference(DICT, 0, "/Root").value.num == 1
      && FirstKeyReference(DICT, 0, "/Root").value.gen == 0
    ensures PrevOf(DICT) == None && FirstId(DICT, 0) == None && Proper(DICT)
  {
    hide FirstKeyNumber, FirstKeyReference, FirstId, DICT, INSIDE, ParseNat, Absent;
    DictParts();
    Numerals4();
    LacksAbsent("/Size", "<< ");
    KeyNumberFirst("<< ", "/Size", "4", " /Root 1 0 R >>");
    LacksOne("/Root", 1, "<< /Size 4 ");
    KeyReferenceFirst("<< /Size 4 ", "/Root", "1", "0", " >>");
    LacksOne("/Prev", 1, DICT);
    NoKeyNumber(DICT, 0, "/Prev");
    LacksOne("/ID", 1, DICT);
    NoId(DICT);
  }

  lemma SampleAscending()
    ensures Ascending(FIELDS) && SmallGenerations(FIELDS) && |FIELDS| == 3
    ensures forall i :: 0 <= i < 3 ==> FIELDS[i].num == i + 1 && FIELDS[i].gen == 0 && FIELDS[i] == FieldRevision(i)
  {
    hide FieldBody;
    assert Pow10(5) >= 1;
  }

  lemma FieldNames(k: nat)
    requires k < 3
    ensures var n := Protocol.FieldName(Protocol.ORDER[k]);
      && 8 <= |n| <= 14 && Lacks(n, '>') && Lacks(n, 'j') && Lacks(n, 'B') && Lacks(n, 'C') && Lacks(n, 'V')
      && (k == 0 ==> n[6] == 'A' && Lacks(n, 'M') && Lacks(n, 'm'))
      && (k == 1 ==> n[7] == 'm' && Lacks(n, 'A') && Lacks(n, 'M'))
      && (k == 2 ==> n[6] == 'M' && Lacks(n, 'A') && Lacks(n, 'm'))
  {
  }

  lemma FieldLength(k: nat)
    requires k < 3
    ensures |FieldRevision(k).content| <= 40
  {
    FieldNames(k);
  }

  lemma SampleWidths()
    ensures forall i :: 0 <= i < 3 ==> |ObjectText(FIELDS[i])| <= 100
    ensures |ObjectsText(FIELDS)| <= 300
  {
    hide ObjectText;
    SampleAscending();
    forall i | 0 <= i < 3
      ensures |ObjectText(FIELDS[i])| <= 100
    {
      FieldLength(i);
      ObjectTextLength(FIELDS[i]);
      DecWidth(FIELDS[i].num, 1);
      DecWidth(0, 1);
      assert Pow10(1) == 10 * Pow10(0);
    }
    var (a, b, c) := (FIELDS[0], FIELDS[1], FIELDS[2]);
    assert FIELDS == [a, b, c] && [a, b, c][1..] == [b, c] && [b, c][1..] == [c] && [c][1..] == [];
    assert ObjectsText([c]) == ObjectText(c) + "";
  }

  lemma TenBillion()
    ensures Pow10(9) == 1000000000 && Pow10(10) == 10000000000
  {
    assert Pow10(1) == 10 && Pow10(2) == 100 && Pow10(3) == 1000 && Pow10(4) == 10000 && Pow10(5) == 100000;
    assert Pow10(6) == 1000000 && Pow10(7) == 10000000 && Pow10(8) == 100000000;
  }

  lemma SampleFits()
    ensures Fits(FIELDS, OffsetsOf(FIELDS, 1))
  {
    hide ObjectsText, OffsetsOf, Pow10, FIELDS;
    SampleAscending();
    SampleWidths();
    TenBillion();
    OffsetsFit(FIELDS, 1);
  }

  /** Its one section: the three entries and the trailer. */
  lemma SampleSection()
    ensures ParseSection(SECTION) == Ok(Section(EntriesOf(FIELDS, OffsetsOf(FIELDS, 1)), DICT, None))
  {
    hide *;
    var t := EntriesOf(FIELDS, OffsetsOf(FIELDS, 1));
    var end := ("trailer\n" + DICT) + ("\n" + Footer(XREF_AT));
    var q := |XREF_HEAD| + |LINES|;
    SampleAscending();
    SampleFits();
    SectionIs();
    SectionPieces(SECTION, XREF_HEAD, LINES, end);
    XrefHeadReads(SECTION);
    XrefLinesRead(SECTION, |XREF_HEAD|, FIELDS, OffsetsOf(FIELDS, 1), []);
    assert [] + t == t;
    AtConcat(SECTION, q, "trailer\n" + DICT, "\n" + Footer(XREF_AT));
    AtConcat(SECTION, q, "trailer\n", DICT);
    StopsAtTrailer(SECTION, q, t);
    DictParts();
    DictIs();
    TrailerReads(SECTION, q, INSIDE);
    StartsWithXref(SECTION);
    DictReads4();
    SectionFrom(SECTION, t, q);
  }

  lemma SectionIs()
    ensures SECTION == XREF_HEAD + LINES + (("trailer\n" + DICT) + ("\n" + Footer(XREF_AT)))
    ensures LINES == XrefLines(FIELDS, OffsetsOf(FIELDS, 1)) && |XREF_HEAD| == 29
  {
    hide ObjectsText, OffsetsOf, XrefLines, Footer, DICT, FIELDS;
  }

  lemma SectionFrom(s: string, t: Table, q: nat)
    requires At(s, 0, "xref") && Subsections(s, 4, []) == Ok(Parsed(t, q)) && Trailer(s, q) == Ok(DICT)
    requires PrevOf(DICT) == None
    ensures ParseSection(s) == Ok(Section(t, DICT, None))
  {
    hide Subsections, Trailer, PrevOf, DICT;
  }

  lemma DictIs()
    ensures DICT == "<<" + (INSIDE + ">>")
  {
  }

  lemma SectionWidth4()
    ensures |SECTION| <= SECTION_WINDOW && |Footer(XREF_AT)| <= TAIL
  {
    hide ObjectsText, OffsetsOf, XrefLine, Footer, Pow10, FIELDS, DICT, INSIDE;
    SampleWidths();
    TenBillion();
    FooterWidth(XREF_AT);
    SampleAscending();
    SampleFits();
    var offsets := OffsetsOf(FIELDS, 1);
    LinesWidth(FIELDS, offsets);
    assert |XREF_HEAD| == 29 by { HeadWidth(); }
    DictParts();
  }

  lemma {:induction false} LinesWidth(objs: seq<Revision>, offsets: map<nat, nat>)
    requires Fits(objs, offsets) && (forall o :: o in objs ==> o.num in offsets)
    requires forall i :: 0 <= i < |objs| ==> objs[i].num < 10
    ensures |XrefLines(objs, offsets)| == 24 * |objs|
  {
    hide XrefLine, Pow10;
    if objs != [] {
      XrefLineWidth(objs[0].num, offsets[objs[0].num], objs[0].gen);
      assert |Dec(objs[0].num)| == 1;
      assert forall i :: 0 <= i < |objs[1..]| ==> objs[1..][i] == objs[i + 1];
      LinesWidth(objs[1..], offsets);
    }
  }

  lemma SampleStart()
    ensures StartXref(SAMPLE) == Ok(XREF_AT) && |SAMPLE| > XREF_AT && SAMPLE[XREF_AT..] == SECTION
  {
    hide StartXref, ObjectsText, Footer, LINES, XREF_HEAD, DICT;
    SectionWidth4();
    var front := "\n" + ObjectsText(FIELDS) + (XREF_HEAD + LINES + (("trailer\n" + DICT) + "\n"));
    assert SAMPLE == front + Footer(XREF_AT);
    StartXrefOfAppended(front, XREF_AT);
    assert SECTION != "" by { assert |Footer(XREF_AT)| > 0 by { FooterStarts(XREF_AT); } }
  }

  function SampleIndex(): Index {
    Index(EntriesOf(FIELDS, OffsetsOf(FIELDS, 1)), DICT, 4, Ref(1, 0))
  }

  lemma SampleParses()
    ensures WellFormed(SAMPLE, SampleIndex())
  {
    hide StartXref, ParseSection, SAMPLE, SECTION, FIELDS, OffsetsOf, EntriesOf, DICT, FirstKeyNumber,
      FirstKeyReference, DistinctKeys, Merge;
    SampleStart();
    SampleSection();
    SectionWidth4();
    assert Window(SAMPLE, XREF_AT, SECTION_WINDOW) == SECTION;
    var entries := EntriesOf(FIELDS, OffsetsOf(FIELDS, 1));
    var section := Section(entries, DICT, None);
    assert SectionAt(SAMPLE, XREF_AT) == Ok(section);
    assert Chain(SAMPLE, XREF_AT, {}) == Ok([section]);
    ParseIs(SAMPLE, XREF_AT, [section]);
    DictReads4();
    SampleAscending();
    EntriesDistinct(FIELDS, OffsetsOf(FIELDS, 1));
    MergeFrom(section, []);
    assert [section] + [] == [section];
    MergeNothing(entries);
  }

  lemma MergeNothing(t: Table)
    ensures Merge([]) == [] && AddMissing(t, []) == t
  {
  }

  /** Each field reads back as written. */
  lemma SampleReads(k: nat)
    requires k < 3
    ensures Lookup(SampleIndex().offsets, k + 1).Some?
    ensures ReadObject(SAMPLE, SampleIndex().offsets, k + 1) == Ok(Object(k + 1, 0, FIELDS[k].content))
  {
    hide ParseObject, SECTION, FIELDS, OffsetsOf, EntriesOf, ObjectsText, ObjectText, Lookup, Absent, Trim,
      DistinctKeys;
    SampleAscending();
    var offsets := OffsetsOf(FIELDS, 1);
    EntriesDistinct(FIELDS, offsets);
    LookupDistinct(SampleIndex().offsets, k);
    OffsetIs(FIELDS, 1, k);
    PlacedAt(FIELDS, k);
    SampleWidths();
    var p := |ObjectsText(FIELDS[..k])|;
    assert SAMPLE == "\n" + (ObjectsText(FIELDS) + SECTION);
    AtPrefix(ObjectsText(FIELDS), SECTION, p, ObjectText(FIELDS[k]));
    AtSuffix("\n", ObjectsText(FIELDS) + SECTION, p, ObjectText(FIELDS[k]));
    var rest := WindowAt(SAMPLE, 1 + p, ObjectText(FIELDS[k]));
    FieldQuiet(k);
    ObjectTextReads(FIELDS[k], rest);
    TrimLines(FIELDS[k].content);
  }

  lemma WindowAt(s: string, p: nat, x: string) returns (rest: string)
    requires At(s, p, x) && |x| <= OBJECT_WINDOW
    ensures Window(s, p, OBJECT_WINDOW) == x + rest
  {
    var w := Window(s, p, OBJECT_WINDOW);
    rest := w[|x|..];
    assert w[..|x|] == s[p..p + |x|];
  }

  lemma FieldQuiet(k: nat)
    requires k < 3
    ensures Absent("endobj", "\n" + FIELDS[k].content + "\n") && Trimmed(FIELDS[k].content)
  {
    hide Absent;
    FieldText(k);
    LacksOne("endobj", 5, FIELDS[k].content);
    Lines("endobj", FIELDS[k].content);
  }

  lemma BodyPlaces(name: string)
    ensures var s := FieldBody(name);
      && |s| == |name| + 20 && At(s, 0, "<<") && At(s, |s| - 2, ">>") && At(s, 3, SIG_FIELD)
      && At(s, 12, "/T (" + name + ")")
      && s[0] == '<' && s[|s| - 1] == '>'
  {
    var s := FieldBody(name);
    assert s[0..2] == "<<" && s[|s| - 2..|s|] == ">>";
    var title := "/T (" + name + ")";
    assert s == "<< " + (SIG_FIELD + (" " + (title + " >>")));
    assert s[3..11] == SIG_FIELD;
    assert s[12..12 + |title|] == title;
  }

  /** The fixed part of the body has none of the given letters. */
  lemma BodyLacks(name: string, c: char)
    requires Lacks(name, c) && (c == 'j' || c == 'B' || c == 'C' || c == 'V' || c == 'A' || c == 'M' || c == 'm')
    ensures Lacks(FieldBody(name), c)
  {
    assert Lacks("<< ", c) && Lacks(SIG_FIELD, c) && Lacks("/T (", c);
  }

  lemma FieldText(k: nat)
    requires k < 3
    ensures |FIELDS| == 3
    ensures var s := FIELDS[k].content;
      && Lacks(s, 'j') && Lacks(s, 'B') && Lacks(s, 'C') && Lacks(s, 'V') && Trimmed(s) && |s| <= 40
      && At(s, 0, "<<") && At(s, |s| - 2, ">>") && At(s, 3, SIG_FIELD)
  {
    hide FieldBody, At, Protocol.FieldName, FIELDS;
    SampleAscending();
    FieldNames(k);
    var n := Protocol.FieldName(Protocol.ORDER[k]);
    BodyPlaces(n);
    BodyLacks(n, 'j');
    BodyLacks(n, 'B');
    BodyLacks(n, 'C');
    BodyLacks(n, 'V');
  }

  lemma FieldShape(k: nat)
    requires k < 3
    ensures IsDict(FIELDS[k].content) && Absent(BYTE_RANGE, FIELDS[k].content) && !AlreadySigned(FIELDS[k].content)
      && Includes(FIELDS[k].content, SIG_FIELD)
  {
    hide Absent, IndexOf, FIELDS, FirstKeyReference;
    FieldText(k);
    var s := FIELDS[k].content;
    IncludesIff(s, ">>");
    IncludesIff(s, SIG_FIELD);
    LacksOne(BYTE_RANGE, 1, s);
    LacksOne("/V", 1, s);
    NoKeyReference(s, 0, "/V");
  }

  /** Each field has its own party's title and no other. */
  lemma FieldTitles(k: nat, j: nat)
    requires k < 3 && j < 3
    ensures Includes(FIELDS[k].content, "/T (" + Protocol.FieldName(Protocol.ORDER[j]) + ")") <==> k == j
    ensures Lacks(Protocol.FieldName(Protocol.ORDER[j]), '>')
  {
    hide Absent, IndexOf, FieldBody;
    TitleHere(k);
    FieldNames(j);
    var pat := "/T (" + Protocol.FieldName(Protocol.ORDER[j]) + ")";
    IncludesIff(FIELDS[k].content, pat);
    if k != j {
      TitleAbsent(k, j);
    }
  }

  lemma TitleHere(k: nat)
    requires k < 3
    ensures At(FIELDS[k].content, 12, "/T (" + Protocol.FieldName(Protocol.ORDER[k]) + ")")
  {
    hide FieldBody, At;
    BodyPlaces(Protocol.FieldName(Protocol.ORDER[k]));
  }

  lemma TitleAbsent(k: nat, j: nat)
    requires k < 3 && j < 3 && k != j
    ensures Absent("/T (" + Protocol.FieldName(Protocol.ORDER[j]) + ")", FIELDS[k].content)
  {
    hide FieldBody, Absent, Protocol.FieldName;
    var name := Protocol.FieldName(Protocol.ORDER[j]);
    var pat := "/T (" + name + ")";
    FieldNames(k);
    FieldNames(j);
    var at := if j == 1 then 7 else 6;
    assert pat[4 + at] == name[at];
    BodyLacks(Protocol.FieldName(Protocol.ORDER[k]), name[at]);
    LacksOne(pat, 4 + at, FIELDS[k].content);
  }

  lemma KeysOfSample(num: nat)
    ensures Indexed(SampleIndex(), num) <==> 1 <= num <= 3
  {
    hide FIELDS, OffsetsOf, DistinctKeys;
    SampleAscending();
    EntriesDistinct(FIELDS, OffsetsOf(FIELDS, 1));
    var t := SampleIndex().offsets;
    if 1 <= num <= 3 {
      assert t[num - 1].num == num;
    } else {
      AbsentKey(t, num);
    }
  }

  lemma SampleSignable()
    ensures Signable(SAMPLE, SampleIndex())
  {
    hide *;
    var doc := SampleIndex();
    SampleParses();
    forall num: nat
      ensures Indexed(doc, num) ==> num < doc.size && Steady(SAMPLE, doc.offsets, num)
      ensures Indexed(doc, num) && ReadObject(SAMPLE, doc.offsets, num).Ok? ==>
        var o := ReadObject(SAMPLE, doc.offsets, num).value;
        SigField(o.body) && !AlreadySigned(o.body) ==> Extendable(o)
    {
      SampleObject(num);
    }
    ReadableIs(SAMPLE, doc);
    ExtendableIs(SAMPLE, doc);
    SmallSample();
    SignableIs(SAMPLE, doc);
  }

  lemma SampleObject(num: nat)
    ensures var doc := SampleIndex();
      Indexed(doc, num) ==>
        (num < doc.size && ReadObject(SAMPLE, doc.offsets, num).Ok? && Steady(SAMPLE, doc.offsets, num)
         && Extendable(ReadObject(SAMPLE, doc.offsets, num).value))
  {
    hide *;
    IndexParts();
    KeysOfSample(num);
    if 1 <= num <= 3 {
      SampleReads(num - 1);
      FieldExtendable(num - 1);
      ReadIsSteady(SAMPLE, SampleIndex().offsets, num);
    }
  }

  lemma IndexParts()
    ensures SampleIndex().size == 4 && SampleIndex().root == Ref(1, 0) && SampleIndex().trailer == DICT
  {
  }

  lemma FieldExtendable(k: nat)
    requires k < 3
    ensures Extendable(Object(k + 1, 0, FIELDS[k].content))
  {
    hide IsDict, Absent, FIELDS;
    FieldShape(k);
    FieldText(k);
  }

  lemma SmallSample()
    ensures SmallHead(SAMPLE, SampleIndex())
  {
    hide FIELDS, OffsetsOf, EntriesOf, DICT, FirstId, Pow10, ObjectsText, SECTION;
    SampleStart();
    SectionWidth4();
    DictReads4();
    TenBillion();
    assert |SAMPLE| >= 4 by { SampleLong(); }
  }

  lemma SampleLong()
    ensures |SAMPLE| >= 4
  {
    hide ObjectsText, LINES, Footer, DICT;
    assert |XREF_HEAD| == 29 by { HeadWidth(); }
  }

  lemma SampleShort()
    ensures |SAMPLE| <= 2000000
  {
    hide ObjectsText, SECTION, FIELDS;
    SampleWidths();
    SectionWidth4();
    assert SECTION_WINDOW <= 1100000 by { WindowWidth(); }
  }

  lemma WindowWidth()
    ensures SECTION_WINDOW == 1048576
  {
  }

  lemma SampleSole(k: nat)
    requires k < 3
    ensures Sole(SAMPLE, SampleIndex(), Protocol.FieldName(Protocol.ORDER[k]), k + 1)
    ensures !AlreadySigned(BodyOf(SAMPLE, SampleIndex(), k + 1))
  {
    hide ReadObject, SAMPLE, SampleIndex, FIELDS, AlreadySigned, Includes, Indexed;
    var doc := SampleIndex();
    FieldTitles(k, k);
    KeysOfSample(k + 1);
    SampleReads(k);
    FieldShape(k);
    forall n: nat | Indexed(doc, n) && n != k + 1
      ensures !IsField(BodyOf(SAMPLE, doc, n), Protocol.FieldName(Protocol.ORDER[k]))
    {
      KeysOfSample(n);
      SampleReads(n - 1);
      FieldTitles(n - 1, k);
    }
  }

  lemma SampleNoRange()
    ensures Closed(SAMPLE) && Slots(SAMPLE, 0) == []
  {
    hide SAMPLE, Slots, RangeBody;
    SampleLacks('B');
    LacksOne(BYTE_RANGE, 1, SAMPLE);
    SkipUnmatched(SAMPLE, 0, |SAMPLE|);
    SlotsEnd(SAMPLE);
    assert forall p: nat :: p < |SAMPLE| ==> RangeAt(SAMPLE, p).None?;
  }

  lemma {:induction false} ObjectsLack(objs: seq<Revision>, c: char)
    requires (c == 'B' || c == 'C') && forall i :: 0 <= i < |objs| ==> Lacks(objs[i].content, c)
    ensures Lacks(ObjectsText(objs), c)
  {
    if objs != [] {
      var (d, g, x) := (Dec(objs[0].num), Dec(objs[0].gen), objs[0].content);
      hide Dec;
      assert Lacks(d, c) && Lacks(g, c);
      assert forall i :: 0 <= i < |objs[1..]| ==> objs[1..][i] == objs[i + 1];
      ObjectsLack(objs[1..], c);
    }
  }

  lemma {:induction false} LinesLack(objs: seq<Revision>, offsets: map<nat, nat>, c: char)
    requires (c == 'B' || c == 'C') && forall o :: o in objs ==> o.num in offsets
    ensures Lacks(XrefLines(objs, offsets), c)
  {
    if objs != [] {
      LinesLack(objs[1..], offsets, c);
      var (n, p, g) := (Dec(objs[0].num), Pad(offsets[objs[0].num], 10), Pad(objs[0].gen, 5));
      hide Dec, Pad;
      assert Lacks(n, c) && Lacks(p, c) && Lacks(g, c);
    }
  }

  lemma SampleLacks(c: char)
    requires c == 'B' || c == 'C'
    ensures Lacks(SAMPLE, c)
  {
    hide ObjectsText, XrefLines, OffsetsOf, FIELDS, Dec, DICT;
    var d := Dec(XREF_AT);
    FieldText(0);
    FieldText(1);
    FieldText(2);
    SampleAscending();
    ObjectsLack(FIELDS, c);
    LinesLack(FIELDS, OffsetsOf(FIELDS, 1), c);
    DictParts();
    assert Lacks(d, c);
    assert Lacks(XREF_HEAD, c) by { HeadLacks(c); }
    FooterLacks(XREF_AT, c);
  }

  lemma HeadLacks(c: char)
    requires c == 'B' || c == 'C'
    ensures Lacks(XREF_HEAD, c)
  {
  }

  lemma FooterLacks(x: nat, c: char)
    requires c == 'B' || c == 'C'
    ensures Lacks(Footer(x), c)
  {
    hide Dec;
    var d := Dec(x);
    assert Lacks(d, c);
  }

  /** The sample is a baseline: the hypotheses on prepared documents can be met. */
  lemma SampleIsBaseline()
    ensures Baseline(SAMPLE)
  {
    hide Signable, Closed, Slots, Sole, AlreadySigned, SAMPLE, SampleIndex, BodyOf;
    SampleSignable();
    SampleNoRange();
    SampleSole(0);
    SampleSole(1);
    SampleSole(2);
    var nums := [1, 2, 3];
    forall i | 0 <= i < 3
      ensures Sole(SAMPLE, SampleIndex(), Protocol.FieldName(Protocol.ORDER[i]), nums[i])
      ensures !AlreadySigned(BodyOf(SAMPLE, SampleIndex(), nums[i]))
    {
      assert nums[i] == i + 1;
      SampleSole(i);
    }
    assert BaselineWith(SAMPLE, SampleIndex(), nums);
  }

  // ---- Every request on a file of ordinary size gets its slot -------------------------------------

  lemma MidWidth(field: Object, n: nat, opts: Appearance)
    requires IsDict(field.body) && |field.body| <= FIELD_LIMIT && field.gen < Pow10(5) && field.num < n && n < Pow10(10)
    requires GoodOptions(opts)
    ensures |Mid(field, n, opts)| <= 1000000
  {
    hide Widget, SigHead, ObjectText, GoodOptions, Pow10, IsDict, SigHeader;
    var o := Revision(field.num, field.gen, Widget(field.body, n));
    ObjectTextLength(o);
    WidgetShape(field.body, n);
    TenBillion();
    NumeralWidths(n);
    NumeralWidths(field.num);
    DecWidth(field.gen, 5);
    SigHeaderWidth(n);
    DecZero();
    SigHeadWidth(opts);
    assert FIELD_LIMIT == 500000 by { Limits(); }
  }

  lemma SigHeaderWidth(n: nat)
    ensures |SigHeader(n)| == |Dec(n)| + |Dec(0)| + 6
  {
    hide Dec;
  }

  lemma SigHeadWidth(opts: Appearance)
    requires GoodOptions(opts)
    ensures |SigHead(opts)| <= 300000
  {
    hide Escape, Quiet;
    EscapeWidth(opts.name);
    EscapeWidth(opts.reason);
    EscapeWidth(opts.location);
  }

  /** On a file below 10^9 bytes the range always fits its columns. */
  lemma OrdinaryFilesWritable(buf: string, doc: Index, field: Object, opts: Appearance)
    requires Ready(buf, doc, field, opts) && |buf| < 1000000000
    ensures StartXref(buf).Ok? && Writable(RangeOf(buf, doc, field, opts))
  {
    hide *;
    ReadyParts(buf, doc, field, opts);
    TargetExtendable(buf, doc, field);
    TenBillion();
    SmallOf(buf, doc);
    MidWidth(field, doc.size, opts);
    PostWidth(buf, doc, field, opts);
    RangeBounds(buf, doc, field, opts);
  }

  lemma SmallOf(buf: string, doc: Index)
    requires Signable(buf, doc)
    ensures SmallHead(buf, doc) && doc.size <= |buf|
  {
    hide WellFormed, Readable, FieldsExtendable;
  }

  lemma ReservedBound(opts: Appearance)
    requires GoodOptions(opts)
    ensures opts.reserved <= 100000
  {
    hide Quiet;
  }

  lemma PostWidth(buf: string, doc: Index, field: Object, opts: Appearance)
    requires Ready(buf, doc, field, opts) && StartXref(buf).Ok? && |buf| < 1000000000
    ensures |Post(buf, doc, field, opts)| <= 2000000
  {
    hide *;
    ReadyParts(buf, doc, field, opts);
    SmallOf(buf, doc);
    TenBillion();
    ChainStartBelow(buf, doc);
    PairWidths(buf, doc, field, opts);
    SectionWidth(buf, doc, field, opts, PLACEHOLDER, Zeros(2 * opts.reserved), StartXref(buf).value);
    PostIs(buf, doc, field, opts);
  }

  lemma PostIs(buf: string, doc: Index, field: Object, opts: Appearance)
    requires StartXref(buf).Ok?
    ensures |Pair(field, doc.size, opts, PLACEHOLDER, Zeros(2 * opts.reserved))| == 2
    ensures |Post(buf, doc, field, opts)| ==
      8 + |SectionText(doc, Pair(field, doc.size, opts, PLACEHOLDER, Zeros(2 * opts.reserved)), |buf|,
                       StartXref(buf).value)|
    ensures SECTION_WINDOW == 1048576
  {
    hide SectionText, StartXref, PLACEHOLDER, Widget, SigDict;
  }

  lemma PairWidths(buf: string, doc: Index, field: Object, opts: Appearance)
    requires Ready(buf, doc, field, opts) && |buf| < 1000000000 && doc.size <= |buf|
    ensures var objs := Pair(field, doc.size, opts, PLACEHOLDER, Zeros(2 * opts.reserved));
      |buf| + 1 + |ObjectText(objs[0])| < Pow10(10) && |buf| + 1 + |ObjectsText(objs)| < 2 * Pow10(10)
  {
    hide *;
    ReadyParts(buf, doc, field, opts);
    var objs := Pair(field, doc.size, opts, PLACEHOLDER, Zeros(2 * opts.reserved));
    PairParts(field, doc.size, opts, PLACEHOLDER, Zeros(2 * opts.reserved));
    PairText(objs[0], objs[1]);
    assert objs == [objs[0], objs[1]];
    TenBillion();
    ObjectTextLength(objs[0]);
    ObjectTextLength(objs[1]);
    WidgetShape(field.body, doc.size);
    NumeralWidths(doc.size);
    NumeralWidths(field.num);
    DecWidth(field.gen, 5);
    DecZero();
    ReservedBound(opts);
    SigHeadWidth(opts);
    PlaceholderLength();
    DictLength(opts, PLACEHOLDER, Zeros(2 * opts.reserved));
    assert FIELD_LIMIT == 500000 by { Limits(); }
  }

  lemma RangeBounds(buf: string, doc: Index, field: Object, opts: Appearance)
    requires StartXref(buf).Ok? && |buf| < 1000000000 && |Mid(field, doc.size, opts)| <= 1000000
    requires |Post(buf, doc, field, opts)| <= 2000000
    requires GoodOptions(opts)
    ensures Writable(RangeOf(buf, doc, field, opts))
  {
    hide StartXref, Mid, Post, GoodOptions, Pow10;
    ReservedBound(opts);
    TenBillion();
  }

  /** So on such a file signing succeeds exactly when the field is unsigned and the signature fits its gap. */
  lemma OrdinarySignOutcome(buf: string, doc: Index, num: nat, opts: Appearance, der: seq<byte>)
    requires Request(buf, doc, num, opts) && |buf| < 1000000000
    ensures Sign(buf, opts, der).Ok? <==> !AlreadySigned(BodyOf(buf, doc, num)) && |der| <= opts.reserved
  {
    hide *;
    RequestTarget(buf, doc, num, opts);
    SignOutcome(buf, doc, num, opts, der);
    if !AlreadySigned(BodyOf(buf, doc, num)) {
      OrdinaryFilesWritable(buf, doc, FieldOf(buf, doc, num), opts);
    }
  }
}
