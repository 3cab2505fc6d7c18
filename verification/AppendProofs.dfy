/** Appending a revision and parsing the result: the round trip of `appendRevision` and `parseDocument`. */
module AppendProofs {
  import opened Text
  import opened PdfObjects
  import opened IncrementalSigner
  import opened Stability
  import opened RevisionProofs

  // ---- Tables -------------------------------------------------------------------------------------

  lemma {:induction false} LookupAppend(t: Table, e: Entry, num: nat)
    ensures Lookup(t + [e], num) ==
      if Lookup(t, num).Some? then Lookup(t, num) else if e.num == num then Some(e.offset) else None
  {
    if t != [] && t[0].num != num {
      assert (t + [e])[1..] == t[1..] + [e];
      LookupAppend(t[1..], e, num);
    }
  }

  /** Entries already there win. */
  lemma {:induction false} LookupAddMissing(t: Table, more: Table, num: nat)
    ensures Lookup(AddMissing(t, more), num) == if Lookup(t, num).Some? then Lookup(t, num) else Lookup(more, num)
  {
    if more != [] {
      hide Lookup;
      var (rest, e) := (more[..|more| - 1], more[|more| - 1]);
      assert more == rest + [e];
      LookupAddMissing(t, rest, num);
      LookupAddMissing(t, rest, e.num);
      LookupAppend(rest, e, num);
      LookupAppend(AddMissing(t, rest), e, num);
    } else {
      assert Lookup(more, num).None?;
    }
  }

  lemma {:induction false} AddMissingAssociative(a: Table, b: Table, c: Table)
    ensures AddMissing(AddMissing(a, b), c) == AddMissing(a, AddMissing(b, c))
  {
    if c != [] {
      hide Lookup;
      var (rest, e) := (c[..|c| - 1], c[|c| - 1]);
      AddMissingAssociative(a, b, rest);
      var v := AddMissing(b, rest);
      LookupAddMissing(a, v, e.num);
      assert (v + [e])[..|v|] == v;
    }
  }

  ghost predicate DistinctKeys(t: Table) {
    forall i, j :: 0 <= i < j < |t| ==> t[i].num != t[j].num
  }

  lemma {:induction false} AddMissingToNothing(t: Table)
    requires DistinctKeys(t)
    ensures AddMissing([], t) == t
  {
    if t != [] {
      hide Lookup;
      var (rest, e) := (t[..|t| - 1], t[|t| - 1]);
      AddMissingToNothing(rest);
      assert Lookup(rest, e.num).None? by { AbsentKey(rest, e.num); }
      assert rest + [e] == t;
    }
  }

  lemma AbsentKey(t: Table, num: nat)
    requires forall i :: 0 <= i < |t| ==> t[i].num != num
    ensures Lookup(t, num).None?
  {
  }

  lemma {:induction false} MergeFrom(first: Section, rest: seq<Section>)
    requires DistinctKeys(first.entries)
    ensures Merge([first] + rest) == AddMissing(first.entries, Merge(rest))
  {
    if rest == [] {
      assert [first] + rest == [first] && [first][..0] == [];
      AddMissingToNothing(first.entries);
    } else {
      var (front, last) := (rest[..|rest| - 1], rest[|rest| - 1]);
      assert ([first] + rest)[..|rest|] == [first] + front;
      MergeFrom(first, front);
      AddMissingAssociative(first.entries, Merge(front), last.entries);
    }
  }

  /** The first section of the chain that has the object. */
  function FirstDefining(sections: seq<Section>, num: nat): Option<nat> {
    if sections == [] then None
    else if Lookup(sections[0].entries, num).Some? then Lookup(sections[0].entries, num)
    else FirstDefining(sections[1..], num)
  }

  lemma {:induction false} FirstDefiningSnoc(sections: seq<Section>, last: Section, num: nat)
    ensures FirstDefining(sections + [last], num) ==
      if FirstDefining(sections, num).Some? then FirstDefining(sections, num) else Lookup(last.entries, num)
  {
    hide Lookup;
    if sections == [] {
      assert (sections + [last])[1..] == [];
    } else {
      assert (sections + [last])[1..] == sections[1..] + [last];
      FirstDefiningSnoc(sections[1..], last, num);
    }
  }

  /** The offset of an object is the one its newest section gives. */
  lemma {:induction false} NewestRevisionWins(sections: seq<Section>, num: nat)
    ensures Lookup(Merge(sections), num) == FirstDefining(sections, num)
  {
    if sections != [] {
      hide Lookup;
      var (front, last) := (sections[..|sections| - 1], sections[|sections| - 1]);
      NewestRevisionWins(front, num);
      LookupAddMissing(Merge(front), last.entries, num);
      assert sections == front + [last];
      FirstDefiningSnoc(front, last, num);
    } else {
      AbsentKey([], num);
    }
  }

  // ---- The new section ----------------------------------------------------------------------------

  /** The cross-reference section of a revision whose bodies follow the first `start` bytes. */
  function SectionText(doc: Index, sorted: seq<Revision>, start: nat, prev: nat): string
    requires |sorted| > 0
  {
    XREF_HEAD + XrefLines(sorted, OffsetsOf(sorted, start + 1)) +
    TrailerText(doc, NewSize(doc, sorted), prev, start + 1 + |ObjectsText(sorted)|)
  }

  lemma RevisionForm(doc: Index, sorted: seq<Revision>, start: nat, prev: nat)
    requires |sorted| > 0
    ensures RevisionText(doc, sorted, start, prev) ==
      ("\n" + ObjectsText(sorted)) + SectionText(doc, sorted, start, prev)
  {
    hide ObjectsText, XREF_HEAD, XrefLines, OffsetsOf, TrailerText, NewSize;
  }

  function NewTrailer(doc: Index, sorted: seq<Revision>, prev: nat): string
    requires |sorted| > 0
  {
    TrailerDict(NewSize(doc, sorted), doc.root, IdPart(doc.trailer), prev)
  }

  function NewSection(doc: Index, sorted: seq<Revision>, start: nat, prev: nat): Section
    requires |sorted| > 0
  {
    Section(EntriesOf(sorted, OffsetsOf(sorted, start + 1)), NewTrailer(doc, sorted, prev), Some(prev))
  }

  lemma TrailerTextForm(doc: Index, size: nat, prev: nat, xref: nat)
    ensures var mid := Inside(size, doc.root, IdPart(doc.trailer), prev);
      TrailerText(doc, size, prev, xref) == ("trailer\n" + ("<<" + (mid + ">>"))) + ("\n" + Footer(xref))
  {
    hide TrailerDict, IdPart, Footer, Inside;
    DictBrackets(size, doc.root, IdPart(doc.trailer), prev);
  }

  lemma TrailerTextReads(s: string, p: nat, doc: Index, size: nat, prev: nat, xref: nat, t: Table)
    requires At(s, p, TrailerText(doc, size, prev, xref))
    ensures Subsections(s, p, t) == Ok(Parsed(t, p))
    ensures Trailer(s, p) == Ok(TrailerDict(size, doc.root, IdPart(doc.trailer), prev))
  {
    hide *;
    var id := FirstId(doc.trailer, 0);
    var mid := Inside(size, doc.root, IdPart(doc.trailer), prev);
    IdPartIs(doc);
    TrailerTextForm(doc, size, prev, xref);
    AtConcat(s, p, "trailer\n" + ("<<" + (mid + ">>")), "\n" + Footer(xref));
    AtConcat(s, p, "trailer\n", "<<" + (mid + ">>"));
    StopsAtTrailer(s, p, t);
    InsideClear(size, doc.root, id, prev);
    TrailerReads(s, p, mid);
    DictBrackets(size, doc.root, IdPart(doc.trailer), prev);
  }

  lemma IdPartIs(doc: Index)
    ensures IdPart(doc.trailer) == IdText(FirstId(doc.trailer, 0))
  {
  }

  /** The new section is parsed as the new entries, the new trailer and the link to the old section. */
  lemma SectionReads(doc: Index, sorted: seq<Revision>, start: nat, prev: nat)
    requires |sorted| > 0 && Ascending(sorted) && Fits(sorted, OffsetsOf(sorted, start + 1))
    ensures ParseSection(SectionText(doc, sorted, start, prev)) == Ok(NewSection(doc, sorted, start, prev))
  {
    hide Subsections, Trailer, PrevOf, OffsetsOf, XREF_HEAD, XrefLines, TrailerText, TrailerDict, IdPart, NewSize,
      EntriesOf, Fits, Ascending, ObjectsText;
    var offsets := OffsetsOf(sorted, start + 1);
    var s := SectionText(doc, sorted, start, prev);
    var lines := XrefLines(sorted, offsets);
    var end := TrailerText(doc, NewSize(doc, sorted), prev, start + 1 + |ObjectsText(sorted)|);
    var q := |XREF_HEAD| + |lines|;
    SectionPieces(s, XREF_HEAD, lines, end);
    XrefHeadReads(s);
    XrefLinesRead(s, |XREF_HEAD|, sorted, offsets, []);
    assert [] + EntriesOf(sorted, offsets) == EntriesOf(sorted, offsets);
    TrailerTextReads(s, q, doc, NewSize(doc, sorted), prev, start + 1 + |ObjectsText(sorted)|,
                     EntriesOf(sorted, offsets));
    StartsWithXref(s);
    NewPrev(doc, sorted, prev);
  }

  lemma SectionPieces(s: string, head: string, lines: string, end: string)
    requires s == head + lines + end
    ensures At(s, 0, head) && At(s, |head|, lines) && At(s, |head| + |lines|, end)
  {
    assert s[0..|head|] == head;
    assert s[|head|..|head| + |lines|] == lines;
    assert s[|head| + |lines|..|s|] == end;
  }

  lemma StartsWithXref(s: string)
    requires At(s, 0, XREF_HEAD)
    ensures At(s, 0, "xref")
  {
    assert s[0..4] == s[0..|XREF_HEAD|][0..4];
  }

  lemma NewPrev(doc: Index, sorted: seq<Revision>, prev: nat)
    requires |sorted| > 0
    ensures PrevOf(NewTrailer(doc, sorted, prev)) == Some(prev)
  {
    hide PrevOf, TrailerDict, NewSize;
    TrailerPrev(NewSize(doc, sorted), doc.root, FirstId(doc.trailer, 0), prev);
  }

  // ---- startxref of the longer file ---------------------------------------------------------------

  lemma FooterReads(rest: nat, s: string)
    requires s == Footer(rest)
    ensures FirstKeyNumber(s, 0, "startxref").Some? && FirstKeyNumber(s, 0, "startxref").value.value == rest
  {
    hide Dec, ParseNat;
    var d := Dec(rest);
    assert At(s, 0, "startxref\n" + d + "\n%%EOF\n");
    AtConcat(s, 0, "startxref\n" + d, "\n%%EOF\n");
    AtConcat(s, 0, "startxref\n", d);
    AtConcat(s, 0, "startxref", "\n");
    assert "startxref\n" == "startxref" + "\n";
    AtFirst(s, 9, "\n");
    AtFirst(s, 10, d);
    AtFirst(s, 10 + |d|, "\n%%EOF\n");
    assert SkipSpaces(s, 9) == 10;
    NumberReads(s, 10, d);
    ParseDec(rest);
    assert KeyNumberAt(s, 0, "startxref").Some?;
  }

  lemma FooterOnce(x: nat)
    ensures forall i :: 1 <= i < |Footer(x)| ==> Footer(x)[i] != 's'
  {
    hide Dec;
    var d := Dec(x);
    assert Footer(x) == "startxref\n" + (d + "\n%%EOF\n");
  }

  /** The last `startxref` of the longer file is the new one. */
  lemma StartXrefOfAppended(front: string, x: nat)
    requires |Footer(x)| <= TAIL
    ensures StartXref(front + Footer(x)) == Ok(x)
  {
    hide Footer, FirstKeyNumber;
    var buf := front + Footer(x);
    var tail := buf[TailStart(buf)..];
    var p := |tail| - |Footer(x)|;
    assert tail[p..] == Footer(x);
    FooterLast(tail, x, p);
    FooterReads(x, tail[p..]);
  }

  lemma FooterLast(tail: string, x: nat, p: nat)
    requires p <= |tail| && tail[p..] == Footer(x)
    ensures LastIndexOf(tail, "startxref", |tail|) == p
  {
    hide Footer, LastIndexOf;
    FooterOnce(x);
    forall q: nat | q > p
      ensures !At(tail, q, "startxref")
    {
      if q < |tail| {
        assert tail[q] == Footer(x)[q - p];
      }
      AtFirst(tail, q, "startxref");
    }
    assert At(tail, p, "startxref") by {
      FooterStarts(x);
      Occurs(tail, p, "startxref", Footer(x)[9..]);
    }
    LastIndexOfIs(tail, "startxref", |tail|, p);
  }

  lemma FooterStarts(x: nat)
    ensures Footer(x) == "startxref" + Footer(x)[9..]
  {
    hide Dec;
    assert Footer(x) == "startxref" + ("\n" + Dec(x) + "\n%%EOF\n");
  }

  lemma LastIndexOfIs(s: string, pat: string, from: nat, r: nat)
    requires r <= from && At(s, r, pat)
    requires forall p: nat :: r < p ==> !At(s, p, pat)
    ensures LastIndexOf(s, pat, from) == r
  {
  }

  // ---- Offsets of the new objects -----------------------------------------------------------------

  ghost predicate SmallGenerations(objs: seq<Revision>) {
    forall i :: 0 <= i < |objs| ==> objs[i].gen < Pow10(5)
  }

  /** Each ascending object is recorded where its text really starts. */
  lemma {:induction false} OffsetIs(objs: seq<Revision>, at: nat, k: nat)
    requires Ascending(objs) && k < |objs|
    ensures objs[k].num in OffsetsOf(objs, at)
    ensures OffsetsOf(objs, at)[objs[k].num] == at + |ObjectsText(objs[..k])|
  {
    hide ObjectText, OffsetsOf;
    var (first, rest) := (objs[0], objs[1..]);
    var next := at + |ObjectText(first)|;
    assert forall j :: 0 <= j < |rest| ==> rest[j] == objs[j + 1];
    OffsetsStep(objs, at);
    if k == 0 {
      assert objs[..0] == [];
      NotLater(rest, next, first.num);
    } else {
      OffsetIs(rest, next, k - 1);
      assert objs[k].num in OffsetsOf(rest, next);
      ObjectsTextStep(objs, k);
    }
  }

  lemma ObjectsTextStep(objs: seq<Revision>, k: nat)
    requires 0 < k <= |objs|
    ensures ObjectsText(objs[..k]) == ObjectText(objs[0]) + ObjectsText(objs[1..][..k - 1])
  {
    assert objs[..k][1..] == objs[1..][..k - 1];
  }

  /** And its text is found there. */
  lemma {:induction false} PlacedAt(objs: seq<Revision>, k: nat)
    requires k < |objs|
    ensures |ObjectsText(objs[..k])| + |ObjectText(objs[k])| <= |ObjectsText(objs)|
    ensures At(ObjectsText(objs), |ObjectsText(objs[..k])|, ObjectText(objs[k]))
  {
    hide ObjectText;
    var (first, rest) := (objs[0], objs[1..]);
    if k == 0 {
      assert objs[..0] == [];
      assert ObjectsText(objs)[0..|ObjectText(first)|] == ObjectText(first);
    } else {
      PlacedAt(rest, k - 1);
      assert objs[..k] == [first] + rest[..k - 1];
      assert ([first] + rest[..k - 1])[1..] == rest[..k - 1];
      AtSuffix(ObjectText(first), ObjectsText(rest), |ObjectsText(rest[..k - 1])|, ObjectText(objs[k]));
    }
  }

  lemma {:induction false} NotLater(objs: seq<Revision>, at: nat, num: nat)
    requires forall j :: 0 <= j < |objs| ==> num < objs[j].num
    ensures num !in OffsetsOf(objs, at)
  {
    hide ObjectText;
    if objs != [] {
      assert num < objs[0].num;
      assert forall j :: 0 <= j < |objs[1..]| ==> objs[1..][j] == objs[j + 1];
      NotLater(objs[1..], at + |ObjectText(objs[0])|, num);
    }
  }

  /** Offsets below 10^10 and generations below 10^5 fit their columns. */
  lemma OffsetsFit(objs: seq<Revision>, at: nat)
    requires Ascending(objs) && SmallGenerations(objs) && at + |ObjectsText(objs)| < Pow10(10)
    ensures Fits(objs, OffsetsOf(objs, at))
  {
    hide OffsetsOf, ObjectsText, ObjectText, Pow10;
    forall k | 0 <= k < |objs|
      ensures objs[k].num in OffsetsOf(objs, at) && OffsetsOf(objs, at)[objs[k].num] < Pow10(10)
      ensures objs[k].gen < Pow10(5)
    {
      OffsetIs(objs, at, k);
      PlacedAt(objs, k);
    }
  }

  lemma {:induction false} EntriesDistinct(objs: seq<Revision>, offsets: map<nat, nat>)
    requires Ascending(objs) && forall o :: o in objs ==> o.num in offsets
    ensures |EntriesOf(objs, offsets)| == |objs|
    ensures forall k :: 0 <= k < |objs| ==>
      objs[k] in objs && EntriesOf(objs, offsets)[k] == Entry(objs[k].num, offsets[objs[k].num])
    ensures DistinctKeys(EntriesOf(objs, offsets))
  {
    if objs != [] {
      assert forall j :: 0 <= j < |objs[1..]| ==> objs[1..][j] == objs[j + 1];
      EntriesDistinct(objs[1..], offsets);
    }
  }

  // ---- The round trip -----------------------------------------------------------------------------

  /** The sections of a document that parses. */
  function SectionsOf(buf: string): seq<Section> {
    match StartXref(buf)
    case Err(_) => []
    case Ok(start) => match Chain(buf, start, {}) case Err(_) => [] case Ok(sections) => sections
  }

  /** A parsed document each of whose trailers starts with its dictionary. */
  ghost predicate WellFormed(buf: string, doc: Index) {
    Parse(buf) == Ok(doc) && ProperChain(SectionsOf(buf))
  }

  /** The new objects: one per number, offsets and generations within their columns, the section within the reader's
      window. */
  ghost predicate Appendable(buf: string, doc: Index, sorted: seq<Revision>) {
    && |sorted| > 0 && Ascending(sorted) && Fits(sorted, OffsetsOf(sorted, |buf| + 1))
    && |Footer(XrefOffset(buf, sorted))| <= TAIL
    && StartXref(buf).Ok?
    && |SectionText(doc, sorted, |buf|, StartXref(buf).value)| <= SECTION_WINDOW
  }

  function XrefOffset(buf: string, sorted: seq<Revision>): nat {
    |buf| + 1 + |ObjectsText(sorted)|
  }

  function Revised(buf: string, doc: Index, sorted: seq<Revision>): string
    requires |sorted| > 0 && StartXref(buf).Ok?
  {
    buf + RevisionText(doc, sorted, |buf|, StartXref(buf).value)
  }

  lemma RevisedForm(buf: string, doc: Index, sorted: seq<Revision>)
    requires |sorted| > 0 && StartXref(buf).Ok?
    ensures var front := buf + ("\n" + ObjectsText(sorted));
      && |front| == XrefOffset(buf, sorted)
      && Revised(buf, doc, sorted) == front + SectionText(doc, sorted, |buf|, StartXref(buf).value)
  {
    hide RevisionText, ObjectsText, SectionText, StartXref;
    RevisionForm(doc, sorted, |buf|, StartXref(buf).value);
  }

  lemma SectionEndsInFooter(doc: Index, sorted: seq<Revision>, start: nat, prev: nat) returns (front: string)
    requires |sorted| > 0
    ensures SectionText(doc, sorted, start, prev) == front + Footer(start + 1 + |ObjectsText(sorted)|)
  {
    hide XREF_HEAD, XrefLines, OffsetsOf, TrailerDict, NewSize, IdPart, Footer, ObjectsText;
    front := XREF_HEAD + XrefLines(sorted, OffsetsOf(sorted, start + 1)) +
      ("trailer\n" + TrailerDict(NewSize(doc, sorted), doc.root, IdPart(doc.trailer), prev) + "\n");
  }

  /** The reader starts at the new section and then walks the old chain. */
  lemma RevisedChain(buf: string, doc: Index, sorted: seq<Revision>)
    requires WellFormed(buf, doc) && Appendable(buf, doc, sorted)
    ensures var out := Revised(buf, doc, sorted); var prev := StartXref(buf).value;
      && StartXref(out) == Ok(XrefOffset(buf, sorted))
      && SectionsOf(out) == [NewSection(doc, sorted, |buf|, prev)] + SectionsOf(buf)
      && Chain(out, XrefOffset(buf, sorted), {}) == Ok(SectionsOf(out))
  {
    hide StartXref, SectionText, NewSection, Revised, RevisionText, Pow10, ObjectsText, Footer, Ascending, ProperChain,
      ParseSection, Fits, OffsetsOf, Window;
    var out := Revised(buf, doc, sorted);
    var prev := StartXref(buf).value;
    var x := XrefOffset(buf, sorted);
    RevisedStart(buf, doc, sorted);
    RevisedSection(buf, doc, sorted);
    RevisedOldChain(buf, doc, sorted);
    assert SectionAt(out, x) == Ok(NewSection(doc, sorted, |buf|, prev));
    assert NewSection(doc, sorted, |buf|, prev).prev == Some(prev) by { NewSectionPrev(doc, sorted, |buf|, prev); }
    assert {} + {x} == {x};
    assert Chain(out, prev, {x}) == Ok(SectionsOf(buf));
  }

  lemma NewSectionPrev(doc: Index, sorted: seq<Revision>, start: nat, prev: nat)
    requires |sorted| > 0
    ensures NewSection(doc, sorted, start, prev).prev == Some(prev)
  {
  }

  lemma RevisedStart(buf: string, doc: Index, sorted: seq<Revision>)
    requires Appendable(buf, doc, sorted)
    ensures StartXref(Revised(buf, doc, sorted)) == Ok(XrefOffset(buf, sorted))
  {
    hide StartXref, SectionText, Revised, Pow10, ObjectsText, Footer, Ascending;
    RevisedForm(buf, doc, sorted);
    var front := SectionEndsInFooter(doc, sorted, |buf|, StartXref(buf).value);
    var whole := buf + ("\n" + ObjectsText(sorted)) + front;
    assert Revised(buf, doc, sorted) == whole + Footer(XrefOffset(buf, sorted));
    StartXrefOfAppended(whole, XrefOffset(buf, sorted));
  }

  lemma RevisedSection(buf: string, doc: Index, sorted: seq<Revision>)
    requires Appendable(buf, doc, sorted)
    ensures SectionAt(Revised(buf, doc, sorted), XrefOffset(buf, sorted)) ==
      Ok(NewSection(doc, sorted, |buf|, StartXref(buf).value))
  {
    hide StartXref, SectionText, Revised, ObjectsText, Ascending, ParseSection, NewSection, Fits, OffsetsOf, Footer;
    RevisedForm(buf, doc, sorted);
    SectionReads(doc, sorted, |buf|, StartXref(buf).value);
    var x := XrefOffset(buf, sorted);
    var out := Revised(buf, doc, sorted);
    var text := SectionText(doc, sorted, |buf|, StartXref(buf).value);
    assert out[x..] == text;
    assert Window(out, x, SECTION_WINDOW) == text;
  }

  lemma RevisedOldChain(buf: string, doc: Index, sorted: seq<Revision>)
    requires WellFormed(buf, doc) && Appendable(buf, doc, sorted)
    ensures Chain(Revised(buf, doc, sorted), StartXref(buf).value, {XrefOffset(buf, sorted)}) == Ok(SectionsOf(buf))
  {
    hide StartXref, SectionText, RevisionText, Pow10, ObjectsText, Ascending, Chain;
    var prev := StartXref(buf).value;
    ChainPrefix(buf, RevisionText(doc, sorted, |buf|, prev), prev, {}, {XrefOffset(buf, sorted)});
    assert {} + {XrefOffset(buf, sorted)} == {XrefOffset(buf, sorted)};
  }

  /** The index of the longer file. */
  function RevisedIndex(buf: string, doc: Index, sorted: seq<Revision>): Index
    requires |sorted| > 0 && StartXref(buf).Ok?
  {
    var prev := StartXref(buf).value;
    Index(AddMissing(NewSection(doc, sorted, |buf|, prev).entries, doc.offsets), NewTrailer(doc, sorted, prev),
          NewSize(doc, sorted), doc.root)
  }

  lemma ParseIs(buf: string, start: nat, sections: seq<Section>)
    requires StartXref(buf) == Ok(start) && Chain(buf, start, {}) == Ok(sections)
    ensures Parse(buf) == IndexOfSections(sections) && SectionsOf(buf) == sections
  {
  }

  lemma ParsedOffsets(buf: string, doc: Index)
    requires Parse(buf) == Ok(doc)
    ensures doc.offsets == Merge(SectionsOf(buf)) && SectionsOf(buf) != []
    ensures doc.trailer == SectionsOf(buf)[0].trailer
    ensures StartXref(buf).Ok?
  {
    hide Merge, FirstKeyNumber, FirstKeyReference, StartXref;
  }

  lemma NewIndex(doc: Index, sorted: seq<Revision>, start: nat, prev: nat, chain: seq<Section>)
    requires |sorted| > 0 && Ascending(sorted) && doc.offsets == Merge(chain)
    ensures IndexOfSections([NewSection(doc, sorted, start, prev)] + chain) ==
      Ok(Index(AddMissing(NewSection(doc, sorted, start, prev).entries, doc.offsets), NewTrailer(doc, sorted, prev),
               NewSize(doc, sorted), doc.root))
  {
    hide Merge, FirstKeyNumber, FirstKeyReference, TrailerDict, Ascending, EntriesOf, OffsetsOf, NewSize, IdText,
      FirstId, DistinctKeys;
    EntriesDistinct(sorted, OffsetsOf(sorted, start + 1));
    MergeFrom(NewSection(doc, sorted, start, prev), chain);
    TrailerDictReads(NewSize(doc, sorted), doc.root, FirstId(doc.trailer, 0), prev);
  }

  /** Parsing an appended revision yields the old offsets overridden by the new objects', the same root and identifier,
      and a size above every new object number. */
  lemma AppendThenParse(buf: string, doc: Index, sorted: seq<Revision>)
    requires WellFormed(buf, doc) && Appendable(buf, doc, sorted)
    ensures WellFormed(Revised(buf, doc, sorted), RevisedIndex(buf, doc, sorted))
    ensures IdPart(RevisedIndex(buf, doc, sorted).trailer) == IdPart(doc.trailer)
    ensures forall o :: o in sorted ==> o.num < RevisedIndex(buf, doc, sorted).size
  {
    hide StartXref, SectionText, Revised, RevisionText, Pow10, ObjectsText, NewSection, Chain, Merge, IndexOfSections;
    var out := Revised(buf, doc, sorted);
    var prev := StartXref(buf).value;
    RevisedChain(buf, doc, sorted);
    ParsedOffsets(buf, doc);
    NewIndex(doc, sorted, |buf|, prev, SectionsOf(buf));
    ParseIs(out, XrefOffset(buf, sorted), SectionsOf(out));
    NewTrailerKeeps(doc, sorted, |buf|, prev);
    assert forall i :: 1 <= i < |SectionsOf(out)| ==> SectionsOf(out)[i] == SectionsOf(buf)[i - 1];
    forall o | o in sorted
      ensures o.num < NewSize(doc, sorted)
    {
      BelowNewSize(doc, sorted, o);
    }
  }

  lemma BelowNewSize(doc: Index, sorted: seq<Revision>, o: Revision)
    requires Ascending(sorted) && o in sorted
    ensures o.num < NewSize(doc, sorted)
  {
    var i :| 0 <= i < |sorted| && sorted[i] == o;
    assert i < |sorted| - 1 ==> sorted[i].num < sorted[|sorted| - 1].num;
  }

  lemma NewTrailerKeeps(doc: Index, sorted: seq<Revision>, start: nat, prev: nat)
    requires |sorted| > 0
    ensures NewSection(doc, sorted, start, prev).trailer == NewTrailer(doc, sorted, prev)
    ensures Proper(NewTrailer(doc, sorted, prev)) && IdPart(NewTrailer(doc, sorted, prev)) == IdPart(doc.trailer)
  {
    hide TrailerDict, NewSize, IdText, FirstId, EntriesOf, OffsetsOf;
    TrailerDictReads(NewSize(doc, sorted), doc.root, FirstId(doc.trailer, 0), prev);
  }

  // ---- Reading the new objects --------------------------------------------------------------------

  lemma ObjectTextReads(o: Revision, rest: string)
    requires Absent("endobj", "\n" + o.content + "\n")
    ensures ParseObject(ObjectText(o) + rest, o.num) == Ok(Object(o.num, o.gen, Trim("\n" + o.content + "\n")))
  {
    hide Dec, Absent, IndexOf, Trim, At, ParseNat, KeyNumberAt;
    var (d, g) := (Dec(o.num), Dec(o.gen));
    var body := "\n" + o.content + "\n";
    var s := ObjectText(o) + rest;
    var tail := "endobj\n" + rest;
    var h := |d| + 1 + |g| + 4;
    ObjectTextForm(o, rest);
    HeaderOf(s, o.num, o.gen, body + tail);
    BodyPlace(s, d, g, body, tail);
    StartsWith("endobj", "\n" + rest);
    assert "endobj" + ("\n" + rest) == tail;
    EndobjAfter(s, h, body, tail);
  }

  lemma ObjectTextForm(o: Revision, rest: string)
    ensures ObjectText(o) + rest ==
      Dec(o.num) + (" " + (Dec(o.gen) + (" obj" + (("\n" + o.content + "\n") + ("endobj\n" + rest)))))
  {
    hide Dec;
  }

  lemma BodyPlace(s: string, d: string, g: string, body: string, tail: string)
    requires s == d + (" " + (g + (" obj" + (body + tail))))
    ensures var h := |d| + 1 + |g| + 4; h + |body| <= |s| && s[h..] == body + tail && s[h..h + |body|] == body
  {
    var h := |d| + 1 + |g| + 4;
    assert s == (d + " " + g + " obj") + (body + tail);
    assert s[h..] == body + tail;
    assert s[h..h + |body|] == (body + tail)[..|body|];
  }

  lemma HeaderOf(s: string, num: nat, gen: nat, rest: string)
    requires s == Dec(num) + (" " + (Dec(gen) + (" obj" + rest)))
    ensures ObjectHeaderAt(s, num) == Some(ObjectHeader(gen, |Dec(num)| + 1 + |Dec(gen)| + 4))
  {
    hide Dec, ParseNat, KeyNumberAt, SkipSpaces, At, AllDigits;
    assert s[0..] == s;
    KeyNumberReads(s, 0, Dec(num), Dec(gen), " obj" + rest);
    ParseDec(gen);
    var e := |Dec(num)| + 1 + |Dec(gen)|;
    assert s[e..] == " obj" + rest;
    ObjKeyword(s, e, rest);
  }

  lemma ObjKeyword(s: string, e: nat, rest: string)
    requires e <= |s| && s[e..] == " obj" + rest
    ensures SkipSpaces(s, e) == e + 1 && At(s, e + 1, "obj")
  {
    assert s[e] == s[e..][0] && s[e + 1] == s[e..][1];
    assert s[e + 1..e + 4] == s[e..][1..4];
  }

  lemma EndobjAfter(s: string, h: nat, body: string, tail: string)
    requires h <= |s| && s[h..] == body + tail && "endobj" <= tail && Absent("endobj", body)
    ensures IndexOf(s, "endobj", h) == h + |body|
  {
    hide IndexOf, At, Absent;
    KeyClear("endobj", body, tail);
    assert s == s[..h] + (body + tail);
    forall i: nat | h <= i < h + |body|
      ensures !At(s, i, "endobj")
    {
      AtSuffix(s[..h], body + tail, i - h, "endobj");
    }
    assert At(s, h + |body|, "endobj") by {
      assert s[h + |body|..] == "endobj" + tail[6..];
      Occurs(s, h + |body|, "endobj", tail[6..]);
    }
    IndexOfIs(s, "endobj", h, h + |body|);
  }

  lemma KeyClear(key: string, a: string, b: string)
    requires key != "" && key <= b && Breaks(key, key[0]) && Absent(key, a)
    ensures forall i: nat :: i < |a| ==> !At(a + b, i, key)
  {
    AbsentBefore(key, a, b);
  }

  /** Every appended object can be read back, its content trimmed. */
  lemma NewObjectReads(buf: string, doc: Index, sorted: seq<Revision>, k: nat)
    requires Appendable(buf, doc, sorted) && k < |sorted|
    requires |ObjectText(sorted[k])| <= OBJECT_WINDOW && Absent("endobj", "\n" + sorted[k].content + "\n")
    ensures ReadObject(Revised(buf, doc, sorted), RevisedIndex(buf, doc, sorted).offsets, sorted[k].num) ==
      Ok(Object(sorted[k].num, sorted[k].gen, Trim("\n" + sorted[k].content + "\n")))
  {
    hide Revised, ObjectsText, ObjectText, SectionText, OffsetsOf, EntriesOf, Ascending, Fits, ParseObject, Absent,
      Trim, StartXref, Lookup, AddMissing, TrailerDict, NewTrailer, NewSize;
    var offsets := OffsetsOf(sorted, |buf| + 1);
    var off := |buf| + 1 + |ObjectsText(sorted[..k])|;
    OffsetIs(sorted, |buf| + 1, k);
    NewLookup(buf, doc, sorted, k);
    var rest := NewObjectWindow(buf, doc, sorted, k);
    ObjectTextReads(sorted[k], rest);
  }

  lemma NewObjectWindow(buf: string, doc: Index, sorted: seq<Revision>, k: nat) returns (rest: string)
    requires Appendable(buf, doc, sorted) && k < |sorted| && |ObjectText(sorted[k])| <= OBJECT_WINDOW
    ensures Window(Revised(buf, doc, sorted), |buf| + 1 + |ObjectsText(sorted[..k])|, OBJECT_WINDOW) ==
      ObjectText(sorted[k]) + rest
  {
    hide Revised, ObjectsText, ObjectText, SectionText, OffsetsOf, Ascending, Fits, StartXref;
    var out := Revised(buf, doc, sorted);
    var off := |buf| + 1 + |ObjectsText(sorted[..k])|;
    var text := SectionText(doc, sorted, |buf|, StartXref(buf).value);
    RevisedForm(buf, doc, sorted);
    PlacedAt(sorted, k);
    assert out == (buf + "\n") + (ObjectsText(sorted) + text);
    AtPrefix(ObjectsText(sorted), text, |ObjectsText(sorted[..k])|, ObjectText(sorted[k]));
    AtSuffix(buf + "\n", ObjectsText(sorted) + text, |ObjectsText(sorted[..k])|, ObjectText(sorted[k]));
    var w := Window(out, off, OBJECT_WINDOW);
    rest := w[|ObjectText(sorted[k])|..];
    assert w[..|ObjectText(sorted[k])|] == out[off..off + |ObjectText(sorted[k])|];
  }

  lemma NewLookup(buf: string, doc: Index, sorted: seq<Revision>, k: nat)
    requires Appendable(buf, doc, sorted) && k < |sorted|
    ensures sorted[k].num in OffsetsOf(sorted, |buf| + 1)
    ensures Lookup(RevisedIndex(buf, doc, sorted).offsets, sorted[k].num) ==
      Some(OffsetsOf(sorted, |buf| + 1)[sorted[k].num])
  {
    hide OffsetsOf, EntriesOf, AddMissing, TrailerDict, NewTrailer, NewSize, StartXref, SectionText, Footer, Fits,
      Lookup;
    var offsets := OffsetsOf(sorted, |buf| + 1);
    var entries := EntriesOf(sorted, offsets);
    EntriesDistinct(sorted, offsets);
    LookupAddMissing(entries, doc.offsets, sorted[k].num);
    LookupDistinct(entries, k);
  }

  lemma {:induction false} LookupDistinct(t: Table, k: nat)
    requires k < |t| && DistinctKeys(t)
    ensures Lookup(t, t[k].num) == Some(t[k].offset)
  {
    if k > 0 {
      assert t[0].num != t[k].num;
      assert forall i :: 0 <= i < |t[1..]| ==> t[1..][i] == t[i + 1];
      LookupDistinct(t[1..], k - 1);
    }
  }

  /** Objects the revision does not replace are looked up, and read, as before. */
  lemma OldObjectReads(buf: string, doc: Index, sorted: seq<Revision>, num: nat)
    requires WellFormed(buf, doc) && Appendable(buf, doc, sorted)
    requires forall k :: 0 <= k < |sorted| ==> sorted[k].num != num
    ensures Lookup(RevisedIndex(buf, doc, sorted).offsets, num) == Lookup(doc.offsets, num)
    ensures Steady(buf, doc.offsets, num) ==>
      ReadObject(Revised(buf, doc, sorted), RevisedIndex(buf, doc, sorted).offsets, num) ==
        ReadObject(buf, doc.offsets, num) &&
      Steady(Revised(buf, doc, sorted), RevisedIndex(buf, doc, sorted).offsets, num)
  {
    hide OffsetsOf, EntriesOf, AddMissing, TrailerDict, NewTrailer, NewSize, StartXref, SectionText, Footer, Fits,
      Lookup, ReadObject, Steady, RevisionText, Chain;
    var entries := EntriesOf(sorted, OffsetsOf(sorted, |buf| + 1));
    EntriesDistinct(sorted, OffsetsOf(sorted, |buf| + 1));
    LookupAddMissing(entries, doc.offsets, num);
    assert forall i :: 0 <= i < |entries| ==> entries[i].num == sorted[i].num;
    AbsentKey(entries, num);
    if Steady(buf, doc.offsets, num) {
      SteadyPrefix(buf, RevisionText(doc, sorted, |buf|, StartXref(buf).value), doc.offsets,
        RevisedIndex(buf, doc, sorted).offsets, num);
    }
  }
}
