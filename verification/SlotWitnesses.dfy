/** The exceptional sides of the results on slots: a file parked twice cannot be reopened, and a /ByteRange without
    /Contents makes a later signing change what the scan reports. */
module SlotWitnesses {
  import opened Text
  import opened PdfObjects
  import opened IncrementalSigner
  import opened RevisionProofs
  import opened AppendProofs
  import opened SlotProofs
  import opened QuietProofs
  import opened SigningProofs
  import opened SigningTheorems
  import opened Preservation
  import opened SignatureRuns
  import opened Ceremonies
  import Protocol
  import Executions
  import opened SampleDocument
  import opened Attachments
  import HonestRuns

  // ---- Parked twice -------------------------------------------------------------------------------

  /** A prepared, unfilled file prepared once more has two empty gaps and is refused as ambiguous, whichever fields are
      named. */
  lemma PreparedTwice(buf: string, doc: Index, num: nat, opts: Appearance, other: nat, more: Appearance)
    requires Request(buf, doc, num, opts) && Prepare(buf, opts).Ok? && Closed(buf)
    requires GoodOptions(more) && Sole(buf, doc, more.fieldName, other)
    ensures var parked := Prepare(buf, opts).value.buffer;
      Prepare(parked, more).Ok? ==>
        Reopen(Prepare(parked, more).value.buffer) == Err("parked document has more than one unfilled signature slot")
  {
    hide *;
    var parked := Prepare(buf, opts).value.buffer;
    var later := ParkedRequest(buf, doc, num, opts, other, more);
    PreparedSlots(buf, doc, num, opts);
    var last := SlotWith(Prepare(buf, opts).value.range, Zeros(2 * opts.reserved));
    EmptySlotsSnoc(Slots(buf, 0), last);
    ZeroGap(Prepare(buf, opts).value.range, 2 * opts.reserved);
    NotNone(EmptySlots(Slots(buf, 0)), last);
    if Prepare(parked, more).Ok? {
      ReopenRoundTrip(parked, later, other, more);
    }
  }

  lemma ZeroGap(r: ByteRange, n: nat)
    ensures AllZeros(SlotWith(r, Zeros(n)).hex)
  {
  }

  lemma NotNone(front: seq<Slot>, last: Slot)
    ensures front + [last] != []
  {
  }

  /** The parked file can be asked for a signature again. */
  lemma ParkedRequest(buf: string, doc: Index, num: nat, opts: Appearance, other: nat, more: Appearance)
    returns (later: Index)
    requires Request(buf, doc, num, opts) && Prepare(buf, opts).Ok? && Closed(buf)
    requires GoodOptions(more) && Sole(buf, doc, more.fieldName, other)
    ensures Request(Prepare(buf, opts).value.buffer, later, other, more) && Closed(Prepare(buf, opts).value.buffer)
    ensures AlreadySigned(BodyOf(Prepare(buf, opts).value.buffer, later, other)) <==>
      other == num || AlreadySigned(BodyOf(buf, doc, other))
  {
    hide *;
    PrepareOutcome(buf, doc, num, opts);
    RequestTarget(buf, doc, num, opts);
    var field := FieldOf(buf, doc, num);
    var r := RangeOf(buf, doc, field, opts);
    var (range, hex) := (FilledRange(r), Zeros(2 * opts.reserved));
    FilledRangeLength(r);
    ZerosHex(2 * opts.reserved);
    ZerosLong(2 * opts.reserved);
    FreshIs(buf, doc, field, opts, range, hex);
    SlotsOfFresh(buf, doc, field, opts, hex);
    later := NewDoc(buf, doc, field, opts, range, hex);
    SigningKeepsSignable(buf, doc, field, opts, range, hex);
    SoleKept(buf, doc, field, opts, range, hex, more.fieldName, other);
    RequestIs(Prepare(buf, opts).value.buffer, later, other, more);
  }

  lemma ZerosLong(k: nat)
    ensures |Zeros(k)| == k
  {
  }

  function Plainly(p: Protocol.Party): Appearance {
    Appearance(Protocol.FieldName(p), "", "", "", "", 3)
  }

  lemma PlainlyGood(p: Protocol.Party)
    ensures GoodOptions(Plainly(p)) && Plainly(p).fieldName == Protocol.FieldName(p)
  {
  }

  lemma SampleRequest(p: Protocol.Party)
    ensures Request(SAMPLE, SampleIndex(), Protocol.Rank(p) + 1, Plainly(p)) && |SAMPLE| < 1000000000
    ensures !AlreadySigned(BodyOf(SAMPLE, SampleIndex(), Protocol.Rank(p) + 1))
    ensures Sole(SAMPLE, SampleIndex(), Protocol.FieldName(p), Protocol.Rank(p) + 1)
  {
    hide *;
    SampleSignable();
    SampleSole(Protocol.Rank(p));
    PlainlyGood(p);
    SampleShort();
    PartyRank(p);
    RequestIs(SAMPLE, SampleIndex(), Protocol.Rank(p) + 1, Plainly(p));
  }

  lemma PartyRank(p: Protocol.Party)
    ensures Protocol.Rank(p) < 3 && Protocol.ORDER[Protocol.Rank(p)] == p
  {
  }

  lemma OrdinaryPrepare(buf: string, doc: Index, num: nat, opts: Appearance)
    requires Request(buf, doc, num, opts) && |buf| < 1000000000 && !AlreadySigned(BodyOf(buf, doc, num))
    ensures Prepare(buf, opts).Ok? && |Prepare(buf, opts).value.buffer| <= |buf| + HonestRuns.GROWTH
  {
    hide *;
    RequestTarget(buf, doc, num, opts);
    OrdinaryFilesWritable(buf, doc, FieldOf(buf, doc, num), opts);
    HonestRuns.GrowthBound(buf, doc, FieldOf(buf, doc, num), opts);
    PrepareOutcome(buf, doc, num, opts);
    var field := FieldOf(buf, doc, num);
    var r := RangeOf(buf, doc, field, opts);
    FilledRangeLength(r);
    ZerosLong(2 * opts.reserved);
    FileLength(buf, doc, field, opts, FilledRange(r), Zeros(2 * opts.reserved));
    NewFileIs(buf, doc, field, opts, FilledRange(r), Zeros(2 * opts.reserved));
  }

  /** It happens: the sample prepared for the agent and, unfilled, for the employee. */
  lemma AmbiguousParking()
    ensures Prepare(SAMPLE, Plainly(Protocol.Agent)).Ok?
    ensures var parked := Prepare(SAMPLE, Plainly(Protocol.Agent)).value.buffer;
      && Prepare(parked, Plainly(Protocol.Employee)).Ok?
      && Reopen(Prepare(parked, Plainly(Protocol.Employee)).value.buffer) ==
        Err("parked document has more than one unfilled signature slot")
  {
    hide *;
    var (doc, opts, more) := (SampleIndex(), Plainly(Protocol.Agent), Plainly(Protocol.Employee));
    SampleRequest(Protocol.Agent);
    SampleRequest(Protocol.Employee);
    PlainlyGood(Protocol.Employee);
    TwoRanks();
    SampleNoRange();
    SampleShort();
    GrowthIs();
    OrdinaryPrepare(SAMPLE, doc, 1, opts);
    var parked := Prepare(SAMPLE, opts).value.buffer;
    var later := ParkedRequest(SAMPLE, doc, 1, opts, 2, more);
    OrdinaryPrepare(parked, later, 2, more);
    PreparedTwice(SAMPLE, doc, 1, opts, 2, more);
  }

  lemma TwoRanks()
    ensures Protocol.Rank(Protocol.Agent) == 0 && Protocol.Rank(Protocol.Employee) == 1
  {
  }

  lemma GrowthIs()
    ensures HonestRuns.GROWTH == 4000000
  {
  }

  // ---- A range without a gap ----------------------------------------------------------------------

  const ONE := "0000000001"
  const STRAY := RangeKey(RangeText(ONE, ONE, ONE)) + " "

  lemma StrayIs()
    ensures STRAY == BYTE_RANGE + (" [0 " + (ONE + (" " + (ONE + (" " + (ONE + "] "))))))
    ensures Numerals(ONE, ONE, ONE) && Lacks(STRAY, 'T') && Lacks(STRAY, 'j') && Lacks(STRAY, 'C') && |STRAY| == 48
  {
    hide STRAY, ONE, BYTE_RANGE, Numerals;
    StrayForm();
    OneIs();
    KeywordLetters();
    StrayLacks('T');
    StrayLacks('j');
    StrayLacks('C');
  }

  lemma StrayForm()
    ensures STRAY == BYTE_RANGE + (" [0 " + (ONE + (" " + (ONE + (" " + (ONE + "] "))))))
  {
    hide ONE, BYTE_RANGE;
  }

  lemma OneIs()
    ensures Numerals(ONE, ONE, ONE) && |ONE| == 10 && Lacks(ONE, 'T') && Lacks(ONE, 'j') && Lacks(ONE, 'C')
  {
  }

  lemma KeywordLetters()
    ensures |BYTE_RANGE| == 10 && Lacks(BYTE_RANGE, 'T') && Lacks(BYTE_RANGE, 'j') && Lacks(BYTE_RANGE, 'C')
  {
  }

  lemma StrayLacks(c: char)
    requires Lacks(BYTE_RANGE, c) && Lacks(ONE, c) && c in {'T', 'j', 'C'}
    ensures Lacks(STRAY, c)
  {
    hide STRAY, ONE, BYTE_RANGE;
    StrayForm();
    LacksTail(ONE, "] ", c);
    LacksTail(" ", ONE + "] ", c);
    LacksTail(ONE, " " + (ONE + "] "), c);
    LacksTail(" ", ONE + (" " + (ONE + "] ")), c);
    LacksTail(ONE, " " + (ONE + (" " + (ONE + "] "))), c);
    LacksTail(" [0 ", ONE + (" " + (ONE + (" " + (ONE + "] ")))), c);
    LacksTail(BYTE_RANGE, " [0 " + (ONE + (" " + (ONE + (" " + (ONE + "] "))))), c);
  }

  lemma LacksTail(a: string, b: string, c: char)
    requires Lacks(a, c) && Lacks(b, c)
    ensures Lacks(a + b, c)
  {
  }

  lemma StrayBland()
    ensures Bland(STRAY)
  {
    hide STRAY, Absent;
    StrayIs();
    LacksOne(TITLE, 1, STRAY);
    LacksOne("endobj", 5, STRAY);
  }

  lemma StrayReads(s: string, p: nat)
    requires At(s, p, STRAY)
    ensures p < |s| && RangeAt(s, p).Some?
  {
    hide At, RangeAt, STRAY, BYTE_RANGE, ONE;
    StrayIs();
    var t := ONE + (" " + (ONE + (" " + (ONE + "] "))));
    AtConcat(s, p, BYTE_RANGE, " [0 " + t);
    KeywordFacts();
    AtConcat(s, p + 10, " [0 ", t);
    AtConcat(s, p + 14, ONE, " " + (ONE + (" " + (ONE + "] "))));
    AtConcat(s, p + 24, " ", ONE + (" " + (ONE + "] ")));
    AtConcat(s, p + 25, ONE, " " + (ONE + "] "));
    AtConcat(s, p + 35, " ", ONE + "] ");
    AtConcat(s, p + 36, ONE, "] ");
    RangeReads(s, p, ONE, ONE, ONE);
    AtInside(s, p, STRAY);
  }

  /** The new section has no capital C when the trailer has no identifier. */
  lemma SectionLacks(doc: Index, sorted: seq<Revision>, start: nat, prev: nat)
    requires |sorted| > 0 && IdPart(doc.trailer) == ""
    ensures Lacks(SectionText(doc, sorted, start, prev), 'C')
  {
    hide XREF_HEAD, XrefLines, OffsetsOf, Footer, ObjectsText, NewSize, IdPart, Dec;
    HeadLacks('C');
    LinesLack(sorted, OffsetsOf(sorted, start + 1), 'C');
    FooterLacks(start + 1 + |ObjectsText(sorted)|, 'C');
    var (a, b, c, d) := (Dec(NewSize(doc, sorted)), Dec(doc.root.num), Dec(doc.root.gen), Dec(prev));
    assert Lacks(a, 'C') && Lacks(b, 'C') && Lacks(c, 'C') && Lacks(d, 'C');
  }

  lemma SampleId()
    ensures IdPart(SampleIndex().trailer) == ""
  {
    hide DICT, FirstId;
    DictReads4();
    IndexParts();
  }

  lemma AttachedForm(buf: string, doc: Index, content: string)
    requires Attachable(buf, doc, content)
    ensures StartXref(buf).Ok?
    ensures Attached(buf, doc, content) ==
      buf + ("\n" + ObjectText(Attachment(doc, content))) +
      SectionText(doc, [Attachment(doc, content)], |buf|, StartXref(buf).value)
  {
    hide *;
    AttachableParts(buf, doc, content);
    SignableStart(buf, doc);
    AttachedIs(buf, doc, content);
    OneObject(Attachment(doc, content), 0);
    RevisedForm(buf, doc, [Attachment(doc, content)]);
  }

  /** A file without a capital C has no /Contents anywhere, so a /ByteRange in it is not closed. */
  lemma StrayUnclosed(buf: string, doc: Index)
    requires Attachable(buf, doc, STRAY) && Lacks(buf, 'C') && IdPart(doc.trailer) == ""
    ensures StartXref(buf).Ok? && !Closed(Attached(buf, doc, STRAY))
  {
    hide *;
    AttachedForm(buf, doc, STRAY);
    ContentAt(buf, doc, STRAY);
    var p := |buf| + 1 + |Dec(doc.size)| + 7;
    var out := Attached(buf, doc, STRAY);
    StrayReads(out, p);
    SectionLacks(doc, [Attachment(doc, STRAY)], |buf|, StartXref(buf).value);
    ObjectLacks(doc);
    JoinLacks(buf, "\n" + ObjectText(Attachment(doc, STRAY)),
              SectionText(doc, [Attachment(doc, STRAY)], |buf|, StartXref(buf).value));
    ContentsStart();
    LacksOne(CONTENTS, 1, out);
    NotClosed(out, p);
  }

  lemma ObjectLacks(doc: Index)
    ensures Lacks("\n" + ObjectText(Attachment(doc, STRAY)), 'C')
  {
    hide STRAY, Dec;
    StrayIs();
    var (d, g) := (Dec(doc.size), Dec(0));
    assert Lacks(d, 'C') && Lacks(g, 'C');
  }

  lemma JoinLacks(a: string, b: string, c: string)
    requires Lacks(a, 'C') && Lacks(b, 'C') && Lacks(c, 'C')
    ensures Lacks(a + b + c, 'C')
  {
  }

  lemma ContentsStart()
    ensures |CONTENTS| > 1 && CONTENTS[1] == 'C'
  {
  }

  lemma NotClosed(s: string, p: nat)
    requires p < |s| && RangeAt(s, p).Some? && Absent(CONTENTS, s)
    ensures !Closed(s)
  {
    hide RangeAt;
    NeverFound(s, CONTENTS);
    assert !Enclosed(s, p);
  }

  /** It happens: a document that can be signed, has all fields, and changes what the scan reports of its old range when
      it is signed. */
  lemma UnclosedSigning(der: seq<byte>) returns (buf: string, doc: Index, num: nat, opts: Appearance)
    requires |der| <= 3
    ensures Succeeds(buf, doc, num, opts, der) && !Closed(buf) && StartXref(buf).Ok? && |der| <= opts.reserved
    ensures Slots(SignedFile(buf, doc, num, opts, der), 0) !=
      Slots(buf, 0) + [SlotWith(NewestRange(buf, doc, num, opts), Filling(der, 2 * opts.reserved))]
  {
    hide *;
    SampleSignable();
    SampleShort();
    StrayBland();
    StrayIs();
    AttachableIf(SAMPLE, SampleIndex(), STRAY);
    SampleLacks('C');
    SampleId();
    StrayUnclosed(SAMPLE, SampleIndex());
    SampleRequest(Protocol.Agent);
    PlainlyGood(Protocol.Agent);
    TwoRanks();
    AttachingKeepsSignable(SAMPLE, SampleIndex(), STRAY);
    AttachingKeepsSole(SAMPLE, SampleIndex(), STRAY, Protocol.FieldName(Protocol.Agent), 1);
    AttachedWidth(SAMPLE, SampleIndex(), STRAY);
    buf, doc, num, opts := Attached(SAMPLE, SampleIndex(),
                                    STRAY), AttachedDoc(SAMPLE, SampleIndex(), STRAY), 1, Plainly(Protocol.Agent);
    RequestIs(buf, doc, num, opts);
    ThreeReserved();
    OrdinarySignOutcome(buf, doc, num, opts, der);
    Executions.SucceedsIs(buf, doc, num, opts, der);
    SlotsAfterSigning(buf, doc, num, opts, der);
  }

  lemma ThreeReserved()
    ensures Plainly(Protocol.Agent).reserved == 3
  {
  }
}
