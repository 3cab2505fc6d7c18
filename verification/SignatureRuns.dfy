/** The verifier's report over a growing document: old verdicts stay, each signing adds one, and a run of signings
    covers the documents it went through one by one. */
module SignatureRuns {
  import opened Text
  import opened PdfObjects
  import opened IncrementalSigner
  import opened RevisionProofs
  import opened AppendProofs
  import opened SlotProofs
  import opened SigningProofs
  import opened QuietProofs
  import opened FieldProofs
  import opened SigningLayout
  import opened SigningTheorems
  import opened Verifier
  import opened Preservation

  // ---- Slots --------------------------------------------------------------------------------------

  function SlotWith(r: ByteRange, hex: string): Slot {
    Slot(r, r.b1, r.b2, hex)
  }

  lemma GuardedAlways(field: Object, n: nat, opts: Appearance)
    ensures forall rest :: Guarded(Mid(field, n, opts) + rest)
  {
    hide Guarded, Mid;
    forall rest
      ensures Guarded(Mid(field, n, opts) + rest)
    {
      MidGuarded(field, n, opts, rest);
    }
  }

  lemma PostQuiet(buf: string, doc: Index, field: Object, opts: Appearance, hex: string)
    requires StartXref(buf).Ok? && AllHex(hex)
    ensures Absent(BYTE_RANGE, GapText(hex) + Post(buf, doc, field, opts))
  {
    hide StartXref, SectionText, GapText, Absent, SigDict, Widget;
    AfterRangeQuiet(hex, doc, Pair(field, doc.size, opts, PLACEHOLDER, Zeros(2 * opts.reserved)), |buf|,
                    StartXref(buf).value);
  }

  lemma NewSlotIsRange(pre: string, r: ByteRange, hex: string)
    requires Writable(r) && r.b0 == 0 && r.b1 == GapStart(pre) && r.b2 == r.b1 + |hex| + 2
    ensures Numerals(Pad(r.b1, 10), Pad(r.b2, 10), Pad(r.b3, 10))
    ensures NewSlot(pre, Pad(r.b1, 10), Pad(r.b2, 10), Pad(r.b3, 10), hex) == SlotWith(r, hex)
    ensures FilledRange(r) == RangeText(Pad(r.b1, 10), Pad(r.b2, 10), Pad(r.b3, 10))
  {
    hide Pad, Pow10, ParseNat;
    FilledRangeLength(r);
  }

  lemma HexNoBracket(hex: string)
    requires AllHex(hex)
    ensures Lacks(hex, '>')
  {
  }

  /** The slots of the longer file are the old ones and the new one exactly when every /ByteRange of the old file was
      followed by its /Contents string. */
  lemma SlotsOfFresh(buf: string, doc: Index, field: Object, opts: Appearance, hex: string)
    requires StartXref(buf).Ok? && Fresh(buf, doc, field, opts, FilledRange(RangeOf(buf, doc, field, opts)), hex)
    ensures var r := RangeOf(buf, doc, field, opts); var out := NewFile(buf, doc, field, opts, FilledRange(r), hex);
      && (Slots(out, 0) == Slots(buf, 0) + [SlotWith(r, hex)] <==> Closed(buf))
      && (Closed(buf) ==> Closed(out))
      && |out| == r.b2 + r.b3 && buf < out && |buf| < r.b1 && r.b0 == 0
  {
    hide *;
    var r := RangeOf(buf, doc, field, opts);
    FreshParts(buf, doc, field, opts, FilledRange(r), hex);
    ReadyParts(buf, doc, field, opts);
    NewFileIs(buf, doc, field, opts, FilledRange(r), hex);
    FileLength(buf, doc, field, opts, FilledRange(r), hex);
    RevisedExtends(buf, doc, Pair(field, doc.size, opts, FilledRange(r), hex));
    Layout(buf, doc, field, opts, FilledRange(r), hex);
    RangeStart(buf, doc, field, opts);
    BeforeIs(buf, doc, field, opts);
    NewSlotIsRange(buf + Mid(field, doc.size, opts), r, hex);
    HexNoBracket(hex);
    MidQuiet(field, doc.size, opts);
    PostQuiet(buf, doc, field, opts, hex);
    GuardedAlways(field, doc.size, opts);
    SlotsOfRevision(buf, Mid(field, doc.size, opts), Pad(r.b1, 10), Pad(r.b2, 10), Pad(r.b3, 10), hex,
                    Post(buf, doc, field, opts));
  }

  lemma RevisedExtends(buf: string, doc: Index, sorted: seq<Revision>)
    requires |sorted| > 0 && StartXref(buf).Ok?
    ensures buf <= Revised(buf, doc, sorted)
    ensures |Revised(buf, doc, sorted)| > |buf| ==> buf < Revised(buf, doc, sorted)
  {
    hide RevisionText, StartXref;
  }

  /** The range of the signature just made. */
  function NewestRange(buf: string, doc: Index, num: nat, opts: Appearance): ByteRange
    requires StartXref(buf).Ok?
  {
    RangeOf(buf, doc, FieldOf(buf, doc, num), opts)
  }

  lemma NewestRangeIs(buf: string, doc: Index, num: nat, opts: Appearance)
    requires StartXref(buf).Ok?
    ensures NewestRange(buf, doc, num, opts) == RangeOf(buf, doc, FieldOf(buf, doc, num), opts)
  {
  }

  /** One signing adds one slot after the old ones, around a gap that holds the signature. */
  lemma SlotsAfterSigning(buf: string, doc: Index, num: nat, opts: Appearance, der: seq<byte>)
    requires Succeeds(buf, doc, num, opts, der)
    ensures StartXref(buf).Ok? && |der| <= opts.reserved
    ensures var r := NewestRange(buf, doc, num, opts); var out := SignedFile(buf, doc, num, opts, der);
      && (Slots(out, 0) == Slots(buf, 0) + [SlotWith(r, Filling(der, 2 * opts.reserved))] <==> Closed(buf))
      && (Closed(buf) ==> Closed(out))
      && |out| == r.b2 + r.b3 && buf < out && |buf| < r.b1 && r.b0 == 0 && r.b2 == r.b1 + 2 * opts.reserved + 2
  {
    hide *;
    SucceedsFresh(buf, doc, num, opts, der);
    SignedFileIs(buf, doc, num, opts, der);
    NewestRangeIs(buf, doc, num, opts);
    RangeStart(buf, doc, FieldOf(buf, doc, num), opts);
    SlotsOfFresh(buf, doc, FieldOf(buf, doc, num), opts, Filling(der, 2 * opts.reserved));
  }

  // ---- Verdicts -----------------------------------------------------------------------------------

  /** What a verdict keeps when the file grows: its range and coverage, and, if it covered only bytes that existed,
      its issues. */
  predicate Kept(before: Verdict, after: Verdict, len: nat) {
    && after.range == before.range && after.coversBytes == before.coversBytes
    && (before.coversBytes <= len ==> after.issues == before.issues && !after.coversWholeFile)
  }

  lemma {:induction false} SlotsInside(s: string, p: nat)
    ensures forall i :: 0 <= i < |Slots(s, p)| ==> Slots(s, p)[i].contentsStart <= |s|
    decreases |s| - p
  {
    hide RangeAt, IndexOf, JsSlice;
    if p < |s| {
      SlotsInside(s, p + 1);
      forall i | 0 <= i < |Slots(s, p)|
        ensures Slots(s, p)[i].contentsStart <= |s|
      {
        if i >= |SlotsAt(s, p)| {
          assert Slots(s, p)[i] == Slots(s, p + 1)[i - |SlotsAt(s, p)|];
        } else {
          assert Slots(s, p)[i] == SlotsAt(s, p)[i];
        }
      }
    }
  }

  lemma SlotJudgedSame(buf: string, out: string, slot: Slot, commits: Commitment)
    requires buf < out && slot.contentsStart <= |buf|
    ensures Kept(Judge(buf, slot, commits), Judge(out, slot, commits), |buf|)
  {
    hide ExtractDer;
    var r := slot.range;
    if r.b2 + r.b3 <= |buf| && r.b0 == 0 && r.b1 == slot.contentsStart && r.b2 == slot.contentsEnd {
      CoveredSame(buf, out, r);
    }
  }

  /** A range inside the old file covers the same bytes in the longer one. */
  lemma CoveredSame(buf: string, out: string, r: ByteRange)
    requires buf <= out && r.b0 == 0 && r.b1 <= |buf| && r.b2 + r.b3 <= |buf|
    ensures Covered(out, r) == Covered(buf, r)
  {
    assert out[..|buf|] == buf;
    assert out[0..r.b1] == buf[0..r.b1] && out[r.b2..r.b2 + r.b3] == buf[r.b2..r.b2 + r.b3];
  }

  lemma VerdictsConcat(pdf: string, slots: seq<Slot>, last: Slot, commits: Commitment)
    ensures Verdicts(pdf, slots + [last], commits) == Verdicts(pdf, slots, commits) + [Judge(pdf, last, commits)]
  {
    assert (slots + [last])[..|slots|] == slots;
  }

  /** The new signature is judged on exactly what was signed, and covers the whole file. */
  lemma NewVerdict(out: string, r: ByteRange, hex: string, commits: Commitment)
    requires r.b0 == 0 && r.b2 == r.b1 + |hex| + 2 && r.b2 + r.b3 == |out|
    ensures var v := Judge(out, SlotWith(r, hex), commits);
      && v.range == r && v.coversBytes == |out| && v.coversWholeFile
      && (v.Valid() <==> ExtractDer(hex).Ok? && commits(ExtractDer(hex).value, Covered(out, r)))
  {
    hide ExtractDer, Covered;
  }

  /** The signed content of a prepared slot is what the filled file covers. */
  lemma SignedContentKept(buf: string, doc: Index, num: nat, opts: Appearance, der: seq<byte>)
    requires Succeeds(buf, doc, num, opts, der)
    ensures StartXref(buf).Ok? && |der| <= opts.reserved && Prepare(buf, opts).Ok?
    ensures Prepare(buf, opts).value.signedContent ==
      Covered(SignedFile(buf, doc, num, opts, der), NewestRange(buf, doc, num, opts))
    ensures Prepare(buf, opts).value.range == NewestRange(buf, doc, num, opts)
  {
    hide *;
    SucceedsFresh(buf, doc, num, opts, der);
    SucceedsParts(buf, doc, num, opts, der);
    PrepareOutcome(buf, doc, num, opts);
    SignedFileIs(buf, doc, num, opts, der);
    NewestRangeIs(buf, doc, num, opts);
    FreshParts(buf, doc, FieldOf(buf, doc, num), opts, FilledRange(NewestRange(buf, doc, num, opts)),
               Filling(der, 2 * opts.reserved));
    GapIgnored(buf, doc, FieldOf(buf, doc, num), opts, Zeros(2 * opts.reserved), Filling(der, 2 * opts.reserved));
  }

  lemma GapIgnored(buf: string, doc: Index, field: Object, opts: Appearance, x: string, y: string)
    requires StartXref(buf).Ok? && |x| == |y| == 2 * opts.reserved && Writable(RangeOf(buf, doc, field, opts))
    ensures var r := RangeOf(buf, doc, field, opts);
      Covered(NewFile(buf, doc, field, opts, FilledRange(r), x), r) ==
        Covered(NewFile(buf, doc, field, opts, FilledRange(r), y), r)
  {
    hide *;
    var r := RangeOf(buf, doc, field, opts);
    FilledRangeLength(r);
    NewFileIs(buf, doc, field, opts, FilledRange(r), x);
    NewFileIs(buf, doc, field, opts, FilledRange(r), y);
    Layout(buf, doc, field, opts, FilledRange(r), x);
    Layout(buf, doc, field, opts, FilledRange(r), y);
    BeforeIs(buf, doc, field, opts);
    RangeIs(buf, doc, field, opts);
    CoveredIgnoresGap(Before(buf, doc, field, opts), FilledRange(r), x, y, Post(buf, doc, field, opts));
  }

  lemma RangeIs(buf: string, doc: Index, field: Object, opts: Appearance)
    requires StartXref(buf).Ok?
    ensures RangeOf(buf, doc, field, opts) ==
      NewRange(Before(buf, doc, field, opts), 2 * opts.reserved, Post(buf, doc, field, opts))
  {
    hide Before, Post;
  }

  /** Signature N+1 does not disturb signatures 1..N: when every /ByteRange had its /Contents string, the report on the
      signed file is the old one with one verdict more, on the whole file, valid when the signature commits to the
      content handed to the signer. */
  lemma SignaturePreservation(buf: string, doc: Index, num: nat, opts: Appearance, der: seq<byte>, commits: Commitment)
    requires Succeeds(buf, doc, num, opts, der) && Closed(buf)
    ensures Prepare(buf, opts).Ok?
    ensures var (prior, out) := (Verify(buf, commits), Sign(buf, opts, der).value);
      var grown := Verify(out, commits);
      && buf < out && |grown| == |prior| + 1
      && (forall i :: 0 <= i < |prior| ==> Kept(prior[i], grown[i], |buf|))
      && grown[|prior|].coversBytes == |out| && grown[|prior|].coversWholeFile
      && grown[|prior|].range == Prepare(buf, opts).value.range
      && (DefiniteLength(der) ==> (grown[|prior|].Valid() <==> commits(der, Prepare(buf, opts).value.signedContent)))
  {
    hide *;
    SucceedsFresh(buf, doc, num, opts, der);
    SlotsAfterSigning(buf, doc, num, opts, der);
    SignedContentKept(buf, doc, num, opts, der);
    var out := SignedFile(buf, doc, num, opts, der);
    var (r, hex) := (NewestRange(buf, doc, num, opts), Filling(der, 2 * opts.reserved));
    VerifyIs(buf, commits);
    VerifyIs(out, commits);
    VerdictsConcat(out, Slots(buf, 0), SlotWith(r, hex), commits);
    SlotsInside(buf, 0);
    forall i | 0 <= i < |Slots(buf, 0)|
      ensures Kept(Verify(buf, commits)[i], Verify(out, commits)[i], |buf|)
    {
      SlotJudgedSame(buf, out, Slots(buf, 0)[i], commits);
    }
    FillingHex(der, 2 * opts.reserved);
    NewVerdict(out, r, hex, commits);
    FillingRecovers(der, opts.reserved);
  }

  lemma VerifyIs(pdf: string, commits: Commitment)
    ensures Verify(pdf, commits) == Verdicts(pdf, Slots(pdf, 0), commits)
  {
  }

  lemma FillingRecovers(der: seq<byte>, reserved: nat)
    requires |der| <= reserved
    ensures ExtractDer(Filling(der, 2 * reserved)) == Ok(der) <==> DefiniteLength(der)
  {
    hide ExtractDer, DefiniteLength;
    DerRecovery(der, reserved - |der|);
    assert 2 * reserved - 2 * |der| == 2 * (reserved - |der|);
  }

  /** A file that keeps a slot and its verdict keeps every byte the signature covers: whatever else the two files are, a
      covered byte cannot be changed while the signature stays valid, short of a collision between the two contents. */
  lemma TamperEvident(pdf: string, other: string, slot: Slot, moved: Slot, commits: Commitment)
    requires slot in Slots(pdf, 0) && moved in Slots(other, 0)
    requires moved.range == slot.range && moved.hex == slot.hex
    requires Judge(pdf, slot, commits).Valid() && Judge(other, moved, commits).Valid()
    ensures Agree(pdf, other, slot.range) || Clash(commits, Covered(pdf, slot.range), Covered(other, slot.range))
  {
    hide Slots, Judge, Agree, Clash;
    SlotsInside(pdf, 0);
    SlotsInside(other, 0);
    SignatureBinds(pdf, other, slot, moved, commits);
  }
}
