/** The two-phase ceremony (park, reopen, fill) and runs of any number of signings. */
module Ceremonies {
  import opened Text
  import opened PdfObjects
  import opened IncrementalSigner
  import opened RevisionProofs
  import opened SlotProofs
  import opened SigningProofs
  import opened QuietProofs
  import opened SigningTheorems
  import opened Verifier
  import opened Preservation
  import opened SignatureRuns

  // ---- Park and reopen ----------------------------------------------------------------------------

  lemma EmptySlotsSnoc(slots: seq<Slot>, last: Slot)
    ensures EmptySlots(slots + [last]) == EmptySlots(slots) + (if AllZeros(last.hex) then [last] else [])
  {
    assert (slots + [last])[..|slots|] == slots;
  }

  lemma PreparedSlots(buf: string, doc: Index, num: nat, opts: Appearance)
    requires Request(buf, doc, num, opts) && Prepare(buf, opts).Ok? && Closed(buf)
    ensures var slot := Prepare(buf, opts).value;
      && Slots(slot.buffer, 0) == Slots(buf, 0) + [SlotWith(slot.range, Zeros(2 * opts.reserved))]
      && slot.hexLength == 2 * opts.reserved && slot.gapStart == slot.range.b1
      && slot.range.b2 == slot.range.b1 + 2 * opts.reserved + 2
      && slot.signedContent == Covered(slot.buffer, slot.range)
      && slot.range.b2 + slot.range.b3 == |slot.buffer| && buf < slot.buffer
  {
    hide *;
    PrepareOutcome(buf, doc, num, opts);
    RequestTarget(buf, doc, num, opts);
    var field := FieldOf(buf, doc, num);
    var r := RangeOf(buf, doc, field, opts);
    FilledRangeLength(r);
    ZerosHex(2 * opts.reserved);
    FreshIs(buf, doc, field, opts, FilledRange(r), Zeros(2 * opts.reserved));
    SlotsOfFresh(buf, doc, field, opts, Zeros(2 * opts.reserved));
    RangeStart(buf, doc, field, opts);
  }

  lemma FreshIs(buf: string, doc: Index, field: Object, opts: Appearance, range: string, hex: string)
    requires Ready(buf, doc, field, opts) && |range| == 36 && RangeChars(range) && |hex| == 2 * opts.reserved
    requires AllHex(hex)
    requires StartXref(buf).Ok? && Writable(RangeOf(buf, doc, field, opts))
    ensures Fresh(buf, doc, field, opts, range, hex)
  {
    hide Ready, StartXref, RangeOf;
  }

  /** Reopening the parked bytes gives the slot back exactly when no earlier gap is all zeroes; otherwise it is refused
      as ambiguous. Only the number of the signature object is not restored. */
  lemma ReopenRoundTrip(buf: string, doc: Index, num: nat, opts: Appearance)
    requires Request(buf, doc, num, opts) && Prepare(buf, opts).Ok? && Closed(buf)
    ensures var slot := Prepare(buf, opts).value;
      Reopen(slot.buffer) ==
        if EmptySlots(Slots(buf, 0)) == [] then Ok(slot.(sigObjectNumber := -1))
        else Err("parked document has more than one unfilled signature slot")
  {
    hide Request, Prepare, Closed, Slots, Covered, EmptySlots;
    PreparedSlots(buf, doc, num, opts);
    var slot := Prepare(buf, opts).value;
    var grown := SlotWith(slot.range, Zeros(2 * opts.reserved));
    EmptySlotsSnoc(Slots(buf, 0), grown);
    assert AllZeros(grown.hex);
  }

  /** The gap of this slot, and of no other, is all zeroes. */
  predicate OnlyEmpty(slots: seq<Slot>, i: nat) {
    i < |slots| && AllZeros(slots[i].hex) && forall j :: 0 <= j < |slots| && j != i ==> !AllZeros(slots[j].hex)
  }

  /** Its range ends and resumes at its gap. */
  predicate Fitting(slots: seq<Slot>, i: nat) {
    i < |slots| && slots[i].range.b1 == slots[i].contentsStart && slots[i].range.b2 == slots[i].contentsEnd
  }

  lemma {:induction false} EmptyAre(slots: seq<Slot>)
    ensures EmptySlots(slots) == [] <==> forall j :: 0 <= j < |slots| ==> !AllZeros(slots[j].hex)
    ensures |EmptySlots(slots)| == 1 <==> exists i: nat :: OnlyEmpty(slots, i)
    ensures forall i: nat :: OnlyEmpty(slots, i) ==> i < |slots| && EmptySlots(slots) == [slots[i]]
  {
    hide AllZeros;
    if slots != [] {
      var m := |slots| - 1;
      var (front, last) := (slots[..m], slots[m]);
      EmptyAre(front);
      EmptySlotsSnoc(front, last);
      assert slots == front + [last];
      hide OnlyEmpty;
      forall i: nat
        ensures OnlyEmpty(slots, i) <==>
          if AllZeros(last.hex) then i == m && EmptySlots(front) == [] else OnlyEmpty(front, i)
      {
        OnlyEmptySnoc(front, last, i);
      }
      OnlyInside(slots);
      if AllZeros(last.hex) {
        assert EmptySlots(front) == [] ==> OnlyEmpty(slots, m);
      }
    }
  }

  lemma OnlyInside(slots: seq<Slot>)
    ensures forall i: nat :: OnlyEmpty(slots, i) ==> i < |slots|
  {
  }

  lemma OnlyEmptySnoc(front: seq<Slot>, last: Slot, i: nat)
    ensures OnlyEmpty(front + [last], i) <==>
      if AllZeros(last.hex) then i == |front| && (forall j :: 0 <= j < |front| ==> !AllZeros(front[j].hex))
      else OnlyEmpty(front, i)
  {
    hide AllZeros;
    var slots := front + [last];
    assert slots[|front|] == last && forall j :: 0 <= j < |front| ==> slots[j] == front[j];
  }

  /** A parked document is reopened exactly when one gap and no other is all zeroes and its range ends and resumes at
      the gap; what is then to be signed is what the range covers. */
  lemma ReopenExactly(pending: string)
    ensures var slots := Slots(pending, 0);
      && (Reopen(pending).Ok? <==> exists i: nat :: OnlyEmpty(slots, i) && Fitting(slots, i))
      && (Reopen(pending).Ok? ==>
            var slot := Reopen(pending).value;
            && slot.buffer == pending && slot.signedContent == Covered(pending, slot.range)
            && slot.gapStart == slot.range.b1 && slot.gapStart + slot.hexLength + 2 == slot.range.b2)
  {
    hide Slots, EmptySlots, AllZeros, Covered, OnlyEmpty;
    var slots := Slots(pending, 0);
    EmptyAre(slots);
    if |EmptySlots(slots)| == 1 {
      var i: nat :| OnlyEmpty(slots, i);
      TheEmptyOne(pending, i);
      if !Fitting(slots, i) {
        NoneFits(slots, i);
      }
    } else {
      assert forall i: nat :: !OnlyEmpty(slots, i);
    }
  }

  lemma TheEmptyOne(pending: string, i: nat)
    requires var slots := Slots(pending, 0); i < |slots| && EmptySlots(slots) == [slots[i]]
    ensures Reopen(pending).Ok? <==> Fitting(Slots(pending, 0), i)
  {
    hide Slots, EmptySlots;
  }

  lemma NoneFits(slots: seq<Slot>, i: nat)
    requires OnlyEmpty(slots, i) && !Fitting(slots, i)
    ensures forall j: nat :: !(OnlyEmpty(slots, j) && Fitting(slots, j))
  {
    hide AllZeros;
  }

  /** Completing on another instance yields the same bytes as signing inline. */
  lemma CompletedElsewhere(buf: string, doc: Index, num: nat, opts: Appearance, der: seq<byte>)
    requires Request(buf, doc, num, opts) && Prepare(buf, opts).Ok? && Closed(buf) && EmptySlots(Slots(buf, 0)) == []
    ensures Reopen(Prepare(buf, opts).value.buffer).Ok?
    ensures Embed(Reopen(Prepare(buf, opts).value.buffer).value, der) == Sign(buf, opts, der)
  {
    hide Request, Prepare, Closed, Slots, EmptySlots, Reopen, ToHex;
    ReopenRoundTrip(buf, doc, num, opts);
  }

  /** Whatever the slot, filling it changes only bytes strictly inside the gap. */
  lemma OnlyTheGapChanges(slot: PreparedSlot, der: seq<byte>, i: nat)
    requires Embed(slot, der).Ok? && i < |slot.buffer|
    ensures |Embed(slot, der).value| == |slot.buffer|
    ensures !(slot.gapStart < i <= slot.gapStart + slot.hexLength) ==> Embed(slot, der).value[i] == slot.buffer[i]
  {
    hide ToHex;
    var text := ToHex(der) + Zeros(slot.hexLength - |ToHex(der)|);
    OverwriteAt(slot.buffer, slot.gapStart + 1, text, i);
  }

  lemma OverwriteAt(s: string, pos: nat, text: string, i: nat)
    requires pos <= |s| && i < |s|
    ensures Overwrite(s, pos, text)[i] == if pos <= i < pos + |text| then text[i - pos] else s[i]
  {
  }

  // ---- Empty gaps ----------------------------------------------------------------------------------

  lemma {:induction false} ZeroHex(hex: string)
    requires AllHex(hex) && |hex| % 2 == 0 && forall i :: 0 <= i < |hex| ==> hex[i] == '0'
    ensures forall i :: 0 <= i < |FromHex(hex)| ==> FromHex(hex)[i] == 0
  {
    if hex != "" {
      ZeroHex(hex[..|hex| - 2]);
    }
  }

  // ---- Runs ---------------------------------------------------------------------------------------

  datatype Step = Step(opts: Appearance, der: seq<byte>)

  /** The documents of a run after its start; the run fails with its first failing signing. */
  function Replay(buf: string, steps: seq<Step>): Result<seq<string>>
    decreases |steps|
  {
    if steps == [] then Ok([])
    else
      match Sign(buf, steps[0].opts, steps[0].der)
      case Err(e) => Err(e)
      case Ok(next) =>
        match Replay(next, steps[1..])
        case Err(e) => Err(e)
        case Ok(rest) => Ok([next] + rest)
  }

  function Final(buf: string, docs: seq<string>): string {
    if docs == [] then buf else docs[|docs| - 1]
  }

  /** Every step names a field of the starting document and passes admissible texts. */
  ghost predicate Requests(buf: string, doc: Index, steps: seq<Step>, nums: seq<nat>) {
    && |nums| == |steps|
    && forall i :: 0 <= i < |steps| ==> GoodOptions(steps[i].opts) && Sole(buf, doc, steps[i].opts.fieldName, nums[i])
  }

  /** Every signature commits to the content its own slot asked it to sign. */
  ghost predicate Honest(buf: string, steps: seq<Step>, commits: Commitment)
    decreases |steps|
  {
    steps == [] ||
    (&& Prepare(buf, steps[0].opts).Ok? && DefiniteLength(steps[0].der)
     && commits(steps[0].der, Prepare(buf, steps[0].opts).value.signedContent)
     && Sign(buf, steps[0].opts, steps[0].der).Ok?
     && Honest(Sign(buf, steps[0].opts, steps[0].der).value, steps[1..], commits))
  }

  function Lengths(docs: seq<string>): (r: seq<nat>)
    ensures |r| == |docs| && forall i :: 0 <= i < |docs| ==> r[i] == |docs[i]|
  {
    seq(|docs|, i requires 0 <= i < |docs| => |docs[i]|)
  }

  /** Each document of the run is a strict prefix of the next. */
  ghost predicate Growing(buf: string, docs: seq<string>) {
    docs == [] || (buf < docs[0] && forall i :: 0 < i < |docs| ==> docs[i - 1] < docs[i])
  }

  function Covers(slots: seq<Slot>): (r: seq<nat>)
    ensures |r| == |slots| && forall i :: 0 <= i < |slots| ==> r[i] == slots[i].range.b2 + slots[i].range.b3
  {
    seq(|slots|, i requires 0 <= i < |slots| => slots[i].range.b2 + slots[i].range.b3)
  }

  lemma StepSucceeds(buf: string, doc: Index, steps: seq<Step>, nums: seq<nat>)
    requires Signable(buf, doc) && Requests(buf, doc, steps, nums) && steps != [] && Replay(buf, steps).Ok?
    ensures |nums| == |steps| && Succeeds(buf, doc, nums[0], steps[0].opts, steps[0].der)
  {
    hide Signable, GoodOptions, Sole, Sign;
  }

  /** After the first step the remaining requests are still requests of the longer document. */
  lemma RequestsKept(buf: string, doc: Index, steps: seq<Step>, nums: seq<nat>)
    requires Signable(buf, doc) && Requests(buf, doc, steps, nums) && steps != [] && Replay(buf, steps).Ok?
    ensures StartXref(buf).Ok? && |steps[0].der| <= steps[0].opts.reserved && |nums| == |steps|
    ensures var (out, grown) := (SignedFile(buf, doc, nums[0], steps[0].opts, steps[0].der),
                                 SignedDoc(buf, doc, nums[0], steps[0].opts, steps[0].der));
      && Sign(buf, steps[0].opts, steps[0].der) == Ok(out)
      && Signable(out, grown) && Requests(out, grown, steps[1..], nums[1..])
      && Replay(out, steps[1..]).Ok? && Replay(buf, steps).value == [out] + Replay(out, steps[1..]).value
  {
    hide Signable, GoodOptions, Sole, Sign, StartXref, SignedFile, SignedDoc, AlreadySigned, Succeeds;
    StepSucceeds(buf, doc, steps, nums);
    SucceedsFacts(buf, doc, nums[0], steps[0].opts, steps[0].der);
    var (out, grown) := (SignedFile(buf, doc, nums[0], steps[0].opts, steps[0].der),
                         SignedDoc(buf, doc, nums[0], steps[0].opts, steps[0].der));
    assert Sign(buf, steps[0].opts, steps[0].der) == Ok(out);
    SigningKeepsFields(buf, doc, nums[0], steps[0].opts, steps[0].der, "", 0);
    forall i | 0 <= i < |steps[1..]|
      ensures GoodOptions(steps[1..][i].opts) && Sole(out, grown, steps[1..][i].opts.fieldName, nums[1..][i])
    {
      assert steps[1..][i] == steps[i + 1] && nums[1..][i] == nums[i + 1];
      SigningKeepsFields(buf, doc, nums[0], steps[0].opts, steps[0].der, steps[i + 1].opts.fieldName, nums[i + 1]);
    }
  }

  lemma SucceedsFacts(buf: string, doc: Index, num: nat, opts: Appearance, der: seq<byte>)
    requires Succeeds(buf, doc, num, opts, der)
    ensures StartXref(buf).Ok? && |der| <= opts.reserved
    ensures Sign(buf, opts, der) == Ok(SignedFile(buf, doc, num, opts, der))
    ensures !AlreadySigned(BodyOf(buf, doc, num))
  {
    hide *;
    SucceedsFresh(buf, doc, num, opts, der);
  }

  /** A run of signings: every document is a strict prefix of the next, the slots are the old ones and one per step,
      and the k-th new signature covers exactly the k-th document. */
  lemma {:induction false} RunCoverage(buf: string, doc: Index, steps: seq<Step>, nums: seq<nat>)
    requires Signable(buf, doc) && Closed(buf) && Requests(buf, doc, steps, nums) && Replay(buf, steps).Ok?
    ensures var docs := Replay(buf, steps).value; var out := Final(buf, docs);
      && |docs| == |steps| && Growing(buf, docs) && Closed(out)
      && |Slots(out, 0)| == |Slots(buf, 0)| + |steps| && Slots(buf, 0) <= Slots(out, 0)
      && Covers(Slots(out, 0)) == Covers(Slots(buf, 0)) + Lengths(docs)
    decreases |steps|
  {
    hide Signable, Closed, Requests, Replay, Slots, Sign, SignedFile, SignedDoc, NewestRange, Filling, Succeeds,
      StartXref;
    if steps == [] {
      EmptyRun(buf);
    } else {
      StepSucceeds(buf, doc, steps, nums);
      RequestsKept(buf, doc, steps, nums);
      SlotsAfterSigning(buf, doc, nums[0], steps[0].opts, steps[0].der);
      var (out, grown) := (SignedFile(buf, doc, nums[0], steps[0].opts, steps[0].der),
                           SignedDoc(buf, doc, nums[0], steps[0].opts, steps[0].der));
      RunCoverage(out, grown, steps[1..], nums[1..]);
      var rest := Replay(out, steps[1..]).value;
      RunStep(buf, out, rest);
      var hex := Filling(steps[0].der, 2 * steps[0].opts.reserved);
      CoversStep(Slots(buf, 0), NewestRange(buf, doc, nums[0], steps[0].opts), hex, Slots(out, 0),
                 Slots(Final(out, rest), 0), out, rest);
    }
  }

  lemma EmptyRun(buf: string)
    ensures Replay(buf, []) == Ok([])
  {
  }

  lemma RunStep(buf: string, out: string, rest: seq<string>)
    requires buf < out && Growing(out, rest)
    ensures Growing(buf, [out] + rest) && Final(buf, [out] + rest) == Final(out, rest)
  {
    var docs := [out] + rest;
    forall i | 0 < i < |docs|
      ensures docs[i - 1] < docs[i]
    {
      assert docs[i] == rest[i - 1];
      if i > 1 {
        assert docs[i - 1] == rest[i - 2];
      }
    }
  }

  lemma CoversStep(prior: seq<Slot>, r: ByteRange, hex: string, mid: seq<Slot>, all: seq<Slot>, out: string,
                   rest: seq<string>)
    requires mid == prior + [SlotWith(r, hex)] && r.b2 + r.b3 == |out| && Covers(all) == Covers(mid) + Lengths(rest)
    ensures Covers(all) == Covers(prior) + Lengths([out] + rest)
  {
    assert Covers(mid) == Covers(prior) + [|out|];
    assert Lengths([out] + rest) == [|out|] + Lengths(rest);
  }

  /** Only the newest signature covers the whole file. */
  lemma OnlyLastCoversAll(buf: string, doc: Index, steps: seq<Step>, nums: seq<nat>, commits: Commitment, i: nat)
    requires Signable(buf, doc) && Closed(buf) && Requests(buf, doc, steps, nums) && Replay(buf, steps).Ok?
    requires steps != []
    requires var out := Final(buf, Replay(buf, steps).value); i < |Verify(out, commits)|
    requires forall j :: 0 <= j < |Slots(buf, 0)| ==> Covers(Slots(buf, 0))[j] <= |buf|
    ensures var out := Final(buf, Replay(buf, steps).value);
      Verify(out, commits)[i].coversWholeFile <==> i == |Verify(out, commits)| - 1
  {
    hide Signable, Closed, Requests, Replay, Slots, Issues;
    RunCoverage(buf, doc, steps, nums);
    var docs := Replay(buf, steps).value;
    var out := Final(buf, docs);
    var n := |Slots(buf, 0)|;
    assert Covers(Slots(out, 0))[i] == (if i < n then Covers(Slots(buf, 0))[i] else Lengths(docs)[i - n]);
    if i < n {
      GrowingFrom(buf, docs, |docs| - 1);
    } else {
      GrowingBetween(buf, docs, i - n, |docs| - 1);
    }
  }

  lemma {:induction false} GrowingFrom(buf: string, docs: seq<string>, k: nat)
    requires Growing(buf, docs) && k < |docs|
    ensures |buf| < |docs[k]|
  {
    if k > 0 {
      GrowingFrom(buf, docs, k - 1);
      assert docs[k - 1] < docs[k];
    }
  }

  lemma {:induction false} GrowingBetween(buf: string, docs: seq<string>, i: nat, k: nat)
    requires Growing(buf, docs) && i <= k < |docs|
    ensures i < k ==> |docs[i]| < |docs[k]|
    decreases k
  {
    if i < k {
      GrowingBetween(buf, docs, i, k - 1);
      assert docs[k - 1] < docs[k];
    }
  }

  /** A run of honest signings of a document whose signatures are all valid leaves all of them valid. */
  lemma {:induction false} HonestRunValid(buf: string, doc: Index, steps: seq<Step>, nums: seq<nat>,
                                          commits: Commitment)
    requires Signable(buf, doc) && Closed(buf) && Requests(buf, doc, steps, nums) && Replay(buf, steps).Ok?
    requires AllValid(Verify(buf, commits)) && Honest(buf, steps, commits)
    ensures AllValid(Verify(Final(buf, Replay(buf, steps).value), commits))
    decreases |steps|
  {
    hide Signable, Closed, Requests, Replay, Sign, SignedFile, SignedDoc, NewestRange, Filling, Succeeds, StartXref,
      Prepare, Verify, DefiniteLength, AllValid;
    if steps == [] {
      EmptyRun(buf);
    } else {
      StepSucceeds(buf, doc, steps, nums);
      RequestsKept(buf, doc, steps, nums);
      SlotsAfterSigning(buf, doc, nums[0], steps[0].opts, steps[0].der);
      SigningKeepsValid(buf, doc, nums[0], steps[0].opts, steps[0].der, commits);
      var (out, grown) := (SignedFile(buf, doc, nums[0], steps[0].opts, steps[0].der),
                           SignedDoc(buf, doc, nums[0], steps[0].opts, steps[0].der));
      HonestRunValid(out, grown, steps[1..], nums[1..], commits);
    }
  }

  lemma SigningKeepsValid(buf: string, doc: Index, num: nat, opts: Appearance, der: seq<byte>, commits: Commitment)
    requires Succeeds(buf, doc, num, opts, der) && Closed(buf) && AllValid(Verify(buf, commits)) && DefiniteLength(der)
    requires Prepare(buf, opts).Ok? && commits(der, Prepare(buf, opts).value.signedContent)
    ensures AllValid(Verify(Sign(buf, opts, der).value, commits))
    ensures |Verify(Sign(buf, opts, der).value, commits)| == |Verify(buf, commits)| + 1
  {
    hide *;
    SucceedsFacts(buf, doc, num, opts, der);
    SignaturePreservation(buf, doc, num, opts, der, commits);
    var (prior, grown) := (Verify(buf, commits), Verify(Sign(buf, opts, der).value, commits));
    forall i | 0 <= i < |grown|
      ensures grown[i].Valid()
    {
      if i < |prior| {
        OldStaysValid(buf, commits, i, grown[i]);
      }
    }
    AllAre(grown);
  }

  lemma AllAre(verdicts: seq<Verdict>)
    requires forall i :: 0 <= i < |verdicts| ==> verdicts[i].Valid()
    ensures AllValid(verdicts)
  {
  }

  lemma OldStaysValid(buf: string, commits: Commitment, i: nat, after: Verdict)
    requires AllValid(Verify(buf, commits)) && i < |Verify(buf, commits)| && Kept(Verify(buf, commits)[i], after, |buf|)
    ensures after.Valid()
  {
    hide Slots, Issues;
    assert Verify(buf, commits)[i].Valid();
    ValidCovers(buf, Slots(buf, 0)[i], commits);
  }

  /** A valid signature claims only bytes that exist. */
  lemma ValidCovers(pdf: string, slot: Slot, commits: Commitment)
    ensures Judge(pdf, slot, commits).Valid() ==> Judge(pdf, slot, commits).coversBytes <= |pdf|
  {
    hide ExtractDer, Covered;
  }

  /** Which fields are signed after a run: those signed before and those the run named, each at most once. */
  lemma {:induction false} RunFields(buf: string, doc: Index, steps: seq<Step>, nums: seq<nat>, name: string, k: nat)
    returns (last: Index)
    requires Signable(buf, doc) && Requests(buf, doc, steps, nums) && Replay(buf, steps).Ok? && Sole(buf, doc, name, k)
    ensures var out := Final(buf, Replay(buf, steps).value);
      && Signable(out, last) && Sole(out, last, name, k)
      && (AlreadySigned(BodyOf(out, last, k)) <==> k in nums || AlreadySigned(BodyOf(buf, doc, k)))
    ensures forall i :: 0 <= i < |nums| ==> nums[i] == k ==> !AlreadySigned(BodyOf(buf, doc, k))
    ensures forall i, j :: 0 <= i < j < |nums| ==> nums[i] == k ==> nums[j] != k
    decreases |steps|
  {
    hide Signable, Requests, Replay, Sign, SignedFile, SignedDoc, Succeeds, StartXref, AlreadySigned, Sole, BodyOf;
    if steps == [] {
      EmptyRun(buf);
      last := doc;
      assert nums == [] by { NoRequests(buf, doc, nums); }
    } else {
      StepSucceeds(buf, doc, steps, nums);
      RequestsKept(buf, doc, steps, nums);
      SucceedsFacts(buf, doc, nums[0], steps[0].opts, steps[0].der);
      SigningKeepsFields(buf, doc, nums[0], steps[0].opts, steps[0].der, name, k);
      var (out, grown) := (SignedFile(buf, doc, nums[0], steps[0].opts, steps[0].der),
                           SignedDoc(buf, doc, nums[0], steps[0].opts, steps[0].der));
      last := RunFields(out, grown, steps[1..], nums[1..], name, k);
      assert Final(buf, Replay(buf, steps).value) == Final(out, Replay(out, steps[1..]).value);
      assert nums == [nums[0]] + nums[1..];
    }
  }

  lemma NoRequests(buf: string, doc: Index, nums: seq<nat>)
    requires Requests(buf, doc, [], nums)
    ensures nums == []
  {
  }
}
