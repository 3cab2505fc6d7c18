/** Documents signed by the parties in order, starting from a prepared baseline. */
module Executions {
  import opened Text
  import opened PdfObjects
  import opened IncrementalSigner
  import opened RevisionProofs
  import opened SlotProofs
  import opened SigningProofs
  import opened QuietProofs
  import opened SigningTheorems
  import opened Verifier
  import opened Preservation
  import opened SignatureRuns
  import opened Ceremonies
  import opened Protocol

  /** A prepared document: it can be signed, carries no signature, and has the three parties' fields, all unsigned. */
  ghost predicate BaselineWith(base: string, doc: Index, nums: seq<nat>) {
    && Signable(base, doc) && Closed(base) && Slots(base, 0) == [] && |nums| == 3
    && (forall i :: 0 <= i < 3 ==>
          Sole(base, doc, FieldName(ORDER[i]), nums[i]) && !AlreadySigned(BodyOf(base, doc, nums[i])))
    && forall i, j :: 0 <= i < j < 3 ==> nums[i] != nums[j]
  }

  ghost predicate Baseline(base: string) {
    exists doc, nums :: BaselineWith(base, doc, nums)
  }

  /** The steps are the first parties' in order, with admissible texts. */
  ghost predicate InOrder(steps: seq<Step>) {
    |steps| <= 3 && forall i :: 0 <= i < |steps| ==>
      GoodOptions(steps[i].opts) && steps[i].opts.fieldName == FieldName(ORDER[i])
  }

  ghost predicate Execution(commits: Commitment, base: string, steps: seq<Step>, bytes: string) {
    && Baseline(base) && InOrder(steps) && Replay(base, steps).Ok? && bytes == Final(base, Replay(base, steps).value)
    && AllValid(Verify(bytes, commits))
  }

  /** `bytes` is `base` with the signatures of the first `k` parties, applied in order, all of them valid. */
  ghost predicate Executed(commits: Commitment, base: string, bytes: string, k: nat) {
    exists steps :: |steps| == k && Execution(commits, base, steps, bytes)
  }

  lemma BaselineExecuted(commits: Commitment, base: string)
    requires Baseline(base)
    ensures Executed(commits, base, base, 0)
  {
    hide BaselineWith;
    EmptyRun(base);
    var doc, nums :| BaselineWith(base, doc, nums);
    assert Verify(base, commits) == [] by { NoSlots(base, doc, nums, commits); }
    assert Execution(commits, base, [], base);
  }

  lemma NoSlots(base: string, doc: Index, nums: seq<nat>, commits: Commitment)
    requires BaselineWith(base, doc, nums)
    ensures Verify(base, commits) == [] && Signable(base, doc) && Closed(base) && Slots(base, 0) == [] && |nums| == 3
  {
    hide Signable, Closed, Slots, Sole, AlreadySigned;
  }

  lemma BaselineRequests(base: string, doc: Index, nums: seq<nat>, steps: seq<Step>)
    requires BaselineWith(base, doc, nums) && InOrder(steps)
    ensures Requests(base, doc, steps, nums[..|steps|])
  {
    hide Signable, Closed, Slots, Sole, AlreadySigned, GoodOptions;
  }

  /** What is known of a document `k` parties have signed. */
  ghost predicate Signed(commits: Commitment, base: string, bytes: string, doc: Index, nums: seq<nat>, k: nat) {
    && Signable(bytes, doc) && Closed(bytes) && |nums| == 3 && |Slots(bytes, 0)| == k && base <= bytes
    && AllValid(Verify(bytes, commits))
    && forall i :: 0 <= i < 3 ==>
      Sole(bytes, doc, FieldName(ORDER[i]), nums[i]) && (AlreadySigned(BodyOf(bytes, doc, nums[i])) <==> i < k)
  }

  /** Such a document has exactly `k` signatures, all valid, in the widgets of the first `k` parties; its other fields
      are unsigned and it extends its baseline. */
  lemma ExecutedFacts(commits: Commitment, base: string, bytes: string, steps: seq<Step>)
    returns (doc: Index, nums: seq<nat>)
    requires Execution(commits, base, steps, bytes)
    ensures Signed(commits, base, bytes, doc, nums, |steps|)
  {
    hide Signable, Closed, Slots, Sole, AlreadySigned, BaselineWith, Requests, Replay, InOrder, Verify, AllValid,
      BodyOf, Growing, Covers;
    var doc0, nums0 :| BaselineWith(base, doc0, nums0);
    BaselineRequests(base, doc0, nums0, steps);
    NoSlots(base, doc0, nums0, commits);
    nums := nums0;
    StepCount(steps);
    RunCoverage(base, doc0, steps, nums[..|steps|]);
    FinalExtends(base, Replay(base, steps).value);
    doc := FieldsAfter(base, doc0, steps, nums, 0);
    var doc1 := FieldsAfter(base, doc0, steps, nums, 1);
    var doc2 := FieldsAfter(base, doc0, steps, nums, 2);
    SignableUnique(bytes, doc, doc1);
    SignableUnique(bytes, doc, doc2);
    SignedIs(commits, base, bytes, doc, nums, |steps|);
  }

  lemma StepCount(steps: seq<Step>)
    requires InOrder(steps)
    ensures |steps| <= 3
  {
  }

  lemma FinalExtends(buf: string, docs: seq<string>)
    requires Growing(buf, docs)
    ensures buf <= Final(buf, docs)
  {
    if docs != [] {
      ExtendsAll(buf, docs, |docs| - 1);
    }
  }

  lemma {:induction false} ExtendsAll(buf: string, docs: seq<string>, k: nat)
    requires Growing(buf, docs) && k < |docs|
    ensures buf <= docs[k]
  {
    if k > 0 {
      ExtendsAll(buf, docs, k - 1);
      assert docs[k - 1] < docs[k];
    }
  }

  lemma SignableUnique(bytes: string, a: Index, b: Index)
    requires Signable(bytes, a) && Signable(bytes, b)
    ensures a == b
  {
    hide Signable, Parse;
    SignableParsed(bytes, a);
    SignableParsed(bytes, b);
  }

  lemma SignedIs(commits: Commitment, base: string, bytes: string, doc: Index, nums: seq<nat>, k: nat)
    requires Signable(bytes, doc) && Closed(bytes) && |nums| == 3 && |Slots(bytes, 0)| == k && base <= bytes
    requires AllValid(Verify(bytes, commits))
    requires Sole(bytes, doc, FieldName(ORDER[0]), nums[0]) && (AlreadySigned(BodyOf(bytes, doc, nums[0])) <==> 0 < k)
    requires Sole(bytes, doc, FieldName(ORDER[1]), nums[1]) && (AlreadySigned(BodyOf(bytes, doc, nums[1])) <==> 1 < k)
    requires Sole(bytes, doc, FieldName(ORDER[2]), nums[2]) && (AlreadySigned(BodyOf(bytes, doc, nums[2])) <==> 2 < k)
    ensures Signed(commits, base, bytes, doc, nums, k)
  {
    hide Signable, Closed, Slots, Sole, AlreadySigned, BodyOf, Verify, AllValid;
    forall i | 0 <= i < 3
      ensures Sole(bytes, doc, FieldName(ORDER[i]), nums[i]) && (AlreadySigned(BodyOf(bytes, doc, nums[i])) <==> i < k)
    {
      assert i == 0 || i == 1 || i == 2;
    }
  }

  lemma FieldsAfter(base: string, doc: Index, steps: seq<Step>, nums: seq<nat>, i: nat) returns (last: Index)
    requires BaselineWith(base, doc, nums) && InOrder(steps) && Replay(base, steps).Ok? && i < 3
    ensures var out := Final(base, Replay(base, steps).value);
      && Signable(out, last) && |nums| == 3
      && Sole(out, last, FieldName(ORDER[i]), nums[i]) && (AlreadySigned(BodyOf(out, last, nums[i])) <==> i < |steps|)
  {
    hide Signable, Closed, Slots, Sole, AlreadySigned, Requests, Replay, InOrder, BodyOf;
    BaselineRequests(base, doc, nums, steps);
    StepCount(steps);
    last := RunFields(base, doc, steps, nums[..|steps|], FieldName(ORDER[i]), nums[i]);
    assert nums[i] in nums[..|steps|] <==> i < |steps|;
  }

  lemma SignedPart(commits: Commitment, base: string, bytes: string, doc: Index, nums: seq<nat>, k: nat, p: Party)
    requires Signed(commits, base, bytes, doc, nums, k)
    ensures Signable(bytes, doc) && Closed(bytes) && |Slots(bytes, 0)| == k && AllValid(Verify(bytes, commits))
    ensures base <= bytes && |nums| == 3
    ensures Sole(bytes, doc, FieldName(p), nums[Rank(p)])
    ensures (AlreadySigned(BodyOf(bytes, doc, nums[Rank(p)])) <==> Rank(p) < k)
  {
    hide Signable, Closed, Slots, Sole, AlreadySigned, BodyOf, Verify, AllValid;
    assert ORDER[Rank(p)] == p;
  }

  // ---- One signature more -------------------------------------------------------------------------

  /** A document whose signatures are all valid has no empty gap. */
  lemma ValidNotEmpty(pdf: string, commits: Commitment)
    requires AllValid(Verify(pdf, commits))
    ensures EmptySlots(Slots(pdf, 0)) == []
  {
    hide Slots, Issues;
    forall i | 0 <= i < |Slots(pdf, 0)|
      ensures !AllZeros(Slots(pdf, 0)[i].hex)
    {
      assert Verify(pdf, commits)[i].Valid();
      ValidSlotFilled(pdf, Slots(pdf, 0)[i], commits);
    }
    NoneEmpty(Slots(pdf, 0));
  }

  lemma {:induction false} NoneEmpty(slots: seq<Slot>)
    requires forall i :: 0 <= i < |slots| ==> !AllZeros(slots[i].hex)
    ensures EmptySlots(slots) == []
  {
    if slots != [] {
      NoneEmpty(slots[..|slots| - 1]);
    }
  }

  lemma ValidSlotFilled(pdf: string, slot: Slot, commits: Commitment)
    requires Judge(pdf, slot, commits).Valid()
    ensures !AllZeros(slot.hex)
  {
    hide StatedLength, Covered, FromHex;
    assert ExtractDer(slot.hex).Ok?;
    if AllZeros(slot.hex) {
      ZeroGapRefused(slot.hex);
      assert false;
    }
  }

  lemma ZeroGapRefused(hex: string)
    requires AllZeros(hex)
    ensures ExtractDer(hex).Err?
  {
    hide FromHex, Cleaned, BigEndian, HexValue;
    CleanedHex(hex);
    var h := if |hex| % 2 == 0 then hex else hex + "0";
    ZeroHex(h);
    assert GapBytes(hex) == FromHex(h);
  }

  lemma {:induction false} ReplaySnoc(buf: string, steps: seq<Step>, s: Step)
    requires Replay(buf, steps).Ok? && Sign(Final(buf, Replay(buf, steps).value), s.opts, s.der).Ok?
    ensures Replay(buf, steps + [s]) ==
      Ok(Replay(buf, steps).value + [Sign(Final(buf, Replay(buf, steps).value), s.opts, s.der).value])
    decreases |steps|
  {
    hide Sign;
    if steps == [] {
      assert ([] + [s])[1..] == [];
      var next := Sign(buf, s.opts, s.der).value;
      EmptyRun(next);
      EmptyRun(buf);
      assert steps + [s] == [s] && [s][1..] == [];
      ReplayStep(buf, [s], next);
      assert [next] + [] == [] + [next];
    } else {
      var next := Sign(buf, steps[0].opts, steps[0].der).value;
      assert (steps + [s])[1..] == steps[1..] + [s];
      var rest := Replay(next, steps[1..]).value;
      assert Final(buf, [next] + rest) == Final(next, rest);
      ReplaySnoc(next, steps[1..], s);
      var last := Sign(Final(next, rest), s.opts, s.der).value;
      assert Replay(next, steps[1..] + [s]) == Ok(rest + [last]);
      assert [next] + (rest + [last]) == ([next] + rest) + [last];
      ReplayStep(buf, steps + [s], next);
      ReplayStep(buf, steps, next);
    }
  }

  lemma ReplayStep(buf: string, steps: seq<Step>, next: string)
    requires steps != [] && Sign(buf, steps[0].opts, steps[0].der) == Ok(next) && Replay(next, steps[1..]).Ok?
    ensures Replay(buf, steps) == Ok([next] + Replay(next, steps[1..]).value)
  {
    hide Sign;
  }

  /** The one signature more that a party adds: whatever was parked for the party, filling it and passing the check on
      the count and on every signature makes the party the next one in order. */
  lemma SignatureExtends(commits: Commitment, base: string, src: string, k: nat, p: Party, opts: Appearance,
                         slot: PreparedSlot, der: seq<byte>, out: string)
    requires Executed(commits, base, src, k)
    requires GoodOptions(opts) && opts.fieldName == FieldName(p)
    requires Prepare(src, opts).Ok? && Reopen(Prepare(src, opts).value.buffer) == Ok(slot)
    requires Embed(slot, der) == Ok(out)
    requires AssertIntegrity(out, Rank(p) + 1, commits) == Intact
    ensures Rank(p) == k && Executed(commits, base, out, k + 1)
  {
    hide *;
    var steps := ExecutionOf(commits, base, src, k);
    var doc, nums := ExecutedFacts(commits, base, src, steps);
    var s := Step(opts, der);
    NextSlot(commits, base, src, doc, nums, k, p, opts, slot, der, out);
    IntactMeans(out, Rank(p) + 1, commits);
    ExecutionParts(commits, base, steps, src);
    ReplaySnoc(base, steps, s);
    NextExecution(commits, base, steps, src, s, out, p);
  }

  lemma ExecutionOf(commits: Commitment, base: string, bytes: string, k: nat) returns (steps: seq<Step>)
    requires Executed(commits, base, bytes, k)
    ensures |steps| == k && Execution(commits, base, steps, bytes)
  {
    hide Execution;
    steps :| |steps| == k && Execution(commits, base, steps, bytes);
  }

  lemma ExecutionParts(commits: Commitment, base: string, steps: seq<Step>, bytes: string)
    requires Execution(commits, base, steps, bytes)
    ensures Replay(base, steps).Ok? && bytes == Final(base, Replay(base, steps).value)
  {
    hide Baseline, InOrder, Replay, Verify;
  }

  lemma NextSlot(commits: Commitment, base: string, src: string, doc: Index, nums: seq<nat>, k: nat, p: Party,
                 opts: Appearance, slot: PreparedSlot, der: seq<byte>, out: string)
    requires Signed(commits, base, src, doc, nums, k)
    requires GoodOptions(opts) && opts.fieldName == FieldName(p)
    requires Prepare(src, opts).Ok? && Reopen(Prepare(src, opts).value.buffer) == Ok(slot)
    requires Embed(slot, der) == Ok(out)
    ensures Sign(src, opts, der) == Ok(out) && |nums| == 3
    ensures Succeeds(src, doc, nums[Rank(p)], opts, der)
    ensures |Slots(out, 0)| == k + 1
  {
    hide *;
    SignedPart(commits, base, src, doc, nums, k, p);
    ValidNotEmpty(src, commits);
    RequestIs(src, doc, nums[Rank(p)], opts);
    CompletedElsewhere(src, doc, nums[Rank(p)], opts, der);
    SucceedsIs(src, doc, nums[Rank(p)], opts, der);
    SucceedsFacts(src, doc, nums[Rank(p)], opts, der);
    SlotsAfterSigning(src, doc, nums[Rank(p)], opts, der);
  }

  lemma SucceedsIs(buf: string, doc: Index, num: nat, opts: Appearance, der: seq<byte>)
    requires Request(buf, doc, num, opts) && Sign(buf, opts, der).Ok?
    ensures Succeeds(buf, doc, num, opts, der)
  {
    hide Request, Sign;
  }

  lemma IntactMeans(pdf: string, expected: nat, commits: Commitment)
    requires AssertIntegrity(pdf, expected, commits) == Intact
    ensures |Slots(pdf, 0)| == expected && AllValid(Verify(pdf, commits))
  {
    hide Slots;
  }

  lemma NextExecution(commits: Commitment, base: string, steps: seq<Step>, src: string, s: Step, out: string, p: Party)
    requires Execution(commits, base, steps, src) && |steps| == Rank(p)
    requires GoodOptions(s.opts) && s.opts.fieldName == FieldName(p)
    requires Replay(base, steps + [s]) == Ok(Replay(base, steps).value + [out]) && AllValid(Verify(out, commits))
    ensures Executed(commits, base, out, |steps| + 1)
  {
    hide Baseline, Replay, Verify, AllValid, GoodOptions;
    var all := steps + [s];
    assert ORDER[Rank(p)] == p;
    assert InOrder(all);
    assert Execution(commits, base, all, out);
  }

  /** Whatever is filled into a slot prepared on such a document, the earlier signatures stay valid: only the newest can
      make the check fail. */
  lemma EarlierStayValid(commits: Commitment, base: string, src: string, k: nat, p: Party, opts: Appearance,
                         slot: PreparedSlot, der: seq<byte>, out: string)
    requires Executed(commits, base, src, k)
    requires GoodOptions(opts) && opts.fieldName == FieldName(p)
    requires Prepare(src, opts).Ok? && Reopen(Prepare(src, opts).value.buffer) == Ok(slot)
    requires Embed(slot, der) == Ok(out)
    ensures |Verify(out, commits)| == k + 1
    ensures forall i :: 0 <= i < k ==> Verify(out, commits)[i].Valid()
  {
    hide *;
    var steps := ExecutionOf(commits, base, src, k);
    var doc, nums := ExecutedFacts(commits, base, src, steps);
    NextSlot(commits, base, src, doc, nums, k, p, opts, slot, der, out);
    SignedPart(commits, base, src, doc, nums, k, p);
    SignaturePreservation(src, doc, nums[Rank(p)], opts, der, commits);
    VerdictsOf(src, commits);
    forall i | 0 <= i < k
      ensures Verify(out, commits)[i].Valid()
    {
      OldStaysValid(src, commits, i, Verify(out, commits)[i]);
    }
  }

  lemma VerdictsOf(pdf: string, commits: Commitment)
    ensures |Verify(pdf, commits)| == |Slots(pdf, 0)|
  {
    hide Slots;
  }

  /** The newest signature of a filled document covers what the slot asked to be signed and holds the signature
      given. */
  ghost predicate NewestHolds(src: string, out: string, k: nat, slot: PreparedSlot, der: seq<byte>) {
    && src < out && |out| == |slot.buffer| && |Slots(out, 0)| == k + 1
    && var z := Slots(out, 0)[k];
    && z.range.b0 == 0 && z.range.b2 + z.range.b3 == |out| && Covered(out, z.range) == slot.signedContent
    && (DefiniteLength(der) ==> ExtractDer(z.hex) == Ok(der))
  }

  lemma NewestSignature(commits: Commitment, base: string, src: string, k: nat, p: Party, opts: Appearance,
                        slot: PreparedSlot, der: seq<byte>, out: string)
    requires Executed(commits, base, src, k)
    requires GoodOptions(opts) && opts.fieldName == FieldName(p)
    requires Prepare(src, opts).Ok? && Reopen(Prepare(src, opts).value.buffer) == Ok(slot)
    requires Embed(slot, der) == Ok(out)
    ensures NewestHolds(src, out, k, slot, der)
  {
    hide *;
    var steps := ExecutionOf(commits, base, src, k);
    var doc, nums := ExecutedFacts(commits, base, src, steps);
    NextSlot(commits, base, src, doc, nums, k, p, opts, slot, der, out);
    SignedPart(commits, base, src, doc, nums, k, p);
    ValidNotEmpty(src, commits);
    var num := nums[Rank(p)];
    RequestIs(src, doc, num, opts);
    ReopenRoundTrip(src, doc, num, opts);
    SlotsAfterSigning(src, doc, num, opts, der);
    SignedContentKept(src, doc, num, opts, der);
    SucceedsFacts(src, doc, num, opts, der);
    FillingRecovers(der, opts.reserved);
    OnlyTheGapChanges(slot, der, 0) by { BufferNotEmpty(src, doc, num, opts); }
    NewestIs(src, out, k, slot, der, NewestRange(src, doc, num, opts), Filling(der, 2 * opts.reserved));
  }

  lemma BufferNotEmpty(src: string, doc: Index, num: nat, opts: Appearance)
    requires Request(src, doc, num, opts) && Prepare(src, opts).Ok? && Closed(src)
    ensures |Prepare(src, opts).value.buffer| > 0
  {
    hide *;
    PreparedSlots(src, doc, num, opts);
  }

  lemma NewestIs(src: string, out: string, k: nat, slot: PreparedSlot, der: seq<byte>, r: ByteRange, hex: string)
    requires src < out && |out| == |slot.buffer| && |Slots(src, 0)| == k
    requires Slots(out, 0) == Slots(src, 0) + [SlotWith(r, hex)]
    requires r.b0 == 0 && r.b2 + r.b3 == |out| && Covered(out, r) == slot.signedContent
    requires DefiniteLength(der) ==> ExtractDer(hex) == Ok(der)
    ensures NewestHolds(src, out, k, slot, der)
  {
    hide Slots, Covered, DefiniteLength, ExtractDer;
  }
}
