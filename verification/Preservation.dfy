/** One signature more cannot invalidate the ones before it, over one signing and over whole runs. */
module Preservation {
  import opened Text
  import opened PdfObjects
  import opened IncrementalSigner
  import Stability
  import opened RevisionProofs
  import opened AppendProofs
  import opened SlotProofs
  import opened SigningProofs
  import opened QuietProofs
  import opened FieldProofs
  import opened SigningLayout
  import opened SigningTheorems
  import opened Verifier

  // ---- Fields -------------------------------------------------------------------------------------

  /** `num` is the one object of the document that is the signature field `name`. */
  ghost predicate Sole(buf: string, doc: Index, name: string, num: nat) {
    && Lacks(name, '>') && Indexed(doc, num) && IsField(BodyOf(buf, doc, num), name)
    && forall k: nat :: Indexed(doc, k) && k != num ==> !IsField(BodyOf(buf, doc, k), name)
  }

  /** The object at place `i` of the index can be read and has the title and the type. */
  predicate Titled(buf: string, offsets: Table, i: nat, name: string) {
    && i < |offsets| && ReadObject(buf, offsets, offsets[i].num).Ok?
    && Includes(ReadObject(buf, offsets, offsets[i].num).value.body, "/T (" + name + ")")
    && Includes(ReadObject(buf, offsets, offsets[i].num).value.body, "/FT /Sig")
  }

  /** The first such place at or after `from`. */
  predicate FirstTitled(buf: string, offsets: Table, from: nat, k: nat, name: string) {
    from <= k && Titled(buf, offsets, k, name) && forall j :: from <= j < k ==> !Titled(buf, offsets, j, name)
  }

  lemma {:induction false} FirstFrom(buf: string, offsets: Table, i: nat, name: string)
    requires i <= |offsets|
    ensures var f := FieldFrom(buf, offsets, i, name);
      && (f.Err? <==> forall k: nat :: !FirstTitled(buf, offsets, i, k, name))
      && forall k: nat :: FirstTitled(buf, offsets, i, k, name) ==> f == ReadObject(buf, offsets, offsets[k].num)
    decreases |offsets| - i
  {
    hide ReadObject, Includes;
    if i < |offsets| {
      var o := ReadObject(buf, offsets, offsets[i].num);
      assert Titled(buf, offsets, i, name) <==> o.Ok? && IsField(o.value.body, name);
      FirstFrom(buf, offsets, i + 1, name);
      if Titled(buf, offsets, i, name) {
        assert FirstTitled(buf, offsets, i, i, name);
      } else {
        var n := i + 1;
        if k: nat :| FirstTitled(buf, offsets, n, k, name) {
          assert FirstTitled(buf, offsets, i, k, name);
        }
        forall k: nat | FirstTitled(buf, offsets, i, k, name)
          ensures FirstTitled(buf, offsets, i + 1, k, name)
        {
        }
      }
    }
  }

  /** The search finds the first object of the index, in its order, that can be read and has the title and the type, and
      fails exactly when there is none. */
  lemma FieldIsFirst(buf: string, offsets: Table, name: string)
    ensures var f := FieldFrom(buf, offsets, 0, name);
      && (f.Err? <==> forall k: nat :: !Titled(buf, offsets, k, name))
      && forall k: nat :: FirstTitled(buf, offsets, 0, k, name) ==> f == ReadObject(buf, offsets, offsets[k].num)
  {
    hide ReadObject, Titled, FieldFrom;
    FirstFrom(buf, offsets, 0, name);
    if k: nat :| Titled(buf, offsets, k, name) {
      var m := Least(buf, offsets, name, 0, k);
    }
  }

  lemma {:induction false} Least(buf: string, offsets: Table, name: string, from: nat, k: nat) returns (m: nat)
    requires from <= k && Titled(buf, offsets, k, name)
    ensures FirstTitled(buf, offsets, from, m, name)
    decreases k - from
  {
    hide Titled;
    if Titled(buf, offsets, from, name) {
      m := from;
    } else {
      m := Least(buf, offsets, name, from + 1, k);
    }
  }

  function FieldOf(buf: string, doc: Index, num: nat): Object {
    match ReadObject(buf, doc.offsets, num)
    case Ok(o) => o
    case Err(_) => Object(num, 0, "")
  }

  lemma {:induction false} SoleFrom(buf: string, doc: Index, name: string, num: nat, i: nat)
    requires Signable(buf, doc) && Sole(buf, doc, name, num) && i <= |doc.offsets|
    requires exists j :: i <= j < |doc.offsets| && doc.offsets[j].num == num
    ensures FieldFrom(buf, doc.offsets, i, name) == ReadObject(buf, doc.offsets, num)
    decreases |doc.offsets| - i
  {
    hide ReadObject, IsField, Lookup, Signable;
    var k := doc.offsets[i].num;
    FieldReads(buf, doc, name, num);
    assert Indexed(doc, k) by { KeyIndexed(doc, i); }
    if k != num {
      SoleFrom(buf, doc, name, num, i + 1);
    }
  }

  /** An object that is a field can be read. */
  lemma FieldReads(buf: string, doc: Index, name: string, num: nat)
    requires IsField(BodyOf(buf, doc, num), name)
    ensures ReadObject(buf, doc.offsets, num).Ok?
  {
    hide ReadObject;
  }

  lemma KeyIndexed(doc: Index, i: nat)
    requires i < |doc.offsets|
    ensures Indexed(doc, doc.offsets[i].num)
  {
  }

  /** The search by name finds the sole field, wherever it stands in the index. */
  lemma SoleFound(buf: string, doc: Index, name: string, num: nat)
    requires Signable(buf, doc) && Sole(buf, doc, name, num)
    ensures FieldFrom(buf, doc.offsets, 0, name) == ReadObject(buf, doc.offsets, num) == Ok(FieldOf(buf, doc, num))
    ensures FieldOf(buf, doc, num).num == num && SigField(FieldOf(buf, doc, num).body)
  {
    hide ReadObject, IsField, Lookup, Signable;
    IndexedIs(doc, num);
    FieldReads(buf, doc, name, num);
    assert exists j :: 0 <= j < |doc.offsets| && doc.offsets[j].num == num by { LookupKey(doc.offsets, num); }
    SoleFrom(buf, doc, name, num, 0);
    ReadNumber(buf, doc.offsets, num);
    FieldIsSigField(BodyOf(buf, doc, num), name);
  }

  lemma LookupKey(t: Table, num: nat)
    requires Lookup(t, num).Some?
    ensures exists j :: 0 <= j < |t| && t[j].num == num
  {
  }

  lemma WidgetIsField(body: string, n: nat, name: string)
    requires IsDict(body) && Lacks(name, '>')
    ensures IsField(Widget(body, n), name) <==> IsField(body, name)
  {
    hide Widget, Includes, IsDict;
    FieldPatterns(name);
    WidgetIncludes(body, n, "/T (" + name + ")");
    WidgetIncludes(body, n, SIG_FIELD);
  }

  /** What the signing does to each object, as far as fields are concerned. */
  lemma FieldKept(buf: string, doc: Index, field: Object, opts: Appearance, range: string, hex: string, name: string,
                  k: nat)
    requires Fresh(buf, doc, field, opts, range, hex) && Lacks(name, '>')
    ensures var (out, grown) := (NewFile(buf, doc, field, opts, range, hex), NewDoc(buf, doc, field, opts, range, hex));
      && (Indexed(grown, k) <==> Indexed(doc, k) || k == doc.size)
      && (Indexed(doc, k) ==> (IsField(BodyOf(out, grown, k), name) <==> IsField(BodyOf(buf, doc, k), name)))
      && (Indexed(doc, k) ==>
          (AlreadySigned(BodyOf(out, grown, k)) <==> k == field.num || AlreadySigned(BodyOf(buf, doc, k))))
      && (k == doc.size ==> !Indexed(doc, k) && !IsField(BodyOf(out, grown, k), name))
  {
    hide *;
    FreshParts(buf, doc, field, opts, range, hex);
    ReadyParts(buf, doc, field, opts);
    NewKeys(buf, doc, field, opts, range, hex);
    NewObjects(buf, doc, field, opts, range, hex);
    SignableReads(buf, doc, k);
    var (out, grown) := (NewFile(buf, doc, field, opts, range, hex), NewDoc(buf, doc, field, opts, range, hex));
    BodyIs(out, grown, k);
    BodyIs(buf, doc, k);
    TargetParts(buf, doc, field);
    if k == field.num {
      WidgetIsField(field.body, doc.size, name);
      WidgetSigned(field.body, doc.size);
    } else if k == doc.size {
      DictNoField(opts, range, hex);
      if IsField(SigDict(opts, range, hex), name) {
        FieldIsSigField(SigDict(opts, range, hex), name);
        assert false;
      }
    } else {
      OldObjects(buf, doc, field, opts, range, hex, k);
    }
  }

  lemma BodyIs(buf: string, doc: Index, num: nat)
    ensures BodyOf(buf, doc, num) ==
      if ReadObject(buf, doc.offsets, num).Ok? then ReadObject(buf, doc.offsets, num).value.body else ""
  {
    hide ReadObject;
  }

  lemma TargetParts(buf: string, doc: Index, field: Object)
    requires Target(buf, doc, field)
    ensures Indexed(doc, field.num) && ReadObject(buf, doc.offsets, field.num) == Ok(field)
  {
    hide ReadObject, Indexed;
  }

  lemma SoleKept(buf: string, doc: Index, field: Object, opts: Appearance, range: string, hex: string, name: string,
                 num: nat)
    requires Fresh(buf, doc, field, opts, range, hex) && Sole(buf, doc, name, num)
    ensures var (out, grown) := (NewFile(buf, doc, field, opts, range, hex), NewDoc(buf, doc, field, opts, range, hex));
      && Sole(out, grown, name, num)
      && (AlreadySigned(BodyOf(out, grown, num)) <==> num == field.num || AlreadySigned(BodyOf(buf, doc, num)))
  {
    hide Fresh, NewFile, NewDoc, IsField, AlreadySigned, Indexed, BodyOf, Lacks;
    assert StartXref(buf).Ok? by { FreshParts(buf, doc, field, opts, range, hex); }
    var (out, grown) := (NewFile(buf, doc, field, opts, range, hex), NewDoc(buf, doc, field, opts, range, hex));
    forall k: nat
      ensures Indexed(grown, k) && k != num ==> !IsField(BodyOf(out, grown, k), name)
    {
      FieldKept(buf, doc, field, opts, range, hex, name, k);
    }
    FieldKept(buf, doc, field, opts, range, hex, name, num);
  }

  // ---- One signing --------------------------------------------------------------------------------

  /** Preparing a slot and filling it. */
  function Sign(buf: string, opts: Appearance, der: seq<byte>): Result<string> {
    match Prepare(buf, opts)
    case Err(e) => Err(e)
    case Ok(slot) => Embed(slot, der)
  }

  /** The document with the signature of `der` on the field `num`. */
  function SignedFile(buf: string, doc: Index, num: nat, opts: Appearance, der: seq<byte>): string
    requires StartXref(buf).Ok? && |der| <= opts.reserved
  {
    var field := FieldOf(buf, doc, num);
    NewFile(buf, doc, field, opts, FilledRange(RangeOf(buf, doc, field, opts)), Filling(der, 2 * opts.reserved))
  }

  function SignedDoc(buf: string, doc: Index, num: nat, opts: Appearance, der: seq<byte>): Index
    requires StartXref(buf).Ok? && |der| <= opts.reserved
  {
    var field := FieldOf(buf, doc, num);
    NewDoc(buf, doc, field, opts, FilledRange(RangeOf(buf, doc, field, opts)), Filling(der, 2 * opts.reserved))
  }

  /** The signer is asked for a field the document has, with admissible texts. */
  ghost predicate Request(buf: string, doc: Index, num: nat, opts: Appearance) {
    Signable(buf, doc) && GoodOptions(opts) && Sole(buf, doc, opts.fieldName, num)
  }

  lemma RequestTarget(buf: string, doc: Index, num: nat, opts: Appearance)
    requires Request(buf, doc, num, opts)
    ensures Parse(buf) == Ok(doc) && StartXref(buf).Ok?
    ensures FieldFrom(buf, doc.offsets, 0, opts.fieldName) == Ok(FieldOf(buf, doc, num))
    ensures FieldOf(buf, doc, num).num == num
    ensures FieldOf(buf, doc, num).body == BodyOf(buf, doc, num)
    ensures !AlreadySigned(BodyOf(buf, doc, num)) ==> Ready(buf, doc, FieldOf(buf, doc, num), opts)
  {
    hide ReadObject, Signable, GoodOptions, AlreadySigned, IsField, SigField, Lacks, StartXref, FieldFrom, Parse;
    SoleFound(buf, doc, opts.fieldName, num);
    SignableParsed(buf, doc);
    ParsedOffsets(buf, doc);
  }

  lemma SignableParsed(buf: string, doc: Index)
    requires Signable(buf, doc)
    ensures Parse(buf) == Ok(doc)
  {
    hide Parse, Readable, FieldsExtendable, SmallHead, Stability.ProperChain;
  }

  lemma FillingHex(der: seq<byte>, hexLen: nat)
    requires 2 * |der| <= hexLen
    ensures AllHex(Filling(der, hexLen)) && |Filling(der, hexLen)| == hexLen
  {
  }

  lemma ZerosHex(k: nat)
    ensures AllHex(Zeros(k))
  {
  }

  /** Preparing fails on a signed field, and otherwise only when the range outgrows its columns. */
  lemma PrepareOutcome(buf: string, doc: Index, num: nat, opts: Appearance)
    requires Request(buf, doc, num, opts)
    ensures StartXref(buf).Ok?
    ensures var field := FieldOf(buf, doc, num); var r := RangeOf(buf, doc, field, opts);
      var file := NewFile(buf, doc, field, opts, FilledRange(r), Zeros(2 * opts.reserved));
      Prepare(buf, opts) ==
        if AlreadySigned(BodyOf(buf, doc, num)) then Err("signature field is already signed")
        else if !Writable(r) then Err("ByteRange patch would change file length")
        else Ok(PreparedSlot(file, r, r.b1, 2 * opts.reserved, Covered(file, r), doc.size))
  {
    hide *;
    RequestTarget(buf, doc, num, opts);
    var field := FieldOf(buf, doc, num);
    if AlreadySigned(BodyOf(buf, doc, num)) {
      PrepareRefused(buf, doc, opts, field);
    } else {
      PrepareReads(buf, doc, field, opts);
      RangeStart(buf, doc, field, opts);
      if Writable(RangeOf(buf, doc, field, opts)) {
        PreparedIs(buf, doc, field, opts);
        SigningIs(buf, doc, field, opts, Zeros(2 * opts.reserved));
      }
    }
  }

  lemma PrepareRefused(buf: string, doc: Index, opts: Appearance, field: Object)
    requires Parse(buf) == Ok(doc) && FieldFrom(buf, doc.offsets, 0, opts.fieldName) == Ok(field)
    requires AlreadySigned(field.body)
    ensures Prepare(buf, opts) == Err("signature field is already signed")
  {
    hide Parse, FieldFrom, AlreadySigned, Append, InjectIntoDict, Patch;
  }

  lemma RangeStart(buf: string, doc: Index, field: Object, opts: Appearance)
    requires StartXref(buf).Ok?
    ensures RangeOf(buf, doc, field, opts).b1 == GapStart(Before(buf, doc, field, opts))
    ensures RangeOf(buf, doc, field, opts).b0 == 0
    ensures RangeOf(buf, doc, field, opts).b2 == RangeOf(buf, doc, field, opts).b1 + 2 * opts.reserved + 2
  {
    hide Before, Post, GapStart;
  }

  lemma SigningIs(buf: string, doc: Index, field: Object, opts: Appearance, hex: string)
    requires StartXref(buf).Ok?
    ensures var r := RangeOf(buf, doc, field, opts);
      && |Signing(field, doc, opts, r, hex)| == 2
      && NewFile(buf, doc, field, opts, FilledRange(r), hex) == Revised(buf, doc, Signing(field, doc, opts, r, hex))
  {
    hide RangeOf, FilledRange, Revised, SigDict, Widget, StartXref;
  }

  /** Signing succeeds exactly when the field is unsigned, the range fits its columns and the signature its gap. */
  lemma SignOutcome(buf: string, doc: Index, num: nat, opts: Appearance, der: seq<byte>)
    requires Request(buf, doc, num, opts)
    ensures StartXref(buf).Ok?
    ensures Sign(buf, opts, der) ==
      if AlreadySigned(BodyOf(buf, doc, num)) then Err("signature field is already signed")
      else if !Writable(RangeOf(buf, doc, FieldOf(buf, doc, num), opts))
      then Err("ByteRange patch would change file length")
      else if |der| > opts.reserved then Err("signature does not fit the reserved gap")
      else Ok(SignedFile(buf, doc, num, opts, der))
  {
    hide *;
    PrepareOutcome(buf, doc, num, opts);
    SignForm(buf, opts, der);
    RequestTarget(buf, doc, num, opts);
    var field := FieldOf(buf, doc, num);
    if !AlreadySigned(BodyOf(buf, doc, num)) && Writable(RangeOf(buf, doc, field, opts)) {
      var slot := Prepare(buf, opts).value;
      PreparedIs(buf, doc, field, opts);
      SigningIs(buf, doc, field, opts, Zeros(2 * opts.reserved));
      RangeStart(buf, doc, field, opts);
      EmbedIs(buf, doc, field, opts, slot, der);
      if |der| <= opts.reserved {
        SigningIs(buf, doc, field, opts, Filling(der, 2 * opts.reserved));
        SignedFileIs(buf, doc, num, opts, der);
      }
    }
  }

  lemma SignForm(buf: string, opts: Appearance, der: seq<byte>)
    ensures Sign(buf, opts, der) == match Prepare(buf, opts) case Err(e) => Err(e) case Ok(slot) => Embed(slot, der)
  {
    hide Prepare, Embed;
  }

  lemma SignedFileIs(buf: string, doc: Index, num: nat, opts: Appearance, der: seq<byte>)
    requires StartXref(buf).Ok? && |der| <= opts.reserved
    ensures var field := FieldOf(buf, doc, num); var r := RangeOf(buf, doc, field, opts);
      && SignedFile(buf, doc, num, opts, der) ==
           NewFile(buf, doc, field, opts, FilledRange(r), Filling(der, 2 * opts.reserved))
      && SignedDoc(buf, doc, num, opts, der) ==
           NewDoc(buf, doc, field, opts, FilledRange(r), Filling(der, 2 * opts.reserved))
  {
    hide StartXref, FieldOf, RangeOf, NewFile, NewDoc, FilledRange, Filling;
  }

  /** The signing went through. */
  ghost predicate Succeeds(buf: string, doc: Index, num: nat, opts: Appearance, der: seq<byte>) {
    Request(buf, doc, num, opts) && Sign(buf, opts, der).Ok?
  }

  lemma SucceedsFresh(buf: string, doc: Index, num: nat, opts: Appearance, der: seq<byte>)
    requires Succeeds(buf, doc, num, opts, der)
    ensures StartXref(buf).Ok? && |der| <= opts.reserved && !AlreadySigned(BodyOf(buf, doc, num))
    ensures Sign(buf, opts, der) == Ok(SignedFile(buf, doc, num, opts, der))
    ensures var field := FieldOf(buf, doc, num); var r := RangeOf(buf, doc, field, opts);
      Writable(r) && Fresh(buf, doc, field, opts, FilledRange(r), Filling(der, 2 * opts.reserved)) && field.num == num
  {
    hide Sign, Ready, RangeOf, SignedFile, AlreadySigned, Writable, FilledRange, Filling, BodyOf, FieldOf, Request,
      StartXref;
    SignOutcome(buf, doc, num, opts, der);
    RequestTarget(buf, doc, num, opts);
    var r := RangeOf(buf, doc, FieldOf(buf, doc, num), opts);
    FilledRangeLength(r);
    FillingHex(der, 2 * opts.reserved);
  }

  /** A signed document can be signed again; its fields are the old ones, and exactly the named one became signed. */
  lemma SigningKeepsFields(buf: string, doc: Index, num: nat, opts: Appearance, der: seq<byte>, name: string, k: nat)
    requires Succeeds(buf, doc, num, opts, der)
    ensures StartXref(buf).Ok? && |der| <= opts.reserved
    ensures var (out, grown) := (SignedFile(buf, doc, num, opts, der), SignedDoc(buf, doc, num, opts, der));
      && Signable(out, grown)
      && (Sole(buf, doc, name, k) ==>
          (Sole(out, grown, name, k)
           && (AlreadySigned(BodyOf(out, grown, k)) <==> k == num || AlreadySigned(BodyOf(buf, doc, k)))))
  {
    hide *;
    SucceedsFresh(buf, doc, num, opts, der);
    SignedFileIs(buf, doc, num, opts, der);
    var field := FieldOf(buf, doc, num);
    var r := RangeOf(buf, doc, field, opts);
    SigningKeepsSignable(buf, doc, field, opts, FilledRange(r), Filling(der, 2 * opts.reserved));
    if Sole(buf, doc, name, k) {
      SoleKept(buf, doc, field, opts, FilledRange(r), Filling(der, 2 * opts.reserved), name, k);
    }
  }

  /** A second signature on the same field is refused. */
  lemma ResigningRefused(buf: string, doc: Index, num: nat, opts: Appearance, der: seq<byte>, again: Appearance,
                         other: seq<byte>)
    requires Succeeds(buf, doc, num, opts, der) && again.fieldName == opts.fieldName && GoodOptions(again)
    ensures StartXref(buf).Ok? && |der| <= opts.reserved
    ensures Sign(SignedFile(buf, doc, num, opts, der), again, other) == Err("signature field is already signed")
  {
    hide *;
    SucceedsFresh(buf, doc, num, opts, der);
    SigningKeepsFields(buf, doc, num, opts, der, opts.fieldName, num);
    SucceedsParts(buf, doc, num, opts, der);
    RequestIs(SignedFile(buf, doc, num, opts, der), SignedDoc(buf, doc, num, opts, der), num, again);
    SignOutcome(SignedFile(buf, doc, num, opts, der), SignedDoc(buf, doc, num, opts, der), num, again, other);
  }

  lemma SucceedsParts(buf: string, doc: Index, num: nat, opts: Appearance, der: seq<byte>)
    requires Succeeds(buf, doc, num, opts, der)
    ensures Request(buf, doc, num, opts) && Signable(buf, doc) && GoodOptions(opts)
    ensures Sole(buf, doc, opts.fieldName, num)
  {
    hide Signable, GoodOptions, Sole, Sign;
  }

  lemma RequestIs(buf: string, doc: Index, num: nat, opts: Appearance)
    requires Signable(buf, doc) && GoodOptions(opts) && Sole(buf, doc, opts.fieldName, num)
    ensures Request(buf, doc, num, opts)
  {
  }
}
