/** The incremental-update writer: appending a revision, reserving a signature slot, filling it, reopening it. */
module IncrementalSigner {
  import opened Text
  import opened PdfObjects

  type byte = x: int | 0 <= x < 256

  // ---- Appending a revision ---------------------------------------------------------------------

  datatype Revision = Revision(num: nat, gen: nat, content: string)

  function ObjectText(o: Revision): string {
    Dec(o.num) + " " + Dec(o.gen) + " obj\n" + o.content + "\nendobj\n"
  }

  function ObjectsText(objs: seq<Revision>): string {
    if objs == [] then "" else ObjectText(objs[0]) + ObjectsText(objs[1..])
  }

  function Insert(o: Revision, objs: seq<Revision>): seq<Revision> {
    if objs == [] || o.num < objs[0].num then [o] + objs else [objs[0]] + Insert(o, objs[1..])
  }

  /** The stable sort by object number. */
  function SortByNum(objs: seq<Revision>): (r: seq<Revision>)
    ensures |r| == |objs|
  {
    if objs == [] then []
    else
      var r := Insert(objs[|objs| - 1], SortByNum(objs[..|objs| - 1]));
      InsertLength(objs[|objs| - 1], SortByNum(objs[..|objs| - 1]));
      r
  }

  lemma InsertLength(o: Revision, objs: seq<Revision>)
    ensures |Insert(o, objs)| == |objs| + 1
  {
  }

  /** Where each object starts when the first one starts at `at`; of two with one number the later counts. */
  function OffsetsOf(objs: seq<Revision>, at: nat): (m: map<nat, nat>)
    ensures forall o :: o in objs ==> o.num in m
  {
    if objs == [] then map[]
    else map[objs[0].num := at] + OffsetsOf(objs[1..], at + |ObjectText(objs[0])|)
  }

  function XrefLine(num: nat, offset: nat, gen: nat): string {
    Dec(num) + " 1\n" + Pad(offset, 10) + " " + Pad(gen, 5) + " n \n"
  }

  function XrefLines(objs: seq<Revision>, offsets: map<nat, nat>): string
    requires forall o :: o in objs ==> o.num in offsets
  {
    if objs == [] then ""
    else XrefLine(objs[0].num, offsets[objs[0].num], objs[0].gen) + XrefLines(objs[1..], offsets)
  }

  predicate IsHex(c: char) {
    IsDigit(c) || 'A' <= c <= 'F' || 'a' <= c <= 'f'
  }

  predicate AllHex(s: string) {
    forall i :: 0 <= i < |s| ==> IsHex(s[i])
  }

  function SkipHex(s: string, p: nat): (q: nat)
    requires p <= |s|
    ensures p <= q <= |s|
    ensures forall i :: p <= i < q ==> IsHex(s[i])
    ensures q == |s| || !IsHex(s[q])
    decreases |s| - p
  {
    if p < |s| && IsHex(s[p]) then SkipHex(s, p + 1) else p
  }

  datatype HexToken = HexToken(digits: string, end: nat)

  /** `\s*<([0-9A-Fa-f]*)>` at `p`. */
  function HexTokenAt(s: string, p: nat): (r: Option<HexToken>)
    requires p <= |s|
    ensures r.Some? ==> p < r.value.end <= |s|
    ensures r.Some? ==> AllHex(r.value.digits)
  {
    var open := SkipSpaces(s, p);
    if open == |s| || s[open] != '<' then None
    else
      var close := SkipHex(s, open + 1);
      if close == |s| || s[close] != '>' then None else Some(HexToken(s[open + 1..close], close + 1))
  }

  datatype FileId = FileId(first: string, second: string)

  /** `/ID\s*\[\s*<([0-9A-Fa-f]*)>\s*<([0-9A-Fa-f]*)>\s*\]` at `p`. */
  function IdAt(s: string, p: nat): (r: Option<FileId>)
    ensures r.Some? ==> At(s, p, "/ID") && AllHex(r.value.first) && AllHex(r.value.second)
  {
    if !At(s, p, "/ID") then None
    else
      var bracket := SkipSpaces(s, p + 3);
      if bracket == |s| || s[bracket] != '[' then None
      else
        match HexTokenAt(s, bracket + 1)
        case None => None
        case Some(first) =>
          match HexTokenAt(s, first.end)
          case None => None
          case Some(second) =>
            var q := SkipSpaces(s, second.end);
            if q < |s| && s[q] == ']' then Some(FileId(first.digits, second.digits)) else None
  }

  function FirstId(s: string, p: nat): (r: Option<FileId>)
    requires p <= |s|
    ensures r.Some? ==> AllHex(r.value.first) && AllHex(r.value.second)
    decreases |s| - p
  {
    if IdAt(s, p).Some? then IdAt(s, p) else if p == |s| then None else FirstId(s, p + 1)
  }

  function IdText(id: Option<FileId>): string {
    match id
    case None => ""
    case Some(f) => " /ID [<" + f.first + "> <" + f.second + ">]"
  }

  function IdPart(trailer: string): string {
    IdText(FirstId(trailer, 0))
  }

  function TrailerDict(size: nat, root: Ref, id: string, prev: nat): string {
    "<< /Size " + Dec(size) + " /Root " + Dec(root.num) + " " + Dec(root.gen) + " R" + id +
    " /Prev " + Dec(prev) + " >>"
  }

  function Footer(xrefOffset: nat): string {
    "startxref\n" + Dec(xrefOffset) + "\n%%EOF\n"
  }

  const XREF_HEAD := "xref\n0 1\n0000000000 65535 f \n"

  function NewSize(doc: Index, sorted: seq<Revision>): nat
    requires |sorted| > 0
  {
    var last := sorted[|sorted| - 1].num + 1;
    if doc.size >= last then doc.size else last
  }

  function TrailerText(doc: Index, newSize: nat, prev: nat, xrefOffset: nat): string {
    "trailer\n" + TrailerDict(newSize, doc.root, IdPart(doc.trailer), prev) + "\n" + Footer(xrefOffset)
  }

  /** The text of a revision appended to a file of `start` bytes: bodies, cross-reference lines, trailer. */
  function RevisionText(doc: Index, sorted: seq<Revision>, start: nat, prev: nat): string
    requires |sorted| > 0
  {
    var body := "\n" + ObjectsText(sorted);
    body + (XREF_HEAD + XrefLines(sorted, OffsetsOf(sorted, start + 1))) +
    TrailerText(doc, NewSize(doc, sorted), prev, start + |body|)
  }

  /** `appendRevision`. */
  function Append(buf: string, doc: Index, objects: seq<Revision>): Result<string> {
    match StartXref(buf)
    case Err(e) => Err(e)
    case Ok(prev) =>
      if objects == [] then Err("no objects")
      else Ok(buf + RevisionText(doc, SortByNum(objects), |buf|, prev))
  }

  lemma {:induction false} ObjectsTextSnoc(objs: seq<Revision>, o: Revision)
    ensures ObjectsText(objs + [o]) == ObjectsText(objs) + ObjectText(o)
  {
    hide ObjectText;
    var all := objs + [o];
    if objs == [] {
      assert all[1..] == [];
    } else {
      assert all[1..] == objs[1..] + [o] && all[0] == objs[0];
      ObjectsTextSnoc(objs[1..], o);
    }
  }

  lemma {:induction false} OffsetsOfSnoc(objs: seq<Revision>, o: Revision, at: nat)
    ensures OffsetsOf(objs + [o], at) == OffsetsOf(objs, at)[o.num := at + |ObjectsText(objs)|]
  {
    hide ObjectText, OffsetsOf, ObjectsText;
    var all := objs + [o];
    OffsetsStep(all, at);
    if objs == [] {
      assert all[1..] == [];
      NothingWritten(at);
      NothingWritten(at + |ObjectText(o)|);
      assert map[o.num := at] + map[] == map[][o.num := at];
    } else {
      var (first, rest) := (objs[0], objs[1..]);
      assert all[1..] == rest + [o] && all[0] == first;
      OffsetsStep(objs, at);
      var next := at + |ObjectText(first)|;
      OffsetsOfSnoc(rest, o, next);
      UpdateLater(first.num, at, OffsetsOf(rest, next), o.num, next + |ObjectsText(rest)|);
    }
  }

  lemma UpdateLater(a: nat, x: nat, m: map<nat, nat>, b: nat, y: nat)
    ensures map[a := x] + m[b := y] == (map[a := x] + m)[b := y]
  {
  }

  lemma OffsetsStep(objs: seq<Revision>, at: nat)
    requires objs != []
    ensures OffsetsOf(objs, at) == map[objs[0].num := at] + OffsetsOf(objs[1..], at + |ObjectText(objs[0])|)
    ensures |ObjectsText(objs)| == |ObjectText(objs[0])| + |ObjectsText(objs[1..])|
  {
    hide ObjectText;
  }

  lemma XrefLinesSnoc(objs: seq<Revision>, o: Revision, offsets: map<nat, nat>)
    requires forall x :: x in objs + [o] ==> x.num in offsets
    ensures o in objs + [o]
    ensures forall x :: x in objs ==> x in objs + [o]
    ensures XrefLines(objs + [o], offsets) == XrefLines(objs, offsets) + XrefLine(o.num, offsets[o.num], o.gen)
  {
    hide XrefLine;
    var all := objs + [o];
    assert all[|objs|] == o;
    if objs == [] {
      assert all[1..] == [];
      assert XrefLines(all, offsets) == XrefLine(o.num, offsets[o.num], o.gen) + "";
    } else {
      assert all[1..] == objs[1..] + [o] && all[0] == objs[0];
      XrefLinesSnoc(objs[1..], o, offsets);
      var (first, last) := (XrefLine(objs[0].num, offsets[objs[0].num], objs[0].gen),
                            XrefLine(o.num, offsets[o.num], o.gen));
      assert first + (XrefLines(objs[1..], offsets) + last) == (first + XrefLines(objs[1..], offsets)) + last;
    }
  }

  lemma NothingWritten(at: nat)
    ensures ObjectsText([]) == "" && OffsetsOf([], at) == map[]
  {
  }

  /** The first loop of `appendRevision`: bodies and offsets together. */
  method WriteBodies(sorted: seq<Revision>, start: nat) returns (body: string, offsets: map<nat, nat>)
    ensures body == "\n" + ObjectsText(sorted)
    ensures offsets == OffsetsOf(sorted, start + 1)
  {
    hide ObjectText, ObjectsText, OffsetsOf;
    body := "\n";
    offsets := map[];
    NothingWritten(start + 1);
    for i := 0 to |sorted|
      invariant body == "\n" + ObjectsText(sorted[..i])
      invariant offsets == OffsetsOf(sorted[..i], start + 1)
    {
      assert sorted[..i + 1] == sorted[..i] + [sorted[i]];
      ObjectsTextSnoc(sorted[..i], sorted[i]);
      OffsetsOfSnoc(sorted[..i], sorted[i], start + 1);
      offsets := offsets[sorted[i].num := start + |body|];
      body := body + ObjectText(sorted[i]);
    }
    assert sorted[..|sorted|] == sorted;
  }

  /** The second loop: one 20-byte entry per object, each its own subsection. */
  method WriteXref(sorted: seq<Revision>, offsets: map<nat, nat>) returns (xref: string)
    requires forall o :: o in sorted ==> o.num in offsets
    ensures xref == XREF_HEAD + XrefLines(sorted, offsets)
  {
    hide XrefLine;
    hide XREF_HEAD;
    xref := XREF_HEAD;
    for i := 0 to |sorted|
      invariant xref == XREF_HEAD + XrefLines(sorted[..i], offsets)
    {
      assert sorted[..i + 1] == sorted[..i] + [sorted[i]];
      XrefLinesSnoc(sorted[..i], sorted[i], offsets);
      xref := xref + XrefLine(sorted[i].num, offsets[sorted[i].num], sorted[i].gen);
    }
    assert sorted[..|sorted|] == sorted;
  }

  method AppendRevision(buf: string, doc: Index, objects: seq<Revision>) returns (r: Result<string>)
    ensures r == Append(buf, doc, objects)
  {
    hide StartXref, SortByNum, ObjectsText, XREF_HEAD, XrefLines, OffsetsOf, TrailerText;
    var prevStartXref := StartXref(buf);
    if prevStartXref.Err? {
      return Err(prevStartXref.error);
    }
    if objects == [] {
      return Err("no objects");
    }
    var sorted := SortByNum(objects);
    var newSize := NewSize(doc, sorted);
    var body, offsets := WriteBodies(sorted, |buf|);
    var xrefOffset := |buf| + |body|;
    var xref := WriteXref(sorted, offsets);
    r := Ok(buf + (body + xref + TrailerText(doc, newSize, prevStartXref.value, xrefOffset)));
  }

  // ---- Phase 1: the signature slot --------------------------------------------------------------

  datatype Appearance = Appearance(
    fieldName: string, name: string, reason: string, location: string, date: string, reserved: nat)

  function Escape(s: string): string {
    if s == "" then ""
    else Escape(s[..|s| - 1]) +
         (if s[|s| - 1] == '\\' || s[|s| - 1] == '(' || s[|s| - 1] == ')' then "\\" else "") + [s[|s| - 1]]
  }

  const SIG_TYPE := "<< /Type /Sig"
  const SIG_FILTER := " /Filter /Adobe.PPKLite"
  const SIG_SUBFILTER := " /SubFilter /adbe.pkcs7.detached"
  const SIG_OPEN := SIG_TYPE + SIG_FILTER + SIG_SUBFILTER

  /** The signature dictionary up to its /ByteRange key. */
  function SigHead(opts: Appearance): string {
    SIG_OPEN + " /Name (" + Escape(opts.name) + ") /Reason (" + Escape(opts.reason) +
    ") /Location (" + Escape(opts.location) + ") /M (" + opts.date + ") "
  }

  function RangeText(a: string, b: string, c: string): string {
    "[0 " + a + " " + b + " " + c + "]"
  }

  const TEN_ZEROS := "0000000000"
  const PLACEHOLDER := RangeText(TEN_ZEROS, TEN_ZEROS, TEN_ZEROS)

  function RangeKey(range: string): string {
    BYTE_RANGE + " " + range
  }

  /** What follows the /ByteRange array: the gap and the end of the dictionary. */
  function GapText(hex: string): string {
    " " + CONTENTS + " <" + hex + "> >>"
  }

  function SigDict(opts: Appearance, range: string, hex: string): string {
    SigHead(opts) + RangeKey(range) + GapText(hex)
  }

  /** `injectIntoDict`: an entry added before the last `>>`. */
  function InjectIntoDict(body: string, extra: string): Result<string> {
    var close := LastIndexOf(body, ">>", |body|);
    if close == -1 then Err("object body is not a dictionary")
    else Ok(TrimEnd(body[..close]) + " " + extra + " " + body[close..])
  }

  function SignedBy(sigNum: nat): string {
    "/V " + Dec(sigNum) + " 0 R"
  }

  predicate AlreadySigned(body: string) {
    FirstKeyReference(body, 0, "/V").Some?
  }

  datatype PreparedSlot = PreparedSlot(
    buffer: string, range: ByteRange, gapStart: int, hexLength: int, signedContent: string, sigObjectNumber: int)

  /** `buf.subarray(lo, hi)`, clamped to the buffer. */
  function Subarray(s: string, lo: nat, hi: nat): string {
    var a := if lo <= |s| then lo else |s|;
    var b := if hi <= |s| then hi else |s|;
    if a <= b then s[a..b] else ""
  }

  /** The bytes a /ByteRange covers. */
  function Covered(s: string, r: ByteRange): string {
    Subarray(s, r.b0, r.b0 + r.b1) + Subarray(s, r.b2, r.b2 + r.b3)
  }

  /** `buf.write(text, pos)`: at most to the end of the buffer. */
  function Overwrite(s: string, pos: nat, text: string): (r: string)
    requires pos <= |s|
    ensures |r| == |s|
  {
    if pos + |text| <= |s| then s[..pos] + text + s[pos + |text|..] else s[..pos] + text[..|s| - pos]
  }

  /** The two objects of a signing revision: the signature dictionary and the widget that now refers to it. */
  function SigningObjects(field: Object, widget: string, sigNum: nat, opts: Appearance, range: string,
                          hex: string): seq<Revision> {
    [Revision(sigNum, 0, SigDict(opts, range, hex)), Revision(field.num, field.gen, widget)]
  }

  /** The revision with an empty gap and a placeholder range. */
  function Reserve(buf: string, doc: Index, opts: Appearance): Result<string> {
    match FieldFrom(buf, doc.offsets, 0, opts.fieldName)
    case Err(e) => Err(e)
    case Ok(field) =>
      if AlreadySigned(field.body) then Err("signature field is already signed")
      else
        match InjectIntoDict(field.body, SignedBy(doc.size))
        case Err(e) => Err(e)
        case Ok(widget) =>
          Append(buf, doc, SigningObjects(field, widget, doc.size, opts, PLACEHOLDER, Zeros(2 * opts.reserved)))
  }

  /** The range that leaves out exactly the gap `[gapStart, gapEnd)`. */
  function RangeAround(len: nat, gapStart: nat, gapEnd: nat): ByteRange
    requires gapEnd <= len
  {
    ByteRange(0, gapStart, gapEnd, len - gapEnd)
  }

  function FilledKey(r: ByteRange): string {
    RangeKey(RangeText(Pad(r.b1, 10), Pad(r.b2, 10), Pad(r.b3, 10)))
  }

  /** Patches the placeholder found after `from` and reads off the slot. A missing `<` or `>` cannot occur in text
      this writer produced; the searches then fail and so does the call. */
  function Patch(out: string, from: nat, hexLen: nat, sigNum: nat): Result<PreparedSlot> {
    var brPos := IndexOf(out, RangeKey(PLACEHOLDER), from);
    if brPos == -1 then Err("ByteRange placeholder lost")
    else
      var tag := IndexOf(out, CONTENTS, brPos);
      var gapStart := IndexOf(out, "<", if tag == -1 then 0 else tag);
      var gapEnd := IndexOf(out, ">", if gapStart == -1 then 0 else gapStart);
      if gapStart == -1 || gapEnd == -1 then Err("gap lost")
      else
        var range := RangeAround(|out|, gapStart, gapEnd + 1);
        var filled := FilledKey(range);
        if |filled| != |RangeKey(PLACEHOLDER)| then Err("ByteRange patch would change file length")
        else
          var patched := Overwrite(out, brPos, filled);
          Ok(PreparedSlot(patched, range, gapStart, hexLen, Covered(patched, range), sigNum))
  }

  /** `prepareSignatureSlot`. */
  function Prepare(buf: string, opts: Appearance): Result<PreparedSlot> {
    match Parse(buf)
    case Err(e) => Err(e)
    case Ok(doc) =>
      match Reserve(buf, doc, opts)
      case Err(e) => Err(e)
      case Ok(out) => Patch(out, |buf|, 2 * opts.reserved, doc.size)
  }

  method Write(out: array<char>, text: string, pos: nat)
    requires pos <= out.Length
    modifies out
    ensures out[..] == Overwrite(old(out[..]), pos, text)
  {
    var i := 0;
    while i < |text| && pos + i < out.Length
      invariant 0 <= i <= |text| && pos + i <= out.Length
      invariant out[..] == old(out[..])[..pos] + text[..i] + old(out[..])[pos + i..]
    {
      out[pos + i] := text[i];
      i := i + 1;
    }
    assert i == |text| ==> text[..i] == text;
  }

  method ToBuffer(s: string) returns (out: array<char>)
    ensures fresh(out) && out[..] == s
  {
    out := new char[|s|](i requires 0 <= i < |s| => s[i]);
  }

  method PrepareSignatureSlot(buf: string, opts: Appearance) returns (r: Result<PreparedSlot>)
    ensures r == Prepare(buf, opts)
  {
    hide FieldFrom, Append, SigDict, InjectIntoDict, FilledKey, AlreadySigned, Covered, Overwrite, IndexOf, Parse;
    var doc := ParseDocument(buf);
    if doc.Err? {
      return Err(doc.error);
    }
    var field := FindFieldByName(buf, doc.value.offsets, opts.fieldName);
    if field.Err? {
      return Err(field.error);
    }
    if AlreadySigned(field.value.body) {
      return Err("signature field is already signed");
    }
    var widget := InjectIntoDict(field.value.body, SignedBy(doc.value.size));
    if widget.Err? {
      return Err(widget.error);
    }
    var revision := AppendRevision(buf, doc.value,
      SigningObjects(field.value, widget.value, doc.value.size, opts, PLACEHOLDER, Zeros(2 * opts.reserved)));
    if revision.Err? {
      return Err(revision.error);
    }
    var s := revision.value;
    assert Reserve(buf, doc.value, opts) == Ok(s);
    r := PatchInPlace(s, |buf|, 2 * opts.reserved, doc.value.size);
  }

  method PatchInPlace(s: string, from: nat, hexLen: nat, sigNum: nat) returns (r: Result<PreparedSlot>)
    ensures r == Patch(s, from, hexLen, sigNum)
  {
    hide Covered, Overwrite, FilledKey, IndexOf, RangeKey, PLACEHOLDER, CONTENTS;
    var brPos := IndexOf(s, RangeKey(PLACEHOLDER), from);
    if brPos == -1 {
      return Err("ByteRange placeholder lost");
    }
    var tag := IndexOf(s, CONTENTS, brPos);
    var gapStart := IndexOf(s, "<", if tag == -1 then 0 else tag);
    var gapEnd := IndexOf(s, ">", if gapStart == -1 then 0 else gapStart);
    if gapStart == -1 || gapEnd == -1 {
      return Err("gap lost");
    }
    var range := RangeAround(|s|, gapStart, gapEnd + 1);
    var filled := FilledKey(range);
    if |filled| != |RangeKey(PLACEHOLDER)| {
      return Err("ByteRange patch would change file length");
    }
    var out := ToBuffer(s);
    Write(out, filled, brPos);
    r := Ok(PreparedSlot(out[..], range, gapStart, hexLen, Covered(out[..], range), sigNum));
  }

  // ---- Phase 2: filling the gap -----------------------------------------------------------------

  function HexDigit(d: nat): (c: char)
    requires d < 16
    ensures IsHex(c)
  {
    if d < 10 then Digit(d) else ('A' as int + (d - 10)) as char
  }

  /** Upper-case hexadecimal of a byte string. */
  function ToHex(der: seq<byte>): (s: string)
    ensures |s| == 2 * |der|
    ensures forall i :: 0 <= i < |s| ==> IsHex(s[i])
  {
    if der == [] then "" else ToHex(der[..|der| - 1]) + [HexDigit(der[|der| - 1] / 16), HexDigit(der[|der| - 1] % 16)]
  }

  /** `embedSignature`. */
  function Embed(slot: PreparedSlot, der: seq<byte>): Result<string> {
    var hex := ToHex(der);
    if |hex| > slot.hexLength then Err("signature does not fit the reserved gap")
    else if slot.gapStart + 1 < 0 || slot.gapStart + 1 > |slot.buffer| then Err("offset out of range")
    else Ok(Overwrite(slot.buffer, slot.gapStart + 1, hex + Zeros(slot.hexLength - |hex|)))
  }

  method EmbedSignature(slot: PreparedSlot, der: seq<byte>) returns (r: Result<string>)
    ensures r == Embed(slot, der)
  {
    var hex := ToHex(der);
    if |hex| > slot.hexLength {
      return Err("signature does not fit the reserved gap");
    }
    if slot.gapStart + 1 < 0 || slot.gapStart + 1 > |slot.buffer| {
      return Err("offset out of range");
    }
    var out := ToBuffer(slot.buffer);
    Write(out, hex + Zeros(slot.hexLength - |hex|), slot.gapStart + 1);
    r := Ok(out[..]);
  }

  // ---- Reopening a parked document --------------------------------------------------------------

  predicate AllZeros(s: string) {
    forall i :: 0 <= i < |s| ==> s[i] == '0'
  }

  function EmptySlots(slots: seq<Slot>): seq<Slot> {
    if slots == [] then []
    else EmptySlots(slots[..|slots| - 1]) + if AllZeros(slots[|slots| - 1].hex) then [slots[|slots| - 1]] else []
  }

  /** `reopenSignatureSlot`. */
  function Reopen(pending: string): Result<PreparedSlot> {
    var empty := EmptySlots(Slots(pending, 0));
    if |empty| == 0 then Err("parked document has no unfilled signature slot")
    else if |empty| > 1 then Err("parked document has more than one unfilled signature slot")
    else
      var slot := empty[0];
      if slot.range.b1 != slot.contentsStart || slot.range.b2 != slot.contentsEnd
      then Err("parked document ByteRange does not match its /Contents gap")
      else Ok(PreparedSlot(pending, slot.range, slot.contentsStart, slot.contentsEnd - slot.contentsStart - 2,
                           Covered(pending, slot.range), -1))
  }
}
