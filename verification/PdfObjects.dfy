/** The structural PDF parser: classic cross-reference tables chained by /Prev, indirect objects, form fields
    and the scan for signature dictionaries. Every loop of the program is a method proved against a function. */
module PdfObjects {
  import opened Text

  // ---- Insertion-ordered maps from object number to offset ---------------------------------------

  datatype Entry = Entry(num: nat, offset: nat)

  /** A map as JavaScript keeps one: keys in insertion order. */
  type Table = seq<Entry>

  function Lookup(t: Table, num: nat): (r: Option<nat>)
    ensures r.None? <==> forall i :: 0 <= i < |t| ==> t[i].num != num
    ensures r.Some? ==> exists i :: 0 <= i < |t| && t[i] == Entry(num, r.value)
  {
    if t == [] then None
    else if t[0].num == num then Some(t[0].offset)
    else
      assert forall i :: 1 <= i < |t| ==> t[i] == t[1..][i - 1];
      Lookup(t[1..], num)
  }

  /** `t.set(num, offset)`: an existing key keeps its place. */
  function Put(t: Table, num: nat, offset: nat): Table {
    if t == [] then [Entry(num, offset)]
    else if t[0].num == num then [Entry(num, offset)] + t[1..]
    else [t[0]] + Put(t[1..], num, offset)
  }

  /** Adds those entries whose key is not present yet. */
  function AddMissing(t: Table, more: Table): Table {
    if more == [] then t
    else
      var u := AddMissing(t, more[..|more| - 1]);
      var e := more[|more| - 1];
      if Lookup(u, e.num).Some? then u else u + [e]
  }

  // ---- startxref --------------------------------------------------------------------------------

  const TAIL := 2048

  function TailStart(buf: string): (r: nat)
    ensures r <= |buf|
  {
    if |buf| <= TAIL then 0 else |buf| - TAIL
  }

  /** `findStartXref`: the last `startxref` within the final 2048 bytes. */
  function StartXref(buf: string): Result<nat> {
    var tail := buf[TailStart(buf)..];
    var idx := LastIndexOf(tail, "startxref", |tail|);
    if idx == -1 then Err("startxref not found")
    else
      match FirstKeyNumber(tail[idx..], 0, "startxref")
      case None => Err("startxref value unparseable")
      case Some(m) => Ok(m.value)
  }

  // ---- Dictionaries -----------------------------------------------------------------------------

  /** The index just past the `>>` that brings the nesting depth to zero. */
  function DictEnd(s: string, i: nat, depth: int): (r: Option<nat>)
    ensures r.Some? ==> i + 2 <= r.value <= |s|
    decreases |s| - i
  {
    if i + 1 >= |s| then None
    else if s[i] == '<' && s[i + 1] == '<' then DictEnd(s, i + 2, depth + 1)
    else if s[i] == '>' && s[i + 1] == '>' then
      if depth - 1 == 0 then Some(i + 2) else DictEnd(s, i + 2, depth - 1)
    else DictEnd(s, i + 1, depth)
  }

  method FindDictEnd(s: string, start: nat) returns (r: Result<nat>)
    ensures r == match DictEnd(s, start, 0) case None => Err("unterminated dictionary") case Some(e) => Ok(e)
  {
    var depth := 0;
    var i := start;
    while i < |s| - 1
      invariant start <= i
      invariant DictEnd(s, start, 0) == DictEnd(s, i, depth)
      decreases |s| - i
    {
      if s[i] == '<' && s[i + 1] == '<' {
        depth := depth + 1;
        i := i + 1;
      } else if s[i] == '>' && s[i + 1] == '>' {
        depth := depth - 1;
        i := i + 1;
        if depth == 0 {
          return Ok(i + 1);
        }
      }
      i := i + 1;
    }
    return Err("unterminated dictionary");
  }

  // ---- Cross-reference sections -----------------------------------------------------------------

  datatype Header = Header(start: nat, count: nat, end: nat)

  /** One past the last carriage return or line feed in `s[p..q]`, or `p` when there is none. */
  function LastBreak(s: string, p: nat, q: nat): (r: nat)
    requires p <= q <= |s|
    ensures p <= r <= q
    ensures r > p ==> s[r - 1] == '\r' || s[r - 1] == '\n'
    ensures forall i :: r <= i < q ==> s[i] != '\r' && s[i] != '\n'
  {
    if q == p then p
    else if s[q - 1] == '\r' || s[q - 1] == '\n' then q
    else LastBreak(s, p, q - 1)
  }

  /** `^\s*(\d+)\s+(\d+)\s*[\r\n]+` at `p`: the match ends after the last line break of the white space that follows. */
  function HeaderAt(s: string, p: nat): (r: Option<Header>)
    ensures r.Some? ==> p < r.value.end <= |s|
  {
    if p > |s| then None
    else
      match NumberAt(s, SkipSpaces(s, p))
      case None => None
      case Some(start) =>
        match SpacedNumberAt(s, start.end)
        case None => None
        case Some(count) =>
          var e := LastBreak(s, count.end, SkipSpaces(s, count.end));
          if e == count.end then None else Some(Header(start.value, count.value, e))
  }

  datatype XrefEntry = XrefEntry(offset: nat, inUse: bool)

  /** `^(\d{10})\s(\d{5})\s([nf])` at `p`. */
  function XrefEntryAt(s: string, p: nat): Option<XrefEntry> {
    if p + 18 <= |s| && AllDigits(s[p..p + 10]) && IsSpace(s[p + 10]) && AllDigits(s[p + 11..p + 16])
       && IsSpace(s[p + 16]) && (s[p + 17] == 'n' || s[p + 17] == 'f')
    then Some(XrefEntry(ParseNat(s[p..p + 10]), s[p + 17] == 'n'))
    else None
  }

  datatype Parsed = Parsed(table: Table, pos: nat)

  /** The entries `i..count` of a subsection, each exactly 20 bytes long. */
  function Entries(s: string, pos: nat, start: nat, i: nat, count: nat, t: Table): (r: Result<Parsed>)
    requires i <= count
    ensures r.Ok? ==> r.value.pos == pos + 20 * (count - i)
    decreases count - i
  {
    if i == count then Ok(Parsed(t, pos))
    else
      match XrefEntryAt(s, pos)
      case None => Err("malformed xref entry")
      case Some(e) => Entries(s, pos + 20, start, i + 1, count, if e.inUse then Put(t, start + i, e.offset) else t)
  }

  /** All subsections from `pos` on. */
  function Subsections(s: string, pos: nat, t: Table): (r: Result<Parsed>)
    ensures r.Ok? ==> r.value.pos >= pos
    decreases |s| - pos
  {
    match HeaderAt(s, pos)
    case None => Ok(Parsed(t, pos))
    case Some(h) =>
      match Entries(s, h.end, h.start, 0, h.count, t)
      case Err(e) => Err(e)
      case Ok(p) => Subsections(s, p.pos, p.table)
  }

  datatype Section = Section(entries: Table, trailer: string, prev: Option<nat>)

  /** The trailer dictionary after `pos`; `<<` missing after the keyword makes the slice start at the last byte. */
  function Trailer(s: string, pos: nat): Result<string> {
    var t := IndexOf(s, "trailer", pos);
    if t == -1 then Err("trailer not found after xref table")
    else
      var d := IndexOf(s, "<<", t);
      match DictEnd(s, if d == -1 then 0 else d, 0)
      case None => Err("unterminated dictionary")
      case Some(e) => Ok(JsSlice(s, d, e))
  }

  function PrevOf(trailer: string): Option<nat> {
    match FirstKeyNumber(trailer, 0, "/Prev")
    case None => None
    case Some(m) => Some(m.value)
  }

  /** One cross-reference section and its trailer, read from text that starts at the section. */
  function ParseSection(s: string): (r: Result<Section>)
    ensures r.Ok? ==> At(s, 0, "xref")
  {
    if !At(s, 0, "xref") then Err("expected a classic xref table")
    else
      match Subsections(s, 4, [])
      case Err(e) => Err(e)
      case Ok(p) =>
        match Trailer(s, p.pos)
        case Err(e) => Err(e)
        case Ok(trailer) => Ok(Section(p.table, trailer, PrevOf(trailer)))
  }

  const SECTION_WINDOW := 1048576
  const OBJECT_WINDOW := 524288

  /** `buf.toString('latin1', offset, Math.min(buf.length, offset + size))`. */
  function Window(buf: string, offset: nat, size: nat): string {
    if offset > |buf| then ""
    else if offset + size > |buf| then buf[offset..]
    else buf[offset..offset + size]
  }

  function SectionAt(buf: string, offset: nat): (r: Result<Section>)
    ensures r.Ok? ==> offset < |buf|
  {
    ParseSection(Window(buf, offset, SECTION_WINDOW))
  }

  /** The inner loop of `parseXrefSection`. */
  method ReadEntries(s: string, from: nat, start: nat, count: nat, t: Table) returns (r: Result<Parsed>)
    ensures r == Entries(s, from, start, 0, count, t)
  {
    var entries := t;
    var pos := from;
    var i := 0;
    while i < count
      invariant 0 <= i <= count
      invariant Entries(s, from, start, 0, count, t) == Entries(s, pos, start, i, count, entries)
    {
      var e := XrefEntryAt(s, pos);
      if e.None? {
        return Err("malformed xref entry");
      }
      if e.value.inUse {
        entries := Put(entries, start + i, e.value.offset);
      }
      pos := pos + 20;
      i := i + 1;
    }
    return Ok(Parsed(entries, pos));
  }

  /** The outer loop of `parseXrefSection`. */
  method ReadSubsections(s: string) returns (r: Result<Parsed>)
    ensures r == Subsections(s, 4, [])
  {
    var entries: Table := [];
    var pos := 4;
    var header := HeaderAt(s, pos);
    while header.Some?
      invariant header == HeaderAt(s, pos)
      invariant Subsections(s, 4, []) == Subsections(s, pos, entries)
      decreases |s| - pos
    {
      var p := ReadEntries(s, header.value.end, header.value.start, header.value.count, entries);
      if p.Err? {
        return p;
      }
      entries := p.value.table;
      pos := p.value.pos;
      header := HeaderAt(s, pos);
    }
    return Ok(Parsed(entries, pos));
  }

  method ReadTrailer(s: string, pos: nat) returns (r: Result<string>)
    ensures r == Trailer(s, pos)
  {
    var tIdx := IndexOf(s, "trailer", pos);
    if tIdx == -1 {
      return Err("trailer not found after xref table");
    }
    var dictStart := IndexOf(s, "<<", tIdx);
    var end := FindDictEnd(s, if dictStart == -1 then 0 else dictStart);
    if end.Err? {
      return Err(end.error);
    }
    return Ok(JsSlice(s, dictStart, end.value));
  }

  method ParseXrefSection(buf: string, offset: nat) returns (r: Result<Section>)
    ensures r == SectionAt(buf, offset)
  {
    var s := Window(buf, offset, SECTION_WINDOW);
    if !At(s, 0, "xref") {
      return Err("expected a classic xref table");
    }
    var p := ReadSubsections(s);
    if p.Err? {
      return Err(p.error);
    }
    var trailer := ReadTrailer(s, p.value.pos);
    if trailer.Err? {
      return Err(trailer.error);
    }
    return Ok(Section(p.value.table, trailer.value, PrevOf(trailer.value)));
  }

  // ---- The /Prev chain --------------------------------------------------------------------------

  ghost function InFile(n: nat): (r: set<nat>)
    ensures forall i: nat :: i in r <==> i < n
  {
    if n == 0 then {} else InFile(n - 1) + {n - 1}
  }

  /** The sections reached from `offset`, newest first. The measure is the number of in-file offsets not seen yet. */
  function Chain(buf: string, offset: nat, seen: set<nat>): (r: Result<seq<Section>>)
    ensures r.Ok? ==> |r.value| > 0
    decreases |InFile(|buf|) - seen|
  {
    if offset in seen then Err("cyclic /Prev chain")
    else
      match SectionAt(buf, offset)
      case Err(e) => Err(e)
      case Ok(section) =>
        match section.prev
        case None => Ok([section])
        case Some(prev) =>
          Unseen(buf, offset, seen);
          match Chain(buf, prev, seen + {offset})
          case Err(e) => Err(e)
          case Ok(rest) => Ok([section] + rest)
  }

  lemma Unseen(buf: string, offset: nat, seen: set<nat>)
    requires offset < |buf| && offset !in seen
    ensures |InFile(|buf|) - (seen + {offset})| < |InFile(|buf|) - seen|
  {
    assert InFile(|buf|) - seen == (InFile(|buf|) - (seen + {offset})) + {offset};
  }

  /** The offsets of a chain of sections: an object keeps the entry of the first section that has one. */
  function Merge(sections: seq<Section>): Table {
    if sections == [] then []
    else AddMissing(Merge(sections[..|sections| - 1]), sections[|sections| - 1].entries)
  }

  datatype Ref = Ref(num: nat, gen: nat)

  datatype Index = Index(offsets: Table, trailer: string, size: nat, root: Ref)

  /** The index of a document whose sections are known. */
  function IndexOfSections(sections: seq<Section>): Result<Index>
    requires |sections| > 0
  {
    var trailer := sections[0].trailer;
    match FirstKeyNumber(trailer, 0, "/Size")
    case None => Err("trailer has no /Size")
    case Some(size) =>
      match FirstKeyReference(trailer, 0, "/Root")
      case None => Err("trailer has no /Root")
      case Some(root) => Ok(Index(Merge(sections), trailer, size.value, Ref(root.num, root.gen)))
  }

  function Parse(buf: string): Result<Index> {
    match StartXref(buf)
    case Err(e) => Err(e)
    case Ok(start) =>
      match Chain(buf, start, {})
      case Err(e) => Err(e)
      case Ok(sections) => IndexOfSections(sections)
  }

  method KeepFirst(t: Table, entries: Table) returns (offsets: Table)
    ensures offsets == AddMissing(t, entries)
  {
    offsets := t;
    var i := 0;
    while i < |entries|
      invariant 0 <= i <= |entries|
      invariant offsets == AddMissing(t, entries[..i])
    {
      assert entries[..i + 1][..i] == entries[..i];
      if Lookup(offsets, entries[i].num).None? {
        offsets := offsets + [entries[i]];
      }
      i := i + 1;
    }
    assert entries[..i] == entries;
  }

  lemma ExtendWalk(walked: seq<Section>, section: Section)
    ensures Merge(walked + [section]) == AddMissing(Merge(walked), section.entries)
    ensures forall rest: seq<Section> :: walked + ([section] + rest) == (walked + [section]) + rest
  {
    assert (walked + [section])[..|walked|] == walked;
    assert forall rest: seq<Section> :: walked + ([section] + rest) == (walked + [section]) + rest;
  }

  /** `walked` is what the chain from `start` yields before the section at `offset`. */
  ghost predicate Walking(buf: string, start: nat, walked: seq<Section>, offset: Option<nat>, seen: set<nat>) {
    match offset
    case None => walked != [] && Chain(buf, start, {}) == Ok(walked)
    case Some(o) =>
      Chain(buf, start, {}) == match Chain(buf, o, seen) case Err(e) => Err(e) case Ok(rest) => Ok(walked + rest)
  }

  lemma WalkOn(buf: string, start: nat, walked: seq<Section>, offset: nat, seen: set<nat>, section: Section)
    requires Walking(buf, start, walked, Some(offset), seen)
    requires offset !in seen && SectionAt(buf, offset) == Ok(section)
    ensures Walking(buf, start, walked + [section], section.prev, seen + {offset})
  {
    ExtendWalk(walked, section);
  }

  /** The loop of `parseDocument`: it terminates on every input and keeps, for each object, the newest entry. */
  method WalkChain(buf: string, start: nat) returns (r: Result<(Table, string)>)
    ensures r == match Chain(buf, start, {}) case Err(e) => Err(e) case Ok(all) => Ok((Merge(all), all[0].trailer))
  {
    var offsets: Table := [];
    var sectionOffset := Some(start);
    var newestTrailer: Option<string> := None;
    var seen: set<nat> := {};
    ghost var walked: seq<Section> := [];
    assert forall rest: seq<Section> :: walked + rest == rest;
    while sectionOffset.Some?
      invariant offsets == Merge(walked)
      invariant newestTrailer == if walked == [] then None else Some(walked[0].trailer)
      invariant Walking(buf, start, walked, sectionOffset, seen)
      decreases sectionOffset.Some?, |InFile(|buf|) - seen|
    {
      if sectionOffset.value in seen {
        return Err("cyclic /Prev chain");
      }
      var section := ParseXrefSection(buf, sectionOffset.value);
      if section.Err? {
        return Err(section.error);
      }
      Unseen(buf, sectionOffset.value, seen);
      WalkOn(buf, start, walked, sectionOffset.value, seen, section.value);
      ExtendWalk(walked, section.value);
      seen := seen + {sectionOffset.value};
      if newestTrailer.None? {
        newestTrailer := Some(section.value.trailer);
      }
      offsets := KeepFirst(offsets, section.value.entries);
      walked := walked + [section.value];
      sectionOffset := section.value.prev;
    }
    return Ok((offsets, newestTrailer.value));
  }

  method ParseDocument(buf: string) returns (r: Result<Index>)
    ensures r == Parse(buf)
  {
    var start := StartXref(buf);
    if start.Err? {
      return Err(start.error);
    }
    var walk := WalkChain(buf, start.value);
    if walk.Err? {
      return Err(walk.error);
    }
    var (offsets, trailer) := walk.value;
    var size := FirstKeyNumber(trailer, 0, "/Size");
    var root := FirstKeyReference(trailer, 0, "/Root");
    if size.None? {
      return Err("trailer has no /Size");
    }
    if root.None? {
      return Err("trailer has no /Root");
    }
    return Ok(Index(offsets, trailer, size.value.value, Ref(root.value.num, root.value.gen)));
  }

  // ---- Indirect objects and form fields ---------------------------------------------------------

  datatype Object = Object(num: nat, gen: nat, body: string)

  datatype ObjectHeader = ObjectHeader(gen: nat, end: nat)

  /** `^num\s+(\d+)\s+obj` at the start of `s`. */
  function ObjectHeaderAt(s: string, num: nat): (r: Option<ObjectHeader>)
    ensures r.Some? ==> r.value.end <= |s|
  {
    match KeyNumberAt(s, 0, Dec(num))
    case None => None
    case Some(gen) =>
      var q := SkipSpaces(s, gen.end);
      if q > gen.end && At(s, q, "obj") then Some(ObjectHeader(gen.value, q + 3)) else None
  }

  /** An object read from text that starts at its header. */
  function ParseObject(s: string, num: nat): Result<Object> {
    match ObjectHeaderAt(s, num)
    case None => Err("object header not found")
    case Some(head) =>
      var end := IndexOf(s, "endobj", head.end);
      if end == -1 then Err("object has no endobj") else Ok(Object(num, head.gen, Trim(s[head.end..end])))
  }

  function ReadObject(buf: string, offsets: Table, num: nat): Result<Object> {
    match Lookup(offsets, num)
    case None => Err("object not in xref")
    case Some(offset) => ParseObject(Window(buf, offset, OBJECT_WINDOW), num)
  }

  const SIG_FIELD := "/FT /Sig"

  /** The object is the signature field called `name`. */
  predicate IsField(body: string, name: string) {
    Includes(body, "/T (" + name + ")") && Includes(body, SIG_FIELD)
  }

  function FieldFrom(buf: string, offsets: Table, i: nat, name: string): Result<Object>
    requires i <= |offsets|
    decreases |offsets| - i
  {
    if i == |offsets| then Err("signature field not found")
    else
      var obj := ReadObject(buf, offsets, offsets[i].num);
      if obj.Ok? && IsField(obj.value.body, name) then obj else FieldFrom(buf, offsets, i + 1, name)
  }

  method FindFieldByName(buf: string, offsets: Table, name: string) returns (r: Result<Object>)
    ensures r == FieldFrom(buf, offsets, 0, name)
  {
    var i := 0;
    while i < |offsets|
      invariant 0 <= i <= |offsets|
      invariant FieldFrom(buf, offsets, 0, name) == FieldFrom(buf, offsets, i, name)
    {
      var obj := ReadObject(buf, offsets, offsets[i].num);
      if obj.Ok? && IsField(obj.value.body, name) {
        return obj;
      }
      i := i + 1;
    }
    return Err("signature field not found");
  }

  // ---- Signature dictionaries -------------------------------------------------------------------

  const BYTE_RANGE := "/ByteRange"
  const CONTENTS := "/Contents"

  datatype ByteRange = ByteRange(b0: nat, b1: nat, b2: nat, b3: nat)

  datatype RangeMatch = RangeMatch(range: ByteRange, end: nat)

  /** `/ByteRange\s*\[\s*(\d+)\s+(\d+)\s+(\d+)\s+(\d+)\s*\]` at `p`. */
  function RangeAt(s: string, p: nat): (r: Option<RangeMatch>)
    ensures r.Some? ==> At(s, p, BYTE_RANGE) && p + 10 < r.value.end <= |s|
  {
    if At(s, p, BYTE_RANGE) then RangeBody(s, p + 10) else None
  }

  /** The part of the match after the keyword. */
  function RangeBody(s: string, p: nat): (r: Option<RangeMatch>)
    requires p <= |s|
    ensures r.Some? ==> p < r.value.end <= |s|
  {
    var bracket := SkipSpaces(s, p);
    if bracket == |s| || s[bracket] != '[' then None else RangeNumbers(s, SkipSpaces(s, bracket + 1))
  }

  function RangeNumbers(s: string, p: nat): (r: Option<RangeMatch>)
    requires p <= |s|
    ensures r.Some? ==> p < r.value.end <= |s|
  {
    match NumberAt(s, p)
    case None => None
    case Some(a) =>
      match SpacedNumberAt(s, a.end)
      case None => None
      case Some(b) =>
        match SpacedNumberAt(s, b.end)
        case None => None
        case Some(c) =>
          match SpacedNumberAt(s, c.end)
          case None => None
          case Some(d) =>
            var q := SkipSpaces(s, d.end);
            if q < |s| && s[q] == ']'
            then Some(RangeMatch(ByteRange(a.value, b.value, c.value, d.value), q + 1))
            else None
  }

  datatype Slot = Slot(range: ByteRange, contentsStart: int, contentsEnd: int, hex: string)

  /** The slot of the /ByteRange matched at `p`; None when no /Contents follows. */
  function SlotOf(s: string, p: nat, range: ByteRange): Option<Slot> {
    var tag := IndexOf(s, CONTENTS, p);
    if tag == -1 then None
    else
      var open := IndexOf(s, "<", tag);
      var close := IndexOf(s, ">", if open == -1 then 0 else open);
      Some(Slot(range, open, close + 1, JsSlice(s, open + 1, close)))
  }

  function SlotsAt(s: string, p: nat): (r: seq<Slot>)
    ensures |r| <= 1
  {
    match RangeAt(s, p)
    case None => []
    case Some(m) =>
      match SlotOf(s, p, m.range)
      case None => []
      case Some(slot) => [slot]
  }

  /** The slots of all positions at or after `p`, in file order. */
  function Slots(s: string, p: nat): seq<Slot>
    decreases |s| - p
  {
    if p >= |s| then [] else SlotsAt(s, p) + Slots(s, p + 1)
  }

  predicate IsRangeChar(c: char) {
    IsSpace(c) || IsDigit(c) || c == '[' || c == ']'
  }

  lemma SpacedNumberShape(s: string, p: nat)
    requires p <= |s| && SpacedNumberAt(s, p).Some?
    ensures forall i :: p <= i < SpacedNumberAt(s, p).value.end ==> IsSpace(s[i]) || IsDigit(s[i])
  {
  }

  lemma RangeNumbersShape(s: string, p: nat)
    requires p <= |s| && RangeNumbers(s, p).Some?
    ensures forall i :: p <= i < RangeNumbers(s, p).value.end ==> IsRangeChar(s[i])
    ensures s[RangeNumbers(s, p).value.end - 1] == ']'
  {
    var a := NumberAt(s, p).value;
    SpacedNumberShape(s, a.end);
    var b := SpacedNumberAt(s, a.end).value;
    SpacedNumberShape(s, b.end);
    var c := SpacedNumberAt(s, b.end).value;
    SpacedNumberShape(s, c.end);
  }

  /** Past its keyword a match holds only white space, digits and brackets, and it ends with `]`. */
  lemma RangeShape(s: string, p: nat)
    requires p <= |s| && RangeBody(s, p).Some?
    ensures forall i :: p <= i < RangeBody(s, p).value.end ==> IsRangeChar(s[i])
    ensures s[RangeBody(s, p).value.end - 1] == ']'
  {
    hide RangeNumbers;
    var bracket := SkipSpaces(s, p);
    RangeNumbersShape(s, SkipSpaces(s, bracket + 1));
  }

  /** The keyword has no `/` past its first character. */
  lemma KeywordOnce(s: string, p: nat, q: nat)
    requires At(s, p, BYTE_RANGE) && p < q < p + 10
    ensures s[q] != '/'
  {
    assert s[q] == s[p..p + 10][q - p];
  }

  lemma InsideBody(s: string, p: nat, q: nat)
    requires p <= |s| && RangeBody(s, p).Some? && p <= q < RangeBody(s, p).value.end
    ensures s[q] != '/'
  {
    RangeShape(s, p);
  }

  /** No match starts strictly inside another. */
  lemma MatchesDisjoint(s: string, p: nat, q: nat)
    requires RangeAt(s, p).Some? && p < q < RangeAt(s, p).value.end
    ensures !At(s, q, BYTE_RANGE)
  {
    hide RangeBody;
    if q < p + 10 {
      KeywordOnce(s, p, q);
    } else {
      InsideBody(s, p + 10, q);
    }
    AtFirst(s, q, BYTE_RANGE);
  }

  lemma SkipOne(s: string, p: nat)
    requires p < |s| && RangeAt(s, p).None?
    ensures Slots(s, p) == Slots(s, p + 1)
  {
  }

  lemma {:induction false} SkipUnmatched(s: string, p: nat, q: nat)
    requires p <= q
    requires forall i :: p <= i < q ==> !At(s, i, BYTE_RANGE)
    ensures Slots(s, p) == Slots(s, q)
    decreases q - p
  {
    if p < q && p < |s| {
      assert !At(s, p, BYTE_RANGE);
      SkipUnmatched(s, p + 1, q);
    }
  }

  /** One `re.exec`: the first match at or after `lastIndex`. */
  method NextMatch(s: string, lastIndex: nat) returns (index: nat)
    requires lastIndex <= |s|
    ensures lastIndex <= index <= |s|
    ensures index < |s| ==> RangeAt(s, index).Some?
    ensures Slots(s, lastIndex) == Slots(s, index)
  {
    index := lastIndex;
    while index < |s| && RangeAt(s, index).None?
      invariant lastIndex <= index <= |s|
      invariant Slots(s, lastIndex) == Slots(s, index)
    {
      SkipOne(s, index);
      index := index + 1;
    }
  }

  lemma SkipMatch(s: string, index: nat)
    requires index < |s| && RangeAt(s, index).Some?
    ensures Slots(s, index) == SlotsAt(s, index) + Slots(s, RangeAt(s, index).value.end)
  {
    var end := RangeAt(s, index).value.end;
    forall q | index < q < end
      ensures !At(s, q, BYTE_RANGE)
    {
      MatchesDisjoint(s, index, q);
    }
    SkipUnmatched(s, index + 1, end);
  }

  /** `findSignatures`: the scan resumes after each match, and still finds what looking at every position finds. */
  method FindSignatures(s: string) returns (out: seq<Slot>)
    ensures out == Slots(s, 0)
  {
    out := [];
    var lastIndex := 0;
    while true
      invariant lastIndex <= |s|
      invariant out + Slots(s, lastIndex) == Slots(s, 0)
      decreases |s| - lastIndex
    {
      var index := NextMatch(s, lastIndex);
      if index == |s| {
        return;
      }
      SkipMatch(s, index);
      out := out + SlotsAt(s, index);
      lastIndex := RangeAt(s, index).value.end;
    }
  }
}
