/** What a cross-reference table means, told from the text alone: which lines stand where, and which of them decides for
    an object number. */
module XrefTables {
  import opened Text
  import opened PdfObjects
  import opened IncrementalSigner
  import opened Stability
  import opened RevisionProofs
  import opened AppendProofs

  // ---- Headers ------------------------------------------------------------------------------------

  predicate Spaces(s: string, lo: nat, hi: nat) {
    lo <= hi <= |s| && forall i :: lo <= i < hi ==> IsSpace(s[i])
  }

  /** A maximal run of digits. */
  predicate Numeral(s: string, lo: nat, hi: nat) {
    lo < hi <= |s| && AllDigits(s[lo..hi]) && (hi == |s| || !IsDigit(s[hi]))
  }

  predicate IsBreak(c: char) {
    c == '\r' || c == '\n'
  }

  /** Two numerals after white space, and white space up to `e` whose last line break is at `first - 1`. */
  predicate HeaderSpans(s: string, p: nat, a: nat, b: nat, c: nat, d: nat, e: nat, start: nat, count: nat, first: nat) {
    && Spaces(s, p, a) && Numeral(s, a, b) && Spaces(s, b, c) && b < c && Numeral(s, c, d) && Spaces(s, d, e)
    && (e == |s| || !IsSpace(s[e]))
    && d < first <= e && IsBreak(s[first - 1]) && (forall i :: first <= i < e ==> !IsBreak(s[i]))
    && ParseNat(s[a..b]) == start && ParseNat(s[c..d]) == count
  }

  /** At `p` stands the header of `count` lines for the objects from `start` on; the lines begin at `first`. */
  ghost predicate Heads(s: string, p: nat, start: nat, count: nat, first: nat) {
    exists a, b, c, d, e :: HeaderSpans(s, p, a, b, c, d, e, start, count, first)
  }

  lemma {:induction false} SpacesEnd(s: string, p: nat, q: nat)
    requires Spaces(s, p, q) && (q == |s| || !IsSpace(s[q]))
    ensures SkipSpaces(s, p) == q
    decreases q - p
  {
    if p < q {
      SpacesEnd(s, p + 1, q);
    }
  }

  lemma {:induction false} DigitsEnd(s: string, p: nat, q: nat)
    requires p <= q <= |s| && (forall i :: p <= i < q ==> IsDigit(s[i])) && (q == |s| || !IsDigit(s[q]))
    ensures SkipDigits(s, p) == q
    decreases q - p
  {
    if p < q {
      DigitsEnd(s, p + 1, q);
    }
  }

  lemma NumeralReads(s: string, p: nat, q: nat)
    requires Numeral(s, p, q)
    ensures NumberAt(s, p) == Some(Number(ParseNat(s[p..q]), q)) && !IsSpace(s[p])
  {
    forall i | p <= i < q
      ensures IsDigit(s[i])
    {
      assert s[i] == s[p..q][i - p];
    }
    DigitsEnd(s, p, q);
  }

  lemma {:induction false} LastBreakIs(s: string, p: nat, q: nat, r: nat)
    requires p < r <= q <= |s| && IsBreak(s[r - 1]) && forall i :: r <= i < q ==> !IsBreak(s[i])
    ensures LastBreak(s, p, q) == r
    decreases q
  {
    if r < q {
      LastBreakIs(s, p, q - 1, r);
    }
  }

  /** The reader finds a header exactly where one stands. */
  lemma HeaderIff(s: string, p: nat, start: nat, count: nat, first: nat)
    ensures HeaderAt(s, p) == Some(Header(start, count, first)) <==> Heads(s, p, start, count, first)
  {
    hide ParseNat, SkipSpaces, SkipDigits, LastBreak;
    if HeaderAt(s, p) == Some(Header(start, count, first)) {
      HeaderSpansOf(s, p);
    }
    if a, b, c, d, e :| HeaderSpans(s, p, a, b, c, d, e, start, count, first) {
      NumeralReads(s, a, b);
      NumeralReads(s, c, d);
      SpacesEnd(s, p, a);
      SpacesEnd(s, b, c);
      SpacesEnd(s, d, e);
      LastBreakIs(s, d, e, first);
    }
  }

  lemma HeaderSpansOf(s: string, p: nat)
    requires HeaderAt(s, p).Some?
    ensures var h := HeaderAt(s, p).value; Heads(s, p, h.start, h.count, h.end)
  {
    hide ParseNat;
    var a := SkipSpaces(s, p);
    var b := NumberAt(s, a).value.end;
    var c := SkipSpaces(s, b);
    var d := NumberAt(s, c).value.end;
    var e := SkipSpaces(s, d);
    var h := HeaderAt(s, p).value;
    assert HeaderSpans(s, p, a, b, c, d, e, h.start, h.count, h.end);
  }

  // ---- Tables -------------------------------------------------------------------------------------

  /** A line of a subsection: ten digits, five digits and the kind, separated by white space. */
  predicate LineAt(s: string, p: nat) {
    && p + 18 <= |s| && AllDigits(s[p..p + 10]) && IsSpace(s[p + 10]) && AllDigits(s[p + 11..p + 16])
    && IsSpace(s[p + 16]) && (s[p + 17] == 'n' || s[p + 17] == 'f')
  }

  predicate InUse(s: string, p: nat) {
    LineAt(s, p) && s[p + 17] == 'n'
  }

  /** A subsection: where its header is searched for, the objects it numbers and where its lines begin. */
  datatype Block = Block(at: nat, start: nat, count: nat, first: nat)

  /** The 20 bytes of line `i`. */
  function Line(b: Block, i: nat): nat {
    b.first + 20 * i
  }

  function EndOf(b: Block): nat {
    b.first + 20 * b.count
  }

  /** The blocks lie one after the other from `p` to `end`, where no further header stands. */
  ghost predicate Tabulated(s: string, p: nat, blocks: seq<Block>, end: nat)
    decreases |blocks|
  {
    if blocks == [] then p == end && forall start, count, first :: !Heads(s, p, start, count, first)
    else
      && blocks[0].at == p && Heads(s, p, blocks[0].start, blocks[0].count, blocks[0].first)
      && (forall i: nat :: i < blocks[0].count ==> LineAt(s, Line(blocks[0], i)))
      && Tabulated(s, EndOf(blocks[0]), blocks[1..], end)
  }

  /** Line `i` of block `k` says that the object is in use. */
  predicate Says(s: string, blocks: seq<Block>, k: nat, i: nat, num: nat) {
    k < |blocks| && i < blocks[k].count && blocks[k].start + i == num && InUse(s, Line(blocks[k], i))
  }

  /** The offset in the digits of a line. */
  function OffsetIn(s: string, p: nat): nat
    requires LineAt(s, p)
  {
    ParseNat(s[p..p + 10])
  }

  /** And no later block says so again. */
  ghost predicate Decides(s: string, blocks: seq<Block>, k: nat, i: nat, num: nat) {
    Says(s, blocks, k, i, num) && forall l: nat, j: nat :: l > k ==> !Says(s, blocks, l, j, num)
  }

  /** The answer is the offset in the digits of line `i` of block `k`. */
  predicate Offered(s: string, blocks: seq<Block>, k: nat, i: nat, r: Option<nat>) {
    k < |blocks| && LineAt(s, Line(blocks[k], i)) && r == Some(OffsetIn(s, Line(blocks[k], i)))
  }

  /** What a table answers for a number: the offset of the last line that says it is in use; without such a line what it
      answered before. */
  ghost predicate Told(s: string, blocks: seq<Block>, before: Option<nat>, after: Table, num: nat) {
    && (forall k: nat, i: nat :: Decides(s, blocks, k, i, num) ==> Offered(s, blocks, k, i, Lookup(after, num)))
    && ((forall k: nat, i: nat :: !Says(s, blocks, k, i, num)) ==> Lookup(after, num) == before)
  }

  lemma {:induction false} LookupPut(t: Table, n: nat, offset: nat, num: nat)
    ensures Lookup(Put(t, n, offset), num) == if num == n then Some(offset) else Lookup(t, num)
  {
    if t != [] && t[0].num != n {
      LookupPut(t[1..], n, offset, num);
    }
  }

  /** The lines from `i` on of one block. */
  ghost predicate EntriesMean(s: string, b: Block, i: nat, before: Table, after: Table) {
    forall num: nat :: Lookup(after, num) ==
      if b.start + i <= num < b.start + b.count && InUse(s, Line(b, num - b.start))
      then Some(OffsetIn(s, Line(b, num - b.start))) else Lookup(before, num)
  }

  lemma EntryIff(s: string, p: nat)
    ensures XrefEntryAt(s, p).Some? <==> LineAt(s, p)
    ensures LineAt(s, p) ==> XrefEntryAt(s, p) == Some(XrefEntry(OffsetIn(s, p), s[p + 17] == 'n'))
  {
  }

  /** A block is read when all its lines are lines; each in use sets its own object and no other. */
  lemma {:induction false} EntriesRead(s: string, b: Block, i: nat, t: Table)
    requires i <= b.count
    ensures var r := Entries(s, Line(b, i), b.start, i, b.count, t);
      && (r.Ok? <==> forall j: nat :: i <= j < b.count ==> LineAt(s, Line(b, j)))
      && (r.Ok? ==> r.value.pos == EndOf(b) && EntriesMean(s, b, i, t, r.value.table))
      && (r.Err? ==> r.error == "malformed xref entry")
    decreases b.count - i
  {
    hide XrefEntryAt, LineAt, OffsetIn, Put;
    if i < b.count {
      EntryIff(s, Line(b, i));
      if LineAt(s, Line(b, i)) {
        var e := XrefEntryAt(s, Line(b, i)).value;
        var u := if e.inUse then Put(t, b.start + i, e.offset) else t;
        assert Line(b, i) + 20 == Line(b, i + 1);
        EntriesRead(s, b, i + 1, u);
        var r := Entries(s, Line(b, i + 1), b.start, i + 1, b.count, u);
        if r.Ok? {
          forall num: nat
            ensures Lookup(u, num) == if e.inUse && num == b.start + i then Some(e.offset) else Lookup(t, num)
          {
            LookupPut(t, b.start + i, e.offset, num);
          }
          EntriesStep(s, b, i, t, u, r.value.table);
        }
      }
    }
  }

  lemma EntriesStep(s: string, b: Block, i: nat, t: Table, u: Table, after: Table)
    requires i < b.count && LineAt(s, Line(b, i)) && EntriesMean(s, b, i + 1, u, after)
    requires forall num: nat ::
      Lookup(u, num) == if InUse(s, Line(b, i)) && num == b.start + i then Some(OffsetIn(s, Line(b, i)))
                        else Lookup(t, num)
    ensures EntriesMean(s, b, i, t, after)
  {
    hide LineAt, OffsetIn, Lookup, Line;
    forall num: nat
      ensures Lookup(after, num) ==
        if b.start + i <= num < b.start + b.count && InUse(s, Line(b, num - b.start))
        then Some(OffsetIn(s, Line(b, num - b.start))) else Lookup(t, num)
    {
      assert num == b.start + i ==> num - b.start == i;
    }
  }

  lemma SaysShift(s: string, blocks: seq<Block>, k: nat, i: nat, num: nat)
    requires blocks != []
    ensures Says(s, blocks, k + 1, i, num) <==> Says(s, blocks[1..], k, i, num)
  {
    hide InUse;
  }

  lemma DecidedLater(s: string, blocks: seq<Block>, k: nat, i: nat, num: nat)
    requires blocks != [] && k > 0 && Decides(s, blocks, k, i, num)
    ensures Decides(s, blocks[1..], k - 1, i, num)
  {
    hide Says;
    SaysShift(s, blocks, k - 1, i, num);
    forall l: nat, j: nat | l > k - 1
      ensures !Says(s, blocks[1..], l, j, num)
    {
      SaysShift(s, blocks, l, j, num);
    }
  }

  /** What no later block of the whole says, no block of the rest says. */
  lemma NotSaid(s: string, blocks: seq<Block>, num: nat)
    requires blocks != [] && forall l: nat, j: nat :: l > 0 ==> !Says(s, blocks, l, j, num)
    ensures forall l: nat, j: nat :: !Says(s, blocks[1..], l, j, num)
  {
    hide Says;
    forall l: nat, j: nat
      ensures !Says(s, blocks[1..], l, j, num)
    {
      SaysShift(s, blocks, l, j, num);
    }
  }

  /** One block more at the front. */
  lemma ToldStep(s: string, blocks: seq<Block>, t: Table, u: Table, after: Table, num: nat)
    requires blocks != [] && EntriesMean(s, blocks[0], 0, t, u) && Told(s, blocks[1..], Lookup(u, num), after, num)
    ensures Told(s, blocks, Lookup(t, num), after, num)
  {
    hide OffsetIn, Lookup, Line, Says;
    FirstBlock(s, blocks, t, u, num);
    hide EntriesMean;
    forall k: nat, i: nat | Decides(s, blocks, k, i, num)
      ensures Offered(s, blocks, k, i, Lookup(after, num))
    {
      if k > 0 {
        DecidedLater(s, blocks, k, i, num);
        assert Offered(s, blocks[1..], k - 1, i, Lookup(after, num));
      } else {
        NotSaid(s, blocks, num);
        FirstDecides(s, blocks, i, num);
      }
    }
    if forall k: nat, i: nat :: !Says(s, blocks, k, i, num) {
      NotSaid(s, blocks, num);
    }
  }

  lemma FirstDecides(s: string, blocks: seq<Block>, i: nat, num: nat)
    requires Decides(s, blocks, 0, i, num)
    ensures blocks != [] && InUse(s, Line(blocks[0], i))
  {
  }

  lemma FirstBlock(s: string, blocks: seq<Block>, t: Table, u: Table, num: nat)
    requires blocks != [] && EntriesMean(s, blocks[0], 0, t, u)
    ensures forall i: nat :: Says(s, blocks, 0, i, num) ==> Lookup(u, num) == Some(OffsetIn(s, Line(blocks[0], i)))
    ensures (forall i: nat :: !Says(s, blocks, 0, i, num)) ==> Lookup(u, num) == Lookup(t, num)
  {
    hide InUse, OffsetIn, Lookup, Line;
    var b := blocks[0];
    if b.start <= num {
      var i := num - b.start;
      assert b.start + i == num;
      assert Says(s, blocks, 0, i, num) <==> i < b.count && InUse(s, Line(b, i));
    }
  }

  /** Every table that is read lies in the text as blocks, and every table that lies there is read; the reader answers
      for each object number by the last line that says it is in use. */
  lemma {:induction false} TableRead(s: string, p: nat, blocks: seq<Block>, end: nat, t: Table)
    requires Tabulated(s, p, blocks, end)
    ensures var r := Subsections(s, p, t);
      r.Ok? && r.value.pos == end && forall num: nat :: Told(s, blocks, Lookup(t, num), r.value.table, num)
    decreases |blocks|
  {
    hide HeaderAt, Entries, Told, LineAt, Heads, EntriesMean, EndOf;
    if blocks == [] {
      NoHeader(s, p);
      forall num: nat
        ensures Told(s, [], Lookup(t, num), t, num)
      {
        NothingSaid(s, t, num);
      }
    } else {
      var b := blocks[0];
      HeaderIff(s, p, b.start, b.count, b.first);
      EntriesRead(s, b, 0, t);
      assert Line(b, 0) == b.first;
      var u := Entries(s, b.first, b.start, 0, b.count, t).value;
      TableRead(s, EndOf(b), blocks[1..], end, u.table);
      var r := Subsections(s, EndOf(b), u.table).value;
      SubsectionsStep(s, p, t);
      forall num: nat
        ensures Told(s, blocks, Lookup(t, num), r.table, num)
      {
        ToldStep(s, blocks, t, u.table, r.table, num);
      }
    }
  }

  lemma NothingSaid(s: string, t: Table, num: nat)
    ensures Told(s, [], Lookup(t, num), t, num)
  {
  }

  lemma NoHeader(s: string, p: nat)
    requires forall start, count, first :: !Heads(s, p, start, count, first)
    ensures HeaderAt(s, p) == None
  {
    hide Heads, HeaderAt;
    if HeaderAt(s, p).Some? {
      var h := HeaderAt(s, p).value;
      HeaderIff(s, p, h.start, h.count, h.end);
      assert false;
    }
  }

  lemma SubsectionsStep(s: string, p: nat, t: Table)
    requires HeaderAt(s, p).Some?
    ensures var h := HeaderAt(s, p).value;
      Subsections(s, p, t) ==
        match Entries(s, h.end, h.start, 0, h.count, t)
        case Err(e) => Err(e)
        case Ok(q) => Subsections(s, q.pos, q.table)
  {
    hide HeaderAt, Entries;
  }

  lemma {:induction false} TableOf(s: string, p: nat, t: Table) returns (blocks: seq<Block>)
    requires Subsections(s, p, t).Ok?
    ensures Tabulated(s, p, blocks, Subsections(s, p, t).value.pos)
    decreases |s| - p
  {
    hide HeaderAt, Entries, LineAt, Heads, EntriesMean, Subsections;
    if HeaderAt(s, p).None? {
      blocks := [];
      SubsectionsEnd(s, p, t);
      forall start, count, first
        ensures !Heads(s, p, start, count, first)
      {
        HeaderIff(s, p, start, count, first);
      }
    } else {
      var h := HeaderAt(s, p).value;
      var b := Block(p, h.start, h.count, h.end);
      SubsectionsStep(s, p, t);
      HeaderIff(s, p, b.start, b.count, b.first);
      EntriesRead(s, b, 0, t);
      assert Line(b, 0) == b.first;
      var u := Entries(s, b.first, b.start, 0, b.count, t).value;
      assert p < h.end <= |s| by { HeaderInside(s, p); }
      var rest := TableOf(s, EndOf(b), u.table);
      blocks := [b] + rest;
      assert blocks[1..] == rest;
    }
  }

  lemma HeaderInside(s: string, p: nat)
    requires HeaderAt(s, p).Some?
    ensures p < HeaderAt(s, p).value.end <= |s|
  {
  }

  lemma SubsectionsEnd(s: string, p: nat, t: Table)
    requires HeaderAt(s, p).None?
    ensures Subsections(s, p, t) == Ok(Parsed(t, p))
  {
  }

  /** The table of a section is read exactly when it lies in the text as blocks of lines; otherwise a line is
      malformed. */
  lemma TableIff(s: string, p: nat)
    ensures Subsections(s, p, []).Ok? <==> exists blocks, end :: Tabulated(s, p, blocks, end)
    ensures Subsections(s, p, []).Ok? || Subsections(s, p, []) == Err("malformed xref entry")
  {
    hide Subsections, Tabulated, Told;
    if Subsections(s, p, []).Ok? {
      var blocks := TableOf(s, p, []);
    }
    if blocks, end :| Tabulated(s, p, blocks, end) {
      TableRead(s, p, blocks, end, []);
    }
    OnlyError(s, p, []);
  }

  lemma {:induction false} OnlyError(s: string, p: nat, t: Table)
    ensures Subsections(s, p, t).Ok? || Subsections(s, p, t) == Err("malformed xref entry")
    decreases |s| - p
  {
    hide HeaderAt, Entries, LineAt, EntriesMean, Subsections;
    if HeaderAt(s, p).None? {
      SubsectionsEnd(s, p, t);
    } else {
      var h := HeaderAt(s, p).value;
      SubsectionsStep(s, p, t);
      EntriesRead(s, Block(p, h.start, h.count, h.end), 0, t);
      var r := Entries(s, h.end, h.start, 0, h.count, t);
      if r.Ok? {
        HeaderInside(s, p);
        OnlyError(s, r.value.pos, r.value.table);
      }
    }
  }

  // ---- Dictionaries -------------------------------------------------------------------------------

  /** What stands between the brackets of a dictionary: text without double brackets, and nested dictionaries. */
  datatype Body = Empty | Text(text: string, rest: Body) | Nested(inner: Body, rest: Body)

  predicate IsAngle(c: char) {
    c == '<' || c == '>'
  }

  /** Text in which two brackets never meet, at its ends either: names, numbers, hexadecimal strings and the like. */
  predicate Plain(t: string) {
    && t != "" && !IsAngle(t[0]) && !IsAngle(t[|t| - 1])
    && forall i, j :: 0 <= i && j == i + 1 < |t| ==> !(t[i] == t[j] && IsAngle(t[i]))
  }

  predicate WellNested(b: Body) {
    match b
    case Empty => true
    case Text(t, rest) => Plain(t) && WellNested(rest)
    case Nested(inner, rest) => WellNested(inner) && WellNested(rest)
  }

  function Written(b: Body): string {
    match b
    case Empty => ""
    case Text(t, rest) => t + Written(rest)
    case Nested(inner, rest) => "<<" + Written(inner) + ">>" + Written(rest)
  }

  lemma {:induction false} TextSkipped(s: string, p: nat, t: string, k: nat, depth: int)
    requires At(s, p, t) && Plain(t) && k <= |t| && p + |t| < |s|
    ensures DictEnd(s, p + k, depth) == DictEnd(s, p + |t|, depth)
    decreases |t| - k
  {
    hide At;
    if k < |t| {
      AtEach(s, p, t);
      assert s[p + k] == t[k] && (k + 1 < |t| ==> s[p + k + 1] == t[k + 1]);
      assert k + 1 < |t| ==> !(t[k] == t[k + 1] && IsAngle(t[k]));
      TextSkipped(s, p, t, k + 1, depth);
    }
  }

  /** A well-nested body leaves the depth as it was. */
  lemma {:induction false} BodySkipped(s: string, p: nat, b: Body, depth: int)
    requires WellNested(b) && depth > 0 && At(s, p, Written(b)) && p + |Written(b)| < |s|
    ensures DictEnd(s, p, depth) == DictEnd(s, p + |Written(b)|, depth)
    decreases b
  {
    hide DictEnd, At;
    match b
    case Empty =>
    case Text(t, rest) =>
      AtConcat(s, p, t, Written(rest));
      TextSkipped(s, p, t, 0, depth);
      BodySkipped(s, p + |t|, rest, depth);
    case Nested(inner, rest) =>
      var close := p + 2 + |Written(inner)|;
      AtConcat(s, p, "<<" + Written(inner) + ">>", Written(rest));
      AtConcat(s, p, "<<" + Written(inner), ">>");
      AtConcat(s, p, "<<", Written(inner));
      Opens(s, p, depth);
      AtInside(s, close, ">>");
      BodySkipped(s, p + 2, inner, depth + 1);
      Closes(s, close, depth + 1);
      BodySkipped(s, close + 2, rest, depth);
  }

  lemma Opens(s: string, p: nat, depth: int)
    requires At(s, p, "<<")
    ensures DictEnd(s, p, depth) == DictEnd(s, p + 2, depth + 1)
  {
    AtFirstTwo(s, p, "<<");
  }

  lemma Closes(s: string, p: nat, depth: int)
    requires At(s, p, ">>")
    ensures DictEnd(s, p, depth) == if depth == 1 then Some(p + 2) else DictEnd(s, p + 2, depth - 1)
  {
    AtFirstTwo(s, p, ">>");
  }

  /** A dictionary ends at its own closing brackets, however deeply others nest in it. */
  lemma DictionaryCloses(s: string, p: nat, b: Body)
    requires WellNested(b) && At(s, p, "<<" + Written(b) + ">>")
    ensures DictEnd(s, p, 0) == Some(p + |Written(b)| + 4)
  {
    hide DictEnd, At;
    AtConcat(s, p, "<<" + Written(b), ">>");
    AtConcat(s, p, "<<", Written(b));
    AtInside(s, p + 2 + |Written(b)|, ">>");
    Opens(s, p, 0);
    BodySkipped(s, p + 2, b, 1);
    Closes(s, p + 2 + |Written(b)|, 1);
  }

  // ---- The chain of sections ----------------------------------------------------------------------

  /** The sections at these offsets, each naming the next and the last naming none; no offset comes twice. */
  ghost predicate Linked(buf: string, offsets: seq<nat>, sections: seq<Section>) {
    && |offsets| == |sections| > 0
    && (forall i :: 0 <= i < |offsets| ==> SectionAt(buf, offsets[i]) == Ok(sections[i]))
    && (forall i, j :: 0 <= i && j == i + 1 < |offsets| ==> sections[i].prev == Some(offsets[j]))
    && sections[|sections| - 1].prev == None
    && forall i, j :: 0 <= i < j < |offsets| ==> offsets[i] != offsets[j]
  }

  lemma LinkedTail(buf: string, offsets: seq<nat>, sections: seq<Section>)
    requires Linked(buf, offsets, sections) && |offsets| > 1
    ensures Linked(buf, offsets[1..], sections[1..]) && sections[0].prev == Some(offsets[1])
  {
    hide SectionAt;
    var (o, t) := (offsets[1..], sections[1..]);
    forall i, j | 0 <= i && j == i + 1 < |o|
      ensures t[i].prev == Some(o[j])
    {
      assert sections[i + 1].prev == Some(offsets[j + 1]);
    }
  }

  lemma LinkedMore(buf: string, offset: nat, section: Section, offsets: seq<nat>, sections: seq<Section>)
    requires Linked(buf, offsets, sections) && SectionAt(buf, offset) == Ok(section)
    requires section.prev == Some(offsets[0]) && offset !in offsets
    ensures Linked(buf, [offset] + offsets, [section] + sections)
  {
    hide SectionAt;
    var (o, t) := ([offset] + offsets, [section] + sections);
    forall i, j | 0 <= i && j == i + 1 < |o|
      ensures t[i].prev == Some(o[j])
    {
      if i > 0 {
        assert sections[i - 1].prev == Some(offsets[j - 1]);
      }
    }
  }

  lemma {:induction false} ChainLinked(buf: string, offset: nat, seen: set<nat>) returns (offsets: seq<nat>)
    requires Chain(buf, offset, seen).Ok?
    ensures Linked(buf, offsets, Chain(buf, offset, seen).value) && offsets[0] == offset
    ensures forall o :: o in offsets ==> o !in seen
    decreases |InFile(|buf|) - seen|
  {
    hide SectionAt, Linked;
    var section := SectionAt(buf, offset).value;
    if section.prev.None? {
      offsets := [offset];
      LinkedOne(buf, offset, section);
    } else {
      assert offset < |buf| by { SectionInside(buf, offset); }
      Unseen(buf, offset, seen);
      var rest := ChainLinked(buf, section.prev.value, seen + {offset});
      LinkedMore(buf, offset, section, rest, Chain(buf, section.prev.value, seen + {offset}).value);
      offsets := [offset] + rest;
    }
  }

  lemma SectionInside(buf: string, offset: nat)
    requires SectionAt(buf, offset).Ok?
    ensures offset < |buf|
  {
  }

  lemma LinkedOne(buf: string, offset: nat, section: Section)
    requires SectionAt(buf, offset) == Ok(section) && section.prev == None
    ensures Linked(buf, [offset], [section])
  {
    hide SectionAt;
  }

  lemma {:induction false} LinkedChain(buf: string, offsets: seq<nat>, sections: seq<Section>, seen: set<nat>)
    requires Linked(buf, offsets, sections) && forall o :: o in offsets ==> o !in seen
    ensures Chain(buf, offsets[0], seen) == Ok(sections)
    decreases |offsets|
  {
    hide SectionAt;
    assert offsets[0] in offsets;
    if |offsets| > 1 {
      LinkedTail(buf, offsets, sections);
      SectionInside(buf, offsets[0]);
      Unseen(buf, offsets[0], seen);
      LinkedChain(buf, offsets[1..], sections[1..], seen + {offsets[0]});
      assert sections == [sections[0]] + sections[1..];
    } else {
      assert sections == [sections[0]];
    }
  }

  /** A chain is read exactly when its sections lead, each to the next, to one that names no other, without coming back
      to an offset; a chain that comes back is refused. */
  lemma ChainIff(buf: string, offset: nat, sections: seq<Section>)
    ensures Chain(buf, offset, {}) == Ok(sections) <==>
      exists offsets :: Linked(buf, offsets, sections) && offsets[0] == offset
  {
    hide SectionAt, Chain;
    if Chain(buf, offset, {}) == Ok(sections) {
      var offsets := ChainLinked(buf, offset, {});
    }
    if offsets :| Linked(buf, offsets, sections) && offsets[0] == offset {
      LinkedChain(buf, offsets, sections, {});
    }
  }

  /** Where the newest section starts: the number after the last `startxref`, which must stand in the last 2048
      bytes. */
  lemma StartXrefIff(buf: string, n: nat)
    ensures StartXref(buf) == Ok(n) <==> exists p: nat ::
      && |buf| <= p + 2048 && LastStart(buf, p) && KeyNumberAt(buf, p, "startxref").Some?
      && KeyNumberAt(buf, p, "startxref").value.value == n
  {
    hide KeyNumberAt, LastIndexOf, FirstKeyNumber, LastStart;
    var from := TailStart(buf);
    var tail := buf[from..];
    var idx := LastIndexOf(tail, "startxref", |tail|);
    forall p: nat | from <= p && LastStart(buf, p)
      ensures idx == p - from
    {
      LastStartOnly(buf, p);
    }
    if idx != -1 {
      LastStartIs(buf, idx);
      AtInside(tail, idx, "startxref");
      StartReads(buf, from + idx);
      assert tail[idx..] == buf[from + idx..];
    }
  }

  /** Reading from the keyword on. */
  lemma StartReads(buf: string, p: nat)
    requires LastStart(buf, p) && p <= |buf|
    ensures var f := FirstKeyNumber(buf[p..], 0, "startxref"); var k := KeyNumberAt(buf, p, "startxref");
      (f.Some? <==> k.Some?) && (k.Some? ==> f.value.value == k.value.value)
  {
    hide KeyNumberAt, FirstKeyNumber;
    var (a, t) := (buf[..p], buf[p..]);
    assert buf == a + t;
    forall i: nat | i > 0
      ensures !At(t, i, "startxref")
    {
      AtSuffix(a, t, i, "startxref");
    }
    OnlyThere(t);
    KeyNumberShift(a, t, 0, "startxref");
  }

  lemma {:induction false} SpacesShift(a: string, t: string, i: nat)
    requires i <= |t|
    ensures SkipSpaces(a + t, |a| + i) == |a| + SkipSpaces(t, i)
    decreases |t| - i
  {
    if i < |t| && IsSpace(t[i]) {
      SpacesShift(a, t, i + 1);
    }
  }

  lemma {:induction false} DigitsShift(a: string, t: string, i: nat)
    requires i <= |t|
    ensures SkipDigits(a + t, |a| + i) == |a| + SkipDigits(t, i)
    decreases |t| - i
  {
    if i < |t| && IsDigit(t[i]) {
      DigitsShift(a, t, i + 1);
    }
  }

  lemma KeyNumberShift(a: string, t: string, i: nat, key: string)
    ensures var (f, k) := (KeyNumberAt(t, i, key), KeyNumberAt(a + t, |a| + i, key));
      (f.Some? <==> k.Some?) && (f.Some? ==> f.value.value == k.value.value)
  {
    hide ParseNat, SkipSpaces, SkipDigits;
    AtSuffix(a, t, i, key);
    if At(t, i, key) {
      AtInside(t, i, key);
      var p := i + |key|;
      SpacesShift(a, t, p);
      var q := SkipSpaces(t, p);
      DigitsShift(a, t, q);
      var e := SkipDigits(t, q);
      assert (a + t)[|a| + q..|a| + e] == t[q..e];
    }
  }

  /** The last occurrence of the keyword in the file. */
  ghost predicate LastStart(buf: string, p: nat) {
    At(buf, p, "startxref") && forall i: nat :: i > p ==> !At(buf, i, "startxref")
  }

  lemma LastStartIs(buf: string, idx: nat)
    requires LastIndexOf(buf[TailStart(buf)..], "startxref", |buf[TailStart(buf)..]|) == idx
    ensures LastStart(buf, TailStart(buf) + idx)
  {
    hide LastIndexOf;
    var from := TailStart(buf);
    var tail := buf[from..];
    assert buf == buf[..from] + tail;
    AtSuffix(buf[..from], tail, idx, "startxref");
    forall i: nat | i > from + idx
      ensures !At(buf, i, "startxref")
    {
      AtSuffix(buf[..from], tail, i - from, "startxref");
      if i - from <= |tail| {
        assert !At(tail, i - from, "startxref");
      }
    }
  }

  lemma LastStartOnly(buf: string, p: nat)
    requires TailStart(buf) <= p && LastStart(buf, p)
    ensures LastIndexOf(buf[TailStart(buf)..], "startxref", |buf[TailStart(buf)..]|) == p - TailStart(buf)
  {
    hide LastIndexOf;
    var from := TailStart(buf);
    var tail := buf[from..];
    assert buf == buf[..from] + tail;
    AtSuffix(buf[..from], tail, p - from, "startxref");
    AtInside(tail, p - from, "startxref");
    forall i: nat | p - from < i
      ensures !At(tail, i, "startxref")
    {
      AtSuffix(buf[..from], tail, i, "startxref");
    }
    LastIndexOfIs(tail, "startxref", |tail|, p - from);
  }

  /** In text that starts with the last keyword the first number after one is the number after it. */
  lemma OnlyThere(s: string)
    requires forall i: nat :: i > 0 ==> !At(s, i, "startxref")
    ensures FirstKeyNumber(s, 0, "startxref") == KeyNumberAt(s, 0, "startxref")
  {
    hide KeyNumberAt;
    if KeyNumberAt(s, 0, "startxref").None? && s != "" {
      NoneLater(s, 1);
    }
  }

  lemma {:induction false} NoneLater(s: string, p: nat)
    requires 0 < p <= |s| && forall i: nat :: i > 0 ==> !At(s, i, "startxref")
    ensures FirstKeyNumber(s, p, "startxref").None?
    decreases |s| - p
  {
    assert !At(s, p, "startxref");
    if p < |s| {
      NoneLater(s, p + 1);
    }
  }

  // ---- Files with one section ---------------------------------------------------------------------

  /** The first occurrence at or after `from`. */
  ghost predicate FirstAt(s: string, pat: string, from: nat, p: nat) {
    from <= p && At(s, p, pat) && forall i: nat :: from <= i < p ==> !At(s, i, pat)
  }

  /** A section: its blocks, then the trailer keyword at `t` and the dictionary `[d, e)`. */
  ghost predicate SectionText(s: string, blocks: seq<Block>, end: nat, t: nat, d: nat, e: nat) {
    && At(s, 0, "xref") && Tabulated(s, 4, blocks, end)
    && FirstAt(s, "trailer", end, t) && FirstAt(s, "<<", t, d) && DictEnd(s, d, 0) == Some(e)
  }

  lemma SectionMeans(s: string, blocks: seq<Block>, end: nat, t: nat, d: nat, e: nat)
    requires SectionText(s, blocks, end, t, d, e)
    ensures ParseSection(s).Ok? && d <= e <= |s|
    ensures ParseSection(s).value.trailer == s[d..e] && ParseSection(s).value.prev == PrevOf(s[d..e])
    ensures forall num: nat :: Told(s, blocks, None, ParseSection(s).value.entries, num)
  {
    hide Subsections, Tabulated, Told, DictEnd, PrevOf;
    TableRead(s, 4, blocks, end, []);
    IndexOfIs(s, "trailer", end, t);
    IndexOfIs(s, "<<", t, d);
    DictEndAfter(s, d);
    forall num: nat
      ensures Told(s, blocks, None, Subsections(s, 4, []).value.table, num)
    {
      assert Lookup([], num) == None;
    }
  }

  lemma DictEndAfter(s: string, d: nat)
    ensures DictEnd(s, d, 0).Some? ==> d + 2 <= DictEnd(s, d, 0).value <= |s|
  {
  }

  /** A file whose only section is such a table, contiguous subsections and free lines included: every object number is
      found at the offset of the last line that says it is in use, and at none without such a line. */
  lemma SingleTableParses(buf: string, x: nat, blocks: seq<Block>, end: nat, t: nat, d: nat, e: nat)
    requires StartXref(buf) == Ok(x)
    requires SectionText(Window(buf, x, 1048576), blocks, end, t, d, e)
    requires d <= e <= |Window(buf, x, 1048576)|
    requires var dict := Window(buf, x, 1048576)[d..e];
      && PrevOf(dict) == None
      && FirstKeyNumber(dict, 0, "/Size").Some? && FirstKeyReference(dict, 0, "/Root").Some?
    ensures var dict := Window(buf, x, 1048576)[d..e]; var root := FirstKeyReference(dict, 0, "/Root").value;
      && Parse(buf).Ok? && Parse(buf).value.trailer == dict
      && Parse(buf).value.size == FirstKeyNumber(dict, 0, "/Size").value.value
      && Parse(buf).value.root == Ref(root.num, root.gen)
    ensures forall num: nat ::
      Told(Window(buf, x, 1048576), blocks, None, Parse(buf).value.offsets, num)
  {
    hide StartXref, SectionText, PrevOf, FirstKeyNumber, FirstKeyReference, ParseSection, Told, Window;
    var s := Window(buf, x, SECTION_WINDOW);
    SectionMeans(s, blocks, end, t, d, e);
    var section := ParseSection(s).value;
    assert Chain(buf, x, {}) == Ok([section]);
    assert Merge([section]) == AddMissing([], section.entries) by { MergeOne(section); }
    forall num: nat
      ensures Told(s, blocks, None, AddMissing([], section.entries), num)
    {
      LookupAddMissing([], section.entries, num);
      SameTold(s, blocks, section.entries, AddMissing([], section.entries), num);
    }
  }

  lemma MergeOne(section: Section)
    ensures Merge([section]) == AddMissing([], section.entries)
  {
    assert [section][..0] == [];
  }

  lemma SameTold(s: string, blocks: seq<Block>, a: Table, b: Table, num: nat)
    requires Told(s, blocks, None, a, num) && Lookup(a, num) == Lookup(b, num)
    ensures Told(s, blocks, None, b, num)
  {
    hide Decides, Says, Lookup, OffsetIn, Line;
  }

  // ---- The lines the writer adds ------------------------------------------------------------------

  /** A written line, column by column: the offset, the generation, in use, 20 bytes in all. */
  lemma LineWritten(num: nat, offset: nat, gen: nat)
    requires offset < Pow10(10) && gen < Pow10(5)
    ensures var s := XrefLine(num, offset, gen); var q := |Dec(num)| + 3;
      && |s| == q + 20 && LineAt(s, q) && InUse(s, q) && OffsetIn(s, q) == offset
      && AllDigits(s[q + 11..q + 16]) && ParseNat(s[q + 11..q + 16]) == gen && s[q + 18..] == " \n"
    ensures Heads(XrefLine(num, offset, gen), 0, num, 1, |Dec(num)| + 3)
  {
    hide Dec, Pad, Pow10, ParseNat, HeaderAt, Heads, LineAt, EntryText;
    XrefLineWidth(num, offset, gen);
    ParsePad(offset, 10);
    ParsePad(gen, 5);
    var head := Dec(num) + " 1\n";
    var (s, q) := (XrefLine(num, offset, gen), |head|);
    var (off, g) := (Pad(offset, 10), Pad(gen, 5));
    assert s == head + EntryText(off, g, "n") by { LineForm(num, offset, gen); }
    Columns(head, off, g);
    StartsHead(s, head, EntryText(off, g, "n"));
    HeaderReads(s, 0, 0, num);
    HeaderIff(s, 0, num, 1, q);
  }

  lemma LineForm(num: nat, offset: nat, gen: nat)
    ensures XrefLine(num, offset, gen) == (Dec(num) + " 1\n") + EntryText(Pad(offset, 10), Pad(gen, 5), "n")
  {
    hide Dec, Pad;
  }

  lemma StartsHead(s: string, head: string, rest: string)
    requires s == head + rest
    ensures At(s, 0, head)
  {
    assert s[0..|head|] == head;
  }

  lemma Columns(head: string, off: string, gen: string)
    requires |off| == 10 && AllDigits(off) && |gen| == 5 && AllDigits(gen)
    ensures var s := head + EntryText(off, gen, "n"); var q := |head|;
      && |s| == q + 20 && LineAt(s, q) && InUse(s, q) && s[q..q + 10] == off && s[q + 11..q + 16] == gen
      && s[q + 18..] == " \n" && !IsSpace(s[q])
  {
    var e := EntryText(off, gen, "n");
    var s := head + e;
    var q := |head|;
    assert e[..10] == off && e[11..16] == gen && e[18..] == " \n";
    assert s[q..q + 10] == e[..10] && s[q + 11..q + 16] == e[11..16] && s[q + 18..] == e[18..];
    assert s[q] == off[0] && s[q + 10] == ' ' && s[q + 16] == ' ' && s[q + 17] == 'n';
  }

  ghost predicate Nondecreasing(objs: seq<Revision>) {
    forall i, j :: 0 <= i < j < |objs| ==> objs[i].num <= objs[j].num
  }

  lemma {:induction false} InsertSorts(o: Revision, objs: seq<Revision>)
    requires Nondecreasing(objs)
    ensures Nondecreasing(Insert(o, objs))
  {
    if objs != [] && o.num >= objs[0].num {
      var rest := Insert(o, objs[1..]);
      InsertSorts(o, objs[1..]);
      InsertAdds(o, objs[1..]);
      forall j | 0 <= j < |rest|
        ensures objs[0].num <= rest[j].num
      {
        assert rest[j] in multiset(rest);
        assert rest[j] == o || rest[j] in objs[1..];
      }
    }
  }

  lemma {:induction false} InsertAdds(o: Revision, objs: seq<Revision>)
    ensures multiset(Insert(o, objs)) == multiset(objs) + multiset{o}
  {
    if objs != [] && o.num >= objs[0].num {
      InsertAdds(o, objs[1..]);
      assert objs == [objs[0]] + objs[1..];
    }
  }

  lemma {:induction false} SortAscends(objs: seq<Revision>)
    ensures Nondecreasing(SortByNum(objs))
  {
    hide Nondecreasing;
    if objs != [] {
      SortAscends(objs[..|objs| - 1]);
      InsertSorts(objs[|objs| - 1], SortByNum(objs[..|objs| - 1]));
    } else {
      assert Nondecreasing([]) by { NothingSorted(); }
    }
  }

  lemma NothingSorted()
    ensures Nondecreasing([])
  {
  }

  lemma {:induction false} SortPermutes(objs: seq<Revision>)
    ensures multiset(SortByNum(objs)) == multiset(objs)
  {
    if objs != [] {
      var (front, last) := (objs[..|objs| - 1], objs[|objs| - 1]);
      SortPermutes(front);
      InsertAdds(last, SortByNum(front));
      assert objs == front + [last];
    }
  }

  /** The revision writes the objects it was given, each once, in the order of their numbers. */
  lemma SortedPermutation(objs: seq<Revision>)
    ensures Nondecreasing(SortByNum(objs)) && multiset(SortByNum(objs)) == multiset(objs)
  {
    hide Nondecreasing, SortByNum;
    SortAscends(objs);
    SortPermutes(objs);
  }
}
