/** Reading is stable under appending: what parses in a file parses the same after more bytes follow it. */
module Stability {
  import opened Text
  import opened PdfObjects

  // ---- Text ---------------------------------------------------------------------------------------

  lemma AtPrefix(w: string, t: string, p: nat, pat: string)
    requires p + |pat| <= |w|
    ensures At(w + t, p, pat) <==> At(w, p, pat)
  {
    assert (w + t)[p..p + |pat|] == w[p..p + |pat|];
  }

  /** Occurrences of `pat` in an appended part are occurrences in the whole, shifted. */
  lemma AtSuffix(w: string, t: string, p: nat, pat: string)
    ensures At(w + t, |w| + p, pat) <==> At(t, p, pat)
  {
    if p + |pat| <= |t| {
      assert (w + t)[|w| + p..|w| + p + |pat|] == t[p..p + |pat|];
    }
  }

  lemma IndexOfPrefix(w: string, t: string, pat: string, from: nat)
    requires IndexOf(w, pat, from) != -1
    ensures IndexOf(w + t, pat, from) == IndexOf(w, pat, from)
  {
    var r := IndexOf(w, pat, from);
    AtPrefix(w, t, r, pat);
    forall p: nat | from <= p < r
      ensures !At(w + t, p, pat)
    {
      assert !At(w, p, pat);
      AtPrefix(w, t, p, pat);
    }
    IndexOfIs(w + t, pat, from, r);
  }

  /** A character at `f` that stops every run of blanks and digits. */
  predicate Fence(w: string, f: nat) {
    f < |w| && !IsSpace(w[f]) && !IsDigit(w[f])
  }

  lemma SkipSpacesPrefix(w: string, t: string, p: nat, f: nat)
    requires p <= f && f < |w| && !IsSpace(w[f])
    ensures SkipSpaces(w + t, p) == SkipSpaces(w, p) <= f
  {
    assert forall i :: 0 <= i < |w| ==> (w + t)[i] == w[i];
  }

  lemma SkipDigitsPrefix(w: string, t: string, p: nat, f: nat)
    requires p <= f && f < |w| && !IsDigit(w[f])
    ensures SkipDigits(w + t, p) == SkipDigits(w, p) <= f
  {
    assert forall i :: 0 <= i < |w| ==> (w + t)[i] == w[i];
  }

  lemma NumberPrefix(w: string, t: string, p: nat, f: nat)
    requires p <= f && f < |w| && !IsDigit(w[f])
    ensures NumberAt(w + t, p) == NumberAt(w, p)
    ensures NumberAt(w, p).Some? ==> NumberAt(w, p).value.end <= f
  {
    SkipDigitsPrefix(w, t, p, f);
    assert (w + t)[p..SkipDigits(w, p)] == w[p..SkipDigits(w, p)];
  }

  lemma SpacedNumberPrefix(w: string, t: string, p: nat, f: nat)
    requires p <= f && Fence(w, f)
    ensures SpacedNumberAt(w + t, p) == SpacedNumberAt(w, p)
    ensures SpacedNumberAt(w, p).Some? ==> SpacedNumberAt(w, p).value.end <= f
  {
    SkipSpacesPrefix(w, t, p, f);
    NumberPrefix(w, t, SkipSpaces(w, p), f);
  }

  lemma LastBreakPrefix(w: string, t: string, p: nat, q: nat)
    requires p <= q <= |w|
    ensures LastBreak(w + t, p, q) == LastBreak(w, p, q)
  {
  }

  // ---- Cross-reference sections -------------------------------------------------------------------

  lemma HeaderPrefix(w: string, t: string, p: nat, f: nat)
    requires p <= f && Fence(w, f)
    ensures HeaderAt(w + t, p) == HeaderAt(w, p)
    ensures HeaderAt(w, p).Some? ==> HeaderAt(w, p).value.end <= f
  {
    SkipSpacesPrefix(w, t, p, f);
    NumberPrefix(w, t, SkipSpaces(w, p), f);
    if NumberAt(w, SkipSpaces(w, p)).Some? {
      var start := NumberAt(w, SkipSpaces(w, p)).value;
      SpacedNumberPrefix(w, t, start.end, f);
      if SpacedNumberAt(w, start.end).Some? {
        var count := SpacedNumberAt(w, start.end).value;
        SkipSpacesPrefix(w, t, count.end, f);
        LastBreakPrefix(w, t, count.end, SkipSpaces(w, count.end));
      }
    }
  }

  lemma XrefEntryPrefix(w: string, t: string, p: nat)
    requires XrefEntryAt(w, p).Some?
    ensures XrefEntryAt(w + t, p) == XrefEntryAt(w, p)
  {
    assert (w + t)[p..p + 10] == w[p..p + 10];
    assert (w + t)[p + 11..p + 16] == w[p + 11..p + 16];
  }

  lemma {:induction false} EntriesPrefix(w: string, t: string, pos: nat, start: nat, i: nat, count: nat, table: Table)
    requires i <= count
    requires Entries(w, pos, start, i, count, table).Ok?
    ensures Entries(w + t, pos, start, i, count, table) == Entries(w, pos, start, i, count, table)
    decreases count - i
  {
    hide XrefEntryAt;
    if i < count {
      XrefEntryPrefix(w, t, pos);
      var e := XrefEntryAt(w, pos).value;
      EntriesPrefix(w, t, pos + 20, start, i + 1, count, if e.inUse then Put(table, start + i, e.offset) else table);
    }
  }

  lemma {:induction false} SubsectionsPrefix(w: string, t: string, pos: nat, table: Table, f: nat)
    requires pos <= f && Fence(w, f)
    requires Subsections(w, pos, table).Ok? && Subsections(w, pos, table).value.pos <= f
    ensures Subsections(w + t, pos, table) == Subsections(w, pos, table)
    decreases |w| - pos
  {
    hide HeaderAt, Entries;
    HeaderPrefix(w, t, pos, f);
    if HeaderAt(w, pos).Some? {
      var h := HeaderAt(w, pos).value;
      EntriesPrefix(w, t, h.end, h.start, 0, h.count, table);
      var p := Entries(w, h.end, h.start, 0, h.count, table).value;
      SubsectionsPrefix(w, t, p.pos, p.table, f);
    }
  }

  lemma {:induction false} DictEndPrefix(w: string, t: string, i: nat, depth: int)
    requires DictEnd(w, i, depth).Some?
    ensures DictEnd(w + t, i, depth) == DictEnd(w, i, depth)
    decreases |w| - i
  {
    if w[i] == '<' && w[i + 1] == '<' {
      DictEndPrefix(w, t, i + 2, depth + 1);
    } else if w[i] == '>' && w[i + 1] == '>' {
      if depth - 1 != 0 {
        DictEndPrefix(w, t, i + 2, depth - 1);
      }
    } else {
      DictEndPrefix(w, t, i + 1, depth);
    }
  }

  /** A trailer that really starts with its dictionary. */
  predicate Proper(trailer: string) {
    At(trailer, 0, "<<")
  }

  lemma TrailerPrefix(w: string, t: string, pos: nat)
    requires Trailer(w, pos).Ok? && Proper(Trailer(w, pos).value)
    ensures Trailer(w + t, pos) == Trailer(w, pos)
  {
    hide IndexOf, DictEnd;
    var tag := IndexOf(w, "trailer", pos);
    IndexOfPrefix(w, t, "trailer", pos);
    var d := IndexOf(w, "<<", tag);
    if d != -1 {
      IndexOfPrefix(w, t, "<<", tag);
      DictEndPrefix(w, t, d, 0);
      var e := DictEnd(w, d, 0).value;
      assert (w + t)[d..e] == w[d..e];
    }
  }

  lemma FenceAtTrailer(w: string, pos: nat)
    requires Trailer(w, pos).Ok?
    ensures pos <= IndexOf(w, "trailer", pos) && Fence(w, IndexOf(w, "trailer", pos))
  {
    var tag := IndexOf(w, "trailer", pos);
    AtFirst(w, tag, "trailer");
  }

  lemma SectionPrefix(w: string, t: string)
    requires ParseSection(w).Ok? && Proper(ParseSection(w).value.trailer)
    ensures ParseSection(w + t) == ParseSection(w)
  {
    hide Subsections, Trailer, IndexOf, PrevOf;
    AtPrefix(w, t, 0, "xref");
    var p := Subsections(w, 4, []).value;
    FenceAtTrailer(w, p.pos);
    SubsectionsPrefix(w, t, 4, [], IndexOf(w, "trailer", p.pos));
    TrailerPrefix(w, t, p.pos);
  }

  // ---- Windows on the file ------------------------------------------------------------------------

  /** A window only gains bytes at its end when the file does. */
  lemma WindowPrefix(buf: string, t: string, offset: nat, size: nat) returns (more: string)
    requires offset <= |buf|
    ensures Window(buf + t, offset, size) == Window(buf, offset, size) + more
  {
    var (w, v) := (Window(buf, offset, size), Window(buf + t, offset, size));
    more := v[|w|..];
    assert v[..|w|] == w;
  }

  lemma SectionAtPrefix(buf: string, t: string, offset: nat)
    requires SectionAt(buf, offset).Ok? && Proper(SectionAt(buf, offset).value.trailer)
    ensures SectionAt(buf + t, offset) == SectionAt(buf, offset)
  {
    hide ParseSection;
    var more := WindowPrefix(buf, t, offset, SECTION_WINDOW);
    SectionPrefix(Window(buf, offset, SECTION_WINDOW), more);
  }

  ghost predicate ProperChain(sections: seq<Section>) {
    forall i :: 0 <= i < |sections| ==> Proper(sections[i].trailer)
  }

  /** An old chain is walked the same way in the longer file, whatever offsets past its end were visited before. */
  lemma {:induction false} ChainPrefix(buf: string, t: string, offset: nat, seen: set<nat>, later: set<nat>)
    requires Chain(buf, offset, seen).Ok? && ProperChain(Chain(buf, offset, seen).value)
    requires forall o :: o in later ==> o >= |buf|
    ensures Chain(buf + t, offset, seen + later) == Chain(buf, offset, seen)
    decreases |InFile(|buf|) - seen|
  {
    hide SectionAt, Proper;
    var sections := Chain(buf, offset, seen).value;
    var section := SectionAt(buf, offset).value;
    assert sections[0] == section;
    SectionAtPrefix(buf, t, offset);
    assert offset !in seen + later;
    if section.prev.Some? {
      Unseen(buf, offset, seen);
      var rest := Chain(buf, section.prev.value, seen + {offset}).value;
      assert sections == [section] + rest;
      assert forall i :: 0 <= i < |rest| ==> rest[i] == sections[i + 1];
      ChainPrefix(buf, t, section.prev.value, seen + {offset}, later);
      assert seen + {offset} + later == seen + later + {offset};
      ChainStep(buf + t, offset, seen + later, section, rest);
    }
  }

  lemma ChainStep(buf: string, offset: nat, seen: set<nat>, section: Section, rest: seq<Section>)
    requires offset !in seen && SectionAt(buf, offset) == Ok(section) && section.prev.Some?
    requires Chain(buf, section.prev.value, seen + {offset}) == Ok(rest)
    ensures Chain(buf, offset, seen) == Ok([section] + rest)
  {
    hide SectionAt;
  }

  // ---- Objects ------------------------------------------------------------------------------------

  lemma ObjectHeaderPrefix(w: string, t: string, num: nat)
    requires ObjectHeaderAt(w, num).Some?
    ensures ObjectHeaderAt(w + t, num) == ObjectHeaderAt(w, num)
  {
    hide Dec;
    var key := Dec(num);
    var gen := KeyNumberAt(w, 0, key).value;
    var q := SkipSpaces(w, gen.end);
    AtPrefix(w, t, 0, key);
    AtFirst(w, q, "obj");
    SpacedNumberPrefix(w, t, |key|, q);
    SkipSpacesPrefix(w, t, gen.end, q);
    AtPrefix(w, t, q, "obj");
  }

  lemma ObjectPrefix(w: string, t: string, num: nat)
    requires ParseObject(w, num).Ok?
    ensures ParseObject(w + t, num) == ParseObject(w, num)
  {
    hide ObjectHeaderAt, IndexOf;
    ObjectHeaderPrefix(w, t, num);
    var head := ObjectHeaderAt(w, num).value;
    IndexOfPrefix(w, t, "endobj", head.end);
    var end := IndexOf(w, "endobj", head.end);
    assert (w + t)[head.end..end] == w[head.end..end];
  }

  /** An object that can be read keeps its text when the file grows and its entry stays. */
  lemma ReadObjectPrefix(buf: string, t: string, offsets: Table, more: Table, num: nat)
    requires ReadObject(buf, offsets, num).Ok?
    requires Lookup(more, num) == Lookup(offsets, num)
    ensures ReadObject(buf + t, more, num) == ReadObject(buf, offsets, num)
  {
    hide ParseObject;
    var offset := Lookup(offsets, num).value;
    if offset > |buf| {
      assert ParseObject("", num).Err? by { NoObjectInNothing(num); }
    } else {
      var rest := WindowPrefix(buf, t, offset, OBJECT_WINDOW);
      ObjectPrefix(Window(buf, offset, OBJECT_WINDOW), rest, num);
    }
  }

  lemma NoObjectInNothing(num: nat)
    ensures ParseObject("", num).Err?
  {
  }

  /** What follows the file cannot change how the object reads: it reads, or the reader's window on it ends in the file,
      as it does on an object too large for the window. */
  predicate Steady(buf: string, offsets: Table, num: nat) {
    ReadObject(buf, offsets, num).Ok? ||
    match Lookup(offsets, num) case None => true case Some(offset) => offset + OBJECT_WINDOW <= |buf|
  }

  /** An object that is complete in the file is steady, whatever its size. */
  lemma CompleteIsSteady(buf: string, offsets: Table, num: nat, offset: nat)
    requires Lookup(offsets, num) == Some(offset) && offset <= |buf| && ParseObject(buf[offset..], num).Ok?
    ensures Steady(buf, offsets, num)
  {
    hide ParseObject, Lookup;
  }

  /** A steady object reads, or fails to read, the same in the longer file, and stays steady. */
  lemma SteadyPrefix(buf: string, t: string, offsets: Table, more: Table, num: nat)
    requires Steady(buf, offsets, num) && Lookup(more, num) == Lookup(offsets, num)
    ensures ReadObject(buf + t, more, num) == ReadObject(buf, offsets, num) && Steady(buf + t, more, num)
  {
    hide ParseObject, Lookup;
    if ReadObject(buf, offsets, num).Ok? {
      ReadObjectPrefix(buf, t, offsets, more, num);
    } else if Lookup(offsets, num).Some? {
      var offset := Lookup(offsets, num).value;
      assert Window(buf + t, offset, OBJECT_WINDOW) == Window(buf, offset, OBJECT_WINDOW);
    }
  }
}
