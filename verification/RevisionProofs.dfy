/** What the parser finds in an appended revision: the new section, the new objects, and everything older unchanged. */
module RevisionProofs {
  import opened Text
  import opened PdfObjects
  import opened IncrementalSigner
  import opened Stability

  // ---- Occurrences in concatenations --------------------------------------------------------------

  ghost predicate Absent(pat: string, s: string) {
    forall i: nat :: !At(s, i, pat)
  }

  /** `c` can begin a text that follows another without completing an occurrence of `pat` across the seam. */
  predicate Breaks(pat: string, c: char) {
    forall k :: 1 <= k < |pat| ==> pat[k] != c
  }

  predicate StartsClear(pat: string, s: string) {
    s == "" || Breaks(pat, s[0])
  }

  /** No occurrence crosses the seam. */
  lemma NoStraddle(pat: string, a: string, b: string, i: nat)
    requires i < |a| < i + |pat| && StartsClear(pat, b)
    ensures !At(a + b, i, pat)
  {
    if At(a + b, i, pat) {
      var k := |a| - i;
      assert b != "" && pat[k] != b[0];
      AtEach(a + b, i, pat);
      assert false;
    }
  }

  /** No occurrence starts in `a` when `b` follows it. */
  lemma AbsentBefore(pat: string, a: string, b: string)
    requires pat != "" && Absent(pat, a) && StartsClear(pat, b)
    ensures forall i: nat :: i < |a| ==> !At(a + b, i, pat)
  {
    forall i: nat | i < |a|
      ensures !At(a + b, i, pat)
    {
      if i + |pat| <= |a| {
        AtPrefix(a, b, i, pat);
      } else {
        NoStraddle(pat, a, b, i);
      }
    }
  }

  lemma AbsentConcat(pat: string, a: string, b: string)
    requires pat != "" && Absent(pat, a) && Absent(pat, b) && StartsClear(pat, b)
    ensures Absent(pat, a + b)
  {
    AbsentBefore(pat, a, b);
    forall i: nat
      ensures !At(a + b, i, pat)
    {
      if i >= |a| {
        AtSuffix(a, b, i - |a|, pat);
        assert !At(b, i - |a|, pat);
      }
    }
  }

  lemma AtPart(s: string, lo: nat, hi: nat, i: nat, pat: string)
    requires lo <= hi <= |s| && At(s[lo..hi], i, pat)
    ensures lo + i + |pat| <= hi && At(s, lo + i, pat)
  {
    var (j, k) := (i + |pat|, lo + i);
    SliceOfSlice(s, lo, hi, i, j);
  }

  lemma SliceOfSlice(s: string, lo: nat, hi: nat, i: nat, j: nat)
    requires lo <= hi <= |s| && i <= j <= hi - lo
    ensures s[lo..hi][i..j] == s[lo + i..lo + j]
  {
    var a := s[lo..hi];
    var (x, y) := (a[i..j], s[lo + i..lo + j]);
    assert |x| == |y|;
    forall k | 0 <= k < |x|
      ensures x[k] == y[k]
    {
      assert x[k] == a[i + k] == s[lo + i + k];
    }
  }

  lemma AbsentPart(pat: string, s: string, lo: nat, hi: nat)
    requires lo <= hi <= |s| && Absent(pat, s)
    ensures Absent(pat, s[lo..hi])
  {
    forall i: nat
      ensures !At(s[lo..hi], i, pat)
    {
      if At(s[lo..hi], i, pat) {
        AtPart(s, lo, hi, i, pat);
        assert false;
      }
    }
  }

  predicate Lacks(s: string, c: char) {
    forall i :: 0 <= i < |s| ==> s[i] != c
  }

  /** Text without the first character of `pat` has no occurrence of it. */
  lemma LacksAbsent(pat: string, s: string)
    requires pat != "" && Lacks(s, pat[0])
    ensures Absent(pat, s)
  {
    forall i: nat
      ensures !At(s, i, pat)
    {
      AtFirst(s, i, pat);
    }
  }

  // ---- Reading numbers and entries back -----------------------------------------------------------

  lemma NumberReads(s: string, p: nat, d: string)
    requires d != "" && AllDigits(d) && At(s, p, d)
    requires p + |d| == |s| || !IsDigit(s[p + |d|])
    ensures NumberAt(s, p) == Some(Number(ParseNat(d), p + |d|))
  {
    AtEach(s, p, d);
    assert forall i :: p <= i < p + |d| ==> s[i] == d[i - p];
    assert SkipDigits(s, p) == p + |d|;
  }

  lemma SpacedReads(s: string, p: nat, d: string)
    requires d != "" && AllDigits(d) && p < |s| && s[p] == ' ' && At(s, p + 1, d)
    requires p + 1 + |d| == |s| || !IsDigit(s[p + 1 + |d|])
    ensures SpacedNumberAt(s, p) == Some(Number(ParseNat(d), p + 1 + |d|))
  {
    AtEach(s, p + 1, d);
    assert s[p + 1] == d[0];
    assert SkipSpaces(s, p) == p + 1;
    NumberReads(s, p + 1, d);
  }

  /** A subsection header for a single object, after white space or none. */
  lemma HeaderReads(s: string, p: nat, at: nat, num: nat)
    requires p <= at && (forall i :: p <= i < at ==> i < |s| && IsSpace(s[i]))
    requires At(s, at, Dec(num) + " 1\n")
    requires at + |Dec(num)| + 3 < |s| && !IsSpace(s[at + |Dec(num)| + 3])
    ensures HeaderAt(s, p) == Some(Header(num, 1, at + |Dec(num)| + 3))
  {
    hide ParseNat, Dec, At, NumberAt, SpacedNumberAt;
    var q := at + |Dec(num)|;
    AtConcat(s, at, Dec(num), " 1\n");
    AtFirst(s, at, Dec(num));
    AtInside(s, at, Dec(num));
    assert SkipSpaces(s, p) == at by { SkipsTo(s, p, at); }
    HeaderTail(s, q);
    NumberReads(s, at, Dec(num));
    ParseDec(num);
  }

  lemma SkipsTo(s: string, p: nat, at: nat)
    requires p <= at < |s| && !IsSpace(s[at]) && (forall i :: p <= i < at ==> IsSpace(s[i]))
    ensures SkipSpaces(s, p) == at
  {
  }

  /** The count of a single-object header, and the line break after it. */
  lemma HeaderTail(s: string, q: nat)
    requires At(s, q, " 1\n") && q + 3 < |s| && !IsSpace(s[q + 3])
    ensures s[q] == ' ' && s[q + 2] == '\n'
    ensures SpacedNumberAt(s, q) == Some(Number(1, q + 2)) && SkipSpaces(s, q + 2) == q + 3
  {
    hide ParseNat, At;
    assert " 1\n" == " " + ("1" + "\n");
    AtConcat(s, q, " ", "1" + "\n");
    AtConcat(s, q + 1, "1", "\n");
    AtFirst(s, q, " ");
    AtFirst(s, q + 1, "1");
    AtFirst(s, q + 2, "\n");
    SpacedReads(s, q, "1");
    assert ParseNat("1") == 1 by { OneReads(); }
  }

  lemma OneReads()
    ensures ParseNat("1") == 1
  {
  }

  lemma EntryReads(s: string, p: nat, off: string, gen: string, kind: char)
    requires |off| == 10 && AllDigits(off) && |gen| == 5 && AllDigits(gen) && (kind == 'n' || kind == 'f')
    requires At(s, p, off) && At(s, p + 10, " ") && At(s, p + 11, gen) && At(s, p + 16, " ") && At(s, p + 17, [kind])
    ensures XrefEntryAt(s, p) == Some(XrefEntry(ParseNat(off), kind == 'n'))
  {
    AtFirst(s, p + 10, " ");
    AtFirst(s, p + 16, " ");
    AtFirst(s, p + 17, [kind]);
  }

  lemma SingleEntry(s: string, q: nat, num: nat, t: Table, e: XrefEntry)
    requires XrefEntryAt(s, q) == Some(e)
    ensures Entries(s, q, num, 0, 1, t) == Ok(Parsed(if e.inUse then Put(t, num, e.offset) else t, q + 20))
  {
    hide XrefEntryAt;
    var u := if e.inUse then Put(t, num, e.offset) else t;
    assert Entries(s, q + 20, num, 1, 1, u) == Ok(Parsed(u, q + 20));
  }

  /** A cross-reference entry is exactly 20 bytes when its numbers fit their columns. */
  lemma XrefLineWidth(num: nat, offset: nat, gen: nat)
    requires offset < Pow10(10) && gen < Pow10(5)
    ensures |Pad(offset, 10)| == 10 && |Pad(gen, 5)| == 5
    ensures |XrefLine(num, offset, gen)| == |Dec(num)| + 3 + 20
  {
    hide Dec, Pow10;
    DecWidth(offset, 10);
    DecWidth(gen, 5);
  }

  /** The text of one entry: ten digits, five digits and the kind. */
  function EntryText(off: string, gen: string, kind: string): string {
    off + (" " + (gen + (" " + (kind + " \n"))))
  }

  lemma EntryParts(s: string, q: nat, off: string, gen: string, kind: char)
    requires At(s, q, EntryText(off, gen, [kind])) && |off| == 10 && |gen| == 5
    ensures At(s, q, off) && At(s, q + 10, " ") && At(s, q + 11, gen) && At(s, q + 16, " ") && At(s, q + 17, [kind])
  {
    AtConcat(s, q, off, " " + (gen + (" " + ([kind] + " \n"))));
    AtConcat(s, q + 10, " ", gen + (" " + ([kind] + " \n")));
    AtConcat(s, q + 11, gen, " " + ([kind] + " \n"));
    AtConcat(s, q + 16, " ", [kind] + " \n");
    AtConcat(s, q + 17, [kind], " \n");
  }

  /** A one-entry subsection is read as its entry, and reading goes on 20 bytes past the header. */
  lemma SubsectionReads(s: string, p: nat, at: nat, num: nat, off: string, gen: string, kind: char, t: Table)
    requires p <= at && (forall i :: p <= i < at ==> i < |s| && IsSpace(s[i]))
    requires |off| == 10 && AllDigits(off) && |gen| == 5 && AllDigits(gen) && (kind == 'n' || kind == 'f')
    requires At(s, at, (Dec(num) + " 1\n") + EntryText(off, gen, [kind]))
    ensures Subsections(s, p, t) ==
      Subsections(s, at + |Dec(num)| + 23, if kind == 'n' then Put(t, num, ParseNat(off)) else t)
  {
    hide HeaderAt, Entries, Dec, XrefEntryAt, EntryText, At;
    var q := at + |Dec(num)| + 3;
    AtConcat(s, at, Dec(num) + " 1\n", EntryText(off, gen, [kind]));
    EntryParts(s, q, off, gen, kind);
    AtInside(s, q, off);
    AtFirst(s, q, off);
    assert IsDigit(off[0]) && !IsSpace(off[0]);
    HeaderReads(s, p, at, num);
    EntryReads(s, q, off, gen, kind);
    SingleEntry(s, q, num, t, XrefEntry(ParseNat(off), kind == 'n'));
  }

  /** One line of the new section is read back as one entry. */
  lemma XrefLineReads(s: string, p: nat, num: nat, offset: nat, gen: nat, t: Table)
    requires offset < Pow10(10) && gen < Pow10(5)
    requires At(s, p, XrefLine(num, offset, gen))
    ensures Subsections(s, p, t) == Subsections(s, p + |XrefLine(num, offset, gen)|, Put(t, num, offset))
  {
    hide Subsections, Dec, Pad, Pow10;
    XrefLineWidth(num, offset, gen);
    var (off, g) := (Pad(offset, 10), Pad(gen, 5));
    assert XrefLine(num, offset, gen) == (Dec(num) + " 1\n") + EntryText(off, g, "n");
    SubsectionReads(s, p, p, num, off, g, 'n', t);
    ParsePad(offset, 10);
  }

  lemma DecZero()
    ensures Dec(0) == "0"
  {
  }

  lemma XrefHeadReads(s: string)
    requires At(s, 0, XREF_HEAD)
    ensures Subsections(s, 4, []) == Subsections(s, |XREF_HEAD|, [])
  {
    hide Subsections, EntryText, Dec;
    var (off, gen) := ("0000000000", "65535");
    var line := ("0" + " 1\n") + EntryText(off, gen, "f");
    XrefHeadIs(line);
    AtConcat(s, 0, "xref\n", line);
    AtEach(s, 0, "xref\n");
    assert s[4] == "xref\n"[4] == '\n';
    DecZero();
    SubsectionReads(s, 4, 5, 0, off, gen, 'f', []);
  }

  lemma XrefHeadIs(line: string)
    requires line == ("0" + " 1\n") + EntryText("0000000000", "65535", "f")
    ensures XREF_HEAD == "xref\n" + line && |XREF_HEAD| == 29
  {
  }

  // ---- The lines of the new section ---------------------------------------------------------------

  ghost predicate Ascending(objs: seq<Revision>) {
    forall i, j :: 0 <= i < j < |objs| ==> objs[i].num < objs[j].num
  }

  /** Every entry fits its columns. */
  ghost predicate Fits(objs: seq<Revision>, offsets: map<nat, nat>) {
    forall i :: 0 <= i < |objs| ==> objs[i].num in offsets && offsets[objs[i].num] < Pow10(10) && objs[i].gen < Pow10(5)
  }

  function EntriesOf(objs: seq<Revision>, offsets: map<nat, nat>): Table
    requires forall o :: o in objs ==> o.num in offsets
  {
    if objs == [] then [] else [Entry(objs[0].num, offsets[objs[0].num])] + EntriesOf(objs[1..], offsets)
  }

  lemma {:induction false} PutNew(t: Table, num: nat, offset: nat)
    requires Lookup(t, num).None?
    ensures Put(t, num, offset) == t + [Entry(num, offset)]
  {
    if t != [] {
      assert t[0].num != num;
      forall i | 0 <= i < |t[1..]|
        ensures t[1..][i].num != num
      {
        assert t[1..][i] == t[i + 1];
      }
      PutNew(t[1..], num, offset);
      assert t == [t[0]] + t[1..];
    }
  }

  /** The lines of ascending objects are read back as their entries, in order. */
  lemma {:induction false} XrefLinesRead(s: string, p: nat, objs: seq<Revision>, offsets: map<nat, nat>, t: Table)
    requires Ascending(objs) && Fits(objs, offsets)
    requires forall i, j :: 0 <= i < |t| && 0 <= j < |objs| ==> t[i].num < objs[j].num
    requires At(s, p, XrefLines(objs, offsets))
    ensures Subsections(s, p, t) == Subsections(s, p + |XrefLines(objs, offsets)|, t + EntriesOf(objs, offsets))
    decreases |objs|
  {
    hide Subsections, XrefLine, Lookup, Pow10, Put, At, Ascending, Fits, XrefLines, EntriesOf;
    if objs == [] {
      NoLines(offsets);
      assert t + [] == t;
    } else {
      var (o, rest) := (objs[0], objs[1..]);
      FitsTail(objs, offsets);
      LinesStep(objs, offsets);
      var line := XrefLine(o.num, offsets[o.num], o.gen);
      AtConcat(s, p, line, XrefLines(rest, offsets));
      XrefLineReads(s, p, o.num, offsets[o.num], o.gen, t);
      NotThere(t, o.num);
      PutNew(t, o.num, offsets[o.num]);
      var u := t + [Entry(o.num, offsets[o.num])];
      LowerEntries(t, objs, offsets[o.num]);
      XrefLinesRead(s, p + |line|, rest, offsets, u);
      assert u + EntriesOf(rest, offsets) == t + ([Entry(o.num, offsets[o.num])] + EntriesOf(rest, offsets));
    }
  }

  lemma NoLines(offsets: map<nat, nat>)
    ensures XrefLines([], offsets) == "" && EntriesOf([], offsets) == []
  {
  }

  lemma LinesStep(objs: seq<Revision>, offsets: map<nat, nat>)
    requires objs != [] && forall o :: o in objs ==> o.num in offsets
    ensures forall o :: o in objs[1..] ==> o.num in offsets
    ensures var o := objs[0];
      && XrefLines(objs, offsets) == XrefLine(o.num, offsets[o.num], o.gen) + XrefLines(objs[1..], offsets)
      && EntriesOf(objs, offsets) == [Entry(o.num, offsets[o.num])] + EntriesOf(objs[1..], offsets)
  {
    hide XrefLine;
  }

  lemma FitsTail(objs: seq<Revision>, offsets: map<nat, nat>)
    requires Ascending(objs) && Fits(objs, offsets) && objs != []
    ensures Ascending(objs[1..]) && Fits(objs[1..], offsets)
    ensures objs[0].num in offsets && offsets[objs[0].num] < Pow10(10) && objs[0].gen < Pow10(5)
    ensures forall o :: o in objs ==> o.num in offsets
    ensures forall o :: o in objs[1..] ==> o.num in offsets
  {
    hide Pow10;
  }

  lemma NotThere(t: Table, num: nat)
    requires forall i :: 0 <= i < |t| ==> t[i].num < num
    ensures Lookup(t, num).None?
  {
  }

  lemma LowerEntries(t: Table, objs: seq<Revision>, offset: nat)
    requires objs != [] && Ascending(objs) && forall i, j :: 0 <= i < |t| && 0 <= j < |objs| ==> t[i].num < objs[j].num
    ensures var u := t + [Entry(objs[0].num, offset)];
      forall i, j :: 0 <= i < |u| && 0 <= j < |objs[1..]| ==> u[i].num < objs[1..][j].num
  {
    var u := t + [Entry(objs[0].num, offset)];
    forall i, j | 0 <= i < |u| && 0 <= j < |objs[1..]|
      ensures u[i].num < objs[1..][j].num
    {
      assert objs[1..][j] == objs[j + 1];
      if i < |t| {
        assert t[i].num < objs[j + 1].num;
      }
    }
  }

  /** Reading subsections stops at the keyword. */
  lemma StopsAtTrailer(s: string, p: nat, t: Table)
    requires At(s, p, "trailer\n")
    ensures Subsections(s, p, t) == Ok(Parsed(t, p))
  {
    AtFirst(s, p, "trailer\n");
    assert SkipSpaces(s, p) == p;
    assert SkipDigits(s, p) == p;
    assert HeaderAt(s, p).None?;
  }

  // ---- The new trailer ----------------------------------------------------------------------------

  /** No two adjacent angle brackets of one kind. */
  predicate NoPairs(s: string) {
    forall k :: 0 <= k < |s| - 1 ==> !(s[k] == '<' && s[k + 1] == '<') && !(s[k] == '>' && s[k + 1] == '>')
  }

  predicate Plain(s: string) {
    Lacks(s, '<') && Lacks(s, '>')
  }

  lemma {:induction false} DictEndSkips(s: string, i: nat, j: nat, depth: int)
    requires i <= j < |s|
    requires forall k :: i <= k < j ==> !(s[k] == '<' && s[k + 1] == '<') && !(s[k] == '>' && s[k + 1] == '>')
    ensures DictEnd(s, i, depth) == DictEnd(s, j, depth)
    decreases j - i
  {
    if i < j {
      DictEndSkips(s, i + 1, j, depth);
    }
  }

  /** A dictionary without nested brackets ends where its text ends. */
  lemma DictReads(s: string, p: nat, mid: string)
    requires mid != "" && NoPairs(mid) && mid[0] != '<' && mid[|mid| - 1] != '>'
    requires At(s, p, "<<" + (mid + ">>"))
    ensures DictEnd(s, p, 0) == Some(p + |mid| + 4)
  {
    AtConcat(s, p, "<<", mid + ">>");
    AtConcat(s, p + 2, mid, ">>");
    AtEach(s, p, "<<");
    AtEach(s, p + 2, mid);
    var e := p + 2 + |mid|;
    AtEach(s, e, ">>");
    assert s[p] == "<<"[0] && s[p + 1] == "<<"[1];
    assert s[e] == ">>"[0] && s[e + 1] == ">>"[1];
    forall k | p + 2 <= k < e
      ensures !(s[k] == '<' && s[k + 1] == '<') && !(s[k] == '>' && s[k + 1] == '>')
    {
      assert s[k] == mid[k - p - 2];
      if k + 1 < e {
        assert s[k + 1] == mid[k + 1 - p - 2];
      }
    }
    DictEndSkips(s, p + 2, e, 1);
    assert DictEnd(s, p, 0) == DictEnd(s, p + 2, 1);
    assert DictEnd(s, e, 1) == Some(e + 2);
  }

  lemma TrailerReads(s: string, p: nat, mid: string)
    requires mid != "" && NoPairs(mid) && mid[0] != '<' && mid[|mid| - 1] != '>'
    requires At(s, p, "trailer\n" + ("<<" + (mid + ">>")))
    ensures Trailer(s, p) == Ok("<<" + (mid + ">>"))
  {
    hide DictEnd, IndexOf;
    var dict := "<<" + (mid + ">>");
    AtConcat(s, p, "trailer\n", dict);
    AtConcat(s, p, "trailer", "\n");
    assert "trailer\n" == "trailer" + "\n";
    IndexOfIs(s, "trailer", p, p);
    AtConcat(s, p + 8, "<<", mid + ">>");
    NoDictInKeyword(s, p);
    IndexOfIs(s, "<<", p, p + 8);
    DictReads(s, p + 8, mid);
    assert s[p + 8..p + 8 + |dict|] == dict;
  }

  lemma NoDictInKeyword(s: string, p: nat)
    requires At(s, p, "trailer\n")
    ensures forall i: nat :: p <= i < p + 8 ==> !At(s, i, "<<")
  {
    forall i: nat | p <= i < p + 8
      ensures !At(s, i, "<<")
    {
      AtEach(s, p, "trailer\n");
      assert s[p + (i - p)] == "trailer\n"[i - p];
      AtFirst(s, i, "<<");
    }
  }

  // ---- Keys of the new trailer --------------------------------------------------------------------

  lemma {:induction false} FirstKeyNumberIs(s: string, from: nat, q: nat, key: string)
    requires from <= q <= |s| && KeyNumberAt(s, q, key).Some?
    requires forall i: nat :: from <= i < q ==> !At(s, i, key)
    ensures FirstKeyNumber(s, from, key) == KeyNumberAt(s, q, key)
    decreases q - from
  {
    hide SpacedNumberAt, At;
    if from < q {
      FirstKeyNumberIs(s, from + 1, q, key);
    }
  }

  lemma {:induction false} FirstKeyReferenceIs(s: string, from: nat, q: nat, key: string)
    requires from <= q <= |s| && KeyReferenceAt(s, q, key).Some?
    requires forall i: nat :: from <= i < q ==> !At(s, i, key)
    ensures FirstKeyReference(s, from, key) == KeyReferenceAt(s, q, key)
    decreases q - from
  {
    hide SpacedNumberAt, At, KeyReferenceAt;
    if from < q {
      assert !At(s, from, key);
      FirstKeyReferenceIs(s, from + 1, q, key);
    }
  }

  lemma KeyNumberReads(s: string, q: nat, key: string, d: string, rest: string)
    requires d != "" && AllDigits(d) && (rest != "" ==> !IsDigit(rest[0]))
    requires q <= |s| && s[q..] == key + (" " + (d + rest))
    ensures KeyNumberAt(s, q, key) == Some(Number(ParseNat(d), q + |key| + 1 + |d|))
  {
    hide At, SpacedNumberAt, ParseNat, AllDigits, IsDigit;
    AtSuffixStart(s, q, key + (" " + (d + rest)));
    AtConcat(s, q, key, " " + (d + rest));
    AtConcat(s, q + |key|, " ", d + rest);
    AtConcat(s, q + |key| + 1, d, rest);
    AtInside(s, q + |key| + 1, d + rest);
    AtFirst(s, q + |key|, " ");
    if rest != "" {
      AtFirst(s, q + |key| + 1 + |d|, rest);
    }
    SpacedReads(s, q + |key|, d);
  }

  /** The first `key number` of a text whose front part does not mention the key. */
  lemma KeyNumberFirst(pre: string, key: string, d: string, rest: string)
    requires key != "" && Absent(key, pre) && Breaks(key, key[0])
    requires d != "" && AllDigits(d) && (rest != "" ==> !IsDigit(rest[0]))
    ensures FirstKeyNumber(pre + (key + (" " + (d + rest))), 0, key) ==
      Some(Number(ParseNat(d), |pre| + |key| + 1 + |d|))
  {
    hide *;
    var more := key + (" " + (d + rest));
    StartsWith(key, " " + (d + rest));
    AfterFront(pre, key, more);
    KeyNumberReads(pre + more, |pre|, key, d, rest);
    FirstKeyNumberIs(pre + more, 0, |pre|, key);
  }

  lemma AfterFront(pre: string, key: string, more: string)
    requires key != "" && Absent(key, pre) && Breaks(key, key[0]) && key <= more
    ensures forall i: nat :: 0 <= i < |pre| ==> !At(pre + more, i, key)
    ensures (pre + more)[|pre|..] == more
  {
    AbsentBefore(key, pre, more);
  }

  lemma KeyReferenceReads(s: string, q: nat, key: string, d: string, g: string, rest: string)
    requires d != "" && AllDigits(d) && g != "" && AllDigits(g)
    requires q <= |s| && s[q..] == key + (" " + (d + (" " + (g + (" R" + rest)))))
    ensures KeyReferenceAt(s, q, key).Some?
    ensures KeyReferenceAt(s, q, key).value.num == ParseNat(d) && KeyReferenceAt(s, q, key).value.gen == ParseNat(g)
  {
    hide ParseNat, SkipDigits, NumberAt, SpacedNumberAt, KeyNumberAt;
    KeyNumberReads(s, q, key, d, " " + (g + (" R" + rest)));
    var a := q + |key| + 1 + |d|;
    var tail := " " + (g + (" R" + rest));
    assert s[a..] == tail by {
      assert s[q..][|key| + 1 + |d|..] == tail;
    }
    ReferenceTail(s, a, g, rest);
  }

  lemma ReferenceTail(s: string, a: nat, g: string, rest: string)
    requires g != "" && AllDigits(g)
    requires a <= |s| && s[a..] == " " + (g + (" R" + rest))
    ensures SpacedNumberAt(s, a) == Some(Number(ParseNat(g), a + 1 + |g|))
    ensures SkipSpaces(s, a + 1 + |g|) == a + 2 + |g| < |s| && s[a + 2 + |g|] == 'R'
  {
    hide SpacedNumberAt;
    var t := s[a..];
    var b := a + 1 + |g|;
    var tail := " R" + rest;
    assert t == " " + (g + tail) && tail[0] == ' ' && tail[1] == 'R';
    assert s[a + 1..b] == t[1..1 + |g|] == g;
    assert s[a] == t[0] && s[b] == t[1 + |g|] == tail[0] && s[b + 1] == t[2 + |g|] == tail[1];
    SpacedReads(s, a, g);
  }

  /** The first `key number generation R` of a text whose front part does not mention the key. */
  lemma KeyReferenceFirst(pre: string, key: string, d: string, g: string, rest: string)
    requires key != "" && Absent(key, pre) && Breaks(key, key[0])
    requires d != "" && AllDigits(d) && g != "" && AllDigits(g)
    ensures var r := FirstKeyReference(pre + (key + (" " + (d + (" " + (g + (" R" + rest)))))), 0, key);
      r.Some? && r.value.num == ParseNat(d) && r.value.gen == ParseNat(g)
  {
    hide *;
    var more := key + (" " + (d + (" " + (g + (" R" + rest)))));
    StartsWith(key, " " + (d + (" " + (g + (" R" + rest)))));
    AfterFront(pre, key, more);
    KeyReferenceReads(pre + more, |pre|, key, d, g, rest);
    FirstKeyReferenceIs(pre + more, 0, |pre|, key);
  }

  // ---- The new trailer dictionary -----------------------------------------------------------------

  /** The dictionary up to the /Root key. */
  function Front(size: nat): string {
    "<< /Size " + Dec(size) + " "
  }

  /** The dictionary up to the file identifier. */
  function Middle(size: nat, root: Ref): string {
    Front(size) + ("/Root" + (" " + (Dec(root.num) + (" " + (Dec(root.gen) + (" R" + ""))))))
  }

  /** What lies between the outer brackets. */
  function Inside(size: nat, root: Ref, id: string, prev: nat): string {
    " /Size " + Dec(size) + " /Root " + Dec(root.num) + " " + Dec(root.gen) + " R" + id + " /Prev " + Dec(prev) + " "
  }

  lemma DictBrackets(size: nat, root: Ref, id: string, prev: nat)
    ensures TrailerDict(size, root, id, prev) == "<<" + (Inside(size, root, id, prev) + ">>")
  {
    hide Dec;
  }

  lemma DictSize(size: nat, root: Ref, id: string, prev: nat) returns (rest: string)
    ensures rest != "" && !IsDigit(rest[0])
    ensures TrailerDict(size, root, id, prev) == "<< " + ("/Size" + (" " + (Dec(size) + rest)))
  {
    hide Dec;
    rest := " /Root " + Dec(root.num) + " " + Dec(root.gen) + " R" + id + " /Prev " + Dec(prev) + " >>";
  }

  lemma DictRoot(size: nat, root: Ref, id: string, prev: nat) returns (rest: string)
    ensures TrailerDict(size, root, id, prev) ==
      Front(size) + ("/Root" + (" " + (Dec(root.num) + (" " + (Dec(root.gen) + (" R" + rest))))))
  {
    hide Dec;
    rest := id + " /Prev " + Dec(prev) + " >>";
  }

  lemma DictId(size: nat, root: Ref, id: string, prev: nat)
    ensures TrailerDict(size, root, id, prev) == Middle(size, root) + (id + (" /Prev" + (" " + (Dec(prev) + " >>"))))
  {
    hide Dec;
  }

  lemma DictPrev(size: nat, root: Ref, id: string, prev: nat)
    ensures TrailerDict(size, root, id, prev) ==
      (Middle(size, root) + id + " ") + ("/Prev" + (" " + (Dec(prev) + " >>")))
  {
    hide Dec;
  }

  lemma DigitsAbsent(key: string, d: string)
    requires key != "" && key[0] == '/' && AllDigits(d)
    ensures Absent(key, d)
  {
    LacksAbsent(key, d);
  }

  /** A key that is none of /Size and /Root does not occur up to the identifier. */
  lemma KeyNotInMiddle(key: string, size: nat, root: Ref)
    requires |key| >= 2 && key[0] == '/' && key[1] != 'S' && key[1] != 'R'
    requires forall k :: 1 <= k < |key| ==> key[k] != '/' && key[k] != ' ' && !IsDigit(key[k])
    ensures Absent(key, Middle(size, root))
  {
    hide Dec, Absent, AllDigits;
    var (a, b, c) := (Dec(size), Dec(root.num), Dec(root.gen));
    KeyNotIn(key, "<< /Size ", 3, 'S');
    KeyNotIn(key, " /Root ", 1, 'R');
    KeyNotIn(key, " ", 1, 'R');
    KeyNotIn(key, " R", 2, 'R');
    Joined(key, "<< /Size ", a);
    Joined(key, "<< /Size " + a, " /Root ");
    Joined(key, "<< /Size " + a + " /Root ", b);
    Joined(key, "<< /Size " + a + " /Root " + b, " ");
    Joined(key, "<< /Size " + a + " /Root " + b + " ", c);
    Joined(key, "<< /Size " + a + " /Root " + b + " " + c, " R");
    assert Middle(size, root) == "<< /Size " + a + " /Root " + b + " " + c + " R";
  }

  /** A text whose only `/` is followed by `c`, not by the second character of `key`. */
  lemma KeyNotIn(key: string, s: string, slash: nat, c: char)
    requires |key| >= 2 && key[0] == '/' && key[1] != c
    requires forall i :: 0 <= i < |s| && i != slash ==> s[i] != '/'
    requires slash + 1 < |s| ==> s[slash + 1] == c
    ensures Absent(key, s)
  {
    forall i: nat
      ensures !At(s, i, key)
    {
      AtFirstTwo(s, i, key);
    }
  }

  lemma Joined(key: string, a: string, b: string)
    requires key != "" && key[0] == '/' && Absent(key, a)
    requires forall k :: 1 <= k < |key| ==> key[k] != '/' && key[k] != ' ' && !IsDigit(key[k])
    requires b != "" && (AllDigits(b) || (b[0] == ' ' && Absent(key, b)))
    ensures Absent(key, a + b)
  {
    if AllDigits(b) {
      DigitsAbsent(key, b);
    }
    AbsentConcat(key, a, b);
  }

  lemma RootNotInFront(size: nat)
    ensures Absent("/Root", Front(size))
  {
    hide Dec, Absent, AllDigits;
    KeyNotIn("/Root", "<< /Size ", 3, 'S');
    KeyNotIn("/Root", " ", 1, 'S');
    Joined("/Root", "<< /Size ", Dec(size));
    Joined("/Root", "<< /Size " + Dec(size), " ");
  }

  // ---- Reading the new trailer --------------------------------------------------------------------

  lemma HexLacks(s: string)
    requires AllHex(s)
    ensures Lacks(s, '/') && Plain(s)
  {
  }

  lemma HexTokenReads(s: string, p: nat, gap: string, d: string)
    requires (gap == "" || gap == " ") && AllHex(d)
    requires At(s, p, gap + ("<" + (d + ">")))
    ensures HexTokenAt(s, p) == Some(HexToken(d, p + |gap| + |d| + 2))
  {
    hide SkipHex, SkipSpaces, At, AllHex;
    var o := p + |gap|;
    AtConcat(s, p, gap, "<" + (d + ">"));
    AtConcat(s, o, "<", d + ">");
    AtConcat(s, o + 1, d, ">");
    AtInside(s, o + 1 + |d|, ">");
    AtFirst(s, o, "<");
    AtFirst(s, o + 1 + |d|, ">");
    SkipsGap(s, p, gap);
    SkipsHex(s, o + 1, d);
  }

  lemma SkipsGap(s: string, p: nat, gap: string)
    requires (gap == "" || gap == " ") && At(s, p, gap) && p + |gap| < |s| && s[p + |gap|] == '<'
    ensures SkipSpaces(s, p) == p + |gap|
  {
    if gap != "" {
      AtFirst(s, p, gap);
    }
  }

  lemma SkipsHex(s: string, p: nat, d: string)
    requires AllHex(d) && At(s, p, d) && p + |d| < |s| && s[p + |d|] == '>'
    ensures SkipHex(s, p) == p + |d|
    ensures s[p..p + |d|] == d
  {
    AtEach(s, p, d);
    assert forall i :: p <= i < p + |d| ==> s[i] == d[i - p];
  }

  function HexToken1(gap: string, d: string): string {
    gap + ("<" + (d + ">"))
  }

  lemma IdReads(s: string, q: nat, f: FileId)
    requires AllHex(f.first) && AllHex(f.second)
    requires At(s, q, "/ID [" + (HexToken1("", f.first) + (HexToken1(" ", f.second) + "]")))
    ensures IdAt(s, q) == Some(f)
  {
    hide HexTokenAt, HexToken1, AllHex, At, SkipSpaces;
    var (a, b) := (HexToken1("", f.first), HexToken1(" ", f.second));
    HexTokenLengths(f);
    AtConcat(s, q, "/ID [", a + (b + "]"));
    AtConcat(s, q + 5, a, b + "]");
    AtConcat(s, q + 5 + |a|, b, "]");
    IdOpens(s, q);
    Stops(s, q + 5 + |a| + |b|, "]");
    HexTokensRead(s, q + 5, f);
  }

  lemma IdOpens(s: string, q: nat)
    requires At(s, q, "/ID [")
    ensures At(s, q, "/ID") && q + 5 <= |s| && SkipSpaces(s, q + 3) == q + 4 && s[q + 4] == '['
  {
    hide SkipSpaces;
    AtEach(s, q, "/ID [");
    assert "/ID [" == "/ID" + " [";
    AtConcat(s, q, "/ID", " [");
    assert s[q + 3] == ' ' && s[q + 4] == '[';
    OneSpace(s, q + 3);
  }

  lemma OneSpace(s: string, p: nat)
    requires p + 1 < |s| && s[p] == ' ' && s[p + 1] == '['
    ensures SkipSpaces(s, p) == p + 1
  {
  }

  lemma Stops(s: string, p: nat, c: string)
    requires At(s, p, c) && c == "]"
    ensures p < |s| && s[p] == ']' && SkipSpaces(s, p) == p
  {
    AtFirst(s, p, c);
  }

  lemma HexTokenLengths(f: FileId)
    ensures |HexToken1("", f.first)| == |f.first| + 2 && |HexToken1(" ", f.second)| == |f.second| + 3
  {
  }

  lemma HexTokensRead(s: string, p: nat, f: FileId)
    requires AllHex(f.first) && AllHex(f.second)
    requires At(s, p, HexToken1("", f.first)) && At(s, p + |f.first| + 2, HexToken1(" ", f.second))
    ensures HexTokenAt(s, p) == Some(HexToken(f.first, p + |f.first| + 2))
    ensures HexTokenAt(s, p + |f.first| + 2) == Some(HexToken(f.second, p + |f.first| + |f.second| + 5))
  {
    hide HexTokenAt, AllHex;
    HexTokenReads(s, p, "", f.first);
    HexTokenReads(s, p + |f.first| + 2, " ", f.second);
  }

  lemma {:induction false} FirstIdIs(s: string, from: nat, q: nat)
    requires from <= q <= |s|
    requires forall i: nat :: from <= i < q ==> !At(s, i, "/ID")
    ensures FirstId(s, from) == FirstId(s, q)
    decreases q - from
  {
    hide At, HexTokenAt;
    if from < q {
      assert !At(s, from, "/ID");
      FirstIdIs(s, from + 1, q);
    }
  }

  lemma NoId(s: string)
    requires Absent("/ID", s)
    ensures FirstId(s, 0) == None
  {
    FirstIdIs(s, 0, |s|);
    assert !At(s, |s|, "/ID");
  }

  lemma IdTextForm(f: FileId)
    ensures IdText(Some(f)) == " " + ("/ID [" + (HexToken1("", f.first) + (HexToken1(" ", f.second) + "]")))
  {
    var (a, b) := (f.first, f.second);
    assert "" + ("<" + (a + ">")) == "<" + a + ">";
    assert " /ID [<" + a + "> <" + b + ">]" == " " + ("/ID [" + (("<" + a + ">") + ((" " + ("<" + (b + ">"))) + "]")));
  }

  lemma IdLater(pre: string, f: FileId, rest: string)
    requires Absent("/ID", pre) && AllHex(f.first) && AllHex(f.second)
    ensures FirstId(pre + (IdText(Some(f)) + rest), 0) == Some(f)
  {
    hide IdAt, HexToken1, AllHex, At;
    var id := "/ID [" + (HexToken1("", f.first) + (HexToken1(" ", f.second) + "]"));
    IdTextForm(f);
    var s := pre + (IdText(Some(f)) + rest);
    assert s == (pre + " ") + (id + rest);
    SpaceAbsent("/ID", pre);
    AfterFront(pre + " ", "/ID", id + rest);
    FirstIdIs(s, 0, |pre| + 1);
    assert At(s, |pre| + 1, id) by {
      Occurs(s, |pre| + 1, id, rest);
    }
    IdReads(s, |pre| + 1, f);
  }

  lemma Occurs(s: string, q: nat, x: string, rest: string)
    requires q <= |s| && s[q..] == x + rest
    ensures At(s, q, x)
  {
    assert s[q..q + |x|] == (x + rest)[..|x|];
  }

  lemma SpaceAbsent(key: string, pre: string)
    requires |key| >= 2 && key[0] == '/' && Absent(key, pre) && Breaks(key, ' ')
    ensures Absent(key, pre + " ")
  {
    LacksAbsent(key, " ");
    AbsentConcat(key, pre, " ");
  }

  lemma InsideClear(size: nat, root: Ref, id: Option<FileId>, prev: nat)
    requires id.Some? ==> AllHex(id.value.first) && AllHex(id.value.second)
    ensures var mid := Inside(size, root, IdText(id), prev);
      mid != "" && NoPairs(mid) && mid[0] != '<' && mid[|mid| - 1] != '>'
  {
    hide Dec;
    var (a, b, c, d) := (Dec(size), Dec(root.num), Dec(root.gen), Dec(prev));
    var left := " /Size " + a + " /Root " + b + " " + c + " R";
    var right := " /Prev " + d + " ";
    assert Plain(left) && Plain(right);
    var mid := Inside(size, root, IdText(id), prev);
    assert mid == left + IdText(id) + right;
    if id.Some? {
      IdClear(id.value, left, right);
    } else {
      assert mid == left + right;
    }
  }

  lemma IdClear(f: FileId, left: string, right: string)
    requires AllHex(f.first) && AllHex(f.second) && Plain(left) && Plain(right)
    ensures NoPairs(left + IdText(Some(f)) + right)
  {
    hide AllHex;
    HexLacks(f.first);
    HexLacks(f.second);
    assert left + IdText(Some(f)) + right == (left + " /ID [") + "<" + f.first + "> <" + f.second + ">" + ("]" + right);
    AnglesClear(left + " /ID [", f.first, f.second, "]" + right);
  }

  lemma AnglesClear(a: string, x: string, y: string, b: string)
    requires Plain(a) && Plain(x) && Plain(y) && Plain(b) && a != "" && b != ""
    ensures NoPairs(a + "<" + x + "> <" + y + ">" + b)
  {
    var s := a + "<" + x + "> <" + y + ">" + b;
    var (p, q, r, t) := (|a|, |a| + 1 + |x|, |a| + 3 + |x|, |a| + 4 + |x| + |y|);
    forall k | 0 <= k < |s|
      ensures s[k] == '<' ==> k == p || k == r
      ensures s[k] == '>' ==> k == q || k == t
    {
      AngleAt(a, x, y, b, k);
    }
  }

  lemma AngleAt(a: string, x: string, y: string, b: string, k: nat)
    requires Plain(a) && Plain(x) && Plain(y) && Plain(b)
    requires k < |a + "<" + x + "> <" + y + ">" + b|
    ensures (a + "<" + x + "> <" + y + ">" + b)[k] == '<' ==> k == |a| || k == |a| + 3 + |x|
    ensures (a + "<" + x + "> <" + y + ">" + b)[k] == '>' ==> k == |a| + 1 + |x| || k == |a| + 4 + |x| + |y|
  {
  }

  /** Everything the parser takes from the new trailer is what the writer put there. */
  lemma TrailerDictReads(size: nat, root: Ref, id: Option<FileId>, prev: nat)
    requires id.Some? ==> AllHex(id.value.first) && AllHex(id.value.second)
    ensures var d := TrailerDict(size, root, IdText(id), prev);
      && Proper(d)
      && PrevOf(d) == Some(prev)
      && FirstKeyNumber(d, 0, "/Size").Some? && FirstKeyNumber(d, 0, "/Size").value.value == size
      && FirstKeyReference(d, 0, "/Root").Some?
      && FirstKeyReference(d, 0, "/Root").value.num == root.num
      && FirstKeyReference(d, 0, "/Root").value.gen == root.gen
      && FirstId(d, 0) == id
  {
    hide *;
    TrailerSize(size, root, IdText(id), prev);
    TrailerRoot(size, root, IdText(id), prev);
    TrailerId(size, root, id, prev);
    TrailerPrev(size, root, id, prev);
  }

  lemma TrailerSize(size: nat, root: Ref, id: string, prev: nat)
    ensures var d := TrailerDict(size, root, id, prev);
      Proper(d) && FirstKeyNumber(d, 0, "/Size").Some? && FirstKeyNumber(d, 0, "/Size").value.value == size
  {
    hide TrailerDict, FirstKeyNumber, Dec, ParseNat;
    var rest := DictSize(size, root, id, prev);
    KeyNotIn("/Size", "<< ", 3, 'X');
    KeyNumberFirst("<< ", "/Size", Dec(size), rest);
    ParseDec(size);
  }

  lemma TrailerRoot(size: nat, root: Ref, id: string, prev: nat)
    ensures var d := TrailerDict(size, root, id, prev);
      && FirstKeyReference(d, 0, "/Root").Some?
      && FirstKeyReference(d, 0, "/Root").value.num == root.num
      && FirstKeyReference(d, 0, "/Root").value.gen == root.gen
  {
    hide TrailerDict, FirstKeyReference, Dec, ParseNat, Front, Absent;
    var rest := DictRoot(size, root, id, prev);
    RootNotInFront(size);
    KeyReferenceFirst(Front(size), "/Root", Dec(root.num), Dec(root.gen), rest);
    ParseDec(root.num);
    ParseDec(root.gen);
  }

  lemma IdTextLacksPrev(id: Option<FileId>)
    requires id.Some? ==> AllHex(id.value.first) && AllHex(id.value.second)
    ensures Absent("/Prev", IdText(id)) && StartsClear("/Prev", IdText(id))
  {
    if id.Some? {
      HexLacks(id.value.first);
      HexLacks(id.value.second);
      KeyNotIn("/Prev", IdText(id), 1, 'I');
    } else {
      LacksAbsent("/Prev", "");
    }
  }

  lemma TrailerPrev(size: nat, root: Ref, id: Option<FileId>, prev: nat)
    requires id.Some? ==> AllHex(id.value.first) && AllHex(id.value.second)
    ensures PrevOf(TrailerDict(size, root, IdText(id), prev)) == Some(prev)
  {
    hide TrailerDict, FirstKeyNumber, Dec, ParseNat, Middle, Absent, IdText;
    KeyNotInMiddle("/Prev", size, root);
    IdTextLacksPrev(id);
    AbsentConcat("/Prev", Middle(size, root), IdText(id));
    SpaceAbsent("/Prev", Middle(size, root) + IdText(id));
    DictPrev(size, root, IdText(id), prev);
    KeyNumberFirst(Middle(size, root) + IdText(id) + " ", "/Prev", Dec(prev), " >>");
    ParseDec(prev);
  }

  lemma TrailerId(size: nat, root: Ref, id: Option<FileId>, prev: nat)
    requires id.Some? ==> AllHex(id.value.first) && AllHex(id.value.second)
    ensures FirstId(TrailerDict(size, root, IdText(id), prev), 0) == id
  {
    hide TrailerDict, FirstId, Dec, Middle, Absent, IdText, AllHex;
    var end := " /Prev" + (" " + (Dec(prev) + " >>"));
    KeyNotInMiddle("/ID", size, root);
    DictId(size, root, IdText(id), prev);
    if id.Some? {
      IdLater(Middle(size, root), id.value, end);
    } else {
      NoIdInEnd(prev);
      assert IdText(id) == "" by { NoIdText(); }
      AbsentConcat("/ID", Middle(size, root), end);
      assert "" + end == end;
      NoId(Middle(size, root) + end);
    }
  }

  lemma NoIdText()
    ensures IdText(None) == ""
  {
  }

  lemma NoIdInEnd(prev: nat)
    ensures Absent("/ID", " /Prev" + (" " + (Dec(prev) + " >>")))
  {
    KeyNotIn("/ID", " /Prev" + (" " + (Dec(prev) + " >>")), 1, 'P');
  }
}
