/** The signing revision mentions /ByteRange once, `endobj` only after its objects and no further field title,
    provided the signer's texts mention neither. */
module QuietProofs {
  import opened Text
  import opened PdfObjects
  import opened IncrementalSigner
  import opened Stability
  import opened RevisionProofs
  import opened AppendProofs

  const TITLE := "/T ("

  /** The words the reader gives meaning to. */
  predicate Marker(pat: string) {
    pat == BYTE_RANGE || pat == "endobj" || pat == TITLE
  }

  ghost predicate QuietText(s: string) {
    Absent(BYTE_RANGE, s) && Absent("endobj", s)
  }

  /** A date as `pdfDate` renders it: digits, `D`, `:`, a sign and apostrophes. */
  predicate DateText(s: string) {
    forall i :: 0 <= i < |s| ==> IsDigit(s[i]) || s[i] in "D:+-'"
  }

  /** The lexical hypothesis on what the caller passes in. */
  ghost predicate Quiet(opts: Appearance) {
    QuietText(opts.name) && QuietText(opts.reason) && QuietText(opts.location) && DateText(opts.date)
  }

  // ---- Seams --------------------------------------------------------------------------------------

  /** `c` can end a text without starting an occurrence of `pat` that goes on after the seam. */
  predicate Blocks(pat: string, c: char) {
    forall k :: 0 <= k < |pat| - 1 ==> pat[k] != c
  }

  lemma AbsentAfter(pat: string, a: string, b: string)
    requires pat != "" && Absent(pat, a) && Absent(pat, b) && a != "" && Blocks(pat, a[|a| - 1])
    ensures Absent(pat, a + b)
  {
    forall i: nat
      ensures !At(a + b, i, pat)
    {
      if i >= |a| {
        AtSuffix(a, b, i - |a|, pat);
        assert !At(b, i - |a|, pat);
      } else if i + |pat| <= |a| {
        AtPrefix(a, b, i, pat);
      } else {
        NotAcross(pat, a, b, i);
      }
    }
  }

  lemma NotAcross(pat: string, a: string, b: string, i: nat)
    requires i < |a| < i + |pat| && Blocks(pat, a[|a| - 1])
    ensures !At(a + b, i, pat)
  {
    if At(a + b, i, pat) {
      var k := |a| - 1 - i;
      assert pat[k] != a[|a| - 1];
      AtEach(a + b, i, pat);
      assert false;
    }
  }

  // ---- Escaping -----------------------------------------------------------------------------------

  predicate Special(c: char) {
    c == '\\' || c == '(' || c == ')'
  }

  /** An unescaped ending of the escaped text is an ending of the text itself. */
  lemma {:induction false} EscapeEnding(s: string, k: nat)
    requires k <= |Escape(s)|
    requires forall i :: |Escape(s)| - k <= i < |Escape(s)| ==> !Special(Escape(s)[i])
    ensures k <= |s| && s[|s| - k..] == Escape(s)[|Escape(s)| - k..]
  {
    if k > 0 {
      var (front, c) := (s[..|s| - 1], s[|s| - 1]);
      assert Escape(s)[|Escape(s)| - 1] == c;
      assert Escape(s) == Escape(front) + [c];
      forall i | |Escape(front)| - (k - 1) <= i < |Escape(front)|
        ensures !Special(Escape(front)[i])
      {
        assert Escape(front)[i] == Escape(s)[i];
      }
      EscapeEnding(front, k - 1);
      assert s == front + [c];
      assert s[|s| - k..] == front[|front| - (k - 1)..] + [c];
      assert Escape(s)[|Escape(s)| - k..] == Escape(front)[|Escape(front)| - (k - 1)..] + [c];
    }
  }

  predicate Unescaped(pat: string) {
    pat != "" && forall k :: 0 <= k < |pat| ==> !Special(pat[k])
  }

  /** Escaping introduces no occurrence of a word without backslash or parenthesis. */
  lemma {:induction false} EscapeAbsent(pat: string, s: string)
    requires Unescaped(pat) && Absent(pat, s)
    ensures Absent(pat, Escape(s))
  {
    hide Unescaped;
    if s != "" {
      AbsentPart(pat, s, 0, |s| - 1);
      EscapeAbsent(pat, s[..|s| - 1]);
      var front := Escape(s[..|s| - 1]);
      var last := Escape(s)[|front|..];
      assert Escape(s) == front + last;
      forall i: nat
        ensures !At(Escape(s), i, pat)
      {
        if i + |pat| <= |front| {
          AtPrefix(front, last, i, pat);
        } else {
          NotAtEnd(pat, s, i);
        }
      }
    } else {
      assert Escape(s) == s;
    }
  }

  lemma NotAtEnd(pat: string, s: string, i: nat)
    requires Unescaped(pat) && Absent(pat, s) && s != "" && i + |pat| > |Escape(s[..|s| - 1])|
    ensures !At(Escape(s), i, pat)
  {
    hide Escape, Unescaped;
    if At(Escape(s), i, pat) {
      EndingOccurs(pat, s, i);
      assert false;
    }
  }

  lemma EndingOccurs(pat: string, s: string, i: nat)
    requires Unescaped(pat) && s != "" && At(Escape(s), i, pat) && i + |pat| > |Escape(s[..|s| - 1])|
    ensures |pat| <= |s| && At(s, |s| - |pat|, pat)
  {
    hide Escape;
    var e := Escape(s);
    AtEach(e, i, pat);
    assert forall j :: i <= j < i + |pat| ==> e[j] == pat[j - i];
    LastPiece(s);
    assert i + |pat| == |e|;
    EscapeEnding(s, |pat|);
    assert s[|s| - |pat|..] == pat;
    assert s[|s| - |pat|..|s| - |pat| + |pat|] == s[|s| - |pat|..];
  }

  lemma LastPiece(s: string)
    requires s != ""
    ensures var front := Escape(s[..|s| - 1]);
      || |Escape(s)| == |front| + 1
      || (|Escape(s)| == |front| + 2 && Special(Escape(s)[|front|]) && Special(Escape(s)[|front| + 1]))
  {
  }

  // ---- The signature dictionary -------------------------------------------------------------------

  /** Text without some character of `pat` has no occurrence of it. */
  lemma LacksOne(pat: string, k: nat, s: string)
    requires k < |pat| && Lacks(s, pat[k])
    ensures Absent(pat, s)
  {
    forall i: nat
      ensures !At(s, i, pat)
    {
      if At(s, i, pat) {
        AtOne(s, i, pat, k);
        assert false;
      }
    }
  }

  lemma AtOne(s: string, i: nat, pat: string, k: nat)
    requires At(s, i, pat) && k < |pat|
    ensures i + k < |s| && s[i + k] == pat[k]
  {
    AtEach(s, i, pat);
  }

  lemma OpenQuiet(pat: string)
    requires Marker(pat)
    ensures Absent(pat, SIG_OPEN)
  {
    hide Absent;
    var k := if pat == BYTE_RANGE then 1 else if pat == "endobj" then 5 else 3;
    LacksOne(pat, k, SIG_TYPE);
    LacksOne(pat, k, SIG_FILTER);
    LacksOne(pat, k, SIG_SUBFILTER);
    if pat == TITLE {
      AbsentAfter(pat, SIG_TYPE, SIG_FILTER);
      AbsentAfter(pat, SIG_TYPE + SIG_FILTER, SIG_SUBFILTER);
    } else {
      AbsentConcat(pat, SIG_TYPE, SIG_FILTER);
      AbsentConcat(pat, SIG_TYPE + SIG_FILTER, SIG_SUBFILTER);
    }
  }

  /** Every opening parenthesis of escaped text follows a backslash. */
  lemma {:induction false} EscapedParens(s: string, j: nat)
    requires j < |Escape(s)| && Escape(s)[j] == '('
    ensures j > 0 && Escape(s)[j - 1] == '\\'
  {
    var front := Escape(s[..|s| - 1]);
    if j < |front| {
      EscapedParens(s[..|s| - 1], j);
      assert Escape(s)[j - 1] == front[j - 1];
    }
  }

  lemma EscapedText(pat: string, s: string)
    requires Marker(pat) && QuietText(s)
    ensures Absent(pat, Escape(s))
  {
    hide Escape;
    if pat == TITLE {
      forall i: nat
        ensures !At(Escape(s), i, pat)
      {
        if At(Escape(s), i, pat) {
          AtEach(Escape(s), i, pat);
          assert Escape(s)[i + 2] == ' ' && Escape(s)[i + 3] == '(';
          EscapedParens(s, i + 3);
          assert false;
        }
      }
    } else {
      EscapeAbsent(pat, s);
    }
  }

  /** A label before a parenthesised text: `) /Reason (` and the like. */
  predicate Label(s: string) {
    |s| >= 2 && s[0] == ')' && s[|s| - 1] == '(' && Lacks(s, 'B') && Lacks(s, 'j') && Lacks(s, 'T')
  }

  lemma Labelled(pat: string, a: string, title: string, x: string)
    requires Marker(pat) && Label(title) && Absent(pat, a) && Absent(pat, x)
    ensures Absent(pat, a + title + x)
  {
    hide Absent;
    LacksOne(pat, if pat == BYTE_RANGE then 1 else if pat == "endobj" then 5 else 1, title);
    AbsentConcat(pat, a, title);
    AbsentAfter(pat, a + title, x);
  }

  lemma Labels()
    ensures Label(") /Reason (") && Label(") /Location (") && Label(") /M (")
  {
  }

  lemma FirstLabel(pat: string, x: string)
    requires Marker(pat) && Absent(pat, x)
    ensures Absent(pat, SIG_OPEN + " /Name (" + x)
  {
    hide Absent;
    OpenQuiet(pat);
    assert SIG_OPEN[|SIG_OPEN| - 1] == 'd';
    LacksOne(pat, if pat == BYTE_RANGE then 1 else if pat == "endobj" then 5 else 1, " /Name (");
    if pat == TITLE {
      AbsentAfter(pat, SIG_OPEN, " /Name (");
    } else {
      AbsentConcat(pat, SIG_OPEN, " /Name (");
    }
    AbsentAfter(pat, SIG_OPEN + " /Name (", x);
  }

  lemma DateQuiet(pat: string, s: string)
    requires Marker(pat) && DateText(s)
    ensures Absent(pat, s)
  {
    LacksOne(pat, if pat == BYTE_RANGE then 1 else if pat == "endobj" then 5 else 1, s);
  }

  /** No marker occurs in the dictionary before its /ByteRange key. */
  lemma HeadQuiet(pat: string, opts: Appearance)
    requires Marker(pat) && Quiet(opts)
    ensures Absent(pat, SigHead(opts))
  {
    hide Absent, Escape, SIG_OPEN, Marker, Label, QuietText, DateText;
    Labels();
    EscapedText(pat, opts.name);
    EscapedText(pat, opts.reason);
    EscapedText(pat, opts.location);
    DateQuiet(pat, opts.date);
    var a := SIG_OPEN + " /Name (" + Escape(opts.name);
    FirstLabel(pat, Escape(opts.name));
    Labelled(pat, a, ") /Reason (", Escape(opts.reason));
    Labelled(pat, a + ") /Reason (" + Escape(opts.reason), ") /Location (", Escape(opts.location));
    var c := a + ") /Reason (" + Escape(opts.reason) + ") /Location (" + Escape(opts.location);
    Labelled(pat, c, ") /M (", opts.date);
    CloseLabel(pat, c + ") /M (" + opts.date);
  }

  lemma CloseLabel(pat: string, a: string)
    requires Marker(pat) && Absent(pat, a)
    ensures Absent(pat, a + ") ")
  {
    LacksOne(pat, if pat == BYTE_RANGE then 1 else if pat == "endobj" then 5 else 1, ") ");
    AbsentConcat(pat, a, ") ");
  }

  predicate RangeChars(s: string) {
    forall i :: 0 <= i < |s| ==> IsRangeChar(s[i])
  }

  /** The whole dictionary has neither `endobj` nor a field title. */
  lemma DictQuiet(pat: string, opts: Appearance, range: string, hex: string)
    requires (pat == "endobj" || pat == TITLE) && Quiet(opts) && RangeChars(range) && AllHex(hex)
    ensures Absent(pat, SigDict(opts, range, hex))
  {
    hide Absent, SigHead, Quiet, RangeKey, GapText;
    HeadQuiet(pat, opts);
    var tail := RangeKey(range) + GapText(hex);
    TailChars(range, hex);
    LacksOne(pat, if pat == "endobj" then 5 else 3, tail);
    AbsentConcat(pat, SigHead(opts), tail);
    assert SigDict(opts, range, hex) == SigHead(opts) + tail;
  }

  lemma TailChars(range: string, hex: string)
    requires RangeChars(range) && AllHex(hex)
    ensures var tail := RangeKey(range) + GapText(hex);
      tail != "" && tail[0] == '/' && Lacks(tail, 'j') && Lacks(tail, '(')
  {
    hide IsHex, IsRangeChar;
    RangeCharsLack(range);
    HexCharsLack(hex);
    assert Lacks(BYTE_RANGE, 'j') && Lacks(BYTE_RANGE, '(') && Lacks(CONTENTS, 'j') && Lacks(CONTENTS, '(');
    LacksConcat(BYTE_RANGE + " ", range);
    LacksConcat(" " + CONTENTS + " <", hex);
    LacksConcat(" " + CONTENTS + " <" + hex, "> >>");
    LacksConcat(RangeKey(range), GapText(hex));
  }

  lemma RangeCharsLack(range: string)
    requires RangeChars(range)
    ensures Lacks(range, 'j') && Lacks(range, '(')
  {
  }

  lemma HexCharsLack(hex: string)
    requires AllHex(hex)
    ensures Lacks(hex, 'j') && Lacks(hex, '(') && Lacks(hex, '/')
  {
  }

  lemma LacksConcat(a: string, b: string)
    ensures Lacks(a, 'j') && Lacks(b, 'j') ==> Lacks(a + b, 'j')
    ensures Lacks(a, '(') && Lacks(b, '(') ==> Lacks(a + b, '(')
  {
  }

  // ---- The text after the gap ---------------------------------------------------------------------

  lemma {:induction false} LinesLackSlash(objs: seq<Revision>, offsets: map<nat, nat>)
    requires forall o :: o in objs ==> o.num in offsets
    ensures Lacks(XrefLines(objs, offsets), '/')
  {
    if objs != [] {
      LinesLackSlash(objs[1..], offsets);
      var o := objs[0];
      var (a, b, c) := (Dec(o.num), Pad(offsets[o.num], 10), Pad(o.gen, 5));
      hide Dec, Pad;
      assert Lacks(a, '/') && Lacks(b, '/') && Lacks(c, '/');
    }
  }

  /** No /ByteRange in a cross-reference section. */
  lemma SectionQuiet(doc: Index, sorted: seq<Revision>, start: nat, prev: nat)
    requires |sorted| > 0
    ensures Absent(BYTE_RANGE, SectionText(doc, sorted, start, prev))
  {
    hide XrefLines, OffsetsOf, TrailerDict, NewSize, IdPart, Footer, ObjectsText, Absent, BYTE_RANGE, Dec;
    var lines := XrefLines(sorted, OffsetsOf(sorted, start + 1));
    LinesLackSlash(sorted, OffsetsOf(sorted, start + 1));
    var front := XREF_HEAD + lines + "trailer\n";
    var dict := TrailerDict(NewSize(doc, sorted), doc.root, IdPart(doc.trailer), prev);
    var end := "\n" + Footer(start + 1 + |ObjectsText(sorted)|);
    FooterLacksSlash(start + 1 + |ObjectsText(sorted)|);
    assert Lacks(front, '/') by { XrefHeadLacksSlash(); }
    KeywordFacts();
    LacksAbsent(BYTE_RANGE, front);
    LacksAbsent(BYTE_RANGE, end);
    TrailerQuiet(NewSize(doc, sorted), doc.root, FirstId(doc.trailer, 0), prev);
    IdPartIs(doc);
    assert dict[0] == '<' by { DictBrackets(NewSize(doc, sorted), doc.root, IdPart(doc.trailer), prev); }
    AbsentConcat(BYTE_RANGE, front, dict);
    AbsentConcat(BYTE_RANGE, front + dict, end);
    assert SectionText(doc, sorted, start, prev) == front + dict + end;
  }

  lemma KeywordFacts()
    ensures |BYTE_RANGE| == 10 && BYTE_RANGE[0] == '/' && BYTE_RANGE[1] == 'B'
    ensures Breaks(BYTE_RANGE, '<') && Breaks(BYTE_RANGE, '\n') && Breaks(BYTE_RANGE, ' ') && Breaks(BYTE_RANGE, '/')
    ensures forall k :: 1 <= k < |BYTE_RANGE| ==>
      BYTE_RANGE[k] != '/' && BYTE_RANGE[k] != ' ' && !IsDigit(BYTE_RANGE[k])
  {
  }

  lemma XrefHeadLacksSlash()
    ensures Lacks(XREF_HEAD, '/')
  {
  }

  lemma FooterLacksSlash(x: nat)
    ensures Lacks(Footer(x), '/')
  {
    hide Dec;
    var d := Dec(x);
    assert Lacks(d, '/');
  }

  lemma TrailerQuiet(size: nat, root: Ref, id: Option<FileId>, prev: nat)
    requires id.Some? ==> AllHex(id.value.first) && AllHex(id.value.second)
    ensures Absent(BYTE_RANGE, TrailerDict(size, root, IdText(id), prev))
  {
    hide Absent, BYTE_RANGE, Middle, IdText, Dec, TrailerDict;
    KeywordFacts();
    KeyNotInMiddle(BYTE_RANGE, size, root);
    IdQuiet(id);
    var end := " /Prev" + (" " + (Dec(prev) + " >>"));
    assert Absent(BYTE_RANGE, end) by { PrevQuiet(prev); }
    AbsentConcat(BYTE_RANGE, Middle(size, root), IdText(id));
    AbsentConcat(BYTE_RANGE, Middle(size, root) + IdText(id), end);
    DictId(size, root, IdText(id), prev);
    assert Middle(size, root) + (IdText(id) + end) == Middle(size, root) + IdText(id) + end;
  }

  lemma PrevQuiet(prev: nat)
    ensures Absent(BYTE_RANGE, " /Prev" + (" " + (Dec(prev) + " >>")))
  {
    hide Dec;
    KeyNotIn(BYTE_RANGE, " /Prev" + (" " + (Dec(prev) + " >>")), 1, 'P');
  }

  lemma IdQuiet(id: Option<FileId>)
    requires id.Some? ==> AllHex(id.value.first) && AllHex(id.value.second)
    ensures Absent(BYTE_RANGE, IdText(id)) && StartsClear(BYTE_RANGE, IdText(id))
  {
    if id.Some? {
      HexLacks(id.value.first);
      HexLacks(id.value.second);
      KeyNotIn(BYTE_RANGE, IdText(id), 1, 'I');
    } else {
      LacksAbsent(BYTE_RANGE, "");
    }
  }

  /** No /ByteRange from the gap to the end of the revision. */
  lemma AfterRangeQuiet(hex: string, doc: Index, sorted: seq<Revision>, start: nat, prev: nat)
    requires |sorted| > 0 && AllHex(hex)
    ensures Absent(BYTE_RANGE, GapText(hex) + ("\nendobj\n" + SectionText(doc, sorted, start, prev)))
  {
    hide Absent, BYTE_RANGE, SectionText;
    KeywordFacts();
    SectionQuiet(doc, sorted, start, prev);
    HexCharsLack(hex);
    assert Absent(BYTE_RANGE, GapText(hex)) by { GapQuiet(hex); }
    LacksAbsent(BYTE_RANGE, "\nendobj\n");
    AbsentAfter(BYTE_RANGE, "\nendobj\n", SectionText(doc, sorted, start, prev)) by { KeywordBlocks(); }
    AbsentConcat(BYTE_RANGE, GapText(hex), "\nendobj\n" + SectionText(doc, sorted, start, prev));
  }

  lemma KeywordBlocks()
    ensures Blocks(BYTE_RANGE, '\n')
  {
  }

  lemma GapQuiet(hex: string)
    requires Lacks(hex, '/')
    ensures Absent(BYTE_RANGE, GapText(hex))
  {
    KeyNotIn(BYTE_RANGE, GapText(hex), 1, 'C');
  }
}
