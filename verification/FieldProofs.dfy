/** The widget of a signature field before and after its /V entry is added. */
module FieldProofs {
  import opened Text
  import opened PdfObjects
  import opened IncrementalSigner
  import opened Stability
  import opened RevisionProofs
  import opened QuietProofs

  // ---- Occurrences --------------------------------------------------------------------------------

  lemma IncludesIff(s: string, pat: string)
    ensures Includes(s, pat) <==> exists i: nat :: At(s, i, pat)
    ensures Includes(s, pat) <==> !Absent(pat, s)
  {
    if Includes(s, pat) {
      assert At(s, IndexOf(s, pat, 0), pat);
    }
  }

  lemma MiddleAt(a: string, m: string, b: string, e: nat)
    requires |a| <= e < |a + m|
    ensures (a + m + b)[e] == m[e - |a|]
  {
  }

  /** A text without `>` whose last character is not in `m` occurs in `a + m + b` only inside `a` or inside `b`. */
  lemma OnlyInParts(pat: string, a: string, m: string, b: string, i: nat)
    requires pat != "" && Lacks(pat, '>') && Lacks(m, pat[|pat| - 1]) && b != "" && b[0] == '>'
    ensures At(a + m + b, i, pat) <==> At(a, i, pat) || (i >= |a + m| && At(b, i - |a + m|, pat))
  {
    var s := a + m + b;
    if i >= |a + m| {
      AtSuffix(a + m, b, i - |a + m|, pat);
    } else if i + |pat| <= |a| {
      assert s == a + (m + b);
      AtPrefix(a, m + b, i, pat);
    } else if At(s, i, pat) {
      AtEach(s, i, pat);
      var e := i + |pat| - 1;
      if e < |a + m| {
        MiddleAt(a, m, b, e);
        assert false;
      } else {
        MiddleAt(a + m, b, "", |a + m|);
        AtOne(s, i, pat, |a + m| - i);
        assert false;
      }
    }
  }

  /** Replacing the middle keeps what occurs. */
  lemma IncludesKept(pat: string, a: string, m: string, n: string, b: string)
    requires pat != "" && Lacks(pat, '>') && Lacks(m, pat[|pat| - 1]) && Lacks(n, pat[|pat| - 1]) && b != ""
    requires b[0] == '>'
    ensures Includes(a + m + b, pat) <==> Includes(a + n + b, pat)
  {
    hide IndexOf, At, Includes, Lacks;
    IncludesIff(a + m + b, pat);
    IncludesIff(a + n + b, pat);
    if i: nat :| At(a + m + b, i, pat) {
      OnlyInParts(pat, a, m, b, i);
      var j := if At(a, i, pat) then i else i - |a + m| + |a + n|;
      OnlyInParts(pat, a, n, b, j);
    }
    if i: nat :| At(a + n + b, i, pat) {
      OnlyInParts(pat, a, n, b, i);
      var j := if At(a, i, pat) then i else i - |a + n| + |a + m|;
      OnlyInParts(pat, a, m, b, j);
    }
  }

  // ---- Trimming -----------------------------------------------------------------------------------

  predicate Trimmed(s: string) {
    s != "" && !IsSpace(s[0]) && !IsSpace(s[|s| - 1])
  }

  lemma TrimLines(s: string)
    requires Trimmed(s)
    ensures Trim("\n" + s + "\n") == s
  {
    var t := "\n" + s + "\n";
    assert t[1] == s[0];
    assert SkipSpaces(t, 0) == 1;
    assert t[1..] == s + "\n";
    assert (s + "\n")[..|s|] == s;
    assert TrimEnd(s) == s;
  }

  lemma TrimIsPart(s: string)
    ensures exists lo, hi :: 0 <= lo <= hi <= |s| && Trim(s) == s[lo..hi]
    ensures Trim(s) == "" || !IsSpace(Trim(s)[|Trim(s)| - 1])
  {
    var lo := SkipSpaces(s, 0);
    var r := TrimEnd(s[lo..]);
    assert r == s[lo..][..|r|] == s[lo..lo + |r|];
  }

  /** What the reader returns as a body has no `endobj` and no white space at its end. */
  lemma BodyShape(s: string, num: nat)
    requires ParseObject(s, num).Ok?
    ensures var body := ParseObject(s, num).value.body;
      Absent("endobj", body) && (body == "" || !IsSpace(body[|body| - 1])) && |body| <= |s|
  {
    hide ObjectHeaderAt, IndexOf, Trim, Absent;
    var h := ObjectHeaderAt(s, num).value.end;
    var e := IndexOf(s, "endobj", h);
    var text := s[h..e];
    BeforeEndobj(s, h, e);
    TrimIsPart(text);
    var lo, hi :| 0 <= lo <= hi <= |text| && Trim(text) == text[lo..hi];
    AbsentPart("endobj", text, lo, hi);
  }

  lemma BeforeEndobj(s: string, h: nat, e: nat)
    requires h <= e <= |s| && IndexOf(s, "endobj", h) == e
    ensures Absent("endobj", s[h..e])
  {
    forall i: nat
      ensures !At(s[h..e], i, "endobj")
    {
      if At(s[h..e], i, "endobj") {
        AtPart(s, h, e, i, "endobj");
        assert false;
      }
    }
  }

  // ---- The widget ---------------------------------------------------------------------------------

  /** A dictionary as the reader returns it. */
  predicate IsDict(body: string) {
    At(body, 0, "<<") && Includes(body, ">>") && !IsSpace(body[|body| - 1])
  }

  predicate Blank(s: string) {
    forall i :: 0 <= i < |s| ==> IsSpace(s[i])
  }

  /** The entry that marks a field as signed, with its separators. */
  function Entry0(sigNum: nat): string {
    " " + SignedBy(sigNum) + " "
  }

  function Widget(body: string, sigNum: nat): string {
    match InjectIntoDict(body, SignedBy(sigNum))
    case Err(_) => body
    case Ok(w) => w
  }

  /** The entry replaces the white space before the closing brackets. */
  lemma WidgetForm(body: string, sigNum: nat) returns (a: string, gap: string, b: string)
    requires IsDict(body)
    ensures a != "" && !IsSpace(a[0]) && Blank(gap) && b != "" && b[0] == '>' && At(b, 0, ">>") && !IsSpace(b[|b| - 1])
    ensures body == a + gap + b
    ensures InjectIntoDict(body, SignedBy(sigNum)) == Ok(Widget(body, sigNum))
    ensures Widget(body, sigNum) == a + Entry0(sigNum) + b
  {
    hide SignedBy, IndexOf, LastIndexOf, TrimEnd, At, Includes, InjectIntoDict, Blank, IsSpace;
    var close := LastIndexOf(body, ">>", |body|);
    ClosePosition(body);
    a := TrimEnd(body[..close]);
    gap := body[|a|..close];
    b := body[close..];
    FrontParts(body, close, a, gap);
    BackParts(body, close);
    InjectIs(body, SignedBy(sigNum));
    assert body == body[..close] + b;
  }

  lemma InjectIs(body: string, extra: string)
    requires 0 <= LastIndexOf(body, ">>", |body|) <= |body|
    ensures var close := LastIndexOf(body, ">>", |body|);
      InjectIntoDict(body, extra) == Ok(TrimEnd(body[..close]) + (" " + extra + " ") + body[close..])
  {
    hide LastIndexOf, TrimEnd;
    var close := LastIndexOf(body, ">>", |body|);
    var (x, y) := (TrimEnd(body[..close]), body[close..]);
    assert x + " " + extra + " " + y == x + (" " + extra + " ") + y;
  }

  lemma FrontParts(body: string, close: nat, a: string, gap: string)
    requires At(body, 0, "<<") && 2 <= close <= |body| && a == TrimEnd(body[..close]) && gap == body[|a|..close]
    ensures a != "" && !IsSpace(a[0]) && Blank(gap) && a + gap == body[..close]
  {
    hide TrimEnd;
    AtFirst(body, 0, "<<");
    var front := body[..close];
    assert front[0] == '<';
    assert a <= front;
    forall i | 0 <= i < |gap|
      ensures IsSpace(gap[i])
    {
      assert gap[i] == front[|a| + i];
    }
  }

  lemma BackParts(body: string, close: nat)
    requires At(body, close, ">>") && close < |body|
    ensures body[close..] != "" && body[close..][0] == '>' && At(body[close..], 0, ">>")
    ensures body[close..][|body| - close - 1] == body[|body| - 1]
  {
    AtFirst(body, close, ">>");
    assert body[close..][0..2] == body[close..close + 2];
  }

  lemma ClosePosition(body: string)
    requires IsDict(body)
    ensures 2 <= LastIndexOf(body, ">>", |body|) < |body| && At(body, LastIndexOf(body, ">>", |body|), ">>")
  {
    hide IndexOf, LastIndexOf;
    var close := LastIndexOf(body, ">>", |body|);
    assert At(body, IndexOf(body, ">>", 0), ">>");
    assert close != -1;
    AtFirstTwo(body, 0, "<<");
    AtFirst(body, close, ">>");
  }

  /** The last character of the text decides nothing in the entry or in white space. */
  predicate Solid(pat: string) {
    pat != "" && Lacks(pat, '>') &&
    var c := pat[|pat| - 1];
    !IsSpace(c) && !IsDigit(c) && c != '/' && c != 'V' && c != 'R'
  }

  lemma EntryLacks(sigNum: nat, c: char)
    requires !IsSpace(c) && !IsDigit(c) && c != '/' && c != 'V' && c != 'R'
    ensures Lacks(Entry0(sigNum), c)
  {
    hide Dec;
    var d := Dec(sigNum);
    assert forall i :: 0 <= i < |d| ==> IsDigit(d[i]);
    assert Entry0(sigNum) == " /V " + (d + " 0 R ");
  }

  /** The widget has the same titles and types as the field. */
  lemma WidgetIncludes(body: string, sigNum: nat, pat: string)
    requires IsDict(body) && Solid(pat)
    ensures Includes(Widget(body, sigNum), pat) <==> Includes(body, pat)
  {
    hide Widget, Entry0, Includes;
    var a, gap, b := WidgetForm(body, sigNum);
    EntryLacks(sigNum, pat[|pat| - 1]);
    IncludesKept(pat, a, gap, Entry0(sigNum), b);
  }

  lemma FieldPatterns(name: string)
    requires Lacks(name, '>')
    ensures Solid("/T (" + name + ")") && Solid(SIG_FIELD) && Solid(TITLE)
  {
  }

  lemma {:induction false} ReferenceFound(s: string, p: nat, q: nat, key: string)
    requires p <= q <= |s| && KeyReferenceAt(s, q, key).Some?
    ensures FirstKeyReference(s, p, key).Some?
    decreases q - p
  {
    hide KeyReferenceAt;
    if p < q {
      ReferenceFound(s, p + 1, q, key);
    }
  }

  /** The widget counts as signed. */
  lemma WidgetSigned(body: string, sigNum: nat)
    requires IsDict(body)
    ensures AlreadySigned(Widget(body, sigNum))
  {
    hide Widget, Dec, KeyReferenceAt, FirstKeyReference, Entry0;
    var a, gap, b := WidgetForm(body, sigNum);
    var w := Widget(body, sigNum);
    EntryPlace(a, b, sigNum);
    KeyReferenceReads(w, |a| + 1, "/V", Dec(sigNum), "0", " " + b);
    ReferenceFound(w, 0, |a| + 1, "/V");
  }

  lemma EntryPlace(a: string, b: string, sigNum: nat)
    ensures var w := a + Entry0(sigNum) + b;
      |w| > |a| && w[|a| + 1..] == "/V" + (" " + (Dec(sigNum) + (" " + ("0" + (" R" + (" " + b))))))
  {
    hide Dec;
    var entry := "/V" + (" " + (Dec(sigNum) + (" " + ("0" + (" R" + " ")))));
    assert Entry0(sigNum) == " " + entry;
    var tail := "/V" + (" " + (Dec(sigNum) + (" " + ("0" + (" R" + (" " + b))))));
    assert a + Entry0(sigNum) + b == (a + " ") + tail;
  }

  /** The widget is a trimmed dictionary of bounded length without the given word. */
  lemma WidgetShape(body: string, sigNum: nat)
    requires IsDict(body)
    ensures IsDict(Widget(body, sigNum)) && Trimmed(Widget(body, sigNum))
    ensures |Widget(body, sigNum)| <= |body| + |Dec(sigNum)| + 9
  {
    hide Widget, Dec, IndexOf;
    var a, gap, b := WidgetForm(body, sigNum);
    assert |Entry0(sigNum)| == |Dec(sigNum)| + 9;
    var w := Widget(body, sigNum);
    assert At(w, 0, "<<") by { WidgetOpens(body, a, gap, b, Entry0(sigNum)); }
    assert Includes(w, ">>") by {
      WidgetCloses(a, b, Entry0(sigNum));
    }
  }

  lemma WidgetOpens(body: string, a: string, gap: string, b: string, m: string)
    requires At(body, 0, "<<") && body == a + gap + b && a != "" && Blank(gap) && b != "" && b[0] == '>'
    ensures At(a + m + b, 0, "<<")
  {
    AtFirstTwo(body, 0, "<<");
    assert |a| >= 2 by {
      if |a| == 1 {
        SecondOf(a, gap, b);
        assert false;
      }
    }
    assert (a + m + b)[0..2] == body[0..2];
  }

  lemma SecondOf(a: string, gap: string, b: string)
    requires |a| == 1 && b != ""
    ensures (a + gap + b)[1] == if gap == "" then b[0] else gap[0]
  {
  }

  lemma WidgetCloses(a: string, b: string, m: string)
    requires At(b, 0, ">>")
    ensures Includes(a + m + b, ">>")
  {
    AtSuffix(a + m, b, 0, ">>");
    IncludesIff(a + m + b, ">>");
  }

  lemma WidgetLacks(body: string, sigNum: nat, pat: string)
    requires IsDict(body) && (pat == "endobj" || pat == BYTE_RANGE) && Absent(pat, body)
    ensures Absent(pat, Widget(body, sigNum)) && Absent(pat, "\n" + Widget(body, sigNum) + "\n")
  {
    hide Widget, Absent;
    var a, gap, b := WidgetForm(body, sigNum);
    assert a == body[0..|a|] && b == body[|a + gap|..|body|];
    AbsentPart(pat, body, 0, |a|);
    AbsentPart(pat, body, |a + gap|, |body|);
    EntryQuiet(pat, sigNum);
    AbsentConcat(pat, a, Entry0(sigNum));
    AbsentAfter(pat, a + Entry0(sigNum), b);
    Lines(pat, Widget(body, sigNum));
  }

  lemma EntryQuiet(pat: string, sigNum: nat)
    requires pat == "endobj" || pat == BYTE_RANGE
    ensures Absent(pat, Entry0(sigNum)) && Entry0(sigNum)[0] == ' ' && Entry0(sigNum)[|Entry0(sigNum)| - 1] == ' '
  {
    EntryLacks(sigNum, if pat == "endobj" then 'j' else 'B');
    LacksOne(pat, if pat == "endobj" then 5 else 1, Entry0(sigNum));
  }

  lemma Lines(pat: string, s: string)
    requires (pat == "endobj" || pat == BYTE_RANGE) && Absent(pat, s)
    ensures Absent(pat, "\n" + s + "\n")
  {
    hide Absent;
    LacksOne(pat, 1, "\n");
    AbsentAfter(pat, "\n", s);
    AbsentConcat(pat, "\n" + s, "\n");
  }
}
