/** What a signing records, read back from the file by a reader of its own: the signer's texts, the kind of signature
    and the widget's reference to it. */
module DictionaryText {
  import opened Text
  import opened PdfObjects
  import opened IncrementalSigner
  import opened Stability
  import opened RevisionProofs
  import opened AppendProofs
  import opened SigningProofs
  import opened QuietProofs
  import opened FieldProofs
  import opened SigningTheorems
  import opened Preservation
  import Ceremonies

  // ---- Literal strings ----------------------------------------------------------------------------

  /** A literal string up to its closing parenthesis: a backslash gives way to the character after it (section 7.3.4.2
      of ISO 32000-1, without octal and control escapes). */
  function Literal(s: string): Option<string>
    decreases |s|
  {
    if s == "" then None
    else if s[0] == ')' then Some("")
    else
      var escaped := s[0] == '\\';
      if escaped && |s| == 1 then None
      else
        var c := if escaped then s[1] else s[0];
        match Literal(if escaped then s[2..] else s[1..]) case None => None case Some(more) => Some([c] + more)
  }

  /** The literal string after the first `key (` of a dictionary. */
  function TextOf(body: string, key: string): Option<string> {
    var i := IndexOf(body, key + " (", 0);
    if i == -1 then None else Literal(body[i + |key| + 2..])
  }

  lemma {:induction false} EscapeFront(c: char, s: string)
    ensures Escape([c] + s) == Escape([c]) + Escape(s)
  {
    if s != "" {
      var (front, last) := (s[..|s| - 1], s[|s| - 1]);
      EscapeFront(c, front);
      assert ([c] + s)[..|s|] == [c] + front;
      EscapeStep(s);
      EscapeStep([c] + s);
      assert ([c] + s)[|s|] == last;
    } else {
      assert [c] + s == [c];
      assert Escape(s) == "";
    }
  }

  lemma {:induction false} EscapeStep(s: string)
    requires s != ""
    ensures Escape(s) == Escape(s[..|s| - 1]) + ((if Special(s[|s| - 1]) then "\\" else "") + [s[|s| - 1]])
  {
  }

  lemma EscapeOne(c: char)
    ensures Escape([c]) == if Special(c) then ['\\', c] else [c]
  {
    EscapeStep([c]);
    assert [c][..0] == "";
  }

  /** Reading undoes escaping, for every text. */
  lemma {:induction false} EscapedReads(s: string, rest: string)
    ensures Literal(Escape(s) + (")" + rest)) == Some(s)
  {
    hide Escape;
    if s == "" {
      assert Escape("") == "" by { NothingEscaped(); }
      assert "" + (")" + rest) == ")" + rest;
    } else {
      var (c, more) := (s[0], s[1..]);
      EscapedReads(more, rest);
      EscapeFront(c, more);
      EscapeOne(c);
      assert s == [c] + more;
      var tail := Escape(more) + (")" + rest);
      assert Escape(s) + (")" + rest) == Escape([c]) + tail;
      assert (Escape([c]) + tail)[|Escape([c])|..] == tail;
    }
  }

  lemma NothingEscaped()
    ensures Escape("") == ""
  {
  }

  lemma {:induction false} PlainEscape(s: string)
    requires forall i :: 0 <= i < |s| ==> !Special(s[i])
    ensures Escape(s) == s
  {
    hide Escape;
    if s == "" {
      NothingEscaped();
    } else {
      PlainEscape(s[..|s| - 1]);
      EscapeStep(s);
      assert s == s[..|s| - 1] + [s[|s| - 1]];
    }
  }

  // ---- Keys ---------------------------------------------------------------------------------------

  /** A key as it stands before a literal string. */
  predicate Opener(pat: string) {
    |pat| >= 4 && pat[|pat| - 1] == '(' && pat[|pat| - 2] == ' ' && Lacks(pat[..|pat| - 1], '(')
  }

  /** Every opening parenthesis follows a backslash. */
  predicate Backslashed(x: string) {
    forall j :: 0 <= j < |x| && x[j] == '(' ==> j > 0 && x[j - 1] == '\\'
  }

  /** Text that ends in another key, and escaped text after it, bring no occurrence of the key. */
  lemma NotYet(pat: string, front: string, lead: string, x: string, k: nat)
    requires Opener(pat) && Opener(lead) && Backslashed(x) && Absent(pat, front)
    requires 2 <= k <= |pat| && k <= |lead| && lead[|lead| - k] != pat[|pat| - k]
    ensures Absent(pat, front + lead + x)
  {
    var s := front + lead + x;
    var n := |front + lead|;
    forall i: nat
      ensures !At(s, i, pat)
    {
      if At(s, i, pat) {
        AtEach(s, i, pat);
        var e := i + |pat| - 1;
        assert s[e] == '(' && s[e - 1] == ' ' && s[i + |pat| - k] == pat[|pat| - k];
        if e >= n {
          assert false;
        } else if e >= |front| {
          LeadEnds(front, lead, x, e, k);
          assert false;
        } else {
          assert s == front + (lead + x);
          AtPrefix(front, lead + x, i, pat);
          assert false;
        }
      }
    }
  }

  /** The only opening parenthesis of a key is its last character. */
  lemma LeadEnds(front: string, lead: string, x: string, e: nat, k: nat)
    requires Opener(lead) && |front| <= e < |front + lead| && 1 <= k <= |lead|
    ensures (front + lead + x)[e] == '(' <==> e == |front + lead| - 1
    ensures (front + lead + x)[|front + lead| - k] == lead[|lead| - k]
  {
    var j := e - |front|;
    if j < |lead| - 1 {
      assert lead[j] == lead[..|lead| - 1][j];
    }
  }

  /** Where text without the key meets the key, there the key is found. */
  lemma FoundAt(pat: string, front: string, gap: string, rest: string)
    requires Opener(pat) && Absent(pat, front) && Lacks(gap, '(')
    ensures IndexOf(front + gap + pat + rest, pat, 0) == |front + gap|
  {
    var s := front + gap + pat + rest;
    var n := |front + gap|;
    assert s[n..n + |pat|] == pat;
    forall i: nat | i < n
      ensures !At(s, i, pat)
    {
      if At(s, i, pat) {
        AtEach(s, i, pat);
        var e := i + |pat| - 1;
        assert s[e] == '(';
        assert s == front + (gap + pat + rest);
        if e < |front| {
          AtPrefix(front, gap + pat + rest, i, pat);
          assert false;
        } else if e < n {
          assert false;
        } else {
          LeadEnds(front + gap, pat, rest, e, 1);
          assert false;
        }
      }
    }
    IndexOfIs(s, pat, 0, n);
  }

  lemma TextFound(key: string, front: string, gap: string, x: string, rest: string)
    requires Opener(key + " (") && Absent(key + " (", front) && Lacks(gap, '(')
    ensures TextOf(front + gap + (key + " (") + (Escape(x) + (")" + rest)), key) == Some(x)
  {
    hide Escape, IndexOf, Absent, Literal, Opener;
    var body := front + gap + (key + " (") + (Escape(x) + (")" + rest));
    FoundAt(key + " (", front, gap, Escape(x) + (")" + rest));
    assert body[|front + gap| + |key| + 2..] == Escape(x) + (")" + rest);
    EscapedReads(x, rest);
  }

  lemma EscapeBackslashed(s: string)
    ensures Backslashed(Escape(s))
  {
    hide Escape;
    forall j | 0 <= j < |Escape(s)| && Escape(s)[j] == '('
      ensures j > 0 && Escape(s)[j - 1] == '\\'
    {
      EscapedParens(s, j);
    }
  }

  // ---- The dictionary -----------------------------------------------------------------------------

  /** A signature dictionary that records these texts. */
  ghost predicate Records(body: string, opts: Appearance) {
    && At(body, 0, "<< /Type /Sig") && At(body, 13, " /Filter /Adobe.PPKLite")
    && At(body, 36, " /SubFilter /adbe.pkcs7.detached")
    && |body| >= 2 && At(body, |body| - 2, ">>")
    && TextOf(body, "/Name") == Some(opts.name)
    && TextOf(body, "/Reason") == Some(opts.reason)
    && TextOf(body, "/Location") == Some(opts.location)
    && TextOf(body, "/M") == Some(opts.date)
  }

  lemma Keys()
    ensures Opener("/Name (") && Opener("/Reason (") && Opener("/Location (") && Opener("/M (")
    ensures Opener(" /Name (") && Opener(") /Reason (") && Opener(") /Location (")
    ensures "/Name" + " (" == "/Name (" && "/Reason" + " (" == "/Reason (" && "/Location" + " (" == "/Location ("
    ensures "/M" + " (" == "/M ("
  {
  }

  lemma OpenLacks()
    ensures Lacks(SIG_OPEN, '(') && |SIG_TYPE| == 13 && |SIG_FILTER| == 23
  {
    assert Lacks(SIG_TYPE, '(') && Lacks(SIG_FILTER, '(') && Lacks(SIG_SUBFILTER, '(');
  }

  lemma KindLacks(pat: string)
    requires Opener(pat)
    ensures Absent(pat, SIG_OPEN)
  {
    hide SIG_OPEN;
    OpenLacks();
    LacksOne(pat, |pat| - 1, SIG_OPEN);
  }

  function NameHead(name: string): string {
    SIG_OPEN + " /Name (" + Escape(name)
  }

  function ReasonHead(name: string, reason: string): string {
    NameHead(name) + ") /Reason (" + Escape(reason)
  }

  function PlaceHead(name: string, reason: string, location: string): string {
    ReasonHead(name, reason) + ") /Location (" + Escape(location)
  }

  lemma NameRead(name: string, rest: string)
    ensures TextOf(NameHead(name) + (")" + rest), "/Name") == Some(name)
  {
    hide SIG_OPEN, Escape, Opener, TextOf;
    Keys();
    KindLacks("/Name (");
    TextFound("/Name", SIG_OPEN, " ", name, rest);
    assert NameHead(name) + (")" + rest) == SIG_OPEN + " " + "/Name (" + (Escape(name) + (")" + rest));
  }

  lemma ReasonRead(name: string, reason: string, rest: string)
    ensures TextOf(ReasonHead(name, reason) + (")" + rest), "/Reason") == Some(reason)
  {
    hide SIG_OPEN, Escape, Opener, TextOf, Backslashed;
    Keys();
    KindLacks("/Reason (");
    EscapeBackslashed(name);
    NotYet("/Reason (", SIG_OPEN, " /Name (", Escape(name), 3);
    TextFound("/Reason", NameHead(name), ") ", reason, rest);
    assert ReasonHead(name, reason) + (")" + rest)
      == NameHead(name) + ") " + "/Reason (" + (Escape(reason) + (")" + rest));
  }

  lemma PlaceRead(name: string, reason: string, location: string, rest: string)
    ensures TextOf(PlaceHead(name, reason, location) + (")" + rest), "/Location") == Some(location)
  {
    hide SIG_OPEN, Escape, Opener, TextOf, Backslashed, NameHead;
    Keys();
    KindLacks("/Location (");
    EscapeBackslashed(name);
    EscapeBackslashed(reason);
    NotYet("/Location (", SIG_OPEN, " /Name (", Escape(name), 3);
    assert NameHead(name) == SIG_OPEN + " /Name (" + Escape(name) by { NameForm(name); }
    NotYet("/Location (", NameHead(name), ") /Reason (", Escape(reason), 5);
    TextFound("/Location", ReasonHead(name, reason), ") ", location, rest);
    assert PlaceHead(name, reason, location) + (")" + rest)
      == ReasonHead(name, reason) + ") " + "/Location (" + (Escape(location) + (")" + rest));
  }

  lemma NameForm(name: string)
    ensures NameHead(name) == SIG_OPEN + " /Name (" + Escape(name)
  {
  }

  lemma DateRead(name: string, reason: string, location: string, date: string, rest: string)
    requires DateText(date)
    ensures TextOf(PlaceHead(name, reason, location) + (") /M (" + date + (")" + rest)), "/M") == Some(date)
  {
    hide SIG_OPEN, Escape, Opener, TextOf, Backslashed, NameHead, ReasonHead;
    Keys();
    KindLacks("/M (");
    EscapeBackslashed(name);
    EscapeBackslashed(reason);
    EscapeBackslashed(location);
    NotYet("/M (", SIG_OPEN, " /Name (", Escape(name), 3);
    NameForm(name);
    NotYet("/M (", NameHead(name), ") /Reason (", Escape(reason), 3);
    ReasonForm(name, reason);
    NotYet("/M (", ReasonHead(name, reason), ") /Location (", Escape(location), 3);
    TextFound("/M", PlaceHead(name, reason, location), ") ", date, rest);
    assert Escape(date) == date by { PlainEscape(date); }
    assert PlaceHead(name, reason, location) + (") /M (" + date + (")" + rest))
      == PlaceHead(name, reason, location) + ") " + "/M (" + (date + (")" + rest));
  }

  lemma ReasonForm(name: string, reason: string)
    ensures ReasonHead(name, reason) == NameHead(name) + ") /Reason (" + Escape(reason)
  {
  }

  lemma DictForm(opts: Appearance, range: string, hex: string) returns (rest: string)
    ensures SigDict(opts, range, hex) ==
      PlaceHead(opts.name, opts.reason, opts.location) + (") /M (" + opts.date + (")" + rest))
  {
    hide Escape, SIG_OPEN, RangeKey, GapText;
    rest := " " + RangeKey(range) + GapText(hex);
  }

  lemma DictRecords(opts: Appearance, range: string, hex: string)
    requires Quiet(opts)
    ensures Records(SigDict(opts, range, hex), opts)
  {
    hide SigDict, PlaceHead, ReasonHead, NameHead, TextOf, Escape, QuietText, DateText;
    var rest := DictForm(opts, range, hex);
    var (n, r, l, d) := (opts.name, opts.reason, opts.location, opts.date);
    DateRead(n, r, l, d, rest);
    PlaceRead(n, r, l, " /M (" + d + (")" + rest));
    assert ") /M (" + d + (")" + rest) == ")" + (" /M (" + d + (")" + rest));
    var more := " /Location (" + Escape(l) + (") /M (" + d + (")" + rest));
    ReasonRead(n, r, more);
    assert SigDict(opts, range, hex) == ReasonHead(n, r) + (")" + more) by { PlaceSplit(n, r, l, d, rest); }
    var most := " /Reason (" + Escape(r) + (")" + more);
    NameRead(n, most);
    assert SigDict(opts, range, hex) == NameHead(n) + (")" + most) by { ReasonSplit(n, r, more); }
    StartsKind(n, ")" + most);
    EndsClosed(opts, range, hex);
  }

  lemma EndsClosed(opts: Appearance, range: string, hex: string)
    ensures var d := SigDict(opts, range, hex); |d| >= 2 && At(d, |d| - 2, ">>")
  {
    hide SigHead, RangeKey;
    var d := SigDict(opts, range, hex);
    assert d[|d| - 2..] == ">>";
    assert d[|d| - 2..|d| - 2 + 2] == d[|d| - 2..];
  }

  lemma PlaceSplit(n: string, r: string, l: string, d: string, rest: string)
    ensures PlaceHead(n, r, l) + (") /M (" + d + (")" + rest))
      == ReasonHead(n, r) + (")" + (" /Location (" + Escape(l) + (") /M (" + d + (")" + rest))))
  {
    hide ReasonHead, Escape;
  }

  lemma ReasonSplit(n: string, r: string, more: string)
    ensures ReasonHead(n, r) + (")" + more) == NameHead(n) + (")" + (" /Reason (" + Escape(r) + (")" + more)))
  {
    hide NameHead, Escape;
  }

  lemma StartsKind(n: string, rest: string)
    ensures At(NameHead(n) + rest, 0, "<< /Type /Sig") && At(NameHead(n) + rest, 13, " /Filter /Adobe.PPKLite")
    ensures At(NameHead(n) + rest, 36, " /SubFilter /adbe.pkcs7.detached")
  {
    hide Escape, SIG_TYPE, SIG_FILTER, SIG_SUBFILTER;
    OpenLacks();
    var more := " /Name (" + Escape(n) + rest;
    assert NameHead(n) + rest == SIG_TYPE + (SIG_FILTER + (SIG_SUBFILTER + more));
    Pieces(SIG_TYPE, SIG_FILTER, SIG_SUBFILTER, more);
    assert SIG_TYPE == "<< /Type /Sig" && SIG_FILTER == " /Filter /Adobe.PPKLite" by { Literals(); }
    assert SIG_SUBFILTER == " /SubFilter /adbe.pkcs7.detached" by { Literals(); }
  }

  lemma Literals()
    ensures SIG_TYPE == "<< /Type /Sig" && SIG_FILTER == " /Filter /Adobe.PPKLite"
    ensures SIG_SUBFILTER == " /SubFilter /adbe.pkcs7.detached"
  {
  }

  lemma Pieces(a: string, b: string, c: string, more: string)
    ensures var s := a + (b + (c + more)); At(s, 0, a) && At(s, |a|, b) && At(s, |a| + |b|, c)
  {
    var s := a + (b + (c + more));
    assert s[0..|a|] == a && s[|a|..|a| + |b|] == b && s[|a| + |b|..|a| + |b| + |c|] == c;
  }

  // ---- The widget ---------------------------------------------------------------------------------

  /** Between a key and the closing `R` a reference holds white space and digits. */
  lemma ReferenceShape(s: string, i: nat, key: string)
    requires KeyReferenceAt(s, i, key).Some?
    ensures var e := KeyReferenceAt(s, i, key).value.end;
      && i + |key| < e - 1 < |s| && s[e - 1] == 'R'
      && forall j :: i + |key| <= j < e - 1 ==> IsSpace(s[j]) || IsDigit(s[j])
  {
    var n := SpacedNumberAt(s, i + |key|).value;
    SpacedNumberShape(s, i + |key|);
    SpacedNumberShape(s, n.end);
  }

  /** Two texts agree up to here. */
  predicate Agree(s: string, t: string, m: nat) {
    m <= |s| && m <= |t| && s[..m] == t[..m]
  }

  lemma AgreeAt(s: string, t: string, m: nat, j: nat)
    requires Agree(s, t, m) && j < m
    ensures s[j] == t[j]
  {
    assert s[j] == s[..m][j] == t[..m][j];
  }

  lemma {:induction false} SameSpaces(s: string, t: string, m: nat, p: nat)
    requires Agree(s, t, m) && p <= |s| && SkipSpaces(s, p) < m
    ensures SkipSpaces(t, p) == SkipSpaces(s, p)
    decreases |s| - p
  {
    AgreeAt(s, t, m, p);
    if IsSpace(s[p]) {
      SameSpaces(s, t, m, p + 1);
    }
  }

  lemma {:induction false} SameDigits(s: string, t: string, m: nat, p: nat)
    requires Agree(s, t, m) && p <= |s| && SkipDigits(s, p) < m
    ensures SkipDigits(t, p) == SkipDigits(s, p)
    decreases |s| - p
  {
    AgreeAt(s, t, m, p);
    if IsDigit(s[p]) {
      SameDigits(s, t, m, p + 1);
    }
  }

  lemma SameSpacedNumber(s: string, t: string, m: nat, p: nat)
    requires Agree(s, t, m) && p <= |s| && SpacedNumberAt(s, p).Some? && SpacedNumberAt(s, p).value.end < m
    ensures p <= |t| && SpacedNumberAt(t, p) == SpacedNumberAt(s, p)
  {
    hide SkipSpaces, SkipDigits, ParseNat;
    var q := SkipSpaces(s, p);
    var e := SkipDigits(s, q);
    SameSpaces(s, t, m, p);
    SameDigits(s, t, m, q);
    assert s[q..e] == s[..m][q..e] == t[..m][q..e] == t[q..e];
  }

  /** A reference that ends within the common part is read alike. */
  lemma SameReference(s: string, t: string, m: nat, i: nat, key: string)
    requires Agree(s, t, m) && KeyReferenceAt(s, i, key).Some? && KeyReferenceAt(s, i, key).value.end <= m
    ensures KeyReferenceAt(t, i, key) == KeyReferenceAt(s, i, key)
  {
    hide SpacedNumberAt, SkipSpaces;
    var p := i + |key|;
    var n := SpacedNumberAt(s, p).value;
    var g := SpacedNumberAt(s, n.end).value;
    assert s[i..p] == s[..m][i..p] == t[..m][i..p] == t[i..p];
    SameSpacedNumber(s, t, m, p);
    SameSpacedNumber(s, t, m, n.end);
    SameSpaces(s, t, m, g.end);
    AgreeAt(s, t, m, SkipSpaces(s, g.end));
  }

  lemma {:induction false} NoReferenceAt(s: string, p: nat, i: nat, key: string)
    requires p <= i <= |s| && FirstKeyReference(s, p, key).None?
    ensures KeyReferenceAt(s, i, key).None?
    decreases i - p
  {
    hide KeyReferenceAt;
    if p < i {
      NoReferenceAt(s, p + 1, i, key);
    }
  }

  /** No reference of the unsigned field comes about by adding the entry. */
  lemma NoneBefore(body: string, w: string, a: string, i: nat)
    requires !AlreadySigned(body) && Agree(w, body, |a|) && i <= |a| && |w| > |a| + 1
    requires w[|a|] == ' ' && w[|a| + 1] == '/'
    ensures KeyReferenceAt(w, i, "/V").None?
  {
    hide KeyReferenceAt;
    if KeyReferenceAt(w, i, "/V").Some? {
      ReferenceShape(w, i, "/V");
      var e := KeyReferenceAt(w, i, "/V").value.end;
      if i == |a| {
        assert At(w, i, "/V") by { KeyThere(w, i); }
        AtFirst(w, i, "/V");
        assert false;
      } else if e > |a| {
        assert false;
      } else {
        SameReference(w, body, |a|, i, "/V");
        NoReferenceAt(body, 0, i, "/V");
        assert false;
      }
    }
  }

  lemma KeyThere(w: string, i: nat)
    requires KeyReferenceAt(w, i, "/V").Some?
    ensures At(w, i, "/V")
  {
  }

  lemma {:induction false} FirstReference(s: string, p: nat, q: nat, key: string)
    requires p <= q <= |s| && KeyReferenceAt(s, q, key).Some?
    requires forall i: nat :: p <= i < q ==> KeyReferenceAt(s, i, key).None?
    ensures FirstKeyReference(s, p, key) == KeyReferenceAt(s, q, key)
    decreases q - p
  {
    hide KeyReferenceAt;
    if p < q {
      FirstReference(s, p + 1, q, key);
    }
  }

  /** A dictionary cut before its last closing brackets and the white space in front of them. */
  ghost predicate Split(body: string, a: string, gap: string, b: string) {
    && body == a + gap + b && Blank(gap) && a != "" && !IsSpace(a[|a| - 1])
    && b != "" && At(b, 0, ">>") && Absent(">>", b[1..])
  }

  lemma SplitOf(body: string, sigNum: nat) returns (a: string, gap: string, b: string)
    requires IsDict(body)
    ensures Split(body, a, gap, b) && Widget(body, sigNum) == a + Entry0(sigNum) + b
  {
    hide SignedBy, IndexOf, LastIndexOf, TrimEnd, At, Includes, InjectIntoDict, Blank, IsSpace, Absent;
    var close := LastIndexOf(body, ">>", |body|);
    ClosePosition(body);
    a := TrimEnd(body[..close]);
    gap := body[|a|..close];
    b := body[close..];
    FrontParts(body, close, a, gap);
    BackParts(body, close);
    InjectIs(body, SignedBy(sigNum));
    LastClose(body, close);
    assert body == body[..close] + b;
    assert !IsSpace(a[|a| - 1]);
  }

  lemma LastClose(body: string, close: nat)
    requires close < |body| && LastIndexOf(body, ">>", |body|) == close
    ensures Absent(">>", body[close..][1..])
  {
    var b := body[close + 1..];
    assert b == body[close..][1..];
    assert body == body[..close + 1] + b;
    forall i: nat
      ensures !At(b, i, ">>")
    {
      AtSuffix(body[..close + 1], b, i, ">>");
      if i + 2 <= |b| {
        assert !At(body, close + 1 + i, ">>");
      }
    }
  }

  /** The widget is the field with one entry more, before its last closing brackets, and that entry is its first /V
      reference. */
  ghost predicate RefersTo(widget: string, body: string, sigNum: nat) {
    && (exists a, gap, b ::
          Split(body, a, gap, b) && widget == a + (" /V " + Dec(sigNum) + " 0 R ") + b)
    && FirstKeyReference(widget, 0, "/V").Some?
    && FirstKeyReference(widget, 0, "/V").value.num == sigNum && FirstKeyReference(widget, 0, "/V").value.gen == 0
  }

  lemma WidgetRefers(body: string, sigNum: nat)
    requires IsDict(body) && !AlreadySigned(body)
    ensures RefersTo(Widget(body, sigNum), body, sigNum)
  {
    hide Widget, Dec, KeyReferenceAt, FirstKeyReference, Entry0, Blank, AlreadySigned, ParseNat, Absent;
    var a, gap, b := SplitOf(body, sigNum);
    var w := Widget(body, sigNum);
    EntrySpaced(a, b, sigNum);
    EntryReads(a, b, sigNum);
    assert w[..|a|] == a == body[..|a|];
    forall i: nat | i < |a| + 1
      ensures KeyReferenceAt(w, i, "/V").None?
    {
      NoneBefore(body, w, a, i);
    }
    FirstReference(w, 0, |a| + 1, "/V");
    assert Entry0(sigNum) == " /V " + Dec(sigNum) + " 0 R " by { EntryForm(sigNum); }
  }

  lemma EntryReads(a: string, b: string, sigNum: nat)
    ensures var r := KeyReferenceAt(a + Entry0(sigNum) + b, |a| + 1, "/V");
      r.Some? && r.value.num == sigNum && r.value.gen == 0
  {
    hide Dec, KeyReferenceAt, Entry0, ParseNat;
    var w := a + Entry0(sigNum) + b;
    EntryPlace(a, b, sigNum);
    KeyReferenceReads(w, |a| + 1, "/V", Dec(sigNum), "0", " " + b);
    ParseDec(sigNum);
    DecZero();
    ParseDec(0);
  }

  lemma EntryForm(sigNum: nat)
    ensures Entry0(sigNum) == " /V " + Dec(sigNum) + " 0 R "
  {
    hide Dec;
  }

  lemma EntrySpaced(a: string, b: string, sigNum: nat)
    ensures var w := a + Entry0(sigNum) + b; |w| > |a| + 1 && w[|a|] == ' ' && w[|a| + 1] == '/'
  {
    hide Dec;
    assert Entry0(sigNum)[0] == ' ' && Entry0(sigNum)[1] == '/';
  }

  // ---- The file -----------------------------------------------------------------------------------

  /** The file has the old objects and one more, numbered with the old size: the signature dictionary with the signer's
      texts, which the widget of the field refers to. */
  ghost predicate Recorded(buf: string, out: string, num: nat, opts: Appearance) {
    && Parse(buf).Ok? && Parse(out).Ok?
    && var (prior, grown) := (Parse(buf).value, Parse(out).value);
    && grown.size == prior.size + 1
    && ReadObject(buf, prior.offsets, num).Ok?
    && ReadObject(out, grown.offsets, num).Ok?
    && ReadObject(out, grown.offsets, prior.size).Ok?
    && Records(ReadObject(out, grown.offsets, prior.size).value.body, opts)
    && RefersTo(ReadObject(out, grown.offsets, num).value.body, ReadObject(buf, prior.offsets, num).value.body,
                prior.size)
  }

  lemma FreshRecords(buf: string, doc: Index, field: Object, opts: Appearance, range: string, hex: string)
    requires Fresh(buf, doc, field, opts, range, hex)
    ensures StartXref(buf).Ok? && Recorded(buf, NewFile(buf, doc, field, opts, range, hex), field.num, opts)
  {
    hide *;
    FreshParts(buf, doc, field, opts, range, hex);
    ReadyParts(buf, doc, field, opts);
    NewFileIs(buf, doc, field, opts, range, hex);
    NewObjects(buf, doc, field, opts, range, hex);
    SigningKeepsSignable(buf, doc, field, opts, range, hex);
    SignableParsed(buf, doc);
    SignableParsed(NewFile(buf, doc, field, opts, range, hex), NewDoc(buf, doc, field, opts, range, hex));
    DictRecords(opts, range, hex);
    TargetParts(buf, doc, field);
    assert !AlreadySigned(field.body) by { TargetUnsigned(buf, doc, field); }
    WidgetRefers(field.body, doc.size);
    RecordedIs(buf, NewFile(buf, doc, field, opts, range, hex), doc, NewDoc(buf, doc, field, opts, range, hex),
               field.num, opts);
  }

  lemma TargetUnsigned(buf: string, doc: Index, field: Object)
    requires Target(buf, doc, field)
    ensures !AlreadySigned(field.body)
  {
    hide AlreadySigned, ReadObject, Indexed, SigField;
  }

  lemma RecordedIs(buf: string, out: string, prior: Index, grown: Index, num: nat, opts: Appearance)
    requires Parse(buf) == Ok(prior) && Parse(out) == Ok(grown) && grown.size == prior.size + 1
    requires ReadObject(buf, prior.offsets, num).Ok? && ReadObject(out, grown.offsets, num).Ok?
    requires ReadObject(out, grown.offsets, prior.size).Ok?
    requires Records(ReadObject(out, grown.offsets, prior.size).value.body, opts)
    requires RefersTo(ReadObject(out, grown.offsets, num).value.body, ReadObject(buf, prior.offsets, num).value.body,
                      prior.size)
    ensures Recorded(buf, out, num, opts)
  {
    hide Parse, ReadObject, Records, RefersTo;
  }

  /** A prepared document records what the signer was asked to record. */
  lemma PreparedRecords(buf: string, doc: Index, num: nat, opts: Appearance)
    requires Request(buf, doc, num, opts) && Prepare(buf, opts).Ok?
    ensures Recorded(buf, Prepare(buf, opts).value.buffer, num, opts)
    ensures Prepare(buf, opts).value.sigObjectNumber == doc.size
  {
    hide *;
    PrepareOutcome(buf, doc, num, opts);
    RequestTarget(buf, doc, num, opts);
    var field := FieldOf(buf, doc, num);
    var r := RangeOf(buf, doc, field, opts);
    FilledRangeLength(r);
    ZerosHex(2 * opts.reserved);
    Ceremonies.FreshIs(buf, doc, field, opts, FilledRange(r), Zeros(2 * opts.reserved));
    FreshRecords(buf, doc, field, opts, FilledRange(r), Zeros(2 * opts.reserved));
  }

  /** So does the signed one. */
  lemma SignedRecords(buf: string, doc: Index, num: nat, opts: Appearance, der: seq<byte>)
    requires Succeeds(buf, doc, num, opts, der)
    ensures Sign(buf, opts, der).Ok? && Recorded(buf, Sign(buf, opts, der).value, num, opts)
  {
    hide *;
    SucceedsFresh(buf, doc, num, opts, der);
    SignedFileIs(buf, doc, num, opts, der);
    var field := FieldOf(buf, doc, num);
    FreshRecords(buf, doc, field, opts, FilledRange(RangeOf(buf, doc, field, opts)), Filling(der, 2 * opts.reserved));
  }
}
