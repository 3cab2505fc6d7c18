/** Latin-1 text as the signer sees it: a document is a `string` whose characters stand for bytes.
    Substring search, decimal rendering and the handful of regular-expression pieces the PDF code uses. */
module Text {

  datatype Option<+T> = None | Some(value: T)

  datatype Result<+T> = Ok(value: T) | Err(error: string)

  predicate IsDigit(c: char) {
    '0' <= c <= '9'
  }

  /** JavaScript's \s restricted to Latin-1: tab, line feed, vertical tab, form feed, carriage return, space, no-break
      space. */
  predicate IsSpace(c: char) {
    c == ' ' || '\t' <= c <= '\r' || c == '\U{00A0}'
  }

  predicate AllDigits(s: string) {
    forall i :: 0 <= i < |s| ==> IsDigit(s[i])
  }

  // ---- Substring search -------------------------------------------------------------------------

  /** `pat` occurs in `s` at position `p`. */
  predicate At(s: string, p: nat, pat: string) {
    p + |pat| <= |s| && s[p..p + |pat|] == pat
  }

  lemma AtFirst(s: string, p: nat, pat: string)
    requires pat != ""
    ensures At(s, p, pat) ==> s[p] == pat[0]
  {
    if At(s, p, pat) {
      assert s[p] == s[p..p + |pat|][0];
    }
  }

  lemma AtFirstTwo(s: string, p: nat, pat: string)
    requires |pat| >= 2
    ensures At(s, p, pat) ==> s[p] == pat[0] && s[p + 1] == pat[1]
  {
    if At(s, p, pat) {
      assert s[p] == s[p..p + |pat|][0] && s[p + 1] == s[p..p + |pat|][1];
    }
  }

  lemma AtEach(s: string, p: nat, pat: string)
    requires At(s, p, pat)
    ensures forall i :: 0 <= i < |pat| ==> s[p + i] == pat[i]
  {
    forall i | 0 <= i < |pat|
      ensures s[p + i] == pat[i]
    {
      assert s[p..p + |pat|][i] == pat[i];
    }
  }

  lemma AtConcat(s: string, p: nat, a: string, b: string)
    ensures At(s, p, a + b) <==> At(s, p, a) && At(s, p + |a|, b)
  {
    if p + |a| + |b| <= |s| {
      var (x, y) := (s[p..p + |a|], s[p + |a|..p + |a| + |b|]);
      assert s[p..p + |a + b|] == x + y;
      assert (x + y)[..|a|] == x && (x + y)[|a|..] == y;
      assert (a + b)[..|a|] == a && (a + b)[|a|..] == b;
    }
  }

  lemma AtInside(s: string, p: nat, pat: string)
    requires At(s, p, pat)
    ensures p + |pat| <= |s|
  {
  }

  /** A suffix occurs where it starts. */
  lemma AtSuffixStart(s: string, q: nat, text: string)
    requires q <= |s| && s[q..] == text
    ensures At(s, q, text) && |s| == q + |text|
  {
    assert s[q..q + |text|] == s[q..];
  }

  lemma StartsWith(a: string, b: string)
    ensures a <= a + b
  {
  }

  /** `s.indexOf(pat, from)`. */
  function IndexOf(s: string, pat: string, from: nat): (r: int)
    ensures r == -1 || (from <= r && At(s, r, pat))
    ensures forall p: nat :: from <= p && (r == -1 || p < r) ==> !At(s, p, pat)
    decreases |s| - from
  {
    if from + |pat| > |s| then -1
    else if At(s, from, pat) then from
    else if from == |s| then -1
    else IndexOf(s, pat, from + 1)
  }

  /** `s.lastIndexOf(pat)`, looking no further right than `from`. */
  function LastIndexOf(s: string, pat: string, from: nat): (r: int)
    ensures r == -1 || (0 <= r <= from && At(s, r, pat))
    ensures forall p: nat :: p <= from && r < p ==> !At(s, p, pat)
    decreases from
  {
    if At(s, from, pat) then from
    else if from == 0 then -1
    else LastIndexOf(s, pat, from - 1)
  }

  predicate Includes(s: string, pat: string) {
    IndexOf(s, pat, 0) != -1
  }

  lemma IndexOfIs(s: string, pat: string, from: nat, r: nat)
    requires from <= r && At(s, r, pat)
    requires forall p: nat :: from <= p < r ==> !At(s, p, pat)
    ensures IndexOf(s, pat, from) == r
  {
  }

  // ---- Runs of white space and digits -----------------------------------------------------------

  /** The end of the maximal run of white space starting at `p`. */
  function SkipSpaces(s: string, p: nat): (q: nat)
    requires p <= |s|
    ensures p <= q <= |s|
    ensures forall i :: p <= i < q ==> IsSpace(s[i])
    ensures q == |s| || !IsSpace(s[q])
    decreases |s| - p
  {
    if p < |s| && IsSpace(s[p]) then SkipSpaces(s, p + 1) else p
  }

  /** The end of the maximal run of digits starting at `p`. */
  function SkipDigits(s: string, p: nat): (q: nat)
    requires p <= |s|
    ensures p <= q <= |s|
    ensures forall i :: p <= i < q ==> IsDigit(s[i])
    ensures q == |s| || !IsDigit(s[q])
    decreases |s| - p
  {
    if p < |s| && IsDigit(s[p]) then SkipDigits(s, p + 1) else p
  }

  function TrimStart(s: string): (r: string) {
    s[SkipSpaces(s, 0)..]
  }

  function TrimEnd(s: string): (r: string)
    ensures r <= s
    ensures r == "" || !IsSpace(r[|r| - 1])
    ensures forall i :: |r| <= i < |s| ==> IsSpace(s[i])
  {
    if s != "" && IsSpace(s[|s| - 1]) then TrimEnd(s[..|s| - 1]) else s
  }

  function Trim(s: string): string {
    TrimEnd(TrimStart(s))
  }

  // ---- Decimal numerals -------------------------------------------------------------------------

  function Digit(d: nat): (c: char)
    requires d < 10
    ensures IsDigit(c) && c as int - '0' as int == d
  {
    ('0' as int + d) as char
  }

  /** `String(n)`. */
  function Dec(n: nat): (s: string)
    ensures |s| > 0 && AllDigits(s)
  {
    if n < 10 then [Digit(n)] else Dec(n / 10) + [Digit(n % 10)]
  }

  /** `parseInt(s, 10)` on a run of digits. */
  function ParseNat(s: string): nat
    requires AllDigits(s)
  {
    if s == "" then 0
    else ParseNat(s[..|s| - 1]) * 10 + (s[|s| - 1] as int - '0' as int)
  }

  function Zeros(k: nat): (s: string)
    ensures |s| == k && forall i :: 0 <= i < k ==> s[i] == '0'
  {
    if k == 0 then "" else Zeros(k - 1) + "0"
  }

  /** `String(n).padStart(w, '0')`. */
  function Pad(n: nat, w: nat): (s: string)
    ensures |s| > 0 && AllDigits(s)
    ensures |s| == if |Dec(n)| <= w then w else |Dec(n)|
  {
    if |Dec(n)| < w then Zeros(w - |Dec(n)|) + Dec(n) else Dec(n)
  }

  function Pow10(k: nat): (r: nat)
    ensures r >= 1
  {
    if k == 0 then 1 else 10 * Pow10(k - 1)
  }

  /** Rendering a number and reading it back is the identity. */
  lemma {:induction false} ParseDec(n: nat)
    ensures ParseNat(Dec(n)) == n
  {
    if n >= 10 {
      ParseDec(n / 10);
      assert Dec(n)[..|Dec(n)| - 1] == Dec(n / 10);
    }
  }

  lemma {:induction false} ParseLeadingZeros(k: nat, s: string)
    requires AllDigits(s)
    ensures AllDigits(Zeros(k) + s) && ParseNat(Zeros(k) + s) == ParseNat(s)
  {
    var z := Zeros(k) + s;
    if s == "" {
      assert z == Zeros(k);
      ParseZeros(k);
    } else {
      hide Zeros;
      var front := s[..|s| - 1];
      ParseLeadingZeros(k, front);
      assert z[..|z| - 1] == Zeros(k) + front;
      ParseStep(z);
      ParseStep(s);
    }
  }

  lemma ParseStep(s: string)
    requires AllDigits(s) && s != ""
    ensures ParseNat(s) == ParseNat(s[..|s| - 1]) * 10 + (s[|s| - 1] as int - '0' as int)
  {
  }

  lemma {:induction false} ParseZeros(k: nat)
    ensures ParseNat(Zeros(k)) == 0
  {
    if k > 0 {
      ParseZeros(k - 1);
      assert Zeros(k)[..k - 1] == Zeros(k - 1);
      ParseStep(Zeros(k));
    }
  }

  /** A zero-padded numeral reads back as the number it pads. */
  lemma ParsePad(n: nat, w: nat)
    ensures ParseNat(Pad(n, w)) == n
  {
    ParseDec(n);
    if |Dec(n)| < w {
      ParseLeadingZeros(w - |Dec(n)|, Dec(n));
    }
  }

  /** A numeral has at most `k` digits exactly when the number is below 10^k. */
  lemma {:induction false} DecWidth(n: nat, k: nat)
    requires k > 0
    ensures |Dec(n)| <= k <==> n < Pow10(k)
  {
    if k == 1 {
      assert Pow10(1) == 10 * Pow10(0);
    } else if n >= 10 {
      DecWidth(n / 10, k - 1);
    } else {
      assert Pow10(k) == 10 * Pow10(k - 1);
    }
  }

  /** Distinct numbers have distinct numerals, padded or not. */
  lemma PadInjective(m: nat, n: nat, w: nat)
    requires Pad(m, w) == Pad(n, w)
    ensures m == n
  {
    ParsePad(m, w);
    ParsePad(n, w);
  }

  // ---- Regular-expression pieces ----------------------------------------------------------------

  datatype Number = Number(value: nat, end: nat)

  /** `(\d+)` anchored at `p`. */
  function NumberAt(s: string, p: nat): (r: Option<Number>)
    requires p <= |s|
    ensures r.Some? ==> p < r.value.end <= |s|
  {
    var q := SkipDigits(s, p);
    if q == p then None else Some(Number(ParseNat(s[p..q]), q))
  }

  /** `\s+(\d+)` anchored at `p`. */
  function SpacedNumberAt(s: string, p: nat): (r: Option<Number>)
    requires p <= |s|
    ensures r.Some? ==> p < r.value.end <= |s|
  {
    var q := SkipSpaces(s, p);
    if q == p then None else NumberAt(s, q)
  }

  /** `key\s+(\d+)` anchored at `p`. */
  function KeyNumberAt(s: string, p: nat, key: string): (r: Option<Number>)
    ensures r.Some? ==> At(s, p, key) && p + |key| < r.value.end <= |s|
  {
    if At(s, p, key) then SpacedNumberAt(s, p + |key|) else None
  }

  datatype Reference = Reference(num: nat, gen: nat, end: nat)

  /** `key\s+(\d+)\s+(\d+)\s+R` anchored at `p`. */
  function KeyReferenceAt(s: string, p: nat, key: string): (r: Option<Reference>)
    ensures r.Some? ==> At(s, p, key) && p + |key| < r.value.end <= |s|
  {
    match KeyNumberAt(s, p, key)
    case None => None
    case Some(num) =>
      match SpacedNumberAt(s, num.end)
      case None => None
      case Some(gen) =>
        var q := SkipSpaces(s, gen.end);
        if q > gen.end && q < |s| && s[q] == 'R' then Some(Reference(num.value, gen.value, q + 1)) else None
  }

  /** The first match of `key\s+(\d+)` at or after `p`. */
  function FirstKeyNumber(s: string, p: nat, key: string): (r: Option<Number>)
    requires p <= |s|
    decreases |s| - p
  {
    if KeyNumberAt(s, p, key).Some? then KeyNumberAt(s, p, key)
    else if p == |s| then None
    else FirstKeyNumber(s, p + 1, key)
  }

  /** The first match of `key\s+(\d+)\s+(\d+)\s+R` at or after `p`. */
  function FirstKeyReference(s: string, p: nat, key: string): (r: Option<Reference>)
    requires p <= |s|
    decreases |s| - p
  {
    if KeyReferenceAt(s, p, key).Some? then KeyReferenceAt(s, p, key)
    else if p == |s| then None
    else FirstKeyReference(s, p + 1, key)
  }

  /** `s.slice(lo, hi)`, where a negative argument counts from the end. */
  function JsSlice(s: string, lo: int, hi: int): string {
    var a := ClampIndex(s, lo);
    var b := ClampIndex(s, hi);
    if a <= b then s[a..b] else ""
  }

  function ClampIndex(s: string, i: int): (r: nat)
    ensures r <= |s|
  {
    if i >= |s| then |s| else if i >= 0 then i else if |s| + i >= 0 then |s| + i else 0
  }
}
