/** Preparing and filling a signature slot, on the layout of the file. */
module SigningProofs {
  import opened Text
  import opened PdfObjects
  import opened IncrementalSigner
  import opened Stability
  import opened RevisionProofs
  import opened AppendProofs
  import opened SlotProofs

  // ---- Patching the placeholder and filling the gap -----------------------------------------------

  lemma PlaceholderKey()
    ensures RangeKey(PLACEHOLDER) == BYTE_RANGE + (" " + PLACEHOLDER) && |RangeKey(PLACEHOLDER)| == 47
    ensures Numerals(TEN_ZEROS, TEN_ZEROS, TEN_ZEROS)
  {
  }

  /** The patch keeps the length exactly when all three numbers have at most ten digits. */
  lemma FilledWidth(r: ByteRange)
    ensures |FilledKey(r)| == |RangeKey(PLACEHOLDER)| <==> r.b1 < Pow10(10) && r.b2 < Pow10(10) && r.b3 < Pow10(10)
    ensures r.b1 < Pow10(10) && r.b2 < Pow10(10) && r.b3 < Pow10(10) ==>
      Numerals(Pad(r.b1, 10), Pad(r.b2, 10), Pad(r.b3, 10))
  {
    hide Dec, Pow10, Pad;
    PlaceholderKey();
    DecWidth(r.b1, 10);
    DecWidth(r.b2, 10);
    DecWidth(r.b3, 10);
    FilledLength(r);
  }

  lemma FilledLength(r: ByteRange)
    ensures |FilledKey(r)| == 17 + |Pad(r.b1, 10)| + |Pad(r.b2, 10)| + |Pad(r.b3, 10)|
  {
    hide Pad;
  }

  /** The placeholder is found at the new dictionary when nothing appended before it mentions the keyword. */
  lemma PlaceholderFound(buf: string, mid: string, zeros: string, post: string)
    requires Absent(BYTE_RANGE, mid)
    ensures IndexOf(File(buf + mid, PLACEHOLDER, zeros, post), RangeKey(PLACEHOLDER), |buf|) == |buf| + |mid|
  {
    hide IndexOf, Absent, At, RangeKey, GapText, PLACEHOLDER, BYTE_RANGE;
    var rest := RangeKey(PLACEHOLDER) + (GapText(zeros) + post);
    var s := File(buf + mid, PLACEHOLDER, zeros, post);
    assert s == (buf + mid) + rest;
    assert s == buf + (mid + rest) by { Regroup(buf, mid, rest); }
    PlaceholderKey();
    assert rest != "" && rest[0] == '/' by { KeyStarts(PLACEHOLDER); }
    KeywordClear(mid, rest);
    forall i: nat | |buf| <= i < |buf| + |mid|
      ensures !At(s, i, RangeKey(PLACEHOLDER))
    {
      AtSuffix(buf, mid + rest, i - |buf|, BYTE_RANGE);
      AtConcat(s, i, BYTE_RANGE, " " + PLACEHOLDER);
    }
    AtSuffix(buf + mid, rest, 0, RangeKey(PLACEHOLDER));
    Leads(RangeKey(PLACEHOLDER), GapText(zeros) + post);
    IndexOfIs(s, RangeKey(PLACEHOLDER), |buf|, |buf| + |mid|);
  }

  lemma KeyStarts(range: string)
    ensures RangeKey(range) != "" && RangeKey(range)[0] == '/'
  {
  }

  lemma Regroup(a: string, b: string, c: string)
    ensures (a + b) + c == a + (b + c)
  {
  }

  lemma Leads(a: string, b: string)
    ensures At(a + b, 0, a)
  {
    assert (a + b)[0..|a|] == a;
  }

  lemma KeywordClear(mid: string, rest: string)
    requires Absent(BYTE_RANGE, mid) && rest != "" && rest[0] == '/'
    ensures forall i: nat :: i < |mid| ==> !At(mid + rest, i, BYTE_RANGE)
  {
    AbsentBefore(BYTE_RANGE, mid, rest);
  }

  lemma OverwriteRange(pre: string, filled: string, hex: string, post: string)
    requires |RangeKey(filled)| == 47
    ensures Overwrite(File(pre, PLACEHOLDER, hex, post), |pre|, RangeKey(filled)) == File(pre, filled, hex, post)
  {
    hide GapText;
    PlaceholderKey();
    var (prior, grown) := (File(pre, PLACEHOLDER, hex, post), File(pre, filled, hex, post));
    assert prior[..|pre|] == pre;
    assert prior[|pre| + 47..] == GapText(hex) + post;
  }

  function FilledRange(r: ByteRange): string {
    RangeText(Pad(r.b1, 10), Pad(r.b2, 10), Pad(r.b3, 10))
  }

  /** The range of the new signature: everything but its gap. */
  function NewRange(pre: string, hexLen: nat, post: string): ByteRange {
    ByteRange(0, GapStart(pre), GapStart(pre) + hexLen + 2, 3 + |post|)
  }

  /** The prepared file and its slot. */
  function PreparedFile(pre: string, hexLen: nat, post: string): string {
    File(pre, FilledRange(NewRange(pre, hexLen, post)), Zeros(hexLen), post)
  }

  predicate Writable(r: ByteRange) {
    r.b1 < Pow10(10) && r.b2 < Pow10(10) && r.b3 < Pow10(10)
  }

  /** Patching succeeds exactly when the range fits its columns, and then changes only the range. */
  lemma PatchReads(buf: string, mid: string, hexLen: nat, post: string, sigNum: nat)
    requires Absent(BYTE_RANGE, mid)
    ensures var pre := buf + mid; var r := NewRange(pre, hexLen, post);
      Patch(File(pre, PLACEHOLDER, Zeros(hexLen), post), |buf|, hexLen, sigNum) ==
      if Writable(r)
      then Ok(PreparedSlot(PreparedFile(pre, hexLen, post), r, GapStart(pre), hexLen,
                           Covered(PreparedFile(pre, hexLen, post), r), sigNum))
      else Err("ByteRange patch would change file length")
  {
    hide IndexOf, File, Covered, Overwrite, Absent, FilledKey, RangeText, At, Numbered, Pow10, RangeKey, PLACEHOLDER,
      CONTENTS, BYTE_RANGE;
    var pre := buf + mid;
    var r := NewRange(pre, hexLen, post);
    var out := File(pre, PLACEHOLDER, Zeros(hexLen), post);
    PlaceholderKey();
    PlaceholderFound(buf, mid, Zeros(hexLen), post);
    GapFound(pre, Zeros(hexLen), post);
    FilledWidth(r);
    FilledKeyForm(r);
    if Writable(r) {
      OverwriteRange(pre, FilledRange(r), Zeros(hexLen), post);
    }
  }

  lemma FilledKeyForm(r: ByteRange)
    ensures FilledKey(r) == RangeKey(FilledRange(r))
  {
  }

  lemma GapFound(pre: string, hex: string, post: string)
    requires Lacks(hex, '>')
    ensures var out := File(pre, PLACEHOLDER, hex, post);
      && IndexOf(out, CONTENTS, |pre|) == |pre| + 48
      && IndexOf(out, "<", |pre| + 48) == GapStart(pre)
      && IndexOf(out, ">", GapStart(pre)) == GapStart(pre) + |hex| + 1
      && |out| == |pre| + 63 + |hex| + |post|
  {
    hide IndexOf, File, At, RangeText, Numbered, BYTE_RANGE, CONTENTS, TEN_ZEROS;
    PlaceholderKey();
    FileParts(pre, TEN_ZEROS, TEN_ZEROS, TEN_ZEROS, hex, post);
    var out := File(pre, PLACEHOLDER, hex, post);
    NothingBetween(out, |pre|, TEN_ZEROS, TEN_ZEROS, TEN_ZEROS);
    GapReads(out, |pre|, hex, post);
  }

  // ---- The gap ------------------------------------------------------------------------------------

  /** What is written into the gap: the signature in hexadecimal, padded with zeroes. */
  function Filling(der: seq<byte>, hexLen: nat): string
    requires 2 * |der| <= hexLen
  {
    ToHex(der) + Zeros(hexLen - 2 * |der|)
  }

  lemma FillingClear(der: seq<byte>, hexLen: nat)
    requires 2 * |der| <= hexLen
    ensures |Filling(der, hexLen)| == hexLen && Lacks(Filling(der, hexLen), '>') && Lacks(Filling(der, hexLen), '/')
  {
  }

  lemma FileAround(pre: string, range: string, hex: string, post: string)
    requires |range| == 36
    ensures var s := File(pre, range, hex, post); var g := GapStart(pre);
      && |s| == g + 5 + |hex| + |post|
      && s[..g + 1] == pre + RangeKey(range) + (" " + CONTENTS + " <")
      && s[g + 1 + |hex|..] == "> >>" + post
      && s[g + 1..g + 1 + |hex|] == hex
  {
    hide RangeKey, CONTENTS;
    KeyLengths(range);
    var front := pre + RangeKey(range) + (" " + CONTENTS + " <");
    assert File(pre, range, hex, post) == front + (hex + ("> >>" + post));
  }

  lemma KeyLengths(range: string)
    ensures |RangeKey(range)| == 11 + |range| && |" " + CONTENTS + " <"| == 12
  {
  }

  /** Filling the gap changes only bytes strictly inside it. */
  lemma EmbedReads(pre: string, range: string, hexLen: nat, post: string, slot: PreparedSlot, der: seq<byte>)
    requires |range| == 36
    requires slot.buffer == File(pre, range, Zeros(hexLen), post) && slot.gapStart == GapStart(pre)
    requires slot.hexLength == hexLen
    ensures Embed(slot, der) ==
      if 2 * |der| <= hexLen then Ok(File(pre, range, Filling(der, hexLen), post))
      else Err("signature does not fit the reserved gap")
  {
    hide File, ToHex, RangeKey, CONTENTS;
    var g := GapStart(pre);
    FileAround(pre, range, Zeros(hexLen), post);
    if 2 * |der| <= hexLen {
      var hex := Filling(der, hexLen);
      FillingClear(der, hexLen);
      FileAround(pre, range, hex, post);
      var s := File(pre, range, hex, post);
      assert s == s[..g + 1] + s[g + 1..g + 1 + hexLen] + s[g + 1 + hexLen..];
    }
  }

  /** The signed bytes leave the gap out, so filling it does not change them. */
  lemma CoveredIgnoresGap(pre: string, range: string, x: string, y: string, post: string)
    requires |range| == 36 && |x| == |y|
    ensures var r := NewRange(pre, |x|, post);
      Covered(File(pre, range, x, post), r) == Covered(File(pre, range, y, post), r)
  {
    hide File, RangeKey, CONTENTS;
    var g := GapStart(pre);
    FileAround(pre, range, x, post);
    FileAround(pre, range, y, post);
    var (s, t) := (File(pre, range, x, post), File(pre, range, y, post));
    assert s[..g] == s[..g + 1][..g] && t[..g] == t[..g + 1][..g];
    assert s[g + |x| + 2..] == s[g + 1 + |x|..][1..] && t[g + |x| + 2..] == t[g + 1 + |x|..][1..];
  }
}
