/** The multi-signature verifier and the extraction of a DER signature from its zero-padded gap. Whether a signature
    commits to some content is a parameter: hashing and CMS are not modelled. */
module Verifier {
  import opened Text
  import opened PdfObjects
  import opened IncrementalSigner

  // ---- DER ----------------------------------------------------------------------------------------

  /** The hexadecimal digits of a text, in order. */
  function Cleaned(hex: string): (s: string)
    ensures AllHex(s)
  {
    if hex == "" then ""
    else Cleaned(hex[..|hex| - 1]) + if IsHex(hex[|hex| - 1]) then [hex[|hex| - 1]] else ""
  }

  function HexValue(c: char): (v: nat)
    requires IsHex(c)
    ensures v < 16
  {
    if IsDigit(c) then c as int - '0' as int
    else if 'A' <= c <= 'F' then c as int - 'A' as int + 10
    else c as int - 'a' as int + 10
  }

  /** `Buffer.from(s, 'hex')` for an even number of digits. */
  function FromHex(s: string): (b: seq<byte>)
    requires AllHex(s) && |s| % 2 == 0
    ensures |b| == |s| / 2
  {
    if s == "" then []
    else FromHex(s[..|s| - 2]) + [HexValue(s[|s| - 2]) * 16 + HexValue(s[|s| - 1])]
  }

  function BigEndian(b: seq<byte>): nat {
    if b == [] then 0 else BigEndian(b[..|b| - 1]) * 256 + b[|b| - 1]
  }

  /** The bytes of the gap. */
  function GapBytes(hex: string): seq<byte> {
    var cleaned := Cleaned(hex);
    if |cleaned| % 2 == 0 then FromHex(cleaned) else FromHex(cleaned + "0")
  }

  /** The length an encoding states for itself, header included. */
  function StatedLength(b: seq<byte>): Result<nat> {
    if |b| < 2 || b[0] != 0x30 then Err("signature contents are not a DER SEQUENCE")
    else if b[1] < 0x80 then Ok(2 + b[1])
    else
      var n := b[1] - 0x80;
      if n == 0 || n > 4 || |b| < 2 + n then Err("signature contents have a malformed DER length")
      else Ok(2 + n + BigEndian(b[2..2 + n]))
  }

  function ExtractDer(hex: string): Result<seq<byte>> {
    var b := GapBytes(hex);
    match StatedLength(b)
    case Err(e) => Err(e)
    case Ok(total) => if total > |b| then Err("signature is truncated within its reserved gap") else Ok(b[..total])
  }

  /** `extractDer`, with its fold over the length octets. */
  method ReadDer(hex: string) returns (r: Result<seq<byte>>)
    ensures r == ExtractDer(hex)
  {
    var buf := GapBytes(hex);
    if |buf| < 2 || buf[0] != 0x30 {
      return Err("signature contents are not a DER SEQUENCE");
    }
    var lengthByte := buf[1];
    var total: nat;
    if lengthByte < 0x80 {
      total := 2 + lengthByte;
    } else {
      var lengthBytes := lengthByte - 0x80;
      if lengthBytes == 0 || lengthBytes > 4 || |buf| < 2 + lengthBytes {
        return Err("signature contents have a malformed DER length");
      }
      var value: nat := 0;
      for i := 0 to lengthBytes
        invariant value == BigEndian(buf[2..2 + i])
      {
        assert buf[2..2 + (i + 1)][..i] == buf[2..2 + i];
        value := value * 256 + buf[2 + i];
      }
      total := 2 + lengthBytes + value;
    }
    if total > |buf| {
      return Err("signature is truncated within its reserved gap");
    }
    return Ok(buf[..total]);
  }

  // ---- Verdicts -----------------------------------------------------------------------------------

  datatype Issue = NotFromStart | GapStartMoved | GapEndMoved | PastEnd | Unparseable(error: string) | DigestMismatch

  datatype Verdict = Verdict(range: ByteRange, coversBytes: nat, coversWholeFile: bool, issues: seq<Issue>) {
    predicate Valid() { issues == [] }
  }

  /** Whether a DER signature commits to the given bytes. */
  type Commitment = (seq<byte>, string) -> bool

  function Issues(pdf: string, slot: Slot, commits: Commitment): seq<Issue> {
    var r := slot.range;
    var structural :=
      (if r.b0 != 0 then [NotFromStart] else []) +
      (if r.b1 != slot.contentsStart then [GapStartMoved] else []) +
      (if r.b2 != slot.contentsEnd then [GapEndMoved] else []) +
      (if r.b2 + r.b3 > |pdf| then [PastEnd] else []);
    if structural != [] then structural
    else
      match ExtractDer(slot.hex)
      case Err(e) => [Unparseable(e)]
      case Ok(der) => if commits(der, Covered(pdf, r)) then [] else [DigestMismatch]
  }

  function Judge(pdf: string, slot: Slot, commits: Commitment): Verdict {
    var covers := slot.range.b2 + slot.range.b3;
    Verdict(slot.range, covers, covers == |pdf|, Issues(pdf, slot, commits))
  }

  function Verdicts(pdf: string, slots: seq<Slot>, commits: Commitment): (v: seq<Verdict>)
    ensures |v| == |slots|
    ensures forall i :: 0 <= i < |slots| ==> v[i] == Judge(pdf, slots[i], commits)
  {
    if slots == [] then [] else Verdicts(pdf, slots[..|slots| - 1], commits) + [Judge(pdf, slots[|slots| - 1], commits)]
  }

  /** `PdfVerifier.verify`. */
  function Verify(pdf: string, commits: Commitment): seq<Verdict> {
    Verdicts(pdf, Slots(pdf, 0), commits)
  }

  predicate AllValid(verdicts: seq<Verdict>) {
    forall i :: 0 <= i < |verdicts| ==> verdicts[i].Valid()
  }

  datatype Integrity = Intact | WrongCount | Broken

  /** `assertIntegrityAfterSigning`: the count first, then every signature. */
  function AssertIntegrity(pdf: string, expected: nat, commits: Commitment): Integrity {
    var report := Verify(pdf, commits);
    if |report| != expected then WrongCount else if AllValid(report) then Intact else Broken
  }

  method JudgeSlot(pdf: string, slot: Slot, commits: Commitment) returns (v: Verdict)
    ensures v == Judge(pdf, slot, commits)
  {
    hide ExtractDer, Covered;
    var issues: seq<Issue> := [];
    var r := slot.range;
    if r.b0 != 0 {
      issues := issues + [NotFromStart];
    }
    if r.b1 != slot.contentsStart {
      issues := issues + [GapStartMoved];
    }
    if r.b2 != slot.contentsEnd {
      issues := issues + [GapEndMoved];
    }
    var covers := r.b2 + r.b3;
    if covers > |pdf| {
      issues := issues + [PastEnd];
    }
    if |issues| == 0 {
      var der := ReadDer(slot.hex);
      if der.Err? {
        issues := issues + [Unparseable(der.error)];
      } else if !commits(der.value, Covered(pdf, r)) {
        issues := issues + [DigestMismatch];
      }
    }
    v := Verdict(r, covers, covers == |pdf|, issues);
  }

  method VerifyPdf(pdf: string, commits: Commitment) returns (report: seq<Verdict>)
    ensures report == Verify(pdf, commits)
  {
    var slots := FindSignatures(pdf);
    report := [];
    for i := 0 to |slots|
      invariant report == Verdicts(pdf, slots[..i], commits)
    {
      var v := JudgeSlot(pdf, slots[i], commits);
      assert slots[..i + 1][..i] == slots[..i];
      report := report + [v];
    }
    assert slots[..|slots|] == slots;
  }

  // ---- Recovery -----------------------------------------------------------------------------------

  /** A SEQUENCE in definite form, whose header states its own total length (section 8.1.3 of ITU-T X.690). */
  predicate DefiniteLength(d: seq<byte>) {
    StatedLength(d) == Ok(|d|)
  }

  lemma {:induction false} CleanedHex(s: string)
    requires AllHex(s)
    ensures Cleaned(s) == s
  {
    if s != "" {
      CleanedHex(s[..|s| - 1]);
      assert s == s[..|s| - 1] + [s[|s| - 1]];
    }
  }

  lemma HexDigitValue(d: nat)
    requires d < 16
    ensures IsHex(HexDigit(d)) && HexValue(HexDigit(d)) == d
  {
  }

  lemma {:induction false} FromToHex(d: seq<byte>)
    ensures AllHex(ToHex(d)) && FromHex(ToHex(d)) == d
  {
    if d == [] {
      NoHex();
    } else {
      hide HexValue, HexDigit, ToHex, FromHex, AllHex, IsHex;
      var (front, last) := (d[..|d| - 1], d[|d| - 1]);
      FromToHex(front);
      ToHexStep(d);
      HexDigitValue(last / 16);
      HexDigitValue(last % 16);
      HexPair(ToHex(front), HexDigit(last / 16), HexDigit(last % 16));
      FromHexStep(ToHex(d), ToHex(front), HexDigit(last / 16), HexDigit(last % 16));
      assert d == front + [last];
    }
  }

  lemma {:induction false} HexIsCapital(d: seq<byte>)
    ensures forall i :: 0 <= i < |ToHex(d)| ==> IsDigit(ToHex(d)[i]) || 'A' <= ToHex(d)[i] <= 'F'
  {
    if d != [] {
      HexIsCapital(d[..|d| - 1]);
    }
  }

  /** The hexadecimal of a signature is in capitals and stands for its bytes. */
  lemma HexStandsFor(d: seq<byte>)
    ensures |ToHex(d)| == 2 * |d| && AllHex(ToHex(d)) && FromHex(ToHex(d)) == d
    ensures forall i :: 0 <= i < |ToHex(d)| ==> !('a' <= ToHex(d)[i] <= 'f')
  {
    hide ToHex, FromHex;
    FromToHex(d);
    HexIsCapital(d);
  }

  lemma NoHex()
    ensures ToHex([]) == "" && AllHex("") && FromHex("") == []
  {
  }

  lemma ToHexStep(d: seq<byte>)
    requires d != []
    ensures var (front, last) := (d[..|d| - 1], d[|d| - 1]);
      ToHex(d) == ToHex(front) + [HexDigit(last / 16), HexDigit(last % 16)]
    ensures |ToHex(d[..|d| - 1])| % 2 == 0
  {
    hide HexDigit;
  }

  lemma HexPair(front: string, a: char, b: char)
    requires AllHex(front) && IsHex(a) && IsHex(b)
    ensures AllHex(front + [a, b])
  {
    hide IsHex;
  }

  function ZeroBytes(k: nat): (b: seq<byte>)
    ensures |b| == k
  {
    if k == 0 then [] else ZeroBytes(k - 1) + [0]
  }

  lemma {:induction false} PaddedBytes(h: string, k: nat)
    requires AllHex(h) && |h| % 2 == 0
    ensures AllHex(h + Zeros(2 * k)) && FromHex(h + Zeros(2 * k)) == FromHex(h) + ZeroBytes(k)
  {
    hide FromHex, AllHex;
    if k == 0 {
      assert h + Zeros(0) == h;
      assert FromHex(h) + ZeroBytes(0) == FromHex(h);
    } else {
      PaddedBytes(h, k - 1);
      TwoZeros(k);
      var front := h + Zeros(2 * k - 2);
      assert h + Zeros(2 * k) == front + "00";
      OneZeroByte(front);
      assert FromHex(h) + (ZeroBytes(k - 1) + [0]) == (FromHex(h) + ZeroBytes(k - 1)) + [0];
    }
  }

  lemma OneZeroByte(h: string)
    requires AllHex(h) && |h| % 2 == 0
    ensures AllHex(h + "00") && FromHex(h + "00") == FromHex(h) + [0]
  {
    hide FromHex, HexValue, IsHex;
    var s := h + "00";
    ZeroValue();
    assert AllHex(s);
    assert s[..|s| - 2] == h;
    assert s[|s| - 2] == '0' && s[|s| - 1] == '0';
    FromHexStep(s, h, '0', '0');
  }

  lemma ZeroValue()
    ensures IsHex('0') && HexValue('0') == 0
  {
  }

  lemma FromHexStep(s: string, front: string, a: char, b: char)
    requires AllHex(s) && AllHex(front) && IsHex(a) && IsHex(b) && |front| % 2 == 0
    requires |s| == |front| + 2 && s[..|s| - 2] == front && s[|s| - 2] == a && s[|s| - 1] == b
    ensures FromHex(s) == FromHex(front) + [HexValue(a) * 16 + HexValue(b)]
  {
    hide HexValue, IsHex;
  }

  lemma TwoZeros(k: nat)
    requires k > 0
    ensures Zeros(2 * k) == Zeros(2 * k - 2) + "00"
  {
    assert Zeros(2 * k) == Zeros(2 * k - 1) + "0" && Zeros(2 * k - 1) == Zeros(2 * k - 2) + "0";
  }

  /** The bytes of a filled gap: the signature, then zeroes. */
  lemma FilledBytes(d: seq<byte>, k: nat)
    ensures GapBytes(ToHex(d) + Zeros(2 * k)) == d + ZeroBytes(k)
  {
    hide HexValue, FromHex, ToHex, ZeroBytes, Cleaned;
    FromToHex(d);
    PaddedBytes(ToHex(d), k);
    CleanedHex(ToHex(d) + Zeros(2 * k));
  }

  /** The header decides the length, whatever follows it. */
  lemma StatedLengthPrefix(d: seq<byte>, more: seq<byte>)
    ensures StatedLength(d).Ok? ==> StatedLength(d + more) == StatedLength(d)
  {
    if StatedLength(d).Ok? && d[1] >= 0x80 {
      var n := d[1] - 0x80;
      assert (d + more)[2..2 + n] == d[2..2 + n];
    }
  }

  lemma StatedLengthOfPart(b: seq<byte>, total: nat)
    requires StatedLength(b) == Ok(total) && total <= |b|
    ensures StatedLength(b[..total]) == Ok(total)
  {
    if b[1] >= 0x80 {
      var n := b[1] - 0x80;
      assert b[..total][2..2 + n] == b[2..2 + n];
    }
  }

  /** Exactly the definite-length encodings are recovered from their zero-padded gap, trailing zero bytes included. */
  lemma DerRecovery(d: seq<byte>, k: nat)
    ensures ExtractDer(ToHex(d) + Zeros(2 * k)) == Ok(d) <==> DefiniteLength(d)
  {
    hide GapBytes, StatedLength, ToHex, ZeroBytes;
    FilledBytes(d, k);
    var b := d + ZeroBytes(k);
    StatedLengthPrefix(d, ZeroBytes(k));
    if DefiniteLength(d) {
      assert b[..|d|] == d;
    }
    if ExtractDer(ToHex(d) + Zeros(2 * k)) == Ok(d) {
      StatedLengthOfPart(b, |d|);
      assert b[..|d|] == d;
    }
  }

  // ---- Encodings ----------------------------------------------------------------------------------

  function Pow256(k: nat): (r: nat)
    ensures r > 0
  {
    if k == 0 then 1 else 256 * Pow256(k - 1)
  }

  /** The `k` octets of a number, most significant first. */
  function Octets(n: nat, k: nat): (b: seq<byte>)
    ensures |b| == k
  {
    if k == 0 then [] else Octets(n / 256, k - 1) + [n % 256]
  }

  /** A length has a short form below 128, and a long form on 1 to 4 octets that can hold it. */
  predicate Encodable(length: nat, k: nat) {
    if k == 0 then length < 0x80 else k <= 4 && length < Pow256(k)
  }

  /** The SEQUENCE of some contents, its length in short form or on `k` octets (section 8.1.3 of ITU-T X.690). */
  function Sequence(content: seq<byte>, k: nat): seq<byte>
    requires Encodable(|content|, k)
  {
    [0x30] + (if k == 0 then [|content|] else [0x80 + k] + Octets(|content|, k)) + content
  }

  lemma {:induction false} OctetsRead(n: nat, k: nat)
    requires n < Pow256(k)
    ensures BigEndian(Octets(n, k)) == n
  {
    if k > 0 {
      OctetsRead(n / 256, k - 1);
      assert Octets(n, k)[..k - 1] == Octets(n / 256, k - 1);
    }
  }

  lemma {:induction false} OctetsOf(b: seq<byte>)
    ensures BigEndian(b) < Pow256(|b|) && Octets(BigEndian(b), |b|) == b
  {
    if b != [] {
      OctetsOf(b[..|b| - 1]);
      assert BigEndian(b) / 256 == BigEndian(b[..|b| - 1]) && BigEndian(b) % 256 == b[|b| - 1];
    }
  }

  /** The header of an encoding states the length of the whole. */
  lemma SequenceStated(content: seq<byte>, k: nat)
    requires Encodable(|content|, k)
    ensures DefiniteLength(Sequence(content, k))
  {
    var d := Sequence(content, k);
    if k > 0 {
      OctetsRead(|content|, k);
      assert d[2..2 + k] == Octets(|content|, k);
    }
  }

  /** The encodings `extractDer` recovers are exactly the SEQUENCEs of some contents in short or long form. */
  lemma DefiniteIffSequence(d: seq<byte>)
    ensures DefiniteLength(d) <==> exists content, k :: Encodable(|content|, k) && d == Sequence(content, k)
  {
    if DefiniteLength(d) {
      if d[1] < 0x80 {
        assert Encodable(|d[2..]|, 0) && d == Sequence(d[2..], 0);
      } else {
        var k := d[1] - 0x80;
        OctetsOf(d[2..2 + k]);
        var content := d[2 + k..];
        assert d == [d[0]] + ([d[1]] + d[2..2 + k]) + content;
        assert Encodable(|content|, k) && d == Sequence(content, k);
      }
    }
    if content, k :| Encodable(|content|, k) && d == Sequence(content, k) {
      SequenceStated(content, k);
    }
  }

  /** Any SEQUENCE embedded in a gap that holds it is extracted whole, whatever its contents end in. */
  lemma EncodedRecovered(content: seq<byte>, k: nat, padding: nat)
    requires Encodable(|content|, k)
    ensures ExtractDer(ToHex(Sequence(content, k)) + Zeros(2 * padding)) == Ok(Sequence(content, k))
  {
    hide ExtractDer, Sequence, DefiniteLength, ToHex;
    SequenceStated(content, k);
    DerRecovery(Sequence(content, k), padding);
  }

  // ---- Validity -----------------------------------------------------------------------------------

  /** The range does not start the file, does not stop or resume at the gap, or runs past the end. */
  predicate Misplaced(pdf: string, slot: Slot) {
    || slot.range.b0 != 0 || slot.range.b1 != slot.contentsStart || slot.range.b2 != slot.contentsEnd
    || slot.range.b2 + slot.range.b3 > |pdf|
  }

  /** Every issue is reported exactly when it is there; the signature itself is only looked at in a range that is in
      place. */
  lemma IssuesExactly(pdf: string, slot: Slot, commits: Commitment)
    ensures var issues := Judge(pdf, slot, commits).issues; var r := slot.range;
      && (NotFromStart in issues <==> r.b0 != 0)
      && (GapStartMoved in issues <==> r.b1 != slot.contentsStart)
      && (GapEndMoved in issues <==> r.b2 != slot.contentsEnd)
      && (PastEnd in issues <==> r.b2 + r.b3 > |pdf|)
      && (forall e :: Unparseable(e) in issues <==> !Misplaced(pdf, slot) && ExtractDer(slot.hex) == Err(e))
      && (DigestMismatch in issues <==>
            !Misplaced(pdf, slot) && ExtractDer(slot.hex).Ok?
            && !commits(ExtractDer(slot.hex).value, Covered(pdf, r)))
    ensures Judge(pdf, slot, commits).coversWholeFile <==> slot.range.b2 + slot.range.b3 == |pdf|
  {
    hide ExtractDer, Covered;
  }

  /** What a valid verdict says, and all it says. */
  lemma ValidExactly(pdf: string, slot: Slot, commits: Commitment)
    ensures var r := slot.range;
      Judge(pdf, slot, commits).Valid() <==>
        (r.b0 == 0 && r.b1 == slot.contentsStart && r.b2 == slot.contentsEnd && r.b2 + r.b3 <= |pdf|
         && ExtractDer(slot.hex).Ok? && commits(ExtractDer(slot.hex).value, Covered(pdf, r)))
  {
    hide ExtractDer, Covered;
  }

  /** Some signature commits to both of two different contents: a collision of the digest. */
  ghost predicate Clash(commits: Commitment, x: string, y: string) {
    x != y && exists der :: commits(der, x) && commits(der, y)
  }

  /** Both files have the range, with the same bytes before and after its gap. */
  predicate Agree(a: string, b: string, r: ByteRange) {
    && r.b1 <= |a| && r.b1 <= |b| && r.b2 + r.b3 <= |a| && r.b2 + r.b3 <= |b|
    && a[..r.b1] == b[..r.b1] && a[r.b2..r.b2 + r.b3] == b[r.b2..r.b2 + r.b3]
  }

  /** Two files in which the same signature is valid over the same range agree on every byte of the range, unless the
      two contents collide. */
  lemma SignatureBinds(pdf: string, other: string, slot: Slot, moved: Slot, commits: Commitment)
    requires moved.range == slot.range && moved.hex == slot.hex
    requires Judge(pdf, slot, commits).Valid() && Judge(other, moved, commits).Valid()
    requires slot.contentsStart <= |pdf| && moved.contentsStart <= |other|
    ensures Agree(pdf, other, slot.range) || Clash(commits, Covered(pdf, slot.range), Covered(other, slot.range))
  {
    hide ExtractDer;
    var r := slot.range;
    ValidExactly(pdf, slot, commits);
    ValidExactly(other, moved, commits);
    var (x, y) := (Covered(pdf, r), Covered(other, r));
    assert x == pdf[..r.b1] + pdf[r.b2..r.b2 + r.b3] && y == other[..r.b1] + other[r.b2..r.b2 + r.b3];
    if x == y {
      assert pdf[..r.b1] == x[..r.b1] && other[..r.b1] == y[..r.b1];
      assert pdf[r.b2..r.b2 + r.b3] == x[r.b1..] && other[r.b2..r.b2 + r.b3] == y[r.b1..];
    }
  }
}
