/** The stamp register: identifiers by which a physical stamp is recognised, allocation to agreements, use and
    release. */
module Stamps {
  import opened Text
  import opened StateMachine

  // ---- Identifiers --------------------------------------------------------------------------------

  function Upper(c: char): char {
    if 'a' <= c <= 'z' then c - 'a' + 'A' else c
  }

  predicate Alphanumeric(c: char) {
    'A' <= c <= 'Z' || '0' <= c <= '9'
  }

  /** Upper-case letters and digits, the form uniqueness is enforced on. */
  function Normalize(value: string): (r: string)
    ensures forall i :: 0 <= i < |r| ==> Alphanumeric(r[i])
  {
    if value == "" then ""
    else
      var c := Upper(value[|value| - 1]);
      Normalize(value[..|value| - 1]) + if Alphanumeric(c) then [c] else ""
  }

  const SMALL := "abcdefghijklmnopqrstuvwxyz"
  const CAPITAL := "ABCDEFGHIJKLMNOPQRSTUVWXYZ"
  const DIGITS := "0123456789"

  /** The characters a stamp's number is told by. */
  predicate Significant(c: char) {
    c in SMALL || c in CAPITAL || c in DIGITS
  }

  /** One character in upper case is the other: the same, or the two cases of one letter. */
  predicate CapitalOf(c: char, d: char) {
    if c in SMALL then exists i :: 0 <= i < 26 && c == SMALL[i] && d == CAPITAL[i] else d == c
  }

  function Telling(value: string): string {
    if value == "" then ""
    else Telling(value[..|value| - 1]) +
         if Significant(value[|value| - 1]) then [value[|value| - 1]] else ""
  }

  lemma Alphabet(i: nat)
    requires i < 26
    ensures SMALL[i] == 'a' + i as char && CAPITAL[i] == 'A' + i as char
  {
  }

  lemma Numerals(i: nat)
    requires i < 10
    ensures DIGITS[i] == '0' + i as char
  {
  }

  lemma SmallIff(c: char)
    ensures c in SMALL <==> 'a' <= c <= 'z'
    ensures c in CAPITAL <==> 'A' <= c <= 'Z'
    ensures c in DIGITS <==> '0' <= c <= '9'
  {
    hide SMALL, CAPITAL, DIGITS;
    assert |SMALL| == 26 && |CAPITAL| == 26 && |DIGITS| == 10 by { Sizes(); }
    forall i: nat | i < 26
      ensures SMALL[i] == 'a' + i as char && CAPITAL[i] == 'A' + i as char
    {
      Alphabet(i);
    }
    forall i: nat | i < 10
      ensures DIGITS[i] == '0' + i as char
    {
      Numerals(i);
    }
    if 'a' <= c <= 'z' {
      assert c == SMALL[c as int - 'a' as int];
    }
    if 'A' <= c <= 'Z' {
      assert c == CAPITAL[c as int - 'A' as int];
    }
    if '0' <= c <= '9' {
      assert c == DIGITS[c as int - '0' as int];
    }
  }

  lemma Sizes()
    ensures |SMALL| == 26 && |CAPITAL| == 26 && |DIGITS| == 10
  {
  }

  lemma UpperIs(c: char)
    ensures CapitalOf(c, Upper(c)) && (Alphanumeric(Upper(c)) <==> Significant(c))
    ensures forall d :: CapitalOf(c, d) ==> d == Upper(c)
  {
    hide SMALL, CAPITAL, DIGITS;
    SmallIff(c);
    Sizes();
    forall i: nat | i < 26
      ensures SMALL[i] == 'a' + i as char && CAPITAL[i] == 'A' + i as char
    {
      Alphabet(i);
    }
    if 'a' <= c <= 'z' {
      var i := c as int - 'a' as int;
      assert c == SMALL[i] && Upper(c) == CAPITAL[i];
    }
  }

  /** A number is normalised to its letters and digits, in order, each in upper case. */
  lemma {:induction false} NormalizeIs(value: string)
    ensures |Normalize(value)| == |Telling(value)|
    ensures forall i :: 0 <= i < |Telling(value)| ==> CapitalOf(Telling(value)[i], Normalize(value)[i])
    ensures forall i :: 0 <= i < |Telling(value)| ==> Normalize(value)[i] == Upper(Telling(value)[i])
  {
    hide SMALL, CAPITAL, DIGITS, Upper, Alphanumeric, CapitalOf, Significant;
    if value != "" {
      NormalizeIs(value[..|value| - 1]);
      UpperIs(value[|value| - 1]);
    }
  }

  /** The same letter or digit, up to case. */
  ghost predicate Alike(c: char, d: char) {
    exists e :: CapitalOf(c, e) && CapitalOf(d, e)
  }

  lemma AlikeIff(c: char, d: char)
    ensures Alike(c, d) <==> Upper(c) == Upper(d)
  {
    hide CapitalOf, Upper;
    UpperIs(c);
    UpperIs(d);
  }

  /** Two numbers are one exactly when their letters and digits agree up to case: separators and case make no other
      number, and nothing else makes the same. */
  lemma SameNumber(a: string, b: string)
    ensures Normalize(a) == Normalize(b) <==>
      |Telling(a)| == |Telling(b)| && forall i :: 0 <= i < |Telling(a)| ==> Alike(Telling(a)[i], Telling(b)[i])
  {
    hide Normalize, Telling, Alike, Upper, CapitalOf;
    NormalizeIs(a);
    NormalizeIs(b);
    var (s, t) := (Telling(a), Telling(b));
    if |s| == |t| {
      forall i | 0 <= i < |s|
        ensures Alike(s[i], t[i]) <==> Normalize(a)[i] == Normalize(b)[i]
      {
        AlikeIff(s[i], t[i]);
      }
      if forall i :: 0 <= i < |s| ==> Alike(s[i], t[i]) {
        assert Normalize(a) == Normalize(b);
      }
    }
  }

  lemma {:induction false} NormalizeTwice(value: string)
    ensures Normalize(Normalize(value)) == Normalize(value)
  {
    if value != "" {
      var c := Upper(value[|value| - 1]);
      var front := Normalize(value[..|value| - 1]);
      NormalizeTwice(value[..|value| - 1]);
      if Alphanumeric(c) {
        assert (front + [c])[..|front|] == front;
        assert Upper(c) == c;
      } else {
        assert Normalize(value) == front;
      }
    }
  }

  datatype Kind = CertificateNo | UniqueDocRef | PaperSerial | Other

  datatype Printed = Printed(kind: Kind, value: string)

  datatype Identifier = Identifier(stamp: nat, kind: Kind, normalized: string)

  const SHORTEST := 6

  predicate Usable(p: Printed) {
    |Normalize(p.value)| >= SHORTEST
  }

  /** The identifiers entered, the stamp's number first unless it is among them. */
  function Assembled(number: Option<string>, printed: seq<Printed>): seq<Printed> {
    match number
    case None => printed
    case Some(n) =>
      if n == "" || exists i :: 0 <= i < |printed| && Normalize(printed[i].value) == Normalize(n) then printed
      else [Printed(CertificateNo, n)] + printed
  }

  function Keep(printed: seq<Printed>): (r: seq<Printed>)
    ensures forall i :: 0 <= i < |r| ==> Usable(r[i])
  {
    if printed == [] then []
    else Keep(printed[..|printed| - 1]) + if Usable(printed[|printed| - 1]) then [printed[|printed| - 1]] else []
  }

  predicate Registered(identifiers: seq<Identifier>, normalized: string) {
    exists i :: 0 <= i < |identifiers| && identifiers[i].normalized == normalized
  }

  predicate HasKind(identifiers: seq<Identifier>, stamp: nat, kind: Kind) {
    exists i :: 0 <= i < |identifiers| && identifiers[i].stamp == stamp && identifiers[i].kind == kind
  }

  /** Inserting identifiers one by one; each insert is refused when its value is registered, under whatever kind, or the
      stamp has one of its kind. */
  function InsertAll(identifiers: seq<Identifier>, stamp: nat, printed: seq<Printed>): Option<seq<Identifier>>
    decreases |printed|
  {
    if printed == [] then Some(identifiers)
    else
      var normalized := Normalize(printed[0].value);
      if Registered(identifiers, normalized) || HasKind(identifiers, stamp, printed[0].kind) then None
      else InsertAll(identifiers + [Identifier(stamp, printed[0].kind, normalized)], stamp, printed[1..])
  }

  // ---- The register -------------------------------------------------------------------------------

  datatype StampStatus = Available | Allocated | Used

  datatype Allocation = Allocation(stamp: nat, agreement: nat, live: bool)

  /** Stamps are counted as they are registered; `numbers` holds the number printed on each, if one was entered. */
  datatype Register = Register(
    identifiers: seq<Identifier>, numbers: seq<Option<string>>, stamps: seq<StampStatus>, allocations: seq<Allocation>,
    agreements: map<nat, Status>)

  const EMPTY_REGISTER := Register([], [], [], [], map[])

  /** The unique index on printed numbers leaves stamps without one alone. */
  predicate NumberTaken(numbers: seq<Option<string>>, number: Option<string>) {
    number.Some? && number in numbers
  }

  /** The live allocation of an agreement. */
  function LiveOf(allocations: seq<Allocation>, agreement: nat): (r: Option<nat>)
    ensures r.Some? ==>
      r.value < |allocations| && allocations[r.value].agreement == agreement && allocations[r.value].live
    ensures r.None? ==> forall i :: 0 <= i < |allocations| ==>
      !(allocations[i].agreement == agreement && allocations[i].live)
  {
    if allocations == [] then None
    else if allocations[|allocations| - 1].agreement == agreement && allocations[|allocations| - 1].live
    then Some(|allocations| - 1)
    else LiveOf(allocations[..|allocations| - 1], agreement)
  }

  predicate HeldLive(allocations: seq<Allocation>, stamp: nat) {
    exists i :: 0 <= i < |allocations| && allocations[i].stamp == stamp && allocations[i].live
  }

  /** The steps of concurrent transactions. `seen` is the live allocation a transaction read before it wrote. */
  datatype Step =
    | RegisterStamp(number: Option<string>, printed: seq<Printed>)
    | Allocate(stamp: nat, agreement: nat)
    | CompleteAgreement(agreement: nat, seen: Option<nat>)
    | Release(agreement: nat, seen: Option<nat>)
    | Open(agreement: nat)
    | Transit(agreement: nat, action: Action)

  /** `register`: refused without a usable identifier, on a clash, and when the inserts collide. */
  function Registering(r: Register, number: Option<string>, printed: seq<Printed>): Register {
    var usable := Keep(Assembled(number, printed));
    if usable == [] || NumberTaken(r.numbers, number) then r
    else
      match InsertAll(r.identifiers, |r.stamps|, usable)
      case None => r
      case Some(identifiers) =>
        r.(identifiers := identifiers, numbers := r.numbers + [number], stamps := r.stamps + [Available])
  }

  /** `allocate`: the stamp's row is locked from the check to the commit; two partial unique indexes decide. */
  function Allocating(r: Register, stamp: nat, agreement: nat): Register {
    if stamp >= |r.stamps| || r.stamps[stamp] != Available then r
    else if HeldLive(r.allocations, stamp) || LiveOf(r.allocations, agreement).Some? then r
    else r.(allocations := r.allocations + [Allocation(stamp, agreement, true)], stamps := r.stamps[stamp := Allocated])
  }

  function SetStamp(r: Register, seen: Option<nat>, status: StampStatus): Register {
    if seen.Some? && seen.value < |r.allocations| && r.allocations[seen.value].stamp < |r.stamps|
    then r.(stamps := r.stamps[r.allocations[seen.value].stamp := status]) else r
  }

  /** `release` marks the allocation it read, live or not, and frees its stamp. */
  function Releasing(r: Register, seen: Option<nat>): Register {
    if seen.Some? && seen.value < |r.allocations|
    then
      var freed := r.allocations[seen.value].(live := false);
      SetStamp(r.(allocations := r.allocations[seen.value := freed]), seen, Available)
    else r
  }

  function Take(r: Register, s: Step): Register {
    match s
    case RegisterStamp(number, printed) => Registering(r, number, printed)
    case Allocate(stamp, agreement) => Allocating(r, stamp, agreement)
    case CompleteAgreement(g, seen) =>
      if g in r.agreements && r.agreements[g] == MdSigning
      then SetStamp(r.(agreements := r.agreements[g := Completed]), seen, Used) else r
    case Release(g, seen) => if g in r.agreements && r.agreements[g] == Cancelled then Releasing(r, seen) else r
    case Open(g) => if g in r.agreements then r else r.(agreements := r.agreements[g := Draft])
    case Transit(g, action) =>
      if g in r.agreements && r.agreements[g] in RuleOf(action).sources && action != MdSignSucceed
      then r.(agreements := r.agreements[g := RuleOf(action).target]) else r
  }

  /** The allocation read is still the agreement's live one when it is written: the agreement's row lock sees to
      that. */
  predicate Serialized(r: Register, s: Step) {
    match s
    case CompleteAgreement(g, seen) => seen == LiveOf(r.allocations, g)
    case Release(g, seen) => seen == LiveOf(r.allocations, g)
    case _ => true
  }

  // ---- Exclusivity --------------------------------------------------------------------------------

  /** No identifier and no printed number belongs to two stamps, and every identifier to a registered stamp. */
  ghost predicate IdentifiersOk(r: Register) {
    && |r.numbers| == |r.stamps|
    && (forall i, j :: 0 <= i < j < |r.numbers| && r.numbers[i].Some? ==> r.numbers[i] != r.numbers[j])
    && (forall i, j :: 0 <= i < j < |r.identifiers| ==> r.identifiers[i].normalized != r.identifiers[j].normalized)
    && forall i :: 0 <= i < |r.identifiers| ==>
         r.identifiers[i].stamp < |r.stamps| && |r.identifiers[i].normalized| >= SHORTEST
  }

  /** A stamp is AVAILABLE exactly when it has no live allocation; no stamp and no agreement has two; a USED stamp
      belongs to a completed agreement. */
  ghost predicate Exclusive(r: Register) {
    && (forall s :: 0 <= s < |r.stamps| ==> (r.stamps[s] == Available <==> !HeldLive(r.allocations, s)))
    && (forall i :: 0 <= i < |r.allocations| ==> r.allocations[i].stamp < |r.stamps|)
    && (forall i, j :: 0 <= i < j < |r.allocations| && r.allocations[i].live && r.allocations[j].live ==>
          r.allocations[i].stamp != r.allocations[j].stamp && r.allocations[i].agreement != r.allocations[j].agreement)
    && forall i :: 0 <= i < |r.allocations| && r.allocations[i].live && r.stamps[r.allocations[i].stamp] == Used ==>
         r.allocations[i].agreement in r.agreements && r.agreements[r.allocations[i].agreement] == Completed
  }

  /** Distinct identifiers of registered length, of stamps up to the given one. */
  ghost predicate Clean(identifiers: seq<Identifier>, stamp: nat) {
    && (forall i, j :: 0 <= i < j < |identifiers| ==> identifiers[i].normalized != identifiers[j].normalized)
    && forall i :: 0 <= i < |identifiers| ==> identifiers[i].stamp <= stamp && |identifiers[i].normalized| >= SHORTEST
  }

  lemma CleanSnoc(identifiers: seq<Identifier>, stamp: nat, kind: Kind, normalized: string)
    requires Clean(identifiers, stamp) && !Registered(identifiers, normalized) && |normalized| >= SHORTEST
    ensures Clean(identifiers + [Identifier(stamp, kind, normalized)], stamp)
  {
  }

  lemma {:induction false} InsertAllOk(identifiers: seq<Identifier>, stamp: nat, printed: seq<Printed>)
    requires Clean(identifiers, stamp) && forall i :: 0 <= i < |printed| ==> Usable(printed[i])
    ensures var r := InsertAll(identifiers, stamp, printed); r.Some? ==> Clean(r.value, stamp)
    decreases |printed|
  {
    hide Clean, Normalize, Registered, HasKind;
    if printed != [] {
      var normalized := Normalize(printed[0].value);
      if !Registered(identifiers, normalized) && !HasKind(identifiers, stamp, printed[0].kind) {
        assert Usable(printed[0]);
        CleanSnoc(identifiers, stamp, printed[0].kind, normalized);
        InsertAllOk(identifiers + [Identifier(stamp, printed[0].kind, normalized)], stamp, printed[1..]);
      }
    }
  }

  /** The same physical stamp is not registered twice. */
  lemma IdentifiersStayUnique(r: Register, s: Step)
    requires IdentifiersOk(r)
    ensures IdentifiersOk(Take(r, s))
  {
    if s.RegisterStamp? {
      hide InsertAll, Keep, Assembled;
      assert Clean(r.identifiers, |r.stamps|);
      InsertAllOk(r.identifiers, |r.stamps|, Keep(Assembled(s.number, s.printed)));
    }
  }

  lemma LiveUnique(r: Register, g: nat, i: nat)
    requires Exclusive(r) && i < |r.allocations| && r.allocations[i].agreement == g && r.allocations[i].live
    ensures LiveOf(r.allocations, g) == Some(i)
  {
    var l := LiveOf(r.allocations, g);
  }

  lemma HoldsSame(a: seq<Allocation>, b: seq<Allocation>, stamp: nat)
    requires |a| == |b|
    requires forall i :: 0 <= i < |a| ==> a[i].stamp == b[i].stamp && (a[i].stamp == stamp ==> a[i].live == b[i].live)
    ensures HeldLive(a, stamp) <==> HeldLive(b, stamp)
  {
  }

  lemma AllocatingKeeps(r: Register, stamp: nat, agreement: nat)
    requires Exclusive(r)
    ensures Exclusive(Allocating(r, stamp, agreement))
  {
    var t := Allocating(r, stamp, agreement);
    if t != r {
      var a := t.allocations[|r.allocations|];
      forall s | 0 <= s < |t.stamps|
        ensures t.stamps[s] == Available <==> !HeldLive(t.allocations, s)
      {
        if s == stamp {
          assert t.allocations[|r.allocations|].stamp == s;
        } else {
          HoldsSnoc(r.allocations, a, s);
        }
      }
    }
  }

  lemma HoldsSnoc(allocations: seq<Allocation>, a: Allocation, stamp: nat)
    requires a.stamp != stamp
    ensures HeldLive(allocations + [a], stamp) <==> HeldLive(allocations, stamp)
  {
    var all := allocations + [a];
    if i :| 0 <= i < |allocations| && allocations[i].stamp == stamp && allocations[i].live {
      assert all[i] == allocations[i];
    }
  }

  /** Freeing the stamp of a live allocation keeps exclusivity. */
  lemma ReleasingKeeps(r: Register, g: nat)
    requires Exclusive(r)
    ensures Exclusive(Releasing(r, LiveOf(r.allocations, g)))
  {
    var seen := LiveOf(r.allocations, g);
    if seen.Some? {
      var t := Releasing(r, seen);
      var stamp := r.allocations[seen.value].stamp;
      forall s | 0 <= s < |t.stamps|
        ensures t.stamps[s] == Available <==> !HeldLive(t.allocations, s)
      {
        if s != stamp {
          HoldsSame(r.allocations, t.allocations, s);
        } else {
          OnlyHolder(r, seen.value);
        }
      }
    }
  }

  lemma OnlyHolder(r: Register, i: nat)
    requires Exclusive(r) && i < |r.allocations| && r.allocations[i].live
    ensures !HeldLive(r.allocations[i := r.allocations[i].(live := false)], r.allocations[i].stamp)
  {
    var t := r.allocations[i := r.allocations[i].(live := false)];
    forall j | 0 <= j < |t|
      ensures !(t[j].stamp == r.allocations[i].stamp && t[j].live)
    {
      if j != i && t[j].live {
        var (lo, hi) := if i < j then (i, j) else (j, i);
        assert r.allocations[lo].stamp != r.allocations[hi].stamp;
      }
    }
  }

  lemma CompletingKeeps(r: Register, g: nat)
    requires Exclusive(r) && g in r.agreements && r.agreements[g] == MdSigning
    ensures Exclusive(SetStamp(r.(agreements := r.agreements[g := Completed]), LiveOf(r.allocations, g), Used))
  {
    var seen := LiveOf(r.allocations, g);
    if seen.Some? {
      var stamp := r.allocations[seen.value].stamp;
      assert HeldLive(r.allocations, stamp);
      var t := SetStamp(r.(agreements := r.agreements[g := Completed]), seen, Used);
      forall i | 0 <= i < |t.allocations| && t.allocations[i].live && t.stamps[t.allocations[i].stamp] == Used
        ensures t.allocations[i].agreement in t.agreements && t.agreements[t.allocations[i].agreement] == Completed
      {
        assert t.allocations[i].stamp == stamp ==> i == seen.value;
      }
    }
  }

  /** Under any interleaving in which the allocation a transaction read is still live when it writes, exclusivity
      holds. */
  lemma StepExclusive(r: Register, s: Step)
    requires Exclusive(r) && Serialized(r, s)
    ensures Exclusive(Take(r, s))
  {
    hide RuleOf, InsertAll, Keep, Assembled;
    match s
    case RegisterStamp(number, printed) => RegisteringKeeps(r, number, printed);
    case Allocate(stamp, agreement) => AllocatingKeeps(r, stamp, agreement);
    case CompleteAgreement(g, seen) =>
      if g in r.agreements && r.agreements[g] == MdSigning {
        CompletingKeeps(r, g);
      }
    case Release(g, seen) => ReleasingKeeps(r, g);
    case Open(g) =>
    case Transit(g, action) => TransitKeeps(r, g, action);
  }

  lemma RegisteringKeeps(r: Register, number: Option<string>, printed: seq<Printed>)
    requires Exclusive(r)
    ensures Exclusive(Registering(r, number, printed))
  {
    hide InsertAll, Keep, Assembled;
    var t := Registering(r, number, printed);
    if t != r {
      forall s | 0 <= s < |t.stamps|
        ensures t.stamps[s] == Available <==> !HeldLive(t.allocations, s)
      {
        if s == |r.stamps| {
          assert forall i :: 0 <= i < |r.allocations| ==> r.allocations[i].stamp < |r.stamps|;
        }
      }
    }
  }

  lemma TransitKeeps(r: Register, g: nat, action: Action)
    requires Exclusive(r)
    ensures Exclusive(Take(r, Transit(g, action)))
  {
    hide RuleOf, HeldLive;
    if g in r.agreements && r.agreements[g] in RuleOf(action).sources {
      CompletedStays(r.agreements[g], action);
    }
  }

  lemma CompletedStays(status: Status, action: Action)
    requires status in RuleOf(action).sources
    ensures status != Completed
  {
  }

  ghost predicate Run(r: Register, steps: seq<Step>, last: Register)
    decreases |steps|
  {
    if steps == [] then r == last else Serialized(r, steps[0]) && Run(Take(r, steps[0]), steps[1..], last)
  }

  /** A stamp is AVAILABLE exactly when no agreement holds it, over every such run; no stamp is held twice and no
      agreement holds two; no identifier belongs to two stamps. */
  lemma {:induction false} StampsStayExclusive(r: Register, steps: seq<Step>, last: Register)
    requires Exclusive(r) && IdentifiersOk(r) && Run(r, steps, last)
    ensures Exclusive(last) && IdentifiersOk(last)
    decreases |steps|
  {
    hide Exclusive, IdentifiersOk, Take, Serialized;
    if steps != [] {
      StepExclusive(r, steps[0]);
      IdentifiersStayUnique(r, steps[0]);
      StampsStayExclusive(Take(r, steps[0]), steps[1..], last);
    }
  }

  // ---- Used stamps and what leaves stamps alone ---------------------------------------------------

  lemma StepKeepsUsed(r: Register, s: Step, stamp: nat)
    requires Exclusive(r) && Serialized(r, s) && stamp < |r.stamps| && r.stamps[stamp] == Used
    ensures stamp < |Take(r, s).stamps| && Take(r, s).stamps[stamp] == Used
  {
    hide RuleOf, InsertAll, Keep, Assembled, HeldLive;
    if s.Release? && s.seen.Some? {
      var a := r.allocations[s.seen.value];
      if a.stamp == stamp {
        assert r.agreements[a.agreement] == Completed;
      }
    }
  }

  /** USED is final: only cancelled agreements release, and a completed one cannot be cancelled. */
  lemma {:induction false} UsedForever(r: Register, steps: seq<Step>, last: Register, stamp: nat)
    requires Exclusive(r) && Run(r, steps, last) && stamp < |r.stamps| && r.stamps[stamp] == Used
    ensures stamp < |last.stamps| && last.stamps[stamp] == Used
    decreases |steps|
  {
    hide Exclusive, Take, Serialized;
    if steps != [] {
      StepKeepsUsed(r, steps[0], stamp);
      StepExclusive(r, steps[0]);
      UsedForever(Take(r, steps[0]), steps[1..], last, stamp);
    }
  }

  /** Rejection, expiry, correction and every other move of the agreement leave stamps and allocations as they are; an
      agreement's allocation goes only by its own release. */
  lemma AllocationKept(r: Register, s: Step, g: nat)
    requires Exclusive(r) && Serialized(r, s) && LiveOf(r.allocations, g).Some? && !(s.Release? && s.agreement == g)
    ensures LiveOf(Take(r, s).allocations, g) == LiveOf(r.allocations, g)
    ensures s.Transit? ==> Take(r, s).stamps == r.stamps && Take(r, s).allocations == r.allocations
  {
    hide RuleOf, InsertAll, Keep, Assembled, HeldLive;
    var i := LiveOf(r.allocations, g).value;
    var t := Take(r, s);
    StepExclusive(r, s);
    assert t.allocations[i] == r.allocations[i];
    LiveUnique(t, g, i);
  }

  // ---- What each operation asks and does ----------------------------------------------------------

  lemma {:induction false} KeepIs(printed: seq<Printed>, p: Printed)
    ensures p in Keep(printed) <==> p in printed && |Normalize(p.value)| >= 6
  {
    if printed != [] {
      KeepIs(printed[..|printed| - 1], p);
      assert printed == printed[..|printed| - 1] + [printed[|printed| - 1]];
    }
  }

  /** What is entered is kept as entered; the stamp's own number comes first when nothing entered says it. */
  lemma AssembledIs(number: Option<string>, printed: seq<Printed>)
    ensures var all := Assembled(number, printed);
      && (all == printed
          || (number.Some? && number.value != "" && all == [Printed(CertificateNo, number.value)] + printed))
      && (number.Some? && number.value != "" ==>
            exists i :: 0 <= i < |all| && Normalize(all[i].value) == Normalize(number.value))
      && (all != printed ==>
            forall i :: 0 <= i < |printed| ==> Normalize(printed[i].value) != Normalize(number.value))
  {
    var all := Assembled(number, printed);
    if all != printed {
      assert all[0].value == number.value;
    }
  }

  /** None of these is registered, and no two of them have one value or one kind. */
  ghost predicate Insertable(identifiers: seq<Identifier>, stamp: nat, printed: seq<Printed>) {
    && (forall i :: 0 <= i < |printed| ==>
          !Registered(identifiers, Normalize(printed[i].value)) && !HasKind(identifiers, stamp, printed[i].kind))
    && forall i, j :: 0 <= i < j < |printed| ==>
      Normalize(printed[i].value) != Normalize(printed[j].value) && printed[i].kind != printed[j].kind
  }

  function Identifiers(stamp: nat, printed: seq<Printed>): seq<Identifier> {
    seq(|printed|, i requires 0 <= i < |printed| => Identifier(stamp, printed[i].kind, Normalize(printed[i].value)))
  }

  lemma InsertableStep(identifiers: seq<Identifier>, stamp: nat, printed: seq<Printed>)
    requires printed != []
    ensures var value := Normalize(printed[0].value);
      Insertable(identifiers, stamp, printed) <==>
        && !Registered(identifiers, value) && !HasKind(identifiers, stamp, printed[0].kind)
        && Insertable(identifiers + [Identifier(stamp, printed[0].kind, value)], stamp, printed[1..])
  {
    hide Normalize;
    var (value, rest) := (Normalize(printed[0].value), printed[1..]);
    var more := identifiers + [Identifier(stamp, printed[0].kind, value)];
    forall v: string
      ensures Registered(more, v) <==> Registered(identifiers, v) || v == value
    {
      RegisteredSnoc(identifiers, Identifier(stamp, printed[0].kind, value), v);
    }
    forall k: Kind
      ensures HasKind(more, stamp, k) <==> HasKind(identifiers, stamp, k) || k == printed[0].kind
    {
      KindSnoc(identifiers, Identifier(stamp, printed[0].kind, value), stamp, k);
    }
    hide Registered, HasKind;
    assert forall i :: 0 <= i < |rest| ==> rest[i] == printed[i + 1];
    if Insertable(more, stamp, rest) && !Registered(identifiers, value)
       && !HasKind(identifiers, stamp, printed[0].kind) {
      forall i | 0 < i < |printed|
        ensures printed[i] == rest[i - 1]
      {
      }
    }
  }

  lemma RegisteredSnoc(identifiers: seq<Identifier>, d: Identifier, v: string)
    ensures Registered(identifiers + [d], v) <==> Registered(identifiers, v) || v == d.normalized
  {
    var more := identifiers + [d];
    assert more[|identifiers|] == d;
    if i :| 0 <= i < |identifiers| && identifiers[i].normalized == v {
      assert more[i] == identifiers[i];
    }
  }

  lemma KindSnoc(identifiers: seq<Identifier>, d: Identifier, stamp: nat, k: Kind)
    ensures HasKind(identifiers + [d], stamp, k) <==>
      HasKind(identifiers, stamp, k) || (d.stamp == stamp && d.kind == k)
  {
    var more := identifiers + [d];
    assert more[|identifiers|] == d;
    if i :| 0 <= i < |identifiers| && identifiers[i].stamp == stamp && identifiers[i].kind == k {
      assert more[i] == identifiers[i];
    }
  }

  lemma {:induction false} InsertsExactly(identifiers: seq<Identifier>, stamp: nat, printed: seq<Printed>)
    ensures var r := InsertAll(identifiers, stamp, printed);
      && (r.Some? <==> Insertable(identifiers, stamp, printed))
      && (r.Some? ==> r.value == identifiers + Identifiers(stamp, printed))
    decreases |printed|
  {
    hide Normalize, Registered, HasKind, Insertable;
    if printed == [] {
      assert Insertable(identifiers, stamp, []) by { NothingInserted(identifiers, stamp); }
      assert Identifiers(stamp, []) == [];
    } else {
      var d := Identifier(stamp, printed[0].kind, Normalize(printed[0].value));
      InsertableStep(identifiers, stamp, printed);
      InsertsExactly(identifiers + [d], stamp, printed[1..]);
      assert Identifiers(stamp, printed) == [d] + Identifiers(stamp, printed[1..]);
      assert identifiers + [d] + Identifiers(stamp, printed[1..]) == identifiers + Identifiers(stamp, printed);
    }
  }

  lemma NothingInserted(identifiers: seq<Identifier>, stamp: nat)
    ensures Insertable(identifiers, stamp, [])
  {
  }

  /** Registration succeeds exactly with something long enough to recognise the stamp by, a number no other stamp has
      and identifiers that clash neither with the register nor with each other; it then adds one available stamp and all
      of them, and nothing else. */
  lemma RegistersExactly(r: Register, number: Option<string>, printed: seq<Printed>)
    ensures var t := Take(r, RegisterStamp(number, printed)); var usable := Keep(Assembled(number, printed));
      && (t != r <==>
            && usable != [] && (number.Some? ==> number !in r.numbers)
            && Insertable(r.identifiers, |r.stamps|, usable))
      && (t != r ==> t == r.(identifiers := r.identifiers + Identifiers(|r.stamps|, usable),
                             numbers := r.numbers + [number], stamps := r.stamps + [Available]))
  {
    hide InsertAll, Keep, Assembled, Insertable;
    InsertsExactly(r.identifiers, |r.stamps|, Keep(Assembled(number, printed)));
  }

  /** Allocation succeeds exactly for a free stamp and an agreement that holds none. */
  lemma AllocatesExactly(r: Register, stamp: nat, g: nat)
    requires Exclusive(r)
    ensures var t := Take(r, Allocate(stamp, g));
      && (t != r <==>
            && stamp < |r.stamps| && r.stamps[stamp] == Available
            && forall i :: 0 <= i < |r.allocations| ==> !(r.allocations[i].agreement == g && r.allocations[i].live))
      && (t != r ==> t == r.(allocations := r.allocations + [Allocation(stamp, g, true)],
                             stamps := r.stamps[stamp := Allocated]))
  {
    hide HeldLive;
    assert r.allocations + [Allocation(stamp, g, true)] != r.allocations;
  }

  /** Completing an agreement uses up the stamp it holds, and releasing a cancelled one frees it; no other stamp and no
      other allocation changes. */
  lemma HeldStampFollows(r: Register, g: nat, i: nat)
    requires Exclusive(r) && g in r.agreements
    requires i < |r.allocations| && r.allocations[i].agreement == g && r.allocations[i].live
    ensures var stamp := r.allocations[i].stamp;
      && stamp < |r.stamps|
      && (r.agreements[g] == MdSigning ==>
            Take(r, CompleteAgreement(g, Some(i))) ==
              r.(agreements := r.agreements[g := Completed], stamps := r.stamps[stamp := Used]))
      && (r.agreements[g] == Cancelled ==>
            Take(r, Release(g, Some(i))) ==
              r.(allocations := r.allocations[i := Allocation(stamp, g, false)],
                 stamps := r.stamps[stamp := Available]))
      && (r.agreements[g] != MdSigning ==> Take(r, CompleteAgreement(g, Some(i))) == r)
      && (r.agreements[g] != Cancelled ==> Take(r, Release(g, Some(i))) == r)
  {
    hide HeldLive;
  }

  /** The stamp of a completed agreement is used, from its completion on. */
  lemma CompletedUses(r: Register, g: nat, i: nat, steps: seq<Step>, last: Register)
    requires Exclusive(r) && g in r.agreements && r.agreements[g] == MdSigning
    requires i < |r.allocations| && r.allocations[i].agreement == g && r.allocations[i].live
    requires Run(Take(r, CompleteAgreement(g, Some(i))), steps, last)
    ensures r.allocations[i].stamp < |last.stamps| && last.stamps[r.allocations[i].stamp] == Used
  {
    hide Exclusive, Run, Take;
    LiveUnique(r, g, i);
    StepExclusive(r, CompleteAgreement(g, Some(i)));
    HeldStampFollows(r, g, i);
    UsedForever(Take(r, CompleteAgreement(g, Some(i))), steps, last, r.allocations[i].stamp);
  }

  // ---- Without the agreement's lock ---------------------------------------------------------------

  /** A release that writes an allocation it read before keeps exclusivity exactly when that allocation is still live or
      its stamp is held by nobody. */
  lemma ReleaseExact(r: Register, seen: nat)
    requires Exclusive(r) && seen < |r.allocations|
    ensures Exclusive(Releasing(r, Some(seen))) <==>
      r.allocations[seen].live || !HeldLive(r.allocations, r.allocations[seen].stamp)
  {
    var a := r.allocations[seen];
    var t := Releasing(r, Some(seen));
    if a.live {
      LiveUnique(r, a.agreement, seen);
      ReleasingKeeps(r, a.agreement);
    } else {
      assert t.allocations == r.allocations;
      assert t.stamps[a.stamp] == Available;
      if !HeldLive(r.allocations, a.stamp) {
        assert t.stamps == r.stamps;
      }
    }
  }

  /** Two releases of one cancelled agreement that read the same allocation, with another agreement taking the stamp in
      between: the stamp ends AVAILABLE while the other agreement holds it. */
  lemma DoubleReleaseFrees(r: Register, g: nat, h: nat)
    requires Exclusive(r) && g != h && g in r.agreements && r.agreements[g] == Cancelled
    requires LiveOf(r.allocations, g).Some? && LiveOf(r.allocations, h).None?
    ensures var a := LiveOf(r.allocations, g); var stamp := r.allocations[a.value].stamp;
      var end := Take(Take(Take(r, Release(g, a)), Allocate(stamp, h)), Release(g, a));
      end.stamps[stamp] == Available && HeldLive(end.allocations, stamp) && !Exclusive(end)
  {
    var a := LiveOf(r.allocations, g);
    var stamp := r.allocations[a.value].stamp;
    var r1 := Take(r, Release(g, a));
    ReleasingKeeps(r, g);
    assert r1.stamps[stamp] == Available;
    assert !HeldLive(r1.allocations, stamp);
    NoneLive(r.allocations, a.value, h);
    var r2 := Take(r1, Allocate(stamp, h));
    assert r2.allocations == r1.allocations + [Allocation(stamp, h, true)];
    assert r2.allocations[|r1.allocations|].live && r2.allocations[|r1.allocations|].stamp == stamp;
    assert r2.agreements == r.agreements;
    var end := Take(r2, Release(g, a));
    assert end.allocations[|r1.allocations|] == r2.allocations[|r1.allocations|];
  }

  lemma NoneLive(allocations: seq<Allocation>, i: nat, h: nat)
    requires i < |allocations| && LiveOf(allocations, h).None?
    ensures LiveOf(allocations[i := allocations[i].(live := false)], h).None?
  {
    var t := allocations[i := allocations[i].(live := false)];
    var l := LiveOf(t, h);
  }

  // ---- The service --------------------------------------------------------------------------------

  class StampTable {
    var identifiers: seq<Identifier>
    var numbers: seq<Option<string>>
    var stamps: seq<StampStatus>
    var allocations: seq<Allocation>
    var agreements: map<nat, Status>

    function State(): Register
      reads this
    {
      Register(identifiers, numbers, stamps, allocations, agreements)
    }

    constructor ()
      ensures State() == EMPTY_REGISTER && Exclusive(State()) && IdentifiersOk(State())
    {
      identifiers, numbers, stamps, allocations, agreements := [], [], [], [], map[];
    }

    /** The stamp's row, then its identifiers one by one; a refused insert rolls everything back. */
    method RegisterPaper(number: Option<string>, printed: seq<Printed>) returns (ok: bool)
      modifies this
      ensures State() == Take(old(State()), RegisterStamp(number, printed))
      ensures ok == (State() != old(State()))
    {
      var usable := Keep(Assembled(number, printed));
      if usable == [] || NumberTaken(numbers, number) {
        return false;
      }
      var before, numbersBefore, stampsBefore := identifiers, numbers, stamps;
      var stamp := |stamps|;
      numbers, stamps := numbers + [number], stamps + [Available];
      var i := 0;
      while i < |usable|
        invariant 0 <= i <= |usable| && stamp == |old(stamps)| && stamps == old(stamps) + [Available]
        invariant numbers == old(numbers) + [number]
        invariant numbersBefore == old(numbers) && stampsBefore == old(stamps)
        invariant allocations == old(allocations) && agreements == old(agreements) && before == old(identifiers)
        invariant InsertAll(before, stamp, usable) == InsertAll(identifiers, stamp, usable[i..])
      {
        assert usable[i..][0] == usable[i] && usable[i..][1..] == usable[i + 1..];
        var normalized := Normalize(usable[i].value);
        if Registered(identifiers, normalized) || HasKind(identifiers, stamp, usable[i].kind) {
          identifiers, numbers, stamps := before, numbersBefore, stampsBefore;
          return false;
        }
        identifiers := identifiers + [Identifier(stamp, usable[i].kind, normalized)];
        i := i + 1;
      }
      return true;
    }

    method AllocateTo(stamp: nat, agreement: nat) returns (ok: bool)
      modifies this
      ensures State() == Take(old(State()), Allocate(stamp, agreement))
      ensures ok ==> stamp < |stamps| && stamps[stamp] == Allocated && LiveOf(allocations, agreement).Some?
    {
      if stamp >= |stamps| || stamps[stamp] != Available {
        return false;
      }
      if HeldLive(allocations, stamp) || LiveOf(allocations, agreement).Some? {
        return false;
      }
      allocations := allocations + [Allocation(stamp, agreement, true)];
      stamps := stamps[stamp := Allocated];
      return true;
    }

    /** `markUsed`, in the transaction that completes the agreement. */
    method MarkUsed(agreement: nat)
      requires agreement in agreements && agreements[agreement] == MdSigning
      modifies this
      ensures State() == Take(old(State()), CompleteAgreement(agreement, LiveOf(old(allocations), agreement)))
    {
      var allocation := LiveOf(allocations, agreement);
      agreements := agreements[agreement := Completed];
      if allocation.Some? && allocations[allocation.value].stamp < |stamps| {
        stamps := stamps[allocations[allocation.value].stamp := Used];
      }
    }

    /** `release`, for a cancelled agreement. */
    method ReleaseFrom(agreement: nat)
      requires agreement in agreements && agreements[agreement] == Cancelled
      modifies this
      ensures State() == Take(old(State()), Release(agreement, LiveOf(old(allocations), agreement)))
    {
      var allocation := LiveOf(allocations, agreement);
      if allocation.Some? {
        var i := allocation.value;
        allocations := allocations[i := allocations[i].(live := false)];
        if allocations[i].stamp < |stamps| {
          stamps := stamps[allocations[i].stamp := Available];
        }
      }
    }
  }
}
