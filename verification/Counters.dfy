/** The gap-free counters behind agreement numbers and execution references. */
module Counters {
  import opened Text

  /** PostgreSQL's `lpad(s, width, '0')`: pads on the left, and cuts a longer text to its first `width` characters. */
  function LPad(s: string, width: nat): (r: string)
    ensures |r| == width
  {
    if |s| < width then Zeros(width - |s|) + s else s[..width]
  }

  /** An identifier: a fixed prefix and the padded number. */
  function Render(prefix: string, n: nat, width: nat): string {
    prefix + LPad(Dec(n), width)
  }

  lemma {:induction false} DecOfTen(n: nat, k: nat)
    requires n >= 1
    ensures Dec(n * Pow10(k)) == Dec(n) + Zeros(k)
  {
    if k == 0 {
      assert n * Pow10(0) == n;
      assert Dec(n) + Zeros(0) == Dec(n);
    } else {
      var m := n * Pow10(k - 1);
      assert n * Pow10(k) == m * 10 by { Times(n, k); }
      AtLeast(n, k - 1);
      DecOfTen(n, k - 1);
      assert Dec(m * 10) == Dec(m) + [Digit(0)];
      assert Dec(n) + Zeros(k - 1) + "0" == Dec(n) + (Zeros(k - 1) + "0");
    }
  }

  lemma Times(n: nat, k: nat)
    requires k > 0
    ensures n * Pow10(k) == (n * Pow10(k - 1)) * 10
  {
    assert Pow10(k) == 10 * Pow10(k - 1);
  }

  lemma AtLeast(n: nat, k: nat)
    requires n >= 1
    ensures n * Pow10(k) >= 1
  {
  }

  /** While the counter fits its width, different numbers render differently. */
  lemma RenderInjective(prefix: string, width: nat, m: nat, n: nat)
    requires width > 0 && m < Pow10(width) && n < Pow10(width) && Render(prefix, m, width) == Render(prefix, n, width)
    ensures m == n
  {
    hide Dec, Pow10;
    DecWidth(m, width);
    DecWidth(n, width);
    var (a, b) := (Render(prefix, m, width), Render(prefix, n, width));
    assert a[|prefix|..] == LPad(Dec(m), width) && b[|prefix|..] == LPad(Dec(n), width);
    PadIs(m, width);
    PadIs(n, width);
    PadInjective(m, n, width);
  }

  lemma PadIs(n: nat, width: nat)
    requires |Dec(n)| <= width
    ensures LPad(Dec(n), width) == Pad(n, width)
  {
    if |Dec(n)| == width {
      assert Dec(n)[..width] == Dec(n);
    }
  }

  /** An identifier is its prefix and, while the number fits, a numeral of fixed width that reads back as the number. */
  lemma RenderReads(prefix: string, n: nat, width: nat)
    requires width > 0 && n < Pow10(width)
    ensures var r := Render(prefix, n, width);
      prefix <= r && |r| == |prefix| + width && AllDigits(r[|prefix|..]) && ParseNat(r[|prefix|..]) == n
  {
    hide Dec, Pow10;
    DecWidth(n, width);
    PadIs(n, width);
    ParsePad(n, width);
    assert Render(prefix, n, width)[|prefix|..] == Pad(n, width);
  }

  /** The numbers 1 to k render pairwise distinctly exactly when k is below 10^width: the numeral of 10^width is cut. */
  lemma DistinctExactlyBelow(prefix: string, width: nat, k: nat)
    requires width > 0
    ensures (forall m, n :: 1 <= m < n <= k ==> Render(prefix, m, width) != Render(prefix, n, width)) <==>
      k < Pow10(width)
  {
    if k < Pow10(width) {
      forall m, n | 1 <= m < n <= k
        ensures Render(prefix, m, width) != Render(prefix, n, width)
      {
        if Render(prefix, m, width) == Render(prefix, n, width) {
          RenderInjective(prefix, width, m, n);
          assert false;
        }
      }
    } else {
      Wraps(prefix, width);
      assert Pow10(width) == 10 * Pow10(width - 1);
      assert 1 <= Pow10(width - 1) < Pow10(width) <= k;
    }
  }

  /** 10^width is rendered like 10^(width - 1). */
  lemma Wraps(prefix: string, width: nat)
    requires width > 0
    ensures Render(prefix, Pow10(width), width) == Render(prefix, Pow10(width - 1), width)
  {
    DecOfTen(1, width);
    DecOfTen(1, width - 1);
    assert 1 * Pow10(width) == Pow10(width) && 1 * Pow10(width - 1) == Pow10(width - 1);
    assert Dec(1) == "1";
    assert Dec(Pow10(width)) == "1" + Zeros(width);
    assert Dec(Pow10(width - 1)) == "1" + Zeros(width - 1);
    assert Zeros(width) == Zeros(width - 1) + "0";
    assert ("1" + Zeros(width))[..width] == "1" + Zeros(width - 1);
  }

  // ---- Prefixes that vary by call -----------------------------------------------------------------

  /** The identifiers of the numbers 1, 2, ... of one counter, each with the prefix its own call passed. */
  function References(prefixes: seq<string>, width: nat): (r: seq<string>)
    ensures |r| == |prefixes| && forall i :: 0 <= i < |r| ==> r[i] == Render(prefixes[i], i + 1, width)
  {
    seq(|prefixes|, i requires 0 <= i < |prefixes| => Render(prefixes[i], i + 1, width))
  }

  ghost predicate Distinct(ids: seq<string>) {
    forall i, j :: 0 <= i < j < |ids| ==> ids[i] != ids[j]
  }

  lemma RenderSplits(p: string, q: string, m: nat, n: nat, width: nat)
    ensures Render(p, m, width) == Render(q, n, width) <==> p == q && LPad(Dec(m), width) == LPad(Dec(n), width)
  {
    hide Dec, LPad;
    var (a, b) := (Render(p, m, width), Render(q, n, width));
    assert a[..|p|] == p && a[|p|..] == LPad(Dec(m), width);
    assert b[..|q|] == q && b[|q|..] == LPad(Dec(n), width);
  }

  /** Identifiers of one counter clash exactly where the prefixes agree and the cut numerals do. */
  lemma ReferencesClash(prefixes: seq<string>, width: nat)
    ensures Distinct(References(prefixes, width)) <==>
      forall i, j :: 0 <= i < j < |prefixes| && prefixes[i] == prefixes[j] ==>
        LPad(Dec(i + 1), width) != LPad(Dec(j + 1), width)
  {
    hide Dec, LPad, Render;
    forall i, j | 0 <= i < j < |prefixes|
      ensures References(prefixes, width)[i] == References(prefixes, width)[j] <==>
        prefixes[i] == prefixes[j] && LPad(Dec(i + 1), width) == LPad(Dec(j + 1), width)
    {
      RenderSplits(prefixes[i], prefixes[j], i + 1, j + 1, width);
    }
  }

  /** The first k identifiers are distinct whatever prefixes the calls pass exactly when k is below 10^width. */
  lemma DistinctForEveryPrefix(width: nat, k: nat)
    requires width > 0
    ensures (forall prefixes: seq<string> :: |prefixes| == k ==> Distinct(References(prefixes, width))) <==>
      k < Pow10(width)
  {
    hide Dec, LPad, Render, Pow10, References;
    DistinctExactlyBelow("", width, k);
    if k < Pow10(width) {
      forall prefixes: seq<string> | |prefixes| == k
        ensures Distinct(References(prefixes, width))
      {
        forall i, j | 0 <= i < j < k
          ensures References(prefixes, width)[i] != References(prefixes, width)[j]
        {
          assert Render("", i + 1, width) != Render("", j + 1, width);
          RenderSplits("", "", i + 1, j + 1, width);
          RenderSplits(prefixes[i], prefixes[j], i + 1, j + 1, width);
        }
      }
    } else {
      var m, n :| 1 <= m < n <= k && Render("", m, width) == Render("", n, width);
      var same := seq(k, _ => "");
      assert References(same, width)[m - 1] == References(same, width)[n - 1];
    }
  }

  // ---- Allocation ---------------------------------------------------------------------------------

  /** One counter row: its committed next value, the value its lock holder sees, the holder, the numbers the holder
      drew, and the numbers committed so far. */
  datatype Counter = Counter(base: nat, next: nat, holder: Option<nat>, drawn: seq<nat>, committed: seq<nat>)

  const NEW_COUNTER := Counter(1, 1, None, [], [])

  datatype Event = Draw(tx: nat) | Commit(tx: nat) | Rollback(tx: nat)

  predicate MayDraw(c: Counter, tx: nat) {
    c.holder == None || c.holder == Some(tx)
  }

  /** Updating the row takes its lock; a rolled back transaction gives its numbers back. */
  function Next(c: Counter, e: Event): Counter {
    match e
    case Draw(tx) =>
      if MayDraw(c, tx) then c.(next := c.next + 1, holder := Some(tx), drawn := c.drawn + [c.next]) else c
    case Commit(tx) => if c.holder == Some(tx) then Counter(c.next, c.next, None, [], c.committed + c.drawn) else c
    case Rollback(tx) => if c.holder == Some(tx) then Counter(c.base, c.base, None, [], c.committed) else c
  }

  function Run(c: Counter, events: seq<Event>): Counter
    decreases |events|
  {
    if events == [] then c else Run(Next(c, events[0]), events[1..])
  }

  ghost predicate GapFree(c: Counter) {
    && c.base == |c.committed| + 1 && c.next == c.base + |c.drawn| && (c.holder.None? ==> c.drawn == [])
    && (forall i :: 0 <= i < |c.committed| ==> c.committed[i] == i + 1)
    && forall i :: 0 <= i < |c.drawn| ==> c.drawn[i] == c.base + i
  }

  lemma {:induction false} RunGapFree(c: Counter, events: seq<Event>)
    requires GapFree(c)
    ensures GapFree(Run(c, events))
    decreases |events|
  {
    if events != [] {
      RunGapFree(Next(c, events[0]), events[1..]);
    }
  }

  /** Under any schedule of draws, commits and rollbacks the committed numbers are exactly 1 to k, in order; so the
      identifiers of a counter of the given width and one prefix, or of whatever prefixes the calls pass, are pairwise
      distinct exactly while k stays below 10^width. */
  lemma CommittedNumbers(events: seq<Event>, prefix: string, width: nat)
    requires width > 0
    ensures var committed := Run(NEW_COUNTER, events).committed;
      && (forall i :: 0 <= i < |committed| ==> committed[i] == i + 1)
      && ((forall i, j :: 0 <= i < j < |committed| ==>
             Render(prefix, committed[i], width) != Render(prefix, committed[j], width))
          <==> |committed| < Pow10(width))
      && ((forall prefixes: seq<string> :: |prefixes| == |committed| ==> Distinct(References(prefixes, width)))
          <==> |committed| < Pow10(width))
  {
    hide Run, Render, Pow10, Distinct, References;
    RunGapFree(NEW_COUNTER, events);
    var committed := Run(NEW_COUNTER, events).committed;
    DistinctExactlyBelow(prefix, width, |committed|);
    DistinctForEveryPrefix(width, |committed|);
    if |committed| >= Pow10(width) {
      var m, n :| 1 <= m < n <= |committed| && Render(prefix, m, width) == Render(prefix, n, width);
      assert committed[m - 1] == m && committed[n - 1] == n;
    }
  }

  // ---- Which draws are committed ------------------------------------------------------------------

  predicate Ends(e: Event, tx: nat) {
    e == Commit(tx) || e == Rollback(tx)
  }

  /** The transaction that drew last and has not ended since. */
  function Locking(events: seq<Event>): Option<nat> {
    if events == [] then None
    else
      var (before, e) := (Locking(events[..|events| - 1]), events[|events| - 1]);
      if e.Draw? && before.None? then Some(e.tx)
      else if before.Some? && Ends(e, before.value) then None
      else before
  }

  /** The transaction's next end is a commit. */
  predicate Commits(events: seq<Event>, tx: nat)
    decreases |events|
  {
    events != [] && if Ends(events[0], tx) then events[0].Commit? else Commits(events[1..], tx)
  }

  /** Event `k` draws a number, no other transaction holding the counter, and its transaction goes on to commit. */
  predicate Kept(events: seq<Event>, k: nat)
    requires k < |events|
  {
    && events[k].Draw? && (Locking(events[..k]) == None || Locking(events[..k]) == Some(events[k].tx))
    && Commits(events[k + 1..], events[k].tx)
  }

  /** The numbers drawn, from event `k` on, by transactions that went on to commit. */
  function Survivors(events: seq<Event>, k: nat): seq<nat>
    requires k <= |events|
    decreases |events| - k
  {
    if k == |events| then []
    else (if Kept(events, k) then [Run(NEW_COUNTER, events[..k]).next] else []) + Survivors(events, k + 1)
  }

  function KeptDraws(events: seq<Event>): set<nat> {
    set k: nat | k < |events| && Kept(events, k)
  }

  lemma {:induction false} RunSnoc(c: Counter, events: seq<Event>, e: Event)
    ensures Run(c, events + [e]) == Next(Run(c, events), e)
    decreases |events|
  {
    hide Next;
    if events == [] {
      assert events + [e] == [e] && [e][1..] == [];
    } else {
      assert (events + [e])[1..] == events[1..] + [e];
      RunSnoc(Next(c, events[0]), events[1..], e);
    }
  }

  lemma {:induction false} HolderIs(events: seq<Event>, k: nat)
    requires k <= |events|
    ensures Run(NEW_COUNTER, events[..k]).holder == Locking(events[..k])
  {
    hide Run;
    if k == 0 {
      assert events[..0] == [] && Run(NEW_COUNTER, []) == NEW_COUNTER by { RunNothing(); }
    } else {
      HolderIs(events, k - 1);
      RunSnoc(NEW_COUNTER, events[..k - 1], events[k - 1]);
      assert events[..k] == events[..k - 1] + [events[k - 1]];
      assert events[..k][..k - 1] == events[..k - 1];
    }
  }

  lemma RunNothing()
    ensures Run(NEW_COUNTER, []) == NEW_COUNTER
  {
  }

  /** What the holder drew is committed when it goes on to commit. */
  function Pending(c: Counter, rest: seq<Event>): seq<nat> {
    if c.holder.Some? && Commits(rest, c.holder.value) then c.drawn else []
  }

  lemma PendingStep(c: Counter, events: seq<Event>, k: nat)
    requires k < |events| && c == Run(NEW_COUNTER, events[..k]) && GapFree(c) && c.holder == Locking(events[..k])
    ensures var d := Next(c, events[k]);
      c.committed + Pending(c, events[k..]) + (if Kept(events, k) then [c.next] else [])
        == d.committed + Pending(d, events[k + 1..])
  {
    hide Run, Locking;
    assert events[k..][0] == events[k] && events[k..][1..] == events[k + 1..];
  }

  lemma AllSurvived(c: Counter, events: seq<Event>)
    ensures Pending(c, []) == [] && Survivors(events, |events|) == []
  {
  }

  lemma SurvivorsStep(events: seq<Event>, k: nat)
    requires k < |events|
    ensures Survivors(events, k) ==
      (if Kept(events, k) then [Run(NEW_COUNTER, events[..k]).next] else []) + Survivors(events, k + 1)
  {
    hide Run, Kept;
  }

  lemma {:induction false} SurvivorsAre(events: seq<Event>, k: nat)
    requires k <= |events|
    ensures var c := Run(NEW_COUNTER, events[..k]);
      Run(NEW_COUNTER, events).committed == c.committed + Pending(c, events[k..]) + Survivors(events, k)
    decreases |events| - k
  {
    hide Next, Run, Locking, Kept, GapFree, Survivors, Pending;
    if k == |events| {
      assert events[..k] == events && events[k..] == [];
      AllSurvived(Run(NEW_COUNTER, events), events);
    } else {
      var c := Run(NEW_COUNTER, events[..k]);
      NewGapFree();
      RunGapFree(NEW_COUNTER, events[..k]);
      HolderIs(events, k);
      PendingStep(c, events, k);
      RunSnoc(NEW_COUNTER, events[..k], events[k]);
      assert events[..k + 1] == events[..k] + [events[k]];
      SurvivorsAre(events, k + 1);
      SurvivorsStep(events, k);
    }
  }

  lemma NewGapFree()
    ensures GapFree(NEW_COUNTER)
  {
  }

  /** Every draw of a transaction that goes on to commit is committed, under the number it was given; since these are 1
      to k in order, no two of them have one number and none is left out. */
  lemma CommittedAreSurvivors(events: seq<Event>)
    ensures Run(NEW_COUNTER, events).committed == Survivors(events, 0)
    ensures |Run(NEW_COUNTER, events).committed| == |KeptDraws(events)|
  {
    hide Run, Survivors;
    SurvivorsAre(events, 0);
    assert events[..0] == [];
    RunNothing();
    AllSurvived(NEW_COUNTER, events);
    SurvivorCount(events, 0);
    assert KeptFrom(events, 0) == KeptDraws(events);
  }

  function KeptFrom(events: seq<Event>, from: nat): set<nat> {
    set k: nat | from <= k < |events| && Kept(events, k)
  }

  lemma {:induction false} SurvivorCount(events: seq<Event>, from: nat)
    requires from <= |events|
    ensures |Survivors(events, from)| == |KeptFrom(events, from)|
    decreases |events| - from
  {
    hide Kept, Run;
    if from == |events| {
      assert KeptFrom(events, from) == {};
    } else {
      SurvivorCount(events, from + 1);
      if Kept(events, from) {
        assert KeptFrom(events, from) == KeptFrom(events, from + 1) + {from};
      } else {
        assert KeptFrom(events, from) == KeptFrom(events, from + 1);
      }
    }
  }

  /** Agreement numbers have six digits and execution references three. */
  lemma NumbersRunOut()
    ensures Pow10(6) == 1000000 && Pow10(3) == 1000
    ensures Render("GTIDS/2026-27/EMPAGR/", 1000000, 6) == Render("GTIDS/2026-27/EMPAGR/", 100000, 6)
    ensures Render("UBI/AG0042/2026-27/", 1000, 3) == Render("UBI/AG0042/2026-27/", 100, 3)
  {
    assert Pow10(1) == 10 && Pow10(2) == 100 && Pow10(3) == 1000 && Pow10(4) == 10000;
    assert Pow10(5) == 100000 && Pow10(6) == 1000000;
    Wraps("GTIDS/2026-27/EMPAGR/", 6);
    Wraps("UBI/AG0042/2026-27/", 3);
  }

  /** The counter row as `next_agreement_number` and `next_execution_reference` use it. */
  class CounterRow {
    var base: nat
    var next: nat
    var holder: Option<nat>
    var drawn: seq<nat>
    var committed: seq<nat>

    function State(): Counter
      reads this
    {
      Counter(base, next, holder, drawn, committed)
    }

    constructor ()
      ensures State() == NEW_COUNTER
    {
      base, next, holder, drawn, committed := 1, 1, None, [], [];
    }

    method DrawNumber(tx: nat, prefix: string, width: nat) returns (r: Option<string>)
      modifies this
      ensures State() == Next(old(State()), Draw(tx))
      ensures r == if MayDraw(old(State()), tx) then Some(Render(prefix, old(next), width)) else None
    {
      if holder.Some? && holder.value != tx {
        return None;
      }
      holder := Some(tx);
      next := next + 1;
      drawn := drawn + [next - 1];
      return Some(Render(prefix, next - 1, width));
    }

    method CommitNumbers(tx: nat)
      modifies this
      ensures State() == Next(old(State()), Commit(tx))
    {
      if holder == Some(tx) {
        base := next;
        committed := committed + drawn;
        holder, drawn := None, [];
      }
    }

    method RollbackNumbers(tx: nat)
      modifies this
      ensures State() == Next(old(State()), Rollback(tx))
    {
      if holder == Some(tx) {
        next := base;
        holder, drawn := None, [];
      }
    }
  }
}
