/** The fixed-window limiter of the public verification endpoint. */
module RateLimit {
  import opened Text

  const WINDOW := 60000

  datatype Entry = Entry(count: nat, resetAt: nat)

  /** One call: whether it is let through, and the entry it leaves. The first call of a window always is. */
  function Hit(perMinute: nat, entry: Option<Entry>, now: nat): (r: (bool, Entry)) {
    match entry
    case None => (true, Entry(1, now + WINDOW))
    case Some(e) =>
      if e.resetAt < now then (true, Entry(1, now + WINDOW))
      else (e.count + 1 <= perMinute, Entry(e.count + 1, e.resetAt))
  }

  /** The calls of one key let through between `from` and `from + 60000`, both included, when calls arrive at the given
      times. */
  function Admitted(perMinute: nat, entry: Option<Entry>, times: seq<nat>, from: nat): nat
    decreases |times|
  {
    if times == [] then 0
    else
      var (ok, next) := Hit(perMinute, entry, times[0]);
      (if ok && from <= times[0] <= from + WINDOW then 1 else 0) + Admitted(perMinute, Some(next), times[1..], from)
  }

  ghost predicate Clock(times: seq<nat>) {
    forall i, j :: 0 <= i < j < |times| ==> times[i] <= times[j]
  }

  function Over(perMinute: nat, count: nat): nat {
    if perMinute > count then perMinute - count else 0
  }

  function AtLeastOne(perMinute: nat): nat {
    if perMinute >= 1 then perMinute else 1
  }

  /** The most that any minute can see. */
  function Most(perMinute: nat): nat {
    if perMinute == 0 then 1 else 2 * perMinute - 1
  }

  /** A window that began in the interval outlives it. */
  lemma {:induction false} WindowOutlives(perMinute: nat, entry: Entry, times: seq<nat>, from: nat)
    requires Clock(times) && entry.resetAt >= from + WINDOW
    ensures Admitted(perMinute, Some(entry), times, from) <= Over(perMinute, entry.count)
    decreases |times|
  {
    if times != [] {
      var (ok, next) := Hit(perMinute, Some(entry), times[0]);
      assert forall i :: 0 <= i < |times[1..]| ==> times[1..][i] == times[i + 1];
      WindowOutlives(perMinute, next, times[1..], from);
      if times[0] > entry.resetAt {
        LateAdds(perMinute, next, times[1..], from);
      }
    }
  }

  /** Calls after the interval add nothing. */
  lemma {:induction false} LateAdds(perMinute: nat, entry: Entry, times: seq<nat>, from: nat)
    requires forall i :: 0 <= i < |times| ==> times[i] > from + WINDOW
    ensures Admitted(perMinute, Some(entry), times, from) == 0
    decreases |times|
  {
    if times != [] {
      var (ok, next) := Hit(perMinute, Some(entry), times[0]);
      LateAdds(perMinute, next, times[1..], from);
    }
  }

  /** The rest of a window that began before the interval, and one window that begins in it. */
  lemma {:induction false} TailAndWindow(perMinute: nat, entry: Entry, times: seq<nat>, from: nat)
    requires Clock(times) && (times != [] ==> times[0] >= from)
    ensures Admitted(perMinute, Some(entry), times, from) <= Over(perMinute, entry.count) + AtLeastOne(perMinute)
    decreases |times|
  {
    if times != [] {
      var (ok, next) := Hit(perMinute, Some(entry), times[0]);
      assert forall i :: 0 <= i < |times[1..]| ==> times[1..][i] == times[i + 1];
      if times[0] > entry.resetAt {
        WindowOutlives(perMinute, next, times[1..], from);
      } else {
        TailAndWindow(perMinute, next, times[1..], from);
      }
    }
  }

  /** In any minute of any sequence of calls a key gets at most 2n - 1 calls through, and one when n is zero. */
  lemma {:induction false} AtMost(perMinute: nat, entry: Option<Entry>, times: seq<nat>, from: nat)
    requires Clock(times) && (entry.Some? ==> entry.value.count >= 1)
    ensures Admitted(perMinute, entry, times, from) <= Most(perMinute)
    decreases |times|
  {
    if times != [] {
      var (ok, next) := Hit(perMinute, entry, times[0]);
      assert forall i :: 0 <= i < |times[1..]| ==> times[1..][i] == times[i + 1];
      if times[0] < from {
        AtMost(perMinute, Some(next), times[1..], from);
      } else if entry.Some? {
        TailAndWindow(perMinute, entry.value, times, from);
      } else {
        WindowOutlives(perMinute, next, times[1..], from);
      }
    }
  }

  /** The answers to the calls of one key. */
  function Answers(perMinute: nat, entry: Option<Entry>, times: seq<nat>): (r: seq<bool>)
    ensures |r| == |times|
    decreases |times|
  {
    if times == [] then []
    else
      var (ok, next) := Hit(perMinute, entry, times[0]);
      [ok] + Answers(perMinute, Some(next), times[1..])
  }

  lemma {:induction false} WithinWindow(perMinute: nat, entry: Entry, times: seq<nat>, i: nat)
    requires i < |times| && forall j :: 0 <= j < |times| ==> times[j] <= entry.resetAt
    ensures Answers(perMinute, Some(entry), times)[i] <==> entry.count + i < perMinute
    decreases |times|
  {
    if i > 0 {
      var next := Hit(perMinute, Some(entry), times[0]).1;
      assert forall j :: 0 <= j < |times[1..]| ==> times[1..][j] == times[j + 1];
      WithinWindow(perMinute, next, times[1..], i - 1);
    }
  }

  /** A call that finds no window, or only one that is over, opens one, however often the key was turned away before. Of
      the calls in the 60 seconds from there on, exactly the first n are let through, and the first in any case. */
  lemma WindowExact(perMinute: nat, entry: Option<Entry>, times: seq<nat>, i: nat)
    requires i < |times| && (entry.Some? ==> entry.value.resetAt < times[0])
    requires forall j :: 0 <= j < |times| ==> times[j] <= times[0] + 60000
    ensures Answers(perMinute, entry, times)[i] <==> i == 0 || i < perMinute
  {
    if i > 0 {
      assert forall j :: 0 <= j < |times[1..]| ==> times[1..][j] == times[j + 1];
      WithinWindow(perMinute, Entry(1, times[0] + WINDOW), times[1..], i - 1);
    }
  }

  function Repeat(t: nat, k: nat): (r: seq<nat>)
    ensures |r| == k && forall i :: 0 <= i < k ==> r[i] == t
  {
    if k == 0 then [] else [t] + Repeat(t, k - 1)
  }

  lemma {:induction false} AllThrough(perMinute: nat, entry: Entry, t: nat, k: nat, rest: seq<nat>, from: nat)
    requires t <= entry.resetAt && entry.count + k <= perMinute && from <= t <= from + WINDOW
    ensures Admitted(perMinute, Some(entry), Repeat(t, k) + rest, from) ==
      k + Admitted(perMinute, Some(Entry(entry.count + k, entry.resetAt)), rest, from)
    decreases k
  {
    var times := Repeat(t, k) + rest;
    if k == 0 {
      assert times == rest;
    } else {
      assert times[1..] == Repeat(t, k - 1) + rest;
      AllThrough(perMinute, Entry(entry.count + 1, entry.resetAt), t, k - 1, rest, from);
    }
  }

  /** The bound is met: a window nearly exhausted at its last instant, and the next one exhausted at its first. */
  lemma BoundIsTight(perMinute: nat)
    requires perMinute >= 1
    ensures var times := [0] + (Repeat(WINDOW, perMinute - 1) + Repeat(WINDOW + 1, perMinute));
      Clock(times) && Admitted(perMinute, None, times, WINDOW) == 2 * perMinute - 1
  {
    var second := Repeat(WINDOW + 1, perMinute);
    var tail := Repeat(WINDOW, perMinute - 1) + second;
    var times := [0] + tail;
    assert times[1..] == tail;
    AllThrough(perMinute, Entry(1, WINDOW), WINDOW, perMinute - 1, second, WINDOW);
    assert second[1..] == Repeat(WINDOW + 1, perMinute - 1) + [];
    AllThrough(perMinute, Entry(1, WINDOW + 1 + WINDOW), WINDOW + 1, perMinute - 1, [], WINDOW);
    assert Admitted(perMinute, Some(Entry(perMinute, WINDOW)), second, WINDOW) == perMinute;
  }

  /** `RateLimiter`. */
  class RateLimiter {
    const perMinute: nat
    var hits: map<string, Entry>

    constructor (perMinute: nat)
      ensures this.perMinute == perMinute && hits == map[]
    {
      this.perMinute := perMinute;
      hits := map[];
    }

    function EntryOf(key: string): Option<Entry>
      reads this
    {
      if key in hits then Some(hits[key]) else None
    }

    method Allow(key: string, now: nat) returns (ok: bool)
      modifies this
      ensures (ok, hits) ==
        (Hit(perMinute, old(EntryOf(key)), now).0, old(hits)[key := Hit(perMinute, old(EntryOf(key)), now).1])
    {
      if key !in hits || hits[key].resetAt < now {
        hits := hits[key := Entry(1, now + WINDOW)];
        return true;
      }
      hits := hits[key := hits[key].(count := hits[key].count + 1)];
      return hits[key].count <= perMinute;
    }
  }
}
