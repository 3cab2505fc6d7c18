/** The audit hash chain: concurrent appends under a head lock, with identifiers drawn before the lock, and the verifier
    that walks a chain in identifier order. */
module AuditChain {
  import opened Text

  type Hash = string

  const HASH_WIDTH := 64
  const ZERO: Hash := Zeros(HASH_WIDTH)

  /** A row: the text it hashes after its predecessor's hash (agreement, version, actor, event, data, time, rendered and
      joined without separators), and what it does not hash (address and user agent). */
  datatype Row = Row(id: nat, text: string, extra: string, prev: Hash, hash: Hash)

  type Sha = string -> Hash

  ghost predicate Width(sha: Sha) {
    forall s: string :: |sha(s)| == HASH_WIDTH
  }

  /** What a row hashes. */
  function Input(r: Row): string {
    r.prev + r.text
  }

  /** No two of the given texts collide, and none hashes to the zero hash. */
  ghost predicate CollisionFree(sha: Sha, inputs: set<string>) {
    && (forall a, b :: a in inputs && b in inputs && sha(a) == sha(b) ==> a == b)
    && forall a :: a in inputs ==> sha(a) != ZERO
  }

  ghost function Inputs(rows: seq<Row>): set<string> {
    set r | r in rows :: Input(r)
  }

  // ---- The appends --------------------------------------------------------------------------------

  datatype Head = Head(hash: Hash, count: nat)

  /** A row whose identifier is drawn and whose insert waits for the head lock. */
  datatype Draft = Draft(id: nat, text: string, extra: string)

  /** One chain: its committed rows in the order of the chain, its head, the transaction that holds the head lock with
      the rows it inserted, and the identifiers drawn so far. */
  datatype Chain = Chain(
    rows: seq<Row>, head: Head, holder: Option<nat>, own: seq<Row>, drafts: map<nat, Draft>, nextId: nat)

  const EMPTY_CHAIN := Chain([], Head(ZERO, 0), None, [], map[], 1)

  datatype Event =
    | Draw(tx: nat, text: string, extra: string)
    | Append(tx: nat)
    | Commit(tx: nat)
    | Rollback(tx: nat)

  predicate MayAppend(c: Chain, tx: nat) {
    tx in c.drafts && (c.holder == None || c.holder == Some(tx))
  }

  /** The head the holder sees: its own last row, or the committed head. */
  function Tip(c: Chain): Head {
    if c.own == [] then c.head else Head(c.own[|c.own| - 1].hash, c.head.count + |c.own|)
  }

  function Linked(sha: Sha, d: Draft, prev: Hash): Row {
    Row(d.id, d.text, d.extra, prev, sha(prev + d.text))
  }

  /** Identifiers come from a sequence and are never given back; everything else of a rolled back transaction is. */
  function Next(sha: Sha, c: Chain, e: Event): Chain {
    match e
    case Draw(tx, text, extra) =>
      if tx in c.drafts then c else c.(drafts := c.drafts[tx := Draft(c.nextId, text, extra)], nextId := c.nextId + 1)
    case Append(tx) =>
      if MayAppend(c, tx)
      then c.(holder := Some(tx), own := c.own + [Linked(sha, c.drafts[tx], Tip(c).hash)], drafts := c.drafts - {tx})
      else c
    case Commit(tx) =>
      if c.holder == Some(tx)
      then c.(rows := c.rows + c.own, head := Tip(c), holder := None, own := [], drafts := c.drafts - {tx})
      else c.(drafts := c.drafts - {tx})
    case Rollback(tx) =>
      if c.holder == Some(tx)
      then c.(holder := None, own := [], drafts := c.drafts - {tx})
      else c.(drafts := c.drafts - {tx})
  }

  function Schedule(sha: Sha, c: Chain, events: seq<Event>): Chain
    decreases |events|
  {
    if events == [] then c else Schedule(sha, Next(sha, c, events[0]), events[1..])
  }

  // ---- One path -----------------------------------------------------------------------------------

  /** The rows form one path from the given hash: each links to the one before and hashes its own text. */
  ghost predicate Path(sha: Sha, start: Hash, rows: seq<Row>) {
    && (rows != [] ==> rows[0].prev == start)
    && (forall i, j :: 0 <= i && j == i + 1 < |rows| ==> rows[j].prev == rows[i].hash)
    && forall i :: 0 <= i < |rows| ==> rows[i].hash == sha(Input(rows[i]))
  }

  function EndOf(start: Hash, rows: seq<Row>): Hash {
    if rows == [] then start else rows[|rows| - 1].hash
  }

  lemma PathSnoc(sha: Sha, start: Hash, rows: seq<Row>, r: Row)
    requires Path(sha, start, rows) && r.prev == EndOf(start, rows) && r.hash == sha(Input(r))
    ensures Path(sha, start, rows + [r])
  {
  }

  lemma PathConcat(sha: Sha, start: Hash, a: seq<Row>, b: seq<Row>)
    requires Path(sha, start, a) && Path(sha, EndOf(start, a), b)
    ensures Path(sha, start, a + b) && EndOf(start, a + b) == EndOf(EndOf(start, a), b)
  {
    var all := a + b;
    forall i, j | 0 <= i && j == i + 1 < |all|
      ensures all[j].prev == all[i].hash
    {
      if j < |a| {
      } else if j == |a| {
        assert all[j] == b[0] && all[i] == a[|a| - 1];
      } else {
        assert all[j] == b[j - |a|] && all[i] == b[i - |a|];
      }
    }
  }

  /** No identifier is used twice. */
  ghost predicate DistinctIds(rows: seq<Row>, more: seq<Row>, drafts: map<nat, Draft>, nextId: nat) {
    && (forall i, j :: 0 <= i < j < |rows| ==> rows[i].id != rows[j].id)
    && (forall i, j :: 0 <= i < j < |more| ==> more[i].id != more[j].id)
    && (forall i, j :: 0 <= i < |rows| && 0 <= j < |more| ==> rows[i].id != more[j].id)
    && (forall i, tx :: 0 <= i < |rows| && tx in drafts ==> rows[i].id != drafts[tx].id)
    && (forall i, tx :: 0 <= i < |more| && tx in drafts ==> more[i].id != drafts[tx].id)
    && (forall a, b :: a in drafts && b in drafts && a != b ==> drafts[a].id != drafts[b].id)
    && (forall i :: 0 <= i < |rows| ==> rows[i].id < nextId)
    && (forall i :: 0 <= i < |more| ==> more[i].id < nextId)
    && (forall tx :: tx in drafts ==> drafts[tx].id < nextId)
  }

  ghost predicate ChainInv(sha: Sha, c: Chain) {
    && Path(sha, ZERO, c.rows) && c.head == Head(EndOf(ZERO, c.rows), |c.rows|)
    && Path(sha, c.head.hash, c.own) && (c.holder.None? ==> c.own == [])
    && DistinctIds(c.rows, c.own, c.drafts, c.nextId)
  }

  lemma TipIsEnd(sha: Sha, c: Chain)
    requires ChainInv(sha, c)
    ensures Tip(c).hash == EndOf(c.head.hash, c.own) && Tip(c).count == |c.rows| + |c.own|
  {
  }

  lemma DrawDistinct(rows: seq<Row>, own: seq<Row>, drafts: map<nat, Draft>, nextId: nat, tx: nat, text: string,
                     extra: string)
    requires DistinctIds(rows, own, drafts, nextId) && tx !in drafts
    ensures DistinctIds(rows, own, drafts[tx := Draft(nextId, text, extra)], nextId + 1)
  {
  }

  lemma AppendDistinct(rows: seq<Row>, own: seq<Row>, drafts: map<nat, Draft>, nextId: nat, tx: nat, r: Row)
    requires DistinctIds(rows, own, drafts, nextId) && tx in drafts && r.id == drafts[tx].id
    ensures DistinctIds(rows, own + [r], drafts - {tx}, nextId)
  {
  }

  lemma CommitDistinct(rows: seq<Row>, own: seq<Row>, drafts: map<nat, Draft>, nextId: nat, tx: nat)
    requires DistinctIds(rows, own, drafts, nextId)
    ensures DistinctIds(rows + own, [], drafts - {tx}, nextId)
  {
    var all := rows + own;
    assert forall i :: |rows| <= i < |all| ==> all[i] == own[i - |rows|];
  }

  lemma LessDistinct(rows: seq<Row>, own: seq<Row>, drafts: map<nat, Draft>, nextId: nat, tx: nat)
    requires DistinctIds(rows, own, drafts, nextId)
    ensures DistinctIds(rows, own, drafts - {tx}, nextId) && DistinctIds(rows, [], drafts - {tx}, nextId)
  {
  }

  lemma NextKeeps(sha: Sha, c: Chain, e: Event)
    requires ChainInv(sha, c)
    ensures ChainInv(sha, Next(sha, c, e))
  {
    hide DistinctIds, Path;
    match e
    case Draw(tx, text, extra) =>
      if tx !in c.drafts {
        DrawDistinct(c.rows, c.own, c.drafts, c.nextId, tx, text, extra);
      }
    case Append(tx) =>
      if MayAppend(c, tx) {
        var r := Linked(sha, c.drafts[tx], Tip(c).hash);
        TipIsEnd(sha, c);
        PathSnoc(sha, c.head.hash, c.own, r);
        AppendDistinct(c.rows, c.own, c.drafts, c.nextId, tx, r);
      }
    case Commit(tx) =>
      if c.holder == Some(tx) {
        TipIsEnd(sha, c);
        PathConcat(sha, ZERO, c.rows, c.own);
        CommitDistinct(c.rows, c.own, c.drafts, c.nextId, tx);
        EmptyPath(sha, Tip(c).hash);
      } else {
        LessDistinct(c.rows, c.own, c.drafts, c.nextId, tx);
      }
    case Rollback(tx) =>
      LessDistinct(c.rows, c.own, c.drafts, c.nextId, tx);
      EmptyPath(sha, c.head.hash);
  }

  lemma EmptyPath(sha: Sha, start: Hash)
    ensures Path(sha, start, [])
  {
  }

  lemma {:induction false} ScheduleKeeps(sha: Sha, c: Chain, events: seq<Event>)
    requires ChainInv(sha, c)
    ensures ChainInv(sha, Schedule(sha, c, events))
    decreases |events|
  {
    hide ChainInv, Next;
    if events != [] {
      NextKeeps(sha, c, events[0]);
      ScheduleKeeps(sha, Next(sha, c, events[0]), events[1..]);
    }
  }

  /** Under any schedule of draws, inserts, commits and rollbacks, the committed rows form one path from the zero hash
      to the head, as long as the recorded count, with no identifier used twice. */
  lemma CommittedRowsFormOnePath(sha: Sha, events: seq<Event>)
    ensures var c := Schedule(sha, EMPTY_CHAIN, events);
      && Path(sha, ZERO, c.rows) && c.head.hash == EndOf(ZERO, c.rows) && c.head.count == |c.rows|
      && forall i, j :: 0 <= i < j < |c.rows| ==> c.rows[i].id != c.rows[j].id
  {
    hide Next;
    assert ChainInv(sha, EMPTY_CHAIN);
    ScheduleKeeps(sha, EMPTY_CHAIN, events);
  }

  // ---- Which rows are committed -------------------------------------------------------------------

  predicate Ends(e: Event, tx: nat) {
    e == Commit(tx) || e == Rollback(tx)
  }

  /** How many identifiers the events have drawn: a transaction that waits with a row draws no second one. */
  function Drawn(events: seq<Event>): nat
    decreases |events|, 0
  {
    if events == [] then 0
    else
      var (before, e) := (events[..|events| - 1], events[|events| - 1]);
      Drawn(before) + if e.Draw? && Waiting(before, e.tx).None? then 1 else 0
  }

  /** The row a transaction has drawn an identifier for and not inserted yet. */
  function Waiting(events: seq<Event>, tx: nat): Option<Draft>
    decreases |events|, 0
  {
    if events == [] then None
    else
      var (before, e) := (events[..|events| - 1], events[|events| - 1]);
      if Ends(e, tx) || (e == Append(tx) && Granted(before, tx)) then None
      else if e.Draw? && e.tx == tx && Waiting(before, tx).None? then Some(Draft(Drawn(before) + 1, e.text, e.extra))
      else Waiting(before, tx)
  }

  /** The transaction that inserted last and has not ended since. */
  function Locking(events: seq<Event>): Option<nat>
    decreases |events|, 0
  {
    if events == [] then None
    else
      var (before, e) := (events[..|events| - 1], events[|events| - 1]);
      if e.Append? && Granted(before, e.tx) then Some(e.tx)
      else if Locking(before).Some? && Ends(e, Locking(before).value) then None
      else Locking(before)
  }

  /** An insert goes through when a row waits and no other transaction holds the lock. */
  predicate Granted(events: seq<Event>, tx: nat)
    decreases |events|, 1
  {
    Waiting(events, tx).Some? && (Locking(events) == None || Locking(events) == Some(tx))
  }

  /** The transaction's next end is a commit. */
  predicate Commits(events: seq<Event>, tx: nat)
    decreases |events|
  {
    events != [] && if Ends(events[0], tx) then events[0].Commit? else Commits(events[1..], tx)
  }

  predicate Kept(events: seq<Event>, k: nat)
    requires k < |events|
  {
    events[k].Append? && Granted(events[..k], events[k].tx) && Commits(events[k + 1..], events[k].tx)
  }

  /** What was inserted, from event `k` on, by transactions that went on to commit, in the order of the inserts. */
  function Survivors(events: seq<Event>, k: nat): seq<Draft>
    requires k <= |events|
    decreases |events| - k
  {
    if k == |events| then []
    else
      (if Kept(events, k) then [Waiting(events[..k], events[k].tx).value] else []) + Survivors(events, k + 1)
  }

  function Contents(rows: seq<Row>): seq<Draft> {
    seq(|rows|, i requires 0 <= i < |rows| => Draft(rows[i].id, rows[i].text, rows[i].extra))
  }

  lemma {:induction false} ScheduleSnoc(sha: Sha, c: Chain, events: seq<Event>, e: Event)
    ensures Schedule(sha, c, events + [e]) == Next(sha, Schedule(sha, c, events), e)
    decreases |events|
  {
    hide Next;
    if events == [] {
      assert Schedule(sha, Next(sha, c, e), []) == Next(sha, c, e);
    } else {
      assert (events + [e])[1..] == events[1..] + [e];
      ScheduleSnoc(sha, Next(sha, c, events[0]), events[1..], e);
    }
  }

  /** The state's lock, drafts and sequence are what the events say. */
  ghost predicate Mirrors(c: Chain, events: seq<Event>) {
    && c.holder == Locking(events) && c.nextId == Drawn(events) + 1 && (c.holder == None ==> c.own == [])
    && forall tx :: Waiting(events, tx) == if tx in c.drafts then Some(c.drafts[tx]) else None
  }

  lemma NextMirrors(sha: Sha, c: Chain, events: seq<Event>, e: Event)
    requires Mirrors(c, events)
    ensures Mirrors(Next(sha, c, e), events + [e])
  {
    hide Linked, Tip;
    var all := events + [e];
    assert all[..|all| - 1] == events && all[|all| - 1] == e;
    assert forall tx :: MayAppend(c, tx) <==> Granted(events, tx);
  }

  lemma {:induction false} StateMirrors(sha: Sha, events: seq<Event>, k: nat)
    requires k <= |events|
    ensures Mirrors(Schedule(sha, EMPTY_CHAIN, events[..k]), events[..k])
  {
    hide Mirrors, Next;
    if k == 0 {
      assert events[..0] == [];
      assert Mirrors(EMPTY_CHAIN, []) by { NothingMirrored(); }
    } else {
      StateMirrors(sha, events, k - 1);
      assert events[..k] == events[..k - 1] + [events[k - 1]];
      NextMirrors(sha, Schedule(sha, EMPTY_CHAIN, events[..k - 1]), events[..k - 1], events[k - 1]);
      ScheduleSnoc(sha, EMPTY_CHAIN, events[..k - 1], events[k - 1]);
    }
  }

  lemma NothingMirrored()
    ensures Mirrors(EMPTY_CHAIN, [])
  {
  }

  /** What the holder has inserted so far is kept when it goes on to commit. */
  function Pending(c: Chain, rest: seq<Event>): seq<Draft> {
    if c.holder.Some? && Commits(rest, c.holder.value) then Contents(c.own) else []
  }

  lemma NoContents()
    ensures Contents([]) == []
  {
  }

  lemma ContentsConcat(a: seq<Row>, b: seq<Row>)
    ensures Contents(a + b) == Contents(a) + Contents(b)
  {
  }

  /** One event: what is committed, pending and still to come stays the same. */
  lemma PendingStep(sha: Sha, c: Chain, events: seq<Event>, k: nat)
    requires k < |events| && Mirrors(c, events[..k])
    ensures var (d, e) := (Next(sha, c, events[k]), events[k]);
      Contents(c.rows) + Pending(c, events[k..]) + (if Kept(events, k) then [Waiting(events[..k], e.tx).value] else [])
        == Contents(d.rows) + Pending(d, events[k + 1..])
  {
    hide Waiting, Locking, Drawn, Tip;
    var (e, rest) := (events[k], events[k + 1..]);
    assert events[k..][0] == e && events[k..][1..] == rest;
    assert Granted(events[..k], e.tx) <==> MayAppend(c, e.tx);
    if e.Append? && MayAppend(c, e.tx) {
      ContentsConcat(c.own, [Linked(sha, c.drafts[e.tx], Tip(c).hash)]);
    } else if e.Commit? && c.holder == Some(e.tx) {
      ContentsConcat(c.rows, c.own);
    }
  }

  lemma AllSurvived(c: Chain, events: seq<Event>)
    ensures Pending(c, []) == [] && Survivors(events, |events|) == []
  {
  }

  lemma SurvivorsStep(events: seq<Event>, k: nat)
    requires k < |events|
    ensures Kept(events, k) ==> Waiting(events[..k], events[k].tx).Some?
    ensures Survivors(events, k) ==
      (if Kept(events, k) then [Waiting(events[..k], events[k].tx).value] else []) + Survivors(events, k + 1)
  {
    hide Waiting, Locking;
  }

  lemma {:induction false} SurvivorsAre(sha: Sha, events: seq<Event>, k: nat)
    requires k <= |events|
    ensures var c := Schedule(sha, EMPTY_CHAIN, events[..k]);
      Contents(Schedule(sha, EMPTY_CHAIN, events).rows)
        == Contents(c.rows) + Pending(c, events[k..]) + Survivors(events, k)
    decreases |events| - k
  {
    hide Next, Mirrors, Kept, Contents, Schedule, Waiting, Pending, Survivors;
    if k == |events| {
      assert events[..k] == events && events[k..] == [];
      AllSurvived(Schedule(sha, EMPTY_CHAIN, events), events);
    } else {
      var c := Schedule(sha, EMPTY_CHAIN, events[..k]);
      StateMirrors(sha, events, k);
      PendingStep(sha, c, events, k);
      assert events[..k + 1] == events[..k] + [events[k]];
      ScheduleSnoc(sha, EMPTY_CHAIN, events[..k], events[k]);
      SurvivorsAre(sha, events, k + 1);
      SurvivorsStep(events, k);
    }
  }

  /** The committed rows hold exactly what transactions inserted that went on to commit, in the order of the inserts:
      identifiers, texts and unhashed columns. */
  lemma CommittedRowsAreSurvivors(sha: Sha, events: seq<Event>)
    ensures Contents(Schedule(sha, EMPTY_CHAIN, events).rows) == Survivors(events, 0)
  {
    hide Next, Survivors, Contents;
    SurvivorsAre(sha, events, 0);
    assert events[..0] == [];
    AllSurvived(EMPTY_CHAIN, events);
    NoContents();
  }

  /** A rollback leaves rows and head as they were, and its transaction without lock or row. */
  lemma RollbackUndoes(sha: Sha, events: seq<Event>, tx: nat)
    ensures var c := Schedule(sha, EMPTY_CHAIN, events);
      var d := Schedule(sha, EMPTY_CHAIN, events + [Rollback(tx)]);
      && d.rows == c.rows && d.head == c.head && d.nextId == c.nextId
      && d.holder != Some(tx) && tx !in d.drafts && (c.holder == Some(tx) ==> d.own == [])
  {
    hide Schedule;
    ScheduleSnoc(sha, EMPTY_CHAIN, events, Rollback(tx));
  }

  /** Rows committed once stay, in place. */
  lemma {:induction false} CommittedStay(sha: Sha, c: Chain, events: seq<Event>)
    ensures c.rows <= Schedule(sha, c, events).rows
    decreases |events|
  {
    hide Tip, Linked;
    if events != [] {
      CommittedStay(sha, Next(sha, c, events[0]), events[1..]);
    }
  }

  lemma {:induction false} CommitsBefore(rest: seq<Event>, tx: nat)
    requires forall i :: 0 <= i < |rest| ==> !Ends(rest[i], tx)
    ensures Commits(rest + [Commit(tx)], tx)
    decreases |rest|
  {
    if rest == [] {
      assert rest + [Commit(tx)] == [Commit(tx)];
    } else {
      assert (rest + [Commit(tx)])[1..] == rest[1..] + [Commit(tx)];
      CommitsBefore(rest[1..], tx);
    }
  }

  lemma {:induction false} SurvivorIn(events: seq<Event>, from: nat, k: nat)
    requires from <= k < |events| && Kept(events, k)
    ensures Waiting(events[..k], events[k].tx).value in Survivors(events, from)
    decreases k - from
  {
    hide Kept, Waiting;
    assert Waiting(events[..k], events[k].tx).Some? by { KeptWaits(events, k); }
    if from < k {
      SurvivorIn(events, from + 1, k);
    }
  }

  lemma KeptWaits(events: seq<Event>, k: nat)
    requires k < |events| && Kept(events, k)
    ensures Waiting(events[..k], events[k].tx).Some?
  {
    hide Waiting, Locking;
  }

  /** A commit keeps every row its transaction inserted since it last ended. */
  lemma CommitKeepsAll(sha: Sha, events: seq<Event>, k: nat, tx: nat)
    requires k < |events| && events[k] == Append(tx) && Granted(events[..k], tx)
    requires forall i :: k < i < |events| ==> !Ends(events[i], tx)
    ensures Waiting(events[..k], tx).Some?
    ensures Waiting(events[..k], tx).value in Contents(Schedule(sha, EMPTY_CHAIN, events + [Commit(tx)]).rows)
  {
    hide Schedule, Waiting, Locking, Contents, Survivors;
    var all := events + [Commit(tx)];
    assert all[..k] == events[..k] && all[k + 1..] == events[k + 1..] + [Commit(tx)];
    CommitsBefore(events[k + 1..], tx);
    SurvivorIn(all, 0, k);
    CommittedRowsAreSurvivors(sha, all);
  }

  // ---- Commitment ---------------------------------------------------------------------------------

  lemma InputIn(rows: seq<Row>, i: nat)
    requires i < |rows|
    ensures Input(rows[i]) in Inputs(rows)
  {
    assert rows[i] in rows;
  }

  /** Equal hashes mean equal predecessors and equal texts. */
  lemma SameHash(sha: Sha, inputs: set<string>, a: Row, b: Row)
    requires CollisionFree(sha, inputs) && Input(a) in inputs && Input(b) in inputs && |a.prev| == |b.prev|
    requires a.hash == sha(Input(a)) && b.hash == sha(Input(b)) && a.hash == b.hash
    ensures a.prev == b.prev && a.text == b.text
  {
    assert Input(a) == Input(b);
    assert a.prev == Input(a)[..|a.prev|] && b.prev == Input(b)[..|b.prev|];
    assert a.text == Input(a)[|a.prev|..] && b.text == Input(b)[|b.prev|..];
  }

  lemma PrevWidth(sha: Sha, rows: seq<Row>, i: nat)
    requires Width(sha) && Path(sha, ZERO, rows) && i < |rows|
    ensures |rows[i].prev| == HASH_WIDTH
    ensures i > 0 ==> rows[i].prev == rows[i - 1].hash
    ensures rows[i].hash == sha(Input(rows[i]))
  {
  }

  /** Two chains that end in the same hash have the same length and agree on every hashed text. */
  lemma {:induction false} HeadCommits(sha: Sha, inputs: set<string>, a: seq<Row>, b: seq<Row>)
    requires Width(sha) && CollisionFree(sha, inputs) && Inputs(a) <= inputs && Inputs(b) <= inputs
    requires Path(sha, ZERO, a) && Path(sha, ZERO, b) && EndOf(ZERO, a) == EndOf(ZERO, b)
    ensures |a| == |b|
    ensures forall i :: 0 <= i < |a| ==> a[i].text == b[i].text && a[i].prev == b[i].prev && a[i].hash == b[i].hash
    decreases |a|
  {
    hide Inputs, Width;
    if a == [] {
      if b != [] {
        NeverZero(sha, inputs, b);
        assert false;
      }
    } else if b == [] {
      NeverZero(sha, inputs, a);
      assert false;
    } else {
      var (m, n) := (|a| - 1, |b| - 1);
      InputIn(a, m);
      InputIn(b, n);
      PrevWidth(sha, a, m);
      PrevWidth(sha, b, n);
      SameHash(sha, inputs, a[m], b[n]);
      FrontInputs(a);
      FrontInputs(b);
      HeadCommits(sha, inputs, a[..m], b[..n]);
    }
  }

  lemma FrontInputs(rows: seq<Row>)
    requires rows != []
    ensures Inputs(rows[..|rows| - 1]) <= Inputs(rows)
  {
  }

  lemma NeverZero(sha: Sha, inputs: set<string>, rows: seq<Row>)
    requires CollisionFree(sha, inputs) && Inputs(rows) <= inputs && Path(sha, ZERO, rows) && rows != []
    ensures EndOf(ZERO, rows) != ZERO
  {
    hide Inputs;
    InputIn(rows, |rows| - 1);
  }

  /** The hashes of a chain are pairwise distinct. */
  lemma {:induction false} HashesDistinct(sha: Sha, rows: seq<Row>, i: nat, j: nat)
    requires Width(sha) && CollisionFree(sha, Inputs(rows)) && Path(sha, ZERO, rows) && i < j < |rows|
    ensures rows[i].hash != rows[j].hash
    decreases i
  {
    hide Inputs, Width;
    if rows[i].hash == rows[j].hash {
      InputIn(rows, i);
      InputIn(rows, j);
      InputIn(rows, j - 1);
      PrevWidth(sha, rows, i);
      PrevWidth(sha, rows, j);
      SameHash(sha, Inputs(rows), rows[i], rows[j]);
      if i > 0 {
        HashesDistinct(sha, rows, i - 1, j - 1);
      }
      assert false;
    }
  }

  // ---- The verifier -------------------------------------------------------------------------------

  datatype Verdict = Intact | ContentBroken(id: nat) | LinkBroken(id: nat) | Truncated

  function InsertById(r: Row, rows: seq<Row>): seq<Row> {
    if rows == [] || r.id < rows[0].id then [r] + rows else [rows[0]] + InsertById(r, rows[1..])
  }

  /** The table in identifier order. */
  function ById(rows: seq<Row>): seq<Row> {
    if rows == [] then [] else InsertById(rows[|rows| - 1], ById(rows[..|rows| - 1]))
  }

  /** The first row, in the given order, that fails a check. */
  function FirstBroken(sha: Sha, before: Hash, rows: seq<Row>): Verdict
    decreases |rows|
  {
    if rows == [] then Intact
    else if sha(Input(rows[0])) != rows[0].hash then ContentBroken(rows[0].id)
    else if rows[0].prev != before then LinkBroken(rows[0].id)
    else FirstBroken(sha, rows[0].hash, rows[1..])
  }

  /** `verifyChain`: the rows in identifier order, then the count against the head. */
  function VerifyChain(sha: Sha, rows: seq<Row>, count: nat): Verdict {
    var first := FirstBroken(sha, ZERO, ById(rows));
    if first != Intact then first else if count != |rows| then Truncated else Intact
  }

  lemma {:induction false} IntactIsPath(sha: Sha, before: Hash, rows: seq<Row>)
    ensures FirstBroken(sha, before, rows) == Intact <==> Path(sha, before, rows)
    decreases |rows|
  {
    if rows != [] {
      hide Path;
      var rest := rows[1..];
      IntactIsPath(sha, rows[0].hash, rest);
      PathHead(sha, before, rows);
    } else {
      EmptyPath(sha, before);
    }
  }

  /** A path is a first row that checks and a path from its hash. */
  lemma PathHead(sha: Sha, before: Hash, rows: seq<Row>)
    requires rows != []
    ensures Path(sha, before, rows) <==>
      rows[0].prev == before && rows[0].hash == sha(Input(rows[0])) && Path(sha, rows[0].hash, rows[1..])
  {
    var rest := rows[1..];
    if Path(sha, before, rows) {
      forall i, j | 0 <= i && j == i + 1 < |rest|
        ensures rest[j].prev == rest[i].hash
      {
        assert rows[j + 1].prev == rows[j].hash;
      }
    }
    if Path(sha, rows[0].hash, rest) && rows[0].prev == before && rows[0].hash == sha(Input(rows[0])) {
      assert [rows[0]] + rest == rows;
      assert Path(sha, before, [rows[0]]);
      PathConcat(sha, before, [rows[0]], rest);
    }
  }

  ghost predicate Sorted(rows: seq<Row>) {
    forall i, j :: 0 <= i < j < |rows| ==> rows[i].id < rows[j].id
  }

  lemma {:induction false} InsertMembers(r: Row, rows: seq<Row>, x: Row)
    ensures |InsertById(r, rows)| == |rows| + 1
    ensures x in InsertById(r, rows) <==> x == r || x in rows
  {
    if rows != [] && r.id >= rows[0].id {
      InsertMembers(r, rows[1..], x);
      assert x in rows <==> x == rows[0] || x in rows[1..];
    }
  }

  lemma {:induction false} ByIdMembers(rows: seq<Row>, x: Row)
    ensures |ById(rows)| == |rows| && (x in ById(rows) <==> x in rows)
  {
    if rows != [] {
      ByIdMembers(rows[..|rows| - 1], x);
      InsertMembers(rows[|rows| - 1], ById(rows[..|rows| - 1]), x);
      assert rows == rows[..|rows| - 1] + [rows[|rows| - 1]];
    }
  }

  lemma {:induction false} InsertSorted(r: Row, rows: seq<Row>)
    requires Sorted(rows) && forall i :: 0 <= i < |rows| ==> rows[i].id != r.id
    ensures Sorted(InsertById(r, rows))
  {
    if rows != [] && r.id >= rows[0].id {
      var rest := InsertById(r, rows[1..]);
      InsertSorted(r, rows[1..]);
      forall j | 0 <= j < |rest|
        ensures rows[0].id < rest[j].id
      {
        InsertMembers(r, rows[1..], rest[j]);
        if rest[j] in rows[1..] {
          var k :| 0 <= k < |rows[1..]| && rows[1..][k] == rest[j];
          assert rows[k + 1] == rest[j];
        }
      }
    }
  }

  lemma {:induction false} ByIdSorted(rows: seq<Row>)
    requires forall i, j :: 0 <= i < j < |rows| ==> rows[i].id != rows[j].id
    ensures Sorted(ById(rows))
  {
    if rows != [] {
      var (front, last) := (rows[..|rows| - 1], rows[|rows| - 1]);
      ByIdSorted(front);
      forall i | 0 <= i < |ById(front)|
        ensures ById(front)[i].id != last.id
      {
        ByIdMembers(front, ById(front)[i]);
        var k :| 0 <= k < |front| && front[k] == ById(front)[i];
        assert rows[k].id != last.id;
      }
      InsertSorted(last, ById(front));
    }
  }

  lemma {:induction false} InsertLast(r: Row, rows: seq<Row>)
    requires forall i :: 0 <= i < |rows| ==> rows[i].id < r.id
    ensures InsertById(r, rows) == rows + [r]
  {
    if rows != [] {
      InsertLast(r, rows[1..]);
    }
  }

  lemma {:induction false} SortedStays(rows: seq<Row>)
    requires Sorted(rows)
    ensures ById(rows) == rows
  {
    if rows != [] {
      var (front, last) := (rows[..|rows| - 1], rows[|rows| - 1]);
      SortedStays(front);
      InsertLast(last, front);
    }
  }

  /** Two paths over the same rows are the same sequence. */
  lemma {:induction false} OnePathOnly(sha: Sha, rows: seq<Row>, other: seq<Row>, k: nat)
    requires Width(sha) && CollisionFree(sha, Inputs(rows)) && Path(sha, ZERO, rows) && Path(sha, ZERO, other)
    requires |other| == |rows| && (forall i :: 0 <= i < |other| ==> other[i] in rows) && k < |rows|
    ensures other[k] == rows[k]
    decreases k
  {
    hide Inputs, Width;
    var m :| 0 <= m < |rows| && rows[m] == other[k];
    PrevWidth(sha, rows, m);
    PrevWidth(sha, other, k);
    if k == 0 {
      if m > 0 {
        InputIn(rows, m - 1);
        assert false;
      }
    } else {
      OnePathOnly(sha, rows, other, k - 1);
      InputIn(rows, k - 1);
      assert m > 0;
      if m < k {
        HashesDistinct(sha, rows, m - 1, k - 1);
      } else if m > k {
        HashesDistinct(sha, rows, k - 1, m - 1);
      }
    }
  }

  /** The verifier reports a chain intact exactly when its identifier order is its chain order. Identifiers are drawn
      before the lock is taken, so a schedule can commit rows out of identifier order. */
  lemma IntactIffInOrder(sha: Sha, events: seq<Event>)
    requires Width(sha) && CollisionFree(sha, Inputs(Schedule(sha, EMPTY_CHAIN, events).rows))
    ensures var c := Schedule(sha, EMPTY_CHAIN, events);
      VerifyChain(sha, c.rows, c.head.count) == Intact <==> Sorted(c.rows)
  {
    hide Inputs, Next, Path, Width, Schedule;
    CommittedRowsFormOnePath(sha, events);
    var rows := Schedule(sha, EMPTY_CHAIN, events).rows;
    var s := ById(rows);
    IntactIsPath(sha, ZERO, s);
    ByIdSorted(rows);
    forall i | 0 <= i < |s|
      ensures s[i] in rows
    {
      ByIdMembers(rows, s[i]);
    }
    assert |s| == |rows| by { ByIdLength(rows); }
    if Sorted(rows) {
      SortedStays(rows);
    }
    if Path(sha, ZERO, s) {
      forall k | 0 <= k < |rows|
        ensures s[k] == rows[k]
      {
        OnePathOnly(sha, rows, s, k);
      }
      assert s == rows;
    }
  }

  lemma ByIdLength(rows: seq<Row>)
    ensures |ById(rows)| == |rows|
  {
    if rows != [] {
      ByIdMembers(rows, rows[0]);
    }
  }

  const CROSSED: seq<Event> := [Draw(1, "a", ""), Draw(2, "b", ""), Append(2), Commit(2), Append(1), Commit(1)]

  /** Two concurrent transactions suffice to commit rows out of identifier order. */
  lemma OutOfOrderHappens(sha: Sha)
    ensures var rows := Schedule(sha, EMPTY_CHAIN, CROSSED).rows; |rows| == 2 && rows[0].id == 2 && rows[1].id == 1
  {
    var e := CROSSED;
    var c0 := EMPTY_CHAIN;
    var c1 := Next(sha, c0, e[0]);
    var c2 := Next(sha, c1, e[1]);
    var c3 := Next(sha, c2, e[2]);
    var c4 := Next(sha, c3, e[3]);
    var c5 := Next(sha, c4, e[4]);
    var c6 := Next(sha, c5, e[5]);
    assert e[6..] == [];
    assert Schedule(sha, c6, e[6..]) == c6;
    ScheduleStep(sha, c5, e, 5);
    ScheduleStep(sha, c4, e, 4);
    ScheduleStep(sha, c3, e, 3);
    ScheduleStep(sha, c2, e, 2);
    ScheduleStep(sha, c1, e, 1);
    ScheduleStep(sha, c0, e, 0);
    assert e[0..] == e;
  }

  lemma ScheduleStep(sha: Sha, c: Chain, events: seq<Event>, k: nat)
    requires k < |events|
    ensures Schedule(sha, c, events[k..]) == Schedule(sha, Next(sha, c, events[k]), events[k + 1..])
  {
    assert events[k..][0] == events[k] && events[k..][1..] == events[k + 1..];
  }

  // ---- Tampering ----------------------------------------------------------------------------------

  lemma {:induction false} BrokenAfter(sha: Sha, before: Hash, good: seq<Row>, rest: seq<Row>)
    requires Path(sha, before, good)
    ensures FirstBroken(sha, before, good + rest) == FirstBroken(sha, EndOf(before, good), rest)
    decreases |good|
  {
    if good == [] {
      assert good + rest == rest;
    } else {
      var tail := good[1..];
      assert (good + rest)[1..] == tail + rest;
      assert forall i :: 0 <= i < |tail| ==> tail[i] == good[i + 1];
      BrokenAfter(sha, good[0].hash, tail, rest);
    }
  }

  lemma PathParts(sha: Sha, rows: seq<Row>, i: nat)
    requires Path(sha, ZERO, rows) && i <= |rows|
    ensures Path(sha, ZERO, rows[..i]) && Path(sha, EndOf(ZERO, rows[..i]), rows[i..])
  {
  }

  lemma SortedPart(rows: seq<Row>, other: seq<Row>)
    requires Sorted(rows) && (exists i: nat, j: nat :: i <= j <= |rows| && other == rows[..i] + rows[j..])
    ensures Sorted(other)
  {
  }

  /** A chain as the program leaves it when rows committed in identifier order. */
  ghost predicate Orderly(sha: Sha, rows: seq<Row>) {
    Width(sha) && CollisionFree(sha, Inputs(rows)) && Path(sha, ZERO, rows) && Sorted(rows)
  }

  /** Cutting out a block before the tail is reported at the first surviving row after the gap. */
  lemma ExcisionFound(sha: Sha, rows: seq<Row>, i: nat, j: nat, count: nat)
    requires Orderly(sha, rows) && i < j < |rows|
    ensures VerifyChain(sha, rows[..i] + rows[j..], count) == LinkBroken(rows[j].id)
  {
    hide Inputs, Width, Path;
    var left := rows[..i] + rows[j..];
    SortedPart(rows, left);
    SortedStays(left);
    PathParts(sha, rows, i);
    BrokenAfter(sha, ZERO, rows[..i], rows[j..]);
    PrevWidth(sha, rows, j);
    assert rows[j..][0] == rows[j];
    InputIn(rows, j - 1);
    PrevWidth(sha, rows, j - 1);
    if i > 0 {
      HashesDistinct(sha, rows, i - 1, j - 1);
      assert EndOf(ZERO, rows[..i]) == rows[i - 1].hash;
    }
  }

  /** Cutting off the tail is found by the count alone. */
  lemma TruncationFound(sha: Sha, rows: seq<Row>, i: nat)
    requires Orderly(sha, rows) && i < |rows|
    ensures FirstBroken(sha, ZERO, ById(rows[..i])) == Intact && VerifyChain(sha, rows[..i], |rows|) == Truncated
  {
    hide Inputs, Width, Path;
    PathParts(sha, rows, i);
    SortedStays(rows[..i]);
    IntactIsPath(sha, ZERO, rows[..i]);
  }

  function Edited(rows: seq<Row>, k: nat, r: Row): seq<Row>
    requires k < |rows|
  {
    rows[..k] + [r] + rows[k + 1..]
  }

  lemma EditedOrder(rows: seq<Row>, k: nat, r: Row)
    requires Sorted(rows) && k < |rows| && r.id == rows[k].id
    ensures ById(Edited(rows, k, r)) == rows[..k] + ([r] + rows[k + 1..])
  {
    var e := Edited(rows, k, r);
    assert forall i :: 0 <= i < |e| ==> e[i].id == rows[i].id;
    SortedStays(e);
    assert e == rows[..k] + ([r] + rows[k + 1..]);
  }

  /** Changing the hashed text of a row and leaving its hash is reported at that row. */
  lemma EditFound(sha: Sha, rows: seq<Row>, k: nat, text: string, count: nat)
    requires Orderly(sha, rows) && k < |rows| && text != rows[k].text
    requires CollisionFree(sha, Inputs(rows) + {rows[k].prev + text})
    ensures VerifyChain(sha, Edited(rows, k, rows[k].(text := text)), count) == ContentBroken(rows[k].id)
  {
    hide Inputs, Width, Path;
    var r := rows[k].(text := text);
    EditedOrder(rows, k, r);
    PathParts(sha, rows, k);
    BrokenAfter(sha, ZERO, rows[..k], [r] + rows[k + 1..]);
    InputIn(rows, k);
    PrevWidth(sha, rows, k);
    if sha(Input(r)) == r.hash {
      var inputs := Inputs(rows) + {rows[k].prev + text};
      assert Input(r) in inputs && Input(rows[k]) in inputs;
      SameHash(sha, inputs, r, rows[k]);
      assert false;
    }
  }

  /** Rewriting a row together with its hash is found at the row after it, so exactly when it is not the last: the
      head's hash is not compared. */
  lemma RewriteFound(sha: Sha, rows: seq<Row>, k: nat, text: string)
    requires Orderly(sha, rows) && k < |rows| && text != rows[k].text
    requires CollisionFree(sha, Inputs(rows) + {rows[k].prev + text})
    ensures var r := rows[k].(text := text, hash := sha(rows[k].prev + text));
      VerifyChain(sha, Edited(rows, k, r), |rows|) == if k + 1 < |rows| then LinkBroken(rows[k + 1].id) else Intact
  {
    hide Inputs, Width, Path;
    var r := rows[k].(text := text, hash := sha(rows[k].prev + text));
    EditedOrder(rows, k, r);
    PathParts(sha, rows, k);
    var rest := rows[k + 1..];
    BrokenAfter(sha, ZERO, rows[..k], [r] + rest);
    PrevIsEnd(sha, rows, k);
    assert ([r] + rest)[1..] == rest;
    assert FirstBroken(sha, rows[k].prev, [r] + rest) == FirstBroken(sha, r.hash, rest);
    if k + 1 < |rows| {
      InputIn(rows, k);
      PrevWidth(sha, rows, k);
      PrevWidth(sha, rows, k + 1);
      assert rest[0] == rows[k + 1];
      if r.hash == rows[k].hash {
        var inputs := Inputs(rows) + {rows[k].prev + text};
        assert Input(r) in inputs && Input(rows[k]) in inputs;
        SameHash(sha, inputs, r, rows[k]);
        assert false;
      }
    } else {
      assert rest == [];
    }
  }

  lemma PrevIsEnd(sha: Sha, rows: seq<Row>, k: nat)
    requires Path(sha, ZERO, rows) && k < |rows|
    ensures EndOf(ZERO, rows[..k]) == rows[k].prev
  {
  }

  /** What a row does not hash, its address and user agent, can be changed without notice. */
  lemma ExtraUnprotected(sha: Sha, rows: seq<Row>, k: nat, extra: string)
    requires Path(sha, ZERO, rows) && Sorted(rows) && k < |rows|
    ensures VerifyChain(sha, Edited(rows, k, rows[k].(extra := extra)), |rows|) == Intact
  {
    hide FirstBroken, ById, Sorted;
    var r := rows[k].(extra := extra);
    EditedOrder(rows, k, r);
    var e := Edited(rows, k, r);
    assert e == rows[..k] + ([r] + rows[k + 1..]) && |e| == |rows|;
    SamePath(sha, ZERO, rows, e);
    IntactIsPath(sha, ZERO, e);
  }

  /** A path is a matter of links, texts and hashes. */
  lemma SamePath(sha: Sha, start: Hash, a: seq<Row>, b: seq<Row>)
    requires Path(sha, start, a) && |b| == |a|
    requires forall i :: 0 <= i < |a| ==> b[i].prev == a[i].prev && b[i].hash == a[i].hash && b[i].text == a[i].text
    ensures Path(sha, start, b)
  {
    forall i, j | 0 <= i && j == i + 1 < |b|
      ensures b[j].prev == b[i].hash
    {
      assert a[j].prev == a[i].hash;
    }
    forall i | 0 <= i < |b|
      ensures b[i].hash == sha(Input(b[i]))
    {
      assert Input(b[i]) == Input(a[i]);
    }
  }

  // ---- The table ----------------------------------------------------------------------------------

  /** The audit table of one chain with its trigger. */
  class AuditTable {
    const sha: Sha
    var rows: seq<Row>
    var headHash: Hash
    var recordCount: nat
    var holder: Option<nat>
    var own: seq<Row>
    var drafts: map<nat, Draft>
    var nextId: nat

    function State(): Chain
      reads this
    {
      Chain(rows, Head(headHash, recordCount), holder, own, drafts, nextId)
    }

    constructor (sha: Sha)
      ensures State() == EMPTY_CHAIN && this.sha == sha
    {
      this.sha := sha;
      rows, headHash, recordCount := [], ZERO, 0;
      holder, own, drafts, nextId := None, [], map[], 1;
    }

    /** The sequence default of `id`, evaluated before the trigger runs. */
    method DrawId(tx: nat, text: string, extra: string)
      modifies this
      ensures State() == Next(sha, old(State()), Draw(tx, text, extra))
    {
      if tx !in drafts {
        drafts := drafts[tx := Draft(nextId, text, extra)];
        nextId := nextId + 1;
      }
    }

    /** The trigger, once the head lock is granted: read the head, set both hashes, move the head. The holder's working
        head is the hash of its last row. */
    method InsertRow(tx: nat) returns (granted: bool)
      modifies this
      ensures State() == Next(sha, old(State()), Append(tx))
      ensures granted == MayAppend(old(State()), tx)
    {
      if tx !in drafts || (holder.Some? && holder.value != tx) {
        return false;
      }
      holder := Some(tx);
      var prev := if own == [] then headHash else own[|own| - 1].hash;
      var d := drafts[tx];
      own := own + [Row(d.id, d.text, d.extra, prev, sha(prev + d.text))];
      drafts := drafts - {tx};
      return true;
    }

    method CommitTransaction(tx: nat)
      modifies this
      ensures State() == Next(sha, old(State()), Commit(tx))
    {
      if holder == Some(tx) {
        if own != [] {
          headHash := own[|own| - 1].hash;
          recordCount := recordCount + |own|;
        }
        rows := rows + own;
        holder, own := None, [];
      }
      drafts := drafts - {tx};
    }

    method RollbackTransaction(tx: nat)
      modifies this
      ensures State() == Next(sha, old(State()), Rollback(tx))
    {
      if holder == Some(tx) {
        holder, own := None, [];
      }
      drafts := drafts - {tx};
    }
  }
}
