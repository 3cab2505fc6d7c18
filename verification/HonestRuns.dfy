/** What an honest ceremony achieves: whenever it is a party's turn, it commits, and three of them complete the
    agreement. */
module HonestRuns {
  import opened Text
  import opened PdfObjects
  import opened IncrementalSigner
  import opened StateMachine
  import opened SigningProofs
  import opened SigningLayout
  import opened SigningTheorems
  import opened Verifier
  import opened Preservation
  import opened SignatureRuns
  import Ceremonies
  import opened Executions
  import opened Protocol
  import opened ProtocolSafety
  import opened ProtocolLedger
  import opened VersionAccounting
  import SampleDocument

  // ---- One slot -----------------------------------------------------------------------------------

  /** The signature is in definite form, fits its gap and commits to the content it was asked to sign. */
  ghost predicate Signs(commits: Commitment, src: string, opts: Appearance, der: seq<byte>) {
    && DefiniteLength(der) && |der| <= opts.reserved
    && (Prepare(src, opts).Ok? ==> commits(der, Prepare(src, opts).value.signedContent))
  }

  const GROWTH := 4000000

  lemma GrowthBound(buf: string, doc: Index, field: Object, opts: Appearance)
    requires Ready(buf, doc, field, opts) && |buf| < 1000000000
    ensures StartXref(buf).Ok?
    ensures RangeOf(buf, doc, field, opts).b2 + RangeOf(buf, doc, field, opts).b3 <= |buf| + GROWTH
  {
    hide *;
    ReadyParts(buf, doc, field, opts);
    TargetExtendable(buf, doc, field);
    SampleDocument.TenBillion();
    SampleDocument.SmallOf(buf, doc);
    SampleDocument.MidWidth(field, doc.size, opts);
    SampleDocument.PostWidth(buf, doc, field, opts);
    SampleDocument.ReservedBound(opts);
    RangeTotal(buf, doc, field, opts);
  }

  lemma RangeTotal(buf: string, doc: Index, field: Object, opts: Appearance)
    requires StartXref(buf).Ok?
    ensures RangeOf(buf, doc, field, opts).b2 + RangeOf(buf, doc, field, opts).b3 ==
      |buf| + |Mid(field, doc.size, opts)| + 2 * opts.reserved + |Post(buf, doc, field, opts)| + 63
    ensures GROWTH == 4000000
  {
    hide StartXref, Mid, Post;
  }

  /** On a document the first k parties signed, the next party's honest ceremony goes through from end to end: the slot
      is prepared, reopened as it was, filled, and every check passes. */
  lemma HonestSlot(commits: Commitment, base: string, src: string, p: Party, opts: Appearance, der: seq<byte>)
    requires Executed(commits, base, src, Rank(p)) && |src| < 1000000000
    requires GoodOptions(opts) && opts.fieldName == FieldName(p) && Signs(commits, src, opts, der)
    ensures Prepare(src, opts).Ok?
    ensures var slot := Prepare(src, opts).value;
      && Reopen(slot.buffer) == Ok(slot.(sigObjectNumber := -1))
      && Embed(slot.(sigObjectNumber := -1), der).Ok?
      && AssertIntegrity(Embed(slot.(sigObjectNumber := -1), der).value, Rank(p) + 1, commits) == Intact
      && Executed(commits, base, Embed(slot.(sigObjectNumber := -1), der).value, Rank(p) + 1)
      && |Embed(slot.(sigObjectNumber := -1), der).value| <= |src| + GROWTH
  {
    hide *;
    var k := Rank(p);
    var steps := ExecutionOf(commits, base, src, k);
    var doc, nums := ExecutedFacts(commits, base, src, steps);
    SignedPart(commits, base, src, doc, nums, k, p);
    var num := nums[Rank(p)];
    RequestIs(src, doc, num, opts);
    RequestTarget(src, doc, num, opts);
    SignsParts(commits, src, opts, der);
    SampleDocument.OrdinaryFilesWritable(src, doc, FieldOf(src, doc, num), opts);
    GrowthBound(src, doc, FieldOf(src, doc, num), opts);
    PrepareOutcome(src, doc, num, opts);
    ValidNotEmpty(src, commits);
    Ceremonies.ReopenRoundTrip(src, doc, num, opts);
    Ceremonies.CompletedElsewhere(src, doc, num, opts, der);
    SampleDocument.OrdinarySignOutcome(src, doc, num, opts, der);
    var slot := Prepare(src, opts).value.(sigObjectNumber := -1);
    var out := Embed(slot, der).value;
    SucceedsIs(src, doc, num, opts, der);
    SucceedsFresh(src, doc, num, opts, der);
    SlotsAfterSigning(src, doc, num, opts, der);
    NewestRangeIs(src, doc, num, opts);
    Ceremonies.SigningKeepsValid(src, doc, num, opts, der, commits);
    CountOfVerdicts(src, commits);
    IntactIf(out, k + 1, commits);
    SignatureExtends(commits, base, src, k, p, opts, slot, der, out);
  }

  lemma SignsParts(commits: Commitment, src: string, opts: Appearance, der: seq<byte>)
    requires Signs(commits, src, opts, der)
    ensures DefiniteLength(der) && |der| <= opts.reserved
    ensures Prepare(src, opts).Ok? ==> commits(der, Prepare(src, opts).value.signedContent)
  {
    hide Prepare, DefiniteLength;
  }

  lemma IntactIf(pdf: string, expected: nat, commits: Commitment)
    requires |Verify(pdf, commits)| == expected && AllValid(Verify(pdf, commits))
    ensures AssertIntegrity(pdf, expected, commits) == Intact
  {
    hide Verify, AllValid;
  }

  // ---- The steps of a ceremony --------------------------------------------------------------------

  function RoleOf(p: Party): Role {
    match p case Agent => AgentRole case Employee => EmployeeRole case Md => MdRole
  }

  function Waiting(p: Party): Status {
    match p case Agent => ReadyForAgentSignature case Employee => PendingEmployeeSignature case Md => PendingMdSignature
  }

  function AfterSigning(p: Party): Status {
    match p case Agent => PendingEmployeeSignature case Employee => PendingMdSignature case Md => Completed
  }

  /** Only status, counter and log differ. */
  predicate Moved(db: Db, next: Db, status: Status) {
    next == db.(status := status, rowVersion := next.rowVersion, log := next.log)
  }

  lemma MoveDone(db: Db, action: Action, roles: set<Role>)
    requires db.status in RuleOf(action).sources && Holds(roles, action) && !RuleOf(action).requiresReason
    ensures Move(db, action, roles, "").Done? && Moved(db, Move(db, action, roles, "").value, RuleOf(action).target)
  {
    hide RuleOf, Holds;
  }

  lemma InitiateEdge(p: Party)
    ensures RuleOf(InitiateBy(p)).sources == {Waiting(p)} && RuleOf(InitiateBy(p)).target == SigningState(p)
    ensures Holds({RoleOf(p)}, InitiateBy(p)) && !RuleOf(InitiateBy(p)).requiresReason
  {
    assert RoleOf(p) in RuleOf(InitiateBy(p)).roles * {RoleOf(p)};
  }

  lemma SuccessDone(db: Db, p: Party)
    requires db.status == SigningState(p)
    ensures var m := MoveChain(db, [SucceedBy(p)] + AdvanceBy(p), {System});
      m.Done? && Moved(db, m.value, AfterSigning(p))
  {
    SuccessGuard(db, p);
    var actions := [SucceedBy(p)] + AdvanceBy(p);
    MoveChainKeeps(db, actions, {System});
    assert actions[0] == SucceedBy(p) && actions[1..] == AdvanceBy(p);
    var first := Move(db, SucceedBy(p), {System}, "").value;
    ChainTail(first, actions[1..]);
  }

  /** Nothing is parked for the party on the version. */
  ghost predicate NoParked(store: Store, p: Party, version: nat) {
    forall key :: key in store && key.ParkedKey? ==> !(key.party == p && key.version == version)
  }

  /** The party's ceremony is open on a slot: the transaction is the last one and everything else is as before. */
  ghost predicate Opened(env: Env, w: World, next: World, p: Party, slot: PreparedSlot) {
    && |next.db.txs| == |w.db.txs| + 1 && next.db.txs[..|w.db.txs|] == w.db.txs
    && Moved(w.db.(txs := next.db.txs), next.db, SigningState(p))
    && var t := next.db.txs[|w.db.txs|];
    && t.party == p && t.version == w.db.version && t.digest == env.sha(slot.signedContent) && Open(t)
    && t.parked.Some? && t.parked.value.ParkedKey? && t.parked.value.party == p
    && t.parked.value.version == w.db.version
    && t.parked.value !in w.store && next.store == w.store[t.parked.value := slot.buffer]
  }

  lemma StartStep(env: Env, w: World, i: nat, p: Party)
    requires CurrentRow(w.db.rows, w.db.version) == Some(i) && w.db.status == Waiting(p)
    ensures var op := StartOp(p, w.db.rows[i].hash, true, {RoleOf(p)});
      && Enabled(w, op) && OnVersion(w, op)
      && Moved(w.db, Apply(env, w, op).db, SigningState(p)) && Apply(env, w, op).store == w.store
  {
    hide RuleOf, Move, CurrentRow;
    InitiateEdge(p);
    MoveDone(w.db, InitiateBy(p), {RoleOf(p)});
  }

  lemma ParkStep(env: Env, w: World, i: nat, p: Party, opts: Appearance, month: nat)
    requires i < |w.db.rows| && w.db.rows[i].key in w.store && Prepare(w.store[w.db.rows[i].key], opts).Ok?
    requires GoodOptions(opts) && opts.fieldName == FieldName(p) && NoParked(w.store, p, w.db.rows[i].version)
    ensures var slot := Prepare(w.store[w.db.rows[i].key], opts).value; var op := ParkOp(i, p, opts, month);
      var key := ParkedKey(month, w.db.rows[i].version, p, JsSlice(env.sha(slot.signedContent), 0, 16));
      && Enabled(w, op) && OnVersion(w, op) && key !in w.store
      && Apply(env, w, op) == World(w.db, w.store[key := slot.buffer])
  {
    hide Prepare, GoodOptions, JsSlice;
  }

  lemma OpenStep(env: Env, w: World, i: nat, p: Party, digest: string)
    requires i < |w.db.rows| && !HasOpen(w.db.txs, p, w.db.rows[i].version)
    ensures var op := OpenOp(i, p, digest); var next := Apply(env, w, op);
      && Enabled(w, op) && OnVersion(w, op)
      && next == World(w.db.(txs := next.db.txs), w.store) && |next.db.txs| == |w.db.txs| + 1
      && next.db.txs[..|w.db.txs|] == w.db.txs
      && var t := next.db.txs[|w.db.txs|];
      && t.party == p && t.version == w.db.rows[i].version && t.digest == digest && Open(t)
  {
    hide HasOpen, LastAttempt;
  }

  lemma LinkStep(env: Env, w: World, tx: nat, key: Key)
    requires tx < |w.db.txs| && key.ParkedKey? && key in w.store && key.party == w.db.txs[tx].party
    requires key.version == w.db.txs[tx].version
    ensures var op := LinkOp(tx, key);
      && Enabled(w, op) && OnVersion(w, op)
      && Apply(env, w, op) == World(w.db.(txs := w.db.txs[tx := w.db.txs[tx].(parked := Some(key))]), w.store)
  {
  }

  /** A party whose turn it is can open its ceremony. */
  lemma Opens(env: Env, w: World, i: nat, p: Party, opts: Appearance, month: nat) returns (ops: seq<Op>, next: World)
    requires CurrentRow(w.db.rows, w.db.version) == Some(i) && w.db.rows[i].key in w.store
    requires Prepare(w.store[w.db.rows[i].key], opts).Ok? && GoodOptions(opts) && opts.fieldName == FieldName(p)
    requires w.db.status == Waiting(p) && !HasOpen(w.db.txs, p, w.db.version) && NoParked(w.store, p, w.db.version)
    ensures Run(env, w, true, ops, next)
    ensures Opened(env, w, next, p, Prepare(w.store[w.db.rows[i].key], opts).value)
  {
    hide Prepare, GoodOptions, JsSlice, HasOpen, CurrentRow, NoParked, Apply, Enabled, OnVersion, Run;
    var slot := Prepare(w.store[w.db.rows[i].key], opts).value;
    var digest := env.sha(slot.signedContent);
    var key := ParkedKey(month, w.db.version, p, JsSlice(digest, 0, 16));
    var start := StartOp(p, w.db.rows[i].hash, true, {RoleOf(p)});
    assert w.db.rows[i].version == w.db.version by { CurrentIs(w.db.rows, w.db.version, i); }
    StartStep(env, w, i, p);
    var w1 := Apply(env, w, start);
    ParkStep(env, w1, i, p, opts, month);
    var w2 := Apply(env, w1, ParkOp(i, p, opts, month));
    OpenStep(env, w2, i, p, digest);
    var w3 := Apply(env, w2, OpenOp(i, p, digest));
    LinkStep(env, w3, |w.db.txs|, key);
    next := Apply(env, w3, LinkOp(|w.db.txs|, key));
    RunOne(env, w, true, start);
    RunThen(env, w, true, [start], w1, ParkOp(i, p, opts, month));
    RunThen(env, w, true, [start] + [ParkOp(i, p, opts, month)], w2, OpenOp(i, p, digest));
    RunThen(env, w, true, [start] + [ParkOp(i, p, opts, month)] + [OpenOp(i, p, digest)], w3, LinkOp(|w.db.txs|, key));
    ops := [start] + [ParkOp(i, p, opts, month)] + [OpenOp(i, p, digest)] + [LinkOp(|w.db.txs|, key)];
    assert next.db.txs[..|w.db.txs|] == w3.db.txs[..|w.db.txs|];
  }

  lemma CurrentIs(rows: seq<VersionRow>, version: nat, i: nat)
    requires CurrentRow(rows, version) == Some(i)
    ensures i < |rows| && rows[i].version == version
  {
    hide CurrentRow;
  }

  /** The row and the file a completion would write are free. */
  predicate Free(w: World, version: nat, p: Party, month: nat) {
    var key := ObjectKey(month, version, SignedCopy(p));
    key !in w.store && !HasFile(w.db.documents, key) && !HasVersion(w.db.rows, version, SignedBy(p))
  }

  /** The world after a completion that commits. */
  ghost predicate Committed(env: Env, w: World, next: World, tx: nat, seen: nat, month: nat, signed: string)
    requires tx < |w.db.txs|
  {
    var p := w.db.txs[tx].party; var key := ObjectKey(month, seen, SignedCopy(p)); var hash := env.sha(signed);
    && next.store == w.store[key := signed]
    && Moved(w.db.(rows := w.db.rows + [VersionRow(seen, SignedBy(p), hash, key)],
                   documents := w.db.documents + [DocumentRow(SignedCopy(p), key, hash, |signed|)],
                   txs := w.db.txs[tx := w.db.txs[tx].(status := TxSigned)]), next.db, AfterSigning(p))
  }

  /** What a completion does when nothing stands in its way, whatever version it read. */
  lemma Completes(env: Env, w: World, tx: nat, seen: nat, der: seq<byte>, month: nat, signed: string)
    requires tx < |w.db.txs| && SignParked(env, w.store, w.db.txs[tx], der) == Done(signed)
    requires Free(w, seen, w.db.txs[tx].party, month) && w.db.status == SigningState(w.db.txs[tx].party)
    requires 1 <= seen <= w.db.version
    ensures var op := CompleteOp(tx, seen, der, month);
      && Enabled(w, op) && CompleteEffect(env, w, tx, seen, der, month).db.Done?
      && Committed(env, w, Apply(env, w, op), tx, seen, month, signed)
  {
    hide SignParked, HasFile, HasVersion, MoveChain;
    var t := w.db.txs[tx];
    var stored := StoreDocument(env, w.store, w.db, month, seen, SignedCopy(t.party), Some(SignedBy(t.party)), signed);
    SuccessDone(WithStatus(stored.db.value, tx, TxSigned), t.party);
  }

  /** A slot parked on a document the first k parties signed can be filled, whatever else happened since. */
  lemma ParkedFills(env: Env, base: string, src: string, store: Store, t: Transaction, opts: Appearance, der: seq<byte>)
    returns (signed: string)
    requires Executed(env.commits, base, src, Rank(t.party)) && |src| < 1000000000
    requires GoodOptions(opts) && opts.fieldName == FieldName(t.party) && Signs(env.commits, src, opts, der)
    requires t.parked.Some? && t.parked.value in store && Prepare(src, opts).Ok?
    requires store[t.parked.value] == Prepare(src, opts).value.buffer
    requires t.digest == env.sha(Prepare(src, opts).value.signedContent)
    ensures SignParked(env, store, t, der) == Done(signed)
    ensures Executed(env.commits, base, signed, Rank(t.party) + 1) && |signed| <= |src| + GROWTH
  {
    hide Executed, GoodOptions, Signs, Prepare, Reopen, Embed, AssertIntegrity;
    HonestSlot(env.commits, base, src, t.party, opts, der);
    signed := Embed(Prepare(src, opts).value.(sigObjectNumber := -1), der).value;
  }

  // ---- Whose turn it is ---------------------------------------------------------------------------

  function StatusAt(k: nat): Status {
    if k == 0 then ReadyForAgentSignature else if k == 1 then PendingEmployeeSignature else if k ==
      2 then PendingMdSignature else Completed
  }

  function StateAt(k: nat): DocState {
    if k == 0 then Unsigned else if k == 1 then SignedBy(Agent) else if k == 2 then SignedBy(Employee) else SignedBy(Md)
  }

  /** Everything belongs to versions opened so far. */
  ghost predicate Within(w: World) {
    && w.db.version >= 1
    && (forall key :: key in w.store ==> key.version <= w.db.version)
    && (forall i :: 0 <= i < |w.db.documents| ==> w.db.documents[i].key.version <= w.db.version)
    && (forall i :: 0 <= i < |w.db.rows| ==> w.db.rows[i].version <= w.db.version)
    && (forall i :: 0 <= i < |w.db.txs| ==> w.db.txs[i].version <= w.db.version)
    && forall i :: 0 <= i < |w.db.closed| ==> w.db.closed[i].version < w.db.version
  }

  /** The party has nothing on the current version yet. */
  ghost predicate Clear(w: World, p: Party, month: nat) {
    Free(w, w.db.version, p, month) && NoParked(w.store, p, w.db.version) && !HasOpen(w.db.txs, p, w.db.version)
  }

  /** The current document of the current version. */
  ghost predicate Shows(w: World, i: nat, bytes: string) {
    && CurrentRow(w.db.rows, w.db.version) == Some(i) && w.db.rows[i].key in w.store
    && w.store[w.db.rows[i].key] == bytes
  }

  /** The first k parties have signed the current version, whose prepared document is `base`; the next one's turn it
      is. */
  ghost predicate Reached(env: Env, w: World, base: string, bytes: string, k: nat, month: nat) {
    && k <= 3 && Within(w) && w.db.status == StatusAt(k)
    && (exists i: nat :: Shows(w, i, bytes) && i < |w.db.rows| && w.db.rows[i].state == StateAt(k))
    && Executed(env.commits, base, bytes, k) && |bytes| <= |base| + k * GROWTH
    && forall p: Party :: Rank(p) >= k ==> Clear(w, p, month)
  }

  /** What was free on an earlier version still is. */
  ghost predicate KeepsFree(w: World, next: World, month: nat) {
    forall u: nat, p: Party :: u < w.db.version && Free(w, u, p, month) ==> Free(next, u, p, month)
  }

  lemma OpenedFree(env: Env, w: World, next: World, p: Party, slot: PreparedSlot, month: nat)
    requires Opened(env, w, next, p, slot)
    ensures KeepsFree(w, next, month)
  {
    hide HasFile, HasVersion;
  }

  lemma CommittedFree(env: Env, w: World, next: World, tx: nat, month: nat, signed: string)
    requires tx < |w.db.txs| && Committed(env, w, next, tx, w.db.version, month, signed)
    ensures KeepsFree(w, next, month)
  {
    hide HasFile, HasVersion, Free;
    forall u: nat, p: Party | u < w.db.version && Free(w, u, p, month)
      ensures Free(next, u, p, month)
    {
      FreeAdded(w, next, u, p, month);
    }
  }

  /** Rows, files and objects of another version do not count. */
  lemma FreeAdded(w: World, next: World, u: nat, p: Party, month: nat)
    requires Free(w, u, p, month)
    requires forall key :: key in next.store && key !in w.store ==> key.version != u
    requires w.db.rows <= next.db.rows && forall i :: |w.db.rows| <= i < |next.db.rows| ==> next.db.rows[i].version != u
    requires w.db.documents <= next.db.documents
    requires forall i :: |w.db.documents| <= i < |next.db.documents| ==> next.db.documents[i].key.version != u
    ensures Free(next, u, p, month)
  {
    var key := ObjectKey(month, u, SignedCopy(p));
    forall i | 0 <= i < |next.db.rows| && next.db.rows[i].version == u
      ensures next.db.rows[i].state != SignedBy(p)
    {
      assert next.db.rows[i] == w.db.rows[i];
    }
    forall i | 0 <= i < |next.db.documents|
      ensures next.db.documents[i].key != key
    {
      if i < |w.db.documents| {
        assert next.db.documents[i] == w.db.documents[i];
      }
    }
  }

  lemma KeepsFreeOn(a: World, b: World, c: World, month: nat)
    requires KeepsFree(a, b, month) && KeepsFree(b, c, month) && a.db.version == b.db.version
    ensures KeepsFree(a, c, month)
  {
    hide Free;
  }

  /** Later worlds keep what is there and add only what belongs to the current version. */
  ghost predicate Extends(w: World, next: World) {
    && next.db.version == w.db.version && next.db.closed == w.db.closed
    && w.db.rows <= next.db.rows && |w.db.txs| <= |next.db.txs| && next.db.txs[..|w.db.txs|] == w.db.txs
    && Grows(w.store, next.store)
  }

  lemma ReachedTurn(env: Env, w: World, base: string, bytes: string, p: Party, month: nat) returns (i: nat)
    requires Reached(env, w, base, bytes, Rank(p), month)
    ensures Shows(w, i, bytes) && w.db.status == Waiting(p) && Clear(w, p, month) && Within(w)
    ensures Executed(env.commits, base, bytes, Rank(p)) && |bytes| <= |base| + Rank(p) * GROWTH
  {
    hide Executed, Within, Clear, Shows;
    i :| Shows(w, i, bytes) && i < |w.db.rows| && w.db.rows[i].state == StateAt(Rank(p));
  }

  lemma OpenedWithin(env: Env, w: World, next: World, p: Party, slot: PreparedSlot)
    requires Within(w) && Opened(env, w, next, p, slot)
    ensures Within(next) && Extends(w, next) && next.db.rows == w.db.rows && next.db.documents == w.db.documents
  {
    forall i | 0 <= i < |next.db.txs|
      ensures next.db.txs[i].version <= w.db.version
    {
      if i < |w.db.txs| {
        assert next.db.txs[i] == next.db.txs[..|w.db.txs|][i];
      }
    }
  }

  lemma OpenedTx(env: Env, w: World, next: World, p: Party, slot: PreparedSlot)
    requires Opened(env, w, next, p, slot)
    ensures |next.db.txs| == |w.db.txs| + 1 && next.db.version == w.db.version && next.db.status == SigningState(p)
    ensures var t := next.db.txs[|w.db.txs|];
      && t.party == p && t.version == w.db.version && t.digest == env.sha(slot.signedContent) && Open(t)
      && t.parked.Some? && t.parked.value in next.store && next.store[t.parked.value] == slot.buffer
  {
  }

  lemma ShowsParts(w: World, i: nat, bytes: string)
    requires Shows(w, i, bytes)
    ensures CurrentRow(w.db.rows, w.db.version) == Some(i) && i < |w.db.rows| && w.db.rows[i].key in w.store
    ensures w.store[w.db.rows[i].key] == bytes
  {
    hide CurrentRow;
  }

  lemma ClearParts(w: World, p: Party, month: nat)
    requires Clear(w, p, month)
    ensures Free(w, w.db.version, p, month) && NoParked(w.store, p, w.db.version) && !HasOpen(w.db.txs, p, w.db.version)
  {
    hide Free, NoParked, HasOpen;
  }

  /** The party whose turn it is opens its ceremony; the slot it parks can be filled. */
  lemma OpensInTurn(env: Env, w: World, base: string, bytes: string, p: Party, opts: Appearance, der: seq<byte>,
                    month: nat)
    returns (ops: seq<Op>, next: World, signed: string)
    requires Reached(env, w, base, bytes, Rank(p), month) && |base| < 900000000
    requires GoodOptions(opts) && opts.fieldName == FieldName(p) && Signs(env.commits, bytes, opts, der)
    ensures Prepare(bytes, opts).Ok? && Run(env, w, true, ops, next)
    ensures Opened(env, w, next, p, Prepare(bytes, opts).value)
    ensures Within(next) && Extends(w, next) && next.db.rows == w.db.rows && next.db.documents == w.db.documents
    ensures KeepsFree(w, next, month)
    ensures SignParked(env, next.store, next.db.txs[|w.db.txs|], der) == Done(signed)
    ensures Executed(env.commits, base, signed, Rank(p) + 1) && |signed| <= |bytes| + GROWTH
  {
    hide *;
    RankGrowth(p);
    var i := ReachedTurn(env, w, base, bytes, p, month);
    ShowsParts(w, i, bytes);
    ClearParts(w, p, month);
    HonestSlot(env.commits, base, bytes, p, opts, der);
    ops, next := Opens(env, w, i, p, opts, month);
    OpenedWithin(env, w, next, p, Prepare(bytes, opts).value);
    OpenedTx(env, w, next, p, Prepare(bytes, opts).value);
    OpenedFree(env, w, next, p, Prepare(bytes, opts).value, month);
    signed := ParkedFills(env, base, bytes, next.store, next.db.txs[|w.db.txs|], opts, der);
  }

  lemma CommittedWithin(env: Env, w: World, next: World, tx: nat, seen: nat, month: nat, signed: string)
    requires tx < |w.db.txs| && Within(w) && seen <= w.db.version && Committed(env, w, next, tx, seen, month, signed)
    requires ObjectKey(month, seen, SignedCopy(w.db.txs[tx].party)) !in w.store
    ensures Within(next) && next.db.version == w.db.version && next.db.closed == w.db.closed
    ensures w.db.rows <= next.db.rows
    ensures Grows(w.store, next.store) && |next.db.txs| == |w.db.txs|
  {
  }

  lemma RankGrowth(p: Party)
    ensures Rank(p) * GROWTH <= 8000000
  {
  }

  lemma RankOther(p: Party, q: Party)
    requires Rank(q) > Rank(p)
    ensures p != q
  {
  }

  lemma CommittedClear(env: Env, w: World, mid: World, next: World, slot: PreparedSlot, month: nat, signed: string,
                       p: Party, q: Party)
    requires Opened(env, w, mid, p, slot) && Within(w) && Clear(w, q, month) && q != p
    requires Committed(env, mid, next, |w.db.txs|, w.db.version, month, signed)
    ensures Clear(next, q, month)
  {
    hide Executed, Within;
    var v := w.db.version;
    assert mid.db.rows == w.db.rows && mid.db.documents == w.db.documents && mid.db.version == v;
    var key := ObjectKey(month, v, SignedCopy(q));
    FileKept(mid.db.documents, next.db.documents, key);
    VersionKept(mid.db.rows, next.db.rows, v, SignedBy(q));
    forall k | 0 <= k < |w.db.txs|
      ensures next.db.txs[k] == w.db.txs[k]
    {
      assert mid.db.txs[..|w.db.txs|][k] == mid.db.txs[k];
    }
    assert HasOpen(next.db.txs, q, v) ==> HasOpen(w.db.txs, q, v);
  }

  lemma FileKept(a: seq<DocumentRow>, b: seq<DocumentRow>, key: Key)
    requires |b| == |a| + 1 && b[..|a|] == a && b[|a|].key != key
    ensures HasFile(b, key) ==> HasFile(a, key)
  {
    if i :| 0 <= i < |b| && b[i].key == key {
      assert b[..|a|][i] == a[i];
    }
  }

  lemma VersionKept(a: seq<VersionRow>, b: seq<VersionRow>, version: nat, state: DocState)
    requires |b| == |a| + 1 && b[..|a|] == a && b[|a|].state != state
    ensures HasVersion(b, version, state) ==> HasVersion(a, version, state)
  {
    if i :| 0 <= i < |b| && b[i].version == version && b[i].state == state {
      assert b[..|a|][i] == a[i];
    }
  }

  lemma LastShows(w: World, bytes: string)
    requires w.db.rows != [] && w.db.rows[|w.db.rows| - 1].version == w.db.version
    requires w.db.rows[|w.db.rows| - 1].key in w.store && w.store[w.db.rows[|w.db.rows| - 1].key] == bytes
    ensures Shows(w, |w.db.rows| - 1, bytes)
  {
  }

  /** An honest ceremony of the party whose turn it is commits, and then it is the next party's turn. */
  lemma CeremonyAdvances(env: Env, w: World, base: string, bytes: string, p: Party, opts: Appearance, der: seq<byte>,
                         month: nat)
    returns (ops: seq<Op>, next: World, signed: string)
    requires Reached(env, w, base, bytes, Rank(p), month) && |base| < 900000000
    requires GoodOptions(opts) && opts.fieldName == FieldName(p) && Signs(env.commits, bytes, opts, der)
    ensures Run(env, w, true, ops, next) && Reached(env, next, base, signed, Rank(p) + 1, month)
    ensures next.db.version == w.db.version && next.db.closed == w.db.closed && w.db.rows <= next.db.rows
    ensures Grows(w.store, next.store)
    ensures |next.db.rows| == |w.db.rows| + 1 && next.db.rows[|w.db.rows|].version == w.db.version
    ensures next.db.rows[|w.db.rows|].state == SignedBy(p)
    ensures KeepsFree(w, next, month) && |w.db.txs| <= |next.db.txs| && next.db.txs[..|w.db.txs|] == w.db.txs
  {
    hide Free, KeepsFree;
    hide Executed, GoodOptions, Signs, Prepare, Run, Within, SignParked, CurrentRow, HasOpen, NoParked, Apply, Enabled,
      HasFile, HasVersion, Clear, CompleteEffect;
    var open, mid: World;
    open, mid, signed := OpensInTurn(env, w, base, bytes, p, opts, der, month);
    var tx := |w.db.txs|;
    var op := CompleteOp(tx, mid.db.version, der, month);
    assert Free(mid, mid.db.version, p, month) by { FreeStays(env, w, mid, p, Prepare(bytes, opts).value, month); }
    WithinPositive(mid);
    Completes(env, mid, tx, mid.db.version, der, month, signed);
    next := Apply(env, mid, op);
    FreeKey(mid, mid.db.version, p, month);
    CommittedWithin(env, mid, next, tx, mid.db.version, month, signed);
    assert OnVersion(mid, op);
    CommittedFree(env, mid, next, tx, month, signed);
    KeepsFreeOn(w, mid, next, month);
    assert next.db.txs[..|w.db.txs|] == mid.db.txs[..|w.db.txs|];
    RunThen(env, w, true, open, mid, op);
    ops := open + [op];
    LastShows(next, signed);
    forall q: Party | Rank(q) >= Rank(p) + 1
      ensures Clear(next, q, month)
    {
      RankOther(p, q);
      CommittedClear(env, w, mid, next, Prepare(bytes, opts).value, month, signed, p, q);
    }
    assert next.db.status == StatusAt(Rank(p) + 1);
    assert Shows(next, |next.db.rows| - 1, signed) && next.db.rows[|next.db.rows| - 1].state == StateAt(Rank(p) + 1);
  }

  lemma FreeKey(w: World, version: nat, p: Party, month: nat)
    requires Free(w, version, p, month)
    ensures ObjectKey(month, version, SignedCopy(p)) !in w.store
  {
  }

  lemma WithinPositive(w: World)
    requires Within(w)
    ensures w.db.version >= 1
  {
  }

  lemma FreeStays(env: Env, w: World, mid: World, p: Party, slot: PreparedSlot, month: nat)
    requires Opened(env, w, mid, p, slot) && Clear(w, p, month)
    ensures Free(mid, mid.db.version, p, month)
  {
    hide HasFile, HasVersion, NoParked, HasOpen;
  }

  // ---- A version from its generation on -----------------------------------------------------------

  /** Nothing belongs to the current version yet. */
  ghost predicate Unused(w: World) {
    && (forall key :: key in w.store ==> key.version != w.db.version)
    && (forall i :: 0 <= i < |w.db.documents| ==> w.db.documents[i].key.version != w.db.version)
    && (forall i :: 0 <= i < |w.db.rows| ==> w.db.rows[i].version != w.db.version)
    && forall i :: 0 <= i < |w.db.txs| ==> w.db.txs[i].version != w.db.version
  }

  /** The world after generating the current version from a template. */
  ghost predicate Generated(env: Env, w: World, next: World, base: string, month: nat) {
    var v := w.db.version;
    var (first, second) := (ObjectKey(month, v, GeneratedUnsigned), ObjectKey(month, v, PreparedUnsigned));
    && next.store == w.store[first := ""][second := base]
    && Moved(w.db.(rows := w.db.rows + [VersionRow(v, Unsigned, env.sha(base), second)],
                   documents := w.db.documents + [DocumentRow(GeneratedUnsigned, first, env.sha(""), 0)]
                                               + [DocumentRow(PreparedUnsigned, second, env.sha(base), |base|)]),
             next.db, ReadyForAgentSignature)
  }

  lemma GenerateDone(env: Env, w: World, base: string, month: nat)
    requires w.db.status == Draft && Unused(w)
    ensures var e := GenerateEffect(env, w, w.db.version, {AgentRole}, Template(""), base, month);
      Generated(env, w, Settle(w, e), base, month)
  {
    hide Move;
    var v := w.db.version;
    var first := StoreDocument(env, w.store, w.db, month, v, GeneratedUnsigned, None, "");
    assert first.db.Done?;
    var second := StoreDocument(env, first.store, first.db.value, month, v, PreparedUnsigned, Some(Unsigned), base);
    assert second.db.Done?;
    GenerateEdge();
    MoveDone(second.db.value, Generate, {AgentRole});
  }

  lemma GenerateEdge()
    ensures RuleOf(Generate).sources == {Draft} && RuleOf(Generate).target == ReadyForAgentSignature
    ensures Holds({AgentRole}, Generate) && !RuleOf(Generate).requiresReason
  {
    assert AgentRole in RuleOf(Generate).roles * {AgentRole};
  }

  lemma GeneratedClear(env: Env, w: World, next: World, base: string, month: nat, p: Party)
    requires Unused(w) && Generated(env, w, next, base, month)
    ensures Clear(next, p, month)
  {
  }

  lemma GeneratedWithin(env: Env, w: World, next: World, base: string, month: nat)
    requires Within(w) && Generated(env, w, next, base, month) && Unused(w)
    ensures Within(next) && Extends(w, next) && next.db.txs == w.db.txs
  {
  }

  lemma GeneratedFree(env: Env, w: World, next: World, base: string, month: nat)
    requires Generated(env, w, next, base, month)
    ensures KeepsFree(w, next, month)
  {
    hide HasFile, HasVersion, Free;
    forall u: nat, p: Party | u < w.db.version && Free(w, u, p, month)
      ensures Free(next, u, p, month)
    {
      FreeAdded(w, next, u, p, month);
    }
  }

  /** A draft can be generated, and then it is the agent's turn. */
  lemma GeneratesVersion(env: Env, w: World, base: string, month: nat) returns (ops: seq<Op>, next: World)
    requires Baseline(base) && w.db.status == Draft && Within(w) && Unused(w)
    ensures Run(env, w, true, ops, next) && Reached(env, next, base, base, 0, month)
    ensures Extends(w, next) && next.db.txs == w.db.txs
    ensures |next.db.rows| == |w.db.rows| + 1 && next.db.rows[|w.db.rows|].version == w.db.version
    ensures next.db.rows[|w.db.rows|].state == Unsigned
    ensures next.db.rows[|w.db.rows|].key in next.store && next.store[next.db.rows[|w.db.rows|].key] == base
    ensures KeepsFree(w, next, month)
  {
    hide Baseline, Executed, Within, Unused, Clear, GenerateEffect, CurrentRow, Run, Extends, KeepsFree;
    var op := GenerateOp(w.db.version, {AgentRole}, Template(""), base, month);
    GenerateDone(env, w, base, month);
    next := Apply(env, w, op);
    WithinPositive(w);
    RunOne(env, w, true, op);
    ops := [op];
    GeneratedWithin(env, w, next, base, month);
    GeneratedFree(env, w, next, base, month);
    BaselineExecuted(env.commits, base);
    LastShows(next, base);
    forall p: Party
      ensures Clear(next, p, month)
    {
      GeneratedClear(env, w, next, base, month, p);
    }
    assert Shows(next, |next.db.rows| - 1, base) && next.db.rows[|next.db.rows| - 1].state == StateAt(0);
  }

  // ---- Expiry and correction ----------------------------------------------------------------------

  /** The version was closed and the next one opened; rows, documents and objects are as before. */
  ghost predicate Reopened(w: World, next: World) {
    var v := w.db.version;
    && next.store == w.store
    && next.db.closed == w.db.closed + [ClosedVersion(v, Expired, CountSigned(w.db.rows, v))]
    && Moved(w.db.(closed := next.db.closed, txs := CancelOpen(w.db.txs, v), version := v + 1), next.db, Draft)
  }

  lemma CorrectEdge()
    ensures Expired in RuleOf(Correct).sources && RuleOf(Correct).target == Draft && Holds({AgentRole}, Correct)
    ensures !RuleOf(Correct).requiresReason
    ensures RuleOf(Expire).target == Expired && Holds({System}, Expire) && !RuleOf(Expire).requiresReason
  {
    assert AgentRole in RuleOf(Correct).roles * {AgentRole};
    assert System in RuleOf(Expire).roles * {System};
  }

  /** A version that expires is corrected: the next one starts as an empty draft. */
  lemma ExpiresAndCorrects(env: Env, w: World) returns (ops: seq<Op>, next: World)
    requires Within(w) && w.db.status in RuleOf(Expire).sources
    ensures Run(env, w, true, ops, next) && Reopened(w, next) && Within(next) && Unused(next) && next.db.status == Draft
  {
    hide RuleOf, Holds, Move, CountSigned, Run;
    var expire := ActOp(Expire, {System}, "");
    var correct := CorrectOp({AgentRole});
    CorrectEdge();
    MoveDone(w.db, Expire, {System});
    var mid := Apply(env, w, expire);
    var closing := Closing(mid.db);
    MoveDone(closing, Correct, {AgentRole});
    next := Apply(env, mid, correct);
    RunOne(env, w, true, expire);
    RunThen(env, w, true, [expire], mid, correct);
    ops := [expire] + [correct];
  }

  // ---- Honest agreements --------------------------------------------------------------------------

  /** A provider whose signatures commit to the content they are asked for. */
  ghost predicate Honest(commits: Commitment, signer: string -> seq<byte>, reserved: nat) {
    forall content ::
      DefiniteLength(signer(content)) && |signer(content)| <= reserved && commits(signer(content), content)
  }

  /** The texts of the three ceremonies. */
  ghost predicate Texts(texts: Party -> Appearance, reserved: nat) {
    forall p: Party :: GoodOptions(texts(p)) && texts(p).fieldName == FieldName(p) && texts(p).reserved == reserved
  }

  /** The signature the provider makes for a slot prepared on the document. */
  function Answer(signer: string -> seq<byte>, bytes: string, opts: Appearance): seq<byte> {
    match Prepare(bytes, opts) case Ok(slot) => signer(slot.signedContent) case Err(_) => signer("")
  }

  lemma AnswerSigns(commits: Commitment, signer: string -> seq<byte>, bytes: string, opts: Appearance)
    requires Honest(commits, signer, opts.reserved)
    ensures Signs(commits, bytes, opts, Answer(signer, bytes, opts))
  {
    hide Prepare, DefiniteLength;
  }

  lemma TextsOf(texts: Party -> Appearance, reserved: nat, p: Party)
    requires Texts(texts, reserved)
    ensures GoodOptions(texts(p)) && texts(p).fieldName == FieldName(p) && texts(p).reserved == reserved
  {
    hide GoodOptions;
  }

  /** A draft of which agent and employee sign honestly waits for the MD. */
  lemma TwoSign(env: Env, w: World, base: string, texts: Party -> Appearance, signer: string -> seq<byte>,
                reserved: nat, month: nat)
    returns (ops: seq<Op>, next: World, bytes: string)
    requires w.db.status == Draft && Within(w) && Unused(w) && Baseline(base) && |base| < 900000000
    requires Texts(texts, reserved) && Honest(env.commits, signer, reserved)
    ensures Run(env, w, true, ops, next) && Reached(env, next, base, bytes, 2, month)
    ensures next.db.version == w.db.version && next.db.closed == w.db.closed && w.db.rows <= next.db.rows
    ensures Grows(w.store, next.store)
    ensures |next.db.rows| == |w.db.rows| + 3
    ensures forall i :: |w.db.rows| <= i < |next.db.rows| ==>
      next.db.rows[i].version == w.db.version && next.db.rows[i].state == StateAt(i - |w.db.rows|)
    ensures KeepsFree(w, next, month) && |w.db.txs| <= |next.db.txs| && next.db.txs[..|w.db.txs|] == w.db.txs
    ensures IsBase(next.db.rows, next.store, w.db.version, base)
  {
    hide *;
    var a, w1 := GeneratesVersion(env, w, base, month);
    ExtendsParts(w, w1);
    TextsOf(texts, reserved, Agent);
    TextsOf(texts, reserved, Employee);
    var agent, employee := texts(Agent), texts(Employee);
    AnswerSigns(env.commits, signer, base, agent);
    Ranks();
    var b, w2, first := CeremonyAdvances(env, w1, base, base, Agent, agent, Answer(signer, base, agent), month);
    AnswerSigns(env.commits, signer, first, employee);
    var c, w3, second := CeremonyAdvances(env, w2, base, first, Employee, employee, Answer(signer, first, employee),
                                          month);
    RunsCompose(env, w, true, a, w1, b, w2);
    RunsCompose(env, w, true, a + b, w2, c, w3);
    GrowsOn(w.store, w1.store, w2.store);
    GrowsOn(w.store, w2.store, w3.store);
    GrowsOn(w1.store, w2.store, w3.store);
    KeepsFreeOn(w, w1, w2, month);
    KeepsFreeOn(w, w2, w3, month);
    assert w3.db.txs[..|w.db.txs|] == w2.db.txs[..|w.db.txs|] == w1.db.txs[..|w.db.txs|];
    BaseLater(w1, w3, |w.db.rows|, base);
    States();
    ops, next, bytes := a + b + c, w3, second;
    assert next.db.rows[|w.db.rows|] == w1.db.rows[|w.db.rows|];
    assert next.db.rows[|w.db.rows| + 1] == w2.db.rows[|w.db.rows| + 1];
    forall i | |w.db.rows| <= i < |next.db.rows|
      ensures next.db.rows[i].version == w.db.version && next.db.rows[i].state == StateAt(i - |w.db.rows|)
    {
      assert i == |w.db.rows| || i == |w.db.rows| + 1 || i == |w.db.rows| + 2;
    }
  }

  lemma BaseLater(w: World, next: World, i: nat, base: string)
    requires i < |w.db.rows| && w.db.rows[i].state == Unsigned && w.db.rows[i].key in w.store
    requires w.store[w.db.rows[i].key] == base
    requires w.db.rows <= next.db.rows && Grows(w.store, next.store)
    ensures IsBase(next.db.rows, next.store, w.db.rows[i].version, base)
  {
    assert next.db.rows[i] == w.db.rows[i];
  }

  lemma ExtendsParts(w: World, next: World)
    requires Extends(w, next)
    ensures next.db.version == w.db.version && next.db.closed == w.db.closed && w.db.rows <= next.db.rows
    ensures Grows(w.store, next.store)
    ensures |w.db.txs| <= |next.db.txs| && next.db.txs[..|w.db.txs|] == w.db.txs
  {
  }

  lemma Ranks()
    ensures Rank(Agent) == 0 && Rank(Employee) == 1 && Rank(Md) == 2
  {
  }

  lemma States()
    ensures StateAt(0) == Unsigned && StateAt(1) == SignedBy(Agent) && StateAt(2) == SignedBy(Employee)
    ensures StateAt(3) == SignedBy(Md)
  {
  }

  lemma GrowsOn(a: Store, b: Store, c: Store)
    requires Grows(a, b) && Grows(b, c)
    ensures Grows(a, c)
  {
  }

  /** Every prepared document can be executed: three honest ceremonies complete the agreement, on transactions of the
      version itself. */
  lemma HonestVersionCompletes(env: Env, w: World, base: string, texts: Party -> Appearance,
                               signer: string -> seq<byte>, reserved: nat, month: nat)
    returns (ops: seq<Op>, next: World, bytes: string)
    requires w.db.status == Draft && Within(w) && Unused(w) && Baseline(base) && |base| < 900000000
    requires Texts(texts, reserved) && Honest(env.commits, signer, reserved)
    ensures Run(env, w, true, ops, next) && next.db.status == Completed && next.db.version == w.db.version
    ensures exists i: nat :: Shows(next, i, bytes)
    ensures Executed(env.commits, base, bytes, 3)
  {
    hide *;
    var a, w1, two := TwoSign(env, w, base, texts, signer, reserved, month);
    TextsOf(texts, reserved, Md);
    AnswerSigns(env.commits, signer, two, texts(Md));
    Ranks();
    var b, w2, last := CeremonyAdvances(env, w1, base, two, Md, texts(Md), Answer(signer, two, texts(Md)), month);
    RunsCompose(env, w, true, a, w1, b, w2);
    ops, next, bytes := a + b, w2, last;
    ReachedEnd(env, next, base, last, month);
  }

  lemma ReachedEnd(env: Env, w: World, base: string, bytes: string, month: nat)
    requires Reached(env, w, base, bytes, 3, month)
    ensures w.db.status == Completed && (exists i: nat :: Shows(w, i, bytes)) && Executed(env.commits, base, bytes, 3)
  {
    hide Shows, Executed, Within, Clear;
  }

  const NEW_WORLD := World(NEW_AGREEMENT, map[])

  lemma NewWorld()
    ensures Initial(NEW_WORLD) && Within(NEW_WORLD) && Unused(NEW_WORLD) && NEW_WORLD.db.status == Draft
    ensures NEW_WORLD.db.version == 1
    ensures NEW_WORLD.db.rows == [] && NEW_WORLD.db.txs == [] && NEW_WORLD.db.closed == []
  {
  }
}
