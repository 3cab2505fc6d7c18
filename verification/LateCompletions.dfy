/** What a completion does that acts on a version it read earlier, or resolves a transaction of an earlier version: when
    the guarantees on versions survive it, exactly, and runs in which they do not. */
module LateCompletions {
  import opened Text
  import opened PdfObjects
  import opened IncrementalSigner
  import opened StateMachine
  import opened SigningTheorems
  import opened Verifier
  import Ceremonies
  import opened Executions
  import opened Protocol
  import opened ProtocolSafety
  import opened ProtocolLedger
  import opened VersionAccounting
  import opened AtomicProtocol
  import opened HonestRuns
  import Attachments

  // ---- What a committing completion adds ----------------------------------------------------------

  function Later(env: Env, w: World, tx: nat, seen: nat, der: seq<byte>, month: nat): World
    requires tx < |w.db.txs|
  {
    Settle(w, CompleteEffect(env, w, tx, seen, der, month))
  }

  lemma CompletionShape(env: Env, w: World, tx: nat, seen: nat, der: seq<byte>, month: nat) returns (signed: string)
    requires tx < |w.db.txs| && CompleteEffect(env, w, tx, seen, der, month).db.Done?
    ensures SignParked(env, w.store, w.db.txs[tx], der) == Done(signed)
    ensures Free(w, seen, w.db.txs[tx].party, month) && w.db.status == SigningState(w.db.txs[tx].party)
    ensures Committed(env, w, Later(env, w, tx, seen, der, month), tx, seen, month, signed)
  {
    hide SignParked, HasFile, HasVersion, MoveChain;
    CompletionGuard(env, w, tx, seen, der, month);
    var t := w.db.txs[tx];
    signed := SignParked(env, w.store, t, der).value;
    var stored := StoreDocument(env, w.store, w.db, month, seen, SignedCopy(t.party), Some(SignedBy(t.party)), signed);
    SuccessDone(WithStatus(stored.db.value, tx, TxSigned), t.party);
  }

  // ---- The prepared document it extends -----------------------------------------------------------

  /** No prepared document of one version begins with one of the other. */
  ghost predicate Apart(w: World, v: nat, u: nat) {
    forall a, b :: IsBase(w.db.rows, w.store, v, a) && IsBase(w.db.rows, w.store, u, b) ==> !(a <= b) && !(b <= a)
  }

  /** Among states in which every document extends its own version's prepared one, a completion stores a document that
      extends the prepared document of its transaction's version, and that of the version it is stored under exactly
      when the two are one. */
  lemma CompletionExtendsIff(env: Env, w: World, tx: nat, seen: nat, der: seq<byte>, month: nat)
    requires DocInv(env, w, true) && tx < |w.db.txs| && CompleteEffect(env, w, tx, seen, der, month).db.Done?
    requires w.db.txs[tx].version != seen ==> Apart(w, w.db.txs[tx].version, seen)
    ensures var later := Later(env, w, tx, seen, der, month); var n := |w.db.rows|;
      && |later.db.rows| == n + 1 && later.db.rows[n].version == seen
      && later.db.rows[n].state == SignedBy(w.db.txs[tx].party)
      && later.db.rows[n].key in later.store
      && (exists b :: IsBase(w.db.rows, w.store, w.db.txs[tx].version, b) && b <= later.store[later.db.rows[n].key])
      && ((exists b :: IsBase(w.db.rows, w.store, seen, b) && b <= later.store[later.db.rows[n].key])
          <==> w.db.txs[tx].version == seen)
  {
    hide DocInv, IsBase, CompleteEffect, SignParked, Free;
    var signed := CompletionShape(env, w, tx, seen, der, month);
    var base := SignedOver(env, w, tx, der);
    if b :| IsBase(w.db.rows, w.store, seen, b) && b <= signed {
      Comparable(b, base, signed);
    }
  }

  // ---- The voided count ---------------------------------------------------------------------------

  /** The counts of closed versions stay right exactly when the completion had read the current version. */
  lemma VoidedKeptIff(env: Env, w: World, tx: nat, seen: nat, der: seq<byte>, month: nat)
    requires VoidedOk(w.db) && DbInv(w.db) && tx < |w.db.txs| && CompleteEffect(env, w, tx, seen, der, month).db.Done?
    requires 1 <= seen <= w.db.version
    ensures VoidedOk(Later(env, w, tx, seen, der, month).db) <==> seen == w.db.version
  {
    hide DbInv, CompleteEffect, SignParked, Free, CountSigned;
    var signed := CompletionShape(env, w, tx, seen, der, month);
    var later := Later(env, w, tx, seen, der, month);
    ClosedVersions(w.db);
    assert later.db.rows[..|later.db.rows| - 1] == w.db.rows;
    if seen == w.db.version {
      VoidedKept(w.db, later.db, [later.db.rows[|w.db.rows|]]);
    } else {
      CountOneMore(w.db.rows, later.db.rows[|w.db.rows|]);
      assert w.db.closed[seen - 1].version == seen;
      assert later.db.closed[seen - 1].voided != CountSigned(later.db.rows, seen);
    }
  }

  lemma ClosedVersions(db: Db)
    requires DbInv(db)
    ensures db.version == |db.closed| + 1 && forall i :: 0 <= i < |db.closed| ==> db.closed[i].version == i + 1
  {
    hide LogOk, VersionsOk, FinalOk;
  }

  lemma CountOneMore(rows: seq<VersionRow>, r: VersionRow)
    requires r.state != Unsigned
    ensures CountSigned(rows + [r], r.version) == CountSigned(rows, r.version) + 1
  {
    assert (rows + [r])[..|rows + [r]| - 1] == rows;
  }

  // ---- The coupling -------------------------------------------------------------------------------

  /** In a coupled state a completion keeps the coupling exactly when its transaction is the open one, if any is. */
  lemma CouplingKeptIff(env: Env, w: World, tx: nat, seen: nat, der: seq<byte>, month: nat)
    requires Coupling(w.db) && tx < |w.db.txs| && CompleteEffect(env, w, tx, seen, der, month).db.Done?
    ensures Coupling(Later(env, w, tx, seen, der, month).db) <==>
      Open(w.db.txs[tx]) || forall i :: 0 <= i < |w.db.txs| ==> !Open(w.db.txs[i])
  {
    hide CompleteEffect, SignParked, Free;
    var signed := CompletionShape(env, w, tx, seen, der, month);
    var later := Later(env, w, tx, seen, der, month);
    var t := w.db.txs[tx];
    assert forall i :: 0 <= i < |w.db.txs| && i != tx ==> later.db.txs[i] == w.db.txs[i];
    if !Open(t) && exists i :: 0 <= i < |w.db.txs| && Open(w.db.txs[i]) {
      var i :| 0 <= i < |w.db.txs| && Open(w.db.txs[i]);
      assert Open(later.db.txs[i]) && later.db.txs[i].party == t.party;
    }
  }

  // ---- The FINAL document -------------------------------------------------------------------------

  /** A FINAL row stands only in a completed agreement, as its last; with `own`, it is of the current version. */
  ghost predicate OneFinal(db: Db, own: bool) {
    forall i :: 0 <= i < |db.rows| && db.rows[i].state == SignedBy(Md) ==>
      i == |db.rows| - 1 && db.status == Completed && (own ==> db.rows[i].version == db.version)
  }

  lemma MoveNotCompleted(db: Db, action: Action, roles: set<Role>, reason: string)
    ensures Move(db, action, roles, reason).Done? ==> db.status != Completed
  {
    if Move(db, action, roles, reason).Done? {
      TerminalEdges(db.status, action, RuleOf(action).target);
    }
  }

  /** What changes no row and leaves a completed agreement alone. */
  lemma FinalStays(db: Db, next: Db, own: bool)
    requires OneFinal(db, own) && next.rows == db.rows
    requires db.status == Completed ==> next.status == Completed && next.version == db.version
    ensures OneFinal(next, own)
  {
  }

  lemma FinalRowAdded(db: Db, next: Db, own: bool, r: VersionRow)
    requires OneFinal(db, own) && db.status != Completed && next.rows == db.rows + [r]
    requires r.state == SignedBy(Md) ==> next.status == Completed && (own ==> r.version == next.version)
    ensures OneFinal(next, own)
  {
    assert forall i :: 0 <= i < |db.rows| ==> next.rows[i] == db.rows[i];
  }

  lemma GenerateFinal(env: Env, w: World, own: bool, seen: nat, roles: set<Role>, source: Source, prepared: string,
                      month: nat)
    requires OneFinal(w.db, own)
    ensures OneFinal(Settle(w, GenerateEffect(env, w, seen, roles, source, prepared, month)).db, own)
  {
    hide OneFinal, StoreDocument, Move;
    var first := StoreSource(env, w.store, w.db, month, seen, source);
    SourceShape(env, w, seen, source, month);
    if first.db.Done? {
      StoredShape(env, first.store, first.db.value, month, seen, PreparedUnsigned, Some(Unsigned), prepared);
      var second := StoreDocument(env, first.store, first.db.value, month, seen, PreparedUnsigned, Some(Unsigned),
                                  prepared);
      if second.db.Done? {
        MoveKeeps(second.db.value, Generate, roles, "");
        MoveNotCompleted(second.db.value, Generate, roles, "");
        var m := Move(second.db.value, Generate, roles, "");
        if m.Done? {
          FinalRowAdded(w.db, m.value, own,
                        VersionRow(seen, Unsigned, env.sha(prepared), ObjectKey(month, seen, PreparedUnsigned)));
        }
      }
    }
  }

  lemma CompleteFinal(env: Env, w: World, own: bool, tx: nat, seen: nat, der: seq<byte>, month: nat)
    requires OneFinal(w.db, own) && tx < |w.db.txs| && (own ==> seen == w.db.version)
    ensures OneFinal(Settle(w, CompleteEffect(env, w, tx, seen, der, month)).db, own)
  {
    hide OneFinal, CompleteEffect, SignParked, Free;
    if CompleteEffect(env, w, tx, seen, der, month).db.Done? {
      var signed := CompletionShape(env, w, tx, seen, der, month);
      var next := Later(env, w, tx, seen, der, month);
      FinalRowAdded(w.db, next.db, own, next.db.rows[|w.db.rows|]);
    }
  }

  lemma StepFinal(env: Env, w: World, own: bool, op: Op)
    requires OneFinal(w.db, own) && Enabled(w, op) && (own ==> OnVersion(w, op))
    ensures OneFinal(Apply(env, w, op).db, own)
  {
    hide OneFinal, Move, GenerateEffect, CompleteEffect, Park, Baseline, CurrentRow, HasOpen, LastAttempt, GoodOptions,
      CountSigned, HasClosed;
    var next := Apply(env, w, op);
    match op
    case GenerateOp(seen, roles, source, prepared, month) =>
      GenerateFinal(env, w, own, seen, roles, source, prepared, month);
    case CompleteOp(tx, seen, der, month) => CompleteFinal(env, w, own, tx, seen, der, month);
    case CorrectOp(roles) =>
      var closing := Closing(w.db);
      MoveKeeps(closing, Correct, roles, "");
      MoveNotCompleted(closing, Correct, roles, "");
      FinalStays(w.db, next.db, own);
    case StartOp(party, presented, isParty, roles) =>
      MoveKeeps(w.db, InitiateBy(party), roles, "");
      MoveNotCompleted(w.db, InitiateBy(party), roles, "");
      FinalStays(w.db, next.db, own);
    case ActOp(action, roles, reason) =>
      MoveKeeps(w.db, action, roles, reason);
      MoveNotCompleted(w.db, action, roles, reason);
      FinalStays(w.db, next.db, own);
    case RejectOp(roles, reason) =>
      MoveKeeps(w.db, RejectAction(w.db.status), roles, reason);
      MoveNotCompleted(w.db, RejectAction(w.db.status), roles, reason);
      FinalStays(w.db, next.db, own);
    case FailOp(tx, status) =>
      FailFinal(w.db, tx, status);
      FinalStays(w.db, next.db, own);
    case _ => FinalStays(w.db, next.db, own);
  }

  lemma FailFinal(db: Db, tx: nat, status: Status)
    requires tx < |db.txs|
    ensures var f := FailDb(db, tx, status);
      f.Done? ==>
        (f.value.rows == db.rows && f.value.version == db.version
         && (db.status == Completed ==> f.value.status == Completed))
  {
    hide Move;
    if PartySigning(status).Some? {
      MoveKeeps(WithStatus(db, tx, TxFailed), FailBy(PartySigning(status).value), {System}, "");
      MoveNotCompleted(WithStatus(db, tx, TxFailed), FailBy(PartySigning(status).value), {System}, "");
    }
  }

  lemma {:induction false} RunFinal(env: Env, w: World, own: bool, ops: seq<Op>, last: World)
    requires OneFinal(w.db, own) && Run(env, w, own, ops, last)
    ensures OneFinal(last.db, own)
    decreases |ops|
  {
    hide OneFinal, Enabled, OnVersion, Apply;
    if ops != [] {
      StepFinal(env, w, own, ops[0]);
      RunFinal(env, Apply(env, w, ops[0]), own, ops[1..], last);
    }
  }

  /** Over every interleaving: an agreement is completed exactly when it has a FINAL document, and that is the last one
      stored. */
  lemma CompletedIffFinal(env: Env, w: World, ops: seq<Op>, last: World)
    requires Initial(w) && Run(env, w, false, ops, last)
    ensures last.db.status == Completed <==>
      last.db.rows != [] && last.db.rows[|last.db.rows| - 1].state == SignedBy(Md)
    ensures forall i :: 0 <= i < |last.db.rows| - 1 ==> last.db.rows[i].state != SignedBy(Md)
  {
    hide Enabled, OnVersion, Apply, LogOk, ClosedOk, VersionsOk;
    NewInv();
    RunLedger(env, w, false, ops, last);
    RunFinal(env, w, false, ops, last);
  }

  /** A completed agreement has exactly one FINAL document, signed by the agent, the employee and the MD, in this order,
      with exactly three signatures, all valid: whatever the interleaving, and through every retry edge. It is the
      document the current version shows exactly when it was stored under that version. */
  lemma CompletedIsExecuted(env: Env, w: World, ops: seq<Op>, last: World)
    returns (i: nat, base: string, steps: seq<Ceremonies.Step>)
    requires Initial(w) && Run(env, w, false, ops, last) && last.db.status == Completed
    ensures i < |last.db.rows| && last.db.rows[i].key in last.store
    ensures forall j :: 0 <= j < |last.db.rows| ==> (last.db.rows[j].state == SignedBy(Md) <==> j == i)
    ensures CurrentRow(last.db.rows, last.db.version) == Some(i) <==> last.db.rows[i].version == last.db.version
    ensures |steps| == 3 && Execution(env.commits, base, steps, last.store[last.db.rows[i].key])
    ensures |Verify(last.store[last.db.rows[i].key], env.commits)| == 3
  {
    hide Apply, Enabled, OnVersion, Execution, Verify, Run;
    CompletedIffFinal(env, w, ops, last);
    i := |last.db.rows| - 1;
    SigningOrder(env, w, ops, last, i);
    base, steps :| |steps| == Level(last.db.rows[i].state)
      && Execution(env.commits, base, steps, last.store[last.db.rows[i].key]);
  }

  /** When completions act on the current version, a completed agreement shows its FINAL document: the current row of
      the current version, executed by all three parties over that version's prepared document. */
  lemma CompletedShowsFinal(env: Env, w: World, ops: seq<Op>, last: World) returns (i: nat, base: string)
    requires Initial(w) && Run(env, w, true, ops, last) && last.db.status == Completed
    ensures CurrentRow(last.db.rows, last.db.version) == Some(i) && last.db.rows[i].state == SignedBy(Md)
    ensures last.db.rows[i].key in last.store && IsBase(last.db.rows, last.store, last.db.version, base)
    ensures Executed(env.commits, base, last.store[last.db.rows[i].key], 3)
  {
    hide Enabled, OnVersion, Apply, LogOk, ClosedOk, VersionsOk, IsBase, Executed, Unique, Ladder, DocumentsOk,
      ParkedOk, LinksOk, CurrentRow;
    NewInv();
    RunLedger(env, w, true, ops, last);
    RunFinal(env, w, true, ops, last);
    InitialInv(env, w, true);
    RunKeeps(env, w, true, ops, last);
    var j :| 0 <= j < |last.db.rows| && last.db.rows[j].state == SignedBy(Md);
    assert last.db.rows[j].version == last.db.version;
    i := CurrentRow(last.db.rows, last.db.version).value;
    LastIsHighest(last.db.rows, j, i);
    assert RowOk(env, last.db.rows, last.store, true, last.db.rows[i]);
    base :| IsBase(last.db.rows, last.store, last.db.version, base)
      && Executed(env.commits, base, last.store[last.db.rows[i].key], 3);
  }

  lemma LastIsHighest(rows: seq<VersionRow>, j: nat, i: nat)
    requires Ordered(rows) && j <= i < |rows| && rows[j].version == rows[i].version && rows[j].state == SignedBy(Md)
    ensures i == j
  {
    hide Ordered, Level;
    if j < i {
      LevelsRise(rows, j, i);
      HighestLevel(rows[j].state, rows[i].state);
      assert false;
    }
  }

  lemma HighestLevel(s: DocState, t: DocState)
    ensures s == SignedBy(Md) ==> Level(t) <= Level(s)
  {
  }

  /** The MD's completion leaves a FINAL current document exactly when it had read the current version; otherwise the
      agreement completes and the current version shows a document the MD has not signed. */
  lemma FinalShownIff(env: Env, w: World, tx: nat, seen: nat, der: seq<byte>, month: nat)
    requires OneFinal(w.db, false) && tx < |w.db.txs| && w.db.txs[tx].party == Md
    requires CompleteEffect(env, w, tx, seen, der, month).db.Done?
    ensures var later := Later(env, w, tx, seen, der, month);
      var current := CurrentRow(later.db.rows, later.db.version);
      && later.db.status == Completed
      && ((current.Some? && later.db.rows[current.value].state == SignedBy(Md)) <==> seen == w.db.version)
  {
    hide CompleteEffect, SignParked, Free;
    var signed := CompletionShape(env, w, tx, seen, der, month);
    var later := Later(env, w, tx, seen, der, month);
    assert later.db.rows[..|later.db.rows| - 1] == w.db.rows;
  }

  // ---- Stale generation ---------------------------------------------------------------------------

  /** Every version that left the draft has its prepared document. */
  ghost predicate Prepared(db: Db) {
    forall v :: 1 <= v <= db.version && (v < db.version || (db.status != Draft && db.status != Cancelled)) ==>
      HasVersion(db.rows, v, Unsigned)
  }

  lemma PreparedStays(db: Db, next: Db)
    requires Prepared(db) && db.rows <= next.rows && next.version == db.version
    requires next.status != Draft && next.status != Cancelled ==> db.status != Draft && db.status != Cancelled
    ensures Prepared(next)
  {
    forall v | 1 <= v <= next.version && (v < next.version || (next.status != Draft && next.status != Cancelled))
      ensures HasVersion(next.rows, v, Unsigned)
    {
      assert HasVersion(db.rows, v, Unsigned);
      var i :| 0 <= i < |db.rows| && db.rows[i].version == v && db.rows[i].state == Unsigned;
      assert next.rows[i] == db.rows[i];
    }
  }

  lemma DraftLeaves(db: Db, action: Action, roles: set<Role>, reason: string)
    requires Move(db, action, roles, reason).Done?
    ensures var next := Move(db, action, roles, reason).value;
      && db.status != Cancelled
      && (db.status == Draft ==> action == Generate || next.status == Cancelled)
      && (action == Generate ==> db.status == Draft)
  {
  }

  lemma MovePrepared(db: Db, action: Action, roles: set<Role>, reason: string)
    requires Prepared(db) && action != Generate
    ensures Move(db, action, roles, reason).Done? ==> Prepared(Move(db, action, roles, reason).value)
  {
    hide Move, Prepared;
    if Move(db, action, roles, reason).Done? {
      MoveKeeps(db, action, roles, reason);
      DraftLeaves(db, action, roles, reason);
      PreparedStays(db, Move(db, action, roles, reason).value);
    }
  }

  /** A generation that read an earlier version never commits. */
  lemma StaleGenerationAborts(env: Env, w: World, seen: nat, roles: set<Role>, source: Source, prepared: string,
                              month: nat)
    requires Prepared(w.db) && 1 <= seen < w.db.version
    ensures !GenerateEffect(env, w, seen, roles, source, prepared, month).db.Done?
  {
    hide Move, HasFile;
    assert HasVersion(w.db.rows, seen, Unsigned);
    SourceShape(env, w, seen, source, month);
  }

  lemma GeneratePrepared(env: Env, w: World, seen: nat, roles: set<Role>, source: Source, prepared: string, month: nat)
    requires Prepared(w.db) && 1 <= seen <= w.db.version
    ensures Prepared(Settle(w, GenerateEffect(env, w, seen, roles, source, prepared, month)).db)
  {
    if seen < w.db.version {
      hide *;
      StaleGenerationAborts(env, w, seen, roles, source, prepared, month);
      AbortedStays(w, GenerateEffect(env, w, seen, roles, source, prepared, month));
    } else {
      hide StoreDocument, Move, HasFile;
      var first := StoreSource(env, w.store, w.db, month, seen, source);
      SourceShape(env, w, seen, source, month);
      if first.db.Done? {
        StoredShape(env, first.store, first.db.value, month, seen, PreparedUnsigned, Some(Unsigned), prepared);
        var second := StoreDocument(env, first.store, first.db.value, month, seen, PreparedUnsigned, Some(Unsigned),
                                    prepared);
        if second.db.Done? && Move(second.db.value, Generate, roles, "").Done? {
          MoveKeeps(second.db.value, Generate, roles, "");
          PreparedAdded(w.db, Move(second.db.value, Generate, roles, "").value,
            VersionRow(seen, Unsigned, env.sha(prepared), ObjectKey(month, seen, PreparedUnsigned)));
        }
      }
    }
  }

  lemma AbortedStays(w: World, e: Effect)
    requires !e.db.Done?
    ensures Settle(w, e).db == w.db
  {
  }

  lemma PreparedAdded(db: Db, next: Db, r: VersionRow)
    requires Prepared(db) && next.rows == db.rows + [r] && next.version == db.version && r.version == db.version
    requires r.state == Unsigned
    ensures Prepared(next)
  {
    assert next.rows[|db.rows|] == r;
    forall v | 1 <= v < next.version
      ensures HasVersion(next.rows, v, Unsigned)
    {
      assert HasVersion(db.rows, v, Unsigned);
      var i :| 0 <= i < |db.rows| && db.rows[i].version == v && db.rows[i].state == Unsigned;
      assert next.rows[i] == db.rows[i];
    }
  }

  lemma StepPrepared(env: Env, w: World, op: Op)
    requires Prepared(w.db) && Enabled(w, op)
    ensures Prepared(Apply(env, w, op).db)
  {
    hide Prepared, Move, GenerateEffect, CompleteEffect, Park, Baseline, CurrentRow, HasOpen, LastAttempt, GoodOptions,
      CountSigned, HasClosed;
    var next := Apply(env, w, op);
    match op
    case GenerateOp(seen, roles, source, prepared, month) =>
      GeneratePrepared(env, w, seen, roles, source, prepared, month);
    case CompleteOp(tx, seen, der, month) =>
      if CompleteEffect(env, w, tx, seen, der, month).db.Done? {
        CompletePrepared(env, w, tx, seen, der, month);
      }
    case CorrectOp(roles) => CorrectPrepared(w.db, roles);
    case StartOp(party, presented, isParty, roles) => MovePrepared(w.db, InitiateBy(party), roles, "");
    case ActOp(action, roles, reason) => MovePrepared(w.db, action, roles, reason);
    case RejectOp(roles, reason) => MovePrepared(w.db, RejectAction(w.db.status), roles, reason);
    case FailOp(tx, status) =>
      PreparedStays(w.db, WithStatus(w.db, tx, TxFailed));
      if PartySigning(status).Some? {
        MovePrepared(WithStatus(w.db, tx, TxFailed), FailBy(PartySigning(status).value), {System}, "");
      }
    case _ => PreparedStays(w.db, next.db);
  }

  lemma CompletePrepared(env: Env, w: World, tx: nat, seen: nat, der: seq<byte>, month: nat)
    requires Prepared(w.db) && tx < |w.db.txs| && CompleteEffect(env, w, tx, seen, der, month).db.Done?
    ensures Prepared(Later(env, w, tx, seen, der, month).db)
  {
    hide Prepared, CompleteEffect, SignParked, Free;
    var signed := CompletionShape(env, w, tx, seen, der, month);
    PreparedStays(w.db, Later(env, w, tx, seen, der, month).db);
  }

  lemma CorrectPrepared(db: Db, roles: set<Role>)
    requires Prepared(db)
    ensures CorrectDb(db, roles).Done? ==> Prepared(CorrectDb(db, roles).value)
  {
    hide Move, CountSigned, HasClosed, HasVersion;
    var closing := Closing(db);
    if CorrectDb(db, roles).Done? {
      MoveKeeps(closing, Correct, roles, "");
      CorrectLeaves(closing, roles);
    }
  }

  lemma CorrectLeaves(db: Db, roles: set<Role>)
    requires Move(db, Correct, roles, "").Done?
    ensures (db.status == Rejected || db.status == Expired) && Move(db, Correct, roles, "").value.status == Draft
  {
  }

  lemma {:induction false} RunPrepared(env: Env, w: World, own: bool, ops: seq<Op>, last: World)
    requires Prepared(w.db) && Run(env, w, own, ops, last)
    ensures Prepared(last.db)
    decreases |ops|
  {
    hide Prepared, Enabled, OnVersion, Apply;
    if ops != [] {
      StepPrepared(env, w, ops[0]);
      RunPrepared(env, Apply(env, w, ops[0]), own, ops[1..], last);
    }
  }

  /** Over every interleaving, a generation that read an earlier version than the current one never commits: that
      version has its prepared document already. */
  lemma GenerationNeverStale(env: Env, w: World, ops: seq<Op>, last: World, seen: nat, roles: set<Role>, source: Source,
                             prepared: string, month: nat)
    requires Initial(w) && Run(env, w, false, ops, last) && 1 <= seen < last.db.version
    ensures !GenerateEffect(env, last, seen, roles, source, prepared, month).db.Done?
  {
    hide Enabled, OnVersion, Apply, GenerateEffect, HasVersion;
    RunPrepared(env, w, false, ops, last);
    StaleGenerationAborts(env, last, seen, roles, source, prepared, month);
  }

  // ---- Runs that go wrong -------------------------------------------------------------------------

  lemma SameParkedFills(env: Env, store: Store, later: Store, t: Transaction, u: Transaction, der: seq<byte>)
    requires u.parked == t.parked && u.digest == t.digest && u.party == t.party && t.parked.Some?
    requires t.parked.value in store && t.parked.value in later && later[t.parked.value] == store[t.parked.value]
    ensures SignParked(env, later, u, der) == SignParked(env, store, t, der)
  {
    hide Reopen, Embed, AssertIntegrity;
  }

  /** A transaction as it stands after its version was closed: cancelled, and nothing else changed. */
  lemma ReopenedTx(w: World, next: World, tx: nat)
    requires Reopened(w, next) && tx < |w.db.txs|
    ensures tx < |next.db.txs| && |next.db.txs| == |w.db.txs| && next.db.rows == w.db.rows
    ensures next.db.version == w.db.version + 1
    ensures next.store == w.store
    ensures var (t, u) := (w.db.txs[tx], next.db.txs[tx]);
      && u.parked == t.parked && u.digest == t.digest && u.party == t.party && u.version == t.version
      && (t.version == w.db.version ==> !Open(u))
    ensures next.db.closed == w.db.closed + [ClosedVersion(w.db.version, Expired, CountSigned(w.db.rows, w.db.version))]
  {
    hide CountSigned;
  }

  lemma SigningExpires(p: Party)
    ensures SigningState(p) in RuleOf(Expire).sources
  {
  }

  /** A transaction of a closed version that can still be filled, with bytes that extend that version's prepared
      document. */
  ghost predicate Lingers(env: Env, w: World, tx: nat, p: Party, version: nat, der: seq<byte>, signed: string) {
    && tx < |w.db.txs| && w.db.txs[tx].party == p && w.db.txs[tx].version == version && !Open(w.db.txs[tx])
    && w.db.txs[tx].parked.Some? && w.db.txs[tx].parked.value in w.store
    && SignParked(env, w.store, w.db.txs[tx], der) == Done(signed)
  }

  lemma LingersOn(env: Env, w: World, next: World, tx: nat, p: Party, version: nat, der: seq<byte>, signed: string)
    requires Lingers(env, w, tx, p, version, der, signed) && Grows(w.store, next.store)
    requires tx < |next.db.txs| && next.db.txs[tx] == w.db.txs[tx]
    ensures Lingers(env, next, tx, p, version, der, signed)
  {
    hide SignParked;
    SameParkedFills(env, w.store, next.store, w.db.txs[tx], next.db.txs[tx], der);
  }

  /** A ceremony opened in turn, then expiry and correction: its transaction lingers. */
  lemma Interrupted(env: Env, w: World, base: string, bytes: string, p: Party, opts: Appearance, der: seq<byte>,
                    month: nat)
    returns (ops: seq<Op>, next: World, signed: string)
    requires Reached(env, w, base, bytes, Rank(p), month) && |base| < 900000000
    requires GoodOptions(opts) && opts.fieldName == FieldName(p) && Signs(env.commits, bytes, opts, der)
    ensures Run(env, w, true, ops, next) && Within(next) && Unused(next) && next.db.status == Draft
    ensures next.db.version == w.db.version + 1
    ensures |next.db.txs| == |w.db.txs| + 1 && Lingers(env, next, |w.db.txs|, p, w.db.version, der, signed)
    ensures Executed(env.commits, base, signed, Rank(p) + 1)
    ensures next.db.rows == w.db.rows && Grows(w.store, next.store)
    ensures next.db.closed == w.db.closed + [ClosedVersion(w.db.version, Expired, CountSigned(w.db.rows, w.db.version))]
    ensures Free(next, w.db.version, p, month)
  {
    hide *;
    var a, mid: World;
    a, mid, signed := OpensInTurn(env, w, base, bytes, p, opts, der, month);
    OpenedTx(env, w, mid, p, Prepare(bytes, opts).value);
    ExtendsParts(w, mid);
    SigningExpires(p);
    var b: seq<Op>;
    b, next := ExpiresAndCorrects(env, mid);
    RunsCompose(env, w, true, a, mid, b, next);
    ops := a + b;
    ReopenedTx(mid, next, |w.db.txs|);
    SameParkedFills(env, mid.store, next.store, mid.db.txs[|w.db.txs|], next.db.txs[|w.db.txs|], der);
    FreeHere(env, w, mid, next, p, Prepare(bytes, opts).value, base, bytes, month);
    LingersIf(env, next, |w.db.txs|, p, w.db.version, der, signed);
  }

  lemma FreeHere(env: Env, w: World, mid: World, next: World, p: Party, slot: PreparedSlot, base: string, bytes: string,
                 month: nat)
    requires Reached(env, w, base, bytes, Rank(p), month) && Opened(env, w, mid, p, slot) && Reopened(mid, next)
    ensures Free(next, w.db.version, p, month)
  {
    hide Within, Executed, CountSigned, Shows, Clear, Free;
    assert Clear(w, p, month);
    FreeStays(env, w, mid, p, slot, month);
    FreeFrame(mid, next, w.db.version, p, month);
  }

  lemma FreeFrame(w: World, next: World, version: nat, p: Party, month: nat)
    requires Free(w, version, p, month) && next.store == w.store && next.db.rows == w.db.rows
    requires next.db.documents == w.db.documents
    ensures Free(next, version, p, month)
  {
  }

  lemma LingersIf(env: Env, w: World, tx: nat, p: Party, version: nat, der: seq<byte>, signed: string)
    requires tx < |w.db.txs| && w.db.txs[tx].party == p && w.db.txs[tx].version == version && !Open(w.db.txs[tx])
    requires w.db.txs[tx].parked.Some? && w.db.txs[tx].parked.value in w.store
    requires SignParked(env, w.store, w.db.txs[tx], der) == Done(signed)
    ensures Lingers(env, w, tx, p, version, der, signed)
  {
    hide SignParked;
  }

  lemma LingersTx(env: Env, w: World, tx: nat, p: Party, version: nat, der: seq<byte>, signed: string)
    requires Lingers(env, w, tx, p, version, der, signed)
    ensures tx < |w.db.txs| && w.db.txs[tx].party == p && w.db.txs[tx].version == version && !Open(w.db.txs[tx])
    ensures SignParked(env, w.store, w.db.txs[tx], der) == Done(signed)
  {
    hide SignParked;
  }

  /** Two versions of an agreement, the first interrupted while the agent was signing, the second where the agent is
      signing. */
  ghost predicate TwoAgents(env: Env, w: World, base1: string, base2: string, der: seq<byte>, signed: string,
                            month: nat) {
    && w.db.version == 2 && w.db.status == AgentSigning && |w.db.txs| == 2
    && Lingers(env, w, 0, Agent, 1, der, signed) && base1 <= signed
    && Open(w.db.txs[1]) && w.db.txs[1].party == Agent && w.db.txs[1].version == 2
    && |w.db.rows| == 2 && w.db.rows[0].version == 1 && w.db.rows[0].state == Unsigned
    && w.db.rows[1].version == 2 && w.db.rows[1].state == Unsigned
    && IsBase(w.db.rows, w.store, 2, base2)
    && |w.db.closed| == 1 && w.db.closed[0].version == 1 && w.db.closed[0].voided == 0
    && Free(w, 1, Agent, month) && Free(w, 2, Agent, month)
  }

  /** Such a state is reached, on transactions and versions that are current at every step. */
  lemma TwoAgentsReached(env: Env, base1: string, base2: string, texts: Party -> Appearance,
                         signer: string -> seq<byte>, reserved: nat, month: nat)
    returns (ops: seq<Op>, w: World, der: seq<byte>, signed: string)
    requires Baseline(base1) && Baseline(base2) && |base1| < 900000000 && |base2| < 900000000
    requires Texts(texts, reserved) && Honest(env.commits, signer, reserved)
    ensures Run(env, NEW_WORLD, true, ops, w) && TwoAgents(env, w, base1, base2, der, signed, month)
  {
    hide *;
    NewWorld();
    TextsOf(texts, reserved, Agent);
    Ranks();
    var opts := texts(Agent);
    AnswerSigns(env.commits, signer, base1, opts);
    AnswerSigns(env.commits, signer, base2, opts);
    der := Answer(signer, base1, opts);
    var a, w1 := GeneratesVersion(env, NEW_WORLD, base1, month);
    ExtendsParts(NEW_WORLD, w1);
    var b, w2: World;
    b, w2, signed := Interrupted(env, w1, base1, base1, Agent, opts, der, month);
    ExecutedSlots(env.commits, base1, signed, 1);
    var c, w3 := GeneratesVersion(env, w2, base2, month);
    ExtendsParts(w2, w3);
    LingersOn(env, w2, w3, 0, Agent, 1, der, signed);
    var d, other: string;
    d, w, other := OpensInTurn(env, w3, base2, base2, Agent, opts, Answer(signer, base2, opts), month);
    ExtendsParts(w3, w);
    var i := ReachedTurn(env, w3, base2, base2, Agent, month);
    OpenedTx(env, w3, w, Agent, Prepare(base2, opts).value);
    assert w.db.txs[0] == w.db.txs[..1][0];
    LingersOn(env, w3, w, 0, Agent, 1, der, signed);
    FreeStays(env, w3, w, Agent, Prepare(base2, opts).value, month);
    FreeLater(w2, w3, 1, Agent, month);
    FreeLater(w3, w, 1, Agent, month);
    BaseLater(w3, w, 1, base2);
    OneUnsigned(w1.db.rows);
    SigningStates();
    RunsCompose(env, NEW_WORLD, true, a, w1, b, w2);
    RunsCompose(env, NEW_WORLD, true, a + b, w2, c, w3);
    RunsCompose(env, NEW_WORLD, true, a + b + c, w3, d, w);
    ops := a + b + c + d;
    TwoAgentsIf(env, w, base1, base2, der, signed, month);
  }

  lemma FreeLater(w: World, next: World, u: nat, p: Party, month: nat)
    requires KeepsFree(w, next, month) && u < w.db.version && Free(w, u, p, month)
    ensures Free(next, u, p, month)
  {
    hide Free;
  }

  lemma OneUnsigned(rows: seq<VersionRow>)
    requires |rows| == 1 && rows[0].state == Unsigned
    ensures CountSigned(rows, 1) == 0
  {
  }

  lemma SigningStates()
    ensures SigningState(Agent) == AgentSigning && SigningState(Md) == MdSigning
  {
  }

  lemma TwoAgentsIf(env: Env, w: World, base1: string, base2: string, der: seq<byte>, signed: string, month: nat)
    requires w.db.version == 2 && w.db.status == AgentSigning && |w.db.txs| == 2
    requires Lingers(env, w, 0, Agent, 1, der, signed) && base1 <= signed
    requires Open(w.db.txs[1]) && w.db.txs[1].party == Agent && w.db.txs[1].version == 2
    requires |w.db.rows| == 2 && w.db.rows[0].version == 1 && w.db.rows[0].state == Unsigned
    requires w.db.rows[1].version == 2 && w.db.rows[1].state == Unsigned
    requires IsBase(w.db.rows, w.store, 2, base2)
    requires |w.db.closed| == 1 && w.db.closed[0].version == 1 && w.db.closed[0].voided == 0
    requires Free(w, 1, Agent, month) && Free(w, 2, Agent, month)
    ensures TwoAgents(env, w, base1, base2, der, signed, month)
  {
    hide Lingers, IsBase, Free;
  }

  lemma LingeringCompletes(env: Env, w: World, tx: nat, p: Party, version: nat, seen: nat, der: seq<byte>,
                           signed: string, month: nat)
    returns (ops: seq<Op>, last: World)
    requires Lingers(env, w, tx, p, version, der, signed) && Free(w, seen, p, month)
    requires w.db.status == SigningState(p) && 1 <= seen <= w.db.version
    ensures Run(env, w, false, ops, last) && tx < |w.db.txs| && w.db.txs[tx].party == p
    ensures Committed(env, w, last, tx, seen, month, signed)
  {
    hide *;
    LingersTx(env, w, tx, p, version, der, signed);
    Completes(env, w, tx, seen, der, month, signed);
    var op := CompleteOp(tx, seen, der, month);
    last := Apply(env, w, op);
    RunOne(env, w, false, op);
    ops := [op];
  }

  /** A late outcome: the agent's transaction of version 1, cancelled by the correction, completes after version 2 was
      read. Version 2 gets a signed document that does not extend its prepared one, and its own open ceremony is left
      behind. Every step but the last was on current versions. */
  lemma LateCompletionHappens(env: Env, base1: string, base2: string, texts: Party -> Appearance,
                              signer: string -> seq<byte>, reserved: nat, month: nat)
    returns (ops: seq<Op>, last: World)
    requires Baseline(base1) && Baseline(base2) && |base1| < 900000000 && |base2| < 900000000 && !(base1 <= base2)
    requires !(base2 <= base1)
    requires Texts(texts, reserved) && Honest(env.commits, signer, reserved)
    ensures Run(env, NEW_WORLD, false, ops, last)
    ensures last.db.version == 2 && |last.db.rows| == 3 && last.db.rows[2].version == 2
    ensures last.db.rows[2].state == SignedBy(Agent)
    ensures last.db.rows[2].key in last.store && IsBase(last.db.rows, last.store, 2, base2)
    ensures !(base2 <= last.store[last.db.rows[2].key])
    ensures !Coupling(last.db)
  {
    hide *;
    var a, w, der, signed := TwoAgentsReached(env, base1, base2, texts, signer, reserved, month);
    TwoAgentsParts(env, w, base1, base2, der, signed, month);
    SigningStates();
    var b: seq<Op>;
    b, last := LingeringCompletes(env, w, 0, Agent, 1, 2, der, signed, month);
    RunWeaken(env, NEW_WORLD, a, w);
    RunsCompose(env, NEW_WORLD, false, a, w, b, last);
    ops := a + b;
    BaseAfter(env, w, last, 0, 2, month, signed, base2);
    Comparable(base2, base1, signed);
    CommittedParts(env, w, last, 0, 2, month, signed);
    LeftOpen(last.db, 1);
  }

  lemma TwoAgentsParts(env: Env, w: World, base1: string, base2: string, der: seq<byte>, signed: string, month: nat)
    requires TwoAgents(env, w, base1, base2, der, signed, month)
    ensures w.db.version == 2 && w.db.status == AgentSigning && |w.db.txs| == 2 && |w.db.rows| == 2
    ensures Lingers(env, w, 0, Agent, 1, der, signed) && base1 <= signed && IsBase(w.db.rows, w.store, 2, base2)
    ensures Open(w.db.txs[1]) && w.db.txs[1].party == Agent
    ensures Free(w, 1, Agent, month) && Free(w, 2, Agent, month)
    ensures w.db.rows[0].state == Unsigned && w.db.rows[1].state == Unsigned
    ensures |w.db.closed| == 1 && w.db.closed[0].version == 1 && w.db.closed[0].voided == 0
  {
    hide Lingers, IsBase, Free;
  }

  lemma CommittedParts(env: Env, w: World, next: World, tx: nat, seen: nat, month: nat, signed: string)
    requires tx < |w.db.txs| && Committed(env, w, next, tx, seen, month, signed)
    ensures |next.db.rows| == |w.db.rows| + 1 && next.db.rows[..|w.db.rows|] == w.db.rows
    ensures next.db.version == w.db.version
    ensures var r := next.db.rows[|w.db.rows|];
      && r.version == seen && r.state == SignedBy(w.db.txs[tx].party) && r.key in next.store
      && next.store[r.key] == signed
    ensures next.db.status == AfterSigning(w.db.txs[tx].party) && next.db.closed == w.db.closed
    ensures |next.db.txs| == |w.db.txs| && forall i :: 0 <= i < |w.db.txs| && i != tx ==> next.db.txs[i] == w.db.txs[i]
  {
  }

  lemma LeftOpen(db: Db, tx: nat)
    requires tx < |db.txs| && Open(db.txs[tx]) && db.txs[tx].party == Agent && db.status == AfterSigning(Agent)
    ensures !Coupling(db)
  {
  }

  lemma BaseAfter(env: Env, w: World, next: World, tx: nat, seen: nat, month: nat, signed: string, base: string)
    requires tx < |w.db.txs| && Committed(env, w, next, tx, seen, month, signed)
    requires Free(w, seen, w.db.txs[tx].party, month)
    requires IsBase(w.db.rows, w.store, 2, base)
    ensures IsBase(next.db.rows, next.store, 2, base)
  {
    hide IsBase;
    assert Grows(w.store, next.store);
    BaseFrame(w.db.rows, [next.db.rows[|w.db.rows|]], w.store, next.store, 2, base);
  }

  /** A stale outcome: the same transaction completes with the version read before the correction. Version 1, closed
      with no signature voided, gets a document with one. */
  lemma StaleCompletionHappens(env: Env, base1: string, base2: string, texts: Party -> Appearance,
                               signer: string -> seq<byte>, reserved: nat, month: nat)
    returns (ops: seq<Op>, last: World)
    requires Baseline(base1) && Baseline(base2) && |base1| < 900000000 && |base2| < 900000000
    requires Texts(texts, reserved) && Honest(env.commits, signer, reserved)
    ensures Run(env, NEW_WORLD, false, ops, last)
    ensures |last.db.closed| == 1 && last.db.closed[0].version == 1 && last.db.closed[0].voided == 0
    ensures |last.db.rows| == 3 && last.db.rows[2].version == 1 && last.db.rows[2].state == SignedBy(Agent)
    ensures CountSigned(last.db.rows, 1) == 1
  {
    hide *;
    var a, w, der, signed := TwoAgentsReached(env, base1, base2, texts, signer, reserved, month);
    TwoAgentsParts(env, w, base1, base2, der, signed, month);
    SigningStates();
    var b: seq<Op>;
    b, last := LingeringCompletes(env, w, 0, Agent, 1, 1, der, signed, month);
    RunWeaken(env, NEW_WORLD, a, w);
    RunsCompose(env, NEW_WORLD, false, a, w, b, last);
    ops := a + b;
    CommittedParts(env, w, last, 0, 1, month, signed);
    assert last.db.rows == last.db.rows[..2] + [last.db.rows[2]];
    AgentSigns(last.db.rows[2]);
    CountOneMore(w.db.rows, last.db.rows[2]);
    NoneSigned(w.db.rows);
  }

  lemma AgentSigns(r: VersionRow)
    ensures r.state == SignedBy(Agent) ==> r.state != Unsigned
  {
  }

  lemma NoneSigned(rows: seq<VersionRow>)
    requires |rows| == 2 && rows[0].state == Unsigned && rows[1].state == Unsigned
    ensures CountSigned(rows, 1) == 0
  {
    OneUnsigned(rows[..1]);
  }

  // ---- A completed agreement that shows no FINAL document -----------------------------------------

  /** Two versions of an agreement, the first interrupted while the MD was signing, the second where the MD is
      signing. */
  ghost predicate TwoMds(env: Env, w: World, tx: nat, der: seq<byte>, signed: string, month: nat) {
    && w.db.version == 2 && w.db.status == MdSigning && Lingers(env, w, tx, Md, 1, der, signed)
    && Free(w, 1, Md, month) && |w.db.rows| == 6
    && (forall i :: 0 <= i < 3 ==> w.db.rows[i].version == 1 && w.db.rows[i].state == StateAt(i))
    && (forall i :: 3 <= i < 6 ==> w.db.rows[i].version == 2 && w.db.rows[i].state == StateAt(i - 3))
    && |w.db.closed| == 1 && w.db.closed[0].version == 1 && w.db.closed[0].voided == 2
  }

  lemma TwoMdsReached(env: Env, base1: string, base2: string, texts: Party -> Appearance, signer: string -> seq<byte>,
                      reserved: nat, month: nat)
    returns (ops: seq<Op>, w: World, tx: nat, der: seq<byte>, signed: string)
    requires Baseline(base1) && Baseline(base2) && |base1| < 900000000 && |base2| < 900000000
    requires Texts(texts, reserved) && Honest(env.commits, signer, reserved)
    ensures Run(env, NEW_WORLD, true, ops, w) && TwoMds(env, w, tx, der, signed, month)
    ensures Executed(env.commits, base1, signed, 3)
  {
    hide *;
    NewWorld();
    TextsOf(texts, reserved, Md);
    Ranks();
    var opts := texts(Md);
    var a, w1, bytes1 := TwoSign(env, NEW_WORLD, base1, texts, signer, reserved, month);
    AnswerSigns(env.commits, signer, bytes1, opts);
    der := Answer(signer, bytes1, opts);
    var b, w2: World;
    b, w2, signed := Interrupted(env, w1, base1, bytes1, Md, opts, der, month);
    tx := |w1.db.txs|;
    var c, w3, bytes2 := TwoSign(env, w2, base2, texts, signer, reserved, month);
    assert w3.db.txs[tx] == w3.db.txs[..|w2.db.txs|][tx];
    LingersOn(env, w2, w3, tx, Md, 1, der, signed);
    AnswerSigns(env.commits, signer, bytes2, opts);
    var d, other: string;
    d, w, other := OpensInTurn(env, w3, base2, bytes2, Md, opts, Answer(signer, bytes2, opts), month);
    ExtendsParts(w3, w);
    assert w.db.txs[tx] == w.db.txs[..|w3.db.txs|][tx];
    LingersOn(env, w3, w, tx, Md, 1, der, signed);
    OpenedTx(env, w3, w, Md, Prepare(bytes2, opts).value);
    FreeLater(w2, w3, 1, Md, month);
    FreeLater(w3, w, 1, Md, month);
    States();
    TwoSignedCount(w1.db.rows);
    SigningStates();
    RunsCompose(env, NEW_WORLD, true, a, w1, b, w2);
    RunsCompose(env, NEW_WORLD, true, a + b, w2, c, w3);
    RunsCompose(env, NEW_WORLD, true, a + b + c, w3, d, w);
    ops := a + b + c + d;
    SixRows(w1.db.rows, w.db.rows);
    TwoMdsIf(env, w, tx, der, signed, month);
  }

  lemma SixRows(a: seq<VersionRow>, b: seq<VersionRow>)
    requires |a| == 3 && |b| == 6 && a <= b
    requires forall i :: 0 <= i < 3 ==> a[i].version == 1 && a[i].state == StateAt(i)
    requires forall i :: 3 <= i < 6 ==> b[i].version == 2 && b[i].state == StateAt(i - 3)
    ensures forall i :: 0 <= i < 3 ==> b[i].version == 1 && b[i].state == StateAt(i)
    ensures forall i :: 3 <= i < 6 ==> b[i].version == 2 && b[i].state == StateAt(i - 3)
  {
    hide StateAt;
    assert forall i :: 0 <= i < 3 ==> b[i] == a[i];
  }

  lemma TwoMdsIf(env: Env, w: World, tx: nat, der: seq<byte>, signed: string, month: nat)
    requires w.db.version == 2 && w.db.status == MdSigning && Lingers(env, w, tx, Md, 1, der, signed)
    requires Free(w, 1, Md, month) && |w.db.rows| == 6
    requires forall i :: 0 <= i < 3 ==> w.db.rows[i].version == 1 && w.db.rows[i].state == StateAt(i)
    requires forall i :: 3 <= i < 6 ==> w.db.rows[i].version == 2 && w.db.rows[i].state == StateAt(i - 3)
    requires |w.db.closed| == 1 && w.db.closed[0].version == 1 && w.db.closed[0].voided == 2
    ensures TwoMds(env, w, tx, der, signed, month)
  {
    hide Lingers, Free, StateAt;
  }

  lemma TwoSignedCount(rows: seq<VersionRow>)
    requires |rows| == 3 && rows[0].state == Unsigned && rows[1].state == SignedBy(Agent)
    requires rows[2].state == SignedBy(Employee)
    requires forall i :: 0 <= i < 3 ==> rows[i].version == 1
    ensures CountSigned(rows, 1) == 2
  {
    var two := rows[..2];
    assert two[..1] == rows[..1];
    OneUnsigned(rows[..1]);
    assert CountSigned(two, 1) == 1;
  }

  /** The MD's outcome for version 1, read before the correction, completes the agreement at version 2: the FINAL
      document is version 1's, closed with two voided signatures and carrying three, and version 2 shows one without the
      MD's. */
  lemma StaleFinalHappens(env: Env, base1: string, base2: string, texts: Party -> Appearance,
                          signer: string -> seq<byte>, reserved: nat, month: nat)
    returns (ops: seq<Op>, last: World, final: nat, current: nat)
    requires Baseline(base1) && Baseline(base2) && |base1| < 900000000 && |base2| < 900000000
    requires Texts(texts, reserved) && Honest(env.commits, signer, reserved)
    ensures Run(env, NEW_WORLD, false, ops, last) && last.db.status == Completed && last.db.version == 2
    ensures final < |last.db.rows| && last.db.rows[final].state == SignedBy(Md) && last.db.rows[final].version == 1
    ensures CurrentRow(last.db.rows, 2) == Some(current) && last.db.rows[current].state == SignedBy(Employee)
    ensures |last.db.closed| == 1 && last.db.closed[0].version == 1 && last.db.closed[0].voided == 2
    ensures last.db.rows[final].key in last.store && |Slots(last.store[last.db.rows[final].key], 0)| == 3
  {
    hide *;
    var tx, der, a, w, signed;
    a, w, tx, der, signed := TwoMdsReached(env, base1, base2, texts, signer, reserved, month);
    TwoMdsParts(env, w, tx, der, signed, month);
    SigningStates();
    var b: seq<Op>;
    b, last := LingeringCompletes(env, w, tx, Md, 1, 1, der, signed, month);
    RunWeaken(env, NEW_WORLD, a, w);
    RunsCompose(env, NEW_WORLD, false, a, w, b, last);
    ops := a + b;
    final, current := 6, 5;
    ExecutedSlots(env.commits, base1, signed, 3);
    CommittedParts(env, w, last, tx, 1, month, signed);
    AfterMd();
    assert last.db.rows[5] == last.db.rows[..6][5];
    LastButOne(last.db.rows);
  }

  lemma TwoMdsParts(env: Env, w: World, tx: nat, der: seq<byte>, signed: string, month: nat)
    requires TwoMds(env, w, tx, der, signed, month)
    ensures w.db.version == 2 && w.db.status == MdSigning && Lingers(env, w, tx, Md, 1, der, signed)
    ensures Free(w, 1, Md, month)
    ensures |w.db.rows| == 6 && w.db.rows[5].version == 2 && w.db.rows[5].state == SignedBy(Employee)
    ensures |w.db.closed| == 1 && w.db.closed[0].version == 1 && w.db.closed[0].voided == 2
  {
    hide Lingers, Free;
  }

  lemma AfterMd()
    ensures AfterSigning(Md) == Completed
  {
  }

  lemma LastButOne(rows: seq<VersionRow>)
    requires |rows| == 7 && rows[6].version == 1 && rows[5].version == 2
    ensures CurrentRow(rows, 2) == Some(5)
  {
    assert rows[..6][5] == rows[5];
  }

  // ---- And they can all be met --------------------------------------------------------------------

  function Checksum(content: string): (n: byte) {
    if content == "" then 0 else (Checksum(content[..|content| - 1]) * 31 + content[|content| - 1] as int) % 256
  }

  /** A signature that carries a checksum of the content. */
  function Sealed(content: string): seq<byte> {
    [0x30, 1, Checksum(content)]
  }

  /** An environment, two prepared documents, texts and a provider for which all of this happens. The check is not
      blind: it accepts one signature for each content, and another content's is not it. */
  lemma Circumstances(sha: string -> string)
    returns (env: Env, base1: string, base2: string, texts: Party -> Appearance, signer: string -> seq<byte>,
             reserved: nat)
    ensures env.sha == sha
    ensures Baseline(base1) && Baseline(base2) && |base1| < 900000000 && |base2| < 900000000
    ensures !(base1 <= base2) && !(base2 <= base1)
    ensures Texts(texts, reserved) && Honest(env.commits, signer, reserved)
    ensures forall der, content :: env.commits(der, content) <==> der == signer(content)
    ensures !env.commits(signer("a"), "b")
  {
    hide Baseline, GoodOptions, DefiniteLength, Checksum;
    base1, base2 := Attachments.TwoBaselines();
    reserved := 3;
    env := Env(sha, (der, content) => der == Sealed(content), 3);
    texts := p => Appearance(FieldName(p), "", "", "", "", 3);
    signer := content => Sealed(content);
    EmptyTexts(FieldName(Agent));
    EmptyTexts(FieldName(Employee));
    EmptyTexts(FieldName(Md));
    forall content
      ensures DefiniteLength(signer(content))
    {
      SealedLength(content);
    }
    ChecksumsDiffer();
    forall p: Party
      ensures GoodOptions(texts(p)) && texts(p).fieldName == FieldName(p) && texts(p).reserved == reserved
    {
      match p
      case Agent =>
      case Employee =>
      case Md =>
    }
  }

  lemma EmptyTexts(name: string)
    ensures GoodOptions(Appearance(name, "", "", "", "", 3))
  {
  }

  lemma SealedLength(content: string)
    ensures DefiniteLength(Sealed(content))
  {
  }

  lemma ChecksumsDiffer()
    ensures Checksum("a") != Checksum("b")
  {
    assert "a"[..0] == "" && "b"[..0] == "";
  }
}
