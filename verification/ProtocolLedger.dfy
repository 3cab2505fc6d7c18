/** What every interleaving keeps about the agreement row: the transition log, the closed versions, completion. */
module ProtocolLedger {
  import opened Text
  import opened PdfObjects
  import opened IncrementalSigner
  import opened StateMachine
  import opened Verifier
  import Ceremonies
  import opened Executions
  import opened Protocol
  import opened ProtocolSafety

  // ---- The log ------------------------------------------------------------------------------------

  /** The log is a path of the table from DRAFT to the current status. */
  ghost predicate LogOk(db: Db) {
    && db.rowVersion == 1 + |db.log|
    && (db.log == [] ==> db.status == Draft)
    && (db.log != [] ==> db.log[0].source == Draft && db.log[|db.log| - 1].target == db.status)
    && (forall i :: 0 <= i < |db.log| ==> Edge(db.log[i].source, db.log[i].action, db.log[i].target))
    && forall i, j :: 0 <= i && j == i + 1 < |db.log| ==> db.log[i].target == db.log[j].source
  }

  /** The closed versions are exactly those before the current one, in order. */
  ghost predicate ClosedOk(db: Db) {
    db.version == |db.closed| + 1 && forall i :: 0 <= i < |db.closed| ==> db.closed[i].version == i + 1
  }

  /** Rows and transactions belong to versions opened so far. */
  ghost predicate VersionsOk(db: Db) {
    && (forall i :: 0 <= i < |db.rows| ==> 1 <= db.rows[i].version <= db.version)
    && forall i :: 0 <= i < |db.txs| ==> 1 <= db.txs[i].version <= db.version
  }

  /** A completed agreement has a final document. */
  ghost predicate FinalOk(db: Db) {
    db.status == Completed ==> exists i :: 0 <= i < |db.rows| && db.rows[i].state == SignedBy(Md)
  }

  ghost predicate DbInv(db: Db) {
    && LogOk(db) && ClosedOk(db) && VersionsOk(db) && FinalOk(db)
    && db.status != AgentSigned && db.status != EmployeeSigned
  }

  /** A move without its effect on completion and on the two states between two signatures. */
  ghost predicate Moving(db: Db) {
    LogOk(db) && ClosedOk(db) && VersionsOk(db)
  }

  lemma MoveLog(db: Db, action: Action, roles: set<Role>, reason: string)
    requires Moving(db)
    ensures var m := Move(db, action, roles, reason);
      m.Done? ==>
        (Moving(m.value) && Edge(db.status, action, m.value.status)
         && m.value.rows == db.rows && m.value.version == db.version)
  {
    hide RuleOf, Edge;
    var m := Move(db, action, roles, reason);
    if m.Done? {
      assert Edge(db.status, action, m.value.status);
      assert forall i :: 0 <= i < |db.log| ==> m.value.log[i] == db.log[i];
    }
  }

  lemma EdgeTargets(source: Status, action: Action, target: Status)
    requires Edge(source, action, target)
    ensures target == Completed ==> action == MdSignSucceed
    ensures target == AgentSigned ==> action == AgentSignSucceed
    ensures target == EmployeeSigned ==> action == EmployeeSignSucceed
  {
  }

  /** A move by any edge but a success keeps the whole invariant. */
  lemma PlainMove(db: Db, action: Action, roles: set<Role>, reason: string)
    requires DbInv(db)
    requires action != AgentSignSucceed && action != EmployeeSignSucceed && action != MdSignSucceed
    ensures Move(db, action, roles, reason).Done? ==> DbInv(Move(db, action, roles, reason).value)
  {
    hide RuleOf, Edge, LogOk, ClosedOk, VersionsOk, Move;
    var m := Move(db, action, roles, reason);
    MoveLog(db, action, roles, reason);
    if m.Done? {
      EdgeTargets(db.status, action, m.value.status);
    }
  }

  lemma SuccessTargets(source: Status, p: Party, target: Status)
    requires Edge(source, SucceedBy(p), target)
    ensures p == Md <==> target == Completed
    ensures source == SigningState(p)
    ensures AdvanceBy(p) != [] ==> forall t, a :: Edge(target, a, t) && a == AdvanceBy(p)[0] ==>
      t == PendingEmployeeSignature || t == PendingMdSignature
  {
  }

  /** A success and the advance after it commit together, so the state between them is never committed. */
  lemma SuccessMoves(db: Db, p: Party)
    requires Moving(db) && (p == Md ==> exists i :: 0 <= i < |db.rows| && db.rows[i].state == SignedBy(Md))
    ensures var m := MoveChain(db, [SucceedBy(p)] + AdvanceBy(p), {System});
      m.Done? ==> DbInv(m.value) && db.status == SigningState(p)
  {
    hide RuleOf, Edge, LogOk, ClosedOk, VersionsOk, Move;
    var actions := [SucceedBy(p)] + AdvanceBy(p);
    MoveLog(db, SucceedBy(p), {System}, "");
    var first := Move(db, SucceedBy(p), {System}, "");
    if first.Done? {
      SuccessTargets(db.status, p, first.value.status);
      ChainTail(first.value, actions[1..]);
      assert actions[1..] == AdvanceBy(p);
      if p != Md {
        MoveLog(first.value, AdvanceBy(p)[0], {System}, "");
      }
    }
  }

  lemma ChainTail(db: Db, actions: seq<Action>)
    requires |actions| <= 1
    ensures MoveChain(db, actions, {System}) == if actions == [] then Done(db) else Move(db, actions[0], {System}, "")
  {
    hide Move;
    if actions != [] && Move(db, actions[0], {System}, "").Done? {
      assert actions[1..] == [];
    }
  }

  // ---- The steps ----------------------------------------------------------------------------------

  /** The rows a stored document adds. */
  lemma StoredShape(env: Env, store: Store, db: Db, month: nat, version: nat, docType: DocType, state: Option<DocState>,
                    bytes: string)
    ensures var e := StoreDocument(env, store, db, month, version, docType, state, bytes);
      e.db.Done? ==>
        (e.db.value == db.(rows := e.db.value.rows, documents := e.db.value.documents)
         && e.db.value.rows ==
            if state.None? then db.rows
            else db.rows + [VersionRow(version, state.value, env.sha(bytes), ObjectKey(month, version, docType))])
  {
  }

  lemma RowAdded(db: Db, next: Db, more: seq<VersionRow>)
    requires next == db.(rows := db.rows + more, documents := next.documents)
    requires forall i :: 0 <= i < |more| ==> 1 <= more[i].version <= db.version
    ensures DbInv(db) ==> DbInv(next)
    ensures Moving(db) ==> Moving(next)
  {
    hide RuleOf;
    assert forall i :: 0 <= i < |db.rows| ==> next.rows[i] == db.rows[i];
  }

  lemma GenerateInv(env: Env, w: World, seen: nat, roles: set<Role>, source: Source, prepared: string, month: nat)
    requires DbInv(w.db) && 1 <= seen <= w.db.version
    ensures DbInv(Settle(w, GenerateEffect(env, w, seen, roles, source, prepared, month)).db)
  {
    hide DbInv, StoreDocument, Move, Moving;
    var first := StoreSource(env, w.store, w.db, month, seen, source);
    SourceInv(env, w, seen, source, month);
    if first.db.Done? {
      StoredShape(env, first.store, first.db.value, month, seen, PreparedUnsigned, Some(Unsigned), prepared);
      var second := StoreDocument(env, first.store, first.db.value, month, seen, PreparedUnsigned, Some(Unsigned),
                                  prepared);
      if second.db.Done? {
        RowAdded(first.db.value, second.db.value,
                 [VersionRow(seen, Unsigned, env.sha(prepared), ObjectKey(month, seen, PreparedUnsigned))]);
        PlainMove(second.db.value, Generate, roles, "");
      }
    }
  }

  lemma SourceInv(env: Env, w: World, seen: nat, source: Source, month: nat)
    requires DbInv(w.db)
    ensures var first := StoreSource(env, w.store, w.db, month, seen, source);
      first.db.Done? ==>
        DbInv(first.db.value) && first.db.value.version == w.db.version && first.db.value.rows == w.db.rows
  {
    hide DbInv, StoreDocument, Moving;
    assert w.db.rows + [] == w.db.rows;
    match source
    case Template(flat) =>
      StoredShape(env, w.store, w.db, month, seen, GeneratedUnsigned, None, flat);
      var first := StoreDocument(env, w.store, w.db, month, seen, GeneratedUnsigned, None, flat);
      if first.db.Done? {
        RowAdded(w.db, first.db.value, []);
      }
    case Upload(pdf, composed) =>
      StoredShape(env, w.store, w.db, month, seen, UploadedSource, None, pdf);
      var first := StoreDocument(env, w.store, w.db, month, seen, UploadedSource, None, pdf);
      if first.db.Done? {
        RowAdded(w.db, first.db.value, []);
        StoredShape(env, first.store, first.db.value, month, seen, ComposedUnsigned, None, composed);
        var second := StoreDocument(env, first.store, first.db.value, month, seen, ComposedUnsigned, None, composed);
        if second.db.Done? {
          RowAdded(first.db.value, second.db.value, []);
        }
      }
  }

  lemma CompleteInv(env: Env, w: World, tx: nat, seen: nat, der: seq<byte>, month: nat)
    requires DbInv(w.db) && tx < |w.db.txs| && 1 <= seen <= w.db.version
    ensures DbInv(Settle(w, CompleteEffect(env, w, tx, seen, der, month)).db)
    ensures CompleteEffect(env, w, tx, seen, der, month).db.Done? ==> w.db.status == SigningState(w.db.txs[tx].party)
  {
    hide DbInv, StoreDocument, SignParked, MoveChain, Moving;
    var t := w.db.txs[tx];
    if SignParked(env, w.store, t, der).Done? {
      var signed := SignParked(env, w.store, t, der).value;
      StoredShape(env, w.store, w.db, month, seen, SignedCopy(t.party), Some(SignedBy(t.party)), signed);
      var stored := StoreDocument(env, w.store, w.db, month, seen, SignedCopy(t.party), Some(SignedBy(t.party)),
                                  signed);
      if stored.db.Done? {
        var row := VersionRow(seen, SignedBy(t.party), env.sha(signed), ObjectKey(month, seen, SignedCopy(t.party)));
        RowAdded(w.db, stored.db.value, [row]);
        var db := WithStatus(stored.db.value, tx, TxSigned);
        StatusInv(stored.db.value, tx, TxSigned);
        assert db.rows[|w.db.rows|] == row;
        InvMoving(db);
        SuccessMoves(db, t.party);
      }
    }
  }

  lemma InvMoving(db: Db)
    requires DbInv(db)
    ensures Moving(db)
  {
    hide LogOk, ClosedOk, VersionsOk;
  }

  lemma StatusInv(db: Db, tx: nat, status: TxStatus)
    requires DbInv(db) && tx < |db.txs|
    ensures DbInv(WithStatus(db, tx, status))
  {
    hide RuleOf;
  }

  lemma CorrectInv(db: Db, roles: set<Role>)
    requires DbInv(db)
    ensures CorrectDb(db, roles).Done? ==> DbInv(CorrectDb(db, roles).value)
  {
    hide RuleOf, Edge, Move, CountSigned;
    var next := Closing(db);
    assert LogOk(next) && VersionsOk(next);
    if CorrectDb(db, roles).Done? {
      var moved := Move(next, Correct, roles, "").value;
      MoveShape(next, Correct, roles);
      EdgeTargets(next.status, Correct, moved.status);
    }
  }

  lemma MoveShape(db: Db, action: Action, roles: set<Role>)
    requires LogOk(db) && Move(db, action, roles, "").Done?
    ensures var m := Move(db, action, roles, "").value;
      && LogOk(m) && Edge(db.status, action, m.status)
      && m == db.(status := m.status, rowVersion := m.rowVersion, log := m.log)
  {
    hide RuleOf, Edge;
    var m := Move(db, action, roles, "").value;
    assert Edge(db.status, action, m.status);
    assert forall i :: 0 <= i < |db.log| ==> m.log[i] == db.log[i];
  }

  lemma TxsInv(db: Db, next: Db)
    requires DbInv(db) && next == db.(txs := next.txs, ledger := next.ledger)
    requires forall i :: 0 <= i < |next.txs| ==> 1 <= next.txs[i].version <= db.version
    ensures DbInv(next)
  {
    hide RuleOf, Edge;
  }

  lemma FailInv(db: Db, tx: nat, status: Status)
    requires DbInv(db) && tx < |db.txs|
    ensures FailDb(db, tx, status).Done? ==> DbInv(FailDb(db, tx, status).value)
  {
    hide DbInv, Move;
    StatusInv(db, tx, TxFailed);
    if PartySigning(status).Some? {
      PlainMove(WithStatus(db, tx, TxFailed), FailBy(PartySigning(status).value), {System}, "");
    }
  }

  lemma OpVersions(w: World, op: Op)
    requires DbInv(w.db)
    ensures forall i :: 0 <= i < |w.db.rows| ==> 1 <= w.db.rows[i].version <= w.db.version
    ensures forall i :: 0 <= i < |w.db.txs| ==> 1 <= w.db.txs[i].version <= w.db.version
  {
    hide LogOk, ClosedOk, FinalOk;
  }

  /** Every step of every interleaving keeps the ledger invariant. */
  lemma StepLedger(env: Env, w: World, op: Op)
    requires DbInv(w.db) && Enabled(w, op)
    ensures DbInv(Apply(env, w, op).db)
  {
    hide DbInv, Move, GenerateEffect, CompleteEffect, Park, Baseline, CurrentRow, HasOpen, LastAttempt, CorrectDb,
      FailDb;
    OpVersions(w, op);
    match op
    case GenerateOp(seen, roles, source, prepared, month) => GenerateInv(env, w, seen, roles, source, prepared, month);
    case StartOp(party, presented, isParty, roles) => PlainMove(w.db, InitiateBy(party), roles, "");
    case ParkOp(row, party, opts, month) =>
    case OpenOp(row, party, digest) =>
      if HasOpen(w.db.txs, party, w.db.rows[row].version) {
      } else {
        TxsInv(w.db, Apply(env, w, op).db);
      }
    case LinkOp(tx, key) => TxsInv(w.db, Apply(env, w, op).db);
    case CompleteOp(tx, seen, der, month) => CompleteInv(env, w, tx, seen, der, month);
    case FailOp(tx, status) => FailInv(w.db, tx, status);
    case ActOp(action, roles, reason) => PlainMove(w.db, action, roles, reason);
    case RejectOp(roles, reason) => PlainMove(w.db, RejectAction(w.db.status), roles, reason);
    case CorrectOp(roles) => CorrectInv(w.db, roles);
    case IngestOp(event) => TxsInv(w.db, Apply(env, w, op).db);
    case OrphanOp(key, bytes) =>
  }

  lemma {:induction false} RunLedger(env: Env, w: World, own: bool, ops: seq<Op>, last: World)
    requires DbInv(w.db) && Run(env, w, own, ops, last)
    ensures DbInv(last.db)
    decreases |ops|
  {
    hide DbInv, Enabled, OnVersion, Apply;
    if ops != [] {
      StepLedger(env, w, ops[0]);
      RunLedger(env, Apply(env, w, ops[0]), own, ops[1..], last);
    }
  }

  lemma NewInv()
    ensures DbInv(NEW_AGREEMENT)
  {
  }

  /** Over every interleaving: the transition log is a path of the table from DRAFT to the current status, neither
      AGENT_SIGNED nor EMPLOYEE_SIGNED is ever committed, and the closed versions are exactly 1 to current - 1. */
  lemma LogReplays(env: Env, w: World, ops: seq<Op>, last: World)
    requires Initial(w) && Run(env, w, false, ops, last)
    ensures LogOk(last.db) && ClosedOk(last.db) && last.db.status != AgentSigned && last.db.status != EmployeeSigned
  {
    hide Apply, Enabled, OnVersion;
    RunLedger(env, w, false, ops, last);
  }
}
