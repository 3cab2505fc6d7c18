/** Over every atomic run, successes, signed transactions and signed documents are equally many, and a failure
    transition is matched by a failed transaction. */
module Conservation {
  import opened Text
  import opened PdfObjects
  import opened IncrementalSigner
  import opened StateMachine
  import opened Protocol
  import opened ProtocolSafety
  import opened ProtocolLedger
  import opened VersionAccounting
  import opened AtomicProtocol
  import Executions
  import SigningTheorems

  predicate IsSuccess(a: Action) {
    a == AgentSignSucceed || a == EmployeeSignSucceed || a == MdSignSucceed
  }

  predicate IsFailure(a: Action) {
    a == AgentSignFail || a == EmployeeSignFail || a == MdSignFail
  }

  function Successes(log: seq<LogEntry>): nat {
    if log == [] then 0 else Successes(log[..|log| - 1]) + if IsSuccess(log[|log| - 1].action) then 1 else 0
  }

  function Failures(log: seq<LogEntry>): nat {
    if log == [] then 0 else Failures(log[..|log| - 1]) + if IsFailure(log[|log| - 1].action) then 1 else 0
  }

  function WithStatusCount(txs: seq<Transaction>, status: TxStatus): nat {
    if txs == [] then 0
    else WithStatusCount(txs[..|txs| - 1], status) + if txs[|txs| - 1].status == status then 1 else 0
  }

  function SignedRows(rows: seq<VersionRow>): nat {
    if rows == [] then 0 else SignedRows(rows[..|rows| - 1]) + if rows[|rows| - 1].state != Unsigned then 1 else 0
  }

  ghost predicate Tallied(db: Db) {
    && Successes(db.log) == WithStatusCount(db.txs, TxSigned) == SignedRows(db.rows)
    && Failures(db.log) <= WithStatusCount(db.txs, TxFailed)
  }

  lemma LogSnoc(log: seq<LogEntry>, e: LogEntry)
    ensures Successes(log + [e]) == Successes(log) + if IsSuccess(e.action) then 1 else 0
    ensures Failures(log + [e]) == Failures(log) + if IsFailure(e.action) then 1 else 0
  {
    assert (log + [e])[..|log|] == log;
  }

  lemma TxSnoc(txs: seq<Transaction>, t: Transaction, status: TxStatus)
    ensures WithStatusCount(txs + [t], status) == WithStatusCount(txs, status) + if t.status == status then 1 else 0
  {
    assert (txs + [t])[..|txs|] == txs;
  }

  lemma RowSnoc(rows: seq<VersionRow>, r: VersionRow)
    ensures SignedRows(rows + [r]) == SignedRows(rows) + if r.state != Unsigned then 1 else 0
  {
    assert (rows + [r])[..|rows|] == rows;
  }

  lemma {:induction false} TxUpdate(txs: seq<Transaction>, i: nat, t: Transaction, status: TxStatus)
    requires i < |txs|
    ensures WithStatusCount(txs[i := t], status) + (if txs[i].status == status then 1 else 0) ==
      WithStatusCount(txs, status) + if t.status == status then 1 else 0
  {
    var m := |txs| - 1;
    if i < m {
      assert txs[i := t][..m] == txs[..m][i := t];
      TxUpdate(txs[..m], i, t, status);
    } else {
      assert txs[i := t][..m] == txs[..m];
    }
  }

  lemma {:induction false} TxSameStatus(txs: seq<Transaction>, later: seq<Transaction>, status: TxStatus)
    requires |later| == |txs| && forall i :: 0 <= i < |txs| ==> (later[i].status == status <==> txs[i].status == status)
    ensures WithStatusCount(later, status) == WithStatusCount(txs, status)
  {
    if txs != [] {
      TxSameStatus(txs[..|txs| - 1], later[..|txs| - 1], status);
    }
  }

  /** What a move adds to the log. */
  lemma MoveEntry(db: Db, action: Action, roles: set<Role>, reason: string)
    ensures var m := Move(db, action, roles, reason);
      m.Done? ==> (Successes(m.value.log) == Successes(db.log) + (if IsSuccess(action) then 1 else 0)
                   && Failures(m.value.log) == Failures(db.log) + if IsFailure(action) then 1 else 0)
  {
    hide AssertTransition, Successes, Failures;
    var m := Move(db, action, roles, reason);
    if m.Done? {
      LogSnoc(db.log, m.value.log[|db.log|]);
    }
  }

  lemma NeutralMove(db: Db, action: Action, roles: set<Role>, reason: string)
    requires Tallied(db) && !IsSuccess(action) && !IsFailure(action)
    ensures Move(db, action, roles, reason).Done? ==> Tallied(Move(db, action, roles, reason).value)
  {
    hide Move, Successes, Failures, WithStatusCount, SignedRows;
    MoveKeeps(db, action, roles, reason);
    MoveEntry(db, action, roles, reason);
  }

  lemma CompleteTallied(env: Env, w: World, tx: nat, seen: nat, der: seq<byte>, month: nat)
    requires Tallied(w.db) && tx < |w.db.txs| && Open(w.db.txs[tx])
    ensures var e := CompleteEffect(env, w, tx, seen, der, month); e.db.Done? ==> Tallied(e.db.value)
  {
    hide SignParked, StoreDocument, Move, Successes, Failures, WithStatusCount, SignedRows;
    var t := w.db.txs[tx];
    if SignParked(env, w.store, t, der).Done? {
      var signed := SignParked(env, w.store, t, der).value;
      StoredShape(env, w.store, w.db, month, seen, SignedCopy(t.party), Some(SignedBy(t.party)), signed);
      var stored := StoreDocument(env, w.store, w.db, month, seen, SignedCopy(t.party), Some(SignedBy(t.party)),
                                  signed);
      if stored.db.Done? {
        RowSnoc(w.db.rows,
                VersionRow(seen, SignedBy(t.party), env.sha(signed), ObjectKey(month, seen, SignedCopy(t.party))));
        TxUpdate(w.db.txs, tx, t.(status := TxSigned), TxSigned);
        TxUpdate(w.db.txs, tx, t.(status := TxSigned), TxFailed);
        SuccessEntry(WithStatus(stored.db.value, tx, TxSigned), t.party);
      }
    }
  }

  lemma SuccessEntry(db: Db, p: Party)
    ensures var m := MoveChain(db, [SucceedBy(p)] + AdvanceBy(p), {System});
      m.Done? ==> (Successes(m.value.log) == Successes(db.log) + 1 && Failures(m.value.log) == Failures(db.log)
                   && m.value.txs == db.txs && m.value.rows == db.rows)
  {
    hide Move, Successes, Failures;
    var actions := [SucceedBy(p)] + AdvanceBy(p);
    MoveChainKeeps(db, actions, {System});
    MoveEntry(db, SucceedBy(p), {System}, "");
    var first := Move(db, SucceedBy(p), {System}, "");
    if first.Done? {
      assert actions[1..] == AdvanceBy(p);
      ChainTail(first.value, actions[1..]);
      if p != Md {
        MoveEntry(first.value, AdvanceBy(p)[0], {System}, "");
      }
    }
  }

  lemma FailTallied(w: World, tx: nat)
    requires Tallied(w.db) && tx < |w.db.txs| && Open(w.db.txs[tx])
    ensures Tallied(FailSignature(w, tx).db)
  {
    hide Move, Successes, Failures, WithStatusCount, SignedRows;
    var t := w.db.txs[tx];
    TxUpdate(w.db.txs, tx, t.(status := TxFailed), TxSigned);
    TxUpdate(w.db.txs, tx, t.(status := TxFailed), TxFailed);
    if PartySigning(w.db.status).Some? {
      var a := FailBy(PartySigning(w.db.status).value);
      MoveKeeps(WithStatus(w.db, tx, TxFailed), a, {System}, "");
      MoveEntry(WithStatus(w.db, tx, TxFailed), a, {System}, "");
    }
  }

  lemma OutcomeTallied(env: Env, w: World, tx: nat, status: TxStatus, p: Provider)
    requires Tallied(w.db) && tx < |w.db.txs| && Open(w.db.txs[tx])
    ensures Tallied(ApplyOutcome(env, w, tx, status, p).world.db)
  {
    hide CompleteEffect, FailSignature, Tallied;
    FailTallied(w, tx);
    CompleteTallied(env, w, tx, w.db.version, p.der, p.month);
    FailTallied(World(w.db, CompleteEffect(env, w, tx, w.db.version, p.der, p.month).store), tx);
  }

  lemma GenerateTallied(env: Env, w: World, v: nat, roles: set<Role>, source: Source, prepared: string, month: nat)
    requires Tallied(w.db)
    ensures Tallied(Settle(w, GenerateEffect(env, w, v, roles, source, prepared, month)).db)
  {
    hide StoreDocument, Move, Successes, Failures, WithStatusCount, SignedRows;
    var first := StoreSource(env, w.store, w.db, month, v, source);
    SourceShape(env, w, v, source, month);
    if first.db.Done? {
      StoredShape(env, first.store, first.db.value, month, v, PreparedUnsigned, Some(Unsigned), prepared);
      var second := StoreDocument(env, first.store, first.db.value, month, v, PreparedUnsigned, Some(Unsigned),
                                  prepared);
      if second.db.Done? {
        RowSnoc(first.db.value.rows, VersionRow(v, Unsigned, env.sha(prepared), ObjectKey(month, v, PreparedUnsigned)));
        NeutralMove(second.db.value, Generate, roles, "");
      }
    }
  }

  /** How the step's result comes about. */
  lemma InitiateShape(env: Env, w: World, party: Party, presented: string, isParty: bool, roles: set<Role>,
                      opts: Appearance, month: nat, upto: nat)
    returns (t: Transaction, key: Key)
    ensures t.status == PendingSigner
    ensures var db := Initiate(env, w, party, presented, isParty, roles, opts, month, upto).db;
      var m := Move(w.db, InitiateBy(party), roles, "");
      || db == w.db
      || (m.Done? && db == m.value)
      || (m.Done? && db == m.value.(txs := m.value.txs + [t]))
      || (m.Done? && db == Link(m.value.(txs := m.value.txs + [t]), |m.value.txs|, key))
  {
    hide Park, CurrentRow, LastAttempt, HasOpen, Move;
    t, key := Transaction(party, 0, "", "", None, PendingSigner, 0), ObjectKey(0, 0, UploadedSource);
    var current := CurrentRow(w.db.rows, w.db.version);
    var m := Move(w.db, InitiateBy(party), roles, "");
    if m.Done? && current.Some? {
      var row := w.db.rows[current.value];
      var parked := Park(env, w.store, row, party, opts, month).1;
      if parked.Done? {
        t := Transaction(party, row.version, parked.value.digest, row.hash, None, PendingSigner,
                         LastAttempt(m.value.txs, party, row.version) + 1);
        key := parked.value.key;
      }
    }
  }

  lemma InitiateTallied(env: Env, w: World, party: Party, presented: string, isParty: bool, roles: set<Role>,
                        opts: Appearance, month: nat, upto: nat)
    requires Tallied(w.db)
    ensures Tallied(Initiate(env, w, party, presented, isParty, roles, opts, month, upto).db)
  {
    hide Initiate, Move, Tallied, Link;
    var t, key := InitiateShape(env, w, party, presented, isParty, roles, opts, month, upto);
    NeutralMove(w.db, InitiateBy(party), roles, "");
    var m := Move(w.db, InitiateBy(party), roles, "");
    if m.Done? {
      OpenedTallied(m.value, t, key);
    }
  }

  lemma OpenedTallied(db: Db, t: Transaction, key: Key)
    requires Tallied(db) && t.status == PendingSigner
    ensures Tallied(db.(txs := db.txs + [t])) && Tallied(Link(db.(txs := db.txs + [t]), |db.txs|, key))
  {
    hide Successes, Failures, WithStatusCount, SignedRows;
    TxSnoc(db.txs, t, TxSigned);
    TxSnoc(db.txs, t, TxFailed);
    var txs := db.txs + [t];
    TxSameStatus(txs, txs[|db.txs| := t.(parked := Some(key))], TxSigned);
    TxSameStatus(txs, txs[|db.txs| := t.(parked := Some(key))], TxFailed);
  }

  lemma CorrectTallied(db: Db, roles: set<Role>)
    requires Tallied(db)
    ensures CorrectDb(db, roles).Done? ==> Tallied(CorrectDb(db, roles).value)
  {
    hide Move, CountSigned, HasClosed, Successes, Failures, WithStatusCount, SignedRows;
    var next := Closing(db);
    TxSameStatus(db.txs, next.txs, TxSigned);
    TxSameStatus(db.txs, next.txs, TxFailed);
    NeutralMove(next, Correct, roles, "");
    MoveKeeps(next, Correct, roles, "");
  }

  lemma LedgerTallied(db: Db, ledger: map<string, CallbackOutcome>)
    requires Tallied(db)
    ensures Tallied(db.(ledger := ledger))
  {
    hide Successes, Failures, WithStatusCount, SignedRows;
  }

  lemma StepTallied(env: Env, w: World, s: Step)
    requires Tallied(w.db) && Admissible(s)
    ensures Tallied(Take(env, w, s).db)
  {
    hide Tallied, Move, GenerateEffect, ApplyOutcome, Initiate, CorrectDb, Ingest, CurrentRow, Executions.Baseline,
      SigningTheorems.GoodOptions;
    match s
    case GenerateStep(roles, source, prepared, month) =>
      GenerateTallied(env, w, w.db.version, roles, source, prepared, month);
    case InitiateStep(party, presented, isParty, roles, opts, month, upto) =>
      InitiateTallied(env, w, party, presented, isParty, roles, opts, month, upto);
    case CallbackStep(event, provider) =>
      IngestKeeps(w.db, event);
      LedgerTallied(w.db, Ingest(w.db, event).db.ledger);
      if Ingest(w.db, event).outcome == Applied {
        OutcomeTallied(env, World(Ingest(w.db, event).db, w.store), event.tx, event.status, provider);
      }
    case ReconcileStep(tx, provider) =>
      if tx < |w.db.txs| && Open(w.db.txs[tx]) {
        OutcomeTallied(env, w, tx, provider.status, provider);
      }
    case RejectStep(roles, reason) => NeutralMove(w.db, RejectAction(w.db.status), roles, reason);
    case DecideStep(action, roles, reason) => NeutralMove(w.db, action, roles, reason);
    case CorrectStep(roles) => CorrectTallied(w.db, roles);
    case OrphanStep(key, bytes) =>
  }

  /** Over every atomic run: as many success transitions as signed transactions as signed documents, and no failure
      transition without a failed transaction. */
  lemma {:induction false} RunTallied(env: Env, w: World, steps: seq<Step>, last: World)
    requires Tallied(w.db) && AtomicRun(env, w, steps, last)
    ensures Tallied(last.db)
    decreases |steps|
  {
    hide Tallied, Take, Admissible;
    if steps != [] {
      StepTallied(env, w, steps[0]);
      RunTallied(env, Take(env, w, steps[0]), steps[1..], last);
    }
  }
}
