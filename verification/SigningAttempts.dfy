/** The signing transactions of an agreement over every interleaving of requests: how attempts are numbered, that one at
    most is open for a party and version, and which document each is for. */
module SigningAttempts {
  import opened Text
  import opened PdfObjects
  import opened IncrementalSigner
  import opened StateMachine
  import opened SigningTheorems
  import opened Executions
  import opened Protocol
  import opened ProtocolSafety
  import opened ProtocolLedger
  import opened VersionAccounting
  import opened AtomicProtocol

  /** The earlier attempts of the same party on the same version. */
  function Earlier(txs: seq<Transaction>, k: nat, party: Party, version: nat): set<nat>
    requires k <= |txs|
  {
    set i: nat | i < k && txs[i].party == party && txs[i].version == version
  }

  /** Attempts are numbered from 1 for each party and version, one of them at most is open, and each names a document of
      its version. */
  ghost predicate TxsOk(txs: seq<Transaction>, rows: seq<VersionRow>) {
    && (forall k :: 0 <= k < |txs| ==> txs[k].attempt == |Earlier(txs, k, txs[k].party, txs[k].version)| + 1)
    && (forall i, j :: 0 <= i < j < |txs| && txs[i].party == txs[j].party && txs[i].version == txs[j].version ==>
          !(Open(txs[i]) && Open(txs[j])))
    && forall k :: 0 <= k < |txs| ==> Named(txs[k], rows)
  }

  predicate Named(t: Transaction, rows: seq<VersionRow>) {
    exists i :: 0 <= i < |rows| && rows[i].version == t.version && rows[i].hash == t.hash
  }

  /** Transactions keep their identity, and what was resolved stays so. */
  ghost predicate Continues(txs: seq<Transaction>, later: seq<Transaction>) {
    && |later| == |txs|
    && forall k :: 0 <= k < |txs| ==>
      && later[k].party == txs[k].party && later[k].version == txs[k].version && later[k].attempt == txs[k].attempt
      && later[k].hash == txs[k].hash && (Open(later[k]) ==> Open(txs[k]))
  }

  // ---- Numbering ----------------------------------------------------------------------------------

  ghost predicate Numbered(txs: seq<Transaction>) {
    forall k :: 0 <= k < |txs| ==> txs[k].attempt == |Earlier(txs, k, txs[k].party, txs[k].version)| + 1
  }

  lemma EarlierPrefix(txs: seq<Transaction>, m: nat, k: nat, party: Party, version: nat)
    requires k <= m <= |txs|
    ensures Earlier(txs[..m], k, party, version) == Earlier(txs, k, party, version)
  {
  }

  lemma NumberedPrefix(txs: seq<Transaction>, m: nat)
    requires Numbered(txs) && m <= |txs|
    ensures Numbered(txs[..m])
  {
    hide Earlier;
    forall k | 0 <= k < m
      ensures txs[k].attempt == |Earlier(txs[..m], k, txs[k].party, txs[k].version)| + 1
    {
      EarlierPrefix(txs, m, k, txs[k].party, txs[k].version);
    }
  }

  lemma EarlierSnoc(txs: seq<Transaction>, party: Party, version: nat)
    requires txs != []
    ensures var m := |txs| - 1; var before := Earlier(txs[..m], m, party, version);
      |Earlier(txs, |txs|, party, version)| ==
        if txs[m].party == party && txs[m].version == version then |before| + 1 else |before|
  {
    hide Earlier;
    var m := |txs| - 1;
    EarlierPrefix(txs, m, m, party, version);
    EarlierNext(txs, m, party, version);
  }

  lemma EarlierNext(txs: seq<Transaction>, m: nat, party: Party, version: nat)
    requires m < |txs|
    ensures var before := Earlier(txs, m, party, version);
      && m !in before
      && Earlier(txs, m + 1, party, version) ==
           if txs[m].party == party && txs[m].version == version then before + {m} else before
  {
  }

  /** The last attempt is the number of attempts. */
  lemma {:induction false} LastIsCount(txs: seq<Transaction>, party: Party, version: nat)
    requires Numbered(txs)
    ensures LastAttempt(txs, party, version) == |Earlier(txs, |txs|, party, version)|
  {
    if txs == [] {
      assert Earlier(txs, 0, party, version) == {};
    } else {
      hide Earlier;
      var m := |txs| - 1;
      NumberedPrefix(txs, m);
      LastIsCount(txs[..m], party, version);
      EarlierSnoc(txs, party, version);
      EarlierPrefix(txs, m, m, party, version);
    }
  }

  lemma EarlierContinues(txs: seq<Transaction>, later: seq<Transaction>, k: nat, party: Party, version: nat)
    requires Continues(txs, later) && k <= |txs|
    ensures Earlier(later, k, party, version) == Earlier(txs, k, party, version)
  {
  }

  lemma ContinuesOk(txs: seq<Transaction>, later: seq<Transaction>, rows: seq<VersionRow>, more: seq<VersionRow>)
    requires TxsOk(txs, rows) && Continues(txs, later) && rows <= more
    ensures TxsOk(later, more)
  {
    hide Earlier;
    forall k | 0 <= k < |later|
      ensures later[k].attempt == |Earlier(later, k, later[k].party, later[k].version)| + 1 && Named(later[k], more)
    {
      EarlierContinues(txs, later, k, txs[k].party, txs[k].version);
      NamedStays(txs[k], later[k], rows, more);
    }
  }

  lemma NamedStays(t: Transaction, later: Transaction, rows: seq<VersionRow>, more: seq<VersionRow>)
    requires Named(t, rows) && rows <= more && later.version == t.version && later.hash == t.hash
    ensures Named(later, more)
  {
    var i :| 0 <= i < |rows| && rows[i].version == t.version && rows[i].hash == t.hash;
    assert more[i] == rows[i];
  }

  lemma OpenedOk(db: Db, party: Party, row: nat, digest: string)
    requires TxsOk(db.txs, db.rows) && row < |db.rows|
    requires OpenDb(db, party, db.rows[row].version, digest, db.rows[row].hash).Done?
    ensures TxsOk(OpenDb(db, party, db.rows[row].version, digest, db.rows[row].hash).value.txs, db.rows)
  {
    hide LastAttempt, Earlier;
    var version := db.rows[row].version;
    var all := OpenDb(db, party, version, digest, db.rows[row].hash).value.txs;
    LastIsCount(db.txs, party, version);
    forall k | 0 <= k < |all|
      ensures all[k].attempt == |Earlier(all, k, all[k].party, all[k].version)| + 1 && Named(all[k], db.rows)
    {
      EarlierPrefix(all, |db.txs|, k, all[k].party, all[k].version);
      assert all[..|db.txs|] == db.txs;
      if k < |db.txs| {
        EarlierPrefix(all, |db.txs|, k, all[k].party, all[k].version);
      }
    }
  }

  // ---- The steps ----------------------------------------------------------------------------------

  lemma SameContinues(txs: seq<Transaction>)
    ensures Continues(txs, txs)
  {
  }

  lemma GenerateTxs(env: Env, w: World, seen: nat, roles: set<Role>, source: Source, prepared: string, month: nat)
    ensures var next := Settle(w, GenerateEffect(env, w, seen, roles, source, prepared, month));
      next.db.txs == w.db.txs && w.db.rows <= next.db.rows
  {
    hide StoreDocument, Move;
    var first := StoreSource(env, w.store, w.db, month, seen, source);
    SourceShape(env, w, seen, source, month);
    if first.db.Done? {
      StoredShape(env, first.store, first.db.value, month, seen, PreparedUnsigned, Some(Unsigned), prepared);
      var second := StoreDocument(env, first.store, first.db.value, month, seen, PreparedUnsigned, Some(Unsigned),
                                  prepared);
      if second.db.Done? {
        MoveKeeps(second.db.value, Generate, roles, "");
      }
    }
  }

  lemma CompleteRows(env: Env, w: World, tx: nat, seen: nat, der: seq<byte>, month: nat)
    requires tx < |w.db.txs|
    ensures var next := Settle(w, CompleteEffect(env, w, tx, seen, der, month));
      Continues(w.db.txs, next.db.txs) && w.db.rows <= next.db.rows
  {
    hide SignParked, StoreDocument, MoveChain;
    CompleteTxs(env, w, tx, seen, der, month);
    var t := w.db.txs[tx];
    if SignParked(env, w.store, t, der).Done? {
      var signed := SignParked(env, w.store, t, der).value;
      StoredShape(env, w.store, w.db, month, seen, SignedCopy(t.party), Some(SignedBy(t.party)), signed);
      var stored := StoreDocument(env, w.store, w.db, month, seen, SignedCopy(t.party), Some(SignedBy(t.party)),
                                  signed);
      if stored.db.Done? {
        MoveChainKeeps(WithStatus(stored.db.value, tx, TxSigned), [SucceedBy(t.party)] + AdvanceBy(t.party), {System});
      }
    }
  }

  /** Opening aside, every step keeps the transactions there are, and rows are only added. */
  lemma StepContinues(env: Env, w: World, op: Op)
    requires !op.OpenOp?
    ensures var next := Apply(env, w, op); Continues(w.db.txs, next.db.txs) && w.db.rows <= next.db.rows
  {
    hide Move, GenerateEffect, CompleteEffect, Park, CurrentRow, CountSigned, HasClosed, Continues;
    SameContinues(w.db.txs);
    match op
    case GenerateOp(seen, roles, source, prepared, month) => GenerateTxs(env, w, seen, roles, source, prepared, month);
    case StartOp(party, presented, isParty, roles) => MoveKeeps(w.db, InitiateBy(party), roles, "");
    case ActOp(action, roles, reason) => MoveKeeps(w.db, action, roles, reason);
    case RejectOp(roles, reason) => MoveKeeps(w.db, RejectAction(w.db.status), roles, reason);
    case CompleteOp(tx, seen, der, month) =>
      if tx < |w.db.txs| {
        CompleteRows(env, w, tx, seen, der, month);
      }
    case FailOp(tx, seen) => FailContinues(w, tx, seen);
    case CorrectOp(roles) => CorrectContinues(w.db, roles);
    case LinkOp(tx, key) => LinkContinues(w.db, tx, key);
    case _ =>
  }

  lemma FailContinues(w: World, tx: nat, seen: Status)
    ensures tx < |w.db.txs| && FailDb(w.db, tx, seen).Done? ==>
      Continues(w.db.txs, FailDb(w.db, tx, seen).value.txs) && FailDb(w.db, tx, seen).value.rows == w.db.rows
  {
    hide Move;
    if tx < |w.db.txs| && PartySigning(seen).Some? {
      MoveKeeps(WithStatus(w.db, tx, TxFailed), FailBy(PartySigning(seen).value), {System}, "");
    }
  }

  lemma CorrectContinues(db: Db, roles: set<Role>)
    ensures CorrectDb(db, roles).Done? ==>
      Continues(db.txs, CorrectDb(db, roles).value.txs) && CorrectDb(db, roles).value.rows == db.rows
  {
    hide Move, CountSigned, HasClosed;
    MoveKeeps(Closing(db), Correct, roles, "");
  }

  lemma LinkContinues(db: Db, tx: nat, key: Key)
    ensures tx < |db.txs| ==> Continues(db.txs, Link(db, tx, key).txs) && Link(db, tx, key).rows == db.rows
  {
  }

  lemma StepTxs(env: Env, w: World, op: Op)
    requires TxsOk(w.db.txs, w.db.rows)
    ensures TxsOk(Apply(env, w, op).db.txs, Apply(env, w, op).db.rows)
  {
    hide TxsOk, GenerateEffect, CompleteEffect, Park, Move, OpenDb;
    if op.OpenOp? {
      if op.row < |w.db.rows| {
        var row := w.db.rows[op.row];
        if OpenDb(w.db, op.party, row.version, op.digest, row.hash).Done? {
          OpenedOk(w.db, op.party, op.row, op.digest);
          assert OpenDb(w.db, op.party, row.version, op.digest, row.hash).value.rows == w.db.rows
          by { OpenRows(w.db, op.party, row.version, op.digest, row.hash); }
        }
      }
    } else {
      StepContinues(env, w, op);
      ContinuesOk(w.db.txs, Apply(env, w, op).db.txs, w.db.rows, Apply(env, w, op).db.rows);
    }
  }

  lemma OpenRows(db: Db, party: Party, version: nat, digest: string, hash: string)
    ensures var o := OpenDb(db, party, version, digest, hash); o.Done? ==> o.value.rows == db.rows
  {
    hide LastAttempt, HasOpen;
  }

  lemma {:induction false} RunTxs(env: Env, w: World, own: bool, ops: seq<Op>, last: World)
    requires TxsOk(w.db.txs, w.db.rows) && Run(env, w, own, ops, last)
    ensures TxsOk(last.db.txs, last.db.rows)
    decreases |ops|
  {
    hide TxsOk, Enabled, OnVersion, Apply;
    if ops != [] {
      StepTxs(env, w, ops[0]);
      RunTxs(env, Apply(env, w, ops[0]), own, ops[1..], last);
    }
  }

  /** Over every interleaving: attempts are numbered without gap or repetition for each party and version, one of them
      at most is open, and each is for a document of its version, by its hash. */
  lemma AttemptsNumbered(env: Env, w: World, ops: seq<Op>, last: World)
    requires Initial(w) && Run(env, w, false, ops, last)
    ensures TxsOk(last.db.txs, last.db.rows)
  {
    hide Run;
    RunTxs(env, w, false, ops, last);
  }
}
