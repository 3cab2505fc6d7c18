/** What holds when every transaction is resolved on its own version: each signed document extends its version's
    prepared document, and each correction records exactly the signatures it voids. */
module VersionAccounting {
  import opened Text
  import opened PdfObjects
  import opened IncrementalSigner
  import opened StateMachine
  import opened SigningTheorems
  import opened Verifier
  import opened Preservation
  import opened SignatureRuns
  import Ceremonies
  import opened Executions
  import opened Protocol
  import opened ProtocolSafety
  import opened ProtocolLedger

  // ---- Counting the signed documents of a version -------------------------------------------------

  lemma PrefixLadder(rows: seq<VersionRow>, m: nat)
    requires Ladder(rows) && Ordered(rows) && m <= |rows|
    ensures Ladder(rows[..m]) && Ordered(rows[..m])
  {
    hide Level, HasLevel;
    var front := rows[..m];
    forall i | 0 <= i < |front| && Level(front[i].state) > 0
      ensures HasLevel(front, front[i].version, Level(front[i].state) - 1)
    {
      var j := LowerRow(rows, i);
      assert front[j] == rows[j];
      LevelAt(front, j);
    }
  }

  lemma LevelAt(rows: seq<VersionRow>, j: nat)
    requires j < |rows|
    ensures HasLevel(rows, rows[j].version, Level(rows[j].state))
  {
  }

  /** The signed documents of a version are as many as the signatures on its last one. */
  lemma {:induction false} CountIsLevel(rows: seq<VersionRow>, version: nat)
    requires Ladder(rows) && Ordered(rows)
    ensures CountSigned(rows, version) ==
      match CurrentRow(rows, version) case None => 0 case Some(i) => Level(rows[i].state)
  {
    hide Level, Ladder, Ordered;
    if rows != [] {
      var m := |rows| - 1;
      var (front, last) := (rows[..m], rows[m]);
      PrefixLadder(rows, m);
      CountIsLevel(front, version);
      if last.version == version {
        LastLevel(rows);
        LevelZero(last.state);
      }
    }
  }

  lemma LevelZero(s: DocState)
    ensures Level(s) == 0 <==> s == Unsigned
  {
  }

  lemma LevelsRise(rows: seq<VersionRow>, i: nat, j: nat)
    requires Ordered(rows) && i < j < |rows| && rows[i].version == rows[j].version
    ensures Level(rows[i].state) < Level(rows[j].state)
  {
  }

  lemma NoneBetween(rows: seq<VersionRow>, j: nat, i: nat, m: nat)
    requires Ordered(rows) && j <= i < m < |rows| && rows[j].version == rows[i].version == rows[m].version
    requires Level(rows[m].state) == Level(rows[j].state) + 1
    ensures i == j
  {
    hide Ordered, Level;
    if j < i {
      LevelsRise(rows, j, i);
      LevelsRise(rows, i, m);
      assert false;
    }
  }

  lemma LowerRow(rows: seq<VersionRow>, m: nat) returns (j: nat)
    requires Ladder(rows) && Ordered(rows) && m < |rows| && Level(rows[m].state) > 0
    ensures j < m && rows[j].version == rows[m].version && Level(rows[m].state) == Level(rows[j].state) + 1
  {
    hide Level, Ordered;
    assert HasLevel(rows, rows[m].version, Level(rows[m].state) - 1);
    j :| 0 <= j < |rows| && rows[j].version == rows[m].version && Level(rows[j].state) == Level(rows[m].state) - 1;
    if j > m {
      LevelsRise(rows, m, j);
    }
  }

  /** The last row of a version stands one level above the one before it. */
  lemma LastLevel(rows: seq<VersionRow>)
    requires Ladder(rows) && Ordered(rows) && rows != []
    ensures var m := |rows| - 1;
      match CurrentRow(rows[..m], rows[m].version)
      case None => Level(rows[m].state) == 0
      case Some(i) => Level(rows[m].state) == Level(rows[i].state) + 1
  {
    hide Level, Ladder, Ordered;
    var m := |rows| - 1;
    var front := rows[..m];
    var before := CurrentRow(front, rows[m].version);
    if Level(rows[m].state) > 0 {
      var j := LowerRow(rows, m);
      assert front[j] == rows[j];
      assert before.Some? && j <= before.value;
      assert front[before.value] == rows[before.value];
      NoneBetween(rows, j, before.value, m);
    } else if before.Some? {
      assert front[before.value] == rows[before.value];
      OrderedPair(rows, before.value, m);
    } else {
      LevelNat(rows[m].state);
    }
  }

  lemma OrderedPair(rows: seq<VersionRow>, i: nat, j: nat)
    requires Ordered(rows) && i < j < |rows| && rows[i].version == rows[j].version
    ensures Level(rows[j].state) > 0
  {
    hide Level;
    assert Level(rows[i].state) < Level(rows[j].state);
    LevelNat(rows[i].state);
  }

  lemma LevelNat(s: DocState)
    ensures Level(s) >= 0
  {
  }

  lemma {:induction false} CountOthers(rows: seq<VersionRow>, more: seq<VersionRow>, version: nat)
    requires forall i :: 0 <= i < |more| ==> more[i].version != version
    ensures CountSigned(rows + more, version) == CountSigned(rows, version)
    decreases |more|
  {
    if more == [] {
      assert rows + more == rows;
    } else {
      var m := |more| - 1;
      assert (rows + more)[..|rows + more| - 1] == rows + more[..m];
      CountOthers(rows, more[..m], version);
    }
  }

  // ---- Voided signatures --------------------------------------------------------------------------

  /** Every closed version records the signed documents it had. */
  ghost predicate VoidedOk(db: Db) {
    forall i :: 0 <= i < |db.closed| ==>
      db.closed[i].voided == CountSigned(db.rows, db.closed[i].version) && db.closed[i].version < db.version
  }

  lemma VoidedKept(db: Db, next: Db, more: seq<VersionRow>)
    requires VoidedOk(db) && next.rows == db.rows + more && next.closed == db.closed && next.version == db.version
    requires forall i :: 0 <= i < |more| ==> more[i].version == db.version
    ensures VoidedOk(next)
  {
    hide CountSigned;
    forall i | 0 <= i < |db.closed|
      ensures next.closed[i].voided == CountSigned(next.rows, next.closed[i].version)
    {
      CountOthers(db.rows, more, db.closed[i].version);
    }
  }

  lemma CorrectVoids(db: Db, roles: set<Role>)
    requires VoidedOk(db) && DbInv(db)
    ensures CorrectDb(db, roles).Done? ==> VoidedOk(CorrectDb(db, roles).value)
  {
    hide DbInv, Move, CountSigned, HasClosed;
    var next := Closing(db);
    MoveKeeps(next, Correct, roles, "");
  }

  /** The rows a step adds, all of the current version. */
  ghost predicate Adds(db: Db, next: Db) {
    exists more: seq<VersionRow> :: next.rows ==
      db.rows + more && (forall i :: 0 <= i < |more| ==> more[i].version == db.version)
      && next.closed == db.closed && next.version == db.version
  }

  lemma AddsKeeps(db: Db, next: Db)
    requires VoidedOk(db) && Adds(db, next)
    ensures VoidedOk(next)
  {
    hide VoidedOk;
    var more: seq<VersionRow> :| next.rows == db.rows + more
      && (forall i :: 0 <= i < |more| ==> more[i].version == db.version)
      && next.closed == db.closed && next.version == db.version;
    VoidedKept(db, next, more);
  }

  lemma AddsNothing(db: Db, next: Db)
    requires next.rows == db.rows && next.closed == db.closed && next.version == db.version
    ensures Adds(db, next)
  {
    assert next.rows == db.rows + [];
  }

  lemma AddsOne(db: Db, next: Db, r: VersionRow)
    requires next.rows == db.rows + [r] && r.version == db.version && next.closed == db.closed
    requires next.version == db.version
    ensures Adds(db, next)
  {
  }

  lemma GenerateAdds(env: Env, w: World, roles: set<Role>, source: Source, prepared: string, month: nat)
    ensures Adds(w.db, Settle(w, GenerateEffect(env, w, w.db.version, roles, source, prepared, month)).db)
  {
    hide StoreDocument, Move, Adds;
    var v := w.db.version;
    AddsNothing(w.db, w.db);
    var first := StoreSource(env, w.store, w.db, month, v, source);
    if first.db.Done? {
      SourceShape(env, w, v, source, month);
      StoredShape(env, first.store, first.db.value, month, v, PreparedUnsigned, Some(Unsigned), prepared);
      var second := StoreDocument(env, first.store, first.db.value, month, v, PreparedUnsigned, Some(Unsigned),
                                  prepared);
      if second.db.Done? {
        MoveKeeps(second.db.value, Generate, roles, "");
        var m := Move(second.db.value, Generate, roles, "");
        if m.Done? {
          AddsOne(w.db, m.value, VersionRow(v, Unsigned, env.sha(prepared), ObjectKey(month, v, PreparedUnsigned)));
        }
      }
    }
  }

  lemma SourceShape(env: Env, w: World, seen: nat, source: Source, month: nat)
    ensures var first := StoreSource(env, w.store, w.db, month, seen, source);
      first.db.Done? ==> first.db.value == w.db.(documents := first.db.value.documents)
  {
  }

  lemma CompleteAdds(env: Env, w: World, tx: nat, der: seq<byte>, month: nat)
    requires tx < |w.db.txs|
    ensures Adds(w.db, Settle(w, CompleteEffect(env, w, tx, w.db.version, der, month)).db)
  {
    hide StoreDocument, MoveChain, Adds, SignParked;
    var v := w.db.version;
    var t := w.db.txs[tx];
    AddsNothing(w.db, w.db);
    if SignParked(env, w.store, t, der).Done? {
      var signed := SignParked(env, w.store, t, der).value;
      StoredShape(env, w.store, w.db, month, v, SignedCopy(t.party), Some(SignedBy(t.party)), signed);
      var stored := StoreDocument(env, w.store, w.db, month, v, SignedCopy(t.party), Some(SignedBy(t.party)), signed);
      if stored.db.Done? {
        var db := WithStatus(stored.db.value, tx, TxSigned);
        var actions := [SucceedBy(t.party)] + AdvanceBy(t.party);
        MoveChainKeeps(db, actions, {System});
        var m := MoveChain(db, actions, {System});
        if m.Done? {
          AddsOne(w.db, m.value,
                  VersionRow(v, SignedBy(t.party), env.sha(signed), ObjectKey(month, v, SignedCopy(t.party))));
        }
      }
    }
  }

  lemma StepVoided(env: Env, w: World, op: Op)
    requires VoidedOk(w.db) && DbInv(w.db) && Enabled(w, op) && OnVersion(w, op)
    ensures VoidedOk(Apply(env, w, op).db)
  {
    hide VoidedOk, DbInv, Adds, Move, GenerateEffect, CompleteEffect, Park, Baseline, CurrentRow, HasOpen, LastAttempt,
      CorrectDb, GoodOptions;
    var next := Apply(env, w, op);
    match op
    case GenerateOp(seen, roles, source, prepared, month) =>
      GenerateAdds(env, w, roles, source, prepared, month);
      AddsKeeps(w.db, next.db);
    case CompleteOp(tx, seen, der, month) =>
      CompleteAdds(env, w, tx, der, month);
      AddsKeeps(w.db, next.db);
    case CorrectOp(roles) => CorrectVoids(w.db, roles);
    case StartOp(party, presented, isParty, roles) =>
      MoveKeeps(w.db, InitiateBy(party), roles, "");
      AddsNothing(w.db, next.db);
      AddsKeeps(w.db, next.db);
    case ActOp(action, roles, reason) =>
      MoveKeeps(w.db, action, roles, reason);
      AddsNothing(w.db, next.db);
      AddsKeeps(w.db, next.db);
    case RejectOp(roles, reason) =>
      MoveKeeps(w.db, RejectAction(w.db.status), roles, reason);
      AddsNothing(w.db, next.db);
      AddsKeeps(w.db, next.db);
    case FailOp(tx, status) =>
      FailShape(w.db, tx, status);
      AddsNothing(w.db, next.db);
      AddsKeeps(w.db, next.db);
    case _ =>
      AddsNothing(w.db, next.db);
      AddsKeeps(w.db, next.db);
  }

  lemma FailShape(db: Db, tx: nat, status: Status)
    requires tx < |db.txs|
    ensures var f := FailDb(db, tx, status);
      f.Done? ==> f.value.rows == db.rows && f.value.closed == db.closed && f.value.version == db.version
  {
    hide Move;
    if PartySigning(status).Some? {
      MoveKeeps(WithStatus(db, tx, TxFailed), FailBy(PartySigning(status).value), {System}, "");
    }
  }

  lemma {:induction false} RunVoided(env: Env, w: World, ops: seq<Op>, last: World)
    requires VoidedOk(w.db) && DbInv(w.db) && Run(env, w, true, ops, last)
    ensures VoidedOk(last.db)
    decreases |ops|
  {
    hide VoidedOk, DbInv, Enabled, OnVersion, Apply;
    if ops != [] {
      StepVoided(env, w, ops[0]);
      StepLedger(env, w, ops[0]);
      RunVoided(env, Apply(env, w, ops[0]), ops[1..], last);
    }
  }

  /** When transactions are resolved on their own version, every correction records as voided exactly the signatures on
      the last document of the version it closes. */
  lemma VoidedSignatures(env: Env, w: World, ops: seq<Op>, last: World, i: nat)
    requires Initial(w) && Run(env, w, true, ops, last) && i < |last.db.closed|
    ensures last.db.closed[i].version == i + 1
    ensures match CurrentRow(last.db.rows, i + 1)
      case None => last.db.closed[i].voided == 0
      case Some(j) =>
        (last.db.rows[j].key in last.store && last.db.closed[i].voided == |Slots(last.store[last.db.rows[j].key], 0)|)
  {
    hide Enabled, OnVersion, Apply, Slots, RowsOk, DocumentsOk, ParkedOk, LinksOk, Unique, LogOk, VersionsOk, FinalOk,
      CurrentRow, Ladder, Ordered, Level;
    InitialInv(env, w, true);
    RunKeeps(env, w, true, ops, last);
    NewInv();
    RunLedger(env, w, true, ops, last);
    RunVoided(env, w, ops, last);
    CountIsLevel(last.db.rows, i + 1);
    match CurrentRow(last.db.rows, i + 1)
    case None =>
    case Some(j) => RowSlots(env, last, true, j);
  }

  lemma RowSlots(env: Env, w: World, own: bool, i: nat)
    requires RowsOk(env, w.db.rows, w.store, own) && i < |w.db.rows|
    ensures w.db.rows[i].key in w.store && |Slots(w.store[w.db.rows[i].key], 0)| == Level(w.db.rows[i].state)
  {
    hide Slots, IsBase, Level, Executed;
    var r := w.db.rows[i];
    assert RowOk(env, w.db.rows, w.store, own, r);
    var base :| Executed(env.commits, base, w.store[r.key], Level(r.state));
    ExecutedSlots(env.commits, base, w.store[r.key], Level(r.state));
  }

  lemma ExecutedSlots(commits: Commitment, base: string, bytes: string, k: nat)
    requires Executed(commits, base, bytes, k)
    ensures |Slots(bytes, 0)| == k && base <= bytes
  {
    hide *;
    var steps := ExecutionOf(commits, base, bytes, k);
    var doc, nums := ExecutedFacts(commits, base, bytes, steps);
    SignedPart(commits, base, bytes, doc, nums, k, Agent);
  }

  /** When transactions are resolved on their own version, every signed document extends its version's prepared document
      byte for byte. */
  lemma SignedExtendsPrepared(env: Env, w: World, ops: seq<Op>, last: World, i: nat) returns (base: string)
    requires Initial(w) && Run(env, w, true, ops, last) && i < |last.db.rows|
    ensures IsBase(last.db.rows, last.store, last.db.rows[i].version, base)
    ensures last.db.rows[i].key in last.store && base <= last.store[last.db.rows[i].key]
  {
    hide Enabled, OnVersion, Apply, IsBase, Executed, Unique, Ladder, Ordered, DocumentsOk, ParkedOk, LinksOk, Level;
    InitialInv(env, w, true);
    RunKeeps(env, w, true, ops, last);
    var r := last.db.rows[i];
    assert RowOk(env, last.db.rows, last.store, true, r);
    base :| IsBase(last.db.rows, last.store, r.version, base)
      && Executed(env.commits, base, last.store[r.key], Level(r.state));
    ExecutedSlots(env.commits, base, last.store[r.key], Level(r.state));
  }

  // ---- Completion ---------------------------------------------------------------------------------

  /** Exactly when completing a transaction commits. Neither the transaction's status nor its version is looked at. */
  lemma CompletionGuard(env: Env, w: World, tx: nat, seen: nat, der: seq<byte>, month: nat)
    requires tx < |w.db.txs|
    ensures var t := w.db.txs[tx]; var key := ObjectKey(month, seen, SignedCopy(t.party));
      CompleteEffect(env, w, tx, seen, der, month).db.Done? <==>
        (SignParked(env, w.store, t, der).Done? && key !in w.store && !HasVersion(w.db.rows, seen, SignedBy(t.party))
         && !HasFile(w.db.documents, key) && w.db.status == SigningState(t.party))
  {
    hide SignParked, HasVersion, HasFile;
    var t := w.db.txs[tx];
    if SignParked(env, w.store, t, der).Done? {
      var stored := StoreDocument(env, w.store, w.db, month, seen, SignedCopy(t.party), Some(SignedBy(t.party)),
                                  SignParked(env, w.store, t, der).value);
      if stored.db.Done? {
        SuccessGuard(WithStatus(stored.db.value, tx, TxSigned), t.party);
      }
    }
  }

  lemma SuccessGuard(db: Db, p: Party)
    ensures MoveChain(db, [SucceedBy(p)] + AdvanceBy(p), {System}).Done? <==> db.status == SigningState(p)
  {
    var actions := [SucceedBy(p)] + AdvanceBy(p);
    assert actions[0] == SucceedBy(p) && actions[1..] == AdvanceBy(p);
    assert Holds({System}, SucceedBy(p)) by { assert System in RuleOf(SucceedBy(p)).roles * {System}; }
    var first := Move(db, SucceedBy(p), {System}, "");
    if first.Done? {
      if p != Md {
        var a := AdvanceBy(p)[0];
        assert Holds({System}, a) by { assert System in RuleOf(a).roles * {System}; }
        assert AdvanceBy(p)[1..] == [];
        assert Move(first.value, a, {System}, "").Done?;
      }
      ChainTail(first.value, actions[1..]);
    }
  }

  /** A failed check never comes from the earlier signatures: they all verify in whatever the slot is filled with. */
  lemma EarlierSignaturesSurvive(env: Env, w: World, own: bool, tx: nat, slot: PreparedSlot, der: seq<byte>,
                                 signed: string, i: nat)
    requires DocInv(env, w, own) && tx < |w.db.txs| && w.db.txs[tx].parked.Some?
    requires w.db.txs[tx].parked.value in w.store && Reopen(w.store[w.db.txs[tx].parked.value]) == Ok(slot)
    requires Embed(slot, der) == Ok(signed)
    requires i < |Verify(signed, env.commits)| - 1
    ensures Verify(signed, env.commits)[i].Valid()
  {
    hide Prepare, Reopen, Embed, GoodOptions, Executed, IsBase, Ladder, Ordered, Unique, DocumentsOk, Verify;
    var t := w.db.txs[tx];
    var rows := w.db.rows;
    var key := t.parked.value;
    var j: nat, opts :| ParkedFrom(rows, w.store, j, opts, key.party, w.store[key]) && rows[j].version == key.version;
    assert RowOk(env, rows, w.store, own, rows[j]);
    var base :| Executed(env.commits, base, w.store[rows[j].key], Level(rows[j].state));
    EarlierStayValid(env.commits, base, w.store[rows[j].key], Level(rows[j].state), t.party, opts, slot, der, signed);
  }

  /** Two prefixes of one text are prefixes of each other, one way or the other. */
  lemma Comparable(a: string, b: string, s: string)
    requires b <= s
    ensures a <= s ==> a <= b || b <= a
  {
    if a <= s && |a| <= |b| {
      assert a == s[..|a|] == s[..|b|][..|a|];
    } else if a <= s {
      assert b == s[..|b|] == s[..|a|][..|b|];
    }
  }

  lemma SignedOver(env: Env, w: World, tx: nat, der: seq<byte>) returns (base: string)
    requires DocInv(env, w, true) && tx < |w.db.txs| && SignParked(env, w.store, w.db.txs[tx], der).Done?
    ensures IsBase(w.db.rows, w.store, w.db.txs[tx].version, base)
    ensures base <= SignParked(env, w.store, w.db.txs[tx], der).value
  {
    hide DocInv, SignParked, IsBase, Executed, HasLevel, Level;
    SignedFits(env, w, true, tx, der);
    var t := w.db.txs[tx];
    var signed := SignParked(env, w.store, t, der).value;
    assert RowFits(env, w.db.rows, w.store, true, t.version, SignedBy(t.party), signed);
    base :| IsBase(w.db.rows, w.store, t.version, base)
      && Executed(env.commits, base, signed, Level(SignedBy(t.party)));
    ExecutedSlots(env.commits, base, signed, Level(SignedBy(t.party)));
  }
}
