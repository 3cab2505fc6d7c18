/** Which single steps of the finest interleaving keep the coupling and the balance of transitions and transactions,
    exactly; and runs in which a late failure or an overtaken request breaks them. */
module LateFailures {
  import opened Text
  import opened PdfObjects
  import opened IncrementalSigner
  import opened StateMachine
  import opened SigningTheorems
  import opened Executions
  import opened Protocol
  import opened ProtocolSafety
  import opened ProtocolLedger
  import opened VersionAccounting
  import opened AtomicProtocol
  import opened Conservation
  import opened HonestRuns
  import opened LateCompletions

  // ---- The coupling, step by step -----------------------------------------------------------------

  /** No other transaction is open. */
  predicate Alone(db: Db, tx: nat) {
    forall i :: 0 <= i < |db.txs| && i != tx ==> !Open(db.txs[i])
  }

  /** A failure keeps the coupling exactly when it takes no edge or no other transaction is open: neither the status nor
      the version of its own transaction is looked at. */
  lemma FailureKeepsIff(db: Db, tx: nat, seen: Status)
    requires Coupling(db) && tx < |db.txs| && FailDb(db, tx, seen).Done?
    ensures Coupling(FailDb(db, tx, seen).value) <==> PartySigning(seen).None? || Alone(db, tx)
  {
    hide Move;
    var next := FailDb(db, tx, seen).value;
    assert forall i :: 0 <= i < |db.txs| && i != tx ==> WithStatus(db, tx, TxFailed).txs[i] == db.txs[i];
    if PartySigning(seen).Some? {
      var p := PartySigning(seen).value;
      MoveKeeps(WithStatus(db, tx, TxFailed), FailBy(p), {System}, "");
      FailureTarget(WithStatus(db, tx, TxFailed), p);
    }
  }

  lemma FailureTarget(db: Db, p: Party)
    requires Move(db, FailBy(p), {System}, "").Done?
    ensures db.status == SigningState(p) && Move(db, FailBy(p), {System}, "").value.status == SignatureFailed
  {
  }

  /** Opening a transaction keeps the coupling exactly when nothing is open, its row is of the current version and the
      status is its party's signing state or the agreement is halted. */
  lemma OpeningKeepsIff(db: Db, party: Party, version: nat, digest: string, hash: string)
    requires Coupling(db) && OpenDb(db, party, version, digest, hash).Done?
    ensures Coupling(OpenDb(db, party, version, digest, hash).value) <==>
      AtomicProtocol.Closed(db) && version == db.version && (db.status == SigningState(party) || Halted(db.status))
  {
    hide HasOpen, LastAttempt;
    var next := OpenDb(db, party, version, digest, hash).value;
    var n := |db.txs|;
    assert forall i :: 0 <= i < n ==> next.txs[i] == db.txs[i];
    assert Open(next.txs[n]);
  }

  /** What a step must meet to keep the coupling. Only the steps that resolve or open a transaction ask for anything. */
  ghost predicate MayCouple(env: Env, w: World, op: Op) {
    match op
    case CompleteOp(tx, seen, der, month) =>
      tx < |w.db.txs| && CompleteEffect(env, w, tx, seen, der, month).db.Done? ==>
        Open(w.db.txs[tx]) || AtomicProtocol.Closed(w.db)
    case FailOp(tx, seen) =>
      tx < |w.db.txs| && FailDb(w.db, tx, seen).Done? ==> PartySigning(seen).None? || Alone(w.db, tx)
    case OpenOp(row, party, digest) =>
      row < |w.db.rows| && !HasOpen(w.db.txs, party, w.db.rows[row].version) ==>
        (AtomicProtocol.Closed(w.db) && w.db.rows[row].version == w.db.version
         && (w.db.status == SigningState(party) || Halted(w.db.status)))
    case _ => true
  }

  /** A step of the finest interleaving keeps the coupling exactly under that condition. */
  lemma StepCouplesIff(env: Env, w: World, op: Op)
    requires Coupling(w.db) && Enabled(w, op)
    ensures Coupling(Apply(env, w, op).db) <==> MayCouple(env, w, op)
  {
    hide Coupling, Move, GenerateEffect, CompleteEffect, Park, Baseline, CurrentRow, HasOpen, LastAttempt, GoodOptions,
      CorrectDb, FailDb, AtomicProtocol.Closed, Alone, Ingest;
    match op
    case CompleteOp(tx, seen, der, month) =>
      if CompleteEffect(env, w, tx, seen, der, month).db.Done? {
        CouplingKeptIff(env, w, tx, seen, der, month);
        assert AtomicProtocol.Closed(w.db) <==> forall i :: 0 <= i < |w.db.txs| ==>
          !Open(w.db.txs[i]) by { ClosedMeans(w.db); }
      }
    case FailOp(tx, seen) =>
      if FailDb(w.db, tx, seen).Done? {
        FailureKeepsIff(w.db, tx, seen);
      }
    case OpenOp(row, party, digest) =>
      if !HasOpen(w.db.txs, party, w.db.rows[row].version) {
        OpeningKeepsIff(w.db, party, w.db.rows[row].version, digest, w.db.rows[row].hash);
      }
    case LinkOp(tx, key) => LinkCoupled(w.db, tx, key);
    case GenerateOp(seen, roles, source, prepared, month) =>
      GenerateCoupled(env, w, seen, roles, source, prepared, month);
    case StartOp(party, presented, isParty, roles) =>
      if Move(w.db, InitiateBy(party), roles, "").Done? {
        StartCoupled(w.db, party, roles);
      }
    case ActOp(action, roles, reason) => DecideCoupled(w.db, action, roles, reason);
    case RejectOp(roles, reason) => DecideCoupled(w.db, RejectAction(w.db.status), roles, reason);
    case CorrectOp(roles) => CorrectCoupled(w.db, roles);
    case IngestOp(event) =>
      IngestKeeps(w.db, event);
      LedgerCoupled(w.db, Ingest(w.db, event).db.ledger);
    case _ =>
  }

  lemma ClosedMeans(db: Db)
    ensures AtomicProtocol.Closed(db) <==> forall i :: 0 <= i < |db.txs| ==> !Open(db.txs[i])
  {
  }

  lemma LinkCoupled(db: Db, tx: nat, key: Key)
    requires Coupling(db) && tx < |db.txs|
    ensures Coupling(Link(db, tx, key))
  {
  }

  /** A party starts from its waiting state, where nothing is open. */
  lemma StartCoupled(db: Db, party: Party, roles: set<Role>)
    requires Coupling(db) && Move(db, InitiateBy(party), roles, "").Done?
    ensures Coupling(Move(db, InitiateBy(party), roles, "").value)
  {
    hide Move, RuleOf, Coupling;
    MoveSource(db, InitiateBy(party), roles, "");
    SourcesOf(InitiateBy(party), db.status);
    MoveCoupled(db, InitiateBy(party), roles, "");
  }

  /** Every step of the run meets its condition. */
  ghost predicate Careful(env: Env, w: World, ops: seq<Op>)
    decreases |ops|
  {
    ops == [] || (MayCouple(env, w, ops[0]) && Careful(env, Apply(env, w, ops[0]), ops[1..]))
  }

  /** The coupling holds before and after every step of the run. */
  ghost predicate AlwaysCoupled(env: Env, w: World, ops: seq<Op>)
    decreases |ops|
  {
    Coupling(w.db) && (ops == [] || AlwaysCoupled(env, Apply(env, w, ops[0]), ops[1..]))
  }

  /** A run of the finest interleaving is coupled throughout exactly when every completion, failure and opening in it
      meets its condition. */
  lemma {:induction false} RunCouplesIff(env: Env, w: World, own: bool, ops: seq<Op>, last: World)
    requires Coupling(w.db) && Run(env, w, own, ops, last)
    ensures AlwaysCoupled(env, w, ops) <==> Careful(env, w, ops)
    decreases |ops|
  {
    hide Coupling, MayCouple, Enabled, OnVersion, Apply;
    if ops != [] {
      StepCouplesIff(env, w, ops[0]);
      if MayCouple(env, w, ops[0]) {
        RunCouplesIff(env, Apply(env, w, ops[0]), own, ops[1..], last);
      }
    }
  }

  // ---- The balance, step by step ------------------------------------------------------------------

  /** The transaction may be resolved once more: it was not signed, and if it had failed and a transition or its success
      is to be booked now, some failed transaction caused none. */
  predicate MayResolve(db: Db, tx: nat, books: bool)
    requires tx < |db.txs|
  {
    && db.txs[tx].status != TxSigned
    && (db.txs[tx].status == TxFailed && books ==> Failures(db.log) < WithStatusCount(db.txs, TxFailed))
  }

  /** A completion keeps the balance exactly when its transaction is not signed yet and, if it had failed, some failed
      transaction caused no transition. */
  lemma CompletionTalliesIff(env: Env, w: World, tx: nat, seen: nat, der: seq<byte>, month: nat)
    requires Tallied(w.db) && tx < |w.db.txs| && CompleteEffect(env, w, tx, seen, der, month).db.Done?
    ensures Tallied(Later(env, w, tx, seen, der, month).db) <==> MayResolve(w.db, tx, true)
  {
    hide SignParked, StoreDocument, Move, Conservation.Successes, Failures, WithStatusCount, SignedRows;
    var t := w.db.txs[tx];
    var signed := SignParked(env, w.store, t, der).value;
    StoredShape(env, w.store, w.db, month, seen, SignedCopy(t.party), Some(SignedBy(t.party)), signed);
    var stored := StoreDocument(env, w.store, w.db, month, seen, SignedCopy(t.party), Some(SignedBy(t.party)), signed);
    RowSnoc(w.db.rows,
            VersionRow(seen, SignedBy(t.party), env.sha(signed), ObjectKey(month, seen, SignedCopy(t.party))));
    TxUpdate(w.db.txs, tx, t.(status := TxSigned), TxSigned);
    TxUpdate(w.db.txs, tx, t.(status := TxSigned), TxFailed);
    SuccessEntry(WithStatus(stored.db.value, tx, TxSigned), t.party);
  }

  /** A failure keeps the balance exactly when its transaction is not signed and, if it had failed before and an edge is
      taken again, some failed transaction caused no transition. */
  lemma FailureTalliesIff(db: Db, tx: nat, seen: Status)
    requires Tallied(db) && tx < |db.txs| && FailDb(db, tx, seen).Done?
    ensures Tallied(FailDb(db, tx, seen).value) <==> MayResolve(db, tx, PartySigning(seen).Some?)
  {
    hide Move, Conservation.Successes, Failures, WithStatusCount, SignedRows;
    var t := db.txs[tx];
    TxUpdate(db.txs, tx, t.(status := TxFailed), TxSigned);
    TxUpdate(db.txs, tx, t.(status := TxFailed), TxFailed);
    if PartySigning(seen).Some? {
      var a := FailBy(PartySigning(seen).value);
      MoveKeeps(WithStatus(db, tx, TxFailed), a, {System}, "");
      MoveEntry(WithStatus(db, tx, TxFailed), a, {System}, "");
    }
  }

  ghost predicate MayTally(env: Env, w: World, op: Op) {
    match op
    case CompleteOp(tx, seen, der, month) =>
      tx < |w.db.txs| && CompleteEffect(env, w, tx, seen, der, month).db.Done? ==> MayResolve(w.db, tx, true)
    case FailOp(tx, seen) =>
      tx < |w.db.txs| && FailDb(w.db, tx, seen).Done? ==> MayResolve(w.db, tx, PartySigning(seen).Some?)
    case _ => true
  }

  /** A step of the finest interleaving keeps successes, signed transactions and signed documents equally many, and
      failure transitions within failed transactions, exactly under that condition; resolving an open transaction always
      does. */
  lemma StepTalliesIff(env: Env, w: World, op: Op)
    requires Tallied(w.db) && Enabled(w, op)
    ensures Tallied(Apply(env, w, op).db) <==> MayTally(env, w, op)
  {
    hide Tallied, Move, GenerateEffect, CompleteEffect, Park, Baseline, CurrentRow, HasOpen, LastAttempt, GoodOptions,
      CorrectDb, FailDb, Ingest, MayResolve;
    match op
    case CompleteOp(tx, seen, der, month) =>
      if CompleteEffect(env, w, tx, seen, der, month).db.Done? {
        CompletionTalliesIff(env, w, tx, seen, der, month);
      }
    case FailOp(tx, seen) =>
      if FailDb(w.db, tx, seen).Done? {
        FailureTalliesIff(w.db, tx, seen);
      }
    case OpenOp(row, party, digest) =>
      if !HasOpen(w.db.txs, party, w.db.rows[row].version) {
        var next := Apply(env, w, op).db;
        OpenedTallied(w.db, next.txs[|w.db.txs|], ObjectKey(0, 0, UploadedSource));
        assert next == w.db.(txs := w.db.txs + [next.txs[|w.db.txs|]]);
      }
    case LinkOp(tx, key) => LinkTallied(w.db, tx, key);
    case GenerateOp(seen, roles, source, prepared, month) =>
      GenerateTallied(env, w, seen, roles, source, prepared, month);
    case StartOp(party, presented, isParty, roles) => NeutralMove(w.db, InitiateBy(party), roles, "");
    case ActOp(action, roles, reason) => NeutralMove(w.db, action, roles, reason);
    case RejectOp(roles, reason) => NeutralMove(w.db, RejectAction(w.db.status), roles, reason);
    case CorrectOp(roles) => CorrectTallied(w.db, roles);
    case IngestOp(event) =>
      IngestKeeps(w.db, event);
      LedgerTallied(w.db, Ingest(w.db, event).db.ledger);
    case _ =>
  }

  lemma LinkTallied(db: Db, tx: nat, key: Key)
    requires Tallied(db) && tx < |db.txs|
    ensures Tallied(Link(db, tx, key))
  {
    hide Conservation.Successes, Failures, WithStatusCount, SignedRows;
    TxSameStatus(db.txs, Link(db, tx, key).txs, TxSigned);
    TxSameStatus(db.txs, Link(db, tx, key).txs, TxFailed);
  }

  // ---- The log only grows -------------------------------------------------------------------------

  lemma MoveLogs(db: Db, action: Action, roles: set<Role>, reason: string)
    ensures Move(db, action, roles, reason).Done? ==> db.log <= Move(db, action, roles, reason).value.log
  {
    hide AssertTransition;
  }

  lemma {:induction false} ChainLogs(db: Db, actions: seq<Action>, roles: set<Role>)
    ensures MoveChain(db, actions, roles).Done? ==> db.log <= MoveChain(db, actions, roles).value.log
    decreases |actions|
  {
    hide Move;
    if actions != [] {
      MoveLogs(db, actions[0], roles, "");
      if Move(db, actions[0], roles, "").Done? {
        ChainLogs(Move(db, actions[0], roles, "").value, actions[1..], roles);
      }
    }
  }

  lemma GenerateLogs(env: Env, w: World, v: nat, roles: set<Role>, source: Source, prepared: string, month: nat)
    ensures w.db.log <= Settle(w, GenerateEffect(env, w, v, roles, source, prepared, month)).db.log
  {
    hide StoreDocument, Move;
    var first := StoreSource(env, w.store, w.db, month, v, source);
    SourceShape(env, w, v, source, month);
    if first.db.Done? {
      StoredShape(env, first.store, first.db.value, month, v, PreparedUnsigned, Some(Unsigned), prepared);
      var second := StoreDocument(env, first.store, first.db.value, month, v, PreparedUnsigned, Some(Unsigned),
                                  prepared);
      if second.db.Done? {
        MoveLogs(second.db.value, Generate, roles, "");
      }
    }
  }

  lemma CompleteLogs(env: Env, w: World, tx: nat, seen: nat, der: seq<byte>, month: nat)
    requires tx < |w.db.txs|
    ensures w.db.log <= Later(env, w, tx, seen, der, month).db.log
  {
    hide SignParked, StoreDocument, MoveChain;
    var t := w.db.txs[tx];
    if SignParked(env, w.store, t, der).Done? {
      var signed := SignParked(env, w.store, t, der).value;
      StoredShape(env, w.store, w.db, month, seen, SignedCopy(t.party), Some(SignedBy(t.party)), signed);
      var stored := StoreDocument(env, w.store, w.db, month, seen, SignedCopy(t.party), Some(SignedBy(t.party)),
                                  signed);
      if stored.db.Done? {
        ChainLogs(WithStatus(stored.db.value, tx, TxSigned), [SucceedBy(t.party)] + AdvanceBy(t.party), {System});
      }
    }
  }

  lemma StepLogs(env: Env, w: World, op: Op)
    ensures w.db.log <= Apply(env, w, op).db.log
  {
    hide Move, GenerateEffect, CompleteEffect, Park, CurrentRow, HasOpen, LastAttempt, CountSigned, HasClosed;
    match op
    case CompleteOp(tx, seen, der, month) =>
      if tx < |w.db.txs| {
        CompleteLogs(env, w, tx, seen, der, month);
      }
    case FailOp(tx, seen) =>
      if tx < |w.db.txs| && PartySigning(seen).Some? {
        MoveLogs(WithStatus(w.db, tx, TxFailed), FailBy(PartySigning(seen).value), {System}, "");
      }
    case GenerateOp(seen, roles, source, prepared, month) => GenerateLogs(env, w, seen, roles, source, prepared, month);
    case StartOp(party, presented, isParty, roles) => MoveLogs(w.db, InitiateBy(party), roles, "");
    case ActOp(action, roles, reason) => MoveLogs(w.db, action, roles, reason);
    case RejectOp(roles, reason) => MoveLogs(w.db, RejectAction(w.db.status), roles, reason);
    case CorrectOp(roles) =>
      MoveLogs(Closing(w.db), Correct, roles, "");
    case _ =>
  }

  lemma {:induction false} FailuresOfPrefix(a: seq<LogEntry>, b: seq<LogEntry>)
    requires a <= b
    ensures Failures(a) <= Failures(b)
    decreases |b|
  {
    if |a| < |b| {
      assert a <= b[..|b| - 1];
      FailuresOfPrefix(a, b[..|b| - 1]);
    } else {
      assert a == b;
    }
  }

  lemma {:induction false} RunFailures(env: Env, w: World, own: bool, ops: seq<Op>, last: World)
    requires Run(env, w, own, ops, last)
    ensures Failures(w.db.log) <= Failures(last.db.log)
    decreases |ops|
  {
    hide Enabled, OnVersion, Apply, Failures;
    if ops != [] {
      var next := Apply(env, w, ops[0]);
      StepLogs(env, w, ops[0]);
      FailuresOfPrefix(w.db.log, next.db.log);
      RunFailures(env, next, own, ops[1..], last);
    }
  }

  // ---- Runs that go wrong -------------------------------------------------------------------------

  /** A failure that takes the edge of the party signing. */
  lemma FailStep(env: Env, w: World, tx: nat, p: Party)
    requires tx < |w.db.txs| && w.db.status == SigningState(p)
    ensures var op := FailOp(tx, w.db.status); var next := Apply(env, w, op);
      && Enabled(w, op) && OnVersion(w, op) && next.store == w.store
      && Moved(w.db.(txs := w.db.txs[tx := w.db.txs[tx].(status := TxFailed)]), next.db, SignatureFailed)
      && Failures(next.db.log) == Failures(w.db.log) + 1
  {
    hide Move, Failures, Conservation.Successes;
    var db := WithStatus(w.db, tx, TxFailed);
    assert PartySigning(w.db.status) == Some(p);
    FailEdge(p);
    MoveDone(db, FailBy(p), {System});
    MoveEntry(db, FailBy(p), {System}, "");
  }

  lemma FailEdge(p: Party)
    ensures SigningState(p) in RuleOf(FailBy(p)).sources && RuleOf(FailBy(p)).target == SignatureFailed
    ensures Holds({System}, FailBy(p)) && !RuleOf(FailBy(p)).requiresReason && IsFailure(FailBy(p))
  {
    assert System in RuleOf(FailBy(p)).roles * {System};
  }

  lemma FailedWithin(w: World, next: World, tx: nat)
    requires Within(w) && tx < |w.db.txs| && next.store == w.store
    requires Moved(w.db.(txs := w.db.txs[tx := w.db.txs[tx].(status := TxFailed)]), next.db, SignatureFailed)
    ensures Within(next) && next.db.version == w.db.version && |next.db.txs| == |w.db.txs|
    ensures next.db.txs[tx].status == TxFailed
    ensures next.db.status in RuleOf(Expire).sources && next.db.status == SignatureFailed
    ensures forall i :: 0 <= i < |w.db.txs| && i != tx ==> next.db.txs[i] == w.db.txs[i]
  {
  }

  /** One transaction fails twice: two handlers of its failure are under way, the agreement expires and is corrected
      between them, and the second takes down the next version's ceremony. One failed transaction has caused two failure
      transitions, and a transaction is left open that nobody waits for. */
  lemma LateFailureHappens(env: Env, base1: string, base2: string, texts: Party -> Appearance,
                           signer: string -> seq<byte>, reserved: nat, month: nat)
    returns (ops: seq<Op>, last: World)
    requires Baseline(base1) && Baseline(base2) && |base1| < 900000000 && |base2| < 900000000
    requires Texts(texts, reserved) && Honest(env.commits, signer, reserved)
    ensures Run(env, NEW_WORLD, true, ops, last)
    ensures last.db.version == 2 && last.db.status == SignatureFailed
    ensures |last.db.txs| == 2 && last.db.txs[0].status == TxFailed && Open(last.db.txs[1])
    ensures last.db.txs[1].version == 2
    ensures Failures(last.db.log) >= 2 && WithStatusCount(last.db.txs, TxFailed) == 1
    ensures !Coupling(last.db) && !Tallied(last.db)
  {
    hide *;
    NewWorld();
    TextsOf(texts, reserved, Agent);
    Ranks();
    SigningStates();
    var opts := texts(Agent);
    AnswerSigns(env.commits, signer, base1, opts);
    AnswerSigns(env.commits, signer, base2, opts);
    var a, w1 := GeneratesVersion(env, NEW_WORLD, base1, month);
    ExtendsParts(NEW_WORLD, w1);
    var b, w2, first := OpensInTurn(env, w1, base1, base1, Agent, opts, Answer(signer, base1, opts), month);
    OpenedTx(env, w1, w2, Agent, Prepare(base1, opts).value);
    FailStep(env, w2, 0, Agent);
    var fail := FailOp(0, w2.db.status);
    var w3 := Apply(env, w2, fail);
    FailedWithin(w2, w3, 0);
    RunOne(env, w2, true, fail);
    var c, w4 := ExpiresAndCorrects(env, w3);
    ReopenedTx(w3, w4, 0);
    StaysFailed(w3, w4, 0);
    var d, w5 := GeneratesVersion(env, w4, base2, month);
    ExtendsParts(w4, w5);
    var e, w6, second := OpensInTurn(env, w5, base2, base2, Agent, opts, Answer(signer, base2, opts), month);
    OpenedTx(env, w5, w6, Agent, Prepare(base2, opts).value);
    ExtendsParts(w5, w6);
    assert w6.db.txs[0] == w6.db.txs[..1][0];
    FailStep(env, w6, 0, Agent);
    var again := FailOp(0, w6.db.status);
    last := Apply(env, w6, again);
    FailedWithin(w6, last, 0);
    RunOne(env, w6, true, again);
    RunsCompose(env, NEW_WORLD, true, a, w1, b, w2);
    RunsCompose(env, NEW_WORLD, true, a + b, w2, [fail], w3);
    RunsCompose(env, w3, true, c, w4, d, w5);
    RunsCompose(env, w3, true, c + d, w5, e, w6);
    RunFailures(env, w3, true, c + d + e, w6);
    RunsCompose(env, w3, true, c + d + e, w6, [again], last);
    RunsCompose(env, NEW_WORLD, true, a + b + [fail], w3, c + d + e + [again], last);
    ops := a + b + [fail] + (c + d + e + [again]);
    LeftWaiting(last.db, 1);
    OneFailed(last.db);
  }

  lemma StaysFailed(w: World, next: World, tx: nat)
    requires Reopened(w, next) && tx < |w.db.txs| && w.db.txs[tx].status == TxFailed
    ensures tx < |next.db.txs| && next.db.txs[tx].status == TxFailed
  {
    hide CountSigned;
  }

  lemma LeftWaiting(db: Db, tx: nat)
    requires tx < |db.txs| && Open(db.txs[tx]) && db.status == SignatureFailed
    ensures !Coupling(db)
  {
  }

  lemma OneFailed(db: Db)
    requires |db.txs| == 2 && db.txs[0].status == TxFailed && Open(db.txs[1]) && Failures(db.log) >= 2
    ensures WithStatusCount(db.txs, TxFailed) == 1 && !Tallied(db)
  {
    hide Failures, Conservation.Successes, SignedRows;
    var one := db.txs[..1];
    assert one[..0] == [];
    assert WithStatusCount(one, TxFailed) == 1;
  }

  lemma StartedWithin(w: World, next: World, store: Store)
    requires Within(w) && Moved(w.db, next.db, AgentSigning) && next.store == store
    requires forall key :: key in store ==> key in w.store || key.version <= w.db.version
    ensures Within(next) && next.db.status in RuleOf(Expire).sources
  {
  }

  /** A request is overtaken: its version expires and is corrected after it parked its slot, and then it opens its
      transaction, on a version that is closed. */
  lemma OvertakenRequestHappens(env: Env, base: string, texts: Party -> Appearance, signer: string -> seq<byte>,
                                reserved: nat, month: nat)
    returns (ops: seq<Op>, last: World)
    requires Baseline(base) && |base| < 900000000 && Texts(texts, reserved) && Honest(env.commits, signer, reserved)
    ensures Run(env, NEW_WORLD, true, ops, last)
    ensures last.db.version == 2 && last.db.status == Draft
    ensures |last.db.txs| == 1 && Open(last.db.txs[0]) && last.db.txs[0].version == 1
    ensures !Coupling(last.db)
  {
    hide *;
    NewWorld();
    TextsOf(texts, reserved, Agent);
    Ranks();
    SigningStates();
    var opts := texts(Agent);
    AnswerSigns(env.commits, signer, base, opts);
    var a, w1 := GeneratesVersion(env, NEW_WORLD, base, month);
    ExtendsParts(NEW_WORLD, w1);
    var i := ReachedTurn(env, w1, base, base, Agent, month);
    ShowsParts(w1, i, base);
    ClearParts(w1, Agent, month);
    CurrentIs(w1.db.rows, w1.db.version, i);
    HonestSlot(env.commits, base, base, Agent, opts, Answer(signer, base, opts));
    StartStep(env, w1, i, Agent);
    var start := StartOp(Agent, w1.db.rows[i].hash, true, {RoleOf(Agent)});
    var w2 := Apply(env, w1, start);
    MovedParts(w1.db, w2.db, AgentSigning);
    ParkStep(env, w2, i, Agent, opts, month);
    var park := ParkOp(i, Agent, opts, month);
    var w3 := Apply(env, w2, park);
    StartedWithin(w1, w3, w3.store);
    RunOne(env, w1, true, start);
    RunThen(env, w1, true, [start], w2, park);
    var c, w4 := ExpiresAndCorrects(env, w3);
    ReopenedParts(w3, w4);
    NothingOpenYet(w4.db, Agent, 1);
    var digest := env.sha(Prepare(base, opts).value.signedContent);
    OpenStep(env, w4, i, Agent, digest);
    var open := OpenOp(i, Agent, digest);
    last := Apply(env, w4, open);
    RunOne(env, w4, true, open);
    RunsCompose(env, NEW_WORLD, true, a, w1, [start] + [park], w3);
    RunsCompose(env, NEW_WORLD, true, a + ([start] + [park]), w3, c, w4);
    RunsCompose(env, NEW_WORLD, true, a + ([start] + [park]) + c, w4, [open], last);
    ops := a + ([start] + [park]) + c + [open];
    OnClosedVersion(last.db, 0);
  }

  lemma MovedParts(db: Db, next: Db, status: Status)
    requires Moved(db, next, status)
    ensures next.rows == db.rows && next.txs == db.txs && next.version == db.version && next.documents == db.documents
  {
  }

  lemma ReopenedParts(w: World, next: World)
    requires Reopened(w, next)
    ensures next.db.rows == w.db.rows && |next.db.txs| == |w.db.txs| && next.db.version == w.db.version + 1
    ensures next.store == w.store
  {
    hide CountSigned;
  }

  lemma NothingOpenYet(db: Db, party: Party, version: nat)
    requires db.txs == []
    ensures !HasOpen(db.txs, party, version)
  {
  }

  lemma OnClosedVersion(db: Db, tx: nat)
    requires tx < |db.txs| && Open(db.txs[tx]) && db.txs[tx].version != db.version
    ensures !Coupling(db)
  {
  }
}
