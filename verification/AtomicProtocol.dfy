/** The protocol when a callback is ingested and applied in one step, and a request runs through or stops partway: at
    most one ceremony is open, on the current version, and it agrees with the status. */
module AtomicProtocol {
  import opened Text
  import opened PdfObjects
  import opened IncrementalSigner
  import opened StateMachine
  import opened SigningTheorems
  import opened Executions
  import opened Protocol
  import opened ProtocolSafety
  import opened ProtocolLedger
  import opened VersionAccounting

  // ---- The steps ----------------------------------------------------------------------------------

  /** What the provider reports for a transaction when asked, and the month in which it is asked. */
  datatype Provider = Provider(status: TxStatus, der: seq<byte>, month: nat)

  datatype Resolved = Resolved(world: World, threw: bool)

  function FailSignature(w: World, tx: nat): World
    requires tx < |w.db.txs|
  {
    Commit(w, FailDb(w.db, tx, w.db.status))
  }

  /** `completeSignature`: the provider is asked again; an integrity failure fails the signature. */
  function CompleteSignature(env: Env, w: World, tx: nat, p: Provider): Resolved
    requires tx < |w.db.txs|
  {
    if p.status != TxSigned then Resolved(FailSignature(w, tx), false)
    else
      var e := CompleteEffect(env, w, tx, w.db.version, p.der, p.month);
      match e.db
      case Done(db) => Resolved(World(db, e.store), false)
      case Aborted(_) => Resolved(World(w.db, e.store), true)
      case Alarm(_) => Resolved(FailSignature(World(w.db, e.store), tx), false)
  }

  predicate Decisive(status: TxStatus) {
    status != PendingSigner
  }

  /** `applyOutcome`, and one round of the reconciliation loop. */
  function ApplyOutcome(env: Env, w: World, tx: nat, status: TxStatus, p: Provider): Resolved
    requires tx < |w.db.txs|
  {
    if status == TxSigned then CompleteSignature(env, w, tx, p)
    else if Decisive(status) then Resolved(FailSignature(w, tx), false)
    else Resolved(w, false)
  }

  /** A callback, ingested and applied in one step. */
  function Deliver(env: Env, w: World, e: Event, p: Provider): World {
    var i := Ingest(w.db, e);
    if i.outcome == Applied && e.tx < |i.db.txs| then ApplyOutcome(env, World(i.db, w.store), e.tx, e.status, p).world
    else World(i.db, w.store)
  }

  /** Reconciling one transaction found open. */
  function Reconcile(env: Env, w: World, tx: nat, p: Provider): World {
    if tx < |w.db.txs| && Open(w.db.txs[tx]) then ApplyOutcome(env, w, tx, p.status, p).world else w
  }

  /** `initiateSignature`, stopping after `upto` of its four changes when the instance dies. */
  function Initiate(env: Env, w: World, party: Party, presented: string, isParty: bool, roles: set<Role>,
                    opts: Appearance, month: nat, upto: nat): World {
    match CurrentRow(w.db.rows, w.db.version)
    case None => w
    case Some(i) =>
      match StartDb(w.db, party, presented, isParty, roles)
      case Done(db1) =>
        if upto == 1 then World(db1, w.store)
        else
          var row := w.db.rows[i];
          var parked := Park(env, w.store, row, party, opts, month);
          if upto == 2 || !parked.1.Done? then World(db1, parked.0)
          else
            (match OpenDb(db1, party, row.version, parked.1.value.digest, row.hash)
             case Done(db3) =>
               if upto == 3 then World(db3, parked.0) else World(Link(db3, |db3.txs| - 1, parked.1.value.key), parked.0)
             case _ => World(db1, parked.0))
      case _ => w
  }

  datatype Step =
    | GenerateStep(roles: set<Role>, source: Source, prepared: string, month: nat)
    | InitiateStep(party: Party, presented: string, isParty: bool, roles: set<Role>, opts: Appearance, month: nat,
                   upto: nat)
    | CallbackStep(event: Event, provider: Provider)
    | ReconcileStep(tx: nat, provider: Provider)
    | RejectStep(roles: set<Role>, reason: string)
    | DecideStep(action: Action, roles: set<Role>, reason: string)
    | CorrectStep(roles: set<Role>)
    | OrphanStep(key: Key, bytes: string)

  /** The lexical hypotheses on prepared documents and signers' texts; the decisions are expiry, cancelling and
      retries. */
  ghost predicate Admissible(s: Step) {
    match s
    case GenerateStep(_, _, prepared, _) => Baseline(prepared)
    case InitiateStep(party, _, _, _, opts, _, _) => GoodOptions(opts) && opts.fieldName == FieldName(party)
    case DecideStep(action, _, _) => action == Cancel || action == Expire || IsRetry(action)
    case _ => true
  }

  function Take(env: Env, w: World, s: Step): World {
    match s
    case GenerateStep(roles, source, prepared, month) =>
      Settle(w, GenerateEffect(env, w, w.db.version, roles, source, prepared, month))
    case InitiateStep(party, presented, isParty, roles, opts, month, upto) =>
      Initiate(env, w, party, presented, isParty, roles, opts, month, upto)
    case CallbackStep(event, provider) => Deliver(env, w, event, provider)
    case ReconcileStep(tx, provider) => Reconcile(env, w, tx, provider)
    case RejectStep(roles, reason) => Commit(w, RejectDb(w.db, roles, reason))
    case DecideStep(action, roles, reason) => Commit(w, Move(w.db, action, roles, reason))
    case CorrectStep(roles) => Commit(w, CorrectDb(w.db, roles))
    case OrphanStep(key, bytes) => Orphan(w, key, bytes)
  }

  // ---- The coupling -------------------------------------------------------------------------------

  predicate Halted(s: Status) {
    s == Rejected || s == Expired || s == Cancelled
  }

  /** Every open transaction is on the current version, at most one is open, and its party's signing state is the
      status, unless the agreement was rejected, expired or cancelled under it. */
  ghost predicate Coupling(db: Db) {
    && (forall i :: 0 <= i < |db.txs| && Open(db.txs[i]) ==>
          db.txs[i].version == db.version && (db.status == SigningState(db.txs[i].party) || Halted(db.status)))
    && forall i, j :: 0 <= i < j < |db.txs| ==> !(Open(db.txs[i]) && Open(db.txs[j]))
  }

  /** Nothing is open. */
  predicate Closed(db: Db) {
    forall i :: 0 <= i < |db.txs| ==> !Open(db.txs[i])
  }

  lemma ClosedCoupled(db: Db)
    requires Closed(db)
    ensures Coupling(db)
  {
  }

  /** Where nobody is signing and the agreement is not parked, nothing is open. */
  lemma IdleClosed(db: Db)
    requires Coupling(db) && PartySigning(db.status).None? && !Halted(db.status)
    ensures Closed(db)
  {
    forall i | 0 <= i < |db.txs|
      ensures !Open(db.txs[i])
    {
      if Open(db.txs[i]) {
        assert false;
      }
    }
  }

  lemma ResolveCloses(db: Db, tx: nat, status: TxStatus)
    requires Coupling(db) && tx < |db.txs| && Open(db.txs[tx]) && Decisive(status)
    ensures Closed(WithStatus(db, tx, status))
  {
  }

  lemma SameTxs(db: Db, next: Db)
    requires Closed(db) && next.txs == db.txs
    ensures Coupling(next)
  {
  }

  /** A move that leaves transactions alone keeps the coupling when it starts idle or ends parked. */
  lemma MoveCoupled(db: Db, action: Action, roles: set<Role>, reason: string)
    requires Coupling(db) && Move(db, action, roles, reason).Done?
    requires (PartySigning(db.status).None? && !Halted(db.status)) || Halted(RuleOf(action).target)
    ensures Coupling(Move(db, action, roles, reason).value)
  {
    hide RuleOf;
    MoveKeeps(db, action, roles, reason);
    if PartySigning(db.status).None? && !Halted(db.status) {
      IdleClosed(db);
    }
  }

  lemma SourcesOf(action: Action, source: Status)
    requires source in RuleOf(action).sources
    ensures action == Generate || IsRetry(action) || (exists p :: action == InitiateBy(p)) ==>
      PartySigning(source).None? && !Halted(source)
    ensures action == Cancel || action == Expire || action == Reject || action == EmployeeReject ==>
      Halted(RuleOf(action).target)
  {
  }

  lemma MoveSource(db: Db, action: Action, roles: set<Role>, reason: string)
    requires Move(db, action, roles, reason).Done?
    ensures db.status in RuleOf(action).sources
    ensures Move(db, action, roles, reason).value.status == RuleOf(action).target
  {
    hide RuleOf;
  }

  lemma DecideCoupled(db: Db, action: Action, roles: set<Role>, reason: string)
    requires Coupling(db)
    requires IsRetry(action) || action in {Generate, Cancel, Expire, Reject, EmployeeReject}
    ensures Move(db, action, roles, reason).Done? ==> Coupling(Move(db, action, roles, reason).value)
  {
    hide RuleOf, Coupling, Move;
    if Move(db, action, roles, reason).Done? {
      MoveSource(db, action, roles, reason);
      SourcesOf(action, db.status);
      MoveCoupled(db, action, roles, reason);
    }
  }

  lemma FailCoupled(w: World, tx: nat)
    requires Coupling(w.db) && tx < |w.db.txs| && Open(w.db.txs[tx])
    ensures Coupling(FailSignature(w, tx).db)
  {
    hide Coupling, Move;
    ResolveCloses(w.db, tx, TxFailed);
    var next := WithStatus(w.db, tx, TxFailed);
    ClosedCoupled(next);
    if PartySigning(w.db.status).Some? {
      MoveKeeps(next, FailBy(PartySigning(w.db.status).value), {System}, "");
      if Move(next, FailBy(PartySigning(w.db.status).value), {System}, "").Done? {
        SameTxs(next, Move(next, FailBy(PartySigning(w.db.status).value), {System}, "").value);
      }
    }
  }

  lemma CompleteTxs(env: Env, w: World, tx: nat, seen: nat, der: seq<byte>, month: nat)
    requires tx < |w.db.txs|
    ensures var e := CompleteEffect(env, w, tx, seen, der, month);
      e.db.Done? ==>
        e.db.value.txs == w.db.txs[tx := w.db.txs[tx].(status := TxSigned)] && e.db.value.version == w.db.version
  {
    hide SignParked, StoreDocument, MoveChain;
    var t := w.db.txs[tx];
    if SignParked(env, w.store, t, der).Done? {
      var signed := SignParked(env, w.store, t, der).value;
      StoredShape(env, w.store, w.db, month, seen, SignedCopy(t.party), Some(SignedBy(t.party)), signed);
      var stored := StoreDocument(env, w.store, w.db, month, seen, SignedCopy(t.party), Some(SignedBy(t.party)),
                                  signed);
      if stored.db.Done? {
        MoveChainKeeps(WithStatus(stored.db.value, tx, TxSigned), [SucceedBy(t.party)] + AdvanceBy(t.party), {System});
      }
    }
  }

  lemma OutcomeCoupled(env: Env, w: World, tx: nat, status: TxStatus, p: Provider)
    requires Coupling(w.db) && tx < |w.db.txs| && Open(w.db.txs[tx])
    ensures Coupling(ApplyOutcome(env, w, tx, status, p).world.db)
  {
    hide Coupling, CompleteEffect, FailSignature;
    FailCoupled(w, tx);
    var e := CompleteEffect(env, w, tx, w.db.version, p.der, p.month);
    FailCoupled(World(w.db, e.store), tx);
    if e.db.Done? {
      CompleteTxs(env, w, tx, w.db.version, p.der, p.month);
      ResolveCloses(w.db, tx, TxSigned);
      SameTxs(WithStatus(w.db, tx, TxSigned), e.db.value);
    }
  }

  lemma IngestKeeps(db: Db, e: Event)
    ensures Ingest(db, e).db == db.(ledger := Ingest(db, e).db.ledger)
    ensures Ingest(db, e).outcome == Applied ==> e.tx < |db.txs| && Open(db.txs[e.tx])
  {
  }

  lemma LedgerCoupled(db: Db, ledger: map<string, CallbackOutcome>)
    requires Coupling(db)
    ensures Coupling(db.(ledger := ledger))
  {
  }

  lemma InitiateCoupled(env: Env, w: World, party: Party, presented: string, isParty: bool, roles: set<Role>,
                        opts: Appearance, month: nat, upto: nat)
    requires Coupling(w.db)
    ensures Coupling(Initiate(env, w, party, presented, isParty, roles, opts, month, upto).db)
  {
    hide Move, Park, CurrentRow, LastAttempt;
    var row := CurrentRow(w.db.rows, w.db.version);
    var m := Move(w.db, InitiateBy(party), roles, "");
    if m.Done? && row.Some? {
      MoveSource(w.db, InitiateBy(party), roles, "");
      SourcesOf(InitiateBy(party), w.db.status);
      IdleClosed(w.db);
      MoveKeeps(w.db, InitiateBy(party), roles, "");
      InitiateTarget(party);
      assert Closed(m.value);
    }
  }

  lemma InitiateTarget(p: Party)
    ensures RuleOf(InitiateBy(p)).target == SigningState(p)
  {
  }

  lemma CorrectCoupled(db: Db, roles: set<Role>)
    requires Coupling(db)
    ensures CorrectDb(db, roles).Done? ==> Coupling(CorrectDb(db, roles).value)
  {
    hide Move, CountSigned, HasClosed;
    var next := Closing(db);
    MoveKeeps(next, Correct, roles, "");
    assert Closed(next);
  }

  lemma GenerateCoupled(env: Env, w: World, v: nat, roles: set<Role>, source: Source, prepared: string, month: nat)
    requires Coupling(w.db)
    ensures Coupling(Settle(w, GenerateEffect(env, w, v, roles, source, prepared, month)).db)
  {
    hide StoreDocument, Coupling, Move;
    var first := StoreSource(env, w.store, w.db, month, v, source);
    SourceShape(env, w, v, source, month);
    if first.db.Done? {
      StoredShape(env, first.store, first.db.value, month, v, PreparedUnsigned, Some(Unsigned), prepared);
      var second := StoreDocument(env, first.store, first.db.value, month, v, PreparedUnsigned, Some(Unsigned),
                                  prepared);
      if second.db.Done? {
        SameCoupling(w.db, second.db.value);
        DecideCoupled(second.db.value, Generate, roles, "");
      }
    }
  }

  lemma SameCoupling(db: Db, next: Db)
    requires Coupling(db) && next.txs == db.txs && next.status == db.status && next.version == db.version
    ensures Coupling(next)
  {
  }

  /** Every step keeps the coupling. */
  lemma StepCoupled(env: Env, w: World, s: Step)
    requires Coupling(w.db) && Admissible(s)
    ensures Coupling(Take(env, w, s).db)
  {
    hide Coupling, Move, GenerateEffect, ApplyOutcome, Initiate, CorrectDb, Ingest, CurrentRow, Baseline, GoodOptions;
    match s
    case GenerateStep(roles, source, prepared, month) =>
      GenerateCoupled(env, w, w.db.version, roles, source, prepared, month);
    case InitiateStep(party, presented, isParty, roles, opts, month, upto) =>
      InitiateCoupled(env, w, party, presented, isParty, roles, opts, month, upto);
    case CallbackStep(event, provider) =>
      IngestKeeps(w.db, event);
      LedgerCoupled(w.db, Ingest(w.db, event).db.ledger);
      if Ingest(w.db, event).outcome == Applied {
        OutcomeCoupled(env, World(Ingest(w.db, event).db, w.store), event.tx, event.status, provider);
      }
    case ReconcileStep(tx, provider) =>
      if tx < |w.db.txs| && Open(w.db.txs[tx]) {
        OutcomeCoupled(env, w, tx, provider.status, provider);
      }
    case RejectStep(roles, reason) => DecideCoupled(w.db, RejectAction(w.db.status), roles, reason);
    case DecideStep(action, roles, reason) => DecideCoupled(w.db, action, roles, reason);
    case CorrectStep(roles) => CorrectCoupled(w.db, roles);
    case OrphanStep(key, bytes) =>
  }

  // ---- Steps as runs of the finest interleaving ----------------------------------------------------

  lemma OutcomeRun(env: Env, w: World, tx: nat, status: TxStatus, p: Provider) returns (ops: seq<Op>)
    requires Coupling(w.db) && DbInv(w.db) && tx < |w.db.txs| && Open(w.db.txs[tx])
    ensures Run(env, w, true, ops, ApplyOutcome(env, w, tx, status, p).world)
  {
    hide DbInv, CompleteEffect, FailDb;
    RunNone(env, w, true);
    if status == TxSigned && p.status == TxSigned {
      var v := w.db.version;
      assert v >= 1 by { VersionPositive(w.db); }
      var op := CompleteOp(tx, v, p.der, p.month);
      RunOne(env, w, true, op);
      ops := [op];
      var e := CompleteEffect(env, w, tx, v, p.der, p.month);
      if e.db.Alarm? {
        RunThen(env, w, true, ops, World(w.db, e.store), FailOp(tx, w.db.status));
        ops := ops + [FailOp(tx, w.db.status)];
      }
    } else if Decisive(status) {
      RunOne(env, w, true, FailOp(tx, w.db.status));
      ops := [FailOp(tx, w.db.status)];
    } else {
      ops := [];
    }
  }

  lemma VersionPositive(db: Db)
    requires DbInv(db)
    ensures db.version >= 1
  {
    hide LogOk, VersionsOk, FinalOk;
  }

  lemma ParkShape(env: Env, store: Store, row: VersionRow, party: Party, opts: Appearance, month: nat)
    ensures var parked := Park(env, store, row, party, opts, month);
      parked.1.Done? ==> (parked.1.value.key.ParkedKey? && parked.1.value.key in parked.0
        && parked.1.value.key.party == party && parked.1.value.key.version == row.version)
  {
    hide Prepare;
  }

  lemma InitiateRun(env: Env, w: World, party: Party, presented: string, isParty: bool, roles: set<Role>,
                    opts: Appearance, month: nat, upto: nat)
    returns (ops: seq<Op>)
    requires DbInv(w.db) && GoodOptions(opts) && opts.fieldName == FieldName(party)
    ensures Run(env, w, true, ops, Initiate(env, w, party, presented, isParty, roles, opts, month, upto))
  {
    hide DbInv, StartDb, Park, GoodOptions, OpenDb;
    RunNone(env, w, true);
    ops := [];
    var start := StartDb(w.db, party, presented, isParty, roles);
    if CurrentRow(w.db.rows, w.db.version).Some? && start.Done? {
      var i := CurrentRow(w.db.rows, w.db.version).value;
      var op1 := StartOp(party, presented, isParty, roles);
      StartShape(w.db, party, presented, isParty, roles);
      RunOne(env, w, true, op1);
      var w1 := World(start.value, w.store);
      ops := [op1];
      if upto != 1 {
        var op2 := ParkOp(i, party, opts, month);
        RunThen(env, w, true, ops, w1, op2);
        ops := ops + [op2];
        var parked := Park(env, w.store, w.db.rows[i], party, opts, month);
        var w2 := World(start.value, parked.0);
        ParkShape(env, w.store, w.db.rows[i], party, opts, month);
        if upto != 2 && parked.1.Done? {
          var op3 := OpenOp(i, party, parked.1.value.digest);
          RunThen(env, w, true, ops, w2, op3);
          var open := OpenDb(start.value, party, w.db.rows[i].version, parked.1.value.digest, w.db.rows[i].hash);
          OpenShape(start.value, party, w.db.rows[i].version, parked.1.value.digest, w.db.rows[i].hash);
          if open.Done? {
            ops := ops + [op3];
            var w3 := World(open.value, parked.0);
            if upto != 3 {
              var op4 := LinkOp(|open.value.txs| - 1, parked.1.value.key);
              RunThen(env, w, true, ops, w3, op4);
              ops := ops + [op4];
            }
          }
        }
      }
    }
  }

  lemma StartShape(db: Db, party: Party, presented: string, isParty: bool, roles: set<Role>)
    ensures var s := StartDb(db, party, presented, isParty, roles); s.Done? ==>
      s.value.rows == db.rows && s.value.txs == db.txs
  {
    hide Move, CurrentRow;
    MoveKeeps(db, InitiateBy(party), roles, "");
  }

  lemma OpenShape(db: Db, party: Party, version: nat, digest: string, hash: string)
    ensures var o := OpenDb(db, party, version, digest, hash);
      o.Done? ==>
        (|o.value.txs| == |db.txs| + 1 && o.value.txs[|db.txs|].party == party
         && o.value.txs[|db.txs|].version == version)
  {
  }

  /** Every step is a run of the finest interleaving that resolves transactions on their own version only. */
  lemma StepIsRun(env: Env, w: World, s: Step) returns (ops: seq<Op>)
    requires Coupling(w.db) && DbInv(w.db) && Admissible(s)
    ensures Run(env, w, true, ops, Take(env, w, s))
  {
    hide DbInv, Coupling, GenerateEffect, CorrectDb, RejectDb, Move, ApplyOutcome, Initiate, Baseline, GoodOptions,
      Ingest;
    match s
    case GenerateStep(roles, source, prepared, month) =>
      VersionPositive(w.db);
      var op := GenerateOp(w.db.version, roles, source, prepared, month);
      RunOne(env, w, true, op);
      ops := [op];
    case InitiateStep(party, presented, isParty, roles, opts, month, upto) =>
      ops := InitiateRun(env, w, party, presented, isParty, roles, opts, month, upto);
    case CallbackStep(event, provider) => ops := CallbackRun(env, w, event, provider);
    case ReconcileStep(tx, provider) =>
      if tx < |w.db.txs| && Open(w.db.txs[tx]) {
        ops := OutcomeRun(env, w, tx, provider.status, provider);
      } else {
        RunNone(env, w, true);
        ops := [];
      }
    case RejectStep(roles, reason) =>
      RunOne(env, w, true, RejectOp(roles, reason));
      ops := [RejectOp(roles, reason)];
    case DecideStep(action, roles, reason) =>
      RunOne(env, w, true, ActOp(action, roles, reason));
      ops := [ActOp(action, roles, reason)];
    case CorrectStep(roles) =>
      RunOne(env, w, true, CorrectOp(roles));
      ops := [CorrectOp(roles)];
    case OrphanStep(key, bytes) =>
      RunOne(env, w, true, OrphanOp(key, bytes));
      ops := [OrphanOp(key, bytes)];
  }

  lemma CallbackRun(env: Env, w: World, event: Event, p: Provider) returns (ops: seq<Op>)
    requires Coupling(w.db) && DbInv(w.db)
    ensures Run(env, w, true, ops, Deliver(env, w, event, p))
  {
    hide DbInv, Coupling, ApplyOutcome, Ingest;
    RunOne(env, w, true, IngestOp(event));
    var i := Ingest(w.db, event);
    var w1 := World(i.db, w.store);
    IngestKeeps(w.db, event);
    if i.outcome == Applied {
      LedgerCoupled(w.db, i.db.ledger);
      StepLedger(env, w, IngestOp(event));
      var more := OutcomeRun(env, w1, event.tx, event.status, p);
      ops := [IngestOp(event)] + more;
      assert ops[1..] == more;
    } else {
      ops := [IngestOp(event)];
    }
  }

  // ---- Runs ---------------------------------------------------------------------------------------

  ghost predicate AtomicRun(env: Env, w: World, steps: seq<Step>, last: World)
    decreases |steps|
  {
    if steps == [] then w == last else Admissible(steps[0]) && AtomicRun(env, Take(env, w, steps[0]), steps[1..], last)
  }

  lemma {:induction false} AtomicIsRun(env: Env, w: World, steps: seq<Step>, last: World) returns (ops: seq<Op>)
    requires Coupling(w.db) && DbInv(w.db) && AtomicRun(env, w, steps, last)
    ensures Run(env, w, true, ops, last) && Coupling(last.db)
    decreases |steps|
  {
    hide DbInv, Coupling, Take, Admissible;
    if steps == [] {
      RunNone(env, w, true);
      ops := [];
    } else {
      var a := StepIsRun(env, w, steps[0]);
      StepCoupled(env, w, steps[0]);
      RunLedger(env, w, true, a, Take(env, w, steps[0]));
      var b := AtomicIsRun(env, Take(env, w, steps[0]), steps[1..], last);
      RunsCompose(env, w, true, a, Take(env, w, steps[0]), b, last);
      ops := a + b;
    }
  }

  /** With ingest and apply in one step, and requests that may stop partway, every reachable state is coupled: an open
      ceremony is the only one, is on the current version and agrees with the status; and everything proved of runs that
      resolve transactions on their own version holds. */
  lemma AtomicRunsCoupled(env: Env, w: World, steps: seq<Step>, last: World) returns (ops: seq<Op>)
    requires Initial(w) && AtomicRun(env, w, steps, last)
    ensures Coupling(last.db)
    ensures Run(env, w, true, ops, last)
  {
    hide AtomicRun, DbInv, Run;
    NewInv();
    assert Coupling(w.db);
    ops := AtomicIsRun(env, w, steps, last);
  }
}
