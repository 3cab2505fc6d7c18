/** Callbacks and reconciliation passes in any order and number: a transaction is resolved once, and the outcome does
    not depend on which arrival resolved it. */
module CallbackConfluence {
  import opened Text
  import opened PdfObjects
  import opened IncrementalSigner
  import opened StateMachine
  import opened Protocol
  import opened ProtocolSafety
  import opened ProtocolLedger
  import opened VersionAccounting
  import opened AtomicProtocol

  // ---- Resolved transactions stay resolved --------------------------------------------------------

  lemma OutcomeTxs(env: Env, w: World, tx: nat, status: TxStatus, p: Provider)
    requires tx < |w.db.txs|
    ensures var next := ApplyOutcome(env, w, tx, status, p).world.db;
      |next.txs| == |w.db.txs| && forall i :: 0 <= i < |w.db.txs| && i != tx ==> next.txs[i] == w.db.txs[i]
  {
    hide CompleteEffect, Move;
    var e := CompleteEffect(env, w, tx, w.db.version, p.der, p.month);
    CompleteTxs(env, w, tx, w.db.version, p.der, p.month);
    if PartySigning(w.db.status).Some? {
      MoveKeeps(WithStatus(w.db, tx, TxFailed), FailBy(PartySigning(w.db.status).value), {System}, "");
    }
  }

  /** No step touches a transaction that is resolved: each is signed or failed at most once. */
  lemma ResolvedStays(env: Env, w: World, s: Step, i: nat)
    requires i < |w.db.txs| && !Open(w.db.txs[i])
    ensures i < |Take(env, w, s).db.txs| && Take(env, w, s).db.txs[i] == w.db.txs[i]
  {
    hide Move, GenerateEffect, ApplyOutcome, CurrentRow, Park, LastAttempt, HasOpen, CountSigned, HasClosed;
    match s
    case GenerateStep(roles, source, prepared, month) => GenerateKeepsTxs(env, w, roles, source, prepared, month);
    case InitiateStep(party, presented, isParty, roles, opts, month, upto) =>
      MoveKeeps(w.db, InitiateBy(party), roles, "");
    case CallbackStep(event, provider) =>
      IngestKeeps(w.db, event);
      if Ingest(w.db, event).outcome == Applied {
        OutcomeTxs(env, World(Ingest(w.db, event).db, w.store), event.tx, event.status, provider);
      }
    case ReconcileStep(tx, provider) =>
      if tx < |w.db.txs| && Open(w.db.txs[tx]) {
        OutcomeTxs(env, w, tx, provider.status, provider);
      }
    case RejectStep(roles, reason) => MoveKeeps(w.db, RejectAction(w.db.status), roles, reason);
    case DecideStep(action, roles, reason) => MoveKeeps(w.db, action, roles, reason);
    case CorrectStep(roles) =>
      MoveKeeps(Closing(w.db), Correct, roles, "");
    case OrphanStep(key, bytes) =>
  }

  lemma GenerateKeepsTxs(env: Env, w: World, roles: set<Role>, source: Source, prepared: string, month: nat)
    ensures Settle(w, GenerateEffect(env, w, w.db.version, roles, source, prepared, month)).db.txs == w.db.txs
  {
    hide StoreDocument, Move;
    var v := w.db.version;
    var first := StoreSource(env, w.store, w.db, month, v, source);
    SourceShape(env, w, v, source, month);
    if first.db.Done? {
      StoredShape(env, first.store, first.db.value, month, v, PreparedUnsigned, Some(Unsigned), prepared);
      var second := StoreDocument(env, first.store, first.db.value, month, v, PreparedUnsigned, Some(Unsigned),
                                  prepared);
      if second.db.Done? {
        MoveKeeps(second.db.value, Generate, roles, "");
      }
    }
  }

  // ---- The ledger does not matter to an outcome ---------------------------------------------------

  function Relabel(w: World, ledger: map<string, CallbackOutcome>): World {
    World(w.db.(ledger := ledger), w.store)
  }

  function RelabelDb(a: Attempt<Db>, ledger: map<string, CallbackOutcome>): Attempt<Db> {
    match a case Done(db) => Done(db.(ledger := ledger)) case other => other
  }

  lemma MoveIgnoresLedger(db: Db, action: Action, roles: set<Role>, reason: string,
                          ledger: map<string, CallbackOutcome>)
    ensures Move(db.(ledger := ledger), action, roles, reason) == RelabelDb(Move(db, action, roles, reason), ledger)
  {
    hide AssertTransition;
  }

  lemma {:induction false} ChainIgnoresLedger(db: Db, actions: seq<Action>, roles: set<Role>,
                                              ledger: map<string, CallbackOutcome>)
    ensures MoveChain(db.(ledger := ledger), actions, roles) == RelabelDb(MoveChain(db, actions, roles), ledger)
    decreases |actions|
  {
    hide Move;
    if actions != [] {
      MoveIgnoresLedger(db, actions[0], roles, "", ledger);
      if Move(db, actions[0], roles, "").Done? {
        ChainIgnoresLedger(Move(db, actions[0], roles, "").value, actions[1..], roles, ledger);
      }
    }
  }

  lemma CompleteIgnoresLedger(env: Env, w: World, tx: nat, seen: nat, der: seq<byte>, month: nat,
                              ledger: map<string, CallbackOutcome>)
    requires tx < |w.db.txs|
    ensures var e := CompleteEffect(env, w, tx, seen, der, month);
      CompleteEffect(env, Relabel(w, ledger), tx, seen, der, month) == Effect(e.store, RelabelDb(e.db, ledger))
  {
    hide SignParked, MoveChain, HasVersion, HasFile;
    var t := w.db.txs[tx];
    if SignParked(env, w.store, t, der).Done? {
      var signed := SignParked(env, w.store, t, der).value;
      var stored := StoreDocument(env, w.store, w.db, month, seen, SignedCopy(t.party), Some(SignedBy(t.party)),
                                  signed);
      if stored.db.Done? {
        ChainIgnoresLedger(WithStatus(stored.db.value, tx, TxSigned), [SucceedBy(t.party)] + AdvanceBy(t.party),
                           {System}, ledger);
      }
    }
  }

  lemma FailIgnoresLedger(w: World, tx: nat, ledger: map<string, CallbackOutcome>)
    requires tx < |w.db.txs|
    ensures FailSignature(Relabel(w, ledger), tx) == Relabel(FailSignature(w, tx), ledger)
  {
    hide Move;
    if PartySigning(w.db.status).Some? {
      MoveIgnoresLedger(WithStatus(w.db, tx, TxFailed), FailBy(PartySigning(w.db.status).value), {System}, "", ledger);
    }
  }

  lemma OutcomeIgnoresLedger(env: Env, w: World, tx: nat, status: TxStatus, p: Provider,
                             ledger: map<string, CallbackOutcome>)
    requires tx < |w.db.txs|
    ensures ApplyOutcome(env, Relabel(w, ledger), tx, status, p) ==
      Resolved(Relabel(ApplyOutcome(env, w, tx, status, p).world, ledger), ApplyOutcome(env, w, tx, status, p).threw)
  {
    hide CompleteEffect, FailSignature;
    FailIgnoresLedger(w, tx, ledger);
    CompleteIgnoresLedger(env, w, tx, w.db.version, p.der, p.month, ledger);
    FailIgnoresLedger(World(w.db, CompleteEffect(env, w, tx, w.db.version, p.der, p.month).store), tx, ledger);
  }

  // ---- Resolving twice ----------------------------------------------------------------------------

  /** Resolving a transaction as the provider reports it. */
  function Resolve(env: Env, w: World, tx: nat, p: Provider): World
    requires tx < |w.db.txs|
  {
    ApplyOutcome(env, w, tx, p.status, p).world
  }

  /** An attempt that aborts changes at most the store, by an object that makes the next attempt abort on the store
      alone. */
  lemma AbortedAgain(env: Env, w: World, tx: nat, seen: nat, der: seq<byte>, month: nat)
    requires tx < |w.db.txs| && CompleteEffect(env, w, tx, seen, der, month).db.Aborted?
    ensures var e := CompleteEffect(env, w, tx, seen, der, month);
      var again := CompleteEffect(env, World(w.db, e.store), tx, seen, der, month);
      again.db.Aborted? && again.store == e.store
  {
    hide Reopen, Embed, Verifier.AssertIntegrity, MoveChain, InsertRows;
    var t := w.db.txs[tx];
    var e := CompleteEffect(env, w, tx, seen, der, month);
    var sp := SignParked(env, w.store, t, der);
    if sp.Done? {
      assert SignParked(env, e.store, t, der) == sp;
      assert ObjectKey(month, seen, SignedCopy(t.party)) in e.store;
    }
  }

  /** Failing a signature always commits: the failure edge of the status just read exists. */
  lemma FailCommits(db: Db, tx: nat)
    requires tx < |db.txs|
    ensures FailDb(db, tx, db.status).Done?
    ensures FailDb(db, tx, db.status).value.txs == db.txs[tx := db.txs[tx].(status := TxFailed)]
  {
    if PartySigning(db.status).Some? {
      var p := PartySigning(db.status).value;
      assert System in RuleOf(FailBy(p)).roles * {System};
      assert Move(WithStatus(db, tx, TxFailed), FailBy(p), {System}, "").Done?;
    }
  }

  /** A resolution that threw changed no row and throws again, changing nothing; any other leaves nothing open. */
  lemma ResolveTwice(env: Env, w: World, tx: nat, p: Provider)
    requires Coupling(w.db) && tx < |w.db.txs| && Open(w.db.txs[tx]) && Decisive(p.status)
    ensures var r := ApplyOutcome(env, w, tx, p.status, p);
      if r.threw then r.world.db == w.db && ApplyOutcome(env, r.world, tx, p.status, p) == r
      else Closed(r.world.db) && tx < |r.world.db.txs|
  {
    hide CompleteEffect, Coupling, FailDb;
    FailCommits(w.db, tx);
    ResolveCloses(w.db, tx, TxFailed);
    ResolveCloses(w.db, tx, TxSigned);
    var e := CompleteEffect(env, w, tx, w.db.version, p.der, p.month);
    if p.status == TxSigned {
      CompleteTxs(env, w, tx, w.db.version, p.der, p.month);
      if e.db.Aborted? {
        AbortedAgain(env, w, tx, w.db.version, p.der, p.month);
      }
    }
  }

  // ---- Arrivals -----------------------------------------------------------------------------------

  /** A callback arrives, or the reconciliation loop reaches a transaction, in some month; a pass that comes before the
      provider has decided finds it undecided. */
  datatype Arrival = Callback(event: Event, month: nat) | Swept(tx: nat, final: bool, month: nat)

  /** What the provider finally decides for a transaction. */
  datatype Decision = Decision(status: TxStatus, der: seq<byte>)

  type Decisions = nat -> Decision

  function AskedIn(d: Decision, month: nat): Provider {
    Provider(d.status, d.der, month)
  }

  /** An authentic event reports an interim status, which is not acted on, or what the provider decided. */
  ghost predicate Faithful(arrivals: seq<Arrival>, decided: Decisions) {
    forall i :: 0 <= i < |arrivals| && arrivals[i].Callback? && arrivals[i].event.authentic ==>
      !Decisive(arrivals[i].event.status) || arrivals[i].event.status == decided(arrivals[i].event.tx).status
  }

  function Arrive(env: Env, w: World, a: Arrival, decided: Decisions): World {
    match a
    case Callback(e, month) => Deliver(env, w, e, AskedIn(decided(e.tx), month))
    case Swept(tx, final, month) =>
      Reconcile(env, w, tx, if final then AskedIn(decided(tx), month) else Provider(PendingSigner, [], month))
  }

  function ArriveAll(env: Env, w: World, arrivals: seq<Arrival>, decided: Decisions): World
    decreases |arrivals|
  {
    if arrivals == [] then w else ArriveAll(env, Arrive(env, w, arrivals[0], decided), arrivals[1..], decided)
  }

  /** The arrival asks for the transaction to be resolved: a pass after the decision, or a decisive event whose
      identifier is new. */
  predicate Asks(claimed: set<string>, a: Arrival, tx: nat, d: Decision) {
    Decisive(d.status) &&
    match a
    case Swept(t, final, _) => t == tx && final
    case Callback(e, _) => e.authentic && e.id !in claimed && e.tx == tx && Decisive(e.status)
  }

  function Claims(claimed: set<string>, a: Arrival): set<string> {
    if a.Callback? && a.event.authentic then claimed + {a.event.id} else claimed
  }

  /** The months of the arrivals that ask for the transaction to be resolved, in order. */
  function MonthsOf(claimed: set<string>, arrivals: seq<Arrival>, tx: nat, d: Decision): seq<nat>
    decreases |arrivals|
  {
    if arrivals == [] then []
    else (if Asks(claimed, arrivals[0], tx, d) then [arrivals[0].month] else []) +
         MonthsOf(Claims(claimed, arrivals[0]), arrivals[1..], tx, d)
  }

  /** Attempts to resolve the transaction, up to the first that does not throw. */
  function Attempts(env: Env, w: World, tx: nat, d: Decision, months: seq<nat>): World
    requires tx < |w.db.txs|
    decreases |months|
  {
    if months == [] then w
    else
      var r := ApplyOutcome(env, w, tx, d.status, AskedIn(d, months[0]));
      if r.threw && tx < |r.world.db.txs| then Attempts(env, r.world, tx, d, months[1..]) else r.world
  }

  /** Nothing changes but the ledger. */
  predicate Same(w: World, later: World) {
    later.store == w.store && later.db == w.db.(ledger := later.db.ledger)
  }

  lemma {:induction false} NothingOpen(env: Env, w: World, arrivals: seq<Arrival>, decided: Decisions)
    requires Closed(w.db)
    ensures Same(w, ArriveAll(env, w, arrivals, decided))
    decreases |arrivals|
  {
    hide ApplyOutcome;
    if arrivals != [] {
      var next := Arrive(env, w, arrivals[0], decided);
      if arrivals[0].Callback? {
        IngestKeeps(w.db, arrivals[0].event);
      }
      NothingOpen(env, next, arrivals[1..], decided);
    }
  }

  /** The other arrivals leave everything but the ledger as it was. */
  lemma Idle(env: Env, w: World, a: Arrival, decided: Decisions, tx: nat)
    requires Coupling(w.db) && tx < |w.db.txs| && Open(w.db.txs[tx]) && Faithful([a], decided)
    requires !Asks(w.db.ledger.Keys, a, tx, decided(tx))
    ensures Same(w, Arrive(env, w, a, decided))
    ensures Arrive(env, w, a, decided).db.ledger.Keys == Claims(w.db.ledger.Keys, a)
  {
    hide CompleteSignature, FailSignature;
    assert [a][0] == a;
    OnlyOne(w.db, tx);
    if a.Callback? {
      IngestKeeps(w.db, a.event);
    }
  }

  lemma OnlyOne(db: Db, tx: nat)
    requires Coupling(db) && tx < |db.txs| && Open(db.txs[tx])
    ensures forall i :: 0 <= i < |db.txs| && i != tx ==> !Open(db.txs[i])
  {
    assert forall i :: 0 <= i < tx ==> !(Open(db.txs[i]) && Open(db.txs[tx]));
  }

  /** An arrival that asks for it attempts to resolve the transaction. */
  lemma Hit(env: Env, w: World, a: Arrival, decided: Decisions, tx: nat)
    requires Coupling(w.db) && tx < |w.db.txs| && Open(w.db.txs[tx]) && Faithful([a], decided)
    requires Asks(w.db.ledger.Keys, a, tx, decided(tx))
    ensures var p := AskedIn(decided(tx), a.month);
      Same(ApplyOutcome(env, w, tx, p.status, p).world, Arrive(env, w, a, decided))
    ensures Arrive(env, w, a, decided).db.ledger.Keys == Claims(w.db.ledger.Keys, a)
  {
    hide ApplyOutcome, Coupling;
    var p := AskedIn(decided(tx), a.month);
    OutcomeKeepsLedger(env, w, tx, p.status, p);
    match a
    case Swept(_, _, _) =>
    case Callback(e, _) =>
      assert [a][0] == a;
      var i := Ingest(w.db, e);
      IngestKeeps(w.db, e);
      OutcomeIgnoresLedger(env, w, tx, e.status, p, i.db.ledger);
      assert Relabel(w, i.db.ledger) == World(i.db, w.store);
  }

  lemma OutcomeKeepsLedger(env: Env, w: World, tx: nat, status: TxStatus, p: Provider)
    requires tx < |w.db.txs|
    ensures ApplyOutcome(env, w, tx, status, p).world.db.ledger == w.db.ledger
  {
    hide ApplyOutcome;
    OutcomeIgnoresLedger(env, w, tx, status, p, w.db.ledger);
    assert Relabel(w, w.db.ledger) == w;
  }

  lemma {:induction false} AttemptsSame(env: Env, w: World, later: World, tx: nat, d: Decision, months: seq<nat>)
    requires Same(w, later) && tx < |w.db.txs|
    ensures Same(Attempts(env, w, tx, d, months), Attempts(env, later, tx, d, months))
    decreases |months|
  {
    hide ApplyOutcome;
    if months != [] {
      var p := AskedIn(d, months[0]);
      OutcomeIgnoresLedger(env, w, tx, p.status, p, later.db.ledger);
      assert Relabel(w, later.db.ledger) == later;
      var r := ApplyOutcome(env, w, tx, d.status, p);
      if r.threw && tx < |r.world.db.txs| {
        AttemptsSame(env, r.world, ApplyOutcome(env, later, tx, d.status, p).world, tx, d, months[1..]);
      }
    }
  }

  lemma SameCoupled(w: World, later: World)
    requires Coupling(w.db) && Same(w, later)
    ensures Coupling(later.db)
  {
  }

  lemma SameAgain(a: World, b: World, c: World)
    requires Same(a, b) && Same(b, c)
    ensures Same(a, c)
  {
  }

  /** Whatever callbacks and passes arrive, interim, duplicated, late, forged or for unknown transactions, before and
      after the provider decides, in whatever order and months: the state afterwards, but for the ledger, is that of
      attempting to resolve the open transaction at the arrivals that ask for it, up to the first attempt that does not
      throw. */
  lemma {:induction false} Confluence(env: Env, w: World, arrivals: seq<Arrival>, decided: Decisions, tx: nat)
    requires Coupling(w.db) && tx < |w.db.txs| && Open(w.db.txs[tx]) && Faithful(arrivals, decided)
    ensures Same(Attempts(env, w, tx, decided(tx), MonthsOf(w.db.ledger.Keys, arrivals, tx, decided(tx))),
                 ArriveAll(env, w, arrivals, decided))
    decreases |arrivals|
  {
    hide Coupling, ApplyOutcome, Arrive, Asks, Claims;
    if arrivals != [] {
      var (a, rest, d) := (arrivals[0], arrivals[1..], decided(tx));
      var next := Arrive(env, w, a, decided);
      var months := MonthsOf(Claims(w.db.ledger.Keys, a), rest, tx, d);
      assert Faithful(rest, decided) by { FaithfulRest(arrivals, decided); }
      assert Faithful([a], decided) by { FaithfulFirst(arrivals, decided); }
      if Asks(w.db.ledger.Keys, a, tx, d) {
        var r := ApplyOutcome(env, w, tx, d.status, AskedIn(d, a.month));
        Hit(env, w, a, decided, tx);
        assert Decisive(d.status) by { AskedDecided(w.db.ledger.Keys, a, tx, d); }
        ResolveTwice(env, w, tx, AskedIn(d, a.month));
        assert ([a.month] + months)[1..] == months;
        if r.threw {
          LedgerCoupled(w.db, next.db.ledger);
          Confluence(env, next, rest, decided, tx);
          AttemptsSame(env, r.world, next, tx, d, months);
          SameAgain(Attempts(env, r.world, tx, d, months), Attempts(env, next, tx, d, months),
                    ArriveAll(env, next, rest, decided));
        } else {
          NothingOpen(env, next, rest, decided);
          SameAgain(r.world, next, ArriveAll(env, next, rest, decided));
        }
      } else {
        Idle(env, w, a, decided, tx);
        SameCoupled(w, next);
        assert [] + months == months;
        Confluence(env, next, rest, decided, tx);
        AttemptsSame(env, w, next, tx, d, months);
        SameAgain(Attempts(env, w, tx, d, months), Attempts(env, next, tx, d, months),
                  ArriveAll(env, next, rest, decided));
      }
    }
  }

  lemma AskedDecided(claimed: set<string>, a: Arrival, tx: nat, d: Decision)
    requires Asks(claimed, a, tx, d)
    ensures Decisive(d.status)
  {
  }

  lemma FaithfulRest(arrivals: seq<Arrival>, decided: Decisions)
    requires Faithful(arrivals, decided) && arrivals != []
    ensures Faithful(arrivals[1..], decided)
  {
    assert forall i :: 0 <= i < |arrivals[1..]| ==> arrivals[1..][i] == arrivals[i + 1];
  }

  lemma FaithfulFirst(arrivals: seq<Arrival>, decided: Decisions)
    requires Faithful(arrivals, decided) && arrivals != []
    ensures Faithful([arrivals[0]], decided)
  {
  }

  // ---- One month, and several ---------------------------------------------------------------------

  /** Attempts in one month come to the first of them: the others throw again and change nothing. */
  lemma {:induction false} AttemptsInOneMonth(env: Env, w: World, tx: nat, d: Decision, months: seq<nat>, month: nat)
    requires Coupling(w.db) && tx < |w.db.txs| && Open(w.db.txs[tx]) && Decisive(d.status)
    requires forall i :: 0 <= i < |months| ==> months[i] == month
    ensures Attempts(env, w, tx, d, months) ==
      if months == [] then w else ApplyOutcome(env, w, tx, d.status, AskedIn(d, month)).world
    decreases |months|
  {
    hide ApplyOutcome, Coupling;
    if months != [] {
      ResolveTwice(env, w, tx, AskedIn(d, month));
      var r := ApplyOutcome(env, w, tx, d.status, AskedIn(d, month));
      if r.threw {
        AttemptsInOneMonth(env, r.world, tx, d, months[1..], month);
      }
    }
  }

  lemma {:induction false} MonthsAre(claimed: set<string>, arrivals: seq<Arrival>, tx: nat, d: Decision, month: nat)
    requires forall i :: 0 <= i < |arrivals| ==> arrivals[i].month == month
    ensures var months := MonthsOf(claimed, arrivals, tx, d);
      (forall i :: 0 <= i < |months| ==> months[i] == month) && (months != [] ==> Decisive(d.status))
    decreases |arrivals|
  {
    if arrivals != [] {
      MonthsAre(Claims(claimed, arrivals[0]), arrivals[1..], tx, d, month);
    }
  }

  /** Within one month, the state afterwards is that of resolving the transaction once if some arrival asks for it, and
      the old state otherwise: neither order nor number matters. */
  lemma ConfluenceInOneMonth(env: Env, w: World, arrivals: seq<Arrival>, decided: Decisions, tx: nat, month: nat)
    requires Coupling(w.db) && tx < |w.db.txs| && Open(w.db.txs[tx]) && Faithful(arrivals, decided)
    requires forall i :: 0 <= i < |arrivals| ==> arrivals[i].month == month
    ensures var asked := MonthsOf(w.db.ledger.Keys, arrivals, tx, decided(tx)) != [];
      Same(if asked then Resolve(env, w, tx, AskedIn(decided(tx), month)) else w, ArriveAll(env, w, arrivals, decided))
  {
    hide Coupling, ApplyOutcome, ArriveAll;
    var months := MonthsOf(w.db.ledger.Keys, arrivals, tx, decided(tx));
    Confluence(env, w, arrivals, decided, tx);
    MonthsAre(w.db.ledger.Keys, arrivals, tx, decided(tx), month);
    if months != [] {
      AttemptsInOneMonth(env, w, tx, decided(tx), months, month);
    }
  }

  predicate Throws(env: Env, w: World, tx: nat, d: Decision, month: nat)
    requires tx < |w.db.txs|
  {
    ApplyOutcome(env, w, tx, d.status, AskedIn(d, month)).threw
  }

  /** The first month in which resolving the transaction does not throw. */
  function FirstMonth(env: Env, w: World, tx: nat, d: Decision, months: seq<nat>): Option<nat>
    requires tx < |w.db.txs|
    decreases |months|
  {
    if months == [] then None
    else if !Throws(env, w, tx, d, months[0]) then Some(months[0])
    else FirstMonth(env, w, tx, d, months[1..])
  }

  /** The object a completion in the month would write. */
  function SlotOf(w: World, tx: nat, month: nat): Key
    requires tx < |w.db.txs|
  {
    ObjectKey(month, w.db.version, SignedCopy(w.db.txs[tx].party))
  }

  /** `u` is `w` with objects left over in months in which the resolution throws anyway. */
  ghost predicate Cluttered(env: Env, w: World, u: World, tx: nat, d: Decision)
    requires tx < |w.db.txs|
  {
    && u.db == w.db && Grows(w.store, u.store) && SameParked(w.store, u.store)
    && forall month: nat :: !Throws(env, w, tx, d, month) ==>
         (SlotOf(w, tx, month) in u.store <==> SlotOf(w, tx, month) in w.store)
  }

  ghost predicate ParkedThere(w: World, tx: nat)
    requires tx < |w.db.txs|
  {
    w.db.txs[tx].parked.Some? ==> w.db.txs[tx].parked.value in w.store
  }

  /** A completion in a month whose object is free in both worlds, or in neither, comes out the same. */
  lemma CompletesAlike(env: Env, w: World, u: World, tx: nat, der: seq<byte>, month: nat)
    requires tx < |w.db.txs| && u.db == w.db && Grows(w.store, u.store) && ParkedThere(w, tx)
    ensures var (e, f) := (CompleteEffect(env, w, tx, w.db.version, der, month),
                           CompleteEffect(env, u, tx, w.db.version, der, month));
      && ((SlotOf(w, tx, month) in u.store <==> SlotOf(w, tx, month) in w.store) ==> f.db == e.db)
      && (e.db.Aborted? ==> f.db.Aborted?)
      && Grows(u.store, f.store) && SameParked(u.store, f.store)
      && forall key :: key in f.store && key !in u.store ==> key == SlotOf(w, tx, month)
  {
    hide Reopen, Embed, Verifier.AssertIntegrity, MoveChain, InsertRows;
    var t := w.db.txs[tx];
    assert SignParked(env, u.store, t, der) == SignParked(env, w.store, t, der);
    if SignParked(env, w.store, t, der).Done? {
      ChainNotAlarm(env, w, tx, der, month);
    }
  }

  lemma {:induction false} NeverAlarm(db: Db, actions: seq<Action>, roles: set<Role>)
    ensures !MoveChain(db, actions, roles).Alarm?
    decreases |actions|
  {
    hide AssertTransition;
    if actions != [] && Move(db, actions[0], roles, "").Done? {
      NeverAlarm(Move(db, actions[0], roles, "").value, actions[1..], roles);
    }
  }

  lemma ChainNotAlarm(env: Env, w: World, tx: nat, der: seq<byte>, month: nat)
    requires tx < |w.db.txs| && SignParked(env, w.store, w.db.txs[tx], der).Done?
    ensures !CompleteEffect(env, w, tx, w.db.version, der, month).db.Alarm?
  {
    hide SignParked, MoveChain, HasVersion, HasFile;
    var t := w.db.txs[tx];
    var signed := SignParked(env, w.store, t, der).value;
    var stored := StoreDocument(env, w.store, w.db, month, w.db.version, SignedCopy(t.party), Some(SignedBy(t.party)),
                                signed);
    if stored.db.Done? {
      NeverAlarm(WithStatus(stored.db.value, tx, TxSigned), [SucceedBy(t.party)] + AdvanceBy(t.party), {System});
    }
  }

  /** In a cluttered world a resolution throws where it did, and otherwise writes the same rows. */
  lemma ResolvesAlike(env: Env, w: World, u: World, tx: nat, d: Decision, month: nat)
    requires tx < |w.db.txs| && Cluttered(env, w, u, tx, d) && ParkedThere(w, tx)
    ensures var (r, q) := (ApplyOutcome(env, w, tx, d.status, AskedIn(d, month)),
                           ApplyOutcome(env, u, tx, d.status, AskedIn(d, month)));
      && q.threw == r.threw && q.world.db == r.world.db && (r.threw ==> Cluttered(env, w, q.world, tx, d))
  {
    hide CompleteEffect, FailDb;
    CompletesAlike(env, w, u, tx, d.der, month);
    CompletesAlike(env, w, w, tx, d.der, month);
  }

  /** Over several months: the rows are those of resolving the transaction in the first month in which that does not
      throw. Objects left over in one month do not keep it from being resolved in another. */
  lemma {:induction false} AttemptsOverMonths(env: Env, w: World, u: World, tx: nat, d: Decision, months: seq<nat>)
    requires tx < |w.db.txs| && Cluttered(env, w, u, tx, d) && ParkedThere(w, tx)
    ensures Attempts(env, u, tx, d, months).db ==
      match FirstMonth(env, w, tx, d, months)
      case None => w.db
      case Some(month) => Resolve(env, w, tx, AskedIn(d, month)).db
    decreases |months|
  {
    hide ApplyOutcome, Cluttered;
    ClutteredDb(env, w, u, tx, d);
    if months != [] {
      ResolvesAlike(env, w, u, tx, d, months[0]);
      if Throws(env, w, tx, d, months[0]) {
        var q := ApplyOutcome(env, u, tx, d.status, AskedIn(d, months[0]));
        assert q.world.db == w.db by { ClutteredDb(env, w, q.world, tx, d); }
        AttemptsOverMonths(env, w, q.world, tx, d, months[1..]);
      }
    }
  }

  lemma ClutteredDb(env: Env, w: World, u: World, tx: nat, d: Decision)
    requires tx < |w.db.txs| && Cluttered(env, w, u, tx, d)
    ensures u.db == w.db
  {
    hide ApplyOutcome;
  }

  /** The rows after any arrivals, over any months. */
  lemma ConfluenceOverMonths(env: Env, w: World, arrivals: seq<Arrival>, decided: Decisions, tx: nat)
    requires Coupling(w.db) && tx < |w.db.txs| && Open(w.db.txs[tx]) && Faithful(arrivals, decided)
    requires ParkedThere(w, tx)
    ensures var d := decided(tx); var later := ArriveAll(env, w, arrivals, decided).db;
      later == (match FirstMonth(env, w, tx, d, MonthsOf(w.db.ledger.Keys, arrivals, tx, d))
                case None => w.db
                case Some(month) => Resolve(env, w, tx, AskedIn(d, month)).db).(ledger := later.ledger)
  {
    hide Coupling, ApplyOutcome, ArriveAll, Resolve, MonthsOf, FirstMonth, Attempts;
    Confluence(env, w, arrivals, decided, tx);
    AttemptsOverMonths(env, w, w, tx, decided(tx), MonthsOf(w.db.ledger.Keys, arrivals, tx, decided(tx)));
  }
}
