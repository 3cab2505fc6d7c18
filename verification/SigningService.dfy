/** The services as the program runs them: methods that update the agreement's tables and the object store step by step,
    roll the tables back when a transaction aborts, and are proved to do what the protocol's functions say. */
module SigningService {
  import opened Text
  import opened PdfObjects
  import opened IncrementalSigner
  import opened StateMachine
  import Verifier
  import opened Protocol
  import opened ProtocolSafety
  import ProtocolLedger
  import opened AtomicProtocol

  /** The reconciliation pass over the transactions found open: it stops with the first resolution that throws. */
  function Pass(env: Env, w: World, todo: seq<nat>, decided: nat -> Provider): World
    decreases |todo|
  {
    if todo == [] || todo[0] >= |w.db.txs| then w
    else
      var r := ApplyOutcome(env, w, todo[0], decided(todo[0]).status, decided(todo[0]));
      if r.threw then r.world else Pass(env, r.world, todo[1..], decided)
  }

  /** The pass got through all of these: each was there, and resolving it after the ones before did not throw. */
  ghost predicate Completes(env: Env, w: World, todo: seq<nat>, decided: nat -> Provider) {
    forall k :: 0 <= k < |todo| ==> GotThrough(env, w, todo, k, decided)
  }

  ghost predicate GotThrough(env: Env, w: World, todo: seq<nat>, k: nat, decided: nat -> Provider)
    requires k < |todo|
  {
    var before := Pass(env, w, todo[..k], decided);
    && todo[k] < |before.db.txs|
    && !ApplyOutcome(env, before, todo[k], decided(todo[k]).status, decided(todo[k])).threw
  }

  lemma PassStep(env: Env, w: World, todo: seq<nat>, decided: nat -> Provider)
    requires todo != [] && todo[0] < |w.db.txs|
    ensures var r := ApplyOutcome(env, w, todo[0], decided(todo[0]).status, decided(todo[0]));
      Pass(env, w, todo, decided) == if r.threw then r.world else Pass(env, r.world, todo[1..], decided)
  {
    hide ApplyOutcome;
  }

  lemma CompletesStep(env: Env, w: World, a: seq<nat>, decided: nat -> Provider)
    requires a != [] && a[0] < |w.db.txs|
    requires !ApplyOutcome(env, w, a[0], decided(a[0]).status, decided(a[0])).threw
    ensures var r := ApplyOutcome(env, w, a[0], decided(a[0]).status, decided(a[0]));
      Completes(env, w, a, decided) <==> Completes(env, r.world, a[1..], decided)
  {
    hide ApplyOutcome, Pass;
    var r := ApplyOutcome(env, w, a[0], decided(a[0]).status, decided(a[0]));
    forall k: nat | k < |a[1..]|
      ensures GotThrough(env, w, a, k + 1, decided) <==> GotThrough(env, r.world, a[1..], k, decided)
    {
      assert a[..k + 1][1..] == a[1..][..k];
      PassStep(env, w, a[..k + 1], decided);
    }
    assert GotThrough(env, w, a, 0, decided) by {
      assert a[..0] == [];
      assert Pass(env, w, [], decided) == w by { PassNothing(env, w, decided); }
    }
    if Completes(env, r.world, a[1..], decided) {
      forall k | 0 <= k < |a|
        ensures GotThrough(env, w, a, k, decided)
      {
        if k > 0 {
          assert GotThrough(env, r.world, a[1..], k - 1, decided);
        }
      }
    }
    if Completes(env, w, a, decided) {
      forall k | 0 <= k < |a[1..]|
        ensures GotThrough(env, r.world, a[1..], k, decided)
      {
        assert GotThrough(env, w, a, k + 1, decided);
      }
    }
  }

  lemma PassNothing(env: Env, w: World, decided: nat -> Provider)
    ensures Pass(env, w, [], decided) == w
  {
  }

  /** A pass goes on after transactions exactly as long as resolving them does not throw: the rest is resolved from the
      world they leave, or not looked at. */
  lemma {:induction false} PassSplits(env: Env, w: World, a: seq<nat>, b: seq<nat>, decided: nat -> Provider)
    ensures Pass(env, w, a + b, decided) ==
      if Completes(env, w, a, decided) then Pass(env, Pass(env, w, a, decided), b, decided)
      else Pass(env, w, a, decided)
    decreases |a|
  {
    hide ApplyOutcome, Completes;
    if a == [] {
      assert a + b == b;
      assert Completes(env, w, [], decided) by { NothingToDo(env, w, decided); }
    } else {
      assert (a + b)[1..] == a[1..] + b && (a + b)[0] == a[0];
      FirstDecides(env, w, a, decided);
      if a[0] < |w.db.txs| {
        var r := ApplyOutcome(env, w, a[0], decided(a[0]).status, decided(a[0]));
        if !r.threw {
          CompletesStep(env, w, a, decided);
          PassSplits(env, r.world, a[1..], b, decided);
        }
      }
    }
  }

  lemma NothingToDo(env: Env, w: World, decided: nat -> Provider)
    ensures Completes(env, w, [], decided)
  {
  }

  lemma FirstDecides(env: Env, w: World, a: seq<nat>, decided: nat -> Provider)
    requires a != []
    ensures Completes(env, w, a, decided) ==>
      a[0] < |w.db.txs| && !ApplyOutcome(env, w, a[0], decided(a[0]).status, decided(a[0])).threw
  {
    hide ApplyOutcome, Pass;
    if Completes(env, w, a, decided) {
      assert GotThrough(env, w, a, 0, decided);
      assert a[..0] == [];
      PassNothing(env, w, decided);
    }
  }

  class Agreement {
    var status: Status
    var version: nat
    var rowVersion: nat
    var log: seq<LogEntry>
    var closed: seq<ClosedVersion>
    var rows: seq<VersionRow>
    var documents: seq<DocumentRow>
    var txs: seq<Transaction>
    var ledger: map<string, CallbackOutcome>
    var store: Store

    function Tables(): Db
      reads this
    {
      Db(status, version, rowVersion, log, closed, rows, documents, txs, ledger)
    }

    function Current(): World
      reads this
    {
      World(Tables(), store)
    }

    constructor ()
      ensures Current() == World(NEW_AGREEMENT, map[])
    {
      status, version, rowVersion := Draft, 1, 1;
      log, closed, rows, documents, txs, ledger, store := [], [], [], [], [], map[], map[];
    }

    method Rollback(saved: Db)
      modifies this
      ensures Tables() == saved && store == old(store)
    {
      status, version, rowVersion := saved.status, saved.version, saved.rowVersion;
      log, closed, rows := saved.log, saved.closed, saved.rows;
      documents, txs, ledger := saved.documents, saved.txs, saved.ledger;
    }

    /** `transition`: the gate, then status, counter and log. */
    method Transition(action: Action, roles: set<Role>, reason: string) returns (ok: bool)
      modifies this
      ensures Current() == Commit(old(Current()), Move(old(Tables()), action, roles, reason))
      ensures ok == Move(old(Tables()), action, roles, reason).Done?
    {
      var verdict := AssertTransition(status, action, roles, reason);
      if verdict.Refused? {
        return false;
      }
      log := log + [LogEntry(version, status, action, verdict.target)];
      status := verdict.target;
      rowVersion := rowVersion + 1;
      return true;
    }

    /** `transitionChain`: the transitions of one consequence, in one transaction. */
    method TransitionChain(actions: seq<Action>, roles: set<Role>) returns (ok: bool)
      modifies this
      ensures Current() == Commit(old(Current()), MoveChain(old(Tables()), actions, roles))
      ensures ok == MoveChain(old(Tables()), actions, roles).Done?
    {
      hide Move;
      var saved := Tables();
      var i := 0;
      while i < |actions|
        invariant 0 <= i <= |actions|
        invariant store == old(store)
        invariant MoveChain(saved, actions, roles) == MoveChain(Tables(), actions[i..], roles)
      {
        assert actions[i..][0] == actions[i] && actions[i..][1..] == actions[i + 1..];
        NeverAlarms(Tables(), actions[i], roles);
        ok := Transition(actions[i], roles, "");
        if !ok {
          Rollback(saved);
          return false;
        }
        i := i + 1;
      }
      return true;
    }

    /** `store`: the object is written first and stays whatever becomes of the rows. */
    method StoreDoc(env: Env, month: nat, v: nat, docType: DocType, state: Option<DocState>, bytes: string)
      returns (ok: bool)
      modifies this
      ensures var e := StoreDocument(env, old(store), old(Tables()), month, v, docType, state, bytes);
        Current() == Settle(old(Current()), e) && ok == e.db.Done?
    {
      var hash := env.sha(bytes);
      var key := ObjectKey(month, v, docType);
      if key in store {
        return false;
      }
      store := store[key := bytes];
      if (state.Some? && HasVersion(rows, v, state.value)) || HasFile(documents, key) {
        return false;
      }
      if state.Some? {
        rows := rows + [VersionRow(v, state.value, hash, key)];
      }
      documents := documents + [DocumentRow(docType, key, hash, |bytes|)];
      return true;
    }

    /** `generate` and `attachDocument`: sources, prepared document and transition in one transaction. */
    method GenerateVersion(env: Env, roles: set<Role>, source: Source, prepared: string, month: nat) returns (ok: bool)
      modifies this
      ensures var e := GenerateEffect(env, old(Current()), old(version), roles, source, prepared, month);
        Current() == Settle(old(Current()), e) && ok == e.db.Done?
    {
      hide StoreDocument, Move;
      var saved := Tables();
      var v := version;
      match source {
        case Template(flat) =>
          ok := StoreDoc(env, month, v, GeneratedUnsigned, None, flat);
        case Upload(pdf, composed) =>
          ok := StoreDoc(env, month, v, UploadedSource, None, pdf);
          if ok {
            ok := StoreDoc(env, month, v, ComposedUnsigned, None, composed);
          }
      }
      if ok {
        ok := StoreDoc(env, month, v, PreparedUnsigned, Some(Unsigned), prepared);
      }
      if ok {
        ok := Transition(Generate, roles, "");
      }
      if !ok {
        Rollback(saved);
      }
    }

    /** `beginSignature`: park the prepared slot. */
    method BeginSignature(env: Env, row: VersionRow, party: Party, opts: Appearance, month: nat)
      returns (r: Attempt<Protocol.Parked>)
      modifies this
      ensures Tables() == old(Tables())
      ensures (store, r) == Park(env, old(store), row, party, opts, month)
    {
      hide Prepare, JsSlice;
      if row.key !in store {
        return Aborted("source missing");
      }
      var slot := PrepareSignatureSlot(store[row.key], opts);
      if slot.Err? {
        return Aborted(slot.error);
      }
      var digest := env.sha(slot.value.signedContent);
      var key := ParkedKey(month, row.version, party, JsSlice(digest, 0, 16));
      if key !in store {
        store := store[key := slot.value.buffer];
      }
      return Done(Protocol.Parked(key, digest));
    }

    /** `initiateSignature`: the state change commits first, then the slot is parked, then the transaction is created,
        then it is given the parked key. */
    method InitiateSignature(env: Env, party: Party, presented: string, isParty: bool, roles: set<Role>,
                             opts: Appearance, month: nat)
      returns (ok: bool)
      modifies this
      ensures Current() == Initiate(env, old(Current()), party, presented, isParty, roles, opts, month, 4)
    {
      hide Move, Park, LastAttempt;
      var i := CurrentRow(rows, version);
      if i.None? {
        return false;
      }
      var row := rows[i.value];
      if row.hash != presented || !isParty {
        return false;
      }
      ok := Transition(InitiateBy(party), roles, "");
      if !ok {
        return false;
      }
      var parked := BeginSignature(env, row, party, opts, month);
      if !parked.Done? {
        return false;
      }
      if HasOpen(txs, party, row.version) {
        return false;
      }
      var attempt := LastAttempt(txs, party, row.version) + 1;
      txs := txs + [Transaction(party, row.version, parked.value.digest, row.hash, None, PendingSigner, attempt)];
      var tx := |txs| - 1;
      txs := txs[tx := txs[tx].(parked := Some(parked.value.key))];
      return true;
    }

    /** The bytes a completed ceremony stores: reopened, compared, filled, verified as a whole. */
    method FillParked(env: Env, t: Transaction, der: seq<byte>) returns (r: Attempt<string>)
      ensures r == SignParked(env, store, t, der)
    {
      hide Reopen, Embed, Verifier.Verify;
      if t.parked.None? || t.parked.value !in store {
        return Aborted("nothing parked");
      }
      var slot := Reopen(store[t.parked.value]);
      if slot.Err? {
        return Aborted(slot.error);
      }
      if env.sha(slot.value.signedContent) != t.digest {
        return Alarm("parked digest differs");
      }
      var signed := EmbedSignature(slot.value, der);
      if signed.Err? {
        return Aborted(signed.error);
      }
      var report := Verifier.VerifyPdf(signed.value, env.commits);
      if |report| != Rank(t.party) + 1 || !Verifier.AllValid(report) {
        return Alarm("signature integrity failure");
      }
      return Done(signed.value);
    }

    /** `completeSignature`. */
    method CompleteCeremony(env: Env, tx: nat, provider: Provider) returns (threw: bool)
      requires tx < |txs|
      modifies this
      ensures var r := CompleteSignature(env, old(Current()), tx, provider); Current() == r.world && threw == r.threw
    {
      hide StoreDocument, SignParked, MoveChain, FailDb;
      if provider.status != TxSigned {
        FailCeremony(tx);
        return false;
      }
      var saved := Tables();
      var t := txs[tx];
      var signed := FillParked(env, t, provider.der);
      if signed.Aborted? {
        return true;
      }
      if signed.Alarm? {
        FailCeremony(tx);
        return false;
      }
      DocumentNeverAlarms(env, Current(), provider.month, version, SignedCopy(t.party), Some(SignedBy(t.party)),
                          signed.value);
      ProtocolLedger.StoredShape(env, store, Tables(), provider.month, version, SignedCopy(t.party),
                                 Some(SignedBy(t.party)), signed.value);
      var ok := StoreDoc(env, provider.month, version, SignedCopy(t.party), Some(SignedBy(t.party)), signed.value);
      if !ok {
        return true;
      }
      txs := txs[tx := txs[tx].(status := TxSigned)];
      ChainNeverAlarms(Tables(), [SucceedBy(t.party)] + AdvanceBy(t.party), {System});
      ok := TransitionChain([SucceedBy(t.party)] + AdvanceBy(t.party), {System});
      if !ok {
        Rollback(saved);
        return true;
      }
      return false;
    }

    /** `failSignature`, with the status it has just read. */
    method FailCeremony(tx: nat)
      requires tx < |txs|
      modifies this
      ensures Current() == FailSignature(old(Current()), tx)
    {
      hide Move;
      var saved := Tables();
      var party := PartySigning(status);
      txs := txs[tx := txs[tx].(status := TxFailed)];
      if party.Some? {
        var ok := Transition(FailBy(party.value), {System}, "");
        if !ok {
          Rollback(saved);
        }
      }
    }

    method Apply(env: Env, tx: nat, reported: TxStatus, provider: Provider) returns (threw: bool)
      requires tx < |txs|
      modifies this
      ensures var r := ApplyOutcome(env, old(Current()), tx, reported, provider);
        Current() == r.world && threw == r.threw
    {
      hide CompleteSignature, FailSignature;
      threw := false;
      if reported == TxSigned {
        threw := CompleteCeremony(env, tx, provider);
      } else if reported == TxFailed || reported == TxExpired || reported == TxCancelled {
        FailCeremony(tx);
      }
    }

    /** `ingestCallback`: the identifier is claimed before the transaction is looked up. */
    method IngestCallback(e: Event) returns (outcome: CallbackOutcome)
      modifies this
      ensures store == old(store)
      ensures var i := Ingest(old(Tables()), e); Tables() == i.db && outcome == i.outcome
    {
      if !e.authentic {
        return RejectedSignature;
      }
      if e.id in ledger {
        return Duplicate;
      }
      if e.tx >= |txs| {
        outcome := Unmatched;
      } else if !Open(txs[e.tx]) {
        outcome := Stale;
      } else {
        outcome := Applied;
      }
      ledger := ledger[e.id := outcome];
    }

    method ReceiveCallback(env: Env, e: Event, provider: Provider)
      modifies this
      ensures Current() == Deliver(env, old(Current()), e, provider)
    {
      hide ApplyOutcome;
      var outcome := IngestCallback(e);
      if outcome == Applied && e.tx < |txs| {
        var threw := Apply(env, e.tx, e.status, provider);
      }
    }

    /** `reconcileSigningTransactions` over the transactions it found open: the loop ends with the first that throws. */
    method ReconcileAll(env: Env, todo: seq<nat>, decided: nat -> Provider)
      modifies this
      ensures Current() == Pass(env, old(Current()), todo, decided)
    {
      hide ApplyOutcome;
      var i := 0;
      while i < |todo|
        invariant 0 <= i <= |todo|
        invariant Pass(env, old(Current()), todo, decided) == Pass(env, Current(), todo[i..], decided)
      {
        assert todo[i..][0] == todo[i] && todo[i..][1..] == todo[i + 1..];
        if todo[i] >= |txs| {
          return;
        }
        var threw := Apply(env, todo[i], decided(todo[i]).status, decided(todo[i]));
        if threw {
          return;
        }
        i := i + 1;
      }
    }

    /** `reject`: which edge applies follows from the status. */
    method RejectVersion(roles: set<Role>, reason: string) returns (ok: bool)
      modifies this
      ensures Current() == Commit(old(Current()), RejectDb(old(Tables()), roles, reason))
    {
      hide Move;
      if CurrentRow(rows, version).None? {
        return false;
      }
      ok := Transition(RejectAction(status), roles, reason);
    }

    /** `correct`: close the version, count what it voids, cancel its ceremonies, open the next. */
    method CorrectVersion(roles: set<Role>) returns (ok: bool)
      modifies this
      ensures Current() == Commit(old(Current()), CorrectDb(old(Tables()), roles))
    {
      hide Move, CountSigned;
      var saved := Tables();
      var voided := CountSigned(rows, version);
      if HasClosed(closed, version) {
        return false;
      }
      closed := closed + [ClosedVersion(version, status, voided)];
      txs := CancelOpen(txs, version);
      ok := Transition(Correct, roles, "");
      if ok {
        version := version + 1;
      } else {
        Rollback(saved);
      }
    }
  }

  lemma NeverAlarms(db: Db, action: Action, roles: set<Role>)
    ensures !Move(db, action, roles, "").Alarm?
  {
    hide AssertTransition;
  }

  lemma {:induction false} ChainNeverAlarms(db: Db, actions: seq<Action>, roles: set<Role>)
    ensures !MoveChain(db, actions, roles).Alarm?
    decreases |actions|
  {
    hide Move;
    if actions != [] {
      NeverAlarms(db, actions[0], roles);
      if Move(db, actions[0], roles, "").Done? {
        ChainNeverAlarms(Move(db, actions[0], roles, "").value, actions[1..], roles);
      }
    }
  }

  lemma DocumentNeverAlarms(env: Env, w: World, month: nat, v: nat, docType: DocType, state: Option<DocState>,
                            bytes: string)
    ensures !StoreDocument(env, w.store, w.db, month, v, docType, state, bytes).db.Alarm?
  {
  }
}
