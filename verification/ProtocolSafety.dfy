/** What every interleaving of the protocol's steps keeps about documents: each version row names an existing object
    that hashes to the row and was signed by the parties in order. */
module ProtocolSafety {
  import opened Text
  import opened PdfObjects
  import opened IncrementalSigner
  import opened StateMachine
  import opened SigningTheorems
  import Verifier
  import opened Executions
  import opened Protocol

  // ---- Steps in their finest interleaving ---------------------------------------------------------

  /** The steps of concurrent requests. A value a request read earlier and still uses is a parameter: the version or
      status it saw, the row it acts on, the transaction it resolves. */
  datatype Op =
    | GenerateOp(seen: nat, roles: set<Role>, source: Source, prepared: string, month: nat)
    | StartOp(party: Party, presented: string, isParty: bool, roles: set<Role>)
    | ParkOp(row: nat, party: Party, opts: Appearance, month: nat)
    | OpenOp(row: nat, party: Party, digest: string)
    | LinkOp(tx: nat, key: Key)
    | CompleteOp(tx: nat, seen: nat, der: seq<byte>, month: nat)
    | FailOp(tx: nat, status: Status)
    | ActOp(action: Action, roles: set<Role>, reason: string)
    | RejectOp(roles: set<Role>, reason: string)
    | CorrectOp(roles: set<Role>)
    | IngestOp(event: Event)
    | OrphanOp(key: Key, bytes: string)

  /** What the program guarantees about the parameters, and the lexical hypothesis on texts and prepared documents. */
  ghost predicate Enabled(w: World, op: Op) {
    match op
    case GenerateOp(seen, _, _, prepared, _) => 1 <= seen <= w.db.version && Baseline(prepared)
    case ParkOp(row, party, opts, _) => row < |w.db.rows| && GoodOptions(opts) && opts.fieldName == FieldName(party)
    case OpenOp(row, _, _) => row < |w.db.rows|
    case LinkOp(tx, key) => tx < |w.db.txs| && key.ParkedKey? && key in w.store && key.party == w.db.txs[tx].party
    case CompleteOp(tx, seen, _, _) => tx < |w.db.txs| && 1 <= seen <= w.db.version
    case FailOp(tx, _) => tx < |w.db.txs|
    case ActOp(action, _, _) => action == Cancel || action == Expire || IsRetry(action)
    case _ => true
  }

  /** The transaction a request resolves, and the version it writes, are those of the current version. */
  predicate OnVersion(w: World, op: Op) {
    match op
    case GenerateOp(seen, _, _, _, _) => seen == w.db.version
    case LinkOp(tx, key) => tx < |w.db.txs| && key.version == w.db.txs[tx].version
    case CompleteOp(tx, seen, _, _) => tx < |w.db.txs| && seen == w.db.version && w.db.txs[tx].version == seen
    case _ => true
  }

  function Commit(w: World, a: Attempt<Db>): World {
    match a case Done(db) => World(db, w.store) case _ => w
  }

  /** The instance or the database fails after an object was put and before its rows commit: the object stays, alone. */
  function Orphan(w: World, key: Key, bytes: string): World {
    if key.ObjectKey? && key !in w.store then World(w.db, w.store[key := bytes]) else w
  }

  function Apply(env: Env, w: World, op: Op): World {
    match op
    case GenerateOp(seen, roles, source, prepared, month) =>
      Settle(w, GenerateEffect(env, w, seen, roles, source, prepared, month))
    case StartOp(party, presented, isParty, roles) => Commit(w, StartDb(w.db, party, presented, isParty, roles))
    case ParkOp(row, party, opts, month) =>
      if row < |w.db.rows| then World(w.db, Park(env, w.store, w.db.rows[row], party, opts, month).0) else w
    case OpenOp(row, party, digest) =>
      if row < |w.db.rows|
      then Commit(w, OpenDb(w.db, party, w.db.rows[row].version, digest, w.db.rows[row].hash)) else w
    case LinkOp(tx, key) => if tx < |w.db.txs| then World(Link(w.db, tx, key), w.store) else w
    case CompleteOp(tx, seen, der, month) =>
      if tx < |w.db.txs| then Settle(w, CompleteEffect(env, w, tx, seen, der, month)) else w
    case FailOp(tx, status) => if tx < |w.db.txs| then Commit(w, FailDb(w.db, tx, status)) else w
    case ActOp(action, roles, reason) => Commit(w, Move(w.db, action, roles, reason))
    case RejectOp(roles, reason) => Commit(w, RejectDb(w.db, roles, reason))
    case CorrectOp(roles) => Commit(w, CorrectDb(w.db, roles))
    case IngestOp(event) => World(Ingest(w.db, event).db, w.store)
    case OrphanOp(key, bytes) => Orphan(w, key, bytes)
  }

  // ---- The invariant on documents -----------------------------------------------------------------

  /** The prepared document of a version. */
  ghost predicate IsBase(rows: seq<VersionRow>, store: Store, version: nat, base: string) {
    exists i ::
      && 0 <= i < |rows| && rows[i].version == version && rows[i].state == Unsigned
      && rows[i].key in store && store[rows[i].key] == base
  }

  /** The row names an object that hashes to the row's hash and was signed by the first parties in order; with `own`,
      over the prepared document of the row's own version. */
  ghost predicate RowOk(env: Env, rows: seq<VersionRow>, store: Store, own: bool, r: VersionRow) {
    && r.key in store && env.sha(store[r.key]) == r.hash
    && exists base ::
         (own ==> IsBase(rows, store, r.version, base)) && Executed(env.commits, base, store[r.key], Level(r.state))
  }

  ghost predicate RowsOk(env: Env, rows: seq<VersionRow>, store: Store, own: bool) {
    forall i :: 0 <= i < |rows| ==> RowOk(env, rows, store, own, rows[i])
  }

  ghost predicate DocumentsOk(env: Env, documents: seq<DocumentRow>, store: Store) {
    forall i :: 0 <= i < |documents| ==>
      (documents[i].key in store && env.sha(store[documents[i].key]) == documents[i].hash
       && |store[documents[i].key]| == documents[i].size)
  }

  /** `bytes` is a slot prepared for the party on the document of row `i`. */
  ghost predicate ParkedFrom(rows: seq<VersionRow>, store: Store, i: nat, opts: Appearance, party: Party,
                             bytes: string) {
    && i < |rows| && rows[i].key in store && GoodOptions(opts) && opts.fieldName == FieldName(party)
    && Prepare(store[rows[i].key], opts).Ok? && Prepare(store[rows[i].key], opts).value.buffer == bytes
  }

  ghost predicate ParkedOk(rows: seq<VersionRow>, store: Store) {
    forall key :: key in store && key.ParkedKey? ==>
      exists i: nat, opts :: ParkedFrom(rows, store, i, opts, key.party, store[key]) && rows[i].version == key.version
  }

  ghost predicate LinksOk(txs: seq<Transaction>, store: Store, own: bool) {
    forall i :: 0 <= i < |txs| && txs[i].parked.Some? ==>
      var key := txs[i].parked.value;
      key.ParkedKey? && key in store && key.party == txs[i].party && (own ==> key.version == txs[i].version)
  }

  ghost predicate Unique(rows: seq<VersionRow>) {
    forall i, j :: 0 <= i < j < |rows| ==> !(rows[i].version == rows[j].version && rows[i].state == rows[j].state)
  }

  predicate HasLevel(rows: seq<VersionRow>, version: nat, level: int) {
    exists i :: 0 <= i < |rows| && rows[i].version == version && Level(rows[i].state) == level
  }

  /** Below every signed document of a version stands the one it was signed over. */
  ghost predicate Ladder(rows: seq<VersionRow>) {
    forall i :: 0 <= i < |rows| && Level(rows[i].state) > 0 ==>
      HasLevel(rows, rows[i].version, Level(rows[i].state) - 1)
  }

  /** Within a version, documents were inserted in signing order. */
  ghost predicate Ordered(rows: seq<VersionRow>) {
    forall i, j :: 0 <= i < j < |rows| && rows[i].version == rows[j].version ==>
      Level(rows[i].state) < Level(rows[j].state)
  }

  ghost predicate DocInv(env: Env, w: World, own: bool) {
    && RowsOk(env, w.db.rows, w.store, own) && DocumentsOk(env, w.db.documents, w.store) && ParkedOk(w.db.rows, w.store)
    && LinksOk(w.db.txs, w.store, own) && Unique(w.db.rows) && (own ==> Ladder(w.db.rows) && Ordered(w.db.rows))
  }

  // ---- Frames -------------------------------------------------------------------------------------

  ghost predicate Grows(store: Store, later: Store) {
    forall key :: key in store ==> key in later && later[key] == store[key]
  }

  /** No parked object is added. */
  ghost predicate SameParked(store: Store, later: Store) {
    forall key :: key in later && key.ParkedKey? ==> key in store
  }

  lemma BaseFrame(rows: seq<VersionRow>, more: seq<VersionRow>, store: Store, later: Store, version: nat, base: string)
    requires IsBase(rows, store, version, base) && Grows(store, later)
    ensures IsBase(rows + more, later, version, base)
  {
    var i :| 0 <= i < |rows| && rows[i].version == version && rows[i].state == Unsigned && rows[i].key in store
      && store[rows[i].key] == base;
    assert (rows + more)[i] == rows[i];
  }

  lemma RowFrame(env: Env, rows: seq<VersionRow>, more: seq<VersionRow>, store: Store, later: Store, own: bool,
                 r: VersionRow)
    requires RowOk(env, rows, store, own, r) && Grows(store, later)
    ensures RowOk(env, rows + more, later, own, r)
  {
    hide IsBase, Executed;
    var base :| (own ==> IsBase(rows, store, r.version, base))
      && Executed(env.commits, base, store[r.key], Level(r.state));
    if own {
      BaseFrame(rows, more, store, later, r.version, base);
    }
  }

  lemma ParkedFrame(rows: seq<VersionRow>, more: seq<VersionRow>, store: Store, later: Store)
    requires ParkedOk(rows, store) && Grows(store, later) && SameParked(store, later)
    ensures ParkedOk(rows + more, later)
  {
    hide Prepare, GoodOptions;
    forall key | key in later && key.ParkedKey?
      ensures exists i: nat, opts ::
        ParkedFrom(rows + more, later, i, opts, key.party, later[key]) && (rows + more)[i].version == key.version
    {
      var i: nat, opts :| ParkedFrom(rows, store, i, opts, key.party, store[key]) && rows[i].version == key.version;
      assert (rows + more)[i] == rows[i];
      assert ParkedFrom(rows + more, later, i, opts, key.party, later[key]);
    }
  }

  /** Growing the store by objects that are not parked keeps everything that is said of the same rows. */
  lemma StoreFrame(env: Env, w: World, later: Store, own: bool)
    requires DocInv(env, w, own) && Grows(w.store, later) && SameParked(w.store, later)
    ensures DocInv(env, World(w.db, later), own)
  {
    hide RowOk, ParkedOk, Unique, Ladder, Ordered;
    var rows := w.db.rows;
    assert rows + [] == rows;
    forall i | 0 <= i < |rows|
      ensures RowOk(env, rows, later, own, rows[i])
    {
      RowFrame(env, rows, [], w.store, later, own, rows[i]);
    }
    ParkedFrame(rows, [], w.store, later);
  }

  lemma LinksKept(txs: seq<Transaction>, later: seq<Transaction>, store: Store, own: bool)
    requires LinksOk(txs, store, own) && |later| >= |txs|
    requires forall i :: 0 <= i < |txs| ==>
      later[i].parked == txs[i].parked && later[i].party == txs[i].party && later[i].version == txs[i].version
    requires forall i :: |txs| <= i < |later| ==> later[i].parked.None?
    ensures LinksOk(later, store, own)
  {
  }

  // ---- New rows -----------------------------------------------------------------------------------

  lemma LevelInjective(s: DocState, t: DocState)
    ensures Level(s) == Level(t) ==> s == t
  {
  }

  lemma {:induction false} LadderDown(rows: seq<VersionRow>, version: nat, level: nat, lower: nat)
    requires Ladder(rows) && HasLevel(rows, version, level) && lower <= level
    ensures HasLevel(rows, version, lower)
    decreases level
  {
    if lower < level {
      LadderDown(rows, version, level - 1, lower);
    }
  }

  /** What must be known of bytes before they become a version row. */
  ghost predicate RowFits(env: Env, rows: seq<VersionRow>, store: Store, own: bool, version: nat, state: DocState,
                          bytes: string) {
    match state
    case Unsigned => Baseline(bytes)
    case SignedBy(p) =>
      && (exists base ::
            (own ==> IsBase(rows, store, version, base)) && Executed(env.commits, base, bytes, Level(state)))
      && (own ==> HasLevel(rows, version, Level(state) - 1))
  }

  lemma NewRowOk(env: Env, rows: seq<VersionRow>, store: Store, later: Store, own: bool, r: VersionRow)
    requires Grows(store, later) && r.key in later && r.hash == env.sha(later[r.key])
    requires RowFits(env, rows, store, own, r.version, r.state, later[r.key])
    ensures RowOk(env, rows + [r], later, own, r)
  {
    hide IsBase, Executed, Baseline;
    if r.state == Unsigned {
      BaselineExecuted(env.commits, later[r.key]);
      assert IsBase(rows + [r], later, r.version, later[r.key]) by { ItselfBase(rows, later, r); }
    } else {
      var base :| (own ==> IsBase(rows, store, r.version, base))
        && Executed(env.commits, base, later[r.key], Level(r.state));
      if own {
        BaseFrame(rows, [r], store, later, r.version, base);
      }
    }
  }

  lemma ItselfBase(rows: seq<VersionRow>, store: Store, r: VersionRow)
    requires r.key in store && r.state == Unsigned
    ensures IsBase(rows + [r], store, r.version, store[r.key])
  {
    assert (rows + [r])[|rows|] == r;
  }

  lemma LadderSnoc(rows: seq<VersionRow>, r: VersionRow)
    requires Ladder(rows) && Ordered(rows) && !HasVersion(rows, r.version, r.state)
    requires Level(r.state) > 0 ==> HasLevel(rows, r.version, Level(r.state) - 1)
    ensures Ladder(rows + [r]) && Ordered(rows + [r])
  {
    hide Level;
    var all := rows + [r];
    forall i | 0 <= i < |all| && Level(all[i].state) > 0
      ensures HasLevel(all, all[i].version, Level(all[i].state) - 1)
    {
      assert HasLevel(rows, all[i].version, Level(all[i].state) - 1);
      LevelKept(rows, r, all[i].version, Level(all[i].state) - 1);
    }
    forall i | 0 <= i < |rows| && rows[i].version == r.version
      ensures Level(rows[i].state) < Level(r.state)
    {
      if Level(rows[i].state) >= Level(r.state) {
        assert HasLevel(rows, r.version, Level(rows[i].state));
        LadderDown(rows, r.version, Level(rows[i].state), Level(r.state));
        LevelMeansVersion(rows, r.version, r.state);
        assert false;
      }
    }
  }

  lemma LevelKept(rows: seq<VersionRow>, r: VersionRow, version: nat, level: int)
    requires HasLevel(rows, version, level)
    ensures HasLevel(rows + [r], version, level)
  {
    var i :| 0 <= i < |rows| && rows[i].version == version && Level(rows[i].state) == level;
    assert (rows + [r])[i] == rows[i];
  }

  lemma LevelMeansVersion(rows: seq<VersionRow>, version: nat, state: DocState)
    requires HasLevel(rows, version, Level(state))
    ensures HasVersion(rows, version, state)
  {
    var i :| 0 <= i < |rows| && rows[i].version == version && Level(rows[i].state) == Level(state);
    LevelInjective(rows[i].state, state);
  }

  /** Storing a document keeps the invariant whether or not its rows commit. */
  lemma StoreDocumentKeeps(env: Env, w: World, own: bool, month: nat, version: nat, docType: DocType,
                           state: Option<DocState>, bytes: string)
    requires DocInv(env, w, own)
    requires state.Some? ==> RowFits(env, w.db.rows, w.store, own, version, state.value, bytes)
    ensures var e := StoreDocument(env, w.store, w.db, month, version, docType, state, bytes);
      && Grows(w.store, e.store) && SameParked(w.store, e.store)
      && DocInv(env, World(w.db, e.store), own)
      && (e.db.Done? ==> (DocInv(env, World(e.db.value, e.store), own) && e.db.value.txs == w.db.txs
          && e.db.value == w.db.(rows := e.db.value.rows, documents := e.db.value.documents)
          && (state.None? ==> e.db.value.rows == w.db.rows)))
  {
    hide RowsOk, ParkedOk, LinksOk, RowFits;
    var e := StoreDocument(env, w.store, w.db, month, version, docType, state, bytes);
    StoreFrame(env, w, e.store, own);
    if e.db.Done? {
      var db := e.db.value;
      var key := ObjectKey(month, version, docType);
      assert DocumentsOk(env, db.documents, e.store);
      LinksKept(w.db.txs, db.txs, w.store, own);
      LinksGrow(w.db.txs, w.store, e.store, own);
      if state.Some? {
        RowInserted(env, w, e.store, own, VersionRow(version, state.value, env.sha(bytes), key));
      }
    }
  }

  lemma LinksGrow(txs: seq<Transaction>, store: Store, later: Store, own: bool)
    requires LinksOk(txs, store, own) && Grows(store, later)
    ensures LinksOk(txs, later, own)
  {
  }

  lemma RowInserted(env: Env, w: World, later: Store, own: bool, r: VersionRow)
    requires DocInv(env, w, own) && Grows(w.store, later) && SameParked(w.store, later)
    requires !HasVersion(w.db.rows, r.version, r.state)
    requires r.key in later && r.hash == env.sha(later[r.key])
    requires RowFits(env, w.db.rows, w.store, own, r.version, r.state, later[r.key])
    ensures var rows := w.db.rows + [r];
      RowsOk(env, rows, later, own) && ParkedOk(rows, later) && Unique(rows) && (own ==> Ladder(rows) && Ordered(rows))
  {
    hide RowOk, ParkedOk, LinksOk, DocumentsOk, Level;
    var rows := w.db.rows + [r];
    forall i | 0 <= i < |rows|
      ensures RowOk(env, rows, later, own, rows[i])
    {
      if i < |w.db.rows| {
        RowFrame(env, w.db.rows, [r], w.store, later, own, rows[i]);
      } else {
        NewRowOk(env, w.db.rows, w.store, later, own, r);
      }
    }
    ParkedFrame(w.db.rows, [r], w.store, later);
    if own {
      assert Level(r.state) > 0 ==>
        HasLevel(w.db.rows, r.version, Level(r.state) - 1) by { FitsLevel(env, w.db.rows, w.store, r, later[r.key]); }
      LadderSnoc(w.db.rows, r);
    }
  }

  lemma FitsLevel(env: Env, rows: seq<VersionRow>, store: Store, r: VersionRow, bytes: string)
    requires RowFits(env, rows, store, true, r.version, r.state, bytes)
    ensures Level(r.state) > 0 ==> HasLevel(rows, r.version, Level(r.state) - 1)
  {
  }

  // ---- Moves --------------------------------------------------------------------------------------

  lemma MoveKeeps(db: Db, action: Action, roles: set<Role>, reason: string)
    ensures var m := Move(db, action, roles, reason);
      m.Done? ==> m.value == db.(status := m.value.status, rowVersion := m.value.rowVersion, log := m.value.log)
  {
    hide AssertTransition;
  }

  lemma {:induction false} MoveChainKeeps(db: Db, actions: seq<Action>, roles: set<Role>)
    ensures var m := MoveChain(db, actions, roles);
      m.Done? ==> m.value == db.(status := m.value.status, rowVersion := m.value.rowVersion, log := m.value.log)
    decreases |actions|
  {
    hide Move;
    if actions != [] {
      MoveKeeps(db, actions[0], roles, "");
      if Move(db, actions[0], roles, "").Done? {
        MoveChainKeeps(Move(db, actions[0], roles, "").value, actions[1..], roles);
      }
    }
  }

  // ---- Every step keeps the invariant -------------------------------------------------------------

  lemma GenerateKeeps(env: Env, w: World, own: bool, seen: nat, roles: set<Role>, source: Source, prepared: string,
                      month: nat)
    requires DocInv(env, w, own) && Baseline(prepared)
    ensures DocInv(env, Settle(w, GenerateEffect(env, w, seen, roles, source, prepared, month)), own)
  {
    hide DocInv, StoreDocument, Move, Baseline;
    SourceKeeps(env, w, own, seen, source, month);
    var first := StoreSource(env, w.store, w.db, month, seen, source);
    if first.db.Done? {
      var mid := World(first.db.value, first.store);
      UnsignedFits(env, mid, own, seen, prepared);
      StoreDocumentKeeps(env, mid, own, month, seen, PreparedUnsigned, Some(Unsigned), prepared);
      var second := StoreDocument(env, first.store, first.db.value, month, seen, PreparedUnsigned, Some(Unsigned),
                                  prepared);
      StoreFrameFrom(env, World(w.db, first.store), second.store, own);
      if second.db.Done? {
        MoveKeeps(second.db.value, Generate, roles, "");
        if Move(second.db.value, Generate, roles, "").Done? {
          MovedKeeps(env, World(second.db.value, second.store), Move(second.db.value, Generate, roles, "").value, own);
        }
      }
    }
  }

  lemma UnsignedFits(env: Env, w: World, own: bool, version: nat, bytes: string)
    requires Baseline(bytes)
    ensures RowFits(env, w.db.rows, w.store, own, version, Unsigned, bytes)
  {
  }

  lemma StoreFrameFrom(env: Env, w: World, later: Store, own: bool)
    requires DocInv(env, w, own) && Grows(w.store, later) && SameParked(w.store, later)
    ensures DocInv(env, World(w.db, later), own)
  {
    hide DocInv;
    StoreFrame(env, w, later, own);
  }

  /** A change of status, counter and log only. */
  lemma MovedKeeps(env: Env, w: World, db: Db, own: bool)
    requires DocInv(env, w, own) && db == w.db.(status := db.status, rowVersion := db.rowVersion, log := db.log)
    ensures DocInv(env, World(db, w.store), own)
  {
    hide RowsOk, ParkedOk, Unique, Ladder, Ordered, DocumentsOk, LinksOk;
  }

  lemma SourceKeeps(env: Env, w: World, own: bool, seen: nat, source: Source, month: nat)
    requires DocInv(env, w, own)
    ensures var first := StoreSource(env, w.store, w.db, month, seen, source);
      && DocInv(env, World(w.db, first.store), own)
      && (first.db.Done? ==> DocInv(env, World(first.db.value, first.store), own) && first.db.value.rows == w.db.rows)
  {
    hide DocInv, StoreDocument;
    match source
    case Template(flat) => StoreDocumentKeeps(env, w, own, month, seen, GeneratedUnsigned, None, flat);
    case Upload(pdf, composed) =>
      StoreDocumentKeeps(env, w, own, month, seen, UploadedSource, None, pdf);
      var first := StoreDocument(env, w.store, w.db, month, seen, UploadedSource, None, pdf);
      if first.db.Done? {
        StoreDocumentKeeps(env, World(first.db.value, first.store), own, month, seen, ComposedUnsigned, None, composed);
        var second := StoreDocument(env, first.store, first.db.value, month, seen, ComposedUnsigned, None, composed);
        StoreFrame(env, World(w.db, first.store), second.store, own);
      }
  }

  lemma ParkKeeps(env: Env, w: World, own: bool, row: nat, party: Party, opts: Appearance, month: nat)
    requires DocInv(env, w, own) && row < |w.db.rows| && GoodOptions(opts) && opts.fieldName == FieldName(party)
    ensures DocInv(env, World(w.db, Park(env, w.store, w.db.rows[row], party, opts, month).0), own)
  {
    hide RowOk, Ladder, Ordered, Unique, Prepare, GoodOptions;
    var rows := w.db.rows;
    var later := Park(env, w.store, rows[row], party, opts, month).0;
    assert Grows(w.store, later);
    assert rows + [] == rows;
    forall i | 0 <= i < |rows|
      ensures RowOk(env, rows, later, own, rows[i])
    {
      RowFrame(env, rows, [], w.store, later, own, rows[i]);
    }
    forall key | key in later && key.ParkedKey?
      ensures exists i: nat, opts ::
        ParkedFrom(rows, later, i, opts, key.party, later[key]) && rows[i].version == key.version
    {
      if key in w.store {
        var i: nat, o :| ParkedFrom(rows, w.store, i, o, key.party, w.store[key]) && rows[i].version == key.version;
        assert ParkedFrom(rows, later, i, o, key.party, later[key]);
      } else {
        assert ParkedFrom(rows, later, row, opts, key.party, later[key]);
      }
    }
    LinksGrow(w.db.txs, w.store, later, own);
  }

  /** What completing a transaction stores is the document of the next party in order: the count check decides which. */
  lemma SignedFits(env: Env, w: World, own: bool, tx: nat, der: seq<byte>)
    requires DocInv(env, w, own) && tx < |w.db.txs| && SignParked(env, w.store, w.db.txs[tx], der).Done?
    ensures var t := w.db.txs[tx];
      exists version :: (own ==> version == t.version) &&
        RowFits(env, w.db.rows, w.store, own, version, SignedBy(t.party), SignParked(env, w.store, t, der).value)
  {
    hide Prepare, Reopen, Embed, Verifier.AssertIntegrity, GoodOptions, Executed, IsBase, Ladder, Ordered, Unique,
      DocumentsOk;
    var t := w.db.txs[tx];
    var rows := w.db.rows;
    var key := t.parked.value;
    var i: nat, opts :| ParkedFrom(rows, w.store, i, opts, key.party, w.store[key]) && rows[i].version == key.version;
    assert RowOk(env, rows, w.store, own, rows[i]);
    var base :| (own ==> IsBase(rows, w.store, rows[i].version, base))
      && Executed(env.commits, base, w.store[rows[i].key], Level(rows[i].state));
    var slot := Reopen(w.store[key]).value;
    var signed := Embed(slot, der).value;
    SignatureExtends(env.commits, base, w.store[rows[i].key], Level(rows[i].state), t.party, opts, slot, der, signed);
    assert Level(SignedBy(t.party)) == Level(rows[i].state) + 1;
    assert HasLevel(rows, rows[i].version, Level(SignedBy(t.party)) - 1);
    assert Executed(env.commits, base, signed, Level(SignedBy(t.party)));
    assert RowFits(env, rows, w.store, own, rows[i].version, SignedBy(t.party), signed);
  }

  /** Without the hypothesis on versions the version it is stored under does not matter. */
  lemma FitsAnywhere(env: Env, rows: seq<VersionRow>, store: Store, version: nat, other: nat, p: Party, bytes: string)
    requires RowFits(env, rows, store, false, version, SignedBy(p), bytes)
    ensures RowFits(env, rows, store, false, other, SignedBy(p), bytes)
  {
    hide Executed;
  }

  lemma CompleteKeeps(env: Env, w: World, own: bool, tx: nat, seen: nat, der: seq<byte>, month: nat)
    requires DocInv(env, w, own) && tx < |w.db.txs| && (own ==> seen == w.db.txs[tx].version)
    ensures DocInv(env, Settle(w, CompleteEffect(env, w, tx, seen, der, month)), own)
  {
    hide DocInv, StoreDocument, SignParked, MoveChain, RowFits;
    var t := w.db.txs[tx];
    if SignParked(env, w.store, t, der).Done? {
      var signed := SignParked(env, w.store, t, der).value;
      SignedFits(env, w, own, tx, der);
      var version :| (own ==> version == t.version)
        && RowFits(env, w.db.rows, w.store, own, version, SignedBy(t.party), signed);
      if !own {
        FitsAnywhere(env, w.db.rows, w.store, version, seen, t.party, signed);
      }
      StoreDocumentKeeps(env, w, own, month, seen, SignedCopy(t.party), Some(SignedBy(t.party)), signed);
      var stored := StoreDocument(env, w.store, w.db, month, seen, SignedCopy(t.party), Some(SignedBy(t.party)),
                                  signed);
      if stored.db.Done? {
        var db := WithStatus(stored.db.value, tx, TxSigned);
        StatusKeeps(env, World(stored.db.value, stored.store), tx, TxSigned, own);
        var actions := [SucceedBy(t.party)] + AdvanceBy(t.party);
        MoveChainKeeps(db, actions, {System});
        if MoveChain(db, actions, {System}).Done? {
          MovedKeeps(env, World(db, stored.store), MoveChain(db, actions, {System}).value, own);
        }
      }
    }
  }

  lemma StatusKeeps(env: Env, w: World, tx: nat, status: TxStatus, own: bool)
    requires DocInv(env, w, own) && tx < |w.db.txs|
    ensures DocInv(env, World(WithStatus(w.db, tx, status), w.store), own)
  {
    hide RowsOk, ParkedOk, Unique, Ladder, Ordered, DocumentsOk;
    LinksKept(w.db.txs, WithStatus(w.db, tx, status).txs, w.store, own);
  }

  lemma LinkKeeps(env: Env, w: World, own: bool, tx: nat, key: Key)
    requires DocInv(env, w, own) && tx < |w.db.txs| && key.ParkedKey? && key in w.store
    requires key.party == w.db.txs[tx].party
    requires own ==> key.version == w.db.txs[tx].version
    ensures DocInv(env, World(Link(w.db, tx, key), w.store), own)
  {
    hide RowsOk, ParkedOk, Unique, Ladder, Ordered, DocumentsOk;
  }

  lemma SmallStepsKeep(env: Env, w: World, own: bool, db: Db)
    requires DocInv(env, w, own) && db.rows == w.db.rows && db.documents == w.db.documents && |db.txs| >= |w.db.txs|
    requires forall i :: 0 <= i < |w.db.txs| ==>
      (db.txs[i].parked == w.db.txs[i].parked && db.txs[i].party == w.db.txs[i].party
       && db.txs[i].version == w.db.txs[i].version)
    requires forall i :: |w.db.txs| <= i < |db.txs| ==> db.txs[i].parked.None?
    ensures DocInv(env, World(db, w.store), own)
  {
    hide RowsOk, ParkedOk, Unique, Ladder, Ordered, DocumentsOk;
    LinksKept(w.db.txs, db.txs, w.store, own);
  }

  /** Every step of every interleaving keeps the documents in order; with the hypothesis that transactions are resolved
      on their own version, also each over its own version's prepared document. */
  lemma StepKeeps(env: Env, w: World, own: bool, op: Op)
    requires DocInv(env, w, own) && Enabled(w, op) && (own ==> OnVersion(w, op))
    ensures DocInv(env, Apply(env, w, op), own)
  {
    hide DocInv, Move, MoveChain, CurrentRow, CountSigned, GenerateEffect, CompleteEffect, Park, Baseline, GoodOptions,
      HasOpen, LastAttempt, HasClosed;
    match op
    case GenerateOp(seen, roles, source, prepared, month) =>
      GenerateKeeps(env, w, own, seen, roles, source, prepared, month);
    case StartOp(party, presented, isParty, roles) =>
      MoveKeeps(w.db, InitiateBy(party), roles, "");
      SmallStepsKeep(env, w, own, Apply(env, w, op).db);
    case ParkOp(row, party, opts, month) => ParkKeeps(env, w, own, row, party, opts, month);
    case OpenOp(row, party, digest) => SmallStepsKeep(env, w, own, Apply(env, w, op).db);
    case LinkOp(tx, key) => LinkKeeps(env, w, own, tx, key);
    case CompleteOp(tx, seen, der, month) => CompleteKeeps(env, w, own, tx, seen, der, month);
    case FailOp(tx, status) => FailKeeps(env, w, own, tx, status);
    case ActOp(action, roles, reason) =>
      MoveKeeps(w.db, action, roles, reason);
      SmallStepsKeep(env, w, own, Apply(env, w, op).db);
    case RejectOp(roles, reason) =>
      MoveKeeps(w.db, RejectAction(w.db.status), roles, reason);
      SmallStepsKeep(env, w, own, Apply(env, w, op).db);
    case CorrectOp(roles) => CorrectKeeps(env, w, own, roles);
    case IngestOp(event) => SmallStepsKeep(env, w, own, Apply(env, w, op).db);
    case OrphanOp(key, bytes) => StoreFrameFrom(env, w, Orphan(w, key, bytes).store, own);
  }

  lemma FailKeeps(env: Env, w: World, own: bool, tx: nat, status: Status)
    requires DocInv(env, w, own) && tx < |w.db.txs|
    ensures DocInv(env, Commit(w, FailDb(w.db, tx, status)), own)
  {
    hide DocInv, Move;
    var next := WithStatus(w.db, tx, TxFailed);
    if PartySigning(status).Some? {
      MoveKeeps(next, FailBy(PartySigning(status).value), {System}, "");
    }
    SmallStepsKeep(env, w, own, Commit(w, FailDb(w.db, tx, status)).db);
  }

  lemma CorrectKeeps(env: Env, w: World, own: bool, roles: set<Role>)
    requires DocInv(env, w, own)
    ensures DocInv(env, Commit(w, CorrectDb(w.db, roles)), own)
  {
    hide DocInv, Move, CountSigned, HasClosed;
    var next := Closing(w.db);
    MoveKeeps(next, Correct, roles, "");
    SmallStepsKeep(env, w, own, Commit(w, CorrectDb(w.db, roles)).db);
  }

  // ---- Runs ---------------------------------------------------------------------------------------

  ghost predicate Run(env: Env, w: World, own: bool, ops: seq<Op>, last: World)
    decreases |ops|
  {
    if ops == [] then w == last
    else Enabled(w, ops[0]) && (own ==> OnVersion(w, ops[0])) && Run(env, Apply(env, w, ops[0]), own, ops[1..], last)
  }

  lemma RunNone(env: Env, w: World, own: bool)
    ensures Run(env, w, own, [], w)
  {
  }

  lemma RunOne(env: Env, w: World, own: bool, op: Op)
    requires Enabled(w, op) && (own ==> OnVersion(w, op))
    ensures Run(env, w, own, [op], Apply(env, w, op))
  {
    hide Enabled, OnVersion, Apply;
    assert [op][1..] == [];
    assert Run(env, Apply(env, w, op), own, [], Apply(env, w, op));
  }

  lemma {:induction false} RunsCompose(env: Env, w: World, own: bool, a: seq<Op>, mid: World, b: seq<Op>, last: World)
    requires Run(env, w, own, a, mid) && Run(env, mid, own, b, last)
    ensures Run(env, w, own, a + b, last)
    decreases |a|
  {
    hide Enabled, OnVersion, Apply;
    if a == [] {
      assert a + b == b;
    } else {
      assert (a + b)[1..] == a[1..] + b;
      RunsCompose(env, Apply(env, w, a[0]), own, a[1..], mid, b, last);
    }
  }

  lemma RunThen(env: Env, w: World, own: bool, ops: seq<Op>, mid: World, op: Op)
    requires Run(env, w, own, ops, mid) && Enabled(mid, op) && (own ==> OnVersion(mid, op))
    ensures Run(env, w, own, ops + [op], Apply(env, mid, op))
  {
    hide Enabled, OnVersion, Apply, Run;
    RunOne(env, mid, own, op);
    RunsCompose(env, w, own, ops, mid, [op], Apply(env, mid, op));
  }

  /** A run that acts on current versions only is one of the finest interleaving. */
  lemma {:induction false} RunWeaken(env: Env, w: World, ops: seq<Op>, last: World)
    requires Run(env, w, true, ops, last)
    ensures Run(env, w, false, ops, last)
    decreases |ops|
  {
    hide Enabled, OnVersion, Apply;
    if ops != [] {
      RunWeaken(env, Apply(env, w, ops[0]), ops[1..], last);
    }
  }

  lemma {:induction false} RunKeeps(env: Env, w: World, own: bool, ops: seq<Op>, last: World)
    requires DocInv(env, w, own) && Run(env, w, own, ops, last)
    ensures DocInv(env, last, own)
    decreases |ops|
  {
    hide DocInv, Enabled, OnVersion, Apply;
    if ops != [] {
      StepKeeps(env, w, own, ops[0]);
      RunKeeps(env, Apply(env, w, ops[0]), own, ops[1..], last);
    }
  }

  /** A new agreement beside a store without parked objects of it. */
  ghost predicate Initial(w: World) {
    w.db == NEW_AGREEMENT && forall key :: key in w.store ==> !key.ParkedKey?
  }

  lemma InitialInv(env: Env, w: World, own: bool)
    requires Initial(w)
    ensures DocInv(env, w, own)
  {
  }

  /** Signing order and record/store agreement, over every interleaving of every run, retries, rejections, expiry and
      corrections included: each version row names an object that hashes to it and carries exactly the signatures of the
      first parties, in the order agent, employee, MD, all of them valid. A FINAL row carries all three. */
  lemma SigningOrder(env: Env, w: World, ops: seq<Op>, last: World, i: nat)
    requires Initial(w) && Run(env, w, false, ops, last) && i < |last.db.rows|
    ensures var r := last.db.rows[i];
      && r.key in last.store && env.sha(last.store[r.key]) == r.hash
      && exists base, steps :: |steps| == Level(r.state) && Execution(env.commits, base, steps, last.store[r.key])
    ensures last.db.rows[i].state == SignedBy(Md) ==>
      |Verifier.Verify(last.store[last.db.rows[i].key], env.commits)| == 3
  {
    hide Enabled, OnVersion, Apply, Execution, Verifier.Verify;
    InitialInv(env, w, false);
    RunKeeps(env, w, false, ops, last);
    var r := last.db.rows[i];
    assert RowOk(env, last.db.rows, last.store, false, r);
    var base :| Executed(env.commits, base, last.store[r.key], Level(r.state));
    var steps := ExecutionOf(env.commits, base, last.store[r.key], Level(r.state));
    var doc, nums := ExecutedFacts(env.commits, base, last.store[r.key], steps);
    VerdictCount(env.commits, base, last.store[r.key], doc, nums, Level(r.state));
  }

  lemma VerdictCount(commits: Verifier.Commitment, base: string, bytes: string, doc: Index, nums: seq<nat>, k: nat)
    requires Signed(commits, base, bytes, doc, nums, k)
    ensures |Verifier.Verify(bytes, commits)| == k
  {
    hide *;
    SignedPart(commits, base, bytes, doc, nums, k, Agent);
    CountOfVerdicts(bytes, commits);
  }

  lemma CountOfVerdicts(bytes: string, commits: Verifier.Commitment)
    ensures |Verifier.Verify(bytes, commits)| == |Slots(bytes, 0)|
  {
    hide Slots;
  }

  /** Record and store agree, over every interleaving and whatever transactions rolled back: each version row and each
      document row names an existing object that hashes to the row. */
  lemma RecordsMatchStore(env: Env, w: World, ops: seq<Op>, last: World)
    requires Initial(w) && Run(env, w, false, ops, last)
    ensures forall i :: 0 <= i < |last.db.rows| ==>
      last.db.rows[i].key in last.store && env.sha(last.store[last.db.rows[i].key]) == last.db.rows[i].hash
    ensures DocumentsOk(env, last.db.documents, last.store)
  {
    hide Enabled, OnVersion, Apply, IsBase, Executed, DocumentsOk;
    InitialInv(env, w, false);
    RunKeeps(env, w, false, ops, last);
    forall i | 0 <= i < |last.db.rows|
      ensures last.db.rows[i].key in last.store && env.sha(last.store[last.db.rows[i].key]) == last.db.rows[i].hash
    {
      assert RowOk(env, last.db.rows, last.store, false, last.db.rows[i]);
    }
  }
}
