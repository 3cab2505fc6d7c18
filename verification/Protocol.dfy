/** The signing protocol of one agreement: its database rows, the write-once object store beside them, and the steps
    that change both. A database step is atomic and rolls back; an object once written stays. */
module Protocol {
  import opened Text
  import opened PdfObjects
  import opened IncrementalSigner
  import opened StateMachine
  import Verifier

  // ---- Parties and documents ----------------------------------------------------------------------

  datatype Party = Agent | Employee | Md

  const ORDER: seq<Party> := [Agent, Employee, Md]

  function Rank(p: Party): (r: nat)
    ensures r < 3 && ORDER[r] == p
  {
    match p case Agent => 0 case Employee => 1 case Md => 2
  }

  function FieldName(p: Party): string {
    match p case Agent => "GTIDS_Agent" case Employee => "GTIDS_Employee" case Md => "GTIDS_MD"
  }

  /** The edges of a party's ceremony. */
  function InitiateBy(p: Party): Action {
    match p case Agent => AgentSignInitiate case Employee => EmployeeSignInitiate case Md => MdSignInitiate
  }

  function SucceedBy(p: Party): Action {
    match p case Agent => AgentSignSucceed case Employee => EmployeeSignSucceed case Md => MdSignSucceed
  }

  function FailBy(p: Party): Action {
    match p case Agent => AgentSignFail case Employee => EmployeeSignFail case Md => MdSignFail
  }

  /** The edge taken once the signature succeeded; none when it completes the agreement. */
  function AdvanceBy(p: Party): seq<Action> {
    match p case Agent => [AdvanceToEmployee] case Employee => [AdvanceToMd] case Md => []
  }

  function SigningState(p: Party): Status {
    match p case Agent => AgentSigning case Employee => EmployeeSigning case Md => MdSigning
  }

  function PartySigning(s: Status): Option<Party> {
    match s
    case AgentSigning => Some(Agent)
    case EmployeeSigning => Some(Employee)
    case MdSigning => Some(Md)
    case _ => None
  }

  datatype DocState = Unsigned | SignedBy(last: Party)

  /** How many signatures a document in this state carries. */
  function Level(s: DocState): nat {
    match s case Unsigned => 0 case SignedBy(p) => Rank(p) + 1
  }

  datatype DocType = UploadedSource | ComposedUnsigned | GeneratedUnsigned | PreparedUnsigned | SignedCopy(last: Party)

  /** The parts of an object key that vary within one agreement. */
  datatype Key =
    | ObjectKey(month: nat, version: nat, docType: DocType)
    | ParkedKey(month: nat, version: nat, party: Party, prefix: string)

  type Store = map<Key, string>

  // ---- Rows ---------------------------------------------------------------------------------------

  datatype VersionRow = VersionRow(version: nat, state: DocState, hash: string, key: Key)

  datatype DocumentRow = DocumentRow(docType: DocType, key: Key, hash: string, size: nat)

  datatype TxStatus = PendingSigner | TxSigned | TxFailed | TxExpired | TxCancelled

  datatype Transaction = Transaction(
    party: Party, version: nat, digest: string, hash: string, parked: Option<Key>, status: TxStatus, attempt: nat)

  predicate Open(t: Transaction) {
    t.status == PendingSigner
  }

  datatype LogEntry = LogEntry(version: nat, source: Status, action: Action, target: Status)

  datatype ClosedVersion = ClosedVersion(version: nat, status: Status, voided: nat)

  datatype CallbackOutcome = Applied | Duplicate | RejectedSignature | Unmatched | Stale

  datatype Db = Db(
    status: Status, version: nat, rowVersion: nat, log: seq<LogEntry>, closed: seq<ClosedVersion>,
    rows: seq<VersionRow>, documents: seq<DocumentRow>, txs: seq<Transaction>, ledger: map<string, CallbackOutcome>)

  datatype World = World(db: Db, store: Store)

  /** Hashing, the CMS check and the configured gap width. */
  datatype Env = Env(sha: string -> string, commits: Verifier.Commitment, reserved: nat)

  const NEW_AGREEMENT := Db(Draft, 1, 1, [], [], [], [], [], map[])

  /** A database transaction commits, or is refused and rolled back; an integrity failure is told apart. */
  datatype Attempt<+T> = Done(value: T) | Aborted(why: string) | Alarm(why: string)

  /** What a step leaves in the store, whether or not its transaction commits. */
  datatype Effect = Effect(store: Store, db: Attempt<Db>)

  function Settle(w: World, e: Effect): World {
    match e.db
    case Done(db) => World(db, e.store)
    case _ => World(w.db, e.store)
  }

  // ---- Transitions --------------------------------------------------------------------------------

  function Move(db: Db, action: Action, roles: set<Role>, reason: string): Attempt<Db> {
    match AssertTransition(db.status, action, roles, reason)
    case Refused(_) => Aborted("transition refused")
    case Allowed(target) =>
      Done(db.(status := target, rowVersion := db.rowVersion + 1,
               log := db.log + [LogEntry(db.version, db.status, action, target)]))
  }

  /** Transitions that are consequences of each other commit together. */
  function MoveChain(db: Db, actions: seq<Action>, roles: set<Role>): Attempt<Db>
    decreases |actions|
  {
    if actions == [] then Done(db)
    else
      match Move(db, actions[0], roles, "")
      case Done(next) => MoveChain(next, actions[1..], roles)
      case failure => failure
  }

  // ---- Documents ----------------------------------------------------------------------------------

  predicate HasVersion(rows: seq<VersionRow>, version: nat, state: DocState) {
    exists i :: 0 <= i < |rows| && rows[i].version == version && rows[i].state == state
  }

  predicate HasFile(documents: seq<DocumentRow>, key: Key) {
    exists i :: 0 <= i < |documents| && documents[i].key == key
  }

  function InsertRows(env: Env, db: Db, key: Key, version: nat, docType: DocType, state: Option<DocState>,
                      bytes: string): Attempt<Db> {
    var hash := env.sha(bytes);
    if state.Some? && HasVersion(db.rows, version, state.value) then Aborted("version row exists")
    else if HasFile(db.documents, key) then Aborted("file key exists")
    else Done(db.(rows := if state.Some? then db.rows + [VersionRow(version, state.value, hash, key)] else db.rows,
                  documents := db.documents + [DocumentRow(docType, key, hash, |bytes|)]))
  }

  /** `store`: the object first, then its rows. */
  function StoreDocument(env: Env, store: Store, db: Db, month: nat, version: nat, docType: DocType,
                         state: Option<DocState>, bytes: string): Effect {
    var key := ObjectKey(month, version, docType);
    if key in store then Effect(store, Aborted("object exists"))
    else Effect(store[key := bytes], InsertRows(env, db, key, version, docType, state, bytes))
  }

  /** The version row an actor acts on: the last one inserted for the version. */
  function CurrentRow(rows: seq<VersionRow>, version: nat): (r: Option<nat>)
    ensures r.Some? ==> r.value < |rows| && rows[r.value].version == version
    ensures r.None? ==> forall i :: 0 <= i < |rows| ==> rows[i].version != version
    ensures r.Some? ==> forall i :: r.value < i < |rows| ==> rows[i].version != version
  {
    if rows == [] then None
    else if rows[|rows| - 1].version == version then Some(|rows| - 1)
    else CurrentRow(rows[..|rows| - 1], version)
  }

  /** What a version is generated from: a template, or an uploaded file. */
  datatype Source = Template(flat: string) | Upload(pdf: string, composed: string)

  function StoreSource(env: Env, store: Store, db: Db, month: nat, version: nat, source: Source): Effect {
    match source
    case Template(flat) => StoreDocument(env, store, db, month, version, GeneratedUnsigned, None, flat)
    case Upload(pdf, composed) =>
      var first := StoreDocument(env, store, db, month, version, UploadedSource, None, pdf);
      match first.db
      case Done(next) => StoreDocument(env, first.store, next, month, version, ComposedUnsigned, None, composed)
      case _ => first
  }

  function GenerateEffect(env: Env, w: World, seen: nat, roles: set<Role>, source: Source, prepared: string,
                          month: nat): Effect {
    var first := StoreSource(env, w.store, w.db, month, seen, source);
    match first.db
    case Done(db1) =>
      (var second := StoreDocument(env, first.store, db1, month, seen, PreparedUnsigned, Some(Unsigned), prepared);
       match second.db
       case Done(db2) => Effect(second.store, Move(db2, Generate, roles, ""))
       case _ => second)
    case _ => first
  }

  // ---- Phase 1 ------------------------------------------------------------------------------------

  /** The checks of `initiateSignature` and its state change. */
  function StartDb(db: Db, party: Party, presented: string, isParty: bool, roles: set<Role>): Attempt<Db> {
    match CurrentRow(db.rows, db.version)
    case None => Aborted("no document version")
    case Some(i) =>
      if db.rows[i].hash != presented then Aborted("stale document")
      else if !isParty then Aborted("not the party")
      else Move(db, InitiateBy(party), roles, "")
  }

  datatype Parked = Parked(key: Key, digest: string)

  /** `beginSignature`: reserve the slot and park the bytes, unless something is parked under the key already. */
  function Park(env: Env, store: Store, row: VersionRow, party: Party, opts: Appearance,
                month: nat): (Store, Attempt<Parked>) {
    if row.key !in store then (store, Aborted("source missing"))
    else
      match Prepare(store[row.key], opts)
      case Err(e) => (store, Aborted(e))
      case Ok(slot) =>
        var digest := env.sha(slot.signedContent);
        var key := ParkedKey(month, row.version, party, JsSlice(digest, 0, 16));
        (if key in store then store else store[key := slot.buffer], Done(Parked(key, digest)))
  }

  predicate HasOpen(txs: seq<Transaction>, party: Party, version: nat) {
    exists i :: 0 <= i < |txs| && Open(txs[i]) && txs[i].party == party && txs[i].version == version
  }

  function LastAttempt(txs: seq<Transaction>, party: Party, version: nat): nat {
    if txs == [] then 0
    else
      var n := LastAttempt(txs[..|txs| - 1], party, version);
      var t := txs[|txs| - 1];
      if t.party == party && t.version == version && t.attempt > n then t.attempt else n
  }

  /** `createTransaction`: at most one open attempt per party and version. */
  function OpenDb(db: Db, party: Party, version: nat, digest: string, hash: string): Attempt<Db> {
    if HasOpen(db.txs, party, version) then Aborted("ceremony already open")
    else
      var attempt := LastAttempt(db.txs, party, version) + 1;
      Done(db.(txs := db.txs + [Transaction(party, version, digest, hash, None, PendingSigner, attempt)]))
  }

  function Link(db: Db, tx: nat, key: Key): Db
    requires tx < |db.txs|
  {
    db.(txs := db.txs[tx := db.txs[tx].(parked := Some(key))])
  }

  // ---- Phase 2 ------------------------------------------------------------------------------------

  /** `documents.completeSignature` up to storing: reopen, compare digests, fill, verify everything. */
  function SignParked(env: Env, store: Store, t: Transaction, der: seq<byte>): Attempt<string> {
    if t.parked.None? || t.parked.value !in store then Aborted("nothing parked")
    else
      match Reopen(store[t.parked.value])
      case Err(e) => Aborted(e)
      case Ok(slot) =>
        if env.sha(slot.signedContent) != t.digest then Alarm("parked digest differs")
        else
          match Embed(slot, der)
          case Err(e) => Aborted(e)
          case Ok(signed) =>
            if Verifier.AssertIntegrity(signed, Rank(t.party) + 1, env.commits) == Verifier.Intact then Done(signed)
            else Alarm("signature integrity failure")
  }

  function WithStatus(db: Db, tx: nat, status: TxStatus): Db
    requires tx < |db.txs|
  {
    db.(txs := db.txs[tx := db.txs[tx].(status := status)])
  }

  /** The transaction of `completeSignature`; `seen` is the version the caller read. */
  function CompleteEffect(env: Env, w: World, tx: nat, seen: nat, der: seq<byte>, month: nat): Effect
    requires tx < |w.db.txs|
  {
    var t := w.db.txs[tx];
    match SignParked(env, w.store, t, der)
    case Aborted(e) => Effect(w.store, Aborted(e))
    case Alarm(e) => Effect(w.store, Alarm(e))
    case Done(signed) =>
      var stored := StoreDocument(env, w.store, w.db, month, seen, SignedCopy(t.party), Some(SignedBy(t.party)),
                                  signed);
      match stored.db
      case Done(db) =>
        var actions := [SucceedBy(t.party)] + AdvanceBy(t.party);
        Effect(stored.store, MoveChain(WithStatus(db, tx, TxSigned), actions, {System}))
      case _ => stored
  }

  /** The transaction of `failSignature`; `seen` is the status the caller read. */
  function FailDb(db: Db, tx: nat, seen: Status): Attempt<Db>
    requires tx < |db.txs|
  {
    var next := WithStatus(db, tx, TxFailed);
    match PartySigning(seen)
    case None => Done(next)
    case Some(p) => Move(next, FailBy(p), {System}, "")
  }

  // ---- The other decisions ------------------------------------------------------------------------

  function RejectAction(status: Status): Action {
    if status == PendingEmployeeSignature || status == EmployeeSigning then EmployeeReject else Reject
  }

  function RejectDb(db: Db, roles: set<Role>, reason: string): Attempt<Db> {
    if CurrentRow(db.rows, db.version).None? then Aborted("no document version")
    else Move(db, RejectAction(db.status), roles, reason)
  }

  /** The signed documents of a version. */
  function CountSigned(rows: seq<VersionRow>, version: nat): nat {
    if rows == [] then 0
    else CountSigned(rows[..|rows| - 1], version) +
         if rows[|rows| - 1].version == version && rows[|rows| - 1].state != Unsigned then 1 else 0
  }

  function CancelOpen(txs: seq<Transaction>, version: nat): (r: seq<Transaction>)
    ensures |r| == |txs|
    ensures forall i :: 0 <= i < |txs| ==>
      r[i] == if Open(txs[i]) && txs[i].version == version then txs[i].(status := TxCancelled) else txs[i]
  {
    seq(|txs|, i requires 0 <= i < |txs| =>
      if Open(txs[i]) && txs[i].version == version then txs[i].(status := TxCancelled) else txs[i])
  }

  predicate HasClosed(closed: seq<ClosedVersion>, version: nat) {
    exists i :: 0 <= i < |closed| && closed[i].version == version
  }

  /** The version's history row and its cancelled ceremonies. */
  function Closing(db: Db): Db {
    db.(closed := db.closed + [ClosedVersion(db.version, db.status, CountSigned(db.rows, db.version))],
        txs := CancelOpen(db.txs, db.version))
  }

  /** `correct`: the version is closed, its signatures counted as voided, its open ceremonies cancelled, the next
      opened. */
  function CorrectDb(db: Db, roles: set<Role>): Attempt<Db> {
    if HasClosed(db.closed, db.version) then Aborted("version already closed")
    else
      match Move(Closing(db), Correct, roles, "")
      case Done(moved) => Done(moved.(version := moved.version + 1))
      case failure => failure
  }

  // ---- Callbacks ----------------------------------------------------------------------------------

  /** A provider event: whether its signature verified, its identifier, the transaction it names and the status it
      reports. */
  datatype Event = Event(authentic: bool, id: string, tx: nat, status: TxStatus)

  datatype Ingested = Ingested(db: Db, outcome: CallbackOutcome)

  /** `ingestCallback`: authenticate, claim the identifier, match, and drop what is already resolved. */
  function Ingest(db: Db, e: Event): Ingested {
    if !e.authentic then Ingested(db, RejectedSignature)
    else if e.id in db.ledger then Ingested(db, Duplicate)
    else
      var outcome := if e.tx >= |db.txs| then Unmatched else if !Open(db.txs[e.tx]) then Stale else Applied;
      Ingested(db.(ledger := db.ledger[e.id := outcome]), outcome)
  }
}
