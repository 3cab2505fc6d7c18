/** Which requests go through and what they change, in terms of statuses, roles and rows alone: for each of them the
    exact condition, and that a refusal leaves everything as it was. */
module Guards {
  import opened Text
  import opened PdfObjects
  import opened IncrementalSigner
  import opened StateMachine
  import opened Protocol
  import opened ProtocolSafety
  import opened AtomicProtocol

  // ---- Who may act --------------------------------------------------------------------------------

  /** The state in which the agreement waits for the party. */
  function Awaiting(p: Party): Status {
    match p case Agent => ReadyForAgentSignature case Employee => PendingEmployeeSignature case Md => PendingMdSignature
  }

  predicate ActsFor(roles: set<Role>, p: Party) {
    match p
    case Agent => AgentRole in roles
    case Employee => EmployeeRole in roles
    case Md => MdRole in roles || MdDelegate in roles
  }

  predicate Administers(roles: set<Role>) {
    AgreementAdmin in roles || SuperAdmin in roles
  }

  predicate GivesReason(reason: string) {
    |Trim(reason)| >= 10
  }

  /** The row inserted last for the current version. */
  predicate IsCurrent(db: Db, i: nat) {
    && i < |db.rows| && db.rows[i].version == db.version
    && forall j :: i < j < |db.rows| ==> db.rows[j].version != db.version
  }

  /** And it has this hash. */
  predicate Shows(db: Db, i: nat, presented: string) {
    IsCurrent(db, i) && db.rows[i].hash == presented
  }

  /** The bytes stored for the current document hash to this. */
  ghost predicate StoredAs(env: Env, w: World, i: nat, hash: string) {
    IsCurrent(w.db, i) && w.db.rows[i].key in w.store && env.sha(w.store[w.db.rows[i].key]) == hash
  }

  /** Status, counter and log advance by one transition; everything else stays. */
  predicate Moved(db: Db, next: Db, action: Action, target: Status) {
    next == db.(status := target, rowVersion := db.rowVersion + 1,
                log := db.log + [LogEntry(db.version, db.status, action, target)])
  }

  predicate LeavesFrom(status: Status, action: Action) {
    match action
    case Generate => status == Draft
    case AgentSignInitiate => status == ReadyForAgentSignature
    case EmployeeSignInitiate => status == PendingEmployeeSignature
    case MdSignInitiate => status == PendingMdSignature
    case AgentSignSucceed => status == AgentSigning
    case EmployeeSignSucceed => status == EmployeeSigning
    case MdSignSucceed => status == MdSigning
    case AgentSignFail => status == AgentSigning
    case EmployeeSignFail => status == EmployeeSigning
    case MdSignFail => status == MdSigning
    case AdvanceToEmployee => status == AgentSigned
    case AdvanceToMd => status == EmployeeSigned
    case Reject => status == PendingMdSignature || status == MdSigning
    case EmployeeReject => status == PendingEmployeeSignature || status == EmployeeSigning
    case Cancel => status != Completed && status != Cancelled && status != Rejected && status != Expired
    case Expire => status == SignatureFailed || (exists p :: status == Awaiting(p) || status == SigningState(p))
    case Correct => status == Rejected || status == Expired
    case _ => status == SignatureFailed
  }

  predicate Empowers(roles: set<Role>, action: Action) {
    match action
    case Generate => ActsFor(roles, Agent) || Administers(roles)
    case AgentSignInitiate => ActsFor(roles, Agent)
    case EmployeeSignInitiate => ActsFor(roles, Employee)
    case MdSignInitiate => ActsFor(roles, Md)
    case RetryAgentSignature => ActsFor(roles, Agent) || Administers(roles)
    case RetryEmployeeSignature => ActsFor(roles, Employee) || Administers(roles)
    case RetryMdSignature => ActsFor(roles, Md) || Administers(roles)
    case Reject => ActsFor(roles, Md)
    case EmployeeReject => ActsFor(roles, Employee)
    case Cancel => Administers(roles)
    case Correct => ActsFor(roles, Agent) || Administers(roles)
    case _ => System in roles
  }

  predicate Explained(action: Action, reason: string) {
    action == Reject || action == EmployeeReject || action == Cancel ==> GivesReason(reason)
  }

  /** Whether the transition may be made: from this status, by these roles, with this reason. */
  predicate Permitted(status: Status, action: Action, roles: set<Role>, reason: string) {
    LeavesFrom(status, action) && Empowers(roles, action) && Explained(action, reason)
  }

  lemma HoldsOne(roles: set<Role>, a: Action, r: Role)
    requires r in RuleOf(a).roles
    ensures r in roles ==> Holds(roles, a)
  {
    assert r in roles ==> r in RuleOf(a).roles * roles;
  }

  lemma HoldsIff(roles: set<Role>, a: Action)
    ensures Holds(roles, a) <==> exists r :: r in roles && r in RuleOf(a).roles
  {
    hide RuleOf;
    if Holds(roles, a) {
      var r :| r in RuleOf(a).roles * roles;
    }
    if r :| r in roles && r in RuleOf(a).roles {
      HoldsOne(roles, a, r);
    }
  }

  lemma RolesIff(roles: set<Role>, action: Action)
    ensures Holds(roles, action) <==> Empowers(roles, action)
  {
    HoldsIff(roles, action);
    hide Holds;
  }

  lemma SourcesIff(status: Status, action: Action)
    ensures status in RuleOf(action).sources <==> LeavesFrom(status, action)
  {
    hide RuleOf, LeavesFrom;
    match action
    case Expire => ExpireSources(status);
    case Cancel => CancelSources(status);
    case Reject => TwoSources(status, action);
    case EmployeeReject => TwoSources(status, action);
    case Correct => TwoSources(status, action);
    case _ => OneSource(status, action);
  }

  lemma ExpireSources(status: Status)
    ensures status in RuleOf(Expire).sources <==> LeavesFrom(status, Expire)
  {
    if status in RuleOf(Expire).sources && status != SignatureFailed {
      var p := if status == ReadyForAgentSignature || status == AgentSigning then Agent
               else if status == PendingEmployeeSignature || status == EmployeeSigning then Employee else Md;
      assert status == Awaiting(p) || status == SigningState(p);
    }
  }

  lemma CancelSources(status: Status)
    ensures status in RuleOf(Cancel).sources <==> LeavesFrom(status, Cancel)
  {
  }

  lemma TwoSources(status: Status, action: Action)
    requires action == Reject || action == EmployeeReject || action == Correct
    ensures status in RuleOf(action).sources <==> LeavesFrom(status, action)
  {
  }

  lemma OneSource(status: Status, action: Action)
    requires action != Expire && action != Cancel && action != Reject && action != EmployeeReject && action != Correct
    ensures status in RuleOf(action).sources <==> LeavesFrom(status, action)
  {
  }

  lemma ReasonIff(action: Action)
    ensures RuleOf(action).requiresReason <==> action == Reject || action == EmployeeReject || action == Cancel
  {
  }

  /** The gate lets a transition through exactly when it is permitted. */
  lemma GateIff(status: Status, action: Action, roles: set<Role>, reason: string)
    ensures AssertTransition(status, action, roles, reason).Allowed? <==> Permitted(status, action, roles, reason)
  {
    hide Holds, RuleOf, LeavesFrom, Empowers, Trim;
    RolesIff(roles, action);
    SourcesIff(status, action);
    ReasonIff(action);
  }

  /** A refusal says what is missing: the edge, which no role and no reason make up for; the role, which no reason makes
      up for; or else the reason. */
  lemma RefusalMeans(status: Status, action: Action, roles: set<Role>, reason: string)
    ensures var v := AssertTransition(status, action, roles, reason);
      && (v == Refused(InvalidTransition) <==> forall r, t :: !Permitted(status, action, r, t))
      && (v == Refused(Forbidden) <==>
            (forall t :: !Permitted(status, action, roles, t)) && exists r, t :: Permitted(status, action, r, t))
      && (v == Refused(ReasonTooShort) <==>
            !Permitted(status, action, roles, reason) && exists t :: Permitted(status, action, roles, t))
  {
    hide AssertTransition, LeavesFrom, Empowers, Explained, Permitted;
    RefusalCases(status, action, roles, reason);
    EdgeMissing(status, action);
    RoleMissing(status, action, roles);
    assert Permitted(status, action, roles, reason) <==>
      LeavesFrom(status, action) && Empowers(roles, action) && Explained(action, reason)
    by { PermittedIs(status, action, roles, reason); }
  }

  lemma PermittedIs(status: Status, action: Action, roles: set<Role>, reason: string)
    ensures Permitted(status, action, roles, reason) <==>
      LeavesFrom(status, action) && Empowers(roles, action) && Explained(action, reason)
  {
    hide LeavesFrom, Empowers, Explained;
  }

  lemma EdgeMissing(status: Status, action: Action)
    ensures (forall r, t :: !Permitted(status, action, r, t)) <==> !LeavesFrom(status, action)
  {
    hide LeavesFrom, Empowers, Trim, RuleOf;
    var all := RuleOf(action).roles;
    assert |Trim("0123456789")| == 10 by { LongReason(); }
    SomeRole(action);
    RolesIff(all, action);
    assert LeavesFrom(status, action) ==> Permitted(status, action, all, "0123456789");
  }

  lemma RoleMissing(status: Status, action: Action, roles: set<Role>)
    ensures (forall t :: !Permitted(status, action, roles, t)) <==>
      !(LeavesFrom(status, action) && Empowers(roles, action))
  {
    hide LeavesFrom, Empowers, Trim;
    assert |Trim("0123456789")| == 10 by { LongReason(); }
    assert LeavesFrom(status, action) && Empowers(roles, action) ==> Permitted(status, action, roles, "0123456789");
  }

  lemma RefusalCases(status: Status, action: Action, roles: set<Role>, reason: string)
    ensures var v := AssertTransition(status, action, roles, reason);
      && (v == Refused(InvalidTransition) <==> !LeavesFrom(status, action))
      && (v == Refused(Forbidden) <==> LeavesFrom(status, action) && !Empowers(roles, action))
      && (v == Refused(ReasonTooShort) <==>
            LeavesFrom(status, action) && Empowers(roles, action) && !Explained(action, reason))
  {
    hide Holds, RuleOf, LeavesFrom, Empowers, Trim;
    RolesIff(roles, action);
    SourcesIff(status, action);
    ReasonIff(action);
  }

  lemma SomeRole(action: Action)
    ensures Holds(RuleOf(action).roles, action)
  {
    hide RuleOf;
    var all := {SuperAdmin, AgentRole, EmployeeRole, MdRole, System};
    assert Empowers(all, action);
    RolesIff(all, action);
    HoldsIff(all, action);
    var r :| r in all && r in RuleOf(action).roles;
    HoldsOne(RuleOf(action).roles, action, r);
  }

  function Leads(action: Action): Status {
    match action
    case Generate => ReadyForAgentSignature
    case RetryAgentSignature => ReadyForAgentSignature
    case RetryEmployeeSignature => PendingEmployeeSignature
    case RetryMdSignature => PendingMdSignature
    case AgentSignInitiate => AgentSigning
    case EmployeeSignInitiate => EmployeeSigning
    case MdSignInitiate => MdSigning
    case AgentSignSucceed => AgentSigned
    case EmployeeSignSucceed => EmployeeSigned
    case MdSignSucceed => Completed
    case AdvanceToEmployee => PendingEmployeeSignature
    case AdvanceToMd => PendingMdSignature
    case Reject => Rejected
    case EmployeeReject => Rejected
    case Cancel => Cancelled
    case Expire => Expired
    case Correct => Draft
    case _ => SignatureFailed
  }

  /** A transition is made exactly when it is permitted, and then leads where its name says. */
  lemma MoveExactly(db: Db, action: Action, roles: set<Role>, reason: string)
    ensures var m := Move(db, action, roles, reason);
      && (m.Done? <==> Permitted(db.status, action, roles, reason))
      && (m.Done? ==> Moved(db, m.value, action, Leads(action)))
  {
    hide Permitted, Holds, Trim;
    GateIff(db.status, action, roles, reason);
    assert RuleOf(action).target == Leads(action);
  }

  // ---- Starting a ceremony ------------------------------------------------------------------------

  lemma CurrentIs(db: Db, i: nat)
    ensures IsCurrent(db, i) <==> CurrentRow(db.rows, db.version) == Some(i)
  {
    hide CurrentRow;
  }

  /** The signer may start: the hash presented is that of the current document, the actor is the party, and the
      agreement waits for it. */
  ghost predicate MayStart(db: Db, party: Party, presented: string, isParty: bool, roles: set<Role>) {
    && (exists i: nat :: Shows(db, i, presented))
    && isParty && db.status == Awaiting(party) && ActsFor(roles, party)
  }

  lemma StartExactly(db: Db, party: Party, presented: string, isParty: bool, roles: set<Role>)
    ensures var s := StartDb(db, party, presented, isParty, roles);
      && (s.Done? <==> MayStart(db, party, presented, isParty, roles))
      && (s.Done? ==> Moved(db, s.value, InitiateBy(party), SigningState(party)))
  {
    hide CurrentRow, IsCurrent, Move, ActsFor, Moved;
    MoveExactly(db, InitiateBy(party), roles, "");
    forall j: nat
      ensures IsCurrent(db, j) <==> CurrentRow(db.rows, db.version) == Some(j)
    {
      CurrentIs(db, j);
    }
    if CurrentRow(db.rows, db.version).Some? {
      var i := CurrentRow(db.rows, db.version).value;
      assert Shows(db, i, presented) <==> db.rows[i].hash == presented;
    }
  }

  /** The check of a request to sign, as a step: exactly a request that may start changes anything. */
  lemma StartStep(env: Env, w: World, party: Party, presented: string, isParty: bool, roles: set<Role>)
    ensures var next := ProtocolSafety.Apply(env, w, StartOp(party, presented, isParty, roles));
      && (next != w <==> MayStart(w.db, party, presented, isParty, roles))
      && (next != w ==> next.store == w.store && Moved(w.db, next.db, InitiateBy(party), SigningState(party)))
  {
    hide StartDb, MayStart, GenerateEffect, CompleteEffect, Park, Prepare, CurrentRow, OpenDb, FailDb, RejectDb,
      CorrectDb;
    StartExactly(w.db, party, presented, isParty, roles);
  }

  /** What was opened: a pending transaction of the party on the current version, for the document presented, with the
      digest of what the party is to sign of it. */
  ghost predicate OpenedFor(env: Env, w: World, t: Transaction, party: Party, presented: string, opts: Appearance) {
    && t.party == party && t.version == w.db.version && t.hash == presented && t.status == PendingSigner
    && exists i: nat :: Shows(w.db, i, presented) && DigestOf(env, w.store, w.db.rows[i], opts) == Some(t.digest)
  }

  /** The digest of what the signer of the row's document signs. */
  function DigestOf(env: Env, store: Store, row: VersionRow, opts: Appearance): Option<string> {
    if row.key in store && Prepare(store[row.key], opts).Ok?
    then Some(env.sha(Prepare(store[row.key], opts).value.signedContent)) else None
  }

  /** Parking leaves at most one object more, the prepared document under a key of the party and the version that starts
      the digest; what is parked under the key already stays. */
  lemma ParkMeans(env: Env, store: Store, row: VersionRow, party: Party, opts: Appearance, month: nat)
    ensures var p := Park(env, store, row, party, opts, month);
      && Grows(store, p.0) && (p.1.Done? <==> DigestOf(env, store, row, opts).Some?)
      && (!p.1.Done? ==> p.0 == store)
      && (p.1.Done? ==>
            var (key, digest) := (p.1.value.key, p.1.value.digest);
            && DigestOf(env, store, row, opts) == Some(digest)
            && key.ParkedKey? && key.version == row.version && key.party == party && key.prefix <= digest
            && (key in store ==> p.0 == store)
            && (key !in store ==> p.0 == store[key := Prepare(store[row.key], opts).value.buffer]))
  {
    hide Prepare;
    if row.key in store && Prepare(store[row.key], opts).Ok? {
      SliceStarts(env.sha(Prepare(store[row.key], opts).value.signedContent), 16);
    }
  }

  lemma SliceStarts(s: string, n: nat)
    ensures JsSlice(s, 0, n) <= s
  {
  }

  /** The current document can be prepared for the party, and the party has no ceremony open on the version. */
  ghost predicate MayOpen(env: Env, w: World, party: Party, opts: Appearance) {
    && (exists i: nat :: IsCurrent(w.db, i) && Preparable(w, i, opts))
    && forall k :: 0 <= k < |w.db.txs| ==>
      !(w.db.txs[k].status == PendingSigner && w.db.txs[k].party == party && w.db.txs[k].version == w.db.version)
  }

  predicate Preparable(w: World, i: nat, opts: Appearance) {
    i < |w.db.rows| && w.db.rows[i].key in w.store && Prepare(w.store[w.db.rows[i].key], opts).Ok?
  }

  /** What the party is to sign is parked, and the transaction says where. */
  predicate ParkedFor(store: Store, t: Transaction) {
    && t.parked.Some? && t.parked.value.ParkedKey? && t.parked.value in store
    && t.parked.value.party == t.party && t.parked.value.version == t.version
  }

  /** A request to sign that may not start leaves the whole world as it was. One that may moves the agreement to the
      party's signing state, and opens at most one transaction, for the document presented; no row and no older
      transaction changes, and the store only grows. One that runs to its end with nothing in its way does open it, and
      links it to what is parked. */
  lemma InitiateExactly(env: Env, w: World, party: Party, presented: string, isParty: bool, roles: set<Role>,
                        opts: Appearance, month: nat, upto: nat)
    ensures var next := Take(env, w, InitiateStep(party, presented, isParty, roles, opts, month, upto));
      && (!MayStart(w.db, party, presented, isParty, roles) ==> next == w)
      && (MayStart(w.db, party, presented, isParty, roles) ==>
            && Moved(w.db, next.db.(txs := w.db.txs), InitiateBy(party), SigningState(party))
            && w.db.txs <= next.db.txs && |next.db.txs| <= |w.db.txs| + 1
            && (|next.db.txs| == |w.db.txs| + 1 ==>
                  OpenedFor(env, w, next.db.txs[|w.db.txs|], party, presented, opts))
            && Grows(w.store, next.store))
      && (MayStart(w.db, party, presented, isParty, roles) && upto >= 4 && MayOpen(env, w, party, opts) ==>
            && |next.db.txs| == |w.db.txs| + 1
            && ParkedFor(next.store, next.db.txs[|w.db.txs|]))
  {
    hide StartDb, MayStart, CurrentRow, Shows, OpenedFor, Park, DigestOf, Grows, Initiate, MayOpen, Prepare, HasOpen;
    StartExactly(w.db, party, presented, isParty, roles);
    if MayStart(w.db, party, presented, isParty, roles) {
      CurrentPresented(w.db, party, presented, isParty, roles);
      var i := CurrentRow(w.db.rows, w.db.version).value;
      ParkMeans(env, w.store, w.db.rows[i], party, opts, month);
      GrowsSelf(w.store);
      InitiateForm(env, w, party, presented, isParty, roles, opts, month, upto, i);
      var next := Initiate(env, w, party, presented, isParty, roles, opts, month, upto);
      if |next.db.txs| == |w.db.txs| + 1 {
        OpenedIs(env, w, next.db.txs[|w.db.txs|], party, presented, opts, i);
      }
      if MayOpen(env, w, party, opts) {
        NothingInTheWay(env, w, party, opts, i);
      }
    } else {
      InitiateRefused(env, w, party, presented, isParty, roles, opts, month, upto);
    }
  }

  lemma InitiateRefused(env: Env, w: World, party: Party, presented: string, isParty: bool, roles: set<Role>,
                        opts: Appearance, month: nat, upto: nat)
    requires !StartDb(w.db, party, presented, isParty, roles).Done?
    ensures Initiate(env, w, party, presented, isParty, roles, opts, month, upto) == w
  {
    hide StartDb, CurrentRow, Park;
  }

  /** What is left behind at each of the points where a request to sign may stop. */
  lemma InitiateForm(env: Env, w: World, party: Party, presented: string, isParty: bool, roles: set<Role>,
                     opts: Appearance, month: nat, upto: nat, i: nat)
    requires StartDb(w.db, party, presented, isParty, roles).Done?
    requires StartDb(w.db, party, presented, isParty, roles).value.txs == w.db.txs
    requires CurrentRow(w.db.rows, w.db.version) == Some(i)
    ensures var next := Initiate(env, w, party, presented, isParty, roles, opts, month, upto);
      var moved := StartDb(w.db, party, presented, isParty, roles).value;
      var parked := Park(env, w.store, w.db.rows[i], party, opts, month);
      && next.db == moved.(txs := next.db.txs) && (next.store == w.store || next.store == parked.0)
      && w.db.txs <= next.db.txs && |next.db.txs| <= |w.db.txs| + 1
      && (|next.db.txs| == |w.db.txs| + 1 ==>
            var t := next.db.txs[|w.db.txs|];
            && parked.1.Done? && t.party == party && t.version == w.db.version && t.status == PendingSigner
            && t.digest == parked.1.value.digest && t.hash == w.db.rows[i].hash)
      && (parked.1.Done? && upto >= 4 && !HasOpen(w.db.txs, party, w.db.version) ==>
            && |next.db.txs| == |w.db.txs| + 1 && next.store == parked.0
            && next.db.txs[|w.db.txs|].parked == Some(parked.1.value.key))
  {
    hide StartDb, CurrentRow, Park, HasOpen, LastAttempt;
  }

  lemma NothingInTheWay(env: Env, w: World, party: Party, opts: Appearance, i: nat)
    requires MayOpen(env, w, party, opts) && CurrentRow(w.db.rows, w.db.version) == Some(i)
    ensures DigestOf(env, w.store, w.db.rows[i], opts).Some? && !HasOpen(w.db.txs, party, w.db.version)
  {
    hide CurrentRow, IsCurrent, Prepare;
    var j: nat :| IsCurrent(w.db, j) && Preparable(w, j, opts);
    CurrentIs(w.db, j);
  }

  lemma GrowsSelf(store: Store)
    ensures Grows(store, store)
  {
  }

  lemma OpenedIs(env: Env, w: World, t: Transaction, party: Party, presented: string, opts: Appearance, i: nat)
    requires t.party == party && t.version == w.db.version && t.hash == presented && t.status == PendingSigner
    requires Shows(w.db, i, presented) && DigestOf(env, w.store, w.db.rows[i], opts) == Some(t.digest)
    ensures OpenedFor(env, w, t, party, presented, opts)
  {
    hide DigestOf;
  }

  lemma CurrentPresented(db: Db, party: Party, presented: string, isParty: bool, roles: set<Role>)
    requires MayStart(db, party, presented, isParty, roles)
    ensures CurrentRow(db.rows, db.version).Some?
    ensures Shows(db, CurrentRow(db.rows, db.version).value, presented)
    ensures db.rows[CurrentRow(db.rows, db.version).value].hash == presented
  {
    hide CurrentRow, IsCurrent;
    var i: nat :| Shows(db, i, presented);
    CurrentIs(db, i);
  }

  /** Over every run: whoever starts a ceremony was shown the very bytes stored as the current document. */
  lemma ShownIsStored(env: Env, start: World, ops: seq<Op>, w: World, party: Party, presented: string, isParty: bool,
                      roles: set<Role>, opts: Appearance, month: nat, upto: nat)
    requires Initial(start) && ProtocolSafety.Run(env, start, false, ops, w)
    requires ProtocolSafety.Apply(env, w, StartOp(party, presented, isParty, roles)) != w
      || Take(env, w, InitiateStep(party, presented, isParty, roles, opts, month, upto)) != w
    ensures isParty && exists i: nat :: StoredAs(env, w, i, presented)
  {
    hide ProtocolSafety.Run, ProtocolSafety.Apply, Take, Initial, Shows, StoredAs, DocumentsOk, MayOpen, Moved;
    StartStep(env, w, party, presented, isParty, roles);
    InitiateExactly(env, w, party, presented, isParty, roles, opts, month, upto);
    RecordsMatchStore(env, start, ops, w);
    var i: nat :| Shows(w.db, i, presented);
    ShownStored(env, w, i, presented);
  }

  lemma ShownStored(env: Env, w: World, i: nat, presented: string)
    requires Shows(w.db, i, presented)
    requires forall j :: 0 <= j < |w.db.rows| ==>
      w.db.rows[j].key in w.store && env.sha(w.store[w.db.rows[j].key]) == w.db.rows[j].hash
    ensures StoredAs(env, w, i, presented)
  {
  }

  // ---- Rejecting and correcting -------------------------------------------------------------------

  /** A rejection goes through exactly for the party whose turn it is, with a reason, once there is a document. */
  lemma RejectExactly(db: Db, roles: set<Role>, reason: string)
    ensures var r := RejectDb(db, roles, reason);
      && (r.Done? <==>
            && (exists i: nat :: IsCurrent(db, i)) && GivesReason(reason)
            && exists p ::
              p != Agent && (db.status == Awaiting(p) || db.status == SigningState(p)) && ActsFor(roles, p))
      && (r.Done? ==> exists a :: Moved(db, r.value, a, Rejected))
  {
    hide CurrentRow, IsCurrent, Move, ActsFor, Moved, GivesReason;
    MoveExactly(db, RejectAction(db.status), roles, reason);
    AnyCurrent(db);
  }

  lemma AnyCurrent(db: Db)
    ensures CurrentRow(db.rows, db.version).Some? <==> exists i: nat :: IsCurrent(db, i)
  {
    hide CurrentRow, IsCurrent;
    if CurrentRow(db.rows, db.version).Some? {
      CurrentIs(db, CurrentRow(db.rows, db.version).value);
    }
    if i: nat :| IsCurrent(db, i) {
      CurrentIs(db, i);
    }
  }

  /** The signed documents of a version. */
  function SignedRows(rows: seq<VersionRow>, version: nat): set<nat> {
    set i: nat | i < |rows| && rows[i].version == version && rows[i].state != Unsigned
  }

  lemma {:induction false} CountIsRows(rows: seq<VersionRow>, version: nat)
    ensures CountSigned(rows, version) == |SignedRows(rows, version)|
  {
    if rows != [] {
      var m := |rows| - 1;
      CountIsRows(rows[..m], version);
      var front := SignedRows(rows[..m], version);
      if rows[m].version == version && rows[m].state != Unsigned {
        assert SignedRows(rows, version) == front + {m};
      } else {
        assert SignedRows(rows, version) == front;
      }
    } else {
      assert SignedRows(rows, version) == {};
    }
  }

  /** Open ceremonies of the version are cancelled; every other transaction stays. */
  ghost predicate Cancels(txs: seq<Transaction>, later: seq<Transaction>, version: nat) {
    && |later| == |txs|
    && forall i :: 0 <= i < |txs| ==>
      if txs[i].status == PendingSigner && txs[i].version == version then later[i] == txs[i].(status := TxCancelled)
      else later[i] == txs[i]
  }

  /** A correction goes through exactly from a rejected or expired agreement whose version is not closed yet. It closes
      the version under its status with the number of signatures it voids, cancels what is open on it and opens the
      next in DRAFT; documents stay. */
  lemma CorrectExactly(db: Db, roles: set<Role>)
    ensures var c := CorrectDb(db, roles);
      && (c.Done? <==>
            && (db.status == Rejected || db.status == Expired) && (ActsFor(roles, Agent) || Administers(roles))
            && forall k :: 0 <= k < |db.closed| ==> db.closed[k].version != db.version)
      && (c.Done? ==>
            var next := c.value;
            && next.status == Draft && next.version == db.version + 1
            && next.closed == db.closed + [ClosedVersion(db.version, db.status, |SignedRows(db.rows, db.version)|)]
            && Cancels(db.txs, next.txs, db.version)
            && next.rows == db.rows && next.documents == db.documents && next.ledger == db.ledger
            && next.rowVersion == db.rowVersion + 1
            && next.log == db.log + [LogEntry(db.version, db.status, Correct, Draft)])
  {
    hide Closing, HasClosed, Move, ActsFor, Cancels, Permitted, Moved;
    ClosingIs(db);
    MoveExactly(Closing(db), Correct, roles, "");
    CorrectPermitted(db.status, roles);
    ClosedIff(db);
    if CorrectDb(db, roles).Done? {
      MovedParts(Closing(db), Move(Closing(db), Correct, roles, "").value);
    }
  }

  lemma ClosingIs(db: Db)
    ensures var c := Closing(db);
      && c == db.(closed := c.closed, txs := c.txs) && Cancels(db.txs, c.txs, db.version)
      && c.closed == db.closed + [ClosedVersion(db.version, db.status, |SignedRows(db.rows, db.version)|)]
  {
    CountIsRows(db.rows, db.version);
    hide CountSigned;
  }

  lemma CorrectPermitted(status: Status, roles: set<Role>)
    ensures Permitted(status, Correct, roles, "") <==>
      (status == Rejected || status == Expired) && (ActsFor(roles, Agent) || Administers(roles))
  {
    hide ActsFor;
  }

  lemma ClosedIff(db: Db)
    ensures HasClosed(db.closed, db.version) <==>
      !(forall k :: 0 <= k < |db.closed| ==> db.closed[k].version != db.version)
  {
  }

  lemma MovedParts(db: Db, next: Db)
    requires Moved(db, next, Correct, Draft)
    ensures next == db.(status := Draft, rowVersion := db.rowVersion + 1, log := next.log)
    ensures next.log == db.log + [LogEntry(db.version, db.status, Correct, Draft)]
  {
  }
}
