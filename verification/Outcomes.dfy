/** What becomes of a ceremony: what completing it stores, what the provider's answers lead to, and what an ingested
    callback is taken for. */
module Outcomes {
  import opened Text
  import opened PdfObjects
  import opened IncrementalSigner
  import opened StateMachine
  import opened Verifier
  import opened SigningTheorems
  import opened Executions
  import opened Protocol
  import opened ProtocolSafety
  import opened ProtocolLedger
  import opened AtomicProtocol
  import opened CallbackConfluence
  import opened Guards

  // ---- What completing stores ---------------------------------------------------------------------

  /** The state a party's success leads to. */
  function Succeeding(p: Party): Status {
    match p case Agent => PendingEmployeeSignature case Employee => PendingMdSignature case Md => Completed
  }

  /** What a completion stores and records: one new document under its own key and one row that names it; the
      transaction signed; the agreement with the next party, or completed. */
  ghost predicate Stored(env: Env, w: World, next: World, tx: nat, seen: nat, month: nat, bytes: string) {
    && tx < |w.db.txs|
    && var t := w.db.txs[tx]; var key := ObjectKey(month, seen, SignedCopy(t.party));
    && key !in w.store && next.store == w.store[key := bytes]
    && next.db.rows == w.db.rows + [VersionRow(seen, SignedBy(t.party), env.sha(bytes), key)]
    && next.db.documents == w.db.documents + [DocumentRow(SignedCopy(t.party), key, env.sha(bytes), |bytes|)]
    && next.db.txs == w.db.txs[tx := t.(status := TxSigned)]
    && w.db.status == SigningState(t.party) && next.db.status == Succeeding(t.party)
    && next.db.version == w.db.version && next.db.closed == w.db.closed && next.db.ledger == w.db.ledger
  }

  /** The stored document has one signature more than parties before this one, all valid; the newest covers the whole
      file but its gap, bytes that hash to the digest recorded when the ceremony was opened, and holds the signature the
      provider gave. */
  ghost predicate Executes(env: Env, t: Transaction, der: seq<byte>, bytes: string) {
    && |Slots(bytes, 0)| == Rank(t.party) + 1 && AllValid(Verify(bytes, env.commits))
    && var z := Slots(bytes, 0)[Rank(t.party)];
    && z.range.b0 == 0 && z.range.b2 + z.range.b3 == |bytes| && env.sha(Covered(bytes, z.range)) == t.digest
    && (DefiniteLength(der) ==> ExtractDer(z.hex) == Ok(der))
  }

  lemma SignParkedMeans(env: Env, w: World, tx: nat, der: seq<byte>)
    requires DocInv(env, w, false) && tx < |w.db.txs| && SignParked(env, w.store, w.db.txs[tx], der).Done?
    ensures Executes(env, w.db.txs[tx], der, SignParked(env, w.store, w.db.txs[tx], der).value)
  {
    hide Prepare, Reopen, Embed, AssertIntegrity, GoodOptions, Executed, IsBase, Unique, DocumentsOk, NewestHolds,
      Executes;
    var t := w.db.txs[tx];
    var rows := w.db.rows;
    var key := t.parked.value;
    var i: nat, opts :| ParkedFrom(rows, w.store, i, opts, key.party, w.store[key]) && rows[i].version == key.version;
    assert RowOk(env, rows, w.store, false, rows[i]);
    var src := w.store[rows[i].key];
    var base :| Executed(env.commits, base, src, Level(rows[i].state));
    var slot := Reopen(w.store[key]).value;
    var signed := Embed(slot, der).value;
    SignatureExtends(env.commits, base, src, Level(rows[i].state), t.party, opts, slot, der, signed);
    NewestSignature(env.commits, base, src, Rank(t.party), t.party, opts, slot, der, signed);
    IntactMeans(signed, Rank(t.party) + 1, env.commits);
    ExecutesIs(env, t, der, signed, src, slot);
  }

  lemma ExecutesIs(env: Env, t: Transaction, der: seq<byte>, signed: string, src: string, slot: PreparedSlot)
    requires NewestHolds(src, signed, Rank(t.party), slot, der) && env.sha(slot.signedContent) == t.digest
    requires AllValid(Verify(signed, env.commits))
    ensures Executes(env, t, der, signed)
  {
    hide Slots, Covered, DefiniteLength, ExtractDer, Verify, AllValid;
  }

  lemma SuccessSteps(db: Db, p: Party)
    requires MoveChain(db, [SucceedBy(p)] + AdvanceBy(p), {System}).Done?
    ensures db.status == SigningState(p)
    ensures MoveChain(db, [SucceedBy(p)] + AdvanceBy(p), {System}).value.status == Succeeding(p)
  {
    hide Move;
    var actions := [SucceedBy(p)] + AdvanceBy(p);
    assert actions[0] == SucceedBy(p) && actions[1..] == AdvanceBy(p);
    MoveExactly(db, SucceedBy(p), {System}, "");
    var first := Move(db, SucceedBy(p), {System}, "");
    ChainTail(first.value, AdvanceBy(p));
    if p != Md {
      MoveExactly(first.value, AdvanceBy(p)[0], {System}, "");
    }
  }

  lemma DocumentStored(env: Env, store: Store, db: Db, month: nat, version: nat, docType: DocType,
                       state: Option<DocState>, bytes: string)
    ensures var e := StoreDocument(env, store, db, month, version, docType, state, bytes);
      var key := ObjectKey(month, version, docType);
      && Grows(store, e.store)
      && (e.db.Done? ==>
            && key !in store && e.store == store[key := bytes]
            && e.db.value.documents == db.documents + [DocumentRow(docType, key, env.sha(bytes), |bytes|)]
            && e.db.value.rows ==
                 (if state.Some? then db.rows + [VersionRow(version, state.value, env.sha(bytes), key)] else db.rows)
            && e.db.value == db.(rows := e.db.value.rows, documents := e.db.value.documents))
  {
  }

  lemma CompletionStored(env: Env, w: World, tx: nat, seen: nat, der: seq<byte>, month: nat)
    requires tx < |w.db.txs| && CompleteEffect(env, w, tx, seen, der, month).db.Done?
    ensures SignParked(env, w.store, w.db.txs[tx], der).Done?
    ensures Stored(env, w, Settle(w, CompleteEffect(env, w, tx, seen, der, month)), tx, seen, month,
                   SignParked(env, w.store, w.db.txs[tx], der).value)
  {
    hide SignParked, StoreDocument, MoveChain;
    var t := w.db.txs[tx];
    var signed := SignParked(env, w.store, t, der).value;
    DocumentStored(env, w.store, w.db, month, seen, SignedCopy(t.party), Some(SignedBy(t.party)), signed);
    var db := StoreDocument(env, w.store, w.db, month, seen, SignedCopy(t.party), Some(SignedBy(t.party)),
                            signed).db.value;
    MoveChainKeeps(WithStatus(db, tx, TxSigned), [SucceedBy(t.party)] + AdvanceBy(t.party), {System});
    SuccessSteps(WithStatus(db, tx, TxSigned), t.party);
  }

  /** Over every run: a completion that changes a row stores the party's execution of exactly what was asked for, under
      a key of its own. */
  lemma CompletionExecutes(env: Env, start: World, ops: seq<Op>, w: World, tx: nat, seen: nat, der: seq<byte>,
                           month: nat)
    returns (bytes: string)
    requires Initial(start) && ProtocolSafety.Run(env, start, false, ops, w) && tx < |w.db.txs|
    requires ProtocolSafety.Apply(env, w, CompleteOp(tx, seen, der, month)).db != w.db
    ensures Stored(env, w, ProtocolSafety.Apply(env, w, CompleteOp(tx, seen, der, month)), tx, seen, month, bytes)
    ensures Executes(env, w.db.txs[tx], der, bytes)
  {
    hide DocInv, ProtocolSafety.Run, Initial, CompleteEffect, Stored, Executes, SignParked, ProtocolSafety.Apply;
    InitialInv(env, start, false);
    RunKeeps(env, start, false, ops, w);
    CompleteIs(env, w, tx, seen, der, month);
    CompletionStored(env, w, tx, seen, der, month);
    SignParkedMeans(env, w, tx, der);
    bytes := SignParked(env, w.store, w.db.txs[tx], der).value;
  }

  lemma CompleteIs(env: Env, w: World, tx: nat, seen: nat, der: seq<byte>, month: nat)
    requires tx < |w.db.txs|
    ensures ProtocolSafety.Apply(env, w, CompleteOp(tx, seen, der, month)) ==
      Settle(w, CompleteEffect(env, w, tx, seen, der, month))
    ensures Settle(w, CompleteEffect(env, w, tx, seen, der, month)).db != w.db ==>
      CompleteEffect(env, w, tx, seen, der, month).db.Done?
  {
    hide CompleteEffect;
  }

  // ---- What generating stores ---------------------------------------------------------------------

  /** The documents a version is generated from, and the prepared one. */
  function Generated(source: Source, prepared: string): seq<(DocType, string)> {
    match source
    case Template(flat) => [(GeneratedUnsigned, flat), (PreparedUnsigned, prepared)]
    case Upload(pdf, composed) => [(UploadedSource, pdf), (ComposedUnsigned, composed), (PreparedUnsigned, prepared)]
  }

  function Rows(env: Env, month: nat, version: nat, docs: seq<(DocType, string)>): seq<DocumentRow> {
    seq(|docs|, i requires 0 <= i < |docs| =>
      DocumentRow(docs[i].0, ObjectKey(month, version, docs[i].0), env.sha(docs[i].1), |docs[i].1|))
  }

  /** Each document is an object under its own key, new with this step; no other object changes. */
  ghost predicate Puts(store: Store, later: Store, month: nat, version: nat, docs: seq<(DocType, string)>) {
    && (forall i :: 0 <= i < |docs| ==>
          var key := ObjectKey(month, version, docs[i].0); key !in store && key in later && later[key] == docs[i].1)
    && Grows(store, later)
    && forall key :: key in later && key !in store ==>
      exists i :: 0 <= i < |docs| && key == ObjectKey(month, version, docs[i].0)
  }

  /** A generation either leaves every row as it was, or stores the documents and the one version row that names the
      prepared one, and hands a draft to the agent. */
  lemma GenerationStores(env: Env, w: World, seen: nat, roles: set<Role>, source: Source, prepared: string, month: nat)
    ensures var e := GenerateEffect(env, w, seen, roles, source, prepared, month);
      var docs := Generated(source, prepared); var next := Settle(w, e);
      && (!e.db.Done? ==> next.db == w.db && Grows(w.store, next.store))
      && (e.db.Done? ==>
            && w.db.status == Draft && (ActsFor(roles, Agent) || Administers(roles))
            && Puts(w.store, next.store, month, seen, docs)
            && next.db.documents == w.db.documents + Rows(env, month, seen, docs)
            && next.db.rows == w.db.rows
                 + [VersionRow(seen, Unsigned, env.sha(prepared), ObjectKey(month, seen, PreparedUnsigned))]
            && next.db.status == ReadyForAgentSignature && next.db.txs == w.db.txs
            && next.db.version == w.db.version && next.db.closed == w.db.closed && next.db.ledger == w.db.ledger)
  {
    hide Move, StoreDocument, Puts, Grows, ActsFor;
    var docs := Generated(source, prepared);
    var first := StoreSource(env, w.store, w.db, month, seen, source);
    SourceStored(env, w.store, w.db, month, seen, source, prepared);
    if first.db.Done? {
      DocumentStored(env, first.store, first.db.value, month, seen, PreparedUnsigned, Some(Unsigned), prepared);
      var second := StoreDocument(env, first.store, first.db.value, month, seen, PreparedUnsigned, Some(Unsigned),
                                  prepared);
      GrowsOn(w.store, first.store, second.store);
      if second.db.Done? {
        MoveExactly(second.db.value, Generate, roles, "");
        LastPut(env, w.store, first.store, month, seen, docs);
      }
    }
  }

  /** Nothing is stored yet under any of the documents' keys, in the store or in the register of files. */
  ghost predicate Unstored(w: World, month: nat, version: nat, docs: seq<(DocType, string)>) {
    forall i :: 0 <= i < |docs| ==>
      var key := ObjectKey(month, version, docs[i].0);
      key !in w.store && forall j :: 0 <= j < |w.db.documents| ==> w.db.documents[j].key != key
  }

  lemma DocumentGuard(env: Env, store: Store, db: Db, month: nat, version: nat, docType: DocType,
                      state: Option<DocState>, bytes: string)
    ensures var key := ObjectKey(month, version, docType);
      StoreDocument(env, store, db, month, version, docType, state, bytes).db.Done? <==>
        key !in store && !HasFile(db.documents, key) && !(state.Some? && HasVersion(db.rows, version, state.value))
  {
    hide HasFile, HasVersion;
  }

  lemma FileSnoc(documents: seq<DocumentRow>, d: DocumentRow, key: Key)
    ensures HasFile(documents + [d], key) <==> HasFile(documents, key) || d.key == key
  {
    var all := documents + [d];
    assert all[|documents|] == d;
    if i :| 0 <= i < |documents| && documents[i].key == key {
      assert all[i] == documents[i];
    }
  }

  predicate Free(w: World, key: Key) {
    key !in w.store && !HasFile(w.db.documents, key)
  }

  lemma UnstoredIs(w: World, month: nat, version: nat, docs: seq<(DocType, string)>)
    ensures Unstored(w, month, version, docs) <==>
      forall i :: 0 <= i < |docs| ==> Free(w, ObjectKey(month, version, docs[i].0))
  {
    if Unstored(w, month, version, docs) {
      forall i | 0 <= i < |docs|
        ensures Free(w, ObjectKey(month, version, docs[i].0))
      {
      }
    }
    if forall i :: 0 <= i < |docs| ==> Free(w, ObjectKey(month, version, docs[i].0)) {
      forall i | 0 <= i < |docs|
        ensures ObjectKey(month, version, docs[i].0) !in w.store
          && forall j :: 0 <= j < |w.db.documents| ==>
            w.db.documents[j].key != ObjectKey(month, version, docs[i].0)
      {
        assert Free(w, ObjectKey(month, version, docs[i].0));
      }
    }
  }

  /** Exactly when a version is generated, from a template or from an uploaded file. */
  lemma GeneratesExactly(env: Env, w: World, seen: nat, roles: set<Role>, source: Source, prepared: string, month: nat)
    ensures GenerateEffect(env, w, seen, roles, source, prepared, month).db.Done? <==>
      && w.db.status == Draft && (ActsFor(roles, Agent) || Administers(roles))
      && Unstored(w, month, seen, Generated(source, prepared))
      && !HasVersion(w.db.rows, seen, Unsigned)
  {
    hide Move, StoreDocument, Unstored, Free, ActsFor, HasVersion, Puts, Grows;
    var docs := Generated(source, prepared);
    UnstoredIs(w, month, seen, docs);
    assert docs[|docs| - 1].0 == PreparedUnsigned;
    assert (forall i :: 0 <= i < |docs| ==> Free(w, ObjectKey(month, seen, docs[i].0))) <==>
      (forall i :: 0 <= i < |docs| - 1 ==> Free(w, ObjectKey(month, seen, docs[i].0)))
      && Free(w, ObjectKey(month, seen, PreparedUnsigned));
    SourceStored(env, w.store, w.db, month, seen, source, prepared);
    SourceGuard(env, w, seen, source, prepared, month);
    var first := StoreSource(env, w.store, w.db, month, seen, source);
    if first.db.Done? {
      DocumentGuard(env, first.store, first.db.value, month, seen, PreparedUnsigned, Some(Unsigned), prepared);
      DocumentStored(env, first.store, first.db.value, month, seen, PreparedUnsigned, Some(Unsigned), prepared);
      var second := StoreDocument(env, first.store, first.db.value, month, seen, PreparedUnsigned, Some(Unsigned),
                                  prepared);
      if second.db.Done? {
        MoveExactly(second.db.value, Generate, roles, "");
      }
    }
  }

  /** Storing the sources succeeds exactly when their keys are free, and takes no other key. */
  lemma SourceGuard(env: Env, w: World, seen: nat, source: Source, prepared: string, month: nat)
    ensures var e := StoreSource(env, w.store, w.db, month, seen, source);
      var docs := Generated(source, prepared); var last := ObjectKey(month, seen, PreparedUnsigned);
      && (e.db.Done? <==> forall i :: 0 <= i < |docs| - 1 ==> Free(w, ObjectKey(month, seen, docs[i].0)))
      && (e.db.Done? ==>
            (Free(w, last) <==> last !in e.store && !HasFile(e.db.value.documents, last))
            && e.db.value.rows == w.db.rows)
  {
    hide StoreDocument, HasFile, Grows;
    match source
    case Template(flat) =>
      DocumentGuard(env, w.store, w.db, month, seen, GeneratedUnsigned, None, flat);
      DocumentStored(env, w.store, w.db, month, seen, GeneratedUnsigned, None, flat);
      var key := ObjectKey(month, seen, GeneratedUnsigned);
      FileSnoc(w.db.documents, DocumentRow(GeneratedUnsigned, key, env.sha(flat), |flat|),
               ObjectKey(month, seen, PreparedUnsigned));
      assert Generated(source, prepared)[0].0 == GeneratedUnsigned && |Generated(source, prepared)| == 2;
    case Upload(pdf, composed) =>
      UploadGuard(env, w, seen, pdf, composed, month);
      var docs := Generated(source, prepared);
      assert docs[0].0 == UploadedSource && docs[1].0 == ComposedUnsigned;
      if Free(w, ObjectKey(month, seen, UploadedSource)) && Free(w, ObjectKey(month, seen, ComposedUnsigned)) {
        forall i | 0 <= i < |docs| - 1
          ensures Free(w, ObjectKey(month, seen, docs[i].0))
        {
          assert i == 0 || i == 1;
        }
      }
  }

  lemma UploadGuard(env: Env, w: World, seen: nat, pdf: string, composed: string, month: nat)
    ensures var e := StoreSource(env, w.store, w.db, month, seen, Upload(pdf, composed));
      var last := ObjectKey(month, seen, PreparedUnsigned);
      && (e.db.Done? <==>
            Free(w, ObjectKey(month, seen, UploadedSource)) && Free(w, ObjectKey(month, seen, ComposedUnsigned)))
      && (e.db.Done? ==>
            (Free(w, last) <==> last !in e.store && !HasFile(e.db.value.documents, last))
            && e.db.value.rows == w.db.rows)
  {
    hide StoreDocument, HasFile, Grows;
    var (k0, k1) := (ObjectKey(month, seen, UploadedSource), ObjectKey(month, seen, ComposedUnsigned));
    var (d0, d1) := (DocumentRow(UploadedSource, k0, env.sha(pdf), |pdf|),
                     DocumentRow(ComposedUnsigned, k1, env.sha(composed), |composed|));
    DocumentGuard(env, w.store, w.db, month, seen, UploadedSource, None, pdf);
    DocumentStored(env, w.store, w.db, month, seen, UploadedSource, None, pdf);
    FileSnoc(w.db.documents, d0, k1);
    FileSnoc(w.db.documents, d0, ObjectKey(month, seen, PreparedUnsigned));
    FileSnoc(w.db.documents + [d0], d1, ObjectKey(month, seen, PreparedUnsigned));
    var first := StoreDocument(env, w.store, w.db, month, seen, UploadedSource, None, pdf);
    if first.db.Done? {
      DocumentGuard(env, first.store, first.db.value, month, seen, ComposedUnsigned, None, composed);
      DocumentStored(env, first.store, first.db.value, month, seen, ComposedUnsigned, None, composed);
    }
  }

  lemma SourceStored(env: Env, store: Store, db: Db, month: nat, version: nat, source: Source, prepared: string)
    ensures var e := StoreSource(env, store, db, month, version, source);
      var docs := Generated(source, prepared)[..|Generated(source, prepared)| - 1];
      && Grows(store, e.store)
      && (e.db.Done? ==>
            && Puts(store, e.store, month, version, docs)
            && e.db.value == db.(documents := db.documents + Rows(env, month, version, docs)))
  {
    hide StoreDocument, Puts, Grows;
    match source
    case Template(flat) =>
      DocumentStored(env, store, db, month, version, GeneratedUnsigned, None, flat);
      var e := StoreDocument(env, store, db, month, version, GeneratedUnsigned, None, flat);
      if e.db.Done? {
        PutNothing(store, month, version);
        OneMore(env, store, store, month, version, [], (GeneratedUnsigned, flat));
        assert [] + [(GeneratedUnsigned, flat)] == Generated(source, prepared)[..1];
        assert Rows(env, month, version, []) == [];
      }
    case Upload(pdf, composed) =>
      DocumentStored(env, store, db, month, version, UploadedSource, None, pdf);
      var first := StoreDocument(env, store, db, month, version, UploadedSource, None, pdf);
      if first.db.Done? {
        DocumentStored(env, first.store, first.db.value, month, version, ComposedUnsigned, None, composed);
        var e := StoreDocument(env, first.store, first.db.value, month, version, ComposedUnsigned, None, composed);
        GrowsOn(store, first.store, e.store);
        PutNothing(store, month, version);
        OneMore(env, store, store, month, version, [], (UploadedSource, pdf));
        assert [] + [(UploadedSource, pdf)] == [(UploadedSource, pdf)];
        assert Rows(env, month, version, []) == [];
        if e.db.Done? {
          OneMore(env, store, first.store, month, version, [(UploadedSource, pdf)], (ComposedUnsigned, composed));
          assert [(UploadedSource, pdf)] + [(ComposedUnsigned, composed)] == Generated(source, prepared)[..2];
        }
      }
  }

  lemma PutNothing(store: Store, month: nat, version: nat)
    ensures Puts(store, store, month, version, [])
  {
  }

  lemma GrowsOn(a: Store, b: Store, c: Store)
    requires Grows(a, b) && Grows(b, c)
    ensures Grows(a, c)
  {
  }

  lemma OneMore(env: Env, store: Store, mid: Store, month: nat, version: nat, docs: seq<(DocType, string)>,
                d: (DocType, string))
    requires Puts(store, mid, month, version, docs)
    ensures ObjectKey(month, version, d.0) !in mid ==>
      Puts(store, mid[ObjectKey(month, version, d.0) := d.1], month, version, docs + [d])
    ensures Rows(env, month, version, docs + [d]) == Rows(env, month, version, docs)
      + [DocumentRow(d.0, ObjectKey(month, version, d.0), env.sha(d.1), |d.1|)]
  {
    hide Puts;
    if ObjectKey(month, version, d.0) !in mid {
      OnePut(store, mid, month, version, docs, d);
    }
  }

  lemma OnePut(store: Store, mid: Store, month: nat, version: nat, docs: seq<(DocType, string)>, d: (DocType, string))
    requires Puts(store, mid, month, version, docs) && ObjectKey(month, version, d.0) !in mid
    ensures Puts(store, mid[ObjectKey(month, version, d.0) := d.1], month, version, docs + [d])
  {
    var key := ObjectKey(month, version, d.0);
    var (later, all) := (mid[key := d.1], docs + [d]);
    assert all[|docs|] == d;
    forall k | k in later && k !in store
      ensures exists i :: 0 <= i < |all| && k == ObjectKey(month, version, all[i].0)
    {
      if k != key {
        var i :| 0 <= i < |docs| && k == ObjectKey(month, version, docs[i].0);
        assert all[i] == docs[i];
      }
    }
  }

  lemma LastPut(env: Env, store: Store, mid: Store, month: nat, version: nat, docs: seq<(DocType, string)>)
    requires docs != [] && Puts(store, mid, month, version, docs[..|docs| - 1])
    requires ObjectKey(month, version, docs[|docs| - 1].0) !in mid
    ensures var d := docs[|docs| - 1];
      && Puts(store, mid[ObjectKey(month, version, d.0) := d.1], month, version, docs)
      && Rows(env, month, version, docs) == Rows(env, month, version, docs[..|docs| - 1])
           + [DocumentRow(d.0, ObjectKey(month, version, d.0), env.sha(d.1), |d.1|)]
  {
    hide Puts;
    var d := docs[|docs| - 1];
    OneMore(env, store, mid, month, version, docs[..|docs| - 1], d);
    assert docs[..|docs| - 1] + [d] == docs;
  }

  // ---- What the provider's answer leads to --------------------------------------------------------

  /** The transaction is failed, and with it the ceremony the agreement is in; nothing else changes. */
  ghost predicate Failed(w: World, next: World, tx: nat) {
    && tx < |w.db.txs| && next.store == w.store
    && next.db.txs == w.db.txs[tx := w.db.txs[tx].(status := TxFailed)]
    && next.db.status == (if exists p :: w.db.status == SigningState(p) then SignatureFailed else w.db.status)
    && next.db.rows == w.db.rows && next.db.documents == w.db.documents && next.db.version == w.db.version
    && next.db.closed == w.db.closed && next.db.ledger == w.db.ledger
  }

  lemma FailsExactly(w: World, tx: nat)
    requires tx < |w.db.txs|
    ensures Failed(w, FailSignature(w, tx), tx)
  {
    hide Move;
    FailCommits(w.db, tx);
    if PartySigning(w.db.status).Some? {
      var p := PartySigning(w.db.status).value;
      assert w.db.status == SigningState(p);
      MoveExactly(WithStatus(w.db, tx, TxFailed), FailBy(p), {System}, "");
    } else {
      assert forall p :: w.db.status != SigningState(p);
    }
  }

  /** What is parked for the transaction hashes to something else than its digest. */
  predicate Mismatched(env: Env, store: Store, t: Transaction) {
    && t.parked.Some? && t.parked.value in store && Reopen(store[t.parked.value]).Ok?
    && env.sha(Reopen(store[t.parked.value]).value.signedContent) != t.digest
  }

  /** The file with the signature in its gap would not pass the check on the number of signatures and on each of
      them. */
  predicate Spoilt(env: Env, store: Store, t: Transaction, der: seq<byte>) {
    && t.parked.Some? && t.parked.value in store && Reopen(store[t.parked.value]).Ok?
    && Embed(Reopen(store[t.parked.value]).value, der).Ok?
    && var report := Verify(Embed(Reopen(store[t.parked.value]).value, der).value, env.commits);
    !(|report| == Rank(t.party) + 1 && AllValid(report))
  }

  /** Any answer but a signature fails the ceremony, and so does a signature that does not fit what was asked for or
      leaves a signature of the document invalid; a pending answer leaves everything as it was. */
  lemma AnswerDecides(env: Env, w: World, tx: nat, status: TxStatus, p: Provider)
    requires tx < |w.db.txs|
    ensures var r := ApplyOutcome(env, w, tx, status, p);
      && (status == PendingSigner ==> r.world == w && !r.threw)
      && (status == TxFailed || status == TxExpired || status == TxCancelled ==> Failed(w, r.world, tx) && !r.threw)
      && (status == TxSigned && p.status != TxSigned ==> Failed(w, r.world, tx) && !r.threw)
      && (status == TxSigned && p.status == TxSigned
          && (Mismatched(env, w.store, w.db.txs[tx]) || Spoilt(env, w.store, w.db.txs[tx], p.der)) ==>
            Failed(w, r.world, tx) && !r.threw)
  {
    hide FailSignature, Failed, Reopen, Embed, Verify, StoreDocument, MoveChain;
    FailsExactly(w, tx);
    var t := w.db.txs[tx];
    if p.status == TxSigned && (Mismatched(env, w.store, t) || Spoilt(env, w.store, t, p.der)) {
      AlarmRaised(env, w.store, t, p.der);
    }
  }

  lemma AlarmRaised(env: Env, store: Store, t: Transaction, der: seq<byte>)
    requires Mismatched(env, store, t) || Spoilt(env, store, t, der)
    ensures SignParked(env, store, t, der).Alarm?
  {
    hide Reopen, Embed, Verify;
  }

  // ---- What an event is taken for -----------------------------------------------------------------

  /** An event that does not authenticate, or whose identifier is claimed, changes nothing. Any other claims its
      identifier, and that is all ingesting it changes. */
  lemma IngestExactly(db: Db, e: Event)
    ensures var i := Ingest(db, e);
      && (i.db != db <==> e.authentic && e.id !in db.ledger)
      && (i.db != db ==> i.db == db.(ledger := db.ledger[e.id := i.outcome]))
      && (i.outcome == RejectedSignature <==> !e.authentic)
      && (i.outcome == Duplicate <==> e.authentic && e.id in db.ledger)
      && (i.outcome == Unmatched <==> i.db != db && e.tx >= |db.txs|)
      && (i.outcome == Stale <==> i.db != db && e.tx < |db.txs| && db.txs[e.tx].status != PendingSigner)
      && (i.outcome == Applied <==> i.db != db && e.tx < |db.txs| && db.txs[e.tx].status == PendingSigner)
  {
    assert e.id !in db.ledger ==> db.ledger[e.id := Ingest(db, e).outcome] != db.ledger;
  }

  /** An event acts on the agreement only when it authenticates, is new and names an open transaction; otherwise its
      delivery at most claims the identifier. */
  lemma DeliveryActs(env: Env, w: World, e: Event, p: Provider)
    ensures var next := Deliver(env, w, e, p);
      next != World(w.db.(ledger := next.db.ledger), w.store) ==>
        && e.authentic && e.id !in w.db.ledger && e.tx < |w.db.txs| && w.db.txs[e.tx].status == PendingSigner
  {
    hide ApplyOutcome;
    IngestExactly(w.db, e);
  }

  /** What a new event about an open transaction leads to, once its identifier is claimed, is decided by the status it
      reports: nothing while it is pending, a failed ceremony when it is anything but a signature, and for a signature
      what the provider answers when asked. */
  lemma DeliveryDecides(env: Env, w: World, e: Event, p: Provider)
    requires e.authentic && e.id !in w.db.ledger && e.tx < |w.db.txs| && w.db.txs[e.tx].status == PendingSigner
    ensures var claimed := World(w.db.(ledger := w.db.ledger[e.id := Applied]), w.store);
      var next := Deliver(env, w, e, p);
      && (e.status == PendingSigner ==> next == claimed)
      && (e.status == TxFailed || e.status == TxExpired || e.status == TxCancelled ==> Failed(claimed, next, e.tx))
      && (e.status == TxSigned && p.status != TxSigned ==> Failed(claimed, next, e.tx))
      && (e.status == TxSigned && p.status == TxSigned ==> next == CompleteSignature(env, claimed, e.tx, p).world)
  {
    hide Failed, CompleteSignature, FailSignature;
    IngestExactly(w.db, e);
    AnswerDecides(env, World(Ingest(w.db, e).db, w.store), e.tx, e.status, p);
  }

  /** Delivering an event again changes nothing, whatever the provider answers then. */
  lemma DeliveredOnce(env: Env, w: World, e: Event, p: Provider, q: Provider)
    ensures Deliver(env, Deliver(env, w, e, p), e, q) == Deliver(env, w, e, p)
  {
    hide ApplyOutcome, Ingest;
    IngestExactly(w.db, e);
    var next := Deliver(env, w, e, p);
    if e.authentic {
      var i := Ingest(w.db, e);
      assert e.id in i.db.ledger;
      if i.outcome == Applied && e.tx < |i.db.txs| {
        OutcomeKeepsLedger(env, World(i.db, w.store), e.tx, e.status, p);
      }
    }
    IngestExactly(next.db, e);
  }
}
