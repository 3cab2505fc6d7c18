# Signing-portal verification model

A Dafny 4.11 model of the GTIDS agreement portal's signing core, with proofs over every input, run or schedule. It has four
linked parts and two extras with exact arithmetic.

1. **Append-only PDF signing, at the level of bytes.** The parser of classic cross-reference chains, the incremental-update
   writer, the two-phase signature slot and the multi-signature verifier. The claim of the design is that signature N+1
   cannot invalidate signatures 1..N; it is proved of offsets, searches and in-place writes for every document, and the
   exact condition under which the scan keeps its old slots is given.
2. **The signing protocol.** One agreement's tables, its transactions and callback ledger, and the write-once object store
   beside them, which database rollbacks do not undo. Documents in the store are real byte sequences of part 1, so "signed by
   the agent, then the employee, then the MD" is a statement about bytes.
3. **The audit hash chain.** Concurrent appends under a head lock, with identifiers drawn before the lock, and the verifier
   that walks a chain in identifier order.
4. **Write-once storage and stamp exclusivity**, over every interleaving and crash.
5. **Gap-free counters and the rate limiter**, with exact bounds.

## Layout

| modules | content |
|---|---|
| `Text`, `PdfObjects`, `IncrementalSigner`, `Verifier` | the byte-level program: each loop or in-place write is a method proved against a function |
| `Stability`, `RevisionProofs`, `AppendProofs` | reading what was appended, and what was there before |
| `SlotProofs`, `SigningProofs`, `QuietProofs`, `FieldProofs`, `SigningLayout`, `SigningTheorems` | what one signing does to slots, objects and fields |
| `Preservation`, `SignatureRuns`, `Ceremonies` | the main results on one signing, any run of signings, and the parked ceremony |
| `XrefTables`, `DictionaryText` | what tables, chains, trailers and signature dictionaries say, told from the text alone |
| `SampleDocument`, `Attachments`, `SlotWitnesses` | documents that meet the hypotheses, with objects of any size, and files on the exceptional sides |
| `StateMachine`, `Protocol`, `Executions` | the table, the steps, documents signed in order |
| `ProtocolSafety`, `ProtocolLedger`, `VersionAccounting` | what every interleaving keeps |
| `HonestRuns` | what honest ceremonies achieve |
| `Guards`, `Outcomes`, `SigningAttempts` | which requests go through and what they leave, told by statuses, roles, rows and bytes |
| `AtomicProtocol`, `CallbackConfluence`, `Conservation` | what holds when a callback is ingested and applied in one step |
| `LateCompletions`, `LateFailures` | completions, failures and requests that act on a version or transaction no longer current: exact conditions and runs |
| `SigningService` | the services as methods that update the tables, proved to do the protocol's steps |
| `AuditChain`, `WriteOnce`, `Stamps`, `Counters`, `RateLimit` | parts 3 to 5 |

## Modelling choices

- **Two interleavings of the protocol.** `ProtocolSafety.Run` is the finest one: every database transaction, with the object it writes
  and a rollback does not remove, is a step of its own, an object may be left alone by a crash at any time, and a version read earlier
  may be stale, because `completeSignature` does not look again at the transaction's status or version
  (api/src/signing/signing.service.ts:232-276) and the controller does not await it (api/src/signing/signing.controller.ts:94-98).
  `SigningOrder`, `RecordsMatchStore`, `LogReplays` and `CompletedIsExecuted` hold over it without further hypothesis.
  `VoidedSignatures`, `SignedExtendsPrepared` and `CompletedShowsFinal` need that each step acts on the version it read (the flag `own`).
  `AtomicProtocol` makes ingest and apply one step and lets `initiateSignature` stop after any of its parts; `AtomicRunsCoupled` shows
  that its runs meet that hypothesis and are coupled. `LateCompletions` says what becomes of each guarantee on versions without it:
  `CompletionExtendsIff`, `VoidedKeptIff` and `FinalShownIff` are the exact conditions for one completion, and `LateCompletionHappens`,
  `StaleCompletionHappens` and `StaleFinalHappens` are runs from a new agreement in which they fail at the last step. The coupling and
  the balance of transitions and transactions also depend on failures and on late requests: `LateFailures` has the exact condition for
  every step (`StepCouplesIff`, `StepTalliesIff`) and runs that break them (`LateFailureHappens`, `OvertakenRequestHappens`).
- **Lexical hypotheses.** Signer name, reason and location mention neither `/ByteRange` nor `endobj`, the date has
  the characters of a PDF date, texts and reserved bytes together stay within 100,000. The file's own conditions (`Signable`) ask that
  it parses, that every indexed object is complete in the file, of whatever size, that unsigned signature fields are dictionaries within
  the reader's window, and that a few numbers fit. Signing keeps them; so does appending any other object (`AttachingKeepsBaseline`), which
  covers embedded scans above the reader's 512 KiB window (`LargeObjectBaseline`); `SampleIsBaseline` meets them all. Offsets
  beyond ten digits are not excluded: they are an outcome of `PrepareOutcome`.
- **Parameters.** The hash and whether a signature commits to a content are parameters. Collision-freeness is assumed only of the
  texts actually hashed, where a theorem needs it; `TamperEvident` names the colliding pair instead. The provider's answers, the month in an object key, the clock of the limiter and
  the bytes a renderer returns are parameters too.

## Where code and documentation disagree

- README.md:6 describes two signatures, agent and MD; the code has three parties, and the model follows it.
- api/src/workflow/state-machine.ts:78-86 says each waiting state has exactly one inbound edge. The retry edges at lines
  181-198 are second ones (`InboundEdges`), and the table alone admits completion without the agent's and the employee's
  signatures (`TableAdmitsEarlyCompletion`). The order on documents comes from the count check and the "already signed"
  check (`SignatureExtends`). What the table leaves to its callers is exactly that a retry is taken as the party whose ceremony failed
  (`OrderIffOwnRetries`). The retry actions have no caller in api/src; the model lets anyone with the role take them at any time.
- api/src/documents/pdf/incremental-signer.ts:213-216 says the unfilled slot is identifiable without ambiguity. It is exactly when no
  earlier signature's hex is all zeroes (`ReopenRoundTrip`), which the integrity check guarantees in the protocol.
- api/src/audit/audit.service.ts:190-191 says the surviving records are compared with the recorded head. Only its count is
  compared, so a last row rewritten with a matching hash passes (`RewriteFound`). An honest chain is reported as broken when two
  transactions commit out of identifier order (`IntactIffInOrder`).
- The fixed window admits up to 2n - 1 calls in a minute, not n (`BoundIsTight`).

## Model

| member | source | states |
|---|---|---|
| `SignatureRuns.SignaturePreservation` | api/src/documents/pdf/incremental-signer.ts:128-208 | Signature N+1 cannot invalidate 1..N: if every `/ByteRange` of the file is followed by a complete `/Contents`, signing a field yields a file with the old one as strict prefix, one verdict more, every old verdict with its range and coverage and, if it claimed only bytes that existed, its issues; the new one has the prepared range, covers the whole file, and, for a definite-length signature, is valid exactly when it commits to the content handed to the signer |
| `SignatureRuns.SlotsAfterSigning` | api/src/documents/pdf/pdf-objects.ts:180-203 | The slots found after a signing are the old ones and the new one **if and only if** no old `/ByteRange` lacks its `/Contents`; the new range is exactly the file around the gap |
| `Preservation.PrepareOutcome` | api/src/documents/pdf/incremental-signer.ts:128-188 | Preparing has three outcomes, with exact conditions: refused on a signed field, refused when a number outgrows ten digits, otherwise the old file with one revision and the range, gap and signed content where they really lie |
| `Preservation.SignOutcome` | api/src/documents/pdf/incremental-signer.ts:128-208 | All four outcomes of prepare, sign and embed with their exact conditions and the resulting bytes |
| `Preservation.SigningKeepsFields` | api/src/documents/pdf/incremental-signer.ts:132-153 | A signed file can be signed again: each field keeps its name and object, and exactly the named field becomes signed |
| `Preservation.ResigningRefused` | api/src/documents/pdf/incremental-signer.ts:132-137 | A second signature on the field is refused, whatever its texts and signature |
| `SigningTheorems.SigningKeepsSignable` | api/src/documents/pdf/incremental-signer.ts:65-98 | The invariant behind runs of any length: the grown file parses, its objects read back, its unsigned fields stay extendable |
| `DictionaryText.SignedRecords` | api/src/documents/pdf/incremental-signer.ts:144-153 | The signed file, parsed anew, has one object more, numbered with the old `/Size`: a dictionary that opens as an Adobe.PPKLite signature of the kind adbe.pkcs7.detached and from which a literal-string reader of its own gives back exactly the name, reason, location and date asked for, each after its own key, for all texts with parentheses and backslashes. The widget is the old one with a single entry more before its last `>>`, and its first `/V` reference is that object |
| `DictionaryText.PreparedRecords` | api/src/documents/pdf/incremental-signer.ts:128-188 | The same of the prepared file, and the slot's object number is that of the dictionary |
| `DictionaryText.EscapedReads` | api/src/documents/pdf/incremental-signer.ts:45 | Reading a literal string undoes the escaping, for every text |
| `SigningTheorems.OldObjects` | api/src/documents/pdf/incremental-signer.ts:65-98 | Every object the signing does not replace reads as before |
| `Ceremonies.ReopenRoundTrip` | api/src/documents/pdf/incremental-signer.ts:218-240 | Reopening the parked bytes gives back buffer, range, gap start, gap width and signed content exactly when no earlier gap is all zeroes; otherwise it is refused as ambiguous |
| `Ceremonies.ReopenExactly` | api/src/documents/pdf/incremental-signer.ts:218-240 | On any byte string: reopened **if and only if** exactly one gap is all zeroes and its range ends and resumes there; what is then to be signed is what that range covers |
| `SlotWitnesses.PreparedTwice` | api/src/documents/pdf/incremental-signer.ts:218-222 | Every file prepared twice without being filled in between is refused as ambiguous, whichever fields are named |
| `SlotWitnesses.AmbiguousParking` | api/src/documents/pdf/incremental-signer.ts:218-222 | It happens, on a concrete file |
| `SlotWitnesses.UnclosedSigning` | api/src/documents/pdf/pdf-objects.ts:184-188 | A concrete file with a `/ByteRange` but no `/Contents`, signed successfully, whose old range then reports a slot it did not report before |
| `Ceremonies.CompletedElsewhere` | api/src/documents/pdf/incremental-signer.ts:197-263 | Completing from the parked bytes on another instance gives the same bytes, or the same refusal, as signing inline |
| `Ceremonies.OnlyTheGapChanges` | api/src/documents/pdf/incremental-signer.ts:197-208 | Filling any slot keeps the length and every byte not strictly inside the gap |
| `Ceremonies.RunCoverage` | api/src/documents/pdf/incremental-signer.ts:128-208 | Over any run of n signings each document is a strict prefix of the next, the old slots stay first, and the k-th new signature covers exactly the k-th document |
| `Ceremonies.OnlyLastCoversAll` | api/src/documents/pdf/verifier.ts:51-83 | After a run a signature covers the whole file if and only if it is the newest one |
| `Ceremonies.HonestRunValid` | api/src/documents/pdf/verifier.ts:36-92 | Any run of signings by signers that commit to what they were given keeps "all signatures valid" |
| `Ceremonies.RunFields` | api/src/documents/pdf/incremental-signer.ts:132-153 | The fields signed after a run are those signed before and those it names, and no successful run names one twice |
| `AppendProofs.AppendThenParse` | api/src/documents/pdf/incremental-signer.ts:65-98 | Round trip of writer and parser: the appended file parses to the old offsets overridden by the new ones, the same root and `/ID`, and a size above every new object number |
| `AppendProofs.SectionReads` | api/src/documents/pdf/pdf-objects.ts:58-92 | The written xref section and trailer parse to exactly the new entries, trailer dictionary and `/Prev` |
| `AppendProofs.StartXrefOfAppended` | api/src/documents/pdf/pdf-objects.ts:33-40 | The last `startxref` of the longer file is the new one |
| `AppendProofs.NewObjectReads` | api/src/documents/pdf/pdf-objects.ts:128-137 | Each appended object reads back as its trimmed content when it fits the reader's window and has no inner `endobj` |
| `AppendProofs.OldObjectReads` | api/src/documents/pdf/pdf-objects.ts:128-137 | An object the revision does not define keeps its offset and reads as before |
| `AppendProofs.NewestRevisionWins` | api/src/documents/pdf/pdf-objects.ts:94-112 | The merged index gives each object the offset of the first section of the `/Prev` chain that defines it |
| `RevisionProofs.XrefLineWidth` | api/src/documents/pdf/incremental-signer.ts:86-91 | An xref entry has exactly 20 bytes when offset and generation fit their columns |
| `RevisionProofs.XrefLinesRead` | api/src/documents/pdf/pdf-objects.ts:72-84 | The subsections written for ascending objects are read back entry by entry |
| `RevisionProofs.TrailerDictReads` | api/src/documents/pdf/incremental-signer.ts:93-95 | `/Prev`, `/Size`, `/Root` and `/ID` are read from the new trailer as written |
| `Stability.ChainPrefix` | api/src/documents/pdf/pdf-objects.ts:99-112 | A `/Prev` chain that parses in a file parses to the same sections after any bytes are appended |
| `Stability.SteadyPrefix` | api/src/documents/pdf/pdf-objects.ts:128-137 | An object that reads, or whose 512 KiB window ends in the file, reads or fails to read the same after any bytes are appended |
| `Stability.CompleteIsSteady` | api/src/documents/pdf/pdf-objects.ts:128-137 | Every object complete in the file is of this kind, however large |
| `Attachments.AttachingKeepsBaseline` | api/src/documents/documents.service.ts:263-301 | A prepared document may hold objects of any size, scans included: appending one that is no field and mentions no signature keeps it a prepared document |
| `Attachments.LargeObjectBaseline` | api/src/documents/pdf/pdf-objects.ts:150-156 | A concrete prepared document with an object too large to be read, which the search skips |
| `Stability.ReadObjectPrefix` | api/src/documents/pdf/pdf-objects.ts:128-137 | An object that reads in a file reads the same after any bytes are appended |
| `QuietProofs.HeadQuiet` | api/src/documents/pdf/incremental-signer.ts:144-148 | The head of the signature dictionary mentions neither `/ByteRange`, `endobj` nor a field title when the signer's texts mention none |
| `QuietProofs.EscapeAbsent` | api/src/documents/pdf/incremental-signer.ts:45 | Escaping parentheses and backslashes creates no marker that was not there |
| `FieldProofs.WidgetIncludes` | api/src/documents/pdf/incremental-signer.ts:100-104 | Adding `/V` to a widget keeps and creates no other entry a search looks for |
| `FieldProofs.WidgetSigned` | api/src/documents/pdf/incremental-signer.ts:135-153 | A widget with the added `/V` is recognised as signed |
| `SigningProofs.PatchReads` | api/src/documents/pdf/incremental-signer.ts:155-187 | On the laid-out file the in-place patch finds the new placeholder, never an older one, and yields the slot, or refuses when a number outgrows its column |
| `SigningProofs.EmbedReads` | api/src/documents/pdf/incremental-signer.ts:197-208 | Filling puts the padded hex between the angle brackets and nothing else, or refuses a signature wider than the gap |
| `SlotProofs.NewSlotReads` | api/src/documents/pdf/pdf-objects.ts:183-200 | What the scan reports at a signature dictionary: its four numbers and its gap |
| `PdfObjects.MatchesDisjoint` | api/src/documents/pdf/pdf-objects.ts:183-185 | No second `/ByteRange` starts inside a match, so the global scan misses none by resuming past it |
| `PdfObjects.SkipMatch` | api/src/documents/pdf/pdf-objects.ts:183-186 | Resuming past a match reports the same slots as looking at every position |
| `Text.PadInjective` | api/src/documents/pdf/incremental-signer.ts:44 | Zero padding loses no information, at any width |
| `Text.ParsePad` | api/src/documents/pdf/incremental-signer.ts:44 | A padded numeral reads back as its number |
| `Text.DecWidth` | api/src/documents/pdf/incremental-signer.ts:44 | A numeral fits k digits exactly when the number is below 10^k |
| `PdfObjects.FindDictEnd` | api/src/documents/pdf/pdf-objects.ts:43-56 | The loop finds the matching `>>` of the recursive specification, or the unterminated case |
| `PdfObjects.ReadEntries` | api/src/documents/pdf/pdf-objects.ts:78-83 | The entry loop computes the specified table; what that is, line by line, is `XrefTables.EntriesRead` |
| `XrefTables.EntriesRead` | api/src/documents/pdf/pdf-objects.ts:78-83 | A subsection of n lines of 20 bytes is read **if and only if** each has its ten digits, five digits and kind in place; then object start + i is found at the offset in the digits of line i when its kind is n, a line of kind f adds nothing, and every other number answers as before |
| `PdfObjects.ReadSubsections` | api/src/documents/pdf/pdf-objects.ts:72-84 | The subsection loop computes the specified entries and stops where they stop; what they are is `XrefTables.TableRead` |
| `XrefTables.HeaderIff` | api/src/documents/pdf/pdf-objects.ts:72-77 | A subsection header is read exactly where two numerals and a line break stand as the pattern asks |
| `XrefTables.TableRead` | api/src/documents/pdf/pdf-objects.ts:72-84 | For blocks of lines of any number and length, told by text positions alone: each object number is found at the offset of the last line that says it is in use, and at none without such a line |
| `XrefTables.TableIff` | api/src/documents/pdf/pdf-objects.ts:72-84 | A table is read **if and only if** it lies in the text as such blocks; otherwise a line is malformed |
| `PdfObjects.ReadTrailer` | api/src/documents/pdf/pdf-objects.ts:86-89 | The trailer is searched from where the subsections stopped, and ends with its own dictionary |
| `PdfObjects.ParseXrefSection` | api/src/documents/pdf/pdf-objects.ts:58-92 | The whole section, or the same error, within the 1 MiB window, as specified |
| `XrefTables.SectionMeans` | api/src/documents/pdf/pdf-objects.ts:58-92 | What a section is: the answers of its blocks, the dictionary from the first `<<` after the first `trailer` after them to its own `>>`, and the `/Prev` in it |
| `XrefTables.DictionaryCloses` | api/src/documents/pdf/pdf-objects.ts:43-56 | The end found for a dictionary is that of its own closing brackets, however deeply others nest in it |
| `PdfObjects.WalkChain` | api/src/documents/pdf/pdf-objects.ts:101-112 | The loop over `/Prev` terminates on every byte string (in-file offsets not yet seen decrease) and keeps the first definition of each object |
| `PdfObjects.ParseDocument` | api/src/documents/pdf/pdf-objects.ts:99-126 | `parseDocument` on every byte string, errors included, equals the specification the theorems are about |
| `XrefTables.ChainIff` | api/src/documents/pdf/pdf-objects.ts:99-112 | A `/Prev` chain is read **if and only if** its sections lead, each to the next, to one that names none, without coming back to an offset |
| `XrefTables.StartXrefIff` | api/src/documents/pdf/pdf-objects.ts:33-40 | The start is the number after the last `startxref` of the file, which must stand in its last 2048 bytes |
| `XrefTables.SingleTableParses` | api/src/documents/pdf/pdf-objects.ts:99-126 | An ordinary file whose one table has contiguous subsections parses, and each object number is found at the offset of the last line that says it is in use |
| `PdfObjects.FindFieldByName` | api/src/documents/pdf/pdf-objects.ts:144-160 | The first readable indexed object with both markers, unreadable ones skipped |
| `Preservation.FieldIsFirst` | api/src/documents/pdf/pdf-objects.ts:144-160 | The search gives the first object in index order that can be read and has title and type, and fails exactly when there is none |
| `PdfObjects.FindSignatures` | api/src/documents/pdf/pdf-objects.ts:180-203 | The scan loop reports the slots of every `/ByteRange` in the file, in order |
| `IncrementalSigner.WriteBodies` | api/src/documents/pdf/incremental-signer.ts:77-82 | The loop records each object where its text starts |
| `IncrementalSigner.WriteXref` | api/src/documents/pdf/incremental-signer.ts:86-91 | The loop writes the head entry and one subsection per object from the recorded offsets |
| `XrefTables.LineWritten` | api/src/documents/pdf/incremental-signer.ts:84-86 | A written line column by column: number and count, offset, generation, kind n, 20 bytes with their ending |
| `XrefTables.SortedPermutation` | api/src/documents/pdf/incremental-signer.ts:72 | The revision writes the objects it is given, each once, in the order of their numbers |
| `IncrementalSigner.AppendRevision` | api/src/documents/pdf/incremental-signer.ts:65-98 | Objects in any order give the appended revision of their sorted list |
| `IncrementalSigner.PatchInPlace` | api/src/documents/pdf/incremental-signer.ts:155-187 | The write into the byte buffer gives the patched text, range, gap and signed content |
| `IncrementalSigner.PrepareSignatureSlot` | api/src/documents/pdf/incremental-signer.ts:128-188 | `prepareSignatureSlot` with all its refusals equals the specification; what the file then records is `DictionaryText.PreparedRecords`, and its outcomes are `Preservation.PrepareOutcome` |
| `IncrementalSigner.EmbedSignature` | api/src/documents/pdf/incremental-signer.ts:197-208 | The in-place write of the padded hex equals the specification, refusing what does not fit |
| `Verifier.DerRecovery` | api/src/documents/pdf/verifier.ts:127-151 | A byte sequence is recovered from its zero-padded hex **if and only if** it is a SEQUENCE whose definite-length header (at most four length octets) states exactly its own length |
| `Verifier.DefiniteIffSequence` | api/src/documents/pdf/verifier.ts:127-147 | The encodings recovered are exactly the SEQUENCEs of some contents with a short-form length or one on 1 to 4 octets, as section 8.1.3 of ITU-T X.690 forms them |
| `Verifier.EncodedRecovered` | api/src/documents/pdf/verifier.ts:117-151 | Any such SEQUENCE, minimal length octets or not, survives hex, padding and extraction, whatever its contents end in |
| `Verifier.ValidExactly` | api/src/documents/pdf/verifier.ts:38-89 | A verdict is valid if and only if the range starts at 0, leaves exactly the gap, ends within the file, and the extracted signature commits to the covered bytes |
| `Verifier.IssuesExactly` | api/src/documents/pdf/verifier.ts:41-89 | Each issue is reported exactly when it is there, the signature being looked at only in a range that is in place |
| `Verifier.HexStandsFor` | api/src/documents/pdf/incremental-signer.ts:197-203 | The hexadecimal written into the gap is in capitals, two digits a byte, and stands for the signature |
| `SignatureRuns.TamperEvident` | api/src/documents/pdf/verifier.ts:41-69 | Two files in which the same signature is valid over the same range agree on every covered byte, unless some signature commits to both of the two different contents |
| `Verifier.ReadDer` | api/src/documents/pdf/verifier.ts:127-151 | The length loop extracts what the specification extracts, with each of its errors |
| `Verifier.JudgeSlot` | api/src/documents/pdf/verifier.ts:38-89 | The issues of one slot: range start, both gap ends, coverage, extraction and commitment |
| `Verifier.VerifyPdf` | api/src/documents/pdf/verifier.ts:36-92 | The report is the verdicts of all slots in file order |
| `SampleDocument.SampleIsBaseline` | api/src/documents/documents.service.ts:104-139 | A concrete small file meets every hypothesis made about prepared documents |
| `SampleDocument.OrdinaryFilesWritable` | api/src/documents/pdf/incremental-signer.ts:169-174 | On a file below 10^9 bytes the patched range always keeps its width |
| `SampleDocument.OrdinarySignOutcome` | api/src/documents/pdf/incremental-signer.ts:128-208 | On such a file signing succeeds exactly when the field is unsigned and the signature fits its gap |
| `ProtocolSafety.SigningOrder` | api/src/signing/signing.service.ts:75-112 | In every state any interleaving can reach, retries, rejection, expiry and correction included, each version row names an object carrying exactly the signatures of the first parties in the order agent, employee, MD, each in its own widget, all valid; a FINAL row has three |
| `ProtocolSafety.RecordsMatchStore` | api/src/documents/documents.service.ts:350-398 | Every version and document row names an existing object that hashes to it, whatever was rolled back, and through crashes between an object's write and its rows' commit |
| `ProtocolSafety.StepKeeps` | api/src/signing/signing.service.ts:139-429 | Every step, in any interleaving, keeps the document invariant |
| `LateCompletions.CompletedIsExecuted` | api/src/signing/signing.service.ts:232-370 | A COMPLETED agreement has exactly one FINAL document, executed by all three parties in order with three valid signatures, whatever the interleaving; it is the one the current version shows **if and only if** it was stored under that version |
| `LateCompletions.CompletedIffFinal` | api/src/signing/signing.service.ts:339-367 | Over every interleaving an agreement is COMPLETED exactly when it has a FINAL document, the last one stored |
| `LateCompletions.CompletedShowsFinal` | api/src/signing/signing.service.ts:232-370 | When steps act on the version they read, a completed agreement shows the FINAL document of its current version, executed over that version's prepared document |
| `LateCompletions.FinalShownIff` | api/src/signing/signing.service.ts:251-262 | The MD's completion leaves a FINAL current document **if and only if** it had read the current version |
| `LateCompletions.StaleFinalHappens` | api/src/signing/signing.service.ts:232-262 | A run to COMPLETED at version 2 whose FINAL document is version 1's, with two voided signatures recorded for it and three on it, while version 2 shows one without the MD's |
| `LateCompletions.CompletionExtendsIff` | api/src/signing/signing.controller.ts:94-98 | In a state reached by steps on current versions, a completion stores a document that extends the prepared document of the version it is stored under **if and only if** its transaction is of that version, when the two versions' prepared documents are not prefixes of each other |
| `LateCompletions.LateCompletionHappens` | api/src/signing/signing.controller.ts:94-98 | A run in which the agent's outcome for version 1 completes in version 2: the signed document does not extend version 2's prepared one, and the ceremony open there is left behind, so the coupling fails |
| `LateCompletions.VoidedKeptIff` | api/src/workflow/workflow.service.ts:228-249 | The voided counts of closed versions stay right **if and only if** a completion had read the current version |
| `LateCompletions.StaleCompletionHappens` | api/src/signing/signing.service.ts:232-262 | A run in which version 1, closed with no signature voided, gets a signed document afterwards |
| `LateCompletions.CouplingKeptIff` | api/src/signing/signing.service.ts:232-276 | A completion keeps the coupling **if and only if** its own transaction is open or none is |
| `LateFailures.StepCouplesIff` | api/src/signing/signing.service.ts:139-429 | A step of the finest interleaving keeps the coupling **if and only if** it meets its condition: a completion, that its transaction is open or none is; a failure, that it takes no edge or no other transaction is open; an opening, that nothing is open, its version is current and the status fits; every other step always |
| `LateFailures.RunCouplesIff` | api/src/signing/signing.service.ts:139-429 | A run is coupled throughout **if and only if** every completion, failure and opening in it meets its condition |
| `LateFailures.FailureKeepsIff` | api/src/signing/signing.service.ts:394-429 | The case of a failure: neither the status nor the version of its own transaction is looked at |
| `LateFailures.OpeningKeepsIff` | api/src/signing/signing.service.ts:163-217 | The case of a request that opens its transaction late |
| `LateFailures.LateFailureHappens` | api/src/signing/signing.service.ts:394-429 | A run in which one failed transaction causes two failure transitions: the second takes down the ceremony of the next version and leaves its transaction open |
| `LateFailures.OvertakenRequestHappens` | api/src/signing/signing.service.ts:163-202 | A run in which a request overtaken by expiry and correction opens a transaction on the closed version |
| `LateFailures.StepTalliesIff` | api/src/signing/signing.service.ts:232-429 | A step of the finest interleaving keeps successes, signed transactions and signed documents equally many, and failure transitions within failed transactions, **if and only if** the transaction it resolves was not signed and, if it had failed and an edge or success is booked again, some failed transaction caused no transition |
| `LateCompletions.GenerationNeverStale` | api/src/agreements/agreements.service.ts:483-528 | A generation that read an earlier version never commits, in any interleaving: that version has its prepared document |
| `LateCompletions.Circumstances` | api/src/documents/documents.service.ts:104-139 | The hypotheses of these runs can be met, for every hash, with a check that accepts exactly one signature for each content and tells contents apart |
| `HonestRuns.HonestSlot` | api/src/documents/documents.service.ts:147-253 | On a document the first k parties signed, the next party's honest ceremony goes through end to end: prepared, reopened as it was, filled, every check passed |
| `HonestRuns.CeremonyAdvances` | api/src/signing/signing.service.ts:139-370 | Whenever it is a party's turn, its honest ceremony commits and then it is the next party's |
| `HonestRuns.HonestVersionCompletes` | api/src/signing/signing.service.ts:139-370 | Every prepared document can be executed: three honest ceremonies complete the agreement |
| `ProtocolLedger.LogReplays` | api/src/workflow/workflow.service.ts:71-161 | The transition log is one path of the table from DRAFT to the current status, AGENT_SIGNED and EMPLOYEE_SIGNED are never committed, the closed versions are exactly 1 to current - 1 |
| `ProtocolLedger.StepLedger` | api/src/workflow/workflow.service.ts:71-161 | Every step of every interleaving keeps the ledger invariant |
| `Executions.SignatureExtends` | api/src/documents/documents.service.ts:201-253 | The count check and the "already signed" check force the order: a completion that passes the integrity assertion on a document with k signatures was the k-th party's and gives an in-order document with k + 1 |
| `Executions.EarlierStayValid` | api/src/documents/documents.service.ts:229-240 | The earlier signatures all verify in whatever the slot is filled with |
| `VersionAccounting.VoidedSignatures` | api/src/workflow/workflow.service.ts:228-249 | Each `voided_signature_count` equals the number of signatures in the closed version's last document |
| `VersionAccounting.CountIsLevel` | api/src/workflow/workflow.service.ts:228-240 | Counting a version's signed rows gives the number of parties who signed its last document |
| `VersionAccounting.SignedExtendsPrepared` | api/src/signing/signing.service.ts:139-226 | When transactions are resolved on their own version, every document of version v extends the prepared document of v byte for byte |
| `VersionAccounting.CompletionGuard` | api/src/signing/signing.service.ts:232-370 | When a completion commits: if and only if the filled document passes, its key, row and file are free and the status is the party's signing state; neither the transaction's status nor its version is looked at |
| `Outcomes.CompletionExecutes` | api/src/signing/signing.service.ts:232-370 | Over every run: a completion that changes a row stores one new document, all of whose signatures are valid, whose newest covers the whole file but its gap, bytes that hash to the digest sent to the provider, and holds the signature the provider gave; the row, the transaction and the next status go with it |
| `Outcomes.AnswerDecides` | api/src/signing/signing.service.ts:251-391 | What each answer of the provider leads to: anything but a signature fails the ceremony, and so does a parked document that does not hash to the digest or a file with a signature that does not verify; a pending answer changes nothing |
| `Outcomes.FailsExactly` | api/src/signing/signing.service.ts:394-429 | A failed ceremony: its transaction, and the status if the agreement is in a signing state; no row, document or other transaction |
| `SigningAttempts.AttemptsNumbered` | api/src/esign/esign.service.ts:71-119 | Over every interleaving attempts of a party on a version are numbered 1, 2, ... without gap, one of them at most is open, and each is for a document of its version, by its hash |
| `VersionAccounting.EarlierSignaturesSurvive` | api/src/documents/documents.service.ts:227-240 | In a reachable state a failed integrity check can only come from the new signature |
| `Outcomes.GeneratesExactly` | api/src/documents/documents.service.ts:104-139 | Generation, from a template or an upload, commits **if and only if** the agreement is a draft, the role is held, none of its object names or files is taken and the version has no document: an object left by a rolled-back attempt blocks the next one in the same month |
| `Outcomes.GenerationStores` | api/src/documents/documents.service.ts:104-139 | It then stores each document under its own new key, with one row that names the prepared one, and hands the draft to the agent; otherwise no row changes |
| `AtomicProtocol.AtomicRunsCoupled` | api/src/signing/signing.service.ts:139-226 | With ingest and apply as one step, in every reachable state each open transaction is on the current version, at most one is open, and its party's signing state is the status unless the agreement is rejected, expired or cancelled; and the run is one to which the version theorems apply |
| `AtomicProtocol.StepCoupled` | api/src/esign/esign.service.ts:182-189 | Every atomic step keeps the coupling, a request that stops after any of its parts included |
| `AtomicProtocol.StepIsRun` | api/src/signing/signing.service.ts:394-429 | Every atomic step is a sequence of the finest steps, each on its own version |
| `CallbackConfluence.Confluence` | api/src/esign/esign.service.ts:131-190 | Any number of callbacks, interim, decisive, duplicated, late, forged or for unknown transactions, and of reconciliation passes, before and after the provider decides, in any order and over any months: but for the ledger, the state afterwards is that of attempting to resolve the open transaction at the arrivals that ask for it (decisive events with a new identifier, passes after the decision), up to the first attempt that does not throw |
| `CallbackConfluence.ConfluenceInOneMonth` | api/src/jobs/scheduled-jobs.service.ts:51-71 | Within one month neither order nor number matters: the state is that of resolving the transaction once if some arrival asks for it, and the old one otherwise |
| `CallbackConfluence.ConfluenceOverMonths` | api/src/documents/documents.service.ts:350-363 | Over several months the rows are those of resolving it in the first month in which that does not throw: an object left over in one month does not block another |
| `CallbackConfluence.ResolvedStays` | api/src/esign/esign.service.ts:182-189 | No step changes a transaction once signed, failed, expired or cancelled |
| `Outcomes.IngestExactly` | api/src/esign/esign.service.ts:131-190 | An event changes the ledger, and only it, exactly when it authenticates and is new; it is unmatched, stale or applied exactly when its transaction is unknown, resolved or open |
| `Outcomes.DeliveryActs` | api/src/esign/esign.service.ts:131-190 | A delivery acts on the agreement only for an authentic new event that names an open transaction |
| `Outcomes.DeliveryDecides` | api/src/signing/signing.controller.ts:104-121 | What it then does is decided by the status the event reports: nothing while pending, a failed ceremony for anything but a signature, and for a signature what the provider answers when asked |
| `Outcomes.DeliveredOnce` | api/src/esign/esign.service.ts:157-170 | Delivering an event again changes nothing, whatever the provider answers then |
| `CallbackConfluence.ResolveTwice` | api/src/signing/signing.controller.ts:104-121 | A resolution that threw changed no row and does the same again; any other leaves nothing open |
| `CallbackConfluence.FailCommits` | api/src/signing/signing.service.ts:394-429 | Failing a signature never aborts: the failure edge of the status just read exists |
| `Conservation.RunTallied` | api/src/signing/signing.service.ts:232-429 | Over every atomic run, success transitions, signed transactions and signed documents are equally many, and failure transitions at most as many as failed transactions |
| `Conservation.StepTallied` | api/src/signing/signing.service.ts:232-429 | Every atomic step keeps these counts in balance |
| `StateMachine.OfferedIffAllowed` | api/src/workflow/state-machine.ts:295-332 | An action is offered exactly when the gate would admit it with some reason |
| `Guards.GateIff` | api/src/workflow/state-machine.ts:88-324 | The gate, told by statuses, roles and reasons alone: who may do what from where, and that only rejections and cancellations need a reason of ten characters |
| `Guards.RefusalMeans` | api/src/workflow/state-machine.ts:301-321 | A refusal names what is missing: an edge that no role and reason make up for, a role that no reason makes up for, or the reason |
| `Guards.MoveExactly` | api/src/workflow/workflow.service.ts:71-145 | A transition is made exactly when permitted, leads where its name says, raises the counter by one, logs one entry and changes nothing else |
| `StateMachine.InboundEdges` | api/src/workflow/state-machine.ts:78-198 | The exact inbound edges of the waiting states: one from the signing order and one retry each |
| `StateMachine.TerminalEdges` | api/src/workflow/state-machine.ts:268-275 | Completed and cancelled agreements have no edge out, rejected and expired ones only CORRECT |
| `StateMachine.OrderIffOwnRetries` | api/src/workflow/state-machine.ts:88-266 | Along any path from DRAFT the signatures since the last correction are at every moment those the status asks for, **if and only if** every retry is taken as the party whose ceremony failed just before |
| `StateMachine.CompletesInOrder` | api/src/workflow/state-machine.ts:88-266 | A path to COMPLETED with such retries only has the successes of agent, employee and MD since its last correction, in this order |
| `StateMachine.TableAdmitsEarlyCompletion` | api/src/workflow/state-machine.ts:181-198 | Against the comment at lines 78-86: a path of the table reaches COMPLETED without an agent or employee signature, through the shared failure state |
| `SigningService.Agreement.Transition` | api/src/workflow/workflow.service.ts:71-145 | Gate, status, counter and log, or no change |
| `SigningService.Agreement.TransitionChain` | api/src/workflow/workflow.service.ts:152-161 | The loop commits all its transitions or none |
| `SigningService.Agreement.StoreDoc` | api/src/documents/documents.service.ts:350-398 | The object first, then its rows; a failed row leaves the object behind |
| `SigningService.Agreement.GenerateVersion` | api/src/documents/documents.service.ts:104-139 | Generation from a template or an upload: tables all or nothing, objects kept |
| `SigningService.Agreement.InitiateSignature` | api/src/signing/signing.service.ts:139-226 | The request as specified: state first, then slot, then transaction, then its parked key; what it asks and leaves is `Guards.InitiateExactly` |
| `Guards.InitiateExactly` | api/src/signing/signing.service.ts:139-226 | A request to sign by anyone but the party, in another state, or presenting another hash than the current document's leaves the whole world as it was. Any other moves the agreement to the party's signing state and opens at most one transaction, which carries the hash presented and the digest of what is to be signed; run to its end with nothing in its way it opens it and links it to what is parked |
| `Guards.StartStep` | api/src/signing/signing.service.ts:151-175 | The check alone, in the finest interleaving: exactly a request that may start changes anything |
| `Guards.ShownIsStored` | api/src/signing/signing.service.ts:147-157 | Over every run: whoever starts a ceremony, in either interleaving, is the party and presented the hash of the very bytes stored as the current document |
| `Guards.ParkMeans` | api/src/documents/documents.service.ts:161-183 | At most one object more: the prepared document, under a key of party and version that starts the digest; what is parked there already stays |
| `SigningService.Agreement.FillParked` | api/src/documents/documents.service.ts:201-240 | Reopen, compare digests, fill, assert integrity; digest and integrity failures are told apart from the rest |
| `SigningService.Agreement.CompleteCeremony` | api/src/signing/signing.service.ts:232-391 | Document, transaction and status commit together; an integrity failure fails the ceremony instead; anything else rolls back and throws |
| `SigningService.Agreement.IngestCallback` | api/src/esign/esign.service.ts:131-190 | Authenticate, claim the identifier once, match, drop what is resolved; nothing but the ledger changes |
| `SigningService.Agreement.ReconcileAll` | api/src/jobs/scheduled-jobs.service.ts:51-71 | The pass resolves the transactions found open in order and stops with the first that throws |
| `SigningService.PassSplits` | api/src/jobs/scheduled-jobs.service.ts:54-69 | A pass goes on after transactions exactly as long as resolving them does not throw: the rest is resolved from the world they leave, or not looked at |
| `SigningService.Agreement.CorrectVersion` | api/src/workflow/workflow.service.ts:216-283 | Version closed with its voided count, open transactions cancelled, next version opened, or nothing |
| `Guards.CorrectExactly` | api/src/workflow/workflow.service.ts:216-283 | A correction goes through exactly from a rejected or expired agreement whose version is not closed; it closes the version with the number of its signed documents, cancels what is open on it and opens the next as a draft |
| `Guards.RejectExactly` | api/src/signing/signing.service.ts:431-475 | A rejection goes through exactly for the employee or the MD while it is that party's turn, with a reason, once there is a document |
| `AuditChain.CommittedRowsFormOnePath` | api/migrations/009_audit_immutability.ts:22-61 | For every schedule of draws, appends, commits and rollbacks the committed rows form one hash-linked path from the zero hash to the head, as long as the recorded count, no identifier twice; which rows these are is the next result |
| `AuditChain.CommittedRowsAreSurvivors` | api/migrations/009_audit_immutability.ts:26-60 | They hold exactly what was inserted by transactions that went on to commit, in the order of the inserts, told from the events alone: identifiers, texts and unhashed columns |
| `AuditChain.CommitKeepsAll` | api/migrations/009_audit_immutability.ts:26-60 | A commit keeps every row its transaction inserted since it last ended |
| `AuditChain.RollbackUndoes` | api/migrations/009_audit_immutability.ts:26-60 | A rollback leaves committed rows, head hash and count as they were, and its transaction without lock and rows |
| `AuditChain.CommittedStay` | api/migrations/009_audit_immutability.ts:26-60 | Rows committed once stay where they are |
| `AuditChain.IntactIffInOrder` | api/src/audit/audit.service.ts:132-203 | On every such chain `verifyChain` reports intact **if and only if** the rows were committed in identifier order |
| `AuditChain.OutOfOrderHappens` | api/migrations/009_audit_immutability.ts:27-40 | Two concurrent transactions suffice to commit rows out of identifier order |
| `AuditChain.HashesDistinct` | api/migrations/009_audit_immutability.ts:40-51 | The row hashes of a chain are pairwise distinct |
| `AuditChain.HeadCommits` | api/src/audit/audit.service.ts:136-175 | Two chains that pass the row checks and end in the same hash have the same length, texts, links and hashes |
| `AuditChain.ExcisionFound` | api/src/audit/audit.service.ts:154-172 | Cutting out any block before the tail is reported at the first surviving row after it |
| `AuditChain.TruncationFound` | api/src/audit/audit.service.ts:190-200 | Cutting off the tail passes every row check and is found by the count |
| `AuditChain.EditFound` | api/src/audit/audit.service.ts:120-123 | Changing a row's hashed text is reported at that row |
| `AuditChain.RewriteFound` | api/src/audit/audit.service.ts:154-202 | Changing text and hash is reported at the next row, and goes unnoticed at the last: the head hash is not compared |
| `AuditChain.ExtraUnprotected` | api/migrations/009_audit_immutability.ts:41-51 | Columns outside the hashed text can change without notice |
| `AuditChain.AuditTable.InsertRow` | api/migrations/009_audit_immutability.ts:26-60 | Under the lock: previous hash, row hash, head and count; refused while another transaction holds the head |
| `AuditChain.AuditTable.RollbackTransaction` | api/migrations/009_audit_immutability.ts:26-60 | The trigger's insert and head update undone as specified; what that leaves is `AuditChain.RollbackUndoes` |
| `WriteOnce.PutIsWriteOnce` | api/src/documents/storage/storage.driver.ts:186-221 | Over every interleaving of any number of calls, each of which may fail or crash at any step: a visible object holds one linking call's complete bytes, at most one call succeeds, and exactly the calls that could not clean up leave a temporary name; that calls do succeed is `WriteOnce.PutGoesThrough` |
| `WriteOnce.PutGoesThrough` | api/src/documents/storage/storage.driver.ts:196-220 | A call that meets no failure and no crash, its bytes written in pieces of any size, among any other calls at any point: it answers whether the key was free when it came to link; if so exactly its bytes are visible from then on, if not what was visible still is |
| `WriteOnce.LinkDecides` | api/src/documents/storage/storage.driver.ts:205-209 | After any live flushed call links, the key is visible; it is the winner exactly when the key was free just before, and refused otherwise |
| `WriteOnce.AnswersTell` | api/src/documents/storage/storage.driver.ts:205-220 | A call that did not fail and came back leaves the key visible; its answer says whether the visible file is its own |
| `WriteOnce.StoppedNeverWins` | api/src/documents/storage/storage.driver.ts:206-214 | A call that fails or crashes before it has linked never wins, whatever follows |
| `WriteOnce.VisibleNeverChanges` | api/src/documents/storage/storage.driver.ts:180-185 | Once visible, an object is the same file with the same bytes ever after |
| `WriteOnce.TemporariesLeft` | api/src/documents/storage/storage.driver.ts:211-214 | A call that returned and whose clean-up worked leaves no temporary name; one cut short after creating it does |
| `Stamps.StampsStayExclusive` | api/src/stamps/stamps.service.ts:175-280 | In every state reachable by serialised steps a stamp is AVAILABLE exactly when it has no live allocation, no stamp and no agreement has two, a USED stamp belongs to a completed agreement, and identifiers are unique |
| `Stamps.UsedForever` | api/src/stamps/stamps.service.ts:234-252 | USED is never left while only cancelled agreements release |
| `Stamps.CompletedUses` | api/src/stamps/stamps.service.ts:238-252 | The stamp a completing agreement holds is used from then on |
| `Stamps.HeldStampFollows` | api/src/stamps/stamps.service.ts:238-280 | Completing uses up exactly the stamp held, releasing a cancelled agreement frees exactly it; in any other state neither changes anything |
| `Stamps.AllocatesExactly` | api/src/stamps/stamps.service.ts:175-232 | Allocation succeeds **if and only if** the stamp is free and the agreement holds none, and adds one allocation |
| `Stamps.RegistersExactly` | api/src/stamps/stamps.service.ts:53-166 | Registration succeeds **if and only if** something usable is entered, the printed number is new and no identifier clashes with the register or another one entered; it adds one available stamp with all of them |
| `Stamps.AssembledIs` | api/src/stamps/stamps.service.ts:59-65 | What is entered is kept as entered, the stamp's own number first when nothing entered says it |
| `Stamps.KeepIs` | api/src/stamps/stamps.service.ts:65 | Exactly the identifiers of six letters and digits or more are used |
| `Stamps.AllocationKept` | api/src/stamps/stamps.service.ts:254-258 | Only its own release ends an agreement's allocation; rejection, expiry and correction change neither stamp nor allocation |
| `Stamps.ReleaseExact` | api/src/stamps/stamps.service.ts:259-280 | A release with a stale read keeps exclusivity **if and only if** the allocation is still live or its stamp is held by nobody |
| `Stamps.DoubleReleaseFrees` | api/src/stamps/stamps.service.ts:259-280 | Two releases that read the same allocation, with another agreement allocating in between, leave the stamp AVAILABLE while held |
| `Stamps.IdentifiersStayUnique` | api/src/stamps/stamps.service.ts:97-166 | Registration never gives one normalised identifier or one printed number to two stamps |
| `Stamps.SameNumber` | api/src/stamps/stamps.service.ts:32-33 | Two numbers normalise the same **if and only if** their letters and digits agree up to case, the letters being told by the two alphabets: separators and case make no other number, and nothing else makes the same |
| `Stamps.NormalizeTwice` | api/src/stamps/stamps.service.ts:32-33 | Normalising is idempotent |
| `Stamps.StampTable.RegisterPaper` | api/src/stamps/stamps.service.ts:53-166 | Stamp and identifiers together, or nothing when the printed number or an identifier is taken or no identifier is usable |
| `Stamps.StampTable.AllocateTo` | api/src/stamps/stamps.service.ts:175-232 | Allocation and status together, or nothing; on success the agreement holds the stamp |
| `Counters.CommittedNumbers` | api/migrations/010_agreement_numbering.ts:23-41 | Under every schedule of draws, commits and rollbacks the committed numbers are exactly 1 to k; identifiers of one prefix, and identifiers under every choice of prefixes by the calls, are pairwise distinct **if and only if** k is below 10^width |
| `Counters.CommittedAreSurvivors` | api/migrations/010_agreement_numbering.ts:23-41 | Every draw of a transaction that goes on to commit is committed under the number it was given, told from the events alone: none is left out and no two share a number |
| `Counters.RenderReads` | api/migrations/010_agreement_numbering.ts:38 | An identifier is its prefix and, below the limit, a numeral of fixed width that reads back as the number |
| `Counters.DistinctExactlyBelow` | api/migrations/017_execution_reference.ts:79-80 | The numerals 1 to k render distinctly exactly when k is below 10^width |
| `Counters.ReferencesClash` | api/migrations/017_execution_reference.ts:74-80 | When the prefix varies by call, as the bank code does, two references of a counter clash exactly where their prefixes agree and their cut numerals do |
| `Counters.DistinctForEveryPrefix` | api/migrations/017_execution_reference.ts:74-80 | The first k references are distinct whatever the prefixes **if and only if** k is below 10^width |
| `Counters.Wraps` | api/migrations/010_agreement_numbering.ts:38 | `lpad` cuts the numeral of 10^width to that of 10^(width - 1) |
| `Counters.NumbersRunOut` | api/migrations/017_execution_reference.ts:62-83 | The concrete limits: agreement number 1,000,000 reads like 100,000, execution reference 1000 like 100 |
| `Counters.CounterRow.DrawNumber` | api/migrations/010_agreement_numbering.ts:29-38 | Increment under the row lock and the rendered previous value; refused while another transaction holds the row |
| `RateLimit.AtMost` | api/src/verification/verification.controller.ts:15-24 | With a clock that does not go back, any 60,000 ms interval of any sequence of calls admits at most 2n - 1 of a key (one when n is 0) |
| `RateLimit.BoundIsTight` | api/src/verification/verification.controller.ts:15-24 | For every n at least 1 some sequence of calls meets the bound |
| `RateLimit.WindowExact` | api/src/verification/verification.controller.ts:15-24 | A call that finds no window, or one that is over, is let through however often the key was turned away before, and of the calls in the 60,000 ms from there exactly the first n are |
| `RateLimit.RateLimiter.Allow` | api/src/verification/verification.controller.ts:10-25 | The answer and the new entry of the key, every other key untouched |

The remaining methods are the refinement link only: straight-line updates whose contracts equate the new state with a function of
the old one, so that the results above speak of the classes. They are `BeginSignature`, `FailCeremony`, `Apply`, `ReceiveCallback`,
`RejectVersion` and `Rollback` of `SigningService.Agreement`; `DrawId` and `CommitTransaction` of `AuditChain.AuditTable`; `MarkUsed` and
`ReleaseFrom` of `Stamps.StampTable`; `CommitNumbers` and `RollbackNumbers` of `Counters.CounterRow`.

## Left out

- `SigningTheorems.SigningKeepsSignable`: assumes texts without markers and within 100,000 characters, and bodies of unsigned signature fields within 500,000, because the signer has to read what it writes and its window is 512 KiB; other objects may have any size, but an entry must not point at an object that is cut off by the end of the file.
- `Preservation.SignOutcome`: assumes that exactly one indexed object carries the field's name, as a prepared document has; with several the search takes the first in index order, which `FindFieldByName` states.
- `DictionaryText.SignedRecords`: its reader lets a backslash give way to any character; the octal and control escapes of literal strings, which the writer never emits, are not part of it.
- `Preservation.PrepareOutcome`: takes the date of the appearance as text; clock and time zone of `pdfDate` are not part of this model.
- `VersionAccounting.SignedExtendsPrepared`: assumes that each step acts on the version it read, because `completeSignature` does not check it; `LateCompletionHappens` is a run in which it fails, and `CompletionExtendsIff` says when.
- `VersionAccounting.VoidedSignatures`: the same; `StaleCompletionHappens` and `VoidedKeptIff`.
- `LateCompletions.CompletedShowsFinal`: the same; `StaleFinalHappens` and `FinalShownIff`.
- `AtomicProtocol.AtomicRunsCoupled`: takes ingest and apply as one step; `LateCompletionHappens`, `LateFailureHappens` and `OvertakenRequestHappens` are runs in which the coupling fails otherwise, and `StepCouplesIff` says exactly when, step by step.
- `CallbackConfluence.Confluence`: speaks of the arrivals for one agreement with one open transaction, whose final status is fixed; a reconciliation pass is one arrival for each transaction it visits, and that a throwing one ends the pass is stated by `PassSplits` instead.
- `CallbackConfluence.ConfluenceInOneMonth`: takes all arrivals in one month, because the object's name holds it; `ConfluenceOverMonths` is the statement for several, on the rows alone, since attempts that throw may leave objects.
- `Conservation.RunTallied`: bounds failure transitions by failed transactions instead of equating them, because a transaction that fails after a rejection or expiry takes no edge; for single steps of the finest interleaving `StepTalliesIff` says exactly when the balance is kept.
- `Stamps.StampsStayExclusive`: assumes the allocation read is still live when it is written, which the agreement's row lock gives `markUsed`; `ReleaseExact` says when it matters for `release`, which has no caller in api/src.
- `Counters.CommittedNumbers`: models one key of the counter table; keys do not share a row.
- `RateLimit.AtMost`: assumes a clock that does not go back.
- `AuditChain.HeadCommits`: commits to the concatenated text of a row, not to its columns, because the trigger joins them without separators.
- `WriteOnce.PutIsWriteOnce`: takes temporary names to be distinct; a collision of their 96 random bits is not part of this model.
- Text: documents are Latin-1, characters above U+00FF in signer texts and `parseInt` beyond 2^53 are not modelled; upper-casing in stamp identifiers is ASCII only.
- Rendering, upload conversion and preparation: library calls whose results are parameters, a prepared document being assumed a baseline.
- SHA-256, CMS and certificate parsing: parameters, as are signer names and serials in the report.
- Object keys are structured values: the agreement number with its replaced slashes and the calendar year are not part of them.
- The order of version rows by `created_at` is taken as the order of insertion.
- The two open statuses of a transaction, INITIATED and PENDING_SIGNER, are one; the ledger row of a callback whose signature fails is left out, since its random identifier matches no event.
- SLA deadlines: expiry may happen at any time.
- `signature_events`, notifications, audit rows written inside the signing transaction, verification tokens and execution references: rows beside the ones modelled, without effect on them.
- The row version counts transitions only; draft edits that also raise it are not modelled.
- Stamp fields other than identifiers, the CANCELLED stamp status, and whether an agreement type requires a stamp.
- Durability: `fsync`, health probing and mount points.
- Signed URLs, stamp OCR, the legacy approval states beyond their place in the status type, controllers other than the callback, and the web client.
