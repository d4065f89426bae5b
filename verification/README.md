# Verification of the execution-assurance core

The repository records consequential agent actions in a ledger, binds each approval to the exact
call it permits, exports the ledger as a hash-chained journal, anchors the journal with checkpoints
and a witness, and keeps sensitive payloads beside the chain under a retention schedule. This
project models that behaviour in Dafny and proves what the design promises of it. Run
`dafny verify dfyconfig.toml` in this directory.

## Layout

| files | subject |
|---|---|
| Principals, Ledger, History, Evolution, Readings, Transactions, ExecutionLedger | the ledger: transactions as functions, their invariants over every run, what the mark bounds, when each of them succeeds, and the database object whose methods run them in place |
| Protocol, AtMostOnce, Settlement, Interleaving, Authorisation, Outcomes | any number of crashing workers over one ledger, as a transition system; the clients as its workers; from the approval to the call, and from the answer to the row |
| Clients, ClientTheorems | PaymentGuard, ToolGuard and Verifier as objects that run the protocol |
| PaymentWorld, Arms, ArmTheorems, ArmOutcomes | the six arms of the ablation, for every scenario |
| Json, JsonRoundTrip, JsonPrefix, JsonText, JsonGrammar, Sorting, Lines | JSON text (RFC 8259, sections 2 to 7): parser, printer and grammar; sorting by code point; lines |
| Canonical, CanonicalTheorems, CanonicalText | canonical form |
| Binding, BindingTheorems, Scope, ScopeTheorems | declared equivalences and the scope digest |
| Export, ExportTheorems, HonestExport, Violations, Listing, Differences, Reconciliation, LedgerExport | the hash chain, its verifier and what it reports, and reconciliation with the ledger |
| Witness, Checkpoint, FreshnessTheorems, AnchoredJournals | the monotone witness, freshness, and the way from a ledger's run to the report |
| RecordFormats | what is written under which name: events, checkpoints, scopes, arguments |
| Counterexamples | inputs at which the promises of export, checkpoint and reconciliation fail |
| Retention, Payload, PayloadTheorems | the retention schedule and the payload store |

An object that the program updates in place is a class here; each of its methods states its whole
effect as a function of the state before, and the theorems are about those functions. A clock is an
arbitrary function from the k-th reading of an operation to a real: nothing relates the readings of
different operations, so clocks may stop, jump and run backwards.

## What is assumed

Every assumption is an explicit `requires` of the theorems that need it.

- Hashes. SHA-256 is an arbitrary function on text. Nothing is assumed about all texts: a theorem
  asks only that no two of the texts hashed in the situation at hand share a digest
  (`NoCollision`), for chains also that none of them has the genesis hash (`ApartFromGenesis`), and
  that a digest is ASCII text, of 64 characters where a chain is cut apart again.
- Unicode. NFC, NFKC, case folding and stripping are arbitrary functions; NFC is idempotent and leaves
  ASCII alone, and the folding of principals leaves the allowed ASCII characters alone (UAX #15).
- Floats. A finite float is identified with the text its repr prints; converting an integer is an
  arbitrary partial function into such texts.
- str() of a key is an arbitrary function; that it tells the keys of events apart is asked for only where the
  listing of a report is pinned down. Equality of parsed values is a parameter: it tells texts from everything
  else, and for the differences of a reconciliation it is reflexive and symmetric.
- Signatures and AES-GCM are abstract: a predicate on text and signature, and a blob that opens under
  the key and the id it was sealed with.
- Honesty, for the statement that settled states tell the truth: a reply says what the call did, a
  lookup and a postcondition say what the world is like, a call whose reply was lost changes the world
  no later than it raises, and recovery runs only after the claiming worker is gone. The bound on the
  number of calls needs none of this.

## What the proofs turned up

- An honest export need not verify. `export_ledger` writes json.dumps output with `ensure_ascii=False`,
  so U+0085, U+2028 and U+2029 stay in the line, and `verify_export` cuts lines with str.splitlines,
  which breaks at all three. `HonestExport.HonestExportVerifiesExactlyWhen` gives the exact condition,
  `Counterexamples.HonestExportCanFail` a ledger of one execution whose export fails.
- A stored payload need not be readable. `put` accepts a string of up to 65536 characters; NFC may
  lengthen it; `get` digests the longer string and refuses it. `PayloadTheorems.GetAfterPut` gives the
  exact condition, `PayloadTheorems.StoredButUnreadable` an instance.
- The mark does not bound every reading the ledger keeps. `created_at` and `approved_at` are read in the
  INSERT and the UPDATE themselves and never observed; the event of the same transaction reads the clock
  again. If the clock goes back in between, a row holds a reading past a lease's expiry and the lease is
  still claimed (`Readings.UnobservedReadingIsIgnored`). `Readings.RowsBoundedExactlyWhen` gives the exact
  condition, `Readings.NoReadingRevives` what holds under it, `Readings.OnlyTheMarkDecides` what holds
  always.
- A journal whose records name their hash `record_hash` verifies, but no checkpoint can be made or
  checked for it: `journal_tip` knows `event_hash` only (`FreshnessTheorems.TipReadableExactlyWhen`,
  `Counterexamples.VerifiedWithoutTip`).
- `dumps` has no length bound and `loads` has one (`CanonicalTheorems.LoadsInvertsDumps`,
  `CanonicalTheorems.DumpsCanOutgrowLoads`).
- The report of a fork at the witnessed sequence has the verdict "current" although it is not ok
  (`FreshnessTheorems.OkExactlyWhen`, `Counterexamples.ForkIsCalledCurrent`).
- Reconciliation lists what differs by printed key, not in the order of the log: an approval comes before the
  creation it follows (`Listing.ListedInLogOrderExactlyWhen`, `Counterexamples.ReportIsNotInLogOrder`).
- Reconciliation compares a record that has a field `body` by that field alone, and compares sets: such a
  record may say anything else (`Reconciliation.OkReconciliationExactlyWhen`,
  `Counterexamples.DisguiseReconciles`).
- Where code and documents differ the model follows the code: there is no LEASE_CLAIMED state, although
  ADR-002 draws one; `revoke` logs that it left APPROVED also when it left CREATED; the refusals of
  `approve` and `reconcile` are logged in a second transaction whose `from_state` may be stale; evidence
  may overwrite the reconciler named in an event, so the reconciler is replayed from the run; invariant
  3B holds for each execution row, because `create` does not look for an UNKNOWN sibling; a tool that is not
  consequential is called without any record, although the docstring of `guarded` says it is recorded.

## Model

The table lists the theorems first, in the order of the layout above. From `Evolution.EverySpellingIsRefused` on follow
statements that spell out single definitions, every name and number in them written out. The operations come last, from
`ExecutionLedger.Database.ObserveClock` on: the methods that run the program's steps in place, each proved to do, on
the whole state and reply, what the function does that the theorems are about.

| member | source | states |
|---|---|---|
| Principals.NormalizeIsIdempotent | core/ledger.py:115-127 | a normalised principal is a non-empty string over the allowed characters and normalises to itself |
| Principals.ImageIsExactlyThePrincipals | core/ledger.py:78-127 | normalisation yields exactly the non-empty strings over `PRINCIPAL_CHARS` |
| Principals.LookAlikesAreThePrincipal | core/ledger.py:83-127 | a principal in any letter case or compatibility form, with white space around it, is that principal |
| History.RunIsSound | core/ledger.py:252-504 | every run keeps rows, leases, log and mark consistent: one row per execution, unique leases, events numbered and their readings within the mark, each row explained by its events |
| Evolution.LogIsACompleteRecord | core/ledger.py:200-225 | the recorded target states of an execution form a path of the state graph ending in its state, with at most four transitions after creation and at most one claim |
| Evolution.ClaimFollowsApproval | core/ledger.py:345-399 | a dispatched execution has a created, an approved and a lease_claimed event, in that order |
| Evolution.RunEvolves | core/ledger.py:171-504 | in every continuation the log is only appended to, the mark never falls, rows keep their intent, lease and dispatcher, and states only advance |
| Evolution.TerminalIsAbsorbing | core/ledger.py:401-466 | nothing in a row in a terminal state ever changes again |
| Evolution.ClaimSucceedsExactlyWhen | core/ledger.py:345-399 | a claim returns an execution exactly if the lease is its, it is approved, the digest matches, and the reading lies between the mark and the expiry; then only that row moves |
| Evolution.LapsedLeaseNeverRevives | core/ledger.py:171-198 | once the mark or a reading in the log has passed a lease's expiry, no continuation under any clock behaviour claims it |
| Readings.RowsBoundedExactlyWhen | core/ledger.py:171-343 | at every moment of a run the mark bounds `created_at` and `approved_at` of every row exactly if every `create` and `approve` of the run met that condition |
| Readings.NoReadingRevives | core/ledger.py:171-399 | in such a run, once any reading the ledger holds, in the mark, the log or a row, has passed a lease's expiry, no continuation claims it |
| Readings.OnlyTheMarkDecides | core/ledger.py:345-399 | the lease of an approved execution can be claimed by some continuation exactly as long as the mark has not passed its expiry |
| Readings.UnobservedReadingIsIgnored | core/ledger.py:252-267 | a ledger that holds a `created_at` ninety seconds past a lease's expiry and still claims the lease |
| Evolution.RevocationIsFinal | core/ledger.py:401-412 | after a successful revocation the execution stays REVOKED in every continuation and is never claimed |
| Evolution.RecoveryIsExact | core/ledger.py:468-504 | a sweep moves exactly the selected DISPATCHING rows to UNKNOWN and returns exactly their ids, once each |
| Evolution.RecoveryIsolation | core/ledger.py:468-504 | after a claim, no interleaving of other parties' steps moves the row, and the claimant's outcome is still accepted |
| Evolution.DutiesStaySeparate | core/ledger.py:309-343 | in every reachable ledger the approver of each approval and the reconciler of each reconciliation differ from the actor after normalisation |
| Transactions.ApprovesExactlyWhen | core/ledger.py:269-343 | `approve` succeeds exactly on a CREATED execution, by another principal than its actor, for its own digest and a finite period above zero; then the lease, its expiry and the one event |
| Transactions.ApprovalRefusedBecause | core/ledger.py:309-343 | which of the three refusals an approval meets, in their order |
| Transactions.RefusedApprovalIsLogged | core/ledger.py:229-343 | each of those refusals is on the record with the state it met, its reason and the principal; other errors leave no trace |
| Transactions.ClaimEndsExactly | core/ledger.py:345-399 | what becomes of a claim on an issued lease: consumed, for another digest, at a reading before the mark, expired, or dispatched, each with its one event and the mark afterwards |
| Transactions.UnknownLeaseDoesNothing | core/ledger.py:345-356 | a lease nobody was issued changes nothing |
| Transactions.RevokedLeaseIsNeverClaimed | core/ledger.py:345-412 | in every reachable ledger, revoking an approved lease succeeds, and no continuation ever claims it |
| Transactions.RecoversExactly | core/ledger.py:468-504 | which rows a scoped and an unscoped sweep take: they become UNKNOWN and nothing else in any row changes |
| Transactions.TerminalExactlyWhen | core/ledger.py:40 | the states no transition leads out of are exactly the five terminal ones |
| AtMostOnce.NextKeepsSafe | profiles/ap2/payment_guard.py:120-153 | each step of any client, crash or foreign transaction keeps calls plus pending calls within the claims in the log |
| AtMostOnce.AtMostOneDispatch | profiles/ap2/payment_guard.py:120-153 | over every run of any number of crashing workers: calls made plus calls about to be made for an execution never exceed its claims, which never exceed one |
| AtMostOnce.EveryCallWasAuthorised | profiles/ap2/payment_guard.py:120-153 | every external call follows creation, approval and claim of its execution and is made under the digest of its row |
| Settlement.NextKeepsTruth | profiles/ap2/payment_guard.py:140-192 | each step of an honest run keeps every recorded and pending verdict in agreement with the charges |
| Settlement.SettledStatesTellTheTruth | profiles/ap2/payment_guard.py:140-192 | at every moment of every honest run SUCCEEDED means one charge, FAILED and every undispatched state mean none, and nothing is charged twice |
| Settlement.VerifyIsSound | core/verification.py:115-127 | with sound postconditions the combined observation is sound, and inconclusive exactly if every check is |
| Settlement.RetryIsSafeOnlyWhenAbsent | core/verification.py:155-161 | with sound postconditions permission to retry means nothing was charged |
| Outcomes.DispatchEndsAsAnswered | profiles/ap2/payment_guard.py:120-153 | the row of a granted claim, if nobody settles or sweeps it in between: a charge is SUCCEEDED exactly if the processor said so, FAILED exactly if it declined, UNKNOWN exactly if the call raised; a tool's call is SUCCEEDED exactly if it did not raise |
| Outcomes.DispatchedAsAnswered | profiles/ap2/payment_guard.py:128-153 | the same of what one dispatch leaves by itself, with one call more, made after the claim was logged |
| Outcomes.ReconciliationEndsAsProbed | profiles/ap2/payment_guard.py:157-192 | the row of a reconciled execution: SUCCEEDED exactly if the lookup found the charge or a check saw the effect, FAILED exactly if it was found missing, PERMANENTLY_UNRESOLVED exactly if nobody could tell; and UNKNOWN still if the actor reconciles itself |
| Outcomes.ResolutionIsAsProbed | core/verification.py:129-153 | the same of what each probe resolves to |
| Outcomes.RecordedAnswerTellsTheTruth | profiles/ap2/payment_guard.py:140-153 | in every honest run, from the moment the answer of a call that did not raise is recorded: SUCCEEDED exactly if there was one charge, FAILED exactly if there was none, and one of the two |
| Outcomes.AnswerTellsTheTruth | profiles/ap2/payment_guard.py:140-192 | the same of every answer on record, whoever recorded it |
| Authorisation.EveryCallWasApproved | profiles/ap2/payment_guard.py:108-153 | over every run: each external call was made by some step, and an earlier step had approved that very execution under the digest of the call |
| Authorisation.EveryChargeWasApproved | profiles/ap2/payment_guard.py:108-153 | a charge that is called for was approved earlier in the run, and whatever charge the approver saw under that digest was the same one in the same setting |
| Authorisation.EveryToolCallWasApproved | adapters/guarded_tool.py:106-148 | the same of the calls of guarded tools |
| Authorisation.ReboundClaim | core/scope.py:197-218 | an approved lease, presented with its scope resolved anew, is granted exactly if every resource still resolves to what was approved; otherwise no row changes |
| Interleaving.DispatchAmongOthers | profiles/ap2/payment_guard.py:120-153 | a dispatch in any system, with any steps of others between its own: one call for a granted claim, under the claimed digest, and one outcome in the ledger as it then is; none otherwise |
| Interleaving.DispatchIsARun | profiles/ap2/payment_guard.py:120-153 | what the dispatch methods leave is what claim, invoke and record leave, in any system with that worker idle |
| Interleaving.ReconcileAmongOthers | profiles/ap2/payment_guard.py:157-192 | a reconciliation in any system, with any steps of others between its own, resolves the execution in the ledger as it then is |
| Interleaving.ReconcileIsARun | profiles/ap2/payment_guard.py:157-192 | what the reconciling methods leave is what read, ask and resolve leave, and after a refusal one transaction more |
| Interleaving.ReachContinues | profiles/ap2/payment_guard.py:120-192 | a continuation of a run is a run, so that what holds over every run holds of what the methods do |
| ClientTheorems.ChargeDigestIsComplete | profiles/ap2/payment_guard.py:57-68 | two intents, each under its guard's policy and context, have one digest exactly if run, actor, payee, amount and currency, the policy, and `code_revision`, `tool_version` and `execution_identity` of the contexts agree |
| ClientTheorems.BareChargeHasNoDigest | profiles/ap2/payment_guard.py:32-68 | a charge without a payee, or in a context without `code_revision`, `tool_version` or `execution_identity`, has no digest |
| ClientTheorems.ChargeIsBoundAs | profiles/ap2/payment_guard.py:57-68 | a scope has the digest of a charge exactly if it is that of a charge by the payments tool, in the same run, by the same actor, of this amount and currency, to this one payee, under the same policy and with the same three values of context |
| ClientTheorems.ClaimIsOfTheApproved | core/ledger.py:269-399 | whatever happens in between, a claim on a lease is a claim of the execution it was issued for, under the approved digest and within the approved TTL |
| ClientTheorems.OnlyTheApprovedChargeIsDispatched | profiles/ap2/payment_guard.py:108-138 | whichever guards approve and dispatch: a charge that leaves under an approval's lease is the charge that was approved, under the same policy and in the same bound context |
| ClientTheorems.OtherSettingIsRefused | profiles/ap2/payment_guard.py:120-138 | a claim on an approval's lease in a context that differs in any one of the three is refused, whatever happened since |
| ClientTheorems.ToolDigestIsComplete | adapters/guarded_tool.py:82-94 | two tool calls have one digest exactly if tool, operation, positional and keyword arguments, run, actor, policy and allow-listed context agree; the lease keyword is not bound |
| ClientTheorems.ToolCallIsBoundAs | adapters/guarded_tool.py:82-110 | a scope has the digest of a tool's call exactly if it is of that tool and operation, with the positional arguments under `args` and the others under `kwargs` |
| ClientTheorems.LeaseIsTakenOut | adapters/guarded_tool.py:32-108 | the lease is the keyword argument `_lease`, and every other keyword argument stays |
| ClientTheorems.OnlyTheApprovedCallRuns | adapters/guarded_tool.py:106-148 | a tool call that runs under an approval's lease is the call that was approved |
| ArmTheorems.FindingOutIsSafe | benchmark/arms/variants.py:48-145 | for every fault sequence, attempt count and flags: D, E and F charge at most once, E and F only the approved amount, and where the arm can find out, SUCCEEDED means exactly one charge |
| ArmOutcomes.FindingOutEndsExactly | benchmark/arms/variants.py:48-145 | D, E and F, where they can ask: final state, charges, every counter and every log entry, for every list of faults and number of attempts |
| ArmOutcomes.NobodyToAsk | benchmark/arms/variants.py:55-66 | the same of D and E without a lookup: the first attempt decides, and an interrupted one is PERMANENTLY_UNRESOLVED |
| ArmOutcomes.LeaseAloneEndsExactly | benchmark/arms/variants.py:26-45 | the same of C |
| ArmOutcomes.RetryingEndsExactly | benchmark/arms/base.py:73-129 | the same of A, from any world: one charge for every attempt that was lost, and one for the one it sees |
| ArmOutcomes.ChargesExactly | benchmark/harness/world.py:61-85 | what one call does to the world and what its caller sees, fault by fault, and when the charge is one a processor already knows by its key |
| ArmOutcomes.LooksUpExactly | benchmark/harness/world.py:87-101 | a lookup finds the first charge of the intent and how many there are |
| ArmTheorems.LeaseAloneIsSafe | benchmark/arms/variants.py:26-45 | C: charge count and final state, from its first attempt alone |
| ArmTheorems.RetryingChargesExactly | benchmark/arms/base.py:73-129 | A charges once per after-effect fault before the first attempt it sees, and once more if that one is accepted |
| ArmTheorems.ScopeBindingOnlyBlocks | benchmark/arms/variants.py:11-23 | B equals A on the approved call and charges nothing on any other |
| ArmTheorems.AskingEqualsObserving | benchmark/arms/variants.py:75-145 | E and F end in the same state with the same charges from any world whose lookup works |
| ArmTheorems.NoSynergy | benchmark/arms/variants.py:48-113 | D and E end alike with the same charge amounts on the approved call, also with an idempotent processor |
| CanonicalTheorems.AcceptedExactlyWhen | core/canonical.py:66-98 | normalisation succeeds exactly on values within the depth, size, length and number bounds whose keys stay apart under NFC |
| CanonicalText.NormalizesExactlyWhen | core/canonical.py:66-98 | normalisation returns a value exactly if it is acceptable, and then its normal form: strings and keys under NFC, all else as it was |
| CanonicalText.DumpsExactly | core/canonical.py:101-111 | a value has a text exactly if it is acceptable: that of its normal form with keys rising by code point at every level, without white space; the digest is the hash of that text |
| CanonicalText.LoadsExactlyWhen | core/canonical.py:50-63 | `loads` returns a value exactly for a text of at most 262144 characters that is JSON, with no key twice in an object and no number that is not finite, and then what the text means |
| CanonicalText.RefusedForItem | core/canonical.py:95-98 | a list is refused for the reason of its first item that is |
| CanonicalText.RefusedForEntry | core/canonical.py:82-94 | a dict is refused at its first entry that is, for a key that collides before a value that is refused |
| CanonicalTheorems.NormalizeIsIdempotentWhenShort | core/canonical.py:66-98 | a second normalisation returns the first one's result, or refuses it exactly if a string is now over the limit |
| CanonicalTheorems.SecondPassCanFail | core/canonical.py:71-74 | a platform and a value that is accepted once and refused the second time |
| CanonicalTheorems.DepthOnlyBounds | core/canonical.py:66-68 | the depth counter bounds acceptance and does nothing else |
| CanonicalTheorems.SameExactlyWhenSorted | core/canonical.py:101-106 | sorting keys at every level decides sameness up to key order |
| CanonicalTheorems.OneTextPerValue | core/canonical.py:101-106 | two accepted values have one text exactly if their normal forms are the same up to key order |
| CanonicalTheorems.LoadsInvertsDumps | core/canonical.py:50-59 | parsing a canonical text returns the value it was printed from, exactly if the text fits the bound |
| CanonicalTheorems.DumpsCanOutgrowLoads | core/canonical.py:50-59 | a string that `dumps` accepts and whose text `loads` refuses as too large |
| CanonicalTheorems.CanonicalTextIsStable | core/canonical.py:101-106 | a canonical value has its own text again, unless a string outgrew the limit |
| CanonicalTheorems.RepeatIsFound | core/canonical.py:41-47 | the duplicate check fires exactly on repeated keys |
| CanonicalTheorems.LoadsIsUnambiguous | core/canonical.py:50-63 | whatever `loads` accepts, plain JSON parsing reads as the same value |
| CanonicalTheorems.DictsCorrespond | core/canonical.py:82-94 | two dicts normalise to the same value exactly if their entries correspond up to NFC |
| CanonicalTheorems.DumpsResorted | core/canonical.py:101-106 | a dict read back with its keys sorted has the text it had |
| JsonRoundTrip.ValueRoundTrips | core/canonical.py:101-106 | a printed value followed by other text parses to the value and leaves that text |
| JsonRoundTrip.PrintParses | core/canonical.py:50-59 | parsing inverts printing, in both styles and both parsing modes |
| JsonText.PrintsAsWritten | core/canonical.py:101-106 | the text of every value in both styles, written out: literals, digits, escapes, separators |
| JsonText.EscapesAsWritten | core/canonical.py:101-106 | the escape of every character: seven short ones, four hexadecimal digits for the other control characters |
| JsonGrammar.ParsesExactlyWhen | core/canonical.py:50-63 | the parser reads exactly the texts of the JSON grammar, with any white space, any escapes and any spelling of numbers, each as what it means |
| Sorting.AtMostExactlyWhen | core/canonical.py:103-106 | keys are compared by code point at the first place where they differ, and a text comes after its beginnings |
| Sorting.SortForgetsOrder | core/canonical.py:103-106 | sorting by code point forgets the order of entries and nothing else |
| BindingTheorems.UnorderedBindsMultisets | core/binding.py:53-59 | two lists become one argument exactly if they are permutations of each other as canonical values, counted with multiplicity |
| BindingTheorems.RuleMeans | core/binding.py:46-70 | each rule identifies two values exactly if they differ in nothing but what it ignores |
| BindingTheorems.BindingIsComplete | core/binding.py:95-107 | argument digests agree exactly if the policies declare the same rules and the arguments agree under them |
| BindingTheorems.EquivalentExactlyWhen | core/binding.py:109-111 | `equivalent` says whether the arguments agree under the one policy |
| RecordFormats.UnorderedSortsByDigest | core/binding.py:53-59 | of a list the unordered rule makes the list of its items' normal forms, each as often as it occurs, in the order of their digests |
| RecordFormats.RuleIsTheDeclared | core/binding.py:84-93 | the rule of an argument is the one declared for its name, and exact if none is |
| ScopeTheorems.ContextIsComplete | core/scope.py:137-141 | context digests agree exactly if the allow-listed contexts do |
| ScopeTheorems.OtherContextIsIrrelevant | core/scope.py:127-141 | context outside the allow-list never reaches the digest |
| ScopeTheorems.ScopeDigestIsComplete | core/scope.py:176-194 | scope digests agree exactly if run, actor, tool, operation, arguments under declared rules, resources, policy and bound context agree |
| ScopeTheorems.RebindForgets | core/scope.py:39-48 | re-resolving in a later world does not depend on what was resolved earlier |
| ScopeTheorems.RebindFollowsTheWorld | core/scope.py:197-218 | rebinding succeeds exactly if every path and URL resolves; each resource then has the locator and fingerprint the world gives it now |
| ScopeTheorems.RebindDetectsChange | core/scope.py:197-218 | a rebound scope has the approved digest exactly if every resource still resolves to what was approved |
| ExportTheorems.VerifiesExactlyWhen | core/export.py:126-174 | a file verifies exactly if every line is a record, each continues the chain from genesis, and integer sequences rise; then the report has the count and the last hash |
| Violations.ReportListsTheFaults | core/export.py:126-174 | of a file whose lines are all records: the report counts them, lists exactly their faults in the order of the lines, and gives the hash the last one names |
| Violations.ReportedExactlyWhen | core/export.py:147-172 | line n is chain_broken exactly if its previous hash is not the one the record before it names, genesis for the first; content_modified exactly if the hash it names is not that of its previous hash and body; sequence_regressed exactly if its integer sequence does not exceed the last one; and nothing else is reported |
| Violations.ReportStops | core/export.py:133-146 | at the first line that is no such record the report ends with malformed_line or missing_integrity, and what comes after is not looked at; or the verifier raises |
| Violations.DroppedRecordsLeaveGaps | core/export.py:126-174 | an honest chain with records dropped, wherever and however many: exactly one chain_broken at each gap and nothing else |
| Violations.EditedBodyIsFound | core/export.py:126-174 | one body of an honest chain replaced in place: exactly one content_modified, at that line |
| Lines.SplitsExactly | core/export.py:133 | a text is split at every break, a carriage return with a line feed being one |
| ExportTheorems.HashDeterminesTexts | core/export.py:37-40 | the last hash of a chain determines all its canonical bodies |
| ExportTheorems.HashDeterminesPosition | core/export.py:53-59 | along one chain a hash determines its position |
| ExportTheorems.TipDeterminesJournal | core/export.py:126-174 | two files that verify with one tip hold the same canonical bodies in the same order |
| JsonPrefix.ProperPrefixFails | core/export.py:138-143 | no proper prefix of a printed record is JSON |
| JsonPrefix.PrintBreaks | core/export.py:68-69 | printed text holds a line break exactly if a string of the value holds one of the three JSON leaves as they are |
| HonestExport.ChainPointwise | core/export.py:53-59 | the j-th sealed record links the hash of the first j bodies with that of the first j + 1 |
| HonestExport.SealedReadsBack | core/export.py:43-50 | a written record is read back with its body, its two hashes and its sequence |
| HonestExport.RearrangementIsPrefix | core/export.py:53-59 | a file assembled from sealed records that still verifies is a prefix of their chain |
| HonestExport.HonestExportVerifiesExactlyWhen | core/export.py:62-70 | an honest export verifies exactly if no string of it holds U+0085, U+2028 or U+2029 |
| Counterexamples.HonestExportCanFail | core/export.py:62-83 | the export of a ledger in which one execution was created, its operation a line separator: it does not verify |
| Reconciliation.StaleExportMissesExactlyTheRest | core/export.py:177-224 | an export of the first n events against the whole log: one missing_from_export per later event, sorted by printed key, and nothing else |
| Reconciliation.EventListingExactlyWhen | core/export.py:206-224 | that listing is the one list of exactly these keys whose printed forms never fall, in whatever order a set hands them over |
| Listing.ListedInLogOrderExactlyWhen | core/export.py:206-224 | differences are listed in the order of the log exactly if their printed keys already rise with it |
| Counterexamples.ReportIsNotInLogOrder | core/export.py:206-224 | an empty export against a creation and an approval: the approval is listed first |
| Reconciliation.OkReconciliationMeansEqualKeys | core/export.py:206-224 | an ok reconciliation means that the exported keys are the ledger's, in order |
| Reconciliation.OkReconciliationExactlyWhen | core/export.py:177-224 | of any file: reconciliation is ok exactly if the file verifies and its keys and the ledger's are one set |
| Differences.ReportsExactlyTheDifferences | core/export.py:177-224 | of any file and any ledger: the report keeps what verifying found and adds each key of the ledger that is not in the file as missing_from_export and each key of the file that is not in the ledger as absent_from_ledger, each once, by their printed forms |
| Differences.ExportedExactly | core/export.py:199-206 | what is compared of a file: its lines that are not blank, up to the first that is no JSON |
| Counterexamples.DisguiseReconciles | core/export.py:206-224 | a record that names any other execution and carries a ledger event in a field `body` reconciles with that ledger |
| LedgerExport.ReachableExportVerifies | core/export.py:62-83 | the export of every reachable ledger verifies, exactly if nothing in its log holds a raw line break |
| LedgerExport.LaterLedgerMissesExactlyItsNewEvents | core/export.py:177-224 | an export against the ledger after any further run lacks exactly the events of that run |
| Witness.LatestNeverFalls | core/witness.py:8-17 | over any attempts to publish, nothing recorded is lost and no log's latest sequence falls |
| Witness.AdvancesExactlyWhen | core/witness.py:84-93 | a publication is accepted exactly if it is above everything published of its log |
| FreshnessTheorems.TipReadableExactlyWhen | core/checkpoint.py:143-151 | a verified journal has a readable tip exactly if it is empty or its last record names `event_hash`; then it is the verifier's tip |
| FreshnessTheorems.CreatedIsHonest | core/checkpoint.py:154-164 | what `create_checkpoint` makes of a verified journal has that journal's tip, the digest of the checkpoint before it and a signature of its own text |
| FreshnessTheorems.FreshMeansLatest | core/checkpoint.py:218-262 | an ok report means the presented checkpoint is the latest published and the presented journal has exactly the bodies of the journal it was made from |
| FreshnessTheorems.FreshOncePublished | core/checkpoint.py:154-262 | a checkpoint made of a verified journal and accepted by the witness is reported ok with that journal |
| FreshnessTheorems.SupersededNeverOk | core/checkpoint.py:232-247 | once a higher sequence is published, a checkpoint is never ok again; with all else in order the verdict is rollback |
| FreshnessTheorems.UndigestibleCheckpoint | core/checkpoint.py:218-262 | a checkpoint whose body cannot be dumped has an invalid signature; the check raises exactly if the witness has that very sequence |
| FreshnessTheorems.OkExactlyWhen | core/checkpoint.py:177-210 | `ok` is the verdict current together with the published digest; the verdict alone also covers a fork |
| FreshnessTheorems.AnswersExactlyWhen | core/checkpoint.py:218-262 | the four answers of a report, each by itself: signature, chain, tip, and whether this very checkpoint was the last published |
| FreshnessTheorems.VerdictExactlyWhen | core/checkpoint.py:183-210 | the verdict names the first thing wrong: signature, chain, tip, and then not_witnessed, rollback, ahead_of_witness or current, by what was published of the log |
| FreshnessTheorems.RaisesExactlyWhen | core/checkpoint.py:218-262 | when the check raises |
| FreshnessTheorems.TipIsInTheLastLine | core/checkpoint.py:143-151 | the tip of any journal is what its last line that is not blank says under `integrity` and `event_hash` |
| FreshnessTheorems.LatestExactlyWhen | core/witness.py:95-97 | the latest sequence is the one published with none above it |
| RecordFormats.CheckpointTextIsComplete | core/checkpoint.py:56-70 | two checkpoints have one text exactly if log, sequence, tip, the digest before and the time agree: signature and digest cover all five |
| Counterexamples.VerifiedWithoutTip | core/checkpoint.py:143-151 | a journal of one record sealed under `record_hash`, with any body: it verifies and has no tip |
| Counterexamples.ForkIsCalledCurrent | core/checkpoint.py:232-262 | of two checkpoints of one journal and sequence, made at two times, the unpublished one has the verdict current and is not ok |
| AnchoredJournals.FreshPinsTheLog | core/checkpoint.py:218-262 | if every published checkpoint anchors an export of this ledger, an ok report for any journal means that its bodies are those of the log at the latest checkpoint, a prefix of the log now |
| AnchoredJournals.FreshExportReconciles | core/export.py:177-224 | an export of this ledger that is reported ok is the log at the latest checkpoint, and reconciliation lists exactly the events since |
| AnchoredJournals.ExportHasTip | core/checkpoint.py:143-151 | a verified export has a readable tip: the hash of its whole log |
| AnchoredJournals.AnchoredExportIsFresh | core/checkpoint.py:154-262 | an export of the ledger, its checkpoint and an accepting witness are reported ok together |
| Retention.SweepPointwise | core/retention.py:168-191 | a sweep decides each payload as it would be decided alone, and fails exactly if a class is unknown |
| Retention.LastClassCounts | core/retention.py:102-116 | of the classes with one name the last one counts, and a name no class has is unknown |
| PayloadTheorems.GetAfterPut | core/payload.py:117-154 | what was put is read back in canonical form, exactly if normalisation lengthened no string past the limit |
| PayloadTheorems.StoredButUnreadable | core/payload.py:117-154 | a payload that `put` accepts and `get` refuses |
| PayloadTheorems.DestroyWithoutSchedule | core/payload.py:197-224 | without a schedule, destroying a stored payload succeeds exactly if it is not on hold |
| PayloadTheorems.KeptUnlessDestroyedOffHold | core/payload.py:171-224 | over every run of a store without a schedule a payload is as it was put, or some step destroyed it while it was off hold |
| PayloadTheorems.HeldSurvives | core/payload.py:161-224 | a payload on hold survives every run that does not lift the hold, with a schedule or without |
| PayloadTheorems.UnreadableFromTheFirstWrite | core/payload.py:171-224 | wherever a destruction stops after its first write, the payload cannot be read any more; after the last write it is gone |
| PayloadTheorems.KeptUntilDue | core/payload.py:171-224 | over every run a payload is as it was put, or some step destroyed it off hold at a reading no earlier than creation plus the minimum |
| PayloadTheorems.PutStaysReadable | core/payload.py:117-224 | over every run a reference answers as at first until the payload is duly destroyed, and then that it was destroyed |
| PayloadTheorems.StatusAgreesWithDestroy | core/payload.py:226-262 | after every run of a store, the report exists exactly if all live classes are known, and says may-destroy of exactly the payloads `destroy` would accept at that reading |
| PayloadTheorems.StatusIsSorted | core/payload.py:244-262 | a report is in the order of the ids |
| PayloadTheorems.RunTracks | core/payload.py:117-262 | after every run a store lists exactly what it created, with a class for each, and of each has key and blob or neither |
| Evolution.EverySpellingIsRefused | core/ledger.py:83-127 | every spelling of the actor is refused as approver and as reconciler, and a refusal changes no row |
| Principals.AllowedAreThese | core/ledger.py:78-80 | the allowed characters, one by one |
| Transactions.CreatesExactlyWhen | core/ledger.py:252-267 | `create` succeeds exactly for an acceptable actor and an unused id, and then the row, its empty lease fields and the one event |
| Transactions.RevokesExactlyWhen | core/ledger.py:401-412 | `revoke` succeeds exactly on an execution that is CREATED or APPROVED; then exactly that row is REVOKED |
| Transactions.OutcomeRecordedExactlyWhen | core/ledger.py:414-429 | an outcome is recorded exactly on a DISPATCHING execution, as SUCCEEDED, FAILED or UNKNOWN, with evidence that serialises |
| Transactions.ReconcilesExactlyWhen | core/ledger.py:431-466 | a reconciliation resolves exactly an UNKNOWN execution, to SUCCEEDED, FAILED or PERMANENTLY_UNRESOLVED, by another principal than its actor |
| Transactions.RefusedReconciliationIsLogged | core/ledger.py:445-466 | a reconciliation refused for its state or its principal is on the record |
| ArmOutcomes.ChangedCallIsRefused | benchmark/arms/variants.py:11-23 | B, E and F refuse a call for another amount at the first attempt and call nothing |
| ArmOutcomes.FaultsInOrder | benchmark/harness/world.py:114-117 | faults are taken in order and the last one stands for all later attempts |
| CanonicalText.RefusedAtOnce | core/canonical.py:66-98 | what is refused without looking inside: too deep, too long, not finite, too many, of no JSON type |
| RecordFormats.RuleAppliesExactlyWhen | core/binding.py:46-70 | which values each rule applies to, and what it makes of them |
| RecordFormats.BindingIsWritten | core/binding.py:32-107 | the names of the rules and of the two fields that are digested |
| RecordFormats.ScopeIsWritten | core/scope.py:176-194 | the digest of a scope is the hash of eight named fields, of which arguments and context are digests themselves |
| RecordFormats.PartsAreWritten | core/scope.py:144-194 | the named fields of a resource and of a policy in it |
| RecordFormats.EventIsWritten | core/export.py:73-83 | the seven fields of an event's record, each under its own name |
| RecordFormats.SealIsWritten | core/export.py:43-50 | sealing writes the two hashes under `integrity` and leaves every other field |
| RecordFormats.KindsAreNamed | core/ledger.py:252-504 | the name of each kind of event |
| RecordFormats.StatesAreNamed | core/ledger.py:30-40 | the name of each state |
| RecordFormats.CheckpointIsWritten | core/checkpoint.py:56-63 | the five fields of a checkpoint that are signed |
| Lines.BreaksAreThese | core/export.py:133 | the ten characters at which a text is split |
| Lines.BlanksAreThese | core/export.py:134 | the characters of which a blank line consists |
| Differences.KeysAreRead | core/export.py:208-211 | a record is known by execution id, kind and sequence, its own or those of its `body` |
| FreshnessTheorems.CreatesExactlyWhen | core/checkpoint.py:154-164 | a checkpoint is made exactly if the journal has a tip, the one before it a digest, and the new one a text |
| Retention.ClassAcceptedExactlyWhen | core/retention.py:43-64 | which classes are accepted, and why another is not |
| Retention.DecidedExactly | core/retention.py:118-166 | what is decided of a payload: a hold first, then the minimum, then the maximum, in days of 86400 seconds |
| PayloadTheorems.DestroyEndsExactly | core/payload.py:171-224 | with or without a schedule: destruction succeeds exactly if it is permitted and there is something to destroy, takes key and blob of that payload and nothing else; never on hold |
| PayloadTheorems.PutSucceedsExactlyWhen | core/payload.py:117-140 | a put succeeds exactly for one of the four classifications and a value that can be dumped, and then what it writes |
| PayloadTheorems.GetAnswersExactlyWhen | core/payload.py:142-154 | when `get` answers, and which check failed otherwise |
| PayloadTheorems.GivenScheduleComesFirst | core/payload.py:226-242 | the given schedule comes before the store's own, and without either there is no report |
| ArmTheorems.LookupSeesTheWorld | benchmark/harness/world.py:87-98 | a working lookup finds a charge exactly if there is one |
| Retention.DestroyableExactlyWhen | core/retention.py:193-201 | destruction is permitted exactly for a known class, off hold, from the end of the minimum period |
| Retention.OverdueExactlyWhen | core/retention.py:56-64 | for an accepted class, overdue means off hold and past the maximum, and nothing else |
| Retention.DecisionsOnlyAdvance | core/retention.py:118-166 | permission is never withdrawn by time alone, and overdue comes after eligible |
| PayloadTheorems.DestroySucceedsExactlyWhen | core/payload.py:171-224 | destroying a stored payload succeeds exactly off hold and once it is due; then it is gone |
| Readings.CreatedAtBoundedExactlyWhen | core/ledger.py:252-267 | after `create` the mark is at or past the new `created_at` exactly if the clock did not go back between the two readings of that call, or the mark was there before |
| Readings.ApprovedAtBoundedExactlyWhen | core/ledger.py:269-343 | the same of `approve` and `approved_at` |
| ExecutionLedger.Database.ObserveClock | core/ledger.py:171-198 | returns the mark as it was; afterwards the mark is the greater of the mark and the reading |
| ExecutionLedger.Database.AppendEvent | core/ledger.py:200-225 | observes the clock and appends exactly one numbered event; a detail that does not serialise appends none |
| ExecutionLedger.Database.Rollback | core/ledger.py:161-169 | tables, log and mark are those of BEGIN IMMEDIATE again |
| ExecutionLedger.ExecutionLedger.Create | core/ledger.py:252-267 | the whole new database and reply of `create`, tied to `Ledger.Create` |
| ExecutionLedger.ExecutionLedger.RecordRefusal | core/ledger.py:229-250 | the second transaction of a refusal, with the state the first one read |
| ExecutionLedger.ExecutionLedger.Approve | core/ledger.py:269-343 | reply and new database of `approve`, including the refusal recorded afterwards |
| ExecutionLedger.ExecutionLedger.ClaimLease | core/ledger.py:345-399 | reply and new database of `claim_lease`: consumed, refused or expired, each with its event |
| ExecutionLedger.ExecutionLedger.Revoke | core/ledger.py:401-412 | revocation of a created or approved execution; the event says it left APPROVED |
| ExecutionLedger.ExecutionLedger.RecordOutcome | core/ledger.py:414-429 | an outcome is written only from DISPATCHING; any error leaves rows, log and mark as they were |
| ExecutionLedger.ExecutionLedger.Reconcile | core/ledger.py:431-466 | resolution of an UNKNOWN execution, or a refusal recorded in a second transaction |
| ExecutionLedger.ExecutionLedger.RecoverInterrupted | core/ledger.py:468-504 | the sweep over the selected rows, one event each, and the ids it returns |
| Clients.PaymentGuard.Propose | profiles/ap2/payment_guard.py:100-106 | records the intent under its digest; nothing changes if it is not permitted or cannot be bound |
| Clients.PaymentGuard.Approve | profiles/ap2/payment_guard.py:108-118 | the ledger's approval under the digest of this charge |
| Clients.PaymentGuard.Dispatch | profiles/ap2/payment_guard.py:120-153 | whole effect on ledger and processor: refusals make no call, a granted claim makes one and records its verdict |
| Clients.PaymentGuard.Reconcile | profiles/ap2/payment_guard.py:157-192 | only an UNKNOWN execution is resolved, to the state the lookup establishes |
| Clients.ToolGuard.ClaimAndRun | adapters/guarded_tool.py:128-148 | claim, call and record of the wrapper: one call per granted claim |
| Clients.ToolGuard.Guarded | adapters/guarded_tool.py:106-148 | the wrapper, every path: refused when the call cannot be bound, just called when not consequential, held without a lease, run at most once with one, refused when the lease is no text |
| Clients.Verifier.VerifyChecks | core/verification.py:115-127 | the loop over all checks computes the combined observation |
| Clients.Verifier.Settle | core/verification.py:129-153 | only an UNKNOWN execution is settled, to the state its postconditions establish |
| Clients.Verifier.RetryIsSafe | core/verification.py:155-161 | true exactly if some check says absent and none says present |
| PaymentWorld.PaymentProcessor.MakeCharge | benchmark/harness/world.py:61-85 | world and response of a charge under each fault, with and without a repeated key |
| Arms.Runtime.Authorize | benchmark/arms/variants.py:18-23 | refuses exactly a changed call, where the arm binds scope, and counts it |
| Arms.Runtime.Consume | benchmark/arms/variants.py:33-41 | spends the lease where the arm has one |
| Arms.Runtime.ReconcileFirst | benchmark/arms/variants.py:55-72 | the lookup of arm D and what each answer does to the result |
| Arms.Runtime.Interruption | benchmark/arms/variants.py:101-145 | the interruption hook of every arm, on lease and result |
| Arms.Runtime.TryOnce | benchmark/arms/base.py:92-114 | one turn of the loop: blocked, or dispatched |
| Arms.Runtime.DispatchOnce | benchmark/arms/base.py:101-125 | the external call, the counters and the log of one attempt |
| Arms.Runtime.Run | benchmark/arms/base.py:85-129 | the run loop ends as the recursive loop over attempts does |
| Canonical.NormalizeValue | core/canonical.py:66-98 | the recursive normaliser with its error cases in order |
| Canonical.NormalizeDict | core/canonical.py:82-94 | the loop that fills the normalised dict; keys that collide are refused |
| Canonical.NormalizeList | core/canonical.py:95-98 | the loop over a list's items |
| Canonical.RejectDuplicateKeys | core/canonical.py:41-47 | refuses exactly the pairs that repeat a key |
| Binding.CanonicalArguments | core/binding.py:84-93 | the loop that applies each argument's declared rule |
| Scope.Rebind | core/scope.py:197-218 | the loop that re-resolves each resource; everything else is kept |
| Export.ChainRecords | core/export.py:53-59 | the generator that carries the running hash yields the chain |
| Export.CheckIntegrity | core/export.py:147-172 | the three checks of a record and what the loop carries on |
| Export.CheckLine | core/export.py:133-172 | one line: blank, unreadable, without integrity block, or checked |
| Export.VerifyExport | core/export.py:126-174 | the verifier's pass over the lines, with its early exits |
| Witness.FileWitness.Publish | core/witness.py:84-93 | refuses a non-advancing sequence and otherwise appends exactly this entry |
| Witness.FileWitness.LatestSequence | core/witness.py:95-97 | the greatest sequence recorded for the log |
| Witness.FileWitness.DigestAtSequence | core/witness.py:99-103 | the digest of the first entry at that sequence |
| Witness.AssertConforms | core/witness.py:180-218 | the file witness passes the conformance suite from every valid state, unless the log assumed unused was used |
| Checkpoint.VerifySignature | core/checkpoint.py:103-111 | false for a wrong signature and for a body that cannot be dumped |
| Checkpoint.VerifyFreshness | core/checkpoint.py:218-262 | the report of the four checks, with the fork at the same sequence taken back, and the checkpoint that cannot be dumped |
| Payload.PayloadStore.PutPayload | core/payload.py:117-140 | the files and memory after a put, and the reference it returns |
| Payload.PayloadStore.GetPayload | core/payload.py:142-154 | the value, or which check failed |
| Payload.PayloadStore.Hold | core/payload.py:161-163 | the payload is on hold, nothing else changes |
| Payload.PayloadStore.Release | core/payload.py:165-166 | the payload is off hold, nothing else changes |
| Payload.PayloadStore.DestroyPayload | core/payload.py:171-224 | the loop over the two folders, behind the schedule or the hold: overwrite, then unlink, and what is on disk after each write |
| Payload.PayloadStore.RetentionStatus | core/payload.py:226-262 | the schedule's decision on each live payload, on the store's clock |

## Left out

- SQLite, WAL and file locking: transactions are taken as serialised and atomic; `uuid4` and the random payload ids and keys are parameters, and an id that already exists is refused or, for payloads, excluded from the run.
- The files on disk behind the ledger, the witness and the journal: a journal is its text, a witness its entries.
- SHA-256, Ed25519 (RFC 8032), AES-GCM and PEM keys.
- Payload.PayloadStore.DestroyPayload: a write to one file is all or nothing, and what an unlinked inode may still hold is not modelled.
- The Unicode tables, and strings with lone surrogates, which cannot be encoded as UTF-8 at all.
- Float arithmetic: clock readings and periods are reals, other floats are texts. NaN and the infinities occur only as rejected input.
- Python's limits on recursion depth and on the length of integer literals.
- Effects of an external call that arrive after the call has raised: in the model a call acts before it returns.
- Scope.Rebind: what a path or a URL resolves to is an arbitrary function of the world; inodes, symlinks and URL splitting are not modelled.
- Export.VerifyExport: equality of parsed values other than texts is a parameter, because Python compares numbers across types; the texts of violations are not modelled.
- Clients.PaymentGuard.Dispatch: here and in the other client methods access control (core/access.py) is one boolean parameter, and the answer of the outside world is a parameter.
- The notes of a freshness report and the reasons of retention decisions, which repeat the values in words.
- `HttpWitness`, the command lines, `core/event.py`, `profiles/kr_ai_act/`, `redact`, `describe` and `benchmark/run.py`: they keep no state of their own, and no property stated here depends on them.
- PayloadTheorems.KeptUntilDue: covers payloads put through one store instance. A store opened over existing folders takes an unknown payload as created at time zero, as the code does.
