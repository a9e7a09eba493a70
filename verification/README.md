# StudentHub: verified models of its state machines and codecs

This project models the parts of the StudentHub repository whose correctness spans many calls, and
proves their properties over every run, every interleaving or every input. One module models one
component; what works step by step in the repository is a class or a loop here, proved against a
specification function, and the theorems are about that function.

| module | component |
|---|---|
| `CanonicalJson`, `JsonText`, `JsonGuard` | the canonical JSON text behind a mutation fingerprint, a reader for it, and the guard that lets payloads through |
| `MutationStore`, `KeyLocks` | the idempotent mutation store, its keys, `execute` and cleanup; its promise-chain lock |
| `OrganizationLifecycle` | creating children, stores and pay contracts while organizations are deleted, statement by statement |
| `OrganizationTree`, `Notifications` | reparenting and the ancestor walks; the two unread counts |
| `Principals`, `Grants`, `GrantLedger` | registration of principals; grant writers, and whole runs of them with their audit ledger |
| `ProfileFields`, `BrowserSave`, `ProfileStore` | the shared profile write, the browser single-save protocol under interleaving, and the save method |
| `JobLeases` | scheduled jobs under a renewable lease |
| `EmailOutbox`, `EmailWorker` | the email outbox under any number of workers, and one worker's pass |
| `Csv`, `Brackets`, `ActorAssertion` | the CSV writer down to its bytes, the bracket-aware splitter, the one-use assertion verifier |
| `AccountManager` | an organization's account manager and its history |
| `Options`, `Strings`, `Utf16`, `Utf8` | an optional value; trimming; JavaScript strings as code units, and their bytes |

Conventions. SHA-256 is an injective function (a parameter where a caller passes it, or the digested
value itself); signatures, key resolution, session liveness, imported values, random references and
injected decision ports are parameters. Clocks are integers that do not go back. A "run" is a list of
steps folded over a state; a step that is not possible changes nothing (or ends the run where a
module says so). In `OrganizationLifecycle` a transaction is cut at its SQL statements: each reads what was
committed when it began, a row lock may make it wait, and only the locks that PostgreSQL grants
exclude one another. In `BrowserSave` a transaction's steps are the lock, the body up to COMMIT, and
the COMMIT itself, which the server may apply or lose whatever the client hears. `Utf16`, `CanonicalJson`,
`JsonGuard`, `MutationStore` and `Csv` work on UTF-16 code units; the other modules use Dafny's characters, so
their texts hold no lone surrogates.

Properties that turned out not to hold, with their exact condition:

- A generated idempotency key is accepted exactly when its instant has 13 digits (`MutationStore.CreatedKeyAccepted`).
- The two unread counts agree on every inbox exactly when no live organization has the empty id above it;
  the rendered list drops an empty parent id (`Notifications.CountsAgreeIff`).
- `upsertOrganization` does not ask whether the new parent is deleted; a move keeps deleted organizations
  clear exactly when the moved one is deleted itself or its new parent is not (`OrganizationLifecycle.ReparentSafety`).
- One grant call with a list equals its entries granted one at a time, in any order, exactly when all of them fit
  (valid, organization and principal known, nobody else root admin) or those that fit would change nothing
  (`Grants.GrantManyIsAnyOrder`); one unknown organization keeps a whole list out
  (`Grants.OneBadEntrySpoilsTheList`, `GrantLedger.SomeRunKnowsOne`).
- The guarded CSV cells come back exactly when every row has a cell and no cell has a lone surrogate; a row without
  cells reads as one empty cell, a lone surrogate as its replacement (`Csv.CsvReadsBackIff`). Two files are equal
  exactly when the same can be read of both (`Csv.FilesEqualIff`).
- Spans of job runs never overlap, but their work can. No later run's work overlaps a recorded success, except where
  the store had already answered the renewal that was awaited when the work ended (`JobLeases.WorkDoesNotOverlap`).
  A run still at work after a later one took over can be recorded as a success exactly when it has not learnt of a
  loss and holds a confirmation whose answer is on its way (`JobLeases.OvertakenSucceedsIff`,
  `JobLeases.ReusedRenewalOverlaps`). Of earlier runs a success says nothing: one that lost its lease may still be at
  work (`JobLeases.EarlierRunStillWorks`).
- Replay keys of two issuers can meet exactly when one issuer starts with the other and a NUL
  (`ActorAssertion.KeysMeetIff`), and the replay check is exact in every run over a set of issuers exactly when no
  two of them are related like that (`ActorAssertion.ReplayExactIff`); otherwise an identifier nobody ever used is
  refused as a replay (`ActorAssertion.FreshIsRefused`).
- `bootstrapAdmin`'s registration row always denies an email; it is right about it exactly when the principal has
  none, since the upsert leaves an existing email in place (`Principals.EnrollTellsEmailIff`).
- A payload with array holes passes the guard and has the canonical text of the payload with null in their place
  (`JsonGuard.HolesReadAsNull`); so equal texts mean equal payloads up to member order and holes read as null.

Where code and comments disagree: `JsonGuard` follows the code in refusing an object that is merely shared, not
only cyclic ones. `bootstrapAdmin` writes its grants ledger row even when no grant changed, so "a ledger row
exactly when a grant changed" is stated for grant, revoke and clear.

## Model

| member | source | states |
|---|---|---|
| `JsonGuard.AcceptedIffTree` | packages/idempotency-contract/src/idempotency.ts:21-29 | over any object graph, cyclic ones included, the guard accepts exactly the finite trees of plain objects with good leaves in which no object occurs twice |
| `JsonGuard.SharedIsRefused` | packages/idempotency-contract/src/idempotency.ts:25-26 | an object met twice is refused although it spells a finite tree |
| `JsonGuard.Guard.IsJsonValue` | packages/idempotency-contract/src/idempotency.ts:21-29 | the walk with its growing `seen` set computes the specified verdict and set, and ends on every graph |
| `JsonGuard.PassedIsTree` | packages/idempotency-contract/src/idempotency.ts:26-28 | a walk that passes has met exactly the objects of the tree it spells, none of them met before |
| `JsonGuard.UnfoldMirrors` | packages/idempotency-contract/src/idempotency.ts:27-39 | an array spells its items in order, a plain object its values under their own keys |
| `JsonGuard.GuardedTextIdentifies` | packages/idempotency-contract/src/idempotency.ts:21-39 | for payloads the guard lets through, equal canonical texts if and only if the trees they spell are equal up to member order |
| `JsonGuard.HolesReadAsNull` | packages/idempotency-contract/src/idempotency.ts:27-39 | a payload with array holes passes, and so does the same payload with null in their place; both have one canonical text |
| `CanonicalJson.SortedJsonIdentifies` | packages/idempotency-contract/src/idempotency.ts:31-35 | two accepted values sort to the same value exactly when they are the same tree up to member order |
| `CanonicalJson.RenderUnambiguous` | packages/idempotency-contract/src/idempotency.ts:37-39 | the rendered text of a value, followed by anything a value can be followed by, determines the value and the rest |
| `CanonicalJson.EscapeUnambiguous` | packages/idempotency-contract/src/idempotency.ts:37-39 | the escaped text of a string up to its closing quote determines the string, lone surrogates included |
| `CanonicalJson.CanonicalJsonIdentifies` | packages/idempotency-contract/src/idempotency.ts:37-39 | equal canonical text if and only if equal trees up to object key order |
| `CanonicalJson.FingerprintIdentifies` | packages/idempotency-contract/src/idempotency.ts:41-49 | with an injective hash, equal fingerprints if and only if same method, route, principal and payload |
| `JsonText.RenderedReads` | packages/idempotency-contract/src/idempotency.ts:37-39 | a reader of JSON by RFC 8259 gets every accepted value back from its rendered text |
| `JsonText.EscapesTheLeast` | packages/idempotency-contract/src/idempotency.ts:38 | a string escapes exactly quotes, backslashes, control characters and lone surrogates, by two characters where JSON has such an escape and by lower-case digits otherwise |
| `JsonText.IndexKeyIff` | packages/idempotency-contract/src/idempotency.ts:34 | the keys an object lists first are exactly the numbers below 2^32 - 1 without leading zeros |
| `JsonText.KeyLessIff` | packages/idempotency-contract/src/idempotency.ts:34 | the key comparison is the order of the first unit in which two keys part |
| `JsonText.CanonicalTextSays` | packages/idempotency-contract/src/idempotency.ts:31-39 | read as JSON a canonical text says the value it was made from, in every object the index keys by number and then the others by unit |
| `JsonText.EnvelopeSays` | packages/idempotency-contract/src/idempotency.ts:41-49 | what is hashed holds contract version, method, payload, principal and route, each under its own name |
| `MutationStore.FoldKeepsKey` | packages/idempotency-contract/src/idempotency.ts:82-90 | re-casing a key leaves it valid and keeps the instant it carries |
| `MutationStore.KeyIff` | packages/idempotency-contract/src/idempotency.ts:17 | a key is accepted exactly if it is `v1.` in either case, 13 digits, a point and a version 4 UUID |
| `MutationStore.UuidIff` | packages/idempotency-contract/src/idempotency.ts:17 | the groups, dashes, version and variant of that UUID, in either case |
| `MutationStore.FoldIdentifies` | packages/idempotency-contract/src/idempotency.ts:88 | two keys fold to one exactly if they differ only in the case of their letters |
| `MutationStore.RequestIsValidIff` | packages/idempotency-contract/src/idempotency.ts:63-68 | which requests are valid, letter by letter |
| `MutationStore.CreatedKeyAccepted` | packages/idempotency-contract/src/idempotency.ts:51-57 | a generated key is accepted exactly for 13-digit instants, carries that instant, and is already folded |
| `MutationStore.RecordingStore.ExecuteAtomic` | packages/idempotency-contract/src/recording-store.ts:89-138 | expiry before lookup, replay or conflict from the record, otherwise draft writes published together with the record or not at all |
| `MutationStore.WritesAppend` | packages/idempotency-contract/src/recording-store.ts:106-115 | publishing writes appends to every collection and topic exactly the rows written for it, in order, and creates no other |
| `MutationStore.RecordingStore.CleanupExpired` | packages/idempotency-contract/src/recording-store.ts:140-151 | removes exactly the expired records, counts them, and touches neither collections nor outbox |
| `MutationStore.Idempotency.Check` | packages/idempotency-contract/src/idempotency.ts:80-97 | the refusals before the store, in order |
| `MutationStore.Idempotency.Execute` | packages/idempotency-contract/src/idempotency.ts:79-115 | one call's new store and result |
| `MutationStore.RefusesIff` | packages/idempotency-contract/src/idempotency.ts:80-97 | which refusal a call gets before the store, and when |
| `MutationStore.AnswersIff` | packages/idempotency-contract/src/idempotency.ts:99-115 | when a call that reaches the store has expired, conflicts, replays, fails or runs, what it answers, and that only one that runs changes the store |
| `MutationStore.CommitsOnce` | packages/idempotency-contract/src/recording-store.ts:89-152 | in every run of calls, failures, retries, re-cased keys and cleanups, a principal and folded key commit at most once |
| `MutationStore.LaterCall` | packages/idempotency-contract/src/recording-store.ts:97-101 | after a commit every later call with that key runs nothing: it expires, replays that commit's response, or is a payload mismatch if the request differs |
| `MutationStore.ReplayHasCommit` | packages/idempotency-contract/src/recording-store.ts:97-101 | each replay answers with the response of an earlier commit of the same key and the same request |
| `MutationStore.RecordedUntilExpiry` | packages/idempotency-contract/src/recording-store.ts:122-126 | every commit is still recorded as it was unless its key has expired |
| `MutationStore.RecordHasCommit` | packages/idempotency-contract/src/recording-store.ts:122-126 | every record was left by a commit of that key |
| `MutationStore.TablesHoldCommits` | packages/idempotency-contract/src/recording-store.ts:103-132 | collections and outbox always equal the fold of the committed operations' writes, in order |
| `MutationStore.CommittedRowsArePublished` | packages/idempotency-contract/src/recording-store.ts:103-132 | over every run each collection and topic is its start followed by exactly the rows of committed operations for it, in order, and no other name appears |
| `MutationStore.CleanedKeyRefused` | packages/idempotency-contract/src/idempotency.ts:94-97 | cleanup removes a record only if every later call with its key is refused before the store is asked |
| `MutationStore.WithoutUniqueRecordsRunsTwice` | packages/idempotency-contract/src/recording-store.ts:98-101 | with unique records off the same call commits twice |
| `KeyLocks.LockTable.Arrive` | packages/idempotency-contract/src/recording-store.ts:65-80 | taking a place: the tail found, and one's own tail in its stead |
| `KeyLocks.LockTable.Exit` | packages/idempotency-contract/src/recording-store.ts:83-86 | release, and the entry removed only by the call that is still the tail |
| `KeyLocks.SettledMeansReleased` | packages/idempotency-contract/src/recording-store.ts:67-78 | a settled promise chain means that every earlier call of the slot has released |
| `KeyLocks.EntersAtHead` | packages/idempotency-contract/src/recording-store.ts:71-80 | in reachable states a waiter may enter exactly when nobody is ahead of it: the promise chain is a queue |
| `KeyLocks.PlayValid` | packages/idempotency-contract/src/recording-store.ts:65-87 | the chain, the key map and the transaction tail stay consistent over every run |
| `KeyLocks.OneBodyInOrder` | packages/idempotency-contract/src/recording-store.ts:65-87 | one body at a time per slot, in arrival order |
| `KeyLocks.KeyLocksAreBusySlots` | packages/idempotency-contract/src/recording-store.ts:75-85 | the key map has an entry exactly for keys with a holder or waiter |
| `KeyLocks.ExitHandsOver` | packages/idempotency-contract/src/recording-store.ts:81-86 | when a body ends, by return or throw, the next waiter of its slot may enter |
| `KeyLocks.LocksAreQueues` | packages/idempotency-contract/src/recording-store.ts:65-87 | over every run the promise chains, key map and transaction tail admit exactly the moves of a plain queue for each slot, with the same phases |
| `OrganizationLifecycle.Database.GrantRowLock` | packages/db/src/organization-liveness.ts:4-5 | the row lock is granted only on an existing row that nobody holds in conflict |
| `OrganizationLifecycle.Database.ReadDeletionRow` | packages/db/src/organization-liveness.ts:6-9 | the second statement sees the deletions committed by then |
| `OrganizationLifecycle.Database.RecountBlockers` | packages/db/src/postgres-organization-deletion-store.ts:6-10 | deletion recounts live children, contracts and stores under its exclusive lock and stops if the rule objects |
| `OrganizationLifecycle.Database.CommitTransaction` | packages/db/src/postgres-organization-deletion-store.ts:10 | a commit publishes its one change and frees its locks |
| `OrganizationLifecycle.CommitEffect` | packages/db/src/postgres-organization-stores-store.ts:102-142 | for every fact of the tables: it holds after a commit exactly if the work brings it about or it held and the work does not end it |
| `OrganizationLifecycle.CommitMeans` | packages/db/src/postgres-organization-stores-store.ts:102-142 | the living children, active stores, live contracts and deletions that each of the six kinds of work adds and removes, for every organization |
| `OrganizationLifecycle.TablesSayWhatWasCommitted` | packages/db/src/organization-liveness.ts:3-10 | over every interleaving a fact holds exactly if committed work brought it about (or it held at the start) and none has ended it since: a store is active exactly if its addition committed and no removal has since |
| `OrganizationLifecycle.FactsDetermine` | packages/db/src/organization-liveness.ts:3-10 | the facts determine the tables, so nothing else can have changed |
| `OrganizationLifecycle.AloneCommitsIff` | packages/db/src/organization-liveness.ts:3-10 | a transaction on its own commits exactly if the row it locks exists, is not deleted, the rule does not object and its keys are free |
| `OrganizationLifecycle.RollbackLeavesNothing` | packages/db/src/organization-liveness.ts:3-10 | a rollback publishes nothing and frees the transaction's locks |
| `OrganizationLifecycle.OthersDoNotWait` | packages/db/src/organization-liveness.ts:4-5 | without a deletion only two changes of one contract wait for each other |
| `OrganizationLifecycle.NextKeepsValid` | packages/db/src/organization-liveness.ts:3-10 | every statement of every transaction keeps the tables safe, the locks compatible and what each transaction has learnt true |
| `OrganizationLifecycle.PublishKeepsKnowledge` | packages/db/src/postgres-organization-creation-store.ts:24-26 | a commit never takes from another transaction what its reads established, because their row locks conflict otherwise |
| `OrganizationLifecycle.PublishKeepsSafe` | packages/db/src/postgres-organization-stores-store.ts:102-142 | a commit whose transaction checked what it must keeps deleted organizations clear |
| `OrganizationLifecycle.DeletedOrganizationsAreClear` | packages/db/src/organization-liveness.ts:3-10 | in every interleaving a deleted organization has no live child, active store or live contract |
| `OrganizationLifecycle.OneStatementIsUnsafe` | packages/db/src/organization-liveness.ts:6-8 | with one statement instead of two there is a run that leaves a child under a deleted organization |
| `OrganizationLifecycle.ReparentSafety` | packages/db/src/postgres-authz-store.ts:356-361 | a reparent keeps the guarantee exactly if the moved organization is deleted or the new parent is not |
| `OrganizationTree.RecursionEndsIff` | packages/db/src/postgres-organization-creation-store.ts:28 | the duplicate-keeping ancestor recursion ends exactly when the chain never repeats |
| `OrganizationTree.ChainFits` | packages/db/src/postgres-organization-creation-store.ts:28 | a chain that never repeats has at most as many rows as the table: the recursion's measure |
| `OrganizationTree.AncestorChain` | packages/db/src/postgres-organization-creation-store.ts:28 | over a forest the recursion ends and yields the organization and then exactly its ancestors, nearest first |
| `OrganizationTree.WalkUp` | packages/db/src/postgres-authz-store.ts:338-346 | the duplicate-dropping walk ends on any table, cyclic ones too, with exactly the proper ancestors |
| `OrganizationTree.Organizations.UpsertOrganization` | packages/db/src/postgres-authz-store.ts:309-362 | refuses a self parent, a cycle or a missing parent, else stores the row |
| `OrganizationTree.UpsertAnswers` | packages/db/src/postgres-authz-store.ts:309-362 | when an upsert is refused for a self parent, a cycle or a missing parent, and when it is stored |
| `OrganizationTree.ReparentCycles` | packages/db/src/postgres-authz-store.ts:330-352 | a new parent keeps an acyclic tree acyclic exactly if it is neither the organization nor below it |
| `OrganizationTree.UpsertRefusesCycles` | packages/db/src/postgres-authz-store.ts:309-362 | in a forest a reparent to an existing parent is refused exactly when it would close a cycle |
| `OrganizationTree.UpsertKeepsForest` | packages/db/src/postgres-authz-store.ts:309-362 | an upsert that is stored leaves a forest |
| `OrganizationTree.NewLeafKeepsForest` | packages/db/src/postgres-organization-creation-store.ts:35-36 | a child under a fresh id leaves a forest |
| `OrganizationTree.WritersWrite` | packages/db/src/postgres-authz-store.ts:309-362 | each writer leaves exactly its own row changed |
| `OrganizationTree.TreesAreForests` | packages/db/src/postgres-authz-store.ts:309-362 | every tree reachable by upserts, creations and bootstrap is a forest |
| `Notifications.Visible` | packages/notifications/src/notifications.ts:15 | the walk ends on a forest and says exactly whether some grant is on the organization or, for the subtree, above it |
| `Notifications.ReadRows` | packages/db/src/postgres-notifications-store.ts:23 | over a forest the query for a page's organizations ends with exactly the subjects that exist and their ancestors |
| `Notifications.ReadIsForest` | packages/db/src/postgres-notifications-store.ts:23 | over a forest the organizations read for any subjects are a forest without an empty parent id, which is what the walk needs to end |
| `Notifications.List` | packages/notifications/src/notifications.ts:18 | one page: exactly the rows on live, visible organizations in order, and the unread count that the sum over pages adds up |
| `Notifications.RowVisibility` | packages/db/src/postgres-notifications-store.ts:20-23 | for one row the rendered visibility over the organizations read equals the query's grant rule over the whole table |
| `Notifications.CountsAgree` | packages/db/src/postgres-notifications-store.ts:19-24 | the recursive count equals the sum of the unread counts of all pages |
| `Notifications.EmptyAncestorDisagrees` | packages/notifications/src/notifications.ts:15 | with the empty id above a live organization the two differ |
| `Notifications.CountsAgreeIff` | packages/db/src/postgres-notifications-store.ts:19-24 | over a forest they agree for all inboxes and grants exactly if no live organization has the empty id above it |
| `Grants.AuthzStore.NormalizeEntries` | packages/contracts/src/authz/grants.ts:47-64 | the call is rejected exactly if some entry is invalid; otherwise every entry is normalized in its place |
| `Grants.NormalizeMeans` | packages/contracts/src/authz/grants.ts:47-64 | an entry is valid exactly if its trimmed id is not empty, its role one of the six and its scope absent, `self` or `subtree`; it keeps that id and role, and means the subtree exactly if the text says `subtree` |
| `Strings.TrimCuts` | packages/contracts/src/authz/grants.ts:52 | trimming cuts all white space off both ends and nothing else |
| `Grants.AuthzStore.MergeEntries` | packages/db/src/postgres-authz-store.ts:534-550 | the map-filling loop computes the merge |
| `Grants.MergeJoins` | packages/db/src/postgres-authz-store.ts:534-550 | merging leaves one entry per key and loses neither a key nor a subtree scope |
| `Grants.AuthzStore.UpsertRows` | packages/db/src/postgres-authz-store.ts:565-578 | the upsert statement; the count it reports is zero exactly when no row changed |
| `Grants.UpsertJoins` | packages/db/src/postgres-authz-store.ts:565-578 | the upsert joins scopes, keeps the ids of existing rows and touches no other key |
| `Grants.AuthzStore.GrantMany` | packages/db/src/postgres-authz-store.ts:525-590 | the whole call: validated first, all entries or none, one ledger row if some row changed |
| `Grants.AuthzStore.RevokeMany` | packages/db/src/postgres-authz-store.ts:592-627 | removes exactly the named keys whatever their scope, and logs if it removed some |
| `Grants.AuthzStore.ClearGrants` | packages/db/src/postgres-authz-store.ts:629-651 | removes exactly the principal's grants, and logs if there were some |
| `Grants.AuthzStore.RegisterPrincipal` | packages/db/src/postgres-authz-store.ts:405-503 | nothing if nothing differs, no trace if an identity is another principal's, else profile, identities and one audit row |
| `Grants.AuthzStore.BootstrapAdmin` | packages/db/src/bootstrap-admin.ts:155-281 | one transaction: root, principal, identity, admin grant for the subtree and both audit rows; refused without a trace if the identity is another principal's or by the one-root-admin index |
| `Principals.RegisterMeans` | packages/db/src/postgres-authz-store.ts:405-503 | refused exactly if another principal owns a claimed identity, a no-op exactly if nothing differs; otherwise the principal has just those identities and that profile, one audit row says so, and everyone else keeps theirs |
| `Principals.EnrollMeans` | packages/db/src/bootstrap-admin.ts:184-207 | bootstrap sets the name, keeps an email, leaves the one identity, and is refused exactly if another principal owns it |
| `Principals.EnrollTellsEmailIff` | packages/db/src/bootstrap-admin.ts:191-256 | bootstrap's registration row describes the principal before and after exactly if it has no email |
| `Principals.RegistrationsTelescope` | packages/db/src/postgres-authz-store.ts:411-463 | over every run of registrations and bootstraps each row's before is the principal's previous after, email aside, and the last after is what is stored |
| `Grants.GrantJoins` | packages/db/src/postgres-authz-store.ts:525-590 | a grant that does not fail is the join of its entries, whatever their duplicates; a failed one changes no grant and writes no ledger row |
| `Grants.GrantManyRefusedIff` | packages/db/src/postgres-authz-store.ts:525-590 | a call is rejected exactly if some entry is invalid and fails exactly if some valid one has no room (its organization or principal is unknown, or another principal is root admin); refused, it changes no grant and writes no ledger row |
| `Grants.RemovalTells` | packages/db/src/postgres-authz-store.ts:592-651 | revoke and clear take exactly the named grants, and say whether there were any |
| `Grants.BootstrapFailsIff` | packages/db/src/bootstrap-admin.ts:155-281 | bootstrap's transaction is refused if and only if the identity or the place of root admin is another principal's; either way the constraints hold after it |
| `Grants.GrantEachJoins` | packages/db/src/postgres-authz-store.ts:525-590 | granted one call at a time, in any state that meets the constraints, exactly the entries that fit are joined and the others are skipped |
| `Grants.GrantManyIsAnyOrder` | packages/db/src/postgres-authz-store.ts:525-590 | one call with a list and its entries granted one at a time, in any order, leave the same keys, scopes and ids of rows that existed if and only if all entries fit, or those that fit would change nothing |
| `Grants.OneBadEntrySpoilsTheList` | packages/db/src/postgres-authz-store.ts:525-590 | a list with one entry that does not fit grants nothing, while granted one at a time its other entry stands |
| `GrantLedger.SomeRunKnowsOne` | packages/db/src/postgres-authz-store.ts:525-590 | a run that leads there: one entry fits, the other names an unknown organization |
| `GrantLedger.RunIsConstrained` | packages/db/src/postgres-authz-store.ts:525-590 | over every run of the writers the foreign keys hold and there is at most one root admin, so the conditions above apply in every reachable state |
| `GrantLedger.CallEffect` | packages/db/src/postgres-authz-store.ts:525-651 | what each call gives, widens and takes, for every key, told from its arguments and the state before it; in every state that meets the constraints |
| `GrantLedger.ScopeIsJoinSinceRemoval` | packages/db/src/postgres-authz-store.ts:519-524 | over every run a grant stands, and stands for the subtree, exactly if some call since its last removal said so and all its entries fitted when it was made |
| `GrantLedger.RowIdsKept` | packages/db/src/postgres-authz-store.ts:519-524 | a row keeps its id until the grant is taken away |
| `GrantLedger.RowIdsDiffer` | packages/db/src/postgres-authz-store.ts:519-524 | over every run no two grants share a row id |
| `GrantLedger.LedgerTelescopes` | packages/db/src/postgres-authz-store.ts:525-651 | over every run of grant, revoke, clear and bootstrap each row's before is the principal's previous after, from zeros, and the last after is the current counts |
| `GrantLedger.RowsConnect` | packages/db/src/bootstrap-admin.ts:260-281 | any two neighbouring ledger rows of a principal connect and its first starts at zero |
| `GrantLedger.SummaryAdds` | packages/db/src/postgres-authz-store.ts:216-233 | a summary's total is its self count plus its subtree count |
| `GrantLedger.SummaryCounts` | packages/db/src/postgres-authz-store.ts:216-233 | one more grant counts once more in the column of its scope, for its principal alone |
| `GrantLedger.LedgerRowIffChanged` | packages/db/src/postgres-authz-store.ts:579-588 | grant, revoke and clear write one ledger row, with principal, operation and both counts, if some grant changed and none otherwise; registration writes none |
| `ProfileFields.WriteKeepsKuwaitiRule` | packages/db/src/person-profile-store.ts:314-331 | no field write, in whatever order, leaves the mother's answer beside a Kuwaiti nationality |
| `ProfileFields.TriggerNeverRaises` | packages/db/migrations/0214_person_profiles_origin.sql:13-21 | a write breaks only on a column's own refusal: the row trigger never raises |
| `ProfileFields.WriteTouches` | packages/db/src/person-profile-store.ts:314-331 | a stored write leaves in its field exactly the column's form of the value, null for the empty text, marked as written; a Kuwaiti nationality clears the mother's answer; every other field stays |
| `ProfileFields.WriteAnswers` | packages/db/src/person-profile-store.ts:314-331 | when a write is refused, violates a check or breaks; otherwise it is stored |
| `BrowserSave.CommitIsRightful` | packages/db/src/person-profile-store.ts:262-298 | a transaction that reaches COMMIT found no receipt, was inside the token's time, saw the token's baseline and wrote that value |
| `BrowserSave.BrowserCommitsIff` | packages/db/src/person-profile-store.ts:269-295 | a browser save sends its COMMIT exactly if it is authorized, unspent, in time, matches its baseline, its value is stored and its keys are free; and what it then writes |
| `BrowserSave.BrowserRefusesIff` | packages/db/src/person-profile-store.ts:269-311 | when it is refused as not authorized, expired, changed or not canonical |
| `BrowserSave.OlderAnswers` | packages/db/src/person-profile-store.ts:337-370 | when the older path commits and when it refuses, with each reason |
| `BrowserSave.NextKeepsValid` | packages/db/src/person-profile-store.ts:262-312 | every step of every interleaving keeps lock, pending write, history, receipts and outcomes consistent |
| `BrowserSave.CallsMayMeet` | packages/db/src/person-profile-store.ts:262-312 | a save may fail before its lock, lose its session, break before COMMIT, or hear or not hear the answer to COMMIT, and what it then answers |
| `BrowserSave.BodiesDecide` | packages/db/src/person-profile-store.ts:269-311 | with the lock it acts on its decision, and tries a token conflict once more |
| `BrowserSave.ServerMay` | packages/db/src/person-profile-store.ts:294-296 | the server commits profile, receipt and history together, or none of it |
| `BrowserSave.OthersMay` | packages/db/src/person-profile-store.ts:262-312 | other calls, catalogue changes and other audit rows happen in between |
| `BrowserSave.TokenSavesOnce` | packages/db/src/person-profile-store.ts:262-312 | over every run a token causes at most one field write and one receipt, both together; each write landed on a profile matching its token's baseline, which the write before it left |
| `BrowserSave.ProfileHoldsWhatWasSaved` | packages/db/src/person-profile-store.ts:262-312 | over every run each field holds exactly what the committed saves entered last, the mother's answer cleared by a Kuwaiti nationality, and nothing else |
| `BrowserSave.CommittedIsAWrite` | packages/db/src/person-profile-store.ts:294-295 | a call that answers committed made one of those writes |
| `BrowserSave.OutcomesTell` | packages/db/src/person-profile-store.ts:296-312 | committed and already-committed name a receipt in the table for that token and payload; after any outcome but unknown (or an older path's success or error) the call has written nothing and never will; at most two attempts |
| `BrowserSave.DecideReplays` | packages/db/src/person-profile-store.ts:273-278 | with the receipt present an authorized save answers it or the mismatch, whatever the clock, baseline and principal |
| `BrowserSave.ReceiptSettlesToken` | packages/db/src/person-profile-store.ts:273-278 | once a receipt exists no later save with its token writes, in any continuation, and each such save waits, fails before writing, is refused for its session, or answers that receipt or the mismatch |
| `BrowserSave.KuwaitiRuleHolds` | packages/db/src/person-profile-store.ts:314-331 | in every reachable profile, by either commit path, a Kuwaiti nationality means a null and unwritten mother's answer |
| `ProfileStore.Store.Transaction` | packages/db/src/person-profile-store.ts:269-298 | the body of the save's try: what it returns or throws, and that COMMIT was sent exactly if the decision was to write |
| `ProfileStore.Store.SaveBrowser` | packages/db/src/person-profile-store.ts:262-312 | the save with its `committing`, `discard` and `retryDedupe` flags, and at most one retry |
| `ProfileStore.SavedMeans` | packages/db/src/person-profile-store.ts:262-312 | after committed the profile holds the value that was entered and the receipt is in the table; only an unknown save may have done so too, any other did not |
| `ProfileStore.SaveIsAPlay` | packages/db/src/person-profile-store.ts:262-312 | a save run on its own is one play of the interleaving machine with the same profile, receipts and outcome |
| `JobLeases.SpansDisjoint` | packages/observability/src/jobs.ts:26-40 | in every history two runs of a job that got the lease have disjoint spans from acquire to last confirmed renewal |
| `JobLeases.SucceededWasConfirmed` | packages/observability/src/jobs.ts:30-40 | a run recorded as succeeded had no refused or failed renewal |
| `JobLeases.RecordSaysHowItWent` | packages/observability/src/jobs.ts:25-38 | in every history a record says succeeded exactly if its run got the lease, its work returned and no renewal was refused or failed, and refused overlap exactly if it did not get the lease |
| `JobLeases.ThrewIff` | packages/observability/src/jobs.ts:37 | a run remembers exactly whether its work threw |
| `JobLeases.LeaseLasts` | packages/observability/src/jobs.ts:52 | nobody else gets in before the lease has run its time, and anybody does from then on |
| `JobLeases.RenewalLasts` | packages/observability/src/jobs.ts:53 | a renewal in time gives another full term, one too late or fenced off none |
| `JobLeases.WorkDoesNotOverlap` | packages/observability/src/jobs.ts:31-38 | no later run's work overlaps a recorded success, unless the store had already answered the renewal awaited when its work ended |
| `JobLeases.OvertakenSucceedsIff` | packages/observability/src/jobs.ts:31-38 | in every history, a run at work after a later run of its job acquired can be recorded as a success in some continuation if and only if it has not learnt of a loss and its renewal is confirmed with the answer still on its way |
| `JobLeases.ReusedRenewalOverlaps` | packages/observability/src/jobs.ts:31-32 | two recorded successes whose work overlapped |
| `JobLeases.EarlierRunStillWorks` | packages/observability/src/jobs.ts:31-38 | a history with a recorded success, final renewal and all, while an earlier run of the job is still at work |
| `JobLeases.LeaseGoesOnlyByItsHolder` | packages/db/src/postgres-job-runs-store.ts:10-12 | a lease disappears only through its own holder and changes hands only after it lapsed |
| `JobLeases.ReleaseFrees` | packages/observability/src/jobs.ts:54 | a finished run gives back its own lease, and only that; the next one gets in at once |
| `JobLeases.FaultsHappen` | packages/observability/src/jobs.ts:32-38 | what a crash, a renewal that throws or is refused and an unwritten record leave behind, and when they can happen |
| `JobLeases.StrayRenewalsCount` | packages/observability/src/jobs.ts:32 | a renewal whose sender gave up on it may still extend the lease |
| `JobLeases.NextKeepsValid` | packages/observability/src/jobs.ts:26-58 | every step of acquire, renew, answer, finish, record, release, crash and lapse keeps the histories ordered |
| `JobLeases.MemoryJobRunsStore.Acquire` | packages/observability/src/jobs.ts:52 | acquires exactly when there is no unexpired lease |
| `JobLeases.MemoryJobRunsStore.Renew` | packages/observability/src/jobs.ts:53 | renews exactly the caller's own unexpired lease |
| `JobLeases.MemoryJobRunsStore.Release` | packages/observability/src/jobs.ts:54 | removes the lease only if the caller holds it |
| `JobLeases.MemoryJobRunsStore.LastSuccesses` | packages/observability/src/jobs.ts:57 | exactly the jobs that succeeded, each with its latest finish |
| `JobLeases.Runner.Renew` | packages/observability/src/jobs.ts:32 | a renewal in flight is reused, a lost run starts none |
| `JobLeases.Runner.Conclude` | packages/observability/src/jobs.ts:38 | a lost lease turns success into failure |
| `EmailOutbox.SendsAreBounded` | packages/notifications/src/email-outbox.ts:12 | over any workers, crashes and lapsed claims a message is sent at most `maxAttempts` times, each under its own attempt number |
| `EmailOutbox.AttemptRowsAreUnique` | packages/db/src/postgres-email-outbox-store.ts:6 | each attempt number gets at most one attempt row, and a row says sent only after a send |
| `EmailOutbox.FinalIsNeverLeft` | packages/db/src/postgres-email-outbox-store.ts:6 | a sent, failed, not sent or suppressed message never changes again |
| `EmailOutbox.NextKeepsValid` | packages/db/src/postgres-email-outbox-store.ts:6 | claims open new attempt numbers, completions are fenced, sends match started claims, after every step |
| `EmailOutbox.ClaimedRows` | packages/db/src/postgres-email-outbox-store.ts:2-6 | a claim hands out the chosen rows under their next numbers and keeps them from others for 15 minutes, and no other row changes |
| `EmailOutbox.EnqueuedRow` | packages/notifications/src/email-outbox.ts:6 | enqueueing adds one untried message that can be claimed from its time on, and nothing else |
| `EmailWorker.EmailOutboxService.CompleteRow` | packages/db/src/postgres-email-outbox-store.ts:6 | completion changes message and attempt rows together or not at all; it throws because the claim is lost, nothing was applied, or the COMMIT was applied and its answer lost |
| `EmailWorker.EmailOutboxService.ProcessRow` | packages/notifications/src/email-outbox.ts:12 | one row through all branches and both handlers |
| `EmailWorker.EmailOutboxService.ProcessDue` | packages/notifications/src/email-outbox.ts:12 | a pass claims, handles every claimed row whatever the others did, and fails if some row did |
| `EmailWorker.RowCloses` | packages/notifications/src/email-outbox.ts:7-12 | a row still held whose completions are applied stays in sending exactly if the port broke after its send began; it returns to pending only below the limit and after the backoff; past the limit it is closed without a send |
| `EmailWorker.SentRowReports` | packages/notifications/src/email-outbox.ts:12 | a row is sent once, under its own number, exactly if it is within the limit, wanted, in production, configured, addressed and rendered; the message, its code, its retry and the attempt row follow from the port's answer |
| `EmailWorker.UnsentRowReports` | packages/notifications/src/email-outbox.ts:12 | any other row is closed for the first reason that applies, or as failed without a code if that completion is lost |
| `EmailWorker.RetryDelayDoubles` | packages/notifications/src/email-outbox.ts:12 | the retry delay is a second, then doubles, up to an hour |
| `EmailWorker.RowLeavesOthers` | packages/notifications/src/email-outbox.ts:7-12 | a row never touches another row's message |
| `EmailWorker.PassIsPlay` | packages/notifications/src/email-outbox.ts:12 | a whole pass is a play of the outbox machine, so its bounds hold of any number of passes |
| `EmailWorker.PassFailsIff` | packages/notifications/src/email-outbox.ts:12 | a pass fails exactly if one of its rows does, each met in the state the rows before it left |
| `Csv.CellReadsBack` | packages/exports/src/csv.ts:3-7 | a written cell followed by a comma or line end reads back as the guarded text |
| `Csv.CsvReadsBack` | packages/exports/src/csv.ts:9-12 | a reader of UTF-8 by section 2 of RFC 4180 gets back from the file's bytes, after the byte-order mark, exactly the guarded cells, lone surrogates replaced and a row without cells as one empty cell |
| `Csv.CsvReadsBackIff` | packages/exports/src/csv.ts:9-12 | it gets back the guarded cells themselves if and only if every row has a cell and no cell has a lone surrogate |
| `Csv.FilesEqualIff` | packages/exports/src/csv.ts:9-12 | two files have equal bytes if and only if the same cells can be read of both |
| `Csv.NoCellStartsAFormula` | packages/exports/src/csv.ts:1-6 | no cell read back starts with a dangerous character, and apart from lone surrogates only cells that did are changed, by one apostrophe |
| `Utf8.DecodesEncoded` | packages/exports/src/csv.ts:11 | strict decoding of the encoded text gives it back with its lone surrogates replaced |
| `Utf8.SameBytesIff` | packages/exports/src/csv.ts:11 | two texts have the same bytes if and only if they agree once their lone surrogates are replaced |
| `ActorAssertion.MemoryReplayStore.Consume` | packages/actor-assertion/src/verify.ts:151-159 | the pruning loop keeps exactly the unexpired identifiers, then the new one is refused or remembered |
| `ActorAssertion.MemoryReplayStore.VerifyAssertion` | packages/actor-assertion/src/verify.ts:62-140 | the whole verification: refusals in order, then the replay store |
| `ActorAssertion.DecodesIff` | packages/actor-assertion/src/verify.ts:19-57 | which payloads are claims |
| `ActorAssertion.ClaimsRoundTrip` | packages/actor-assertion/src/verify.ts:19-57 | every set of claims can be said, and is read back as said, act and key id included |
| `ActorAssertion.SplitJoins` | packages/actor-assertion/src/verify.ts:70 | splitting finds exactly the parts between the separators |
| `ActorAssertion.ChecksInOrder` | packages/actor-assertion/src/verify.ts:62-128 | for every refusal and for acceptance: the token gets it exactly if that check is the first to fail, or none does |
| `ActorAssertion.StoreKeyIdentifies` | packages/actor-assertion/src/verify.ts:146-149 | for issuers neither of which starts with the other and a NUL, keys are equal exactly if issuer and identifier are |
| `ActorAssertion.KeysMeetIff` | packages/actor-assertion/src/verify.ts:146-149 | two different issuers have identifiers with one key if and only if one issuer starts with the other and a NUL |
| `ActorAssertion.AcceptedTwiceHasExpired` | packages/actor-assertion/src/verify.ts:129-159 | if an issuer's identifier is accepted twice the first had expired by then |
| `ActorAssertion.PayloadAcceptedOnce` | packages/actor-assertion/src/verify.ts:129-159 | one payload is never accepted twice |
| `ActorAssertion.ReplayedIffUnexpired` | packages/actor-assertion/src/verify.ts:142-160 | unless one issuer extends another with a NUL, an assertion that passes every check is a replay exactly if an unexpired earlier acceptance used its identifier, despite lazy pruning |
| `ActorAssertion.FreshIsRefused` | packages/actor-assertion/src/verify.ts:129-160 | for every issuer and every extension of it with a NUL there is a run of one verifier that accepts an assertion of the one and then refuses as a replay an identifier of the other that was never used |
| `ActorAssertion.ReplayExactIff` | packages/actor-assertion/src/verify.ts:129-160 | in every run over a set of issuers the replay verdict is exact if and only if none of them extends another with a NUL |
| `ActorAssertion.EarlyRefusalChangesNothing` | packages/actor-assertion/src/verify.ts:62-137 | a refusal other than a replay leaves the replay store unchanged; an earlier check's refusal is the verdict, and a store that fails makes it unavailable |
| `ActorAssertion.AcceptanceMeans` | packages/actor-assertion/src/verify.ts:62-140 | an accepted token has four parts, valid claims, a live window, the expected audience and subject and a verified signature |
| `Brackets.End` | tools/parity/data-map-census.py:86-99 | the loop with stack, quote and escape computes the scan |
| `Brackets.EndFindsTheCloser` | tools/parity/data-map-census.py:86-99 | wherever a well-formed group stands in a text, its end is the closing bracket, through nesting, quotes and escapes |
| `Brackets.FoundEndClosesAGroup` | tools/parity/data-map-census.py:86-99 | whenever an end is found the text up to it is one well-formed group |
| `Brackets.WhyNoEnd` | tools/parity/data-map-census.py:86-99 | a text is unterminated exactly if it can still go on to an end, and unbalanced exactly if nothing behind it can |
| `Brackets.Split` | tools/parity/data-map-census.py:101-114 | the index loop ends and computes the arguments |
| `Brackets.SplitUndoesJoin` | tools/parity/data-map-census.py:101-114 | splitting the comma join of self-contained arguments gives back each, stripped |
| `AccountManager.Store.Commit` | packages/db/src/postgres-organization-account-manager-store.ts:15 | the commit's refusals in order, and its writes |
| `AccountManager.CommitsIff` | packages/db/src/postgres-organization-account-manager-store.ts:15 | when a commit goes through and, for each refusal, when it is refused |
| `AccountManager.CommitMeans` | packages/db/src/postgres-organization-account-manager-store.ts:15 | a refused commit changes nothing; a done one sets what was asked, leaves other organizations alone, logs exactly the change if there is one and one audit row with its token and receipt |
| `AccountManager.HistoryIsReplayable` | packages/db/src/postgres-organization-account-manager-store.ts:15 | over every run the events chain from none without no-ops, replaying them gives the current manager, and tokens and receipts are spent once |
| `AccountManager.EventsConnect` | packages/db/migrations/0208_organization_account_manager_events.sql:1-10 | neighbouring events of an organization connect, its first starts at none, none is a no-op |

## Left out

- HTTP handlers, forms, cookies, rendering, telemetry, alerts, migration running and configuration checks: plumbing.
- Cryptography, key sets, connection pools and base64 or JSON parsing: foreign code, taken as parameters.
- The other safe-write stores (language, bank details, status, terms, notes, approved to hire): the same commit shape again.
- Advisory locks in `OrganizationLifecycle` only remove interleavings and are left out; the safety theorem holds without them.
- `PostgresOrganizationStoresStore.update` changes no column the guarantee speaks of; store removal racing a new contract is not guarded by the code.
- `OrganizationLifecycle.DeletedOrganizationsAreClear`: says nothing of organizations moved by `upsertOrganization`; see `ReparentSafety` for exactly when they keep it.
- `GrantLedger.LedgerRowIffChanged`: does not cover bootstrap, which writes a row whenever its transaction commits; its fast path before the transaction, which only returns earlier, is not modelled.
- Audit rows carry their summaries and operation; actor, request and organization references are not modelled.
- `CanonicalJson.CanonicalJsonIdentifies`: numbers are compared as rendered literals, so values JavaScript renders alike (zero and minus zero) are equal.
- `structuredClone` copies are values here, so a caller that keeps the transaction object and inserts after its operation returned is not modelled.
- `MutationStore.CommitsOnce`: needs unique records, one retention and one clock that does not go back; a clock that is not a safe integer is not modelled. `LaterCall` and `ReplayHasCommit` also need a hash without collisions.
- `BrowserSave.ReceiptSettlesToken`: a save whose COMMIT was already sent when the receipt appeared is not spoken of; liveness of a save, and `not_found` from the receipt lookup, promise nothing.
- `BrowserSave` covers one principal; other principals and other audit writers appear as steps that add rows, and a phone or handle that another profile has as a fact of the transaction.
- `ProfileFields.WriteKeepsKuwaitiRule`: assumes fixed catalogue kinds and codes; recoding a catalogue item to KW afterwards is outside it.
- `prepare`, `issue` and receipt status of the profile store read only and are not modelled.
- `JobLeases`: the interval timer fires at any moment while work runs; `latest`, missed-run alerts and the `failRenewal` test switch are not modelled.
- `EmailOutbox.SendsAreBounded`: exactly-once delivery is not promised; a send whose answer is lost is repeated under the next number. Which due rows a claim picks, and their order, is left free.
- Rendering of email templates is a fact of the row (`rendered`); enqueueing is modelled without its idempotency key.
- `Csv.CsvReadsBack`: cells are texts already; `String(value)` is not modelled.
- `Brackets.Split`: which Unicode characters `str.strip` removes is a fixed list; the census's other regular expressions are not modelled.
- `AccountManager.HistoryIsReplayable`: a manager row removed by the cascade of a deleted principal writes no event and is outside the runs.
- Listing renders a notification's id here; its text and link, dismissal and marking as read are not modelled.
