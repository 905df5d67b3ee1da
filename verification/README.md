# MaaS: a verified model

MaaS keeps a registry of Kafka topics and RabbitMQ vhosts in PostgreSQL, with an SQLite replica that
serves reads when the master is down. This project models the parts of it that carry state machines,
string algorithms and table invariants, and proves what they promise. Every module is one part of the
service:

- `Transactions`: nested transaction contexts over one shared context object, `WithTx`, `UsingDb` and the
  failover to the replica. Client programs are trees of nested blocks; what the code does with them is
  compared with a flat meaning and with the program whose blocks have been erased.
- `ArrayPredicate`: the text search that stands in for array membership on the replica.
- `JsonText`, `RowSpelling`: how a value of the master is spelled by a full copy and by an event.
- `SqlText`, `Replicator`: the SQL text sent to the replica, read back from its characters, and the replay
  of row events after a snapshot.
- `TopicNaming`: one-pass placeholder substitution and the copy of versioned topics.
- `TopicSettings`, `TemplatePropagation`: settings equality, the update of one topic, and the multi-step
  propagation of a template change that may fail at any write.
- `Classifiers`: symmetric classifiers of a blue/green domain, by warmup and by insertion.
- `WaitList`: custom resources parked for a missing template and the retry pass.
- `InstanceRegistry`: broker instances, their one default, and the registration at start-up.
- `Composite`: composites of namespaces over tables with surrogate keys, a unique index, a deferred guard
  and a cascade.
- `Watchdog`, `CountingMutex`: the two interleaving protocols.
- `Configurator`: applying an aggregated configuration in the order of its kinds.
- `Discrepancy`: the report grouped by instance, and the counts per scope.

Objects that the Go code updates in place are classes whose methods are proved equal to specification
functions over the old state; the properties of those functions are lemmas, most of them over all runs. The
random iteration order of a Go map is a nondeterministic choice from its key set. Calls into code outside
the model (brokers, health checks, handlers, a failing statement) are parameters that may succeed or fail;
`budget` parameters say how many writes succeed before one fails.

Where the code falls short of a statement one might expect, the project keeps the code as it is, gives the
input, and proves when the statement holds:

- a program that returns nil has stored each of its `WithTx` writes once, unless one stands in an access made
  with the master reported down and no replica, which loses it, or an access wrote, lost its connection and
  was repeated on the replica, which stores it twice (`Transactions.NilMeansStoredIff`, `LostWriteIff`,
  `RetryStoresTwice`); a failing one has left nothing behind exactly when no write precedes its transaction
  (`FailureLeavesNothingIff`, `EarlyUsingDbWriteSurvives`);
- the replica's array search finds no element at all in a row that an event wrote since the last full copy,
  because that row holds the array as JSON (`ArrayPredicate.CacheAgreesWithMaster`, `ReplayedRowAgreementIff`,
  `ReplayedRowLosesElements`); in a copied row it misses an element that PostgreSQL renders quoted and can
  match across elements or inside an element holding commas (`CopiedRowAgreementIff`,
  `CopiedRowFindsPlainValues`, `CommaValueCrossesElements`, `CommaElementBuriesPiece`). The code's comment names
  commas, quotes and braces; blanks, backslashes, the empty string and the word NULL are rendered quoted as well;
- an update or deletion of a copied row with an array, an object or a longer list in it is lost on the replica,
  because its event spells these values otherwise than the copy did; in a table with a key a change is
  replayed exactly when it is an insert, changes nothing, or its old row is free of NULL and was last written
  by an event or is spelled alike both ways (`Replicator.ReplayAgreesIff`, `KeyedReplayIff`,
  `ResyncThenReplayIff`, `CopiedArrayRowIsNotFound`);
- a full copy whose reading of the master breaks off reports success with truncated tables, because the code
  does not ask the result set why it ended; the copy is whole exactly when every table was read to its end
  (`Replicator.CopyIsWholeIff`, `BrokenReadTruncates`);
- `%name%namespace%` passes the check on copied templates and substitutes no namespace
  (`TopicNaming.OverlappingTemplateCollides`, `CopyCollidesIff`);
- a template request equal to the stored one is answered with success even when an earlier request broke off
  half way; agreement after a run depends on what that one left behind (`TemplatePropagation.AgreesAfterRunIff`,
  `SuccessfulAnswerAgreesIff`, `OldRequestRepairsNothing`), and a topic applied with the template meanwhile,
  new or again, disagrees with those already updated (`CleanTopicsAgreeIff`). A propagation clears the
  versioned flag of the topics it updates;
- clearing that flag breaks the symmetry of classifiers exactly for a topic that answers in one namespace of
  its domain only (`Classifiers.StepKeepsSymmetry`, `UnflaggedTopicSplits`);
- a retry pass that breaks off leaves a resource waiting although its template is there
  (`WaitList.BrokenPassClosesIff`); a pass overwrites FAILED with COMPLETED unless it breaks off in between
  (`WaitList.FailedIff`), and a resource is not parked at all when another waiting one has its name and
  namespace (`WaitList.ParkedIff`);
- a warmup is refused exactly when the classifier of a topic without one is taken, or one classifier is
  registered separately in both namespaces (`Classifiers.WarmupFailsIff`, `CloningFailsIff`);
- cleaning a member namespace rewrites its composite without a modify index and so resets the stored one
  (`Composite.IndexFallsIff`, `CleanupReopensOldIndexes`);
- a registry that began empty refuses a bootstrap file half way exactly at an instance that is not flagged and
  repeats the id which is the default by then (`InstanceRegistry.BootRefusesIff`, `RepeatedIdIsRejected`).

## Model

| member | source | states |
|---|---|---|
| `Transactions.RunRefinesFlat` | maas/maas-service/dao/tx.go:31-60 | inside an open context, over a live master, every nested program does exactly what its flat meaning says: same error, same direct writes, same transactional writes, at most one begin, nesting restored |
| `Transactions.AccessRefinesFlat` | maas/maas-service/dao/dao.go:224-278 | the same for one `UsingDb` or `WithTx` access: it runs its closure once, on the transaction's connection if one is open |
| `Transactions.Run` | maas/maas-service/dao/tx.go:31-102 | whatever the monitor answers, a block gives the context back at its entry nesting, keeps a started transaction on its node with everything written, and adds at most one begin to the log |
| `Transactions.OutermostBlock` | maas/maas-service/dao/tx.go:42-59 | for every tree of blocks: at most one begin, then exactly one commit or rollback, and the transaction's writes appear together, in order, iff the outermost block returns nil |
| `Transactions.EnclosedIsErased` | maas/maas-service/dao/dao.go:280-298 | when each write stands in some `WithTx`, nesting has no meaning: the program is the plain sequence of its writes, all of it transactional |
| `Transactions.NestedIsAtomic` | maas/maas-service/dao/tx.go:31-60 | a nested program refines one atomic block: all writes of the erased program or none, decided by its error and the commit |
| `Transactions.LocalIsAtomic` | maas/maas-service/dao/dao.go:288-292 | so does a `WithTx` call outside any context, which commits exactly at its own end |
| `Transactions.NothingVisibleBeforeCommit` | maas/maas-service/dao/tx.go:77-93 | under any failover and any retry on the replica, no `WithTx` write is visible while the context is open |
| `Transactions.AccessInvisible` | maas/maas-service/dao/dao.go:245-257 | the same through one access that may run its closure on the master and again on the replica |
| `Transactions.FailureLeavesNoTrace` | maas/maas-service/dao/tx.go:49-59 | under any failover an outermost block that reports an error has stored nothing, and its log is empty or one begin with one commit or rollback |
| `Transactions.FailureLeavesNothingIff` | maas/maas-service/dao/tx.go:49-59 | over a live master, a failing outermost block leaves nothing behind iff no write of its body precedes the transaction or goes around it |
| `Transactions.EarlyUsingDbWriteSurvives` | maas/maas-service/dao/dao.go:229-235 | a `UsingDb` write made before any `WithTx` of the context is outside the transaction and survives whatever fails later |
| `Transactions.SuccessGains` | maas/maas-service/dao/dao.go:224-298 | under any failover a program that swallows no error and returns nil has stored the writes of all accesses that called their closure, and more exactly when an access wrote, lost its connection and was repeated |
| `Transactions.WritingOnlyAdds` | maas/maas-service/dao/tx.go:42-59 | a program whose writes are enclosed takes back nothing that was stored or written before it, whether it succeeds or not |
| `Transactions.NilMeansStoredIff` | maas/maas-service/dao/dao.go:245-257 | for every such program: nil means stored, in order and once, iff no write stands in an access made with the master down and no replica and no access was repeated after writing; a write is missing iff the first fails, one is stored twice iff the second does |
| `Transactions.NothingElseIsStored` | maas/maas-service/dao/tx.go:42-59 | for every program whose writes are enclosed, whatever fails or is swallowed: it stores only writes it contains |
| `Transactions.RetryStoresTwice` | maas/maas-service/dao/dao.go:254-257 | the input: a `UsingDb` whose connection breaks after an inner `WithTx` wrote returns nil and commits that write twice |
| `Transactions.LostWriteIff` | maas/maas-service/dao/dao.go:245-248 | one `WithTx` write, in an open context or outside any, returns nil without being stored iff the master is reported down and there is no replica |
| `Transactions.ReplicaAnswers` | maas/maas-service/dao/dao.go:254-277 | with the master down a caller of `UsingDb` gets the replica's answer: a refused write as unavailable for update, a missing row as not found in the cache, any other error as unavailable, also where a failed rollback wraps the error, and success only for success |
| `Transactions.WriteWhileDown` | maas/maas-service/dao/dao.go:254-273 | the three cases outside a context: a write, a missing row, any other error; nothing changes |
| `Transactions.MasterAnswers` | maas/maas-service/dao/dao.go:224-248 | while the master answers its result is the caller's, unless its connection breaks and there is a replica |
| `Transactions.FailedBlockReports` | maas/maas-service/dao/tx.go:49-59 | an outermost block whose body fails after its transaction began is rolled back and reports that error, or an error wrapping it when the rollback fails too |
| `Transactions.BaseDao.Begin` | maas/maas-service/dao/tx.go:77-83 | the first use starts the transaction on the connection it is given, later ones reuse it |
| `Transactions.BaseDao.CommitTx` | maas/maas-service/dao/tx.go:85-93 | publishes what the transaction has written if the commit succeeds, hands its error on otherwise, and closes it either way; nothing without a transaction |
| `Transactions.BaseDao.RollbackTx` | maas/maas-service/dao/tx.go:94-102 | drops what the transaction has written and closes it, and reports a rollback that fails |
| `Transactions.BaseDao.WithTransactionContext` | maas/maas-service/dao/tx.go:31-60 | on the shared context object: the outermost call ends the transaction, a nested one only counts |
| `Transactions.BaseDao.Finish` | maas/maas-service/dao/tx.go:43-59 | the end of a block: a nested one hands its error on, the outermost commits or rolls back; a rollback that fails wraps the body's error, which then no longer counts as a lost connection |
| `Transactions.BaseDao.UsingDb` | maas/maas-service/dao/dao.go:224-278 | choice of connection, one retry on the replica after a master failure, and the translation of the replica's errors |
| `Transactions.BaseDao.WithTx` | maas/maas-service/dao/dao.go:280-298 | joins an open context or makes one of its own and ends it |
| `ArrayPredicate.CacheMatchesRuns` | maas/maas-service/dao/array_predicate.go:15-21 | for every array, in the form a copy or an event stored it, and every value: the replica matches exactly the runs of consecutive comma-separated pieces of the stored text |
| `ArrayPredicate.CopiedRowFindsPlainValues` | maas/maas-service/dao/array_predicate.go:15-21 | for every copied array and every value rendered unquoted: the replica matches iff the value is an element or stands between two commas inside one |
| `ArrayPredicate.CopiedRowAgreesWithMaster` | maas/maas-service/dao/array_predicate.go:9-14 | over comma-free elements of a copied row, empty array and common prefixes included, the replica answers for such a value what the master answers |
| `ArrayPredicate.CopiedNamespacesAgree` | maas/maas-service/dao/array_predicate.go:9-21 | on a copied row of names made of small letters, digits and dashes the replica finds such a name exactly when the master does, the name `null` apart |
| `ArrayPredicate.CopiedRowAgreementIff` | maas/maas-service/dao/array_predicate.go:9-14 | over comma-free elements of a copied row, for any value without comma or quote: the two agree iff the value needs no quotes, or is no element and not the empty value on the empty array |
| `ArrayPredicate.ReplayedRowFinds` | maas/maas-service/dao/replicator/backup_storage_replicator.go:447-459 | in a row an event wrote, whose array is stored as marshalled JSON, the replica never finds a value as an element: only between two commas inside one, or as the empty list itself |
| `ArrayPredicate.ReplayedRowAgreementIff` | maas/maas-service/dao/replicator/backup_storage_replicator.go:447-459 | over comma-free elements of such a row the two agree iff the value is no element |
| `ArrayPredicate.CacheAgreesWithMaster` | maas/maas-service/dao/array_predicate.go:9-21 | what is left of the promise, for plain values over comma-free elements: the replica answers like the master for copied rows, and for rows an event wrote iff the value is no element |
| `ArrayPredicate.ReplayedRowLosesElements` | maas/maas-service/service/kafka/kafka_service_dao.go:219-231 | the input: the two namespaces of a template written since the last copy are not found in its domain |
| `ArrayPredicate.OccurrenceIsRun` | maas/maas-service/dao/array_predicate.go:18 | text found between two commas of a list is a run of whole parts of it |
| `ArrayPredicate.RunOccurs` | maas/maas-service/dao/array_predicate.go:18 | conversely every run of parts is found |
| `ArrayPredicate.TrimmedLiteral` | maas/maas-service/dao/array_predicate.go:18 | trimming the braces of a stored array gives back its joined elements and cuts nothing off an element that begins or ends with a brace |
| `ArrayPredicate.CommaValueCrossesElements` | maas/maas-service/dao/array_predicate.go:18 | a value with a comma is matched across two elements |
| `ArrayPredicate.CommaElementBuriesPiece` | maas/maas-service/dao/array_predicate.go:18 | an element with commas is matched by what stands between them |
| `JsonText.SpellingsAgreeIff` | maas/maas-service/dao/replicator/backup_storage_replicator.go:447-459 | PostgreSQL's text of a jsonb value and the marshalled one coincide iff it has no object member, no array of two or more items, and no character that only json.Marshal escapes |
| `RowSpelling.CellsAgreeIff` | maas/maas-service/dao/replicator/backup_storage_replicator.go:447-482 | which values a copy and an event store as the same cell: no array ever, a document only without blanks and escapes |
| `RowSpelling.AlikeIff` | maas/maas-service/dao/replicator/backup_storage_replicator.go:447-482 | a row is spelled alike both ways iff each of its values is |
| `RowSpelling.ArraysBegin` | maas/maas-service/dao/replicator/backup_storage_replicator.go:447-459 | a copied array is stored with braces, one that an event wrote with brackets |
| `RowSpelling.DocumentsAreSpelled` | maas/maas-service/dao/replicator/backup_storage_replicator.go:447-459 | a document with one number: the two texts, character by character, differ in the blank after the colon |
| `RowSpelling.ClassifierIsNotAlike` | maas/maas-service/dao/schema/22_bg_domain.go:103-107 | the input: a document with a member, as every stored topic classifier is, is spelled in two ways |
| `TopicNaming.ReplaceFillsHoles` | maas/maas-service/service/kafka/kafka_service.go:169-173 | one pass puts the values into the placeholders of the template as it was read once; a substituted value is never expanded again |
| `TopicNaming.PlaceholdersGiveWay` | maas/maas-service/service/kafka/kafka_service.go:169-173 | the six placeholders, spelled out: `{{name}}` and `%name%` give way to the name, `{{tenantId}}` and `%tenantId%` to the tenant, `{{namespace}}` and `%namespace%` to the namespace, and reading goes on behind them |
| `TopicNaming.PlainRun` | maas/maas-service/service/kafka/kafka_service.go:169-173 | text without an opening brace or percent sign stays as it is |
| `TopicNaming.DefaultResolves` | maas/maas-service/service/kafka/kafka_service.go:147-182 | without a template of its own every topic gets `maas.`, the namespace, the tenant if it has one, and its name, with dots between, iff that has at most 249 characters; an unversioned topic of a domain takes the origin's namespace |
| `TopicNaming.TemplateResolves` | maas/maas-service/service/kafka/kafka_service.go:147-182 | with a template of its own the name is made from that one, under the same namespace and limit |
| `TopicNaming.NameDeterminesPartIff` | maas/maas-service/service/kafka/kafka_service.go:169-173 | two names, two tenants or two namespaces, all else equal, give one Kafka name iff they are equal or the template holds none of that part's placeholders |
| `TopicNaming.TokensDoNotClash` | maas/maas-service/service/kafka/kafka_service.go:169-173 | no token is a prefix of another: two tokens never match at one place |
| `TopicNaming.TokenOrderIsIrrelevant` | maas/maas-service/service/kafka/kafka_service.go:169-173 | the replacer gives the same name for every order of its tokens |
| `TopicNaming.NameDeterminesNamespaceIff` | maas/maas-service/service/kafka/kafka_service.go:169-173 | two namespaces give one name iff they are equal or the template substitutes none: substitution is injective in the namespace, also between namespaces of different lengths |
| `TopicNaming.BracesAreSubstituted` | maas/maas-service/service/kafka/kafka_service.go:1287-1290 | `{{namespace}}` anywhere in a template is substituted, whatever surrounds it |
| `TopicNaming.PercentIsSubstituted` | maas/maas-service/service/kafka/kafka_service.go:1287-1290 | `%namespace%` is substituted unless its first percent sign closes `%name%` or `%tenantId%` |
| `TopicNaming.SubstitutedPassesCheck` | maas/maas-service/service/kafka/kafka_service.go:1287-1290 | the check rejects no template in which the namespace would be substituted |
| `TopicNaming.CheckGuaranteesSubstitution` | maas/maas-service/service/kafka/kafka_service.go:149-156 | a template that passes the check, or the default one, substitutes the namespace if the percent form does not overlap |
| `TopicNaming.CopyNeverCollides` | maas/maas-service/service/kafka/kafka_service.go:1287-1296 | a copied versioned topic never resolves to the Kafka name of its source |
| `TopicNaming.CopyCollidesIff` | maas/maas-service/service/kafka/kafka_service.go:1287-1296 | without assuming the check: copy and source collide iff reading the template finds no namespace placeholder |
| `TopicNaming.OverlappingTemplateCollides` | maas/maas-service/service/kafka/kafka_service.go:1287-1290 | the check accepts `%name%namespace%`, and every copy made from it collides with its source |
| `TopicNaming.NamesInDomain` | maas/maas-service/service/kafka/kafka_service.go:158-167 | in a domain a topic that is not versioned has one name for both namespaces, the one resolved with the origin; a versioned one has a name for each |
| `TopicNaming.CopyVersionedTopics` | maas/maas-service/service/kafka/kafka_service.go:1269-1304 | record by record moved to the new namespace and created there, each under the name its stored template resolves to with the moved classifier and the key its creation gave, until one is unusable, which stays as it was, or its creation fails; later records are untouched and the error is that of the record that stopped the loop |
| `TopicNaming.CopyOne` | maas/maas-service/service/kafka/kafka_service.go:1279-1301 | one turn: a request whose template is empty or holds a namespace placeholder moves the record to the new namespace, with the name resolved there and the key of the creation; any other is refused and the record unchanged |
| `TopicNaming.Create` | maas/maas-service/service/kafka/kafka_service.go:215-218 | the creation overwrites the record's template with the resolved name, or with nothing when that is too long or the domain cannot be looked up; the record gets the key of a new topic and none of a found one |
| `TopicNaming.MovedIsRenamed` | maas/maas-service/service/kafka/kafka_service.go:1287-1296 | a record copied to another namespace never ends with the Kafka name its source resolves to |
| `SqlText.FormatInsertSql` | maas/maas-service/dao/replicator/backup_storage_replicator.go:515-527 | the text, word for word: all columns, then one placeholder for each, `$1` for the first, in decimal |
| `SqlText.FormatUpdateSql` | maas/maas-service/dao/replicator/backup_storage_replicator.go:542-559 | the text, word for word: each column equal to its placeholder, from `$1` on for the new values and, joined by `and`, from the next number on for the old ones |
| `SqlText.FormatDeleteSql` | maas/maas-service/dao/replicator/backup_storage_replicator.go:561-571 | the text, word for word: each column equal to its placeholder, from `$1` on |
| `SqlText.Placeholders` | maas/maas-service/dao/replicator/backup_storage_replicator.go:524 | the i-th is a dollar sign and decimal digits whose value is the first number plus i |
| `SqlText.TextDeterminesStatement` | maas/maas-service/dao/replicator/backup_storage_replicator.go:515-571 | two statements with the same text are the same: table, columns and placeholder numbers can be read off it |
| `SqlText.ParsePrinted` | maas/maas-service/dao/replicator/backup_storage_replicator.go:515-571 | reading a formatted text back gives the statement it was formatted from |
| `SqlText.ItoaParses` | maas/maas-service/dao/replicator/backup_storage_replicator.go:524 | printed placeholder numbers read back as themselves |
| `SqlText.ListIsDetermined` | maas/maas-service/dao/replicator/backup_storage_replicator.go:545-557 | a separated list and what follows it are determined by the text |
| `Replicator.ConditionsFindRow` | maas/maas-service/dao/replicator/backup_storage_replicator.go:551-557 | for any column list the values line up with the printed placeholders: the conditions find exactly the copies of the old row, and none if it holds a NULL |
| `Replicator.AssignmentsBuildRow` | maas/maas-service/dao/replicator/backup_storage_replicator.go:543-549 | the assignments turn any row into the new one |
| `Replicator.ReplayedUpdate` | maas/maas-service/dao/replicator/backup_storage_replicator.go:470-477 | replaying an update turns every copy of a NULL-free old row into the new row and touches nothing else |
| `Replicator.ReplayedDelete` | maas/maas-service/dao/replicator/backup_storage_replicator.go:478-482 | replaying a delete removes every copy of a NULL-free old row and nothing else |
| `Replicator.ReplayedInsert` | maas/maas-service/dao/replicator/backup_storage_replicator.go:465-469 | replaying an insert adds the new row |
| `Replicator.ReplayFollowsImage` | maas/maas-service/dao/replicator/backup_storage_replicator.go:464-487 | the cells after a replayed event are those of the rows its statement finds by comparing cells, changed, and of the others as they were |
| `Replicator.ReplayAgreesIff` | maas/maas-service/dao/replicator/backup_storage_replicator.go:461-487 | however the rows of a table are spelled, a replayed event carries its records along with the master's iff it is an insert, an update whose statement finds, but for rows that hold the new record already, the one old row, or a delete that finds just that |
| `Replicator.KeyedReplayIff` | maas/maas-service/dao/replicator/backup_storage_replicator.go:461-487 | in a table with a key that is: an insert, an update that changes nothing, or an old row free of NULL that an event wrote last or that is spelled alike both ways |
| `Replicator.CopiedArrayRowIsNotFound` | maas/maas-service/dao/replicator/backup_storage_replicator.go:447-487 | the input: a copied row with an array is neither updated nor deleted by the event of its change |
| `Replicator.ReplicaFollowsMasterIff` | maas/maas-service/dao/replicator/backup_storage_replicator.go:461-487 | a replica that agrees with the master keeps agreeing, after every change of a history and on any number of tables, iff each change can be replayed on the rows as they are spelled by then |
| `Replicator.ReplicaFollowsImages` | maas/maas-service/dao/replicator/backup_storage_replicator.go:419-488 | over every history the replica's cells are those of the rows so followed |
| `Replicator.PlainHistoryReplays` | maas/maas-service/dao/replicator/backup_storage_replicator.go:542-571 | every history of tables with a key and free of NULL can be replayed, whatever values it brings, once each row was written by an event or is spelled alike both ways |
| `Replicator.ResyncThenReplayIff` | maas/maas-service/dao/replicator/backup_storage_replicator.go:246-301 | a full copy followed by the replay of the changes made since keeps the replica with the master iff each change can be replayed on the rows as copy and events spelled them |
| `Replicator.ResyncThenReplay` | maas/maas-service/dao/replicator/backup_storage_replicator.go:246-301 | it does for every plain history if the copied rows are spelled alike both ways |
| `Replicator.CopyIsWholeIff` | maas/maas-service/dao/replicator/backup_storage_replicator.go:269-297 | a copy that ended well equals the master iff every table was read to its end |
| `Replicator.BrokenReadTruncates` | maas/maas-service/dao/replicator/backup_storage_replicator.go:269-297 | the input: a connection broken before the first row of a one-row table gives a copy that ended well and holds none |
| `Replicator.BackupStorageReplicator.HandleSyncEvent` | maas/maas-service/dao/replicator/backup_storage_replicator.go:419-488 | the cells after the statement sent and the values bound to its placeholders are those of the replayed event; an expired or malformed payload, an unknown table and a statement the cache refuses are reported and change nothing |
| `Replicator.BackupStorageReplicator.FormatEventSql` | maas/maas-service/dao/replicator/backup_storage_replicator.go:461-482 | the text sent for each kind of event, with its placeholder numbers |
| `Replicator.BackupStorageReplicator.CollectValues` | maas/maas-service/dao/replicator/backup_storage_replicator.go:461-482 | new values then old ones for an update, column by column, each as the event spells it |
| `Replicator.BackupStorageReplicator.CacheFullUpdate` | maas/maas-service/dao/replicator/backup_storage_replicator.go:214-305 | from any replica state, in any table order: success leaves each table with a leading part of the master's rows as the copy spells them, all of them iff every result set was read to its end; after a failure each table is as before or a leading part; if the cache accepts every statement, it succeeds iff both transactions can be opened and the cache's committed, no query is refused, no scan and no closing fails |
| `Replicator.BackupStorageReplicator.CopyTable` | maas/maas-service/dao/replicator/backup_storage_replicator.go:249-297 | one table is emptied and filled with the rows delivered, the others stay; a result set that breaks off is taken for its end |
| `Replicator.BackupStorageReplicator.FillTable` | maas/maas-service/dao/replicator/backup_storage_replicator.go:269-294 | inserting row by row leaves exactly the delivered rows, or a leading part when the cache refuses one |
| `InstanceRegistry.OperationAchieves` | maas/maas-service/service/instance/kafka_instances_dao.go:41-214 | each operation is refused in exactly the stated cases and otherwise has the promised effect on rows and default |
| `InstanceRegistry.WriteOrderIsImmaterial` | maas/maas-service/service/instance/rabbit_instances_dao.go:104-138 | setting the default before saving ends in the same table as saving first |
| `InstanceRegistry.OneDefaultIsKept` | maas/maas-service/service/instance/rabbit_instances_dao.go:38-210 | every operation, refused ones included, leaves the registry empty or with exactly one default |
| `InstanceRegistry.AlwaysOneDefault` | maas/maas-service/service/instance/kafka_instances_dao.go:41-214 | so does every run, in either registry, and both registries end in the same table |
| `InstanceRegistry.InstancesDao.InsertInstanceRegistration` | maas/maas-service/service/instance/kafka_instances_dao.go:41-74 | a known id is refused and nothing changes; otherwise the row is added, the other rows keep their data, and the first instance and any flagged one become the only default |
| `InstanceRegistry.InstancesDao.UpdateInstanceRegistration` | maas/maas-service/service/instance/kafka_instances_dao.go:104-137 | an unknown id is refused, clearing the flag of the default instance is rejected, and only these; otherwise the row holds the request and the other rows their data |
| `InstanceRegistry.InstancesDao.SetDefaultInstance` | maas/maas-service/service/instance/kafka_instances_dao.go:139-157 | moves the default, or fails and rolls the clearing back when the instance is unknown |
| `InstanceRegistry.InstancesDao.RemoveInstanceRegistration` | maas/maas-service/service/instance/rabbit_instances_dao.go:164-210 | the default goes only as the last instance and no instance in use goes; an unknown id is an error, for RabbitMQ a nil dereference; a refusal changes nothing and a removal only that row |
| `InstanceRegistry.InstancesDao.GetDefaultInstance` | maas/maas-service/service/instance/default_instance.go:14-31 | finds the default, and none exactly when the registry is empty |
| `InstanceRegistry.BootKeepsDefault` | maas/maas-service/postdeploy/broker_registration.go:41-69 | with a stored default, repeated ids or not, no instance of the file is refused and the default never moves |
| `InstanceRegistry.BootDefault` | maas/maas-service/postdeploy/broker_registration.go:48-69 | from every registry and for every file, repeated ids or not: until an instance would clear the default's flag all are accepted, and the default is the last flagged, else the one before, else the first |
| `InstanceRegistry.BootHolds` | maas/maas-service/postdeploy/broker_registration.go:48-69 | the accepted part of a file leaves each of its instances stored with what its last occurrence says, and the other rows with what they held |
| `InstanceRegistry.BootRefusesIff` | maas/maas-service/postdeploy/broker_registration.go:48-68 | an instance is refused iff it is not flagged and has the id that is the default by then |
| `InstanceRegistry.NothingClears` | maas/maas-service/postdeploy/broker_registration.go:41-46 | that never happens under a stored default, nor in a file of distinct ids from an empty registry |
| `InstanceRegistry.BootFromEmpty` | maas/maas-service/postdeploy/broker_registration.go:48-69 | from an empty registry the default after a file accepted whole is the last flagged instance, or the first when none is flagged |
| `InstanceRegistry.RegisterInstances` | maas/maas-service/postdeploy/broker_registration.go:34-71 | the loop commits a leading part of the file and stops exactly at the first instance that is unhealthy or clears the default's flag; what is committed holds the file's data, known instances updated and unknown ones added; a stored default survives and excludes the second; from an empty registry the default is the one the committed part leads to |
| `InstanceRegistry.RepeatedIdIsRejected` | maas/maas-service/service/instance/kafka_instances_dao.go:113-119 | an id that comes back unflagged while it is the default trips the "clear default" rejection; coming back flagged it does not |
| `Composite.AlwaysSound` | maas/maas-service/dao/schema/27_composite_registrations_fix.go:16-37 | over every run of operations each namespace has one composite, each composite contains its baseline, and only composites have an index |
| `Composite.CleanupIsLocal` | maas/maas-service/service/composite/service.go:48-78 | cleaning removes the namespace, or its whole composite if it is the baseline, and leaves every other composite with its members and index |
| `Composite.UpsertReplaces` | maas/maas-service/service/composite/dao.go:38-81 | an accepted registration makes its list the composite and its index the stored one, leaves out former members it does not name, and changes no other composite |
| `Composite.DestroyRemoves` | maas/maas-service/service/composite/dao.go:107-114 | a destroyed composite leaves no member and no index behind and every other one as it was |
| `Composite.IndexFallsIff` | maas/maas-service/dao/schema/30_composite_namespace_modify_indexes.go:15-20 | the stored index falls iff an operation rewrites or removes its composite without an index, by the cascade |
| `Composite.IndexNeverDecreases` | maas/maas-service/service/composite/dao.go:42-50 | along runs whose upserts carry an index the stored one never decreases |
| `Composite.CleanupReopensOldIndexes` | maas/maas-service/service/composite/service.go:69-73 | after the cleaning of a plain member an index refused before is accepted |
| `Composite.DeleteRepresents` | maas/maas-service/dao/schema/30_composite_namespace_modify_indexes.go:15-20 | deleting a composite's rows with the cascade is its removal from the partition |
| `Composite.InsertRepresents` | maas/maas-service/dao/schema/24_composite_registrations.go:35 | an insert is refused by the unique index iff the namespace has a composite already, else it adds the member |
| `Composite.GuardChecksBaselines` | maas/maas-service/dao/schema/27_composite_registrations_fix.go:20-26 | the deferred guard lets a table through iff every composite contains its baseline |
| `Composite.GuardDecides` | maas/maas-service/dao/schema/27_composite_registrations_fix.go:33-37 | at commit the guard refuses an upsert iff its list does not name its baseline |
| `Composite.RewrittenWithout` | maas/maas-service/service/composite/service.go:69-73 | rewriting a composite without one plain member is always accepted and removes just that member |
| `Composite.PGRegistrationDao.Upsert` | maas/maas-service/service/composite/dao.go:38-81 | accepted iff the list names its baseline, repeats nothing, takes no namespace of another composite and carries no older index; then it replaces that composite, else nothing changes |
| `Composite.PGRegistrationDao.CurrentModifyIndex` | maas/maas-service/service/composite/dao.go:166-179 | the index stored for the composite, 0 if there is none |
| `Composite.PGRegistrationDao.DeleteByBaseline` | maas/maas-service/service/composite/dao.go:107-114 | the composite is gone, index included, the others stay |
| `Composite.PGRegistrationDao.GetByNamespace` | maas/maas-service/service/composite/dao.go:116-138 | exactly the members of the composite the namespace belongs to, or none |
| `Composite.PGRegistrationDao.CleanupNamespace` | maas/maas-service/service/composite/service.go:48-78 | never fails, and does to the tables what the cleaning of the partition says |
| `Composite.Rewrite` | maas/maas-service/service/composite/dao.go:52-78 | delete, insert, index and guard together succeed iff the list is insertable and names its baseline |
| `Composite.StoreIndex` | maas/maas-service/service/composite/dao.go:181-196 | the index goes to the baseline's own row, if there is one |
| `Composite.List` | maas/maas-service/service/composite/dao.go:140-164 | flattening the listing gives back the sorted rows, every group is non-empty and ids are pairwise distinct |
| `Composite.FlattenedIff` | maas/maas-service/service/composite/dao.go:140-164 | a row is listed iff some group has its baseline as id and its namespace among its members |
| `WaitList.AppliedCloses` | maas/maas-service/service/cr/applier.go:137-166 | one retry pass, in any order, leaves no entry of the namespace in progress whose template is present |
| `WaitList.BrokenPassClosesIff` | maas/maas-service/service/cr/applier.go:137-166 | a request whose retry pass breaks off leaves its namespace closed iff every entry it did not get to still misses its template |
| `WaitList.StepKeepsClosed` | maas/maas-service/service/cr/kafka.go:92-105 | a step keeps a closed namespace closed iff it is no interrupted request of it that leaves an entry whose template is there |
| `WaitList.AlwaysClosed` | maas/maas-service/service/cr/applier.go:81-166 | so does every run of such steps, those of successful requests among them |
| `WaitList.SuccessIsHarmless` | maas/maas-service/service/cr/applier.go:98-102 | a run without interrupted requests consists of such steps |
| `WaitList.ClosedAgainAfterApplied` | maas/maas-service/service/cr/applier.go:98-102 | whatever broke off before, the next applied resource of the namespace closes it again |
| `WaitList.BrokenPassLeavesApplicableEntry` | maas/maas-service/service/cr/applier.go:137-166 | the input: a topic waits for a template, and the request creating it breaks off before the first entry |
| `WaitList.StepKeepsEntries` | maas/maas-service/service/cr/dao.go:72-129 | an entry never changes its resource, a new one starts in progress under a fresh key, and no status changes to IN_PROGRESS; names stay unique |
| `WaitList.LeavesInProgressForGood` | maas/maas-service/service/cr/applier.go:157-163 | an entry that has left IN_PROGRESS never returns to it |
| `WaitList.FailedIsNeverReported` | maas/maas-service/service/cr/applier.go:157-163 | no run leaves an entry FAILED unless a request breaks off at that point, because COMPLETED overwrites it in the same turn |
| `WaitList.FailedIff` | maas/maas-service/service/cr/applier.go:157-163 | an entry becomes FAILED iff a request breaks off between its two status updates |
| `WaitList.ArrivalCompletes` | maas/maas-service/service/cr/applier.go:98-103 | when its template arrives a parked resource is completed, or removed if it has the template's name |
| `WaitList.ParkedIff` | maas/maas-service/service/cr/dao.go:72-89 | a resource with a missing template gets an entry iff no entry has its name and namespace |
| `WaitList.AnswerIff` | maas/maas-service/service/cr/applier.go:81-135 | parked iff it is a creation of a topic, lazy topic or tenant topic whose named template is not stored; otherwise refused iff no handler takes the action or its handler fails |
| `WaitList.ParkedEffect` | maas/maas-service/service/cr/dao.go:72-89 | parking changes no template and no entry, and adds the resource in progress under the next key iff none has its name and namespace |
| `WaitList.AppliedEffect` | maas/maas-service/service/cr/applier.go:98-166 | an applied resource stores or removes its template; then exactly the entries in progress of its namespace that need no template or whose template is there are completed, the entry of its own name is dropped, and the rest is untouched |
| `WaitList.CustomResourceProcessorService.CreateWait` | maas/maas-service/service/cr/dao.go:72-89 | inserts nothing on a conflict but uses up a key |
| `WaitList.CustomResourceProcessorService.ApplyFromWaitList` | maas/maas-service/service/cr/applier.go:137-166 | the loop over the entries, in any order, does the retry pass, or as much of it as the statements that succeed allow |
| `WaitList.CustomResourceProcessorService.Apply` | maas/maas-service/service/cr/service.go:41-59 | refused, parked, applied or cut short, with the state each leaves; names stay unique, an applied resource closes its namespace, and only a request cut short can open one |
| `WaitList.CustomResourceProcessorService.Terminate` | maas/maas-service/service/cr/service.go:76-86 | a known entry becomes TERMINATED, an unknown one is refused; no other entry, no template and no key changes |
| `WaitList.CustomResourceProcessorService.CleanupNamespace` | maas/maas-service/service/cr/service.go:88-93 | afterwards no entry has the namespace, every entry of another one is there unchanged and none is new; templates and keys stay |
| `TopicSettings.SlicesAreEqualInt32` | maas/maas-service/utils/utils.go:161-174 | true iff the slices are equal |
| `TopicSettings.StringMapsAreEqual` | maas/maas-service/utils/utils.go:176-196 | true iff the maps are equal, though only one of them is looped over |
| `TopicSettings.ReplicaAssignmentsAreEqual` | maas/maas-service/model/kafka_model.go:279-288 | true iff the assignments are equal |
| `TopicSettings.ReadOnlySettingsAreEqual` | maas/maas-service/model/kafka_model.go:374-419 | true iff the replica assignments are equal and each of the three numbers is equal or on both sides nil or -1; configs and versioned flag do not matter |
| `TopicSettings.SettingsAreEqual` | maas/maas-service/model/kafka_model.go:248-293 | true iff template, configs, versioned flag and replica assignment are equal and each of the three numbers is equal or on both sides nil or -1 |
| `TopicSettings.EqualIsEquivalence` | maas/maas-service/model/kafka_model.go:248-293 | settings equality is reflexive, symmetric and transitive |
| `TopicSettings.UpdateSettings` | maas/maas-service/service/kafka/kafka_service.go:415-441 | both partition numbers set, to other than nil, -1 or 0, is a bad request; otherwise all six settings become the requested ones |
| `TopicSettings.TopicRow.UpdateTopicSettingsIfNeeded` | maas/maas-service/service/kafka/kafka_service.go:400-413 | unchanged iff the row holds the request already: template, configs, versioned flag, replica assignment, and the three numbers up to nil and -1; after a successful answer it does, after an error it is as before |
| `TopicSettings.ApplyTwice` | maas/maas-service/service/kafka/kafka_service.go:400-441 | after a success the row holds the request and the same request changes nothing, so repeating it is a no-op |
| `TemplatePropagation.BuildTemplate` | maas/maas-service/model/config_dto.go:151-183 | refuses an empty name and both partition numbers at once, otherwise yields the values given, one partition and one replica where none is given, and no versioned flag |
| `TemplatePropagation.SafeAtEveryPoint` | maas/maas-service/service/configurator_service/configurator_service.go:946-973 | wherever an attempt fails after the marking, a linked topic that is not dirty carries the new settings; template and other topics are untouched until the end |
| `TemplatePropagation.SuccessAgrees` | maas/maas-service/service/configurator_service/configurator_service.go:946-977 | full success leaves no dirty topic and template and topics in agreement |
| `TemplatePropagation.RepetitionConverges` | maas/maas-service/service/configurator_service/configurator_service.go:934-979 | after any partial failures, repeating the request ends exactly where its first success would have |
| `TemplatePropagation.CleanTopicsAlwaysAgree` | maas/maas-service/service/configurator_service/configurator_service.go:934-979 | over every run of different requests failing anywhere, the linked topics that are not dirty carry one common setting |
| `TemplatePropagation.AgreesAfterRunIff` | maas/maas-service/service/configurator_service/configurator_service.go:934-979 | over every run of requests and of topics applied with the template, new or again, topics and template agree iff nothing is left of an unsaved request: no topic it marked and did not update, none it updated and that was not applied again |
| `TemplatePropagation.CleanTopicsAgreeIff` | maas/maas-service/service/kafka/kafka_service.go:400-413 | over those runs the linked topics that are not dirty agree iff none of them, or all, carry the settings of an unsaved request |
| `TemplatePropagation.SuccessfulAnswerAgreesIff` | maas/maas-service/service/configurator_service/configurator_service.go:942-944 | a request answered with success after a run leaves agreement iff it was propagated or nothing was left of the requests before it |
| `TemplatePropagation.OldRequestRepairsNothing` | maas/maas-service/service/configurator_service/configurator_service.go:942-944 | going back to the stored settings after a partial failure succeeds and leaves topics with the other ones |
| `TemplatePropagation.TemplateStore.ApplyKafkaTopicTemplate` | maas/maas-service/service/configurator_service/configurator_service.go:895-979 | every attempt ends in one of the stated points of progress, with the matching answer: a created template holds the request, a refused or equal one changes nothing, after a propagation the template and every linked topic carry it and no other topic changed, and a broken one leaves the template and each linked topic updated or dirty; enough successful writes end it in success |
| `TemplatePropagation.TemplateStore.Propagate` | maas/maas-service/service/configurator_service/configurator_service.go:946-977 | marking, updates in any order, template last; a failing write leaves exactly what was committed before it |
| `TemplatePropagation.TemplateStore.UpdateTopic` | maas/maas-service/service/kafka/kafka_service.go:816-819 | a topic read before the marking is stored clean with the requested settings |
| `Classifiers.MigrationCovers` | maas/maas-service/service/kafka/kafka_service_dao.go:575-586 | after the migration every topic that is not versioned has a classifier, and classifiers stay unique |
| `Classifiers.CloningIsSymmetric` | maas/maas-service/service/kafka/kafka_service_dao.go:529-551 | after the cloning such a topic has a classifier in the origin iff it has one in the peer |
| `Classifiers.WarmupIsSymmetric` | maas/maas-service/service/kafka/kafka_service_dao.go:522-551 | a successful warmup makes classifiers symmetric, keeps earlier rows and uniqueness, adds nothing for versioned topics, and a second one inserts nothing |
| `Classifiers.WarmupAdds` | maas/maas-service/service/kafka/kafka_service_dao.go:522-586 | exactly which classifiers a warmup adds: its own to a topic that had none, and to one that then answers in one namespace of the domain only its classifier in the other |
| `Classifiers.CloningFailsIff` | maas/maas-service/dao/schema/22_bg_domain.go:103-107 | the unique classifier refuses the cloning iff one classifier is registered for different topics in the two namespaces |
| `Classifiers.MigrationFailsIff` | maas/maas-service/service/kafka/kafka_service_dao.go:575-586 | the migration is refused iff the classifier of a topic without one belongs to another topic, or is that of another topic without one |
| `Classifiers.WarmupFailsIff` | maas/maas-service/service/kafka/kafka_service_dao.go:522-551 | a warmup is refused iff its migration is, or some classifier is registered for different topics in the two namespaces after it |
| `Classifiers.StepKeepsSymmetry` | maas/maas-service/service/kafka/kafka_service_dao.go:44-95 | insertion, removal, migration, warmup and settings updates keep a warmed-up domain symmetric, refused ones included, except exactly the clearing of the versioned flag of a topic that answers in one namespace only |
| `Classifiers.AlwaysSymmetricOnceWarm` | maas/maas-service/service/kafka/kafka_service_dao.go:44-95 | so does every run without such a clearing |
| `Classifiers.UnflaggedTopicSplits` | maas/maas-service/service/kafka/kafka_service.go:425 | the input: a versioned topic of the domain, stored with its own classifier and updated to be no longer versioned |
| `Classifiers.InsertKeepsSymmetry` | maas/maas-service/service/kafka/kafka_service_dao.go:65-79 | an insertion adds the sibling exactly where symmetry needs it |
| `Classifiers.InsertSucceedsIff` | maas/maas-service/service/kafka/kafka_service_dao.go:44-95 | an insertion succeeds iff the classifier and, in a domain and not versioned, its sibling are free and the code run inside succeeds; it adds just the topic with these rows |
| `Classifiers.RemoveKeepsSymmetry` | maas/maas-service/dao/schema/22_bg_domain.go:103-107 | the cascade of a removal takes both classifiers |
| `Classifiers.KafkaDao.Warmup` | maas/maas-service/service/kafka/kafka_service_dao.go:522-563 | all or nothing: symmetric and covered after success, unchanged after an error of this part or of the later ones |
| `Classifiers.KafkaDao.InsertTopicRegistration` | maas/maas-service/service/kafka/kafka_service_dao.go:44-95 | the topic with its own and, in a domain and not versioned, its sibling classifier, or nothing at all |
| `Watchdog.StepKeepsInv` | maas/maas-service/watchdog/broker_instance_monitor.go:76-103 | a refresh under way uses up one request, and whatever it misses is covered by another |
| `Watchdog.NoLostRefresh` | maas/maas-service/watchdog/broker_instance_monitor.go:150-157 | in every interleaving a stale list means a positive counter, a callback due or a refresh under way; the counter is never negative |
| `Watchdog.RequestsAreConserved` | maas/maas-service/watchdog/broker_instance_monitor.go:188-194 | each write asks for one refresh and each successful refresh answers one: counter and pending callbacks together neither lose nor invent any |
| `Watchdog.OneQuietRefreshSettles` | maas/maas-service/watchdog/broker_instance_monitor.go:76-88 | one refresh begun and finished after the last write makes both lists equal to the database, for good |
| `Watchdog.QuietRefreshesAreBounded` | maas/maas-service/watchdog/broker_instance_monitor.go:150-157 | after the last write at most the outstanding requests lead to refreshes, and once all have the lists are current |
| `Watchdog.RunKeepsInv` | maas/maas-service/watchdog/broker_instance_monitor.go:76-157 | the invariant of the counter holds over every interleaving |
| `CountingMutex.FillSlots` | maas/maas-service/utils/counting_mutex.go:14-18 | the channel starts with 0..count-1 |
| `CountingMutex.StepConserves` | maas/maas-service/utils/counting_mutex.go:23-35 | taking, timing out and returning, after an error or not, keep free and held slots together exactly 0..count-1 |
| `CountingMutex.RunConserves` | maas/maas-service/utils/counting_mutex.go:23-35 | so does every interleaving |
| `CountingMutex.SlotsNeverLeak` | maas/maas-service/utils/counting_mutex.go:14-36 | at most `count` callbacks run at once, and when none runs every slot is free again |
| `Configurator.OrderedKinds` | maas/maas-service/service/configurator_service/configurator_service.go:179-191 | for any iteration order of the registry: all kinds, once each, by order |
| `Configurator.OrderedByPhase` | maas/maas-service/service/configurator_service/configurator_service.go:138-155 | what the registered orders mean, kind by kind: deletions and designators before templates, templates before topics, lazy topics, tenant topics and RabbitMQ |
| `Configurator.PlaceInKind` | maas/maas-service/service/configurator_service/configurator_service.go:346-350 | the place of a config among those of its kind is behind exactly the ones read before it |
| `Configurator.KindsKeepInputOrder` | maas/maas-service/service/configurator_service/configurator_service.go:346-350 | handling by kinds keeps, for each kind, exactly its configs in input order |
| `Configurator.NothingLostNothingTwice` | maas/maas-service/service/configurator_service/configurator_service.go:346-424 | the handled configs are a permutation of the parsed ones, for any ordering of the kinds |
| `Configurator.HandledInOrder` | maas/maas-service/service/configurator_service/configurator_service.go:138-155 | in the handled sequence the registered orders never decrease, for any ordering of the kinds by them |
| `Configurator.AnswersAreOrderly` | maas/maas-service/service/configurator_service/configurator_service.go:346-424 | so the responses are a permutation of the parsed configs, in registered order and in input order within a kind, for any map iteration order |
| `Configurator.EachIsAnswered` | maas/maas-service/service/configurator_service/configurator_service.go:351-422 | each response is ok iff its own handler is: the one of its service for RabbitMQ, of its place within its kind otherwise |
| `Configurator.ParseInnerConfigsOfMs` | maas/maas-service/service/configurator_service/configurator_service.go:478-529 | succeeds iff every inner config is of a registered kind, and then appends each to the list of its kind |
| `Configurator.Collect` | maas/maas-service/service/configurator_service/configurator_service.go:298-336 | the lists hold the shared configs, then those of the services in order, then one empty RabbitMQ config per empty service |
| `Configurator.ServiceItemsInOrder` | maas/maas-service/service/configurator_service/configurator_service.go:308-336 | a config of a service stands behind those of earlier services and its own earlier ones, under its service's name |
| `Configurator.EmptyItemsInOrder` | maas/maas-service/service/configurator_service/configurator_service.go:308-336 | a service without configs stands for one empty RabbitMQ config, in the order of the services |
| `Configurator.HandleKind` | maas/maas-service/service/configurator_service/configurator_service.go:351-422 | one response per config of the kind in list order, and the first error is kept |
| `Configurator.ApplyConfigV2` | maas/maas-service/service/configurator_service/configurator_service.go:275-425 | a document that does not parse is refused and nothing handled; otherwise one response per config and empty service; no topic, lazy topic, tenant topic or RabbitMQ config is answered before a template, and nothing else before a deletion or a designator; each answer is its handler's, and there is no error iff every response and the RabbitMQ transaction are ok |
| `Discrepancy.GroupByInstance` | maas/maas-service/service/kafka/kafka_service.go:1133-1141 | every topic is in the group of its instance and in no other |
| `Discrepancy.AskBroker` | maas/maas-service/service/kafka/kafka_service.go:1153-1159 | one answer gives the topics of its group their status and leaves the others' |
| `Discrepancy.AskBrokers` | maas/maas-service/service/kafka/kafka_service.go:1143-1160 | in any order of the groups every topic gets its own instance's answer; fails iff some instance in use cannot be asked |
| `Discrepancy.GetDiscrepancyReport` | maas/maas-service/service/kafka/kafka_service.go:1120-1171 | the grouped report is the topic-by-topic report in database order, filtered: name and classifier of each topic, and Ok iff its own broker has it |
| `Discrepancy.FilterItems` | maas/maas-service/service/kafka/kafka_service.go:1193-1204 | keeps the fitting items in order; no filter keeps all |
| `Discrepancy.KeptFits` | maas/maas-service/service/kafka/kafka_service.go:1193-1204 | everything kept fits, and as many are kept as fit |
| `Discrepancy.KeptInOrder` | maas/maas-service/service/kafka/kafka_service.go:1193-1204 | each item that fits is kept, right behind those that fit before it |
| `Discrepancy.CountByScope` | maas/maas-service/monitoring/discrepancy/collector.go:212-222 | the loop computes the counts of all scopes |
| `Discrepancy.ScopeCounts` | maas/maas-service/monitoring/discrepancy/collector.go:266-277 | a scope's counts are those of its own entities, lost at most registered |
| `Discrepancy.ScopeCountsTopics` | maas/maas-service/monitoring/discrepancy/collector.go:266-277 | the two counts of a scope are the number of its topics and the number of those the broker does not have |
| `Discrepancy.MissingTopics` | maas/maas-service/monitoring/discrepancy/collector.go:212-222 | the missing ones are the topics whose name is not on the broker |
| `Discrepancy.CountsAddUp` | maas/maas-service/monitoring/discrepancy/collector.go:212-222 | over all scopes registered adds up to the instance's entities and lost to the missing ones |

## Left out

- Concurrency of database transactions: every DAO operation is one atomic step; only the watchdog counter and the semaphore are interleaved.
- Database errors that abort a PostgreSQL transaction while the Go code goes on; whether a commit or a rollback succeeds is a parameter.
- The translation of errors in disaster-recovery mode (`translateDRModeError`), panics inside bodies, and a transaction context kept and used after its outermost block has ended.
- RunRefinesFlat: over a live master whose connection does not break while a replica exists; what failover may do instead is stated by `NothingVisibleBeforeCommit`, `FailureLeavesNoTrace` and `NilMeansStoredIff`.
- NilMeansStoredIff: for programs that swallow no error; one that does may report success for anything, but `NothingElseIsStored` holds of it too.
- NULL elements of arrays, and characters as bytes: strings are sequences of characters, so the length limit of a topic name counts characters.
- CopiedRowAgreementIff: for values without comma or quote; for the others `CacheMatchesRuns` says what the replica answers.
- ReplicaFollowsMasterIff: events are delivered in order and no write races the unlocked snapshot.
- SpellingsAgreeIff: members of an object are spelled in one order; the two orders really differ, which can matter only where blanks do. Numbers are natural; columns of type json, which keep the text they were given, timestamps and other types have two arbitrary texts. Creation of the replica's tables and reconnection of the listener are not modelled.
- Create: the broker instance it sets in the record is left out, and whether the creation inserts, finds or refuses a topic is a parameter; the domain lookup is a function.
- Template propagation does not cover topics linked to the template while a request runs, the removal of topics and templates, nor a Kafka update that succeeds while its database update fails.
- Classifiers: the classifiers of topic definitions and the attachment of template namespaces, which run in the same warmup and whose failure is a parameter, and the panic on a namespace outside the domain, which becomes a precondition of `KafkaDao.InsertTopicRegistration`.
- Wait list: namespaces inside a blue/green domain, permission checks, decoding and validation of resources, and database errors before a resource's own handler has succeeded. The reason text of an entry is one flag.
- InstancesDao.UpdateInstanceRegistration: Kafka's and RabbitMQ's different error codes for an unknown instance are one.
- RegisterInstances: an instance with a blank id stands for one with the fresh id the service generates; the second file of the backward-compatible naming, reading the files, and events broadcast after a registration are not modelled; health checks are a parameter.
- Composite: the advisory lock of an upsert and `updateCompositeRegistration`; names are numbers whose order is the order of the query.
- Watchdog: publishing of statuses and metrics after a refresh, which dereferences the empty lists when the very first refresh fails; each write's callback is delivered exactly once.
- Configurator: the composite update before parsing, decoding of YAML, `ApplyConfig` of version 1, panics of type assertions; handlers answer as parameters say.
- Discrepancy: the metrics of instances whose broker cannot be asked are skipped by the code and not modelled; publishing to Prometheus.
- Names and ids whose text does not matter are natural numbers.
- HTTP controllers, authentication, encryption, designators, tenants, RabbitMQ entities and the other migrations: no deep state, or code that is not shown.
