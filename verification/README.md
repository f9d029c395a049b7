# ML Metadata, verified

A Dafny model of the core of ML Metadata (MLMD), the store for artifacts, executions, contexts and
the events between them. It follows the C++ store and the Python client, and proves what they
promise over whole runs: page-by-page listing, filter compilation, transactions and retries,
concurrent writers, PutExecution, type evolution, schema migration and initialisation, MySQL session
recovery, query templates and lineage traversal. `dafny verify dfyconfig.toml` checks everything.

Loops and objects of the source are methods and classes proved against specification functions;
state that several clients share is a state machine over its steps. SQL is modelled by what it
selects and changes. Clocks, server answers, other clients' steps and boundary conditions are
parameters, and every theorem holds for all of them.

| modules | subject |
|---|---|
| `ListQuery`, `Paging`, `Resumption`, `ClientPaging`, `PagingProperties`, `UpdateTimePaging` | listing with page tokens, and the client loop that follows them |
| `SqlText`, `FilterSchema`, `FilterQuery`, `FilterMeaning`, `FilterPasting`, `FilterListing` | filter queries compiled to joins, how the database reads them, and their meaning |
| `Transactions`, `ContextRace`, `OptimisticUpdate` | commit and rollback, client retries, concurrent writers |
| `GraphStore`, `PutExecution`, `PutExecutionEffect`, `PutExecutionAtomicity` | one execution with its artifacts, events and contexts |
| `Cycles`, `TypeStore`, `TypeEvolution` | parent links, type registration |
| `SchemaSql`, `Migration`, `MigrationLaws` | the migration loops, for any scripts |
| `SqliteScripts`, `MigrationEffect`, `MigrationSteps`, `MigrationUp`, `MigrationDown`, `MigrationRoundTrip`, `StoreInit` | the SQLite scripts between versions 0 and 8, statement by statement |
| `MySqlSource`, `MySqlSessions` | sessions lost and replaced under transactions |
| `QueryTemplate`, `Decimal` | parameter binding |
| `Lineage` | breadth-first lineage queries |
| `Statuses` | status codes and results |

## Where the code and its promises part

Each of these is a theorem: a case that fails, and the condition under which the promise holds.

- Following page tokens returns each listed node once if and only if the database accepts the query and
  every page boundary is `Resumable`. Ordering by id always is. Ordering by creation time is, for every
  page size, if and only if ids follow creation times. Ordering by update time is not when a full page
  and the row before it share one update time. The client then never stops if and only if, for page size
  `p`, some `2 * p` rows in a row share one update time and at least one more row follows them.
- A page size above 100 yields at most 101 rows and no token.
- The WHERE clause of a filter is put before the paging conditions without parentheses. A filter whose
  outermost operator is OR ignores candidates and page position in all operands but the last, and the
  listing is what the caller asked for only if those operands stay within the candidates.
- The database refuses a filter exactly in these cases: it names the id or a time of a parent or child
  context, which the analyser accepts but the generated joins do not have; it is combined with candidate
  ids and mentions a context or an event, because the test on `id` has no table alias; it has a property
  name whose quotes end the quotation early; on SQLite, it has a string that is a column of two of the
  joined tables; it joins more than 61 tables on MySQL or 64 on SQLite; or it is listed by a time on MySQL
  in its default mode ONLY_FULL_GROUP_BY, because DISTINCT ids may then be ordered by id only.
- Property names are pasted between double quotes. A property is joined as it should be, in every
  database, if and only if its name has no quote, no active backslash and, on SQLite, is not the name of
  a column: there `properties.name` stands for every property.
- CreateEvent reports a duplicate, but drops every other error of the insertion. PutExecution then
  returns OK with the event missing; the events are stored as promised if and only if no insertion failed
  in this way. After a deadlock at an event MySQL has rolled the whole transaction back, and what follows
  is committed statement by statement: a new execution is stored, after OK, if and only if that did not
  happen, and a request with contexts fails and can leave a context behind. Without such an answer the
  request has its effect or none; with one, a request that changes the execution never has its whole effect.
- A COMMIT can take effect though its answer is lost. A call that returns took effect once and one that
  raises not at all if and only if that did not happen; reported as ABORTED, it is repeated.
- If a rollback fails, the source refuses every later transaction, even after it is closed and
  connected again. With `max_num_retries` of zero or less the client retries without bound.
- An update that leaves out `type_id` stores type 0, and no later update of that artifact commits. The
  guard against lost updates protects only against writers that move the update time forward.
- Initialisation accepts a database with foreign tables of MLMD's names as initialised; the next call
  then reports a partial schema.
- Upgrading to version 8 keeps, of equal events, the one with the greatest id and its paths. A migration
  down and up again restores the database if and only if nothing in it is newer than the lower version.
- Closing the source inside a transaction is what can spread that transaction over two MySQL sessions.
- A lineage query drops the errors of its queries for events. It then returns OK with the graph up to
  the hop that failed, which is complete if and only if nothing within the boundary is linked to it.

## Model

| member | source | states |
|---|---|---|
| `ListQuery.SortCorrect` | ml_metadata/metadata_store/list_operation_query_helper.cc:187-209 | ORDER BY field and id gives a sorted permutation of the rows |
| `ListQuery.SortWhere` | ml_metadata/metadata_store/query_config_executor.cc:613-671 | selecting and ordering commute, for every WHERE clause |
| `Paging.BuildNextPageToken` | ml_metadata/metadata_store/list_operation_util.h:37-83 | the backward loop collects exactly the ids at the end of the page that share the last update time |
| `Paging.TrailingTies` | ml_metadata/metadata_store/list_operation_util.h:49-61 | it is the largest number of last rows with one update time |
| `Paging.WhereClausePasses` | ml_metadata/metadata_store/query_config_executor.cc:654-669 | which rows the assembled WHERE clause lets through, for every filter and candidates: those of all OR operands but the last unconditionally, the others under candidates and threshold |
| `Paging.SelectFromListed` | ml_metadata/metadata_store/query_config_executor.cc:613-671 | a page is the first rows that pass the threshold of all the rows the query can reach, in order |
| `Paging.ListedIsListing` | ml_metadata/metadata_store/query_config_executor.cc:654-669 | those rows are what the caller asked for if and only if no OR operand but the last reaches outside the candidates |
| `Paging.ListNodesSelects` | ml_metadata/metadata_store/rdbms_metadata_access_object.cc:1735-1785 | ListNodes returns that page cut to size, with a token if and only if a row was left over, or the error of a refused query |
| `Resumption.ThresholdFromToken` | ml_metadata/metadata_store/list_operation_query_helper.cc:157-185 | the conditions that a token, decoded by the next request, puts on it |
| `Resumption.CreateTimePasses` | ml_metadata/metadata_store/list_operation_query_helper.cc:77-153 | which rows a CREATE_TIME token lets through |
| `Resumption.UpdateTimePasses` | ml_metadata/metadata_store/list_operation_query_helper.cc:77-153 | which rows a LAST_UPDATE_TIME token lets through |
| `Resumption.IdPasses` | ml_metadata/metadata_store/list_operation_query_helper.cc:77-153 | which rows an ID token lets through |
| `Resumption.ResumeFrom` | ml_metadata/metadata_store/list_operation_query_helper.cc:157-185 | at a resumable boundary the token selects exactly the rest of the listing |
| `Resumption.Repeats` | ml_metadata/metadata_store/list_operation_query_helper.cc:157-185 | at any other boundary that skips nothing, the next page starts with a row already listed |
| `ClientPaging.ListWithOptions` | ml_metadata/metadata_store/metadata_store.py:931-995 | the client's loop computes the recursive specification of following tokens |
| `ClientPaging.FollowExact` | ml_metadata/metadata_store/metadata_store.py:931-995 | against any server of pages, the loop returns the wanted prefix of the listing if and only if every boundary is resumable |
| `ClientPaging.PagingExact` | ml_metadata/metadata_store/metadata_store.py:931-995 | the same for the store's ListNodes: exactly-once listing of what the database lists, for every table, filter, candidates, order, page size up to 100 and limit, if and only if the database accepts the query and the boundaries are resumable |
| `ClientPaging.ListingExact` | ml_metadata/metadata_store/query_config_executor.cc:654-669 | without a limit, exactly what the caller asked for is returned if and only if also no OR operand but the last reaches outside the candidates |
| `ClientPaging.DisjunctionIgnoresCandidates` | ml_metadata/metadata_store/query_config_executor.cc:654-663 | whatever rows the client returns contain every row of an OR operand other than the last, candidate or not, unless the list of candidates is empty |
| `PagingProperties.IdPagingExact` | ml_metadata/metadata_store/list_operation_query_helper.cc:77-153 | paging by id returns the listing whenever the database accepts the query |
| `PagingProperties.UpdateTimePagingExact` | ml_metadata/metadata_store/list_operation_util.h:49-61 | paging by update time returns the listing if no update time is shared by more rows than fit a page |
| `UpdateTimePaging.UpdateTimePagingNeverEnds` | ml_metadata/metadata_store/metadata_store.py:931-995 | paging by update time runs for ever if and only if the database accepts the query and some two pages of consecutive rows, with another row after them, share one update time; otherwise it returns |
| `PagingProperties.CreateTimePagingEnds` | ml_metadata/metadata_store/list_operation_query_helper.cc:123-153 | paging by creation time ends with a sorted part of the listing |
| `PagingProperties.CreateTimePagingExact` | ml_metadata/metadata_store/list_operation_query_helper.cc:123-153 | it returns the whole listing for every page size if and only if the query is accepted and ids follow creation times |
| `PagingProperties.DisjunctionSpoilsPaging` | ml_metadata/metadata_store/query_config_executor.cc:654-656 | if a row of the first page satisfies an OR operand other than the last, following tokens does not return the listing |
| `PagingProperties.OversizedPage` | ml_metadata/metadata_store/list_operation_query_helper.cc:211-225 | a page size above 100 gives the first 101 rows and no token |
| `PagingProperties.OversizedPagingExact` | ml_metadata/metadata_store/rdbms_metadata_access_object.cc:1747-1785 | so it returns the listing if and only if the query is accepted and there are at most 101 rows |
| `FilterSchema.NeighborIsJoined` | ml_metadata/query/filter_query_builder.cc:34-118 | every related concept of a node is a row of the join template chosen for it, if the database reads the property name as that name |
| `FilterSchema.JoinedIsNeighbor` | ml_metadata/query/filter_query_builder.cc:34-118 | every joined row is a related concept of the node, on the same condition |
| `FilterSchema.PropertyJoinExact` | ml_metadata/query/filter_query_builder.cc:96-114 | a property is joined to exactly its rows in every database if and only if the database reads its name as that name |
| `FilterSchema.NameKeptExactly` | ml_metadata/query/filter_query_builder.cc:96-114 | the pasted name is read as that name if and only if it has no quote, on MySQL no backslash that escapes, and on SQLite is no column of the property table |
| `SqlText.ReadBack` | ml_metadata/query/filter_query_builder.cc:96-114 | a text pasted between double quotes is read back as itself, with the rest of the query behind it, if and only if it has no quote and no active backslash |
| `FilterSchema.JoinedFields` | ml_metadata/query/filter_query_builder.cc:34-118 | a joined column holds the field it is named after |
| `FilterSchema.OfferedFields` | ml_metadata/query/filter_query_ast_resolver.cc:176-230 | the joins offer every declared field, except that parent and child contexts offer only name and type |
| `FilterQuery.AliasInjective` | ml_metadata/query/filter_query_builder.cc:302-311 | different indices give different aliases |
| `FilterQuery.FilterQueryBuilder.constructor` | ml_metadata/query/filter_query_builder.cc:240-244 | the base table has alias 0 |
| `FilterQuery.FilterQueryBuilder.GetTableAlias` | ml_metadata/query/filter_query_builder.cc:302-311 | a concept gets one alias, fresh at its first mention, and others keep theirs |
| `FilterQuery.FilterQueryBuilder.Visit` | ml_metadata/query/filter_query_builder.cc:313-362 | the visitor rewrites an expression over the final aliases, though it does so while they are being handed out, and mentions exactly its concepts |
| `FilterQuery.FilterQueryBuilder.GetFromClause` | ml_metadata/query/filter_query_builder.cc:251-300 | every mentioned concept is joined once under its alias, base table apart |
| `FilterQuery.Compile` | ml_metadata/query/filter_query_builder.cc:240-362 | compilation succeeds if and only if every concept is known, and then its FROM and WHERE clauses belong together |
| `FilterMeaning.JoinedBinds` | ml_metadata/query/filter_query_builder.cc:251-300 | a row of the joined tables binds every alias to a related concept |
| `FilterMeaning.BindingsJoined` | ml_metadata/query/filter_query_builder.cc:251-300 | every choice of related concepts is a row of the joined tables |
| `FilterMeaning.RewriteEvaluates` | ml_metadata/query/filter_query_builder.cc:313-362 | the rewritten expression has the value of the original |
| `FilterMeaning.FilterCorrect` | ml_metadata/query/filter_query_builder.cc:240-362 | the generated query selects a node if and only if the filter is true of it, for every database, functions and node and every filter that the database reads as it was meant |
| `FilterMeaning.HeardAsMeant` | ml_metadata/query/filter_query_builder.cc:313-362 | the WHERE clause is evaluated as it was generated if and only if every string in the filter stays text |
| `FilterMeaning.ReadExactly` | ml_metadata/query/filter_query_builder.cc:96-362 | every concept is joined to exactly its rows in every database and the WHERE clause is evaluated as generated, if and only if the filter is read as meant |
| `FilterListing.MisreadHarmless` | ml_metadata/query/filter_query_builder.cc:313-362 | a filter read otherwise can nevertheless be right in every database, so being read as meant is not necessary for every filter |
| `FilterPasting.AcceptedExactly` | ml_metadata/query/filter_query_builder.cc:44-121 | the database accepts the generated query if and only if the filter uses no id or time of a parent or child context, no property name that ends its quotation, on SQLite no string that is a column of two tables, and no more concepts than tables in a join; with candidates no context and no event; and by a time only if DISTINCT ids may be ordered so |
| `FilterPasting.PasteTrue` | ml_metadata/metadata_store/query_config_executor.cc:654-656 | what a WHERE clause means with a condition appended to it unparenthesised |
| `FilterPasting.PastedFilter` | ml_metadata/metadata_store/query_config_executor.cc:636-663 | which nodes the pasted filter selects: the filter and the condition, except that an outermost OR loses the condition in all operands but the last |
| `FilterListing.ClauseIsPasted` | ml_metadata/metadata_store/query_config_executor.cc:636-670 | the clause that the listing theorems compute with selects a node if and only if the query sent to the database does, with its conditions on candidates and threshold written out |
| `FilterListing.ConditionsTrue` | ml_metadata/metadata_store/list_operation_query_helper.cc:77-185 | the conditions appended to the filter are true of a node exactly when its row meets them |
| `FilterListing.AnsweredIsAccepted` | ml_metadata/metadata_store/query_config_executor.cc:636-670 | the listing fails with the database's error if and only if the database refuses that query, for its candidates and order |
| `FilterListing.ContextWithCandidates` | ml_metadata/metadata_store/query_config_executor.cc:660-663 | a filter on the name of a context is refused when candidate ids are given |
| `FilterListing.QuoteInName` | ml_metadata/query/filter_query_builder.cc:96-114 | a filter on a property with a double quote in its name is refused |
| `FilterListing.DoubledQuote` | ml_metadata/query/filter_query_builder.cc:96-114 | a doubled quote in a name is accepted and names another property |
| `FilterListing.StringIsColumn` | ml_metadata/query/filter_query_builder.cc:313-362 | on SQLite a string that spells a column is compared as that column |
| `FilterListing.NameFilterWrong` | ml_metadata/query/filter_query_builder.cc:96-114 | on SQLite a filter on the property called `name` selects a node of which it is not true |
| `Transactions.MetadataSource.Close` | ml_metadata/metadata_store/metadata_source.cc:32-39 | closing drops what is pending, and leaves the transaction flag |
| `Transactions.MetadataSource.Begin` | ml_metadata/metadata_store/metadata_source.cc:50-58 | succeeds only on an idle connection |
| `Transactions.MetadataSource.Commit` | ml_metadata/metadata_store/metadata_source.cc:61-69 | publishes what is pending, or changes nothing, or publishes it and returns an error |
| `Transactions.MetadataSource.Rollback` | ml_metadata/metadata_store/metadata_source.cc:71-79 | discards what is pending, or changes nothing |
| `Transactions.MetadataSource.Execute` | ml_metadata/metadata_store/transaction_executor.cc:23-43 | runs a body between Begin and Commit, and rolls back after any error |
| `Transactions.MetadataSource.Call` | ml_metadata/metadata_store/metadata_store.py:173-197 | the retry loop computes its specification, attempt by attempt |
| `Transactions.RunIsSerial` | ml_metadata/metadata_store/transaction_executor.cc:23-43 | after any run the database is the serial effect of exactly the bodies whose commit took effect |
| `Transactions.EffectiveSucceeded` | ml_metadata/metadata_store/transaction_executor.cc:23-43 | those are the bodies that reported OK if and only if no answer to a COMMIT was lost |
| `Transactions.WholeOrNothing` | ml_metadata/metadata_store/transaction_executor.cc:23-43 | a body has its effect or none, and the status tells which if and only if the answer to COMMIT is not lost |
| `Transactions.FirstErrorReported` | ml_metadata/metadata_store/transaction_executor.cc:23-43 | the status is that of the first failing step, never of the final rollback, and an error changes nothing unless the answer to COMMIT was lost |
| `Transactions.StuckForever` | ml_metadata/metadata_store/metadata_source.cc:32-79 | while a transaction is marked open no transaction runs again in any run, through Close and Connect too |
| `Transactions.StuckExactly` | ml_metadata/metadata_store/transaction_executor.cc:23-43 | a run ends with a transaction marked open if and only if it began so or some Execute failed after its BEGIN and could not roll back |
| `Transactions.ExactlyOnce` | ml_metadata/metadata_store/metadata_store.py:173-197 | unless an answer to COMMIT was lost, a call that returns took effect on top of the other clients' commits before it, and one that raises had no effect; attempts stay within the bound |
| `Transactions.OnceExactly` | ml_metadata/metadata_store/metadata_store.py:173-197 | the number of times a call takes effect is one if it returns, and one more for each lost answer to COMMIT |
| `Transactions.LostThenRepeated` | ml_metadata/metadata_store/metadata_store.py:184-194 | a lost answer reported as ABORTED makes the call take effect twice |
| `Transactions.RetriesWithoutBound` | ml_metadata/metadata_store/metadata_store.py:184-194 | a bound of zero or less is none |
| `ContextRace.RunKeeps` | ml_metadata/metadata_store/metadata_store.cc:301-344 | every interleaving of context writers keeps the invariant |
| `ContextRace.RaceIsSafe` | ml_metadata/metadata_store/metadata_store.cc:301-344 | in every interleaving committed contexts are unique by type and name, writers of one key that finish share one id, and a writer that fails is aborted without a trace |
| `ContextRace.CommittedStays` | ml_metadata/metadata_store/metadata_store.cc:301-344 | a committed context keeps its id and key |
| `ContextRace.RetrySucceeds` | ml_metadata/metadata_store/metadata_store.cc:301-344 | an aborted writer that retries alone finishes, on the context of the winner if there is one |
| `OptimisticUpdate.PutArtifacts` | ml_metadata/metadata_store/metadata_store.cc:869-914 | the loop over the artifacts computes its specification |
| `OptimisticUpdate.RunKeeps` | ml_metadata/metadata_store/metadata_store.cc:869-914 | over every run update times never go back, and with the guard on equal times mean equal contents |
| `OptimisticUpdate.GuardHolds` | ml_metadata/metadata_store/metadata_store.cc:876-907 | a guarded request that commits read no artifact before its stored update time |
| `OptimisticUpdate.NoLostUpdate` | ml_metadata/metadata_store/metadata_store.cc:876-907 | after a change that moved the update time, a guarded writer that read before it cannot commit, whatever happened in between |
| `OptimisticUpdate.CompareAndSwap` | ml_metadata/metadata_store/metadata_store.cc:876-907 | when all writers use the guard, a committed update replaces exactly what was read |
| `OptimisticUpdate.UnguardedUpdateLost` | ml_metadata/metadata_store/metadata_store.cc:876-907 | an unguarded change within one clock tick is overwritten unnoticed |
| `OptimisticUpdate.UpdateKeepsType` | ml_metadata/metadata_store/rdbms_metadata_access_object.cc:1065-1112 | a successful update keeps the stored type if and only if the request names it or it is 0 already |
| `OptimisticUpdate.UntypedForever` | ml_metadata/metadata_store/rdbms_metadata_access_object.cc:1065-1112 | an artifact whose stored type does not exist stays as it is in every run, and no request that mentions it commits |
| `OptimisticUpdate.OmittedTypeIsFinal` | ml_metadata/metadata_store/rdbms_metadata_access_object.cc:1065-1112 | after a committed update that omits the type, no later update of that artifact commits, whatever runs in between |
| `GraphStore.UpsertNodeKeeps` | ml_metadata/metadata_store/metadata_store.cc:253-297 | upserting keeps ids in range and (type, name) unique for every kind of node, deletes nothing, and returns the given or a new id |
| `PutExecution.MetadataStore.DoUpsertPairs` | ml_metadata/metadata_store/metadata_store.cc:1007-1027 | the loop over pairs, with the checks on event ids, for every answer of the database to each insertion of an event, the end of the transaction included |
| `PutExecution.MetadataStore.DoLinkContext` | ml_metadata/metadata_store/metadata_store.cc:1028-1042 | one context, its association, and the loop over its attributions |
| `PutExecution.MetadataStore.DoLinkContexts` | ml_metadata/metadata_store/metadata_store.cc:1028-1042 | the loop over contexts |
| `PutExecutionEffect.PairsEffect` | ml_metadata/metadata_store/metadata_store.cc:1007-1027 | one new event for each pair whose insertion did not fail, counted from the committed database when the transaction ended before |
| `PutExecutionEffect.LinksEffect` | ml_metadata/metadata_store/metadata_store.cc:1028-1042 | the links added are the product of contexts with the execution and with the artifacts |
| `PutExecutionEffect.PutEffect` | ml_metadata/metadata_store/metadata_store.cc:992-1045 | on OK, for all answers: one new event per pair whose insertion did not fail and was not followed by the end of the transaction, all context links, an id per pair and context, nothing deleted, names unique and references valid; the execution is stored, except that the end of the transaction takes it back |
| `PutExecutionEffect.EventsStoredExactly` | ml_metadata/metadata_store/rdbms_metadata_access_object.cc:1414-1456 | on OK every event of the request is stored if and only if no insertion failed for a reason other than a duplicate, whether it ended the transaction or not |
| `PutExecutionEffect.EmptyPairFails` | ml_metadata/metadata_store/metadata_store.cc:382-431 | a pair without artifact and event makes a request with contexts fail |
| `PutExecutionEffect.PutFollows` | ml_metadata/metadata_store/metadata_store.cc:992-1045 | success or not, the request keeps names unique and references valid and deletes nothing, and commits nothing before its transaction ends |
| `PutExecutionAtomicity.PutIsAtomic` | ml_metadata/metadata_store/metadata_store.cc:992-1045 | if no insertion of an event ends the transaction, the request has its effect or none, and OK tells which unless the answer to COMMIT is lost; integrity is kept for every answer |
| `PutExecutionAtomicity.ExecutionStoredExactly` | ml_metadata/metadata_store/rdbms_metadata_access_object.cc:1442-1456 | on OK the execution is stored as given if and only if no insertion of an event ended the transaction or it was stored so before; a new one if and only if none did |
| `PutExecutionAtomicity.WholeExactly` | ml_metadata/metadata_store/rdbms_metadata_access_object.cc:1442-1456 | a request that changes the execution has the effect it has in an unbroken transaction if and only if no insertion of an event ends it |
| `PutExecutionAtomicity.NothingToLose` | ml_metadata/metadata_store/rdbms_metadata_access_object.cc:1442-1456 | any request has that effect when nothing is pending as the transaction ends |
| `PutExecutionAtomicity.LostExecutionFails` | ml_metadata/metadata_store/metadata_store.cc:1028-1042 | a new execution whose transaction was ended makes every request with contexts fail |
| `PutExecutionAtomicity.EventLost` | ml_metadata/metadata_store/rdbms_metadata_access_object.cc:1442-1456 | a stored execution sent unchanged with one event whose insertion fails: OK is reported and nothing is stored |
| `PutExecutionAtomicity.DeadlockLoses` | ml_metadata/metadata_store/mysql_metadata_source.cc:288-294 | a new execution with one event whose insertion ends in a deadlock: OK is reported and nothing is stored |
| `PutExecutionAtomicity.DeadlockLeaves` | ml_metadata/metadata_store/mysql_metadata_source.cc:288-294 | with a new context the request then fails and the context stays behind, whatever ROLLBACK answers |
| `Cycles.CheckCyclicDependency` | ml_metadata/metadata_store/rdbms_metadata_access_object.cc:366-425 | the search reports a cycle if and only if the child is the parent or one of its ancestors |
| `Cycles.LinkKeepsAcyclic` | ml_metadata/metadata_store/rdbms_metadata_access_object.cc:405-425 | a link keeps the graph acyclic if and only if the check passes |
| `Cycles.StoredLinksAcyclic` | ml_metadata/metadata_store/rdbms_metadata_access_object.cc:405-425 | links stored under the check stay acyclic over any sequence of requests |
| `TypeStore.CountOmitted` | ml_metadata/metadata_store/metadata_store.cc:66-89 | the first loop counts omitted properties and stops exactly at a conflict or a forbidden omission, in any order |
| `TypeStore.AddNew` | ml_metadata/metadata_store/metadata_store.cc:100-112 | the second loop adds the new properties and keeps the stored ones |
| `TypeStore.CheckFieldsConsistent` | ml_metadata/metadata_store/metadata_store.cc:56-112 | a type is accepted if and only if the names are equal, shared properties agree, and additions and omissions are allowed; the result has the union of the properties |
| `TypeStore.OmittedCount` | ml_metadata/metadata_store/metadata_store.cc:90-94 | comparing counts tells whether there are new properties |
| `TypeStore.TypeAccess.DoUpsertLink` | ml_metadata/metadata_store/metadata_store.cc:129-159 | a base type is set once; a change is refused without effect |
| `TypeStore.TypeAccess.UpsertType` | ml_metadata/metadata_store/metadata_store.cc:174-205 | creates or updates the type, then its link; what a failure leaves written is stated |
| `TypeStore.TypeAccess.UpsertTypes` | ml_metadata/metadata_store/metadata_store.cc:210-238 | the loop over types stops at the first error |
| `TypeEvolution.UpsertAllEvolves` | ml_metadata/metadata_store/metadata_store.cc:210-238 | a batch keeps the store well formed, only adds to it, and leaves all of the request in place |
| `TypeEvolution.RunEvolves` | ml_metadata/metadata_store/metadata_store.cc:174-238 | over every run of batches no type loses its id, key, property types or parent, and keys stay unique and parents acyclic |
| `TypeEvolution.IdsAndParentsStay` | ml_metadata/metadata_store/metadata_store.cc:129-205 | a type is found under the same id for ever, and its parent is set at most once |
| `TypeEvolution.AbsorbedUpsertAll` | ml_metadata/metadata_store/metadata_store.cc:210-249 | a batch that is in place is registered again without change |
| `TypeEvolution.RegistrationAbsorbed` | ml_metadata/metadata_store/metadata_store.cc:210-249 | a batch that once succeeded succeeds again after any later registrations, with the same ids and no change |
| `TypeEvolution.RequestIsAtomic` | ml_metadata/metadata_store/metadata_store.cc:608-622 | in a transaction a request is whole or nothing, whatever a failing one had written, and the status tells which unless the answer to COMMIT is lost |
| `TypeEvolution.BaseChangeRefused` | ml_metadata/metadata_store/metadata_store.cc:129-159 | a changed base type is refused after new properties were written, and the transaction takes them back |
| `SchemaSql.RunAllConcat` | ml_metadata/metadata_store/query_config_executor.cc:209-214 | statements run one after the other up to the first that fails |
| `Migration.QueryConfigExecutor.ExecuteAll` | ml_metadata/metadata_store/query_config_executor.cc:209-214 | the loop over a scheme's queries |
| `Migration.QueryConfigExecutor.UpgradeIfOutOfDate` | ml_metadata/metadata_store/query_config_executor.cc:163-219 | the loop up to the library version, with its refusals |
| `Migration.QueryConfigExecutor.DowngradeMetadataSource` | ml_metadata/metadata_store/query_config_executor.cc:241-292 | the loop down to the target version, with its refusals |
| `Migration.QueryConfigExecutor.InitIfNotExists` | ml_metadata/metadata_store/query_config_executor.cc:490-549 | upgrades, checks all tables, refuses a part of them, initialises when there are none |
| `MigrationLaws.DowngradeEnds` | ml_metadata/metadata_store/query_config_executor.cc:241-292 | with any scripts, a successful downgrade records the lower of the database's version and the target |
| `MigrationLaws.UpgradeEnds` | ml_metadata/metadata_store/query_config_executor.cc:163-219 | with any scripts, a successful upgrade records the library's version; what cannot be upgraded is left alone |
| `MigrationLaws.RoundTripIdentity` | ml_metadata/metadata_store/query_config_executor.cc:200-292 | if each upgrade step undoes the downgrade step, downgrading to any version and upgrading again is the identity |
| `MigrationEffect.RebuildRuns` | ml_metadata/util/metadata_source_query_config.cc:887-902 | create, copy, drop and rename replace a table by its copy and drop its indices |
| `MigrationEffect.RebuildFits` | ml_metadata/util/metadata_source_query_config.cc:1212-1252 | such a rebuild takes the rows of one version to those of another, columns matched by position where the script selects all |
| `MigrationSteps.LatestRuns` | ml_metadata/util/metadata_source_query_config.cc:1960-1965 | the copy keeps exactly the events that no equal event with a greater id supersedes |
| `MigrationSteps.EventsUp8Turns` | ml_metadata/util/metadata_source_query_config.cc:1950-1969 | the events are rebuilt under their new unique key, for every table of events, equal ones included |
| `MigrationRoundTrip.IgnoringKeepsLatest` | ml_metadata/util/metadata_source_query_config.cc:1960-1965 | inserting by descending id and ignoring duplicates, row after row, keeps exactly those events |
| `MigrationUp.Up5` | ml_metadata/util/metadata_source_query_config.cc:1208-1261 | the script to version 5 gives that version's schema, new columns at their defaults |
| `MigrationUp.Up6` | ml_metadata/util/metadata_source_query_config.cc:1436-1521 | the script to version 6: parent tables, type versions and indices |
| `MigrationUp.Up8` | ml_metadata/util/metadata_source_query_config.cc:1893-1977 | the script to version 8 on every content: property indices, of equal events the latest, and the paths of the events kept |
| `MigrationDown.Down1` | ml_metadata/util/metadata_source_query_config.cc:882-902 | the script to version 1 deletes the context types and renames the kind column |
| `MigrationDown.Down5` | ml_metadata/util/metadata_source_query_config.cc:1320-1361 | the script to version 5 finds and drops every index of version 6 |
| `MigrationDown.Down7` | ml_metadata/util/metadata_source_query_config.cc:1778-1832 | the script to version 7 keeps all events and restores their indices |
| `MigrationRoundTrip.StepUp` | ml_metadata/util/metadata_source_query_config.cc:797-1977 | each of the eight upgrade scripts, on a database of the version before that holds what is left of any content, gives the next version's schema and rows |
| `MigrationRoundTrip.StepDown` | ml_metadata/util/metadata_source_query_config.cc:779-1832 | each of the eight downgrade scripts, on a database of the version after with any content, gives the version's schema and rows |
| `MigrationRoundTrip.Represented` | ml_metadata/util/metadata_source_query_config.cc:779-1977 | every database with a version's schema is one of those |
| `MigrationRoundTrip.EveryStepUp` | ml_metadata/util/metadata_source_query_config.cc:797-1977 | each upgrade script succeeds on every database with the schema of the version before, and gives the version's schema |
| `MigrationRoundTrip.EveryStepDown` | ml_metadata/util/metadata_source_query_config.cc:779-1832 | each downgrade script succeeds on every database with the schema of the version after, and gives the version's schema |
| `MigrationRoundTrip.EveryUpgrade` | ml_metadata/metadata_store/query_config_executor.cc:163-219 | every database of any version before 8 with integer event ids, equal events included, is upgraded to version 8: it keeps exactly the latest of equal events and the paths of those kept, and all other rows in order with new columns at their defaults; new tables are empty |
| `MigrationRoundTrip.LatestCovers` | ml_metadata/util/metadata_source_query_config.cc:1960-1965 | of every event one equal to it is kept, with an id at least as great |
| `MigrationRoundTrip.LatestDistinct` | ml_metadata/util/metadata_source_query_config.cc:1950-1965 | two kept events that are equal have one id |
| `MigrationRoundTrip.RoundTrip` | ml_metadata/metadata_store/query_config_executor.cc:163-292 | every database of version 8 goes down to any version and up again, and has then lost exactly the tables, columns and rows introduced later |
| `MigrationRoundTrip.RoundTripLossless` | ml_metadata/util/metadata_source_query_config.cc:779-1977 | it is restored if and only if nothing in it is newer than that version |
| `StoreInit.InitOutcome` | ml_metadata/metadata_store/query_config_executor.cc:439-488 | initialisation succeeds if and only if existing tables have the indexed columns, and gives the tables, indices and version of the library |
| `StoreInit.UpgradeLeaves` | ml_metadata/metadata_store/query_config_executor.cc:163-219 | from any database, a successful upgrade records version 8 or has found no store |
| `StoreInit.InitResult` | ml_metadata/metadata_store/query_config_executor.cc:490-549 | OK means version 8 and all tables; they are complete if and only if the database held no foreign tables; a second call changes nothing and is OK if and only if they are |
| `StoreInit.EmptyIsInitialized` | ml_metadata/metadata_store/query_config_executor.cc:439-549 | an empty database becomes a version 8 store to which the migration theorems apply |
| `StoreInit.ForeignAccepted` | ml_metadata/metadata_store/query_config_executor.cc:531-549 | a database with one foreign table is accepted as initialised |
| `StoreInit.InitIsAtomic` | ml_metadata/metadata_store/query_config_executor.cc:490-549 | in a transaction a failure leaves schema and version as they were, unless the answer to COMMIT was lost, and success or any change leaves the expected version |
| `MySqlSource.UseRoundTrip` | ml_metadata/metadata_store/mysql_metadata_source.cc:316-324 | the USE query built from a name is read back as that name |
| `MySqlSource.Source.DoRunQuery` | ml_metadata/metadata_store/mysql_metadata_source.cc:273-314 | reconnecting and replaying a lost START TRANSACTION ends whenever the errors do |
| `MySqlSessions.StepKeeps` | ml_metadata/metadata_store/mysql_metadata_source.cc:273-324 | every operation keeps the invariant on sessions and databases |
| `MySqlSessions.TransactionsAreWhole` | ml_metadata/metadata_store/mysql_metadata_source.cc:273-324 | in every run, for all server answers, no transaction has statements on two sessions, and a connected session has the database last selected, provided Close is not called inside a transaction |
| `MySqlSessions.LostSession` | ml_metadata/metadata_store/mysql_metadata_source.cc:282-288 | a session lost inside a transaction is not replaced: until Close every operation fails and changes nothing |
| `MySqlSessions.CloseSpreads` | ml_metadata/metadata_store/metadata_source.cc:32-39 | Close inside a transaction always spreads the rest of it over another session |
| `Decimal.DigitsInjective` | ml_metadata/metadata_store/query_config_executor.cc:424 | decimal notation tells numbers apart |
| `QueryTemplate.RenderParse` | ml_metadata/metadata_store/query_config_executor.cc:409-428 | reading a template as text and slots loses nothing |
| `QueryTemplate.BindingFillsSlots` | ml_metadata/metadata_store/query_config_executor.cc:421-427 | for any template and at most ten parameters with any text, one-pass replacement fills the slots and nothing else |
| `QueryTemplate.TenIsTheLimit` | ml_metadata/metadata_store/query_config_executor.cc:412-415 | slot names are free of prefixes of each other if and only if there are at most ten |
| `QueryTemplate.Bind` | ml_metadata/metadata_store/query_config_executor.cc:409-428 | what is sent, refused, or fatal |
| `Lineage.Expand` | ml_metadata/metadata_store/rdbms_metadata_access_object.cc:1997-2093 | one hop finds new linked nodes within the boundary, all of them unless the quota cuts it short, and the events that lead there, also when only their paths cannot be read; nothing if the query for events fails; an error of the other queries if one was sent |
| `Lineage.HopExtends` | ml_metadata/metadata_store/rdbms_metadata_access_object.cc:1997-2093 | after a hop, cut short or not, the events collected are all events among the nodes collected |
| `Lineage.HopTraverses` | ml_metadata/metadata_store/rdbms_metadata_access_object.cc:2114-2143 | a full hop collects exactly the nodes one hop further |
| `Lineage.QueryLineageGraph` | ml_metadata/metadata_store/rdbms_metadata_access_object.cc:2095-2143 | fails only with the error of a query for the boundary or for nodes; else each node once: all nodes on walks within the boundary of at most the given length, or the number of hops before the first failing query for events, unless the quota is used up; exactly the events among them, every node connected to the query nodes by them |
| `Lineage.TruncatedExactly` | ml_metadata/metadata_store/rdbms_metadata_access_object.cc:2010-2016 | a graph cut short by a failing query is complete if and only if nothing within the boundary is linked to its nodes |
| `Lineage.GetLineageGraph` | ml_metadata/metadata_store/metadata_store.cc:1708-1769 | the clamped hop limit, the node limit and the error cases |

## Left out

- Property tables of nodes: updating properties and custom properties row by row.
- Proto and base64 encoding of page tokens.
- Parsing and type checking of filter expressions by the SQL analyser; the model starts from resolved expressions. How the analyser prints quotes, backslashes and control characters in string literals is not modelled, nor are MySQL's collations and its SQL modes other than ONLY_FULL_GROUP_BY.
- FilterPasting.AcceptedExactly: counts a property name that ends its quotation early as refused, because what follows is rarely SQL; a name written to continue the query is outside the model.
- FilterMeaning.FilterCorrect: asks for a filter that is read as meant, which is more than some filters need (FilterListing.MisreadHarmless); FilterMeaning.ReadExactly is the exact condition for the reading.
- OptimisticUpdate, GraphStore: node content is one opaque value; property validation against types is not modelled, and names are in GraphStore only.
- PutExecution: paths of events; errors of the backend other than those of BEGIN, COMMIT, ROLLBACK and the insertions of events, all of which end the request; a rollback takes the next id back too, as in SQLite, though MySQL goes on counting.
- PutExecutionAtomicity.NothingToLose: sufficient; a later pair of the same request may also write again what was lost.
- Transactions: a database that ends a transaction before COMMIT is modelled for PutExecution, which drops that error; elsewhere the error ends the body.
- SchemaSql: UNIQUE and NOT NULL constraints other than those on MLMDEnv and on events; the scripts copy rows that satisfied them before.
- The MySQL migration scripts; the SQLite scripts are modelled.
- MySqlSessions.TransactionsAreWhole: assumes that texts sent by callers do not start transactions or change the database in a form the client does not notice, because the source sees only two-token USE queries; the configured database name has no spaces.
- PagingProperties.UpdateTimePagingExact: states a sufficient condition on ties; the exact one is in ClientPaging.PagingExact.
- Lineage: boundary conditions are predicates on nodes, though the source asks for them in batches of 100; paths of events and node types in the result are not modelled.
- gRPC transport, deletion of nodes, getters, and the waiting time between retries.
