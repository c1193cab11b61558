# Verified model of the Dataquery service

Dataquery answers GraphQL queries over relational tables. This project models its SQL path, and the small protocols
beside it, in Dafny 4.11, and proves what they promise. `dafny verify dfyconfig.toml` checks it.

The database is a set of finite tables with declared columns; it refuses a statement that names an unknown column, gives
two tables one alias, or orders a SELECT DISTINCT by what it does not select (section 13.1 of ISO/IEC 9075:1992). LEFT
OUTER JOIN is read as in section 7.5 and conditions in three-valued logic as in section 8.12 of ISO/IEC 9075:1992. Where
SQL leaves order or repetition of rows open, theorems hold for every answer the database may give. A value is NULL or a
text; its order and the LIKE relation are the database's own.

## How it is built

- **Filters.** `Truth`, `Filters`, `FilterLaws`, `FilterParser`, `FilterReader`: the filter tree of an argument, its
  compilation to a condition with positional `?`, and the second traversal that binds parameters in batch mode.
- **One query.** `Schema`, `Projections`, `Query`, `Sql`, `Ordering`, `Statement`, `AliasCache`, `SimpleParser`: a
  nested selection compiled to a sorted and paged sub-select inside an outer left-join query; `Paging` compares the page
  with the rows, `Legality` says which statements a database takes.
- **What is asked.** `Asked`, `AskedRoots`: the rows and objects a request asks for, read off the request alone, against
  what the compiled filters select.
- **Rebuilding.** `Names`, `Labels`, `ColumnTree`, `ColumnLaws`, `LabelRoundTrip` read the tree of types back from the
  column labels; `Loader`, `LoaderFold`, `LoaderLaws`, `Rebuild` fold the rows into objects; `LoaderHeap` is the same
  fold on shared mutable objects; `SingleMode` and `EndToEnd` put compiler and loader together, `Requests` goes from
  schema and selection to the objects.
- **Many queries.** `Batch`, `Multi`: one child query per parent, fused into one IN query and split apart. `Agreement`
  compares the objects of both modes.
- **Row security.** `RowSecurity`, `SingleTraversal`, `SecuredMode`, `SecuredAgreement`: the filters of a user's roles,
  merged and put on every type, from the roles to the rebuilt objects, and compared with the mode that has none.
- **Record lock.** `RecordLock`, `LockLaws`: taking and releasing a lock is one conditional UPDATE; many clients.
- **Named queries.** `Lexer`, `Binding`, `Job`, `Streaming`: `:name` parameters, their values, the job with its timeout
  handler, and the chunked stream of rows.
- **Complexity.** `Complexity`, `JavaInt`: two counters in one integer.

Methods follow the code's loops and updates and are proved equal to functions; the laws are lemmas about those
functions.

## What the proofs show about the code

Where a promise fails, the condition under which it holds is proved as an equivalence.

- The sort field of a request need not be selected, but both modes order a SELECT DISTINCT by it. The statement is one a
  database takes iff the sort field is selected (`OrderedBySelected`, `LegalIff`, `UnselectedSortIsRefused`); in both
  modes the other requests end in an error (`TraverseSingle`, `TraverseAndLoad`).
- A filter may name a relationship, and a nested dotted filter any type; the compiled column then may not exist. Over a
  schema, the sort field being selected, the statement is taken iff every root filter ends in a scalar and every nested
  one in the name of a column of its own table (`AcceptedNamesColumnsIff`, `RelationshipFilterAccepted`, `SelectionIsTakenIff`).
- A relationship selected twice under two GraphQL aliases gives two joined tables one alias, which no database takes
  (`PathsDifferIff`, `SelectedTwiceIsRefused`).
- A set-level `not` without an operator is dropped, so the compiled condition is inverted (`LoneNegationInverts`);
  meaning is preserved iff no set negates that way (`PreservedIffNoLoneNegation`). Asked for orders that are not open,
  the service returns an open one (`OpenIsSelected`).
- Filters of nested selections and of batch mode are compiled without aliases: a dotted name lands on the filtered
  table. Meaning is preserved, and what is selected is what is asked for, iff no name is dotted and no set negates
  without an operator (`PreservedWithoutAliasesIff`, `SelectsAsAskedIff`, `DottedNestedFilterMisread`). Then roots and
  objects are those the request asks for (`RootIsAsked`, `SingleModeAnswersRequest`, `SecuredModeAnswersRequest`). Both
  modes misread nested filters alike, so they still agree. A dotted root filter is read on the joined rows by the
  single-query mode, which then also drops the children of the rows it does not keep.
- Has-many children are ordered by hash code only: objects are rebuilt, and the modes agree, iff no two children of one
  field have cache keys of one hash code (`SingleModeBuilds`, `ModesAgree`); keys ending in `Aa` and `BB` do collide.
- A sort by a selected "id" leaves the primary key out of the order even when "id" is another column. The order of a
  page is kept iff no two of its roots share that "id" (`PageInOrderIff`, `UntiedIff`).
- Row filters are put on the single-query mode only: the modes agree iff the roles allow all that the page shows
  (`SecuredModesAgreeIff`).
- A lock taken with a null value belongs to nobody (`OwnerlessLock`, `UpdateShapesIff`).
- The scanner reads past the end of some statements, among them all that end in a block comment (`FailsIff`,
  `TrailingCommentIsRefused`). It takes the type of a cast `::type` for a parameter, ends a comment that begins with a
  slash at once, and opens a comment again when a star follows it. Statements without these are read as they are meant,
  and no others (`ScannedAsMeantIff`). The equivalence includes where the scanner believes to be, because a misread
  comment may do no harm (`MisreadWithoutHarm`).
- If publishing is not one step, the timeout handler's older status can be published last (`ToldInOrderIff`). A job that
  fails in its own publication may have told success (`FailedShowsSuccessIff`).
- A typed stream repeats all earlier rows in every payload (`TypedConservesIff`).
- The field counter carries into the join counter from 1000 plain fields on (`WideSelection`), and the discount for
  introspection fields wraps around at 2148 of them (`WideIntrospection`).

The error messages on complexity speak of the number of fields and joins of the query; the code tests the count of each
field's subtree, and that is what is modelled. The description of the lock release promises 0 when the lock was expired
and acquired by another process; the code returns 0 whenever a different id holds the record unexpired, and for a
missing record.

## Model

| member | source | states |
|---|---|---|
| FilterReader.ParseFilter | src/main/java/com/opentext/infofabric/dataquery/graphql/query/FilterSet.java:158-209 | a dotted field name is followed through the schema from the queried type; the filter is built exactly when every step is a relationship and the last name is a field of the type reached |
| FilterReader.ParseQueryFilter | src/main/java/com/opentext/infofabric/dataquery/graphql/query/FilterSet.java:111-156 | the whole argument, sets within sets: there is a result exactly when every set has either filters or inner sets, every filter names a field by a walk along relationships, and several members have an operator |
| FilterReader.AcceptedMeansInput | src/main/java/com/opentext/infofabric/dataquery/graphql/query/FilterSet.java:120-209 | reading and validating keep the meaning: in every environment an accepted tree without empty lists has the three-valued truth of the argument as it is written, its operators, both kinds of `not` and dotted names included |
| FilterReader.FieldPathIff | src/main/java/com/opentext/infofabric/dataquery/graphql/query/FilterSet.java:174-187 | the names of a dotted field are exactly the parts that, put together with dots, give its text up to dots at the end |
| FilterReader.AcceptedBindsIff | src/main/java/com/opentext/infofabric/dataquery/graphql/dataloaders/rdbms/RDBMSLoader.java:68-142 | the values of an accepted argument can all be bound if and only if each can by the type name of the field it is compared with: eleven types for one value, five for a list without NULL, none for a relationship |
| FilterReader.AcceptedIsWellFormed | src/main/java/com/opentext/infofabric/dataquery/graphql/query/FilterSet.java:111-209 | whatever is accepted (no list being empty) is a tree the compiler takes, and each of its filters names an existing field of the type its path leads to, which may be a relationship |
| FilterReader.AcceptedNamesColumnsIff | src/main/java/com/opentext/infofabric/dataquery/graphql/query/FilterSet.java:174-192 | the filters of an accepted argument name columns if and only if the last name of every field, through all nested sets, is a scalar of the type the names before it lead to |
| FilterReader.RelationshipFilterAccepted | src/main/java/com/opentext/infofabric/dataquery/graphql/query/FilterSet.java:189-192 | a concrete argument: a filter on the relationship field customer is accepted and compiled to a column the table does not have |
| FilterReader.TrailingDotIsDropped | src/main/java/com/opentext/infofabric/dataquery/graphql/query/FilterSet.java:174-187 | a field name ending in a dot reads as the name without it |
| Filters.ValidatedIsWellFormed | src/main/java/com/opentext/infofabric/dataquery/graphql/query/FilterSet.java:120-135 | validation leaves one kind of list per set and keeps an operator exactly for several members |
| FilterParser.ParseFilterSet | src/main/java/com/opentext/infofabric/dataquery/graphql/dataloaders/rdbms/SQLQueryParser.java:50-81 | the recursive compiler with its growing condition and its parameter side effects yields, for every tree and every error case, the condition and exactly the appended parameters of the specification |
| FilterParser.GetBinaryOrInCondition | src/main/java/com/opentext/infofabric/dataquery/graphql/dataloaders/rdbms/SQLQueryParser.java:91-129 | one filter: column, operator, one `?` per bound value, negation, unknown path |
| FilterLaws.EmittedMeaning | src/main/java/com/opentext/infofabric/dataquery/graphql/dataloaders/rdbms/SQLQueryParser.java:50-129 | exact law on every row: the emitted condition, its `?` filled in text order, has the three-valued truth of the tree without its operator-less negations |
| FilterLaws.CompileHoles | src/main/java/com/opentext/infofabric/dataquery/graphql/dataloaders/rdbms/SQLQueryParser.java:50-129 | whatever the tree, a condition is emitted with one parameter per `?` |
| FilterLaws.CompilePreservesMeaning | src/main/java/com/opentext/infofabric/dataquery/graphql/dataloaders/rdbms/SQLQueryParser.java:50-129 | for every well-formed tree whose negated sets have an operator, the emitted condition means the tree, on every row and with NULLs |
| FilterLaws.PreservedIffNoLoneNegation | src/main/java/com/opentext/infofabric/dataquery/graphql/dataloaders/rdbms/SQLQueryParser.java:63-79 | every set of a tree (no filter value being NULL) keeps its meaning through the compiler if and only if no set without an operator carries a not |
| FilterLaws.LoneNegationInverts | src/main/java/com/opentext/infofabric/dataquery/graphql/dataloaders/rdbms/SQLQueryParser.java:63-79 | a set negated without an operator is compiled to the three-valued opposite of what was asked, on every row |
| FilterLaws.NotOpenSelectsOpen | src/main/java/com/opentext/infofabric/dataquery/graphql/dataloaders/rdbms/SQLQueryParser.java:63 | a concrete request: NOT status = open, written on a one-element set, selects the open rows |
| FilterLaws.EmittedReads | src/main/java/com/opentext/infofabric/dataquery/graphql/dataloaders/rdbms/SQLQueryParser.java:50-129 | the compiler reads a tree as it places its columns: when every placed column has the value the filter is about, in whatever two environments, the condition has the truth of the tree |
| FilterLaws.NamesEveryFilter | src/main/java/com/opentext/infofabric/dataquery/graphql/dataloaders/rdbms/SQLQueryParser.java:91-129 | the emitted condition names the placed column of every filter of the tree, and no other column |
| FilterLaws.EmitsIff | src/main/java/com/opentext/infofabric/dataquery/graphql/dataloaders/rdbms/SQLQueryParser.java:91-97 | with an alias cache a well-formed tree compiles exactly when every path in it has an alias |
| FilterLaws.PreservedWithoutAliasesIff | src/main/java/com/opentext/infofabric/dataquery/graphql/dataloaders/rdbms/SQLQueryParser.java:93-97 | compiled without an alias cache (no filter value being NULL), every set of a tree keeps its meaning if and only if no set without an operator carries a not and no filter has a dotted name |
| FilterReader.DottedNestedFilterMisread | src/main/java/com/opentext/infofabric/dataquery/graphql/dataloaders/rdbms/SQLSimpleParser.java:127-130 | a concrete accepted request: orders of customers called Ann, asked for on the nested orders, selects an order called Ann of a customer called Bob |
| FilterParser.PopulateFilterArrayList | src/main/java/com/opentext/infofabric/dataquery/graphql/dataloaders/rdbms/RDBMSLoader.java:144-154 | the second traversal appends the filters of the tree in text order |
| FilterParser.SetPstmtArray | src/main/java/com/opentext/infofabric/dataquery/graphql/dataloaders/rdbms/RDBMSLoader.java:113-142 | the elements of a list fill consecutive slots after the running index |
| FilterParser.SetFilterValuesOnPreparedStmt | src/main/java/com/opentext/infofabric/dataquery/graphql/dataloaders/rdbms/RDBMSLoader.java:55-111 | the running index fills slots 1, 2, ... with the bound values in order, or fails exactly when a type is unknown or a single value does not read as its type |
| FilterParser.BindingMatchesFilter | src/main/java/com/opentext/infofabric/dataquery/graphql/dataloaders/rdbms/RDBMSLoader.java:55-67 | for one filter the two traversals collect the same parameters iff a list stands exactly under IN |
| FilterParser.BindingMatchesCompiling | src/main/java/com/opentext/infofabric/dataquery/graphql/dataloaders/rdbms/RDBMSLoader.java:55-154 | for a well-formed tree the independently bound values are, position by position, the parameters the compiler would have collected |
| FilterParser.BoundStatementMeaning | src/main/java/com/opentext/infofabric/dataquery/graphql/dataloaders/rdbms/RDBMSBatchLoader.java:95-107 | a batch statement bound by the second traversal has the truth value of the filter tree on every row |
| Projections.BuildAttributeProjection | src/main/java/com/opentext/infofabric/dataquery/graphql/query/ProjectionSet.java:68-103 | the selected scalars, the parent column of every selected relationship, and the primary keys when none is selected; an unselectable field is the only failure |
| Projections.StandsReflects | src/main/java/com/opentext/infofabric/dataquery/graphql/query/ProjectionSet.java:68-121 | at every depth of a selection each selected scalar is a column, and each column is a selected scalar, the parent field of a selected relationship or an added key; the key is the last selected ID, or else the last the type defines |
| Projections.ProjectionHasKeys | src/main/java/com/opentext/infofabric/dataquery/graphql/query/ProjectionSet.java:68-121 | at every type of a selection, at every depth, the primary key and the parent column of every relationship are projected |
| Projections.SelectionIsWellNamed | src/main/java/com/opentext/infofabric/dataquery/graphql/query/ProjectionSet.java:68-121 | over a schema of plain names every selection meets the naming conditions the label round trip needs |
| Projections.BuildNode | src/main/java/com/opentext/infofabric/dataquery/graphql/traversal/SingleTraversal.java:108-146 | schema and selection to the selected tree: there is one exactly when every field is a scalar or leads to a known type and every filter argument is accepted, at every depth; it has exactly the projected columns, the accepted filters and one edge per selected relationship, in order |
| Projections.FieldsDifferIff | src/main/java/com/opentext/infofabric/dataquery/graphql/traversal/SingleTraversal.java:113-119 | sibling fields of the tree differ exactly when no relationship is selected twice, under whatever GraphQL aliases |
| Sql.JoinAllSound | src/main/java/com/opentext/infofabric/dataquery/graphql/dataloaders/rdbms/SQLSimpleParser.java:107-142 | a joined row shows, at every join of the plan, a child its ON clause relates to the parent, or nothing |
| Sql.JoinAllComplete | src/main/java/com/opentext/infofabric/dataquery/graphql/dataloaders/rdbms/SQLSimpleParser.java:107-142 | every related child is shown by some joined row that agrees on the parent, across sibling cross products and bridges |
| Sql.JoinAllExtends | src/main/java/com/opentext/infofabric/dataquery/graphql/dataloaders/rdbms/SQLSimpleParser.java:107-142 | a left outer join loses no row |
| Query.WithoutAliases | src/main/java/com/opentext/infofabric/dataquery/graphql/dataloaders/rdbms/SQLQueryParser.java:93-97 | compiled without aliases, a condition asks of a joined row what the filter says of its own columns, dotted or not |
| Query.OwnJoinIsTheRelation | src/main/java/com/opentext/infofabric/dataquery/graphql/dataloaders/rdbms/SQLSimpleParser.java:110-131 | a compiled join with its ON filter and optional bridge relates exactly the rows the selection relates, whatever names its filter has |
| Query.PlanHolds | src/main/java/com/opentext/infofabric/dataquery/graphql/dataloaders/rdbms/SQLSimpleParser.java:95-97 | every selected relationship, at every depth, has its own join in the plan, even one selected twice |
| Query.PathsDifferIff | src/main/java/com/opentext/infofabric/dataquery/graphql/dataloaders/rdbms/SQLSimpleParser.java:118-119 | the joined tables have different paths, and so aliases of their own, if and only if no relationship is selected twice under one parent |
| SimpleParser.SQLSimpleParser.Parse | src/main/java/com/opentext/infofabric/dataquery/graphql/dataloaders/rdbms/SQLSimpleParser.java:40-105 | the compiler as it runs produces the statement with its joins, conditions, orderings, limit and offset, the parameters, the aliases in first-mention order and the key columns of the specification, or its first error; the page stands on the sub-select only |
| SimpleParser.SQLSimpleParser.AddJoin | src/main/java/com/opentext/infofabric/dataquery/graphql/dataloaders/rdbms/SQLSimpleParser.java:107-142 | one relationship and everything below it, in preorder: joins, parameters, aliases, key columns and orderings grow by exactly its share |
| SimpleParser.MentionedInJoinOrder | src/main/java/com/opentext/infofabric/dataquery/graphql/dataloaders/rdbms/SQLSimpleParser.java:107-142 | the joined tables get their aliases in the order of the joins |
| SimpleParser.SQLSimpleParser.AddSort | src/main/java/com/opentext/infofabric/dataquery/graphql/dataloaders/rdbms/SQLSimpleParser.java:208-230 | sort field, then the primary key unless the field is the key or "id"; an aggregate only by another field |
| Statement.AggregateOrder | src/main/java/com/opentext/infofabric/dataquery/graphql/dataloaders/rdbms/SQLSimpleParser.java:224-230 | an aggregate has the limit and offset of the request and is ordered by the requested field in the requested direction, or not at all when that is none or the key |
| Statement.OnlyTheSubSelectIsPaged | src/main/java/com/opentext/infofabric/dataquery/graphql/dataloaders/rdbms/SQLSimpleParser.java:54-105 | the two SELECTs of a request have the same tables, joins and conditions; the inner one has limit and offset, the outer one none and more keys to sort by |
| Statement.Aligned | src/main/java/com/opentext/infofabric/dataquery/graphql/dataloaders/rdbms/SQLSimpleParser.java:65-140 | for every request that compiles the collected list has one entry per `?` of the whole text, twice over for a normal query and once for an aggregate, and binding it in text order gives every condition of the sorted and paged sub-select and of the outer select exactly the parameters compiled for it |
| Statement.KeptByRoot | src/main/java/com/opentext/infofabric/dataquery/graphql/dataloaders/rdbms/SQLSimpleParser.java:72-77 | what a SELECT keeps for a page of roots is what it keeps for all roots, restricted to roots of the page |
| Statement.PageIsShown | src/main/java/com/opentext/infofabric/dataquery/graphql/dataloaders/rdbms/SQLSimpleParser.java:72-77 | re-joining and re-filtering loses no root of the page and adds none, whatever joined tables the filter refers to |
| Paging.Pagination | src/main/java/com/opentext/infofabric/dataquery/graphql/dataloaders/rdbms/SQLSimpleParser.java:54-80 | of a statement the database takes, its sort field being selected: the distinct roots of the outer rows are exactly the limit/offset page of the distinct roots the sub-select keeps, in the order that was asked for, and in the order of the page when it has no ties |
| Paging.SortedAsRequested | src/main/java/com/opentext/infofabric/dataquery/graphql/dataloaders/rdbms/SQLSimpleParser.java:208-222 | what is sorted by the compiled keys is in the order asked for: of two roots none stands behind one that it precedes by the requested field in the requested direction, and of two that share that field, unless it is the key or "id", the smaller key stands first |
| Paging.JoinedRowsDescend | src/main/java/com/opentext/infofabric/dataquery/graphql/dataloaders/rdbms/SQLSimpleParser.java:107-142 | the rows of one root come table by table with the greater key of the joined table first, in join order |
| Seqs.SliceAt | src/main/java/com/opentext/infofabric/dataquery/graphql/dataloaders/rdbms/SQLSimpleParser.java:56-61 | a page is the elements after those skipped, as many as there are up to the limit |
| Paging.PageInOrderIff | src/main/java/com/opentext/infofabric/dataquery/graphql/dataloaders/rdbms/SQLSimpleParser.java:208-222 | of a statement the database takes: the outer rows show the page in its order, whichever way the database breaks ties, if and only if no two roots of the page are tied |
| Paging.UntiedIff | src/main/java/com/opentext/infofabric/dataquery/graphql/dataloaders/rdbms/SQLSimpleParser.java:215-221 | roots are tied only when the request sorts by an "id" that is not the primary key, and exactly when they share that "id" |
| Ordering.SortedListsAreEqual | src/main/java/com/opentext/infofabric/dataquery/graphql/dataloaders/rdbms/SQLSimpleParser.java:208-222 | a strict order by key leaves one order: two strictly sorted lists of the same rows are the same list |
| Legality.OrderedBySelected | src/main/java/com/opentext/infofabric/dataquery/graphql/dataloaders/rdbms/SQLSimpleParser.java:208-222 | the outer SELECT DISTINCT is ordered by what it selects if and only if the sort field is the default one or a selected column; the keys it also sorts by are always selected |
| Legality.LegalIff | src/main/java/com/opentext/infofabric/dataquery/graphql/dataloaders/rdbms/SQLSimpleParser.java:54-222 | exactly which compiled requests a database takes: the sort field is selected, the columns of the selection and of its joins exist, a root filter names columns of the types its paths lead to, and a nested filter columns of its own table |
| Legality.UnselectedSortIsRefused | src/main/java/com/opentext/infofabric/dataquery/graphql/query/Query.java:91-93 | a concrete request, accepted and compiled, that every database refuses: orders sorted by total, with only their id selected |
| Legality.SelectedTwiceIsRefused | src/main/java/com/opentext/infofabric/dataquery/graphql/dataloaders/rdbms/SQLSimpleParser.java:118-122 | a relationship selected twice under one parent gives two tables one alias: every database refuses the statement |
| AliasCache.SQLAliasCache.AddAliasMapping | src/main/java/com/opentext/infofabric/dataquery/graphql/dataloaders/rdbms/SQLAliasCache.java:29-41 | a new name gets the next alias, a known one keeps its own; the two-way index, the root alias and the flags stay consistent |
| AliasCache.AliasesAreABijection | src/main/java/com/opentext/infofabric/dataquery/graphql/dataloaders/rdbms/SQLAliasCache.java:29-61 | at all times each name has one alias and each alias one name |
| Labels.Projector.Add | src/main/java/com/opentext/infofabric/dataquery/graphql/dataloaders/rdbms/SQLSimpleParser.java:177-206 | the columns of a selection are put under their labels, type by type |
| Labels.ProjectionAdds | src/main/java/com/opentext/infofabric/dataquery/graphql/dataloaders/rdbms/SQLSimpleParser.java:177-206 | labels are added for exactly the columns of the selection, each under its own label |
| ColumnLaws.KeyIs | src/main/java/com/opentext/infofabric/dataquery/graphql/dataloaders/rdbms/SQLSimpleParser.java:118-121 | the alias cache knows the key column of every type of the selection |
| ColumnLaws.KeyForIs | src/main/java/com/opentext/infofabric/dataquery/graphql/dataloaders/rdbms/SQLSimpleParser.java:144-158 | the recursive search by path finds the key of the type at that path |
| ColumnLaws.FlagIs | src/main/java/com/opentext/infofabric/dataquery/graphql/dataloaders/rdbms/SQLSimpleParser.java:118-119 | the has-many flag under a path is the flag of the relationship selected there |
| ColumnTree.ParseColumns | src/main/java/com/opentext/infofabric/dataquery/graphql/dataloaders/rdbms/RDBMSSimpleLoader.java:200-227 | labels are dealt out to the tables of their aliases; a label that cannot be read and a missing root are the only failures |
| ColumnTree.LinkChildren | src/main/java/com/opentext/infofabric/dataquery/graphql/dataloaders/rdbms/RDBMSSimpleLoader.java:229-233 | every path is listed under its parent, once |
| LabelRoundTrip.LabelStands | src/main/java/com/opentext/infofabric/dataquery/graphql/dataloaders/rdbms/SQLSimpleParser.java:177-190 | every column of the selection has a label of its own |
| LabelRoundTrip.LabelsRoundTrip | src/main/java/com/opentext/infofabric/dataquery/graphql/dataloaders/rdbms/RDBMSSimpleLoader.java:200-236 | the tree read back from the printed labels, in any order, has one root, no orphan and a key column at every type, and is the selection: types, columns, fields, flags |
| Loader.CacheKeyIsInjective | src/main/java/com/opentext/infofabric/dataquery/graphql/dataloaders/rdbms/RDBMSSimpleLoader.java:238-240 | two objects share a cache key iff they have the same path, key field and key |
| Loader.ParseTreeTouches | src/main/java/com/opentext/infofabric/dataquery/graphql/dataloaders/rdbms/RDBMSSimpleLoader.java:148-198 | one row in closed form: the recursive descent updates every visited object once, as if each were alone, and nothing else |
| LoaderFold.CachedObject | src/main/java/com/opentext/infofabric/dataquery/graphql/dataloaders/rdbms/RDBMSSimpleLoader.java:106-114 | fold invariant: after any prefix of rows the object of a key is what its own rows made of it, and there is none when no row visits it |
| LoaderFold.CachedKeys | src/main/java/com/opentext/infofabric/dataquery/graphql/dataloaders/rdbms/RDBMSSimpleLoader.java:153-170 | after any prefix the cache holds exactly the keys seen |
| LoaderFold.ResultList | src/main/java/com/opentext/infofabric/dataquery/graphql/dataloaders/rdbms/RDBMSSimpleLoader.java:160-167 | the result list holds the roots in the order of their first rows |
| LoaderFold.FieldsAfter | src/main/java/com/opentext/infofabric/dataquery/graphql/dataloaders/rdbms/RDBMSSimpleLoader.java:172-196 | each field of an object develops on its own: key, columns, children, and no other |
| LoaderLaws.HasManyIsCompleteIffNoCollision | src/main/java/com/opentext/infofabric/dataquery/graphql/results/ResultObject.java:38-51 | a has-many set holds all linked children iff no two of their keys share a hash code |
| LoaderLaws.HashIs | src/main/java/com/opentext/infofabric/dataquery/graphql/results/ResultObject.java:38-43 | the hash code the set is ordered by is the sum of powers of 31 that the Java language documents, in 32 bits |
| LoaderLaws.AaCollidesWithBB | src/main/java/com/opentext/infofabric/dataquery/graphql/results/ResultObject.java:38-43 | two different keys with one hash code: any text ending in Aa and the same text ending in BB |
| LoaderLaws.CollidingChildIsLost | src/main/java/com/opentext/infofabric/dataquery/graphql/results/ResultObject.java:46-51 | the second of two colliding children is not in the set |
| LoaderLaws.RowOrderIsIrrelevantIff | src/main/java/com/opentext/infofabric/dataquery/graphql/dataloaders/rdbms/RDBMSSimpleLoader.java:148-198 | when rows agree on what keys stand for, the cached object of a key is the same for every order and repetition of the rows if and only if no two children of one of its has-many fields share a hash code |
| Rebuild.Rebuilt | src/main/java/com/opentext/infofabric/dataquery/graphql/dataloaders/rdbms/RDBMSSimpleLoader.java:100-198 | round trip, for joined rows under any WHERE clause: below any shown row the object read back from the loader is the object the kept rows show, if and only if no to-one field shows two rows and no two children of one has-many field have keys of one hash code |
| Rebuild.ShownIsBuilt | src/main/java/com/opentext/infofabric/dataquery/graphql/dataloaders/rdbms/RDBMSSimpleLoader.java:148-198 | when no joined row is dropped, what the rows show is what nested loops build, at every depth |
| LoaderHeap.ResultObject.LinkChild | src/main/java/com/opentext/infofabric/dataquery/graphql/dataloaders/rdbms/RDBMSSimpleLoader.java:184-195 | a child joins the hash-ordered set under its field or replaces the previous one, in place |
| LoaderHeap.RDBMSSimpleLoader.ParseTabularTree | src/main/java/com/opentext/infofabric/dataquery/graphql/dataloaders/rdbms/RDBMSSimpleLoader.java:148-198 | the recursive method on shared objects keeps the heap an image of the specified state: one object per key, every reference into the cache |
| LoaderHeap.RDBMSSimpleLoader.ResultSetToList | src/main/java/com/opentext/infofabric/dataquery/graphql/dataloaders/rdbms/RDBMSSimpleLoader.java:100-115 | the row loop ends in the specified state |
| LoaderHeap.FollowedIsReified | src/main/java/com/opentext/infofabric/dataquery/graphql/dataloaders/rdbms/RDBMSSimpleLoader.java:182-197 | following references in the heap reads the same tree as following keys in the state |
| SingleMode.SubSelectFilters | src/main/java/com/opentext/infofabric/dataquery/graphql/dataloaders/rdbms/SQLSimpleParser.java:72-77 | the sub-select keeps exactly the root rows one of whose joined rows satisfies the root filter as compiled, that is without its operator-less negations, whatever joined tables its names lead to |
| SingleMode.SingleModeShows | src/main/java/com/opentext/infofabric/dataquery/graphql/dataloaders/rdbms/RDBMSSimpleLoader.java:38-51 | for every request that compiles and every answer of a database that takes its statement, the loader returns the objects the kept rows show, root by root, if and only if it can hold each of them |
| SingleMode.SingleModeBuilds | src/main/java/com/opentext/infofabric/dataquery/graphql/dataloaders/rdbms/RDBMSSimpleLoader.java:38-51 | with a root filter of own columns the loader returns the objects that nested loops over the compiled filters build, from the page of the roots they select, if and only if no to-one field has two rows and no two siblings have keys of one hash code |
| Asked.SelectsAsAskedIff | src/main/java/com/opentext/infofabric/dataquery/graphql/dataloaders/rdbms/SQLQueryParser.java:63-97 | what a filter asks for is read off the request: some choice of related rows makes it true, dotted names walked from the row. Compiled without aliases, every set and every filter of a tree (no value being NULL) selects what it asks for, in every database and on every type that selects the relationships it names, if and only if no set without an operator carries a not and no name is dotted |
| Asked.TwoNegationsCancel | src/main/java/com/opentext/infofabric/dataquery/graphql/dataloaders/rdbms/SQLQueryParser.java:63-79 | why every part of the tree counts: two lost negations cancel, and the whole set selects what it asks for |
| Asked.BuildIsAsked | src/main/java/com/opentext/infofabric/dataquery/graphql/dataloaders/rdbms/SQLSimpleParser.java:127-130 | when no nested filter is dotted and no nested set negates without an operator, the objects over the compiled filters are the objects asked for, in every database, at every depth |
| AskedRoots.RootIsAsked | src/main/java/com/opentext/infofabric/dataquery/graphql/dataloaders/rdbms/SQLSimpleParser.java:72-101 | under the same condition, and no such negation in the root filter, the sub-select selects exactly the roots asked for, the dotted names of the root filter included |
| AskedRoots.OpenIsSelected | src/main/java/com/opentext/infofabric/dataquery/graphql/dataloaders/rdbms/SQLQueryParser.java:63 | a concrete request: asked for the orders that are not open, the sub-select selects an open one |
| AskedRoots.SingleModeAnswersRequest | src/main/java/com/opentext/infofabric/dataquery/graphql/dataloaders/rdbms/RDBMSSimpleLoader.java:38-51 | against the request itself: when it is read as written and its root filter names own columns, the loader returns the page of the roots asked for with the objects asked for, if and only if it can hold them |
| EndToEnd.TraverseSingle | src/main/java/com/opentext/infofabric/dataquery/graphql/traversal/SingleTraversal.java:45-78 | compile, execute the text, read the labels, rebuild on the heap: it fails to compile exactly when the compiler does, is refused exactly when the database does not take the statement, and otherwise delivers the sorted page of the selected roots (those asked for, when the request is read as written) with the objects the rows show, or nested loops build, if and only if the data of the page can be held |
| Requests.RequestIsGood | src/main/java/com/opentext/infofabric/dataquery/graphql/traversal/SingleTraversal.java:45-78 | over a good schema a selection with accepted arguments, no relationship twice, meets every condition of both modes; its statement compiles if and only if the dotted names of its root filter walk along selected relationships |
| Requests.SelectionIsTakenIff | src/main/java/com/opentext/infofabric/dataquery/graphql/dataloaders/rdbms/SQLSimpleParser.java:54-222 | a database with the columns of the schema takes the statement if and only if the sort field is selected, every root filter ends in a scalar of the type it leads to, and every nested filter in the name of a column of its own table |
| Requests.AnswerSelection | src/main/java/com/opentext/infofabric/dataquery/graphql/traversal/SingleTraversal.java:45-146 | from schema, selection and arguments to the linked objects: which of no request, no statement, refused and delivered it is, and what is delivered, in which order; every delivered object, at every depth, has for every selected scalar the value of its row; nothing but keys is asked of the data |
| Requests.LoadedShowSelected | src/main/java/com/opentext/infofabric/dataquery/graphql/dataloaders/rdbms/RDBMSSimpleLoader.java:148-198 | every object the loader returns, whether or not its children collide, shows the selected scalars of its row, and every child is that of a selected relationship and shows what is selected there |
| Requests.AsksAsWritten | src/main/java/com/opentext/infofabric/dataquery/graphql/query/FilterSet.java:111-209 | what a selected type asks of a row is what its argument says as it is written, for some choice of related rows |
| Requests.SelectionModesAgree | src/test/java/com/opentext/infofabric/dataquery/regression/RDBMSRegressionTest.java:91-102 | the agreement of both modes from the selection on: every structural condition follows from the schema |
| Batch.AddJoinCondition | src/main/java/com/opentext/infofabric/dataquery/graphql/dataloaders/rdbms/SQLBatchParser.java:172-196 | the IN list has the parent key of every joined query, on the bridge or child column of the first |
| Batch.Parse | src/main/java/com/opentext/infofabric/dataquery/graphql/dataloaders/rdbms/SQLBatchParser.java:47-113 | the fused statement of a list of queries that are no aggregates, with or without a bridge, with the default sort and the default "id" column |
| Batch.OneQueryAnswered | src/main/java/com/opentext/infofabric/dataquery/graphql/dataloaders/rdbms/SQLBatchParser.java:47-196 | any answer to the compiled statement of one query, in terms of the query: the page of the distinct result rows of the rows that meet its filter and hang on its parent, sorted by its field or "id" in its direction |
| Batch.MatchQueriesToResults | src/main/java/com/opentext/infofabric/dataquery/graphql/dataloaders/rdbms/RDBMSBatchLoader.java:122-161 | one list per query, in order, each with its rows in order; it fails exactly when there are several queries and a NULL stands where one of them looks for its parent key |
| Batch.FusedRow | src/main/java/com/opentext/infofabric/dataquery/graphql/dataloaders/rdbms/SQLBatchParser.java:47-196 | a row of the fused query belongs to some query, and with its own key is a row of that query alone |
| Batch.BatchRefinesSingles | src/main/java/com/opentext/infofabric/dataquery/graphql/dataloaders/rdbms/RDBMSBatchLoader.java:80-161 | the i-th list split out of the single IN query is an answer of query i run alone, and exactly n lists come back |
| Multi.LoadAndAssign | src/main/java/com/opentext/infofabric/dataquery/graphql/traversal/RecursiveTraversal.java:198-231 | a child list becomes the field of its parent; it fails exactly when a to-one field, there or below, has two rows |
| Multi.QueriesAreLegal | src/main/java/com/opentext/infofabric/dataquery/graphql/dataloaders/rdbms/SQLBatchParser.java:47-196 | the fused statement of a field is one a database with the columns of the selection takes: it is sorted by the selected key |
| Multi.TraverseJoin | src/main/java/com/opentext/infofabric/dataquery/graphql/traversal/RecursiveTraversal.java:161-195 | one dispatch for all parents: every parent with a key gets exactly its own children, the others none |
| Multi.Resolve | src/main/java/com/opentext/infofabric/dataquery/graphql/traversal/RecursiveTraversal.java:117-195 | the recursion over all fields succeeds iff no to-one field has two rows, and then builds the nested-loop object of every row, with the children of every field, at every depth, by ascending primary key |
| Multi.StandInBuildsSame | src/main/java/com/opentext/infofabric/dataquery/graphql/traversal/RecursiveTraversal.java:161-195 | the selected columns of a row determine its whole object |
| Agreement.TraverseAndLoad | src/main/java/com/opentext/infofabric/dataquery/graphql/traversal/RecursiveTraversal.java:68-115 | a whole run of multi-query mode, dotted filters included: the root query is refused exactly when its sort field is not selected or its filter does not name own columns; the rows read are an answer to it, in the order asked for, whether or not the run fails, and it fails exactly on a to-one field with two rows |
| Agreement.SameRoots | src/main/java/com/opentext/infofabric/dataquery/graphql/traversal/RecursiveTraversal.java:77-94 | both modes page the same roots in the same order |
| Agreement.ModesAgree | src/test/java/com/opentext/infofabric/dataquery/regression/RDBMSRegressionTest.java:91-102 | whatever the database answers to either mode, the single-query loader returns the objects of the multi-query run, up to order of children and absent, null and empty fields, if and only if no two siblings have keys of one hash code |
| EndToEnd.CompiledModesAgree | src/test/java/com/opentext/infofabric/dataquery/regression/RDBMSRegressionTest.java:91-102 | the same with the type tree read from the compiled labels |
| RowSecurity.AccessPrivileges.PopulateRowSecurity | src/main/java/com/opentext/infofabric/dataquery/util/DataqueryUtils.java:115-139 | a role's permissions are merged in: per type one OR over all granted sets, each an AND of its filters |
| RowSecurity.GetAccessPrivileges | src/main/java/com/opentext/infofabric/dataquery/util/DataqueryUtils.java:96-113 | read off the cache: a table is readable (or writable) iff the entry of some role under tenant_role, of the same tenant, lists it for the model; a type is restricted iff such an entry restricts it; a row passes iff then all filters of one of the sets listed there hold |
| RowSecurity.RolesAllow | src/main/java/com/opentext/infofabric/dataquery/util/DataqueryUtils.java:96-139 | what the merged permissions restrict and allow is what the entries of the user's roles list |
| RowSecurity.SecuredMeans | src/main/java/com/opentext/infofabric/dataquery/graphql/traversal/SingleTraversal.java:89-106 | a row passes the merged filter iff some role grants a set all of whose filters hold, or none restricts the type, and it passes the query's own filter as compiled |
| RowSecurity.RoleOrderIsIrrelevant | src/main/java/com/opentext/infofabric/dataquery/util/DataqueryUtils.java:96-113 | order and repetition of roles do not matter |
| SingleTraversal.Traverse | src/main/java/com/opentext/infofabric/dataquery/graphql/traversal/SingleTraversal.java:108-146 | the joins become a tree of distinct objects that stands for the selection, and the set of tables is exactly the tables it reads |
| SingleTraversal.PopulateJoinConditionFiltersets | src/main/java/com/opentext/infofabric/dataquery/graphql/traversal/SingleTraversal.java:80-87 | the merged filter is put on every join once, and on nothing else |
| SingleTraversal.Execute | src/main/java/com/opentext/infofabric/dataquery/graphql/traversal/SingleTraversal.java:45-78 | a query is prepared iff the selected type and that of every selected relationship, at any depth, are readable, and then carries row security on its root and on every join |
| SingleTraversal.SecuredBuild | src/main/java/com/opentext/infofabric/dataquery/graphql/traversal/SingleTraversal.java:65-106 | the objects of a secured selection are the objects of the selection without the children the roles do not allow, at every depth |
| SecuredMode.SecuredModeShows | src/main/java/com/opentext/infofabric/dataquery/graphql/traversal/SingleTraversal.java:65-78 | through compiler and loader, of a statement the database takes: the user is shown a page of the roots the compiled query selects and the roles allow, each with exactly its selected and allowed objects, if and only if the loader can hold them |
| SecuredMode.SecuredIsAsked | src/main/java/com/opentext/infofabric/dataquery/graphql/traversal/SingleTraversal.java:89-106 | when the own filter is read as written, a row passes the merged filter iff the roles allow it and the request asks for it |
| SecuredMode.SecuredModeAnswersRequest | src/main/java/com/opentext/infofabric/dataquery/graphql/traversal/SingleTraversal.java:65-78 | of a request that is read as written the user is shown a page of the roots it asks for and the roles allow, each with exactly the objects it asks for and they allow, if and only if the loader can hold them |
| SecuredMode.SecuredModeServesUser | src/main/java/com/opentext/infofabric/dataquery/util/DataqueryUtils.java:96-139 | the same against the cache of permissions: the user is shown the rows that are asked for and that the entries of the user's roles allow, with exactly such objects |
| SecuredAgreement.SecuredModesAgreeIff | src/main/java/com/opentext/infofabric/dataquery/graphql/traversal/RecursiveTraversal.java:68-115 | row security is put on one mode only: the two modes return the same objects if and only if the roles allow every selected root up to the end of the page and every row selected below its roots, at every depth |
| RecordLock.RecordLockStatement.Validate | src/main/java/com/opentext/infofabric/dataquery/namedqueries/rdbms/RecordLockGet.java:61-85 | the first missing variable in the order of the checks, and what validation writes into the caller's variables |
| RecordLock.RecordLockStatement.Release | src/main/java/com/opentext/infofabric/dataquery/namedqueries/rdbms/RecordLockRelease.java:17-27 | the release is a get whose clock and expiry expressions are NULL |
| RecordLock.RecordLockStatement.Build | src/main/java/com/opentext/infofabric/dataquery/namedqueries/rdbms/RecordLockGet.java:87-140 | the conditional UPDATE of a get or a release, of the table that the variable named table names, or the fault that refuses it |
| RecordLock.RefusedIff | src/main/java/com/opentext/infofabric/dataquery/namedqueries/rdbms/RecordLockGet.java:61-92 | a statement is built exactly when the variables it asks for are there, a release without time to live and read flag, and table and key column are no numbers or truth values |
| RecordLock.EffectiveIff | src/main/java/com/opentext/infofabric/dataquery/namedqueries/rdbms/RecordLockGet.java:89-112 | a step acts on a table exactly when it is complete, its variable table names that table, and the time to live of a get is an interval |
| RecordLock.StepWrites | src/main/java/com/opentext/infofabric/dataquery/namedqueries/rdbms/RecordLockGet.java:87-136 | from the variables to the record: it is updated iff the named column holds the key and it is unlocked, expired or locked by the value; a get leaves value, flag as text, now and now plus the time to live, a release NULL |
| RecordLock.PreparedLeaves | src/main/java/com/opentext/infofabric/dataquery/namedqueries/rdbms/RecordLockRelease.java:46-49 | validation keeps the value as the old one, a release clears what a get would write, and every other variable stays |
| RecordLock.ConditionMeans | src/main/java/com/opentext/infofabric/dataquery/namedqueries/rdbms/RecordLockGet.java:114-131 | the four-way WHERE clause in three-valued logic: the record asked for, and unheld, own, expired or without a time |
| RecordLock.StepMeans | src/main/java/com/opentext/infofabric/dataquery/namedqueries/rdbms/RecordLockGet.java:87-140 | one statement on one record: whether it updates it and the whole record afterwards |
| LockLaws.UpdateShapesIff | src/main/java/com/opentext/infofabric/dataquery/namedqueries/rdbms/RecordLockGet.java:103-112 | an update leaves owner, time and expiry all NULL or all set iff it is a release or names an owner |
| LockLaws.ShapedThroughout | src/main/java/com/opentext/infofabric/dataquery/namedqueries/rdbms/RecordLockGet.java:103-133 | over every run from all NULL the three columns stay all NULL or all set, as long as every get names an owner |
| LockLaws.OwnerlessLock | src/main/java/com/opentext/infofabric/dataquery/namedqueries/rdbms/RecordLockGet.java:68-70 | validation accepts a null owner: the get takes the free record and leaves a lock that is free to everybody |
| LockLaws.Refines | src/main/java/com/opentext/infofabric/dataquery/namedqueries/rdbms/RecordLockGet.java:103-133 | gets and releases refine a two-state lock with an owner and an expiry |
| LockLaws.ReleaseToldZeroIff | src/main/java/com/opentext/infofabric/dataquery/namedqueries/rdbms/RecordLockRelease.java:20-21 | a release is told 0 exactly when a different id holds the record unexpired |
| LockLaws.StrangerFailsIff | src/main/java/com/opentext/infofabric/dataquery/namedqueries/rdbms/RecordLockGet.java:114-123 | while a lock is held a step for another id succeeds exactly when the clock has passed its expiry |
| LockLaws.LockSafety | src/main/java/com/opentext/infofabric/dataquery/namedqueries/rdbms/RecordLockGet.java:87-140 | over every run of any clients: after a get by v at t with ttl d, no get or release for another id (NULL included) is told 1 until a step of v or a clock past t + d; clocks need not be monotone |
| Lexer.PrepareStatement | src/main/java/com/opentext/infofabric/dataquery/namedqueries/rdbms/NamedPreparedStatement.java:46-95 | the scanner with its four flags yields the text and the names of the specification, and nothing exactly when it reads past the end |
| Lexer.ScanUndoes | src/main/java/com/opentext/infofabric/dataquery/namedqueries/rdbms/NamedPreparedStatement.java:55-92 | putting the names back where a `?` was put in gives the original text, in every mode |
| Lexer.ScanIsIdempotent | src/main/java/com/opentext/infofabric/dataquery/namedqueries/rdbms/NamedPreparedStatement.java:55-92 | scanning the result again finds no parameter, changes nothing and reads every character in the same mode |
| Lexer.FailsIff | src/main/java/com/opentext/infofabric/dataquery/namedqueries/rdbms/NamedPreparedStatement.java:66-80 | it fails exactly on a slash or dash that ends the text outside quotes and comments, or a star that ends an open comment |
| Lexer.ScannedAsMeantIff | src/main/java/com/opentext/infofabric/dataquery/namedqueries/rdbms/NamedPreparedStatement.java:55-92 | against a lexical grammar of SQL with casts and block comments, on every statement in which quotes and comments are closed and no comment stands in a comment: the parameters are replaced, everything else is copied and every character is read inside or outside quotes and comments as it stands there, if and only if no cast stands outside them, no comment begins with a slash or is followed by a star or by nothing, and no slash or dash ends the text |
| Lexer.PreparedAsMeant | src/main/java/com/opentext/infofabric/dataquery/namedqueries/rdbms/NamedPreparedStatement.java:46-95 | a statement the scanner understands is prepared with its parameters replaced, and its names are its parameters in order |
| Lexer.MisreadWithoutHarm | src/main/java/com/opentext/infofabric/dataquery/namedqueries/rdbms/NamedPreparedStatement.java:66-78 | a concrete misread comment that does no harm, which is why the equivalence speaks of the mode of every character |
| Lexer.NamesTakenIffNoCast | src/main/java/com/opentext/infofabric/dataquery/namedqueries/rdbms/NamedPreparedStatement.java:81-89 | when casts are all the scanner does not understand, the names collected are the parameters if and only if there is no cast |
| Lexer.CastMisread | src/main/java/com/opentext/infofabric/dataquery/namedqueries/rdbms/NamedPreparedStatement.java:81-89 | in x::type the type is taken for a parameter |
| Lexer.ReopenedComment | src/main/java/com/opentext/infofabric/dataquery/namedqueries/rdbms/NamedPreparedStatement.java:66-78 | a concrete statement whose parameter is lost: its comment is reopened by the star that follows |
| Lexer.NameInsideComment | src/main/java/com/opentext/infofabric/dataquery/namedqueries/rdbms/NamedPreparedStatement.java:66-78 | a concrete statement in which a name is taken from inside a comment |
| Lexer.NamesAreParameters | src/main/java/com/opentext/infofabric/dataquery/namedqueries/rdbms/NamedPreparedStatement.java:86-89 | the collected names are the parameters of that text, in order |
| Lexer.TrailingCommentIsRefused | src/main/java/com/opentext/infofabric/dataquery/namedqueries/rdbms/NamedPreparedStatement.java:66-79 | a statement that ends in a block comment is refused |
| Binding.NamedPreparedStatement.GetParameterIndexes | src/main/java/com/opentext/infofabric/dataquery/namedqueries/rdbms/NamedPreparedStatement.java:103-115 | all positions of a name, ignoring case, from 1; none exactly when the statement does not mention it |
| Binding.NamedPreparedStatement.Bind | src/main/java/com/opentext/infofabric/dataquery/services/impl/NamedQueryExecutorServiceImpl.java:193-247 | binding succeeds iff parameters and variables cover each other and every value converts; then every slot has the value of the last variable of its name, and otherwise the fault is that of the parameters without a variable or of the first variable that cannot be set |
| Binding.ValueIff | src/main/java/com/opentext/infofabric/dataquery/services/impl/NamedQueryExecutorServiceImpl.java:211-243 | a variable is converted by its kind, ignoring case; without a kind, or with an unknown one, it is text |
| Binding.MissingInOrder | src/main/java/com/opentext/infofabric/dataquery/services/impl/NamedQueryExecutorServiceImpl.java:200-209 | the parameters reported missing are those at the positions without a variable, in order |
| Binding.Preview | src/main/java/com/opentext/infofabric/dataquery/services/impl/NamedQueryExecutorServiceImpl.java:176-252 | from text to values, for every text: when the scanner does not look past the end, slot k gets the value of the last variable named, ignoring case, like the k-th name it takes |
| Job.EveryRun | src/main/java/com/opentext/infofabric/dataquery/services/impl/NamedQueryExecutorServiceImpl.java:94-150 | every interleaving of worker and timeout handler keeps flag, log, positions and times consistent |
| Job.WorkerTellsIff | src/main/java/com/opentext/infofabric/dataquery/services/impl/NamedQueryExecutorServiceImpl.java:144-150 | in every run without a failure the finished worker has published success if and only if the timeout handler had a move before the worker's check |
| Job.HandlerFiresIff | src/main/java/com/opentext/infofabric/dataquery/services/impl/NamedQueryExecutorServiceImpl.java:94-108 | in every run the handler fires if and only if it gets a move while the response is suspended |
| Job.StatusByMoves | src/main/java/com/opentext/infofabric/dataquery/services/impl/NamedQueryExecutorServiceImpl.java:96-146 | without a failure the status is told by the number of moves of the worker: starting, executing, executed, writing when there is a result set, success |
| Job.HandlerTells | src/main/java/com/opentext/infofabric/dataquery/services/impl/NamedQueryExecutorServiceImpl.java:102-107 | what the handler publishes is the status the job had when the handler read it |
| Job.ToldInOrderIff | src/main/java/com/opentext/infofabric/dataquery/services/impl/NamedQueryExecutorServiceImpl.java:94-150 | in every complete run in which the handler fires, published statuses never go backwards and end with success iff the handler's publication was not overtaken by the worker's |
| Job.UndividedIsInOrder | src/main/java/com/opentext/infofabric/dataquery/services/impl/NamedQueryExecutorServiceImpl.java:102-107 | when the handler publishes in one step, that is every such run, on either side of the check |
| Job.OvertakenRun | src/main/java/com/opentext/infofabric/dataquery/services/impl/NamedQueryExecutorServiceImpl.java:102-149 | a run in which `executing` is published after `success` |
| Job.FailedShowsSuccessIff | src/main/java/com/opentext/infofabric/dataquery/services/impl/NamedQueryExecutorServiceImpl.java:145-155 | a job that fails publishes nothing of its own, and shows success, in its status or through the handler, exactly when it failed in its own publication |
| Job.FailedButToldSuccess | src/main/java/com/opentext/infofabric/dataquery/services/impl/NamedQueryExecutorServiceImpl.java:145-155 | a run whose response is a failure while its only publication says `success` |
| Streaming.Stream | src/main/java/com/opentext/infofabric/dataquery/util/ResultSetStreamUtil.java:56-146 | the row loop with its shared array sends, payload by payload, the slices of the rows, or with a type everything so far |
| Streaming.UntypedConserves | src/main/java/com/opentext/infofabric/dataquery/util/ResultSetStreamUtil.java:113-143 | without a type the payloads concatenate to all rows in order, 1000 in each but the last, which has at least one |
| Streaming.TypedRepeats | src/main/java/com/opentext/infofabric/dataquery/util/ResultSetStreamUtil.java:107-136 | a typed payload repeats everything an untyped stream of the rows has sent by then |
| Streaming.TypedConservesIff | src/main/java/com/opentext/infofabric/dataquery/util/ResultSetStreamUtil.java:107-136 | with a type the payloads conserve the rows iff there are at most 1000 |
| Streaming.TypedTotal | src/main/java/com/opentext/infofabric/dataquery/util/ResultSetStreamUtil.java:107-145 | a typed stream of 1000 k + r rows sends 500 k (k + 1) rows, and all of them once more when r is positive |
| Complexity.AbortsIff | src/main/java/com/opentext/infofabric/dataquery/graphql/FieldComplexityCalculatorImpl.java:38-62 | exact on every query tree, with 32-bit wrap-around and introspection: it is aborted iff the test fails at some field, on the combined count of its subtree |
| Complexity.TestIs | src/main/java/com/opentext/infofabric/dataquery/graphql/FieldComplexityCalculatorImpl.java:53-59 | the test is on plain fields modulo 1000, and on joins plus plain fields / 1000 |
| Complexity.ExceedsIff | src/main/java/com/opentext/infofabric/dataquery/graphql/FieldComplexityCalculatorImpl.java:53-59 | for every 32-bit number, negative ones included: the test fails iff the remainder of the division by 1000 toward zero, or its quotient, is over its limit |
| Complexity.ExactBelowCarry | src/main/java/com/opentext/infofabric/dataquery/graphql/FieldComplexityCalculatorImpl.java:38-62 | a query of fewer than 1000 plain fields is aborted iff some top-level field has more plain fields or more joins than allowed |
| Complexity.WideSelection | src/main/java/com/opentext/infofabric/dataquery/graphql/FieldComplexityCalculatorImpl.java:38-62 | a join over n plain fields passes iff n modulo 1000 and 1 + n / 1000 are within the limits, so 1000 fields pass any limit of fields |
| Complexity.WideIntrospection | src/main/java/com/opentext/infofabric/dataquery/graphql/FieldComplexityCalculatorImpl.java:42-59 | a field over n introspection fields passes up to n = 2147; from 2148 on the discount wraps around and the digits of the wrapped number decide |

## Left out

- Batch.BatchRefinesSingles: queries of one batch have no limit or skip, as only root queries have them.
- Agreement.ModesAgree: stated for a root sort by primary key and a root filter of own columns, as a dotted one is read differently by the two modes; children are compared as sets, and absent, null and empty fields are not told apart.
- EndToEnd.TraverseSingle: the objects are read by following references, so the iteration order of a has-many set is not part of the result.
- ColumnTree.ParseColumns: the map of types is a value and the tree is assembled from its lists of children, so sharing of row-object nodes while they are linked is not modelled; any iteration order of the sorted map is allowed.
- Multi.LoadAndAssign: result maps are values, so `put` into a shared parent map is not modelled as an update in place; the parent is a row with its children.
- Job.ToldInOrderIff: the two threads are a transition system over their steps, not code; publishing is a foreign call, read as taking a snapshot and appending it.
- RecordLock.RecordLockStatement.Build: SQL text printing is left to the query builder; a null variable is taken to print as NULL, and a missing key column as never equal.
- Binding.NamedPreparedStatement.Bind: the text shown by a preview, with values in place of names, and the check of the model name in the query text are left out, as are literal `?` characters in the original text.
- FilterReader.ParseFilter: operator and field name are required by the GraphQL schema, so their absence is not modelled.
- SimpleParser.SQLSimpleParser.Parse: quoting of identifiers and the printed characters of the statement are left out; the text is its clauses.
- SingleTraversal.Traverse: starts from the tree of relationships; the schema lookups, filters and projections of the same loop are those of Projections.BuildNode.
- Batch.Parse: aggregates of batch mode; that some projected column is of type ID is part of the query.
- Asked.SelectsAsAskedIff: stated for every part of a tree, since a whole tree can be right by two lost negations; the converse for root filters is PreservedIffNoLoneNegation, on conditions.
- Lexer.ScannedAsMeantIff: comments inside comments, dollar quotes and statements that leave a quote or comment open are outside the grammar.
- Requests.AnswerSelection: a relationship selected twice and a filter with an empty list are excluded; the first is refused by the database in single-query mode and overwrites its field in multi-query mode.
- Rebuild.Rebuilt: under a root filter on joined tables the objects are compared with what the kept rows show, not with nested loops.
- Aggregate queries beyond their parameters, ordering and aliases: grouping, the aggregate column and `parseTable` build flat rows.
- Filters by id: their construction always yields an equality and adds nothing to the compiler; a filter whose field name is missing defaults to "id" there.
- IN with an empty list: the printed text depends on the query builder.
- A null condition inside a combined condition: taken as a failure of the query builder.
- A bridge table and its child are two chained left joins in the text and one step in the algebra; a bridge's parent column is taken not to clash with a child column.
- A column named like a has-many field would fail a cast; the schema excludes it.
- Coercion of dates, times and numbers, and equality of keys across Java types: values are texts.
- Batching window, caching and statistics of the data loader: a dispatch is one call of the batch function.
- JDBC, HBase, Kafka, DataCast, HTTP endpoints, wiring, metrics, logging, the SDL generator and the response cache.
- Printing by the SQL builder and summation of child complexities by the GraphQL library are taken as documented: clauses print in insertion order with FROM and JOIN before WHERE, and child values are added.
- Write privileges are collected, but the mutations that check them are left out.
