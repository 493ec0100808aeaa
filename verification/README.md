# A verified model of the oxyd virtual CRUD core

oxyd serves `/api/{table}` for tables it discovers at run time. A request becomes SQL text with numbered
placeholders and a list of bound values; the text runs inside a transaction that tells the row policies who
is asking; a cached registry decides whether the table is served at all; and refresh sessions keep callers
signed in. This project models these four parts and proves what they are for.

`dafny verify dfyconfig.toml` checks everything.

## How the model is laid out

**The query compiler.** `Text` and `Catalog` hold the string operations and entities. `SqlTokens` is a lexer
for the emitted SQL with the theorem that lexing undoes spelling. `SqlStatements` and `SqlFrames` give the five
statement forms their layout and text, `SqlReader` reads text and bound values back into a statement, and
`SqlNames` says which table names survive the trip. `SqlMeaning` gives statements their effect on a table, with
casts, comparisons, LIKE, defaults and orderings left to an arbitrary interpretation and NULL in three-valued
logic (PostgreSQL manual, section 9.1). `WhereClause`, `SelectBuilder`, `InsertBuilder`, `UpdateBuilder` and
`DeleteBuilder` are the builders in the form the source has them: methods with loops that push into shared bind
lists. Each is proved against a request function, and the request is then proved to mean what was asked.
`JsonMeaning` says what the JSON values of a body stand for in a row, without the builders. `Markers` and `Names`
hold what the SELECT's markers and the INSERT's sorted column list need. `QueryParser` is the query-string parser,
`QuerySafety` what parser and builders guarantee together.

**The transaction context.** `Executors` is the transaction every executor steps through, on a database class
that can fail at each step; the source repeats these steps in four functions, the model has them once in
`RunStatement`. `EndToEnd` says what a request did to the table and answered without mentioning SQL. `Isolation`
interleaves any number of requests on a connection pool over a table with the policies of `posts`.

**Refresh sessions.** `Sessions` has the table, the rotation, and `register`, `login` and `refresh` as methods.
`Rotation` interleaves any number of sign-ins and refreshes, split into lookup, begin, revoke under the row
lock, insert, link, commit and abort. `RotationRuns` proves what holds over whole runs.

**The registry cache.** `Registry` has the three caches and their loads as a class over a database that changes
with time; a ghost field holds the longest load so far, which with the TTL bounds how old an answer can be.
`Gate` interleaves whole requests, racing loads, evictions and writes. `Routes` has the four handlers.

**Objects and machines.** Transactions, refreshes and loads are modelled twice: as methods of objects, and as
steps that interleave. `Simulation` proves that what a method does in one call is a run of its machine.

## Where the code differs from what one might assume

- `meta.schema` and `meta.name` are interpolated without `validate_ident`. The statement texts mean what was
  requested if and only if these names contain no quote and, for a SELECT with LIMIT or OFFSET, no `$LIM` or
  `$OFF`. Both directions are proved. For all names without quotes it is proved which table is read instead: the
  replacements rewrite the markers inside the names too, so `a$LIM` with a LIMIT reads `a$1`.
- The comment on `refresh` says that it prevents replay the moment a token is used. Overlapping refreshes of one
  token can both commit, because the lookup is outside the transaction and the revocation unconditional. The
  model proves that each token is used once exactly when every commit finds its session still live, that this is
  so when the refreshes of a token come one at a time, and gives the run that breaks it.
- `refresh` reads the user's email after its commit, so it can report an error although the rotation happened; the
  contract says exactly when, and `LostAnswer` is such a call. `register` can report an error although the user
  was created.
- `load_table_meta` keys its cache by `schema.table`; two schemas can collide exactly if one begins with the
  other and a dot. The handlers' fixed schema `public` has no dot.
- With an empty column union an INSERT adds one row of defaults, however many objects were sent.
- LIKE and ILIKE values are bound as they come; `*` is not translated.

## Model

| member | source | states |
|---|---|---|
| `WhereClause.WhereTextMeans` | oxyd-core/src/virtual_crud/query.rs:221-352 | for every table, accepted non-empty filter list, already filled bind list and row: the WHERE text lexes, its placeholders are exactly the numbers after the bound values, it reads as one condition per filter, and it is the three-valued conjunction of the filters under every interpretation of casts and operators |
| `WhereClause.BuildWhereSql` | oxyd-core/src/virtual_crud/query.rs:221-352 | the loop over the filters: on success the text of the compiled conditions, and the caller's bind list extended by exactly their values; otherwise the first filter's error |
| `WhereClause.BuildPiece` | oxyd-core/src/virtual_crud/query.rs:242-345 | one filter: its piece of text and the value it binds, or its error with nothing bound |
| `WhereClause.NextPlaceholder` | oxyd-core/src/virtual_crud/query.rs:270-279 | a missing value is an error and binds nothing; otherwise the value is bound and the placeholder names its position |
| `WhereClause.PatternPiece` | oxyd-core/src/virtual_crud/query.rs:307-333 | LIKE and ILIKE only on text columns, with the raw value, or an empty one, bound unchanged |
| `WhereClause.CondsOfAccepted` | oxyd-core/src/virtual_crud/query.rs:242-351 | building succeeds exactly when every filter names a known column and its operator fits the column's type and its value, and gives the filters' conditions in order |
| `WhereClause.CondsMeanFilters` | oxyd-core/src/virtual_crud/query.rs:281-351 | on every row the compiled conditions are the conjunction of the filters' own truth values |
| `WhereClause.FilterHolds` | oxyd-core/src/virtual_crud/query.rs:242-345 | a filter is true exactly if the column is NULL or not as `is` asks, or if it is not NULL and its value compares as asked with the cast of the filter's text |
| `WhereClause.AllowsVisible` | oxyd-core/migrations/004_posts.sql:18-38 | under the policies a row is there exactly for a caller whose id its `user_id` is |
| `WhereClause.SelectedMatches` | oxyd-core/src/virtual_crud/query.rs:221-352 | the rows the compiled WHERE selects are the rows the policy shows and the filters match |
| `SqlMeaning.CondsTruthIsConjunction` | oxyd-core/src/virtual_crud/query.rs:350-351 | the chain of ANDs is the conjunction said without an order: false if any part is, else unknown if any is |
| `SqlNames.AcceptedIdentIsOneName` | oxyd-core/src/virtual_crud/query.rs:140-158 | between quotes, an accepted identifier adds exactly one token to the text that follows it, the quoted name itself, and no replacement of a marker touches it |
| `Catalog.PgCastOf` | oxyd-core/src/virtual_crud/query.rs:165-209 | the cast is one of the fifteen fixed names, and `text` for every type that LIKE accepts |
| `Catalog.CastOfTypeName` | oxyd-core/src/virtual_crud/query.rs:165-209 | the cast table undoes the naming of `information_schema`: every cast type is found again from its name in any case, so no two are confused; any other name is `decimal` or is treated as text |
| `Catalog.IndexColumns` | oxyd-core/src/virtual_crud/query.rs:229-233 | the type index that every builder makes of the column list |
| `Catalog.LastColumnWins` | oxyd-core/src/virtual_crud/query.rs:229-233 | the type used for a name is that of its last column in the list |
| `Catalog.AcceptedIdents` | oxyd-core/src/virtual_crud/query.rs:133-158 | a name is accepted exactly if it is not empty and has only ASCII letters, digits and `_`, the first of them no digit |
| `Text.ReplaceFirst` | oxyd-core/src/virtual_crud/select.rs:115-123 | `replace` rewrites a marker at its first place and goes on after it |
| `Text.OccursOnce` | oxyd-core/src/virtual_crud/select.rs:115-123 | between two marker-free texts a marker occurs exactly where it was written |
| `Text.ReplaceFree` | oxyd-core/src/virtual_crud/select.rs:115-123 | `replace` leaves a text without the marker alone |
| `Text.ReplaceSeam` | oxyd-core/src/virtual_crud/select.rs:115-123 | `replace` works on each side of a seam that no occurrence can cross |
| `Text.I64RoundTrip` | oxyd-core/src/virtual_crud/query.rs:57-70 | parsing the decimal text of any `i64` gives it back |
| `Text.ParsesExactly` | oxyd-core/src/virtual_crud/query.rs:57-70 | a text of at most one sign and digits is their number if it fits an `i64`, and no number otherwise |
| `Text.IntTextCanonical` | oxyd-core/src/virtual_crud/insert.rs:172-190 | the text of an id has no plus sign and no leading zero, so no other text is equal to it |
| `Text.TrimPadded` | oxyd-core/src/virtual_crud/query.rs:31-55 | trimming takes all white space off both ends and nothing else |
| `Text.SplitJoin` | oxyd-core/src/virtual_crud/query.rs:31-37 | splitting undoes joining |
| `Text.SplitOnceJoined` | oxyd-core/src/virtual_crud/query.rs:91-95 | splitting once cuts at the first separator, whatever follows |
| `SqlTokens.LexSpell` | oxyd-core/src/virtual_crud/select.rs:90-106 | lexing undoes spelling for every well-spaced token list, so pieces of text cannot run together |
| `SqlReader.StatementDenotes` | oxyd-core/src/virtual_crud/select.rs:90-106 | for all five statement forms: lexing and reading the text against the bound values gives the statement back, and its placeholders, left to right, are `$1` to `$n`, each once, with `n` the number of bound values |
| `SqlNames.MeansItself` | oxyd-core/src/virtual_crud/select.rs:100-104 | a statement's text means the statement if and only if the interpolated schema and table names contain no quote |
| `SqlNames.DenotedNames` | oxyd-core/src/virtual_crud/select.rs:100-104 | no text can denote a statement on a table whose name contains a quote, or a string that the text does not contain |
| `SelectBuilder.SelectMeansRequest` | oxyd-core/src/virtual_crud/select.rs:24-131 | the text and bound values returned for accepted options mean the requested SELECT if and only if the unchecked schema and table names contain no quote and none of the markers that get replaced |
| `SelectBuilder.SelectMeans` | oxyd-core/src/virtual_crud/select.rs:24-131 | on such names: the requested projection, table, ORDER BY, the decimal texts of LIMIT and OFFSET behind their placeholders, numbering from `$1` without gap, and the conjunction of the filters on every row |
| `SelectBuilder.PatchedIsStatement` | oxyd-core/src/virtual_crud/select.rs:79-123 | each `replace` rewrites exactly its own marker: compiled names, casts and placeholders cannot contain or join into one |
| `SelectBuilder.MarkersOccurOnce` | oxyd-core/src/virtual_crud/select.rs:79-123 | when it is replaced, each marker occurs exactly once in the text, in its own clause |
| `SelectBuilder.PatchedIsRewritten` | oxyd-core/src/virtual_crud/select.rs:79-123 | whatever the table's names, the patched text is the text of the statement with the markers in both names rewritten |
| `SelectBuilder.SelectReads` | oxyd-core/src/virtual_crud/select.rs:24-131 | for all names without quotes: the SELECT reads the table whose names are the given ones with every patched marker rewritten to its placeholder, and all else is as requested |
| `SelectBuilder.MarkedNameIsMisread` | oxyd-core/src/virtual_crud/select.rs:115-117 | with any LIMIT, the text emitted for a table `a$LIM` is the SELECT of the table `a$1` |
| `SelectBuilder.BuildSelectSql` | oxyd-core/src/virtual_crud/select.rs:24-131 | the builder with its markers, replacements and appended binds returns the patched text and the values in placeholder order, or the first error |
| `SelectBuilder.MarkedSql` | oxyd-core/src/virtual_crud/select.rs:56-106 | the text before patching, and the values that WHERE bound |
| `SelectBuilder.ProjectionSql` | oxyd-core/src/virtual_crud/select.rs:28-54 | the quoted select list, `*` for none or an empty one, or the first unknown column |
| `SelectBuilder.SelectAccepted` | oxyd-core/src/virtual_crud/select.rs:24-74 | which options become a SELECT: every select and order column known, every filter accepted |
| `Markers.ReplaceRemoves` | oxyd-core/src/virtual_crud/select.rs:115-123 | replacing a marker by a placeholder removes it everywhere and creates none, not even across seams |
| `InsertBuilder.InsertMeansBody` | oxyd-core/src/virtual_crud/insert.rs:64-258 | executing the INSERT adds, said of the body itself: for an object exactly the row that its fields ask for, for an array one row per item in order, each as the item's fields ask, and one row of defaults if no item has a column to set; a cell is the default if its key is absent, NULL if null, the cast of the string itself or of another value's text, and in a managed `user_id` the caller's id |
| `InsertBuilder.InsertMeansRequest` | oxyd-core/src/virtual_crud/insert.rs:124-258 | the text and bound values mean the requested INSERT if and only if the table's names contain no quote |
| `InsertBuilder.InsertAccepted` | oxyd-core/src/virtual_crud/insert.rs:64-192 | which bodies become an INSERT: an object, or a non-empty array of objects, with known columns only and, where the owner is managed, no `user_id` but null or the caller's own id |
| `InsertBuilder.BuildInsertSql` | oxyd-core/src/virtual_crud/insert.rs:64-258 | the builder returns the text and bound values of the requested statement, or the first error in the order of the checks |
| `InsertBuilder.NormalizeBody` | oxyd-core/src/virtual_crud/insert.rs:64-90 | an object gives its own fields once, a non-empty array of objects the fields of each item in order, anything else its error |
| `InsertBuilder.CollectKeys` | oxyd-core/src/virtual_crud/insert.rs:99-109 | the keys of all rows, or the error of the first key that is no identifier or no column |
| `InsertBuilder.AllColumns` | oxyd-core/src/virtual_crud/insert.rs:92-121 | the column list is the ascending list of the keys' union and, if managed, `user_id` |
| `Names.Sort` | oxyd-core/src/virtual_crud/insert.rs:117-120 | whatever order a set is enumerated in, sorting gives its ascending list |
| `Names.AscendingUnique` | oxyd-core/src/virtual_crud/insert.rs:117-120 | there is only one ascending list of a set of names |
| `InsertBuilder.BuildCell` | oxyd-core/src/virtual_crud/insert.rs:163-221 | one cell of the grid: DEFAULT, NULL, a placeholder with its bound value, or the refusal to override the owner |
| `InsertBuilder.BuildTuple` | oxyd-core/src/virtual_crud/insert.rs:160-224 | the inner loop: the text of one tuple, its values appended to the shared bind list |
| `InsertBuilder.BuildGrid` | oxyd-core/src/virtual_crud/insert.rs:143-224 | the nested loops: all tuples in row-major order with one numbering |
| `UpdateBuilder.UpdateMeansBody` | oxyd-core/src/virtual_crud/update.rs:45-129 | executing the UPDATE writes exactly the rows that the policy shows and the filters match, and sets each column of the body to NULL for null, to the cast of the string itself, or to the cast of another value's text, and leaves the others |
| `UpdateBuilder.UpdateKeepsKeys` | oxyd-core/src/virtual_crud/update.rs:76-89 | no primary key column, and for an authenticated caller no `user_id`, ever changes |
| `UpdateBuilder.UpdateMeansRequest` | oxyd-core/src/virtual_crud/update.rs:112-129 | the text and bound values mean the requested UPDATE if and only if the table's names contain no quote |
| `UpdateBuilder.UpdateAccepted` | oxyd-core/src/virtual_crud/update.rs:45-112 | which requests become an UPDATE: a non-empty object, a filter, assignable columns only, accepted filters |
| `UpdateBuilder.BuildUpdateSql` | oxyd-core/src/virtual_crud/update.rs:45-129 | SET and WHERE number their placeholders through one bind list |
| `UpdateBuilder.BuildSets` | oxyd-core/src/virtual_crud/update.rs:67-109 | the loop over the body: the SET parts and their bound values, or the first error |
| `UpdateBuilder.BuildSetPart` | oxyd-core/src/virtual_crud/update.rs:71-109 | one assignment: NULL or a placeholder with its cast, or the error of a protected or unknown column |
| `DeleteBuilder.DeleteMeansFilters` | oxyd-core/src/virtual_crud/delete.rs:41-86 | executing the DELETE removes exactly the rows that the policy shows and the filters match |
| `DeleteBuilder.DeleteMeansRequest` | oxyd-core/src/virtual_crud/delete.rs:62-86 | the text and bound values mean the requested DELETE if and only if the table's names contain no quote |
| `DeleteBuilder.DeleteAccepted` | oxyd-core/src/virtual_crud/delete.rs:41-63 | a DELETE needs a filter, and nothing but accepted filters |
| `DeleteBuilder.BuildDeleteSql` | oxyd-core/src/virtual_crud/delete.rs:41-86 | the builder returns the text and bound values of the requested statement, or the error |
| `QueryParser.ParseUndoesPrint` | oxyd-core/src/virtual_crud/query.rs:27-131 | parsing the printed form of canonical options gives back select list, order, limit, offset and exactly the filters, values with dots included, in every iteration order of the map |
| `QueryParser.ParseCanonical` | oxyd-core/src/virtual_crud/query.rs:27-131 | every parse result is canonical: trimmed names without separators, limit in 1..1000, offset not negative, one filter per column |
| `QueryParser.ParseIsStable` | oxyd-core/src/virtual_crud/query.rs:27-131 | printing a parse result and parsing it again changes nothing but the order of the filters |
| `QueryParser.ParseEach` | oxyd-core/src/virtual_crud/query.rs:80-128 | a map parses exactly when every non-reserved value names a known operator, and then has exactly one filter per non-reserved key |
| `QueryParser.DottedFilter` | oxyd-core/src/virtual_crud/query.rs:85-114 | the text before the first dot must be an operator, and all after it is the value; otherwise the error names the text |
| `QueryParser.OperatorNames` | oxyd-core/src/virtual_crud/query.rs:97-114 | the parser knows exactly nine operator names, in lower case |
| `QueryParser.ExplicitParsesAlike` | oxyd-core/src/virtual_crud/query.rs:27-131 | a query map parses exactly like the one in which every bare filter value has `eq.` written before it, in every iteration order, errors included |
| `QueryParser.BareOrderMeansAsc` | oxyd-core/src/virtual_crud/query.rs:45-55 | in every query map an `order` without a dot means what it means with `.asc` after it: ascending by the trimmed text |
| `QueryParser.OrderDirection` | oxyd-core/src/virtual_crud/query.rs:45-55 | with a dot, the trimmed text before it is the column and the field after it the direction, descending exactly for `desc` in any mixture of cases; what follows a second dot is ignored |
| `QueryParser.ColumnsMembers` | oxyd-core/src/virtual_crud/query.rs:31-41 | the select list has exactly the trimmed, non-empty fields |
| `QueryParser.NumbersClamped` | oxyd-core/src/virtual_crud/query.rs:57-70 | an out-of-range limit or offset becomes the nearest allowed value, and a text that is no `i64` is ignored |
| `QueryParser.FilterTextParses` | oxyd-core/src/virtual_crud/query.rs:85-127 | `op.value` gives back operator and value, whatever dots the value has |
| `QueryParser.ParseQueryOptions` | oxyd-core/src/virtual_crud/query.rs:27-131 | the parser as it fills the options step by step equals its specification, for every iteration order; what that specification means is said by the rows above |
| `QueryParser.ParseFilters` | oxyd-core/src/virtual_crud/query.rs:80-128 | the loop that skips reserved keys and stops at the first unknown operator |
| `QuerySafety.OrderIndependent` | oxyd-core/src/virtual_crud/query.rs:80-128 | two iteration orders of one map both parse and build or both fail, and the two WHERE texts, read against their own bind lists, are equally true on every row |
| `QuerySafety.OrderIndependentRequests` | oxyd-core/src/virtual_crud/query.rs:80-128 | nor does the order decide which requests are accepted or which rows they match |
| `QuerySafety.NoMassChange` | oxyd-core/src/virtual_crud/update.rs:52-54 | an UPDATE or DELETE comes only from a map with a non-reserved key and has exactly one condition per such key; maps of reserved keys alone are refused |
| `QuerySafety.RefusalsAreBadRequests` | oxyd-core/src/virtual_crud/query.rs:85-158 | whatever the parser or a builder refuses is a bad request, not another class of error |
| `Executors.RunStatement` | oxyd-core/src/virtual_crud/select.rs:163-239 | begin, the transaction-local user, one statement, commit or rollback, with a failure possible at each step: success exactly if no step fails and the database executes the text; then the statement's whole effect and its answer, a SELECT's restricted to the selected columns; with an error no change, unless the answer to the commit was lost |
| `Executors.SelectRows` | oxyd-core/src/virtual_crud/select.rs:142-249 | for every name: a refused request changes nothing and gives the builder's error, otherwise the statement read from the text is done as a whole or not at all; for names that can be read back that is the requested SELECT, and it succeeds exactly if nothing fails |
| `Executors.InsertRows` | oxyd-core/src/virtual_crud/insert.rs:36-348 | the same for INSERT |
| `Executors.UpdateRows` | oxyd-core/src/virtual_crud/update.rs:29-219 | the same for UPDATE |
| `Executors.DeleteRows` | oxyd-core/src/virtual_crud/delete.rs:31-181 | the same for DELETE |
| `EndToEnd.InsertAllOrNone` | oxyd-core/src/virtual_crud/insert.rs:261-337 | under every fault a bulk INSERT of any length leaves the table as it was or with every row that the body asks for; the second comes with an error only if the answer to the commit was lost |
| `Executors.SelectChangesNothing` | oxyd-core/src/virtual_crud/select.rs:163-239 | a SELECT never changes the table |
| `Executors.Database.SetConfig` | oxyd-core/src/virtual_crud/select.rs:165-183 | the caller's id, bound as text, becomes the transaction's setting |
| `Executors.Database.FetchAll` | oxyd-core/src/virtual_crud/select.rs:184-235 | the effect of the text as the database reads it, visible only inside the transaction, and the returned rows with the columns the text names; on failure no effect |
| `Executors.EffectFresh` | oxyd-core/src/virtual_crud/insert.rs:261-337 | a statement uses up as many identities as it writes rows, so those still to come stay unused from one request to the next |
| `Executors.Database.Commit` | oxyd-core/src/virtual_crud/select.rs:238-239 | publishes the transaction and forgets the user; a failed commit may or may not have published |
| `Executors.Database.Rollback` | oxyd-core/src/virtual_crud/select.rs:200-235 | drops the transaction's changes and its user |
| `EndToEnd.InsertDone` | oxyd-core/src/virtual_crud/insert.rs:36-348 | a successful INSERT adds and returns exactly the rows that the body asks for: one for an object, one per item of an array, or one of defaults; and touches nothing else |
| `EndToEnd.UpdateDone` | oxyd-core/src/virtual_crud/update.rs:29-219 | a successful UPDATE gives exactly the matching rows exactly the body's values, a string as itself and any other value as its text, and returns each of them once with its new values |
| `EndToEnd.DeleteDone` | oxyd-core/src/virtual_crud/delete.rs:31-181 | a successful DELETE removes exactly the matching rows and returns each of them once as it was |
| `EndToEnd.SelectDone` | oxyd-core/src/virtual_crud/select.rs:142-249 | a successful SELECT returns the selected columns, or all, of the matching rows in the requested order, after OFFSET and up to LIMIT |
| `SqlMeaning.OwnerEffects` | oxyd-core/migrations/004_posts.sql:18-38 | under the four policies a statement run for a user returns, writes and removes only that user's rows |
| `SqlMeaning.EffectsNeedUser` | oxyd-core/migrations/004_posts.sql:18-38 | under them a statement without a user returns, writes and removes nothing |
| `Isolation.RunsAreIsolated` | oxyd-core/migrations/004_posts.sql:18-38 | in every interleaving of requests of other users and anonymous ones on a shared pool, the rows of `u` are at every moment exactly those at the start, and no statement returns one |
| `Isolation.ContextIsolated` | oxyd-core/src/virtual_crud/select.rs:163-239 | in every interleaving each statement runs with the setting of its own request's user, unset if anonymous, and a connection back in the pool keeps no user |
| `Isolation.StepInv` | oxyd-core/src/virtual_crud/insert.rs:261-337 | every step of begin, set user, run, commit, rollback and failure keeps who holds which connection, what each uncommitted effect may touch, and that no two touch the same row |
| `Sessions.AuthService.Refresh` | oxyd-core/src/auth/service.rs:158-223 | without concurrency: 401 and no change if every session of the token is revoked or expired; otherwise the sessions change exactly if the new token is free and nothing fails up to the commit, by rotating one unrevoked, unexpired session of the token, after which it is refused and the new one accepted; the call succeeds exactly if also nothing fails after the commit |
| `Sessions.AuthService.Rotate` | oxyd-core/src/auth/service.rs:184-212 | the transaction: on success the old row is revoked and linked to one new live row of the same user that expires after the TTL, otherwise nothing changes |
| `Sessions.LostAnswer` | oxyd-core/src/auth/service.rs:213-223 | a concrete refresh that answers with an error although the old token is used up: the read of the email after the commit fails |
| `Sessions.AuthService.Lookup` | oxyd-core/src/auth/service.rs:168-179 | finds a session of the token that is neither revoked nor expired, or all sessions of the token are revoked or expired |
| `Sessions.AuthService.Register` | oxyd-core/src/auth/service.rs:53-103 | success exactly if the password is long enough, the email new, the token free and nothing fails; the user is added exactly if the checks pass and the first query works, so it stays when only the session insert fails |
| `Sessions.AuthService.Login` | oxyd-core/src/auth/service.rs:111-150 | success exactly for a verified active user when nothing fails and the token is free, and then one new session; unknown, inactive and wrong-password callers get their errors |
| `Sessions.AuthService.InsertSession` | oxyd-core/src/auth/service.rs:87-96 | one new live session under the next id, unless the token is in use |
| `Sessions.Follow` | oxyd-core/migrations/002_refresh_sessions.sql:7-26 | following `replaced_by` terminates at a live session of the same user |
| `Rotation.StepInv` | oxyd-core/src/auth/service.rs:158-212 | every step of every interleaving keeps the links, the tokens, the row locks, and that only a committed rotation revokes |
| `RotationRuns.ChainsEndLive` | oxyd-core/src/auth/service.rs:181-212 | in every run, sessions are revoked exactly if replaced, by a later session of the same user, so every chain ends at a live one |
| `RotationRuns.RevokedForever` | oxyd-core/src/auth/service.rs:189-192 | no session returns from revoked to live |
| `RotationRuns.ReplayRefused` | oxyd-core/src/auth/service.rs:168-179 | a lookup after the commit of a rotation of the same token finds nothing |
| `RotationRuns.CommitSawLive` | oxyd-core/src/auth/service.rs:168-212 | in every run, each committed rotation is of the session that its own earlier lookup found, which was then of the presented token, unrevoked and unexpired |
| `RotationRuns.SingleUseIffFindsLive` | oxyd-core/src/auth/service.rs:189-212 | in every run, no token is exchanged twice if and only if every commit finds the session it revokes still live: the condition that the UPDATE does not check |
| `RotationRuns.OneAtATimeSingleUse` | oxyd-core/src/auth/service.rs:158-212 | if of any two refreshes of one token the one that looked it up first ends before the other looks it up, no token is exchanged twice |
| `RotationRuns.DoublesOverlap` | oxyd-core/src/auth/service.rs:168-212 | two calls that exchanged one token rotated one session, and each had looked it up before the other committed |
| `RotationRuns.OverlapExchangesTwice` | oxyd-core/src/auth/service.rs:157-189 | a concrete interleaving in which one token is exchanged twice: the lookup is outside the transaction and the revocation unconditional |
| `RotationRuns.SessionsConserved` | oxyd-core/src/auth/service.rs:187-212 | live sessions of a user = sign-in inserts + committed rotations - distinct revoked sessions = sign-in inserts + rotations of an already rotated session |
| `RotationRuns.CountsIffSingleUse` | oxyd-core/src/auth/service.rs:187-212 | every user has as many live sessions as sign-in inserts if and only if no token was exchanged twice |
| `RotationRuns.LiveNeverDrops` | oxyd-core/src/auth/service.rs:187-212 | no step lowers a user's number of live sessions |
| `Registry.RegistryCache.OxydTablesExists` | oxyd-core/src/virtual_crud/registry/mod.rs:27-47 | a hit gives the entry's value, true at an instant less than the TTL plus that entry's load duration ago; a miss succeeds exactly if its query does, gives a value true at an instant of the call, and caches it; a failed query caches nothing |
| `Registry.RegistryCache.LoadTableConfig` | oxyd-core/src/virtual_crud/registry/mod.rs:54-101 | `None` only if the registry was absent, otherwise the table's row or the locked-down one, at an instant less than the TTL plus the longest load before the answer; an error only from a failed query or a registry dropped during the call |
| `Registry.RegistryCache.FetchTableConfig` | oxyd-core/src/virtual_crud/registry/mod.rs:71-98 | a miss reads the row at an instant of the call and caches a `Some` under that table only |
| `Registry.RegistryCache.EnsureExposed` | oxyd-core/src/virtual_crud/registry/mod.rs:163-178 | passes only with the registry absent or the table exposed at an instant of the staleness window, and then returns that row's `require_auth`; `NotFound` only if it was not exposed at such an instant |
| `Registry.RegistryCache.LoadTableMeta` | oxyd-core/src/virtual_crud/registry/mod.rs:107-154 | metadata under the table's cache key, its existence, columns and key each from an instant of the staleness window, of the call itself on a miss; `NotFound` only if the table was absent during the call |
| `Registry.RegistryCache.FetchTableMeta` | oxyd-core/src/virtual_crud/registry/mod.rs:118-151 | the three queries of a miss, at three ordered instants of the call, and the insertion |
| `Registry.CacheKeyInjective` | oxyd-core/src/virtual_crud/registry/mod.rs:112 | cache keys of schemas without a dot are never confused |
| `Registry.KeysCollideIff` | oxyd-core/src/virtual_crud/registry/mod.rs:112 | two schemas have tables that share a cache entry if and only if one schema begins with the other and a dot |
| `Registry.CacheKeyCollides` | oxyd-core/src/virtual_crud/registry/mod.rs:112 | a concrete pair: two different tables share an entry |
| `Gate.ServedIsRecent` | oxyd-core/src/virtual_crud/registry/mod.rs:27-154 | in every interleaving of loads, evictions and writes: whatever the caches return was true within the staleness window, and no configuration is `None` |
| `Gate.CacheConverges` | oxyd-core/src/virtual_crud/registry/mod.rs:54-178 | if the registry stops changing at `T`, every `ensure_exposed` that starts sixty seconds and the longest load then in flight after it answers what the rows say: no authentication without a registry, the flag of an exposed row, not found otherwise |
| `Gate.ConvergedGate` | oxyd-core/src/virtual_crud/routes.rs:76-88 | such a call goes on to the table exactly if there is no registry or an exposed row that asks for no authentication the caller lacks, and is refused otherwise |
| `Gate.GateSound` | oxyd-core/src/virtual_crud/routes.rs:78-101 | whenever a handler has run a statement, the registry was absent or exposed the table to such a caller at an instant of the staleness window, and the metadata was the table's own |
| `Gate.StepInv` | oxyd-core/src/virtual_crud/registry/mod.rs:27-178 | every step keeps what each cached entry and each call in flight know about the database |
| `Routes.Gate` | oxyd-core/src/virtual_crud/routes.rs:76-86 | lets a caller pass only if the registry was absent or exposed the table to such a caller at an instant of the staleness window; 401 only for an anonymous caller of a table that required authentication at such an instant, 404 only for one not exposed, 500 only for a failed query or a registry dropped during the call |
| `Routes.ListHandler` | oxyd-core/src/virtual_crud/routes.rs:68-104 | for every name and fault: turned away with the table as before and a reason true at an instant of the window or the call, or executed after the gate on metadata from within its window, as a whole or not at all; for names that can be read back as the requested SELECT; a bad query map changes nothing |
| `Routes.InsertHandler` | oxyd-core/src/virtual_crud/routes.rs:118-144 | the same for INSERT |
| `Routes.UpdateHandler` | oxyd-core/src/virtual_crud/routes.rs:157-187 | the same for UPDATE |
| `Routes.DeleteHandler` | oxyd-core/src/virtual_crud/routes.rs:197-226 | the same for DELETE |
| `Routes.LoadMeta` | oxyd-core/src/virtual_crud/routes.rs:90-101 | under the fixed schema the metadata is always that of the requested table, from within its staleness window; 404 only if the table was absent during the call |
| `Simulation.RequestIsARun` | oxyd-core/src/virtual_crud/select.rs:163-239 | what a request leaves in a table with the owner policies, under every fault, a run of the pool's state machine leaves too |
| `Simulation.RefreshIsARun` | oxyd-core/src/auth/service.rs:158-223 | what a call of `refresh` does to the sessions, under every fault, a run of the state machine with one refresh does |
| `Simulation.SignInIsARun` | oxyd-core/src/auth/service.rs:87-96 | the session insert of a sign-in does what the machine's sign-in step does |
| `Simulation.EnsureExposedIsARun` | oxyd-core/src/virtual_crud/registry/mod.rs:54-178 | the answer, the caches and the time after `ensure_exposed` are those after a run of the gate's steps |
| `Simulation.ExistsIsARun` | oxyd-core/src/virtual_crud/registry/mod.rs:27-47 | the answer, the caches and the time after `oxyd_tables_exists` are those after a run of the gate's steps |
| `Simulation.ConfigIsARun` | oxyd-core/src/virtual_crud/registry/mod.rs:71-98 | the same for the configuration that a miss fetches |
| `Simulation.MetaIsARun` | oxyd-core/src/virtual_crud/registry/mod.rs:118-151 | the same for the metadata that a miss fetches |

## Left out

- Catalog.PgCastOf: the lower-casing is ASCII only; no other upper-case letter lowers into one of the compared type names.
- Executors.Database.Commit: a commit that reports an error may have taken effect, so "all or nothing" is the claim there, not "nothing".
- Executors.RunStatement: SQLSTATE classes are one database error; which class becomes which HTTP status is a flat table.
- Sessions.AuthService.Register: the password hash is a parameter, and the id sequence of users has no gaps.
- Sessions.AuthService.Login: the outcome of the password check is a parameter.
- SelectBuilder.SelectMeans: LIMIT and OFFSET resolve to the decimal texts; how PostgreSQL coerces them to numbers is left to the interpretation.
- The PostgreSQL parser beyond the emitted fragment. The reader rejects an escaped quote inside an identifier; the builders emit one only for a schema or table name that holds quotes itself, such as `a""b`, which PostgreSQL would read as `a"b`: not the requested table either.
- The value of `app.current_user_id` after a transaction: PostgreSQL leaves an empty text rather than NULL on a connection that has had the setting, so the cast in a policy fails for a later anonymous request; the model has "unset" in both cases, under which the policies show and allow nothing.
- Type coercion, collation, LIKE matching, constraints, triggers and sequences' values: an arbitrary interpretation, or a failing statement.
- JSON serialisation: an array, object or scalar carries its compact text, which the builders bind.
- The queries of `registry/load.rs`: each is one atomic read of the database at one instant.
- A column named twice in a select list, which `row_to_json` repeats in its object, is answered once.
- moka: the caches are timestamped maps with a TTL and arbitrary early eviction; capacities are not modelled.
- JWT, Argon2, SHA-256, base64 and randomness: a token is an opaque string, its stored hash the token itself.
- Axum routing and extractors, HTTP status mapping, logging, and `allow_insert`, `allow_update` and `allow_delete`, which no handler reads.
- Rows locked by a concurrent transaction: a statement that would touch one waits until it is free; deadlocks are failed statements.
- Isolation covers one table with the policies of `posts`; its requests are arbitrary statements of the five forms, not only those the builders emit.
- Deletion of users, which cascades to their sessions: no modelled code does it.
